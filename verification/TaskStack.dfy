/** Where the task stacks are: one fixed range of pages per slot, each above a page that is never mapped. */
module TaskStack {
  import opened BuddyAllocator

  const MAX_SLOTS: nat := 8
  const STACK_SIZE: nat := 64 * 1024
  const STACK_PAGES: nat := STACK_SIZE / PAGE_SIZE
  const GUARD_PAGES: nat := 1
  const SLOT_STRIDE: nat := (GUARD_PAGES + STACK_PAGES) * PAGE_SIZE
  const REGION_BASE: nat := 0x3333_3333_0000

  function GuardPage(slot: nat): nat {
    REGION_BASE + slot * SLOT_STRIDE
  }

  function StackBase(slot: nat): nat {
    GuardPage(slot) + PAGE_SIZE
  }

  function StackTop(slot: nat): nat {
    StackBase(slot) + STACK_SIZE
  }

  lemma SlotAddresses(i: nat)
    ensures GuardPage(i) == 0x3333_3333_0000 + i * 0x1_1000
    ensures StackBase(i) == GuardPage(i) + 0x1000 && StackTop(i) == StackBase(i) + 0x1_0000
    ensures StackBase(i) % PAGE_SIZE == 0 && StackTop(i) % PAGE_SIZE == 0 && StackTop(i) % 16 == 0
  {
    assert SLOT_STRIDE == 0x1_1000;
    PageMultiple(0x3_3333_3331 + i * 0x11);
    PageMultiple(0x3_3333_3341 + i * 0x11);
  }

  lemma PageMultiple(n: nat)
    ensures (0x1000 * n) % PAGE_SIZE == 0 && (0x1000 * n) % 16 == 0
  {
    assert 0x1000 * n == 16 * (0x100 * n);
  }

  /** A stack ends where the next slot's guard page begins, so no two stacks share a byte. */
  lemma StacksApart(i: nat, j: nat)
    ensures StackTop(i) == GuardPage(i + 1)
    ensures i < j ==> StackTop(i) <= GuardPage(j) < StackBase(j)
    ensures REGION_BASE <= StackBase(i) < StackTop(i) && (i <= j ==> StackTop(i) <= StackTop(j))
  {
    SlotAddresses(i);
    SlotAddresses(i + 1);
    SlotAddresses(j);
    hide GuardPage, StackBase, StackTop;
  }

  function StackPage(slot: nat, i: nat): nat {
    StackBase(slot) + i * PAGE_SIZE
  }

  /** The pages of the slots that have been used. */
  function StackPages(mapped: seq<bool>): set<nat> {
    set slot, i | 0 <= slot < |mapped| && mapped[slot] && 0 <= i < STACK_PAGES :: StackPage(slot, i)
  }

  /** Whatever has been mapped, no guard page is among it, and a page belongs to one slot. */
  lemma GuardPagesNeverMapped(mapped: seq<bool>, slot: nat)
    ensures GuardPage(slot) !in StackPages(mapped)
    ensures forall i | 0 <= i < STACK_PAGES ::
              StackPage(slot, i) in StackPages(mapped) <==> slot < |mapped| && mapped[slot]
  {
    forall other: nat, i: nat | i < STACK_PAGES ensures StackPage(other, i) != GuardPage(slot) {
      PageInSlot(other, i, slot);
    }
    forall other: nat, i: nat, j: nat | i < STACK_PAGES && j < STACK_PAGES && other != slot
      ensures StackPage(other, i) != StackPage(slot, j)
    {
      PageInSlot(other, i, slot);
      PageInSlot(slot, j, slot);
    }
  }

  lemma PageInSlot(other: nat, i: nat, slot: nat)
    requires i < STACK_PAGES
    ensures GuardPage(other) < StackPage(other, i) < GuardPage(other + 1)
    ensures other < slot ==> GuardPage(other + 1) <= GuardPage(slot)
    ensures other > slot ==> GuardPage(slot + 1) <= GuardPage(other)
  {
  }

  class TaskStacks {
    const mapped: array<bool>
    /** The pages of this region that the page tables map. */
    var pages: set<nat>

    ghost predicate Valid()
      reads this, mapped
    {
      mapped.Length == MAX_SLOTS && pages == StackPages(mapped[..])
    }

    constructor ()
      ensures Valid() && fresh(mapped) && pages == {}
    {
      mapped := new bool[MAX_SLOTS](_ => false);
      pages := {};
    }

    /** Maps a slot's stack on first use, and nothing else. */
    method EnsureSlotMapped(slot: nat) returns (top: nat)
      requires Valid() && slot < MAX_SLOTS
      modifies this, mapped
      ensures Valid() && top == StackTop(slot)
      ensures mapped[..] == old(mapped[..])[slot := true]
      ensures pages == old(pages) + set i | 0 <= i < STACK_PAGES :: StackPage(slot, i)
    {
      var stackBase := StackBase(slot);
      if !mapped[slot] {
        var i := 0;
        while i < STACK_PAGES
          invariant 0 <= i <= STACK_PAGES
          invariant mapped[..] == old(mapped[..])
          invariant pages == old(pages) + set j | 0 <= j < i :: StackPage(slot, j)
        {
          pages := pages + {stackBase + i * PAGE_SIZE};
          assert (set j | 0 <= j < i + 1 :: StackPage(slot, j))
                 == (set j | 0 <= j < i :: StackPage(slot, j)) + {StackPage(slot, i)};
          i := i + 1;
        }
        mapped[slot] := true;
      }
      return stackBase + STACK_SIZE;
    }
  }
}
