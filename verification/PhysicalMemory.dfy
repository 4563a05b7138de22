/** The allocator object: the methods of `PhysicalAllocator`, each proved against BuddyAllocator. */
module PhysicalMemory {
  import opened Results
  import opened Bits
  import opened BlockTree
  import Buddy = BuddyAllocator
  import opened BuddyAllocator

  /** The lists hold blocks, fully merged, that tile the first `page` pages. */
  ghost predicate Pushed(base: nat, lists: FreeLists, page: nat) {
    && ListsOk(base, lists)
    && Tiles(page, FreeSet(base, lists)) && NoFreeBuddies(FreeSet(base, lists))
  }

  lemma PushNone(base: nat, lists: FreeLists)
    requires |lists| == MAX_ORDER + 1 && forall k | 0 <= k <= MAX_ORDER :: lists[k] == []
    ensures Pushed(base, lists, 0)
  {
    assert FreeSet(base, lists) == {};
  }

  lemma PushOne(base: nat, lists: FreeLists, longer: FreeLists, page: nat, addr: nat, order: nat, b: Block)
    requires Pushed(base, lists, page) && order <= MAX_ORDER && b.order == order
    requires FirstPage(b) == page && addr == base + page * PAGE_SIZE && (order < MAX_ORDER ==> b.index % 2 == 0)
    requires longer == lists[order := lists[order] + [addr]]
    ensures Pushed(base, longer, page + Pow2(order))
  {
    SeedAppend(page, FreeSet(base, lists), b);
    PushSet(base, lists, b);
  }

  /** Each list is in ascending order, below `end`. */
  ghost predicate Ascending(lists: FreeLists, end: nat) {
    forall k, i | 0 <= k < |lists| && 0 <= i < |lists[k]| ::
      lists[k][i] < end && (i > 0 ==> lists[k][i - 1] < lists[k][i])
  }

  lemma NoneAscending(lists: FreeLists, end: nat)
    requires forall k | 0 <= k < |lists| :: lists[k] == []
    ensures Ascending(lists, end)
  {
  }

  lemma PushAscending(lists: FreeLists, longer: FreeLists, order: nat, addr: nat, end: nat)
    requires Ascending(lists, addr) && order < |lists| && addr < end
    requires longer == lists[order := lists[order] + [addr]]
    ensures Ascending(longer, end)
  {
  }

  lemma PushedAll(base: nat, lists: FreeLists, total: nat)
    requires Pushed(base, lists, total)
    ensures Inv(Arena(base, total, lists, map[]))
  {
    var free := FreeSet(base, lists);
    assert LiveSet(base, map[]) == {} && free + {} == free;
  }

  class PhysicalAllocator {
    const base: nat
    const totalPages: nat
    const freeLists: array<seq<nat>>
    var liveBlocks: map<nat, nat>

    ghost function View(): Arena
      reads this, freeLists
    {
      Arena(base, totalPages, freeLists[..], liveBlocks)
    }

    ghost predicate Valid()
      reads this, freeLists
    {
      Inv(View())
    }

    constructor (base: nat, totalPages: nat)
      ensures Valid() && fresh(freeLists)
      ensures this.base == base && this.totalPages == totalPages && liveBlocks == map[]
    {
      this.base := base;
      this.totalPages := totalPages;
      freeLists := new seq<nat>[MAX_ORDER + 1](_ => []);
      liveBlocks := map[];
      new;
      SeedFreeLists();
    }

    method SeedFreeLists()
      requires freeLists.Length == MAX_ORDER + 1 && forall k | 0 <= k <= MAX_ORDER :: freeLists[k] == []
      requires liveBlocks == map[]
      modifies freeLists
      ensures Valid()
      ensures ListEntries(freeLists[..], MAX_ORDER + 1) ==
        totalPages / MAX_BLOCK_PAGES + CountOnes(totalPages % MAX_BLOCK_PAGES)
      ensures Ascending(freeLists[..], base + totalPages * PAGE_SIZE)
    {
      hide Ascending, Pushed, Inv, Shl, TrailingZeros, Ilog2, Pow2;
      var addr: nat := base;
      var remaining: nat := totalPages;
      ghost var page: nat, next := 0, Block(MAX_ORDER, 0);
      PushNone(base, freeLists[..]);
      assert Ascending(freeLists[..], base) by {
        NoneAscending(freeLists[..], base);
      }
      ShlIsProduct(0, MAX_ORDER);
      while remaining > 0
        invariant page + remaining == totalPages && addr == base + page * PAGE_SIZE
        invariant SeedReady(page, remaining, next)
        invariant Pushed(base, freeLists[..], page)
        invariant Ascending(freeLists[..], addr)
      {
        ghost var b := SeedStep(page, remaining, next);
        var order := Min(Ilog2(remaining), MAX_ORDER);
        var pageIndex := (addr - base) / PAGE_SIZE;
        assert pageIndex == page;
        if pageIndex != 0 {
          order := Min(order, TrailingZeros(pageIndex));
        }
        assert order == b.order;
        var blockPages := Pow2(order);
        ghost var lists := freeLists[..];
        freeLists[order] := freeLists[order] + [addr];
        ghost var longer := freeLists[..];
        PushOne(base, lists, longer, page, addr, order, b);
        assert Pushed(base, longer, page + blockPages);
        PushAscending(lists, longer, order, addr, addr + blockPages * PAGE_SIZE);
        addr := addr + blockPages * PAGE_SIZE;
        remaining := remaining - blockPages;
        page, next := page + blockPages, Block(order, b.index + 1);
      }
      PushedAll(base, freeLists[..], totalPages);
      IdleBlockCount(View());
    }

    /** Afterwards, unless it fails, the list of the requested order is not empty. */
    method EnsureFreeBlock(order: nat) returns (r: Result<(), MemoryError>)
      requires Valid()
      modifies freeLists
      ensures order > MAX_ORDER ==> r == Err(InvalidOrder)
      ensures order <= MAX_ORDER ==>
        var source := SourceOrder(old(freeLists[..]), order);
        if source > MAX_ORDER then r == Err(OutOfMemory)
        else r == Ok(()) && freeLists[..] == SplitDown(old(freeLists[..]), source, order)
      ensures r.Err? ==> freeLists[..] == old(freeLists[..])
    {
      if order >= freeLists.Length {
        return Err(InvalidOrder);
      }
      if freeLists[order] != [] {
        return Ok(());
      }
      ghost var lists := freeLists[..];
      var source := order + 1;
      while source <= MAX_ORDER && freeLists[source] == []
        invariant order < source <= MAX_ORDER + 1
        invariant SourceOrder(lists, order) == SourceOrder(lists, source)
      {
        source := source + 1;
      }
      if source > MAX_ORDER {
        return Err(OutOfMemory);
      }
      var cur := source;
      while cur > order
        invariant order <= cur <= source && freeLists[cur] != []
        invariant SplitDown(freeLists[..], cur, order) == SplitDown(lists, source, order)
      {
        ghost var before := freeLists[..];
        var block := freeLists[cur][|freeLists[cur]| - 1];
        freeLists[cur] := freeLists[cur][..|freeLists[cur]| - 1];
        var half := cur - 1;
        var blockBytes := Pow2(half) * PAGE_SIZE;
        freeLists[half] := freeLists[half] + [block];
        freeLists[half] := freeLists[half] + [block + blockBytes];
        assert before[half] + [block] + [block + blockBytes] == before[half] + [block, block + blockBytes];
        assert freeLists[..] == SplitOnce(before, cur);
        cur := half;
      }
      return Ok(());
    }

    method Allocate(order: nat) returns (r: Result<nat, MemoryError>)
      requires Valid()
      modifies this`liveBlocks, freeLists
      ensures Valid()
      ensures (View(), r) == Buddy.Allocate(old(View()), order)
      ensures r.Ok? <==> order <= MAX_ORDER && exists i: nat :: RunFree(old(View()), order, i)
      ensures r.Ok? ==> r.value !in old(liveBlocks) && liveBlocks == old(liveBlocks)[r.value := order]
      ensures r.Err? ==> View() == old(View())
    {
      AllocateCorrect(View(), order);
      var ready := EnsureFreeBlock(order);
      if ready.Err? {
        return Err(ready.error);
      }
      ghost var lists := freeLists[..];
      var addr := freeLists[order][|freeLists[order]| - 1];
      freeLists[order] := freeLists[order][..|freeLists[order]| - 1];
      assert freeLists[..] == lists[order := DropLast(lists[order])];
      liveBlocks := liveBlocks[addr := order];
      return Ok(addr);
    }

    method Position(list: seq<nat>, x: nat) returns (i: nat)
      ensures i == IndexOf(list, x)
    {
      i := 0;
      while i < |list| && list[i] != x
        invariant i <= |list| && IndexOf(list, x) == i + IndexOf(list[i..], x)
      {
        assert list[i..][1..] == list[i + 1..];
        i := i + 1;
      }
    }

    method Deallocate(addr: nat) returns (r: Result<(), MemoryError>)
      requires Valid()
      modifies this`liveBlocks, freeLists
      ensures Valid()
      ensures old(addr in liveBlocks ==> liveBlocks[addr] <= MAX_ORDER && base <= addr)
      ensures (View(), r) == Buddy.Deallocate(old(View()), addr)
      ensures r.Ok? <==> addr in old(liveBlocks)
      ensures r.Ok? ==> liveBlocks == old(liveBlocks) - {addr}
      ensures r.Err? ==> View() == old(View())
    {
      DeallocateCorrect(View(), addr);
      if addr !in liveBlocks {
        return Err(DoubleFree);
      }
      var order := liveBlocks[addr];
      liveBlocks := liveBlocks - {addr};
      var block := addr;
      ghost var lists := freeLists[..];
      while order < MAX_ORDER
        invariant order <= MAX_ORDER && base <= block && liveBlocks == old(liveBlocks) - {addr}
        invariant Coalesce(base, freeLists[..], block, order) == Coalesce(base, lists, addr, old(liveBlocks[addr]))
      {
        ghost var before := freeLists[..];
        var buddy := BuddyOf(base, block, order);
        var pos := Position(freeLists[order], buddy);
        if pos < |freeLists[order]| {
          freeLists[order] := freeLists[order][..pos] + freeLists[order][pos + 1..];
          assert freeLists[..] == before[order := RemoveAt(before[order], pos)];
          block := Min(block, buddy);
          order := order + 1;
        } else {
          break;
        }
      }
      ghost var before := freeLists[..];
      freeLists[order] := freeLists[order] + [block];
      assert freeLists[..] == before[order := before[order] + [block]];
      assert View() == Buddy.Deallocate(old(View()), addr).0;
      return Ok(());
    }

    /** Everything that is not live. */
    method FreePageCount() returns (n: nat)
      requires Valid()
      ensures n + LivePages(View()) == totalPages
    {
      n := 0;
      for order := 0 to freeLists.Length
        invariant n == FreePages(freeLists[..], order)
      {
        n := n + |freeLists[order]| * Pow2(order);
      }
      PagesConserved(View());
    }
  }
}
