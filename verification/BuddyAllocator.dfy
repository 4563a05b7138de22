/**
 The physical page allocator: free lists of block addresses, one per order, and the map
 of live blocks.  `Arena` is the allocator's state as a value; the functions on it are
 the specification of the methods of class `PhysicalAllocator`.
 */
module BuddyAllocator {
  import opened Results
  import opened Bits
  import opened BlockTree

  const PAGE_SIZE: nat := 0x1000

  datatype MemoryError =
    | OutOfMemory | InvalidOrder | RegionNotFound | CapabilityDenied
    | DoubleFree | Unmapped | AccessViolation

  type FreeLists = seq<seq<nat>>

  datatype Arena = Arena(base: nat, total: nat, free: FreeLists, live: map<nat, nat>)

  // ---------------------------------------------------- blocks and addresses

  function Addr(base: nat, b: Block): nat {
    base + FirstPage(b) * PAGE_SIZE
  }

  function BlockAt(base: nat, order: nat, addr: nat): Block {
    Block(order, if addr < base then 0 else Shr((addr - base) / PAGE_SIZE, order))
  }

  ghost predicate Placed(base: nat, order: nat, addr: nat) {
    addr == Addr(base, BlockAt(base, order, addr))
  }

  lemma BlockAtAddr(base: nat, b: Block)
    ensures BlockAt(base, b.order, Addr(base, b)) == b
  {
    CoversFirstPage(b);
  }

  lemma HalvesAddr(base: nat, b: Block)
    requires b.order > 0
    ensures Addr(base, Lower(b)) == Addr(base, b)
    ensures Addr(base, Upper(b)) == Addr(base, b) + Pow2(b.order - 1) * PAGE_SIZE
  {
    ShlComposes(b.index, 1, b.order - 1);
    assert Shl(b.index, 1) == 2 * Shl(b.index, 0);
    ShlSuccessor(2 * b.index, b.order - 1);
  }

  lemma ParentAddr(base: nat, b: Block)
    ensures Addr(base, Parent(b)) ==
      if Addr(base, b) < Addr(base, Buddy(b)) then Addr(base, b) else Addr(base, Buddy(b))
  {
    HalvesAddr(base, Parent(b));
    assert b == if b.index % 2 == 0 then Lower(Parent(b)) else Upper(Parent(b));
    assert Buddy(b) == if b.index % 2 == 0 then Upper(Parent(b)) else Lower(Parent(b));
  }

  /** `buddy_of`: flip the bit of the offset that is the block's own size. */
  function BuddyOf(base: nat, addr: nat, order: nat): nat
    requires base <= addr
  {
    base + Xor(addr - base, Pow2(order) * PAGE_SIZE)
  }

  lemma PagesToBytes(n: nat, order: nat)
    ensures Shl(n, order) * PAGE_SIZE == Shl(n, order + 12)
  {
    var m := Shl(n, order);
    assert Shl(m, 4) == 2 * Shl(m, 3) == 4 * Shl(m, 2) == 8 * Shl(m, 1) == 16 * m;
    assert Shl(m, 8) == 2 * Shl(m, 7) == 4 * Shl(m, 6) == 8 * Shl(m, 5) == 16 * Shl(m, 4);
    assert Shl(m, 12) == 2 * Shl(m, 11) == 4 * Shl(m, 10) == 8 * Shl(m, 9) == 16 * Shl(m, 8);
    ShlComposes(n, order, 12);
  }

  lemma BuddyOfIsBuddy(base: nat, b: Block)
    ensures BuddyOf(base, Addr(base, b), b.order) == Addr(base, Buddy(b))
  {
    Pow2IsShl(b.order);
    Pow2IsShl(b.order + 12);
    PagesToBytes(1, b.order);
    PagesToBytes(b.index, b.order);
    PagesToBytes(Flip(b.index), b.order);
    XorFlips(b.index, b.order + 12);
  }

  // ------------------------------------------------------ lists as block sets

  function Last<T>(s: seq<T>): T
    requires s != []
  {
    s[|s| - 1]
  }

  function DropLast<T>(s: seq<T>): seq<T>
    requires s != []
  {
    s[..|s| - 1]
  }

  function RemoveAt<T>(s: seq<T>, i: nat): seq<T>
    requires i < |s|
  {
    s[..i] + s[i + 1..]
  }

  ghost predicate Distinct<T(!new)>(s: seq<T>) {
    forall i, j | 0 <= i < j < |s| :: s[i] != s[j]
  }

  ghost predicate ListsOk(base: nat, lists: FreeLists) {
    && |lists| == MAX_ORDER + 1
    && (forall k, x | 0 <= k < |lists| && x in lists[k] :: Placed(base, k, x))
    && (forall k | 0 <= k < |lists| :: Distinct(lists[k]))
  }

  ghost function FreeSet(base: nat, lists: FreeLists): set<Block> {
    set k, x | 0 <= k < |lists| && x in lists[k] :: BlockAt(base, k, x)
  }

  lemma FreeSetMember(base: nat, lists: FreeLists, b: Block)
    requires ListsOk(base, lists)
    ensures b in FreeSet(base, lists) <==> b.order < |lists| && Addr(base, b) in lists[b.order]
  {
    BlockAtAddr(base, b);
  }

  ghost predicate LiveOk(base: nat, live: map<nat, nat>) {
    forall x | x in live :: live[x] <= MAX_ORDER && Placed(base, live[x], x)
  }

  ghost function LiveSet(base: nat, live: map<nat, nat>): set<Block> {
    set x | x in live :: BlockAt(base, live[x], x)
  }

  ghost predicate Inv(a: Arena) {
    && ListsOk(a.base, a.free)
    && LiveOk(a.base, a.live)
    && Settled(a.total, FreeSet(a.base, a.free), LiveSet(a.base, a.live))
  }

  lemma PushSet(base: nat, lists: FreeLists, b: Block)
    requires ListsOk(base, lists) && b.order <= MAX_ORDER && b !in FreeSet(base, lists)
    ensures var r := lists[b.order := lists[b.order] + [Addr(base, b)]];
      ListsOk(base, r) && FreeSet(base, r) == FreeSet(base, lists) + {b}
  {
    var r := lists[b.order := lists[b.order] + [Addr(base, b)]];
    BlockAtAddr(base, b);
    FreeSetMember(base, lists, b);
    forall c ensures c in FreeSet(base, r) <==> c in FreeSet(base, lists) + {b} {
      FreeSetMember(base, lists, c);
      FreeSetMember(base, r, c);
      BlockAtAddr(base, c);
    }
  }

  lemma RemoveSet(base: nat, lists: FreeLists, b: Block, i: nat)
    requires ListsOk(base, lists) && b.order <= MAX_ORDER
    requires i < |lists[b.order]| && lists[b.order][i] == Addr(base, b)
    ensures var r := lists[b.order := RemoveAt(lists[b.order], i)];
      ListsOk(base, r) && FreeSet(base, r) == FreeSet(base, lists) - {b}
  {
    var s := lists[b.order];
    var t := RemoveAt(s, i);
    var r := lists[b.order := t];
    forall x ensures x in t <==> x in s && x != s[i] {
      if x in s && x != s[i] {
        var j :| 0 <= j < |s| && s[j] == x;
        assert x == t[if j < i then j else j - 1];
      }
    }
    forall c ensures c in FreeSet(base, r) <==> c in FreeSet(base, lists) - {b} {
      FreeSetMember(base, lists, c);
      FreeSetMember(base, r, c);
      BlockAtAddr(base, c);
      BlockAtAddr(base, b);
    }
  }

  lemma PopSet(base: nat, lists: FreeLists, k: nat)
    requires ListsOk(base, lists) && k <= MAX_ORDER && lists[k] != []
    ensures var r := lists[k := DropLast(lists[k])];
      ListsOk(base, r) && FreeSet(base, r) == FreeSet(base, lists) - {BlockAt(base, k, Last(lists[k]))}
  {
    assert Last(lists[k]) in lists[k];
    RemoveSet(base, lists, BlockAt(base, k, Last(lists[k])), |lists[k]| - 1);
    assert RemoveAt(lists[k], |lists[k]| - 1) == DropLast(lists[k]);
  }

  // -------------------------------------------------------------- allocation

  /** The smallest order at or above `k` whose list is not empty, or one past the last. */
  function SourceOrder(lists: FreeLists, k: nat): (r: nat)
    requires k <= |lists|
    ensures k <= r <= |lists|
    ensures r < |lists| ==> lists[r] != []
    ensures forall j | k <= j < r :: lists[j] == []
    decreases |lists| - k
  {
    if k == |lists| || lists[k] != [] then k else SourceOrder(lists, k + 1)
  }

  /** Replace the last block of order `cur` by its two halves, the upper one last. */
  function SplitOnce(lists: FreeLists, cur: nat): FreeLists
    requires 0 < cur < |lists| && lists[cur] != []
  {
    var x := Last(lists[cur]);
    var popped := lists[cur := DropLast(lists[cur])];
    popped[cur - 1 := popped[cur - 1] + [x, x + Pow2(cur - 1) * PAGE_SIZE]]
  }

  /** Split the last block of order `cur` down to `order`, always going on with the upper half. */
  function SplitDown(lists: FreeLists, cur: nat, order: nat): (r: FreeLists)
    requires order <= cur < |lists| && lists[cur] != []
    ensures |r| == |lists| && r[order] != []
    decreases cur
  {
    if cur == order then lists else SplitDown(SplitOnce(lists, cur), cur - 1, order)
  }

  function Allocate(a: Arena, order: nat): (Arena, Result<nat, MemoryError>)
    requires |a.free| == MAX_ORDER + 1
  {
    if order > MAX_ORDER then (a, Err(InvalidOrder))
    else
      var source := SourceOrder(a.free, order);
      if source > MAX_ORDER then (a, Err(OutOfMemory))
      else
        var lists := SplitDown(a.free, source, order);
        var addr := Last(lists[order]);
        (a.(free := lists[order := DropLast(lists[order])], live := a.live[addr := order]), Ok(addr))
  }

  /** The block a call of SplitDown is about to split. */
  ghost function Top(base: nat, lists: FreeLists, k: nat): Block
    requires k < |lists| && lists[k] != []
  {
    BlockAt(base, k, Last(lists[k]))
  }

  ghost predicate TopHeld(base: nat, total: nat, lists: FreeLists, held: set<Block>, k: nat) {
    && ListsOk(base, lists) && k <= MAX_ORDER && lists[k] != []
    && var c := Top(base, lists, k);
       c !in held && Settled(total, FreeSet(base, lists) - {c}, held + {c})
  }

  lemma SplitOnceSets(base: nat, lists: FreeLists, cur: nat, c: Block)
    requires ListsOk(base, lists) && 0 < cur <= MAX_ORDER && lists[cur] != [] && c == Top(base, lists, cur)
    requires Lower(c) !in FreeSet(base, lists) && Upper(c) !in FreeSet(base, lists)
    ensures var r := SplitOnce(lists, cur);
      && ListsOk(base, r)
      && FreeSet(base, r) == FreeSet(base, lists) - {c} + {Lower(c)} + {Upper(c)}
      && r[cur - 1] != [] && Last(r[cur - 1]) == Addr(base, Upper(c))
  {
    var x := Last(lists[cur]);
    assert x in lists[cur];
    HalvesAddr(base, c);
    var popped := lists[cur := DropLast(lists[cur])];
    PopSet(base, lists, cur);
    PushSet(base, popped, Lower(c));
    var half := popped[cur - 1 := popped[cur - 1] + [x]];
    PushSet(base, half, Upper(c));
    assert half[cur - 1] + [Addr(base, Upper(c))] == popped[cur - 1] + [x, x + Pow2(cur - 1) * PAGE_SIZE];
    assert half[cur - 1 := half[cur - 1] + [Addr(base, Upper(c))]] == SplitOnce(lists, cur);
  }

  lemma SplitOnceKeeps(base: nat, total: nat, lists: FreeLists, held: set<Block>, cur: nat)
    requires 0 < cur && TopHeld(base, total, lists, held, cur)
    ensures TopHeld(base, total, SplitOnce(lists, cur), held, cur - 1)
    ensures Last(SplitOnce(lists, cur)[cur - 1]) == Last(lists[cur]) + Pow2(cur - 1) * PAGE_SIZE
  {
    var c := Top(base, lists, cur);
    var free := FreeSet(base, lists);
    SplitKeepsSettled(total, free - {c}, held + {c}, c);
    SplitOnceSets(base, lists, cur, c);
    BlockAtAddr(base, Upper(c));
    assert Last(lists[cur]) in lists[cur];
    HalvesAddr(base, c);
    SplitSetAlgebra(free, held, c, Lower(c), Upper(c));
  }

  lemma SplitSetAlgebra(free: set<Block>, held: set<Block>, c: Block, l: Block, u: Block)
    requires u !in free && l != u && c !in held
    ensures free - {c} + {l} + {u} - {u} == free - {c} + {l}
    ensures held + {c} - {c} + {u} == held + {u}
  {
  }

  lemma {:induction false} SplitDownKeeps(base: nat, total: nat, lists: FreeLists, held: set<Block>,
                                          cur: nat, order: nat)
    requires order <= cur && TopHeld(base, total, lists, held, cur)
    ensures TopHeld(base, total, SplitDown(lists, cur, order), held, order)
    ensures Last(SplitDown(lists, cur, order)[order]) + Pow2(order) * PAGE_SIZE
            == Last(lists[cur]) + Pow2(cur) * PAGE_SIZE
    decreases cur
  {
    if order < cur {
      SplitOnceKeeps(base, total, lists, held, cur);
      SplitDownKeeps(base, total, SplitOnce(lists, cur), held, cur - 1, order);
    }
  }

  lemma SourceBlock(base: nat, lists: FreeLists, order: nat)
    requires ListsOk(base, lists) && order <= MAX_ORDER
    ensures SourceOrder(lists, order) <= MAX_ORDER <==> exists f :: f in FreeSet(base, lists) && order <= f.order
  {
    var k := SourceOrder(lists, order);
    if k <= MAX_ORDER {
      assert lists[k][0] in lists[k];
      assert BlockAt(base, k, lists[k][0]) in FreeSet(base, lists);
    }
    if f :| f in FreeSet(base, lists) && order <= f.order {
      FreeSetMember(base, lists, f);
    }
  }

  /** The pages no live block covers. */
  ghost predicate PageFree(a: Arena, p: nat) {
    FreePage(a.total, LiveSet(a.base, a.live), p)
  }

  /** Page `i * 2^order` starts an aligned run of 2^order pages, none of them live. */
  ghost predicate RunFree(a: Arena, order: nat, i: nat) {
    WhollyFree(a.total, LiveSet(a.base, a.live), Block(order, i))
  }

  lemma LiveInsert(base: nat, live: map<nat, nat>, b: Block)
    requires LiveOk(base, live) && b.order <= MAX_ORDER && Addr(base, b) !in live
    ensures LiveOk(base, live[Addr(base, b) := b.order])
    ensures LiveSet(base, live[Addr(base, b) := b.order]) == LiveSet(base, live) + {b}
  {
    BlockAtAddr(base, b);
    var l := live[Addr(base, b) := b.order];
    forall c ensures c in LiveSet(base, l) <==> c in LiveSet(base, live) + {b} {
      BlockAtAddr(base, c);
      if c in LiveSet(base, live) {
        var x :| x in live && c == BlockAt(base, live[x], x);
        assert x in l && l[x] == live[x];
      }
      if c == b {
        assert Addr(base, b) in l;
      }
    }
  }

  lemma LiveRemove(base: nat, live: map<nat, nat>, x: nat)
    requires LiveOk(base, live) && x in live
    ensures LiveOk(base, live - {x})
    ensures LiveSet(base, live - {x}) == LiveSet(base, live) - {BlockAt(base, live[x], x)}
  {
    var l := live - {x};
    var b := BlockAt(base, live[x], x);
    forall c ensures c in LiveSet(base, l) <==> c in LiveSet(base, live) - {b} {
      if c in LiveSet(base, live) && c != b {
        var y :| y in live && c == BlockAt(base, live[y], y);
        assert y in l && l[y] == live[y];
      }
      if c in LiveSet(base, l) {
        var y :| y in l && c == BlockAt(base, l[y], y);
        assert Placed(base, live[y], y) && Placed(base, live[x], x);
      }
    }
  }

  /**
   `allocate` succeeds exactly when some aligned run of the requested size is wholly free;
   it hands out such a run, records it, and leaves every failing state as it was.
   */
  lemma AllocateCorrect(a: Arena, order: nat)
    requires Inv(a)
    ensures var (b, r) := Allocate(a, order);
      && Inv(b) && b.base == a.base && b.total == a.total
      && (r.Ok? <==> order <= MAX_ORDER && exists i: nat :: RunFree(a, order, i))
      && (r.Err? ==> b == a && r.error == if order > MAX_ORDER then InvalidOrder else OutOfMemory)
      && (r.Ok? ==>
            && r.value !in a.live && b.live == a.live[r.value := order]
            && Placed(a.base, order, r.value)
            && RunFree(a, order, BlockAt(a.base, order, r.value).index))
  {
    if order <= MAX_ORDER {
      var free, held := FreeSet(a.base, a.free), LiveSet(a.base, a.live);
      SourceBlock(a.base, a.free, order);
      FreeRunIffLargeBlock(a.total, free, held, order);
      assert (exists i: nat :: RunFree(a, order, i))
             <==> (exists i: nat :: WhollyFree(a.total, held, Block(order, i))) by {
        forall i: nat ensures RunFree(a, order, i) <==> WhollyFree(a.total, held, Block(order, i)) {}
      }
      var k := SourceOrder(a.free, order);
      if k <= MAX_ORDER {
        AllocateBlock(a, order);
      }
    }
  }

  lemma AllocateBlock(a: Arena, order: nat)
    requires Inv(a) && order <= MAX_ORDER && SourceOrder(a.free, order) <= MAX_ORDER
    ensures var (b, r) := Allocate(a, order);
      && r.Ok? && Inv(b) && b.base == a.base && b.total == a.total
      && r.value !in a.live && b.live == a.live[r.value := order]
      && Placed(a.base, order, r.value)
      && RunFree(a, order, BlockAt(a.base, order, r.value).index)
  {
    hide Settled, WhollyFree, SplitDown;
    var free, held := FreeSet(a.base, a.free), LiveSet(a.base, a.live);
    var k := SourceOrder(a.free, order);
    assert Last(a.free[k]) in a.free[k];
    ReserveKeepsSettled(a.total, free, held, Top(a.base, a.free, k));
    SplitDownKeeps(a.base, a.total, a.free, held, k, order);
    var lists := SplitDown(a.free, k, order);
    PopSet(a.base, lists, order);
    var c := Top(a.base, lists, order);
    assert Last(lists[order]) in lists[order];
    HeldPagesWereFree(a.total, FreeSet(a.base, lists) - {c}, held, c);
    FreeRunIsNotLive(a.base, a.total, a.live, c);
    LiveInsert(a.base, a.live, c);
  }

  lemma FreeRunIsNotLive(base: nat, total: nat, live: map<nat, nat>, c: Block)
    requires LiveOk(base, live) && WhollyFree(total, LiveSet(base, live), c)
    ensures Addr(base, c) !in live
  {
    CoversFirstPage(c);
    if Addr(base, c) in live {
      SameAddressOverlaps(base, live, c);
    }
  }

  lemma HeldPagesWereFree(total: nat, free: set<Block>, held: set<Block>, c: Block)
    requires c !in held && Settled(total, free, held + {c})
    ensures WhollyFree(total, held, c)
  {
    forall p: nat | Covers(c, p) ensures FreePage(total, held, p) {
      forall b | b in held ensures !Covers(b, p) {
      }
    }
  }

  lemma SameAddressOverlaps(base: nat, live: map<nat, nat>, c: Block)
    requires LiveOk(base, live) && Addr(base, c) in live
    ensures exists b :: b in LiveSet(base, live) && Covers(b, FirstPage(c))
  {
    var x := Addr(base, c);
    var b := BlockAt(base, live[x], x);
    assert b in LiveSet(base, live);
    assert FirstPage(b) == FirstPage(c);
    CoversFirstPage(b);
  }

  // ------------------------------------------------------------ deallocation

  function IndexOf(s: seq<nat>, x: nat): (i: nat)
    ensures i <= |s| && (i < |s| ==> s[i] == x)
    ensures x !in s[..i]
    ensures i == |s| <==> x !in s
  {
    if s == [] || s[0] == x then 0 else 1 + IndexOf(s[1..], x)
  }

  function Min(a: nat, b: nat): nat {
    if a < b then a else b
  }

  /** Merge `block` with its free buddy as long as there is one, then push it. */
  function Coalesce(base: nat, lists: FreeLists, block: nat, order: nat): FreeLists
    requires |lists| == MAX_ORDER + 1 && order <= MAX_ORDER && base <= block
    decreases MAX_ORDER - order
  {
    if order < MAX_ORDER && BuddyOf(base, block, order) in lists[order] then
      var buddy := BuddyOf(base, block, order);
      Coalesce(base, lists[order := RemoveAt(lists[order], IndexOf(lists[order], buddy))], Min(block, buddy), order + 1)
    else
      lists[order := lists[order] + [block]]
  }

  function Deallocate(a: Arena, addr: nat): (Arena, Result<(), MemoryError>)
    requires |a.free| == MAX_ORDER + 1
    requires addr in a.live ==> a.live[addr] <= MAX_ORDER && a.base <= addr
  {
    if addr !in a.live then (a, Err(DoubleFree))
    else (a.(free := Coalesce(a.base, a.free, addr, a.live[addr]), live := a.live - {addr}), Ok(()))
  }

  lemma {:induction false} CoalesceKeeps(base: nat, total: nat, lists: FreeLists, held: set<Block>, c: Block)
    requires ListsOk(base, lists) && c !in held && c.order <= MAX_ORDER
    requires Settled(total, FreeSet(base, lists), held + {c})
    ensures var r := Coalesce(base, lists, Addr(base, c), c.order);
      ListsOk(base, r) && Settled(total, FreeSet(base, r), held)
    decreases MAX_ORDER - c.order
  {
    var free := FreeSet(base, lists);
    BuddyOfIsBuddy(base, c);
    FreeSetMember(base, lists, Buddy(c));
    if c.order < MAX_ORDER && Buddy(c) in free {
      var i := IndexOf(lists[c.order], Addr(base, Buddy(c)));
      RemoveSet(base, lists, Buddy(c), i);
      MergeKeepsSettled(total, free, held + {c}, c);
      assert held + {c} - {c} + {Parent(c)} == held + {Parent(c)};
      ParentAddr(base, c);
      CoalesceKeeps(base, total, lists[c.order := RemoveAt(lists[c.order], i)], held, Parent(c));
    } else {
      ReleaseKeepsSettled(total, free, held + {c}, c);
      assert held + {c} - {c} == held;
      PushSet(base, lists, c);
    }
  }

  /** `deallocate` succeeds exactly on the address of a live block, and makes only that block free. */
  lemma DeallocateCorrect(a: Arena, addr: nat)
    requires Inv(a)
    ensures addr in a.live ==> a.base <= addr
    ensures var (b, r) := Deallocate(a, addr);
      && Inv(b) && b.base == a.base && b.total == a.total
      && (r.Ok? <==> addr in a.live)
      && (r.Err? ==> b == a && r.error == DoubleFree)
      && (r.Ok? ==> b.live == a.live - {addr})
  {
    if addr in a.live {
      var c := BlockAt(a.base, a.live[addr], addr);
      assert c in LiveSet(a.base, a.live);
      LiveRemove(a.base, a.live, addr);
      var held := LiveSet(a.base, a.live) - {c};
      assert held + {c} == LiveSet(a.base, a.live);
      CoalesceKeeps(a.base, a.total, a.free, held, c);
    }
  }

  // ------------------------------------------ which block is handed out, exactly

  lemma {:induction false} SplitDownExactly(lists: FreeLists, cur: nat, order: nat, k: nat)
    requires order <= cur < |lists| && lists[cur] != [] && k < |lists|
    requires forall j | order <= j < cur :: lists[j] == []
    ensures var r, x := SplitDown(lists, cur, order), lists[cur][|lists[cur]| - 1];
      && |r| == |lists|
      && (k < order || cur < k || order == cur ==> r[k] == lists[k])
      && (k == cur && order < cur ==> r[k] == lists[k][..|lists[k]| - 1])
      && (order < k < cur ==> r[k] == [x + (Pow2(cur) - Pow2(k + 1)) * PAGE_SIZE])
      && Pow2(order + 1) == 2 * Pow2(order)
      && (order < cur ==>
            r[order] == [x + (Pow2(cur) - Pow2(order + 1)) * PAGE_SIZE, x + (Pow2(cur) - Pow2(order)) * PAGE_SIZE])
    decreases cur
  {
    if order < cur {
      var x := Last(lists[cur]);
      var next := SplitOnce(lists, cur);
      assert Pow2(cur) == 2 * Pow2(cur - 1);
      assert next[cur - 1] == [x, x + Pow2(cur - 1) * PAGE_SIZE];
      SplitDownExactly(next, cur - 1, order, k);
      if order < cur - 1 {
        assert next[cur - 1][..1] == [x];
      }
    }
  }

  /**
   Free lists are stacks.  The block handed out is the last part of the last block in the
   first list, from the requested order up, that is not empty; the lists between get its
   other parts, one each, and no other list changes.
   */
  lemma AllocateExactly(a: Arena, order: nat, source: nat, k: nat)
    requires |a.free| == MAX_ORDER + 1 && order <= source <= MAX_ORDER && k <= MAX_ORDER
    requires a.free[source] != [] && forall j | order <= j < source :: a.free[j] == []
    ensures var (b, r) := Allocate(a, order);
      var last := |a.free[source]| - 1;
      var x := a.free[source][last];
      && r == Ok(x + (Pow2(source) - Pow2(order)) * PAGE_SIZE)
      && |b.free| == |a.free| && (b.base, b.total) == (a.base, a.total) && b.live == a.live[r.value := order]
      && (k < order || source < k ==> b.free[k] == a.free[k])
      && (k == source ==> b.free[k] == a.free[k][..last])
      && (order <= k < source ==> b.free[k] == [x + (Pow2(source) - Pow2(k + 1)) * PAGE_SIZE])
  {
    assert SourceOrder(a.free, order) == source;
    SplitDownExactly(a.free, source, order, k);
    SplitDownExactly(a.free, source, order, order);
  }

  /** One entry less. */
  ghost predicate OneRemoved(s: seq<nat>, t: seq<nat>) {
    exists i: nat :: i < |s| && t == s[..i] + s[i + 1..]
  }

  lemma {:induction false} CoalesceExactly(base: nat, lists: FreeLists, block: nat, order: nat)
    returns (top: nat, merged: nat)
    requires |lists| == MAX_ORDER + 1 && order <= MAX_ORDER && base <= block
    ensures order <= top <= MAX_ORDER && base <= merged <= block
    ensures top == MAX_ORDER || BuddyOf(base, merged, top) !in lists[top]
    ensures var r := Coalesce(base, lists, block, order);
      && |r| == |lists| && r[top] == lists[top] + [merged]
      && (forall k | 0 <= k < |lists| && (k < order || top < k) :: r[k] == lists[k])
      && (forall k | order <= k < top :: OneRemoved(lists[k], r[k]))
    decreases MAX_ORDER - order
  {
    var buddy := BuddyOf(base, block, order);
    if order < MAX_ORDER && buddy in lists[order] {
      var i := IndexOf(lists[order], buddy);
      var next := lists[order := RemoveAt(lists[order], i)];
      assert OneRemoved(lists[order], next[order]);
      top, merged := CoalesceExactly(base, next, Min(block, buddy), order + 1);
    } else {
      top, merged := order, block;
    }
  }

  /**
   Deallocation takes one entry off each list it merges through and pushes the merged block,
   so the next allocation of that order hands out just that block again.
   */
  lemma DeallocateExactly(a: Arena, addr: nat) returns (top: nat, merged: nat)
    requires Inv(a) && addr in a.live
    ensures a.live[addr] <= top <= MAX_ORDER && a.base <= merged <= addr
    ensures var (b, r) := Deallocate(a, addr);
      && r == Ok(()) && |b.free| == |a.free| && b.free[top] == a.free[top] + [merged]
      && (forall k | 0 <= k < |a.free| && (k < a.live[addr] || top < k) :: b.free[k] == a.free[k])
      && (forall k | a.live[addr] <= k < top :: OneRemoved(a.free[k], b.free[k]))
      && Allocate(b, top).1 == Ok(merged)
  {
    DeallocateCorrect(a, addr);
    top, merged := CoalesceExactly(a.base, a.free, addr, a.live[addr]);
    AllocateExactly(Deallocate(a, addr).0, top, top, top);
  }

  // ----------------------------------------------------------------- seeding

  lemma Pow2AtMost(a: nat, b: nat)
    requires a <= b
    ensures Pow2(a) <= Pow2(b)
  {
    if a < b {
      Pow2Increasing(a, b);
    }
  }

  /** The pages of a block of order MAX_ORDER. */
  const MAX_BLOCK_PAGES: nat := 0x10_0000

  lemma MaxBlock()
    ensures Pow2(MAX_ORDER) == MAX_BLOCK_PAGES
  {
    assert Pow2(5) == 32;
    assert Pow2(10) == 32 * Pow2(5);
    assert Pow2(15) == 32 * Pow2(10);
    assert Pow2(20) == 32 * Pow2(15);
  }

  /**
   Seeding so far: the next page is where block `next` would start, whose size is that of
   the last block pushed; less than that remains, unless it is the largest size.
   */
  ghost predicate SeedReady(page: nat, remaining: nat, next: Block) {
    next.order <= MAX_ORDER && FirstPage(next) == page && (next.order < MAX_ORDER ==> remaining < Size(next))
  }

  lemma ShlIsEven(n: nat, k: nat)
    ensures if k == 0 then Shl(n, k) == n else Shl(n, k) % 2 == 0
  {
  }

  /** The alignment clamp never lowers the order, and the next block starts a new pair of buddies. */
  lemma SeedStep(page: nat, remaining: nat, next: Block) returns (b: Block)
    requires remaining > 0 && SeedReady(page, remaining, next)
    ensures b.order == Min(Ilog2(remaining), MAX_ORDER) && (page > 0 ==> TrailingZeros(page) >= b.order)
    ensures Size(b) <= remaining && FirstPage(b) == page && (b.order < MAX_ORDER ==> b.index % 2 == 0)
    ensures SeedReady(page + Size(b), remaining - Size(b), Block(b.order, b.index + 1))
  {
    hide TrailingZeros, Ilog2, Pow2, Shl;
    Ilog2Brackets(remaining);
    var order, m := Min(Ilog2(remaining), MAX_ORDER), next.order;
    if m < MAX_ORDER && m <= order {
      Pow2AtMost(m, Ilog2(remaining));
      assert false;
    }
    Pow2AtMost(order, Ilog2(remaining));
    b := Block(order, Shl(next.index, m - order));
    ShlIsEven(next.index, m - order);
    ShlComposes(next.index, m - order, order);
    ShlSuccessor(b.index, order);
    if b.index > 0 {
      TrailingZerosOfShl(b.index, order);
    } else {
      ShlIsProduct(0, order);
    }
  }

  lemma SeedAppend(page: nat, free: set<Block>, b: Block)
    requires Tiles(page, free) && NoFreeBuddies(free)
    requires FirstPage(b) == page && (b.order < MAX_ORDER ==> b.index % 2 == 0)
    ensures b !in free && Tiles(page + Size(b), free + {b}) && NoFreeBuddies(free + {b})
  {
    AppendTiles(page, free, b);
    CoversFirstPage(Buddy(b));
    if b.order < MAX_ORDER {
      ShlSuccessor(b.index, b.order);
      assert FirstPage(Buddy(b)) >= page;
      assert Buddy(b) !in free;
    }
    forall c | c in free + {b} && c.order < MAX_ORDER ensures Buddy(c) !in free + {b} {
      assert Buddy(Buddy(c)) == c;
    }
  }

  // ------------------------------------------------- what every state satisfies

  /** Between calls the lists hold exactly the maximal wholly free blocks, each once. */
  lemma FreeListsCanonical(a: Arena, k: nat, i: nat)
    requires Inv(a) && k <= MAX_ORDER
    ensures Addr(a.base, Block(k, i)) in a.free[k] <==>
      RunFree(a, k, i) && (k == MAX_ORDER || !RunFree(a, k + 1, i / 2))
    ensures Distinct(a.free[k])
  {
    FreeSetMember(a.base, a.free, Block(k, i));
    FreeIffMaximal(a.total, FreeSet(a.base, a.free), LiveSet(a.base, a.live), Block(k, i));
  }

  lemma {:induction false} DistinctMultiset(s: seq<nat>, x: nat)
    requires Distinct(s)
    ensures multiset(s)[x] == if x in s then 1 else 0
  {
    if s == [] {
    } else {
      DistinctMultiset(s[1..], x);
      assert s == [s[0]] + s[1..];
    }
  }

  /** Two states with the same free pages have the same free lists, up to the order within a list. */
  lemma FreeListsDetermined(a: Arena, b: Arena, k: nat)
    requires Inv(a) && Inv(b) && a.base == b.base && a.total == b.total && k <= MAX_ORDER
    requires forall p: nat :: PageFree(a, p) <==> PageFree(b, p)
    ensures multiset(a.free[k]) == multiset(b.free[k])
  {
    forall p: nat
      ensures FreePage(a.total, LiveSet(a.base, a.live), p) <==> FreePage(b.total, LiveSet(b.base, b.live), p)
    {
      assert PageFree(a, p) <==> PageFree(b, p);
    }
    FreeSetDetermined(a.total, FreeSet(a.base, a.free), LiveSet(a.base, a.live),
                      FreeSet(b.base, b.free), LiveSet(b.base, b.live));
    forall x: nat ensures multiset(a.free[k])[x] == multiset(b.free[k])[x] {
      var c := BlockAt(a.base, k, x);
      FreeSetMember(a.base, a.free, c);
      FreeSetMember(b.base, b.free, c);
      DistinctMultiset(a.free[k], x);
      DistinctMultiset(b.free[k], x);
    }
  }

  datatype Owner = InFreeList(order: nat, position: nat) | LiveAt(addr: nat)

  /** Entry `o` of the free lists or of the live map covers the bytes of page `p`. */
  ghost predicate Owns(a: Arena, o: Owner, p: nat)
    requires Inv(a)
  {
    match o
    case InFreeList(k, j) =>
      k <= MAX_ORDER && j < |a.free[k]| && Spans(a.free[k][j], k, a.base + p * PAGE_SIZE)
    case LiveAt(x) =>
      x in a.live && Spans(x, a.live[x], a.base + p * PAGE_SIZE)
  }

  predicate Spans(addr: nat, order: nat, byte: nat) {
    addr <= byte < addr + Pow2(order) * PAGE_SIZE
  }

  ghost function OwnerBlock(a: Arena, o: Owner): (b: Block)
    requires Inv(a)
    requires o.InFreeList? ==> o.order <= MAX_ORDER && o.position < |a.free[o.order]|
    requires o.LiveAt? ==> o.addr in a.live
    ensures b in FreeSet(a.base, a.free) + LiveSet(a.base, a.live)
    ensures o.InFreeList? ==> b.order == o.order && a.free[o.order][o.position] == Addr(a.base, b)
    ensures o.LiveAt? ==> b.order == a.live[o.addr] && o.addr == Addr(a.base, b)
  {
    match o
    case InFreeList(k, j) => assert a.free[k][j] in a.free[k]; BlockAt(a.base, k, a.free[k][j])
    case LiveAt(x) => BlockAt(a.base, a.live[x], x)
  }

  lemma SpansIffCovers(base: nat, b: Block, p: nat)
    ensures Spans(Addr(base, b), b.order, base + p * PAGE_SIZE) <==> Covers(b, p)
  {
    CoversInterval(b, p);
  }

  /** Exact tiling: a page of the arena belongs to one entry, and a page outside it to none. */
  lemma PageHasOneOwner(a: Arena, p: nat)
    requires Inv(a)
    ensures p < a.total <==> exists o :: Owns(a, o, p)
    ensures forall o1, o2 | Owns(a, o1, p) && Owns(a, o2, p) :: o1 == o2
  {
    if p < a.total {
      var o := FindOwner(a, p);
    }
    forall o | Owns(a, o, p) ensures p < a.total {
      SpansIffCovers(a.base, OwnerBlock(a, o), p);
    }
    forall o1, o2 | Owns(a, o1, p) && Owns(a, o2, p) ensures o1 == o2 {
      SameOwner(a, o1, o2, p);
    }
  }

  lemma FindOwner(a: Arena, p: nat) returns (o: Owner)
    requires Inv(a) && p < a.total
    ensures Owns(a, o, p)
  {
    var free, held := FreeSet(a.base, a.free), LiveSet(a.base, a.live);
    assert Covered(free + held, p);
    var b :| b in free + held && Covers(b, p);
    SpansIffCovers(a.base, b, p);
    if b in free {
      FreeSetMember(a.base, a.free, b);
      var j :| 0 <= j < |a.free[b.order]| && a.free[b.order][j] == Addr(a.base, b);
      o := InFreeList(b.order, j);
    } else {
      var x :| x in a.live && b == BlockAt(a.base, a.live[x], x);
      o := LiveAt(x);
    }
  }

  lemma SameOwner(a: Arena, o1: Owner, o2: Owner, p: nat)
    requires Inv(a) && Owns(a, o1, p) && Owns(a, o2, p)
    ensures o1 == o2
  {
    var b1, b2 := OwnerBlock(a, o1), OwnerBlock(a, o2);
    SpansIffCovers(a.base, b1, p);
    SpansIffCovers(a.base, b2, p);
    assert b1 == b2;
    if o1.InFreeList? {
      FreeSetMember(a.base, a.free, b1);
      assert b1 in FreeSet(a.base, a.free);
    }
    if o2.InFreeList? {
      FreeSetMember(a.base, a.free, b2);
      assert b2 in FreeSet(a.base, a.free);
    }
    if o1.LiveAt? {
      assert b1 in LiveSet(a.base, a.live);
    }
    if o2.LiveAt? {
      assert b2 in LiveSet(a.base, a.live);
    }
  }

  // ---------------------------------------------------------------- counting

  /** The sum `free_page_count` computes, over the lists of order below `k`. */
  function FreePages(lists: FreeLists, k: nat): nat
    requires k <= |lists|
  {
    if k == 0 then 0 else FreePages(lists, k - 1) + |lists[k - 1]| * Pow2(k - 1)
  }

  ghost function LivePages(a: Arena): nat {
    TotalSize(LiveSet(a.base, a.live))
  }

  ghost function ListBlocks(base: nat, k: nat, s: seq<nat>): set<Block> {
    set x | x in s :: BlockAt(base, k, x)
  }

  lemma ListBlocksPop(base: nat, k: nat, s: seq<nat>)
    requires s != [] && Distinct(s) && forall x | x in s :: Placed(base, k, x)
    ensures Last(s) in s && BlockAt(base, k, Last(s)) in ListBlocks(base, k, s)
    ensures ListBlocks(base, k, s) - {BlockAt(base, k, Last(s))} == ListBlocks(base, k, DropLast(s))
  {
    var t, x := DropLast(s), Last(s);
    assert s == t + [x];
    forall y | y in t ensures BlockAt(base, k, y) != BlockAt(base, k, x) {
      assert Placed(base, k, y) && Placed(base, k, x);
    }
  }

  lemma {:induction false} ListBlocksSize(base: nat, k: nat, s: seq<nat>)
    requires Distinct(s) && forall x | x in s :: Placed(base, k, x)
    ensures TotalSize(ListBlocks(base, k, s)) == Shl(|s|, k)
  {
    if s == [] {
      ShlIsProduct(0, k);
    } else {
      ShlSuccessor(|s| - 1, k);
      ListBlocksPop(base, k, s);
      TotalSizeRemove(ListBlocks(base, k, s), BlockAt(base, k, Last(s)));
      ListBlocksSize(base, k, DropLast(s));
    }
  }

  ghost function FreeBelow(base: nat, lists: FreeLists, k: nat): set<Block> {
    set b | b in FreeSet(base, lists) && b.order < k
  }

  lemma FreeBelowGrows(base: nat, lists: FreeLists, k: nat)
    requires ListsOk(base, lists) && k < |lists|
    ensures FreeBelow(base, lists, k + 1) == FreeBelow(base, lists, k) + ListBlocks(base, k, lists[k])
    ensures FreeBelow(base, lists, k) !! ListBlocks(base, k, lists[k])
  {
    var below, more := FreeBelow(base, lists, k), ListBlocks(base, k, lists[k]);
    forall b ensures b in FreeBelow(base, lists, k + 1) <==> b in below + more {
      FreeSetMember(base, lists, b);
      BlockAtAddr(base, b);
    }
  }

  lemma {:induction false} FreePagesIsSize(base: nat, lists: FreeLists, k: nat)
    requires ListsOk(base, lists) && k <= |lists|
    ensures FreePages(lists, k) == TotalSize(FreeBelow(base, lists, k))
  {
    if k == 0 {
    } else {
      FreePagesIsSize(base, lists, k - 1);
      ListBlocksSize(base, k - 1, lists[k - 1]);
      ShlIsProduct(|lists[k - 1]|, k - 1);
      FreeBelowGrows(base, lists, k - 1);
      TotalSizeUnion(FreeBelow(base, lists, k - 1), ListBlocks(base, k - 1, lists[k - 1]));
    }
  }

  /** How many entries the lists below order `k` have. */
  function ListEntries(lists: FreeLists, k: nat): nat
    requires k <= |lists|
  {
    if k == 0 then 0 else ListEntries(lists, k - 1) + |lists[k - 1]|
  }

  lemma {:induction false} ListBlocksCount(base: nat, k: nat, s: seq<nat>)
    requires Distinct(s) && forall x | x in s :: Placed(base, k, x)
    ensures |ListBlocks(base, k, s)| == |s|
  {
    if s != [] {
      ListBlocksPop(base, k, s);
      ListBlocksCount(base, k, DropLast(s));
    }
  }

  lemma CountGrows(base: nat, lists: FreeLists, k: nat)
    requires ListsOk(base, lists) && k < |lists|
    ensures |FreeBelow(base, lists, k + 1)| == |FreeBelow(base, lists, k)| + |lists[k]|
  {
    hide FreeBelow, ListBlocks, Placed, Distinct, BlockAt;
    FreeBelowGrows(base, lists, k);
    ListBlocksCount(base, k, lists[k]);
  }

  lemma {:induction false} ListEntriesIsCount(base: nat, lists: FreeLists, k: nat)
    requires ListsOk(base, lists) && k <= |lists|
    ensures ListEntries(lists, k) == |FreeBelow(base, lists, k)|
  {
    hide ListsOk;
    if k == 0 {
      assert FreeBelow(base, lists, 0) == {};
    } else {
      ListEntriesIsCount(base, lists, k - 1);
      CountGrows(base, lists, k - 1);
    }
  }

  /** No page is ever lost: the free page count and the live pages add up to the arena. */
  lemma PagesConserved(a: Arena)
    requires Inv(a)
    ensures FreePages(a.free, |a.free|) + LivePages(a) == a.total
  {
    var free, held := FreeSet(a.base, a.free), LiveSet(a.base, a.live);
    FreePagesIsSize(a.base, a.free, |a.free|);
    assert FreeBelow(a.base, a.free, |a.free|) == free;
    TotalSizeUnion(free, held);
    TilesConserve(a.total, free + held);
  }

  // -------------------------------------------------------------------- runs

  datatype Request = AllocateReq(order: nat) | DeallocateReq(addr: nat)

  function Serve(a: Arena, r: Request): Arena
    requires |a.free| == MAX_ORDER + 1
    requires r.DeallocateReq? && r.addr in a.live ==> a.live[r.addr] <= MAX_ORDER && a.base <= r.addr
  {
    match r
    case AllocateReq(order) => Allocate(a, order).0
    case DeallocateReq(addr) => Deallocate(a, addr).0
  }

  lemma ServeCorrect(a: Arena, r: Request)
    requires Inv(a)
    ensures r.DeallocateReq? && r.addr in a.live ==> a.base <= r.addr
    ensures Inv(Serve(a, r)) && Serve(a, r).base == a.base && Serve(a, r).total == a.total
  {
    match r
    case AllocateReq(order) => AllocateCorrect(a, order);
    case DeallocateReq(addr) => DeallocateCorrect(a, addr);
  }

  ghost function Run(a: Arena, requests: seq<Request>): (b: Arena)
    requires Inv(a)
    ensures Inv(b) && b.base == a.base && b.total == a.total
    decreases |requests|
  {
    if requests == [] then a
    else
      ServeCorrect(a, requests[0]);
      Run(Serve(a, requests[0]), requests[1..])
  }

  /**
   Whatever requests came in between, successful or not: once the same blocks are live
   again, every free list holds the same blocks again.  With nothing live this says that
   freeing everything restores the seeded lists.
   */
  lemma RunRestoresFreeLists(a: Arena, requests: seq<Request>, k: nat)
    requires Inv(a) && k <= MAX_ORDER
    requires Run(a, requests).live == a.live
    ensures multiset(Run(a, requests).free[k]) == multiset(a.free[k])
    ensures FreePages(Run(a, requests).free, MAX_ORDER + 1) == FreePages(a.free, MAX_ORDER + 1)
  {
    var b := Run(a, requests);
    forall p: nat ensures PageFree(a, p) <==> PageFree(b, p) {}
    FreeListsDetermined(a, b, k);
    PagesConserved(a);
    PagesConserved(b);
  }

  /** `deallocate` undoes `allocate`, up to the order within a free list. */
  lemma DeallocateUndoesAllocate(a: Arena, order: nat, k: nat)
    requires Inv(a) && Allocate(a, order).1.Ok? && k <= MAX_ORDER
    ensures var (b, r) := Allocate(a, order);
      && Inv(b) && r.value in b.live && a.base <= r.value
      && Deallocate(b, r.value).1.Ok?
      && Inv(Deallocate(b, r.value).0) && Deallocate(b, r.value).0.live == a.live
      && multiset(Deallocate(b, r.value).0.free[k]) == multiset(a.free[k])
  {
    AllocateCorrect(a, order);
    var (b, r) := Allocate(a, order);
    DeallocateCorrect(b, r.value);
    var c := Deallocate(b, r.value).0;
    assert a.live[r.value := order] - {r.value} == a.live;
    forall p: nat ensures PageFree(a, p) <==> PageFree(c, p) {}
    FreeListsDetermined(a, c, k);
  }

  /**
   With nothing live, as after seeding, the lists hold exactly total / 2^20 blocks of the
   largest order plus one smaller one per bit set in total % 2^20.
   */
  lemma IdleBlockCount(a: Arena)
    requires Inv(a) && a.live == map[]
    ensures |a.free| == MAX_ORDER + 1
    ensures ListEntries(a.free, MAX_ORDER + 1) == a.total / MAX_BLOCK_PAGES + CountOnes(a.total % MAX_BLOCK_PAGES)
  {
    hide ListEntries, Pow2, Shl, CountLow, CountOnes, BlockAt;
    ListEntriesIsCount(a.base, a.free, MAX_ORDER + 1);
    assert FreeBelow(a.base, a.free, MAX_ORDER + 1) == FreeSet(a.base, a.free);
    assert LiveSet(a.base, a.live) == {};
    SettledCount(a.total, FreeSet(a.base, a.free));
    var q, r := a.total / MAX_BLOCK_PAGES, a.total % MAX_BLOCK_PAGES;
    MaxBlock();
    ShlIsProduct(q, MAX_ORDER);
    CountLowSplit(q, r, MAX_ORDER);
  }
}
