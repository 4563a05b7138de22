/**
 The binary tree of aligned power-of-two blocks over the pages 0, 1, 2, ... of an arena,
 and what splitting, reserving, releasing and merging blocks does to a partition of the
 arena into such blocks.  Nothing here mentions addresses or free lists.
 */
module BlockTree {
  import opened Bits

  const MAX_ORDER: nat := 20

  /** The pages [index * 2^order, (index + 1) * 2^order). */
  datatype Block = Block(order: nat, index: nat)

  ghost predicate Covers(b: Block, p: nat) {
    Shr(p, b.order) == b.index
  }

  function Size(b: Block): nat {
    Pow2(b.order)
  }

  function FirstPage(b: Block): nat {
    Shl(b.index, b.order)
  }

  lemma CoversInterval(b: Block, p: nat)
    ensures Covers(b, p) <==> FirstPage(b) <= p < FirstPage(b) + Size(b)
  {
    ShrInterval(p, b.order, b.index);
  }

  lemma CoversFirstPage(b: Block)
    ensures Covers(b, FirstPage(b))
  {
    CoversInterval(b, FirstPage(b));
  }

  function Lower(b: Block): Block
    requires b.order > 0
  {
    Block(b.order - 1, 2 * b.index)
  }

  function Upper(b: Block): Block
    requires b.order > 0
  {
    Block(b.order - 1, 2 * b.index + 1)
  }

  function Parent(b: Block): Block {
    Block(b.order + 1, b.index / 2)
  }

  function Buddy(b: Block): Block {
    Block(b.order, Flip(b.index))
  }

  /** A block's pages are those of its two halves, and no page is in both. */
  lemma HalvesPartition(b: Block, p: nat)
    requires b.order > 0
    ensures Covers(b, p) <==> Covers(Lower(b), p) || Covers(Upper(b), p)
    ensures !(Covers(Lower(b), p) && Covers(Upper(b), p))
  {
  }

  ghost predicate Covered(s: set<Block>, p: nat) {
    exists b :: b in s && Covers(b, p)
  }

  /** The blocks of `s` cover the pages below `n`, and each such page exactly once. */
  ghost predicate Tiles(n: nat, s: set<Block>) {
    && (forall b, p: nat | b in s && Covers(b, p) :: p < n)
    && (forall p: nat | p < n :: Covered(s, p))
    && (forall a, b, p: nat | a in s && b in s && Covers(a, p) && Covers(b, p) :: a == b)
  }

  /** No two free buddies: everything below the largest order that can merge has merged. */
  ghost predicate NoFreeBuddies(free: set<Block>) {
    forall b {:trigger Buddy(b)} | b in free && b.order < MAX_ORDER :: Buddy(b) !in free
  }

  /**
   The invariant between calls: `free` and `held` blocks together tile the arena and the
   free ones are fully merged.
   */
  ghost predicate Settled(n: nat, free: set<Block>, held: set<Block>) {
    && free !! held
    && (forall b | b in free + held :: b.order <= MAX_ORDER)
    && Tiles(n, free + held)
    && NoFreeBuddies(free)
  }

  // ---------------------------------------------------------------- steps

  lemma SplitTiles(n: nat, s: set<Block>, b: Block)
    requires Tiles(n, s) && b in s && b.order > 0
    ensures Lower(b) !in s && Upper(b) !in s
    ensures Tiles(n, s - {b} + {Lower(b), Upper(b)})
  {
    var t := s - {b} + {Lower(b), Upper(b)};
    CoversFirstPage(Lower(b));
    CoversFirstPage(Upper(b));
    forall p: nat ensures Covers(b, p) <==> Covers(Lower(b), p) || Covers(Upper(b), p) {
      HalvesPartition(b, p);
    }
    forall p: nat | p < n ensures Covered(t, p) {
      assert Covered(s, p);
        var c :| c in s && Covers(c, p);
      if c == b {
        assert Covers(Lower(b), p) || Covers(Upper(b), p);
      } else {
        assert c in t;
      }
    }
  }

  lemma MergeTiles(n: nat, s: set<Block>, b: Block)
    requires Tiles(n, s) && b in s && Buddy(b) in s
    ensures Parent(b) !in s
    ensures Tiles(n, s - {b, Buddy(b)} + {Parent(b)})
  {
    var q := Parent(b);
    var t := s - {b, Buddy(b)} + {q};
    assert {Lower(q), Upper(q)} == {b, Buddy(b)};
    CoversFirstPage(b);
    forall p: nat ensures Covers(q, p) <==> Covers(b, p) || Covers(Buddy(b), p) {
      HalvesPartition(q, p);
    }
    forall p: nat | p < n ensures Covered(t, p) {
      assert Covered(s, p);
        var c :| c in s && Covers(c, p);
      if c == b || c == Buddy(b) {
        assert Covers(q, p);
      } else {
        assert c in t;
      }
    }
  }

  /** Taking a free block out of the free set keeps the invariant. */
  lemma ReserveKeepsSettled(n: nat, free: set<Block>, held: set<Block>, b: Block)
    requires Settled(n, free, held) && b in free
    ensures b !in held && Settled(n, free - {b}, held + {b})
  {
    assert (free - {b}) + (held + {b}) == free + held;
  }

  /** Splitting a held block, freeing the lower half and holding the upper one. */
  lemma SplitKeepsSettled(n: nat, free: set<Block>, held: set<Block>, b: Block)
    requires Settled(n, free, held) && b in held && b.order > 0
    ensures Lower(b) !in free + held && Upper(b) !in free + held
    ensures Settled(n, free + {Lower(b)}, held - {b} + {Upper(b)})
  {
    SplitTiles(n, free + held, b);
    assert (free + {Lower(b)}) + (held - {b} + {Upper(b)}) == (free + held) - {b} + {Lower(b), Upper(b)};
    assert Buddy(Lower(b)) == Upper(b);
  }

  /** Merging a held block with its free buddy and holding the result. */
  lemma MergeKeepsSettled(n: nat, free: set<Block>, held: set<Block>, b: Block)
    requires Settled(n, free, held) && b in held && Buddy(b) in free && b.order < MAX_ORDER
    ensures Parent(b) !in free + held
    ensures Settled(n, free - {Buddy(b)}, held - {b} + {Parent(b)})
  {
    MergeTiles(n, free + held, b);
    assert (free - {Buddy(b)}) + (held - {b} + {Parent(b)}) == (free + held) - {b, Buddy(b)} + {Parent(b)};
  }

  /** Giving a held block back when it cannot merge any further. */
  lemma ReleaseKeepsSettled(n: nat, free: set<Block>, held: set<Block>, b: Block)
    requires Settled(n, free, held) && b in held
    requires b.order == MAX_ORDER || Buddy(b) !in free
    ensures Settled(n, free + {b}, held - {b})
  {
    assert (free + {b}) + (held - {b}) == free + held;
    forall c | c in free + {b} && c.order < MAX_ORDER ensures Buddy(c) !in free + {b} {
      assert Buddy(Buddy(c)) == c;
    }
  }

  // ------------------------------------------------------- canonical form

  ghost predicate FreePage(n: nat, held: set<Block>, p: nat) {
    p < n && forall b | b in held :: !Covers(b, p)
  }

  ghost predicate WhollyFree(n: nat, held: set<Block>, b: Block) {
    forall p: nat | Covers(b, p) :: FreePage(n, held, p)
  }

  /** `f` contains `b`: its index is the prefix of `b`'s. */
  ghost predicate Encloses(f: Block, b: Block) {
    b.order <= f.order && Shr(b.index, f.order - b.order) == f.index
  }

  lemma EnclosesPages(f: Block, b: Block, p: nat)
    requires Encloses(f, b) && Covers(b, p)
    ensures Covers(f, p)
  {
    ShrComposes(p, b.order, f.order - b.order);
  }

  lemma FreeBlocksAreWhollyFree(n: nat, free: set<Block>, held: set<Block>, b: Block)
    requires Settled(n, free, held) && b in free
    ensures WhollyFree(n, held, b)
  {
    forall p: nat | Covers(b, p) ensures FreePage(n, held, p) {
      forall c | c in held ensures !Covers(c, p) {
        assert c != b;
      }
    }
  }

  /** Every wholly free aligned run of pages lies inside a single free block. */
  lemma {:induction false} EnclosingFreeBlock(n: nat, free: set<Block>, held: set<Block>, b: Block) returns (f: Block)
    requires Settled(n, free, held) && WhollyFree(n, held, b) && b.order <= MAX_ORDER
    ensures f in free && Encloses(f, b)
    decreases b.order
  {
    if b.order == 0 {
      assert Covers(b, b.index);
      assert Covered(free + held, b.index);
      f :| f in free + held && Covers(f, b.index);
    } else {
      var l, u := Lower(b), Upper(b);
      assert Buddy(l) == u;
      forall p: nat | Covers(l, p) || Covers(u, p) ensures FreePage(n, held, p) {
        HalvesPartition(b, p);
      }
      f := EnclosingFreeBlock(n, free, held, l);
      var g := EnclosingFreeBlock(n, free, held, u);
      if f.order >= b.order {
        HalfEnclosed(f, b, l);
      } else if g.order >= b.order {
        HalfEnclosed(g, b, u);
        f := g;
      } else {
        assert false;
      }
    }
  }

  lemma HalfEnclosed(f: Block, b: Block, h: Block)
    requires b.order > 0 && h in {Lower(b), Upper(b)} && Encloses(f, h) && f.order >= b.order
    ensures Encloses(f, b)
  {
    ShrComposes(h.index, 1, f.order - b.order);
    assert Shr(h.index, 1) == Shr(h.index, 0) / 2 == b.index;
  }

  /** A block that is wholly free and whose parent is not, with orders capped at MAX_ORDER. */
  ghost predicate Maximal(n: nat, held: set<Block>, b: Block) {
    && b.order <= MAX_ORDER
    && WhollyFree(n, held, b)
    && (b.order == MAX_ORDER || !WhollyFree(n, held, Parent(b)))
  }

  lemma OverlapMeansEqual(n: nat, s: set<Block>, f: Block, b: Block)
    requires Tiles(n, s) && f in s && b in s && Encloses(f, b)
    ensures f == b
  {
    CoversFirstPage(b);
    EnclosesPages(f, b, FirstPage(b));
  }

  lemma ParentEncloses(b: Block)
    ensures Encloses(Parent(b), b)
  {
    assert Shr(b.index, 1) == Shr(b.index, 0) / 2;
  }

  lemma EnclosesTransitively(f: Block, g: Block, b: Block)
    requires Encloses(f, g) && Encloses(g, b)
    ensures Encloses(f, b)
  {
    ShrComposes(b.index, g.order - b.order, f.order - g.order);
  }

  /** Canonical form: the free blocks are exactly the maximal wholly free blocks. */
  lemma FreeIffMaximal(n: nat, free: set<Block>, held: set<Block>, b: Block)
    requires Settled(n, free, held)
    ensures b in free <==> Maximal(n, held, b)
  {
    if b in free {
      FreeBlocksAreWhollyFree(n, free, held, b);
      if b.order < MAX_ORDER && WhollyFree(n, held, Parent(b)) {
        var f := EnclosingFreeBlock(n, free, held, Parent(b));
        ParentEncloses(b);
        EnclosesTransitively(f, Parent(b), b);
        OverlapMeansEqual(n, free + held, f, b);
        assert false;
      }
    } else if Maximal(n, held, b) {
      var f := EnclosingFreeBlock(n, free, held, b);
      if f.order > b.order {
        ShrComposes(b.index, 1, f.order - b.order - 1);
        assert Shr(b.index, 1) == Shr(b.index, 0) / 2;
        assert Encloses(f, Parent(b));
        FreeBlocksAreWhollyFree(n, free, held, f);
        forall p: nat | Covers(Parent(b), p) ensures FreePage(n, held, p) {
          EnclosesPages(f, Parent(b), p);
        }
      }
      assert false;
    }
  }

  /** The free blocks are a function of the free pages alone. */
  lemma FreeSetDetermined(n: nat, f1: set<Block>, h1: set<Block>, f2: set<Block>, h2: set<Block>)
    requires Settled(n, f1, h1) && Settled(n, f2, h2)
    requires forall p: nat :: FreePage(n, h1, p) <==> FreePage(n, h2, p)
    ensures f1 == f2
  {
    forall b ensures b in f1 <==> b in f2 {
      FreeIffMaximal(n, f1, h1, b);
      FreeIffMaximal(n, f2, h2, b);
      assert WhollyFree(n, h1, b) <==> WhollyFree(n, h2, b);
      assert WhollyFree(n, h1, Parent(b)) <==> WhollyFree(n, h2, Parent(b));
    }
  }

  lemma RunInsideFreeBlock(n: nat, free: set<Block>, held: set<Block>, f: Block, order: nat) returns (i: nat)
    requires Settled(n, free, held) && f in free && order <= f.order
    ensures WhollyFree(n, held, Block(order, i))
  {
    var d := f.order - order;
    i := FirstPage(Block(d, f.index));
    CoversFirstPage(Block(d, f.index));
    FreeBlocksAreWhollyFree(n, free, held, f);
    forall p: nat | Covers(Block(order, i), p) ensures FreePage(n, held, p) {
      EnclosesPages(f, Block(order, i), p);
    }
  }

  /** Some aligned run of 2^order pages is wholly free exactly when some free block is that large. */
  lemma FreeRunIffLargeBlock(n: nat, free: set<Block>, held: set<Block>, order: nat)
    requires Settled(n, free, held) && order <= MAX_ORDER
    ensures (exists i: nat :: WhollyFree(n, held, Block(order, i))) <==> (exists f :: f in free && order <= f.order)
  {
    if i: nat :| WhollyFree(n, held, Block(order, i)) {
      var f := EnclosingFreeBlock(n, free, held, Block(order, i));
    }
    if f :| f in free && order <= f.order {
      var i := RunInsideFreeBlock(n, free, held, f, order);
    }
  }

  // --------------------------------------------------------- conservation

  ghost function TotalSize(s: set<Block>): nat {
    if s == {} then 0
    else
      var b :| b in s;
      Size(b) + TotalSize(s - {b})
  }

  lemma {:induction false} TotalSizeRemove(s: set<Block>, b: Block)
    requires b in s
    ensures TotalSize(s) == Size(b) + TotalSize(s - {b})
    decreases |s|
  {
    var c :| c in s && TotalSize(s) == Size(c) + TotalSize(s - {c});
    if c != b {
      TotalSizeRemove(s - {c}, b);
      TotalSizeRemove(s - {b}, c);
      assert s - {c} - {b} == s - {b} - {c};
    }
  }

  lemma {:induction false} TotalSizeUnion(s: set<Block>, t: set<Block>)
    requires s !! t
    ensures TotalSize(s + t) == TotalSize(s) + TotalSize(t)
    decreases |s|
  {
    if s == {} {
      assert s + t == t;
    } else {
      var b :| b in s;
      TotalSizeUnion(s - {b}, t);
      TotalSizeRemove(s, b);
      TotalSizeRemove(s + t, b);
      assert s + t - {b} == (s - {b}) + t;
    }
  }

  /** A tiling ends with a block, and what is before that block is tiled by the others. */
  lemma LastBlock(n: nat, s: set<Block>) returns (b: Block)
    requires Tiles(n, s) && n > 0
    ensures b in s && FirstPage(b) + Size(b) == n && Tiles(FirstPage(b), s - {b})
  {
    assert Covered(s, n - 1);
    b :| b in s && Covers(b, n - 1);
    var m := FirstPage(b);
    CoversInterval(b, n - 1);
    assert m + Size(b) == n by {
      CoversInterval(b, m + Size(b) - 1);
    }
    var t := s - {b};
    forall c, p: nat | c in t && Covers(c, p) ensures p < m {
      CoversInterval(b, p);
    }
    forall p: nat | p < m ensures Covered(t, p) {
      assert Covered(s, p);
        var c :| c in s && Covers(c, p);
      CoversInterval(b, p);
      assert c in t;
    }
  }

  /** Any tiling of the pages below `n` has exactly `n` pages. */
  lemma {:induction false} TilesConserve(n: nat, s: set<Block>)
    requires Tiles(n, s)
    ensures TotalSize(s) == n
    decreases n
  {
    if n == 0 {
      if b :| b in s {
        CoversFirstPage(b);
      }
    } else {
      var b := LastBlock(n, s);
      TilesConserve(FirstPage(b), s - {b});
      TotalSizeRemove(s, b);
    }
  }

  /** Appending one block right after the tiled prefix extends the tiling. */
  lemma AppendTiles(n: nat, s: set<Block>, b: Block)
    requires Tiles(n, s) && FirstPage(b) == n
    ensures b !in s && Tiles(n + Size(b), s + {b})
  {
    CoversFirstPage(b);
    forall p: nat ensures Covers(b, p) <==> n <= p < n + Size(b) {
      CoversInterval(b, p);
    }
    var t := s + {b};
    forall p: nat | p < n + Size(b) ensures Covered(t, p) {
      if p < n {
        assert Covered(s, p);
        var c :| c in s && Covers(c, p);
        assert c in t;
      } else {
        assert b in t && Covers(b, p);
      }
    }
  }

  /** When nothing is held, the last free block starts a pair of buddies unless it is of the largest size. */
  lemma LastBlockIsEven(n: nat, free: set<Block>, b: Block)
    requires Settled(n, free, {}) && b in free && FirstPage(b) + Size(b) == n && b.order < MAX_ORDER
    ensures b.index % 2 == 0
  {
    if b.index % 2 == 1 {
      forall p: nat | Covers(Parent(b), p) ensures FreePage(n, {}, p) {
        HalvesPartition(Parent(b), p);
        CoversInterval(b, p);
        CoversInterval(Buddy(b), p);
        ShlSuccessor(b.index - 1, b.order);
      }
      FreeIffMaximal(n, free, {}, b);
    }
  }

  lemma CountWithout(b: Block, n: nat)
    requires b.order <= MAX_ORDER && FirstPage(b) + Size(b) == n && (b.order < MAX_ORDER ==> b.index % 2 == 0)
    ensures CountLow(n, MAX_ORDER) == 1 + CountLow(FirstPage(b), MAX_ORDER)
  {
    ShlSuccessor(b.index, b.order);
    CountLowOfShl(b.index + 1, b.order, MAX_ORDER);
    CountLowOfShl(b.index, b.order, MAX_ORDER);
  }

  /** When nothing is held there are n / 2^20 + count_ones(n % 2^20) blocks. */
  lemma {:induction false} SettledCount(n: nat, free: set<Block>)
    requires Settled(n, free, {})
    ensures |free| == CountLow(n, MAX_ORDER)
    decreases n
  {
    assert free + {} == free;
    if n == 0 {
      if b :| b in free {
        CoversFirstPage(b);
      }
      assert free == {};
      assert CountLow(0, MAX_ORDER) == 0 by {
        CountLowSplit(0, 0, MAX_ORDER);
        ShlIsProduct(0, MAX_ORDER);
      }
    } else {
      var b := LastBlock(n, free);
      if b.order < MAX_ORDER {
        LastBlockIsEven(n, free, b);
      }
      CountWithout(b, n);
      assert (free - {b}) + {} == free - {b};
      SettledCount(FirstPage(b), free - {b});
    }
  }
}
