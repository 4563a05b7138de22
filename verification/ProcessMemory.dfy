/**
 Page tables and regions of processes that share one physical allocator.  `Context` is a
 process's memory as a value; `foreign` below always stands for the frames that are live
 but not mapped by the process at hand: those of other processes and those already lost.
 */
module ProcessMemory {
  import opened Results
  import opened Bits
  import opened BlockTree
  import opened BuddyAllocator

  datatype MemoryAccess = MemoryAccess(read: bool, write: bool, execute: bool, userAccessible: bool)

  datatype Mapping = Mapping(phys: nat, access: MemoryAccess)

  /** A half-open range of virtual addresses. */
  datatype Region = Region(start: nat, end: nat, access: MemoryAccess)

  datatype Context = Context(pid: nat, mappings: map<nat, Mapping>, regions: seq<Region>, nextAddr: nat)

  /** The effect of a call: the frames it displaced are still live but no longer mapped. */
  datatype Effect<+T> = Effect(arena: Arena, ctx: Context, displaced: set<nat>, result: Result<T, MemoryError>)

  function PageCount(bytes: nat): nat {
    (bytes + PAGE_SIZE - 1) / PAGE_SIZE
  }

  /** The least number of pages that hold so many bytes. */
  lemma PageCountIsLeast(bytes: nat, pages: nat)
    ensures bytes <= pages * PAGE_SIZE <==> PageCount(bytes) <= pages
  {
  }

  const U64: nat := 0x1_0000_0000_0000_0000

  /** How many pages a region spans; an end before the start makes the 64-bit difference wrap around. */
  function Pages(r: Region): nat {
    if r.start <= r.end then PageCount(r.end - r.start) else PageCount((r.end - r.start) % U64)
  }

  function KeysEnd(r: Region): nat {
    r.start + Pages(r) * PAGE_SIZE
  }

  function Displaced(m: map<nat, Mapping>, key: nat): set<nat> {
    if key in m then {m[key].phys} else {}
  }

  /** Map `count` fresh frames at `addr`, `addr + PAGE_SIZE`, ...; the first failure stops it and undoes nothing. */
  function MapPages(a: Arena, m: map<nat, Mapping>, addr: nat, count: nat, access: MemoryAccess)
    : (r: (Arena, map<nat, Mapping>, set<nat>, bool))
    requires |a.free| == MAX_ORDER + 1
    decreases count
  {
    if count == 0 then (a, m, {}, true)
    else
      var (b, f) := Allocate(a, 0);
      if f.Err? then (a, m, {}, false)
      else
        var (c, n, d, ok) := MapPages(b, m[addr := Mapping(f.value, access)], addr + PAGE_SIZE, count - 1, access);
        (c, n, d + Displaced(m, addr), ok)
  }

  function AllocateVirtual(a: Arena, c: Context, allowed: bool, size: nat, access: MemoryAccess): Effect<nat>
    requires |a.free| == MAX_ORDER + 1
  {
    if !allowed then Effect(a, c, {}, Err(CapabilityDenied))
    else
      var pages := PageCount(size);
      var (b, m, d, ok) := MapPages(a, c.mappings, c.nextAddr, pages, access);
      if !ok then Effect(b, c.(mappings := m), d, Err(OutOfMemory))
      else
        Effect(b, Context(c.pid, m, c.regions + [Region(c.nextAddr, c.nextAddr + size, access)],
                          c.nextAddr + pages * PAGE_SIZE), d, Ok(c.nextAddr))
  }

  function RegionAt(rs: seq<Region>, start: nat): (i: nat)
    ensures i <= |rs| && (i < |rs| ==> rs[i].start == start)
    ensures forall j | 0 <= j < i :: rs[j].start != start
  {
    if rs == [] || rs[0].start == start then 0 else 1 + RegionAt(rs[1..], start)
  }

  /** The page keys of `count` consecutive pages from `addr` on. */
  ghost function Keys(addr: nat, count: nat): set<nat>
    decreases count
  {
    if count == 0 then {} else {addr} + Keys(addr + PAGE_SIZE, count - 1)
  }

  lemma {:induction false} KeysBounds(addr: nat, count: nat)
    ensures forall k | k in Keys(addr, count) :: addr <= k < addr + count * PAGE_SIZE
    decreases count
  {
    if count == 0 {
    } else {
      KeysBounds(addr + PAGE_SIZE, count - 1);
    }
  }

  /** The keys are the addresses of those pages. */
  lemma KeysAre(addr: nat, count: nat, k: nat)
    ensures k in Keys(addr, count) <==> exists i: nat :: i < count && k == addr + i * PAGE_SIZE
  {
    if k in Keys(addr, count) {
      var i := KeyIndex(addr, count, k);
    }
    forall i: nat | i < count && k == addr + i * PAGE_SIZE ensures k in Keys(addr, count) {
      KeysContain(addr, count, i);
    }
  }

  lemma {:induction false} KeyIndex(addr: nat, count: nat, k: nat) returns (i: nat)
    requires k in Keys(addr, count)
    ensures i < count && k == addr + i * PAGE_SIZE
    decreases count
  {
    if k == addr {
      i := 0;
    } else {
      var j := KeyIndex(addr + PAGE_SIZE, count - 1, k);
      i := j + 1;
    }
  }

  ghost function FramesAt(m: map<nat, Mapping>, keys: set<nat>): set<nat> {
    set k | k in keys && k in m :: m[k].phys
  }

  /**
   Every live frame is a single page, and either foreign or mapped at exactly one key of
   `m`; everything mapped is live.
   */
  ghost predicate Accounts(live: map<nat, nat>, m: map<nat, Mapping>, foreign: set<nat>) {
    && (forall k, l | k in m && l in m && m[k].phys == m[l].phys :: k == l)
    && (forall k | k in m :: m[k].phys !in foreign)
    && live.Keys == foreign + FramesAt(m, m.Keys)
    && (forall x | x in live :: live[x] == 0)
  }

  lemma MapKeepsAccounts(live: map<nat, nat>, m: map<nat, Mapping>, foreign: set<nat>, key: nat, g: Mapping)
    requires Accounts(live, m, foreign) && g.phys !in live
    ensures Accounts(live[g.phys := 0], m[key := g], foreign + Displaced(m, key))
  {
    var n, d := m[key := g], Displaced(m, key);
    FramesMapped(m);
    FramesMapped(n);
    forall x ensures x in FramesAt(n, n.Keys) + d <==> x in FramesAt(m, m.Keys) + {g.phys} {
      if k :| k in m && m[k].phys == x && k != key {
        assert k in n && n[k].phys == x;
      }
      if x == g.phys {
        assert key in n && n[key].phys == x;
      }
    }
    assert FramesAt(n, n.Keys) + d == FramesAt(m, m.Keys) + {g.phys};
    assert live[g.phys := 0].Keys == live.Keys + {g.phys};
    assert foreign + d + FramesAt(n, n.Keys) == foreign + (FramesAt(n, n.Keys) + d);
  }

  lemma FramesMapped(m: map<nat, Mapping>)
    ensures forall k | k in m :: m[k].phys in FramesAt(m, m.Keys)
  {
  }

  lemma UnmapKeepsAccounts(live: map<nat, nat>, m: map<nat, Mapping>, foreign: set<nat>, key: nat)
    requires Accounts(live, m, foreign) && key in m
    ensures m[key].phys in live && live[m[key].phys] == 0
    ensures Accounts(live - {m[key].phys}, m - {key}, foreign)
  {
    var n, frame := m - {key}, m[key].phys;
    assert frame in FramesAt(m, m.Keys);
    forall x ensures x in FramesAt(n, n.Keys) <==> x in FramesAt(m, m.Keys) && x != frame {
      if k :| k in m && m[k].phys == x && k != key {
        assert k in n && n[k].phys == x;
      }
    }
  }

  // ------------------------------------------------------ how many frames fit

  lemma {:induction false} NonEmptyHasSize(s: set<Block>)
    ensures TotalSize(s) == 0 <==> s == {}
  {
  }

  function FreeCount(a: Arena): nat {
    FreePages(a.free, |a.free|)
  }

  /** A single page can be allocated exactly when the free page count is not zero. */
  lemma AllocatePage(a: Arena)
    requires Inv(a)
    ensures var (b, r) := Allocate(a, 0);
      && Inv(b)
      && (r.Ok? <==> FreeCount(a) > 0)
      && (r.Ok? ==> FreeCount(b) == FreeCount(a) - 1)
      && (r.Err? ==> b == a && r.error == OutOfMemory)
  {
    AllocateCorrect(a, 0);
    var (b, r) := Allocate(a, 0);
    var free, held := FreeSet(a.base, a.free), LiveSet(a.base, a.live);
    SourceBlock(a.base, a.free, 0);
    FreePagesIsSize(a.base, a.free, |a.free|);
    assert FreeBelow(a.base, a.free, |a.free|) == free;
    NonEmptyHasSize(free);
    PagesConserved(a);
    PagesConserved(b);
    if r.Ok? {
      var x := BlockAt(a.base, 0, r.value);
      LiveInsert(a.base, a.live, x);
      SameSizePlusOne(a, b, x);
    }
  }

  lemma SameSizePlusOne(a: Arena, b: Arena, x: Block)
    requires x.order == 0 && LiveSet(b.base, b.live) == LiveSet(a.base, a.live) + {x}
    requires Settled(a.total, FreeSet(a.base, a.free), LiveSet(a.base, a.live))
    requires WhollyFree(a.total, LiveSet(a.base, a.live), x)
    ensures LivePages(b) == LivePages(a) + 1
  {
    CoversFirstPage(x);
    assert FreePage(a.total, LiveSet(a.base, a.live), FirstPage(x));
    TotalSizeRemove(LiveSet(b.base, b.live), x);
    assert LiveSet(b.base, b.live) - {x} == LiveSet(a.base, a.live);
  }

  lemma DeallocatePage(a: Arena, x: nat)
    requires Inv(a) && x in a.live && a.live[x] == 0
    ensures a.base <= x && FreeCount(Deallocate(a, x).0) == FreeCount(a) + 1
  {
    DeallocateCorrect(a, x);
    var b := Deallocate(a, x).0;
    PagesConserved(a);
    PagesConserved(b);
    LiveRemove(a.base, a.live, x);
    var c := BlockAt(a.base, 0, x);
    assert c in LiveSet(a.base, a.live);
    TotalSizeRemove(LiveSet(a.base, a.live), c);
  }

  /**
   `n` is `m` with exactly the `count` keys from `addr` on mapped anew, with these rights, and
   `d` is exactly what `m` had there.
   */
  ghost predicate MapsRange(m: map<nat, Mapping>, n: map<nat, Mapping>, d: set<nat>, addr: nat, count: nat,
                            access: MemoryAccess)
  {
    && n.Keys == m.Keys + Keys(addr, count)
    && (forall k | k in n && k !in Keys(addr, count) :: n[k] == m[k])
    && (forall k | k in n && k in Keys(addr, count) :: n[k].access == access)
    && d == FramesAt(m, Keys(addr, count))
  }

  lemma MapsRangeStep(m: map<nat, Mapping>, g: Mapping, n: map<nat, Mapping>, d: set<nat>, addr: nat, count: nat)
    requires count > 0 && MapsRange(m[addr := g], n, d, addr + PAGE_SIZE, count - 1, g.access)
    ensures MapsRange(m, n, d + Displaced(m, addr), addr, count, g.access)
  {
    var rest := Keys(addr + PAGE_SIZE, count - 1);
    KeysBounds(addr + PAGE_SIZE, count - 1);
    assert Keys(addr, count) == {addr} + rest && addr !in rest;
    forall x ensures x in FramesAt(m, Keys(addr, count)) <==> x in FramesAt(m[addr := g], rest) + Displaced(m, addr) {
      if k :| k in rest && k in m && m[k].phys == x {
        assert k in m[addr := g] && m[addr := g][k].phys == x;
      }
      if k :| k in rest && k in m[addr := g] && m[addr := g][k].phys == x {
        assert k in m && m[k].phys == x;
      }
    }
    assert m[addr := g].Keys == m.Keys + {addr};
  }

  lemma MapsNothing(m: map<nat, Mapping>, addr: nat, access: MemoryAccess)
    ensures MapsRange(m, m, {}, addr, 0, access)
  {
  }

  /** One page fewer is free, and it is `frame`. */
  ghost predicate TakesPage(a: Arena, b: Arena, frame: nat) {
    && Inv(b) && |b.free| == MAX_ORDER + 1 && b.base == a.base && b.total == a.total
    && frame !in a.live && b.live == a.live[frame := 0]
    && FreeCount(a) == FreeCount(b) + 1
  }

  lemma TakePage(a: Arena)
    requires Inv(a)
    ensures var (b, r) := Allocate(a, 0);
      && (r.Ok? <==> FreeCount(a) > 0)
      && (r.Ok? ==> TakesPage(a, b, r.value))
      && (r.Err? ==> b == a)
  {
    AllocatePage(a);
    AllocateCorrect(a, 0);
  }

  ghost predicate PagesTaken(a: Arena, b: Arena, count: nat, ok: bool) {
    && Inv(b) && b.base == a.base && b.total == a.total
    && (ok <==> count <= FreeCount(a))
    && FreeCount(b) == (if ok then FreeCount(a) - count else 0)
  }

  /**
   Mapping pages one by one succeeds exactly when that many are free, and otherwise stops
   after as many as there were.  What it displaces is what was mapped at the keys it maps.
   */
  lemma {:induction false} MapPagesCorrect(a: Arena, m: map<nat, Mapping>, foreign: set<nat>, addr: nat, count: nat,
                                           access: MemoryAccess)
    requires Inv(a) && |a.free| == MAX_ORDER + 1 && Accounts(a.live, m, foreign)
    ensures var (b, n, d, ok) := MapPages(a, m, addr, count, access);
      && PagesTaken(a, b, count, ok) && Accounts(b.live, n, foreign + d)
      && MapsRange(m, n, d, addr, if ok then count else FreeCount(a), access)
    decreases count
  {
    hide Inv, Allocate, FreeCount, Accounts, MapsRange, Displaced;
    assert foreign + {} == foreign;
    MapsNothing(m, addr, access);
    if count > 0 {
      TakePage(a);
      var (b1, f) := Allocate(a, 0);
      if f.Ok? {
        var g := Mapping(f.value, access);
        var d0 := Displaced(m, addr);
        MapKeepsAccounts(a.live, m, foreign, addr, g);
        MapPagesCorrect(b1, m[addr := g], foreign + d0, addr + PAGE_SIZE, count - 1, access);
        var (b, n, d, ok) := MapPages(b1, m[addr := g], addr + PAGE_SIZE, count - 1, access);
        assert foreign + d0 + d == foreign + (d + d0);
        MapsRangeStep(m, g, n, d, addr, if ok then count else FreeCount(a));
      }
    }
  }

  // --------------------------------------------------------------- unmapping

  /** Unmap and free `count` consecutive pages; stop at the first failure. */
  ghost function UnmapPages(a: Arena, m: map<nat, Mapping>, addr: nat, count: nat)
    : (Arena, map<nat, Mapping>, Result<(), MemoryError>)
    requires Inv(a)
    decreases count
  {
    if count == 0 then (a, m, Ok(()))
    else if addr !in m then (a, m, Err(Unmapped))
    else
      DeallocateCorrect(a, m[addr].phys);
      var (b, r) := Deallocate(a, m[addr].phys);
      if r.Err? then (b, m - {addr}, r)
      else UnmapPages(b, m - {addr}, addr + PAGE_SIZE, count - 1)
  }

  ghost predicate ReturnsPage(a: Arena, b: Arena, frame: nat) {
    && Inv(b) && b.base == a.base && b.total == a.total
    && frame in a.live && b.live == a.live - {frame}
    && FreeCount(b) == FreeCount(a) + 1
  }

  lemma ReturnPage(a: Arena, frame: nat)
    requires Inv(a) && frame in a.live && a.live[frame] == 0
    ensures |a.free| == MAX_ORDER + 1 && a.base <= frame
    ensures var (b, r) := Deallocate(a, frame); r.Ok? && ReturnsPage(a, b, frame)
  {
    DeallocateCorrect(a, frame);
    DeallocatePage(a, frame);
  }

  ghost predicate PagesReturned(a: Arena, b: Arena, count: nat) {
    Inv(b) && b.base == a.base && b.total == a.total && FreeCount(b) == FreeCount(a) + count
  }

  lemma UnmapUnfolds(a: Arena, m: map<nat, Mapping>, addr: nat, count: nat, b: Arena)
    requires Inv(a) && count > 0 && addr in m && m[addr].phys in a.live && a.live[m[addr].phys] == 0
    requires |a.free| == MAX_ORDER + 1 && a.base <= m[addr].phys
    requires Deallocate(a, m[addr].phys).1.Ok? && Deallocate(a, m[addr].phys).0 == b && Inv(b)
    ensures UnmapPages(a, m, addr, count) == UnmapPages(b, m - {addr}, addr + PAGE_SIZE, count - 1)
  {
    hide Inv, Deallocate;
  }

  /** Unmapping pages that are all mapped cannot fail, and frees exactly one frame for each. */
  lemma {:induction false} UnmapPagesCorrect(a: Arena, m: map<nat, Mapping>, foreign: set<nat>, addr: nat, count: nat)
    requires Inv(a) && Accounts(a.live, m, foreign) && Keys(addr, count) <= m.Keys
    ensures var (b, n, r) := UnmapPages(a, m, addr, count);
      && r.Ok? && n == m - Keys(addr, count)
      && PagesReturned(a, b, count) && Accounts(b.live, n, foreign)
    decreases count
  {
    hide Inv, FreeCount, Deallocate, UnmapPages, Accounts, Keys;
    if count == 0 {
      UnmapNothing(a, m, addr);
    } else {
      KeysFirst(m, addr, count);
      var frame := m[addr].phys;
      UnmapKeepsAccounts(a.live, m, foreign, addr);
      ReturnPage(a, frame);
      var b1 := Deallocate(a, frame).0;
      UnmapUnfolds(a, m, addr, count, b1);
      UnmapPagesCorrect(b1, m - {addr}, foreign, addr + PAGE_SIZE, count - 1);
    }
  }

  lemma KeysFirst(m: map<nat, Mapping>, addr: nat, count: nat)
    requires count > 0 && Keys(addr, count) <= m.Keys
    ensures addr in m && Keys(addr + PAGE_SIZE, count - 1) <= (m - {addr}).Keys
    ensures m - {addr} - Keys(addr + PAGE_SIZE, count - 1) == m - Keys(addr, count)
  {
    KeysBounds(addr + PAGE_SIZE, count - 1);
  }

  lemma UnmapNothing(a: Arena, m: map<nat, Mapping>, addr: nat)
    requires Inv(a)
    ensures UnmapPages(a, m, addr, 0) == (a, m, Ok(())) && m - Keys(addr, 0) == m
  {
  }

  /** Unmapping stops at the first page that is not mapped; what came before it is gone and its frames are free. */
  lemma {:induction false} UnmapPagesStops(a: Arena, m: map<nat, Mapping>, foreign: set<nat>, addr: nat, count: nat,
                                           good: nat)
    requires Inv(a) && Accounts(a.live, m, foreign) && good < count
    requires Keys(addr, good) <= m.Keys && addr + good * PAGE_SIZE !in m
    ensures var (b, n, r) := UnmapPages(a, m, addr, count);
      && r == Err(Unmapped) && n == m - Keys(addr, good)
      && PagesReturned(a, b, good) && Accounts(b.live, n, foreign)
    decreases count
  {
    hide Inv, FreeCount, Deallocate, UnmapPages, Accounts, Keys;
    UnmapNothing(a, m, addr);
    if good == 0 {
      UnmapMissing(a, m, addr, count);
    } else {
      KeysFirst(m, addr, good);
      var frame := m[addr].phys;
      UnmapKeepsAccounts(a.live, m, foreign, addr);
      ReturnPage(a, frame);
      var b1 := Deallocate(a, frame).0;
      UnmapUnfolds(a, m, addr, count, b1);
      UnmapPagesStops(b1, m - {addr}, foreign, addr + PAGE_SIZE, count - 1, good - 1);
    }
  }

  lemma UnmapMissing(a: Arena, m: map<nat, Mapping>, addr: nat, count: nat)
    requires Inv(a) && count > 0 && addr !in m
    ensures UnmapPages(a, m, addr, count) == (a, m, Err(Unmapped))
  {
  }

  // ----------------------------------------------------------------- regions

  /** Every page of every region is mapped, and the regions' pages lie in order below `nextAddr`. */
  ghost predicate RegionsOk(c: Context) {
    && (forall i | 0 <= i < |c.regions| ::
          && c.regions[i].start <= c.regions[i].end && KeysEnd(c.regions[i]) <= c.nextAddr
          && Keys(c.regions[i].start, Pages(c.regions[i])) <= c.mappings.Keys)
    && (forall i, j | 0 <= i < j < |c.regions| :: KeysEnd(c.regions[i]) <= c.regions[j].start)
  }

  ghost predicate ContextOk(a: Arena, c: Context, foreign: set<nat>) {
    Inv(a) && Accounts(a.live, c.mappings, foreign) && RegionsOk(c)
  }

  lemma AppendRegion(c: Context, n: map<nat, Mapping>, size: nat, access: MemoryAccess)
    requires RegionsOk(c) && c.mappings.Keys <= n.Keys && Keys(c.nextAddr, PageCount(size)) <= n.Keys
    ensures RegionsOk(Context(c.pid, n, c.regions + [Region(c.nextAddr, c.nextAddr + size, access)],
                              c.nextAddr + PageCount(size) * PAGE_SIZE))
  {
    hide PageCount, Keys;
    var r := Region(c.nextAddr, c.nextAddr + size, access);
    assert Pages(r) == PageCount(size);
  }

  lemma ArenaShape(a: Arena)
    requires Inv(a)
    ensures |a.free| == MAX_ORDER + 1
  {
  }

  /**
   `allocate_virtual` succeeds exactly when the capability check passed and enough pages are
   free.  When it fails half way, as many pages as were free have been mapped and stay mapped.
   */
  lemma AllocateVirtualCorrect(a: Arena, c: Context, foreign: set<nat>, allowed: bool, size: nat, access: MemoryAccess)
    requires ContextOk(a, c, foreign) && |a.free| == MAX_ORDER + 1
    ensures var e := AllocateVirtual(a, c, allowed, size, access);
      && ContextOk(e.arena, e.ctx, foreign + e.displaced) && e.arena.base == a.base && e.arena.total == a.total
      && (e.result.Ok? <==> allowed && PageCount(size) <= FreeCount(a))
      && (!allowed ==> e == Effect(a, c, {}, Err(CapabilityDenied)))
      && (allowed ==>
            MapsRange(c.mappings, e.ctx.mappings, e.displaced, c.nextAddr,
                      if e.result.Ok? then PageCount(size) else FreeCount(a), access))
      && (allowed && e.result.Err? ==>
            && e.result.error == OutOfMemory && FreeCount(e.arena) == 0
            && e.ctx.regions == c.regions && e.ctx.nextAddr == c.nextAddr)
      && e.ctx.pid == c.pid
      && (e.result.Ok? ==>
            && e.result.value == c.nextAddr
            && e.ctx.nextAddr == c.nextAddr + PageCount(size) * PAGE_SIZE
            && e.ctx.regions == c.regions + [Region(c.nextAddr, c.nextAddr + size, access)]
            && FreeCount(e.arena) == FreeCount(a) - PageCount(size))
  {
    hide Inv, Allocate, FreeCount, Accounts, MapPages, PageCount, Keys;
    assert foreign + {} == foreign;
    if allowed {
      MapPagesCorrect(a, c.mappings, foreign, c.nextAddr, PageCount(size), access);
      var (b, n, d, ok) := MapPages(a, c.mappings, c.nextAddr, PageCount(size), access);
      if ok {
        AppendRegion(c, n, size, access);
      } else {
        KeepRegions(c, c.(mappings := n));
      }
    }
  }

  lemma KeepRegions(c: Context, d: Context)
    requires RegionsOk(c) && d.regions == c.regions && d.nextAddr == c.nextAddr && c.mappings.Keys <= d.mappings.Keys
    ensures RegionsOk(d)
  {
    hide Keys, KeysEnd, Pages;
  }

  ghost function DeallocateVirtual(a: Arena, c: Context, vaddr: nat): Effect<()>
    requires Inv(a)
  {
    var i := RegionAt(c.regions, vaddr);
    if i == |c.regions| then Effect(a, c, {}, Err(RegionNotFound))
    else
      var (b, n, r) := UnmapPages(a, c.mappings, c.regions[i].start, Pages(c.regions[i]));
      Effect(b, c.(mappings := n, regions := RemoveAt(c.regions, i)), {}, r)
  }

  lemma RemoveRegion(c: Context, i: nat)
    requires RegionsOk(c) && i < |c.regions|
    ensures RegionsOk(c.(mappings := c.mappings - Keys(c.regions[i].start, Pages(c.regions[i])),
                         regions := RemoveAt(c.regions, i)))
  {
    hide Pages;
    var r := c.regions[i];
    var rs := RemoveAt(c.regions, i);
    KeysBounds(r.start, Pages(r));
    forall j | 0 <= j < |rs|
      ensures Keys(rs[j].start, Pages(rs[j])) <= c.mappings.Keys - Keys(r.start, Pages(r))
    {
      KeysBounds(rs[j].start, Pages(rs[j]));
      assert rs[j] == c.regions[if j < i then j else j + 1];
    }
  }

  /**
   `deallocate_virtual` succeeds exactly on the start of a registered region: it then never
   stops half way and frees one frame per page of the first region starting there.
   */
  lemma DeallocateVirtualCorrect(a: Arena, c: Context, foreign: set<nat>, vaddr: nat)
    requires ContextOk(a, c, foreign)
    ensures var e := DeallocateVirtual(a, c, vaddr);
      var i := RegionAt(c.regions, vaddr);
      && ContextOk(e.arena, e.ctx, foreign + e.displaced) && e.arena.base == a.base && e.arena.total == a.total
      && e.displaced == {}
      && (e.result.Ok? <==> exists r :: r in c.regions && r.start == vaddr)
      && (e.result.Err? ==> e == Effect(a, c, {}, Err(RegionNotFound)))
      && e.ctx.pid == c.pid && e.ctx.nextAddr == c.nextAddr
      && (e.result.Ok? ==>
            && i < |c.regions| && e.ctx.regions == c.regions[..i] + c.regions[i + 1..]
            && e.ctx.mappings == c.mappings - Keys(vaddr, Pages(c.regions[i]))
            && FreeCount(e.arena) == FreeCount(a) + Pages(c.regions[i]))
  {
    hide Inv, FreeCount, UnmapPages, Pages, Keys, Accounts;
    assert foreign + {} == foreign;
    var i := RegionAt(c.regions, vaddr);
    if i < |c.regions| {
      assert c.regions[i] in c.regions;
      UnmapPagesCorrect(a, c.mappings, foreign, vaddr, Pages(c.regions[i]));
      RemoveRegion(c, i);
    }
  }

  /**
   The frames a round trip moves: allocating a region and deallocating it again leaves the
   same frames live, also when mapping displaced some.
   */
  lemma RoundTripFrames(m: map<nat, Mapping>, n: map<nat, Mapping>, keys: set<nat>, foreign: set<nat>,
                        before: map<nat, nat>, after: map<nat, nat>)
    requires Accounts(before, m, foreign)
    requires Accounts(after, n - keys, foreign + FramesAt(m, keys))
    requires forall k | k in n && k !in keys :: k in m && n[k] == m[k]
    requires m.Keys <= n.Keys
    ensures before == after
  {
    assert n - keys == m - keys;
    forall x ensures x in FramesAt(m, m.Keys) <==> x in FramesAt(m, keys) + FramesAt(m - keys, (m - keys).Keys) {
      if k :| k in m && m[k].phys == x {
        if k !in keys {
          assert k in m - keys && (m - keys)[k].phys == x;
        }
      }
    }
    assert before.Keys == after.Keys;
  }

  /** No registered region starts where the next one will. */
  ghost predicate NextIsFresh(c: Context) {
    forall r | r in c.regions :: r.start != c.nextAddr
  }

  lemma {:induction false} RegionAtAppended(rs: seq<Region>, r: Region)
    requires forall q | q in rs :: q.start != r.start
    ensures RegionAt(rs + [r], r.start) == |rs|
  {
    if rs == [] {
    } else {
      assert rs[0] in rs;
      assert (rs + [r])[1..] == rs[1..] + [r];
      RegionAtAppended(rs[1..], r);
    }
  }

  lemma {:induction false} RegionAtEarlier(rs: seq<Region>, r: Region)
    requires exists q :: q in rs && q.start == r.start
    ensures RegionAt(rs + [r], r.start) == RegionAt(rs, r.start) < |rs|
  {
    if rs[0].start != r.start {
      assert (rs + [r])[1..] == rs[1..] + [r];
      RegionAtEarlier(rs[1..], r);
    }
  }

  /** A region that starts at `nextAddr` has no pages. */
  lemma RegionsBelowNext(c: Context, i: nat)
    requires RegionsOk(c) && i < |c.regions| && c.regions[i].start == c.nextAddr
    ensures Pages(c.regions[i]) == 0
  {
  }

  /**
   Allocating and at once deallocating a region leaves the allocator's free pages as they
   were exactly when the region is empty or none that was registered before starts at the
   same address: an empty region does not advance `nextAddr`, and the earlier one is found first.
   */
  lemma RoundTripIff(a: Arena, c: Context, foreign: set<nat>, size: nat, access: MemoryAccess)
    requires ContextOk(a, c, foreign) && |a.free| == MAX_ORDER + 1
    requires AllocateVirtual(a, c, true, size, access).result.Ok?
    ensures var e := AllocateVirtual(a, c, true, size, access);
      && Inv(e.arena)
      && var f := DeallocateVirtual(e.arena, e.ctx, e.result.value);
         f.result.Ok? && (f.arena.live == a.live <==> PageCount(size) == 0 || NextIsFresh(c))
  {
    hide Inv, Allocate, FreeCount, Accounts, MapPages, UnmapPages, PageCount, Keys, Pages, AllocateVirtual,
      DeallocateVirtual, RegionAt;
    AllocateVirtualCorrect(a, c, foreign, true, size, access);
    var e := AllocateVirtual(a, c, true, size, access);
    var v := c.nextAddr;
    var r := Region(v, v + size, access);
    DeallocateVirtualCorrect(e.arena, e.ctx, foreign + e.displaced, v);
    var f := DeallocateVirtual(e.arena, e.ctx, v);
    assert r in e.ctx.regions;
    var i := RegionAt(e.ctx.regions, v);
    SpanPages(r, size);
    if NextIsFresh(c) {
      RegionAtAppended(c.regions, r);
    } else {
      RegionAtEarlier(c.regions, r);
      RegionsBelowNext(c, i);
    }
    if NextIsFresh(c) || PageCount(size) == 0 {
      assert foreign + e.displaced + {} == foreign + e.displaced;
      RoundTripFrames(c.mappings, e.ctx.mappings, Keys(v, PageCount(size)), foreign, a.live, f.arena.live);
    } else if f.arena.live == a.live {
      SameLiveSameCount(a, f.arena);
    }
  }

  /** A case where the round trip fails: an empty region first, then one page, in an idle allocator. */
  lemma EmptyRegionBreaksRoundTrip(a: Arena, pid: nat, start: nat, access: MemoryAccess)
    requires Inv(a) && a.live == map[] && FreeCount(a) > 0 && |a.free| == MAX_ORDER + 1
    ensures var c := Context(pid, map[], [Region(start, start, access)], start);
      var e := AllocateVirtual(a, c, true, PAGE_SIZE, access);
      && AllocateVirtual(a, Context(pid, map[], [], start), true, 0, access).ctx == c
      && ContextOk(a, c, {}) && e.result.Ok? && Inv(e.arena)
      && DeallocateVirtual(e.arena, e.ctx, e.result.value).result.Ok?
      && DeallocateVirtual(e.arena, e.ctx, e.result.value).arena.live != a.live
  {
    assert AllocateVirtual(a, Context(pid, map[], [], start), true, 0, access).ctx.regions
           == [Region(start, start, access)];
    hide Inv, FreeCount, AllocateVirtual, DeallocateVirtual;
    var c := Context(pid, map[], [Region(start, start, access)], start);
    assert FramesAt(c.mappings, c.mappings.Keys) == {};
    assert c.regions[0] in c.regions;
    AllocateVirtualCorrect(a, c, {}, true, PAGE_SIZE, access);
    RoundTripIff(a, c, {}, PAGE_SIZE, access);
  }

  lemma SpanPages(r: Region, size: nat)
    requires r.end == r.start + size
    ensures Pages(r) == PageCount(size)
  {
  }

  lemma SameLiveSameCount(a: Arena, b: Arena)
    requires Inv(a) && Inv(b) && a.base == b.base && a.total == b.total && a.live == b.live
    ensures FreeCount(a) == FreeCount(b)
  {
    PagesConserved(a);
    PagesConserved(b);
  }

  // ------------------------------------------------------------- page faults

  function RegionContaining(rs: seq<Region>, vaddr: nat): (i: nat)
    ensures i <= |rs| && (i < |rs| ==> rs[i].start <= vaddr < rs[i].end)
    ensures forall j | 0 <= j < i :: !(rs[j].start <= vaddr < rs[j].end)
  {
    if rs == [] || rs[0].start <= vaddr < rs[0].end then 0 else 1 + RegionContaining(rs[1..], vaddr)
  }

  function HandlePageFault(a: Arena, c: Context, vaddr: nat, isWrite: bool): Effect<()>
    requires |a.free| == MAX_ORDER + 1
  {
    var i := RegionContaining(c.regions, vaddr);
    if i == |c.regions| then Effect(a, c, {}, Err(Unmapped))
    else if isWrite && !c.regions[i].access.write then Effect(a, c, {}, Err(AccessViolation))
    else
      var key := vaddr - vaddr % PAGE_SIZE;
      var (b, f) := Allocate(a, 0);
      if f.Err? then Effect(b, c, {}, Err(f.error))
      else Effect(b, c.(mappings := c.mappings[key := Mapping(f.value, c.regions[i].access)]),
                  Displaced(c.mappings, key), Ok(()))
  }

  /**
   A fault is served exactly when the first region containing the address permits the access
   and a page is free.  Whatever the faulting page was mapped to is displaced, not freed.
   */
  lemma HandlePageFaultCorrect(a: Arena, c: Context, foreign: set<nat>, vaddr: nat, isWrite: bool)
    requires ContextOk(a, c, foreign) && |a.free| == MAX_ORDER + 1
    ensures var e := HandlePageFault(a, c, vaddr, isWrite);
      var i := RegionContaining(c.regions, vaddr);
      var key := vaddr - vaddr % PAGE_SIZE;
      && ContextOk(e.arena, e.ctx, foreign + e.displaced) && e.arena.base == a.base && e.arena.total == a.total
      && (e.result.Ok? <==>
            i < |c.regions| && (isWrite ==> c.regions[i].access.write) && FreeCount(a) > 0)
      && (e.result.Err? ==>
            && e.arena == a && e.ctx == c && e.displaced == {}
            && e.result.error == if forall r | r in c.regions :: !(r.start <= vaddr < r.end) then Unmapped
                                 else if isWrite && !c.regions[i].access.write then AccessViolation
                                 else OutOfMemory)
      && (e.result.Ok? ==>
            && e.ctx.regions == c.regions && e.ctx.nextAddr == c.nextAddr && e.ctx.pid == c.pid
            && key in e.ctx.mappings && e.ctx.mappings[key].access == c.regions[i].access
            && e.ctx.mappings - {key} == c.mappings - {key}
            && e.displaced == Displaced(c.mappings, key) && FreeCount(e.arena) == FreeCount(a) - 1)
  {
    hide Inv, Allocate, FreeCount, Accounts, Keys, KeysEnd, RegionsOk, Displaced;
    assert foreign + {} == foreign;
    TakePage(a);
    AllocateCorrect(a, 0);
    var e := HandlePageFault(a, c, vaddr, isWrite);
    if e.result.Ok? {
      var key := vaddr - vaddr % PAGE_SIZE;
      var f := Allocate(a, 0).1.value;
      var access := c.regions[RegionContaining(c.regions, vaddr)].access;
      MapKeepsAccounts(a.live, c.mappings, foreign, key, Mapping(f, access));
      KeepRegions(c, e.ctx);
    }
  }

  lemma {:induction false} KeysContain(addr: nat, count: nat, i: nat)
    requires i < count
    ensures addr + i * PAGE_SIZE in Keys(addr, count)
    decreases count
  {
    if i > 0 {
      KeysContain(addr + PAGE_SIZE, count - 1, i - 1);
    }
  }

  /** In a region that starts on a page boundary every page is mapped already: each served fault displaces a frame. */
  lemma AlignedFaultDisplaces(a: Arena, c: Context, foreign: set<nat>, vaddr: nat, isWrite: bool)
    requires ContextOk(a, c, foreign) && |a.free| == MAX_ORDER + 1
    requires HandlePageFault(a, c, vaddr, isWrite).result.Ok?
    requires c.regions[RegionContaining(c.regions, vaddr)].start % PAGE_SIZE == 0
    ensures |HandlePageFault(a, c, vaddr, isWrite).displaced| == 1
  {
    hide Inv, Allocate, Accounts, Keys;
    var r := c.regions[RegionContaining(c.regions, vaddr)];
    var i := (vaddr - r.start) / PAGE_SIZE;
    var key := vaddr - vaddr % PAGE_SIZE;
    assert i < Pages(r) && key == r.start + i * PAGE_SIZE;
    KeysContain(r.start, Pages(r), i);
    assert key in c.mappings;
  }

  // --------------------------------------------- many processes, one allocator

  /** All processes, and the frames that are live although no process maps them any more. */
  datatype System = System(arena: Arena, procs: map<nat, Context>, lost: set<nat>)

  ghost predicate Maps(s: System, pid: nat, key: nat, frame: nat) {
    pid in s.procs && key in s.procs[pid].mappings && s.procs[pid].mappings[key].phys == frame
  }

  /** No frame is mapped twice, anywhere. */
  ghost predicate Isolated(s: System) {
    forall p, k, q, l, x | Maps(s, p, k, x) && Maps(s, q, l, x) :: p == q && k == l
  }

  /** Live frames are the mapped ones and the lost ones, and no frame is both. */
  ghost predicate Accounted(s: System) {
    && (forall p, k, x | Maps(s, p, k, x) :: x in s.arena.live && x !in s.lost)
    && (forall x | x in s.lost :: x in s.arena.live)
    && (forall x | x in s.arena.live && x !in s.lost :: exists p, k :: Maps(s, p, k, x))
  }

  ghost predicate SystemOk(s: System) {
    && Inv(s.arena) && Isolated(s) && Accounted(s)
    && (forall x | x in s.arena.live :: s.arena.live[x] == 0)
    && (forall p | p in s.procs :: RegionsOk(s.procs[p]))
  }

  /** The live frames process `pid` does not map. */
  ghost function Foreign(s: System, pid: nat): set<nat> {
    set x | x in s.arena.live && !(exists k :: Maps(s, pid, k, x))
  }

  lemma ForeignAccounts(s: System, pid: nat)
    requires SystemOk(s) && pid in s.procs
    ensures ContextOk(s.arena, s.procs[pid], Foreign(s, pid))
  {
    hide Inv, RegionsOk;
    var m := s.procs[pid].mappings;
    forall k, l | k in m && l in m && m[k].phys == m[l].phys ensures k == l {
      assert Maps(s, pid, k, m[k].phys) && Maps(s, pid, l, m[k].phys);
    }
    forall k | k in m ensures m[k].phys in s.arena.live && m[k].phys !in Foreign(s, pid) {
      assert Maps(s, pid, k, m[k].phys);
    }
    forall x | x in s.arena.live ensures x in Foreign(s, pid) + FramesAt(m, m.Keys) {
      if k :| Maps(s, pid, k, x) {
        assert k in m && m[k].phys == x;
      }
    }
    assert s.arena.live.Keys == Foreign(s, pid) + FramesAt(m, m.Keys);
  }

  function Install<T>(s: System, pid: nat, e: Effect<T>): System {
    System(e.arena, s.procs[pid := e.ctx], s.lost + e.displaced)
  }

  /** What one process does to its own pages keeps everybody's frames accounted for. */
  lemma InstallKeepsOk<T>(s: System, pid: nat, e: Effect<T>)
    requires SystemOk(s) && pid in s.procs
    requires ContextOk(e.arena, e.ctx, Foreign(s, pid) + e.displaced)
    requires e.displaced <= FramesAt(s.procs[pid].mappings, s.procs[pid].mappings.Keys)
    ensures SystemOk(Install(s, pid, e))
  {
    hide Inv, RegionsOk;
    var t := Install(s, pid, e);
    var n := e.ctx.mappings;
    forall x | x in s.lost ensures x in Foreign(s, pid) {}
    forall x | x in e.displaced ensures exists l :: Maps(s, pid, l, x) {
      var l :| l in s.procs[pid].mappings && s.procs[pid].mappings[l].phys == x;
      assert Maps(s, pid, l, x);
    }
    forall q, k, x | Maps(t, q, k, x)
      ensures x in t.arena.live && x !in t.lost && (q != pid ==> Maps(s, q, k, x) && x in Foreign(s, pid))
    {
      if q == pid {
        assert n[k].phys in FramesAt(n, n.Keys);
      } else {
        assert Maps(s, q, k, x);
      }
    }
    forall x | x in t.arena.live && x !in t.lost ensures exists q, k :: Maps(t, q, k, x) {
      if x in Foreign(s, pid) {
        var q, k :| Maps(s, q, k, x);
        assert Maps(t, q, k, x);
      } else {
        assert x in FramesAt(n, n.Keys);
        var k :| k in n && n[k].phys == x;
        assert Maps(t, pid, k, x);
      }
    }
    forall x | x in t.lost ensures x in t.arena.live {
      if x in s.lost {
        assert x in Foreign(s, pid);
      }
    }
  }

  datatype Call =
    | StartProcess(pid: nat, heapStart: nat)
    | AllocateCall(pid: nat, allowed: bool, size: nat, access: MemoryAccess)
    | DeallocateCall(pid: nat, vaddr: nat)
    | FaultCall(pid: nat, vaddr: nat, isWrite: bool)

  /** Any call by any process; calls without a process, and a second start of one, change nothing. */
  ghost function Perform(s: System, c: Call): System
    requires SystemOk(s)
  {
    if c.StartProcess? then
      if c.pid in s.procs then s
      else s.(procs := s.procs[c.pid := Context(c.pid, map[], [], c.heapStart)])
    else if c.pid !in s.procs then s
    else
      match c
      case AllocateCall(p, allowed, size, access) =>
        Install(s, p, AllocateVirtual(s.arena, s.procs[p], allowed, size, access))
      case DeallocateCall(p, vaddr) => Install(s, p, DeallocateVirtual(s.arena, s.procs[p], vaddr))
      case FaultCall(p, vaddr, isWrite) => Install(s, p, HandlePageFault(s.arena, s.procs[p], vaddr, isWrite))
  }

  lemma StartKeepsOk(s: System, pid: nat, heapStart: nat)
    requires SystemOk(s) && pid !in s.procs
    ensures SystemOk(s.(procs := s.procs[pid := Context(pid, map[], [], heapStart)]))
  {
    hide Inv;
    var t := s.(procs := s.procs[pid := Context(pid, map[], [], heapStart)]);
    forall p, k, x ensures Maps(t, p, k, x) <==> Maps(s, p, k, x) {}
  }

  lemma FramesAtSome(m: map<nat, Mapping>, keys: set<nat>)
    ensures FramesAt(m, keys) <= FramesAt(m, m.Keys)
  {
  }

  lemma PerformKeepsOk(s: System, c: Call)
    requires SystemOk(s)
    ensures SystemOk(Perform(s, c)) && s.lost <= Perform(s, c).lost
    ensures forall p | p in s.procs && p != c.pid :: p in Perform(s, c).procs && Perform(s, c).procs[p] == s.procs[p]
    ensures c.pid in s.procs || c.StartProcess? ==> c.pid in Perform(s, c).procs
  {
    hide Inv, RegionsOk, Accounts, Isolated, Accounted, AllocateVirtual, DeallocateVirtual, HandlePageFault,
      FreeCount, Keys, Pages, PageCount;
    if c.StartProcess? {
      if c.pid !in s.procs {
        StartKeepsOk(s, c.pid, c.heapStart);
      }
    } else if c.pid in s.procs {
      var ctx := s.procs[c.pid];
      ForeignAccounts(s, c.pid);
      ArenaShape(s.arena);
      FramesAtSome(ctx.mappings, {});
      match c
      case AllocateCall(p, allowed, size, access) =>
        AllocateVirtualCorrect(s.arena, ctx, Foreign(s, p), allowed, size, access);
        FramesAtSome(ctx.mappings, Keys(ctx.nextAddr, PageCount(size)));
        InstallKeepsOk(s, p, AllocateVirtual(s.arena, ctx, allowed, size, access));
      case DeallocateCall(p, vaddr) =>
        DeallocateVirtualCorrect(s.arena, ctx, Foreign(s, p), vaddr);
        InstallKeepsOk(s, p, DeallocateVirtual(s.arena, ctx, vaddr));
      case FaultCall(p, vaddr, isWrite) =>
        HandlePageFaultCorrect(s.arena, ctx, Foreign(s, p), vaddr, isWrite);
        InstallKeepsOk(s, p, HandlePageFault(s.arena, ctx, vaddr, isWrite));
    }
  }

  ghost function RunCalls(s: System, calls: seq<Call>): System
    requires SystemOk(s)
    decreases |calls|
  {
    if calls == [] then s
    else
      PerformKeepsOk(s, calls[0]);
      RunCalls(Perform(s, calls[0]), calls[1..])
  }

  lemma {:induction false} RunCallsKeepsOk(s: System, calls: seq<Call>)
    requires SystemOk(s)
    ensures SystemOk(RunCalls(s, calls)) && s.lost <= RunCalls(s, calls).lost
    decreases |calls|
  {
    hide SystemOk, Perform;
    if calls == [] {
    } else {
      PerformKeepsOk(s, calls[0]);
      RunCallsKeepsOk(Perform(s, calls[0]), calls[1..]);
    }
  }

  lemma {:induction false} SinglePages(s: set<Block>)
    requires forall b | b in s :: b.order == 0
    ensures TotalSize(s) == |s|
  {
    if s == {} {
    } else {
      var b :| b in s;
      TotalSizeRemove(s, b);
      SinglePages(s - {b});
    }
  }

  lemma {:induction false} LiveSetSize(base: nat, live: map<nat, nat>)
    requires LiveOk(base, live)
    ensures |LiveSet(base, live)| == |live|
    decreases |live|
  {
    if live == map[] {
      assert LiveSet(base, live) == {};
    } else {
      var x :| x in live;
      LiveRemove(base, live, x);
      LiveSetSize(base, live - {x});
      assert BlockAt(base, live[x], x) in LiveSet(base, live);
      assert |live - {x}| == |live| - 1 by {
        assert (live - {x}).Keys == live.Keys - {x};
      }
    }
  }

  /** Every page of the arena is free, mapped by one process at one key, or lost. */
  lemma FramesConserved(s: System)
    requires SystemOk(s)
    ensures FreeCount(s.arena) + |s.arena.live| == s.arena.total
  {
    var held := LiveSet(s.arena.base, s.arena.live);
    PagesConserved(s.arena);
    forall b | b in held ensures b.order == 0 {}
    SinglePages(held);
    LiveSetSize(s.arena.base, s.arena.live);
  }

  /**
   From an idle allocator and no processes, after any calls of any processes, failing ones
   included: no frame is mapped twice, and every live frame is mapped or was displaced.
   */
  lemma EveryRunIsAccounted(a: Arena, calls: seq<Call>)
    requires Inv(a) && a.live == map[]
    ensures SystemOk(System(a, map[], {}))
    ensures var t := RunCalls(System(a, map[], {}), calls);
      && Isolated(t) && Accounted(t)
      && (forall p | p in t.procs :: RegionsOk(t.procs[p]))
      && FreeCount(t.arena) + |t.arena.live| == t.arena.total
  {
    RunCallsKeepsOk(System(a, map[], {}), calls);
    FramesConserved(RunCalls(System(a, map[], {}), calls));
  }
}
