/** The mutable page table and the per-process memory context, proved against ProcessMemory. */
module ProcessContext {
  import opened Results
  import opened BlockTree
  import opened BuddyAllocator
  import opened PhysicalMemory
  import opened Capability
  import Spec = ProcessMemory
  import opened ProcessMemory

  class PageTable {
    var mappings: map<nat, Mapping>

    constructor ()
      ensures mappings == map[]
    {
      mappings := map[];
    }

    method MapPage(vaddr: nat, paddr: nat, access: MemoryAccess)
      modifies this
      ensures mappings == old(mappings)[vaddr := Mapping(paddr, access)]
    {
      mappings := mappings[vaddr := Mapping(paddr, access)];
    }

    method UnmapPage(vaddr: nat) returns (r: Result<nat, MemoryError>)
      modifies this
      ensures vaddr in old(mappings) ==> r == Ok(old(mappings)[vaddr].phys) && mappings == old(mappings) - {vaddr}
      ensures vaddr !in old(mappings) ==> r == Err(Unmapped) && mappings == old(mappings)
    {
      if vaddr !in mappings {
        return Err(Unmapped);
      }
      r := Ok(mappings[vaddr].phys);
      mappings := mappings - {vaddr};
    }

    /** The frame of a mapped page, if the mapping permits every kind of access wanted. */
    method Translate(vaddr: nat, want: MemoryAccess) returns (r: Result<nat, MemoryError>)
      ensures r.Ok? <==>
        vaddr in mappings
        && (want.read ==> mappings[vaddr].access.read)
        && (want.write ==> mappings[vaddr].access.write)
        && (want.execute ==> mappings[vaddr].access.execute)
      ensures r.Ok? ==> r.value == mappings[vaddr].phys
      ensures r.Err? ==> r.error == if vaddr in mappings then AccessViolation else Unmapped
    {
      if vaddr !in mappings {
        return Err(Unmapped);
      }
      var granted := mappings[vaddr].access;
      var ok := (!want.read || granted.read) && (!want.write || granted.write) && (!want.execute || granted.execute);
      return if ok then Ok(mappings[vaddr].phys) else Err(AccessViolation);
    }
  }

  /** The access to the heap that `allocate_virtual` asks the broker for. */
  function HeapAccess(pid: nat, access: MemoryAccess, now: nat): Access {
    Access(pid, Memory, "heap",
           NO_PERMISSIONS.(read := true, write := access.write, execute := access.execute, create := true), now)
  }

  /** It is granted exactly to who holds a live token for the heap to read, to create and to do what else was asked. */
  lemma HeapAccessIff(tokens: map<nat, Token>, pid: nat, access: MemoryAccess, now: nat)
    ensures Decide(tokens, HeapAccess(pid, access, now)) == Allowed <==>
      exists id | id in tokens ::
        && tokens[id].subject == pid && tokens[id].resourceType == Memory
        && PathCovers(tokens[id].resourcePath, "heap")
        && !tokens[id].revoked && now < tokens[id].expiresAt
        && tokens[id].permissions.read && tokens[id].permissions.create
        && (access.write ==> tokens[id].permissions.write) && (access.execute ==> tokens[id].permissions.execute)
  {
    hide Decide, PathCovers;
    var a := HeapAccess(pid, access, now);
    DecideIff(tokens, a);
    forall id | id in tokens
      ensures tokens[id].permissions.Covers(a.needs) <==>
        && tokens[id].permissions.read && tokens[id].permissions.create
        && (access.write ==> tokens[id].permissions.write) && (access.execute ==> tokens[id].permissions.execute) {}
  }

  lemma MapPagesNone(a: Arena, m: map<nat, Mapping>, addr: nat, access: MemoryAccess)
    requires |a.free| == MAX_ORDER + 1
    ensures MapPages(a, m, addr, 0, access) == (a, m, {}, true)
  {
  }

  /** One iteration of the mapping loop. */
  lemma MapPagesStep(a: Arena, m: map<nat, Mapping>, addr: nat, count: nat, access: MemoryAccess)
    requires |a.free| == MAX_ORDER + 1 && count > 0
    ensures var (b, f) := Allocate(a, 0);
      var all := MapPages(a, m, addr, count, access);
      if f.Err? then
        b == a && f.error == OutOfMemory && all == (a, m, {}, false)
      else
        |b.free| == MAX_ORDER + 1 &&
        var rest := MapPages(b, m[addr := Mapping(f.value, access)], addr + PAGE_SIZE, count - 1, access);
        all.0 == rest.0 && all.1 == rest.1 && all.3 == rest.3
  {
  }

  class ProcessMemoryContext {
    const pid: nat
    const pageTable: PageTable
    var regions: seq<Region>
    var nextAddr: nat

    ghost function View(): Context
      reads this, pageTable
    {
      Context(pid, pageTable.mappings, regions, nextAddr)
    }

    constructor (pid: nat, heapStart: nat)
      ensures fresh(pageTable) && View() == Context(pid, map[], [], heapStart)
    {
      this.pid := pid;
      pageTable := new PageTable();
      regions := [];
      nextAddr := heapStart;
    }

    method AllocateVirtual(phys: PhysicalAllocator, caps: CapabilityBroker, size: nat, access: MemoryAccess, now: nat)
      returns (r: Result<nat, MemoryError>)
      requires phys.Valid() && caps.Valid()
      modifies this`regions, this`nextAddr, pageTable, phys`liveBlocks, phys.freeLists, caps`auditLog
      ensures phys.Valid() && caps.Valid()
      ensures |old(phys.View()).free| == MAX_ORDER + 1
      ensures var allowed := old(Decide(caps.tokens, HeapAccess(pid, access, now)) == Allowed);
        var e := Spec.AllocateVirtual(old(phys.View()), old(View()), allowed, size, access);
        phys.View() == e.arena && View() == e.ctx && r == e.result
      ensures r == Err(CapabilityDenied) <==> !exists id | id in caps.tokens ::
        && caps.tokens[id].subject == pid && caps.tokens[id].resourceType == Memory
        && PathCovers(caps.tokens[id].resourcePath, "heap")
        && !caps.tokens[id].revoked && now < caps.tokens[id].expiresAt
        && caps.tokens[id].permissions.read && caps.tokens[id].permissions.create
        && (access.write ==> caps.tokens[id].permissions.write)
        && (access.execute ==> caps.tokens[id].permissions.execute)
      ensures r.Ok? ==>
        && r.value == old(nextAddr) && nextAddr == old(nextAddr) + PageCount(size) * PAGE_SIZE
        && regions == old(regions) + [Region(r.value, r.value + size, access)]
      ensures r.Err? ==> nextAddr == old(nextAddr) && regions == old(regions)
      ensures caps.tokens == old(caps.tokens)
      ensures var asked := HeapAccess(pid, access, now);
        caps.auditLog == old(caps.auditLog) + [AuditEntry(now, pid, Memory, "heap", old(Decide(caps.tokens, asked)))]
    {
      hide Inv, Decide, Allocate, MapPages, PathCovers, PageCount;
      ArenaShape(phys.View());
      HeapAccessIff(caps.tokens, pid, access, now);
      var decision := caps.CheckAccess(HeapAccess(pid, access, now));
      if decision != Allowed {
        return Err(CapabilityDenied);
      }
      ghost var log := caps.auditLog;
      var pageCount := PageCount(size);
      var vaddr := nextAddr;
      ghost var whole := MapPages(phys.View(), pageTable.mappings, vaddr, pageCount, access);
      var i := 0;
      while i < pageCount
        invariant i <= pageCount && phys.Valid() && |phys.View().free| == MAX_ORDER + 1 && caps.Valid()
        invariant regions == old(regions) && nextAddr == vaddr == old(nextAddr)
        invariant caps.tokens == old(caps.tokens) && caps.auditLog == log
        invariant var rest := MapPages(phys.View(), pageTable.mappings, vaddr + i * PAGE_SIZE, pageCount - i, access);
          rest.0 == whole.0 && rest.1 == whole.1 && rest.3 == whole.3
      {
        MapPagesStep(phys.View(), pageTable.mappings, vaddr + i * PAGE_SIZE, pageCount - i, access);
        var paddr := phys.Allocate(0);
        if paddr.Err? {
          return Err(paddr.error);
        }
        ArenaShape(phys.View());
        pageTable.MapPage(vaddr + i * PAGE_SIZE, paddr.value, access);
        i := i + 1;
      }
      MapPagesNone(phys.View(), pageTable.mappings, vaddr + i * PAGE_SIZE, access);
      nextAddr := nextAddr + pageCount * PAGE_SIZE;
      regions := regions + [Region(vaddr, vaddr + size, access)];
      return Ok(vaddr);
    }

    method FindStart(vaddr: nat) returns (i: nat)
      ensures i == RegionAt(regions, vaddr)
    {
      i := 0;
      while i < |regions| && regions[i].start != vaddr
        invariant i <= |regions| && RegionAt(regions, vaddr) == i + RegionAt(regions[i..], vaddr)
      {
        assert regions[i..][1..] == regions[i + 1..];
        i := i + 1;
      }
    }

    method DeallocateVirtual(phys: PhysicalAllocator, vaddr: nat) returns (r: Result<(), MemoryError>)
      requires phys.Valid()
      modifies this`regions, pageTable, phys`liveBlocks, phys.freeLists
      ensures phys.Valid() && old(Inv(phys.View()))
      ensures var e := Spec.DeallocateVirtual(old(phys.View()), old(View()), vaddr);
        phys.View() == e.arena && View() == e.ctx && r == e.result
    {
      hide Inv, Deallocate;
      var idx := FindStart(vaddr);
      if idx == |regions| {
        return Err(RegionNotFound);
      }
      var region := regions[idx];
      regions := regions[..idx] + regions[idx + 1..];
      var size := if region.start <= region.end then region.end - region.start else (region.end - region.start) % U64;
      var pageCount := PageCount(size);
      ghost var whole := UnmapPages(phys.View(), pageTable.mappings, region.start, pageCount);
      var i := 0;
      while i < pageCount
        invariant i <= pageCount && phys.Valid()
        invariant regions == RemoveAt(old(regions), idx)
        invariant UnmapPages(phys.View(), pageTable.mappings, region.start + i * PAGE_SIZE, pageCount - i) == whole
      {
        var pageVaddr := region.start + i * PAGE_SIZE;
        var paddr := pageTable.UnmapPage(pageVaddr);
        if paddr.Err? {
          return Err(paddr.error);
        }
        var freed := phys.Deallocate(paddr.value);
        if freed.Err? {
          return freed;
        }
        i := i + 1;
      }
      return Ok(());
    }

    method FindContaining(vaddr: nat) returns (i: nat)
      ensures i == RegionContaining(regions, vaddr)
    {
      i := 0;
      while i < |regions| && !(regions[i].start <= vaddr < regions[i].end)
        invariant i <= |regions| && RegionContaining(regions, vaddr) == i + RegionContaining(regions[i..], vaddr)
      {
        assert regions[i..][1..] == regions[i + 1..];
        i := i + 1;
      }
    }

    method HandlePageFault(phys: PhysicalAllocator, vaddr: nat, isWrite: bool) returns (r: Result<(), MemoryError>)
      requires phys.Valid()
      modifies pageTable, phys`liveBlocks, phys.freeLists
      ensures phys.Valid() && |old(phys.View()).free| == MAX_ORDER + 1
      ensures var e := Spec.HandlePageFault(old(phys.View()), old(View()), vaddr, isWrite);
        phys.View() == e.arena && View() == e.ctx && r == e.result
    {
      hide Inv;
      ArenaShape(phys.View());
      var idx := FindContaining(vaddr);
      if idx == |regions| {
        return Err(Unmapped);
      }
      var region := regions[idx];
      if isWrite && !region.access.write {
        return Err(AccessViolation);
      }
      var pageVaddr := vaddr - vaddr % PAGE_SIZE;
      var paddr := phys.Allocate(0);
      if paddr.Err? {
        return Err(paddr.error);
      }
      pageTable.MapPage(pageVaddr, paddr.value, region.access);
      return Ok(());
    }
  }
}
