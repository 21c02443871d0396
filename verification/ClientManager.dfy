/** The client manager and its clients as the program runs them, under the manager's lock. */
module ClientManager {
  import opened Common
  import opened PagerState
  import opened PagerOps
  import opened PagerFaults
  import opened PagerAccess
  import opened PagerRegions
  import opened PagerFree
  import opened PagerRuns
  import opened BufferManager
  import opened ManagerState
  import opened AddressIndex
  import opened Clients
  import opened FaultProtocol
  import opened ProtocolSafety
  import opened ProtocolSteps

  class RegionManager {
    const buffers: DemoBufferManager
    var regions: map<Id, CmRegion>
    var regionMap: map<nat, Id>
    ghost var kernel: Kernel  // what the kernel calls so far amount to, munmap and segment removal included

    ghost function Abs(): Manager
      reads this, buffers, buffers.pageInfos, buffers.shm
    {
      Manager(buffers.Abs(), regions, regionMap)
    }

    ghost function Snapshot(): World
      reads this, buffers, buffers.pageInfos, buffers.shm
    {
      World(System(Abs(), map[]), kernel, Idle)
    }

    /** Only pages of live regions are mapped, and clients hold entries only through a segment. */
    ghost predicate Fits()
      reads this, buffers
    {
      FitsTables(kernel, buffers.regions, regions)
    }

    constructor (b: DemoBufferManager)
      ensures Fits() && buffers == b && Abs() == Manager(b.Abs(), map[], map[]) && kernel == Kernel(map[], {}, {})
    {
      buffers, regions, regionMap, kernel := b, map[], map[], Kernel(map[], {}, {});
    }

    /** The buffer manager frees the region, and its mapping and segment go with it. */
    method FreeRegion(id: Id)
      requires Valid(buffers.Abs())
      modifies this`kernel, buffers
      ensures Abs() == old(Abs()).(pager := Free(old(buffers.Abs()), id))
      ensures kernel == Forget(old(kernel), Abs()) && Fits()
    {
      buffers.Free(id);
      kernel := Forget(kernel, Abs());
    }

    // ---------- calls ----------

    method AddRegion(id: Id, addr: nat, size: nat, segid: Option<int>) returns (e: Errno)
      requires Valid(buffers.Abs()) && id in buffers.regions
      requires addr == buffers.regions[id].addr && size == buffers.regions[id].size && Fits()
      modifies this`regions, this`regionMap, this`kernel, buffers
      ensures (Abs(), e) == AddSegment(old(Abs()), id, segid)
      ensures kernel == Forget(old(kernel), Abs()) && Fits()
    {
      if segid.None? {
        FreeRegion(id);
        return EXPMEM;
      }
      regions := regions[id := CmRegion(addr, size, segid.value, 1)];
      regionMap := regionMap[addr := id];
      ForgetNothing(kernel, Abs());
      e := Ok;
    }

    method Allocate(id: Id, size: nat, persistent: bool, a: Answers) returns (e: Errno)
      requires Good(Abs()) && Answered(Abs(), id, size, a) && Fits()
      modifies this`regions, this`regionMap, this`kernel, buffers
      ensures (Abs(), e) == AllocateRegion(old(Abs()), id, size, persistent, a)
      ensures kernel == Forget(old(kernel), Abs()) && Fits()
    {
      if id in regions {
        ForgetNothing(kernel, Abs());
        return EEXIST;
      }
      e := AllocateUnknown(id, size, persistent, a);
    }

    /** Allocate a region the client manager does not know, unless it is an anchored one. */
    method AllocateUnknown(id: Id, size: nat, persistent: bool, a: Answers) returns (e: Errno)
      requires Valid(buffers.Abs()) && id !in regions && Fits()
      requires a.openAt.Some? && id in buffers.persFiles ==> |buffers.persFiles[id]| > 0
      modifies this`regions, this`regionMap, this`kernel, buffers
      ensures (Abs(), e) == AllocateRegion(old(Abs()), id, size, persistent, a)
      ensures kernel == Forget(old(kernel), Abs()) && Fits()
    {
      var addr, n;
      e, addr, n := OpenAnchored(id, a.openAt);
      if e == Ok {
        return EEXIST;
      }
      e := AllocateFresh(id, size, persistent, a);
    }

    /** Allocate a region that neither manager knows. */
    method AllocateFresh(id: Id, size: nat, persistent: bool, a: Answers) returns (e: Errno)
      requires Valid(buffers.Abs()) && Fits()
      modifies this`regions, this`regionMap, this`kernel, buffers
      ensures var (p, f) := PagerRegions.Allocate(old(buffers.Abs()), id, size, persistent, a.reserved);
              var m := old(Abs()).(pager := p);
              (Abs(), e) == if f != Ok then (m, f) else AddSegment(m, id, a.segid)
      ensures kernel == Forget(old(kernel), Abs()) && Fits()
    {
      AllocateKeeps(buffers.Abs(), id, size, persistent, a.reserved);
      e := buffers.Allocate(id, size, persistent, a.reserved);
      ForgetNothing(kernel, Abs());
      if e == Ok {
        e := AddRegion(id, a.reserved.value, size, a.segid);
      }
    }

    method Map(id: Id, a: Answers) returns (e: Errno)
      requires Good(Abs()) && Answered(Abs(), id, 0, a.(reserved := None)) && Fits()
      modifies this`regions, this`regionMap, this`kernel, buffers
      ensures (Abs(), e) == MapRegion(old(Abs()), id, a)
      ensures kernel == Forget(old(kernel), Abs()) && Fits()
    {
      if id in regions {
        regions := regions[id := regions[id].(mapcount := regions[id].mapcount + 1)];
        ForgetNothing(kernel, Abs());
        return Ok;
      }
      e := MapAnchored(id, a);
    }

    /** Map a region that only the buffer manager knows, or only its directory. */
    method MapAnchored(id: Id, a: Answers) returns (e: Errno)
      requires Valid(buffers.Abs()) && id !in regions && Fits()
      requires a.openAt.Some? && id in buffers.persFiles ==> |buffers.persFiles[id]| > 0
      modifies this`regions, this`regionMap, this`kernel, buffers
      ensures (Abs(), e) == MapRegion(old(Abs()), id, a)
      ensures kernel == Forget(old(kernel), Abs()) && Fits()
    {
      var addr, n;
      e, addr, n := OpenAnchored(id, a.openAt);
      if e == Ok {
        e := AddRegion(id, addr, n, a.segid);
      }
    }

    /** Ask the buffer manager for a region it knows or finds on file. */
    method OpenAnchored(id: Id, openAt: Option<nat>) returns (e: Errno, addr: nat, size: nat)
      requires Valid(buffers.Abs()) && Fits()
      requires openAt.Some? && id in buffers.persFiles ==> |buffers.persFiles[id]| > 0
      modifies buffers
      ensures (buffers.Abs(), e) == GetAnchored(old(buffers.Abs()), id, openAt) && Valid(buffers.Abs())
      ensures e == Ok ==> id in buffers.regions && addr == buffers.regions[id].addr && size == buffers.regions[id].size
      ensures kernel == Forget(kernel, Abs()) && Fits()
    {
      OpenValid(buffers.Abs(), id, openAt);
      OpenForgets(kernel, Abs(), GetAnchored(buffers.Abs(), id, openAt).0);
      e, addr, size := buffers.GetAnchoredRegion(id, openAt);
    }

    method Unmap(id: Id, removable: bool) returns (e: Errno)
      requires Valid(buffers.Abs()) && Fits()
      modifies this`regions, this`regionMap, this`kernel, buffers
      ensures (Abs(), e) == UnmapRegion(old(Abs()), id, removable)
      ensures kernel == Forget(old(kernel), Abs()) && Fits()
    {
      ForgetNothing(kernel, Abs());
      if id !in regions {
        return ENOENT;
      }
      var region := regions[id].(mapcount := Decrement(regions[id].mapcount));
      regions := regions[id := region];
      ForgetNothing(kernel, Abs());
      if region.mapcount > 0 {
        return Ok;
      }
      if !removable {
        return EXPMEM;
      }
      regionMap := regionMap - {region.addr};
      regions := regions - {id};
      assert regions == old(regions) - {id};
      FreeRegion(id);
      e := Ok;
    }

    method Anchor(id: Id) returns (e: Errno)
      requires Fits()
      modifies buffers
      ensures (Abs(), e) == AnchorRegion(old(Abs()), id)
      ensures kernel == Forget(old(kernel), Abs()) && Fits()
    {
      e := buffers.Anchor(id);
      ForgetNothing(kernel, Abs());
    }

    method Unanchor(id: Id) returns (e: Errno)
      requires Valid(buffers.Abs()) && Fits()
      modifies this`kernel, buffers
      ensures (Abs(), e) == UnanchorRegion(old(Abs()), id)
      ensures kernel == Forget(old(kernel), Abs()) && Fits()
    {
      UnanchorValid(buffers.Abs(), id);
      e := buffers.Unanchor(id);
      assert Fits();
      if e == Ok && id !in regions {
        FreeRegion(id);
      } else {
        ForgetNothing(kernel, Abs());
      }
    }

    method GetSize(id: Id, a: Answers) returns (e: Errno, size: nat)
      requires Fits()
      modifies buffers
      ensures var r := RegionSize(old(Abs()), id, a); Abs() == r.0 && e == r.1 && (e == Ok ==> size == r.2)
      ensures kernel == Forget(old(kernel), Abs()) && Fits()
    {
      ForgetNothing(kernel, Abs());
      if id in regions {
        return Ok, regions[id].size;
      }
      var addr;
      e, addr, size := buffers.GetAnchoredRegion(id, a.openAt);
      ForgetNothing(kernel, Abs());
    }

    // ---------- persist ----------

    method CanPersistRange(id: Id, off: nat, size: nat) returns (e: Errno)
      ensures e == PersistCheck(Abs(), id, off, size)
    {
      if id !in regions {
        return ENOENT;
      }
      if off > regions[id].size || (off + size) % WORD > regions[id].size {
        return EINVAL;
      }
      e := buffers.CanPersistRange(id, off, size);
    }

    /** Write-protect page by page, then let the buffer manager copy. */
    method Persist(id: Id, off: nat, size: nat) returns (e: Errno)
      requires Good(Abs()) && off < WORD && size < WORD
      modifies this`kernel, buffers, buffers.pageInfos
      ensures (Abs(), e) == PersistRegion(old(Abs()), id, off, size)
      ensures e != Ok ==> kernel == old(kernel)
      ensures e == Ok ==> Snapshot() == PersistHandled(old(Snapshot()), id, off, size)
      ensures old(Fits()) ==> Fits()
    {
      e := CanPersistRange(id, off, size);
      if e != Ok {
        return;
      }
      ProtectBlocked(id, off, size);
      PersistSameRegions(buffers.Abs(), id, off, size);
      buffers.Persist(id, off, size);
      kernel := kernel.(blocked := kernel.blocked - {id});
    }

    /** Block faults, on the id, and protect the range. */
    method ProtectBlocked(id: Id, off: nat, size: nat)
      requires off % PAGE_SIZE == 0 && size % PAGE_SIZE == 0
      modifies this`kernel
      ensures kernel.(blocked := kernel.blocked - {id}) == RangeDone(old(kernel), id, off / PAGE_SIZE, (off + size) / PAGE_SIZE)
      ensures kernel.prot.Keys == old(kernel).prot.Keys && kernel.held == old(kernel).held
    {
      kernel := kernel.(blocked := kernel.blocked + {id});
      ProtectRange(id, off, size);
      BlockedOnce(old(kernel), old(kernel).(blocked := old(kernel).blocked + {id}), id, off / PAGE_SIZE, (off + size) / PAGE_SIZE);
    }

    /** The loop over the pages of the range. */
    method ProtectRange(id: Id, off: nat, size: nat)
      requires off % PAGE_SIZE == 0 && size % PAGE_SIZE == 0
      modifies this`kernel
      ensures kernel == ProtectedRange(old(kernel), id, off / PAGE_SIZE, (off + size) / PAGE_SIZE)
    {
      var i := 0;
      ProtectedNone(kernel, id, off / PAGE_SIZE);
      while i < size
        invariant 0 <= i <= size && i % PAGE_SIZE == 0
        invariant kernel == ProtectedRange(old(kernel), id, off / PAGE_SIZE, (off + i) / PAGE_SIZE)
      {
        StepOfPage(off, size, i);
        ProtectedNext(old(kernel), id, off / PAGE_SIZE, (off + i) / PAGE_SIZE);
        kernel := Protect(kernel, PageAt(id, off + i), ReadOnly);
        i := i + PAGE_SIZE;
      }
    }

    // ---------- faults ----------

    /** Handle one fault read from the kernel. An address below every region is only woken. The
        handler works out the region without looking at its size. If the offset it goes on with
        is not one of that region, the program reads beyond the region's page table; the model
        stops and reports that what follows is not `defined`. */
    method HandleUserfault(addr: nat, kind: Kind, write: bool) returns (defined: bool)
      requires Good(Abs()) && (kind.WriteProtect? ==> write)
      modifies this`kernel, buffers, buffers.pageInfos, buffers.shm
      ensures defined <==> (exists id :: Inside(old(Abs()), id, addr)) || forall id :: id in old(regions) ==> addr < old(regions)[id].addr
      ensures !defined || Lookup(old(Abs()), addr).None? ==> Snapshot() == old(Snapshot())
      ensures defined && Lookup(old(Abs()), addr).Some? ==>
                var (id, off) := Lookup(old(Abs()), addr).value;
                && id in old(regions) && HasPage(old(buffers.regions), PageAt(id, off))
                && Snapshot() == Handled(old(Snapshot()), PageAt(id, off), kind, write)
      ensures old(Fits()) ==> Fits()
    {
      LookupPastEnd(Abs(), addr);
      var at := StepBack(regionMap, addr);
      if at.None? {
        return true;
      }
      var id := regionMap[at.value];
      var off := addr - regions[id].addr;
      defined := off < regions[id].size;
      if defined {
        ServeFault(id, off, kind, write);
      }
    }

    /** The handler from blocking the segment's faults to waking the clients. */
    method ServeFault(id: Id, off: nat, kind: Kind, write: bool)
      requires Good(Abs()) && id in regions && off < regions[id].size
      modifies this`kernel, buffers, buffers.pageInfos, buffers.shm
      ensures HasPage(old(buffers.regions), PageAt(id, off))
      ensures Snapshot() == Handled(old(Snapshot()), PageAt(id, off), kind, write)
      ensures old(Fits()) ==> Fits()
    {
      ghost var w, q := Snapshot(), PageAt(id, off);
      ReplyCovers(buffers.Abs(), id, off, write);
      HandledParts(w, q, kind, write);
      HandledKernel(w, q, kind, write);
      if Fits() {
        HandledFits(w, q, kind, write);
      }
      ServeBlocked(id, off, kind, write);
    }

    /** The segment's faults are blocked while the buffer manager works. */
    method ServeBlocked(id: Id, off: nat, kind: Kind, write: bool)
      requires Valid(buffers.Abs()) && id in regions && id in buffers.regions
      requires off < buffers.regions[id].size && HasPage(buffers.regions, PageAt(id, off))
      modifies this`kernel, buffers, buffers.pageInfos, buffers.shm
      ensures var p, q, segid := old(buffers.Abs()), PageAt(id, off), regions[id].segid;
              var b := old(kernel).(blocked := old(kernel).blocked + {segid});
              var t := if kind.WriteProtect? then ProtectedServed(p, b, q) else MissingServed(p, b, q, write);
              buffers.Abs() == Worked(p, q, kind, write) && kernel == t.(blocked := t.blocked - {segid})
    {
      ghost var segid := regions[id].segid;
      kernel := kernel.(blocked := kernel.blocked + {segid});
      if !kind.WriteProtect? {
        ServeMissing(id, off, write);
      } else {
        ServeProtected(id, off);
      }
      kernel := kernel.(blocked := kernel.blocked - {segid});
    }

    /** Unfix the page, and write-protect it if the buffer manager asks for that. */
    method ServeMissing(id: Id, off: nat, write: bool)
      requires Valid(buffers.Abs()) && id in buffers.regions && off < buffers.regions[id].size && HasPage(buffers.regions, PageAt(id, off))
      modifies this`kernel, buffers, buffers.pageInfos, buffers.shm
      ensures var p, q := old(buffers.Abs()), PageAt(id, off);
              && buffers.Abs() == PagerAccess.Unfix(p, q, write)
              && kernel == MissingServed(p, old(kernel), q, write)
    {
      ghost var p, q := buffers.Abs(), PageAt(id, off);
      var r := buffers.Unfix(id, off, write);
      if r.mappingChanged {
        kernel := MapFresh(kernel, q, Evicted(p, q));
      }
      if r.writeprotect {
        kernel := Protect(kernel, q, ReadOnly);
      }
    }

    /** Mark the page dirty, and let clients write it if it is still resident. */
    method ServeProtected(id: Id, off: nat)
      requires Valid(buffers.Abs()) && id in buffers.regions && off < buffers.regions[id].size && HasPage(buffers.regions, PageAt(id, off))
      modifies this`kernel, buffers.pageInfos
      ensures var p, q := old(buffers.Abs()), PageAt(id, off);
              && buffers.Abs() == PagerAccess.MarkDirty(p, q)
              && kernel == ProtectedServed(p, old(kernel), q)
    {
      var r := buffers.MarkDirty(id, off);
      if r.writeunprotect {
        kernel := Protect(kernel, PageAt(id, off), Writable);
      }
    }
  }

  lemma HandledFits(w: World, q: PageRef, kind: Kind, write: bool)
    requires Good(w.sys.m) && HasPage(w.sys.m.pager.regions, q) && q.id in w.sys.m.regions
    requires FitsTables(w.k, w.sys.m.pager.regions, w.sys.m.regions)
    ensures var h := Handled(w, q, kind, write); FitsTables(h.k, h.sys.m.pager.regions, h.sys.m.regions)
  {
    HandledRegions(w, q, kind, write);
    HandledPages(w, q, kind, write);
  }

  lemma HandledRegions(w: World, q: PageRef, kind: Kind, write: bool)
    requires Good(w.sys.m) && HasPage(w.sys.m.pager.regions, q) && q.id in w.sys.m.regions
    ensures var h := Handled(w, q, kind, write);
            h.sys.m.pager.regions.Keys == w.sys.m.pager.regions.Keys && h.sys.m.regions == w.sys.m.regions
  {
    HandledParts(w, q, kind, write);
    WorkedRegions(w.sys.m.pager, q, kind, write);
  }

  lemma WorkedRegions(p: Pager, q: PageRef, kind: Kind, write: bool)
    requires Valid(p) && HasPage(p.regions, q)
    ensures Worked(p, q, kind, write).regions.Keys == p.regions.Keys
  {
    UnfixShape(p, q, write);
  }

  lemma HandledPages(w: World, q: PageRef, kind: Kind, write: bool)
    requires Good(w.sys.m) && HasPage(w.sys.m.pager.regions, q) && q.id in w.sys.m.regions
    ensures var k := Handled(w, q, kind, write).k; k.held <= w.k.held && forall x :: x in k.prot ==> x == q || x in w.k.prot
  {
    WorkedPages(Begun(w, q, kind, write));
  }

  lemma WorkedPages(b: World)
    requires Good(b.sys.m) && b.phase.Blocked? && HasPage(b.sys.m.pager.regions, b.phase.q)
    ensures var t := Work(b);
            && (t.phase.Unfixed? || t.phase.Marked?) && t.phase.q == b.phase.q
            && t.k.held <= b.k.held && forall x :: x in t.k.prot ==> x == b.phase.q || x in b.k.prot
  {
  }

  ghost predicate FitsTables(k: Kernel, rs: Regions, cm: map<Id, CmRegion>) {
    && (forall q :: q in k.prot ==> q.id in rs)
    && (forall q :: q in k.held ==> q.id in rs && q.id in cm)
  }

  /** Where no region goes, the kernel has nothing to forget. */
  lemma ForgetNothing(k: Kernel, m: Manager)
    ensures FitsTables(k, m.pager.regions, m.regions) ==> Forget(k, m) == k
  {
    if FitsTables(k, m.pager.regions, m.regions) {
      assert Forget(k, m).prot == k.prot && Forget(k, m).held == k.held;
    }
  }

  lemma ForgetTwice(k: Kernel, m: Manager, n: Manager)
    requires n.regions.Keys <= m.regions.Keys && n.pager.regions.Keys <= m.pager.regions.Keys
    ensures Forget(Forget(k, m), n) == Forget(k, n)
  {
    assert Forget(Forget(k, m), n).prot == Forget(k, n).prot;
    assert Forget(Forget(k, m), n).held == Forget(k, n).held;
  }

  /** All clients' tables, one of them being `c`. */
  function TablesWith(others: map<Pid, Mappings>, pid: Pid, c: Mappings): map<Pid, Mappings> {
    others[pid := c]
  }

  lemma SetTwice(pid: Pid, c: Mappings, d: Mappings)
    ensures forall others :: TablesWith(others, pid, c)[pid := d] == TablesWith(others, pid, d)
  {
  }

  /** One client's connection: its mapping table, served under the manager's lock. */
  class Client {
    const manager: RegionManager
    const pid: Pid
    var mappings: Mappings

    /** The protocol's world, given the mapping tables of the other clients. */
    ghost function View(others: map<Pid, Mappings>): World
      reads this, manager, manager.buffers, manager.buffers.pageInfos, manager.buffers.shm
    {
      World(System(manager.Abs(), TablesWith(others, pid, mappings)), manager.kernel, Idle)
    }

    constructor (m: RegionManager, p: Pid)
      ensures manager == m && pid == p && mappings == map[]
    {
      manager, pid, mappings := m, p, map[];
    }

    method CallAlloc(addr: nat, id: Id, size: nat, persistent: bool, a: Answers) returns (e: Errno)
      requires Good(manager.Abs()) && Answered(manager.Abs(), id, size, a) && manager.Fits()
      modifies this, manager`regions, manager`regionMap, manager`kernel, manager.buffers
      ensures (mappings, manager.Abs(), e) ==
              HandleAlloc(old(mappings), old(manager.Abs()), addr, id, size, persistent, a)
      ensures forall others :: View(others) == MakeCall(old(View(others)), AllocCall(pid, addr, id, size, persistent, a))
      ensures manager.Fits()
    {
      e := manager.Allocate(id, size, persistent, a);
      if e == Ok {
        mappings := mappings[addr := id];
      }
      SetTwice(pid, old(mappings), mappings);
    }

    method CallMap(addr: nat, id: Id, a: Answers) returns (e: Errno)
      requires Good(manager.Abs()) && Answered(manager.Abs(), id, 0, a.(reserved := None)) && manager.Fits()
      modifies this, manager`regions, manager`regionMap, manager`kernel, manager.buffers
      ensures (mappings, manager.Abs(), e) == HandleMap(old(mappings), old(manager.Abs()), addr, id, a)
      ensures forall others :: View(others) == MakeCall(old(View(others)), MapCall(pid, addr, id, a))
      ensures manager.Fits()
    {
      e := manager.Map(id, a);
      if e == Ok {
        mappings := mappings[addr := id];
      }
      SetTwice(pid, old(mappings), mappings);
    }

    method CallUnmap(addr: nat, stuck: set<Id>) returns (e: Errno)
      requires Good(manager.Abs()) && manager.Fits()
      modifies this, manager`regions, manager`regionMap, manager`kernel, manager.buffers
      ensures (mappings, manager.Abs(), e) == HandleUnmap(old(mappings), old(manager.Abs()), addr, stuck)
      ensures forall others :: View(others) == MakeCall(old(View(others)), UnmapCall(pid, addr, stuck))
      ensures manager.Fits()
    {
      ForgetNothing(manager.kernel, manager.Abs());
      SetTwice(pid, mappings, if addr in mappings then mappings - {addr} else mappings);
      if addr !in mappings {
        return ENOENT;
      }
      var id := mappings[addr];
      mappings := mappings - {addr};
      e := manager.Unmap(id, id !in stuck);
    }

    method CallAnchor(id: Id) returns (e: Errno)
      requires Good(manager.Abs()) && manager.Fits()
      modifies manager.buffers
      ensures forall others :: View(others) == MakeCall(old(View(others)), AnchorCall(id))
      ensures e == AnchorRegion(old(manager.Abs()), id).1 && manager.Fits()
    {
      e := manager.Anchor(id);
    }

    method CallUnanchor(id: Id) returns (e: Errno)
      requires Good(manager.Abs()) && manager.Fits()
      modifies manager`kernel, manager.buffers
      ensures forall others :: View(others) == MakeCall(old(View(others)), UnanchorCall(id))
      ensures e == UnanchorRegion(old(manager.Abs()), id).1 && manager.Fits()
    {
      e := manager.Unanchor(id);
    }

    method CallGetSize(id: Id, a: Answers) returns (e: Errno, size: nat)
      requires Good(manager.Abs()) && Answered(manager.Abs(), id, 0, a.(reserved := None)) && manager.Fits()
      modifies manager.buffers
      ensures forall others :: View(others) == MakeCall(old(View(others)), SizeCall(id, a))
      ensures var r := RegionSize(old(manager.Abs()), id, a); e == r.1 && (e == Ok ==> size == r.2)
      ensures manager.Fits()
    {
      e, size := manager.GetSize(id, a);
    }

    method CallPersist(addr: nat, off: nat, size: nat) returns (e: Errno)
      requires Good(manager.Abs()) && off < WORD && size < WORD
      modifies manager`kernel, manager.buffers, manager.buffers.pageInfos
      ensures (manager.Abs(), e) == HandlePersist(mappings, old(manager.Abs()), addr, off, size)
      ensures forall others :: View(others) ==
                if e == Ok then PersistHandled(old(View(others)), mappings[addr], off, size) else old(View(others))
      ensures old(manager.Fits()) ==> manager.Fits()
    {
      if addr !in mappings {
        return ENOENT;
      }
      e := manager.Persist(mappings[addr], off, size);
    }

    /** The clean-up after the last call. */
    method Disconnect(stuck: set<Id>)
      requires Good(manager.Abs()) && manager.Fits()
      modifies this, manager`regions, manager`regionMap, manager`kernel, manager.buffers
      ensures mappings == map[] && Good(manager.Abs()) && manager.Fits()
      ensures manager.Abs() == DropAll(old(mappings), old(manager.Abs()), stuck)
      ensures forall others :: pid !in others ==>
                MakeCall(old(View(others)), Call.Disconnect(pid, stuck)) == World(System(manager.Abs(), others), manager.kernel, Idle)
    {
      ghost var c, m, k := mappings, manager.Abs(), manager.kernel;
      Drain(stuck);
      DisconnectViews(pid, c, m, k, stuck);
    }

    /** Drain the table from its first address on. */
    method Drain(stuck: set<Id>)
      requires Good(manager.Abs()) && manager.Fits()
      modifies this, manager`regions, manager`regionMap, manager`kernel, manager.buffers
      ensures mappings == map[] && Good(manager.Abs()) && manager.Fits()
      ensures manager.Abs() == DropAll(old(mappings), old(manager.Abs()), stuck)
      ensures manager.kernel == Forget(old(manager.kernel), manager.Abs())
    {
      ForgetNothing(manager.kernel, manager.Abs());
      while mappings != map[]
        invariant Good(manager.Abs()) && manager.Fits()
        invariant DropAll(mappings, manager.Abs(), stuck) == DropAll(old(mappings), old(manager.Abs()), stuck)
        invariant manager.kernel == Forget(old(manager.kernel), manager.Abs())
        decreases |mappings|
      {
        DropFirst(stuck, old(manager.kernel));
      }
    }

    /** Erase the first entry and unmap its region. */
    method DropFirst(stuck: set<Id>, ghost k: Kernel)
      requires Good(manager.Abs()) && mappings != map[] && manager.Fits() && manager.kernel == Forget(k, manager.Abs())
      modifies this, manager`regions, manager`regionMap, manager`kernel, manager.buffers
      ensures |mappings| < |old(mappings)| && Good(manager.Abs())
      ensures DropAll(mappings, manager.Abs(), stuck) == DropAll(old(mappings), old(manager.Abs()), stuck)
      ensures manager.kernel == Forget(k, manager.Abs()) && manager.Fits()
    {
      var addr := First(mappings);
      var id := mappings[addr];
      UnmapGood(manager.Abs(), id, id !in stuck);
      UnmapShrinks(manager.Abs(), id, id !in stuck);
      DropsFirst(mappings, manager.Abs(), stuck);
      ForgetTwice(k, manager.Abs(), UnmapRegion(manager.Abs(), id, id !in stuck).0);
      mappings := mappings - {addr};
      var e := manager.Unmap(id, id !in stuck);
    }
  }

  lemma DisconnectViews(pid: Pid, c: Mappings, m: Manager, k: Kernel, stuck: set<Id>)
    requires Good(m)
    ensures var n := DropAll(c, m, stuck);
            forall others :: pid !in others ==>
              MakeCall(World(System(m, TablesWith(others, pid, c)), k, Idle), Call.Disconnect(pid, stuck))
              == World(System(n, others), Forget(k, n), Idle)
  {
    var n := DropAll(c, m, stuck);
    forall others | pid !in others
      ensures MakeCall(World(System(m, TablesWith(others, pid, c)), k, Idle), Call.Disconnect(pid, stuck))
              == World(System(n, others), Forget(k, n), Idle)
    {
      DisconnectView(others, pid, c, m, k, stuck);
    }
  }

  lemma DisconnectView(others: map<Pid, Mappings>, pid: Pid, c: Mappings, m: Manager, k: Kernel, stuck: set<Id>)
    requires Good(m) && pid !in others
    ensures var n := DropAll(c, m, stuck);
            MakeCall(World(System(m, TablesWith(others, pid, c)), k, Idle), Call.Disconnect(pid, stuck))
            == World(System(n, others), Forget(k, n), Idle)
  {
    assert TablesWith(others, pid, c) - {pid} == others;
  }

  lemma PersistSameRegions(p: Pager, id: Id, off: nat, size: nat)
    requires Valid(p) && CanPersist(p, id, off, size) == Ok
    ensures PagerAccess.Persist(p, id, off, size).regions == p.regions
  {
    CanPersistPages(p, id, off, size);
    PersistRangeKeeps(p, id, off / PAGE_SIZE, size / PAGE_SIZE);
  }

  lemma OpenForgets(k: Kernel, m: Manager, p: Pager)
    requires FitsTables(k, m.pager.regions, m.regions) && m.pager.regions.Keys <= p.regions.Keys
    ensures FitsTables(k, p.regions, m.regions) && Forget(k, m.(pager := p)) == k
  {
    ForgetNothing(k, m.(pager := p));
  }

  lemma OpenValid(p: Pager, id: Id, openAt: Option<nat>)
    requires Valid(p) && (openAt.Some? && id in p.files ==> |p.files[id]| > 0)
    ensures var (t, e) := GetAnchored(p, id, openAt); Valid(t) && p.regions.Keys <= t.regions.Keys && (e == Ok ==> id in t.regions)
  {
    GetAnchoredKeeps(p, id, openAt);
  }

  lemma UnanchorValid(p: Pager, id: Id)
    requires Valid(p)
    ensures Valid(PagerRuns.Unanchor(p, id).0) && PagerRuns.Unanchor(p, id).0.regions.Keys == p.regions.Keys
  {
    if id in p.regions {
      SetAnchoredKeeps(p, id, false);
    }
  }

  lemma UnmapShrinks(m: Manager, id: Id, removable: bool)
    requires Valid(m.pager)
    ensures var n := UnmapRegion(m, id, removable).0;
            n.regions.Keys <= m.regions.Keys && n.pager.regions.Keys <= m.pager.regions.Keys
  {
    if id in m.pager.regions && !m.pager.regions[id].anchored {
      FreeRegions(m.pager, id);
    }
  }

  lemma {:induction false} DropsFirst(c: Mappings, m: Manager, stuck: set<Id>)
    requires c != map[]
    ensures var addr := First(c);
            |c - {addr}| < |c| && DropAll(c, m, stuck) == DropAll(c - {addr}, UnmapRegion(m, c[addr], c[addr] !in stuck).0, stuck)
  {
    assert c.Keys == (c - {First(c)}).Keys + {First(c)};
  }
}
