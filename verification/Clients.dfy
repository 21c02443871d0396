/** Client calls and the map counts they keep. */
module Clients {
  import opened Common
  import opened PagerState
  import opened PagerOps
  import opened PagerAccess
  import opened ManagerState
  import opened AddressIndex

  type Pid = nat

  /** A client's mapping table: client address to region. */
  type Mappings = map<nat, Id>

  const NO_MAPPINGS: Mappings := map[]

  datatype System = System(m: Manager, clients: map<Pid, Mappings>)

  // ---------- calls of one client ----------

  function HandleAlloc(c: Mappings, m: Manager, addr: nat, id: Id, size: nat, persistent: bool, a: Answers): (Mappings, Manager, Errno) {
    var (n, e) := AllocateRegion(m, id, size, persistent, a);
    (if e == Ok then c[addr := id] else c, n, e)
  }

  function HandleMap(c: Mappings, m: Manager, addr: nat, id: Id, a: Answers): (Mappings, Manager, Errno) {
    var (n, e) := MapRegion(m, id, a);
    (if e == Ok then c[addr := id] else c, n, e)
  }

  function HandleUnmap(c: Mappings, m: Manager, addr: nat, stuck: set<Id>): (Mappings, Manager, Errno) {
    if addr !in c then (c, m, ENOENT)
    else
      var (n, e) := UnmapRegion(m, c[addr], c[addr] !in stuck);
      (c - {addr}, n, e)
  }

  function PersistRegion(m: Manager, id: Id, off: nat, size: nat): (Manager, Errno)
    requires Valid(m.pager)
  {
    var e := PersistCheck(m, id, off, size);
    (if e == Ok then m.(pager := Persist(m.pager, id, off, size)) else m, e)
  }

  function HandlePersist(c: Mappings, m: Manager, addr: nat, off: nat, size: nat): (Manager, Errno)
    requires Valid(m.pager)
  {
    if addr !in c then (m, ENOENT) else PersistRegion(m, c[addr], off, size)
  }

  /** The first address of a non-empty mapping table, where its iteration begins. */
  predicate IsFirst(c: Mappings, addr: nat) {
    addr in c && forall b :: b in c ==> addr <= b
  }

  lemma {:induction false} FirstExists(c: Mappings)
    requires c != map[]
    ensures exists addr: nat :: IsFirst(c, addr)
    decreases |c|
  {
    var x: nat :| x in c;
    var rest := c - {x};
    assert forall b :: b in c ==> b == x || b in rest;
    if rest == map[] {
      assert IsFirst(c, x);
    } else {
      FirstExists(rest);
      var y: nat :| IsFirst(rest, y);
      assert IsFirst(c, if x <= y then x else y);
    }
  }

  function First(c: Mappings): (addr: nat)
    requires c != map[]
    ensures IsFirst(c, addr)
  {
    FirstExists(c);
    var addr: nat :| IsFirst(c, addr);
    addr
  }

  /** The clean-up when a client goes away: unmap everything, in address order. */
  function DropAll(c: Mappings, m: Manager, stuck: set<Id>): Manager
    decreases |c|
  {
    if c == map[] then m
    else
      var addr := First(c);
      assert |c - {addr}| < |c| by { assert c.Keys == (c - {addr}).Keys + {addr}; }
      DropAll(c - {addr}, UnmapRegion(m, c[addr], c[addr] !in stuck).0, stuck)
  }

  // ---------- who refers to a region ----------

  /** One entry of one client's table. */
  datatype Slot = Slot(pid: Pid, addr: nat)

  function EntryAt(cs: map<Pid, Mappings>, x: Slot): Option<Id> {
    if x.pid in cs && x.addr in cs[x.pid] then Some(cs[x.pid][x.addr]) else None
  }

  ghost predicate AllRefs(cs: map<Pid, Mappings>, id: Id, r: set<Slot>) {
    forall x :: x in r <==> EntryAt(cs, x) == Some(id)
  }

  lemma RefsExist(cs: map<Pid, Mappings>, id: Id)
    ensures exists r :: AllRefs(cs, id, r)
  {
    var r := set p, a | p in cs && a in cs[p] && EntryAt(cs, Slot(p, a)) == Some(id) :: Slot(p, a);
    forall x ensures x in r <==> EntryAt(cs, x) == Some(id) {
      assert x == Slot(x.pid, x.addr);
    }
    assert AllRefs(cs, id, r);
  }

  /** The entries, over all clients, that name region `id`. */
  ghost function Refs(cs: map<Pid, Mappings>, id: Id): (r: set<Slot>)
    ensures forall x :: x in r <==> EntryAt(cs, x) == Some(id)
  {
    RefsExist(cs, id);
    var r :| AllRefs(cs, id, r);
    r
  }

  /** `ns` is `cs` with one entry set or cleared. */
  ghost predicate EntryWritten(cs: map<Pid, Mappings>, ns: map<Pid, Mappings>, slot: Slot, v: Option<Id>) {
    forall x :: EntryAt(ns, x) == if x == slot then v else EntryAt(cs, x)
  }

  function Count(b: bool): nat { if b then 1 else 0 }

  lemma RefsWritten(cs: map<Pid, Mappings>, ns: map<Pid, Mappings>, slot: Slot, v: Option<Id>, id: Id)
    requires EntryWritten(cs, ns, slot, v)
    ensures |Refs(ns, id)| == |Refs(cs, id)| - Count(EntryAt(cs, slot) == Some(id)) + Count(v == Some(id))
  {
    assert Refs(cs, id) - {slot} == Refs(ns, id) - {slot};
    RefsBut(cs, slot, id);
    RefsBut(ns, slot, id);
  }

  lemma RefsBut(cs: map<Pid, Mappings>, slot: Slot, id: Id)
    ensures |Refs(cs, id)| == |Refs(cs, id) - {slot}| + Count(EntryAt(cs, slot) == Some(id))
  {
    var a := Refs(cs, id) - {slot};
    if EntryAt(cs, slot) == Some(id) {
      assert Refs(cs, id) == a + {slot};
    } else {
      assert Refs(cs, id) == a;
    }
  }

  // ---------- the counting invariant ----------

  /** Every entry names a live region, and no region counts fewer maps than it has entries. */
  ghost predicate Counted(cs: map<Pid, Mappings>, cm: map<Id, CmRegion>) {
    && (forall x :: EntryAt(cs, x).Some? ==> EntryAt(cs, x).value in cm)
    && (forall id :: id in cm ==> cm[id].mapcount >= |Refs(cs, id)|)
  }

  /** Maps counted for a region beyond the entries that name it. */
  ghost function Surplus(cs: map<Pid, Mappings>, cm: map<Id, CmRegion>, id: Id): int
    requires id in cm
  {
    cm[id].mapcount - |Refs(cs, id)|
  }

  /** Every map counted is accounted for by an entry. */
  ghost predicate Exact(cs: map<Pid, Mappings>, cm: map<Id, CmRegion>) {
    forall id :: id in cm ==> Surplus(cs, cm, id) == 0
  }

  function Counting(cm: map<Id, CmRegion>, id: Id, n: nat): map<Id, CmRegion>
    requires id in cm
  {
    cm[id := cm[id].(mapcount := n)]
  }

  /** One more map and one more entry for a live region. An entry that was there before loses
      its reference for good: its region keeps a surplus. */
  lemma EntryAdded(cs: map<Pid, Mappings>, ns: map<Pid, Mappings>, cm: map<Id, CmRegion>, slot: Slot, id: Id)
    requires Counted(cs, cm) && id in cm && EntryWritten(cs, ns, slot, Some(id))
    ensures var nm := Counting(cm, id, cm[id].mapcount + 1);
            Counted(ns, nm) && forall x :: x in cm ==> Surplus(ns, nm, x) == Surplus(cs, cm, x) + Count(EntryAt(cs, slot) == Some(x))
  {
    var nm := Counting(cm, id, cm[id].mapcount + 1);
    forall x | x in cm ensures Surplus(ns, nm, x) == Surplus(cs, cm, x) + Count(EntryAt(cs, slot) == Some(x)) {
      RefsWritten(cs, ns, slot, Some(id), x);
    }
    assert forall x :: x in nm ==> nm[x].mapcount >= |Refs(ns, x)| by {
      forall x | x in nm ensures nm[x].mapcount >= |Refs(ns, x)| {
        assert Surplus(ns, nm, x) >= 0;
      }
    }
  }

  /** A new region with one map and one entry. */
  lemma RegionEntered(cs: map<Pid, Mappings>, ns: map<Pid, Mappings>, cm: map<Id, CmRegion>, slot: Slot, id: Id, r: CmRegion)
    requires Counted(cs, cm) && id !in cm && r.mapcount == 1 && EntryWritten(cs, ns, slot, Some(id))
    ensures var nm := cm[id := r];
            && Counted(ns, nm) && Surplus(ns, nm, id) == 0
            && forall x :: x in cm ==> Surplus(ns, nm, x) == Surplus(cs, cm, x) + Count(EntryAt(cs, slot) == Some(x))
  {
    var nm := cm[id := r];
    assert Refs(cs, id) == {};
    forall x | x in nm
      ensures |Refs(ns, x)| == |Refs(cs, x)| - Count(EntryAt(cs, slot) == Some(x)) + Count(x == id)
    {
      RefsWritten(cs, ns, slot, Some(id), x);
    }
  }

  /** One map and one entry fewer. The count does not underflow, and it reaches zero only when
      no entry is left. */
  lemma EntryCleared(cs: map<Pid, Mappings>, ns: map<Pid, Mappings>, cm: map<Id, CmRegion>, slot: Slot, id: Id)
    requires Counted(cs, cm) && EntryAt(cs, slot) == Some(id) && EntryWritten(cs, ns, slot, None)
    ensures id in cm && cm[id].mapcount > 0
    ensures var nm := Counting(cm, id, cm[id].mapcount - 1);
            Counted(ns, nm) && forall x :: x in cm ==> Surplus(ns, nm, x) == Surplus(cs, cm, x)
    ensures cm[id].mapcount == 1 ==> Refs(ns, id) == {} && Counted(ns, cm - {id})
  {
    RefsWritten(cs, ns, slot, None, id);
    assert slot in Refs(cs, id);
    var nm := Counting(cm, id, cm[id].mapcount - 1);
    forall x | x in cm ensures Surplus(ns, nm, x) == Surplus(cs, cm, x) {
      RefsWritten(cs, ns, slot, None, x);
    }
    assert forall x :: x in nm ==> nm[x].mapcount >= |Refs(ns, x)| by {
      forall x | x in nm ensures nm[x].mapcount >= |Refs(ns, x)| {
        assert Surplus(ns, nm, x) >= 0;
      }
    }
  }

  // ---------- all calls ----------

  datatype Call =
    | AllocCall(pid: Pid, addr: nat, id: Id, size: nat, persistent: bool, a: Answers)
    | MapCall(pid: Pid, addr: nat, id: Id, a: Answers)
    | UnmapCall(pid: Pid, addr: nat, stuck: set<Id>)
    | AnchorCall(id: Id)
    | UnanchorCall(id: Id)
    | SizeCall(id: Id, a: Answers)
    | PersistCall(pid: Pid, addr: nat, off: nat, size: nat)
    | Connect(pid: Pid)
    | Disconnect(pid: Pid, stuck: set<Id>)

  /** Calls come from connected clients, in 64-bit words, and the kernel hands out unused ranges. */
  ghost predicate Allowed(s: System, c: Call) {
    match c
    case AllocCall(pid, _, id, size, _, a) => pid in s.clients && Answered(s.m, id, size, a)
    case MapCall(pid, _, id, a) => pid in s.clients && Answered(s.m, id, 0, a.(reserved := None))
    case UnmapCall(pid, _, _) => pid in s.clients
    case SizeCall(id, a) => Answered(s.m, id, 0, a.(reserved := None))
    case PersistCall(pid, _, off, size) => pid in s.clients && off < WORD && size < WORD
    case Connect(pid) => pid !in s.clients
    case Disconnect(pid, _) => pid in s.clients
    case _ => true
  }

  function Do(s: System, c: Call): System
    requires Valid(s.m.pager) && Allowed(s, c)
  {
    match c
    case AllocCall(pid, addr, id, size, persistent, a) =>
      var (t, m, e) := HandleAlloc(s.clients[pid], s.m, addr, id, size, persistent, a);
      System(m, s.clients[pid := t])
    case MapCall(pid, addr, id, a) =>
      var (t, m, e) := HandleMap(s.clients[pid], s.m, addr, id, a);
      System(m, s.clients[pid := t])
    case UnmapCall(pid, addr, stuck) =>
      var (t, m, e) := HandleUnmap(s.clients[pid], s.m, addr, stuck);
      System(m, s.clients[pid := t])
    case AnchorCall(id) => s.(m := AnchorRegion(s.m, id).0)
    case UnanchorCall(id) => s.(m := UnanchorRegion(s.m, id).0)
    case SizeCall(id, a) => s.(m := RegionSize(s.m, id, a).0)
    case PersistCall(pid, addr, off, size) => s.(m := HandlePersist(s.clients[pid], s.m, addr, off, size).0)
    case Connect(pid) => s.(clients := s.clients[pid := NO_MAPPINGS])
    case Disconnect(pid, stuck) => System(DropAll(s.clients[pid], s.m, stuck), s.clients - {pid})
  }

  /** The call succeeds in storing an entry where the client already had one. */
  predicate Overwrites(s: System, c: Call) {
    match c
    case AllocCall(pid, addr, id, size, persistent, a) =>
      AllocateRegion(s.m, id, size, persistent, a).1 == Ok && EntryAt(s.clients, Slot(pid, addr)).Some?
    case MapCall(pid, addr, id, a) =>
      MapRegion(s.m, id, a).1 == Ok && EntryAt(s.clients, Slot(pid, addr)).Some?
    case _ => false
  }

  lemma MappingSet(cs: map<Pid, Mappings>, c: Mappings, pid: Pid, addr: nat, id: Id)
    requires pid in cs && c == cs[pid][addr := id]
    ensures EntryWritten(cs, cs[pid := c], Slot(pid, addr), Some(id))
  {
  }

  lemma MappingCleared(cs: map<Pid, Mappings>, c: Mappings, pid: Pid, addr: nat)
    requires pid in cs && c == cs[pid] - {addr}
    ensures EntryWritten(cs, cs[pid := c], Slot(pid, addr), None)
  {
  }

  lemma SameEntries(cs: map<Pid, Mappings>, ns: map<Pid, Mappings>, cm: map<Id, CmRegion>)
    requires forall x :: EntryAt(ns, x) == EntryAt(cs, x)
    ensures Counted(cs, cm) ==> Counted(ns, cm)
    ensures forall id :: id in cm ==> Surplus(ns, cm, id) == Surplus(cs, cm, id)
  {
    forall id ensures Refs(ns, id) == Refs(cs, id) {
    }
  }

  // ---------- every call keeps the counts ----------

  /** What one call may do to the tables and counts. */
  ghost predicate KeepsCounts(s: System, t: System, slot: Option<Slot>) {
    && Counted(t.clients, t.m.regions)
    && (forall x :: x in t.m.regions && x in s.m.regions ==>
          Surplus(t.clients, t.m.regions, x) == Surplus(s.clients, s.m.regions, x)
            + Count(slot.Some? && EntryAt(s.clients, slot.value) == Some(x)))
    && (forall x :: x in t.m.regions && x !in s.m.regions ==> Surplus(t.clients, t.m.regions, x) == 0)
    && (forall x :: x in s.m.regions && (slot.Some? || Surplus(s.clients, s.m.regions, x) > 0) ==> x in t.m.regions)
  }

  lemma AddedCounts(s: System, n: Manager, c: Mappings, pid: Pid, addr: nat, id: Id)
    requires Counted(s.clients, s.m.regions) && pid in s.clients && c == s.clients[pid][addr := id] && id in n.regions
    requires if id in s.m.regions then n.regions == Counting(s.m.regions, id, s.m.regions[id].mapcount + 1)
             else n.regions == s.m.regions[id := n.regions[id]] && n.regions[id].mapcount == 1
    ensures KeepsCounts(s, System(n, s.clients[pid := c]), Some(Slot(pid, addr)))
  {
    var t := System(n, s.clients[pid := c]);
    MappingSet(s.clients, c, pid, addr, id);
    if id in s.m.regions {
      OnceMoreCounts(s, t, Slot(pid, addr), id);
    } else {
      EnteredCounts(s, t, Slot(pid, addr), id);
    }
  }

  lemma OnceMoreCounts(s: System, t: System, slot: Slot, id: Id)
    requires Counted(s.clients, s.m.regions) && EntryWritten(s.clients, t.clients, slot, Some(id))
    requires id in s.m.regions && t.m.regions == Counting(s.m.regions, id, s.m.regions[id].mapcount + 1)
    ensures KeepsCounts(s, t, Some(slot))
  {
    EntryAdded(s.clients, t.clients, s.m.regions, slot, id);
  }

  lemma EnteredCounts(s: System, t: System, slot: Slot, id: Id)
    requires Counted(s.clients, s.m.regions) && EntryWritten(s.clients, t.clients, slot, Some(id))
    requires id !in s.m.regions && id in t.m.regions && t.m.regions == s.m.regions[id := t.m.regions[id]] && t.m.regions[id].mapcount == 1
    ensures KeepsCounts(s, t, Some(slot))
  {
    RegionEntered(s.clients, t.clients, s.m.regions, slot, id, t.m.regions[id]);
  }

  lemma QuietCounts(s: System, n: Manager, cs: map<Pid, Mappings>)
    requires Counted(s.clients, s.m.regions) && n.regions == s.m.regions
    requires forall x :: EntryAt(cs, x) == EntryAt(s.clients, x)
    ensures KeepsCounts(s, System(n, cs), None)
  {
    SameEntries(s.clients, cs, s.m.regions);
  }

  lemma AllocCounts(s: System, pid: Pid, addr: nat, id: Id, size: nat, persistent: bool, a: Answers)
    requires Counted(s.clients, s.m.regions) && pid in s.clients
    ensures var (c, n, e) := HandleAlloc(s.clients[pid], s.m, addr, id, size, persistent, a);
            KeepsCounts(s, System(n, s.clients[pid := c]), if e == Ok then Some(Slot(pid, addr)) else None)
  {
    var (c, n, e) := HandleAlloc(s.clients[pid], s.m, addr, id, size, persistent, a);
    if e == Ok {
      AddedCounts(s, n, c, pid, addr, id);
    } else {
      QuietCounts(s, n, s.clients[pid := c]);
    }
  }

  lemma MapCounts(s: System, pid: Pid, addr: nat, id: Id, a: Answers)
    requires Counted(s.clients, s.m.regions) && pid in s.clients
    ensures var (c, n, e) := HandleMap(s.clients[pid], s.m, addr, id, a);
            KeepsCounts(s, System(n, s.clients[pid := c]), if e == Ok then Some(Slot(pid, addr)) else None)
  {
    var (c, n, e) := HandleMap(s.clients[pid], s.m, addr, id, a);
    if e == Ok {
      AddedCounts(s, n, c, pid, addr, id);
    } else {
      QuietCounts(s, n, s.clients[pid := c]);
    }
  }

  /** Unmap never underflows the count, and it frees a region only when no client has an entry
      for it. */
  lemma UnmapCounts(s: System, c: Mappings, pid: Pid, addr: nat, removable: bool)
    requires Counted(s.clients, s.m.regions) && pid in s.clients && addr in s.clients[pid] && c == s.clients[pid] - {addr}
    ensures var id := s.clients[pid][addr]; id in s.m.regions && s.m.regions[id].mapcount > 0
    ensures var n := UnmapRegion(s.m, s.clients[pid][addr], removable).0;
            KeepsCounts(s, System(n, s.clients[pid := c]), None)
    ensures var id := s.clients[pid][addr];
            id !in UnmapRegion(s.m, id, removable).0.regions ==> Refs(s.clients[pid := c], id) == {}
  {
    var id := s.clients[pid][addr];
    assert EntryAt(s.clients, Slot(pid, addr)) == Some(id);
    MappingCleared(s.clients, c, pid, addr);
    EntryCleared(s.clients, s.clients[pid := c], s.m.regions, Slot(pid, addr), id);
    var n := UnmapRegion(s.m, id, removable).0;
    if id !in n.regions {
      assert n.regions == s.m.regions - {id};
      forall x | x in n.regions ensures Surplus(s.clients[pid := c], n.regions, x) == Surplus(s.clients, s.m.regions, x) {
        RefsWritten(s.clients, s.clients[pid := c], Slot(pid, addr), None, x);
      }
    }
  }

  /** Counts kept by a call that adds no region. */
  ghost predicate OnlyDrops(s: System, t: System) {
    KeepsCounts(s, t, None) && t.m.regions.Keys <= s.m.regions.Keys
  }

  lemma DropsTwice(s: System, t: System, u: System)
    requires OnlyDrops(s, t) && OnlyDrops(t, u)
    ensures OnlyDrops(s, u)
  {
    forall x | x in u.m.regions && x in s.m.regions
      ensures Surplus(u.clients, u.m.regions, x) == Surplus(s.clients, s.m.regions, x)
    {
      assert x in t.m.regions;
    }
  }

  lemma UnmapDrops(s: System, c: Mappings, pid: Pid, addr: nat, removable: bool)
    requires Counted(s.clients, s.m.regions) && pid in s.clients && addr in s.clients[pid] && c == s.clients[pid] - {addr}
    ensures OnlyDrops(s, System(UnmapRegion(s.m, s.clients[pid][addr], removable).0, s.clients[pid := c]))
  {
    UnmapCounts(s, c, pid, addr, removable);
  }

  /** Draining a client's table on disconnect keeps all counts. */
  lemma {:induction false} DropCounts(s: System, pid: Pid, c: Mappings, stuck: set<Id>)
    requires Counted(s.clients, s.m.regions) && pid in s.clients && c == s.clients[pid]
    ensures OnlyDrops(s, System(DropAll(c, s.m, stuck), s.clients[pid := NO_MAPPINGS]))
    decreases |c|
  {
    if c == map[] {
      QuietCounts(s, s.m, s.clients[pid := NO_MAPPINGS]);
    } else {
      var t := DroppedFirst(s, pid, c, stuck);
      DropFirstCounts(s, pid, c, stuck);
      DropCounts(t, pid, t.clients[pid], stuck);
      DropsTwice(s, t, System(DropAll(c, s.m, stuck), s.clients[pid := NO_MAPPINGS]));
    }
  }

  /** The first entry of client `pid` erased and its region unmapped. */
  function DroppedFirst(s: System, pid: Pid, c: Mappings, stuck: set<Id>): System
    requires c != map[]
  {
    var addr := First(c);
    System(UnmapRegion(s.m, c[addr], c[addr] !in stuck).0, s.clients[pid := c - {addr}])
  }

  lemma DropFirstCounts(s: System, pid: Pid, c: Mappings, stuck: set<Id>)
    requires Counted(s.clients, s.m.regions) && pid in s.clients && c == s.clients[pid] && c != map[]
    ensures var t := DroppedFirst(s, pid, c, stuck);
            && OnlyDrops(s, t) && pid in t.clients && |t.clients[pid]| < |c|
            && System(DropAll(t.clients[pid], t.m, stuck), t.clients[pid := NO_MAPPINGS])
               == System(DropAll(c, s.m, stuck), s.clients[pid := NO_MAPPINGS])
  {
    var addr := First(c);
    var rest := c - {addr};
    assert c.Keys == rest.Keys + {addr};
    UnmapDrops(s, rest, pid, addr, c[addr] !in stuck);
    assert s.clients[pid := rest][pid := NO_MAPPINGS] == s.clients[pid := NO_MAPPINGS];
  }

  lemma {:induction false} DropGood(c: Mappings, m: Manager, stuck: set<Id>)
    requires Good(m)
    ensures Good(DropAll(c, m, stuck))
    decreases |c|
  {
    if c != map[] {
      var addr := First(c);
      assert c.Keys == (c - {addr}).Keys + {addr};
      UnmapGood(m, c[addr], c[addr] !in stuck);
      DropGood(c - {addr}, UnmapRegion(m, c[addr], c[addr] !in stuck).0, stuck);
    }
  }

  lemma PersistGood(m: Manager, id: Id, off: nat, size: nat)
    requires Good(m)
    ensures Good(PersistRegion(m, id, off, size).0) && PersistRegion(m, id, off, size).0.regions == m.regions
  {
    if PersistCheck(m, id, off, size) == Ok {
      CanPersistPages(m.pager, id, off, size);
      PersistRangeKeeps(m.pager, id, off / PAGE_SIZE, size / PAGE_SIZE);
    }
  }

  /** Every call, of any client, keeps both managers' tables good. */
  lemma DoGood(s: System, c: Call)
    requires Good(s.m) && Allowed(s, c)
    ensures Good(Do(s, c).m)
  {
    match c
    case AllocCall(pid, addr, id, size, persistent, a) => AllocateGood(s.m, id, size, persistent, a);
    case MapCall(pid, addr, id, a) => MapGood(s.m, id, a);
    case UnmapCall(pid, addr, stuck) =>
      if addr in s.clients[pid] {
        UnmapGood(s.m, s.clients[pid][addr], s.clients[pid][addr] !in stuck);
      }
    case AnchorCall(id) => AnchorGood(s.m, id);
    case UnanchorCall(id) => UnanchorGood(s.m, id);
    case SizeCall(id, a) => SizeGood(s.m, id, a);
    case PersistCall(pid, addr, off, size) =>
      if addr in s.clients[pid] {
        PersistGood(s.m, s.clients[pid][addr], off, size);
      }
    case Connect(pid) =>
    case Disconnect(pid, stuck) => DropGood(s.clients[pid], s.m, stuck);
  }

  /** The entry a call stores, if it stores one. */
  function Stored(s: System, c: Call): Option<Slot> {
    match c
    case AllocCall(pid, addr, id, size, persistent, a) =>
      if AllocateRegion(s.m, id, size, persistent, a).1 == Ok then Some(Slot(pid, addr)) else None
    case MapCall(pid, addr, id, a) => if MapRegion(s.m, id, a).1 == Ok then Some(Slot(pid, addr)) else None
    case _ => None
  }

  /** Every call keeps each count at least at the number of entries; a region's surplus grows
      exactly when one of its entries is overwritten. */
  lemma DoCounts(s: System, c: Call)
    requires Valid(s.m.pager) && Allowed(s, c) && Counted(s.clients, s.m.regions)
    ensures KeepsCounts(s, Do(s, c), Stored(s, c))
  {
    match c
    case AllocCall(pid, addr, id, size, persistent, a) => AllocCounts(s, pid, addr, id, size, persistent, a);
    case MapCall(pid, addr, id, a) => MapCounts(s, pid, addr, id, a);
    case UnmapCall(pid, addr, stuck) => UnmapCallCounts(s, pid, addr, stuck);
    case Disconnect(pid, stuck) => DisconnectCounts(s, pid, stuck);
    case _ => QuietCounts(s, Do(s, c).m, Do(s, c).clients);
  }

  lemma UnmapCallCounts(s: System, pid: Pid, addr: nat, stuck: set<Id>)
    requires Valid(s.m.pager) && pid in s.clients && Counted(s.clients, s.m.regions)
    ensures KeepsCounts(s, Do(s, UnmapCall(pid, addr, stuck)), None)
  {
    if addr in s.clients[pid] {
      UnmapCounts(s, s.clients[pid] - {addr}, pid, addr, s.clients[pid][addr] !in stuck);
    } else {
      var t := Do(s, UnmapCall(pid, addr, stuck));
      QuietCounts(s, t.m, t.clients);
    }
  }

  lemma DisconnectCounts(s: System, pid: Pid, stuck: set<Id>)
    requires Valid(s.m.pager) && pid in s.clients && Counted(s.clients, s.m.regions)
    ensures KeepsCounts(s, Do(s, Disconnect(pid, stuck)), None)
  {
    DropCounts(s, pid, s.clients[pid], stuck);
    SameEntries(s.clients[pid := NO_MAPPINGS], s.clients - {pid}, DropAll(s.clients[pid], s.m, stuck).regions);
  }

  /** All counts exact before: exact after, if and only if the call overwrites no entry. */
  lemma ExactIff(s: System, c: Call)
    requires Valid(s.m.pager) && Allowed(s, c) && Counted(s.clients, s.m.regions) && Exact(s.clients, s.m.regions)
    ensures Exact(Do(s, c).clients, Do(s, c).m.regions) <==> !Overwrites(s, c)
  {
    DoCounts(s, c);
    var t := Do(s, c);
    if Overwrites(s, c) {
      var x := EntryAt(s.clients, Stored(s, c).value).value;
      assert x in s.m.regions && x in t.m.regions;
      assert Surplus(t.clients, t.m.regions, x) == 1;
    }
  }

  // ---------- runs of calls ----------

  ghost predicate CallsAllowed(s: System, calls: seq<Call>)
    requires Good(s.m)
    decreases |calls|
  {
    calls == [] || (Allowed(s, calls[0]) && (DoGood(s, calls[0]); CallsAllowed(Do(s, calls[0]), calls[1..])))
  }

  function DoAll(s: System, calls: seq<Call>): System
    requires Good(s.m) && CallsAllowed(s, calls)
    decreases |calls|
  {
    if calls == [] then s else DoGood(s, calls[0]); DoAll(Do(s, calls[0]), calls[1..])
  }

  ghost predicate NoneOverwrites(s: System, calls: seq<Call>)
    requires Good(s.m) && CallsAllowed(s, calls)
    decreases |calls|
  {
    calls == [] || (!Overwrites(s, calls[0]) && (DoGood(s, calls[0]); NoneOverwrites(Do(s, calls[0]), calls[1..])))
  }

  /** A region with a surplus is never freed again, whatever calls follow. */
  lemma {:induction false} SurplusStays(s: System, calls: seq<Call>, id: Id)
    requires Good(s.m) && Counted(s.clients, s.m.regions) && CallsAllowed(s, calls)
    requires id in s.m.regions && Surplus(s.clients, s.m.regions, id) > 0
    ensures var t := DoAll(s, calls); id in t.m.regions && Surplus(t.clients, t.m.regions, id) > 0
    decreases |calls|
  {
    if calls != [] {
      DoGood(s, calls[0]);
      DoCounts(s, calls[0]);
      SurplusStays(Do(s, calls[0]), calls[1..], id);
    }
  }

  /** Over every run of calls of any number of clients, counts stay at or above the number of
      entries; and from exact counts they end exact if and only if no call ever overwrote an
      entry. */
  lemma {:induction false} RunExactIff(s: System, calls: seq<Call>)
    requires Good(s.m) && Counted(s.clients, s.m.regions) && CallsAllowed(s, calls)
    ensures Good(DoAll(s, calls).m) && Counted(DoAll(s, calls).clients, DoAll(s, calls).m.regions)
    ensures Exact(s.clients, s.m.regions) ==>
              (Exact(DoAll(s, calls).clients, DoAll(s, calls).m.regions) <==> NoneOverwrites(s, calls))
    decreases |calls|
  {
    if calls != [] {
      var t := Do(s, calls[0]);
      DoGood(s, calls[0]);
      DoCounts(s, calls[0]);
      RunExactIff(t, calls[1..]);
      if Exact(s.clients, s.m.regions) {
        ExactIff(s, calls[0]);
        if Overwrites(s, calls[0]) {
          var id := OverwrittenLeaks(s, calls[0]);
          SurplusStays(t, calls[1..], id);
        }
      }
    }
  }

  lemma OverwrittenLeaks(s: System, c: Call) returns (id: Id)
    requires Good(s.m) && Allowed(s, c) && Counted(s.clients, s.m.regions) && Overwrites(s, c)
    ensures id in Do(s, c).m.regions && Surplus(Do(s, c).clients, Do(s, c).m.regions, id) > 0
  {
    DoCounts(s, c);
    id := EntryAt(s.clients, Stored(s, c).value).value;
    assert id in s.m.regions && Surplus(s.clients, s.m.regions, id) >= 0;
  }

  /** A region some client has mapped is known to both managers. */
  lemma MappedStaysLive(s: System, pid: Pid, addr: nat)
    requires Good(s.m) && Counted(s.clients, s.m.regions) && pid in s.clients && addr in s.clients[pid]
    ensures var id := s.clients[pid][addr];
            id in s.m.regions && id in s.m.pager.regions && s.m.regions[id].mapcount > 0
  {
    var id := s.clients[pid][addr];
    assert EntryAt(s.clients, Slot(pid, addr)) == Some(id);
    assert Slot(pid, addr) in Refs(s.clients, id);
  }
}
