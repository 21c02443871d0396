/** The client manager's own tables beside the buffer manager's: regions with their segment
    and map count, and the index from start address to region. */
module ManagerState {
  import opened Common
  import opened PagerState
  import opened PagerOps
  import opened PagerRegions
  import opened PagerFree
  import opened PagerRuns

  datatype CmRegion = CmRegion(addr: nat, size: nat, segid: int, mapcount: nat)

  datatype Manager = Manager(pager: Pager, regions: map<Id, CmRegion>, index: map<nat, Id>)

  /** What the kernel answers during one call: addresses for opening a file and for a new
      region, and the segment made for it. */
  datatype Answers = Answers(openAt: Option<nat>, reserved: Option<nat>, segid: Option<int>)

  // ---------- calls ----------

  /** `client_manager::add_region`; without a segment the buffer manager's region is freed. */
  function AddSegment(m: Manager, id: Id, segid: Option<int>): (Manager, Errno)
    requires id in m.pager.regions
  {
    var r := m.pager.regions[id];
    if segid.None? then (m.(pager := Free(m.pager, id)), EXPMEM)
    else (m.(regions := m.regions[id := CmRegion(r.addr, r.size, segid.value, 1)], index := m.index[r.addr := id]), Ok)
  }

  function AllocateRegion(m: Manager, id: Id, size: nat, persistent: bool, a: Answers): (Manager, Errno) {
    if id in m.regions then (m, EEXIST)
    else
      var (p, e) := GetAnchored(m.pager, id, a.openAt);
      if e == Ok then (m.(pager := p), EEXIST)
      else
        var (t, f) := Allocate(p, id, size, persistent, a.reserved);
        if f != Ok then (m.(pager := t), f) else AddSegment(m.(pager := t), id, a.segid)
  }

  function MapRegion(m: Manager, id: Id, a: Answers): (Manager, Errno) {
    if id in m.regions
    then (m.(regions := m.regions[id := m.regions[id].(mapcount := m.regions[id].mapcount + 1)]), Ok)
    else
      var (p, e) := GetAnchored(m.pager, id, a.openAt);
      if e != Ok then (m.(pager := p), e) else AddSegment(m.(pager := p), id, a.segid)
  }

  /** The decrement of an unsigned counter. */
  function Decrement(c: nat): nat {
    if c == 0 then WORD - 1 else c - 1
  }

  /** `unmap`; `removable` says whether the segment can be removed. If it cannot, the region
      stays with a map count of zero. */
  function UnmapRegion(m: Manager, id: Id, removable: bool): (Manager, Errno) {
    if id !in m.regions then (m, ENOENT)
    else
      var r := m.regions[id].(mapcount := Decrement(m.regions[id].mapcount));
      if r.mapcount > 0 then (m.(regions := m.regions[id := r]), Ok)
      else if !removable then (m.(regions := m.regions[id := r]), EXPMEM)
      else (Manager(Free(m.pager, id), m.regions - {id}, m.index - {r.addr}), Ok)
  }

  function AnchorRegion(m: Manager, id: Id): (Manager, Errno) {
    var (p, e) := Anchor(m.pager, id);
    (m.(pager := p), e)
  }

  function UnanchorRegion(m: Manager, id: Id): (Manager, Errno) {
    var (p, e) := Unanchor(m.pager, id);
    if e != Ok || id in m.regions then (m.(pager := p), e) else (m.(pager := Free(p, id)), Ok)
  }

  function RegionSize(m: Manager, id: Id, a: Answers): (Manager, Errno, nat) {
    if id in m.regions then (m, Ok, m.regions[id].size)
    else
      var (p, e) := GetAnchored(m.pager, id, a.openAt);
      (m.(pager := p), e, if e == Ok && id in p.regions then p.regions[id].size else 0)
  }

  // ---------- invariants ----------

  predicate Apart(a: nat, n: nat, b: nat, k: nat) {
    a + n <= b || b + k <= a
  }

  predicate Placed(addr: nat, size: nat) {
    addr > 0 && addr % PAGE_SIZE == 0 && size > 0 && addr + size <= WORD
  }

  /** Live regions occupy disjoint, page-aligned address ranges. */
  ghost predicate Separate(rs: Regions) {
    && (forall i :: i in rs ==> Placed(rs[i].addr, rs[i].size))
    && (forall i, j :: i in rs && j in rs && i != j ==> Apart(rs[i].addr, rs[i].size, rs[j].addr, rs[j].size))
  }

  /** An address range that the kernel may hand out. */
  ghost predicate Unused(rs: Regions, addr: nat, size: nat) {
    Placed(addr, size) && forall i :: i in rs ==> Apart(addr, size, rs[i].addr, rs[i].size)
  }

  /** The client manager knows regions the buffer manager knows, with the same address and
      size, and every region it does not know is anchored (but for those in `but`, which a call
      in progress has just made or is about to free). */
  ghost predicate TablesAgree(rs: Regions, cm: map<Id, CmRegion>, but: set<Id>) {
    && (forall id :: id in cm ==> id in rs && cm[id].addr == rs[id].addr && cm[id].size == rs[id].size)
    && (forall id :: id in rs && id !in cm && id !in but ==> rs[id].anchored)
  }

  /** The address index and the region table are inverse to each other. */
  ghost predicate IndexInverse(cm: map<Id, CmRegion>, index: map<nat, Id>) {
    && (forall id :: id in cm ==> cm[id].addr in index && index[cm[id].addr] == id)
    && (forall a :: a in index ==> index[a] in cm && cm[index[a]].addr == a)
  }

  ghost predicate Tables(rs: Regions, cm: map<Id, CmRegion>, index: map<nat, Id>, but: set<Id>) {
    Separate(rs) && TablesAgree(rs, cm, but) && IndexInverse(cm, index)
  }

  ghost predicate Good(m: Manager) {
    Valid(m.pager) && Tables(m.pager.regions, m.regions, m.index, {})
  }

  /** The kernel's answers to a call on region `id` are addresses not in use. */
  ghost predicate Answered(m: Manager, id: Id, size: nat, a: Answers) {
    && (a.openAt.Some? && id in m.pager.files ==>
          Unused(m.pager.regions, a.openAt.value, |m.pager.files[id]| * PAGE_SIZE))
    && (a.reserved.Some? ==> Unused(m.pager.regions, a.reserved.value, size))
  }

  // ---------- how the pager's calls change its region table ----------

  lemma SeparateAdded(rs: Regions, ns: Regions, id: Id)
    requires Separate(rs) && id !in rs && id in ns && ns == rs[id := ns[id]]
    requires Unused(rs, ns[id].addr, ns[id].size)
    ensures Separate(ns)
  {
  }

  lemma AllocateTable(p: Pager, id: Id, size: nat, persistent: bool, reserved: Option<nat>)
    ensures var (t, e) := Allocate(p, id, size, persistent, reserved);
            if e != Ok then t.regions == p.regions
            else && id !in p.regions && id in t.regions && t.regions == p.regions[id := t.regions[id]]
                 && reserved == Some(t.regions[id].addr) && t.regions[id].size == size && !t.regions[id].anchored
  {
    assert size % PAGE_SIZE == 0 ==> size / PAGE_SIZE * PAGE_SIZE == size;
  }

  lemma OpenTable(p: Pager, id: Id, openAt: Option<nat>)
    ensures var (t, e) := GetAnchored(p, id, openAt);
            if e != Ok || id in p.regions then t == p
            else && id in t.regions && t.regions == p.regions[id := t.regions[id]] && id in p.files
                 && openAt == Some(t.regions[id].addr) && t.regions[id].size == |p.files[id]| * PAGE_SIZE && t.regions[id].anchored
  {
  }

  // ---------- how the two tables stay in step ----------

  lemma SegmentAdded(rs: Regions, cm: map<Id, CmRegion>, index: map<nat, Id>, id: Id, segid: int)
    requires Tables(rs, cm, index, {id}) && id in rs && id !in cm
    ensures Tables(rs, cm[id := CmRegion(rs[id].addr, rs[id].size, segid, 1)], index[rs[id].addr := id], {})
  {
    forall i | i in cm ensures cm[i].addr != rs[id].addr {
      assert Apart(rs[i].addr, rs[i].size, rs[id].addr, rs[id].size);
    }
  }

  lemma RegionGone(rs: Regions, cm: map<Id, CmRegion>, index: map<nat, Id>, id: Id)
    requires Tables(rs, cm, index, {id}) && id !in cm
    ensures Tables(rs - {id}, cm, index, {})
    ensures id in rs && rs[id].anchored ==> Tables(rs, cm, index, {})
  {
  }

  lemma SegmentGone(rs: Regions, cm: map<Id, CmRegion>, index: map<nat, Id>, id: Id)
    requires Tables(rs, cm, index, {}) && id in cm
    ensures Tables(rs, cm - {id}, index - {cm[id].addr}, {id})
  {
  }

  lemma CountChanged(rs: Regions, cm: map<Id, CmRegion>, index: map<nat, Id>, id: Id, n: nat)
    requires Tables(rs, cm, index, {}) && id in cm
    ensures Tables(rs, cm[id := cm[id].(mapcount := n)], index, {})
  {
  }

  lemma FlagChanged(rs: Regions, cm: map<Id, CmRegion>, index: map<nat, Id>, id: Id, anchored: bool)
    requires Tables(rs, cm, index, {}) && id in rs
    ensures var ns := rs[id := rs[id].(anchored := anchored)];
            Tables(ns, cm, index, {id}) && (id in cm || anchored ==> Tables(ns, cm, index, {}))
  {
    var ns := rs[id := rs[id].(anchored := anchored)];
    forall i, j | i in ns && j in ns && i != j ensures Apart(ns[i].addr, ns[i].size, ns[j].addr, ns[j].size) {
      assert Apart(rs[i].addr, rs[i].size, rs[j].addr, rs[j].size);
    }
  }

  lemma RegionAppears(rs: Regions, ns: Regions, cm: map<Id, CmRegion>, index: map<nat, Id>, id: Id)
    requires Tables(rs, cm, index, {}) && id !in rs && id in ns && ns == rs[id := ns[id]]
    requires Unused(rs, ns[id].addr, ns[id].size)
    ensures Tables(ns, cm, index, {id}) && (ns[id].anchored ==> Tables(ns, cm, index, {}))
  {
    SeparateAdded(rs, ns, id);
  }

  // ---------- every call keeps the tables good ----------

  /** Good, but for region `id`, which the client manager does not know (yet or any more). */
  ghost predicate GoodBut(m: Manager, id: Id) {
    Valid(m.pager) && Tables(m.pager.regions, m.regions, m.index, {id})
  }

  lemma FreeGood(m: Manager, id: Id)
    requires GoodBut(m, id) && id !in m.regions
    ensures Good(m.(pager := Free(m.pager, id)))
  {
    FreeKeeps(m.pager, id);
    FreeRegions(m.pager, id);
    RegionGone(m.pager.regions, m.regions, m.index, id);
    if id !in m.pager.regions {
      assert m.pager.regions - {id} == m.pager.regions;
    }
  }

  lemma AddSegmentGood(m: Manager, id: Id, segid: Option<int>)
    requires GoodBut(m, id) && id in m.pager.regions && id !in m.regions
    ensures Good(AddSegment(m, id, segid).0)
  {
    if segid.None? {
      FreeGood(m, id);
    } else {
      SegmentAdded(m.pager.regions, m.regions, m.index, id, segid.value);
    }
  }

  lemma OpenGood(m: Manager, id: Id, size: nat, a: Answers)
    requires Good(m) && Answered(m, id, size, a) && id !in m.regions
    ensures Good(m.(pager := GetAnchored(m.pager, id, a.openAt).0))
  {
    GetAnchoredKeeps(m.pager, id, a.openAt);
    OpenTable(m.pager, id, a.openAt);
    var (t, e) := GetAnchored(m.pager, id, a.openAt);
    if e == Ok && id !in m.pager.regions {
      RegionAppears(m.pager.regions, t.regions, m.regions, m.index, id);
    }
  }

  lemma AllocateGood(m: Manager, id: Id, size: nat, persistent: bool, a: Answers)
    requires Good(m) && Answered(m, id, size, a)
    ensures Good(AllocateRegion(m, id, size, persistent, a).0)
  {
    if id !in m.regions {
      OpenGood(m, id, size, a);
      OpenTable(m.pager, id, a.openAt);
      var (p, e) := GetAnchored(m.pager, id, a.openAt);
      if e != Ok {
        var (t, f) := Allocate(p, id, size, persistent, a.reserved);
        AllocateKeeps(p, id, size, persistent, a.reserved);
        AllocateTable(p, id, size, persistent, a.reserved);
        if f == Ok {
          RegionAppears(p.regions, t.regions, m.regions, m.index, id);
          AddSegmentGood(m.(pager := t), id, a.segid);
        }
      }
    }
  }

  lemma MapGood(m: Manager, id: Id, a: Answers)
    requires Good(m) && Answered(m, id, 0, a.(reserved := None))
    ensures Good(MapRegion(m, id, a).0)
  {
    if id in m.regions {
      CountChanged(m.pager.regions, m.regions, m.index, id, m.regions[id].mapcount + 1);
    } else {
      OpenGood(m, id, 0, a.(reserved := None));
      OpenTable(m.pager, id, a.openAt);
      var (p, e) := GetAnchored(m.pager, id, a.openAt);
      if e == Ok {
        AddSegmentGood(m.(pager := p), id, a.segid);
      }
    }
  }

  lemma UnmapGood(m: Manager, id: Id, removable: bool)
    requires Good(m)
    ensures Good(UnmapRegion(m, id, removable).0)
  {
    if id in m.regions {
      var n := Decrement(m.regions[id].mapcount);
      CountChanged(m.pager.regions, m.regions, m.index, id, n);
      if n == 0 && removable {
        SegmentGone(m.pager.regions, m.regions, m.index, id);
        FreeGood(Manager(m.pager, m.regions - {id}, m.index - {m.regions[id].addr}), id);
      }
    }
  }

  lemma AnchorGood(m: Manager, id: Id)
    requires Good(m)
    ensures Good(AnchorRegion(m, id).0)
  {
    if id in m.pager.regions && m.pager.regions[id].persistent {
      SetAnchoredKeeps(m.pager, id, true);
      FlagChanged(m.pager.regions, m.regions, m.index, id, true);
    }
  }

  lemma UnflaggedGood(m: Manager, id: Id)
    requires Good(m) && id in m.pager.regions
    ensures var n := m.(pager := SetAnchored(m.pager, id, false)); GoodBut(n, id) && (id in m.regions ==> Good(n))
  {
    SetAnchoredKeeps(m.pager, id, false);
    FlagChanged(m.pager.regions, m.regions, m.index, id, false);
  }

  lemma UnanchorGood(m: Manager, id: Id)
    requires Good(m)
    ensures Good(UnanchorRegion(m, id).0)
  {
    if id in m.pager.regions {
      UnflaggedGood(m, id);
      if id !in m.regions {
        FreeGood(m.(pager := SetAnchored(m.pager, id, false)), id);
      }
    }
  }

  lemma SizeGood(m: Manager, id: Id, a: Answers)
    requires Good(m) && Answered(m, id, 0, a.(reserved := None))
    ensures Good(RegionSize(m, id, a).0)
  {
    if id !in m.regions {
      OpenGood(m, id, 0, a.(reserved := None));
    }
  }

  /** Although `get_anchored_region` returns any region it knows, it is asked only for regions
      outside the client manager's table, and of those it returns only anchored ones. */
  lemma OnlyAnchoredExposed(m: Manager, id: Id, a: Answers)
    requires Good(m) && id !in m.regions
    ensures var (p, e) := GetAnchored(m.pager, id, a.openAt);
            e == Ok ==> id in p.regions && p.regions[id].anchored && p.regions[id].persistent
  {
  }
}
