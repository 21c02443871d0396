/** Whole runs of the buffer manager against a memory in which every region is a flat array. */
module PagerRuns {
  import opened Common
  import opened PagerState
  import opened PagerOps
  import opened PagerFaults
  import opened PagerAccess
  import opened PagerRegions
  import opened PagerFree

  // ---------- runs ----------

  datatype Op =
    | AllocateOp(id: Id, size: nat, persistent: bool, reserved: Option<nat>)
    | OpenOp(id: Id, reserved: Option<nat>)
    | FreeOp(id: Id)
    | FaultOp(q: PageRef, write: bool)
    | MarkDirtyOp(q: PageRef)
    | PersistOp(id: Id, off: nat, size: nat)
    | AnchorOp(id: Id)
    | UnanchorOp(id: Id)
    | StoreOp(q: PageRef, v: Page)

  function Anchor(s: Pager, id: Id): (Pager, Errno) {
    if id !in s.regions then (s, ENOENT)
    else if !s.regions[id].persistent then (s, EINVAL)
    else (SetAnchored(s, id, true), Ok)
  }

  function Unanchor(s: Pager, id: Id): (Pager, Errno) {
    if id !in s.regions then (s, ENOENT)
    else (SetAnchored(s, id, false), Ok)
  }

  /** What callers and the kernel guarantee: faults name pages of live regions, only resident
      pages take stores, and an empty file is never mapped. */
  predicate Enabled(s: Pager, op: Op) {
    match op
    case OpenOp(id, reserved) => id in s.files && reserved.Some? ==> |s.files[id]| > 0
    case FaultOp(q, _) => HasPage(s.regions, q)
    case MarkDirtyOp(q) => HasPage(s.regions, q)
    case StoreOp(q, _) => PteAt(s.regions, q).Present?
    case _ => true
  }

  function Step(s: Pager, op: Op): Pager
    requires Valid(s) && Enabled(s, op)
  {
    match op
    case AllocateOp(id, size, persistent, reserved) => Allocate(s, id, size, persistent, reserved).0
    case OpenOp(id, reserved) => GetAnchored(s, id, reserved).0
    case FreeOp(id) => Free(s, id)
    case FaultOp(q, write) => Unfix(s, q, write)
    case MarkDirtyOp(q) => MarkDirty(s, q)
    case PersistOp(id, off, size) => if CanPersist(s, id, off, size) == Ok then Persist(s, id, off, size) else s
    case AnchorOp(id) => Anchor(s, id).0
    case UnanchorOp(id) => Unanchor(s, id).0
    case StoreOp(q, v) => Store(s, q, v)
  }

  /** The error the operation reports, where it reports one. */
  function Outcome(s: Pager, op: Op): Errno {
    match op
    case AllocateOp(id, size, persistent, reserved) => Allocate(s, id, size, persistent, reserved).1
    case OpenOp(id, reserved) => GetAnchored(s, id, reserved).1
    case _ => Ok
  }

  // ---------- the flat memory ----------

  datatype FlatRegion = FlatRegion(pages: seq<Page>, persistent: bool, anchored: bool)

  /** Live regions as arrays of pages, and the files of regions that are not open. */
  datatype Flat = Flat(mem: map<Id, FlatRegion>, disk: Files)

  function FlatStep(m: Flat, op: Op, e: Errno): Flat {
    match op
    case AllocateOp(id, size, persistent, _) =>
      var fill := if persistent then FileFill else Fresh;
      if e == Ok then m.(mem := m.mem[id := FlatRegion(seq(size / PAGE_SIZE, _ => fill), persistent, false)])
      else if e == ENOMEM && persistent then m.(disk := m.disk[id := seq(size / PAGE_SIZE, _ => Hole)])
      else m
    case OpenOp(id, _) =>
      if e == Ok && id !in m.mem && id in m.disk
      then Flat(m.mem[id := FlatRegion(m.disk[id], true, true)], m.disk - {id}) else m
    case FreeOp(id) => if id in m.mem && !m.mem[id].anchored then m.(mem := m.mem - {id}) else m
    case AnchorOp(id) =>
      if id in m.mem && m.mem[id].persistent then m.(mem := m.mem[id := m.mem[id].(anchored := true)]) else m
    case UnanchorOp(id) => if id in m.mem then m.(mem := m.mem[id := m.mem[id].(anchored := false)]) else m
    case StoreOp(q, v) =>
      if q.id in m.mem && q.off < |m.mem[q.id].pages|
      then m.(mem := m.mem[q.id := m.mem[q.id].(pages := m.mem[q.id].pages[q.off := v])]) else m
    case _ => m
  }

  predicate OpenFile(s: Pager, id: Id) {
    id in s.regions && s.regions[id].persistent
  }

  ghost predicate ShowsRegion(s: Pager, id: Id, r: FlatRegion) {
    && id in s.regions && |r.pages| == |s.regions[id].ptes|
    && r.persistent == s.regions[id].persistent && r.anchored == s.regions[id].anchored
    && forall i :: 0 <= i < |r.pages| ==> r.pages[i] == Visible(s, PageRef(id, i))
  }

  ghost predicate ShowsMem(s: Pager, mem: map<Id, FlatRegion>) {
    mem.Keys == s.regions.Keys && forall id :: id in mem ==> ShowsRegion(s, id, mem[id])
  }

  ghost predicate ShowsDisk(s: Pager, disk: Files) {
    && (forall id :: id in disk <==> id in s.files && !OpenFile(s, id))
    && (forall id :: id in disk ==> disk[id] == s.files[id])
  }

  /** The state shows the flat memory `m`: same regions with the same contents page for page,
      and the same closed files. */
  ghost predicate Shows(s: Pager, m: Flat) {
    ShowsMem(s, m.mem) && ShowsDisk(s, m.disk)
  }

  // ---------- one step simulates one flat step ----------

  /** Same regions of the same sizes and kinds, and the same closed files. */
  ghost predicate SameShape(s: Pager, t: Pager) {
    && s.regions.Keys == t.regions.Keys
    && (forall id :: id in s.regions ==> t.regions[id] == s.regions[id].(ptes := t.regions[id].ptes)
                                         && |t.regions[id].ptes| == |s.regions[id].ptes|)
    && (forall id :: id in t.files <==> id in s.files)
    && (forall id :: id in s.files && !OpenFile(s, id) ==> t.files[id] == s.files[id])
  }

  lemma ShapeChain(s: Pager, t: Pager, u: Pager)
    requires SameShape(s, t) && SameShape(t, u)
    ensures SameShape(s, u)
  {
  }

  lemma ShowsSame(s: Pager, t: Pager, m: Flat)
    requires Shows(s, m) && SameShape(s, t)
    requires forall x :: HasPage(s.regions, x) ==> Visible(t, x) == Visible(s, x)
    ensures Shows(t, m)
  {
    forall id | id in m.mem ensures ShowsRegion(t, id, m.mem[id]) {
      assert ShowsRegion(s, id, m.mem[id]);
      assert forall i :: 0 <= i < |s.regions[id].ptes| ==> HasPage(s.regions, PageRef(id, i));
    }
  }

  lemma SwapOutShape(s: Pager)
    requires EvictReady(s)
    ensures SameShape(s, SwapOut(s))
  {
  }

  lemma InstallShape(s: Pager, q: PageRef, f: nat, c: Page, dirty: bool)
    requires HasPage(s.regions, q) && f < |s.infos| && f < |s.ram|
    ensures SameShape(s, Install(s, q, f, c, dirty))
  {
  }

  lemma TakeFrameShape(s: Pager)
    requires s.free == [] ==> EvictReady(s)
    ensures SameShape(s, TakeFrame(s).0)
  {
    if s.free == [] {
      SwapOutShape(s);
    }
  }

  lemma StagesShape(s: Pager, q: PageRef, c: Page, dirty: bool)
    requires var r := ReleaseSlot(s, q); r.free == [] ==> EvictReady(r)
    requires var t := TakeFrame(ReleaseSlot(s, q)); HasPage(t.0.regions, q) && t.1 < |t.0.infos| && t.1 < |t.0.ram|
    ensures var t := TakeFrame(ReleaseSlot(s, q)); SameShape(s, Install(t.0, q, t.1, c, dirty))
  {
    var r := ReleaseSlot(s, q);
    var t := TakeFrame(r);
    TakeFrameShape(r);
    InstallShape(t.0, q, t.1, c, dirty);
    ShapeChain(r, t.0, Install(t.0, q, t.1, c, dirty));
  }

  lemma FaultInShape(s: Pager, q: PageRef, write: bool)
    requires Valid(s) && HasPage(s.regions, q) && !PteAt(s.regions, q).Present?
    ensures SameShape(s, FaultIn(s, q, write))
  {
    FaultInReady(s, q);
    StagesShape(s, q, Visible(s, q), write || PteAt(s.regions, q).Untouched?);
  }

  lemma UnfixShape(s: Pager, q: PageRef, write: bool)
    requires Valid(s) && HasPage(s.regions, q)
    ensures SameShape(s, Unfix(s, q, write))
  {
    if !PteAt(s.regions, q).Present? {
      FaultInShape(s, q, write);
    }
  }

  lemma {:induction false} PersistRangeShape(s: Pager, id: Id, i: nat, n: nat)
    requires Valid(s) && id in s.regions && s.regions[id].persistent && n <= |s.regions[id].ptes|
    ensures SameShape(s, PersistRange(s, id, i, n))
    decreases n - i
  {
    if i < n {
      PersistPageFrame(s, PageRef(id, i));
      PersistRangeShape(PersistPage(s, PageRef(id, i)), id, i + 1, n);
      PersistRangeBack(s, id, i, n);
    }
  }

  lemma PersistPageFrame(s: Pager, q: PageRef)
    requires Valid(s) && Pers(s.regions, q)
    ensures Valid(PersistPage(s, q)) && PersistPage(s, q).regions == s.regions
  {
    PersistPageKeeps(s, q);
  }

  lemma PersistRangeBack(s: Pager, id: Id, i: nat, n: nat)
    requires Valid(s) && id in s.regions && s.regions[id].persistent && i < n <= |s.regions[id].ptes|
    requires var t := PersistPage(s, PageRef(id, i));
             Valid(t) && t.regions == s.regions && SameShape(t, PersistRange(t, id, i + 1, n))
    ensures SameShape(s, PersistRange(s, id, i, n))
  {
    PersistRangeRest(s, id, i, n);
    ShapeChain(s, PersistPage(s, PageRef(id, i)), PersistRange(s, id, i, n));
  }

  lemma PersistRangeRest(s: Pager, id: Id, i: nat, n: nat)
    requires Valid(s) && id in s.regions && s.regions[id].persistent && i < n <= |s.regions[id].ptes|
    ensures var t := PersistPage(s, PageRef(id, i));
            && Valid(t) && t.regions == s.regions && SameShape(s, t)
            && PersistRange(s, id, i, n) == PersistRange(t, id, i + 1, n)
  {
    PersistPageShape(s, PageRef(id, i));
  }

  lemma PersistPageShape(s: Pager, q: PageRef)
    requires Valid(s) && Pers(s.regions, q)
    ensures var t := PersistPage(s, q); Valid(t) && t.regions == s.regions && SameShape(s, t)
  {
    PersistPageKeeps(s, q);
  }

  /** Exactly when a fault shows what was shown before: not when it evicts a page that is marked
      clean and differs from its file. */
  lemma FaultShowsIff(s: Pager, m: Flat, q: PageRef, write: bool)
    requires Valid(s) && Shows(s, m) && HasPage(s.regions, q)
    ensures Shows(Unfix(s, q, write), m) <==> !EvictsStale(s, q)
  {
    var t := Unfix(s, q, write);
    UnfixShape(s, q, write);
    if PteAt(s.regions, q).Present? {
      SetDirtyKeeps(s, q, write);
      ShowsSame(s, t, m);
    } else {
      FaultInContents(s, q, write);
      VictimHasPage(s, q);
      if EvictsStale(s, q) {
        ShowsPage(s, m, Evicted(s, q).value);
        if Shows(t, m) {
          ShowsPage(t, m, Evicted(s, q).value);
        }
      } else {
        ShowsSame(s, t, m);
      }
    }
  }

  /** The guard of the branch that skips the write-back, with something to write. */
  ghost predicate EvictsStale(s: Pager, q: PageRef)
    requires Valid(s) && HasPage(s.regions, q)
  {
    !PteAt(s.regions, q).Present? && Evicted(s, q).Some? && DropsPage(s, q, Evicted(s, q).value)
  }

  /** A fault on `q` evicts page `x`, which is marked clean and differs from its file. */
  ghost predicate DropsPage(s: Pager, q: PageRef, x: PageRef)
    requires Valid(s) && HasPage(s.regions, q)
  {
    !PteAt(s.regions, q).Present? && Evicted(s, q) == Some(x) && !CleanMatchesFile(s, x)
  }

  lemma VictimHasPage(s: Pager, q: PageRef)
    requires Valid(s) && HasPage(s.regions, q) && !PteAt(s.regions, q).Present?
    ensures Evicted(s, q).Some? ==> HasPage(s.regions, Evicted(s, q).value)
  {
    FaultInReady(s, q);
  }

  lemma ShowsPage(s: Pager, m: Flat, x: PageRef)
    requires Shows(s, m) && HasPage(s.regions, x)
    ensures x.id in m.mem && x.off < |m.mem[x.id].pages| && m.mem[x.id].pages[x.off] == Visible(s, x)
  {
    assert ShowsRegion(s, x.id, m.mem[x.id]);
    assert x == PageRef(x.id, x.off);
  }

  lemma MarkDirtySimulates(s: Pager, m: Flat, q: PageRef)
    requires Valid(s) && Shows(s, m) && HasPage(s.regions, q)
    ensures Shows(MarkDirty(s, q), m)
  {
    MarkDirtyTransparent(s, q);
    ShowsSame(s, MarkDirty(s, q), m);
  }

  lemma PersistSimulates(s: Pager, m: Flat, id: Id, off: nat, size: nat)
    requires Valid(s) && Shows(s, m) && CanPersist(s, id, off, size) == Ok
    ensures Shows(Persist(s, id, off, size), m)
  {
    CanPersistPages(s, id, off, size);
    PersistRangeKeeps(s, id, off / PAGE_SIZE, size / PAGE_SIZE);
    PersistRangeShape(s, id, off / PAGE_SIZE, size / PAGE_SIZE);
    ShowsSame(s, Persist(s, id, off, size), m);
  }

  /** Regions other than `id` are the same in both states, and show the same. */
  ghost predicate OthersSame(s: Pager, t: Pager, id: Id) {
    && (forall i :: i in s.regions && i != id ==> i in t.regions && t.regions[i] == s.regions[i])
    && (forall x: PageRef :: x.id != id ==> Visible(t, x) == Visible(s, x))
  }

  lemma ShowsUpdated(s: Pager, t: Pager, mem: map<Id, FlatRegion>, id: Id, r: FlatRegion)
    requires ShowsMem(s, mem) && OthersSame(s, t, id)
    requires t.regions.Keys == s.regions.Keys + {id} && ShowsRegion(t, id, r)
    ensures ShowsMem(t, mem[id := r])
  {
    forall i | i in mem && i != id ensures ShowsRegion(t, i, mem[i]) {
      assert ShowsRegion(s, i, mem[i]);
    }
  }

  lemma ShowsRemoved(s: Pager, t: Pager, mem: map<Id, FlatRegion>, id: Id)
    requires ShowsMem(s, mem) && OthersSame(s, t, id) && t.regions.Keys == s.regions.Keys - {id}
    ensures ShowsMem(t, mem - {id})
  {
    forall i | i in mem && i != id ensures ShowsRegion(t, i, mem[i]) {
      assert ShowsRegion(s, i, mem[i]);
    }
  }

  lemma StoreShows(s: Pager, t: Pager, m: Flat, q: PageRef, v: Page)
    requires Shows(s, m) && HasPage(s.regions, q) && t.regions == s.regions && t.files == s.files
    requires forall x :: Visible(t, x) == if x == q then v else Visible(s, x)
    ensures Shows(t, FlatStep(m, StoreOp(q, v), Ok))
  {
    var r := m.mem[q.id];
    assert ShowsRegion(s, q.id, r);
    ShowsUpdated(s, t, m.mem, q.id, r.(pages := r.pages[q.off := v]));
  }

  lemma StoreSimulates(s: Pager, m: Flat, q: PageRef, v: Page)
    requires Valid(s) && Shows(s, m) && PteAt(s.regions, q).Present?
    ensures Shows(Store(s, q, v), FlatStep(m, StoreOp(q, v), Ok))
  {
    StoreHits(s, q, v);
    StoreShows(s, Store(s, q, v), m, q, v);
  }

  lemma FilledShows(s: Pager, t: Pager, mem: map<Id, FlatRegion>, id: Id, r: Region, fill: Page)
    requires ShowsMem(s, mem) && id !in s.regions && t.regions == s.regions[id := r]
    requires forall x :: Visible(t, x) == if x.id == id && x.off < |r.ptes| then fill else Visible(s, x)
    ensures ShowsMem(t, mem[id := FlatRegion(seq(|r.ptes|, _ => fill), r.persistent, r.anchored)])
  {
    ShowsUpdated(s, t, mem, id, FlatRegion(seq(|r.ptes|, _ => fill), r.persistent, r.anchored));
  }

  lemma AllocateDisk(s: Pager, m: Flat, id: Id, size: nat, persistent: bool, reserved: Option<nat>)
    requires ShowsDisk(s, m.disk)
    ensures var (t, e) := Allocate(s, id, size, persistent, reserved);
            ShowsDisk(t, FlatStep(m, AllocateOp(id, size, persistent, reserved), e).disk)
  {
  }

  lemma AllocateMem(s: Pager, m: Flat, id: Id, size: nat, persistent: bool, reserved: Option<nat>)
    requires ShowsMem(s, m.mem)
    requires var (t, e) := Allocate(s, id, size, persistent, reserved);
             forall x :: Visible(t, x) == if e == Ok && x.id == id && x.off < size / PAGE_SIZE
                                          then (if persistent then FileFill else Fresh) else Visible(s, x)
    ensures var (t, e) := Allocate(s, id, size, persistent, reserved);
            ShowsMem(t, FlatStep(m, AllocateOp(id, size, persistent, reserved), e).mem)
  {
    var (t, e) := Allocate(s, id, size, persistent, reserved);
    if e == Ok {
      FilledShows(s, t, m.mem, id, t.regions[id], if persistent then FileFill else Fresh);
    } else {
      ShowsMemSame(s, t, m.mem);
    }
  }

  lemma AllocateSimulates(s: Pager, m: Flat, id: Id, size: nat, persistent: bool, reserved: Option<nat>)
    requires Valid(s) && Shows(s, m)
    ensures var (t, e) := Allocate(s, id, size, persistent, reserved);
            Shows(t, FlatStep(m, AllocateOp(id, size, persistent, reserved), e))
  {
    AllocateContents(s, id, size, persistent, reserved);
    AllocateDisk(s, m, id, size, persistent, reserved);
    AllocateMem(s, m, id, size, persistent, reserved);
  }

  lemma ShowsMemSame(s: Pager, t: Pager, mem: map<Id, FlatRegion>)
    requires ShowsMem(s, mem) && t.regions == s.regions && forall x :: Visible(t, x) == Visible(s, x)
    ensures ShowsMem(t, mem)
  {
    forall i | i in mem ensures ShowsRegion(t, i, mem[i]) {
      assert ShowsRegion(s, i, mem[i]);
    }
  }

  lemma OpenSimulates(s: Pager, m: Flat, id: Id, reserved: Option<nat>)
    requires Valid(s) && Shows(s, m) && Enabled(s, OpenOp(id, reserved))
    ensures var (t, e) := GetAnchored(s, id, reserved);
            Shows(t, FlatStep(m, OpenOp(id, reserved), e))
  {
    GetAnchoredKeeps(s, id, reserved);
    OpenShows(s, m, id, reserved);
  }

  lemma OpenShows(s: Pager, m: Flat, id: Id, reserved: Option<nat>)
    requires Shows(s, m)
    requires var (t, e) := GetAnchored(s, id, reserved);
             forall x :: Visible(t, x) == if e == Ok && id !in s.regions && x.id == id && x.off < |s.files[id]|
                                          then s.files[id][x.off] else Visible(s, x)
    ensures var (t, e) := GetAnchored(s, id, reserved);
            Shows(t, FlatStep(m, OpenOp(id, reserved), e))
  {
    var (t, e) := GetAnchored(s, id, reserved);
    if e == Ok && id !in s.regions {
      ShowsUpdated(s, t, m.mem, id, FlatRegion(m.disk[id], true, true));
    }
  }

  lemma FreeShows(s: Pager, m: Flat, id: Id)
    requires Shows(s, m)
    requires forall x: PageRef :: x.id != id ==> Visible(Free(s, id), x) == Visible(s, x)
    ensures Shows(Free(s, id), FlatStep(m, FreeOp(id), Ok))
  {
    FreeRegions(s, id);
    if id in s.regions {
      assert ShowsRegion(s, id, m.mem[id]);
      if !s.regions[id].anchored {
        ShowsRemoved(s, Free(s, id), m.mem, id);
      }
    }
  }

  lemma FreeSimulates(s: Pager, m: Flat, id: Id)
    requires Valid(s) && Shows(s, m)
    ensures Shows(Free(s, id), FlatStep(m, FreeOp(id), Ok))
  {
    FreeContents(s, id);
    FreeShows(s, m, id);
  }

  // ---------- anchoring ----------

  function SetAnchored(s: Pager, id: Id, anchored: bool): Pager
    requires id in s.regions
  {
    s.(regions := s.regions[id := s.regions[id].(anchored := anchored)])
  }

  lemma SetAnchoredPages(s: Pager, id: Id, anchored: bool)
    requires id in s.regions
    ensures var t := SetAnchored(s, id, anchored);
            && (forall x :: PteAt(t.regions, x) == PteAt(s.regions, x))
            && (forall x :: Anon(t.regions, x) <==> Anon(s.regions, x))
            && (forall x :: Pers(t.regions, x) <==> Pers(s.regions, x))
            && (forall x :: Visible(t, x) == Visible(s, x))
            && (DirtySound(s) ==> DirtySound(t))
  {
    var t := SetAnchored(s, id, anchored);
    assert forall x :: PteAt(t.regions, x) == PteAt(s.regions, x);
    if DirtySound(s) {
      forall x | HasPage(t.regions, x) ensures CleanMatchesFile(t, x) {
        assert CleanMatchesFile(s, x);
      }
    }
  }

  lemma SetAnchoredKeeps(s: Pager, id: Id, anchored: bool)
    requires Valid(s) && id in s.regions && (anchored ==> s.regions[id].persistent)
    ensures Valid(SetAnchored(s, id, anchored)) && Gap(SetAnchored(s, id, anchored)) == Gap(s)
    ensures forall x :: Visible(SetAnchored(s, id, anchored), x) == Visible(s, x)
    ensures DirtySound(s) ==> DirtySound(SetAnchored(s, id, anchored))
  {
    var t := SetAnchored(s, id, anchored);
    SetAnchoredPages(s, id, anchored);
    SlotsSame(s.regions, t.regions, s.slots, |s.swap|, {});
    InfoSame(s.regions, t.regions, s.infos, s.used);
    SameAnonSameGap(s, t);
  }

  lemma SetAnchoredShows(s: Pager, m: Flat, id: Id, anchored: bool)
    requires Shows(s, m) && id in s.regions
    ensures Shows(SetAnchored(s, id, anchored), m.(mem := m.mem[id := m.mem[id].(anchored := anchored)]))
  {
    var t := SetAnchored(s, id, anchored);
    assert forall x :: PteAt(t.regions, x) == PteAt(s.regions, x);
    assert forall x :: Visible(t, x) == Visible(s, x);
    assert ShowsRegion(s, id, m.mem[id]);
    ShowsUpdated(s, t, m.mem, id, m.mem[id].(anchored := anchored));
  }

  // ---------- what every step keeps ----------

  /** Every operation keeps every frame, slot and promised page accounted for. */
  lemma StepKeeps(s: Pager, op: Op)
    requires Valid(s) && Enabled(s, op)
    ensures Valid(Step(s, op))
  {
    match op
    case AllocateOp(id, size, persistent, reserved) => AllocateKeeps(s, id, size, persistent, reserved);
    case OpenOp(id, reserved) => GetAnchoredKeeps(s, id, reserved);
    case FreeOp(id) => FreeKeeps(s, id);
    case FaultOp(q, write) => UnfixTransparent(s, q, write);
    case MarkDirtyOp(q) => MarkDirtyTransparent(s, q);
    case PersistOp(id, off, size) =>
      if CanPersist(s, id, off, size) == Ok {
        CanPersistPages(s, id, off, size);
        PersistRangeKeeps(s, id, off / PAGE_SIZE, size / PAGE_SIZE);
      }
    case AnchorOp(id) => if id in s.regions && s.regions[id].persistent { SetAnchoredKeeps(s, id, true); }
    case UnanchorOp(id) => if id in s.regions { SetAnchoredKeeps(s, id, false); }
    case StoreOp(q, v) => StoreHits(s, q, v);
  }

  /** The two ways to lose track of a store: a read fault is delivered late for a page with
      unsaved stores, or a store changes a persistent page whose bit says clean. The second is
      what write-protection is for; it comes about when a late read fault clears the bit of a
      page before its first store. */
  predicate LosesStore(s: Pager, op: Op) {
    || (op.FaultOp? && LateRead(s, op.q, op.write))
    || (op.StoreOp? && Pers(s.regions, op.q) && !FrameDirty(s, op.q) && op.v != FilePage(s.files, op.q))
  }

  /** The dirty bits stay sound in every step but those. */
  lemma StepSoundIff(s: Pager, op: Op)
    requires Valid(s) && Enabled(s, op) && DirtySound(s)
    ensures DirtySound(Step(s, op)) <==> !LosesStore(s, op)
  {
    match op
    case AllocateOp(id, size, persistent, reserved) => AllocateContents(s, id, size, persistent, reserved);
    case OpenOp(id, reserved) => GetAnchoredKeeps(s, id, reserved);
    case FreeOp(id) => FreeContents(s, id);
    case FaultOp(q, write) => UnfixSoundIff(s, q, write);
    case MarkDirtyOp(q) => MarkDirtyTransparent(s, q);
    case PersistOp(id, off, size) =>
      if CanPersist(s, id, off, size) == Ok {
        PersistDurableSound(s, id, off, size);
      }
    case AnchorOp(id) => if id in s.regions && s.regions[id].persistent { SetAnchoredKeeps(s, id, true); }
    case UnanchorOp(id) => if id in s.regions { SetAnchoredKeeps(s, id, false); }
    case StoreOp(q, v) => StoreHits(s, q, v);
  }

  /** One step of the pager is one step of the flat memory, exactly when it does not evict a page
      that is marked clean and differs from its file. */
  lemma StepShowsIff(s: Pager, m: Flat, op: Op)
    requires Valid(s) && Enabled(s, op) && Shows(s, m)
    ensures Shows(Step(s, op), FlatStep(m, op, Outcome(s, op))) <==> !ShowsStale(s, op)
  {
    match op
    case AllocateOp(id, size, persistent, reserved) => AllocateSimulates(s, m, id, size, persistent, reserved);
    case OpenOp(id, reserved) => OpenSimulates(s, m, id, reserved);
    case FreeOp(id) => FreeSimulates(s, m, id);
    case FaultOp(q, write) => FaultShowsIff(s, m, q, write);
    case MarkDirtyOp(q) => MarkDirtySimulates(s, m, q);
    case PersistOp(id, off, size) =>
      if CanPersist(s, id, off, size) == Ok {
        PersistSimulates(s, m, id, off, size);
      }
    case AnchorOp(id) =>
      if id in s.regions {
        assert ShowsRegion(s, id, m.mem[id]);
        SetAnchoredShows(s, m, id, true);
      }
    case UnanchorOp(id) => if id in s.regions { SetAnchoredShows(s, m, id, false); }
    case StoreOp(q, v) => StoreSimulates(s, m, q, v);
  }

  ghost predicate ShowsStale(s: Pager, op: Op)
    requires Valid(s) && Enabled(s, op)
  {
    op.FaultOp? && EvictsStale(s, op.q)
  }

  lemma SoundNotStale(s: Pager, op: Op)
    requires Valid(s) && Enabled(s, op) && DirtySound(s)
    ensures !ShowsStale(s, op)
  {
    if op.FaultOp? && !PteAt(s.regions, op.q).Present? {
      VictimHasPage(s, op.q);
    }
  }

  /** From a sound state, one step of the pager is one step of the flat memory. */
  lemma StepSimulates(s: Pager, m: Flat, op: Op)
    requires Valid(s) && Enabled(s, op) && DirtySound(s) && Shows(s, m)
    ensures Shows(Step(s, op), FlatStep(m, op, Outcome(s, op)))
  {
    SoundNotStale(s, op);
    StepShowsIff(s, m, op);
  }

  // ---------- whole runs ----------

  ghost predicate CanRun(s: Pager, ops: seq<Op>)
    requires Valid(s)
    decreases |ops|
  {
    ops == [] || (Enabled(s, ops[0]) && (StepKeeps(s, ops[0]); CanRun(Step(s, ops[0]), ops[1..])))
  }

  function Run(s: Pager, ops: seq<Op>): Pager
    requires Valid(s) && CanRun(s, ops)
    decreases |ops|
  {
    if ops == [] then s else StepKeeps(s, ops[0]); Run(Step(s, ops[0]), ops[1..])
  }

  /** The same run on the flat memory, which learns from the pager only which requests for
      memory were refused. */
  function FlatRun(s: Pager, m: Flat, ops: seq<Op>): Flat
    requires Valid(s) && CanRun(s, ops)
    decreases |ops|
  {
    if ops == [] then m
    else StepKeeps(s, ops[0]); FlatRun(Step(s, ops[0]), FlatStep(m, ops[0], Outcome(s, ops[0])), ops[1..])
  }

  /** No step of the run loses track of a store. */
  ghost predicate NoneLost(s: Pager, ops: seq<Op>)
    requires Valid(s) && CanRun(s, ops)
    decreases |ops|
  {
    ops == [] || (!LosesStore(s, ops[0]) && (StepKeeps(s, ops[0]); NoneLost(Step(s, ops[0]), ops[1..])))
  }

  /** The dirty bits are sound in every state of the run. */
  ghost predicate SoundThroughout(s: Pager, ops: seq<Op>)
    requires Valid(s) && CanRun(s, ops)
    decreases |ops|
  {
    DirtySound(s) && (ops == [] || (StepKeeps(s, ops[0]); SoundThroughout(Step(s, ops[0]), ops[1..])))
  }

  /** Exactly the runs that lose track of no store keep the dirty bits sound throughout. */
  lemma {:induction false} RunSoundIff(s: Pager, ops: seq<Op>)
    requires Valid(s) && DirtySound(s) && CanRun(s, ops)
    ensures SoundThroughout(s, ops) <==> NoneLost(s, ops)
    decreases |ops|
  {
    if ops != [] {
      StepKeeps(s, ops[0]);
      StepSoundIff(s, ops[0]);
      if !LosesStore(s, ops[0]) {
        RunSoundIff(Step(s, ops[0]), ops[1..]);
      }
    }
  }

  lemma {:induction false} RunKeeps(s: Pager, ops: seq<Op>)
    requires Valid(s) && CanRun(s, ops)
    ensures Valid(Run(s, ops))
    decreases |ops|
  {
    if ops != [] {
      StepKeeps(s, ops[0]);
      RunKeeps(Step(s, ops[0]), ops[1..]);
    }
  }

  /** No fault of the run evicts a page that is marked clean and differs from its file. */
  ghost predicate NoneStale(s: Pager, ops: seq<Op>)
    requires Valid(s) && CanRun(s, ops)
    decreases |ops|
  {
    ops == [] || (!ShowsStale(s, ops[0]) && (StepKeeps(s, ops[0]); NoneStale(Step(s, ops[0]), ops[1..])))
  }

  /** Clients see the flat memory in every state of the run. */
  ghost predicate ShowsThroughout(s: Pager, m: Flat, ops: seq<Op>)
    requires Valid(s) && CanRun(s, ops)
    decreases |ops|
  {
    Shows(s, m) && (ops == [] || (StepKeeps(s, ops[0]);
      ShowsThroughout(Step(s, ops[0]), FlatStep(m, ops[0], Outcome(s, ops[0])), ops[1..])))
  }

  /** Transparency, exactly: clients see the flat memory throughout a run if and only if no fault
      evicts a page that is marked clean and differs from its file. */
  lemma {:induction false} RunTransparentIff(s: Pager, m: Flat, ops: seq<Op>)
    requires Valid(s) && Shows(s, m) && CanRun(s, ops)
    ensures ShowsThroughout(s, m, ops) <==> NoneStale(s, ops)
    decreases |ops|
  {
    if ops != [] {
      StepKeeps(s, ops[0]);
      StepShowsIff(s, m, ops[0]);
      if !ShowsStale(s, ops[0]) {
        RunTransparentIff(Step(s, ops[0]), FlatStep(m, ops[0], Outcome(s, ops[0])), ops[1..]);
      }
    }
  }

  lemma {:induction false} ShowsLast(s: Pager, m: Flat, ops: seq<Op>)
    requires Valid(s) && CanRun(s, ops) && ShowsThroughout(s, m, ops)
    ensures Shows(Run(s, ops), FlatRun(s, m, ops))
    decreases |ops|
  {
    if ops != [] {
      StepKeeps(s, ops[0]);
      ShowsLast(Step(s, ops[0]), FlatStep(m, ops[0], Outcome(s, ops[0])), ops[1..]);
    }
  }

  lemma {:induction false} SoundRunNotStale(s: Pager, ops: seq<Op>)
    requires Valid(s) && DirtySound(s) && CanRun(s, ops) && NoneLost(s, ops)
    ensures NoneStale(s, ops) && DirtySound(Run(s, ops))
    decreases |ops|
  {
    if ops != [] {
      StepKeeps(s, ops[0]);
      SoundNotStale(s, ops[0]);
      StepSoundIff(s, ops[0]);
      SoundRunNotStale(Step(s, ops[0]), ops[1..]);
    }
  }

  /** In particular, over every run that loses track of no store. */
  lemma RunTransparent(s: Pager, m: Flat, ops: seq<Op>)
    requires Valid(s) && DirtySound(s) && Shows(s, m) && CanRun(s, ops) && NoneLost(s, ops)
    ensures DirtySound(Run(s, ops)) && Shows(Run(s, ops), FlatRun(s, m, ops))
  {
    SoundRunNotStale(s, ops);
    RunTransparentIff(s, m, ops);
    ShowsLast(s, m, ops);
  }

  /** A new manager over any set of files is valid, sound, and shows no region. */
  lemma InitShows(nrRam: nat, nrSwap: nat, files: Files)
    requires nrRam >= 1
    ensures Valid(Init(nrRam, nrSwap, files)) && DirtySound(Init(nrRam, nrSwap, files))
    ensures Gap(Init(nrRam, nrSwap, files)) == 0
    ensures Shows(Init(nrRam, nrSwap, files), Flat(map[], files))
  {
    var s := Init(nrRam, nrSwap, files);
    assert AnonPages(s.regions) == {};
    assert SlotHolders(s.regions) == {};
  }
}
