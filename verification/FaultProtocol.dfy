/** Fault handling and persist as sequences of steps under the manager's lock, interleaved with
    what clients do without it: fetching page-table entries and storing through them. */
module FaultProtocol {
  import opened Common
  import opened PagerState
  import opened PagerOps
  import opened PagerFaults
  import opened PagerAccess
  import opened PagerRuns
  import opened ManagerState
  import opened AddressIndex
  import opened Clients

  // ---------- state ----------

  datatype Prot = ReadOnly | Writable

  /** The kernel's side: how each mapped page of the manager may be accessed (absent means not
      mapped), the segments whose client faults are blocked, and the pages some client has a
      page-table entry for. */
  datatype Kernel = Kernel(prot: map<PageRef, Prot>, blocked: set<int>, held: set<PageRef>)

  datatype Kind = Major | Minor | WriteProtect

  /** How far the holder of the lock has come. */
  datatype Phase =
    | Idle
    | Blocked(q: PageRef, kind: Kind, write: bool)   // the segment's faults are blocked
    | Unfixed(q: PageRef, protect: bool)             // unfix done, mapping not registered yet
    | Registered(q: PageRef, protect: bool)          // registered, not protected yet
    | Marked(q: PageRef, unprotect: bool)            // mark_dirty done
    | Settled(q: PageRef)                            // protection as it should be
    | Unblocked(q: PageRef)                          // only the wake-up is missing
    | Persisting(id: Id, off: nat, size: nat, done: nat)
    | Persisted(id: Id)

  datatype World = World(sys: System, k: Kernel, phase: Phase)

  /** Clients fetch entries and store at any time. Calls, faults and persists begin when the
      lock is free, and whoever holds it then advances from phase to phase. */
  datatype Label =
    | Fetch(q: PageRef)
    | ClientStore(q: PageRef, v: Page)
    | CallStep(c: Call)
    | FaultBegin(addr: nat, kind: Kind, write: bool)
    | PersistBegin(pid: Pid, addr: nat, off: nat, size: nat)
    | Advance

  function PagerOf(w: World): Pager { w.sys.m.pager }

  function WithPager(w: World, p: Pager): World {
    w.(sys := w.sys.(m := w.sys.m.(pager := p)))
  }

  function SegmentOf(w: World, id: Id): int
    requires id in w.sys.m.regions
  {
    w.sys.m.regions[id].segid
  }

  // ---------- kernel effects ----------

  function Protect(k: Kernel, q: PageRef, prot: Prot): Kernel {
    if q in k.prot then k.(prot := k.prot[q := prot]) else k
  }

  /** The mapped pages of region `id` from `i` to before `n` read-only, all others as they were. */
  function ProtectedRange(k: Kernel, id: Id, i: nat, n: nat): Kernel {
    k.(prot := map q | q in k.prot :: if InRange(q, id, i, n) then ReadOnly else k.prot[q])
  }

  /** Mapping a page fresh leaves it writable; evicting one unmaps it everywhere. */
  function MapFresh(k: Kernel, q: PageRef, evicted: Option<PageRef>): Kernel {
    var gone := if evicted.Some? then {evicted.value} else {};
    k.(prot := (k.prot - gone)[q := Writable], held := k.held - gone)
  }

  /** Unmapping regions unmaps their pages, and removing a segment takes it from all clients. */
  function Forget(k: Kernel, m: Manager): Kernel {
    k.(prot := map q | q in k.prot && q.id in m.pager.regions :: k.prot[q],
       held := set q | q in k.held && q.id in m.regions && q.id in m.pager.regions)
  }

  // ---------- steps ----------

  /** A client can reach a page when it is mapped, its region has a segment, and that segment's
      faults are not blocked. */
  predicate Reachable(w: World, q: PageRef) {
    q in w.k.prot && q.id in w.sys.m.regions && SegmentOf(w, q.id) !in w.k.blocked
  }

  ghost predicate CanStep(w: World, l: Label)
    requires Good(w.sys.m)
  {
    match l
    case Fetch(q) => Reachable(w, q)
    case ClientStore(q, _) => q in w.k.held && q in w.k.prot && w.k.prot[q] == Writable
    case CallStep(c) => w.phase.Idle? && Allowed(w.sys, c) && !c.PersistCall?
    case FaultBegin(addr, kind, write) =>
      // left out: a fault whose region is gone and whose address is looked up past another's end
      w.phase.Idle? && (Lookup(w.sys.m, addr).Some? ==>
        Inside(w.sys.m, Lookup(w.sys.m, addr).value.0, addr)) && (kind.WriteProtect? ==> write)
    case PersistBegin(pid, _, off, size) => w.phase.Idle? && pid in w.sys.clients && off < WORD && size < WORD
    case Advance => !w.phase.Idle?
  }

  /** The work of a fault with its segment blocked: `unfix` or `mark_dirty`. */
  ghost function Work(w: World): World
    requires Good(w.sys.m) && w.phase.Blocked? && HasPage(PagerOf(w).regions, w.phase.q)
  {
    var p, q := PagerOf(w), w.phase.q;
    if w.phase.kind.WriteProtect? then
      WithPager(w, MarkDirty(p, q)).(phase := Marked(q, PteAt(p.regions, q).Present?))
    else if PteAt(p.regions, q).Present? then
      WithPager(w, Unfix(p, q, w.phase.write)).(phase := Unfixed(q, false))
    else
      WithPager(w, Unfix(p, q, w.phase.write))
        .(k := MapFresh(w.k, q, Evicted(p, q)),
          phase := Unfixed(q, !w.phase.write && !PteAt(p.regions, q).Untouched?))
  }

  ghost function BeginFault(w: World, addr: nat, kind: Kind, write: bool): World
    requires Good(w.sys.m)
  {
    var l := Lookup(w.sys.m, addr);
    if l.None? then w
    else
      w.(k := w.k.(blocked := w.k.blocked + {SegmentOf(w, l.value.0)}),
         phase := Blocked(PageAt(l.value.0, l.value.1), kind, write))
  }

  /** Persist blocks faults on the region's id, not on its segment. */
  function BeginPersist(w: World, pid: Pid, addr: nat, off: nat, size: nat): World
    requires pid in w.sys.clients
  {
    if addr !in w.sys.clients[pid] then w
    else
      var id := w.sys.clients[pid][addr];
      if PersistCheck(w.sys.m, id, off, size) != Ok then w
      else w.(k := w.k.(blocked := w.k.blocked + {id}), phase := Persisting(id, off, size, 0))
  }

  // ---------- the invariant ----------

  /** A page mapped but not yet write-protected, as the fault handler will see to. */
  function Pending(f: Phase): Option<PageRef> {
    if (f.Unfixed? || f.Registered?) && f.protect then Some(f.q) else None
  }

  /** Pages are mapped exactly while resident, and clients hold entries only for mapped pages. */
  ghost predicate MappedOk(p: Pager, k: Kernel) {
    && (forall q :: q in k.prot <==> PteAt(p.regions, q).Present?)
    && (forall q :: q in k.held ==> q in k.prot)
  }

  /** A clean resident page of a persistent region cannot be written by a client: it is
      read-only, or it is about to be and no client can reach it yet. */
  ghost predicate Tracked(p: Pager, k: Kernel, pending: Option<PageRef>) {
    forall q :: (Pers(p.regions, q) && PteAt(p.regions, q).Present? && !FrameDirty(p, q)) ==>
      q in k.prot && (k.prot[q] == ReadOnly || (pending == Some(q) && q !in k.held))
  }

  /** The page being handled belongs to a known region whose segment is blocked. */
  ghost predicate InHand(w: World, q: PageRef) {
    q.id in w.sys.m.regions && HasPage(PagerOf(w).regions, q) && SegmentOf(w, q.id) in w.k.blocked
  }

  ghost predicate ReadOnlyIn(k: Kernel, id: Id, i: nat, n: nat) {
    forall q :: q in k.prot && InRange(q, id, i, n) ==> k.prot[q] == ReadOnly
  }

  ghost predicate PhaseOk(w: World) {
    match w.phase
    case Blocked(q, kind, write) => InHand(w, q) && (kind.WriteProtect? ==> write)
    case Unfixed(q, _) => InHand(w, q)
    case Registered(q, _) => InHand(w, q)
    case Marked(q, unprotect) => InHand(w, q) && (unprotect ==> FrameDirty(PagerOf(w), q))
    case Settled(q) => q.id in w.sys.m.regions
    case Persisting(id, off, size, done) =>
      && PersistCheck(w.sys.m, id, off, size) == Ok && done <= size && done % PAGE_SIZE == 0
      && ReadOnlyIn(w.k, id, off / PAGE_SIZE, (off + done) / PAGE_SIZE)
    case _ => true
  }

  /** Dirty bits sound, pages mapped while resident, clean persistent pages not writable. */
  ghost predicate Sound(p: Pager, k: Kernel, pending: Option<PageRef>) {
    DirtySound(p) && MappedOk(p, k) && Tracked(p, k, pending)
  }

  ghost predicate Base(s: System) {
    Good(s.m) && Counted(s.clients, s.m.regions)
  }

  ghost predicate Orderly(w: World) {
    PhaseOk(w) && forall q :: q in w.k.held ==> q.id in w.sys.m.regions
  }

  ghost predicate Inv(w: World) {
    Base(w.sys) && Sound(PagerOf(w), w.k, Pending(w.phase)) && Orderly(w)
  }

  /** A read fault on a dirty page of a persistent region that holds unsaved stores or can still
      take stores. */
  predicate LosesTrack(p: Pager, k: Kernel, q: PageRef, write: bool) {
    !write && Pers(p.regions, q) && FrameDirty(p, q) && (Unsaved(p, q) || (q in k.prot && k.prot[q] == Writable))
  }

  /** The one step that loses track: such a fault is handled while the page is resident. */
  predicate Forgets(w: World) {
    && w.phase.Blocked? && !w.phase.kind.WriteProtect?
    && PteAt(PagerOf(w).regions, w.phase.q).Present? && LosesTrack(PagerOf(w), w.k, w.phase.q, w.phase.write)
  }

  function StoreThrough(w: World, q: PageRef, v: Page): World
    requires Valid(PagerOf(w)) && PteAt(PagerOf(w).regions, q).Present?
  {
    WithPager(w, Store(PagerOf(w), q, v))
  }

  ghost function MakeCall(w: World, c: Call): World
    requires Good(w.sys.m) && Allowed(w.sys, c)
  {
    var s := Do(w.sys, c);
    World(s, Forget(w.k, s.m), Idle)
  }

  /** The write-protect call of the fault handler, either way. A minor fault on a resident page
      also asks the kernel to continue, which changes nothing on a mapped page. */
  function Adjust(w: World): World
    requires w.phase.Registered? || w.phase.Marked?
  {
    var k := if w.phase.Registered?
             then (if w.phase.protect then Protect(w.k, w.phase.q, ReadOnly) else w.k)
             else (if w.phase.unprotect then Protect(w.k, w.phase.q, Writable) else w.k);
    w.(k := k, phase := Settled(w.phase.q))
  }

  function Unblock(w: World): World
    requires w.phase.Settled? && w.phase.q.id in w.sys.m.regions
  {
    w.(k := w.k.(blocked := w.k.blocked - {SegmentOf(w, w.phase.q.id)}), phase := Unblocked(w.phase.q))
  }

  function ProtectOne(w: World): World
    requires w.phase.Persisting?
  {
    w.(k := Protect(w.k, PageAt(w.phase.id, w.phase.off + w.phase.done), ReadOnly),
       phase := w.phase.(done := w.phase.done + PAGE_SIZE))
  }

  ghost function CopyOut(w: World): World
    requires Good(w.sys.m) && w.phase.Persisting? && CanPersist(PagerOf(w), w.phase.id, w.phase.off, w.phase.size) == Ok
  {
    WithPager(w, Persist(PagerOf(w), w.phase.id, w.phase.off, w.phase.size)).(phase := Persisted(w.phase.id))
  }

  /** What advancing needs for its operations to be in range. */
  ghost predicate CanAdvance(w: World) {
    match w.phase
    case Idle => false
    case Blocked(q, _, _) => HasPage(PagerOf(w).regions, q)
    case Settled(q) => q.id in w.sys.m.regions
    case Persisting(id, off, size, done) => CanPersist(PagerOf(w), id, off, size) == Ok
    case _ => true
  }

  ghost function Advanced(w: World): World
    requires Good(w.sys.m) && CanAdvance(w)
  {
    match w.phase
    case Blocked(_, _, _) => Work(w)
    case Unfixed(q, protect) => w.(phase := Registered(q, protect))
    case Registered(_, _) => Adjust(w)
    case Marked(_, _) => Adjust(w)
    case Settled(_) => Unblock(w)
    case Unblocked(_) => w.(phase := Idle)
    case Persisting(_, _, size, done) => if done < size then ProtectOne(w) else CopyOut(w)
    case Persisted(id) => w.(k := w.k.(blocked := w.k.blocked - {id}), phase := Idle)
  }

  /** What clients do, and calls, faults and persists beginning. */
  ghost function Begin(w: World, l: Label): World
    requires Good(w.sys.m) && Ranged(w, l) && !l.Advance?
  {
    match l
    case Fetch(q) => w.(k := w.k.(held := w.k.held + {q}))
    case ClientStore(q, v) => StoreThrough(w, q, v)
    case CallStep(c) => MakeCall(w, c)
    case FaultBegin(addr, kind, write) => BeginFault(w, addr, kind, write)
    case PersistBegin(pid, addr, off, size) => BeginPersist(w, pid, addr, off, size)
  }

  /** The operations of the step are in range. Under the invariant, `CanStep` is enough. */
  ghost predicate Ranged(w: World, l: Label) {
    match l
    case ClientStore(q, _) => PteAt(PagerOf(w).regions, q).Present?
    case CallStep(c) => Allowed(w.sys, c)
    case PersistBegin(pid, _, _, _) => pid in w.sys.clients
    case Advance => CanAdvance(w)
    case _ => true
  }

  lemma StepRanged(w: World, l: Label)
    requires Inv(w) && CanStep(w, l)
    ensures Ranged(w, l)
  {
  }

  ghost function Next(w: World, l: Label): World
    requires Good(w.sys.m) && Ranged(w, l)
  {
    if l.Advance? then Advanced(w) else Begin(w, l)
  }

  // ---------- tables under a changed pager ----------

  lemma {:induction false} TablesSameShape(m: Manager, p: Pager)
    requires Good(m) && Valid(p) && SameShape(m.pager, p)
    ensures Good(m.(pager := p))
  {
    var rs, ns := m.pager.regions, p.regions;
    forall i, j | i in ns && j in ns && i != j ensures Apart(ns[i].addr, ns[i].size, ns[j].addr, ns[j].size) {
      assert Apart(rs[i].addr, rs[i].size, rs[j].addr, rs[j].size);
    }
  }
}
