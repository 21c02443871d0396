/** Concrete runs from a new manager for promises the program does not keep. */
module Witnesses {
  import opened Common
  import opened PagerState
  import opened PagerOps
  import opened PagerFaults
  import opened PagerAccess
  import opened PagerRegions
  import opened PagerFree
  import opened PagerRuns
  import opened PagerGuarantees
  import opened ManagerState
  import opened AddressIndex
  import opened Clients
  import opened FaultProtocol
  import opened ProtocolSafety

  // ---------- lost capacity ----------

  /** With one frame and one slot a page fits. After a request that found no address no region
      exists, and yet the same request is refused for lack of pages. */
  lemma CapacityLostRun(s: Pager, t: Pager, addr: nat)
    requires s == Init(1, 1, map[]) && t == Allocate(s, 0, PAGE_SIZE, false, None).0
    ensures Valid(t) && t.regions == map[] && Gap(t) == 1
    ensures Allocate(s, 0, PAGE_SIZE, false, Some(addr)).1 == Ok
    ensures Allocate(t, 0, PAGE_SIZE, false, Some(addr)).1 == ENOMEM
  {
    InitShows(1, 1, map[]);
    AllocateKeeps(s, 0, PAGE_SIZE, false, None);
    assert PAGE_SIZE / PAGE_SIZE == 1;
  }

  // ---------- runs of the buffer manager ----------

  const PAGE0 := PageRef(0, 0)
  const PAGE1 := PageRef(0, 1)
  const GROW := AllocateOp(0, 2 * PAGE_SIZE, true, Some(PAGE_SIZE))

  /** A manager with one frame, no swap and one persistent region of two pages. Page `i` is in
      the frame with contents `page`, if `i` is one of the two. */
  function TwoPages(i: nat, page: Page): Pager {
    Pager(0, map[0 := Region(PAGE_SIZE, 2 * PAGE_SIZE,
                             [if i == 0 then Present(0) else Swapped(0), if i == 1 then Present(0) else Swapped(1)], true, false)],
          [if i < 2 then PageInfo(PageRef(0, i), true) else PageInfo(PAGE0, false)],
          if i < 2 then [] else [0], if i < 2 then [0] else [], [], [page], [], map[0 := [FileFill, FileFill]])
  }

  lemma Stepped(s: Pager, op: Op, t: Pager)
    requires Valid(s) && DirtySound(s) && Enabled(s, op) && Step(s, op) == t
    requires !LosesStore(s, op)
    ensures Valid(t) && DirtySound(t)
  {
    StepKeeps(s, op);
    StepSoundIff(s, op);
  }

  lemma GrowStep()
    ensures Valid(Init(1, 0, map[])) && Step(Init(1, 0, map[]), GROW) == TwoPages(2, Hole)
    ensures Valid(TwoPages(2, Hole)) && DirtySound(TwoPages(2, Hole))
  {
    InitShows(1, 0, map[]);
    assert NewPtes(2, true) == [Swapped(0), Swapped(1)];
    assert 2 * PAGE_SIZE / PAGE_SIZE == 2;
    assert seq(2, _ => FileFill) == [FileFill, FileFill];
    Stepped(Init(1, 0, map[]), GROW, TwoPages(2, Hole));
  }

  lemma WriteStep(i: nat)
    requires i < 2 && Valid(TwoPages(2, Hole)) && DirtySound(TwoPages(2, Hole))
    ensures Step(TwoPages(2, Hole), FaultOp(PageRef(0, i), true)) == TwoPages(i, FileFill)
    ensures Valid(TwoPages(i, FileFill)) && DirtySound(TwoPages(i, FileFill))
  {
    WriteResult(i);
    FaultInStep(TwoPages(2, Hole), PageRef(0, i), true);
    Stepped(TwoPages(2, Hole), FaultOp(PageRef(0, i), true), TwoPages(i, FileFill));
  }

  lemma FaultInStep(s: Pager, q: PageRef, write: bool)
    requires Valid(s) && HasPage(s.regions, q) && !PteAt(s.regions, q).Present?
    ensures var op := FaultOp(q, write); Enabled(s, op) && Step(s, op) == FaultIn(s, q, write) && !LosesStore(s, op)
  {
  }

  lemma WriteResult(i: nat)
    requires i < 2 && Valid(TwoPages(2, Hole))
    ensures FaultIn(TwoPages(2, Hole), PageRef(0, i), true) == TwoPages(i, FileFill)
    ensures PteAt(TwoPages(2, Hole).regions, PageRef(0, i)) == Swapped(i) && HasPage(TwoPages(2, Hole).regions, PageRef(0, i))
  {
    var s, q := TwoPages(2, Hole), PageRef(0, i);
    FaultInReady(s, q);
    assert ReleaseSlot(s, q) == s && TakeFrame(s) == (s.(free := []), 0) && Visible(s, q) == FileFill;
    WriteInstalls(i);
  }

  lemma WriteInstalls(i: nat)
    requires i < 2
    ensures Install(TwoPages(2, Hole).(free := []), PageRef(0, i), 0, FileFill, true) == TwoPages(i, FileFill)
  {
    var t, u := Install(TwoPages(2, Hole).(free := []), PageRef(0, i), 0, FileFill, true), TwoPages(i, FileFill);
    assert t.regions[0].ptes == u.regions[0].ptes;
    assert t.regions == u.regions && t.used == u.used && t.infos == u.infos && t.ram == u.ram;
  }

  lemma StoreStep(i: nat)
    requires i < 2 && Valid(TwoPages(i, FileFill)) && DirtySound(TwoPages(i, FileFill))
    ensures Enabled(TwoPages(i, FileFill), StoreOp(PageRef(0, i), Data(7)))
    ensures Step(TwoPages(i, FileFill), StoreOp(PageRef(0, i), Data(7))) == TwoPages(i, Data(7))
    ensures Valid(TwoPages(i, Data(7))) && DirtySound(TwoPages(i, Data(7)))
  {
    Stepped(TwoPages(i, FileFill), StoreOp(PageRef(0, i), Data(7)), TwoPages(i, Data(7)));
  }

  lemma RunCons(s: Pager, op: Op, ops: seq<Op>)
    requires Valid(s) && Enabled(s, op) && Valid(Step(s, op)) && CanRun(Step(s, op), ops)
    ensures CanRun(s, [op] + ops) && Run(s, [op] + ops) == Run(Step(s, op), ops)
  {
    assert ([op] + ops)[1..] == ops;
  }

  lemma ThreeSteps(s: Pager, t: Pager, u: Pager, v: Pager, a: Op, b: Op, c: Op)
    requires Valid(s) && Enabled(s, a) && Step(s, a) == t
    requires Valid(t) && Enabled(t, b) && Step(t, b) == u
    requires Valid(u) && Enabled(u, c) && Step(u, c) == v && Valid(v)
    ensures var ops := [a] + ([b] + ([c] + [])); CanRun(s, ops) && Run(s, ops) == v
  {
    RunCons(u, c, []);
    RunCons(t, b, [c] + []);
    RunCons(s, a, [b] + ([c] + []));
  }

  lemma StoreReached(i: nat)
    requires i < 2
    ensures Valid(TwoPages(i, Data(7))) && DirtySound(TwoPages(i, Data(7)))
    ensures exists ops :: ReachedBy(TwoPages(i, Data(7)), 1, 0, map[], ops)
  {
    GrowStep();
    WriteStep(i);
    StoreStep(i);
    var b, c := FaultOp(PageRef(0, i), true), StoreOp(PageRef(0, i), Data(7));
    ThreeSteps(Init(1, 0, map[]), TwoPages(2, Hole), TwoPages(i, FileFill), TwoPages(i, Data(7)), GROW, b, c);
    Witnessed(TwoPages(i, Data(7)), [GROW] + ([b] + ([c] + [])));
  }

  lemma Witnessed(s: Pager, ops: seq<Op>)
    requires Valid(Init(1, 0, map[])) && CanRun(Init(1, 0, map[]), ops) && Run(Init(1, 0, map[]), ops) == s
    ensures exists ops :: ReachedBy(s, 1, 0, map[], ops)
  {
    assert ReachedBy(s, 1, 0, map[], ops);
  }

  /** Such a run exists. A client writes page 0 of a persistent region, another client's read
      fault for page 0 is handled after that, and then page 1 is touched: page 0 is evicted
      and, by the lemma above, the store is lost. */
  lemma LateReadRun(s: Pager)
    requires s == TwoPages(0, Data(7))
    ensures exists ops :: ReachedBy(s, 1, 0, map[], ops)
    ensures Valid(s) && DirtySound(s) && LateRead(s, PAGE0, false)
    ensures var t := Unfix(s, PAGE0, false);
            Valid(t) && HasPage(t.regions, PAGE1) && !PteAt(t.regions, PAGE1).Present? && Evicted(t, PAGE1) == Some(PAGE0)
  {
    StoreReached(0);
    LateReadVictim(s);
  }

  lemma LateReadVictim(s: Pager)
    requires s == TwoPages(0, Data(7)) && Valid(s)
    ensures LateRead(s, PAGE0, false)
    ensures var t := Unfix(s, PAGE0, false);
            Valid(t) && HasPage(t.regions, PAGE1) && !PteAt(t.regions, PAGE1).Present? && Evicted(t, PAGE1) == Some(PAGE0)
  {
    UnfixTransparent(s, PAGE0, false);
    OldestVictim(Unfix(s, PAGE0, false));
  }

  lemma OldestVictim(t: Pager)
    requires Valid(t) && t == TwoPages(0, Data(7)).(infos := t.infos) && t.infos[0].owner == PAGE0
    ensures HasPage(t.regions, PAGE1) && !PteAt(t.regions, PAGE1).Present? && Evicted(t, PAGE1) == Some(PAGE0)
  {
    FaultInReady(t, PAGE1);
  }

  /** A persist call that saves nothing: page 1 holds a store, exactly page 1 is requested and
      accepted, and the loop runs from page 1 to before page 1. */
  lemma PersistMissedRun(s: Pager)
    requires s == TwoPages(1, Data(7))
    ensures exists ops :: ReachedBy(s, 1, 0, map[], ops)
    ensures Valid(s) && DirtySound(s) && CanPersist(s, 0, PAGE_SIZE, PAGE_SIZE) == Ok
    ensures InRange(PAGE1, 0, PAGE_SIZE / PAGE_SIZE, PAGE_SIZE / PAGE_SIZE + PAGE_SIZE / PAGE_SIZE)
    ensures Unsaved(Persist(s, 0, PAGE_SIZE, PAGE_SIZE), PAGE1)
  {
    StoreReached(1);
    PersistNothing(s, 0, PAGE_SIZE, PAGE_SIZE);
  }

  /** A persist call from offset zero that saves nothing: page 0 holds a store, a late read fault
      marks it clean, and exactly page 0 is requested and accepted. */
  lemma PersistSkippedRun(s: Pager)
    requires s == TwoPages(0, Data(7))
    ensures exists ops :: ReachedBy(s, 1, 0, map[], ops)
    ensures Valid(s) && Valid(Unfix(s, PAGE0, false))
    ensures var t := Unfix(s, PAGE0, false);
            && CanPersist(t, 0, 0, PAGE_SIZE) == Ok && InRange(PAGE0, 0, 0, PAGE_SIZE / PAGE_SIZE)
            && Unsaved(Persist(t, 0, 0, PAGE_SIZE), PAGE0)
  {
    LateReadRun(s);
    LateReadLoses(s, PAGE0, PAGE1, false, 0, 0, PAGE_SIZE);
    PersistDurableIff(Unfix(s, PAGE0, false), 0, 0, PAGE_SIZE);
    UnfixTransparent(s, PAGE0, false);
  }

  /** The bit can also be lost before there is anything to lose: a read fault handled after the
      write fault and before the first store is not late for any store. It leaves the bits
      sound, and the page resident and writable, but clean; the store that follows is lost. */
  lemma EarlyReadRun(s: Pager)
    requires s == TwoPages(0, FileFill)
    ensures exists ops :: ReachedBy(s, 1, 0, map[], ops)
    ensures Valid(s) && FrameDirty(s, PAGE0) && !LosesStore(s, FaultOp(PAGE0, false))
    ensures var t := Unfix(s, PAGE0, false); var store := StoreOp(PAGE0, Data(7));
            && Valid(t) && DirtySound(t) && Enabled(t, store) && LosesStore(t, store)
            && Valid(Step(t, store)) && !DirtySound(Step(t, store))
  {
    WriteReached();
    EarlyRead(s);
  }

  lemma WriteReached()
    ensures Valid(TwoPages(0, FileFill)) && DirtySound(TwoPages(0, FileFill))
    ensures exists ops :: ReachedBy(TwoPages(0, FileFill), 1, 0, map[], ops)
  {
    GrowStep();
    WriteStep(0);
    var b := FaultOp(PAGE0, true);
    RunCons(TwoPages(2, Hole), b, []);
    RunCons(Init(1, 0, map[]), GROW, [b] + []);
    Witnessed(TwoPages(0, FileFill), [GROW] + ([b] + []));
  }

  lemma EarlyRead(s: Pager)
    requires s == TwoPages(0, FileFill) && Valid(s) && DirtySound(s)
    ensures FrameDirty(s, PAGE0) && !LosesStore(s, FaultOp(PAGE0, false))
    ensures var t := Unfix(s, PAGE0, false); var store := StoreOp(PAGE0, Data(7));
            && Valid(t) && DirtySound(t) && Enabled(t, store) && LosesStore(t, store)
            && Valid(Step(t, store)) && !DirtySound(Step(t, store))
  {
    var t := Unfix(s, PAGE0, false);
    UnfixTransparent(s, PAGE0, false);
    UnfixSoundIff(s, PAGE0, false);
    StepKeeps(t, StoreOp(PAGE0, Data(7)));
    StepSoundIff(t, StoreOp(PAGE0, Data(7)));
  }

  // ---------- worlds along one interleaving ----------

  const CLIENT: Pid := 5
  const SEGMENT: int := 9
  const ALLOC := AllocCall(CLIENT, 0, 0, 2 * PAGE_SIZE, true, Answers(None, Some(PAGE_SIZE), Some(SEGMENT)))
  const BEGUN: Kernel := Kernel(map[], {SEGMENT}, {})
  const MAPPED: Kernel := Kernel(map[PAGE0 := Writable], {SEGMENT}, {})

  /** One client maps the persistent region of two pages, with page `i` in the only frame. */
  function At(i: nat, page: Page, k: Kernel, phase: Phase): World {
    World(System(Manager(TwoPages(i, page), map[0 := CmRegion(PAGE_SIZE, 2 * PAGE_SIZE, SEGMENT, 1)], map[PAGE_SIZE := 0]),
                 map[CLIENT := map[0 := 0]]), k, phase)
  }

  /** Step `l`, which does not forget, leads from `w` to `v`. */
  ghost predicate Steps(w: World, l: Label, v: World) {
    Good(w.sys.m) && CanStep(w, l) && !(l.Advance? && Forgets(w)) && Ranged(w, l) && Next(w, l) == v
  }

  /** The steps of `ls`, each one of relation `step`, lead from `w` to `v`. */
  ghost predicate Path<S(!new), L>(step: (S, L, S) -> bool, w: S, ls: seq<L>, v: S)
    decreases |ls|
  {
    if ls == [] then w == v else exists n :: step(w, ls[0], n) && Path(step, n, ls[1..], v)
  }

  lemma {:induction false} Extended<S(!new), L>(step: (S, L, S) -> bool, w: S, ls: seq<L>, v: S, l: L, u: S)
    requires Path(step, w, ls, v) && step(v, l, u)
    ensures Path(step, w, ls + [l], u)
    decreases |ls|
  {
    if ls == [] {
      assert Path(step, u, [], u);
    } else {
      var n :| step(w, ls[0], n) && Path(step, n, ls[1..], v);
      Extended(step, n, ls[1..], v, l, u);
      assert (ls + [l])[1..] == ls[1..] + [l];
    }
  }

  lemma FirstStep<S(!new), L>(step: (S, L, S) -> bool, w: S, ls: seq<L>, v: S) returns (n: S)
    requires Path(step, w, ls, v) && ls != []
    ensures step(w, ls[0], n) && Path(step, n, ls[1..], v)
  {
    n :| step(w, ls[0], n) && Path(step, n, ls[1..], v);
  }

  /** Some steps lead from `w` to `v`. */
  ghost predicate Linked<S(!new), L(!new)>(step: (S, L, S) -> bool, w: S, v: S) {
    exists ls :: Path(step, w, ls, v)
  }

  lemma LinkedNext<S(!new), L(!new)>(step: (S, L, S) -> bool, w: S, v: S, l: L, u: S)
    requires Linked(step, w, v) && step(v, l, u)
    ensures Linked(step, w, u)
  {
    var ls :| Path(step, w, ls, v);
    Extended(step, w, ls, v, l, u);
  }

  /** What holds of no steps and of one more step at the front holds of a path. */
  lemma {:induction false} PathInduction<S(!new), L(!new)>(step: (S, L, S) -> bool, holds: (S, seq<L>) -> bool, w: S, ls: seq<L>, v: S)
    requires Path(step, w, ls, v) && holds(v, [])
    requires forall s, l, n, rest :: step(s, l, n) && holds(n, rest) ==> holds(s, [l] + rest)
    ensures holds(w, ls)
    decreases |ls|
  {
    if ls != [] {
      var n := FirstStep(step, w, ls, v);
      PathInduction(step, holds, n, ls[1..], v);
      assert [ls[0]] + ls[1..] == ls;
    }
  }

  /** `v` is reached from `w` without a forgetting step. */
  ghost predicate Reaches(w: World, v: World) {
    Linked(Steps, w, v)
  }

  lemma ReachesNext(w: World, v: World, l: Label, u: World)
    requires Reaches(w, v) && Steps(v, l, u)
    ensures Reaches(w, u)
  {
    LinkedNext(Steps, w, v, l, u);
  }

  ghost predicate TracedIfGood(w: World, ls: seq<Label>, v: World) {
    Inv(w) ==> Traced(w, ls, v)
  }

  lemma Chained(w: World, l: Label, n: World, rest: seq<Label>, v: World)
    requires Steps(w, l, n) && TracedIfGood(n, rest, v)
    ensures TracedIfGood(w, [l] + rest, v)
  {
    if Inv(w) {
      NextKeeps(w, l);
      TracedThen(w, l, n, rest, v);
    }
  }

  lemma TracedNone(v: World)
    ensures TracedIfGood(v, [], v)
  {
  }

  lemma PathTraced(w: World, ls: seq<Label>, v: World)
    requires Path(Steps, w, ls, v)
    ensures TracedIfGood(w, ls, v)
  {
    forall s, l, n, rest | Steps(s, l, n) && TracedIfGood(n, rest, v) ensures TracedIfGood(s, [l] + rest, v) {
      Chained(s, l, n, rest, v);
    }
    TracedNone(v);
    PathInduction(Steps, (s, rest) => TracedIfGood(s, rest, v), w, ls, v);
  }

  lemma ReachesTraced(w: World, v: World)
    requires w == Start(1, 0, map[]) && Reaches(w, v)
    ensures exists ls :: Traced(w, ls, v)
    ensures Inv(v)
  {
    StartSound(1, 0, map[]);
    var ls :| Path(Steps, w, ls, v);
    PathTraced(w, ls, v);
    TraceKeeps(w, ls);
  }

  // ---------- the steps ----------

  lemma ConnectStep(w: World, v: World)
    requires w == Start(1, 0, map[]) && v == w.(sys := w.sys.(clients := map[CLIENT := NO_MAPPINGS]))
    requires Good(w.sys.m)
    ensures Steps(w, CallStep(Connect(CLIENT)), v)
  {
    assert Next(w, CallStep(Connect(CLIENT))).k == w.k;
  }

  lemma AllocResult(m: Manager)
    requires m == Manager(Init(1, 0, map[]), map[], map[])
    ensures AllocateRegion(m, 0, 2 * PAGE_SIZE, true, ALLOC.a) == (At(2, Hole, BEGUN, Idle).sys.m, Ok)
  {
    GrowStep();
  }

  lemma AllocStep(w: World, c: World, v: World)
    requires w == Start(1, 0, map[]) && c == w.(sys := w.sys.(clients := map[CLIENT := NO_MAPPINGS]))
    requires v == At(2, Hole, Kernel(map[], {}, {}), Idle) && Good(c.sys.m)
    ensures Steps(c, CallStep(ALLOC), v)
  {
    AllocResult(c.sys.m);
    assert Placed(PAGE_SIZE, 2 * PAGE_SIZE);
    CallUnmapped(c, ALLOC, v);
  }

  lemma LookupStart(m: Manager)
    requires Good(m) && m.index == map[PAGE_SIZE := 0] && m.regions == map[0 := CmRegion(PAGE_SIZE, 2 * PAGE_SIZE, SEGMENT, 1)]
    ensures Lookup(m, PAGE_SIZE) == Some((0, 0)) && Inside(m, 0, PAGE_SIZE) && PageAt(0, 0) == PAGE0
    ensures Lookup(m, 3 * PAGE_SIZE) == Some((0, 2 * PAGE_SIZE))
  {
    assert PAGE_SIZE in m.index;
  }

  lemma FaultStep(a: World, i: nat, page: Page, k: Kernel, kind: Kind, write: bool)
    requires a == At(i, page, k, Idle) && Good(a.sys.m) && !kind.WriteProtect? && k.blocked == {}
    ensures Steps(a, FaultBegin(PAGE_SIZE, kind, write), At(i, page, k.(blocked := {SEGMENT}), Blocked(PAGE0, kind, write)))
  {
    LookupStart(a.sys.m);
    assert k.blocked + {SEGMENT} == {SEGMENT};
  }

  lemma WorkStep(b: World, v: World)
    requires b == At(2, Hole, BEGUN, Blocked(PAGE0, Major, true)) && v == At(0, FileFill, MAPPED, Unfixed(PAGE0, false))
    requires Good(b.sys.m)
    ensures Steps(b, Advance, v)
  {
    WorkResult(b);
  }

  lemma WorkResult(b: World)
    requires b == At(2, Hole, BEGUN, Blocked(PAGE0, Major, true)) && Good(b.sys.m)
    ensures Work(b) == At(0, FileFill, MAPPED, Unfixed(PAGE0, false)) && !PteAt(PagerOf(b).regions, PAGE0).Present?
  {
    FirstFault(PagerOf(b));
    MapFirst(None);
  }

  lemma FirstFault(p: Pager)
    requires p == TwoPages(2, Hole) && Valid(p)
    ensures PteAt(p.regions, PAGE0) == Swapped(0) && Unfix(p, PAGE0, true) == TwoPages(0, FileFill)
    ensures Evicted(p, PAGE0) == None
  {
    GrowStep();
    WriteStep(0);
    FaultInReady(p, PAGE0);
  }

  lemma MapFirst(evicted: Option<PageRef>)
    ensures evicted.None? ==> MapFresh(BEGUN, PAGE0, evicted) == MAPPED
  {
    if evicted.None? {
      var k := MapFresh(BEGUN, PAGE0, evicted);
      assert k.prot == MAPPED.prot && k.held == MAPPED.held;
    }
  }

  /** What is left of the fault once the page is mapped: register, settle, unblock, wake. */
  lemma RestSteps(u: World, page: Page)
    requires u == At(0, page, MAPPED, Unfixed(PAGE0, false)) && Good(u.sys.m)
    ensures Steps(u, Advance, u.(phase := Registered(PAGE0, false)))
    ensures Steps(u.(phase := Registered(PAGE0, false)), Advance, u.(phase := Settled(PAGE0)))
    ensures Steps(u.(phase := Settled(PAGE0)), Advance, At(0, page, MAPPED.(blocked := {}), Unblocked(PAGE0)))
    ensures Steps(At(0, page, MAPPED.(blocked := {}), Unblocked(PAGE0)), Advance, At(0, page, MAPPED.(blocked := {}), Idle))
  {
    assert MAPPED.blocked - {SEGMENT} == {};
  }

  lemma StoreSteps(s: World, f: World, v: World)
    requires s == At(0, FileFill, MAPPED.(blocked := {}), Idle) && Good(s.sys.m)
    requires f == s.(k := s.k.(held := {PAGE0})) && v == At(0, Data(7), f.k, Idle)
    ensures Steps(s, Fetch(PAGE0), f) && Steps(f, ClientStore(PAGE0, Data(7)), v)
  {
    assert s.k.held + {PAGE0} == {PAGE0};
  }

  // ---------- the interleaving ----------

  lemma Allocated(w: World, v: World)
    requires w == Start(1, 0, map[]) && v == At(2, Hole, Kernel(map[], {}, {}), Idle)
    ensures Reaches(w, v)
  {
    var c := w.(sys := w.sys.(clients := map[CLIENT := NO_MAPPINGS]));
    StartSound(1, 0, map[]);
    assert Path(Steps, w, [], w);
    ConnectStep(w, c);
    ReachesNext(w, w, CallStep(Connect(CLIENT)), c);
    AllocStep(w, c, v);
    ReachesNext(w, c, CallStep(ALLOC), v);
  }

  lemma Served(w: World, v: World)
    requires w == Start(1, 0, map[]) && v == At(0, FileFill, MAPPED.(blocked := {}), Idle)
    ensures Reaches(w, v)
  {
    var a, b := At(2, Hole, Kernel(map[], {}, {}), Idle), At(2, Hole, BEGUN, Blocked(PAGE0, Major, true));
    Allocated(w, a);
    ReachesTraced(w, a);
    FaultStep(a, 2, Hole, a.k, Major, true);
    ReachesNext(w, a, FaultBegin(PAGE_SIZE, Major, true), b);
    var u := At(0, FileFill, MAPPED, Unfixed(PAGE0, false));
    WorkStep(b, u);
    ReachesNext(w, b, Advance, u);
    ReachesTraced(w, u);
    ServedRest(w, u, v);
  }

  lemma ServedRest(w: World, u: World, v: World)
    requires Reaches(w, u) && Good(u.sys.m)
    requires u == At(0, FileFill, MAPPED, Unfixed(PAGE0, false)) && v == At(0, FileFill, MAPPED.(blocked := {}), Idle)
    ensures Reaches(w, v)
  {
    RestSteps(u, FileFill);
    var r, t, n := u.(phase := Registered(PAGE0, false)), u.(phase := Settled(PAGE0)), v.(phase := Unblocked(PAGE0));
    ReachesNext(w, u, Advance, r);
    ReachesNext(w, r, Advance, t);
    ReachesNext(w, t, Advance, n);
    ReachesNext(w, n, Advance, v);
  }

  lemma Stored(w: World, v: World)
    requires w == Start(1, 0, map[]) && v == At(0, Data(7), Kernel(MAPPED.prot, {}, {PAGE0}), Idle)
    ensures Reaches(w, v)
  {
    var s := At(0, FileFill, MAPPED.(blocked := {}), Idle);
    var f := s.(k := s.k.(held := {PAGE0}));
    Served(w, s);
    ReachesTraced(w, s);
    StoreSteps(s, f, v);
    ReachesNext(w, s, Fetch(PAGE0), f);
    ReachesNext(w, f, ClientStore(PAGE0, Data(7)), v);
  }

  // ---------- what it shows ----------

  /** The forgetting step comes up: a client allocates a region, writes its first page, and a
      read fault queued for that page is handled afterwards. Dirty tracking is sound before
      the step and unsound after it. */
  lemma ForgettingRun(w: World, v: World)
    requires w == Start(1, 0, map[])
    requires v == At(0, Data(7), Kernel(MAPPED.prot, {SEGMENT}, {PAGE0}), Blocked(PAGE0, Major, false))
    ensures (exists ls :: Traced(w, ls, v)) && Inv(v) && Forgets(v)
    ensures !Sound(PagerOf(Work(v)), Work(v).k, Pending(Work(v).phase))
  {
    var s := At(0, Data(7), Kernel(MAPPED.prot, {}, {PAGE0}), Idle);
    Stored(w, s);
    ReachesTraced(w, s);
    FaultStep(s, 0, Data(7), s.k, Major, false);
    ReachesNext(w, s, FaultBegin(PAGE_SIZE, Major, false), v);
    ReachesTraced(w, v);
    WorkRewritesIff(v);
  }

  const BEHIND: nat := 3 * PAGE_SIZE
  const SECOND := AllocCall(CLIENT, 1, 1, PAGE_SIZE, true, Answers(None, Some(BEHIND), Some(SEGMENT + 1)))

  /** The client has a second region of one page, right behind the first. */
  function Both(): World {
    var w := At(2, Hole, Kernel(map[], {}, {}), Idle);
    var p := PagerOf(w);
    World(System(Manager(p.(regions := p.regions[1 := Region(BEHIND, PAGE_SIZE, [Swapped(0)], true, false)],
                            files := p.files[1 := [FileFill]]),
                         w.sys.m.regions[1 := CmRegion(BEHIND, PAGE_SIZE, SEGMENT + 1, 1)],
                         map[PAGE_SIZE := 0, BEHIND := 1]),
                 map[CLIENT := map[0 := 0, 1 := 1]]), w.k, Idle)
  }

  lemma SecondResult(m: Manager)
    requires m == At(2, Hole, BEGUN, Idle).sys.m
    ensures AllocateRegion(m, 1, PAGE_SIZE, true, SECOND.a) == (Both().sys.m, Ok)
  {
    assert PAGE_SIZE / PAGE_SIZE == 1;
    assert NewPtes(1, true) == [Swapped(0)] && seq(1, _ => FileFill) == [FileFill];
    assert m.index[BEHIND := 1] == Both().sys.m.index;
  }

  lemma SecondStep(v: World)
    requires v == At(2, Hole, Kernel(map[], {}, {}), Idle) && Good(v.sys.m)
    ensures Steps(v, CallStep(SECOND), Both())
  {
    assert Placed(BEHIND, PAGE_SIZE);
    SecondDone(v.sys);
    CallUnmapped(v, SECOND, Both());
  }

  lemma SecondDone(s: System)
    requires s == At(2, Hole, BEGUN, Idle).sys && Valid(s.m.pager) && Allowed(s, SECOND)
    ensures Do(s, SECOND) == Both().sys
  {
    SecondResult(s.m);
    assert s.clients[CLIENT][1 := 1] == map[0 := 0, 1 := 1];
  }

  lemma FreeSecond(p: Pager)
    requires p == PagerOf(Both())
    ensures Free(p, 1) == TwoPages(2, Hole)
  {
    var t := ReleaseAll(p, 1, 1);
    assert ReleaseAll(p, 1, 0) == p;
    assert t == p.(regions := t.regions);
    assert t.regions - {1} == TwoPages(2, Hole).regions;
    assert t.files - {1} == TwoPages(2, Hole).files;
  }

  lemma UnmapStep(v: World)
    requires v == At(2, Hole, Kernel(map[], {}, {}), Idle) && Good(Both().sys.m)
    ensures Steps(Both(), CallStep(UnmapCall(CLIENT, 1, {})), v)
  {
    UnmapDone(Both().sys);
    CallUnmapped(Both(), UnmapCall(CLIENT, 1, {}), v);
  }

  lemma UnmapDone(s: System)
    requires s == Both().sys && Valid(s.m.pager)
    ensures Do(s, UnmapCall(CLIENT, 1, {})) == At(2, Hole, BEGUN, Idle).sys
  {
    UnmapResult(s.m);
    assert s.clients[CLIENT] - {1} == map[0 := 0];
  }

  lemma UnmapResult(m: Manager)
    requires m == Both().sys.m
    ensures UnmapRegion(m, 1, true) == (At(2, Hole, BEGUN, Idle).sys.m, Ok)
  {
    var n := At(2, Hole, BEGUN, Idle).sys.m;
    FreeSecond(m.pager);
    assert m.regions - {1} == n.regions && m.index - {BEHIND} == n.index;
  }

  /** A call while no page is mapped changes only the tables. */
  lemma CallUnmapped(v: World, c: Call, u: World)
    requires Good(v.sys.m) && v.phase.Idle? && v.k == Kernel(map[], {}, {}) && Allowed(v.sys, c) && !c.PersistCall?
    requires u == World(Do(v.sys, c), v.k, Idle)
    ensures Steps(v, CallStep(c), u)
  {
    assert Next(v, CallStep(c)).k == v.k;
  }

  /** A fault outlives its region: an access to the second region raises a fault, the region is
      unmapped before the fault is handled, and its address is then looked up as the offset of
      the first region's end. */
  lemma PastEndRun(w: World, v: World)
    requires w == Start(1, 0, map[]) && v == At(2, Hole, Kernel(map[], {}, {}), Idle)
    ensures (exists ls :: Traced(w, ls, Both())) && Good(Both().sys.m)
    ensures Inside(Both().sys.m, 1, BEHIND) && CanStep(Both(), FaultBegin(BEHIND, Major, false))
    ensures Steps(Both(), CallStep(UnmapCall(CLIENT, 1, {})), v) && Good(v.sys.m)
    ensures Lookup(v.sys.m, BEHIND) == Some((0, v.sys.m.regions[0].size))
  {
    Allocated(w, v);
    ReachesTraced(w, v);
    LookupStart(v.sys.m);
    SecondStep(v);
    ReachesNext(w, v, CallStep(SECOND), Both());
    ReachesTraced(w, Both());
    LookupFinds(Both().sys.m, BEHIND, 1);
    UnmapStep(v);
  }

  /** The client maps its region once more at the address it already uses, and unmaps that
      address: no client has an entry for the region any more, but it is still counted. */
  lemma OverwriteRun(w: World, v: World, a: Answers, stuck: set<Id>)
    requires w == Start(1, 0, map[]) && v == At(2, Hole, Kernel(map[], {}, {}), Idle)
    requires a == Answers(None, None, None)
    ensures (exists ls :: Traced(w, ls, v)) && Good(v.sys.m) && Allowed(v.sys, MapCall(CLIENT, 0, 0, a))
    ensures Overwrites(v.sys, MapCall(CLIENT, 0, 0, a))
    ensures var s := Do(v.sys, MapCall(CLIENT, 0, 0, a));
            Good(s.m) && Allowed(s, UnmapCall(CLIENT, 0, stuck)) &&
            var t := Do(s, UnmapCall(CLIENT, 0, stuck));
            t.clients == map[CLIENT := map[]] && 0 in t.m.regions && t.m.regions[0].mapcount == 1
  {
    Allocated(w, v);
    ReachesTraced(w, v);
    OverwriteEffect(v.sys, a, stuck);
  }

  lemma OverwriteEffect(s: System, a: Answers, stuck: set<Id>)
    requires s == At(2, Hole, BEGUN, Idle).sys && Good(s.m) && a == Answers(None, None, None)
    ensures Allowed(s, MapCall(CLIENT, 0, 0, a)) && Overwrites(s, MapCall(CLIENT, 0, 0, a))
    ensures var t := Do(s, MapCall(CLIENT, 0, 0, a));
            Good(t.m) && Allowed(t, UnmapCall(CLIENT, 0, stuck)) &&
            var u := Do(t, UnmapCall(CLIENT, 0, stuck));
            u.clients == map[CLIENT := map[]] && 0 in u.m.regions && u.m.regions[0].mapcount == 1
  {
    DoGood(s, MapCall(CLIENT, 0, 0, a));
    Overwritten(s, a, stuck);
  }

  lemma Overwritten(s: System, a: Answers, stuck: set<Id>)
    requires Valid(s.m.pager) && 0 in s.m.regions && s.m.regions[0].mapcount == 1 && s.clients == map[CLIENT := map[0 := 0]]
    ensures HandleMap(s.clients[CLIENT], s.m, 0, 0, a).0 == map[0 := 0]
    ensures var (c, m, e) := HandleMap(s.clients[CLIENT], s.m, 0, 0, a); var (d, n, f) := HandleUnmap(c, m, 0, stuck);
            e == Ok && f == Ok && d == map[] && 0 in n.regions && n.regions[0].mapcount == 1
  {
    assert map[0 := 0] - {0} == map[];
  }
}
