/** Every interleaving of clients, calls, faults and persists, steps that forget a dirty bit
    included: what holds between any two steps, and exactly when dirty tracking is lost. */
module Interleavings {
  import opened Common
  import opened PagerState
  import opened PagerOps
  import opened PagerFaults
  import opened PagerAccess
  import opened PagerRuns
  import opened ManagerState
  import opened Clients
  import opened Survival
  import opened FaultProtocol
  import opened ProtocolSafety

  /** The invariant without what it says about dirty bits. */
  ghost predicate Steady(w: World) {
    Base(w.sys) && MappedOk(PagerOf(w), w.k) && Orderly(w)
  }

  lemma SteadyRanged(w: World, l: Label)
    requires Steady(w) && CanStep(w, l)
    ensures Ranged(w, l)
  {
  }

  // ---------- the work of a fault ----------

  lemma SameMapped(p: Pager, t: Pager, k: Kernel)
    requires MappedOk(p, k) && t.regions == p.regions
    ensures MappedOk(t, k)
  {
  }

  lemma FreshMapped(p: Pager, t: Pager, k: Kernel, q: PageRef, v: Option<PageRef>)
    requires MappedOk(p, k) && v != Some(q) && PteAt(t.regions, q).Present?
    requires v.Some? ==> !PteAt(t.regions, v.value).Present?
    requires forall x :: x != q && v != Some(x) ==> PteAt(t.regions, x) == PteAt(p.regions, x)
    ensures MappedOk(t, MapFresh(k, q, v))
  {
  }

  lemma MarkSteady(w: World)
    requires Steady(w) && w.phase.Blocked? && w.phase.kind.WriteProtect?
    ensures Steady(Work(w))
  {
    var p, q := PagerOf(w), w.phase.q;
    MarkDirtyTransparent(p, q);
    MarkSame(p, q);
    BaseKept(w.sys, MarkDirty(p, q));
    SameMapped(p, MarkDirty(p, q), w.k);
    MarkOrder(w);
  }

  lemma MarkSame(p: Pager, q: PageRef)
    requires Valid(p) && HasPage(p.regions, q)
    ensures SameShape(p, MarkDirty(p, q)) && MarkDirty(p, q).regions == p.regions
  {
  }

  lemma RewriteSteady(w: World)
    requires Steady(w) && w.phase.Blocked? && !w.phase.kind.WriteProtect? && PteAt(PagerOf(w).regions, w.phase.q).Present?
    ensures Steady(Work(w))
  {
    var p, q := PagerOf(w), w.phase.q;
    UnfixTransparent(p, q, w.phase.write);
    UnfixShape(p, q, w.phase.write);
    BaseKept(w.sys, Unfix(p, q, w.phase.write));
    SameMapped(p, Unfix(p, q, w.phase.write), w.k);
    RewriteOrder(w);
  }

  lemma MapSteady(w: World)
    requires Steady(w) && w.phase.Blocked? && !w.phase.kind.WriteProtect? && !PteAt(PagerOf(w).regions, w.phase.q).Present?
    ensures Steady(Work(w))
  {
    var p, q := PagerOf(w), w.phase.q;
    var t := Unfix(p, q, w.phase.write);
    UnfixTransparent(p, q, w.phase.write);
    UnfixShape(p, q, w.phase.write);
    FaultInResidents(p, q, w.phase.write);
    FreshMapped(p, t, w.k, q, Evicted(p, q));
    BaseKept(w.sys, t);
    OrderKept(w, Work(w));
  }

  lemma WorkSteady(w: World)
    requires Steady(w) && w.phase.Blocked?
    ensures Steady(Work(w))
  {
    if w.phase.kind.WriteProtect? {
      MarkSteady(w);
    } else if PteAt(PagerOf(w).regions, w.phase.q).Present? {
      RewriteSteady(w);
    } else {
      MapSteady(w);
    }
  }

  // ---------- the other steps ----------

  /** A step that changes neither tables nor pager has only the kernel's side to keep. */
  lemma KernelSteady(w: World, t: World)
    requires Base(w.sys) && t.sys == w.sys && MappedOk(PagerOf(w), t.k) && Orderly(t)
    ensures Steady(t)
  {
  }

  lemma FetchMapped(p: Pager, k: Kernel, q: PageRef)
    requires MappedOk(p, k) && q in k.prot
    ensures MappedOk(p, k.(held := k.held + {q}))
  {
  }

  lemma FetchSteady(w: World, q: PageRef)
    requires Steady(w) && Reachable(w, q)
    ensures Steady(Next(w, Fetch(q)))
  {
    FetchOrder(w, q);
    FetchMapped(PagerOf(w), w.k, q);
    KernelSteady(w, w.(k := w.k.(held := w.k.held + {q})));
  }

  lemma StoreSteady(w: World, q: PageRef, v: Page)
    requires Steady(w) && PteAt(PagerOf(w).regions, q).Present?
    ensures Steady(StoreThrough(w, q, v))
  {
    var p := PagerOf(w);
    StoreHits(p, q, v);
    BaseKept(w.sys, Store(p, q, v));
    SameMapped(p, Store(p, q, v), w.k);
    StoreOrder(w, q, v);
  }

  lemma ForgetMapped(p: Pager, n: Pager, k: Kernel, m: Manager)
    requires MappedOk(p, k) && Carries(p, n) && m.pager == n
    ensures MappedOk(n, Forget(k, m))
  {
    var f := Forget(k, m);
    forall x ensures x in f.prot <==> PteAt(n.regions, x).Present? {
      if x.id in p.regions && x.id in n.regions {
        assert SamePage(p, n, x);
      }
    }
  }

  lemma CallSteady(w: World, c: Call)
    requires Steady(w) && Allowed(w.sys, c) && !c.PersistCall?
    ensures Steady(MakeCall(w, c))
  {
    DoGood(w.sys, c);
    DoCounts(w.sys, c);
    DoCarries(w.sys, c);
    ForgetMapped(PagerOf(w), Do(w.sys, c).m.pager, w.k, Do(w.sys, c).m);
  }

  lemma BeginSteady(w: World, l: Label)
    requires Steady(w) && CanStep(w, l) && !l.Advance?
    ensures Ranged(w, l) && Steady(Begin(w, l))
  {
    SteadyRanged(w, l);
    match l
    case Fetch(q) => FetchSteady(w, q);
    case ClientStore(q, v) => StoreSteady(w, q, v);
    case CallStep(c) => CallSteady(w, c);
    case FaultBegin(addr, kind, write) => BeginFaultSteady(w, addr, kind, write);
    case PersistBegin(pid, addr, off, size) => BeginPersistSteady(w, pid, addr, off, size);
  }

  lemma BeginFaultSteady(w: World, addr: nat, kind: Kind, write: bool)
    requires Steady(w) && CanStep(w, FaultBegin(addr, kind, write))
    ensures Steady(BeginFault(w, addr, kind, write))
  {
    BeginFaultOrder(w, addr, kind, write);
    KernelSteady(w, BeginFault(w, addr, kind, write));
  }

  lemma BeginPersistSteady(w: World, pid: Pid, addr: nat, off: nat, size: nat)
    requires Steady(w) && w.phase.Idle? && pid in w.sys.clients
    ensures Steady(BeginPersist(w, pid, addr, off, size))
  {
    BeginPersistOrder(w, pid, addr, off, size);
    KernelSteady(w, BeginPersist(w, pid, addr, off, size));
  }

  lemma ProtectMapped(p: Pager, k: Kernel, q: PageRef, prot: Prot)
    requires MappedOk(p, k)
    ensures MappedOk(p, Protect(k, q, prot))
  {
  }

  lemma AdjustOrder(w: World)
    requires Orderly(w) && (w.phase.Registered? || w.phase.Marked?)
    ensures Orderly(Adjust(w)) && Adjust(w).sys == w.sys
  {
  }

  lemma AdjustSteady(w: World)
    requires Steady(w) && (w.phase.Registered? || w.phase.Marked?)
    ensures Steady(Adjust(w))
  {
    ProtectMapped(PagerOf(w), w.k, w.phase.q, ReadOnly);
    ProtectMapped(PagerOf(w), w.k, w.phase.q, Writable);
    AdjustOrder(w);
    KernelSteady(w, Adjust(w));
  }

  lemma ProtectOneSteady(w: World)
    requires Steady(w) && w.phase.Persisting? && w.phase.done < w.phase.size
    ensures Steady(ProtectOne(w))
  {
    ProtectMapped(PagerOf(w), w.k, PageAt(w.phase.id, w.phase.off + w.phase.done), ReadOnly);
    ProtectOneOrder(w);
    KernelSteady(w, ProtectOne(w));
  }

  lemma CopySteady(w: World)
    requires Steady(w) && w.phase.Persisting? && CanPersist(PagerOf(w), w.phase.id, w.phase.off, w.phase.size) == Ok
    ensures Steady(CopyOut(w))
  {
    var p, id, off, size := PagerOf(w), w.phase.id, w.phase.off, w.phase.size;
    PersistSame(p, id, off, size);
    BaseKept(w.sys, Persist(p, id, off, size));
    SameMapped(p, Persist(p, id, off, size), w.k);
    CopyOrder(w);
    CopyParts(w);
  }

  lemma PersistSame(p: Pager, id: Id, off: nat, size: nat)
    requires Valid(p) && CanPersist(p, id, off, size) == Ok
    ensures var t := Persist(p, id, off, size); Valid(t) && t.regions == p.regions && SameShape(p, t)
  {
    CanPersistPages(p, id, off, size);
    PersistRangeKeeps(p, id, off / PAGE_SIZE, size / PAGE_SIZE);
    PersistRangeShape(p, id, off / PAGE_SIZE, size / PAGE_SIZE);
  }

  predicate Quiet(f: Phase) {
    f.Unfixed? || f.Settled? || f.Unblocked? || f.Persisted?
  }

  lemma QuietOrder(w: World)
    requires Good(w.sys.m) && Orderly(w) && Quiet(w.phase)
    ensures CanAdvance(w) && Orderly(Advanced(w)) && Advanced(w).sys == w.sys
    ensures Advanced(w).k.prot == w.k.prot && Advanced(w).k.held == w.k.held
  {
  }

  lemma QuietSteady(w: World)
    requires Steady(w) && Quiet(w.phase)
    ensures CanAdvance(w) && Steady(Advanced(w))
  {
    QuietOrder(w);
    KernelSteady(w, Advanced(w));
  }

  lemma AdvanceSteady(w: World)
    requires Steady(w) && !w.phase.Idle?
    ensures CanAdvance(w) && Steady(Advanced(w))
  {
    SteadyRanged(w, Advance);
    match w.phase
    case Blocked(_, _, _) => WorkSteady(w);
    case Registered(_, _) => AdjustSteady(w);
    case Marked(_, _) => AdjustSteady(w);
    case Persisting(_, _, size, done) => if done < size { ProtectOneSteady(w); } else { CopySteady(w); }
    case _ => QuietSteady(w);
  }

  // ---------- courses ----------

  /** Every step, forgetting or not, keeps it. */
  lemma NextSteady(w: World, l: Label)
    requires Steady(w) && CanStep(w, l)
    ensures Ranged(w, l) && Steady(Next(w, l))
  {
    if l.Advance? {
      AdvanceSteady(w);
    } else {
      BeginSteady(w, l);
    }
  }

  /** A sequence of steps that can be taken from `w`. */
  ghost predicate Course(w: World, ls: seq<Label>)
    requires Steady(w)
    decreases |ls|
  {
    ls == [] || (CanStep(w, ls[0]) && (NextSteady(w, ls[0]); Course(Next(w, ls[0]), ls[1..])))
  }

  ghost function End(w: World, ls: seq<Label>): World
    requires Steady(w) && Course(w, ls)
    decreases |ls|
  {
    if ls == [] then w else NextSteady(w, ls[0]); End(Next(w, ls[0]), ls[1..])
  }

  lemma CourseThen(w: World, l: Label, ls: seq<Label>)
    requires Steady(w) && CanStep(w, l) && Ranged(w, l) && Steady(Next(w, l)) && Course(Next(w, l), ls)
    ensures Course(w, [l] + ls) && End(w, [l] + ls) == End(Next(w, l), ls)
  {
    assert ([l] + ls)[1..] == ls;
  }

  lemma CourseRest(w: World, ls: seq<Label>)
    requires Steady(w) && Course(w, ls) && ls != []
    ensures CanStep(w, ls[0]) && Ranged(w, ls[0]) && Steady(Next(w, ls[0])) && Course(Next(w, ls[0]), ls[1..])
  {
    NextSteady(w, ls[0]);
  }

  lemma {:induction false} CourseSteady(w: World, ls: seq<Label>)
    requires Steady(w) && Course(w, ls)
    ensures Steady(End(w, ls))
    decreases |ls|
  {
    if ls != [] {
      NextSteady(w, ls[0]);
      CourseSteady(Next(w, ls[0]), ls[1..]);
    }
  }

  lemma StartSteady(nrRam: nat, nrSwap: nat, files: Files)
    requires nrRam >= 1
    ensures Steady(Start(nrRam, nrSwap, files))
  {
    StartSound(nrRam, nrSwap, files);
  }

  // ---------- exactly when dirty tracking stays sound ----------

  /** The whole invariant holds in every state along the way. */
  ghost predicate TracksThroughout(w: World, ls: seq<Label>)
    requires Steady(w) && Course(w, ls)
    decreases |ls|
  {
    Inv(w) && (ls == [] || (NextSteady(w, ls[0]); TracksThroughout(Next(w, ls[0]), ls[1..])))
  }

  /** No step along the way forgets. */
  ghost predicate NoneForgets(w: World, ls: seq<Label>)
    requires Steady(w) && Course(w, ls)
    decreases |ls|
  {
    ls == [] || (!(ls[0].Advance? && Forgets(w)) && (NextSteady(w, ls[0]); NoneForgets(Next(w, ls[0]), ls[1..])))
  }

  lemma NoneForgetsThen(w: World, ls: seq<Label>)
    requires Steady(w) && Course(w, ls) && ls != [] && !(ls[0].Advance? && Forgets(w))
    requires Ranged(w, ls[0]) && Steady(Next(w, ls[0])) && Course(Next(w, ls[0]), ls[1..]) && NoneForgets(Next(w, ls[0]), ls[1..])
    ensures NoneForgets(w, ls)
  {
  }

  /** One step keeps the whole invariant exactly when it does not forget. */
  lemma NextTracksIff(w: World, l: Label)
    requires Inv(w) && CanStep(w, l)
    ensures Ranged(w, l) && (Inv(Next(w, l)) <==> !(l.Advance? && Forgets(w)))
  {
    StepRanged(w, l);
    if l.Advance? && Forgets(w) {
      WorkRewritesIff(w);
    } else {
      NextKeeps(w, l);
    }
  }

  /** Over every interleaving, dirty tracking is sound in all states exactly when no step forgets. */
  lemma {:induction false} TracksIff(w: World, ls: seq<Label>)
    requires Steady(w) && Inv(w) && Course(w, ls)
    ensures TracksThroughout(w, ls) <==> NoneForgets(w, ls)
    decreases |ls|
  {
    if ls != [] {
      NextSteady(w, ls[0]);
      NextTracksIff(w, ls[0]);
      if !(ls[0].Advance? && Forgets(w)) {
        TracksIff(Next(w, ls[0]), ls[1..]);
      }
    }
  }

  /** Traces are the courses in which no step forgets. */
  lemma {:induction false} TraceIff(w: World, ls: seq<Label>)
    requires Inv(w) && Steady(w)
    ensures Trace(w, ls) <==> Course(w, ls) && NoneForgets(w, ls)
    ensures Trace(w, ls) ==> After(w, ls) == End(w, ls)
    decreases |ls|
  {
    if ls != [] && CanStep(w, ls[0]) && !(ls[0].Advance? && Forgets(w)) {
      NextSteady(w, ls[0]);
      NextKeeps(w, ls[0]);
      TraceIff(Next(w, ls[0]), ls[1..]);
    }
  }
}
