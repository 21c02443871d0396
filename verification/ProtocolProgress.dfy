/** An access completes after at most two handled faults, if its page is neither mapped nor evicted
    between raising the second and handling it. */
module ProtocolProgress {
  import opened Common
  import opened PagerState
  import opened PagerOps
  import opened PagerFaults
  import opened PagerAccess
  import opened PagerRuns
  import opened ManagerState
  import opened AddressIndex
  import opened Clients
  import opened Survival
  import opened FaultProtocol
  import opened ProtocolSafety
  import opened Interleavings
  import opened ProtocolSteps

  // ---------- the page after one fault ----------

  /** What one handled fault does to the page: it maps a missing page (writable for a write),
      leaves a resident page as it is, or unprotects a resident page. */
  lemma HandledPage(w: World, q: PageRef, kind: Kind, write: bool)
    requires Good(w.sys.m) && MappedOk(PagerOf(w), w.k) && HasPage(PagerOf(w).regions, q) && q.id in w.sys.m.regions
    ensures var k := Handled(w, q, kind, write).k;
            if kind.WriteProtect? then
              if q in w.k.prot then q in k.prot && k.prot[q] == Writable else q !in k.prot
            else if q in w.k.prot then q in k.prot && k.prot[q] == w.k.prot[q]
            else q in k.prot && (write ==> k.prot[q] == Writable)
  {
  }

  // ---------- what is blocked ----------

  /** Client faults are blocked for the segment in hand (or for what persist takes for it), and
      for nothing while the lock is free. */
  predicate BlocksOnly(w: World) {
    match w.phase
    case Idle => w.k.blocked == {}
    case Unblocked(_) => w.k.blocked == {}
    case Persisting(id, _, _, _) => w.k.blocked == {id}
    case Persisted(id) => w.k.blocked == {id}
    case _ => w.phase.q.id in w.sys.m.regions && w.k.blocked == {SegmentOf(w, w.phase.q.id)}
  }

  lemma BeginBlocks(w: World, l: Label)
    requires Good(w.sys.m) && BlocksOnly(w) && CanStep(w, l) && Ranged(w, l) && !l.Advance?
    ensures BlocksOnly(Begin(w, l))
  {
  }

  lemma WorkBlocks(w: World)
    requires Good(w.sys.m) && w.phase.Blocked? && CanAdvance(w)
    ensures var t := Work(w);
            && t.k.blocked == w.k.blocked && t.sys.m.regions == w.sys.m.regions
            && (t.phase.Unfixed? || t.phase.Marked?) && t.phase.q == w.phase.q
  {
  }

  lemma AdvanceBlocks(w: World)
    requires Good(w.sys.m) && BlocksOnly(w) && CanAdvance(w)
    ensures BlocksOnly(Advanced(w))
  {
    if w.phase.Blocked? {
      WorkBlocks(w);
    }
  }

  lemma {:induction false} CourseBlocks(w: World, ls: seq<Label>)
    requires Steady(w) && Course(w, ls) && BlocksOnly(w)
    ensures BlocksOnly(End(w, ls))
    decreases |ls|
  {
    if ls != [] {
      NextSteady(w, ls[0]);
      if ls[0].Advance? {
        AdvanceBlocks(w);
      } else {
        BeginBlocks(w, ls[0]);
      }
      CourseBlocks(Next(w, ls[0]), ls[1..]);
    }
  }

  // ---------- steps that leave a page alone ----------

  /** The work of a fault maps `q`, which was missing, or evicts it. */
  ghost predicate AdvanceMoves(w: World, q: PageRef)
    requires Good(w.sys.m) && CanAdvance(w)
  {
    && w.phase.Blocked? && !w.phase.kind.WriteProtect? && !PteAt(PagerOf(w).regions, w.phase.q).Present?
    && (w.phase.q == q || Evicted(PagerOf(w), w.phase.q) == Some(q))
  }

  /** The step maps `q`, evicts it, or takes its region from the client manager. */
  ghost predicate Moves(w: World, l: Label, q: PageRef)
    requires Good(w.sys.m) && Ranged(w, l)
  {
    if l.Advance? then AdvanceMoves(w, q) else l.CallStep? && q.id !in MakeCall(w, l.c).sys.m.regions
  }

  /** The step sets the protection of `q`: at the end of a fault on it, or for persist. */
  predicate Protects(w: World, l: Label, q: PageRef) {
    l.Advance? &&
    match w.phase
    case Registered(x, _) => x == q
    case Marked(x, _) => x == q
    case Persisting(id, off, size, done) => done < size && PageAt(id, off + done) == q
    case _ => false
  }

  ghost predicate Known(w: World, q: PageRef) {
    q.id in w.sys.m.regions && HasPage(PagerOf(w).regions, q)
  }

  /** Page `q` of a known region, mapped if and only if it was. */
  ghost predicate SamePresence(w: World, t: World, q: PageRef) {
    Known(t, q) && (q in t.k.prot <==> q in w.k.prot)
  }

  /** And protected as it was. */
  ghost predicate SameAccess(w: World, t: World, q: PageRef) {
    SamePresence(w, t, q) && (q in w.k.prot ==> t.k.prot[q] == w.k.prot[q])
  }

  lemma CallLeaves(w: World, c: Call, q: PageRef)
    requires Good(w.sys.m) && Allowed(w.sys, c) && !c.PersistCall? && Known(w, q)
    ensures q.id in MakeCall(w, c).sys.m.regions ==> SameAccess(w, MakeCall(w, c), q)
  {
    DoGood(w.sys, c);
    DoCarries(w.sys, c);
    if q.id in Do(w.sys, c).m.regions {
      assert q.id in Do(w.sys, c).m.pager.regions;
      assert SamePage(PagerOf(w), Do(w.sys, c).m.pager, q);
    }
  }

  lemma BeginLeaves(w: World, l: Label, q: PageRef)
    requires Good(w.sys.m) && CanStep(w, l) && Ranged(w, l) && !l.Advance? && Known(w, q)
    ensures if Moves(w, l, q) then !SamePresence(w, Begin(w, l), q) else SameAccess(w, Begin(w, l), q)
  {
    match l
    case CallStep(c) => CallLeaves(w, c, q);
    case _ =>
  }

  lemma WorkKeepsPages(w: World)
    requires Good(w.sys.m) && w.phase.Blocked? && CanAdvance(w)
    ensures Work(w).sys.m.regions == w.sys.m.regions
    ensures forall x :: HasPage(PagerOf(Work(w)).regions, x) <==> HasPage(PagerOf(w).regions, x)
  {
    WorkParts(w);
    WorkedPages(PagerOf(w), w.phase.q, w.phase.kind, w.phase.write);
  }

  lemma WorkParts(w: World)
    requires Good(w.sys.m) && w.phase.Blocked? && CanAdvance(w)
    ensures Work(w).sys == w.sys.(m := w.sys.m.(pager := Worked(PagerOf(w), w.phase.q, w.phase.kind, w.phase.write)))
  {
  }

  lemma WorkedPages(p: Pager, q: PageRef, kind: Kind, write: bool)
    requires Valid(p) && HasPage(p.regions, q)
    ensures forall x :: HasPage(Worked(p, q, kind, write).regions, x) <==> HasPage(p.regions, x)
  {
    if kind.WriteProtect? {
      MarkDirtyTransparent(p, q);
    } else {
      UnfixTransparent(p, q, write);
    }
  }

  /** A victim was resident, and is not the page brought in. */
  lemma VictimPresent(p: Pager, q: PageRef)
    requires Valid(p) && HasPage(p.regions, q) && !PteAt(p.regions, q).Present?
    ensures Evicted(p, q).Some? ==> PteAt(p.regions, Evicted(p, q).value).Present? && Evicted(p, q).value != q
  {
    FaultInReady(p, q);
    if Evicted(p, q).Some? {
      var r := ReleaseSlot(p, q);
      assert Victim(r) in r.used;
    }
  }

  lemma WorkKeepsAccess(w: World, q: PageRef)
    requires Good(w.sys.m) && MappedOk(PagerOf(w), w.k) && w.phase.Blocked? && CanAdvance(w)
    ensures var k := Work(w).k;
            if AdvanceMoves(w, q) then (q in k.prot <==> q !in w.k.prot)
            else (q in k.prot <==> q in w.k.prot) && (q in w.k.prot ==> k.prot[q] == w.k.prot[q])
  {
    if !w.phase.kind.WriteProtect? && !PteAt(PagerOf(w).regions, w.phase.q).Present? {
      VictimPresent(PagerOf(w), w.phase.q);
    }
  }

  lemma WorkLeaves(w: World, q: PageRef)
    requires Good(w.sys.m) && MappedOk(PagerOf(w), w.k) && w.phase.Blocked? && CanAdvance(w) && Known(w, q)
    ensures if AdvanceMoves(w, q) then !SamePresence(w, Work(w), q) else SameAccess(w, Work(w), q)
  {
    WorkKeepsPages(w);
    WorkKeepsAccess(w, q);
  }

  lemma CopyLeaves(w: World, q: PageRef)
    requires Good(w.sys.m) && w.phase.Persisting? && CanAdvance(w) && Known(w, q)
    ensures SameAccess(w, CopyOut(w), q)
  {
    PersistSame(PagerOf(w), w.phase.id, w.phase.off, w.phase.size);
    CopyParts(w);
  }

  lemma AdjustLeaves(w: World, q: PageRef)
    requires (w.phase.Registered? || w.phase.Marked?) && Known(w, q)
    ensures SamePresence(w, Adjust(w), q) && (w.phase.q != q ==> SameAccess(w, Adjust(w), q))
  {
  }

  lemma PersistLeaves(w: World, q: PageRef)
    requires Good(w.sys.m) && w.phase.Persisting? && CanAdvance(w) && Known(w, q)
    ensures SamePresence(w, Advanced(w), q) && (!Protects(w, Advance, q) ==> SameAccess(w, Advanced(w), q))
  {
    if w.phase.done >= w.phase.size {
      CopyLeaves(w, q);
    }
  }

  lemma AdvanceLeaves(w: World, q: PageRef)
    requires Good(w.sys.m) && MappedOk(PagerOf(w), w.k) && CanAdvance(w) && Known(w, q)
    ensures SamePresence(w, Advanced(w), q) <==> !AdvanceMoves(w, q)
    ensures !AdvanceMoves(w, q) && !Protects(w, Advance, q) ==> SameAccess(w, Advanced(w), q)
  {
    match w.phase
    case Blocked(_, _, _) => WorkLeaves(w, q);
    case Persisting(_, _, _, _) => PersistLeaves(w, q);
    case Registered(_, _) => AdjustLeaves(w, q);
    case Marked(_, _) => AdjustLeaves(w, q);
    case _ =>
  }

  /** A page stays as mapped as it was exactly if the step does not move it, and as protected if
      the step does not protect it either. */
  lemma NextLeaves(w: World, l: Label, q: PageRef)
    requires Good(w.sys.m) && MappedOk(PagerOf(w), w.k) && CanStep(w, l) && Ranged(w, l) && Known(w, q)
    ensures SamePresence(w, Next(w, l), q) <==> !Moves(w, l, q)
    ensures !Moves(w, l, q) && !Protects(w, l, q) ==> SameAccess(w, Next(w, l), q)
  {
    if l.Advance? {
      AdvanceLeaves(w, q);
    } else {
      BeginLeaves(w, l, q);
    }
  }

  /** No step along the way moves `q`. */
  ghost predicate Unmoved(w: World, ls: seq<Label>, q: PageRef)
    requires Steady(w) && Course(w, ls)
    decreases |ls|
  {
    ls == [] || (NextSteady(w, ls[0]); !Moves(w, ls[0], q) && Unmoved(Next(w, ls[0]), ls[1..], q))
  }

  /** No step along the way moves or protects `q`. */
  ghost predicate Undisturbed(w: World, ls: seq<Label>, q: PageRef)
    requires Steady(w) && Course(w, ls)
    decreases |ls|
  {
    ls == [] || (NextSteady(w, ls[0]);
      !Moves(w, ls[0], q) && !Protects(w, ls[0], q) && Undisturbed(Next(w, ls[0]), ls[1..], q))
  }

  /** Over every interleaving that does not move it, a page is mapped if and only if it was. */
  lemma {:induction false} UnmovedKeeps(w: World, ls: seq<Label>, q: PageRef)
    requires Steady(w) && Course(w, ls) && Unmoved(w, ls, q) && Known(w, q)
    ensures SamePresence(w, End(w, ls), q)
    decreases |ls|
  {
    if ls != [] {
      NextSteady(w, ls[0]);
      NextLeaves(w, ls[0], q);
      UnmovedKeeps(Next(w, ls[0]), ls[1..], q);
    }
  }

  lemma SameAccessChain(w: World, t: World, u: World, q: PageRef)
    requires SameAccess(w, t, q) && SameAccess(t, u, q)
    ensures SameAccess(w, u, q)
  {
  }

  /** Over every interleaving that does not disturb it, a page is mapped and protected as it was. */
  lemma {:induction false} UndisturbedKeeps(w: World, ls: seq<Label>, q: PageRef)
    requires Steady(w) && Course(w, ls) && Undisturbed(w, ls, q) && Known(w, q)
    ensures SameAccess(w, End(w, ls), q)
    decreases |ls|
  {
    if ls != [] {
      NextSteady(w, ls[0]);
      NextLeaves(w, ls[0], q);
      UndisturbedKeeps(Next(w, ls[0]), ls[1..], q);
      SameAccessChain(w, Next(w, ls[0]), End(w, ls), q);
    }
  }

  // ---------- progress ----------

  /** A client can take the steps of its access to `q`: fetch the entry and, for a write, store
      any value through it. */
  ghost predicate CanAccess(w: World, q: PageRef, write: bool)
    requires Good(w.sys.m)
  {
    CanStep(w, Fetch(q)) && (write ==> forall v :: CanStep(Next(w, Fetch(q)), ClientStore(q, v)))
  }

  /** The kernel lets the access through. */
  predicate Granted(k: Kernel, q: PageRef, write: bool) {
    q in k.prot && (write ==> k.prot[q] == Writable)
  }

  lemma AccessIffGranted(w: World, q: PageRef, write: bool)
    requires Good(w.sys.m) && q.id in w.sys.m.regions && w.k.blocked == {}
    ensures CanAccess(w, q, write) <==> Granted(w.k, q, write)
  {
    if CanAccess(w, q, write) && write {
      assert CanStep(Next(w, Fetch(q)), ClientStore(q, Fresh));
    }
  }

  lemma WorkedGood(m: Manager, q: PageRef, kind: Kind, write: bool)
    requires Good(m) && HasPage(m.pager.regions, q)
    ensures var t := Worked(m.pager, q, kind, write); Good(m.(pager := t)) && HasPage(t.regions, q)
  {
    var p := m.pager;
    if kind.WriteProtect? {
      MarkDirtyTransparent(p, q);
      MarkShape(p, q);
    } else {
      UnfixTransparent(p, q, write);
      UnfixShape(p, q, write);
    }
    TablesSameShape(m, Worked(p, q, kind, write));
  }

  lemma HandledIdle(w: World, q: PageRef, kind: Kind, write: bool)
    requires Good(w.sys.m) && HasPage(PagerOf(w).regions, q) && q.id in w.sys.m.regions && w.k.blocked == {}
    ensures var h := Handled(w, q, kind, write);
            Good(h.sys.m) && h.sys.m.regions == w.sys.m.regions && HasPage(PagerOf(h).regions, q)
            && h.k.blocked == {} && h.phase.Idle?
  {
    HandledParts(w, q, kind, write);
    assert {SegmentOf(w, q.id)} - {SegmentOf(w, q.id)} == {};
    WorkedGood(w.sys.m, q, kind, write);
  }

  lemma MarkShape(p: Pager, q: PageRef)
    requires Valid(p) && HasPage(p.regions, q)
    ensures SameShape(p, MarkDirty(p, q))
  {
  }

  /** The first address of page `q`. */
  function PageStart(m: Manager, q: PageRef): nat
    requires q.id in m.regions
  {
    m.regions[q.id].addr + q.off * PAGE_SIZE
  }

  lemma PageStartInside(m: Manager, q: PageRef)
    requires Good(m) && q.id in m.regions && HasPage(m.pager.regions, q)
    ensures Inside(m, q.id, PageStart(m, q)) && Lookup(m, PageStart(m, q)) == Some((q.id, q.off * PAGE_SIZE))
    ensures PageAt(q.id, q.off * PAGE_SIZE) == q
  {
    PageOffset(q.off, |m.pager.regions[q.id].ptes|);
    KnownSize(m, q.id);
    LookupFinds(m, PageStart(m, q), q.id);
  }

  lemma KnownSize(m: Manager, id: Id)
    requires Good(m) && id in m.regions
    ensures id in m.pager.regions && m.regions[id].size == |m.pager.regions[id].ptes| * PAGE_SIZE
  {
  }

  lemma PageOffset(i: nat, n: nat)
    requires i < n
    ensures i * PAGE_SIZE / PAGE_SIZE == i && i * PAGE_SIZE < n * PAGE_SIZE
  {
  }

  /** A fault of kind `kind` can still complete the access: a write-protect fault if the page is
      mapped, any other unless it would have to unprotect the page. */
  predicate Completes(k: Kernel, q: PageRef, kind: Kind, write: bool) {
    if kind.WriteProtect? then q in k.prot else q !in k.prot || Granted(k, q, write)
  }

  /** Exactly when handling a fault, fresh or stale, lets the access through. */
  lemma HandledAccessIff(w: World, q: PageRef, kind: Kind, write: bool)
    requires Good(w.sys.m) && MappedOk(PagerOf(w), w.k) && w.k.blocked == {} && Known(w, q)
    requires kind.WriteProtect? ==> write
    ensures var h := Handled(w, q, kind, write);
            Good(h.sys.m) && Known(h, q) && h.k.blocked == {} && h.phase.Idle?
            && (CanAccess(h, q, write) <==> Completes(w.k, q, kind, write))
  {
    HandledIdle(w, q, kind, write);
    HandledPage(w, q, kind, write);
    AccessIffGranted(Handled(w, q, kind, write), q, write);
  }

  lemma CanRaise(u: World, q: PageRef, kind: Kind, write: bool)
    requires Good(u.sys.m) && u.phase.Idle? && Known(u, q)
    requires kind.WriteProtect? ==> write
    ensures CanStep(u, FaultBegin(PageStart(u.sys.m, q), kind, write))
  {
    PageStartInside(u.sys.m, q);
  }

  /** Handling a fault is a course of the protocol, whatever it forgets. */
  lemma HandledSteady(w: World, q: PageRef, kind: Kind, write: bool)
    requires Steady(w) && w.phase.Idle? && Known(w, q) && (kind.WriteProtect? ==> write)
    ensures Steady(Handled(w, q, kind, write))
  {
    PageStartInside(w.sys.m, q);
    CanRaise(w, q, kind, write);
    HandledBySteps(w, PageStart(w.sys.m, q), kind, write);
    CourseSteady(w, [FaultBegin(PageStart(w.sys.m, q), kind, write)] + Advances(if kind.WriteProtect? then 4 else 5));
  }

  /** The access to `q` is not let through in `v`, and raises a fault of kind `kind`: for
      write-protection if the page is mapped, for a missing page if not. */
  ghost predicate Raises(v: World, q: PageRef, kind: Kind, write: bool) {
    Known(v, q) && !Granted(v.k, q, write) && (kind.WriteProtect? <==> q in v.k.prot)
  }

  /** A fault raised in `v` and handled after `ls` lets the access through. */
  ghost predicate Serves(v: World, ls: seq<Label>, q: PageRef, kind: Kind, write: bool)
    requires Steady(v) && Course(v, ls)
  {
    var u := End(v, ls);
    && Good(u.sys.m) && Known(u, q) && CanStep(u, FaultBegin(PageStart(u.sys.m, q), kind, write))
    && Good(Handled(u, q, kind, write).sys.m) && CanAccess(Handled(u, q, kind, write), q, write)
  }

  /** A fault serves the access that raised it, if the page is neither mapped nor evicted, and its
      region not removed, before the fault is handled. Persists that write-protect the page and
      other faults on it do no harm. */
  lemma RaisedServes(v: World, ls: seq<Label>, q: PageRef, kind: Kind, write: bool)
    requires Steady(v) && BlocksOnly(v) && Raises(v, q, kind, write)
    requires Course(v, ls) && Unmoved(v, ls, q) && End(v, ls).phase.Idle?
    ensures Serves(v, ls, q, kind, write)
  {
    var u := End(v, ls);
    CourseSteady(v, ls);
    CourseBlocks(v, ls);
    UnmovedKeeps(v, ls, q);
    CanRaise(u, q, kind, write);
    HandledAccessIff(u, q, kind, write);
  }

  /** After any interleaving `ls`, if the access raises a fault and its page is not moved over
      `more`, handling the fault then lets the access through. */
  ghost predicate SecondServes(h: World, q: PageRef, write: bool, ls: seq<Label>, again: Kind, more: seq<Label>)
    requires Steady(h)
  {
    Course(h, ls) ==> (CourseSteady(h, ls);
      var v := End(h, ls);
      Raises(v, q, again, write) && Course(v, more) && Unmoved(v, more, q) && End(v, more).phase.Idle? ==>
        Serves(v, more, q, again, write))
  }

  lemma SecondFault(h: World, q: PageRef, write: bool, ls: seq<Label>, again: Kind, more: seq<Label>)
    requires Steady(h) && BlocksOnly(h)
    ensures SecondServes(h, q, write, ls, again, more)
  {
    if Course(h, ls) {
      var v := End(h, ls);
      CourseSteady(h, ls);
      CourseBlocks(h, ls);
      if Raises(v, q, again, write) && Course(v, more) && Unmoved(v, more, q) && End(v, more).phase.Idle? {
        RaisedServes(v, more, q, again, write);
      }
    }
  }

  /** Fault progress. A client's access to `q` raised some fault, possibly long ago, and it is
      handled now. A read can then go through at once; so can a write, exactly unless the fault
      was for write-protection of a page evicted since, or for a missing page that has become
      resident read-only. In that case the write faults again, after whatever happens in between,
      and the second fault serves it if the page is not moved before it is handled. */
  lemma FaultProgress(w: World, q: PageRef, stale: Kind, write: bool, ls: seq<Label>, again: Kind, more: seq<Label>)
    requires Steady(w) && BlocksOnly(w) && w.phase.Idle? && Known(w, q) && (stale.WriteProtect? ==> write)
    ensures var h := Handled(w, q, stale, write);
            && Steady(h) && h.phase.Idle? && Known(h, q)
            && (CanAccess(h, q, write) <==> Completes(w.k, q, stale, write)) && (!write ==> CanAccess(h, q, write))
            && SecondServes(h, q, write, ls, again, more)
  {
    HandledAccessIff(w, q, stale, write);
    HandledSteady(w, q, stale, write);
    SecondFault(Handled(w, q, stale, write), q, write, ls, again, more);
  }

  /** An access that can go through can still go through after any interleaving that does not
      disturb its page, whenever the lock is free. */
  lemma AccessStays(w: World, q: PageRef, write: bool, ls: seq<Label>)
    requires Steady(w) && BlocksOnly(w) && w.phase.Idle? && Known(w, q) && CanAccess(w, q, write)
    requires Course(w, ls) && Undisturbed(w, ls, q) && End(w, ls).phase.Idle?
    ensures Steady(End(w, ls)) && CanAccess(End(w, ls), q, write)
  {
    AccessIffGranted(w, q, write);
    CourseSteady(w, ls);
    CourseBlocks(w, ls);
    UndisturbedKeeps(w, ls, q);
    AccessIffGranted(End(w, ls), q, write);
  }

  /** Progress in every reachable state: whatever steps were taken since the manager started,
      forgetting ones included, once the lock is free and a fault on a page of a known region is
      handled, the access completes as above. */
  lemma AccessProgress(nrRam: nat, nrSwap: nat, files: Files, before: seq<Label>, q: PageRef, stale: Kind, write: bool,
                       ls: seq<Label>, again: Kind, more: seq<Label>)
    requires nrRam >= 1 && (stale.WriteProtect? ==> write)
    requires (StartSteady(nrRam, nrSwap, files); Course(Start(nrRam, nrSwap, files), before))
    requires var w := (StartSteady(nrRam, nrSwap, files); End(Start(nrRam, nrSwap, files), before));
             w.phase.Idle? && Known(w, q)
    ensures Steady(Start(nrRam, nrSwap, files)) && Steady(End(Start(nrRam, nrSwap, files), before))
    ensures var w := End(Start(nrRam, nrSwap, files), before); var h := Handled(w, q, stale, write);
            && Steady(h) && h.phase.Idle? && Known(h, q)
            && (CanAccess(h, q, write) <==> Completes(w.k, q, stale, write)) && (!write ==> CanAccess(h, q, write))
            && SecondServes(h, q, write, ls, again, more)
  {
    var s := Start(nrRam, nrSwap, files);
    StartSteady(nrRam, nrSwap, files);
    CourseSteady(s, before);
    CourseBlocks(s, before);
    FaultProgress(End(s, before), q, stale, write, ls, again, more);
  }
}
