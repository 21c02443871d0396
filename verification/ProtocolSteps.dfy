/** A fault and a persist request, each handled from lock to wake-up, as steps of the protocol. */
module ProtocolSteps {
  import opened Common
  import opened PagerState
  import opened PagerOps
  import opened PagerFaults
  import opened PagerAccess
  import opened ManagerState
  import opened AddressIndex
  import opened Clients
  import opened FaultProtocol
  import opened ProtocolSafety
  import opened Interleavings

  // ---------- one fault from beginning to end ----------

  /** The lock is taken and the segment of page `q` blocked. */
  function Begun(w: World, q: PageRef, kind: Kind, write: bool): World
    requires q.id in w.sys.m.regions
  {
    w.(k := w.k.(blocked := w.k.blocked + {SegmentOf(w, q.id)}), phase := Blocked(q, kind, write))
  }

  /** Handle a fault on page `q` from lock to wake-up. */
  ghost function Handled(w: World, q: PageRef, kind: Kind, write: bool): World
    requires Good(w.sys.m) && HasPage(PagerOf(w).regions, q) && q.id in w.sys.m.regions
  {
    var u := Work(Begun(w, q, kind, write));
    var a := if u.phase.Unfixed? then Adjust(u.(phase := Registered(q, u.phase.protect))) else Adjust(u);
    Unblock(a).(phase := Idle)
  }

  /** The pager's part of handling a fault. */
  function Worked(p: Pager, q: PageRef, kind: Kind, write: bool): Pager
    requires Valid(p) && HasPage(p.regions, q)
  {
    if kind.WriteProtect? then MarkDirty(p, q) else Unfix(p, q, write)
  }

  /** The kernel after a page was unfixed: a fresh mapping, write-protected if it is clean. */
  function MissingServed(p: Pager, k: Kernel, q: PageRef, write: bool): Kernel
    requires Valid(p) && HasPage(p.regions, q)
  {
    if PteAt(p.regions, q).Present? then k
    else
      var f := MapFresh(k, q, Evicted(p, q));
      if !write && !PteAt(p.regions, q).Untouched? then Protect(f, q, ReadOnly) else f
  }

  /** The kernel after a page was marked dirty: writable, if it is resident. */
  function ProtectedServed(p: Pager, k: Kernel, q: PageRef): Kernel {
    if PteAt(p.regions, q).Present? then Protect(k, q, Writable) else k
  }

  lemma HandledKernel(w: World, q: PageRef, kind: Kind, write: bool)
    requires Good(w.sys.m) && HasPage(PagerOf(w).regions, q) && q.id in w.sys.m.regions
    ensures var b := w.k.(blocked := w.k.blocked + {SegmentOf(w, q.id)});
            var t := if kind.WriteProtect? then ProtectedServed(PagerOf(w), b, q) else MissingServed(PagerOf(w), b, q, write);
            Handled(w, q, kind, write).k == t.(blocked := t.blocked - {SegmentOf(w, q.id)})
  {
  }

  lemma HandledParts(w: World, q: PageRef, kind: Kind, write: bool)
    requires Good(w.sys.m) && HasPage(PagerOf(w).regions, q) && q.id in w.sys.m.regions
    ensures var h := Handled(w, q, kind, write);
            && h.sys == w.sys.(m := w.sys.m.(pager := Worked(PagerOf(w), q, kind, write))) && h.phase.Idle?
            && h.k.blocked == w.k.blocked + {SegmentOf(w, q.id)} - {SegmentOf(w, q.id)}
  {
  }

  function Advances(n: nat): (ls: seq<Label>)
    ensures |ls| == n
  {
    if n == 0 then [] else [Advance] + Advances(n - 1)
  }

  lemma OneAdvance(w: World, n: nat)
    requires Steady(w) && !w.phase.Idle?
    requires (AdvanceSteady(w); Course(Advanced(w), Advances(n)))
    ensures Course(w, Advances(n + 1)) && CanAdvance(w) && Steady(Advanced(w))
    ensures End(w, Advances(n + 1)) == End(Advanced(w), Advances(n))
  {
    AdvanceSteady(w);
    CourseThen(w, Advance, Advances(n));
  }

  lemma LastTwo(w: World)
    requires Steady(w) && w.phase.Settled?
    ensures Course(w, Advances(2)) && w.phase.q.id in w.sys.m.regions && End(w, Advances(2)) == Unblock(w).(phase := Idle)
  {
    AdvanceSteady(w);
    LastOne(Advanced(w));
    OneAdvance(w, 1);
  }

  lemma LastOne(w: World)
    requires Steady(w) && w.phase.Unblocked?
    ensures Course(w, Advances(1)) && End(w, Advances(1)) == w.(phase := Idle)
  {
    AdvanceSteady(w);
    assert Advanced(w) == w.(phase := Idle);
    NoAdvance(Advanced(w));
    OneAdvance(w, 0);
  }

  lemma NoAdvance(w: World)
    requires Steady(w)
    ensures Course(w, Advances(0)) && End(w, Advances(0)) == w
  {
  }

  lemma LastThree(w: World)
    requires Steady(w) && (w.phase.Registered? || w.phase.Marked?)
    ensures Course(w, Advances(3)) && Adjust(w).phase.q.id in w.sys.m.regions
    ensures End(w, Advances(3)) == Unblock(Adjust(w)).(phase := Idle)
  {
    AdvanceSteady(w);
    LastTwo(Advanced(w));
    OneAdvance(w, 2);
  }

  lemma MarkedBySteps(b: World)
    requires Steady(b) && b.phase.Blocked? && b.phase.kind.WriteProtect?
    ensures Course(b, Advances(4)) && Adjust(Work(b)).phase.q.id in b.sys.m.regions
    ensures End(b, Advances(4)) == Unblock(Adjust(Work(b))).(phase := Idle)
  {
    AdvanceSteady(b);
    LastThree(Advanced(b));
    OneAdvance(b, 3);
  }

  lemma UnfixedBySteps(b: World)
    requires Steady(b) && b.phase.Blocked? && !b.phase.kind.WriteProtect?
    ensures var u := Work(b); u.phase.Unfixed? && Course(b, Advances(5)) && u.phase.q.id in u.sys.m.regions
    ensures var u := Work(b); End(b, Advances(5)) == Unblock(Adjust(u.(phase := Registered(u.phase.q, u.phase.protect)))).(phase := Idle)
  {
    AdvanceSteady(b);
    var u := Advanced(b);
    AdvanceSteady(u);
    LastThree(Advanced(u));
    OneAdvance(u, 3);
    OneAdvance(b, 4);
  }

  /** Handling a fault is taking the lock and advancing step by step until it is free again. */
  lemma HandledBySteps(w: World, addr: nat, kind: Kind, write: bool)
    requires Steady(w) && CanStep(w, FaultBegin(addr, kind, write)) && Lookup(w.sys.m, addr).Some?
    ensures var (id, off) := Lookup(w.sys.m, addr).value; var q := PageAt(id, off);
            var ls := [FaultBegin(addr, kind, write)] + Advances(if kind.WriteProtect? then 4 else 5);
            && HasPage(PagerOf(w).regions, q) && id in w.sys.m.regions
            && Course(w, ls) && End(w, ls) == Handled(w, q, kind, write)
    ensures var ls := [FaultBegin(addr, kind, write)] + Advances(if kind.WriteProtect? then 4 else 5);
            Ranged(w, FaultBegin(addr, kind, write)) && (Inv(w) && !Forgets(Next(w, FaultBegin(addr, kind, write))) ==> Trace(w, ls))
  {
    var l := FaultBegin(addr, kind, write);
    var (id, off) := Lookup(w.sys.m, addr).value;
    var q := PageAt(id, off);
    FaultedPage(w.sys.m, addr);
    NextSteady(w, l);
    assert Next(w, l) == Begun(w, q, kind, write);
    HandledGoesOn(w, q, kind, write);
    var n := if kind.WriteProtect? then 4 else 5;
    BeginThen(w, l, Begun(w, q, kind, write), n, Handled(w, q, kind, write));
    if Inv(w) && !Forgets(Begun(w, q, kind, write)) {
      BeginTraced(w, l, n);
    }
  }

  lemma NotBlockedNext(w: World)
    requires Good(w.sys.m) && CanAdvance(w)
    ensures !Advanced(w).phase.Blocked?
  {
  }

  /** `n` advances can be taken from `w`. */
  ghost predicate Going(w: World, n: nat) {
    Steady(w) && Course(w, Advances(n))
  }

  ghost predicate GoingOn(w: World, n: nat) {
    Going(w, n) && !w.phase.Blocked?
  }

  ghost predicate Remembers(w: World, n: nat) {
    Going(w, n) && NoneForgets(w, Advances(n))
  }

  ghost function AdvanceAny(w: World): World {
    if Good(w.sys.m) && CanAdvance(w) then Advanced(w) else w
  }

  lemma GoingNext(w: World, n: nat) returns (u: World)
    requires n > 0 && Going(w, n)
    ensures u == AdvanceAny(w) && GoingOn(u, n - 1)
  {
    CourseRest(w, Advances(n));
    assert Advances(n)[0] == Advance && Advances(n)[1..] == Advances(n - 1);
    NotBlockedNext(w);
    u := AdvanceAny(w);
  }

  lemma RemembersNext(w: World, n: nat)
    requires n > 0 && Going(w, n) && !Forgets(w) && Remembers(AdvanceAny(w), n - 1)
    ensures Remembers(w, n)
  {
    CourseRest(w, Advances(n));
    assert Advances(n)[0] == Advance && Advances(n)[1..] == Advances(n - 1);
    NoneForgetsThen(w, Advances(n));
  }

  /** Only the work of a fault can forget. */
  lemma AdvancesRemember(w: World, n: nat)
    requires GoingOn(w, n)
    ensures Remembers(w, n)
  {
    forall u, k: nat | k > 0 && GoingOn(u, k)
      ensures GoingOn(AdvanceAny(u), k - 1) && (Remembers(AdvanceAny(u), k - 1) ==> Remembers(u, k))
    {
      var v := GoingNext(u, k);
      if Remembers(AdvanceAny(u), k - 1) {
        RemembersNext(u, k);
      }
    }
    CountDown(GoingOn, AdvanceAny, Remembers, w, n);
  }

  lemma WorkRemembers(b: World, n: nat)
    requires Going(b, n) && !Forgets(b)
    ensures Remembers(b, n)
  {
    if n > 0 {
      var u := GoingNext(b, n);
      AdvancesRemember(u, n - 1);
      RemembersNext(b, n);
    } else {
      NothingForgotten(b);
    }
  }

  lemma NothingForgotten(w: World)
    requires Going(w, 0)
    ensures Remembers(w, 0)
  {
  }

  lemma BeginTraced(w: World, l: Label, n: nat)
    requires Inv(w) && Steady(w) && !l.Advance? && Course(w, [l] + Advances(n)) && Ranged(w, l) && !Forgets(Next(w, l))
    ensures Trace(w, [l] + Advances(n))
  {
    assert ([l] + Advances(n))[0] == l && ([l] + Advances(n))[1..] == Advances(n);
    NextSteady(w, l);
    WorkRemembers(Next(w, l), n);
    TraceIff(w, [l] + Advances(n));
  }

  lemma HandledGoesOn(w: World, q: PageRef, kind: Kind, write: bool)
    requires Good(w.sys.m) && HasPage(PagerOf(w).regions, q) && q.id in w.sys.m.regions
    requires Steady(Begun(w, q, kind, write))
    ensures AdvancesTo(Begun(w, q, kind, write), if kind.WriteProtect? then 4 else 5, Handled(w, q, kind, write))
  {
    if kind.WriteProtect? {
      MarkedBySteps(Begun(w, q, kind, write));
    } else {
      UnfixedBySteps(Begun(w, q, kind, write));
    }
  }

  // ---------- one persist from beginning to end ----------

  lemma ProtectedNone(k: Kernel, id: Id, i: nat)
    ensures ProtectedRange(k, id, i, i) == k
  {
    assert ProtectedRange(k, id, i, i).prot == k.prot;
  }

  lemma ProtectedNext(k: Kernel, id: Id, i: nat, n: nat)
    requires i <= n
    ensures Protect(ProtectedRange(k, id, i, n), PageRef(id, n), ReadOnly) == ProtectedRange(k, id, i, n + 1)
  {
    assert Protect(ProtectedRange(k, id, i, n), PageRef(id, n), ReadOnly).prot == ProtectedRange(k, id, i, n + 1).prot;
  }

  lemma ProtectedFirst(k: Kernel, id: Id, i: nat, n: nat)
    requires i < n
    ensures ProtectedRange(Protect(k, PageRef(id, i), ReadOnly), id, i + 1, n) == ProtectedRange(k, id, i, n)
  {
    assert ProtectedRange(Protect(k, PageRef(id, i), ReadOnly), id, i + 1, n).prot == ProtectedRange(k, id, i, n).prot;
  }

  /** An accepted persist request from lock to reply: its range read-only, its pages copied. */
  ghost function PersistHandled(w: World, id: Id, off: nat, size: nat): World
    requires Good(w.sys.m) && CanPersist(PagerOf(w), id, off, size) == Ok
  {
    WithPager(w, Persist(PagerOf(w), id, off, size))
      .(k := RangeDone(w.k, id, off / PAGE_SIZE, (off + size) / PAGE_SIZE), phase := Idle)
  }

  /** The kernel once the rest of the range is protected and the block lifted. */
  function RangeDone(k: Kernel, id: Id, i: nat, n: nat): Kernel {
    var t := ProtectedRange(k, id, i, n);
    t.(blocked := t.blocked - {id})
  }

  /** The persist in hand will leave the pager `t`. */
  ghost predicate WillCopy(w: World, t: Pager) {
    && w.phase.Persisting? && Valid(PagerOf(w)) && CanPersist(PagerOf(w), w.phase.id, w.phase.off, w.phase.size) == Ok
    && Persist(PagerOf(w), w.phase.id, w.phase.off, w.phase.size) == t
  }

  /** It has `n` more pages to protect, and will leave the kernel `k`. */
  ghost predicate WillProtect(w: World, n: nat, k: Kernel) {
    && w.phase.Persisting? && w.phase.done + n * PAGE_SIZE == w.phase.size
    && w.phase.off % PAGE_SIZE == 0 && w.phase.size % PAGE_SIZE == 0 && w.phase.done % PAGE_SIZE == 0
    && k == RangeDone(w.k, w.phase.id, (w.phase.off + w.phase.done) / PAGE_SIZE, (w.phase.off + w.phase.size) / PAGE_SIZE)
  }

  /** `w` with the pager `t` and the kernel `k`, and the lock free. */
  function Finished(w: World, t: Pager, k: Kernel): World {
    WithPager(w, t).(k := k, phase := Idle)
  }

  /** `n` advances lead from `w` to `v`. */
  ghost predicate AdvancesTo(w: World, n: nat, v: World) {
    Steady(w) && Course(w, Advances(n)) && End(w, Advances(n)) == v
  }

  ghost predicate AdvanceOnce(w: World, u: World) {
    Steady(w) && !w.phase.Idle? && CanAdvance(w) && Advanced(w) == u
  }

  lemma AdvanceThen(w: World, u: World, n: nat, v: World)
    requires AdvanceOnce(w, u) && AdvancesTo(u, n, v)
    ensures AdvancesTo(w, n + 1, v)
  {
    OneAdvance(w, n);
  }

  lemma CopyMoves(w: World, t: Pager, k: Kernel)
    requires Good(w.sys.m) && WillCopy(w, t) && WillProtect(w, 0, k)
    ensures CanAdvance(w) && Advanced(w) == WithPager(w, t).(phase := Persisted(w.phase.id))
    ensures w.k.(blocked := w.k.blocked - {w.phase.id}) == k
  {
    ProtectedNone(w.k, w.phase.id, (w.phase.off + w.phase.size) / PAGE_SIZE);
  }

  lemma CopyBySteps(w: World, t: Pager, k: Kernel)
    requires Steady(w) && WillCopy(w, t) && WillProtect(w, 0, k)
    ensures AdvancesTo(w, 2, Finished(w, t, k))
  {
    var v, u := Finished(w, t, k), WithPager(w, t).(phase := Persisted(w.phase.id));
    CopyMoves(w, t, k);
    StepsOn(w, u);
    StepsOn(u, v);
    assert AdvancesTo(v, 0, v);
    AdvanceThen(u, v, 0, v);
    AdvanceThen(w, u, 1, v);
  }

  /** Advancing a persist keeps the invariant. */
  lemma StepsOn(w: World, u: World)
    requires Steady(w) && (w.phase.Persisting? || w.phase.Persisted?) && CanAdvance(w) && Advanced(w) == u
    ensures AdvanceOnce(w, u) && Steady(u)
  {
    AdvanceSteady(w);
  }

  lemma RangeFirst(k: Kernel, id: Id, off: nat, size: nat, done: nat)
    requires off % PAGE_SIZE == 0 && size % PAGE_SIZE == 0 && done % PAGE_SIZE == 0 && done < size
    ensures var e := (off + size) / PAGE_SIZE;
            RangeDone(Protect(k, PageAt(id, off + done), ReadOnly), id, (off + (done + PAGE_SIZE)) / PAGE_SIZE, e)
            == RangeDone(k, id, (off + done) / PAGE_SIZE, e)
  {
    StepOfPage(off, size, done);
    assert off + (done + PAGE_SIZE) == off + done + PAGE_SIZE;
    assert (off + done + PAGE_SIZE) / PAGE_SIZE <= (off + size) / PAGE_SIZE;
    ProtectedFirst(k, id, (off + done) / PAGE_SIZE, (off + size) / PAGE_SIZE);
  }

  lemma ProtectMoves(w: World, n: nat, k: Kernel)
    requires WillProtect(w, n + 1, k)
    ensures w.phase.done < w.phase.size && WillProtect(ProtectOne(w), n, k)
  {
    var id, off, size, done := w.phase.id, w.phase.off, w.phase.size, w.phase.done;
    assert n * PAGE_SIZE + PAGE_SIZE == (n + 1) * PAGE_SIZE;
    StepOfPage(off, size, done);
    RangeFirst(w.k, id, off, size, done);
  }

  lemma CopyWaits(w: World, t: Pager, k: Kernel)
    requires Good(w.sys.m) && WillCopy(w, t) && w.phase.done < w.phase.size
    ensures CanAdvance(w) && Advanced(w) == ProtectOne(w)
    ensures WillCopy(ProtectOne(w), t) && Finished(ProtectOne(w), t, k) == Finished(w, t, k)
  {
  }

  /** A persist in hand with `n` pages to protect, which will leave `v`. */
  ghost predicate Protecting(w: World, n: nat, v: World) {
    Steady(w) && WillLeave(w, n, v)
  }

  ghost predicate WillLeave(w: World, n: nat, v: World) {
    WillCopy(w, PagerOf(v)) && WillProtect(w, n, v.k) && Finished(w, PagerOf(v), v.k) == v
  }

  function ProtectAny(w: World): World {
    if w.phase.Persisting? then ProtectOne(w) else w
  }

  lemma ProtectNext(w: World, n: nat, v: World)
    requires n > 0 && Protecting(w, n, v)
    ensures Protecting(ProtectAny(w), n - 1, v) && AdvanceOnce(w, ProtectAny(w))
  {
    ProtectMoves(w, n - 1, v.k);
    CopyWaits(w, PagerOf(v), v.k);
    StepsOn(w, ProtectOne(w));
  }

  /** Once `n` pages are protected, two more advances lead to `v`. */
  ghost predicate CopiesAfter(w: World, n: nat, v: World) {
    AdvancesTo(w, n + 2, v)
  }

  lemma ProtectBack(w: World, n: nat, v: World)
    requires n > 0 && Protecting(w, n, v)
    ensures Protecting(ProtectAny(w), n - 1, v) && (CopiesAfter(ProtectAny(w), n - 1, v) ==> CopiesAfter(w, n, v))
  {
    ProtectNext(w, n, v);
    if CopiesAfter(ProtectAny(w), n - 1, v) {
      AdvanceThen(w, ProtectAny(w), n + 1, v);
    }
  }

  lemma ProtectedAll(w: World, v: World)
    requires Protecting(w, 0, v)
    ensures CopiesAfter(w, 0, v)
  {
    CopyBySteps(w, PagerOf(v), v.k);
  }

  lemma ProtectBySteps(w: World, n: nat, v: World)
    requires Protecting(w, n, v)
    ensures CopiesAfter(w, n, v)
  {
    forall u | Protecting(u, 0, v) ensures CopiesAfter(u, 0, v) {
      ProtectedAll(u, v);
    }
    forall u, k: nat | k > 0 && Protecting(u, k, v)
      ensures Protecting(ProtectAny(u), k - 1, v) && (CopiesAfter(ProtectAny(u), k - 1, v) ==> CopiesAfter(u, k, v))
    {
      ProtectBack(u, k, v);
    }
    CountDown((u, k) => Protecting(u, k, v), ProtectAny, (u, k) => CopiesAfter(u, k, v), w, n);
  }

  /** Client `pid` asks to persist a range of region `id`, and the request is accepted. */
  ghost predicate Accepted(w: World, pid: Pid, addr: nat, off: nat, size: nat, id: Id) {
    && pid in w.sys.clients && addr in w.sys.clients[pid] && w.sys.clients[pid][addr] == id
    && off < WORD && size < WORD && PersistCheck(w.sys.m, id, off, size) == Ok
  }

  lemma PersistBegun(w: World, pid: Pid, addr: nat, off: nat, size: nat, id: Id)
    requires Good(w.sys.m) && Accepted(w, pid, addr, off, size, id)
    ensures CanPersist(PagerOf(w), id, off, size) == Ok
    ensures var b := BeginPersist(w, pid, addr, off, size);
            && WillCopy(b, Persist(PagerOf(w), id, off, size))
            && WillProtect(b, size / PAGE_SIZE, RangeDone(w.k, id, off / PAGE_SIZE, (off + size) / PAGE_SIZE))
            && b.sys == w.sys
  {
    var b := BeginPersist(w, pid, addr, off, size);
    AcceptedPages(w.sys.m, off, size, id);
    BlockedOnce(w.k, b.k, id, off / PAGE_SIZE, (off + size) / PAGE_SIZE);
  }

  lemma AcceptedPages(m: Manager, off: nat, size: nat, id: Id)
    requires Good(m) && off < WORD && size < WORD && PersistCheck(m, id, off, size) == Ok
    ensures CanPersist(m.pager, id, off, size) == Ok
    ensures off % PAGE_SIZE == 0 && size % PAGE_SIZE == 0 && size / PAGE_SIZE * PAGE_SIZE == size
  {
    PersistCheckExact(m, id, off, size);
  }

  lemma PersistBeginStep(w: World, pid: Pid, addr: nat, off: nat, size: nat, id: Id)
    requires Steady(w) && w.phase.Idle? && Accepted(w, pid, addr, off, size, id)
    ensures var l := PersistBegin(pid, addr, off, size); CanStep(w, l) && Ranged(w, l)
    ensures var b := BeginPersist(w, pid, addr, off, size); Next(w, PersistBegin(pid, addr, off, size)) == b && Steady(b)
  {
    BeginSteady(w, PersistBegin(pid, addr, off, size));
  }

  /** Handling an accepted persist request is taking the lock and advancing until it is free. */
  lemma PersistedBySteps(w: World, pid: Pid, addr: nat, off: nat, size: nat, id: Id)
    requires Steady(w) && w.phase.Idle? && Accepted(w, pid, addr, off, size, id)
    ensures var ls := [PersistBegin(pid, addr, off, size)] + Advances(size / PAGE_SIZE + 2);
            && CanPersist(PagerOf(w), id, off, size) == Ok
            && Course(w, ls) && End(w, ls) == PersistHandled(w, id, off, size)
            && (Inv(w) ==> Trace(w, ls))
  {
    PersistBegun(w, pid, addr, off, size, id);
    PersistBeginStep(w, pid, addr, off, size, id);
    PersistGoesOn(w, pid, addr, off, size, id);
    BeginThen(w, PersistBegin(pid, addr, off, size), BeginPersist(w, pid, addr, off, size),
              size / PAGE_SIZE + 2, PersistHandled(w, id, off, size));
    if Inv(w) {
      BeginTraced(w, PersistBegin(pid, addr, off, size), size / PAGE_SIZE + 2);
    }
  }

  lemma PersistGoesOn(w: World, pid: Pid, addr: nat, off: nat, size: nat, id: Id)
    requires Good(w.sys.m) && Accepted(w, pid, addr, off, size, id) && Steady(BeginPersist(w, pid, addr, off, size))
    ensures CanPersist(PagerOf(w), id, off, size) == Ok
    ensures AdvancesTo(BeginPersist(w, pid, addr, off, size), size / PAGE_SIZE + 2, PersistHandled(w, id, off, size))
  {
    PersistLeaves(w, pid, addr, off, size, id);
    ProtectBySteps(BeginPersist(w, pid, addr, off, size), size / PAGE_SIZE, PersistHandled(w, id, off, size));
  }

  lemma PersistLeaves(w: World, pid: Pid, addr: nat, off: nat, size: nat, id: Id)
    requires Good(w.sys.m) && Accepted(w, pid, addr, off, size, id)
    ensures CanPersist(PagerOf(w), id, off, size) == Ok
    ensures WillLeave(BeginPersist(w, pid, addr, off, size), size / PAGE_SIZE, PersistHandled(w, id, off, size))
  {
    PersistBegun(w, pid, addr, off, size, id);
  }

  lemma BeginThen(w: World, l: Label, b: World, n: nat, v: World)
    requires Steady(w) && CanStep(w, l) && !l.Advance? && Ranged(w, l) && Next(w, l) == b && AdvancesTo(b, n, v)
    ensures Course(w, [l] + Advances(n)) && End(w, [l] + Advances(n)) == v
  {
    CourseThen(w, l, Advances(n));
  }

  lemma BlockedOnce(k: Kernel, b: Kernel, id: Id, i: nat, n: nat)
    requires b == k.(blocked := k.blocked + {id})
    ensures RangeDone(b, id, i, n) == RangeDone(k, id, i, n)
  {
    assert (k.blocked + {id}) - {id} == k.blocked - {id};
    assert ProtectedRange(k, id, i, n).prot == ProtectedRange(b, id, i, n).prot;
  }
}
