/** Dirty tracking page by page: over every run and every interleaving, the bit of a page is sound
    exactly if no step loses track of that page, whatever is lost of other pages. */
module PageTracking {
  import opened Common
  import opened PagerState
  import opened PagerOps
  import opened PagerFaults
  import opened PagerAccess
  import opened PagerRuns
  import opened ManagerState
  import opened Clients
  import opened Survival
  import opened FaultProtocol
  import opened ProtocolSafety
  import opened Interleavings

  // ---------- the buffer manager's operations ----------

  lemma FaultInFiles(s: Pager, q: PageRef, write: bool)
    requires Valid(s) && HasPage(s.regions, q) && !PteAt(s.regions, q).Present?
    ensures forall x :: Evicted(s, q) != Some(x) ==> FilePage(FaultIn(s, q, write).files, x) == FilePage(s.files, x)
  {
    FaultInReady(s, q);
    var r := ReleaseSlot(s, q);
    if r.free == [] {
      SwapOutFiles(r);
    }
  }

  /** A fault leaves the bits of resident pages and of the page it brings in as sound as they were. */
  lemma FaultInPage(s: Pager, q: PageRef, write: bool, x: PageRef)
    requires Valid(s) && HasPage(s.regions, q) && !PteAt(s.regions, q).Present? && CleanMatchesFile(s, x)
    ensures CleanMatchesFile(FaultIn(s, q, write), x)
  {
    var t := FaultIn(s, q, write);
    FaultInKeeps(s, q, write);
    FaultInContents(s, q, write);
    FaultInResidents(s, q, write);
    FaultInFiles(s, q, write);
    CleanMeans(s, x);
    CleanMeans(t, x);
    if x == q && Pers(s.regions, q) {
      AbsentSaved(s, q);
    }
  }

  /** A call of `unfix` loses a page's bit exactly if it is a late read of that page. */
  lemma UnfixPageIff(s: Pager, q: PageRef, write: bool, x: PageRef)
    requires Valid(s) && HasPage(s.regions, q) && CleanMatchesFile(s, x)
    ensures CleanMatchesFile(Unfix(s, q, write), x) <==> !(x == q && LateRead(s, q, write))
  {
    if PteAt(s.regions, q).Present? {
      UnfixTransparent(s, q, write);
      SetDirtyKeeps(s, q, write);
      CleanMeans(s, x);
      CleanMeans(Unfix(s, q, write), x);
    } else {
      FaultInPage(s, q, write, x);
    }
  }

  lemma MarkPage(s: Pager, q: PageRef, x: PageRef)
    requires Valid(s) && HasPage(s.regions, q) && CleanMatchesFile(s, x)
    ensures CleanMatchesFile(MarkDirty(s, q), x)
  {
    MarkDirtyTransparent(s, q);
    CleanMeans(s, x);
    CleanMeans(MarkDirty(s, q), x);
    if PteAt(s.regions, q).Present? {
      SetDirtyKeeps(s, q, true);
    }
  }

  lemma StorePageIff(s: Pager, q: PageRef, v: Page, x: PageRef)
    requires Valid(s) && PteAt(s.regions, q).Present? && CleanMatchesFile(s, x)
    ensures CleanMatchesFile(Store(s, q, v), x) <==>
            !(x == q && Pers(s.regions, q) && !FrameDirty(s, q) && v != FilePage(s.files, q))
  {
    StoreHits(s, q, v);
    CleanMeans(s, x);
    CleanMeans(Store(s, q, v), x);
  }

  /** The operation loses track of a store to page `x`. */
  predicate LosesPage(s: Pager, op: Op, x: PageRef) {
    (op.FaultOp? || op.StoreOp?) && op.q == x && LosesStore(s, op)
  }

  /** Operations on whole regions lose no bit. */
  lemma RegionOpPage(s: Pager, op: Op, x: PageRef)
    requires Valid(s) && Enabled(s, op) && CleanMatchesFile(s, x)
    requires op.AllocateOp? || op.OpenOp? || op.FreeOp? || op.AnchorOp? || op.UnanchorOp?
    ensures CleanMatchesFile(Step(s, op), x)
  {
    StepKeeps(s, op);
    CarriesSelf(s);
    match op
    case AllocateOp(id, size, persistent, reserved) => AllocateCarries(s, id, size, persistent, reserved);
    case OpenOp(id, reserved) => OpenCarries(s, id, reserved);
    case FreeOp(id) => FreeCarries(s, id);
    case AnchorOp(id) => if id in s.regions && s.regions[id].persistent { AnchorCarries(s, id, true); }
    case UnanchorOp(id) => if id in s.regions { AnchorCarries(s, id, false); }
    CarriesClean(s, Step(s, op), x);
  }

  /** One operation keeps the bit of a page sound exactly if it does not lose track of that page. */
  lemma StepPageIff(s: Pager, op: Op, x: PageRef)
    requires Valid(s) && Enabled(s, op) && CleanMatchesFile(s, x)
    ensures CleanMatchesFile(Step(s, op), x) <==> !LosesPage(s, op, x)
  {
    match op
    case FaultOp(q, write) => UnfixPageIff(s, q, write, x);
    case MarkDirtyOp(q) => MarkPage(s, q, x);
    case PersistOp(id, off, size) =>
      if CanPersist(s, id, off, size) == Ok {
        PersistDurableIff(s, id, off, size);
      }
    case StoreOp(q, v) => StorePageIff(s, q, v, x);
    case _ => RegionOpPage(s, op, x);
  }

  ghost predicate PageSoundThroughout(s: Pager, ops: seq<Op>, x: PageRef)
    requires Valid(s) && CanRun(s, ops)
    decreases |ops|
  {
    CleanMatchesFile(s, x) && (ops == [] || (StepKeeps(s, ops[0]); PageSoundThroughout(Step(s, ops[0]), ops[1..], x)))
  }

  ghost predicate NeverLost(s: Pager, ops: seq<Op>, x: PageRef)
    requires Valid(s) && CanRun(s, ops)
    decreases |ops|
  {
    ops == [] || (!LosesPage(s, ops[0], x) && (StepKeeps(s, ops[0]); NeverLost(Step(s, ops[0]), ops[1..], x)))
  }

  /** Over every run, the bit of a page is sound in all states exactly if no operation loses track
      of that page. */
  lemma {:induction false} RunPageIff(s: Pager, ops: seq<Op>, x: PageRef)
    requires Valid(s) && CanRun(s, ops) && CleanMatchesFile(s, x)
    ensures PageSoundThroughout(s, ops, x) <==> NeverLost(s, ops, x)
    decreases |ops|
  {
    if ops != [] {
      StepKeeps(s, ops[0]);
      StepPageIff(s, ops[0], x);
      if !LosesPage(s, ops[0], x) {
        RunPageIff(Step(s, ops[0]), ops[1..], x);
      }
    }
  }

  // ---------- one page in the protocol ----------

  /** If page `x` is clean, no client can write it unnoticed. */
  ghost predicate Guarded(p: Pager, k: Kernel, pending: Option<PageRef>, x: PageRef) {
    Pers(p.regions, x) && PteAt(p.regions, x).Present? && !FrameDirty(p, x) ==>
      x in k.prot && (k.prot[x] == ReadOnly || (pending == Some(x) && x !in k.held))
  }

  ghost predicate TracksPage(w: World, x: PageRef) {
    CleanMatchesFile(PagerOf(w), x) && Guarded(PagerOf(w), w.k, Pending(w.phase), x)
  }

  /** The whole invariant is the steady one plus the tracking of every page. */
  lemma InvPages(w: World)
    ensures Inv(w) <==> Steady(w) && forall x :: TracksPage(w, x)
  {
    if Inv(w) {
      forall x ensures TracksPage(w, x) {
        if HasPage(PagerOf(w).regions, x) {
          assert CleanMatchesFile(PagerOf(w), x);
        }
      }
    }
    if Steady(w) && forall x :: TracksPage(w, x) {
      forall x | HasPage(PagerOf(w).regions, x) ensures CleanMatchesFile(PagerOf(w), x) {
        assert TracksPage(w, x);
      }
      forall x | Pers(PagerOf(w).regions, x) && PteAt(PagerOf(w).regions, x).Present? && !FrameDirty(PagerOf(w), x)
        ensures x in w.k.prot && (w.k.prot[x] == ReadOnly || (Pending(w.phase) == Some(x) && x !in w.k.held))
      {
        assert TracksPage(w, x);
      }
    }
  }

  // ---------- the work of a fault ----------

  lemma MarkGuards(p: Pager, k: Kernel, q: PageRef, x: PageRef)
    requires Valid(p) && HasPage(p.regions, q) && Guarded(p, k, None, x)
    ensures Guarded(MarkDirty(p, q), k, None, x)
  {
    MarkSame(p, q);
    if PteAt(p.regions, q).Present? {
      SetDirtyKeeps(p, q, true);
    }
  }

  lemma RewriteGuardsIff(p: Pager, k: Kernel, q: PageRef, write: bool, x: PageRef)
    requires Valid(p) && MappedOk(p, k) && PteAt(p.regions, q).Present? && CleanMatchesFile(p, x) && Guarded(p, k, None, x)
    ensures var t := Unfix(p, q, write);
            CleanMatchesFile(t, x) && Guarded(t, k, None, x) <==> !(x == q && LosesTrack(p, k, q, write))
  {
    UnfixPageIff(p, q, write, x);
    CleanMeans(p, x);
    RewrittenBit(p, k, q, write, x);
  }

  lemma RewrittenBit(p: Pager, k: Kernel, q: PageRef, write: bool, x: PageRef)
    requires Valid(p) && PteAt(p.regions, q).Present? && q in k.prot && Guarded(p, k, None, x)
    ensures Guarded(Unfix(p, q, write), k, None, x) <==> !(x == q && !write && Pers(p.regions, q) && k.prot[q] == Writable)
  {
    SetDirtyKeeps(p, q, write);
  }

  lemma MapGuards(p: Pager, k: Kernel, q: PageRef, write: bool, x: PageRef)
    requires Valid(p) && MappedOk(p, k) && HasPage(p.regions, q) && !PteAt(p.regions, q).Present? && Guarded(p, k, None, x)
    ensures var protect := !write && !PteAt(p.regions, q).Untouched?;
            Guarded(Unfix(p, q, write), MapFresh(k, q, Evicted(p, q)), if protect then Some(q) else None, x)
  {
    UnfixTransparent(p, q, write);
    FaultInResidents(p, q, write);
    FreshGuards(p, Unfix(p, q, write), k, q, Evicted(p, q), !write && !PteAt(p.regions, q).Untouched?, x);
  }

  lemma FreshGuards(p: Pager, t: Pager, k: Kernel, q: PageRef, v: Option<PageRef>, protect: bool, x: PageRef)
    requires MappedOk(p, k) && !PteAt(p.regions, q).Present? && v != Some(q) && Guarded(p, k, None, x)
    requires Pers(t.regions, x) <==> Pers(p.regions, x)
    requires v.Some? ==> !PteAt(t.regions, v.value).Present?
    requires x != q && v != Some(x) ==> PteAt(t.regions, x) == PteAt(p.regions, x) && (FrameDirty(t, x) <==> FrameDirty(p, x))
    requires !FrameDirty(t, q) ==> protect
    ensures Guarded(t, MapFresh(k, q, v), if protect then Some(q) else None, x)
  {
  }

  /** The work of a fault keeps track of page `x` exactly if it does not forget that page. */
  lemma WorkPageIff(w: World, x: PageRef)
    requires Steady(w) && w.phase.Blocked? && CanAdvance(w) && TracksPage(w, x)
    ensures TracksPage(Work(w), x) <==> !(Forgets(w) && w.phase.q == x)
  {
    var p, q := PagerOf(w), w.phase.q;
    if w.phase.kind.WriteProtect? {
      MarkPage(p, q, x);
      MarkGuards(p, w.k, q, x);
    } else if PteAt(p.regions, q).Present? {
      RewriteParts(w);
      RewriteGuardsIff(p, w.k, q, w.phase.write, x);
    } else {
      UnfixPageIff(p, q, w.phase.write, x);
      MapGuards(p, w.k, q, w.phase.write, x);
    }
  }

  // ---------- the other steps ----------

  lemma FetchPage(w: World, q: PageRef, x: PageRef)
    requires Orderly(w) && Reachable(w, q) && TracksPage(w, x)
    ensures TracksPage(w.(k := w.k.(held := w.k.held + {q})), x)
  {
    FetchOrder(w, q);
  }

  /** A client can store only to pages whose bit shows it, among those that are tracked. */
  lemma StoredPage(w: World, q: PageRef, v: Page, x: PageRef)
    requires Steady(w) && q in w.k.held && q in w.k.prot && w.k.prot[q] == Writable && TracksPage(w, x)
    ensures PteAt(PagerOf(w).regions, q).Present? && TracksPage(StoreThrough(w, q, v), x)
  {
    StoreHits(PagerOf(w), q, v);
    StorePageIff(PagerOf(w), q, v, x);
  }

  lemma CalledPage(w: World, c: Call, x: PageRef)
    requires Steady(w) && w.phase.Idle? && Allowed(w.sys, c) && !c.PersistCall? && TracksPage(w, x)
    ensures TracksPage(MakeCall(w, c), x)
  {
    var p, n := PagerOf(w), Do(w.sys, c).m.pager;
    DoGood(w.sys, c);
    DoCarries(w.sys, c);
    CarriesClean(p, n, x);
    if x.id in p.regions && x.id in n.regions {
      assert SamePage(p, n, x);
    }
  }

  lemma BegunPage(w: World, l: Label, x: PageRef)
    requires Good(w.sys.m) && w.phase.Idle? && (l.FaultBegin? || l.PersistBegin?) && Ranged(w, l) && TracksPage(w, x)
    ensures TracksPage(Begin(w, l), x)
  {
  }

  lemma BeginPage(w: World, l: Label, x: PageRef)
    requires Steady(w) && CanStep(w, l) && !l.Advance? && Ranged(w, l) && TracksPage(w, x)
    ensures TracksPage(Begin(w, l), x)
  {
    match l
    case Fetch(q) => FetchPage(w, q, x);
    case ClientStore(q, v) => StoredPage(w, q, v, x);
    case CallStep(c) => CalledPage(w, c, x);
    case _ => BegunPage(w, l, x);
  }

  lemma ProtectGuards(p: Pager, k: Kernel, pending: Option<PageRef>, q: PageRef, x: PageRef)
    requires Guarded(p, k, pending, x)
    ensures Guarded(p, Protect(k, q, ReadOnly), if pending == Some(q) then None else pending, x)
    ensures FrameDirty(p, q) ==> Guarded(p, Protect(k, q, Writable), pending, x)
  {
  }

  lemma AdjustPage(w: World, x: PageRef)
    requires Orderly(w) && (w.phase.Registered? || w.phase.Marked?) && TracksPage(w, x)
    ensures TracksPage(Adjust(w), x)
  {
    ProtectGuards(PagerOf(w), w.k, Pending(w.phase), w.phase.q, x);
  }

  lemma CopyGuards(p: Pager, t: Pager, k: Kernel, id: Id, i: nat, n: nat, end: nat, x: PageRef)
    requires MappedOk(p, k) && t.regions == p.regions && n <= end && ReadOnlyIn(k, id, i, end) && Guarded(p, k, None, x)
    requires FrameDirty(t, x) <==> FrameDirty(p, x) && !InRange(x, id, i, n)
    ensures Guarded(t, k, None, x)
  {
    if FrameDirty(p, x) && InRange(x, id, i, n) {
      assert InRange(x, id, i, end);
    }
  }

  lemma CopyBits(p: Pager, k: Kernel, id: Id, off: nat, size: nat, x: PageRef)
    requires Valid(p) && CanPersist(p, id, off, size) == Ok && MappedOk(p, k)
    requires ReadOnlyIn(k, id, off / PAGE_SIZE, (off + size) / PAGE_SIZE) && CleanMatchesFile(p, x) && Guarded(p, k, None, x)
    ensures var t := Persist(p, id, off, size); CleanMatchesFile(t, x) && Guarded(t, k, None, x)
  {
    PersistDurableIff(p, id, off, size);
    CanPersistPages(p, id, off, size);
    PersistRangeFrame(p, id, off / PAGE_SIZE, size / PAGE_SIZE);
    CopyGuards(p, Persist(p, id, off, size), k, id, off / PAGE_SIZE, size / PAGE_SIZE, (off + size) / PAGE_SIZE, x);
  }

  lemma CopyPage(w: World, x: PageRef)
    requires w.phase.Persisting? && CanPersist(PagerOf(w), w.phase.id, w.phase.off, w.phase.size) == Ok
    requires Good(w.sys.m) && MappedOk(PagerOf(w), w.k) && Orderly(w) && w.phase.done >= w.phase.size && TracksPage(w, x)
    ensures TracksPage(CopyOut(w), x)
  {
    CopyReady(w);
    CopyParts(w);
    CopyBits(PagerOf(w), w.k, w.phase.id, w.phase.off, w.phase.size, x);
  }

  lemma ProtectedPage(w: World, x: PageRef)
    requires w.phase.Persisting? && TracksPage(w, x)
    ensures TracksPage(ProtectOne(w), x)
  {
    ProtectGuards(PagerOf(w), w.k, None, PageAt(w.phase.id, w.phase.off + w.phase.done), x);
  }

  lemma QuietPage(w: World, x: PageRef)
    requires Good(w.sys.m) && Orderly(w) && Quiet(w.phase) && TracksPage(w, x)
    ensures CanAdvance(w) && TracksPage(Advanced(w), x)
  {
    QuietOrder(w);
  }

  lemma AdvancePageIff(w: World, x: PageRef)
    requires Steady(w) && CanAdvance(w) && TracksPage(w, x)
    ensures TracksPage(Advanced(w), x) <==> !(Forgets(w) && w.phase.q == x)
  {
    match w.phase
    case Blocked(_, _, _) => WorkPageIff(w, x);
    case Registered(_, _) => AdjustPage(w, x);
    case Marked(_, _) => AdjustPage(w, x);
    case Persisting(_, _, size, done) => if done < size { ProtectedPage(w, x); } else { CopyPage(w, x); }
    case _ => QuietPage(w, x);
  }

  // ---------- every interleaving ----------

  /** The step forgets page `x`. */
  predicate ForgetsPage(w: World, l: Label, x: PageRef) {
    l.Advance? && Forgets(w) && w.phase.q == x
  }

  /** One step keeps track of a page exactly if it does not forget that page. */
  lemma NextPageIff(w: World, l: Label, x: PageRef)
    requires Steady(w) && CanStep(w, l) && Ranged(w, l) && TracksPage(w, x)
    ensures TracksPage(Next(w, l), x) <==> !ForgetsPage(w, l, x)
  {
    if l.Advance? {
      AdvancePageIff(w, x);
    } else {
      BeginPage(w, l, x);
    }
  }

  /** Page `x` is tracked in every state along the way. */
  ghost predicate PageTracked(w: World, ls: seq<Label>, x: PageRef)
    requires Steady(w) && Course(w, ls)
    decreases |ls|
  {
    TracksPage(w, x) && (ls == [] || (NextSteady(w, ls[0]); PageTracked(Next(w, ls[0]), ls[1..], x)))
  }

  /** No step along the way forgets page `x`. */
  ghost predicate NeverForgets(w: World, ls: seq<Label>, x: PageRef)
    requires Steady(w) && Course(w, ls)
    decreases |ls|
  {
    ls == [] || (!ForgetsPage(w, ls[0], x) && (NextSteady(w, ls[0]); NeverForgets(Next(w, ls[0]), ls[1..], x)))
  }

  /** Over every interleaving, a page is tracked in all states exactly if no step forgets it. */
  lemma {:induction false} PageTrackedIff(w: World, ls: seq<Label>, x: PageRef)
    requires Steady(w) && Course(w, ls) && TracksPage(w, x)
    ensures PageTracked(w, ls, x) <==> NeverForgets(w, ls, x)
    decreases |ls|
  {
    if ls != [] {
      NextSteady(w, ls[0]);
      NextPageIff(w, ls[0], x);
      if !ForgetsPage(w, ls[0], x) {
        PageTrackedIff(Next(w, ls[0]), ls[1..], x);
      }
    }
  }

  lemma {:induction false} TrackedAtEnd(w: World, ls: seq<Label>, x: PageRef)
    requires Steady(w) && Course(w, ls) && PageTracked(w, ls, x)
    ensures TracksPage(End(w, ls), x)
    decreases |ls|
  {
    if ls != [] {
      CourseRest(w, ls);
      TrackedAtEnd(Next(w, ls[0]), ls[1..], x);
    }
  }

  /** No step of an interleaving forgets exactly if every page is never forgotten. */
  lemma NoneForgetsIff(w: World, ls: seq<Label>)
    requires Steady(w) && Course(w, ls)
    ensures NoneForgets(w, ls) <==> forall x :: NeverForgets(w, ls, x)
  {
    if NoneForgets(w, ls) {
      forall x ensures NeverForgets(w, ls, x) {
        NoneForgetsPage(w, ls, x);
      }
    } else {
      var x := ForgottenPage(w, ls);
    }
  }

  lemma {:induction false} NoneForgetsPage(w: World, ls: seq<Label>, x: PageRef)
    requires Steady(w) && Course(w, ls) && NoneForgets(w, ls)
    ensures NeverForgets(w, ls, x)
    decreases |ls|
  {
    if ls != [] {
      CourseRest(w, ls);
      NoneForgetsPage(Next(w, ls[0]), ls[1..], x);
    }
  }

  lemma {:induction false} ForgottenPage(w: World, ls: seq<Label>) returns (x: PageRef)
    requires Steady(w) && Course(w, ls) && !NoneForgets(w, ls)
    ensures !NeverForgets(w, ls, x)
    decreases |ls|
  {
    CourseRest(w, ls);
    if ls[0].Advance? && Forgets(w) {
      x := w.phase.q;
    } else {
      x := ForgottenPage(Next(w, ls[0]), ls[1..]);
    }
  }

  /** Dirty tracking, page by page: in every state reached from a new manager by an interleaving
      that never forgets page `q`, whatever it forgets of others, `q` equals its page on file if
      it is clean, resident and persistent, and a client cannot write it: it is read-only, or its
      segment is still blocked and no client holds an entry for it. */
  lemma PageTrackingSound(nrRam: nat, nrSwap: nat, files: Files, ls: seq<Label>, q: PageRef)
    requires nrRam >= 1
    requires (StartSteady(nrRam, nrSwap, files); Course(Start(nrRam, nrSwap, files), ls))
    requires (StartSteady(nrRam, nrSwap, files); NeverForgets(Start(nrRam, nrSwap, files), ls, q))
    ensures Steady(Start(nrRam, nrSwap, files))
    ensures var w := End(Start(nrRam, nrSwap, files), ls); var p := PagerOf(w);
            Pers(p.regions, q) && PteAt(p.regions, q).Present? && !FrameDirty(p, q) ==>
              && Visible(p, q) == FilePage(p.files, q)
              && q in w.k.prot
              && (w.k.prot[q] == ReadOnly
                  || (q !in w.k.held && q.id in w.sys.m.regions && SegmentOf(w, q.id) in w.k.blocked))
  {
    var s := Start(nrRam, nrSwap, files);
    StartSteady(nrRam, nrSwap, files);
    CourseSteady(s, ls);
    PageTrackedIff(s, ls, q);
    TrackedAtEnd(s, ls, q);
    GuardedBlocked(End(s, ls), q);
  }

  lemma GuardedBlocked(w: World, q: PageRef)
    requires Steady(w) && TracksPage(w, q)
    ensures var p := PagerOf(w);
            Pers(p.regions, q) && PteAt(p.regions, q).Present? && !FrameDirty(p, q) ==>
              && Visible(p, q) == FilePage(p.files, q)
              && q in w.k.prot
              && (w.k.prot[q] == ReadOnly
                  || (q !in w.k.held && q.id in w.sys.m.regions && SegmentOf(w, q.id) in w.k.blocked))
  {
    CleanMeans(PagerOf(w), q);
  }

  /** Persist saves every page its loop covers that was never forgotten. */
  lemma PersistSavesTracked(w: World, ls: seq<Label>, q: PageRef)
    requires Steady(w) && Course(w, ls) && TracksPage(w, q) && NeverForgets(w, ls, q)
    requires var u := End(w, ls);
             u.phase.Persisting? && u.phase.done >= u.phase.size && InRange(q, u.phase.id, u.phase.off / PAGE_SIZE, u.phase.size / PAGE_SIZE)
    ensures var u := End(w, ls); Good(u.sys.m) && CanAdvance(u) && Saves(u, q)
  {
    CourseSteady(w, ls);
    PageTrackedIff(w, ls, q);
    TrackedAtEnd(w, ls, q);
    CopySaves(End(w, ls), q);
  }

  /** Copying out saves page `q` and leaves it clean and read-only. */
  ghost predicate Saves(u: World, q: PageRef)
    requires Good(u.sys.m) && u.phase.Persisting? && CanAdvance(u)
  {
    var t := CopyOut(u);
    !Unsaved(PagerOf(t), q) && !FrameDirty(PagerOf(t), q) && (q in t.k.prot ==> t.k.prot[q] == ReadOnly)
  }

  lemma CopySaves(u: World, q: PageRef)
    requires Steady(u) && u.phase.Persisting? && u.phase.done >= u.phase.size && TracksPage(u, q)
    requires InRange(q, u.phase.id, u.phase.off / PAGE_SIZE, u.phase.size / PAGE_SIZE)
    ensures CanAdvance(u) && Saves(u, q)
  {
    SteadyRanged(u, Advance);
    PersistCompletes(u, q);
  }
}
