/** Dirty tracking is sound between any two steps of any interleaving without a forgetting step,
    and that step breaks it. */
module ProtocolSafety {
  import opened Common
  import opened PagerState
  import opened PagerOps
  import opened PagerFaults
  import opened PagerAccess
  import opened PagerRuns
  import opened ManagerState
  import opened AddressIndex
  import opened Clients
  import opened Survival
  import opened FaultProtocol

  // ---------- residency after a fault ----------

  lemma InstallResidents(s: Pager, q: PageRef, f: nat, c: Page, dirty: bool)
    requires Core(s, {q}, {f}) && HasPage(s.regions, q) && f < |s.infos|
    ensures var t := Install(s, q, f, c, dirty);
            forall x :: PteAt(t.regions, x) == if x == q then Present(f) else PteAt(s.regions, x)
    ensures var t := Install(s, q, f, c, dirty);
            forall x :: FrameDirty(t, x) <==> if x == q then dirty else FrameDirty(s, x)
  {
    SetPteWrites(s.regions, q, Present(f));
  }

  lemma SwapOutResidents(s: Pager, busy: set<PageRef>)
    requires Core(s, busy, {}) && EvictReady(s) && VictimPage(s) !in busy
    ensures var t, v := SwapOut(s), VictimPage(s);
            && (forall x :: x != v ==> PteAt(t.regions, x) == PteAt(s.regions, x))
            && !PteAt(t.regions, v).Present? && t.infos == s.infos
  {
    SwapOutKeeps(s, busy);
  }

  lemma FaultInResidents(s: Pager, q: PageRef, write: bool)
    requires Valid(s) && HasPage(s.regions, q) && !PteAt(s.regions, q).Present?
    ensures var t, v := FaultIn(s, q, write), Evicted(s, q);
            && v != Some(q)
            && PteAt(t.regions, q).Present?
            && (v.Some? ==> !PteAt(t.regions, v.value).Present?)
            && (forall x :: x != q && v != Some(x) ==> PteAt(t.regions, x) == PteAt(s.regions, x))
    ensures var t, v := FaultIn(s, q, write), Evicted(s, q);
            && (FrameDirty(t, q) <==> write || PteAt(s.regions, q).Untouched?)
            && (forall x :: x != q && v != Some(x) ==> (FrameDirty(t, x) <==> FrameDirty(s, x)))
  {
    FaultInReady(s, q);
    var r := ReleaseSlot(s, q);
    var t := TakeFrame(r);
    if r.free == [] {
      SwapOutResidents(r, {q});
    }
    InstallResidents(t.0, q, t.1, Visible(s, q), write || PteAt(s.regions, q).Untouched?);
  }

  // ---------- the kernel's view after each kind of change ----------

  lemma FreshMapping(p: Pager, t: Pager, k: Kernel, q: PageRef, v: Option<PageRef>, protect: bool)
    requires MappedOk(p, k) && Tracked(p, k, None) && v != Some(q) && q !in k.prot
    requires forall x :: Pers(t.regions, x) <==> Pers(p.regions, x)
    requires PteAt(t.regions, q).Present? && (v.Some? ==> !PteAt(t.regions, v.value).Present?)
    requires forall x :: x != q && v != Some(x) ==> PteAt(t.regions, x) == PteAt(p.regions, x)
    requires forall x :: x != q && v != Some(x) ==> (FrameDirty(t, x) <==> FrameDirty(p, x))
    requires !FrameDirty(t, q) ==> protect
    ensures MappedOk(t, MapFresh(k, q, v)) && Tracked(t, MapFresh(k, q, v), if protect then Some(q) else None)
  {
  }

  lemma BitChanged(p: Pager, t: Pager, k: Kernel, q: PageRef, dirty: bool)
    requires MappedOk(p, k) && Tracked(p, k, None) && PteAt(p.regions, q).Present? && t.regions == p.regions
    requires forall x :: FrameDirty(t, x) <==> if x == q then dirty else FrameDirty(p, x)
    ensures MappedOk(t, k)
    ensures Tracked(t, k, None) <==> (dirty || !Pers(p.regions, q) || k.prot[q] == ReadOnly)
  {
    if !dirty && Pers(p.regions, q) && k.prot[q] != ReadOnly {
      assert Pers(t.regions, q) && PteAt(t.regions, q).Present? && !FrameDirty(t, q);
    }
  }

  /** Same residency, same dirty bits. */
  lemma SameTracking(p: Pager, t: Pager, k: Kernel, pending: Option<PageRef>)
    requires MappedOk(p, k) && Tracked(p, k, pending) && t.regions == p.regions
    requires forall x :: FrameDirty(p, x) ==> FrameDirty(t, x)
    ensures MappedOk(t, k) && Tracked(t, k, pending)
  {
  }

  lemma BaseKept(s: System, p: Pager)
    requires Base(s) && Valid(p) && SameShape(s.m.pager, p)
    ensures Base(s.(m := s.m.(pager := p)))
  {
    TablesSameShape(s.m, p);
  }

  /** The same page is still in hand in the next phase of a fault. */
  lemma OrderKept(w: World, t: World)
    requires Orderly(w) && w.phase.Blocked? && t.sys.m.regions == w.sys.m.regions
    requires forall x :: HasPage(PagerOf(t).regions, x) <==> HasPage(PagerOf(w).regions, x)
    requires t.k.blocked == w.k.blocked && t.k.held <= w.k.held
    requires (t.phase.Unfixed? || t.phase.Marked?) && t.phase.q == w.phase.q
    requires t.phase.Marked? && t.phase.unprotect ==> FrameDirty(PagerOf(t), t.phase.q)
    ensures Orderly(t)
  {
  }

  // ---------- the work of a fault ----------

  lemma MarkTracks(p: Pager, k: Kernel, q: PageRef)
    requires Valid(p) && HasPage(p.regions, q) && MappedOk(p, k) && Tracked(p, k, None)
    ensures var t := MarkDirty(p, q);
            MappedOk(t, k) && Tracked(t, k, None) && (PteAt(p.regions, q).Present? ==> FrameDirty(t, q))
    ensures SameShape(p, MarkDirty(p, q))
  {
    if PteAt(p.regions, q).Present? {
      SetDirtyKeeps(p, q, true);
    }
    SameTracking(p, MarkDirty(p, q), k, None);
  }

  lemma MarkKeeps(s: System, k: Kernel, q: PageRef)
    requires Base(s) && Sound(s.m.pager, k, None) && HasPage(s.m.pager.regions, q)
    ensures var t := MarkDirty(s.m.pager, q); Base(s.(m := s.m.(pager := t))) && Sound(t, k, None)
  {
    MarkDirtyTransparent(s.m.pager, q);
    MarkTracks(s.m.pager, k, q);
    BaseKept(s, MarkDirty(s.m.pager, q));
  }

  lemma MarkOrder(w: World)
    requires Good(w.sys.m) && Orderly(w) && w.phase.Blocked? && w.phase.kind.WriteProtect?
    ensures Orderly(Work(w))
  {
    if PteAt(PagerOf(w).regions, w.phase.q).Present? {
      SetDirtyKeeps(PagerOf(w), w.phase.q, true);
    }
    OrderKept(w, Work(w));
  }

  lemma WorkMarks(w: World)
    requires Inv(w) && w.phase.Blocked? && w.phase.kind.WriteProtect?
    ensures Inv(Work(w))
  {
    MarkKeeps(w.sys, w.k, w.phase.q);
    MarkOrder(w);
  }

  lemma WorkMaps(w: World)
    requires Inv(w) && w.phase.Blocked? && !w.phase.kind.WriteProtect? && !PteAt(PagerOf(w).regions, w.phase.q).Present?
    ensures Inv(Work(w))
  {
    var p, q := PagerOf(w), w.phase.q;
    var t := Unfix(p, q, w.phase.write);
    var protect := !w.phase.write && !PteAt(p.regions, q).Untouched?;
    UnfixTransparent(p, q, w.phase.write);
    UnfixSoundIff(p, q, w.phase.write);
    UnfixShape(p, q, w.phase.write);
    FaultInResidents(p, q, w.phase.write);
    FreshMapping(p, t, w.k, q, Evicted(p, q), protect);
    BaseKept(w.sys, t);
    OrderKept(w, Work(w));
  }

  lemma RewriteTracks(p: Pager, k: Kernel, q: PageRef, write: bool)
    requires Valid(p) && DirtySound(p) && MappedOk(p, k) && Tracked(p, k, None) && PteAt(p.regions, q).Present?
    ensures MappedOk(Unfix(p, q, write), k)
    ensures var t := Unfix(p, q, write); DirtySound(t) && Tracked(t, k, None) <==> !LosesTrack(p, k, q, write)
  {
    var t := Unfix(p, q, write);
    UnfixSoundIff(p, q, write);
    SetDirtyKeeps(p, q, write);
    BitChanged(p, t, k, q, write);
    CleanMeans(p, q);
    assert CleanMatchesFile(p, q);
  }

  lemma RewriteKeeps(s: System, k: Kernel, q: PageRef, write: bool)
    requires Base(s) && Sound(s.m.pager, k, None) && PteAt(s.m.pager.regions, q).Present?
    ensures Base(s.(m := s.m.(pager := Unfix(s.m.pager, q, write))))
    ensures Sound(Unfix(s.m.pager, q, write), k, None) <==> !LosesTrack(s.m.pager, k, q, write)
  {
    UnfixTransparent(s.m.pager, q, write);
    UnfixShape(s.m.pager, q, write);
    RewriteTracks(s.m.pager, k, q, write);
    BaseKept(s, Unfix(s.m.pager, q, write));
  }

  lemma RewriteOrder(w: World)
    requires Good(w.sys.m) && Orderly(w) && w.phase.Blocked? && !w.phase.kind.WriteProtect?
    requires PteAt(PagerOf(w).regions, w.phase.q).Present?
    ensures Orderly(Work(w))
  {
    OrderKept(w, Work(w));
  }

  /** Exactly when handling a fault on a resident page keeps the dirty tracking sound. */
  lemma WorkRewritesIff(w: World)
    requires Inv(w) && w.phase.Blocked? && !w.phase.kind.WriteProtect? && PteAt(PagerOf(w).regions, w.phase.q).Present?
    ensures Sound(PagerOf(Work(w)), Work(w).k, Pending(Work(w).phase)) <==> !Forgets(w)
    ensures Inv(Work(w)) <==> !Forgets(w)
  {
    RewriteKeeps(w.sys, w.k, w.phase.q, w.phase.write);
    RewriteOrder(w);
    RewriteParts(w);
  }

  lemma RewriteParts(w: World)
    requires Good(w.sys.m) && w.phase.Blocked? && !w.phase.kind.WriteProtect? && PteAt(PagerOf(w).regions, w.phase.q).Present?
    ensures var t := Work(w);
            && t.sys == w.sys.(m := w.sys.m.(pager := Unfix(PagerOf(w), w.phase.q, w.phase.write)))
            && t.k == w.k && Pending(t.phase) == None
    ensures Forgets(w) <==> LosesTrack(PagerOf(w), w.k, w.phase.q, w.phase.write)
  {
  }

  lemma WorkKeeps(w: World)
    requires Inv(w) && w.phase.Blocked? && !Forgets(w)
    ensures Inv(Work(w))
  {
    if w.phase.kind.WriteProtect? {
      WorkMarks(w);
    } else if PteAt(PagerOf(w).regions, w.phase.q).Present? {
      WorkRewritesIff(w);
    } else {
      WorkMaps(w);
    }
  }

  // ---------- what clients do ----------

  lemma FetchSound(p: Pager, k: Kernel, pending: Option<PageRef>, q: PageRef)
    requires Sound(p, k, pending) && q in k.prot && pending != Some(q)
    ensures Sound(p, k.(held := k.held + {q}), pending)
  {
  }

  lemma FetchOrder(w: World, q: PageRef)
    requires Orderly(w) && Reachable(w, q)
    ensures Pending(w.phase) != Some(q) && Orderly(w.(k := w.k.(held := w.k.held + {q})))
  {
  }

  lemma FetchKeeps(w: World, q: PageRef)
    requires Inv(w) && Reachable(w, q)
    ensures Inv(Next(w, Fetch(q)))
  {
    FetchOrder(w, q);
    FetchSound(PagerOf(w), w.k, Pending(w.phase), q);
  }

  /** A page a client can store to is dirty, or anonymous: the protection admits no store that
      the dirty bits would miss. */
  lemma StorePermitted(p: Pager, k: Kernel, pending: Option<PageRef>, q: PageRef)
    requires Sound(p, k, pending) && q in k.held && q in k.prot && k.prot[q] == Writable
    ensures PteAt(p.regions, q).Present? && (FrameDirty(p, q) || !Pers(p.regions, q))
  {
  }

  lemma StoreSound(s: System, k: Kernel, pending: Option<PageRef>, q: PageRef, v: Page)
    requires Base(s) && Sound(s.m.pager, k, pending) && q in k.held && q in k.prot && k.prot[q] == Writable
    ensures PteAt(s.m.pager.regions, q).Present?
    ensures var t := Store(s.m.pager, q, v); Base(s.(m := s.m.(pager := t))) && Sound(t, k, pending)
  {
    var p := s.m.pager;
    StorePermitted(p, k, pending, q);
    StoreHits(p, q, v);
    BaseKept(s, Store(p, q, v));
    SameTracking(p, Store(p, q, v), k, pending);
  }

  lemma OrderSamePages(w: World, p: Pager)
    requires Orderly(w) && p.regions == PagerOf(w).regions && p.infos == PagerOf(w).infos
    ensures Orderly(WithPager(w, p))
  {
    assert forall x :: FrameDirty(p, x) <==> FrameDirty(PagerOf(w), x);
  }

  lemma StoreOrder(w: World, q: PageRef, v: Page)
    requires Good(w.sys.m) && Orderly(w) && PteAt(PagerOf(w).regions, q).Present?
    ensures Orderly(StoreThrough(w, q, v))
  {
    OrderSamePages(w, Store(PagerOf(w), q, v));
  }

  lemma ClientStoreKeeps(w: World, q: PageRef, v: Page)
    requires Inv(w) && CanStep(w, ClientStore(q, v))
    ensures Ranged(w, ClientStore(q, v)) && Inv(Next(w, ClientStore(q, v)))
  {
    StoreSound(w.sys, w.k, Pending(w.phase), q, v);
    StoreOrder(w, q, v);
  }

  lemma ForgetSound(p: Pager, n: Pager, k: Kernel, m: Manager)
    requires Sound(p, k, None) && Carries(p, n) && m.pager == n
    requires forall x :: PteAt(n.regions, x).Present? ==> x.id in n.regions
    requires forall x :: PteAt(p.regions, x).Present? ==> x.id in p.regions
    ensures Sound(n, Forget(k, m), None)
  {
    var f := Forget(k, m);
    forall x ensures x in f.prot <==> PteAt(n.regions, x).Present? {
      if x.id in p.regions && x.id in n.regions {
        assert SamePage(p, n, x);
      }
    }
    forall x | Pers(n.regions, x) && PteAt(n.regions, x).Present? && !FrameDirty(n, x)
      ensures x in f.prot && f.prot[x] == ReadOnly
    {
      assert SamePage(p, n, x);
    }
  }

  lemma CallSound(s: System, k: Kernel, c: Call)
    requires Base(s) && Sound(s.m.pager, k, None) && Allowed(s, c) && !c.PersistCall?
    ensures var t := Do(s, c); Base(t) && Sound(t.m.pager, Forget(k, t.m), None)
  {
    DoGood(s, c);
    DoCounts(s, c);
    DoCarries(s, c);
    ForgetSound(s.m.pager, Do(s, c).m.pager, k, Do(s, c).m);
  }

  lemma CallKeeps(w: World, c: Call)
    requires Inv(w) && CanStep(w, CallStep(c))
    ensures Inv(Next(w, CallStep(c)))
  {
    CallSound(w.sys, w.k, c);
  }

  // ---------- beginning a fault or a persist ----------

  lemma FaultedPage(m: Manager, addr: nat)
    requires Good(m) && Lookup(m, addr).Some? && Inside(m, Lookup(m, addr).value.0, addr)
    ensures var (id, off) := Lookup(m, addr).value; id in m.regions && HasPage(m.pager.regions, PageAt(id, off))
  {
    var (id, off) := Lookup(m, addr).value;
    LookupFinds(m, addr, id);
    ReplyCovers(m.pager, id, off, true);
  }

  lemma BlockingSound(p: Pager, k: Kernel, pending: Option<PageRef>, b: set<int>)
    requires Sound(p, k, pending)
    ensures Sound(p, k.(blocked := b), pending)
  {
  }

  lemma BeginFaultOrder(w: World, addr: nat, kind: Kind, write: bool)
    requires Good(w.sys.m) && Orderly(w) && CanStep(w, FaultBegin(addr, kind, write))
    ensures Orderly(BeginFault(w, addr, kind, write))
  {
    if Lookup(w.sys.m, addr).Some? {
      FaultedPage(w.sys.m, addr);
    }
  }

  lemma BeginFaultKeeps(w: World, addr: nat, kind: Kind, write: bool)
    requires Inv(w) && CanStep(w, FaultBegin(addr, kind, write))
    ensures Inv(Next(w, FaultBegin(addr, kind, write)))
  {
    BeginFaultOrder(w, addr, kind, write);
    BlockingSound(PagerOf(w), w.k, None, BeginFault(w, addr, kind, write).k.blocked);
  }

  lemma BeginPersistOrder(w: World, pid: Pid, addr: nat, off: nat, size: nat)
    requires Orderly(w) && w.phase.Idle? && pid in w.sys.clients
    ensures Orderly(BeginPersist(w, pid, addr, off, size))
  {
  }

  lemma BeginPersistKeeps(w: World, pid: Pid, addr: nat, off: nat, size: nat)
    requires Inv(w) && CanStep(w, PersistBegin(pid, addr, off, size))
    ensures Inv(Next(w, PersistBegin(pid, addr, off, size)))
  {
    BeginPersistOrder(w, pid, addr, off, size);
    BlockingSound(PagerOf(w), w.k, None, BeginPersist(w, pid, addr, off, size).k.blocked);
  }

  // ---------- advancing ----------

  lemma ProtectedSound(p: Pager, k: Kernel, pending: Option<PageRef>, q: PageRef)
    requires Sound(p, k, pending)
    ensures Sound(p, Protect(k, q, ReadOnly), if pending == Some(q) then None else pending)
    ensures FrameDirty(p, q) ==> Sound(p, Protect(k, q, Writable), pending)
  {
  }

  lemma AdjustKeeps(w: World)
    requires Inv(w) && (w.phase.Registered? || w.phase.Marked?)
    ensures Inv(Adjust(w))
  {
    var p, q := PagerOf(w), w.phase.q;
    ProtectedSound(p, w.k, Pending(w.phase), q);
    assert Adjust(w).k.held == w.k.held && Adjust(w).sys == w.sys;
  }

  /** Pages read-only so far, plus the one just protected. */
  lemma ProtectOneOrder(w: World)
    requires Orderly(w) && w.phase.Persisting? && w.phase.done < w.phase.size
    ensures Orderly(ProtectOne(w))
  {
    var off, done := w.phase.off, w.phase.done;
    StepOfPage(off, w.phase.size, done);
  }

  lemma StepOfPage(off: nat, size: nat, done: nat)
    requires off % PAGE_SIZE == 0 && size % PAGE_SIZE == 0 && done % PAGE_SIZE == 0 && done < size
    ensures done + PAGE_SIZE <= size && (done + PAGE_SIZE) % PAGE_SIZE == 0
    ensures (off + done + PAGE_SIZE) / PAGE_SIZE == (off + done) / PAGE_SIZE + 1
  {
    PageStride(0, off, size, done);
  }

  lemma ProtectOneKeeps(w: World)
    requires Inv(w) && w.phase.Persisting? && w.phase.done < w.phase.size
    ensures Inv(ProtectOne(w))
  {
    ProtectOneOrder(w);
    ProtectedSound(PagerOf(w), w.k, None, PageAt(w.phase.id, w.phase.off + w.phase.done));
  }

  /** Persist cleans only pages that the loop before it made read-only. */
  lemma CopySound(s: System, k: Kernel, id: Id, off: nat, size: nat)
    requires Base(s) && Sound(s.m.pager, k, None) && CanPersist(s.m.pager, id, off, size) == Ok
    requires ReadOnlyIn(k, id, off / PAGE_SIZE, (off + size) / PAGE_SIZE)
    ensures var t := Persist(s.m.pager, id, off, size); Base(s.(m := s.m.(pager := t))) && Sound(t, k, None)
  {
    var p := s.m.pager;
    var t := Persist(p, id, off, size);
    var i, n := off / PAGE_SIZE, size / PAGE_SIZE;
    PersistDurableSound(p, id, off, size);
    CanPersistPages(p, id, off, size);
    PersistRangeKeeps(p, id, i, n);
    PersistRangeShape(p, id, i, n);
    BaseKept(s, t);
    CopyTracks(p, t, k, id, i, n, (off + size) / PAGE_SIZE);
  }

  lemma CopyTracks(p: Pager, t: Pager, k: Kernel, id: Id, i: nat, n: nat, end: nat)
    requires MappedOk(p, k) && Tracked(p, k, None) && t.regions == p.regions && n <= end && ReadOnlyIn(k, id, i, end)
    requires forall x :: FrameDirty(t, x) <==> FrameDirty(p, x) && !InRange(x, id, i, n)
    ensures MappedOk(t, k) && Tracked(t, k, None)
  {
    forall q | Pers(t.regions, q) && PteAt(t.regions, q).Present? && !FrameDirty(t, q) ensures q in k.prot && k.prot[q] == ReadOnly {
      if FrameDirty(p, q) {
        assert InRange(q, id, i, end);
      }
    }
  }

  lemma CopyOrder(w: World)
    requires Good(w.sys.m) && w.phase.Persisting?
    requires CanPersist(PagerOf(w), w.phase.id, w.phase.off, w.phase.size) == Ok
    requires forall q :: q in w.k.held ==> q.id in w.sys.m.regions
    ensures Orderly(CopyOut(w))
  {
  }

  lemma CopyKeeps(w: World)
    requires w.phase.Persisting? && CanPersist(PagerOf(w), w.phase.id, w.phase.off, w.phase.size) == Ok
    requires Inv(w) && w.phase.done >= w.phase.size
    ensures Inv(CopyOut(w))
  {
    CopyReady(w);
    CopySound(w.sys, w.k, w.phase.id, w.phase.off, w.phase.size);
    CopyOrder(w);
    CopyParts(w);
  }

  lemma CopyReady(w: World)
    requires Orderly(w) && w.phase.Persisting? && w.phase.done >= w.phase.size
    ensures ReadOnlyIn(w.k, w.phase.id, w.phase.off / PAGE_SIZE, (w.phase.off + w.phase.size) / PAGE_SIZE)
    ensures forall q :: q in w.k.held ==> q.id in w.sys.m.regions
  {
  }

  lemma CopyParts(w: World)
    requires Good(w.sys.m) && w.phase.Persisting?
    requires CanPersist(PagerOf(w), w.phase.id, w.phase.off, w.phase.size) == Ok
    ensures var t := Persist(PagerOf(w), w.phase.id, w.phase.off, w.phase.size);
            CopyOut(w).sys == w.sys.(m := w.sys.m.(pager := t)) && CopyOut(w).k == w.k && Pending(CopyOut(w).phase) == None
  {
  }

  lemma LoopSaves(p: Pager, id: Id, off: nat, size: nat, q: PageRef)
    requires Valid(p) && CanPersist(p, id, off, size) == Ok
    requires InRange(q, id, off / PAGE_SIZE, size / PAGE_SIZE)
    ensures (!Unsaved(Persist(p, id, off, size), q) <==> CleanMatchesFile(p, q)) && !FrameDirty(Persist(p, id, off, size), q)
  {
    CanPersistPages(p, id, off, size);
    PersistRangeFrame(p, id, off / PAGE_SIZE, size / PAGE_SIZE);
    PersistRangeIff(p, id, off / PAGE_SIZE, size / PAGE_SIZE);
  }

  lemma LoopProtects(k: Kernel, id: Id, off: nat, size: nat, q: PageRef)
    requires ReadOnlyIn(k, id, off / PAGE_SIZE, (off + size) / PAGE_SIZE)
    requires InRange(q, id, off / PAGE_SIZE, size / PAGE_SIZE)
    ensures q in k.prot ==> k.prot[q] == ReadOnly
  {
    assert size / PAGE_SIZE <= (off + size) / PAGE_SIZE;
    assert InRange(q, id, off / PAGE_SIZE, (off + size) / PAGE_SIZE);
  }

  /** When the copying is done, every page the loop covered is clean and no client can write it
      unnoticed; and it is saved exactly if it was not marked clean while different from its file.
      From offset zero that is the whole requested range. */
  lemma PersistCompletes(w: World, q: PageRef)
    requires w.phase.Persisting? && CanPersist(PagerOf(w), w.phase.id, w.phase.off, w.phase.size) == Ok
    requires Good(w.sys.m) && PhaseOk(w) && w.phase.done >= w.phase.size
    requires InRange(q, w.phase.id, w.phase.off / PAGE_SIZE, w.phase.size / PAGE_SIZE)
    ensures var t := CopyOut(w);
            && (!Unsaved(PagerOf(t), q) <==> CleanMatchesFile(PagerOf(w), q))
            && !FrameDirty(PagerOf(t), q) && (q in t.k.prot ==> t.k.prot[q] == ReadOnly)
  {
    LoopSaves(PagerOf(w), w.phase.id, w.phase.off, w.phase.size, q);
    LoopProtects(w.k, w.phase.id, w.phase.off, w.phase.size, q);
  }

  lemma UnblockKeeps(w: World)
    requires Inv(w) && w.phase.Settled?
    ensures Inv(Unblock(w))
  {
    BlockingSound(PagerOf(w), w.k, None, Unblock(w).k.blocked);
  }

  lemma PersistedKeeps(w: World)
    requires Inv(w) && w.phase.Persisted?
    ensures Inv(Advanced(w))
  {
    BlockingSound(PagerOf(w), w.k, None, Advanced(w).k.blocked);
  }

  lemma AdvanceKeeps(w: World)
    requires Inv(w) && !w.phase.Idle? && !Forgets(w)
    ensures CanAdvance(w) && Inv(Advanced(w))
  {
    StepRanged(w, Advance);
    match w.phase
    case Blocked(_, _, _) => WorkKeeps(w);
    case Unfixed(q, protect) =>
    case Registered(_, _) => AdjustKeeps(w);
    case Marked(_, _) => AdjustKeeps(w);
    case Settled(_) => UnblockKeeps(w);
    case Unblocked(_) =>
    case Persisting(_, _, size, done) => if done < size { ProtectOneKeeps(w); } else { CopyKeeps(w); }
    case Persisted(_) => PersistedKeeps(w);
  }

  // ---------- every interleaving ----------

  /** Each step but a forgetting one keeps the invariant. */
  lemma NextKeeps(w: World, l: Label)
    requires Inv(w) && CanStep(w, l) && !(l.Advance? && Forgets(w))
    ensures Ranged(w, l) && Inv(Next(w, l))
  {
    StepRanged(w, l);
    match l
    case Fetch(q) => FetchKeeps(w, q);
    case ClientStore(q, v) => ClientStoreKeeps(w, q, v);
    case CallStep(c) => CallKeeps(w, c);
    case FaultBegin(addr, kind, write) => BeginFaultKeeps(w, addr, kind, write);
    case PersistBegin(pid, addr, off, size) => BeginPersistKeeps(w, pid, addr, off, size);
    case Advance => AdvanceKeeps(w);
  }

  /** A sequence of steps that can be taken from `w`, none of them forgetting. */
  ghost predicate Trace(w: World, ls: seq<Label>)
    requires Inv(w)
    decreases |ls|
  {
    ls == [] || (CanStep(w, ls[0]) && !(ls[0].Advance? && Forgets(w))
                 && (NextKeeps(w, ls[0]); Trace(Next(w, ls[0]), ls[1..])))
  }

  ghost function After(w: World, ls: seq<Label>): World
    requires Inv(w) && Trace(w, ls)
    decreases |ls|
  {
    if ls == [] then w else NextKeeps(w, ls[0]); After(Next(w, ls[0]), ls[1..])
  }

  lemma {:induction false} TraceKeeps(w: World, ls: seq<Label>)
    requires Inv(w) && Trace(w, ls)
    ensures Inv(After(w, ls))
    decreases |ls|
  {
    if ls != [] {
      NextKeeps(w, ls[0]);
      TraceKeeps(Next(w, ls[0]), ls[1..]);
    }
  }

  lemma StepThen(w: World, l: Label, ls: seq<Label>)
    requires Inv(w) && CanStep(w, l) && !(l.Advance? && Forgets(w)) && Ranged(w, l) && Inv(Next(w, l)) && Trace(Next(w, l), ls)
    ensures Trace(w, [l] + ls) && After(w, [l] + ls) == After(Next(w, l), ls)
  {
    assert ([l] + ls)[1..] == ls;
  }

  /** The steps `ls` lead from `w` to `v`. */
  ghost predicate Traced(w: World, ls: seq<Label>, v: World) {
    Inv(w) && Trace(w, ls) && After(w, ls) == v
  }

  lemma TracedThen(w: World, l: Label, n: World, ls: seq<Label>, v: World)
    requires Inv(w) && CanStep(w, l) && !(l.Advance? && Forgets(w)) && Ranged(w, l) && Next(w, l) == n && Traced(n, ls, v)
    ensures Traced(w, [l] + ls, v)
  {
    StepThen(w, l, ls);
  }

  /** A manager that has just started, with no clients. */
  ghost function Start(nrRam: nat, nrSwap: nat, files: Files): World
    requires nrRam >= 1
  {
    World(System(Manager(Init(nrRam, nrSwap, files), map[], map[]), map[]), Kernel(map[], {}, {}), Idle)
  }

  lemma StartSound(nrRam: nat, nrSwap: nat, files: Files)
    requires nrRam >= 1
    ensures Inv(Start(nrRam, nrSwap, files))
  {
    InitShows(nrRam, nrSwap, files);
  }

  /** Dirty-tracking soundness: in every state reached by any interleaving of clients, calls,
      faults and persists without a forgetting step, a clean resident page of a persistent
      region equals its page on file, and a client cannot write it: it is read-only, or its
      segment is still blocked and no client holds an entry for it. */
  lemma DirtyTrackingSound(nrRam: nat, nrSwap: nat, files: Files, ls: seq<Label>, q: PageRef)
    requires nrRam >= 1
    requires (StartSound(nrRam, nrSwap, files); Trace(Start(nrRam, nrSwap, files), ls))
    ensures Inv(Start(nrRam, nrSwap, files))
    ensures var w := After(Start(nrRam, nrSwap, files), ls); var p := PagerOf(w);
            Pers(p.regions, q) && PteAt(p.regions, q).Present? && !FrameDirty(p, q) ==>
              && Visible(p, q) == FilePage(p.files, q)
              && q in w.k.prot
              && (w.k.prot[q] == ReadOnly
                  || (q !in w.k.held && q.id in w.sys.m.regions && SegmentOf(w, q.id) in w.k.blocked))
  {
    StartSound(nrRam, nrSwap, files);
    TraceKeeps(Start(nrRam, nrSwap, files), ls);
    var w := After(Start(nrRam, nrSwap, files), ls);
    CleanBlocked(w, q);
  }

  lemma CleanBlocked(w: World, q: PageRef)
    requires Inv(w)
    ensures var p := PagerOf(w);
            Pers(p.regions, q) && PteAt(p.regions, q).Present? && !FrameDirty(p, q) ==>
              && Visible(p, q) == FilePage(p.files, q)
              && q in w.k.prot
              && (w.k.prot[q] == ReadOnly
                  || (q !in w.k.held && q.id in w.sys.m.regions && SegmentOf(w, q.id) in w.k.blocked))
  {
    CleanMeans(PagerOf(w), q);
    assert HasPage(PagerOf(w).regions, q) ==> CleanMatchesFile(PagerOf(w), q);
  }
}
