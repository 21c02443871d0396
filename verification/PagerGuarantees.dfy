/** What the run theorems give in the end: conservation, eviction, capacity and restart, in
    every state a manager can reach, and the one fault that breaks them. */
module PagerGuarantees {
  import opened Common
  import opened PagerState
  import opened PagerOps
  import opened PagerFaults
  import opened PagerAccess
  import opened PagerRegions
  import opened PagerFree
  import opened PagerRuns

  /** States reached from a new manager by some run. */
  ghost predicate ReachedBy(s: Pager, nrRam: nat, nrSwap: nat, files: Files, ops: seq<Op>) {
    nrRam >= 1 && (InitShows(nrRam, nrSwap, files); var i := Init(nrRam, nrSwap, files); CanRun(i, ops) && s == Run(i, ops))
  }

  // ---------- conservation ----------

  /** Every frame is either free or used, never both, and every list entry is unique. */
  lemma FramesPartition(s: Pager)
    requires Valid(s)
    ensures forall f: nat :: f < |s.ram| ==> (f in s.free <==> f !in s.used)
    ensures Distinct(s.free) && Distinct(s.used)
  {
    DistinctSize(s.used);
    SharedOut(s.free, set f | f in s.used, |s.ram|);
  }

  /** The slots held by a set of pages that share none. */
  lemma {:induction false} HeldSlots(rs: Regions, holders: set<PageRef>) returns (held: set<nat>)
    requires SlotsUnique(rs, {}) && forall q :: q in holders ==> HoldsSlot(rs, q)
    ensures |held| == |holders|
    ensures forall k :: k in held <==> exists q :: q in holders && PteAt(rs, q).slot == k
    decreases |holders|
  {
    if holders == {} {
      held := {};
    } else {
      var q :| q in holders;
      var rest := HeldSlots(rs, holders - {q});
      held := rest + {PteAt(rs, q).slot};
      assert PteAt(rs, q).slot !in rest;
      forall k ensures k in held <==> exists x :: x in holders && PteAt(rs, x).slot == k {
        if k in rest {
          var x :| x in holders - {q} && PteAt(rs, x).slot == k;
          assert x in holders;
        }
        if exists x :: x in holders && PteAt(rs, x).slot == k {
          var x :| x in holders && PteAt(rs, x).slot == k;
          assert x == q || x in holders - {q};
        }
      }
    }
  }

  /** Every swap slot is free or held by exactly one swapped anonymous page. */
  lemma SlotsPartition(s: Pager)
    requires Valid(s)
    ensures forall k: nat :: k < |s.swap| ==>
              (k in s.slots <==> !exists q :: HoldsSlot(s.regions, q) && PteAt(s.regions, q).slot == k)
    ensures forall q, r :: HoldsSlot(s.regions, q) && HoldsSlot(s.regions, r) && PteAt(s.regions, q) == PteAt(s.regions, r) ==> q == r
  {
    assert SlotHolders(s.regions) - {} == SlotHolders(s.regions);
    var held := HeldSlots(s.regions, SlotHolders(s.regions));
    forall k | k in s.slots ensures k < |s.swap| && k !in held {
    }
    SharedOut(s.slots, held, |s.swap|);
  }

  /** The frame table inverts the page tables, in both directions. */
  lemma FrameTableInverse(s: Pager)
    requires Valid(s)
    ensures forall f :: f in s.used ==> HasPage(s.regions, s.infos[f].owner) && PteAt(s.regions, s.infos[f].owner) == Present(f)
    ensures forall q, r :: PteAt(s.regions, q).Present? && PteAt(s.regions, q) == PteAt(s.regions, r) ==> q == r
    ensures forall q :: PteAt(s.regions, q).Present? ==> PteAt(s.regions, q).frame in s.used
  {
  }

  // ---------- eviction and capacity in every reachable state ----------

  /** In every reachable state, a fault that finds no free frame finds a victim, so the scan of
      the used list ends inside the list. */
  lemma EvictionNeverFails(s: Pager, nrRam: nat, nrSwap: nat, files: Files, ops: seq<Op>, q: PageRef)
    requires ReachedBy(s, nrRam, nrSwap, files, ops)
    requires HasPage(s.regions, q) && !PteAt(s.regions, q).Present? && s.free == []
    ensures var r := ReleaseSlot(s, q); EvictReady(r) && VictimIndex(r, 0) < |r.used| && VictimPage(r) != q
  {
    InitShows(nrRam, nrSwap, files);
    RunKeeps(Init(nrRam, nrSwap, files), ops);
    FaultInReady(s, q);
  }

  /** Pages an operation takes off the books: an admitted anonymous request without an address. */
  function Leak(s: Pager, op: Op): nat {
    if op.AllocateOp? && op.id !in s.regions && op.size > 0 && op.size % PAGE_SIZE == 0 && !op.persistent
       && op.size / PAGE_SIZE <= s.avail && op.reserved.None?
    then op.size / PAGE_SIZE else 0
  }

  function Leaks(s: Pager, ops: seq<Op>): nat
    requires Valid(s) && CanRun(s, ops)
    decreases |ops|
  {
    if ops == [] then 0 else StepKeeps(s, ops[0]); Leak(s, ops[0]) + Leaks(Step(s, ops[0]), ops[1..])
  }

  lemma UnfixSizes(s: Pager, q: PageRef, write: bool)
    requires Valid(s) && HasPage(s.regions, q)
    ensures var t := Unfix(s, q, write); t.avail == s.avail && |t.ram| == |s.ram| && |t.swap| == |s.swap|
  {
    if !PteAt(s.regions, q).Present? {
      FaultInReady(s, q);
    }
  }

  lemma {:induction false} PersistRangeSizes(s: Pager, id: Id, i: nat, n: nat)
    requires Valid(s) && id in s.regions && s.regions[id].persistent && n <= |s.regions[id].ptes|
    ensures var t := PersistRange(s, id, i, n);
            t.avail == s.avail && |t.ram| == |s.ram| && |t.swap| == |s.swap| && t.regions == s.regions
    decreases n - i
  {
    if i < n {
      PersistPageKeeps(s, PageRef(id, i));
      PersistRangeSizes(PersistPage(s, PageRef(id, i)), id, i + 1, n);
    }
  }

  lemma StepGap(s: Pager, op: Op)
    requires Valid(s) && Enabled(s, op)
    ensures Gap(Step(s, op)) == Gap(s) + Leak(s, op)
  {
    match op
    case AllocateOp(id, size, persistent, reserved) => AllocateKeeps(s, id, size, persistent, reserved);
    case OpenOp(id, reserved) => GetAnchoredKeeps(s, id, reserved);
    case FreeOp(id) => FreeKeeps(s, id);
    case FaultOp(q, write) =>
      UnfixTransparent(s, q, write);
      UnfixSizes(s, q, write);
      SameAnonSameGap(s, Unfix(s, q, write));
    case PersistOp(id, off, size) =>
      if CanPersist(s, id, off, size) == Ok {
        CanPersistPages(s, id, off, size);
        PersistRangeSizes(s, id, off / PAGE_SIZE, size / PAGE_SIZE);
      }
    case AnchorOp(id) => if id in s.regions && s.regions[id].persistent { SetAnchoredKeeps(s, id, true); }
    case UnanchorOp(id) => if id in s.regions { SetAnchoredKeeps(s, id, false); }
    case MarkDirtyOp(q) =>
    case StoreOp(q, v) =>
  }

  lemma {:induction false} RunGap(s: Pager, ops: seq<Op>)
    requires Valid(s) && CanRun(s, ops)
    ensures Gap(Run(s, ops)) == Gap(s) + Leaks(s, ops)
    decreases |ops|
  {
    if ops != [] {
      StepKeeps(s, ops[0]);
      StepGap(s, ops[0]);
      RunGap(Step(s, ops[0]), ops[1..]);
    }
  }

  lemma {:induction false} RunSizes(s: Pager, ops: seq<Op>)
    requires Valid(s) && CanRun(s, ops)
    ensures |Run(s, ops).ram| == |s.ram| && |Run(s, ops).swap| == |s.swap|
    decreases |ops|
  {
    if ops != [] {
      StepKeeps(s, ops[0]);
      StepSizes(s, ops[0]);
      RunSizes(Step(s, ops[0]), ops[1..]);
    }
  }

  lemma StepSizes(s: Pager, op: Op)
    requires Valid(s) && Enabled(s, op)
    ensures |Step(s, op).ram| == |s.ram| && |Step(s, op).swap| == |s.swap|
  {
    match op
    case FaultOp(q, write) => UnfixSizes(s, q, write);
    case PersistOp(id, off, size) =>
      if CanPersist(s, id, off, size) == Ok {
        CanPersistPages(s, id, off, size);
        PersistRangeSizes(s, id, off / PAGE_SIZE, size / PAGE_SIZE);
      }
    case FreeOp(id) => FreeRegions(s, id);
    case _ =>
  }

  /** Capacity over whole runs: pages on offer, pages of live anonymous regions and pages lost
      to failed reservations always add up to RAM plus swap less one. */
  lemma CapacityConserved(s: Pager, nrRam: nat, nrSwap: nat, files: Files, ops: seq<Op>)
    requires ReachedBy(s, nrRam, nrSwap, files, ops)
    ensures Valid(Init(nrRam, nrSwap, files)) && CanRun(Init(nrRam, nrSwap, files), ops)
    ensures s.avail + |AnonPages(s.regions)| + Leaks(Init(nrRam, nrSwap, files), ops) == nrRam + nrSwap - 1
  {
    InitShows(nrRam, nrSwap, files);
    RunGap(Init(nrRam, nrSwap, files), ops);
    RunSizes(Init(nrRam, nrSwap, files), ops);
  }

  /** Admission over whole runs: a new anonymous region with an address is granted exactly when
      it fits beside the live anonymous pages and the pages lost before. */
  lemma AdmissionExact(s: Pager, nrRam: nat, nrSwap: nat, files: Files, ops: seq<Op>, id: Id, size: nat, addr: nat)
    requires ReachedBy(s, nrRam, nrSwap, files, ops) && id !in s.regions && size > 0 && size % PAGE_SIZE == 0
    ensures Valid(Init(nrRam, nrSwap, files)) && CanRun(Init(nrRam, nrSwap, files), ops)
    ensures Allocate(s, id, size, false, Some(addr)).1 == Ok <==>
            |AnonPages(s.regions)| + Leaks(Init(nrRam, nrSwap, files), ops) + size / PAGE_SIZE <= nrRam + nrSwap - 1
  {
    CapacityConserved(s, nrRam, nrSwap, files, ops);
  }

  // ---------- shutdown and restart ----------

  /** The destructor's write-back, after its first `n` used frames. */
  function WriteBack(s: Pager, n: nat): (files: Files)
    requires Valid(s) && n <= |s.used|
    ensures files.Keys == s.files.Keys && forall id :: id in files ==> |files[id]| == |s.files[id]|
  {
    if n == 0 then s.files
    else
      var f := s.used[n - 1];
      assert f in s.used;
      var q := s.infos[f].owner;
      if Pers(s.regions, q) && s.infos[f].dirty then WriteFile(WriteBack(s, n - 1), q, s.ram[f])
      else WriteBack(s, n - 1)
  }

  lemma {:induction false} WriteBackPages(s: Pager, n: nat, q: PageRef)
    requires Valid(s) && n <= |s.used|
    ensures FilePage(WriteBack(s, n), q) == WrittenBack(s, s.used[..n], q)
  {
    if n > 0 {
      WriteBackPages(s, n - 1, q);
      WriteBackStep(s, n, q);
    }
  }

  /** Page `q` on file once the frames `fs` have been written back. */
  function WrittenBack(s: Pager, fs: seq<nat>, q: PageRef): Page {
    if Pers(s.regions, q) && FrameDirty(s, q) && PteAt(s.regions, q).Present? && PteAt(s.regions, q).frame in fs
    then Visible(s, q) else FilePage(s.files, q)
  }

  lemma WriteBackStep(s: Pager, n: nat, q: PageRef)
    requires Valid(s) && 0 < n <= |s.used| && FilePage(WriteBack(s, n - 1), q) == WrittenBack(s, s.used[..n - 1], q)
    ensures FilePage(WriteBack(s, n), q) == WrittenBack(s, s.used[..n], q)
  {
    var f := s.used[n - 1];
    assert s.used[..n] == s.used[..n - 1] + [f];
    WriteBackOne(s, n, q);
    WrittenBackOne(s, s.used[..n - 1], f, q);
  }

  lemma WriteBackOne(s: Pager, n: nat, q: PageRef)
    requires Valid(s) && 0 < n <= |s.used|
    ensures var f := s.used[n - 1];
            FilePage(WriteBack(s, n), q) ==
            if f < |s.infos| && f < |s.ram| && q == s.infos[f].owner && Pers(s.regions, q) && s.infos[f].dirty
            then s.ram[f] else FilePage(WriteBack(s, n - 1), q)
  {
    var f := s.used[n - 1];
    assert f in s.used;
    WrittenPage(WriteBack(s, n - 1), s.infos[f].owner, s.ram[f], q);
  }

  lemma WrittenBackOne(s: Pager, fs: seq<nat>, f: nat, q: PageRef)
    requires Valid(s) && f in s.used
    ensures WrittenBack(s, fs + [f], q) ==
            if f < |s.infos| && f < |s.ram| && q == s.infos[f].owner && Pers(s.regions, q) && s.infos[f].dirty
            then s.ram[f] else WrittenBack(s, fs, q)
  {
    assert PteAt(s.regions, s.infos[f].owner) == Present(f);
  }

  lemma WrittenPage(files: Files, q: PageRef, v: Page, x: PageRef)
    ensures q.id in files && q.off < |files[q.id]| ==>
              FilePage(WriteFile(files, q, v), x) == if x == q then v else FilePage(files, x)
  {
  }

  /** Shutdown leaves on file exactly what is visible on every dirty persistent page and what
      was there before on every other. */
  lemma ShutdownFiles(s: Pager, q: PageRef)
    requires Valid(s) && Pers(s.regions, q)
    ensures FilePage(WriteBack(s, |s.used|), q) == if FrameDirty(s, q) then Visible(s, q) else FilePage(s.files, q)
  {
    WriteBackPages(s, |s.used|, q);
    assert s.used[..|s.used|] == s.used;
  }

  lemma FileMatchesVisible(s: Pager, q: PageRef)
    requires Valid(s) && Pers(s.regions, q)
    ensures FilePage(WriteBack(s, |s.used|), q) == Visible(s, q) <==> CleanMatchesFile(s, q)
  {
    ShutdownFiles(s, q);
    CleanMeans(s, q);
    if !PteAt(s.regions, q).Present? {
      assert q !in {};
      assert PteAt(s.regions, q) == Swapped(q.off);
    }
  }

  /** Restart keeps every persistent page exactly when the dirty bits are sound. */
  lemma RestartIff(s: Pager)
    requires Valid(s)
    ensures (forall q :: Pers(s.regions, q) ==> FilePage(WriteBack(s, |s.used|), q) == Visible(s, q)) <==> DirtySound(s)
  {
    forall q | HasPage(s.regions, q)
      ensures (Pers(s.regions, q) ==> FilePage(WriteBack(s, |s.used|), q) == Visible(s, q)) <==> CleanMatchesFile(s, q)
    {
      if Pers(s.regions, q) {
        FileMatchesVisible(s, q);
      }
    }
  }

  /** Shut down after any run that loses track of no store, start a manager of any size over the
      files that are left, and reopen a region: it shows, page for page, the flat memory that clients
      last saw. */
  lemma RestartRoundTrip(s: Pager, m: Flat, ops: seq<Op>, id: Id, nrRam: nat, nrSwap: nat, addr: nat)
    requires Valid(s) && DirtySound(s) && Shows(s, m) && CanRun(s, ops) && NoneLost(s, ops) && nrRam >= 1
    requires var t := Run(s, ops); id in t.regions && t.regions[id].persistent
    ensures Valid(Run(s, ops)) && id in FlatRun(s, m, ops).mem
    ensures var t := Run(s, ops);
            var (u, e) := GetAnchored(Init(nrRam, nrSwap, WriteBack(t, |t.used|)), id, Some(addr));
            e == Ok && ShowsRegion(u, id, FlatRun(s, m, ops).mem[id].(anchored := true))
  {
    RunKeeps(s, ops);
    RunTransparent(s, m, ops);
    var t, r := Run(s, ops), FlatRun(s, m, ops).mem[id];
    assert ShowsRegion(t, id, r);
    Reopened(t, id, r, nrRam, nrSwap, addr);
  }

  lemma Reopened(t: Pager, id: Id, r: FlatRegion, nrRam: nat, nrSwap: nat, addr: nat)
    requires Valid(t) && DirtySound(t) && ShowsRegion(t, id, r) && t.regions[id].persistent && nrRam >= 1
    ensures var (u, e) := GetAnchored(Init(nrRam, nrSwap, WriteBack(t, |t.used|)), id, Some(addr));
            e == Ok && ShowsRegion(u, id, r.(anchored := true))
  {
    var i := Init(nrRam, nrSwap, WriteBack(t, |t.used|));
    var (u, e) := GetAnchored(i, id, Some(addr));
    AddRegionContents(i, id, |i.files[id]|, true, true, addr);
    RestartIff(t);
    forall k | 0 <= k < |r.pages| ensures r.pages[k] == Visible(u, PageRef(id, k)) {
      assert Pers(t.regions, PageRef(id, k));
    }
  }

  // ---------- the late read fault ----------

  /** After a late read the stores it forgot are gone from clients' sight as soon as any fault
      evicts the page, gone for good at shutdown, and no persist call saves them. */
  lemma LateReadLoses(s: Pager, q: PageRef, p: PageRef, write: bool, id: Id, off: nat, size: nat)
    requires Valid(s) && HasPage(s.regions, q) && LateRead(s, q, false)
    ensures Valid(Unfix(s, q, false)) && SamePages(s, Unfix(s, q, false))
    ensures var t := Unfix(s, q, false); FilePage(WriteBack(t, |t.used|), q) != Visible(s, q)
    ensures var t := Unfix(s, q, false);
            HasPage(t.regions, p) && !PteAt(t.regions, p).Present? && Evicted(t, p) == Some(q) ==>
              Visible(Unfix(t, p, write), q) != Visible(s, q)
    ensures var t := Unfix(s, q, false);
            CanPersist(t, id, off, size) == Ok ==> FilePage(Persist(t, id, off, size).files, q) != Visible(s, q)
  {
    var t := Unfix(s, q, false);
    UnfixTransparent(s, q, false);
    SetDirtyKeeps(s, q, false);
    CleanMeans(t, q);
    FileMatchesVisible(t, q);
    if HasPage(t.regions, p) && !PteAt(t.regions, p).Present? {
      FaultInContents(t, p, write);
    }
    if CanPersist(t, id, off, size) == Ok {
      StaleNotSaved(t, q, id, off, size);
    }
  }

  lemma StaleNotSaved(t: Pager, q: PageRef, id: Id, off: nat, size: nat)
    requires Valid(t) && Pers(t.regions, q) && !CleanMatchesFile(t, q) && CanPersist(t, id, off, size) == Ok
    ensures FilePage(Persist(t, id, off, size).files, q) != Visible(t, q)
  {
    PersistDurableIff(t, id, off, size);
    CleanMeans(t, q);
    CleanMeans(Persist(t, id, off, size), q);
    CanPersistPages(t, id, off, size);
    PersistRangeFrame(t, id, off / PAGE_SIZE, size / PAGE_SIZE);
  }

  /** Persist from an offset at or beyond its own size does nothing at all. */
  lemma PersistNothing(s: Pager, id: Id, off: nat, size: nat)
    requires Valid(s) && CanPersist(s, id, off, size) == Ok && size <= off
    ensures Persist(s, id, off, size) == s
  {
    CanPersistPages(s, id, off, size);
  }
}
