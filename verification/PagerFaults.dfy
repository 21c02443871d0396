/** Page faults: eviction always finds a victim, a fault keeps every frame and slot accounted
    for, and it changes no page's contents. */
module PagerFaults {
  import opened Common
  import opened PagerState
  import opened PagerOps

  // ---------- a victim always exists ----------

  /** Distinct used frames belong to distinct pages. */
  lemma {:induction false} OwnersCount(rs: Regions, infos: seq<PageInfo>, used: seq<nat>) returns (owners: set<PageRef>)
    requires Distinct(used)
    requires forall f :: f in used ==> f < |infos| && PteAt(rs, infos[f].owner) == Present(f)
    ensures |owners| == |used|
    ensures forall q :: q in owners ==> exists f :: f in used && q == infos[f].owner
  {
    if used == [] {
      owners := {};
    } else {
      var n := |used| - 1;
      DistinctEnds(used);
      assert used[n] in used;
      forall f | f in used[..n] ensures f < |infos| && PteAt(rs, infos[f].owner) == Present(f) {
        assert f in used;
      }
      var rest := OwnersCount(rs, infos, used[..n]);
      assert infos[used[n]].owner !in rest;
      owners := rest + {infos[used[n]].owner};
    }
  }

  /** With no free frame, some used frame is swappable: otherwise RAM and swap would hold
      more anonymous pages than were ever promised. */
  lemma SwappableExists(s: Pager, busy: set<PageRef>)
    requires Core(s, busy, {}) && CapacityOk(s) && s.free == []
    ensures VictimIndex(s, 0) < |s.used|
  {
    if VictimIndex(s, 0) == |s.used| {
      assert |s.used| == |s.ram| >= 1;
      assert !Swappable(s, s.used[0]);
      var owners := OwnersCount(s.regions, s.infos, s.used);
      var holders := SlotHolders(s.regions) - busy;
      forall q | q in owners ensures q in AnonPages(s.regions) && q !in holders {
        var f :| f in s.used && q == s.infos[f].owner;
        var i :| 0 <= i < |s.used| && s.used[i] == f;
        assert !Swappable(s, s.used[i]);
      }
      SubsetSize(owners + holders, AnonPages(s.regions));
    }
  }

  lemma EvictionReady(s: Pager, busy: set<PageRef>)
    requires Core(s, busy, {}) && CapacityOk(s) && s.free == []
    ensures EvictReady(s)
    ensures VictimPage(s) !in SlotHolders(s.regions) && Victim(s) in s.used
  {
    SwappableExists(s, busy);
    var f := s.used[VictimIndex(s, 0)];
    assert f in s.used;
    var v := s.infos[f].owner;
    assert PteAt(s.regions, v) == Present(f);
    if s.slots != [] {
      assert s.slots[|s.slots| - 1] in s.slots;
    }
  }

  // ---------- each stage keeps the accounts ----------

  lemma SlotReturned(rs: Regions, slots: seq<nat>, n: nat, q: PageRef)
    requires SlotsOk(rs, slots, n, {}) && HoldsSlot(rs, q)
    ensures SlotsOk(rs, slots + [PteAt(rs, q).slot], n, {q})
  {
    DistinctAppend(slots, PteAt(rs, q).slot);
    assert SlotHolders(rs) - {} == (SlotHolders(rs) - {q}) + {q};
  }

  lemma ReleaseSlotKeeps(s: Pager, q: PageRef)
    requires Core(s, {}, {}) && !PteAt(s.regions, q).Present?
    ensures Core(ReleaseSlot(s, q), {q}, {})
  {
    if HoldsSlot(s.regions, q) {
      SlotReturned(s.regions, s.slots, |s.swap|, q);
    } else {
      assert SlotHolders(s.regions) - {} == SlotHolders(s.regions) - {q};
    }
  }

  lemma HolderGained(rs: Regions, ns: Regions, busy: set<PageRef>, v: PageRef, k: nat)
    requires v !in busy && Anon(rs, v) && PteAt(rs, v).Present? && PteWritten(rs, ns, v, Swapped(k))
    ensures |SlotHolders(ns) - busy| == |SlotHolders(rs) - busy| + 1
  {
    assert SlotHolders(ns) - busy == (SlotHolders(rs) - busy) + {v};
  }

  lemma SlotGranted(rs: Regions, ns: Regions, slots: seq<nat>, n: nat, busy: set<PageRef>, v: PageRef)
    requires SlotsOk(rs, slots, n, busy) && slots != []
    requires v !in busy && Anon(rs, v) && PteAt(rs, v).Present?
    requires PteWritten(rs, ns, v, Swapped(slots[|slots| - 1]))
    ensures SlotsOk(ns, slots[..|slots| - 1], n, busy)
  {
    DistinctEnds(slots);
    assert slots[|slots| - 1] in slots;
    HolderGained(rs, ns, busy, v, slots[|slots| - 1]);
  }

  /** The slot accounts depend only on which pages hold which slots. */
  lemma SlotsSame(rs: Regions, ns: Regions, slots: seq<nat>, n: nat, busy: set<PageRef>)
    requires SlotsOk(rs, slots, n, busy)
    requires forall x :: HoldsSlot(ns, x) <==> HoldsSlot(rs, x)
    requires forall x :: HoldsSlot(ns, x) ==> PteAt(ns, x) == PteAt(rs, x)
    ensures SlotsOk(ns, slots, n, busy)
  {
    assert SlotHolders(ns) == SlotHolders(rs);
  }

  lemma SlotsUntouched(rs: Regions, ns: Regions, slots: seq<nat>, n: nat, busy: set<PageRef>, v: PageRef, pte: Pte)
    requires SlotsOk(rs, slots, n, busy) && Pers(rs, v) && PteWritten(rs, ns, v, pte)
    ensures SlotsOk(ns, slots, n, busy)
  {
    SlotsSame(rs, ns, slots, n, busy);
  }

  /** Pages that hold no slot need no exemption. */
  lemma SlotsSettled(rs: Regions, slots: seq<nat>, n: nat, busy: set<PageRef>)
    requires SlotsOk(rs, slots, n, busy) && forall x :: x in busy ==> !HoldsSlot(rs, x)
    ensures SlotsOk(rs, slots, n, {})
  {
    assert SlotHolders(rs) - {} == SlotHolders(rs) - busy;
  }

  lemma InfoSame(rs: Regions, ns: Regions, infos: seq<PageInfo>, used: seq<nat>)
    requires InfoOk(rs, infos, used) && forall x :: PteAt(ns, x) == PteAt(rs, x)
    ensures InfoOk(ns, infos, used)
  {
  }

  lemma SlotAbandoned(rs: Regions, ns: Regions, slots: seq<nat>, n: nat, q: PageRef, f: nat)
    requires SlotsOk(rs, slots, n, {q}) && PteWritten(rs, ns, q, Present(f))
    ensures SlotsOk(ns, slots, n, {})
  {
    HolderExempt(rs, ns, q, f);
  }

  lemma HolderExempt(rs: Regions, ns: Regions, q: PageRef, f: nat)
    requires PteWritten(rs, ns, q, Present(f))
    ensures |SlotHolders(ns) - {}| == |SlotHolders(rs) - {q}|
  {
    var a, b := SlotHolders(ns) - {}, SlotHolders(rs) - {q};
    forall x ensures x in a <==> x in b {
    }
    assert a == b;
  }

  lemma SwapOutKeeps(s: Pager, busy: set<PageRef>)
    requires Core(s, busy, {}) && EvictReady(s) && VictimPage(s) !in busy
    ensures Core(SwapOut(s), busy, {Victim(s)})
    ensures PteWritten(s.regions, SwapOut(s).regions, VictimPage(s), PteAt(SwapOut(s).regions, VictimPage(s)))
  {
    var f := Victim(s);
    var v := VictimPage(s);
    var t := SwapOut(s);
    assert f in s.used;
    WithoutFacts(s.used, f);
    SetPteWrites(s.regions, v, PteAt(t.regions, v));
    if Anon(s.regions, v) {
      SlotGranted(s.regions, t.regions, s.slots, |s.swap|, busy, v);
    } else {
      SlotsUntouched(s.regions, t.regions, s.slots, |s.swap|, busy, v, PteAt(t.regions, v));
    }
  }

  lemma TakeFrameKeeps(s: Pager, q: PageRef)
    requires Core(s, {q}, {}) && CapacityOk(s) && !PteAt(s.regions, q).Present?
    ensures s.free == [] ==> EvictReady(s) && VictimPage(s) != q
    ensures var t := TakeFrame(s); Core(t.0, {q}, {t.1}) && t.1 < |s.ram|
    ensures var t := TakeFrame(s); forall x :: HasPage(t.0.regions, x) <==> HasPage(s.regions, x)
    ensures var t := TakeFrame(s); PteAt(t.0.regions, q) == PteAt(s.regions, q)
  {
    if s.free == [] {
      EvictionReady(s, {q});
      SwapOutKeeps(s, {q});
    } else {
      DistinctEnds(s.free);
      assert s.free[0] in s.free;
    }
  }

  lemma InfoInstalled(rs: Regions, ns: Regions, infos: seq<PageInfo>, used: seq<nat>, q: PageRef, f: nat, dirty: bool)
    requires InfoOk(rs, infos, used) && f !in used && f < |infos| && !PteAt(rs, q).Present?
    requires PteWritten(rs, ns, q, Present(f))
    ensures InfoOk(ns, infos[f := PageInfo(q, dirty)], used + [f])
  {
  }

  lemma InstallKeeps(s: Pager, q: PageRef, f: nat, c: Page, dirty: bool)
    requires Core(s, {q}, {f}) && HasPage(s.regions, q) && !PteAt(s.regions, q).Present?
    requires f < |s.infos|
    ensures Core(Install(s, q, f, c, dirty), {}, {})
  {
    var t := Install(s, q, f, c, dirty);
    SetPteWrites(s.regions, q, Present(f));
    DistinctAppend(s.used, f);
    InfoInstalled(s.regions, t.regions, s.infos, s.used, q, f, dirty);
    SlotAbandoned(s.regions, t.regions, s.slots, |s.swap|, q, f);
  }

  // ---------- what eviction does to contents ----------

  lemma SwapOutOther(s: Pager, busy: set<PageRef>, x: PageRef)
    requires Core(s, busy, {}) && EvictReady(s) && x !in busy && x != VictimPage(s)
    requires PteWritten(s.regions, SwapOut(s).regions, VictimPage(s), PteAt(SwapOut(s).regions, VictimPage(s)))
    ensures Visible(SwapOut(s), x) == Visible(s, x)
  {
    if HoldsSlot(s.regions, x) && s.slots != [] {
      assert s.slots[|s.slots| - 1] in s.slots;
    }
  }

  lemma SwapOutVictim(s: Pager, busy: set<PageRef>)
    requires Core(s, busy, {}) && EvictReady(s)
    requires PteWritten(s.regions, SwapOut(s).regions, VictimPage(s), PteAt(SwapOut(s).regions, VictimPage(s)))
    ensures Visible(SwapOut(s), VictimPage(s)) == Visible(s, VictimPage(s)) <==> CleanMatchesFile(s, VictimPage(s))
  {
    assert Victim(s) in s.used;
  }

  /** Evicting a page leaves every other page as it was, and leaves that page as it was unless
      it is clean and differs from its file. */
  lemma SwapOutContents(s: Pager, busy: set<PageRef>)
    requires Core(s, busy, {}) && EvictReady(s) && VictimPage(s) !in busy
    ensures forall x :: x !in busy && x != VictimPage(s) ==> Visible(SwapOut(s), x) == Visible(s, x)
    ensures Visible(SwapOut(s), VictimPage(s)) == Visible(s, VictimPage(s)) <==> CleanMatchesFile(s, VictimPage(s))
  {
    SwapOutKeeps(s, busy);
    SwapOutVictim(s, busy);
    forall x | x !in busy && x != VictimPage(s)
      ensures Visible(SwapOut(s), x) == Visible(s, x)
    {
      SwapOutOther(s, busy, x);
    }
  }

  lemma SwapOutFiles(s: Pager)
    requires EvictReady(s)
    ensures forall x :: x != VictimPage(s) ==> FilePage(SwapOut(s).files, x) == FilePage(s.files, x)
  {
  }

  lemma SwapOutDirtySound(s: Pager, busy: set<PageRef>)
    requires Core(s, busy, {}) && EvictReady(s) && VictimPage(s) !in busy && DirtySound(s)
    requires forall x :: x in busy ==> !PteAt(s.regions, x).Present?
    ensures DirtySound(SwapOut(s))
  {
    SwapOutKeeps(s, busy);
    SwapOutContents(s, busy);
    SwapOutFiles(s);
    forall x | HasPage(SwapOut(s).regions, x) ensures CleanMatchesFile(SwapOut(s), x) {
      assert CleanMatchesFile(s, x);
    }
  }

  // ---------- the whole fault ----------

  lemma FaultInReady(s: Pager, q: PageRef)
    requires Valid(s) && HasPage(s.regions, q) && !PteAt(s.regions, q).Present?
    ensures var r := ReleaseSlot(s, q); Core(r, {q}, {}) && (r.free == [] ==> EvictReady(r) && VictimPage(r) != q)
    ensures var t := TakeFrame(ReleaseSlot(s, q)); Core(t.0, {q}, {t.1}) && HasPage(t.0.regions, q) && t.1 < |t.0.ram|
    ensures PteAt(TakeFrame(ReleaseSlot(s, q)).0.regions, q) == PteAt(s.regions, q)
  {
    ReleaseSlotKeeps(s, q);
    TakeFrameKeeps(ReleaseSlot(s, q), q);
  }

  /** Every stage of a fault on `q` can be taken. */
  ghost predicate StagesReady(s: Pager, q: PageRef) {
    var r := ReleaseSlot(s, q);
    && HasPage(s.regions, q) && Core(r, {q}, {}) && CapacityOk(r) && (r.free == [] ==> EvictReady(r))
    && var t := TakeFrame(r);
       && HasPage(t.0.regions, q) && t.1 < |t.0.ram| && t.1 < |t.0.infos|
       && PteAt(t.0.regions, q) == PteAt(s.regions, q)
  }

  lemma FaultInStages(s: Pager, q: PageRef)
    requires Valid(s) && HasPage(s.regions, q) && !PteAt(s.regions, q).Present?
    ensures StagesReady(s, q)
  {
    FaultInReady(s, q);
  }

  function Stages(s: Pager, q: PageRef, write: bool): Pager
    requires StagesReady(s, q)
  {
    var t := TakeFrame(ReleaseSlot(s, q));
    Install(t.0, q, t.1, Visible(s, q), write || PteAt(s.regions, q).Untouched?)
  }

  /** `unfix` of a page that is not resident: read it in, give its slot back, find a frame,
      fill it. A page touched for the first time is filled afresh and counts as dirty. */
  function FaultIn(s: Pager, q: PageRef, write: bool): Pager
    requires Valid(s) && HasPage(s.regions, q) && !PteAt(s.regions, q).Present?
  {
    FaultInStages(s, q);
    Stages(s, q, write)
  }

  /** The page a fault on `q` evicts, if it evicts one. */
  function Evicted(s: Pager, q: PageRef): Option<PageRef>
    requires Valid(s) && HasPage(s.regions, q) && !PteAt(s.regions, q).Present?
  {
    FaultInReady(s, q);
    if s.free != [] then None else Some(VictimPage(ReleaseSlot(s, q)))
  }

  /** Installing `q` in a frame nobody uses shows `c` at `q` and leaves every other page alone. */
  lemma InstallContents(s: Pager, q: PageRef, f: nat, c: Page, dirty: bool)
    requires Core(s, {q}, {f}) && HasPage(s.regions, q) && f < |s.infos|
    ensures Visible(Install(s, q, f, c, dirty), q) == c
    ensures forall x :: x != q ==> Visible(Install(s, q, f, c, dirty), x) == Visible(s, x)
  {
    InstallShown(s, q, f, c, dirty);
  }

  lemma InstallShown(s: Pager, q: PageRef, f: nat, c: Page, dirty: bool)
    requires HasPage(s.regions, q) && f < |s.infos| && f < |s.ram|
    requires forall x :: PteAt(s.regions, x) != Present(f)
    ensures Visible(Install(s, q, f, c, dirty), q) == c
    ensures forall x :: x != q ==> Visible(Install(s, q, f, c, dirty), x) == Visible(s, x)
  {
    SetPteWrites(s.regions, q, Present(f));
  }

  lemma InstallDirtySound(s: Pager, q: PageRef, f: nat, c: Page, dirty: bool)
    requires Core(s, {q}, {f}) && HasPage(s.regions, q) && f < |s.infos| && DirtySound(s)
    requires Pers(s.regions, q) && !dirty ==> c == FilePage(s.files, q)
    ensures DirtySound(Install(s, q, f, c, dirty))
  {
    var t := Install(s, q, f, c, dirty);
    SetPteWrites(s.regions, q, Present(f));
    InstallContents(s, q, f, c, dirty);
    forall x | HasPage(t.regions, x) ensures CleanMatchesFile(t, x) {
      assert CleanMatchesFile(s, x);
    }
  }

  lemma SamePagesSameCapacity(s: Pager, t: Pager)
    requires CapacityOk(s) && |s.ram| == |t.ram| && |s.swap| == |t.swap| && s.avail == t.avail
    requires forall x :: Anon(t.regions, x) <==> Anon(s.regions, x)
    ensures CapacityOk(t)
  {
    assert AnonPages(s.regions) == AnonPages(t.regions);
  }

  /** The pages of two states are the same pages of the same kind. */
  ghost predicate SamePages(s: Pager, t: Pager) {
    && (forall x :: HasPage(t.regions, x) <==> HasPage(s.regions, x))
    && (forall x :: Anon(t.regions, x) <==> Anon(s.regions, x))
    && (forall x :: Pers(t.regions, x) <==> Pers(s.regions, x))
  }

  /** The stages of a fault rewrite entries but neither add nor remove pages. */
  lemma StagesSamePages(s: Pager, q: PageRef, c: Page, dirty: bool)
    requires var r := ReleaseSlot(s, q); r.free == [] ==> EvictReady(r)
    requires var t := TakeFrame(ReleaseSlot(s, q)); HasPage(t.0.regions, q) && t.1 < |t.0.infos| && t.1 < |t.0.ram|
    ensures var t := TakeFrame(ReleaseSlot(s, q)); var u := Install(t.0, q, t.1, c, dirty);
            SamePages(s, u) && u.avail == s.avail && |u.ram| == |s.ram| && |u.swap| == |s.swap|
  {
    var r := ReleaseSlot(s, q);
    var t := TakeFrame(r);
    if r.free == [] {
      SetPteWrites(r.regions, VictimPage(r), PteAt(SwapOut(r).regions, VictimPage(r)));
    }
    SetPteWrites(t.0.regions, q, Present(t.1));
  }

  lemma FaultInKeeps(s: Pager, q: PageRef, write: bool)
    requires Valid(s) && HasPage(s.regions, q) && !PteAt(s.regions, q).Present?
    ensures Valid(FaultIn(s, q, write)) && SamePages(s, FaultIn(s, q, write))
  {
    FaultInReady(s, q);
    var t := TakeFrame(ReleaseSlot(s, q));
    InstallKeeps(t.0, q, t.1, Visible(s, q), write || PteAt(s.regions, q).Untouched?);
    StagesSamePages(s, q, Visible(s, q), write || PteAt(s.regions, q).Untouched?);
    SamePagesSameCapacity(s, FaultIn(s, q, write));
  }

  lemma ReleaseSlotContents(s: Pager, q: PageRef)
    ensures forall x :: Visible(ReleaseSlot(s, q), x) == Visible(s, x)
    ensures forall x :: CleanMatchesFile(ReleaseSlot(s, q), x) <==> CleanMatchesFile(s, x)
    ensures DirtySound(s) ==> DirtySound(ReleaseSlot(s, q))
  {
    forall x ensures CleanMatchesFile(ReleaseSlot(s, q), x) <==> CleanMatchesFile(s, x) {
    }
  }

  lemma TakeFrameContents(s: Pager, q: PageRef)
    requires Core(s, {q}, {}) && CapacityOk(s) && !PteAt(s.regions, q).Present?
    requires s.free == [] ==> EvictReady(s) && VictimPage(s) != q
    ensures var t := TakeFrame(s).0;
            forall x :: x != q && (s.free == [] ==> x != VictimPage(s)) ==> Visible(t, x) == Visible(s, x)
    ensures s.free == [] ==>
              (Visible(TakeFrame(s).0, VictimPage(s)) == Visible(s, VictimPage(s)) <==> CleanMatchesFile(s, VictimPage(s)))
    ensures FilePage(TakeFrame(s).0.files, q) == FilePage(s.files, q)
    ensures DirtySound(s) ==> DirtySound(TakeFrame(s).0)
  {
    if s.free == [] {
      SwapOutContents(s, {q});
      SwapOutFiles(s);
      if DirtySound(s) {
        SwapOutDirtySound(s, {q});
      }
    } else if DirtySound(s) {
      forall x | HasPage(s.regions, x) ensures CleanMatchesFile(TakeFrame(s).0, x) {
        assert CleanMatchesFile(s, x);
      }
    }
  }

  lemma SeenThrough(s: Pager, r: Pager, t: Pager, u: Pager, q: PageRef, v: Option<PageRef>)
    requires forall x :: Visible(r, x) == Visible(s, x)
    requires forall x :: x != q && v != Some(x) ==> Visible(t, x) == Visible(r, x)
    requires Visible(u, q) == Visible(s, q)
    requires forall x :: x != q ==> Visible(u, x) == Visible(t, x)
    ensures forall x :: v != Some(x) ==> Visible(u, x) == Visible(s, x)
  {
  }

  /** A fault leaves every page as clients see it, save that the page it evicts (if any) is
      lost exactly when it is a clean one that differs from its file. */
  lemma FaultInContents(s: Pager, q: PageRef, write: bool)
    requires Valid(s) && HasPage(s.regions, q) && !PteAt(s.regions, q).Present?
    ensures forall x :: Evicted(s, q) != Some(x) ==> Visible(FaultIn(s, q, write), x) == Visible(s, x)
    ensures Evicted(s, q).Some? ==>
              (Visible(FaultIn(s, q, write), Evicted(s, q).value) == Visible(s, Evicted(s, q).value)
               <==> CleanMatchesFile(s, Evicted(s, q).value))
  {
    FaultInReady(s, q);
    var r := ReleaseSlot(s, q);
    var t := TakeFrame(r);
    ReleaseSlotContents(s, q);
    TakeFrameContents(r, q);
    InstallContents(t.0, q, t.1, Visible(s, q), write || PteAt(s.regions, q).Untouched?);
    SeenThrough(s, r, t.0, FaultIn(s, q, write), q, Evicted(s, q));
  }

  lemma FaultInDirtySound(s: Pager, q: PageRef, write: bool)
    requires Valid(s) && HasPage(s.regions, q) && !PteAt(s.regions, q).Present? && DirtySound(s)
    ensures DirtySound(FaultIn(s, q, write))
  {
    FaultInReady(s, q);
    var r := ReleaseSlot(s, q);
    var t := TakeFrame(r);
    ReleaseSlotContents(s, q);
    TakeFrameContents(r, q);
    InstallDirtySound(t.0, q, t.1, Visible(s, q), write || PteAt(s.regions, q).Untouched?);
  }
}
