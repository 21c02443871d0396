/** Freeing a region: every frame and slot it held comes back, each once. */
module PagerFree {
  import opened Common
  import opened PagerState
  import opened PagerFaults
  import opened PagerRegions

  /** One round of the loop in `free`. The write-back of a dirty persistent page is not shown
      because the file it goes to is removed when the loop ends. */
  function ReleasePage(s: Pager, q: PageRef): Pager
    requires HasPage(s.regions, q)
  {
    var t := s.(regions := SetPte(s.regions, q, Untouched));
    match PteAt(s.regions, q)
    case Present(f) => t.(used := Without(s.used, f), free := s.free + [f])
    case Swapped(k) => if Anon(s.regions, q) then t.(slots := s.slots + [k]) else t
    case Untouched => t
  }

  function ReleaseAll(s: Pager, id: Id, n: nat): (t: Pager)
    requires id in s.regions && n <= |s.regions[id].ptes|
    ensures id in t.regions && |t.regions[id].ptes| == |s.regions[id].ptes|
  {
    if n == 0 then s else ReleasePage(ReleaseAll(s, id, n - 1), PageRef(id, n - 1))
  }

  /** Releasing pages touches the lists and that region's entries, and nothing else. */
  lemma {:induction false} ReleaseAllFrame(s: Pager, id: Id, n: nat)
    requires id in s.regions && n <= |s.regions[id].ptes|
    ensures var t := ReleaseAll(s, id, n);
            && t.regions == s.regions[id := s.regions[id].(ptes := t.regions[id].ptes)]
            && t == s.(regions := t.regions, used := t.used, free := t.free, slots := t.slots)
  {
    if n > 0 {
      ReleaseAllFrame(s, id, n - 1);
    }
  }

  /** Erase the emptied region, and its file or its claim on capacity. */
  function Drop(s: Pager, id: Id): Pager
    requires id in s.regions
  {
    if s.regions[id].persistent then s.(regions := s.regions - {id}, files := s.files - {id})
    else s.(regions := s.regions - {id}, avail := s.avail + |s.regions[id].ptes|)
  }

  function Free(s: Pager, id: Id): Pager {
    if id !in s.regions || s.regions[id].anchored then s
    else Drop(ReleaseAll(s, id, |s.regions[id].ptes|), id)
  }

  // ---------- the accounts ----------

  lemma InfoReleased(rs: Regions, ns: Regions, infos: seq<PageInfo>, used: seq<nat>, q: PageRef)
    requires InfoOk(rs, infos, used) && Distinct(used) && PteAt(rs, q).Present?
    requires PteWritten(rs, ns, q, Untouched)
    ensures PteAt(rs, q).frame in used && InfoOk(ns, infos, Without(used, PteAt(rs, q).frame))
  {
    WithoutFacts(used, PteAt(rs, q).frame);
  }

  lemma SlotReleased(rs: Regions, ns: Regions, slots: seq<nat>, n: nat, busy: set<PageRef>, q: PageRef)
    requires SlotsOk(rs, slots, n, busy) && HoldsSlot(rs, q) && q !in busy && PteWritten(rs, ns, q, Untouched)
    ensures SlotsOk(ns, slots + [PteAt(rs, q).slot], n, busy + {q})
  {
    DistinctAppend(slots, PteAt(rs, q).slot);
    HolderLost(rs, ns, busy, q);
  }

  lemma HolderLost(rs: Regions, ns: Regions, busy: set<PageRef>, q: PageRef)
    requires HoldsSlot(rs, q) && q !in busy && PteWritten(rs, ns, q, Untouched)
    ensures |SlotHolders(ns) - (busy + {q})| == |SlotHolders(rs) - busy| - 1
  {
    var a, b := SlotHolders(rs) - busy, SlotHolders(ns) - (busy + {q});
    forall x ensures x in a <==> x in b || x == q {
    }
    assert a == b + {q};
  }

  lemma NoSlotReleased(rs: Regions, ns: Regions, slots: seq<nat>, n: nat, busy: set<PageRef>, q: PageRef)
    requires SlotsOk(rs, slots, n, busy) && !HoldsSlot(rs, q) && PteWritten(rs, ns, q, Untouched)
    ensures SlotsOk(ns, slots, n, busy + {q})
  {
    assert SlotHolders(rs) - busy == SlotHolders(ns) - (busy + {q});
  }

  lemma FrameReleased(n: nat, free: seq<nat>, used: seq<nat>, f: nat)
    requires FramesOk(n, free, used, {}) && f in used
    ensures FramesOk(n, free + [f], Without(used, f), {})
  {
    WithoutFacts(used, f);
    DistinctAppend(free, f);
  }

  lemma ReleasePageKeeps(s: Pager, busy: set<PageRef>, q: PageRef)
    requires Core(s, busy, {}) && HasPage(s.regions, q) && q !in busy
    ensures Core(ReleasePage(s, q), busy + {q}, {})
    ensures PteWritten(s.regions, ReleasePage(s, q).regions, q, Untouched)
  {
    var t := ReleasePage(s, q);
    SetPteWrites(s.regions, q, Untouched);
    if PteAt(s.regions, q).Present? {
      InfoReleased(s.regions, t.regions, s.infos, s.used, q);
      FrameReleased(|s.ram|, s.free, s.used, PteAt(s.regions, q).frame);
    }
    if HoldsSlot(s.regions, q) {
      SlotReleased(s.regions, t.regions, s.slots, |s.swap|, busy, q);
    } else {
      NoSlotReleased(s.regions, t.regions, s.slots, |s.swap|, busy, q);
    }
  }

  /** `ns` is `rs` with the entries of the first `n` pages of region `id` emptied. */
  ghost predicate PagesEmptied(rs: Regions, ns: Regions, id: Id, n: nat) {
    && (forall x :: HasPage(ns, x) <==> HasPage(rs, x))
    && (forall x :: Anon(ns, x) <==> Anon(rs, x))
    && (forall x :: Pers(ns, x) <==> Pers(rs, x))
    && (forall x :: PteAt(ns, x) == if x.id == id && x.off < n then Untouched else PteAt(rs, x))
  }

  lemma OneMoreEmptied(rs: Regions, ms: Regions, ns: Regions, id: Id, n: nat)
    requires PagesEmptied(rs, ms, id, n) && PteWritten(ms, ns, PageRef(id, n), Untouched)
    ensures PagesEmptied(rs, ns, id, n + 1)
  {
  }

  ghost predicate Cleared(s: Pager, id: Id, n: nat)
    requires id in s.regions && n <= |s.regions[id].ptes|
  {
    PagesEmptied(s.regions, ReleaseAll(s, id, n).regions, id, n)
  }

  lemma ClearedNext(s: Pager, id: Id, n: nat)
    requires id in s.regions && n < |s.regions[id].ptes| && Cleared(s, id, n)
    ensures Cleared(s, id, n + 1)
  {
    var t := ReleaseAll(s, id, n);
    ReleasedOne(t, PageRef(id, n));
    OneMoreEmptied(s.regions, t.regions, ReleasePage(t, PageRef(id, n)).regions, id, n);
  }

  lemma {:induction false} ClearedUpTo(s: Pager, id: Id, n: nat)
    requires id in s.regions && n <= |s.regions[id].ptes| && Cleared(s, id, 0)
    ensures Cleared(s, id, n)
  {
    if n > 0 {
      ClearedUpTo(s, id, n - 1);
      ClearedNext(s, id, n - 1);
    }
  }

  lemma ReleaseAllPages(s: Pager, id: Id, n: nat)
    requires id in s.regions && n <= |s.regions[id].ptes|
    ensures PagesEmptied(s.regions, ReleaseAll(s, id, n).regions, id, n)
  {
    assert ReleaseAll(s, id, 0) == s;
    ClearedUpTo(s, id, n);
  }

  lemma ReleasedOne(s: Pager, q: PageRef)
    requires HasPage(s.regions, q)
    ensures PteWritten(s.regions, ReleasePage(s, q).regions, q, Untouched)
  {
    SetPteWrites(s.regions, q, Untouched);
  }

  /** The accounts hold with the first `n` pages of the region released. */
  ghost predicate Emptied(s: Pager, id: Id, n: nat)
    requires id in s.regions && n <= |s.regions[id].ptes|
  {
    Core(ReleaseAll(s, id, n), FirstPages(id, n), {})
  }

  lemma EmptiedNext(s: Pager, id: Id, n: nat)
    requires id in s.regions && n < |s.regions[id].ptes| && Emptied(s, id, n)
    ensures Emptied(s, id, n + 1)
  {
    ReleasePageKeeps(ReleaseAll(s, id, n), FirstPages(id, n), PageRef(id, n));
    assert FirstPages(id, n + 1) == FirstPages(id, n) + {PageRef(id, n)};
  }

  lemma {:induction false} EmptiedUpTo(s: Pager, id: Id, n: nat)
    requires id in s.regions && n <= |s.regions[id].ptes| && Emptied(s, id, 0)
    ensures Emptied(s, id, n)
  {
    if n > 0 {
      EmptiedUpTo(s, id, n - 1);
      EmptiedNext(s, id, n - 1);
    }
  }

  lemma ReleaseAllKeeps(s: Pager, id: Id, n: nat)
    requires Core(s, {}, {}) && id in s.regions && n <= |s.regions[id].ptes|
    ensures Core(ReleaseAll(s, id, n), FirstPages(id, n), {})
  {
    assert FirstPages(id, 0) == {};
    EmptiedUpTo(s, id, n);
  }

  /** What releasing page `n` does, read off the page table the region started with. */
  ghost predicate ReleaseStep(s: Pager, id: Id, n: nat)
    requires id in s.regions && n < |s.regions[id].ptes|
  {
    var t, u, pte := ReleaseAll(s, id, n), ReleaseAll(s, id, n + 1), s.regions[id].ptes[n];
    && u.used == (if pte.Present? then Without(t.used, pte.frame) else t.used)
    && u.free == (if pte.Present? then t.free + [pte.frame] else t.free)
    && u.slots == (if pte.Swapped? && !s.regions[id].persistent then t.slots + [pte.slot] else t.slots)
    && (pte.Present? ==> pte.frame < |s.infos| && pte.frame < |s.ram| && s.infos[pte.frame].owner == PageRef(id, n))
  }

  lemma ReleaseEffect(s: Pager, id: Id, n: nat)
    requires Core(s, {}, {}) && id in s.regions && n < |s.regions[id].ptes|
    ensures ReleaseStep(s, id, n)
  {
    ReleaseAllPages(s, id, n);
    assert PteAt(s.regions, PageRef(id, n)) == s.regions[id].ptes[n];
    assert PteAt(ReleaseAll(s, id, n).regions, PageRef(id, n)) == s.regions[id].ptes[n];
  }

  /** `ns` is `rs` without the pages of region `id`, all of which were untouched. */
  ghost predicate RegionDropped(rs: Regions, ns: Regions, id: Id) {
    && (forall x :: HasPage(ns, x) <==> HasPage(rs, x) && x.id != id)
    && (forall x :: Anon(ns, x) <==> Anon(rs, x) && x.id != id)
    && (forall x :: Pers(ns, x) <==> Pers(rs, x) && x.id != id)
    && (forall x :: PteAt(ns, x) == PteAt(rs, x))
    && (forall x :: PteAt(rs, x) != Untouched ==> x.id != id)
  }

  lemma DropPages(s: Pager, id: Id)
    requires id in s.regions && forall x :: PteAt(s.regions, x) != Untouched ==> x.id != id
    ensures RegionDropped(s.regions, Drop(s, id).regions, id)
  {
  }

  lemma DropCount(rs: Regions, ns: Regions, id: Id)
    requires RegionDropped(rs, ns, id) && id in rs
    ensures |AnonPages(ns)| == |AnonPages(rs)| - if rs[id].persistent then 0 else |rs[id].ptes|
  {
    if rs[id].persistent {
      assert AnonPages(ns) == AnonPages(rs);
    } else {
      assert AnonPages(rs) == AnonPages(ns) + FirstPages(id, |rs[id].ptes|);
    }
  }

  lemma DropKeeps(s: Pager, id: Id, gone: set<PageRef>)
    requires Core(s, gone, {}) && id in s.regions
    requires forall x :: x in gone ==> x.id == id
    requires forall x :: PteAt(s.regions, x) != Untouched ==> x.id != id
    ensures Core(Drop(s, id), {}, {}) && Gap(Drop(s, id)) == Gap(s)
  {
    var t := Drop(s, id);
    DropPages(s, id);
    SlotsSettled(s.regions, s.slots, |s.swap|, gone);
    SlotsSame(s.regions, t.regions, s.slots, |s.swap|, {});
    InfoSame(s.regions, t.regions, s.infos, s.used);
    DropCount(s.regions, t.regions, id);
  }

  lemma FreeRegions(s: Pager, id: Id)
    ensures Free(s, id).regions ==
            if id in s.regions && !s.regions[id].anchored then s.regions - {id} else s.regions
    ensures Free(s, id).files ==
            if id in s.regions && !s.regions[id].anchored && s.regions[id].persistent then s.files - {id} else s.files
    ensures Free(s, id).infos == s.infos && Free(s, id).ram == s.ram && Free(s, id).swap == s.swap
  {
    if id in s.regions && !s.regions[id].anchored {
      ReleaseAllFrame(s, id, |s.regions[id].ptes|);
      assert Free(s, id).regions == s.regions - {id};
    }
  }

  lemma ReleasedWhole(s: Pager, id: Id)
    requires Core(s, {}, {}) && id in s.regions
    ensures var t := ReleaseAll(s, id, |s.regions[id].ptes|);
            && Core(t, FirstPages(id, |s.regions[id].ptes|), {}) && Gap(t) == Gap(s)
            && (forall x :: PteAt(t.regions, x) != Untouched ==> x.id != id)
  {
    var n := |s.regions[id].ptes|;
    ReleaseAllKeeps(s, id, n);
    ReleaseAllPages(s, id, n);
    ReleaseAllFrame(s, id, n);
    SameAnonSameGap(s, ReleaseAll(s, id, n));
    NoneLeft(s.regions, ReleaseAll(s, id, n).regions, id);
  }

  lemma NoneLeft(rs: Regions, ns: Regions, id: Id)
    requires id in rs
    requires forall x :: PteAt(ns, x) == if x.id == id && x.off < |rs[id].ptes| then Untouched else PteAt(rs, x)
    ensures forall x :: PteAt(ns, x) != Untouched ==> x.id != id
  {
  }

  /** Free keeps the accounts: all frames and slots of the region are free again, and the
      pages of an anonymous region are on offer again. */
  lemma FreeKeeps(s: Pager, id: Id)
    requires Valid(s)
    ensures Valid(Free(s, id)) && Gap(Free(s, id)) == Gap(s)
  {
    if id in s.regions && !s.regions[id].anchored {
      var n := |s.regions[id].ptes|;
      ReleasedWhole(s, id);
      DropKeeps(ReleaseAll(s, id, n), id, FirstPages(id, n));
    }
  }

  lemma DroppedContents(s: Pager, t: Pager, id: Id)
    requires t.regions == s.regions - {id} && t.ram == s.ram && t.swap == s.swap && t.infos == s.infos
    requires t.files == s.files || t.files == s.files - {id}
    ensures forall x: PageRef :: x.id != id ==> Visible(t, x) == Visible(s, x)
    ensures DirtySound(s) ==> DirtySound(t)
  {
    if DirtySound(s) {
      forall x | HasPage(t.regions, x) ensures CleanMatchesFile(t, x) {
        assert CleanMatchesFile(s, x);
      }
    }
  }

  /** Freeing a region touches no page of any other. */
  lemma FreeContents(s: Pager, id: Id)
    requires Valid(s)
    ensures forall x: PageRef :: x.id != id ==> Visible(Free(s, id), x) == Visible(s, x)
    ensures DirtySound(s) ==> DirtySound(Free(s, id))
  {
    if id in s.regions && !s.regions[id].anchored {
      FreeRegions(s, id);
      DroppedContents(s, Free(s, id), id);
    }
  }
}
