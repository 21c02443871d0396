/** What client calls leave alone: the pages of regions that are live before and after. */
module Survival {
  import opened Common
  import opened PagerState
  import opened PagerOps
  import opened PagerRegions
  import opened PagerFree
  import opened PagerRuns
  import opened ManagerState
  import opened Clients

  /** Page `x` is where it was, with the contents, the dirty bit and the file it had. */
  ghost predicate SamePage(p: Pager, n: Pager, x: PageRef) {
    && (HasPage(n.regions, x) <==> HasPage(p.regions, x))
    && (Pers(n.regions, x) <==> Pers(p.regions, x))
    && PteAt(n.regions, x) == PteAt(p.regions, x)
    && Visible(n, x) == Visible(p, x)
    && (FrameDirty(n, x) <==> FrameDirty(p, x))
    && (Pers(p.regions, x) ==> FilePage(n.files, x) == FilePage(p.files, x))
  }

  /** Regions live in both states are untouched, regions that are new have no page in RAM, and
      the dirty bits stay sound. */
  ghost predicate Carries(p: Pager, n: Pager) {
    && (forall x: PageRef :: x.id in p.regions && x.id in n.regions ==> SamePage(p, n, x))
    && (forall x: PageRef :: x.id !in p.regions ==> !PteAt(n.regions, x).Present?)
    && (DirtySound(p) ==> DirtySound(n))
  }

  /** A page whose dirty bit is sound keeps it sound, and a new one has it sound. */
  lemma CarriesClean(p: Pager, n: Pager, x: PageRef)
    requires Carries(p, n) && CleanMatchesFile(p, x) && Core(p, {}, {}) && Core(n, {}, {})
    ensures CleanMatchesFile(n, x)
  {
    if x.id in p.regions && x.id in n.regions {
      assert SamePage(p, n, x);
    }
  }

  lemma CarriesSelf(p: Pager)
    ensures Carries(p, p)
  {
  }

  lemma CarriesOn(p: Pager, q: Pager, n: Pager)
    requires Carries(p, q) && Carries(q, n)
    requires forall id :: id in p.regions && id in n.regions ==> id in q.regions
    ensures Carries(p, n)
  {
    forall x: PageRef | x.id in p.regions && x.id in n.regions ensures SamePage(p, n, x) {
      assert SamePage(p, q, x) && SamePage(q, n, x);
    }
    forall x: PageRef | x.id !in p.regions ensures !PteAt(n.regions, x).Present? {
      if x.id in q.regions && x.id in n.regions {
        assert SamePage(q, n, x);
      }
    }
  }

  /** A region without resident pages was added, or none was. */
  lemma AddedCarries(p: Pager, n: Pager, id: Id)
    requires n.infos == p.infos && (DirtySound(p) ==> DirtySound(n))
    requires n.regions == p.regions || (id !in p.regions && id in n.regions && n.regions == p.regions[id := n.regions[id]]
               && forall i :: 0 <= i < |n.regions[id].ptes| ==> !n.regions[id].ptes[i].Present?)
    requires forall x: PageRef :: x.id in p.regions ==> Visible(n, x) == Visible(p, x)
    requires forall x :: Pers(p.regions, x) ==> FilePage(n.files, x) == FilePage(p.files, x)
    requires forall x :: PteAt(p.regions, x).Present? ==> x.id in p.regions
    ensures Carries(p, n)
  {
  }

  lemma AllocateCarries(p: Pager, id: Id, size: nat, persistent: bool, reserved: Option<nat>)
    requires Valid(p)
    ensures Carries(p, Allocate(p, id, size, persistent, reserved).0)
  {
    AllocateContents(p, id, size, persistent, reserved);
    AllocateTable(p, id, size, persistent, reserved);
    AddedCarries(p, Allocate(p, id, size, persistent, reserved).0, id);
  }

  lemma OpenCarries(p: Pager, id: Id, openAt: Option<nat>)
    requires Valid(p) && (id in p.files && openAt.Some? ==> |p.files[id]| > 0)
    ensures Carries(p, GetAnchored(p, id, openAt).0)
  {
    GetAnchoredKeeps(p, id, openAt);
    AddedCarries(p, GetAnchored(p, id, openAt).0, id);
  }

  lemma DroppedCarries(p: Pager, n: Pager, id: Id)
    requires n.regions == p.regions - {id} && n.infos == p.infos
    requires forall x: PageRef :: x.id != id ==> Visible(n, x) == Visible(p, x)
    requires forall x: PageRef :: x.id != id ==> FilePage(n.files, x) == FilePage(p.files, x)
    requires DirtySound(p) ==> DirtySound(n)
    ensures Carries(p, n)
  {
  }

  lemma FreeCarries(p: Pager, id: Id)
    requires Valid(p)
    ensures Carries(p, Free(p, id))
  {
    FreeContents(p, id);
    FreeRegions(p, id);
    if id in p.regions && !p.regions[id].anchored {
      DroppedCarries(p, Free(p, id), id);
    }
  }

  lemma FlagCarries(p: Pager, n: Pager, id: Id, anchored: bool)
    requires id in p.regions && n == SetAnchored(p, id, anchored) && (DirtySound(p) ==> DirtySound(n))
    ensures Carries(p, n)
  {
    assert forall x :: PteAt(n.regions, x) == PteAt(p.regions, x);
  }

  lemma AnchorCarries(p: Pager, id: Id, anchored: bool)
    requires Valid(p) && id in p.regions && (anchored ==> p.regions[id].persistent)
    ensures Carries(p, SetAnchored(p, id, anchored))
  {
    SetAnchoredKeeps(p, id, anchored);
    FlagCarries(p, SetAnchored(p, id, anchored), id, anchored);
  }

  // ---------- the calls ----------

  lemma OpenedFile(m: Manager, id: Id, size: nat, a: Answers)
    requires Answered(m, id, size, a)
    ensures id in m.pager.files && a.openAt.Some? ==> |m.pager.files[id]| > 0
  {
  }

  lemma SegmentCarries(m: Manager, id: Id, segid: Option<int>)
    requires Valid(m.pager) && id in m.pager.regions
    ensures Carries(m.pager, AddSegment(m, id, segid).0.pager)
  {
    FreeCarries(m.pager, id);
    CarriesSelf(m.pager);
  }

  lemma AllocateRegionCarries(m: Manager, id: Id, size: nat, persistent: bool, a: Answers)
    requires Good(m) && Answered(m, id, size, a)
    ensures Carries(m.pager, AllocateRegion(m, id, size, persistent, a).0.pager)
  {
    CarriesSelf(m.pager);
    OpenedFile(m, id, size, a);
    OpenCarries(m.pager, id, a.openAt);
    var (p, e) := GetAnchored(m.pager, id, a.openAt);
    if id !in m.regions && e != Ok {
      AllocateCarries(m.pager, id, size, persistent, a.reserved);
      AllocateKeeps(m.pager, id, size, persistent, a.reserved);
      AllocateTable(m.pager, id, size, persistent, a.reserved);
      var (t, f) := Allocate(m.pager, id, size, persistent, a.reserved);
      if f == Ok {
        SegmentCarries(m.(pager := t), id, a.segid);
        FreeRegions(t, id);
        CarriesOn(m.pager, t, AddSegment(m.(pager := t), id, a.segid).0.pager);
      }
    }
  }

  lemma MapRegionCarries(m: Manager, id: Id, a: Answers)
    requires Good(m) && Answered(m, id, 0, a.(reserved := None))
    ensures Carries(m.pager, MapRegion(m, id, a).0.pager)
  {
    CarriesSelf(m.pager);
    OpenedFile(m, id, 0, a.(reserved := None));
    OpenCarries(m.pager, id, a.openAt);
    if id !in m.regions {
      GetAnchoredKeeps(m.pager, id, a.openAt);
      OpenTable(m.pager, id, a.openAt);
      var (p, e) := GetAnchored(m.pager, id, a.openAt);
      if e == Ok {
        SegmentCarries(m.(pager := p), id, a.segid);
        FreeRegions(p, id);
        CarriesOn(m.pager, p, AddSegment(m.(pager := p), id, a.segid).0.pager);
      }
    }
  }

  lemma UnanchorCarries(m: Manager, id: Id)
    requires Good(m)
    ensures Carries(m.pager, UnanchorRegion(m, id).0.pager)
  {
    CarriesSelf(m.pager);
    if id in m.pager.regions {
      var p := SetAnchored(m.pager, id, false);
      AnchorCarries(m.pager, id, false);
      SetAnchoredKeeps(m.pager, id, false);
      FreeCarries(p, id);
      FreeRegions(p, id);
      CarriesOn(m.pager, p, Free(p, id));
    }
  }

  lemma UnmapCarries(m: Manager, id: Id, removable: bool)
    requires Good(m)
    ensures var n := UnmapRegion(m, id, removable).0.pager; Carries(m.pager, n) && n.regions.Keys <= m.pager.regions.Keys
  {
    CarriesSelf(m.pager);
    FreeCarries(m.pager, id);
    FreeRegions(m.pager, id);
  }

  lemma {:induction false} DropCarries(c: Mappings, m: Manager, stuck: set<Id>)
    requires Good(m)
    ensures var n := DropAll(c, m, stuck).pager; Carries(m.pager, n) && n.regions.Keys <= m.pager.regions.Keys
    decreases |c|
  {
    if c == map[] {
      CarriesSelf(m.pager);
    } else {
      var addr := First(c);
      assert c.Keys == (c - {addr}).Keys + {addr};
      var n := UnmapRegion(m, c[addr], c[addr] !in stuck).0;
      UnmapGood(m, c[addr], c[addr] !in stuck);
      UnmapCarries(m, c[addr], c[addr] !in stuck);
      DropCarries(c - {addr}, n, stuck);
      CarriesOn(m.pager, n.pager, DropAll(c, m, stuck).pager);
    }
  }

  /** No call but persist touches a page of a region that is live before and after it. */
  lemma DoCarries(s: System, c: Call)
    requires Good(s.m) && Allowed(s, c) && !c.PersistCall?
    ensures Carries(s.m.pager, Do(s, c).m.pager)
  {
    var p := s.m.pager;
    CarriesSelf(p);
    match c
    case AllocCall(pid, addr, id, size, persistent, a) => AllocateRegionCarries(s.m, id, size, persistent, a);
    case MapCall(pid, addr, id, a) => MapRegionCarries(s.m, id, a);
    case UnmapCall(pid, addr, stuck) =>
      if addr in s.clients[pid] {
        UnmapCarries(s.m, s.clients[pid][addr], s.clients[pid][addr] !in stuck);
      }
    case AnchorCall(id) => if id in p.regions && p.regions[id].persistent { AnchorCarries(p, id, true); }
    case UnanchorCall(id) => UnanchorCarries(s.m, id);
    case SizeCall(id, a) =>
      OpenedFile(s.m, id, 0, a.(reserved := None));
      OpenCarries(p, id, a.openAt);
    case Connect(pid) =>
    case Disconnect(pid, stuck) => DropCarries(s.clients[pid], s.m, stuck);
  }
}
