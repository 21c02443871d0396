/** Creating, reopening and freeing regions. */
module PagerRegions {
  import opened Common
  import opened PagerState
  import opened PagerOps
  import opened PagerFaults

  // ---------- counting a region's pages ----------

  function FirstPages(id: Id, n: nat): (r: set<PageRef>)
    ensures forall q :: q in r <==> q.id == id && q.off < n
    ensures |r| == n
  {
    if n == 0 then {} else
      assert PageRef(id, n - 1) !in FirstPages(id, n - 1);
      FirstPages(id, n - 1) + {PageRef(id, n - 1)}
  }

  // ---------- adding a region ----------

  function NewPtes(n: nat, persistent: bool): (p: seq<Pte>)
    ensures |p| == n
  {
    seq(n, i requires 0 <= i < n => if persistent then Swapped(i) else Untouched)
  }

  function AddRegion(s: Pager, id: Id, n: nat, persistent: bool, anchored: bool, addr: nat): Pager {
    s.(regions := s.regions[id := Region(addr, n * PAGE_SIZE, NewPtes(n, persistent), persistent, anchored)])
  }

  /** `ns` is `rs` plus the `n` untouched pages of one new region. */
  ghost predicate RegionAdded(rs: Regions, ns: Regions, id: Id, n: nat, persistent: bool) {
    && (forall x :: HasPage(ns, x) <==> HasPage(rs, x) || (x.id == id && x.off < n))
    && (forall x :: Anon(ns, x) <==> Anon(rs, x) || (!persistent && x.id == id && x.off < n))
    && (forall x :: Pers(ns, x) <==> Pers(rs, x) || (persistent && x.id == id && x.off < n))
    && (forall x: PageRef :: x.id != id ==> PteAt(ns, x) == PteAt(rs, x))
    && (forall x: PageRef :: x.id == id ==>
          PteAt(ns, x) == if persistent && x.off < n then Swapped(x.off) else Untouched)
  }

  lemma AddRegionPages(s: Pager, id: Id, n: nat, persistent: bool, anchored: bool, addr: nat)
    requires id !in s.regions
    ensures RegionAdded(s.regions, AddRegion(s, id, n, persistent, anchored, addr).regions, id, n, persistent)
  {
  }

  lemma AddRegionSlots(rs: Regions, ns: Regions, id: Id, n: nat, persistent: bool, slots: seq<nat>, m: nat)
    requires SlotsOk(rs, slots, m, {}) && id !in rs && RegionAdded(rs, ns, id, n, persistent)
    ensures SlotsOk(ns, slots, m, {})
  {
    SlotsSame(rs, ns, slots, m, {});
  }

  lemma AddRegionInfo(rs: Regions, ns: Regions, id: Id, n: nat, persistent: bool, infos: seq<PageInfo>, used: seq<nat>)
    requires InfoOk(rs, infos, used) && id !in rs && RegionAdded(rs, ns, id, n, persistent)
    ensures InfoOk(ns, infos, used)
  {
  }

  lemma AddRegionCount(rs: Regions, ns: Regions, id: Id, n: nat, persistent: bool)
    requires id !in rs && RegionAdded(rs, ns, id, n, persistent)
    ensures |AnonPages(ns)| == |AnonPages(rs)| + if persistent then 0 else n
  {
    if persistent {
      assert AnonPages(ns) == AnonPages(rs);
    } else {
      assert AnonPages(ns) == AnonPages(rs) + FirstPages(id, n);
    }
  }

  lemma AddRegionKeeps(s: Pager, id: Id, n: nat, persistent: bool, anchored: bool, addr: nat)
    requires Core(s, {}, {}) && id !in s.regions && n > 0 && (anchored ==> persistent)
    requires persistent ==> id in s.files && |s.files[id]| == n
    ensures Core(AddRegion(s, id, n, persistent, anchored, addr), {}, {})
    ensures var t := AddRegion(s, id, n, persistent, anchored, addr);
            |AnonPages(t.regions)| == |AnonPages(s.regions)| + if persistent then 0 else n
  {
    var t := AddRegion(s, id, n, persistent, anchored, addr);
    AddRegionPages(s, id, n, persistent, anchored, addr);
    AddRegionSlots(s.regions, t.regions, id, n, persistent, s.slots, |s.swap|);
    AddRegionInfo(s.regions, t.regions, id, n, persistent, s.infos, s.used);
    AddRegionCount(s.regions, t.regions, id, n, persistent);
  }

  /** A new region shows its fill or its file; nothing else changes. */
  lemma AddRegionContents(s: Pager, id: Id, n: nat, persistent: bool, anchored: bool, addr: nat)
    requires id !in s.regions
    ensures var t := AddRegion(s, id, n, persistent, anchored, addr);
            forall x: PageRef :: x.id != id ==> Visible(t, x) == Visible(s, x)
    ensures var t := AddRegion(s, id, n, persistent, anchored, addr);
            forall x: PageRef :: x.id == id && x.off < n ==>
              Visible(t, x) == if persistent then FilePage(s.files, x) else Fresh
    ensures DirtySound(s) ==> DirtySound(AddRegion(s, id, n, persistent, anchored, addr))
  {
    var t := AddRegion(s, id, n, persistent, anchored, addr);
    AddRegionPages(s, id, n, persistent, anchored, addr);
    if DirtySound(s) {
      forall x | HasPage(t.regions, x) ensures CleanMatchesFile(t, x) {
        if HasPage(s.regions, x) {
          assert CleanMatchesFile(s, x);
        }
      }
    }
  }

  // ---------- allocate ----------

  function SetFile(s: Pager, id: Id, n: nat, fill: Page): Pager {
    s.(files := s.files[id := seq(n, _ => fill)])
  }

  function NewFile(s: Pager, id: Id, n: nat): Pager { SetFile(s, id, n, Hole) }

  /** `allocate`, given the address the reservation came back with, if it did. On a failed
      reservation neither the pages taken nor the file created are given back. */
  function Allocate(s: Pager, id: Id, size: nat, persistent: bool, reserved: Option<nat>): (Pager, Errno) {
    var n := size / PAGE_SIZE;
    if id in s.regions then (s, EEXIST)
    else if size == 0 || size % PAGE_SIZE != 0 then (s, EINVAL)
    else if persistent then
      if id in s.files then (s, EEXIST)
      else if reserved.None? then (NewFile(s, id, n), ENOMEM)
      else (AddRegion(SetFile(s, id, n, FileFill), id, n, true, false, reserved.value), Ok)
    else if n > s.avail then (s, ENOMEM)
    else if reserved.None? then (s.(avail := s.avail - n), ENOMEM)
    else (AddRegion(s.(avail := s.avail - n), id, n, false, false, reserved.value), Ok)
  }

  /** `get_anchored_region`: any region already known, else one opened from its file. */
  function GetAnchored(s: Pager, id: Id, reserved: Option<nat>): (Pager, Errno) {
    if id in s.regions then (s, Ok)
    else if id !in s.files then (s, ENOENT)
    else if reserved.None? then (s, ENOMEM)
    else (AddRegion(s, id, |s.files[id]|, true, true, reserved.value), Ok)
  }

  /** Pages promised to nobody: RAM plus swap less one, minus the pages on offer, minus the
      pages of live anonymous regions. */
  ghost function Gap(s: Pager): int {
    |s.ram| + |s.swap| - 1 - s.avail - |AnonPages(s.regions)|
  }

  lemma SameAnonSameGap(s: Pager, t: Pager)
    requires s.avail == t.avail && |s.ram| == |t.ram| && |s.swap| == |t.swap|
    requires forall x :: Anon(t.regions, x) <==> Anon(s.regions, x)
    ensures Gap(t) == Gap(s)
  {
    assert AnonPages(t.regions) == AnonPages(s.regions);
  }

  lemma SetFileKeeps(s: Pager, id: Id, n: nat, fill: Page)
    requires Core(s, {}, {}) && (id in s.regions ==> !s.regions[id].persistent)
    ensures Core(SetFile(s, id, n, fill), {}, {})
    ensures forall x :: Pers(s.regions, x) ==> FilePage(SetFile(s, id, n, fill).files, x) == FilePage(s.files, x)
    ensures forall x :: Visible(SetFile(s, id, n, fill), x) == Visible(s, x)
    ensures DirtySound(s) ==> DirtySound(SetFile(s, id, n, fill))
  {
    var t := SetFile(s, id, n, fill);
    if DirtySound(s) {
      forall x | HasPage(t.regions, x) ensures CleanMatchesFile(t, x) {
        assert CleanMatchesFile(s, x);
      }
    }
  }

  /** Allocation keeps the accounts; the gap grows exactly when an admitted anonymous request
      finds no address, by the pages requested. */
  lemma AllocateKeeps(s: Pager, id: Id, size: nat, persistent: bool, reserved: Option<nat>)
    requires Valid(s)
    ensures Valid(Allocate(s, id, size, persistent, reserved).0)
    ensures var leaks := id !in s.regions && size > 0 && size % PAGE_SIZE == 0 && !persistent
                         && size / PAGE_SIZE <= s.avail && reserved.None?;
            Gap(Allocate(s, id, size, persistent, reserved).0) == Gap(s) + if leaks then size / PAGE_SIZE else 0
  {
    var n := size / PAGE_SIZE;
    if id !in s.regions && size != 0 && size % PAGE_SIZE == 0 {
      assert n > 0;
      if persistent {
        FileKeeps(s, id, n, Hole);
        if reserved.Some? {
          PersistentAdded(s, id, n, reserved.value);
        }
      } else if n <= s.avail && reserved.Some? {
        AnonymousAdded(s, id, n, reserved.value);
      }
    }
  }

  lemma FileKeeps(s: Pager, id: Id, n: nat, fill: Page)
    requires Valid(s) && id !in s.regions
    ensures var t := SetFile(s, id, n, fill); Valid(t) && Gap(t) == Gap(s)
  {
    SetFileKeeps(s, id, n, fill);
  }

  lemma PersistentAdded(s: Pager, id: Id, n: nat, addr: nat)
    requires Valid(s) && id !in s.regions && n > 0
    ensures var t := AddRegion(SetFile(s, id, n, FileFill), id, n, true, false, addr); Valid(t) && Gap(t) == Gap(s)
  {
    FileKeeps(s, id, n, FileFill);
    AddRegionKeeps(SetFile(s, id, n, FileFill), id, n, true, false, addr);
  }

  lemma AnonymousAdded(s: Pager, id: Id, n: nat, addr: nat)
    requires Valid(s) && id !in s.regions && 0 < n <= s.avail
    ensures var t := AddRegion(s.(avail := s.avail - n), id, n, false, false, addr); Valid(t) && Gap(t) == Gap(s)
  {
    AddRegionKeeps(s.(avail := s.avail - n), id, n, false, false, addr);
  }

  lemma ChargedContents(s: Pager, n: nat)
    ensures var t := s.(avail := n); (forall x :: Visible(t, x) == Visible(s, x)) && (DirtySound(s) ==> DirtySound(t))
  {
    var t := s.(avail := n);
    if DirtySound(s) {
      forall x | HasPage(t.regions, x) ensures CleanMatchesFile(t, x) {
        assert CleanMatchesFile(s, x);
      }
    }
  }

  /** A new region starts with its fill on every page, and no other page changes. */
  lemma AllocateContents(s: Pager, id: Id, size: nat, persistent: bool, reserved: Option<nat>)
    requires Valid(s)
    ensures var (t, e) := Allocate(s, id, size, persistent, reserved);
            forall x :: Visible(t, x) == if e == Ok && x.id == id && x.off < size / PAGE_SIZE
                                         then (if persistent then FileFill else Fresh) else Visible(s, x)
    ensures DirtySound(s) ==> DirtySound(Allocate(s, id, size, persistent, reserved).0)
  {
    var n := size / PAGE_SIZE;
    var (t, e) := Allocate(s, id, size, persistent, reserved);
    if t != s {
      if e == Ok {
        if persistent {
          PersistentShows(s, id, n, reserved.value);
        } else {
          AnonymousShows(s, id, n, reserved.value);
        }
      } else if persistent {
        SetFileKeeps(s, id, n, Hole);
      } else {
        ChargedContents(s, s.avail - n);
      }
    }
  }

  /** A new region shows `fill`, and nothing else changes. */
  ghost predicate ShowsFill(s: Pager, t: Pager, id: Id, n: nat, fill: Page) {
    && (forall x :: Visible(t, x) == if x.id == id && x.off < n then fill else Visible(s, x))
    && (DirtySound(s) ==> DirtySound(t))
  }

  lemma BeyondRegion(s: Pager, id: Id, n: nat, persistent: bool, addr: nat)
    requires id !in s.regions
    ensures var t := AddRegion(s, id, n, persistent, false, addr);
            forall x: PageRef :: x.id == id && x.off >= n ==> Visible(t, x) == Visible(s, x)
  {
  }

  lemma PersistentShows(s: Pager, id: Id, n: nat, addr: nat)
    requires Valid(s) && id !in s.regions
    ensures ShowsFill(s, AddRegion(SetFile(s, id, n, FileFill), id, n, true, false, addr), id, n, FileFill)
  {
    var f := SetFile(s, id, n, FileFill);
    SetFileKeeps(s, id, n, FileFill);
    AddRegionContents(f, id, n, true, false, addr);
    BeyondRegion(f, id, n, true, addr);
  }

  lemma AnonymousShows(s: Pager, id: Id, n: nat, addr: nat)
    requires Valid(s) && id !in s.regions && n <= s.avail
    ensures ShowsFill(s, AddRegion(s.(avail := s.avail - n), id, n, false, false, addr), id, n, Fresh)
  {
    var f := s.(avail := s.avail - n);
    ChargedContents(s, s.avail - n);
    AddRegionContents(f, id, n, false, false, addr);
    BeyondRegion(f, id, n, false, addr);
  }

  lemma GetAnchoredKeeps(s: Pager, id: Id, reserved: Option<nat>)
    requires Valid(s)
    requires id in s.files && reserved.Some? ==> |s.files[id]| > 0
    ensures Valid(GetAnchored(s, id, reserved).0) && Gap(GetAnchored(s, id, reserved).0) == Gap(s)
    ensures var (t, e) := GetAnchored(s, id, reserved);
            forall x :: Visible(t, x) == if e == Ok && id !in s.regions && x.id == id && x.off < |s.files[id]|
                                         then s.files[id][x.off] else Visible(s, x)
    ensures DirtySound(s) ==> DirtySound(GetAnchored(s, id, reserved).0)
  {
    if id !in s.regions && id in s.files && reserved.Some? {
      AddRegionKeeps(s, id, |s.files[id]|, true, true, reserved.value);
      AddRegionContents(s, id, |s.files[id]|, true, true, reserved.value);
    }
  }
}
