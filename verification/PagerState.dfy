/** The state of the demo buffer manager, the contents clients see through it, and the
    invariants that every operation keeps. A page's bytes are an opaque value; the swap
    file and the per-region files map page indices to such values. */
module PagerState {
  import opened Common

  const PAGE_SIZE: nat := 0x20_0000

  type Id = nat

  /** Page contents: the fill of a first-touched anonymous page, the fill of a new persistent
      file, a hole left by ftruncate, or anything a client stored. */
  datatype Page = Fresh | FileFill | Hole | Data(token: int)

  /** A page-table entry. A present entry names a RAM frame, a swapped one an index into the
      swap file (anonymous regions) or into the region's own file (persistent regions). */
  datatype Pte = Untouched | Present(frame: nat) | Swapped(slot: nat)

  datatype Region = Region(addr: nat, size: nat, ptes: seq<Pte>, persistent: bool, anchored: bool)

  datatype PageRef = PageRef(id: Id, off: nat)

  datatype PageInfo = PageInfo(owner: PageRef, dirty: bool)

  type Regions = map<Id, Region>

  type Files = map<Id, seq<Page>>

  datatype Pager = Pager(
    avail: nat,            // anonymous pages that may still be handed out
    regions: Regions,
    infos: seq<PageInfo>,  // one per RAM frame
    free: seq<nat>,        // free frames, taken from the front
    used: seq<nat>,        // used frames, oldest fault-in first
    slots: seq<nat>,       // free swap slots, taken from the back
    ram: seq<Page>,
    swap: seq<Page>,
    files: Files)

  // ---------- page-table entries ----------

  predicate HasPage(rs: Regions, q: PageRef) {
    q.id in rs && q.off < |rs[q.id].ptes|
  }

  function PteAt(rs: Regions, q: PageRef): Pte {
    if HasPage(rs, q) then rs[q.id].ptes[q.off] else Untouched
  }

  predicate Anon(rs: Regions, q: PageRef) {
    HasPage(rs, q) && !rs[q.id].persistent
  }

  predicate Pers(rs: Regions, q: PageRef) {
    HasPage(rs, q) && rs[q.id].persistent
  }

  function SetPte(rs: Regions, q: PageRef, pte: Pte): Regions
    requires HasPage(rs, q)
  {
    rs[q.id := rs[q.id].(ptes := rs[q.id].ptes[q.off := pte])]
  }

  /** `ns` is `rs` with the entry of page `q` replaced, and no other page affected. */
  ghost predicate PteWritten(rs: Regions, ns: Regions, q: PageRef, pte: Pte) {
    && HasPage(rs, q)
    && (forall x :: HasPage(ns, x) <==> HasPage(rs, x))
    && (forall x :: Anon(ns, x) <==> Anon(rs, x))
    && (forall x :: Pers(ns, x) <==> Pers(rs, x))
    && (forall x :: PteAt(ns, x) == if x == q then pte else PteAt(rs, x))
  }

  lemma SetPteWrites(rs: Regions, q: PageRef, pte: Pte)
    requires HasPage(rs, q)
    ensures PteWritten(rs, SetPte(rs, q, pte), q, pte)
  {
  }

  // ---------- what clients see ----------

  function FilePage(files: Files, q: PageRef): Page {
    if q.id in files && q.off < |files[q.id]| then files[q.id][q.off] else Hole
  }

  function SlotPage(swap: seq<Page>, k: nat): Page {
    if k < |swap| then swap[k] else Hole
  }

  function FramePage(ram: seq<Page>, f: nat): Page {
    if f < |ram| then ram[f] else Hole
  }

  /** The contents of page `q` as reached through its page-table entry. */
  function Visible(s: Pager, q: PageRef): Page {
    match PteAt(s.regions, q)
    case Present(f) => FramePage(s.ram, f)
    case Swapped(k) =>
      if Pers(s.regions, q) then FilePage(s.files, PageRef(q.id, k)) else SlotPage(s.swap, k)
    case Untouched => Fresh
  }

  // ---------- invariants ----------

  /** Free frames, used frames and the frames `hand` being moved between the two are all the
      frames, each counted once. */
  ghost predicate FramesOk(n: nat, free: seq<nat>, used: seq<nat>, hand: set<nat>) {
    && Distinct(free) && Distinct(used)
    && (forall f :: f in free ==> f < n && f !in used && f !in hand)
    && (forall f :: f in used ==> f < n && f !in hand)
    && (forall f :: f in hand ==> f < n)
    && |free| + |used| + |hand| == n
  }

  /** The frame table is the exact inverse of the present page-table entries. */
  ghost predicate InfoOk(rs: Regions, infos: seq<PageInfo>, used: seq<nat>) {
    && (forall f :: f in used ==> f < |infos| && PteAt(rs, infos[f].owner) == Present(f))
    && (forall q :: PteAt(rs, q).Present? ==>
          PteAt(rs, q).frame in used && infos[PteAt(rs, q).frame].owner == q)
  }

  predicate HoldsSlot(rs: Regions, q: PageRef) {
    Anon(rs, q) && PteAt(rs, q).Swapped?
  }

  ghost predicate AllAnonPages(rs: Regions, r: set<PageRef>) {
    forall q :: q in r <==> Anon(rs, q)
  }

  lemma AnonPagesExist(rs: Regions)
    ensures exists r :: AllAnonPages(rs, r)
  {
    var r := set id, off | id in rs && 0 <= off < |rs[id].ptes| && Anon(rs, PageRef(id, off)) :: PageRef(id, off);
    forall q ensures q in r <==> Anon(rs, q) {
      assert q == PageRef(q.id, q.off);
    }
    assert AllAnonPages(rs, r);
  }

  /** The pages of the anonymous regions. */
  ghost function AnonPages(rs: Regions): (r: set<PageRef>)
    ensures forall q :: q in r <==> Anon(rs, q)
  {
    AnonPagesExist(rs);
    var r :| AllAnonPages(rs, r);
    r
  }

  /** The anonymous pages that live in the swap file. */
  ghost function SlotHolders(rs: Regions): (r: set<PageRef>)
    ensures forall q :: q in r <==> HoldsSlot(rs, q)
  {
    set q | q in AnonPages(rs) && HoldsSlot(rs, q)
  }

  /** No two pages outside `busy` hold the same slot. */
  ghost predicate SlotsUnique(rs: Regions, busy: set<PageRef>) {
    forall q, r :: (HoldsSlot(rs, q) && HoldsSlot(rs, r) && q !in busy && r !in busy
                    && PteAt(rs, q) == PteAt(rs, r)) ==> q == r
  }

  /** Free slots and slots held by swapped anonymous pages are all the slots, each counted
      once. A page in `busy` has just given its slot back and is exempt. */
  ghost predicate SlotsOk(rs: Regions, slots: seq<nat>, n: nat, busy: set<PageRef>) {
    && Distinct(slots)
    && (forall i :: 0 <= i < |slots| ==> slots[i] < n)
    && (forall q :: HoldsSlot(rs, q) && q !in busy ==> PteAt(rs, q).slot < n && PteAt(rs, q).slot !in slots)
    && SlotsUnique(rs, busy)
    && |slots| + |SlotHolders(rs) - busy| == n
  }

  /** A persistent page is resident or swapped to its own offset in its own file. */
  ghost predicate PersOk(rs: Regions, busy: set<PageRef>) {
    forall q :: Pers(rs, q) && q !in busy ==>
      PteAt(rs, q).Present? || PteAt(rs, q) == Swapped(q.off)
  }

  ghost predicate RegionsOk(rs: Regions, files: Files) {
    forall id :: id in rs ==>
      && rs[id].size == |rs[id].ptes| * PAGE_SIZE
      && |rs[id].ptes| > 0
      && (rs[id].anchored ==> rs[id].persistent)
      && (rs[id].persistent ==> id in files && |files[id]| == |rs[id].ptes|)
  }

  /** Anonymous memory is never promised beyond RAM plus swap less one page. */
  ghost predicate CapacityOk(s: Pager) {
    s.avail + |AnonPages(s.regions)| <= |s.ram| + |s.swap| - 1
  }

  /** Everything but capacity, with the pages `busy` and frames `hand` in transit. */
  ghost predicate Core(s: Pager, busy: set<PageRef>, hand: set<nat>) {
    && |s.infos| == |s.ram| >= 1
    && RegionsOk(s.regions, s.files)
    && FramesOk(|s.ram|, s.free, s.used, hand)
    && InfoOk(s.regions, s.infos, s.used)
    && SlotsOk(s.regions, s.slots, |s.swap|, busy)
    && PersOk(s.regions, busy)
  }

  ghost predicate Valid(s: Pager) {
    Core(s, {}, {}) && CapacityOk(s)
  }

  /** A resident clean page of a persistent region equals its page on file. */
  ghost predicate CleanMatchesFile(s: Pager, q: PageRef) {
    Pers(s.regions, q) && PteAt(s.regions, q).Present?
    && PteAt(s.regions, q).frame < |s.infos| && !s.infos[PteAt(s.regions, q).frame].dirty
    ==> Visible(s, q) == FilePage(s.files, q)
  }

  ghost predicate DirtySound(s: Pager) {
    forall q :: HasPage(s.regions, q) ==> CleanMatchesFile(s, q)
  }

  predicate FrameDirty(s: Pager, q: PageRef) {
    PteAt(s.regions, q).Present? && PteAt(s.regions, q).frame < |s.infos|
    && s.infos[PteAt(s.regions, q).frame].dirty
  }
}
