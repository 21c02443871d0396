/** The buffer manager's operations as functions from state to state, branch for branch. */
module PagerOps {
  import opened Common
  import opened PagerState

  datatype Errno = Ok | EEXIST | EINVAL | ENOMEM | ENOENT | EOPNOTSUPP | EXPMEM

  function Init(nrRam: nat, nrSwap: nat, files: Files): (s: Pager)
    requires nrRam >= 1
  {
    Pager(nrRam + nrSwap - 1, map[], seq(nrRam, _ => PageInfo(PageRef(0, 0), false)),
          seq(nrRam, i => i), [], seq(nrSwap, i => i),
          seq(nrRam, _ => Hole), seq(nrSwap, _ => Hole), files)
  }

  // ---------- eviction ----------

  /** The test `find_swappable_page` makes on a used frame. */
  predicate Swappable(s: Pager, f: nat) {
    (f < |s.infos| && Pers(s.regions, s.infos[f].owner)) || s.slots != []
  }

  /** The position at which the scan of the used list stops, `|s.used|` if it never does. */
  function VictimIndex(s: Pager, i: nat): (j: nat)
    requires i <= |s.used|
    ensures i <= j <= |s.used|
    ensures forall k :: i <= k < j ==> !Swappable(s, s.used[k])
    ensures j < |s.used| ==> Swappable(s, s.used[j])
    decreases |s.used| - i
  {
    if i < |s.used| && !Swappable(s, s.used[i]) then VictimIndex(s, i + 1) else i
  }

  /** A victim exists and everything the eviction touches is in range. */
  predicate EvictReady(s: Pager) {
    var j := VictimIndex(s, 0);
    && j < |s.used| && s.used[j] < |s.infos| && s.used[j] < |s.ram|
    && var v := s.infos[s.used[j]].owner;
       && HasPage(s.regions, v)
       && (Anon(s.regions, v) ==> s.slots != [] && s.slots[|s.slots| - 1] < |s.swap|)
       && (Pers(s.regions, v) ==> v.id in s.files && v.off < |s.files[v.id]|)
  }

  function Victim(s: Pager): nat
    requires EvictReady(s)
  {
    s.used[VictimIndex(s, 0)]
  }

  function VictimPage(s: Pager): PageRef
    requires EvictReady(s)
  {
    s.infos[Victim(s)].owner
  }

  function WriteFile(files: Files, q: PageRef, v: Page): Files
    requires q.id in files && q.off < |files[q.id]|
  {
    files[q.id := files[q.id][q.off := v]]
  }

  /** `swap_out_page`: detach the victim, and write it back unless it is a clean page of a
      persistent region. The frame is then in the caller's hand. */
  function SwapOut(s: Pager): Pager
    requires EvictReady(s)
  {
    var f := Victim(s);
    var v := VictimPage(s);
    if Anon(s.regions, v) then
      var k := s.slots[|s.slots| - 1];
      s.(used := Without(s.used, f), slots := s.slots[..|s.slots| - 1],
         regions := SetPte(s.regions, v, Swapped(k)), swap := s.swap[k := s.ram[f]])
    else
      s.(used := Without(s.used, f),
         regions := SetPte(s.regions, v, Swapped(v.off)),
         files := if s.infos[f].dirty then WriteFile(s.files, v, s.ram[f]) else s.files)
  }

  // ---------- faults ----------

  /** `swap_in_page` gives the slot of an anonymous page back at once. */
  function ReleaseSlot(s: Pager, q: PageRef): Pager {
    if HoldsSlot(s.regions, q) then s.(slots := s.slots + [PteAt(s.regions, q).slot]) else s
  }

  /** A frame for the faulting page: a free one if there is one, else the victim's. */
  function TakeFrame(s: Pager): (Pager, nat)
    requires s.free == [] ==> EvictReady(s)
  {
    if s.free != [] then (s.(free := s.free[1..]), s.free[0]) else (SwapOut(s), Victim(s))
  }

  /** Put contents `c` of page `q` into frame `f` and make the page present. */
  function Install(s: Pager, q: PageRef, f: nat, c: Page, dirty: bool): Pager
    requires HasPage(s.regions, q) && f < |s.infos| && f < |s.ram|
  {
    s.(used := s.used + [f], infos := s.infos[f := PageInfo(q, dirty)], ram := s.ram[f := c],
       regions := SetPte(s.regions, q, Present(f)))
  }

  function SetDirty(s: Pager, f: nat, dirty: bool): Pager
    requires f < |s.infos|
  {
    s.(infos := s.infos[f := s.infos[f].(dirty := dirty)])
  }
}
