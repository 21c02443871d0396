/** The demo buffer manager as the program runs it: fields updated in place, loops and all.
    Every method is proved to do what its counterpart on values does, so the theorems about
    runs are theorems about these methods. */
module BufferManager {
  import opened Common
  import opened PagerState
  import opened PagerOps
  import opened PagerFaults
  import opened PagerAccess
  import opened PagerRegions
  import opened PagerFree
  import opened PagerRuns
  import opened PagerGuarantees

  /** The files are the same, but for the contents of file `id`. */
  ghost predicate OneFileDiffers(a: Files, b: Files, id: Id) {
    id in a && id in b && |a[id]| == |b[id]| && b == a[id := b[id]]
  }

  class DemoBufferManager {
    var availablePages: nat
    var regions: Regions
    const pageInfos: array<PageInfo>
    var freePages: seq<nat>
    var usedPages: seq<nat>
    var freeSwapEntries: seq<nat>
    const shm: array<Page>
    var tmpPage: Page
    var swapFile: seq<Page>
    var persFiles: Files

    ghost function Abs(): Pager
      reads this, pageInfos, shm
    {
      Pager(availablePages, regions, pageInfos[..], freePages, usedPages, freeSwapEntries, shm[..], swapFile, persFiles)
    }

    constructor (nrRam: nat, nrSwap: nat, files: Files)
      requires nrRam >= 1
      ensures fresh(pageInfos) && fresh(shm)
      ensures Valid(Abs()) && DirtySound(Abs()) && Shows(Abs(), Flat(map[], files))
      ensures Abs() == Init(nrRam, nrSwap, files)
    {
      var pages := [];
      for i := 0 to nrRam
        invariant pages == seq(i, j => j)
      {
        pages := pages + [i];
      }
      var entries := [];
      for i := 0 to nrSwap
        invariant entries == seq(i, j => j)
      {
        entries := entries + [i];
      }
      freePages, freeSwapEntries := pages, entries;
      pageInfos := new PageInfo[nrRam](_ => PageInfo(PageRef(0, 0), false));
      shm := new Page[nrRam](_ => Hole);
      swapFile, persFiles, tmpPage := seq(nrSwap, _ => Hole), files, Hole;
      regions, usedPages, availablePages := map[], [], nrRam + nrSwap - 1;
      new;
      assert pageInfos[..] == seq(nrRam, _ => PageInfo(PageRef(0, 0), false));
      assert shm[..] == seq(nrRam, _ => Hole);
      assert Abs() == Init(nrRam, nrSwap, files);
      InitShows(nrRam, nrSwap, files);
    }

    // ---------- faults ----------

    /** Read a swapped page into the temporary page; a slot of the swap file is free again at once. */
    method SwapInPage(q: PageRef, swapIx: nat)
      requires PteAt(regions, q) == Swapped(swapIx)
      modifies this`tmpPage, this`freeSwapEntries
      ensures tmpPage == Visible(old(Abs()), q)
      ensures Abs() == ReleaseSlot(old(Abs()), q)
    {
      if regions[q.id].persistent {
        tmpPage := FilePage(persFiles, PageRef(q.id, swapIx));
      } else {
        tmpPage := SlotPage(swapFile, swapIx);
        freeSwapEntries := freeSwapEntries + [swapIx];
      }
    }

    /** The scan for a victim. The loop tests nothing but swappability: it is the capacity
        reservation that keeps it inside the list. */
    method FindSwappablePage(ghost busy: set<PageRef>) returns (pageNr: nat, swapIx: nat)
      requires Core(Abs(), busy, {}) && CapacityOk(Abs()) && freePages == []
      modifies this`freeSwapEntries
      ensures EvictReady(old(Abs())) && pageNr == Victim(old(Abs()))
      ensures var s := old(Abs()); var v := VictimPage(s);
              if Anon(s.regions, v)
              then s.slots != [] && freeSwapEntries == s.slots[..|s.slots| - 1] && swapIx == s.slots[|s.slots| - 1]
              else freeSwapEntries == s.slots && swapIx == v.off
    {
      EvictionReady(Abs(), busy);
      var it := 0;
      while true
        invariant 0 <= it <= VictimIndex(Abs(), 0)
        invariant freeSwapEntries == old(freeSwapEntries)
        decreases |usedPages| - it
      {
        pageNr := usedPages[it];
        assert pageNr in usedPages;
        var owner := pageInfos[pageNr].owner;
        assert PteAt(regions, owner) == Present(pageNr);
        if regions[owner.id].persistent {
          swapIx := owner.off;
          return;
        }
        if freeSwapEntries != [] {
          swapIx := freeSwapEntries[|freeSwapEntries| - 1];
          freeSwapEntries := freeSwapEntries[..|freeSwapEntries| - 1];
          return;
        }
        it := it + 1;
      }
    }

    method SwapOutPage(ghost busy: set<PageRef>) returns (pageNr: nat)
      requires Core(Abs(), busy, {}) && CapacityOk(Abs()) && freePages == []
      modifies this`freeSwapEntries, this`usedPages, this`regions, this`swapFile, this`persFiles
      ensures EvictReady(old(Abs())) && pageNr == Victim(old(Abs()))
      ensures Abs() == SwapOut(old(Abs()))
    {
      var swapIx;
      pageNr, swapIx := FindSwappablePage(busy);
      var page := pageInfos[pageNr];
      var q := page.owner;
      usedPages := Without(usedPages, pageNr);
      regions := SetPte(regions, q, Swapped(swapIx));
      if !regions[q.id].persistent {
        swapFile := swapFile[swapIx := shm[pageNr]];
      } else if page.dirty {
        persFiles := WriteFile(persFiles, PageRef(q.id, swapIx), shm[pageNr]);
      }
    }

    /** `unfix`: bring the page in if it is not resident, else overwrite its dirty bit. */
    method Unfix(id: Id, off: nat, write: bool) returns (r: UnfixResult)
      requires Valid(Abs()) && id in regions && off < regions[id].size
      modifies this, pageInfos, shm
      ensures HasPage(old(regions), PageAt(id, off))
      ensures Abs() == PagerAccess.Unfix(old(Abs()), PageAt(id, off), write)
      ensures r == UnfixReply(old(Abs()), id, off, write)
    {
      ghost var s := Abs();
      ReplyCovers(s, id, off, write);
      var q := PageAt(id, off);
      var region := regions[id];
      var pte := region.ptes[q.off];
      r := UnfixResult(region.addr + (off - off % PAGE_SIZE), PAGE_SIZE, false, false);
      if pte.Present? {
        pageInfos[pte.frame] := pageInfos[pte.frame].(dirty := write);
      } else {
        FaultInStages(s, q);
        var dirty := BringIn(q, write);
        r := r.(mappingChanged := true, writeprotect := !dirty);
      }
    }

    /** The rest of `unfix`, for a page that is not resident. */
    method BringIn(q: PageRef, write: bool) returns (dirty: bool)
      requires StagesReady(Abs(), q) && !PteAt(regions, q).Present?
      modifies this, pageInfos, shm
      ensures Abs() == Stages(old(Abs()), q, write)
      ensures dirty <==> write || old(PteAt(regions, q)).Untouched?
    {
      var pageNr := MakeSpace(q);
      FillFrame(q, pageNr, write);
      dirty := pageInfos[pageNr].dirty;
    }

    /** Read the page in if it is swapped out, and find it a frame. */
    method MakeSpace(q: PageRef) returns (pageNr: nat)
      requires HasPage(regions, q) && Core(ReleaseSlot(Abs(), q), {q}, {}) && CapacityOk(ReleaseSlot(Abs(), q))
      requires ReleaseSlot(Abs(), q).free == [] ==> EvictReady(ReleaseSlot(Abs(), q))
      modifies this
      ensures (Abs(), pageNr) == TakeFrame(ReleaseSlot(old(Abs()), q))
      ensures old(PteAt(regions, q)).Swapped? ==> tmpPage == Visible(old(Abs()), q)
    {
      var pte := regions[q.id].ptes[q.off];
      if pte.Swapped? {
        SwapInPage(q, pte.slot);
      }
      pageNr := GetFrame(q);
    }

    /** A free frame if there is one, else the frame of an evicted page. */
    method GetFrame(q: PageRef) returns (pageNr: nat)
      requires Core(Abs(), {q}, {}) && CapacityOk(Abs())
      modifies this`freePages, this`freeSwapEntries, this`usedPages, this`regions, this`swapFile, this`persFiles
      ensures old(freePages) == [] ==> EvictReady(old(Abs()))
      ensures (Abs(), pageNr) == TakeFrame(old(Abs()))
    {
      if freePages != [] {
        pageNr := freePages[0];
        freePages := freePages[1..];
      } else {
        pageNr := SwapOutPage({q});
      }
    }

    /** Enter the page in the frame table, map it, and copy or fill its contents. */
    method FillFrame(q: PageRef, pageNr: nat, write: bool)
      requires HasPage(regions, q) && pageNr < pageInfos.Length && pageNr < shm.Length && !PteAt(regions, q).Present?
      modifies this`usedPages, this`regions, pageInfos, shm
      ensures var swapped := old(PteAt(regions, q).Swapped?);
              Abs() == Install(old(Abs()), q, pageNr, if swapped then tmpPage else Fresh, write || !swapped)
    {
      var pte := regions[q.id].ptes[q.off];
      usedPages := usedPages + [pageNr];
      pageInfos[pageNr] := PageInfo(q, write);
      if pte.Swapped? {
        shm[pageNr] := tmpPage;
      } else {
        shm[pageNr] := Fresh;
        pageInfos[pageNr] := pageInfos[pageNr].(dirty := true);
      }
      regions := SetPte(regions, q, Present(pageNr));
    }

    method MarkDirty(id: Id, off: nat) returns (r: MarkDirtyResult)
      requires Valid(Abs()) && id in regions && off < regions[id].size
      modifies pageInfos
      ensures HasPage(old(regions), PageAt(id, off))
      ensures Abs() == PagerAccess.MarkDirty(old(Abs()), PageAt(id, off))
      ensures r == MarkDirtyReply(old(Abs()), id, off)
    {
      ReplyCovers(Abs(), id, off, true);
      var pte := regions[id].ptes[off / PAGE_SIZE];
      if pte.Present? {
        pageInfos[pte.frame] := pageInfos[pte.frame].(dirty := true);
      }
      r := MarkDirtyResult(regions[id].addr + (off - off % PAGE_SIZE), PAGE_SIZE, pte.Present?);
    }

    // ---------- regions ----------

    /** Fill a new file page by page. */
    method InitFile(id: Id, n: nat)
      requires id in persFiles && |persFiles[id]| == n
      modifies this`persFiles
      ensures persFiles == old(persFiles)[id := seq(n, _ => FileFill)]
    {
      for i := 0 to n
        invariant id in persFiles && |persFiles[id]| == n && persFiles == old(persFiles)[id := persFiles[id]]
        invariant forall j :: 0 <= j < i ==> persFiles[id][j] == FileFill
      {
        persFiles := WriteFile(persFiles, PageRef(id, i), FileFill);
      }
      assert persFiles[id] == seq(n, _ => FileFill);
    }

    /** `reserved` is what the address reservation answers when it is asked. */
    method Allocate(id: Id, size: nat, persistent: bool, reserved: Option<nat>) returns (e: Errno)
      requires Valid(Abs())
      modifies this`regions, this`persFiles, this`availablePages
      ensures (Abs(), e) == PagerRegions.Allocate(old(Abs()), id, size, persistent, reserved)
    {
      if id in regions {
        return EEXIST;
      }
      if size == 0 || size % PAGE_SIZE != 0 {
        return EINVAL;
      }
      var n := size / PAGE_SIZE;
      if persistent {
        if id in persFiles {
          return EEXIST;
        }
        persFiles := persFiles[id := seq(n, _ => Hole)];
      } else {
        if n > availablePages {
          return ENOMEM;
        }
        availablePages := availablePages - n;
      }
      if reserved.None? {
        return ENOMEM;
      }
      regions := regions[id := Region(reserved.value, n * PAGE_SIZE, NewPtes(n, persistent), persistent, false)];
      if persistent {
        InitFile(id, n);
        assert persFiles == old(persFiles)[id := seq(n, _ => FileFill)];
      }
      return Ok;
    }

    /** Free: the region leaves the table first, then its frames and slots come back. */
    method Free(id: Id)
      requires Valid(Abs())
      modifies this`regions, this`usedPages, this`freePages, this`freeSwapEntries, this`persFiles, this`availablePages
      ensures Abs() == PagerFree.Free(old(Abs()), id)
    {
      if id !in regions || regions[id].anchored {
        return;
      }
      ghost var s := Abs();
      var region := regions[id];
      regions := regions - {id};
      forall i | 0 <= i < |region.ptes| ensures ReleaseStep(s, id, i) {
        ReleaseEffect(s, id, i);
      }
      ReleasePages(id, region, s);
      if region.persistent {
        persFiles := persFiles - {id};
      } else {
        availablePages := availablePages + |region.ptes|;
      }
      FreeRegions(s, id);
      ReleaseAllFrame(s, id, |region.ptes|);
      assert regions == PagerFree.Free(s, id).regions;
    }

    /** The loop of `free`: dirty persistent pages are written out on the way. */
    method ReleasePages(id: Id, region: Region, ghost s: Pager)
      requires id in s.regions && s.regions[id] == region
      requires pageInfos[..] == s.infos && shm[..] == s.ram && persFiles == s.files
      requires usedPages == s.used && freePages == s.free && freeSwapEntries == s.slots
      requires forall i :: 0 <= i < |region.ptes| ==> ReleaseStep(s, id, i)
      requires region.persistent ==> id in persFiles && |persFiles[id]| == |region.ptes|
      modifies this`usedPages, this`freePages, this`freeSwapEntries, this`persFiles
      ensures var t := ReleaseAll(s, id, |region.ptes|);
              usedPages == t.used && freePages == t.free && freeSwapEntries == t.slots
      ensures persFiles - {id} == s.files - {id} && (!region.persistent ==> persFiles == s.files)
    {
      ghost var t := s;
      for i := 0 to |region.ptes|
        invariant t == ReleaseAll(s, id, i)
        invariant usedPages == t.used && freePages == t.free && freeSwapEntries == t.slots
        invariant if region.persistent then OneFileDiffers(s.files, persFiles, id) else persFiles == s.files
      {
        assert ReleaseStep(s, id, i);
        ReleaseOne(PageRef(id, i), region.ptes[i], region.persistent);
        t := ReleaseAll(s, id, i + 1);
      }
    }

    method ReleaseOne(q: PageRef, pte: Pte, persistent: bool)
      requires pte.Present? ==> pte.frame < pageInfos.Length && pte.frame < shm.Length && pageInfos[pte.frame].owner == q
      requires persistent ==> q.id in persFiles && q.off < |persFiles[q.id]|
      modifies this`usedPages, this`freePages, this`freeSwapEntries, this`persFiles
      ensures usedPages == if pte.Present? then Without(old(usedPages), pte.frame) else old(usedPages)
      ensures freePages == if pte.Present? then old(freePages) + [pte.frame] else old(freePages)
      ensures freeSwapEntries ==
              if pte.Swapped? && !persistent then old(freeSwapEntries) + [pte.slot] else old(freeSwapEntries)
      ensures persFiles ==
              if pte.Present? && persistent && pageInfos[pte.frame].dirty
              then WriteFile(old(persFiles), q, shm[pte.frame]) else old(persFiles)
    {
      if pte.Present? {
        usedPages := Without(usedPages, pte.frame);
        freePages := freePages + [pte.frame];
        if persistent && pageInfos[pte.frame].dirty {
          persFiles := WriteFile(persFiles, pageInfos[pte.frame].owner, shm[pte.frame]);
        }
      } else if pte.Swapped? && !persistent {
        freeSwapEntries := freeSwapEntries + [pte.slot];
      }
    }

    method Anchor(id: Id) returns (e: Errno)
      modifies this`regions
      ensures (Abs(), e) == PagerRuns.Anchor(old(Abs()), id)
    {
      if id !in regions {
        return ENOENT;
      }
      if !regions[id].persistent {
        return EINVAL;
      }
      regions := regions[id := regions[id].(anchored := true)];
      return Ok;
    }

    method Unanchor(id: Id) returns (e: Errno)
      modifies this`regions
      ensures (Abs(), e) == PagerRuns.Unanchor(old(Abs()), id)
    {
      if id !in regions {
        return ENOENT;
      }
      regions := regions[id := regions[id].(anchored := false)];
      return Ok;
    }

    method GetAnchoredRegion(id: Id, reserved: Option<nat>) returns (e: Errno, addr: nat, size: nat)
      modifies this`regions
      ensures (Abs(), e) == GetAnchored(old(Abs()), id, reserved)
      ensures e == Ok ==> id in regions && addr == regions[id].addr && size == regions[id].size
    {
      addr, size := 0, 0;
      if id in regions {
        return Ok, regions[id].addr, regions[id].size;
      }
      if id !in persFiles {
        return ENOENT, 0, 0;
      }
      size := |persFiles[id]| * PAGE_SIZE;
      if reserved.None? {
        return ENOMEM, 0, size;
      }
      addr := reserved.value;
      regions := regions[id := Region(addr, size, NewPtes(|persFiles[id]|, true), true, true)];
      e := Ok;
    }

    // ---------- persist and shutdown ----------

    method CanPersistRange(id: Id, off: nat, size: nat) returns (e: Errno)
      ensures e == CanPersist(Abs(), id, off, size)
    {
      if id !in regions {
        return ENOENT;
      }
      if off > regions[id].size || size > regions[id].size - off {
        return EINVAL;
      }
      if off % PAGE_SIZE != 0 || size % PAGE_SIZE != 0 || size == 0 {
        return EINVAL;
      }
      return if regions[id].persistent then Ok else EOPNOTSUPP;
    }

    method Persist(id: Id, off: nat, size: nat)
      requires Valid(Abs()) && CanPersist(Abs(), id, off, size) == Ok
      modifies this`persFiles, pageInfos
      ensures Abs() == PagerAccess.Persist(old(Abs()), id, off, size)
    {
      CanPersistPages(Abs(), id, off, size);
      var poff, n := off / PAGE_SIZE, size / PAGE_SIZE;
      ghost var s := Abs();
      var i := poff;
      while i < n
        invariant Valid(Abs()) && regions == s.regions
        invariant PersistRange(Abs(), id, i, n) == PersistRange(s, id, poff, n)
      {
        PersistPageKeeps(Abs(), PageRef(id, i));
        PersistOne(id, i);
        i := i + 1;
      }
    }

    /** One round of the persist loop. */
    method PersistOne(id: Id, i: nat)
      requires Valid(Abs()) && Pers(regions, PageRef(id, i))
      modifies this`persFiles, pageInfos
      ensures Abs() == PersistPage(old(Abs()), PageRef(id, i))
    {
      var pte := regions[id].ptes[i];
      if pte.Present? {
        if pageInfos[pte.frame].dirty {
          persFiles := WriteFile(persFiles, PageRef(id, i), shm[pte.frame]);
          pageInfos[pte.frame] := pageInfos[pte.frame].(dirty := false);
        }
      }
    }

    /** The destructor: write every dirty persistent page back to its file. */
    method Shutdown()
      requires Valid(Abs())
      modifies this`persFiles
      ensures persFiles == WriteBack(old(Abs()), |usedPages|)
      ensures old(DirtySound(Abs())) ==>
                forall q :: Pers(regions, q) ==> FilePage(persFiles, q) == Visible(old(Abs()), q)
    {
      ghost var s := Abs();
      for i := 0 to |usedPages|
        invariant persFiles == WriteBack(s, i)
      {
        var pageNr := usedPages[i];
        assert pageNr in usedPages;
        var page := pageInfos[pageNr];
        if regions[page.owner.id].persistent && page.dirty {
          persFiles := WriteFile(persFiles, page.owner, shm[pageNr]);
        }
      }
      RestartIff(s);
    }
  }
}
