/** `unfix`, `mark_dirty`, `persist` and the stores clients make on resident pages. */
module PagerAccess {
  import opened PagerState
  import opened PagerOps
  import opened PagerFaults

  /** Stores to this page are not on file yet. */
  predicate Unsaved(s: Pager, q: PageRef) {
    Visible(s, q) != FilePage(s.files, q)
  }

  // ---------- unfix and mark_dirty ----------

  function FrameOf(s: Pager, q: PageRef): (f: nat)
    requires Core(s, {}, {}) && PteAt(s.regions, q).Present?
    ensures f < |s.infos| && f < |s.ram|
  {
    PteAt(s.regions, q).frame
  }

  /** On a resident page the code assigns the dirty bit from the kind of this fault. */
  function Unfix(s: Pager, q: PageRef, write: bool): Pager
    requires Valid(s) && HasPage(s.regions, q)
  {
    if PteAt(s.regions, q).Present? then SetDirty(s, FrameOf(s, q), write) else FaultIn(s, q, write)
  }

  function MarkDirty(s: Pager, q: PageRef): Pager
    requires Valid(s) && HasPage(s.regions, q)
  {
    if PteAt(s.regions, q).Present? then SetDirty(s, FrameOf(s, q), true) else s
  }

  // ---------- what the fault handler is told ----------

  datatype UnfixResult = UnfixResult(from: nat, size: nat, mappingChanged: bool, writeprotect: bool)

  datatype MarkDirtyResult = MarkDirtyResult(from: nat, size: nat, writeunprotect: bool)

  /** The page of region `id` that holds byte `off`. */
  function PageAt(id: Id, off: nat): PageRef {
    PageRef(id, off / PAGE_SIZE)
  }

  function UnfixReply(s: Pager, id: Id, off: nat, write: bool): UnfixResult
    requires id in s.regions
  {
    var pte := PteAt(s.regions, PageAt(id, off));
    UnfixResult(s.regions[id].addr + (off - off % PAGE_SIZE), PAGE_SIZE,
                !pte.Present?, !pte.Present? && !pte.Untouched? && !write)
  }

  function MarkDirtyReply(s: Pager, id: Id, off: nat): MarkDirtyResult
    requires id in s.regions
  {
    MarkDirtyResult(s.regions[id].addr + (off - off % PAGE_SIZE), PAGE_SIZE, PteAt(s.regions, PageAt(id, off)).Present?)
  }

  lemma PageBounds(off: nat, n: nat)
    requires off < n * PAGE_SIZE
    ensures off / PAGE_SIZE < n
    ensures off - off % PAGE_SIZE <= off < off - off % PAGE_SIZE + PAGE_SIZE <= n * PAGE_SIZE
    ensures off - off % PAGE_SIZE == off / PAGE_SIZE * PAGE_SIZE
  {
  }

  /** The range reported for a byte of a region holds that byte and stays inside the region. */
  lemma ReplyCovers(s: Pager, id: Id, off: nat, write: bool)
    requires RegionsOk(s.regions, s.files) && id in s.regions && off < s.regions[id].size
    ensures HasPage(s.regions, PageAt(id, off))
    ensures var r := UnfixReply(s, id, off, write); var a := s.regions[id].addr;
            a <= r.from <= a + off < r.from + r.size <= a + s.regions[id].size
    ensures MarkDirtyReply(s, id, off).from == UnfixReply(s, id, off, write).from
  {
    PageBounds(off, |s.regions[id].ptes|);
  }

  /** A freshly mapped page is to be write-protected exactly when it ends up clean. */
  lemma ProtectsClean(s: Pager, id: Id, off: nat, write: bool)
    requires Valid(s) && HasPage(s.regions, PageAt(id, off)) && !PteAt(s.regions, PageAt(id, off)).Present?
    ensures UnfixReply(s, id, off, write).writeprotect <==>
            !FrameDirty(Unfix(s, PageAt(id, off), write), PageAt(id, off))
  {
    FaultInBit(s, PageAt(id, off), write);
  }

  lemma InstallBit(s: Pager, q: PageRef, f: nat, c: Page, dirty: bool)
    requires HasPage(s.regions, q) && f < |s.infos| && f < |s.ram|
    ensures FrameDirty(Install(s, q, f, c, dirty), q) <==> dirty
  {
    SetPteWrites(s.regions, q, Present(f));
  }

  /** A page faulted in is dirty exactly when the fault was a write or the page is new. */
  lemma FaultInBit(s: Pager, q: PageRef, write: bool)
    requires Valid(s) && HasPage(s.regions, q) && !PteAt(s.regions, q).Present?
    ensures FrameDirty(FaultIn(s, q, write), q) <==> write || PteAt(s.regions, q).Untouched?
  {
    FaultInReady(s, q);
    var t := TakeFrame(ReleaseSlot(s, q));
    InstallBit(t.0, q, t.1, Visible(s, q), write || PteAt(s.regions, q).Untouched?);
  }

  /** Rewriting a dirty bit moves no page and changes no contents. */
  lemma SetDirtyKeeps(s: Pager, q: PageRef, dirty: bool)
    requires Valid(s) && PteAt(s.regions, q).Present?
    ensures var t := SetDirty(s, FrameOf(s, q), dirty);
            Valid(t) && SamePages(s, t) && forall x :: Visible(t, x) == Visible(s, x)
    ensures var t := SetDirty(s, FrameOf(s, q), dirty);
            forall x :: FrameDirty(t, x) == if x == q then dirty else FrameDirty(s, x)
  {
    var t := SetDirty(s, FrameOf(s, q), dirty);
    assert forall f :: f in s.used ==> t.infos[f].owner == s.infos[f].owner;
  }

  lemma CleanMeans(s: Pager, q: PageRef)
    requires Core(s, {}, {})
    ensures CleanMatchesFile(s, q) <==>
            (Pers(s.regions, q) && PteAt(s.regions, q).Present? && !FrameDirty(s, q) ==> !Unsaved(s, q))
  {
  }

  lemma SetDirtySound(s: Pager, q: PageRef, dirty: bool)
    requires Valid(s) && PteAt(s.regions, q).Present? && DirtySound(s)
    ensures DirtySound(SetDirty(s, FrameOf(s, q), dirty)) <==> dirty || Anon(s.regions, q) || !Unsaved(s, q)
  {
    var t := SetDirty(s, FrameOf(s, q), dirty);
    SetDirtyKeeps(s, q, dirty);
    CleanMeans(t, q);
    forall x | HasPage(s.regions, x) && x != q ensures CleanMatchesFile(t, x) {
      assert CleanMatchesFile(s, x);
      CleanMeans(s, x);
      CleanMeans(t, x);
    }
    if dirty || Anon(s.regions, q) || !Unsaved(s, q) {
      assert DirtySound(t);
    } else {
      assert HasPage(t.regions, q) && !CleanMatchesFile(t, q);
    }
  }

  /** `unfix` keeps every account and, from a sound state, changes no page of any region. */
  lemma UnfixTransparent(s: Pager, q: PageRef, write: bool)
    requires Valid(s) && HasPage(s.regions, q)
    ensures Valid(Unfix(s, q, write)) && SamePages(s, Unfix(s, q, write))
    ensures PteAt(Unfix(s, q, write).regions, q).Present?
    ensures DirtySound(s) ==> forall x :: Visible(Unfix(s, q, write), x) == Visible(s, x)
  {
    if PteAt(s.regions, q).Present? {
      SetDirtyKeeps(s, q, write);
    } else {
      FaultInKeeps(s, q, write);
      FaultInContents(s, q, write);
      FaultInReady(s, q);
      SetPteWrites(TakeFrame(ReleaseSlot(s, q)).0.regions, q, Present(TakeFrame(ReleaseSlot(s, q)).1));
    }
  }

  /** A read fault delivered for a persistent page that is resident and holds unsaved stores. */
  predicate LateRead(s: Pager, q: PageRef, write: bool) {
    PteAt(s.regions, q).Present? && Pers(s.regions, q) && !write && Unsaved(s, q)
  }

  /** Exactly when `unfix` keeps the dirty bits sound: not on a late read fault for a resident
      persistent page that holds unsaved stores. */
  lemma UnfixSoundIff(s: Pager, q: PageRef, write: bool)
    requires Valid(s) && HasPage(s.regions, q) && DirtySound(s)
    ensures DirtySound(Unfix(s, q, write)) <==> !LateRead(s, q, write)
  {
    if PteAt(s.regions, q).Present? {
      SetDirtySound(s, q, write);
    } else {
      FaultInDirtySound(s, q, write);
    }
  }

  lemma MarkDirtyTransparent(s: Pager, q: PageRef)
    requires Valid(s) && HasPage(s.regions, q)
    ensures Valid(MarkDirty(s, q)) && SamePages(s, MarkDirty(s, q))
    ensures forall x :: Visible(MarkDirty(s, q), x) == Visible(s, x)
    ensures DirtySound(s) ==> DirtySound(MarkDirty(s, q))
  {
    if PteAt(s.regions, q).Present? {
      SetDirtyKeeps(s, q, true);
      if DirtySound(s) {
        SetDirtySound(s, q, true);
      }
    }
  }

  // ---------- client stores ----------

  /** A store to a resident page lands in its frame. */
  function Store(s: Pager, q: PageRef, v: Page): Pager
    requires Valid(s) && PteAt(s.regions, q).Present?
  {
    s.(ram := s.ram[FrameOf(s, q) := v])
  }

  /** A store changes that page for every client and no other page; the dirty bits stay sound
      exactly when the page was dirty, or anonymous, or the store rewrote what is on file. */
  lemma StoreHits(s: Pager, q: PageRef, v: Page)
    requires Valid(s) && PteAt(s.regions, q).Present?
    ensures Valid(Store(s, q, v)) && SamePages(s, Store(s, q, v))
    ensures forall x :: Visible(Store(s, q, v), x) == if x == q then v else Visible(s, x)
    ensures DirtySound(s) ==> (DirtySound(Store(s, q, v)) <==>
              FrameDirty(s, q) || Anon(s.regions, q) || v == FilePage(s.files, q))
  {
    var t := Store(s, q, v);
    assert Visible(t, q) == v;
    if DirtySound(s) {
      forall x | HasPage(s.regions, x) && x != q ensures CleanMatchesFile(t, x) {
        assert CleanMatchesFile(s, x);
      }
      assert HasPage(t.regions, q);
      CleanMeans(t, q);
    }
  }

  // ---------- persist ----------

  function PersistPage(s: Pager, q: PageRef): Pager
    requires Valid(s) && Pers(s.regions, q)
  {
    if FrameDirty(s, q) then
      SetDirty(s, FrameOf(s, q), false).(files := WriteFile(s.files, q, s.ram[FrameOf(s, q)]))
    else s
  }

  lemma PersistPageKeeps(s: Pager, q: PageRef)
    requires Valid(s) && Pers(s.regions, q)
    ensures var t := PersistPage(s, q); Valid(t) && SamePages(s, t) && t.regions == s.regions
    ensures var t := PersistPage(s, q); forall x :: Visible(t, x) == Visible(s, x)
    ensures var t := PersistPage(s, q); forall x :: FrameDirty(t, x) <==> FrameDirty(s, x) && x != q
    ensures var t := PersistPage(s, q); forall x :: x != q ==> FilePage(t.files, x) == FilePage(s.files, x)
    ensures FrameDirty(s, q) ==> !Unsaved(PersistPage(s, q), q)
  {
    if FrameDirty(s, q) {
      SetDirtyKeeps(s, q, false);
    }
  }

  /** Persisting a page saves it exactly if it is not marked clean while different from its file,
      and changes no page in this respect. */
  lemma PersistPageIff(s: Pager, q: PageRef)
    requires Valid(s) && Pers(s.regions, q)
    ensures !Unsaved(PersistPage(s, q), q) <==> CleanMatchesFile(s, q)
    ensures forall x :: CleanMatchesFile(PersistPage(s, q), x) <==> CleanMatchesFile(s, x)
  {
    var t := PersistPage(s, q);
    PersistPageKeeps(s, q);
    AbsentSaved(s, q);
    CleanMeans(s, q);
    forall x ensures CleanMatchesFile(t, x) <==> CleanMatchesFile(s, x) {
      CleanMeans(s, x);
      CleanMeans(t, x);
    }
  }

  /** A page of a persistent region that is not resident is on file. */
  lemma AbsentSaved(s: Pager, q: PageRef)
    requires Core(s, {}, {}) && Pers(s.regions, q)
    ensures !PteAt(s.regions, q).Present? ==> PteAt(s.regions, q) == Swapped(q.off) && !Unsaved(s, q)
  {
    assert q !in {};
  }

  /** The persist loop, over pages `i` up to but not including `n`. */
  function PersistRange(s: Pager, id: Id, i: nat, n: nat): Pager
    requires Valid(s) && id in s.regions && s.regions[id].persistent && n <= |s.regions[id].ptes|
    decreases n - i
  {
    if i >= n then s
    else
      PersistPageKeeps(s, PageRef(id, i));
      PersistRange(PersistPage(s, PageRef(id, i)), id, i + 1, n)
  }

  predicate InRange(q: PageRef, id: Id, i: nat, n: nat) {
    q.id == id && i <= q.off < n
  }

  /** The loop cleans exactly the pages it visits, saves their contents, and leaves contents
      everywhere and files elsewhere as they were. */
  lemma PersistRangeKeeps(s: Pager, id: Id, i: nat, n: nat)
    requires Valid(s) && id in s.regions && s.regions[id].persistent && n <= |s.regions[id].ptes|
    ensures var t := PersistRange(s, id, i, n); Valid(t) && t.regions == s.regions
    ensures var t := PersistRange(s, id, i, n); forall x :: Visible(t, x) == Visible(s, x)
    ensures var t := PersistRange(s, id, i, n); forall x :: FrameDirty(t, x) <==> FrameDirty(s, x) && !InRange(x, id, i, n)
    ensures var t := PersistRange(s, id, i, n);
            forall x :: !InRange(x, id, i, n) ==> FilePage(t.files, x) == FilePage(s.files, x)
    ensures DirtySound(s) ==> DirtySound(PersistRange(s, id, i, n))
    ensures DirtySound(s) ==> forall x :: InRange(x, id, i, n) ==> !Unsaved(PersistRange(s, id, i, n), x)
  {
    PersistRangeFrame(s, id, i, n);
    PersistRangeIff(s, id, i, n);
    if DirtySound(s) {
      RangeSound(s, PersistRange(s, id, i, n), id, i, n);
    }
  }

  lemma RangeSound(s: Pager, t: Pager, id: Id, i: nat, n: nat)
    requires DirtySound(s) && t.regions == s.regions && id in s.regions && n <= |s.regions[id].ptes|
    requires forall x :: CleanMatchesFile(t, x) <==> CleanMatchesFile(s, x)
    requires forall x :: InRange(x, id, i, n) ==> (!Unsaved(t, x) <==> CleanMatchesFile(s, x))
    ensures DirtySound(t) && forall x :: InRange(x, id, i, n) ==> !Unsaved(t, x)
  {
    forall x | InRange(x, id, i, n) ensures !Unsaved(t, x) {
      assert HasPage(s.regions, x);
    }
  }

  lemma {:induction false} PersistRangeFrame(s: Pager, id: Id, i: nat, n: nat)
    requires Valid(s) && id in s.regions && s.regions[id].persistent && n <= |s.regions[id].ptes|
    ensures var t := PersistRange(s, id, i, n); Valid(t) && t.regions == s.regions
    ensures var t := PersistRange(s, id, i, n); forall x :: Visible(t, x) == Visible(s, x)
    ensures var t := PersistRange(s, id, i, n); forall x :: FrameDirty(t, x) <==> FrameDirty(s, x) && !InRange(x, id, i, n)
    ensures var t := PersistRange(s, id, i, n);
            forall x :: !InRange(x, id, i, n) ==> FilePage(t.files, x) == FilePage(s.files, x)
    decreases n - i
  {
    if i < n {
      var q := PageRef(id, i);
      PersistPageKeeps(s, q);
      PersistRangeFrame(PersistPage(s, q), id, i + 1, n);
      assert forall x :: InRange(x, id, i, n) <==> x == q || InRange(x, id, i + 1, n);
    }
  }

  /** Exactly which of the pages it visits the loop saves. */
  lemma {:induction false} PersistRangeIff(s: Pager, id: Id, i: nat, n: nat)
    requires Valid(s) && id in s.regions && s.regions[id].persistent && n <= |s.regions[id].ptes|
    ensures var t := PersistRange(s, id, i, n); forall x :: CleanMatchesFile(t, x) <==> CleanMatchesFile(s, x)
    ensures var t := PersistRange(s, id, i, n); forall x :: InRange(x, id, i, n) ==> (!Unsaved(t, x) <==> CleanMatchesFile(s, x))
    decreases n - i
  {
    if i < n {
      var q := PageRef(id, i);
      PersistPageKeeps(s, q);
      PersistPageIff(s, q);
      PersistRangeIff(PersistPage(s, q), id, i + 1, n);
      PersistRangeFrame(PersistPage(s, q), id, i + 1, n);
      RangeExtended(s, PersistPage(s, q), PersistRange(s, id, i, n), id, i, n);
    }
  }

  /** From one page and the rest of the range to the range. */
  lemma RangeExtended(s: Pager, p: Pager, t: Pager, id: Id, i: nat, n: nat)
    requires forall x :: CleanMatchesFile(p, x) <==> CleanMatchesFile(s, x)
    requires !Unsaved(p, PageRef(id, i)) <==> CleanMatchesFile(s, PageRef(id, i))
    requires Unsaved(t, PageRef(id, i)) <==> Unsaved(p, PageRef(id, i))
    requires forall x :: InRange(x, id, i + 1, n) ==> (!Unsaved(t, x) <==> CleanMatchesFile(p, x))
    ensures forall x :: InRange(x, id, i, n) ==> (!Unsaved(t, x) <==> CleanMatchesFile(s, x))
  {
    forall x | InRange(x, id, i, n) ensures !Unsaved(t, x) <==> CleanMatchesFile(s, x) {
      assert x == PageRef(id, i) || InRange(x, id, i + 1, n);
    }
  }

  // ---------- persist by byte range ----------

  /** `can_persist`, in its subtraction form. */
  function CanPersist(s: Pager, id: Id, off: nat, size: nat): Errno {
    if id !in s.regions then ENOENT
    else if off > s.regions[id].size || size > s.regions[id].size - off then EINVAL
    else if off % PAGE_SIZE != 0 || size % PAGE_SIZE != 0 || size == 0 then EINVAL
    else if !s.regions[id].persistent then EOPNOTSUPP
    else Ok
  }

  /** An accepted range is a non-empty run of whole pages of a persistent region. */
  lemma CanPersistPages(s: Pager, id: Id, off: nat, size: nat)
    requires Valid(s) && CanPersist(s, id, off, size) == Ok
    ensures s.regions[id].persistent && size / PAGE_SIZE > 0
    ensures off / PAGE_SIZE + size / PAGE_SIZE <= |s.regions[id].ptes|
    ensures off == off / PAGE_SIZE * PAGE_SIZE && size == size / PAGE_SIZE * PAGE_SIZE
  {
  }

  /** `persist`: the loop starts at the first page of the range but stops at the page *count*. */
  function Persist(s: Pager, id: Id, off: nat, size: nat): Pager
    requires Valid(s) && CanPersist(s, id, off, size) == Ok
  {
    CanPersistPages(s, id, off, size);
    PersistRange(s, id, off / PAGE_SIZE, size / PAGE_SIZE)
  }

  /** The pages of the requested range that the loop never reaches. */
  predicate Missed(q: PageRef, id: Id, off: nat, size: nat) {
    InRange(q, id, off / PAGE_SIZE, off / PAGE_SIZE + size / PAGE_SIZE)
    && !InRange(q, id, off / PAGE_SIZE, size / PAGE_SIZE)
  }

  /** Every page of the requested range is on file. */
  ghost predicate Durable(t: Pager, id: Id, off: nat, size: nat) {
    forall x :: InRange(x, id, off / PAGE_SIZE, off / PAGE_SIZE + size / PAGE_SIZE) ==> !Unsaved(t, x)
  }

  /** Persist always keeps contents and everything outside the range. Page by page, it saves what
      its loop visits exactly if the page is not marked clean while different from its file. So
      it makes the requested range durable exactly if that holds of all pages it visits and the
      missed tail already was durable; at offset zero there is no tail. */
  lemma PersistDurableIff(s: Pager, id: Id, off: nat, size: nat)
    requires Valid(s) && CanPersist(s, id, off, size) == Ok
    ensures var t := Persist(s, id, off, size);
            && Valid(t) && t.regions == s.regions && (forall x :: Visible(t, x) == Visible(s, x))
            && forall x :: CleanMatchesFile(t, x) <==> CleanMatchesFile(s, x)
    ensures var t := Persist(s, id, off, size);
            forall x :: !InRange(x, id, off / PAGE_SIZE, off / PAGE_SIZE + size / PAGE_SIZE) ==>
              FilePage(t.files, x) == FilePage(s.files, x) && (FrameDirty(t, x) <==> FrameDirty(s, x))
    ensures var t := Persist(s, id, off, size);
            forall x :: InRange(x, id, off / PAGE_SIZE, size / PAGE_SIZE) ==> (!Unsaved(t, x) <==> CleanMatchesFile(s, x))
    ensures Durable(Persist(s, id, off, size), id, off, size)
            <==> (forall x :: InRange(x, id, off / PAGE_SIZE, size / PAGE_SIZE) ==> CleanMatchesFile(s, x))
                 && (forall x :: Missed(x, id, off, size) ==> !Unsaved(s, x))
    ensures var t := Persist(s, id, off, size);
            (forall x :: InRange(x, id, off / PAGE_SIZE, off / PAGE_SIZE + size / PAGE_SIZE) ==> !FrameDirty(t, x))
            <==> (forall x :: Missed(x, id, off, size) ==> !FrameDirty(s, x))
    ensures off == 0 <==> !exists x :: Missed(x, id, off, size)
  {
    CanPersistPages(s, id, off, size);
    var i, n := off / PAGE_SIZE, size / PAGE_SIZE;
    PersistRangeFrame(s, id, i, n);
    PersistRangeIff(s, id, i, n);
    MissedSame(s, id, off, size);
    DurableParts(s, Persist(s, id, off, size), id, off, size);
    if off != 0 {
      assert Missed(PageRef(id, i + n - 1), id, off, size);
    }
  }

  lemma MissedSame(s: Pager, id: Id, off: nat, size: nat)
    requires Valid(s) && CanPersist(s, id, off, size) == Ok
    ensures var t := Persist(s, id, off, size);
            forall x :: Missed(x, id, off, size) ==> (Unsaved(t, x) <==> Unsaved(s, x)) && (FrameDirty(t, x) <==> FrameDirty(s, x))
  {
    CanPersistPages(s, id, off, size);
    PersistRangeFrame(s, id, off / PAGE_SIZE, size / PAGE_SIZE);
  }

  lemma DurableParts(s: Pager, t: Pager, id: Id, off: nat, size: nat)
    requires forall x :: InRange(x, id, off / PAGE_SIZE, size / PAGE_SIZE) ==> (!Unsaved(t, x) <==> CleanMatchesFile(s, x))
    requires forall x :: Missed(x, id, off, size) ==> (Unsaved(t, x) <==> Unsaved(s, x))
    ensures Durable(t, id, off, size)
            <==> (forall x :: InRange(x, id, off / PAGE_SIZE, size / PAGE_SIZE) ==> CleanMatchesFile(s, x))
                 && (forall x :: Missed(x, id, off, size) ==> !Unsaved(s, x))
  {
    forall x | InRange(x, id, off / PAGE_SIZE, size / PAGE_SIZE)
      ensures InRange(x, id, off / PAGE_SIZE, off / PAGE_SIZE + size / PAGE_SIZE)
    {
    }
    forall x | InRange(x, id, off / PAGE_SIZE, off / PAGE_SIZE + size / PAGE_SIZE)
      ensures InRange(x, id, off / PAGE_SIZE, size / PAGE_SIZE) || Missed(x, id, off, size)
    {
    }
  }

  /** Where the dirty bits are sound, they stay so, and only the missed tail is in question. */
  lemma PersistDurableSound(s: Pager, id: Id, off: nat, size: nat)
    requires Valid(s) && DirtySound(s) && CanPersist(s, id, off, size) == Ok
    ensures DirtySound(Persist(s, id, off, size))
    ensures Durable(Persist(s, id, off, size), id, off, size) <==> forall x :: Missed(x, id, off, size) ==> !Unsaved(s, x)
  {
    CanPersistPages(s, id, off, size);
    PersistDurableIff(s, id, off, size);
    var t := Persist(s, id, off, size);
    forall x | HasPage(t.regions, x) ensures CleanMatchesFile(t, x) {
      assert CleanMatchesFile(s, x);
    }
    forall x | InRange(x, id, off / PAGE_SIZE, size / PAGE_SIZE) ensures CleanMatchesFile(s, x) {
      assert HasPage(s.regions, x);
    }
  }
}
