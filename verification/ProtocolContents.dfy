/** What clients see over every interleaving: exactly when a page shows the last value stored. */
module ProtocolContents {
  import opened PagerState
  import opened PagerFaults
  import opened PagerAccess
  import opened PagerRuns
  import opened ManagerState
  import opened Clients
  import opened Survival
  import opened FaultProtocol
  import opened Interleavings
  import opened PageTracking

  // ---------- one step ----------

  /** The step evicts page `x`, which is marked clean and differs from its file. */
  ghost predicate DropsStores(w: World, l: Label, x: PageRef)
    requires Good(w.sys.m) && Ranged(w, l)
  {
    l.Advance? && AdvanceDrops(w, x)
  }

  ghost predicate AdvanceDrops(w: World, x: PageRef)
    requires Good(w.sys.m) && CanAdvance(w)
  {
    w.phase.Blocked? && !w.phase.kind.WriteProtect? && DropsPage(PagerOf(w), w.phase.q, x)
  }

  lemma UnfixSeenIff(p: Pager, q: PageRef, write: bool, x: PageRef)
    requires Valid(p) && HasPage(p.regions, q)
    ensures Visible(Unfix(p, q, write), x) == Visible(p, x) <==> !DropsPage(p, q, x)
  {
    if PteAt(p.regions, q).Present? {
      SetDirtyKeeps(p, q, write);
    } else {
      FaultInContents(p, q, write);
    }
  }

  lemma WorkSeenIff(w: World, x: PageRef)
    requires Good(w.sys.m) && w.phase.Blocked? && CanAdvance(w)
    ensures Visible(PagerOf(Work(w)), x) == Visible(PagerOf(w), x) <==> !AdvanceDrops(w, x)
  {
    if w.phase.kind.WriteProtect? {
      MarkDirtyTransparent(PagerOf(w), w.phase.q);
    } else {
      UnfixSeenIff(PagerOf(w), w.phase.q, w.phase.write, x);
    }
  }

  /** Advancing changes a page exactly by evicting it with stores that its bit does not show. */
  lemma AdvanceSeenIff(w: World, x: PageRef)
    requires Good(w.sys.m) && CanAdvance(w)
    ensures Visible(PagerOf(Advanced(w)), x) == Visible(PagerOf(w), x) <==> !AdvanceDrops(w, x)
  {
    if w.phase.Blocked? {
      WorkSeenIff(w, x);
    } else if w.phase.Persisting? && w.phase.done >= w.phase.size {
      var off, size := w.phase.off, w.phase.size;
      CanPersistPages(PagerOf(w), w.phase.id, off, size);
      PersistRangeKeeps(PagerOf(w), w.phase.id, off / PAGE_SIZE, size / PAGE_SIZE);
    }
  }

  /** The contents of page `x` after a step, given those before. */
  function PageAfter(l: Label, x: PageRef, before: Page): Page {
    if l.ClientStore? && l.q == x then l.v else before
  }

  lemma CallContents(s: System, c: Call, x: PageRef)
    requires Good(s.m) && Allowed(s, c) && !c.PersistCall?
    requires x.id in s.m.pager.regions && x.id in Do(s, c).m.pager.regions
    ensures Visible(Do(s, c).m.pager, x) == Visible(s.m.pager, x)
  {
    DoCarries(s, c);
    assert SamePage(s.m.pager, Do(s, c).m.pager, x);
  }

  lemma BeginContents(w: World, l: Label, x: PageRef)
    requires Good(w.sys.m) && Ranged(w, l) && !l.Advance? && (l.CallStep? ==> !l.c.PersistCall?)
    requires x.id in PagerOf(w).regions && x.id in PagerOf(Begin(w, l)).regions
    ensures Visible(PagerOf(Begin(w, l)), x) == PageAfter(l, x, Visible(PagerOf(w), x))
  {
    match l
    case ClientStore(q, v) => StoreHits(PagerOf(w), q, v);
    case CallStep(c) => CallContents(w.sys, c, x);
    case _ => QuietBegin(w, l);
  }

  lemma QuietBegin(w: World, l: Label)
    requires Good(w.sys.m) && Ranged(w, l) && (l.Fetch? || l.FaultBegin? || l.PersistBegin?)
    ensures PagerOf(Begin(w, l)) == PagerOf(w)
  {
  }

  /** A step leaves a page of a region that stays with what was last stored to it, exactly when it
      does not drop stores. */
  lemma NextSeenIff(w: World, l: Label, x: PageRef)
    requires Good(w.sys.m) && CanStep(w, l) && Ranged(w, l)
    requires x.id in PagerOf(w).regions && x.id in PagerOf(Next(w, l)).regions
    ensures Visible(PagerOf(Next(w, l)), x) == PageAfter(l, x, Visible(PagerOf(w), x)) <==> !DropsStores(w, l, x)
  {
    if l.Advance? {
      AdvanceSeenIff(w, x);
    } else {
      BeginContents(w, l, x);
    }
  }

  // ---------- every interleaving ----------

  /** The region is there in every state along the way. */
  ghost predicate Stays(w: World, ls: seq<Label>, id: Id)
    requires Steady(w) && Course(w, ls)
    decreases |ls|
  {
    id in PagerOf(w).regions && (ls == [] || (NextSteady(w, ls[0]); Stays(Next(w, ls[0]), ls[1..], id)))
  }

  function LastStore(ls: seq<Label>, x: PageRef, before: Page): Page {
    if ls == [] then before else LastStore(ls[1..], x, PageAfter(ls[0], x, before))
  }

  /** No step along the way drops stores of `x`. */
  ghost predicate KeepsStores(w: World, ls: seq<Label>, x: PageRef)
    requires Steady(w) && Course(w, ls)
    decreases |ls|
  {
    ls == [] || (NextSteady(w, ls[0]); !DropsStores(w, ls[0], x) && KeepsStores(Next(w, ls[0]), ls[1..], x))
  }

  /** Page `x` shows `now` in this state, and what was last stored to it in every later one. */
  ghost predicate SeenThroughout(w: World, ls: seq<Label>, x: PageRef, now: Page)
    requires Steady(w) && Course(w, ls)
    decreases |ls|
  {
    Visible(PagerOf(w), x) == now &&
    (ls == [] || (NextSteady(w, ls[0]); SeenThroughout(Next(w, ls[0]), ls[1..], x, PageAfter(ls[0], x, now))))
  }

  /** Exactly when clients see the last store: over every interleaving, forgetting steps included,
      a page of a region that stays shows the last value stored to it in all states if and only
      if it is never evicted while marked clean and different from its file. */
  lemma {:induction false} SeenIff(w: World, ls: seq<Label>, x: PageRef)
    requires Steady(w) && Course(w, ls) && Stays(w, ls, x.id)
    ensures SeenThroughout(w, ls, x, Visible(PagerOf(w), x)) <==> KeepsStores(w, ls, x)
    decreases |ls|
  {
    if ls != [] {
      NextSteady(w, ls[0]);
      NextSeenIff(w, ls[0], x);
      if !DropsStores(w, ls[0], x) {
        SeenIff(Next(w, ls[0]), ls[1..], x);
      }
    }
  }

  lemma {:induction false} SeenAtEnd(w: World, ls: seq<Label>, x: PageRef, now: Page)
    requires Steady(w) && Course(w, ls) && SeenThroughout(w, ls, x, now)
    ensures Visible(PagerOf(End(w, ls)), x) == LastStore(ls, x, now)
    decreases |ls|
  {
    if ls != [] {
      NextSteady(w, ls[0]);
      SeenAtEnd(Next(w, ls[0]), ls[1..], x, PageAfter(ls[0], x, now));
    }
  }

  lemma KeptStoresSeen(w: World, ls: seq<Label>, x: PageRef)
    requires Steady(w) && Course(w, ls) && Stays(w, ls, x.id) && KeepsStores(w, ls, x)
    ensures SeenThroughout(w, ls, x, Visible(PagerOf(w), x))
    ensures Visible(PagerOf(End(w, ls)), x) == LastStore(ls, x, Visible(PagerOf(w), x))
  {
    SeenIff(w, ls, x);
    SeenAtEnd(w, ls, x, Visible(PagerOf(w), x));
  }

  // ---------- pages that are never forgotten ----------

  lemma TrackedKeepsStores(w: World, l: Label, x: PageRef)
    requires Good(w.sys.m) && Ranged(w, l) && TracksPage(w, x)
    ensures !DropsStores(w, l, x)
  {
  }

  lemma {:induction false} NeverDropped(w: World, ls: seq<Label>, x: PageRef)
    requires Steady(w) && Course(w, ls) && TracksPage(w, x) && NeverForgets(w, ls, x)
    ensures KeepsStores(w, ls, x)
    decreases |ls|
  {
    if ls != [] {
      CourseRest(w, ls);
      NextPageIff(w, ls[0], x);
      TrackedKeepsStores(w, ls[0], x);
      NeverDropped(Next(w, ls[0]), ls[1..], x);
    }
  }

  /** In particular, a page of a region that stays shows the last value stored to it, by whichever
      client, over every interleaving that never forgets this page. */
  lemma SeenIsLastStore(w: World, ls: seq<Label>, x: PageRef)
    requires Steady(w) && Course(w, ls) && Stays(w, ls, x.id) && TracksPage(w, x) && NeverForgets(w, ls, x)
    ensures SeenThroughout(w, ls, x, Visible(PagerOf(w), x))
    ensures Visible(PagerOf(End(w, ls)), x) == LastStore(ls, x, Visible(PagerOf(w), x))
  {
    NeverDropped(w, ls, x);
    KeptStoresSeen(w, ls, x);
  }

  // ---------- anonymous regions ----------

  /** A page of a region that stays remains persistent, or remains not persistent. */
  lemma NextSameKind(w: World, l: Label, x: PageRef)
    requires Steady(w) && CanStep(w, l) && Ranged(w, l)
    requires x.id in PagerOf(w).regions && x.id in PagerOf(Next(w, l)).regions
    ensures Pers(PagerOf(Next(w, l)).regions, x) <==> Pers(PagerOf(w).regions, x)
  {
    if l.Advance? {
      AdvanceSameKind(w, x);
    } else if l.CallStep? {
      DoCarries(w.sys, l.c);
      assert SamePage(PagerOf(w), Do(w.sys, l.c).m.pager, x);
    }
  }

  lemma AdvanceSameKind(w: World, x: PageRef)
    requires Good(w.sys.m) && CanAdvance(w)
    ensures Pers(PagerOf(Advanced(w)).regions, x) <==> Pers(PagerOf(w).regions, x)
  {
    if w.phase.Blocked? {
      if w.phase.kind.WriteProtect? {
        MarkDirtyTransparent(PagerOf(w), w.phase.q);
      } else {
        UnfixTransparent(PagerOf(w), w.phase.q, w.phase.write);
      }
    } else if w.phase.Persisting? && w.phase.done >= w.phase.size {
      PersistSame(PagerOf(w), w.phase.id, w.phase.off, w.phase.size);
    }
  }

  lemma {:induction false} AnonymousKeepsStores(w: World, ls: seq<Label>, x: PageRef)
    requires Steady(w) && Course(w, ls) && Stays(w, ls, x.id) && !Pers(PagerOf(w).regions, x)
    ensures KeepsStores(w, ls, x)
    decreases |ls|
  {
    if ls != [] {
      NextSteady(w, ls[0]);
      NextSameKind(w, ls[0], x);
      AnonymousKeepsStores(Next(w, ls[0]), ls[1..], x);
    }
  }

  /** Pages of anonymous regions show the last store over every interleaving, whatever is
      forgotten of persistent ones. */
  lemma AnonymousSeen(w: World, ls: seq<Label>, x: PageRef)
    requires Steady(w) && Course(w, ls) && Stays(w, ls, x.id) && !Pers(PagerOf(w).regions, x)
    ensures SeenThroughout(w, ls, x, Visible(PagerOf(w), x))
    ensures Visible(PagerOf(End(w, ls)), x) == LastStore(ls, x, Visible(PagerOf(w), x))
  {
    AnonymousKeepsStores(w, ls, x);
    KeptStoresSeen(w, ls, x);
  }
}
