/** End to end: exactly what an anchored region shows once the manager has shut down and started
    again, and that it is the last store on every page that was never forgotten. */
module ProtocolRestart {
  import opened Common
  import opened PagerState
  import opened PagerOps
  import opened PagerRegions
  import opened PagerFree
  import opened PagerGuarantees
  import opened ManagerState
  import opened Clients
  import opened FaultProtocol
  import opened Interleavings
  import opened PageTracking
  import opened ProtocolContents

  /** Region `id` is there, and anchored. */
  predicate Anchored(p: Pager, id: Id) {
    id in p.regions && p.regions[id].anchored
  }

  /** An anchored region of `p` has the same pages, frames and file in `n`. */
  ghost predicate SameRegion(p: Pager, n: Pager, id: Id) {
    && id in p.regions && id in n.regions && n.regions[id] == p.regions[id] && n.infos == p.infos
    && forall x: PageRef :: x.id == id ==> FilePage(n.files, x) == FilePage(p.files, x)
  }

  lemma UnmapAnchored(m: Manager, other: Id, removable: bool, id: Id)
    requires Anchored(m.pager, id)
    ensures SameRegion(m.pager, UnmapRegion(m, other, removable).0.pager, id)
  {
    FreeRegions(m.pager, other);
  }

  lemma {:induction false} DropAnchored(c: Mappings, m: Manager, stuck: set<Id>, id: Id)
    requires Anchored(m.pager, id)
    ensures SameRegion(m.pager, DropAll(c, m, stuck).pager, id)
    decreases |c|
  {
    if c != map[] {
      var addr := First(c);
      UnmapAnchored(m, c[addr], c[addr] !in stuck, id);
      assert c.Keys == (c - {addr}).Keys + {addr};
      DropAnchored(c - {addr}, UnmapRegion(m, c[addr], c[addr] !in stuck).0, stuck, id);
    }
  }

  // ---------- shutting down ----------

  /** The clients are cut off one after the other. */
  function Disconnects(order: seq<Pid>, stuck: set<Id>): (ls: seq<Label>)
    ensures |ls| == |order|
  {
    if order == [] then [] else [CallStep(Disconnect(order[0], stuck))] + Disconnects(order[1..], stuck)
  }

  /** `order` names every client once. */
  ghost predicate AllOf(order: seq<Pid>, clients: map<Pid, Mappings>) {
    Distinct(order) && forall pid :: pid in order <==> pid in clients
  }

  /** What cutting clients off leaves of an anchored region: everything. */
  ghost predicate Kept(w: World, t: World, id: Id) {
    && id in PagerOf(w).regions && id in PagerOf(t).regions
    && PagerOf(t).regions[id] == PagerOf(w).regions[id]
    && (forall x: PageRef :: x.id == id ==> Visible(PagerOf(t), x) == Visible(PagerOf(w), x))
    && (forall x: PageRef :: x.id == id ==> (CleanMatchesFile(PagerOf(t), x) <==> CleanMatchesFile(PagerOf(w), x)))
  }

  lemma SameClean(p: Pager, n: Pager, id: Id, x: PageRef)
    requires SameRegion(p, n, id) && x.id == id && Visible(n, x) == Visible(p, x)
    ensures CleanMatchesFile(n, x) <==> CleanMatchesFile(p, x)
  {
  }

  lemma DisconnectKeeps(w: World, pid: Pid, stuck: set<Id>, id: Id)
    requires Steady(w) && w.phase.Idle? && pid in w.sys.clients && Anchored(PagerOf(w), id)
    ensures var t := MakeCall(w, Disconnect(pid, stuck));
            Steady(t) && t.phase.Idle? && t.sys.clients == w.sys.clients - {pid} && Kept(w, t, id) && Anchored(PagerOf(t), id)
    ensures var l := CallStep(Disconnect(pid, stuck));
            CanStep(w, l) && Ranged(w, l) && Next(w, l) == MakeCall(w, Disconnect(pid, stuck))
  {
    var c := Disconnect(pid, stuck);
    CallSteady(w, c);
    DropAnchored(w.sys.clients[pid], w.sys.m, stuck, id);
    var p, n := PagerOf(w), PagerOf(MakeCall(w, c));
    forall x: PageRef | x.id == id ensures Visible(n, x) == Visible(p, x) && (CleanMatchesFile(n, x) <==> CleanMatchesFile(p, x)) {
      CallContents(w.sys, c, x);
      SameClean(p, n, id, x);
    }
  }

  lemma OrderRest(order: seq<Pid>, clients: map<Pid, Mappings>)
    requires AllOf(order, clients) && order != []
    ensures order[0] in clients && AllOf(order[1..], clients - {order[0]})
  {
    assert order[0] in order;
    forall pid ensures pid in order[1..] <==> pid in clients - {order[0]} {
      assert pid in order <==> pid == order[0] || pid in order[1..];
    }
  }

  lemma KeptChain(w: World, t: World, u: World, id: Id)
    requires Kept(w, t, id) && Kept(t, u, id)
    ensures Kept(w, u, id)
  {
  }

  /** `ls` can be taken from `w`, ends with no client and the lock free, and keeps region `id`. */
  ghost predicate ShutsDown(w: World, ls: seq<Label>, id: Id) {
    Steady(w) && Course(w, ls) && Closed(w, End(w, ls), id)
  }

  ghost predicate Closed(w: World, t: World, id: Id) {
    Steady(t) && t.phase.Idle? && t.sys.clients == map[] && Kept(w, t, id)
  }

  lemma ShutsDownNext(w: World, l: Label, t: World, ls: seq<Label>, id: Id)
    requires Steady(w) && CanStep(w, l) && Ranged(w, l) && Next(w, l) == t
    requires Kept(w, t, id) && ShutsDown(t, ls, id)
    ensures ShutsDown(w, [l] + ls, id)
  {
    CourseThen(w, l, ls);
    KeptChain(w, t, End(t, ls), id);
  }

  /** In any order, all clients can be cut off, and an anchored region keeps every page. */
  lemma {:induction false} DisconnectsShutDown(w: World, order: seq<Pid>, stuck: set<Id>, id: Id)
    requires Steady(w) && w.phase.Idle? && AllOf(order, w.sys.clients) && Anchored(PagerOf(w), id)
    ensures ShutsDown(w, Disconnects(order, stuck), id)
    decreases |order|
  {
    if order == [] {
      NoneLeft(w.sys.clients);
    } else {
      var t := MakeCall(w, Disconnect(order[0], stuck));
      OrderRest(order, w.sys.clients);
      DisconnectKeeps(w, order[0], stuck, id);
      DisconnectsShutDown(t, order[1..], stuck, id);
      ShutsDownNext(w, CallStep(Disconnect(order[0], stuck)), t, Disconnects(order[1..], stuck), id);
    }
  }

  lemma NoneLeft(clients: map<Pid, Mappings>)
    requires AllOf([], clients)
    ensures clients == map[]
  {
    forall pid ensures pid !in clients {
      assert pid !in [];
    }
  }

  // ---------- starting again ----------

  /** A manager of any size, started over the files that `p` writes back, with region `id` opened. */
  function Reopen(p: Pager, id: Id, nrRam: nat, nrSwap: nat, addr: nat): (Pager, Errno)
    requires Valid(p) && nrRam >= 1
  {
    GetAnchored(Init(nrRam, nrSwap, WriteBack(p, |p.used|)), id, Some(addr))
  }

  /** Reopening finds the region, and shows its file page for page. */
  lemma ReopenShows(p: Pager, id: Id, nrRam: nat, nrSwap: nat, addr: nat)
    requires Valid(p) && Anchored(p, id) && nrRam >= 1
    ensures var (r, e) := Reopen(p, id, nrRam, nrSwap, addr);
            && e == Ok && id in r.regions && |r.regions[id].ptes| == |p.regions[id].ptes|
            && forall x: PageRef :: x.id == id && x.off < |p.regions[id].ptes| ==> Visible(r, x) == FilePage(WriteBack(p, |p.used|), x)
  {
    var i := Init(nrRam, nrSwap, WriteBack(p, |p.used|));
    assert p.regions[id].persistent && id in p.files;
    AddRegionContents(i, id, |i.files[id]|, true, true, addr);
  }

  /** The reopened region shows what clients last saw on a page exactly if, at shutdown, the page
      was not marked clean while different from its file. */
  ghost predicate ShowsExactly(p: Pager, r: Pager, id: Id) {
    && id in p.regions && id in r.regions && |r.regions[id].ptes| == |p.regions[id].ptes|
    && forall x: PageRef :: x.id == id && x.off < |p.regions[id].ptes| ==>
         (Visible(r, x) == Visible(p, x) <==> CleanMatchesFile(p, x))
  }

  lemma ReopenShowsIff(p: Pager, id: Id, nrRam: nat, nrSwap: nat, addr: nat)
    requires Valid(p) && Anchored(p, id) && nrRam >= 1
    ensures var (r, e) := Reopen(p, id, nrRam, nrSwap, addr); e == Ok && ShowsExactly(p, r, id)
  {
    ReopenShows(p, id, nrRam, nrSwap, addr);
    var (r, e) := Reopen(p, id, nrRam, nrSwap, addr);
    assert p.regions[id].persistent;
    forall x: PageRef | x.id == id && x.off < |p.regions[id].ptes|
      ensures Visible(r, x) == Visible(p, x) <==> CleanMatchesFile(p, x)
    {
      FileMatchesVisible(p, x);
    }
  }

  lemma ShowsExactlyKept(w: World, t: World, r: Pager, id: Id)
    requires Kept(w, t, id) && ShowsExactly(PagerOf(t), r, id)
    ensures ShowsExactly(PagerOf(w), r, id)
  {
  }

  /** Restart, exactly. In any state of any interleaving in which the lock is free, cut off all
      clients in any order, write back, and start a manager of any size: an anchored region
      opens, and a page shows what clients last saw if and only if it was not marked clean while
      different from its file. */
  lemma RestartShowsIff(u: World, order: seq<Pid>, stuck: set<Id>, id: Id, nrRam: nat, nrSwap: nat, addr: nat)
    requires Steady(u) && u.phase.Idle? && Anchored(PagerOf(u), id) && AllOf(order, u.sys.clients) && nrRam >= 1
    ensures var ds := Disconnects(order, stuck);
            ShutsDown(u, ds, id) &&
            var (r, e) := Reopen(PagerOf(End(u, ds)), id, nrRam, nrSwap, addr);
            e == Ok && ShowsExactly(PagerOf(u), r, id)
  {
    DisconnectsShutDown(u, order, stuck, id);
    var t := End(u, Disconnects(order, stuck));
    ReopenShowsIff(PagerOf(t), id, nrRam, nrSwap, addr);
    ShowsExactlyKept(u, t, Reopen(PagerOf(t), id, nrRam, nrSwap, addr).0, id);
  }

  /** Every page of region `id` that was tracked at first and never forgotten shows the last store
      to it, and its file agrees if it is clean. */
  ghost predicate ShowsLastStores(w: World, ls: seq<Label>, id: Id)
    requires Steady(w) && Course(w, ls)
  {
    var p := PagerOf(End(w, ls));
    id in p.regions && forall x: PageRef :: x.id == id && x.off < |p.regions[id].ptes| && TracksPage(w, x) && NeverForgets(w, ls, x) ==>
      CleanMatchesFile(p, x) && Visible(p, x) == LastStore(ls, x, Visible(PagerOf(w), x))
  }

  lemma EndShows(w: World, ls: seq<Label>, id: Id)
    requires Steady(w) && Course(w, ls) && Stays(w, ls, id) && id in PagerOf(End(w, ls)).regions
    ensures ShowsLastStores(w, ls, id)
  {
    forall x: PageRef | x.id == id && TracksPage(w, x) && NeverForgets(w, ls, x)
      ensures CleanMatchesFile(PagerOf(End(w, ls)), x) && Visible(PagerOf(End(w, ls)), x) == LastStore(ls, x, Visible(PagerOf(w), x))
    {
      SeenIsLastStore(w, ls, x);
      PageTrackedIff(w, ls, x);
      TrackedAtEnd(w, ls, x);
    }
  }

  /** Persistence end to end. After any interleaving, cut off all clients in any order, write back,
      and start a manager of any size: a region that stayed and was left anchored opens, and each
      page that was tracked at first and never forgotten shows the last value any client stored. */
  lemma RestartShowsLastStores(w: World, ls: seq<Label>, order: seq<Pid>, stuck: set<Id>, id: Id, nrRam: nat, nrSwap: nat, addr: nat)
    requires Steady(w) && Course(w, ls) && Stays(w, ls, id) && nrRam >= 1
    requires var u := End(w, ls); u.phase.Idle? && Anchored(PagerOf(u), id) && AllOf(order, u.sys.clients)
    ensures var u := End(w, ls); var ds := Disconnects(order, stuck);
            ShutsDown(u, ds, id) &&
            var (r, e) := Reopen(PagerOf(End(u, ds)), id, nrRam, nrSwap, addr);
            && e == Ok && id in r.regions && |r.regions[id].ptes| == |PagerOf(u).regions[id].ptes|
            && forall x: PageRef :: x.id == id && x.off < |r.regions[id].ptes| && TracksPage(w, x) && NeverForgets(w, ls, x) ==>
                 Visible(r, x) == LastStore(ls, x, Visible(PagerOf(w), x))
  {
    CourseSteady(w, ls);
    EndShows(w, ls, id);
    RestartShowsIff(End(w, ls), order, stuck, id, nrRam, nrSwap, addr);
  }
}
