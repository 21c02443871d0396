/** Eviction order over whole runs. The used list is a queue in fault-in order from which only
    the oldest page of its kind is ever evicted. */
module Fifo {
  import opened Common
  import opened PagerState
  import opened PagerOps
  import opened PagerFaults
  import opened PagerAccess
  import opened PagerRegions
  import opened PagerFree
  import opened PagerRuns

  datatype Entry = Entry(q: PageRef, persistent: bool)

  /** What happens to residency: a page is faulted in, evicted, or freed with its region. */
  datatype Event = In(q: PageRef, persistent: bool) | Evict(q: PageRef) | Freed(q: PageRef)

  // ---------- the queue, replayed from events alone ----------

  function Remove(queue: seq<Entry>, q: PageRef): seq<Entry> {
    if queue == [] then []
    else if queue[0].q == q then queue[1..]
    else [queue[0]] + Remove(queue[1..], q)
  }

  function Apply(queue: seq<Entry>, e: Event): seq<Entry> {
    match e
    case In(q, k) => queue + [Entry(q, k)]
    case Evict(q) => Remove(queue, q)
    case Freed(q) => Remove(queue, q)
  }

  function Replay(queue: seq<Entry>, log: seq<Event>): seq<Entry>
    decreases |log|
  {
    if log == [] then queue else Replay(Apply(queue, log[0]), log[1..])
  }

  ghost predicate OnePerPage(queue: seq<Entry>) {
    forall i, j :: 0 <= i < j < |queue| ==> queue[i].q != queue[j].q
  }

  /** `q` is queued and every page of its kind ahead of it is itself. */
  ghost predicate OldestOfKind(queue: seq<Entry>, q: PageRef) {
    exists j :: 0 <= j < |queue| && queue[j].q == q
                && forall i :: 0 <= i < j ==> queue[i].persistent != queue[j].persistent
  }

  ghost predicate AllowedNext(queue: seq<Entry>, e: Event) {
    && OnePerPage(queue)
    && (e.In? ==> forall i :: 0 <= i < |queue| ==> queue[i].q != e.q)
    && (e.Evict? ==> OldestOfKind(queue, e.q))
  }

  /** Every event of the log is allowed by the queue it meets. */
  ghost predicate FifoLog(queue: seq<Entry>, log: seq<Event>)
    decreases |log|
  {
    log == [] || (AllowedNext(queue, log[0]) && FifoLog(Apply(queue, log[0]), log[1..]))
  }

  /** The queue `a` allows the events of `log`, one after the other, and becomes `b`. */
  ghost predicate Leads(a: seq<Entry>, log: seq<Event>, b: seq<Entry>) {
    FifoLog(a, log) && b == Replay(a, log)
  }

  lemma {:induction false} FifoConcat(queue: seq<Entry>, a: seq<Event>, b: seq<Event>)
    requires FifoLog(queue, a) && FifoLog(Replay(queue, a), b)
    ensures FifoLog(queue, a + b) && Replay(queue, a + b) == Replay(Replay(queue, a), b)
    decreases |a|
  {
    if a == [] {
      assert a + b == b;
    } else {
      assert (a + b)[1..] == a[1..] + b;
      FifoConcat(Apply(queue, a[0]), a[1..], b);
    }
  }

  lemma Chained(a: seq<Entry>, log: seq<Event>, b: seq<Entry>, more: seq<Event>, c: seq<Entry>)
    requires Leads(a, log, b) && Leads(b, more, c)
    ensures Leads(a, log + more, c)
  {
    FifoConcat(a, log, more);
  }

  lemma OneEvent(queue: seq<Entry>, e: Event)
    requires AllowedNext(queue, e)
    ensures Leads(queue, [e], Apply(queue, e))
  {
    assert [e][1..] == [];
  }

  // ---------- what a FIFO log rules out ----------

  predicate Removes(e: Event, q: PageRef) {
    (e.Evict? || e.Freed?) && e.q == q
  }

  /** `a` is queued ahead of `b`, and both are of kind `k`. */
  ghost predicate Precedes(queue: seq<Entry>, a: PageRef, b: PageRef, k: bool) {
    exists i, j :: 0 <= i < j < |queue| && queue[i] == Entry(a, k) && queue[j] == Entry(b, k)
  }

  lemma {:induction false} RemoveKeepsMember(queue: seq<Entry>, q: PageRef, x: Entry)
    requires x in queue && x.q != q
    ensures x in Remove(queue, q)
  {
    if queue[0].q == q {
      assert queue == [queue[0]] + queue[1..];
    } else if queue[0] != x {
      assert queue == [queue[0]] + queue[1..];
      RemoveKeepsMember(queue[1..], q, x);
    }
  }

  lemma {:induction false} RemoveKeepsOrder(queue: seq<Entry>, q: PageRef, a: PageRef, b: PageRef, k: bool)
    requires Precedes(queue, a, b, k) && q != a && q != b
    ensures Precedes(Remove(queue, q), a, b, k)
  {
    var i, j :| 0 <= i < j < |queue| && queue[i] == Entry(a, k) && queue[j] == Entry(b, k);
    if queue[0].q == q {
      assert queue[1..][i - 1] == Entry(a, k) && queue[1..][j - 1] == Entry(b, k);
    } else if i == 0 {
      assert queue[1..][j - 1] == Entry(b, k);
      RemoveKeepsMember(queue[1..], q, Entry(b, k));
      var rest := Remove(queue[1..], q);
      var n :| 0 <= n < |rest| && rest[n] == Entry(b, k);
      assert Remove(queue, q)[0] == Entry(a, k) && Remove(queue, q)[n + 1] == Entry(b, k);
    } else {
      assert queue[1..][i - 1] == Entry(a, k) && queue[1..][j - 1] == Entry(b, k);
      RemoveKeepsOrder(queue[1..], q, a, b, k);
      var rest := Remove(queue[1..], q);
      var x, y :| 0 <= x < y < |rest| && rest[x] == Entry(a, k) && rest[y] == Entry(b, k);
      assert Remove(queue, q)[x + 1] == Entry(a, k) && Remove(queue, q)[y + 1] == Entry(b, k);
    }
  }

  lemma AppendKeepsOrder(queue: seq<Entry>, e: Entry, a: PageRef, b: PageRef, k: bool)
    requires Precedes(queue, a, b, k)
    ensures Precedes(queue + [e], a, b, k)
  {
    var i, j :| 0 <= i < j < |queue| && queue[i] == Entry(a, k) && queue[j] == Entry(b, k);
    assert (queue + [e])[i] == Entry(a, k) && (queue + [e])[j] == Entry(b, k);
  }

  lemma NotOldest(queue: seq<Entry>, a: PageRef, b: PageRef, k: bool)
    requires OnePerPage(queue) && Precedes(queue, a, b, k)
    ensures !OldestOfKind(queue, b)
  {
  }

  /** While `a` stays queued ahead of `b`, `b` is not evicted. */
  lemma {:induction false} OvertakenNever(queue: seq<Entry>, log: seq<Event>, a: PageRef, b: PageRef, k: bool, n: nat)
    requires FifoLog(queue, log) && Precedes(queue, a, b, k) && n < |log| && log[n] == Evict(b)
    requires forall m :: 0 <= m < n ==> !Removes(log[m], a) && !Removes(log[m], b)
    ensures false
    decreases n
  {
    if n == 0 {
      NotOldest(queue, a, b, k);
    } else {
      match log[0] {
        case In(q, kind) =>
          AppendKeepsOrder(queue, Entry(q, kind), a, b, k);
        case Evict(q) => RemoveKeepsOrder(queue, q, a, b, k);
        case Freed(q) => RemoveKeepsOrder(queue, q, a, b, k);
      }
      OvertakenNever(Apply(queue, log[0]), log[1..], a, b, k, n - 1);
    }
  }

  lemma StaysQueued(queue: seq<Entry>, e: Event, x: Entry)
    requires x in queue && !Removes(e, x.q)
    ensures x in Apply(queue, e)
  {
    if !e.In? {
      RemoveKeepsMember(queue, e.q, x);
    }
  }

  lemma {:induction false} QueuedThenLater(queue: seq<Entry>, log: seq<Event>, a: PageRef, b: PageRef, k: bool, j: nat, n: nat)
    requires FifoLog(queue, log) && Entry(a, k) in queue && a != b && j < n < |log|
    requires log[j] == In(b, k) && log[n] == Evict(b)
    requires forall m :: 0 <= m < n ==> !Removes(log[m], a)
    requires forall m :: j < m < n ==> !Removes(log[m], b)
    ensures false
    decreases j
  {
    var next := Apply(queue, log[0]);
    if j == 0 {
      var i :| 0 <= i < |queue| && queue[i] == Entry(a, k);
      assert next[i] == Entry(a, k) && next[|queue|] == Entry(b, k);
      OvertakenNever(next, log[1..], a, b, k, n - 1);
    } else {
      StaysQueued(queue, log[0], Entry(a, k));
      QueuedThenLater(next, log[1..], a, b, k, j - 1, n - 1);
    }
  }

  /** No reversal: if `a` and then `b`, of the same kind, are faulted in, and `b` is evicted
      from that stay, then `a` left before it. */
  lemma {:induction false} NoReversal(queue: seq<Entry>, log: seq<Event>, a: PageRef, b: PageRef, k: bool, i: nat, j: nat, n: nat)
    requires FifoLog(queue, log) && a != b && i < j < n < |log|
    requires log[i] == In(a, k) && log[j] == In(b, k) && log[n] == Evict(b)
    requires forall m :: j < m < n ==> !Removes(log[m], b)
    ensures exists m :: i < m < n && Removes(log[m], a)
    decreases i
  {
    var next := Apply(queue, log[0]);
    if i == 0 {
      assert next[|queue|] == Entry(a, k);
      if forall m :: 0 < m < n ==> !Removes(log[m], a) {
        assert forall m :: 0 <= m < n - 1 ==> log[1..][m] == log[m + 1];
        QueuedThenLater(next, log[1..], a, b, k, j - 1, n - 1);
      }
    } else {
      NoReversal(next, log[1..], a, b, k, i - 1, j - 1, n - 1);
      var m :| i - 1 < m < n - 1 && Removes(log[1..][m], a);
      assert Removes(log[m + 1], a);
    }
  }

  // ---------- the pager's log ----------

  function EntryOf(rs: Regions, infos: seq<PageInfo>, f: nat): Entry {
    var q := if f < |infos| then infos[f].owner else PageRef(0, 0);
    Entry(q, Pers(rs, q))
  }

  function Entries(rs: Regions, infos: seq<PageInfo>, used: seq<nat>): (e: seq<Entry>)
    ensures |e| == |used| && forall i :: 0 <= i < |e| ==> e[i] == EntryOf(rs, infos, used[i])
  {
    if used == [] then [] else [EntryOf(rs, infos, used[0])] + Entries(rs, infos, used[1..])
  }

  function QueueOf(s: Pager): seq<Entry> {
    Entries(s.regions, s.infos, s.used)
  }

  /** The pages of region `id` below `n` that freeing it takes out of RAM. */
  function FreedPages(rs: Regions, id: Id, n: nat): seq<Event> {
    if n == 0 then []
    else FreedPages(rs, id, n - 1) + FreedPage(rs, PageRef(id, n - 1))
  }

  /** The residency events of one operation. */
  function Events(s: Pager, op: Op): seq<Event>
    requires Valid(s) && Enabled(s, op)
  {
    match op
    case FaultOp(q, _) =>
      if PteAt(s.regions, q).Present? then []
      else
        var v := Evicted(s, q);
        (if v.Some? then [Evict(v.value)] else []) + [In(q, Pers(s.regions, q))]
    case FreeOp(id) =>
      if id in s.regions && !s.regions[id].anchored then FreedPages(s.regions, id, |s.regions[id].ptes|) else []
    case _ => []
  }

  lemma {:induction false} EntriesSame(rs: Regions, ns: Regions, infos: seq<PageInfo>, js: seq<PageInfo>, used: seq<nat>)
    requires forall f :: f in used ==> EntryOf(ns, js, f) == EntryOf(rs, infos, f)
    ensures Entries(ns, js, used) == Entries(rs, infos, used)
  {
    forall i | 0 <= i < |used| ensures Entries(ns, js, used)[i] == Entries(rs, infos, used)[i] {
      assert used[i] in used;
    }
  }

  lemma {:induction false} EntriesWithout(rs: Regions, infos: seq<PageInfo>, used: seq<nat>, f: nat)
    requires f in used && f < |infos| && forall g :: g in used ==> g < |infos| && (infos[g].owner == infos[f].owner ==> g == f)
    ensures Entries(rs, infos, Without(used, f)) == Remove(Entries(rs, infos, used), infos[f].owner)
  {
    assert used == [used[0]] + used[1..];
    assert used[0] in used;
    assert Entries(rs, infos, used)[1..] == Entries(rs, infos, used[1..]);
    if used[0] != f {
      forall g | g in used[1..] ensures g < |infos| && (infos[g].owner == infos[f].owner ==> g == f) {
        assert g in used;
      }
      EntriesWithout(rs, infos, used[1..], f);
      assert Without(used, f)[1..] == Without(used[1..], f);
    }
  }

  lemma QueueOnePerPage(rs: Regions, infos: seq<PageInfo>, used: seq<nat>)
    requires InfoOk(rs, infos, used) && Distinct(used)
    ensures OnePerPage(Entries(rs, infos, used))
  {
    forall i, j | 0 <= i < j < |used| ensures EntryOf(rs, infos, used[i]).q != EntryOf(rs, infos, used[j]).q {
      assert used[i] in used && used[j] in used;
    }
  }

  /** The victim is the oldest page of its kind. */
  lemma VictimOldest(s: Pager)
    requires EvictReady(s) && forall f :: f in s.used ==> f < |s.infos| && HasPage(s.regions, s.infos[f].owner)
    ensures OldestOfKind(QueueOf(s), VictimPage(s))
  {
    var j := VictimIndex(s, 0);
    forall i | 0 <= i < j ensures QueueOf(s)[i].persistent != QueueOf(s)[j].persistent {
      assert !Swappable(s, s.used[i]);
      assert s.used[i] in s.used;
    }
    assert QueueOf(s)[j].q == VictimPage(s);
  }

  lemma SwapOutQueue(s: Pager, busy: set<PageRef>)
    requires Core(s, busy, {}) && EvictReady(s)
    ensures QueueOf(SwapOut(s)) == Remove(QueueOf(s), VictimPage(s))
  {
    assert Victim(s) in s.used;
    SetPteWrites(s.regions, VictimPage(s), PteAt(SwapOut(s).regions, VictimPage(s)));
    EntriesWithout(s.regions, s.infos, s.used, Victim(s));
    EntriesSame(s.regions, SwapOut(s).regions, s.infos, s.infos, SwapOut(s).used);
  }

  lemma InstallQueue(s: Pager, q: PageRef, f: nat, c: Page, dirty: bool)
    requires HasPage(s.regions, q) && f < |s.infos| && f < |s.ram| && f !in s.used
    ensures QueueOf(Install(s, q, f, c, dirty)) == QueueOf(s) + [Entry(q, Pers(s.regions, q))]
  {
    var t := Install(s, q, f, c, dirty);
    SetPteWrites(s.regions, q, Present(f));
    EntriesSame(s.regions, t.regions, s.infos, t.infos, s.used);
    assert QueueOf(t)[..|s.used|] == Entries(t.regions, t.infos, s.used);
  }

  lemma TakeFrameQueue(s: Pager, q: PageRef)
    requires Core(s, {q}, {}) && !PteAt(s.regions, q).Present?
    requires s.free == [] ==> EvictReady(s) && VictimPage(s) != q
    ensures var log := if s.free == [] then [Evict(VictimPage(s))] else [];
            Leads(QueueOf(s), log, QueueOf(TakeFrame(s).0))
  {
    if s.free == [] {
      QueueOnePerPage(s.regions, s.infos, s.used);
      VictimOldest(s);
      SwapOutQueue(s, {q});
      OneEvent(QueueOf(s), Evict(VictimPage(s)));
    }
  }

  lemma InstallEvent(s: Pager, q: PageRef, f: nat, c: Page, dirty: bool)
    requires Core(s, {q}, {f}) && HasPage(s.regions, q) && !PteAt(s.regions, q).Present? && f < |s.infos|
    ensures Leads(QueueOf(s), [In(q, Pers(s.regions, q))], QueueOf(Install(s, q, f, c, dirty)))
  {
    QueueOnePerPage(s.regions, s.infos, s.used);
    NotQueued(s, q);
    InstallQueue(s, q, f, c, dirty);
    OneEvent(QueueOf(s), In(q, Pers(s.regions, q)));
  }

  lemma FaultLeads(s: Pager, r: Pager, t: Pager, u: Pager, v: Option<PageRef>, q: PageRef)
    requires r.regions == s.regions && r.infos == s.infos && r.used == s.used
    requires Leads(QueueOf(r), if v.Some? then [Evict(v.value)] else [], QueueOf(t))
    requires Leads(QueueOf(t), [In(q, Pers(s.regions, q))], QueueOf(u))
    ensures Leads(QueueOf(s), (if v.Some? then [Evict(v.value)] else []) + [In(q, Pers(s.regions, q))], QueueOf(u))
  {
    Chained(QueueOf(r), if v.Some? then [Evict(v.value)] else [], QueueOf(t), [In(q, Pers(s.regions, q))], QueueOf(u));
  }

  lemma FaultQueue(s: Pager, q: PageRef, write: bool)
    requires Valid(s) && HasPage(s.regions, q) && !PteAt(s.regions, q).Present?
    ensures Leads(QueueOf(s), Events(s, FaultOp(q, write)), QueueOf(FaultIn(s, q, write)))
  {
    FaultInReady(s, q);
    StagesQueue(s, q, Visible(s, q), write || PteAt(s.regions, q).Untouched?);
    FaultEvents(s, q, write);
  }

  lemma FaultEvents(s: Pager, q: PageRef, write: bool)
    requires Valid(s) && HasPage(s.regions, q) && !PteAt(s.regions, q).Present?
    ensures var r := ReleaseSlot(s, q);
            && (r.free == [] ==> EvictReady(r))
            && Events(s, FaultOp(q, write)) ==
               (if r.free == [] then [Evict(VictimPage(r))] else []) + [In(q, Pers(s.regions, q))]
  {
    EvictedVictim(s, q);
  }

  lemma EvictedVictim(s: Pager, q: PageRef)
    requires Valid(s) && HasPage(s.regions, q) && !PteAt(s.regions, q).Present?
    ensures var r := ReleaseSlot(s, q);
            (r.free == [] ==> EvictReady(r)) && Evicted(s, q) == if r.free == [] then Some(VictimPage(r)) else None
  {
    FaultInReady(s, q);
  }

  lemma StagesQueue(s: Pager, q: PageRef, c: Page, dirty: bool)
    requires var r := ReleaseSlot(s, q); Core(r, {q}, {}) && (r.free == [] ==> EvictReady(r) && VictimPage(r) != q)
    requires !PteAt(s.regions, q).Present?
    requires var t := TakeFrame(ReleaseSlot(s, q));
             Core(t.0, {q}, {t.1}) && HasPage(t.0.regions, q) && !PteAt(t.0.regions, q).Present? && t.1 < |t.0.infos|
    ensures var r := ReleaseSlot(s, q); var t := TakeFrame(r);
            Leads(QueueOf(s), (if r.free == [] then [Evict(VictimPage(r))] else []) + [In(q, Pers(s.regions, q))],
                  QueueOf(Install(t.0, q, t.1, c, dirty)))
  {
    var r := ReleaseSlot(s, q);
    var t := TakeFrame(r);
    TakeFrameQueue(r, q);
    InstallEvent(t.0, q, t.1, c, dirty);
    TakeFramePers(r, q);
    FaultLeads(s, r, t.0, Install(t.0, q, t.1, c, dirty), if r.free == [] then Some(VictimPage(r)) else None, q);
  }

  lemma TakeFramePers(s: Pager, q: PageRef)
    requires s.free == [] ==> EvictReady(s)
    ensures Pers(TakeFrame(s).0.regions, q) <==> Pers(s.regions, q)
  {
    if s.free == [] {
      SetPteWrites(s.regions, VictimPage(s), PteAt(SwapOut(s).regions, VictimPage(s)));
    }
  }

  lemma NotQueued(s: Pager, q: PageRef)
    requires !PteAt(s.regions, q).Present?
    requires forall f :: f in s.used ==> f < |s.infos| && PteAt(s.regions, s.infos[f].owner) == Present(f)
    ensures forall i :: 0 <= i < |QueueOf(s)| ==> QueueOf(s)[i].q != q
  {
    forall i | 0 <= i < |QueueOf(s)| ensures QueueOf(s)[i].q != q {
      assert s.used[i] in s.used;
    }
  }

  function FreedPage(rs: Regions, q: PageRef): seq<Event> {
    if PteAt(rs, q).Present? then [Freed(q)] else []
  }

  lemma ReleaseQueue(s: Pager, busy: set<PageRef>, q: PageRef)
    requires Core(s, busy, {}) && HasPage(s.regions, q)
    ensures Leads(QueueOf(s), FreedPage(s.regions, q), QueueOf(ReleasePage(s, q)))
  {
    var t := ReleasePage(s, q);
    SetPteWrites(s.regions, q, Untouched);
    EntriesSame(s.regions, t.regions, s.infos, s.infos, t.used);
    if PteAt(s.regions, q).Present? {
      QueueOnePerPage(s.regions, s.infos, s.used);
      EntriesWithout(s.regions, s.infos, s.used, PteAt(s.regions, q).frame);
      OneEvent(QueueOf(s), Freed(q));
    }
  }

  ghost predicate NextLeads(s: Pager, id: Id, n: nat)
    requires id in s.regions && n < |s.regions[id].ptes|
  {
    Leads(QueueOf(ReleaseAll(s, id, n)), FreedPage(s.regions, PageRef(id, n)), QueueOf(ReleaseAll(s, id, n + 1)))
  }

  lemma ReleaseOneMore(s: Pager, id: Id, n: nat)
    requires Core(s, {}, {}) && id in s.regions && n < |s.regions[id].ptes|
    ensures NextLeads(s, id, n)
  {
    ReleaseAllStill(s, id, n, PageRef(id, n));
    ReleaseQueue(ReleaseAll(s, id, n), FirstPages(id, n), PageRef(id, n));
  }

  ghost predicate FreeLeads(s: Pager, id: Id, n: nat)
    requires id in s.regions && n <= |s.regions[id].ptes|
  {
    Leads(QueueOf(s), FreedPages(s.regions, id, n), QueueOf(ReleaseAll(s, id, n)))
  }

  lemma FreeLeadsOn(s: Pager, id: Id, n: nat)
    requires id in s.regions && n < |s.regions[id].ptes| && FreeLeads(s, id, n)
    requires NextLeads(s, id, n)
    ensures FreeLeads(s, id, n + 1)
  {
    assert FreedPages(s.regions, id, n + 1) == FreedPages(s.regions, id, n) + FreedPage(s.regions, PageRef(id, n));
    Chained(QueueOf(s), FreedPages(s.regions, id, n), QueueOf(ReleaseAll(s, id, n)),
            FreedPage(s.regions, PageRef(id, n)), QueueOf(ReleaseAll(s, id, n + 1)));
  }

  lemma FreeLeadsNone(s: Pager, id: Id)
    requires id in s.regions
    ensures FreeLeads(s, id, 0)
  {
  }

  /** `FreeLeads` as far as there are pages. */
  ghost predicate FreeLeadsTo(s: Pager, id: Id, n: nat) {
    id in s.regions && n <= |s.regions[id].ptes| && FreeLeads(s, id, n)
  }

  lemma FreeLeadsMore(s: Pager, id: Id, k: nat, n: nat)
    requires id in s.regions && n == k + 1 <= |s.regions[id].ptes| && NextLeads(s, id, k) && FreeLeadsTo(s, id, k)
    ensures FreeLeadsTo(s, id, n)
  {
    FreeLeadsOn(s, id, k);
  }

  lemma ReleaseAllQueue(s: Pager, id: Id, n: nat)
    requires id in s.regions && n <= |s.regions[id].ptes|
    requires forall k: nat :: k < n ==> NextLeads(s, id, k)
    ensures FreeLeadsTo(s, id, n)
  {
    FreeLeadsNone(s, id);
    forall k: nat | 0 < k <= n && FreeLeadsTo(s, id, k - 1) ensures FreeLeadsTo(s, id, k) {
      FreeLeadsMore(s, id, k - 1, k);
    }
    CountUp((k: nat) => FreeLeadsTo(s, id, k), n);
  }

  lemma ReleaseAllStill(s: Pager, id: Id, n: nat, q: PageRef)
    requires Core(s, {}, {}) && id in s.regions && n <= |s.regions[id].ptes| && q.id == id && n <= q.off
    ensures Core(ReleaseAll(s, id, n), FirstPages(id, n), {})
    ensures PteAt(ReleaseAll(s, id, n).regions, q) == PteAt(s.regions, q)
  {
    ReleaseAllKeeps(s, id, n);
    ReleaseAllPages(s, id, n);
  }

  lemma DropQueue(s: Pager, id: Id, gone: set<PageRef>)
    requires Core(s, gone, {}) && id in s.regions
    requires forall x :: PteAt(s.regions, x) != Untouched ==> x.id != id
    ensures QueueOf(Drop(s, id)) == QueueOf(s)
  {
    forall f | f in s.used ensures EntryOf(Drop(s, id).regions, s.infos, f) == EntryOf(s.regions, s.infos, f) {
      assert PteAt(s.regions, s.infos[f].owner) == Present(f);
    }
    EntriesSame(s.regions, Drop(s, id).regions, s.infos, s.infos, s.used);
  }

  lemma FreeQueue(s: Pager, id: Id)
    requires Valid(s) && id in s.regions && !s.regions[id].anchored
    ensures Leads(QueueOf(s), Events(s, FreeOp(id)), QueueOf(Free(s, id)))
  {
    var n := |s.regions[id].ptes|;
    forall k: nat | k < n ensures NextLeads(s, id, k) {
      ReleaseOneMore(s, id, k);
    }
    ReleaseAllQueue(s, id, n);
    ReleasedWhole(s, id);
    DropQueue(ReleaseAll(s, id, n), id, FirstPages(id, n));
  }

  lemma SameQueue(s: Pager, t: Pager)
    requires t.used == s.used && |t.infos| == |s.infos|
    requires forall f :: 0 <= f < |s.infos| ==> t.infos[f].owner == s.infos[f].owner
    requires forall f :: f in s.used ==> f < |s.infos| && (Pers(t.regions, s.infos[f].owner) <==> Pers(s.regions, s.infos[f].owner))
    ensures QueueOf(t) == QueueOf(s)
  {
    EntriesSame(s.regions, t.regions, s.infos, t.infos, s.used);
  }

  lemma {:induction false} PersistQueue(s: Pager, id: Id, i: nat, n: nat)
    requires Valid(s) && id in s.regions && s.regions[id].persistent && n <= |s.regions[id].ptes|
    ensures QueueOf(PersistRange(s, id, i, n)) == QueueOf(s)
    decreases n - i
  {
    if i < n {
      PersistPageKeeps(s, PageRef(id, i));
      SameQueue(s, PersistPage(s, PageRef(id, i)));
      PersistQueue(PersistPage(s, PageRef(id, i)), id, i + 1, n);
    }
  }

  /** Each operation changes the queue by its events, which the queue allows. */
  lemma StepFifo(s: Pager, op: Op)
    requires Valid(s) && Enabled(s, op)
    ensures Leads(QueueOf(s), Events(s, op), QueueOf(Step(s, op)))
  {
    match op
    case FaultOp(q, write) =>
      if PteAt(s.regions, q).Present? {
        SameQueue(s, Unfix(s, q, write));
      } else {
        FaultQueue(s, q, write);
      }
    case FreeOp(id) => if id in s.regions && !s.regions[id].anchored { FreeQueue(s, id); }
    case PersistOp(id, off, size) =>
      if CanPersist(s, id, off, size) == Ok {
        CanPersistPages(s, id, off, size);
        PersistQueue(s, id, off / PAGE_SIZE, size / PAGE_SIZE);
      }
    case _ => QuietQueue(s, op);
  }

  /** Operations that neither fault nor free move no page. */
  lemma QuietQueue(s: Pager, op: Op)
    requires Valid(s) && Enabled(s, op) && !op.FaultOp? && !op.FreeOp? && !op.PersistOp?
    ensures QueueOf(Step(s, op)) == QueueOf(s)
  {
    forall f | f in s.used
      ensures Pers(Step(s, op).regions, s.infos[f].owner) <==> Pers(s.regions, s.infos[f].owner)
    {
      assert HasPage(s.regions, s.infos[f].owner);
    }
    SameQueue(s, Step(s, op));
  }

  function RunEvents(s: Pager, ops: seq<Op>): seq<Event>
    requires Valid(s) && CanRun(s, ops)
    decreases |ops|
  {
    if ops == [] then [] else StepKeeps(s, ops[0]); Events(s, ops[0]) + RunEvents(Step(s, ops[0]), ops[1..])
  }

  /** Over every run, the used list is the queue replayed from the run's events, and every
      eviction takes the oldest resident page of its kind. */
  lemma {:induction false} RunFifo(s: Pager, ops: seq<Op>)
    requires Valid(s) && CanRun(s, ops)
    ensures Leads(QueueOf(s), RunEvents(s, ops), QueueOf(Run(s, ops)))
    decreases |ops|
  {
    if ops != [] {
      StepKeeps(s, ops[0]);
      StepFifo(s, ops[0]);
      RunFifo(Step(s, ops[0]), ops[1..]);
      Chained(QueueOf(s), Events(s, ops[0]), QueueOf(Step(s, ops[0])),
              RunEvents(Step(s, ops[0]), ops[1..]), QueueOf(Run(s, ops)));
    }
  }

  /** In no run is a page evicted ahead of a page of the same kind that was faulted in before it
      and has stayed since. */
  lemma NeverReversed(s: Pager, ops: seq<Op>, a: PageRef, b: PageRef, k: bool, i: nat, j: nat, n: nat)
    requires Valid(s) && CanRun(s, ops) && a != b && i < j < n < |RunEvents(s, ops)|
    requires var log := RunEvents(s, ops); log[i] == In(a, k) && log[j] == In(b, k) && log[n] == Evict(b)
    requires forall m :: j < m < n ==> !Removes(RunEvents(s, ops)[m], b)
    ensures exists m :: i < m < n && Removes(RunEvents(s, ops)[m], a)
  {
    RunFifo(s, ops);
    NoReversal(QueueOf(s), RunEvents(s, ops), a, b, k, i, j, n);
  }
}
