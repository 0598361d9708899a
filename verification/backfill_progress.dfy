/** That the backfill makes progress: what a page brings, when a gap is given up, and when
    a turn asks for more, told from the pages, the rows and the events.
  */
module BackfillProgress {
  import opened Options
  import opened SnapshotSchedulers
  import opened TradeGaps
  import opened TradeBackfills
  import opened PumpProofs
  import opened PumpBackoff
  import opened ScheduleHistory

  // ---------------------------------------------------------------- what a page brings

  predicate Ordered(ts: seq<BackfillTrade>) {
    forall i, j :: 0 <= i < j < |ts| ==> ts[i].id <= ts[j].id
  }

  ghost predicate Holds(ts: seq<BackfillTrade>, x: int) {
    exists i :: 0 <= i < |ts| && ts[i].id == x
  }

  ghost predicate HoldsAll(ts: seq<BackfillTrade>, from: int, to: int) {
    forall y :: from <= y <= to ==> Holds(ts, y)
  }

  lemma HoldsRest(ts: seq<BackfillTrade>, x: int)
    requires ts != []
    ensures Holds(ts, x) <==> ts[0].id == x || Holds(ts[1..], x)
  {
    if i :| 0 <= i < |ts| && ts[i].id == x {
      if i > 0 { assert ts[1..][i - 1].id == x; }
    }
    if i :| 0 <= i < |ts[1..]| && ts[1..][i].id == x { assert ts[i + 1].id == x; }
  }

  lemma HoldsAllRest(ts: seq<BackfillTrade>, from: int, to: int)
    requires ts != [] && ts[0].id < from
    ensures HoldsAll(ts, from, to) <==> HoldsAll(ts[1..], from, to)
  {
    forall y | from <= y <= to ensures Holds(ts, y) <==> Holds(ts[1..], y) { HoldsRest(ts, y); }
  }

  lemma HoldsAllNext(ts: seq<BackfillTrade>, from: int, to: int)
    requires ts != [] && ts[0].id == from && from <= to
    ensures HoldsAll(ts, from, to) <==> HoldsAll(ts[1..], from + 1, to)
  {
    HoldsRest(ts, from);
    forall y | from < y <= to ensures Holds(ts, y) <==> Holds(ts[1..], y) { HoldsRest(ts, y); }
  }

  lemma OrderedBeginsPast(ts: seq<BackfillTrade>, x: int)
    requires Ordered(ts) && (ts == [] || ts[0].id > x)
    ensures !Holds(ts, x)
  {
  }

  /** Main result: of a page in id order exactly those ids are used that follow the next
      needed one without a hole and are in the gap. */
  lemma {:induction false} PageIsUsedFully(ts: seq<BackfillTrade>, expected: int, lastId: int, x: int)
    requires Ordered(ts)
    ensures Holds(Useful(ts, expected, lastId), x) <==>
              expected <= x <= lastId && HoldsAll(ts, expected, x)
    decreases |ts|
  {
    if ts == [] {
      if expected <= x { assert !Holds(ts, expected); }
    } else if ts[0].id < expected {
      PageIsUsedFully(ts[1..], expected, lastId, x);
      HoldsAllRest(ts, expected, x);
    } else if ts[0].id > expected || ts[0].id > lastId {
      if ts[0].id > expected && expected <= x {
        OrderedBeginsPast(ts, expected);
        assert !Holds(ts, expected);
      }
    } else {
      var rest := Useful(ts[1..], expected + 1, lastId);
      PageIsUsedFully(ts[1..], expected + 1, lastId, x);
      HoldsRest([ts[0]] + rest, x);
      assert ([ts[0]] + rest)[1..] == rest;
      if x > expected { HoldsAllNext(ts, expected, x); }
      if x == expected { HoldsRest(ts, x); }
    }
  }

  /** So an ordered page that reaches back to the next needed id and holds it is used. */
  lemma NeededPageIsUsed(cfg: BackfillConfig, v: BackfillView, page: Page, nowMs: int, jitter: real)
    requires v.queue != [] && Sized(v.sched, 1) && page.ok && Ordered(page.trades)
    requires var g := v.queue[0].gap; g.NextNeededId() <= g.lastId && Holds(page.trades, g.NextNeededId())
    ensures var g, w := v.queue[0].gap, OnPage(cfg, v, page, nowMs, jitter);
      var ts := Useful(page.trades, g.NextNeededId(), g.lastId);
      ts != [] && w.rows == v.rows + RowsOf(g.sym, ts, page.recvTimeNs)
  {
    var g := v.queue[0].gap;
    PageIsUsedFully(page.trades, g.NextNeededId(), g.lastId, g.NextNeededId());
    var i :| 0 <= i < |page.trades| && page.trades[i].id == g.NextNeededId();
    assert page.trades[0].id <= page.trades[i].id;
  }

  // ---------------------------------------------------------------- when a gap is given up

  predicate NewTerminal(v: BackfillView, w: BackfillView) {
    exists i :: |v.events| <= i < |w.events| && w.events[i].status != Partial
  }

  /** Pages in a row that brought nothing for the gap now at the head. */
  function FailedForHead(ops: seq<PumpOp>, vs: seq<BackfillView>, n: nat): nat
    requires n <= |ops| < |vs|
  {
    if n == 0 || NewTerminal(vs[n - 1], vs[n]) then 0
    else if !PageArrives(vs[n - 1], ops[n - 1]) then FailedForHead(ops, vs, n - 1)
    else if vs[n].rows != vs[n - 1].rows then 0
    else FailedForHead(ops, vs, n - 1) + 1
  }

  /** Only the head has failures. */
  ghost predicate FailuresAre(queue: seq<Job>, n: nat) {
    && (queue == [] ==> n == 0)
    && forall j :: 0 <= j < |queue| ==> queue[j].failures == if j == 0 then n else 0
  }

  /** Why a page ends its gap without bringing the rest. */
  function ReasonOf(page: Page): string {
    if page.ok then "notServed" else if page.tooOld then "tooOld" else "restFailed"
  }

  /** What a page does to the head's failures. */
  ghost predicate PageCounts(cfg: BackfillConfig, v: BackfillView, w: BackfillView, page: Page, n: nat)
    requires v.queue != []
  {
    && |v.events| <= |w.events| <= |v.events| + 1 && w.events[..|v.events|] == v.events
    && (w.rows == v.rows && BringsNothing(v, w, page) ==>
          if n + 1 >= cfg.maxFailures then
            && w.queue == v.queue[1..] && NewTerminal(v, w)
            && w.events == v.events + [GapEvent(v.queue[0].gap, Unrecoverable, ReasonOf(page))]
          else w.events == v.events && FailuresAre(w.queue, n + 1) && |w.queue| == |v.queue|)
    && (w.rows == v.rows && !BringsNothing(v, w, page) ==>
          && w.queue == v.queue[1..] && NewTerminal(v, w)
          && w.events == v.events + [GapEvent(v.queue[0].gap, Unrecoverable, ReasonOf(page))])
    && (w.rows != v.rows ==> FailuresAre(w.queue, 0))
  }

  lemma FailedPageCounts(cfg: BackfillConfig, v: BackfillView, page: Page, nowMs: int, jitter: real, n: nat)
    requires v.queue != [] && Sized(v.sched, 1) && FailuresAre(v.queue, n)
    ensures var w := PageFailed(cfg, v, page, nowMs, jitter, ReasonOf(page));
      if n + 1 >= cfg.maxFailures then
        && w.queue == v.queue[1..]
        && w.events == v.events + [GapEvent(v.queue[0].gap, Unrecoverable, ReasonOf(page))]
      else w.events == v.events && FailuresAre(w.queue, n + 1) && |w.queue| == |v.queue|
  {
  }

  lemma UsedPageCounts(v: BackfillView, ts: seq<BackfillTrade>, recvTimeNs: int, n: nat)
    requires v.queue != [] && Sized(v.sched, 1) && FailuresAre(v.queue, n) && ts != []
    ensures var w := PageUsed(v, ts, recvTimeNs);
      && FailuresAre(w.queue, 0) && |w.rows| > |v.rows|
      && |w.events| == |v.events| + 1 && w.events[..|v.events|] == v.events
  {
  }

  lemma PageIsCounted(cfg: BackfillConfig, v: BackfillView, page: Page, nowMs: int, jitter: real, n: nat)
    requires v.queue != [] && Sized(v.sched, 1) && FailuresAre(v.queue, n)
    ensures PageCounts(cfg, v, OnPage(cfg, v, page, nowMs, jitter), page, n)
  {
    var g, w := v.queue[0].gap, OnPage(cfg, v, page, nowMs, jitter);
    var seen := SeePage(cfg, v, page, nowMs);
    if !page.ok {
      if !page.tooOld { FailedPageCounts(cfg, v, page, nowMs, jitter, n); }
    } else {
      FailedPageCounts(cfg, seen, page, nowMs, jitter, n);
      var ts := Useful(page.trades, g.NextNeededId(), g.lastId);
      if ts != [] { UsedPageCounts(seen, ts, page.recvTimeNs, n); }
    }
    if |w.events| > |v.events| { assert w.events[|v.events|] == w.events[|w.events| - 1]; }
  }

  /** Closing heads without a request starts the next one with no failures. */
  lemma {:induction false} ClosingCounts(cfg: BackfillConfig, v: BackfillView, n: nat)
    requires FailuresAre(v.queue, n)
    ensures var w := CloseHeads(cfg, v);
      && |w.events| >= |v.events| && w.events[..|v.events|] == v.events
      && (if w == v then FailuresAre(w.queue, n)
          else NewTerminal(v, w) && FailuresAre(w.queue, 0))
    decreases |v.queue|
  {
    if v.queue != [] && CloseReason(cfg, v.queue[0].gap).Some? {
      var c := CloseReason(cfg, v.queue[0].gap).value;
      var u := FinishHead(v, c.0, c.1);
      ClosingCounts(cfg, u, 0);
      var w := CloseHeads(cfg, v);
      assert u.events[|v.events|].status != Partial;
      assert w.events[|v.events|] == w.events[..|u.events|][|v.events|];
      assert w.events[..|v.events|] == u.events[..|v.events|];
    }
  }

  ghost predicate HeadCounted(ops: seq<PumpOp>, vs: seq<BackfillView>, n: nat)
    requires n <= |ops| < |vs|
  {
    FailuresAre(vs[n].queue, FailedForHead(ops, vs, n))
  }

  /** A turn leaves the head with this many failures. */
  ghost predicate TurnLeaves(v: BackfillView, w: BackfillView, arrives: bool, n: nat) {
    if NewTerminal(v, w) then FailuresAre(w.queue, 0)
    else if !arrives then FailuresAre(w.queue, n)
    else if w.rows != v.rows then FailuresAre(w.queue, 0)
    else FailuresAre(w.queue, n + 1)
  }

  lemma TerminalStays(v: BackfillView, u: BackfillView, w: BackfillView)
    requires |v.events| <= |u.events| <= |w.events| && w.events[..|u.events|] == u.events
    ensures NewTerminal(v, u) ==> NewTerminal(v, w)
    ensures NewTerminal(u, w) ==> NewTerminal(v, w)
    ensures w.events == u.events ==> (NewTerminal(v, w) <==> NewTerminal(v, u))
  {
    if NewTerminal(v, u) {
      var i :| |v.events| <= i < |u.events| && u.events[i].status != Partial;
      assert w.events[i] == w.events[..|u.events|][i];
    }
  }

  lemma QuietTurnCounts(cfg: BackfillConfig, v: BackfillView, op: PumpOp, n: nat)
    requires Ready(v) && FailuresAre(v.queue, n) && op.TurnOp? && !PageArrives(v, op)
    ensures TurnLeaves(v, AfterOp(cfg, v, op), false, n)
  {
    ClosingCounts(cfg, v, n);
  }

  lemma PageTurnCounts(cfg: BackfillConfig, v: BackfillView, op: PumpOp, n: nat)
    requires Ready(v) && FailuresAre(v.queue, n) && PageArrives(v, op)
    ensures TurnLeaves(v, AfterOp(cfg, v, op), true, n)
  {
    var x, r := v.(inFlight := false), op.reply.value;
    var u := OnPage(cfg, x, r.page, op.nowMs, r.jitter);
    var w := CloseHeads(cfg, u);
    PageIsCounted(cfg, x, r.page, op.nowMs, r.jitter, n);
    var m: nat := if |u.queue| < |v.queue| || u.rows != v.rows then 0 else n + 1;
    assert FailuresAre(u.queue, m);
    ClosingCounts(cfg, u, m);
    TerminalStays(v, u, w);
    assert AfterOp(cfg, v, op).queue == w.queue && AfterOp(cfg, v, op).events == w.events;
  }

  lemma {:induction false} HeadIsCounted(cfg: BackfillConfig, ops: seq<PumpOp>, vs: seq<BackfillView>, n: nat)
    requires IsRun(cfg, ops, vs) && n <= |ops|
    ensures HeadCounted(ops, vs, n)
    decreases n
  {
    if n > 0 {
      HeadIsCounted(cfg, ops, vs, n - 1);
      var v, op, k := vs[n - 1], ops[n - 1], FailedForHead(ops, vs, n - 1);
      if op.TurnOp? {
        if PageArrives(v, op) { PageTurnCounts(cfg, v, op, k); } else { QuietTurnCounts(cfg, v, op, k); }
      }
    }
  }

  /** Main result, over every run: a page that brings nothing ends its gap if and only if it
      is the maxFailures-th in a row for that gap; one that is out of reach or begins past
      the gap ends it at once. The event says why. */
  lemma GivenUpIff(cfg: BackfillConfig, ops: seq<PumpOp>, vs: seq<BackfillView>, n: nat)
    requires IsRun(cfg, ops, vs) && n < |ops| && PageArrives(vs[n], ops[n])
    ensures var page := ops[n].reply.value.page;
      && vs[n].queue != [] && Ready(vs[n])
      && var u := OnPage(cfg, vs[n].(inFlight := false), page, ops[n].nowMs, ops[n].reply.value.jitter);
         var given := u.events == vs[n].events + [GapEvent(vs[n].queue[0].gap, Unrecoverable, ReasonOf(page))];
         && u.events <= vs[n + 1].events
         && (u.rows == vs[n].rows ==>
               (given <==> (BringsNothing(vs[n], u, page) ==> FailedForHead(ops, vs, n) + 1 >= cfg.maxFailures)))
         && (u.rows == vs[n].rows && !given ==> u.events == vs[n].events)
  {
    var x, r := vs[n].(inFlight := false), ops[n].reply.value;
    var u := OnPage(cfg, x, r.page, ops[n].nowMs, r.jitter);
    HeadIsCounted(cfg, ops, vs, n);
    PageIsCounted(cfg, x, r.page, ops[n].nowMs, r.jitter, FailedForHead(ops, vs, n));
    ClosingCountsAny(cfg, u);
  }

  lemma {:induction false} ClosingCountsAny(cfg: BackfillConfig, v: BackfillView)
    ensures v.events <= CloseHeads(cfg, v).events
    decreases |v.queue|
  {
    if v.queue != [] && CloseReason(cfg, v.queue[0].gap).Some? {
      var c := CloseReason(cfg, v.queue[0].gap).value;
      ClosingCountsAny(cfg, FinishHead(v, c.0, c.1));
    }
  }

  // ---------------------------------------------------------------- when a turn asks

  /** Main result: a turn leaves a gap waiting without a request under way only if the
      scheduler does not grant one now. */
  lemma TurnAsks(cfg: BackfillConfig, v: BackfillView, nowMs: int, reply: Option<Reply>)
    requires Ready(v)
    ensures var w := Turn(cfg, v, nowMs, reply).0;
      && Ready(w)
      && (w.queue != [] && !w.inFlight ==> !Grants(cfg.sched, w.sched, 0, nowMs))
      && (w.requests != v.requests ==>
            && w.inFlight && w.queue != [] && |w.requests| == |v.requests| + 1 && v.requests <= w.requests
            && var q, g := w.requests[|v.requests|], w.queue[0].gap;
               && q.gap == g && q.fromId == g.NextNeededId()
               && q.limit == Min(cfg.pageLimit, g.lastId - g.NextNeededId() + 1))
  {
    var arrived := v.inFlight && reply.Some?;
    var v1 := if arrived then OnPage(cfg, v.(inFlight := false), reply.value.page, nowMs, reply.value.jitter) else v;
    if !v1.inFlight { AskingAsks(cfg, CloseHeads(cfg, v1), nowMs); }
  }

  lemma AskingAsks(cfg: BackfillConfig, v: BackfillView, nowMs: int)
    requires Sized(v.sched, 1) && !v.inFlight
    ensures var w := AskNext(cfg, v, nowMs);
      && w.queue == v.queue
      && (if v.queue != [] && Grants(cfg.sched, v.sched, 0, nowMs) then
            w.inFlight && w.requests == v.requests + [RequestFor(cfg, v.queue[0].gap)]
          else w.requests == v.requests && !w.inFlight
               && (v.queue != [] ==> !Grants(cfg.sched, w.sched, 0, nowMs)))
  {
    RefillOnce(cfg.sched, v.sched, nowMs);
  }

  lemma RefillOnce(cfg: SchedulerConfig, s: SchedulerView, nowMs: int)
    ensures Refill(cfg, Refill(cfg, s, nowMs), nowMs).tokens == Refill(cfg, s, nowMs).tokens
  {
  }

  // ---------------------------------------------------------------- counters

  function CountStatus(events: seq<GapEvent>, status: GapStatus): nat
    decreases |events|
  {
    if events == [] then 0
    else CountStatus(events[..|events| - 1], status) + if events[|events| - 1].status == status then 1 else 0
  }

  ghost predicate Counted(v: BackfillView) {
    && v.counters.gapsRecovered == CountStatus(v.events, Recovered)
    && v.counters.gapsUnrecoverable == CountStatus(v.events, Unrecoverable)
  }

  lemma EventCounts(events: seq<GapEvent>, e: GapEvent, status: GapStatus)
    ensures CountStatus(events + [e], status) == CountStatus(events, status) + if e.status == status then 1 else 0
  {
    assert (events + [e])[..|events|] == events;
  }

  lemma FinishCounts(v: BackfillView, status: GapStatus, reason: string)
    requires v.queue != [] && Counted(v) && (status.Recovered? || status.Unrecoverable?)
    ensures Counted(FinishHead(v, status, reason))
  {
    var e := GapEvent(v.queue[0].gap, status, reason);
    EventCounts(v.events, e, Recovered);
    EventCounts(v.events, e, Unrecoverable);
  }

  lemma {:induction false} ClosingKeepsCounted(cfg: BackfillConfig, v: BackfillView)
    requires Counted(v)
    ensures Counted(CloseHeads(cfg, v)) && CloseHeads(cfg, v).counters.pagesFailed == v.counters.pagesFailed
    decreases |v.queue|
  {
    if v.queue != [] && CloseReason(cfg, v.queue[0].gap).Some? {
      var c := CloseReason(cfg, v.queue[0].gap).value;
      FinishCounts(v, c.0, c.1);
      ClosingKeepsCounted(cfg, FinishHead(v, c.0, c.1));
    }
  }

  lemma RestIsNotCounted(v: BackfillView, w: BackfillView)
    requires Counted(v) && w == v.(sched := w.sched, queue := w.queue, rows := w.rows)
    ensures Counted(w)
  {
  }

  lemma EndOrPartialCounts(v: BackfillView, g: TradeGap, w: BackfillView)
    requires v.queue != [] && Counted(v)
    requires w == FinishHead(v, Recovered, "") || w == v.(events := v.events + [GapEvent(g, Partial, "")])
    ensures Counted(w) && w.counters.pagesFailed == v.counters.pagesFailed
  {
    FinishCounts(v, Recovered, "");
    PartialCounts(v, GapEvent(g, Partial, ""));
  }

  lemma UsedKeepsCounted(v: BackfillView, ts: seq<BackfillTrade>, recvTimeNs: int)
    requires v.queue != [] && Sized(v.sched, 1) && Counted(v)
    ensures var w := PageUsed(v, ts, recvTimeNs); Counted(w) && w.counters.pagesFailed == v.counters.pagesFailed
  {
    var g := v.queue[0].gap;
    var g' := g.(recovered := g.recovered + |ts|, recoveredThroughId := g.NextNeededId() + |ts| - 1);
    var v1 := v.(sched := Synced(v.sched, 0), queue := v.queue[0 := Job(g', 0)],
                 rows := v.rows + RowsOf(g.sym, ts, recvTimeNs));
    RestIsNotCounted(v, v1);
    EndOrPartialCounts(v1, g', PageUsed(v, ts, recvTimeNs));
  }

  lemma PartialCounts(v: BackfillView, e: GapEvent)
    requires Counted(v) && e.status == Partial
    ensures Counted(v.(events := v.events + [e]))
  {
    EventCounts(v.events, e, Recovered);
    EventCounts(v.events, e, Unrecoverable);
  }

  lemma FailedKeepsCounted(cfg: BackfillConfig, v: BackfillView, page: Page, nowMs: int, jitter: real, reason: string)
    requires v.queue != [] && Sized(v.sched, 1) && Counted(v)
    ensures var w := PageFailed(cfg, v, page, nowMs, jitter, reason);
      Counted(w) && w.counters.pagesFailed == v.counters.pagesFailed + 1 && w.rows == v.rows
  {
    var v1 := CountFailed(v).(sched := Failure(cfg.sched, v.sched, 0, nowMs, page.httpStatus, page.retryAfterSec,
                                               page.usedWeight, jitter));
    FinishCounts(v1, Unrecoverable, reason);
  }

  lemma PageKeepsCounted(cfg: BackfillConfig, v: BackfillView, page: Page, nowMs: int, jitter: real)
    requires v.queue != [] && Sized(v.sched, 1) && Counted(v)
    ensures var w := OnPage(cfg, v, page, nowMs, jitter);
      Counted(w) && w.counters.pagesFailed == v.counters.pagesFailed + if w.rows == v.rows then 1 else 0
  {
    var g, seen := v.queue[0].gap, SeePage(cfg, v, page, nowMs);
    if !page.ok {
      if page.tooOld {
        FinishCounts(CountFailed(seen), Unrecoverable, "tooOld");
      } else {
        FailedKeepsCounted(cfg, v, page, nowMs, jitter, "restFailed");
      }
    } else {
      FailedKeepsCounted(cfg, seen, page, nowMs, jitter, "notServed");
      FinishCounts(CountFailed(seen), Unrecoverable, "notServed");
      var ts := Useful(page.trades, g.NextNeededId(), g.lastId);
      if ts != [] {
        UsedKeepsCounted(seen, ts, page.recvTimeNs);
        UsedPageSchedules(seen, ts, page.recvTimeNs);
      }
    }
  }

  lemma TurnKeepsCounted(cfg: BackfillConfig, v: BackfillView, op: PumpOp)
    requires Ready(v) && Counted(v)
    ensures var w := AfterOp(cfg, v, op);
      && Counted(w)
      && w.counters.pagesFailed == v.counters.pagesFailed + if PageArrives(v, op) && w.rows == v.rows then 1 else 0
  {
    if op.TurnOp? {
      if PageArrives(v, op) {
        var x, r := v.(inFlight := false), op.reply.value;
        PageKeepsCounted(cfg, x, r.page, op.nowMs, r.jitter);
        ClosingKeepsCounted(cfg, OnPage(cfg, x, r.page, op.nowMs, r.jitter));
      } else {
        ClosingKeepsCounted(cfg, v);
      }
    }
  }

  /** Pages so far that published nothing. */
  function EmptyPages(ops: seq<PumpOp>, vs: seq<BackfillView>, n: nat): nat
    requires n <= |ops| < |vs|
  {
    if n == 0 then 0
    else EmptyPages(ops, vs, n - 1)
         + if PageArrives(vs[n - 1], ops[n - 1]) && vs[n].rows == vs[n - 1].rows then 1 else 0
  }

  /** The counters fit the events, and n pages brought nothing. */
  ghost predicate CountedAs(v: BackfillView, n: nat) {
    Counted(v) && v.counters.pagesFailed == n
  }

  lemma StepKeepsCounted(cfg: BackfillConfig, v: BackfillView, op: PumpOp, w: BackfillView, n: nat)
    requires Ready(v) && w == AfterOp(cfg, v, op) && CountedAs(v, n)
    ensures CountedAs(w, n + if PageArrives(v, op) && w.rows == v.rows then 1 else 0)
  {
    TurnKeepsCounted(cfg, v, op);
  }

  /** The counters say how many pages brought nothing and how the gaps ended. */
  lemma {:induction false} CountersAreExact(cfg: BackfillConfig, ops: seq<PumpOp>, vs: seq<BackfillView>, n: nat)
    requires IsRun(cfg, ops, vs) && n <= |ops|
    ensures CountedAs(vs[n], EmptyPages(ops, vs, n))
    decreases n
  {
    if n > 0 {
      CountersAreExact(cfg, ops, vs, n - 1);
      StepKeepsCounted(cfg, vs[n - 1], ops[n - 1], vs[n], EmptyPages(ops, vs, n - 1));
    }
  }

  // ---------------------------------------------------------------- used weight

  lemma WeightIsSeen(cfg: BackfillConfig, v: BackfillView, page: Page, nowMs: int, jitter: real)
    requires v.queue != [] && Sized(v.sched, 1) && UsedTooMuch(cfg.sched, page.usedWeight)
    ensures OnPage(cfg, v, page, nowMs, jitter).sched.pauseUntilMs >= nowMs + cfg.sched.usedWeightPauseMs
  {
  }

  /** Main result: after a page that reports too much used weight, good or bad, no turn
      makes a request before the pause for it is over. */
  lemma UsedWeightStopsPump(cfg: BackfillConfig, ops: seq<PumpOp>, vs: seq<BackfillView>, n: nat, m: nat)
    requires IsRun(cfg, ops, vs) && n <= m < |ops|
    requires PageArrives(vs[n], ops[n]) && UsedTooMuch(cfg.sched, ops[n].reply.value.page.usedWeight)
    requires Requests(vs[m], ops[m], vs[m + 1])
    ensures ops[m].nowMs >= ops[n].nowMs + cfg.sched.usedWeightPauseMs
  {
    var r := ops[n].reply.value;
    WeightIsSeen(cfg, vs[n].(inFlight := false), r.page, ops[n].nowMs, r.jitter);
    PageTurn(cfg, vs[n], ops[n].nowMs, r);
    PauseHolds(cfg, ops, vs, n + 1, m + 1);
    StepKeepsPause(cfg, vs[m], ops[m]);
  }
}
