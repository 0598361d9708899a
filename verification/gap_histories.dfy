/** The status events of every gap over whole runs of the backfill: growing partial
    events, then one terminal event that says recovered exactly when every id of the gap
    is covered and the gap was one to be served.
  */
module GapHistories {
  import opened Options
  import opened SnapshotSchedulers
  import opened TradeGaps
  import opened TradeBackfills
  import opened BackfillProofs
  import opened PumpProofs

  // ---------------------------------------------------------------- histories

  /** The events of a run, cut after each terminal one: a history for each closed gap,
      and the events of the gap being worked on. */
  ghost function Histories(events: seq<GapEvent>): (seq<seq<GapEvent>>, seq<GapEvent>)
    decreases |events|
  {
    if events == [] then ([], [])
    else
      var (closed, current) := Histories(events[..|events| - 1]);
      var all := current + [events[|events| - 1]];
      if events[|events| - 1].status == Partial then (closed, all) else (closed + [all], [])
  }

  /** Gaps above the cap, and all gaps when the backfill is off, are given up at once. */
  predicate Served(cfg: BackfillConfig, g: TradeGap) {
    cfg.enabled && g.Missing() <= cfg.maxGapIds
  }

  predicate Covered(g: TradeGap) {
    g.NextNeededId() > g.lastId
  }

  ghost predicate WholeHistory(cfg: BackfillConfig, start: TradeGap, h: seq<GapEvent>) {
    && h != []
    && var e := h[|h| - 1];
       && FromGap(start, e.gap) && Growing(h[..|h| - 1], start, start.recovered, e.gap.recovered)
       && (e.status == Recovered || e.status == Unrecoverable)
       && (e.status == Recovered <==> Served(cfg, start) && Covered(e.gap))
       && (!Served(cfg, start) ==> |h| == 1 && e.gap == start)
  }

  ghost predicate HeadHistory(cfg: BackfillConfig, start: TradeGap, now: TradeGap, current: seq<GapEvent>) {
    && FromGap(start, now) && Growing(current, start, start.recovered, now.recovered)
    && (!Served(cfg, start) ==> current == [] && now == start)
  }

  /** A history for each closed gap, in the order they were added, and the head's. */
  ghost predicate Told(cfg: BackfillConfig, queue: seq<Job>, closed: seq<seq<GapEvent>>, current: seq<GapEvent>,
                       added: seq<TradeGap>) {
    && |closed| + |queue| == |added|
    && (forall i :: 0 <= i < |closed| ==> WholeHistory(cfg, added[i], closed[i]))
    && (if queue == [] then current == [] else HeadHistory(cfg, added[|closed|], queue[0].gap, current))
    && (forall j :: 1 <= j < |queue| ==> queue[j].gap == added[|closed| + j])
  }

  ghost predicate HistoriesOk(cfg: BackfillConfig, queue: seq<Job>, events: seq<GapEvent>, added: seq<TradeGap>) {
    Told(cfg, queue, Histories(events).0, Histories(events).1, added)
  }

  lemma EventAdded(events: seq<GapEvent>, e: GapEvent)
    ensures var (closed, current) := Histories(events);
      Histories(events + [e]) == if e.status == Partial then (closed, current + [e]) else (closed + [current + [e]], [])
  {
    assert (events + [e])[..|events|] == events;
  }

  // ---------------------------------------------------------------- steps

  /** The head gap is closed, and the next one is as it was added. */
  lemma ClosingTold(cfg: BackfillConfig, queue: seq<Job>, closed: seq<seq<GapEvent>>, current: seq<GapEvent>,
                    h: seq<GapEvent>, added: seq<TradeGap>)
    requires Told(cfg, queue, closed, current, added) && queue != [] && WholeHistory(cfg, added[|closed|], h)
    ensures Told(cfg, queue[1..], closed + [h], [], added)
  {
    var all, rest := closed + [h], queue[1..];
    forall i | 0 <= i < |all| ensures WholeHistory(cfg, added[i], all[i]) {
      if i < |closed| { assert all[i] == closed[i]; }
    }
    assert forall j :: 0 <= j < |rest| ==> rest[j] == queue[j + 1];
    if rest != [] { NothingGotYet(rest[0].gap); }
  }

  lemma HeadTold(cfg: BackfillConfig, queue: seq<Job>, closed: seq<seq<GapEvent>>, current: seq<GapEvent>,
                 job: Job, now: seq<GapEvent>, added: seq<TradeGap>)
    requires Told(cfg, queue, closed, current, added) && queue != []
    requires HeadHistory(cfg, added[|closed|], job.gap, now)
    ensures Told(cfg, [job] + queue[1..], closed, now, added)
  {
    var all := [job] + queue[1..];
    assert forall j :: 1 <= j < |all| ==> all[j] == queue[j];
  }

  lemma HistoryCloses(cfg: BackfillConfig, start: TradeGap, now: TradeGap, current: seq<GapEvent>, e: GapEvent)
    requires HeadHistory(cfg, start, now, current)
    requires FromGap(start, e.gap) && e.gap.recovered >= now.recovered
    requires e.status == Recovered || e.status == Unrecoverable
    requires e.status == Recovered <==> Served(cfg, start) && Covered(e.gap)
    requires Served(cfg, start) || e.gap == now
    ensures WholeHistory(cfg, start, current + [e])
  {
    assert (current + [e])[..|current|] == current;
  }

  lemma CloseKeepsHistories(cfg: BackfillConfig, v: BackfillView, added: seq<TradeGap>)
    requires HistoriesOk(cfg, v.queue, v.events, added)
    ensures HistoriesOk(cfg, CloseHeads(cfg, v).queue, CloseHeads(cfg, v).events, added)
    decreases |v.queue|
  {
    if v.queue != [] && CloseReason(cfg, v.queue[0].gap).Some? {
      var g, c := v.queue[0].gap, CloseReason(cfg, v.queue[0].gap).value;
      var (closed, current) := Histories(v.events);
      var e := GapEvent(g, c.0, c.1);
      HistoryCloses(cfg, added[|closed|], g, current, e);
      EventAdded(v.events, e);
      ClosingTold(cfg, v.queue, closed, current, current + [e], added);
      CloseKeepsHistories(cfg, FinishHead(v, c.0, c.1), added);
    }
  }

  lemma PartialGrows(current: seq<GapEvent>, e: GapEvent, start: TradeGap, from: int, mid: int)
    requires Growing(current, start, from, mid) && from <= mid < e.gap.recovered
    requires e.status == Partial && SameGap(start, e.gap)
    ensures Growing(current + [e], start, from, e.gap.recovered)
  {
  }

  lemma FromGapAdvances(start: TradeGap, now: TradeGap, g: TradeGap, n: nat)
    requires FromGap(start, now) && Advanced(now, g, n) && now.NextNeededId() + n <= now.lastId + 1
    ensures FromGap(start, g) && g.recovered == now.recovered + n
  {
  }

  /** One page for the head gap. */
  lemma PageKeepsHistories(cfg: BackfillConfig, queue: seq<Job>, events: seq<GapEvent>, s: JobStep,
                           added: seq<TradeGap>)
    requires HistoriesOk(cfg, queue, events, added) && queue != []
    requires Served(cfg, queue[0].gap) && StepOk(cfg, queue[0], s)
    ensures HistoriesOk(cfg, if s.job == None then queue[1..] else [s.job.value] + queue[1..], events + s.events, added)
  {
    var (closed, current) := Histories(events);
    var start, now, n := added[|closed|], queue[0].gap, |s.rows|;
    if s.job == None {
      var e := s.events[0];
      FromGapAdvances(start, now, e.gap, n);
      HistoryCloses(cfg, start, now, current, e);
      EventAdded(events, e);
      ClosingTold(cfg, queue, closed, current, current + [e], added);
      assert s.events == [e];
    } else {
      FromGapAdvances(start, now, s.job.value.gap, n);
      if s.rows == [] {
        assert events + s.events == events;
        HeadTold(cfg, queue, closed, current, s.job.value, current, added);
      } else {
        var e := s.events[0];
        EventAdded(events, e);
        PartialGrows(current, e, start, start.recovered, now.recovered);
        HeadTold(cfg, queue, closed, current, s.job.value, current + [e], added);
      }
    }
  }

  lemma ArrivalKeepsHistories(cfg: BackfillConfig, v: BackfillView, nowMs: int, reply: Reply, added: seq<TradeGap>)
    requires Sized(v.sched, 1) && v.queue != [] && CloseReason(cfg, v.queue[0].gap) == None
    requires Open(cfg, v.queue[0]) && HistoriesOk(cfg, v.queue, v.events, added)
    ensures var w := OnPage(cfg, v, reply.page, nowMs, reply.jitter); HistoriesOk(cfg, w.queue, w.events, added)
  {
    PageIsLocal(cfg, v, reply.page, nowMs, reply.jitter);
    StepJobFacts(cfg, v.queue[0], reply.page);
    PageKeepsHistories(cfg, v.queue, v.events, StepJob(cfg, v.queue[0], reply.page), added);
  }

  lemma TurnKeepsHistories(cfg: BackfillConfig, v: BackfillView, nowMs: int, reply: Option<Reply>, added: seq<TradeGap>,
                           arrived: nat)
    requires PumpOk(cfg, v, added, arrived) && HistoriesOk(cfg, v.queue, v.events, added)
    ensures var w := Turn(cfg, v, nowMs, reply).0; HistoriesOk(cfg, w.queue, w.events, added)
  {
    if v.inFlight && reply.Some? {
      ArrivalKeepsHistories(cfg, v.(inFlight := false), nowMs, reply.value, added);
      CloseKeepsHistories(cfg, OnPage(cfg, v.(inFlight := false), reply.value.page, nowMs, reply.value.jitter), added);
    } else if !v.inFlight {
      CloseKeepsHistories(cfg, v, added);
    }
  }

  lemma AddKeepsHistories(cfg: BackfillConfig, queue: seq<Job>, events: seq<GapEvent>, added: seq<TradeGap>,
                          gap: TradeGap)
    requires HistoriesOk(cfg, queue, events, added)
    ensures HistoriesOk(cfg, queue + [Job(gap, 0)], events, added + [gap])
  {
    NothingGotYet(gap);
    assert forall i :: 0 <= i < |added| ==> (added + [gap])[i] == added[i];
  }

  /** Main result: in every run, against any replies, each closed gap reported partial
      events with strictly growing counts and then one terminal event, which says
      recovered if and only if the gap was one to be served and every id is covered; a
      gap that was not reports just that one event, untouched. */
  lemma {:induction false} EveryHistoryIsOrderly(cfg: BackfillConfig, ops: seq<PumpOp>)
    requires forall op :: op in ops && op.AddOp? ==> op.gap.firstId >= 1
    ensures var r := RunOps(cfg, ops); HistoriesOk(cfg, r.v.queue, r.v.events, r.added)
    decreases |ops|
  {
    if ops != [] {
      var before, op := ops[..|ops| - 1], ops[|ops| - 1];
      var r := RunOps(cfg, before);
      EveryHistoryIsOrderly(cfg, before);
      RunIsDisciplined(cfg, before);
      match op {
        case AddOp(gap) => AddKeepsHistories(cfg, r.v.queue, r.v.events, r.added, gap);
        case TurnOp(now, reply) => TurnKeepsHistories(cfg, r.v, now, reply, r.added, r.arrived);
      }
    }
  }

  /** The cap comes first: a gap resumed from an earlier run with every id covered is
      given up as too large. */
  lemma CoveredGapAboveTheCap(cfg: BackfillConfig, sym: string, nowMs: int) returns (ops: seq<PumpOp>)
    requires cfg.enabled && cfg.maxGapIds >= 0
    ensures forall op :: op in ops && op.AddOp? ==> op.gap.firstId >= 1 && Covered(op.gap)
    ensures var events := RunOps(cfg, ops).v.events;
      |events| == 1 && Covered(events[0].gap) && events[0].status == Unrecoverable && events[0].reason == "tooLarge"
  {
    var n := cfg.maxGapIds + 1;
    var gap := TradeGap(sym, 1, n, n, n);
    ops := [];
    FirstGap(cfg, ops, gap);
    ops := ops + [AddOp(gap)];
    NextTurn(cfg, ops, nowMs);
    ClosedAsTooLarge(cfg, RunOps(cfg, ops).v);
    ops := ops + [TurnOp(nowMs, None)];
  }

  lemma FirstGap(cfg: BackfillConfig, none: seq<PumpOp>, gap: TradeGap)
    requires none == []
    ensures var v := RunOps(cfg, none + [AddOp(gap)]).v; v.queue == [Job(gap, 0)] && v.events == [] && !v.inFlight
  {
    assert (none + [AddOp(gap)])[..0] == none;
  }

  lemma NextTurn(cfg: BackfillConfig, ops: seq<PumpOp>, nowMs: int)
    ensures RunOps(cfg, ops + [TurnOp(nowMs, None)]).v == Turn(cfg, RunOps(cfg, ops).v, nowMs, None).0
  {
    assert (ops + [TurnOp(nowMs, None)])[..|ops|] == ops;
  }

  lemma ClosedAsTooLarge(cfg: BackfillConfig, v: BackfillView)
    requires cfg.enabled && |v.queue| == 1 && v.queue[0].gap.Missing() > cfg.maxGapIds
    ensures CloseHeads(cfg, v).events == v.events + [GapEvent(v.queue[0].gap, Unrecoverable, "tooLarge")]
    ensures CloseHeads(cfg, v).queue == []
  {
    var w := FinishHead(v, Unrecoverable, "tooLarge");
    assert w.queue == [];
    assert CloseHeads(cfg, v) == CloseHeads(cfg, w);
  }
}
