/** The trade handler's id checking (cpp/src/trade_feed_handler.cpp): every trade is
    compared with the last id of its symbol, a jump is recorded as a gap and handed
    to the backfill, and the trade is published in any case.
  */
module TradeHandlers {
  import opened Options
  import opened SnapshotSchedulers
  import opened TradeGaps
  import opened TradeBackfills

  datatype TradeCounters = TradeCounters(outOfOrder: nat, duplicates: nat, gaps: nat, missed: int)

  /** What happened: where each symbol's ids began, the live trades published, which
      of them had a new highest id, and the gaps detected. */
  datatype Story = Story(
    start: map<string, int>,
    live: seq<(string, int)>,
    maxima: seq<(string, int)>,
    gaps: seq<TradeGap>)

  datatype FeedView = FeedView(last: map<string, int>, ctr: TradeCounters, story: Story)

  ghost const NO_TRADES := FeedView(map[], TradeCounters(0, 0, 0, 0), Story(map[], [], [], []))

  ghost function SeedId(v: FeedView, sym: string, id: int): FeedView {
    v.(last := v.last[sym := id], story := v.story.(start := v.story.start[sym := id]))
  }

  ghost function NewGap(v: FeedView, sym: string, id: int): seq<TradeGap> {
    if sym in v.last && id > v.last[sym] + 1 then [TradeGap(sym, v.last[sym] + 1, id - 1, 0, 0)] else []
  }

  /** The id check. */
  ghost function CheckId(v: FeedView, sym: string, id: int): FeedView {
    if sym !in v.last then SeedId(v, sym, id)
    else
      var prev := v.last[sym];
      if id == prev then v.(ctr := v.ctr.(duplicates := v.ctr.duplicates + 1))
      else if id < prev then v.(ctr := v.ctr.(outOfOrder := v.ctr.outOfOrder + 1))
      else
        var found := NewGap(v, sym, id);
        FeedView(v.last[sym := id],
                 v.ctr.(gaps := v.ctr.gaps + |found|, missed := v.ctr.missed + id - prev - 1),
                 v.story.(maxima := v.story.maxima + [(sym, id)], gaps := v.story.gaps + found))
  }

  ghost function SeeTrade(v: FeedView, sym: string, id: int): FeedView {
    var w := CheckId(v, sym, id);
    w.(story := w.story.(live := w.story.live + [(sym, id)]))
  }

  class TradeHandler {
    const cfg: BackfillConfig
    const tracker: TradeIdTracker
    const backfill: TradeBackfill
    const gapEvents: GapEventQueue<GapEvent>
    var fhSeqNo: nat
    var ctr: TradeCounters
    var seeded: set<string>
    ghost var story: Story

    ghost predicate Valid()
      reads this, tracker, backfill, backfill.sched, gapEvents
    {
      && backfill.Valid() && backfill.cfg == cfg && gapEvents.Valid()
      && fhSeqNo == |story.live| + |backfill.rows|
    }

    ghost function View(): FeedView
      reads this, tracker
    {
      FeedView(tracker.last, ctr, story)
    }

    constructor (cfg: BackfillConfig)
      ensures Valid() && View() == NO_TRADES && this.cfg == cfg
      ensures backfill.View() == BackfillView([], false, [], [], [], Counters(0, 0, 0), Initial(cfg.sched, 1))
      ensures gapEvents.pushed == []
      ensures fresh(tracker) && fresh(backfill) && fresh(backfill.sched) && fresh(gapEvents)
    {
      this.cfg := cfg;
      tracker := new TradeIdTracker();
      backfill := new TradeBackfill(cfg);
      gapEvents := new GapEventQueue<GapEvent>();
      fhSeqNo, ctr, seeded := 0, TradeCounters(0, 0, 0, 0), {};
      story := Story(map[], [], [], []);
    }

    /** Startup: what the tickerplant has logged for a symbol. */
    method Seed(sym: string, id: int)
      requires Valid()
      modifies this`seeded, this`story, tracker
      ensures Valid() && View() == SeedId(old(View()), sym, id)
    {
      tracker.Seed(sym, id);
      seeded := seeded + {sym};
      story := story.(start := story.start[sym := id]);
    }

    /** Startup: a gap an earlier run left open keeps its progress. */
    method Resume(gap: TradeGap)
      requires Valid()
      modifies backfill`queue
      ensures Valid() && View() == old(View())
      ensures backfill.View() == old(backfill.View()).(queue := old(backfill.queue) + [Job(gap, 0)])
    {
      backfill.AddGap(gap);
    }

    method RecordGap(gap: TradeGap, status: GapStatus, reason: string, replies: nat -> EventReply)
      requires gapEvents.Valid()
      modifies gapEvents
      ensures gapEvents.Valid() && gapEvents.pushed == old(gapEvents.pushed) + [GapEvent(gap, status, reason)]
    {
      gapEvents.Push(GapEvent(gap, status, reason));
      var emptied := gapEvents.Flush(replies);
    }

    method TakeGap(gap: TradeGap, replies: nat -> EventReply)
      requires backfill.Valid() && gapEvents.Valid()
      modifies backfill`queue, gapEvents
      ensures backfill.Valid() && gapEvents.Valid()
      ensures backfill.View() == old(backfill.View()).(queue := old(backfill.queue) + [Job(gap, 0)])
      ensures gapEvents.pushed == old(gapEvents.pushed) +
                [GapEvent(gap, Detected, if gap.sym in seeded then "handlerRestart" else "")]
    {
      RecordGap(gap, Detected, if gap.sym in seeded then "handlerRestart" else "", replies);
      backfill.AddGap(gap);
    }

    method ValidateId(sym: string, id: int, replies: nat -> EventReply)
      requires Valid()
      modifies this`ctr, this`seeded, this`story, tracker, backfill`queue, gapEvents
      ensures Valid() && View() == CheckId(old(View()), sym, id)
      ensures var found := NewGap(old(View()), sym, id);
        && backfill.View() == old(backfill.View()).(
             queue := old(backfill.queue) + (if found == [] then [] else [Job(found[0], 0)]))
        && gapEvents.pushed == old(gapEvents.pushed) +
             (if found == [] then []
              else [GapEvent(found[0], Detected, if sym in old(seeded) then "handlerRestart" else "")])
    {
      var r := tracker.OnId(sym, id);
      match r.kind {
        case First =>
          story := story.(start := story.start[sym := id]);
        case InOrder =>
          story := story.(maxima := story.maxima + [(sym, id)]);
        case OutOfOrder =>
          ctr := ctr.(outOfOrder := ctr.outOfOrder + 1);
        case Duplicate =>
          ctr := ctr.(duplicates := ctr.duplicates + 1);
        case Gap =>
          var gap := TradeGap(sym, r.firstMissing, r.lastMissing, 0, 0);
          ctr := ctr.(gaps := ctr.gaps + 1, missed := ctr.missed + gap.Missing());
          story := story.(maxima := story.maxima + [(sym, id)], gaps := story.gaps + [gap]);
          TakeGap(gap, replies);
      }
      seeded := seeded - {sym};
    }

    /** A live trade: checked, then published whatever the check said. */
    method OnTrade(sym: string, id: int, replies: nat -> EventReply)
      requires Valid()
      modifies this, tracker, backfill`queue, gapEvents
      ensures Valid() && View() == SeeTrade(old(View()), sym, id)
      ensures fhSeqNo == old(fhSeqNo) + 1
      ensures var found := NewGap(old(View()), sym, id);
        && backfill.View() == old(backfill.View()).(
             queue := old(backfill.queue) + (if found == [] then [] else [Job(found[0], 0)]))
    {
      ValidateId(sym, id, replies);
      fhSeqNo := fhSeqNo + 1;
      story := story.(live := story.live + [(sym, id)]);
    }

    /** Queue what the backfill has reported from position `from` on. */
    method ReportEvents(from: nat, replies: nat -> EventReply)
      requires gapEvents.Valid() && from <= |backfill.events|
      modifies gapEvents
      ensures gapEvents.Valid() && gapEvents.pushed == old(gapEvents.pushed) + backfill.events[from..]
    {
      for i := from to |backfill.events|
        invariant gapEvents.Valid() && gapEvents.pushed == old(gapEvents.pushed) + backfill.events[from..i]
      {
        var e := backfill.events[i];
        RecordGap(e.gap, e.status, e.reason, replies);
        assert backfill.events[from..i + 1] == backfill.events[from..i] + [e];
      }
    }

    /** Backfilled trades are numbered with the live ones, and what the backfill reports
        about its gaps is queued for the tickerplant. */
    method PumpBackfill(nowMs: int, replies: nat -> Option<Reply>, eventReplies: nat -> EventReply, ghost r: nat)
      returns (ghost found: seq<Option<Reply>>)
      requires Valid()
      requires cfg.inlineFetch ==> forall n: nat :: replies(n).Some?
      modifies this`fhSeqNo, backfill, backfill.sched, gapEvents
      ensures Valid() && View() == old(View())
      ensures backfill.View() == Turns(cfg, old(backfill.View()), nowMs, found)
      ensures old(backfill.events) <= backfill.events
      ensures gapEvents.pushed == old(gapEvents.pushed) + backfill.events[|old(backfill.events)|..]
    {
      var before, reported := backfill.tradesBackfilled, |backfill.events|;
      var settled;
      settled, found := backfill.Pump(nowMs, replies, r);
      TurnsReport(cfg, old(backfill.View()), nowMs, found);
      fhSeqNo := fhSeqNo + (backfill.tradesBackfilled - before);
      ReportEvents(reported, eventReplies);
    }
  }

  lemma PageReports(cfg: BackfillConfig, v: BackfillView, page: Page, nowMs: int, jitter: real)
    requires v.queue != [] && Sized(v.sched, 1)
    ensures var w := OnPage(cfg, v, page, nowMs, jitter); v.rows <= w.rows && v.events <= w.events
  {
  }

  lemma TurnReports(cfg: BackfillConfig, v: BackfillView, nowMs: int, reply: Option<Reply>)
    requires Ready(v)
    ensures var w := Turn(cfg, v, nowMs, reply).0; v.rows <= w.rows && v.events <= w.events
  {
    if v.inFlight && reply.Some? {
      var v1 := OnPage(cfg, v.(inFlight := false), reply.value.page, nowMs, reply.value.jitter);
      PageReports(cfg, v.(inFlight := false), reply.value.page, nowMs, reply.value.jitter);
      CloseReports(cfg, v1);
      Grows(v.events, v1.events, CloseHeads(cfg, v1).events);
    } else if !v.inFlight {
      CloseReports(cfg, v);
    }
  }

  lemma Grows<T>(a: seq<T>, b: seq<T>, c: seq<T>)
    requires a <= b <= c
    ensures a <= c
  {
  }

  lemma {:induction false} CloseReports(cfg: BackfillConfig, v: BackfillView)
    ensures v.events <= CloseHeads(cfg, v).events
    decreases |v.queue|
  {
    if v.queue != [] && CloseReason(cfg, v.queue[0].gap).Some? {
      var c := CloseReason(cfg, v.queue[0].gap).value;
      CloseReports(cfg, FinishHead(v, c.0, c.1));
    }
  }

  lemma {:induction false} TurnsReport(cfg: BackfillConfig, v: BackfillView, nowMs: int, replies: seq<Option<Reply>>)
    requires Ready(v)
    ensures var w := Turns(cfg, v, nowMs, replies); v.rows <= w.rows && v.events <= w.events
    decreases |replies|
  {
    if replies != [] {
      TurnsReport(cfg, v, nowMs, replies[..|replies| - 1]);
      TurnReports(cfg, Turns(cfg, v, nowMs, replies[..|replies| - 1]), nowMs, replies[|replies| - 1]);
    }
  }
}
