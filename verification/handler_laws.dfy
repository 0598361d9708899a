/** What single steps of the quote handler do besides publishing: when a refresh is asked
    for, what is counted, and what becomes of its connection to the tickerplant.
  */
module HandlerLaws {
  import opened OrderBooks
  import opened SnapshotRequests
  import opened QuoteHandlers
  import opened QuoteStream
  import opened SyncReports
  import S = SnapshotSchedulers

  // ---------------------------------------------------------------- when a refresh is asked for

  /** Fewer than n levels are known of a side that has more. */
  ghost predicate RunsLow(o: BookView, n: nat) {
    (o.book.bid.bounded && |o.book.bid.levels| < n) || (o.book.ask.bounded && |o.book.ask.levels| < n)
  }

  ghost predicate UnderRefresh(o: BookView) {
    o.st.refreshPending || o.st.shadowPending
  }

  /** Nothing is asked for. */
  ghost predicate AsksNothing(v: HandlerView, w: HandlerView) {
    && w.gate.s.requests == v.gate.s.requests && w.st.tracker == v.st.tracker
    && w.book.st.refreshPending == v.book.st.refreshPending && w.book.st.buffer == v.book.st.buffer
    && w.book.st.snapshotRequested == v.book.st.snapshotRequested
  }

  /** A refresh is asked for, and events are buffered for it from now on. */
  ghost predicate AsksRefresh(v: HandlerView, w: HandlerView, m: Message) {
    && w.gate.s.requests == v.gate.s.requests + 1 && w.st.tracker == Requested(m.requestId, m.nowMs)
    && w.book.st.refreshPending && w.book.st.snapshotRequested && w.book.st.buffer == []
  }

  lemma PublishingAsksNothing(cfg: BookConfig, v: HandlerView, recvTimeNs: int, due: bool, lost: bool)
    ensures var w := MaybePublish(cfg, v, recvTimeNs, due, lost);
      && AsksNothing(v, w) && w.gate == v.gate && w.book.book == v.book.book && w.book.st.phase == v.book.st.phase
      && w.book.st.shadowPending == v.book.st.shadowPending
  {
  }

  lemma RefreshIsAsked(cfg: BookConfig, v: HandlerView, m: Message)
    requires v.book.st.phase.ValidPhase?
    ensures var w := PublishAndRefresh(cfg, v, m);
      var g := v.gate;
      if RunsLow(v.book, cfg.refreshLowWater) && !UnderRefresh(v.book) && S.Grants(g.cfg, g.s, g.sym, m.nowMs)
      then AsksRefresh(v, w, m) else AsksNothing(v, w)
  {
    PublishingAsksNothing(cfg, v, m.recvTimeNs, m.due, m.lost);
  }

  /** Main result: an event that leaves the book valid asks for a refresh if and only if a
      side runs low, none is under way, and the scheduler grants it. */
  lemma LowDepthAsksRefresh(cfg: BookConfig, v: HandlerView, m: Message)
    requires (v.book.st.phase.SyncingPhase? || v.book.st.phase.ValidPhase?)
    requires ApplyDelta(cfg, v.book, m.d).1 && ApplyDelta(cfg, v.book, m.d).0.st.phase.ValidPhase?
    ensures var b, w := ApplyDelta(cfg, v.book, m.d).0, HandleDelta(cfg, v, m);
      var g := if v.book.st.phase.SyncingPhase? then ReportSync(v.gate) else v.gate;
      var u := v.(book := b, gate := g);
      && (v.book.st.phase.SyncingPhase? ==> Freed(g))
      && (if RunsLow(b, cfg.refreshLowWater) && !UnderRefresh(b) && S.Grants(g.cfg, g.s, g.sym, m.nowMs)
          then AsksRefresh(u, w, m) else AsksNothing(u, w))
  {
    var gate := if v.book.st.phase.SyncingPhase? then ReportSync(v.gate) else v.gate;
    RefreshIsAsked(cfg, v.(book := ApplyDelta(cfg, v.book, m.d).0, gate := gate), m);
  }

  // ---------------------------------------------------------------- what is counted

  predicate SameCounts(st: HandlerStatus, t: HandlerStatus) {
    t.sequenceGaps == st.sequenceGaps && t.resyncs == st.resyncs && t.snapshotFailures == st.snapshotFailures
  }

  lemma RefreshCountsNothing(cfg: BookConfig, v: HandlerView, m: Message)
    ensures SameCounts(v.st, PublishAndRefresh(cfg, v, m).st)
  {
    assert SameCounts(v.st, MaybePublish(cfg, v, m.recvTimeNs, m.due, m.lost).st);
  }

  /** A refused event is one resync, and a sequence gap if the book was valid; no other
      event is counted. */
  lemma BreaksAreCounted(cfg: BookConfig, v: HandlerView, m: Message)
    ensures var w := HandleDelta(cfg, v, m);
      var live := v.book.st.phase.SyncingPhase? || v.book.st.phase.ValidPhase?;
      if live && !ApplyDelta(cfg, v.book, m.d).1 then
        && w.st.resyncs == v.st.resyncs + 1 && w.st.snapshotFailures == v.st.snapshotFailures
        && w.st.sequenceGaps == v.st.sequenceGaps + if v.book.st.phase.ValidPhase? then 1 else 0
      else SameCounts(v.st, w.st)
  {
    if v.book.st.phase.SyncingPhase? || v.book.st.phase.ValidPhase? {
      var (b, ok) := ApplyDelta(cfg, v.book, m.d);
      if ok && b.st.phase.ValidPhase? {
        var gate := if v.book.st.phase.SyncingPhase? then ReportSync(v.gate) else v.gate;
        RefreshCountsNothing(cfg, v.(book := b, gate := gate), m);
      }
    }
  }

  /** A request that fails or is given up is a snapshot failure, a first snapshot that does
      not join the stream a resync; a stale result is nothing. */
  lemma ResultsAreCounted(cfg: BookConfig, v: HandlerView, r: SnapshotResult, nowMs: int)
    requires WellFormedResult(r)
    ensures var w := ApplyResult(cfg, v, r, nowMs);
      var failedSync := r.success && OnSnapshot(cfg, v.book, r.lastUpdateId, r.bids, r.asks).1 == SyncFailed;
      && w.st.sequenceGaps == v.st.sequenceGaps
      && (if r.requestId < v.st.tracker.latestId then SameCounts(v.st, w.st)
          else && w.st.snapshotFailures == v.st.snapshotFailures + (if r.success then 0 else 1)
               && w.st.resyncs == v.st.resyncs + (if failedSync then 1 else 0))
  {
  }

  lemma ExpiryIsCounted(v: HandlerView, nowMs: int, jitter: real)
    ensures var w, t := ExpireRequest(v, nowMs, jitter), v.st.tracker;
      && w.st.sequenceGaps == v.st.sequenceGaps && w.st.resyncs == v.st.resyncs
      && w.st.snapshotFailures == v.st.snapshotFailures
           + if t.requestedAtMs != 0 && nowMs - t.requestedAtMs > 30000 then 1 else 0
  {
  }

  // ---------------------------------------------------------------- the connection to the tickerplant

  /** Whether publishing in this step finds the tickerplant lost for good. */
  predicate LosesLink(s: HandlerStep) {
    match s
    case EventStep(m) => m.lost
    case HeartbeatStep(_, _, lost) => lost
    case ReconnectStep(_, lost) => lost
    case _ => false
  }

  /** The connection after a step: as before without a row; after a row lost and stopped if
      the tickerplant could not be reached again, and there otherwise. */
  ghost predicate LinkFollows(v: HandlerView, w: HandlerView, lost: bool) {
    if w.rows == v.rows || (!v.st.connected && !v.st.running) then
      w.st.connected == v.st.connected && w.st.running == v.st.running
    else w.st.connected == !lost && w.st.running == (v.st.running && !lost)
  }

  lemma PublishedLink(v: HandlerView, q: Quote, lost: bool)
    ensures LinkFollows(v, PublishQuote(v, q, lost), lost) && PublishQuote(v, q, lost).rows != v.rows
  {
  }

  lemma RefreshLink(cfg: BookConfig, v: HandlerView, m: Message)
    ensures LinkFollows(v, PublishAndRefresh(cfg, v, m), m.lost)
  {
    var q := QuoteOf(cfg, v.book, m.recvTimeNs, v.st.fhSeqNo + 1);
    PublishedLink(v, q, m.lost);
    var u := MaybePublish(cfg, v, m.recvTimeNs, m.due, m.lost);
    assert LinkFollows(v, u, m.lost);
  }

  lemma EventLink(cfg: BookConfig, v: HandlerView, m: Message)
    ensures LinkFollows(v, HandleDelta(cfg, v, m), m.lost)
  {
    if v.book.st.phase.SyncingPhase? || v.book.st.phase.ValidPhase? {
      var (b, ok) := ApplyDelta(cfg, v.book, m.d);
      if !ok {
        BreakLink(cfg, v.(book := b), v.book.st.phase.ValidPhase?, m);
      } else if b.st.phase.ValidPhase? {
        var gate := if v.book.st.phase.SyncingPhase? then ReportSync(v.gate) else v.gate;
        RefreshLink(cfg, v.(book := b, gate := gate), m);
      }
    }
  }

  lemma BreakLink(cfg: BookConfig, v: HandlerView, wasValid: bool, m: Message)
    ensures LinkFollows(v, MarkBreak(cfg, v, wasValid, m), m.lost)
  {
  }

  lemma {:induction false} ResultsLink(cfg: BookConfig, v: HandlerView, rs: seq<SnapshotResult>, nowMs: int)
    requires forall r :: r in rs ==> WellFormedResult(r)
    ensures var w := ApplyResults(cfg, v, rs, nowMs);
      w.rows == v.rows && w.st.connected == v.st.connected && w.st.running == v.st.running
    decreases |rs|
  {
    if rs != [] { ResultsLink(cfg, v, rs[..|rs| - 1], nowMs); }
  }

  lemma StepLink(cfg: BookConfig, v: HandlerView, s: HandlerStep)
    requires WellFormedStep(s) && !s.StopStep?
    ensures LinkFollows(v, Take(cfg, v, s), LosesLink(s))
  {
    match s {
      case EventStep(m) => EventLink(cfg, v, m);
      case ResultsStep(now, jitter, rs) => ResultsLink(cfg, ExpireRequest(v, now, jitter), rs, now);
      case _ =>
    }
  }

  /** Main result: a handler runs on, connected, as long as it is not told to stop and
      every row finds the tickerplant, whatever else happens. */
  lemma {:induction false} KeepsRunning(cfg: BookConfig, g: Gate, steps: seq<HandlerStep>)
    requires forall s :: s in steps ==> WellFormedStep(s) && !s.StopStep? && !LosesLink(s)
    ensures TakeAll(cfg, g, steps).st.running && TakeAll(cfg, g, steps).st.connected
    decreases |steps|
  {
    if steps != [] {
      var s := steps[|steps| - 1];
      assert s in steps;
      KeepsRunning(cfg, g, steps[..|steps| - 1]);
      StepLink(cfg, TakeAll(cfg, g, steps[..|steps| - 1]), s);
    }
  }
}
