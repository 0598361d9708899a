/** What every step of a quote handler keeps, so that its rows have no unmarked
    break in their update ids. Module QuoteRuns has the results over whole runs.

    A run is any interleaving of events, snapshot results, timeouts, heartbeats,
    reconnects and a shutdown request.
  */
module QuoteStream {
  import opened Options
  import opened PriceSide
  import opened OrderBooks
  import opened BookAgreement
  import opened BookRefresh
  import opened SnapshotRequests
  import opened QuoteHandlers
  import S = SnapshotSchedulers

  // ---------------------------------------------------------------- runs

  datatype HandlerStep =
    | EventStep(m: Message)
    | ResultsStep(nowMs: int, jitter: real, results: seq<SnapshotResult>)
    | HeartbeatStep(recvTimeNs: int, due: bool, lost: bool)
    | ReconnectStep(recvTimeNs: int, lost: bool)
    | SchedulerStep(c: S.Call)   // another symbol's call
    | StopStep

  ghost predicate WellFormedStep(s: HandlerStep) {
    s.ResultsStep? ==> forall r :: r in s.results ==> WellFormedResult(r)
  }

  ghost function AfterOther(g: Gate, c: S.Call): Gate {
    if S.CallOk(c, |g.s.failures|) then g.(s := S.After(g.cfg, g.s, c, |g.s.failures|)) else g
  }

  ghost function Take(cfg: BookConfig, v: HandlerView, s: HandlerStep): HandlerView
    requires WellFormedStep(s)
  {
    match s
    case EventStep(m) => HandleDelta(cfg, v, m)
    case ResultsStep(now, jitter, rs) => ApplyResults(cfg, ExpireRequest(v, now, jitter), rs, now)
    case HeartbeatStep(recv, due, lost) => Heartbeat(cfg, v, recv, due, lost)
    case ReconnectStep(recv, lost) => Reconnect(cfg, v, recv, lost)
    case SchedulerStep(c) => v.(gate := AfterOther(v.gate, c))
    case StopStep => v.(st := v.st.(running := false))
  }

  ghost function TakeAll(cfg: BookConfig, g: Gate, steps: seq<HandlerStep>): HandlerView
    requires forall s :: s in steps ==> WellFormedStep(s)
    decreases |steps|
  {
    if steps == [] then Started(g) else Take(cfg, TakeAll(cfg, g, steps[..|steps| - 1]), steps[|steps| - 1])
  }

  /** The final id of the last event of the current connection. */
  ghost function LastEventId(steps: seq<HandlerStep>): Option<int>
    decreases |steps|
  {
    if steps == [] then None
    else match steps[|steps| - 1]
      case EventStep(m) => Some(m.d.finalUpdateId)
      case ReconnectStep(_, _) => None
      case _ => LastEventId(steps[..|steps| - 1])
  }

  /** Reconnects happen while running; on spot the final ids of one connection's
      events do not go back. */
  ghost predicate CanHappen(cfg: BookConfig, v: HandlerView, lastId: Option<int>, s: HandlerStep) {
    match s
    case EventStep(m) => cfg.sync == Spot && lastId.Some? ==> lastId.value <= m.d.finalUpdateId
    case ReconnectStep(_, _) => v.st.running
    case _ => true
  }

  ghost predicate PossibleRun(cfg: BookConfig, g: Gate, steps: seq<HandlerStep>)
    requires forall s :: s in steps ==> WellFormedStep(s)
    decreases |steps|
  {
    steps != [] ==>
      var before := steps[..|steps| - 1];
      && PossibleRun(cfg, g, before)
      && CanHappen(cfg, TakeAll(cfg, g, before), LastEventId(before), steps[|steps| - 1])
  }

  // ---------------------------------------------------------------- chained rows

  /** Row q follows row p without a break. */
  predicate Linked(sync: DepthSync, p: Quote, q: Quote) {
    || (p.firstUpdateId == q.firstUpdateId && p.updateId == q.updateId && p.prevUpdateId == q.prevUpdateId)
    || (sync == Spot && q.firstUpdateId <= p.updateId + 1 && p.updateId <= q.updateId)
    || (sync == Futures && q.prevUpdateId == p.updateId)
  }

  ghost predicate RowsLinked(sync: DepthSync, rows: seq<Quote>) {
    forall i :: 0 < i < |rows| && rows[i - 1].isValid && rows[i].isValid ==> Linked(sync, rows[i - 1], rows[i])
  }

  ghost predicate RowsNumbered(rows: seq<Quote>) {
    forall i :: 0 <= i < |rows| ==> rows[i].fhSeqNo == i + 1
  }

  ghost predicate InvalidRowsEmpty(cfg: BookConfig, rows: seq<Quote>) {
    forall i :: 0 <= i < |rows| && !rows[i].isValid ==>
      rows[i].bids == rows[i].asks == NoRows(cfg.depth)
  }

  /** The ids the next valid row would carry are linked to row r. */
  predicate Continues(sync: DepthSync, r: Quote, l: LiveView) {
    && l.phase.ValidPhase?
    && if l.range.closed then
         && l.lastId == r.updateId && l.range.firstU == r.firstUpdateId
         && (sync == Futures ==> l.range.prevU == r.prevUpdateId)
         && (sync == Spot ==> r.prevUpdateId == 0)
       else match sync
         case Spot => l.range.firstU <= r.updateId + 1 && r.updateId <= l.lastId
         case Futures => l.range.prevU == r.updateId
  }

  ghost predicate StreamOk(cfg: BookConfig, v: HandlerView) {
    && OnChain(cfg, v.book)
    && |v.rows| == v.st.fhSeqNo
    && v.book.st.lastPublished == (if v.rows == [] then Nothing else Row(v.rows[|v.rows| - 1]))
    && RowsNumbered(v.rows) && RowsLinked(cfg.sync, v.rows) && InvalidRowsEmpty(cfg, v.rows)
    && (LastRowValid(v.book.st.lastPublished) ==>
          Continues(cfg.sync, v.book.st.lastPublished.quote, Live(v.book)))
    && (v.st.running ==> v.st.connected)
  }

  // ---------------------------------------------------------------- publishing

  lemma PublishKeepsStream(cfg: BookConfig, v: HandlerView, q: Quote, lost: bool)
    requires StreamOk(cfg, v) && q.fhSeqNo == v.st.fhSeqNo + 1
    requires !q.isValid ==> q.bids == q.asks == NoRows(cfg.depth)
    requires q.isValid && LastRowValid(v.book.st.lastPublished) ==> Linked(cfg.sync, v.book.st.lastPublished.quote, q)
    requires q.isValid ==> Continues(cfg.sync, q, Live(RecordPublish(v.book, q)))
    ensures StreamOk(cfg, PublishQuote(v, q, lost))
  {
  }

  lemma BookQuoteKeepsStream(cfg: BookConfig, v: HandlerView, recvTimeNs: int, lost: bool)
    requires StreamOk(cfg, v) && v.book.st.phase.ValidPhase?
    ensures StreamOk(cfg, PublishQuote(v, QuoteOf(cfg, v.book, recvTimeNs, v.st.fhSeqNo + 1), lost))
  {
    var q := QuoteOf(cfg, v.book, recvTimeNs, v.st.fhSeqNo + 1);
    PublishKeepsStream(cfg, v, q, lost);
  }

  /** An invalid row may be published in any state: it marks whatever follows. */
  lemma InvalidRowKeepsStream(cfg: BookConfig, v: HandlerView, recvTimeNs: int, lost: bool)
    requires StreamOk(cfg, v)
    ensures StreamOk(cfg, PublishInvalid(cfg, v, recvTimeNs, lost))
    ensures !LastRowValid(PublishInvalid(cfg, v, recvTimeNs, lost).book.st.lastPublished)
  {
    PublishKeepsStream(cfg, v, InvalidQuote(cfg.depth, recvTimeNs, v.st.fhSeqNo + 1), lost);
  }

  /** Any change of the book is fine that keeps the published record and either
      keeps the live view or comes after an invalid row. */
  lemma BookChangeKeepsStream(cfg: BookConfig, v: HandlerView, b: BookView)
    requires StreamOk(cfg, v) && OnChain(cfg, b)
    requires b.st.lastPublished == v.book.st.lastPublished
    requires LastRowValid(b.st.lastPublished) ==> Continues(cfg.sync, b.st.lastPublished.quote, Live(b))
    ensures StreamOk(cfg, v.(book := b))
  {
  }

  /** Neither has the scheduler a say in the stream, nor the request in flight, nor what
      is only counted. */
  lemma OtherChangeKeepsStream(cfg: BookConfig, v: HandlerView, w: HandlerView)
    requires StreamOk(cfg, v) && w.book == v.book && w.rows == v.rows
    requires w.st.fhSeqNo == v.st.fhSeqNo && w.st.running == v.st.running && w.st.connected == v.st.connected
    ensures StreamOk(cfg, w)
  {
  }

  // ---------------------------------------------------------------- events

  /** An accepted event extends the chain from the last published row. */
  lemma EventContinues(cfg: BookConfig, r: Quote, l: LiveView, d: Delta)
    requires Continues(cfg.sync, r, l) && !l.needBridge
    requires cfg.sync == Spot ==> l.lastId <= d.finalUpdateId
    requires CheckSequence(cfg.sync, Sequencing(l.needBridge, l.lastId, l.lastId), d) != Fail
    ensures Continues(cfg.sync, r, LiveDelta(cfg.sync, l, d))
  {
  }

  lemma DeltaKeepsPublished(cfg: BookConfig, o: BookView, d: Delta)
    ensures ApplyDelta(cfg, o, d).0.st.lastPublished == o.st.lastPublished
  {
  }

  lemma AcceptedEventKeepsStream(cfg: BookConfig, v: HandlerView, d: Delta)
    requires StreamOk(cfg, v) && Disciplined(cfg, v.book, DeltaOp(d))
    requires (v.book.st.phase.SyncingPhase? || v.book.st.phase.ValidPhase?) && ApplyDelta(cfg, v.book, d).1
    ensures StreamOk(cfg, v.(book := ApplyDelta(cfg, v.book, d).0))
  {
    var b := ApplyDelta(cfg, v.book, d).0;
    EventIsInvisible(cfg, v.book, d);
    DeltaKeepsPublished(cfg, v.book, d);
    if LastRowValid(v.book.st.lastPublished) {
      EventContinues(cfg, v.book.st.lastPublished.quote, Live(v.book), d);
    }
    BookChangeKeepsStream(cfg, v, b);
  }

  lemma RefusedEvent(cfg: BookConfig, o: BookView, d: Delta)
    requires (o.st.phase.SyncingPhase? || o.st.phase.ValidPhase?) && !ApplyDelta(cfg, o, d).1
    ensures ApplyDelta(cfg, o, d).0 == Invalidate(o)
  {
  }

  lemma LiveEventKeepsStream(cfg: BookConfig, v: HandlerView, m: Message)
    requires StreamOk(cfg, v) && Disciplined(cfg, v.book, DeltaOp(m.d))
    requires v.book.st.phase.SyncingPhase? || v.book.st.phase.ValidPhase?
    ensures StreamOk(cfg, HandleDelta(cfg, v, m))
  {
    var (b, ok) := ApplyDelta(cfg, v.book, m.d);
    if !ok {
      RefusedEvent(cfg, v.book, m.d);
      BreakKeepsStream(cfg, v, b, v.book.st.phase.ValidPhase?, m);
    } else {
      AcceptedEventKeepsStream(cfg, v, m.d);
      if b.st.phase.ValidPhase? {
        var gate := if v.book.st.phase.SyncingPhase? then ReportSync(v.gate) else v.gate;
        OtherChangeKeepsStream(cfg, v.(book := b), v.(book := b, gate := gate));
        RefreshRequestKeepsStream(cfg, v.(book := b, gate := gate), m);
      }
    }
  }

  lemma BreakKeepsStream(cfg: BookConfig, v: HandlerView, b: BookView, wasValid: bool, m: Message)
    requires StreamOk(cfg, v) && b == Invalidate(v.book)
    ensures StreamOk(cfg, MarkBreak(cfg, v.(book := b), wasValid, m))
  {
    var q := InvalidQuote(cfg.depth, m.recvTimeNs, v.st.fhSeqNo + 1);
    InvalidRowKeepsStream(cfg, v, m.recvTimeNs, m.lost);
    var w := PublishQuote(v, q, m.lost);
    BookChangeKeepsStream(cfg, w, Reset(w.book));
    assert Reset(RecordPublish(b, q)) == Reset(RecordPublish(v.book, q));
    OtherChangeKeepsStream(cfg, w.(book := Reset(w.book)), MarkBreak(cfg, v.(book := b), wasValid, m));
  }

  lemma RequestKeepsStream(cfg: BookConfig, v: HandlerView, b: BookView, g: Gate, id: nat, nowMs: int)
    requires StreamOk(cfg, v) && OnChain(cfg, SetSnapshotRequested(b, true))
    requires Live(SetSnapshotRequested(b, true)) == Live(v.book)
    requires b.st.lastPublished == v.book.st.lastPublished
    ensures StreamOk(cfg, Request(v.(gate := g, book := b), id, nowMs))
  {
    var b' := SetSnapshotRequested(b, true);
    BookChangeKeepsStream(cfg, v, b');
    OtherChangeKeepsStream(cfg, v.(book := b'), Request(v.(gate := g, book := b), id, nowMs));
  }

  lemma BeginRefreshIsLive(cfg: BookConfig, o: BookView)
    requires OnChain(cfg, o) && o.st.phase.ValidPhase?
    ensures var b := SetSnapshotRequested(BeginRefresh(o), true); OnChain(cfg, b) && Live(b) == Live(o)
  {
  }

  lemma RefreshRequestKeepsStream(cfg: BookConfig, v: HandlerView, m: Message)
    requires StreamOk(cfg, v) && v.book.st.phase.ValidPhase?
    ensures StreamOk(cfg, PublishAndRefresh(cfg, v, m))
  {
    BookQuoteKeepsStream(cfg, v, m.recvTimeNs, m.lost);
    var w := MaybePublish(cfg, v, m.recvTimeNs, m.due, m.lost);
    if WantsRefresh(cfg, w.book) {
      var gate := Ask(w.gate, m.nowMs).0;
      OtherChangeKeepsStream(cfg, w, w.(gate := gate));
      BeginRefreshIsLive(cfg, w.book);
      RequestKeepsStream(cfg, w, BeginRefresh(w.book), gate, m.requestId, m.nowMs);
    }
  }

  lemma EventKeepsStream(cfg: BookConfig, v: HandlerView, m: Message)
    requires StreamOk(cfg, v) && Disciplined(cfg, v.book, DeltaOp(m.d))
    ensures StreamOk(cfg, HandleDelta(cfg, v, m))
  {
    match v.book.st.phase {
      case InitPhase =>
        var b, gate := BufferDelta(v.book, m.d), Ask(v.gate, m.nowMs).0;
        BookChangeKeepsStream(cfg, v, b);
        OtherChangeKeepsStream(cfg, v.(book := b), v.(book := b, gate := gate));
        RequestKeepsStream(cfg, v.(book := b), b, gate, m.requestId, m.nowMs);
      case InvalidPhase => BookChangeKeepsStream(cfg, v, Reset(v.book));
      case _ => LiveEventKeepsStream(cfg, v, m);
    }
  }

  // ---------------------------------------------------------------- snapshot results

  lemma FailedRequestKeepsStream(cfg: BookConfig, v: HandlerView)
    requires StreamOk(cfg, v)
    ensures StreamOk(cfg, RequestFailed(v))
  {
    BookChangeKeepsStream(cfg, v, SetSnapshotRequested(CancelRefresh(v.book), false));
  }

  lemma ExpiryKeepsStream(cfg: BookConfig, v: HandlerView, nowMs: int, jitter: real)
    requires StreamOk(cfg, v)
    ensures StreamOk(cfg, ExpireRequest(v, nowMs, jitter))
  {
    if TimedOut(v.st.tracker, nowMs) {
      FailedRequestKeepsStream(cfg, v.(st := v.st.(tracker := Abandon(v.st.tracker)),
                                       gate := ReportFailure(v.gate, nowMs, 0, 0, -1, jitter)));
    }
  }

  lemma {:induction false} ReplayKeepsPublished(cfg: BookConfig, o: BookView, ds: seq<Delta>)
    ensures Replay(cfg, o, ds).0.st.lastPublished == o.st.lastPublished
    decreases |ds|
  {
    if ds != [] && ApplyDelta(cfg, o, ds[0]).1 {
      ReplayKeepsPublished(cfg, ApplyDelta(cfg, o, ds[0]).0, ds[1..]);
    }
  }

  lemma SnapshotKeepsPublished(cfg: BookConfig, o: BookView, id: int, bids: seq<Level>, asks: seq<Level>)
    requires DistinctPrices(bids) && DistinctPrices(asks)
    ensures OnSnapshot(cfg, o, id, bids, asks).0.st.lastPublished == o.st.lastPublished
  {
    var o' := o.(st := o.st.(snapshotRequested := false, refreshPending := false));
    ReplayKeepsPublished(cfg, LoadInitial(cfg, o', id, bids, asks), o.st.buffer);
  }

  lemma ResultKeepsStream(cfg: BookConfig, v: HandlerView, r: SnapshotResult, nowMs: int)
    requires StreamOk(cfg, v) && WellFormedResult(r)
    ensures StreamOk(cfg, ApplyResult(cfg, v, r, nowMs))
  {
    if !Stale(v.st.tracker, r.requestId) {
      var v' := v.(st := v.st.(tracker := Answered(v.st.tracker)));
      if !r.success {
        FailedRequestKeepsStream(cfg, v');
      } else {
        RefreshIsInvisible(cfg, v.book, SnapshotOp(r.lastUpdateId, r.bids, r.asks));
        SnapshotKeepsPublished(cfg, v.book, r.lastUpdateId, r.bids, r.asks);
        BookChangeKeepsStream(cfg, v, OnSnapshot(cfg, v.book, r.lastUpdateId, r.bids, r.asks).0);
      }
    }
  }

  lemma {:induction false} ResultsKeepStream(cfg: BookConfig, v: HandlerView, rs: seq<SnapshotResult>, nowMs: int)
    requires StreamOk(cfg, v) && forall r :: r in rs ==> WellFormedResult(r)
    ensures StreamOk(cfg, ApplyResults(cfg, v, rs, nowMs))
    decreases |rs|
  {
    if rs != [] {
      ResultsKeepStream(cfg, v, rs[..|rs| - 1], nowMs);
      ResultKeepsStream(cfg, ApplyResults(cfg, v, rs[..|rs| - 1], nowMs), rs[|rs| - 1], nowMs);
    }
  }

  // ---------------------------------------------------------------- all steps

  /** A running handler is connected to the tickerplant, so a reconnect always
      finds the means to mark the hole. */
  lemma ReconnectKeepsStream(cfg: BookConfig, v: HandlerView, recvTimeNs: int, lost: bool)
    requires StreamOk(cfg, v)
    ensures StreamOk(cfg, Reconnect(cfg, v, recvTimeNs, lost))
  {
    if v.st.running {
      InvalidRowKeepsStream(cfg, v, recvTimeNs, lost);
      var w := if LastRowValid(v.book.st.lastPublished) then PublishInvalid(cfg, v, recvTimeNs, lost) else v;
      BookChangeKeepsStream(cfg, w, Reset(w.book));
    }
  }

  lemma StepKeepsStream(cfg: BookConfig, v: HandlerView, s: HandlerStep)
    requires StreamOk(cfg, v) && WellFormedStep(s)
    requires s.EventStep? ==> Disciplined(cfg, v.book, DeltaOp(s.m.d))
    ensures StreamOk(cfg, Take(cfg, v, s))
  {
    match s {
      case EventStep(m) => EventKeepsStream(cfg, v, m);
      case ResultsStep(now, jitter, rs) =>
        ExpiryKeepsStream(cfg, v, now, jitter);
        ResultsKeepStream(cfg, ExpireRequest(v, now, jitter), rs, now);
      case HeartbeatStep(recv, due, lost) =>
        if v.book.st.phase.ValidPhase? { BookQuoteKeepsStream(cfg, v, recv, lost); }
      case ReconnectStep(recv, lost) => ReconnectKeepsStream(cfg, v, recv, lost);
      case SchedulerStep(c) => OtherChangeKeepsStream(cfg, v, v.(gate := AfterOther(v.gate, c)));
      case StopStep =>
    }
  }
}
