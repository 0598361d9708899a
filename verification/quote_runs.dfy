/** The two guarantees of the quote handler over whole runs, put together from
    modules QuoteStream (ids) and BookAgreement (levels).
  */
module QuoteRuns {
  import opened Options
  import opened PriceSide
  import opened Exchange
  import opened OrderBooks
  import opened BookAgreement
  import opened BookRefresh
  import opened SnapshotRequests
  import opened QuoteHandlers
  import opened QuoteStream

  // ---------------------------------------------------------------- update ids stay below the stream

  predicate AtMost(u: int, bound: Option<int>) {
    bound.Some? && u <= bound.value
  }

  /** The book is at no later id than the last event of the connection. */
  ghost predicate Bounded(o: BookView, bound: Option<int>) {
    && (o.st.phase.ValidPhase? ==> AtMost(o.st.ids.lastId, bound))
    && (forall i :: 0 <= i < |o.st.buffer| ==> AtMost(o.st.buffer[i].finalUpdateId, bound))
  }

  lemma ShadowStaysBounded(cfg: BookConfig, o: BookView, d: Delta, bound: Option<int>)
    requires Bounded(o, bound) && AtMost(d.finalUpdateId, bound)
    ensures Bounded(StepShadow(cfg, o, d), bound)
  {
  }

  lemma EventStaysBounded(cfg: BookConfig, o: BookView, d: Delta, bound: Option<int>)
    requires Bounded(o, bound) && AtMost(d.finalUpdateId, bound)
    ensures Bounded(ApplyDelta(cfg, o, d).0, bound)
  {
    var live := if CheckSequence(cfg.sync, o.st.ids, d) == Apply then AdvanceLive(cfg, o, d) else o;
    ShadowStaysBounded(cfg, if live.st.refreshPending then BufferDelta(live, d) else live, d, bound);
  }

  lemma {:induction false} ReplayStaysBounded(cfg: BookConfig, o: BookView, ds: seq<Delta>, bound: Option<int>)
    requires Bounded(o, bound)
    requires forall i :: 0 <= i < |ds| ==> AtMost(ds[i].finalUpdateId, bound)
    ensures Bounded(Replay(cfg, o, ds).0, bound)
    decreases |ds|
  {
    if ds != [] {
      EventStaysBounded(cfg, o, ds[0], bound);
      if ApplyDelta(cfg, o, ds[0]).1 {
        ReplayStaysBounded(cfg, ApplyDelta(cfg, o, ds[0]).0, ds[1..], bound);
      }
    }
  }

  lemma SnapshotStaysBounded(cfg: BookConfig, o: BookView, id: int, bids: seq<Level>, asks: seq<Level>,
                             bound: Option<int>)
    requires Bounded(o, bound) && OnChain(cfg, o)
    requires DistinctPrices(bids) && DistinctPrices(asks)
    ensures Bounded(OnSnapshot(cfg, o, id, bids, asks).0, bound)
  {
    if o.st.phase.ValidPhase? && o.st.refreshPending {
      RefreshIsSeamless(cfg, o, id, bids, asks);
      assert OnSnapshot(cfg, o, id, bids, asks).0.st.buffer == [];
    } else if o.st.phase.InitPhase? {
      var o' := o.(st := o.st.(snapshotRequested := false, refreshPending := false));
      ReplayStaysBounded(cfg, LoadInitial(cfg, o', id, bids, asks), o.st.buffer, bound);
    }
  }

  lemma PublishStaysBounded(cfg: BookConfig, v: HandlerView, m: Message, bound: Option<int>)
    requires Bounded(v.book, bound)
    ensures Bounded(PublishAndRefresh(cfg, v, m).book, bound)
  {
  }

  lemma EarlyEventStaysBounded(cfg: BookConfig, v: HandlerView, m: Message, bound: Option<int>)
    requires Bounded(v.book, bound) && AtMost(m.d.finalUpdateId, bound) && v.book.st.phase.InitPhase?
    ensures Bounded(HandleDelta(cfg, v, m).book, bound)
  {
    var b := BufferDelta(v.book, m.d);
    assert HandleDelta(cfg, v, m).book.st.buffer == b.st.buffer;
  }

  lemma LiveEventStaysBounded(cfg: BookConfig, v: HandlerView, m: Message, bound: Option<int>)
    requires Bounded(v.book, bound) && AtMost(m.d.finalUpdateId, bound)
    requires v.book.st.phase.SyncingPhase? || v.book.st.phase.ValidPhase?
    ensures Bounded(HandleDelta(cfg, v, m).book, bound)
  {
    var (b, ok) := ApplyDelta(cfg, v.book, m.d);
    EventStaysBounded(cfg, v.book, m.d, bound);
    if ok && b.st.phase.ValidPhase? {
      var gate := if v.book.st.phase.SyncingPhase? then ReportSync(v.gate) else v.gate;
      PublishStaysBounded(cfg, v.(book := b, gate := gate), m, bound);
    }
  }

  lemma HandleStaysBounded(cfg: BookConfig, v: HandlerView, m: Message, bound: Option<int>)
    requires Bounded(v.book, bound) && AtMost(m.d.finalUpdateId, bound)
    ensures Bounded(HandleDelta(cfg, v, m).book, bound)
  {
    match v.book.st.phase {
      case InitPhase => EarlyEventStaysBounded(cfg, v, m, bound);
      case InvalidPhase =>
      case _ => LiveEventStaysBounded(cfg, v, m, bound);
    }
  }

  lemma ResultStaysBounded(cfg: BookConfig, v: HandlerView, r: SnapshotResult, nowMs: int, bound: Option<int>)
    requires StreamOk(cfg, v) && WellFormedResult(r) && Bounded(v.book, bound)
    ensures Bounded(ApplyResult(cfg, v, r, nowMs).book, bound)
  {
    SnapshotStaysBounded(cfg, v.book, r.lastUpdateId, r.bids, r.asks, bound);
  }

  lemma {:induction false} ResultsStayBounded(cfg: BookConfig, v: HandlerView, rs: seq<SnapshotResult>, nowMs: int,
                                             bound: Option<int>)
    requires StreamOk(cfg, v) && Bounded(v.book, bound)
    requires forall r :: r in rs ==> WellFormedResult(r)
    ensures Bounded(ApplyResults(cfg, v, rs, nowMs).book, bound)
    decreases |rs|
  {
    if rs != [] {
      var front := rs[..|rs| - 1];
      ResultsStayBounded(cfg, v, front, nowMs, bound);
      ResultsKeepStream(cfg, v, front, nowMs);
      ResultStaysBounded(cfg, ApplyResults(cfg, v, front, nowMs), rs[|rs| - 1], nowMs, bound);
    }
  }

  lemma StepStaysBounded(cfg: BookConfig, v: HandlerView, s: HandlerStep, bound: Option<int>)
    requires StreamOk(cfg, v) && WellFormedStep(s) && CanHappen(cfg, v, bound, s)
    requires cfg.sync == Spot && Bounded(v.book, bound)
    ensures Bounded(Take(cfg, v, s).book,
                    match s
                    case EventStep(m) => Some(m.d.finalUpdateId)
                    case ReconnectStep(_, _) => None
                    case _ => bound)
  {
    match s {
      case EventStep(m) => HandleStaysBounded(cfg, v, m, Some(m.d.finalUpdateId));
      case ResultsStep(now, jitter, rs) =>
        ExpiryKeepsStream(cfg, v, now, jitter);
        ResultsStayBounded(cfg, ExpireRequest(v, now, jitter), rs, now, bound);
      case _ =>
    }
  }

  // ---------------------------------------------------------------- no unmarked break

  lemma {:induction false} RunKeepsStream(cfg: BookConfig, g: Gate, steps: seq<HandlerStep>)
    requires forall s :: s in steps ==> WellFormedStep(s)
    requires PossibleRun(cfg, g, steps)
    ensures StreamOk(cfg, TakeAll(cfg, g, steps))
    ensures cfg.sync == Spot ==> Bounded(TakeAll(cfg, g, steps).book, LastEventId(steps))
    decreases |steps|
  {
    if steps != [] {
      var before, s := steps[..|steps| - 1], steps[|steps| - 1];
      RunKeepsStream(cfg, g, before);
      var v := TakeAll(cfg, g, before);
      StepKeepsStream(cfg, v, s);
      if cfg.sync == Spot { StepStaysBounded(cfg, v, s, LastEventId(before)); }
    }
  }

  /** Main result: in every run, two consecutive published valid rows repeat the
      same update ids or chain without a gap; so wherever the stored ids do not
      connect, an invalid row lies between. Rows are numbered without holes, and
      an invalid row carries no levels. */
  lemma NoUnmarkedBreak(cfg: BookConfig, g: Gate, steps: seq<HandlerStep>)
    requires forall s :: s in steps ==> WellFormedStep(s)
    requires PossibleRun(cfg, g, steps)
    ensures var rows := TakeAll(cfg, g, steps).rows;
      && (forall i :: 0 < i < |rows| && rows[i - 1].isValid && rows[i].isValid ==>
            Linked(cfg.sync, rows[i - 1], rows[i]))
      && (forall i :: 0 <= i < |rows| ==> rows[i].fhSeqNo == i + 1)
      && (forall i :: 0 <= i < |rows| && !rows[i].isValid ==> rows[i].bids == rows[i].asks == NoRows(cfg.depth))
  {
    RunKeepsStream(cfg, g, steps);
  }

  // ---------------------------------------------------------------- exact rows

  ghost predicate FaithfulStep(cfg: BookConfig, h: History, s: HandlerStep) {
    match s
    case EventStep(m) => FaithfulDelta(cfg.sync, h, m.d)
    case ResultsStep(_, _, rs) =>
      forall r :: r in rs && r.success ==> FaithfulSnapshot(cfg, h, r.lastUpdateId, r.bids, r.asks)
    case _ => true
  }

  ghost predicate RowExact(cfg: BookConfig, h: History, q: Quote) {
    q.isValid ==>
      && |q.bids| == |q.asks| == cfg.depth
      && IsTop(true, h(q.updateId).bid, q.bids)
      && IsTop(false, h(q.updateId).ask, q.asks)
  }

  ghost predicate Exact(cfg: BookConfig, h: History, v: HandlerView) {
    && Sound(cfg, h, v.book)
    && (forall i :: 0 <= i < |v.rows| ==> RowExact(cfg, h, v.rows[i]))
  }

  ghost predicate NonNegative(h: History) {
    forall n, p :: h(n).bid(p) >= 0 && h(n).ask(p) >= 0
  }

  lemma PublishKeepsExact(cfg: BookConfig, h: History, v: HandlerView, q: Quote, lost: bool)
    requires Exact(cfg, h, v) && RowExact(cfg, h, q)
    ensures Exact(cfg, h, PublishQuote(v, q, lost))
  {
    StepKeepsAgreement(cfg, h, v.book, PublishOp(q));
  }

  lemma BookQuoteKeepsExact(cfg: BookConfig, h: History, v: HandlerView, recvTimeNs: int, lost: bool)
    requires Exact(cfg, h, v) && NonNegative(h)
    ensures Exact(cfg, h, PublishQuote(v, QuoteOf(cfg, v.book, recvTimeNs, v.st.fhSeqNo + 1), lost))
  {
    ValidQuoteIsTop(cfg, h, v.book, recvTimeNs, v.st.fhSeqNo + 1);
    PublishKeepsExact(cfg, h, v, QuoteOf(cfg, v.book, recvTimeNs, v.st.fhSeqNo + 1), lost);
  }

  lemma BookChangeKeepsExact(cfg: BookConfig, h: History, v: HandlerView, b: BookView)
    requires Exact(cfg, h, v) && Sound(cfg, h, b)
    ensures Exact(cfg, h, v.(book := b))
  {
  }

  lemma OtherChangeKeepsExact(cfg: BookConfig, h: History, v: HandlerView, w: HandlerView)
    requires Exact(cfg, h, v) && w.book == v.book && w.rows == v.rows
    ensures Exact(cfg, h, w)
  {
  }

  lemma RequestKeepsExact(cfg: BookConfig, h: History, v: HandlerView, g: Gate, id: nat, nowMs: int)
    requires Exact(cfg, h, v)
    ensures Exact(cfg, h, Request(v.(gate := g, book := BeginRefresh(v.book)), id, nowMs))
  {
    StepKeepsAgreement(cfg, h, v.book, BeginRefreshOp);
    StepKeepsAgreement(cfg, h, BeginRefresh(v.book), RequestedOp(true));
    var b := SetSnapshotRequested(BeginRefresh(v.book), true);
    BookChangeKeepsExact(cfg, h, v, b);
    OtherChangeKeepsExact(cfg, h, v.(book := b), Request(v.(gate := g, book := BeginRefresh(v.book)), id, nowMs));
  }

  lemma PublishRefreshKeepsExact(cfg: BookConfig, h: History, v: HandlerView, m: Message)
    requires Exact(cfg, h, v) && NonNegative(h)
    ensures Exact(cfg, h, PublishAndRefresh(cfg, v, m))
  {
    BookQuoteKeepsExact(cfg, h, v, m.recvTimeNs, m.lost);
    var w := MaybePublish(cfg, v, m.recvTimeNs, m.due, m.lost);
    if WantsRefresh(cfg, w.book) {
      var gate := Ask(w.gate, m.nowMs).0;
      OtherChangeKeepsExact(cfg, h, w, w.(gate := gate));
      RequestKeepsExact(cfg, h, w, gate, m.requestId, m.nowMs);
    }
  }

  lemma BreakKeepsExact(cfg: BookConfig, h: History, v: HandlerView, wasValid: bool, m: Message)
    requires Exact(cfg, h, v)
    ensures Exact(cfg, h, MarkBreak(cfg, v, wasValid, m))
  {
    var q := InvalidQuote(cfg.depth, m.recvTimeNs, v.st.fhSeqNo + 1);
    PublishKeepsExact(cfg, h, v, q, m.lost);
    StepKeepsAgreement(cfg, h, RecordPublish(v.book, q), ResetOp);
  }

  lemma LiveEventKeepsExact(cfg: BookConfig, h: History, v: HandlerView, m: Message)
    requires Exact(cfg, h, v) && NonNegative(h) && FaithfulDelta(cfg.sync, h, m.d)
    requires v.book.st.phase.SyncingPhase? || v.book.st.phase.ValidPhase?
    ensures Exact(cfg, h, HandleDelta(cfg, v, m))
  {
    var (b, ok) := ApplyDelta(cfg, v.book, m.d);
    StepKeepsAgreement(cfg, h, v.book, DeltaOp(m.d));
    BookChangeKeepsExact(cfg, h, v, b);
    if !ok {
      BreakKeepsExact(cfg, h, v.(book := b), v.book.st.phase.ValidPhase?, m);
    } else if b.st.phase.ValidPhase? {
      var gate := if v.book.st.phase.SyncingPhase? then ReportSync(v.gate) else v.gate;
      OtherChangeKeepsExact(cfg, h, v.(book := b), v.(book := b, gate := gate));
      PublishRefreshKeepsExact(cfg, h, v.(book := b, gate := gate), m);
    }
  }

  lemma EventKeepsExact(cfg: BookConfig, h: History, v: HandlerView, m: Message)
    requires Exact(cfg, h, v) && NonNegative(h) && FaithfulDelta(cfg.sync, h, m.d)
    ensures Exact(cfg, h, HandleDelta(cfg, v, m))
  {
    match v.book.st.phase {
      case InitPhase =>
        StepKeepsAgreement(cfg, h, v.book, BufferOp(m.d));
        StepKeepsAgreement(cfg, h, BufferDelta(v.book, m.d), RequestedOp(true));
      case InvalidPhase => StepKeepsAgreement(cfg, h, v.book, ResetOp);
      case _ => LiveEventKeepsExact(cfg, h, v, m);
    }
  }

  lemma FailureKeepsExact(cfg: BookConfig, h: History, v: HandlerView)
    requires Exact(cfg, h, v)
    ensures Exact(cfg, h, RequestFailed(v))
  {
    StepKeepsAgreement(cfg, h, v.book, CancelRefreshOp);
    StepKeepsAgreement(cfg, h, CancelRefresh(v.book), RequestedOp(false));
  }

  lemma {:induction false} ResultsKeepExact(cfg: BookConfig, h: History, v: HandlerView, rs: seq<SnapshotResult>,
                                           nowMs: int)
    requires Exact(cfg, h, v)
    requires forall r :: r in rs ==> WellFormedResult(r)
    requires forall r :: r in rs && r.success ==> FaithfulSnapshot(cfg, h, r.lastUpdateId, r.bids, r.asks)
    ensures Exact(cfg, h, ApplyResults(cfg, v, rs, nowMs))
    decreases |rs|
  {
    if rs != [] {
      ResultsKeepExact(cfg, h, v, rs[..|rs| - 1], nowMs);
      ResultKeepsExact(cfg, h, ApplyResults(cfg, v, rs[..|rs| - 1], nowMs), rs[|rs| - 1], nowMs);
    }
  }

  lemma ResultKeepsExact(cfg: BookConfig, h: History, v: HandlerView, r: SnapshotResult, nowMs: int)
    requires Exact(cfg, h, v) && WellFormedResult(r)
    requires r.success ==> FaithfulSnapshot(cfg, h, r.lastUpdateId, r.bids, r.asks)
    ensures Exact(cfg, h, ApplyResult(cfg, v, r, nowMs))
  {
    var w := ApplyResult(cfg, v, r, nowMs);
    if !Stale(v.st.tracker, r.requestId) {
      if r.success {
        StepKeepsAgreement(cfg, h, v.book, SnapshotOp(r.lastUpdateId, r.bids, r.asks));
        BookChangeKeepsExact(cfg, h, v, w.book);
        OtherChangeKeepsExact(cfg, h, v.(book := w.book), w);
      } else {
        FailureKeepsExact(cfg, h, v);
        OtherChangeKeepsExact(cfg, h, RequestFailed(v), w);
      }
    }
  }

  lemma ReconnectKeepsExact(cfg: BookConfig, h: History, v: HandlerView, recvTimeNs: int, lost: bool)
    requires Exact(cfg, h, v)
    ensures Exact(cfg, h, Reconnect(cfg, v, recvTimeNs, lost))
  {
    var q := InvalidQuote(cfg.depth, recvTimeNs, v.st.fhSeqNo + 1);
    PublishKeepsExact(cfg, h, v, q, lost);
    StepKeepsAgreement(cfg, h, RecordPublish(v.book, q), ResetOp);
    StepKeepsAgreement(cfg, h, v.book, ResetOp);
  }

  lemma PollKeepsExact(cfg: BookConfig, h: History, v: HandlerView, nowMs: int, jitter: real, rs: seq<SnapshotResult>)
    requires Exact(cfg, h, v)
    requires forall r :: r in rs ==> WellFormedResult(r)
    requires forall r :: r in rs && r.success ==> FaithfulSnapshot(cfg, h, r.lastUpdateId, r.bids, r.asks)
    ensures Exact(cfg, h, ApplyResults(cfg, ExpireRequest(v, nowMs, jitter), rs, nowMs))
  {
    FailureKeepsExact(cfg, h, v);
    var w := if TimedOut(v.st.tracker, nowMs) then RequestFailed(v) else v;
    OtherChangeKeepsExact(cfg, h, w, ExpireRequest(v, nowMs, jitter));
    ResultsKeepExact(cfg, h, ExpireRequest(v, nowMs, jitter), rs, nowMs);
  }

  lemma HeartbeatKeepsExact(cfg: BookConfig, h: History, v: HandlerView, recvTimeNs: int, due: bool, lost: bool)
    requires Exact(cfg, h, v) && NonNegative(h)
    ensures Exact(cfg, h, Heartbeat(cfg, v, recvTimeNs, due, lost))
  {
    BookQuoteKeepsExact(cfg, h, v, recvTimeNs, lost);
  }

  lemma StepKeepsExact(cfg: BookConfig, h: History, v: HandlerView, s: HandlerStep)
    requires Exact(cfg, h, v) && NonNegative(h) && WellFormedStep(s) && FaithfulStep(cfg, h, s)
    ensures Exact(cfg, h, Take(cfg, v, s))
  {
    match s {
      case EventStep(m) => EventKeepsExact(cfg, h, v, m);
      case ResultsStep(now, jitter, rs) => PollKeepsExact(cfg, h, v, now, jitter, rs);
      case HeartbeatStep(recv, due, lost) => HeartbeatKeepsExact(cfg, h, v, recv, due, lost);
      case ReconnectStep(recv, lost) => ReconnectKeepsExact(cfg, h, v, recv, lost);
      case SchedulerStep(c) => OtherChangeKeepsExact(cfg, h, v, v.(gate := AfterOther(v.gate, c)));
      case StopStep =>
    }
  }

  /** Main result: whatever the run, as long as the exchange's events and snapshots
      are what they claim to be, every valid row ever published shows exactly the
      exchange's top levels at the update id it carries. */
  lemma {:induction false} ValidRowsAreExact(cfg: BookConfig, h: History, g: Gate, steps: seq<HandlerStep>)
    requires NonNegative(h)
    requires forall s :: s in steps ==> WellFormedStep(s) && FaithfulStep(cfg, h, s)
    ensures Exact(cfg, h, TakeAll(cfg, g, steps))
    decreases |steps|
  {
    if steps != [] {
      var before, s := steps[..|steps| - 1], steps[|steps| - 1];
      ValidRowsAreExact(cfg, h, g, before);
      assert s in steps;
      StepKeepsExact(cfg, h, TakeAll(cfg, g, before), s);
    }
  }
}
