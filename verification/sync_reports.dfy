/** What the quote handler tells the scheduler of its snapshots, told from their update
    ids, and what follows for its next request.
  */
module SyncReports {
  import opened OrderBooks
  import opened BookAgreement
  import opened SnapshotRequests
  import opened QuoteHandlers
  import opened QuoteStream
  import opened SnapshotFlow
  import opened SyncOutcomes
  import S = SnapshotSchedulers

  // ---------------------------------------------------------------- what is reported

  /** The symbol may ask again at once, as far as its own failures go. */
  predicate Freed(g: Gate) {
    g.s.failures[g.sym] == 0 && g.s.nextAllowedMs[g.sym] == 0
  }

  /** One more failure at time t. */
  predicate Delayed(g: Gate, h: Gate, t: int, jitter: real) {
    && h.cfg == g.cfg && h.sym == g.sym && h.s.failures[h.sym] == g.s.failures[g.sym] + 1
    && h.s.nextAllowedMs[h.sym] == t + S.Delay(g.cfg, g.s.failures[g.sym] + 1, jitter)
  }

  predicate Unchanged(g: Gate, h: Gate) {
    h.sym == g.sym && h.s.failures == g.s.failures && h.s.nextAllowedMs == g.s.nextAllowedMs
  }

  /** A fresh snapshot for a book that waits for its first one, or for a refresh. */
  ghost predicate Expected(o: BookView) {
    && !o.st.shadowPending
    && (o.st.phase.InitPhase? || (o.st.phase.ValidPhase? && o.st.refreshPending))
  }

  lemma FailureDelays(g: Gate, t: int, httpStatus: int, retryAfterSec: int, usedWeight: int, jitter: real)
    ensures Delayed(g, ReportFailure(g, t, httpStatus, retryAfterSec, usedWeight, jitter), t, jitter)
  {
  }

  lemma OutcomeReports(g: Gate, outcome: SnapshotOutcome, t: int, jitter: real)
    ensures var h := ReportOutcome(g, outcome, t, jitter);
      match outcome
      case Synced | Refreshed | RefreshAwaitingBridge => Freed(h)
      case SyncFailed | RefreshFailed => Delayed(g, h, t, jitter)
      case AwaitingBridge | Ignored => Unchanged(g, h)
  {
    FailureDelays(g, t, 0, 0, -1, jitter);
  }

  lemma FetchIsNoFailure(g: Gate, t: int, usedWeight: int)
    ensures Unchanged(g, g.(s := S.CheckUsedWeight(g.cfg, g.s, t, usedWeight)))
  {
  }

  /** Main result: a snapshot that is taken is a failure to the scheduler exactly when there
      is a hole between it and the buffered events, and it frees the symbol when it is in
      use or held. The first one of a book that still waits for its bridge is neither. */
  lemma SnapshotReports(cfg: BookConfig, v: HandlerView, r: SnapshotResult, t: int)
    requires WellFormedResult(r) && r.success && !Stale(v.st.tracker, r.requestId) && Expected(v.book)
    ensures var g, s, ds := ApplyResult(cfg, v, r, t).gate, r.lastUpdateId, v.book.st.buffer;
      && (AllOlder(cfg.sync, s, ds) ==> if v.book.st.phase.InitPhase? then Unchanged(v.gate, g) else Freed(g))
      && (forall k :: Decides(cfg.sync, s, ds, k) ==>
            if Joins(cfg.sync, s, ds, k) then Freed(g) else Delayed(v.gate, g, t, r.jitter))
  {
    var s, ds := r.lastUpdateId, v.book.st.buffer;
    var outcome := OnSnapshot(cfg, v.book, s, r.bids, r.asks).1;
    FetchIsNoFailure(v.gate, t, r.usedWeight);
    SnapshotIsReported(cfg, v, r, t);
    OutcomeReports(v.gate.(s := S.CheckUsedWeight(v.gate.cfg, v.gate.s, t, r.usedWeight)), outcome, t, r.jitter);
    if v.book.st.phase.InitPhase? {
      InitialSync(cfg, v.book, s, r.bids, r.asks);
    } else {
      RefreshOutcome(cfg, v.book, s, r.bids, r.asks);
    }
  }

  lemma SnapshotIsReported(cfg: BookConfig, v: HandlerView, r: SnapshotResult, t: int)
    requires WellFormedResult(r) && r.success && !Stale(v.st.tracker, r.requestId)
    ensures ApplyResult(cfg, v, r, t).gate ==
            ReportOutcome(v.gate.(s := S.CheckUsedWeight(v.gate.cfg, v.gate.s, t, r.usedWeight)),
                          OnSnapshot(cfg, v.book, r.lastUpdateId, r.bids, r.asks).1, t, r.jitter)
    ensures ApplyResult(cfg, v, r, t).book == OnSnapshot(cfg, v.book, r.lastUpdateId, r.bids, r.asks).0
  {
  }

  /** A fetch that failed, and a request that was given up, are failures. */
  lemma LostAnswersDelay(cfg: BookConfig, v: HandlerView, r: SnapshotResult, t: int)
    requires WellFormedResult(r) && !r.success && !Stale(v.st.tracker, r.requestId)
    ensures Delayed(v.gate, ApplyResult(cfg, v, r, t).gate, t, r.jitter)
  {
    FailureDelays(v.gate, t, r.httpStatus, r.retryAfterSec, r.usedWeight, r.jitter);
  }

  /** The event that bridges a waiting book frees its symbol; one that leaves a hole before
      the bridge is a failure, and one that breaks a valid book is not. */
  lemma EventReports(cfg: BookConfig, v: HandlerView, m: Message)
    requires (v.book.st.phase.SyncingPhase? && AtSnapshot(v.book.st.ids) && !v.book.st.shadowPending)
             || v.book.st.phase.ValidPhase?
    ensures var g, s := HandleDelta(cfg, v, m).gate, v.book.st.ids.snapshotId;
      if v.book.st.phase.ValidPhase? then Unchanged(v.gate, g)
      else if Older(cfg.sync, s, m.d) then g == v.gate
      else if Bridges(cfg.sync, s, m.d) then Freed(g)
      else Delayed(v.gate, g, m.nowMs, m.jitter)
  {
    var (b, ok) := ApplyDelta(cfg, v.book, m.d);
    if v.book.st.phase.SyncingPhase? { WaitingBookBridges(cfg, v.book, m.d); }
    if !ok {
      BreakReports(cfg, v.(book := b), v.book.st.phase.ValidPhase?, m);
    } else if b.st.phase.ValidPhase? {
      var gate := if v.book.st.phase.SyncingPhase? then ReportSync(v.gate) else v.gate;
      RefreshReportsNothing(cfg, v.(book := b, gate := gate), m);
    }
  }

  lemma BreakReports(cfg: BookConfig, v: HandlerView, wasValid: bool, m: Message)
    ensures var g := MarkBreak(cfg, v, wasValid, m).gate;
      if wasValid then g == v.gate else Delayed(v.gate, g, m.nowMs, m.jitter)
  {
    FailureDelays(v.gate, m.nowMs, 0, 0, -1, m.jitter);
  }

  lemma RefreshReportsNothing(cfg: BookConfig, v: HandlerView, m: Message)
    ensures Unchanged(v.gate, PublishAndRefresh(cfg, v, m).gate)
  {
    assert MaybePublish(cfg, v, m.recvTimeNs, m.due, m.lost).gate == v.gate;
  }

  // ---------------------------------------------------------------- what follows for the next request

  /** Nobody but this symbol's snapshots ends its delay. */
  ghost predicate WithoutResults(g: Gate, steps: seq<HandlerStep>) {
    forall s :: s in steps ==> WellFormedStep(s) && !s.ResultsStep? && (s.SchedulerStep? ==> OthersCall(g, s.c))
  }

  predicate OthersCall(g: Gate, c: S.Call) {
    match c
    case AcquireCall(sym, _) => sym != g.sym
    case FailureCall(sym, _, _, _, _, _) => sym != g.sym
    case SyncedCall(sym) => sym != g.sym
    case _ => true
  }

  ghost predicate Delaying(v: HandlerView, sym: nat, untilMs: int) {
    && (v.book.st.phase.InitPhase? || v.book.st.phase.InvalidPhase?)
    && v.gate.sym == sym && v.gate.s.nextAllowedMs[v.gate.sym] >= untilMs
  }

  lemma EarlyEventWaits(cfg: BookConfig, v: HandlerView, m: Message, untilMs: int)
    requires Delaying(v, v.gate.sym, untilMs)
    ensures var w := HandleDelta(cfg, v, m);
      && Delaying(w, v.gate.sym, untilMs)
      && (w.gate.s.requests != v.gate.s.requests ==> m.nowMs >= untilMs)
  {
  }

  lemma StepWaits(cfg: BookConfig, v: HandlerView, s: HandlerStep, untilMs: int)
    requires Delaying(v, v.gate.sym, untilMs) && WithoutResults(v.gate, [s])
    ensures var w := Take(cfg, v, s);
      && Delaying(w, v.gate.sym, untilMs)
      && (s.EventStep? && w.gate.s.requests != v.gate.s.requests ==> s.m.nowMs >= untilMs)
  {
    assert s in [s];
    if s.EventStep? { EarlyEventWaits(cfg, v, s.m, untilMs); }
  }

  lemma {:induction false} DelayedUntil(cfg: BookConfig, v: HandlerView, steps: seq<HandlerStep>, untilMs: int)
    requires Delaying(v, v.gate.sym, untilMs) && WithoutResults(v.gate, steps)
    ensures NoRequestBefore(cfg, v, steps, untilMs)
    decreases |steps|
  {
    if steps != [] {
      StepWaits(cfg, v, steps[0], untilMs);
      DelayedUntil(cfg, Take(cfg, v, steps[0]), steps[1..], untilMs);
    }
  }

  /** Main result: after an initial snapshot that does not join the stream, at time t, the
      handler requests no other before t plus the delay of its k-th failure in a row, at
      least min(initial * 2^(k-1), max). */
  lemma FailedSyncWaits(cfg: BookConfig, v: HandlerView, r: SnapshotResult, t: int, k: int, steps: seq<HandlerStep>)
    requires WellFormedResult(r) && r.success && !Stale(v.st.tracker, r.requestId) && 0.0 <= r.jitter < 1.0
    requires v.book.st.phase.InitPhase? && !v.book.st.shadowPending
    requires Decides(cfg.sync, r.lastUpdateId, v.book.st.buffer, k)
    requires !Joins(cfg.sync, r.lastUpdateId, v.book.st.buffer, k)
    requires WithoutResults(v.gate, steps)
    ensures var n := v.gate.s.failures[v.gate.sym];
      NoRequestBefore(cfg, ApplyResult(cfg, v, r, t), steps,
                      t + S.Min(v.gate.cfg.initialBackoffMs * S.Pow2(n), v.gate.cfg.maxBackoffMs))
  {
    var n := v.gate.s.failures[v.gate.sym];
    var w := ApplyResult(cfg, v, r, t);
    SnapshotReports(cfg, v, r, t);
    SnapshotIsReported(cfg, v, r, t);
    InitialSync(cfg, v.book, r.lastUpdateId, r.bids, r.asks);
    S.DelayWithinJitter(v.gate.cfg, n + 1, r.jitter);
    DelayedUntil(cfg, w, steps, t + S.Min(v.gate.cfg.initialBackoffMs * S.Pow2(n), v.gate.cfg.maxBackoffMs));
  }
}
