/** The quote handler and the fetching thread together, and the handler and the
    scheduler together: which snapshots reach the book, and when requests go out.
  */
module SnapshotFlow {
  import opened Options
  import opened OrderBooks
  import opened SnapshotRequests
  import opened QuoteHandlers
  import opened QuoteStream
  import S = SnapshotSchedulers

  // ---------------------------------------------------------------- both threads

  /** The handler's part for one symbol, numbered 0, and the requests and results of all
      symbols under way. */
  datatype Flow = Flow(v: HandlerView, w: World)

  datatype FlowStep = HandlerMove(s: HandlerStep) | OtherMove(m: Move) | TakesRequest | DeliversResult

  /** What the handler does for the other symbols. */
  ghost predicate ForOthers(m: Move) {
    match m
    case RequestMove(s, _) => s > 0
    case ExpireMove(s, _) => s > 0
    case ReconnectMove(s) => s > 0
    case _ => false
  }

  /** The ids of symbol 0 among some results. */
  ghost function OwnIds(ts: seq<Ticket>): seq<nat>
    decreases |ts|
  {
    if ts == [] then []
    else OwnIds(ts[..|ts| - 1]) + if ts[|ts| - 1].sym == 0 then [ts[|ts| - 1].id] else []
  }

  ghost predicate AreOwn(ts: seq<Ticket>, rs: seq<SnapshotResult>) {
    |rs| == |OwnIds(ts)| && forall i :: 0 <= i < |rs| ==> rs[i].requestId == OwnIds(ts)[i]
  }

  /** Request ids are the worker's, and the results handled are those it delivered. */
  ghost predicate CanFlow(f: Flow, step: FlowStep) {
    match step
    case HandlerMove(s) =>
      && WellFormedStep(s)
      && (s.EventStep? ==> s.m.requestId == f.w.nextId + 1 && s.m.nowMs > 0)
      && (s.ResultsStep? ==> AreOwn(f.w.results, s.results))
    case OtherMove(m) => ForOthers(m) && Allowed(f.w, m)
    case _ => true
  }

  ghost predicate Sized(w: World) {
    |w.trackers| == |w.lastRequested| == |w.askedAt| > 0
  }

  ghost function Expired(w: World, nowMs: int): World
    requires Sized(w)
  {
    Next(w, ExpireMove(0, nowMs))
  }

  ghost function FlowNext(cfg: BookConfig, f: Flow, step: FlowStep): Flow
    requires Sized(f.w) && CanFlow(f, step)
  {
    match step
    case TakesRequest => f.(w := Next(f.w, TakeMove))
    case DeliversResult => f.(w := Next(f.w, DeliverMove))
    case OtherMove(m) => f.(w := Next(f.w, m))
    case HandlerMove(s) =>
      var v := Take(cfg, f.v, s);
      Flow(v, match s
        case EventStep(m) => if v.st.tracker == f.v.st.tracker then f.w else Next(f.w, RequestMove(0, m.nowMs))
        case ResultsStep(now, _, _) => Accepts(Expired(f.w, now), |f.w.results|)
        case ReconnectStep(_, _) => if f.v.st.running then Next(f.w, ReconnectMove(0)) else f.w
        case _ => f.w)
  }

  ghost predicate FlowOk(f: Flow) {
    Inv(f.w) && |f.w.trackers| > 0 && f.v.st.tracker == f.w.trackers[0]
  }

  /** An event leaves the request in flight alone or makes a new one. */
  lemma EventRequests(cfg: BookConfig, v: HandlerView, m: Message)
    ensures var t := HandleDelta(cfg, v, m).st.tracker; t == v.st.tracker || t == Requested(m.requestId, m.nowMs)
  {
    RequestIsGranted(cfg, v, m);
  }

  lemma ResultTracks(cfg: BookConfig, v: HandlerView, r: SnapshotResult, nowMs: int)
    requires WellFormedResult(r)
    ensures ApplyResult(cfg, v, r, nowMs).st.tracker ==
            if Stale(v.st.tracker, r.requestId) then v.st.tracker else Answered(v.st.tracker)
  {
  }

  lemma ExpiryTracks(f: Flow, nowMs: int, jitter: real)
    requires FlowOk(f)
    ensures var w := Expired(f.w, nowMs);
      && FlowOk(Flow(ExpireRequest(f.v, nowMs, jitter), w)) && w.results == f.w.results
  {
    MoveKeepsInv(f.w, ExpireMove(0, nowMs));
  }

  lemma AcceptTracks(cfg: BookConfig, f: Flow, r: SnapshotResult, nowMs: int)
    requires FlowOk(f) && WellFormedResult(r) && f.w.results != [] && f.w.results[0] == Ticket(0, r.requestId)
    ensures FlowOk(Flow(ApplyResult(cfg, f.v, r, nowMs), Next(f.w, AcceptMove)))
    ensures Next(f.w, AcceptMove).results == f.w.results[1..]
    ensures !Stale(f.v.st.tracker, r.requestId) ==>
              && r.requestId == f.w.lastRequested[0]
              && r.requestId !in f.w.abandoned && r.requestId !in AcceptedIds(f.w)
  {
    MoveKeepsInv(f.w, AcceptMove);
    ResultTracks(cfg, f.v, r, nowMs);
    var t := f.w.results[0];
    assert f.w.results == [t] + f.w.results[1..];
    assert t in Open(f.w);
    assert TicketOk(f.w, t);
    if !Stale(f.w.trackers[0], r.requestId) { FreshIsLatest(f.w, t); }
  }

  /** Another symbol's result leaves this one alone. */
  lemma OtherResult(f: Flow)
    requires FlowOk(f) && f.w.results != [] && f.w.results[0].sym != 0
    ensures FlowOk(f.(w := Next(f.w, AcceptMove))) && Next(f.w, AcceptMove).results == f.w.results[1..]
  {
    MoveKeepsInv(f.w, AcceptMove);
  }

  /** The first n results have been handled, among them rs for symbol 0. */
  ghost function Batch(cfg: BookConfig, f: Flow, rs: seq<SnapshotResult>, nowMs: int, n: nat): Flow
    requires forall r :: r in rs ==> WellFormedResult(r)
  {
    Flow(ApplyResults(cfg, f.v, rs, nowMs), Accepts(f.w, n))
  }

  lemma OwnGrows(ts: seq<Ticket>, n: nat)
    requires n < |ts|
    ensures OwnIds(ts[..n + 1]) == OwnIds(ts[..n]) + if ts[n].sym == 0 then [ts[n].id] else []
  {
    assert ts[..n + 1][..n] == ts[..n];
  }

  lemma {:induction false} OwnPrefix(ts: seq<Ticket>, n: nat)
    requires n <= |ts|
    ensures OwnIds(ts[..n]) <= OwnIds(ts)
    decreases |ts|
  {
    if n < |ts| {
      assert ts[..|ts| - 1][..n] == ts[..n];
      OwnPrefix(ts[..|ts| - 1], n);
    } else {
      assert ts[..n] == ts;
    }
  }

  lemma OneMore(cfg: BookConfig, v: HandlerView, rs: seq<SnapshotResult>, nowMs: int, k: nat)
    requires k < |rs| && forall r :: r in rs ==> WellFormedResult(r)
    ensures ApplyResults(cfg, v, rs[..k + 1], nowMs) ==
            ApplyResult(cfg, ApplyResults(cfg, v, rs[..k], nowMs), rs[k], nowMs)
  {
    assert rs[..k + 1][..k] == rs[..k];
  }

  lemma OwnResultNext(all: seq<Ticket>, rs: seq<SnapshotResult>, n: nat)
    requires AreOwn(all, rs) && n < |all|
    ensures |OwnIds(all[..n])| <= |rs|
    ensures all[n].sym == 0 ==> |OwnIds(all[..n])| < |rs| && all[n] == Ticket(0, rs[|OwnIds(all[..n])|].requestId)
  {
    OwnPrefix(all, n);
    OwnPrefix(all, n + 1);
    OwnGrows(all, n);
  }

  lemma BatchStep(cfg: BookConfig, all: seq<Ticket>, u: Flow, r: SnapshotResult, nowMs: int, n: nat)
    requires FlowOk(u) && WellFormedResult(r) && n < |all|
    requires u.w.results == all[n..] && all[n] == Ticket(0, r.requestId)
    ensures FlowOk(Flow(ApplyResult(cfg, u.v, r, nowMs), Next(u.w, AcceptMove)))
    ensures Next(u.w, AcceptMove).results == all[n + 1..]
  {
    AcceptTracks(cfg, u, r, nowMs);
    assert all[n..][1..] == all[n + 1..];
  }

  /** The results for symbol 0 among the first n. */
  ghost function OwnBefore(f: Flow, rs: seq<SnapshotResult>, n: nat): seq<SnapshotResult>
    requires n <= |f.w.results|
  {
    var k := |OwnIds(f.w.results[..n])|;
    if k <= |rs| then rs[..k] else rs
  }

  /** The next result, of symbol 0 or another. */
  lemma NextInBatch(cfg: BookConfig, f: Flow, rs: seq<SnapshotResult>, nowMs: int, n: nat)
    requires n < |f.w.results| && AreOwn(f.w.results, rs) && forall r :: r in rs ==> WellFormedResult(r)
    ensures var u, k := Batch(cfg, f, OwnBefore(f, rs, n), nowMs, n), |OwnIds(f.w.results[..n])|;
      && (f.w.results[n].sym == 0 ==> k < |rs| && f.w.results[n] == Ticket(0, rs[k].requestId))
      && Batch(cfg, f, OwnBefore(f, rs, n + 1), nowMs, n + 1) ==
         Flow(if f.w.results[n].sym == 0 then ApplyResult(cfg, u.v, rs[k], nowMs) else u.v, Next(u.w, AcceptMove))
  {
    var all, k := f.w.results, |OwnIds(f.w.results[..n])|;
    OwnGrows(all, n);
    OwnResultNext(all, rs, n);
    if all[n].sym == 0 { OneMore(cfg, f.v, rs, nowMs, k); }
  }

  /** While a batch of results is handled, handler and requests stay in step. */
  lemma {:induction false} BatchTracks(cfg: BookConfig, f: Flow, rs: seq<SnapshotResult>, nowMs: int, n: nat)
    requires FlowOk(f) && n <= |f.w.results| && AreOwn(f.w.results, rs)
    requires forall r :: r in rs ==> WellFormedResult(r)
    ensures var u := Batch(cfg, f, OwnBefore(f, rs, n), nowMs, n); FlowOk(u) && u.w.results == f.w.results[n..]
    decreases n
  {
    var all := f.w.results;
    if n == 0 {
      assert all[0..] == all;
    } else {
      var u := Batch(cfg, f, OwnBefore(f, rs, n - 1), nowMs, n - 1);
      BatchTracks(cfg, f, rs, nowMs, n - 1);
      NextInBatch(cfg, f, rs, nowMs, n - 1);
      assert all[n - 1..][1..] == all[n..];
      if all[n - 1].sym == 0 {
        BatchStep(cfg, all, u, rs[|OwnIds(all[..n - 1])|], nowMs, n - 1);
      } else {
        OtherResult(u);
      }
    }
  }

  lemma EventKeepsFlow(cfg: BookConfig, f: Flow, m: Message)
    requires FlowOk(f) && CanFlow(f, HandlerMove(EventStep(m)))
    ensures FlowOk(FlowNext(cfg, f, HandlerMove(EventStep(m))))
  {
    EventRequests(cfg, f.v, m);
    MoveKeepsInv(f.w, RequestMove(0, m.nowMs));
  }

  lemma ResultsKeepFlow(cfg: BookConfig, f: Flow, nowMs: int, jitter: real, rs: seq<SnapshotResult>)
    requires FlowOk(f) && CanFlow(f, HandlerMove(ResultsStep(nowMs, jitter, rs)))
    ensures FlowOk(FlowNext(cfg, f, HandlerMove(ResultsStep(nowMs, jitter, rs))))
  {
    ExpiryTracks(f, nowMs, jitter);
    var all, start := f.w.results, Flow(ExpireRequest(f.v, nowMs, jitter), Expired(f.w, nowMs));
    BatchTracks(cfg, start, rs, nowMs, |all|);
    assert all[..|all|] == all && rs[..|rs|] == rs;
    assert OwnBefore(start, rs, |all|) == rs;
  }

  lemma ReconnectKeepsFlow(cfg: BookConfig, f: Flow, recvTimeNs: int, lost: bool)
    requires FlowOk(f)
    ensures FlowOk(FlowNext(cfg, f, HandlerMove(ReconnectStep(recvTimeNs, lost))))
  {
    MoveKeepsInv(f.w, ReconnectMove(0));
  }

  lemma FlowKeeps(cfg: BookConfig, f: Flow, step: FlowStep)
    requires FlowOk(f) && CanFlow(f, step)
    ensures FlowOk(FlowNext(cfg, f, step))
  {
    match step {
      case TakesRequest => MoveKeepsInv(f.w, TakeMove);
      case DeliversResult => MoveKeepsInv(f.w, DeliverMove);
      case OtherMove(m) => MoveKeepsInv(f.w, m);
      case HandlerMove(EventStep(m)) => EventKeepsFlow(cfg, f, m);
      case HandlerMove(ResultsStep(now, jitter, rs)) => ResultsKeepFlow(cfg, f, now, jitter, rs);
      case HandlerMove(ReconnectStep(recv, lost)) => ReconnectKeepsFlow(cfg, f, recv, lost);
      case HandlerMove(_) =>
    }
  }

  /** The state after some steps, if each could happen when it did; `others` are the
      other symbols. */
  ghost function FlowAfter(cfg: BookConfig, g: Gate, others: nat, steps: seq<FlowStep>): Option<Flow>
    ensures FlowAfter(cfg, g, others, steps).Some? ==> Sized(FlowAfter(cfg, g, others, steps).value.w)
    decreases |steps|
  {
    if steps == [] then Some(Flow(Started(g), Start(1 + others)))
    else match FlowAfter(cfg, g, others, steps[..|steps| - 1])
      case None => None
      case Some(f) =>
        if CanFlow(f, steps[|steps| - 1]) then
          StaysSized(cfg, f, steps[|steps| - 1]);
          Some(FlowNext(cfg, f, steps[|steps| - 1]))
        else None
  }

  lemma StaysSized(cfg: BookConfig, f: Flow, step: FlowStep)
    requires Sized(f.w) && CanFlow(f, step)
    ensures Sized(FlowNext(cfg, f, step).w)
  {
    if step.HandlerMove? && step.s.ResultsStep? {
      AcceptsKeepSize(Expired(f.w, step.s.nowMs), |f.w.results|);
    }
  }

  lemma {:induction false} AcceptsKeepSize(w: World, n: nat)
    ensures |Accepts(w, n).trackers| == |w.trackers| && |Accepts(w, n).lastRequested| == |w.lastRequested|
    ensures Accepts(w, n).askedAt == w.askedAt
    decreases n
  {
    if n > 0 { AcceptsKeepSize(w, n - 1); }
  }

  lemma {:induction false} FlowStaysOk(cfg: BookConfig, g: Gate, others: nat, steps: seq<FlowStep>)
    ensures var f := FlowAfter(cfg, g, others, steps); f.Some? ==> FlowOk(f.value)
    decreases |steps|
  {
    if steps != [] {
      var before := FlowAfter(cfg, g, others, steps[..|steps| - 1]);
      FlowStaysOk(cfg, g, others, steps[..|steps| - 1]);
      if before.Some? && CanFlow(before.value, steps[|steps| - 1]) {
        FlowKeeps(cfg, before.value, steps[|steps| - 1]);
      }
    }
  }

  /** Main result: over every interleaving of the handler with the fetching thread, with
      the requests of the other symbols in the same two queues, a result that gets past
      the stale check, and so reaches the book, answers the last request of its symbol;
      that request had not timed out, had not been in flight at a reconnect and had not
      been answered before. */
  lemma OnlyFreshSnapshots(cfg: BookConfig, g: Gate, others: nat, steps: seq<FlowStep>, nowMs: int, jitter: real,
                           rs: seq<SnapshotResult>, n: nat)
    requires FlowAfter(cfg, g, others, steps).Some?
    requires CanFlow(FlowAfter(cfg, g, others, steps).value, HandlerMove(ResultsStep(nowMs, jitter, rs)))
    requires var all := FlowAfter(cfg, g, others, steps).value.w.results; n < |all| && all[n].sym == 0
    ensures var f := FlowAfter(cfg, g, others, steps).value;
      var i := |OwnIds(f.w.results[..n])|;
      && i < |rs| && rs[i].requestId == f.w.results[n].id
      && var v := ApplyResults(cfg, ExpireRequest(f.v, nowMs, jitter), rs[..i], nowMs);
         var w := Accepts(Expired(f.w, nowMs), n);
         && Sized(w) && w.results != [] && w.results[0] == f.w.results[n]
         && (!Stale(v.st.tracker, rs[i].requestId) ==>
               && rs[i].requestId == w.lastRequested[0]
               && rs[i].requestId !in w.abandoned && rs[i].requestId !in AcceptedIds(w))
  {
    var f := FlowAfter(cfg, g, others, steps).value;
    var i := |OwnIds(f.w.results[..n])|;
    FlowStaysOk(cfg, g, others, steps);
    ExpiryTracks(f, nowMs, jitter);
    OwnResultNext(f.w.results, rs, n);
    var start := Flow(ExpireRequest(f.v, nowMs, jitter), Expired(f.w, nowMs));
    BatchTracks(cfg, start, rs, nowMs, n);
    AcceptTracks(cfg, Batch(cfg, start, rs[..i], nowMs, n), rs[i], nowMs);
  }

  // ---------------------------------------------------------------- handler and scheduler

  /** What a step that may ask for a snapshot does: nothing, or one granted request. */
  ghost predicate AsksAtMostOnce(v: HandlerView, w: HandlerView, id: nat, nowMs: int) {
    && w.gate.s.pauseUntilMs >= v.gate.s.pauseUntilMs
    && (w.gate.s.requests == v.gate.s.requests ==> w.st.tracker == v.st.tracker)
    && (w.gate.s.requests != v.gate.s.requests ==>
          && w.gate.s.requests == v.gate.s.requests + 1 && nowMs >= v.gate.s.pauseUntilMs
          && w.st.tracker == Requested(id, nowMs) && w.book.st.snapshotRequested)
  }

  lemma AskedGate(g: Gate, nowMs: int)
    ensures var (h, granted) := Ask(g, nowMs);
      && h.s.pauseUntilMs == g.s.pauseUntilMs
      && h.s.requests == g.s.requests + (if granted then 1 else 0) && (granted ==> nowMs >= g.s.pauseUntilMs)
  {
  }

  lemma EarlyEventAsks(cfg: BookConfig, v: HandlerView, m: Message)
    requires v.book.st.phase.InitPhase?
    ensures AsksAtMostOnce(v, HandleDelta(cfg, v, m), m.requestId, m.nowMs)
  {
    AskedGate(v.gate, m.nowMs);
  }

  lemma RefreshAsks(cfg: BookConfig, v: HandlerView, m: Message)
    ensures AsksAtMostOnce(v, PublishAndRefresh(cfg, v, m), m.requestId, m.nowMs)
  {
    var w := MaybePublish(cfg, v, m.recvTimeNs, m.due, m.lost);
    assert w.gate == v.gate && w.st.tracker == v.st.tracker;
    AskedGate(w.gate, m.nowMs);
  }

  lemma BreakAsksNothing(cfg: BookConfig, v: HandlerView, wasValid: bool, m: Message)
    ensures var w := MarkBreak(cfg, v, wasValid, m);
      && w.gate.s.requests == v.gate.s.requests && w.st.tracker == v.st.tracker
      && w.gate.s.pauseUntilMs >= v.gate.s.pauseUntilMs
  {
  }

  /** A request goes out when the scheduler grants it, and only then. */
  lemma RequestIsGranted(cfg: BookConfig, v: HandlerView, m: Message)
    ensures AsksAtMostOnce(v, HandleDelta(cfg, v, m), m.requestId, m.nowMs)
  {
    match v.book.st.phase {
      case InitPhase => EarlyEventAsks(cfg, v, m);
      case InvalidPhase =>
      case _ =>
        var (b, ok) := ApplyDelta(cfg, v.book, m.d);
        var gate := if v.book.st.phase.SyncingPhase? then ReportSync(v.gate) else v.gate;
        BreakAsksNothing(cfg, v.(book := b), v.book.st.phase.ValidPhase?, m);
        RefreshAsks(cfg, v.(book := b, gate := gate), m);
    }
  }

  lemma ResultKeepsPause(cfg: BookConfig, v: HandlerView, r: SnapshotResult, nowMs: int)
    requires WellFormedResult(r)
    ensures ApplyResult(cfg, v, r, nowMs).gate.s.pauseUntilMs >= v.gate.s.pauseUntilMs
  {
  }

  lemma {:induction false} ResultsKeepPause(cfg: BookConfig, v: HandlerView, rs: seq<SnapshotResult>, nowMs: int)
    requires forall r :: r in rs ==> WellFormedResult(r)
    ensures ApplyResults(cfg, v, rs, nowMs).gate.s.pauseUntilMs >= v.gate.s.pauseUntilMs
    decreases |rs|
  {
    if rs != [] {
      ResultsKeepPause(cfg, v, rs[..|rs| - 1], nowMs);
      ResultKeepsPause(cfg, ApplyResults(cfg, v, rs[..|rs| - 1], nowMs), rs[|rs| - 1], nowMs);
    }
  }

  lemma StepKeepsPause(cfg: BookConfig, v: HandlerView, s: HandlerStep)
    requires WellFormedStep(s)
    ensures Take(cfg, v, s).gate.s.pauseUntilMs >= v.gate.s.pauseUntilMs
  {
    match s {
      case EventStep(m) => RequestIsGranted(cfg, v, m);
      case ResultsStep(now, jitter, rs) => ResultsKeepPause(cfg, ExpireRequest(v, now, jitter), rs, now);
      case SchedulerStep(c) =>
        if S.CallOk(c, |v.gate.s.failures|) { S.CallKeepsPause(v.gate.cfg, v.gate.s, c, |v.gate.s.failures|); }
      case _ =>
    }
  }

  ghost predicate NoRequestBefore(cfg: BookConfig, v: HandlerView, steps: seq<HandlerStep>, untilMs: int)
    requires forall s :: s in steps ==> WellFormedStep(s)
    decreases |steps|
  {
    steps != [] ==>
      var w := Take(cfg, v, steps[0]);
      && (steps[0].EventStep? && w.gate.s.requests != v.gate.s.requests ==> steps[0].m.nowMs >= untilMs)
      && NoRequestBefore(cfg, w, steps[1..], untilMs)
  }

  /** Main result: while a pause is on, whatever happens the handler requests no
      snapshot before it is over. */
  lemma {:induction false} PauseStopsRequests(cfg: BookConfig, v: HandlerView, steps: seq<HandlerStep>, untilMs: int)
    requires forall s :: s in steps ==> WellFormedStep(s)
    requires v.gate.s.pauseUntilMs >= untilMs
    ensures NoRequestBefore(cfg, v, steps, untilMs)
    decreases |steps|
  {
    if steps != [] {
      if steps[0].EventStep? { RequestIsGranted(cfg, v, steps[0].m); }
      StepKeepsPause(cfg, v, steps[0]);
      PauseStopsRequests(cfg, Take(cfg, v, steps[0]), steps[1..], untilMs);
    }
  }

  /** And a fetch answered with 429 or 418 at time t starts one: until t plus the floor
      for that status, or plus Retry-After if that is longer. */
  lemma RateLimitPauses(cfg: BookConfig, v: HandlerView, r: SnapshotResult, t: int)
    requires WellFormedResult(r) && !Stale(v.st.tracker, r.requestId) && !r.success && S.RateLimited(r.httpStatus)
    ensures ApplyResult(cfg, v, r, t).gate.s.pauseUntilMs >= t + S.PauseMs(v.gate.cfg, r.httpStatus, r.retryAfterSec)
  {
  }
}
