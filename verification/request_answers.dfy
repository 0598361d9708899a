/** That a snapshot request is answered or given up in time, over whole runs of the handler
    and the fetching thread: told from who was asked, when, and what was delivered.
  */
module RequestAnswers {
  import opened PriceSide
  import opened OrderBooks
  import opened SnapshotRequests
  import opened QuoteHandlers
  import opened QuoteStream
  import opened SnapshotFlow
  import opened SyncOutcomes
  import S = SnapshotSchedulers

  // ---------------------------------------------------------------- the requests of all symbols

  /** The oldest result is let through if and only if it answers the last request of its
      symbol and that request was not given up on; and that is all that happens. */
  ghost predicate AcceptsExactlyTheLast(w: World)
    requires w.results != []
  {
    var t, w' := w.results[0], Next(w, AcceptMove);
    && t.sym < |w.lastRequested|
    && w'.results == w.results[1..] && w'.abandoned == w.abandoned && w'.lastRequested == w.lastRequested
    && w'.accepted == w.accepted
         + if t.id == w.lastRequested[t.sym] && t.id !in w.abandoned then [Accepted(t, t.id)] else []
  }

  lemma HeadIsKnown(w: World)
    requires Inv(w) && w.results != []
    ensures var t := w.results[0];
      t in Open(w) && TicketOk(w, t) && t.id !in AcceptedIds(w) && TrackerOk(w, t.sym)
  {
    assert w.results == [w.results[0]] + w.results[1..];
    assert TicketOk(w, w.results[0]);
  }

  lemma AcceptsPending(w: World)
    requires Inv(w) && w.results != []
    ensures AcceptsExactlyTheLast(w)
  {
    HeadIsKnown(w);
    if !Stale(w.trackers[w.results[0].sym], w.results[0].id) { FreshIsLatest(w, w.results[0]); }
  }

  /** Main result: so it is over every interleaving. */
  lemma AcceptedIff(symbols: nat, moves: seq<Move>)
    requires After(symbols, moves).Some? && After(symbols, moves).value.results != []
    ensures AcceptsExactlyTheLast(After(symbols, moves).value)
  {
    EveryInterleavingIsSafe(symbols, moves);
    AcceptsPending(After(symbols, moves).value);
  }

  /** Main result: a poll at time `now` gives up on the last request of a symbol if and only
      if it is pending and was made more than 30 seconds before. */
  lemma GivenUpIff(symbols: nat, moves: seq<Move>, s: nat, now: int)
    requires After(symbols, moves).Some? && s < symbols
    ensures var w := After(symbols, moves).value;
      && |w.lastRequested| == |w.askedAt| == |w.trackers| == symbols
      && var w' := Next(w, ExpireMove(s, now));
         && w'.accepted == w.accepted && w'.lastRequested == w.lastRequested
         && w'.abandoned == w.abandoned
              + if Pending(w, s) && now - w.askedAt[s] > 30000 then {w.lastRequested[s]} else {}
  {
    EveryInterleavingIsSafe(symbols, moves);
    SizesStay(symbols, moves);
    assert TrackerOk(After(symbols, moves).value, s);
  }

  lemma MoveKeepsSizes(w: World, m: Move)
    requires Allowed(w, m)
    ensures var w' := Next(w, m);
      && |w'.trackers| == |w.trackers| && |w'.lastRequested| == |w.lastRequested| && |w'.askedAt| == |w.askedAt|
  {
  }

  lemma {:induction false} SizesStay(symbols: nat, moves: seq<Move>)
    ensures var r := After(symbols, moves);
      r.Some? ==> |r.value.trackers| == |r.value.lastRequested| == |r.value.askedAt| == symbols
    decreases |moves|
  {
    if moves != [] {
      SizesStay(symbols, moves[..|moves| - 1]);
      var before := After(symbols, moves[..|moves| - 1]);
      if before.Some? && Allowed(before.value, moves[|moves| - 1]) {
        MoveKeepsSizes(before.value, moves[|moves| - 1]);
      }
    }
  }

  lemma MoveKeepsBounds(w: World, m: Move)
    requires Allowed(w, m) && |w.requests| <= QUEUE_CAPACITY && |w.results| <= QUEUE_CAPACITY
    ensures |Next(w, m).requests| <= QUEUE_CAPACITY && |Next(w, m).results| <= QUEUE_CAPACITY
  {
  }

  /** Neither queue ever holds more than it may, and a request pushes out another one only
      when its queue is full, and then the oldest. */
  lemma {:induction false} QueuesAreBounded(symbols: nat, moves: seq<Move>)
    ensures var r := After(symbols, moves);
      r.Some? ==> |r.value.requests| <= QUEUE_CAPACITY && |r.value.results| <= QUEUE_CAPACITY
    decreases |moves|
  {
    if moves != [] {
      QueuesAreBounded(symbols, moves[..|moves| - 1]);
      var before := After(symbols, moves[..|moves| - 1]);
      if before.Some? && Allowed(before.value, moves[|moves| - 1]) {
        MoveKeepsBounds(before.value, moves[|moves| - 1]);
      }
    }
  }

  lemma RequestsArePushedOutWhenFull(w: World, s: nat, now: int)
    requires Allowed(w, RequestMove(s, now)) && |w.requests| <= QUEUE_CAPACITY
    ensures var w' := Next(w, RequestMove(s, now));
      && w'.requests != [] && w'.requests[|w'.requests| - 1] == Ticket(s, w'.lastRequested[s])
      && w'.requests[..|w'.requests| - 1] ==
         w.requests[if |w.requests| == QUEUE_CAPACITY then 1 else 0..]
  {
  }

  /** An idle fetching thread takes the oldest request, and what it fetches becomes the
      newest result. */
  lemma RequestsAreServed(w: World)
    requires w.requests != [] && w.fetching == []
    ensures var x := Next(w, TakeMove);
      var y := Next(x, DeliverMove);
      && x.fetching == [w.requests[0]] && x.requests == w.requests[1..] && x.results == w.results
      && Next(x, TakeMove) == x
      && y.fetching == [] && y.requests == w.requests[1..]
      && y.results != [] && y.results[|y.results| - 1] == w.requests[0]
      && (|w.results| < QUEUE_CAPACITY ==> y.results == w.results + [w.requests[0]])
  {
  }

  // ---------------------------------------------------------------- the handler is never stuck

  /** The book only believes in a request that is waited for. */
  ghost predicate Unstuck(v: HandlerView) {
    v.book.st.snapshotRequested ==> Waiting(v.st.tracker)
  }

  lemma SnapshotEndsRequest(cfg: BookConfig, o: BookView, id: int, bids: seq<Level>, asks: seq<Level>)
    requires DistinctPrices(bids) && DistinctPrices(asks)
    ensures !OnSnapshot(cfg, o, id, bids, asks).0.st.snapshotRequested
  {
    var o' := o.(st := o.st.(snapshotRequested := false, refreshPending := false));
    ReplayRequestsNothing(cfg, LoadInitial(cfg, o', id, bids, asks), o.st.buffer);
  }

  lemma PublishingRequestsNothing(cfg: BookConfig, v: HandlerView, recvTimeNs: int, due: bool, lost: bool)
    requires Unstuck(v)
    ensures Unstuck(MaybePublish(cfg, v, recvTimeNs, due, lost))
  {
  }

  lemma RefreshKeepsUnstuck(cfg: BookConfig, v: HandlerView, m: Message)
    requires Unstuck(v) && m.nowMs > 0
    ensures Unstuck(PublishAndRefresh(cfg, v, m))
  {
    PublishingRequestsNothing(cfg, v, m.recvTimeNs, m.due, m.lost);
  }

  lemma BreakUnsticks(cfg: BookConfig, v: HandlerView, wasValid: bool, m: Message)
    ensures Unstuck(MarkBreak(cfg, v, wasValid, m))
  {
  }

  lemma LiveEventKeepsUnstuck(cfg: BookConfig, v: HandlerView, m: Message)
    requires Unstuck(v) && m.nowMs > 0 && (v.book.st.phase.SyncingPhase? || v.book.st.phase.ValidPhase?)
    ensures Unstuck(HandleDelta(cfg, v, m))
  {
    var (b, ok) := ApplyDelta(cfg, v.book, m.d);
    DeltaRequestsNothing(cfg, v.book, m.d);
    if !ok {
      BreakUnsticks(cfg, v.(book := b), v.book.st.phase.ValidPhase?, m);
    } else if b.st.phase.ValidPhase? {
      var gate := if v.book.st.phase.SyncingPhase? then ReportSync(v.gate) else v.gate;
      RefreshKeepsUnstuck(cfg, v.(book := b, gate := gate), m);
    }
  }

  lemma EventKeepsUnstuck(cfg: BookConfig, v: HandlerView, m: Message)
    requires Unstuck(v) && m.nowMs > 0
    ensures Unstuck(HandleDelta(cfg, v, m))
  {
    if v.book.st.phase.SyncingPhase? || v.book.st.phase.ValidPhase? { LiveEventKeepsUnstuck(cfg, v, m); }
  }

  lemma ResultKeepsUnstuck(cfg: BookConfig, v: HandlerView, r: SnapshotResult, nowMs: int)
    requires Unstuck(v) && WellFormedResult(r)
    ensures Unstuck(ApplyResult(cfg, v, r, nowMs))
  {
    SnapshotEndsRequest(cfg, v.book, r.lastUpdateId, r.bids, r.asks);
  }

  lemma {:induction false} ResultsKeepUnstuck(cfg: BookConfig, v: HandlerView, rs: seq<SnapshotResult>, nowMs: int)
    requires Unstuck(v) && forall r :: r in rs ==> WellFormedResult(r)
    ensures Unstuck(ApplyResults(cfg, v, rs, nowMs))
    decreases |rs|
  {
    if rs != [] {
      ResultsKeepUnstuck(cfg, v, rs[..|rs| - 1], nowMs);
      ResultKeepsUnstuck(cfg, ApplyResults(cfg, v, rs[..|rs| - 1], nowMs), rs[|rs| - 1], nowMs);
    }
  }

  lemma StepKeepsUnstuck(cfg: BookConfig, f: Flow, step: FlowStep)
    requires Sized(f.w) && CanFlow(f, step) && Unstuck(f.v)
    ensures Unstuck(FlowNext(cfg, f, step).v)
  {
    match step {
      case HandlerMove(EventStep(m)) => EventKeepsUnstuck(cfg, f.v, m);
      case HandlerMove(ResultsStep(now, jitter, rs)) =>
        ResultsKeepUnstuck(cfg, ExpireRequest(f.v, now, jitter), rs, now);
      case _ =>
    }
  }

  lemma {:induction false} RunIsUnstuck(cfg: BookConfig, g: Gate, others: nat, steps: seq<FlowStep>)
    requires FlowAfter(cfg, g, others, steps).Some?
    ensures Unstuck(FlowAfter(cfg, g, others, steps).value.v)
    decreases |steps|
  {
    if steps != [] {
      RunIsUnstuck(cfg, g, others, steps[..|steps| - 1]);
      StepKeepsUnstuck(cfg, FlowAfter(cfg, g, others, steps[..|steps| - 1]).value, steps[|steps| - 1]);
    }
  }

  /** Main result: an event that finds the book without a snapshot asks for one if and only
      if no request is under way for it and the scheduler grants one; and while the book
      believes in a request, that request is pending, so that it will be answered or
      given up. */
  lemma AsksWhenFree(cfg: BookConfig, g: Gate, others: nat, steps: seq<FlowStep>, m: Message)
    requires FlowAfter(cfg, g, others, steps).Some?
    requires var f := FlowAfter(cfg, g, others, steps).value;
      CanFlow(f, HandlerMove(EventStep(m))) && f.v.book.st.phase.InitPhase?
    ensures var f := FlowAfter(cfg, g, others, steps).value;
      var f' := FlowNext(cfg, f, HandlerMove(EventStep(m)));
      var believes := f.v.book.st.snapshotRequested;
      && (believes ==> Pending(f.w, 0))
      && (!believes && S.Grants(f.v.gate.cfg, f.v.gate.s, f.v.gate.sym, m.nowMs) ==>
            f'.w.lastRequested[0] == f.w.nextId + 1 && f'.w.askedAt[0] == m.nowMs && Pending(f'.w, 0))
      && (believes || !S.Grants(f.v.gate.cfg, f.v.gate.s, f.v.gate.sym, m.nowMs) ==>
            f'.w.lastRequested == f.w.lastRequested)
  {
    var f := FlowAfter(cfg, g, others, steps).value;
    FlowStaysOk(cfg, g, others, steps);
    RunIsUnstuck(cfg, g, others, steps);
    FlowKeeps(cfg, f, HandlerMove(EventStep(m)));
    assert TrackerOk(f.w, 0);
    var f' := FlowNext(cfg, f, HandlerMove(EventStep(m)));
    assert TrackerOk(f'.w, 0);
  }

  // ---------------------------------------------------------------- answers reach the book

  /** Accepting results gives up on nothing and asks for nothing. */
  lemma {:induction false} AcceptsGiveUpNothing(w: World, n: nat)
    ensures Accepts(w, n).abandoned == w.abandoned && Accepts(w, n).lastRequested == w.lastRequested
    decreases n
  {
    if n > 0 { AcceptsGiveUpNothing(w, n - 1); }
  }

  /** The pending request at a poll: given up if it is more than 30 seconds old. */
  lemma PollGivesUp(f: Flow, now: int)
    requires FlowOk(f) && Sized(f.w)
    ensures Expired(f.w, now).abandoned ==
            f.w.abandoned + if Pending(f.w, 0) && now - f.w.askedAt[0] > 30000 then {f.w.lastRequested[0]} else {}
    ensures Expired(f.w, now).lastRequested == f.w.lastRequested
  {
    assert TrackerOk(f.w, 0);
  }

  /** Main result: over every interleaving, a delivered answer to the last request reaches
      the book, if at the poll the request is at most 30 seconds old and has neither
      been given up before nor been in flight at a reconnect. */
  lemma PromptAnswerReachesBook(cfg: BookConfig, g: Gate, others: nat, steps: seq<FlowStep>, nowMs: int, jitter: real,
                                rs: seq<SnapshotResult>, n: nat)
    requires FlowAfter(cfg, g, others, steps).Some?
    requires CanFlow(FlowAfter(cfg, g, others, steps).value, HandlerMove(ResultsStep(nowMs, jitter, rs)))
    requires var w := FlowAfter(cfg, g, others, steps).value.w;
      && n < |w.results| && w.results[n] == Ticket(0, w.lastRequested[0])
      && w.lastRequested[0] !in w.abandoned && nowMs - w.askedAt[0] <= 30000
    ensures var f := FlowAfter(cfg, g, others, steps).value;
      var i := |OwnIds(f.w.results[..n])|;
      && i < |rs| && rs[i].requestId == f.w.lastRequested[0]
      && var v := ApplyResults(cfg, ExpireRequest(f.v, nowMs, jitter), rs[..i], nowMs);
         var b := ApplyResult(cfg, v, rs[i], nowMs).book;
         && (rs[i].success ==> b == OnSnapshot(cfg, v.book, rs[i].lastUpdateId, rs[i].bids, rs[i].asks).0)
         && (!rs[i].success ==> b == SetSnapshotRequested(CancelRefresh(v.book), false))
         && ApplyResults(cfg, ExpireRequest(f.v, nowMs, jitter), rs[..i + 1], nowMs) ==
            ApplyResult(cfg, v, rs[i], nowMs)
  {
    var f := FlowAfter(cfg, g, others, steps).value;
    var i := |OwnIds(f.w.results[..n])|;
    FlowStaysOk(cfg, g, others, steps);
    ExpiryTracks(f, nowMs, jitter);
    PollGivesUp(f, nowMs);
    OwnResultNext(f.w.results, rs, n);
    var start := Flow(ExpireRequest(f.v, nowMs, jitter), Expired(f.w, nowMs));
    BatchTracks(cfg, start, rs, nowMs, n);
    AcceptsGiveUpNothing(start.w, n);
    OneMore(cfg, start.v, rs, nowMs, i);
    PendingAnswerIsTaken(cfg, Batch(cfg, start, rs[..i], nowMs, n), rs[i], nowMs);
  }

  lemma PendingAnswerIsTaken(cfg: BookConfig, f: Flow, r: SnapshotResult, nowMs: int)
    requires FlowOk(f) && WellFormedResult(r) && f.w.results != [] && f.w.results[0] == Ticket(0, r.requestId)
    requires |f.w.lastRequested| > 0 && r.requestId == f.w.lastRequested[0] && r.requestId !in f.w.abandoned
    ensures var b := ApplyResult(cfg, f.v, r, nowMs).book;
      && (r.success ==> b == OnSnapshot(cfg, f.v.book, r.lastUpdateId, r.bids, r.asks).0)
      && (!r.success ==> b == SetSnapshotRequested(CancelRefresh(f.v.book), false))
  {
    HeadIsKnown(f.w);
  }

  /** Main result: a request still pending after more than 30 seconds is given up at the
      poll, whatever comes with it, and then the book believes in none: the next event
      may ask again. */
  lemma OverdueRequestIsGivenUp(cfg: BookConfig, g: Gate, others: nat, steps: seq<FlowStep>, nowMs: int, jitter: real,
                                rs: seq<SnapshotResult>)
    requires FlowAfter(cfg, g, others, steps).Some?
    requires CanFlow(FlowAfter(cfg, g, others, steps).value, HandlerMove(ResultsStep(nowMs, jitter, rs)))
    requires var w := FlowAfter(cfg, g, others, steps).value.w; Pending(w, 0) && nowMs - w.askedAt[0] > 30000
    ensures var f := FlowAfter(cfg, g, others, steps).value;
      var f' := FlowNext(cfg, f, HandlerMove(ResultsStep(nowMs, jitter, rs)));
      && |f'.w.lastRequested| > 0 && f.w.lastRequested[0] in f'.w.abandoned && !Pending(f'.w, 0)
      && !f'.v.book.st.snapshotRequested && f'.v.book.st.phase == f.v.book.st.phase
  {
    var f := FlowAfter(cfg, g, others, steps).value;
    FlowStaysOk(cfg, g, others, steps);
    ExpiryTracks(f, nowMs, jitter);
    PollGivesUp(f, nowMs);
    AcceptsGiveUpNothing(Expired(f.w, nowMs), |f.w.results|);
    var start := Flow(ExpireRequest(f.v, nowMs, jitter), Expired(f.w, nowMs));
    assert TrackerOk(f.w, 0) && TrackerOk(start.w, 0);
    NothingIsAccepted(cfg, start, rs, nowMs, |f.w.results|);
    assert f.w.results[..|f.w.results|] == f.w.results && OwnBefore(start, rs, |f.w.results|) == rs;
  }

  lemma AbandonedIsIgnored(cfg: BookConfig, f: Flow, r: SnapshotResult, nowMs: int)
    requires FlowOk(f) && WellFormedResult(r) && f.w.results != [] && f.w.results[0] == Ticket(0, r.requestId)
    requires |f.w.lastRequested| > 0 && f.w.lastRequested[0] in f.w.abandoned
    ensures ApplyResult(cfg, f.v, r, nowMs) == f.v
  {
    AcceptTracks(cfg, f, r, nowMs);
  }

  lemma OwnIsIgnored(cfg: BookConfig, f: Flow, rs: seq<SnapshotResult>, nowMs: int, n: nat)
    requires FlowOk(f) && n < |f.w.results| && AreOwn(f.w.results, rs) && f.w.results[n].sym == 0
    requires |f.w.lastRequested| > 0 && f.w.lastRequested[0] in f.w.abandoned
    requires forall r :: r in rs ==> WellFormedResult(r)
    ensures var v, k := ApplyResults(cfg, f.v, OwnBefore(f, rs, n), nowMs), |OwnIds(f.w.results[..n])|;
      k < |rs| && ApplyResult(cfg, v, rs[k], nowMs) == v
  {
    NextInBatch(cfg, f, rs, nowMs, n);
    BatchTracks(cfg, f, rs, nowMs, n);
    AcceptsGiveUpNothing(f.w, n);
    AbandonedIsIgnored(cfg, Batch(cfg, f, OwnBefore(f, rs, n), nowMs, n), rs[|OwnIds(f.w.results[..n])|], nowMs);
  }

  /** Once the last request has been given up no result of the symbol gets through. */
  lemma {:induction false} NothingIsAccepted(cfg: BookConfig, f: Flow, rs: seq<SnapshotResult>, nowMs: int, n: nat)
    requires FlowOk(f) && n <= |f.w.results| && AreOwn(f.w.results, rs)
    requires |f.w.lastRequested| > 0 && f.w.lastRequested[0] in f.w.abandoned
    requires forall r :: r in rs ==> WellFormedResult(r)
    ensures ApplyResults(cfg, f.v, OwnBefore(f, rs, n), nowMs) == f.v
    decreases n
  {
    if n > 0 {
      NothingIsAccepted(cfg, f, rs, nowMs, n - 1);
      NextInBatch(cfg, f, rs, nowMs, n - 1);
      if f.w.results[n - 1].sym == 0 { OwnIsIgnored(cfg, f, rs, nowMs, n - 1); }
    }
  }
}
