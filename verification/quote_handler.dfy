/** The quote handler of one symbol (cpp/src/quote_feed_handler.cpp): it drives the
    book with the events and snapshots that arrive and publishes rows.

    What the environment decides is an argument of the step: times, request ids,
    jitter, whether a heartbeat is due, whether the tickerplant could not be reached
    again while publishing (`lost`). Module QuoteRuns proves what the published rows
    promise over whole runs.
  */
module QuoteHandlers {
  import opened PriceSide
  import opened OrderBooks
  import opened SnapshotRequests
  import S = SnapshotSchedulers

  // ---------------------------------------------------------------- the scheduler

  datatype SharedScheduler = SharedScheduler(cfg: S.SchedulerConfig, sym: nat, s: S.SchedulerView)

  const ONE_SYMBOL := SharedScheduler(
    S.SchedulerSettings(50, 6000, 0.1, 1000, 60000, 0.25, 60000, 300000, 0.5, 60000), 0,
    S.SchedulerView(0.0, -1, [0], [0], 0, 0, 0, 0))

  /** The scheduler of all symbols, and which of them the handler is for. */
  type Gate = g: SharedScheduler | g.sym < |g.s.failures| == |g.s.nextAllowedMs|
    witness ONE_SYMBOL

  function Ask(g: Gate, nowMs: int): (Gate, bool) {
    (g.(s := S.Acquire(g.cfg, g.s, g.sym, nowMs)), S.Grants(g.cfg, g.s, g.sym, nowMs))
  }

  function ReportFailure(g: Gate, nowMs: int, httpStatus: int, retryAfterSec: int, usedWeight: int,
                         jitter: real): Gate {
    g.(s := S.Failure(g.cfg, g.s, g.sym, nowMs, httpStatus, retryAfterSec, usedWeight, jitter))
  }

  function ReportSync(g: Gate): Gate {
    g.(s := S.Synced(g.s, g.sym))
  }

  // ---------------------------------------------------------------- messages and state

  datatype SnapshotResult = SnapshotResult(
    requestId: nat, success: bool, lastUpdateId: int, bids: seq<Level>, asks: seq<Level>,
    httpStatus: int, retryAfterSec: int, usedWeight: int, jitter: real)

  ghost predicate WellFormedResult(r: SnapshotResult) {
    DistinctPrices(r.bids) && DistinctPrices(r.asks)
  }

  /** One message and what the environment decides while it is handled. */
  datatype Message = Message(
    d: Delta, recvTimeNs: int, due: bool, requestId: nat, nowMs: int, jitter: real, lost: bool)

  datatype HandlerStatus = HandlerStatus(
    tracker: Tracker,
    fhSeqNo: nat,
    running: bool,
    connected: bool,      // to the tickerplant
    sequenceGaps: nat,
    resyncs: nat,
    snapshotFailures: nat)

  datatype HandlerView = HandlerView(book: BookView, st: HandlerStatus, rows: seq<Quote>, gate: Gate)

  /** After run() has connected to the tickerplant. */
  ghost function Started(g: Gate): HandlerView {
    HandlerView(INITIAL_BOOK, HandlerStatus(Tracker(0, 0), 0, true, true, 0, 0, 0), [], g)
  }

  // ---------------------------------------------------------------- what the steps do

  /** Publishing reconnects as often as needed; it only gives up at shutdown. */
  function TpAfterPublish(st: HandlerStatus, lost: bool): HandlerStatus {
    if !st.connected && !st.running then st
    else st.(connected := !lost, running := st.running && !lost)
  }

  ghost function PublishQuote(v: HandlerView, q: Quote, lost: bool): HandlerView {
    v.(rows := v.rows + [q],
       st := TpAfterPublish(v.st, lost).(fhSeqNo := v.st.fhSeqNo + 1),
       book := RecordPublish(v.book, q))
  }

  function InvalidQuote(depth: nat, recvTimeNs: int, fhSeqNo: int): Quote {
    Quote(NoRows(depth), NoRows(depth), false, 0, 0, recvTimeNs, fhSeqNo, 0, 0, 0)
  }

  ghost function PublishInvalid(cfg: BookConfig, v: HandlerView, recvTimeNs: int, lost: bool): HandlerView {
    PublishQuote(v, InvalidQuote(cfg.depth, recvTimeNs, v.st.fhSeqNo + 1), lost)
  }

  ghost function MaybePublish(cfg: BookConfig, v: HandlerView, recvTimeNs: int, due: bool, lost: bool): HandlerView {
    var q := QuoteOf(cfg, v.book, recvTimeNs, v.st.fhSeqNo + 1);
    if ShouldPublish(v.book.st.lastPublished, q, due) then PublishQuote(v, q, lost) else v
  }

  ghost function Request(v: HandlerView, id: nat, nowMs: int): HandlerView {
    v.(book := SetSnapshotRequested(v.book, true), st := v.st.(tracker := Requested(id, nowMs)))
  }

  /** The sequence broke: one invalid row marks the hole, then start over. */
  ghost function MarkBreak(cfg: BookConfig, v: HandlerView, wasValid: bool, m: Message): HandlerView {
    var counted := v.(st := v.st.(sequenceGaps := v.st.sequenceGaps + (if wasValid then 1 else 0),
                                  resyncs := v.st.resyncs + 1),
                     gate := if wasValid then v.gate else ReportFailure(v.gate, m.nowMs, 0, 0, -1, m.jitter));
    var marked := PublishInvalid(cfg, counted, m.recvTimeNs, m.lost);
    marked.(book := Reset(marked.book))
  }

  ghost function PublishAndRefresh(cfg: BookConfig, v: HandlerView, m: Message): HandlerView {
    var v' := MaybePublish(cfg, v, m.recvTimeNs, m.due, m.lost);
    if !WantsRefresh(cfg, v'.book) then v'
    else
      var (gate, granted) := Ask(v'.gate, m.nowMs);
      if granted then Request(v'.(gate := gate, book := BeginRefresh(v'.book)), m.requestId, m.nowMs)
      else v'.(gate := gate)
  }

  ghost function HandleDelta(cfg: BookConfig, v: HandlerView, m: Message): HandlerView {
    match v.book.st.phase
    case InitPhase =>
      var v' := v.(book := BufferDelta(v.book, m.d));
      if v.book.st.snapshotRequested then v'
      else
        var (gate, granted) := Ask(v.gate, m.nowMs);
        if granted then Request(v'.(gate := gate), m.requestId, m.nowMs) else v'.(gate := gate)
    case InvalidPhase => v.(book := Reset(v.book))
    case _ =>
      var (book, ok) := ApplyDelta(cfg, v.book, m.d);
      if !ok then MarkBreak(cfg, v.(book := book), v.book.st.phase.ValidPhase?, m)
      else if !book.st.phase.ValidPhase? then v.(book := book)
      else
        var gate := if v.book.st.phase.SyncingPhase? then ReportSync(v.gate) else v.gate;
        PublishAndRefresh(cfg, v.(book := book, gate := gate), m)
  }

  /** The request in flight has failed; whatever it was for carries on without. */
  ghost function RequestFailed(v: HandlerView): HandlerView {
    v.(book := SetSnapshotRequested(CancelRefresh(v.book), false),
       st := v.st.(snapshotFailures := v.st.snapshotFailures + 1))
  }

  ghost function ExpireRequest(v: HandlerView, nowMs: int, jitter: real): HandlerView {
    if TimedOut(v.st.tracker, nowMs) then
      RequestFailed(v.(st := v.st.(tracker := Abandon(v.st.tracker)),
                       gate := ReportFailure(v.gate, nowMs, 0, 0, -1, jitter)))
    else v
  }

  /** What a snapshot's outcome means for the scheduler. */
  function ReportOutcome(g: Gate, outcome: SnapshotOutcome, nowMs: int, jitter: real): Gate {
    match outcome
    case Synced | Refreshed | RefreshAwaitingBridge => ReportSync(g)
    case SyncFailed | RefreshFailed => ReportFailure(g, nowMs, 0, 0, -1, jitter)
    case AwaitingBridge | Ignored => g
  }

  ghost function ApplyResult(cfg: BookConfig, v: HandlerView, r: SnapshotResult, nowMs: int): HandlerView
    requires WellFormedResult(r)
  {
    if Stale(v.st.tracker, r.requestId) then v
    else
      var v' := v.(st := v.st.(tracker := Answered(v.st.tracker)));
      if !r.success then
        RequestFailed(v'.(gate := ReportFailure(v.gate, nowMs, r.httpStatus, r.retryAfterSec, r.usedWeight, r.jitter)))
      else
        var (book, outcome) := OnSnapshot(cfg, v'.book, r.lastUpdateId, r.bids, r.asks);
        var fetched := v.gate.(s := S.CheckUsedWeight(v.gate.cfg, v.gate.s, nowMs, r.usedWeight));
        v'.(book := book, st := v'.st.(resyncs := v'.st.resyncs + if outcome.SyncFailed? then 1 else 0),
            gate := ReportOutcome(fetched, outcome, nowMs, r.jitter))
  }

  ghost function ApplyResults(cfg: BookConfig, v: HandlerView, rs: seq<SnapshotResult>, nowMs: int): HandlerView
    requires forall r :: r in rs ==> WellFormedResult(r)
    decreases |rs|
  {
    if rs == [] then v else ApplyResult(cfg, ApplyResults(cfg, v, rs[..|rs| - 1], nowMs), rs[|rs| - 1], nowMs)
  }

  ghost function Heartbeat(cfg: BookConfig, v: HandlerView, recvTimeNs: int, due: bool, lost: bool): HandlerView {
    var q := QuoteOf(cfg, v.book, recvTimeNs, v.st.fhSeqNo + 1);
    if v.book.st.phase.ValidPhase? && v.book.st.lastPublished.Row? && due && q.isValid
    then PublishQuote(v, q, lost) else v
  }

  predicate LastRowValid(p: Published) {
    p.Row? && p.quote.isValid
  }

  /** The prologue of a new WebSocket connection, entered while running. */
  ghost function Reconnect(cfg: BookConfig, v: HandlerView, recvTimeNs: int, lost: bool): HandlerView {
    if !v.st.running then v
    else
      var v' := if v.st.connected && LastRowValid(v.book.st.lastPublished)
                then PublishInvalid(cfg, v, recvTimeNs, lost) else v;
      v'.(book := Reset(v'.book),
          st := v'.st.(tracker := if Waiting(v'.st.tracker) then Abandon(v'.st.tracker) else v'.st.tracker))
  }

  // ---------------------------------------------------------------- the program

  class QuoteHandler {
    const cfg: BookConfig
    const book: OrderBook
    const scheduler: S.SnapshotScheduler
    const sym: nat
    var st: HandlerStatus
    ghost var rows: seq<Quote>   // handed to the tickerplant publisher so far

    ghost predicate Valid()
      reads this, scheduler, book, book.Repr()
    {
      && this !in book.Repr() && book.Valid() && book.cfg == cfg
      && scheduler !in book.Repr() && scheduler.Valid() && sym < scheduler.symbols
    }

    ghost function View(): HandlerView
      requires Valid()
      reads this, scheduler, book, book.Repr()
    {
      HandlerView(book.View(), st, rows, SharedScheduler(scheduler.cfg, sym, scheduler.View()))
    }

    constructor (sizing: BookConfig, scheduler: S.SnapshotScheduler, sym: nat)
      requires scheduler.Valid() && sym < scheduler.symbols
      ensures Valid() && View() == Started(SharedScheduler(scheduler.cfg, sym, scheduler.View()))
      ensures fresh(book) && fresh(book.Repr()) && this.scheduler == scheduler
    {
      var b := new OrderBook(sizing);
      book := b;
      cfg := b.cfg;
      this.scheduler, this.sym := scheduler, sym;
      st := HandlerStatus(Tracker(0, 0), 0, true, true, 0, 0, 0);
      rows := [];
    }

    method Publish(q: Quote, lost: bool)
      requires Valid()
      modifies this`st, this`rows, book`st
      ensures Valid() && View() == PublishQuote(old(View()), q, lost)
    {
      st := TpAfterPublish(st, lost).(fhSeqNo := st.fhSeqNo + 1);
      rows := rows + [q];
      book.NotePublished(q);
    }

    method PublishInvalidRow(recvTimeNs: int, lost: bool)
      requires Valid()
      modifies this`st, this`rows, book`st
      ensures Valid() && View() == PublishInvalid(cfg, old(View()), recvTimeNs, lost)
    {
      Publish(InvalidQuote(cfg.depth, recvTimeNs, st.fhSeqNo + 1), lost);
    }

    method PublishIfChanged(recvTimeNs: int, due: bool, lost: bool)
      requires Valid()
      modifies this`st, this`rows, book`st
      ensures Valid() && View() == MaybePublish(cfg, old(View()), recvTimeNs, due, lost)
    {
      var q := book.GetQuote(recvTimeNs, st.fhSeqNo + 1);
      if ShouldPublish(book.st.lastPublished, q, due) {
        Publish(q, lost);
      }
    }

    method RequestSnapshot(id: nat, nowMs: int)
      requires Valid()
      modifies this`st, book`st
      ensures Valid() && View() == Request(old(View()), id, nowMs)
    {
      book.NoteSnapshotRequested(true);
      st := st.(tracker := Requested(id, nowMs));
    }

    method OnEvent(m: Message)
      requires Valid()
      modifies this, scheduler, book.Repr()
      ensures Valid() && View() == HandleDelta(cfg, old(View()), m)
    {
      match book.st.phase {
        case InitPhase =>
          OnEarlyEvent(m);
        case InvalidPhase =>
          book.ResetBook();
        case _ =>
          OnLiveEvent(m);
      }
    }

    /** Buffer, and ask for the snapshot unless that has been done. */
    method OnEarlyEvent(m: Message)
      requires Valid() && book.st.phase.InitPhase?
      modifies this`st, scheduler, book`st
      ensures Valid() && View() == HandleDelta(cfg, old(View()), m)
    {
      var kept := book.Buffer(m.d);
      if !book.st.snapshotRequested {
        var granted := scheduler.TryAcquire(sym, m.nowMs);
        if granted { RequestSnapshot(m.requestId, m.nowMs); }
      }
    }

    method BreakSequence(wasValid: bool, m: Message)
      requires Valid()
      modifies this`st, this`rows, scheduler, book.Repr()
      ensures Valid() && View() == MarkBreak(cfg, old(View()), wasValid, m)
    {
      if !wasValid { scheduler.OnFailure(sym, m.nowMs, 0, 0, -1, m.jitter); }
      st := st.(sequenceGaps := st.sequenceGaps + (if wasValid then 1 else 0), resyncs := st.resyncs + 1);
      PublishInvalidRow(m.recvTimeNs, m.lost);
      book.ResetBook();
    }

    method PublishThenRefresh(m: Message)
      requires Valid()
      modifies this`st, this`rows, scheduler, book`st
      ensures Valid() && View() == PublishAndRefresh(cfg, old(View()), m)
    {
      PublishIfChanged(m.recvTimeNs, m.due, m.lost);
      var wanted := book.RefreshWanted();
      if wanted {
        var granted := scheduler.TryAcquire(sym, m.nowMs);
        if granted {
          book.StartRefresh();
          RequestSnapshot(m.requestId, m.nowMs);
        }
      }
    }

    method OnLiveEvent(m: Message)
      requires Valid() && (book.st.phase.SyncingPhase? || book.st.phase.ValidPhase?)
      modifies this`st, this`rows, scheduler, book.Repr()
      ensures Valid() && View() == HandleDelta(cfg, old(View()), m)
    {
      var wasValid := book.st.phase.ValidPhase?;
      var ok := book.ApplyEvent(m.d);
      if !ok {
        BreakSequence(wasValid, m);
      } else if book.st.phase.ValidPhase? {
        if !wasValid { scheduler.OnSynced(sym); }
        PublishThenRefresh(m);
      }
    }

    method FailRequest()
      requires Valid()
      modifies this`st, book`st
      ensures Valid() && View() == RequestFailed(old(View()))
    {
      st := st.(snapshotFailures := st.snapshotFailures + 1);
      book.AbandonRefresh();
      book.NoteSnapshotRequested(false);
    }

    method TellScheduler(outcome: SnapshotOutcome, nowMs: int, jitter: real)
      requires Valid()
      modifies scheduler
      ensures Valid()
      ensures View() == old(View()).(gate := ReportOutcome(old(View()).gate, outcome, nowMs, jitter))
    {
      match outcome {
        case Synced | Refreshed | RefreshAwaitingBridge => scheduler.OnSynced(sym);
        case SyncFailed | RefreshFailed => scheduler.OnFailure(sym, nowMs, 0, 0, -1, jitter);
        case AwaitingBridge | Ignored =>
      }
    }

    method OnResult(r: SnapshotResult, nowMs: int)
      requires Valid() && WellFormedResult(r)
      modifies this`st, scheduler, book.Repr()
      ensures Valid() && View() == ApplyResult(cfg, old(View()), r, nowMs)
    {
      if Stale(st.tracker, r.requestId) { return; }
      st := st.(tracker := Answered(st.tracker));
      if !r.success {
        scheduler.OnFailure(sym, nowMs, r.httpStatus, r.retryAfterSec, r.usedWeight, r.jitter);
        FailRequest();
        return;
      }
      scheduler.OnFetchOk(nowMs, r.usedWeight);
      var outcome := book.TakeSnapshot(r.lastUpdateId, r.bids, r.asks);
      if outcome.SyncFailed? {
        st := st.(resyncs := st.resyncs + 1);
      }
      TellScheduler(outcome, nowMs, r.jitter);
    }

    method ExpireOverdue(nowMs: int, jitter: real)
      requires Valid()
      modifies this`st, scheduler, book`st
      ensures Valid() && View() == ExpireRequest(old(View()), nowMs, jitter)
    {
      if TimedOut(st.tracker, nowMs) {
        st := st.(tracker := Abandon(st.tracker));
        scheduler.OnFailure(sym, nowMs, 0, 0, -1, jitter);
        FailRequest();
      }
    }

    /** Top of the message loop: timeouts first, then the finished fetches. */
    method OnResults(nowMs: int, jitter: real, rs: seq<SnapshotResult>)
      requires Valid() && forall r :: r in rs ==> WellFormedResult(r)
      modifies this`st, scheduler, book.Repr()
      ensures Valid() && View() == ApplyResults(cfg, ExpireRequest(old(View()), nowMs, jitter), rs, nowMs)
    {
      ExpireOverdue(nowMs, jitter);
      ghost var start := View();
      for i := 0 to |rs|
        invariant Valid() && View() == ApplyResults(cfg, start, rs[..i], nowMs)
      {
        assert rs[..i + 1][..i] == rs[..i];
        OnResult(rs[i], nowMs);
      }
      assert rs[..|rs|] == rs;
    }

    method OnHeartbeat(recvTimeNs: int, due: bool, lost: bool)
      requires Valid()
      modifies this`st, this`rows, book`st
      ensures Valid() && View() == Heartbeat(cfg, old(View()), recvTimeNs, due, lost)
    {
      if book.st.phase.ValidPhase? && book.st.lastPublished.Row? && due {
        var q := book.GetQuote(recvTimeNs, st.fhSeqNo + 1);
        if q.isValid { Publish(q, lost); }
      }
    }

    method OnReconnect(recvTimeNs: int, lost: bool)
      requires Valid()
      modifies this, book.Repr()
      ensures Valid() && View() == Reconnect(cfg, old(View()), recvTimeNs, lost)
    {
      if !st.running { return; }
      if st.connected && LastRowValid(book.st.lastPublished) {
        PublishInvalidRow(recvTimeNs, lost);
      }
      book.ResetBook();
      if Waiting(st.tracker) {
        st := st.(tracker := Abandon(st.tracker));
      }
    }

    method Stop()
      requires Valid()
      modifies this`st
      ensures Valid() && View() == old(View()).(st := old(st).(running := false))
    {
      st := st.(running := false);
    }
  }
}
