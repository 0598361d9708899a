/** A background refresh is seamless: the update-id stream of a book that
    refreshes is the stream of one that never does.

    `LiveView` is what the published rows see of the sequencing; `LiveStep` is a
    book without any refresh machinery. `RefreshIsInvisible` shows that the real
    book, with buffered replay, shadow book and swaps, follows it step by step.
    On futures this needs nothing of the stream; on spot it needs that no event
    ends below the id the live book is at, and `SwapKeepsLiveIdIff` shows that
    this is exactly what is needed.
  */
module BookRefresh {
  import opened PriceSide
  import opened Exchange
  import opened OrderBooks
  import opened BookAgreement

  // ---------------------------------------------------------------- a book that never refreshes

  datatype LiveView = LiveView(
    phase: Phase,
    needBridge: bool,
    lastId: int,
    range: IdRange,
    eventTimeMs: int,
    transactTimeMs: int,
    waiting: seq<Delta>)  // events buffered for the initial snapshot

  ghost function Live(o: BookView): LiveView {
    LiveView(o.st.phase, o.st.ids.needBridge, o.st.ids.lastId, o.st.range, o.st.eventTimeMs, o.st.transactTimeMs,
             if o.st.phase.InitPhase? then o.st.buffer else [])
  }

  ghost function LiveDelta(sync: DepthSync, v: LiveView, d: Delta): LiveView {
    if !v.phase.SyncingPhase? && !v.phase.ValidPhase? then v
    else match CheckSequence(sync, Sequencing(v.needBridge, v.lastId, v.lastId), d)
      case Fail => v.(phase := InvalidPhase)
      case Skip => v
      case Apply =>
        v.(phase := ValidPhase, needBridge := false, lastId := d.finalUpdateId,
           eventTimeMs := d.eventTimeMs, transactTimeMs := d.transactTimeMs,
           range := if v.range.closed then IdRange(d.firstUpdateId, d.prevFinalUpdateId, false) else v.range)
  }

  ghost function LiveReplay(sync: DepthSync, v: LiveView, ds: seq<Delta>): LiveView
    decreases |ds|
  {
    if ds == [] || v.phase.InvalidPhase? then v
    else LiveReplay(sync, LiveDelta(sync, v, ds[0]), ds[1..])
  }

  ghost function LiveStep(sync: DepthSync, v: LiveView, op: BookOp): LiveView {
    match op
    case BufferOp(d) =>
      var waiting := v.waiting + [d];
      v.(waiting := if |waiting| > MAX_DELTA_BUFFER_SIZE then waiting[1..] else waiting)
    case DeltaOp(d) => LiveDelta(sync, v, d)
    case SnapshotOp(id, _, _) =>
      if !v.phase.InitPhase? then v
      else LiveReplay(sync, v.(phase := SyncingPhase, needBridge := true, lastId := id, waiting := []), v.waiting)
    case PublishOp(_) => v.(range := v.range.(closed := true))
    case InvalidateOp => v.(phase := InvalidPhase, waiting := [])
    case ResetOp => Live(INITIAL_BOOK)
    case _ => v
  }

  // ---------------------------------------------------------------- the invariant

  predicate Follows(sync: DepthSync, u: int, d: Delta) {
    match sync
    case Spot => d.firstUpdateId <= u + 1 && u <= d.finalUpdateId
    case Futures => d.prevFinalUpdateId == u
  }

  ghost predicate Chained(sync: DepthSync, ds: seq<Delta>) {
    forall i :: 0 < i < |ds| ==> Follows(sync, ds[i - 1].finalUpdateId, ds[i])
  }

  /** While a refresh is in flight the buffer is a chain that ends where the live
      book is. */
  ghost predicate OnChain(cfg: BookConfig, o: BookView) {
    && (o.st.phase.SyncingPhase? ==> AtSnapshot(o.st.ids))
    && (o.st.phase.ValidPhase? ==> !o.st.ids.needBridge)
    && (o.st.refreshPending || o.st.shadowPending ==> o.st.phase.ValidPhase? || o.st.phase.InvalidPhase?)
    && (o.st.shadowPending ==> AtSnapshot(o.st.shadowIds))
    && (o.st.refreshPending && o.st.phase.ValidPhase? ==>
          && Chained(cfg.sync, o.st.buffer)
          && (o.st.buffer != [] ==> o.st.buffer[|o.st.buffer| - 1].finalUpdateId == o.st.ids.lastId))
  }

  /** How the handler uses the book, and on spot an event stream whose final ids
      do not go back below the live book. */
  ghost predicate Disciplined(cfg: BookConfig, o: BookView, op: BookOp) {
    match op
    case BufferOp(_) => o.st.phase.InitPhase?
    case BeginRefreshOp => o.st.phase.ValidPhase? && !o.st.refreshPending && !o.st.shadowPending
    case DeltaOp(d) => cfg.sync == Spot && o.st.phase.ValidPhase? ==> o.st.ids.lastId <= d.finalUpdateId
    case _ => true
  }

  // ---------------------------------------------------------------- buffered replay

  lemma {:induction false} BridgedRebuild(cfg: BookConfig, b: Book, ids: Sequencing, ds: seq<Delta>)
    requires !ids.needBridge && Chained(cfg.sync, ds)
    requires ds != [] ==> Follows(cfg.sync, ids.lastId, ds[0])
    ensures var r := Rebuild(cfg, b, ids, ds);
      !r.failed && !r.ids.needBridge && r.ids.lastId == if ds == [] then ids.lastId else ds[|ds| - 1].finalUpdateId
    decreases |ds|
  {
    if ds != [] {
      BridgedRebuild(cfg, ApplyLevels(cfg, b, ds[0]), Advance(ids, ds[0]), ds[1..]);
    }
  }

  /** A replay that has bridged never fails, and ends at the last buffered event. */
  lemma {:induction false} RebuildEndsOnChain(cfg: BookConfig, b: Book, ids: Sequencing, ds: seq<Delta>)
    requires AtSnapshot(ids) && Chained(cfg.sync, ds)
    ensures var r := Rebuild(cfg, b, ids, ds);
      && (r.failed || r.ids.needBridge ==> r.ids == ids)
      && (!r.failed && !r.ids.needBridge ==> ds != [] && r.ids.lastId == ds[|ds| - 1].finalUpdateId)
    decreases |ds|
  {
    if ds != [] {
      match CheckSequence(cfg.sync, ids, ds[0]) {
        case Fail =>
        case Skip => RebuildEndsOnChain(cfg, b, ids, ds[1..]);
        case Apply => BridgedRebuild(cfg, ApplyLevels(cfg, b, ds[0]), Advance(ids, ds[0]), ds[1..]);
      }
    }
  }

  /** The whole refresh snapshot step: the book stays valid at its update id,
      whatever the snapshot; if it could not bridge, nothing else changed. */
  lemma RefreshIsSeamless(cfg: BookConfig, o: BookView, id: int, bids: seq<Level>, asks: seq<Level>)
    requires OnChain(cfg, o) && o.st.phase.ValidPhase? && o.st.refreshPending
    requires DistinctPrices(bids) && DistinctPrices(asks)
    ensures var (o', outcome) := OnSnapshot(cfg, o, id, bids, asks);
      && o'.st.phase.ValidPhase? && Live(o') == Live(o) && OnChain(cfg, o')
      && (outcome.Refreshed? || outcome.RefreshAwaitingBridge? || outcome.RefreshFailed?)
      && (!outcome.Refreshed? ==> o'.book == o.book && o'.st.ids == o.st.ids)
  {
    RebuildEndsOnChain(cfg, LoadBook(cfg, bids, asks), Sequencing(true, id, id), o.st.buffer);
  }

  // ---------------------------------------------------------------- events

  lemma ChainGrows(sync: DepthSync, ds: seq<Delta>, d: Delta)
    requires Chained(sync, ds)
    requires ds != [] ==> Follows(sync, ds[|ds| - 1].finalUpdateId, d)
    ensures Chained(sync, ds + [d]) && Chained(sync, (ds + [d])[1..])
  {
  }

  /** The live book and the refresh buffer take an accepted event together. */
  lemma AdvanceIsOnChain(cfg: BookConfig, o: BookView, d: Delta)
    requires OnChain(cfg, o) && (o.st.phase.SyncingPhase? || o.st.phase.ValidPhase?)
    requires CheckSequence(cfg.sync, o.st.ids, d) == Apply
    ensures var live := AdvanceLive(cfg, o, d);
      OnChain(cfg, if live.st.refreshPending then BufferDelta(live, d) else live)
  {
    if o.st.refreshPending {
      ChainGrows(cfg.sync, o.st.buffer, d);
    }
  }

  lemma ShadowIsInvisible(cfg: BookConfig, o: BookView, d: Delta)
    requires OnChain(cfg, o)
    requires o.st.shadowPending ==> o.st.phase.ValidPhase? && o.st.ids.lastId == d.finalUpdateId
    ensures OnChain(cfg, StepShadow(cfg, o, d)) && Live(StepShadow(cfg, o, d)) == Live(o)
  {
  }

  lemma EventIsInvisible(cfg: BookConfig, o: BookView, d: Delta)
    requires OnChain(cfg, o) && Disciplined(cfg, o, DeltaOp(d))
    ensures OnChain(cfg, ApplyDelta(cfg, o, d).0)
    ensures Live(ApplyDelta(cfg, o, d).0) == LiveDelta(cfg.sync, Live(o), d)
  {
    if o.st.phase.SyncingPhase? || o.st.phase.ValidPhase? {
      if CheckSequence(cfg.sync, o.st.ids, d) == Apply {
        AdvanceIsOnChain(cfg, o, d);
        var live := AdvanceLive(cfg, o, d);
        ShadowIsInvisible(cfg, if live.st.refreshPending then BufferDelta(live, d) else live, d);
      }
    }
  }

  /** Exactly when a held refresh snapshot may be swapped in without moving the
      published update id: always on futures, and on spot when the bridging event
      does not end below the live book. */
  lemma SwapKeepsLiveIdIff(cfg: BookConfig, o: BookView, d: Delta)
    requires OnChain(cfg, o) && o.st.phase.ValidPhase? && o.st.shadowPending
    requires CheckSequence(cfg.sync, o.st.ids, d) != Fail
    requires CheckSequence(cfg.sync, o.st.shadowIds, d) == Apply
    ensures var o' := ApplyDelta(cfg, o, d).0;
      && !o'.st.shadowPending && o'.st.ids.lastId == d.finalUpdateId
      && (o'.st.ids.lastId == LiveDelta(cfg.sync, Live(o), d).lastId
          <==> cfg.sync == Futures || o.st.ids.lastId <= d.finalUpdateId)
  {
  }

  /** An exchange on which nobody trades. */
  ghost const QUIET: History := (n: int) => Market((p: int) => 0, (p: int) => 0)

  predicate NoLevels(op: BookOp) {
    match op
    case DeltaOp(d) => d.prevFinalUpdateId < d.firstUpdateId <= d.finalUpdateId && d.bids == d.asks == []
    case SnapshotOp(_, bids, asks) => bids == asks == []
    case BeginRefreshOp => true
    case _ => false
  }

  lemma NoLevelsIsFaithful(cfg: BookConfig, op: BookOp)
    requires NoLevels(op)
    ensures Faithful(cfg, QUIET, op)
  {
  }

  /** A spot book at id 10 with a held refresh snapshot of id 7. */
  lemma HeldSnapshotRun(cfg: BookConfig) returns (ops: seq<BookOp>)
    requires cfg.sync == Spot
    ensures forall i :: 0 <= i < |ops| ==> WellFormed(ops[i]) && NoLevels(ops[i])
    ensures var o := Run(cfg, INITIAL_BOOK, ops);
      && o.st.phase.ValidPhase? && o.st.ids == Sequencing(false, 9, 10) && !o.st.refreshPending
      && o.st.shadowPending && o.st.shadowIds == Sequencing(true, 7, 7)
  {
    var sync, event := SnapshotOp(9, [], []), DeltaOp(Delta(10, 10, -1, 0, 0, [], []));
    var refresh := SnapshotOp(7, [], []);
    ops := [];
    var o := INITIAL_BOOK;
    RunAppend(cfg, ops, sync);
    ops, o := ops + [sync], Step(cfg, o, sync);
    assert o.st.phase.SyncingPhase? && o.st.ids == Sequencing(true, 9, 9);
    assert !o.st.shadowPending && !o.st.refreshPending;
    RunAppend(cfg, ops, event);
    ops, o := ops + [event], Step(cfg, o, event);
    assert o.st.phase.ValidPhase? && o.st.ids == Sequencing(false, 9, 10) && !o.st.shadowPending;
    RunAppend(cfg, ops, BeginRefreshOp);
    ops, o := ops + [BeginRefreshOp], Step(cfg, o, BeginRefreshOp);
    RunAppend(cfg, ops, refresh);
    ops, o := ops + [refresh], Step(cfg, o, refresh);
  }

  /** The condition is needed: a late spot event that the live book skips bridges
      an older refresh snapshot and takes the book from update id 10 back to 9. Events
      and snapshots are faithful, and the book agrees with the exchange at 9. */
  lemma LateSpotEventMovesBack(cfg: BookConfig) returns (ops: seq<BookOp>, late: Delta)
    requires cfg.sync == Spot
    ensures forall i :: 0 <= i < |ops| ==> WellFormed(ops[i]) && Faithful(cfg, QUIET, ops[i])
    ensures FaithfulDelta(cfg.sync, QUIET, late)
    ensures var o := Run(cfg, INITIAL_BOOK, ops);
      && o.st.phase.ValidPhase? && o.st.ids.lastId == 10
      && ApplyDelta(cfg, o, late).0.st.phase.ValidPhase? && ApplyDelta(cfg, o, late).0.st.ids.lastId == 9
      && Sound(cfg, QUIET, ApplyDelta(cfg, o, late).0)
  {
    late := Delta(8, 9, -1, 0, 0, [], []);
    ops := HeldSnapshotRun(cfg);
    forall i | 0 <= i < |ops| ensures Faithful(cfg, QUIET, ops[i]) {
      NoLevelsIsFaithful(cfg, ops[i]);
    }
    NoLevelsIsFaithful(cfg, DeltaOp(late));
    RunKeepsAgreement(cfg, QUIET, ops);
    DeltaKeepsSound(cfg, QUIET, Run(cfg, INITIAL_BOOK, ops), late);
  }

  lemma RunAppend(cfg: BookConfig, ops: seq<BookOp>, op: BookOp)
    requires forall i :: 0 <= i < |ops| ==> WellFormed(ops[i])
    requires WellFormed(op)
    ensures Run(cfg, INITIAL_BOOK, ops + [op]) == Step(cfg, Run(cfg, INITIAL_BOOK, ops), op)
  {
    assert (ops + [op])[..|ops|] == ops;
  }

  // ---------------------------------------------------------------- whole runs

  lemma {:induction false} ReplayIsLive(cfg: BookConfig, o: BookView, ds: seq<Delta>)
    requires OnChain(cfg, o) && !o.st.refreshPending && !o.st.shadowPending
    requires o.st.phase.SyncingPhase? || o.st.phase.ValidPhase?
    ensures var r := Replay(cfg, o, ds).0;
      && Live(r) == LiveReplay(cfg.sync, Live(o), ds)
      && OnChain(cfg, r) && !r.st.refreshPending && !r.st.shadowPending
    decreases |ds|
  {
    if ds != [] {
      var (o', ok) := ApplyDelta(cfg, o, ds[0]);
      assert Live(o') == LiveDelta(cfg.sync, Live(o), ds[0]);
      if ok {
        ReplayIsLive(cfg, o', ds[1..]);
      }
    }
  }

  lemma {:induction false} ReplayLeavesInit(cfg: BookConfig, o: BookView, ds: seq<Delta>)
    requires !o.st.phase.InitPhase?
    ensures !Replay(cfg, o, ds).0.st.phase.InitPhase?
    decreases |ds|
  {
    if ds != [] && ApplyDelta(cfg, o, ds[0]).1 {
      ReplayLeavesInit(cfg, ApplyDelta(cfg, o, ds[0]).0, ds[1..]);
    }
  }

  lemma InitialSyncIsLive(cfg: BookConfig, o: BookView, id: int, bids: seq<Level>, asks: seq<Level>)
    requires OnChain(cfg, o) && o.st.phase.InitPhase?
    requires DistinctPrices(bids) && DistinctPrices(asks)
    ensures OnChain(cfg, OnSnapshot(cfg, o, id, bids, asks).0)
    ensures Live(OnSnapshot(cfg, o, id, bids, asks).0) == LiveStep(cfg.sync, Live(o), SnapshotOp(id, bids, asks))
  {
    var o' := o.(st := o.st.(snapshotRequested := false, refreshPending := false));
    var start := LoadInitial(cfg, o', id, bids, asks);
    ReplayIsLive(cfg, start, o.st.buffer);
    assert Live(start) == Live(o).(phase := SyncingPhase, needBridge := true, lastId := id, waiting := []);
    var r := Replay(cfg, start, o.st.buffer).0;
    ReplayLeavesInit(cfg, start, o.st.buffer);
    assert Live(r.(st := r.st.(buffer := []))) == Live(r);
  }

  /** Main result: every operation does to the live view exactly what it would do
      to a book without background refreshes. */
  lemma RefreshIsInvisible(cfg: BookConfig, o: BookView, op: BookOp)
    requires OnChain(cfg, o) && WellFormed(op) && Disciplined(cfg, o, op)
    ensures OnChain(cfg, Step(cfg, o, op))
    ensures Live(Step(cfg, o, op)) == LiveStep(cfg.sync, Live(o), op)
  {
    match op {
      case DeltaOp(d) => EventIsInvisible(cfg, o, d);
      case SnapshotOp(id, bids, asks) =>
        if o.st.phase.ValidPhase? && o.st.refreshPending {
          RefreshIsSeamless(cfg, o, id, bids, asks);
        } else if o.st.phase.InitPhase? {
          InitialSyncIsLive(cfg, o, id, bids, asks);
        }
      case _ =>
    }
  }

  ghost function LiveRun(sync: DepthSync, ops: seq<BookOp>): LiveView
    decreases |ops|
  {
    if ops == [] then Live(INITIAL_BOOK) else LiveStep(sync, LiveRun(sync, ops[..|ops| - 1]), ops[|ops| - 1])
  }

  ghost predicate DisciplinedRun(cfg: BookConfig, ops: seq<BookOp>)
    requires forall i :: 0 <= i < |ops| ==> WellFormed(ops[i])
    decreases |ops|
  {
    ops != [] ==>
      var before := ops[..|ops| - 1];
      DisciplinedRun(cfg, before) && Disciplined(cfg, Run(cfg, INITIAL_BOOK, before), ops[|ops| - 1])
  }

  lemma {:induction false} RunRefinesLiveRun(cfg: BookConfig, ops: seq<BookOp>)
    requires forall i :: 0 <= i < |ops| ==> WellFormed(ops[i])
    requires DisciplinedRun(cfg, ops)
    ensures OnChain(cfg, Run(cfg, INITIAL_BOOK, ops))
    ensures Live(Run(cfg, INITIAL_BOOK, ops)) == LiveRun(cfg.sync, ops)
    decreases |ops|
  {
    if ops != [] {
      var before := ops[..|ops| - 1];
      RunRefinesLiveRun(cfg, before);
      RefreshIsInvisible(cfg, Run(cfg, INITIAL_BOOK, before), ops[|ops| - 1]);
    }
  }
}
