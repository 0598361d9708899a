/** Whatever sequence of operations a book goes through, what it stores is what
    the exchange has: the claim of cpp/include/order_book_manager.hpp, for every
    run instead of for sampled markets.
  */
module BookAgreement {
  import opened PriceSide
  import opened Exchange
  import opened OrderBooks

  // ---------------------------------------------------------------- the exchange's contract

  /** The first update id whose market state the event builds on. */
  function BaseId(sync: DepthSync, d: Delta): int {
    if sync == Spot then d.firstUpdateId - 1 else d.prevFinalUpdateId
  }

  /** The event reports every change between its base and its final id, with
      absolute quantities. */
  ghost predicate FaithfulDelta(sync: DepthSync, h: History, d: Delta) {
    && d.firstUpdateId <= d.finalUpdateId
    && (sync == Futures ==> d.prevFinalUpdateId < d.firstUpdateId)
    && forall m :: BaseId(sync, d) <= m <= d.finalUpdateId ==>
         && FaithfulChange(h(m).bid, d.bids, h(d.finalUpdateId).bid)
         && FaithfulChange(h(m).ask, d.asks, h(d.finalUpdateId).ask)
  }

  ghost predicate FaithfulSnapshot(cfg: BookConfig, h: History, id: int, bids: seq<Level>, asks: seq<Level>) {
    && FaithfulSide(true, h(id).bid, bids, cfg.snapshotLimit)
    && FaithfulSide(false, h(id).ask, asks, cfg.snapshotLimit)
  }

  // ---------------------------------------------------------------- runs

  datatype BookOp =
    | BufferOp(d: Delta)
    | DeltaOp(d: Delta)
    | SnapshotOp(id: int, bids: seq<Level>, asks: seq<Level>)
    | BeginRefreshOp
    | CancelRefreshOp
    | RequestedOp(requested: bool)
    | PublishOp(quote: Quote)
    | InvalidateOp
    | ResetOp

  ghost predicate WellFormed(op: BookOp) {
    op.SnapshotOp? ==> DistinctPrices(op.bids) && DistinctPrices(op.asks)
  }

  ghost function Step(cfg: BookConfig, o: BookView, op: BookOp): BookView
    requires WellFormed(op)
  {
    match op
    case BufferOp(d) => BufferDelta(o, d)
    case DeltaOp(d) => ApplyDelta(cfg, o, d).0
    case SnapshotOp(id, bids, asks) => OnSnapshot(cfg, o, id, bids, asks).0
    case BeginRefreshOp => BeginRefresh(o)
    case CancelRefreshOp => CancelRefresh(o)
    case RequestedOp(requested) => SetSnapshotRequested(o, requested)
    case PublishOp(q) => RecordPublish(o, q)
    case InvalidateOp => Invalidate(o)
    case ResetOp => Reset(o)
  }

  ghost function Run(cfg: BookConfig, o: BookView, ops: seq<BookOp>): BookView
    requires forall i :: 0 <= i < |ops| ==> WellFormed(ops[i])
    decreases |ops|
  {
    if ops == [] then o else Step(cfg, Run(cfg, o, ops[..|ops| - 1]), ops[|ops| - 1])
  }

  ghost predicate Faithful(cfg: BookConfig, h: History, op: BookOp) {
    match op
    case BufferOp(d) => FaithfulDelta(cfg.sync, h, d)
    case DeltaOp(d) => FaithfulDelta(cfg.sync, h, d)
    case SnapshotOp(id, bids, asks) => FaithfulSnapshot(cfg, h, id, bids, asks)
    case _ => true
  }

  // ---------------------------------------------------------------- the invariant

  ghost predicate BookAgrees(cfg: BookConfig, b: Book, market: Market) {
    && Agrees(true, b.bid, market.bid) && |b.bid.levels| <= cfg.maxLevels
    && Agrees(false, b.ask, market.ask) && |b.ask.levels| <= cfg.maxLevels
  }

  /** Until its bridging event a book is at its snapshot. */
  predicate AtSnapshot(ids: Sequencing) {
    ids.needBridge && ids.lastId == ids.snapshotId
  }

  ghost predicate Sound(cfg: BookConfig, h: History, o: BookView) {
    && (o.st.phase.SyncingPhase? || o.st.phase.ValidPhase? ==> BookAgrees(cfg, o.book, h(o.st.ids.lastId)))
    && (o.st.phase.SyncingPhase? ==> AtSnapshot(o.st.ids))
    && (o.st.phase.ValidPhase? ==> !o.st.ids.needBridge)
    && (o.st.shadowPending ==> o.st.phase.ValidPhase? || o.st.phase.InvalidPhase?)
    && (o.st.shadowPending ==> AtSnapshot(o.st.shadowIds) && BookAgrees(cfg, o.shadow, h(o.st.shadowIds.lastId)))
    && (forall i :: 0 <= i < |o.st.buffer| ==> FaithfulDelta(cfg.sync, h, o.st.buffer[i]))
    && |o.st.buffer| <= MAX_DELTA_BUFFER_SIZE
  }

  /** An accepted event takes an agreeing book from its update id to the event's. */
  lemma EventAgrees(cfg: BookConfig, h: History, b: Book, ids: Sequencing, d: Delta)
    requires BookAgrees(cfg, b, h(ids.lastId))
    requires ids.needBridge ==> ids.lastId == ids.snapshotId
    requires FaithfulDelta(cfg.sync, h, d)
    requires CheckSequence(cfg.sync, ids, d) == Apply
    ensures BookAgrees(cfg, ApplyLevels(cfg, b, d), h(d.finalUpdateId))
    ensures HorizonMovesIn(true, b.bid, ApplyLevels(cfg, b, d).bid)
    ensures HorizonMovesIn(false, b.ask, ApplyLevels(cfg, b, d).ask)
  {
    var m, u := ids.lastId, d.finalUpdateId;
    assert BaseId(cfg.sync, d) <= m <= u;
    ChangeAgrees(true, b.bid, h(m).bid, d.bids, h(u).bid, cfg.maxLevels);
    ChangeAgrees(false, b.ask, h(m).ask, d.asks, h(u).ask, cfg.maxLevels);
  }

  lemma SnapshotAgrees(cfg: BookConfig, h: History, id: int, bids: seq<Level>, asks: seq<Level>)
    requires FaithfulSnapshot(cfg, h, id, bids, asks)
    ensures BookAgrees(cfg, LoadBook(cfg, bids, asks), h(id))
  {
    LoadAgrees(true, h(id).bid, bids, cfg.snapshotLimit, cfg.maxLevels);
    LoadAgrees(false, h(id).ask, asks, cfg.snapshotLimit, cfg.maxLevels);
  }

  lemma AdvanceKeepsSound(cfg: BookConfig, h: History, o: BookView, d: Delta)
    requires Sound(cfg, h, o) && FaithfulDelta(cfg.sync, h, d)
    requires o.st.phase.SyncingPhase? || o.st.phase.ValidPhase?
    requires CheckSequence(cfg.sync, o.st.ids, d) == Apply
    ensures Sound(cfg, h, AdvanceLive(cfg, o, d))
  {
    EventAgrees(cfg, h, o.book, o.st.ids, d);
  }

  lemma BufferKeepsSound(cfg: BookConfig, h: History, o: BookView, d: Delta)
    requires Sound(cfg, h, o) && FaithfulDelta(cfg.sync, h, d)
    ensures Sound(cfg, h, BufferDelta(o, d))
  {
  }

  lemma SwapKeepsSound(cfg: BookConfig, h: History, o: BookView, b: Book, ids: Sequencing)
    requires Sound(cfg, h, o) && !o.st.phase.SyncingPhase?
    requires BookAgrees(cfg, b, h(ids.lastId)) && !ids.needBridge
    ensures Sound(cfg, h, SwapIn(cfg, o, b, ids))
  {
  }

  /** The shadow's turn comes when the live book has been through the event. */
  lemma ShadowKeepsSound(cfg: BookConfig, h: History, o: BookView, d: Delta)
    requires Sound(cfg, h, o) && FaithfulDelta(cfg.sync, h, d)
    ensures Sound(cfg, h, StepShadow(cfg, o, d))
  {
    if o.st.shadowPending && CheckSequence(cfg.sync, o.st.shadowIds, d) == Apply {
      EventAgrees(cfg, h, o.shadow, o.st.shadowIds, d);
      SwapKeepsSound(cfg, h, o, ApplyLevels(cfg, o.shadow, d), Advance(o.st.shadowIds, d));
    }
  }

  lemma DeltaKeepsSound(cfg: BookConfig, h: History, o: BookView, d: Delta)
    requires Sound(cfg, h, o) && FaithfulDelta(cfg.sync, h, d)
    ensures Sound(cfg, h, ApplyDelta(cfg, o, d).0)
  {
    if o.st.phase.SyncingPhase? || o.st.phase.ValidPhase? {
      var v := CheckSequence(cfg.sync, o.st.ids, d);
      if v != Fail {
        if v == Apply { AdvanceKeepsSound(cfg, h, o, d); }
        var live := if v.Apply? then AdvanceLive(cfg, o, d) else o;
        if live.st.refreshPending { BufferKeepsSound(cfg, h, live, d); }
        ShadowKeepsSound(cfg, h, if live.st.refreshPending then BufferDelta(live, d) else live, d);
      }
    }
  }

  lemma {:induction false} ReplayKeepsSound(cfg: BookConfig, h: History, o: BookView, ds: seq<Delta>)
    requires Sound(cfg, h, o)
    requires forall i :: 0 <= i < |ds| ==> FaithfulDelta(cfg.sync, h, ds[i])
    ensures Sound(cfg, h, Replay(cfg, o, ds).0)
    decreases |ds|
  {
    if ds != [] {
      DeltaKeepsSound(cfg, h, o, ds[0]);
      if ApplyDelta(cfg, o, ds[0]).1 {
        ReplayKeepsSound(cfg, h, ApplyDelta(cfg, o, ds[0]).0, ds[1..]);
      }
    }
  }

  lemma {:induction false} RebuildAgrees(cfg: BookConfig, h: History, b: Book, ids: Sequencing, ds: seq<Delta>)
    requires BookAgrees(cfg, b, h(ids.lastId))
    requires ids.needBridge ==> ids.lastId == ids.snapshotId
    requires forall i :: 0 <= i < |ds| ==> FaithfulDelta(cfg.sync, h, ds[i])
    ensures var r := Rebuild(cfg, b, ids, ds);
      && BookAgrees(cfg, r.book, h(r.ids.lastId))
      && (r.ids.needBridge ==> ids.needBridge && r.ids == ids)
    decreases |ds|
  {
    if ds != [] {
      match CheckSequence(cfg.sync, ids, ds[0]) {
        case Fail =>
        case Skip => RebuildAgrees(cfg, h, b, ids, ds[1..]);
        case Apply =>
          EventAgrees(cfg, h, b, ids, ds[0]);
          RebuildAgrees(cfg, h, ApplyLevels(cfg, b, ds[0]), Advance(ids, ds[0]), ds[1..]);
      }
    }
  }

  lemma RefreshKeepsSound(cfg: BookConfig, h: History, o: BookView, id: int, bids: seq<Level>, asks: seq<Level>)
    requires Sound(cfg, h, o) && FaithfulSnapshot(cfg, h, id, bids, asks)
    requires o.st.phase.ValidPhase?
    ensures Sound(cfg, h, FinishRefresh(cfg, o, id, bids, asks).0)
  {
    var r := Rebuild(cfg, LoadBook(cfg, bids, asks), Sequencing(true, id, id), o.st.buffer);
    SnapshotAgrees(cfg, h, id, bids, asks);
    RebuildAgrees(cfg, h, LoadBook(cfg, bids, asks), Sequencing(true, id, id), o.st.buffer);
    var o' := o.(st := o.st.(refreshPending := false, buffer := []));
    if !r.failed && !r.ids.needBridge {
      SwapKeepsSound(cfg, h, o', r.book, r.ids);
    } else if !r.failed && id == o.st.ids.lastId {
      SwapKeepsSound(cfg, h, o', r.book, o.st.ids);
    }
  }

  lemma SyncKeepsSound(cfg: BookConfig, h: History, o: BookView, id: int, bids: seq<Level>, asks: seq<Level>)
    requires Sound(cfg, h, o) && FaithfulSnapshot(cfg, h, id, bids, asks)
    requires o.st.phase.InitPhase?
    ensures Sound(cfg, h, Replay(cfg, LoadInitial(cfg, o, id, bids, asks), o.st.buffer).0)
  {
    SnapshotAgrees(cfg, h, id, bids, asks);
    ReplayKeepsSound(cfg, h, LoadInitial(cfg, o, id, bids, asks), o.st.buffer);
  }

  lemma SnapshotKeepsSound(cfg: BookConfig, h: History, o: BookView, id: int, bids: seq<Level>, asks: seq<Level>)
    requires Sound(cfg, h, o) && FaithfulSnapshot(cfg, h, id, bids, asks)
    ensures Sound(cfg, h, OnSnapshot(cfg, o, id, bids, asks).0)
  {
    if o.st.phase.ValidPhase? && o.st.refreshPending {
      RefreshKeepsSound(cfg, h, SetSnapshotRequested(o, false), id, bids, asks);
    } else if o.st.phase.InitPhase? {
      SyncKeepsSound(cfg, h, o.(st := o.st.(snapshotRequested := false, refreshPending := false)), id, bids, asks);
    }
  }

  lemma StepKeepsAgreement(cfg: BookConfig, h: History, o: BookView, op: BookOp)
    requires WellFormed(op) && Faithful(cfg, h, op) && Sound(cfg, h, o)
    ensures Sound(cfg, h, Step(cfg, o, op))
  {
    match op {
      case BufferOp(d) => BufferKeepsSound(cfg, h, o, d);
      case DeltaOp(d) => DeltaKeepsSound(cfg, h, o, d);
      case SnapshotOp(id, bids, asks) => SnapshotKeepsSound(cfg, h, o, id, bids, asks);
      case _ =>
    }
  }

  /** Main result: over every run fed faithful events and snapshots, under either
      sequencing rule, with refreshes, failed syncs, overflows and resets in any
      order, a syncing or valid book (and a held refresh snapshot) equals the
      exchange at its own update id inside its horizon. */
  lemma {:induction false} RunKeepsAgreement(cfg: BookConfig, h: History, ops: seq<BookOp>)
    requires forall i :: 0 <= i < |ops| ==> WellFormed(ops[i]) && Faithful(cfg, h, ops[i])
    ensures Sound(cfg, h, Run(cfg, INITIAL_BOOK, ops))
    decreases |ops|
  {
    if ops != [] {
      var before := ops[..|ops| - 1];
      RunKeepsAgreement(cfg, h, before);
      StepKeepsAgreement(cfg, h, Run(cfg, INITIAL_BOOK, before), ops[|ops| - 1]);
    }
  }

  /** A valid quote shows exactly the exchange's top `depth` levels at the update
      id it states. */
  lemma ValidQuoteIsTop(cfg: BookConfig, h: History, o: BookView, recvTimeNs: int, fhSeqNo: int)
    requires Sound(cfg, h, o)
    requires forall n, p :: h(n).bid(p) >= 0 && h(n).ask(p) >= 0
    ensures var q := QuoteOf(cfg, o, recvTimeNs, fhSeqNo);
      q.isValid ==>
        && |q.bids| == |q.asks| == cfg.depth
        && IsTop(true, h(q.updateId).bid, q.bids) && IsTop(false, h(q.updateId).ask, q.asks)
  {
    if QuoteOf(cfg, o, recvTimeNs, fhSeqNo).isValid {
      KnownTopIsTop(true, o.book.bid, h(o.st.ids.lastId).bid, cfg.depth);
      KnownTopIsTop(false, o.book.ask, h(o.st.ids.lastId).ask, cfg.depth);
    }
  }

  /** Between loads the horizon only moves toward the touch. */
  lemma EventMovesHorizonIn(cfg: BookConfig, h: History, o: BookView, d: Delta)
    requires Sound(cfg, h, o) && FaithfulDelta(cfg.sync, h, d)
    requires !o.st.shadowPending
    ensures HorizonMovesIn(true, o.book.bid, ApplyDelta(cfg, o, d).0.book.bid)
    ensures HorizonMovesIn(false, o.book.ask, ApplyDelta(cfg, o, d).0.book.ask)
  {
    if (o.st.phase.SyncingPhase? || o.st.phase.ValidPhase?) && CheckSequence(cfg.sync, o.st.ids, d) == Apply {
      EventAgrees(cfg, h, o.book, o.st.ids, d);
    }
  }
}
