/** What a book counts and keeps besides its levels: the buffer, the exhausted mark, the
    counters and the times, told from events and outcomes.
  */
module BookLaws {
  import opened PriceSide
  import opened OrderBooks
  import opened BookAgreement
  import opened SyncOutcomes

  // ---------------------------------------------------------------- the buffer

  ghost function BufferAll(o: BookView, ds: seq<Delta>): BookView
    decreases |ds|
  {
    if ds == [] then o else BufferDelta(BufferAll(o, ds[..|ds| - 1]), ds[|ds| - 1])
  }

  /** The newest n of some events. */
  function Newest(ds: seq<Delta>, n: nat): seq<Delta> {
    if |ds| <= n then ds else ds[|ds| - n..]
  }

  lemma NewestAdded(ds: seq<Delta>, d: Delta, n: nat)
    requires n > 0
    ensures Newest(ds + [d], n) == (if |ds| < n then ds + [d] else Newest(ds, n)[1..] + [d])
  {
  }

  /** What buffering has made of o after some events. */
  ghost predicate Buffered(o: BookView, b: BookView, ds: seq<Delta>) {
    && b.st.buffer == Newest(ds, 1000)
    && b.st.counters.bufferOverflows == o.st.counters.bufferOverflows + |ds| - |b.st.buffer|
    && b == o.(st := o.st.(buffer := b.st.buffer,
                           counters := o.st.counters.(bufferOverflows := b.st.counters.bufferOverflows)))
  }

  lemma OneMoreBuffered(o: BookView, b: BookView, ds: seq<Delta>, d: Delta)
    requires Buffered(o, b, ds)
    ensures Buffered(o, BufferDelta(b, d), ds + [d])
  {
    NewestAdded(ds, d, 1000);
    var buf := b.st.buffer + [d];
    assert |buf| > 1000 ==> buf[1..] == b.st.buffer[1..] + [d];
  }

  /** Main result: the buffer holds the newest 1000 of the events buffered, in order, and
      every one it has dropped for them is counted. */
  lemma {:induction false} BufferKeepsNewest(o: BookView, ds: seq<Delta>)
    requires o.st.buffer == []
    ensures Buffered(o, BufferAll(o, ds), ds)
    decreases |ds|
  {
    if ds != [] {
      var front, d := ds[..|ds| - 1], ds[|ds| - 1];
      BufferKeepsNewest(o, front);
      OneMoreBuffered(o, BufferAll(o, front), front, d);
      assert ds == front + [d];
    }
  }

  // ---------------------------------------------------------------- exhausted books

  /** A side has fewer than the published levels while the exchange has more. */
  ghost predicate TooShallow(cfg: BookConfig, b: Book) {
    (b.bid.bounded && |b.bid.levels| < cfg.depth) || (b.ask.bounded && |b.ask.levels| < cfg.depth)
  }

  /** The mark says whether a valid book is too shallow; another book is not marked. */
  ghost predicate MarkOk(cfg: BookConfig, o: BookView) {
    && (o.st.phase.ValidPhase? ==> (o.st.wasExhausted <==> TooShallow(cfg, o.book)))
    && (o.st.phase.InitPhase? || o.st.phase.SyncingPhase? ==> !o.st.wasExhausted && !o.st.shadowPending)
  }

  lemma SwapMarks(cfg: BookConfig, o: BookView, b: Book, ids: Sequencing)
    requires o.st.phase.ValidPhase?
    ensures MarkOk(cfg, SwapIn(cfg, o, b, ids)) && MarkOk(cfg, DropShadow(SwapIn(cfg, o, b, ids)))
  {
  }

  lemma ShadowKeepsMark(cfg: BookConfig, o: BookView, d: Delta)
    requires MarkOk(cfg, o) && (o.st.shadowPending ==> o.st.phase.ValidPhase?)
    ensures MarkOk(cfg, StepShadow(cfg, o, d))
  {
    if o.st.phase.ValidPhase? { SwapMarks(cfg, o, ApplyLevels(cfg, o.shadow, d), Advance(o.st.shadowIds, d)); }
  }

  lemma LiveKeepsMark(cfg: BookConfig, o: BookView, d: Delta)
    requires MarkOk(cfg, o)
    ensures var live := AdvanceLive(cfg, o, d); MarkOk(cfg, live) && live.st.phase.ValidPhase?
  {
  }

  lemma BufferingKeepsMark(cfg: BookConfig, o: BookView, d: Delta)
    requires MarkOk(cfg, o)
    ensures var b := BufferDelta(o, d);
      MarkOk(cfg, b) && b.st.phase == o.st.phase && b.st.shadowPending == o.st.shadowPending
  {
  }

  lemma DeltaKeepsMark(cfg: BookConfig, o: BookView, d: Delta)
    requires MarkOk(cfg, o)
    ensures MarkOk(cfg, ApplyDelta(cfg, o, d).0)
  {
    if o.st.phase.SyncingPhase? || o.st.phase.ValidPhase? {
      LiveKeepsMark(cfg, o, d);
      var live := if CheckSequence(cfg.sync, o.st.ids, d) == Apply then AdvanceLive(cfg, o, d) else o;
      BufferingKeepsMark(cfg, live, d);
      ShadowKeepsMark(cfg, if live.st.refreshPending then BufferDelta(live, d) else live, d);
    }
  }

  lemma {:induction false} ReplayKeepsMark(cfg: BookConfig, o: BookView, ds: seq<Delta>)
    requires MarkOk(cfg, o)
    ensures MarkOk(cfg, Replay(cfg, o, ds).0)
    decreases |ds|
  {
    if ds != [] {
      DeltaKeepsMark(cfg, o, ds[0]);
      if ApplyDelta(cfg, o, ds[0]).1 { ReplayKeepsMark(cfg, ApplyDelta(cfg, o, ds[0]).0, ds[1..]); }
    }
  }

  lemma SnapshotKeepsMark(cfg: BookConfig, o: BookView, id: int, bids: seq<Level>, asks: seq<Level>)
    requires MarkOk(cfg, o) && DistinctPrices(bids) && DistinctPrices(asks)
    ensures MarkOk(cfg, OnSnapshot(cfg, o, id, bids, asks).0)
  {
    if o.st.phase.ValidPhase? && o.st.refreshPending {
      RefreshKeepsMark(cfg, SetSnapshotRequested(o, false), id, bids, asks);
    } else if o.st.phase.InitPhase? {
      var o' := o.(st := o.st.(snapshotRequested := false, refreshPending := false));
      ReplayKeepsMark(cfg, LoadInitial(cfg, o', id, bids, asks), o.st.buffer);
    }
  }

  lemma RefreshKeepsMark(cfg: BookConfig, o: BookView, id: int, bids: seq<Level>, asks: seq<Level>)
    requires MarkOk(cfg, o) && o.st.phase.ValidPhase? && DistinctPrices(bids) && DistinctPrices(asks)
    ensures MarkOk(cfg, FinishRefresh(cfg, o, id, bids, asks).0)
  {
    var r := Rebuild(cfg, LoadBook(cfg, bids, asks), Sequencing(true, id, id), o.st.buffer);
    FinishKeepsMark(cfg, o, r, FinishRefresh(cfg, o, id, bids, asks).0, id);
  }

  lemma FinishKeepsMark(cfg: BookConfig, o: BookView, r: Rebuilt, w: BookView, id: int)
    requires MarkOk(cfg, o) && o.st.phase.ValidPhase?
    requires var o' := o.(st := o.st.(refreshPending := false, buffer := []));
      || w == o'.(st := CountRefreshFailure(o'.st))
      || w == SwapIn(cfg, o', r.book, r.ids) || w == SwapIn(cfg, o', r.book, o.st.ids)
      || w == o'.(shadow := r.book, st := o'.st.(shadowIds := r.ids, shadowPending := true))
    ensures MarkOk(cfg, w)
  {
  }

  lemma StepKeepsMark(cfg: BookConfig, o: BookView, op: BookOp)
    requires MarkOk(cfg, o) && WellFormed(op)
    ensures MarkOk(cfg, Step(cfg, o, op))
  {
    match op {
      case DeltaOp(d) => DeltaKeepsMark(cfg, o, d);
      case SnapshotOp(id, bids, asks) => SnapshotKeepsMark(cfg, o, id, bids, asks);
      case _ =>
    }
  }

  /** Main result, over every run: a valid book is marked exactly while it cannot assure the
      published levels. */
  lemma {:induction false} MarkIsExact(cfg: BookConfig, ops: seq<BookOp>)
    requires forall i :: 0 <= i < |ops| ==> WellFormed(ops[i])
    ensures MarkOk(cfg, Run(cfg, INITIAL_BOOK, ops))
    decreases |ops|
  {
    if ops != [] {
      MarkIsExact(cfg, ops[..|ops| - 1]);
      StepKeepsMark(cfg, Run(cfg, INITIAL_BOOK, ops[..|ops| - 1]), ops[|ops| - 1]);
    }
  }

  // ---------------------------------------------------------------- what is counted

  /** Whether the event is applied to the live book. */
  ghost predicate AppliesTo(cfg: BookConfig, o: BookView, d: Delta) {
    if o.st.ids.needBridge then
      !Older(cfg.sync, o.st.ids.snapshotId, d) && Bridges(cfg.sync, o.st.ids.snapshotId, d)
    else Unbroken(cfg.sync, o.st.ids.lastId, [d]) && (cfg.sync.Spot? ==> d.finalUpdateId >= o.st.ids.lastId)
  }

  lemma VerdictIsApply(cfg: BookConfig, o: BookView, d: Delta)
    ensures CheckSequence(cfg.sync, o.st.ids, d) == Apply <==> AppliesTo(cfg, o, d)
  {
    FirstEvent(cfg.sync, o.st.ids.snapshotId, o.st.ids.lastId, d);
    LaterEvent(cfg.sync, o.st.ids.snapshotId, o.st.ids.lastId, d);
    assert [d][1..] == [];
  }

  predicate SameTimes(st: Status, t: Status) {
    && t.eventTimeMs == st.eventTimeMs && t.transactTimeMs == st.transactTimeMs && t.range == st.range
    && t.counters.depthExhausted == st.counters.depthExhausted
  }

  lemma CopiesTouchNoTimes(cfg: BookConfig, o: BookView, d: Delta)
    ensures SameTimes(o.st, BufferDelta(o, d).st) && SameTimes(o.st, StepShadow(cfg, o, d).st)
  {
  }

  /** An event that is applied gives the book its times, opens the range of the next row,
      and is counted if it makes the book too shallow. */
  lemma AppliedEvent(cfg: BookConfig, o: BookView, d: Delta)
    requires o.st.phase.SyncingPhase? || o.st.phase.ValidPhase?
    ensures var w, b := ApplyDelta(cfg, o, d).0, ApplyLevels(cfg, o.book, d);
      && (AppliesTo(cfg, o, d) ==>
            && w.st.eventTimeMs == d.eventTimeMs && w.st.transactTimeMs == d.transactTimeMs
            && w.st.range == (if o.st.range.closed then IdRange(d.firstUpdateId, d.prevFinalUpdateId, false)
                              else o.st.range)
            && w.st.counters.depthExhausted == o.st.counters.depthExhausted
                 + if TooShallow(cfg, b) && !o.st.wasExhausted then 1 else 0)
      && (!AppliesTo(cfg, o, d) ==>
            SameTimes(o.st, w.st))
  {
    VerdictIsApply(cfg, o, d);
    var live := if AppliesTo(cfg, o, d) then AdvanceLive(cfg, o, d) else o;
    CopiesTouchNoTimes(cfg, live, d);
    CopiesTouchNoTimes(cfg, if live.st.refreshPending then BufferDelta(live, d) else live, d);
  }

  /** A book that is not live takes no event. */
  lemma NotLiveTakesNothing(cfg: BookConfig, o: BookView, d: Delta)
    requires o.st.phase.InitPhase? || o.st.phase.InvalidPhase?
    ensures ApplyDelta(cfg, o, d) == (o, false)
  {
  }

  /** Without a held snapshot an event refreshes and fails nothing; while a refresh is under
      way a copy of every event that is not refused is buffered. */
  lemma EventIsBuffered(cfg: BookConfig, o: BookView, d: Delta)
    requires ApplyDelta(cfg, o, d).1 && |o.st.buffer| < 1000
    ensures var w := ApplyDelta(cfg, o, d).0;
      && w.st.buffer == (if o.st.refreshPending then o.st.buffer + [d] else o.st.buffer)
      && w.st.counters.bufferOverflows == o.st.counters.bufferOverflows
      && (!o.st.shadowPending ==>
            && w.st.counters.depthRefreshes == o.st.counters.depthRefreshes
            && w.st.counters.refreshFailures == o.st.counters.refreshFailures)
  {
    var live := if CheckSequence(cfg.sync, o.st.ids, d) == Apply then AdvanceLive(cfg, o, d) else o;
    var b := if live.st.refreshPending then BufferDelta(live, d) else live;
    ShadowBuffersNothing(cfg, b, d);
  }

  lemma ShadowBuffersNothing(cfg: BookConfig, o: BookView, d: Delta)
    ensures var w := StepShadow(cfg, o, d);
      w.st.buffer == o.st.buffer && w.st.counters.bufferOverflows == o.st.counters.bufferOverflows
  {
  }

  lemma {:induction false} ReplayRefreshesNothing(cfg: BookConfig, o: BookView, ds: seq<Delta>)
    requires !o.st.shadowPending
    ensures var w := Replay(cfg, o, ds).0;
      && !w.st.shadowPending
      && w.st.counters.depthRefreshes == o.st.counters.depthRefreshes
      && w.st.counters.refreshFailures == o.st.counters.refreshFailures
    decreases |ds|
  {
    if ds != [] && ApplyDelta(cfg, o, ds[0]).1 { ReplayRefreshesNothing(cfg, ApplyDelta(cfg, o, ds[0]).0, ds[1..]); }
  }

  /** A snapshot is counted as a refresh exactly when it was swapped in as one, and as a
      failed one exactly when it was given up. */
  lemma SnapshotIsCounted(cfg: BookConfig, o: BookView, id: int, bids: seq<Level>, asks: seq<Level>)
    requires !o.st.shadowPending && DistinctPrices(bids) && DistinctPrices(asks)
    ensures var (w, outcome) := OnSnapshot(cfg, o, id, bids, asks);
      && w.st.counters.depthRefreshes == o.st.counters.depthRefreshes + (if outcome.Refreshed? then 1 else 0)
      && w.st.counters.refreshFailures == o.st.counters.refreshFailures + (if outcome.RefreshFailed? then 1 else 0)
  {
    var o' := o.(st := o.st.(snapshotRequested := false, refreshPending := false));
    ReplayRefreshesNothing(cfg, LoadInitial(cfg, o', id, bids, asks), o.st.buffer);
  }

  /** Giving up a refresh ends it, drops its buffer and is counted; without one nothing
      happens. */
  lemma CancelledRefresh(o: BookView)
    ensures var w := CancelRefresh(o);
      if o.st.refreshPending then
        && !w.st.refreshPending && !w.st.snapshotRequested && w.st.buffer == [] && w.book == o.book
        && w.st.phase == o.st.phase && w.st.ids == o.st.ids
        && w.st.counters == o.st.counters.(refreshFailures := o.st.counters.refreshFailures + 1)
      else w == o
  {
  }

  /** A refresh begins with an empty buffer, waits for its snapshot and touches nothing else. */
  lemma StartedRefresh(o: BookView)
    ensures var w := BeginRefresh(o);
      && w.st.refreshPending && w.st.snapshotRequested && w.st.buffer == []
      && w.book == o.book && w.shadow == o.shadow && w.st.ids == o.st.ids && w.st.phase == o.st.phase
      && w.st.shadowPending == o.st.shadowPending && w.st.counters == o.st.counters && w.st.range == o.st.range
  {
  }

  /** A reset starts over and forgets nothing that has been counted or published. */
  lemma ResetBookStartsOver(o: BookView)
    ensures var w := Reset(o);
      && w.st.phase == InitPhase && w.book == EMPTY_BOOK && w.shadow == EMPTY_BOOK && w.st.buffer == []
      && !w.st.snapshotRequested && !w.st.refreshPending && !w.st.shadowPending && w.st.range.closed
      && w.st.counters == o.st.counters && w.st.lastPublished == o.st.lastPublished
  {
  }

  /** A quote carries the times of the book, and ids only if it is valid; the id of the
      event before only on futures. */
  lemma QuoteCarries(cfg: BookConfig, o: BookView, recvTimeNs: int, fhSeqNo: int)
    ensures var q := QuoteOf(cfg, o, recvTimeNs, fhSeqNo);
      && q.eventTimeMs == o.st.eventTimeMs && q.transactTimeMs == o.st.transactTimeMs
      && q.recvTimeNs == recvTimeNs && q.fhSeqNo == fhSeqNo
      && (q.isValid <==> o.st.phase.ValidPhase? && !TooShallow(cfg, o.book))
      && (q.isValid ==>
            && q.updateId == o.st.ids.lastId && q.firstUpdateId == o.st.range.firstU
            && q.prevUpdateId == if cfg.sync.Futures? then o.st.range.prevU else 0)
      && (!q.isValid ==> q.updateId == q.firstUpdateId == q.prevUpdateId == 0)
  {
  }
}
