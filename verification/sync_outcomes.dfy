/** What becomes of a snapshot, told from the update ids alone: which buffered events are
    older than it, which one bridges it, and whether the stream goes on without a hole.
  */
module SyncOutcomes {
  import opened PriceSide
  import opened OrderBooks
  import opened BookAgreement

  // ---------------------------------------------------------------- ids

  /** The event is no part of what happened after snapshot s. */
  predicate Older(sync: DepthSync, s: int, d: Delta) {
    match sync
    case Spot => d.finalUpdateId <= s
    case Futures => d.finalUpdateId < s && d.prevFinalUpdateId != s
  }

  /** The event leads from snapshot s into the stream. */
  predicate Bridges(sync: DepthSync, s: int, d: Delta) {
    match sync
    case Spot => d.firstUpdateId <= s + 1 <= d.finalUpdateId
    case Futures => d.prevFinalUpdateId == s || d.firstUpdateId <= s <= d.finalUpdateId
  }

  ghost predicate AllOlder(sync: DepthSync, s: int, ds: seq<Delta>) {
    forall i :: 0 <= i < |ds| ==> Older(sync, s, ds[i])
  }

  /** Event k is the first one that is not older. */
  ghost predicate Decides(sync: DepthSync, s: int, ds: seq<Delta>, k: int) {
    0 <= k < |ds| && AllOlder(sync, s, ds[..k]) && !Older(sync, s, ds[k])
  }

  /** No event of ds leaves a hole after id `last`: on futures each names the one before,
      on spot none begins past the highest id so far, unless it ends below it. */
  ghost predicate Unbroken(sync: DepthSync, last: int, ds: seq<Delta>)
    decreases |ds|
  {
    ds != [] ==>
      match sync
      case Futures => ds[0].prevFinalUpdateId == last && Unbroken(sync, ds[0].finalUpdateId, ds[1..])
      case Spot =>
        && (ds[0].finalUpdateId < last || ds[0].firstUpdateId <= last + 1)
        && Unbroken(sync, if ds[0].finalUpdateId < last then last else ds[0].finalUpdateId, ds[1..])
  }

  /** Where such a stream ends: on spot at its highest id. */
  ghost function EndOf(sync: DepthSync, last: int, ds: seq<Delta>): int
    decreases |ds|
  {
    if ds == [] then last
    else EndOf(sync, if sync.Spot? && ds[0].finalUpdateId < last then last else ds[0].finalUpdateId, ds[1..])
  }

  /** From the deciding event on, the stream continues the snapshot. */
  ghost predicate Joins(sync: DepthSync, s: int, ds: seq<Delta>, k: int)
    requires Decides(sync, s, ds, k)
  {
    Bridges(sync, s, ds[k]) && Unbroken(sync, ds[k].finalUpdateId, ds[k + 1..])
  }

  lemma {:induction false} FirstDecides(sync: DepthSync, s: int, ds: seq<Delta>) returns (k: int)
    requires !AllOlder(sync, s, ds)
    ensures Decides(sync, s, ds, k)
    decreases |ds|
  {
    if Older(sync, s, ds[0]) {
      assert ds == [ds[0]] + ds[1..];
      k := FirstDecides(sync, s, ds[1..]);
      assert ds[..k + 1] == [ds[0]] + ds[1..][..k];
      k := k + 1;
    } else {
      k := 0;
    }
  }

  lemma OlderInPrefix(sync: DepthSync, s: int, ds: seq<Delta>, k: int, j: int)
    requires 0 <= j < k <= |ds| && AllOlder(sync, s, ds[..k])
    ensures Older(sync, s, ds[j])
  {
    assert ds[..k][j] == ds[j];
  }

  lemma OlderDecidesNothing(sync: DepthSync, s: int, ds: seq<Delta>, k: int)
    requires AllOlder(sync, s, ds)
    ensures !Decides(sync, s, ds, k)
  {
  }

  lemma OneDecides(sync: DepthSync, s: int, ds: seq<Delta>, j: int, k: int)
    requires Decides(sync, s, ds, j) && Decides(sync, s, ds, k)
    ensures j == k
  {
    if j < k { OlderInPrefix(sync, s, ds, k, j); }
    if k < j { OlderInPrefix(sync, s, ds, j, k); }
  }

  // ---------------------------------------------------------------- one event

  /** The three verdicts on the first event after a snapshot, and the two on a later one. */
  lemma FirstEvent(sync: DepthSync, s: int, last: int, d: Delta)
    ensures var v := CheckSequence(sync, Sequencing(true, s, last), d);
      && (v == Skip <==> Older(sync, s, d))
      && (v == Apply <==> !Older(sync, s, d) && Bridges(sync, s, d))
  {
  }

  lemma LaterEvent(sync: DepthSync, s: int, last: int, d: Delta)
    ensures var v := CheckSequence(sync, Sequencing(false, s, last), d);
      && (v == Fail <==> !Unbroken(sync, last, [d]))
      && (v == Skip ==> sync == Spot && d.finalUpdateId < last)
      && (v == Apply ==> sync == Futures || d.finalUpdateId >= last)
  {
    assert [d][1..] == [];
  }

  lemma UnbrokenStep(sync: DepthSync, last: int, ds: seq<Delta>)
    requires ds != []
    ensures var next := EndOf(sync, last, [ds[0]]);
      && (Unbroken(sync, last, ds) <==> Unbroken(sync, last, [ds[0]]) && Unbroken(sync, next, ds[1..]))
      && EndOf(sync, last, ds) == EndOf(sync, next, ds[1..])
  {
    assert [ds[0]][1..] == [];
  }

  // ---------------------------------------------------------------- a rebuilt book

  lemma {:induction false} BridgedReplay(cfg: BookConfig, b: Book, ids: Sequencing, ds: seq<Delta>)
    requires !ids.needBridge
    ensures var r := Rebuild(cfg, b, ids, ds);
      && (r.failed <==> !Unbroken(cfg.sync, ids.lastId, ds))
      && (!r.failed ==> !r.ids.needBridge && r.ids.lastId == EndOf(cfg.sync, ids.lastId, ds))
    decreases |ds|
  {
    if ds != [] {
      LaterEvent(cfg.sync, ids.snapshotId, ids.lastId, ds[0]);
      UnbrokenStep(cfg.sync, ids.lastId, ds);
      match CheckSequence(cfg.sync, ids, ds[0]) {
        case Fail =>
        case Skip => BridgedReplay(cfg, b, ids, ds[1..]);
        case Apply => BridgedReplay(cfg, ApplyLevels(cfg, b, ds[0]), Advance(ids, ds[0]), ds[1..]);
      }
    }
  }

  lemma {:induction false} OlderReplay(cfg: BookConfig, b: Book, s: int, ds: seq<Delta>, k: nat)
    requires k <= |ds| && AllOlder(cfg.sync, s, ds[..k])
    ensures Rebuild(cfg, b, Sequencing(true, s, s), ds) == Rebuild(cfg, b, Sequencing(true, s, s), ds[k..])
    decreases k
  {
    if k > 0 {
      FirstEvent(cfg.sync, s, s, ds[0]);
      assert ds[..k][0] == ds[0];
      assert ds[1..][..k - 1] == ds[..k][1..];
      OlderReplay(cfg, b, s, ds[1..], k - 1);
      assert ds[1..][k - 1..] == ds[k..];
    } else {
      assert ds[0..] == ds;
    }
  }

  /** A snapshot replayed over any buffered events: it waits when all are older, else it
      fails exactly when the first that is not does not join it to the stream. */
  lemma RebuildOutcome(cfg: BookConfig, b: Book, s: int, ds: seq<Delta>)
    ensures var r := Rebuild(cfg, b, Sequencing(true, s, s), ds);
      && (!r.failed && r.ids.needBridge <==> AllOlder(cfg.sync, s, ds))
      && (AllOlder(cfg.sync, s, ds) ==> r.book == b && r.ids == Sequencing(true, s, s))
      && (forall k :: Decides(cfg.sync, s, ds, k) ==>
            && (r.failed <==> !Joins(cfg.sync, s, ds, k))
            && (!r.failed ==> r.ids.lastId == EndOf(cfg.sync, ds[k].finalUpdateId, ds[k + 1..])))
  {
    if AllOlder(cfg.sync, s, ds) {
      assert ds[..|ds|] == ds && ds[|ds|..] == [];
      OlderReplay(cfg, b, s, ds, |ds|);
      forall k ensures !Decides(cfg.sync, s, ds, k) { OlderDecidesNothing(cfg.sync, s, ds, k); }
    } else {
      var k := FirstDecides(cfg.sync, s, ds);
      DecidedRebuild(cfg, b, s, ds, k);
      forall j | Decides(cfg.sync, s, ds, j) ensures j == k { OneDecides(cfg.sync, s, ds, j, k); }
    }
  }

  lemma DecidedRebuild(cfg: BookConfig, b: Book, s: int, ds: seq<Delta>, k: int)
    requires Decides(cfg.sync, s, ds, k)
    ensures var r := Rebuild(cfg, b, Sequencing(true, s, s), ds);
      && (r.failed <==> !Joins(cfg.sync, s, ds, k))
      && (!r.failed ==> !r.ids.needBridge && r.ids.lastId == EndOf(cfg.sync, ds[k].finalUpdateId, ds[k + 1..]))
  {
    OlderReplay(cfg, b, s, ds, k);
    FirstEvent(cfg.sync, s, s, ds[k]);
    assert ds[k..][1..] == ds[k + 1..];
    BridgedReplay(cfg, ApplyLevels(cfg, b, ds[k]), Advance(Sequencing(true, s, s), ds[k]), ds[k + 1..]);
  }

  // ---------------------------------------------------------------- the initial sync

  /** A book that replays without a refresh under way. */
  ghost predicate Plain(o: BookView) {
    (o.st.phase.SyncingPhase? || o.st.phase.ValidPhase?) && !o.st.refreshPending && !o.st.shadowPending
  }

  /** Replaying on the live book is rebuilding another one. */
  lemma {:induction false} ReplayIsRebuild(cfg: BookConfig, o: BookView, ds: seq<Delta>)
    requires Plain(o) && (o.st.phase.ValidPhase? <==> !o.st.ids.needBridge)
    ensures var (o', ok) := Replay(cfg, o, ds);
      var r := Rebuild(cfg, o.book, o.st.ids, ds);
      && ok == !r.failed
      && (ok ==> Plain(o') && o'.book == r.book && o'.st.ids == r.ids
                 && (o'.st.phase.ValidPhase? <==> !r.ids.needBridge))
      && (!ok ==> o'.st.phase.InvalidPhase?)
    decreases |ds|
  {
    if ds != [] {
      var (o', ok) := ApplyDelta(cfg, o, ds[0]);
      if ok { ReplayIsRebuild(cfg, o', ds[1..]); }
    }
  }

  /** Main result: the first snapshot of a book, for any events buffered before it. The
      book waits for its bridge exactly when all of them are older than the snapshot. It
      is valid, at the end of the stream, exactly when the first that is not older joins
      the snapshot to the stream, and otherwise it must start over. */
  lemma InitialSync(cfg: BookConfig, o: BookView, s: int, bids: seq<Level>, asks: seq<Level>)
    requires o.st.phase.InitPhase? && !o.st.shadowPending && DistinctPrices(bids) && DistinctPrices(asks)
    ensures var (o', outcome) := OnSnapshot(cfg, o, s, bids, asks);
      var ds := o.st.buffer;
      && o'.st.buffer == [] && !o'.st.snapshotRequested
      && (AllOlder(cfg.sync, s, ds) ==>
            && outcome == AwaitingBridge && o'.st.phase == SyncingPhase && o'.st.ids == Sequencing(true, s, s)
            && o'.book == LoadBook(cfg, bids, asks))
      && (forall k :: Decides(cfg.sync, s, ds, k) ==>
            if Joins(cfg.sync, s, ds, k) then
              && outcome == Synced && o'.st.phase == ValidPhase
              && o'.st.ids.lastId == EndOf(cfg.sync, ds[k].finalUpdateId, ds[k + 1..])
            else outcome == SyncFailed && o'.st.phase == InvalidPhase)
  {
    var o1 := o.(st := o.st.(snapshotRequested := false, refreshPending := false));
    var start := LoadInitial(cfg, o1, s, bids, asks);
    ReplayIsRebuild(cfg, start, o.st.buffer);
    RebuildOutcome(cfg, LoadBook(cfg, bids, asks), s, o.st.buffer);
    SyncReplays(cfg, o, s, bids, asks);
    if AllOlder(cfg.sync, s, o.st.buffer) {
      forall k ensures !Decides(cfg.sync, s, o.st.buffer, k) { OlderDecidesNothing(cfg.sync, s, o.st.buffer, k); }
    }
  }

  lemma SyncReplays(cfg: BookConfig, o: BookView, s: int, bids: seq<Level>, asks: seq<Level>)
    requires o.st.phase.InitPhase? && DistinctPrices(bids) && DistinctPrices(asks)
    ensures var (o', outcome) := OnSnapshot(cfg, o, s, bids, asks);
      var o1 := o.(st := o.st.(snapshotRequested := false, refreshPending := false));
      var (r, ok) := Replay(cfg, LoadInitial(cfg, o1, s, bids, asks), o.st.buffer);
      && o' == r.(st := r.st.(buffer := []))
      && outcome == (if !ok then SyncFailed else if r.st.phase.ValidPhase? then Synced else AwaitingBridge)
      && !r.st.snapshotRequested
  {
    var o1 := o.(st := o.st.(snapshotRequested := false, refreshPending := false));
    ReplayRequestsNothing(cfg, LoadInitial(cfg, o1, s, bids, asks), o.st.buffer);
  }

  lemma {:induction false} ReplayRequestsNothing(cfg: BookConfig, o: BookView, ds: seq<Delta>)
    ensures Replay(cfg, o, ds).0.st.snapshotRequested == o.st.snapshotRequested
    decreases |ds|
  {
    if ds != [] {
      DeltaRequestsNothing(cfg, o, ds[0]);
      if ApplyDelta(cfg, o, ds[0]).1 { ReplayRequestsNothing(cfg, ApplyDelta(cfg, o, ds[0]).0, ds[1..]); }
    }
  }

  lemma DeltaRequestsNothing(cfg: BookConfig, o: BookView, d: Delta)
    ensures ApplyDelta(cfg, o, d).0.st.snapshotRequested == o.st.snapshotRequested
  {
  }

  // ---------------------------------------------------------------- a stream without holes

  /** Each event begins where the one before ended. */
  ghost predicate Gapless(sync: DepthSync, ds: seq<Delta>) {
    && (forall i :: 0 <= i < |ds| ==> ds[i].firstUpdateId <= ds[i].finalUpdateId)
    && (forall i :: 0 <= i < |ds| ==> ds[i].prevFinalUpdateId < ds[i].firstUpdateId)
    && (forall i :: 0 < i < |ds| ==> ComesNext(sync, ds[i - 1], ds[i]))
  }

  predicate ComesNext(sync: DepthSync, d: Delta, e: Delta) {
    match sync
    case Spot => e.firstUpdateId == d.finalUpdateId + 1
    case Futures => e.prevFinalUpdateId == d.finalUpdateId
  }

  lemma {:induction false} GaplessIsUnbroken(sync: DepthSync, ds: seq<Delta>, k: nat)
    requires Gapless(sync, ds) && k < |ds|
    ensures Unbroken(sync, ds[k].finalUpdateId, ds[k + 1..])
    ensures EndOf(sync, ds[k].finalUpdateId, ds[k + 1..]) == ds[|ds| - 1].finalUpdateId
    decreases |ds| - k
  {
    if k + 1 < |ds| {
      GaplessIsUnbroken(sync, ds, k + 1);
      assert ds[k + 1..][0] == ds[k + 1] && ds[k + 1..][1..] == ds[k + 2..];
    }
  }

  lemma {:induction false} FinalIdsGrow(sync: DepthSync, ds: seq<Delta>, i: nat, j: nat)
    requires Gapless(sync, ds) && i < j < |ds|
    ensures ds[i].finalUpdateId < ds[j].firstUpdateId
    decreases j
  {
    if i < j - 1 { FinalIdsGrow(sync, ds, i, j - 1); }
  }

  lemma BridgeIsNotOlder(sync: DepthSync, s: int, ds: seq<Delta>, j: nat)
    requires Gapless(sync, ds) && j < |ds| && Bridges(sync, s, ds[j])
    ensures !Older(sync, s, ds[j])
  {
  }

  /** In such a stream the event that bridges comes first, or the one right before does. */
  lemma BridgeDecides(sync: DepthSync, s: int, ds: seq<Delta>, j: nat, k: int)
    requires Gapless(sync, ds) && j < |ds| && Bridges(sync, s, ds[j]) && Decides(sync, s, ds, k)
    ensures Bridges(sync, s, ds[k])
  {
    if j < k {
      BridgeIsNotOlder(sync, s, ds, j);
      OlderInPrefix(sync, s, ds, k, j);
    } else if k < j {
      FinalIdsGrow(sync, ds, k, j);
      if k < j - 1 { FinalIdsGrow(sync, ds, k, j - 1); }
    }
  }

  /** Main result, for a buffer without holes: the book is valid at the last buffered id
      if and only if one of the events bridges the snapshot; it waits if and only if
      every event is older; and it fails if and only if the stream begins too late. */
  lemma StreamSync(cfg: BookConfig, o: BookView, s: int, bids: seq<Level>, asks: seq<Level>)
    requires o.st.phase.InitPhase? && !o.st.shadowPending && DistinctPrices(bids) && DistinctPrices(asks)
    requires Gapless(cfg.sync, o.st.buffer)
    ensures var (o', outcome) := OnSnapshot(cfg, o, s, bids, asks);
      var ds := o.st.buffer;
      && (outcome == Synced <==> exists j :: 0 <= j < |ds| && Bridges(cfg.sync, s, ds[j]))
      && (outcome == AwaitingBridge <==> AllOlder(cfg.sync, s, ds))
      && (outcome == Synced || outcome == AwaitingBridge || outcome == SyncFailed)
      && (outcome == Synced ==> o'.st.phase == ValidPhase && o'.st.ids.lastId == ds[|ds| - 1].finalUpdateId)
  {
    var ds := o.st.buffer;
    InitialSync(cfg, o, s, bids, asks);
    if AllOlder(cfg.sync, s, ds) {
      forall j | 0 <= j < |ds| ensures !Bridges(cfg.sync, s, ds[j]) {
        if Bridges(cfg.sync, s, ds[j]) { BridgeIsNotOlder(cfg.sync, s, ds, j); }
      }
    } else {
      var k := FirstDecides(cfg.sync, s, ds);
      GaplessIsUnbroken(cfg.sync, ds, k);
      if j :| 0 <= j < |ds| && Bridges(cfg.sync, s, ds[j]) { BridgeDecides(cfg.sync, s, ds, j, k); }
    }
  }

  // ---------------------------------------------------------------- later events

  /** Main result: a valid book refuses an event exactly when it leaves a hole, and then
      has to start over. Otherwise it stays valid, and an event that is not late takes it
      to its own final id, refresh or no refresh. */
  lemma ValidBookFollows(cfg: BookConfig, o: BookView, d: Delta)
    requires o.st.phase.ValidPhase? && !o.st.ids.needBridge
    ensures var (o', ok) := ApplyDelta(cfg, o, d);
      && (ok <==> match cfg.sync
                  case Spot => d.finalUpdateId < o.st.ids.lastId || d.firstUpdateId <= o.st.ids.lastId + 1
                  case Futures => d.prevFinalUpdateId == o.st.ids.lastId)
      && (if ok then o'.st.phase == ValidPhase else o'.st.phase == InvalidPhase)
      && (ok && (cfg.sync == Futures || d.finalUpdateId >= o.st.ids.lastId) ==> o'.st.ids.lastId == d.finalUpdateId)
  {
  }

  /** A book that waits for its bridge. */
  lemma WaitingBookBridges(cfg: BookConfig, o: BookView, d: Delta)
    requires o.st.phase.SyncingPhase? && AtSnapshot(o.st.ids) && !o.st.shadowPending
    ensures var (o', ok) := ApplyDelta(cfg, o, d);
      var s := o.st.ids.snapshotId;
      if Older(cfg.sync, s, d) then ok && o'.st.phase == SyncingPhase && o'.st.ids == o.st.ids && o'.book == o.book
      else if Bridges(cfg.sync, s, d) then ok && o'.st.phase == ValidPhase && o'.st.ids.lastId == d.finalUpdateId
      else !ok && o'.st.phase == InvalidPhase
  {
    FirstEvent(cfg.sync, o.st.ids.snapshotId, o.st.ids.lastId, d);
  }

  // ---------------------------------------------------------------- a refresh

  /** Main result: a refresh snapshot. Over any events buffered since it was asked for,
      it is swapped in when one joins it to the stream, or when it is exactly where the
      live book is; it is held when it is ahead of them all; and it is given up exactly
      when there is a hole. */
  lemma RefreshOutcome(cfg: BookConfig, o: BookView, s: int, bids: seq<Level>, asks: seq<Level>)
    requires o.st.phase.ValidPhase? && o.st.refreshPending && DistinctPrices(bids) && DistinctPrices(asks)
    ensures var (o', outcome) := OnSnapshot(cfg, o, s, bids, asks);
      var ds := o.st.buffer;
      && !o'.st.refreshPending && !o'.st.snapshotRequested && o'.st.buffer == []
      && (AllOlder(cfg.sync, s, ds) ==>
            if s == o.st.ids.lastId then
              outcome == Refreshed && o'.book == LoadBook(cfg, bids, asks) && o'.st.ids == o.st.ids
            else
              && outcome == RefreshAwaitingBridge && o'.book == o.book && o'.st.ids == o.st.ids
              && o'.st.shadowPending && o'.shadow == LoadBook(cfg, bids, asks)
              && o'.st.shadowIds == Sequencing(true, s, s))
      && (forall k :: Decides(cfg.sync, s, ds, k) ==>
            if Joins(cfg.sync, s, ds, k) then
              outcome == Refreshed && o'.st.ids.lastId == EndOf(cfg.sync, ds[k].finalUpdateId, ds[k + 1..])
            else outcome == RefreshFailed && o'.book == o.book && o'.st.ids == o.st.ids)
  {
    RebuildOutcome(cfg, LoadBook(cfg, bids, asks), s, o.st.buffer);
    if AllOlder(cfg.sync, s, o.st.buffer) {
      forall k ensures !Decides(cfg.sync, s, o.st.buffer, k) { OlderDecidesNothing(cfg.sync, s, o.st.buffer, k); }
    }
  }

  /** A held refresh snapshot: swapped in by the event that bridges it, at that event's
      final id; given up at a hole; and left alone by an older event. */
  lemma HeldSnapshot(cfg: BookConfig, o: BookView, d: Delta)
    requires o.st.phase.ValidPhase? && !o.st.ids.needBridge && o.st.shadowPending && AtSnapshot(o.st.shadowIds)
    requires ApplyDelta(cfg, o, d).1
    ensures var o' := ApplyDelta(cfg, o, d).0;
      var s := o.st.shadowIds.snapshotId;
      if Older(cfg.sync, s, d) then o'.st.shadowPending && o'.shadow == o.shadow && o'.st.shadowIds == o.st.shadowIds
      else if Bridges(cfg.sync, s, d) then
        && !o'.st.shadowPending && o'.book == ApplyLevels(cfg, o.shadow, d) && o'.st.ids.lastId == d.finalUpdateId
        && o'.st.counters.depthRefreshes == o.st.counters.depthRefreshes + 1
      else
        && !o'.st.shadowPending && o'.st.counters.refreshFailures == o.st.counters.refreshFailures + 1
        && o'.st.counters.depthRefreshes == o.st.counters.depthRefreshes
  {
    var live := if CheckSequence(cfg.sync, o.st.ids, d) == Apply then AdvanceLive(cfg, o, d) else o;
    HeldCopy(cfg, if live.st.refreshPending then BufferDelta(live, d) else live, d);
  }

  lemma HeldCopy(cfg: BookConfig, o: BookView, d: Delta)
    requires o.st.shadowPending && AtSnapshot(o.st.shadowIds)
    ensures var o' := StepShadow(cfg, o, d);
      var s := o.st.shadowIds.snapshotId;
      if Older(cfg.sync, s, d) then o' == o
      else if Bridges(cfg.sync, s, d) then
        && !o'.st.shadowPending && o'.book == ApplyLevels(cfg, o.shadow, d) && o'.st.ids.lastId == d.finalUpdateId
        && o'.st.counters.depthRefreshes == o.st.counters.depthRefreshes + 1
      else
        && !o'.st.shadowPending && o'.st.counters.refreshFailures == o.st.counters.refreshFailures + 1
        && o'.st.counters.depthRefreshes == o.st.counters.depthRefreshes
  {
    FirstEvent(cfg.sync, o.st.shadowIds.snapshotId, o.st.shadowIds.lastId, d);
  }
}
