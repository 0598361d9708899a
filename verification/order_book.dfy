/** The local order book of one symbol (cpp/include/order_book_manager.hpp).

    `BookView` is the abstract state of the book and the functions over it say
    what each operation does to that state. Class `OrderBook` is the program:
    two vectors per side, updated in place, proved to follow those functions.
    What the functions guarantee over whole runs is proved in modules
    BookAgreement and BookRefresh.
  */
module OrderBooks {
  import opened PriceSide

  datatype DepthSync = Spot | Futures

  datatype BookSizing = BookSizing(
    depth: nat,            // levels published per side
    snapshotLimit: nat,    // size of a snapshot, levels a side
    refreshLowWater: nat,  // a shorter side wants a refresh
    maxLevels: nat,        // at most this many levels a side
    sync: DepthSync)

  type BookConfig = c: BookSizing | c.maxLevels >= 1 && c.snapshotLimit >= 1
    witness BookSizing(5, 1000, 500, 4000, Spot)

  const MAX_DELTA_BUFFER_SIZE: nat := 1000

  datatype Delta = Delta(
    firstUpdateId: int,       // U
    finalUpdateId: int,       // u
    prevFinalUpdateId: int,   // pu, the final id one event earlier (futures only)
    eventTimeMs: int,
    transactTimeMs: int,
    bids: seq<Level>,
    asks: seq<Level>)

  datatype Phase = InitPhase | SyncingPhase | ValidPhase | InvalidPhase

  datatype SnapshotOutcome =
    | Synced | AwaitingBridge | SyncFailed
    | Refreshed | RefreshAwaitingBridge | RefreshFailed
    | Ignored

  datatype Quote = Quote(
    bids: seq<Level>,       // best to worst; a slot without a level is 0/0
    asks: seq<Level>,
    isValid: bool,
    eventTimeMs: int,
    transactTimeMs: int,
    recvTimeNs: int,
    fhSeqNo: int,
    firstUpdateId: int,
    updateId: int,
    prevUpdateId: int)

  // ---------------------------------------------------------------- sequencing

  datatype Sequencing = Sequencing(needBridge: bool, snapshotId: int, lastId: int)

  datatype Verdict = Skip | Apply | Fail

  /** Whether d can be applied by a book that is at s. */
  function CheckSequence(sync: DepthSync, s: Sequencing, d: Delta): Verdict {
    match sync
    case Futures =>
      if s.needBridge then
        if d.prevFinalUpdateId == s.snapshotId then Apply
        else if d.finalUpdateId < s.snapshotId then Skip
        else if d.firstUpdateId > s.snapshotId then Fail
        else Apply
      else if d.prevFinalUpdateId == s.lastId then Apply
      else Fail
    case Spot =>
      if s.needBridge then
        if d.finalUpdateId < s.snapshotId + 1 then Skip
        else if d.firstUpdateId > s.snapshotId + 1 then Fail
        else Apply
      else if d.finalUpdateId < s.lastId then Skip
      else if d.firstUpdateId > s.lastId + 1 then Fail
      else Apply
  }

  function Advance(s: Sequencing, d: Delta): Sequencing {
    s.(needBridge := false, lastId := d.finalUpdateId)
  }

  // ---------------------------------------------------------------- abstract state

  datatype Book = Book(bid: Known, ask: Known)

  ghost const EMPTY_BOOK := Book(NOTHING_KNOWN, NOTHING_KNOWN)

  const NO_SEQUENCE := Sequencing(false, 0, 0)

  /** The ids that the next row will cover: all events since the row before. */
  datatype IdRange = IdRange(firstU: int, prevU: int, closed: bool)

  datatype Counters = Counters(
    bufferOverflows: nat, depthRefreshes: nat, refreshFailures: nat, depthExhausted: nat)

  datatype Published = Nothing | Row(quote: Quote)

  /** Everything about the book except its price levels. */
  datatype Status = Status(
    ids: Sequencing,
    phase: Phase,
    eventTimeMs: int,
    transactTimeMs: int,
    buffer: seq<Delta>,
    snapshotRequested: bool,
    refreshPending: bool,
    wasExhausted: bool,
    shadowIds: Sequencing,
    shadowPending: bool,
    range: IdRange,
    counters: Counters,
    lastPublished: Published)

  const INITIAL_STATUS := Status(NO_SEQUENCE, InitPhase, 0, 0, [], false, false, false,
                                 NO_SEQUENCE, false, IdRange(0, 0, true), Counters(0, 0, 0, 0), Nothing)

  /** The live book, the shadow book of a refresh, and the rest. */
  datatype BookView = BookView(book: Book, shadow: Book, st: Status)

  ghost const INITIAL_BOOK := BookView(EMPTY_BOOK, EMPTY_BOOK, INITIAL_STATUS)

  // ---------------------------------------------------------------- operations on the abstract state

  ghost function ApplyLevels(cfg: BookConfig, b: Book, d: Delta): Book {
    Book(UpdateAll(true, b.bid, d.bids, cfg.maxLevels), UpdateAll(false, b.ask, d.asks, cfg.maxLevels))
  }

  ghost function LoadBook(cfg: BookConfig, bids: seq<Level>, asks: seq<Level>): Book
    requires DistinctPrices(bids) && DistinctPrices(asks)
  {
    Book(Load(true, bids, cfg.snapshotLimit, cfg.maxLevels), Load(false, asks, cfg.snapshotLimit, cfg.maxLevels))
  }

  /** The top `depth` levels cannot be guaranteed on one of the sides. */
  ghost predicate DepthExhausted(cfg: BookConfig, b: Book) {
    Below(b.bid, cfg.depth) || Below(b.ask, cfg.depth)
  }

  ghost predicate WantsRefresh(cfg: BookConfig, o: BookView) {
    && o.st.phase.ValidPhase? && !o.st.refreshPending && !o.st.shadowPending
    && (Below(o.book.bid, cfg.refreshLowWater) || Below(o.book.ask, cfg.refreshLowWater))
  }

  ghost function BeginRefresh(o: BookView): BookView {
    o.(st := o.st.(refreshPending := true, snapshotRequested := true, buffer := []))
  }

  function CountRefreshFailure(st: Status): Status {
    st.(counters := st.counters.(refreshFailures := st.counters.refreshFailures + 1))
  }

  ghost function CancelRefresh(o: BookView): BookView {
    if !o.st.refreshPending then o
    else o.(st := CountRefreshFailure(o.st).(refreshPending := false, snapshotRequested := false, buffer := []))
  }

  ghost function SetSnapshotRequested(o: BookView, requested: bool): BookView {
    o.(st := o.st.(snapshotRequested := requested))
  }

  ghost function BufferDelta(o: BookView, d: Delta): BookView {
    var buf := o.st.buffer + [d];
    if |buf| > MAX_DELTA_BUFFER_SIZE then
      o.(st := o.st.(buffer := buf[1..],
                     counters := o.st.counters.(bufferOverflows := o.st.counters.bufferOverflows + 1)))
    else o.(st := o.st.(buffer := buf))
  }

  /** The effect of an event the sequencing rule accepts. */
  ghost function AdvanceLive(cfg: BookConfig, o: BookView, d: Delta): BookView {
    var b := ApplyLevels(cfg, o.book, d);
    var exhausted := DepthExhausted(cfg, b);
    o.(book := b,
       st := o.st.(
         ids := Advance(o.st.ids, d),
         range := if o.st.range.closed then IdRange(d.firstUpdateId, d.prevFinalUpdateId, false) else o.st.range,
         eventTimeMs := d.eventTimeMs,
         transactTimeMs := d.transactTimeMs,
         phase := ValidPhase,
         wasExhausted := exhausted,
         counters := if exhausted && !o.st.wasExhausted
           then o.st.counters.(depthExhausted := o.st.counters.depthExhausted + 1) else o.st.counters))
  }

  ghost function SwapIn(cfg: BookConfig, o: BookView, b: Book, ids: Sequencing): BookView {
    o.(book := b,
       st := o.st.(ids := ids, wasExhausted := DepthExhausted(cfg, b),
                   counters := o.st.counters.(depthRefreshes := o.st.counters.depthRefreshes + 1)))
  }

  ghost function DropShadow(o: BookView): BookView {
    o.(shadow := EMPTY_BOOK, st := o.st.(shadowIds := NO_SEQUENCE, shadowPending := false))
  }

  /** A refresh snapshot that was ahead of the stream sees the event too. */
  ghost function StepShadow(cfg: BookConfig, o: BookView, d: Delta): BookView {
    if !o.st.shadowPending then o
    else match CheckSequence(cfg.sync, o.st.shadowIds, d)
      case Skip => o
      case Fail => DropShadow(o.(st := CountRefreshFailure(o.st)))
      case Apply => DropShadow(SwapIn(cfg, o, ApplyLevels(cfg, o.shadow, d), Advance(o.st.shadowIds, d)))
  }

  ghost function ApplyDelta(cfg: BookConfig, o: BookView, d: Delta): (BookView, bool) {
    if !o.st.phase.SyncingPhase? && !o.st.phase.ValidPhase? then (o, false)
    else
      var v := CheckSequence(cfg.sync, o.st.ids, d);
      if v.Fail? then (Invalidate(o), false)
      else
        var live := if v.Apply? then AdvanceLive(cfg, o, d) else o;
        var buffered := if live.st.refreshPending then BufferDelta(live, d) else live;
        (StepShadow(cfg, buffered, d), true)
  }

  ghost function Invalidate(o: BookView): BookView {
    o.(st := o.st.(phase := InvalidPhase))
  }

  ghost function Replay(cfg: BookConfig, o: BookView, ds: seq<Delta>): (BookView, bool)
    decreases |ds|
  {
    if ds == [] then (o, true)
    else
      var (o', ok) := ApplyDelta(cfg, o, ds[0]);
      if ok then Replay(cfg, o', ds[1..]) else (o', false)
  }

  datatype Rebuilt = Rebuilt(book: Book, ids: Sequencing, failed: bool)

  ghost function Rebuild(cfg: BookConfig, b: Book, ids: Sequencing, ds: seq<Delta>): Rebuilt
    decreases |ds|
  {
    if ds == [] then Rebuilt(b, ids, false)
    else match CheckSequence(cfg.sync, ids, ds[0])
      case Fail => Rebuilt(b, ids, true)
      case Skip => Rebuild(cfg, b, ids, ds[1..])
      case Apply => Rebuild(cfg, ApplyLevels(cfg, b, ds[0]), Advance(ids, ds[0]), ds[1..])
  }

  ghost function FinishRefresh(cfg: BookConfig, o: BookView, id: int, bids: seq<Level>, asks: seq<Level>)
    : (BookView, SnapshotOutcome)
    requires DistinctPrices(bids) && DistinctPrices(asks)
  {
    var r := Rebuild(cfg, LoadBook(cfg, bids, asks), Sequencing(true, id, id), o.st.buffer);
    var o' := o.(st := o.st.(refreshPending := false, buffer := []));
    if r.failed then
      (o'.(st := CountRefreshFailure(o'.st)), RefreshFailed)
    else if !r.ids.needBridge then
      (SwapIn(cfg, o', r.book, r.ids), Refreshed)
    else if id == o.st.ids.lastId then
      (SwapIn(cfg, o', r.book, o.st.ids), Refreshed)
    else
      (o'.(shadow := r.book, st := o'.st.(shadowIds := r.ids, shadowPending := true)), RefreshAwaitingBridge)
  }

  ghost function LoadInitial(cfg: BookConfig, o: BookView, id: int, bids: seq<Level>, asks: seq<Level>): BookView
    requires DistinctPrices(bids) && DistinctPrices(asks)
  {
    o.(book := LoadBook(cfg, bids, asks),
       st := o.st.(ids := Sequencing(true, id, id), phase := SyncingPhase, wasExhausted := false))
  }

  ghost function OnSnapshot(cfg: BookConfig, o: BookView, id: int, bids: seq<Level>, asks: seq<Level>)
    : (BookView, SnapshotOutcome)
    requires DistinctPrices(bids) && DistinctPrices(asks)
  {
    if o.st.phase.ValidPhase? && o.st.refreshPending then
      FinishRefresh(cfg, SetSnapshotRequested(o, false), id, bids, asks)
    else
      var o' := o.(st := o.st.(snapshotRequested := false, refreshPending := false));
      if !o.st.phase.InitPhase? then (o', Ignored)
      else
        var (r, ok) := Replay(cfg, LoadInitial(cfg, o', id, bids, asks), o'.st.buffer);
        (r.(st := r.st.(buffer := [])),
         if !ok then SyncFailed else if r.st.phase.ValidPhase? then Synced else AwaitingBridge)
  }

  ghost function Reset(o: BookView): BookView {
    INITIAL_BOOK.(st := INITIAL_STATUS.(counters := o.st.counters, lastPublished := o.st.lastPublished))
  }

  ghost function QuoteOf(cfg: BookConfig, o: BookView, recvTimeNs: int, fhSeqNo: int): Quote {
    var valid := o.st.phase.ValidPhase? && !DepthExhausted(cfg, o.book);
    var shown := valid || o.st.phase.SyncingPhase?;
    Quote(if shown then TopN(true, o.book.bid.levels, cfg.depth) else NoRows(cfg.depth),
          if shown then TopN(false, o.book.ask.levels, cfg.depth) else NoRows(cfg.depth),
          valid, o.st.eventTimeMs, o.st.transactTimeMs, recvTimeNs, fhSeqNo,
          if valid then o.st.range.firstU else 0,
          if valid then o.st.ids.lastId else 0,
          if valid && cfg.sync.Futures? then o.st.range.prevU else 0)
  }

  function NoRows(depth: nat): seq<Level> {
    seq(depth, _ => Level(0, 0))
  }

  predicate SamePrices(a: Quote, b: Quote) {
    a.bids == b.bids && a.asks == b.asks
  }

  /** First row, validity change, price change or heartbeat; `due` says whether
      the heartbeat interval has passed since the last published row. */
  predicate ShouldPublish(last: Published, q: Quote, due: bool) {
    match last
    case Nothing => true
    case Row(p) =>
      if q.isValid != p.isValid then true
      else if !q.isValid then false
      else !SamePrices(q, p) || due
  }

  ghost function RecordPublish(o: BookView, q: Quote): BookView {
    o.(st := o.st.(lastPublished := Row(q), range := o.st.range.(closed := true)))
  }

  // ---------------------------------------------------------------- the program

  /** The two sides of one book. */
  class LocalBook {
    const bid: Side
    const ask: Side

    ghost predicate Valid()
      reads bid, ask
    {
      bid != ask && bid.isBid && !ask.isBid && bid.Valid() && ask.Valid()
    }

    ghost function View(): Book
      requires Valid()
      reads bid, ask
    {
      Book(bid.View(), ask.View())
    }

    constructor ()
      ensures Valid() && fresh(bid) && fresh(ask) && View() == EMPTY_BOOK
    {
      bid := new Side(true);
      ask := new Side(false);
    }

    method Apply(cfg: BookConfig, d: Delta)
      requires Valid()
      modifies bid, ask
      ensures Valid() && View() == ApplyLevels(cfg, old(View()), d)
    {
      bid.ApplyAll(d.bids, cfg.maxLevels);
      ask.ApplyAll(d.asks, cfg.maxLevels);
    }

    method LoadSnapshot(cfg: BookConfig, bids: seq<Level>, asks: seq<Level>)
      requires Valid() && DistinctPrices(bids) && DistinctPrices(asks)
      modifies bid, ask
      ensures Valid() && View() == LoadBook(cfg, bids, asks)
    {
      bid.LoadSnapshot(bids, cfg.snapshotLimit, cfg.maxLevels);
      ask.LoadSnapshot(asks, cfg.snapshotLimit, cfg.maxLevels);
    }

    method Clear()
      requires Valid()
      modifies bid, ask
      ensures Valid() && View() == EMPTY_BOOK
    {
      bid.Clear();
      ask.Clear();
    }

    method TakeFrom(other: LocalBook)
      requires Valid() && other.Valid() && {bid, ask} !! {other.bid, other.ask}
      modifies bid, ask
      ensures Valid() && View() == old(other.View())
    {
      bid.TakeFrom(other.bid);
      ask.TakeFrom(other.ask);
    }

    method IsBelow(n: nat) returns (below: bool)
      requires Valid()
      ensures below == (Below(View().bid, n) || Below(View().ask, n))
    {
      var b := bid.IsBelow(n);
      var a := ask.IsBelow(n);
      below := b || a;
    }
  }

  class OrderBook {
    const cfg: BookConfig
    const live: LocalBook
    const shadow: LocalBook
    var st: Status

    ghost function Repr(): set<object> {
      {this, live.bid, live.ask, shadow.bid, shadow.ask}
    }

    ghost predicate Valid()
      reads this, live.bid, live.ask, shadow.bid, shadow.ask
    {
      && live.Valid() && shadow.Valid()
      && {live.bid, live.ask} !! {shadow.bid, shadow.ask}
    }

    ghost function View(): BookView
      requires Valid()
      reads this, live.bid, live.ask, shadow.bid, shadow.ask
    {
      BookView(live.View(), shadow.View(), st)
    }

    /** A low-water mark above half a snapshot is lowered to that. */
    constructor (sizing: BookConfig)
      ensures Valid() && fresh(Repr()) && View() == INITIAL_BOOK
      ensures cfg == sizing.(refreshLowWater := cfg.refreshLowWater)
      ensures cfg.refreshLowWater <= sizing.refreshLowWater && cfg.refreshLowWater <= sizing.snapshotLimit / 2
      ensures cfg.refreshLowWater == sizing.refreshLowWater || cfg.refreshLowWater == sizing.snapshotLimit / 2
    {
      cfg := if sizing.refreshLowWater > sizing.snapshotLimit / 2
             then sizing.(refreshLowWater := sizing.snapshotLimit / 2) else sizing;
      live := new LocalBook();
      shadow := new LocalBook();
      st := INITIAL_STATUS;
    }

    method RefreshWanted() returns (wanted: bool)
      requires Valid()
      ensures wanted == WantsRefresh(cfg, View())
    {
      var low := live.IsBelow(cfg.refreshLowWater);
      wanted := st.phase == ValidPhase && !st.refreshPending && !st.shadowPending && low;
    }

    method StartRefresh()
      requires Valid()
      modifies this`st
      ensures Valid() && View() == BeginRefresh(old(View()))
    {
      st := st.(refreshPending := true, snapshotRequested := true, buffer := []);
    }

    method AbandonRefresh()
      requires Valid()
      modifies this`st
      ensures Valid() && View() == CancelRefresh(old(View()))
    {
      if st.refreshPending {
        st := CountRefreshFailure(st).(refreshPending := false, snapshotRequested := false, buffer := []);
      }
    }

    method NoteSnapshotRequested(requested: bool)
      requires Valid()
      modifies this`st
      ensures Valid() && View() == SetSnapshotRequested(old(View()), requested)
    {
      st := st.(snapshotRequested := requested);
    }

    method Buffer(d: Delta) returns (kept: bool)
      requires Valid()
      modifies this`st
      ensures Valid() && View() == BufferDelta(old(View()), d)
      ensures kept == (|old(st).buffer| < MAX_DELTA_BUFFER_SIZE)
    {
      st := st.(buffer := st.buffer + [d]);
      kept := |st.buffer| <= MAX_DELTA_BUFFER_SIZE;
      if !kept {
        st := st.(buffer := st.buffer[1..],
                  counters := st.counters.(bufferOverflows := st.counters.bufferOverflows + 1));
      }
    }

    method ApplyLive(d: Delta)
      requires Valid()
      modifies this`st, live.bid, live.ask
      ensures Valid() && View() == AdvanceLive(cfg, old(View()), d)
    {
      live.Apply(cfg, d);
      var exhausted := live.IsBelow(cfg.depth);
      var counters := if exhausted && !st.wasExhausted
        then st.counters.(depthExhausted := st.counters.depthExhausted + 1) else st.counters;
      var range := if st.range.closed
        then IdRange(d.firstUpdateId, d.prevFinalUpdateId, false) else st.range;
      st := st.(ids := Advance(st.ids, d), range := range, eventTimeMs := d.eventTimeMs,
                transactTimeMs := d.transactTimeMs, phase := ValidPhase, wasExhausted := exhausted,
                counters := counters);
    }

    method ApplyShadow(d: Delta)
      requires Valid()
      modifies Repr()
      ensures Valid() && View() == StepShadow(cfg, old(View()), d)
    {
      if !st.shadowPending { return; }
      match CheckSequence(cfg.sync, st.shadowIds, d) {
        case Skip => return;
        case Fail =>
          st := CountRefreshFailure(st);
        case Apply =>
          shadow.Apply(cfg, d);
          PromoteBook(shadow, Advance(st.shadowIds, d));
      }
      shadow.Clear();
      st := st.(shadowIds := NO_SEQUENCE, shadowPending := false);
    }

    /** Make the contents of b the live book. */
    method PromoteBook(b: LocalBook, ids: Sequencing)
      requires Valid() && b.Valid() && {live.bid, live.ask} !! {b.bid, b.ask}
      modifies this`st, live.bid, live.ask
      ensures Valid() && View() == SwapIn(cfg, old(View()), old(b.View()), ids)
    {
      live.TakeFrom(b);
      var exhausted := live.IsBelow(cfg.depth);
      st := st.(ids := ids, wasExhausted := exhausted,
                counters := st.counters.(depthRefreshes := st.counters.depthRefreshes + 1));
    }

    method ApplyEvent(d: Delta) returns (ok: bool)
      requires Valid()
      modifies Repr()
      ensures Valid() && (View(), ok) == ApplyDelta(cfg, old(View()), d)
    {
      if st.phase != SyncingPhase && st.phase != ValidPhase { return false; }
      var v := CheckSequence(cfg.sync, st.ids, d);
      if v == Fail {
        st := st.(phase := InvalidPhase);
        return false;
      }
      if v == Apply { ApplyLive(d); }
      if st.refreshPending {
        var kept := Buffer(d);
      }
      ApplyShadow(d);
      ok := true;
    }

    /** Replay the buffered events on a book under construction. */
    method RebuildFromBuffer(b: LocalBook, start: Sequencing) returns (ids: Sequencing, failed: bool)
      requires b.Valid()
      modifies b.bid, b.ask
      ensures b.Valid()
      ensures Rebuilt(b.View(), ids, failed) == Rebuild(cfg, old(b.View()), start, st.buffer)
    {
      ids, failed := start, false;
      ghost var all := Rebuild(cfg, b.View(), start, st.buffer);
      var i, ds := 0, st.buffer;
      while i < |ds| && !failed
        invariant 0 <= i <= |ds|
        invariant b.Valid()
        invariant all == if failed then Rebuilt(b.View(), ids, true) else Rebuild(cfg, b.View(), ids, ds[i..])
      {
        assert ds[i..][0] == ds[i] && ds[i..][1..] == ds[i + 1..];
        match CheckSequence(cfg.sync, ids, ds[i]) {
          case Skip =>
          case Fail =>
            failed := true;
          case Apply =>
            b.Apply(cfg, ds[i]);
            ids := Advance(ids, ds[i]);
        }
        i := i + 1;
      }
    }

    /** Background refresh: a new book is built beside the live one. */
    method CompleteRefresh(id: int, bids: seq<Level>, asks: seq<Level>) returns (outcome: SnapshotOutcome)
      requires Valid() && DistinctPrices(bids) && DistinctPrices(asks)
      modifies Repr()
      ensures Valid() && (View(), outcome) == FinishRefresh(cfg, old(View()), id, bids, asks)
    {
      var b := new LocalBook();
      b.LoadSnapshot(cfg, bids, asks);
      var ids, failed := RebuildFromBuffer(b, Sequencing(true, id, id));
      st := st.(refreshPending := false, buffer := []);
      if failed {
        st := CountRefreshFailure(st);
        return RefreshFailed;
      }
      if ids.needBridge && id != st.ids.lastId {
        shadow.TakeFrom(b);
        st := st.(shadowIds := ids, shadowPending := true);
        return RefreshAwaitingBridge;
      }
      PromoteBook(b, if ids.needBridge then st.ids else ids);
      return Refreshed;
    }

    method SyncInitial(id: int, bids: seq<Level>, asks: seq<Level>) returns (ok: bool)
      requires Valid() && DistinctPrices(bids) && DistinctPrices(asks)
      modifies Repr()
      ensures Valid()
      ensures (View(), ok) == Replay(cfg, LoadInitial(cfg, old(View()), id, bids, asks), old(st).buffer)
    {
      live.LoadSnapshot(cfg, bids, asks);
      st := st.(ids := Sequencing(true, id, id), phase := SyncingPhase, wasExhausted := false);
      var i, ds := 0, st.buffer;
      ghost var all := Replay(cfg, View(), ds);
      ok := true;
      while i < |ds| && ok
        invariant 0 <= i <= |ds|
        invariant Valid()
        invariant all == if ok then Replay(cfg, View(), ds[i..]) else (View(), false)
      {
        assert ds[i..][0] == ds[i] && ds[i..][1..] == ds[i + 1..];
        ok := ApplyEvent(ds[i]);
        i := i + 1;
      }
    }

    /** The two uses of a snapshot that has come in. */
    method TakeSnapshot(id: int, bids: seq<Level>, asks: seq<Level>) returns (outcome: SnapshotOutcome)
      requires Valid() && DistinctPrices(bids) && DistinctPrices(asks)
      modifies Repr()
      ensures Valid() && (View(), outcome) == OnSnapshot(cfg, old(View()), id, bids, asks)
    {
      st := st.(snapshotRequested := false);
      if st.phase == ValidPhase && st.refreshPending {
        outcome := CompleteRefresh(id, bids, asks);
        return;
      }
      st := st.(refreshPending := false);
      if st.phase != InitPhase { return Ignored; }
      var synced := SyncInitial(id, bids, asks);
      st := st.(buffer := []);
      outcome := if !synced then SyncFailed else if st.phase == ValidPhase then Synced else AwaitingBridge;
    }

    method ResetBook()
      requires Valid()
      modifies Repr()
      ensures Valid() && View() == Reset(old(View()))
    {
      live.Clear();
      shadow.Clear();
      st := INITIAL_STATUS.(counters := st.counters, lastPublished := st.lastPublished);
    }

    method TopRows(side: Side, shown: bool) returns (rows: seq<Level>)
      requires side.Valid()
      ensures rows == if shown then TopN(side.isBid, side.View().levels, cfg.depth) else NoRows(cfg.depth)
    {
      if !shown { return NoRows(cfg.depth); }
      rows := [];
      var n := |side.levels|;
      ghost var top := TopN(side.isBid, MapOf(side.levels), cfg.depth);
      for i := 0 to cfg.depth
        invariant rows == top[..i]
      {
        SortedBackIsTopN(side.isBid, side.levels, cfg.depth, i);
        rows := rows + [if i < n then side.levels[n - 1 - i] else Level(0, 0)];
      }
    }

    method GetQuote(recvTimeNs: int, fhSeqNo: int) returns (q: Quote)
      requires Valid()
      ensures q == QuoteOf(cfg, View(), recvTimeNs, fhSeqNo)
    {
      var exhausted := live.IsBelow(cfg.depth);
      var valid := st.phase == ValidPhase && !exhausted;
      var shown := valid || st.phase == SyncingPhase;
      var bids := TopRows(live.bid, shown);
      var asks := TopRows(live.ask, shown);
      q := Quote(bids, asks, valid, st.eventTimeMs, st.transactTimeMs, recvTimeNs, fhSeqNo,
                 if valid then st.range.firstU else 0,
                 if valid then st.ids.lastId else 0,
                 if valid && cfg.sync == Futures then st.range.prevU else 0);
    }

    method NotePublished(q: Quote)
      requires Valid()
      modifies this`st
      ensures Valid() && View() == RecordPublish(old(View()), q)
    {
      st := st.(lastPublished := Row(q), range := st.range.(closed := true));
    }
  }
}
