/** What the quote handler publishes, and when, over whole runs: told from its rows and
    from what the exchange has.
  */
module RowPromptness {
  import opened PriceSide
  import opened Exchange
  import opened OrderBooks
  import opened BookAgreement
  import opened QuoteHandlers
  import opened QuoteStream
  import opened QuoteRuns

  /** The best n levels of the side are known for sure. */
  ghost predicate Assured(k: Known, n: nat) {
    !k.bounded || |k.levels| >= n
  }

  ghost predicate BookAssured(cfg: BookConfig, o: BookView) {
    Assured(o.book.bid, cfg.depth) && Assured(o.book.ask, cfg.depth)
  }

  /** The row shows what the market has. */
  ghost predicate Shows(cfg: BookConfig, m: Market, q: Quote) {
    |q.bids| == |q.asks| == cfg.depth && IsTop(true, m.bid, q.bids) && IsTop(false, m.ask, q.asks)
  }

  predicate SameLevels(p: Quote, q: Quote) {
    p.bids == q.bids && p.asks == q.asks
  }

  /** The last row repeats the one before. */
  predicate Repeats(rows: seq<Quote>) {
    var n := |rows|;
    n >= 2 && rows[n - 2].isValid && rows[n - 1].isValid && SameLevels(rows[n - 2], rows[n - 1])
  }

  ghost predicate LastRowIs(v: HandlerView) {
    v.book.st.lastPublished == if v.rows == [] then Nothing else Row(v.rows[|v.rows| - 1])
  }

  // ---------------------------------------------------------------- one step

  /** Whether a row goes out for the state of a book, from the rows before it. */
  ghost predicate NewsFor(cfg: BookConfig, v: HandlerView, q: Quote, due: bool) {
    || v.rows == []
    || v.rows[|v.rows| - 1].isValid != BookAssured(cfg, v.book)
    || (BookAssured(cfg, v.book) && (due || !SameLevels(v.rows[|v.rows| - 1], q)))
  }

  lemma QuoteIsAssured(cfg: BookConfig, o: BookView, recvTimeNs: int, fhSeqNo: int)
    requires o.st.phase.ValidPhase?
    ensures QuoteOf(cfg, o, recvTimeNs, fhSeqNo).isValid == BookAssured(cfg, o)
  {
  }

  lemma NewsIsPublished(cfg: BookConfig, v: HandlerView, q: Quote, due: bool)
    requires LastRowIs(v) && q.isValid == BookAssured(cfg, v.book)
    ensures ShouldPublish(v.book.st.lastPublished, q, due) <==> NewsFor(cfg, v, q, due)
  {
  }

  /** Asking for a refresh publishes nothing and leaves the book where it is. */
  lemma RefreshIsSilent(cfg: BookConfig, v: HandlerView, m: Message)
    ensures var u, w := MaybePublish(cfg, v, m.recvTimeNs, m.due, m.lost), PublishAndRefresh(cfg, v, m);
      && w.rows == u.rows
      && w.book.book == v.book.book && w.book.st.ids == v.book.st.ids && w.book.st.phase == v.book.st.phase
  {
  }

  /** An event for a live book is refused and marked, or leaves the book waiting, or is
      followed by a row if there is news. */
  lemma LiveEvent(cfg: BookConfig, v: HandlerView, m: Message)
    requires LastRowIs(v) && (v.book.st.phase.SyncingPhase? || v.book.st.phase.ValidPhase?)
    ensures var w, (b, ok) := HandleDelta(cfg, v, m), ApplyDelta(cfg, v.book, m.d);
      var q := QuoteOf(cfg, b, m.recvTimeNs, v.st.fhSeqNo + 1);
      if !ok then w.book.st.phase.InitPhase? && w.rows == v.rows + [InvalidQuote(cfg.depth, m.recvTimeNs, q.fhSeqNo)]
      else if !b.st.phase.ValidPhase? then w.rows == v.rows && w.book.st.phase == b.st.phase
      else
        && w.book.book == b.book && w.book.st.ids == b.st.ids && w.book.st.phase.ValidPhase?
        && w.rows == if NewsFor(cfg, v.(book := b), q, m.due) then v.rows + [q] else v.rows
  {
    var (b, ok) := ApplyDelta(cfg, v.book, m.d);
    DeltaKeepsPublished(cfg, v.book, m.d);
    if ok && b.st.phase.ValidPhase? {
      var gate := if v.book.st.phase.SyncingPhase? then ReportSync(v.gate) else v.gate;
      var u := v.(book := b, gate := gate);
      var q := QuoteOf(cfg, b, m.recvTimeNs, v.st.fhSeqNo + 1);
      QuoteIsAssured(cfg, b, m.recvTimeNs, v.st.fhSeqNo + 1);
      NewsIsPublished(cfg, u, q, m.due);
      RefreshIsSilent(cfg, u, m);
    }
  }

  lemma LivePhases(cfg: BookConfig, o: BookView, d: Delta)
    requires o.st.phase.SyncingPhase? || o.st.phase.ValidPhase?
    ensures var (b, ok) := ApplyDelta(cfg, o, d); ok ==> b.st.phase.SyncingPhase? || b.st.phase.ValidPhase?
  {
  }

  lemma OtherEvent(cfg: BookConfig, v: HandlerView, m: Message)
    requires v.book.st.phase.InitPhase? || v.book.st.phase.InvalidPhase?
    ensures var w := HandleDelta(cfg, v, m); w.rows == v.rows && w.book.st.phase.InitPhase?
  {
  }

  // ---------------------------------------------------------------- whole runs

  lemma RunHasLastRow(cfg: BookConfig, g: Gate, steps: seq<HandlerStep>)
    requires (forall s :: s in steps ==> WellFormedStep(s)) && PossibleRun(cfg, g, steps)
    ensures var v := TakeAll(cfg, g, steps); LastRowIs(v) && (v.st.running ==> v.st.connected)
  {
    RunKeepsStream(cfg, g, steps);
  }

  lemma RunFacts(cfg: BookConfig, h: History, g: Gate, steps: seq<HandlerStep>)
    requires NonNegative(h) && forall s :: s in steps ==> WellFormedStep(s) && FaithfulStep(cfg, h, s)
    requires PossibleRun(cfg, g, steps)
    ensures var v := TakeAll(cfg, g, steps); LastRowIs(v) && Exact(cfg, h, v)
  {
    RunHasLastRow(cfg, g, steps);
    ValidRowsAreExact(cfg, h, g, steps);
  }

  ghost predicate LegalRun(cfg: BookConfig, h: History, g: Gate, steps: seq<HandlerStep>) {
    && NonNegative(h) && (forall s :: s in steps ==> WellFormedStep(s) && FaithfulStep(cfg, h, s))
    && PossibleRun(cfg, g, steps)
  }

  lemma LastStep(cfg: BookConfig, h: History, g: Gate, steps: seq<HandlerStep>)
    requires LegalRun(cfg, h, g, steps) && steps != []
    ensures LegalRun(cfg, h, g, steps[..|steps| - 1])
    ensures WellFormedStep(steps[|steps| - 1]) && FaithfulStep(cfg, h, steps[|steps| - 1])
    ensures TakeAll(cfg, g, steps) == Take(cfg, TakeAll(cfg, g, steps[..|steps| - 1]), steps[|steps| - 1])
  {
    assert steps[|steps| - 1] in steps;
  }

  ghost predicate TellsTheTruth(cfg: BookConfig, h: History, o: BookView, rows: seq<Quote>) {
    && rows != []
    && var row := rows[|rows| - 1];
       if BookAssured(cfg, o) then row.isValid && Shows(cfg, h(o.st.ids.lastId), row) else !row.isValid
  }

  lemma NewRowTellsTheTruth(cfg: BookConfig, h: History, v: HandlerView, b: BookView, q: Quote, due: bool)
    requires q.isValid == BookAssured(cfg, b) && (q.isValid ==> Shows(cfg, h(b.st.ids.lastId), q))
    ensures TellsTheTruth(cfg, h, b, if NewsFor(cfg, v.(book := b), q, due) then v.rows + [q] else v.rows)
  {
  }

  lemma LiveEventIsShown(cfg: BookConfig, h: History, v: HandlerView, m: Message)
    requires LastRowIs(v) && Exact(cfg, h, v) && NonNegative(h) && FaithfulDelta(cfg.sync, h, m.d)
    requires v.book.st.phase.SyncingPhase? || v.book.st.phase.ValidPhase?
    ensures var w := HandleDelta(cfg, v, m);
      && (w.book.st.phase.ValidPhase? ==> TellsTheTruth(cfg, h, w.book, w.rows))
      && (w.book.st.phase.InitPhase? ==>
            |w.rows| == |v.rows| + 1 && w.rows[..|v.rows|] == v.rows && !w.rows[|v.rows|].isValid)
  {
    var b := ApplyDelta(cfg, v.book, m.d).0;
    var q := QuoteOf(cfg, b, m.recvTimeNs, v.st.fhSeqNo + 1);
    LiveEvent(cfg, v, m);
    LivePhases(cfg, v.book, m.d);
    if b.st.phase.ValidPhase? {
      StepKeepsAgreement(cfg, h, v.book, DeltaOp(m.d));
      ValidQuoteIsTop(cfg, h, b, m.recvTimeNs, v.st.fhSeqNo + 1);
      QuoteIsAssured(cfg, b, m.recvTimeNs, v.st.fhSeqNo + 1);
      NewRowTellsTheTruth(cfg, h, v, b, q, m.due);
    }
  }

  /** Main result: whenever an event has left the book valid, the last row tells the truth
      about it now: if both sides are assured it is valid and shows the exchange's top
      levels at the book's own update id, and otherwise it is invalid. When an event is
      refused, one invalid row has gone out with it. */
  lemma RowsAreUpToDate(cfg: BookConfig, h: History, g: Gate, steps: seq<HandlerStep>, m: Message)
    requires LegalRun(cfg, h, g, steps + [EventStep(m)])
    ensures LegalRun(cfg, h, g, steps)
    ensures var v, w := TakeAll(cfg, g, steps), TakeAll(cfg, g, steps + [EventStep(m)]);
      && (w.book.st.phase.ValidPhase? ==> TellsTheTruth(cfg, h, w.book, w.rows))
      && (v.book.st.phase.SyncingPhase? || v.book.st.phase.ValidPhase? ==>
            w.book.st.phase.InitPhase? ==>
              |w.rows| == |v.rows| + 1 && w.rows[..|v.rows|] == v.rows && !w.rows[|v.rows|].isValid)
  {
    var all := steps + [EventStep(m)];
    LastStep(cfg, h, g, all);
    assert all[..|steps|] == steps;
    var v, w := TakeAll(cfg, g, steps), TakeAll(cfg, g, all);
    RunFacts(cfg, h, g, steps);
    RunFacts(cfg, h, g, all);
    if v.book.st.phase.SyncingPhase? || v.book.st.phase.ValidPhase? {
      LiveEventIsShown(cfg, h, v, m);
    } else {
      OtherEvent(cfg, v, m);
    }
  }

  /** Main result: no row goes out without a reason. A valid row that repeats the levels of
      the valid row before it appears only when a heartbeat was due. */
  lemma RepeatsAreDue(cfg: BookConfig, g: Gate, steps: seq<HandlerStep>, s: HandlerStep)
    requires WellFormedStep(s) && (forall t :: t in steps ==> WellFormedStep(t)) && PossibleRun(cfg, g, steps)
    ensures var v, w := TakeAll(cfg, g, steps), TakeAll(cfg, g, steps + [s]);
      && v.rows <= w.rows && |w.rows| <= |v.rows| + 1
      && (w.rows != v.rows && Repeats(w.rows) ==>
            (s.EventStep? && s.m.due) || (s.HeartbeatStep? && s.due))
  {
    assert (steps + [s])[..|steps|] == steps;
    RunHasLastRow(cfg, g, steps);
    StepAddsRow(cfg, TakeAll(cfg, g, steps), s);
  }

  lemma {:induction false} ResultsAddNoRow(cfg: BookConfig, v: HandlerView, rs: seq<SnapshotResult>, nowMs: int)
    requires forall r :: r in rs ==> WellFormedResult(r)
    ensures ApplyResults(cfg, v, rs, nowMs).rows == v.rows
    decreases |rs|
  {
    if rs != [] { ResultsAddNoRow(cfg, v, rs[..|rs| - 1], nowMs); }
  }

  /** At most one row, and a repeat of the last valid one only if it may. */
  predicate AtMostOne(before: seq<Quote>, rows: seq<Quote>, mayRepeat: bool) {
    before <= rows && |rows| <= |before| + 1 && (rows != before && Repeats(rows) ==> mayRepeat)
  }

  ghost predicate AddsAtMostOne(v: HandlerView, w: HandlerView, mayRepeat: bool) {
    AtMostOne(v.rows, w.rows, mayRepeat)
  }

  lemma NewsIsNoRepeat(cfg: BookConfig, v: HandlerView, b: BookView, q: Quote, due: bool)
    requires q.isValid == BookAssured(cfg, b)
    ensures AtMostOne(v.rows, if NewsFor(cfg, v.(book := b), q, due) then v.rows + [q] else v.rows, due)
  {
  }

  lemma EventAddsRow(cfg: BookConfig, v: HandlerView, m: Message)
    requires LastRowIs(v)
    ensures AddsAtMostOne(v, HandleDelta(cfg, v, m), m.due)
  {
    if v.book.st.phase.SyncingPhase? || v.book.st.phase.ValidPhase? {
      var (b, ok) := ApplyDelta(cfg, v.book, m.d);
      LiveEvent(cfg, v, m);
      if ok && b.st.phase.ValidPhase? {
        QuoteIsAssured(cfg, b, m.recvTimeNs, v.st.fhSeqNo + 1);
        NewsIsNoRepeat(cfg, v, b, QuoteOf(cfg, b, m.recvTimeNs, v.st.fhSeqNo + 1), m.due);
      }
    } else {
      OtherEvent(cfg, v, m);
    }
  }

  lemma HeartbeatAddsRow(cfg: BookConfig, v: HandlerView, recvTimeNs: int, due: bool, lost: bool)
    ensures AddsAtMostOne(v, Heartbeat(cfg, v, recvTimeNs, due, lost), due)
  {
  }

  /** From v on an empty book, with one more invalid row if the last one is valid. */
  ghost predicate StartsOverMarked(cfg: BookConfig, v: HandlerView, w: HandlerView, recvTimeNs: int) {
    && w.rows == (if v.rows != [] && v.rows[|v.rows| - 1].isValid
                  then v.rows + [InvalidQuote(cfg.depth, recvTimeNs, v.st.fhSeqNo + 1)] else v.rows)
    && w.book.st.phase == InitPhase && w.book.book == EMPTY_BOOK && w.book.st.buffer == []
  }

  lemma ReconnectAddsRow(cfg: BookConfig, v: HandlerView, recvTimeNs: int, lost: bool)
    requires LastRowIs(v) && v.st.running && v.st.connected
    ensures StartsOverMarked(cfg, v, Reconnect(cfg, v, recvTimeNs, lost), recvTimeNs)
  {
  }

  lemma AnyReconnectAddsRow(cfg: BookConfig, v: HandlerView, recvTimeNs: int, lost: bool)
    ensures AddsAtMostOne(v, Reconnect(cfg, v, recvTimeNs, lost), false)
  {
  }

  lemma StepAddsRow(cfg: BookConfig, v: HandlerView, s: HandlerStep)
    requires LastRowIs(v) && WellFormedStep(s)
    ensures AddsAtMostOne(v, Take(cfg, v, s), (s.EventStep? && s.m.due) || (s.HeartbeatStep? && s.due))
  {
    match s {
      case EventStep(m) => EventAddsRow(cfg, v, m);
      case HeartbeatStep(recv, due, lost) => HeartbeatAddsRow(cfg, v, recv, due, lost);
      case ReconnectStep(recv, lost) => AnyReconnectAddsRow(cfg, v, recv, lost);
      case ResultsStep(now, jitter, rs) => ResultsAddNoRow(cfg, ExpireRequest(v, now, jitter), rs, now);
      case _ =>
    }
  }

  /** A heartbeat that is due repeats what a valid and assured book shows. */
  lemma HeartbeatIsSent(cfg: BookConfig, h: History, g: Gate, steps: seq<HandlerStep>, recvTimeNs: int, lost: bool)
    requires LegalRun(cfg, h, g, steps)
    requires var v := TakeAll(cfg, g, steps); v.book.st.phase.ValidPhase? && BookAssured(cfg, v.book) && v.rows != []
    ensures var v := TakeAll(cfg, g, steps);
      var w := Take(cfg, v, HeartbeatStep(recvTimeNs, true, lost));
      && |w.rows| == |v.rows| + 1 && w.rows[..|v.rows|] == v.rows
      && w.rows[|v.rows|].isValid && Shows(cfg, h(v.book.st.ids.lastId), w.rows[|v.rows|])
  {
    var v := TakeAll(cfg, g, steps);
    RunFacts(cfg, h, g, steps);
    ValidQuoteIsTop(cfg, h, v.book, recvTimeNs, v.st.fhSeqNo + 1);
  }

  /** A reconnect of a running handler sends one invalid row exactly when the last row is
      valid, and leaves an empty book either way. */
  lemma ReconnectMarks(cfg: BookConfig, g: Gate, steps: seq<HandlerStep>, recvTimeNs: int, lost: bool)
    requires (forall s :: s in steps ==> WellFormedStep(s)) && PossibleRun(cfg, g, steps)
    requires TakeAll(cfg, g, steps).st.running
    ensures var v := TakeAll(cfg, g, steps);
      StartsOverMarked(cfg, v, Take(cfg, v, ReconnectStep(recvTimeNs, lost)), recvTimeNs)
  {
    RunHasLastRow(cfg, g, steps);
    ReconnectAddsRow(cfg, TakeAll(cfg, g, steps), recvTimeNs, lost);
  }
}
