/** What a quote shows that is not valid: exactly when it carries levels. */
module BookQuotes {
  import opened PriceSide
  import opened OrderBooks
  import opened BookAgreement

  // ---------------------------------------------------------------- no stored level is empty

  ghost predicate NoEmptyLevel(m: map<int, int>) {
    forall p :: p in m ==> m[p] != 0
  }

  ghost predicate Stocked(b: Book) {
    NoEmptyLevel(b.bid.levels) && NoEmptyLevel(b.ask.levels)
  }

  lemma TrimStays(isBid: bool, k: Known, maxLevels: nat)
    requires maxLevels >= 1 && NoEmptyLevel(k.levels)
    ensures NoEmptyLevel(Trim(isBid, k, maxLevels).levels)
  {
    BestNIsBest(isBid, k.levels, maxLevels);
  }

  lemma {:induction false} UpdatesStay(isBid: bool, k: Known, us: seq<Level>, maxLevels: nat)
    requires maxLevels >= 1 && NoEmptyLevel(k.levels)
    ensures NoEmptyLevel(UpdateAll(isBid, k, us, maxLevels).levels)
    decreases |us|
  {
    if us != [] {
      var front, u := UpdateAll(isBid, k, us[..|us| - 1], maxLevels), us[|us| - 1];
      UpdatesStay(isBid, k, us[..|us| - 1], maxLevels);
      if u.qty != 0 { TrimStays(isBid, front.(levels := front.levels[u.price := u.qty]), maxLevels); }
    }
  }

  lemma {:induction false} PositiveIsPositive(s: seq<Level>)
    ensures forall i :: 0 <= i < |Positive(s)| ==> Positive(s)[i].qty > 0
  {
    if s != [] { PositiveIsPositive(s[..|s| - 1]); }
  }

  lemma LoadIsStocked(isBid: bool, s: seq<Level>, limit: nat, maxLevels: nat)
    requires maxLevels >= 1 && DistinctPrices(s)
    ensures NoEmptyLevel(Load(isBid, s, limit, maxLevels).levels)
  {
    var kept := Positive(s);
    PositiveIsPositive(s);
    PositiveIsDistinct(s);
    MapFacts(kept);
    var m := MapOf(kept);
    forall p | p in m ensures m[p] != 0 {
      var i := IndexOf(kept, p);
    }
    var bounded := |s| >= limit && |m| > 0;
    TrimStays(isBid, Known(m, bounded, if bounded then Worst(isBid, m) else 0), maxLevels);
  }

  ghost predicate AllStocked(o: BookView) {
    Stocked(o.book) && Stocked(o.shadow)
  }

  lemma LevelsStay(cfg: BookConfig, b: Book, d: Delta)
    requires Stocked(b)
    ensures Stocked(ApplyLevels(cfg, b, d))
  {
    UpdatesStay(true, b.bid, d.bids, cfg.maxLevels);
    UpdatesStay(false, b.ask, d.asks, cfg.maxLevels);
  }

  lemma DeltaStays(cfg: BookConfig, o: BookView, d: Delta)
    requires AllStocked(o)
    ensures AllStocked(ApplyDelta(cfg, o, d).0)
  {
    LevelsStay(cfg, o.book, d);
    LevelsStay(cfg, o.shadow, d);
  }

  lemma {:induction false} ReplayStays(cfg: BookConfig, o: BookView, ds: seq<Delta>)
    requires AllStocked(o)
    ensures AllStocked(Replay(cfg, o, ds).0)
    decreases |ds|
  {
    if ds != [] {
      DeltaStays(cfg, o, ds[0]);
      if ApplyDelta(cfg, o, ds[0]).1 { ReplayStays(cfg, ApplyDelta(cfg, o, ds[0]).0, ds[1..]); }
    }
  }

  lemma {:induction false} RebuildStays(cfg: BookConfig, b: Book, ids: Sequencing, ds: seq<Delta>)
    requires Stocked(b)
    ensures Stocked(Rebuild(cfg, b, ids, ds).book)
    decreases |ds|
  {
    if ds != [] {
      match CheckSequence(cfg.sync, ids, ds[0]) {
        case Fail =>
        case Skip => RebuildStays(cfg, b, ids, ds[1..]);
        case Apply =>
          LevelsStay(cfg, b, ds[0]);
          RebuildStays(cfg, ApplyLevels(cfg, b, ds[0]), Advance(ids, ds[0]), ds[1..]);
      }
    }
  }

  lemma SnapshotStays(cfg: BookConfig, o: BookView, id: int, bids: seq<Level>, asks: seq<Level>)
    requires AllStocked(o) && DistinctPrices(bids) && DistinctPrices(asks)
    ensures AllStocked(OnSnapshot(cfg, o, id, bids, asks).0)
  {
    LoadIsStocked(true, bids, cfg.snapshotLimit, cfg.maxLevels);
    LoadIsStocked(false, asks, cfg.snapshotLimit, cfg.maxLevels);
    RebuildStays(cfg, LoadBook(cfg, bids, asks), Sequencing(true, id, id), o.st.buffer);
    var o' := o.(st := o.st.(snapshotRequested := false, refreshPending := false));
    ReplayStays(cfg, LoadInitial(cfg, o', id, bids, asks), o.st.buffer);
  }

  lemma {:induction false} RunStays(cfg: BookConfig, ops: seq<BookOp>)
    requires forall i :: 0 <= i < |ops| ==> WellFormed(ops[i])
    ensures AllStocked(Run(cfg, INITIAL_BOOK, ops))
    decreases |ops|
  {
    if ops != [] {
      var o, op := Run(cfg, INITIAL_BOOK, ops[..|ops| - 1]), ops[|ops| - 1];
      RunStays(cfg, ops[..|ops| - 1]);
      match op {
        case DeltaOp(d) => DeltaStays(cfg, o, d);
        case SnapshotOp(id, bids, asks) => SnapshotStays(cfg, o, id, bids, asks);
        case _ =>
      }
    }
  }

  // ---------------------------------------------------------------- invalid quotes

  lemma TopNIsEmptyIff(isBid: bool, m: map<int, int>, n: nat)
    requires NoEmptyLevel(m)
    ensures TopN(isBid, m, n) == NoRows(n) <==> n == 0 || |m| == 0
  {
    if |m| == 0 {
      assert m.Keys == {};
      assert m == map[];
      forall i | 0 <= i < n ensures TopN(isBid, m, n)[i] == Level(0, 0) {
        TopNOfNothing(isBid, n, i);
      }
    } else if n > 0 {
      assert TopN(isBid, m, n)[0].qty != 0;
    }
  }

  /** Exactly when an invalid quote carries no levels, in every run of a book: unless
      the book still waits for its bridging event and knows a level. */
  lemma InvalidQuoteIsEmptyIff(cfg: BookConfig, ops: seq<BookOp>, recvTimeNs: int, fhSeqNo: int)
    requires forall i :: 0 <= i < |ops| ==> WellFormed(ops[i])
    ensures var o := Run(cfg, INITIAL_BOOK, ops);
      var q := QuoteOf(cfg, o, recvTimeNs, fhSeqNo);
      !q.isValid ==>
        (q.bids == q.asks == NoRows(cfg.depth) <==>
         !o.st.phase.SyncingPhase? || cfg.depth == 0 || (|o.book.bid.levels| == 0 && |o.book.ask.levels| == 0))
  {
    var o := Run(cfg, INITIAL_BOOK, ops);
    RunStays(cfg, ops);
    TopNIsEmptyIff(true, o.book.bid.levels, cfg.depth);
    TopNIsEmptyIff(false, o.book.ask.levels, cfg.depth);
  }

  /** A book that has just loaded a snapshot: its quote is invalid and shows a level. */
  lemma SyncingQuoteShowsLevels(cfg: BookConfig, id: int, price: int, qty: int) returns (ops: seq<BookOp>)
    requires cfg.depth >= 1 && qty > 0
    ensures forall i :: 0 <= i < |ops| ==> WellFormed(ops[i])
    ensures var q := QuoteOf(cfg, Run(cfg, INITIAL_BOOK, ops), 0, 1); !q.isValid && q.bids[0] == Level(price, qty)
  {
    var op := SnapshotOp(id, [Level(price, qty)], []);
    ops := [op];
    FirstStep(cfg, ops);
    OneLevel(price, qty);
    var o := Step(cfg, INITIAL_BOOK, op);
    assert o.book.bid.levels == map[price := qty];
    WorstIs(false, o.book.bid.levels, price);
  }

  lemma FirstStep(cfg: BookConfig, ops: seq<BookOp>)
    requires |ops| == 1 && WellFormed(ops[0])
    ensures Run(cfg, INITIAL_BOOK, ops) == Step(cfg, INITIAL_BOOK, ops[0])
  {
    assert ops[..0] == [];
  }

  lemma OneLevel(price: int, qty: int)
    requires qty > 0
    ensures MapOf(Positive([Level(price, qty)])) == map[price := qty]
  {
    var s := [Level(price, qty)];
    assert s[..0] == [];
    assert Positive(s) == s;
  }
}
