/** No silent loss of trades: what the id check of module TradeHandlers promises
    over any stream of ids. Module TradeLossless adds the backfill.
  */
module TradeCoverage {
  import opened Options
  import opened TradeGaps
  import opened TradeBackfills
  import opened PumpProofs
  import opened TradeHandlers

  // ---------------------------------------------------------------- ids and gaps

  predicate InGap(g: TradeGap, sym: string, x: int) {
    g.sym == sym && g.firstId <= x <= g.lastId
  }

  ghost predicate InSomeGap(gaps: seq<TradeGap>, sym: string, x: int) {
    exists i :: 0 <= i < |gaps| && InGap(gaps[i], sym, x)
  }

  ghost function CountMaxima(maxima: seq<(string, int)>, sym: string): nat
    decreases |maxima|
  {
    if maxima == [] then 0
    else CountMaxima(maxima[..|maxima| - 1], sym) + if maxima[|maxima| - 1].0 == sym then 1 else 0
  }

  ghost function MissedOf(gaps: seq<TradeGap>, sym: string): int
    decreases |gaps|
  {
    if gaps == [] then 0
    else MissedOf(gaps[..|gaps| - 1], sym) + if gaps[|gaps| - 1].sym == sym then gaps[|gaps| - 1].Missing() else 0
  }

  ghost function TotalMissed(gaps: seq<TradeGap>): int
    decreases |gaps|
  {
    if gaps == [] then 0 else TotalMissed(gaps[..|gaps| - 1]) + gaps[|gaps| - 1].Missing()
  }

  /** Every id after the start of a symbol, up to its last, is either a live new
      maximum or in a gap, never both; and they add up. */
  ghost predicate Covered(v: FeedView, sym: string)
    requires sym in v.last && sym in v.story.start
  {
    var start, last := v.story.start[sym], v.last[sym];
    && start <= last
    && (forall x :: start < x <= last ==> ((sym, x) in v.story.maxima <==> !InSomeGap(v.story.gaps, sym, x)))
    && last - start == CountMaxima(v.story.maxima, sym) + MissedOf(v.story.gaps, sym)
  }

  ghost predicate GapOk(v: FeedView, g: TradeGap) {
    && g.sym in v.last && g.sym in v.story.start
    && v.story.start[g.sym] < g.firstId <= g.lastId <= v.last[g.sym]
    && g.recovered == 0 && g.recoveredThroughId == 0
  }

  ghost predicate MaxOk(v: FeedView, m: (string, int)) {
    && m.0 in v.last && m.0 in v.story.start && v.story.start[m.0] < m.1 <= v.last[m.0]
    && m in v.story.live
  }

  /** Gaps of one symbol are disjoint and increasing. */
  ghost predicate GapsIncrease(gaps: seq<TradeGap>) {
    forall i, j :: 0 <= i < j < |gaps| && gaps[i].sym == gaps[j].sym ==> gaps[i].lastId < gaps[j].firstId
  }

  ghost predicate MaximaIncrease(maxima: seq<(string, int)>) {
    forall i, j :: 0 <= i < j < |maxima| && maxima[i].0 == maxima[j].0 ==> maxima[i].1 < maxima[j].1
  }

  ghost predicate AllCovered(v: FeedView) {
    v.last.Keys == v.story.start.Keys && forall s :: s in v.last ==> Covered(v, s)
  }

  ghost predicate MembersOk(v: FeedView) {
    && (forall i :: 0 <= i < |v.story.gaps| ==> GapOk(v, v.story.gaps[i]))
    && (forall i :: 0 <= i < |v.story.maxima| ==> MaxOk(v, v.story.maxima[i]))
  }

  ghost predicate TotalsOk(v: FeedView) {
    v.ctr.missed == TotalMissed(v.story.gaps) && v.ctr.gaps == |v.story.gaps|
  }

  ghost predicate FeedOk(v: FeedView) {
    && AllCovered(v) && MembersOk(v) && TotalsOk(v)
    && GapsIncrease(v.story.gaps) && MaximaIncrease(v.story.maxima)
  }

  lemma CountsGrow(maxima: seq<(string, int)>, m: (string, int), gaps: seq<TradeGap>, g: TradeGap, sym: string)
    ensures CountMaxima(maxima + [m], sym) == CountMaxima(maxima, sym) + if m.0 == sym then 1 else 0
    ensures MissedOf(gaps + [g], sym) == MissedOf(gaps, sym) + if g.sym == sym then g.Missing() else 0
    ensures TotalMissed(gaps + [g]) == TotalMissed(gaps) + g.Missing()
  {
    assert (maxima + [m])[..|maxima|] == maxima;
    assert (gaps + [g])[..|gaps|] == gaps;
  }

  lemma SomeGapGrows(gaps: seq<TradeGap>, g: TradeGap, sym: string, x: int)
    ensures InSomeGap(gaps + [g], sym, x) <==> InSomeGap(gaps, sym, x) || InGap(g, sym, x)
  {
    var all := gaps + [g];
    if InSomeGap(gaps, sym, x) {
      var i :| 0 <= i < |gaps| && InGap(gaps[i], sym, x);
      assert InGap(all[i], sym, x);
    }
    if InGap(g, sym, x) { assert InGap(all[|gaps|], sym, x); }
  }

  // ---------------------------------------------------------------- one trade

  lemma {:induction false} NothingCounted(maxima: seq<(string, int)>, gaps: seq<TradeGap>, sym: string)
    requires forall i :: 0 <= i < |maxima| ==> maxima[i].0 != sym
    requires forall i :: 0 <= i < |gaps| ==> gaps[i].sym != sym
    ensures CountMaxima(maxima, sym) == 0 && MissedOf(gaps, sym) == 0
    decreases |maxima| + |gaps|
  {
    if maxima != [] { NothingCounted(maxima[..|maxima| - 1], gaps, sym); }
    if gaps != [] { NothingCounted(maxima, gaps[..|gaps| - 1], sym); }
  }

  /** A symbol's ids begin. */
  lemma StartKeepsFeed(v: FeedView, sym: string, id: int)
    requires FeedOk(v) && sym !in v.last
    ensures FeedOk(SeedId(v, sym, id))
  {
    var w := SeedId(v, sym, id);
    forall s | s in w.last ensures Covered(w, s) {
      if s == sym {
        forall i | 0 <= i < |v.story.maxima| ensures v.story.maxima[i].0 != sym { assert MaxOk(v, v.story.maxima[i]); }
        forall i | 0 <= i < |v.story.gaps| ensures v.story.gaps[i].sym != sym { assert GapOk(v, v.story.gaps[i]); }
        NothingCounted(v.story.maxima, v.story.gaps, sym);
      } else {
        assert Covered(v, s);
      }
    }
    forall i | 0 <= i < |w.story.gaps| ensures GapOk(w, w.story.gaps[i]) { assert GapOk(v, v.story.gaps[i]); }
    forall i | 0 <= i < |w.story.maxima| ensures MaxOk(w, w.story.maxima[i]) { assert MaxOk(v, v.story.maxima[i]); }
  }

  /** The next id in order. */
  ghost function Extend(v: FeedView, sym: string, id: int): FeedView {
    v.(last := v.last[sym := id],
       story := v.story.(live := v.story.live + [(sym, id)], maxima := v.story.maxima + [(sym, id)]))
  }

  lemma OldMaxima(v: FeedView, sym: string, x: int)
    requires FeedOk(v) && (sym, x) in v.story.maxima
    ensures sym in v.last && x <= v.last[sym]
  {
    var i :| 0 <= i < |v.story.maxima| && v.story.maxima[i] == (sym, x);
    assert MaxOk(v, v.story.maxima[i]);
  }

  lemma OldGaps(v: FeedView, sym: string, x: int)
    requires FeedOk(v) && InSomeGap(v.story.gaps, sym, x)
    ensures sym in v.last && v.story.start[sym] < x <= v.last[sym]
  {
    var i :| 0 <= i < |v.story.gaps| && InGap(v.story.gaps[i], sym, x);
    assert GapOk(v, v.story.gaps[i]);
  }

  lemma ExtendCovers(v: FeedView, sym: string, id: int, s: string)
    requires FeedOk(v) && sym in v.last && id == v.last[sym] + 1 && s in v.last
    ensures Covered(Extend(v, sym, id), s)
  {
    var w := Extend(v, sym, id);
    var start := v.story.start[s];
    assert Covered(v, s);
    CountsGrow(v.story.maxima, (sym, id), [], TradeGap("", 0, 0, 0, 0), s);
    forall x | start < x <= w.last[s]
      ensures (s, x) in w.story.maxima <==> !InSomeGap(w.story.gaps, s, x)
    {
      if InSomeGap(v.story.gaps, s, x) { OldGaps(v, s, x); }
      if (s, x) == (sym, id) {
        assert w.story.maxima[|v.story.maxima|] == (s, x);
      } else if (s, x) in v.story.maxima {
        var i :| 0 <= i < |v.story.maxima| && v.story.maxima[i] == (s, x);
        assert w.story.maxima[i] == (s, x);
      }
    }
  }

  lemma ExtendKeepsFeed(v: FeedView, sym: string, id: int)
    requires FeedOk(v) && sym in v.last && id == v.last[sym] + 1
    ensures FeedOk(Extend(v, sym, id))
  {
    var w := Extend(v, sym, id);
    SameKeys(v.last, sym, id);
    forall s | s in v.last ensures Covered(w, s) { ExtendCovers(v, sym, id, s); }
    forall i | 0 <= i < |w.story.gaps| ensures GapOk(w, w.story.gaps[i]) { assert GapOk(v, v.story.gaps[i]); }
    forall i | 0 <= i < |w.story.maxima| ensures MaxOk(w, w.story.maxima[i]) {
      if i < |v.story.maxima| { assert MaxOk(v, v.story.maxima[i]); }
    }
    MaximaExtend(v, sym, id);
  }

  lemma MaximaExtend(v: FeedView, sym: string, id: int)
    requires FeedOk(v) && sym in v.last && v.last[sym] < id
    ensures MaximaIncrease(v.story.maxima + [(sym, id)])
  {
    forall i | 0 <= i < |v.story.maxima| && v.story.maxima[i].0 == sym ensures v.story.maxima[i].1 < id {
      assert MaxOk(v, v.story.maxima[i]);
    }
  }

  /** The ids a jump leaves out; the id that showed it comes next in order. */
  ghost function Skip(v: FeedView, g: TradeGap): FeedView {
    v.(last := v.last[g.sym := g.lastId], story := v.story.(gaps := v.story.gaps + [g]),
       ctr := v.ctr.(gaps := v.ctr.gaps + 1, missed := v.ctr.missed + g.Missing()))
  }

  ghost predicate NextGap(v: FeedView, g: TradeGap) {
    && g.sym in v.last && g.firstId == v.last[g.sym] + 1 && g.firstId <= g.lastId
    && g.recovered == 0 && g.recoveredThroughId == 0
  }

  lemma SkipCovers(v: FeedView, g: TradeGap, s: string)
    requires FeedOk(v) && NextGap(v, g) && s in v.last
    ensures Covered(Skip(v, g), s)
  {
    var w := Skip(v, g);
    assert Covered(v, s);
    CountsGrow([], ("", 0), v.story.gaps, g, s);
    forall x | v.story.start[s] < x <= w.last[s]
      ensures (s, x) in w.story.maxima <==> !InSomeGap(w.story.gaps, s, x)
    {
      SomeGapGrows(v.story.gaps, g, s, x);
      if (s, x) in v.story.maxima { OldMaxima(v, s, x); }
    }
  }

  lemma SkipKeepsFeed(v: FeedView, g: TradeGap)
    requires FeedOk(v) && NextGap(v, g)
    ensures FeedOk(Skip(v, g))
  {
    SkipKeepsCovered(v, g);
    SkipKeepsMembers(v, g);
    GapsExtend(v, g);
  }

  lemma SameKeys(m: map<string, int>, sym: string, x: int)
    requires sym in m
    ensures m[sym := x].Keys == m.Keys
  {
  }

  lemma SkipKeepsCovered(v: FeedView, g: TradeGap)
    requires FeedOk(v) && NextGap(v, g)
    ensures AllCovered(Skip(v, g)) && TotalsOk(Skip(v, g))
  {
    SameKeys(v.last, g.sym, g.lastId);
    forall s | s in v.last ensures Covered(Skip(v, g), s) { SkipCovers(v, g, s); }
    SkipKeepsTotals(v, g);
  }

  lemma SkipKeepsTotals(v: FeedView, g: TradeGap)
    requires TotalsOk(v)
    ensures TotalsOk(Skip(v, g))
  {
    CountsGrow([], ("", 0), v.story.gaps, g, g.sym);
  }

  lemma SkipKeepsMembers(v: FeedView, g: TradeGap)
    requires FeedOk(v) && NextGap(v, g)
    ensures MembersOk(Skip(v, g))
  {
    var w := Skip(v, g);
    assert Covered(v, g.sym);
    forall i | 0 <= i < |w.story.gaps| ensures GapOk(w, w.story.gaps[i]) {
      if i < |v.story.gaps| { assert GapOk(v, v.story.gaps[i]); }
    }
    forall i | 0 <= i < |w.story.maxima| ensures MaxOk(w, w.story.maxima[i]) {
      assert MaxOk(v, v.story.maxima[i]);
    }
  }

  lemma GapsExtend(v: FeedView, g: TradeGap)
    requires FeedOk(v) && NextGap(v, g)
    ensures GapsIncrease(v.story.gaps + [g])
  {
    forall i | 0 <= i < |v.story.gaps| && v.story.gaps[i].sym == g.sym ensures v.story.gaps[i].lastId < g.firstId {
      assert GapOk(v, v.story.gaps[i]);
    }
  }

  lemma MoreLiveKeepsFeed(v: FeedView, w: FeedView, t: (string, int))
    requires FeedOk(v) && w.last == v.last && w.story == v.story.(live := v.story.live + [t])
    requires w.ctr.missed == v.ctr.missed && w.ctr.gaps == v.ctr.gaps
    ensures FeedOk(w)
  {
    forall s | s in w.last ensures Covered(w, s) { assert Covered(v, s); }
    forall i | 0 <= i < |w.story.gaps| ensures GapOk(w, w.story.gaps[i]) { assert GapOk(v, v.story.gaps[i]); }
    forall i | 0 <= i < |w.story.maxima| ensures MaxOk(w, w.story.maxima[i]) { assert MaxOk(v, v.story.maxima[i]); }
  }

  /** A jump is a skip over the missing ids and then the next id in order. */
  lemma TradeIsSteps(v: FeedView, sym: string, id: int)
    requires sym in v.last && id > v.last[sym]
    ensures SeeTrade(v, sym, id) ==
            if id == v.last[sym] + 1 then Extend(v, sym, id)
            else Extend(Skip(v, TradeGap(sym, v.last[sym] + 1, id - 1, 0, 0)), sym, id)
  {
    assert v.story.gaps + [] == v.story.gaps;
    assert v.last[sym := id - 1][sym := id] == v.last[sym := id];
  }

  lemma TradeKeepsFeed(v: FeedView, sym: string, id: int)
    requires FeedOk(v)
    ensures FeedOk(SeeTrade(v, sym, id))
  {
    if sym !in v.last {
      StartKeepsFeed(v, sym, id);
      MoreLiveKeepsFeed(SeedId(v, sym, id), SeeTrade(v, sym, id), (sym, id));
    } else if id <= v.last[sym] {
      MoreLiveKeepsFeed(v, SeeTrade(v, sym, id), (sym, id));
    } else {
      TradeIsSteps(v, sym, id);
      if id == v.last[sym] + 1 {
        ExtendKeepsFeed(v, sym, id);
      } else {
        var g := TradeGap(sym, v.last[sym] + 1, id - 1, 0, 0);
        SkipKeepsFeed(v, g);
        ExtendKeepsFeed(Skip(v, g), sym, id);
      }
    }
  }

  // ---------------------------------------------------------------- whole sessions

  datatype SessionOp =
    | Seeded(sym: string, id: int)
    | Resumed(gap: TradeGap)
    | Traded(sym: string, id: int)
    | Turned(nowMs: int, reply: Option<Reply>)

  ghost function Feed(ops: seq<SessionOp>): FeedView
    decreases |ops|
  {
    if ops == [] then NO_TRADES
    else
      var v := Feed(ops[..|ops| - 1]);
      match ops[|ops| - 1]
      case Seeded(sym, id) => SeedId(v, sym, id)
      case Traded(sym, id) => SeeTrade(v, sym, id)
      case _ => v
  }

  /** What the backfill gets to do in a session: resumed gaps, detected gaps, turns. */
  ghost function BackfillOps(ops: seq<SessionOp>): seq<PumpOp>
    decreases |ops|
  {
    if ops == [] then []
    else
      var before := ops[..|ops| - 1];
      BackfillOps(before) +
      match ops[|ops| - 1]
      case Seeded(_, _) => []
      case Resumed(gap) => [AddOp(gap)]
      case Traded(sym, id) =>
        (var found := NewGap(Feed(before), sym, id); if found == [] then [] else [AddOp(found[0])])
      case Turned(now, reply) => [TurnOp(now, reply)]
  }

  ghost function ResumedGaps(ops: seq<SessionOp>): seq<TradeGap>
    decreases |ops|
  {
    if ops == [] then []
    else ResumedGaps(ops[..|ops| - 1]) + if ops[|ops| - 1].Resumed? then [ops[|ops| - 1].gap] else []
  }

  /** Seeding happens before the symbol's first trade; ids and resumed gaps are as
      the exchange numbers them, from 0 and from 1. */
  ghost predicate PossibleSession(ops: seq<SessionOp>)
    decreases |ops|
  {
    ops != [] ==>
      var before := ops[..|ops| - 1];
      && PossibleSession(before)
      && match ops[|ops| - 1]
         case Seeded(sym, id) => sym !in Feed(before).last && id >= 0
         case Traded(_, id) => id >= 0
         case Resumed(gap) => gap.firstId >= 1
         case Turned(_, _) => true
  }

  /** Main result: over any id stream, with duplicates and late ids, every id after
      a symbol's start is a live new maximum or in exactly one recorded gap. */
  lemma {:induction false} EveryIdIsAccountedFor(ops: seq<SessionOp>)
    requires PossibleSession(ops)
    ensures FeedOk(Feed(ops))
    decreases |ops|
  {
    if ops != [] {
      var v := Feed(ops[..|ops| - 1]);
      EveryIdIsAccountedFor(ops[..|ops| - 1]);
      match ops[|ops| - 1] {
        case Seeded(sym, id) => StartKeepsFeed(v, sym, id);
        case Traded(sym, id) => TradeKeepsFeed(v, sym, id);
        case _ =>
      }
    }
  }

  ghost predicate StartsOk(v: FeedView) {
    && v.last.Keys == v.story.start.Keys
    && (forall s :: s in v.last ==> v.story.start[s] >= 0 && v.last[s] >= 0)
    && (forall i :: 0 <= i < |v.story.gaps| ==> v.story.gaps[i].firstId >= 1)
  }

  lemma {:induction false} IdsStartAtZero(ops: seq<SessionOp>)
    requires PossibleSession(ops)
    ensures StartsOk(Feed(ops))
    decreases |ops|
  {
    if ops != [] { IdsStartAtZero(ops[..|ops| - 1]); }
  }
}
