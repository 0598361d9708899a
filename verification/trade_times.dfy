/** How often each trade id is published: once, and once more for every live trade that
    was a duplicate or late.
  */
module TradeTimes {
  import opened TradeBackfills
  import opened PumpProofs
  import opened TradeHandlers
  import opened TradeCoverage
  import opened TradeLossless

  /** The last operation is a live trade whose id is after the start of its symbol and
      not a new highest one. */
  ghost predicate RepeatsLast(ops: seq<SessionOp>)
    requires ops != []
  {
    var v, op := Feed(ops[..|ops| - 1]), ops[|ops| - 1];
    op.Traded? && op.sym in v.last && op.sym in v.story.start && v.story.start[op.sym] < op.id <= v.last[op.sym]
  }

  /** Trades with this id that were a duplicate or late. */
  ghost function Repeats(ops: seq<SessionOp>, s: string, x: int): nat
    decreases |ops|
  {
    if ops == [] then 0
    else
      var op := ops[|ops| - 1];
      Repeats(ops[..|ops| - 1], s, x) + if RepeatsLast(ops) && op.sym == s && op.id == x then 1 else 0
  }

  /** How often an id is published, live or by the backfill. */
  ghost function Times(cfg: BackfillConfig, ops: seq<SessionOp>, s: string, x: int): nat {
    multiset(Feed(ops).story.live)[(s, x)] + multiset(Ids(RunOps(cfg, BackfillOps(ops)).v.rows))[(s, x)]
  }

  // ---------------------------------------------------------------- live trades

  /** Each live trade is a new highest id or a repeat. */
  ghost predicate LiveCounted(ops: seq<SessionOp>, s: string, x: int) {
    var story := Feed(ops).story;
    if s in story.start then
      x > story.start[s] ==> multiset(story.live)[(s, x)] == multiset(story.maxima)[(s, x)] + Repeats(ops, s, x)
    else (s, x) !in story.live && (s, x) !in story.maxima && Repeats(ops, s, x) == 0
  }

  lemma TradeCounts(ops: seq<SessionOp>, s: string, x: int)
    requires ops != [] && ops[|ops| - 1].Traded? && LiveCounted(ops[..|ops| - 1], s, x)
    requires Feed(ops[..|ops| - 1]).last.Keys == Feed(ops[..|ops| - 1]).story.start.Keys
    ensures LiveCounted(ops, s, x)
  {
    var v, op, w := Feed(ops[..|ops| - 1]), ops[|ops| - 1], Feed(ops);
    assert w.story.live == v.story.live + [(op.sym, op.id)];
    assert op.sym in v.last <==> op.sym in v.story.start;
    var isNew := op.sym in v.last && op.id > v.last[op.sym];
    assert w.story.maxima == v.story.maxima + if isNew then [(op.sym, op.id)] else [];
  }

  lemma {:induction false} LiveIsCounted(ops: seq<SessionOp>, s: string, x: int)
    requires PossibleSession(ops)
    ensures LiveCounted(ops, s, x)
    decreases |ops|
  {
    if ops != [] {
      LiveIsCounted(ops[..|ops| - 1], s, x);
      EveryIdIsAccountedFor(ops[..|ops| - 1]);
      if ops[|ops| - 1].Traded? { TradeCounts(ops, s, x); }
    }
  }

  lemma {:induction false} OnceWithoutRepeats<T>(q: seq<T>, x: T)
    requires NoRepeats(q)
    ensures multiset(q)[x] == if x in q then 1 else 0
    decreases |q|
  {
    if q != [] {
      var n := |q| - 1;
      assert q == q[..n] + [q[n]];
      OnceWithoutRepeats(q[..n], x);
    }
  }

  // ---------------------------------------------------------------- both together

  lemma BackfilledWithoutRepeats(cfg: BackfillConfig, ops: seq<SessionOp>)
    requires PossibleSession(ops) && AllRecovered(cfg, ops) && ResumedInOrder(ops)
    ensures NoRepeats(Ids(RunOps(cfg, BackfillOps(ops)).v.rows))
  {
    var r := RunOps(cfg, BackfillOps(ops));
    var closed := ClosedGaps(r.v.events);
    SessionGaps(cfg, ops);
    RunIsDisciplined(cfg, BackfillOps(ops));
    assert closed + [] == closed;
    GapsAreApart(cfg, ops, Feed(ops).story.start);
    GotWithoutRepeats(r.added, closed);
  }

  /** Main result: when every gap was recovered, each id after a symbol's start is
      published once, and once more for every live trade that repeats it. */
  lemma OncePlusRepeats(cfg: BackfillConfig, ops: seq<SessionOp>, s: string, x: int)
    requires PossibleSession(ops) && AllRecovered(cfg, ops) && ResumedInOrder(ops)
    requires s in Feed(ops).last && s in Feed(ops).story.start
    requires Feed(ops).story.start[s] < x <= Feed(ops).last[s]
    ensures Times(cfg, ops, s, x) == 1 + Repeats(ops, s, x)
  {
    NothingLost(cfg, ops, s, x);
    LiveIsCounted(ops, s, x);
    EveryIdIsAccountedFor(ops);
    BackfilledWithoutRepeats(cfg, ops);
    OnceWithoutRepeats(Feed(ops).story.maxima, (s, x));
    OnceWithoutRepeats(Ids(RunOps(cfg, BackfillOps(ops)).v.rows), (s, x));
  }

  // ---------------------------------------------------------------- exactly once

  ghost predicate AfterStart(v: FeedView, s: string, x: int) {
    s in v.last && s in v.story.start && v.story.start[s] < x <= v.last[s]
  }

  ghost predicate EachOnce(cfg: BackfillConfig, ops: seq<SessionOp>) {
    forall s, x :: AfterStart(Feed(ops), s, x) ==> Times(cfg, ops, s, x) == 1
  }

  ghost predicate NoneRepeats(ops: seq<SessionOp>) {
    forall n :: 0 < n <= |ops| ==> !RepeatsLast(ops[..n])
  }

  lemma {:induction false} RepeatIsCounted(ops: seq<SessionOp>, n: nat)
    requires PossibleSession(ops) && 0 < n <= |ops| && RepeatsLast(ops[..n])
    ensures AfterStart(Feed(ops), ops[n - 1].sym, ops[n - 1].id) && Repeats(ops, ops[n - 1].sym, ops[n - 1].id) > 0
    decreases |ops|
  {
    if n < |ops| {
      var before := ops[..|ops| - 1];
      assert before[..n] == ops[..n];
      RepeatIsCounted(before, n);
      EveryIdIsAccountedFor(before);
      assert Covered(Feed(before), ops[n - 1].sym);
    } else {
      assert ops[..n] == ops;
    }
  }

  lemma {:induction false} CountedRepeats(ops: seq<SessionOp>, s: string, x: int) returns (n: nat)
    requires Repeats(ops, s, x) > 0
    ensures 0 < n <= |ops| && RepeatsLast(ops[..n])
    decreases |ops|
  {
    var before := ops[..|ops| - 1];
    if Repeats(before, s, x) > 0 {
      n := CountedRepeats(before, s, x);
      assert before[..n] == ops[..n];
    } else {
      n := |ops|;
      assert ops[..n] == ops;
    }
  }

  /** Main result: so each id after the start is published exactly once if and only if
      no live trade after the start was a duplicate or late. */
  lemma ExactlyOnceIff(cfg: BackfillConfig, ops: seq<SessionOp>)
    requires PossibleSession(ops) && AllRecovered(cfg, ops) && ResumedInOrder(ops)
    ensures EachOnce(cfg, ops) <==> NoneRepeats(ops)
  {
    if NoneRepeats(ops) {
      forall s, x | AfterStart(Feed(ops), s, x) ensures Times(cfg, ops, s, x) == 1 {
        OncePlusRepeats(cfg, ops, s, x);
        if Repeats(ops, s, x) > 0 { var n := CountedRepeats(ops, s, x); }
      }
    }
    if EachOnce(cfg, ops) {
      forall n | 0 < n <= |ops| ensures !RepeatsLast(ops[..n]) {
        if RepeatsLast(ops[..n]) {
          RepeatIsCounted(ops, n);
          OncePlusRepeats(cfg, ops, ops[n - 1].sym, ops[n - 1].id);
        }
      }
    }
  }

  ghost predicate Quiet(ops: seq<SessionOp>, sym: string, n: nat) {
    && PossibleSession(ops) && |ops| == n + 1
    && Feed(ops).last == map[sym := n + 1] && Feed(ops).story.start == map[sym := 1]
    && BackfillOps(ops) == [] && ResumedGaps(ops) == [] && Repeats(ops, sym, 2) == 0
  }

  lemma FirstTrade(ops: seq<SessionOp>, sym: string)
    requires ops == [Traded(sym, 1)]
    ensures Quiet(ops, sym, 0)
  {
    assert ops[..0] == [];
    assert Repeats(ops, sym, 2) == Repeats(ops[..0], sym, 2);
    assert ResumedGaps(ops) == ResumedGaps(ops[..0]) + [];
  }

  lemma SecondTrade(ops: seq<SessionOp>, sym: string)
    requires ops == [Traded(sym, 1), Traded(sym, 2)] && Quiet(ops[..1], sym, 0)
    ensures Quiet(ops, sym, 1)
  {
    assert Repeats(ops, sym, 2) == Repeats(ops[..1], sym, 2);
  }

  /** A repeated trade is published again: in a session without any gap an id goes out
      twice. */
  lemma RepeatedTrade(cfg: BackfillConfig, sym: string) returns (ops: seq<SessionOp>)
    ensures PossibleSession(ops) && AllRecovered(cfg, ops) && ResumedInOrder(ops)
    ensures AfterStart(Feed(ops), sym, 2) && Times(cfg, ops, sym, 2) == 2
  {
    ops := [Traded(sym, 1), Traded(sym, 2), Traded(sym, 2)];
    assert ops[..1] == ops[..2][..1] == [Traded(sym, 1)] && ops[..2] == [Traded(sym, 1), Traded(sym, 2)];
    FirstTrade(ops[..1], sym);
    SecondTrade(ops[..2], sym);
    OncePlusRepeats(cfg, ops, sym, 2);
  }
}
