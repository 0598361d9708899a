/** Detection and backfill together: if every gap is recovered, no trade id is lost,
    and without duplicate or late ids every id is published exactly once.
  */
module TradeLossless {
  import opened Options
  import opened TradeGaps
  import opened TradeBackfills
  import opened BackfillProofs
  import opened PumpProofs
  import opened TradeHandlers
  import opened TradeCoverage

  // ---------------------------------------------------------------- the gaps of a session

  ghost predicate StartsAtOne(ops: seq<PumpOp>) {
    forall op :: op in ops && op.AddOp? ==> op.gap.firstId >= 1
  }

  lemma AppendRun(cfg: BackfillConfig, ops: seq<PumpOp>, op: PumpOp)
    ensures RunOps(cfg, ops + [op]).added == RunOps(cfg, ops).added + if op.AddOp? then [op.gap] else []
  {
    assert (ops + [op])[..|ops|] == ops;
    assert RunOps(cfg, ops).added + [] == RunOps(cfg, ops).added;
  }

  /** The gap that the last operation of a session detects. */
  ghost function FoundLast(ops: seq<SessionOp>): seq<TradeGap>
    requires ops != []
  {
    var op := ops[|ops| - 1];
    if op.Traded? then NewGap(Feed(ops[..|ops| - 1]), op.sym, op.id) else []
  }

  ghost function ResumedLast(ops: seq<SessionOp>): seq<TradeGap>
    requires ops != []
  {
    if ops[|ops| - 1].Resumed? then [ops[|ops| - 1].gap] else []
  }

  lemma LastDetected(ops: seq<SessionOp>)
    requires ops != []
    ensures Feed(ops).story.gaps == Feed(ops[..|ops| - 1]).story.gaps + FoundLast(ops)
  {
    var v, op := Feed(ops[..|ops| - 1]), ops[|ops| - 1];
    assert v.story.gaps + [] == v.story.gaps;
    if op.Traded? { SeeTradeGaps(v, op.sym, op.id); }
  }

  /** The backfill operations of the last operation of a session. */
  ghost function LastOps(ops: seq<SessionOp>): seq<PumpOp>
    requires ops != []
  {
    match ops[|ops| - 1]
    case Turned(now, reply) => [TurnOp(now, reply)]
    case Resumed(gap) => [AddOp(gap)]
    case Traded(_, _) => if FoundLast(ops) == [] then [] else [AddOp(FoundLast(ops)[0])]
    case Seeded(_, _) => []
  }

  lemma LastAdded(cfg: BackfillConfig, ops: seq<SessionOp>)
    requires ops != []
    ensures RunOps(cfg, BackfillOps(ops)).added ==
            RunOps(cfg, BackfillOps(ops[..|ops| - 1])).added + (FoundLast(ops) + ResumedLast(ops))
  {
    var bops, more := BackfillOps(ops[..|ops| - 1]), LastOps(ops);
    assert BackfillOps(ops) == bops + more;
    if more == [] {
      assert bops + more == bops;
      assert FoundLast(ops) + ResumedLast(ops) == [];
    } else {
      AppendRun(cfg, bops, more[0]);
      assert more == [more[0]];
      assert FoundLast(ops) + ResumedLast(ops) == if more[0].AddOp? then [more[0].gap] else [];
    }
  }

  lemma LastOperation(cfg: BackfillConfig, ops: seq<SessionOp>)
    requires ops != []
    ensures var before := ops[..|ops| - 1];
      && RunOps(cfg, BackfillOps(ops)).added ==
         RunOps(cfg, BackfillOps(before)).added + (FoundLast(ops) + ResumedLast(ops))
      && Feed(ops).story.gaps == Feed(before).story.gaps + FoundLast(ops)
      && ResumedGaps(ops) == ResumedGaps(before) + ResumedLast(ops)
  {
    LastDetected(ops);
    LastAdded(cfg, ops);
  }

  lemma {:induction false} SessionStartsAtOne(ops: seq<SessionOp>)
    requires PossibleSession(ops)
    ensures StartsAtOne(BackfillOps(ops))
    decreases |ops|
  {
    if ops != [] {
      SessionStartsAtOne(ops[..|ops| - 1]);
      IdsStartAtZero(ops[..|ops| - 1]);
    }
  }

  /** The backfill of a session gets the resumed and the detected gaps, and no others;
      without resumed ones, in the order they were detected. */
  lemma {:induction false} SessionGaps(cfg: BackfillConfig, ops: seq<SessionOp>)
    requires PossibleSession(ops)
    ensures StartsAtOne(BackfillOps(ops))
    ensures var added := RunOps(cfg, BackfillOps(ops)).added;
      && (forall g :: g in added <==> g in Feed(ops).story.gaps || g in ResumedGaps(ops))
      && (ResumedGaps(ops) == [] ==> added == Feed(ops).story.gaps)
    decreases |ops|
  {
    SessionStartsAtOne(ops);
    if ops != [] {
      SessionGaps(cfg, ops[..|ops| - 1]);
      LastOperation(cfg, ops);
    }
  }

  lemma SeeTradeGaps(v: FeedView, sym: string, id: int)
    ensures SeeTrade(v, sym, id).story.gaps == v.story.gaps + NewGap(v, sym, id)
  {
    assert v.story.gaps + [] == v.story.gaps;
  }

  // ---------------------------------------------------------------- what recovered means

  ghost predicate RecoveredOk(events: seq<GapEvent>) {
    forall i :: 0 <= i < |events| && events[i].status == Recovered ==>
      events[i].gap.NextNeededId() > events[i].gap.lastId
  }

  lemma {:induction false} CloseKeepsRecovered(cfg: BackfillConfig, v: BackfillView)
    requires RecoveredOk(v.events)
    ensures RecoveredOk(CloseHeads(cfg, v).events)
    decreases |v.queue|
  {
    if v.queue != [] && CloseReason(cfg, v.queue[0].gap).Some? {
      var c := CloseReason(cfg, v.queue[0].gap).value;
      CloseKeepsRecovered(cfg, FinishHead(v, c.0, c.1));
    }
  }

  lemma StepRecovered(cfg: BackfillConfig, job: Job, s: JobStep, events: seq<GapEvent>)
    requires StepOk(cfg, job, s) && RecoveredOk(events)
    ensures RecoveredOk(events + s.events)
  {
  }

  lemma TurnKeepsRecovered(cfg: BackfillConfig, v: BackfillView, nowMs: int, reply: Option<Reply>,
                           added: seq<TradeGap>, arrived: nat)
    requires PumpOk(cfg, v, added, arrived) && RecoveredOk(v.events)
    ensures RecoveredOk(Turn(cfg, v, nowMs, reply).0.events)
  {
    if v.inFlight && reply.Some? {
      var w := v.(inFlight := false);
      var v1 := OnPage(cfg, w, reply.value.page, nowMs, reply.value.jitter);
      PageIsLocal(cfg, w, reply.value.page, nowMs, reply.value.jitter);
      StepJobFacts(cfg, v.queue[0], reply.value.page);
      StepRecovered(cfg, v.queue[0], StepJob(cfg, v.queue[0], reply.value.page), v.events);
      CloseKeepsRecovered(cfg, v1);
    } else if !v.inFlight {
      CloseKeepsRecovered(cfg, v);
    }
  }

  lemma {:induction false} RunRecoveredOk(cfg: BackfillConfig, ops: seq<PumpOp>)
    requires StartsAtOne(ops)
    ensures RecoveredOk(RunOps(cfg, ops).v.events)
    decreases |ops|
  {
    if ops != [] {
      var before, op := ops[..|ops| - 1], ops[|ops| - 1];
      var r := RunOps(cfg, before);
      RunRecoveredOk(cfg, before);
      RunIsDisciplined(cfg, before);
      if op.TurnOp? { TurnKeepsRecovered(cfg, r.v, op.nowMs, op.reply, r.added, r.arrived); }
    }
  }

  lemma {:induction false} ClosedByEvent(events: seq<GapEvent>, i: nat) returns (k: nat)
    requires i < |ClosedGaps(events)|
    ensures k < |events| && events[k].gap == ClosedGaps(events)[i] && events[k].status != Partial
    decreases |events|
  {
    if i < |ClosedGaps(events[..|events| - 1])| {
      k := ClosedByEvent(events[..|events| - 1], i);
    } else {
      k := |events| - 1;
    }
  }

  // ---------------------------------------------------------------- the published ids

  /** The i-th gap has got id x. */
  ghost predicate GotIt(added: seq<TradeGap>, now: seq<TradeGap>, i: int, sym: string, x: int)
    requires 0 <= i < |now| <= |added|
  {
    added[i].sym == sym && added[i].NextNeededId() <= x < now[i].NextNeededId()
  }

  lemma {:induction false} GotByAGap(added: seq<TradeGap>, now: seq<TradeGap>, sym: string, x: int) returns (i: nat)
    requires |now| <= |added| && (sym, x) in AllGot(added, now)
    ensures i < |now| && GotIt(added, now, i, sym, x)
    decreases |now|
  {
    var n := |now| - 1;
    if (sym, x) in AllGot(added, now[..n]) {
      i := GotByAGap(added, now[..n], sym, x);
    } else {
      assert (sym, x) in Got(added[n], now[n]);
      i := n;
    }
  }

  lemma {:induction false} GapGotIt(added: seq<TradeGap>, now: seq<TradeGap>, i: nat, sym: string, x: int)
    requires i < |now| <= |added| && GotIt(added, now, i, sym, x)
    ensures (sym, x) in AllGot(added, now)
    decreases |now|
  {
    var n := |now| - 1;
    if i < n {
      GapGotIt(added, now[..n], i, sym, x);
    } else {
      var k := x - added[n].NextNeededId();
      assert Got(added[n], now[n])[k] == (sym, x);
    }
  }

  /** All gaps of a session are closed and none was given up. */
  ghost predicate AllRecovered(cfg: BackfillConfig, ops: seq<SessionOp>) {
    var v := RunOps(cfg, BackfillOps(ops)).v;
    && v.queue == []
    && forall i :: 0 <= i < |v.events| ==> v.events[i].status != Unrecoverable && v.events[i].status != Detected
  }

  lemma ClosedGapIsWhole(cfg: BackfillConfig, ops: seq<SessionOp>, i: nat)
    requires PossibleSession(ops) && AllRecovered(cfg, ops)
    requires i < |RunOps(cfg, BackfillOps(ops)).added|
    ensures var r := RunOps(cfg, BackfillOps(ops));
      var closed := ClosedGaps(r.v.events);
      && |closed| == |r.added| && Begun(closed, r.v.queue) == closed
      && FromGap(r.added[i], closed[i]) && closed[i].NextNeededId() > r.added[i].lastId
  {
    var r := RunOps(cfg, BackfillOps(ops));
    SessionGaps(cfg, ops);
    RunIsDisciplined(cfg, BackfillOps(ops));
    RunRecoveredOk(cfg, BackfillOps(ops));
    var k := ClosedByEvent(r.v.events, i);
  }

  /** An id in a detected gap was backfilled. */
  lemma GapIdIsBackfilled(cfg: BackfillConfig, ops: seq<SessionOp>, k: nat, x: int)
    requires PossibleSession(ops) && AllRecovered(cfg, ops) && k < |Feed(ops).story.gaps|
    requires InGap(Feed(ops).story.gaps[k], Feed(ops).story.gaps[k].sym, x)
    ensures var r := RunOps(cfg, BackfillOps(ops));
      && |ClosedGaps(r.v.events)| <= |r.added|
      && (Feed(ops).story.gaps[k].sym, x) in AllGot(r.added, ClosedGaps(r.v.events))
  {
    var g, r := Feed(ops).story.gaps[k], RunOps(cfg, BackfillOps(ops));
    SessionGaps(cfg, ops);
    EveryIdIsAccountedFor(ops);
    assert GapOk(Feed(ops), g);
    assert g in Feed(ops).story.gaps;
    assert g in r.added;
    var i :| 0 <= i < |r.added| && r.added[i] == g;
    ClosedGapIsWhole(cfg, ops, i);
    GapGotIt(r.added, ClosedGaps(r.v.events), i, g.sym, x);
  }

  /** A backfilled id after the start of its symbol was in a detected gap. */
  lemma BackfilledIdIsInGap(cfg: BackfillConfig, ops: seq<SessionOp>, i: nat, s: string, x: int)
    requires PossibleSession(ops) && i < |RunOps(cfg, BackfillOps(ops)).added|
    requires s in Feed(ops).story.start && x > Feed(ops).story.start[s]
    requires ResumedBefore(ops, s)
    requires var g := RunOps(cfg, BackfillOps(ops)).added[i]; g.sym == s && g.NextNeededId() <= x <= g.lastId
    ensures InSomeGap(Feed(ops).story.gaps, s, x)
  {
    SessionGaps(cfg, ops);
    var g := RunOps(cfg, BackfillOps(ops)).added[i];
    assert forall j :: 0 <= j < |ResumedGaps(ops)| ==> ResumedGaps(ops)[j] != g;
    assert g in Feed(ops).story.gaps;
    var k :| 0 <= k < |Feed(ops).story.gaps| && Feed(ops).story.gaps[k] == g;
    EveryIdIsAccountedFor(ops);
    assert GapOk(Feed(ops), g);
    assert InGap(Feed(ops).story.gaps[k], s, x);
  }

  /** The gaps left open by an earlier run end at the id this run starts from. */
  ghost predicate ResumedBefore(ops: seq<SessionOp>, s: string)
    requires s in Feed(ops).story.start
  {
    forall i :: 0 <= i < |ResumedGaps(ops)| && ResumedGaps(ops)[i].sym == s ==>
      ResumedGaps(ops)[i].lastId <= Feed(ops).story.start[s]
  }

  /** In a recovered session the backfilled ids are exactly those in a gap. */
  lemma BackfilledIffInGap(cfg: BackfillConfig, ops: seq<SessionOp>, s: string, x: int)
    requires PossibleSession(ops) && AllRecovered(cfg, ops)
    requires s in Feed(ops).story.start && x > Feed(ops).story.start[s] && ResumedBefore(ops, s)
    ensures InSomeGap(Feed(ops).story.gaps, s, x) <==> (s, x) in Ids(RunOps(cfg, BackfillOps(ops)).v.rows)
  {
    var r := RunOps(cfg, BackfillOps(ops));
    var closed := ClosedGaps(r.v.events);
    SessionGaps(cfg, ops);
    RunIsDisciplined(cfg, BackfillOps(ops));
    assert closed + [] == closed;
    if InSomeGap(Feed(ops).story.gaps, s, x) {
      var k :| 0 <= k < |Feed(ops).story.gaps| && InGap(Feed(ops).story.gaps[k], s, x);
      GapIdIsBackfilled(cfg, ops, k, x);
    }
    if (s, x) in Ids(r.v.rows) {
      var i := GotByAGap(r.added, closed, s, x);
      assert FromGap(r.added[i], closed[i]);
      BackfilledIdIsInGap(cfg, ops, i, s, x);
    }
  }

  /** Main result: in a session whose gaps were all recovered, every id after the
      start of a symbol has been published: live as a new maximum, or backfilled,
      and not both. Resumed gaps end before the start. */
  lemma NothingLost(cfg: BackfillConfig, ops: seq<SessionOp>, s: string, x: int)
    requires PossibleSession(ops) && AllRecovered(cfg, ops)
    requires s in Feed(ops).last && s in Feed(ops).story.start
    requires Feed(ops).story.start[s] < x <= Feed(ops).last[s] && ResumedBefore(ops, s)
    ensures var v, rows := Feed(ops), RunOps(cfg, BackfillOps(ops)).v.rows;
      && ((s, x) in v.story.live || (s, x) in Ids(rows))
      && ((s, x) in v.story.maxima <==> (s, x) !in Ids(rows))
  {
    var v := Feed(ops);
    EveryIdIsAccountedFor(ops);
    BackfilledIffInGap(cfg, ops, s, x);
    assert Covered(v, s);
    if (s, x) in v.story.maxima {
      var i :| 0 <= i < |v.story.maxima| && v.story.maxima[i] == (s, x);
      assert MaxOk(v, v.story.maxima[i]);
    }
  }

  // ---------------------------------------------------------------- exactly once

  ghost predicate NoRepeats<T>(q: seq<T>) {
    forall i, j :: 0 <= i < j < |q| ==> q[i] != q[j]
  }

  /** Without duplicate and late ids, live trades of a symbol only increase. */
  ghost predicate LiveOk(v: FeedView) {
    && v.last.Keys == v.story.start.Keys
    && (forall i :: 0 <= i < |v.story.live| ==>
          var t := v.story.live[i]; t.0 in v.last && t.1 <= v.last[t.0])
    && (v.ctr.duplicates == 0 && v.ctr.outOfOrder == 0 ==>
          && (forall i :: 0 <= i < |v.story.live| ==>
                var t := v.story.live[i]; t.1 == v.story.start[t.0] || t in v.story.maxima)
          && (forall i, j :: 0 <= i < j < |v.story.live| && v.story.live[i].0 == v.story.live[j].0 ==>
                v.story.live[i].1 < v.story.live[j].1))
  }

  lemma TradeKeepsLive(v: FeedView, sym: string, id: int)
    requires LiveOk(v)
    ensures LiveOk(SeeTrade(v, sym, id))
  {
    var w := SeeTrade(v, sym, id);
    assert w.story.live == v.story.live + [(sym, id)];
    assert forall t :: t in v.story.maxima ==> t in w.story.maxima;
    if sym in v.last && id > v.last[sym] {
      assert w.story.maxima[|v.story.maxima|] == (sym, id);
      SameKeys(v.last, sym, id);
    }
  }

  lemma {:induction false} SessionKeepsLive(ops: seq<SessionOp>)
    requires PossibleSession(ops)
    ensures LiveOk(Feed(ops))
    decreases |ops|
  {
    if ops != [] {
      SessionKeepsLive(ops[..|ops| - 1]);
      match ops[|ops| - 1] {
        case Traded(sym, id) => TradeKeepsLive(Feed(ops[..|ops| - 1]), sym, id);
        case _ =>
      }
    }
  }

  /** No id is needed for both gaps. */
  predicate Apart(g: TradeGap, h: TradeGap) {
    g.sym != h.sym || g.lastId < h.NextNeededId() || h.lastId < g.NextNeededId()
  }

  ghost predicate AllApart(gaps: seq<TradeGap>) {
    forall i, j :: 0 <= i < j < |gaps| ==> Apart(gaps[i], gaps[j])
  }

  ghost predicate Before(gaps: seq<TradeGap>, start: map<string, int>) {
    forall i :: 0 <= i < |gaps| && gaps[i].sym in start ==> gaps[i].lastId <= start[gaps[i].sym]
  }

  ghost predicate Extends(start: map<string, int>, more: map<string, int>) {
    forall s :: s in start ==> s in more && more[s] == start[s]
  }

  lemma StartExtends(ops: seq<SessionOp>)
    requires PossibleSession(ops) && ops != []
    ensures Extends(Feed(ops[..|ops| - 1]).story.start, Feed(ops).story.start)
  {
    var before := ops[..|ops| - 1];
    EveryIdIsAccountedFor(before);
    assert Feed(before).last.Keys == Feed(before).story.start.Keys;
  }

  lemma ApartGrows(gaps: seq<TradeGap>, g: TradeGap)
    requires AllApart(gaps) && forall h :: h in gaps ==> Apart(h, g)
    ensures AllApart(gaps + [g])
  {
  }

  lemma NewGapIsApart(cfg: BackfillConfig, ops: seq<SessionOp>, start: map<string, int>, g: TradeGap, h: TradeGap)
    requires PossibleSession(ops) && ops != []
    requires Extends(Feed(ops).story.start, start) && Before(ResumedGaps(ops), start)
    requires Feed(ops).story.gaps == Feed(ops[..|ops| - 1]).story.gaps + [g]
    requires h in ResumedGaps(ops) || h in Feed(ops[..|ops| - 1]).story.gaps
    ensures Apart(h, g)
  {
    var v, earlier := Feed(ops), Feed(ops[..|ops| - 1]).story.gaps;
    EveryIdIsAccountedFor(ops);
    assert v.story.gaps[|earlier|] == g;
    assert GapOk(v, v.story.gaps[|earlier|]);
    if h in earlier {
      var i :| 0 <= i < |earlier| && earlier[i] == h;
      assert v.story.gaps[i] == h;
      assert GapOk(v, v.story.gaps[i]);
    } else {
      var i :| 0 <= i < |ResumedGaps(ops)| && ResumedGaps(ops)[i] == h;
    }
  }

  lemma ResumedGapIsApart(ops: seq<SessionOp>, start: map<string, int>, g: TradeGap, h: TradeGap)
    requires PossibleSession(ops) && Extends(Feed(ops).story.start, start)
    requires g.sym in start ==> g.lastId <= start[g.sym]
    requires h in Feed(ops).story.gaps
    ensures Apart(h, g)
  {
    EveryIdIsAccountedFor(ops);
    var gaps := Feed(ops).story.gaps;
    var i :| 0 <= i < |gaps| && gaps[i] == h;
    assert GapOk(Feed(ops), gaps[i]);
  }

  /** The gaps of a session do not overlap. */
  lemma {:induction false} GapsAreApart(cfg: BackfillConfig, ops: seq<SessionOp>, start: map<string, int>)
    requires PossibleSession(ops) && Extends(Feed(ops).story.start, start)
    requires AllApart(ResumedGaps(ops)) && Before(ResumedGaps(ops), start)
    ensures AllApart(RunOps(cfg, BackfillOps(ops)).added)
    decreases |ops|
  {
    if ops != [] {
      var before, op := ops[..|ops| - 1], ops[|ops| - 1];
      var resumed := ResumedGaps(before);
      assert ResumedGaps(ops) == resumed + if op.Resumed? then [op.gap] else [];
      assert forall i :: 0 <= i < |resumed| ==> resumed[i] == ResumedGaps(ops)[i];
      StartExtends(ops);
      GapsAreApart(cfg, before, start);
      SessionGaps(cfg, before);
      LastGapIsApart(cfg, ops, start);
    }
  }

  /** A gap resumed last is apart from all before it. */
  lemma ResumedIsApart(cfg: BackfillConfig, ops: seq<SessionOp>, start: map<string, int>, h: TradeGap)
    requires PossibleSession(ops) && ops != [] && ops[|ops| - 1].Resumed?
    requires Extends(Feed(ops).story.start, start)
    requires AllApart(ResumedGaps(ops)) && Before(ResumedGaps(ops), start)
    requires h in RunOps(cfg, BackfillOps(ops[..|ops| - 1])).added
    ensures Apart(h, ops[|ops| - 1].gap)
  {
    var before, g := ops[..|ops| - 1], ops[|ops| - 1].gap;
    var resumed, all := ResumedGaps(before), ResumedGaps(ops);
    SessionGaps(cfg, before);
    StartExtends(ops);
    assert all == resumed + [g] && all[|resumed|] == g;
    if h in Feed(before).story.gaps {
      ResumedGapIsApart(before, start, g, h);
    } else {
      var i :| 0 <= i < |resumed| && resumed[i] == h;
      assert all[i] == h;
    }
  }

  /** So is a gap detected last. */
  lemma DetectedIsApart(cfg: BackfillConfig, ops: seq<SessionOp>, start: map<string, int>, h: TradeGap)
    requires PossibleSession(ops) && ops != [] && FoundLast(ops) != []
    requires Extends(Feed(ops).story.start, start) && Before(ResumedGaps(ops), start)
    requires h in RunOps(cfg, BackfillOps(ops[..|ops| - 1])).added
    ensures Apart(h, FoundLast(ops)[0])
  {
    var found := FoundLast(ops);
    SessionGaps(cfg, ops[..|ops| - 1]);
    LastOperation(cfg, ops);
    assert found == [found[0]];
    assert ResumedGaps(ops) == ResumedGaps(ops[..|ops| - 1]) + [] == ResumedGaps(ops[..|ops| - 1]);
    NewGapIsApart(cfg, ops, start, found[0], h);
  }

  lemma LastGapIsApart(cfg: BackfillConfig, ops: seq<SessionOp>, start: map<string, int>)
    requires PossibleSession(ops) && ops != [] && Extends(Feed(ops).story.start, start)
    requires AllApart(ResumedGaps(ops)) && Before(ResumedGaps(ops), start)
    requires AllApart(RunOps(cfg, BackfillOps(ops[..|ops| - 1])).added)
    ensures AllApart(RunOps(cfg, BackfillOps(ops)).added)
  {
    var added, last := RunOps(cfg, BackfillOps(ops[..|ops| - 1])).added, FoundLast(ops) + ResumedLast(ops);
    LastAdded(cfg, ops);
    if last == [] {
      assert added + last == added;
    } else {
      assert last == [last[0]];
      forall h | h in added ensures Apart(h, last[0]) {
        if ops[|ops| - 1].Resumed? {
          ResumedIsApart(cfg, ops, start, h);
        } else {
          DetectedIsApart(cfg, ops, start, h);
        }
      }
      ApartGrows(added, last[0]);
    }
  }

  lemma {:induction false} GotWithoutRepeats(added: seq<TradeGap>, now: seq<TradeGap>)
    requires |now| <= |added| && AllApart(added)
    requires forall i :: 0 <= i < |now| ==> FromGap(added[i], now[i])
    ensures NoRepeats(AllGot(added, now))
    decreases |now|
  {
    if now != [] {
      var n := |now| - 1;
      GotWithoutRepeats(added, now[..n]);
      var a, b := AllGot(added, now[..n]), Got(added[n], now[n]);
      forall i, j | 0 <= i < |a| && 0 <= j < |b| ensures a[i] != b[j] {
        var k := GotByAGap(added, now[..n], a[i].0, a[i].1);
        assert FromGap(added[k], now[k]) && Apart(added[k], added[n]);
      }
    }
  }

  /** The gaps an earlier run left open do not overlap and end before this run starts. */
  ghost predicate ResumedInOrder(ops: seq<SessionOp>) {
    AllApart(ResumedGaps(ops)) && Before(ResumedGaps(ops), Feed(ops).story.start)
  }

  /** Main result: with no duplicate and no late ids, and every gap recovered, each id
      after a symbol's start is published exactly once; gaps resumed from an earlier run
      do not disturb that. */
  lemma ExactlyOnce(cfg: BackfillConfig, ops: seq<SessionOp>, s: string, x: int)
    requires PossibleSession(ops) && AllRecovered(cfg, ops) && ResumedInOrder(ops)
    requires Feed(ops).ctr.duplicates == 0 && Feed(ops).ctr.outOfOrder == 0
    requires s in Feed(ops).last && s in Feed(ops).story.start
    requires Feed(ops).story.start[s] < x <= Feed(ops).last[s]
    ensures var live, ids := Feed(ops).story.live, Ids(RunOps(cfg, BackfillOps(ops)).v.rows);
      && NoRepeats(live) && NoRepeats(ids)
      && ((s, x) in live <==> (s, x) !in ids)
  {
    var v, r := Feed(ops), RunOps(cfg, BackfillOps(ops));
    var closed := ClosedGaps(r.v.events);
    NothingLost(cfg, ops, s, x);
    SessionKeepsLive(ops);
    SessionGaps(cfg, ops);
    RunIsDisciplined(cfg, BackfillOps(ops));
    assert closed + [] == closed;
    GapsAreApart(cfg, ops, v.story.start);
    GotWithoutRepeats(r.added, closed);
    if (s, x) in v.story.live {
      var i :| 0 <= i < |v.story.live| && v.story.live[i] == (s, x);
    }
  }
}
