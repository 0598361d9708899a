/** Which `time` a row gets while the clock is behind (cpp/include/row_clock.hpp), and
    what holds over any sequence of events and rows.
  */
module RowClocks {
  const NS_PER_MS := 1000000

  datatype ClockEdge = NoEdge | LagStarted | LagEnded

  datatype RowStamp = RowStamp(timeUtcNs: int, corrected: bool, lagMs: int, edge: ClockEdge)

  datatype Episode = Episode(rows: nat, maxLagMs: int)

  datatype ClockState = ClockState(
    lastEventMs: int, correctedRows: nat, lagging: bool, current: Episode, ended: Episode)

  const CLOCK_AT_START := ClockState(0, 0, false, Episode(0, 0), Episode(0, 0))

  /** Integer division of C++: toward zero. */
  function Truncated(a: int, b: int): (q: int)
    requires b > 0
    ensures a >= 0 ==> b * q <= a < b * (q + 1)
    ensures a < 0 ==> b * (q - 1) < a <= b * q <= 0
  {
    if a >= 0 then a / b else -((-a) / b)
  }

  predicate HasEventTime(eventTimeMs: int) {
    eventTimeMs > 0
  }

  /** One row, given the event time it is held against. */
  function StampRowTime(recvNs: int, eventTimeMs: int, thresholdMs: int): (s: RowStamp)
    ensures s.corrected <==>
              && HasEventTime(eventTimeMs) && thresholdMs > 0
              && eventTimeMs * NS_PER_MS > recvNs + thresholdMs * NS_PER_MS
    ensures s.timeUtcNs != recvNs <==> s.corrected
    ensures s.corrected ==> s.timeUtcNs == eventTimeMs * NS_PER_MS && s.lagMs >= thresholdMs
  {
    var s := RowStamp(recvNs, false, 0, NoEdge);
    if !HasEventTime(eventTimeMs) || thresholdMs <= 0 then s
    else
      var eventNs := eventTimeMs * NS_PER_MS;
      var lag := Truncated(eventNs - recvNs, NS_PER_MS);
      if eventNs - recvNs > thresholdMs * NS_PER_MS then s.(lagMs := lag, timeUtcNs := eventNs, corrected := true)
      else s.(lagMs := lag)
  }

  function Later(seen: int, eventTimeMs: int): int {
    if HasEventTime(eventTimeMs) then eventTimeMs else seen
  }

  function WithRow(e: Episode, lagMs: int): Episode {
    Episode(e.rows + 1, if lagMs > e.maxLagMs then lagMs else e.maxLagMs)
  }

  ghost function Stamp(thresholdMs: int, c: ClockState, recvNs: int, ownMs: int): (ClockState, RowStamp) {
    var seen := c.(lastEventMs := Later(c.lastEventMs, ownMs));
    var s := StampRowTime(recvNs, seen.lastEventMs, thresholdMs);
    if s.corrected then
      (seen.(correctedRows := c.correctedRows + 1, current := WithRow(c.current, s.lagMs), lagging := true),
       if c.lagging then s else s.(edge := LagStarted))
    else if c.lagging && HasEventTime(seen.lastEventMs) && s.lagMs <= Truncated(thresholdMs, 2) then
      (seen.(lagging := false, ended := c.current, current := Episode(0, 0)), s.(edge := LagEnded))
    else (seen, s)
  }

  class RowClock {
    const thresholdMs: int
    var st: ClockState

    constructor (thresholdMs: int)
      ensures this.thresholdMs == thresholdMs && st == CLOCK_AT_START
    {
      this.thresholdMs := thresholdMs;
      st := CLOCK_AT_START;
    }

    /** Every event counts, also one that leads to no row. */
    method NoteEvent(eventTimeMs: int)
      modifies this
      ensures st == old(st).(lastEventMs := Later(old(st.lastEventMs), eventTimeMs))
    {
      if HasEventTime(eventTimeMs) { st := st.(lastEventMs := eventTimeMs); }
    }

    /** What a row is held against: its own event time, or else the latest. */
    method StampRow(recvNs: int, ownMs: int) returns (s: RowStamp)
      modifies this
      ensures (st, s) == Stamp(thresholdMs, old(st), recvNs, ownMs)
    {
      NoteEvent(ownMs);
      var ref := if HasEventTime(ownMs) then ownMs else st.lastEventMs;
      s := StampRowTime(recvNs, ref, thresholdMs);
      if s.corrected {
        st := st.(correctedRows := st.correctedRows + 1, current := WithRow(st.current, s.lagMs));
        if !st.lagging {
          st := st.(lagging := true);
          s := s.(edge := LagStarted);
        }
      } else if st.lagging && HasEventTime(ref) && s.lagMs <= Truncated(thresholdMs, 2) {
        st := st.(lagging := false, ended := st.current, current := Episode(0, 0));
        s := s.(edge := LagEnded);
      }
    }
  }

  // ---------------------------------------------------------------- runs

  datatype ClockOp = EventOp(eventTimeMs: int) | RowOp(recvNs: int, ownMs: int)

  /** The rows stamped, and each episode as reported when it ended. */
  datatype ClockRun = ClockRun(c: ClockState, rows: seq<RowStamp>, reported: seq<Episode>)

  ghost function Step(thresholdMs: int, r: ClockRun, op: ClockOp): ClockRun {
    match op
    case EventOp(ms) => r.(c := r.c.(lastEventMs := Later(r.c.lastEventMs, ms)))
    case RowOp(recvNs, ownMs) =>
      var (c, s) := Stamp(thresholdMs, r.c, recvNs, ownMs);
      ClockRun(c, r.rows + [s], r.reported + if s.edge.LagEnded? then [c.ended] else [])
  }

  ghost function Run(thresholdMs: int, ops: seq<ClockOp>): ClockRun
    decreases |ops|
  {
    if ops == [] then ClockRun(CLOCK_AT_START, [], [])
    else Step(thresholdMs, Run(thresholdMs, ops[..|ops| - 1]), ops[|ops| - 1])
  }

  // ---------------------------------------------------------------- what the rows themselves say

  /** The latest usable event time, from an event or from a row. */
  ghost function LatestEvent(ops: seq<ClockOp>): int
    decreases |ops|
  {
    if ops == [] then 0
    else
      var op := ops[|ops| - 1];
      var ms := if op.EventOp? then op.eventTimeMs else op.ownMs;
      if HasEventTime(ms) then ms else LatestEvent(ops[..|ops| - 1])
  }

  /** The edges of a sequence of rows, in order. */
  ghost function Edges(rows: seq<RowStamp>): seq<ClockEdge>
    decreases |rows|
  {
    if rows == [] then []
    else
      var e := rows[|rows| - 1].edge;
      Edges(rows[..|rows| - 1]) + if e.NoEdge? then [] else [e]
  }

  ghost function Starts(rows: seq<RowStamp>): nat
    decreases |rows|
  {
    if rows == [] then 0
    else Starts(rows[..|rows| - 1]) + if rows[|rows| - 1].edge.LagStarted? then 1 else 0
  }

  /** The corrected rows of the k-th episode: those after its start and before the next. */
  ghost function EpisodeOf(rows: seq<RowStamp>, k: nat): Episode
    decreases |rows|
  {
    if rows == [] then Episode(0, 0)
    else
      var before, s := EpisodeOf(rows[..|rows| - 1], k), rows[|rows| - 1];
      if s.corrected && Starts(rows) == k then WithRow(before, s.lagMs) else before
  }

  /** Row i was corrected in the k-th episode. */
  ghost predicate InEpisode(rows: seq<RowStamp>, k: nat, i: int) {
    0 <= i < |rows| && rows[i].corrected && Starts(rows[..i + 1]) == k
  }

  ghost function RowsInEpisode(rows: seq<RowStamp>, k: nat): nat
    decreases |rows|
  {
    if rows == [] then 0
    else RowsInEpisode(rows[..|rows| - 1], k) + if InEpisode(rows, k, |rows| - 1) then 1 else 0
  }

  /** m is the largest lag of the k-th episode. */
  ghost predicate LargestLag(rows: seq<RowStamp>, k: nat, m: int) {
    && (forall i :: InEpisode(rows, k, i) ==> rows[i].lagMs <= m)
    && (exists i :: InEpisode(rows, k, i) && rows[i].lagMs == m)
  }

  ghost predicate Describes(e: Episode, rows: seq<RowStamp>, k: nat) {
    e.rows == RowsInEpisode(rows, k) && if e.rows == 0 then e.maxLagMs == 0 else LargestLag(rows, k, e.maxLagMs)
  }

  ghost function CorrectedCount(rows: seq<RowStamp>): nat
    decreases |rows|
  {
    if rows == [] then 0
    else CorrectedCount(rows[..|rows| - 1]) + if rows[|rows| - 1].corrected then 1 else 0
  }

  ghost function RowsOf(episodes: seq<Episode>): nat
    decreases |episodes|
  {
    if episodes == [] then 0 else RowsOf(episodes[..|episodes| - 1]) + episodes[|episodes| - 1].rows
  }

  ghost predicate Alternates(edges: seq<ClockEdge>) {
    forall i :: 0 <= i < |edges| ==> edges[i] == if i % 2 == 0 then LagStarted else LagEnded
  }

  /** Some row was corrected, and every row since then was more than half the threshold behind. */
  ghost predicate StillLagging(thresholdMs: int, rows: seq<RowStamp>) {
    exists i :: 0 <= i < |rows| && rows[i].corrected && AllBehind(thresholdMs, rows, i + 1)
  }

  ghost predicate AllBehind(thresholdMs: int, rows: seq<RowStamp>, from: nat) {
    forall j :: from <= j < |rows| ==> rows[j].lagMs > thresholdMs / 2
  }

  // ---------------------------------------------------------------- what every step keeps

  ghost predicate EdgesOk(r: ClockRun) {
    var edges := Edges(r.rows);
    && Alternates(edges) && (r.c.lagging <==> |edges| % 2 == 1)
    && |r.reported| == |edges| / 2 && Starts(r.rows) == (|edges| + 1) / 2
  }

  ghost predicate ReportedOk(r: ClockRun) {
    && (forall k :: 0 <= k < |r.reported| ==> r.reported[k] == EpisodeOf(r.rows, k + 1) && r.reported[k].rows > 0)
    && (forall k :: k > Starts(r.rows) ==> EpisodeOf(r.rows, k) == Episode(0, 0))
  }

  ghost predicate CurrentOk(r: ClockRun) {
    if r.c.lagging then r.c.current == EpisodeOf(r.rows, Starts(r.rows)) && r.c.current.rows > 0
    else r.c.current == Episode(0, 0)
  }

  ghost predicate CountOk(r: ClockRun) {
    r.c.correctedRows == CorrectedCount(r.rows) == RowsOf(r.reported) + r.c.current.rows
  }

  ghost predicate EpisodesOk(r: ClockRun) {
    ReportedOk(r) && CurrentOk(r) && CountOk(r)
  }

  /** What one more row adds to each count. */
  lemma RowAdded(rows: seq<RowStamp>, s: RowStamp)
    ensures var all := rows + [s];
      && Edges(all) == Edges(rows) + (if s.edge.NoEdge? then [] else [s.edge])
      && Starts(all) == Starts(rows) + (if s.edge.LagStarted? then 1 else 0)
      && CorrectedCount(all) == CorrectedCount(rows) + (if s.corrected then 1 else 0)
      && forall k :: EpisodeOf(all, k) ==
           if s.corrected && Starts(all) == k then WithRow(EpisodeOf(rows, k), s.lagMs) else EpisodeOf(rows, k)
  {
    assert (rows + [s])[..|rows|] == rows;
  }

  lemma StampKeepsEdges(thresholdMs: int, r: ClockRun, op: ClockOp)
    requires op.RowOp? && EdgesOk(r)
    ensures EdgesOk(Step(thresholdMs, r, op))
  {
    RowAdded(r.rows, Stamp(thresholdMs, r.c, op.recvNs, op.ownMs).1);
  }

  lemma StampKeepsReported(thresholdMs: int, r: ClockRun, op: ClockOp)
    requires op.RowOp? && EdgesOk(r) && ReportedOk(r) && CurrentOk(r)
    ensures ReportedOk(Step(thresholdMs, r, op)) && CurrentOk(Step(thresholdMs, r, op))
  {
    RowAdded(r.rows, Stamp(thresholdMs, r.c, op.recvNs, op.ownMs).1);
  }

  lemma StampKeepsCount(thresholdMs: int, r: ClockRun, op: ClockOp)
    requires op.RowOp? && CountOk(r)
    ensures CountOk(Step(thresholdMs, r, op))
  {
    var (c, s) := Stamp(thresholdMs, r.c, op.recvNs, op.ownMs);
    RowAdded(r.rows, s);
    assert (r.reported + [c.ended])[..|r.reported|] == r.reported;
    assert r.reported + [] == r.reported;
  }

  lemma BehindAdded(thresholdMs: int, rows: seq<RowStamp>, s: RowStamp, from: nat)
    requires from <= |rows|
    ensures AllBehind(thresholdMs, rows + [s], from) <==>
              AllBehind(thresholdMs, rows, from) && s.lagMs > thresholdMs / 2
  {
    var all := rows + [s];
    assert all[|rows|] == s;
    assert forall j :: 0 <= j < |rows| ==> all[j] == rows[j];
  }

  lemma StillLaggingAdded(thresholdMs: int, rows: seq<RowStamp>, s: RowStamp)
    ensures StillLagging(thresholdMs, rows + [s]) <==>
              s.corrected || (StillLagging(thresholdMs, rows) && s.lagMs > thresholdMs / 2)
  {
    var all := rows + [s];
    if s.corrected { assert all[|rows|].corrected && AllBehind(thresholdMs, all, |rows| + 1); }
    forall i | 0 <= i < |rows|
      ensures all[i].corrected && AllBehind(thresholdMs, all, i + 1) <==>
                rows[i].corrected && AllBehind(thresholdMs, rows, i + 1) && s.lagMs > thresholdMs / 2
    {
      BehindAdded(thresholdMs, rows, s, i + 1);
    }
  }

  lemma StampKeepsLagging(thresholdMs: int, r: ClockRun, op: ClockOp)
    requires op.RowOp? && thresholdMs > 0
    requires r.c.lagging <==> StillLagging(thresholdMs, r.rows)
    requires r.c.lagging ==> HasEventTime(r.c.lastEventMs)
    ensures var r' := Step(thresholdMs, r, op);
      && (r'.c.lagging <==> StillLagging(thresholdMs, r'.rows))
      && (r'.c.lagging ==> HasEventTime(r'.c.lastEventMs))
  {
    var s := Stamp(thresholdMs, r.c, op.recvNs, op.ownMs).1;
    StillLaggingAdded(thresholdMs, r.rows, s);
    assert s.corrected ==> s.lagMs >= thresholdMs;
  }

  // ---------------------------------------------------------------- episodes from their rows

  ghost predicate LagsPositive(rows: seq<RowStamp>) {
    forall i :: 0 <= i < |rows| && rows[i].corrected ==> rows[i].lagMs > 0
  }

  lemma EpisodeAdded(rows: seq<RowStamp>, s: RowStamp, k: nat)
    ensures var all := rows + [s];
      && (forall i :: 0 <= i < |rows| ==> (InEpisode(all, k, i) <==> InEpisode(rows, k, i)))
      && RowsInEpisode(all, k) == RowsInEpisode(rows, k) + (if InEpisode(all, k, |rows|) then 1 else 0)
      && (InEpisode(all, k, |rows|) <==> s.corrected && Starts(all) == k)
  {
    var all := rows + [s];
    assert all[..|rows|] == rows && all[..|rows| + 1] == all;
    forall i | 0 <= i < |rows| ensures InEpisode(all, k, i) <==> InEpisode(rows, k, i) {
      assert all[..i + 1] == rows[..i + 1];
    }
  }

  lemma {:induction false} EmptyEpisode(rows: seq<RowStamp>, k: nat, i: int)
    requires InEpisode(rows, k, i)
    ensures RowsInEpisode(rows, k) > 0
    decreases |rows|
  {
    var front := rows[..|rows| - 1];
    assert rows == front + [rows[|rows| - 1]];
    EpisodeAdded(front, rows[|rows| - 1], k);
    if i < |front| { EmptyEpisode(front, k, i); }
  }

  lemma LargestLagAdded(rows: seq<RowStamp>, s: RowStamp, k: nat, e: Episode)
    requires Describes(e, rows, k) && s.corrected && Starts(rows + [s]) == k && s.lagMs > 0
    ensures LargestLag(rows + [s], k, if s.lagMs > e.maxLagMs then s.lagMs else e.maxLagMs)
  {
    var all, m := rows + [s], if s.lagMs > e.maxLagMs then s.lagMs else e.maxLagMs;
    EpisodeAdded(rows, s, k);
    forall i | InEpisode(all, k, i) ensures all[i].lagMs <= m {
      if i < |rows| {
        EmptyEpisode(rows, k, i);
        assert all[i] == rows[i];
      }
    }
    if s.lagMs > e.maxLagMs {
      assert InEpisode(all, k, |rows|) && all[|rows|].lagMs == m;
    } else {
      var j :| InEpisode(rows, k, j) && rows[j].lagMs == m;
      assert InEpisode(all, k, j) && all[j].lagMs == m;
    }
  }

  lemma LargestLagStays(rows: seq<RowStamp>, s: RowStamp, k: nat, m: int)
    requires LargestLag(rows, k, m) && !(s.corrected && Starts(rows + [s]) == k)
    ensures LargestLag(rows + [s], k, m)
  {
    var all := rows + [s];
    EpisodeAdded(rows, s, k);
    var j :| InEpisode(rows, k, j) && rows[j].lagMs == m;
    assert InEpisode(all, k, j) && all[j].lagMs == m;
  }

  /** What an episode adds up to is what its rows say. */
  lemma {:induction false} EpisodeFromRows(rows: seq<RowStamp>, k: nat)
    requires LagsPositive(rows)
    ensures Describes(EpisodeOf(rows, k), rows, k)
    decreases |rows|
  {
    if rows != [] {
      var front, s := rows[..|rows| - 1], rows[|rows| - 1];
      assert rows == front + [s];
      EpisodeFromRows(front, k);
      EpisodeAdded(front, s, k);
      RowAdded(front, s);
      if s.corrected && Starts(rows) == k {
        LargestLagAdded(front, s, k, EpisodeOf(front, k));
      } else if EpisodeOf(front, k).rows > 0 {
        LargestLagStays(front, s, k, EpisodeOf(front, k).maxLagMs);
      }
    }
  }

  lemma {:induction false} LagsArePositive(thresholdMs: int, ops: seq<ClockOp>)
    requires thresholdMs > 0
    ensures LagsPositive(Run(thresholdMs, ops).rows)
    decreases |ops|
  {
    if ops != [] { LagsArePositive(thresholdMs, ops[..|ops| - 1]); }
  }

  /** Main result, for any events and rows and a positive threshold: the edges strictly
      alternate, beginning with a start; each ended episode was reported with the number
      of its corrected rows and their largest lag; all corrected rows are in a reported
      episode or in the current one; and the clock counts as lagging exactly when every
      row since some corrected row was more than half the threshold behind. */
  lemma {:induction false} EpisodesAreExact(thresholdMs: int, ops: seq<ClockOp>)
    requires thresholdMs > 0
    ensures var r := Run(thresholdMs, ops);
      && EdgesOk(r) && EpisodesOk(r)
      && (r.c.lagging <==> StillLagging(thresholdMs, r.rows))
      && (r.c.lagging ==> HasEventTime(r.c.lastEventMs))
    decreases |ops|
  {
    if ops != [] {
      var before, op := ops[..|ops| - 1], ops[|ops| - 1];
      EpisodesAreExact(thresholdMs, before);
      var r := Run(thresholdMs, before);
      if op.RowOp? {
        StampKeepsEdges(thresholdMs, r, op);
        StampKeepsReported(thresholdMs, r, op);
        StampKeepsCount(thresholdMs, r, op);
        StampKeepsLagging(thresholdMs, r, op);
      }
    }
  }

  /** Main result: an ended episode was reported, and the current one is counted, with
      the number of its corrected rows and the largest of their lags. */
  lemma EpisodesDescribeRows(thresholdMs: int, ops: seq<ClockOp>)
    requires thresholdMs > 0
    ensures var r := Run(thresholdMs, ops);
      && (forall k :: 0 <= k < |r.reported| ==>
            && r.reported[k].rows == RowsInEpisode(r.rows, k + 1) > 0
            && LargestLag(r.rows, k + 1, r.reported[k].maxLagMs))
      && (if r.c.lagging then
            && r.c.current.rows == RowsInEpisode(r.rows, |r.reported| + 1) > 0
            && LargestLag(r.rows, |r.reported| + 1, r.c.current.maxLagMs)
          else r.c.current == Episode(0, 0))
  {
    var r := Run(thresholdMs, ops);
    EpisodesAreExact(thresholdMs, ops);
    LagsArePositive(thresholdMs, ops);
    forall k | 0 <= k < |r.reported|
      ensures Describes(r.reported[k], r.rows, k + 1) && r.reported[k].rows > 0
    {
      EpisodeFromRows(r.rows, k + 1);
    }
    EpisodeFromRows(r.rows, |r.reported| + 1);
  }

  lemma {:induction false} RememberedEvent(thresholdMs: int, ops: seq<ClockOp>)
    ensures Run(thresholdMs, ops).c.lastEventMs == LatestEvent(ops)
    decreases |ops|
  {
    if ops != [] { RememberedEvent(thresholdMs, ops[..|ops| - 1]); }
  }

  /** A row gets another `time` than its receive time exactly when it is corrected, and
      that depends on nothing but the latest event time: no earlier one matters. Its lag
      is by how many milliseconds that event is ahead. */
  lemma RowIsCorrectedIff(thresholdMs: int, ops: seq<ClockOp>, recvNs: int, ownMs: int)
    requires thresholdMs > 0
    ensures var all := ops + [RowOp(recvNs, ownMs)];
      var rows, eventMs := Run(thresholdMs, all).rows, LatestEvent(all);
      && rows != []
      && var s := rows[|rows| - 1];
         && (s.corrected <==> eventMs > 0 && eventMs * NS_PER_MS - recvNs > thresholdMs * NS_PER_MS)
         && s.timeUtcNs == (if s.corrected then eventMs * NS_PER_MS else recvNs)
         && (s.timeUtcNs != recvNs <==> s.corrected)
         && s.lagMs == if eventMs > 0 then Truncated(eventMs * NS_PER_MS - recvNs, NS_PER_MS) else 0
  {
    var all := ops + [RowOp(recvNs, ownMs)];
    assert all[..|ops|] == ops;
    RememberedEvent(thresholdMs, ops);
    RememberedEvent(thresholdMs, all);
  }
}
