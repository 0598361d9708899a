/** The pump over whole runs: what is published and reported for all gaps together,
    which requests are made, and that a call ends by itself.
  */
module PumpProofs {
  import opened Options
  import opened SnapshotSchedulers
  import opened TradeGaps
  import opened TradeBackfills
  import opened BackfillProofs

  // ---------------------------------------------------------------- books kept over a run

  /** The gaps with a terminal event, in the order they were closed. */
  ghost function ClosedGaps(events: seq<GapEvent>): seq<TradeGap>
    decreases |events|
  {
    if events == [] then []
    else
      var e := events[|events| - 1];
      ClosedGaps(events[..|events| - 1]) + if e.status == Partial then [] else [e.gap]
  }

  lemma ClosedGrows(events: seq<GapEvent>, e: GapEvent)
    ensures ClosedGaps(events + [e]) == ClosedGaps(events) + if e.status == Partial then [] else [e.gap]
  {
    assert (events + [e])[..|events|] == events;
  }

  /** The ids a gap has got since it was added. */
  ghost function Got(start: TradeGap, g: TradeGap): seq<(string, int)> {
    var n := g.NextNeededId() - start.NextNeededId();
    seq(if n < 0 then 0 else n, k => (start.sym, start.NextNeededId() + k))
  }

  ghost function AllGot(added: seq<TradeGap>, now: seq<TradeGap>): seq<(string, int)>
    requires |now| <= |added|
    decreases |now|
  {
    if now == [] then []
    else AllGot(added, now[..|now| - 1]) + Got(added[|now| - 1], now[|now| - 1])
  }

  ghost function Ids(rows: seq<Row>): seq<(string, int)> {
    seq(|rows|, i requires 0 <= i < |rows| => (rows[i].sym, rows[i].trade.id))
  }

  /** The closed gaps and the one being worked on, as they are now. */
  ghost function Begun(closed: seq<TradeGap>, queue: seq<Job>): seq<TradeGap> {
    closed + if queue == [] then [] else [queue[0].gap]
  }

  ghost predicate FromGap(start: TradeGap, g: TradeGap) {
    && SameGap(start, g)
    && g.NextNeededId() >= start.NextNeededId()
    && (g.NextNeededId() == start.NextNeededId() || g.NextNeededId() <= g.lastId + 1)
    && g.recovered - start.recovered == g.NextNeededId() - start.NextNeededId()
  }

  /** First in, first out: the closed gaps and then the queue are the gaps that were
      added, in order, and only the head has moved. */
  ghost predicate Fifo(closed: seq<TradeGap>, queue: seq<Job>, added: seq<TradeGap>) {
    && |closed| + |queue| == |added|
    && (forall i :: 0 <= i < |closed| ==> FromGap(added[i], closed[i]))
    && (queue != [] ==> FromGap(added[|closed|], queue[0].gap))
    && (forall j :: 1 <= j < |queue| ==> queue[j].gap == added[|closed| + j])
  }

  /** ... and the published ids are, gap after gap, exactly what each gap has got. */
  ghost predicate Accounted(queue: seq<Job>, closed: seq<TradeGap>, rows: seq<Row>, added: seq<TradeGap>) {
    && Fifo(closed, queue, added)
    && Ids(rows) == AllGot(added, Begun(closed, queue))
  }

  ghost predicate JobsOk(cfg: BackfillConfig, queue: seq<Job>) {
    forall j :: 0 <= j < |queue| ==>
      1 <= queue[j].gap.firstId && (queue[j].failures == 0 || queue[j].failures < cfg.maxFailures)
  }

  ghost predicate RequestOk(cfg: BackfillConfig, r: Request) {
    && cfg.enabled && r.gap.Missing() <= cfg.maxGapIds
    && r.fromId == r.gap.NextNeededId() && 1 <= r.limit <= cfg.pageLimit
    && r.fromId + r.limit - 1 <= r.gap.lastId
  }

  /** At most one request in flight, for the head gap as it is now; `arrived` pages
      have answered the others. */
  ghost predicate Disciplined(cfg: BackfillConfig, v: BackfillView, arrived: nat) {
    && (forall i :: 0 <= i < |v.requests| ==> RequestOk(cfg, v.requests[i]))
    && |v.requests| == arrived + (if v.inFlight then 1 else 0)
    && (v.inFlight ==> v.queue != [] && v.requests[|v.requests| - 1] == RequestFor(cfg, v.queue[0].gap)
                       && CloseReason(cfg, v.queue[0].gap) == None)
  }

  ghost predicate PumpOk(cfg: BackfillConfig, v: BackfillView, added: seq<TradeGap>, arrived: nat) {
    && Sized(v.sched, 1) && Accounted(v.queue, ClosedGaps(v.events), v.rows, added)
    && JobsOk(cfg, v.queue) && Disciplined(cfg, v, arrived)
  }

  // ---------------------------------------------------------------- accounting lemmas

  lemma AllGotPrefix(added: seq<TradeGap>, now: seq<TradeGap>, g: TradeGap)
    requires |now| < |added|
    ensures AllGot(added, now + [g]) == AllGot(added, now) + Got(added[|now|], g)
  {
    assert (now + [g])[..|now|] == now;
  }

  lemma {:induction false} AllGotMoreAdded(added: seq<TradeGap>, now: seq<TradeGap>, g: TradeGap)
    requires |now| <= |added|
    ensures AllGot(added + [g], now) == AllGot(added, now)
    decreases |now|
  {
    if now != [] { AllGotMoreAdded(added, now[..|now| - 1], g); }
  }

  /** Rows that continue a gap extend what it has got by their ids. */
  lemma GotGrows(start: TradeGap, was: TradeGap, g: TradeGap, rows: seq<Row>, more: seq<Row>)
    requires FromGap(start, was) && Advanced(was, g, |more|) && RowsAre(more, was.sym, was.NextNeededId())
    requires more == [] || was.NextNeededId() + |more| <= was.lastId + 1
    ensures FromGap(start, g)
    ensures Got(start, g) == Got(start, was) + Ids(more)
    ensures Ids(rows + more) == Ids(rows) + Ids(more)
  {
  }

  lemma NothingGotYet(g: TradeGap)
    ensures Got(g, g) == [] && FromGap(g, g)
  {
  }

  // ---------------------------------------------------------------- a page

  /** The rows accounted for once the head gap stands at g. */
  lemma HeadGot(closed: seq<TradeGap>, start: TradeGap, was: TradeGap, g: TradeGap, added: seq<TradeGap>,
                rows: seq<Row>, more: seq<Row>)
    requires |closed| < |added| && start == added[|closed|] && FromGap(start, was)
    requires Ids(rows) == AllGot(added, closed + [was])
    requires Advanced(was, g, |more|) && RowsAre(more, was.sym, was.NextNeededId())
    requires more == [] || was.NextNeededId() + |more| <= was.lastId + 1
    ensures FromGap(start, g) && Ids(rows + more) == AllGot(added, closed + [g])
  {
    GotGrows(start, was, g, rows, more);
    AllGotPrefix(added, closed, was);
    AllGotPrefix(added, closed, g);
  }

  lemma FifoCloses(closed: seq<TradeGap>, queue: seq<Job>, added: seq<TradeGap>, g: TradeGap)
    requires Fifo(closed, queue, added) && queue != [] && FromGap(added[|closed|], g)
    ensures Fifo(closed + [g], queue[1..], added)
  {
    assert forall j :: 0 <= j < |queue[1..]| ==> queue[1..][j] == queue[j + 1];
    if queue[1..] != [] { NothingGotYet(queue[1].gap); }
  }

  lemma FifoStays(closed: seq<TradeGap>, queue: seq<Job>, added: seq<TradeGap>, job: Job)
    requires Fifo(closed, queue, added) && queue != [] && FromGap(added[|closed|], job.gap)
    ensures Fifo(closed, [job] + queue[1..], added)
  {
    var queue' := [job] + queue[1..];
    assert forall j :: 1 <= j < |queue'| ==> queue'[j] == queue[j];
  }

  /** The next head has got nothing yet. */
  lemma NextHead(closed: seq<TradeGap>, queue: seq<Job>, added: seq<TradeGap>)
    requires Fifo(closed, queue, added)
    requires queue != [] ==> queue[0].gap == added[|closed|]
    ensures AllGot(added, Begun(closed, queue)) == AllGot(added, closed)
  {
    if queue != [] {
      NothingGotYet(queue[0].gap);
      AllGotPrefix(added, closed, queue[0].gap);
    } else {
      assert closed + [] == closed;
    }
  }

  lemma HeadCloses(queue: seq<Job>, closed: seq<TradeGap>, rows: seq<Row>, added: seq<TradeGap>, g: TradeGap,
                   more: seq<Row>)
    requires Accounted(queue, closed, rows, added) && queue != []
    requires Advanced(queue[0].gap, g, |more|) && RowsAre(more, queue[0].gap.sym, queue[0].gap.NextNeededId())
    requires more == [] || queue[0].gap.NextNeededId() + |more| <= queue[0].gap.lastId + 1
    ensures Accounted(queue[1..], closed + [g], rows + more, added)
  {
    HeadGot(closed, added[|closed|], queue[0].gap, g, added, rows, more);
    FifoCloses(closed, queue, added, g);
    NextHead(closed + [g], queue[1..], added);
  }

  lemma HeadStays(queue: seq<Job>, closed: seq<TradeGap>, rows: seq<Row>, added: seq<TradeGap>, job: Job,
                  more: seq<Row>)
    requires Accounted(queue, closed, rows, added) && queue != []
    requires Advanced(queue[0].gap, job.gap, |more|) && RowsAre(more, queue[0].gap.sym, queue[0].gap.NextNeededId())
    requires more == [] || queue[0].gap.NextNeededId() + |more| <= queue[0].gap.lastId + 1
    ensures Accounted([job] + queue[1..], closed, rows + more, added)
  {
    HeadGot(closed, added[|closed|], queue[0].gap, job.gap, added, rows, more);
    FifoStays(closed, queue, added, job);
  }

  /** The events of a page close its gap or leave the closed gaps as they were. */
  lemma ClosedAfterStep(cfg: BackfillConfig, job: Job, s: JobStep, events: seq<GapEvent>)
    requires StepOk(cfg, job, s)
    ensures ClosedGaps(events + s.events) ==
            if s.job == None then ClosedGaps(events) + [s.events[0].gap] else ClosedGaps(events)
  {
    if s.events != [] {
      assert s.events == [s.events[0]];
      ClosedGrows(events, s.events[0]);
    } else {
      assert events + s.events == events;
    }
  }

  lemma PageKeepsAccounts(cfg: BackfillConfig, queue: seq<Job>, closed: seq<TradeGap>, rows: seq<Row>, s: JobStep,
                          added: seq<TradeGap>)
    requires Accounted(queue, closed, rows, added) && queue != [] && StepOk(cfg, queue[0], s)
    ensures if s.job == None then Accounted(queue[1..], closed + [s.events[0].gap], rows + s.rows, added)
            else Accounted([s.job.value] + queue[1..], closed, rows + s.rows, added)
  {
    if s.job == None {
      HeadCloses(queue, closed, rows, added, s.events[0].gap, s.rows);
    } else {
      HeadStays(queue, closed, rows, added, s.job.value, s.rows);
    }
  }

  lemma PageKeepsJobs(cfg: BackfillConfig, queue: seq<Job>, s: JobStep)
    requires JobsOk(cfg, queue) && queue != [] && StepOk(cfg, queue[0], s)
    ensures JobsOk(cfg, if s.job == None then queue[1..] else [s.job.value] + queue[1..])
  {
  }

  lemma PageKeeps(cfg: BackfillConfig, v: BackfillView, page: Page, nowMs: int, jitter: real, added: seq<TradeGap>,
                  arrived: nat)
    requires PumpOk(cfg, v, added, arrived) && v.inFlight
    ensures PumpOk(cfg, OnPage(cfg, v.(inFlight := false), page, nowMs, jitter), added, arrived + 1)
  {
    var w := v.(inFlight := false);
    var s := StepJob(cfg, v.queue[0], page);
    PageIsLocal(cfg, w, page, nowMs, jitter);
    StepJobFacts(cfg, v.queue[0], page);
    ClosedAfterStep(cfg, v.queue[0], s, v.events);
    PageKeepsAccounts(cfg, v.queue, ClosedGaps(v.events), v.rows, s, added);
    PageKeepsJobs(cfg, v.queue, s);
  }

  // ---------------------------------------------------------------- closing and asking

  lemma FinishKeeps(cfg: BackfillConfig, v: BackfillView, status: GapStatus, reason: string, added: seq<TradeGap>,
                    arrived: nat)
    requires PumpOk(cfg, v, added, arrived) && v.queue != [] && !v.inFlight && status != Partial
    ensures PumpOk(cfg, FinishHead(v, status, reason), added, arrived)
  {
    var g := v.queue[0].gap;
    ClosedGrows(v.events, GapEvent(g, status, reason));
    assert v.rows + [] == v.rows;
    HeadCloses(v.queue, ClosedGaps(v.events), v.rows, added, g, []);
  }

  lemma {:induction false} CloseKeeps(cfg: BackfillConfig, v: BackfillView, added: seq<TradeGap>, arrived: nat)
    requires PumpOk(cfg, v, added, arrived) && !v.inFlight
    ensures PumpOk(cfg, CloseHeads(cfg, v), added, arrived)
    decreases |v.queue|
  {
    if v.queue != [] && CloseReason(cfg, v.queue[0].gap).Some? {
      var c := CloseReason(cfg, v.queue[0].gap).value;
      FinishKeeps(cfg, v, c.0, c.1, added, arrived);
      CloseKeeps(cfg, FinishHead(v, c.0, c.1), added, arrived);
    }
  }

  lemma AskIsDisciplined(cfg: BackfillConfig, v: BackfillView, nowMs: int, arrived: nat)
    requires Sized(v.sched, 1) && Disciplined(cfg, v, arrived)
    requires v.queue != [] ==> CloseReason(cfg, v.queue[0].gap) == None
    ensures var v' := AskNext(cfg, v, nowMs);
      && Sized(v'.sched, 1) && Disciplined(cfg, v', arrived)
      && v'.queue == v.queue && v'.events == v.events && v'.rows == v.rows
  {
  }

  lemma TurnKeeps(cfg: BackfillConfig, v: BackfillView, nowMs: int, reply: Option<Reply>, added: seq<TradeGap>,
                  arrived: nat)
    requires PumpOk(cfg, v, added, arrived)
    ensures PumpOk(cfg, Turn(cfg, v, nowMs, reply).0, added, if v.inFlight && reply.Some? then arrived + 1 else arrived)
  {
    if v.inFlight && reply.Some? {
      var v1 := OnPage(cfg, v.(inFlight := false), reply.value.page, nowMs, reply.value.jitter);
      PageKeeps(cfg, v, reply.value.page, nowMs, reply.value.jitter, added, arrived);
      CloseKeeps(cfg, v1, added, arrived + 1);
      AskIsDisciplined(cfg, CloseHeads(cfg, v1), nowMs, arrived + 1);
    } else if v.inFlight {
    } else {
      CloseKeeps(cfg, v, added, arrived);
      AskIsDisciplined(cfg, CloseHeads(cfg, v), nowMs, arrived);
    }
  }

  // ---------------------------------------------------------------- whole runs

  datatype PumpOp = AddOp(gap: TradeGap) | TurnOp(nowMs: int, reply: Option<Reply>)

  datatype RunState = RunState(v: BackfillView, added: seq<TradeGap>, arrived: nat)

  ghost function RunOps(cfg: BackfillConfig, ops: seq<PumpOp>): (r: RunState)
    ensures Ready(r.v)
    decreases |ops|
  {
    if ops == [] then RunState(BackfillView([], false, [], [], [], Counters(0, 0, 0), Initial(cfg.sched, 1)), [], 0)
    else
      var r := RunOps(cfg, ops[..|ops| - 1]);
      match ops[|ops| - 1]
      case AddOp(gap) => RunState(r.v.(queue := r.v.queue + [Job(gap, 0)]), r.added + [gap], r.arrived)
      case TurnOp(now, reply) =>
        RunState(Turn(cfg, r.v, now, reply).0, r.added,
                 if r.v.inFlight && reply.Some? then r.arrived + 1 else r.arrived)
  }

  lemma FifoAdds(closed: seq<TradeGap>, queue: seq<Job>, added: seq<TradeGap>, gap: TradeGap)
    requires Fifo(closed, queue, added)
    ensures Fifo(closed, queue + [Job(gap, 0)], added + [gap])
  {
    NothingGotYet(gap);
  }

  lemma AddKeepsAccounts(queue: seq<Job>, closed: seq<TradeGap>, rows: seq<Row>, added: seq<TradeGap>, gap: TradeGap)
    requires Accounted(queue, closed, rows, added)
    ensures Accounted(queue + [Job(gap, 0)], closed, rows, added + [gap])
  {
    FifoAdds(closed, queue, added, gap);
    AllGotMoreAdded(added, Begun(closed, queue), gap);
    if queue == [] {
      assert closed + [] == closed;
      NextHead(closed, queue + [Job(gap, 0)], added + [gap]);
    }
  }

  lemma AddKeeps(cfg: BackfillConfig, v: BackfillView, gap: TradeGap, added: seq<TradeGap>, arrived: nat)
    requires PumpOk(cfg, v, added, arrived) && gap.firstId >= 1
    ensures PumpOk(cfg, v.(queue := v.queue + [Job(gap, 0)]), added + [gap], arrived)
  {
    AddKeepsAccounts(v.queue, ClosedGaps(v.events), v.rows, added, gap);
  }

  /** Main result: over every run of added gaps and pump turns, against any replies,
      gaps are closed first in, first out, the published ids are exactly what each
      gap has got, in order, every request was for a gap that needs one and stays
      within it, and at most one request is unanswered. */
  lemma {:induction false} RunIsDisciplined(cfg: BackfillConfig, ops: seq<PumpOp>)
    requires forall op :: op in ops && op.AddOp? ==> op.gap.firstId >= 1
    ensures var r := RunOps(cfg, ops); PumpOk(cfg, r.v, r.added, r.arrived)
    decreases |ops|
  {
    if ops != [] {
      var r := RunOps(cfg, ops[..|ops| - 1]);
      RunIsDisciplined(cfg, ops[..|ops| - 1]);
      var op := ops[|ops| - 1];
      assert op in ops;
      match op {
        case AddOp(gap) => AddKeeps(cfg, r.v, gap, r.added, r.arrived);
        case TurnOp(now, reply) => TurnKeeps(cfg, r.v, now, reply, r.added, r.arrived);
      }
    }
  }

  // ---------------------------------------------------------------- the bucket over whole runs

  lemma TurnKeepsBucket(cfg: BackfillConfig, v: BackfillView, nowMs: int, reply: Option<Reply>)
    requires Ready(v) && BucketOk(cfg.sched, v.sched)
    ensures BucketOk(cfg.sched, Turn(cfg, v, nowMs, reply).0.sched)
  {
    var v1 := v;
    if v.inFlight && reply.Some? {
      v1 := OnPage(cfg, v.(inFlight := false), reply.value.page, nowMs, reply.value.jitter);
      PageSpendsNothing(cfg, v.(inFlight := false), reply.value.page, nowMs, reply.value.jitter);
    }
    AskKeepsBucket(cfg, if v1.inFlight then v1 else CloseHeads(cfg, v1), nowMs);
  }

  lemma AskKeepsBucket(cfg: BackfillConfig, v: BackfillView, nowMs: int)
    requires Sized(v.sched, 1) && BucketOk(cfg.sched, v.sched)
    ensures BucketOk(cfg.sched, AskNext(cfg, v, nowMs).sched)
  {
    if v.sched.lastRefillMs < nowMs { EarnedNonNegative(cfg.sched, nowMs - v.sched.lastRefillMs); }
  }

  lemma {:induction false} RunKeepsBucket(cfg: BackfillConfig, ops: seq<PumpOp>)
    ensures BucketOk(cfg.sched, RunOps(cfg, ops).v.sched)
    decreases |ops|
  {
    if ops != [] {
      RunKeepsBucket(cfg, ops[..|ops| - 1]);
      if ops[|ops| - 1].TurnOp? {
        TurnKeepsBucket(cfg, RunOps(cfg, ops[..|ops| - 1]).v, ops[|ops| - 1].nowMs, ops[|ops| - 1].reply);
      }
    }
  }

  /** So in every run a call of the pump can afford at most budget / weight requests,
      which is what its own contract asks for. */
  lemma BucketAffords(cfg: BackfillConfig, ops: seq<PumpOp>, nowMs: int, r: nat)
    requires Budget(cfg.sched) < (r + 1) as real * cfg.sched.weightPerRequest as real
    ensures Affords(cfg, RunOps(cfg, ops).v, nowMs, r)
  {
    var s := RunOps(cfg, ops).v.sched;
    RunKeepsBucket(cfg, ops);
    RefillWithinBudget(cfg.sched, s, nowMs);
  }

  lemma RefillWithinBudget(cfg: SchedulerConfig, s: SchedulerView, nowMs: int)
    requires BucketOk(cfg, s)
    ensures Refill(cfg, s, nowMs).tokens <= Budget(cfg)
  {
  }
}
