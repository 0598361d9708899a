/** Over whole runs of the backfill the pages are counted: never more arrive than the
    added gaps can take.
  */
module PumpEnds {
  import opened Options
  import opened SnapshotSchedulers
  import opened TradeGaps
  import opened TradeBackfills
  import opened BackfillProofs
  import opened PumpProofs

  function Needed(g: TradeGap): nat {
    if g.NextNeededId() > g.lastId then 0 else g.lastId - g.NextNeededId() + 1
  }

  /** Pages a gap in the queue can still take. */
  function Due(cfg: BackfillConfig, job: Job): int {
    if Needed(job.gap) == 0 then 0 else Needed(job.gap) * Tries(cfg) - job.failures
  }

  ghost function QueueDue(cfg: BackfillConfig, queue: seq<Job>): int {
    if queue == [] then 0 else Due(cfg, queue[0]) + QueueDue(cfg, queue[1..])
  }

  /** Pages the gaps could take when they were added: ids needed times tries. */
  ghost function PagesFor(cfg: BackfillConfig, added: seq<TradeGap>): nat
    decreases |added|
  {
    if added == [] then 0
    else PagesFor(cfg, added[..|added| - 1]) + Needed(added[|added| - 1]) * Tries(cfg)
  }

  lemma DueIsPositive(cfg: BackfillConfig, job: Job)
    requires job.failures == 0 || job.failures < cfg.maxFailures
    ensures Due(cfg, job) >= 0 && (Needed(job.gap) > 0 ==> Due(cfg, job) > 0)
  {
    if Needed(job.gap) > 0 { TriesUsed(Needed(job.gap), 1, Tries(cfg)); TriesUsed(Needed(job.gap) - 1, 0, Tries(cfg)); }
  }

  lemma {:induction false} QueueDueIsPositive(cfg: BackfillConfig, queue: seq<Job>, i: nat)
    requires JobsOk(cfg, queue)
    ensures QueueDue(cfg, queue) >= 0
    ensures i < |queue| && Needed(queue[i].gap) > 0 ==> QueueDue(cfg, queue) > 0
    decreases |queue|
  {
    if queue != [] {
      DueIsPositive(cfg, queue[0]);
      QueueDueIsPositive(cfg, queue[1..], if i == 0 then 0 else i - 1);
    }
  }

  lemma {:induction false} QueueDueGrows(cfg: BackfillConfig, queue: seq<Job>, job: Job)
    ensures QueueDue(cfg, queue + [job]) == QueueDue(cfg, queue) + Due(cfg, job)
    decreases |queue|
  {
    if queue != [] {
      assert (queue + [job])[1..] == queue[1..] + [job];
      QueueDueGrows(cfg, queue[1..], job);
    }
  }

  /** A page uses up at least one of the pages its gap can take. */
  lemma PageIsUsedUp(cfg: BackfillConfig, job: Job, s: JobStep)
    requires Open(cfg, job) && StepOk(cfg, job, s)
    ensures Due(cfg, job) >= 1 && (s.job.Some? ==> Due(cfg, s.job.value) <= Due(cfg, job) - 1)
  {
    StepUsesUp(cfg, job, s);
    DueIsPagesLeft(cfg, job);
    if s.job.Some? { DueIsPagesLeft(cfg, s.job.value); }
  }

  lemma DueIsPagesLeft(cfg: BackfillConfig, job: Job)
    requires Open(cfg, job)
    ensures Due(cfg, job) == PagesLeft(cfg, job)
  {
    assert Needed(job.gap) * Tries(cfg) == (Needed(job.gap) - 1) * Tries(cfg) + Tries(cfg);
  }

  lemma ArrivalUsesUp(cfg: BackfillConfig, v: BackfillView, page: Page, nowMs: int, jitter: real)
    requires Sized(v.sched, 1) && JobsOk(cfg, v.queue) && v.queue != [] && CloseReason(cfg, v.queue[0].gap) == None
    ensures QueueDue(cfg, OnPage(cfg, v, page, nowMs, jitter).queue) <= QueueDue(cfg, v.queue) - 1
  {
    var s := StepJob(cfg, v.queue[0], page);
    PageIsLocal(cfg, v, page, nowMs, jitter);
    StepJobFacts(cfg, v.queue[0], page);
    PageIsUsedUp(cfg, v.queue[0], s);
    if s.job.Some? { assert ([s.job.value] + v.queue[1..])[1..] == v.queue[1..]; }
  }

  lemma {:induction false} ClosingUsesUp(cfg: BackfillConfig, v: BackfillView)
    requires JobsOk(cfg, v.queue)
    ensures QueueDue(cfg, CloseHeads(cfg, v).queue) <= QueueDue(cfg, v.queue)
    decreases |v.queue|
  {
    if v.queue != [] && CloseReason(cfg, v.queue[0].gap).Some? {
      var c := CloseReason(cfg, v.queue[0].gap).value;
      DueIsPositive(cfg, v.queue[0]);
      ClosingUsesUp(cfg, FinishHead(v, c.0, c.1));
    }
  }

  lemma TurnUsesUp(cfg: BackfillConfig, v: BackfillView, nowMs: int, reply: Option<Reply>, added: seq<TradeGap>,
                   arrived: nat)
    requires PumpOk(cfg, v, added, arrived)
    ensures QueueDue(cfg, Turn(cfg, v, nowMs, reply).0.queue) <=
            QueueDue(cfg, v.queue) - if v.inFlight && reply.Some? then 1 else 0
  {
    if v.inFlight && reply.Some? {
      var r := reply.value;
      PageKeeps(cfg, v, r.page, nowMs, r.jitter, added, arrived);
      ArrivalUsesUp(cfg, v.(inFlight := false), r.page, nowMs, r.jitter);
      ClosingUsesUp(cfg, OnPage(cfg, v.(inFlight := false), r.page, nowMs, r.jitter));
    } else if !v.inFlight {
      ClosingUsesUp(cfg, v);
    }
  }

  lemma {:induction false} PagesAddUp(cfg: BackfillConfig, ops: seq<PumpOp>)
    requires forall op :: op in ops && op.AddOp? ==> op.gap.firstId >= 1
    ensures var r := RunOps(cfg, ops); r.arrived + QueueDue(cfg, r.v.queue) <= PagesFor(cfg, r.added)
    decreases |ops|
  {
    if ops != [] {
      var before, op := ops[..|ops| - 1], ops[|ops| - 1];
      var r := RunOps(cfg, before);
      PagesAddUp(cfg, before);
      RunIsDisciplined(cfg, before);
      match op {
        case AddOp(gap) =>
          QueueDueGrows(cfg, r.v.queue, Job(gap, 0));
          assert (r.added + [gap])[..|r.added|] == r.added;
        case TurnOp(now, reply) => TurnUsesUp(cfg, r.v, now, reply, r.added, r.arrived);
      }
    }
  }

  /** Main result: in every run, whatever the exchange replies, at most (ids needed)
      times maxFailures pages arrive, summed over the added gaps; and once that many
      have arrived, no gap in the queue needs another one. */
  lemma RunEnds(cfg: BackfillConfig, ops: seq<PumpOp>)
    requires forall op :: op in ops && op.AddOp? ==> op.gap.firstId >= 1
    ensures var r := RunOps(cfg, ops);
      && r.arrived <= PagesFor(cfg, r.added)
      && (r.arrived == PagesFor(cfg, r.added) ==> forall i :: 0 <= i < |r.v.queue| ==> Needed(r.v.queue[i].gap) == 0)
  {
    var r := RunOps(cfg, ops);
    PagesAddUp(cfg, ops);
    RunIsDisciplined(cfg, ops);
    QueueDueIsPositive(cfg, r.v.queue, 0);
    forall i | 0 <= i < |r.v.queue| && r.arrived == PagesFor(cfg, r.added) ensures Needed(r.v.queue[i].gap) == 0 {
      QueueDueIsPositive(cfg, r.v.queue, i);
    }
  }
}
