/** The backfill's pump against a server that fails: when it may ask again, told from the
    pages that arrived and the requests that were made.
  */
module PumpBackoff {
  import opened Options
  import opened SnapshotSchedulers
  import opened TradeBackfills
  import opened PumpProofs

  // ---------------------------------------------------------------- what the pages say

  ghost function AfterOp(cfg: BackfillConfig, v: BackfillView, op: PumpOp): BackfillView
    requires Ready(v)
  {
    match op
    case AddOp(gap) => v.(queue := v.queue + [Job(gap, 0)])
    case TurnOp(now, reply) => Turn(cfg, v, now, reply).0
  }

  /** vs are the states of the run: before the first operation and after each. */
  ghost predicate IsRun(cfg: BackfillConfig, ops: seq<PumpOp>, vs: seq<BackfillView>) {
    && |vs| == |ops| + 1 && vs[0] == RunOps(cfg, []).v
    && forall i :: 0 <= i < |ops| ==> Ready(vs[i]) && vs[i + 1] == AfterOp(cfg, vs[i], ops[i])
  }

  lemma {:induction false} RunEndsThere(cfg: BackfillConfig, ops: seq<PumpOp>, vs: seq<BackfillView>)
    requires IsRun(cfg, ops, vs)
    ensures vs[|ops|] == RunOps(cfg, ops).v
    decreases |ops|
  {
    if ops != [] { RunEndsThere(cfg, ops[..|ops| - 1], vs[..|ops|]); }
  }

  /** In state v a page arrives with op. */
  predicate PageArrives(v: BackfillView, op: PumpOp) {
    v.inFlight && op.TurnOp? && op.reply.Some?
  }

  /** op takes v to w with a request. */
  predicate Requests(v: BackfillView, op: PumpOp, w: BackfillView) {
    op.TurnOp? && |w.requests| > |v.requests|
  }

  /** A page that published nothing for the gap v is working on, and neither closed it as
      out of reach nor began past it. */
  predicate BringsNothing(v: BackfillView, w: BackfillView, page: Page) {
    && w.rows == v.rows && v.queue != []
    && (if page.ok then page.trades == [] || page.trades[0].id <= v.queue[0].gap.NextNeededId() else !page.tooOld)
  }

  /** Pages in a row that brought nothing; one that begins past the gap or is out of reach
      does not count. */
  function FailedInARow(ops: seq<PumpOp>, vs: seq<BackfillView>, n: nat): nat
    requires n <= |ops| < |vs|
  {
    if n == 0 then 0
    else if !PageArrives(vs[n - 1], ops[n - 1]) then FailedInARow(ops, vs, n - 1)
    else if vs[n].rows != vs[n - 1].rows then 0
    else FailedInARow(ops, vs, n - 1)
         + if BringsNothing(vs[n - 1], vs[n], ops[n - 1].reply.value.page) then 1 else 0
  }

  /** The n-th failure's delay without jitter. */
  function MinimalDelay(cfg: SchedulerConfig, n: nat): int
    requires n >= 1
  {
    Min(cfg.initialBackoffMs * Pow2(n - 1), cfg.maxBackoffMs)
  }

  predicate JitterOk(op: PumpOp) {
    op.TurnOp? && op.reply.Some? ==> 0.0 <= op.reply.value.jitter < 1.0
  }

  // ---------------------------------------------------------------- one turn

  lemma CloseKeepsSchedule(cfg: BackfillConfig, v: BackfillView, nowMs: int)
    requires Sized(v.sched, 1)
    ensures var w := AskNext(cfg, CloseHeads(cfg, v), nowMs);
      && w.rows == v.rows && w.sched.failures == v.sched.failures && w.sched.nextAllowedMs == v.sched.nextAllowedMs
      && w.sched.pauseUntilMs == v.sched.pauseUntilMs
      && (w.requests != v.requests ==> nowMs >= v.sched.pauseUntilMs && nowMs >= v.sched.nextAllowedMs[0])
      && (w.requests == v.requests ==> w.inFlight == v.inFlight)
      && |w.requests| >= |v.requests|
  {
  }

  /** A turn without a page. */
  lemma QuietTurn(cfg: BackfillConfig, v: BackfillView, nowMs: int, reply: Option<Reply>)
    requires Ready(v) && !(v.inFlight && reply.Some?)
    ensures var w := Turn(cfg, v, nowMs, reply).0;
      && w.rows == v.rows && w.sched.failures == v.sched.failures && w.sched.nextAllowedMs == v.sched.nextAllowedMs
      && w.sched.pauseUntilMs == v.sched.pauseUntilMs
      && (w.requests != v.requests ==> nowMs >= v.sched.pauseUntilMs && nowMs >= v.sched.nextAllowedMs[0])
      && (w.requests == v.requests ==> w.inFlight == v.inFlight) && |w.requests| >= |v.requests|
  {
    if !v.inFlight { CloseKeepsSchedule(cfg, v, nowMs); }
  }

  /** What one call of the scheduler's failure report does for the only symbol. */
  lemma FailureSchedules(cfg: SchedulerConfig, s: SchedulerView, nowMs: int, page: Page, jitter: real)
    requires Sized(s, 1)
    ensures var t := Failure(cfg, s, 0, nowMs, page.httpStatus, page.retryAfterSec, page.usedWeight, jitter);
      && t.pauseUntilMs >= s.pauseUntilMs && t.failures[0] == s.failures[0] + 1
      && t.nextAllowedMs[0] == nowMs + Delay(cfg, s.failures[0] + 1, jitter)
      && (page.httpStatus == 429 ==> t.pauseUntilMs >= nowMs + cfg.minPause429Ms)
      && (page.httpStatus == 418 ==> t.pauseUntilMs >= nowMs + cfg.minPause418Ms)
      && (page.httpStatus == 429 || page.httpStatus == 418 ==> t.pauseUntilMs >= nowMs + 1000 * page.retryAfterSec)
  {
  }

  ghost predicate SchedulesFailure(cfg: BackfillConfig, v: BackfillView, w: BackfillView, page: Page, nowMs: int,
                                   jitter: real)
    requires Sized(v.sched, 1) && Sized(w.sched, 1)
  {
    && w.sched.pauseUntilMs >= v.sched.pauseUntilMs && w.sched.failures[0] == v.sched.failures[0] + 1
    && w.sched.nextAllowedMs[0] == nowMs + Delay(cfg.sched, v.sched.failures[0] + 1, jitter)
    && (page.httpStatus == 429 ==> w.sched.pauseUntilMs >= nowMs + cfg.sched.minPause429Ms)
    && (page.httpStatus == 418 ==> w.sched.pauseUntilMs >= nowMs + cfg.sched.minPause418Ms)
    && (page.httpStatus == 429 || page.httpStatus == 418 ==>
          w.sched.pauseUntilMs >= nowMs + 1000 * page.retryAfterSec)
  }

  lemma FailedPageSchedules(cfg: BackfillConfig, v: BackfillView, page: Page, nowMs: int, jitter: real, reason: string)
    requires v.queue != [] && Sized(v.sched, 1)
    ensures var w := PageFailed(cfg, v, page, nowMs, jitter, reason);
      w.rows == v.rows && SchedulesFailure(cfg, v, w, page, nowMs, jitter)
  {
    FailureSchedules(cfg.sched, v.sched, nowMs, page, jitter);
  }

  lemma UsedPageSchedules(v: BackfillView, ts: seq<BackfillTrade>, recvTimeNs: int)
    requires v.queue != [] && Sized(v.sched, 1) && ts != []
    ensures var w := PageUsed(v, ts, recvTimeNs);
      |w.rows| > |v.rows| && w.sched.failures[0] == 0 && w.sched.pauseUntilMs == v.sched.pauseUntilMs
  {
  }

  lemma SeenPageSchedules(cfg: BackfillConfig, v: BackfillView, page: Page, nowMs: int)
    requires Sized(v.sched, 1)
    ensures var w := SeePage(cfg, v, page, nowMs);
      && w == v.(sched := w.sched) && w.sched.failures == v.sched.failures && Sized(w.sched, 1)
      && w.sched.nextAllowedMs == v.sched.nextAllowedMs && w.sched.pauseUntilMs >= v.sched.pauseUntilMs
  {
  }

  /** What a page does to the schedule. */
  lemma PageSchedules(cfg: BackfillConfig, v: BackfillView, page: Page, nowMs: int, jitter: real)
    requires v.queue != [] && Sized(v.sched, 1)
    ensures var w := OnPage(cfg, v, page, nowMs, jitter);
      && w.sched.pauseUntilMs >= v.sched.pauseUntilMs
      && (!page.ok && !page.tooOld ==> BringsNothing(v, w, page))
      && (if w.rows != v.rows then w.sched.failures[0] == 0
          else if BringsNothing(v, w, page) then SchedulesFailure(cfg, v, w, page, nowMs, jitter)
          else w.sched.failures == v.sched.failures)
  {
    var g := v.queue[0].gap;
    SeenPageSchedules(cfg, v, page, nowMs);
    if !page.ok {
      FailedPageSchedules(cfg, v, page, nowMs, jitter, "restFailed");
    } else {
      var seen := SeePage(cfg, v, page, nowMs);
      FailedPageSchedules(cfg, seen, page, nowMs, jitter, "notServed");
      var ts := Useful(page.trades, g.NextNeededId(), g.lastId);
      if ts != [] { UsedPageSchedules(seen, ts, page.recvTimeNs); }
    }
  }

  lemma PageTurn(cfg: BackfillConfig, v: BackfillView, nowMs: int, reply: Reply)
    requires Ready(v) && v.inFlight
    ensures var u := OnPage(cfg, v.(inFlight := false), reply.page, nowMs, reply.jitter);
      var w := Turn(cfg, v, nowMs, Some(reply)).0;
      && u.requests == v.requests && !u.inFlight
      && w.rows == u.rows && w.sched.failures == u.sched.failures && w.sched.nextAllowedMs == u.sched.nextAllowedMs
      && w.sched.pauseUntilMs == u.sched.pauseUntilMs
      && (w.requests != v.requests ==> nowMs >= u.sched.pauseUntilMs && nowMs >= u.sched.nextAllowedMs[0])
      && (w.requests == v.requests ==> !w.inFlight) && |w.requests| >= |v.requests|
  {
    CloseKeepsSchedule(cfg, OnPage(cfg, v.(inFlight := false), reply.page, nowMs, reply.jitter), nowMs);
  }

  // ---------------------------------------------------------------- runs

  /** The pause only ever moves on, and no request is made before it is over. */
  lemma StepKeepsPause(cfg: BackfillConfig, v: BackfillView, op: PumpOp)
    requires Ready(v)
    ensures var w := AfterOp(cfg, v, op);
      && w.sched.pauseUntilMs >= v.sched.pauseUntilMs
      && (Requests(v, op, w) ==> op.nowMs >= w.sched.pauseUntilMs)
  {
    if op.TurnOp? {
      if PageArrives(v, op) {
        PageTurn(cfg, v, op.nowMs, op.reply.value);
        PageSchedules(cfg, v.(inFlight := false), op.reply.value.page, op.nowMs, op.reply.value.jitter);
      } else {
        QuietTurn(cfg, v, op.nowMs, op.reply);
      }
    }
  }

  lemma {:induction false} PauseHolds(cfg: BackfillConfig, ops: seq<PumpOp>, vs: seq<BackfillView>, n: nat, m: nat)
    requires IsRun(cfg, ops, vs) && n <= m <= |ops|
    ensures vs[m].sched.pauseUntilMs >= vs[n].sched.pauseUntilMs
    decreases m
  {
    if n < m {
      PauseHolds(cfg, ops, vs, n, m - 1);
      StepKeepsPause(cfg, vs[m - 1], ops[m - 1]);
    }
  }

  predicate RateLimitedPage(page: Page) {
    !page.ok && !page.tooOld && (page.httpStatus == 429 || page.httpStatus == 418)
  }

  lemma RateLimitedTurn(cfg: BackfillConfig, v: BackfillView, op: PumpOp)
    requires Ready(v) && PageArrives(v, op) && RateLimitedPage(op.reply.value.page)
    ensures var w, page := AfterOp(cfg, v, op), op.reply.value.page;
      && w.sched.pauseUntilMs >= op.nowMs + 1000 * page.retryAfterSec
      && w.sched.pauseUntilMs >= op.nowMs
           + if page.httpStatus == 429 then cfg.sched.minPause429Ms else cfg.sched.minPause418Ms
  {
    PageTurn(cfg, v, op.nowMs, op.reply.value);
    PageSchedules(cfg, v.(inFlight := false), op.reply.value.page, op.nowMs, op.reply.value.jitter);
  }

  /** Main result: after a page that failed with 429 or 418 at time t, no turn of the run
      makes a request before t plus the floor for that status, nor before t plus
      Retry-After. */
  lemma RateLimitStopsPump(cfg: BackfillConfig, ops: seq<PumpOp>, vs: seq<BackfillView>, n: nat, m: nat)
    requires IsRun(cfg, ops, vs) && n <= m < |ops|
    requires PageArrives(vs[n], ops[n]) && RateLimitedPage(ops[n].reply.value.page)
    requires Requests(vs[m], ops[m], vs[m + 1])
    ensures var page := ops[n].reply.value.page;
      && ops[m].nowMs >= ops[n].nowMs + 1000 * page.retryAfterSec
      && ops[m].nowMs >= ops[n].nowMs
           + if page.httpStatus == 429 then cfg.sched.minPause429Ms else cfg.sched.minPause418Ms
  {
    RateLimitedTurn(cfg, vs[n], ops[n]);
    PauseHolds(cfg, ops, vs, n + 1, m + 1);
    StepKeepsPause(cfg, vs[m], ops[m]);
  }

  /** What a turn does to the count of failures. */
  lemma TurnCounts(cfg: BackfillConfig, v: BackfillView, op: PumpOp)
    requires Ready(v)
    ensures var f, w := v.sched.failures[0], AfterOp(cfg, v, op);
      && Ready(w)
      && w.sched.failures[0] ==
         if !PageArrives(v, op) then f
         else if w.rows != v.rows then 0
         else f + if BringsNothing(v, w, op.reply.value.page) then 1 else 0
  {
    if op.TurnOp? {
      if PageArrives(v, op) {
        PageTurn(cfg, v, op.nowMs, op.reply.value);
        PageSchedules(cfg, v.(inFlight := false), op.reply.value.page, op.nowMs, op.reply.value.jitter);
      } else {
        QuietTurn(cfg, v, op.nowMs, op.reply);
      }
    }
  }

  /** The scheduler counts the failed pages. */
  lemma {:induction false} FailuresAreCounted(cfg: BackfillConfig, ops: seq<PumpOp>, vs: seq<BackfillView>, n: nat)
    requires IsRun(cfg, ops, vs) && n <= |ops|
    ensures Ready(vs[n]) && vs[n].sched.failures[0] == FailedInARow(ops, vs, n)
    decreases n
  {
    if n > 0 {
      FailuresAreCounted(cfg, ops, vs, n - 1);
      TurnCounts(cfg, vs[n - 1], ops[n - 1]);
    }
  }

  lemma LongerThanMinimal(cfg: SchedulerConfig, n: nat, jitter: real)
    requires n >= 1 && 0.0 <= jitter < 1.0
    ensures Delay(cfg, n, jitter) >= MinimalDelay(cfg, n)
  {
    DelayWithinJitter(cfg, n, jitter);
  }

  /** A turn whose page brought nothing. */
  lemma FailedTurn(cfg: BackfillConfig, v: BackfillView, op: PumpOp)
    requires Ready(v) && PageArrives(v, op) && JitterOk(op)
    requires BringsNothing(v, AfterOp(cfg, v, op), op.reply.value.page)
    ensures var w := AfterOp(cfg, v, op);
      && w.sched.nextAllowedMs[0] >= op.nowMs + MinimalDelay(cfg.sched, v.sched.failures[0] + 1)
      && (Requests(v, op, w) ==> op.nowMs >= w.sched.nextAllowedMs[0])
      && (!Requests(v, op, w) ==> !w.inFlight)
  {
    PageTurn(cfg, v, op.nowMs, op.reply.value);
    PageSchedules(cfg, v.(inFlight := false), op.reply.value.page, op.nowMs, op.reply.value.jitter);
    LongerThanMinimal(cfg.sched, v.sched.failures[0] + 1, op.reply.value.jitter);
  }

  lemma IdleStep(cfg: BackfillConfig, v: BackfillView, op: PumpOp)
    requires Ready(v) && !v.inFlight
    ensures var w := AfterOp(cfg, v, op);
      && w.sched.nextAllowedMs == v.sched.nextAllowedMs
      && (if Requests(v, op, w) then op.nowMs >= v.sched.nextAllowedMs[0] else !w.inFlight)
  {
    if op.TurnOp? { QuietTurn(cfg, v, op.nowMs, op.reply); }
  }

  /** No request is made with operations n..m. */
  predicate NoRequests(ops: seq<PumpOp>, vs: seq<BackfillView>, n: nat, m: nat)
    requires m <= |ops| < |vs|
  {
    forall k :: n <= k < m ==> !Requests(vs[k], ops[k], vs[k + 1])
  }

  /** While no request has been made since, the delay stands. */
  lemma {:induction false} DelayStands(cfg: BackfillConfig, ops: seq<PumpOp>, vs: seq<BackfillView>, n: nat, m: nat)
    requires IsRun(cfg, ops, vs) && n <= m <= |ops| && !vs[n].inFlight && NoRequests(ops, vs, n, m)
    ensures !vs[m].inFlight && vs[m].sched.nextAllowedMs == vs[n].sched.nextAllowedMs
    decreases m
  {
    if n < m {
      DelayStands(cfg, ops, vs, n, m - 1);
      IdleStep(cfg, vs[m - 1], ops[m - 1]);
    }
  }

  lemma DelayedRequest(cfg: BackfillConfig, ops: seq<PumpOp>, vs: seq<BackfillView>, n: nat, m: nat, at: int)
    requires IsRun(cfg, ops, vs) && n <= m < |ops| && !vs[n].inFlight && Ready(vs[n])
    requires vs[n].sched.nextAllowedMs[0] >= at
    requires NoRequests(ops, vs, n, m) && Requests(vs[m], ops[m], vs[m + 1])
    ensures ops[m].nowMs >= at
  {
    DelayStands(cfg, ops, vs, n, m);
    IdleStep(cfg, vs[m], ops[m]);
  }

  lemma CountGrows(cfg: BackfillConfig, ops: seq<PumpOp>, vs: seq<BackfillView>, n: nat)
    requires IsRun(cfg, ops, vs) && n < |ops|
    requires PageArrives(vs[n], ops[n]) && BringsNothing(vs[n], vs[n + 1], ops[n].reply.value.page)
    ensures Ready(vs[n]) && Ready(vs[n + 1])
    ensures FailedInARow(ops, vs, n + 1) == FailedInARow(ops, vs, n) + 1 == vs[n].sched.failures[0] + 1
  {
    FailuresAreCounted(cfg, ops, vs, n);
    FailuresAreCounted(cfg, ops, vs, n + 1);
  }

  lemma DelayStarts(cfg: BackfillConfig, v: BackfillView, op: PumpOp, w: BackfillView, at: int)
    requires Ready(v) && w == AfterOp(cfg, v, op) && PageArrives(v, op) && JitterOk(op)
    requires BringsNothing(v, w, op.reply.value.page)
    requires at == op.nowMs + MinimalDelay(cfg.sched, v.sched.failures[0] + 1)
    ensures Ready(w) && w.sched.nextAllowedMs[0] >= at
    ensures if Requests(v, op, w) then op.nowMs >= at else !w.inFlight
  {
    FailedTurn(cfg, v, op);
    TurnCounts(cfg, v, op);
  }

  lemma RequestIsDelayed(cfg: BackfillConfig, ops: seq<PumpOp>, vs: seq<BackfillView>, n: nat, m: nat, at: int)
    requires IsRun(cfg, ops, vs) && n <= m < |ops|
    requires Ready(vs[n + 1]) && vs[n + 1].sched.nextAllowedMs[0] >= at
    requires if Requests(vs[n], ops[n], vs[n + 1]) then ops[n].nowMs >= at else !vs[n + 1].inFlight
    requires NoRequests(ops, vs, n, m) && Requests(vs[m], ops[m], vs[m + 1])
    ensures ops[m].nowMs >= at
  {
    if n < m {
      assert !Requests(vs[n], ops[n], vs[n + 1]);
      DelayedRequest(cfg, ops, vs, n + 1, m, at);
    }
  }

  /** Main result: after the k-th page in a row that brought nothing, at time t, the next
      request is not made before t + min(initial * 2^(k-1), max). */
  lemma FailuresBackOff(cfg: BackfillConfig, ops: seq<PumpOp>, vs: seq<BackfillView>, n: nat, m: nat)
    requires IsRun(cfg, ops, vs) && n <= m < |ops|
    requires PageArrives(vs[n], ops[n]) && JitterOk(ops[n])
    requires BringsNothing(vs[n], vs[n + 1], ops[n].reply.value.page)
    requires NoRequests(ops, vs, n, m) && Requests(vs[m], ops[m], vs[m + 1])
    ensures FailedInARow(ops, vs, n + 1) == FailedInARow(ops, vs, n) + 1
    ensures ops[m].nowMs >= ops[n].nowMs + MinimalDelay(cfg.sched, FailedInARow(ops, vs, n + 1))
  {
    var at := ops[n].nowMs + MinimalDelay(cfg.sched, FailedInARow(ops, vs, n) + 1);
    CountGrows(cfg, ops, vs, n);
    DelayStarts(cfg, vs[n], ops[n], vs[n + 1], at);
    RequestIsDelayed(cfg, ops, vs, n, m, at);
  }

  lemma {:induction false} NextRequest(ops: seq<PumpOp>, vs: seq<BackfillView>, n: nat, m: nat) returns (k: nat)
    requires n <= m < |ops| < |vs| && Requests(vs[m], ops[m], vs[m + 1])
    ensures n <= k <= m && Requests(vs[k], ops[k], vs[k + 1]) && NoRequests(ops, vs, n, k)
    decreases m - n
  {
    if Requests(vs[n], ops[n], vs[n + 1]) { k := n; } else { k := NextRequest(ops, vs, n + 1, m); }
  }

  /** On a clock that does not go back that holds of every later request. */
  lemma FailuresBackOffForGood(cfg: BackfillConfig, ops: seq<PumpOp>, vs: seq<BackfillView>, n: nat, m: nat)
    requires IsRun(cfg, ops, vs) && n <= m < |ops|
    requires PageArrives(vs[n], ops[n]) && JitterOk(ops[n])
    requires BringsNothing(vs[n], vs[n + 1], ops[n].reply.value.page)
    requires Requests(vs[m], ops[m], vs[m + 1])
    requires forall i, j :: 0 <= i < j < |ops| && ops[i].TurnOp? && ops[j].TurnOp? ==> ops[i].nowMs <= ops[j].nowMs
    ensures FailedInARow(ops, vs, n + 1) > 0
    ensures ops[m].nowMs >= ops[n].nowMs + MinimalDelay(cfg.sched, FailedInARow(ops, vs, n + 1))
  {
    var k := NextRequest(ops, vs, n, m);
    FailuresBackOff(cfg, ops, vs, n, k);
  }
}
