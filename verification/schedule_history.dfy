/** The scheduler's answers told from the calls it has had: how long each failure delays
    its symbol, how long each rate limit pauses all, and that a sync ends the delay.
  */
module ScheduleHistory {
  import opened SnapshotSchedulers

  /** The scheduler after some calls. */
  ghost function Called(cfg: SchedulerConfig, calls: seq<Call>, symbols: nat): (s: SchedulerView)
    requires CallsOk(calls, symbols)
    ensures Sized(s, symbols)
    decreases |calls|
  {
    if calls == [] then Initial(cfg, symbols)
    else After(cfg, Called(cfg, calls[..|calls| - 1], symbols), calls[|calls| - 1], symbols)
  }

  /** Failures of a symbol since its last sync. */
  function FailuresSinceSync(calls: seq<Call>, sym: nat): nat
    decreases |calls|
  {
    if calls == [] then 0
    else
      var before := FailuresSinceSync(calls[..|calls| - 1], sym);
      match calls[|calls| - 1]
      case FailureCall(x, _, _, _, _, _) => if x == sym then before + 1 else before
      case SyncedCall(x) => if x == sym then 0 else before
      case _ => before
  }

  /** min(initial * 2^(n-1), max), and as much of its jitter fraction as was drawn. */
  function DelayOf(cfg: SchedulerConfig, n: nat, jitter: real): int
    requires n >= 1
  {
    var base := Min(cfg.initialBackoffMs * Pow2(n - 1), cfg.maxBackoffMs);
    base + (base as real * cfg.jitterFraction * jitter).Floor
  }

  /** When the delay of a symbol is over: none after a sync. */
  function DelayEnds(cfg: SchedulerConfig, calls: seq<Call>, sym: nat): int
    decreases |calls|
  {
    if calls == [] then 0
    else
      var before := DelayEnds(cfg, calls[..|calls| - 1], sym);
      match calls[|calls| - 1]
      case FailureCall(x, now, _, _, _, jitter) =>
        if x == sym then now + DelayOf(cfg, FailuresSinceSync(calls[..|calls| - 1], sym) + 1, jitter) else before
      case SyncedCall(x) => if x == sym then 0 else before
      case _ => before
  }

  predicate UsedTooMuch(cfg: SchedulerConfig, usedWeight: int) {
    usedWeight >= 0 && usedWeight as real >= cfg.weightLimitPerMin as real * cfg.usedWeightPauseFraction
  }

  /** How long a call pauses all symbols: until this time, or not at all. */
  function PausesUntil(cfg: SchedulerConfig, c: Call): int {
    match c
    case FailureCall(_, now, status, retry, used, _) =>
      Max(if status == 429 then now + Max(cfg.minPause429Ms, 1000 * retry)
          else if status == 418 then now + Max(cfg.minPause418Ms, 1000 * retry) else 0,
          if UsedTooMuch(cfg, used) then now + cfg.usedWeightPauseMs else 0)
    case FetchOkCall(now, used) => if UsedTooMuch(cfg, used) then now + cfg.usedWeightPauseMs else 0
    case _ => 0
  }

  /** When all pauses are over. */
  function PauseEnds(cfg: SchedulerConfig, calls: seq<Call>): int
    decreases |calls|
  {
    if calls == [] then 0
    else Max(PauseEnds(cfg, calls[..|calls| - 1]), PausesUntil(cfg, calls[|calls| - 1]))
  }

  lemma {:induction false} PauseIsHistory(cfg: SchedulerConfig, calls: seq<Call>, symbols: nat)
    requires CallsOk(calls, symbols)
    ensures Called(cfg, calls, symbols).pauseUntilMs == PauseEnds(cfg, calls) >= 0
    decreases |calls|
  {
    if calls != [] { PauseIsHistory(cfg, calls[..|calls| - 1], symbols); }
  }

  /** What one call does to the failures and the delay of a symbol. */
  lemma CallDelays(cfg: SchedulerConfig, s: SchedulerView, c: Call, symbols: nat, sym: nat)
    requires Sized(s, symbols) && CallOk(c, symbols) && sym < symbols
    ensures var t := After(cfg, s, c, symbols);
      match c
      case FailureCall(x, now, _, _, _, jitter) =>
        if x == sym then
          && t.failures[sym] == s.failures[sym] + 1
          && t.nextAllowedMs[sym] == now + DelayOf(cfg, s.failures[sym] + 1, jitter)
        else t.failures[sym] == s.failures[sym] && t.nextAllowedMs[sym] == s.nextAllowedMs[sym]
      case SyncedCall(x) =>
        if x == sym then t.failures[sym] == 0 && t.nextAllowedMs[sym] == 0
        else t.failures[sym] == s.failures[sym] && t.nextAllowedMs[sym] == s.nextAllowedMs[sym]
      case _ => t.failures[sym] == s.failures[sym] && t.nextAllowedMs[sym] == s.nextAllowedMs[sym]
  {
    if c.FailureCall? && c.sym == sym { DelayIsDelay(cfg, s.failures[sym] + 1, c.jitter); }
  }

  lemma DelayIsDelay(cfg: SchedulerConfig, n: nat, jitter: real)
    requires n >= 1
    ensures Delay(cfg, n, jitter) == DelayOf(cfg, n, jitter)
  {
  }

  lemma {:induction false} DelayIsHistory(cfg: SchedulerConfig, calls: seq<Call>, symbols: nat, sym: nat)
    requires CallsOk(calls, symbols) && sym < symbols
    ensures var s := Called(cfg, calls, symbols);
      s.failures[sym] == FailuresSinceSync(calls, sym) && s.nextAllowedMs[sym] == DelayEnds(cfg, calls, sym)
    decreases |calls|
  {
    if calls != [] {
      var front, c := calls[..|calls| - 1], calls[|calls| - 1];
      DelayIsHistory(cfg, front, symbols, sym);
      CallDelays(cfg, Called(cfg, front, symbols), c, symbols, sym);
    }
  }

  /** Grants, failures and pauses so far. */
  ghost function Grantings(cfg: SchedulerConfig, calls: seq<Call>, symbols: nat): nat
    requires CallsOk(calls, symbols)
    decreases |calls|
  {
    if calls == [] then 0
    else
      var front := calls[..|calls| - 1];
      Grantings(cfg, front, symbols) + if IsGrant(cfg, Called(cfg, front, symbols), calls[|calls| - 1]) then 1 else 0
  }

  function FailureCalls(calls: seq<Call>): nat
    decreases |calls|
  {
    if calls == [] then 0
    else FailureCalls(calls[..|calls| - 1]) + if calls[|calls| - 1].FailureCall? then 1 else 0
  }

  function Pauses(cfg: SchedulerConfig, calls: seq<Call>): nat
    decreases |calls|
  {
    if calls == [] then 0
    else
      Pauses(cfg, calls[..|calls| - 1])
      + match calls[|calls| - 1]
        case FailureCall(_, _, status, _, used, _) =>
          (if status == 429 || status == 418 then 1 else 0) + if UsedTooMuch(cfg, used) then 1 else 0
        case FetchOkCall(_, used) => if UsedTooMuch(cfg, used) then 1 else 0
        case _ => 0
  }

  /** The scheduler's counters say how often it granted, was told of a failure, and paused. */
  lemma {:induction false} CountersAreHistory(cfg: SchedulerConfig, calls: seq<Call>, symbols: nat)
    requires CallsOk(calls, symbols)
    ensures var s := Called(cfg, calls, symbols);
      && s.requests == Grantings(cfg, calls, symbols)
      && s.failuresTotal == FailureCalls(calls) && s.rateLimitPauses == Pauses(cfg, calls)
    decreases |calls|
  {
    if calls != [] { CountersAreHistory(cfg, calls[..|calls| - 1], symbols); }
  }

  // ---------------------------------------------------------------- the bucket

  /** All acquires were made at times 0..bound. */
  ghost predicate AskedBy(calls: seq<Call>, bound: int) {
    forall i :: 0 <= i < |calls| && calls[i].AcquireCall? ==> 0 <= calls[i].nowMs <= bound
  }

  lemma {:induction false} BucketIsSane(cfg: SchedulerConfig, calls: seq<Call>, symbols: nat, bound: int)
    requires CallsOk(calls, symbols) && AskedBy(calls, bound)
    ensures var s := Called(cfg, calls, symbols);
      && BucketOk(cfg, s)
      && (s.lastRefillMs < 0 ==> s.tokens == Budget(cfg))
      && (s.lastRefillMs >= 0 ==> s.lastRefillMs <= bound)
    decreases |calls|
  {
    if calls != [] {
      BucketIsSane(cfg, calls[..|calls| - 1], symbols, bound);
      var s, c := Called(cfg, calls[..|calls| - 1], symbols), calls[|calls| - 1];
      if c.AcquireCall? && s.lastRefillMs < c.nowMs { EarnedNonNegative(cfg, c.nowMs - s.lastRefillMs); }
    }
  }

  lemma EarnedGrows(cfg: SchedulerConfig, a: int, b: int)
    requires a <= b
    ensures Earned(cfg, a) <= Earned(cfg, b)
  {
    EarnedAdds(cfg, a, b - a);
    EarnedNonNegative(cfg, b - a);
  }

  lemma BucketHolds(cfg: SchedulerConfig, s: SchedulerView, nowMs: int, waited: nat)
    requires BucketOk(cfg, s) && Earned(cfg, waited) >= cfg.weightPerRequest as real
    requires if s.lastRefillMs < 0 then s.tokens == Budget(cfg) else s.lastRefillMs <= nowMs - waited
    ensures Refill(cfg, s, nowMs).tokens >= cfg.weightPerRequest as real
  {
    if s.lastRefillMs >= 0 {
      EarnedGrows(cfg, waited, nowMs - s.lastRefillMs);
      if waited == 0 { assert Earned(cfg, 0) == 0.0; }
    }
  }

  /** Main result, over any calls: a request is granted exactly when the bucket holds its
      weight, all pauses of the history are over, and so is the delay of the symbol's
      last failure, if it has not synced since. */
  lemma GrantedIff(cfg: SchedulerConfig, calls: seq<Call>, symbols: nat, sym: nat, nowMs: int)
    requires CallsOk(calls, symbols) && sym < symbols
    ensures var s := Called(cfg, calls, symbols);
      Grants(cfg, s, sym, nowMs) <==>
        && nowMs >= PauseEnds(cfg, calls) && nowMs >= DelayEnds(cfg, calls, sym)
        && Refill(cfg, s, nowMs).tokens >= cfg.weightPerRequest as real
  {
    PauseIsHistory(cfg, calls, symbols);
    DelayIsHistory(cfg, calls, symbols, sym);
  }

  /** Main result: so whoever waits long enough is served. A request is granted if, since
      the last one was asked for, the budget of its weight has been earned, and the
      pauses and the delay are over. */
  lemma PatienceIsRewarded(cfg: SchedulerConfig, calls: seq<Call>, symbols: nat, sym: nat, nowMs: int, waited: nat)
    requires CallsOk(calls, symbols) && sym < symbols && AskedBy(calls, nowMs - waited)
    requires Earned(cfg, waited) >= cfg.weightPerRequest as real
    requires nowMs >= PauseEnds(cfg, calls) && nowMs >= DelayEnds(cfg, calls, sym)
    ensures Grants(cfg, Called(cfg, calls, symbols), sym, nowMs)
  {
    GrantedIff(cfg, calls, symbols, sym, nowMs);
    BucketIsSane(cfg, calls, symbols, nowMs - waited);
    BucketHolds(cfg, Called(cfg, calls, symbols), nowMs, waited);
  }

  /** A full minute earns the whole budget. */
  lemma MinuteEarnsBudget(cfg: SchedulerConfig)
    ensures Earned(cfg, 60000) == Budget(cfg) >= cfg.weightPerRequest as real
  {
  }
}
