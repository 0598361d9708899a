/** When a REST request may go out (cpp/include/snapshot_scheduler.hpp): a token
    bucket shared by all symbols, exponential backoff per symbol, and pauses that
    stop everything (HTTP 429 of section 4 of RFC 6585, and 418).

    Tokens are real numbers here; the jitter of a failure is an argument.
  */
module SnapshotSchedulers {
  datatype SchedulerSettings = SchedulerSettings(
    weightPerRequest: nat,
    weightLimitPerMin: nat,
    budgetFraction: real,
    initialBackoffMs: nat,
    maxBackoffMs: nat,
    jitterFraction: real,
    minPause429Ms: nat,
    minPause418Ms: nat,
    usedWeightPauseFraction: real,
    usedWeightPauseMs: nat)

  type SchedulerConfig = c: SchedulerSettings | c.jitterFraction >= 0.0
    witness SchedulerSettings(50, 6000, 0.1, 1000, 60000, 0.25, 60000, 300000, 0.5, 60000)

  function Max(a: int, b: int): int { if a >= b then a else b }
  function Min(a: int, b: int): int { if a <= b then a else b }

  function Budget(cfg: SchedulerConfig): real {
    var share := cfg.weightLimitPerMin as real * cfg.budgetFraction;
    if cfg.weightPerRequest as real >= share then cfg.weightPerRequest as real else share
  }

  datatype SchedulerView = SchedulerView(
    tokens: real,
    lastRefillMs: int,        // negative before the first call
    failures: seq<nat>,       // consecutive failures per symbol
    nextAllowedMs: seq<int>,
    pauseUntilMs: int,
    requests: nat,
    failuresTotal: nat,
    rateLimitPauses: nat)

  function Initial(cfg: SchedulerConfig, symbols: nat): SchedulerView {
    SchedulerView(Budget(cfg), -1, seq(symbols, _ => 0), seq(symbols, _ => 0), 0, 0, 0, 0)
  }

  // ---------------------------------------------------------------- what the calls do

  /** The budget earned in some milliseconds. */
  function Earned(cfg: SchedulerConfig, ms: int): real {
    Budget(cfg) * ms as real / 60000.0
  }

  function Refill(cfg: SchedulerConfig, s: SchedulerView, nowMs: int): SchedulerView {
    if s.lastRefillMs < 0 then s.(lastRefillMs := nowMs)
    else if nowMs <= s.lastRefillMs then s
    else
      var filled := s.tokens + Earned(cfg, nowMs - s.lastRefillMs);
      s.(tokens := if filled <= Budget(cfg) then filled else Budget(cfg), lastRefillMs := nowMs)
  }

  predicate Grants(cfg: SchedulerConfig, s: SchedulerView, sym: nat, nowMs: int)
    requires sym < |s.nextAllowedMs|
  {
    nowMs >= s.pauseUntilMs && nowMs >= s.nextAllowedMs[sym]
    && Refill(cfg, s, nowMs).tokens >= cfg.weightPerRequest as real
  }

  function Acquire(cfg: SchedulerConfig, s: SchedulerView, sym: nat, nowMs: int): SchedulerView
    requires sym < |s.nextAllowedMs|
  {
    var r := Refill(cfg, s, nowMs);
    if Grants(cfg, s, sym, nowMs) then
      r.(tokens := r.tokens - cfg.weightPerRequest as real, requests := r.requests + 1)
    else r
  }

  function Pow2(n: nat): nat {
    if n == 0 then 1 else 2 * Pow2(n - 1)
  }

  /** The n-th consecutive failure's delay before jitter. */
  function BaseDelay(cfg: SchedulerConfig, n: nat): nat
    requires n >= 1
  {
    Min(cfg.initialBackoffMs * Pow2(n - 1), cfg.maxBackoffMs)
  }

  /** The most that jitter can add to a delay. */
  function MostJitter(cfg: SchedulerConfig, base: nat): (most: real)
    ensures most >= 0.0
  {
    base as real * cfg.jitterFraction
  }

  function Part(most: real, jitter: real): int {
    (most * jitter).Floor
  }

  function Delay(cfg: SchedulerConfig, n: nat, jitter: real): int
    requires n >= 1
  {
    BaseDelay(cfg, n) + Part(MostJitter(cfg, BaseDelay(cfg, n)), jitter)
  }

  function PauseAll(s: SchedulerView, untilMs: int): SchedulerView {
    s.(pauseUntilMs := Max(s.pauseUntilMs, untilMs), rateLimitPauses := s.rateLimitPauses + 1)
  }

  function CheckUsedWeight(cfg: SchedulerConfig, s: SchedulerView, nowMs: int, usedWeight: int): SchedulerView {
    if usedWeight >= 0 && usedWeight as real >= cfg.weightLimitPerMin as real * cfg.usedWeightPauseFraction
    then PauseAll(s, nowMs + cfg.usedWeightPauseMs) else s
  }

  function PauseMs(cfg: SchedulerConfig, httpStatus: int, retryAfterSec: int): int {
    Max(if httpStatus == 418 then cfg.minPause418Ms else cfg.minPause429Ms, retryAfterSec * 1000)
  }

  predicate RateLimited(httpStatus: int) {
    httpStatus == 429 || httpStatus == 418
  }

  function Failure(cfg: SchedulerConfig, s: SchedulerView, sym: nat, nowMs: int,
                   httpStatus: int, retryAfterSec: int, usedWeight: int, jitter: real): SchedulerView
    requires sym < |s.failures| == |s.nextAllowedMs|
  {
    var n := s.failures[sym] + 1;
    var s1 := s.(failuresTotal := s.failuresTotal + 1, failures := s.failures[sym := n],
                 nextAllowedMs := s.nextAllowedMs[sym := nowMs + Delay(cfg, n, jitter)]);
    var s2 := if RateLimited(httpStatus) then PauseAll(s1, nowMs + PauseMs(cfg, httpStatus, retryAfterSec)) else s1;
    CheckUsedWeight(cfg, s2, nowMs, usedWeight)
  }

  function Synced(s: SchedulerView, sym: nat): SchedulerView
    requires sym < |s.failures| == |s.nextAllowedMs|
  {
    s.(failures := s.failures[sym := 0], nextAllowedMs := s.nextAllowedMs[sym := 0])
  }

  // ---------------------------------------------------------------- the program

  class SnapshotScheduler {
    const cfg: SchedulerConfig
    const symbols: nat
    const budget: real
    var tokens: real
    var lastRefillMs: int
    var failures: seq<nat>
    var nextAllowedMs: seq<int>
    var pauseUntilMs: int
    var requests: nat
    var failuresTotal: nat
    var rateLimitPauses: nat

    ghost predicate Valid()
      reads this
    {
      |failures| == |nextAllowedMs| == symbols && budget == Budget(cfg)
    }

    ghost function View(): SchedulerView
      reads this
    {
      SchedulerView(tokens, lastRefillMs, failures, nextAllowedMs, pauseUntilMs,
                    requests, failuresTotal, rateLimitPauses)
    }

    constructor (symbols: nat, cfg: SchedulerConfig)
      ensures Valid() && this.cfg == cfg && this.symbols == symbols && View() == Initial(cfg, symbols)
    {
      this.cfg, this.symbols, budget, tokens := cfg, symbols, Budget(cfg), Budget(cfg);
      lastRefillMs, pauseUntilMs := -1, 0;
      failures, nextAllowedMs := seq(symbols, _ => 0), seq(symbols, _ => 0);
      requests, failuresTotal, rateLimitPauses := 0, 0, 0;
    }

    method RefillBucket(nowMs: int)
      requires Valid()
      modifies this`tokens, this`lastRefillMs
      ensures Valid() && View() == Refill(cfg, old(View()), nowMs)
    {
      if lastRefillMs < 0 { lastRefillMs := nowMs; return; }
      if nowMs <= lastRefillMs { return; }
      tokens := tokens + budget * (nowMs - lastRefillMs) as real / 60000.0;
      if tokens > budget { tokens := budget; }
      lastRefillMs := nowMs;
    }

    method TryAcquire(sym: nat, nowMs: int) returns (granted: bool)
      requires Valid() && sym < symbols
      modifies this`tokens, this`lastRefillMs, this`requests
      ensures Valid() && View() == Acquire(cfg, old(View()), sym, nowMs)
      ensures granted == Grants(cfg, old(View()), sym, nowMs)
    {
      RefillBucket(nowMs);
      if nowMs < pauseUntilMs { return false; }
      if nowMs < nextAllowedMs[sym] { return false; }
      if tokens < cfg.weightPerRequest as real { return false; }
      tokens := tokens - cfg.weightPerRequest as real;
      requests := requests + 1;
      return true;
    }

    method Pause(untilMs: int)
      requires Valid()
      modifies this`pauseUntilMs, this`rateLimitPauses
      ensures Valid() && View() == PauseAll(old(View()), untilMs)
    {
      if untilMs > pauseUntilMs { pauseUntilMs := untilMs; }
      rateLimitPauses := rateLimitPauses + 1;
    }

    method OnFetchOk(nowMs: int, usedWeight: int)
      requires Valid()
      modifies this`pauseUntilMs, this`rateLimitPauses
      ensures Valid() && View() == CheckUsedWeight(cfg, old(View()), nowMs, usedWeight)
    {
      if usedWeight < 0 { return; }
      if usedWeight as real >= cfg.weightLimitPerMin as real * cfg.usedWeightPauseFraction {
        Pause(nowMs + cfg.usedWeightPauseMs);
      }
    }

    /** Doubling until the cap is passed, and the cap, give the n-th delay. */
    method Backoff(n: nat) returns (delay: nat)
      requires n >= 1
      ensures delay == BaseDelay(cfg, n)
    {
      delay := cfg.initialBackoffMs;
      var i := 1;
      while i < n && delay < cfg.maxBackoffMs
        invariant 1 <= i <= n
        invariant delay == cfg.initialBackoffMs * Pow2(i - 1)
      {
        DoublePow2(cfg.initialBackoffMs, i);
        delay := delay * 2;
        i := i + 1;
      }
      Pow2Grows(cfg.initialBackoffMs, i - 1, n - 1);
      if delay > cfg.maxBackoffMs { delay := cfg.maxBackoffMs; }
    }

    method OnFailure(sym: nat, nowMs: int, httpStatus: int, retryAfterSec: int, usedWeight: int, jitter: real)
      requires Valid() && sym < symbols
      modifies this`failuresTotal, this`failures, this`nextAllowedMs, this`pauseUntilMs, this`rateLimitPauses
      ensures Valid()
      ensures View() == Failure(cfg, old(View()), sym, nowMs, httpStatus, retryAfterSec, usedWeight, jitter)
    {
      failuresTotal := failuresTotal + 1;
      var n := failures[sym] + 1;
      failures := failures[sym := n];
      var delay := Backoff(n);
      var jittered := delay + (delay as real * cfg.jitterFraction * jitter).Floor;
      assert jittered == Delay(cfg, n, jitter);
      nextAllowedMs := nextAllowedMs[sym := nowMs + jittered];
      if httpStatus == 429 || httpStatus == 418 {
        var floorMs := if httpStatus == 418 then cfg.minPause418Ms else cfg.minPause429Ms;
        Pause(nowMs + Max(floorMs, retryAfterSec * 1000));
      }
      OnFetchOk(nowMs, usedWeight);
    }

    method OnSynced(sym: nat)
      requires Valid() && sym < symbols
      modifies this`failures, this`nextAllowedMs
      ensures Valid() && View() == Synced(old(View()), sym)
    {
      failures := failures[sym := 0];
      nextAllowedMs := nextAllowedMs[sym := 0];
    }
  }

  lemma DoublePow2(a: nat, i: nat)
    requires i >= 1
    ensures a * Pow2(i - 1) * 2 == a * Pow2(i)
  {
  }

  lemma {:induction false} Pow2Grows(a: nat, i: nat, j: nat)
    requires i <= j
    ensures a * Pow2(i) <= a * Pow2(j)
    decreases j - i
  {
    if i < j {
      Pow2Grows(a, i, j - 1);
      DoublePow2(a, j);
    }
  }

  // ---------------------------------------------------------------- runs

  datatype Call =
    | AcquireCall(sym: nat, nowMs: int)
    | FetchOkCall(nowMs: int, usedWeight: int)
    | FailureCall(sym: nat, nowMs: int, httpStatus: int, retryAfterSec: int, usedWeight: int, jitter: real)
    | SyncedCall(sym: nat)

  ghost predicate CallOk(c: Call, symbols: nat) {
    match c
    case AcquireCall(sym, _) => sym < symbols
    case FailureCall(sym, _, _, _, _, jitter) => sym < symbols && 0.0 <= jitter < 1.0
    case SyncedCall(sym) => sym < symbols
    case FetchOkCall(_, _) => true
  }

  ghost predicate CallsOk(calls: seq<Call>, symbols: nat) {
    forall i :: 0 <= i < |calls| ==> CallOk(calls[i], symbols)
  }

  ghost predicate Sized(s: SchedulerView, symbols: nat) {
    |s.failures| == |s.nextAllowedMs| == symbols
  }

  ghost function After(cfg: SchedulerConfig, s: SchedulerView, c: Call, symbols: nat): (s': SchedulerView)
    requires Sized(s, symbols) && CallOk(c, symbols)
    ensures Sized(s', symbols)
  {
    match c
    case AcquireCall(sym, now) => Acquire(cfg, s, sym, now)
    case FetchOkCall(now, used) => CheckUsedWeight(cfg, s, now, used)
    case FailureCall(sym, now, status, retry, used, jitter) => Failure(cfg, s, sym, now, status, retry, used, jitter)
    case SyncedCall(sym) => Synced(s, sym)
  }

  ghost predicate IsGrant(cfg: SchedulerConfig, s: SchedulerView, c: Call)
  {
    c.AcquireCall? && c.sym < |s.nextAllowedMs| && Grants(cfg, s, c.sym, c.nowMs)
  }

  /** The caller's clock is monotonic. */
  ghost predicate InOrder(calls: seq<Call>, from: int)
    decreases |calls|
  {
    calls != [] ==>
      if calls[0].SyncedCall? then InOrder(calls[1..], from)
      else from <= calls[0].nowMs && InOrder(calls[1..], calls[0].nowMs)
  }

  // ---------------------------------------------------------------- the weight bound

  /** The weight granted at times t1..t2, over all symbols. */
  ghost function GrantedWeight(cfg: SchedulerConfig, s: SchedulerView, calls: seq<Call>, symbols: nat, t1: int,
                               t2: int): real
    requires Sized(s, symbols) && CallsOk(calls, symbols)
    decreases |calls|
  {
    if calls == [] then 0.0
    else
      var c := calls[0];
      (if IsGrant(cfg, s, c) && t1 <= c.nowMs <= t2 then cfg.weightPerRequest as real else 0.0)
      + GrantedWeight(cfg, After(cfg, s, c, symbols), calls[1..], symbols, t1, t2)
  }

  /** What the bucket can still give out within t1..t2. */
  ghost function Available(cfg: SchedulerConfig, s: SchedulerView, t1: int, t2: int): real {
    if s.lastRefillMs < t1 then Budget(cfg) + Earned(cfg, t2 - t1)
    else if s.lastRefillMs <= t2 then s.tokens + Earned(cfg, t2 - s.lastRefillMs)
    else 0.0
  }

  lemma EarnedAdds(cfg: SchedulerConfig, a: int, b: int)
    ensures Earned(cfg, a + b) == Earned(cfg, a) + Earned(cfg, b)
  {
    assert (a + b) as real == a as real + b as real;
  }

  lemma EarnedNonNegative(cfg: SchedulerConfig, ms: int)
    requires ms >= 0
    ensures Earned(cfg, ms) >= 0.0
  {
    assert Budget(cfg) >= 0.0;
    assert Budget(cfg) * ms as real >= 0.0;
  }

  ghost predicate BucketOk(cfg: SchedulerConfig, s: SchedulerView) {
    0.0 <= s.tokens <= Budget(cfg)
  }

  lemma RefillSpendsNothing(cfg: SchedulerConfig, s: SchedulerView, nowMs: int, t1: int, t2: int)
    requires BucketOk(cfg, s) && s.lastRefillMs <= nowMs && t1 <= t2
    ensures var r := Refill(cfg, s, nowMs);
      && BucketOk(cfg, r) && r.lastRefillMs <= nowMs
      && Available(cfg, r, t1, t2) <= Available(cfg, s, t1, t2)
      && (t1 <= nowMs <= t2 ==> r.tokens + Earned(cfg, t2 - nowMs) <= Available(cfg, s, t1, t2))
      && r.lastRefillMs == nowMs
  {
    var last := s.lastRefillMs;
    EarnedNonNegative(cfg, nowMs - last);
    EarnedNonNegative(cfg, t2 - t1);
    if t1 <= nowMs <= t2 {
      EarnedAdds(cfg, nowMs - t1, t2 - nowMs);
      EarnedNonNegative(cfg, nowMs - t1);
      EarnedAdds(cfg, nowMs - last, t2 - nowMs);
    }
    if last <= t2 { EarnedNonNegative(cfg, t2 - last); }
  }

  lemma {:induction false} BucketBoundsWeight(cfg: SchedulerConfig, s: SchedulerView, calls: seq<Call>,
                                              symbols: nat, t1: int, t2: int, from: int)
    requires Sized(s, symbols) && CallsOk(calls, symbols) && t1 <= t2
    requires BucketOk(cfg, s) && s.lastRefillMs <= from && InOrder(calls, from)
    ensures GrantedWeight(cfg, s, calls, symbols, t1, t2) <= Available(cfg, s, t1, t2)
    decreases |calls|
  {
    if calls == [] {
      EarnedNonNegative(cfg, t2 - t1);
      if s.lastRefillMs <= t2 { EarnedNonNegative(cfg, t2 - s.lastRefillMs); }
    } else {
      var c, rest := calls[0], calls[1..];
      var s' := After(cfg, s, c, symbols);
      if c.AcquireCall? {
        RefillSpendsNothing(cfg, s, c.nowMs, t1, t2);
        EarnedAdds(cfg, 0, t2 - c.nowMs);
        BucketBoundsWeight(cfg, s', rest, symbols, t1, t2, c.nowMs);
      } else {
        BucketBoundsWeight(cfg, s', rest, symbols, t1, t2, if c.SyncedCall? then from else c.nowMs);
      }
    }
  }

  /** Main result: in every run, the weight granted within any window is at most one
      bucket and what the window earns; in any minute, at most two buckets. */
  lemma SlidingWindowBound(cfg: SchedulerConfig, calls: seq<Call>, symbols: nat, t1: int, t2: int)
    requires CallsOk(calls, symbols) && InOrder(calls, 0) && t1 <= t2
    ensures GrantedWeight(cfg, Initial(cfg, symbols), calls, symbols, t1, t2) <= Budget(cfg) + Earned(cfg, t2 - t1)
    ensures t2 - t1 <= 60000 ==>
              GrantedWeight(cfg, Initial(cfg, symbols), calls, symbols, t1, t2) <= 2.0 * Budget(cfg)
  {
    var s := Initial(cfg, symbols);
    BucketBoundsWeight(cfg, s, calls, symbols, t1, t2, 0);
    EarnedNonNegative(cfg, t2 - t1);
    if s.lastRefillMs >= t1 {
      if s.lastRefillMs <= t2 {
        EarnedAdds(cfg, -1 - t1, t2 + 1);
        EarnedNonNegative(cfg, -1 - t1);
      }
    }
    if t2 - t1 <= 60000 {
      EarnedAdds(cfg, t2 - t1, 60000 - (t2 - t1));
      EarnedNonNegative(cfg, 60000 - (t2 - t1));
    }
  }

  // ---------------------------------------------------------------- pauses

  lemma CallKeepsPause(cfg: SchedulerConfig, s: SchedulerView, c: Call, symbols: nat)
    requires Sized(s, symbols) && CallOk(c, symbols)
    ensures After(cfg, s, c, symbols).pauseUntilMs >= s.pauseUntilMs
  {
  }

  ghost predicate NoGrantBefore(cfg: SchedulerConfig, s: SchedulerView, calls: seq<Call>, symbols: nat, untilMs: int)
    requires Sized(s, symbols) && CallsOk(calls, symbols)
    decreases |calls|
  {
    calls != [] ==>
      && (IsGrant(cfg, s, calls[0]) ==> calls[0].nowMs >= untilMs)
      && NoGrantBefore(cfg, After(cfg, s, calls[0], symbols), calls[1..], symbols, untilMs)
  }

  lemma {:induction false} PauseLasts(cfg: SchedulerConfig, s: SchedulerView, calls: seq<Call>, symbols: nat,
                                      untilMs: int)
    requires Sized(s, symbols) && CallsOk(calls, symbols) && s.pauseUntilMs >= untilMs
    ensures NoGrantBefore(cfg, s, calls, symbols, untilMs)
    decreases |calls|
  {
    if calls != [] {
      CallKeepsPause(cfg, s, calls[0], symbols);
      PauseLasts(cfg, After(cfg, s, calls[0], symbols), calls[1..], symbols, untilMs);
    }
  }

  /** Main result: after a 429 or 418 at time t nothing is granted to any symbol
      before the pause is over, whatever is called later and with whatever times. */
  lemma RateLimitStopsAll(cfg: SchedulerConfig, s: SchedulerView, sym: nat, t: int, httpStatus: int, retryAfterSec: int,
                          usedWeight: int, jitter: real, calls: seq<Call>, symbols: nat)
    requires Sized(s, symbols) && CallsOk(calls, symbols) && sym < symbols
    requires RateLimited(httpStatus)
    ensures var s' := Failure(cfg, s, sym, t, httpStatus, retryAfterSec, usedWeight, jitter);
      var floorMs := if httpStatus == 418 then cfg.minPause418Ms else cfg.minPause429Ms;
      && NoGrantBefore(cfg, s', calls, symbols, t + floorMs)
      && NoGrantBefore(cfg, s', calls, symbols, t + 1000 * retryAfterSec)
  {
    var s' := Failure(cfg, s, sym, t, httpStatus, retryAfterSec, usedWeight, jitter);
    PauseLasts(cfg, s', calls, symbols, t + (if httpStatus == 418 then cfg.minPause418Ms else cfg.minPause429Ms));
    PauseLasts(cfg, s', calls, symbols, t + 1000 * retryAfterSec);
  }

  // ---------------------------------------------------------------- the storm bound

  lemma NonNegativeProduct(a: real, b: real)
    requires a >= 0.0 && b >= 0.0
    ensures a * b >= 0.0
  {
  }

  lemma PartIsLess(most: real, jitter: real)
    requires most >= 0.0 && 0.0 <= jitter < 1.0
    ensures 0 <= Part(most, jitter) && Part(most, jitter) as real <= most
  {
    NonNegativeProduct(most, jitter);
    NonNegativeProduct(most, 1.0 - jitter);
    var x := most * jitter;
    assert x <= most;
  }

  /** Jitter only stretches a delay, by at most its fraction of it. */
  lemma DelayWithinJitter(cfg: SchedulerConfig, n: nat, jitter: real)
    requires n >= 1 && 0.0 <= jitter < 1.0
    ensures 0 <= Delay(cfg, n, jitter) - BaseDelay(cfg, n)
    ensures (Delay(cfg, n, jitter) - BaseDelay(cfg, n)) as real <= MostJitter(cfg, BaseDelay(cfg, n))
  {
    PartIsLess(MostJitter(cfg, BaseDelay(cfg, n)), jitter);
    assert Delay(cfg, n, jitter) - BaseDelay(cfg, n) == Part(MostJitter(cfg, BaseDelay(cfg, n)), jitter);
  }

  lemma DelaysGrow(cfg: SchedulerConfig, n: nat, m: nat)
    requires 1 <= n <= m
    ensures BaseDelay(cfg, n) <= BaseDelay(cfg, m)
  {
    Pow2Grows(cfg.initialBackoffMs, n - 1, m - 1);
  }

  /** The first k delays before jitter, added up. */
  ghost function TotalDelay(cfg: SchedulerConfig, k: nat): int {
    if k == 0 then 0 else TotalDelay(cfg, k - 1) + BaseDelay(cfg, k)
  }

  ghost function GrantTimes(cfg: SchedulerConfig, s: SchedulerView, calls: seq<Call>, symbols: nat, sym: nat): seq<int>
    requires Sized(s, symbols) && CallsOk(calls, symbols)
    decreases |calls|
  {
    if calls == [] then []
    else
      (if IsGrant(cfg, s, calls[0]) && calls[0].sym == sym then [calls[0].nowMs] else [])
      + GrantTimes(cfg, After(cfg, s, calls[0], symbols), calls[1..], symbols, sym)
  }

  /** Every grant of the symbol fails before its next one, and it never syncs. */
  ghost predicate AlwaysFails(cfg: SchedulerConfig, s: SchedulerView, calls: seq<Call>, symbols: nat, sym: nat,
                              pending: bool)
    requires Sized(s, symbols) && CallsOk(calls, symbols)
    decreases |calls|
  {
    calls != [] ==>
      var c := calls[0];
      var granted := IsGrant(cfg, s, c) && c.sym == sym;
      && (granted ==> !pending)
      && c != SyncedCall(sym)
      && AlwaysFails(cfg, After(cfg, s, c, symbols), calls[1..], symbols, sym,
                     if granted then true else if c.FailureCall? && c.sym == sym then false else pending)
  }

  /** After n grants since the first one at t0. */
  ghost predicate Delayed(cfg: SchedulerConfig, s: SchedulerView, sym: nat, pending: bool, t0: int, n: nat, from: int)
    requires sym < |s.failures| == |s.nextAllowedMs|
  {
    && n >= 1 && from >= t0 + TotalDelay(cfg, n - 1)
    && (if pending then s.failures[sym] >= n - 1
        else s.failures[sym] >= n && s.nextAllowedMs[sym] >= t0 + TotalDelay(cfg, n))
  }

  lemma FailureDelays(cfg: SchedulerConfig, s: SchedulerView, c: Call, symbols: nat, pending: bool, t0: int, n: nat,
                      from: int)
    requires Sized(s, symbols) && CallOk(c, symbols) && c.FailureCall?
    requires Delayed(cfg, s, c.sym, pending, t0, n, from) && from <= c.nowMs
    ensures Delayed(cfg, After(cfg, s, c, symbols), c.sym, false, t0, n, c.nowMs)
  {
    var f := s.failures[c.sym] + 1;
    PartIsLess(MostJitter(cfg, BaseDelay(cfg, f)), c.jitter);
    DelaysGrow(cfg, n, f);
  }

  lemma {:induction false} GrantsAreDelayed(cfg: SchedulerConfig, s: SchedulerView, calls: seq<Call>, symbols: nat,
                                            sym: nat,
                                            pending: bool, t0: int, n: nat, from: int, k: nat)
    requires Sized(s, symbols) && CallsOk(calls, symbols) && sym < symbols
    requires AlwaysFails(cfg, s, calls, symbols, sym, pending) && InOrder(calls, from)
    requires Delayed(cfg, s, sym, pending, t0, n, from)
    requires k < |GrantTimes(cfg, s, calls, symbols, sym)|
    ensures GrantTimes(cfg, s, calls, symbols, sym)[k] >= t0 + TotalDelay(cfg, n + k)
    decreases |calls|
  {
    var c, rest := calls[0], calls[1..];
    var s' := After(cfg, s, c, symbols);
    if IsGrant(cfg, s, c) && c.sym == sym {
      if k > 0 {
        GrantsAreDelayed(cfg, s', rest, symbols, sym, true, t0, n + 1, c.nowMs, k - 1);
      }
    } else if c.FailureCall? && c.sym == sym {
      FailureDelays(cfg, s, c, symbols, pending, t0, n, from);
      GrantsAreDelayed(cfg, s', rest, symbols, sym, false, t0, n, c.nowMs, k);
    } else {
      GrantsAreDelayed(cfg, s', rest, symbols, sym, pending, t0, n, if c.SyncedCall? then from else c.nowMs, k);
    }
  }

  /** Main result: if every grant of a symbol fails, its grants are at least the
      doubling delays apart: the N-th comes no earlier than the first plus the sum
      of the first N-1 delays. */
  lemma {:induction false} StormBound(cfg: SchedulerConfig, s: SchedulerView, calls: seq<Call>, symbols: nat, sym: nat,
                                      from: int, k: nat)
    requires Sized(s, symbols) && CallsOk(calls, symbols) && sym < symbols
    requires InOrder(calls, from)
    requires AlwaysFails(cfg, s, calls, symbols, sym, false)
    requires k < |GrantTimes(cfg, s, calls, symbols, sym)|
    ensures var times := GrantTimes(cfg, s, calls, symbols, sym);
      times[k] >= times[0] + TotalDelay(cfg, k)
    decreases |calls|
  {
    var c, rest := calls[0], calls[1..];
    var s' := After(cfg, s, c, symbols);
    if IsGrant(cfg, s, c) && c.sym == sym {
      if k > 0 {
        GrantsAreDelayed(cfg, s', rest, symbols, sym, true, c.nowMs, 1, c.nowMs, k - 1);
      }
    } else {
      StormBound(cfg, s', rest, symbols, sym, if c.SyncedCall? then from else c.nowMs, k);
    }
  }
}
