/** Backfilling trade-id gaps page by page over REST (cpp/include/trade_backfill.hpp).

    The exchange is an adversary: `replies` says for every poll of the result
    queue whether a page has arrived and what it holds, and pages may be short,
    shuffled, overlapping, overlong or stale.
  */
module TradeBackfills {
  import opened Options
  import opened SnapshotSchedulers
  import opened TradeGaps

  datatype BackfillTrade = BackfillTrade(id: int, price: int, qty: int)

  datatype Page = Page(
    ok: bool,          // answered with trades, perhaps none
    tooOld: bool,      // so far back that none are served
    httpStatus: int,
    retryAfterSec: int,
    usedWeight: int,
    recvTimeNs: int,
    trades: seq<BackfillTrade>)

  /** An arrived page, and the jitter the scheduler would draw for it. */
  datatype Reply = Reply(page: Page, jitter: real)

  /** `inlineFetch`: a call of the pump waits for each page itself. */
  datatype BackfillSettings = BackfillSettings(
    enabled: bool, maxGapIds: int, pageLimit: nat, maxFailures: int, inlineFetch: bool, sched: SchedulerConfig)

  const DEFAULT_LIMITS := SchedulerSettings(25, 6000, 0.1, 1000, 60000, 0.25, 60000, 300000, 0.5, 60000)

  type BackfillConfig = c: BackfillSettings | c.pageLimit >= 1
    witness BackfillSettings(true, 500000, 1000, 10, false, DEFAULT_LIMITS)

  datatype Job = Job(gap: TradeGap, failures: nat)

  datatype Request = Request(gap: TradeGap, fromId: int, limit: int)

  datatype Row = Row(sym: string, trade: BackfillTrade, recvTimeNs: int)

  datatype GapEvent = GapEvent(gap: TradeGap, status: GapStatus, reason: string)

  datatype Counters = Counters(pagesFailed: nat, gapsRecovered: nat, gapsUnrecoverable: nat)

  datatype BackfillView = BackfillView(
    queue: seq<Job>,
    inFlight: bool,
    requests: seq<Request>,   // all requests made
    rows: seq<Row>,           // all trades published
    events: seq<GapEvent>,    // all status events reported
    counters: Counters,
    sched: SchedulerView)

  // ---------------------------------------------------------------- one page of one gap

  /** The trades of a page that continue at `expected` without a hole. */
  ghost function Useful(ts: seq<BackfillTrade>, expected: int, lastId: int): seq<BackfillTrade>
    decreases |ts|
  {
    if ts == [] then []
    else if ts[0].id < expected then Useful(ts[1..], expected, lastId)
    else if ts[0].id != expected || ts[0].id > lastId then []
    else [ts[0]] + Useful(ts[1..], expected + 1, lastId)
  }

  ghost predicate Complete(gap: TradeGap) {
    gap.recoveredThroughId >= gap.lastId
  }

  // ---------------------------------------------------------------- the queue

  ghost function FinishHead(v: BackfillView, status: GapStatus, reason: string): BackfillView
    requires v.queue != []
  {
    v.(events := v.events + [GapEvent(v.queue[0].gap, status, reason)],
       counters := if status.Recovered? then v.counters.(gapsRecovered := v.counters.gapsRecovered + 1)
                   else v.counters.(gapsUnrecoverable := v.counters.gapsUnrecoverable + 1),
       queue := v.queue[1..])
  }

  function RowsOf(sym: string, ts: seq<BackfillTrade>, recvTimeNs: int): seq<Row> {
    seq(|ts|, i requires 0 <= i < |ts| => Row(sym, ts[i], recvTimeNs))
  }

  ghost function CountFailed(v: BackfillView): BackfillView {
    v.(counters := v.counters.(pagesFailed := v.counters.pagesFailed + 1))
  }

  /** A page that brought nothing: back off, and give the gap up after too many. */
  ghost function PageFailed(cfg: BackfillConfig, v: BackfillView, page: Page, nowMs: int, jitter: real, reason: string)
    : (r: BackfillView)
    requires v.queue != [] && Sized(v.sched, 1)
    ensures Sized(r.sched, 1) && r.inFlight == v.inFlight && r.requests == v.requests
  {
    var v1 := CountFailed(v).(sched := Failure(cfg.sched, v.sched, 0, nowMs, page.httpStatus, page.retryAfterSec,
                                               page.usedWeight, jitter));
    var failures := v.queue[0].failures + 1;
    if failures >= cfg.maxFailures then FinishHead(v1, Unrecoverable, reason)
    else v1.(queue := v1.queue[0 := v1.queue[0].(failures := failures)])
  }

  /** A page that continued the gap. */
  ghost function PageUsed(v: BackfillView, ts: seq<BackfillTrade>, recvTimeNs: int): (r: BackfillView)
    requires v.queue != [] && Sized(v.sched, 1)
    ensures Sized(r.sched, 1) && r.inFlight == v.inFlight && r.requests == v.requests
  {
    var g := v.queue[0].gap;
    var g' := g.(recovered := g.recovered + |ts|, recoveredThroughId := g.NextNeededId() + |ts| - 1);
    var v1 := v.(sched := Synced(v.sched, 0), queue := v.queue[0 := Job(g', 0)],
                 rows := v.rows + RowsOf(g.sym, ts, recvTimeNs));
    if Complete(g') then FinishHead(v1, Recovered, "")
    else v1.(events := v1.events + [GapEvent(g', Partial, "")])
  }

  ghost function SeePage(cfg: BackfillConfig, v: BackfillView, page: Page, nowMs: int): BackfillView {
    v.(sched := CheckUsedWeight(cfg.sched, v.sched, nowMs, page.usedWeight))
  }

  ghost function OnPage(cfg: BackfillConfig, v: BackfillView, page: Page, nowMs: int, jitter: real): (r: BackfillView)
    requires v.queue != [] && Sized(v.sched, 1)
    ensures Sized(r.sched, 1) && r.inFlight == v.inFlight && r.requests == v.requests
  {
    var g := v.queue[0].gap;
    if !page.ok then
      if page.tooOld then FinishHead(CountFailed(SeePage(cfg, v, page, nowMs)), Unrecoverable, "tooOld")
      else PageFailed(cfg, v, page, nowMs, jitter, "restFailed")
    else
      var seen := SeePage(cfg, v, page, nowMs);
      if page.trades == [] then PageFailed(cfg, seen, page, nowMs, jitter, "notServed")
      else if page.trades[0].id > g.NextNeededId() then FinishHead(CountFailed(seen), Unrecoverable, "notServed")
      else
        var ts := Useful(page.trades, g.NextNeededId(), g.lastId);
        if ts == [] then PageFailed(cfg, seen, page, nowMs, jitter, "notServed")
        else PageUsed(seen, ts, page.recvTimeNs)
  }

  /** The head gap needs no request: how it is closed. */
  function CloseReason(cfg: BackfillConfig, gap: TradeGap): Option<(GapStatus, string)> {
    if !cfg.enabled then Some((Unrecoverable, "backfillDisabled"))
    else if gap.Missing() > cfg.maxGapIds then Some((Unrecoverable, "tooLarge"))
    else if gap.NextNeededId() > gap.lastId then Some((Recovered, ""))
    else None
  }

  ghost function CloseHeads(cfg: BackfillConfig, v: BackfillView): (r: BackfillView)
    ensures r.sched == v.sched && r.inFlight == v.inFlight && r.requests == v.requests && r.rows == v.rows
    ensures |r.queue| <= |v.queue| && (|r.queue| == |v.queue| ==> r == v)
    ensures r.queue != [] ==> CloseReason(cfg, r.queue[0].gap) == None
    decreases |v.queue|
  {
    if v.queue == [] then v
    else match CloseReason(cfg, v.queue[0].gap)
      case None => v
      case Some(c) => CloseHeads(cfg, FinishHead(v, c.0, c.1))
  }

  function RequestFor(cfg: BackfillConfig, gap: TradeGap): Request {
    var from := gap.NextNeededId();
    Request(gap, from, Min(cfg.pageLimit, gap.lastId - from + 1))
  }

  ghost function AskNext(cfg: BackfillConfig, v: BackfillView, nowMs: int): BackfillView
    requires Sized(v.sched, 1)
  {
    if v.inFlight || v.queue == [] then v
    else
      var v' := v.(sched := Acquire(cfg.sched, v.sched, 0, nowMs));
      if Grants(cfg.sched, v.sched, 0, nowMs) then
        v'.(inFlight := true, requests := v.requests + [RequestFor(cfg, v.queue[0].gap)])
      else v'
  }

  ghost predicate Ready(v: BackfillView) {
    && Sized(v.sched, 1)
    && (v.inFlight ==> v.queue != [])
  }

  /** One turn of the pump loop, and whether the loop goes on: after a request only if
      the page is fetched inline, else if anything progressed. */
  ghost function Turn(cfg: BackfillConfig, v: BackfillView, nowMs: int, reply: Option<Reply>): (r: (BackfillView, bool))
    requires Ready(v)
    ensures Ready(r.0)
  {
    var arrived := v.inFlight && reply.Some?;
    var v1 := if arrived then OnPage(cfg, v.(inFlight := false), reply.value.page, nowMs, reply.value.jitter) else v;
    var v2 := if v1.inFlight then v1 else CloseHeads(cfg, v1);
    var v3 := AskNext(cfg, v2, nowMs);
    (v3, if |v3.requests| > |v2.requests| then cfg.inlineFetch else arrived || |v2.queue| < |v1.queue|)
  }

  /** Some turns at one time; the replies are what each of them found. */
  ghost function Turns(cfg: BackfillConfig, v: BackfillView, nowMs: int, replies: seq<Option<Reply>>): (r: BackfillView)
    requires Ready(v)
    ensures Ready(r)
    decreases |replies|
  {
    if replies == [] then v
    else Turn(cfg, Turns(cfg, v, nowMs, replies[..|replies| - 1]), nowMs, replies[|replies| - 1]).0
  }

  /** Bounds the turns of one call of the pump. */
  const PUMP_GUARD: nat := 100000

  // ---------------------------------------------------------------- a call ends by itself

  ghost function TokensAt(cfg: BackfillConfig, v: BackfillView, nowMs: int): real {
    Refill(cfg.sched, v.sched, nowMs).tokens
  }

  /** No more than r requests can still be granted at this time. */
  ghost predicate Affords(cfg: BackfillConfig, v: BackfillView, nowMs: int, r: nat) {
    TokensAt(cfg, v, nowMs) < (r + 1) as real * cfg.sched.weightPerRequest as real
  }

  lemma PageSpendsNothing(cfg: BackfillConfig, v: BackfillView, page: Page, nowMs: int, jitter: real)
    requires v.queue != [] && Sized(v.sched, 1)
    ensures var s := OnPage(cfg, v, page, nowMs, jitter).sched;
      s.tokens == v.sched.tokens && s.lastRefillMs == v.sched.lastRefillMs
  {
  }

  lemma AskSpends(cfg: BackfillConfig, v: BackfillView, nowMs: int, r: nat)
    requires Sized(v.sched, 1) && cfg.sched.weightPerRequest >= 1 && Affords(cfg, v, nowMs, r)
    ensures var v' := AskNext(cfg, v, nowMs);
      if v'.requests == v.requests then v'.inFlight == v.inFlight && Affords(cfg, v', nowMs, r)
      else |v'.requests| == |v.requests| + 1 && !v.inFlight && v'.inFlight && r >= 1 && Affords(cfg, v', nowMs, r - 1)
  {
    var w := cfg.sched.weightPerRequest as real;
    var x := r as real;
    assert (r + 1) as real == x + 1.0;
    assert (x + 1.0) * w == x * w + w;
    if r >= 1 { assert ((r - 1) + 1) as real == x; }
  }

  ghost predicate HeadCloseable(cfg: BackfillConfig, v: BackfillView) {
    !v.inFlight && v.queue != [] && CloseReason(cfg, v.queue[0].gap).Some?
  }

  /** How many more turns the loop can go on after. */
  ghost function TurnsLeft(cfg: BackfillConfig, v: BackfillView, r: nat): nat {
    2 * r + (if v.inFlight then 1 else 0) + if HeadCloseable(cfg, v) then 1 else 0
  }

  lemma TurnSpends(cfg: BackfillConfig, v: BackfillView, nowMs: int, reply: Option<Reply>, r: nat) returns (r': nat)
    requires Ready(v) && cfg.sched.weightPerRequest >= 1 && Affords(cfg, v, nowMs, r)
    ensures var (v', goesOn) := Turn(cfg, v, nowMs, reply);
      && Affords(cfg, v', nowMs, r') && |v'.requests| + r' <= |v.requests| + r
      && (goesOn ==> TurnsLeft(cfg, v', r') < TurnsLeft(cfg, v, r))
  {
    var arrived := v.inFlight && reply.Some?;
    var v1 := v;
    if arrived {
      v1 := OnPage(cfg, v.(inFlight := false), reply.value.page, nowMs, reply.value.jitter);
      PageSpendsNothing(cfg, v.(inFlight := false), reply.value.page, nowMs, reply.value.jitter);
    }
    var v2 := if v1.inFlight then v1 else CloseHeads(cfg, v1);
    assert Affords(cfg, v2, nowMs, r);
    AskSpends(cfg, v2, nowMs, r);
    var v' := AskNext(cfg, v2, nowMs);
    r' := if v'.requests == v2.requests then r else r - 1;
  }

  /** With the worker the loop goes on after a turn without a request only, and then
      there is nothing to do before the next request. */
  lemma WorkerTurn(cfg: BackfillConfig, v: BackfillView, nowMs: int, reply: Option<Reply>)
    requires Ready(v) && !cfg.inlineFetch
    ensures var (v', goesOn) := Turn(cfg, v, nowMs, reply);
      && |v'.requests| <= |v.requests| + 1
      && (goesOn ==> |v'.requests| == |v.requests| && !v'.inFlight && !HeadCloseable(cfg, v'))
      && (!v.inFlight && !HeadCloseable(cfg, v) ==> !goesOn)
  {
  }

  // ---------------------------------------------------------------- the program

  class TradeBackfill {
    const cfg: BackfillConfig
    const sched: SnapshotScheduler
    var queue: seq<Job>
    var inFlight: bool
    var counters: Counters
    var tradesBackfilled: nat
    ghost var requests: seq<Request>
    ghost var rows: seq<Row>
    var events: seq<GapEvent>   // what the pump has reported

    ghost predicate Valid()
      reads this, sched
    {
      && sched.Valid() && sched.symbols == 1 && sched.cfg == cfg.sched
      && tradesBackfilled == |rows|
      && (inFlight ==> queue != [])
    }

    ghost function View(): BackfillView
      reads this, sched
    {
      BackfillView(queue, inFlight, requests, rows, events, counters, sched.View())
    }

    constructor (cfg: BackfillConfig)
      ensures Valid() && fresh(sched)
      ensures View() == BackfillView([], false, [], [], [], Counters(0, 0, 0), Initial(cfg.sched, 1))
      ensures this.cfg == cfg
    {
      this.cfg := cfg;
      sched := new SnapshotScheduler(1, cfg.sched);
      queue, inFlight, counters, tradesBackfilled := [], false, Counters(0, 0, 0), 0;
      requests, rows, events := [], [], [];
    }

    method AddGap(gap: TradeGap)
      requires Valid()
      modifies this`queue
      ensures Valid() && View() == old(View()).(queue := old(queue) + [Job(gap, 0)])
    {
      queue := queue + [Job(gap, 0)];
    }

    method Finish(status: GapStatus, reason: string)
      requires Valid() && queue != [] && !inFlight
      modifies this`queue, this`counters, this`events
      ensures Valid() && View() == FinishHead(old(View()), status, reason)
    {
      events := events + [GapEvent(queue[0].gap, status, reason)];
      if status == Recovered {
        counters := counters.(gapsRecovered := counters.gapsRecovered + 1);
      } else {
        counters := counters.(gapsUnrecoverable := counters.gapsUnrecoverable + 1);
      }
      queue := queue[1..];
    }

    /** Publish the part of a page that continues the gap. */
    method PublishUseful(page: Page) returns (n: nat)
      requires Valid() && queue != []
      modifies this`rows, this`tradesBackfilled
      ensures Valid()
      ensures var ts := Useful(page.trades, queue[0].gap.NextNeededId(), queue[0].gap.lastId);
        n == |ts| && rows == old(rows) + RowsOf(queue[0].gap.sym, ts, page.recvTimeNs)
    {
      var g := queue[0].gap;
      var expected := g.NextNeededId();
      ghost var all := Useful(page.trades, expected, g.lastId);
      ghost var done: seq<BackfillTrade> := [];
      n := 0;
      var i := 0;
      while i < |page.trades|
        invariant 0 <= i <= |page.trades| && n == |done|
        invariant all == done + Useful(page.trades[i..], expected, g.lastId)
        invariant rows == old(rows) + RowsOf(g.sym, done, page.recvTimeNs)
        invariant tradesBackfilled == |rows|
      {
        var t := page.trades[i];
        assert page.trades[i..][0] == t && page.trades[i..][1..] == page.trades[i + 1..];
        i := i + 1;
        if t.id < expected { continue; }
        if t.id != expected || t.id > g.lastId { break; }
        rows := rows + [Row(g.sym, t, page.recvTimeNs)];
        tradesBackfilled := tradesBackfilled + 1;
        done := done + [t];
        expected := expected + 1;
        n := n + 1;
      }
    }

    /** A page that brought nothing. */
    method Fail(page: Page, nowMs: int, jitter: real, reason: string)
      requires Valid() && queue != [] && !inFlight
      modifies this`queue, this`counters, this`events, sched
      ensures Valid()
      ensures View() == PageFailed(cfg, old(View()), page, nowMs, jitter, reason)
    {
      counters := counters.(pagesFailed := counters.pagesFailed + 1);
      sched.OnFailure(0, nowMs, page.httpStatus, page.retryAfterSec, page.usedWeight, jitter);
      var failures := queue[0].failures + 1;
      if failures >= cfg.maxFailures {
        Finish(Unrecoverable, reason);
      } else {
        queue := queue[0 := queue[0].(failures := failures)];
      }
    }

    method TakePage(page: Page, nowMs: int, jitter: real)
      requires Valid() && queue != [] && !inFlight
      modifies this`queue, this`counters, this`events, this`rows, this`tradesBackfilled, sched
      ensures Valid() && View() == OnPage(cfg, old(View()), page, nowMs, jitter)
    {
      var g := queue[0].gap;
      if !page.ok && page.tooOld {
        counters := counters.(pagesFailed := counters.pagesFailed + 1);
        sched.OnFetchOk(nowMs, page.usedWeight);
        Finish(Unrecoverable, "tooOld");
        return;
      }
      if !page.ok {
        Fail(page, nowMs, jitter, "restFailed");
        return;
      }
      sched.OnFetchOk(nowMs, page.usedWeight);
      if page.trades == [] {
        Fail(page, nowMs, jitter, "notServed");
        return;
      }
      if page.trades[0].id > g.NextNeededId() {
        counters := counters.(pagesFailed := counters.pagesFailed + 1);
        Finish(Unrecoverable, "notServed");
        return;
      }
      TakeTrades(page, nowMs, jitter);
    }

    /** A page that starts where it should. */
    method TakeTrades(page: Page, nowMs: int, jitter: real)
      requires Valid() && queue != [] && !inFlight
      requires page.ok && page.trades != [] && page.trades[0].id <= queue[0].gap.NextNeededId()
      modifies this`queue, this`counters, this`events, this`rows, this`tradesBackfilled, sched
      ensures Valid()
      ensures var ts := Useful(page.trades, old(queue)[0].gap.NextNeededId(), old(queue)[0].gap.lastId);
        View() == if ts == [] then PageFailed(cfg, old(View()), page, nowMs, jitter, "notServed")
                  else PageUsed(old(View()), ts, page.recvTimeNs)
    {
      var g := queue[0].gap;
      var n := PublishUseful(page);
      if n == 0 {
        assert rows == old(rows);
        Fail(page, nowMs, jitter, "notServed");
        return;
      }
      g := g.(recovered := g.recovered + n, recoveredThroughId := g.NextNeededId() + n - 1);
      queue := queue[0 := Job(g, 0)];
      sched.OnSynced(0);
      if g.recoveredThroughId >= g.lastId {
        Finish(Recovered, "");
      } else {
        events := events + [GapEvent(g, Partial, "")];
      }
    }

    method CloseFinished() returns (closed: bool)
      requires Valid() && !inFlight
      modifies this`queue, this`counters, this`events
      ensures Valid() && View() == CloseHeads(cfg, old(View()))
      ensures closed == (|queue| < |old(queue)|)
    {
      closed := false;
      while queue != []
        invariant Valid() && !inFlight && sched.View() == old(sched.View())
        invariant CloseHeads(cfg, old(View())) == CloseHeads(cfg, View())
        invariant |queue| <= |old(queue)| && closed == (|queue| < |old(queue)|)
        decreases |queue|
      {
        match CloseReason(cfg, queue[0].gap) {
          case None => return;
          case Some(c) =>
            Finish(c.0, c.1);
            closed := true;
        }
      }
    }

    method Ask(nowMs: int) returns (asked: bool)
      requires Valid()
      modifies this`inFlight, this`requests, sched
      ensures Valid() && View() == AskNext(cfg, old(View()), nowMs)
      ensures asked == (|requests| > |old(requests)|)
    {
      if inFlight || queue == [] { return false; }
      asked := sched.TryAcquire(0, nowMs);
      if asked {
        inFlight := true;
        requests := requests + [RequestFor(cfg, queue[0].gap)];
      }
    }

    /** Take a finished page, close what needs no request, ask for the next page; again
        as long as the loop goes on. With the worker a call makes at most one request.
        Inline it makes at most r, where r is budget / weight rounded down, and leaves no
        page unread. Both stop by themselves, never by the loop guard, as long as the
        guard allows for two turns a request. */
    method Pump(nowMs: int, replies: nat -> Option<Reply>, ghost r: nat)
      returns (settled: bool, ghost found: seq<Option<Reply>>)
      requires Valid()
      requires cfg.inlineFetch ==> forall n: nat :: replies(n).Some?
      modifies this, sched
      ensures Valid() && View() == Turns(cfg, old(View()), nowMs, found)
      ensures !cfg.inlineFetch ==> settled && |requests| <= |old(requests)| + 1
      ensures cfg.inlineFetch && settled ==> !inFlight
      ensures cfg.sched.weightPerRequest >= 1 && Affords(cfg, old(View()), nowMs, r) ==>
                |requests| <= |old(requests)| + r && (2 * r + 3 <= PUMP_GUARD ==> settled)
    {
      found, settled := [], false;
      var polls := 0;
      ghost var left := r;
      for guard := 0 to PUMP_GUARD
        invariant Valid() && View() == Turns(cfg, old(View()), nowMs, found)
        invariant !cfg.inlineFetch ==> |requests| == |old(requests)| && guard <= 1
        invariant !cfg.inlineFetch && guard == 1 ==> !inFlight && !HeadCloseable(cfg, View())
        invariant cfg.sched.weightPerRequest >= 1 && Affords(cfg, old(View()), nowMs, r) ==>
                    && Affords(cfg, View(), nowMs, left) && |requests| + left <= |old(requests)| + r
                    && TurnsLeft(cfg, View(), left) + guard <= TurnsLeft(cfg, old(View()), r)
      {
        ghost var was := View();
        var polled := inFlight;
        var reply := if polled then replies(polls) else None;
        var goesOn := OneTurn(nowMs, reply);
        if polled { polls := polls + 1; }
        found := found + [reply];
        assert found[..|found| - 1] + [reply] == found;
        if !cfg.inlineFetch { WorkerTurn(cfg, was, nowMs, reply); }
        if cfg.sched.weightPerRequest >= 1 && Affords(cfg, was, nowMs, left) {
          left := TurnSpends(cfg, was, nowMs, reply, left);
        }
        if !goesOn { return true, found; }
      }
    }

    method OneTurn(nowMs: int, reply: Option<Reply>) returns (goesOn: bool)
      requires Valid()
      modifies this, sched
      ensures Valid() && (View(), goesOn) == Turn(cfg, old(View()), nowMs, reply)
    {
      goesOn := false;
      if inFlight && reply.Some? {
        inFlight := false;
        TakePage(reply.value.page, nowMs, reply.value.jitter);
        goesOn := true;
      }
      if !inFlight {
        var closed := CloseFinished();
        goesOn := goesOn || closed;
      }
      var asked := Ask(nowMs);
      if asked { goesOn := cfg.inlineFetch; }
    }
  }
}
