/** Missing trade ids (cpp/include/trade_gap.hpp): finding them, and the queue that keeps
    gap events until the tickerplant has acknowledged them.
  */
module TradeGaps {
  /** Ids firstId..lastId of sym are missing; those up to recoveredThroughId (0 for
      none) have been backfilled. */
  datatype TradeGap = TradeGap(sym: string, firstId: int, lastId: int, recovered: int, recoveredThroughId: int)
  {
    function Missing(): int { lastId - firstId + 1 }

    function NextNeededId(): int {
      if recoveredThroughId > 0 then recoveredThroughId + 1 else firstId
    }
  }

  datatype GapStatus = Detected | Partial | Recovered | Unrecoverable

  // ---------------------------------------------------------------- classifying ids

  datatype Kind = First | InOrder | Gap | Duplicate | OutOfOrder

  datatype IdResult = IdResult(kind: Kind, firstMissing: int, lastMissing: int, previous: int)

  class TradeIdTracker {
    var last: map<string, int>

    constructor ()
      ensures last == map[]
    {
      last := map[];
    }

    /** Compare id with the highest of its symbol so far; a jump past the next one
        leaves a gap of all ids in between. */
    method OnId(sym: string, id: int) returns (r: IdResult)
      modifies this
      ensures last == old(last)[sym := if sym in old(last) && old(last)[sym] > id then old(last)[sym] else id]
      ensures r.kind == First <==> sym !in old(last)
      ensures sym in old(last) ==>
                && r.previous == old(last)[sym]
                && (r.kind == InOrder <==> id == r.previous + 1)
                && (r.kind == Duplicate <==> id == r.previous)
                && (r.kind == OutOfOrder <==> id < r.previous)
                && (r.kind == Gap <==> id > r.previous + 1)
      ensures r.kind == Gap ==> r.firstMissing == r.previous + 1 && r.lastMissing == id - 1
    {
      if sym !in last {
        last := last[sym := id];
        return IdResult(First, 0, 0, 0);
      }
      var previous := last[sym];
      if id == previous + 1 { r := IdResult(InOrder, 0, 0, previous); }
      else if id == previous { r := IdResult(Duplicate, 0, 0, previous); }
      else if id < previous { r := IdResult(OutOfOrder, 0, 0, previous); }
      else { r := IdResult(Gap, previous + 1, id - 1, previous); }
      if id > previous { last := last[sym := id]; }
      assert last.Keys == old(last).Keys;
    }

    /** Start from an id the tickerplant has logged. */
    method Seed(sym: string, lastId: int)
      modifies this
      ensures last == old(last)[sym := lastId]
    {
      last := last[sym := lastId];
    }
  }

  // ---------------------------------------------------------------- gap events

  /** What became of one synchronous send. A lost connection leaves open whether
      the tickerplant had logged the row. */
  datatype EventReply = Acked | Rejected | LostAfterLogging | LostBeforeLogging

  /** Rows are known by their position in the push order. */
  datatype QueueView = QueueView(
    pushed: nat,
    settled: nat,           // rows acknowledged or rejected; the rest is pending
    acked: nat,
    rejected: nat,
    refused: set<nat>,      // which rows were rejected
    log: seq<nat>)          // what the tickerplant has logged

  predicate Lost(r: EventReply) {
    r.LostAfterLogging? || r.LostBeforeLogging?
  }

  ghost function SendHead(v: QueueView, r: EventReply): QueueView {
    match r
    case LostAfterLogging => v.(log := v.log + [v.settled])
    case LostBeforeLogging => v
    case Acked => v.(log := v.log + [v.settled], acked := v.acked + 1, settled := v.settled + 1)
    case Rejected => v.(refused := v.refused + {v.settled}, rejected := v.rejected + 1, settled := v.settled + 1)
  }

  ghost function FlushAll(v: QueueView, replies: nat -> EventReply, n: nat): (r: (QueueView, bool))
    requires v.settled <= v.pushed
    ensures r.0.settled <= r.0.pushed == v.pushed
    decreases v.pushed - v.settled
  {
    if v.settled == v.pushed then (v, true)
    else if Lost(replies(n)) then (SendHead(v, replies(n)), false)
    else FlushAll(SendHead(v, replies(n)), replies, n + 1)
  }

  class GapEventQueue<E> {
    var pending: seq<E>
    var acked: nat
    var rejected: nat
    ghost var pushed: seq<E>
    ghost var refused: set<nat>
    ghost var log: seq<nat>      // at the tickerplant

    ghost predicate Valid()
      reads this
    {
      acked + rejected <= |pushed| && pending == pushed[acked + rejected..]
    }

    ghost function View(): QueueView
      reads this
    {
      QueueView(|pushed|, acked + rejected, acked, rejected, refused, log)
    }

    constructor ()
      ensures Valid() && View() == QueueView(0, 0, 0, 0, {}, []) && pushed == []
    {
      pending, acked, rejected := [], 0, 0;
      pushed, refused, log := [], {}, [];
    }

    method Push(row: E)
      requires Valid()
      modifies this
      ensures Valid() && pushed == old(pushed) + [row]
      ensures View() == old(View()).(pushed := old(View()).pushed + 1)
    {
      pending := pending + [row];
      pushed := pushed + [row];
    }

    /** Send the oldest row; it leaves the queue unless the connection was lost. */
    method Send(reply: EventReply)
      requires Valid() && pending != []
      modifies this
      ensures Valid() && pushed == old(pushed)
      ensures View() == SendHead(old(View()), reply)
      ensures pending == if Lost(reply) then old(pending) else old(pending)[1..]
    {
      if reply == Acked || reply == LostAfterLogging {
        log := log + [acked + rejected];
      }
      if Lost(reply) { return; }
      if reply == Rejected {
        refused := refused + {acked + rejected};
        rejected := rejected + 1;
      } else {
        acked := acked + 1;
      }
      pending := pending[1..];
    }

    /** Empty the queue from its old end; `replies` says how each send ends. */
    method Flush(replies: nat -> EventReply) returns (emptied: bool)
      requires Valid()
      modifies this
      ensures Valid() && pushed == old(pushed)
      ensures (View(), emptied) == FlushAll(old(View()), replies, 0)
    {
      var n := 0;
      while pending != []
        invariant Valid() && pushed == old(pushed)
        invariant FlushAll(old(View()), replies, 0) == FlushAll(View(), replies, n)
        decreases |pending|
      {
        Send(replies(n));
        if Lost(replies(n)) { return false; }
        n := n + 1;
      }
      emptied := true;
    }
  }

  // ---------------------------------------------------------------- delivery over every run

  datatype QueueOp = PushOp | FlushOp(replies: nat -> EventReply)

  ghost function QueueRun(ops: seq<QueueOp>): (v: QueueView)
    ensures v.settled <= v.pushed
    decreases |ops|
  {
    if ops == [] then QueueView(0, 0, 0, 0, {}, [])
    else
      var v := QueueRun(ops[..|ops| - 1]);
      match ops[|ops| - 1]
      case PushOp => v.(pushed := v.pushed + 1)
      case FlushOp(replies) => FlushAll(v, replies, 0).0
  }

  /** The log without rejected rows and without repeats. */
  ghost function Clean(log: seq<nat>, refused: set<nat>): seq<nat>
    decreases |log|
  {
    if log == [] then []
    else
      var c, x := Clean(log[..|log| - 1], refused), log[|log| - 1];
      if x in refused || (c != [] && c[|c| - 1] == x) then c else c + [x]
  }

  /** The first n rows in push order, without the rejected ones. */
  ghost function Kept(n: nat, refused: set<nat>): seq<nat> {
    if n == 0 then [] else Kept(n - 1, refused) + if n - 1 in refused then [] else [n - 1]
  }

  ghost predicate Ascending(log: seq<nat>, top: nat) {
    && (forall i, j :: 0 <= i < j < |log| ==> log[i] <= log[j])
    && (forall i :: 0 <= i < |log| ==> log[i] <= top)
  }

  /** Every row is acknowledged, rejected or pending; the tickerplant's log, without
      rejected rows and repeats, is the settled rows in push order, plus at most
      the head that was logged but whose reply was lost. */
  ghost predicate Delivered(v: QueueView) {
    && v.acked + v.rejected == v.settled <= v.pushed
    && (forall r :: r in v.refused ==> r < v.settled)
    && Ascending(v.log, v.settled)
    && (Clean(v.log, v.refused) == Kept(v.settled, v.refused)
        || Clean(v.log, v.refused) == Kept(v.settled, v.refused) + [v.settled])
  }

  lemma {:induction false} KeptBelow(n: nat, refused: set<nat>)
    ensures forall r :: r in Kept(n, refused) ==> r < n
  {
    if n > 0 { KeptBelow(n - 1, refused); }
  }

  lemma {:induction false} KeptIgnoresLater(n: nat, refused: set<nat>, r: nat)
    requires r >= n
    ensures Kept(n, refused + {r}) == Kept(n, refused)
  {
    if n > 0 { KeptIgnoresLater(n - 1, refused, r); }
  }

  lemma {:induction false} CleanIsLogged(log: seq<nat>, refused: set<nat>)
    ensures forall r :: r in Clean(log, refused) ==> r in log
    decreases |log|
  {
    if log != [] {
      CleanIsLogged(log[..|log| - 1], refused);
    }
  }

  /** Rejecting the newest logged row takes just that row out of the clean log. */
  lemma {:induction false} CleanDropsHead(log: seq<nat>, refused: set<nat>, head: nat)
    requires head !in refused && Ascending(log, head)
    ensures var c, c' := Clean(log, refused), Clean(log, refused + {head});
      (c' == c && head !in c) || c == c' + [head]
    decreases |log|
  {
    if log != [] {
      var front, x := log[..|log| - 1], log[|log| - 1];
      CleanDropsHead(front, refused, head);
      if x != head {
        CleanIsLogged(front, refused);
        assert head !in front;
      }
    }
  }

  lemma LogHead(v: QueueView)
    requires Delivered(v)
    ensures Clean(v.log + [v.settled], v.refused) == Kept(v.settled, v.refused) + [v.settled]
    ensures Ascending(v.log + [v.settled], v.settled)
  {
    assert (v.log + [v.settled])[..|v.log|] == v.log;
    KeptBelow(v.settled, v.refused);
    var kept := Kept(v.settled, v.refused);
    if kept != [] { assert kept[|kept| - 1] in kept; }
  }

  lemma RejectHead(v: QueueView)
    requires Delivered(v)
    ensures Clean(v.log, v.refused + {v.settled}) == Kept(v.settled + 1, v.refused + {v.settled})
  {
    CleanDropsHead(v.log, v.refused, v.settled);
    KeptBelow(v.settled, v.refused);
    KeptIgnoresLater(v.settled, v.refused, v.settled);
    var kept, c, c' := Kept(v.settled, v.refused), Clean(v.log, v.refused), Clean(v.log, v.refused + {v.settled});
    if c == c' + [v.settled] {
      assert v.settled in c;
      assert c == kept + [v.settled];
      assert c' == c[..|c| - 1] == kept;
    } else {
      assert v.settled in kept + [v.settled];
    }
  }

  lemma SendDelivers(v: QueueView, r: EventReply)
    requires Delivered(v) && v.settled < v.pushed
    ensures Delivered(SendHead(v, r))
  {
    match r {
      case LostAfterLogging => LogHead(v);
      case LostBeforeLogging =>
      case Acked => LogHead(v);
      case Rejected => RejectHead(v);
    }
  }

  lemma {:induction false} FlushDelivers(v: QueueView, replies: nat -> EventReply, n: nat)
    requires Delivered(v)
    ensures Delivered(FlushAll(v, replies, n).0)
    ensures FlushAll(v, replies, n).1 ==> FlushAll(v, replies, n).0.settled == v.pushed
    decreases v.pushed - v.settled
  {
    if v.settled < v.pushed {
      SendDelivers(v, replies(n));
      if !Lost(replies(n)) {
        FlushDelivers(SendHead(v, replies(n)), replies, n + 1);
      }
    }
  }

  /** Main result: at least once and in order, over every run of pushes and
      flushes, whatever connections are lost and rows rejected. */
  lemma {:induction false} EventsAreDelivered(ops: seq<QueueOp>)
    ensures Delivered(QueueRun(ops))
    decreases |ops|
  {
    if ops != [] {
      var v := QueueRun(ops[..|ops| - 1]);
      EventsAreDelivered(ops[..|ops| - 1]);
      match ops[|ops| - 1] {
        case PushOp =>
        case FlushOp(replies) => FlushDelivers(v, replies, 0);
      }
    }
  }

  /** So every row that was acknowledged is in the log. */
  lemma {:induction false} AckedIsLogged(v: QueueView, row: nat)
    requires Delivered(v) && row < v.settled && row !in v.refused
    ensures row in v.log
  {
    KeptHolds(v.settled, v.refused, row);
    CleanIsLogged(v.log, v.refused);
  }

  lemma {:induction false} KeptHolds(n: nat, refused: set<nat>, row: nat)
    requires row < n && row !in refused
    ensures row in Kept(n, refused)
  {
    if row < n - 1 { KeptHolds(n - 1, refused, row); }
  }

  // ---------------------------------------------------------------- a flush goes on

  /** The first reply that loses the connection, or the one after the last row. */
  lemma {:induction false} FirstLost(v: QueueView, replies: nat -> EventReply, n: nat) returns (k: nat)
    requires v.settled <= v.pushed
    ensures n <= k <= n + v.pushed - v.settled
    ensures forall i :: n <= i < k ==> !Lost(replies(i))
    ensures k < n + v.pushed - v.settled ==> Lost(replies(k))
    decreases v.pushed - v.settled
  {
    if v.settled == v.pushed || Lost(replies(n)) {
      k := n;
    } else {
      k := FirstLost(v.(settled := v.settled + 1), replies, n + 1);
    }
  }

  /** Main result: a flush settles every pending row up to the one whose reply is lost,
      and each is acknowledged or rejected as its reply says. It empties the queue
      exactly when no reply is lost. */
  lemma {:induction false} FlushSettles(v: QueueView, replies: nat -> EventReply, n: nat, k: nat)
    requires v.settled <= v.pushed && n <= k <= n + v.pushed - v.settled
    requires forall i :: n <= i < k ==> !Lost(replies(i))
    requires k < n + v.pushed - v.settled ==> Lost(replies(k))
    ensures var (w, emptied) := FlushAll(v, replies, n);
      && w.settled == v.settled + (k - n) && (emptied <==> w.settled == v.pushed)
      && (forall i :: n <= i < k ==>
            var row := v.settled + (i - n);
            (row in w.refused <==> (replies(i).Rejected? || row in v.refused)))
    decreases v.pushed - v.settled
  {
    if v.settled < v.pushed && !Lost(replies(n)) {
      FlushSettles(SendHead(v, replies(n)), replies, n + 1, k);
      RefusedStays(SendHead(v, replies(n)), replies, n + 1, v.settled);
    }
  }

  lemma {:induction false} RefusedStays(v: QueueView, replies: nat -> EventReply, n: nat, row: nat)
    requires v.settled <= v.pushed && row < v.settled
    ensures row in FlushAll(v, replies, n).0.refused <==> row in v.refused
    decreases v.pushed - v.settled
  {
    if v.settled < v.pushed && !Lost(replies(n)) { RefusedStays(SendHead(v, replies(n)), replies, n + 1, row); }
  }
}
