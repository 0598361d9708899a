/** Snapshot requests between the WebSocket thread and the fetching thread
    (cpp/include/snapshot_worker.hpp; request ids, timeouts and the stale check of
    cpp/src/quote_feed_handler.cpp).

    The classes are the two sides of the program. The threads are modelled as a
    state machine whose steps interleave in any order; `EveryInterleavingIsSafe`
    is the guarantee over all of its runs.
  */
module SnapshotRequests {
  import opened Options

  const SNAPSHOT_TIMEOUT_MS: int := 30000
  const QUEUE_CAPACITY: nat := 10

  // ---------------------------------------------------------------- bounded queues

  function PushBounded<T>(q: seq<T>, x: T, capacity: nat): seq<T> {
    (if |q| >= capacity && q != [] then q[1..] else q) + [x]
  }

  class BoundedQueue<T> {
    const capacity: nat
    var items: seq<T>
    var closed: bool

    constructor (capacity: nat)
      requires capacity >= 1
      ensures this.capacity == capacity && items == [] && !closed
    {
      this.capacity, items, closed := capacity, [], false;
    }

    /** False if the oldest item was dropped or the queue is shut down. */
    method Push(x: T) returns (ok: bool)
      modifies this`items
      ensures items == if closed then old(items) else PushBounded(old(items), x, capacity)
      ensures ok == (!closed && (|old(items)| < capacity || old(items) == []))
    {
      if closed { return false; }
      ok := true;
      if |items| >= capacity && items != [] {
        items := items[1..];
        ok := false;
      }
      items := items + [x];
    }

    method TryPop() returns (r: Option<T>)
      modifies this`items
      ensures old(items) == [] ==> r == None && items == []
      ensures old(items) != [] ==> r == Some(old(items)[0]) && items == old(items)[1..]
    {
      if items == [] { return None; }
      r := Some(items[0]);
      items := items[1..];
    }

    method Drain() returns (all: seq<T>)
      modifies this`items
      ensures all == old(items) && items == []
    {
      all := items;
      items := [];
    }

    method Shutdown()
      modifies this`closed
      ensures closed
    {
      closed := true;
    }
  }

  // ---------------------------------------------------------------- the fetching thread

  datatype Ticket = Ticket(sym: nat, id: nat)

  datatype Answer<D> = Answer(ticket: Ticket, data: D)

  class SnapshotWorker<D> {
    const requests: BoundedQueue<Ticket>
    const results: BoundedQueue<Answer<D>>
    var nextId: nat
    var fetching: Option<Ticket>

    constructor ()
      ensures fresh(requests) && fresh(results)
      ensures requests.capacity == results.capacity == QUEUE_CAPACITY
      ensures requests.items == [] && results.items == [] && !requests.closed && !results.closed
      ensures nextId == 0 && fetching == None
    {
      requests := new BoundedQueue<Ticket>(QUEUE_CAPACITY);
      results := new BoundedQueue<Answer<D>>(QUEUE_CAPACITY);
      nextId, fetching := 0, None;
    }

    /** The id is handed out even when an older request was dropped for it. */
    method Enqueue(sym: nat) returns (id: nat)
      modifies this`nextId, requests`items
      ensures id == nextId == old(nextId) + 1
      ensures requests.items ==
              if requests.closed then old(requests.items)
              else PushBounded(old(requests.items), Ticket(sym, id), requests.capacity)
    {
      nextId := nextId + 1;
      id := nextId;
      var kept := requests.Push(Ticket(sym, id));
    }

    /** The thread takes the next request; it handles one at a time. */
    method Take() returns (taken: bool)
      requires fetching == None
      modifies this`fetching, requests`items
      ensures taken == (old(requests.items) != [])
      ensures taken ==> fetching == Some(old(requests.items)[0]) && requests.items == old(requests.items)[1..]
      ensures !taken ==> fetching == None && requests.items == []
    {
      fetching := requests.TryPop();
      taken := fetching.Some?;
    }

    /** The fetch came back, well or badly. */
    method Deliver(data: D)
      requires fetching.Some?
      modifies this`fetching, results`items
      ensures fetching == None
      ensures results.items ==
              if results.closed then old(results.items)
              else PushBounded(old(results.items), Answer(old(fetching).value, data), results.capacity)
    {
      var kept := results.Push(Answer(fetching.value, data));
      fetching := None;
    }
  }

  // ---------------------------------------------------------------- the WebSocket thread

  /** Per symbol: the id a result must not be older than, and when the request in
      flight was made (0 when there is none). */
  datatype Tracker = Tracker(latestId: nat, requestedAtMs: int)

  function Requested(id: nat, nowMs: int): Tracker {
    Tracker(id, nowMs)
  }

  predicate Waiting(t: Tracker) {
    t.requestedAtMs != 0
  }

  predicate TimedOut(t: Tracker, nowMs: int) {
    Waiting(t) && nowMs - t.requestedAtMs > SNAPSHOT_TIMEOUT_MS
  }

  /** A result for the request in flight will be stale from now on. */
  function Abandon(t: Tracker): Tracker {
    Tracker(t.latestId + 1, 0)
  }

  predicate Stale(t: Tracker, id: nat) {
    id < t.latestId
  }

  function Answered(t: Tracker): Tracker {
    t.(requestedAtMs := 0)
  }

  /** The handler's request bookkeeping for all symbols. */
  class RequestDesk<D> {
    var trackers: seq<Tracker>

    constructor (symbols: nat)
      ensures trackers == seq(symbols, _ => Tracker(0, 0))
    {
      trackers := seq(symbols, _ => Tracker(0, 0));
    }

    method Request(worker: SnapshotWorker<D>, sym: nat, nowMs: int)
      requires sym < |trackers|
      modifies this, worker`nextId, worker.requests`items
      ensures worker.nextId == old(worker.nextId) + 1
      ensures trackers == old(trackers)[sym := Requested(worker.nextId, nowMs)]
      ensures worker.requests.items ==
              if worker.requests.closed then old(worker.requests.items)
              else PushBounded(old(worker.requests.items), Ticket(sym, worker.nextId), worker.requests.capacity)
    {
      var id := worker.Enqueue(sym);
      trackers := trackers[sym := Requested(id, nowMs)];
    }

    /** Give up on every request without an answer in time. */
    method Expire(nowMs: int) returns (expired: seq<nat>)
      modifies this
      ensures |trackers| == |old(trackers)|
      ensures forall s :: 0 <= s < |trackers| ==>
                trackers[s] == if TimedOut(old(trackers)[s], nowMs) then Abandon(old(trackers)[s]) else old(trackers)[s]
      ensures forall s :: 0 <= s < |trackers| ==> (s in expired <==> TimedOut(old(trackers)[s], nowMs))
    {
      expired := [];
      for i := 0 to |trackers|
        invariant |trackers| == |old(trackers)|
        invariant forall s :: i <= s < |trackers| ==> trackers[s] == old(trackers)[s]
        invariant forall s :: 0 <= s < i ==>
                    trackers[s] == if TimedOut(old(trackers)[s], nowMs) then Abandon(old(trackers)[s])
                                   else old(trackers)[s]
        invariant forall s :: 0 <= s < |trackers| ==> (s in expired <==> s < i && TimedOut(old(trackers)[s], nowMs))
      {
        if TimedOut(trackers[i], nowMs) {
          trackers := trackers[i := Abandon(trackers[i])];
          expired := expired + [i];
        }
      }
    }

    /** Reconnect: whatever is in flight belongs to the old connection. */
    method MarkStale()
      modifies this
      ensures |trackers| == |old(trackers)|
      ensures forall s :: 0 <= s < |trackers| ==>
                trackers[s] == if Waiting(old(trackers)[s]) then Abandon(old(trackers)[s]) else old(trackers)[s]
    {
      for i := 0 to |trackers|
        invariant |trackers| == |old(trackers)|
        invariant forall s :: i <= s < |trackers| ==> trackers[s] == old(trackers)[s]
        invariant forall s :: 0 <= s < i ==>
                    trackers[s] == if Waiting(old(trackers)[s]) then Abandon(old(trackers)[s]) else old(trackers)[s]
      {
        if Waiting(trackers[i]) {
          trackers := trackers[i := Abandon(trackers[i])];
        }
      }
    }

    /** Take the finished results and keep those that are not stale, in order. */
    method Collect(worker: SnapshotWorker<D>) returns (accepted: seq<Answer<D>>)
      requires forall a :: a in worker.results.items ==> a.ticket.sym < |trackers|
      modifies this, worker.results`items
      ensures worker.results.items == []
      ensures (trackers, accepted) == AcceptAll(old(trackers), old(worker.results.items))
    {
      var all := worker.results.Drain();
      accepted := [];
      for i := 0 to |all|
        invariant |trackers| == |old(trackers)| && worker.results.items == []
        invariant (trackers, accepted) == AcceptAll(old(trackers), all[..i])
      {
        assert all[..i + 1][..i] == all[..i];
        var t := all[i].ticket;
        if !Stale(trackers[t.sym], t.id) {
          trackers := trackers[t.sym := Answered(trackers[t.sym])];
          accepted := accepted + [all[i]];
        }
      }
      assert all[..|all|] == all;
    }
  }

  function AcceptAll<D>(trackers: seq<Tracker>, answers: seq<Answer<D>>): (r: (seq<Tracker>, seq<Answer<D>>))
    requires forall a :: a in answers ==> a.ticket.sym < |trackers|
    ensures |r.0| == |trackers|
    decreases |answers|
  {
    if answers == [] then (trackers, [])
    else
      var (ts, accepted) := AcceptAll(trackers, answers[..|answers| - 1]);
      var a := answers[|answers| - 1];
      if Stale(ts[a.ticket.sym], a.ticket.id) then (ts, accepted)
      else (ts[a.ticket.sym := Answered(ts[a.ticket.sym])], accepted + [a])
  }

  // ---------------------------------------------------------------- both threads as one state machine

  datatype Accepted = Accepted(ticket: Ticket, lastRequested: nat)

  /** The program's state, and below it what really happened: the last id each
      symbol was given and when, the results let through, and the ids given up on by
      a timeout or a reconnect. */
  datatype World = World(
    trackers: seq<Tracker>,
    nextId: nat,
    requests: seq<Ticket>,
    fetching: seq<Ticket>,
    results: seq<Ticket>,
    lastRequested: seq<nat>,
    askedAt: seq<int>,
    accepted: seq<Accepted>,
    abandoned: set<nat>)

  datatype Move =
    | RequestMove(sym: nat, nowMs: int)
    | ExpireMove(sym: nat, nowMs: int)
    | ReconnectMove(sym: nat)
    | TakeMove
    | DeliverMove
    | AcceptMove

  ghost function Start(symbols: nat): World {
    World(seq(symbols, _ => Tracker(0, 0)), 0, [], [], [], seq(symbols, _ => 0), seq(symbols, _ => 0), [], {})
  }

  /** Moves name known symbols, and the monotonic clock reads a positive time. */
  ghost predicate Allowed(w: World, m: Move) {
    match m
    case RequestMove(s, now) => KnownSymbol(w, s) && now > 0
    case ExpireMove(s, _) => KnownSymbol(w, s)
    case ReconnectMove(s) => KnownSymbol(w, s)
    case _ => true
  }

  ghost predicate KnownSymbol(w: World, s: nat) {
    s < |w.trackers| && s < |w.lastRequested| && s < |w.askedAt|
  }

  ghost function GiveUp(w: World, s: nat): World
    requires s < |w.trackers| && s < |w.lastRequested|
  {
    w.(trackers := w.trackers[s := Abandon(w.trackers[s])], abandoned := w.abandoned + {w.lastRequested[s]})
  }

  ghost function Next(w: World, m: Move): World
    requires Allowed(w, m)
  {
    match m
    case RequestMove(s, now) =>
      var id := w.nextId + 1;
      w.(nextId := id,
         trackers := w.trackers[s := Requested(id, now)],
         lastRequested := w.lastRequested[s := id], askedAt := w.askedAt[s := now],
         requests := PushBounded(w.requests, Ticket(s, id), QUEUE_CAPACITY))
    case ExpireMove(s, now) => if TimedOut(w.trackers[s], now) then GiveUp(w, s) else w
    case ReconnectMove(s) => if Waiting(w.trackers[s]) then GiveUp(w, s) else w
    case TakeMove =>
      if w.requests == [] || w.fetching != [] then w
      else w.(fetching := [w.requests[0]], requests := w.requests[1..])
    case DeliverMove =>
      if w.fetching == [] then w
      else w.(fetching := [], results := PushBounded(w.results, w.fetching[0], QUEUE_CAPACITY))
    case AcceptMove =>
      if w.results == [] then w
      else
        var t := w.results[0];
        var w' := w.(results := w.results[1..]);
        if t.sym >= |w.trackers| || t.sym >= |w.lastRequested| || Stale(w.trackers[t.sym], t.id) then w'
        else w'.(trackers := w.trackers[t.sym := Answered(w.trackers[t.sym])],
                 accepted := w.accepted + [Accepted(t, w.lastRequested[t.sym])])
  }

  /** Every request that can still produce a result. */
  ghost function Open(w: World): multiset<Ticket> {
    multiset(w.requests) + multiset(w.fetching) + multiset(w.results)
  }

  // ---------------------------------------------------------------- the invariant

  ghost function AcceptedIds(w: World): set<nat> {
    set k | 0 <= k < |w.accepted| :: w.accepted[k].ticket.id
  }

  /** The last request of the symbol was neither given up on nor answered. */
  ghost predicate Pending(w: World, s: nat)
    requires s < |w.lastRequested|
  {
    w.lastRequested[s] > 0 && w.lastRequested[s] !in w.abandoned && w.lastRequested[s] !in AcceptedIds(w)
  }

  /** The stale mark of a symbol is at its last request, or just past it when that
      request was given up on; and it is waited for exactly while it is pending. */
  ghost predicate TrackerOk(w: World, s: nat)
    requires s < |w.trackers| && s < |w.lastRequested| && s < |w.askedAt|
  {
    var t, last := w.trackers[s], w.lastRequested[s];
    && last <= w.nextId
    && (t.latestId == last || (t.latestId == last + 1 && !Waiting(t)))
    && (Waiting(t) <==> Pending(w, s))
    && (Waiting(t) ==> t.requestedAtMs == w.askedAt[s])
  }

  ghost predicate TicketOk(w: World, t: Ticket) {
    && t.sym < |w.trackers| && t.sym < |w.lastRequested|
    && 0 < t.id <= w.lastRequested[t.sym]
    && t.id !in AcceptedIds(w)
    && (t.id in w.abandoned ==> Stale(w.trackers[t.sym], t.id))
    && (forall s :: 0 <= s < |w.lastRequested| && w.lastRequested[s] == t.id ==> s == t.sym)
  }

  ghost predicate TrackersOk(w: World) {
    && |w.trackers| == |w.lastRequested| == |w.askedAt|
    && (forall s :: 0 <= s < |w.trackers| ==> TrackerOk(w, s))
    && (forall s, s' :: 0 <= s < s' < |w.lastRequested| && w.lastRequested[s] > 0 ==>
          w.lastRequested[s] != w.lastRequested[s'])
  }

  ghost predicate OpenOk(w: World) {
    && (forall t :: t in Open(w) ==> Open(w)[t] == 1 && TicketOk(w, t))
    && (forall t, t' :: t in Open(w) && t' in Open(w) && t.id == t'.id ==> t == t')
  }

  /** What the program promises about the results it let through: each answers
      what was then the symbol's last request, none twice, and none that had timed
      out or was in flight at a reconnect. */
  ghost predicate Safe(w: World) {
    && (forall k :: 0 <= k < |w.accepted| ==>
          && w.accepted[k].ticket.id == w.accepted[k].lastRequested
          && w.accepted[k].ticket.id !in w.abandoned)
    && (forall j, k :: 0 <= j < k < |w.accepted| ==> w.accepted[j].ticket.id != w.accepted[k].ticket.id)
  }

  ghost predicate IdsOk(w: World) {
    && (forall a :: a in AcceptedIds(w) ==> a <= w.nextId)
    && (forall a :: a in w.abandoned ==> a <= w.nextId)
  }

  ghost predicate Inv(w: World) {
    TrackersOk(w) && OpenOk(w) && IdsOk(w) && Safe(w)
  }

  // ---------------------------------------------------------------- the moves keep it

  lemma PushKeeps(q: seq<Ticket>, x: Ticket, capacity: nat)
    ensures multiset(PushBounded(q, x, capacity)) <= multiset(q) + multiset{x}
  {
    if q != [] {
      assert q == [q[0]] + q[1..];
    }
  }

  /** The next id is larger than every id handed out so far. */
  lemma NextIdIsNew(w: World)
    requires Inv(w)
    ensures forall s :: 0 <= s < |w.lastRequested| ==> w.lastRequested[s] <= w.nextId
    ensures forall t :: t in Open(w) ==> t.id <= w.nextId
  {
    forall s | 0 <= s < |w.lastRequested| ensures w.lastRequested[s] <= w.nextId {
      assert TrackerOk(w, s);
    }
    forall t | t in Open(w) ensures t.id <= w.nextId {
      assert TicketOk(w, t);
    }
  }

  lemma RequestKeepsOpen(w: World, s: nat, nowMs: int)
    requires Inv(w) && Allowed(w, RequestMove(s, nowMs))
    ensures OpenOk(Next(w, RequestMove(s, nowMs)))
  {
    var w' := Next(w, RequestMove(s, nowMs));
    var x := Ticket(s, w'.nextId);
    NextIdIsNew(w);
    PushKeeps(w.requests, x, QUEUE_CAPACITY);
    assert Open(w') <= Open(w) + multiset{x};
    assert AcceptedIds(w') == AcceptedIds(w);
    assert x !in Open(w);
    forall t | t in Open(w') ensures Open(w')[t] == 1 && TicketOk(w', t) {
      if t != x {
        assert t in Open(w);
        assert TicketOk(w, t);
      }
    }
  }

  lemma RequestKeepsInv(w: World, s: nat, nowMs: int)
    requires Inv(w) && Allowed(w, RequestMove(s, nowMs))
    ensures Inv(Next(w, RequestMove(s, nowMs)))
  {
    var w' := Next(w, RequestMove(s, nowMs));
    NextIdIsNew(w);
    RequestKeepsOpen(w, s, nowMs);
    assert AcceptedIds(w') == AcceptedIds(w);
    forall r | 0 <= r < |w'.trackers| ensures TrackerOk(w', r) {
      assert TrackerOk(w, r);
    }
  }

  lemma GiveUpKeepsInv(w: World, s: nat)
    requires Inv(w) && s < |w.trackers| && Waiting(w.trackers[s])
    ensures Inv(GiveUp(w, s))
  {
    var w' := GiveUp(w, s);
    assert TrackerOk(w, s);
    assert Open(w') == Open(w) && AcceptedIds(w') == AcceptedIds(w);
    forall t | t in Open(w') ensures Open(w')[t] == 1 && TicketOk(w', t) {
      assert TicketOk(w, t);
    }
    forall r | 0 <= r < |w'.trackers| ensures TrackerOk(w', r) {
      assert TrackerOk(w, r);
    }
  }

  /** Passing requests along the queues may lose some and changes nothing else. */
  lemma FewerOpenKeepsInv(w: World, w': World)
    requires Inv(w) && Open(w') <= Open(w)
    requires w' == w.(requests := w'.requests, fetching := w'.fetching, results := w'.results)
    ensures Inv(w')
  {
    assert AcceptedIds(w') == AcceptedIds(w);
    forall t | t in Open(w') ensures t in Open(w) && Open(w')[t] == 1 && TicketOk(w', t) {
      assert TicketOk(w, t);
    }
    forall r | 0 <= r < |w'.trackers| ensures TrackerOk(w', r) {
      assert TrackerOk(w, r);
    }
  }

  /** A result that is not stale answers its symbol's last request. */
  lemma FreshIsLatest(w: World, t: Ticket)
    requires Inv(w) && t in Open(w) && !Stale(w.trackers[t.sym], t.id)
    ensures t.id == w.lastRequested[t.sym] && t.id !in w.abandoned && t.id !in AcceptedIds(w)
  {
    assert TicketOk(w, t) && TrackerOk(w, t.sym);
  }

  lemma AcceptKeepsInv(w: World, t: Ticket)
    requires Inv(w) && w.results != [] && t == w.results[0] && t in Open(w)
    requires TicketOk(w, t) && !Stale(w.trackers[t.sym], t.id)
    ensures Inv(Next(w, AcceptMove))
  {
    AcceptKeepsOpen(w, t);
    AcceptKeepsTrackers(w, t);
    FreshIsLatest(w, t);
    NextIdIsNew(w);
    AcceptKeepsSafe(w, Next(w, AcceptMove), t);
  }

  lemma AcceptKeepsSafe(w: World, w': World, t: Ticket)
    requires Safe(w) && IdsOk(w)
    requires t.id !in w.abandoned && t.id !in AcceptedIds(w) && t.id <= w.nextId
    requires w'.accepted == w.accepted + [Accepted(t, t.id)]
    requires w'.abandoned == w.abandoned && w'.nextId == w.nextId
    ensures Safe(w') && IdsOk(w')
  {
    AcceptedGrows(w, w', t);
    forall j | 0 <= j < |w.accepted| ensures w.accepted[j].ticket.id != t.id {
      assert w.accepted[j].ticket.id in AcceptedIds(w);
    }
  }

  lemma AcceptKeepsOpen(w: World, t: Ticket)
    requires Inv(w) && w.results != [] && t == w.results[0] && t in Open(w)
    requires TicketOk(w, t) && !Stale(w.trackers[t.sym], t.id)
    ensures OpenOk(Next(w, AcceptMove))
  {
    var w' := Next(w, AcceptMove);
    FreshIsLatest(w, t);
    AcceptedGrows(w, w', t);
    assert w.results == [t] + w.results[1..];
    assert Open(w') == Open(w) - multiset{t};
    assert Open(w)[t] == 1;
    forall r | r in Open(w') ensures Open(w')[r] == 1 && TicketOk(w', r) {
      assert r in Open(w) && r != t;
      assert TicketOk(w, r);
    }
  }

  lemma AcceptKeepsTrackers(w: World, t: Ticket)
    requires Inv(w) && w.results != [] && t == w.results[0] && t in Open(w)
    requires TicketOk(w, t) && !Stale(w.trackers[t.sym], t.id)
    ensures TrackersOk(Next(w, AcceptMove))
  {
    var w' := Next(w, AcceptMove);
    FreshIsLatest(w, t);
    AcceptedGrows(w, w', t);
    forall r | 0 <= r < |w'.trackers| ensures TrackerOk(w', r) {
      assert TrackerOk(w, r);
    }
  }

  lemma AcceptedGrows(w: World, w': World, t: Ticket)
    requires w'.accepted == w.accepted + [Accepted(t, t.id)]
    ensures AcceptedIds(w') == AcceptedIds(w) + {t.id}
  {
    assert forall k :: 0 <= k < |w.accepted| ==> w'.accepted[k] == w.accepted[k];
    assert w'.accepted[|w.accepted|].ticket.id == t.id;
  }

  lemma ResultKeepsInv(w: World)
    requires Inv(w)
    ensures Inv(Next(w, AcceptMove))
  {
    if w.results != [] {
      var t := w.results[0];
      assert w.results == [t] + w.results[1..];
      assert t in Open(w);
      assert TicketOk(w, t);
      if Stale(w.trackers[t.sym], t.id) {
        FewerOpenKeepsInv(w, Next(w, AcceptMove));
      } else {
        AcceptKeepsInv(w, t);
      }
    }
  }

  lemma TakeKeepsInv(w: World)
    requires Inv(w)
    ensures Inv(Next(w, TakeMove))
  {
    if w.requests != [] {
      assert w.requests == [w.requests[0]] + w.requests[1..];
      FewerOpenKeepsInv(w, Next(w, TakeMove));
    }
  }

  lemma DeliverKeepsInv(w: World)
    requires Inv(w)
    ensures Inv(Next(w, DeliverMove))
  {
    if w.fetching != [] {
      assert w.fetching == [w.fetching[0]] + w.fetching[1..];
      PushKeeps(w.results, w.fetching[0], QUEUE_CAPACITY);
      FewerOpenKeepsInv(w, Next(w, DeliverMove));
    }
  }

  lemma MoveKeepsInv(w: World, m: Move)
    requires Inv(w) && Allowed(w, m)
    ensures Inv(Next(w, m))
  {
    match m {
      case RequestMove(s, now) => RequestKeepsInv(w, s, now);
      case ExpireMove(s, now) => if TimedOut(w.trackers[s], now) { GiveUpKeepsInv(w, s); }
      case ReconnectMove(s) => if Waiting(w.trackers[s]) { GiveUpKeepsInv(w, s); }
      case AcceptMove => ResultKeepsInv(w);
      case TakeMove => TakeKeepsInv(w);
      case DeliverMove => DeliverKeepsInv(w);
    }
  }

  // ---------------------------------------------------------------- the program's loop is these moves

  ghost function Accepts(w: World, n: nat): World {
    if n == 0 then w else Next(Accepts(w, n - 1), AcceptMove)
  }

  /** Collecting a drained queue is accepting its results one after the other. */
  lemma {:induction false} CollectIsAcceptMoves<D>(w: World, answers: seq<Answer<D>>, n: nat)
    requires n <= |answers| == |w.results| && |w.trackers| == |w.lastRequested|
    requires forall i :: 0 <= i < |answers| ==>
               w.results[i] == answers[i].ticket && answers[i].ticket.sym < |w.trackers|
    ensures var (ts, accepted) := AcceptAll(w.trackers, answers[..n]);
      var w' := Accepts(w, n);
      && w'.trackers == ts && w'.results == w.results[n..] && w'.lastRequested == w.lastRequested
      && |w'.accepted| == |w.accepted| + |accepted|
      && (forall k :: 0 <= k < |w.accepted| ==> w'.accepted[k] == w.accepted[k])
      && (forall k :: 0 <= k < |accepted| ==> w'.accepted[|w.accepted| + k].ticket == accepted[k].ticket)
  {
    if n > 0 {
      CollectIsAcceptMoves(w, answers, n - 1);
      assert answers[..n][..n - 1] == answers[..n - 1];
      assert w.results[n - 1..][1..] == w.results[n..];
    }
  }

  // ---------------------------------------------------------------- all runs

  /** The state after some moves, if each was allowed when it was made. */
  ghost function After(symbols: nat, moves: seq<Move>): Option<World>
    decreases |moves|
  {
    if moves == [] then Some(Start(symbols))
    else match After(symbols, moves[..|moves| - 1])
      case None => None
      case Some(w) => if Allowed(w, moves[|moves| - 1]) then Some(Next(w, moves[|moves| - 1])) else None
  }

  /** Main result: over every interleaving of the two threads, with drop-oldest on
      both queues, only the answer to a symbol's latest live request is let
      through, and at most once. */
  lemma {:induction false} EveryInterleavingIsSafe(symbols: nat, moves: seq<Move>)
    ensures var r := After(symbols, moves); r.Some? ==> Inv(r.value) && Safe(r.value)
    decreases |moves|
  {
    if moves != [] {
      EveryInterleavingIsSafe(symbols, moves[..|moves| - 1]);
      var before := After(symbols, moves[..|moves| - 1]);
      if before.Some? && Allowed(before.value, moves[|moves| - 1]) {
        MoveKeepsInv(before.value, moves[|moves| - 1]);
      }
    }
  }
}
