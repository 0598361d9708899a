/** The handler's side of the resend protocol (cpp/include/tp_publisher.hpp).

    What the network and the tickerplant do is an argument: how much of the wire still
    arrives, which attempt to connect fails and where, what the tickerplant has gone
    through meanwhile, and how many rows can be sent again before the connection dies.
  */
module TpPublishers {
  import opened Tickerplants
  import opened TradeGaps

  /** One attempt to connect and register, or the wait after it, in which rows of the old
      connection may still arrive. `RegistrationLost`: the tickerplant got a registration
      whose reply was lost. `sends`: rows that can be sent again before the connection
      dies. */
  datatype Attempt =
    | Refused
    | Waiting(step: TpStep)
    | RegistrationLost(fate: Fate)
    | RegistrationRejected
    | Registered(fate: Fate, sends: nat)

  datatype LinkStatus = LinkStatus(
    running: bool, connected: bool, reconnects: nat, rowsResent: nat, rowsUnresendable: int, lastReply: int)

  /** A registration that was answered: rows published so far, the number of the last
      one in the tickerplant's logs, the answer, and whether the handler heard it. */
  datatype Registration = Registration(published: int, logged: int, reply: int, heard: bool)

  datatype LinkView = LinkView(ring: seq<TpRow>, st: LinkStatus, tp: TpView, story: seq<Registration>)

  const STATUS_AT_START := LinkStatus(true, false, 0, 0, 0, -1)

  // ---------------------------------------------------------------- the ring

  ghost function Pushed(capacity: nat, rows: seq<TpRow>, row: TpRow): seq<TpRow> {
    (if |rows| >= capacity && rows != [] then rows[1..] else rows) + [row]
  }

  function After(rows: seq<TpRow>, seqNo: int): seq<TpRow> {
    if rows == [] then [] else (if rows[0].fhSeqNo > seqNo then [rows[0]] else []) + After(rows[1..], seqNo)
  }

  /** How many rows after `seqNo` the ring has dropped. */
  function MissingAfter(rows: seq<TpRow>, seqNo: int): int {
    if rows != [] && rows[0].fhSeqNo > seqNo + 1 then rows[0].fhSeqNo - seqNo - 1 else 0
  }

  lemma {:induction false} AfterSplits(a: seq<TpRow>, b: seq<TpRow>, seqNo: int)
    ensures After(a + b, seqNo) == After(a, seqNo) + After(b, seqNo)
  {
    if a == [] {
      assert a + b == b;
    } else {
      assert (a + b)[1..] == a[1..] + b;
      AfterSplits(a[1..], b, seqNo);
    }
  }

  class ResendRing {
    const capacity: nat
    var rows: seq<TpRow>

    constructor (capacity: nat)
      ensures rows == [] && this.capacity == if capacity == 0 then 1 else capacity
    {
      this.capacity := if capacity == 0 then 1 else capacity;
      rows := [];
    }

    method Push(row: TpRow)
      modifies this
      ensures rows == Pushed(capacity, old(rows), row)
    {
      if |rows| >= capacity && rows != [] { rows := rows[1..]; }
      rows := rows + [row];
    }

    function NewestSeq(): int
      reads this
    {
      if rows == [] then 0 else rows[|rows| - 1].fhSeqNo
    }
  }

  // ---------------------------------------------------------------- what the publisher does

  ghost function Newest(rows: seq<TpRow>): int {
    if rows == [] then 0 else rows[|rows| - 1].fhSeqNo
  }

  ghost function Resend(v: LinkView, lastLogged: int, sends: nat): (LinkView, bool) {
    if lastLogged < 0 || v.ring == [] || Newest(v.ring) <= lastLogged then (v, true)
    else
      var rows := After(v.ring, lastLogged);
      var ok := |rows| <= sends;
      (v.(st := v.st.(rowsUnresendable := v.st.rowsUnresendable + MissingAfter(v.ring, lastLogged),
                      rowsResent := v.st.rowsResent + if ok then |rows| else 0),
          tp := v.tp.(wire := v.tp.wire + if ok then rows else rows[..sends])), ok)
  }

  ghost function OnReply(v: LinkView, reply: int, sends: nat): (LinkView, bool) {
    var (w, ok) := Resend(v.(st := v.st.(lastReply := reply)), reply, sends);
    (w.(st := w.st.(connected := ok)), ok)
  }

  /** The tickerplant gets a registration and answers it. */
  ghost function Answered(v: LinkView, next: int, fate: Fate, heard: bool): (LinkView, int) {
    var (tp, reply) := Register(v.tp, next, fate);
    (v.(tp := tp, story := v.story + [Registration(next - 1, LastLogged(v.tp.log), reply, heard)]), reply)
  }

  /** The second component says whether connecting is over. */
  ghost function Try(v: LinkView, next: int, a: Attempt): (LinkView, bool) {
    match a
    case Refused => (v, false)
    case RegistrationRejected => (v.(st := v.st.(running := false)), true)
    case Waiting(step) => (v.(tp := Live(v.tp, step)), false)
    case RegistrationLost(fate) => (Answered(v, next, fate, false).0, false)
    case Registered(fate, sends) =>
      var (w, reply) := Answered(v, next, fate, true);
      OnReply(w, reply, sends)
  }

  /** Attempts until one works; when they end without, shutdown was requested. */
  ghost function Connect(v: LinkView, next: int, attempts: seq<Attempt>): LinkView
    decreases |attempts|
  {
    if !v.st.running then v
    else if attempts == [] then v.(st := v.st.(running := false))
    else
      var (w, over) := Try(v, next, attempts[0]);
      if over then w else Connect(w, next, attempts[1..])
  }

  ghost function DropConnection(v: LinkView): LinkView {
    v.(st := v.st.(connected := false, reconnects := v.st.reconnects + 1))
  }

  ghost function Publish(capacity: nat, v: LinkView, row: TpRow, sent: bool, attempts: seq<Attempt>): LinkView {
    var w := v.(ring := Pushed(capacity, v.ring, row));
    if v.st.connected && sent then w.(tp := w.tp.(wire := w.tp.wire + [row]))
    else Connect(if v.st.connected then DropConnection(w) else w, row.fhSeqNo + 1, attempts)
  }

  /** A synchronous call, of an event row or of a question: the tickerplant reads it after
      everything sent before it, and saves its session file after an event. */
  ghost function Call(v: LinkView, isEvent: bool, answer: EventReply): LinkView {
    if !v.st.connected then v
    else
      var read := if answer.LostBeforeLogging? then v.tp else Arrive(v.tp, |v.tp.wire|);
      var w := v.(tp := if isEvent && Logged(answer) then Save(read) else read);
      if Lost(answer) then DropConnection(w) else w
  }

  predicate Logged(answer: EventReply) {
    answer.Acked? || answer.LostAfterLogging?
  }

  class TpPublisher {
    const ring: ResendRing
    const tp: Tickerplant
    var st: LinkStatus
    ghost var story: seq<Registration>

    ghost function View(): LinkView
      reads this, ring, tp
    {
      LinkView(ring.rows, st, tp.View(), story)
    }

    constructor (ringSize: nat, tp: Tickerplant)
      ensures View() == LinkView([], STATUS_AT_START, tp.View(), []) && this.tp == tp
      ensures ring.capacity == if ringSize == 0 then 1 else ringSize
      ensures fresh(ring)
    {
      ring := new ResendRing(ringSize);
      this.tp := tp;
      st, story := STATUS_AT_START, [];
    }

    /** The rows after `lastLogged`, oldest first, until a send fails. */
    method SendAfter(rows: seq<TpRow>, lastLogged: int, sends: nat) returns (n: nat, ok: bool)
      modifies tp`wire
      ensures var due := After(rows, lastLogged);
        && ok == (|due| <= sends) && n == (if ok then |due| else sends)
        && tp.wire == old(tp.wire) + due[..n]
    {
      n, ok := 0, true;
      var i := 0;
      while i < |rows|
        invariant 0 <= i <= |rows| && n == |After(rows[..i], lastLogged)| <= sends
        invariant tp.wire == old(tp.wire) + After(rows[..i], lastLogged)
      {
        assert rows == rows[..i] + rows[i..] && rows[..i + 1] == rows[..i] + [rows[i]];
        AfterSplits(rows[..i], rows[i..], lastLogged);
        AfterSplits(rows[..i], [rows[i]], lastLogged);
        if rows[i].fhSeqNo > lastLogged {
          if n == sends { return n, false; }
          tp.wire := tp.wire + [rows[i]];
          n := n + 1;
        }
        i := i + 1;
      }
      assert rows[..i] == rows;
    }

    /** Send again every row of the ring that the tickerplant has not logged. */
    method ResendAfter(lastLogged: int, sends: nat) returns (ok: bool)
      modifies this`st, tp`wire
      ensures (View(), ok) == Resend(old(View()), lastLogged, sends)
    {
      if lastLogged < 0 || ring.rows == [] || ring.NewestSeq() <= lastLogged { return true; }
      var gone := MissingAfter(ring.rows, lastLogged);
      if gone > 0 { st := st.(rowsUnresendable := st.rowsUnresendable + gone); }
      var n;
      n, ok := SendAfter(ring.rows, lastLogged, sends);
      assert After(ring.rows, lastLogged)[..|After(ring.rows, lastLogged)|] == After(ring.rows, lastLogged);
      if ok { st := st.(rowsResent := st.rowsResent + n); }
    }

    method TryToConnect(next: int, a: Attempt) returns (over: bool)
      modifies this, tp
      ensures (View(), over) == Try(old(View()), next, a)
    {
      over := false;
      match a {
        case Refused =>
        case RegistrationRejected =>
          st := st.(running := false);
          over := true;
        case Waiting(step) => tp.RunStep(step);
        case RegistrationLost(fate) =>
          var unheard := RegisterSession(next, fate, false);
        case Registered(fate, sends) =>
          var reply := RegisterSession(next, fate, true);
          st := st.(lastReply := reply);
          over := ResendAfter(reply, sends);
          st := st.(connected := over);
      }
    }

    method RegisterSession(next: int, fate: Fate, ghost heard: bool) returns (reply: int)
      modifies this`story, tp
      ensures (View(), reply) == Answered(old(View()), next, fate, heard)
    {
      ghost var logged := LastLogged(tp.log);
      reply := tp.RegisterSession(next, fate);
      story := story + [Registration(next - 1, logged, reply, heard)];
    }

    method ConnectAndRegister(next: int, attempts: seq<Attempt>) returns (ok: bool)
      requires !st.connected
      modifies this, tp
      ensures View() == Connect(old(View()), next, attempts) && ok == st.connected
    {
      var i := 0;
      while st.running && i < |attempts|
        invariant 0 <= i <= |attempts| && !st.connected
        invariant Connect(View(), next, attempts[i..]) == Connect(old(View()), next, attempts)
      {
        var over := TryToConnect(next, attempts[i]);
        if over { return st.connected; }
        assert attempts[i..][1..] == attempts[i + 1..];
        i := i + 1;
      }
      st := st.(running := false);
      return false;
    }

    /** Publish a row; false only at shutdown or after a rejected registration. */
    method PublishRow(row: TpRow, sent: bool, attempts: seq<Attempt>) returns (ok: bool)
      modifies this, ring, tp
      ensures View() == Publish(ring.capacity, old(View()), row, sent, attempts) && ok == st.connected
    {
      ring.Push(row);
      if st.connected {
        if sent {
          tp.wire := tp.wire + [row];
          return true;
        }
        st := st.(connected := false, reconnects := st.reconnects + 1);
      }
      ok := ConnectAndRegister(row.fhSeqNo + 1, attempts);
    }

    /** An event row, or a question about the trade state. */
    method CallTickerplant(isEvent: bool, answer: EventReply) returns (result: EventReply)
      modifies this, tp
      ensures View() == Call(old(View()), isEvent, answer)
      ensures result == if old(st.connected) then answer else LostBeforeLogging
    {
      if !st.connected { return LostBeforeLogging; }
      if !answer.LostBeforeLogging? { tp.Receive(|tp.wire|); }
      if isEvent && Logged(answer) { tp.SaveSession(); }
      if Lost(answer) { st := st.(connected := false, reconnects := st.reconnects + 1); }
      result := answer;
    }
  }
}
