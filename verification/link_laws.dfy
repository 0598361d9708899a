/** What single steps of the resend protocol do for the caller, told from rows, wire and
    log: when connecting ends, what is counted, and what an acknowledged event means.
  */
module LinkLaws {
  import opened Tickerplants
  import opened TradeGaps
  import opened TpPublishers
  import opened ResendSteps
  import opened ResendRuns

  // ---------------------------------------------------------------- a rejected registration is final

  ghost predicate Stopped(v: LinkView) {
    !v.st.running && !v.st.connected
  }

  predicate GoesOn(a: Attempt) {
    a.Refused? || a.Waiting? || a.RegistrationLost?
  }

  /** Nothing is tried after a rejection. */
  lemma {:induction false} RejectionEndsConnecting(v: LinkView, next: int, attempts: seq<Attempt>, k: nat)
    requires !v.st.connected && k < |attempts| && attempts[k].RegistrationRejected?
    requires forall i :: 0 <= i < k ==> GoesOn(attempts[i])
    ensures Stopped(Connect(v, next, attempts))
    ensures Connect(v, next, attempts) == Connect(v, next, attempts[..k])
    decreases |attempts|
  {
    if v.st.running && k > 0 {
      assert attempts[1..][..k - 1] == attempts[..k][1..];
      RejectionEndsConnecting(Try(v, next, attempts[0]).0, next, attempts[1..], k - 1);
    }
  }

  lemma {:induction false} ArrivingMovesRows(tp: TpView, n: nat)
    ensures Arrive(tp, n).log + Arrive(tp, n).wire == tp.log + tp.wire
    decreases n
  {
    if n > 0 && tp.wire != [] {
      assert tp.wire == [tp.wire[0]] + tp.wire[1..];
      ArrivingMovesRows(LogRow(tp.(wire := tp.wire[1..]), tp.wire[0]), n - 1);
    }
  }

  lemma StoppedStep(capacity: nat, r: LinkRun, op: LinkOp)
    requires Stopped(r.v)
    ensures var w := Step(capacity, r, op).v;
      w.st == r.v.st && w.story == r.v.story && w.tp.log + w.tp.wire == r.v.tp.log + r.v.tp.wire
  {
    if op.TpOp? && op.step.Arrived? { ArrivingMovesRows(r.v.tp, op.step.n); }
  }

  /** The run from r on. */
  ghost function Continue(capacity: nat, r: LinkRun, ops: seq<LinkOp>): LinkRun
    decreases |ops|
  {
    if ops == [] then r else Step(capacity, Continue(capacity, r, ops[..|ops| - 1]), ops[|ops| - 1])
  }

  /** Main result: a handler that has stopped, after a rejected registration or at
      shutdown, never registers or sends another row, whatever it is given to publish. */
  lemma {:induction false} StoppedForGood(capacity: nat, r: LinkRun, ops: seq<LinkOp>)
    requires Stopped(r.v)
    ensures var w := Continue(capacity, r, ops).v;
      w.st == r.v.st && w.story == r.v.story && w.tp.log + w.tp.wire == r.v.tp.log + r.v.tp.wire
    decreases |ops|
  {
    if ops != [] {
      StoppedForGood(capacity, r, ops[..|ops| - 1]);
      StoppedStep(capacity, Continue(capacity, r, ops[..|ops| - 1]), ops[|ops| - 1]);
    }
  }

  // ---------------------------------------------------------------- connecting goes on until it works

  lemma {:induction false} ConnectingGoesOn(capacity: nat, v: LinkView, attempts: seq<Attempt>, k: nat,
                                            published: seq<TpRow>)
    requires capacity > 0 && LinkOk(capacity, v, published) && !v.st.connected && v.st.running
    requires k < |attempts| && attempts[k].Registered? && attempts[k].sends >= |published|
    requires forall i :: 0 <= i < k ==> GoesOn(attempts[i])
    ensures Connect(v, |published| + 1, attempts).st.connected
    decreases |attempts|
  {
    TryKeeps(capacity, v, attempts[0], published);
    if k > 0 {
      ConnectingGoesOn(capacity, Try(v, |published| + 1, attempts[0]).0, attempts[1..], k - 1, published);
    } else {
      RegisteredKeeps(capacity, v, attempts[0].fate, attempts[0].sends, published);
    }
  }

  /** Main result: refused connections, waits and lost registrations do not end it. A
      running handler that has lost its connection is connected again with the first
      registration that is answered and whose connection lasts for the rows due. */
  lemma ConnectsAtLast(capacity: nat, far: TpView, ops: seq<LinkOp>, attempts: seq<Attempt>, k: nat)
    requires capacity > 0 && BeforeSession(far)
    requires var r := Run(capacity, far, ops);
      && !r.v.st.connected && r.v.st.running
      && k < |attempts| && attempts[k].Registered? && attempts[k].sends >= |r.published|
    requires forall i :: 0 <= i < k ==> GoesOn(attempts[i])
    ensures Run(capacity, far, ops + [ConnectOp(attempts)]).v.st.connected
  {
    var r := Run(capacity, far, ops);
    RunKeeps(capacity, far, ops);
    RunAppend(capacity, far, ops, ConnectOp(attempts));
    ConnectingGoesOn(capacity, r.v, attempts, k, r.published);
  }

  // ---------------------------------------------------------------- what is counted

  /** A resend counts the rows it has put on the wire, once all of them are there. */
  lemma ResendCounts(v: LinkView, reply: int, sends: nat)
    ensures var w := OnReply(v, reply, sends).0;
      && |w.tp.wire| >= |v.tp.wire| && w.tp.wire[..|v.tp.wire|] == v.tp.wire
      && w.st.rowsResent == v.st.rowsResent + (if w.st.connected then |w.tp.wire| - |v.tp.wire| else 0)
      && w.st.lastReply == reply && w.st.reconnects == v.st.reconnects
  {
  }

  lemma {:induction false} ConnectingDropsNothing(v: LinkView, next: int, attempts: seq<Attempt>)
    ensures Connect(v, next, attempts).st.reconnects == v.st.reconnects
    decreases |attempts|
  {
    if v.st.running && attempts != [] {
      var (w, over) := Try(v, next, attempts[0]);
      if !over { ConnectingDropsNothing(w, next, attempts[1..]); }
    }
  }

  /** Each connection found lost is counted once: by the send of a row, or by a call. */
  lemma LostConnectionsAreCounted(capacity: nat, r: LinkRun, op: LinkOp)
    ensures var lost := r.v.st.connected
                        && ((op.PublishOp? && !op.sent) || (op.CallOp? && Lost(op.answer)));
      Step(capacity, r, op).v.st.reconnects == r.v.st.reconnects + if lost then 1 else 0
  {
    match op {
      case ConnectOp(attempts) => ConnectingDropsNothing(r.v, |r.published| + 1, attempts);
      case PublishOp(data, sent, attempts) =>
        var w := r.v.(ring := Pushed(capacity, r.v.ring, NextRow(r, data)));
        ConnectingDropsNothing(if r.v.st.connected then DropConnection(w) else w, |r.published| + 2, attempts);
      case _ =>
    }
  }

  // ---------------------------------------------------------------- an event is read after the rows before it

  lemma {:induction false} AllArrives(tp: TpView, n: nat)
    requires n >= |tp.wire|
    ensures Arrive(tp, n).log == tp.log + tp.wire && Arrive(tp, n).wire == []
    decreases n
  {
    if n > 0 && tp.wire != [] {
      assert tp.wire == [tp.wire[0]] + tp.wire[1..];
      AllArrives(LogRow(tp.(wire := tp.wire[1..]), tp.wire[0]), n - 1);
    }
  }

  /** Main result: whatever is answered to a call, the tickerplant has logged every row sent
      before it, unless it never saw the call; a logged event leaves a fresh session
      file; and the connection is dropped exactly when no answer came. Without a
      connection nothing happens. */
  lemma CallComesAfterRows(v: LinkView, isEvent: bool, answer: EventReply)
    ensures var w := Call(v, isEvent, answer);
      if !v.st.connected then w == v
      else
        && (answer.LostBeforeLogging? ==> w.tp == v.tp)
        && (!answer.LostBeforeLogging? ==> w.tp.wire == [] && w.tp.log == v.tp.log + v.tp.wire)
        && (w.st.connected <==> answer.Acked? || answer.Rejected?)
        && (isEvent && (answer.Acked? || answer.LostAfterLogging?) ==> w.tp.file == w.tp.mem)
        && (!isEvent || answer.Rejected? || answer.LostBeforeLogging? ==> w.tp.file == v.tp.file)
  {
    AllArrives(v.tp, |v.tp.wire|);
    ArrivalSavesNothing(v.tp, |v.tp.wire|);
  }

  lemma {:induction false} ArrivalSavesNothing(tp: TpView, n: nat)
    ensures Arrive(tp, n).file == tp.file
    decreases n
  {
    if n > 0 && tp.wire != [] { ArrivalSavesNothing(LogRow(tp.(wire := tp.wire[1..]), tp.wire[0]), n - 1); }
  }

  // ---------------------------------------------------------------- a running tickerplant's own steps

  /** A save and a midnight do the same to a tickerplant that is heard of and to one that
      is not. */
  lemma StepsAreFates(tp: TpView)
    ensures CountsOf(Live(tp, Saved)) == AfterFate(CountsOf(tp), PastSave(StillUp))
    ensures CountsOf(Live(tp, Midnight)) == AfterFate(CountsOf(tp), PastMidnight(StillUp))
    ensures Live(tp, Midnight).today == NO_COUNT && Live(tp, Saved).today == tp.today
  {
    assert AfterFate(CountsOf(tp), StillUp) == CountsOf(tp);
  }
}
