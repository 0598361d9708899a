/** What the resend protocol promises over whole runs of one session, against any
    tickerplant: what is counted, when the log is in order, and exactly when it is the
    beginning of what was published.
  */
module ResendRuns {
  import opened Options
  import opened Tickerplants
  import opened TradeGaps
  import opened TpPublishers
  import opened ResendSteps

  /** The handler numbers the rows it publishes; `data` is the next row. */
  datatype LinkOp =
    | ConnectOp(attempts: seq<Attempt>)
    | PublishOp(data: string, sent: bool, attempts: seq<Attempt>)
    | CallOp(isEvent: bool, answer: EventReply)
    | TpOp(step: TpStep)

  datatype LinkRun = LinkRun(v: LinkView, published: seq<TpRow>)

  ghost function NextRow(r: LinkRun, data: string): TpRow {
    TpRow(|r.published| + 1, data)
  }

  ghost function Step(capacity: nat, r: LinkRun, op: LinkOp): LinkRun {
    match op
    case ConnectOp(attempts) =>
      if r.v.st.connected then r else r.(v := Connect(r.v, |r.published| + 1, attempts))
    case PublishOp(data, sent, attempts) =>
      LinkRun(Publish(capacity, r.v, NextRow(r, data), sent, attempts), r.published + [NextRow(r, data)])
    case CallOp(isEvent, answer) => r.(v := Call(r.v, isEvent, answer))
    case TpOp(step) => r.(v := r.v.(tp := Live(r.v.tp, step)))
  }

  /** A run against a tickerplant that has served earlier sessions, or none. */
  ghost function Run(capacity: nat, far: TpView, ops: seq<LinkOp>): LinkRun
    decreases |ops|
  {
    if ops == [] then LinkRun(LinkView([], STATUS_AT_START, far, []), [])
    else Step(capacity, Run(capacity, far, ops[..|ops| - 1]), ops[|ops| - 1])
  }

  ghost predicate NotOurs(c: Count) {
    !c.owner.Ours? && NotNegative(c)
  }

  ghost predicate BeforeSession(far: TpView) {
    && far == TpView([], [], far.mem, far.file, far.today, 0, 0, 0)
    && NotOurs(far.mem) && NotOurs(far.file) && NotOurs(far.today)
  }

  // ---------------------------------------------------------------- every step keeps the invariant

  lemma PublishSentKeeps(capacity: nat, v: LinkView, row: TpRow, published: seq<TpRow>)
    requires capacity > 0 && LinkOk(capacity, v, published) && row.fhSeqNo == |published| + 1 && v.st.connected
    ensures LinkOk(capacity, v.(ring := Pushed(capacity, v.ring, row), tp := v.tp.(wire := v.tp.wire + [row])),
                   published + [row])
  {
    PushKeeps(capacity, v.ring, row, published);
    SendKeeps(v.tp, row, published);
  }

  lemma RowIsInRing(capacity: nat, v: LinkView, row: TpRow, published: seq<TpRow>)
    requires capacity > 0 && LinkOk(capacity, v, published) && row.fhSeqNo == |published| + 1
    ensures LinkOk(capacity, v.(ring := Pushed(capacity, v.ring, row), st := v.st.(connected := false)),
                   published + [row])
  {
    PushKeeps(capacity, v.ring, row, published);
    NextRowKeeps(v.tp, row, published);
  }

  lemma LinkIgnoresReconnects(capacity: nat, v: LinkView, w: LinkView, published: seq<TpRow>)
    requires LinkOk(capacity, v, published) && w == v.(st := v.st.(reconnects := w.st.reconnects))
    ensures LinkOk(capacity, w, published)
  {
  }

  lemma PublishKeeps(capacity: nat, v: LinkView, row: TpRow, sent: bool, attempts: seq<Attempt>, published: seq<TpRow>)
    requires capacity > 0 && LinkOk(capacity, v, published) && row.fhSeqNo == |published| + 1
    ensures LinkOk(capacity, Publish(capacity, v, row, sent, attempts), published + [row])
  {
    if v.st.connected && sent {
      PublishSentKeeps(capacity, v, row, published);
    } else {
      var w := v.(ring := Pushed(capacity, v.ring, row));
      var u := if v.st.connected then DropConnection(w) else w;
      RowIsInRing(capacity, v, row, published);
      LinkIgnoresReconnects(capacity, w.(st := w.st.(connected := false)), u, published + [row]);
      ConnectKeeps(capacity, u, attempts, published + [row]);
    }
  }

  lemma DropKeeps(capacity: nat, v: LinkView, published: seq<TpRow>)
    requires LinkOk(capacity, v, published)
    ensures LinkOk(capacity, DropConnection(v), published)
  {
  }

  lemma CallKeeps(capacity: nat, v: LinkView, isEvent: bool, answer: EventReply, published: seq<TpRow>)
    requires LinkOk(capacity, v, published)
    ensures LinkOk(capacity, Call(v, isEvent, answer), published)
  {
    if v.st.connected {
      ArrivalKeeps(capacity, v, |v.tp.wire|, published);
      var read := v.(tp := if answer.LostBeforeLogging? then v.tp else Arrive(v.tp, |v.tp.wire|));
      SaveKeeps(capacity, read, published);
      DropKeeps(capacity, if isEvent && Logged(answer) then read.(tp := Save(read.tp)) else read, published);
    }
  }

  lemma StepKeeps(capacity: nat, r: LinkRun, op: LinkOp)
    requires capacity > 0 && LinkOk(capacity, r.v, r.published)
    ensures LinkOk(capacity, Step(capacity, r, op).v, Step(capacity, r, op).published)
  {
    match op {
      case ConnectOp(attempts) =>
        if !r.v.st.connected { ConnectKeeps(capacity, r.v, attempts, r.published); }
      case PublishOp(data, sent, attempts) =>
        PublishKeeps(capacity, r.v, NextRow(r, data), sent, attempts, r.published);
      case CallOp(isEvent, answer) => CallKeeps(capacity, r.v, isEvent, answer, r.published);
      case TpOp(step) => LiveKeeps(capacity, r.v, step, r.published);
    }
  }

  lemma {:induction false} RunKeeps(capacity: nat, far: TpView, ops: seq<LinkOp>)
    requires capacity > 0 && BeforeSession(far)
    ensures var r := Run(capacity, far, ops); LinkOk(capacity, r.v, r.published)
    decreases |ops|
  {
    if ops != [] {
      RunKeeps(capacity, far, ops[..|ops| - 1]);
      StepKeeps(capacity, Run(capacity, far, ops[..|ops| - 1]), ops[|ops| - 1]);
    }
  }

  // ---------------------------------------------------------------- the log

  ghost predicate InRange(log: seq<TpRow>, last: int) {
    forall i :: 0 <= i < |log| ==> 1 <= log[i].fhSeqNo <= last
  }

  /** An increasing log without holes is the whole beginning, and the other way round. */
  lemma {:induction false} LogBounds(log: seq<TpRow>, last: int, i: nat, j: nat)
    requires InRange(log, last) && Increasing(log) && i <= j < |log|
    ensures log[j].fhSeqNo >= log[i].fhSeqNo + j - i && log[j].fhSeqNo <= last - (|log| - 1 - j)
    decreases |log| - i
  {
    if i < j {
      LogBounds(log, last, i + 1, j);
    } else if j < |log| - 1 {
      LogBounds(log, last, j + 1, j + 1);
    }
  }

  lemma HolesAreCounted(log: seq<TpRow>, last: nat, published: seq<TpRow>)
    requires RowsOk(log, published) && Increasing(log) && InRange(log, last) && last <= |published|
    requires Numbered(published)
    ensures |log| == last <==> log == published[..last]
  {
    if |log| == last {
      forall i | 0 <= i < last ensures log[i] == published[i] {
        LogBounds(log, last, 0, i);
      }
    }
  }

  lemma OrderedLog(tp: TpView, published: seq<TpRow>, connected: bool)
    requires Numbered(published) && FarSideOk(tp, published) && Orderly(tp, published, connected)
    ensures tp.missed + tp.skipped == 0 <==> tp.log == published[..Mark(tp.mem)]
  {
    assert forall i :: 0 <= i < |tp.log| ==> tp.log[i].fhSeqNo <= LastLogged(tp.log);
    HolesAreCounted(tp.log, Mark(tp.mem), published);
  }

  /** Main result, for every run against any tickerplant: the log holds published rows
      only; the count is the rows logged, missed and skipped, less those out of order;
      the tickerplant never misses more rows than the handler has reported, which is
      none exactly when the ring was long enough at every answer that was heard. */
  lemma EveryRowIsCounted(capacity: nat, far: TpView, ops: seq<LinkOp>)
    requires capacity > 0 && BeforeSession(far)
    ensures var r := Run(capacity, far, ops);
      && RowsOk(r.v.tp.log, r.published)
      && Mark(r.v.tp.mem) == |r.v.tp.log| + r.v.tp.missed + r.v.tp.skipped - r.v.tp.outOfOrder
      && 0 <= r.v.tp.missed <= r.v.st.rowsUnresendable
      && (r.v.st.rowsUnresendable == 0 <==> AllReach(capacity, r.v.story))
  {
    RunKeeps(capacity, far, ops);
  }

  /** Main result: as long as no answer is below what is logged or above what was
      published, the log is strictly increasing without duplicates, nothing is counted
      as out of order, and the log is the beginning of what was published exactly when
      nothing was missed or skipped. */
  lemma LogIsOrderly(capacity: nat, far: TpView, ops: seq<LinkOp>)
    requires capacity > 0 && BeforeSession(far) && AllSane(Run(capacity, far, ops).v.story)
    ensures var r := Run(capacity, far, ops);
      && Increasing(r.v.tp.log) && r.v.tp.outOfOrder == 0 && r.v.tp.missed >= 0 && r.v.tp.skipped >= 0
      && 0 <= LastLogged(r.v.tp.log) <= Mark(r.v.tp.mem) <= |r.published|
      && (r.v.tp.missed + r.v.tp.skipped == 0 <==> r.v.tp.log == r.published[..Mark(r.v.tp.mem)])
  {
    var r := Run(capacity, far, ops);
    RunKeeps(capacity, far, ops);
    OrderedLog(r.v.tp, r.published, r.v.st.connected);
  }

  lemma WireEndsIt(tp: TpView, published: seq<TpRow>)
    requires WireOk(tp, published) && Front(tp) == LastLogged(tp.log) && End(tp) == |published|
    requires 0 <= LastLogged(tp.log) && tp.log == published[..LastLogged(tp.log)]
    ensures tp.log + tp.wire == published
  {
    assert published == published[..LastLogged(tp.log)] + published[LastLogged(tp.log)..];
  }

  /** Main result: if every answer is the last number logged for the session, and the
      ring is as long as what each answer heard asked for, then the log is always the
      beginning of what was published, and while connected the rest, including a row
      whose send failed, is on the way. */
  lemma NoRowIsLost(capacity: nat, far: TpView, ops: seq<LinkOp>)
    requires capacity > 0 && BeforeSession(far)
    requires AllTrue(Run(capacity, far, ops).v.story) && AllReach(capacity, Run(capacity, far, ops).v.story)
    ensures var r := Run(capacity, far, ops);
      && r.v.tp.missed == 0 && r.v.tp.outOfOrder == 0 && r.v.tp.log <= r.published
      && (r.v.st.connected ==> r.v.tp.log + r.v.tp.wire == r.published)
  {
    var r := Run(capacity, far, ops);
    RunKeeps(capacity, far, ops);
    TrueIsSane(r.v.story, r.published);
    OrderedLog(r.v.tp, r.published, r.v.st.connected);
    if r.v.st.connected { WireEndsIt(r.v.tp, r.published); }
  }

  // ---------------------------------------------------------------- exactly when an answer is good

  /** The protocol needs just this of an answer. After true answers so far, the next one
      is true if and only if, once everything that is due has been sent again and has
      arrived, the count is right and each row is either logged or counted as missed. */
  lemma TrueReplyIff(capacity: nat, v: LinkView, fate: Fate, published: seq<TpRow>)
    requires capacity > 0 && LinkOk(capacity, v, published) && !v.st.connected && AllTrue(v.story)
    ensures var (u, reply) := Answered(v, |published| + 1, fate, true);
      var w := OnReply(u, reply, |published|).0;
      var tp := Arrive(w.tp, |w.tp.wire|);
      TrueReply(Story(v.tp, published, fate, true)) <==>
        Mark(tp.mem) == |published| && tp.outOfOrder == v.tp.outOfOrder && |tp.log| + tp.missed == |published|
  {
    var r := Story(v.tp, published, fate, true);
    var (u, reply) := Answered(v, |published| + 1, fate, true);
    var w := OnReply(u, reply, |published|).0;
    TrueIsSane(v.story, published);
    RegisterKeeps(v.tp, published, fate, true);
    RegisteredKeeps(capacity, v, fate, |published|, published);
    StoryGrows(capacity, v.story, r);
    ArriveKeeps(w.tp, |w.tp.wire|, published);
    ReplyKeepsSkipped(u, reply, |published|);
    if TrueReply(r) { ArriveOrderly(w.tp, |w.tp.wire|, published, true); }
  }

  lemma ReplyKeepsSkipped(v: LinkView, reply: int, sends: nat)
    ensures var w := OnReply(v, reply, sends).0; w.tp.skipped == v.tp.skipped && w.story == v.story
  {
  }

  /** The same condition, on the count the tickerplant goes on from: if it has a number
      that it takes for this session's, that is the last number logged; otherwise there
      is nothing to send again. */
  ghost predicate KnowsCount(tp: TpView, fate: Fate, published: nat) {
    var c := AfterFate(CountsOf(tp), fate).mem;
    if c.last.Some? && (c.owner.Ours? || c.last.value <= published) then c.last.value == LastLogged(tp.log)
    else LastLogged(tp.log) == published
  }

  lemma TrueAfterFateIff(capacity: nat, v: LinkView, fate: Fate, published: seq<TpRow>, heard: bool)
    requires LinkOk(capacity, v, published) && AllTrue(v.story) && v.tp.mem.owner.Ours?
    ensures TrueReply(Story(v.tp, published, fate, heard)) <==> KnowsCount(v.tp, fate, |published|)
    ensures var c := AfterFate(CountsOf(v.tp), fate).mem;
      Story(v.tp, published, fate, heard).reply ==
      if c.last.Some? && (c.owner.Ours? || c.last.value <= |published|) then c.last.value else -1
  {
    TrueIsSane(v.story, published);
    FateKeeps(CountsOf(v.tp), fate);
  }

  /** The last row in the log of the day. */
  datatype Day = NoRow | OurRow | OldRow

  /** Whether memory and session file hold this session's number. */
  datatype Knowledge = Knowledge(mem: bool, file: bool, day: Day)

  /** What is known after all that has happened, without looking at any number. */
  function Known(k: Knowledge, fate: Fate): Knowledge {
    match fate
    case StillUp => k
    case PastSave(before) => var b := Known(k, before); b.(file := b.mem)
    case PastMidnight(before) => var b := Known(k, before); Knowledge(b.mem, b.mem, NoRow)
    case Restarted(before, clean, newDay, fileKept) =>
      var b := Known(k, before);
      var day := if newDay then NoRow else b.day;
      var file := fileKept && if clean then b.mem else b.file;
      Knowledge(day.OurRow? || (day.NoRow? && file), file, day)
  }

  function DayOf(today: Count): Day {
    if today.last == None then NoRow else if today.owner.Ours? then OurRow else OldRow
  }

  /** A session starts out known to memory. A session file is stale once it has a row in
      the log of the day, and fresh before. */
  function KnownNow(today: Count): Knowledge {
    Knowledge(true, !DayOf(today).OurRow?, DayOf(today))
  }

  ghost predicate HoldsNumber(c: Counts, k: Knowledge, logged: int) {
    && k.day == DayOf(c.today) && (k.day.OurRow? ==> c.today.last == Some(logged))
    && (k.mem ==> c.mem.last == Some(logged)) && (k.file ==> c.file.last == Some(logged))
  }

  ghost predicate LacksNumber(c: Counts, k: Knowledge, logged: int) {
    && (k.day.OldRow? ==> c.today.last != Some(logged))
    && (!k.mem ==> c.mem.last != Some(logged)) && (!k.file ==> c.file.last != Some(logged))
  }

  lemma {:induction false} KnownHolds(c: Counts, k: Knowledge, fate: Fate, logged: int)
    requires HoldsNumber(c, k, logged)
    ensures HoldsNumber(AfterFate(c, fate), Known(k, fate), logged)
    ensures LacksNumber(c, k, logged) ==> LacksNumber(AfterFate(c, fate), Known(k, fate), logged)
  {
    if !fate.StillUp? { KnownHolds(c, k, fate.before, logged); }
  }

  /** Main result: whatever the tickerplant went through, its answer is true if memory
      has kept the number; and that is the only way when there are rows to send again,
      the session file is stale once the session has a row in the log of the day, and an
      earlier session did not end on the same number. */
  lemma TrueIffKnown(capacity: nat, v: LinkView, fate: Fate, published: seq<TpRow>, heard: bool)
    requires LinkOk(capacity, v, published) && AllTrue(v.story) && v.tp.mem.owner.Ours?
    ensures Known(KnownNow(v.tp.today), fate).mem ==> TrueReply(Story(v.tp, published, fate, heard))
    ensures
      && LastLogged(v.tp.log) < |published|
      && (if v.tp.today.owner.Ours? then v.tp.file.last else v.tp.today.last) != Some(LastLogged(v.tp.log))
      ==> (TrueReply(Story(v.tp, published, fate, heard)) <==> Known(KnownNow(v.tp.today), fate).mem)
  {
    TrueIsSane(v.story, published);
    TrueAfterFateIff(capacity, v, fate, published, heard);
    KnownHolds(CountsOf(v.tp), KnownNow(v.tp.today), fate, LastLogged(v.tp.log));
  }

  predicate SameDay(fate: Fate) {
    match fate
    case StillUp => true
    case PastSave(before) => SameDay(before)
    case PastMidnight(_) => false
    case Restarted(before, _, newDay, _) => !newDay && SameDay(before)
  }

  lemma {:induction false} OurRowStays(k: Knowledge, fate: Fate)
    requires k.mem && k.day.OurRow? && SameDay(fate)
    ensures Known(k, fate).mem && Known(k, fate).day.OurRow?
  {
    if !fate.StillUp? { OurRowStays(k, fate.before); }
  }

  /** So a session with a row in the log of the day is safe until midnight, whatever
      becomes of the session file and however often the tickerplant is restarted. */
  lemma RowOfTheDayIsEnough(capacity: nat, v: LinkView, fate: Fate, published: seq<TpRow>, heard: bool)
    requires LinkOk(capacity, v, published) && AllTrue(v.story) && v.tp.today.owner.Ours? && SameDay(fate)
    ensures TrueReply(Story(v.tp, published, fate, heard))
  {
    OurRowStays(KnownNow(v.tp.today), fate);
    TrueIffKnown(capacity, v, fate, published, heard);
  }

  predicate Careful(fate: Fate) {
    match fate
    case StillUp => true
    case PastSave(before) => Careful(before)
    case PastMidnight(before) => Careful(before)
    case Restarted(before, clean, newDay, fileKept) => Careful(before) && fileKept && (clean || !newDay)
  }

  lemma {:induction false} CarefulKnows(k: Knowledge, fate: Fate)
    requires k.mem && !k.day.OldRow? && (k.file || k.day.OurRow?) && Careful(fate)
    ensures var l := Known(k, fate); l.mem && !l.day.OldRow? && (l.file || l.day.OurRow?)
  {
    if !fate.StillUp? { CarefulKnows(k, fate.before); }
  }

  /** And any session is safe, unless the last row in the log of the day is an earlier
      one's, while the session file is kept and no unclean stop lasts past midnight. */
  lemma KeptFileIsEnough(capacity: nat, v: LinkView, fate: Fate, published: seq<TpRow>, heard: bool)
    requires LinkOk(capacity, v, published) && AllTrue(v.story) && v.tp.mem.owner.Ours?
    requires !DayOf(v.tp.today).OldRow? && Careful(fate)
    ensures TrueReply(Story(v.tp, published, fate, heard))
  {
    CarefulKnows(KnownNow(v.tp.today), fate);
    TrueIffKnown(capacity, v, fate, published, heard);
  }

  // ---------------------------------------------------------------- three ways to lose or repeat rows unnoticed

  lemma RunAppend(capacity: nat, far: TpView, ops: seq<LinkOp>, op: LinkOp)
    ensures Run(capacity, far, ops + [op]) == Step(capacity, Run(capacity, far, ops), op)
  {
    assert (ops + [op])[..|ops|] == ops;
  }

  /** The first row of a session is on the wire. */
  ghost predicate OneRowOut(r: LinkRun, today: Count) {
    && |r.published| == 1 && r.published[0].fhSeqNo == 1 && r.v.ring == r.published
    && r.v.st.running && r.v.st.connected && r.v.st.rowsUnresendable == 0
    && r.v.tp == TpView(r.published, [], Count(Ours, Some(0)), Count(Ours, Some(0)), today, 0, 0, 0)
  }

  lemma FirstConnect(v: LinkView, attempts: seq<Attempt>)
    requires v.st == STATUS_AT_START && v.ring == [] && BeforeSession(v.tp)
    requires attempts != [] && attempts[0] == Registered(StillUp, 0)
    ensures var w := Connect(v, 1, attempts);
      && w.ring == [] && w.st == STATUS_AT_START.(connected := true, lastReply := w.st.lastReply)
      && w.tp == v.tp.(mem := Count(Ours, Some(0)), file := Count(Ours, Some(0)))
  {
  }

  lemma SessionBegins(capacity: nat, far: TpView, start: seq<LinkOp>, c: LinkOp, p: LinkOp)
    requires capacity > 0 && BeforeSession(far) && start == []
    requires c.ConnectOp? && c.attempts != [] && c.attempts[0] == Registered(StillUp, 0)
    requires p.PublishOp? && p.sent
    ensures OneRowOut(Run(capacity, far, start + [c] + [p]), far.today)
  {
    var r0 := Run(capacity, far, start);
    FirstConnect(r0.v, c.attempts);
    RunAppend(capacity, far, start, c);
    RunAppend(capacity, far, start + [c], p);
  }

  /** Published rows that are neither logged nor on the way nor counted. */
  ghost predicate SilentlyLost(r: LinkRun, n: nat) {
    && |r.published| == n && r.v.st.connected && r.v.tp.log == [] && r.v.tp.wire == []
    && r.v.tp.missed == 0 && r.v.tp.outOfOrder == 0 && r.v.st.rowsUnresendable == 0
  }

  function ForgetfulAttempts(heard: bool): seq<Attempt> {
    var gone := Restarted(StillUp, false, false, false);
    if heard then [Registered(gone, 0)] else [RegistrationLost(gone), Registered(StillUp, 0)]
  }

  lemma ForgetfulConnect(v: LinkView, attempts: seq<Attempt>, heard: bool)
    requires v.st.running && Newest(v.ring) == 2 && v.tp.log == [] && v.tp.today == NO_COUNT
    requires attempts == ForgetfulAttempts(heard)
    ensures var w := Connect(v, 3, attempts);
      && w.st == v.st.(connected := true, lastReply := if heard then -1 else 2)
      && w.tp.wire == [] && w.tp.log == [] && w.tp.missed == v.tp.missed && w.tp.outOfOrder == v.tp.outOfOrder
  {
    var gone := Restarted(StillUp, false, false, false);
    assert AfterFate(CountsOf(v.tp), gone) == Counts(NO_COUNT, NO_COUNT, NO_COUNT);
    if !heard {
      var u := Try(v, 3, attempts[0]).0;
      assert attempts[1..] == [Registered(StillUp, 0)];
      assert attempts[0] == RegistrationLost(gone);
      assert u.tp.mem == Count(Ours, Some(2)) && u.tp.wire == [] && u.tp.log == [];
      assert Connect(v, 3, attempts) == Connect(u, 3, attempts[1..]);
    }
  }

  lemma ForgetfulStep(capacity: nat, r: LinkRun, q: LinkOp, heard: bool)
    requires capacity > 0 && OneRowOut(r, NO_COUNT)
    requires q.PublishOp? && !q.sent && q.attempts == ForgetfulAttempts(heard)
    ensures var r' := Step(capacity, r, q); SilentlyLost(r', 2) && r'.v.st.lastReply == if heard then -1 else 2
  {
    var v := DropConnection(r.v.(ring := Pushed(capacity, r.v.ring, NextRow(r, q.data))));
    ForgetfulConnect(v, q.attempts, heard);
  }

  /** The tickerplant stops before it logs a row, and its session file is lost: it
      answers -1, and nothing is sent again. The handler need not even see a negative
      reply: when that one is lost, the next is the restarted count. */
  lemma LostSessionFile(capacity: nat, heard: bool) returns (far: TpView, ops: seq<LinkOp>)
    requires capacity > 0
    ensures BeforeSession(far)
    ensures var r := Run(capacity, far, ops); SilentlyLost(r, 2) && r.v.st.lastReply == if heard then -1 else 2
  {
    far := TpView([], [], NO_COUNT, NO_COUNT, NO_COUNT, 0, 0, 0);
    ops := Beginning(capacity, far);
    var q := PublishOp("b", false, ForgetfulAttempts(heard));
    ForgetfulStep(capacity, Run(capacity, far, ops), q, heard);
    RunAppend(capacity, far, ops, q);
    ops := ops + [q];
  }

  lemma Beginning(capacity: nat, far: TpView) returns (ops: seq<LinkOp>)
    requires capacity > 0 && BeforeSession(far)
    ensures OneRowOut(Run(capacity, far, ops), far.today)
  {
    var c, p := ConnectOp([Registered(StillUp, 0)]), PublishOp("a", true, []);
    var none: seq<LinkOp> := [];
    SessionBegins(capacity, far, none, c, p);
    ops := none + [c] + [p];
  }

  /** The last row in the log of the day becomes the count, and with it what is saved at
      midnight or at a clean stop. */
  predicate TakesLastRow(fate: Fate) {
    var once := Restarted(StillUp, false, false, true);
    fate == once || fate == PastMidnight(once) || fate == Restarted(once, true, true, true)
  }

  lemma OldNumberStep(capacity: nat, r: LinkRun, q: LinkOp, last: int, fate: Fate)
    requires capacity > 0 && OneRowOut(r, Count(Another, Some(last))) && last >= 2 && TakesLastRow(fate)
    requires q.PublishOp? && !q.sent && q.attempts != [] && q.attempts[0] == Registered(fate, 9)
    ensures var r' := Step(capacity, r, q); SilentlyLost(r', 2) && r'.v.st.lastReply == last
  {
    var once := Restarted(StillUp, false, false, true);
    assert AfterFate(CountsOf(r.v.tp), once).mem == Count(Ours, Some(last));
    assert AfterFate(CountsOf(r.v.tp), fate).mem == Count(Ours, Some(last));
  }

  /** The session file is kept, but the last row in the log of the day is an earlier
      session's: its number becomes the answer, and again nothing is sent. A midnight
      or a second, clean restart before the handler is back does not help. */
  lemma NumberOfAnEarlierSession(capacity: nat, last: int, fate: Fate) returns (far: TpView, ops: seq<LinkOp>)
    requires capacity > 0 && last >= 2 && TakesLastRow(fate)
    ensures BeforeSession(far)
    ensures var r := Run(capacity, far, ops); SilentlyLost(r, 2) && r.v.st.lastReply == last
  {
    var earlier := Count(Another, Some(last));
    far := TpView([], [], earlier, earlier, earlier, 0, 0, 0);
    ops := Beginning(capacity, far);
    var q := PublishOp("b", false, [Registered(fate, 9)]);
    OldNumberStep(capacity, Run(capacity, far, ops), q, last, fate);
    RunAppend(capacity, far, ops, q);
    ops := ops + [q];
  }

  lemma TwoAfter(a: TpRow, b: TpRow)
    requires a.fhSeqNo > 0 && b.fhSeqNo > 0
    ensures After([a, b], 0) == [a, b]
  {
    assert [a, b][1..] == [b] && [b][1..] == [];
    assert After([b], 0) == [b];
  }

  lemma StaleFileConnect(v: LinkView, a: TpRow, b: TpRow)
    requires v.st.running && v.ring == [a, b] && a.fhSeqNo == 1 && b.fhSeqNo == 2 && v.st.rowsUnresendable == 0
    requires v.tp == TpView([], [a], Count(Ours, Some(1)), Count(Ours, Some(0)), Count(Ours, Some(1)), 0, 0, 0)
    ensures var w := Connect(v, 3, [Registered(Restarted(StillUp, false, true, true), 2)]);
      && w.st.connected && w.st.rowsUnresendable == 0
      && w.tp == TpView([a, b], [a], Count(Ours, Some(0)), Count(Ours, Some(0)), NO_COUNT, 0, 0, -1)
  {
    TwoAfter(a, b);
    assert [] + [a, b] == [a, b];
  }

  lemma StaleFileStep(capacity: nat, r: LinkRun, q: LinkOp)
    requires capacity >= 2 && OneRowOut(r, NO_COUNT)
    requires q.PublishOp? && !q.sent
    requires q.attempts == [Waiting(Arrived(1)), Registered(Restarted(StillUp, false, true, true), 2)]
    ensures var r' := Step(capacity, r, q);
      && |r'.published| == 2 && r'.published[..1] == r.published && r'.published[1].fhSeqNo == 2
      && r'.v.st.connected && r'.v.st.rowsUnresendable == 0
      && r'.v.tp.log == r.published && r'.v.tp.wire == r'.published && r'.v.tp.mem == Count(Ours, Some(0))
      && r'.v.tp.missed == 0 && r'.v.tp.outOfOrder == 0
  {
    var a, b := r.published[0], NextRow(r, q.data);
    assert Pushed(capacity, r.v.ring, b) == [a, b];
    var v := DropConnection(r.v.(ring := [a, b]));
    var u := v.(tp := Arrive(v.tp, 1));
    assert u.tp == LogRow(v.tp.(wire := []), a) by { assert v.tp.wire[1..] == []; }
    assert u.tp.log == [a];
    assert Connect(v, 3, q.attempts) == Connect(u, 3, q.attempts[1..]);
    StaleFileConnect(u, a, b);
  }

  /** The tickerplant dies after logging a row and starts again on the next day: the
      session file is older than the row, and the row is logged twice. */
  lemma StaleSessionFile(capacity: nat) returns (far: TpView, ops: seq<LinkOp>)
    requires capacity >= 2
    ensures BeforeSession(far)
    ensures var r := Run(capacity, far, ops);
      && |r.published| == 2 && r.v.tp.log == [r.published[0], r.published[0], r.published[1]]
      && r.v.tp.missed == 0 && r.v.tp.outOfOrder == 0 && r.v.st.rowsUnresendable == 0
  {
    far := TpView([], [], NO_COUNT, NO_COUNT, NO_COUNT, 0, 0, 0);
    ops := Beginning(capacity, far);
    var q := PublishOp("b", false, [Waiting(Arrived(1)), Registered(Restarted(StillUp, false, true, true), 2)]);
    StaleFileStep(capacity, Run(capacity, far, ops), q);
    RunAppend(capacity, far, ops, q);
    ops := ops + [q];
    TwoArrive(Run(capacity, far, ops).v.tp);
    RunAppend(capacity, far, ops, TpOp(Arrived(2)));
    ops := ops + [TpOp(Arrived(2))];
  }

  lemma TwoArrive(tp: TpView)
    requires |tp.wire| == 2 && tp.mem.last == Some(0) && tp.wire[0].fhSeqNo == 1 && tp.wire[1].fhSeqNo == 2
    ensures var w := Arrive(tp, 2); w.log == tp.log + tp.wire && w.missed == tp.missed && w.outOfOrder == tp.outOfOrder
  {
    var one := LogRow(tp.(wire := tp.wire[1..]), tp.wire[0]);
    assert tp.wire[1..] == [tp.wire[1]];
    assert Arrive(one, 1) == LogRow(one.(wire := one.wire[1..]), one.wire[0]);
  }
}
