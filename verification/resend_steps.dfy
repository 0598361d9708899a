/** What every step of the resend protocol keeps, whatever the tickerplant answers. */
module ResendSteps {
  import opened Options
  import opened Tickerplants
  import opened TpPublishers

  // ---------------------------------------------------------------- registrations

  /** The count the tickerplant goes on from after a registration. */
  function CountOf(r: Registration): int {
    if r.reply < 0 then r.published else r.reply
  }

  /** The answer is the last number logged for this session, or, if it is negative,
      there is nothing to send again. */
  predicate TrueReply(r: Registration) {
    if r.reply < 0 then r.logged == r.published else r.reply == r.logged
  }

  /** The count is not below what is logged and not above what was published. */
  predicate SaneReply(r: Registration) {
    r.logged <= CountOf(r) <= r.published
  }

  /** The ring is as long as what the handler was asked for. */
  predicate Reaches(capacity: nat, r: Registration) {
    r.heard && r.reply >= 0 ==> r.published - r.reply <= capacity
  }

  predicate AllTrue(story: seq<Registration>) {
    forall i :: 0 <= i < |story| ==> TrueReply(story[i])
  }

  predicate AllSane(story: seq<Registration>) {
    forall i :: 0 <= i < |story| ==> SaneReply(story[i])
  }

  predicate AllReach(capacity: nat, story: seq<Registration>) {
    forall i :: 0 <= i < |story| ==> Reaches(capacity, story[i])
  }

  lemma StoryGrows(capacity: nat, story: seq<Registration>, r: Registration)
    ensures AllTrue(story + [r]) <==> AllTrue(story) && TrueReply(r)
    ensures AllSane(story + [r]) <==> AllSane(story) && SaneReply(r)
    ensures AllReach(capacity, story + [r]) <==> AllReach(capacity, story) && Reaches(capacity, r)
  {
    var all := story + [r];
    assert all[|story|] == r;
    assert forall i :: 0 <= i < |story| ==> all[i] == story[i];
  }

  // ---------------------------------------------------------------- what holds at every moment

  ghost predicate Numbered(published: seq<TpRow>) {
    forall i :: 0 <= i < |published| ==> published[i].fhSeqNo == i + 1
  }

  /** The ring holds the newest rows. */
  ghost predicate RingOk(capacity: nat, ring: seq<TpRow>, published: seq<TpRow>) {
    ring == published[if |published| <= capacity then 0 else |published| - capacity..]
  }

  /** The number before the first row on the wire. */
  ghost function Front(tp: TpView): int {
    if tp.wire == [] then Mark(tp.mem) else tp.wire[0].fhSeqNo - 1
  }

  ghost function End(tp: TpView): int {
    Front(tp) + |tp.wire|
  }

  /** The wire carries consecutive rows. */
  ghost predicate WireOk(tp: TpView, published: seq<TpRow>) {
    tp.wire != [] ==>
      0 <= Front(tp) && End(tp) <= |published| && tp.wire == published[Front(tp)..End(tp)]
  }

  ghost predicate RowsOk(log: seq<TpRow>, published: seq<TpRow>) {
    forall i :: 0 <= i < |log| ==> 1 <= log[i].fhSeqNo <= |published| && log[i] == published[log[i].fhSeqNo - 1]
  }

  predicate NotNegative(c: Count) {
    c.last.Some? ==> c.last.value >= 0
  }

  /** The count, for any tickerplant: rows logged, missed and skipped, less those that
      came out of order. */
  ghost predicate CountsOk(tp: TpView) {
    && Mark(tp.mem) == |tp.log| + tp.missed + tp.skipped - tp.outOfOrder
    && tp.missed >= 0 && NotNegative(tp.mem) && NotNegative(tp.file) && NotNegative(tp.today)
    && (tp.today.owner.Ours? ==> tp.log != [] && tp.today.last == Some(LastLogged(tp.log)))
    && if tp.mem.owner.Ours? then
         && tp.mem.last.Some? && tp.file.owner.Ours? && tp.file.last.Some?
         && (!tp.today.owner.Ours? ==> tp.file == tp.mem)
       else tp.wire == [] && tp.log == [] && !tp.file.owner.Ours? && !tp.today.owner.Ours?
  }

  ghost predicate FarSideOk(tp: TpView, published: seq<TpRow>) {
    WireOk(tp, published) && RowsOk(tp.log, published) && CountsOk(tp)
  }

  /** Rows missed so far, and those that will be when the wire arrives. */
  ghost function Missing(tp: TpView): int {
    tp.missed + if Front(tp) > Mark(tp.mem) then Front(tp) - Mark(tp.mem) else 0
  }

  ghost predicate Increasing(log: seq<TpRow>) {
    forall i, j :: 0 <= i < j < |log| ==> log[i].fhSeqNo < log[j].fhSeqNo
  }

  /** What holds while all answers were sane. */
  ghost predicate Orderly(tp: TpView, published: seq<TpRow>, connected: bool) {
    && Increasing(tp.log) && |tp.log| + tp.missed <= LastLogged(tp.log)
    && LastLogged(tp.log) <= Mark(tp.mem) <= |published| && Mark(tp.mem) <= Front(tp) && tp.outOfOrder == 0
    && (connected ==> End(tp) == |published|)
  }

  ghost predicate Exact(tp: TpView) {
    tp.skipped == 0 && Mark(tp.mem) == LastLogged(tp.log)
  }

  ghost predicate StoryOk(story: seq<Registration>, published: seq<TpRow>) {
    forall i :: 0 <= i < |story| ==> 0 <= story[i].logged <= story[i].published <= |published|
  }

  ghost predicate LinkOk(capacity: nat, v: LinkView, published: seq<TpRow>) {
    && Numbered(published) && RingOk(capacity, v.ring, published) && FarSideOk(v.tp, published)
    && StoryOk(v.story, published)
    && Missing(v.tp) <= v.st.rowsUnresendable && (v.st.rowsUnresendable == 0 <==> AllReach(capacity, v.story))
    && (v.st.connected ==> v.tp.mem.owner.Ours? && UpTo(v.tp, |published|))
    && (AllSane(v.story) ==> Orderly(v.tp, published, v.st.connected))
    && (AllTrue(v.story) ==> Exact(v.tp))
  }

  /** The last of n rows is on the wire or behind the count. */
  ghost predicate UpTo(tp: TpView, n: nat) {
    if tp.wire == [] then n <= Mark(tp.mem) else End(tp) == n
  }

  /** True answers are sane. */
  lemma TrueIsSane(story: seq<Registration>, published: seq<TpRow>)
    requires StoryOk(story, published) && AllTrue(story)
    ensures AllSane(story)
  {
    forall i | 0 <= i < |story| ensures SaneReply(story[i]) {
      assert TrueReply(story[i]);
    }
  }

  // ---------------------------------------------------------------- arrival

  lemma ArriveOneCounts(tp: TpView, published: seq<TpRow>)
    requires Numbered(published) && FarSideOk(tp, published) && tp.wire != []
    ensures var w := LogRow(tp.(wire := tp.wire[1..]), tp.wire[0]);
      && CountsOk(w) && w.mem.owner == tp.mem.owner && w.skipped == tp.skipped
  {
  }

  /** The front of the wire is row a + 1. */
  lemma ArriveOneWire(wire: seq<TpRow>, a: nat, published: seq<TpRow>)
    requires Numbered(published) && wire != [] && a + |wire| <= |published| && wire == published[a..a + |wire|]
    ensures wire[0] == published[a] && wire[0].fhSeqNo == a + 1
    ensures wire[1..] == published[a + 1..a + |wire|]
    ensures |wire| > 1 ==> wire[1].fhSeqNo == a + 2
  {
    assert |wire| > 1 ==> wire[1] == published[a + 1];
  }

  lemma ArriveOneKeeps(tp: TpView, published: seq<TpRow>)
    requires Numbered(published) && FarSideOk(tp, published) && tp.wire != []
    ensures var w := LogRow(tp.(wire := tp.wire[1..]), tp.wire[0]);
      && FarSideOk(w, published) && w.mem.owner == tp.mem.owner && w.skipped == tp.skipped && Missing(w) <= Missing(tp)
      && UpTo(w, End(tp))
  {
    ArriveOneCounts(tp, published);
    ArriveOneWire(tp.wire, Front(tp), published);
  }

  lemma ArriveOneOrderly(tp: TpView, published: seq<TpRow>, connected: bool)
    requires Numbered(published) && FarSideOk(tp, published) && tp.wire != [] && Orderly(tp, published, connected)
    ensures var w := LogRow(tp.(wire := tp.wire[1..]), tp.wire[0]);
      && Orderly(w, published, connected) && Mark(w.mem) == LastLogged(w.log) && End(w) == End(tp)
  {
    var row, a := tp.wire[0], Front(tp);
    assert row == published[a];
    var w := LogRow(tp.(wire := tp.wire[1..]), row);
    if w.wire != [] { assert w.wire[0] == published[a + 1]; }
    assert forall i :: 0 <= i < |tp.log| ==> tp.log[i].fhSeqNo <= LastLogged(tp.log);
  }

  lemma {:induction false} ArriveKeeps(tp: TpView, n: nat, published: seq<TpRow>)
    requires Numbered(published) && FarSideOk(tp, published)
    ensures var w := Arrive(tp, n);
      && FarSideOk(w, published) && w.mem.owner == tp.mem.owner && w.skipped == tp.skipped && Missing(w) <= Missing(tp)
      && (forall m: nat :: UpTo(tp, m) ==> UpTo(w, m)) && (n >= |tp.wire| ==> w.wire == [])
    decreases n
  {
    if n > 0 && tp.wire != [] {
      ArriveOneKeeps(tp, published);
      ArriveKeeps(LogRow(tp.(wire := tp.wire[1..]), tp.wire[0]), n - 1, published);
    }
  }

  lemma {:induction false} ArriveOrderly(tp: TpView, n: nat, published: seq<TpRow>, connected: bool)
    requires Numbered(published) && FarSideOk(tp, published) && Orderly(tp, published, connected)
    ensures var w := Arrive(tp, n);
      && Orderly(w, published, connected) && End(w) == End(tp) && (Exact(tp) ==> Exact(w))
    decreases n
  {
    if n > 0 && tp.wire != [] {
      ArriveOneKeeps(tp, published);
      ArriveOneOrderly(tp, published, connected);
      ArriveOrderly(LogRow(tp.(wire := tp.wire[1..]), tp.wire[0]), n - 1, published, connected);
    }
  }

  lemma ArrivalKeeps(capacity: nat, v: LinkView, n: nat, published: seq<TpRow>)
    requires LinkOk(capacity, v, published)
    ensures LinkOk(capacity, v.(tp := Arrive(v.tp, n)), published)
  {
    ArriveKeeps(v.tp, n, published);
    if AllTrue(v.story) { TrueIsSane(v.story, published); }
    if AllSane(v.story) { ArriveOrderly(v.tp, n, published, v.st.connected); }
  }

  lemma SaveKeeps(capacity: nat, v: LinkView, published: seq<TpRow>)
    requires LinkOk(capacity, v, published)
    ensures LinkOk(capacity, v.(tp := Save(v.tp)), published)
  {
  }

  lemma MidnightKeeps(capacity: nat, v: LinkView, published: seq<TpRow>)
    requires LinkOk(capacity, v, published)
    ensures LinkOk(capacity, v.(tp := EndOfDay(v.tp)), published)
  {
  }

  lemma LiveKeeps(capacity: nat, v: LinkView, step: TpStep, published: seq<TpRow>)
    requires LinkOk(capacity, v, published)
    ensures LinkOk(capacity, v.(tp := Live(v.tp, step)), published)
  {
    match step {
      case Arrived(n) => ArrivalKeeps(capacity, v, n, published);
      case Saved => SaveKeeps(capacity, v, published);
      case Midnight => MidnightKeeps(capacity, v, published);
    }
  }

  // ---------------------------------------------------------------- a registration

  /** Whatever the tickerplant goes through, its counts are numbers of rows, none of an
      earlier session's becomes this session's, and the log of the day is the same or a
      new one. */
  lemma {:induction false} FateKeeps(c: Counts, fate: Fate)
    requires NotNegative(c.mem) && NotNegative(c.file) && NotNegative(c.today)
    ensures var d := AfterFate(c, fate);
      && NotNegative(d.mem) && NotNegative(d.file) && (d.today == c.today || d.today == NO_COUNT)
      && (!c.mem.owner.Ours? && !c.file.owner.Ours? ==> !d.mem.owner.Ours? && !d.file.owner.Ours?)
      && (c.mem.owner.Ours? && c.file.owner.Ours? ==> !d.mem.owner.Another? && !d.file.owner.Another?)
  {
    if !fate.StillUp? { FateKeeps(c, fate.before); }
  }

  ghost function Story(tp: TpView, published: seq<TpRow>, fate: Fate, heard: bool): Registration {
    Registration(|published|, LastLogged(tp.log), Register(tp, |published| + 1, fate).1, heard)
  }

  lemma RegisterKeeps(tp: TpView, published: seq<TpRow>, fate: Fate, heard: bool)
    requires Numbered(published) && FarSideOk(tp, published)
    ensures var w := Register(tp, |published| + 1, fate).0;
      var r := Story(tp, published, fate, heard);
      && FarSideOk(w, published) && w.mem.owner.Ours?
      && w == tp.(wire := [], mem := w.mem, file := w.file, today := w.today, skipped := w.skipped)
      && Mark(w.mem) == CountOf(r) && w.skipped == tp.skipped + CountOf(r) - Mark(tp.mem)
      && 0 <= r.logged <= r.published && -1 <= r.reply
      && (Orderly(tp, published, false) && SaneReply(r) ==> Orderly(w, published, false))
      && (Exact(tp) && TrueReply(r) ==> Exact(w))
  {
    FateKeeps(CountsOf(tp), fate);
  }

  // ---------------------------------------------------------------- resending

  lemma {:induction false} AfterTail(published: seq<TpRow>, from: nat, seqNo: int)
    requires Numbered(published) && from <= |published| && 0 <= seqNo <= |published|
    ensures After(published[from..], seqNo) == published[if from <= seqNo then seqNo else from..]
    decreases |published| - from
  {
    if from < |published| {
      AfterTail(published, from + 1, seqNo);
      assert published[from..] == [published[from]] + published[from + 1..];
      AfterSplits([published[from]], published[from + 1..], seqNo);
    }
  }

  /** What is due after reply `last` are the newest rows, as far back as the ring goes. */
  lemma DueRows(capacity: nat, ring: seq<TpRow>, last: int, published: seq<TpRow>)
    requires capacity > 0 && Numbered(published) && RingOk(capacity, ring, published) && 0 <= last < |published|
    ensures var a := last + MissingAfter(ring, last);
      && last <= a < |published| && After(ring, last) == published[a..]
      && (|published| - last <= capacity ==> a == last)
  {
    var from := if |published| <= capacity then 0 else |published| - capacity;
    AfterTail(published, from, last);
    assert ring[0] == published[from];
  }

  lemma SentRows(published: seq<TpRow>, a: nat, sends: nat) returns (k: nat)
    requires a <= |published|
    ensures a + k <= |published| && (|published[a..]| <= sends ==> a + k == |published|)
    ensures var due := published[a..]; [] + (if |due| <= sends then due else due[..sends]) == published[a..a + k]
  {
    k := if |published| - a <= sends then |published| - a else sends;
  }

  lemma NewestInRing(capacity: nat, ring: seq<TpRow>, published: seq<TpRow>)
    requires capacity > 0 && Numbered(published) && RingOk(capacity, ring, published)
    ensures (ring == []) == (published == []) && Newest(ring) == |published|
  {
  }

  /** Rows a+1..a+k go onto the wire; the rows between the reply and a are counted. */
  lemma ResendSends(capacity: nat, v: LinkView, reply: int, sends: nat, published: seq<TpRow>) returns (a: int, k: nat)
    requires capacity > 0 && Numbered(published) && RingOk(capacity, v.ring, published)
    requires v.tp.wire == [] && 0 <= reply < |published|
    ensures reply <= a < |published| && a + k <= |published|
    ensures a == reply <==> |published| - reply <= capacity
    ensures var (w, ok) := Resend(v, reply, sends);
      && w.tp == v.tp.(wire := published[a..a + k]) && w.ring == v.ring && w.story == v.story
      && (ok ==> a + k == |published|) && (sends >= |published| ==> ok)
      && w.st == v.st.(rowsUnresendable := v.st.rowsUnresendable + a - reply, rowsResent := w.st.rowsResent)
  {
    NewestInRing(capacity, v.ring, published);
    DueRows(capacity, v.ring, reply, published);
    a := reply + MissingAfter(v.ring, reply);
    k := SentRows(published, a, sends);
  }

  lemma FillWire(tp: TpView, a: int, k: nat, published: seq<TpRow>, connected: bool)
    requires Numbered(published) && FarSideOk(tp, published) && tp.wire == [] && tp.mem.owner.Ours?
    requires Mark(tp.mem) <= a && a + k <= |published| && (connected ==> k > 0 && a + k == |published|)
    ensures var w := tp.(wire := published[a..a + k]);
      && FarSideOk(w, published) && Missing(w) <= tp.missed + a - Mark(tp.mem)
      && (k > 0 ==> Front(w) == a && End(w) == a + k)
      && (Orderly(tp, published, false) ==> Orderly(w, published, connected))
  {
    if k > 0 { assert published[a..a + k][0] == published[a]; }
  }

  /** The answer r, the last of the story, has been heard and not been acted on. */
  ghost predicate ReplyHeard(capacity: nat, v: LinkView, before: seq<Registration>, r: Registration,
                             published: seq<TpRow>) {
    && Numbered(published) && RingOk(capacity, v.ring, published) && FarSideOk(v.tp, published)
    && v.story == before + [r] && StoryOk(v.story, published) && r.heard && r.reply >= -1
    && r.published == |published| && CountOf(r) == Mark(v.tp.mem) && v.tp.mem.owner.Ours? && v.tp.wire == []
    && v.tp.missed <= v.st.rowsUnresendable && (v.st.rowsUnresendable == 0 <==> AllReach(capacity, before))
    && (AllSane(v.story) ==> Orderly(v.tp, published, false))
    && (AllTrue(v.story) ==> Exact(v.tp))
  }

  lemma NothingDue(capacity: nat, v: LinkView, before: seq<Registration>, r: Registration, published: seq<TpRow>)
    requires ReplyHeard(capacity, v, before, r, published) && !(0 <= r.reply < |published|)
    ensures LinkOk(capacity, v.(st := v.st.(connected := true)), published)
  {
    StoryGrows(capacity, before, r);
  }

  lemma RowsDue(capacity: nat, v: LinkView, before: seq<Registration>, r: Registration, published: seq<TpRow>,
                a: int, k: nat, connected: bool)
    requires ReplyHeard(capacity, v, before, r, published) && 0 <= r.reply < |published|
    requires r.reply <= a && a + k <= |published| && (connected ==> k > 0 && a + k == |published|)
    requires a == r.reply <==> |published| - r.reply <= capacity
    ensures LinkOk(capacity, v.(tp := v.tp.(wire := published[a..a + k]),
                                st := v.st.(rowsUnresendable := v.st.rowsUnresendable + a - r.reply,
                                            connected := connected)),
                   published)
  {
    StoryGrows(capacity, before, r);
    FillWire(v.tp, a, k, published, connected);
  }

  lemma LinkIgnores(capacity: nat, v: LinkView, w: LinkView, published: seq<TpRow>)
    requires LinkOk(capacity, v, published)
    requires w == v.(st := v.st.(rowsResent := w.st.rowsResent, lastReply := w.st.lastReply))
    ensures LinkOk(capacity, w, published)
  {
  }

  lemma OnReplyWithRowsDue(capacity: nat, v: LinkView, before: seq<Registration>, r: Registration, sends: nat,
                           published: seq<TpRow>)
    requires capacity > 0 && ReplyHeard(capacity, v, before, r, published) && 0 <= r.reply < |published|
    ensures var w := OnReply(v, r.reply, sends).0;
      && LinkOk(capacity, w, published) && w.st.running == v.st.running
      && (sends >= |published| ==> w.st.connected)
  {
    var w := OnReply(v, r.reply, sends).0;
    var a, k := ResendSends(capacity, v.(st := v.st.(lastReply := r.reply)), r.reply, sends, published);
    RowsDue(capacity, v, before, r, published, a, k, w.st.connected);
    var u := v.(tp := w.tp, st := w.st.(rowsResent := v.st.rowsResent, lastReply := v.st.lastReply));
    LinkIgnores(capacity, u, w, published);
  }

  lemma OnReplyKeeps(capacity: nat, v: LinkView, before: seq<Registration>, r: Registration, sends: nat,
                     published: seq<TpRow>)
    requires capacity > 0 && ReplyHeard(capacity, v, before, r, published)
    ensures var w := OnReply(v, r.reply, sends).0;
      && LinkOk(capacity, w, published) && w.st.running == v.st.running
      && (sends >= |published| ==> w.st.connected)
  {
    if 0 <= r.reply < |published| {
      OnReplyWithRowsDue(capacity, v, before, r, sends, published);
    } else {
      NewestInRing(capacity, v.ring, published);
      NothingDue(capacity, v, before, r, published);
      LinkIgnores(capacity, v.(st := v.st.(connected := true)), OnReply(v, r.reply, sends).0, published);
    }
  }

  lemma RegisteredKeeps(capacity: nat, v: LinkView, fate: Fate, sends: nat, published: seq<TpRow>)
    requires capacity > 0 && LinkOk(capacity, v, published) && !v.st.connected
    ensures var (u, reply) := Answered(v, |published| + 1, fate, true);
      var w := OnReply(u, reply, sends).0;
      && LinkOk(capacity, w, published) && w.st.running == v.st.running && (sends >= |published| ==> w.st.connected)
  {
    var r := Story(v.tp, published, fate, true);
    RegisterKeeps(v.tp, published, fate, true);
    StoryGrows(capacity, v.story, r);
    OnReplyKeeps(capacity, Answered(v, |published| + 1, fate, true).0, v.story, r, sends, published);
  }

  lemma UnheardKeeps(capacity: nat, v: LinkView, fate: Fate, published: seq<TpRow>)
    requires LinkOk(capacity, v, published) && !v.st.connected
    ensures LinkOk(capacity, Answered(v, |published| + 1, fate, false).0, published)
  {
    RegisterKeeps(v.tp, published, fate, false);
    StoryGrows(capacity, v.story, Story(v.tp, published, fate, false));
  }

  // ---------------------------------------------------------------- connecting and publishing

  lemma TryKeeps(capacity: nat, v: LinkView, a: Attempt, published: seq<TpRow>)
    requires capacity > 0 && LinkOk(capacity, v, published) && !v.st.connected && v.st.running
    ensures var (w, over) := Try(v, |published| + 1, a);
      LinkOk(capacity, w, published) && over == (w.st.connected || !w.st.running)
  {
    match a {
      case Refused =>
      case RegistrationRejected =>
      case Waiting(step) => LiveKeeps(capacity, v, step, published);
      case RegistrationLost(fate) => UnheardKeeps(capacity, v, fate, published);
      case Registered(fate, sends) => RegisteredKeeps(capacity, v, fate, sends, published);
    }
  }

  lemma {:induction false} ConnectKeeps(capacity: nat, v: LinkView, attempts: seq<Attempt>, published: seq<TpRow>)
    requires capacity > 0 && LinkOk(capacity, v, published) && !v.st.connected
    ensures var w := Connect(v, |published| + 1, attempts);
      LinkOk(capacity, w, published) && (w.st.connected || !w.st.running)
    decreases |attempts|
  {
    if v.st.running && attempts != [] {
      TryKeeps(capacity, v, attempts[0], published);
      var (w, over) := Try(v, |published| + 1, attempts[0]);
      if !over { ConnectKeeps(capacity, w, attempts[1..], published); }
    }
  }

  lemma PushKeeps(capacity: nat, ring: seq<TpRow>, row: TpRow, published: seq<TpRow>)
    requires capacity > 0 && RingOk(capacity, ring, published)
    ensures RingOk(capacity, Pushed(capacity, ring, row), published + [row])
  {
    var all := published + [row];
    if |published| >= capacity {
      assert ring[1..] == published[|published| - capacity + 1..];
      assert all[|all| - capacity..] == published[|published| - capacity + 1..] + [row];
    } else {
      assert all[0..] == published[0..] + [row];
    }
  }

  lemma NextRowKeeps(tp: TpView, row: TpRow, published: seq<TpRow>)
    requires FarSideOk(tp, published) && row.fhSeqNo == |published| + 1
    ensures FarSideOk(tp, published + [row])
  {
    if tp.wire != [] {
      assert (published + [row])[Front(tp)..End(tp)] == published[Front(tp)..End(tp)];
    }
  }

  lemma SendKeeps(tp: TpView, row: TpRow, published: seq<TpRow>)
    requires FarSideOk(tp, published) && row.fhSeqNo == |published| + 1 && tp.mem.owner.Ours?
    requires tp.wire != [] ==> End(tp) == |published|
    ensures var w := tp.(wire := tp.wire + [row]);
      && FarSideOk(w, published + [row]) && End(w) == |published| + 1
      && (if tp.wire == [] then Front(w) == |published| else Front(w) == Front(tp))
  {
    var w := tp.(wire := tp.wire + [row]);
    if tp.wire == [] {
      assert (published + [row])[|published|..|published| + 1] == [row];
    } else {
      assert (published + [row])[Front(w)..End(w)] == published[Front(tp)..End(tp)] + [row];
    }
  }
}
