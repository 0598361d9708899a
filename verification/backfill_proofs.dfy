/** What gap backfilling guarantees against any exchange: exactness of what is
    published, an orderly event history per gap, an end after finitely many pages,
    and the discipline of the pump.
  */
module BackfillProofs {
  import opened Options
  import opened SnapshotSchedulers
  import opened TradeGaps
  import opened TradeBackfills

  // ---------------------------------------------------------------- one page

  ghost predicate Consecutive(ts: seq<BackfillTrade>, from: int) {
    forall i :: 0 <= i < |ts| ==> ts[i].id == from + i
  }

  /** Whatever the page holds, what is taken from it continues the gap and stays in it. */
  lemma {:induction false} UsefulIsConsecutive(ts: seq<BackfillTrade>, expected: int, lastId: int)
    requires expected <= lastId + 1
    ensures Consecutive(Useful(ts, expected, lastId), expected)
    ensures expected + |Useful(ts, expected, lastId)| <= lastId + 1
    ensures forall t :: t in Useful(ts, expected, lastId) ==> t in ts
    decreases |ts|
  {
    if ts != [] {
      if ts[0].id < expected {
        UsefulIsConsecutive(ts[1..], expected, lastId);
      } else if ts[0].id == expected && ts[0].id <= lastId {
        UsefulIsConsecutive(ts[1..], expected + 1, lastId);
      }
    }
  }

  /** A page with every id asked for, in order, is taken whole. */
  lemma {:induction false} FullPageIsUsed(ts: seq<BackfillTrade>, expected: int, lastId: int)
    requires Consecutive(ts, expected) && expected + |ts| <= lastId + 1
    ensures Useful(ts, expected, lastId) == ts
    decreases |ts|
  {
    if ts != [] {
      assert ts[0].id == expected + 0;
      forall i | 0 <= i < |ts[1..]| ensures ts[1..][i].id == expected + 1 + i {
        assert ts[1..][i] == ts[i + 1];
      }
      FullPageIsUsed(ts[1..], expected + 1, lastId);
      assert ts == [ts[0]] + ts[1..];
    }
  }

  /** The effect of a page on a gap, seen alone. */
  datatype JobStep = JobStep(job: Option<Job>, rows: seq<Row>, events: seq<GapEvent>)

  ghost function Solo(cfg: BackfillConfig, job: Job): BackfillView {
    BackfillView([job], false, [], [], [], Counters(0, 0, 0), Initial(cfg.sched, 1))
  }

  ghost function StepJob(cfg: BackfillConfig, job: Job, page: Page): JobStep {
    StepOf(OnPage(cfg, Solo(cfg, job), page, 0, 0.0))
  }

  /** v' is v after a step of its head gap. */
  ghost predicate IsLocal(v: BackfillView, v': BackfillView, s: JobStep)
    requires v.queue != []
  {
    && v'.queue == (if s.job == None then v.queue[1..] else [s.job.value] + v.queue[1..])
    && v'.rows == v.rows + s.rows && v'.events == v.events + s.events
  }

  ghost function StepOf(v: BackfillView): JobStep {
    JobStep(if v.queue == [] then None else Some(v.queue[0]), v.rows, v.events)
  }

  lemma FailureIsLocal(cfg: BackfillConfig, v: BackfillView, solo: BackfillView, page: Page, nowMs: int,
                       jitter: real, reason: string)
    requires v.queue != [] && Sized(v.sched, 1) && Sized(solo.sched, 1)
    requires solo.queue == [v.queue[0]] && solo.rows == [] && solo.events == []
    ensures IsLocal(v, PageFailed(cfg, v, page, nowMs, jitter, reason),
                    StepOf(PageFailed(cfg, solo, page, 0, 0.0, reason)))
  {
    assert v.queue == [v.queue[0]] + v.queue[1..];
  }

  lemma HeadReplaced(queue: seq<Job>, job: Job)
    requires queue != []
    ensures queue[0 := job] == [job] + queue[1..] && queue[0 := job][0] == job && queue[0 := job][1..] == queue[1..]
  {
  }

  lemma UseIsLocal(v: BackfillView, solo: BackfillView, ts: seq<BackfillTrade>, recvTimeNs: int)
    requires v.queue != [] && Sized(v.sched, 1) && Sized(solo.sched, 1)
    requires solo.queue == [v.queue[0]] && solo.rows == [] && solo.events == []
    ensures IsLocal(v, PageUsed(v, ts, recvTimeNs), StepOf(PageUsed(solo, ts, recvTimeNs)))
  {
    var g := v.queue[0].gap;
    var job := Job(g.(recovered := g.recovered + |ts|, recoveredThroughId := g.NextNeededId() + |ts| - 1), 0);
    HeadReplaced(v.queue, job);
    HeadReplaced(solo.queue, job);
    assert [] + RowsOf(g.sym, ts, recvTimeNs) == RowsOf(g.sym, ts, recvTimeNs);
  }

  /** A page touches the head gap and nothing else: the rest of the queue, the
      earlier rows and the earlier events stay, and what happens to the head does
      not depend on them. */
  lemma PageIsLocal(cfg: BackfillConfig, v: BackfillView, page: Page, nowMs: int, jitter: real)
    requires v.queue != [] && Sized(v.sched, 1)
    ensures IsLocal(v, OnPage(cfg, v, page, nowMs, jitter), StepJob(cfg, v.queue[0], page))
  {
    var solo := Solo(cfg, v.queue[0]);
    var g := v.queue[0].gap;
    if !page.ok {
      if !page.tooOld { FailureIsLocal(cfg, v, solo, page, nowMs, jitter, "restFailed"); }
    } else {
      var seen, soloSeen := SeePage(cfg, v, page, nowMs), SeePage(cfg, solo, page, 0);
      if page.trades == [] || Useful(page.trades, g.NextNeededId(), g.lastId) == [] {
        FailureIsLocal(cfg, seen, soloSeen, page, nowMs, jitter, "notServed");
      } else {
        UseIsLocal(seen, soloSeen, Useful(page.trades, g.NextNeededId(), g.lastId), page.recvTimeNs);
      }
    }
  }

  predicate Open(cfg: BackfillConfig, job: Job) {
    && 1 <= job.gap.firstId
    && job.gap.NextNeededId() <= job.gap.lastId
    && (job.failures == 0 || job.failures < cfg.maxFailures)
  }

  predicate SameGap(a: TradeGap, b: TradeGap) {
    a.sym == b.sym && a.firstId == b.firstId && a.lastId == b.lastId
  }

  /** g has the n ids from `next` more than before. */
  ghost predicate Advanced(was: TradeGap, g: TradeGap, n: nat) {
    && SameGap(was, g)
    && g.recovered == was.recovered + n
    && g.NextNeededId() == was.NextNeededId() + n
    && (n == 0 ==> g == was)
  }

  ghost predicate RowsAre(rows: seq<Row>, sym: string, from: int) {
    forall i :: 0 <= i < |rows| ==> rows[i].sym == sym && rows[i].trade.id == from + i
  }

  /** What any page can do to an open gap. */
  ghost predicate StepOk(cfg: BackfillConfig, job: Job, s: JobStep) {
    var next := job.gap.NextNeededId();
    && RowsAre(s.rows, job.gap.sym, next) && next + |s.rows| <= job.gap.lastId + 1
    && (s.job == None ==> |s.events| == 1 && Terminal(job.gap, s.events[0], |s.rows|))
    && (s.job.Some? ==>
          && Open(cfg, s.job.value) && Advanced(job.gap, s.job.value.gap, |s.rows|)
          && (if s.rows != [] then s.job.value.failures == 0 && s.events == [GapEvent(s.job.value.gap, Partial, "")]
              else s.job.value.failures == job.failures + 1 && s.events == []))
  }

  /** The last event of a gap after n more ids: recovered exactly when that was all. */
  ghost predicate Terminal(start: TradeGap, e: GapEvent, n: nat) {
    && Advanced(start, e.gap, n)
    && (e.status == Recovered || e.status == Unrecoverable)
    && (e.status == Recovered <==> start.NextNeededId() + n == start.lastId + 1)
  }

  lemma UseIsOk(cfg: BackfillConfig, job: Job, ts: seq<BackfillTrade>, recvTimeNs: int, v: BackfillView)
    requires Open(cfg, job) && Sized(v.sched, 1) && v.queue == [job] && v.rows == [] && v.events == []
    requires ts != [] && Consecutive(ts, job.gap.NextNeededId()) && job.gap.NextNeededId() + |ts| <= job.gap.lastId + 1
    ensures StepOk(cfg, job, StepOf(PageUsed(v, ts, recvTimeNs)))
  {
    assert [] + RowsOf(job.gap.sym, ts, recvTimeNs) == RowsOf(job.gap.sym, ts, recvTimeNs);
  }

  lemma StepJobFacts(cfg: BackfillConfig, job: Job, page: Page)
    requires Open(cfg, job)
    ensures StepOk(cfg, job, StepJob(cfg, job, page))
  {
    var g := job.gap;
    UsefulIsConsecutive(page.trades, g.NextNeededId(), g.lastId);
    if page.ok && page.trades != [] && page.trades[0].id <= g.NextNeededId()
       && Useful(page.trades, g.NextNeededId(), g.lastId) != []
    {
      UseIsOk(cfg, job, Useful(page.trades, g.NextNeededId(), g.lastId), page.recvTimeNs,
              SeePage(cfg, Solo(cfg, job), page, 0));
    }
  }

  // ---------------------------------------------------------------- the life of a gap

  datatype Life = Life(job: Option<Job>, rows: seq<Row>, events: seq<GapEvent>)

  /** The pages a gap gets, one after the other, until it is closed. */
  ghost function Live(cfg: BackfillConfig, job: Job, pages: seq<Page>): Life
    decreases |pages|
  {
    if pages == [] then Life(Some(job), [], [])
    else
      var s := StepJob(cfg, job, pages[0]);
      if s.job == None then Life(None, s.rows, s.events)
      else
        var rest := Live(cfg, s.job.value, pages[1..]);
        Life(rest.job, s.rows + rest.rows, s.events + rest.events)
  }

  /** Partial events of one gap with strictly growing counts, from `from` on. */
  ghost predicate Growing(partials: seq<GapEvent>, gap: TradeGap, from: int, to: int) {
    && (forall e :: e in partials ==> e.status == Partial && SameGap(gap, e.gap) && from < e.gap.recovered <= to)
    && (forall i, j :: 0 <= i < j < |partials| ==> partials[i].gap.recovered < partials[j].gap.recovered)
  }

  /** Partial events with strictly growing counts; if closed, one terminal event
      at the end, which says recovered exactly when every id was published. */
  ghost predicate HistoryOk(start: TradeGap, n: nat, events: seq<GapEvent>, closed: bool) {
    && Growing(if closed && events != [] then events[..|events| - 1] else events,
               start, start.recovered, start.recovered + n)
    && (closed ==> events != [] && Terminal(start, events[|events| - 1], n))
  }

  ghost predicate Exact(cfg: BackfillConfig, job: Job, l: Life) {
    var next := job.gap.NextNeededId();
    && RowsAre(l.rows, job.gap.sym, next) && next + |l.rows| <= job.gap.lastId + 1
    && (l.job.Some? ==> Open(cfg, l.job.value) && Advanced(job.gap, l.job.value.gap, |l.rows|))
  }

  lemma RowsContinue(a: seq<Row>, b: seq<Row>, sym: string, from: int)
    requires RowsAre(a, sym, from) && RowsAre(b, sym, from + |a|)
    ensures RowsAre(a + b, sym, from)
  {
  }

  lemma PartialsGrow(first: seq<GapEvent>, later: seq<GapEvent>, gap: TradeGap, from: int, mid: int, to: int)
    requires from <= mid <= to && Growing(later, gap, mid, to)
    requires first == [] || (|first| == 1 && Growing(first, gap, from, mid))
    ensures Growing(first + later, gap, from, to)
  {
    forall e | e in first + later ensures e.status == Partial && SameGap(gap, e.gap) && from < e.gap.recovered <= to {
      assert e in first || e in later;
    }
  }

  lemma HistoryGrows(cfg: BackfillConfig, job: Job, s: JobStep, rows: seq<Row>, events: seq<GapEvent>, closed: bool)
    requires StepOk(cfg, job, s) && s.job.Some?
    requires HistoryOk(s.job.value.gap, |rows|, events, closed)
    ensures HistoryOk(job.gap, |s.rows + rows|, s.events + events, closed)
  {
    var now, all := s.job.value.gap, s.events + events;
    var later := if closed && events != [] then events[..|events| - 1] else events;
    assert (if closed && all != [] then all[..|all| - 1] else all) == s.events + later;
    PartialsGrow(s.events, later, job.gap, job.gap.recovered, now.recovered, now.recovered + |rows|);
  }

  lemma HistoryEnds(cfg: BackfillConfig, job: Job, s: JobStep)
    requires StepOk(cfg, job, s) && s.job == None
    ensures HistoryOk(job.gap, |s.rows|, s.events, true)
  {
    assert s.events[..|s.events| - 1] == [];
  }

  /** Main result: against any pages, exactly the next ids in order are published,
      none twice and none past the gap, and the gap's progress always matches. */
  lemma {:induction false} GapRowsAreExact(cfg: BackfillConfig, job: Job, pages: seq<Page>)
    requires Open(cfg, job)
    ensures Exact(cfg, job, Live(cfg, job, pages))
    decreases |pages|
  {
    if pages != [] {
      var s := StepJob(cfg, job, pages[0]);
      StepJobFacts(cfg, job, pages[0]);
      if s.job.Some? {
        var rest := Live(cfg, s.job.value, pages[1..]);
        GapRowsAreExact(cfg, s.job.value, pages[1..]);
        RowsContinue(s.rows, rest.rows, job.gap.sym, job.gap.NextNeededId());
      }
    }
  }

  /** Main result: the reported status is partial* with growing counts, then one
      terminal event that says recovered exactly when the whole gap was published. */
  lemma {:induction false} GapHistoryIsOrderly(cfg: BackfillConfig, job: Job, pages: seq<Page>)
    requires Open(cfg, job)
    ensures var l := Live(cfg, job, pages); HistoryOk(job.gap, |l.rows|, l.events, l.job == None)
    decreases |pages|
  {
    if pages != [] {
      var s := StepJob(cfg, job, pages[0]);
      StepJobFacts(cfg, job, pages[0]);
      if s.job.Some? {
        var rest := Live(cfg, s.job.value, pages[1..]);
        GapHistoryIsOrderly(cfg, s.job.value, pages[1..]);
        HistoryGrows(cfg, job, s, rest.rows, rest.events, rest.job == None);
      } else {
        HistoryEnds(cfg, job, s);
      }
    }
  }

  // ---------------------------------------------------------------- every gap ends

  function Tries(cfg: BackfillConfig): nat {
    if cfg.maxFailures <= 1 then 1 else cfg.maxFailures
  }

  /** Ids still needed and tries left, as one number. */
  function PagesLeft(cfg: BackfillConfig, job: Job): int {
    (job.gap.lastId - job.gap.NextNeededId()) * Tries(cfg) + Tries(cfg) - job.failures
  }

  lemma TriesUsed(needed: nat, n: nat, tries: nat)
    ensures needed * tries >= 0
    ensures n > 0 ==> (needed - n) * tries <= needed * tries - tries
  {
    if n > 0 {
      assert (needed - n) * tries == (needed - 1) * tries - (n - 1) * tries;
      assert (n - 1) * tries >= 0;
    }
  }

  lemma StepUsesUp(cfg: BackfillConfig, job: Job, s: JobStep)
    requires Open(cfg, job) && StepOk(cfg, job, s)
    ensures PagesLeft(cfg, job) >= 1
    ensures s.job.Some? ==> PagesLeft(cfg, s.job.value) < PagesLeft(cfg, job)
  {
    TriesUsed(job.gap.lastId - job.gap.NextNeededId(), |s.rows|, Tries(cfg));
  }

  lemma LiveContinues(cfg: BackfillConfig, job: Job, pages: seq<Page>)
    requires pages != []
    ensures var next := StepJob(cfg, job, pages[0]).job;
      Live(cfg, job, pages).job == if next == None then None else Live(cfg, next.value, pages[1..]).job
  {
  }

  /** Main result: whatever the exchange replies, a gap is closed after at most
      (ids still needed) times maxFailures pages. */
  lemma {:induction false} GapEnds(cfg: BackfillConfig, job: Job, pages: seq<Page>)
    requires Open(cfg, job)
    requires |pages| >= PagesLeft(cfg, job)
    ensures Live(cfg, job, pages).job == None
    decreases |pages|
  {
    var s := StepJob(cfg, job, pages[0]);
    StepJobFacts(cfg, job, pages[0]);
    StepUsesUp(cfg, job, s);
    LiveContinues(cfg, job, pages);
    if s.job.Some? {
      GapEnds(cfg, s.job.value, pages[1..]);
    }
  }

  /** For a new gap: missing ids times maxFailures. */
  lemma NewGapEnds(cfg: BackfillConfig, gap: TradeGap, pages: seq<Page>)
    requires 1 <= gap.firstId <= gap.lastId && gap.recoveredThroughId == 0
    requires |pages| >= gap.Missing() * Tries(cfg)
    ensures Live(cfg, Job(gap, 0), pages).job == None
  {
    assert gap.Missing() * Tries(cfg) == (gap.lastId - gap.firstId) * Tries(cfg) + Tries(cfg);
    GapEnds(cfg, Job(gap, 0), pages);
  }
}
