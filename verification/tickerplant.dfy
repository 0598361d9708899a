/** The tickerplant's side of the resend protocol (kdb/tick/tp.q): sessions, the count
    of logged rows of one table, and what a restart recovers of them.

    A row that was sent is on the wire until the tickerplant logs it, or until the
    connection turns out to be dead and takes it along.
  */
module Tickerplants {
  import opened Options

  datatype TpRow = TpRow(fhSeqNo: int, data: string)

  /** Whose session: the handler's own or one before it. */
  datatype Owner = Nobody | Ours | Another

  /** A session and the number of the last row logged. */
  datatype Count = Count(owner: Owner, last: Option<int>)

  const NO_COUNT := Count(Nobody, None)

  /** The count in memory, in the session file, and of the last row in the log of the day. */
  datatype Counts = Counts(mem: Count, file: Count, today: Count)

  /** What happens to the tickerplant while it runs. It saves its session file also for
      other tables' sake. */
  datatype TpStep = Arrived(n: nat) | Saved | Midnight

  /** What has happened to the tickerplant since it was last heard of, the latest
      outermost. `clean`: it saved its session file before it stopped. `newDay`: the log
      of the day is a new one. `fileKept`: the session file is still there. */
  datatype Fate =
    | StillUp
    | PastSave(before: Fate)
    | PastMidnight(before: Fate)
    | Restarted(before: Fate, clean: bool, newDay: bool, fileKept: bool)

  /** Rows on the wire, this session's rows in the logs, the count kept in memory and in
      the session file, the last row in the log of the day, and the rows counted as
      missed or as out of order. `skipped` is not kept by the tickerplant: by how much
      registrations have moved its count over rows it did not log, less those back. */
  datatype TpView = TpView(
    wire: seq<TpRow>, log: seq<TpRow>, mem: Count, file: Count, today: Count,
    missed: int, outOfOrder: nat, skipped: int)

  function LastLogged(log: seq<TpRow>): int {
    if log == [] then 0 else log[|log| - 1].fhSeqNo
  }

  /** The count of this session; 0 before its first registration. */
  function Mark(mem: Count): int {
    if mem.owner.Ours? && mem.last.Some? then mem.last.value else 0
  }

  // ---------------------------------------------------------------- what it does

  ghost function LogRow(tp: TpView, row: TpRow): TpView {
    var w := tp.(log := tp.log + [row], today := Count(Ours, Some(row.fhSeqNo)));
    if tp.mem.last == None then w.(mem := tp.mem.(last := Some(row.fhSeqNo)))
    else if row.fhSeqNo > tp.mem.last.value then
      w.(mem := tp.mem.(last := Some(row.fhSeqNo)), missed := tp.missed + row.fhSeqNo - tp.mem.last.value - 1)
    else w.(outOfOrder := tp.outOfOrder + 1)
  }

  /** The next rows on the wire arrive. */
  ghost function Arrive(tp: TpView, n: nat): TpView
    decreases n
  {
    if n == 0 || tp.wire == [] then tp else Arrive(LogRow(tp.(wire := tp.wire[1..]), tp.wire[0]), n - 1)
  }

  ghost function Save(tp: TpView): TpView {
    tp.(file := tp.mem)
  }

  /** Midnight: a new log, and the session file is written. */
  ghost function EndOfDay(tp: TpView): TpView {
    Save(tp).(today := NO_COUNT)
  }

  ghost function Live(tp: TpView, step: TpStep): TpView {
    match step
    case Arrived(n) => Arrive(tp, n)
    case Saved => Save(tp)
    case Midnight => EndOfDay(tp)
  }

  /** The session file, and over it the last row in the log of the day. */
  function Recovered(file: Count, today: Count): Count {
    Count(file.owner, if today.last.Some? then today.last else file.last)
  }

  function AfterFate(c: Counts, fate: Fate): Counts {
    match fate
    case StillUp => c
    case PastSave(before) => var b := AfterFate(c, before); b.(file := b.mem)
    case PastMidnight(before) => var b := AfterFate(c, before); Counts(b.mem, b.mem, NO_COUNT)
    case Restarted(before, clean, newDay, fileKept) =>
      var b := AfterFate(c, before);
      var log := if newDay then NO_COUNT else b.today;
      var file := if !fileKept then NO_COUNT else if clean then b.mem else b.file;
      Counts(Recovered(file, log), file, log)
  }

  /** The count after a registration, and the reply. */
  function Answer(mem: Count, next: int): (int, int) {
    match mem.owner
    case Ours => if mem.last == None then (next - 1, -1) else (mem.last.value, mem.last.value)
    case Nobody =>
      if mem.last == None || next - 1 < mem.last.value then (next - 1, -1) else (mem.last.value, mem.last.value)
    case Another => (next - 1, -1)
  }

  function CountsOf(tp: TpView): Counts {
    Counts(tp.mem, tp.file, tp.today)
  }

  /** Once a registration is answered nothing arrives from an older connection. */
  ghost function Register(tp: TpView, next: int, fate: Fate): (TpView, int) {
    var c := AfterFate(CountsOf(tp), fate);
    var (count, reply) := Answer(c.mem, next);
    (tp.(wire := [], mem := Count(Ours, Some(count)), file := Count(Ours, Some(count)), today := c.today,
         skipped := tp.skipped + count - Mark(tp.mem)), reply)
  }

  // ---------------------------------------------------------------- the program

  class Tickerplant {
    var wire: seq<TpRow>
    var log: seq<TpRow>
    var mem: Count
    var file: Count
    var today: Count
    var missed: int
    var outOfOrder: nat
    ghost var skipped: int

    ghost function View(): TpView
      reads this
    {
      TpView(wire, log, mem, file, today, missed, outOfOrder, skipped)
    }

    constructor (mem: Count, file: Count, today: Count)
      ensures View() == TpView([], [], mem, file, today, 0, 0, 0)
    {
      this.mem, this.file, this.today := mem, file, today;
      wire, log, missed, outOfOrder, skipped := [], [], 0, 0, 0;
    }

    method Update(row: TpRow)
      modifies this
      ensures View() == LogRow(old(View()), row)
    {
      CheckSeq(row.fhSeqNo);
      log := log + [row];
      today := Count(Ours, Some(row.fhSeqNo));
    }

    /** Never drops a row: it counts and keeps the highest number. */
    method CheckSeq(seqNo: int)
      modifies this`mem, this`missed, this`outOfOrder
      ensures mem.owner == old(mem.owner)
      ensures match old(mem.last)
        case None => mem.last == Some(seqNo) && missed == old(missed) && outOfOrder == old(outOfOrder)
        case Some(last) =>
          && (seqNo > last ==> mem.last == Some(seqNo) && missed == old(missed) + (seqNo - last - 1)
                               && outOfOrder == old(outOfOrder))
          && (seqNo <= last ==> mem.last == Some(last) && missed == old(missed) && outOfOrder == old(outOfOrder) + 1)
    {
      if mem.last == None || seqNo == mem.last.value + 1 {
        mem := mem.(last := Some(seqNo));
      } else if seqNo > mem.last.value + 1 {
        missed := missed + (seqNo - mem.last.value - 1);
        mem := mem.(last := Some(seqNo));
      } else {
        outOfOrder := outOfOrder + 1;
      }
    }

    method Receive(n: nat)
      modifies this
      ensures View() == Arrive(old(View()), n)
    {
      var k := n;
      while k > 0 && wire != []
        invariant Arrive(View(), k) == Arrive(old(View()), n)
      {
        var row := wire[0];
        wire := wire[1..];
        Update(row);
        k := k - 1;
      }
    }

    method SaveSession()
      modifies this`file
      ensures View() == Save(old(View()))
    {
      file := mem;
    }

    method RotateAtMidnight()
      modifies this`today, this`file
      ensures View() == EndOfDay(old(View()))
    {
      today := NO_COUNT;
      SaveSession();
    }

    /** Stop and start again: the session file, then the log of the day. */
    method Restart(clean: bool, newDay: bool, fileKept: bool)
      modifies this`mem, this`file, this`today
      ensures file == if !fileKept then NO_COUNT else if clean then old(mem) else old(file)
      ensures today == if newDay then NO_COUNT else old(today)
      ensures mem == Recovered(file, today)
    {
      if clean { SaveSession(); }
      if newDay { today := NO_COUNT; }
      if !fileKept { file := NO_COUNT; }
      mem := file;
      if today.last.Some? { mem := mem.(last := today.last); }
    }

    method GoThrough(fate: Fate)
      modifies this`mem, this`file, this`today
      ensures Counts(mem, file, today) == AfterFate(Counts(old(mem), old(file), old(today)), fate)
      decreases fate
    {
      match fate {
        case StillUp =>
        case PastSave(before) =>
          GoThrough(before);
          SaveSession();
        case PastMidnight(before) =>
          GoThrough(before);
          RotateAtMidnight();
        case Restarted(before, clean, newDay, fileKept) =>
          GoThrough(before);
          Restart(clean, newDay, fileKept);
      }
    }

    method RunStep(step: TpStep)
      modifies this
      ensures View() == Live(old(View()), step)
    {
      match step {
        case Arrived(n) => Receive(n);
        case Saved => SaveSession();
        case Midnight => RotateAtMidnight();
      }
    }

    method RegisterSession(next: int, fate: Fate) returns (reply: int)
      modifies this
      ensures (View(), reply) == Register(old(View()), next, fate)
    {
      ghost var mark := Mark(mem);
      GoThrough(fate);
      wire, reply := [], -1;
      var count := next - 1;
      match mem.owner {
        case Ours => if mem.last.Some? { count, reply := mem.last.value, mem.last.value; }
        case Nobody =>
          if mem.last.Some? && mem.last.value <= next - 1 { count, reply := mem.last.value, mem.last.value; }
        case Another =>
      }
      mem := Count(Ours, Some(count));
      skipped := skipped + count - mark;
      SaveSession();
    }
  }
}
