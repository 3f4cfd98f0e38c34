/**
 * The scoped `timer` of 2_part1.cpp:32-95.
 *
 * The clock is not modelled: every operation that reads
 * `high_resolution_clock::now()` takes the reading as a parameter `now`, in
 * clock ticks. The class-wide `silent` flag and the standard output stream are
 * process-wide, so they live in one `ProcessState` object that every timer
 * refers to; what `print` writes to the stream is appended, line by line, to
 * its ghost sequence `lines`.
 *
 * Each method is specified by a pure transition function on `TimerState`, the
 * values of the four fields, and the lemmas after the class are about those
 * functions.
 */
module Timing {
  import opened Options
  import opened PrettyFormat

  /** Clock ticks per microsecond: the clock counts nanoseconds. */
  const TicksPerMicrosecond: int := 1000

  /** A default-constructed `time_point` is the clock's epoch. */
  const Epoch: int := 0

  /** The label of a timer constructed without one (`label` is a Dafny keyword, hence `unitLabel`). */
  const DefaultLabel: string := "some function/code"

  /** The text between the formatted duration and the quoted label. */
  const ReportMiddle: string := " microseconds spent in program unit '"

  /**
   * `duration_cast<microseconds>` of a tick count: integer division by
   * TicksPerMicrosecond, rounding toward zero for negative counts too.
   */
  function TicksToMicros(ticks: int): (us: int)
    ensures 0 <= ticks ==> 0 <= us && us * TicksPerMicrosecond <= ticks < us * TicksPerMicrosecond + TicksPerMicrosecond
    ensures ticks < 0 ==> us <= 0 && ticks <= us * TicksPerMicrosecond < ticks + TicksPerMicrosecond
  {
    if ticks >= 0 then ticks / TicksPerMicrosecond else -((-ticks) / TicksPerMicrosecond)
  }

  /** The whole microseconds between two clock readings. */
  function ElapsedMicros(startTime: int, stopTime: int): int {
    TicksToMicros(stopTime - startTime)
  }

  /** The line `print` writes for a duration and a label. */
  function ReportLine(elapsed: int, unitLabel: string, scaled: ScaledText): string {
    ToPrettyStr(elapsed, scaled) + ReportMiddle + unitLabel + "'"
  }

  /** The fields of a timer. */
  datatype TimerState = TimerState(unitLabel: string, startTime: int, stopTime: int, running: bool)

  /** `start` (2_part1.cpp:66-70). */
  function AfterStart(s: TimerState, now: int): TimerState {
    s.(startTime := now, running := true)
  }

  /** The constructor: both time points at the epoch, not running, then `start` (2_part1.cpp:41-43). */
  function Created(unitLabel: string, now: int): TimerState {
    AfterStart(TimerState(unitLabel, Epoch, Epoch, false), now)
  }

  /** `stop` (2_part1.cpp:72-78). */
  function AfterStop(s: TimerState, now: int): TimerState {
    if s.running then s.(stopTime := now, running := false) else s
  }

  /** `reset` (2_part1.cpp:80-85). */
  function AfterReset(s: TimerState, now: int): TimerState {
    s.(startTime := now, stopTime := now, running := false)
  }

  /** `set_label` (2_part1.cpp:54-56). */
  function AfterSetLabel(s: TimerState, l: string): TimerState {
    s.(unitLabel := l)
  }

  /** The duration `print` reports: stop time minus start time, whatever `running` says. */
  function Elapsed(s: TimerState): int {
    ElapsedMicros(s.startTime, s.stopTime)
  }

  /** What `print` writes (2_part1.cpp:58-64): nothing when silenced, else one line. */
  function Report(s: TimerState, silent: bool, scaled: ScaledText): seq<string> {
    if silent then [] else [ReportLine(Elapsed(s), s.unitLabel, scaled)]
  }

  /**
   * The process-wide state: `timer::silent` and the lines written to standard output.
   * In C++ `silent` is private to the class, so only `silence` can write it; here the
   * field is public, and that `silence` is one-way rests on the `modifies` clauses of
   * the `Timer` methods, none of which but `Silence` names `silent`.
   */
  class ProcessState {
    var silent: bool
    ghost var lines: seq<string>

    /** `bool timer::silent = false;` (2_part1.cpp:95), before anything is printed. */
    constructor ()
      ensures !silent && lines == []
    {
      silent := false;
      lines := [];
    }
  }

  class Timer {
    var unitLabel: string
    var startTime: int
    var stopTime: int
    var running: bool
    const process: ProcessState

    function State(): TimerState
      reads this
    {
      TimerState(unitLabel, startTime, stopTime, running)
    }

    /** `timer(label)`: timing starts at construction, the stop time is the epoch. */
    constructor (process: ProcessState, unitLabel: string, now: int)
      ensures this.process == process
      ensures State() == Created(unitLabel, now)
    {
      this.unitLabel := unitLabel;
      this.process := process;
      startTime, stopTime := Epoch, Epoch;
      running := false;
      new;
      Start(now);
    }

    /** `timer()` with the default label. */
    constructor Default(process: ProcessState, now: int)
      ensures this.process == process
      ensures State() == Created(DefaultLabel, now)
    {
      unitLabel := DefaultLabel;
      this.process := process;
      startTime, stopTime := Epoch, Epoch;
      running := false;
      new;
      Start(now);
    }

    /** `timer::silence()`: sets the shared flag; no operation clears it. */
    static method Silence(process: ProcessState)
      modifies process`silent
      ensures process.silent
    {
      process.silent := true;
    }

    method SetLabel(l: string)
      modifies this`unitLabel
      ensures State() == AfterSetLabel(old(State()), l)
    {
      unitLabel := l;
    }

    /** `print() const`: changes no field of the timer and leaves `silent` as it is. */
    method Print(scaled: ScaledText)
      modifies process`lines
      ensures unchanged(this)
      ensures process.lines == old(process.lines) + Report(State(), process.silent, scaled)
    {
      if !process.silent {
        process.lines := process.lines + [ReportLine(ElapsedMicros(startTime, stopTime), unitLabel, scaled)];
      }
    }

    method Start(now: int)
      modifies this`startTime, this`running
      ensures State() == AfterStart(old(State()), now)
    {
      startTime := now;
      running := true;
    }

    method Stop(now: int)
      modifies this`stopTime, this`running
      ensures State() == AfterStop(old(State()), now)
    {
      if running {
        stopTime := now;
        running := false;
      }
    }

    method Reset(now: int)
      modifies this`startTime, this`stopTime, this`running
      ensures State() == AfterReset(old(State()), now)
    {
      startTime := now;
      stopTime := startTime;
      running := false;
    }

    /** `reset_and_print`: reports the window before the reset, then resets (2_part1.cpp:87-91). */
    method ResetAndPrint(now: int, scaled: ScaledText)
      modifies this, process`lines
      ensures State() == AfterReset(old(State()), now)
      ensures process.lines == old(process.lines) + Report(old(State()), process.silent, scaled)
    {
      Print(scaled);
      Reset(now);
    }

    /** `~timer()`: `stop` then `print` (2_part1.cpp:45-48). */
    method Destroy(now: int, scaled: ScaledText)
      modifies this, process`lines
      ensures State() == AfterStop(old(State()), now)
      ensures process.lines == old(process.lines) + Report(State(), process.silent, scaled)
    {
      Stop(now);
      Print(scaled);
    }
  }

  /**
   * A timer that lives for one scope, as the benchmarks use it
   * (`timer t("Vector Operations");` at 2_part1.cpp:156, destroyed on return):
   * constructed at `t0`, destroyed at `t1`, it writes one line reporting the
   * ticks in between, unless timers have been silenced.
   */
  method ScopedTimer(process: ProcessState, unitLabel: string, t0: int, t1: int, scaled: ScaledText)
    modifies process`lines
    ensures process.lines == old(process.lines) +
      Report(TimerState(unitLabel, t0, t1, false), process.silent, scaled)
  {
    var t := new Timer(process, unitLabel, t0);
    t.Destroy(t1, scaled);
  }

  // ---------------------------------------------------------------------------
  // Properties of the transitions

  /** `stop` only acts on a running timer, so a second `stop` changes nothing. */
  lemma StopIsIdempotent(s: TimerState, t1: int, t2: int)
    ensures AfterStop(AfterStop(s, t1), t2) == AfterStop(s, t1)
    ensures !AfterStop(s, t1).running
    ensures !s.running ==> AfterStop(s, t1) == s
    ensures s.running ==>
      (AfterStop(s, t1).stopTime == t1 && AfterStop(s, t1).startTime == s.startTime &&
       AfterStop(s, t1).unitLabel == s.unitLabel)
  {
  }

  /** `start` restarts the window and leaves the stop time as it was. */
  lemma StartKeepsStopTime(s: TimerState, now: int)
    ensures AfterStart(s, now).running && AfterStart(s, now).startTime == now
    ensures AfterStart(s, now).stopTime == s.stopTime && AfterStart(s, now).unitLabel == s.unitLabel
  {
  }

  /** A new timer is running from `now` and its stop time is the epoch. */
  lemma CreatedState(unitLabel: string, now: int)
    ensures Created(unitLabel, now) == TimerState(unitLabel, now, Epoch, true)
  {
  }

  /** After `reset` the window is empty and a following `stop` changes nothing, so `print` reports 0. */
  lemma ResetReportsZero(s: TimerState, now: int, later: int, scaled: ScaledText)
    ensures Elapsed(AfterReset(s, now)) == 0
    ensures AfterStop(AfterReset(s, now), later) == AfterReset(s, now)
    ensures Report(AfterStop(AfterReset(s, now), later), false, scaled) == ["0" + ReportMiddle + s.unitLabel + "'"]
  {
    assert NatDigits(0) == "0";
  }

  /** A silenced process reports nothing, from `print` or from the destructor. */
  lemma SilencedReportsNothing(s: TimerState, now: int, scaled: ScaledText)
    ensures Report(s, true, scaled) == []
    ensures Report(AfterStop(s, now), true, scaled) == []
  {
  }

  /** `print` and the destructor write at most one line, exactly one when not silenced. */
  lemma ReportIsOneLine(s: TimerState, silent: bool, scaled: ScaledText)
    ensures |Report(s, silent, scaled)| == if silent then 0 else 1
    ensures !silent ==>
      (Report(s, silent, scaled)[0][|ToPrettyStr(Elapsed(s), scaled)|..] == ReportMiddle + s.unitLabel + "'")
  {
    if !silent {
      var number := ToPrettyStr(Elapsed(s), scaled);
      var tail := ReportMiddle + s.unitLabel + "'";
      assert Report(s, silent, scaled)[0] == number + tail;
      assert (number + tail)[|number|..] == tail;
    }
  }

  /** Under a clock that does not run backwards, a stopped window is never negative. */
  lemma StoppedElapsedNonNegative(s: TimerState, now: int)
    requires s.startTime <= now
    requires !s.running ==> s.startTime <= s.stopTime
    ensures Elapsed(AfterStop(s, now)) >= 0
  {
  }

  /**
   * `print` before any `stop` measures against the epoch: for a timer created
   * at least one microsecond after it, the reported duration is negative, and
   * the line starts with a minus sign.
   */
  lemma PrintBeforeStopIsStale(unitLabel: string, now: int, scaled: ScaledText)
    requires now >= TicksPerMicrosecond
    ensures Elapsed(Created(unitLabel, now)) == -(now / TicksPerMicrosecond)
    ensures Elapsed(Created(unitLabel, now)) < 0
    ensures Report(Created(unitLabel, now), false, scaled)[0][0] == '-'
  {
    var e := Elapsed(Created(unitLabel, now));
    PlainBranch(e, scaled);
    DecimalCharacters(e);
  }

  /**
   * Creating a timer at t0 and stopping it at t1 < t0 + 10 s reports
   * (t1 - t0) / 1000 microseconds as a plain number without a comma.
   */
  lemma ShortMeasurement(unitLabel: string, t0: int, t1: int, scaled: ScaledText)
    requires t0 <= t1 < t0 + PlainLimit * TicksPerMicrosecond
    ensures var e := Elapsed(AfterStop(Created(unitLabel, t0), t1));
      var p := ToPrettyStr(e, scaled);
      e == (t1 - t0) / TicksPerMicrosecond && 0 <= e < PlainLimit &&
      ParseInt(p) == Some(e) && ',' !in p &&
      Report(AfterStop(Created(unitLabel, t0), t1), false, scaled) == [p + ReportMiddle + unitLabel + "'"]
  {
    var e := Elapsed(AfterStop(Created(unitLabel, t0), t1));
    PlainBranch(e, scaled);
  }
}
