/** Bookkeeping utilities: a bank of CPU timers, a log of linear-solver
    iteration counts and times, documentation settings, and comparison by
    absolute value. Clock readings are passed in as parameters; clock
    ticks are unbounded integers. */
module OomphUtilities {
  import opened Common

  // ---------------------------------------------------------------------
  // AbsCmp

  function Abs(x: real): real
  {
    if x < 0.0 then -x else x
  }

  /** AbsCmp(x, y): x comes before y when it is smaller in magnitude. */
  function AbsCmp(x: real, y: real): (r: bool)
    ensures r <==> x * x < y * y
  {
    AbsSquare(x);
    AbsSquare(y);
    SquareMono(Abs(x), Abs(y));
    Abs(x) < Abs(y)
  }

  lemma AbsSquare(x: real)
    ensures Abs(x) >= 0.0 && Abs(x) * Abs(x) == x * x
  {
  }

  lemma SquareMono(a: real, b: real)
    requires a >= 0.0 && b >= 0.0
    ensures a < b <==> a * a < b * b
  {
    assert b * b - a * a == (b - a) * (b + a);
    if a < b {
      assert b - a > 0.0 && b + a > 0.0;
    } else {
      assert a - b >= 0.0 && a + b >= 0.0;
      assert (a - b) * (a + b) >= 0.0;
    }
  }

  /** AbsCmp is a strict weak order: irreflexive and transitive, and two
      values are unordered exactly when they have the same magnitude, in
      particular a value and its negation. */
  lemma AbsCmpIsStrictWeakOrder(x: real, y: real, z: real)
    ensures !AbsCmp(x, x)
    ensures AbsCmp(x, y) && AbsCmp(y, z) ==> AbsCmp(x, z)
    ensures !AbsCmp(x, y) && !AbsCmp(y, x) <==> Abs(x) == Abs(y)
    ensures !AbsCmp(x, -x) && !AbsCmp(-x, x)
  {
  }

  // ---------------------------------------------------------------------
  // Timer

  function Zeros(n: nat): (r: seq<int>)
    ensures |r| == n && forall i :: 0 <= i < n ==> r[i] == 0
  {
    seq(n, _ => 0)
  }

  /** Vector::resize(n, 0): the first entries are kept, new ones are 0. */
  function Resized(s: seq<int>, n: nat): (r: seq<int>)
    ensures |r| == n
    ensures forall i :: 0 <= i < n && i < |s| ==> r[i] == s[i]
    ensures forall i :: |s| <= i < n ==> r[i] == 0
  {
    if n <= |s| then s[..n] else s + Zeros(n - |s|)
  }

  /** The accumulated times after halting timer i at clock reading `now`. */
  function Halted(timing: seq<int>, startTime: seq<int>, i: nat, now: int): (r: seq<int>)
    requires i < |timing| && i < |startTime|
    ensures |r| == |timing|
  {
    timing[i := timing[i] + (now - startTime[i])]
  }

  /** Starting timer i at t0 and halting it at t1 adds t1 - t0 to timer i
      and to no other timer, whatever it was started at before. */
  lemma StartThenHaltAddsElapsed(timing: seq<int>, startTime: seq<int>, i: nat, t0: int, t1: int)
    requires i < |timing| && i < |startTime|
    ensures var r := Halted(timing, startTime[i := t0], i, t1);
      r[i] == timing[i] + (t1 - t0) &&
      forall j :: 0 <= j < |timing| && j != i ==> r[j] == timing[j]
  {
  }

  /** Shrinking and then growing back loses the dropped entries: they
      come back as 0, and the kept ones are unchanged. */
  lemma {:induction false} ResizeShrinkGrow(s: seq<int>, m: nat, n: nat)
    requires m <= n
    ensures var r := Resized(Resized(s, m), n);
      |r| == n &&
      (forall i :: 0 <= i < m && i < |s| ==> r[i] == s[i]) &&
      (forall i :: 0 <= i < n && (i >= m || i >= |s|) ==> r[i] == 0)
  {
    var r := Resized(Resized(s, m), n);
    forall i | 0 <= i < n && (i >= m || i >= |s|)
      ensures r[i] == 0
    {
      if i < m {
        assert i >= |s| && Resized(s, m)[i] == 0;
      }
    }
  }

  /** Timer: `timing[i]` is the time accumulated by timer i and
      `startTime[i]` the clock reading at its last start, both in ticks. */
  class Timer {
    var timing: seq<int>
    var startTime: seq<int>

    ghost predicate Valid()
      reads this
    {
      |timing| == |startTime|
    }

    /** Timer(n_timer): n timers, all at zero. */
    constructor (nTimer: nat)
      ensures Valid()
      ensures timing == Zeros(nTimer) && startTime == Zeros(nTimer)
    {
      timing := Zeros(nTimer);
      startTime := Zeros(nTimer);
    }

    /** start(i): remember the clock reading `now`. */
    method Start(i: nat, now: int)
      requires Valid() && i < |startTime|
      modifies this
      ensures Valid()
      ensures startTime == old(startTime)[i := now] && timing == old(timing)
    {
      startTime := startTime[i := now];
    }

    /** halt(i): add the ticks since timer i was started to its total. */
    method Halt(i: nat, now: int)
      requires Valid() && i < |timing|
      modifies this
      ensures Valid()
      ensures timing == Halted(old(timing), old(startTime), i, now) && startTime == old(startTime)
    {
      timing := timing[i := timing[i] + (now - startTime[i])];
    }

    /** cumulative_time(i): the accumulated ticks in seconds. */
    function CumulativeTime(i: nat, clocksPerSec: nat): (seconds: real)
      reads this
      requires i < |timing| && clocksPerSec > 0
      ensures seconds * clocksPerSec as real == timing[i] as real
    {
      timing[i] as real / clocksPerSec as real
    }

    /** reset(i): zero timer i only. */
    method Reset(i: nat)
      requires Valid() && i < |timing|
      modifies this
      ensures Valid()
      ensures timing == old(timing)[i := 0] && startTime == old(startTime)
    {
      timing := timing[i := 0];
    }

    /** reset(): zero every timer's total; start times are kept. */
    method ResetAll()
      requires Valid()
      modifies this
      ensures Valid()
      ensures timing == Zeros(|old(timing)|) && startTime == old(startTime)
    {
      var n := |timing|;
      var i := 0;
      while i < n
        invariant i <= n && |timing| == n
        invariant forall j :: 0 <= j < i ==> timing[j] == 0
        invariant forall j :: i <= j < n ==> timing[j] == old(timing)[j]
        invariant startTime == old(startTime)
      {
        timing := timing[i := 0];
        i := i + 1;
      }
      assert timing == Zeros(n);
    }

    /** set_ntimers(n): resize both vectors, new timers at zero. */
    method SetNTimers(nTimers: nat)
      modifies this
      ensures Valid()
      ensures timing == Resized(old(timing), nTimers) && startTime == Resized(old(startTime), nTimers)
    {
      timing := Resized(timing, nTimers);
      startTime := Resized(startTime, nTimers);
    }
  }

  // ---------------------------------------------------------------------
  // DocLinearSolverInfo

  datatype DocError = NoTimeStep   // add_iteration_and_time before setup_new_time_step

  /** The record add_iteration_and_time stores: iteration count,
      preconditioner setup time and linear solver time. */
  function IterationRecord(iter: nat, precSetupTime: real, linearSolverTime: real): (r: seq<real>)
    ensures |r| == 3 && r[0] == iter as real && r[1] == precSetupTime && r[2] == linearSolverTime
  {
    [iter as real, precSetupTime, linearSolverTime]
  }

  /** The log after appending `rec` to the last time step: every earlier
      step is kept and the last one grows by exactly that record. */
  function WithRecord(steps: seq<seq<seq<real>>>, rec: seq<real>): (r: seq<seq<seq<real>>>)
    requires |steps| > 0
    ensures |r| == |steps|
    ensures r[..|r| - 1] == steps[..|steps| - 1]
    ensures r[|r| - 1] == steps[|steps| - 1] + [rec]
  {
    steps[|steps| - 1 := steps[|steps| - 1] + [rec]]
  }

  /** DocLinearSolverInfo: one list of iteration records per time step. */
  class DocLinearSolverInfo {
    var iterationsAndTimes: seq<seq<seq<real>>>

    constructor ()
      ensures iterationsAndTimes == []
    {
      iterationsAndTimes := [];
    }

    /** setup_new_time_step(): start an empty list for a new time step. */
    method SetupNewTimeStep()
      modifies this
      ensures iterationsAndTimes == old(iterationsAndTimes) + [[]]
      ensures CurrentNTimeStep() == old(CurrentNTimeStep()) + 1 && CurrentNNewtonStep() == 0
    {
      iterationsAndTimes := iterationsAndTimes + [[]];
    }

    /** add_iteration_and_time: record a Newton step in the current time
        step; an error while no time step has been set up. */
    method AddIterationAndTime(iter: nat, precSetupTime: real, linearSolverTime: real) returns (outcome: Outcome<DocError>)
      modifies this
      ensures outcome.Fail? <==> old(iterationsAndTimes) == []
      ensures outcome.Fail? ==> outcome.error == NoTimeStep && iterationsAndTimes == old(iterationsAndTimes)
      ensures outcome.Pass? ==>
        iterationsAndTimes == WithRecord(old(iterationsAndTimes), IterationRecord(iter, precSetupTime, linearSolverTime)) &&
        CurrentNTimeStep() == old(CurrentNTimeStep()) && CurrentNNewtonStep() == old(CurrentNNewtonStep()) + 1
    {
      if |iterationsAndTimes| == 0 {
        return Fail(NoTimeStep);
      }
      var tmpIterTimeVec := [0.0, 0.0, 0.0];
      tmpIterTimeVec := tmpIterTimeVec[0 := iter as real];
      tmpIterTimeVec := tmpIterTimeVec[1 := precSetupTime];
      tmpIterTimeVec := tmpIterTimeVec[2 := linearSolverTime];
      assert tmpIterTimeVec == IterationRecord(iter, precSetupTime, linearSolverTime);
      var last := |iterationsAndTimes| - 1;
      iterationsAndTimes := iterationsAndTimes[last := iterationsAndTimes[last] + [tmpIterTimeVec]];
      return Pass;
    }

    /** current_ntime_step(): the number of time steps set up. */
    function CurrentNTimeStep(): (n: nat)
      reads this
      ensures n == |iterationsAndTimes|
      ensures n == 0 <==> iterationsAndTimes == []
    {
      |iterationsAndTimes|
    }

    /** current_nnewton_step(): the number of records in the last time step. */
    function CurrentNNewtonStep(): (n: nat)
      reads this
      requires iterationsAndTimes != []
      ensures n == |iterationsAndTimes[|iterationsAndTimes| - 1]|
    {
      |iterationsAndTimes[|iterationsAndTimes| - 1]|
    }
  }

  // ---------------------------------------------------------------------
  // DocInfo

  /** DocInfo: where and whether to document results, and the number and
      outputLabel used to name output files. */
  class DocInfo {
    var directory: string
    var docFlag: bool
    var number: nat
    var outputLabel: string
    var directoryMustExist: bool

    /** Number is an `unsigned`. */
    ghost predicate Valid()
      reads this
    {
      number < 0x1_0000_0000
    }

    /** DocInfo(): the current directory, documentation on, number 0,
        no outputLabel, and a missing directory only warned about. */
    constructor ()
      ensures Valid()
      ensures directory == "." && docFlag && number == 0 && outputLabel == "" && !directoryMustExist
    {
      directory := ".";
      docFlag := true;
      number := 0;
      outputLabel := "";
      directoryMustExist := false;
    }

    /** DocInfo(directory): as above, in the given directory. */
    constructor InDirectory(dir: string)
      ensures Valid()
      ensures directory == dir && docFlag && number == 0 && outputLabel == "" && !directoryMustExist
    {
      directory := dir;
      docFlag := true;
      number := 0;
      outputLabel := "";
      directoryMustExist := false;
    }

    method EnableDoc()
      modifies this
      ensures IsDocEnabled()
      ensures directory == old(directory) && number == old(number) && outputLabel == old(outputLabel) && directoryMustExist == old(directoryMustExist)
    {
      docFlag := true;
    }

    method DisableDoc()
      modifies this
      ensures !IsDocEnabled()
      ensures directory == old(directory) && number == old(number) && outputLabel == old(outputLabel) && directoryMustExist == old(directoryMustExist)
    {
      docFlag := false;
    }

    /** is_doc_enabled(). */
    function IsDocEnabled(): (enabled: bool)
      reads this
      ensures enabled <==> docFlag
    {
      docFlag
    }

    /** number()++ through the returned reference: an unsigned increment,
        which wraps to 0 after 2^32 - 1. */
    method IncrementNumber()
      requires Valid()
      modifies this
      ensures Valid()
      ensures number == AsUnsigned(old(number) + 1)
      ensures old(number) + 1 < 0x1_0000_0000 ==> number == old(number) + 1
      ensures docFlag == old(docFlag) && directory == old(directory) && outputLabel == old(outputLabel) && directoryMustExist == old(directoryMustExist)
    {
      number := AsUnsigned(number + 1);
    }

    /** Assignment through number(). */
    method SetNumber(n: nat)
      modifies this
      ensures Valid()
      ensures number == AsUnsigned(n)
      ensures docFlag == old(docFlag) && directory == old(directory) && outputLabel == old(outputLabel) && directoryMustExist == old(directoryMustExist)
    {
      number := AsUnsigned(n);
    }

    /** Assignment through outputLabel(). */
    method SetLabel(l: string)
      modifies this
      ensures outputLabel == l
      ensures docFlag == old(docFlag) && directory == old(directory) && number == old(number) && directoryMustExist == old(directoryMustExist)
    {
      outputLabel := l;
    }

    method EnableErrorIfDirectoryDoesNotExist()
      modifies this
      ensures directoryMustExist
      ensures docFlag == old(docFlag) && directory == old(directory) && number == old(number) && outputLabel == old(outputLabel)
    {
      directoryMustExist := true;
    }

    method DisableErrorIfDirectoryDoesNotExist()
      modifies this
      ensures !directoryMustExist
      ensures docFlag == old(docFlag) && directory == old(directory) && number == old(number) && outputLabel == old(outputLabel)
    {
      directoryMustExist := false;
    }
  }
}
