/**
  base/tracked_objects.cc: nested stopwatches on one thread, which exclude from the run
  duration of a task the time spent in the tasks nested in it.
*/
module Stopwatch {
  import opened Common

  const TWO31: int := 0x8000_0000

  /** A TrackedTime is milliseconds in 32 bits, and zero means null. */
  type TrackedTime = t: int | 0 <= t < TWO32

  /** The difference of two times, taken in 32 bits and read as signed. */
  function Elapsed(start: TrackedTime, end: TrackedTime): int {
    var d := if end >= start then end - start else end - start + TWO32;
    if d < TWO31 then d else d - TWO32
  }

  class ThreadData {
    var currentStopwatch: TaskStopwatch?
    constructor ()
      ensures currentStopwatch == null
    {
      currentStopwatch := null;
    }
  }

  class TaskStopwatch {
    var startTime: TrackedTime
    var wallclockDurationMs: int
    var excludedDurationMs: int
    var currentThreadData: ThreadData?
    var parent: TaskStopwatch?

    constructor ()
      ensures startTime == 0 && wallclockDurationMs == 0 && excludedDurationMs == 0
      ensures currentThreadData == null && parent == null
    {
      startTime, wallclockDurationMs, excludedDurationMs := 0, 0, 0;
      currentThreadData, parent := null, null;
    }

    /** now is ThreadData::Now(), and data is ThreadData::Get(). */
    method Start(now: TrackedTime, data: ThreadData?)
      modifies this, data
      ensures startTime == now && currentThreadData == data
      ensures wallclockDurationMs == old(wallclockDurationMs) && excludedDurationMs == old(excludedDurationMs)
      ensures parent == if data == null then old(parent) else old(data.currentStopwatch)
      ensures data != null ==> data.currentStopwatch == this
    {
      startTime := now;
      currentThreadData := data;
      if data == null {
        return;
      }
      parent := data.currentStopwatch;
      data.currentStopwatch := this;
    }

    /** A stopwatch is stopped on the thread that started it, innermost first. */
    method Stop(now: TrackedTime)
      requires currentThreadData != null ==> currentThreadData.currentStopwatch == this
      requires parent != this
      modifies this, currentThreadData, parent
      ensures wallclockDurationMs
              == if old(startTime) != 0 && now != 0 then Elapsed(old(startTime), now) else old(wallclockDurationMs)
      ensures excludedDurationMs == old(excludedDurationMs) && startTime == old(startTime)
      ensures old(currentThreadData) != null ==> old(currentThreadData).currentStopwatch == old(parent)
      ensures old(currentThreadData) != null && old(parent) != null ==>
                && old(parent).excludedDurationMs == old(parent.excludedDurationMs) + wallclockDurationMs
                && old(parent).startTime == old(parent.startTime)
                && old(parent).wallclockDurationMs == old(parent.wallclockDurationMs)
                && old(parent).currentThreadData == old(parent.currentThreadData)
                && old(parent).parent == old(parent.parent)
    {
      if startTime != 0 && now != 0 {
        wallclockDurationMs := Elapsed(startTime, now);
      }
      if currentThreadData == null {
        return;
      }
      currentThreadData.currentStopwatch := parent;
      if parent == null {
        return;
      }
      parent.excludedDurationMs := parent.excludedDurationMs + wallclockDurationMs;
      parent := null;
    }

    function RunDurationMs(): int
      reads this
    {
      wallclockDurationMs - excludedDurationMs
    }
  }

  // ----- any nesting ----------------------------------------------------------------------

  /** A task that runs from start to end, in milliseconds of an unbounded clock, and the tasks
      nested in it. */
  datatype Nesting = Nesting(start: nat, children: seq<Nesting>, end: nat)

  function Tracked(ms: nat): TrackedTime {
    ms % TWO32
  }

  predicate TouchesNull(n: Nesting) {
    Tracked(n.start) == 0 || Tracked(n.end) == 0
  }

  /** The wallclock duration that a stopwatch records for a task. */
  function Recorded(n: Nesting): int {
    if TouchesNull(n) then 0 else Elapsed(Tracked(n.start), Tracked(n.end))
  }

  function RecordedInAll(tasks: seq<Nesting>): int {
    if tasks == [] then 0 else Recorded(tasks[0]) + RecordedInAll(tasks[1..])
  }

  /** The run durations of a task and of those nested in it: what was recorded for each, less
      what was recorded for its own children. */
  function RunDurations(n: Nesting): seq<int>
    decreases n
  {
    [Recorded(n) - RecordedInAll(n.children)] + RunDurationsOfAll(n.children)
  }

  function RunDurationsOfAll(tasks: seq<Nesting>): seq<int>
    decreases tasks
  {
    if tasks == [] then [] else RunDurations(tasks[0]) + RunDurationsOfAll(tasks[1..])
  }

  /** Runs the tasks with their stopwatches, whatever the clock does. */
  method RunTask(data: ThreadData, task: Nesting) returns (durations: seq<int>)
    modifies data, data.currentStopwatch
    ensures data.currentStopwatch == old(data.currentStopwatch)
    ensures durations == RunDurations(task)
    ensures var p := old(data.currentStopwatch);
            p != null ==>
              && p.excludedDurationMs == old(data.currentStopwatch.excludedDurationMs) + Recorded(task)
              && p.startTime == old(data.currentStopwatch.startTime)
              && p.wallclockDurationMs == old(data.currentStopwatch.wallclockDurationMs)
              && p.currentThreadData == old(data.currentStopwatch.currentThreadData)
              && p.parent == old(data.currentStopwatch.parent)
    decreases task
  {
    var stopwatch := new TaskStopwatch();
    stopwatch.Start(Tracked(task.start), data);
    var nested := RunNested(data, task.children);
    stopwatch.Stop(Tracked(task.end));
    durations := [stopwatch.RunDurationMs()] + nested;
  }

  method RunNested(data: ThreadData, tasks: seq<Nesting>) returns (durations: seq<int>)
    requires data.currentStopwatch != null
    modifies data, data.currentStopwatch
    ensures data.currentStopwatch == old(data.currentStopwatch)
    ensures durations == RunDurationsOfAll(tasks)
    ensures var p := old(data.currentStopwatch);
            && p.excludedDurationMs == old(data.currentStopwatch.excludedDurationMs) + RecordedInAll(tasks)
            && p.startTime == old(data.currentStopwatch.startTime)
            && p.wallclockDurationMs == old(data.currentStopwatch.wallclockDurationMs)
            && p.currentThreadData == old(data.currentStopwatch.currentThreadData)
            && p.parent == old(data.currentStopwatch.parent)
    decreases tasks
  {
    if tasks == [] {
      return [];
    }
    var first := RunTask(data, tasks[0]);
    var rest := RunNested(data, tasks[1..]);
    durations := first + rest;
  }

  function Sum(durations: seq<int>): int {
    if durations == [] then 0 else durations[0] + Sum(durations[1..])
  }

  lemma {:induction false} SumOfBoth(a: seq<int>, b: seq<int>)
    ensures Sum(a + b) == Sum(a) + Sum(b)
    decreases |a|
  {
    if a == [] {
      assert a + b == b;
    } else {
      assert (a + b)[1..] == a[1..] + b;
      SumOfBoth(a[1..], b);
    }
  }

  /** The run durations of every nesting sum to what was recorded for the outermost task. */
  lemma {:induction false} DurationsSumToRecorded(n: Nesting)
    ensures Sum(RunDurations(n)) == Recorded(n)
    decreases n
  {
    DurationsOfAllSumToRecorded(n.children);
    SumOfBoth([Recorded(n) - RecordedInAll(n.children)], RunDurationsOfAll(n.children));
  }

  lemma {:induction false} DurationsOfAllSumToRecorded(tasks: seq<Nesting>)
    ensures Sum(RunDurationsOfAll(tasks)) == RecordedInAll(tasks)
    decreases tasks
  {
    if tasks != [] {
      DurationsSumToRecorded(tasks[0]);
      DurationsOfAllSumToRecorded(tasks[1..]);
      SumOfBoth(RunDurations(tasks[0]), RunDurationsOfAll(tasks[1..]));
    }
  }

  // ----- when run durations are negative ----------------------------------------------------

  /** The clock goes forward. */
  predicate Ordered(n: Nesting)
    decreases n
  {
    n.start <= n.end && InOrder(n.start, n.children, n.end)
  }

  predicate InOrder(from: nat, tasks: seq<Nesting>, to: nat)
    decreases tasks
  {
    if tasks == [] then from <= to
    else from <= tasks[0].start && Ordered(tasks[0]) && InOrder(tasks[0].end, tasks[1..], to)
  }

  /** The tasks for which the recorded duration need not be the true one: one that starts or
      ends at a null instant, and one so long that its difference is not a signed 32-bit
      number. */
  predicate Irregular(n: Nesting) {
    TouchesNull(n) || n.end - n.start >= TWO31
  }

  /** Every irregular task has no more recorded for its children than for itself. */
  predicate Covered(n: Nesting)
    decreases n
  {
    (Irregular(n) ==> RecordedInAll(n.children) <= Recorded(n)) && AllCovered(n.children)
  }

  predicate AllCovered(tasks: seq<Nesting>)
    decreases tasks
  {
    tasks == [] || (Covered(tasks[0]) && AllCovered(tasks[1..]))
  }

  predicate NonNegative(durations: seq<int>) {
    forall i :: 0 <= i < |durations| ==> durations[i] >= 0
  }

  lemma {:induction false} NonNegativeBoth(a: seq<int>, b: seq<int>)
    ensures NonNegative(a + b) <==> NonNegative(a) && NonNegative(b)
  {
    assert forall i :: 0 <= i < |a| ==> (a + b)[i] == a[i];
    assert forall i :: 0 <= i < |b| ==> (a + b)[|a| + i] == b[i];
  }

  /** The clock may wrap around 2^32 while a task runs. */
  lemma {:induction false} ElapsedIsTrue(start: nat, end: nat)
    requires start <= end < start + TWO31
    ensures Elapsed(Tracked(start), Tracked(end)) == end - start
  {
    var d := end - start;
    if Tracked(start) + d < TWO32 {
      assert Tracked(end) == Tracked(start) + d by { Wraps(start, d); }
    } else {
      assert Tracked(end) == Tracked(start) + d - TWO32 by { Wraps(start, d); }
    }
  }

  lemma {:induction false} Wraps(start: nat, d: nat)
    requires d < TWO32
    ensures (start + d) % TWO32 == if start % TWO32 + d < TWO32 then start % TWO32 + d else start % TWO32 + d - TWO32
  {
    assert start == TWO32 * (start / TWO32) + start % TWO32;
  }

  /** What is recorded within less than 2^31 ms is not negative and fits there. */
  lemma {:induction false} RecordedFits(from: nat, tasks: seq<Nesting>, to: nat)
    requires InOrder(from, tasks, to) && to - from < TWO31
    ensures 0 <= RecordedInAll(tasks) <= to - from
    decreases tasks
  {
    if tasks != [] {
      StartsBefore(tasks[0].end, tasks[1..], to);
      ElapsedIsTrue(tasks[0].start, tasks[0].end);
      RecordedFits(tasks[0].end, tasks[1..], to);
    }
  }

  lemma {:induction false} StartsBefore(from: nat, tasks: seq<Nesting>, to: nat)
    requires InOrder(from, tasks, to)
    ensures from <= to
    decreases tasks
  {
    if tasks != [] {
      StartsBefore(tasks[0].end, tasks[1..], to);
    }
  }

  /** On a clock that goes forward, no run duration is negative exactly if every irregular task
      is covered. */
  lemma {:induction false} NonNegativeIffCovered(n: Nesting)
    requires Ordered(n)
    ensures NonNegative(RunDurations(n)) <==> Covered(n)
    decreases n
  {
    AllNonNegativeIffCovered(n.start, n.children, n.end);
    var own := Recorded(n) - RecordedInAll(n.children);
    NonNegativeBoth([own], RunDurationsOfAll(n.children));
    if !Irregular(n) {
      ElapsedIsTrue(n.start, n.end);
      RecordedFits(n.start, n.children, n.end);
    }
    assert [own][0] == own;
  }

  lemma {:induction false} AllNonNegativeIffCovered(from: nat, tasks: seq<Nesting>, to: nat)
    requires InOrder(from, tasks, to)
    ensures NonNegative(RunDurationsOfAll(tasks)) <==> AllCovered(tasks)
    decreases tasks
  {
    if tasks != [] {
      NonNegativeIffCovered(tasks[0]);
      AllNonNegativeIffCovered(tasks[0].end, tasks[1..], to);
      NonNegativeBoth(RunDurations(tasks[0]), RunDurationsOfAll(tasks[1..]));
    }
  }

  /** Every task that starts or ends at a null instant has nothing recorded inside it. */
  predicate NullTasksAreHollow(n: Nesting)
    decreases n
  {
    (TouchesNull(n) ==> RecordedInAll(n.children) == 0) && AllHollow(n.children)
  }

  predicate AllHollow(tasks: seq<Nesting>)
    decreases tasks
  {
    tasks == [] || (NullTasksAreHollow(tasks[0]) && AllHollow(tasks[1..]))
  }

  /** For tasks of less than 2^31 ms only null instants matter: no run duration is negative
      exactly if nothing is recorded inside a task that starts or ends at one. */
  lemma {:induction false} NonNegativeIffHollow(n: Nesting)
    requires Ordered(n) && n.end - n.start < TWO31
    ensures NonNegative(RunDurations(n)) <==> NullTasksAreHollow(n)
  {
    NonNegativeIffCovered(n);
    CoveredIffHollow(n);
  }

  lemma {:induction false} CoveredIffHollow(n: Nesting)
    requires Ordered(n) && n.end - n.start < TWO31
    ensures Covered(n) <==> NullTasksAreHollow(n)
    decreases n
  {
    RecordedFits(n.start, n.children, n.end);
    AllCoveredIffHollow(n.start, n.children, n.end);
  }

  lemma {:induction false} AllCoveredIffHollow(from: nat, tasks: seq<Nesting>, to: nat)
    requires InOrder(from, tasks, to) && to - from < TWO31
    ensures AllCovered(tasks) <==> AllHollow(tasks)
    decreases tasks
  {
    if tasks != [] {
      StartsBefore(tasks[0].end, tasks[1..], to);
      CoveredIffHollow(tasks[0]);
      AllCoveredIffHollow(tasks[0].end, tasks[1..], to);
    }
  }

  /** A task whose duration is from 2^31 to less than 2^32 ms always has a negative run
      duration in it, unless it touches a null instant. */
  lemma {:induction false} LongTaskGoesNegative(n: Nesting)
    requires n.start + TWO31 <= n.end < n.start + TWO32 && !TouchesNull(n)
    ensures !NonNegative(RunDurations(n))
  {
    DurationsSumToRecorded(n);
    Wraps(n.start, n.end - n.start);
    assert Recorded(n) < 0;
    if NonNegative(RunDurations(n)) {
      SumIsNonNegative(RunDurations(n));
    }
  }

  lemma {:induction false} SumIsNonNegative(durations: seq<int>)
    requires NonNegative(durations)
    ensures Sum(durations) >= 0
    decreases |durations|
  {
    if durations != [] {
      SumIsNonNegative(durations[1..]);
    }
  }

  /** Stopwatches that meet the null instant, at the start or at the end of the outer one. */
  method NullInstantGoesNegative(data: ThreadData, atStart: bool) returns (duration: int)
    requires data.currentStopwatch == null
    modifies data
    ensures duration == -5
  {
    var outer := new TaskStopwatch();
    outer.Start(if atStart then 0 else TWO32 - 7, data);
    var inner := new TaskStopwatch();
    inner.Start(if atStart then 1 else TWO32 - 6, data);
    inner.Stop(if atStart then 6 else TWO32 - 1);
    outer.Stop(if atStart then 7 else 0);
    duration := outer.RunDurationMs();
  }
}
