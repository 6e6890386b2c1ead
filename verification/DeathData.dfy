/**
  base/tracked_objects.cc: the statistics of the tasks that ended, kept as running totals,
  and the walk that turns them into one report for each profiling phase.
*/
module DeathData {
  import opened Common


  /** A death as it is recorded, with the random number drawn for it. */
  datatype Death = Death(queue: int, run: int, random: nat)

  /** A completed phase and the deaths recorded in it. */
  datatype Phase = Phase(number: int, deaths: seq<Death>)

  // ----- what the statistics should be ------------------------------------------------

  function RunSum(deaths: seq<Death>): int {
    if deaths == [] then 0 else RunSum(deaths[..|deaths| - 1]) + deaths[|deaths| - 1].run
  }

  function QueueSum(deaths: seq<Death>): int {
    if deaths == [] then 0 else QueueSum(deaths[..|deaths| - 1]) + deaths[|deaths| - 1].queue
  }

  function RunMax(deaths: seq<Death>): int {
    if deaths == [] then 0 else Max(RunMax(deaths[..|deaths| - 1]), deaths[|deaths| - 1].run)
  }

  function QueueMax(deaths: seq<Death>): int {
    if deaths == [] then 0 else Max(QueueMax(deaths[..|deaths| - 1]), deaths[|deaths| - 1].queue)
  }

  /** A counter that stops at INT_MAX. */
  function Clamped(n: nat): nat {
    Min(n, INT_MAX)
  }

  /** The draw that takes the n-th death of a phase as the sample. */
  predicate Drawn(random: nat, n: nat)
    requires n > 0
  {
    random % n == 0
  }

  /** The death whose durations are the sample: the n-th of the phase replaces the one before
      it when its random number is a multiple of n. */
  function Sampled(deaths: seq<Death>): (i: nat)
    requires deaths != []
    ensures i < |deaths|
  {
    var last := |deaths| - 1;
    if last == 0 || Drawn(deaths[last].random, Clamped(|deaths|)) then last else Sampled(deaths[..last])
  }

  /** All deaths of several phases, in order. */
  function Deaths(phases: seq<Phase>): seq<Death> {
    if phases == [] then [] else Deaths(phases[..|phases| - 1]) + phases[|phases| - 1].deaths
  }

  // ----- snapshots --------------------------------------------------------------------

  datatype DeathDataSnapshot = DeathDataSnapshot(
    count: int, runSum: int, runMax: int, runSample: int, queueSum: int, queueMax: int, queueSample: int)
  {
    function Delta(older: DeathDataSnapshot): DeathDataSnapshot {
      DeathDataSnapshot(count - older.count, runSum - older.runSum, runMax, runSample,
                        queueSum - older.queueSum, queueMax, queueSample)
    }
  }

  /** The chain of const DeathDataPhaseSnapshot objects, newest first. */
  datatype PhaseSnapshots = NoSnapshot | PhaseSnapshot(phase: int, deathData: DeathDataSnapshot, prev: PhaseSnapshots)

  /** A report on one phase. */
  datatype TaskSnapshot = TaskSnapshot(phase: int, deathData: DeathDataSnapshot)

  // ----- the class --------------------------------------------------------------------

  class DeathData {
    var count: int
    var sampleProbabilityCount: int
    var runDurationSum: int
    var queueDurationSum: int
    var runDurationMax: int
    var queueDurationMax: int
    var runDurationSample: int
    var queueDurationSample: int
    var lastPhaseSnapshot: PhaseSnapshots
    ghost var completed: seq<Phase>    // the phases completed so far
    ghost var current: seq<Death>      // the deaths since

    ghost predicate Valid()
      reads this
    {
      Tallies(Snapshot(), sampleProbabilityCount, lastPhaseSnapshot, completed, current)
    }

    function Snapshot(): DeathDataSnapshot
      reads this
    {
      DeathDataSnapshot(count, runDurationSum, runDurationMax, runDurationSample,
                        queueDurationSum, queueDurationMax, queueDurationSample)
    }

    constructor ()
      ensures Valid() && completed == [] && current == []
    {
      count, sampleProbabilityCount := 0, 0;
      runDurationSum, queueDurationSum, runDurationMax, queueDurationMax := 0, 0, 0, 0;
      runDurationSample, queueDurationSample := 0, 0;
      lastPhaseSnapshot := NoSnapshot;
      completed, current := [], [];
    }

    /** The sums are 32-bit, so the caller keeps them in range. */
    method RecordDeath(queueDuration: int, runDuration: int, randomNumber: nat)
      requires Valid()
      requires -INT_MAX - 1 <= runDurationSum + runDuration <= INT_MAX
      requires -INT_MAX - 1 <= queueDurationSum + queueDuration <= INT_MAX
      modifies this
      ensures Valid() && completed == old(completed)
      ensures current == old(current) + [Death(queueDuration, runDuration, randomNumber)]
    {
      ghost var death := Death(queueDuration, runDuration, randomNumber);
      OneMoreIsTallied(Snapshot(), sampleProbabilityCount, lastPhaseSnapshot, completed, current, death);
      hide Tallies, Drawn, Recorded;
      RaiseCounters();
      queueDurationSum := queueDurationSum + queueDuration;
      runDurationSum := runDurationSum + runDuration;
      RaiseMaxima(queueDuration, runDuration);
      if Drawn(randomNumber, sampleProbabilityCount) {
        queueDurationSample := queueDuration;
        runDurationSample := runDuration;
      }
      current := current + [death];
      RecordedIs(old(Snapshot()), sampleProbabilityCount, death, Snapshot());
    }

    method RaiseCounters()
      modifies this`count, this`sampleProbabilityCount
      ensures count == Raised(old(count)) && sampleProbabilityCount == Raised(old(sampleProbabilityCount))
    {
      if count < INT_MAX {
        count := count + 1;
      }
      if sampleProbabilityCount < INT_MAX {
        sampleProbabilityCount := sampleProbabilityCount + 1;
      }
    }

    method RaiseMaxima(queueDuration: int, runDuration: int)
      modifies this`queueDurationMax, this`runDurationMax
      ensures queueDurationMax == Max(old(queueDurationMax), queueDuration)
      ensures runDurationMax == Max(old(runDurationMax), runDuration)
    {
      if queueDurationMax < queueDuration {
        queueDurationMax := queueDuration;
      }
      if runDurationMax < runDuration {
        runDurationMax := runDuration;
      }
    }

    method OnProfilingPhaseCompleted(profilingPhase: int)
      requires Valid()
      modifies this
      ensures Valid() && completed == old(completed) + [Phase(profilingPhase, old(current))] && current == []
    {
      PhaseCompletes(Snapshot(), sampleProbabilityCount, lastPhaseSnapshot, completed, current, profilingPhase);
      hide Tallies;
      lastPhaseSnapshot := PhaseSnapshot(profilingPhase, Snapshot(), lastPhaseSnapshot);
      sampleProbabilityCount := 0;
      runDurationMax := 0;
      queueDurationMax := 0;
      completed := completed + [Phase(profilingPhase, current)];
      current := [];
    }

    /** The walk of SnapshotExecutedTasks over the phases, from the current one back. */
    method SnapshotExecutedTasks(currentProfilingPhase: int) returns (tasks: seq<TaskSnapshot>)
      requires Valid()
      ensures tasks == Reports(completed + [Phase(currentProfilingPhase, current)])
    {
      tasks := [];
      var phase := PhaseSnapshot(currentProfilingPhase, Snapshot(), lastPhaseSnapshot);
      ghost var left := completed + [Phase(currentProfilingPhase, current)];
      assert Tallies(Snapshot(), sampleProbabilityCount, lastPhaseSnapshot, completed, current);
      CurrentIsLast(completed, Phase(currentProfilingPhase, current), phase);
      ghost var whole := Reports(left);
      assert [] + whole == whole;
      hide Reports, Chain, Report, Tallies, Summarises, DeltaOf;
      while phase.PhaseSnapshot?
        invariant Chain(phase, left) && tasks + Reports(left) == whole
        decreases phase
      {
        var deathData := DeltaOf(phase);
        DeltaIsReport(phase, left);
        if deathData.count > 0 {
          tasks := tasks + [TaskSnapshot(phase.phase, deathData)];
        }
        left := left[..|left| - 1];
        phase := phase.prev;
      }
      NoReports(phase, left);
      assert tasks + [] == tasks;
    }
  }

  /** What the fields say of the deaths so far. */
  ghost predicate Tallies(s: DeathDataSnapshot, sampleCount: int, chain: PhaseSnapshots, completed: seq<Phase>,
                          current: seq<Death>)
  {
    Summarises(s, completed, current) && sampleCount == Clamped(|current|) && Chain(chain, completed)
  }

  /** The running totals after the completed phases and the deaths since. */
  ghost predicate Summarises(s: DeathDataSnapshot, completed: seq<Phase>, current: seq<Death>) {
    var all := Deaths(completed) + current;
    && s.count == Clamped(|all|) && s.runSum == RunSum(all) && s.queueSum == QueueSum(all)
    && s.runMax == RunMax(current) && s.queueMax == QueueMax(current)
    && (current != [] ==> s.runSample == current[Sampled(current)].run && s.queueSample == current[Sampled(current)].queue)
  }

  ghost predicate Chain(chain: PhaseSnapshots, phases: seq<Phase>) {
    if phases == [] then chain == NoSnapshot
    else
      var last := |phases| - 1;
      && chain.PhaseSnapshot? && chain.phase == phases[last].number
      && Summarises(chain.deathData, phases[..last], phases[last].deaths)
      && Chain(chain.prev, phases[..last])
  }

  /** What the report on a phase should say: how often, the sums and maxima of its own
      deaths, and the sample of one of them. */
  function Report(before: seq<Phase>, phase: Phase): DeathDataSnapshot
    requires phase.deaths != []
  {
    var i := Sampled(phase.deaths);
    DeathDataSnapshot(Clamped(|Deaths(before)| + |phase.deaths|) - Clamped(|Deaths(before)|),
                      RunSum(phase.deaths), RunMax(phase.deaths), phase.deaths[i].run,
                      QueueSum(phase.deaths), QueueMax(phase.deaths), phase.deaths[i].queue)
  }

  /** The reports, newest phase first: one for each phase with deaths, once the counter moves. */
  function Reports(phases: seq<Phase>): seq<TaskSnapshot> {
    if phases == [] then []
    else
      var before, phase := phases[..|phases| - 1], phases[|phases| - 1];
      (if phase.deaths != [] && |Deaths(before)| < INT_MAX then [TaskSnapshot(phase.number, Report(before, phase))] else [])
      + Reports(before)
  }

  /** The totals with one more death; n is the sample counter, already raised. */
  function Recorded(s: DeathDataSnapshot, n: int, d: Death): DeathDataSnapshot
    requires n > 0
  {
    var drawn := Drawn(d.random, n);
    DeathDataSnapshot(Raised(s.count),
                      s.runSum + d.run, Max(s.runMax, d.run), if drawn then d.run else s.runSample,
                      s.queueSum + d.queue, Max(s.queueMax, d.queue), if drawn then d.queue else s.queueSample)
  }

  lemma {:induction false} RecordedIs(s: DeathDataSnapshot, n: int, d: Death, r: DeathDataSnapshot)
    requires n > 0 && r.count == Raised(s.count)
    requires r.runSum == s.runSum + d.run && r.queueSum == s.queueSum + d.queue
    requires r.runMax == Max(s.runMax, d.run) && r.queueMax == Max(s.queueMax, d.queue)
    requires r.runSample == if Drawn(d.random, n) then d.run else s.runSample
    requires r.queueSample == if Drawn(d.random, n) then d.queue else s.queueSample
    ensures r == Recorded(s, n, d)
  {
    hide Drawn, Raised;
  }

  function Raised(n: int): int {
    if n < INT_MAX then n + 1 else n
  }

  lemma {:induction false} OneMoreIsSummarised(s: DeathDataSnapshot, completed: seq<Phase>, current: seq<Death>, d: Death)
    requires Summarises(s, completed, current)
    ensures Summarises(Recorded(s, Clamped(|current| + 1), d), completed, current + [d])
  {
    var before := Deaths(completed);
    ThreeParts(before, current, d);
    TotalsOfOneMore(before + current, d);
    TotalsOfOneMore(current, d);
    SampleOfOneMore(current, d);
    SampledIsThere(current, d);
    hide Sampled, RunSum, QueueSum, RunMax, QueueMax, Drawn, Deaths;
  }

  lemma {:induction false} ThreeParts(a: seq<Death>, b: seq<Death>, d: Death)
    ensures a + (b + [d]) == (a + b) + [d]
  {
  }

  lemma {:induction false} TotalsOfOneMore(deaths: seq<Death>, d: Death)
    ensures RunSum(deaths + [d]) == RunSum(deaths) + d.run && QueueSum(deaths + [d]) == QueueSum(deaths) + d.queue
    ensures RunMax(deaths + [d]) == Max(RunMax(deaths), d.run) && QueueMax(deaths + [d]) == Max(QueueMax(deaths), d.queue)
  {
    assert (deaths + [d])[..|deaths|] == deaths;
  }

  lemma {:induction false} SampledIsThere(current: seq<Death>, d: Death)
    ensures (current + [d])[|current|] == d
    ensures current != [] ==> (current + [d])[Sampled(current)] == current[Sampled(current)]
  {
    hide Sampled;
  }

  lemma {:induction false} SampleOfOneMore(current: seq<Death>, d: Death)
    ensures Sampled(current + [d])
            == if Drawn(d.random, Clamped(|current| + 1)) then |current| else Sampled(current)
    ensures current == [] ==> Drawn(d.random, Clamped(|current| + 1))
  {
    assert (current + [d])[..|current|] == current;
  }

  lemma {:induction false} OneMoreIsTallied(s: DeathDataSnapshot, sampleCount: int, chain: PhaseSnapshots, completed: seq<Phase>,
                         current: seq<Death>, d: Death)
    requires Tallies(s, sampleCount, chain, completed, current)
    ensures Raised(sampleCount) > 0
    ensures Tallies(Recorded(s, Raised(sampleCount), d), Raised(sampleCount), chain, completed, current + [d])
  {
    OneMoreIsSummarised(s, completed, current, d);
    hide Summarises, Chain, Drawn, Recorded;
  }

  lemma {:induction false} PhaseCompletes(s: DeathDataSnapshot, sampleCount: int, chain: PhaseSnapshots, completed: seq<Phase>,
                       current: seq<Death>, number: int)
    requires Tallies(s, sampleCount, chain, completed, current)
    ensures Tallies(s.(runMax := 0, queueMax := 0), 0, PhaseSnapshot(number, s, chain), completed + [Phase(number, current)], [])
  {
    var phase := Phase(number, current);
    CurrentIsLast(completed, phase, PhaseSnapshot(number, s, chain));
    assert (completed + [phase])[..|completed|] == completed;
    assert Deaths(completed + [phase]) + [] == Deaths(completed) + current;
    hide Chain;
  }

  lemma {:induction false} CurrentIsLast(completed: seq<Phase>, phase: Phase, chain: PhaseSnapshots)
    requires chain.PhaseSnapshot? && chain.phase == phase.number && Chain(chain.prev, completed)
    requires Summarises(chain.deathData, completed, phase.deaths)
    ensures Chain(chain, completed + [phase])
  {
    assert (completed + [phase])[..|completed|] == completed;
  }

  lemma {:induction false} NoReports(chain: PhaseSnapshots, phases: seq<Phase>)
    requires chain == NoSnapshot && Chain(chain, phases)
    ensures Reports(phases) == []
  {
  }

  lemma {:induction false} SumsOfBoth(a: seq<Death>, b: seq<Death>)
    ensures RunSum(a + b) == RunSum(a) + RunSum(b) && QueueSum(a + b) == QueueSum(a) + QueueSum(b)
    decreases |b|
  {
    if b == [] {
      assert a + b == a;
    } else {
      assert (a + b)[..|a + b| - 1] == a + b[..|b| - 1];
      SumsOfBoth(a, b[..|b| - 1]);
    }
  }

  /** A snapshot, as what was before its phase and what the phase added. */
  lemma {:induction false} SnapshotInTwo(s: DeathDataSnapshot, before: seq<Phase>, deaths: seq<Death>)
    requires Summarises(s, before, deaths)
    ensures s.count == Clamped(|Deaths(before)| + |deaths|)
    ensures s.runSum == RunSum(Deaths(before)) + RunSum(deaths)
    ensures s.queueSum == QueueSum(Deaths(before)) + QueueSum(deaths)
    ensures before == [] ==> |Deaths(before)| == 0 && RunSum(Deaths(before)) == 0 && QueueSum(Deaths(before)) == 0
  {
    hide Sampled, RunMax, QueueMax;
    SumsOfBoth(Deaths(before), deaths);
  }

  /** The snapshot before it holds exactly what was before. */
  lemma {:induction false} PreviousSnapshot(chain: PhaseSnapshots, before: seq<Phase>)
    requires Chain(chain, before) && before != []
    ensures chain.PhaseSnapshot?
    ensures chain.deathData.count == Clamped(|Deaths(before)|)
    ensures chain.deathData.runSum == RunSum(Deaths(before)) && chain.deathData.queueSum == QueueSum(Deaths(before))
  {
    hide Sampled, RunMax, QueueMax, RunSum, QueueSum;
  }

  function DeltaOf(chain: PhaseSnapshots): DeathDataSnapshot
    requires chain.PhaseSnapshot?
  {
    if chain.prev.PhaseSnapshot? then chain.deathData.Delta(chain.prev.deathData) else chain.deathData
  }

  lemma {:induction false} DeltaOfTotals(chain: PhaseSnapshots, before: seq<Phase>, deaths: seq<Death>)
    requires chain.PhaseSnapshot? && Summarises(chain.deathData, before, deaths) && Chain(chain.prev, before)
    ensures DeltaOf(chain).count == Clamped(|Deaths(before)| + |deaths|) - Clamped(|Deaths(before)|)
    ensures DeltaOf(chain).runSum == RunSum(deaths) && DeltaOf(chain).queueSum == QueueSum(deaths)
  {
    SnapshotInTwo(chain.deathData, before, deaths);
    assert before == [] <==> chain.prev == NoSnapshot;
    if before != [] {
      PreviousSnapshot(chain.prev, before);
    }
    hide Sampled, RunMax, QueueMax, RunSum, QueueSum, Deaths, Chain, Summarises;
  }

  lemma {:induction false} DeltaOfRest(chain: PhaseSnapshots, before: seq<Phase>, deaths: seq<Death>)
    requires chain.PhaseSnapshot? && Summarises(chain.deathData, before, deaths)
    ensures DeltaOf(chain).runMax == RunMax(deaths) && DeltaOf(chain).queueMax == QueueMax(deaths)
    ensures deaths != [] ==>
              DeltaOf(chain).runSample == deaths[Sampled(deaths)].run && DeltaOf(chain).queueSample == deaths[Sampled(deaths)].queue
  {
    hide Sampled, RunMax, QueueMax, RunSum, QueueSum, Deaths;
  }

  lemma {:induction false} LastOfChain(chain: PhaseSnapshots, phases: seq<Phase>)
    requires chain.PhaseSnapshot? && Chain(chain, phases)
    ensures phases != []
    ensures var last := |phases| - 1;
            && Chain(chain.prev, phases[..last]) && chain.phase == phases[last].number
            && Summarises(chain.deathData, phases[..last], phases[last].deaths)
  {
    hide Summarises;
  }

  lemma {:induction false} CounterMoves(before: nat, more: nat)
    ensures Clamped(before + more) - Clamped(before) > 0 <==> more > 0 && before < INT_MAX
  {
  }

  lemma {:induction false} LastReport(phases: seq<Phase>)
    requires phases != []
    ensures var before, phase := phases[..|phases| - 1], phases[|phases| - 1];
            Reports(phases)
            == (if phase.deaths != [] && |Deaths(before)| < INT_MAX then [TaskSnapshot(phase.number, Report(before, phase))] else [])
               + Reports(before)
  {
    hide Report, Deaths;
  }

  lemma {:induction false} ReportIs(before: seq<Phase>, phase: Phase, d: DeathDataSnapshot)
    requires phase.deaths != []
    requires d.count == Clamped(|Deaths(before)| + |phase.deaths|) - Clamped(|Deaths(before)|)
    requires d.runSum == RunSum(phase.deaths) && d.queueSum == QueueSum(phase.deaths)
    requires d.runMax == RunMax(phase.deaths) && d.queueMax == QueueMax(phase.deaths)
    requires d.runSample == phase.deaths[Sampled(phase.deaths)].run
    requires d.queueSample == phase.deaths[Sampled(phase.deaths)].queue
    ensures d == Report(before, phase)
  {
    hide Sampled, RunMax, QueueMax, RunSum, QueueSum, Deaths, Clamped;
  }

  /** The delta between two snapshots in the chain is the report on the later phase. */
  lemma {:induction false} DeltaIsReport(chain: PhaseSnapshots, phases: seq<Phase>)
    requires chain.PhaseSnapshot? && Chain(chain, phases)
    ensures phases != [] && Chain(chain.prev, phases[..|phases| - 1])
    ensures Reports(phases) == (if DeltaOf(chain).count > 0 then [TaskSnapshot(chain.phase, DeltaOf(chain))] else [])
                               + Reports(phases[..|phases| - 1])
  {
    hide *;
    LastOfChain(chain, phases);
    var before, phase := phases[..|phases| - 1], phases[|phases| - 1];
    DeltaOfTotals(chain, before, phase.deaths);
    DeltaOfRest(chain, before, phase.deaths);
    CounterMoves(|Deaths(before)|, |phase.deaths|);
    LastReport(phases);
    if phase.deaths != [] {
      ReportIs(before, phase, DeltaOf(chain));
    }
  }

  // ----- what the reports say -----------------------------------------------------------

  /** The maxima bound the durations of the phase, and are reached if none is negative. */
  lemma {:induction false} MaximaAreReached(deaths: seq<Death>) returns (i: nat, j: nat)
    requires deaths != [] && forall k :: 0 <= k < |deaths| ==> deaths[k].run >= 0 && deaths[k].queue >= 0
    ensures forall k :: 0 <= k < |deaths| ==> deaths[k].run <= RunMax(deaths) && deaths[k].queue <= QueueMax(deaths)
    ensures i < |deaths| && deaths[i].run == RunMax(deaths)
    ensures j < |deaths| && deaths[j].queue == QueueMax(deaths)
    decreases |deaths|
  {
    var last := |deaths| - 1;
    var init := deaths[..last];
    assert deaths[last].run >= 0 && deaths[last].queue >= 0;
    if init == [] {
      i, j := 0, 0;
    } else {
      i, j := MaximaAreReached(init);
      assert init[i] == deaths[i] && init[j] == deaths[j];
      if RunMax(init) <= deaths[last].run {
        i := last;
      }
      if QueueMax(init) <= deaths[last].queue {
        j := last;
      }
    }
  }

  function NonEmpty(phases: seq<Phase>): nat {
    if phases == [] then 0
    else NonEmpty(phases[..|phases| - 1]) + if phases[|phases| - 1].deaths != [] then 1 else 0
  }

  /** While at most INT_MAX deaths were recorded, there is a report for every phase with
      deaths and none for a phase without. */
  lemma {:induction false} NoDeathsNoReport(phases: seq<Phase>)
    requires |Deaths(phases)| <= INT_MAX
    ensures |Reports(phases)| == NonEmpty(phases)
    decreases |phases|
  {
    hide Report;
    if phases != [] {
      NoDeathsNoReport(phases[..|phases| - 1]);
      LastReport(phases);
    }
  }

  /** The report on phase i comes after those on the later phases, and its count is the number
      of deaths in the phase. */
  lemma {:induction false} ReportOfPhase(phases: seq<Phase>, i: nat)
    requires |Deaths(phases)| <= INT_MAX && i < |phases| && phases[i].deaths != []
    ensures Report(phases[..i], phases[i]).count == |phases[i].deaths|
    ensures var r := NonEmpty(phases) - 1 - NonEmpty(phases[..i]);
            0 <= r < |Reports(phases)| && Reports(phases)[r] == TaskSnapshot(phases[i].number, Report(phases[..i], phases[i]))
    decreases |phases|
  {
    var last := |phases| - 1;
    var before := phases[..last];
    NoDeathsNoReport(before);
    NoDeathsNoReport(phases);
    LastReport(phases);
    if i < last {
      ReportOfPhase(before, i);
      hide Report, Reports, Deaths;
      assert before[..i] == phases[..i] && before[i] == phases[i];
    } else {
      assert phases[..i] == before && Deaths(phases) == Deaths(before) + phases[i].deaths;
      CountOfReport(before, phases[i]);
      hide Report, Reports, Deaths;
    }
  }

  lemma CountOfReport(before: seq<Phase>, phase: Phase)
    requires phase.deaths != [] && |Deaths(before)| + |phase.deaths| <= INT_MAX
    ensures Report(before, phase).count == |phase.deaths|
  {
    hide Sampled, RunSum, QueueSum, RunMax, QueueMax;
  }
}
