/**
  base/lazy_instance.h and base/lazy_instance.cc: creation of an instance on first use, by
  whichever thread wins a compare-and-swap.

  Every atomic access is one step of one thread, and the steps of the threads interleave in
  any order. OnExit is a step of the whole program: it is run single threaded, so no thread
  may be inside Pointer() then. After it the instance can be created again; the lives of the
  instance are numbered.
*/
module LazyInstance {

  type Word = bv64

  /** kLazyInstanceStateCreating */
  const CREATING: Word := 1

  /** value & kLazyInstanceCreatedMask */
  predicate Created(value: Word) {
    value & !CREATING != 0
  }

  lemma CreatedIff(value: Word)
    ensures Created(value) <==> value != 0 && value != CREATING
  {
    MaskedIff(value);
  }

  lemma MaskedIff(value: bv64)
    ensures value & !1 != 0 <==> value != 0 && value != 1
  {
  }

  /** Where a thread is. */
  datatype Point =
    | Outside
    | Load                       // about to load the word, the fast path
    | CompareAndSwap
    | Spin                       // about to load the word again
    | Construct                  // won; about to run the constructor
    | Publish(instance: Word)    // the instance is built; about to store its address
    | Register                   // about to register the destructor
    | Return                     // about to load the word and return it

  /** What a call of Pointer() returned, and in which life of the instance. */
  datatype Result = Result(life: nat, instance: Word)

  /** The shared word, the threads, the instances built, one for each life that has one, the
      number of instances destroyed, the callbacks at the AtExitManager, and all results. */
  datatype State = State(word: Word, threads: seq<Point>, built: seq<Word>, destroyed: nat, callbacks: nat, results: seq<Result>)

  /** A step of a thread; Construct is given the address that Traits::New returns. */
  datatype Event =
    | Call(t: nat)
    | LoadWord(t: nat)
    | Swap(t: nat)
    | SpinOnce(t: nat)
    | RunConstructor(t: nat, address: Word)
    | Store(t: nat)
    | RegisterCallback(t: nat)
    | ReturnInstance(t: nat)
    | OnExit

  function At(s: State, t: nat, p: Point): State
    requires t < |s.threads|
  {
    s.(threads := s.threads[t := p])
  }

  predicate IsAt(s: State, t: nat, p: Point) {
    t < |s.threads| && s.threads[t] == p
  }

  /** When an event can happen. The constructor returns the address of an object, which is
      neither null nor the marker. */
  predicate Enabled(s: State, e: Event) {
    match e
    case Call(t) => IsAt(s, t, Outside)
    case LoadWord(t) => IsAt(s, t, Load)
    case Swap(t) => IsAt(s, t, CompareAndSwap)
    case SpinOnce(t) => IsAt(s, t, Spin)
    case RunConstructor(t, address) => IsAt(s, t, Construct) && Created(address)
    case Store(t) => t < |s.threads| && s.threads[t].Publish?
    case RegisterCallback(t) => IsAt(s, t, Register)
    case ReturnInstance(t) => IsAt(s, t, Return)
    case OnExit => s.callbacks > 0 && forall t :: 0 <= t < |s.threads| ==> s.threads[t] == Outside
  }

  /** registers is Traits::kRegisterOnExit. */
  function Step(s: State, e: Event, registers: bool): State
    requires Enabled(s, e)
  {
    match e
    case Call(t) => At(s, t, Load)
    case LoadWord(t) => At(s, t, if Created(s.word) then Return else CompareAndSwap)
    case Swap(t) => if s.word == 0 then At(s, t, Construct).(word := CREATING) else At(s, t, Spin)
    case SpinOnce(t) => if s.word == CREATING then s else At(s, t, Return)
    case RunConstructor(t, address) => At(s, t, Publish(address)).(built := s.built + [address])
    case Store(t) => At(s, t, if registers then Register else Return).(word := s.threads[t].instance)
    case RegisterCallback(t) => At(s, t, Return).(callbacks := s.callbacks + 1)
    case ReturnInstance(t) => At(s, t, Outside).(results := s.results + [Result(s.destroyed, s.word)])
    case OnExit => s.(word := 0, destroyed := s.destroyed + 1, callbacks := s.callbacks - 1)
  }

  function Initial(threads: nat): State {
    State(0, seq(threads, t => Outside), [], 0, 0, [])
  }

  ghost predicate Possible(s: State, events: seq<Event>, registers: bool)
    decreases |events|
  {
    events == [] || (Enabled(s, events[0]) && Possible(Step(s, events[0], registers), events[1..], registers))
  }

  function Run(s: State, events: seq<Event>, registers: bool): State
    requires Possible(s, events, registers)
    decreases |events|
  {
    if events == [] then s else Run(Step(s, events[0], registers), events[1..], registers)
  }

  // ----- the invariant ----------------------------------------------------------------

  predicate Building(p: Point) {
    p.Construct? || p.Publish?
  }

  /** What the point of a thread says of the shared state. */
  predicate PointOk(s: State, p: Point, registers: bool) {
    match p
    case Outside => true
    case Load => true
    case CompareAndSwap => true
    case Spin => s.word != 0
    case Construct => s.word == CREATING && |s.built| == s.destroyed
    case Publish(instance) => s.word == CREATING && |s.built| == s.destroyed + 1 && instance == s.built[s.destroyed]
    case Register => registers && Created(s.word) && s.callbacks == 0
    case Return => Created(s.word)
  }

  /** At most one thread is between winning the swap and publishing. */
  ghost predicate OneBuilds(s: State) {
    forall t, u :: 0 <= t < u < |s.threads| ==> !(Building(s.threads[t]) && Building(s.threads[u]))
  }

  ghost predicate OneRegisters(s: State) {
    forall t, u :: 0 <= t < u < |s.threads| ==> !(s.threads[t].Register? && s.threads[u].Register?)
  }

  ghost predicate Someone(s: State, building: bool) {
    exists t :: 0 <= t < |s.threads| && if building then Building(s.threads[t]) else s.threads[t].Register?
  }

  /** The life that is current has an instance exactly once the word says so, or its builder
      is about to say so; it is destroyed exactly once, when its one callback runs. */
  ghost predicate Inv(s: State, registers: bool) {
    && (forall t :: 0 <= t < |s.threads| ==> PointOk(s, s.threads[t], registers))
    && OneBuilds(s) && OneRegisters(s)
    && (s.word == CREATING <==> Someone(s, true))
    && s.destroyed <= |s.built| <= s.destroyed + 1
    && (s.word == 0 ==> |s.built| == s.destroyed)
    && (Created(s.word) ==> |s.built| == s.destroyed + 1 && s.word == s.built[s.destroyed])
    && (forall i :: 0 <= i < |s.built| ==> Created(s.built[i]))
    && (forall i :: 0 <= i < |s.results| ==>
        s.results[i].life < |s.built| && s.results[i].instance == s.built[s.results[i].life])
    && s.callbacks <= 1
    && (s.callbacks == 1 ==> registers && Created(s.word))
    && (Created(s.word) && registers ==> s.callbacks == 1 || Someone(s, false))
  }

  lemma InitialInv(threads: nat, registers: bool)
    ensures Inv(Initial(threads), registers)
  {
    CreatedIff(0);
  }

  lemma CallKeepsInv(s: State, t: nat, registers: bool)
    requires Inv(s, registers) && Enabled(s, Call(t))
    ensures Inv(Step(s, Call(t), registers), registers)
  {
    MovingKeepsWitnesses(s, t, Load);
    hide OneBuilds, OneRegisters, Someone;
  }

  /** A thread that moves without becoming or ceasing to be a builder or registrar. */
  lemma MovingKeepsWitnesses(s: State, t: nat, p: Point)
    requires t < |s.threads| && Building(p) == Building(s.threads[t]) && p.Register? == s.threads[t].Register?
    ensures Someone(At(s, t, p), true) == Someone(s, true) && Someone(At(s, t, p), false) == Someone(s, false)
    ensures OneBuilds(s) ==> OneBuilds(At(s, t, p))
    ensures OneRegisters(s) ==> OneRegisters(At(s, t, p))
  {
    var n := At(s, t, p);
    assert forall u :: 0 <= u < |s.threads| && u != t ==> n.threads[u] == s.threads[u];
    forall b: bool ensures Someone(n, b) == Someone(s, b) {
      if Someone(s, b) {
        var u :| 0 <= u < |s.threads| && if b then Building(s.threads[u]) else s.threads[u].Register?;
        assert if b then Building(n.threads[u]) else n.threads[u].Register?;
      }
      if Someone(n, b) {
        var u :| 0 <= u < |n.threads| && if b then Building(n.threads[u]) else n.threads[u].Register?;
        assert if b then Building(s.threads[u]) else s.threads[u].Register?;
      }
    }
  }

  lemma LoadKeepsInv(s: State, t: nat, registers: bool)
    requires Inv(s, registers) && Enabled(s, LoadWord(t))
    ensures Inv(Step(s, LoadWord(t), registers), registers)
  {
    MovingKeepsWitnesses(s, t, Return);
    MovingKeepsWitnesses(s, t, CompareAndSwap);
    hide OneBuilds, OneRegisters, Someone;
  }

  lemma SwapKeepsInv(s: State, t: nat, registers: bool)
    requires Inv(s, registers) && Enabled(s, Swap(t))
    ensures Inv(Step(s, Swap(t), registers), registers)
  {
    CreatedIff(s.word);
    CreatedIff(CREATING);
    if s.word == 0 {
      var n := Step(s, Swap(t), registers);
      assert n.threads[t] == Construct;
      assert Someone(n, true);
      assert forall u :: 0 <= u < |s.threads| && u != t ==> n.threads[u] == s.threads[u];
      assert forall u :: 0 <= u < |s.threads| && Building(s.threads[u]) ==> Someone(s, true);
    } else {
      MovingKeepsWitnesses(s, t, Spin);
    }
  }

  lemma SpinKeepsInv(s: State, t: nat, registers: bool)
    requires Inv(s, registers) && Enabled(s, SpinOnce(t))
    ensures Inv(Step(s, SpinOnce(t), registers), registers)
  {
    CreatedIff(s.word);
    assert PointOk(s, s.threads[t], registers);
    MovingKeepsWitnesses(s, t, Return);
  }

  lemma ConstructKeepsInv(s: State, t: nat, address: Word, registers: bool)
    requires Inv(s, registers) && Enabled(s, RunConstructor(t, address))
    ensures Inv(Step(s, RunConstructor(t, address), registers), registers)
  {
    CreatedIff(s.word);
    assert PointOk(s, s.threads[t], registers);
    MovingKeepsWitnesses(s, t, Publish(address));
    var n := Step(s, RunConstructor(t, address), registers);
    forall u | 0 <= u < |n.threads| ensures PointOk(n, n.threads[u], registers) {
      if u != t {
        assert n.threads[u] == s.threads[u] && PointOk(s, s.threads[u], registers);
        assert !Building(s.threads[u]);
      }
    }
  }

  lemma StoreKeepsInv(s: State, t: nat, registers: bool)
    requires Inv(s, registers) && Enabled(s, Store(t))
    ensures Inv(Step(s, Store(t), registers), registers)
  {
    CreatedIff(s.word);
    assert PointOk(s, s.threads[t], registers);
    var n := Step(s, Store(t), registers);
    CreatedIff(n.word);
    assert n.word == s.built[s.destroyed];
    forall u | 0 <= u < |n.threads| && u != t
      ensures PointOk(n, n.threads[u], registers) && !Building(n.threads[u]) && !n.threads[u].Register?
    {
      assert n.threads[u] == s.threads[u] && PointOk(s, s.threads[u], registers);
    }
    assert !Someone(n, true);
    assert registers ==> n.threads[t].Register?;
    assert registers ==> Someone(n, false);
  }

  lemma RegisterKeepsInv(s: State, t: nat, registers: bool)
    requires Inv(s, registers) && Enabled(s, RegisterCallback(t))
    ensures Inv(Step(s, RegisterCallback(t), registers), registers)
  {
    CreatedIff(s.word);
    assert PointOk(s, s.threads[t], registers);
    var n := Step(s, RegisterCallback(t), registers);
    NobodyBuilds(s);
    forall u | 0 <= u < |n.threads| && u != t
      ensures PointOk(n, n.threads[u], registers) && !Building(n.threads[u]) && !n.threads[u].Register?
    {
      assert n.threads[u] == s.threads[u] && PointOk(s, s.threads[u], registers);
    }
    assert !Someone(n, true);
  }

  lemma NobodyBuilds(s: State)
    requires !Someone(s, true)
    ensures forall u :: 0 <= u < |s.threads| ==> !Building(s.threads[u])
  {
    forall u | 0 <= u < |s.threads| ensures !Building(s.threads[u]) {
      if Building(s.threads[u]) {
        assert Someone(s, true);
      }
    }
  }

  lemma ReturnKeepsInv(s: State, t: nat, registers: bool)
    requires Inv(s, registers) && Enabled(s, ReturnInstance(t))
    ensures Inv(Step(s, ReturnInstance(t), registers), registers)
  {
    assert PointOk(s, s.threads[t], registers);
    MovingKeepsWitnesses(s, t, Outside);
    hide OneBuilds, OneRegisters, Someone;
  }

  lemma OnExitKeepsInv(s: State, registers: bool)
    requires Inv(s, registers) && Enabled(s, OnExit)
    ensures Inv(Step(s, OnExit, registers), registers)
  {
    CreatedIff(0);
  }

  lemma StepKeepsInv(s: State, e: Event, registers: bool)
    requires Inv(s, registers) && Enabled(s, e)
    ensures Inv(Step(s, e, registers), registers)
  {
    hide Inv, Step, Enabled;
    match e
    case Call(t) => CallKeepsInv(s, t, registers);
    case LoadWord(t) => LoadKeepsInv(s, t, registers);
    case Swap(t) => SwapKeepsInv(s, t, registers);
    case SpinOnce(t) => SpinKeepsInv(s, t, registers);
    case RunConstructor(t, address) => ConstructKeepsInv(s, t, address, registers);
    case Store(t) => StoreKeepsInv(s, t, registers);
    case RegisterCallback(t) => RegisterKeepsInv(s, t, registers);
    case ReturnInstance(t) => ReturnKeepsInv(s, t, registers);
    case OnExit => OnExitKeepsInv(s, registers);
  }

  lemma {:induction false} RunKeepsInv(s: State, events: seq<Event>, registers: bool)
    requires Inv(s, registers) && Possible(s, events, registers)
    ensures Inv(Run(s, events, registers), registers)
    decreases |events|
  {
    hide Inv, Step, Enabled;
    if events != [] {
      StepKeepsInv(s, events[0], registers);
      RunKeepsInv(Step(s, events[0], registers), events[1..], registers);
    }
  }

  // ----- the main results --------------------------------------------------------------

  function Constructions(events: seq<Event>): nat {
    if events == [] then 0 else (if events[0].RunConstructor? then 1 else 0) + Constructions(events[1..])
  }

  function Exits(events: seq<Event>): nat {
    if events == [] then 0 else (if events[0].OnExit? then 1 else 0) + Exits(events[1..])
  }

  function Registrations(events: seq<Event>): nat {
    if events == [] then 0 else (if events[0].RegisterCallback? then 1 else 0) + Registrations(events[1..])
  }

  lemma {:induction false} RunCounts(s: State, events: seq<Event>, registers: bool)
    requires Possible(s, events, registers)
    ensures var r := Run(s, events, registers);
            && |r.built| == |s.built| + Constructions(events) && r.destroyed == s.destroyed + Exits(events)
            && r.callbacks + Exits(events) == s.callbacks + Registrations(events)
            && |r.threads| == |s.threads|
    decreases |events|
  {
    if events != [] {
      RunCounts(Step(s, events[0], registers), events[1..], registers);
    }
  }

  /** However many threads and whatever the interleaving: the constructor runs once for each
      life that any call of Pointer() returned from, never a second time before OnExit, and
      every call that returned in one life returned the same built instance. */
  lemma ConstructedOnce(threads: nat, events: seq<Event>, registers: bool)
    requires Possible(Initial(threads), events, registers)
    ensures var r := Run(Initial(threads), events, registers);
            && Exits(events) <= Constructions(events) <= Exits(events) + 1
            && |r.built| == Constructions(events)
            && (forall i :: 0 <= i < |r.results| ==>
                r.results[i].life < Constructions(events) && r.results[i].instance == r.built[r.results[i].life])
            && (forall i, j :: 0 <= i < |r.results| && 0 <= j < |r.results| && r.results[i].life == r.results[j].life ==>
                r.results[i].instance == r.results[j].instance)
            && (Exits(events) == 0 && r.results != [] ==> Constructions(events) == 1)
  {
    InitialInv(threads, registers);
    RunKeepsInv(Initial(threads), events, registers);
    RunCounts(Initial(threads), events, registers);
    var r := Run(Initial(threads), events, registers);
    if r.results != [] {
      assert r.results[0].life < |r.built|;
    }
  }

  /** At most one thread is between winning the compare-and-swap and publishing, and exactly
      then the word holds the marker. */
  lemma OneThreadBuilds(threads: nat, events: seq<Event>, registers: bool, t: nat, u: nat)
    requires Possible(Initial(threads), events, registers) && t < threads && u < threads
    ensures var r := Run(Initial(threads), events, registers);
            && |r.threads| == threads
            && (Building(r.threads[t]) && Building(r.threads[u]) ==> t == u)
            && (Building(r.threads[t]) ==> r.word == CREATING)
  {
    InitialInv(threads, registers);
    RunKeepsInv(Initial(threads), events, registers);
    RunCounts(Initial(threads), events, registers);
    var r := Run(Initial(threads), events, registers);
    assert PointOk(r, r.threads[t], registers);
  }

  /** Once no thread is inside Pointer(), every instance that was built and not destroyed has
      its one callback, and with no registration at exit it is never destroyed. */
  lemma DestroyedOnce(threads: nat, events: seq<Event>, registers: bool)
    requires Possible(Initial(threads), events, registers)
    requires var r := Run(Initial(threads), events, registers);
             forall t :: 0 <= t < |r.threads| ==> r.threads[t] == Outside
    ensures registers ==> Constructions(events) == Registrations(events)
    ensures !registers ==> Exits(events) == 0 && Constructions(events) <= 1
  {
    InitialInv(threads, registers);
    RunKeepsInv(Initial(threads), events, registers);
    RunCounts(Initial(threads), events, registers);
    CreatedIff(Run(Initial(threads), events, registers).word);
    if !registers {
      NoExitUnregistered(Initial(threads), events);
    }
  }

  lemma {:induction false} NoExitUnregistered(s: State, events: seq<Event>)
    requires Inv(s, false) && Possible(s, events, false)
    ensures Exits(events) == 0
    decreases |events|
  {
    hide Step, OneBuilds, OneRegisters, Someone, PointOk;
    if events != [] {
      StepKeepsInv(s, events[0], false);
      NoExitUnregistered(Step(s, events[0], false), events[1..]);
    }
  }

  // ----- progress ------------------------------------------------------------------------

  /** Steps still to take before a thread returns, not counting those that only spin. */
  function Distance(p: Point): nat {
    match p
    case Outside => 0
    case Load => 6
    case CompareAndSwap => 5
    case Construct => 4
    case Publish(_) => 3
    case Register => 2
    case Spin => 2
    case Return => 1
  }

  function Total(threads: seq<Point>): nat {
    if threads == [] then 0 else Distance(threads[0]) + Total(threads[1..])
  }

  lemma {:induction false} TotalOfUpdate(threads: seq<Point>, t: nat, p: Point)
    requires t < |threads|
    ensures Total(threads[t := p]) == Total(threads) - Distance(threads[t]) + Distance(p)
    decreases |threads|
  {
    if t > 0 {
      assert threads[t := p][1..] == threads[1..][t - 1 := p];
      TotalOfUpdate(threads[1..], t - 1, p);
    }
  }

  /** Every step but a call and an idle turn of the spin loop brings some thread nearer. */
  lemma StepsGetNearer(s: State, e: Event, registers: bool)
    requires Enabled(s, e) && !e.Call? && !e.OnExit? && !(e.SpinOnce? && s.word == CREATING)
    ensures Total(Step(s, e, registers).threads) < Total(s.threads)
  {
    TotalOfUpdate(s.threads, e.t, Step(s, e, registers).threads[e.t]);
  }

  /** While any thread is inside Pointer(), a step that brings a thread nearer is enabled.
      That it is taken in the end is up to the scheduler. */
  lemma SomeoneCanAdvance(s: State, t: nat, registers: bool) returns (e: Event)
    requires Inv(s, registers) && t < |s.threads| && s.threads[t] != Outside
    ensures Enabled(s, e) && !e.Call? && !e.OnExit? && !(e.SpinOnce? && s.word == CREATING)
  {
    var u := t;
    if s.threads[t].Spin? && s.word == CREATING {
      u := BuilderExists(s, registers);
    }
    hide Inv;
    CreatedIff(2);
    e := match s.threads[u] {
      case Outside => Call(u)
      case Load => LoadWord(u)
      case CompareAndSwap => Swap(u)
      case Spin => SpinOnce(u)
      case Construct => RunConstructor(u, 2)
      case Publish(_) => Store(u)
      case Register => RegisterCallback(u)
      case Return => ReturnInstance(u)
    };
  }

  lemma {:induction false} BuilderExists(s: State, registers: bool) returns (u: nat)
    requires Inv(s, registers) && s.word == CREATING
    ensures u < |s.threads| && Building(s.threads[u])
  {
    hide PointOk, OneBuilds, OneRegisters;
    assert Someone(s, true);
    u :| 0 <= u < |s.threads| && Building(s.threads[u]);
  }

  // ----- a fair scheduler ------------------------------------------------------------------

  /** Steps still to take before the word names an instance. */
  ghost function Pending(word: Word, threads: seq<Point>): nat {
    if word == 0 then 5
    else if word != CREATING then 0
    else if exists u :: 0 <= u < |threads| && threads[u].Construct? then 4
    else 3
  }

  ghost function Wait(s: State, t: nat): nat
    requires t < |s.threads|
  {
    Distance(s.threads[t]) + Pending(s.word, s.threads)
  }

  predicate HasTurn(es: seq<Event>, u: nat) {
    exists i :: 0 <= i < |es| && !es[i].OnExit? && es[i].t == u
  }

  /** Every thread that is inside Pointer() at the beginning takes a step, if only to spin. */
  ghost predicate Fair(s: State, es: seq<Event>) {
    forall u :: 0 <= u < |s.threads| && s.threads[u] != Outside ==> HasTurn(es, u)
  }

  /** The run falls into this many stretches one after another, each of them fair. */
  ghost predicate FairStretches(s: State, stretches: seq<seq<Event>>, registers: bool)
    decreases |stretches|
  {
    stretches == [] ||
    (Possible(s, stretches[0], registers) && Fair(s, stretches[0])
     && FairStretches(Run(s, stretches[0], registers), stretches[1..], registers))
  }

  /** A step leaves the other threads where they are, and while one of them is inside there is
      no exit. */
  lemma OthersStay(s: State, e: Event, t: nat, registers: bool)
    requires Enabled(s, e) && t < |s.threads| && s.threads[t] != Outside
    ensures !e.OnExit? && e.t < |s.threads| == |Step(s, e, registers).threads|
    ensures forall u :: 0 <= u < |s.threads| && u != e.t ==> Step(s, e, registers).threads[u] == s.threads[u]
  {
  }

  lemma MovingKeepsPending(word: Word, threads: seq<Point>, t: nat, p: Point)
    requires t < |threads| && !p.Construct? && !threads[t].Construct?
    ensures Pending(word, threads[t := p]) == Pending(word, threads)
  {
    var n := threads[t := p];
    if u :| 0 <= u < |threads| && threads[u].Construct? {
      assert n[u].Construct?;
    }
    if u :| 0 <= u < |n| && n[u].Construct? {
      assert threads[u].Construct?;
    }
  }

  lemma ConstructionIsNearer(s: State, t: nat, address: Word, registers: bool)
    requires Inv(s, registers) && Enabled(s, RunConstructor(t, address))
    ensures var n := Step(s, RunConstructor(t, address), registers);
            Pending(s.word, s.threads) == 4 && Pending(n.word, n.threads) == 3
  {
    var n := Step(s, RunConstructor(t, address), registers);
    assert s.threads[t].Construct? && PointOk(s, s.threads[t], registers);
    assert forall u :: 0 <= u < |s.threads| && u != t ==> !Building(s.threads[u]) && n.threads[u] == s.threads[u];
  }

  lemma StoreIsNearer(s: State, t: nat, registers: bool)
    requires Inv(s, registers) && Enabled(s, Store(t))
    ensures var n := Step(s, Store(t), registers);
            Pending(s.word, s.threads) >= 3 && Pending(n.word, n.threads) == 0
  {
    assert PointOk(s, s.threads[t], registers);
    assert Created(s.built[s.destroyed]);
    CreatedIff(s.built[s.destroyed]);
  }

  lemma OthersAreNoFurther(s: State, e: Event, registers: bool)
    requires Enabled(s, e) && !e.OnExit? && !e.RunConstructor? && !e.Store?
    ensures var n := Step(s, e, registers);
            && !Building(s.threads[e.t]) && Pending(n.word, n.threads) <= Pending(s.word, s.threads)
            && (n.word != s.word ==> Pending(n.word, n.threads) < Pending(s.word, s.threads))
  {
    hide Created;
    var n := Step(s, e, registers);
    if n.word == s.word && n != s {
      assert n.threads == s.threads[e.t := n.threads[e.t]];
      MovingKeepsPending(s.word, s.threads, e.t, n.threads[e.t]);
      hide Pending;
    }
  }

  /** The instance never gets further away; every step of the builder brings it nearer, and so
      does winning the swap. */
  lemma PendingFalls(s: State, e: Event, registers: bool)
    requires Inv(s, registers) && Enabled(s, e) && !e.OnExit?
    ensures var n := Step(s, e, registers);
            && Pending(n.word, n.threads) <= Pending(s.word, s.threads)
            && (Building(s.threads[e.t]) || n.word != s.word ==> Pending(n.word, n.threads) < Pending(s.word, s.threads))
  {
    hide Inv, Step, Pending;
    if e.RunConstructor? {
      ConstructionIsNearer(s, e.t, e.address, registers);
    } else if e.Store? {
      StoreIsNearer(s, e.t, registers);
    } else {
      OthersAreNoFurther(s, e, registers);
    }
  }

  /** A thread stands idle while it spins and the instance is being created. */
  predicate Idle(s: State, t: nat)
    requires t < |s.threads|
  {
    s.threads[t].Spin? && s.word == CREATING
  }

  /** Until t returns its wait never grows; a step of its own that is not an idle turn
      shortens it, and so does one of the builder. */
  lemma WaitFalls(s: State, e: Event, t: nat, registers: bool)
    requires Inv(s, registers) && Enabled(s, e) && t < |s.threads| && s.threads[t] != Outside && e != ReturnInstance(t)
    ensures var n := Step(s, e, registers);
            && t < |n.threads| && n.threads[t] != Outside && Wait(n, t) <= Wait(s, t)
            && (Building(s.threads[e.t]) || n.word != s.word || (e.t == t && !Idle(s, t)) ==> Wait(n, t) < Wait(s, t))
  {
    OthersStay(s, e, t, registers);
    PendingFalls(s, e, registers);
    hide Inv, Pending, Building, PointOk, Created;
    if e.t == t && e != ReturnInstance(t) {
      OwnStep(s, e, registers);
    }
  }

  lemma OwnStep(s: State, e: Event, registers: bool)
    requires Enabled(s, e) && !e.OnExit? && s.threads[e.t] != Outside && e != ReturnInstance(e.t)
    ensures var p, q := s.threads[e.t], Step(s, e, registers).threads[e.t];
            q != Outside && if Idle(s, e.t) then q == p else Distance(q) < Distance(p)
  {
    hide Created;
    match e
    case LoadWord(t) => assert Step(s, e, registers).threads[t] in {Return, CompareAndSwap};
    case Swap(t) => assert Step(s, e, registers).threads[t] in {Construct, Spin};
    case _ =>
  }

  lemma {:induction false} WaitNeverGrows(s: State, es: seq<Event>, t: nat, registers: bool)
    requires Inv(s, registers) && Possible(s, es, registers)
    requires t < |s.threads| && s.threads[t] != Outside && ReturnInstance(t) !in es
    ensures var n := Run(s, es, registers);
            Inv(n, registers) && t < |n.threads| && n.threads[t] != Outside && Wait(n, t) <= Wait(s, t)
    decreases |es|
  {
    if es != [] {
      assert es[0] != ReturnInstance(t);
      StepKeepsInv(s, es[0], registers);
      WaitFalls(s, es[0], t, registers);
      hide Inv, Step, Enabled, Wait;
      WaitNeverGrows(Step(s, es[0], registers), es[1..], t, registers);
    }
  }

  /** A turn of thread u counts: u is the builder, or it is t itself and does not stand idle. */
  predicate Counts(s: State, t: nat, u: nat)
    requires t < |s.threads| && u < |s.threads|
  {
    Building(s.threads[u]) || (u == t && !Idle(s, t))
  }

  lemma {:induction false} TurnShortens(s: State, es: seq<Event>, t: nat, u: nat, registers: bool)
    requires Inv(s, registers) && Possible(s, es, registers)
    requires t < |s.threads| && s.threads[t] != Outside && ReturnInstance(t) !in es
    requires u < |s.threads| && Counts(s, t, u) && HasTurn(es, u)
    ensures var n := Run(s, es, registers); t < |n.threads| && Wait(n, t) < Wait(s, t)
    decreases |es|
  {
    var e, n := es[0], Step(s, es[0], registers);
    assert e != ReturnInstance(t);
    StepKeepsInv(s, e, registers);
    WaitFalls(s, e, t, registers);
    OthersStay(s, e, t, registers);
    if Wait(n, t) < Wait(s, t) {
      hide Inv, Step, Enabled, Wait;
      WaitNeverGrows(n, es[1..], t, registers);
    } else {
      TurnIsLater(es, u);
      hide Inv, Enabled, Wait;
      TurnShortens(n, es[1..], t, u, registers);
    }
  }

  lemma TurnIsLater(es: seq<Event>, u: nat)
    requires es != [] && HasTurn(es, u) && (es[0].OnExit? || es[0].t != u)
    ensures HasTurn(es[1..], u)
  {
    var i :| 0 <= i < |es| && !es[i].OnExit? && es[i].t == u;
    assert es[1..][i - 1] == es[i];
  }

  /** A fair stretch shortens the wait of every thread that does not return in it. */
  lemma FairStretchShortens(s: State, es: seq<Event>, t: nat, registers: bool)
    requires Inv(s, registers) && Possible(s, es, registers) && Fair(s, es)
    requires t < |s.threads| && s.threads[t] != Outside && ReturnInstance(t) !in es
    ensures var n := Run(s, es, registers);
            Inv(n, registers) && t < |n.threads| && n.threads[t] != Outside && Wait(n, t) < Wait(s, t)
  {
    WaitNeverGrows(s, es, t, registers);
    var u := t;
    if Idle(s, t) {
      u := BuilderExists(s, registers);
    }
    hide Inv;
    TurnShortens(s, es, t, u, registers);
  }

  /** Whatever other threads call meanwhile, a thread inside Pointer() returns within as many
      fair stretches as its wait counts. */
  lemma {:induction false} ReturnsWithinWait(s: State, stretches: seq<seq<Event>>, t: nat, registers: bool)
    requires Inv(s, registers) && FairStretches(s, stretches, registers)
    requires t < |s.threads| && s.threads[t] != Outside && |stretches| >= Wait(s, t)
    ensures exists i :: 0 <= i < |stretches| && ReturnInstance(t) in stretches[i]
    decreases |stretches|
  {
    if ReturnInstance(t) !in stretches[0] {
      FairStretchShortens(s, stretches[0], t, registers);
      hide Inv, Wait, Fair, Possible, Run;
      ReturnsWithinWait(Run(s, stretches[0], registers), stretches[1..], t, registers);
      var i :| 0 <= i < |stretches[1..]| && ReturnInstance(t) in stretches[1..][i];
      assert stretches[i + 1] == stretches[1..][i];
    }
  }

  lemma WaitIsShort(s: State, t: nat)
    requires t < |s.threads|
    ensures Wait(s, t) <= 11
  {
  }

  /** Nobody spins for ever under a fair scheduler: in every run, eleven fair stretches are
      enough for any call to return. */
  lemma EveryCallReturns(threads: nat, events: seq<Event>, stretches: seq<seq<Event>>, t: nat, registers: bool)
    requires Possible(Initial(threads), events, registers)
    requires var s := Run(Initial(threads), events, registers);
             t < |s.threads| && s.threads[t] != Outside && FairStretches(s, stretches, registers) && |stretches| >= 11
    ensures exists i :: 0 <= i < |stretches| && ReturnInstance(t) in stretches[i]
  {
    InitialInv(threads, registers);
    RunKeepsInv(Initial(threads), events, registers);
    WaitIsShort(Run(Initial(threads), events, registers), t);
    hide Inv, Wait, FairStretches, Possible, Run;
    ReturnsWithinWait(Run(Initial(threads), events, registers), stretches, t, registers);
  }
}
