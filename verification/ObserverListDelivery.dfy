/**
  base/observer_list_threadsafe.h: whom a posted task calls. A pass calls every observer that
  keeps its slot exactly once, and one that is out of its reach exactly if it comes into reach.
*/
module ObserverListDelivery {
  import opened Common
  import opened ObserverListThreadSafe
  import L = ObserverList

  // ----- continuing a run ---------------------------------------------------------------

  function After(s: State, e: Event): State {
    if Enabled(s, e) then Step(s, e) else s
  }

  function RunFrom(s: State, xs: seq<Event>): State
    decreases |xs|
  {
    if xs == [] then s else RunFrom(After(s, xs[0]), xs[1..])
  }

  lemma AfterKeepsInv(s: State, e: Event)
    requires Inv(s)
    ensures Inv(After(s, e)) && After(s, e).kind == s.kind
  {
    if Enabled(s, e) {
      StepKeepsInv(s, e);
      StepKeepsKind(s, e);
    }
  }

  lemma StepKeepsKind(s: State, e: Event)
    requires Enabled(s, e)
    ensures Step(s, e).kind == s.kind
  {
    match e {
      case Notify(t) => NotifyKeepsStacks(s, t);
      case DestroyList => DestroyListKeepsKind(s);
      case NextObserver(t) => NextObserverKeepsOthers(s, t);
      case _ =>
    }
    hide NotifyStep, DestroyListStep, NextObserverStep, L.Removed, L.Added, Stack, Top;
  }

  lemma NotifyKeepsStacks(s: State, t: ThreadId)
    ensures NotifyStep(s, t).kind == s.kind && NotifyStep(s, t).stacks == s.stacks
  {
  }

  lemma DestroyListKeepsKind(s: State)
    ensures DestroyListStep(s).kind == s.kind
  {
  }

  lemma ReplaceKeepsOthers(s: State, t: ThreadId, f: Frame)
    requires Stack(s, t) != []
    ensures Replace(s, t, f).kind == s.kind && Replace(s, t, f).lists == s.lists
    ensures forall u :: u != t ==> Stack(Replace(s, t, f), u) == Stack(s, u)
  {
  }

  lemma NextObserverKeepsOthers(s: State, t: ThreadId)
    requires Top(Stack(s, t)).Iterating?
    ensures NextObserverStep(s, t).kind == s.kind && NextObserverStep(s, t).lists == s.lists
    ensures forall u :: u != t ==> Stack(NextObserverStep(s, t), u) == Stack(s, u)
  {
    var f := Top(Stack(s, t));
    if f.c in s.heap {
      var x := s.heap[f.c];
      var r := L.Next(x.slots, f.index, f.maxIndex);
      hide L.Next, L.Compacted;
      ReplaceKeepsOthers(s, t, Calling(f.c, r.1, f.maxIndex));
      ReplaceKeepsOthers(Write(s, f.c, if x.depth == 1 then L.Compacted(x.slots) else x.slots, Max(x.depth - 1, 0)), t,
                         Leaving(f.c));
      hide Replace, Top;
    }
  }

  // ----- a pass in progress -------------------------------------------------------------

  /** Frame d of thread t is a pass over context c. */
  predicate InPassAt(s: State, t: ThreadId, d: nat, c: Address) {
    && d < |Stack(s, t)|
    && var f := Stack(s, t)[d]; (f.Entered? || f.Iterating? || f.Calling?) && f.c == c
  }

  /** The pass has just come to its end. */
  predicate PassOver(s: State, t: ThreadId, d: nat, c: Address) {
    |Stack(s, t)| == d + 1 && Stack(s, t)[d] == Leaving(c)
  }

  predicate Begun(s: State, t: ThreadId, d: nat, c: Address)
    requires InPassAt(s, t, d, c)
  {
    !Stack(s, t)[d].Entered?
  }

  function IndexAt(s: State, t: ThreadId, d: nat, c: Address): nat
    requires InPassAt(s, t, d, c)
  {
    if Stack(s, t)[d].Entered? then 0 else Stack(s, t)[d].index
  }

  /** The event is the step of this pass to its next observer. */
  predicate Advances(s: State, e: Event, t: ThreadId, d: nat) {
    e == NextObserver(t) && Enabled(s, e) && |Stack(s, t)| == d + 1
  }

  /** The step calls obs. */
  predicate CallsIt(s: State, e: Event, t: ThreadId, d: nat, obs: L.Observer) {
    && Advances(s, e, t, d)
    && var f := Top(Stack(s, t)); f.c in s.heap && L.Next(s.heap[f.c].slots, f.index, f.maxIndex).0 == Some(obs)
  }

  /** How often the pass calls obs. */
  function Calls(s: State, xs: seq<Event>, t: ThreadId, d: nat, obs: L.Observer): nat
    decreases |xs|
  {
    if xs == [] then 0
    else (if CallsIt(s, xs[0], t, d, obs) then 1 else 0) + Calls(After(s, xs[0]), xs[1..], t, d, obs)
  }

  /** The pass is in progress until the last of the events. */
  predicate During(s: State, xs: seq<Event>, t: ThreadId, d: nat, c: Address)
    decreases |xs|
  {
    xs == [] || (InPassAt(s, t, d, c) && During(After(s, xs[0]), xs[1..], t, d, c))
  }

  /** Thread t does not remove obs. */
  predicate NotRemoved(s: State, xs: seq<Event>, t: ThreadId, obs: L.Observer)
    decreases |xs|
  {
    xs == [] || (!Removes(s, xs[0], t, obs) && NotRemoved(After(s, xs[0]), xs[1..], t, obs))
  }

  /** The step by which thread t adds obs to context c. */
  predicate AddsTo(s: State, e: Event, t: ThreadId, c: Address, obs: L.Observer) {
    Adds(s, e, t, obs) && Top(Stack(s, t)).c == c
  }

  /** One of the events adds obs to context c. */
  predicate AddedDuring(s: State, xs: seq<Event>, t: ThreadId, c: Address, obs: L.Observer)
    decreases |xs|
  {
    xs != [] && (AddsTo(s, xs[0], t, c, obs) || AddedDuring(After(s, xs[0]), xs[1..], t, c, obs))
  }

  /** The number of slots is a size_t, as that of any vector is. */
  predicate Fits(s: State, xs: seq<Event>, c: Address)
    decreases |xs|
  {
    && (c in s.heap ==> |s.heap[c].slots| <= SIZE_MAX)
    && (xs == [] || Fits(After(s, xs[0]), xs[1..], c))
  }

  // ----- a step seen from a pass ------------------------------------------------------------

  /** Frame d of thread t stays. */
  predicate FrameStays(s: State, n: State, t: ThreadId, d: nat) {
    d < |Stack(s, t)| && d < |Stack(n, t)| && Stack(n, t)[d] == Stack(s, t)[d]
  }

  /** The slots of context c after event e: each is as it was, or has lost an observer that is
      removed; a new one holds an observer that is added. */
  predicate SlotsKept(s: State, n: State, e: Event, t: ThreadId, c: Address) {
    && c in s.heap && c in n.heap && n.heap[c].thread == s.heap[c].thread
    && var x, y := s.heap[c].slots, n.heap[c].slots;
       && |x| <= |y|
       && (forall j :: 0 <= j < |x| && y[j] != x[j] ==> y[j] == None && x[j].Some? && Removes(s, e, t, x[j].value))
       && (forall j :: |x| <= j < |y| ==> y[j].Some? && AddsTo(s, e, t, c, y[j].value))
  }

  lemma SameSlots(s: State, n: State, e: Event, t: ThreadId, c: Address)
    requires c in s.heap && c in n.heap && n.heap[c].thread == s.heap[c].thread && n.heap[c].slots == s.heap[c].slots
    ensures SlotsKept(s, n, e, t, c)
  {
  }

  lemma TopKeepsFrame(s: State, u: ThreadId, f: Frame, t: ThreadId, d: nat)
    requires d < |Stack(s, t)| && Stack(s, u) != [] && (u == t ==> d < |Stack(s, t)| - 1)
    ensures FrameStays(s, Pop(s, u), t, d) && FrameStays(s, Replace(s, u, f), t, d)
  {
  }

  /** A call in progress above the pass: it is not the pass itself. */
  lemma CallIsAbove(s: State, u: ThreadId, t: ThreadId, d: nat, c: Address)
    requires InPassAt(s, t, d, c)
    requires var f := Top(Stack(s, u)); !f.Outside? && !f.Entered? && !f.Iterating? && !f.Calling?
    ensures Stack(s, u) != [] && (u == t ==> d < |Stack(s, t)| - 1)
  {
  }

  /** A pass that has begun keeps its context from being compacted. */
  lemma {:induction false} PassIsCounted(st: seq<Frame>, d: nat, c: Address)
    requires d < |st| && InPass(st[d]) && st[d].c == c
    ensures Passes(st, c) >= 1 && (d < |st| - 1 && InPass(Top(st)) && Top(st).c == c ==> Passes(st, c) >= 2)
    decreases |st|
  {
    var last := |st| - 1;
    if d < last {
      assert st[..last][d] == st[d];
      PassIsCounted(st[..last], d, c);
    }
  }

  /** What is known of the pass's context: it is its thread's, free of duplicates, and has a
      depth that counts the passes over it. */
  lemma PassContext(s: State, t: ThreadId, d: nat, c: Address)
    requires Inv(s) && !s.destroyed && InPassAt(s, t, d, c)
    ensures c in s.heap && s.heap[c].thread == t && L.DuplicateFree(s.heap[c].slots)
    ensures s.heap[c].depth == Passes(Stack(s, t), c) && (s.heap[c].depth > 0 ==> s.heap[c].slots != [])
    ensures Begun(s, t, d, c) ==> s.heap[c].depth >= 1
    ensures d < |Stack(s, t)| - 1 ==> Stack(s, t)[d].Calling?
    ensures Top(Stack(s, t)).Deleting? || Top(Stack(s, t)).Erasing? ==> Top(Stack(s, t)).c != c
  {
    assert ThreadOk(s, t);
    assert Stack(s, t)[d].c in s.heap;
    assert ContextOk(s.heap[c], c, Listed(s, t, c), Stack(s, t));
    if Begun(s, t, d, c) {
      PassIsCounted(Stack(s, t), d, c);
    }
  }

  // ----- the steps that are not the pass's own ----------------------------------------------

  predicate Undisturbed(s: State, n: State, e: Event, t: ThreadId, d: nat, c: Address) {
    FrameStays(s, n, t, d) && SlotsKept(s, n, e, t, c)
  }

  lemma AddToListKeepsPass(s: State, u: ThreadId, t: ThreadId, d: nat, c: Address)
    requires Inv(s) && Enabled(s, AddToList(u)) && InPassAt(s, t, d, c)
    ensures Undisturbed(s, AddToListStep(s, u), AddToList(u), t, d, c)
  {
    CallIsAbove(s, u, t, d, c);
    PassContext(s, t, d, c);
    var below, f := SplitStack(s, u);
    hide Inv, ContextOk;
    var w := Write(s, f.c, L.Added(s.heap[f.c].slots, f.obs), s.heap[f.c].depth);
    TopKeepsFrame(w, u, f, t, d);
  }

  lemma RemoveFromListKeepsPass(s: State, u: ThreadId, t: ThreadId, d: nat, c: Address)
    requires Inv(s) && Enabled(s, RemoveFromList(u)) && InPassAt(s, t, d, c)
    ensures Undisturbed(s, RemoveFromListStep(s, u), RemoveFromList(u), t, d, c)
  {
    CallIsAbove(s, u, t, d, c);
    PassContext(s, t, d, c);
    var below, f := SplitStack(s, u);
    hide Inv, ContextOk;
    var x := s.heap[f.c];
    var w := Write(s, f.c, L.Removed(x.slots, x.depth, f.obs), x.depth);
    TopKeepsFrame(w, u, Dropping(f.c), t, d);
    if f.c == c {
      RemovedDuringPass(x.slots, x.depth, f.obs);
      assert u == t;
    }
    hide L.Removed;
  }

  lemma RemovedDuringPass(slots: L.Slots, depth: nat, obs: L.Observer)
    requires depth > 0
    ensures var r := L.Removed(slots, depth, obs);
            |r| == |slots| && forall j :: 0 <= j < |slots| && r[j] != slots[j] ==> r[j] == None && slots[j] == Some(obs)
  {
  }

  lemma DropIfEmptyKeepsPass(s: State, u: ThreadId, t: ThreadId, d: nat, c: Address)
    requires Inv(s) && Enabled(s, DropIfEmpty(u)) && InPassAt(s, t, d, c)
    ensures Undisturbed(s, DropIfEmptyStep(s, u), DropIfEmpty(u), t, d, c)
  {
    CallIsAbove(s, u, t, d, c);
    PassContext(s, t, d, c);
    var below, f := SplitStack(s, u);
    hide Inv, ContextOk;
    TopKeepsFrame(s, u, f, t, d);
    TopKeepsFrame(Free(s, f.c), u, f, t, d);
    SameSlots(s, DropIfEmptyStep(s, u), DropIfEmpty(u), t, c);
  }

  lemma DeleteContextKeepsPass(s: State, u: ThreadId, t: ThreadId, d: nat, c: Address)
    requires Inv(s) && Enabled(s, DeleteContext(u)) && InPassAt(s, t, d, c)
    ensures Undisturbed(s, DeleteContextStep(s, u), DeleteContext(u), t, d, c)
  {
    CallIsAbove(s, u, t, d, c);
    PassContext(s, t, d, c);
    var below, f := SplitStack(s, u);
    hide Inv, ContextOk;
    TopKeepsFrame(Free(s, f.c), u, f, t, d);
    SameSlots(s, DeleteContextStep(s, u), DeleteContext(u), t, c);
  }

  /** A step of another pass to its next observer. */
  lemma NextObserverKeepsPass(s: State, u: ThreadId, t: ThreadId, d: nat, c: Address)
    requires Inv(s) && Enabled(s, NextObserver(u)) && InPassAt(s, t, d, c)
    requires u == t ==> d < |Stack(s, t)| - 1
    ensures Undisturbed(s, NextObserverStep(s, u), NextObserver(u), t, d, c)
  {
    PassContext(s, t, d, c);
    if u == t {
      PassIsCounted(Stack(s, t), d, c);
    }
    var below, f := SplitStack(s, u);
    HeapAfterNextObserver(s, u);
    NextObserverStack(s, u, t, d);
    hide Inv, ContextOk, NextObserverStep;
    SameSlots(s, NextObserverStep(s, u), NextObserver(u), t, c);
  }

  lemma NextObserverStack(s: State, u: ThreadId, t: ThreadId, d: nat)
    requires Top(Stack(s, u)).Iterating? && Top(Stack(s, u)).c in s.heap && s.heap[Top(Stack(s, u)).c].depth > 0
    requires d < |Stack(s, t)| && (u == t ==> d < |Stack(s, t)| - 1)
    ensures FrameStays(s, NextObserverStep(s, u), t, d)
  {
    var f := Top(Stack(s, u));
    var x := s.heap[f.c];
    var r := L.Next(x.slots, f.index, f.maxIndex);
    var w := Write(s, f.c, if x.depth == 1 then L.Compacted(x.slots) else x.slots, x.depth - 1);
    hide L.Next, L.Compacted;
    TopKeepsFrame(s, u, Calling(f.c, r.1, f.maxIndex), t, d);
    TopKeepsFrame(w, u, Leaving(f.c), t, d);
  }

  /** These steps touch no slots; they push a frame, or replace or pop one above the pass. */
  lemma RestKeepsPass(s: State, e: Event, t: ThreadId, d: nat, c: Address)
    requires Inv(s) && Enabled(s, e) && InPassAt(s, t, d, c)
    requires e.AddObserver? || e.RemoveObserver? || e.Notify? || e.RunTask? || e.TestSize? || e.EraseEntry?
    ensures Undisturbed(s, Step(s, e), e, t, d, c)
  {
    PassContext(s, t, d, c);
    match e {
      case AddObserver(u, o, hasLoop, addr) => AddObserverKeepsFrame(s, u, o, hasLoop, addr, t, d, c);
      case RemoveObserver(u, o) => RemoveObserverKeepsFrame(s, u, o, t, d); RemoveObserverKeepsHeap(s, u, o);
      case Notify(u) => NotifyKeepsHeap(s, u);
      case RunTask(u, task) => RunTaskKeepsFrame(s, u, task, t, d); RunTaskKeepsHeap(s, u, task);
      case TestSize(u) => TestSizeKeepsFrame(s, u, t, d, c); TestSizeKeepsHeap(s, u);
      case EraseEntry(u) => EraseEntryKeepsFrame(s, u, t, d, c); EraseEntryKeepsHeap(s, u);
    }
    hide Inv;
    SameSlots(s, Step(s, e), e, t, c);
  }

  lemma AddObserverKeepsFrame(s: State, u: ThreadId, o: L.Observer, hasLoop: bool, addr: Address,
                              t: ThreadId, d: nat, c: Address)
    requires addr !in s.heap && d < |Stack(s, t)| && c in s.heap
    ensures var n := AddObserverStep(s, u, o, hasLoop, addr);
            FrameStays(s, n, t, d) && c in n.heap && n.heap[c] == s.heap[c]
  {
  }

  lemma RemoveObserverKeepsFrame(s: State, u: ThreadId, o: L.Observer, t: ThreadId, d: nat)
    requires d < |Stack(s, t)|
    ensures FrameStays(s, RemoveObserverStep(s, u, o), t, d)
  {
  }

  lemma RunTaskKeepsFrame(s: State, u: ThreadId, task: Address, t: ThreadId, d: nat)
    requires d < |Stack(s, t)|
    ensures FrameStays(s, RunTaskStep(s, u, task), t, d)
  {
  }

  lemma TestSizeKeepsFrame(s: State, u: ThreadId, t: ThreadId, d: nat, c: Address)
    requires Top(Stack(s, u)).Leaving? && InPassAt(s, t, d, c)
    ensures FrameStays(s, TestSizeStep(s, u), t, d)
  {
    CallIsAbove(s, u, t, d, c);
    TopKeepsFrame(s, u, Erasing(Top(Stack(s, u)).c), t, d);
  }

  lemma EraseEntryKeepsFrame(s: State, u: ThreadId, t: ThreadId, d: nat, c: Address)
    requires Top(Stack(s, u)).Erasing? && InPassAt(s, t, d, c)
    ensures FrameStays(s, EraseEntryStep(s, u), t, d)
  {
    CallIsAbove(s, u, t, d, c);
    TopKeepsFrame(s, u, Deleting(Top(Stack(s, u)).c), t, d);
  }

  /** The pass is where it was; a pass that begins is bounded by the slots there are. */
  predicate GoesOn(s: State, n: State, t: ThreadId, d: nat, c: Address) {
    && InPassAt(s, t, d, c) && InPassAt(n, t, d, c) && IndexAt(n, t, d, c) == IndexAt(s, t, d, c)
    && c in s.heap && (Begun(s, t, d, c) ==> Begun(n, t, d, c))
    && (Begun(n, t, d, c) ==>
          Stack(n, t)[d].maxIndex
          == if Begun(s, t, d, c) then Stack(s, t)[d].maxIndex else L.MaxIndex(s.kind, s.heap[c].slots))
  }

  lemma FrameGoesOn(s: State, n: State, t: ThreadId, d: nat, c: Address)
    requires InPassAt(s, t, d, c) && FrameStays(s, n, t, d) && c in s.heap
    ensures GoesOn(s, n, t, d, c)
  {
  }

  lemma BeginPassKeepsPass(s: State, u: ThreadId, t: ThreadId, d: nat, c: Address)
    requires Inv(s) && Enabled(s, BeginPass(u)) && InPassAt(s, t, d, c)
    ensures var n := BeginPassStep(s, u); GoesOn(s, n, t, d, c) && SlotsKept(s, n, BeginPass(u), t, c)
  {
    PassContext(s, t, d, c);
    var below, f := SplitStack(s, u);
    hide Inv, ContextOk;
    var n, x := BeginPassStep(s, u), s.heap[f.c];
    SameSlots(s, n, BeginPass(u), t, c);
    if u != t || d < |Stack(s, t)| - 1 {
      TopKeepsFrame(Write(s, f.c, x.slots, x.depth + 1), u, Iterating(f.c, 0, L.MaxIndex(s.kind, x.slots)), t, d);
      FrameGoesOn(s, n, t, d, c);
    } else {
      PassBegins(s, t, d, c);
    }
    hide GoesOn, SlotsKept;
  }

  lemma PassBegins(s: State, t: ThreadId, d: nat, c: Address)
    requires InPassAt(s, t, d, c) && d == |Stack(s, t)| - 1 && Top(Stack(s, t)).Entered? && c in s.heap
    ensures GoesOn(s, BeginPassStep(s, t), t, d, c)
  {
    assert Stack(BeginPassStep(s, t), t)[d] == Iterating(c, 0, L.MaxIndex(s.kind, s.heap[c].slots));
  }

  lemma ReturnKeepsPass(s: State, u: ThreadId, t: ThreadId, d: nat, c: Address)
    requires Inv(s) && Enabled(s, ReturnFromCallback(u)) && InPassAt(s, t, d, c)
    ensures var n := ReturnFromCallbackStep(s, u); GoesOn(s, n, t, d, c) && SlotsKept(s, n, ReturnFromCallback(u), t, c)
  {
    PassContext(s, t, d, c);
    var n, f := ReturnFromCallbackStep(s, u), Top(Stack(s, u));
    hide Inv, ContextOk;
    ReturnKeepsHeap(s, u);
    SameSlots(s, n, ReturnFromCallback(u), t, c);
    if u != t || d < |Stack(s, t)| - 1 {
      TopKeepsFrame(s, u, Iterating(f.c, f.index, f.maxIndex), t, d);
      FrameGoesOn(s, n, t, d, c);
    } else {
      PassReturns(s, t, d, c);
    }
    hide GoesOn, SlotsKept;
  }

  lemma PassReturns(s: State, t: ThreadId, d: nat, c: Address)
    requires InPassAt(s, t, d, c) && d == |Stack(s, t)| - 1 && Top(Stack(s, t)).Calling? && c in s.heap
    ensures GoesOn(s, ReturnFromCallbackStep(s, t), t, d, c)
  {
    var f := Top(Stack(s, t));
    assert Stack(ReturnFromCallbackStep(s, t), t)[d] == Iterating(c, f.index, f.maxIndex);
  }

  lemma NoDestruction(s: State, t: ThreadId, d: nat, c: Address)
    requires InPassAt(s, t, d, c)
    ensures !Enabled(s, DestroyList)
  {
  }

  /** Whatever any thread does next, unless it is the pass's own advance, the pass stays where
      it is, and its slots change only by removals and additions. */
  lemma OtherStepsKeepPass(s: State, e: Event, t: ThreadId, d: nat, c: Address)
    requires Inv(s) && Enabled(s, e) && InPassAt(s, t, d, c) && !Advances(s, e, t, d)
    ensures GoesOn(s, Step(s, e), t, d, c) && SlotsKept(s, Step(s, e), e, t, c)
  {
    PassContext(s, t, d, c);
    hide Inv, IndexAt, FrameStays, SlotsKept, GoesOn;
    if e.BeginPass? {
      BeginPassKeepsPass(s, e.t, t, d, c);
    } else if e.ReturnFromCallback? {
      ReturnKeepsPass(s, e.t, t, d, c);
    } else {
      match e {
        case AddToList(u) => AddToListKeepsPass(s, u, t, d, c);
        case RemoveFromList(u) => RemoveFromListKeepsPass(s, u, t, d, c);
        case DropIfEmpty(u) => DropIfEmptyKeepsPass(s, u, t, d, c);
        case DeleteContext(u) => DeleteContextKeepsPass(s, u, t, d, c);
        case NextObserver(u) => NextObserverKeepsPass(s, u, t, d, c);
        case DestroyList => NoDestruction(s, t, d, c);
        case _ => RestKeepsPass(s, e, t, d, c);
      }
      FrameGoesOn(s, Step(s, e), t, d, c);
    }
  }

  // ----- an observer that keeps its slot ------------------------------------------------------

  predicate InSlot(s: State, t: ThreadId, c: Address, i: nat, obs: L.Observer) {
    c in s.heap && s.heap[c].thread == t && i < |s.heap[c].slots| && s.heap[c].slots[i] == Some(obs)
  }

  /** The pass is in progress and slot i, within its bounds, holds obs. */
  predicate Watched(s: State, t: ThreadId, d: nat, c: Address, i: nat, obs: L.Observer) {
    && InPassAt(s, t, d, c) && InSlot(s, t, c, i, obs) && i < SIZE_MAX
    && (Begun(s, t, d, c) ==> i < Stack(s, t)[d].maxIndex)
  }

  lemma StaysWatched(s: State, e: Event, n: State, t: ThreadId, d: nat, c: Address, i: nat, obs: L.Observer)
    requires Watched(s, t, d, c, i, obs) && GoesOn(s, n, t, d, c) && SlotsKept(s, n, e, t, c) && !Removes(s, e, t, obs)
    ensures Watched(n, t, d, c, i, obs) && IndexAt(n, t, d, c) == IndexAt(s, t, d, c)
  {
    hide Removes, AddsTo;
  }

  /** The pass advances: it calls obs exactly if it goes over slot i; if there is nothing left
      it has gone over slot i already. */
  lemma AdvanceGoesOver(s: State, t: ThreadId, d: nat, c: Address, i: nat, obs: L.Observer)
    requires Inv(s) && Watched(s, t, d, c, i, obs) && Advances(s, NextObserver(t), t, d)
    ensures var n := NextObserverStep(s, t);
            var r := L.Next(s.heap[c].slots, IndexAt(s, t, d, c), Stack(s, t)[d].maxIndex);
            if r.0.Some? then
              && Watched(n, t, d, c, i, obs)
              && (r.0 == Some(obs) <==> IndexAt(s, t, d, c) <= i < IndexAt(n, t, d, c))
              && IndexAt(s, t, d, c) <= IndexAt(n, t, d, c)
            else
              i < IndexAt(s, t, d, c) && !InPassAt(n, t, d, c)
  {
    PassContext(s, t, d, c);
    var below, f := SplitStack(s, t);
    assert f == Stack(s, t)[d];
    hide Inv, ContextOk;
    var slots := s.heap[c].slots;
    var r := L.Next(slots, f.index, f.maxIndex);
    if r.0.Some? {
      assert Stack(NextObserverStep(s, t), t) == below + [Calling(c, r.1, f.maxIndex)];
      assert L.DuplicateFree(slots);
      assert slots[r.1 - 1] == r.0;
    } else {
      var n := NextObserverStep(s, t);
      assert Stack(n, t) == below + [Leaving(c)];
      NothingLeft(slots, f.index, f.maxIndex, i);
    }
  }

  lemma NothingLeft(slots: L.Slots, index: nat, maxIndex: nat, i: nat)
    requires L.Next(slots, index, maxIndex).0.None? && i < |slots| && i < maxIndex && slots[i] != None
    ensures i < index
  {
  }

  lemma OwnFrame(s: State, t: ThreadId, d: nat, c: Address)
    requires Inv(s) && InPassAt(s, t, d, c) && Advances(s, NextObserver(t), t, d)
    ensures Top(Stack(s, t)) == Stack(s, t)[d] && Stack(s, t)[d].c == c && c in s.heap
    ensures IndexAt(s, t, d, c) == Stack(s, t)[d].index && Begun(s, t, d, c)
  {
    PassContext(s, t, d, c);
  }

  /** A pass calls an observer that keeps its slot exactly once, whatever the threads, this one
      included, do meanwhile; later passes over the slot do not count. */
  lemma {:induction false} SteadyObserverIsCalledOnce(s: State, xs: seq<Event>, t: ThreadId, d: nat, c: Address, i: nat,
                                                     obs: L.Observer)
    requires Inv(s) && Watched(s, t, d, c, i, obs)
    requires During(s, xs, t, d, c) && PassOver(RunFrom(s, xs), t, d, c) && NotRemoved(s, xs, t, obs)
    ensures Calls(s, xs, t, d, obs) == if IndexAt(s, t, d, c) <= i then 1 else 0
    decreases |xs|
  {
    if xs != [] {
      var e, n := xs[0], After(s, xs[0]);
      if !Enabled(s, e) {
        SteadyObserverIsCalledOnce(n, xs[1..], t, d, c, i, obs);
      } else {
        StepKeepsInv(s, e);
        if Advances(s, e, t, d) {
          AdvanceGoesOver(s, t, d, c, i, obs);
          OwnFrame(s, t, d, c);
          hide Inv, Watched;
          if InPassAt(n, t, d, c) {
            SteadyObserverIsCalledOnce(n, xs[1..], t, d, c, i, obs);
          } else {
            assert xs[1..] == [];
          }
        } else {
          OtherStepsKeepPass(s, e, t, d, c);
          StaysWatched(s, e, n, t, d, c, i, obs);
          hide Inv, Watched, GoesOn, SlotsKept;
          SteadyObserverIsCalledOnce(n, xs[1..], t, d, c, i, obs);
        }
      }
    }
  }

  // ----- an observer out of reach ---------------------------------------------------------------

  /** The position of the pass and its limit. */
  predicate Bounded(s: State, t: ThreadId, d: nat, c: Address) {
    && InPassAt(s, t, d, c) && c in s.heap
    && (Begun(s, t, d, c) ==>
          var f, size := Stack(s, t)[d], |s.heap[c].slots|;
          f.index <= size && if s.kind.NotifyAll? then f.maxIndex == SIZE_MAX else f.maxIndex <= size)
  }

  /** No slot within the limit of the pass holds obs. */
  predicate OutOfReach(s: State, t: ThreadId, d: nat, c: Address, obs: L.Observer)
    requires InPassAt(s, t, d, c) && c in s.heap
  {
    forall j :: 0 <= j < |s.heap[c].slots| && (Begun(s, t, d, c) ==> j < Stack(s, t)[d].maxIndex) ==>
      s.heap[c].slots[j] != Some(obs)
  }

  lemma StaysBounded(s: State, e: Event, n: State, t: ThreadId, d: nat, c: Address)
    requires Bounded(s, t, d, c) && GoesOn(s, n, t, d, c) && SlotsKept(s, n, e, t, c) && n.kind == s.kind
    ensures Bounded(n, t, d, c)
  {
    hide Removes, AddsTo;
  }

  lemma AdvanceStaysBounded(s: State, t: ThreadId, d: nat, c: Address, obs: L.Observer)
    requires Inv(s) && Bounded(s, t, d, c) && Advances(s, NextObserver(t), t, d)
    ensures var n := NextObserverStep(s, t); InPassAt(n, t, d, c) ==> Bounded(n, t, d, c)
    ensures var n := NextObserverStep(s, t);
            OutOfReach(s, t, d, c, obs) ==>
              !CallsIt(s, NextObserver(t), t, d, obs) && (InPassAt(n, t, d, c) ==> c in n.heap && OutOfReach(n, t, d, c, obs))
  {
    PassContext(s, t, d, c);
    var below, f := SplitStack(s, t);
    assert f == Stack(s, t)[d];
    hide Inv, ContextOk;
    var n, r := NextObserverStep(s, t), L.Next(s.heap[c].slots, f.index, f.maxIndex);
    if r.0.Some? {
      assert Stack(n, t) == below + [Calling(c, r.1, f.maxIndex)];
    } else {
      assert Stack(n, t) == below + [Leaving(c)];
    }
  }

  /** Before it begins, a pass lets its thread add nothing. */
  lemma NothingAddedBefore(s: State, e: Event, t: ThreadId, d: nat, c: Address)
    requires Inv(s) && Enabled(s, e) && InPassAt(s, t, d, c)
    ensures Begun(s, t, d, c) || e != AddToList(t)
  {
    PassContext(s, t, d, c);
  }

  /** obs comes into reach only by being added to the pass's own context under NotifyAll. */
  lemma StaysOutOfReach(s: State, e: Event, n: State, t: ThreadId, d: nat, c: Address, obs: L.Observer)
    requires Bounded(s, t, d, c) && OutOfReach(s, t, d, c, obs)
    requires GoesOn(s, n, t, d, c) && SlotsKept(s, n, e, t, c) && n.kind == s.kind
    requires (Begun(s, t, d, c) || e != AddToList(t)) && !(s.kind.NotifyAll? && AddsTo(s, e, t, c, obs))
    ensures OutOfReach(n, t, d, c, obs)
  {
    hide Removes;
    var x, y := s.heap[c].slots, n.heap[c].slots;
    forall j | 0 <= j < |y| && (Begun(n, t, d, c) ==> j < Stack(n, t)[d].maxIndex)
      ensures y[j] != Some(obs)
    {
      if |x| <= j {
        assert AddsTo(s, e, t, c, y[j].value);
      } else {
        assert y[j] != x[j] ==> y[j] == None;
      }
    }
  }

  /** It then has a slot that the pass has still to reach. */
  lemma ComesIntoReach(s: State, e: Event, t: ThreadId, d: nat, c: Address, obs: L.Observer)
    requires Inv(s) && Bounded(s, t, d, c) && OutOfReach(s, t, d, c, obs) && s.kind.NotifyAll?
    requires AddsTo(s, e, t, c, obs) && |s.heap[c].slots| <= SIZE_MAX && |AddToListStep(s, t).heap[c].slots| <= SIZE_MAX
    ensures var n, i := AddToListStep(s, t), |s.heap[c].slots|;
            Watched(n, t, d, c, i, obs) && IndexAt(n, t, d, c) <= i && !Removes(s, e, t, obs)
  {
    CallIsAbove(s, t, t, d, c);
    PassContext(s, t, d, c);
    AddToListKeepsPass(s, t, t, d, c);
    var below, f := SplitStack(s, t);
    hide Inv, ContextOk;
    assert Some(obs) !in s.heap[c].slots;
    assert AddToListStep(s, t).heap[c].slots == s.heap[c].slots + [Some(obs)];
  }

  /** The calls that a pass makes to an observer out of its reach: one if the observer is added
      to the pass's context meanwhile under NotifyAll, and otherwise none. */
  lemma {:induction false} AbsentObserverCalls(s: State, xs: seq<Event>, t: ThreadId, d: nat, c: Address, obs: L.Observer)
    requires Inv(s) && Bounded(s, t, d, c) && OutOfReach(s, t, d, c, obs)
    requires During(s, xs, t, d, c) && PassOver(RunFrom(s, xs), t, d, c) && NotRemoved(s, xs, t, obs) && Fits(s, xs, c)
    ensures Calls(s, xs, t, d, obs) == if s.kind.NotifyAll? && AddedDuring(s, xs, t, c, obs) then 1 else 0
    decreases |xs|
  {
    if xs != [] {
      var e, n := xs[0], After(s, xs[0]);
      if !Enabled(s, e) {
        AbsentObserverCalls(n, xs[1..], t, d, c, obs);
      } else {
        StepKeepsInv(s, e);
        StepKeepsKind(s, e);
        if Advances(s, e, t, d) {
          AdvanceStaysBounded(s, t, d, c, obs);
          hide Inv, Bounded, OutOfReach;
          if InPassAt(n, t, d, c) {
            AbsentObserverCalls(n, xs[1..], t, d, c, obs);
          } else {
            assert xs[1..] == [];
          }
        } else if s.kind.NotifyAll? && AddsTo(s, e, t, c, obs) {
          ComesIntoReach(s, e, t, d, c, obs);
          var i := |s.heap[c].slots|;
          hide Inv, Watched, Bounded, OutOfReach;
          SteadyObserverIsCalledOnce(n, xs[1..], t, d, c, i, obs);
        } else {
          OtherStepsKeepPass(s, e, t, d, c);
          StaysBounded(s, e, n, t, d, c);
          NothingAddedBefore(s, e, t, d, c);
          StaysOutOfReach(s, e, n, t, d, c, obs);
          hide Inv, Bounded, OutOfReach, GoesOn, SlotsKept;
          AbsentObserverCalls(n, xs[1..], t, d, c, obs);
        }
      }
    }
  }

  // ----- a piece of a pass ------------------------------------------------------------------------

  /** So far, too, a pass has called an observer that keeps its slot exactly if it has gone over
      the slot: one that is removed before that is not called. */
  lemma {:induction false} CallsSoFar(s: State, xs: seq<Event>, t: ThreadId, d: nat, c: Address, i: nat, obs: L.Observer)
    requires Inv(s) && Watched(s, t, d, c, i, obs)
    requires During(s, xs, t, d, c) && InPassAt(RunFrom(s, xs), t, d, c) && NotRemoved(s, xs, t, obs)
    ensures Watched(RunFrom(s, xs), t, d, c, i, obs) && IndexAt(s, t, d, c) <= IndexAt(RunFrom(s, xs), t, d, c)
    ensures Calls(s, xs, t, d, obs) == if IndexAt(s, t, d, c) <= i < IndexAt(RunFrom(s, xs), t, d, c) then 1 else 0
    decreases |xs|
  {
    if xs != [] {
      var e, n := xs[0], After(s, xs[0]);
      DuringToTheEnd(s, xs, t, d, c);
      if !Enabled(s, e) {
        CallsSoFar(n, xs[1..], t, d, c, i, obs);
      } else {
        StepKeepsInv(s, e);
        if Advances(s, e, t, d) {
          AdvanceGoesOver(s, t, d, c, i, obs);
          OwnFrame(s, t, d, c);
          hide Inv, Watched;
          CallsSoFar(n, xs[1..], t, d, c, i, obs);
        } else {
          OtherStepsKeepPass(s, e, t, d, c);
          StaysWatched(s, e, n, t, d, c, i, obs);
          hide Inv, Watched, GoesOn, SlotsKept;
          CallsSoFar(n, xs[1..], t, d, c, i, obs);
        }
      }
    }
  }

  lemma DuringToTheEnd(s: State, xs: seq<Event>, t: ThreadId, d: nat, c: Address)
    requires xs != [] && During(s, xs, t, d, c) && InPassAt(RunFrom(s, xs), t, d, c)
    ensures InPassAt(After(s, xs[0]), t, d, c)
  {
    hide InPassAt, After;
  }

  lemma {:induction false} BoundedSoFar(s: State, xs: seq<Event>, t: ThreadId, d: nat, c: Address)
    requires Inv(s) && Bounded(s, t, d, c) && During(s, xs, t, d, c) && InPassAt(RunFrom(s, xs), t, d, c)
    ensures var n := RunFrom(s, xs); Inv(n) && n.kind == s.kind && Bounded(n, t, d, c)
    decreases |xs|
  {
    if xs != [] {
      var e, n := xs[0], After(s, xs[0]);
      DuringToTheEnd(s, xs, t, d, c);
      AfterKeepsInv(s, e);
      AfterStaysBounded(s, e, t, d, c);
      hide Inv, Bounded;
      BoundedSoFar(n, xs[1..], t, d, c);
    }
  }

  lemma AfterStaysBounded(s: State, e: Event, t: ThreadId, d: nat, c: Address)
    requires Inv(s) && Bounded(s, t, d, c) && InPassAt(After(s, e), t, d, c)
    ensures Bounded(After(s, e), t, d, c)
  {
    AfterKeepsInv(s, e);
    if Enabled(s, e) {
      if Advances(s, e, t, d) {
        AdvanceStaysBounded(s, t, d, c, 0);
      } else {
        OtherStepsKeepPass(s, e, t, d, c);
        StaysBounded(s, e, Step(s, e), t, d, c);
      }
      hide Inv, Bounded, GoesOn, SlotsKept;
    }
  }

  // ----- a task -----------------------------------------------------------------------------------

  /** Running the task begins a pass over a context that holds obs. */
  predicate PassFinds(s: State, t: ThreadId, task: Address, obs: L.Observer) {
    && Enabled(s, RunTask(t, task))
    && var n := RunTaskStep(s, t, task);
       Top(Stack(n, t)) == Entered(task) && task in n.heap && Some(obs) in n.heap[task].slots
  }

  /** What happens from the beginning of the task's pass to its end; without a pass, nothing. */
  ghost predicate Course(s: State, xs: seq<Event>, t: ThreadId, task: Address) {
    if Listed(s, t, task) then
      var n, d := RunTaskStep(s, t, task), |Stack(s, t)|;
      During(n, xs, t, d, task) && PassOver(RunFrom(n, xs), t, d, task)
    else xs == []
  }

  /** How often the task calls obs, if that is not removed meanwhile: once if the pass finds it, or
      if it is added to the pass's context meanwhile under NotifyAll; otherwise not at all. */
  lemma TaskCalls(s: State, xs: seq<Event>, t: ThreadId, task: Address, obs: L.Observer)
    requires Inv(s) && Enabled(s, RunTask(t, task)) && Course(s, xs, t, task)
    requires var n := RunTaskStep(s, t, task); NotRemoved(n, xs, t, obs) && Fits(n, xs, task)
    ensures var n := RunTaskStep(s, t, task);
            Calls(n, xs, t, |Stack(s, t)|, obs)
            == if PassFinds(s, t, task, obs) || (s.kind.NotifyAll? && AddedDuring(n, xs, t, task, obs)) then 1 else 0
  {
    var n, d := RunTaskStep(s, t, task), |Stack(s, t)|;
    StepKeepsInv(s, RunTask(t, task));
    if Listed(s, t, task) {
      TaskEnters(s, t, task);
      if PassFinds(s, t, task, obs) {
        var i :| 0 <= i < |n.heap[task].slots| && n.heap[task].slots[i] == Some(obs);
        SteadyObserverIsCalledOnce(n, xs, t, d, task, i, obs);
      } else {
        hide Inv;
        AbsentObserverCalls(n, xs, t, d, task, obs);
      }
    }
  }

  lemma TaskEnters(s: State, t: ThreadId, task: Address)
    requires Inv(s) && Enabled(s, RunTask(t, task)) && Listed(s, t, task)
    ensures var n, d := RunTaskStep(s, t, task), |Stack(s, t)|;
            && n.kind == s.kind && |Stack(n, t)| == d + 1 && Stack(n, t)[d] == Entered(task) == Top(Stack(n, t))
            && task in n.heap && n.heap[task].thread == t && Bounded(n, t, d, task)
  {
    assert ThreadOk(s, t);
  }

  /** When obs is removed while the pass goes on, the same counts from then on: the pass calls
      it once more if it is added again to the pass's context under NotifyAll, and otherwise not. */
  lemma CallsAfterRemoval(s: State, ys: seq<Event>, e: Event, zs: seq<Event>, t: ThreadId, task: Address, obs: L.Observer)
    requires Inv(s) && Enabled(s, RunTask(t, task)) && Listed(s, t, task)
    requires var n, d := RunTaskStep(s, t, task), |Stack(s, t)|;
             && During(n, ys, t, d, task) && InPassAt(RunFrom(n, ys), t, d, task) && Removes(RunFrom(n, ys), e, t, obs)
             && var m := After(RunFrom(n, ys), e);
                During(m, zs, t, d, task) && PassOver(RunFrom(m, zs), t, d, task) && NotRemoved(m, zs, t, obs) && Fits(m, zs, task)
    ensures var d, m := |Stack(s, t)|, After(RunFrom(RunTaskStep(s, t, task), ys), e);
            Calls(m, zs, t, d, obs) == if s.kind.NotifyAll? && AddedDuring(m, zs, t, task, obs) then 1 else 0
  {
    var n, d := RunTaskStep(s, t, task), |Stack(s, t)|;
    StepKeepsInv(s, RunTask(t, task));
    TaskEnters(s, t, task);
    BoundedSoFar(n, ys, t, d, task);
    var r := RunFrom(n, ys);
    NoDestruction(r, t, d, task);
    RemovedFromPass(r, e, t, d, task, obs);
    AfterKeepsInv(r, e);
    hide Inv, Bounded, RunTaskStep, Removes, Enabled;
    AbsentObserverCalls(After(r, e), zs, t, d, task, obs);
  }

  lemma RemovedFromPass(s: State, e: Event, t: ThreadId, d: nat, c: Address, obs: L.Observer)
    requires Inv(s) && Bounded(s, t, d, c) && Removes(s, e, t, obs)
    ensures var n := After(s, e); Bounded(n, t, d, c) && OutOfReach(n, t, d, c, obs)
  {
    var n := After(s, e);
    StepKeepsInv(s, e);
    OtherStepsKeepPass(s, e, t, d, c);
    StepKeepsKind(s, e);
    StaysBounded(s, e, n, t, d, c);
    NotHeldAfter(s, e, t, obs);
    PassContext(n, t, d, c);
    hide Inv, Removes, Step, Bounded, SlotsKept;
  }

  lemma NotHeldAfter(s: State, e: Event, t: ThreadId, obs: L.Observer)
    requires Inv(s) && Removes(s, e, t, obs)
    ensures !Holds(Step(s, e), t, obs)
  {
    if e == RemoveFromList(t) {
      RemovalIsComplete(s, t, obs);
    } else {
      OtherStepsHold(s, e, t, obs);
    }
  }
}
