/**
  base/observer_list_threadsafe.h: what becomes of a posted notification. An observer that stays
  registered receives it exactly once; one that is removed meanwhile receives it only under an
  exact condition.
*/
module ObserverListInTransit {
  import opened Common
  import opened ObserverListThreadSafe
  import opened ObserverListDelivery
  import L = ObserverList

  // ----- what a task finds -------------------------------------------------------------------

  /** A thread that runs its own code has all its observers in its listed context. */
  lemma RegisteredIsListed(kind: L.NotificationType, es: seq<Event>, t: ThreadId, c: Address, obs: L.Observer)
    requires var s := Run(kind, es); !s.destroyed && Idle(Stack(s, t)) && Listed(s, t, c)
    ensures var s := Run(kind, es); c in s.heap && (Some(obs) in s.heap[c].slots <==> Registered(kind, es, t, obs))
  {
    EveryRunIsSafe(kind, es);
    HeldIffRegistered(kind, es, t, obs);
    var s := Run(kind, es);
    assert ThreadOk(s, t);
    if Holds(s, t, obs) {
      var b :| b in s.heap && s.heap[b].thread == t && Some(obs) in s.heap[b].slots;
      HolderIsListed(s, t, b, obs);
    }
  }

  // ----- notifications in transit -------------------------------------------------------------

  /** In every run a task's pass finds an observer exactly if the observer is registered then
      and the thread's entry names the task's context. */
  lemma PassFindsIff(kind: L.NotificationType, es: seq<Event>, t: ThreadId, task: Address, obs: L.Observer)
    requires Enabled(Run(kind, es), RunTask(t, task))
    ensures PassFinds(Run(kind, es), t, task, obs) <==> Registered(kind, es, t, obs) && Listed(Run(kind, es), t, task)
  {
    var s := Run(kind, es);
    if Listed(s, t, task) {
      RegisteredIsListed(kind, es, t, task, obs);
    }
  }

  predicate RemovedAt(kind: L.NotificationType, es: seq<Event>, m: nat, t: ThreadId, obs: L.Observer) {
    m < |es| && Removes(Run(kind, es[..m]), es[m], t, obs)
  }

  predicate AddedAt(kind: L.NotificationType, es: seq<Event>, k: nat, t: ThreadId, obs: L.Observer) {
    k < |es| && Adds(Run(kind, es[..k]), es[k], t, obs)
  }

  /** obs was added after event m, and not removed after that. */
  ghost predicate AddedAgain(kind: L.NotificationType, es: seq<Event>, m: nat, t: ThreadId, obs: L.Observer) {
    exists k :: m < k < |es| && AddedAt(kind, es, k, t, obs) && forall j :: k < j < |es| ==> !RemovedAt(kind, es, j, t, obs)
  }

  lemma {:induction false} RegisteredIffAddedAgain(kind: L.NotificationType, es: seq<Event>, m: nat, t: ThreadId,
                                                  obs: L.Observer)
    requires RemovedAt(kind, es, m, t, obs)
    ensures Registered(kind, es, t, obs) <==> AddedAgain(kind, es, m, t, obs)
    decreases |es|
  {
    var last := |es| - 1;
    var before := es[..last];
    assert forall k :: 0 <= k < last ==> before[..k] == es[..k] && before[k] == es[k];
    if m == last {
      assert !Adds(Run(kind, before), es[last], t, obs);
    } else {
      hide Adds, Removes;
      RegisteredIffAddedAgain(kind, before, m, t, obs);
      SameAddedAgain(kind, es, m, t, obs);
    }
  }

  lemma SameAddedAgain(kind: L.NotificationType, es: seq<Event>, m: nat, t: ThreadId, obs: L.Observer)
    requires m < |es| - 1
    ensures var last := |es| - 1;
            AddedAgain(kind, es, m, t, obs)
            <==> AddedAt(kind, es, last, t, obs) || (!RemovedAt(kind, es, last, t, obs) && AddedAgain(kind, es[..last], m, t, obs))
  {
    hide Adds, Removes, Run;
    var last := |es| - 1;
    var before := es[..last];
    assert forall k :: 0 <= k < last ==> before[..k] == es[..k] && before[k] == es[k];
    assert forall k :: 0 <= k < last ==>
        (AddedAt(kind, before, k, t, obs) <==> AddedAt(kind, es, k, t, obs))
        && (RemovedAt(kind, before, k, t, obs) <==> RemovedAt(kind, es, k, t, obs));
    hide AddedAt, RemovedAt;
  }

  /** The event creates a context for thread t at address c. */
  predicate Allocates(s: State, e: Event, t: ThreadId, c: Address) {
    e.AddObserver? && e.t == t && e.hasLoop && e.addr == c && Enabled(s, e) && t !in s.lists
  }

  lemma EntryComesFromAllocation(s: State, e: Event, t: ThreadId, c: Address)
    requires Enabled(s, e) && Listed(Step(s, e), t, c) && !Listed(s, t, c)
    ensures Allocates(s, e, t, c)
  {
    match e
    case NextObserver(u) => NextObserverKeepsOthers(s, u);
    case _ =>
  }

  predicate ListedAt(kind: L.NotificationType, es: seq<Event>, j: nat, t: ThreadId, c: Address)
    requires j <= |es|
  {
    var s := Run(kind, es[..j]); t in s.lists && s.lists[t] == c
  }

  predicate AllocatedAt(kind: L.NotificationType, es: seq<Event>, j: nat, t: ThreadId, c: Address)
    requires j < |es|
  {
    Allocates(Run(kind, es[..j]), es[j], t, c)
  }

  /** The thread's entry has named c ever since event n. */
  ghost predicate EntryKept(kind: L.NotificationType, es: seq<Event>, n: nat, t: ThreadId, c: Address) {
    forall j :: n <= j <= |es| ==> ListedAt(kind, es, j, t, c)
  }

  /** Since event n the entry went, and a new context was allocated at the address that the
      task carries, which has been the thread's since. */
  ghost predicate AddressReused(kind: L.NotificationType, es: seq<Event>, n: nat, t: ThreadId, c: Address) {
    exists j :: n < j < |es| && NamedSince(kind, es, j, t, c)
  }

  /** Event j allocated the context, and the thread's entry has named it since. */
  ghost predicate NamedSince(kind: L.NotificationType, es: seq<Event>, j: nat, t: ThreadId, c: Address)
    requires j < |es|
  {
    AllocatedAt(kind, es, j, t, c) && forall i :: j < i <= |es| ==> ListedAt(kind, es, i, t, c)
  }

  lemma {:induction false} ListedByCause(kind: L.NotificationType, es: seq<Event>, n: nat, t: ThreadId, c: Address)
    requires n <= |es| && ListedAt(kind, es, n, t, c)
    ensures ListedAt(kind, es, |es|, t, c) <==> EntryKept(kind, es, n, t, c) || AddressReused(kind, es, n, t, c)
    ensures !(EntryKept(kind, es, n, t, c) && AddressReused(kind, es, n, t, c))
    decreases |es|
  {
    if n < |es| {
      BeforeLast(kind, es, n, t, c);
      LastEvent(kind, es, t, c);
      hide ListedAt, AllocatedAt, EntryKept, AddressReused;
      ListedByCause(kind, es[..|es| - 1], n, t, c);
      KeptWithLast(kind, es, n, t, c);
      ReusedWithLast(kind, es, n, t, c);
      NotAllocatedAtNotify(kind, es, n, t, c);
    } else {
      NeitherYet(kind, es, n, t, c);
    }
  }

  lemma NeitherYet(kind: L.NotificationType, es: seq<Event>, n: nat, t: ThreadId, c: Address)
    requires n == |es| && ListedAt(kind, es, n, t, c)
    ensures EntryKept(kind, es, n, t, c) && !AddressReused(kind, es, n, t, c)
  {
    hide ListedAt, AllocatedAt;
  }

  /** The run without its last event is the same so far. */
  lemma BeforeLast(kind: L.NotificationType, es: seq<Event>, n: nat, t: ThreadId, c: Address)
    requires n < |es|
    ensures var before := es[..|es| - 1];
            && (forall j: nat :: j < |es| ==> ListedAt(kind, before, j, t, c) == ListedAt(kind, es, j, t, c))
            && (forall j: nat :: j < |es| - 1 ==> AllocatedAt(kind, before, j, t, c) == AllocatedAt(kind, es, j, t, c))
  {
    var before := es[..|es| - 1];
    hide Run, Allocates;
    forall j: nat | j < |es| ensures ListedAt(kind, before, j, t, c) == ListedAt(kind, es, j, t, c) {
      assert before[..j] == es[..j];
    }
    forall j: nat | j < |es| - 1 ensures AllocatedAt(kind, before, j, t, c) == AllocatedAt(kind, es, j, t, c) {
      assert before[..j] == es[..j];
    }
  }

  lemma LastEvent(kind: L.NotificationType, es: seq<Event>, t: ThreadId, c: Address)
    requires es != []
    ensures var last := |es| - 1;
            && (ListedAt(kind, es, |es|, t, c) ==> ListedAt(kind, es, last, t, c) || AllocatedAt(kind, es, last, t, c))
            && !(ListedAt(kind, es, last, t, c) && AllocatedAt(kind, es, last, t, c))
  {
    var last := |es| - 1;
    assert es[..|es|] == es;
    var s := Run(kind, es[..last]);
    if ListedAt(kind, es, |es|, t, c) && !ListedAt(kind, es, last, t, c) {
      EntryComesFromAllocation(s, es[last], t, c);
    }
    hide Step, Enabled;
  }

  lemma KeptWithLast(kind: L.NotificationType, es: seq<Event>, n: nat, t: ThreadId, c: Address)
    requires n < |es|
    ensures EntryKept(kind, es, n, t, c)
            <==> ListedAt(kind, es, |es|, t, c) && EntryKept(kind, es[..|es| - 1], n, t, c)
  {
    BeforeLast(kind, es, n, t, c);
    hide ListedAt, AllocatedAt;
  }

  lemma ReusedWithLast(kind: L.NotificationType, es: seq<Event>, n: nat, t: ThreadId, c: Address)
    requires n < |es|
    ensures var last := |es| - 1;
            AddressReused(kind, es, n, t, c)
            <==> ListedAt(kind, es, |es|, t, c)
                 && (AddressReused(kind, es[..last], n, t, c) || (n < last && AllocatedAt(kind, es, last, t, c)))
  {
    hide ListedAt, AllocatedAt, NamedSince, Run, Allocates;
    var last := |es| - 1;
    if AddressReused(kind, es, n, t, c) {
      var j :| n < j < |es| && NamedSince(kind, es, j, t, c);
      NamedSinceWithLast(kind, es, j, t, c);
    } else if ListedAt(kind, es, |es|, t, c) {
      if n < last && AllocatedAt(kind, es, last, t, c) {
        NamedSinceWithLast(kind, es, last, t, c);
      }
      if AddressReused(kind, es[..last], n, t, c) {
        var j :| n < j < |es[..last]| && NamedSince(kind, es[..last], j, t, c);
        NamedSinceWithLast(kind, es, j, t, c);
      }
    }
  }

  lemma NamedSinceWithLast(kind: L.NotificationType, es: seq<Event>, j: nat, t: ThreadId, c: Address)
    requires j < |es|
    ensures var last := |es| - 1;
            NamedSince(kind, es, j, t, c)
            <==> ListedAt(kind, es, |es|, t, c)
                 && if j < last then NamedSince(kind, es[..last], j, t, c) else AllocatedAt(kind, es, last, t, c)
  {
    BeforeLast(kind, es, j, t, c);
    hide ListedAt, AllocatedAt;
  }

  lemma NotAllocatedAtNotify(kind: L.NotificationType, es: seq<Event>, n: nat, t: ThreadId, c: Address)
    requires n < |es| && ListedAt(kind, es, n, t, c)
    ensures !AllocatedAt(kind, es, n, t, c)
  {
    hide Run;
  }

  /** The main result on notifications in transit. In any run, let the task be posted to thread
      t by the Notify at event n, and obs be removed by t after that. When the task runs, its
      pass finds obs exactly if obs was added again and the thread's entry names the task's
      context: because that entry was never erased, or because the context's address was
      handed out again. */
  lemma RemovedObserverIsFoundIff(kind: L.NotificationType, es: seq<Event>, n: nat, m: nat, t: ThreadId, task: Address,
                                  obs: L.Observer)
    requires n < m < |es| && es[n].Notify? && Enabled(Run(kind, es[..n]), es[n]) && ListedAt(kind, es, n, t, task)
    requires RemovedAt(kind, es, m, t, obs) && Enabled(Run(kind, es), RunTask(t, task))
    ensures PassFinds(Run(kind, es), t, task, obs)
            <==> AddedAgain(kind, es, m, t, obs) && (EntryKept(kind, es, n, t, task) || AddressReused(kind, es, n, t, task))
    ensures !(EntryKept(kind, es, n, t, task) && AddressReused(kind, es, n, t, task))
  {
    PassFindsIff(kind, es, t, task, obs);
    RegisteredIffAddedAgain(kind, es, m, t, obs);
    ListedByCause(kind, es, n, t, task);
    assert es[..|es|] == es;
    hide Run, Registered, PassFinds, AddedAgain, EntryKept, AddressReused;
  }

  /** The main result on calls. When that task has run, from the beginning of its pass to its
      end, it has called obs exactly once if its pass found obs, or if obs was added to the pass's
      own context meanwhile under NotifyAll; otherwise not at all. */
  lemma RemovedObserverIsCalledIff(kind: L.NotificationType, es: seq<Event>, n: nat, m: nat, xs: seq<Event>, t: ThreadId,
                                   task: Address, obs: L.Observer)
    requires n < m < |es| && es[n].Notify? && Enabled(Run(kind, es[..n]), es[n]) && ListedAt(kind, es, n, t, task)
    requires RemovedAt(kind, es, m, t, obs) && Enabled(Run(kind, es), RunTask(t, task)) && Course(Run(kind, es), xs, t, task)
    requires var s := RunTaskStep(Run(kind, es), t, task); NotRemoved(s, xs, t, obs) && Fits(s, xs, task)
    ensures var s := RunTaskStep(Run(kind, es), t, task);
            Calls(s, xs, t, |Stack(Run(kind, es), t)|, obs)
            == if (AddedAgain(kind, es, m, t, obs) && (EntryKept(kind, es, n, t, task) || AddressReused(kind, es, n, t, task)))
                  || (kind.NotifyAll? && AddedDuring(s, xs, t, task, obs)) then 1 else 0
  {
    EveryRunIsSafe(kind, es);
    KindOfRun(kind, es);
    RemovedObserverIsFoundIff(kind, es, n, m, t, task, obs);
    hide *;
    TaskCalls(Run(kind, es), xs, t, task, obs);
  }

  lemma {:induction false} KindOfRun(kind: L.NotificationType, es: seq<Event>)
    ensures Run(kind, es).kind == kind
  {
    if es != [] {
      KindOfRun(kind, es[..|es| - 1]);
      var s, e := Run(kind, es[..|es| - 1]), es[|es| - 1];
      if Enabled(s, e) {
        StepKeepsKind(s, e);
      }
      hide Step, Enabled;
    }
  }

  /** What a caller can rely on: an observer that is not added again after its removal is never
      called again, by whatever pass. */
  lemma NotAddedAgainIsNotCalled(kind: L.NotificationType, es: seq<Event>, m: nat, t: ThreadId, d: nat, obs: L.Observer)
    requires RemovedAt(kind, es, m, t, obs) && forall k :: m < k < |es| ==> !AddedAt(kind, es, k, t, obs)
    ensures !CallsIt(Run(kind, es), NextObserver(t), t, d, obs)
  {
    RegisteredIffAddedAgain(kind, es, m, t, obs);
    if CallsIt(Run(kind, es), NextObserver(t), t, d, obs) {
      OnlyRegisteredObserversAreCalled(kind, es, t, obs);
    }
  }

  // ----- from the notification to the call ---------------------------------------------------

  predicate RemovalUnderWay(s: State, t: ThreadId, obs: L.Observer) {
    Top(Stack(s, t)).Removing? && Top(Stack(s, t)).obs == obs
  }

  lemma OwnStackStays(s: State, e: Event, t: ThreadId)
    requires Enabled(s, e) && !e.DestroyList? && e.t != t
    ensures Stack(Step(s, e), t) == Stack(s, t)
  {
    if e.AddObserver? || e.AddToList? || e.RemoveObserver? || e.RemoveFromList? || e.DropIfEmpty? {
      OwnStackStaysOnChange(s, e, t);
    } else {
      OwnStackStaysOnDelivery(s, e, t);
    }
    hide Step, Stack;
  }

  lemma OwnStackStaysOnChange(s: State, e: Event, t: ThreadId)
    requires e.AddObserver? || e.AddToList? || e.RemoveObserver? || e.RemoveFromList? || e.DropIfEmpty?
    requires Enabled(s, e) && e.t != t
    ensures Stack(Step(s, e), t) == Stack(s, t)
  {
    hide L.Removed, L.Added;
  }

  lemma OwnStackStaysOnDelivery(s: State, e: Event, t: ThreadId)
    requires Enabled(s, e) && !e.DestroyList? && e.t != t
    requires !(e.AddObserver? || e.AddToList? || e.RemoveObserver? || e.RemoveFromList? || e.DropIfEmpty?)
    ensures Stack(Step(s, e), t) == Stack(s, t)
  {
    match e {
      case Notify(u) => NotifyKeepsStacks(s, u);
      case NextObserver(u) => NextObserverKeepsOthers(s, u);
      case _ =>
    }
    hide NotifyStep, NextObserverStep;
  }

  /** While an observer of thread t is not removed, the thread's entry goes on naming the context
      that it named. */
  lemma StaysListed(s: State, e: Event, t: ThreadId, c: Address, obs: L.Observer)
    requires Inv(s) && Enabled(s, e) && !Removes(s, e, t, obs) && Holds(Step(s, e), t, obs)
    requires RemovalUnderWay(s, t, obs) || Listed(s, t, c)
    ensures RemovalUnderWay(Step(s, e), t, obs) || Listed(Step(s, e), t, c)
  {
    StepKeepsInv(s, e);
    if RemovalUnderWay(s, t, obs) {
      assert e.t != t;
      OwnStackStays(s, e, t);
    } else {
      var n := Step(s, e);
      var b :| b in n.heap && n.heap[b].thread == t && Some(obs) in n.heap[b].slots;
      HolderIsListed(n, t, b, obs);
      hide Inv, Step, Removes;
      if b != c && Listed(n, t, b) {
        EntryComesFromAllocation(s, e, t, b);
      }
    }
  }

  lemma {:induction false} StaysListedInRun(kind: L.NotificationType, es: seq<Event>, n: nat, t: ThreadId, c: Address,
                                           obs: L.Observer)
    requires n <= |es| && Registered(kind, es[..n], t, obs) && ListedAt(kind, es, n, t, c)
    requires forall j :: n <= j < |es| ==> !RemovedAt(kind, es, j, t, obs)
    ensures Registered(kind, es, t, obs)
    ensures RemovalUnderWay(Run(kind, es), t, obs) || Listed(Run(kind, es), t, c)
    decreases |es|
  {
    if n == |es| {
      assert es[..n] == es;
    } else {
      var before := es[..|es| - 1];
      assert before[..n] == es[..n];
      NotRemovedBefore(kind, es, n, t, obs);
      hide ListedAt, RemovedAt, Run, Registered, RemovalUnderWay;
      ListedBefore(kind, es, n, t, c);
      StaysListedInRun(kind, before, n, t, c, obs);
      StaysListedAtLast(kind, es, t, c, obs);
    }
  }

  lemma NotRemovedBefore(kind: L.NotificationType, es: seq<Event>, n: nat, t: ThreadId, obs: L.Observer)
    requires es != [] && forall j :: n <= j < |es| ==> !RemovedAt(kind, es, j, t, obs)
    ensures var before := es[..|es| - 1]; forall j :: n <= j < |before| ==> !RemovedAt(kind, before, j, t, obs)
  {
    var before := es[..|es| - 1];
    hide Run, Removes;
    forall j | n <= j < |before| ensures !RemovedAt(kind, before, j, t, obs) {
      assert before[..j] == es[..j] && before[j] == es[j] && !RemovedAt(kind, es, j, t, obs);
    }
  }

  lemma ListedBefore(kind: L.NotificationType, es: seq<Event>, n: nat, t: ThreadId, c: Address)
    requires n < |es|
    ensures ListedAt(kind, es[..|es| - 1], n, t, c) == ListedAt(kind, es, n, t, c)
  {
    assert es[..|es| - 1][..n] == es[..n];
  }

  lemma StaysListedAtLast(kind: L.NotificationType, es: seq<Event>, t: ThreadId, c: Address, obs: L.Observer)
    requires es != [] && !RemovedAt(kind, es, |es| - 1, t, obs)
    requires var before := es[..|es| - 1];
             Registered(kind, before, t, obs) && (RemovalUnderWay(Run(kind, before), t, obs) || Listed(Run(kind, before), t, c))
    ensures Registered(kind, es, t, obs)
    ensures RemovalUnderWay(Run(kind, es), t, obs) || Listed(Run(kind, es), t, c)
  {
    var before, e := es[..|es| - 1], es[|es| - 1];
    EveryRunIsSafe(kind, before);
    HeldIffRegistered(kind, es, t, obs);
    hide Inv, Step, Enabled, Removes, Adds, RemovalUnderWay, Holds;
    if Enabled(Run(kind, before), e) {
      StaysListed(Run(kind, before), e, t, c, obs);
    }
  }

  /** From the notification to the call. An observer that is registered at a Notify and stays
      registered is called exactly once by the task that was posted for it, whenever that runs. */
  lemma NotifiedObserverIsCalledOnce(kind: L.NotificationType, es: seq<Event>, n: nat, xs: seq<Event>, t: ThreadId,
                                     task: Address, obs: L.Observer)
    requires n < |es| && es[n].Notify? && Enabled(Run(kind, es[..n]), es[n]) && ListedAt(kind, es, n, t, task)
    requires Registered(kind, es[..n], t, obs) && !RemovalUnderWay(Run(kind, es[..n]), t, obs)
    requires forall j :: n < j < |es| ==> !RemovedAt(kind, es, j, t, obs)
    requires Enabled(Run(kind, es), RunTask(t, task)) && Course(Run(kind, es), xs, t, task)
    requires var s := RunTaskStep(Run(kind, es), t, task); NotRemoved(s, xs, t, obs) && Fits(s, xs, task)
    ensures Tasks(Run(kind, es[..n + 1]), t) == Tasks(Run(kind, es[..n]), t) + multiset{task}
    ensures Calls(RunTaskStep(Run(kind, es), t, task), xs, t, |Stack(Run(kind, es), t)|, obs) == 1
  {
    TaskIsPosted(kind, es, n, t, task, obs);
    NotifiedObserverIsFound(kind, es, n, t, task, obs);
    EveryRunIsSafe(kind, es);
    hide *;
    TaskCalls(Run(kind, es), xs, t, task, obs);
  }

  lemma TaskIsPosted(kind: L.NotificationType, es: seq<Event>, n: nat, t: ThreadId, task: Address, obs: L.Observer)
    requires n < |es| && es[n].Notify? && Enabled(Run(kind, es[..n]), es[n]) && ListedAt(kind, es, n, t, task)
    requires Registered(kind, es[..n], t, obs) && !RemovalUnderWay(Run(kind, es[..n]), t, obs)
    ensures Tasks(Run(kind, es[..n + 1]), t) == Tasks(Run(kind, es[..n]), t) + multiset{task}
  {
    NotifyReachesEveryThread(kind, es[..n], es[n].t, t, obs);
    hide NotifyStep, Registered;
    assert es[..n + 1][..n] == es[..n] && es[..n + 1][n] == es[n];
  }

  lemma NotifiedObserverIsFound(kind: L.NotificationType, es: seq<Event>, n: nat, t: ThreadId, task: Address,
                                obs: L.Observer)
    requires n < |es| && es[n].Notify? && ListedAt(kind, es, n, t, task) && Registered(kind, es[..n], t, obs)
    requires forall j :: n < j < |es| ==> !RemovedAt(kind, es, j, t, obs)
    requires Enabled(Run(kind, es), RunTask(t, task))
    ensures PassFinds(Run(kind, es), t, task, obs)
  {
    assert !RemovedAt(kind, es, n, t, obs);
    hide Run, Registered, PassFinds, RemovedAt, ListedAt;
    StaysListedInRun(kind, es, n, t, task, obs);
    PassFindsIff(kind, es, t, task, obs);
  }

  // ----- the ways, as runs ------------------------------------------------------------------

  /** The states of a run in which only thread t has a context, at c. */
  function Alone(kind: L.NotificationType, t: ThreadId, c: Address, context: Option<L.Slots>, listed: bool, posted: bool,
                 st: seq<Frame>): State
  {
    State(kind,
          if context.Some? then map[c := Context(t, context.value, 0)] else map[],
          if listed then map[t := c] else map[],
          if posted then map[t := multiset{c}] else map[],
          map[t := st], false, false)
  }

  lemma FirstAdd(kind: L.NotificationType, t: ThreadId, c: Address, obs: L.Observer)
    ensures var e := AddObserver(t, obs, true, c);
            Enabled(Init(kind), e) && Step(Init(kind), e) == Alone(kind, t, c, Some([]), true, false, [Adding(c, obs)])
  {
    var n := AddObserverStep(Init(kind), t, obs, true, c);
    assert [] + [Adding(c, obs)] == [Adding(c, obs)];
    assert n.heap == map[c := Context(t, [], 0)] && n.lists == map[t := c] && n.stacks == map[t := [Adding(c, obs)]];
  }

  /** With an entry the address given is not used; without one the context is created at c. */
  lemma AloneAdds(kind: L.NotificationType, t: ThreadId, c: Address, context: Option<L.Slots>, posted: bool, obs: L.Observer,
                  addr: Address)
    requires if context.Some? then addr != c else addr == c
    ensures var s, e := Alone(kind, t, c, context, context.Some?, posted, []), AddObserver(t, obs, true, addr);
            && Enabled(s, e)
            && Step(s, e) == Alone(kind, t, c, Some(if context.Some? then context.value else []), true, posted, [Adding(c, obs)])
  {
    var s := Alone(kind, t, c, context, context.Some?, posted, []);
    var n := AddObserverStep(s, t, obs, true, addr);
    assert [] + [Adding(c, obs)] == [Adding(c, obs)];
    assert n.stacks == map[t := [Adding(c, obs)]];
    assert n.heap == map[c := Context(t, if context.Some? then context.value else [], 0)] && n.lists == map[t := c];
  }

  lemma AloneAddsToList(kind: L.NotificationType, t: ThreadId, c: Address, slots: L.Slots, posted: bool, obs: L.Observer)
    requires Some(obs) !in slots
    ensures var s, e := Alone(kind, t, c, Some(slots), true, posted, [Adding(c, obs)]), AddToList(t);
            && Enabled(s, e) && Adds(s, e, t, obs)
            && Step(s, e) == Alone(kind, t, c, Some(slots + [Some(obs)]), true, posted, [])
  {
    var s := Alone(kind, t, c, Some(slots), true, posted, [Adding(c, obs)]);
    var n := AddToListStep(s, t);
    assert Stack(s, t) == [Adding(c, obs)] && Stack(s, t)[..0] == [];
    assert n.stacks == map[t := []] && n.heap == map[c := Context(t, slots + [Some(obs)], 0)];
  }

  lemma AloneNotifies(kind: L.NotificationType, t: ThreadId, c: Address, slots: L.Slots, u: ThreadId)
    ensures var s, e := Alone(kind, t, c, Some(slots), true, false, []), Notify(u);
            Enabled(s, e) && Step(s, e) == Alone(kind, t, c, Some(slots), true, true, [])
  {
    var s := Alone(kind, t, c, Some(slots), true, false, []);
    var n := NotifyStep(s, u);
    assert (set k | k in s.lists :: s.heap[s.lists[k]].thread) == {t};
    assert (set k | k in s.lists && s.heap[s.lists[k]].thread == t :: s.lists[k]) == {c};
    assert n.tasks.Keys == {t} && n.tasks[t] == multiset{} + multiset({c}) == multiset{c};
    assert n.tasks == map[t := multiset{c}];
  }

  lemma AloneRemoves(kind: L.NotificationType, t: ThreadId, c: Address, slots: L.Slots, obs: L.Observer)
    requires Some(obs) in slots
    ensures var s, e := Alone(kind, t, c, Some(slots), true, true, []), RemoveObserver(t, obs);
            && Enabled(s, e)
            && Step(s, e) == Alone(kind, t, c, Some(slots), |slots| != 1, true, [Removing(c, obs)])
  {
    var s := Alone(kind, t, c, Some(slots), true, true, []);
    var n := RemoveObserverStep(s, t, obs);
    assert map[t := c] - {t} == map[];
    assert [] + [Removing(c, obs)] == [Removing(c, obs)];
    assert n.stacks == map[t := [Removing(c, obs)]];
  }

  lemma AloneRemovesFromList(kind: L.NotificationType, t: ThreadId, c: Address, slots: L.Slots, listed: bool, obs: L.Observer)
    ensures var s, e := Alone(kind, t, c, Some(slots), listed, true, [Removing(c, obs)]), RemoveFromList(t);
            && Enabled(s, e) && Removes(s, e, t, obs)
            && Step(s, e) == Alone(kind, t, c, Some(L.Removed(slots, 0, obs)), listed, true, [Dropping(c)])
  {
    var s := Alone(kind, t, c, Some(slots), listed, true, [Removing(c, obs)]);
    var n := RemoveFromListStep(s, t);
    hide L.Removed;
    assert Stack(s, t) == [Removing(c, obs)] && Stack(s, t)[..0] + [Dropping(c)] == [Dropping(c)];
    assert n.stacks == map[t := [Dropping(c)]] && n.heap == map[c := Context(t, L.Removed(slots, 0, obs), 0)];
  }

  lemma AloneDrops(kind: L.NotificationType, t: ThreadId, c: Address, slots: L.Slots, listed: bool)
    ensures var s, e := Alone(kind, t, c, Some(slots), listed, true, [Dropping(c)]), DropIfEmpty(t);
            && Enabled(s, e)
            && Step(s, e) == Alone(kind, t, c, if slots == [] then None else Some(slots), listed, true, [])
  {
    var s := Alone(kind, t, c, Some(slots), listed, true, [Dropping(c)]);
    var n := DropIfEmptyStep(s, t);
    assert Stack(s, t) == [Dropping(c)] && Stack(s, t)[..0] == [];
    assert map[c := Context(t, slots, 0)] - {c} == map[];
    assert n.stacks == map[t := []];
  }

  lemma AloneFinds(kind: L.NotificationType, t: ThreadId, c: Address, slots: L.Slots, obs: L.Observer)
    requires Some(obs) in slots
    ensures PassFinds(Alone(kind, t, c, Some(slots), true, true, []), t, c, obs)
  {
  }

  /** One event further along a run. */
  lemma OneFurther(kind: L.NotificationType, es: seq<Event>, e: Event, s: State, n: State)
    requires Run(kind, es) == s && Enabled(s, e) && Step(s, e) == n
    ensures Run(kind, es + [e]) == n
  {
    assert (es + [e])[..|es|] == es;
  }

  /** Thread t adds obs as its first observer. */
  lemma FirstObserverAdded(kind: L.NotificationType, t: ThreadId, c: Address, obs: L.Observer, es: seq<Event>)
    requires es == [AddObserver(t, obs, true, c), AddToList(t)]
    ensures Run(kind, es[..1]) == Alone(kind, t, c, Some([]), true, false, [Adding(c, obs)])
    ensures Run(kind, es) == Alone(kind, t, c, Some([Some(obs)]), true, false, [])
  {
    hide Step, Enabled, Alone, Adds;
    assert es[..1] == [AddObserver(t, obs, true, c)];
    assert Run(kind, []) == Init(kind);
    FirstAdd(kind, t, c, obs);
    OneFurther(kind, [], AddObserver(t, obs, true, c), Init(kind), Alone(kind, t, c, Some([]), true, false, [Adding(c, obs)]));
    AloneAddsToList(kind, t, c, [], false, obs);
    assert [] + [Some(obs)] == [Some(obs)] && [] + [AddObserver(t, obs, true, c)] == [AddObserver(t, obs, true, c)];
    OneFurther(kind, [AddObserver(t, obs, true, c)], AddToList(t), Alone(kind, t, c, Some([]), true, false, [Adding(c, obs)]),
               Alone(kind, t, c, Some([Some(obs)]), true, false, []));
  }

  /** A removal after the notification, as far as the list is concerned. */
  lemma RemovedAfter(kind: L.NotificationType, t: ThreadId, c: Address, slots: L.Slots, obs: L.Observer, es: seq<Event>)
    requires Run(kind, es) == Alone(kind, t, c, Some(slots), true, true, []) && Some(obs) in slots
    ensures var p := es + [RemoveObserver(t, obs)];
            && Run(kind, p) == Alone(kind, t, c, Some(slots), |slots| != 1, true, [Removing(c, obs)])
            && Removes(Run(kind, p), RemoveFromList(t), t, obs)
            && Run(kind, p + [RemoveFromList(t)])
               == Alone(kind, t, c, Some(L.Removed(slots, 0, obs)), |slots| != 1, true, [Dropping(c)])
  {
    hide Step, Enabled, Removes, Alone, L.Removed;
    var p := es + [RemoveObserver(t, obs)];
    var s1 := Alone(kind, t, c, Some(slots), |slots| != 1, true, [Removing(c, obs)]);
    AloneRemoves(kind, t, c, slots, obs);
    OneFurther(kind, es, RemoveObserver(t, obs), Run(kind, es), s1);
    AloneRemovesFromList(kind, t, c, slots, |slots| != 1, obs);
    OneFurther(kind, p, RemoveFromList(t), s1,
               Alone(kind, t, c, Some(L.Removed(slots, 0, obs)), |slots| != 1, true, [Dropping(c)]));
  }

  /** The emptiness test, and the observer added again. */
  lemma AddedAfter(kind: L.NotificationType, t: ThreadId, c: Address, slots: L.Slots, obs: L.Observer, addr: Address,
                   es: seq<Event>)
    requires Run(kind, es) == Alone(kind, t, c, Some(slots), slots != [], true, [Dropping(c)]) && Some(obs) !in slots
    requires if slots == [] then addr == c else addr != c
    ensures var p, add := es + [DropIfEmpty(t)], AddObserver(t, obs, true, addr);
            && Run(kind, p) == Alone(kind, t, c, if slots == [] then None else Some(slots), slots != [], true, [])
            && Enabled(Run(kind, p), add)
            && Run(kind, p + [add]) == Alone(kind, t, c, Some(slots), true, true, [Adding(c, obs)])
            && Run(kind, p + [add] + [AddToList(t)]) == Alone(kind, t, c, Some(slots + [Some(obs)]), true, true, [])
  {
    hide Step, Enabled, Adds, Alone;
    var p, add := es + [DropIfEmpty(t)], AddObserver(t, obs, true, addr);
    var context := if slots == [] then None else Some(slots);
    var s1 := Alone(kind, t, c, context, slots != [], true, []);
    AloneDrops(kind, t, c, slots, slots != []);
    OneFurther(kind, es, DropIfEmpty(t), Run(kind, es), s1);
    AloneAdds(kind, t, c, context, true, obs, addr);
    var s2 := Alone(kind, t, c, Some(slots), true, true, [Adding(c, obs)]);
    OneFurther(kind, p, add, s1, s2);
    AloneAddsToList(kind, t, c, slots, true, obs);
    OneFurther(kind, p + [add], AddToList(t), s2, Alone(kind, t, c, Some(slots + [Some(obs)]), true, true, []));
  }

  /** First input: the only observer is removed, its context deleted, and a new context for the
      same observer allocated at the same address. */
  lemma ReusedAddressReceives(kind: L.NotificationType, t: ThreadId, u: ThreadId, c: Address, obs: L.Observer, es: seq<Event>)
    requires es == [AddObserver(t, obs, true, c), AddToList(t), Notify(u), RemoveObserver(t, obs), RemoveFromList(t),
                    DropIfEmpty(t), AddObserver(t, obs, true, c), AddToList(t)]
    ensures Enabled(Run(kind, es[..2]), es[2]) && ListedAt(kind, es, 2, t, c) && RemovedAt(kind, es, 4, t, obs)
    ensures Run(kind, es[..6]).heap == map[] && AllocatedAt(kind, es, 6, t, c)
    ensures AddressReused(kind, es, 2, t, c) && PassFinds(Run(kind, es), t, c, obs)
  {
    hide Step, Enabled, Removes, PassFinds, L.Removed, Run;
    Prefixes(es);
    FirstObserverAdded(kind, t, c, obs, es[..2]);
    AloneNotifies(kind, t, c, [Some(obs)], u);
    OneFurther(kind, es[..2], es[2], Run(kind, es[..2]), Alone(kind, t, c, Some([Some(obs)]), true, true, []));
    RemovedAfter(kind, t, c, [Some(obs)], obs, es[..3]);
    OnlyOneRemoved(obs);
    assert es[..3] + [es[3]] + [es[4]] == es[..5];
    AddedAfter(kind, t, c, [], obs, c, es[..5]);
    assert es[..5] + [es[5]] + [es[6]] + [es[7]] == es;
    assert [] + [Some(obs)] == [Some(obs)];
    AloneFinds(kind, t, c, [Some(obs)], obs);
    assert NamedSince(kind, es, 6, t, c);
  }

  lemma OnlyOneRemoved(obs: L.Observer)
    ensures L.Removed([Some(obs)], 0, obs) == []
  {
  }

  /** Second input, in which no address is handed out twice: another observer of the thread
      keeps the context alive and listed. */
  lemma KeptContextReceives(kind: L.NotificationType, t: ThreadId, u: ThreadId, c: Address, x: Address, a: L.Observer,
                            b: L.Observer, es: seq<Event>)
    requires a != b && x != c
    requires es == [AddObserver(t, a, true, c), AddToList(t), AddObserver(t, b, true, x), AddToList(t), Notify(u),
                    RemoveObserver(t, a), RemoveFromList(t), DropIfEmpty(t), AddObserver(t, a, true, x), AddToList(t)]
    ensures Enabled(Run(kind, es[..4]), es[4]) && ListedAt(kind, es, 4, t, c) && RemovedAt(kind, es, 6, t, a)
    ensures forall k :: 0 < k <= |es| ==> HasOnly(Run(kind, es[..k]), t, c)
    ensures EntryKept(kind, es, 4, t, c) && PassFinds(Run(kind, es), t, c, a)
  {
    hide Step, Enabled, Removes, PassFinds, HasOnly, L.Removed, Run;
    Prefixes(es);
    AloneHasOnly(kind, t, c);
    FirstObserverAdded(kind, t, c, a, es[..2]);
    SecondAdded(kind, t, c, x, a, b, es[..2]);
    assert es[..2] + [es[2]] + [es[3]] == es[..4];
    AloneNotifies(kind, t, c, [Some(a), Some(b)], u);
    OneFurther(kind, es[..4], es[4], Run(kind, es[..4]), Alone(kind, t, c, Some([Some(a), Some(b)]), true, true, []));
    RemovedAfter(kind, t, c, [Some(a), Some(b)], a, es[..5]);
    FirstOfTwoRemoved(a, b);
    assert es[..5] + [es[5]] + [es[6]] == es[..7];
    AddedAfter(kind, t, c, [Some(b)], a, x, es[..7]);
    assert es[..7] + [es[7]] + [es[8]] + [es[9]] == es && [Some(b)] + [Some(a)] == [Some(b), Some(a)];
    AloneFinds(kind, t, c, [Some(b), Some(a)], a);
    KeptThroughout(kind, es, 4, t, c);
  }

  /** The context at c is the only one, and thread t's entry names it. */
  predicate HasOnly(s: State, t: ThreadId, c: Address) {
    s.heap.Keys == {c} && s.lists == map[t := c]
  }

  lemma AloneHasOnly(kind: L.NotificationType, t: ThreadId, c: Address)
    ensures forall slots, posted, st :: HasOnly(Alone(kind, t, c, Some(slots), true, posted, st), t, c)
  {
  }

  lemma KeptThroughout(kind: L.NotificationType, es: seq<Event>, n: nat, t: ThreadId, c: Address)
    requires n > 0 && forall k :: 0 < k <= |es| ==> HasOnly(Run(kind, es[..k]), t, c)
    ensures EntryKept(kind, es, n, t, c)
  {
    hide Run;
  }

  lemma FirstOfTwoRemoved(a: L.Observer, b: L.Observer)
    requires a != b
    ensures L.Removed([Some(a), Some(b)], 0, a) == [Some(b)]
  {
  }

  /** A second observer joins the first one's context. */
  lemma SecondAdded(kind: L.NotificationType, t: ThreadId, c: Address, x: Address, a: L.Observer, b: L.Observer, es: seq<Event>)
    requires a != b && x != c && Run(kind, es) == Alone(kind, t, c, Some([Some(a)]), true, false, [])
    ensures var p := es + [AddObserver(t, b, true, x)];
            && Run(kind, p) == Alone(kind, t, c, Some([Some(a)]), true, false, [Adding(c, b)])
            && Run(kind, p + [AddToList(t)]) == Alone(kind, t, c, Some([Some(a), Some(b)]), true, false, [])
  {
    hide Step, Enabled, Adds, Alone, Run;
    var s1 := Alone(kind, t, c, Some([Some(a)]), true, false, [Adding(c, b)]);
    AloneAdds(kind, t, c, Some([Some(a)]), false, b, x);
    OneFurther(kind, es, AddObserver(t, b, true, x), Run(kind, es), s1);
    AloneAddsToList(kind, t, c, [Some(a)], false, b);
    assert [Some(a)] + [Some(b)] == [Some(a), Some(b)];
    OneFurther(kind, es + [AddObserver(t, b, true, x)], AddToList(t), s1,
               Alone(kind, t, c, Some([Some(a), Some(b)]), true, false, []));
  }

  /** Thread t in a pass over its only context, the task being gone. */
  function AloneInPass(kind: L.NotificationType, t: ThreadId, c: Address, slots: L.Slots, depth: nat, st: seq<Frame>): State {
    State(kind, map[c := Context(t, slots, depth)], map[t := c], map[t := multiset{}], map[t := st], false, false)
  }

  lemma AloneRunsTask(kind: L.NotificationType, t: ThreadId, c: Address, slots: L.Slots)
    ensures var s, e := Alone(kind, t, c, Some(slots), true, true, []), RunTask(t, c);
            Enabled(s, e) && Step(s, e) == AloneInPass(kind, t, c, slots, 0, [Entered(c)])
  {
    var s := Alone(kind, t, c, Some(slots), true, true, []);
    assert [] + [Entered(c)] == [Entered(c)];
    assert RunTaskStep(s, t, c).stacks == map[t := [Entered(c)]];
    assert RunTaskStep(s, t, c).tasks == map[t := multiset{}];
  }

  lemma AloneBegins(kind: L.NotificationType, t: ThreadId, c: Address, slots: L.Slots)
    ensures var s, e := AloneInPass(kind, t, c, slots, 0, [Entered(c)]), BeginPass(t);
            Enabled(s, e) && Step(s, e) == AloneInPass(kind, t, c, slots, 1, [Iterating(c, 0, L.MaxIndex(kind, slots))])
  {
    var s := AloneInPass(kind, t, c, slots, 0, [Entered(c)]);
    var n, f := BeginPassStep(s, t), Iterating(c, 0, L.MaxIndex(kind, slots));
    assert Stack(s, t) == [Entered(c)] && Stack(s, t)[..0] + [f] == [f];
    assert n.stacks == map[t := [f]] && n.heap == map[c := Context(t, slots, 1)];
  }

  lemma AloneCalls(kind: L.NotificationType, t: ThreadId, c: Address, b: L.Observer, max: nat)
    requires max > 0
    ensures var s, e := AloneInPass(kind, t, c, [Some(b)], 1, [Iterating(c, 0, max)]), NextObserver(t);
            Enabled(s, e) && Step(s, e) == AloneInPass(kind, t, c, [Some(b)], 1, [Calling(c, 1, max)])
  {
    var s := AloneInPass(kind, t, c, [Some(b)], 1, [Iterating(c, 0, max)]);
    var n := NextObserverStep(s, t);
    assert L.Next([Some(b)], 0, max) == (Some(b), 1);
    assert Stack(s, t) == [Iterating(c, 0, max)] && Stack(s, t)[..0] + [Calling(c, 1, max)] == [Calling(c, 1, max)];
    assert n.stacks == map[t := [Calling(c, 1, max)]];
  }

  lemma AloneAddsInPass(kind: L.NotificationType, t: ThreadId, c: Address, slots: L.Slots, a: L.Observer, max: nat, x: Address)
    requires x != c && Some(a) !in slots
    ensures var s, e := AloneInPass(kind, t, c, slots, 1, [Calling(c, 1, max)]), AddObserver(t, a, true, x);
            Enabled(s, e) && Step(s, e) == AloneInPass(kind, t, c, slots, 1, [Calling(c, 1, max), Adding(c, a)])
    ensures var s, e := AloneInPass(kind, t, c, slots, 1, [Calling(c, 1, max), Adding(c, a)]), AddToList(t);
            Enabled(s, e) && Step(s, e) == AloneInPass(kind, t, c, slots + [Some(a)], 1, [Calling(c, 1, max)])
  {
    var s := AloneInPass(kind, t, c, slots, 1, [Calling(c, 1, max)]);
    var n := AddObserverStep(s, t, a, true, x);
    assert [Calling(c, 1, max)] + [Adding(c, a)] == [Calling(c, 1, max), Adding(c, a)];
    assert n.stacks == map[t := [Calling(c, 1, max), Adding(c, a)]];
    var s1 := AloneInPass(kind, t, c, slots, 1, [Calling(c, 1, max), Adding(c, a)]);
    var n1 := AddToListStep(s1, t);
    assert Stack(s1, t)[..1] == [Calling(c, 1, max)];
    assert n1.stacks == map[t := [Calling(c, 1, max)]] && n1.heap == map[c := Context(t, slots + [Some(a)], 1)];
  }

  lemma AloneReturns(kind: L.NotificationType, t: ThreadId, c: Address, slots: L.Slots, max: nat)
    ensures var s, e := AloneInPass(kind, t, c, slots, 1, [Calling(c, 1, max)]), ReturnFromCallback(t);
            Enabled(s, e) && Step(s, e) == AloneInPass(kind, t, c, slots, 1, [Iterating(c, 1, max)])
  {
    var s := AloneInPass(kind, t, c, slots, 1, [Calling(c, 1, max)]);
    var n := ReturnFromCallbackStep(s, t);
    assert Stack(s, t) == [Calling(c, 1, max)] && Stack(s, t)[..0] + [Iterating(c, 1, max)] == [Iterating(c, 1, max)];
    assert n.stacks == map[t := [Iterating(c, 1, max)]];
  }

  lemma AloneCallsSecond(kind: L.NotificationType, t: ThreadId, c: Address, b: L.Observer, a: L.Observer, max: nat)
    requires max > 1
    ensures CallsIt(AloneInPass(kind, t, c, [Some(b), Some(a)], 1, [Iterating(c, 1, max)]), NextObserver(t), t, 0, a)
  {
    assert L.Next([Some(b), Some(a)], 1, max) == (Some(a), 2);
  }

  /** Six events further along a run. */
  lemma SixFurther(s0: State, e0: Event, s1: State, e1: Event, s2: State, e2: Event, s3: State, e3: Event, s4: State,
                   e4: Event, s5: State, e5: Event, s6: State)
    requires Enabled(s0, e0) && Step(s0, e0) == s1 && Enabled(s1, e1) && Step(s1, e1) == s2
    requires Enabled(s2, e2) && Step(s2, e2) == s3 && Enabled(s3, e3) && Step(s3, e3) == s4
    requires Enabled(s4, e4) && Step(s4, e4) == s5 && Enabled(s5, e5) && Step(s5, e5) == s6
    ensures RunFrom(s0, [e0, e1, e2, e3, e4, e5]) == s6
  {
    hide Step, Enabled;
    assert [e0, e1, e2, e3, e4, e5][1..] == [e1, e2, e3, e4, e5] && [e1, e2, e3, e4, e5][1..] == [e2, e3, e4, e5];
    assert [e2, e3, e4, e5][1..] == [e3, e4, e5] && [e3, e4, e5][1..] == [e4, e5] && [e4, e5][1..] == [e5] && [e5][1..] == [];
    assert RunFrom(s5, [e5]) == s6;
    assert RunFrom(s4, [e4, e5]) == s6;
    assert RunFrom(s3, [e3, e4, e5]) == s6;
    assert RunFrom(s2, [e2, e3, e4, e5]) == s6;
    assert RunFrom(s1, [e1, e2, e3, e4, e5]) == s6;
  }

  /** Third input, under NotifyAll: the task finds the other observer alone, and the method of
      that one adds the removed one again. */
  lemma AddedDuringPassReceives(t: ThreadId, u: ThreadId, c: Address, x: Address, a: L.Observer, b: L.Observer,
                                es: seq<Event>, xs: seq<Event>)
    requires a != b && x != c
    requires es == [AddObserver(t, a, true, c), AddToList(t), AddObserver(t, b, true, x), AddToList(t), Notify(u),
                    RemoveObserver(t, a), RemoveFromList(t), DropIfEmpty(t)]
    requires xs == [RunTask(t, c), BeginPass(t), NextObserver(t), AddObserver(t, a, true, x), AddToList(t),
                    ReturnFromCallback(t)]
    ensures var kind := L.NotifyAll;
            && Enabled(Run(kind, es[..4]), es[4]) && ListedAt(kind, es, 4, t, c) && RemovedAt(kind, es, 6, t, a)
            && Enabled(Run(kind, es), RunTask(t, c)) && !PassFinds(Run(kind, es), t, c, a)
            && CallsIt(RunFrom(Run(kind, es), xs), NextObserver(t), t, 0, a)
  {
    var kind, max := L.NotifyAll, SIZE_MAX;
    hide Step, Enabled, Removes, PassFinds, CallsIt, L.Removed, Run, RunFrom;
    Prefixes(es);
    FirstObserverAdded(kind, t, c, a, es[..2]);
    SecondAdded(kind, t, c, x, a, b, es[..2]);
    assert es[..2] + [es[2]] + [es[3]] == es[..4];
    AloneNotifies(kind, t, c, [Some(a), Some(b)], u);
    OneFurther(kind, es[..4], es[4], Run(kind, es[..4]), Alone(kind, t, c, Some([Some(a), Some(b)]), true, true, []));
    RemovedAfter(kind, t, c, [Some(a), Some(b)], a, es[..5]);
    FirstOfTwoRemoved(a, b);
    assert es[..5] + [es[5]] + [es[6]] == es[..7] && es[..7] + [es[7]] == es;
    AloneDrops(kind, t, c, [Some(b)], true);
    var s0 := Alone(kind, t, c, Some([Some(b)]), true, true, []);
    OneFurther(kind, es[..7], es[7], Run(kind, es[..7]), s0);
    AloneRunsTask(kind, t, c, [Some(b)]);
    AloneDoesNotFind(kind, t, c, b, a);
    AddedDuringPass(t, c, x, a, b, xs);
  }

  lemma AloneDoesNotFind(kind: L.NotificationType, t: ThreadId, c: Address, b: L.Observer, a: L.Observer)
    requires a != b
    ensures !PassFinds(Alone(kind, t, c, Some([Some(b)]), true, true, []), t, c, a)
  {
  }

  lemma AddedDuringPass(t: ThreadId, c: Address, x: Address, a: L.Observer, b: L.Observer, xs: seq<Event>)
    requires a != b && x != c
    requires xs == [RunTask(t, c), BeginPass(t), NextObserver(t), AddObserver(t, a, true, x), AddToList(t),
                    ReturnFromCallback(t)]
    ensures CallsIt(RunFrom(Alone(L.NotifyAll, t, c, Some([Some(b)]), true, true, []), xs), NextObserver(t), t, 0, a)
  {
    var kind, max := L.NotifyAll, SIZE_MAX;
    hide Step, Enabled, CallsIt, RunFrom, Alone, AloneInPass;
    AloneRunsTask(kind, t, c, [Some(b)]);
    AloneBegins(kind, t, c, [Some(b)]);
    AloneCalls(kind, t, c, b, max);
    AloneAddsInPass(kind, t, c, [Some(b)], a, max, x);
    assert [Some(b)] + [Some(a)] == [Some(b), Some(a)];
    AloneReturns(kind, t, c, [Some(b), Some(a)], max);
    SixFurther(Alone(kind, t, c, Some([Some(b)]), true, true, []),
               xs[0], AloneInPass(kind, t, c, [Some(b)], 0, [Entered(c)]),
               xs[1], AloneInPass(kind, t, c, [Some(b)], 1, [Iterating(c, 0, max)]),
               xs[2], AloneInPass(kind, t, c, [Some(b)], 1, [Calling(c, 1, max)]),
               xs[3], AloneInPass(kind, t, c, [Some(b)], 1, [Calling(c, 1, max), Adding(c, a)]),
               xs[4], AloneInPass(kind, t, c, [Some(b), Some(a)], 1, [Calling(c, 1, max)]),
               xs[5], AloneInPass(kind, t, c, [Some(b), Some(a)], 1, [Iterating(c, 1, max)]));
    AloneCallsSecond(kind, t, c, b, a, max);
  }

  lemma Prefixes(es: seq<Event>)
    ensures forall k :: 0 <= k < |es| ==> es[..k + 1] == es[..k] + [es[k]]
    ensures es[..|es|] == es
  {
  }
}
