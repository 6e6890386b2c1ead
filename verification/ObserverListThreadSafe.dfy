/**
  base/observer_list_threadsafe.h: one ObserverList per thread, notified by posted tasks
  that carry raw context pointers.

  The model is a machine whose atomic steps are the sections under `list_lock_` and the
  accesses to one thread's own list. Any thread may take the next step. A freed address
  may be handed out again by a later allocation, so a task's pointer may dangle or may
  have come to denote another context; every access through a pointer is checked, and an
  access or a second deletion of freed memory sets `faulted`.
*/
module ObserverListThreadSafe {
  import opened Common
  import opened ObserverList

  type ThreadId = nat
  type Address = nat

  /** ObserverListContext: the thread of its task runner, and its list. */
  datatype Context = Context(thread: ThreadId, slots: Slots, depth: nat)

  /** Where a call made by a thread stands; c is the context pointer it holds. */
  datatype Frame =
    | Outside                              // no call in progress
    | Adding(c: Address, obs: Observer)    // AddObserver, after its locked section
    | Removing(c: Address, obs: Observer)  // RemoveObserver, after its locked section
    | Dropping(c: Address)                 // RemoveObserver, before testing size() == 0
    | Entered(c: Address)                  // NotifyWrapper, after the first locked section
    | Iterating(c: Address, index: nat, maxIndex: nat)  // before it.GetNext()
    | Calling(c: Address, index: nat, maxIndex: nat)    // inside method.Run(obs)
    | Leaving(c: Address)                  // iterator destroyed, before testing size() == 0
    | Erasing(c: Address)                  // before the second locked section
    | Deleting(c: Address)                 // before delete context

  datatype State = State(
    kind: NotificationType,
    heap: map<Address, Context>,
    lists: map<ThreadId, Address>,              // observer_lists_
    tasks: map<ThreadId, multiset<Address>>,    // posted NotifyWrapper tasks
    stacks: map<ThreadId, seq<Frame>>,          // innermost call last
    destroyed: bool,
    faulted: bool)

  datatype Event =
    | AddObserver(t: ThreadId, obs: Observer, hasLoop: bool, addr: Address)
    | AddToList(t: ThreadId)
    | RemoveObserver(t: ThreadId, obs: Observer)
    | RemoveFromList(t: ThreadId)
    | DropIfEmpty(t: ThreadId)
    | Notify(t: ThreadId)
    | RunTask(t: ThreadId, task: Address)
    | BeginPass(t: ThreadId)
    | NextObserver(t: ThreadId)
    | ReturnFromCallback(t: ThreadId)
    | TestSize(t: ThreadId)
    | EraseEntry(t: ThreadId)
    | DeleteContext(t: ThreadId)
    | DestroyList

  function Init(kind: NotificationType): State {
    State(kind, map[], map[], map[], map[], false, false)
  }

  function Stack(s: State, t: ThreadId): seq<Frame> {
    if t in s.stacks then s.stacks[t] else []
  }

  function Tasks(s: State, t: ThreadId): multiset<Address> {
    if t in s.tasks then s.tasks[t] else multiset{}
  }

  /** The thread runs its own code: at the top level or in an observer's method, which may
      also run a nested message loop. */
  predicate Idle(st: seq<Frame>) {
    Top(st).Outside? || Top(st).Calling?
  }

  function Top(st: seq<Frame>): Frame {
    if st == [] then Outside else st[|st| - 1]
  }

  predicate Enabled(s: State, e: Event) {
    !s.destroyed &&
    match e
    case AddObserver(t, _, _, addr) => Idle(Stack(s, t)) && addr !in s.heap
    case RemoveObserver(t, _) => Idle(Stack(s, t))
    case Notify(t) => Idle(Stack(s, t))
    case RunTask(t, task) => Idle(Stack(s, t)) && task in Tasks(s, t)
    case AddToList(t) => Top(Stack(s, t)).Adding?
    case RemoveFromList(t) => Top(Stack(s, t)).Removing?
    case DropIfEmpty(t) => Top(Stack(s, t)).Dropping?
    case BeginPass(t) => Top(Stack(s, t)).Entered?
    case NextObserver(t) => Top(Stack(s, t)).Iterating?
    case ReturnFromCallback(t) => Top(Stack(s, t)).Calling?
    case TestSize(t) => Top(Stack(s, t)).Leaving?
    case EraseEntry(t) => Top(Stack(s, t)).Erasing?
    case DeleteContext(t) => Top(Stack(s, t)).Deleting?
    // The last reference goes: no bound task, and no call in progress.
    case DestroyList =>
      && (forall t :: t in s.stacks ==> s.stacks[t] == [])
      && (forall t :: t in s.tasks ==> s.tasks[t] == multiset{})
  }

  // ----- the steps --------------------------------------------------------------------

  function Fault(s: State): State { s.(faulted := true) }

  function Push(s: State, t: ThreadId, f: Frame): State {
    s.(stacks := s.stacks[t := Stack(s, t) + [f]])
  }

  function Pop(s: State, t: ThreadId): State
    requires Stack(s, t) != []
  {
    s.(stacks := s.stacks[t := Stack(s, t)[..|Stack(s, t)| - 1]])
  }

  function Replace(s: State, t: ThreadId, f: Frame): State
    requires Stack(s, t) != []
  {
    s.(stacks := s.stacks[t := Stack(s, t)[..|Stack(s, t)| - 1] + [f]])
  }

  function Write(s: State, c: Address, slots: Slots, depth: nat): State
    requires c in s.heap
  {
    s.(heap := s.heap[c := s.heap[c].(slots := slots, depth := depth)])
  }

  function Free(s: State, c: Address): State {
    if c in s.heap then s.(heap := s.heap - {c}) else Fault(s)
  }

  function AddObserverStep(s: State, t: ThreadId, obs: Observer, hasLoop: bool, addr: Address): State
  {
    if !hasLoop then s
    else if t in s.lists then Push(s, t, Adding(s.lists[t], obs))
    else Push(s.(heap := s.heap[addr := Context(t, [], 0)], lists := s.lists[t := addr]), t, Adding(addr, obs))
  }

  function AddToListStep(s: State, t: ThreadId): State
    requires Top(Stack(s, t)).Adding?
  {
    var f := Top(Stack(s, t));
    if f.c !in s.heap then Fault(s)
    else Pop(Write(s, f.c, Added(s.heap[f.c].slots, f.obs), s.heap[f.c].depth), t)
  }

  function RemoveObserverStep(s: State, t: ThreadId, obs: Observer): State
  {
    if t !in s.lists then s
    else
      var c := s.lists[t];
      if c !in s.heap then Fault(s)
      else
        var last := Some(obs) in s.heap[c].slots && |s.heap[c].slots| == 1;
        Push(if last then s.(lists := s.lists - {t}) else s, t, Removing(c, obs))
  }

  function RemoveFromListStep(s: State, t: ThreadId): State
    requires Top(Stack(s, t)).Removing?
  {
    var f := Top(Stack(s, t));
    if f.c !in s.heap then Fault(s)
    else
      var x := s.heap[f.c];
      Replace(Write(s, f.c, Removed(x.slots, x.depth, f.obs), x.depth), t, Dropping(f.c))
  }

  function DropIfEmptyStep(s: State, t: ThreadId): State
    requires Top(Stack(s, t)).Dropping?
  {
    var c := Top(Stack(s, t)).c;
    if c !in s.heap then Fault(s)
    else Pop(if |s.heap[c].slots| == 0 then Free(s, c) else s, t)
  }

  function NotifyStep(s: State, t: ThreadId): State
  {
    if exists k :: k in s.lists && s.lists[k] !in s.heap then Fault(s)
    else
      s.(tasks := map u | u in s.tasks.Keys + (set k | k in s.lists :: s.heap[s.lists[k]].thread) ::
           Tasks(s, u) + multiset(set k | k in s.lists && s.heap[s.lists[k]].thread == u :: s.lists[k]))
  }

  function RunTaskStep(s: State, t: ThreadId, task: Address): State
  {
    var s1 := s.(tasks := s.tasks[t := Tasks(s, t) - multiset{task}]);
    if t !in s.lists || s.lists[t] != task then s1 else Push(s1, t, Entered(task))
  }

  function BeginPassStep(s: State, t: ThreadId): State
    requires Top(Stack(s, t)).Entered?
  {
    var c := Top(Stack(s, t)).c;
    if c !in s.heap then Fault(s)
    else
      var x := s.heap[c];
      Replace(Write(s, c, x.slots, x.depth + 1), t, Iterating(c, 0, MaxIndex(s.kind, x.slots)))
  }

  function NextObserverStep(s: State, t: ThreadId): State
    requires Top(Stack(s, t)).Iterating?
  {
    var f := Top(Stack(s, t));
    if f.c !in s.heap then Fault(s)
    else
      var x := s.heap[f.c];
      var r := Next(x.slots, f.index, f.maxIndex);
      if r.0.Some? then Replace(s, t, Calling(f.c, r.1, f.maxIndex))
      else if x.depth == 0 then Fault(s)
      else
        // the end of the iterator's scope: ~Iterator
        Replace(Write(s, f.c, if x.depth == 1 then Compacted(x.slots) else x.slots, x.depth - 1), t, Leaving(f.c))
  }

  function ReturnFromCallbackStep(s: State, t: ThreadId): State
    requires Top(Stack(s, t)).Calling?
  {
    var f := Top(Stack(s, t));
    Replace(s, t, Iterating(f.c, f.index, f.maxIndex))
  }

  function TestSizeStep(s: State, t: ThreadId): State
    requires Top(Stack(s, t)).Leaving?
  {
    var c := Top(Stack(s, t)).c;
    if c !in s.heap then Fault(s)
    else if |s.heap[c].slots| == 0 then Replace(s, t, Erasing(c)) else Pop(s, t)
  }

  function EraseEntryStep(s: State, t: ThreadId): State
    requires Top(Stack(s, t)).Erasing?
  {
    var c := Top(Stack(s, t)).c;
    Replace(if t in s.lists && s.lists[t] == c then s.(lists := s.lists - {t}) else s, t, Deleting(c))
  }

  function DeleteContextStep(s: State, t: ThreadId): State
    requires Top(Stack(s, t)).Deleting?
  {
    Pop(Free(s, Top(Stack(s, t)).c), t)
  }

  function DestroyListStep(s: State): State
  {
    var s1 := s.(destroyed := true, lists := map[], heap := s.heap - s.lists.Values);
    // every value is deleted in turn: a dangling or repeated one is a fault
    if (exists k :: k in s.lists && s.lists[k] !in s.heap) ||
       (exists j, k :: j in s.lists && k in s.lists && j != k && s.lists[j] == s.lists[k])
    then Fault(s1) else s1
  }

  function Step(s: State, e: Event): State
    requires Enabled(s, e)
  {
    match e
    case AddObserver(t, obs, hasLoop, addr) => AddObserverStep(s, t, obs, hasLoop, addr)
    case AddToList(t) => AddToListStep(s, t)
    case RemoveObserver(t, obs) => RemoveObserverStep(s, t, obs)
    case RemoveFromList(t) => RemoveFromListStep(s, t)
    case DropIfEmpty(t) => DropIfEmptyStep(s, t)
    case Notify(t) => NotifyStep(s, t)
    case RunTask(t, task) => RunTaskStep(s, t, task)
    case BeginPass(t) => BeginPassStep(s, t)
    case NextObserver(t) => NextObserverStep(s, t)
    case ReturnFromCallback(t) => ReturnFromCallbackStep(s, t)
    case TestSize(t) => TestSizeStep(s, t)
    case EraseEntry(t) => EraseEntryStep(s, t)
    case DeleteContext(t) => DeleteContextStep(s, t)
    case DestroyList => DestroyListStep(s)
  }

  // ----- the invariant ----------------------------------------------------------------

  predicate InPass(f: Frame) { f.Iterating? || f.Calling? }

  /** How many iterators on context c are alive on this stack. */
  function Passes(st: seq<Frame>, c: Address): nat {
    if st == [] then 0
    else Passes(st[..|st| - 1], c) + (if InPass(st[|st| - 1]) && st[|st| - 1].c == c then 1 else 0)
  }

  /** What holds of a context c of the thread with this stack; `listed` says whether
      observer_lists_ maps the thread to c. */
  ghost predicate ContextOk(x: Context, c: Address, listed: bool, st: seq<Frame>) {
    var f := Top(st);
    var here := !f.Outside? && f.c == c;
    && DuplicateFree(x.slots)
    && x.depth == Passes(st, c)
    && (x.depth == 0 ==> None !in x.slots)
    && (x.depth > 0 ==> x.slots != [])
    && (x.slots == [] ==> here && (f.Adding? || (f.Dropping? && !listed) || f.Leaving? || f.Erasing? || f.Deleting?))
    && (listed || Mentions(st, c))
    && (!listed ==> AllNull(x.slots) || (here && f.Removing? && x.slots == [Some(f.obs)]))
    && (here && (f.Adding? || f.Entered?) ==> listed)
    && (here && f.Removing? && listed ==> x.slots != [Some(f.obs)])
    && (here && f.Erasing? ==> x.slots == [])
    && (here && f.Deleting? ==> !listed && x.slots == [])
  }

  ghost predicate Mentions(st: seq<Frame>, c: Address) {
    exists i :: 0 <= i < |st| && !st[i].Outside? && st[i].c == c
  }

  ghost predicate AllNull(slots: Slots) {
    forall i :: 0 <= i < |slots| ==> slots[i] == None
  }

  ghost predicate ThreadOk(s: State, t: ThreadId) {
    var st := Stack(s, t);
    && (forall i :: 0 <= i < |st| - 1 ==> st[i].Calling?)
    && (forall i :: 0 <= i < |st| ==> !st[i].Outside? && st[i].c in s.heap && s.heap[st[i].c].thread == t)
    && (t in s.lists ==> s.lists[t] in s.heap && s.heap[s.lists[t]].thread == t)
    && (forall c :: c in s.heap && s.heap[c].thread == t ==>
          ContextOk(s.heap[c], c, t in s.lists && s.lists[t] == c, st))
    && (Top(st).Removing? && t in s.lists ==> s.lists[t] == Top(st).c)
  }

  ghost predicate Inv(s: State) {
    !s.faulted && (!s.destroyed ==> forall t :: ThreadOk(s, t)) && (s.destroyed ==> s.heap == map[] && s.lists == map[])
  }

  /** A step of thread t leaves what thread u depends on alone. */
  ghost predicate Untouched(s: State, s': State, u: ThreadId) {
    && Stack(s, u) == Stack(s', u)
    && (u in s.lists <==> u in s'.lists)
    && (u in s.lists ==> s.lists[u] == s'.lists[u])
    && (forall c :: c in s.heap && s.heap[c].thread == u ==> c in s'.heap && s'.heap[c] == s.heap[c])
    && (forall c :: c in s'.heap && s'.heap[c].thread == u ==> c in s.heap && s'.heap[c] == s.heap[c])
  }

  lemma UntouchedThreadIsOk(s: State, s': State, u: ThreadId)
    requires ThreadOk(s, u) && Untouched(s, s', u)
    ensures ThreadOk(s', u)
  {
    forall c | c in s'.heap && s'.heap[c].thread == u
      ensures ContextOk(s'.heap[c], c, u in s'.lists && s'.lists[u] == c, Stack(s', u))
    {
      assert ContextOk(s.heap[c], c, u in s.lists && s.lists[u] == c, Stack(s, u));
    }
  }

  // ----- stacks -----------------------------------------------------------------------

  lemma PassesOfPush(st: seq<Frame>, f: Frame, c: Address)
    ensures Passes(st + [f], c) == Passes(st, c) + (if InPass(f) && f.c == c then 1 else 0)
  {
    assert (st + [f])[..|st|] == st;
  }

  lemma {:induction false} PassesIffMentioned(st: seq<Frame>, c: Address)
    ensures Passes(st, c) > 0 <==> exists i :: 0 <= i < |st| && InPass(st[i]) && st[i].c == c
  {
    if st != [] {
      var n := |st| - 1;
      PassesIffMentioned(st[..n], c);
      assert forall i :: 0 <= i < n ==> st[..n][i] == st[i];
    }
  }

  /** The part of the stack below the top holds only callbacks in progress. */
  ghost predicate Below(st: seq<Frame>) {
    forall i :: 0 <= i < |st| ==> st[i].Calling?
  }

  lemma BelowPassesIffMentions(st: seq<Frame>, c: Address)
    requires Below(st)
    ensures Passes(st, c) > 0 <==> Mentions(st, c)
  {
    PassesIffMentioned(st, c);
  }

  /** ContextOk of a context that the top of the stack says nothing special about. */
  ghost predicate Ordinary(x: Context, c: Address, listed: bool, st: seq<Frame>) {
    && DuplicateFree(x.slots)
    && x.depth == Passes(st, c)
    && (x.depth == 0 ==> None !in x.slots)
    && x.slots != []
    && (listed || Mentions(st, c))
    && (!listed ==> AllNull(x.slots))
  }

  /** While a call frame f sits on callbacks, the contexts other than f's are ordinary, and
      they stay so when f is pushed, replaced or popped. */
  lemma OtherContexts(x: Context, c: Address, listed: bool, below: seq<Frame>, f: Frame)
    requires Below(below) && !f.Outside? && f.c != c
    ensures ContextOk(x, c, listed, below) <==> Ordinary(x, c, listed, below)
    ensures ContextOk(x, c, listed, below + [f]) <==> Ordinary(x, c, listed, below)
  {
    PassesOfPush(below, f, c);
    assert Mentions(below + [f], c) <==> Mentions(below, c) by {
      var st := below + [f];
      if Mentions(st, c) {
        var i :| 0 <= i < |st| && !st[i].Outside? && st[i].c == c;
        assert below[i] == st[i];
      }
      if Mentions(below, c) {
        var i :| 0 <= i < |below| && !below[i].Outside? && below[i].c == c;
        assert st[i] == below[i];
      }
    }
  }

  lemma OtherContextStays(x: Context, d: Address, listed: bool, below: seq<Frame>, was: seq<Frame>, now: seq<Frame>)
    requires Below(below) && |was| <= 1 && |now| <= 1
    requires forall f :: f in was + now ==> !f.Outside? && f.c != d
    requires was + now != []
    requires ContextOk(x, d, listed, below + was)
    ensures ContextOk(x, d, listed, below + now)
  {
    hide ContextOk, Ordinary, Below;
    assert below + [] == below;
    if was != [] {
      assert was == [was[0]] && was[0] in was + now;
      OtherContexts(x, d, listed, below, was[0]);
    }
    if now != [] {
      assert now == [now[0]] && now[0] in was + now;
      OtherContexts(x, d, listed, below, now[0]);
    }
  }

  /** Thread t is left with `st` on its stack, `entry` in observer_lists_ and `x` as context
      c, and nothing of another thread or context has changed. */
  ghost predicate LocalStep(s: State, s': State, t: ThreadId, st: seq<Frame>, c: Address, x: Option<Context>) {
    && s'.faulted == s.faulted && s'.destroyed == s.destroyed
    && s'.stacks == s.stacks[t := st]
    && (forall u :: u != t ==> (u in s.lists <==> u in s'.lists) && (u in s.lists ==> s'.lists[u] == s.lists[u]))
    && s'.heap == (if x.Some? then s.heap[c := x.value] else s.heap - {c})
    && (x.Some? ==> x.value.thread == t)
    && (c in s.heap ==> s.heap[c].thread == t)
  }

  ghost predicate Listed(s: State, t: ThreadId, c: Address) {
    t in s.lists && s.lists[t] == c
  }

  /** Thread t with `was` on top of callbacks moves to `now`, working on context c only,
      and leaves c in order, or nowhere mentioned. */
  ghost predicate Orderly(s: State, s': State, t: ThreadId, below: seq<Frame>, was: seq<Frame>, now: seq<Frame>,
                          c: Address, x: Option<Context>) {
    && Stack(s, t) == below + was && |was| <= 1 && |now| <= 1 && was + now != []
    && (forall f :: f in was + now ==> !f.Outside? && f.c == c)
    && Below(below) && LocalStep(s, s', t, below + now, c, x)
    && (forall d :: d != c ==> (Listed(s, t, d) <==> Listed(s', t, d)))
    && (now != [] && now[0].Removing? && t in s'.lists ==> s'.lists[t] == c)
    && if x.Some? then ContextOk(x.value, c, Listed(s', t, c), below + now)
       else !Mentions(below + now, c) && !Listed(s', t, c)
  }

  lemma OtherContextsStay(s: State, s': State, t: ThreadId, below: seq<Frame>, was: seq<Frame>, now: seq<Frame>,
                          c: Address, x: Option<Context>, d: Address)
    requires ThreadOk(s, t) && Orderly(s, s', t, below, was, now, c, x)
    requires d in s'.heap && s'.heap[d].thread == t
    ensures ContextOk(s'.heap[d], d, Listed(s', t, d), below + now)
  {
    hide ContextOk;
    if d != c {
      assert d in s.heap && ContextOk(s.heap[d], d, Listed(s, t, d), below + was);
      OtherContextStays(s.heap[d], d, Listed(s, t, d), below, was, now);
    }
  }

  lemma OwnThreadStaysOk(s: State, s': State, t: ThreadId, below: seq<Frame>, was: seq<Frame>, now: seq<Frame>,
                         c: Address, x: Option<Context>)
    requires ThreadOk(s, t) && Orderly(s, s', t, below, was, now, c, x)
    ensures ThreadOk(s', t)
  {
    hide ContextOk;
    var st := below + now;
    assert t in s'.lists ==> Listed(s', t, s'.lists[t]);
    forall i | 0 <= i < |st|
      ensures !st[i].Outside? && st[i].c in s'.heap && s'.heap[st[i].c].thread == t
    {
      if i < |below| {
        assert (below + was)[i] == st[i];
      } else {
        assert st[i] in was + now;
        assert st[i].c == c;
      }
      assert !st[i].Outside? && st[i].c == c ==> Mentions(st, c);
    }
    forall d | d in s'.heap && s'.heap[d].thread == t
      ensures ContextOk(s'.heap[d], d, Listed(s', t, d), st)
    {
      OtherContextsStay(s, s', t, below, was, now, c, x, d);
    }
  }

  /** A step on one context keeps the invariant if it keeps that context in order. */
  lemma LocalStepKeepsInv(s: State, s': State, t: ThreadId, below: seq<Frame>, was: seq<Frame>, now: seq<Frame>,
                          c: Address, x: Option<Context>)
    requires Inv(s) && !s.destroyed && Orderly(s, s', t, below, was, now, c, x)
    ensures Inv(s')
  {
    hide ContextOk;
    assert ThreadOk(s, t);
    OwnThreadStaysOk(s, s', t, below, was, now, c, x);
    forall u | u != t
      ensures ThreadOk(s', u)
    {
      assert ThreadOk(s, u);
      UntouchedThreadIsOk(s, s', u);
    }
  }

  // ----- every step keeps the invariant -----------------------------------------------

  /** The calls in progress on thread t, split into the innermost and those below it. */
  lemma SplitStack(s: State, t: ThreadId) returns (below: seq<Frame>, f: Frame)
    requires Inv(s) && !s.destroyed && Stack(s, t) != []
    ensures Stack(s, t) == below + [f] && Below(below) && f == Top(Stack(s, t))
    ensures Stack(s, t)[..|Stack(s, t)| - 1] == below
    ensures !f.Outside? && f.c in s.heap && s.heap[f.c].thread == t
    ensures ContextOk(s.heap[f.c], f.c, Listed(s, t, f.c), below + [f])
    ensures forall c :: Passes(Stack(s, t), c) == Passes(below, c) + (if InPass(f) && f.c == c then 1 else 0)
  {
    assert ThreadOk(s, t);
    var st := Stack(s, t);
    below, f := st[..|st| - 1], st[|st| - 1];
    assert st == below + [f];
    assert st[|st| - 1].c in s.heap;
  }

  // How one context fares in each step; `listed` as in ContextOk.

  lemma ContextEntered(x: Context, c: Address, st: seq<Frame>, f: Frame)
    requires Below(st) && ContextOk(x, c, true, st) && (f.Adding? || f.Entered?) && f.c == c
    ensures ContextOk(x, c, true, st + [f])
  {
    PassesOfPush(st, f, c);
    assert (st + [f])[|st|] == f;
  }

  lemma ContextCreated(t: ThreadId, c: Address, st: seq<Frame>, obs: Observer)
    requires Below(st) && !Mentions(st, c)
    ensures ContextOk(Context(t, [], 0), c, true, st + [Adding(c, obs)])
  {
    PassesOfPush(st, Adding(c, obs), c);
    BelowPassesIffMentions(st, c);
    assert (st + [Adding(c, obs)])[|st|] == Adding(c, obs);
  }

  lemma ContextAdded(x: Context, c: Address, listed: bool, below: seq<Frame>, obs: Observer)
    requires Below(below) && ContextOk(x, c, listed, below + [Adding(c, obs)])
    ensures ContextOk(x.(slots := Added(x.slots, obs)), c, listed, below)
  {
    PassesOfPush(below, Adding(c, obs), c);
    BelowPassesIffMentions(below, c);
  }

  lemma ContextFoundForRemoval(x: Context, c: Address, st: seq<Frame>, obs: Observer)
    requires Below(st) && ContextOk(x, c, true, st)
    ensures ContextOk(x, c, !(Some(obs) in x.slots && |x.slots| == 1), st + [Removing(c, obs)])
  {
    PassesOfPush(st, Removing(c, obs), c);
    assert (st + [Removing(c, obs)])[|st|] == Removing(c, obs);
  }

  lemma ContextRemoved(x: Context, c: Address, listed: bool, below: seq<Frame>, obs: Observer)
    requires Below(below) && ContextOk(x, c, listed, below + [Removing(c, obs)])
    ensures ContextOk(x.(slots := Removed(x.slots, x.depth, obs)), c, listed, below + [Dropping(c)])
  {
    RemovedKeepsDuplicateFree(x.slots, x.depth, obs);
    PassesOfPush(below, Removing(c, obs), c);
    PassesOfPush(below, Dropping(c), c);
    assert (below + [Dropping(c)])[|below|] == Dropping(c);
  }

  lemma ContextKept(x: Context, c: Address, listed: bool, below: seq<Frame>, f: Frame)
    requires Below(below) && ContextOk(x, c, listed, below + [f]) && (f.Dropping? || f.Leaving?) && f.c == c
    requires x.slots != []
    ensures ContextOk(x, c, listed, below)
  {
    PassesOfPush(below, f, c);
    BelowPassesIffMentions(below, c);
    assert !listed ==> x.slots[0] == None;
  }

  lemma ContextAbandoned(x: Context, c: Address, listed: bool, below: seq<Frame>, f: Frame)
    requires Below(below) && ContextOk(x, c, listed, below + [f]) && (f.Dropping? || f.Deleting?) && f.c == c
    requires x.slots == []
    ensures !Mentions(below, c) && !listed
  {
    PassesOfPush(below, f, c);
    BelowPassesIffMentions(below, c);
  }

  lemma ContextPassBegun(x: Context, c: Address, listed: bool, below: seq<Frame>, maxIndex: nat)
    requires Below(below) && ContextOk(x, c, listed, below + [Entered(c)])
    ensures ContextOk(x.(depth := x.depth + 1), c, listed, below + [Iterating(c, 0, maxIndex)])
  {
    PassesOfPush(below, Entered(c), c);
    PassesOfPush(below, Iterating(c, 0, maxIndex), c);
    assert (below + [Iterating(c, 0, maxIndex)])[|below|] == Iterating(c, 0, maxIndex);
  }

  lemma ContextPassGoesOn(x: Context, c: Address, listed: bool, below: seq<Frame>, f: Frame, g: Frame)
    requires InPass(f) && InPass(g) && f.c == g.c == c && Below(below) && ContextOk(x, c, listed, below + [f])
    ensures ContextOk(x, c, listed, below + [g])
  {
    PassesOfPush(below, f, c);
    PassesOfPush(below, g, c);
    assert (below + [g])[|below|] == g;
  }

  /** The context after ~Iterator. */
  function PassEnded(x: Context): Context
    requires x.depth > 0
  {
    x.(slots := if x.depth == 1 then Compacted(x.slots) else x.slots, depth := x.depth - 1)
  }

  lemma ContextPassEnded(x: Context, c: Address, listed: bool, below: seq<Frame>, f: Frame)
    requires f.Iterating? && f.c == c && Below(below) && ContextOk(x, c, listed, below + [f])
    ensures x.depth > 0 && ContextOk(PassEnded(x), c, listed, below + [Leaving(c)])
  {
    PassesOfPush(below, f, c);
    PassesOfPush(below, Leaving(c), c);
    CompactedOfNulls(x.slots);
    MentionedOnTop(below, Leaving(c), c);
    hide DuplicateFree, Compacted, AllNull, Passes, Mentions;
    CompactedKeepsDuplicateFree(x.slots);
  }

  lemma MentionedOnTop(below: seq<Frame>, f: Frame, c: Address)
    requires !f.Outside? && f.c == c
    ensures Mentions(below + [f], c) && Top(below + [f]) == f
  {
    assert (below + [f])[|below|] == f;
  }

  lemma {:induction false} CompactedOfNulls(slots: Slots)
    ensures AllNull(slots) ==> Compacted(slots) == [] && AllNull(Compacted(slots))
  {
    if slots != [] { CompactedOfNulls(slots[1..]); }
  }

  lemma ContextFoundEmpty(x: Context, c: Address, listed: bool, below: seq<Frame>)
    requires Below(below) && ContextOk(x, c, listed, below + [Leaving(c)]) && x.slots == []
    ensures ContextOk(x, c, listed, below + [Erasing(c)])
  {
    PassesOfPush(below, Leaving(c), c);
    PassesOfPush(below, Erasing(c), c);
    assert (below + [Erasing(c)])[|below|] == Erasing(c);
  }

  lemma ContextErased(x: Context, c: Address, listed: bool, below: seq<Frame>)
    requires Below(below) && ContextOk(x, c, listed, below + [Erasing(c)])
    ensures ContextOk(x, c, false, below + [Deleting(c)])
  {
    PassesOfPush(below, Erasing(c), c);
    PassesOfPush(below, Deleting(c), c);
    assert (below + [Deleting(c)])[|below|] == Deleting(c);
  }

  // The steps.

  /** A thread that runs its own code has only callbacks on its stack. */
  lemma IdleStack(s: State, t: ThreadId)
    requires Inv(s) && !s.destroyed && Idle(Stack(s, t))
    ensures Below(Stack(s, t)) && Stack(s, t) + [] == Stack(s, t)
    ensures t in s.lists ==> s.lists[t] in s.heap && s.heap[s.lists[t]].thread == t
                             && ContextOk(s.heap[s.lists[t]], s.lists[t], true, Stack(s, t))
    ensures forall c :: c !in s.heap ==> !Mentions(Stack(s, t), c)
  {
    assert ThreadOk(s, t);
    if t in s.lists {
      assert ContextOk(s.heap[s.lists[t]], s.lists[t], Listed(s, t, s.lists[t]), Stack(s, t));
    }
  }

  lemma AddObserverKeepsInv(s: State, t: ThreadId, obs: Observer, addr: Address)
    requires Inv(s) && !s.destroyed && Idle(Stack(s, t)) && addr !in s.heap
    ensures Inv(AddObserverStep(s, t, obs, true, addr))
  {
    hide ContextOk, Inv;
    var s' := AddObserverStep(s, t, obs, true, addr);
    var st := Stack(s, t);
    IdleStack(s, t);
    if t in s.lists {
      var c := s.lists[t];
      ContextEntered(s.heap[c], c, st, Adding(c, obs));
      assert s'.heap == s.heap[c := s.heap[c]];
      LocalStepKeepsInv(s, s', t, st, [], [Adding(c, obs)], c, Some(s.heap[c]));
    } else {
      ContextCreated(t, addr, st, obs);
      LocalStepKeepsInv(s, s', t, st, [], [Adding(addr, obs)], addr, Some(Context(t, [], 0)));
    }
  }

  lemma AddToListKeepsInv(s: State, t: ThreadId)
    requires Inv(s) && !s.destroyed && Top(Stack(s, t)).Adding?
    ensures Inv(AddToListStep(s, t))
  {
    hide ContextOk, Inv;
    var below, f := SplitStack(s, t);
    var x := s.heap[f.c];
    ContextAdded(x, f.c, Listed(s, t, f.c), below, f.obs);
    assert below + [] == below;
    LocalStepKeepsInv(s, AddToListStep(s, t), t, below, [f], [], f.c, Some(x.(slots := Added(x.slots, f.obs))));
  }

  lemma RemoveObserverKeepsInv(s: State, t: ThreadId, obs: Observer)
    requires Inv(s) && !s.destroyed && Idle(Stack(s, t))
    ensures Inv(RemoveObserverStep(s, t, obs))
  {
    hide ContextOk, Inv;
    var s' := RemoveObserverStep(s, t, obs);
    IdleStack(s, t);
    if t in s.lists {
      var c := s.lists[t];
      ContextFoundForRemoval(s.heap[c], c, Stack(s, t), obs);
      assert s'.heap == s.heap[c := s.heap[c]];
      LocalStepKeepsInv(s, s', t, Stack(s, t), [], [Removing(c, obs)], c, Some(s.heap[c]));
    }
  }

  lemma RemoveFromListKeepsInv(s: State, t: ThreadId)
    requires Inv(s) && !s.destroyed && Top(Stack(s, t)).Removing?
    ensures Inv(RemoveFromListStep(s, t))
  {
    hide ContextOk, Inv;
    var below, f := SplitStack(s, t);
    var x := s.heap[f.c];
    ContextRemoved(x, f.c, Listed(s, t, f.c), below, f.obs);
    LocalStepKeepsInv(s, RemoveFromListStep(s, t), t, below, [f], [Dropping(f.c)], f.c,
                      Some(x.(slots := Removed(x.slots, x.depth, f.obs))));
  }

  lemma DropIfEmptyKeepsInv(s: State, t: ThreadId)
    requires Inv(s) && !s.destroyed && Top(Stack(s, t)).Dropping?
    ensures Inv(DropIfEmptyStep(s, t))
  {
    hide ContextOk, Inv;
    var s' := DropIfEmptyStep(s, t);
    var below, f := SplitStack(s, t);
    var x := s.heap[f.c];
    assert below + [] == below;
    if x.slots == [] {
      ContextAbandoned(x, f.c, Listed(s, t, f.c), below, f);
      LocalStepKeepsInv(s, s', t, below, [f], [], f.c, None);
    } else {
      ContextKept(x, f.c, Listed(s, t, f.c), below, f);
      LocalStepKeepsInv(s, s', t, below, [f], [], f.c, Some(x));
    }
  }

  lemma RunTaskKeepsInv(s: State, t: ThreadId, task: Address)
    requires Inv(s) && !s.destroyed && Idle(Stack(s, t))
    ensures Inv(RunTaskStep(s, t, task))
  {
    hide ContextOk;
    var s' := RunTaskStep(s, t, task);
    IdleStack(s, t);
    if Listed(s, t, task) {
      ContextEntered(s.heap[task], task, Stack(s, t), Entered(task));
      assert s'.heap == s.heap[task := s.heap[task]];
      LocalStepKeepsInv(s, s', t, Stack(s, t), [], [Entered(task)], task, Some(s.heap[task]));
    } else {
      forall u ensures ThreadOk(s', u) { UntouchedThreadIsOk(s, s', u); }
    }
  }

  lemma BeginPassKeepsInv(s: State, t: ThreadId)
    requires Inv(s) && !s.destroyed && Top(Stack(s, t)).Entered?
    ensures Inv(BeginPassStep(s, t))
  {
    hide ContextOk, Inv;
    var below, f := SplitStack(s, t);
    var x := s.heap[f.c];
    var max := MaxIndex(s.kind, x.slots);
    ContextPassBegun(x, f.c, Listed(s, t, f.c), below, max);
    LocalStepKeepsInv(s, BeginPassStep(s, t), t, below, [f], [Iterating(f.c, 0, max)], f.c,
                      Some(x.(depth := x.depth + 1)));
  }

  lemma NextObserverKeepsInv(s: State, t: ThreadId)
    requires Inv(s) && !s.destroyed && Top(Stack(s, t)).Iterating?
    ensures Inv(NextObserverStep(s, t))
  {
    hide ContextOk, Inv, Next, Passes, Below;
    var s' := NextObserverStep(s, t);
    var below, f := SplitStack(s, t);
    var x := s.heap[f.c];
    var r := Next(x.slots, f.index, f.maxIndex);
    if r.0.Some? {
      ContextPassGoesOn(x, f.c, Listed(s, t, f.c), below, f, Calling(f.c, r.1, f.maxIndex));
      assert s'.heap == s.heap[f.c := x];
      LocalStepKeepsInv(s, s', t, below, [f], [Calling(f.c, r.1, f.maxIndex)], f.c, Some(x));
    } else {
      ContextPassEnded(x, f.c, Listed(s, t, f.c), below, f);
      assert s'.heap == s.heap[f.c := PassEnded(x)];
      LocalStepKeepsInv(s, s', t, below, [f], [Leaving(f.c)], f.c, Some(PassEnded(x)));
    }
  }

  lemma ReturnKeepsInv(s: State, t: ThreadId)
    requires Inv(s) && !s.destroyed && Top(Stack(s, t)).Calling?
    ensures Inv(ReturnFromCallbackStep(s, t))
  {
    hide ContextOk, Inv;
    var s' := ReturnFromCallbackStep(s, t);
    var below, f := SplitStack(s, t);
    var g := Iterating(f.c, f.index, f.maxIndex);
    ContextPassGoesOn(s.heap[f.c], f.c, Listed(s, t, f.c), below, f, g);
    assert s'.heap == s.heap[f.c := s.heap[f.c]];
    LocalStepKeepsInv(s, s', t, below, [f], [g], f.c, Some(s.heap[f.c]));
  }

  lemma TestSizeKeepsInv(s: State, t: ThreadId)
    requires Inv(s) && !s.destroyed && Top(Stack(s, t)).Leaving?
    ensures Inv(TestSizeStep(s, t))
  {
    hide ContextOk, Inv;
    var s' := TestSizeStep(s, t);
    var below, f := SplitStack(s, t);
    var x := s.heap[f.c];
    assert s'.heap == s.heap[f.c := x];
    assert below + [] == below;
    if x.slots == [] {
      ContextFoundEmpty(x, f.c, Listed(s, t, f.c), below);
      LocalStepKeepsInv(s, s', t, below, [f], [Erasing(f.c)], f.c, Some(x));
    } else {
      ContextKept(x, f.c, Listed(s, t, f.c), below, f);
      LocalStepKeepsInv(s, s', t, below, [f], [], f.c, Some(x));
    }
  }

  lemma EraseEntryKeepsInv(s: State, t: ThreadId)
    requires Inv(s) && !s.destroyed && Top(Stack(s, t)).Erasing?
    ensures Inv(EraseEntryStep(s, t))
  {
    hide ContextOk, Inv;
    var s' := EraseEntryStep(s, t);
    var below, f := SplitStack(s, t);
    ContextErased(s.heap[f.c], f.c, Listed(s, t, f.c), below);
    assert s'.heap == s.heap[f.c := s.heap[f.c]];
    LocalStepKeepsInv(s, s', t, below, [f], [Deleting(f.c)], f.c, Some(s.heap[f.c]));
  }

  lemma DeleteContextKeepsInv(s: State, t: ThreadId)
    requires Inv(s) && !s.destroyed && Top(Stack(s, t)).Deleting?
    ensures Inv(DeleteContextStep(s, t))
  {
    hide Inv;
    var below, f := SplitStack(s, t);
    ContextAbandoned(s.heap[f.c], f.c, Listed(s, t, f.c), below, f);
    assert below + [] == below;
    hide ContextOk;
    LocalStepKeepsInv(s, DeleteContextStep(s, t), t, below, [f], [], f.c, None);
  }

  lemma NotifyKeepsInv(s: State, t: ThreadId)
    requires Inv(s) && !s.destroyed && Idle(Stack(s, t))
    ensures Inv(NotifyStep(s, t))
  {
    var s' := NotifyStep(s, t);
    assert forall k :: k in s.lists ==> s.lists[k] in s.heap by {
      forall k | k in s.lists ensures s.lists[k] in s.heap { assert ThreadOk(s, k); }
    }
    forall u ensures ThreadOk(s', u) { UntouchedThreadIsOk(s, s', u); }
  }

  /** When the last reference goes, exactly the listed contexts are left, each once. */
  lemma DestroyListKeepsInv(s: State)
    requires Inv(s) && Enabled(s, DestroyList)
    ensures Inv(DestroyListStep(s))
  {
    forall k | k in s.lists
      ensures s.lists[k] in s.heap && s.heap[s.lists[k]].thread == k
    {
      assert ThreadOk(s, k);
    }
    forall c | c in s.heap
      ensures c in s.lists.Values
    {
      var t := s.heap[c].thread;
      assert ThreadOk(s, t) && Stack(s, t) == [];
      assert ContextOk(s.heap[c], c, Listed(s, t, c), []);
      assert Listed(s, t, c);
    }
  }

  lemma StepKeepsInv(s: State, e: Event)
    requires Inv(s) && Enabled(s, e)
    ensures Inv(Step(s, e))
  {
    match e
    case AddObserver(t, obs, hasLoop, addr) => if hasLoop { AddObserverKeepsInv(s, t, obs, addr); }
    case AddToList(t) => AddToListKeepsInv(s, t);
    case RemoveObserver(t, obs) => RemoveObserverKeepsInv(s, t, obs);
    case RemoveFromList(t) => RemoveFromListKeepsInv(s, t);
    case DropIfEmpty(t) => DropIfEmptyKeepsInv(s, t);
    case Notify(t) => NotifyKeepsInv(s, t);
    case RunTask(t, task) => RunTaskKeepsInv(s, t, task);
    case BeginPass(t) => BeginPassKeepsInv(s, t);
    case NextObserver(t) => NextObserverKeepsInv(s, t);
    case ReturnFromCallback(t) => ReturnKeepsInv(s, t);
    case TestSize(t) => TestSizeKeepsInv(s, t);
    case EraseEntry(t) => EraseEntryKeepsInv(s, t);
    case DeleteContext(t) => DeleteContextKeepsInv(s, t);
    case DestroyList => DestroyListKeepsInv(s);
  }

  // ----- runs -------------------------------------------------------------------------

  /** Any interleaving: the listed events in order, the impossible ones passed over. */
  function Run(kind: NotificationType, es: seq<Event>): State {
    if es == [] then Init(kind)
    else
      var s := Run(kind, es[..|es| - 1]);
      if Enabled(s, es[|es| - 1]) then Step(s, es[|es| - 1]) else s
  }

  /** No interleaving touches or deletes a freed context, and every map entry is live. */
  lemma {:induction false} EveryRunIsSafe(kind: NotificationType, es: seq<Event>)
    ensures Inv(Run(kind, es)) && !Run(kind, es).faulted
    ensures forall t :: t in Run(kind, es).lists ==> Run(kind, es).lists[t] in Run(kind, es).heap
  {
    if es == [] {
      assert forall t :: Stack(Init(kind), t) == [];
    } else {
      EveryRunIsSafe(kind, es[..|es| - 1]);
      var s := Run(kind, es[..|es| - 1]);
      if Enabled(s, es[|es| - 1]) { StepKeepsInv(s, es[|es| - 1]); }
    }
    var s := Run(kind, es);
    forall t | t in s.lists ensures s.lists[t] in s.heap {
      assert ThreadOk(s, t);
    }
  }

  /** When the list itself is gone every context has been deleted. */
  lemma NoContextLeaks(kind: NotificationType, es: seq<Event>)
    requires Run(kind, es).destroyed
    ensures Run(kind, es).heap == map[]
  {
    EveryRunIsSafe(kind, es);
  }

  // ----- who is called ----------------------------------------------------------------

  /** The step by which an AddObserver(obs) call of thread t takes effect. */
  predicate Adds(s: State, e: Event, t: ThreadId, obs: Observer) {
    e == AddToList(t) && Enabled(s, e) && Top(Stack(s, t)).obs == obs
  }

  /** The last step of a RemoveObserver(obs) call of thread t that can change the list. */
  predicate Removes(s: State, e: Event, t: ThreadId, obs: Observer) {
    && Enabled(s, e)
    && (|| (e == RemoveFromList(t) && Top(Stack(s, t)).obs == obs)
        || (e == RemoveObserver(t, obs) && t !in s.lists)
        || e == DestroyList)
  }

  /** Thread t added obs and has not removed it since. */
  predicate Registered(kind: NotificationType, es: seq<Event>, t: ThreadId, obs: Observer) {
    es != [] &&
    var before, s := es[..|es| - 1], Run(kind, es[..|es| - 1]);
    || Adds(s, es[|es| - 1], t, obs)
    || (!Removes(s, es[|es| - 1], t, obs) && Registered(kind, before, t, obs))
  }

  /** Some context of thread t holds obs. */
  ghost predicate Holds(s: State, t: ThreadId, obs: Observer) {
    exists c :: c in s.heap && s.heap[c].thread == t && Some(obs) in s.heap[c].slots
  }

  /** A thread's observers are all in its listed context, unless its only one is just
      being removed. */
  lemma HolderIsListed(s: State, t: ThreadId, c: Address, obs: Observer)
    requires Inv(s) && !s.destroyed
    requires c in s.heap && s.heap[c].thread == t && Some(obs) in s.heap[c].slots
    ensures Listed(s, t, c) || (Top(Stack(s, t)) == Removing(c, obs) && t !in s.lists && s.heap[c].slots == [Some(obs)])
  {
    assert ThreadOk(s, t);
    assert ContextOk(s.heap[c], c, Listed(s, t, c), Stack(s, t));
  }

  lemma AddToListHolds(s: State, t: ThreadId, u: ThreadId, obs: Observer)
    requires Inv(s) && !s.destroyed && Top(Stack(s, u)).Adding?
    ensures Holds(AddToListStep(s, u), t, obs) <==> Adds(s, AddToList(u), t, obs) || Holds(s, t, obs)
  {
    var s' := AddToListStep(s, u);
    var below, f := SplitStack(s, u);
    assert forall c :: c in s.heap <==> c in s'.heap;
    assert forall c :: c in s.heap && c != f.c ==> s'.heap[c] == s.heap[c];
    assert s'.heap[f.c].slots == Added(s.heap[f.c].slots, f.obs);
    if Adds(s, AddToList(u), t, obs) { assert Some(obs) in s'.heap[f.c].slots; }
    if Holds(s, t, obs) {
      var c :| c in s.heap && s.heap[c].thread == t && Some(obs) in s.heap[c].slots;
      assert Some(obs) in s'.heap[c].slots;
    }
  }

  /** The same contexts hold obs in both heaps. */
  ghost predicate SameHolders(h: map<Address, Context>, h': map<Address, Context>, obs: Observer) {
    && (forall c :: c in h && Some(obs) in h[c].slots ==>
          c in h' && Some(obs) in h'[c].slots && h'[c].thread == h[c].thread)
    && (forall c :: c in h' && Some(obs) in h'[c].slots ==>
          c in h && Some(obs) in h[c].slots && h'[c].thread == h[c].thread)
  }

  lemma WriteKeepsHolders(h: map<Address, Context>, c: Address, x: Context, obs: Observer)
    requires c in h && x.thread == h[c].thread && (Some(obs) in x.slots <==> Some(obs) in h[c].slots)
    ensures SameHolders(h, h[c := x], obs)
  {
  }

  /** When a RemoveObserver(obs) call of thread t has done its work, t holds obs nowhere. */
  lemma RemovalIsComplete(s: State, t: ThreadId, obs: Observer)
    requires Inv(s) && !s.destroyed && Top(Stack(s, t)).Removing? && Top(Stack(s, t)).obs == obs
    ensures !Holds(RemoveFromListStep(s, t), t, obs)
  {
    var s' := RemoveFromListStep(s, t);
    var below, f := SplitStack(s, t);
    var x := s.heap[f.c];
    assert DuplicateFree(x.slots);
    RemovedKeepsDuplicateFree(x.slots, x.depth, obs);
    assert ThreadOk(s, t);
    forall c | c in s'.heap && s'.heap[c].thread == t
      ensures Some(obs) !in s'.heap[c].slots
    {
      if c != f.c && Some(obs) in s.heap[c].slots {
        HolderIsListed(s, t, c, obs);
      }
    }
  }

  lemma RemovalTouchesNothingElse(s: State, t: ThreadId, u: ThreadId, obs: Observer)
    requires Inv(s) && !s.destroyed && Top(Stack(s, u)).Removing? && (u != t || Top(Stack(s, u)).obs != obs)
    ensures Holds(RemoveFromListStep(s, u), t, obs) <==> Holds(s, t, obs)
  {
    var s' := RemoveFromListStep(s, u);
    var below, f := SplitStack(s, u);
    var x := s.heap[f.c];
    assert DuplicateFree(x.slots);
    hide Inv, ContextOk, Passes, DuplicateFree, Removed;
    RemovedKeepsDuplicateFree(x.slots, x.depth, f.obs);
    assert s'.heap == s.heap[f.c := x.(slots := Removed(x.slots, x.depth, f.obs))];
    if Top(Stack(s, u)).obs != obs {
      WriteKeepsHolders(s.heap, f.c, s'.heap[f.c], obs);
    } else {
      assert forall c :: c in s.heap && s.heap[c].thread == t ==> c in s'.heap && s'.heap[c] == s.heap[c];
      assert forall c :: c in s'.heap && s'.heap[c].thread == t ==> c in s.heap && s'.heap[c] == s.heap[c];
    }
  }

  lemma HeapAfterNextObserver(s: State, t: ThreadId)
    requires Top(Stack(s, t)).Iterating?
    ensures var c, h := Top(Stack(s, t)).c, NextObserverStep(s, t).heap;
            h == s.heap || (c in s.heap && s.heap[c].depth > 0 && h == s.heap[c := PassEnded(s.heap[c])])
  {
    hide Next, Compacted;
  }

  lemma PassEndKeepsMembers(x: Context, obs: Observer)
    requires x.depth > 0
    ensures PassEnded(x).thread == x.thread && (Some(obs) in PassEnded(x).slots <==> Some(obs) in x.slots)
  {
    CompactedMembers(x.slots, obs);
  }

  lemma NextObserverKeepsHolders(s: State, t: ThreadId, obs: Observer)
    requires Top(Stack(s, t)).Iterating?
    ensures SameHolders(s.heap, NextObserverStep(s, t).heap, obs)
  {
    HeapAfterNextObserver(s, t);
    var c := Top(Stack(s, t)).c;
    hide NextObserverStep, PassEnded, Top, Stack;
    if c in s.heap && s.heap[c].depth > 0 {
      PassEndKeepsMembers(s.heap[c], obs);
      WriteKeepsHolders(s.heap, c, PassEnded(s.heap[c]), obs);
    }
  }

  lemma DeletedContextIsEmpty(x: Context, c: Address, listed: bool, below: seq<Frame>)
    requires ContextOk(x, c, listed, below + [Deleting(c)])
    ensures x.slots == []
  {
    assert Top(below + [Deleting(c)]) == Deleting(c);
  }

  lemma DeleteContextKeepsHolders(s: State, t: ThreadId, obs: Observer)
    requires Inv(s) && !s.destroyed && Top(Stack(s, t)).Deleting?
    ensures SameHolders(s.heap, DeleteContextStep(s, t).heap, obs)
  {
    hide ContextOk, Inv;
    var below, f := SplitStack(s, t);
    DeletedContextIsEmpty(s.heap[f.c], f.c, Listed(s, t, f.c), below);
  }

  lemma DropIfEmptyKeepsHolders(s: State, t: ThreadId, obs: Observer)
    requires Inv(s) && !s.destroyed && Top(Stack(s, t)).Dropping?
    ensures SameHolders(s.heap, DropIfEmptyStep(s, t).heap, obs)
  {
    hide ContextOk, Inv;
    var below, f := SplitStack(s, t);
  }

  lemma BeginPassKeepsHolders(s: State, t: ThreadId, obs: Observer)
    requires Inv(s) && !s.destroyed && Top(Stack(s, t)).Entered?
    ensures SameHolders(s.heap, BeginPassStep(s, t).heap, obs)
  {
    hide ContextOk, Inv;
    var below, f := SplitStack(s, t);
  }

  lemma AddObserverKeepsHolders(s: State, t: ThreadId, added: Observer, hasLoop: bool, addr: Address, obs: Observer)
    requires addr !in s.heap
    ensures SameHolders(s.heap, AddObserverStep(s, t, added, hasLoop, addr).heap, obs)
  {
  }

  /** These steps do not touch the heap. */
  lemma RestKeepsHeap(s: State, e: Event)
    requires Enabled(s, e)
    requires e.RemoveObserver? || e.Notify? || e.RunTask? || e.ReturnFromCallback? || e.TestSize? || e.EraseEntry?
    ensures Step(s, e).heap == s.heap
  {
    match e
    case RemoveObserver(t, obs) => RemoveObserverKeepsHeap(s, t, obs);
    case Notify(t) => NotifyKeepsHeap(s, t);
    case RunTask(t, task) => RunTaskKeepsHeap(s, t, task);
    case ReturnFromCallback(t) => ReturnKeepsHeap(s, t);
    case TestSize(t) => TestSizeKeepsHeap(s, t);
    case EraseEntry(t) => EraseEntryKeepsHeap(s, t);
    hide RemoveObserverStep, NotifyStep, RunTaskStep, ReturnFromCallbackStep, TestSizeStep, EraseEntryStep, Stack, Top;
  }

  lemma RemoveObserverKeepsHeap(s: State, t: ThreadId, obs: Observer)
    ensures RemoveObserverStep(s, t, obs).heap == s.heap
  {
  }

  lemma NotifyKeepsHeap(s: State, t: ThreadId)
    ensures NotifyStep(s, t).heap == s.heap
  {
  }

  lemma RunTaskKeepsHeap(s: State, t: ThreadId, task: Address)
    ensures RunTaskStep(s, t, task).heap == s.heap
  {
  }

  lemma ReturnKeepsHeap(s: State, t: ThreadId)
    requires Top(Stack(s, t)).Calling?
    ensures ReturnFromCallbackStep(s, t).heap == s.heap
  {
  }

  lemma TestSizeKeepsHeap(s: State, t: ThreadId)
    requires Top(Stack(s, t)).Leaving?
    ensures TestSizeStep(s, t).heap == s.heap
  {
  }

  lemma EraseEntryKeepsHeap(s: State, t: ThreadId)
    requires Top(Stack(s, t)).Erasing?
    ensures EraseEntryStep(s, t).heap == s.heap
  {
  }

  /** Apart from additions and removals, no step changes what a thread's contexts hold. */
  lemma OtherStepsKeepHolders(s: State, e: Event, obs: Observer)
    requires Inv(s) && Enabled(s, e) && !e.AddToList? && !e.RemoveFromList? && e != DestroyList
    ensures SameHolders(s.heap, Step(s, e).heap, obs)
  {
    hide Inv;
    match e
    case NextObserver(t) => NextObserverKeepsHolders(s, t, obs);
    case DeleteContext(t) => DeleteContextKeepsHolders(s, t, obs);
    case DropIfEmpty(t) => DropIfEmptyKeepsHolders(s, t, obs);
    case BeginPass(t) => BeginPassKeepsHolders(s, t, obs);
    case AddObserver(t, o, hasLoop, addr) => AddObserverKeepsHolders(s, t, o, hasLoop, addr, obs);
    case _ => RestKeepsHeap(s, e);
  }

  lemma OtherStepsHold(s: State, e: Event, t: ThreadId, obs: Observer)
    requires Inv(s) && Enabled(s, e) && !e.AddToList? && !e.RemoveFromList?
    ensures Holds(Step(s, e), t, obs) <==> !Removes(s, e, t, obs) && Holds(s, t, obs)
  {
    if e == DestroyList {
      DestroyListKeepsInv(s);
    } else {
      OtherStepsKeepHolders(s, e, obs);
      hide Inv, Step;
      if e == RemoveObserver(t, obs) && t !in s.lists && Holds(s, t, obs) {
        var c :| c in s.heap && s.heap[c].thread == t && Some(obs) in s.heap[c].slots;
        HolderIsListed(s, t, c, obs);
      }
    }
  }

  lemma CompactedMembers(slots: Slots, obs: Observer)
    ensures Some(obs) in Compacted(slots) <==> Some(obs) in slots
  {
    assert multiset(Compacted(slots))[Some(obs)] == multiset(slots)[Some(obs)];
    assert Some(obs) in Compacted(slots) <==> Some(obs) in multiset(Compacted(slots));
    assert Some(obs) in slots <==> Some(obs) in multiset(slots);
  }

  /** What the contexts of a thread hold is exactly what the thread has registered. */
  lemma {:induction false} HeldIffRegistered(kind: NotificationType, es: seq<Event>, t: ThreadId, obs: Observer)
    ensures Holds(Run(kind, es), t, obs) <==> Registered(kind, es, t, obs)
  {
    if es != [] {
      HeldIffRegistered(kind, es[..|es| - 1], t, obs);
      EveryRunIsSafe(kind, es[..|es| - 1]);
      var s, e := Run(kind, es[..|es| - 1]), es[|es| - 1];
      hide Inv, Holds;
      if Enabled(s, e) {
        match e
        case AddToList(u) => AddToListHolds(s, t, u, obs);
        case RemoveFromList(u) =>
          if Removes(s, e, t, obs) { RemovalIsComplete(s, t, obs); } else { RemovalTouchesNothingElse(s, t, u, obs); }
        case _ => OtherStepsHold(s, e, t, obs);
      }
    }
  }

  /** An observer is called only on a thread that added it and has not removed it since. */
  lemma OnlyRegisteredObserversAreCalled(kind: NotificationType, es: seq<Event>, t: ThreadId, obs: Observer)
    requires Enabled(Run(kind, es), NextObserver(t))
    requires var s := Run(kind, es);
             var f := Top(Stack(s, t));
             f.c in s.heap && Next(s.heap[f.c].slots, f.index, f.maxIndex).0 == Some(obs)
    ensures Registered(kind, es, t, obs)
  {
    EveryRunIsSafe(kind, es);
    var s := Run(kind, es);
    var below, f := SplitStack(s, t);
    assert Holds(s, t, obs);
    HeldIffRegistered(kind, es, t, obs);
  }

  /** Notify posts one task for the context of every thread with a registered observer,
      to that thread; only an observer whose own removal is under way may be left out. */
  lemma NotifyReachesEveryThread(kind: NotificationType, es: seq<Event>, t: ThreadId, u: ThreadId, obs: Observer)
    requires Enabled(Run(kind, es), Notify(t)) && Registered(kind, es, u, obs)
    requires var f := Top(Stack(Run(kind, es), u)); !(f.Removing? && f.obs == obs)
    ensures var s := Run(kind, es);
            && u in s.lists && s.lists[u] in s.heap && Some(obs) in s.heap[s.lists[u]].slots
            && Tasks(NotifyStep(s, t), u) == Tasks(s, u) + multiset{s.lists[u]}
  {
    EveryRunIsSafe(kind, es);
    var s := Run(kind, es);
    HeldIffRegistered(kind, es, u, obs);
    var c :| c in s.heap && s.heap[c].thread == u && Some(obs) in s.heap[c].slots;
    HolderIsListed(s, u, c, obs);
    forall k | k in s.lists
      ensures s.lists[k] in s.heap && s.heap[s.lists[k]].thread == k
    {
      assert ThreadOk(s, k);
    }
    var posted := set k | k in s.lists && s.heap[s.lists[k]].thread == u :: s.lists[k];
    assert posted == {c};
    assert u in (set k | k in s.lists :: s.heap[s.lists[k]].thread);
  }

  /** A task whose context has been freed does nothing as long as the address is not reused. */
  lemma DanglingTaskIsDropped(s: State, t: ThreadId, task: Address)
    requires Inv(s) && Enabled(s, RunTask(t, task)) && task !in s.heap
    ensures RunTaskStep(s, t, task) == s.(tasks := s.tasks[t := Tasks(s, t) - multiset{task}])
  {
    assert ThreadOk(s, t);
  }
}
