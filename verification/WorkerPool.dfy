/**
  base/tracked_objects.cc: the pool of ThreadData records. A worker thread takes a retired
  record or creates one, and its record is retired when the thread ends.

  A step is a critical section under list_lock_, or an access to what only one thread sees;
  the steps of the threads interleave in any order. Records are named by their worker thread
  number. All of this happens within one incarnation.
*/
module WorkerPool {
  import opened Common

  /** Where a thread is in ThreadData::Get(), or what its thread-local slot holds. */
  datatype Thread =
    | Unbound                  // nothing in its slot
    | Numbered(record: nat)    // left the lock with a new number
    | Holding(record: nat)     // has a record, which is not in its slot yet
    | Bound(record: nat)       // the record is in its slot
    | Named                    // registered beforehand, with a record that is no worker's
    | Ended

  /** The retired records are linked through next; None is the null pointer. */
  datatype State = State(
    threads: seq<Thread>,
    first: Option<nat>,             // first_retired_worker_
    next: map<nat, Option<nat>>,    // next_retired_worker_ of each record that was created
    creationCount: nat,             // worker_thread_data_creation_count_
    cleanupCount: nat)              // cleanup_count_

  datatype Event = LeaveLock(t: nat) | Create(t: nat) | SetSlot(t: nat) | Register(t: nat) | Terminate(t: nat)

  predicate Enabled(s: State, e: Event) {
    && e.t < |s.threads|
    && var th := s.threads[e.t];
       match e
       case LeaveLock(_) => th.Unbound?
       case Create(_) => th.Numbered?
       case SetSlot(_) => th.Holding?
       case Register(_) => th.Unbound?
       case Terminate(_) => th.Unbound? || th.Bound? || th.Named?
  }

  function NextOf(s: State, record: nat): Option<nat> {
    if record in s.next then s.next[record] else None
  }

  function LeaveLockStep(s: State, t: nat): State
    requires t < |s.threads|
  {
    match s.first
    case Some(r) => s.(first := NextOf(s, r), next := s.next[r := None], threads := s.threads[t := Holding(r)])
    case None => s.(creationCount := s.creationCount + 1, threads := s.threads[t := Numbered(s.creationCount + 1)])
  }

  function CreateStep(s: State, t: nat): State
    requires t < |s.threads| && s.threads[t].Numbered?
  {
    var r := s.threads[t].record;
    s.(next := s.next[r := None], threads := s.threads[t := Holding(r)])
  }

  /** OnThreadTerminationCleanup; it is not called for a thread without a record. */
  function TerminateStep(s: State, t: nat): State
    requires t < |s.threads|
  {
    var n := s.(threads := s.threads[t := Ended]);
    match s.threads[t]
    case Bound(r) => n.(cleanupCount := s.cleanupCount + 1, next := s.next[r := s.first], first := Some(r))
    case Named => n.(cleanupCount := s.cleanupCount + 1)
    case _ => n
  }

  function Step(s: State, e: Event): State
    requires Enabled(s, e)
  {
    match e
    case LeaveLock(t) => LeaveLockStep(s, t)
    case Create(t) => CreateStep(s, t)
    case SetSlot(t) => s.(threads := s.threads[t := Bound(s.threads[t].record)])
    case Register(t) => s.(threads := s.threads[t := Named])
    case Terminate(t) => TerminateStep(s, t)
  }

  function Initial(threads: nat): State {
    State(seq(threads, t => Unbound), None, map[], 0, 0)
  }

  ghost predicate Possible(s: State, events: seq<Event>)
    decreases |events|
  {
    events == [] || (Enabled(s, events[0]) && Possible(Step(s, events[0]), events[1..]))
  }

  function Run(s: State, events: seq<Event>): State
    requires Possible(s, events)
    decreases |events|
  {
    if events == [] then s else Run(Step(s, events[0]), events[1..])
  }

  // ----- the invariant ----------------------------------------------------------------

  predicate HasRecord(th: Thread) {
    th.Numbered? || th.Holding? || th.Bound?
  }

  /** The workers that have a record, in their slot or on the way to it. */
  function Workers(threads: seq<Thread>): nat {
    if threads == [] then 0 else (if HasRecord(threads[0]) then 1 else 0) + Workers(threads[1..])
  }

  /** The list from first is exactly these records, and it ends. */
  predicate Listed(first: Option<nat>, next: map<nat, Option<nat>>, records: seq<nat>)
    decreases |records|
  {
    if records == [] then first == None
    else first == Some(records[0]) && records[0] in next && Listed(next[records[0]], next, records[1..])
  }

  predicate Distinct(records: seq<nat>) {
    forall i, j :: 0 <= i < j < |records| ==> records[i] != records[j]
  }

  /** A worker's record was created, or is about to be; it is not retired, and not linked. */
  ghost predicate ThreadOk(s: State, retired: seq<nat>, th: Thread) {
    HasRecord(th) ==>
      && 1 <= th.record <= s.creationCount && th.record !in retired
      && (if th.Numbered? then th.record !in s.next else th.record in s.next && s.next[th.record] == None)
  }

  ghost predicate OwnRecords(threads: seq<Thread>) {
    forall t, u :: 0 <= t < u < |threads| && HasRecord(threads[t]) && HasRecord(threads[u]) ==>
      threads[t].record != threads[u].record
  }

  predicate Holder(threads: seq<Thread>, t: nat, record: nat) {
    t < |threads| && HasRecord(threads[t]) && threads[t].record == record
  }

  ghost predicate Held(threads: seq<Thread>, record: nat) {
    exists t :: Holder(threads, t, record)
  }

  ghost predicate Inv(s: State, retired: seq<nat>) {
    && Listed(s.first, s.next, retired) && Distinct(retired)
    && (forall r :: r in retired ==> 1 <= r <= s.creationCount)
    && (forall t :: 0 <= t < |s.threads| ==> ThreadOk(s, retired, s.threads[t]))
    && OwnRecords(s.threads)
    && (forall r :: 1 <= r <= s.creationCount ==> r in retired || Held(s.threads, r))
    && (forall r :: r in s.next ==> 1 <= r <= s.creationCount)
    && s.creationCount == |retired| + Workers(s.threads)
  }

  lemma {:induction false} WorkersOfUpdate(threads: seq<Thread>, t: nat, th: Thread)
    requires t < |threads|
    ensures Workers(threads[t := th])
            == Workers(threads) - (if HasRecord(threads[t]) then 1 else 0) + (if HasRecord(th) then 1 else 0)
    decreases |threads|
  {
    if t > 0 {
      assert threads[t := th][1..] == threads[1..][t - 1 := th];
      WorkersOfUpdate(threads[1..], t - 1, th);
    }
  }

  /** Changing the link of a record that is not in a list leaves the list as it is. */
  lemma {:induction false} ListedElsewhere(first: Option<nat>, next: map<nat, Option<nat>>, records: seq<nat>, r: nat, to: Option<nat>)
    requires Listed(first, next, records) && r !in records
    ensures Listed(first, next[r := to], records)
    decreases |records|
  {
    if records != [] {
      ListedElsewhere(next[records[0]], next, records[1..], r, to);
    }
  }

  lemma {:induction false} HeldElsewhere(threads: seq<Thread>, t: nat, th: Thread, r: nat)
    requires t < |threads| && Held(threads, r) && (HasRecord(threads[t]) && threads[t].record == r ==> HasRecord(th) && th.record == r)
    ensures Held(threads[t := th], r)
  {
    var u :| Holder(threads, u, r);
    assert Holder(threads[t := th], u, r);
  }

  lemma {:induction false} PopKeepsInv(s: State, retired: seq<nat>, t: nat)
    requires Inv(s, retired) && Enabled(s, LeaveLock(t)) && s.first.Some?
    ensures retired != [] && Inv(LeaveLockStep(s, t), retired[1..])
  {
    var r := retired[0];
    var n := LeaveLockStep(s, t);
    assert s.first == Some(r) && r !in retired[1..];
    assert forall q :: q in retired[1..] ==> q in retired;
    ListedElsewhere(s.next[r], s.next, retired[1..], r, None);
    WorkersOfUpdate(s.threads, t, Holding(r));
    forall u | 0 <= u < |n.threads| ensures ThreadOk(n, retired[1..], n.threads[u]) {
      if u != t {
        assert ThreadOk(s, retired, s.threads[u]);
      }
    }
    assert OwnRecords(n.threads) by {
      assert forall u :: 0 <= u < |s.threads| ==> ThreadOk(s, retired, s.threads[u]);
    }
    forall q | 1 <= q <= n.creationCount ensures q in retired[1..] || Held(n.threads, q) {
      if q == r {
        assert Holder(n.threads, t, r);
      } else if q !in retired {
        HeldElsewhere(s.threads, t, Holding(r), q);
      }
    }
  }

  lemma {:induction false} NumberKeepsInv(s: State, retired: seq<nat>, t: nat)
    requires Inv(s, retired) && Enabled(s, LeaveLock(t)) && s.first.None?
    ensures retired == [] && Inv(LeaveLockStep(s, t), retired)
  {
    var r := s.creationCount + 1;
    var n := LeaveLockStep(s, t);
    WorkersOfUpdate(s.threads, t, Numbered(r));
    forall u | 0 <= u < |n.threads| ensures ThreadOk(n, retired, n.threads[u]) {
      if u != t {
        assert ThreadOk(s, retired, s.threads[u]);
      }
    }
    assert OwnRecords(n.threads) by {
      assert forall u :: 0 <= u < |s.threads| ==> ThreadOk(s, retired, s.threads[u]);
    }
    forall q | 1 <= q <= n.creationCount ensures Held(n.threads, q) {
      if q == r {
        assert Holder(n.threads, t, r);
      } else {
        HeldElsewhere(s.threads, t, Numbered(r), q);
      }
    }
  }

  /** The thread moves on with the record that it has, which may just have been created. */
  lemma {:induction false} MovingOnKeepsInv(s: State, retired: seq<nat>, t: nat, th: Thread, n: State)
    requires Inv(s, retired) && t < |s.threads|
    requires HasRecord(s.threads[t]) && HasRecord(th) && !th.Numbered? && th.record == s.threads[t].record
    requires n == s.(threads := s.threads[t := th], next := s.next[th.record := None])
    ensures Inv(n, retired)
  {
    var r := th.record;
    assert ThreadOk(s, retired, s.threads[t]);
    ListedElsewhere(s.first, s.next, retired, r, None);
    WorkersOfUpdate(s.threads, t, th);
    forall u | 0 <= u < |n.threads| ensures ThreadOk(n, retired, n.threads[u]) {
      if u != t {
        assert ThreadOk(s, retired, s.threads[u]);
        assert HasRecord(s.threads[u]) ==> s.threads[u].record != r;
      }
    }
    forall q | 1 <= q <= n.creationCount ensures q in retired || Held(n.threads, q) {
      if q !in retired {
        HeldElsewhere(s.threads, t, th, q);
      }
    }
  }

  lemma {:induction false} RetireKeepsInv(s: State, retired: seq<nat>, t: nat)
    requires Inv(s, retired) && t < |s.threads| && s.threads[t].Bound?
    ensures s.next[s.threads[t].record] == None
    ensures Inv(TerminateStep(s, t), [s.threads[t].record] + retired)
  {
    var r := s.threads[t].record;
    var n, list := TerminateStep(s, t), [r] + retired;
    assert ThreadOk(s, retired, s.threads[t]);
    ListedElsewhere(s.first, s.next, retired, r, s.first);
    assert list[1..] == retired;
    WorkersOfUpdate(s.threads, t, Ended);
    forall u | 0 <= u < |n.threads| ensures ThreadOk(n, list, n.threads[u]) {
      if u != t {
        assert ThreadOk(s, retired, s.threads[u]);
        assert HasRecord(s.threads[u]) ==> s.threads[u].record != r;
      }
    }
    forall q | 1 <= q <= n.creationCount ensures q in list || Held(n.threads, q) {
      if q !in list {
        HeldElsewhere(s.threads, t, Ended, q);
      }
    }
  }

  /** A thread that has no record, before or after. */
  lemma {:induction false} WithoutRecordKeepsInv(s: State, retired: seq<nat>, t: nat, th: Thread, n: State)
    requires Inv(s, retired) && t < |s.threads| && !HasRecord(s.threads[t]) && !HasRecord(th)
    requires n == s.(threads := s.threads[t := th], cleanupCount := n.cleanupCount)
    ensures Inv(n, retired)
  {
    WorkersOfUpdate(s.threads, t, th);
    forall u | 0 <= u < |n.threads| ensures ThreadOk(n, retired, n.threads[u]) {
      if u != t {
        assert ThreadOk(s, retired, s.threads[u]);
      }
    }
    forall q | 1 <= q <= n.creationCount ensures q in retired || Held(n.threads, q) {
      if q !in retired {
        HeldElsewhere(s.threads, t, th, q);
      }
    }
  }

  lemma {:induction false} StepKeepsInv(s: State, retired: seq<nat>, e: Event) returns (retired': seq<nat>)
    requires Inv(s, retired) && Enabled(s, e)
    ensures Inv(Step(s, e), retired')
  {
    retired' := retired;
    match e
    case LeaveLock(t) =>
      if s.first.Some? {
        PopKeepsInv(s, retired, t);
        retired' := retired[1..];
      } else {
        NumberKeepsInv(s, retired, t);
      }
    case Create(t) => MovingOnKeepsInv(s, retired, t, Holding(s.threads[t].record), Step(s, e));
    case SetSlot(t) =>
      assert ThreadOk(s, retired, s.threads[t]);
      assert s.next == s.next[s.threads[t].record := None];
      MovingOnKeepsInv(s, retired, t, Bound(s.threads[t].record), Step(s, e));
    case Register(t) => WithoutRecordKeepsInv(s, retired, t, Named, Step(s, e));
    case Terminate(t) =>
      if s.threads[t].Bound? {
        RetireKeepsInv(s, retired, t);
        retired' := [s.threads[t].record] + retired;
      } else {
        WithoutRecordKeepsInv(s, retired, t, Ended, Step(s, e));
      }
  }

  // ----- the main results --------------------------------------------------------------

  /** The most workers that there are at a time along a run. */
  function Peak(s: State, events: seq<Event>): nat
    requires Possible(s, events)
    decreases |events|
  {
    if events == [] then Workers(s.threads) else Max(Workers(s.threads), Peak(Step(s, events[0]), events[1..]))
  }

  /** The counter only grows when no record is retired, and then all records are in use. */
  lemma {:induction false} CounterFollowsWorkers(s: State, retired: seq<nat>, e: Event)
    requires Inv(s, retired) && Enabled(s, e)
    ensures Workers(s.threads) <= s.creationCount
    ensures var n := Step(s, e); n.creationCount == Max(s.creationCount, Workers(n.threads))
  {
    var retired' := StepKeepsInv(s, retired, e);
    var n := Step(s, e);
    if n.creationCount != s.creationCount {
      assert retired == [];
      WorkersOfUpdate(s.threads, e.t, n.threads[e.t]);
    }
  }

  lemma {:induction false} RunKeepsInv(s: State, retired: seq<nat>, events: seq<Event>) returns (retired': seq<nat>)
    requires Inv(s, retired) && Possible(s, events)
    ensures Inv(Run(s, events), retired')
    ensures Run(s, events).creationCount == Max(s.creationCount, Peak(s, events))
    decreases |events|
  {
    if events == [] {
      retired' := retired;
    } else {
      var next := StepKeepsInv(s, retired, events[0]);
      CounterFollowsWorkers(s, retired, events[0]);
      hide Inv, Step, Enabled;
      retired' := RunKeepsInv(Step(s, events[0]), next, events[1..]);
    }
  }

  lemma {:induction false} InitialInv(threads: nat)
    ensures Inv(Initial(threads), []) && Workers(Initial(threads).threads) == 0
  {
    NoWorkers(Initial(threads).threads);
  }

  lemma {:induction false} NoWorkers(threads: seq<Thread>)
    requires forall t :: 0 <= t < |threads| ==> threads[t] == Unbound
    ensures Workers(threads) == 0
    decreases |threads|
  {
    if threads != [] {
      NoWorkers(threads[1..]);
    }
  }

  /** After any run, every record that was created is either retired, and then on the list
      exactly once, or it is with exactly one thread. */
  lemma {:induction false} RecordsAreSharedOut(threads: nat, events: seq<Event>) returns (retired: seq<nat>)
    requires Possible(Initial(threads), events)
    ensures var s := Run(Initial(threads), events);
            && Listed(s.first, s.next, retired) && Distinct(retired)
            && (forall r :: 1 <= r <= s.creationCount ==> (r in retired <==> !Held(s.threads, r)))
            && (forall r, t, u :: Holder(s.threads, t, r) && Holder(s.threads, u, r) ==> t == u)
            && (forall r, t :: Holder(s.threads, t, r) && r in s.next ==> s.next[r] == None)
  {
    InitialInv(threads);
    retired := RunKeepsInv(Initial(threads), [], events);
    var s := Run(Initial(threads), events);
    forall r: nat, t: nat | Holder(s.threads, t, r) ensures r !in retired && (r in s.next ==> s.next[r] == None) {
      assert ThreadOk(s, retired, s.threads[t]);
    }
    forall r | 1 <= r <= s.creationCount && r in retired ensures !Held(s.threads, r) {
      assert forall t: nat :: !Holder(s.threads, t, r);
    }
  }

  /** No more records are ever created than there were workers at the same time. */
  lemma {:induction false} CreatedIsPeak(threads: nat, events: seq<Event>)
    requires Possible(Initial(threads), events)
    ensures Run(Initial(threads), events).creationCount == Peak(Initial(threads), events)
  {
    InitialInv(threads);
    var retired := RunKeepsInv(Initial(threads), [], events);
  }
}
