/**
  base/observer_list.h: a list of observers that may be changed while any number of
  iterators are walking it.

  The specification functions describe one operation on the vector of slots; the classes
  ObserverListBase and Iterator are proved against them; the machine at the end runs
  arbitrary sequences of operations, with any number of iterators alive at once.
*/
module ObserverList {
  import opened Common

  datatype NotificationType = NotifyAll | NotifyExistingOnly

  /** An observer pointer that is not null; only its identity matters. */
  type Observer = nat

  /** The vector `observers_`; None is a null pointer. */
  type Slots = seq<Option<Observer>>

  // ----- one operation on the slots ---------------------------------------------------

  /** The first position holding x, or |slots|. */
  function Find(slots: Slots, x: Option<Observer>): (k: nat)
    ensures k <= |slots|
    ensures x in slots <==> k < |slots|
    ensures k < |slots| ==> slots[k] == x
    ensures forall i :: 0 <= i < k ==> slots[i] != x
  {
    if slots == [] then 0
    else if slots[0] == x then 0
    else
      assert forall i :: 1 <= i < |slots| ==> slots[i] == slots[1..][i - 1];
      1 + Find(slots[1..], x)
  }

  function Added(slots: Slots, obs: Observer): Slots {
    if Some(obs) in slots then slots else slots + [Some(obs)]
  }

  function Removed(slots: Slots, depth: nat, obs: Observer): Slots {
    var k := Find(slots, Some(obs));
    if k == |slots| then slots
    else if depth > 0 then slots[k := None]
    else slots[..k] + slots[k + 1..]
  }

  function Cleared(slots: Slots, depth: nat): Slots {
    if depth > 0 then seq(|slots|, i => None) else []
  }

  /** The slots without the null ones, in the same order. */
  function Compacted(slots: Slots): (r: Slots)
    ensures None !in r
    ensures forall x :: x != None ==> multiset(r)[x] == multiset(slots)[x]
    ensures None !in slots ==> r == slots
  {
    if slots == [] then []
    else
      assert slots == [slots[0]] + slots[1..];
      (if slots[0].None? then [] else [slots[0]]) + Compacted(slots[1..])
  }

  lemma {:induction false} NothingToCompact()
    ensures Compacted([]) == []
  {
  }

  lemma {:induction false} CompactedFrom(kept: Slots, slots: Slots, i: nat)
    requires i < |slots|
    ensures kept + Compacted(slots[i..])
            == (if slots[i] == None then kept else kept + [slots[i]]) + Compacted(slots[i + 1..])
  {
    assert slots[i..][1..] == slots[i + 1..];
    var rest := Compacted(slots[i + 1..]);
    assert kept + ([slots[i]] + rest) == (kept + [slots[i]]) + rest && [] + rest == rest;
  }

  /** The position at which the scan of GetNext stops. */
  function Skip(slots: Slots, index: nat, limit: nat): (k: nat)
    requires index <= limit <= |slots|
    ensures index <= k <= limit
    ensures k < limit ==> slots[k].Some?
    ensures forall i :: index <= i < k ==> slots[i].None?
    decreases limit - index
  {
    if index < limit && slots[index].None? then Skip(slots, index + 1, limit) else index
  }

  function MaxIndex(kind: NotificationType, slots: Slots): nat {
    if kind == NotifyAll then SIZE_MAX else |slots|
  }

  /** What GetNext returns, and the iterator's index afterwards. */
  function Next(slots: Slots, index: nat, maxIndex: nat): (r: (Option<Observer>, nat))
    ensures r.1 >= index
    ensures r.0.Some? ==> index < r.1 <= Min(maxIndex, |slots|) && slots[r.1 - 1] == r.0
    ensures r.0.None? && index <= Min(maxIndex, |slots|) ==> r.1 == Min(maxIndex, |slots|)
    ensures forall i :: index <= i < r.1 && i < |slots| && (r.0.Some? ==> i < r.1 - 1) ==> slots[i].None?
  {
    var limit := Min(maxIndex, |slots|);
    if index > limit then (None, index)
    else
      var k := Skip(slots, index, limit);
      if k < limit then (slots[k], k + 1) else (None, k)
  }

  // ----- the classes ------------------------------------------------------------------

  class ObserverListBase {
    var observers: Slots
    var notifyDepth: nat
    const kind: NotificationType
    /** False once the list has been destroyed and its weak pointers are invalid. */
    var alive: bool

    constructor (kind: NotificationType)
      ensures observers == [] && notifyDepth == 0 && this.kind == kind && alive
    {
      observers, notifyDepth, this.kind, alive := [], 0, kind, true;
    }

    method AddObserver(obs: Observer)
      modifies this`observers
      ensures observers == Added(old(observers), obs)
    {
      if Some(obs) in observers {
        return;
      }
      observers := observers + [Some(obs)];
    }

    method RemoveObserver(obs: Observer)
      modifies this`observers
      ensures observers == Removed(old(observers), notifyDepth, obs)
    {
      var it := 0;
      while it < |observers| && observers[it] != Some(obs)
        invariant it <= |observers|
        invariant forall i :: 0 <= i < it ==> observers[i] != Some(obs)
      {
        it := it + 1;
      }
      assert it == Find(observers, Some(obs));
      if it < |observers| {
        if notifyDepth != 0 {
          observers := observers[it := None];
        } else {
          observers := observers[..it] + observers[it + 1..];
        }
      }
    }

    method HasObserver(obs: Observer) returns (found: bool)
      ensures found <==> Some(obs) in observers
    {
      for i := 0 to |observers|
        invariant Some(obs) !in observers[..i]
      {
        if observers[i] == Some(obs) {
          return true;
        }
      }
      assert observers == observers[..|observers|];
      return false;
    }

    method Clear()
      modifies this`observers
      ensures observers == Cleared(old(observers), notifyDepth)
    {
      if notifyDepth != 0 {
        for i := 0 to |observers|
          invariant |observers| == old(|observers|)
          invariant forall j :: 0 <= j < i ==> observers[j] == None
        {
          observers := observers[i := None];
        }
      } else {
        observers := [];
      }
    }

    method Compact()
      modifies this`observers
      ensures observers == Compacted(old(observers))
    {
      var kept: Slots := [];
      NothingToCompact();
      assert observers[0..] == observers && kept + Compacted(observers) == Compacted(observers);
      hide Compacted;
      for i := 0 to |observers|
        invariant observers == old(observers) && kept + Compacted(observers[i..]) == Compacted(observers)
      {
        CompactedFrom(kept, observers, i);
        if observers[i] != None {
          kept := kept + [observers[i]];
        }
      }
      assert observers[|observers|..] == [] && kept + [] == kept;
      observers := kept;
    }

    method Destroy()
      modifies this`alive
      ensures !alive
    {
      alive := false;
    }
  }

  /** Holds the list weakly: after the list's destruction every call is a no-op. */
  class Iterator {
    const list: ObserverListBase
    var index: nat
    const maxIndex: nat

    constructor (list: ObserverListBase)
      modifies list`notifyDepth
      ensures this.list == list && index == 0 && maxIndex == MaxIndex(list.kind, list.observers)
      ensures list.notifyDepth == old(list.notifyDepth) + 1
    {
      this.list := list;
      index := 0;
      maxIndex := if list.kind == NotifyAll then SIZE_MAX else |list.observers|;
      new;
      list.notifyDepth := list.notifyDepth + 1;
    }

    method Close()
      requires list.alive ==> list.notifyDepth > 0
      modifies list`notifyDepth, list`observers
      ensures !list.alive ==> unchanged(list)
      ensures list.alive ==>
        && list.notifyDepth == old(list.notifyDepth) - 1
        && list.observers ==
           if list.notifyDepth == 0 then Compacted(old(list.observers)) else old(list.observers)
    {
      if list.alive {
        list.notifyDepth := list.notifyDepth - 1;
        if list.notifyDepth == 0 {
          list.Compact();
        }
      }
    }

    method GetNext() returns (obs: Option<Observer>)
      modifies this`index
      ensures !list.alive ==> obs == None && index == old(index)
      ensures list.alive ==> (obs, index) == Next(list.observers, old(index), maxIndex)
    {
      if !list.alive {
        return None;
      }
      var limit := if maxIndex < |list.observers| then maxIndex else |list.observers|;
      while index < limit && list.observers[index] == None
        invariant old(index) <= index && (index <= limit || index == old(index))
        invariant forall i :: old(index) <= i < index ==> list.observers[i] == None
      {
        index := index + 1;
      }
      ghost var stop := index;
      assert old(index) <= limit ==> stop == Skip(list.observers, old(index), limit);
      if index < limit {
        obs := list.observers[index];
        index := index + 1;
      } else {
        obs := None;
      }
    }
  }

  // ----- properties of one operation --------------------------------------------------

  /** No observer occupies two slots. */
  ghost predicate DuplicateFree(slots: Slots) {
    forall i, j :: 0 <= i < j < |slots| && slots[i].Some? ==> slots[i] != slots[j]
  }

  /** Seen from an iterator: no slot moved, an old slot is unchanged or null. */
  ghost predicate Stable(before: Slots, after: Slots) {
    && |before| <= |after|
    && forall i :: 0 <= i < |before| ==> after[i] == before[i] || after[i] == None
  }

  lemma {:induction false} CompactedKeepsDuplicateFree(slots: Slots)
    requires DuplicateFree(slots)
    ensures DuplicateFree(Compacted(slots))
  {
    if slots != [] {
      var rest := slots[1..];
      assert DuplicateFree(rest) by {
        assert forall i :: 0 <= i < |rest| ==> rest[i] == slots[i + 1];
      }
      CompactedKeepsDuplicateFree(rest);
      var c := Compacted(rest);
      if slots[0].Some? {
        assert multiset(c)[slots[0]] == multiset(rest)[slots[0]];
        assert slots[0] !in rest by {
          assert forall j :: 0 <= j < |rest| ==> rest[j] == slots[j + 1];
        }
      }
    }
  }

  lemma RemovedKeepsDuplicateFree(slots: Slots, depth: nat, obs: Observer)
    requires DuplicateFree(slots)
    ensures DuplicateFree(Removed(slots, depth, obs))
    ensures Some(obs) !in Removed(slots, depth, obs)
    ensures forall x :: x != obs ==> (Some(x) in Removed(slots, depth, obs) <==> Some(x) in slots)
    ensures depth > 0 ==> Stable(slots, Removed(slots, depth, obs))
    ensures depth == 0 && None !in slots ==> None !in Removed(slots, depth, obs)
  {
    var k := Find(slots, Some(obs));
    if k < |slots| {
      if depth == 0 {
        var r := slots[..k] + slots[k + 1..];
        assert forall i :: 0 <= i < |r| ==> r[i] == if i < k then slots[i] else slots[i + 1];
        forall x | x != obs && Some(x) in slots
          ensures Some(x) in r
        {
          var i :| 0 <= i < |slots| && slots[i] == Some(x);
          assert r[if i < k then i else i - 1] == Some(x);
        }
      } else {
        var r := slots[k := None];
        forall x | x != obs && Some(x) in slots
          ensures Some(x) in r
        {
          var i :| 0 <= i < |slots| && slots[i] == Some(x);
          assert r[i] == Some(x);
        }
      }
    }
  }

  // ----- runs -------------------------------------------------------------------------

  datatype Cursor = Cursor(index: nat, maxIndex: nat)

  /** A list and every iterator that is alive on it. */
  datatype Machine = Machine(
    slots: Slots, depth: nat, kind: NotificationType, alive: bool, cursors: map<nat, Cursor>)

  datatype Op =
    | Add(obs: Observer)
    | Remove(obs: Observer)
    | Clear
    | Begin(id: nat)     // construct an iterator
    | GetNext(id: nat)
    | End(id: nat)       // destroy an iterator
    | Destroy            // destroy the list

  function Init(kind: NotificationType): Machine {
    Machine([], 0, kind, true, map[])
  }

  /** One operation; an operation nobody could issue in this state changes nothing. */
  function Step(m: Machine, op: Op): Machine {
    if !m.alive then
      match op
      case End(id) => m.(cursors := m.cursors - {id})
      case _ => m
    else
      match op
      case Add(obs) => if |m.slots| < SIZE_MAX then m.(slots := Added(m.slots, obs)) else m
      case Remove(obs) => m.(slots := Removed(m.slots, m.depth, obs))
      case Clear => m.(slots := Cleared(m.slots, m.depth))
      case Begin(id) =>
        if id in m.cursors then m
        else m.(depth := m.depth + 1, cursors := m.cursors[id := Cursor(0, MaxIndex(m.kind, m.slots))])
      case GetNext(id) =>
        if id !in m.cursors then m
        else
          var c := m.cursors[id];
          m.(cursors := m.cursors[id := c.(index := Next(m.slots, c.index, c.maxIndex).1)])
      case End(id) =>
        if id !in m.cursors || m.depth == 0 then m
        else
          m.(depth := m.depth - 1,
             cursors := m.cursors - {id},
             slots := if m.depth == 1 then Compacted(m.slots) else m.slots)
      case Destroy => m.(alive := false)
  }

  /** The observer that this operation hands to the user of iterator id, if any. */
  function Delivered(m: Machine, op: Op, id: nat): seq<Observer> {
    if m.alive && op == GetNext(id) && id in m.cursors then
      var r := Next(m.slots, m.cursors[id].index, m.cursors[id].maxIndex).0;
      if r.Some? then [r.value] else []
    else []
  }

  function Run(m: Machine, ops: seq<Op>): Machine
    decreases |ops|
  {
    if ops == [] then m else Run(Step(m, ops[0]), ops[1..])
  }

  /** Everything iterator id delivers during a run. */
  function Deliveries(m: Machine, ops: seq<Op>, id: nat): seq<Observer>
    decreases |ops|
  {
    if ops == [] then []
    else Delivered(m, ops[0], id) + Deliveries(Step(m, ops[0]), ops[1..], id)
  }

  ghost predicate Inv(m: Machine) {
    m.alive ==>
      && m.depth == |m.cursors|
      && (m.depth == 0 ==> None !in m.slots)
      && DuplicateFree(m.slots)
      && |m.slots| <= SIZE_MAX
      && forall id :: id in m.cursors ==>
          && m.cursors[id].index <= Min(m.cursors[id].maxIndex, |m.slots|)
          && if m.kind == NotifyAll then m.cursors[id].maxIndex == SIZE_MAX
             else m.cursors[id].maxIndex <= |m.slots|
  }

  lemma StepKeepsInv(m: Machine, op: Op)
    requires Inv(m)
    ensures Inv(Step(m, op))
    ensures m.alive && Step(m, op).alive && m.cursors != map[] && Step(m, op).cursors != map[]
            ==> Stable(m.slots, Step(m, op).slots)
  {
    if m.alive {
      match op
      case Remove(obs) => RemovedKeepsDuplicateFree(m.slots, m.depth, obs);
      case End(id) => EndKeepsInv(m, id);
      case Begin(id) => BeginKeepsInv(m, id);
      case GetNext(id) => GetNextKeepsInv(m, id);
      case _ =>
    }
  }

  lemma BeginKeepsInv(m: Machine, id: nat)
    requires Inv(m) && m.alive
    ensures Inv(Step(m, Begin(id)))
  {
    var m' := Step(m, Begin(id));
    if id !in m.cursors {
      assert m'.cursors.Keys == m.cursors.Keys + {id};
      assert |m'.cursors| == |m'.cursors.Keys| && |m.cursors| == |m.cursors.Keys|;
    }
  }

  lemma GetNextKeepsInv(m: Machine, id: nat)
    requires Inv(m) && m.alive
    ensures Inv(Step(m, GetNext(id)))
  {
    hide DuplicateFree;
    var m' := Step(m, GetNext(id));
    assert m'.cursors.Keys == m.cursors.Keys;
    assert |m'.cursors| == |m'.cursors.Keys| && |m.cursors| == |m.cursors.Keys|;
  }

  lemma EndKeepsInv(m: Machine, id: nat)
    requires Inv(m) && m.alive
    ensures Inv(Step(m, End(id)))
    ensures Step(m, End(id)).cursors != map[] ==> Step(m, End(id)).slots == m.slots
  {
    if id in m.cursors && m.depth > 0 {
      var c := m.cursors - {id};
      assert c.Keys == m.cursors.Keys - {id};
      assert |c| == |c.Keys| && |m.cursors| == |m.cursors.Keys|;
      if m.depth == 1 {
        CompactedKeepsDuplicateFree(m.slots);
        CompactedIsNoLonger(m.slots);
        assert c == map[];
      }
    }
  }

  lemma {:induction false} CompactedIsNoLonger(slots: Slots)
    ensures |Compacted(slots)| <= |slots|
  {
    if slots != [] { CompactedIsNoLonger(slots[1..]); }
  }

  lemma {:induction false} RunKeepsInv(m: Machine, ops: seq<Op>)
    requires Inv(m)
    ensures Inv(Run(m, ops))
    decreases |ops|
  {
    if ops != [] {
      StepKeepsInv(m, ops[0]);
      RunKeepsInv(Step(m, ops[0]), ops[1..]);
    }
  }

  /** In every reachable state of a living list a null slot means that an iterator is alive. */
  lemma EveryRunKeepsInv(kind: NotificationType, ops: seq<Op>)
    ensures Inv(Run(Init(kind), ops))
  {
    RunKeepsInv(Init(kind), ops);
  }

  // ----- one pass of one iterator -----------------------------------------------------

  /** The run neither ends the iterator nor destroys the list. */
  ghost predicate KeepsPass(ops: seq<Op>, id: nat) {
    End(id) !in ops && Destroy !in ops
  }

  /** The values of the slots that iterator id steps over, each read when it is reached. */
  function Reached(m: Machine, ops: seq<Op>, id: nat): Slots
    requires Inv(m)
    decreases |ops|
  {
    if ops == [] then []
    else
      var m' := Step(m, ops[0]);
      StepKeepsInv(m, ops[0]);
      (if m.alive && ops[0] == GetNext(id) && id in m.cursors
       then m.slots[m.cursors[id].index..m'.cursors[id].index] else [])
      + Reached(m', ops[1..], id)
  }

  /** The observers in a sequence of slots. */
  function Observers(slots: Slots): seq<Observer> {
    if slots == [] then []
    else (if slots[0].Some? then [slots[0].value] else []) + Observers(slots[1..])
  }

  lemma {:induction false} ObserversOfConcat(a: Slots, b: Slots)
    ensures Observers(a + b) == Observers(a) + Observers(b)
  {
    if a == [] {
      assert a + b == b;
    } else {
      assert (a + b)[1..] == a[1..] + b && (a + b)[0] == a[0];
      ObserversOfConcat(a[1..], b);
      var first := if a[0].Some? then [a[0].value] else [];
      assert Observers(a) == first + Observers(a[1..]) && Observers(a + b) == first + Observers(a[1..] + b);
      hide Observers;
      assert first + (Observers(a[1..]) + Observers(b)) == (first + Observers(a[1..])) + Observers(b);
    }
  }

  lemma {:induction false} ObserversOfNulls(a: Slots)
    requires forall i :: 0 <= i < |a| ==> a[i] == None
    ensures Observers(a) == []
  {
    if a != [] { ObserversOfNulls(a[1..]); }
  }

  /** GetNext moves from slot k to slot k1 and hands out d: null slots are stepped over,
      and the last one holds the observer handed out, if there is one. */
  ghost predicate StepsOver(slots: Slots, k: nat, k1: nat, d: seq<Observer>) {
    && k <= k1 <= |slots|
    && d == Observers(slots[k..k1])
    && (d == [] ==> forall i :: k <= i < k1 ==> slots[i] == None)
    && (d != [] ==> k < k1 && |d| == 1 && slots[k1 - 1] == Some(d[0]) && forall i :: k <= i < k1 - 1 ==> slots[i] == None)
  }

  lemma NextStepsOver(slots: Slots, k: nat, maxIndex: nat)
    requires k <= Min(maxIndex, |slots|)
    ensures var r := Next(slots, k, maxIndex);
            StepsOver(slots, k, r.1, if r.0.Some? then [r.0.value] else [])
  {
    var r := Next(slots, k, maxIndex);
    if r.0.Some? {
      assert slots[k..r.1] == slots[k..r.1 - 1] + [r.0];
      ObserversOfConcat(slots[k..r.1 - 1], [r.0]);
      ObserversOfNulls(slots[k..r.1 - 1]);
    } else {
      ObserversOfNulls(slots[k..r.1]);
    }
  }

  /** What holds of a pass between its steps. */
  ghost predicate Passing(m: Machine, id: nat) {
    Inv(m) && m.alive && id in m.cursors && m.cursors[id].index <= |m.slots|
  }

  lemma PassingIsDuplicateFree(m: Machine, id: nat)
    requires Passing(m, id)
    ensures DuplicateFree(m.slots)
  {
  }

  lemma ReachedUnfolds(m: Machine, ops: seq<Op>, id: nat)
    requires Passing(m, id) && KeepsPass(ops, id) && ops != []
    ensures Passing(Step(m, ops[0]), id)
    ensures var m1 := Step(m, ops[0]);
            && m.cursors[id].index <= m1.cursors[id].index <= |m.slots|
            && Reached(m, ops, id)
               == m.slots[m.cursors[id].index..m1.cursors[id].index] + Reached(m1, ops[1..], id)
  {
    PassStep(m, ops[0], id);
  }

  /** A step that keeps the pass. */
  lemma PassStep(m: Machine, op: Op, id: nat)
    requires Passing(m, id) && op != End(id) && op != Destroy
    ensures var m' := Step(m, op);
            && Passing(m', id) && Stable(m.slots, m'.slots)
            && m'.cursors[id].maxIndex == m.cursors[id].maxIndex
            && StepsOver(m.slots, m.cursors[id].index, m'.cursors[id].index, Delivered(m, op, id))
            && (op != GetNext(id) ==> Delivered(m, op, id) == [] && m'.cursors[id] == m.cursors[id])
            && (op == GetNext(id) ==> m'.slots == m.slots)
            && (!op.Add? ==> |m'.slots| == |m.slots|)
            && (op.Add? ==> m'.slots == m.slots || m'.slots == m.slots + [Some(op.obs)])
  {
    StepKeepsInv(m, op);
    if op == GetNext(id) {
      NextStepsOver(m.slots, m.cursors[id].index, m.cursors[id].maxIndex);
    } else {
      assert m.slots[m.cursors[id].index..m.cursors[id].index] == [];
      if !op.Add? { StepKeepsLength(m, op, id); }
    }
  }

  lemma StepKeepsLength(m: Machine, op: Op, id: nat)
    requires Passing(m, id) && op != End(id) && op != Destroy && !op.Add?
    ensures |Step(m, op).slots| == |m.slots|
  {
    assert |m.cursors| > 0;
    if op.End? && op.id in m.cursors {
      assert {id, op.id} <= m.cursors.Keys;
      assert |m.cursors.Keys - {id}| > 0;
    }
  }

  /** A pass delivers, in slot order and once per slot, exactly the observers that are in
      the slots when it reaches them; and no slot moves meanwhile. */
  lemma {:induction false} PassDeliversWhatItReaches(m: Machine, ops: seq<Op>, id: nat)
    requires Passing(m, id) && KeepsPass(ops, id)
    ensures var m' := Run(m, ops);
            && Passing(m', id)
            && m'.cursors[id].maxIndex == m.cursors[id].maxIndex
            && Stable(m.slots, m'.slots)
            && Deliveries(m, ops, id) == Observers(Reached(m, ops, id))
            && m.cursors[id].index + |Reached(m, ops, id)| == m'.cursors[id].index
    decreases |ops|
  {
    if ops != [] {
      hide Step, Inv, Delivered, Reached;
      var op, m1 := ops[0], Step(m, ops[0]);
      PassStep(m, op, id);
      var first := m.slots[m.cursors[id].index..m1.cursors[id].index];
      var rest := Reached(m1, ops[1..], id);
      ReachedUnfolds(m, ops, id);
      assert KeepsPass(ops[1..], id);
      PassDeliversWhatItReaches(m1, ops[1..], id);
      ObserversOfConcat(first, rest);
    }
  }

  /** What the pass reads in a slot is what the slot held at the start of the run or null,
      and at the end of the run the slot holds that or null. */
  lemma {:induction false} ReachedSlotIsStable(m: Machine, ops: seq<Op>, id: nat, i: nat)
    requires Passing(m, id) && KeepsPass(ops, id)
    requires Passing(Run(m, ops), id) && m.cursors[id].index <= i < Run(m, ops).cursors[id].index
    ensures i - m.cursors[id].index < |Reached(m, ops, id)|
    ensures var x := Reached(m, ops, id)[i - m.cursors[id].index];
            && (i < |m.slots| ==> x == m.slots[i] || x == None)
            && (Run(m, ops).slots[i] == x || Run(m, ops).slots[i] == None)
    decreases |ops|
  {
    hide Step, Inv, Delivered, Reached;
    PassDeliversWhatItReaches(m, ops, id);
    if ops != [] {
      var op, m1 := ops[0], Step(m, ops[0]);
      PassStep(m, op, id);
      var first := m.slots[m.cursors[id].index..m1.cursors[id].index];
      var rest := Reached(m1, ops[1..], id);
      ReachedUnfolds(m, ops, id);
      assert KeepsPass(ops[1..], id);
      PassDeliversWhatItReaches(m1, ops[1..], id);
      if m1.cursors[id].index <= i {
        ReachedSlotIsStable(m1, ops[1..], id, i);
      }
    }
  }

  /** An observer that keeps its slot throughout is delivered once if the pass goes over
      that slot, and not otherwise. */
  lemma {:induction false} SteadyObserverIsDeliveredOnce(m: Machine, ops: seq<Op>, id: nat, i: nat, obs: Observer)
    requires Passing(m, id) && KeepsPass(ops, id)
    requires i < |m.slots| && m.slots[i] == Some(obs)
    requires i < |Run(m, ops).slots| && Run(m, ops).slots[i] == Some(obs)
    ensures id in Run(m, ops).cursors
    ensures multiset(Deliveries(m, ops, id))[obs] ==
            if m.cursors[id].index <= i < Run(m, ops).cursors[id].index then 1 else 0
    decreases |ops|
  {
    hide Step, Inv, Delivered, Reached;
    if ops != [] {
      var op, m1 := ops[0], Step(m, ops[0]);
      PassStep(m, op, id);
      assert DuplicateFree(m.slots) by { PassingIsDuplicateFree(m, id); }
      var d := Delivered(m, op, id);
      assert KeepsPass(ops[1..], id);
      PassDeliversWhatItReaches(m1, ops[1..], id);
      assert m1.slots[i] == Some(obs);
      SteadyObserverIsDeliveredOnce(m1, ops[1..], id, i, obs);
      assert d == [] || d == [d[0]];
      assert multiset(d)[obs] == if m.cursors[id].index <= i < m1.cursors[id].index then 1 else 0;
    }
  }

  /** After its removal an observer is delivered only if it is added again. */
  lemma {:induction false} RemovedObserverIsNotDelivered(m: Machine, ops: seq<Op>, id: nat, obs: Observer)
    requires Passing(m, id) && KeepsPass(ops, id)
    requires forall i :: m.cursors[id].index <= i < |m.slots| ==> m.slots[i] != Some(obs)
    requires Add(obs) !in ops
    ensures obs !in Deliveries(m, ops, id)
    decreases |ops|
  {
    hide Step, Inv, Delivered, Reached;
    if ops != [] {
      var op, m1 := ops[0], Step(m, ops[0]);
      PassStep(m, op, id);
      assert Add(obs) !in ops[1..] && KeepsPass(ops[1..], id);
      assert op != Add(obs);
      RemovedObserverIsNotDelivered(m1, ops[1..], id, obs);
    }
  }

  /** Under NOTIFY_EXISTING_ONLY a pass goes over slots present at its start and no
      others, each read unchanged or null. */
  lemma ExistingOnlyStaysInside(m: Machine, ops: seq<Op>, id: nat)
    requires Inv(m) && m.alive && id !in m.cursors && m.kind == NotifyExistingOnly && KeepsPass(ops, id)
    ensures Inv(Step(m, Begin(id)))
    ensures var r := Reached(Step(m, Begin(id)), ops, id);
            && Deliveries(Step(m, Begin(id)), ops, id) == Observers(r)
            && |r| <= |m.slots|
            && forall j :: 0 <= j < |r| ==> r[j] == m.slots[j] || r[j] == None
  {
    StepKeepsInv(m, Begin(id));
    var m1 := Step(m, Begin(id));
    assert m1.cursors[id] == Cursor(0, |m.slots|);
    PassDeliversWhatItReaches(m1, ops, id);
    forall j | 0 <= j < |Reached(m1, ops, id)|
      ensures Reached(m1, ops, id)[j] == m.slots[j] || Reached(m1, ops, id)[j] == None
    {
      ReachedSlotIsStable(m1, ops, id, j);
    }
  }

  /** GetNext answers null exactly when the pass has gone over every slot it may visit:
      those present at its start, or, under NOTIFY_ALL, all. */
  lemma PassEndsWhenAllVisited(m: Machine, id: nat)
    requires Inv(m) && m.alive && id in m.cursors
    ensures var m' := Step(m, GetNext(id));
            var limit := if m.kind == NotifyAll then |m.slots| else m.cursors[id].maxIndex;
            && (Delivered(m, GetNext(id), id) == [] <==>
                forall i :: m.cursors[id].index <= i < limit ==> m.slots[i] == None)
            && (Delivered(m, GetNext(id), id) == [] ==> m'.cursors[id].index == limit)
  {
    var r := Next(m.slots, m.cursors[id].index, m.cursors[id].maxIndex);
    if r.0.Some? {
      assert m.slots[r.1 - 1] != None;
    }
  }
}
