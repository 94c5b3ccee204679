/**
 The queue that throttles executions once the concurrency limit is reached.  `capacity` counts down
 past zero, so that its negative part is the number of executions waiting.
 */
module ConcurrencyQueue {

  /** A throttled execution; `waiter` identifies the `throttle` call its `resolve` will wake. */
  datatype Item = Item(executionId: string, waiter: nat)

  datatype Queue = Queue(capacity: int, items: seq<Item>)

  datatype Released = Nobody | Somebody(item: Item)

  // ---------------------------------------------------------------------------
  // Specification
  // ---------------------------------------------------------------------------

  /** Index of the first item with this id, or the length. */
  function IndexOf(items: seq<Item>, executionId: string): (i: nat)
    ensures i <= |items|
    ensures forall j | 0 <= j < i :: items[j].executionId != executionId
    ensures i < |items| ==> items[i].executionId == executionId
  {
    if items == [] || items[0].executionId == executionId then 0
    else 1 + IndexOf(items[1..], executionId)
  }

  predicate Has(q: Queue, executionId: string) {
    IndexOf(q.items, executionId) < |q.items|
  }

  function Enqueued(q: Queue, item: Item): Queue {
    if q.capacity - 1 < 0 then Queue(q.capacity - 1, q.items + [item]) else q.(capacity := q.capacity - 1)
  }

  function Next(items: seq<Item>): Released {
    if items == [] then Nobody else Somebody(items[0])
  }

  function Rest(items: seq<Item>): seq<Item> {
    if items == [] then [] else items[1..]
  }

  function Dequeued(q: Queue): Queue {
    Queue(q.capacity + 1, Rest(q.items))
  }

  function WithoutItem(items: seq<Item>, executionId: string): seq<Item>
    requires IndexOf(items, executionId) < |items|
  {
    var i := IndexOf(items, executionId);
    items[..i] + items[i + 1..]
  }

  /** Removing an execution also wakes the next one, although no running execution has ended. */
  function Removed(q: Queue, executionId: string): Queue {
    if Has(q, executionId) then Queue(q.capacity + 1, Rest(WithoutItem(q.items, executionId))) else q
  }

  function ReleasedByRemove(q: Queue, executionId: string): Released {
    if Has(q, executionId) then Next(WithoutItem(q.items, executionId)) else Nobody
  }

  // ---------------------------------------------------------------------------
  // Code
  // ---------------------------------------------------------------------------

  class ConcurrencyQueue {
    var capacity: int
    var queue: seq<Item>

    function State(): Queue
      reads this
    {
      Queue(capacity, queue)
    }

    constructor (limit: int)
      ensures State() == Queue(limit, [])
    {
      capacity := limit;
      queue := [];
    }

    /** Returns whether the execution may proceed at once; otherwise its promise is left pending. */
    method Enqueue(item: Item) returns (proceed: bool)
      modifies this
      ensures State() == Enqueued(old(State()), item)
      ensures proceed <==> queue == old(queue)
    {
      capacity := capacity - 1;
      if capacity < 0 {
        queue := queue + [item];
        return false;
      }
      return true;
    }

    method Dequeue() returns (woken: Released)
      modifies this
      ensures State() == Dequeued(old(State()))
      ensures woken == Next(old(queue))
    {
      capacity := capacity + 1;
      woken := ResolveNext();
    }

    method Remove(executionId: string) returns (woken: Released)
      modifies this
      ensures State() == Removed(old(State()), executionId)
      ensures woken == ReleasedByRemove(old(State()), executionId)
    {
      var index := IndexOf(queue, executionId);
      if index < |queue| {
        queue := queue[..index] + queue[index + 1..];
        capacity := capacity + 1;
        woken := ResolveNext();
      } else {
        woken := Nobody;
      }
    }

    method ResolveNext() returns (woken: Released)
      modifies this`queue
      ensures queue == Rest(old(queue))
      ensures woken == Next(old(queue))
    {
      if |queue| == 0 {
        return Nobody;
      }
      woken := Somebody(queue[0]);
      queue := queue[1..];
    }
  }

  // ---------------------------------------------------------------------------
  // The limit, over every run
  // ---------------------------------------------------------------------------

  /** A queue together with the number of executions it has let through and not got back. */
  datatype System = System(limit: nat, queue: Queue, running: nat)

  datatype Event = Arrive(item: Item) | Finish | Cancel(executionId: string)

  /** Only an execution that is running can finish. */
  predicate Enabled(s: System, e: Event) {
    e.Finish? ==> s.running > 0
  }

  function Woken(r: Released): nat {
    if r.Somebody? then 1 else 0
  }

  function Step(s: System, e: Event): System
    requires Enabled(s, e)
  {
    match e
    case Arrive(item) =>
      s.(queue := Enqueued(s.queue, item), running := s.running + if s.queue.capacity >= 1 then 1 else 0)
    case Finish =>
      s.(queue := Dequeued(s.queue), running := s.running - 1 + Woken(Next(s.queue.items)))
    case Cancel(id) =>
      s.(queue := Removed(s.queue, id), running := s.running + Woken(ReleasedByRemove(s.queue, id)))
  }

  function Initial(limit: nat): System {
    System(limit, Queue(limit, []), 0)
  }

  ghost predicate Run(states: seq<System>, events: seq<Event>) {
    && |states| == |events| + 1
    && states[0] == Initial(states[0].limit)
    && forall i | 0 <= i < |events| :: Enabled(states[i], events[i]) && states[i + 1] == Step(states[i], events[i])
  }

  /** Capacity is what is left of the limit, and nobody waits while there is room. */
  ghost predicate Balanced(s: System) {
    && s.queue.capacity == s.limit - s.running - |s.queue.items|
    && (s.queue.items != [] ==> s.running >= s.limit)
  }

  /** The one event that lets more executions run than the limit allows: cancelling a waiting
      execution while others wait with it. */
  predicate Overshoots(s: System, e: Event) {
    e.Cancel? && Has(s.queue, e.executionId) && |s.queue.items| > 1
  }

  lemma StepBalanced(s: System, e: Event)
    requires Balanced(s) && Enabled(s, e)
    ensures Balanced(Step(s, e))
    ensures Step(s, e).limit == s.limit
    ensures Step(s, e).running <= s.running + 1
    ensures Overshoots(s, e) ==> Step(s, e).running == s.running + 1 > s.limit
    ensures Step(s, e).running > s.running && !Overshoots(s, e) ==> Step(s, e).running <= s.limit
  {
  }

  /** The queue keeps the limit in a step exactly when the step is not such a cancellation. */
  lemma LimitKeptExactly(s: System, e: Event)
    requires Balanced(s) && Enabled(s, e) && s.running <= s.limit
    ensures Step(s, e).running <= s.limit <==> !Overshoots(s, e)
  {
    StepBalanced(s, e);
  }

  ghost function Overshot(states: seq<System>, events: seq<Event>, n: nat): nat
    requires n <= |events| && |states| == |events| + 1
  {
    if n == 0 then 0 else Overshot(states, events, n - 1) + if Overshoots(states[n - 1], events[n - 1]) then 1 else 0
  }

  /** Over every run: capacity is accounted for, and the limit is exceeded by at most the number of
      cancellations that overshot; without any of those it is never exceeded. */
  lemma {:induction false} LimitOverRuns(states: seq<System>, events: seq<Event>, n: nat)
    requires Run(states, events) && n <= |events|
    ensures Balanced(states[n]) && states[n].limit == states[0].limit
    ensures states[n].running <= states[n].limit + Overshot(states, events, n)
    decreases n
  {
    if n > 0 {
      LimitOverRuns(states, events, n - 1);
      assert states[n - 1 + 1] == Step(states[n - 1], events[n - 1]);
      StepBalanced(states[n - 1], events[n - 1]);
    }
  }

  /** The limit is really exceeded: with room for one, the second cancellation victim's neighbour
      starts next to the execution that is still running. */
  lemma LimitExceeded() returns (states: seq<System>, events: seq<Event>)
    ensures Run(states, events)
    ensures states[0].limit == 1 && states[|events|].running == 2
  {
    var a, b, c := Item("1", 0), Item("2", 1), Item("3", 2);
    events := [Arrive(a), Arrive(b), Arrive(c), Cancel("2")];
    var s0, s1, s2 := Initial(1), System(1, Queue(0, []), 1), System(1, Queue(-1, [b]), 1);
    var s3, s4 := System(1, Queue(-2, [b, c]), 1), System(1, Queue(-1, []), 2);
    assert Step(s2, events[2]) == s3;
    assert Step(s3, events[3]) == s4 by {
      assert IndexOf([b, c], "2") == 0;
      assert WithoutItem([b, c], "2") == [c];
    }
    states := [s0, s1, s2, s3, s4];
  }

  // ---------------------------------------------------------------------------
  // First come, first served
  // ---------------------------------------------------------------------------

  /** The arrivals, in order, that found the limit reached. */
  ghost function HadToWait(states: seq<System>, events: seq<Event>, n: nat): seq<Item>
    requires n <= |events| && |states| == |events| + 1
  {
    if n == 0 then []
    else
      HadToWait(states, events, n - 1)
      + if events[n - 1].Arrive? && states[n - 1].running >= states[n - 1].limit then [events[n - 1].item] else []
  }

  /** What a step reports as woken, at most one item. */
  ghost function WokenIn(s: System, e: Event): seq<Item> {
    match e
    case Arrive(item) => []
    case Finish => if Next(s.queue.items).Somebody? then [Next(s.queue.items).item] else []
    case Cancel(id) => if ReleasedByRemove(s.queue, id).Somebody? then [ReleasedByRemove(s.queue, id).item] else []
  }

  /** Everything reported as woken so far, in order. */
  ghost function Woke(states: seq<System>, events: seq<Event>, n: nat): seq<Item>
    requires n <= |events| && |states| == |events| + 1
  {
    if n == 0 then [] else Woke(states, events, n - 1) + WokenIn(states[n - 1], events[n - 1])
  }

  /** The waiting items whose executions were cancelled: of those with the id, the one that came first. */
  ghost function Victims(states: seq<System>, events: seq<Event>, n: nat): set<Item>
    requires n <= |events| && |states| == |events| + 1
  {
    if n == 0 then {}
    else
      var s, e := states[n - 1], events[n - 1];
      Victims(states, events, n - 1)
      + if e.Cancel? && Has(s.queue, e.executionId) then {s.queue.items[IndexOf(s.queue.items, e.executionId)]} else {}
  }

  ghost function Except(items: seq<Item>, out: set<Item>): seq<Item> {
    if items == [] then []
    else Except(items[..|items| - 1], out) + if items[|items| - 1] in out then [] else [items[|items| - 1]]
  }

  /** Every `throttle` call has a `resolve` of its own. */
  ghost predicate OwnWaiters(events: seq<Event>) {
    forall i, j | 0 <= i < j < |events| && events[i].Arrive? && events[j].Arrive? ::
      events[i].item.waiter != events[j].item.waiter
  }

  ghost predicate NoRepeats(items: seq<Item>) {
    forall i, j | 0 <= i < j < |items| :: items[i] != items[j]
  }

  lemma {:induction false} ExceptAppend(items: seq<Item>, item: Item, out: set<Item>)
    ensures Except(items + [item], out) == Except(items, out) + if item in out then [] else [item]
  {
    assert (items + [item])[..|items|] == items;
  }

  lemma {:induction false} ExceptMembers(items: seq<Item>, out: set<Item>)
    ensures forall x :: x in Except(items, out) <==> x in items && x !in out
    decreases |items|
  {
    if items != [] {
      ExceptMembers(items[..|items| - 1], out);
      assert items == items[..|items| - 1] + [items[|items| - 1]];
    }
  }

  /** Leaving out one more item takes it out of the place where it stands. */
  lemma {:induction false} ExceptOneMore(items: seq<Item>, out: set<Item>, v: Item, left: seq<Item>, right: seq<Item>)
    requires NoRepeats(items) && Except(items, out) == left + [v] + right
    ensures Except(items, out + {v}) == left + right
    decreases |items|
  {
    ExceptMembers(items, out);
    assert (left + [v] + right)[|left|] == v;
    var k := |items| - 1;
    var init, last := items[..k], items[k];
    if last == v {
      ExceptUnmoved(init, out, v);
      ExceptUnique(init, out, left, v, right);
    } else if last in out {
      assert Except(init, out) == left + [v] + right;
      ExceptOneMore(init, out, v, left, right);
    } else {
      assert right != [] && right[|right| - 1] == last by {
        assert (left + [v] + right)[|left| + |right|] == last;
      }
      var rest := right[..|right| - 1];
      assert right == rest + [last];
      assert left + [v] + right == (left + [v] + rest) + [last];
      assert Except(items, out) == Except(init, out) + [last];
      assert Except(init, out) == (Except(init, out) + [last])[..|Except(init, out)|] == left + [v] + rest;
      ExceptOneMore(init, out, v, left, rest);
      assert (left + rest) + [last] == left + right;
    }
  }

  lemma {:induction false} ExceptUnmoved(items: seq<Item>, out: set<Item>, v: Item)
    requires v !in items
    ensures Except(items, out + {v}) == Except(items, out)
    decreases |items|
  {
    if items != [] {
      assert items[|items| - 1] in items;
      ExceptUnmoved(items[..|items| - 1], out, v);
    }
  }

  /** An item that comes last comes last in what is kept. */
  lemma ExceptUnique(init: seq<Item>, out: set<Item>, left: seq<Item>, v: Item, right: seq<Item>)
    requires v !in init && Except(init, out) + [v] == left + [v] + right
    ensures right == [] && Except(init, out) == left
  {
    ExceptMembers(init, out);
    var kept := Except(init, out);
    assert (left + [v] + right)[|left|] == v;
    assert forall i | 0 <= i < |kept| :: (kept + [v])[i] in kept;
    assert kept == (kept + [v])[..|kept|] == (left + [v] + right)[..|left|] == left;
  }

  /** Where the items of the runs come from: arrivals that had to wait, without repetition. */
  lemma {:induction false} WaitersAreArrivals(states: seq<System>, events: seq<Event>, n: nat)
    requires Run(states, events) && OwnWaiters(events) && n <= |events|
    ensures NoRepeats(HadToWait(states, events, n))
    ensures forall x | x in HadToWait(states, events, n) :: exists i | 0 <= i < n :: events[i] == Arrive(x)
    decreases n
  {
    if n > 0 {
      WaitersAreArrivals(states, events, n - 1);
      var before := HadToWait(states, events, n - 1);
      if events[n - 1].Arrive? {
        forall x | x in before ensures x != events[n - 1].item {
          var i :| 0 <= i < n - 1 && events[i] == Arrive(x);
          assert events[i].item.waiter != events[n - 1].item.waiter;
        }
      }
    }
  }

  /**
   Over every run, executions that have to wait are woken in the order in which they arrived: those woken so
   far, followed by those still waiting, are the arrivals that found the limit reached, in order and without
   the cancelled ones.
   */
  lemma {:induction false} FirstComeFirstServed(states: seq<System>, events: seq<Event>, n: nat)
    requires Run(states, events) && OwnWaiters(events) && n <= |events|
    ensures Woke(states, events, n) + states[n].queue.items
            == Except(HadToWait(states, events, n), Victims(states, events, n))
    decreases n
  {
    if n > 0 {
      FirstComeFirstServed(states, events, n - 1);
      LimitOverRuns(states, events, n - 1);
      WaitersAreArrivals(states, events, n);
      WaitersAreArrivals(states, events, n - 1);
      VictimsAreArrivals(states, events, n - 1);
      assert states[n - 1 + 1] == Step(states[n - 1], events[n - 1]);
      match events[n - 1]
      case Arrive(item) =>
        var victims := Victims(states, events, n - 1);
        forall v | v in victims ensures v != item {
          var i :| 0 <= i < n - 1 && events[i] == Arrive(v);
          assert events[i].item.waiter != events[n - 1].item.waiter;
        }
        ServedArrive(states, events, n, item);
      case Finish => ServedFinish(states, events, n);
      case Cancel(id) => ServedCancel(states, events, n, id);
    }
  }

  lemma ServedArrive(states: seq<System>, events: seq<Event>, n: nat, item: Item)
    requires 0 < n <= |events| && |states| == |events| + 1 && events[n - 1] == Arrive(item)
    requires Balanced(states[n - 1]) && states[n] == Step(states[n - 1], events[n - 1])
    requires item !in Victims(states, events, n - 1)
    requires Woke(states, events, n - 1) + states[n - 1].queue.items
             == Except(HadToWait(states, events, n - 1), Victims(states, events, n - 1))
    ensures Woke(states, events, n) + states[n].queue.items
            == Except(HadToWait(states, events, n), Victims(states, events, n))
  {
    var s, had, out := states[n - 1], HadToWait(states, events, n - 1), Victims(states, events, n - 1);
    assert Woke(states, events, n) == Woke(states, events, n - 1);
    assert Victims(states, events, n) == out;
    if s.running >= s.limit {
      ExceptAppend(had, item, out);
      assert states[n].queue.items == s.queue.items + [item];
    } else {
      assert HadToWait(states, events, n) == had;
      assert states[n].queue.items == s.queue.items;
    }
  }

  lemma ServedFinish(states: seq<System>, events: seq<Event>, n: nat)
    requires 0 < n <= |events| && |states| == |events| + 1 && events[n - 1] == Finish
    requires Enabled(states[n - 1], Finish) && states[n] == Step(states[n - 1], Finish)
    requires Woke(states, events, n - 1) + states[n - 1].queue.items
             == Except(HadToWait(states, events, n - 1), Victims(states, events, n - 1))
    ensures Woke(states, events, n) + states[n].queue.items
            == Except(HadToWait(states, events, n), Victims(states, events, n))
  {
    HeadMoves(Woke(states, events, n - 1), states[n - 1].queue.items);
    assert HadToWait(states, events, n) == HadToWait(states, events, n - 1);
    assert Victims(states, events, n) == Victims(states, events, n - 1);
  }

  /** The one woken is the one in front. */
  lemma HeadMoves(woke: seq<Item>, items: seq<Item>)
    ensures woke + (if Next(items).Somebody? then [Next(items).item] else []) + Rest(items) == woke + items
  {
    if items != [] {
      assert items == [items[0]] + items[1..];
    }
  }

  lemma ServedCancel(states: seq<System>, events: seq<Event>, n: nat, id: string)
    requires 0 < n <= |events| && |states| == |events| + 1 && events[n - 1] == Cancel(id)
    requires states[n] == Step(states[n - 1], events[n - 1])
    requires NoRepeats(HadToWait(states, events, n - 1))
    requires Woke(states, events, n - 1) + states[n - 1].queue.items
             == Except(HadToWait(states, events, n - 1), Victims(states, events, n - 1))
    ensures Woke(states, events, n) + states[n].queue.items
            == Except(HadToWait(states, events, n), Victims(states, events, n))
  {
    var q, woke, out := states[n - 1].queue, Woke(states, events, n - 1), Victims(states, events, n - 1);
    assert HadToWait(states, events, n) == HadToWait(states, events, n - 1);
    if Has(q, id) {
      OneLeaves(HadToWait(states, events, n - 1), out, woke, q.items, id);
      assert Victims(states, events, n) == out + {q.items[IndexOf(q.items, id)]};
      HeadMoves(woke, WithoutItem(q.items, id));
    } else {
      assert Victims(states, events, n) == out;
      assert Woke(states, events, n) == woke;
    }
  }

  lemma OneLeaves(had: seq<Item>, out: set<Item>, woke: seq<Item>, items: seq<Item>, id: string)
    requires NoRepeats(had) && woke + items == Except(had, out)
    requires IndexOf(items, id) < |items|
    ensures Except(had, out + {items[IndexOf(items, id)]}) == woke + WithoutItem(items, id)
  {
    var i := IndexOf(items, id);
    assert woke + items == (woke + items[..i]) + [items[i]] + items[i + 1..];
    ExceptOneMore(had, out, items[i], woke + items[..i], items[i + 1..]);
  }

  lemma {:induction false} VictimsAreArrivals(states: seq<System>, events: seq<Event>, n: nat)
    requires Run(states, events) && n <= |events|
    ensures forall x | x in states[n].queue.items :: exists i | 0 <= i < n :: events[i] == Arrive(x)
    ensures forall v | v in Victims(states, events, n) :: exists i | 0 <= i < n :: events[i] == Arrive(v)
    decreases n
  {
    if n > 0 {
      VictimsAreArrivals(states, events, n - 1);
      assert states[n - 1 + 1] == Step(states[n - 1], events[n - 1]);
      var s, e := states[n - 1], events[n - 1];
      if e.Arrive? {
        assert events[n - 1] == Arrive(e.item);
      }
      forall x | x in states[n].queue.items ensures x in s.queue.items || e == Arrive(x) {
        StillFromBefore(s, e, x);
      }
    }
  }

  lemma StillFromBefore(s: System, e: Event, x: Item)
    requires Enabled(s, e) && x in Step(s, e).queue.items
    ensures x in s.queue.items || e == Arrive(x)
  {
  }

  /** The same without looking at who is reported as woken: those still waiting are the latest of the arrivals
      that had to wait, in the order of arrival. */
  lemma WaitingAreLatest(states: seq<System>, events: seq<Event>, n: nat)
    requires Run(states, events) && OwnWaiters(events) && n <= |events|
    ensures var line, items := Except(HadToWait(states, events, n), Victims(states, events, n)), states[n].queue.items;
            |items| <= |line| && items == line[|line| - |items|..]
  {
    FirstComeFirstServed(states, events, n);
  }

  /** Without cancellations: those woken, followed by those waiting, are simply the arrivals that found the
      limit reached. */
  lemma ServedInOrder(states: seq<System>, events: seq<Event>, n: nat)
    requires Run(states, events) && OwnWaiters(events) && n <= |events|
    requires forall i | 0 <= i < |events| :: !events[i].Cancel?
    ensures Woke(states, events, n) + states[n].queue.items == HadToWait(states, events, n)
  {
    FirstComeFirstServed(states, events, n);
    NoVictims(states, events, n);
    ExceptNothing(HadToWait(states, events, n));
  }

  lemma {:induction false} NoVictims(states: seq<System>, events: seq<Event>, n: nat)
    requires n <= |events| && |states| == |events| + 1
    requires forall i | 0 <= i < |events| :: !events[i].Cancel?
    ensures Victims(states, events, n) == {}
    decreases n
  {
    if n > 0 { NoVictims(states, events, n - 1); }
  }

  lemma {:induction false} ExceptNothing(items: seq<Item>)
    ensures Except(items, {}) == items
    decreases |items|
  {
    if items != [] { ExceptNothing(items[..|items| - 1]); }
  }
  // ---------------------------------------------------------------------------
  // Emptying the queue
  // ---------------------------------------------------------------------------

  ghost predicate DistinctIds(items: seq<Item>) {
    forall i, j | 0 <= i < j < |items| :: items[i].executionId != items[j].executionId
  }

  function Ids(items: seq<Item>): seq<string> {
    seq(|items|, i requires 0 <= i < |items| => items[i].executionId)
  }

  /** The items at odd positions. */
  function Odd(items: seq<Item>): seq<Item> {
    if |items| < 2 then [] else [items[1]] + Odd(items[2..])
  }

  /** Removing a list of ids one after the other. */
  function RemovedAll(q: Queue, ids: seq<string>): Queue
    decreases |ids|
  {
    if ids == [] then q else RemovedAll(Removed(q, ids[0]), ids[1..])
  }

  function WokenByAll(q: Queue, ids: seq<string>): seq<Item>
    decreases |ids|
  {
    if ids == [] then []
    else
      (if ReleasedByRemove(q, ids[0]).Somebody? then [ReleasedByRemove(q, ids[0]).item] else [])
      + WokenByAll(Removed(q, ids[0]), ids[1..])
  }

  /** Emptying a queue of distinct executions does empty it, but by waking every second one of them:
      each removal hands the next in line a slot. */
  lemma {:induction false} RemoveAllWakesEverySecond(q: Queue)
    requires DistinctIds(q.items)
    ensures RemovedAll(q, Ids(q.items)) == Queue(q.capacity + (|q.items| + 1) / 2, [])
    ensures WokenByAll(q, Ids(q.items)) == Odd(q.items)
    decreases |q.items|
  {
    if |q.items| == 1 {
      assert WithoutItem(q.items, q.items[0].executionId) == [];
      assert Ids(q.items)[1..] == [];
    } else if |q.items| > 1 {
      RemovePair(q);
      RemoveAllWakesEverySecond(Queue(q.capacity + 1, q.items[2..]));
    }
  }

  /** Removing the first execution wakes the second, which is then no longer there to be removed. */
  lemma RemovePair(q: Queue)
    requires DistinctIds(q.items) && |q.items| >= 2
    ensures var q1 := Queue(q.capacity + 1, q.items[2..]);
            && RemovedAll(q, Ids(q.items)) == RemovedAll(q1, Ids(q1.items))
            && WokenByAll(q, Ids(q.items)) == [q.items[1]] + WokenByAll(q1, Ids(q1.items))
  {
    var ids, q1 := Ids(q.items), Queue(q.capacity + 1, q.items[2..]);
    assert IndexOf(q.items, ids[0]) == 0;
    assert WithoutItem(q.items, ids[0]) == q.items[1..];
    assert Removed(q, ids[0]) == q1;
    assert ids[1..][1..] == Ids(q1.items);
    assert !Has(q1, ids[1..][0]);
  }
}

/** Blocks or lets through executions, with one queue per kind of execution that has a limit. */
module ConcurrencyControl {
  import opened ConcurrencyQueue

  datatype Mode = Cli | Error | Integrated | Internal | Manual | Retry | Trigger | Webhook | Evaluation

  datatype Kind = ProductionQueue | EvaluationQueue

  datatype Counted = Unlimited | In(kind: Kind)

  function KindOf(mode: Mode): Counted {
    match mode
    case Webhook => In(ProductionQueue)
    case Trigger => In(ProductionQueue)
    case Evaluation => In(EvaluationQueue)
    case _ => Unlimited
  }

  datatype Control = Control(enabled: bool, queues: map<Kind, Queue>)

  /** Whether executions of this mode count against a limit at the moment. */
  predicate Limited(c: Control, mode: Mode) {
    c.enabled && KindOf(mode).In? && KindOf(mode).kind in c.queues
  }

  predicate MayProceed(c: Control, mode: Mode) {
    Limited(c, mode) ==> c.queues[KindOf(mode).kind].capacity >= 1
  }

  function Put(c: Control, kind: Kind, q: Queue): Control {
    c.(queues := c.queues[kind := q])
  }

  function Throttled(c: Control, mode: Mode, item: Item): Control {
    if Limited(c, mode) then Put(c, KindOf(mode).kind, Enqueued(c.queues[KindOf(mode).kind], item)) else c
  }

  function Release(c: Control, mode: Mode): Control {
    if Limited(c, mode) then Put(c, KindOf(mode).kind, Dequeued(c.queues[KindOf(mode).kind])) else c
  }

  function WokenByRelease(c: Control, mode: Mode): Released {
    if Limited(c, mode) then Next(c.queues[KindOf(mode).kind].items) else Nobody
  }

  function Remove(c: Control, mode: Mode, executionId: string): Control {
    if Limited(c, mode) then Put(c, KindOf(mode).kind, Removed(c.queues[KindOf(mode).kind], executionId)) else c
  }

  function WokenByRemove(c: Control, mode: Mode, executionId: string): Released {
    if Limited(c, mode) then ReleasedByRemove(c.queues[KindOf(mode).kind], executionId) else Nobody
  }

  /** What `removeAll` makes of the queues: every queue goes through the ids it held at the start. */
  function Emptied(c: Control): Control {
    if !c.enabled then c
    else c.(queues := map k | k in c.queues :: Drained(c.queues[k]))
  }

  function Drained(q: Queue): Queue {
    RemovedAll(q, FirstOccurrences(Ids(q.items)))
  }

  /** A set built from a list keeps the order in which the elements first came up. */
  function FirstOccurrences(ids: seq<string>): seq<string> {
    if ids == [] then []
    else
      var before := FirstOccurrences(ids[..|ids| - 1]);
      if ids[|ids| - 1] in before then before else before + [ids[|ids| - 1]]
  }

  datatype Built = BadLimit | Built(control: Control)

  /** The constructor: a limit of zero is refused, anything below -1 counts as -1, which is no limit;
      without any limit, or in queue mode, the service is switched off. */
  function Build(queueMode: bool, production: int, evaluation: int): Built {
    if production == 0 || evaluation == 0 then BadLimit
    else if queueMode || (production < 0 && evaluation < 0) then Built(Control(false, map[]))
    else
      Built(Control(true,
                    (if production > 0 then map[ProductionQueue := Queue(production, [])] else map[])
                    + (if evaluation > 0 then map[EvaluationQueue := Queue(evaluation, [])] else map[])))
  }

  /** Configuring fails exactly on a limit of zero; limiting is on exactly outside queue mode with a positive limit
      somewhere, and then a kind has a queue, of that capacity and empty, exactly if its limit is positive. */
  lemma BuiltExactly(queueMode: bool, production: int, evaluation: int)
    ensures var b := Build(queueMode, production, evaluation);
            && (b.Built? <==> production != 0 && evaluation != 0)
            && (b.Built? ==> (b.control.enabled <==> !queueMode && (production > 0 || evaluation > 0)))
            && (b.Built? && b.control.enabled ==>
                  && (ProductionQueue in b.control.queues <==> production > 0)
                  && (EvaluationQueue in b.control.queues <==> evaluation > 0)
                  && (production > 0 ==> b.control.queues[ProductionQueue] == Queue(production, []))
                  && (evaluation > 0 ==> b.control.queues[EvaluationQueue] == Queue(evaluation, [])))
  {
  }

  /** Webhook and trigger executions share the production limit, evaluations have their own, and no other kind of
      execution ever meets a queue: it may proceed, and neither throttling, releasing nor removing it changes
      anything. */
  lemma WhoIsLimited(c: Control, mode: Mode, item: Item)
    ensures mode == Webhook || mode == Trigger ==>
              (Limited(c, mode) <==> c.enabled && ProductionQueue in c.queues)
              && forall k | k in c.queues && k != ProductionQueue ::
                   k in Throttled(c, mode, item).queues && Throttled(c, mode, item).queues[k] == c.queues[k]
    ensures mode == Evaluation ==>
              (Limited(c, mode) <==> c.enabled && EvaluationQueue in c.queues)
              && forall k | k in c.queues && k != EvaluationQueue ::
                   k in Throttled(c, mode, item).queues && Throttled(c, mode, item).queues[k] == c.queues[k]
    ensures mode != Webhook && mode != Trigger && mode != Evaluation ==>
              && MayProceed(c, mode) && Throttled(c, mode, item) == c && Release(c, mode) == c
              && Remove(c, mode, item.executionId) == c
  {
  }

  // ---------------------------------------------------------------------------
  // Code
  // ---------------------------------------------------------------------------

  class Service {
    var isEnabled: bool
    var queues: map<Kind, Queue>

    function State(): Control
      reads this
    {
      Control(isEnabled, queues)
    }

    constructor (control: Control)
      ensures State() == control
    {
      isEnabled, queues := control.enabled, control.queues;
    }

    method Disable()
      modifies this
      ensures State() == old(State()).(enabled := false)
    {
      isEnabled := false;
    }

    /** Empties the queues and returns the executions to be cancelled in the database. */
    method RemoveAll(executionIdsToCancel: seq<string>) returns (cancelled: seq<string>)
      modifies this
      ensures State() == Emptied(old(State()))
      ensures cancelled == if old(isEnabled) then executionIdsToCancel else []
    {
      if !isEnabled {
        return [];
      }
      ghost var start := queues;
      EmptyQueue(ProductionQueue);
      ghost var half := queues;
      EmptyQueue(EvaluationQueue);
      BothKinds(start, half, queues, Emptied(Control(true, start)).queues);
      return executionIdsToCancel;
    }

    /** One turn of the `forEach` over the queues. */
    method EmptyQueue(kind: Kind)
      modifies this`queues
      ensures queues == if kind in old(queues) then old(queues)[kind := Drained(old(queues)[kind])] else old(queues)
    {
      if kind in queues {
        var q := RemoveEach(queues[kind]);
        queues := queues[kind := q];
      }
    }

    static method RemoveEach(q: Queue) returns (r: Queue)
      ensures r == Drained(q)
    {
      var enqueuedExecutionIds := FirstOccurrences(Ids(q.items));
      r := q;
      var i := 0;
      assert enqueuedExecutionIds[0..] == enqueuedExecutionIds;
      while i < |enqueuedExecutionIds|
        invariant 0 <= i <= |enqueuedExecutionIds|
        invariant RemovedAll(r, enqueuedExecutionIds[i..]) == RemovedAll(q, enqueuedExecutionIds)
      {
        assert enqueuedExecutionIds[i..][1..] == enqueuedExecutionIds[i + 1..];
        r := Removed(r, enqueuedExecutionIds[i]);
        i := i + 1;
      }
    }
  }

  lemma BothKinds(start: map<Kind, Queue>, half: map<Kind, Queue>, all: map<Kind, Queue>, drained: map<Kind, Queue>)
    requires drained.Keys == start.Keys
    requires half == if ProductionQueue in start then start[ProductionQueue := drained[ProductionQueue]] else start
    requires all == if EvaluationQueue in half then half[EvaluationQueue := drained[EvaluationQueue]] else half
    ensures all == drained
  {
    forall k | k in drained ensures all[k] == drained[k] {
      match k { case ProductionQueue => case EvaluationQueue => }
    }
  }

  /** Distinct executions come out of the set in the order of the queue. */
  lemma {:induction false} DistinctAreFirstOccurrences(items: seq<Item>)
    requires DistinctIds(items)
    ensures FirstOccurrences(Ids(items)) == Ids(items)
    decreases |items|
  {
    if items != [] {
      var n := |items| - 1;
      assert Ids(items)[..n] == Ids(items[..n]);
      DistinctAreFirstOccurrences(items[..n]);
      assert Ids(items) == Ids(items[..n]) + [items[n].executionId];
    }
  }

  /** What `removeAll` is for, on queues of distinct executions: they end up empty, and each queue
      gets its slots back for every second execution only, since the others were woken.  Distinctness
      is enough for that and not always needed: an id queued twice in a row is emptied too. */
  lemma EmptiedIsEmpty(c: Control, k: Kind)
    requires c.enabled && k in c.queues && DistinctIds(c.queues[k].items)
    ensures Emptied(c).queues[k] == Queue(c.queues[k].capacity + (|c.queues[k].items| + 1) / 2, [])
    ensures WokenByAll(c.queues[k], FirstOccurrences(Ids(c.queues[k].items))) == Odd(c.queues[k].items)
  {
    DistinctAreFirstOccurrences(c.queues[k].items);
    RemoveAllWakesEverySecond(c.queues[k]);
  }

  /** With an id queued twice, emptying the queue can leave an execution behind: the set of ids names it
      once, and the item between the two has been woken by then. */
  lemma RemoveAllCanLeaveSome(a: Item, b: Item, c: Item)
    requires a.executionId == c.executionId != b.executionId
    ensures Drained(Queue(-3, [a, b, c])) == Queue(-2, [c])
  {
    var q := Queue(-3, [a, b, c]);
    OccurringTwice(a.executionId, b.executionId);
    assert Ids(q.items) == [a.executionId, b.executionId, a.executionId];
    assert IndexOf(q.items, a.executionId) == 0 && WithoutItem(q.items, a.executionId) == [b, c];
    var q1 := Removed(q, a.executionId);
    assert q1.items == [c] && !Has(q1, b.executionId);
    assert [a.executionId, b.executionId][1..] == [b.executionId];
    assert RemovedAll(q1, [b.executionId]) == RemovedAll(q1, []);
  }

  lemma OccurringTwice(x: string, y: string)
    requires x != y
    ensures FirstOccurrences([x, y, x]) == [x, y]
  {
    assert [x, y, x][..2] == [x, y] && [x, y][..1] == [x] && [x][..0] == [];
    assert FirstOccurrences([x]) == [x];
    assert FirstOccurrences([x, y]) == [x, y];
  }

  /** However the service was built, in queue mode it never limits anything. */
  lemma QueueModeIsOff(production: int, evaluation: int)
    ensures var b := Build(true, production, evaluation); b.Built? ==> !b.control.enabled
  {
  }
}
