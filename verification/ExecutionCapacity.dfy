/**
 Capacity over whole runs.  For every kind of execution that has a limit, the table of active
 executions drives its queue exactly like a client that takes a slot when an `add` is let through
 and gives it back when the callback of the settled promise runs; so what is proved of the queue
 alone carries over to every interleaving of adds, stops, settlements and resumptions.
 */
module ExecutionCapacity {
  import Q = ConcurrencyQueue
  import opened ConcurrencyControl
  import opened ActiveExecutions
  import opened Counting

  ghost function HoldsSlot(k: Kind): Add -> bool {
    (a: Add) => KindOf(a.mode) == In(k) && (a.phase.Granted? || a.phase.Failed?)
  }

  ghost function Uncleaned(k: Kind): Record -> bool {
    (r: Record) => KindOf(r.mode) == In(k) && !r.cleaned
  }

  /** The slots taken: by adds past the throttle but not registered, by adds whose database call then
      failed, and by registered executions whose callback has not run. */
  ghost function Held(s: State, k: Kind): nat {
    Count(s.adds, HoldsSlot(k)) + Count(s.records, Uncleaned(k))
  }

  /** Every throttled execution in a queue belongs to one `add` that waits for just that. */
  ghost predicate Tokens(adds: seq<Add>, k: Kind, items: seq<Q.Item>) {
    && (forall j | 0 <= j < |items| ::
          && items[j].waiter < |adds|
          && adds[items[j].waiter].phase == Queued
          && adds[items[j].waiter].id == items[j].executionId
          && KindOf(adds[items[j].waiter].mode) == In(k))
    && (forall i, j | 0 <= i < j < |items| :: items[i].waiter != items[j].waiter)
  }

  type Limits = map<Kind, nat>

  ghost predicate Inv(s: State, limits: Limits) {
    && WellFormed(s)
    && s.control.enabled
    && s.control.queues.Keys == limits.Keys
    && forall k | k in limits :: Tokens(s.adds, k, s.control.queues[k].items)
  }

  /** The queue of one kind together with the slots taken from it. */
  ghost function View(s: State, limits: Limits, k: Kind): Q.System
    requires Inv(s, limits) && k in limits
  {
    Q.System(limits[k], s.control.queues[k], Held(s, k))
  }

  datatype Seen = Nothing | Just(event: Q.Event)

  /** What the queue of kind `k` gets to see of a step. */
  ghost function SeenBy(s: State, e: Event, k: Kind): Seen
    requires Enabled(s, e)
  {
    match e
    case BeginAdd(id, mode) => if KindOf(mode) == In(k) then Just(Q.Arrive(Q.Item(id, |s.adds|))) else Nothing
    case CleanUp(i) => if KindOf(s.records[i].mode) == In(k) then Just(Q.Finish) else Nothing
    case CancelQueued(id, mode) => if KindOf(mode) == In(k) then Just(Q.Cancel(id)) else Nothing
    case _ => Nothing
  }

  ghost predicate Follows(v: Q.System, seen: Seen, v': Q.System) {
    if seen.Nothing? then v' == v else Q.Enabled(v, seen.event) && v' == Q.Step(v, seen.event)
  }

  // ---------------------------------------------------------------------------
  // Waking and dropping
  // ---------------------------------------------------------------------------

  /** Waking the head of a queue turns one waiting add into one that holds a slot of that kind. */
  lemma WakeHead(adds: seq<Add>, k: Kind, items: seq<Q.Item>, k': Kind, items': seq<Q.Item>)
    requires Tokens(adds, k, items) && Tokens(adds, k', items')
    ensures var woken := Wake(adds, Q.Next(items));
            && |woken| == |adds|
            && Tokens(woken, k, Q.Rest(items))
            && (k' != k ==> Tokens(woken, k', items'))
            && Count(woken, HoldsSlot(k)) == Count(adds, HoldsSlot(k)) + Q.Woken(Q.Next(items))
            && (k' != k ==> Count(woken, HoldsSlot(k')) == Count(adds, HoldsSlot(k')))
  {
    if items != [] {
      var t := items[0].waiter;
      CountUpdate(adds, t, adds[t].(phase := Granted), HoldsSlot(k));
      CountUpdate(adds, t, adds[t].(phase := Granted), HoldsSlot(k'));
      TokensTail(adds, k, items);
      if k' != k { TokensOther(adds, k, items, k', items'); }
    }
  }

  lemma TokensTail(adds: seq<Add>, k: Kind, items: seq<Q.Item>)
    requires Tokens(adds, k, items) && items != []
    ensures var t := items[0].waiter; Tokens(adds[t := adds[t].(phase := Granted)], k, items[1..])
  {
  }

  lemma TokensOther(adds: seq<Add>, k: Kind, items: seq<Q.Item>, k': Kind, items': seq<Q.Item>)
    requires Tokens(adds, k, items) && items != [] && Tokens(adds, k', items') && k' != k
    ensures var t := items[0].waiter; Tokens(adds[t := adds[t].(phase := Granted)], k', items')
  {
  }

  /** Taking one item out of the middle of a queue and dropping its add frees no slot. */
  lemma DropItem(adds: seq<Add>, k: Kind, items: seq<Q.Item>, id: string, k': Kind, items': seq<Q.Item>)
    requires Tokens(adds, k, items) && Tokens(adds, k', items')
    requires Q.IndexOf(items, id) < |items|
    ensures var dropped := Drop(adds, Q.Somebody(items[Q.IndexOf(items, id)]));
            && |dropped| == |adds|
            && Tokens(dropped, k, Q.WithoutItem(items, id))
            && (k' != k ==> Tokens(dropped, k', items'))
            && Count(dropped, HoldsSlot(k')) == Count(adds, HoldsSlot(k'))
  {
    var i := Q.IndexOf(items, id);
    var t := items[i].waiter;
    TokensWithout(adds, k, items, i);
    assert Q.WithoutItem(items, id) == items[..i] + items[i + 1..];
    CountUpdate(adds, t, adds[t].(phase := Dropped), HoldsSlot(k'));
  }

  lemma TokensWithout(adds: seq<Add>, k: Kind, items: seq<Q.Item>, i: nat)
    requires Tokens(adds, k, items) && i < |items|
    ensures var t := items[i].waiter;
            Tokens(adds[t := adds[t].(phase := Dropped)], k, items[..i] + items[i + 1..])
  {
  }

  lemma TokensAppend(adds: seq<Add>, k: Kind, items: seq<Q.Item>, a: Add)
    requires Tokens(adds, k, items)
    ensures Tokens(adds + [a], k, items)
  {
  }

  lemma TokensEnqueue(adds: seq<Add>, k: Kind, items: seq<Q.Item>, a: Add)
    requires Tokens(adds, k, items)
    requires a.phase == Queued && KindOf(a.mode) == In(k)
    ensures Tokens(adds + [a], k, items + [Q.Item(a.id, |adds|)])
  {
  }

  // ---------------------------------------------------------------------------
  // One step
  // ---------------------------------------------------------------------------

  /** The invariant after a step that changed at most the queue of one kind. */
  lemma OneQueueChanged(s: State, limits: Limits, s': State, own: Kind, q: Q.Queue)
    requires Inv(s, limits) && WellFormed(s') && own in limits
    requires s'.control == Put(s.control, own, q)
    requires Tokens(s'.adds, own, q.items)
    requires forall k | k in limits && k != own :: Tokens(s'.adds, k, s.control.queues[k].items)
    ensures Inv(s', limits)
  {
    assert s'.control.queues.Keys == limits.Keys;
  }

  /** What a step may do to the queue of one kind and the slots taken from it. */
  ghost predicate Becomes(s: State, limits: Limits, s': State, k: Kind, q: Q.Queue, held: int) {
    && Inv(s, limits) && Inv(s', limits) && k in limits
    && s'.control.queues[k] == q
    && Held(s', k) == held
  }

  lemma BeginAddBecomes(s: State, limits: Limits, id: string, mode: Mode, k: Kind)
    requires Inv(s, limits) && k in limits
    ensures var q := s.control.queues[k];
            if KindOf(mode) == In(k)
            then Becomes(s, limits, DoBeginAdd(s, id, mode), k, Q.Enqueued(q, Q.Item(id, |s.adds|)),
                         Held(s, k) + if q.capacity >= 1 then 1 else 0)
            else Becomes(s, limits, DoBeginAdd(s, id, mode), k, q, Held(s, k))
  {
    var a := Add(id, mode, if MayProceed(s.control, mode) then Granted else Queued);
    BeginAddInv(s, limits, id, mode, a);
    CountAppend(s.adds, a, HoldsSlot(k));
  }

  lemma BeginAddInv(s: State, limits: Limits, id: string, mode: Mode, a: Add)
    requires Inv(s, limits)
    requires a == Add(id, mode, if MayProceed(s.control, mode) then Granted else Queued)
    ensures Inv(DoBeginAdd(s, id, mode), limits)
  {
    forall k | k in limits ensures Tokens(s.adds + [a], k, s.control.queues[k].items) {
      TokensAppend(s.adds, k, s.control.queues[k].items, a);
    }
    if Limited(s.control, mode) {
      var own := KindOf(mode).kind;
      if a.phase == Queued { TokensEnqueue(s.adds, own, s.control.queues[own].items, a); }
      OneQueueChanged(s, limits, DoBeginAdd(s, id, mode), own, Q.Enqueued(s.control.queues[own], Q.Item(id, |s.adds|)));
    }
  }

  /** A step that leaves queues and waiting adds alone, and no slot changes hands. */
  lemma Unseen(s: State, limits: Limits, s': State)
    requires Inv(s, limits) && WellFormed(s')
    requires s'.control == s.control
    requires |s'.adds| == |s.adds|
    requires forall t | 0 <= t < |s.adds| :: s.adds[t].phase == Queued ==> s'.adds[t] == s.adds[t]
    ensures Inv(s', limits)
  {
    forall k | k in limits ensures Tokens(s'.adds, k, s'.control.queues[k].items) {
      assert Tokens(s.adds, k, s.control.queues[k].items);
    }
  }

  lemma RegisterFollows(s: State, limits: Limits, add: nat, now: int, k: Kind)
    requires Inv(s, limits) && k in limits && Enabled(s, Register(add, now))
    ensures Inv(DoRegister(s, add, now), limits)
    ensures View(DoRegister(s, add, now), limits, k) == View(s, limits, k)
  {
    StepWellFormed(s, Register(add, now));
    Unseen(s, limits, DoRegister(s, add, now));
    RegisterHeld(s, add, now, k);
  }

  /** The slot passes from the add to the record. */
  lemma RegisterHeld(s: State, add: nat, now: int, k: Kind)
    requires WellFormed(s) && Enabled(s, Register(add, now))
    ensures Held(DoRegister(s, add, now), k) == Held(s, k)
  {
    var s' := DoRegister(s, add, now);
    CountUpdate(s.adds, add, s'.adds[add], HoldsSlot(k));
    CountAppend(s.records, s'.records[|s.records|], Uncleaned(k));
  }

  lemma FailAddFollows(s: State, limits: Limits, add: nat, k: Kind)
    requires Inv(s, limits) && k in limits && Enabled(s, FailAdd(add))
    ensures Inv(DoFailAdd(s, add), limits)
    ensures View(DoFailAdd(s, add), limits, k) == View(s, limits, k)
  {
    var s' := DoFailAdd(s, add);
    Unseen(s, limits, s');
    CountUpdate(s.adds, add, s'.adds[add], HoldsSlot(k));
  }

  /** Changing the status, the outcome or the response of a record moves no slot. */
  lemma TouchFollows(s: State, limits: Limits, s': State, id: string, k: Kind)
    requires Inv(s, limits) && k in limits && WellFormed(s')
    requires s'.control == s.control && s'.adds == s.adds
    requires s'.records == s.records
             || (id in s.table && exists r: Record :: s'.records == s.records[s.table[id] := r]
                                                 && r.mode == s.records[s.table[id]].mode
                                                 && r.cleaned == s.records[s.table[id]].cleaned)
    ensures Inv(s', limits)
    ensures View(s', limits, k) == View(s, limits, k)
  {
    Unseen(s, limits, s');
    if s'.records != s.records {
      CountUpdate(s.records, s.table[id], s'.records[s.table[id]], Uncleaned(k));
    }
  }

  lemma CleanUpBecomes(s: State, limits: Limits, i: nat, k: Kind)
    requires Inv(s, limits) && k in limits && Enabled(s, CleanUp(i))
    ensures var q := s.control.queues[k];
            if KindOf(s.records[i].mode) == In(k)
            then && Held(s, k) >= 1
                 && Becomes(s, limits, DoCleanUp(s, i), k, Q.Dequeued(q), Held(s, k) - 1 + Q.Woken(Q.Next(q.items)))
            else Becomes(s, limits, DoCleanUp(s, i), k, q, Held(s, k))
  {
    StepWellFormed(s, CleanUp(i));
    if Limited(s.control, s.records[i].mode) {
      CleanUpInv(s, limits, i);
    }
    CleanUpHeld(s, limits, i, k);
  }

  lemma CleanUpHeld(s: State, limits: Limits, i: nat, k: Kind)
    requires Inv(s, limits) && k in limits && Enabled(s, CleanUp(i))
    ensures var own := KindOf(s.records[i].mode) == In(k);
            && Held(s, k) >= (if own then 1 else 0)
            && Held(DoCleanUp(s, i), k)
               == Held(s, k) + if own then Q.Woken(Q.Next(s.control.queues[k].items)) - 1 else 0
  {
    CountUpdate(s.records, i, s.records[i].(cleaned := true), Uncleaned(k));
    if Limited(s.control, s.records[i].mode) {
      var own := KindOf(s.records[i].mode).kind;
      WakeHead(s.adds, own, s.control.queues[own].items, k, s.control.queues[k].items);
    }
  }

  lemma CleanUpInv(s: State, limits: Limits, i: nat)
    requires Inv(s, limits) && Enabled(s, CleanUp(i)) && Limited(s.control, s.records[i].mode)
    ensures Inv(DoCleanUp(s, i), limits)
  {
    var own, s' := KindOf(s.records[i].mode).kind, DoCleanUp(s, i);
    var q := s.control.queues[own];
    StepWellFormed(s, CleanUp(i));
    WakeHead(s.adds, own, q.items, own, q.items);
    forall k | k in limits && k != own ensures Tokens(s'.adds, k, s.control.queues[k].items) {
      WakeHead(s.adds, own, q.items, k, s.control.queues[k].items);
    }
    OneQueueChanged(s, limits, s', own, Q.Dequeued(q));
  }

  lemma CancelQueuedBecomes(s: State, limits: Limits, id: string, mode: Mode, k: Kind)
    requires Inv(s, limits) && k in limits
    ensures var q := s.control.queues[k];
            if KindOf(mode) == In(k)
            then Becomes(s, limits, DoCancelQueued(s, id, mode), k, Q.Removed(q, id),
                         Held(s, k) + Q.Woken(Q.ReleasedByRemove(q, id)))
            else Becomes(s, limits, DoCancelQueued(s, id, mode), k, q, Held(s, k))
  {
    if Limited(s.control, mode) {
      if Q.Has(s.control.queues[KindOf(mode).kind], id) {
        CancelQueuedInv(s, limits, id, mode, k);
      } else {
        CancelNobody(s, id, mode);
      }
    } else {
      assert DoCancelQueued(s, id, mode) == s;
    }
  }

  lemma CancelNobody(s: State, id: string, mode: Mode)
    requires Limited(s.control, mode) && !Q.Has(s.control.queues[KindOf(mode).kind], id)
    ensures DoCancelQueued(s, id, mode) == s
  {
  }

  lemma CancelQueuedInv(s: State, limits: Limits, id: string, mode: Mode, k: Kind)
    requires Inv(s, limits) && k in limits
    requires Limited(s.control, mode) && Q.Has(s.control.queues[KindOf(mode).kind], id)
    ensures Inv(DoCancelQueued(s, id, mode), limits)
    ensures var own := KindOf(mode).kind;
            && DoCancelQueued(s, id, mode).control == Put(s.control, own, Q.Removed(s.control.queues[own], id))
            && Held(DoCancelQueued(s, id, mode), k)
               == Held(s, k) + if k == own then Q.Woken(Q.ReleasedByRemove(s.control.queues[own], id)) else 0
  {
    var own := KindOf(mode).kind;
    var adds' := CancelledAdds(s, limits, id, mode, k);
    OneQueueChanged(s, limits, DoCancelQueued(s, id, mode), own, Q.Removed(s.control.queues[own], id));
  }

  lemma CancelledAdds(s: State, limits: Limits, id: string, mode: Mode, k: Kind) returns (adds': seq<Add>)
    requires Inv(s, limits) && k in limits
    requires Limited(s.control, mode) && Q.Has(s.control.queues[KindOf(mode).kind], id)
    ensures var own := KindOf(mode).kind;
            var rest := Q.WithoutItem(s.control.queues[own].items, id);
            && adds' == DoCancelQueued(s, id, mode).adds
            && Tokens(adds', own, Q.Rest(rest))
            && (forall k' | k' in limits && k' != own :: Tokens(adds', k', s.control.queues[k'].items))
            && Count(adds', HoldsSlot(k))
               == Count(s.adds, HoldsSlot(k)) + if k == own then Q.Woken(Q.Next(rest)) else 0
  {
    var own := KindOf(mode).kind;
    var items := s.control.queues[own].items;
    var rest, dropped := Q.WithoutItem(items, id), Drop(s.adds, Victim(s.control, mode, id));
    adds' := Wake(dropped, Q.Next(rest));
    DropItem(s.adds, own, items, id, own, items);
    WakeHead(dropped, own, rest, own, rest);
    forall k' | k' in limits && k' != own
      ensures Tokens(adds', k', s.control.queues[k'].items)
      ensures Count(adds', HoldsSlot(k')) == Count(s.adds, HoldsSlot(k'))
    {
      DropItem(s.adds, own, items, id, k', s.control.queues[k'].items);
      WakeHead(dropped, own, rest, k', s.control.queues[k'].items);
    }
  }

  lemma ArriveSeen(s: State, limits: Limits, s': State, item: Q.Item, k: Kind)
    requires k in limits && Inv(s, limits)
    requires Becomes(s, limits, s', k, Q.Enqueued(s.control.queues[k], item),
                     Held(s, k) + if s.control.queues[k].capacity >= 1 then 1 else 0)
    ensures Follows(View(s, limits, k), Just(Q.Arrive(item)), View(s', limits, k))
  {
  }

  lemma FinishSeen(s: State, limits: Limits, s': State, k: Kind)
    requires k in limits && Inv(s, limits) && Held(s, k) >= 1
    requires Becomes(s, limits, s', k, Q.Dequeued(s.control.queues[k]),
                     Held(s, k) - 1 + Q.Woken(Q.Next(s.control.queues[k].items)))
    ensures Follows(View(s, limits, k), Just(Q.Finish), View(s', limits, k))
  {
  }

  lemma CancelSeen(s: State, limits: Limits, s': State, id: string, k: Kind)
    requires k in limits && Inv(s, limits)
    requires Becomes(s, limits, s', k, Q.Removed(s.control.queues[k], id),
                     Held(s, k) + Q.Woken(Q.ReleasedByRemove(s.control.queues[k], id)))
    ensures Follows(View(s, limits, k), Just(Q.Cancel(id)), View(s', limits, k))
  {
  }

  lemma NothingSeen(s: State, limits: Limits, s': State, k: Kind)
    requires k in limits && Inv(s, limits)
    requires Becomes(s, limits, s', k, s.control.queues[k], Held(s, k))
    ensures Follows(View(s, limits, k), Nothing, View(s', limits, k))
  {
  }

  /** Every step is, for the queue of each kind, one event of its own or nothing at all. */
  lemma StepFollows(s: State, limits: Limits, e: Event, k: Kind)
    requires Inv(s, limits) && k in limits && Enabled(s, e)
    ensures Inv(Step(s, e), limits)
    ensures Follows(View(s, limits, k), SeenBy(s, e, k), View(Step(s, e), limits, k))
  {
    var s' := Step(s, e);
    match e
    case BeginAdd(id, mode) =>
      BeginAddBecomes(s, limits, id, mode, k);
      if KindOf(mode) == In(k) { ArriveSeen(s, limits, s', Q.Item(id, |s.adds|), k); } else { NothingSeen(s, limits, s', k); }
    case CleanUp(i) =>
      CleanUpBecomes(s, limits, i, k);
      if KindOf(s.records[i].mode) == In(k) { FinishSeen(s, limits, s', k); } else { NothingSeen(s, limits, s', k); }
    case CancelQueued(id, mode) =>
      CancelQueuedBecomes(s, limits, id, mode, k);
      if KindOf(mode) == In(k) { CancelSeen(s, limits, s', id, k); } else { NothingSeen(s, limits, s', k); }
    case Register(add, now) => RegisterFollows(s, limits, add, now, k);
    case FailAdd(add) => FailAddFollows(s, limits, add, k);
    case _ => OtherFollows(s, limits, e, k);
  }

  lemma OtherFollows(s: State, limits: Limits, e: Event, k: Kind)
    requires Inv(s, limits) && k in limits && Enabled(s, e)
    requires e.Stop? || e.Finalize? || e.SetStatus? || e.AttachResponse? || e.Respond? || e.ResolveResponse?
    ensures Inv(Step(s, e), limits)
    ensures View(Step(s, e), limits, k) == View(s, limits, k)
  {
    StepWellFormed(s, e);
    TouchFollows(s, limits, Step(s, e), e.id, k);
  }

  // ---------------------------------------------------------------------------
  // Over every run
  // ---------------------------------------------------------------------------

  ghost predicate Start(s: State, limits: Limits) {
    && s.adds == [] && s.records == [] && s.table == map[]
    && s.control.enabled
    && s.control.queues.Keys == limits.Keys
    && forall k | k in limits :: s.control.queues[k] == Q.Queue(limits[k], [])
  }

  ghost predicate Run(states: seq<State>, events: seq<Event>, limits: Limits) {
    && |states| == |events| + 1
    && Start(states[0], limits)
    && forall i | 0 <= i < |events| ::
         WellFormed(states[i]) && Enabled(states[i], events[i]) && states[i + 1] == Step(states[i], events[i])
  }

  /** Cancelling one of several queued executions is the only thing that can break the limit. */
  ghost predicate OvershootsAt(s: State, limits: Limits, e: Event, k: Kind)
    requires Inv(s, limits) && k in limits && Enabled(s, e)
  {
    SeenBy(s, e, k).Just? && Q.Overshoots(View(s, limits, k), SeenBy(s, e, k).event)
  }

  lemma StepBalanced(s: State, limits: Limits, e: Event, k: Kind)
    requires Inv(s, limits) && k in limits && Enabled(s, e) && Q.Balanced(View(s, limits, k))
    ensures Inv(Step(s, e), limits) && Q.Balanced(View(Step(s, e), limits, k))
    ensures Held(s, k) <= limits[k] ==> (Held(Step(s, e), k) <= limits[k] <==> !OvershootsAt(s, limits, e, k))
  {
    StepFollows(s, limits, e, k);
    var v, seen := View(s, limits, k), SeenBy(s, e, k);
    if seen.Just? {
      Q.StepBalanced(v, seen.event);
    }
  }

  /** In every interleaved run, capacity is the limit less the slots held and the executions queued,
      and nobody is queued while a slot is free. */
  lemma {:induction false} CapacityConserved(states: seq<State>, events: seq<Event>, limits: Limits, k: Kind, n: nat)
    requires Run(states, events, limits) && k in limits && n <= |events|
    ensures Inv(states[n], limits)
    ensures var q := states[n].control.queues[k];
            && q.capacity == limits[k] - Held(states[n], k) - |q.items|
            && (q.items != [] ==> Held(states[n], k) >= limits[k])
    decreases n
  {
    if n == 0 {
      assert Count(states[0].adds, HoldsSlot(k)) == 0;
    } else {
      CapacityConserved(states, events, limits, k, n - 1);
      assert states[n - 1 + 1] == Step(states[n - 1], events[n - 1]);
      StepBalanced(states[n - 1], limits, events[n - 1], k);
      assert Q.Balanced(View(states[n], limits, k));
    }
  }

  /** In every run that never cancels one of several queued executions, the limit holds throughout. */
  lemma {:induction false} LimitKept(states: seq<State>, events: seq<Event>, limits: Limits, k: Kind, n: nat)
    requires Run(states, events, limits) && k in limits && n <= |events|
    requires forall i | 0 <= i < n :: Inv(states[i], limits) ==> !OvershootsAt(states[i], limits, events[i], k)
    ensures Held(states[n], k) <= limits[k]
    decreases n
  {
    CapacityConserved(states, events, limits, k, n);
    if n > 0 {
      LimitKept(states, events, limits, k, n - 1);
      CapacityConserved(states, events, limits, k, n - 1);
      assert states[n - 1 + 1] == Step(states[n - 1], events[n - 1]);
      StepBalanced(states[n - 1], limits, events[n - 1], k);
    }
  }

  lemma {:induction false} CountPositive<T(!new)>(s: seq<T>, p: T -> bool)
    ensures Count(s, p) == 0 <==> forall x | x in s :: !p(x)
    decreases |s|
  {
    if s != [] {
      CountPositive(s[..|s| - 1], p);
      assert s == s[..|s| - 1] + [s[|s| - 1]];
    }
  }

  /** All capacity has been returned exactly when no add is past the throttle and unregistered or
      failed, nobody is queued, and every registered execution's callback has run. */
  lemma AllReturnedExactly(s: State, limits: Limits, k: Kind)
    requires Inv(s, limits) && k in limits && Q.Balanced(View(s, limits, k))
    ensures s.control.queues[k].capacity == limits[k] <==>
            && s.control.queues[k].items == []
            && (forall a | a in s.adds :: !HoldsSlot(k)(a))
            && (forall r | r in s.records :: !Uncleaned(k)(r))
  {
    CountPositive(s.adds, HoldsSlot(k));
    CountPositive(s.records, Uncleaned(k));
  }

  ghost function FailedOf(k: Kind): Add -> bool {
    (a: Add) => KindOf(a.mode) == In(k) && a.phase.Failed?
  }

  lemma {:induction false} CountImplies<T(!new)>(s: seq<T>, p: T -> bool, q: T -> bool)
    requires forall x :: p(x) ==> q(x)
    ensures Count(s, p) <= Count(s, q)
    decreases |s|
  {
    if s != [] {
      CountImplies(s[..|s| - 1], p, q);
    }
  }

  /** Adds that failed after the throttle hold their slots. */
  lemma FailedHoldSlots(s: State, limits: Limits, k: Kind)
    requires Inv(s, limits) && k in limits && Q.Balanced(View(s, limits, k))
    ensures s.control.queues[k].capacity <= limits[k] - Count(s.adds, FailedOf(k))
  {
    CountImplies(s.adds, FailedOf(k), HoldsSlot(k));
  }

  lemma {:induction false} CountGrows<T(!new)>(s: seq<T>, t: seq<T>, p: T -> bool)
    requires |s| <= |t| && forall i | 0 <= i < |s| && p(s[i]) :: p(t[i])
    ensures Count(s, p) <= Count(t, p)
    decreases |t|
  {
    if |s| < |t| {
      CountGrows(s, t[..|t| - 1], p);
    } else if s != [] {
      CountGrows(s[..|s| - 1], t[..|t| - 1], p);
    }
  }

  /** Adds that failed stay as they are. */
  ghost predicate FailedSame(adds: seq<Add>, adds': seq<Add>) {
    && |adds| <= |adds'|
    && forall t | 0 <= t < |adds| && adds[t].phase.Failed? :: adds'[t] == adds[t]
  }

  /** Waking and dropping only ever move adds that wait. */
  lemma WakeKeepsFailed(adds: seq<Add>, k: Kind, items: seq<Q.Item>)
    requires Tokens(adds, k, items)
    ensures FailedSame(adds, Wake(adds, Q.Next(items)))
  {
  }

  lemma DropKeepsFailed(adds: seq<Add>, k: Kind, items: seq<Q.Item>, i: nat)
    requires Tokens(adds, k, items) && i < |items|
    ensures FailedSame(adds, Drop(adds, Q.Somebody(items[i])))
  {
  }

  lemma CancelKeepsFailed(s: State, limits: Limits, id: string, mode: Mode)
    requires Inv(s, limits)
    ensures FailedSame(s.adds, DoCancelQueued(s, id, mode).adds)
  {
    if Limited(s.control, mode) && Q.Has(s.control.queues[KindOf(mode).kind], id) {
      var own := KindOf(mode).kind;
      var items := s.control.queues[own].items;
      var i := Q.IndexOf(items, id);
      var dropped := Drop(s.adds, Q.Somebody(items[i]));
      DropItem(s.adds, own, items, id, own, items);
      DropKeepsFailed(s.adds, own, items, i);
      WakeKeepsFailed(dropped, own, Q.WithoutItem(items, id));
    }
  }

  lemma CleanUpKeepsFailed(s: State, limits: Limits, i: nat)
    requires Inv(s, limits) && Enabled(s, CleanUp(i))
    ensures FailedSame(s.adds, DoCleanUp(s, i).adds)
  {
    if Limited(s.control, s.records[i].mode) {
      var own := KindOf(s.records[i].mode).kind;
      WakeKeepsFailed(s.adds, own, s.control.queues[own].items);
    }
  }

  lemma StepKeepsFailed(s: State, limits: Limits, e: Event)
    requires Inv(s, limits) && Enabled(s, e)
    ensures FailedSame(s.adds, Step(s, e).adds)
  {
    match e
    case CleanUp(i) => CleanUpKeepsFailed(s, limits, i);
    case CancelQueued(id, mode) => CancelKeepsFailed(s, limits, id, mode);
    case _ =>
  }

  lemma StepLosesNoFailed(s: State, limits: Limits, e: Event, k: Kind)
    requires Inv(s, limits) && Enabled(s, e)
    ensures Count(s.adds, FailedOf(k)) <= Count(Step(s, e).adds, FailedOf(k))
  {
    StepKeepsFailed(s, limits, e);
    CountGrows(s.adds, Step(s, e).adds, FailedOf(k));
  }

  lemma FailedStayAt(states: seq<State>, events: seq<Event>, limits: Limits, k: Kind, i: nat)
    requires Run(states, events, limits) && k in limits && i < |events|
    ensures Count(states[i].adds, FailedOf(k)) <= Count(states[i + 1].adds, FailedOf(k))
  {
    CapacityConserved(states, events, limits, k, i);
    StepLosesNoFailed(states[i], limits, events[i], k);
  }

  ghost function FailedAt(states: seq<State>, k: Kind, n: nat): nat {
    if n < |states| then Count(states[n].adds, FailedOf(k)) else 0
  }

  lemma {:induction false} FailedNeverFewer(states: seq<State>, k: Kind, m: nat, n: nat)
    requires forall i: nat | m <= i < n :: FailedAt(states, k, i) <= FailedAt(states, k, i + 1)
    requires m <= n
    ensures FailedAt(states, k, m) <= FailedAt(states, k, n)
    decreases n
  {
    if m < n {
      FailedNeverFewer(states, k, m, n - 1);
      assert FailedAt(states, k, n - 1) <= FailedAt(states, k, n - 1 + 1);
    }
  }

  /** Every add that fails after the throttle costs a slot for good: from then on, at every later position of
      every run, capacity stays below the limit by at least the number of adds that had failed by then. */
  lemma FailedAddsCostSlots(states: seq<State>, events: seq<Event>, limits: Limits, k: Kind, m: nat, n: nat)
    requires Run(states, events, limits) && k in limits && m <= n <= |events|
    ensures k in states[n].control.queues
    ensures states[n].control.queues[k].capacity <= limits[k] - Count(states[m].adds, FailedOf(k))
  {
    forall i: nat | m <= i < n ensures FailedAt(states, k, i) <= FailedAt(states, k, i + 1) {
      FailedStayAt(states, events, limits, k, i);
    }
    FailedNeverFewer(states, k, m, n);
    CapacityConserved(states, events, limits, k, n);
    FailedHoldSlots(states[n], limits, k);
  }

  /** A concrete case: with room for one, the only execution there ever was fails in the database, and the next
      one waits behind nobody. */
  lemma FailedAddBlocksNext() returns (states: seq<State>, events: seq<Event>)
    ensures Run(states, events, map[ProductionQueue := 1])
    ensures var s := states[|events|];
            && s.records == [] && s.table == map[]
            && s.adds == [Add("1", Webhook, Failed), Add("2", Webhook, Queued)]
            && ProductionQueue in s.control.queues && s.control.queues[ProductionQueue] == Q.Queue(-1, [Q.Item("2", 1)])
  {
    var a, b := Add("1", Webhook, Granted), Add("2", Webhook, Queued);
    var s0 := WithQueue(Q.Queue(1, []), []);
    var s1 := WithQueue(Q.Queue(0, []), [a]);
    var s2 := WithQueue(Q.Queue(0, []), [a.(phase := Failed)]);
    var s3 := WithQueue(Q.Queue(-1, [Q.Item("2", 1)]), [a.(phase := Failed), b]);
    states, events := [s0, s1, s2, s3], [BeginAdd("1", Webhook), FailAdd(0), BeginAdd("2", Webhook)];
    assert Step(s0, events[0]) == s1;
    assert Step(s1, events[1]) == s2;
    assert Step(s2, events[2]) == s3 by {
      assert s2.adds + [b] == s3.adds;
      assert Q.Enqueued(Q.Queue(0, []), Q.Item("2", 1)) == Q.Queue(-1, [Q.Item("2", 1)]);
      assert !MayProceed(s2.control, Webhook);
    }
  }

  function WithQueue(q: Q.Queue, adds: seq<Add>): State {
    State(Control(true, map[ProductionQueue := q]), adds, [], map[], map[])
  }

  // ---------------------------------------------------------------------------
  // The order of the grants
  // ---------------------------------------------------------------------------

  /** The queue of a kind holds the waiting adds of that kind, all of them, in the order of their `add` calls. */
  ghost predicate InLine(adds: seq<Add>, k: Kind, items: seq<Q.Item>) {
    && (forall i, j | 0 <= i < j < |items| :: items[i].waiter < items[j].waiter)
    && (forall t | 0 <= t < |adds| && Waits(adds[t], k) :: exists j :: 0 <= j < |items| && items[j].waiter == t)
  }

  predicate Waits(a: Add, k: Kind) {
    KindOf(a.mode) == In(k) && a.phase == Queued
  }

  /** An execution of a mode without a limit never waits. */
  ghost predicate NoOneElseWaits(adds: seq<Add>, limits: Limits) {
    forall t | 0 <= t < |adds| && adds[t].phase == Queued :: KindOf(adds[t].mode).In? && KindOf(adds[t].mode).kind in limits
  }

  ghost predicate AllInLine(s: State, limits: Limits) {
    && Inv(s, limits)
    && (forall k | k in limits :: InLine(s.adds, k, s.control.queues[k].items))
    && NoOneElseWaits(s.adds, limits)
  }

  lemma LineAppend(adds: seq<Add>, k: Kind, items: seq<Q.Item>, a: Add)
    requires InLine(adds, k, items) && !Waits(a, k)
    ensures InLine(adds + [a], k, items)
  {
  }

  lemma LineEnqueue(adds: seq<Add>, k: Kind, items: seq<Q.Item>, a: Add)
    requires Tokens(adds, k, items) && InLine(adds, k, items)
    ensures InLine(adds + [a], k, items + [Q.Item(a.id, |adds|)])
  {
    var more := items + [Q.Item(a.id, |adds|)];
    forall t | 0 <= t < |adds + [a]| && Waits((adds + [a])[t], k) ensures exists j :: 0 <= j < |more| && more[j].waiter == t {
      if t == |adds| {
        assert more[|items|].waiter == t;
      } else {
        var j :| 0 <= j < |items| && items[j].waiter == t;
        assert more[j].waiter == t;
      }
    }
  }

  lemma BeginAddLineOf(s: State, limits: Limits, id: string, mode: Mode, a: Add, k: Kind)
    requires Inv(s, limits) && k in limits && InLine(s.adds, k, s.control.queues[k].items)
    requires a == Add(id, mode, if MayProceed(s.control, mode) then Granted else Queued)
    ensures k in DoBeginAdd(s, id, mode).control.queues
    ensures InLine(s.adds + [a], k, DoBeginAdd(s, id, mode).control.queues[k].items)
  {
    var items := s.control.queues[k].items;
    if Waits(a, k) {
      LineEnqueue(s.adds, k, items, a);
    } else {
      LineAppend(s.adds, k, items, a);
    }
  }

  lemma BeginAddLine(s: State, limits: Limits, id: string, mode: Mode)
    requires AllInLine(s, limits)
    ensures AllInLine(DoBeginAdd(s, id, mode), limits)
  {
    var a := Add(id, mode, if MayProceed(s.control, mode) then Granted else Queued);
    BeginAddInv(s, limits, id, mode, a);
    forall k | k in limits ensures InLine(s.adds + [a], k, DoBeginAdd(s, id, mode).control.queues[k].items) {
      BeginAddLineOf(s, limits, id, mode, a, k);
    }
    OnlyLimitedWait(s, limits, id, mode, a);
  }

  lemma OnlyLimitedWait(s: State, limits: Limits, id: string, mode: Mode, a: Add)
    requires Inv(s, limits) && NoOneElseWaits(s.adds, limits)
    requires a == Add(id, mode, if MayProceed(s.control, mode) then Granted else Queued)
    ensures NoOneElseWaits(s.adds + [a], limits)
  {
  }

  /** Some waiting adds stop waiting, and exactly their items leave the line. */
  ghost predicate Leaves(adds: seq<Add>, adds': seq<Add>, items: seq<Q.Item>, items': seq<Q.Item>, at: nat) {
    && at < |items| && items[at].waiter < |adds|
    && |adds'| == |adds|
    && items' == items[..at] + items[at + 1..]
    && forall t | 0 <= t < |adds| && t != items[at].waiter :: adds'[t] == adds[t]
  }

  lemma LineLeave(adds: seq<Add>, adds': seq<Add>, k: Kind, items: seq<Q.Item>, items': seq<Q.Item>, at: nat)
    requires Leaves(adds, adds', items, items', at) && InLine(adds, k, items)
    requires !Waits(adds'[items[at].waiter], k)
    ensures InLine(adds', k, items')
  {
    assert forall j | 0 <= j < |items'| :: items'[j] == if j < at then items[j] else items[j + 1];
    forall t | 0 <= t < |adds'| && Waits(adds'[t], k) ensures exists j :: 0 <= j < |items'| && items'[j].waiter == t {
      var j :| 0 <= j < |items| && items[j].waiter == t;
      if j < at { assert items'[j].waiter == t; } else { assert items'[j - 1].waiter == t; }
    }
  }

  /** What happens to a waiting add of another kind, or of none, is of no concern to a line. */
  lemma LineElsewhere(adds: seq<Add>, adds': seq<Add>, k: Kind, items: seq<Q.Item>)
    requires InLine(adds, k, items) && |adds'| == |adds|
    requires forall t | 0 <= t < |adds| && Waits(adds'[t], k) :: Waits(adds[t], k)
    ensures InLine(adds', k, items)
  {
  }

  lemma WakeLine(adds: seq<Add>, k: Kind, items: seq<Q.Item>)
    requires Tokens(adds, k, items) && InLine(adds, k, items)
    ensures InLine(Wake(adds, Q.Next(items)), k, Q.Rest(items))
  {
    if items != [] {
      LineLeave(adds, Wake(adds, Q.Next(items)), k, items, Q.Rest(items), 0);
    }
  }

  lemma DropLine(adds: seq<Add>, k: Kind, items: seq<Q.Item>, id: string)
    requires Tokens(adds, k, items) && InLine(adds, k, items) && Q.IndexOf(items, id) < |items|
    ensures InLine(Drop(adds, Q.Somebody(items[Q.IndexOf(items, id)])), k, Q.WithoutItem(items, id))
  {
    var i := Q.IndexOf(items, id);
    LineLeave(adds, Drop(adds, Q.Somebody(items[i])), k, items, Q.WithoutItem(items, id), i);
  }

  /** No add starts to wait. */
  ghost predicate NoNewWaiters(adds: seq<Add>, adds': seq<Add>) {
    && |adds'| == |adds|
    && forall t | 0 <= t < |adds| :: adds'[t] == adds[t] || adds'[t].phase != Queued
  }

  lemma WakeStarts(adds: seq<Add>, woken: Q.Released)
    ensures NoNewWaiters(adds, Wake(adds, woken))
  {
  }

  lemma DropStarts(adds: seq<Add>, victim: Q.Released)
    ensures NoNewWaiters(adds, Drop(adds, victim))
  {
  }

  lemma CleanUpLineOf(s: State, limits: Limits, i: nat, k: Kind)
    requires Inv(s, limits) && Enabled(s, CleanUp(i)) && k in limits && InLine(s.adds, k, s.control.queues[k].items)
    ensures k in DoCleanUp(s, i).control.queues
    ensures InLine(DoCleanUp(s, i).adds, k, DoCleanUp(s, i).control.queues[k].items)
  {
    var mode := s.records[i].mode;
    if Limited(s.control, mode) && KindOf(mode).kind == k {
      WakeLine(s.adds, k, s.control.queues[k].items);
    } else {
      WakeStarts(s.adds, WokenByRelease(s.control, mode));
      LineElsewhere(s.adds, DoCleanUp(s, i).adds, k, s.control.queues[k].items);
    }
  }

  lemma CleanUpLine(s: State, limits: Limits, i: nat)
    requires AllInLine(s, limits) && Enabled(s, CleanUp(i))
    ensures AllInLine(DoCleanUp(s, i), limits)
  {
    StepWellFormed(s, CleanUp(i));
    if Limited(s.control, s.records[i].mode) {
      CleanUpInv(s, limits, i);
    }
    forall k | k in limits ensures InLine(DoCleanUp(s, i).adds, k, DoCleanUp(s, i).control.queues[k].items) {
      CleanUpLineOf(s, limits, i, k);
    }
    WakeStarts(s.adds, WokenByRelease(s.control, s.records[i].mode));
  }

  lemma CancelLine(s: State, limits: Limits, id: string, mode: Mode)
    requires AllInLine(s, limits)
    ensures AllInLine(DoCancelQueued(s, id, mode), limits)
  {
    if Limited(s.control, mode) && Q.Has(s.control.queues[KindOf(mode).kind], id) {
      var own := KindOf(mode).kind;
      var items := s.control.queues[own].items;
      var dropped := Drop(s.adds, Q.Somebody(items[Q.IndexOf(items, id)]));
      CancelQueuedInv(s, limits, id, mode, own);
      DropItem(s.adds, own, items, id, own, items);
      DropLine(s.adds, own, items, id);
      WakeLine(dropped, own, Q.WithoutItem(items, id));
      DropStarts(s.adds, Q.Somebody(items[Q.IndexOf(items, id)]));
      WakeStarts(dropped, Q.Next(Q.WithoutItem(items, id)));
      CancelLineElsewhere(s, limits, id, mode, dropped);
    } else if Limited(s.control, mode) {
      CancelNobody(s, id, mode);
    } else {
      assert DoCancelQueued(s, id, mode) == s;
    }
  }

  lemma CancelLineElsewhere(s: State, limits: Limits, id: string, mode: Mode, dropped: seq<Add>)
    requires AllInLine(s, limits) && Limited(s.control, mode)
    requires NoNewWaiters(s.adds, dropped) && NoNewWaiters(dropped, DoCancelQueued(s, id, mode).adds)
    ensures NoOneElseWaits(DoCancelQueued(s, id, mode).adds, limits)
    ensures forall k | k in limits && k != KindOf(mode).kind ::
              InLine(DoCancelQueued(s, id, mode).adds, k, s.control.queues[k].items)
  {
    var s' := DoCancelQueued(s, id, mode);
    forall k | k in limits && k != KindOf(mode).kind ensures InLine(s'.adds, k, s.control.queues[k].items) {
      LineElsewhere(s.adds, s'.adds, k, s.control.queues[k].items);
    }
  }

  lemma GrantedLine(s: State, limits: Limits, s': State)
    requires AllInLine(s, limits) && WellFormed(s') && s'.control == s.control && NoNewWaiters(s.adds, s'.adds)
    requires forall t | 0 <= t < |s.adds| :: s.adds[t].phase == Queued ==> s'.adds[t] == s.adds[t]
    ensures AllInLine(s', limits)
  {
    Unseen(s, limits, s');
    forall k | k in limits ensures InLine(s'.adds, k, s.control.queues[k].items) {
      LineElsewhere(s.adds, s'.adds, k, s.control.queues[k].items);
    }
  }

  lemma StepInLine(s: State, limits: Limits, e: Event)
    requires AllInLine(s, limits) && Enabled(s, e)
    ensures AllInLine(Step(s, e), limits)
  {
    StepWellFormed(s, e);
    match e
    case BeginAdd(id, mode) => BeginAddLine(s, limits, id, mode);
    case CleanUp(i) => CleanUpLine(s, limits, i);
    case CancelQueued(id, mode) => CancelLine(s, limits, id, mode);
    case _ => GrantedLine(s, limits, Step(s, e));
  }

  /** In every run, those who wait for a kind stand in its queue in the order of their `add` calls, nobody is left
      out, and executions of other modes never wait. */
  lemma {:induction false} InLineOverRuns(states: seq<State>, events: seq<Event>, limits: Limits, n: nat)
    requires Run(states, events, limits) && n <= |events|
    ensures AllInLine(states[n], limits)
    decreases n
  {
    if n > 0 {
      InLineOverRuns(states, events, limits, n - 1);
      assert states[n - 1 + 1] == Step(states[n - 1], events[n - 1]);
      StepInLine(states[n - 1], limits, events[n - 1]);
    }
  }

  /** When a step grants a waiting add, nobody who asked before it for the same kind is left waiting. */
  lemma GrantedInOrder(states: seq<State>, events: seq<Event>, limits: Limits, n: nat, t: nat, u: nat)
    requires Run(states, events, limits) && n < |events|
    requires u < t < |states[n].adds| && t < |states[n + 1].adds|
    requires states[n].adds[t].phase == Queued && states[n + 1].adds[t].phase == Granted
    requires KindOf(states[n].adds[u].mode) == KindOf(states[n].adds[t].mode)
    ensures states[n + 1].adds[u].phase != Queued
  {
    InLineOverRuns(states, events, limits, n);
    InLineOverRuns(states, events, limits, n + 1);
    assert states[n + 1] == Step(states[n], events[n]);
    GrantedIsFirst(states[n], limits, events[n], t, u);
  }

  lemma GrantedIsFirst(s: State, limits: Limits, e: Event, t: nat, u: nat)
    requires AllInLine(s, limits) && Enabled(s, e) && AllInLine(Step(s, e), limits)
    requires u < t < |s.adds| && t < |Step(s, e).adds|
    requires s.adds[t].phase == Queued && Step(s, e).adds[t].phase == Granted
    requires KindOf(s.adds[u].mode) == KindOf(s.adds[t].mode)
    ensures Step(s, e).adds[u].phase != Queued
  {
    match e
    case CleanUp(i) => CleanUpGrantsFirst(s, limits, i, t, u);
    case CancelQueued(id, mode) => CancelGrantsFirst(s, limits, id, mode, t, u);
    case _ =>
  }

  lemma WakeGrantsFirst(adds: seq<Add>, k: Kind, items: seq<Q.Item>, t: nat, u: nat)
    requires Tokens(adds, k, items) && InLine(adds, k, items)
    requires u < t < |adds| && adds[t].phase == Queued && Wake(adds, Q.Next(items))[t].phase == Granted
    ensures KindOf(adds[t].mode) == In(k) && !Waits(adds[u], k)
  {
    assert items != [] && items[0].waiter == t;
  }

  lemma CleanUpGrantsFirst(s: State, limits: Limits, i: nat, t: nat, u: nat)
    requires AllInLine(s, limits) && Enabled(s, CleanUp(i))
    requires u < t < |s.adds| && t < |DoCleanUp(s, i).adds|
    requires s.adds[t].phase == Queued && DoCleanUp(s, i).adds[t].phase == Granted
    requires KindOf(s.adds[u].mode) == KindOf(s.adds[t].mode)
    ensures DoCleanUp(s, i).adds[u].phase != Queued
  {
    var own := KindOf(s.records[i].mode).kind;
    WakeStarts(s.adds, WokenByRelease(s.control, s.records[i].mode));
    WakeGrantsFirst(s.adds, own, s.control.queues[own].items, t, u);
  }

  lemma CancelGrantsFirst(s: State, limits: Limits, id: string, mode: Mode, t: nat, u: nat)
    requires AllInLine(s, limits)
    requires u < t < |s.adds| && t < |DoCancelQueued(s, id, mode).adds|
    requires s.adds[t].phase == Queued && DoCancelQueued(s, id, mode).adds[t].phase == Granted
    requires KindOf(s.adds[u].mode) == KindOf(s.adds[t].mode)
    ensures DoCancelQueued(s, id, mode).adds[u].phase != Queued
  {
    var own := KindOf(mode).kind;
    DroppedGrantsFirst(s.adds, own, s.control.queues[own].items, id, t, u);
  }

  lemma DroppedGrantsFirst(adds: seq<Add>, own: Kind, items: seq<Q.Item>, id: string, t: nat, u: nat)
    requires Tokens(adds, own, items) && InLine(adds, own, items) && Q.IndexOf(items, id) < |items|
    requires u < t < |adds| && adds[t].phase == Queued && KindOf(adds[u].mode) == KindOf(adds[t].mode)
    requires var dropped := Drop(adds, Q.Somebody(items[Q.IndexOf(items, id)]));
             |dropped| == |adds| && Wake(dropped, Q.Next(Q.WithoutItem(items, id)))[t].phase == Granted
    ensures var dropped := Drop(adds, Q.Somebody(items[Q.IndexOf(items, id)]));
            Wake(dropped, Q.Next(Q.WithoutItem(items, id)))[u].phase != Queued
  {
    var victim := Q.Somebody(items[Q.IndexOf(items, id)]);
    DropItem(adds, own, items, id, own, items);
    DropLine(adds, own, items, id);
    DropKeepsModes(adds, victim, t);
    DropKeepsModes(adds, victim, u);
    RestGrantsFirst(Drop(adds, victim), own, Q.WithoutItem(items, id), t, u);
  }

  lemma DropKeepsModes(adds: seq<Add>, victim: Q.Released, t: nat)
    requires t < |adds|
    ensures Drop(adds, victim)[t].mode == adds[t].mode
    ensures Drop(adds, victim)[t].phase == adds[t].phase || Drop(adds, victim)[t].phase == Dropped
  {
  }

  lemma RestGrantsFirst(adds: seq<Add>, k: Kind, items: seq<Q.Item>, t: nat, u: nat)
    requires Tokens(adds, k, items) && InLine(adds, k, items)
    requires u < t < |adds| && adds[t].phase != Granted && KindOf(adds[u].mode) == KindOf(adds[t].mode)
    requires Wake(adds, Q.Next(items))[t].phase == Granted
    ensures Wake(adds, Q.Next(items))[u].phase != Queued
  {
    WakeGrantsFirst(adds, k, items, t, u);
    WakeStarts(adds, Q.Next(items));
  }

  // ---------------------------------------------------------------------------
  // Every release gives back the grant it belongs to
  // ---------------------------------------------------------------------------

  /** Each record was registered by an add of its own, of the same id and mode. */
  ghost predicate Linked(s: State) {
    LinkedTo(s.adds, s.records)
  }

  ghost predicate LinkedTo(adds: seq<Add>, records: seq<Record>) {
    forall i | 0 <= i < |records| ::
      records[i].add < |adds| && adds[records[i].add] == Add(records[i].id, records[i].mode, Registered(i))
  }

  ghost function PastThrottle(k: Kind): Add -> bool {
    (a: Add) => KindOf(a.mode) == In(k) && !a.phase.Queued? && !a.phase.Dropped?
  }

  ghost function RegisteredOf(k: Kind): Add -> bool {
    (a: Add) => KindOf(a.mode) == In(k) && a.phase.Registered?
  }

  ghost function OfKind(k: Kind): Record -> bool {
    (r: Record) => KindOf(r.mode) == In(k)
  }

  ghost function CleanedOf(k: Kind): Record -> bool {
    (r: Record) => KindOf(r.mode) == In(k) && r.cleaned
  }

  ghost predicate Matched(s: State, k: Kind) {
    Count(s.adds, RegisteredOf(k)) == Count(s.records, OfKind(k))
  }

  lemma {:induction false} CountSame<T(!new)>(s: seq<T>, t: seq<T>, p: T -> bool)
    requires |s| == |t| && forall i | 0 <= i < |s| :: p(s[i]) == p(t[i])
    ensures Count(s, p) == Count(t, p)
    decreases |s|
  {
    if s != [] {
      CountSame(s[..|s| - 1], t[..|t| - 1], p);
    }
  }

  lemma {:induction false} CountSum<T(!new)>(s: seq<T>, p: T -> bool, q: T -> bool, both: T -> bool)
    requires forall x :: both(x) == (p(x) || q(x)) && !(p(x) && q(x))
    ensures Count(s, both) == Count(s, p) + Count(s, q)
    decreases |s|
  {
    if s != [] {
      CountSum(s[..|s| - 1], p, q, both);
    }
  }

  /** Only registering touches a registered add or the identity of a record. */
  lemma StepKeepsRegistered(s: State, limits: Limits, e: Event)
    requires Inv(s, limits) && Enabled(s, e) && !e.Register?
    ensures KeepsRegistered(s, Step(s, e))
  {
    match e
    case CleanUp(i) => CleanUpKeeps(s, limits, i);
    case CancelQueued(id, mode) => CancelKeeps(s, limits, id, mode);
    case _ =>
  }

  lemma CleanUpKeeps(s: State, limits: Limits, i: nat)
    requires Inv(s, limits) && Enabled(s, CleanUp(i))
    ensures KeepsRegistered(s, DoCleanUp(s, i))
  {
  }

  lemma CancelKeeps(s: State, limits: Limits, id: string, mode: Mode)
    requires Inv(s, limits)
    ensures KeepsRegistered(s, DoCancelQueued(s, id, mode))
  {
    if Limited(s.control, mode) && Q.Has(s.control.queues[KindOf(mode).kind], id) {
      var own := KindOf(mode).kind;
      CancelSame(s.adds, own, s.control.queues[own].items, id);
    }
  }

  /** Registered adds are the same before and after. */
  ghost predicate SameRegistered(adds: seq<Add>, adds': seq<Add>) {
    && |adds'| == |adds|
    && forall t | 0 <= t < |adds| ::
         adds'[t].phase.Registered? || adds[t].phase.Registered? ==> adds'[t] == adds[t]
  }

  lemma WakeSame(adds: seq<Add>, k: Kind, items: seq<Q.Item>)
    requires Tokens(adds, k, items)
    ensures SameRegistered(adds, Wake(adds, Q.Next(items)))
  {
  }

  lemma DropSame(adds: seq<Add>, k: Kind, items: seq<Q.Item>, i: nat)
    requires Tokens(adds, k, items) && i < |items|
    ensures SameRegistered(adds, Drop(adds, Q.Somebody(items[i])))
  {
  }

  lemma SameTransitive(a: seq<Add>, b: seq<Add>, c: seq<Add>)
    requires SameRegistered(a, b) && SameRegistered(b, c)
    ensures SameRegistered(a, c)
  {
  }

  lemma CancelSame(adds: seq<Add>, k: Kind, items: seq<Q.Item>, id: string)
    requires Tokens(adds, k, items) && Q.IndexOf(items, id) < |items|
    ensures SameRegistered(adds, Wake(Drop(adds, Q.Somebody(items[Q.IndexOf(items, id)])), Q.Next(Q.WithoutItem(items, id))))
  {
    var i := Q.IndexOf(items, id);
    var dropped, rest := Drop(adds, Q.Somebody(items[i])), Q.WithoutItem(items, id);
    DropItem(adds, k, items, id, k, items);
    DropSame(adds, k, items, i);
    WakeSame(dropped, k, rest);
    SameTransitive(adds, dropped, Wake(dropped, Q.Next(rest)));
  }

  ghost predicate KeepsRegistered(s: State, s': State) {
    && |s'.adds| >= |s.adds| && |s'.records| == |s.records|
    && SameRegistered(s.adds, s'.adds[..|s.adds|])
    && (forall t | |s.adds| <= t < |s'.adds| :: !s'.adds[t].phase.Registered?)
    && (forall i | 0 <= i < |s.records| ::
          && s'.records[i].id == s.records[i].id
          && s'.records[i].mode == s.records[i].mode
          && s'.records[i].add == s.records[i].add
          && (s.records[i].cleaned ==> s'.records[i].cleaned))
  }

  lemma StepLinked(s: State, limits: Limits, e: Event, k: Kind)
    requires Inv(s, limits) && Enabled(s, e) && Linked(s) && Matched(s, k)
    ensures Linked(Step(s, e)) && Matched(Step(s, e), k)
  {
    if e.Register? {
      RegisterLinked(s, e.add, e.now, k);
    } else {
      StepKeepsRegistered(s, limits, e);
      KeptLinked(s, Step(s, e), k);
    }
  }

  lemma RegisterLinked(s: State, add: nat, now: int, k: Kind)
    requires WellFormed(s) && Enabled(s, Register(add, now)) && Linked(s) && Matched(s, k)
    ensures Linked(DoRegister(s, add, now)) && Matched(DoRegister(s, add, now), k)
  {
    var r := DoRegister(s, add, now).records[|s.records|];
    OneMoreLinked(s.adds, s.records, add, r);
    OneMoreMatched(s.adds, s.records, add, r, k);
  }

  lemma OneMoreLinked(adds: seq<Add>, records: seq<Record>, add: nat, r: Record)
    requires LinkedTo(adds, records)
    requires add < |adds| && adds[add].phase == Granted
    requires r.add == add && r.id == adds[add].id && r.mode == adds[add].mode
    ensures LinkedTo(adds[add := adds[add].(phase := Registered(|records|))], records + [r])
  {
  }

  lemma OneMoreMatched(adds: seq<Add>, records: seq<Record>, add: nat, r: Record, k: Kind)
    requires add < |adds| && adds[add].phase == Granted && r.mode == adds[add].mode
    requires Count(adds, RegisteredOf(k)) == Count(records, OfKind(k))
    ensures Count(adds[add := adds[add].(phase := Registered(|records|))], RegisteredOf(k))
            == Count(records + [r], OfKind(k))
  {
    CountUpdate(adds, add, adds[add].(phase := Registered(|records|)), RegisteredOf(k));
    CountAppend(records, r, OfKind(k));
  }

  lemma KeptLinked(s: State, s': State, k: Kind)
    requires KeepsRegistered(s, s') && Linked(s) && Matched(s, k)
    ensures Linked(s') && Matched(s', k)
  {
    CountSame(s.records, s'.records, OfKind(k));
    CountSame(s.adds, s'.adds[..|s.adds|], RegisteredOf(k));
    CountExtend(s'.adds, |s.adds|, RegisteredOf(k));
  }

  lemma {:induction false} CountExtend<T(!new)>(s: seq<T>, n: nat, p: T -> bool)
    requires n <= |s| && forall i | n <= i < |s| :: !p(s[i])
    ensures Count(s, p) == Count(s[..n], p)
    decreases |s|
  {
    if n < |s| {
      CountExtend(s[..|s| - 1], n, p);
      assert s[..|s| - 1][..n] == s[..n];
    } else {
      assert s[..n] == s;
    }
  }

  /** Grants minus releases are the slots held, and each release belongs to one grant of its mode:
      two records never share the add that was granted. */
  lemma {:induction false} GrantsMatched(states: seq<State>, events: seq<Event>, limits: Limits, k: Kind, n: nat)
    requires Run(states, events, limits) && k in limits && n <= |events|
    ensures Linked(states[n]) && Matched(states[n], k)
    ensures Count(states[n].adds, PastThrottle(k)) - Count(states[n].records, CleanedOf(k)) == Held(states[n], k)
    ensures forall i, j | 0 <= i < j < |states[n].records| :: states[n].records[i].add != states[n].records[j].add
    decreases n
  {
    if n > 0 {
      GrantsMatched(states, events, limits, k, n - 1);
      CapacityConserved(states, events, limits, k, n - 1);
      assert states[n - 1 + 1] == Step(states[n - 1], events[n - 1]);
      StepLinked(states[n - 1], limits, events[n - 1], k);
    }
    CountSum(states[n].adds, HoldsSlot(k), RegisteredOf(k), PastThrottle(k));
    CountSum(states[n].records, Uncleaned(k), CleanedOf(k), OfKind(k));
  }
}
