/** Counting the elements of a sequence that satisfy a predicate. */
module Counting {
  ghost function Count<T(!new)>(s: seq<T>, p: T -> bool): nat {
    if s == [] then 0 else Count(s[..|s| - 1], p) + if p(s[|s| - 1]) then 1 else 0
  }

  lemma CountAppend<T(!new)>(s: seq<T>, x: T, p: T -> bool)
    ensures Count(s + [x], p) == Count(s, p) + if p(x) then 1 else 0
  {
  }

  lemma {:induction false} CountUpdate<T(!new)>(s: seq<T>, i: nat, x: T, p: T -> bool)
    requires i < |s|
    ensures Count(s[i := x], p) + (if p(s[i]) then 1 else 0) == Count(s, p) + if p(x) then 1 else 0
    decreases |s|
  {
    var n := |s| - 1;
    if i < n {
      assert s[i := x][..n] == s[..n][i := x];
      CountUpdate(s[..n], i, x, p);
    } else {
      assert s[i := x][..n] == s[..n];
    }
  }

  lemma {:induction false} CountNone<T(!new)>(s: seq<T>, p: T -> bool)
    requires forall x | x in s :: !p(x)
    ensures Count(s, p) == 0
    decreases |s|
  {
    if s != [] {
      assert s[|s| - 1] in s;
      CountNone(s[..|s| - 1], p);
    }
  }
}

/**
 The table of active executions and the life of an execution in it.  An `add` is split at its
 awaits; everything else is one step.  Records are never forgotten by the model, because the
 callback that runs after an execution's promise settles still holds the record it was made for.
 */
module ActiveExecutions {
  import opened ConcurrencyQueue
  import opened ConcurrencyControl
  import opened Counting
  import opened Wrappers

  datatype Status = New | Running | Waiting | Other

  /** A deferred promise: the first settlement wins and later ones are ignored. */
  datatype Promise = Pending | Resolved(run: int) | Rejected

  function Settle(p: Promise, outcome: Promise): Promise {
    if p.Pending? then outcome else p
  }

  /** `cleaned` says whether the callback on the settled promise has run. */
  datatype Record = Record(id: string, mode: Mode, add: nat, status: Status, startedAt: int,
                           response: Option<nat>, outcome: Promise, cleaned: bool)

  /** How far a call of `add` has got: waiting in a queue, past the throttle, registered as a
      record, abandoned by a failing database call, or removed from the queue while waiting. */
  datatype Phase = Queued | Granted | Registered(record: nat) | Failed | Dropped

  datatype Add = Add(id: string, mode: Mode, phase: Phase)

  datatype State = State(control: Control, adds: seq<Add>, records: seq<Record>,
                         table: map<string, nat>, responses: map<nat, Promise>)

  datatype Event =
    | BeginAdd(id: string, mode: Mode)
    | Register(add: nat, now: int)
    | FailAdd(add: nat)
    | Stop(id: string)
    | Finalize(id: string, run: int)
    | SetStatus(id: string, status: Status)
    | AttachResponse(id: string, promise: nat)
    | Respond(id: string)
    | ResolveResponse(id: string)
    | CleanUp(record: nat)
    | CancelQueued(id: string, mode: Mode)

  // ---------------------------------------------------------------------------
  // Steps
  // ---------------------------------------------------------------------------

  /** The table points at records that carry the id they are filed under. */
  ghost predicate WellFormed(s: State) {
    forall id | id in s.table :: s.table[id] < |s.records| && s.records[s.table[id]].id == id
  }

  function Wake(adds: seq<Add>, woken: Released): seq<Add> {
    if woken.Somebody? && woken.item.waiter < |adds|
    then adds[woken.item.waiter := adds[woken.item.waiter].(phase := Granted)]
    else adds
  }

  function SettleResponse(responses: map<nat, Promise>, p: Option<nat>, outcome: Promise): map<nat, Promise> {
    if p.None? then responses
    else responses[p.value := Settle(if p.value in responses then responses[p.value] else Pending, outcome)]
  }

  function DoBeginAdd(s: State, id: string, mode: Mode): State {
    s.(control := Throttled(s.control, mode, Item(id, |s.adds|)),
       adds := s.adds + [Add(id, mode, if MayProceed(s.control, mode) then Granted else Queued)])
  }

  function DoRegister(s: State, add: nat, now: int): State
    requires add < |s.adds| && forall id | id in s.table :: s.table[id] < |s.records|
  {
    var a := s.adds[add];
    var resuming := if a.id in s.table then Some(s.records[s.table[a.id]]) else None;
    var r := Record(a.id, a.mode, add, Running,
                    if resuming.Some? then resuming.value.startedAt else now,
                    if resuming.Some? then resuming.value.response else None,
                    Pending, false);
    s.(adds := s.adds[add := a.(phase := Registered(|s.records|))],
       records := s.records + [r],
       table := s.table[a.id := |s.records|])
  }

  function DoFailAdd(s: State, add: nat): State
    requires add < |s.adds|
  {
    s.(adds := s.adds[add := s.adds[add].(phase := Failed)])
  }

  function DoStop(s: State, id: string): State
    requires id in s.table ==> s.table[id] < |s.records|
  {
    if id !in s.table then s
    else
      var i := s.table[id];
      var r := s.records[i];
      var s1 := s.(responses := SettleResponse(s.responses, r.response, Rejected));
      if r.status == Waiting then s1.(table := s.table - {id})
      else s1.(records := s.records[i := r.(outcome := Settle(r.outcome, Rejected))])
  }

  function DoFinalize(s: State, id: string, run: int): State
    requires id in s.table ==> s.table[id] < |s.records|
  {
    if id !in s.table then s
    else
      var i := s.table[id];
      s.(records := s.records[i := s.records[i].(outcome := Settle(s.records[i].outcome, Resolved(run)))])
  }

  /** An unknown id makes `setStatus` and `attachResponsePromise` throw, which changes nothing. */
  function DoSetStatus(s: State, id: string, status: Status): State
    requires id in s.table ==> s.table[id] < |s.records|
  {
    if id !in s.table then s
    else s.(records := s.records[s.table[id] := s.records[s.table[id]].(status := status)])
  }

  function DoAttachResponse(s: State, id: string, promise: nat): State
    requires id in s.table ==> s.table[id] < |s.records|
  {
    if id !in s.table then s
    else s.(records := s.records[s.table[id] := s.records[s.table[id]].(response := Some(promise))])
  }

  function DoRespond(s: State, id: string): State
    requires id in s.table ==> s.table[id] < |s.records|
  {
    if id !in s.table then s
    else s.(responses := SettleResponse(s.responses, s.records[s.table[id]].response, Resolved(0)))
  }

  function DoResolveResponse(s: State, id: string): State
    requires id in s.table ==> s.table[id] < |s.records|
  {
    if id !in s.table || s.records[s.table[id]].status == Waiting then s
    else s.(responses := SettleResponse(s.responses, s.records[s.table[id]].response, Resolved(0)))
  }

  /** The callback on the settled promise: give the slot back, then forget the execution, unless it
      is waiting.  It deletes by id, whatever record the id leads to by then. */
  function DoCleanUp(s: State, i: nat): State
    requires i < |s.records|
  {
    var r := s.records[i];
    s.(control := Release(s.control, r.mode),
       adds := Wake(s.adds, WokenByRelease(s.control, r.mode)),
       records := s.records[i := r.(cleaned := true)],
       table := if r.status == Waiting then s.table else s.table - {r.id})
  }

  /** Stopping an execution that still waits for its turn: its `add` call never returns. */
  function DoCancelQueued(s: State, id: string, mode: Mode): State {
    s.(control := ConcurrencyControl.Remove(s.control, mode, id),
       adds := Wake(Drop(s.adds, Victim(s.control, mode, id)), WokenByRemove(s.control, mode, id)))
  }

  function Victim(c: Control, mode: Mode, id: string): Released {
    if Limited(c, mode) && Has(c.queues[KindOf(mode).kind], id)
    then Somebody(c.queues[KindOf(mode).kind].items[IndexOf(c.queues[KindOf(mode).kind].items, id)])
    else Nobody
  }

  function Drop(adds: seq<Add>, victim: Released): seq<Add> {
    if victim.Somebody? && victim.item.waiter < |adds|
    then adds[victim.item.waiter := adds[victim.item.waiter].(phase := Dropped)]
    else adds
  }

  /** An `add` goes on only once granted, and the callback runs once, after the promise settled. */
  predicate Enabled(s: State, e: Event) {
    match e
    case Register(add, now) => add < |s.adds| && s.adds[add].phase == Granted
    case FailAdd(add) => add < |s.adds| && s.adds[add].phase == Granted
    case CleanUp(i) => i < |s.records| && !s.records[i].outcome.Pending? && !s.records[i].cleaned
    case _ => true
  }

  function Step(s: State, e: Event): State
    requires WellFormed(s) && Enabled(s, e)
  {
    match e
    case BeginAdd(id, mode) => DoBeginAdd(s, id, mode)
    case Register(add, now) => DoRegister(s, add, now)
    case FailAdd(add) => DoFailAdd(s, add)
    case Stop(id) => DoStop(s, id)
    case Finalize(id, run) => DoFinalize(s, id, run)
    case SetStatus(id, status) => DoSetStatus(s, id, status)
    case AttachResponse(id, promise) => DoAttachResponse(s, id, promise)
    case Respond(id) => DoRespond(s, id)
    case ResolveResponse(id) => DoResolveResponse(s, id)
    case CleanUp(i) => DoCleanUp(s, i)
    case CancelQueued(id, mode) => DoCancelQueued(s, id, mode)
  }

  lemma StepWellFormed(s: State, e: Event)
    requires WellFormed(s) && Enabled(s, e)
    ensures WellFormed(Step(s, e))
  {
  }
}
