/**
 Who owns the table entry of an execution across waits and resumptions.  The clean-up callback of a
 record deletes by id, so an older record could remove a newer one; the exact rule that prevents
 this is derived here, event by event, and carried over every run.
 */
module ExecutionOwnership {
  import opened ConcurrencyControl
  import opened ActiveExecutions
  import opened Wrappers

  /** A record that something may still happen to by way of the table: its promise is open, or its
      callback is due and will delete by id. */
  predicate Live(r: Record) {
    r.outcome.Pending? || (!r.cleaned && r.status != Waiting)
  }

  ghost predicate InTable(s: State, i: nat)
    requires i < |s.records|
  {
    s.records[i].id in s.table && s.table[s.records[i].id] == i
  }

  /** Every live record is the one its id leads to, and a cleaned-up record that is still in the table
      is a waiting one. */
  ghost predicate Owned(s: State) {
    && WellFormed(s)
    && (forall i | 0 <= i < |s.records| :: Live(s.records[i]) ==> InTable(s, i))
    && (forall i | 0 <= i < |s.records| :: s.records[i].cleaned ==> !s.records[i].outcome.Pending?)
    && (forall id | id in s.table :: s.records[s.table[id]].cleaned ==> s.records[s.table[id]].status == Waiting)
  }

  /**
   What the callers of the class have to respect:
   - register an execution under an id in use only if the record there is waiting and settled;
   - stop a waiting execution only once its promise has settled;
   - never take a waiting execution whose callback has run out of the waiting status.
   The record does not tell whether its callback has run; a caller sees status and promise, and
   `VisibleDiscipline` is the rule in those terms.
   */
  predicate Discipline(s: State, e: Event)
    requires Enabled(s, e) && forall id | id in s.table :: s.table[id] < |s.records|
  {
    match e
    case Register(add, now) =>
      var id := s.adds[add].id;
      id in s.table ==> s.records[s.table[id]].status == Waiting && !s.records[s.table[id]].outcome.Pending?
    case Stop(id) =>
      id in s.table && s.records[s.table[id]].status == Waiting ==> !s.records[s.table[id]].outcome.Pending?
    case SetStatus(id, status) =>
      id in s.table && s.records[s.table[id]].cleaned ==> status == Waiting
    case _ => true
  }

  /** The discipline in what a caller can see: a waiting execution whose promise has settled is never taken
      out of the waiting status.  It is stricter only between the settlement and the callback. */
  predicate VisibleDiscipline(s: State, e: Event)
    requires Enabled(s, e) && forall id | id in s.table :: s.table[id] < |s.records|
  {
    match e
    case SetStatus(id, status) =>
      var waitingSettled := id in s.table
                            && s.records[s.table[id]].status == Waiting && !s.records[s.table[id]].outcome.Pending?;
      waitingSettled ==> status == Waiting
    case _ => Discipline(s, e)
  }

  /** Keeping to what is visible is enough, and differs from the exact rule only while a callback is due. */
  lemma VisibleDisciplineSuffices(s: State, e: Event)
    requires Owned(s) && Enabled(s, e)
    ensures VisibleDiscipline(s, e) ==> Owned(Step(s, e))
    ensures Discipline(s, e) && !VisibleDiscipline(s, e) ==>
              e.SetStatus? && e.id in s.table && Enabled(s, CleanUp(s.table[e.id]))
  {
    StepOwned(s, e);
  }

  lemma RegisterOwned(s: State, add: nat, now: int)
    requires Owned(s) && Enabled(s, Register(add, now))
    ensures Owned(DoRegister(s, add, now)) <==> Discipline(s, Register(add, now))
  {
    var id, s' := s.adds[add].id, DoRegister(s, add, now);
    assert forall i | 0 <= i < |s.records| :: s'.records[i] == s.records[i];
    if id in s.table && !Discipline(s, Register(add, now)) {
      var old_ := s.table[id];
      assert Live(s'.records[old_]) && !InTable(s', old_);
    }
  }

  lemma StopOwned(s: State, id: string)
    requires Owned(s)
    ensures Owned(DoStop(s, id)) <==> Discipline(s, Stop(id))
  {
  }

  /** Settling the promise of the record an id leads to keeps everything owned. */
  lemma SettledOwned(s: State, id: string, outcome: Promise, s': State)
    requires Owned(s) && id in s.table
    requires !outcome.Pending?
    requires s'.table == s.table
    requires s'.records == s.records[s.table[id] := s.records[s.table[id]].(outcome := outcome)]
    ensures Owned(s')
  {
  }

  lemma SetStatusOwned(s: State, id: string, status: Status)
    requires Owned(s)
    ensures Owned(DoSetStatus(s, id, status)) <==> Discipline(s, SetStatus(id, status))
  {
  }

  lemma CleanUpOwned(s: State, i: nat)
    requires Owned(s) && Enabled(s, CleanUp(i))
    ensures Owned(DoCleanUp(s, i))
    ensures s.records[i].status != Waiting ==> InTable(s, i)
  {
  }

  /** Exactly the disciplined steps keep ownership. */
  lemma StepOwned(s: State, e: Event)
    requires Owned(s) && Enabled(s, e)
    ensures Owned(Step(s, e)) <==> Discipline(s, e)
  {
    match e
    case BeginAdd(id, mode) => assert Step(s, e).records == s.records && Step(s, e).table == s.table;
    case Register(add, now) => RegisterOwned(s, add, now);
    case FailAdd(add) => assert Step(s, e).records == s.records && Step(s, e).table == s.table;
    case Stop(id) => StopOwned(s, id);
    case Finalize(id, run) =>
      if id in s.table {
        SettledOwned(s, id, Settle(s.records[s.table[id]].outcome, Resolved(run)), Step(s, e));
      }
    case SetStatus(id, status) => SetStatusOwned(s, id, status);
    case AttachResponse(id, promise) =>
      var s' := Step(s, e);
      forall j | 0 <= j < |s'.records| ensures Live(s'.records[j]) ==> InTable(s', j) {
        if Live(s'.records[j]) { assert Live(s.records[j]) && InTable(s, j); }
      }
    case Respond(id) => assert Step(s, e).records == s.records && Step(s, e).table == s.table;
    case ResolveResponse(id) => assert Step(s, e).records == s.records && Step(s, e).table == s.table;
    case CleanUp(i) => CleanUpOwned(s, i);
    case CancelQueued(id, mode) => assert Step(s, e).records == s.records && Step(s, e).table == s.table;
  }

  // ---------------------------------------------------------------------------
  // Over every run
  // ---------------------------------------------------------------------------

  ghost predicate Run(states: seq<State>, events: seq<Event>) {
    && |states| == |events| + 1
    && states[0].records == [] && states[0].table == map[]
    && forall i | 0 <= i < |events| ::
         WellFormed(states[i]) && Enabled(states[i], events[i]) && states[i + 1] == Step(states[i], events[i])
  }

  ghost predicate Disciplined(states: seq<State>, events: seq<Event>)
    requires Run(states, events)
  {
    forall i | 0 <= i < |events| :: Discipline(states[i], events[i])
  }

  /** In every disciplined run, every execution whose promise is open is the one filed under its id,
      and a callback that deletes an entry deletes its own. */
  lemma {:induction false} OwnershipOverRuns(states: seq<State>, events: seq<Event>, n: nat)
    requires Run(states, events) && Disciplined(states, events) && n <= |events|
    ensures Owned(states[n])
    ensures n < |events| && events[n].CleanUp? && states[n].records[events[n].record].status != Waiting ==>
              InTable(states[n], events[n].record)
    decreases n
  {
    if n > 0 {
      OwnershipOverRuns(states, events, n - 1);
      assert states[n - 1 + 1] == Step(states[n - 1], events[n - 1]);
      StepOwned(states[n - 1], events[n - 1]);
    }
    if n < |events| && events[n].CleanUp? {
      CleanUpOwned(states[n], events[n].record);
    }
  }

  /** Without the discipline it does go wrong, from the empty table: an id is registered a second time
      after the first execution ended but before its callback ran, and that callback then removes the
      second one, which is still running. */
  lemma UndisciplinedRemovesNewer() returns (states: seq<State>, events: seq<Event>)
    ensures Run(states, events)
    ensures var s := states[|events|];
            && |s.records| == 2 && Enabled(s, CleanUp(0))
            && InTable(s, 1) && s.records[1].outcome.Pending?
            && !InTable(DoCleanUp(s, 0), 1)
  {
    var ended, second := OneRunning(Resolved(0)), Replaced();
    states, events := RunAndEnd();
    states, events := Extend(states, events, BeginAdd("15", Manual), ended.(adds := ended.adds + [ADD]));
    states, events := Extend(states, events, Register(1, 0), second);
  }

  lemma RunAndEnd() returns (states: seq<State>, events: seq<Event>)
    ensures Run(states, events) && states[|events|] == OneRunning(Resolved(0))
  {
    states, events := [Blank([])], [];
    states, events := Extend(states, events, BeginAdd("15", Manual), Blank([ADD]));
    states, events := Extend(states, events, Register(0, 0), OneRunning(Pending));
    states, events := Extend(states, events, Finalize("15", 0), OneRunning(Resolved(0)));
  }

  const ADD := Add("15", Manual, Granted)
  const RUNNING := Record("15", Manual, 0, Running, 0, None, Pending, false)

  function Blank(adds: seq<Add>): State {
    State(Control(false, map[]), adds, [], map[], map[])
  }

  function OneRunning(outcome: Promise): State {
    State(Control(false, map[]), [ADD.(phase := Registered(0))], [RUNNING.(outcome := outcome)], map["15" := 0], map[])
  }

  function Replaced(): State {
    State(Control(false, map[]), [ADD.(phase := Registered(0)), ADD.(phase := Registered(1))],
          [RUNNING.(outcome := Resolved(0)), RUNNING.(add := 1)], map["15" := 1], map[])
  }

  lemma Extend(states: seq<State>, events: seq<Event>, e: Event, s': State) returns (more: seq<State>, done: seq<Event>)
    requires Run(states, events)
    requires WellFormed(states[|events|]) && Enabled(states[|events|], e) && s' == Step(states[|events|], e)
    ensures Run(more, done)
    ensures |done| == |events| + 1 && more[|done|] == s'
  {
    more, done := states + [s'], events + [e];
  }

  // ---------------------------------------------------------------------------
  // What a wait and a resumption keep
  // ---------------------------------------------------------------------------

  /** The record an id leads to. */
  ghost function Entry(s: State, id: string): Record
    requires WellFormed(s) && id in s.table
  {
    s.records[s.table[id]]
  }

  /** As long as an id stays in the table, its start time never changes, and its response promise
      changes only by attaching another one. */
  lemma IdentityKept(s: State, e: Event, s': State, id: string)
    requires WellFormed(s) && Enabled(s, e) && s' == Step(s, e) && WellFormed(s')
    requires id in s.table && id in s'.table
    ensures Entry(s', id).startedAt == Entry(s, id).startedAt
    ensures Entry(s', id).response == if e.AttachResponse? && e.id == id then Some(e.promise) else Entry(s, id).response
  {
  }

  /** What registering puts into the table: a running execution of the mode asked for, whose promise is open, and
      which started now unless it is resumed. */
  lemma RegisteredEntry(s: State, add: nat, now: int)
    requires WellFormed(s) && Enabled(s, Register(add, now))
    ensures var s', id := DoRegister(s, add, now), s.adds[add].id;
            && WellFormed(s') && id in s'.table && s'.table[id] == |s.records|
            && var r := Entry(s', id);
               && r.status == Running && r.outcome.Pending? && !r.cleaned && r.mode == s.adds[add].mode
               && (id !in s.table ==> r.startedAt == now && r.response == None)
               && (id in s.table ==> r.startedAt == Entry(s, id).startedAt && r.response == Entry(s, id).response)
  {
  }

  /** What a step does to a record that exists: its status is changed by setting it under its id, its open promise
      is rejected by a stop that finds it not waiting and resolved by finalizing it, a settled one stays, and its
      callback runs once. */
  lemma RecordStep(s: State, e: Event, i: nat)
    requires WellFormed(s) && Enabled(s, e) && i < |s.records|
    ensures i < |Step(s, e).records|
    ensures var r, r' := s.records[i], Step(s, e).records[i];
            var named := r.id in s.table && s.table[r.id] == i;
            && r'.id == r.id && r'.mode == r.mode && r'.startedAt == r.startedAt
            && r'.status == (if named && e.SetStatus? && e.id == r.id then e.status else r.status)
            && r'.outcome == (if !r.outcome.Pending? || !named then r.outcome
                              else if e.Stop? && e.id == r.id && r.status != Waiting then Rejected
                              else if e.Finalize? && e.id == r.id then Resolved(e.run)
                              else r.outcome)
            && r'.cleaned == (r.cleaned || e == CleanUp(i))
  {
  }

  /** An id leaves the table only by stopping it while it waits, or by the callback of a record that
      bears it and does not wait. */
  lemma LeavesTableBy(s: State, e: Event, id: string)
    requires WellFormed(s) && Enabled(s, e)
    requires id in s.table && id !in Step(s, e).table
    ensures (e == Stop(id) && s.records[s.table[id]].status == Waiting)
            || (e.CleanUp? && s.records[e.record].id == id && s.records[e.record].status != Waiting)
  {
  }

  ghost function Attached(events: seq<Event>, id: string, initial: Option<nat>): Option<nat> {
    if events == [] then initial
    else
      var e := events[|events| - 1];
      if e.AttachResponse? && e.id == id then Some(e.promise) else Attached(events[..|events| - 1], id, initial)
  }

  /** Over any number of waits, settlements and resumptions during which the id stays in the table,
      the start time is that of the first registration and the response promise is the last one
      attached. */
  lemma {:induction false} IdentityOverRuns(states: seq<State>, events: seq<Event>, id: string)
    requires |states| == |events| + 1
    requires forall i | 0 <= i < |states| :: WellFormed(states[i]) && id in states[i].table
    requires forall i | 0 <= i < |events| :: Enabled(states[i], events[i]) && states[i + 1] == Step(states[i], events[i])
    ensures Entry(states[|events|], id).startedAt == Entry(states[0], id).startedAt
    ensures Entry(states[|events|], id).response == Attached(events, id, Entry(states[0], id).response)
    decreases |events|
  {
    if events != [] {
      var n := |events| - 1;
      IdentityOverRuns(states[..n + 1], events[..n], id);
      IdentityKept(states[n], events[n], states[n + 1], id);
    }
  }

  ghost predicate ResponseOpen(s: State, p: nat) {
    p !in s.responses || s.responses[p].Pending?
  }

  /** `resolveExecutionResponsePromise` leaves the response promise of a waiting execution alone: a
      promise that becomes settled in a step belongs to an execution that was stopped or answered, or that
      was resolved this way while it did not wait. */
  lemma ResponseSettledBy(s: State, e: Event, p: nat)
    requires WellFormed(s) && Enabled(s, e)
    requires ResponseOpen(s, p) && !ResponseOpen(Step(s, e), p)
    ensures (e.Stop? || e.Respond? || e.ResolveResponse?) && e.id in s.table && s.records[s.table[e.id]].response == Some(p)
    ensures e.ResolveResponse? ==> s.records[s.table[e.id]].status != Waiting
  {
  }

  // ---------------------------------------------------------------------------
  // The first settlement wins
  // ---------------------------------------------------------------------------

  predicate Settles(e: Event, id: string) {
    (e.Stop? || e.Finalize?) && e.id == id
  }

  function OutcomeOf(e: Event): Promise {
    if e.Finalize? then Resolved(e.run) else Rejected
  }

  function SettleAll(s: State, events: seq<Event>, id: string): State
    requires WellFormed(s)
    requires forall e | e in events :: Settles(e, id)
    decreases |events|
  {
    if events == [] then s
    else
      assert Settles(events[0], id);
      StepWellFormed(s, events[0]);
      SettleAll(Step(s, events[0]), events[1..], id)
  }

  /** Stopping and finalizing an execution any number of times, before its callback runs, leaves the
      outcome of the first call, touches no other record, and then the one callback removes it. */
  lemma {:induction false} FirstSettlementWins(s: State, events: seq<Event>, id: string)
    requires Owned(s) && id in s.table
    requires var r := s.records[s.table[id]]; r.status != Waiting
    requires forall e | e in events :: Settles(e, id)
    requires events != []
    ensures var s', i := SettleAll(s, events, id), s.table[id];
            && s'.records == s.records[i := s.records[i].(outcome := Settle(s.records[i].outcome, OutcomeOf(events[0])))]
            && s'.table == s.table && s'.adds == s.adds && s'.control == s.control
            && Enabled(s', CleanUp(i))
            && DoCleanUp(s', i).table == s.table - {id}
            && !Enabled(DoCleanUp(s', i), CleanUp(i))
            && DoCleanUp(s', i).control == Release(s.control, s.records[i].mode)
    decreases |events|
  {
    assert Settles(events[0], id);
    var i, s1 := s.table[id], Step(s, events[0]);
    assert s1.records == s.records[i := s.records[i].(outcome := Settle(s.records[i].outcome, OutcomeOf(events[0])))];
    StepOwned(s, events[0]);
    if |events| > 1 {
      FirstSettlementWins(s1, events[1..], id);
      assert s1.records[i := s1.records[i]] == s1.records;
    } else {
      assert events[1..] == [];
    }
  }
}
