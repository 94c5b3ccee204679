/**
 The class itself, method by method against the steps of the model, and its shutdown: one pass over
 the table, then the callbacks of the promises that the pass settled.
 */
module ExecutionShutdown {
  import Q = ConcurrencyQueue
  import opened ConcurrencyControl
  import opened ActiveExecutions
  import opened ExecutionOwnership
  import opened ExecutionResponses
  import opened Wrappers

  /** Executions that shutdown cancels: those with a response promise, and all of them in regular mode
      when everything is to be cancelled. */
  predicate Covered(r: Record, regular: bool, cancelAll: bool) {
    r.response.Some? || (regular && cancelAll)
  }

  /** What the pass does to the record of an entry. */
  function PassRecord(r: Record, regular: bool, cancelAll: bool): Record {
    if Covered(r, regular, cancelAll) && r.status != Waiting then r.(outcome := Settle(r.outcome, Rejected)) else r
  }

  /** Whether the pass leaves the entry in the table. */
  predicate Stays(r: Record, regular: bool, cancelAll: bool) {
    r.status != Waiting && (r.status == New ==> Covered(r, regular, cancelAll))
  }

  /** Everything the pass over `ids` changes in the table and its records. */
  ghost predicate Passed(s: State, s': State, ids: seq<string>, regular: bool, cancelAll: bool)
    requires WellFormed(s)
  {
    && |s'.records| == |s.records|
    && s'.adds == s.adds
    && (forall id | id in s.table ::
          if id in ids
          then && s'.records[s.table[id]] == PassRecord(Entry(s, id), regular, cancelAll)
               && (id in s'.table <==> Stays(Entry(s, id), regular, cancelAll))
          else && s'.records[s.table[id]] == Entry(s, id)
               && id in s'.table)
    && (forall id | id in s'.table :: id in s.table && s'.table[id] == s.table[id])
    && (forall i | 0 <= i < |s.records| :: InTable(s, i) || s'.records[i] == s.records[i])
  }

  /** The response promise of some execution among `ids`. */
  ghost predicate Awaited(s: State, ids: seq<string>, p: nat)
    requires WellFormed(s) && forall id | id in ids :: id in s.table
  {
    exists id | id in ids :: Entry(s, id).response == Some(p)
  }

  /** Those promises are rejected if they were open, and all others are left alone. */
  ghost predicate Answered(s: State, s': State, ids: seq<string>)
    requires WellFormed(s) && forall id | id in ids :: id in s.table
  {
    forall p: nat ::
      ResponseOf(s', p) == if ResponseOf(s, p).Pending? && Awaited(s, ids, p) then Rejected
                           else ResponseOf(s, p)
  }

  ghost function CoveredIds(s: State, ids: seq<string>, regular: bool, cancelAll: bool): seq<string>
    requires WellFormed(s) && forall id | id in ids :: id in s.table
  {
    if ids == [] then []
    else
      var n := |ids| - 1;
      assert ids[n] in ids;
      CoveredIds(s, ids[..n], regular, cancelAll)
      + if Covered(Entry(s, ids[n]), regular, cancelAll) then [ids[n]] else []
  }

  class ActiveExecutionsService {
    var control: Control
    var adds: seq<Add>
    var records: seq<Record>
    var activeExecutions: map<string, nat>
    var responses: map<nat, Promise>

    function State(): State
      reads this
    {
      ActiveExecutions.State.State(control, adds, records, activeExecutions, responses)
    }

    /** `add` up to and including the throttle. */
    method BeginAdd(executionId: string, mode: Mode) returns (add: nat, proceed: bool)
      modifies this
      ensures State() == DoBeginAdd(old(State()), executionId, mode)
      ensures add == |old(adds)| && (proceed <==> adds[add].phase == Granted)
    {
      add, proceed := |adds|, MayProceed(control, mode);
      control := Throttled(control, mode, Q.Item(executionId, add));
      adds := adds + [Add(executionId, mode, if proceed then Granted else Queued)];
    }

    /** The rest of `add`, once the database knows the execution as running. */
    method Register(add: nat, now: int)
      requires WellFormed(State()) && Enabled(State(), Event.Register(add, now))
      modifies this
      ensures State() == DoRegister(old(State()), add, now)
    {
      var executionId := adds[add].id;
      var startedAt, responsePromise := now, None;
      if executionId in activeExecutions {
        var resumingExecution := records[activeExecutions[executionId]];
        startedAt, responsePromise := resumingExecution.startedAt, resumingExecution.response;
      }
      var execution := Record(executionId, adds[add].mode, add, Running, startedAt, responsePromise, Pending, false);
      adds := adds[add := adds[add].(phase := Registered(|records|))];
      activeExecutions := activeExecutions[executionId := |records|];
      records := records + [execution];
    }

    /** The callback on the settled promise. */
    method CleanUp(execution: nat)
      requires execution < |records|
      modifies this
      ensures State() == DoCleanUp(old(State()), execution)
    {
      adds := Wake(adds, WokenByRelease(control, records[execution].mode));
      control := Release(control, records[execution].mode);
      if records[execution].status != Waiting {
        activeExecutions := activeExecutions - {records[execution].id};
      }
      records := records[execution := records[execution].(cleaned := true)];
    }

    method StopExecution(executionId: string)
      requires WellFormed(State())
      modifies this
      ensures State() == DoStop(old(State()), executionId)
    {
      if executionId !in activeExecutions {
        return;
      }
      var i := activeExecutions[executionId];
      responses := SettleResponse(responses, records[i].response, Rejected);
      if records[i].status == Waiting {
        activeExecutions := activeExecutions - {executionId};
      } else {
        records := records[i := records[i].(outcome := Settle(records[i].outcome, Rejected))];
      }
    }

    method FinalizeExecution(executionId: string, fullRunData: int)
      requires WellFormed(State())
      modifies this
      ensures State() == DoFinalize(old(State()), executionId, fullRunData)
    {
      if executionId in activeExecutions {
        var i := activeExecutions[executionId];
        records := records[i := records[i].(outcome := Settle(records[i].outcome, Resolved(fullRunData)))];
      }
    }

    method ResolveResponsePromise(executionId: string)
      requires WellFormed(State())
      modifies this
      ensures State() == DoRespond(old(State()), executionId)
    {
      if executionId in activeExecutions {
        responses := SettleResponse(responses, records[activeExecutions[executionId]].response, Resolved(0));
      }
    }

    method ResolveExecutionResponsePromise(executionId: string)
      requires WellFormed(State())
      modifies this
      ensures State() == DoResolveResponse(old(State()), executionId)
    {
      if executionId in activeExecutions {
        var execution := records[activeExecutions[executionId]];
        if execution.status != Waiting {
          responses := SettleResponse(responses, execution.response, Resolved(0));
        }
      }
    }

    /** Returns false where the source throws. */
    method SetStatus(executionId: string, status: Status) returns (found: bool)
      requires WellFormed(State())
      modifies this
      ensures State() == DoSetStatus(old(State()), executionId, status)
      ensures found <==> executionId in activeExecutions
    {
      found := executionId in activeExecutions;
      if found {
        var i := activeExecutions[executionId];
        records := records[i := records[i].(status := status)];
      }
    }

    method AttachResponsePromise(executionId: string, promise: nat) returns (found: bool)
      requires WellFormed(State())
      modifies this
      ensures State() == DoAttachResponse(old(State()), executionId, promise)
      ensures found <==> executionId in activeExecutions
    {
      found := executionId in activeExecutions;
      if found {
        var i := activeExecutions[executionId];
        records := records[i := records[i].(response := Some(promise))];
      }
    }

    /**
     The synchronous part of `shutdown`.  `executionIds` are the keys of the table in their order.
     `cancelled` are the executions that `removeAll` goes on to cancel in the database.
     */
    method Shutdown(executionIds: seq<string>, isRegularMode: bool, cancelAll: bool)
      returns (toCancel: seq<string>, cancelled: seq<string>)
      requires WellFormed(State())
      requires forall id :: id in executionIds <==> id in activeExecutions
      requires forall i, j | 0 <= i < j < |executionIds| :: executionIds[i] != executionIds[j]
      modifies this
      ensures WellFormed(old(State())) && Passed(old(State()), State(), executionIds, isRegularMode, cancelAll)
      ensures Answered(old(State()), State(), executionIds)
      ensures toCancel == CoveredIds(old(State()), executionIds, isRegularMode, cancelAll)
      ensures isRegularMode ==> !control.enabled && control.queues == old(control.queues)
      ensures isRegularMode || !old(control.enabled) ==> cancelled == []
    {
      if isRegularMode {
        control := control.(enabled := false);
      }
      ghost var start := State();
      toCancel := Pass(executionIds, isRegularMode, cancelAll);
      SameCovered(old(State()), start, executionIds, isRegularMode, cancelAll);
      AnsweredIgnoresControl(start, State(), old(State()), executionIds);
      ghost var passed := State();
      cancelled := RemoveAll(toCancel);
      PassedIgnoresControl(start, passed, old(State()), State(), executionIds, isRegularMode, cancelAll);
    }

    method Pass(executionIds: seq<string>, isRegularMode: bool, cancelAll: bool) returns (toCancel: seq<string>)
      requires WellFormed(State())
      requires forall id | id in executionIds :: id in activeExecutions
      requires forall i, j | 0 <= i < j < |executionIds| :: executionIds[i] != executionIds[j]
      modifies this
      ensures WellFormed(old(State())) && Passed(old(State()), State(), executionIds, isRegularMode, cancelAll)
      ensures Answered(old(State()), State(), executionIds)
      ensures toCancel == CoveredIds(old(State()), executionIds, isRegularMode, cancelAll)
      ensures control == old(control)
    {
      ghost var start := State();
      toCancel := [];
      var i := 0;
      while i < |executionIds|
        invariant 0 <= i <= |executionIds|
        invariant WellFormed(State()) && control == start.control
        invariant Passed(start, State(), executionIds[..i], isRegularMode, cancelAll)
        invariant Answered(start, State(), executionIds[..i])
        invariant toCancel == CoveredIds(start, executionIds[..i], isRegularMode, cancelAll)
      {
        var more := PassTurn(start, executionIds, i, isRegularMode, cancelAll);
        toCancel := toCancel + more;
        i := i + 1;
      }
      assert executionIds[..i] == executionIds;
    }

    /** One turn of the pass, after those for the ids before it; returns the id if it is to be cancelled. */
    method PassTurn(ghost start: State, executionIds: seq<string>, i: nat, isRegularMode: bool, cancelAll: bool)
      returns (toCancel: seq<string>)
      requires WellFormed(start) && WellFormed(State()) && i < |executionIds|
      requires forall id | id in executionIds :: id in start.table
      requires forall j, k | 0 <= j < k < |executionIds| :: executionIds[j] != executionIds[k]
      requires Passed(start, State(), executionIds[..i], isRegularMode, cancelAll)
      requires Answered(start, State(), executionIds[..i])
      modifies this
      ensures WellFormed(State()) && control == old(control)
      ensures Passed(start, State(), executionIds[..i + 1], isRegularMode, cancelAll)
      ensures Answered(start, State(), executionIds[..i + 1])
      ensures CoveredIds(start, executionIds[..i + 1], isRegularMode, cancelAll)
              == CoveredIds(start, executionIds[..i], isRegularMode, cancelAll) + toCancel
    {
      ghost var before := State();
      StillThere(start, before, executionIds, i, isRegularMode, cancelAll);
      var covered := ShutdownOne(executionIds[i], isRegularMode, cancelAll);
      PassNext(start, before, State(), executionIds, i, isRegularMode, cancelAll);
      AnsweredNext(start, before, State(), executionIds, i);
      toCancel := if covered then [executionIds[i]] else [];
    }

    /** What the pass does to one entry. */
    method ShutdownOne(executionId: string, isRegularMode: bool, cancelAll: bool) returns (covered: bool)
      requires WellFormed(State()) && executionId in activeExecutions
      modifies this
      ensures covered == Covered(Entry(old(State()), executionId), isRegularMode, cancelAll)
      ensures Turn(old(State()), State(), executionId, isRegularMode, cancelAll)
      ensures TurnAnswers(old(State()), State(), Entry(old(State()), executionId))
      ensures control == old(control)
    {
      var execution := records[activeExecutions[executionId]];
      covered := Covered(execution, isRegularMode, cancelAll);
      if covered {
        StopExecution(executionId);
      } else if execution.status == Waiting || execution.status == New {
        activeExecutions := activeExecutions - {executionId};
      }
    }

    /** `ConcurrencyControl.Service.RemoveAll` does the work; here on the table's own view of it. */
    method RemoveAll(toCancel: seq<string>) returns (cancelled: seq<string>)
      modifies this`control
      ensures control == Emptied(old(control))
      ensures cancelled == if old(control.enabled) then toCancel else []
    {
      var service := new Service(control);
      cancelled := service.RemoveAll(toCancel);
      control := service.State();
    }
  }

  /** What one turn does to the response promises. */
  ghost predicate TurnAnswers(s: State, s': State, r: Record) {
    forall p: nat ::
      ResponseOf(s', p) == if ResponseOf(s, p).Pending? && r.response == Some(p) then Rejected else ResponseOf(s, p)
  }

  lemma AnsweredNext(start: State, before: State, after: State, ids: seq<string>, i: nat)
    requires WellFormed(start) && i < |ids| && forall id | id in ids :: id in start.table
    requires Answered(start, before, ids[..i])
    requires TurnAnswers(before, after, Entry(start, ids[i]))
    ensures Answered(start, after, ids[..i + 1])
  {
    assert ids[..i + 1] == ids[..i] + [ids[i]];
    assert forall id :: id in ids[..i + 1] <==> id in ids[..i] || id == ids[i];
  }

  lemma AnsweredIgnoresControl(s: State, s': State, t: State, ids: seq<string>)
    requires WellFormed(s) && WellFormed(t) && s.table == t.table && s.records == t.records && s.responses == t.responses
    requires forall id | id in ids :: id in s.table
    requires Answered(s, s', ids)
    ensures Answered(t, s', ids)
  {
    forall p: nat ensures Awaited(s, ids, p) <==> Awaited(t, ids, p) {
    }
    forall p: nat ensures ResponseOf(s, p) == ResponseOf(t, p) {
    }
  }

  lemma PassedIgnoresControl(s: State, s': State, t: State, t': State, ids: seq<string>, regular: bool, cancelAll: bool)
    requires WellFormed(s) && Passed(s, s', ids, regular, cancelAll)
    requires t == s.(control := t.control) && t' == s'.(control := t'.control)
    ensures WellFormed(t) && Passed(t, t', ids, regular, cancelAll)
  {
  }

  lemma {:induction false} SameCovered(s: State, s': State, ids: seq<string>, regular: bool, cancelAll: bool)
    requires WellFormed(s) && WellFormed(s') && s.table == s'.table && s.records == s'.records
    requires forall id | id in ids :: id in s.table
    ensures CoveredIds(s, ids, regular, cancelAll) == CoveredIds(s', ids, regular, cancelAll)
    decreases |ids|
  {
    if ids != [] {
      assert ids[|ids| - 1] in ids;
      SameCovered(s, s', ids[..|ids| - 1], regular, cancelAll);
    }
  }

  lemma CoveredOne(s: State, ids: seq<string>, i: nat, regular: bool, cancelAll: bool)
    requires WellFormed(s) && i < |ids|
    requires forall id | id in ids :: id in s.table
    ensures ids[..i + 1] == ids[..i] + [ids[i]] && ids[i] in ids
    ensures CoveredIds(s, ids[..i + 1], regular, cancelAll)
            == CoveredIds(s, ids[..i], regular, cancelAll)
               + if Covered(Entry(s, ids[i]), regular, cancelAll) then [ids[i]] else []
  {
  }

  lemma StillThere(start: State, before: State, ids: seq<string>, i: nat, regular: bool, cancelAll: bool)
    requires WellFormed(start) && WellFormed(before) && i < |ids|
    requires forall id | id in ids :: id in start.table
    requires forall j, k | 0 <= j < k < |ids| :: ids[j] != ids[k]
    requires Passed(start, before, ids[..i], regular, cancelAll)
    ensures ids[i] in start.table && ids[i] !in ids[..i]
    ensures ids[i] in before.table && Entry(before, ids[i]) == Entry(start, ids[i])
  {
  }

  ghost predicate Turn(before: State, after: State, id: string, regular: bool, cancelAll: bool)
    requires WellFormed(before) && id in before.table
  {
    var r := Entry(before, id);
    && after.adds == before.adds
    && after.records == before.records[before.table[id] := PassRecord(r, regular, cancelAll)]
    && after.table == if Stays(r, regular, cancelAll) then before.table else before.table - {id}
  }

  lemma PassOne(start: State, before: State, after: State, done: seq<string>, id: string, regular: bool,
        cancelAll: bool)
    requires WellFormed(start) && WellFormed(before)
    requires Passed(start, before, done, regular, cancelAll)
    requires id in start.table && id !in done
    requires id in before.table && Turn(before, after, id, regular, cancelAll)
    ensures WellFormed(after)
    ensures Passed(start, after, done + [id], regular, cancelAll)
    ensures Entry(before, id) == Entry(start, id)
  {
  }

  lemma PassNext(start: State, before: State, after: State, ids: seq<string>, i: nat, regular: bool, cancelAll: bool)
    requires WellFormed(start) && WellFormed(before) && i < |ids|
    requires forall id | id in ids :: id in start.table
    requires ids[i] !in ids[..i] && ids[i] in before.table
    requires Passed(start, before, ids[..i], regular, cancelAll)
    requires Turn(before, after, ids[i], regular, cancelAll)
    ensures WellFormed(after) && Passed(start, after, ids[..i + 1], regular, cancelAll)
    ensures CoveredIds(start, ids[..i + 1], regular, cancelAll)
            == CoveredIds(start, ids[..i], regular, cancelAll)
               + if Covered(Entry(before, ids[i]), regular, cancelAll) then [ids[i]] else []
  {
    CoveredOne(start, ids, i, regular, cancelAll);
    PassOne(start, before, after, ids[..i], ids[i], regular, cancelAll);
  }

  // ---------------------------------------------------------------------------
  // What remains once the callbacks have run
  // ---------------------------------------------------------------------------

  /** A callback that will delete the entry it belongs to. */
  predicate Due(r: Record) {
    !r.outcome.Pending? && !r.cleaned && r.status != Waiting
  }

  /** A due callback deletes its own entry or none. */
  ghost predicate DueOwnsEntry(s: State) {
    && WellFormed(s)
    && forall i | 0 <= i < |s.records| && Due(s.records[i]) && s.records[i].id in s.table :: s.table[s.records[i].id] == i
  }

  ghost function Survivors(s: State): set<string>
    requires WellFormed(s)
  {
    set id | id in s.table && !Due(Entry(s, id))
  }

  lemma CleanUpKeepsSurvivors(s: State, i: nat)
    requires DueOwnsEntry(s) && Enabled(s, CleanUp(i))
    ensures DueOwnsEntry(DoCleanUp(s, i))
    ensures Survivors(DoCleanUp(s, i)) == Survivors(s)
  {
  }

  /** The pending callbacks, in whatever order they run, delete exactly the due entries. */
  lemma {:induction false} CallbacksDrain(states: seq<State>, callbacks: seq<nat>)
    requires |states| == |callbacks| + 1 && DueOwnsEntry(states[0])
    requires forall i | 0 <= i < |callbacks| ::
               Enabled(states[i], CleanUp(callbacks[i])) && states[i + 1] == DoCleanUp(states[i], callbacks[i])
    requires forall i: nat :: !Enabled(states[|callbacks|], CleanUp(i))
    ensures states[|callbacks|].table.Keys == Survivors(states[0])
    decreases |callbacks|
  {
    var first := states[0];
    if callbacks == [] {
      forall id | id in first.table ensures !Due(Entry(first, id)) {
        assert !Enabled(first, CleanUp(first.table[id]));
      }
    } else {
      assert states[0 + 1] == DoCleanUp(first, callbacks[0]);
      CleanUpKeepsSurvivors(first, callbacks[0]);
      CallbacksDrain(states[1..], callbacks[1..]);
    }
  }

  /** Entries that keep shutdown waiting: still open, not covered, neither waiting nor new. */
  predicate Blocks(r: Record, regular: bool, cancelAll: bool) {
    r.outcome.Pending? && !Covered(r, regular, cancelAll) && r.status != Waiting && r.status != New
  }

  /** The pass settles only promises of records that are in the table. */
  lemma PassKeepsOwners(s: State, s': State, ids: seq<string>, regular: bool, cancelAll: bool)
    requires Owned(s) && WellFormed(s') && Passed(s, s', ids, regular, cancelAll)
    ensures DueOwnsEntry(s')
  {
    forall i | 0 <= i < |s'.records| && Due(s'.records[i]) && s'.records[i].id in s'.table
      ensures s'.table[s'.records[i].id] == i
    {
      if !InTable(s, i) {
        assert s'.records[i] == s.records[i] && Live(s.records[i]);
      }
    }
  }

  lemma PassLeavesDue(s: State, s': State, ids: seq<string>, regular: bool, cancelAll: bool)
    requires Owned(s) && WellFormed(s') && Passed(s, s', ids, regular, cancelAll)
    requires forall id | id in s.table :: id in ids
    ensures DueOwnsEntry(s')
    ensures Survivors(s') == set id | id in s.table && Blocks(Entry(s, id), regular, cancelAll)
  {
    PassKeepsOwners(s, s', ids, regular, cancelAll);
    forall id ensures id in Survivors(s') <==> id in s.table && Blocks(Entry(s, id), regular, cancelAll) {
      if id in s.table {
        assert s'.records[s.table[id]] == PassRecord(Entry(s, id), regular, cancelAll);
        assert Entry(s, id).cleaned ==> Entry(s, id).status == Waiting;
      }
    }
  }

  /**
   Shutdown drains.  From any table in which ownership holds, after the pass over all its ids and the
   callbacks of the promises settled by then, what remains is exactly the executions whose promise was
   still open, that were not covered, and that were neither waiting nor new.
   */
  lemma ShutdownDrains(s: State, ids: seq<string>, regular: bool, cancelAll: bool, states: seq<State>,
        callbacks: seq<nat>)
    requires Owned(s) && forall id | id in s.table :: id in ids
    requires |states| == |callbacks| + 1
    requires WellFormed(states[0]) && Passed(s, states[0], ids, regular, cancelAll)
    requires forall i | 0 <= i < |callbacks| ::
               Enabled(states[i], CleanUp(callbacks[i])) && states[i + 1] == DoCleanUp(states[i], callbacks[i])
    requires forall i: nat :: !Enabled(states[|callbacks|], CleanUp(i))
    ensures states[|callbacks|].table.Keys ==
            set id | id in s.table
                     && var r := Entry(s, id);
                        && r.outcome.Pending? && r.response.None? && !(regular && cancelAll)
                        && r.status != Waiting && r.status != New
    ensures regular && cancelAll ==> states[|callbacks|].table == map[]
  {
    PassLeavesDue(s, states[0], ids, regular, cancelAll);
    CallbacksDrain(states, callbacks);
    if regular && cancelAll {
      assert states[|callbacks|].table.Keys == {};
    }
  }

  /** The list handed on for cancellation holds every covered id once and nothing else. */
  lemma {:induction false} CoveredOnce(s: State, ids: seq<string>, regular: bool, cancelAll: bool)
    requires WellFormed(s) && forall id | id in ids :: id in s.table
    requires forall i, j | 0 <= i < j < |ids| :: ids[i] != ids[j]
    ensures forall id :: multiset(CoveredIds(s, ids, regular, cancelAll))[id]
                         == if id in ids && (Entry(s, id).response.Some? || (regular && cancelAll)) then 1 else 0
    ensures regular && cancelAll ==> CoveredIds(s, ids, regular, cancelAll) == ids
    decreases |ids|
  {
    if ids != [] {
      var n := |ids| - 1;
      assert ids == ids[..n] + [ids[n]] && ids[n] !in ids[..n];
      CoveredOnce(s, ids[..n], regular, cancelAll);
    }
  }
}
