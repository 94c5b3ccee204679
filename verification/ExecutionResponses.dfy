/**
 What becomes of response promises.  A webhook caller waits for one, so it matters which call settles it
 and how: stopping rejects, answering resolves, and the first of them is final.
 */
module ExecutionResponses {
  import opened ConcurrencyControl
  import opened ActiveExecutions
  import opened ExecutionOwnership
  import opened Wrappers

  /** The state of response promise `p`; one that nothing has happened to is open. */
  function ResponseOf(s: State, p: nat): Promise {
    if p in s.responses then s.responses[p] else Pending
  }

  /** The call reaches the promise: it names an execution in the table that has it as its response promise, and
      the status does not hold the call back. */
  predicate Reaches(s: State, e: Event, p: nat)
    requires forall id | id in s.table :: s.table[id] < |s.records|
  {
    && (e.Stop? || e.Respond? || e.ResolveResponse?)
    && e.id in s.table && s.records[s.table[e.id]].response == Some(p)
    && (e.ResolveResponse? ==> s.records[s.table[e.id]].status != Waiting)
  }

  /** One step: an open promise that is reached is rejected by a stop and resolved by an answer; a settled one
      stays as it is, and so does any that is not reached. */
  lemma ResponseStep(s: State, e: Event, p: nat)
    requires WellFormed(s) && Enabled(s, e)
    ensures ResponseOf(s, p).Pending? && Reaches(s, e, p) && e.Stop? ==> ResponseOf(Step(s, e), p) == Rejected
    ensures ResponseOf(s, p).Pending? && Reaches(s, e, p) && !e.Stop? ==> ResponseOf(Step(s, e), p).Resolved?
    ensures !ResponseOf(s, p).Pending? || !Reaches(s, e, p) ==> ResponseOf(Step(s, e), p) == ResponseOf(s, p)
  {
  }

  lemma StepAt(states: seq<State>, events: seq<Event>, i: nat)
    requires Run(states, events) && i < |events|
    ensures WellFormed(states[i]) && Enabled(states[i], events[i]) && states[i + 1] == Step(states[i], events[i])
  {
  }

  predicate StaysAt(states: seq<State>, p: nat, i: nat) {
    i + 1 < |states| && (!ResponseOf(states[i], p).Pending? ==> ResponseOf(states[i + 1], p) == ResponseOf(states[i], p))
  }

  lemma {:induction false} StaysFrom(states: seq<State>, p: nat, m: nat, n: nat)
    requires m <= n < |states| && !ResponseOf(states[m], p).Pending?
    requires forall i: nat | m <= i < n :: StaysAt(states, p, i)
    ensures ResponseOf(states[n], p) == ResponseOf(states[m], p)
    decreases n
  {
    if m < n {
      StaysFrom(states, p, m, n - 1);
      assert StaysAt(states, p, n - 1);
    }
  }

  /** Over every run: a settled response promise never changes. */
  lemma SettledForGood(states: seq<State>, events: seq<Event>, p: nat, m: nat, n: nat)
    requires Run(states, events) && m <= n <= |events|
    requires !ResponseOf(states[m], p).Pending?
    ensures ResponseOf(states[n], p) == ResponseOf(states[m], p)
  {
    forall i: nat | m <= i < n ensures StaysAt(states, p, i) {
      StepAt(states, events, i);
      ResponseStep(states[i], events[i], p);
    }
    StaysFrom(states, p, m, n);
  }

  /** No call before position `n` reaches the promise. */
  ghost predicate Unreached(states: seq<State>, events: seq<Event>, p: nat, n: nat)
    requires Run(states, events) && n <= |events|
  {
    forall i | 0 <= i < n :: !ReachedAt(states, events, p, i)
  }

  ghost predicate ReachedAt(states: seq<State>, events: seq<Event>, p: nat, i: nat)
    requires Run(states, events) && i < |events|
  {
    WellFormed(states[i]) && Reaches(states[i], events[i], p)
  }

  lemma {:induction false} OpenWhileUnreached(states: seq<State>, events: seq<Event>, p: nat, n: nat)
    requires Run(states, events) && n <= |events|
    requires ResponseOf(states[0], p).Pending? && Unreached(states, events, p, n)
    ensures ResponseOf(states[n], p).Pending?
    decreases n
  {
    if n > 0 {
      OpenWhileUnreached(states, events, p, n - 1);
      StepAt(states, events, n - 1);
      ResponseStep(states[n - 1], events[n - 1], p);
      assert !ReachedAt(states, events, p, n - 1);
    }
  }

  /** Over every run: a response promise is open until the first call reaches it, and from then on, for good, it is
      rejected if that call was a stop and resolved if it was an answer. */
  lemma FirstCallDecides(states: seq<State>, events: seq<Event>, p: nat, i: nat, n: nat)
    requires Run(states, events) && ResponseOf(states[0], p).Pending?
    requires i < n <= |events| && Unreached(states, events, p, i) && ReachedAt(states, events, p, i)
    ensures ResponseOf(states[i], p).Pending?
    ensures events[i].Stop? ==> ResponseOf(states[n], p) == Rejected
    ensures !events[i].Stop? ==> ResponseOf(states[n], p).Resolved?
  {
    OpenWhileUnreached(states, events, p, i);
    StepAt(states, events, i);
    ResponseStep(states[i], events[i], p);
    SettledForGood(states, events, p, i + 1, n);
  }
}
