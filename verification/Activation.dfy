/**
 Activation on a single main instance: what one attempt to activate a workflow does, the queue of
 retries with its timers, and start-up.  Everything the manager keeps is keyed by workflow, so the
 state of one workflow is a value of its own here, and the manager is a table of them.
 */
module Activation {
  import opened ActivationMode
  import opened ActiveWorkflows
  import opened Wrappers

  const INITIAL_TIMEOUT := 1000
  const MAX_TIMEOUT := 24 * 60 * 60 * 1000

  /** A queued activation and the job of its timer; both remember the workflow as it was stored when it
      was queued, of which only the active flag matters. */
  datatype Entry = Entry(mode: Mode, active: bool, lastTimeout: nat, timer: nat)
  datatype Job = Job(mode: Mode, active: bool)

  /** One workflow: whether it is active in memory, its queue entry, its live timers, its activation
      error, and how many timers were ever set for it. */
  datatype Local = Local(inMemory: bool, entry: Option<Entry>, timers: map<nat, Job>, error: Option<string>, serial: nat)

  const BLANK := Local(false, None, map[], None, 0)

  /** How the parts of an attempt turn out.  `lateFailure` is a failing database call after the workflow
      was registered and taken off the queue. */
  datatype Env = Env(active: bool, startable: bool, webhooksOk: bool, nodes: Nodes, lateFailure: bool, message: string)

  datatype End = Skipped | Done | Failed(message: string)

  // ---------------------------------------------------------------------------
  // add
  // ---------------------------------------------------------------------------

  predicate StartMode(mode: Mode) {
    mode == Init || mode == LeadershipChange
  }

  predicate HasNodes(n: Nodes) {
    n.triggers != [] || n.pollers != []
  }

  /** Whether the attempt gets as far as starting triggers and pollers. */
  predicate GetsToNodes(mode: Mode, env: Env) {
    (StartMode(mode) ==> env.active) && env.startable && (mode == LeadershipChange || env.webhooksOk)
  }

  function MemoryAfter(was: bool, mode: Mode, env: Env): bool {
    if GetsToNodes(mode, env) && HasNodes(env.nodes)
    then RecordedAfter(if was then Active(0) else NotActive, env.nodes).Active?
    else was
  }

  function Dequeue(l: Local): Local {
    if l.entry.Some? then l.(entry := None, timers := l.timers - {l.entry.value.timer}) else l
  }

  function EndOf(mode: Mode, env: Env): End {
    if StartMode(mode) && !env.active then Skipped
    else if !GetsToNodes(mode, env) || (HasNodes(env.nodes) && !Succeeds(env.nodes)) || env.lateFailure
    then Failed(env.message)
    else Done
  }

  /** Whether the workflow was already registered and off the queue when the attempt failed. */
  predicate FailsLate(mode: Mode, env: Env) {
    GetsToNodes(mode, env) && (HasNodes(env.nodes) ==> Succeeds(env.nodes)) && env.lateFailure
  }

  /** `add` with the workflow found: the state afterwards, whether it succeeds or throws. */
  function Attempt(l: Local, mode: Mode, env: Env): Local {
    var end := EndOf(mode, env);
    var l1 := l.(inMemory := MemoryAfter(l.inMemory, mode, env));
    match end
    case Skipped => l
    case Done => Dequeue(l1).(error := None)
    case Failed(message) => (if FailsLate(mode, env) then Dequeue(l1) else l1).(error := Some(message))
  }

  /** An attempt is skipped exactly for an inactive workflow at start-up or on a takeover, and succeeds exactly when
      the workflow can be started, its webhooks work unless this is a takeover, every trigger starts, every poller
      works, and the database does not fail. */
  lemma EndsExactly(mode: Mode, env: Env)
    ensures EndOf(mode, env).Skipped? <==> (mode == Init || mode == LeadershipChange) && !env.active
    ensures EndOf(mode, env).Done? <==>
            && (mode == Init || mode == LeadershipChange ==> env.active)
            && env.startable
            && (mode == Init || mode == Update || mode == Activate ==> env.webhooksOk)
            && (forall i | 0 <= i < |env.nodes.triggers| :: !env.nodes.triggers[i].Threw?)
            && (forall i | 0 <= i < |env.nodes.pollers| :: env.nodes.pollers[i].polls && false !in env.nodes.pollers[i].crons)
            && !env.lateFailure
    ensures EndOf(mode, env).Failed? ==> EndOf(mode, env).message == env.message
  {
    assert SomePollFailed(env.nodes) <==> exists i :: 0 <= i < |env.nodes.pollers| && Fails(env.nodes.pollers[i]);
  }

  /** After a successful attempt the workflow is active if it has triggers or pollers and as before otherwise, off the
      queue and without an error; after a failed one its error is on record, and a skipped one changes nothing. */
  lemma AttemptLeaves(l: Local, mode: Mode, env: Env)
    ensures var l', end := Attempt(l, mode, env), EndOf(mode, env);
            && (end.Skipped? ==> l' == l)
            && (end.Done? ==> l'.entry.None? && l'.error.None?
                              && l'.inMemory == (l.inMemory || env.nodes.triggers != [] || env.nodes.pollers != []))
            && (end.Failed? ==> l'.error == Some(env.message))
  {
  }

  // ---------------------------------------------------------------------------
  // The retry queue
  // ---------------------------------------------------------------------------

  function SetTimer(l: Local, entry: Entry): Local {
    l.(entry := Some(entry.(timer := l.serial)),
       timers := l.timers[l.serial := Job(entry.mode, entry.active)],
       serial := l.serial + 1)
  }

  function Enqueue(l: Local, mode: Mode, active: bool): Local {
    SetTimer(Dequeue(l), Entry(mode, active, INITIAL_TIMEOUT, 0))
  }

  function NextTimeout(lastTimeout: nat): nat {
    if lastTimeout < MAX_TIMEOUT then (if lastTimeout * 2 < MAX_TIMEOUT then lastTimeout * 2 else MAX_TIMEOUT)
    else lastTimeout
  }

  /** `TriggerError` deactivates without waiting for it: `closes` says whether that was through at once, and
      `Closed` is the end of one that took longer. */
  datatype Step =
    | Add(mode: Mode, env: Env)
    | Start(mode: Mode, env: Env)
    | Retry(timer: nat, env: Env)
    | TriggerError(mode: Mode, active: bool, closes: bool, message: string)
    | Closed
    | Remove(closes: bool)
    | ClearQueue
    | ClearErrors

  /** Messages about authorization are not retried at start-up. */
  predicate IsAuthorization(message: string) {
    exists i | 0 <= i < |message| :: AuthorizationAt(message, i)
  }

  predicate AuthorizationAt(message: string, i: nat)
    requires i <= |message|
  {
    "Authorization" <= message[i..]
  }

  /** The message has the word in it. */
  lemma IsAuthorizationExactly(message: string)
    ensures IsAuthorization(message) <==> exists a: string, b: string :: message == a + "Authorization" + b
  {
    if i :| 0 <= i < |message| && AuthorizationAt(message, i) {
      assert message == message[..i] + "Authorization" + message[i + 13..];
    }
    if a: string, b: string :| message == a + "Authorization" + b {
      assert message[|a|..] == "Authorization" + b;
      assert AuthorizationAt(message, |a|);
    }
  }

  function DoStart(l: Local, mode: Mode, env: Env): Local {
    var l1 := Attempt(l, mode, env);
    if EndOf(mode, env).Failed? && !IsAuthorization(env.message) then Enqueue(l1, Init, env.active) else l1
  }

  /** The function a timer runs.  It works on the workflow as remembered, and looks the queue entry up
      again when the attempt failed; an entry gone by then makes it throw itself. */
  function DoRetry(l: Local, timer: nat, env: Env): Local
    requires timer in l.timers
  {
    var job := l.timers[timer];
    var env1 := env.(active := job.active);
    var l1 := Attempt(l.(timers := l.timers - {timer}), job.mode, env1);
    if EndOf(job.mode, env1).Failed? && l1.entry.Some? then Rearmed(l1, job) else l1
  }

  /** The entry gets the next delay and a new timer for the same job. */
  function Rearmed(l: Local, job: Job): Local
    requires l.entry.Some?
  {
    var e := l.entry.value;
    l.(entry := Some(e.(lastTimeout := NextTimeout(e.lastTimeout), timer := l.serial)),
       timers := l.timers[l.serial := job],
       serial := l.serial + 1)
  }

  predicate Enabled(l: Local, step: Step) {
    match step
    case Retry(timer, env) => timer in l.timers
    case Add(mode, env) => mode == Update || mode == Activate
    case Start(mode, env) => StartMode(mode)
    case TriggerError(mode, active, closes, message) => StartMode(mode) ==> active
    case _ => true
  }

  function Do(l: Local, step: Step): Local
    requires Enabled(l, step)
  {
    match step
    case Add(mode, env) => Attempt(l, mode, env)
    case Start(mode, env) => DoStart(l, mode, env)
    case Retry(timer, env) => DoRetry(l, timer, env)
    case TriggerError(mode, active, closes, message) =>
      Enqueue(l.(inMemory := l.inMemory && !closes, error := Some(message)), mode, active)
    case Closed => l.(inMemory := false)
    case Remove(closes) => Dequeue(l.(error := None)).(inMemory := l.inMemory && !closes)
    case ClearQueue => Dequeue(l)
    case ClearErrors => l.(error := None)
  }

  /** A trigger error puts the workflow on the queue, under the mode it was activated with, with a retry in a second
      and the error on record; a removal takes it off, and clears the error; neither leaves it in memory if closing
      works. */
  lemma ErrorAndRemoval(l: Local, mode: Mode, active: bool, closes: bool, message: string)
    requires StartMode(mode) ==> active
    ensures var l' := Do(l, TriggerError(mode, active, closes, message));
            && l'.error == Some(message) && l'.entry.Some?
            && l'.entry.value.mode == mode && l'.entry.value.active == active && l'.entry.value.lastTimeout == 1000
            && l'.entry.value.timer in l'.timers && l'.timers[l'.entry.value.timer] == Job(mode, active)
            && (l'.inMemory <==> l.inMemory && !closes)
    ensures var l' := Do(l, Remove(closes)); l'.error.None? && l'.entry.None? && (l'.inMemory <==> l.inMemory && !closes)
  {
  }

  // ---------------------------------------------------------------------------
  // What every run keeps of the queue
  // ---------------------------------------------------------------------------

  /** A queued workflow has one live timer, the recorded one, carrying the same job, and a workflow that is
      not queued has none. */
  predicate TimersSound(l: Local) {
    && (forall t | t in l.timers :: t < l.serial)
    && if l.entry.None? then l.timers == map[]
       else
         var e := l.entry.value;
         && l.timers == map[e.timer := Job(e.mode, e.active)]
         && e.timer < l.serial
         && (StartMode(e.mode) ==> e.active)
  }

  predicate ErrorSound(l: Local) {
    l.entry.Some? ==> l.error.Some?
  }

  predicate MemorySound(l: Local) {
    l.entry.Some? ==> !l.inMemory
  }

  /** Every step keeps the timers in order. */
  lemma TimersKept(l: Local, step: Step)
    requires TimersSound(l) && Enabled(l, step)
    ensures TimersSound(Do(l, step))
  {
    if step.Retry? {
      assert l.timers - {step.timer} == map[];
    } else if l.entry.Some? {
      assert l.timers - {l.entry.value.timer} == map[];
    }
  }

  /** Only clearing the errors while the workflow is queued loses its error. */
  lemma ErrorKeptExactly(l: Local, step: Step)
    requires TimersSound(l) && ErrorSound(l) && Enabled(l, step)
    ensures ErrorSound(Do(l, step)) <==> (step.ClearErrors? ==> l.entry.None?)
  {
  }

  /** Every trigger starts, one of them responds, and a poller then fails. */
  predicate FailsAtPoller(mode: Mode, env: Env) {
    && GetsToNodes(mode, env)
    && !SomeThrew(env.nodes.triggers) && SomePollFailed(env.nodes) && Responses(env.nodes.triggers) > 0
  }

  /** Nothing takes an active workflow down: its pollers work, or are not reached, or fail next to a trigger
      that responded. */
  predicate StaysIfActive(mode: Mode, env: Env) {
    !GetsToNodes(mode, env) || SomeThrew(env.nodes.triggers) || !SomePollFailed(env.nodes) || Responses(env.nodes.triggers) > 0
  }

  /** All nodes start, and the database fails after that. */
  predicate FailsAfterNodes(mode: Mode, env: Env) {
    && GetsToNodes(mode, env) && HasNodes(env.nodes)
    && !SomeThrew(env.nodes.triggers) && !SomePollFailed(env.nodes) && env.lateFailure
  }

  predicate SomethingFails(mode: Mode, env: Env) {
    !GetsToNodes(mode, env) || SomeThrew(env.nodes.triggers) || SomePollFailed(env.nodes) || env.lateFailure
  }

  /**
   The steps after which a queued workflow is not active in memory, told by the guards of the code:
   - a queued workflow must not be added, or retried, with a poller failing next to a responding trigger;
   - a start that fails and goes to the queue must not have registered the workflow, nor found it active
     without taking it down; one that fails on authorization goes nowhere, and is like an add;
   - a trigger error must be through with deactivating the workflow.
   */
  predicate KeepsOutOfMemory(l: Local, step: Step)
    requires Enabled(l, step)
  {
    match step
    case Add(mode, env) => l.entry.Some? ==> !FailsAtPoller(mode, env)
    case Start(mode, env) =>
      if (StartMode(mode) && !env.active) || !SomethingFails(mode, env) then true
      else if IsAuthorization(env.message) then l.entry.Some? ==> !FailsAtPoller(mode, env)
      else && !FailsAtPoller(mode, env) && !FailsAfterNodes(mode, env)
           && !(l.inMemory && StaysIfActive(mode, env))
    case Retry(timer, env) => !FailsAtPoller(l.timers[timer].mode, env.(active := l.timers[timer].active))
    case TriggerError(mode, active, closes, message) => l.inMemory ==> closes
    case _ => true
  }

  lemma MemoryKeptExactly(l: Local, step: Step)
    requires TimersSound(l) && MemorySound(l) && Enabled(l, step)
    ensures MemorySound(Do(l, step)) <==> KeepsOutOfMemory(l, step)
  {
  }

  /** A run of one workflow, from before it was ever activated. */
  ghost predicate Run(states: seq<Local>, steps: seq<Step>) {
    && |states| == |steps| + 1 && states[0] == BLANK
    && forall i | 0 <= i < |steps| :: Enabled(states[i], steps[i]) && states[i + 1] == Do(states[i], steps[i])
  }

  /** In every run, whatever fails in it, there is never more than one live timer, and it is the recorded
      one. */
  lemma {:induction false} TimersOverRuns(states: seq<Local>, steps: seq<Step>, n: nat)
    requires Run(states, steps) && n <= |steps|
    ensures TimersSound(states[n]) && |states[n].timers| <= 1
    decreases n
  {
    if n > 0 {
      TimersOverRuns(states, steps, n - 1);
      assert states[n - 1 + 1] == Do(states[n - 1], steps[n - 1]);
      TimersKept(states[n - 1], steps[n - 1]);
    }
  }

  /** In every run in which errors are cleared only while the workflow is not queued, a queued workflow has
      an error on record. */
  lemma {:induction false} ErrorOverRuns(states: seq<Local>, steps: seq<Step>, n: nat)
    requires Run(states, steps) && n <= |steps|
    requires forall i | 0 <= i < n && steps[i].ClearErrors? :: states[i].entry.None?
    ensures ErrorSound(states[n])
    decreases n
  {
    if n > 0 {
      ErrorOverRuns(states, steps, n - 1);
      TimersOverRuns(states, steps, n - 1);
      assert states[n - 1 + 1] == Do(states[n - 1], steps[n - 1]);
      ErrorKeptExactly(states[n - 1], steps[n - 1]);
    }
  }

  /** In every run without one of the steps ruled out above, a queued workflow is not active in memory. */
  lemma {:induction false} MemoryOverRuns(states: seq<Local>, steps: seq<Step>, n: nat)
    requires Run(states, steps) && n <= |steps|
    requires forall i | 0 <= i < n :: KeepsOutOfMemory(states[i], steps[i])
    ensures MemorySound(states[n])
    decreases n
  {
    if n > 0 {
      MemoryOverRuns(states, steps, n - 1);
      TimersOverRuns(states, steps, n - 1);
      assert states[n - 1 + 1] == Do(states[n - 1], steps[n - 1]);
      MemoryKeptExactly(states[n - 1], steps[n - 1]);
    }
  }

  /** After a successful attempt, by whatever way it came about, nothing is left of the queue. */
  lemma NothingLeftWhenDone(l: Local, step: Step)
    requires TimersSound(l) && Enabled(l, step)
    requires step.Remove?
             || ((step.Add? || step.Start?) && EndOf(step.mode, step.env).Done?)
             || (step.Retry? && EndOf(l.timers[step.timer].mode, step.env.(active := l.timers[step.timer].active)).Done?)
    ensures var l' := Do(l, step); l'.entry.None? && l'.timers == map[] && l'.error.None?
  {
    if l.entry.Some? {
      assert l.timers - {l.entry.value.timer} == map[];
    }
  }

  /** A retry that fails after its own success took the workflow off the queue finds no entry to update. */
  predicate RetryThrows(l: Local, timer: nat, env: Env)
    requires timer in l.timers
  {
    var job := l.timers[timer];
    var env1 := env.(active := job.active);
    EndOf(job.mode, env1).Failed? && Attempt(l.(timers := l.timers - {timer}), job.mode, env1).entry.None?
  }

  /** The retry function throws exactly when webhooks, triggers and pollers are all in place and the
      database fails after that. */
  lemma RetryThrowsExactly(l: Local, timer: nat, env: Env)
    requires TimersSound(l) && timer in l.timers
    ensures var job := l.timers[timer];
            RetryThrows(l, timer, env) <==>
            && GetsToNodes(job.mode, env.(active := job.active))
            && !SomeThrew(env.nodes.triggers) && !SomePollFailed(env.nodes) && env.lateFailure
  {
  }

  /** A concrete case: a workflow with a webhook and nothing else, queued by a trigger error, whose retry
      gets as far as updating its trigger count. */
  lemma RetryThrew()
    ensures var l := Do(BLANK, TriggerError(Activate, true, true, "lost connection"));
            && TimersSound(l) && l.timers.Keys == {0}
            && RetryThrows(l, 0, Env(true, true, true, Nodes([], []), true, "no database"))
  {
  }

  /** An attempt that fails before taking the workflow off the queue leaves a workflow active that was
      not, exactly when every trigger started, one of them responded, and a poller then failed. */
  lemma LeftActiveExactly(mode: Mode, env: Env)
    requires EndOf(mode, env).Failed? && !FailsLate(mode, env)
    ensures MemoryAfter(false, mode, env) <==> FailsAtPoller(mode, env)
  {
  }

  // ---------------------------------------------------------------------------
  // Code
  // ---------------------------------------------------------------------------

  class ActivationManager {
    var memory: set<string>
    var queuedActivations: map<string, Entry>
    var timers: map<string, map<nat, Job>>
    var errors: map<string, string>
    var serials: map<string, nat>

    function LocalOf(w: string): Local
      reads this
    {
      Local(w in memory,
            if w in queuedActivations then Some(queuedActivations[w]) else None,
            if w in timers then timers[w] else map[],
            if w in errors then Some(errors[w]) else None,
            if w in serials then serials[w] else 0)
    }

    method SetTimeout(w: string, job: Job) returns (timer: nat)
      modifies this`timers, this`serials
      ensures timer == old(LocalOf(w)).serial
      ensures LocalOf(w) == old(LocalOf(w)).(timers := old(LocalOf(w)).timers[timer := job], serial := timer + 1)
      ensures forall v | v != w :: LocalOf(v) == old(LocalOf(v))
    {
      timer := if w in serials then serials[w] else 0;
      timers := timers[w := (if w in timers then timers[w] else map[])[timer := job]];
      serials := serials[w := timer + 1];
    }

    method RemoveQueuedWorkflowActivation(w: string)
      modifies this`queuedActivations, this`timers
      ensures LocalOf(w) == Dequeue(old(LocalOf(w)))
      ensures forall v | v != w :: LocalOf(v) == old(LocalOf(v))
      ensures queuedActivations == old(queuedActivations) - {w}
    {
      if w in queuedActivations {
        if w in timers {
          timers := timers[w := timers[w] - {queuedActivations[w].timer}];
        }
        queuedActivations := queuedActivations - {w};
      }
    }

    method AddQueuedWorkflowActivation(w: string, mode: Mode, active: bool)
      modifies this`queuedActivations, this`timers, this`serials
      ensures LocalOf(w) == Enqueue(old(LocalOf(w)), mode, active)
      ensures forall v | v != w :: LocalOf(v) == old(LocalOf(v))
    {
      RemoveQueuedWorkflowActivation(w);
      var timer := SetTimeout(w, Job(mode, active));
      SetEntry(w, Entry(mode, active, INITIAL_TIMEOUT, timer));
    }

    /** `add` under given outcomes of its parts; a `Failed` end is one that throws. */
    method AddWorkflow(w: string, mode: Mode, env: Env) returns (end: End)
      modifies this
      ensures end == EndOf(mode, env)
      ensures LocalOf(w) == Attempt(old(LocalOf(w)), mode, env)
      ensures forall v | v != w :: LocalOf(v) == old(LocalOf(v))
    {
      if StartMode(mode) && !env.active {
        return Skipped;
      }
      var shouldAddWebhooks := mode != LeadershipChange;
      var ok := env.startable && (shouldAddWebhooks ==> env.webhooksOk);
      if ok {
        ok := AddTriggersAndPollers(w, env.nodes);
      }
      if ok {
        RemoveQueuedWorkflowActivation(w);
        ok := !env.lateFailure;
      }
      if !ok {
        RegisterError(w, env.message);
        return Failed(env.message);
      }
      Deregister(w);
      return Done;
    }

    /** What `ActiveWorkflowsService.Add` does to the workflow being active; nothing without such nodes. */
    method AddTriggersAndPollers(w: string, nodes: Nodes) returns (ok: bool)
      modifies this`memory
      ensures ok <==> (HasNodes(nodes) ==> Succeeds(nodes))
      ensures !HasNodes(nodes) ==> LocalOf(w) == old(LocalOf(w))
      ensures HasNodes(nodes) ==>
                LocalOf(w) == old(LocalOf(w)).(inMemory :=
                  RecordedAfter(if old(LocalOf(w)).inMemory then Active(0) else NotActive, nodes).Active?)
      ensures forall v | v != w :: LocalOf(v) == old(LocalOf(v))
    {
      if !HasNodes(nodes) {
        return true;
      }
      if SomeThrew(nodes.triggers) {
        return false;
      }
      memory := memory + {w};
      if SomePollFailed(nodes) && Responses(nodes.triggers) == 0 {
        memory := memory - {w};
      }
      return !SomePollFailed(nodes);
    }

    method RegisterError(w: string, message: string)
      modifies this`errors
      ensures LocalOf(w) == old(LocalOf(w)).(error := Some(message))
      ensures forall v | v != w :: LocalOf(v) == old(LocalOf(v))
    {
      errors := errors[w := message];
    }

    /** `activateWorkflow`, at start-up or when leadership changes. */
    method ActivateWorkflow(w: string, found: bool, mode: Mode, env: Env)
      modifies this
      ensures LocalOf(w) == if found then DoStart(old(LocalOf(w)), mode, env) else old(LocalOf(w))
      ensures forall v | v != w :: LocalOf(v) == old(LocalOf(v))
    {
      if !found {
        return;
      }
      var end := AddWorkflow(w, mode, env);
      if end.Failed? && !IsAuthorization(end.message) {
        AddQueuedWorkflowActivation(w, Init, env.active);
      }
    }

    /** The function given to a timer, from when the timer fires.  `ok` is false where it throws. */
    method RetryFunction(w: string, timer: nat, env: Env) returns (ok: bool)
      requires timer in LocalOf(w).timers
      modifies this
      ensures LocalOf(w) == DoRetry(old(LocalOf(w)), timer, env)
      ensures ok <==> !RetryThrows(old(LocalOf(w)), timer, env)
      ensures forall v | v != w :: LocalOf(v) == old(LocalOf(v))
    {
      var job := timers[w][timer];
      timers := timers[w := timers[w] - {timer}];
      var end := AddWorkflow(w, job.mode, env.(active := job.active));
      ok := true;
      if end.Failed? {
        ok := RetryFailed(w, job);
      }
    }

    /** `for (const workflowId in queuedActivations)`; `ids` are its keys. */
    method RemoveAllQueuedWorkflowActivations(ids: seq<string>)
      requires forall w | w in queuedActivations :: w in ids
      modifies this
      ensures forall w :: LocalOf(w) == Dequeue(old(LocalOf(w)))
      ensures queuedActivations == map[]
    {
      var i := 0;
      while i < |ids|
        invariant 0 <= i <= |ids|
        invariant forall w | w in queuedActivations :: w in ids[i..]
        invariant forall w :: LocalOf(w) == if w in ids[..i] then Dequeue(old(LocalOf(w))) else old(LocalOf(w))
      {
        assert ids[..i + 1] == ids[..i] + [ids[i]];
        assert ids[i..] == [ids[i]] + ids[i + 1..];
        RemoveQueuedWorkflowActivation(ids[i]);
        i := i + 1;
      }
      assert ids[..i] == ids && ids[i..] == [];
      forall w ensures LocalOf(w) == Dequeue(old(LocalOf(w))) {
        assert w !in ids ==> old(LocalOf(w)).entry.None?;
      }
    }

    /** The `catch` of the retry function, after its attempt failed.  Returns false where looking the entry
        up throws. */
    method RetryFailed(w: string, job: Job) returns (ok: bool)
      modifies this
      ensures ok <==> old(LocalOf(w)).entry.Some?
      ensures LocalOf(w) == if ok then Rearmed(old(LocalOf(w)), job) else old(LocalOf(w))
      ensures forall v | v != w :: LocalOf(v) == old(LocalOf(v))
    {
      if w !in queuedActivations {
        return false;
      }
      var lastTimeout := queuedActivations[w].lastTimeout;
      if lastTimeout < MAX_TIMEOUT {
        lastTimeout := if lastTimeout * 2 < MAX_TIMEOUT then lastTimeout * 2 else MAX_TIMEOUT;
      }
      SetEntry(w, queuedActivations[w].(lastTimeout := lastTimeout));
      var timer := SetTimeout(w, job);
      SetEntry(w, queuedActivations[w].(timer := timer));
      return true;
    }

    method SetEntry(w: string, entry: Entry)
      modifies this`queuedActivations
      ensures LocalOf(w) == old(LocalOf(w)).(entry := Some(entry))
      ensures forall v | v != w :: LocalOf(v) == old(LocalOf(v))
    {
      queuedActivations := queuedActivations[w := entry];
    }

    /** A trigger reports an error; `closes` says whether deactivating the workflow worked. */
    method EmitError(w: string, mode: Mode, active: bool, closes: bool, message: string)
      requires StartMode(mode) ==> active
      modifies this
      ensures LocalOf(w) == Do(old(LocalOf(w)), TriggerError(mode, active, closes, message))
      ensures forall v | v != w :: LocalOf(v) == old(LocalOf(v))
    {
      if closes {
        memory := memory - {w};
      }
      RegisterError(w, message);
      AddQueuedWorkflowActivation(w, mode, active);
    }

    /** `remove` on a single main instance, after the webhooks are cleared. */
    method RemoveWorkflow(w: string, closes: bool)
      modifies this
      ensures LocalOf(w) == Do(old(LocalOf(w)), Remove(closes))
      ensures forall v | v != w :: LocalOf(v) == old(LocalOf(v))
    {
      Deregister(w);
      if w in queuedActivations {
        RemoveQueuedWorkflowActivation(w);
      }
      if closes {
        Forget(w);
      }
    }

    method Deregister(w: string)
      modifies this`errors
      ensures LocalOf(w) == old(LocalOf(w)).(error := None)
      ensures forall v | v != w :: LocalOf(v) == old(LocalOf(v))
    {
      errors := errors - {w};
    }

    method Forget(w: string)
      modifies this`memory
      ensures LocalOf(w) == old(LocalOf(w)).(inMemory := false)
      ensures forall v | v != w :: LocalOf(v) == old(LocalOf(v))
    {
      memory := memory - {w};
    }
  }

  // ---------------------------------------------------------------------------
  // Backoff
  // ---------------------------------------------------------------------------

  function Pow2(n: nat): nat {
    if n == 0 then 1 else 2 * Pow2(n - 1)
  }

  function Min(a: nat, b: nat): nat {
    if a < b then a else b
  }

  /** The delay after `n` consecutive failed retries. */
  function Delay(n: nat): nat {
    if n == 0 then INITIAL_TIMEOUT else NextTimeout(Delay(n - 1))
  }

  /** The wait before retry number `k`, counting from when the workflow was queued. */
  function Waited(k: nat): nat {
    if k == 0 then 0 else Waited(k - 1) + Delay(k - 1)
  }

  lemma {:induction false} PowGrows(m: nat, n: nat)
    requires m <= n
    ensures Pow2(m) <= Pow2(n)
    decreases n
  {
    if m < n { PowGrows(m, n - 1); }
  }

  lemma PowValues()
    ensures Pow2(16) == 65536 && Pow2(17) == 131072
  {
    assert Pow2(4) == 16;
    assert Pow2(8) == 256;
    assert Pow2(12) == 4096;
    assert Pow2(16) == 65536;
  }

  /** The delay doubles until it reaches a day, which it first does after 17 failures. */
  lemma {:induction false} DelayClosedForm(n: nat)
    ensures Delay(n) == Min(1000 * Pow2(n), MAX_TIMEOUT)
    ensures Delay(n) == MAX_TIMEOUT <==> n >= 17
    decreases n
  {
    PowValues();
    if n > 0 {
      DelayClosedForm(n - 1);
    }
    if n >= 17 { PowGrows(17, n); } else { PowGrows(n, 16); }
  }

  lemma DelayNeverDecreases(n: nat)
    ensures Delay(n) <= Delay(n + 1)
  {
  }

  /** The wait before retry `k`: doubling up to the seventeenth, and a day more for each one after that. */
  lemma WaitedClosedForm(k: nat)
    ensures k <= 17 ==> Waited(k) == 1000 * (Pow2(k) - 1)
    ensures k >= 17 ==> Waited(k) == 1000 * (Pow2(17) - 1) + (k - 17) * MAX_TIMEOUT
  {
    if k <= 17 { WaitedDoubling(k); }
    if k >= 17 {
      WaitedAtCap(17, k - 17);
      WaitedDoubling(17);
    }
  }

  lemma DelayBelowCap(n: nat)
    requires n <= 16
    ensures Delay(n) == 1000 * Pow2(n)
  {
    DelayClosedForm(n);
    PowGrows(n, 16);
    PowValues();
  }

  lemma {:induction false} WaitedDoubling(k: nat)
    requires k <= 17
    ensures Waited(k) == 1000 * (Pow2(k) - 1)
    decreases k
  {
    if k > 0 {
      WaitedDoubling(k - 1);
      DelayBelowCap(k - 1);
      assert Pow2(k) == 2 * Pow2(k - 1);
    }
  }

  lemma {:induction false} WaitedAtCap(from: nat, more: nat)
    requires from >= 17
    ensures Waited(from + more) == Waited(from) + more * MAX_TIMEOUT
    decreases more
  {
    if more > 0 {
      WaitedAtCap(from, more - 1);
      DelayClosedForm(from + more - 1);
      assert Waited(from + more) == Waited(from + more - 1) + MAX_TIMEOUT;
    }
  }

  /** Those are the delays the queue really uses: from the moment a workflow is queued, after `n` retries
      that failed before registering anything, the recorded delay is `Delay(n)`. */
  lemma {:induction false} RetriesBackOff(l: Local, mode: Mode, active: bool, envs: seq<Env>)
    requires StartMode(mode) ==> active
    requires forall env | env in envs :: var env1 := env.(active := active); EndOf(mode, env1).Failed? && !FailsLate(mode, env1)
    ensures var l' := AfterRetries(Enqueue(l, mode, active), envs);
            && l'.entry.Some? && l'.entry.value.mode == mode && l'.entry.value.active == active
            && l'.entry.value.lastTimeout == Delay(|envs|)
            && l'.entry.value.timer in l'.timers && l'.timers[l'.entry.value.timer] == Job(mode, active)
    decreases |envs|
  {
    if envs != [] {
      var n := |envs| - 1;
      assert envs[n] in envs;
      RetriesBackOff(l, mode, active, envs[..n]);
    }
  }

  /** The recorded timer fires once for every element of `envs`. */
  function AfterRetries(l: Local, envs: seq<Env>): Local
    decreases |envs|
  {
    if envs == [] then l
    else
      var l1 := AfterRetries(l, envs[..|envs| - 1]);
      if l1.entry.Some? && l1.entry.value.timer in l1.timers
      then DoRetry(l1, l1.entry.value.timer, envs[|envs| - 1])
      else l1
  }
}
