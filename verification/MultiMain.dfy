/**
 Which instance runs a workflow's triggers when several main instances share the work.  Leadership is
 a key with an expiry in a shared store; an instance learns that it lost the key only at its next
 check.  Adding triggers is two steps, the look at the role and the registration, and a loss of
 leadership may fall between them.
 */
module TriggerOwnership {

  /** An `add` under way: the role was read when it began; `overlapped` says whether the instance stepped
      down since. */
  datatype PendingAdd = PendingAdd(workflowId: string, register: bool, overlapped: bool)

  /** `stray` collects the workflows in memory on a follower whose presence has an explanation: their add
      overlapped a stepdown, or the stepdown has not closed their triggers. */
  datatype Instance = Instance(leader: bool, memory: set<string>, pending: map<nat, PendingAdd>, stray: set<string>)

  datatype Holder = Nobody | Held(holder: nat)

  /** `published` counts the activation commands put on the bus. */
  datatype State = State(key: Holder, instances: seq<Instance>, published: nat)

  datatype Event =
    | Expire                                             // the leader key expires or is cleared
    | Check(i: nat, left: set<string>)                   // `checkLeader`; `left` is not closed at once
    | TryBecome(i: nat)                                  // `tryBecomeLeader`
    | BeginAdd(i: nat, token: nat, workflowId: string)   // by start-up, takeover or a command
    | FinishAdd(i: nat, token: nat, recorded: bool)      // the registration, or a failure before it
    | RemoveTriggers(i: nat, workflowId: string)         // by a command, after a trigger error or a failed poll
    | RetryTimer(i: nat, workflowId: string)             // a retry timer fires

  predicate Valid(s: State, e: Event) {
    match e
    case Expire => true
    case Check(i, left) => i < |s.instances| && left <= s.instances[i].memory
    case TryBecome(i) => i < |s.instances| && !s.instances[i].leader
    case BeginAdd(i, token, w) => i < |s.instances| && token !in s.instances[i].pending
    case FinishAdd(i, token, recorded) => i < |s.instances| && token in s.instances[i].pending
    case RemoveTriggers(i, w) => i < |s.instances|
    case RetryTimer(i, w) => i < |s.instances|
  }

  /** A check makes the instance a follower when another one holds the key, or when nobody does. */
  predicate StepsDown(s: State, i: nat)
    requires i < |s.instances|
  {
    if s.key.Held? then s.key.holder != i && s.instances[i].leader else true
  }

  /** Marking as follower and removing all triggers.  Closing is waited for, workflow by workflow: `left` are
      those whose closing fails or is still to come, which would then be a removal of its own. */
  function StepDown(n: Instance, left: set<string>): Instance {
    n.(leader := false, memory := left, stray := left,
       pending := map t | t in n.pending :: n.pending[t].(overlapped := true))
  }

  /** The step of an `add` that writes to memory. */
  function Finish(n: Instance, token: nat, recorded: bool): Instance
    requires token in n.pending
  {
    var p, n1 := n.pending[token], n.(pending := n.pending - {token});
    if !p.register || !recorded then n1
    else
      n1.(memory := n1.memory + {p.workflowId},
          stray := if p.overlapped && !n1.leader then n1.stray + {p.workflowId} else n1.stray)
  }

  function With(s: State, i: nat, n: Instance): State
    requires i < |s.instances|
  {
    s.(instances := s.instances[i := n])
  }

  function Step(s: State, e: Event): State
    requires Valid(s, e)
  {
    match e
    case Expire => s.(key := Nobody)
    case Check(i, left) => if StepsDown(s, i) then With(s, i, StepDown(s.instances[i], left)) else s
    case TryBecome(i) =>
      if s.key.Nobody? then With(s, i, s.instances[i].(leader := true, stray := {})).(key := Held(i)) else s
    case BeginAdd(i, token, w) =>
      var n := s.instances[i];
      With(s, i, n.(pending := n.pending[token := PendingAdd(w, n.leader, false)]))
    case FinishAdd(i, token, recorded) => With(s, i, Finish(s.instances[i], token, recorded))
    case RemoveTriggers(i, w) =>
      var n := s.instances[i];
      With(s, i, n.(memory := n.memory - {w}, stray := n.stray - {w}))
    case RetryTimer(i, w) => s.(published := s.published + 1)
  }

  /** A leader that no longer holds the key and has not noticed. */
  predicate Stale(s: State, i: nat)
    requires i < |s.instances|
  {
    s.instances[i].leader && s.key != Held(i)
  }

  ghost predicate InstanceOk(n: Instance) {
    && (!n.leader ==> n.memory <= n.stray)
    && (forall t | t in n.pending :: n.pending[t].register && !n.pending[t].overlapped ==> n.leader)
  }

  ghost predicate Inv(s: State) {
    && (forall i | 0 <= i < |s.instances| :: InstanceOk(s.instances[i]))
    && (s.key.Held? ==> s.key.holder < |s.instances| && s.instances[s.key.holder].leader)
  }

  /** Every step keeps the invariant, and a leader becomes stale only when the key that it holds expires;
      its next check ends that. */
  lemma StepInv(s: State, e: Event)
    requires Inv(s) && Valid(s, e)
    ensures Inv(Step(s, e))
    ensures forall i | 0 <= i < |s.instances| && !Stale(s, i) && Stale(Step(s, e), i) :: e.Expire? && s.key == Held(i)
    ensures e.Check? ==> !Stale(Step(s, e), e.i)
  {
  }

  /** The registration of a workflow adds that one, and a removal takes that one away; a stepdown leaves what is
      not closed; nothing else changes what any instance has in memory. */
  lemma MemoryFrame(s: State, e: Event, j: nat)
    requires Valid(s, e) && j < |s.instances|
    ensures var before, after := s.instances[j].memory, Step(s, e).instances[j].memory;
            if e.FinishAdd? && e.i == j && s.instances[j].pending[e.token].register && e.recorded
            then forall v :: v in after <==> v in before || v == s.instances[j].pending[e.token].workflowId
            else if e.RemoveTriggers? && e.i == j
            then forall v :: v in after <==> v in before && v != e.workflowId
            else if e.Check? && e.i == j && StepsDown(s, j)
            then after == e.left
            else after == before
  {
  }

  /** In memory on a follower, or on two instances at once, only with an explanation. */
  ghost predicate SingleOwner(s: State) {
    && (forall i, w | 0 <= i < |s.instances| && w in s.instances[i].memory ::
          s.instances[i].leader || w in s.instances[i].stray)
    && (forall i, j, w | 0 <= i < j < |s.instances| && w in s.instances[i].memory && w in s.instances[j].memory ::
          Stale(s, i) || Stale(s, j) || w in s.instances[i].stray || w in s.instances[j].stray)
  }

  ghost predicate Run(states: seq<State>, events: seq<Event>) {
    && |states| == |events| + 1
    && states[0].key.Nobody?
    && (forall i | 0 <= i < |states[0].instances| ::
          states[0].instances[i] == Instance(false, {}, map[], {}))
    && forall i | 0 <= i < |events| :: Valid(states[i], events[i]) && states[i + 1] == Step(states[i], events[i])
  }

  lemma {:induction false} InvOverRuns(states: seq<State>, events: seq<Event>, n: nat)
    requires Run(states, events) && n <= |events|
    ensures Inv(states[n])
    decreases n
  {
    if n > 0 {
      InvOverRuns(states, events, n - 1);
      assert states[n - 1 + 1] == Step(states[n - 1], events[n - 1]);
      StepInv(states[n - 1], events[n - 1]);
    }
  }

  /** In every reachable state a workflow's triggers run on a leader, and on one instance only; the
      exceptions are a leader that has not noticed yet that its key expired, adds that a stepdown
      overlapped, and triggers that one has not closed, be it yet or at all. */
  lemma SingleOwnerOverRuns(states: seq<State>, events: seq<Event>, n: nat)
    requires Run(states, events) && n <= |events|
    ensures SingleOwner(states[n])
  {
    InvOverRuns(states, events, n);
  }

  // ---------------------------------------------------------------------------
  // What the two marks stand for
  // ---------------------------------------------------------------------------

  /** Event `k` is a check at which instance `i` stepped down. */
  ghost predicate SteppedDownAt(states: seq<State>, events: seq<Event>, i: nat, k: nat)
    requires Run(states, events) && k < |events|
  {
    events[k].Check? && events[k].i == i && StepsDown(states[k], i)
  }

  /** Instance `i` began an add of `w` at event `a`, as a leader if `register`, and it is still under way
      before event `n`. */
  ghost predicate UnderWay(states: seq<State>, events: seq<Event>, n: nat, i: nat, token: nat, w: string,
        register: bool, a: nat)
    requires Run(states, events) && n <= |events|
  {
    && a < n && events[a] == BeginAdd(i, token, w)
    && i < |states[a].instances| && states[a].instances[i].leader == register
    && forall k | a < k < n && events[k].FinishAdd? && events[k].i == i :: events[k].token != token
  }

  ghost predicate AddUnderWay(states: seq<State>, events: seq<Event>, n: nat, i: nat, token: nat, w: string,
        register: bool)
    requires Run(states, events) && n <= |events|
  {
    exists a: nat :: UnderWay(states, events, n, i, token, w, register, a)
  }

  /** Instance `i` stepped down, at event `b`, while the add was under way. */
  ghost predicate Overlaps(states: seq<State>, events: seq<Event>, n: nat, i: nat, token: nat, w: string,
        register: bool, a: nat, b: nat)
    requires Run(states, events) && n <= |events|
  {
    a < b < n && UnderWay(states, events, n, i, token, w, register, a) && SteppedDownAt(states, events, i, b)
  }

  ghost predicate AddOverlapped(states: seq<State>, events: seq<Event>, n: nat, i: nat, token: nat, w: string,
        register: bool)
    requires Run(states, events) && n <= |events|
  {
    exists a: nat, b: nat :: Overlaps(states, events, n, i, token, w, register, a, b)
  }

  /** An overlapped add of `w`, begun as a leader's, or a stepdown that did not close it, put `w` on instance
      `i` at event `k`. */
  ghost predicate Strayed(states: seq<State>, events: seq<Event>, i: nat, w: string, k: nat)
    requires Run(states, events) && k < |events|
  {
    || (SteppedDownAt(states, events, i, k) && w in events[k].left)
    || (events[k].FinishAdd? && events[k].i == i && AddOverlapped(states, events, k, i, events[k].token, w, true))
  }

  ghost predicate Explained(states: seq<State>, events: seq<Event>, n: nat, i: nat)
    requires Run(states, events) && n <= |events| && i < |states[n].instances|
  {
    var x := states[n].instances[i];
    && (forall t | t in x.pending :: PendingOk(states, events, n, i, t, x.pending[t]))
    && (forall w | w in x.stray :: exists k: nat | k < n :: Strayed(states, events, i, w, k))
  }

  ghost predicate PendingOk(states: seq<State>, events: seq<Event>, n: nat, i: nat, t: nat, p: PendingAdd)
    requires Run(states, events) && n <= |events|
  {
    if p.overlapped then AddOverlapped(states, events, n, i, t, p.workflowId, p.register)
    else AddUnderWay(states, events, n, i, t, p.workflowId, p.register)
  }

  /** The exceptions told by the events of the run: an add is marked as overlapped only when its instance
      stepped down while it was under way, and a workflow is stray only when such an add, begun as a leader's,
      wrote it to memory or a stepdown did not close it. */
  lemma {:induction false} MarksExplained(states: seq<State>, events: seq<Event>, n: nat, i: nat)
    requires Run(states, events) && n <= |events| && i < |states[n].instances|
    ensures Explained(states, events, n, i)
    decreases n
  {
    if n > 0 {
      var s, e := states[n - 1], events[n - 1];
      assert states[n - 1 + 1] == Step(s, e);
      MarksExplained(states, events, n - 1, i);
      forall t | t in states[n].instances[i].pending
        ensures PendingOk(states, events, n, i, t, states[n].instances[i].pending[t])
      {
        PendingExplained(states, events, n, i, t);
      }
      StrayExplained(states, events, n, i);
    }
  }

  /** Where an add under way comes from: it begins with this event, or was under way before it. */
  lemma PendingKept(s: State, e: Event, i: nat, t: nat)
    requires Valid(s, e) && i < |s.instances| && t in Step(s, e).instances[i].pending
    ensures var p := Step(s, e).instances[i].pending[t];
            || (e == BeginAdd(i, t, p.workflowId) && p.register == s.instances[i].leader && !p.overlapped)
            || (&& t in s.instances[i].pending
                && !(e.FinishAdd? && e.i == i && e.token == t)
                && var q := s.instances[i].pending[t];
                   if e.Check? && e.i == i && StepsDown(s, i) then p == q.(overlapped := true) else p == q)
  {
  }

  lemma PendingExplained(states: seq<State>, events: seq<Event>, n: nat, i: nat, t: nat)
    requires Run(states, events) && 0 < n <= |events| && i < |states[n].instances|
    requires states[n] == Step(states[n - 1], events[n - 1])
    requires Explained(states, events, n - 1, i)
    requires t in states[n].instances[i].pending
    ensures PendingOk(states, events, n, i, t, states[n].instances[i].pending[t])
  {
    var e, p := events[n - 1], states[n].instances[i].pending[t];
    PendingKept(states[n - 1], e, i, t);
    if t !in states[n - 1].instances[i].pending || (e.BeginAdd? && e.i == i && e.token == t) {
      assert UnderWay(states, events, n, i, t, p.workflowId, p.register, n - 1);
    } else {
      var q := states[n - 1].instances[i].pending[t];
      assert PendingOk(states, events, n - 1, i, t, q);
      PendingLasts(states, events, n, i, t, q);
    }
  }

  /** An add not finished at event `n - 1` is still under way, and overlapped if that event is a stepdown. */
  lemma PendingLasts(states: seq<State>, events: seq<Event>, n: nat, i: nat, t: nat, q: PendingAdd)
    requires Run(states, events) && 0 < n <= |events|
    requires PendingOk(states, events, n - 1, i, t, q)
    requires !(events[n - 1].FinishAdd? && events[n - 1].i == i && events[n - 1].token == t)
    ensures PendingOk(states, events, n, i, t, q)
    ensures SteppedDownAt(states, events, i, n - 1) ==> PendingOk(states, events, n, i, t, q.(overlapped := true))
  {
    if q.overlapped {
      var a: nat, b: nat :| Overlaps(states, events, n - 1, i, t, q.workflowId, q.register, a, b);
      assert Overlaps(states, events, n, i, t, q.workflowId, q.register, a, b);
    } else {
      var a: nat :| UnderWay(states, events, n - 1, i, t, q.workflowId, q.register, a);
      assert UnderWay(states, events, n, i, t, q.workflowId, q.register, a);
      if SteppedDownAt(states, events, i, n - 1) {
        assert Overlaps(states, events, n, i, t, q.workflowId, q.register, a, n - 1);
      }
    }
  }

  lemma StrayExplained(states: seq<State>, events: seq<Event>, n: nat, i: nat)
    requires Run(states, events) && 0 < n <= |events| && i < |states[n].instances|
    requires states[n] == Step(states[n - 1], events[n - 1])
    requires Explained(states, events, n - 1, i)
    ensures forall w | w in states[n].instances[i].stray :: exists k: nat | k < n :: Strayed(states, events, i, w, k)
  {
    var before, after := states[n - 1].instances[i], states[n].instances[i];
    forall w | w in after.stray
      ensures exists k: nat | k < n :: Strayed(states, events, i, w, k)
    {
      if Strayed(states, events, i, w, n - 1) {
      } else {
        assert w in before.stray;
        var k: nat :| k < n - 1 && Strayed(states, events, i, w, k);
      }
    }
  }

  /** Handlers that run to completion: no add is under way when its instance steps down, and everything
      closes. */
  ghost predicate Atomic(states: seq<State>, events: seq<Event>)
    requires Run(states, events)
  {
    forall k: nat, i: nat | k < |events| && SteppedDownAt(states, events, i, k) ::
      events[k].left == {} && states[k].instances[i].pending == map[]
  }

  ghost predicate NoTrace(s: State) {
    forall i | 0 <= i < |s.instances| ::
      s.instances[i].stray == {} && forall t | t in s.instances[i].pending :: !s.instances[i].pending[t].overlapped
  }

  lemma NoTraceKept(s: State, e: Event)
    requires Valid(s, e) && NoTrace(s)
    requires e.Check? && StepsDown(s, e.i) ==> e.left == {} && s.instances[e.i].pending == map[]
    ensures NoTrace(Step(s, e))
  {
  }

  lemma {:induction false} AtomicLeavesNoTrace(states: seq<State>, events: seq<Event>, n: nat)
    requires Run(states, events) && Atomic(states, events) && n <= |events|
    ensures NoTrace(states[n])
    decreases n
  {
    if n > 0 {
      AtomicLeavesNoTrace(states, events, n - 1);
      var e := events[n - 1];
      assert states[n - 1 + 1] == Step(states[n - 1], e);
      assert e.Check? && StepsDown(states[n - 1], e.i) ==> SteppedDownAt(states, events, e.i, n - 1);
      NoTraceKept(states[n - 1], e);
    }
  }

  /** With atomic handlers, triggers are in memory on leaders only; and while no leader is stale, which
      means at most one leader, no workflow is live on two instances. */
  lemma AtomicSingleOwner(states: seq<State>, events: seq<Event>, n: nat)
    requires Run(states, events) && Atomic(states, events) && n <= |events|
    ensures forall i | 0 <= i < |states[n].instances| && states[n].instances[i].memory != {} :: states[n].instances[i].leader
    ensures (forall i | 0 <= i < |states[n].instances| :: !Stale(states[n], i)) ==>
              forall i, j | 0 <= i < j < |states[n].instances| :: states[n].instances[i].memory !! states[n].instances[j].memory
  {
    InvOverRuns(states, events, n);
    AtomicLeavesNoTrace(states, events, n);
    var s := states[n];
    if forall i | 0 <= i < |s.instances| :: !Stale(s, i) {
      forall i, j | 0 <= i < j < |s.instances|
        ensures s.instances[i].memory !! s.instances[j].memory
      {
        assert !Stale(s, i) && !Stale(s, j);
        assert s.instances[i].memory == {} || s.instances[j].memory == {};
      }
    }
  }

  /** The expiry exception is real: the old leader has not checked when the new one takes over, and both
      run the workflow. */
  lemma TwoOwnersAfterExpiry()
    ensures exists states: seq<State>, events: seq<Event> ::
              && Run(states, events) && |states[|events|].instances| == 2
              && states[|events|].instances[0].memory == states[|events|].instances[1].memory == {"w"}
  {
    var blank := Instance(false, {}, map[], {});
    var live := Instance(true, {"w"}, map[], {});
    var adding := Instance(true, {}, map[0 := PendingAdd("w", true, false)], {});
    var s0 := State(Nobody, [blank, blank], 0);
    var states: seq<State>, events: seq<Event> := [s0], [];
    states, events := Extend(states, events, TryBecome(0), State(Held(0), [blank.(leader := true), blank], 0));
    states, events := Extend(states, events, BeginAdd(0, 0, "w"), State(Held(0), [adding, blank], 0));
    assert Finish(adding, 0, true) == live by {
      assert adding.pending - {0} == map[];
      assert adding.memory + {"w"} == {"w"};
    }
    states, events := Extend(states, events, FinishAdd(0, 0, true), State(Held(0), [live, blank], 0));
    states, events := Extend(states, events, Expire, State(Nobody, [live, blank], 0));
    states, events := Extend(states, events, TryBecome(1), State(Held(1), [live, blank.(leader := true)], 0));
    states, events := Extend(states, events, BeginAdd(1, 0, "w"), State(Held(1), [live, adding], 0));
    states, events := Extend(states, events, FinishAdd(1, 0, true), State(Held(1), [live, live], 0));
  }

  lemma Extend(states: seq<State>, events: seq<Event>, e: Event, s': State) returns (more: seq<State>, done: seq<Event>)
    requires Run(states, events)
    requires Valid(states[|events|], e) && s' == Step(states[|events|], e)
    ensures Run(more, done)
    ensures |done| == |events| + 1 && more[|done|] == s'
  {
    more, done := states + [s'], events + [e];
  }
}

/**
 The commands by which instances hand activations to the leader, compared with a single main instance
 executing the same calls itself.  The instances are past start-up, and who leads does not change.
 */
module ActivationCommands {

  datatype Command =
    | AddWebhooksTriggersAndPollers(workflowId: string)
    | RemoveTriggersAndPollers(workflowId: string)
    | DisplayActivation(workflowId: string)
    | DisplayDeactivation(workflowId: string)
    | DisplayActivationError(workflowId: string)

  predicate IsDisplay(c: Command) {
    c.DisplayActivation? || c.DisplayDeactivation? || c.DisplayActivationError?
  }

  /** `live` are the workflows with triggers or pollers, `reporting` those with a trigger, which can report an
      error later and can fail to close, and `lasting` those with a trigger that gives nothing to close. */
  datatype Kinds = Kinds(live: set<string>, reporting: set<string>, lasting: set<string>)

  /** `loose` are the workflows with an open trigger that is on no record, `adding` those whose activation has
      begun and not ended, and `queued` those with a retry timer running on this instance. */
  datatype Node = Node(multiMain: bool, leader: bool, memory: set<string>, loose: set<string>,
                       adding: multiset<string>, queued: set<string>)

  /** How the slow part of a step turns out.  An activation that breaks leaves the workflow recorded or not, a
      deactivation that breaks leaves it recorded or takes the record away from a trigger that stays open. */
  datatype How = Works | Breaks(active: bool, loose: bool)

  datatype Effect = Effect(node: Node, published: seq<Command>)

  datatype Call = Activate(workflowId: string) | Deactivate(workflowId: string)

  /** A new record.  If the workflow is active already, that loses the triggers on the old one. */
  function Register(n: Node, w: string, kinds: Kinds): Node {
    if w !in kinds.live then n
    else n.(memory := n.memory + {w},
            loose := if (w in n.memory && w in kinds.reporting) || w in kinds.lasting then n.loose + {w} else n.loose)
  }

  /** `add`, for an activation that succeeds. */
  function AddCall(n: Node, w: string, shouldPublish: bool, kinds: Kinds): Effect {
    if n.multiMain && shouldPublish then Effect(n, [AddWebhooksTriggersAndPollers(w)])
    else Effect((if n.leader then Register(n, w, kinds) else n).(queued := n.queued - {w}), [])
  }

  function RemoveCall(n: Node, w: string): Effect {
    if n.multiMain then Effect(n, [RemoveTriggersAndPollers(w)])
    else Effect(n.(memory := n.memory - {w}, queued := n.queued - {w}), [])
  }

  function Make(n: Node, c: Call, kinds: Kinds): Effect {
    match c
    case Activate(w) => AddCall(n, w, true, kinds)
    case Deactivate(w) => RemoveCall(n, w)
  }

  /** `ActiveWorkflows.remove`, where closing may fail with a throw, which keeps the record, or with a report. */
  function Close(n: Node, w: string, how: How): Node {
    if w !in n.memory || (how.Breaks? && how.active) then n
    else n.(memory := n.memory - {w}, loose := if how.Breaks? then n.loose + {w} else n.loose)
  }

  /** What may break: only a trigger fails to close or is left open, and only a workflow with a trigger, or
      one that is active already, is left active by an activation that breaks. */
  predicate CanBe(n: Node, w: string, activation: bool, how: How, kinds: Kinds) {
    how.Breaks? ==>
      if activation then (how.active ==> w in n.memory || w in kinds.reporting) && (how.loose ==> w in kinds.reporting)
      else w in kinds.reporting
  }

  function Broken(n: Node, w: string, how: How): Node
    requires how.Breaks?
  {
    n.(memory := if how.active then n.memory + {w} else n.memory - {w},
       loose := if how.loose then n.loose + {w} else n.loose)
  }

  /** The end of an activation that was overtaken by other commands; the role was looked at when it began. */
  function Finish(n: Node, w: string, how: How, kinds: Kinds): Effect {
    var rest := n.(adding := n.adding - multiset{w});
    if how.Works? then Effect(Register(rest, w, kinds).(queued := rest.queued - {w}), [DisplayActivation(w)])
    else Effect(Broken(rest, w, how), [DisplayActivationError(w)])
  }

  /** What an instance does with a command it receives; only the leader acts on the first two.  Removing
      triggers on command leaves the retry queue alone; it displays nothing if it throws. */
  function Handle(n: Node, c: Command, how: How, kinds: Kinds): Effect {
    match c
    case AddWebhooksTriggersAndPollers(w) =>
      if !n.leader then Effect(n, [])
      else if how.Works? then
        var added := AddCall(n, w, false, kinds);
        Effect(added.node, added.published + [DisplayActivation(w)])
      else Effect(Broken(n, w, how), [DisplayActivationError(w)])
    case RemoveTriggersAndPollers(w) =>
      if !n.leader then Effect(n, [])
      else Effect(Close(n, w, how), if w in n.memory && how.Breaks? && how.active then [] else [DisplayDeactivation(w)])
    case _ => Effect(n, [])
  }

  /** The instances, everything published so far, and how far each instance has got. */
  datatype Cluster = Cluster(nodes: seq<Node>, bus: seq<Command>, cursors: seq<nat>)

  datatype Event =
    | Issue(i: nat, call: Call)
    | Deliver(i: nat, how: How)                            // a command is handled
    | Begin(i: nat)                                        // the handling of an activation begins
    | End(i: nat, workflowId: string, how: How)            // ... and ends, others having been handled meanwhile
    | TriggerError(i: nat, workflowId: string, how: How)   // a trigger reports an error; `how` it closes
    | Fire(i: nat, workflowId: string)                     // a retry timer fires

  /** A trigger reports errors as long as it is open, on record or not. */
  predicate Valid(c: Cluster, e: Event, kinds: Kinds) {
    && |c.cursors| == |c.nodes|
    && e.i < |c.nodes|
    && match e
       case Issue(i, call) => true
       case Deliver(i, how) =>
         && c.cursors[i] < |c.bus|
         && CanBe(c.nodes[i], c.bus[c.cursors[i]].workflowId, c.bus[c.cursors[i]].AddWebhooksTriggersAndPollers?, how, kinds)
       case Begin(i) =>
         c.nodes[i].leader && c.cursors[i] < |c.bus| && c.bus[c.cursors[i]].AddWebhooksTriggersAndPollers?
       case End(i, w, how) => w in c.nodes[i].adding && CanBe(c.nodes[i], w, true, how, kinds)
       case TriggerError(i, w, how) =>
         w in kinds.reporting && (w in c.nodes[i].memory || w in c.nodes[i].loose)
       case Fire(i, w) => w in c.nodes[i].queued
  }

  function Take(c: Cluster, i: nat, f: Effect): Cluster
    requires i < |c.nodes|
  {
    c.(nodes := c.nodes[i := f.node], bus := c.bus + f.published)
  }

  function Step(c: Cluster, e: Event, kinds: Kinds): Cluster
    requires Valid(c, e, kinds)
  {
    match e
    case Issue(i, call) => Take(c, i, Make(c.nodes[i], call, kinds))
    case Deliver(i, how) =>
      Take(c, i, Handle(c.nodes[i], c.bus[c.cursors[i]], how, kinds)).(cursors := c.cursors[i := c.cursors[i] + 1])
    case Begin(i) =>
      var n := c.nodes[i].(adding := c.nodes[i].adding + multiset{c.bus[c.cursors[i]].workflowId});
      Take(c, i, Effect(n, [])).(cursors := c.cursors[i := c.cursors[i] + 1])
    case End(i, w, how) => Take(c, i, Finish(c.nodes[i], w, how, kinds))
    case TriggerError(i, w, how) =>
      var n := Close(c.nodes[i], w, how);
      Take(c, i, Effect(n.(queued := n.queued + {w}), []))
    case Fire(i, w) =>
      var n := c.nodes[i].(queued := c.nodes[i].queued - {w});
      Take(c, i, AddCall(n, w, true, kinds))
  }

  // ---------------------------------------------------------------------------
  // Refinement
  // ---------------------------------------------------------------------------

  /** A single main instance making the calls itself. */
  function SingleMain(n: Node, calls: seq<Call>, kinds: Kinds): Node {
    if calls == [] then n
    else Make(SingleMain(n, calls[..|calls| - 1], kinds), calls[|calls| - 1], kinds).node
  }

  function CallOf(c: Command): seq<Call> {
    match c
    case AddWebhooksTriggersAndPollers(w) => [Activate(w)]
    case RemoveTriggersAndPollers(w) => [Deactivate(w)]
    case _ => []
  }

  function DisplayOf(c: Command): seq<Command> {
    if IsDisplay(c) then [c] else []
  }

  /** The calls that published commands stand for. */
  function CallsOf(bus: seq<Command>): seq<Call> {
    if bus == [] then []
    else
      CallsOf(bus[..|bus| - 1]) + CallOf(bus[|bus| - 1])
  }

  function DisplaysOf(bus: seq<Command>): seq<Command> {
    if bus == [] then []
    else
      DisplaysOf(bus[..|bus| - 1]) + DisplayOf(bus[|bus| - 1])
  }

  function CommandFor(c: Call): Command {
    match c
    case Activate(w) => AddWebhooksTriggersAndPollers(w)
    case Deactivate(w) => RemoveTriggersAndPollers(w)
  }

  function DisplayFor(c: Call): Command {
    match c
    case Activate(w) => DisplayActivation(w)
    case Deactivate(w) => DisplayDeactivation(w)
  }

  function DisplaysFor(calls: seq<Call>): seq<Command> {
    seq(|calls|, i requires 0 <= i < |calls| => DisplayFor(calls[i]))
  }

  function Issued(events: seq<Event>): seq<Call> {
    if events == [] then []
    else
      Issued(events[..|events| - 1]) +
      match events[|events| - 1]
      case Issue(i, call) => [call]
      case _ => []
  }

  /** One step after the other, from whatever state. */
  ghost predicate Steps(states: seq<Cluster>, events: seq<Event>, kinds: Kinds) {
    && |states| == |events| + 1
    && forall i | 0 <= i < |events| :: Valid(states[i], events[i], kinds) && states[i + 1] == Step(states[i], events[i], kinds)
  }

  /** No trigger reports an error, activations and deactivations work, and commands are handled one at a time. */
  predicate Smooth(e: Event) {
    !e.TriggerError? && !e.Begin? && !e.End? && (e.Deliver? ==> e.how.Works?)
  }

  ghost predicate Run(states: seq<Cluster>, events: seq<Event>, leader: nat, kinds: Kinds) {
    && Steps(states, events, kinds)
    && (forall i | 0 <= i < |events| :: Smooth(events[i]))
    && states[0].bus == []
    && leader < |states[0].nodes| == |states[0].cursors|
    && (forall i | 0 <= i < |states[0].nodes| ::
          states[0].nodes[i] == Node(true, i == leader, {}, {}, multiset{}, {}) && states[0].cursors[i] == 0)
  }

  const SINGLE := Node(false, true, {}, {}, multiset{}, {})

  /** What a single main instance has in memory after the calls. */
  function MemoryOf(calls: seq<Call>, kinds: Kinds): set<string> {
    SingleMain(SINGLE, calls, kinds).memory
  }

  ghost predicate Shape(c: Cluster, leader: nat) {
    && leader < |c.nodes| == |c.cursors|
    && (forall i | 0 <= i < |c.nodes| ::
          && c.nodes[i].multiMain && c.nodes[i].leader == (i == leader) && c.nodes[i].queued == {}
          && c.cursors[i] <= |c.bus|
          && (i != leader ==> c.nodes[i].memory == {}))
  }

  /** The commands on the bus stand for the calls issued, and each of the first `k`, if it stands for a call, has
      been displayed. */
  ghost predicate BusOk(bus: seq<Command>, k: nat, issued: seq<Call>) {
    && k <= |bus|
    && CallsOf(bus) == issued
    && DisplaysOf(bus) == DisplaysFor(CallsOf(bus[..k]))
  }

  ghost predicate Inv(c: Cluster, leader: nat, kinds: Kinds, issued: seq<Call>) {
    && Shape(c, leader)
    && BusOk(c.bus, c.cursors[leader], issued)
    && c.nodes[leader].memory == MemoryOf(CallsOf(c.bus[..c.cursors[leader]]), kinds)
  }

  lemma CallsOfOne(bus: seq<Command>, c: Command)
    ensures CallsOf(bus + [c]) == CallsOf(bus) + CallOf(c)
    ensures DisplaysOf(bus + [c]) == DisplaysOf(bus) + DisplayOf(c)
  {
    var more := bus + [c];
    assert more[..|more| - 1] == bus;
  }

  lemma DisplaysForOne(calls: seq<Call>, c: Call)
    ensures DisplaysFor(calls + [c]) == DisplaysFor(calls) + [DisplayFor(c)]
  {
  }

  lemma {:induction false} SingleStays(calls: seq<Call>, kinds: Kinds)
    ensures var n := SingleMain(SINGLE, calls, kinds); !n.multiMain && n.leader
    decreases |calls|
  {
    if calls != [] {
      SingleStays(calls[..|calls| - 1], kinds);
    }
  }

  lemma SingleOne(calls: seq<Call>, c: Call, kinds: Kinds)
    ensures SingleMain(SINGLE, calls + [c], kinds) == Make(SingleMain(SINGLE, calls, kinds), c, kinds).node
  {
  }

  lemma SamePrefix(bus: seq<Command>, k: nat, c: Command)
    requires k <= |bus|
    ensures (bus + [c])[..k] == bus[..k]
    ensures k < |bus| ==> (bus + [c])[..k + 1] == bus[..k] + [bus[k]]
  {
  }

  lemma IssuedBus(bus: seq<Command>, k: nat, issued: seq<Call>, call: Call)
    requires BusOk(bus, k, issued)
    ensures BusOk(bus + [CommandFor(call)], k, issued + [call])
    ensures (bus + [CommandFor(call)])[..k] == bus[..k]
  {
    var c := CommandFor(call);
    CallsOfOne(bus, c);
    SamePrefix(bus, k, c);
    assert DisplaysOf(bus) + [] == DisplaysOf(bus);
  }

  /** The command at `k` is handled and displayed. */
  lemma HandledBus(bus: seq<Command>, k: nat, issued: seq<Call>, call: Call)
    requires BusOk(bus, k, issued) && k < |bus| && bus[k] == CommandFor(call)
    ensures BusOk(bus + [DisplayFor(call)], k + 1, issued)
    ensures CallsOf((bus + [DisplayFor(call)])[..k + 1]) == CallsOf(bus[..k]) + [call]
  {
    var d := DisplayFor(call);
    CallsOfOne(bus, d);
    assert CallsOf(bus) + [] == CallsOf(bus);
    SamePrefix(bus, k, d);
    CallsOfOne(bus[..k], bus[k]);
    DisplaysForOne(CallsOf(bus[..k]), call);
  }

  lemma DisplayedBus(bus: seq<Command>, k: nat, issued: seq<Call>)
    requires BusOk(bus, k, issued) && k < |bus| && IsDisplay(bus[k])
    ensures BusOk(bus, k + 1, issued)
    ensures CallsOf(bus[..k + 1]) == CallsOf(bus[..k])
  {
    assert bus[..k + 1] == bus[..k] + [bus[k]];
    CallsOfOne(bus[..k], bus[k]);
    assert CallsOf(bus[..k]) + [] == CallsOf(bus[..k]);
  }

  lemma IssueInv(c: Cluster, i: nat, call: Call, leader: nat, kinds: Kinds, issued: seq<Call>)
    requires Inv(c, leader, kinds, issued) && Valid(c, Issue(i, call), kinds)
    ensures Inv(Step(c, Issue(i, call), kinds), leader, kinds, issued + [call])
  {
    IssuedBus(c.bus, c.cursors[leader], issued, call);
    IssuedStep(c, i, call, leader, kinds);
  }

  lemma IssuedStep(c: Cluster, i: nat, call: Call, leader: nat, kinds: Kinds)
    requires Shape(c, leader) && Valid(c, Issue(i, call), kinds)
    ensures Step(c, Issue(i, call), kinds) == c.(bus := c.bus + [CommandFor(call)])
  {
  }

  lemma DeliverElsewhereInv(c: Cluster, i: nat, how: How, leader: nat, kinds: Kinds, issued: seq<Call>)
    requires Inv(c, leader, kinds, issued) && Valid(c, Deliver(i, how), kinds) && i != leader
    ensures Inv(Step(c, Deliver(i, how), kinds), leader, kinds, issued)
  {
    assert Step(c, Deliver(i, how), kinds) == c.(cursors := c.cursors[i := c.cursors[i] + 1]);
  }

  /** The leader handles a command that stands for a call: it makes the call and displays it. */
  lemma HandledInv(c: Cluster, leader: nat, kinds: Kinds, issued: seq<Call>, call: Call)
    requires Inv(c, leader, kinds, issued) && Valid(c, Deliver(leader, Works), kinds)
    requires c.bus[c.cursors[leader]] == CommandFor(call)
    ensures Inv(Step(c, Deliver(leader, Works), kinds), leader, kinds, issued)
  {
    HandledBus(c.bus, c.cursors[leader], issued, call);
    HandledStep(c, leader, kinds, call);
    HandledMemory(c.nodes[leader], CallsOf(c.bus[..c.cursors[leader]]), call, kinds);
  }

  lemma HandledMemory(n: Node, before: seq<Call>, call: Call, kinds: Kinds)
    requires n.multiMain && n.leader && n.memory == MemoryOf(before, kinds)
    ensures Handle(n, CommandFor(call), Works, kinds).node.memory == MemoryOf(before + [call], kinds)
  {
    SingleStays(before, kinds);
    SingleOne(before, call, kinds);
  }

  lemma HandledStep(c: Cluster, leader: nat, kinds: Kinds, call: Call)
    requires Shape(c, leader) && Valid(c, Deliver(leader, Works), kinds)
    requires c.bus[c.cursors[leader]] == CommandFor(call)
    ensures var f, c' := Handle(c.nodes[leader], CommandFor(call), Works, kinds), Step(c, Deliver(leader, Works), kinds);
            && c'.bus == c.bus + [DisplayFor(call)]
            && c'.cursors == c.cursors[leader := c.cursors[leader] + 1]
            && c'.nodes == c.nodes[leader := f.node]
            && Shape(c', leader)
  {
  }

  lemma DisplayedInv(c: Cluster, leader: nat, kinds: Kinds, issued: seq<Call>)
    requires Inv(c, leader, kinds, issued) && Valid(c, Deliver(leader, Works), kinds)
    requires IsDisplay(c.bus[c.cursors[leader]])
    ensures Inv(Step(c, Deliver(leader, Works), kinds), leader, kinds, issued)
  {
    var k := c.cursors[leader];
    DisplayedBus(c.bus, k, issued);
    DisplayedStep(c, leader, kinds);
  }

  lemma DisplayedStep(c: Cluster, leader: nat, kinds: Kinds)
    requires Shape(c, leader) && Valid(c, Deliver(leader, Works), kinds)
    requires IsDisplay(c.bus[c.cursors[leader]])
    ensures Step(c, Deliver(leader, Works), kinds) == c.(cursors := c.cursors[leader := c.cursors[leader] + 1])
  {
  }

  lemma DeliverToLeaderInv(c: Cluster, leader: nat, kinds: Kinds, issued: seq<Call>)
    requires Inv(c, leader, kinds, issued) && Valid(c, Deliver(leader, Works), kinds)
    ensures Inv(Step(c, Deliver(leader, Works), kinds), leader, kinds, issued)
  {
    match c.bus[c.cursors[leader]]
    case AddWebhooksTriggersAndPollers(w) => HandledInv(c, leader, kinds, issued, Activate(w));
    case RemoveTriggersAndPollers(w) => HandledInv(c, leader, kinds, issued, Deactivate(w));
    case _ => DisplayedInv(c, leader, kinds, issued);
  }

  lemma StepInv(c: Cluster, e: Event, leader: nat, kinds: Kinds, issued: seq<Call>)
    requires Inv(c, leader, kinds, issued) && Valid(c, e, kinds) && Smooth(e)
    ensures Inv(Step(c, e, kinds), leader, kinds, issued + if e.Issue? then [e.call] else [])
  {
    if e.Issue? {
      IssueInv(c, e.i, e.call, leader, kinds, issued);
    } else {
      assert issued + [] == issued;
      if e.Deliver? && e.i == leader {
        DeliverToLeaderInv(c, leader, kinds, issued);
      } else if e.Deliver? {
        DeliverElsewhereInv(c, e.i, e.how, leader, kinds, issued);
      }
    }
  }

  lemma {:induction false} InvOverRuns(states: seq<Cluster>, events: seq<Event>, leader: nat,
        kinds: Kinds, n: nat)
    requires Run(states, events, leader, kinds) && n <= |events|
    ensures Inv(states[n], leader, kinds, Issued(events[..n]))
    decreases n
  {
    if n == 0 {
      assert states[0].bus[..0] == [];
      assert Issued(events[..0]) == [];
    } else {
      InvOverRuns(states, events, leader, kinds, n - 1);
      assert states[n - 1 + 1] == Step(states[n - 1], events[n - 1], kinds);
      assert events[..n][..n - 1] == events[..n - 1] && events[..n][n - 1] == events[n - 1];
      StepInv(states[n - 1], events[n - 1], leader, kinds, Issued(events[..n - 1]));
    }
  }

  /** In every run with a stable leader, in which commands are handled one at a time and work and no trigger reports
      an error, the commands published are the calls
      issued, in that order and none twice; what the leader has handled is a prefix of them; its memory is
      that of a single main instance that made the calls of that prefix, and exactly one display command
      follows each of them.  Once the leader has caught up, that covers all the calls. */
  lemma RefinesSingleMain(states: seq<Cluster>, events: seq<Event>, leader: nat, kinds: Kinds, n: nat)
    requires Run(states, events, leader, kinds) && n <= |events|
    ensures Inv(states[n], leader, kinds, Issued(events[..n]))
    ensures states[n].cursors[leader] == |states[n].bus| ==>
              && states[n].nodes[leader].memory == MemoryOf(Issued(events[..n]), kinds)
              && DisplaysOf(states[n].bus) == DisplaysFor(Issued(events[..n]))
  {
    InvOverRuns(states, events, leader, kinds, n);
    assert states[n].bus[..|states[n].bus|] == states[n].bus;
  }

  /** What that memory holds, told by the calls alone: a workflow with triggers or pollers that was activated and
      not deactivated after that. */
  lemma {:induction false} MemoryOfExactly(calls: seq<Call>, kinds: Kinds, w: string)
    ensures w in MemoryOf(calls, kinds) <==> w in kinds.live && ActivatedLast(calls, w)
    decreases |calls|
  {
    if calls != [] {
      var k := |calls| - 1;
      MemoryOfExactly(calls[..k], kinds, w);
      SingleStays(calls[..k], kinds);
      LastCall(calls[..k], calls[k], w);
      assert calls[..k] + [calls[k]] == calls;
    }
  }

  ghost predicate ActivatedLast(calls: seq<Call>, w: string) {
    exists i | 0 <= i < |calls| :: calls[i] == Activate(w) && forall j | i < j < |calls| :: calls[j] != Deactivate(w)
  }

  lemma LastCall(calls: seq<Call>, c: Call, w: string)
    ensures ActivatedLast(calls + [c], w) <==> c == Activate(w) || (c != Deactivate(w) && ActivatedLast(calls, w))
  {
    var more := calls + [c];
    assert forall i | 0 <= i < |calls| :: more[i] == calls[i];
    assert more[|calls|] == c;
  }

  /** The leader that has caught up runs exactly the workflows that the calls issued leave activated. */
  lemma LeaderRunsExactly(states: seq<Cluster>, events: seq<Event>, leader: nat, kinds: Kinds, n: nat, w: string)
    requires Run(states, events, leader, kinds) && n <= |events|
    requires leader < |states[n].nodes| && leader < |states[n].cursors|
    requires states[n].cursors[leader] == |states[n].bus|
    ensures w in states[n].nodes[leader].memory <==> w in kinds.live && ActivatedLast(Issued(events[..n]), w)
  {
    RefinesSingleMain(states, events, leader, kinds, n);
    MemoryOfExactly(Issued(events[..n]), kinds, w);
  }

  // ---------------------------------------------------------------------------
  // Frames
  // ---------------------------------------------------------------------------

  /** Whatever instance `n` has of workflow `v`, instance `n'` has too, and no more. */
  predicate SameOf(n: Node, n': Node, v: string) {
    && (v in n'.memory <==> v in n.memory)
    && (v in n'.loose <==> v in n.loose)
    && n'.adding[v] == n.adding[v]
    && (v in n'.queued <==> v in n.queued)
  }

  /** The workflow that a step is about. */
  function About(c: Cluster, e: Event, kinds: Kinds): string
    requires Valid(c, e, kinds)
  {
    match e
    case Issue(i, call) => call.workflowId
    case Deliver(i, how) => c.bus[c.cursors[i]].workflowId
    case Begin(i) => c.bus[c.cursors[i]].workflowId
    case End(i, w, how) => w
    case TriggerError(i, w, how) => w
    case Fire(i, w) => w
  }

  lemma HandleFrame(n: Node, c: Command, how: How, kinds: Kinds, v: string)
    requires v != c.workflowId
    ensures SameOf(n, Handle(n, c, how, kinds).node, v)
  {
  }

  lemma FinishFrame(n: Node, w: string, how: How, kinds: Kinds, v: string)
    requires v != w
    ensures SameOf(n, Finish(n, w, how, kinds).node, v)
  {
  }

  /** No step touches another workflow, on any instance; and none touches another instance. */
  lemma StepFrame(c: Cluster, e: Event, kinds: Kinds, j: nat, v: string)
    requires Valid(c, e, kinds) && j < |c.nodes|
    ensures j != e.i ==> Step(c, e, kinds).nodes[j] == c.nodes[j]
    ensures v != About(c, e, kinds) ==> SameOf(c.nodes[j], Step(c, e, kinds).nodes[j], v)
  {
    if e.i == j && v != About(c, e, kinds) {
      match e
      case Deliver(i, how) => HandleFrame(c.nodes[i], c.bus[c.cursors[i]], how, kinds, v);
      case End(i, w, how) => FinishFrame(c.nodes[i], w, how, kinds, v);
      case _ =>
    }
  }

  // ---------------------------------------------------------------------------
  // Deactivation and retries
  // ---------------------------------------------------------------------------

  /** Several main instances, one of which leads. */
  ghost predicate Led(c: Cluster, leader: nat) {
    && leader < |c.nodes| == |c.cursors|
    && forall k | 0 <= k < |c.nodes| ::
         c.nodes[k].multiMain && c.nodes[k].leader == (k == leader) && c.cursors[k] <= |c.bus|
  }

  predicate Activates(e: Event, w: string) {
    e.Issue? && e.call == Activate(w)
  }

  lemma LedKept(c: Cluster, e: Event, leader: nat, kinds: Kinds)
    requires Led(c, leader) && Valid(c, e, kinds)
    ensures Led(Step(c, e, kinds), leader)
    ensures c.bus <= Step(c, e, kinds).bus
  {
  }

  /** The leader has yet to handle a command to add the workflow. */
  ghost predicate AddUnhandled(c: Cluster, leader: nat, w: string)
    requires Led(c, leader)
  {
    exists k | c.cursors[leader] <= k < |c.bus| :: c.bus[k] == AddWebhooksTriggersAndPollers(w)
  }

  predicate OpenOn(n: Node, w: string) {
    w in n.memory || w in n.loose || w in n.adding
  }

  /** The workflow can find its way back: a retry timer for it runs somewhere; or the leader is activating it or
      has yet to handle a command to do so; or a trigger of it is open somewhere, or about to be. */
  ghost predicate CanReturn(c: Cluster, leader: nat, w: string, kinds: Kinds)
    requires Led(c, leader)
  {
    || (exists j | 0 <= j < |c.nodes| :: w in c.nodes[j].queued)
    || AddUnhandled(c, leader, w) || w in c.nodes[leader].adding
    || (w in kinds.reporting && exists j | 0 <= j < |c.nodes| :: OpenOn(c.nodes[j], w))
  }

  /** The workflow cannot return, no command to add it is on the bus from `from` on; and once the leader has got
      that far, the workflow is not in its memory. */
  ghost predicate Away(c: Cluster, leader: nat, w: string, kinds: Kinds, from: nat)
    requires Led(c, leader)
  {
    && !CanReturn(c, leader, w, kinds)
    && (forall k | from <= k < |c.bus| :: c.bus[k] != AddWebhooksTriggersAndPollers(w))
    && (c.cursors[leader] >= from ==> w !in c.nodes[leader].memory)
  }

  /** An instance without a timer or an open trigger of the workflow. */
  predicate Quiet(n: Node, w: string, kinds: Kinds) {
    w !in n.queued && (w in kinds.reporting ==> !OpenOn(n, w))
  }

  lemma HandleQuiet(n: Node, c: Command, how: How, w: string, kinds: Kinds)
    requires Quiet(n, w, kinds) && !(n.leader && c == AddWebhooksTriggersAndPollers(w))
    ensures Quiet(Handle(n, c, how, kinds).node, w, kinds)
  {
  }

  lemma FinishQuiet(n: Node, v: string, how: How, w: string, kinds: Kinds)
    requires Quiet(n, w, kinds) && v in n.adding
    ensures Quiet(Finish(n, v, how, kinds).node, w, kinds)
  {
  }

  /** The leader turns to a command to add the workflow. */
  predicate TurnsTo(c: Cluster, e: Event, w: string, kinds: Kinds)
    requires Valid(c, e, kinds)
  {
    (e.Deliver? || e.Begin?) && c.nodes[e.i].leader && c.bus[c.cursors[e.i]] == AddWebhooksTriggersAndPollers(w)
  }

  lemma NodeStaysQuiet(c: Cluster, e: Event, w: string, kinds: Kinds, j: nat)
    requires Valid(c, e, kinds) && j < |c.nodes| && !TurnsTo(c, e, w, kinds)
    requires Quiet(c.nodes[j], w, kinds) && c.nodes[j].multiMain
    ensures Quiet(Step(c, e, kinds).nodes[j], w, kinds)
  {
    if e.i == j {
      match e
      case Deliver(i, how) => HandleQuiet(c.nodes[i], c.bus[c.cursors[i]], how, w, kinds);
      case End(i, v, how) => FinishQuiet(c.nodes[i], v, how, w, kinds);
      case _ =>
    }
  }

  lemma NobodyTurnsTo(c: Cluster, e: Event, leader: nat, w: string, kinds: Kinds)
    requires Led(c, leader) && Valid(c, e, kinds) && !AddUnhandled(c, leader, w)
    ensures !TurnsTo(c, e, w, kinds)
  {
  }

  /** Nobody publishes a command to add the workflow but a timer of it. */
  lemma NothingPublished(c: Cluster, e: Event, w: string, kinds: Kinds)
    requires Valid(c, e, kinds) && !Activates(e, w)
    requires forall j | 0 <= j < |c.nodes| :: w !in c.nodes[j].queued && c.nodes[j].multiMain
    ensures var c' := Step(c, e, kinds);
            && c.bus <= c'.bus
            && forall k | |c.bus| <= k < |c'.bus| :: c'.bus[k] != AddWebhooksTriggersAndPollers(w)
  {
  }

  /** Staying away survives every step but an activation, whatever works or breaks in it. */
  lemma AwayKept(c: Cluster, e: Event, leader: nat, w: string, from: nat, kinds: Kinds)
    requires Led(c, leader) && Away(c, leader, w, kinds, from) && Valid(c, e, kinds) && !Activates(e, w)
    requires 0 < from <= |c.bus| && c.bus[from - 1] == RemoveTriggersAndPollers(w)
    ensures Led(Step(c, e, kinds), leader) && Away(Step(c, e, kinds), leader, w, kinds, from)
    ensures var c' := Step(c, e, kinds); from <= |c'.bus| && c'.bus[from - 1] == RemoveTriggersAndPollers(w)
  {
    var c' := Step(c, e, kinds);
    LedKept(c, e, leader, kinds);
    NothingPublished(c, e, w, kinds);
    NobodyTurnsTo(c, e, leader, w, kinds);
    forall j: nat | j < |c.nodes| ensures Quiet(c'.nodes[j], w, kinds) {
      NodeStaysQuiet(c, e, w, kinds, j);
    }
    LeaderStaysQuiet(c, e, leader, w, from, kinds);
  }

  lemma LeaderStaysQuiet(c: Cluster, e: Event, leader: nat, w: string, from: nat, kinds: Kinds)
    requires Led(c, leader) && Away(c, leader, w, kinds, from) && Valid(c, e, kinds) && !TurnsTo(c, e, w, kinds)
    requires 0 < from <= |c.bus| && c.bus[from - 1] == RemoveTriggersAndPollers(w)
    ensures w !in Step(c, e, kinds).nodes[leader].adding
    ensures Step(c, e, kinds).cursors[leader] >= from ==> w !in Step(c, e, kinds).nodes[leader].memory
  {
    if e.i == leader && e.Deliver? {
      HandleKeepsOut(c.nodes[leader], c.bus[c.cursors[leader]], e.how, w, kinds);
    } else if e.i == leader && e.End? {
      FinishKeepsOut(c.nodes[leader], e.workflowId, e.how, w, kinds);
    }
  }

  /** Handling a removal of the workflow that works, or anything but an addition while it is not in memory. */
  lemma HandleKeepsOut(n: Node, c: Command, how: How, w: string, kinds: Kinds)
    requires n.leader && w !in n.adding && c != AddWebhooksTriggersAndPollers(w)
    requires CanBe(n, c.workflowId, c.AddWebhooksTriggersAndPollers?, how, kinds)
    ensures var n' := Handle(n, c, how, kinds).node;
            && w !in n'.adding
            && (w !in n.memory || (c == RemoveTriggersAndPollers(w) && w !in kinds.reporting) ==> w !in n'.memory)
  {
  }

  lemma FinishKeepsOut(n: Node, v: string, how: How, w: string, kinds: Kinds)
    requires v in n.adding && w !in n.adding
    ensures var n' := Finish(n, v, how, kinds).node; w !in n'.adding && (w !in n.memory ==> w !in n'.memory)
  {
  }

  /** The first event deactivates the workflow, on instance `i`, and nobody activates it later. */
  ghost predicate DeactivatedFirst(states: seq<Cluster>, events: seq<Event>, i: nat, w: string, kinds: Kinds) {
    && Steps(states, events, kinds)
    && events != [] && events[0] == Issue(i, Deactivate(w))
    && forall k | 0 <= k < |events| :: !Activates(events[k], w)
  }

  /** A workflow that cannot return when it is deactivated is, at every later position of every run, neither on
      its way back nor in the memory of a leader that is past the removal. */
  lemma {:induction false} StaysAway(states: seq<Cluster>, events: seq<Event>, i: nat, leader: nat, w: string,
        kinds: Kinds, n: nat)
    requires DeactivatedFirst(states, events, i, w, kinds) && Led(states[0], leader)
    requires !CanReturn(states[0], leader, w, kinds)
    requires 1 <= n <= |events|
    ensures var from := |states[0].bus| + 1;
            && Led(states[n], leader) && Away(states[n], leader, w, kinds, from)
            && from <= |states[n].bus| && states[n].bus[from - 1] == RemoveTriggersAndPollers(w)
    decreases n
  {
    if n == 1 {
      assert states[0 + 1] == Step(states[0], events[0], kinds);
      LedKept(states[0], events[0], leader, kinds);
    } else {
      StaysAway(states, events, i, leader, w, kinds, n - 1);
      assert states[n - 1 + 1] == Step(states[n - 1], events[n - 1], kinds);
      AwayKept(states[n - 1], events[n - 1], leader, w, |states[0].bus| + 1, kinds);
    }
  }

  /** The run ends with the leader past the removal, and the workflow in its memory. */
  ghost predicate EndsActive(states: seq<Cluster>, leader: nat, w: string) {
    && states != []
    && var last := states[|states| - 1];
       leader < |last.nodes| && leader < |last.cursors|
       && last.cursors[leader] > |states[0].bus| && w in last.nodes[leader].memory
  }

  ghost predicate ComesBack(c: Cluster, i: nat, leader: nat, w: string, kinds: Kinds) {
    exists states: seq<Cluster>, events: seq<Event> ::
      DeactivatedFirst(states, events, i, w, kinds) && states[0] == c && EndsActive(states, leader, w)
  }

  /**
   A deactivated workflow can be active again, with nobody activating it and the leader past its removal,
   exactly when, at its deactivation,
   - a retry timer for it was running somewhere: handling the removal leaves the retry queue alone, and an
     activation on command does not look at whether the workflow is active;
   - or the leader was activating it or had yet to handle a command to do so: the removal can overtake that;
   - or it has a trigger that was open on some instance, or about to be: an error that the trigger reports
     before it is closed queues a retry.
   Otherwise no run whatsoever brings it back.
   */
  lemma ComesBackExactly(c: Cluster, i: nat, leader: nat, w: string, kinds: Kinds)
    requires Led(c, leader) && i < |c.nodes| && w in kinds.live
    ensures ComesBack(c, i, leader, w, kinds) <==> CanReturn(c, leader, w, kinds)
  {
    if CanReturn(c, leader, w, kinds) {
      BringsBack(c, i, leader, w, kinds);
    } else if states: seq<Cluster>, events: seq<Event> :|
        DeactivatedFirst(states, events, i, w, kinds) && states[0] == c && EndsActive(states, leader, w) {
      StaysAway(states, events, i, leader, w, kinds, |events|);
    }
  }

  /** The leader takes delivery until it has handled the first `upTo` commands. */
  lemma {:induction false} CatchUp(states: seq<Cluster>, events: seq<Event>, i: nat, leader: nat, w: string,
        kinds: Kinds, upTo: nat)
    returns (more: seq<Cluster>, done: seq<Event>)
    requires DeactivatedFirst(states, events, i, w, kinds)
    requires Led(states[|events|], leader) && states[|events|].cursors[leader] <= upTo <= |states[|events|].bus|
    ensures DeactivatedFirst(more, done, i, w, kinds) && more[0] == states[0]
    ensures Led(more[|done|], leader) && more[|done|].cursors[leader] == upTo
    ensures states[|events|].bus <= more[|done|].bus
    ensures more[|done|].nodes[leader].adding == states[|events|].nodes[leader].adding
    decreases upTo - states[|events|].cursors[leader]
  {
    more, done := states, events;
    var last := states[|events|];
    if last.cursors[leader] < upTo {
      more, done := Extend(states, events, i, w, kinds, Deliver(leader, Works));
      LedKept(last, Deliver(leader, Works), leader, kinds);
      more, done := CatchUp(more, done, i, leader, w, kinds, upTo);
    }
  }

  lemma Extend(states: seq<Cluster>, events: seq<Event>, i: nat, w: string, kinds: Kinds, e: Event)
    returns (more: seq<Cluster>, done: seq<Event>)
    requires DeactivatedFirst(states, events, i, w, kinds)
    requires Valid(states[|events|], e, kinds) && !Activates(e, w)
    ensures DeactivatedFirst(more, done, i, w, kinds) && more[0] == states[0]
    ensures |done| == |events| + 1 && more[|done|] == Step(states[|events|], e, kinds)
  {
    more, done := states + [Step(states[|events|], e, kinds)], events + [e];
  }

  /** The leader handles everything up to a command to add the workflow, and that one too. */
  lemma HandleAdd(states: seq<Cluster>, events: seq<Event>, i: nat, leader: nat, w: string, kinds: Kinds, at: nat)
    returns (more: seq<Cluster>, done: seq<Event>)
    requires DeactivatedFirst(states, events, i, w, kinds) && w in kinds.live
    requires Led(states[|events|], leader) && states[|events|].cursors[leader] <= at < |states[|events|].bus|
    requires states[|events|].bus[at] == AddWebhooksTriggersAndPollers(w)
    ensures DeactivatedFirst(more, done, i, w, kinds) && more[0] == states[0]
    ensures Led(more[|done|], leader) && more[|done|].cursors[leader] == at + 1
    ensures states[|events|].bus <= more[|done|].bus
    ensures w in more[|done|].nodes[leader].memory
  {
    more, done := CatchUp(states, events, i, leader, w, kinds, at);
    var last := more[|done|];
    assert last.bus[at] == AddWebhooksTriggersAndPollers(w);
    LedKept(last, Deliver(leader, Works), leader, kinds);
    more, done := Extend(more, done, i, w, kinds, Deliver(leader, Works));
  }

  /** With a timer running on instance `j`: it fires, and the leader handles the command it publishes. */
  lemma TimerBringsBack(states: seq<Cluster>, events: seq<Event>, i: nat, j: nat, leader: nat, w: string, kinds: Kinds)
    requires DeactivatedFirst(states, events, i, w, kinds) && w in kinds.live
    requires Led(states[|events|], leader) && |states[0].bus| < |states[|events|].bus|
    requires j < |states[|events|].nodes| && w in states[|events|].nodes[j].queued
    ensures ComesBack(states[0], i, leader, w, kinds)
  {
    var last := states[|events|];
    LedKept(last, Fire(j, w), leader, kinds);
    var more, done := Extend(states, events, i, w, kinds, Fire(j, w));
    assert more[|done|].bus[|last.bus|] == AddWebhooksTriggersAndPollers(w);
    more, done := HandleAdd(more, done, i, leader, w, kinds, |last.bus|);
    assert EndsActive(more, leader, w);
  }

  /** With a trigger open on instance `j`: it reports an error, which sets a timer. */
  lemma ErrorBringsBack(states: seq<Cluster>, events: seq<Event>, i: nat, j: nat, leader: nat, w: string, kinds: Kinds)
    requires DeactivatedFirst(states, events, i, w, kinds) && w in kinds.live && w in kinds.reporting
    requires Led(states[|events|], leader) && |states[0].bus| < |states[|events|].bus|
    requires j < |states[|events|].nodes|
    requires w in states[|events|].nodes[j].memory || w in states[|events|].nodes[j].loose
    ensures ComesBack(states[0], i, leader, w, kinds)
  {
    LedKept(states[|events|], TriggerError(j, w, Works), leader, kinds);
    var more, done := Extend(states, events, i, w, kinds, TriggerError(j, w, Works));
    TimerBringsBack(more, done, i, j, leader, w, kinds);
  }

  /** With the leader activating the workflow: the removal overtakes the activation. */
  lemma OvertakenBringsBack(states: seq<Cluster>, events: seq<Event>, i: nat, leader: nat, w: string, kinds: Kinds)
    requires DeactivatedFirst(states, events, i, w, kinds) && w in kinds.live
    requires Led(states[|events|], leader)
    requires states[|events|].cursors[leader] <= |states[0].bus| < |states[|events|].bus|
    requires w in states[|events|].nodes[leader].adding
    ensures ComesBack(states[0], i, leader, w, kinds)
  {
    var more, done := CatchUp(states, events, i, leader, w, kinds, |states[0].bus| + 1);
    LedKept(more[|done|], End(leader, w, Works), leader, kinds);
    more, done := Extend(more, done, i, w, kinds, End(leader, w, Works));
    assert EndsActive(more, leader, w);
  }

  /** With a command to add the workflow on the bus: its handling begins and is overtaken. */
  lemma CommandBringsBack(states: seq<Cluster>, events: seq<Event>, i: nat, leader: nat, w: string,
        kinds: Kinds, k: nat)
    requires DeactivatedFirst(states, events, i, w, kinds) && w in kinds.live
    requires Led(states[|events|], leader) && |states[0].bus| < |states[|events|].bus|
    requires states[|events|].cursors[leader] <= k < |states[0].bus|
    requires states[|events|].bus[k] == AddWebhooksTriggersAndPollers(w)
    ensures ComesBack(states[0], i, leader, w, kinds)
  {
    var more, done := CatchUp(states, events, i, leader, w, kinds, k);
    assert more[|done|].bus[k] == AddWebhooksTriggersAndPollers(w);
    LedKept(more[|done|], Begin(leader), leader, kinds);
    more, done := Extend(more, done, i, w, kinds, Begin(leader));
    OvertakenBringsBack(more, done, i, leader, w, kinds);
  }

  /** With a trigger about to be open on some instance: the activation ends, and the trigger reports. */
  lemma OpeningBringsBack(states: seq<Cluster>, events: seq<Event>, i: nat, j: nat, leader: nat, w: string,
        kinds: Kinds)
    requires DeactivatedFirst(states, events, i, w, kinds) && w in kinds.live && w in kinds.reporting
    requires Led(states[|events|], leader) && |states[0].bus| < |states[|events|].bus|
    requires j < |states[|events|].nodes| && w in states[|events|].nodes[j].adding
    ensures ComesBack(states[0], i, leader, w, kinds)
  {
    LedKept(states[|events|], End(j, w, Works), leader, kinds);
    var more, done := Extend(states, events, i, w, kinds, End(j, w, Works));
    ErrorBringsBack(more, done, i, j, leader, w, kinds);
  }

  /** Everything that takes the workflow back happens right after the deactivation. */
  lemma BringsBack(c: Cluster, i: nat, leader: nat, w: string, kinds: Kinds)
    requires Led(c, leader) && i < |c.nodes| && w in kinds.live
    requires CanReturn(c, leader, w, kinds)
    ensures ComesBack(c, i, leader, w, kinds)
  {
    var e := Issue(i, Deactivate(w));
    LedKept(c, e, leader, kinds);
    var states, events := [c, Step(c, e, kinds)], [e];
    if j: nat :| j < |c.nodes| && w in c.nodes[j].queued {
      TimerBringsBack(states, events, i, j, leader, w, kinds);
    } else if w in c.nodes[leader].adding {
      OvertakenBringsBack(states, events, i, leader, w, kinds);
    } else if k: nat :| c.cursors[leader] <= k < |c.bus| && c.bus[k] == AddWebhooksTriggersAndPollers(w) {
      CommandBringsBack(states, events, i, leader, w, kinds, k);
    } else {
      var j: nat :| j < |c.nodes| && OpenOn(c.nodes[j], w);
      if w in c.nodes[j].adding {
        OpeningBringsBack(states, events, i, j, leader, w, kinds);
      } else {
        ErrorBringsBack(states, events, i, j, leader, w, kinds);
      }
    }
  }
}
