/**
 A retry taken apart at its await.  From when its timer fires until its attempt has ended, other steps may
 work on the queue entry of the same workflow, and the retry does not notice.
 */
module Retries {
  import opened Activation
  import opened ActivationMode
  import opened ActiveWorkflows
  import opened Wrappers

  /** One workflow, with the jobs of the timers that have fired and whose attempts have not ended. */
  datatype Split = Split(local: Local, awaiting: map<nat, Job>)

  datatype Move =
    | Whole(step: Step)
    | Begin(timer: nat)
    | End(timer: nat, env: Env)

  predicate Enabled(s: Split, m: Move) {
    match m
    case Whole(step) => !step.Retry? && Activation.Enabled(s.local, step)
    case Begin(timer) => timer in s.local.timers
    case End(timer, env) => timer in s.awaiting
  }

  function EndRetry(l: Local, job: Job, env: Env): Local {
    var env1 := env.(active := job.active);
    var l1 := Attempt(l, job.mode, env1);
    if EndOf(job.mode, env1).Failed? && l1.entry.Some? then Rearmed(l1, job) else l1
  }

  function Do(s: Split, m: Move): Split
    requires Enabled(s, m)
  {
    match m
    case Whole(step) => s.(local := Activation.Do(s.local, step))
    case Begin(timer) =>
      Split(s.local.(timers := s.local.timers - {timer}), s.awaiting[timer := s.local.timers[timer]])
    case End(timer, env) => Split(EndRetry(s.local, s.awaiting[timer], env), s.awaiting - {timer})
  }

  /** With nothing in between, the two halves are the retry as one step. */
  lemma HalvesAreWhole(s: Split, timer: nat, env: Env)
    requires timer in s.local.timers && timer !in s.awaiting
    ensures Do(Do(s, Begin(timer)), End(timer, env)) == Split(Activation.Do(s.local, Retry(timer, env)), s.awaiting)
  {
    assert s.awaiting[timer := s.local.timers[timer]] - {timer} == s.awaiting;
  }

  /** At most one timer is live, and then it is the recorded one. */
  ghost predicate OneTimer(s: Split) {
    && (forall t | t in s.awaiting :: t < s.local.serial && t !in s.local.timers)
    && if s.local.entry.None? then s.local.timers == map[]
       else
         var e := s.local.entry.value;
         e.timer < s.local.serial && s.local.timers.Keys <= {e.timer}
  }

  /** The attempt throws before it takes the workflow off the queue. */
  predicate FailsEarly(mode: Mode, env: Env) {
    && (StartMode(mode) ==> env.active)
    && (!GetsToNodes(mode, env) || SomeThrew(env.nodes.triggers) || SomePollFailed(env.nodes))
  }

  /** A retry fails and finds an entry whose timer is live, hence was set after the retry began. */
  predicate Doubles(s: Split, m: Move)
    requires Enabled(s, m)
  {
    && m.End?
    && FailsEarly(s.awaiting[m.timer].mode, m.env.(active := s.awaiting[m.timer].active))
    && s.local.entry.Some? && s.local.entry.value.timer in s.local.timers
  }

  /** Exactly that makes a second timer live: the first one is overwritten and not cleared. */
  lemma OneTimerExactly(s: Split, m: Move)
    requires OneTimer(s) && Enabled(s, m)
    ensures OneTimer(Do(s, m)) <==> !Doubles(s, m)
    ensures Doubles(s, m) ==> |Do(s, m).local.timers| == 2
  {
    match m
    case Whole(step) => WholeKeeps(s, step);
    case Begin(timer) => BeginKeeps(s, timer);
    case End(timer, env) =>
      if Doubles(s, m) { EndDoubles(s, timer, env); } else { EndKeeps(s, timer, env); }
  }

  lemma WholeKeeps(s: Split, step: Step)
    requires OneTimer(s) && Enabled(s, Whole(step))
    ensures OneTimer(Do(s, Whole(step)))
  {
    DequeueClears(s);
  }

  /** Taking the workflow off the queue clears the one timer. */
  lemma DequeueClears(s: Split)
    requires OneTimer(s)
    ensures Dequeue(s.local).timers == map[]
  {
    if s.local.entry.Some? {
      assert s.local.timers - {s.local.entry.value.timer} == map[];
    }
  }

  lemma BeginKeeps(s: Split, timer: nat)
    requires OneTimer(s) && timer in s.local.timers
    ensures OneTimer(Do(s, Begin(timer)))
  {
    assert timer == s.local.entry.value.timer;
  }

  lemma EndKeeps(s: Split, timer: nat, env: Env)
    requires OneTimer(s) && timer in s.awaiting && !Doubles(s, End(timer, env))
    ensures OneTimer(Do(s, End(timer, env)))
  {
    DequeueClears(s);
  }

  lemma EndDoubles(s: Split, timer: nat, env: Env)
    requires OneTimer(s) && timer in s.awaiting && Doubles(s, End(timer, env))
    ensures !OneTimer(Do(s, End(timer, env)))
    ensures |Do(s, End(timer, env)).local.timers| == 2
  {
    var l, l' := s.local, Do(s, End(timer, env)).local;
    var old_ := l.entry.value.timer;
    assert l'.timers.Keys == {old_, l.serial};
    assert old_ in l'.timers && l.serial in l'.timers;
  }

  ghost predicate Run(states: seq<Split>, moves: seq<Move>) {
    && |states| == |moves| + 1 && states[0] == Split(BLANK, map[])
    && forall i | 0 <= i < |moves| :: Enabled(states[i], moves[i]) && states[i + 1] == Do(states[i], moves[i])
  }

  /** The step puts the workflow on the queue. */
  predicate Queues(m: Move) {
    m.Whole? && (m.step.TriggerError?
                 || (m.step.Start? && m.step.env.active && SomethingFails(m.step.mode, m.step.env)
                     && !IsAuthorization(m.step.env.message)))
  }

  /** At most one retry is under way, and then no timer is live; and either is for the job on record. */
  ghost predicate Undisturbed(s: Split) {
    && OneTimer(s)
    && (s.awaiting == map[] || (s.local.timers == map[] && exists t: nat :: s.awaiting.Keys == {t}))
    && (s.local.entry.Some? ==>
          var job := Job(s.local.entry.value.mode, s.local.entry.value.active);
          (forall t | t in s.local.timers :: s.local.timers[t] == job) && forall t | t in s.awaiting :: s.awaiting[t] == job)
  }

  lemma UndisturbedKept(s: Split, m: Move)
    requires Undisturbed(s) && Enabled(s, m) && (Queues(m) ==> s.awaiting == map[])
    ensures Undisturbed(Do(s, m))
  {
    OneTimerExactly(s, m);
    match m
    case Whole(step) => WholeUndisturbed(s, step);
    case Begin(timer) => BeginUndisturbed(s, timer);
    case End(timer, env) =>
      assert s.awaiting - {timer} == map[];
      DequeueClears(s);
  }

  lemma BeginUndisturbed(s: Split, timer: nat)
    requires Undisturbed(s) && timer in s.local.timers
    ensures Undisturbed(Do(s, Begin(timer)))
  {
    BeginKeeps(s, timer);
    assert timer == s.local.entry.value.timer;
    assert s.local.timers - {timer} == map[];
    assert s.awaiting == map[];
    assert s.awaiting[timer := s.local.timers[timer]].Keys == {timer};
  }

  lemma WholeUndisturbed(s: Split, step: Step)
    requires Undisturbed(s) && Enabled(s, Whole(step)) && (Queues(Whole(step)) ==> s.awaiting == map[])
    ensures Undisturbed(Do(s, Whole(step)))
  {
    WholeKeeps(s, step);
    DequeueClears(s);
  }

  lemma AtMostOne(s: Split)
    requires OneTimer(s)
    ensures |s.local.timers| <= 1
  {
    if s.local.entry.Some? {
      var t := s.local.entry.value.timer;
      assert s.local.timers.Keys == {} || s.local.timers.Keys == {t};
    }
  }

  /** In every run in which nothing queues the workflow while its own retry is under way, there is never more
      than one live timer, however much else happens meanwhile. */
  lemma {:induction false} OneTimerOverRuns(states: seq<Split>, moves: seq<Move>, n: nat)
    requires Run(states, moves) && n <= |moves|
    requires forall i | 0 <= i < n && Queues(moves[i]) :: states[i].awaiting == map[]
    ensures Undisturbed(states[n]) && |states[n].local.timers| <= 1
    decreases n
  {
    if n > 0 {
      OneTimerOverRuns(states, moves, n - 1);
      assert states[n - 1 + 1] == Do(states[n - 1], moves[n - 1]);
      UndisturbedKept(states[n - 1], moves[n - 1]);
    }
    AtMostOne(states[n]);
  }

  /** A workflow that is removed while its own retry is under way ends up active all the same exactly when the
      retry gets as far as registering it. */
  lemma RemovedYetActiveExactly(s: Split, timer: nat, env: Env)
    requires timer in s.awaiting
    ensures var job := s.awaiting[timer];
            Do(Do(s, Whole(Remove(true))), End(timer, env)).local.inMemory <==>
            && GetsToNodes(job.mode, env.(active := job.active)) && HasNodes(env.nodes)
            && !SomeThrew(env.nodes.triggers) && (SomePollFailed(env.nodes) ==> Responses(env.nodes.triggers) > 0)
  {
  }

  const ERROR := TriggerError(Activate, true, true, "lost connection")
  const JOB := Job(Activate, true)

  function Queued(timer: nat, timers: map<nat, Job>, serial: nat, awaiting: map<nat, Job>): Split {
    Split(Local(false, Some(Entry(Activate, true, INITIAL_TIMEOUT, timer)), timers, Some("lost connection"), serial), awaiting)
  }

  /** A concrete run with two: a trigger reports an error, the retry begins, another trigger that was started
      meanwhile reports one as well, and then the retry fails. */
  lemma TwoTimers() returns (states: seq<Split>, moves: seq<Move>)
    ensures Run(states, moves) && |states[|moves|].local.timers| == 2
  {
    var env := Env(true, true, false, Nodes([], []), false, "no webhook");
    var s0, s1 := Split(BLANK, map[]), Queued(0, map[0 := JOB], 1, map[]);
    var s2, s3 := Queued(0, map[], 1, map[0 := JOB]), Queued(1, map[1 := JOB], 2, map[0 := JOB]);
    moves := [Whole(ERROR), Begin(0), Whole(ERROR), End(0, env)];
    assert Do(s0, moves[0]) == s1;
    assert s1.local.timers - {0} == map[];
    assert Do(s1, moves[1]) == s2;
    assert Do(s2, moves[2]) == s3;
    EndDoubles(s3, 0, env);
    states := [s0, s1, s2, s3, Do(s3, moves[3])];
  }
}
