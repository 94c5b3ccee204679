/**
 Start-up: every workflow stored as active is tried, in batches whose activations run concurrently.
 An activation is broken into the single updates it makes, so that any interleaving can be compared
 with trying the workflows one at a time.
 */
module Startup {
  import opened Activation
  import opened ActivationMode
  import opened ActiveWorkflows
  import opened Wrappers
  import Webhooks

  /** Everything start-up works on: the manager, workflow by workflow, and the webhook table. */
  datatype System = System(locals: map<string, Local>, webhooks: Webhooks.Table)

  function At(s: System, w: string): Local {
    if w in s.locals then s.locals[w] else BLANK
  }

  /** One update made on behalf of a workflow. */
  datatype Micro =
    | PutRow(key: Webhooks.Key, row: Webhooks.Row)
    | DropRows
    | SetMemory(active: bool)
    | TakeOffQueue
    | PutError(message: string)
    | ClearError
    | QueueUp(mode: Mode, active: bool)

  function OnLocal(l: Local, m: Micro): Local {
    match m
    case PutRow(key, row) => l
    case DropRows => l
    case SetMemory(active) => l.(inMemory := active)
    case TakeOffQueue => Dequeue(l)
    case PutError(message) => l.(error := Some(message))
    case ClearError => l.(error := None)
    case QueueUp(mode, active) => Enqueue(l, mode, active)
  }

  function OnWebhooks(t: Webhooks.Table, w: string, m: Micro): Webhooks.Table {
    match m
    case PutRow(key, row) => t[key := row.(workflowId := w)]
    case DropRows => Webhooks.WithoutWorkflow(t, w)
    case _ => t
  }

  function Apply(s: System, w: string, m: Micro): System {
    System(s.locals[w := OnLocal(At(s, w), m)], OnWebhooks(s.webhooks, w, m))
  }

  /** What start-up will do for one workflow: `found` says whether it is still stored, `rows` are the webhook
      rows that get written, and `cleared` whether the clean-up after a failing webhook works. */
  datatype Task = Task(workflowId: string, found: bool, env: Env, rows: seq<(Webhooks.Key, Webhooks.Row)>, cleared: bool)

  function RowsOf(rows: seq<(Webhooks.Key, Webhooks.Row)>): seq<Micro> {
    seq(|rows|, i requires 0 <= i < |rows| => PutRow(rows[i].0, rows[i].1))
  }

  /** The updates of `activateWorkflow`, in order. */
  function Script(t: Task, mode: Mode): seq<Micro> {
    if !t.found || EndOf(mode, t.env).Skipped? then []
    else RowPart(t, mode) + MemoryPart(t, mode) + EndPart(t, mode)
  }

  function ApplyAll(s: System, w: string, ms: seq<Micro>): System {
    if ms == [] then s else Apply(ApplyAll(s, w, ms[..|ms| - 1]), w, ms[|ms| - 1])
  }

  // ---------------------------------------------------------------------------
  // The script is the activation
  // ---------------------------------------------------------------------------

  lemma {:induction false} ApplyAllAppend(s: System, w: string, ms: seq<Micro>, ns: seq<Micro>)
    ensures ApplyAll(s, w, ms + ns) == ApplyAll(ApplyAll(s, w, ms), w, ns)
    decreases |ns|
  {
    if ns == [] {
      assert ms + ns == ms;
    } else {
      assert (ms + ns)[..|ms + ns| - 1] == ms + ns[..|ns| - 1];
      ApplyAllAppend(s, w, ms, ns[..|ns| - 1]);
    }
  }

  function LocalAll(l: Local, ms: seq<Micro>): Local {
    if ms == [] then l else OnLocal(LocalAll(l, ms[..|ms| - 1]), ms[|ms| - 1])
  }

  lemma {:induction false} LocalAllAppend(l: Local, ms: seq<Micro>, ns: seq<Micro>)
    ensures LocalAll(l, ms + ns) == LocalAll(LocalAll(l, ms), ns)
    decreases |ns|
  {
    if ns == [] {
      assert ms + ns == ms;
    } else {
      assert (ms + ns)[..|ms + ns| - 1] == ms + ns[..|ns| - 1];
      LocalAllAppend(l, ms, ns[..|ns| - 1]);
    }
  }

  /** The updates of a workflow reach its own state and no other. */
  lemma {:induction false} ApplyAllIsLocal(s: System, w: string, ms: seq<Micro>, v: string)
    ensures At(ApplyAll(s, w, ms), v) == if v == w then LocalAll(At(s, w), ms) else At(s, v)
    decreases |ms|
  {
    if ms != [] {
      ApplyAllIsLocal(s, w, ms[..|ms| - 1], v);
      ApplyAllIsLocal(s, w, ms[..|ms| - 1], w);
    }
  }

  lemma {:induction false} RowsKeepLocal(l: Local, ms: seq<Micro>)
    requires forall m | m in ms :: m.PutRow? || m.DropRows?
    ensures LocalAll(l, ms) == l
    decreases |ms|
  {
    if ms != [] {
      assert ms[|ms| - 1] in ms;
      RowsKeepLocal(l, ms[..|ms| - 1]);
    }
  }

  function RowPart(t: Task, mode: Mode): seq<Micro> {
    if t.env.startable && mode != LeadershipChange
    then RowsOf(t.rows) + (if !t.env.webhooksOk && t.cleared then [DropRows] else [])
    else []
  }

  function MemoryPart(t: Task, mode: Mode): seq<Micro> {
    if GetsToNodes(mode, t.env) && HasNodes(t.env.nodes) && !SomeThrew(t.env.nodes.triggers)
    then [SetMemory(true)] + (if SomePollFailed(t.env.nodes) && Responses(t.env.nodes.triggers) == 0
                              then [SetMemory(false)] else [])
    else []
  }

  function EndPart(t: Task, mode: Mode): seq<Micro> {
    if EndOf(mode, t.env).Done? then [TakeOffQueue, ClearError]
    else FailurePart(t.env.message, t.env.active, FailsLate(mode, t.env))
  }

  /** What `activateWorkflow` makes of the state of the workflow. */
  function Started(l: Local, t: Task, mode: Mode): Local {
    if t.found then DoStart(l, mode, t.env) else l
  }

  lemma MemoryPartIs(l: Local, t: Task, mode: Mode)
    ensures LocalAll(l, MemoryPart(t, mode)) == l.(inMemory := MemoryAfter(l.inMemory, mode, t.env))
  {
    var m1, m2 := SetMemory(true), SetMemory(false);
    assert [m1, m2][..1] == [m1] && [m1][..0] == [];
    assert LocalAll(l, [m1]) == OnLocal(l, m1);
    assert LocalAll(l, [m1, m2]) == OnLocal(OnLocal(l, m1), m2);
    assert [m1] + [m2] == [m1, m2] && [m1] + [] == [m1];
  }

  /** The last part of `activateWorkflow`, on the state in which memory is already settled. */
  function AtEnd(l: Local, env: Env, done: bool, late: bool): Local {
    if done then Dequeue(l).(error := None)
    else
      var l1 := (if late then Dequeue(l) else l).(error := Some(env.message));
      if IsAuthorization(env.message) then l1 else Enqueue(l1, Init, env.active)
  }

  lemma EndPartIs(l: Local, t: Task, mode: Mode)
    requires !EndOf(mode, t.env).Skipped?
    ensures LocalAll(l, EndPart(t, mode)) == AtEnd(l, t.env, EndOf(mode, t.env).Done?, FailsLate(mode, t.env))
  {
    if EndOf(mode, t.env).Done? {
      DonePartIs(l);
    } else {
      FailurePartIs(l, t.env.message, t.env.active, FailsLate(mode, t.env));
    }
  }

  lemma DonePartIs(l: Local)
    ensures LocalAll(l, [TakeOffQueue, ClearError]) == Dequeue(l).(error := None)
  {
    Pair(l, TakeOffQueue, ClearError);
  }

  function FailurePart(message: string, active: bool, late: bool): seq<Micro> {
    (if late then [TakeOffQueue] else [])
    + [PutError(message)]
    + (if IsAuthorization(message) then [] else [QueueUp(Init, active)])
  }

  lemma FailurePartIs(l: Local, message: string, active: bool, late: bool)
    ensures LocalAll(l, FailurePart(message, active, late)) ==
            var l1 := (if late then Dequeue(l) else l).(error := Some(message));
            if IsAuthorization(message) then l1 else Enqueue(l1, Init, active)
  {
    var e, q := PutError(message), QueueUp(Init, active);
    var head := if late then [TakeOffQueue, e] else [e];
    assert (if late then [TakeOffQueue] else []) + [e] == head;
    if late { Pair(l, TakeOffQueue, e); } else { Single(l, e); }
    LocalAllAppend(l, head, [q]);
    Single(LocalAll(l, head), q);
    assert head + [] == head;
  }

  lemma Single(l: Local, m: Micro)
    ensures LocalAll(l, [m]) == OnLocal(l, m)
  {
  }

  lemma Pair(l: Local, m: Micro, n: Micro)
    ensures LocalAll(l, [m, n]) == OnLocal(OnLocal(l, m), n)
  {
    assert [m, n][..1] == [m];
    Single(l, m);
  }

  lemma Assemble(l: Local, l2: Local, l3: Local, a: seq<Micro>, b: seq<Micro>, c: seq<Micro>)
    requires LocalAll(l, a) == l && LocalAll(l, b) == l2 && LocalAll(l2, c) == l3
    ensures LocalAll(l, a + b + c) == l3
  {
    LocalAllAppend(l, a + b, c);
    LocalAllAppend(l, a, b);
  }

  lemma RowPartIs(l: Local, t: Task, mode: Mode)
    ensures LocalAll(l, RowPart(t, mode)) == l
  {
    RowsKeepLocal(l, RowPart(t, mode));
  }

  lemma ScriptLocal(l: Local, t: Task, mode: Mode, l2: Local)
    requires t.found && !EndOf(mode, t.env).Skipped?
    requires l2 == l.(inMemory := MemoryAfter(l.inMemory, mode, t.env))
    ensures LocalAll(l, Script(t, mode)) == AtEnd(l2, t.env, EndOf(mode, t.env).Done?, FailsLate(mode, t.env))
  {
    RowPartIs(l, t, mode);
    MemoryPartIs(l, t, mode);
    EndPartIs(l2, t, mode);
    Assemble(l, l2, LocalAll(l2, EndPart(t, mode)), RowPart(t, mode), MemoryPart(t, mode), EndPart(t, mode));
  }

  /** The script of updates does to a workflow what its activation as a whole does. */
  lemma ScriptIsStart(s: System, t: Task, mode: Mode)
    requires StartMode(mode)
    ensures At(ApplyAll(s, t.workflowId, Script(t, mode)), t.workflowId) == Started(At(s, t.workflowId), t, mode)
  {
    ApplyAllIsLocal(s, t.workflowId, Script(t, mode), t.workflowId);
    if t.found && !EndOf(mode, t.env).Skipped? {
      var l := At(s, t.workflowId);
      ScriptLocal(l, t, mode, l.(inMemory := MemoryAfter(l.inMemory, mode, t.env)));
    }
  }

  /** The rows that the first `n` webhooks of a workflow get stored. */
  function StoredRows(w: string, ds: seq<Webhooks.Declared>, attempts: seq<Webhooks.Attempt>,
        n: nat): seq<(Webhooks.Key, Webhooks.Row)>
    requires n <= |ds| == |attempts|
  {
    if n == 0 then []
    else
      StoredRows(w, ds, attempts, n - 1)
      + if Webhooks.Writes(attempts[n - 1]) then [(Webhooks.KeyOf(ds[n - 1]), Webhooks.RowOf(w, ds[n - 1]))] else []
  }

  lemma OneMoreRow(s: System, w: string, rows: seq<(Webhooks.Key, Webhooks.Row)>, key: Webhooks.Key, row: Webhooks.Row)
    ensures ApplyAll(s, w, RowsOf(rows + [(key, row)])).webhooks
            == ApplyAll(s, w, RowsOf(rows)).webhooks[key := row.(workflowId := w)]
  {
    var ms := RowsOf(rows + [(key, row)]);
    assert ms == RowsOf(rows) + [PutRow(key, row)];
    assert ms[..|rows|] == RowsOf(rows);
  }

  /** Written one after the other, they change the table the way `addWebhooks` does. */
  lemma {:induction false} RowsAreWritten(s: System, w: string, ds: seq<Webhooks.Declared>,
        attempts: seq<Webhooks.Attempt>, n: nat)
    requires n <= |ds| == |attempts|
    ensures ApplyAll(s, w, RowsOf(StoredRows(w, ds, attempts, n))).webhooks
            == s.webhooks + Webhooks.Written(w, ds, attempts, n)
    decreases n
  {
    if n > 0 {
      RowsAreWritten(s, w, ds, attempts, n - 1);
      var before, key, row := StoredRows(w, ds, attempts, n - 1), Webhooks.KeyOf(ds[n - 1]), Webhooks.RowOf(w, ds[n - 1]);
      OneMoreRow(s, w, before, key, row);
      Webhooks.PutOver(s.webhooks, Webhooks.Written(w, ds, attempts, n - 1), key, row);
      assert before + [] == before;
    }
  }

  /** `t` is for a workflow that declares these webhooks, with these outcomes: the rows are those stored up to the
      attempt that ends the registration, and only when none does can the webhooks be fine; then there is no
      clean-up. */
  predicate Declares(t: Task, ds: seq<Webhooks.Declared>, attempts: seq<Webhooks.Attempt>) {
    && |ds| == |attempts|
    && var n := Webhooks.Stop(attempts, Init);
       if n == |ds|
       then t.rows == StoredRows(t.workflowId, ds, attempts, n) && (!t.env.webhooksOk ==> !t.cleared)
       else t.rows == StoredRows(t.workflowId, ds, attempts, n + 1) && !t.env.webhooksOk
  }

  lemma {:induction false} NoRowsNoChange(s: System, w: string, ms: seq<Micro>)
    requires forall m | m in ms :: !m.PutRow? && !m.DropRows?
    ensures ApplyAll(s, w, ms).webhooks == s.webhooks
    decreases |ms|
  {
    if ms != [] {
      assert ms[|ms| - 1] in ms;
      assert forall m | m in ms[..|ms| - 1] :: m in ms;
      NoRowsNoChange(s, w, ms[..|ms| - 1]);
    }
  }

  lemma RowsThenDrop(s: System, w: string, rows: seq<(Webhooks.Key, Webhooks.Row)>, drop: bool)
    ensures ApplyAll(s, w, RowsOf(rows) + if drop then [DropRows] else []).webhooks ==
            var written := ApplyAll(s, w, RowsOf(rows)).webhooks;
            if drop then Webhooks.WithoutWorkflow(written, w) else written
  {
    if drop {
      assert (RowsOf(rows) + [DropRows])[..|RowsOf(rows)|] == RowsOf(rows);
    } else {
      assert RowsOf(rows) + [] == RowsOf(rows);
    }
  }

  lemma TailHasNoRows(t: Task, mode: Mode, m: Micro)
    requires m in MemoryPart(t, mode) || m in EndPart(t, mode)
    ensures !m.PutRow? && !m.DropRows?
  {
  }

  lemma TailKeeps(s: System, w: string, front: seq<Micro>, tail: seq<Micro>)
    requires forall m | m in tail :: !m.PutRow? && !m.DropRows?
    ensures ApplyAll(s, w, front + tail).webhooks == ApplyAll(s, w, front).webhooks
  {
    ApplyAllAppend(s, w, front, tail);
    NoRowsNoChange(ApplyAll(s, w, front), w, tail);
  }

  lemma OnlyRowPartMatters(s: System, t: Task, mode: Mode)
    requires t.found && !EndOf(mode, t.env).Skipped?
    ensures ApplyAll(s, t.workflowId, Script(t, mode)).webhooks == ApplyAll(s, t.workflowId, RowPart(t, mode)).webhooks
  {
    var a, b, c := RowPart(t, mode), MemoryPart(t, mode), EndPart(t, mode);
    forall m: Micro | m in b + c ensures !m.PutRow? && !m.DropRows? {
      TailHasNoRows(t, mode, m);
    }
    assert a + b + c == a + (b + c);
    TailKeeps(s, t.workflowId, a, b + c);
  }

  lemma RowPartTable(s: System, t: Task, ds: seq<Webhooks.Declared>, attempts: seq<Webhooks.Attempt>)
    requires Declares(t, ds, attempts) && t.env.startable
    ensures ApplyAll(s, t.workflowId, RowPart(t, Init)).webhooks
            == Webhooks.AfterAdding(s.webhooks, t.workflowId, ds, attempts, Init, t.cleared)
  {
    var n := Webhooks.Stop(attempts, Init);
    RowsThenDrop(s, t.workflowId, t.rows, !t.env.webhooksOk && t.cleared);
    RowsAreWritten(s, t.workflowId, ds, attempts, if n == |ds| then n else n + 1);
  }

  /** What the activation of a workflow does to the webhook table: on init exactly what `addWebhooks` does, with its
      clean-up; and on a takeover, or when there is nothing to activate, nothing. */
  lemma ScriptTable(s: System, t: Task, mode: Mode, ds: seq<Webhooks.Declared>, attempts: seq<Webhooks.Attempt>)
    requires (mode == Init || mode == LeadershipChange) && Declares(t, ds, attempts)
    ensures ApplyAll(s, t.workflowId, Script(t, mode)).webhooks ==
            if mode == Init && t.found && t.env.active && t.env.startable
            then Webhooks.AfterAdding(s.webhooks, t.workflowId, ds, attempts, Init, t.cleared)
            else s.webhooks
  {
    if t.found && t.env.active {
      OnlyRowPartMatters(s, t, mode);
      if mode == Init && t.env.startable {
        RowPartTable(s, t, ds, attempts);
      }
    }
  }

  // ---------------------------------------------------------------------------
  // Interleaving
  // ---------------------------------------------------------------------------

  datatype Act = Act(workflowId: string, micro: Micro)

  function RunTrace(s: System, trace: seq<Act>): System
    decreases |trace|
  {
    if trace == [] then s else RunTrace(Apply(s, trace[0].workflowId, trace[0].micro), trace[1..])
  }

  /** The updates of one workflow, in the order in which they occur. */
  function Of(trace: seq<Act>, w: string): seq<Micro> {
    if trace == [] then []
    else (if trace[0].workflowId == w then [trace[0].micro] else []) + Of(trace[1..], w)
  }

  function Without(trace: seq<Act>, w: string): seq<Act> {
    if trace == [] then []
    else (if trace[0].workflowId == w then [] else [trace[0]]) + Without(trace[1..], w)
  }

  /** No two workflows write the same webhook. */
  ghost predicate DisjointKeys(trace: seq<Act>) {
    forall a, b | a in trace && b in trace && a.workflowId != b.workflowId && a.micro.PutRow? && b.micro.PutRow? ::
      a.micro.key != b.micro.key
  }

  predicate Clash(m: Micro, n: Micro) {
    m.PutRow? && n.PutRow? && m.key == n.key
  }

  /** Updates for different workflows commute, unless they write the same webhook. */
  lemma Commute(s: System, v: string, m: Micro, w: string, n: Micro)
    requires v != w && !Clash(m, n)
    ensures Apply(Apply(s, v, m), w, n) == Apply(Apply(s, w, n), v, m)
  {
    var a, b := Apply(Apply(s, v, m), w, n), Apply(Apply(s, w, n), v, m);
    assert a.locals == b.locals;
    CommuteWebhooks(s.webhooks, v, m, w, n);
  }

  lemma CommuteWebhooks(t: Webhooks.Table, v: string, m: Micro, w: string, n: Micro)
    requires v != w && !Clash(m, n)
    ensures OnWebhooks(OnWebhooks(t, v, m), w, n) == OnWebhooks(OnWebhooks(t, w, n), v, m)
  {
  }

  lemma {:induction false} CommuteAll(s: System, v: string, m: Micro, w: string, ns: seq<Micro>)
    requires v != w && forall n | n in ns :: !Clash(m, n)
    ensures ApplyAll(Apply(s, v, m), w, ns) == Apply(ApplyAll(s, w, ns), v, m)
    decreases |ns|
  {
    if ns != [] {
      var k := |ns| - 1;
      assert ns[k] in ns;
      CommuteAll(s, v, m, w, ns[..k]);
      Commute(ApplyAll(s, w, ns[..k]), v, m, w, ns[k]);
    }
  }

  lemma {:induction false} OfMembers(trace: seq<Act>, w: string)
    ensures forall m | m in Of(trace, w) :: Act(w, m) in trace
    ensures forall a | a in Without(trace, w) :: a in trace && a.workflowId != w
    decreases |trace|
  {
    if trace != [] {
      OfMembers(trace[1..], w);
    }
  }

  /** All updates of one workflow can be moved to the front. */
  lemma {:induction false} PullForward(s: System, trace: seq<Act>, w: string)
    requires DisjointKeys(trace)
    ensures RunTrace(s, trace) == RunTrace(ApplyAll(s, w, Of(trace, w)), Without(trace, w))
    decreases |trace|
  {
    if trace != [] {
      var a, rest := trace[0], trace[1..];
      assert forall x | x in rest :: x in trace;
      assert a in trace;
      PullForward(Apply(s, a.workflowId, a.micro), rest, w);
      if a.workflowId == w {
        ApplyAllAppend(s, w, [a.micro], Of(rest, w));
        assert [a.micro][..0] == [];
        assert ApplyAll(s, w, [a.micro]) == Apply(ApplyAll(s, w, []), w, a.micro);
        assert Without(trace, w) == Without(rest, w);
      } else {
        OfMembers(rest, w);
        forall n | n in Of(rest, w) ensures !Clash(a.micro, n) {
          assert Act(w, n) in trace;
        }
        CommuteAll(s, a.workflowId, a.micro, w, Of(rest, w));
        assert Of(trace, w) == Of(rest, w);
        assert Without(trace, w) == [a] + Without(rest, w);
        assert ([a] + Without(rest, w))[1..] == Without(rest, w);
      }
    }
  }

  lemma {:induction false} OfWithout(trace: seq<Act>, w: string, v: string)
    requires v != w
    ensures Of(Without(trace, w), v) == Of(trace, v)
    decreases |trace|
  {
    if trace != [] {
      var a, rest := trace[0], Without(trace[1..], w);
      OfWithout(trace[1..], w, v);
      if a.workflowId == w {
        assert Without(trace, w) == rest;
        assert Of(trace, v) == Of(trace[1..], v);
      } else {
        assert Without(trace, w) == [a] + rest;
        OfCons(a, rest, v);
        assert trace == [a] + trace[1..];
        OfCons(a, trace[1..], v);
      }
    }
  }

  lemma OfCons(a: Act, rest: seq<Act>, v: string)
    ensures Of([a] + rest, v) == (if a.workflowId == v then [a.micro] else []) + Of(rest, v)
  {
  }

  /** Trying the workflows one at a time. */
  function OneByOne(s: System, tasks: seq<Task>, mode: Mode): System
    decreases |tasks|
  {
    if tasks == [] then s
    else OneByOne(ApplyAll(s, tasks[0].workflowId, Script(tasks[0], mode)), tasks[1..], mode)
  }

  ghost predicate DistinctTasks(tasks: seq<Task>) {
    forall i, j | 0 <= i < j < |tasks| :: tasks[i].workflowId != tasks[j].workflowId
  }

  /** The trace holds the script of every task, in order, and nothing else. */
  ghost predicate Interleaves(trace: seq<Act>, tasks: seq<Task>, mode: Mode) {
    && DistinctTasks(tasks)
    && (forall i | 0 <= i < |tasks| :: Of(trace, tasks[i].workflowId) == Script(tasks[i], mode))
    && (forall a | a in trace :: exists i :: 0 <= i < |tasks| && tasks[i].workflowId == a.workflowId)
  }

  lemma SomethingIn(trace: seq<Act>)
    ensures trace == [] || exists a :: a in trace
  {
    if trace != [] { assert trace[0] in trace; }
  }

  /** However the activations of a batch interleave, as long as no two of them write the same webhook, the
      outcome is that of trying them one at a time. */
  lemma {:induction false} AnyInterleaving(s: System, trace: seq<Act>, tasks: seq<Task>, mode: Mode)
    requires Interleaves(trace, tasks, mode) && DisjointKeys(trace)
    ensures RunTrace(s, trace) == OneByOne(s, tasks, mode)
    decreases |tasks|
  {
    if tasks == [] {
      SomethingIn(trace);
    } else {
      var w, rest := tasks[0].workflowId, Without(trace, tasks[0].workflowId);
      PullForward(s, trace, w);
      OfMembers(trace, w);
      forall i | 0 <= i < |tasks[1..]| ensures Of(rest, tasks[1..][i].workflowId) == Script(tasks[1..][i], mode) {
        OfWithout(trace, w, tasks[i + 1].workflowId);
      }
      forall a | a in rest ensures exists i :: 0 <= i < |tasks[1..]| && tasks[1..][i].workflowId == a.workflowId {
        var i :| 0 <= i < |tasks| && tasks[i].workflowId == a.workflowId;
        assert tasks[1..][i - 1] == tasks[i];
      }
      AnyInterleaving(ApplyAll(s, w, Script(tasks[0], mode)), rest, tasks[1..], mode);
    }
  }

  // ---------------------------------------------------------------------------
  // Batches
  // ---------------------------------------------------------------------------

  /** `chunk`: nothing at all for a size of zero. */
  function Chunk(tasks: seq<Task>, size: nat): seq<seq<Task>>
    decreases |tasks|
  {
    if tasks == [] || size == 0 then []
    else if |tasks| <= size then [tasks]
    else [tasks[..size]] + Chunk(tasks[size..], size)
  }

  function RunBatches(s: System, traces: seq<seq<Act>>): System
    decreases |traces|
  {
    if traces == [] then s else RunBatches(RunTrace(s, traces[0]), traces[1..])
  }

  lemma {:induction false} OneByOneAppend(s: System, a: seq<Task>, b: seq<Task>, mode: Mode)
    ensures OneByOne(s, a + b, mode) == OneByOne(OneByOne(s, a, mode), b, mode)
    decreases |a|
  {
    if a == [] {
      assert a + b == b;
    } else {
      assert (a + b)[1..] == a[1..] + b;
      OneByOneAppend(ApplyAll(s, a[0].workflowId, Script(a[0], mode)), a[1..], b, mode);
    }
  }

  /** For every batch size of at least one, and whatever happens inside the batches, start-up ends where
      trying the workflows one at a time would. */
  lemma {:induction false} BatchesDoNotMatter(s: System, tasks: seq<Task>, size: nat, traces: seq<seq<Act>>, mode: Mode)
    requires size >= 1
    requires |traces| == |Chunk(tasks, size)|
    requires forall i | 0 <= i < |traces| :: Interleaves(traces[i], Chunk(tasks, size)[i], mode) && DisjointKeys(traces[i])
    ensures RunBatches(s, traces) == OneByOne(s, tasks, mode)
    decreases |tasks|
  {
    if tasks != [] {
      var batch, rest := Chunk(tasks, size)[0], Rest(tasks, size);
      ChunkRest(tasks, size);
      AnyInterleaving(s, traces[0], batch, mode);
      BatchesDoNotMatter(RunTrace(s, traces[0]), rest, size, traces[1..], mode);
      OneByOneAppend(s, batch, rest, mode);
    }
  }

  function Rest(tasks: seq<Task>, size: nat): seq<Task> {
    if |tasks| <= size then [] else tasks[size..]
  }

  lemma ChunkRest(tasks: seq<Task>, size: nat)
    requires tasks != [] && size >= 1
    ensures Chunk(tasks, size) != []
    ensures 1 <= |Chunk(tasks, size)[0]| <= size
    ensures tasks == Chunk(tasks, size)[0] + Rest(tasks, size)
    ensures Chunk(tasks, size)[1..] == Chunk(Rest(tasks, size), size)
    ensures |Rest(tasks, size)| < |tasks|
  {
  }

  method RunBatch(s: System, batch: seq<Task>, mode: Mode) returns (r: System)
    ensures r == OneByOne(s, batch, mode)
  {
    r := s;
    var j := 0;
    assert batch[0..] == batch;
    while j < |batch|
      invariant 0 <= j <= |batch|
      invariant OneByOne(r, batch[j..], mode) == OneByOne(s, batch, mode)
    {
      assert batch[j..][1..] == batch[j + 1..];
      r := ApplyAll(r, batch[j].workflowId, Script(batch[j], mode));
      j := j + 1;
    }
    assert batch[j..] == [];
  }

  /** Running the next batch leaves the rest of the list to be tried. */
  lemma NextBatch(r: System, left: seq<Task>, batches: seq<seq<Task>>, i: nat, size: nat, mode: Mode)
    requires size >= 1 && i < |batches| && batches[i..] == Chunk(left, size)
    ensures batches[i + 1..] == Chunk(Rest(left, size), size)
    ensures OneByOne(OneByOne(r, batches[i], mode), Rest(left, size), mode) == OneByOne(r, left, mode)
  {
    assert batches[i..][0] == batches[i] && batches[i..][1..] == batches[i + 1..];
    ChunkRest(left, size);
    OneByOneAppend(r, batches[i], Rest(left, size), mode);
  }

  /** `addActiveWorkflows`, with the activations of a batch run one after the other. */
  method AddActiveWorkflows(s: System, tasks: seq<Task>, batchSize: nat, mode: Mode) returns (r: System)
    ensures r == if batchSize == 0 then s else OneByOne(s, tasks, mode)
  {
    var batches := Chunk(tasks, batchSize);
    r := s;
    if batchSize == 0 {
      return;
    }
    ghost var left := tasks;
    var i := 0;
    assert batches[0..] == batches;
    while i < |batches|
      invariant 0 <= i <= |batches|
      invariant batches[i..] == Chunk(left, batchSize)
      invariant OneByOne(r, left, mode) == OneByOne(s, tasks, mode)
    {
      NextBatch(r, left, batches, i, batchSize, mode);
      r := RunBatch(r, batches[i], mode);
      left := Rest(left, batchSize);
      i := i + 1;
    }
    assert batches[i..] == [];
    assert left == [];
  }

  // ---------------------------------------------------------------------------
  // The webhook table after start-up
  // ---------------------------------------------------------------------------

  /** A takeover leaves the table alone. */
  lemma {:induction false} TakeoverWritesNoRows(s: System, tasks: seq<Task>)
    ensures OneByOne(s, tasks, LeadershipChange).webhooks == s.webhooks
    decreases |tasks|
  {
    if tasks != [] {
      var t := tasks[0];
      if t.found && !EndOf(LeadershipChange, t.env).Skipped? {
        OnlyRowPartMatters(s, t, LeadershipChange);
      }
      TakeoverWritesNoRows(ApplyAll(s, t.workflowId, Script(t, LeadershipChange)), tasks[1..]);
    }
  }

  /** No other task writes the key, and none is for the same workflow. */
  ghost predicate LeavesAlone(t: Task, w: string, k: Webhooks.Key) {
    t.workflowId != w && forall i | 0 <= i < |t.rows| :: t.rows[i].0 != k
  }

  lemma {:induction false} RowsLeaveAlone(s: System, w: string, v: string, k: Webhooks.Key, ms: seq<Micro>)
    requires v != w && Webhooks.HeldBy(s.webhooks, w, k)
    requires forall m | m in ms && m.PutRow? :: m.key != k
    ensures Webhooks.HeldBy(ApplyAll(s, v, ms).webhooks, w, k)
    ensures ApplyAll(s, v, ms).webhooks[k] == s.webhooks[k]
    decreases |ms|
  {
    if ms != [] {
      assert ms[|ms| - 1] in ms;
      assert forall m | m in ms[..|ms| - 1] :: m in ms;
      RowsLeaveAlone(s, w, v, k, ms[..|ms| - 1]);
    }
  }

  lemma ScriptRows(t: Task, mode: Mode, k: Webhooks.Key)
    requires forall i | 0 <= i < |t.rows| :: t.rows[i].0 != k
    ensures forall m | m in Script(t, mode) && m.PutRow? :: m.key != k
  {
    forall m | m in Script(t, mode) && m.PutRow? ensures m.key != k {
      assert m in RowsOf(t.rows);
    }
  }

  lemma {:induction false} OthersLeaveAlone(s: System, tasks: seq<Task>, mode: Mode, w: string, k: Webhooks.Key)
    requires forall t | t in tasks :: LeavesAlone(t, w, k)
    requires Webhooks.HeldBy(s.webhooks, w, k)
    ensures Webhooks.HeldBy(OneByOne(s, tasks, mode).webhooks, w, k)
    ensures OneByOne(s, tasks, mode).webhooks[k] == s.webhooks[k]
    decreases |tasks|
  {
    if tasks != [] {
      var t := tasks[0];
      assert t in tasks && LeavesAlone(t, w, k);
      ScriptRows(t, mode, k);
      RowsLeaveAlone(s, w, t.workflowId, k, Script(t, mode));
      assert forall x | x in tasks[1..] :: x in tasks;
      OthersLeaveAlone(ApplyAll(s, t.workflowId, Script(t, mode)), tasks[1..], mode, w, k);
    }
  }

  /** The workflow is there to be activated, and all its webhooks get stored and set up. */
  predicate Registers(t: Task, ds: seq<Webhooks.Declared>, attempts: seq<Webhooks.Attempt>) {
    && t.found && t.env.active && t.env.startable && Declares(t, ds, attempts)
    && forall i | 0 <= i < |attempts| :: attempts[i].Stored?
  }

  lemma ScriptHolds(s: System, t: Task, ds: seq<Webhooks.Declared>, attempts: seq<Webhooks.Attempt>)
    requires Registers(t, ds, attempts)
    ensures Webhooks.AllHeld(ApplyAll(s, t.workflowId, Script(t, Init)).webhooks, t.workflowId, ds)
  {
    ScriptTable(s, t, Init, ds, attempts);
    Webhooks.WrittenIs(t.workflowId, ds, attempts, |ds|);
    forall i | 0 <= i < |ds|
      ensures Webhooks.HeldBy(s.webhooks + Webhooks.Written(t.workflowId, ds, attempts, |ds|), t.workflowId, Webhooks.KeyOf(ds[i]))
    {
      assert Webhooks.Writes(attempts[i]);
    }
  }

  /** After start-up on init, for every workflow that is there to be activated and whose webhooks work: every one of
      them is in the table and held by it, provided that no other workflow on the list declares its keys. */
  lemma {:induction false} DeclaredKeysHeld(s: System, tasks: seq<Task>, i: nat, ds: seq<Webhooks.Declared>,
        attempts: seq<Webhooks.Attempt>)
    requires i < |tasks| && Registers(tasks[i], ds, attempts)
    requires forall j, d | 0 <= j < |tasks| && j != i && d in ds ::
               LeavesAlone(tasks[j], tasks[i].workflowId, Webhooks.KeyOf(d))
    ensures Webhooks.AllHeld(OneByOne(s, tasks, Init).webhooks, tasks[i].workflowId, ds)
    decreases |tasks|
  {
    var w, rest := tasks[i].workflowId, tasks[1..];
    var s1 := ApplyAll(s, tasks[0].workflowId, Script(tasks[0], Init));
    if i == 0 {
      ScriptHolds(s, tasks[0], ds, attempts);
      forall m | 0 <= m < |ds| ensures Webhooks.HeldBy(OneByOne(s1, rest, Init).webhooks, w, Webhooks.KeyOf(ds[m])) {
        assert ds[m] in ds;
        forall t | t in rest ensures LeavesAlone(t, w, Webhooks.KeyOf(ds[m])) {
          var j :| 0 <= j < |rest| && rest[j] == t;
          assert tasks[j + 1] == t;
        }
        OthersLeaveAlone(s1, rest, Init, w, Webhooks.KeyOf(ds[m]));
      }
    } else {
      assert rest[i - 1] == tasks[i];
      DeclaredKeysHeld(s1, rest, i - 1, ds, attempts);
    }
  }

  /** The same for batches of any size whose activations interleave, as long as no two of a batch write the same
      webhook. */
  lemma DeclaredKeysHeldInBatches(s: System, tasks: seq<Task>, size: nat, traces: seq<seq<Act>>, i: nat,
        ds: seq<Webhooks.Declared>, attempts: seq<Webhooks.Attempt>)
    requires size >= 1 && |traces| == |Chunk(tasks, size)|
    requires forall k | 0 <= k < |traces| :: Interleaves(traces[k], Chunk(tasks, size)[k], Init) && DisjointKeys(traces[k])
    requires i < |tasks| && Registers(tasks[i], ds, attempts)
    requires forall j, d | 0 <= j < |tasks| && j != i && d in ds ::
               LeavesAlone(tasks[j], tasks[i].workflowId, Webhooks.KeyOf(d))
    ensures Webhooks.AllHeld(RunBatches(s, traces).webhooks, tasks[i].workflowId, ds)
  {
    BatchesDoNotMatter(s, tasks, size, traces, Init);
    DeclaredKeysHeld(s, tasks, i, ds, attempts);
  }

  // ---------------------------------------------------------------------------
  // Every workflow is accounted for
  // ---------------------------------------------------------------------------

  /** Each workflow is tried exactly once: its final state is what one activation makes of its first. */
  lemma {:induction false} TriedOnce(s: System, tasks: seq<Task>, mode: Mode, w: string)
    requires StartMode(mode) && DistinctTasks(tasks)
    ensures forall i | 0 <= i < |tasks| && tasks[i].workflowId == w ::
              At(OneByOne(s, tasks, mode), w) == Started(At(s, w), tasks[i], mode)
    ensures (forall i | 0 <= i < |tasks| :: tasks[i].workflowId != w) ==> At(OneByOne(s, tasks, mode), w) == At(s, w)
    decreases |tasks|
  {
    if tasks != [] {
      var t, s1 := tasks[0], ApplyAll(s, tasks[0].workflowId, Script(tasks[0], mode));
      TriedOnce(s1, tasks[1..], mode, w);
      ApplyAllIsLocal(s, t.workflowId, Script(t, mode), w);
      ScriptIsStart(s, t, mode);
      assert forall i | 1 <= i < |tasks| :: tasks[i] == tasks[1..][i - 1];
    }
  }

  /** Activated: off the queue, without an error, and in memory if it has triggers or pollers. */
  predicate IsActivated(l: Local, t: Task, mode: Mode) {
    && t.found && EndOf(mode, t.env).Done?
    && l.entry.None? && l.timers == map[] && l.error.None? && l.inMemory == HasNodes(t.env.nodes)
  }

  /** Skipped: missing or no longer active, and left exactly as it was. */
  predicate IsSkipped(l: Local, t: Task, mode: Mode) {
    && (!t.found || (StartMode(mode) && !t.env.active))
    && l == BLANK
  }

  /** Queued for a retry as an init activation, in a second, with its error on record. */
  predicate IsQueued(l: Local, t: Task) {
    && l.entry.Some? && l.entry.value.mode == Init && l.entry.value.lastTimeout == INITIAL_TIMEOUT
    && l.timers == map[l.entry.value.timer := Job(Init, t.env.active)]
    && l.error == Some(t.env.message) && !IsAuthorization(t.env.message)
  }

  /** Dropped with its error on record, because of an authorization problem. */
  predicate IsDropped(l: Local, t: Task) {
    && l.entry.None? && l.timers == map[]
    && l.error == Some(t.env.message) && IsAuthorization(t.env.message)
  }

  predicate ExactlyOne(a: bool, b: bool, c: bool, d: bool) {
    (a || b || c || d) && !(a && (b || c || d)) && !(b && (c || d)) && !(c && d)
  }

  lemma OneAttempt(t: Task, mode: Mode)
    requires StartMode(mode)
    ensures var l := Started(BLANK, t, mode);
            ExactlyOne(IsActivated(l, t, mode), IsSkipped(l, t, mode), IsQueued(l, t), IsDropped(l, t))
  {
  }

  /** An interleaving changes the state of each workflow by the updates for it, whatever the webhooks. */
  lemma {:induction false} TraceIsLocal(s: System, trace: seq<Act>, w: string)
    ensures At(RunTrace(s, trace), w) == LocalAll(At(s, w), Of(trace, w))
    decreases |trace|
  {
    if trace != [] {
      var a, rest := trace[0], trace[1..];
      var s1 := Apply(s, a.workflowId, a.micro);
      TraceIsLocal(s1, rest, w);
      if a.workflowId == w {
        Single(At(s, w), a.micro);
        LocalAllAppend(At(s, w), [a.micro], Of(rest, w));
      } else {
        assert At(s1, w) == At(s, w);
        assert [] + Of(rest, w) == Of(rest, w);
      }
    }
  }

  lemma NoneOf(trace: seq<Act>, w: string)
    requires forall a | a in trace :: a.workflowId != w
    ensures Of(trace, w) == []
    decreases |trace|
  {
    if trace != [] {
      assert trace[0] in trace;
      assert forall a | a in trace[1..] :: a in trace;
      NoneOf(trace[1..], w);
    }
  }

  /** From `l` to `l'` by trying the listed workflows once each. */
  ghost predicate Tried(l: Local, l': Local, tasks: seq<Task>, mode: Mode, w: string) {
    && (forall i | 0 <= i < |tasks| && tasks[i].workflowId == w :: l' == Started(l, tasks[i], mode))
    && ((forall i | 0 <= i < |tasks| :: tasks[i].workflowId != w) ==> l' == l)
  }

  /** A batch tries each of its workflows once. */
  lemma BatchIsLocal(s: System, trace: seq<Act>, tasks: seq<Task>, mode: Mode, w: string)
    requires StartMode(mode) && Interleaves(trace, tasks, mode)
    ensures Tried(At(s, w), At(RunTrace(s, trace), w), tasks, mode, w)
  {
    TraceIsLocal(s, trace, w);
    forall i | 0 <= i < |tasks| && tasks[i].workflowId == w
      ensures At(RunTrace(s, trace), w) == Started(At(s, w), tasks[i], mode)
    {
      ScriptIsStart(s, tasks[i], mode);
      ApplyAllIsLocal(s, w, Script(tasks[i], mode), w);
    }
    if forall i | 0 <= i < |tasks| :: tasks[i].workflowId != w {
      NoneOf(trace, w);
    }
  }

  lemma TriedInTwo(l: Local, m: Local, l': Local, a: seq<Task>, b: seq<Task>, mode: Mode, w: string)
    requires DistinctTasks(a + b) && Tried(l, m, a, mode, w) && Tried(m, l', b, mode, w)
    ensures Tried(l, l', a + b, mode, w)
  {
    assert forall i | 0 <= i < |a| :: (a + b)[i] == a[i];
    assert forall i | 0 <= i < |b| :: (a + b)[|a| + i] == b[i];
    assert forall i | |a| <= i < |a + b| :: (a + b)[i] == b[i - |a|];
  }

  /** Start-up tries each workflow once, for every batch size of at least one and every interleaving inside the
      batches, even of workflows that declare the same webhook. */
  lemma {:induction false} StartedOnce(s: System, tasks: seq<Task>, size: nat, traces: seq<seq<Act>>,
        mode: Mode, w: string)
    requires size >= 1 && StartMode(mode) && DistinctTasks(tasks)
    requires |traces| == |Chunk(tasks, size)|
    requires forall i | 0 <= i < |traces| :: Interleaves(traces[i], Chunk(tasks, size)[i], mode)
    ensures Tried(At(s, w), At(RunBatches(s, traces), w), tasks, mode, w)
    decreases |tasks|
  {
    if tasks != [] {
      var batch, rest := Chunk(tasks, size)[0], Rest(tasks, size);
      ChunkRest(tasks, size);
      DistinctRest(batch, rest);
      var s1 := RunTrace(s, traces[0]);
      BatchIsLocal(s, traces[0], batch, mode, w);
      StartedOnce(s1, rest, size, traces[1..], mode, w);
      TriedInTwo(At(s, w), At(s1, w), At(RunBatches(s1, traces[1..]), w), batch, rest, mode, w);
    }
  }

  lemma DistinctRest(a: seq<Task>, b: seq<Task>)
    requires DistinctTasks(a + b)
    ensures DistinctTasks(b)
  {
    assert forall i | 0 <= i < |b| :: b[i] == (a + b)[|a| + i];
  }

  /**
   Start-up accounts for every workflow: for every batch size of at least one, however the activations
   inside the batches interleave, each workflow that was untouched before is in exactly one of the four
   states afterwards, and every workflow that is not on the list is as it was.
   */
  lemma AccountedFor(s: System, tasks: seq<Task>, size: nat, traces: seq<seq<Act>>, mode: Mode)
    requires size >= 1 && StartMode(mode) && DistinctTasks(tasks)
    requires |traces| == |Chunk(tasks, size)|
    requires forall i | 0 <= i < |traces| :: Interleaves(traces[i], Chunk(tasks, size)[i], mode)
    ensures var s' := RunBatches(s, traces);
            && (forall i | 0 <= i < |tasks| && At(s, tasks[i].workflowId) == BLANK ::
                  var l, t := At(s', tasks[i].workflowId), tasks[i];
                  ExactlyOne(IsActivated(l, t, mode), IsSkipped(l, t, mode), IsQueued(l, t), IsDropped(l, t)))
            && (forall w | (forall i | 0 <= i < |tasks| :: tasks[i].workflowId != w) :: At(s', w) == At(s, w))
  {
    var s' := RunBatches(s, traces);
    forall i | 0 <= i < |tasks| && At(s, tasks[i].workflowId) == BLANK
      ensures At(s', tasks[i].workflowId) == Started(BLANK, tasks[i], mode)
    {
      StartedOnce(s, tasks, size, traces, mode, tasks[i].workflowId);
    }
    forall i | 0 <= i < |tasks| {
      OneAttempt(tasks[i], mode);
    }
    forall w | forall i | 0 <= i < |tasks| :: tasks[i].workflowId != w ensures At(s', w) == At(s, w) {
      StartedOnce(s, tasks, size, traces, mode, w);
    }
  }
}
