/** Webhook paths: the dynamic test, the trimming of slashes and the stored path length. */
module WebhookPath {

  predicate StartsWith(s: string, c: char) {
    s != "" && s[0] == c
  }

  predicate EndsWith(s: string, c: char) {
    s != "" && s[|s| - 1] == c
  }

  /** `path.includes('/:')` */
  predicate HasSlashColon(path: string) {
    exists i :: 0 <= i < |path| - 1 && path[i] == '/' && path[i + 1] == ':'
  }

  /** The test for a dynamic path in `addWebhooks`. */
  predicate LooksDynamic(path: string) {
    StartsWith(path, ':') || HasSlashColon(path)
  }

  function WithoutLeadingSlash(path: string): string {
    if StartsWith(path, '/') then path[1..] else path
  }

  function WithoutTrailingSlash(path: string): string {
    if EndsWith(path, '/') then path[..|path| - 1] else path
  }

  function Trimmed(path: string): string {
    WithoutTrailingSlash(WithoutLeadingSlash(path))
  }

  /** Trimming takes away one slash at each end where there is one, and nothing else: whatever way a path is put
      together of such slashes and a rest, the rest is what trimming leaves. */
  lemma TrimmedExactly(before: string, p: string, after: string)
    requires before == "" || before == "/"
    requires after == "" || after == "/"
    requires before == "" ==> !StartsWith(p + after, '/')
    requires after == "" ==> !EndsWith(p, '/')
    ensures Trimmed(before + p + after) == p
  {
    var path := before + p + after;
    assert path == before + (p + after);
    assert WithoutLeadingSlash(path) == p + after by {
      if before == "/" { assert path[1..] == p + after; } else { assert path == p + after; }
    }
    if after == "/" { assert (p + after)[..|p|] == p; } else { assert p + after == p; }
  }

  /** `path.split('/')` */
  function Split(path: string): (segments: seq<string>)
    ensures segments != []
  {
    if path == "" then [""]
    else
      var rest := Split(path[1..]);
      if path[0] == '/' then [""] + rest else [[path[0]] + rest[0]] + rest[1..]
  }

  function Slashes(path: string): nat {
    if path == "" then 0 else (if path[0] == '/' then 1 else 0) + Slashes(path[1..])
  }

  predicate SomeSegmentIsParameter(path: string) {
    exists s :: s in Split(path) && StartsWith(s, ':')
  }

  lemma FirstSegment(path: string)
    ensures StartsWith(Split(path)[0], ':') <==> StartsWith(path, ':')
  {
  }

  lemma {:induction false} LaterSegments(path: string)
    ensures (exists s :: s in Split(path)[1..] && StartsWith(s, ':')) <==> HasSlashColon(path)
    decreases |path|
  {
    if path != "" {
      var tail := path[1..];
      var rest := Split(tail);
      LaterSegments(tail);
      FirstSegment(tail);
      assert HasSlashColon(path) <==> (path[0] == '/' && StartsWith(tail, ':')) || HasSlashColon(tail) by {
        if HasSlashColon(tail) {
          var i :| 0 <= i < |tail| - 1 && tail[i] == '/' && tail[i + 1] == ':';
          assert path[i + 1] == '/' && path[i + 2] == ':';
        }
        if i :| 1 <= i < |path| - 1 && path[i] == '/' && path[i + 1] == ':' {
          assert tail[i - 1] == '/' && tail[i] == ':';
        }
        if path[0] == '/' && StartsWith(tail, ':') { assert path[1] == ':'; }
      }
      assert rest == [rest[0]] + rest[1..];
      if path[0] == '/' {
        assert Split(path)[1..] == rest;
      } else {
        assert Split(path)[1..] == rest[1..];
      }
    }
  }

  /** The test holds exactly when some segment of the path is a parameter. */
  lemma LooksDynamicExactly(path: string)
    ensures LooksDynamic(path) <==> SomeSegmentIsParameter(path)
  {
    FirstSegment(path);
    LaterSegments(path);
    var segments := Split(path);
    assert segments == [segments[0]] + segments[1..];
  }

  /** Trimming a slash at both ends, which happens before the path is stored but after the test reads
      it, does not change the answer. */
  lemma TrimmingKeepsDynamic(path: string)
    ensures LooksDynamic(Trimmed(path)) <==> LooksDynamic(path)
  {
  }

  /** The number of segments is one more than the number of slashes. */
  lemma {:induction false} SegmentCount(path: string)
    ensures |Split(path)| == Slashes(path) + 1
    decreases |path|
  {
    if path != "" {
      SegmentCount(path[1..]);
    }
  }

  /** A request for `<webhookId>/<rest>` is looked up by the number of segments after the first, which
      is the number of segments of the rest: what a webhook stored for that rest carries. */
  lemma {:induction false} RequestHasOneMore(webhookId: string, rest: string)
    requires '/' !in webhookId
    ensures Split(webhookId + "/" + rest) == [webhookId] + Split(rest)
    decreases |webhookId|
  {
    if webhookId == "" {
      assert webhookId + "/" + rest == "/" + rest;
      assert ("/" + rest)[1..] == rest;
    } else {
      RequestHasOneMore(webhookId[1..], rest);
      assert (webhookId + "/" + rest)[1..] == webhookId[1..] + "/" + rest;
      assert [webhookId[0]] + webhookId[1..] == webhookId;
    }
  }
}

/** The registration of a workflow's webhooks in the shared webhook table. */
module Webhooks {
  import opened ActivationMode
  import opened WebhookPath
  import opened Wrappers

  datatype Row = Row(workflowId: string, node: string, webhookId: Option<string>, pathLength: Option<nat>)

  datatype Key = Key(httpMethod: string, webhookPath: string)

  /** One row per method and path. */
  type Table = map<Key, Row>

  /** What a workflow declares: the method, the raw path and the node, which may have a webhook id. */
  datatype Declared = Declared(httpMethod: string, path: string, node: string, webhookId: Option<string>)

  function KeyOf(d: Declared): Key {
    Key(d.httpMethod, Trimmed(d.path))
  }

  function RowOf(workflowId: string, d: Declared): Row {
    if LooksDynamic(d.path) && d.webhookId.Some?
    then Row(workflowId, d.node, d.webhookId, Some(|Split(Trimmed(d.path))|))
    else Row(workflowId, d.node, None, None)
  }

  datatype Failure = QueryFailed | OtherError

  /** How storing one webhook goes: stored and set up, not stored, or stored but not set up. */
  datatype Attempt = Stored | StoreFailed(failure: Failure) | SetUpFailed(failure: Failure)

  datatype Outcome = Nothing | Added | PathTaken | Error

  /** On init, a failing query is skipped over. */
  predicate Skipped(a: Attempt, mode: Mode) {
    a.Stored? || (mode == Init && a.failure == QueryFailed)
  }

  /** What gets stored for a webhook: it belongs to the workflow and the node, and it carries the webhook id and the
      number of segments exactly if a segment of the path is a parameter and the node has a webhook id. */
  lemma RowIs(workflowId: string, d: Declared)
    ensures var row := RowOf(workflowId, d);
            && row.workflowId == workflowId && row.node == d.node
            && if SomeSegmentIsParameter(d.path) && d.webhookId.Some?
               then row.webhookId == d.webhookId && row.pathLength == Some(Slashes(Trimmed(d.path)) + 1)
               else row.webhookId.None? && row.pathLength.None?
    ensures KeyOf(d).httpMethod == d.httpMethod && KeyOf(d).webhookPath == Trimmed(d.path)
  {
    LooksDynamicExactly(d.path);
    SegmentCount(Trimmed(d.path));
  }

  /** Position of the first attempt that ends the registration, or the length. */
  function Stop(attempts: seq<Attempt>, mode: Mode): (n: nat)
    ensures n <= |attempts|
    ensures forall i | 0 <= i < n :: Skipped(attempts[i], mode)
    ensures n < |attempts| ==> !Skipped(attempts[n], mode)
  {
    if attempts == [] || !Skipped(attempts[0], mode) then 0 else 1 + Stop(attempts[1..], mode)
  }

  predicate Writes(a: Attempt) {
    !a.StoreFailed?
  }

  /** The rows that the first `n` attempts write; a later one for the same key replaces an earlier one. */
  function Written(workflowId: string, ds: seq<Declared>, attempts: seq<Attempt>, n: nat): Table
    requires n <= |ds| == |attempts|
  {
    if n == 0 then map[]
    else
      var before := Written(workflowId, ds, attempts, n - 1);
      if Writes(attempts[n - 1]) then before[KeyOf(ds[n - 1]) := RowOf(workflowId, ds[n - 1])] else before
  }

  function WithoutWorkflow(t: Table, workflowId: string): Table {
    map k | k in t && t[k].workflowId != workflowId :: t[k]
  }

  /** The table once `addWebhooks` has ended, `cleared` saying whether the clean-up of a failed one worked. */
  function AfterAdding(before: Table, workflowId: string, ds: seq<Declared>, attempts: seq<Attempt>, mode: Mode,
                       cleared: bool): Table
    requires |ds| == |attempts|
  {
    var n := Stop(attempts, mode);
    if n == |ds| then before + Written(workflowId, ds, attempts, n)
    else
      var written := before + Written(workflowId, ds, attempts, n + 1);
      if cleared then WithoutWorkflow(written, workflowId) else written
  }

  lemma PutOver(t: Table, u: Table, key: Key, row: Row)
    ensures t + u[key := row] == (t + u)[key := row]
  {
  }

  class WebhookService {
    var rows: Table

    /** An insert or, where method and path are taken by whatever workflow, an update of that row. */
    method StoreWebhook(key: Key, row: Row)
      modifies this
      ensures rows == old(rows)[key := row]
    {
      rows := rows[key := row];
    }

    method DeleteWorkflowWebhooks(workflowId: string)
      modifies this
      ensures rows == WithoutWorkflow(old(rows), workflowId)
    {
      rows := map k | k in rows && rows[k].workflowId != workflowId :: rows[k];
    }

    /** `clearWebhooks`: fails when the workflow is gone or when deregistering one of its webhooks from
        the external service fails, and deletes the rows only after all of that. */
    method ClearWebhooks(workflowId: string, found: bool, deregistered: seq<bool>) returns (ok: bool)
      modifies this
      ensures ok <==> found && forall i | 0 <= i < |deregistered| :: deregistered[i]
      ensures rows == if ok then WithoutWorkflow(old(rows), workflowId) else old(rows)
    {
      if !found {
        return false;
      }
      for i := 0 to |deregistered|
        invariant forall j | 0 <= j < i :: deregistered[j]
        invariant rows == old(rows)
      {
        if !deregistered[i] {
          return false;
        }
      }
      DeleteWorkflowWebhooks(workflowId);
      return true;
    }

    /** `addWebhooks`, under given outcomes of its calls.  `refreshes` says whether reading the webhooks back for
        the cache works; when it does not, the rows stay although the call fails. */
    method AddWebhooks(workflowId: string, webhooks: seq<Declared>, attempts: seq<Attempt>, activation: Mode,
                       found: bool, deregistered: seq<bool>, refreshes: bool)
      returns (outcome: Outcome, ghost cleared: bool)
      requires |webhooks| == |attempts|
      modifies this
      ensures rows == AfterAdding(old(rows), workflowId, webhooks, attempts, activation, cleared)
      ensures var n := Stop(attempts, activation);
              if n == |webhooks|
              then && outcome == (if n == 0 then Nothing else if refreshes then Added else Error)
                   && !cleared
              else && outcome == (if attempts[n].failure == QueryFailed then PathTaken else Error)
                   && (cleared <==> found && forall i | 0 <= i < |deregistered| :: deregistered[i])
    {
      cleared := false;
      if |webhooks| == 0 {
        return Nothing, false;
      }
      var i := 0;
      while i < |webhooks|
        invariant 0 <= i <= Stop(attempts, activation)
        invariant rows == old(rows) + Written(workflowId, webhooks, attempts, i)
      {
        ghost var before := Written(workflowId, webhooks, attempts, i);
        var key, row := KeyOf(webhooks[i]), RowOf(workflowId, webhooks[i]);
        if !attempts[i].StoreFailed? {
          StoreWebhook(key, row);
          PutOver(old(rows), before, key, row);
        }
        if !attempts[i].Stored? && !(activation == Init && attempts[i].failure == QueryFailed) {
          var ok := ClearWebhooks(workflowId, found, deregistered);
          cleared := ok;
          outcome := if attempts[i].failure == QueryFailed then PathTaken else Error;
          return;
        }
        i := i + 1;
      }
      return (if refreshes then Added else Error), false;
    }
  }

  // ---------------------------------------------------------------------------
  // Properties
  // ---------------------------------------------------------------------------

  lemma {:induction false} WrittenIs(workflowId: string, ds: seq<Declared>, attempts: seq<Attempt>, n: nat)
    requires n <= |ds| == |attempts|
    ensures forall k :: k in Written(workflowId, ds, attempts, n)
                        <==> exists i :: 0 <= i < n && Writes(attempts[i]) && KeyOf(ds[i]) == k
    ensures forall k | k in Written(workflowId, ds, attempts, n) :: Written(workflowId, ds, attempts, n)[k].workflowId == workflowId
    decreases n
  {
    if n > 0 {
      WrittenIs(workflowId, ds, attempts, n - 1);
    }
  }

  /** Where several webhooks of a workflow have the same method and path, the last one stored counts. */
  lemma {:induction false} LastStoredCounts(workflowId: string, ds: seq<Declared>, attempts: seq<Attempt>,
        n: nat, i: nat)
    requires i < n <= |ds| == |attempts| && Writes(attempts[i])
    requires forall j | i < j < n && KeyOf(ds[j]) == KeyOf(ds[i]) :: attempts[j].StoreFailed?
    ensures KeyOf(ds[i]) in Written(workflowId, ds, attempts, n)
    ensures Written(workflowId, ds, attempts, n)[KeyOf(ds[i])] == RowOf(workflowId, ds[i])
    decreases n
  {
    if i < n - 1 {
      LastStoredCounts(workflowId, ds, attempts, n - 1, i);
    }
  }

  predicate HeldBy(t: Table, workflowId: string, k: Key) {
    k in t && t[k].workflowId == workflowId
  }

  ghost predicate AllHeld(t: Table, workflowId: string, ds: seq<Declared>) {
    forall i | 0 <= i < |ds| :: HeldBy(t, workflowId, KeyOf(ds[i]))
  }

  ghost predicate NoneHeld(t: Table, workflowId: string) {
    forall k :: !HeldBy(t, workflowId, k)
  }

  /** All or nothing, for every failing position: a registration that goes through, other than on init,
      leaves a row for every webhook of the workflow, and one that fails leaves it none at all once the
      clean-up succeeded. */
  lemma AllOrNothing(workflowId: string, ds: seq<Declared>, attempts: seq<Attempt>, mode: Mode, before: Table,
        cleared: bool)
    requires |ds| == |attempts|
    ensures mode != Init && Stop(attempts, mode) == |ds| ==>
              AllHeld(AfterAdding(before, workflowId, ds, attempts, mode, cleared), workflowId, ds)
    ensures Stop(attempts, mode) < |ds| && cleared ==>
              NoneHeld(AfterAdding(before, workflowId, ds, attempts, mode, cleared), workflowId)
  {
    var n := Stop(attempts, mode);
    if mode != Init && n == |ds| {
      WrittenIs(workflowId, ds, attempts, n);
      forall i | 0 <= i < |ds| ensures KeyOf(ds[i]) in Written(workflowId, ds, attempts, n) {
        assert Skipped(attempts[i], mode) && Writes(attempts[i]);
      }
    }
  }

  predicate HeldByOther(t: Table, workflowId: string, k: Key) {
    k in t && t[k].workflowId != workflowId
  }

  predicate Kept(before: Table, after: Table, k: Key) {
    k in after && k in before && after[k] == before[k]
  }

  /** Another workflow keeps its row exactly when no attempt, up to and including the one that ends the registration,
      writes that key: storing takes over rows of other workflows, and the clean-up then deletes them. */
  lemma OthersKeptExactly(workflowId: string, ds: seq<Declared>, attempts: seq<Attempt>, mode: Mode, before: Table,
        cleared: bool, k: Key)
    requires |ds| == |attempts| && HeldByOther(before, workflowId, k)
    ensures Kept(before, AfterAdding(before, workflowId, ds, attempts, mode, cleared), k) <==>
            forall i | 0 <= i <= Stop(attempts, mode) && i < |ds| && KeyOf(ds[i]) == k :: attempts[i].StoreFailed?
  {
    var n := Stop(attempts, mode);
    WrittenIs(workflowId, ds, attempts, if n == |ds| then n else n + 1);
  }

  /** A concrete case: workflow "b" declares the path of workflow "a" and then fails to be set up.  The clean-up
      works, and the row of "a" is gone. */
  lemma OthersRowGone()
    ensures var d := Declared("GET", "/hook/", "Webhook", None);
            var before := map[Key("GET", "hook") := Row("a", "Webhook", None, None)];
            && KeyOf(d) == Key("GET", "hook")
            && AfterAdding(before, "b", [d], [SetUpFailed(OtherError)], Activate, true) == map[]
  {
    var d := Declared("GET", "/hook/", "Webhook", None);
    assert "/hook/"[1..] == "hook/" && "hook/"[..4] == "hook";
    assert Written("b", [d], [SetUpFailed(OtherError)], 0) == map[];
    assert Stop([SetUpFailed(OtherError)], Activate) == 0;
    assert Written("b", [d], [SetUpFailed(OtherError)], 1) == map[KeyOf(d) := RowOf("b", d)];
  }

  /** Rows appear for other workflows under no circumstances. */
  lemma NothingForOthers(workflowId: string, ds: seq<Declared>, attempts: seq<Attempt>, mode: Mode, before: Table,
        cleared: bool, k: Key)
    requires |ds| == |attempts|
    ensures var after := AfterAdding(before, workflowId, ds, attempts, mode, cleared);
            HeldByOther(after, workflowId, k) ==> HeldByOther(before, workflowId, k) && Kept(before, after, k)
  {
    var n := Stop(attempts, mode);
    WrittenIs(workflowId, ds, attempts, if n == |ds| then n else n + 1);
  }

  /** A table that already holds exactly the rows of the workflow's webhooks. */
  predicate Holds(t: Table, workflowId: string, ds: seq<Declared>) {
    forall i | 0 <= i < |ds| :: KeyOf(ds[i]) in t && t[KeyOf(ds[i])] == RowOf(workflowId, ds[i])
  }

  lemma {:induction false} WrittenWithin(workflowId: string, ds: seq<Declared>, attempts: seq<Attempt>, n: nat,
        t: Table)
    requires n <= |ds| == |attempts| && Holds(t, workflowId, ds)
    ensures forall k | k in Written(workflowId, ds, attempts, n) :: k in t && t[k] == Written(workflowId, ds, attempts, n)[k]
    decreases n
  {
    if n > 0 {
      WrittenWithin(workflowId, ds, attempts, n - 1, t);
    }
  }

  /** A later start on a table that still holds the workflow's rows, where nothing fails but queries,
      succeeds and leaves the table as it is. */
  lemma InitAgain(workflowId: string, ds: seq<Declared>, attempts: seq<Attempt>, t: Table, cleared: bool)
    requires |ds| == |attempts| && Holds(t, workflowId, ds)
    requires forall i | 0 <= i < |attempts| :: attempts[i].Stored? || attempts[i].failure == QueryFailed
    ensures Stop(attempts, Init) == |ds|
    ensures AfterAdding(t, workflowId, ds, attempts, Init, cleared) == t
  {
    WrittenWithin(workflowId, ds, attempts, |ds|, t);
  }
}
