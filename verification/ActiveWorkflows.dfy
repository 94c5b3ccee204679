/**
 Triggers and pollers that are active in memory on one instance.  What is kept
 of a workflow is the record that makes it active, with the triggers to close, and the cron jobs
 registered for it, which live in a table of their own.
 */
module ActiveWorkflows {

  /** How starting one trigger node goes: with something to close later, with nothing, or not at all;
      and how many cron jobs it registered meanwhile. */
  datatype TriggerStart = Response(crons: nat) | NoResponse(crons: nat) | Threw(crons: nat)

  /** A poller node: whether its first poll works, and which of its cron times are accepted. */
  datatype Poller = Poller(polls: bool, crons: seq<bool>)

  /** The trigger and poller nodes of a workflow, with how starting each of them goes. */
  datatype Nodes = Nodes(triggers: seq<TriggerStart>, pollers: seq<Poller>)

  predicate SomeThrew(ts: seq<TriggerStart>) {
    exists i :: 0 <= i < |ts| && ts[i].Threw?
  }

  predicate Fails(p: Poller) {
    !p.polls || false in p.crons
  }

  predicate SomePollFailed(n: Nodes) {
    exists i :: 0 <= i < |n.pollers| && Fails(n.pollers[i])
  }

  predicate Succeeds(n: Nodes) {
    !SomeThrew(n.triggers) && !SomePollFailed(n)
  }

  /** Responses obtained before the first trigger that threw. */
  function Responses(ts: seq<TriggerStart>): nat {
    if ts == [] || ts[0].Threw? then 0 else (if ts[0].Response? then 1 else 0) + Responses(ts[1..])
  }

  /** Cron jobs registered by the triggers, up to and including the first one that threw. */
  function TriggerCrons(ts: seq<TriggerStart>): nat {
    if ts == [] then 0 else ts[0].crons + if ts[0].Threw? then 0 else TriggerCrons(ts[1..])
  }

  /** Trigger by trigger: each one adds its response, if it has one, and its cron jobs; one that throws adds its
      cron jobs only, and nothing counts after it. */
  lemma {:induction false} TriggersOneByOne(ts: seq<TriggerStart>, t: TriggerStart, later: seq<TriggerStart>)
    requires forall i | 0 <= i < |ts| :: !ts[i].Threw?
    ensures !t.Threw? ==> Responses(ts + [t]) == Responses(ts) + if t.Response? then 1 else 0
    ensures t.Threw? ==> Responses(ts + [t] + later) == Responses(ts)
    ensures TriggerCrons(ts + [t]) == TriggerCrons(ts) + t.crons
    ensures t.Threw? ==> TriggerCrons(ts + [t] + later) == TriggerCrons(ts) + t.crons
    decreases |ts|
  {
    if ts == [] {
      assert [] + [t] + later == [t] + later;
      assert [t][1..] == [];
    } else {
      TriggersOneByOne(ts[1..], t, later);
      assert (ts + [t])[1..] == ts[1..] + [t];
      assert (ts + [t] + later)[1..] == ts[1..] + [t] + later;
    }
  }

  /** Accepted cron times before the first one that is rejected. */
  function Accepted(crons: seq<bool>): nat {
    if crons == [] || !crons[0] then 0 else 1 + Accepted(crons[1..])
  }

  /** All that come before the first rejected one. */
  lemma {:induction false} AcceptedExactly(crons: seq<bool>)
    ensures Accepted(crons) <= |crons|
    ensures forall i | 0 <= i < Accepted(crons) :: crons[i]
    ensures Accepted(crons) < |crons| ==> !crons[Accepted(crons)]
    decreases |crons|
  {
    if crons != [] && crons[0] {
      AcceptedExactly(crons[1..]);
    }
  }

  function CronsOf(p: Poller): nat {
    if p.polls then Accepted(p.crons) else 0
  }

  /** Cron jobs registered by the pollers, up to and including the first one that failed. */
  function PollerCrons(ps: seq<Poller>): nat {
    if ps == [] then 0 else CronsOf(ps[0]) + if Fails(ps[0]) then 0 else PollerCrons(ps[1..])
  }

  /** Poller by poller: each one adds its cron jobs, and nothing counts after one that fails. */
  lemma {:induction false} PollersOneByOne(ps: seq<Poller>, p: Poller, later: seq<Poller>)
    requires forall i | 0 <= i < |ps| :: !Fails(ps[i])
    ensures PollerCrons(ps + [p]) == PollerCrons(ps) + CronsOf(p)
    ensures Fails(p) ==> PollerCrons(ps + [p] + later) == PollerCrons(ps) + CronsOf(p)
    decreases |ps|
  {
    if ps == [] {
      assert [] + [p] + later == [p] + later;
      assert [p][1..] == [];
    } else {
      PollersOneByOne(ps[1..], p, later);
      assert (ps + [p])[1..] == ps[1..] + [p];
      assert (ps + [p] + later)[1..] == ps[1..] + [p] + later;
    }
  }

  function Crons(n: Nodes): nat {
    TriggerCrons(n.triggers) + if SomeThrew(n.triggers) then 0 else PollerCrons(n.pollers)
  }

  /** The number of responses recorded for the workflow, if it is recorded as active. */
  datatype Recorded = NotActive | Active(responses: nat)

  function RecordedAfter(before: Recorded, n: Nodes): Recorded {
    if SomeThrew(n.triggers) then before
    else if SomePollFailed(n) && Responses(n.triggers) == 0 then NotActive
    else Active(Responses(n.triggers))
  }

  /** Everything about one workflow: its record, how many records were ever made for it, which of the recorded
      triggers have been closed all the same, how many open triggers are on no record, and its cron jobs. */
  datatype Live = Live(recorded: Recorded, made: nat, shut: set<nat>, lost: nat, crons: nat)

  const NOTHING := Live(NotActive, 0, {}, 0, 0)

  /** The recorded triggers that are still open. */
  function OpenOnes(l: Live): set<nat> {
    if l.recorded.NotActive? then {} else set i: nat | i < l.recorded.responses && i !in l.shut
  }

  function Added(l: Live, n: Nodes): Live {
    if SomeThrew(n.triggers) then l.(lost := l.lost + Responses(n.triggers), crons := l.crons + Crons(n))
    else Live(RecordedAfter(l.recorded, n), l.made + 1, {}, l.lost + |OpenOnes(l)|, l.crons + Crons(n))
  }

  /** How closing one trigger goes: done, given up with a report, or given up by throwing. */
  datatype Close = Closes | Reports | Throws

  function FirstThrow(closes: seq<Close>): (n: nat)
    ensures n <= |closes|
    ensures forall i | 0 <= i < n :: closes[i] != Throws
    ensures n < |closes| ==> closes[n] == Throws
  {
    if closes == [] || closes[0] == Throws then 0 else 1 + FirstThrow(closes[1..])
  }

  /** The triggers closed before closing one of them throws. */
  function ShutBy(closes: seq<Close>): set<nat> {
    set i: nat | i < FirstThrow(closes) && closes[i] == Closes
  }

  /** One outcome per recorded trigger. */
  predicate Fit(l: Live, closes: seq<Close>) {
    l.recorded.Active? ==> |closes| == l.recorded.responses
  }

  function Removed(l: Live, closes: seq<Close>): Live {
    if l.recorded.NotActive? then l
    else if FirstThrow(closes) < |closes| then l.(shut := l.shut + ShutBy(closes), crons := 0)
    else Live(NotActive, l.made, {}, l.lost + |OpenOnes(l) - ShutBy(closes)|, 0)
  }

  class ActiveWorkflowsService {
    var activeWorkflows: map<string, nat>
    var cronJobs: map<string, nat>
    ghost var made: map<string, nat>
    ghost var shut: map<string, set<nat>>
    ghost var lost: map<string, nat>

    ghost function Of(workflowId: string): Live
      reads this
    {
      Live(if workflowId in activeWorkflows then Active(activeWorkflows[workflowId]) else NotActive,
           if workflowId in made then made[workflowId] else 0,
           if workflowId in shut then shut[workflowId] else {},
           if workflowId in lost then lost[workflowId] else 0,
           if workflowId in cronJobs then cronJobs[workflowId] else 0)
    }

    /** `add`: starts the triggers in order, records the workflow, then starts the pollers. */
    method Add(workflowId: string, nodes: Nodes) returns (ok: bool)
      modifies this
      ensures ok <==> Succeeds(nodes)
      ensures Of(workflowId) == Added(old(Of(workflowId)), nodes)
      ensures forall w | w != workflowId :: Of(w) == old(Of(w))
    {
      var triggerResponses := StartTriggers(workflowId, nodes.triggers);
      if SomeThrew(nodes.triggers) {
        Lose(workflowId, triggerResponses);
        return false;
      }
      Record(workflowId, triggerResponses);
      ok := StartPollers(workflowId, nodes.pollers);
      if !ok && triggerResponses == 0 {
        activeWorkflows := activeWorkflows - {workflowId};
      }
    }

    /** A new record; triggers still open on the old one are lost with it. */
    method Record(workflowId: string, triggerResponses: nat)
      modifies this`activeWorkflows, this`made, this`lost, this`shut
      ensures var l := old(Of(workflowId));
              Of(workflowId) == Live(Active(triggerResponses), l.made + 1, {}, l.lost + |OpenOnes(l)|, l.crons)
      ensures forall w | w != workflowId :: Of(w) == old(Of(w))
    {
      made := made[workflowId := Of(workflowId).made + 1];
      lost := lost[workflowId := Of(workflowId).lost + |OpenOnes(Of(workflowId))|];
      shut := shut[workflowId := {}];
      activeWorkflows := activeWorkflows[workflowId := triggerResponses];
    }

    /** Triggers that no record mentions. */
    ghost method Lose(workflowId: string, triggers: nat)
      modifies this`lost
      ensures Of(workflowId) == old(Of(workflowId)).(lost := old(Of(workflowId)).lost + triggers)
      ensures forall w | w != workflowId :: Of(w) == old(Of(w))
    {
      lost := lost[workflowId := Of(workflowId).lost + triggers];
    }

    method RegisterCrons(workflowId: string, crons: nat)
      modifies this`cronJobs
      ensures Of(workflowId) == old(Of(workflowId)).(crons := old(Of(workflowId)).crons + crons)
      ensures forall w | w != workflowId :: Of(w) == old(Of(w))
    {
      cronJobs := cronJobs[workflowId := (if workflowId in cronJobs then cronJobs[workflowId] else 0) + crons];
    }

    method StartTriggers(workflowId: string, triggers: seq<TriggerStart>) returns (triggerResponses: nat)
      modifies this`cronJobs
      ensures triggerResponses == Responses(triggers)
      ensures Of(workflowId) == old(Of(workflowId)).(crons := old(Of(workflowId)).crons + TriggerCrons(triggers))
      ensures forall w | w != workflowId :: Of(w) == old(Of(w))
    {
      triggerResponses := 0;
      var i := 0;
      ghost var crons: nat := 0;
      assert triggers[0..] == triggers;
      while i < |triggers|
        invariant 0 <= i <= |triggers|
        invariant triggerResponses + Responses(triggers[i..]) == Responses(triggers)
        invariant crons + TriggerCrons(triggers[i..]) == TriggerCrons(triggers)
        invariant Of(workflowId) == old(Of(workflowId)).(crons := old(Of(workflowId)).crons + crons)
        invariant forall w | w != workflowId :: Of(w) == old(Of(w))
      {
        assert triggers[i..][1..] == triggers[i + 1..];
        RegisterCrons(workflowId, triggers[i].crons);
        crons := crons + triggers[i].crons;
        if triggers[i].Threw? {
          return;
        }
        if triggers[i].Response? {
          triggerResponses := triggerResponses + 1;
        }
        i := i + 1;
      }
    }

    method StartPollers(workflowId: string, pollers: seq<Poller>) returns (ok: bool)
      modifies this`cronJobs
      ensures ok <==> forall i | 0 <= i < |pollers| :: !Fails(pollers[i])
      ensures var l := old(Of(workflowId)); Of(workflowId) == l.(crons := l.crons + PollerCrons(pollers))
      ensures forall w | w != workflowId :: Of(w) == old(Of(w))
    {
      var i := 0;
      ghost var crons: nat := 0;
      assert pollers[0..] == pollers;
      while i < |pollers|
        invariant 0 <= i <= |pollers|
        invariant forall j | 0 <= j < i :: !Fails(pollers[j])
        invariant crons + PollerCrons(pollers[i..]) == PollerCrons(pollers)
        invariant Of(workflowId) == old(Of(workflowId)).(crons := old(Of(workflowId)).crons + crons)
        invariant forall w | w != workflowId :: Of(w) == old(Of(w))
      {
        assert pollers[i..][1..] == pollers[i + 1..];
        ok := ActivatePolling(workflowId, pollers[i]);
        crons := crons + CronsOf(pollers[i]);
        if !ok {
          return;
        }
        i := i + 1;
      }
      return true;
    }

    /** `activatePolling`: one poll at once, then a cron job for every cron time up to a rejected one. */
    method ActivatePolling(workflowId: string, poller: Poller) returns (ok: bool)
      modifies this`cronJobs
      ensures ok <==> !Fails(poller)
      ensures var l := old(Of(workflowId)); Of(workflowId) == l.(crons := l.crons + CronsOf(poller))
      ensures forall w | w != workflowId :: Of(w) == old(Of(w))
    {
      if !poller.polls {
        return false;
      }
      var i := 0;
      assert poller.crons[0..] == poller.crons;
      while i < |poller.crons|
        invariant 0 <= i <= |poller.crons|
        invariant false !in poller.crons[..i]
        invariant i + Accepted(poller.crons[i..]) == Accepted(poller.crons)
        invariant Of(workflowId) == old(Of(workflowId)).(crons := old(Of(workflowId)).crons + i)
        invariant forall w | w != workflowId :: Of(w) == old(Of(w))
      {
        assert poller.crons[i..][1..] == poller.crons[i + 1..];
        if !poller.crons[i] {
          return false;
        }
        RegisterCrons(workflowId, 1);
        i := i + 1;
      }
      assert poller.crons[..i] == poller.crons;
      return true;
    }

    /** `remove`: nothing for a workflow that is not recorded; otherwise its cron jobs go first, then its
        recorded triggers are closed in order, and the record goes unless closing threw. */
    method Remove(workflowId: string, closes: seq<Close>) returns (ok: bool)
      requires Fit(Of(workflowId), closes)
      modifies this
      ensures Of(workflowId) == Removed(old(Of(workflowId)), closes)
      ensures ok <==> (old(Of(workflowId)).recorded.Active? ==> Throws !in closes)
      ensures forall w | w != workflowId :: Of(w) == old(Of(w))
    {
      if workflowId !in activeWorkflows {
        return true;
      }
      DeregisterCrons(workflowId);
      ok := CloseTriggers(workflowId, closes);
      if ok {
        assert OpenOnes(Of(workflowId)) == OpenOnes(old(Of(workflowId))) - ShutBy(closes);
        Erase(workflowId);
      }
    }

    method DeregisterCrons(workflowId: string)
      modifies this`cronJobs
      ensures Of(workflowId) == old(Of(workflowId)).(crons := 0)
      ensures forall w | w != workflowId :: Of(w) == old(Of(w))
    {
      cronJobs := cronJobs - {workflowId};
    }

    /** The record goes; triggers still open on it are lost with it. */
    method Erase(workflowId: string)
      modifies this`activeWorkflows, this`lost, this`shut
      ensures var l := old(Of(workflowId)); Of(workflowId) == Live(NotActive, l.made, {}, l.lost + |OpenOnes(l)|, l.crons)
      ensures forall w | w != workflowId :: Of(w) == old(Of(w))
    {
      lost := lost[workflowId := Of(workflowId).lost + |OpenOnes(Of(workflowId))|];
      shut := shut[workflowId := {}];
      activeWorkflows := activeWorkflows - {workflowId};
    }

    method CloseTriggers(workflowId: string, closes: seq<Close>) returns (ok: bool)
      modifies this`shut
      ensures Of(workflowId) == old(Of(workflowId)).(shut := old(Of(workflowId)).shut + ShutBy(closes))
      ensures ok <==> FirstThrow(closes) == |closes|
      ensures ok <==> Throws !in closes
      ensures forall w | w != workflowId :: Of(w) == old(Of(w))
    {
      var i := 0;
      ghost var own := {};
      while i < |closes|
        invariant 0 <= i <= FirstThrow(closes)
        invariant own == set j: nat | j < i && closes[j] == Closes
        invariant Of(workflowId) == old(Of(workflowId)).(shut := old(Of(workflowId)).shut + own)
        invariant forall w | w != workflowId :: Of(w) == old(Of(w))
      {
        if closes[i] == Throws {
          return false;
        }
        if closes[i] == Closes {
          own := own + {i};
          shut := shut[workflowId := Of(workflowId).shut + {i}];
        }
        i := i + 1;
      }
      return true;
    }
  }

  /** Everything that is open can still be closed: no trigger is off the record, and a workflow that is not
      recorded has no cron jobs. */
  predicate NothingLeaked(l: Live) {
    l.lost == 0 && (l.recorded.NotActive? ==> l.crons == 0)
  }

  predicate AllGone(l: Live) {
    l.recorded.NotActive? && l.lost == 0 && l.crons == 0
  }

  /** Removing a workflow gets rid of everything exactly when nothing had leaked and every trigger that is
      still open closes, with none of the attempts throwing. */
  lemma RemovedExactly(l: Live, closes: seq<Close>)
    requires Fit(l, closes)
    ensures AllGone(Removed(l, closes)) <==>
            && NothingLeaked(l)
            && (l.recorded.Active? ==> Throws !in closes && forall i | i in OpenOnes(l) :: closes[i] == Closes)
  {
    if l.recorded.Active? && Throws !in closes {
      var rest := OpenOnes(l) - ShutBy(closes);
      assert forall i | i in OpenOnes(l) :: i in rest || closes[i] == Closes;
      assert rest == {} || exists i :: i in rest;
    }
  }

  /**
   Adding leaks nothing exactly in these cases, told by the guards of the code:
   - a trigger threw: no earlier one responded, and the workflow was active or no cron job was registered;
   - a poller failed next to no response, which takes the record away: no trigger was open and there is no
     cron job, of this call or of earlier ones;
   - otherwise: no trigger was open before.
   */
  lemma NothingLeakedExactly(l: Live, n: Nodes)
    requires NothingLeaked(l)
    ensures NothingLeaked(Added(l, n)) <==>
            if SomeThrew(n.triggers)
            then Responses(n.triggers) == 0 && (l.recorded.Active? || TriggerCrons(n.triggers) == 0)
            else if SomePollFailed(n) && Responses(n.triggers) == 0
            then OpenOnes(l) == {} && l.crons == 0 && TriggerCrons(n.triggers) == 0 && PollerCrons(n.pollers) == 0
            else OpenOnes(l) == {}
  {
  }

  /** The very same record before and after, or none. */
  predicate SameRecord(l: Live, l': Live) {
    if l.recorded.NotActive? then l'.recorded.NotActive? else l'.recorded.Active? && l'.made == l.made
  }

  /** A failed `add` leaves the record of the workflow alone exactly when a trigger threw, or when the workflow
      was inactive and no trigger responded; any other replaces a record, makes one, or takes one away. */
  lemma FailedAddUnchangedExactly(l: Live, n: Nodes)
    requires !Succeeds(n)
    ensures SameRecord(l, Added(l, n)) <==>
            SomeThrew(n.triggers) || (l.recorded.NotActive? && Responses(n.triggers) == 0)
  {
  }

  /** A concrete case: adding a workflow again whose trigger responds as before and whose poller now fails.  The
      record looks the same but is a new one, and the trigger on the old one can no longer be closed. */
  lemma RecordReplaced()
    ensures var l, n := NOTHING.(recorded := Active(1), made := 1), Nodes([Response(0)], [Poller(false, [])]);
            && !Succeeds(n) && Added(l, n).recorded == l.recorded
            && !SameRecord(l, Added(l, n)) && Added(l, n).lost == 1
  {
    var l, n := NOTHING.(recorded := Active(1), made := 1), Nodes([Response(0)], [Poller(false, [])]);
    assert Fails(n.pollers[0]);
    assert !SomeThrew(n.triggers);
    assert Responses(n.triggers) == 1;
    assert OpenOnes(l) == {0};
  }

  /** A concrete case: a poller fails next to a trigger that responded, and the workflow stays active. */
  lemma FailedYetActive()
    ensures var n := Nodes([Response(0)], [Poller(false, [])]); !Succeeds(n) && RecordedAfter(NotActive, n) == Active(1)
  {
    assert Fails(Nodes([Response(0)], [Poller(false, [])]).pollers[0]);
  }

  /** A concrete case: the first of two pollers is up when the second one fails.  The record goes and the
      cron job stays, with nothing on record that would let a removal stop it. */
  lemma PollerLeft()
    ensures var n := Nodes([], [Poller(true, [true]), Poller(false, [])]);
            && !Succeeds(n)
            && Added(NOTHING, n) == NOTHING.(crons := 1, made := 1)
            && !NothingLeaked(Added(NOTHING, n))
  {
    var n := Nodes([], [Poller(true, [true]), Poller(false, [])]);
    assert Fails(n.pollers[1]);
    assert PollerCrons(n.pollers) == 1 + PollerCrons([Poller(false, [])]);
    assert !SomeThrew(n.triggers);
  }

  /** The same with a single poller whose second cron time is rejected. */
  lemma RejectedCronTimeLeavesAnother()
    ensures var n := Nodes([], [Poller(true, [true, false])]);
            !Succeeds(n) && Added(NOTHING, n) == NOTHING.(crons := 1, made := 1)
  {
    var n := Nodes([], [Poller(true, [true, false])]);
    assert n.pollers[0].crons[1] == false;
    assert Fails(n.pollers[0]);
    assert Accepted([true, false]) == 1 + Accepted([false]);
    assert !SomeThrew(n.triggers);
  }

  /** A concrete case: the second trigger throws after the first one responded. */
  lemma TriggerLeft()
    ensures var n := Nodes([Response(0), Threw(0)], []);
            !Succeeds(n) && Added(NOTHING, n) == NOTHING.(lost := 1)
  {
    var n := Nodes([Response(0), Threw(0)], []);
    assert n.triggers[1].Threw?;
    assert Responses(n.triggers) == 1 + Responses([Threw(0)]);
    assert TriggerCrons(n.triggers) == 0 + TriggerCrons([Threw(0)]);
  }
}
