/**
  Incidents and escalation (internal/alert/manager.go).

  updateIncident copies an incident, writes the copy to storage without the
  lock and installs it afterwards; escalateIncident sends without the lock and
  increments the level afterwards. Both are split at the points where they drop
  the lock, so a run interleaves triggers, recoveries, operator writes and the
  escalation checker. Time is an integer in nanoseconds.
 */
module Incidents {
  import opened Options

  const DEFAULT_WAIT := 900_000_000_000 // fifteen minutes

  datatype Status = Open | Acked | Resolved

  datatype Stage = Stage(wait: int, condition: string, channels: seq<string>)

  datatype Incident = Incident(
    id: string, ruleId: string, soulId: string, workspace: string, status: Status, startedAt: int,
    ackedAt: Option<int>, ackedBy: string, resolvedAt: Option<int>, resolvedBy: string,
    events: seq<string>, level: nat, lastEscalatedAt: Option<int>)

  type Inbox = map<string, Incident>

  /** The escalation stages of each rule; none when the rule does not escalate. */
  type Policy = string -> seq<Stage>

  // ---------------------------------------------------------------------
  // Operations on the incident map
  // ---------------------------------------------------------------------

  predicate Unresolved(inc: Incident, ruleId: string, soulId: string)
  {
    inc.ruleId == ruleId && inc.soulId == soulId && inc.status != Resolved
  }

  /** target: an unresolved incident of the pair, or None when there is none. */
  predicate IsMatch(m: Inbox, ruleId: string, soulId: string, target: Option<string>)
  {
    match target
    case Some(id) => id in m && Unresolved(m[id], ruleId, soulId)
    case None => forall id :: id in m ==> !Unresolved(m[id], ruleId, soulId)
  }

  function Recorded(m: Inbox, target: Option<string>, newId: string, ruleId: string, soulId: string, workspace: string,
                    event: string, now: int): Inbox
    requires target.Some? ==> target.value in m
  {
    match target
    case Some(id) => m[id := m[id].(events := m[id].events + [event])]
    case None => m[newId := Incident(newId, ruleId, soulId, workspace, Open, now, None, "", None, "", [event], 0, None)]
  }

  function AutoResolved(m: Inbox, target: Option<string>, now: int): Inbox
    requires target.Some? ==> target.value in m
  {
    match target
    case Some(id) => m[id := m[id].(status := Resolved, resolvedAt := Some(now), resolvedBy := "auto-resolved")]
    case None => m
  }

  datatype Change = Acknowledge(user: string) | Resolve(user: string)

  function Mutated(inc: Incident, change: Change, now: int): Incident
  {
    match change
    case Acknowledge(user) => inc.(status := Acked, ackedAt := Some(now), ackedBy := user)
    case Resolve(user) => inc.(status := Resolved, resolvedAt := Some(now), resolvedBy := user)
  }

  function OrDefault(workspace: string): string
  {
    if workspace == "" then "default" else workspace
  }

  predicate Visible(m: Inbox, id: string, workspace: string)
  {
    id in m && OrDefault(m[id].workspace) == OrDefault(workspace)
  }

  /** The install half of updateIncident: everything but the events comes from the copy. */
  function Installed(m: Inbox, updated: Incident): Inbox
  {
    if updated.id in m then m[updated.id := updated.(events := m[updated.id].events)] else m[updated.id := updated]
  }

  function Wait(stage: Stage): int
  {
    if stage.wait == 0 then DEFAULT_WAIT else stage.wait
  }

  predicate ShouldEscalate(inc: Incident, stages: seq<Stage>, now: int)
  {
    && inc.level < |stages|
    && (inc.ackedAt.None? || stages[inc.level].condition == "not_resolved")
    && now - (if inc.lastEscalatedAt.Some? then inc.lastEscalatedAt.value else inc.startedAt) >= Wait(stages[inc.level])
  }

  predicate Due(inc: Incident, policy: Policy, now: int)
  {
    inc.status != Resolved && ShouldEscalate(inc, policy(inc.ruleId), now)
  }

  /** A stage is left, and its wait, fifteen minutes when it names none, is over. */
  predicate WaitedOut(inc: Incident, stages: seq<Stage>, now: int)
  {
    && inc.level < |stages|
    && (match inc.lastEscalatedAt case Some(last) => last case None => inc.startedAt)
       + (if stages[inc.level].wait == 0 then 15 * 60 * 1_000_000_000 else stages[inc.level].wait) <= now
  }

  /** Unresolved incidents are due when their stage is over; acknowledged ones only at a "not_resolved" stage. */
  lemma DueMeans(inc: Incident, policy: Policy, now: int)
    ensures Due(inc, policy, now) <==>
            && inc.status in {Open, Acked}
            && WaitedOut(inc, policy(inc.ruleId), now)
            && (inc.ackedAt.Some? ==> policy(inc.ruleId)[inc.level].condition == "not_resolved")
  {
  }

  function Escalated(m: Inbox, id: string, at: int): Inbox
    requires id in m
  {
    m[id := m[id].(level := m[id].level + 1, lastEscalatedAt := Some(at))]
  }

  // ---------------------------------------------------------------------
  // The manager
  // ---------------------------------------------------------------------

  class Manager {
    var incidents: Inbox

    constructor ()
      ensures incidents == map[]
    {
      incidents := map[];
    }

    method RecordIncident(newId: string, ruleId: string, soulId: string, workspace: string, event: string, now: int)
      returns (target: Option<string>)
      requires newId !in incidents
      modifies this
      ensures IsMatch(old(incidents), ruleId, soulId, target)
      ensures target.None? ==>
                && newId in incidents && incidents[newId].id == newId && incidents[newId].ruleId == ruleId
                && incidents[newId].soulId == soulId && incidents[newId].workspace == workspace
                && incidents[newId].status == Open && incidents[newId].startedAt == now
                && incidents[newId].ackedAt.None? && incidents[newId].resolvedAt.None?
                && incidents[newId].level == 0 && incidents[newId].lastEscalatedAt.None?
      ensures incidents == Recorded(old(incidents), target, newId, ruleId, soulId, workspace, event, now)
    {
      target := FindUnresolved(ruleId, soulId);
      if target.Some? {
        var inc := incidents[target.value];
        incidents := incidents[target.value := inc.(events := inc.events + [event])];
        return;
      }
      incidents := incidents[newId := Incident(newId, ruleId, soulId, workspace, Open, now, None, "", None, "",
                                               [event], 0, None)];
    }

    /** Map iteration order is not specified: any unresolved incident of the pair may be found. */
    method FindUnresolved(ruleId: string, soulId: string) returns (target: Option<string>)
      ensures IsMatch(incidents, ruleId, soulId, target)
    {
      var todo := incidents.Keys;
      while todo != {}
        invariant todo <= incidents.Keys
        invariant forall id :: id in incidents && id !in todo ==> !Unresolved(incidents[id], ruleId, soulId)
      {
        var id :| id in todo;
        if Unresolved(incidents[id], ruleId, soulId) {
          return Some(id);
        }
        todo := todo - {id};
      }
      return None;
    }

    method AutoResolveOpenIncident(ruleId: string, soulId: string, now: int) returns (target: Option<string>)
      modifies this
      ensures IsMatch(old(incidents), ruleId, soulId, target)
      ensures target.Some? ==>
                && target.value in incidents && incidents[target.value].status == Resolved
                && incidents[target.value].resolvedAt == Some(now)
                && incidents[target.value].resolvedBy == "auto-resolved"
      ensures incidents == AutoResolved(old(incidents), target, now)
    {
      target := FindUnresolved(ruleId, soulId);
      if target.None? { return; }
      incidents := incidents[target.value := incidents[target.value].(
        status := Resolved, resolvedAt := Some(now), resolvedBy := "auto-resolved")];
    }

    /** Up to the storage write: None is the not-found error, also for another workspace's incident. */
    method BeginUpdate(id: string, workspace: string, change: Change, now: int) returns (copy: Option<Incident>)
      ensures copy.Some? <==>
                id in incidents && (incidents[id].workspace == workspace
                                    || (incidents[id].workspace in ["", "default"] && workspace in ["", "default"]))
      ensures copy.Some? && change.Acknowledge? ==>
                copy.value == incidents[id].(status := Acked, ackedAt := Some(now), ackedBy := change.user)
      ensures copy.Some? && change.Resolve? ==>
                copy.value == incidents[id].(status := Resolved, resolvedAt := Some(now), resolvedBy := change.user)
      ensures copy.Some? <==> Visible(incidents, id, workspace)
      ensures copy.Some? ==> copy.value == Mutated(incidents[id], change, now)
    {
      if id !in incidents { return None; }
      var incident := incidents[id];
      if OrDefault(incident.workspace) != OrDefault(workspace) { return None; }
      var updated := incident;
      match change {
        case Acknowledge(user) => updated := updated.(status := Acked, ackedAt := Some(now), ackedBy := user);
        case Resolve(user) => updated := updated.(status := Resolved, resolvedAt := Some(now), resolvedBy := user);
      }
      return Some(updated);
    }

    method FinishUpdate(updated: Incident)
      modifies this
      ensures incidents == Installed(old(incidents), updated)
    {
      if updated.id !in incidents {
        incidents := incidents[updated.id := updated];
      } else {
        var current := incidents[updated.id];
        incidents := incidents[updated.id := updated.(events := current.events)];
      }
    }

    /** The incidents to escalate, each once. */
    method CheckEscalations(policy: Policy, now: int) returns (work: seq<string>)
      ensures forall id :: id in incidents && incidents[id].status != Resolved && incidents[id].ackedAt.None? ==>
                (WaitedOut(incidents[id], policy(incidents[id].ruleId), now) ==> id in work)
      ensures forall id :: id in work ==>
                && id in incidents && incidents[id].status != Resolved
                && WaitedOut(incidents[id], policy(incidents[id].ruleId), now)
                && (incidents[id].ackedAt.Some? ==>
                      policy(incidents[id].ruleId)[incidents[id].level].condition == "not_resolved")
      ensures forall id :: id in work <==> id in incidents && Due(incidents[id], policy, now)
      ensures forall i, j :: 0 <= i < j < |work| ==> work[i] != work[j]
    {
      work := [];
      var todo := incidents.Keys;
      while todo != {}
        invariant todo <= incidents.Keys
        invariant forall id :: id in work <==> id in incidents && id !in todo && Due(incidents[id], policy, now)
        invariant forall i, j :: 0 <= i < j < |work| ==> work[i] != work[j]
      {
        var id :| id in todo;
        if Due(incidents[id], policy, now) {
          work := work + [id];
        }
        todo := todo - {id};
      }
    }

    /** The increment after the sends, on whatever the incident has become meanwhile. */
    method FinishEscalation(id: string, at: int)
      requires id in incidents
      modifies this
      ensures incidents == Escalated(old(incidents), id, at)
    {
      var incident := incidents[id];
      incidents := incidents[id := incident.(level := incident.level + 1, lastEscalatedAt := Some(at))];
    }
  }

  // ---------------------------------------------------------------------
  // Runs
  // ---------------------------------------------------------------------

  /** An incident the checker decided to escalate; seen is the level it saw. */
  datatype Task = Task(id: string, seen: nat)

  datatype Checker = Quiet | Working(tasks: seq<Task>) | Sending(task: Task, at: int, rest: seq<Task>)

  /** writes: copies whose storage write is in flight; triggered: every event so far. */
  datatype World = World(incidents: Inbox, clock: int, writes: map<nat, Incident>, checker: Checker,
                         triggered: seq<string>)

  datatype Step =
    | Trigger(ruleId: string, soulId: string, workspace: string, event: string, newId: string, target: Option<string>)
    | Recover(ruleId: string, soulId: string, target: Option<string>)
    | BeginWrite(op: nat, id: string, change: Change)
    | FailWrite(op: nat)
    | CommitWrite(op: nat)
    | Check(tasks: seq<Task>)
    | Skip
    | StartSend
    | FinishSend

  predicate Lists(tasks: seq<Task>, id: string)
  {
    exists i :: 0 <= i < |tasks| && tasks[i].id == id
  }

  /** Every incident that is due, once, at the level it has. */
  predicate CheckResult(w: World, policy: Policy, now: int, tasks: seq<Task>)
  {
    && (forall i, j :: 0 <= i < j < |tasks| ==> tasks[i].id != tasks[j].id)
    && (forall i :: 0 <= i < |tasks| ==> tasks[i].id in w.incidents)
    && (forall i :: 0 <= i < |tasks| ==> tasks[i].seen == w.incidents[tasks[i].id].level)
    && (forall i :: 0 <= i < |tasks| ==> Due(w.incidents[tasks[i].id], policy, now))
    && (forall id :: id in w.incidents && Due(w.incidents[id], policy, now) ==> Lists(tasks, id))
  }

  /** The level check at the start of escalateIncident. */
  predicate StagesLeft(w: World, policy: Policy, id: string)
  {
    id in w.incidents && w.incidents[id].level < |policy(w.incidents[id].ruleId)|
  }

  /** One step at time now; every step reads a clock that never goes back. */
  predicate Next(policy: Policy, w: World, step: Step, w': World)
  {
    var now := w'.clock;
    && w.clock <= now
    && match step
       case Trigger(ruleId, soulId, workspace, event, newId, target) =>
         && event !in w.triggered && newId !in w.incidents && IsMatch(w.incidents, ruleId, soulId, target)
         && w' == w.(clock := now, triggered := w.triggered + [event],
                     incidents := Recorded(w.incidents, target, newId, ruleId, soulId, workspace, event, now))
       case Recover(ruleId, soulId, target) =>
         && IsMatch(w.incidents, ruleId, soulId, target)
         && w' == w.(clock := now, incidents := AutoResolved(w.incidents, target, now))
       case BeginWrite(op, id, change) =>
         && op !in w.writes && id in w.incidents
         && w' == w.(clock := now, writes := w.writes[op := Mutated(w.incidents[id], change, now)])
       case FailWrite(op) =>
         op in w.writes && w' == w.(clock := now, writes := w.writes - {op})
       case CommitWrite(op) =>
         && op in w.writes
         && w' == w.(clock := now, writes := w.writes - {op}, incidents := Installed(w.incidents, w.writes[op]))
       case Check(tasks) =>
         && w.checker.Quiet? && CheckResult(w, policy, now, tasks)
         && w' == w.(clock := now, checker := Working(tasks))
       case Skip =>
         && w.checker.Working?
         && w' == w.(clock := now, checker := if w.checker.tasks == [] then Quiet else Working(w.checker.tasks[1..]))
       case StartSend =>
         && w.checker.Working? && w.checker.tasks != [] && StagesLeft(w, policy, w.checker.tasks[0].id)
         && w' == w.(clock := now, checker := Sending(w.checker.tasks[0], now, w.checker.tasks[1..]))
       case FinishSend =>
         && w.checker.Sending? && w.checker.task.id in w.incidents
         && w' == w.(clock := now, checker := Working(w.checker.rest),
                     incidents := Escalated(w.incidents, w.checker.task.id, w.checker.at))
  }

  ghost predicate Run(policy: Policy, worlds: seq<World>, steps: seq<Step>)
  {
    && |worlds| == |steps| + 1
    && worlds[0].incidents == map[] && worlds[0].writes == map[] && worlds[0].checker == Quiet
    && worlds[0].triggered == []
    && forall i :: 0 <= i < |steps| ==> Next(policy, worlds[i], steps[i], worlds[i + 1])
  }

  // ---------------------------------------------------------------------
  // Events are neither lost nor duplicated
  // ---------------------------------------------------------------------

  predicate IsPlace(m: Inbox, id: string, i: int)
  {
    id in m && 0 <= i < |m[id].events|
  }

  function EventAt(m: Inbox, id: string, i: int): string
    requires IsPlace(m, id, i)
  {
    m[id].events[i]
  }

  /** Every incident and every copy in flight keeps the identity it was created with. */
  ghost predicate Identities(w: World)
  {
    && (forall id :: id in w.incidents ==> w.incidents[id].id == id)
    && (forall op :: op in w.writes ==> IsCopy(w.writes[op], w.incidents))
  }

  predicate IsCopy(update: Incident, m: Inbox)
  {
    update.id in m && SameOrigin(update, m[update.id])
  }

  predicate SameOrigin(a: Incident, b: Incident)
  {
    a.id == b.id && a.ruleId == b.ruleId && a.soulId == b.soulId && a.startedAt == b.startedAt
  }

  /** Each triggered event is in exactly one place, and nothing else is in any incident. */
  ghost predicate ExactlyOnce(m: Inbox, triggered: seq<string>)
  {
    && (forall id, i :: IsPlace(m, id, i) ==> EventAt(m, id, i) in triggered)
    && (forall e :: e in triggered ==> exists id, i :: IsPlace(m, id, i) && EventAt(m, id, i) == e)
    && (forall id, i, id', i' ::
          IsPlace(m, id, i) && IsPlace(m, id', i') && EventAt(m, id, i) == EventAt(m, id', i') ==> id == id' && i == i')
  }

  ghost predicate SameEvents(m: Inbox, m': Inbox)
  {
    m.Keys == m'.Keys && forall id :: id in m ==> m'[id].events == m[id].events
  }

  lemma SameEventsExactlyOnce(m: Inbox, m': Inbox, triggered: seq<string>)
    requires ExactlyOnce(m, triggered) && SameEvents(m, m')
    ensures ExactlyOnce(m', triggered)
  {
    assert forall id, i :: IsPlace(m, id, i) <==> IsPlace(m', id, i);
    assert forall id, i :: IsPlace(m, id, i) ==> EventAt(m', id, i) == EventAt(m, id, i);
  }

  /** m' has the places of m and one more, which holds a new event. */
  ghost predicate OneMorePlace(m: Inbox, m': Inbox, id0: string, i0: int, event: string)
  {
    && IsPlace(m', id0, i0) && EventAt(m', id0, i0) == event
    && (forall id, i :: IsPlace(m, id, i) ==> IsPlace(m', id, i) && EventAt(m', id, i) == EventAt(m, id, i))
    && (forall id, i :: IsPlace(m', id, i) ==> IsPlace(m, id, i) || (id == id0 && i == i0))
  }

  lemma NewPlaceExactlyOnce(m: Inbox, m': Inbox, triggered: seq<string>, id0: string, i0: int, event: string)
    requires ExactlyOnce(m, triggered) && event !in triggered && OneMorePlace(m, m', id0, i0, event)
    ensures ExactlyOnce(m', triggered + [event])
  {
    forall e | e in triggered + [event]
      ensures exists id, i :: IsPlace(m', id, i) && EventAt(m', id, i) == e
    {
      if e != event {
        var id, i :| IsPlace(m, id, i) && EventAt(m, id, i) == e;
        assert IsPlace(m', id, i) && EventAt(m', id, i) == e;
      }
    }
  }

  lemma RecordedPlace(m: Inbox, target: Option<string>, newId: string, ruleId: string, soulId: string,
                      workspace: string, event: string, now: int)
    requires newId !in m && (target.Some? ==> target.value in m)
    ensures OneMorePlace(m, Recorded(m, target, newId, ruleId, soulId, workspace, event, now),
                         if target.Some? then target.value else newId,
                         if target.Some? then |m[target.value].events| else 0, event)
  {
  }

  lemma TriggerExactlyOnce(w: World, step: Step, w': World, policy: Policy)
    requires ExactlyOnce(w.incidents, w.triggered) && step.Trigger? && Next(policy, w, step, w')
    ensures ExactlyOnce(w'.incidents, w'.triggered)
  {
    var m := w.incidents;
    RecordedPlace(m, step.target, step.newId, step.ruleId, step.soulId, step.workspace, step.event, w'.clock);
    NewPlaceExactlyOnce(m, w'.incidents, w.triggered,
                        if step.target.Some? then step.target.value else step.newId,
                        if step.target.Some? then |m[step.target.value].events| else 0, step.event);
  }

  lemma IdentitiesKept(policy: Policy, w: World, step: Step, w': World)
    requires Identities(w) && Next(policy, w, step, w')
    ensures Identities(w')
  {
  }

  lemma OtherStepsKeepEvents(policy: Policy, w: World, step: Step, w': World)
    requires Identities(w) && Next(policy, w, step, w') && !step.Trigger?
    ensures SameEvents(w.incidents, w'.incidents) && w'.triggered == w.triggered
  {
  }

  ghost predicate EventInv(w: World)
  {
    Identities(w) && ExactlyOnce(w.incidents, w.triggered)
  }

  lemma StepKeepsEvents(policy: Policy, w: World, step: Step, w': World)
    requires EventInv(w) && Next(policy, w, step, w')
    ensures EventInv(w')
  {
    IdentitiesKept(policy, w, step, w');
    if step.Trigger? {
      TriggerExactlyOnce(w, step, w', policy);
    } else {
      OtherStepsKeepEvents(policy, w, step, w');
      SameEventsExactlyOnce(w.incidents, w'.incidents, w.triggered);
    }
  }

  /** However operator writes, escalations and recoveries interleave with triggers. */
  lemma {:induction false} EventsExactlyOnce(policy: Policy, worlds: seq<World>, steps: seq<Step>, k: nat)
    requires Run(policy, worlds, steps) && k < |worlds|
    ensures ExactlyOnce(worlds[k].incidents, worlds[k].triggered)
    ensures Identities(worlds[k])
  {
    if k > 0 {
      EventsExactlyOnce(policy, worlds, steps, k - 1);
      StepKeepsEvents(policy, worlds[k - 1], steps[k - 1], worlds[k]);
    }
  }

  // ---------------------------------------------------------------------
  // At most one unresolved incident per rule and soul
  // ---------------------------------------------------------------------

  predicate BothUnresolved(a: Incident, b: Incident)
  {
    a.status != Resolved && Unresolved(b, a.ruleId, a.soulId)
  }

  ghost predicate OneUnresolved(m: Inbox)
  {
    forall id, id' :: id in m && id' in m && BothUnresolved(m[id], m[id']) ==> id == id'
  }

  /** The write revives a resolved incident. */
  predicate Reopens(w: World, op: nat)
    requires op in w.writes && w.writes[op].id in w.incidents
  {
    w.writes[op].status != Resolved && w.incidents[w.writes[op].id].status == Resolved
  }

  /** Another incident of the same rule and soul is unresolved. */
  predicate RivalUnresolved(m: Inbox, inc: Incident)
  {
    exists id :: id in m && id != inc.id && Unresolved(m[id], inc.ruleId, inc.soulId)
  }

  lemma OtherStepsKeepOne(policy: Policy, w: World, step: Step, w': World)
    requires EventInv(w) && OneUnresolved(w.incidents) && Next(policy, w, step, w') && !step.CommitWrite?
    ensures OneUnresolved(w'.incidents)
  {
  }

  /** Exactly one kind of step breaks uniqueness: an acknowledgement installed over a resolved incident with a rival. */
  lemma CommitKeepsOneIff(policy: Policy, w: World, op: nat, w': World)
    requires EventInv(w) && OneUnresolved(w.incidents) && Next(policy, w, CommitWrite(op), w')
    ensures OneUnresolved(w'.incidents) <==> !(Reopens(w, op) && RivalUnresolved(w.incidents, w.writes[op]))
  {
    var m, m', u := w.incidents, w'.incidents, w.writes[op];
    if Reopens(w, op) && RivalUnresolved(m, u) {
      var id :| id in m && id != u.id && Unresolved(m[id], u.ruleId, u.soulId);
      assert BothUnresolved(m'[u.id], m'[id]);
    } else {
      forall id, id' | id in m' && id' in m' && BothUnresolved(m'[id], m'[id'])
        ensures id == id'
      {
        assert id != u.id ==> m'[id] == m[id];
        assert id' != u.id ==> m'[id'] == m[id'];
      }
    }
  }

  /** The commit puts an acknowledgement over a resolved incident. */
  predicate CommitReopens(w: World, op: nat)
  {
    op in w.writes && w.writes[op].id in w.incidents && Reopens(w, op)
  }

  /** It does so while another incident of the pair is unresolved. */
  predicate CommitClashes(w: World, op: nat)
  {
    CommitReopens(w, op) && RivalUnresolved(w.incidents, w.writes[op])
  }

  ghost predicate NoClash(worlds: seq<World>, steps: seq<Step>)
    requires |worlds| == |steps| + 1
  {
    forall i :: 0 <= i < |steps| && steps[i].CommitWrite? ==> !CommitClashes(worlds[i], steps[i].op)
  }

  lemma {:induction false} OneUnresolvedPerPair(policy: Policy, worlds: seq<World>, steps: seq<Step>, k: nat)
    requires Run(policy, worlds, steps) && NoClash(worlds, steps) && k < |worlds|
    ensures OneUnresolved(worlds[k].incidents)
  {
    if k > 0 {
      OneUnresolvedPerPair(policy, worlds, steps, k - 1);
      EventsExactlyOnce(policy, worlds, steps, k - 1);
      if steps[k - 1].CommitWrite? {
        CommitKeepsOneIff(policy, worlds[k - 1], steps[k - 1].op, worlds[k]);
      } else {
        OtherStepsKeepOne(policy, worlds[k - 1], steps[k - 1], worlds[k]);
      }
    }
  }

  /** A run has at most one unresolved incident per pair throughout exactly when no commit of it clashes. */
  lemma OneUnresolvedIffNoClash(policy: Policy, worlds: seq<World>, steps: seq<Step>)
    requires Run(policy, worlds, steps)
    ensures (forall k :: 0 <= k < |worlds| ==> OneUnresolved(worlds[k].incidents)) <==> NoClash(worlds, steps)
  {
    if NoClash(worlds, steps) {
      forall k | 0 <= k < |worlds|
        ensures OneUnresolved(worlds[k].incidents)
      {
        OneUnresolvedPerPair(policy, worlds, steps, k);
      }
    } else {
      var i :| 0 <= i < |steps| && steps[i].CommitWrite? && CommitClashes(worlds[i], steps[i].op);
      if OneUnresolved(worlds[i].incidents) {
        EventsExactlyOnce(policy, worlds, steps, i);
        CommitKeepsOneIff(policy, worlds[i], steps[i].op, worlds[i + 1]);
        assert !OneUnresolved(worlds[i + 1].incidents);
      }
    }
  }

  /** A write that is installed right after it was begun, on an unresolved incident, reopens none. */
  lemma AtomicWriteDoesNotReopen(policy: Policy, w: World, w1: World, op: nat, id: string, change: Change)
    requires Next(policy, w, BeginWrite(op, id, change), w1) && Identities(w) && w.incidents[id].status != Resolved
    ensures !CommitReopens(w1, op)
  {
  }

  /** Step i begins a write on an unresolved incident and the next step ends it. */
  predicate AtomicBegin(worlds: seq<World>, steps: seq<Step>, i: nat)
    requires i < |steps| < |worlds| && steps[i].BeginWrite?
  {
    && steps[i].id in worlds[i].incidents && worlds[i].incidents[steps[i].id].status != Resolved
    && (i + 1 < |steps| ==> steps[i + 1] == CommitWrite(steps[i].op) || steps[i + 1] == FailWrite(steps[i].op))
  }

  ghost predicate AtomicWrites(worlds: seq<World>, steps: seq<Step>)
    requires |worlds| == |steps| + 1
  {
    forall i: nat :: i < |steps| && steps[i].BeginWrite? ==> AtomicBegin(worlds, steps, i)
  }

  /** The only write ever in flight is the one the last step began. */
  lemma {:induction false} AtomicWritesLeaveNone(policy: Policy, worlds: seq<World>, steps: seq<Step>, k: nat)
    requires Run(policy, worlds, steps) && AtomicWrites(worlds, steps) && k < |worlds|
    ensures forall op :: op in worlds[k].writes ==> k > 0 && steps[k - 1].BeginWrite? && steps[k - 1].op == op
  {
    if k > 0 {
      AtomicWritesLeaveNone(policy, worlds, steps, k - 1);
      var w, step, w' := worlds[k - 1], steps[k - 1], worlds[k];
      assert Next(policy, w, step, w');
      if k > 1 && steps[k - 2].BeginWrite? {
        assert AtomicBegin(worlds, steps, k - 2);
      }
    }
  }

  /** Operator writes that are atomic and hit only unresolved incidents keep one unresolved incident per pair. */
  lemma AtomicWritesKeepOne(policy: Policy, worlds: seq<World>, steps: seq<Step>, k: nat)
    requires Run(policy, worlds, steps) && AtomicWrites(worlds, steps) && k < |worlds|
    ensures OneUnresolved(worlds[k].incidents)
  {
    forall i | 0 <= i < |steps| && steps[i].CommitWrite?
      ensures !CommitClashes(worlds[i], steps[i].op)
    {
      AtomicWritesLeaveNone(policy, worlds, steps, i);
      assert Next(policy, worlds[i], steps[i], worlds[i + 1]);
      var begin := steps[i - 1];
      EventsExactlyOnce(policy, worlds, steps, i - 1);
      assert AtomicBegin(worlds, steps, i - 1);
      AtomicWriteDoesNotReopen(policy, worlds[i - 1], worlds[i], begin.op, begin.id, begin.change);
    }
    OneUnresolvedPerPair(policy, worlds, steps, k);
  }

  /** The race: an acknowledgement is in flight while the incident recovers and the rule fires again. */
  function AckRaceSteps(a: string, b: string): seq<Step>
  {
    [Trigger("r", "s", "", "e1", a, None), BeginWrite(0, a, Acknowledge("u")), Recover("r", "s", Some(a)),
     Trigger("r", "s", "", "e2", b, None), CommitWrite(0)]
  }

  function AckRaceWorlds(a: string, b: string): seq<World>
  {
    var first := Incident(a, "r", "s", "", Open, 0, None, "", None, "", ["e1"], 0, None);
    var copy := first.(status := Acked, ackedAt := Some(0), ackedBy := "u");
    var closed := first.(status := Resolved, resolvedAt := Some(0), resolvedBy := "auto-resolved");
    var second := Incident(b, "r", "s", "", Open, 0, None, "", None, "", ["e2"], 0, None);
    var writes: map<nat, Incident> := map[0 := copy];
    [World(map[], 0, map[], Quiet, []),
     World(map[a := first], 0, map[], Quiet, ["e1"]),
     World(map[a := first], 0, writes, Quiet, ["e1"]),
     World(map[a := closed], 0, writes, Quiet, ["e1"]),
     World(map[a := closed, b := second], 0, writes, Quiet, ["e1", "e2"]),
     World(map[a := copy, b := second], 0, map[], Quiet, ["e1", "e2"])]
  }

  lemma AckRaceBegins(policy: Policy, a: string, b: string)
    requires a != b
    ensures var w, s := AckRaceWorlds(a, b), AckRaceSteps(a, b);
            forall i :: 0 <= i < 3 ==> Next(policy, w[i], s[i], w[i + 1])
  {
    var w, s := AckRaceWorlds(a, b), AckRaceSteps(a, b);
    assert Next(policy, w[0], s[0], w[1]);
    assert Next(policy, w[1], s[1], w[2]);
    assert Next(policy, w[2], s[2], w[3]);
  }

  /** Without atomic writes uniqueness is really lost, for any rule policy and any two incident IDs. */
  lemma AckRaceBreaksUniqueness(policy: Policy, a: string, b: string)
    requires a != b
    ensures Run(policy, AckRaceWorlds(a, b), AckRaceSteps(a, b))
    ensures !OneUnresolved(AckRaceWorlds(a, b)[5].incidents)
  {
    var worlds, steps := AckRaceWorlds(a, b), AckRaceSteps(a, b);
    AckRaceBegins(policy, a, b);
    assert Next(policy, worlds[3], steps[3], worlds[4]) by {
      assert "e2" !in ["e1"];
      assert ["e1"] + ["e2"] == ["e1", "e2"];
    }
    assert Next(policy, worlds[4], steps[4], worlds[5]) by {
      assert worlds[4].writes - {0} == map[];
    }
    var m := worlds[5].incidents;
    assert BothUnresolved(m[a], m[b]);
  }

  // ---------------------------------------------------------------------
  // Acknowledgement stops escalation
  // ---------------------------------------------------------------------

  predicate AckIsDated(inc: Incident)
  {
    inc.status == Acked ==> inc.ackedAt.Some?
  }

  ghost predicate AcksAreDated(w: World)
  {
    && (forall id :: id in w.incidents ==> AckIsDated(w.incidents[id]))
    && (forall op :: op in w.writes ==> AckIsDated(w.writes[op]))
  }

  lemma StepKeepsAcksDated(policy: Policy, w: World, step: Step, w': World)
    requires AcksAreDated(w) && Next(policy, w, step, w')
    ensures AcksAreDated(w')
  {
  }

  lemma {:induction false} RunKeepsAcksDated(policy: Policy, worlds: seq<World>, steps: seq<Step>, k: nat)
    requires Run(policy, worlds, steps) && k < |worlds|
    ensures AcksAreDated(worlds[k])
  {
    if k > 0 {
      RunKeepsAcksDated(policy, worlds, steps, k - 1);
      StepKeepsAcksDated(policy, worlds[k - 1], steps[k - 1], worlds[k]);
    }
  }

  /**
    In every run a check gives an incident a task exactly when it is open or
    acknowledged, its stage is over and, if it was ever acknowledged, that stage
    goes on until it is resolved; an incident that is acknowledged at that moment
    therefore gets one only at such a stage.
   */
  lemma CheckRespectsAcknowledgement(policy: Policy, worlds: seq<World>, steps: seq<Step>, k: nat, id: string)
    requires Run(policy, worlds, steps) && k < |steps| && steps[k].Check? && id in worlds[k].incidents
    ensures var inc := worlds[k].incidents[id];
            var stages := policy(inc.ruleId);
            && (Lists(steps[k].tasks, id) <==>
                  && inc.status != Resolved
                  && WaitedOut(inc, stages, worlds[k + 1].clock)
                  && (inc.ackedAt.Some? ==> stages[inc.level].condition == "not_resolved"))
            && (Lists(steps[k].tasks, id) && inc.status == Acked ==>
                  inc.level < |stages| && stages[inc.level].condition == "not_resolved")
  {
    assert Next(policy, worlds[k], steps[k], worlds[k + 1]);
    RunKeepsAcksDated(policy, worlds, steps, k);
    DueMeans(worlds[k].incidents[id], policy, worlds[k + 1].clock);
  }

  /** Only a check adds tasks. */
  lemma TaskWasOutstanding(policy: Policy, w: World, step: Step, w': World, task: Task)
    requires Next(policy, w, step, w') && task in Tasks(w'.checker) && !step.Check?
    ensures task in Tasks(w.checker)
  {
    match step {
      case Skip =>
        assert Tasks(w'.checker) == if w.checker.tasks == [] then [] else w.checker.tasks[1..];
      case StartSend => assert Tasks(w'.checker) == Tasks(w.checker);
      case FinishSend => assert Tasks(w.checker) == [w.checker.task] + Tasks(w'.checker);
      case _ => assert w'.checker == w.checker;
    }
  }

  lemma {:induction false} TaskWasListed(policy: Policy, worlds: seq<World>, steps: seq<Step>, k: nat, task: Task)
    returns (j: nat)
    requires Run(policy, worlds, steps) && k < |worlds| && task in Tasks(worlds[k].checker)
    ensures j < k && steps[j].Check? && task in steps[j].tasks
  {
    assert k > 0;
    assert Next(policy, worlds[k - 1], steps[k - 1], worlds[k]);
    if steps[k - 1].Check? {
      j := k - 1;
    } else {
      TaskWasOutstanding(policy, worlds[k - 1], steps[k - 1], worlds[k], task);
      j := TaskWasListed(policy, worlds, steps, k - 1, task);
    }
  }

  /**
    Whatever is sent was decided by an earlier check: the incident was unresolved
    then, and not acknowledged unless the stage goes on until it is resolved.
   */
  lemma SendRespectsAcknowledgement(policy: Policy, worlds: seq<World>, steps: seq<Step>, k: nat) returns (j: nat)
    requires Run(policy, worlds, steps) && k < |steps| && steps[k].StartSend?
    ensures worlds[k].checker.Working? && worlds[k].checker.tasks != []
    ensures var task := worlds[k].checker.tasks[0];
            && j < k && steps[j].Check? && task.id in worlds[j].incidents
            && var inc := worlds[j].incidents[task.id];
            && var stages := policy(inc.ruleId);
            && inc.level == task.seen < |stages|
            && inc.status != Resolved
            && (inc.status == Acked ==> stages[task.seen].condition == "not_resolved")
  {
    assert Next(policy, worlds[k], steps[k], worlds[k + 1]);
    var task := worlds[k].checker.tasks[0];
    j := TaskWasListed(policy, worlds, steps, k, task);
    assert Next(policy, worlds[j], steps[j], worlds[j + 1]);
    assert Lists(steps[j].tasks, task.id);
    CheckRespectsAcknowledgement(policy, worlds, steps, j, task.id);
  }

  // ---------------------------------------------------------------------
  // Escalation levels are paced by the stage waits
  // ---------------------------------------------------------------------

  /** The first n waits together. */
  function TotalWait(stages: seq<Stage>, n: nat): int
    requires n <= |stages|
  {
    if n == 0 then 0 else TotalWait(stages, n - 1) + Wait(stages[n - 1])
  }

  /** t is no earlier than the end of any of the first n stages. */
  ghost predicate After(inc: Incident, stages: seq<Stage>, n: nat, t: int)
    requires n <= |stages|
  {
    forall m :: 0 <= m <= n ==> inc.startedAt + TotalWait(stages, m) <= t
  }

  ghost predicate Paced(policy: Policy, inc: Incident, clock: int)
  {
    var stages := policy(inc.ruleId);
    && inc.startedAt <= clock
    && inc.level <= |stages|
    && (inc.level == 0 <==> inc.lastEscalatedAt.None?)
    && (inc.lastEscalatedAt.Some? ==> inc.lastEscalatedAt.value <= clock)
    && (inc.lastEscalatedAt.Some? ==> After(inc, stages, inc.level, inc.lastEscalatedAt.value))
  }

  /** The incident is still at or below the level the checker saw, and that level's wait was over at time t. */
  ghost predicate TaskOk(policy: Policy, m: Inbox, task: Task, t: int)
  {
    && task.id in m
    && var inc := m[task.id];
    && var stages := policy(inc.ruleId);
    && inc.level <= task.seen < |stages|
    && After(inc, stages, task.seen + 1, t)
  }

  function Tasks(c: Checker): seq<Task>
  {
    match c case Quiet => [] case Working(tasks) => tasks case Sending(task, _, rest) => [task] + rest
  }

  ghost predicate InboxPaced(policy: Policy, w: World)
  {
    forall id :: id in w.incidents ==> Paced(policy, w.incidents[id], w.clock)
  }

  ghost predicate WritesPaced(policy: Policy, w: World)
  {
    forall op :: op in w.writes ==> Paced(policy, w.writes[op], w.clock)
  }

  ghost predicate TasksOk(policy: Policy, m: Inbox, tasks: seq<Task>, t: int)
  {
    && (forall i :: 0 <= i < |tasks| ==> TaskOk(policy, m, tasks[i], t))
    && (forall i, j :: 0 <= i < j < |tasks| ==> tasks[i].id != tasks[j].id)
  }

  ghost predicate CheckerOk(policy: Policy, w: World)
  {
    && TasksOk(policy, w.incidents, Tasks(w.checker), w.clock)
    && (w.checker.Sending? ==> w.checker.at <= w.clock && TaskOk(policy, w.incidents, w.checker.task, w.checker.at))
  }

  ghost predicate AllPaced(policy: Policy, w: World)
  {
    Identities(w) && InboxPaced(policy, w) && WritesPaced(policy, w)
  }

  ghost predicate EscalationInv(policy: Policy, w: World)
  {
    AllPaced(policy, w) && CheckerOk(policy, w)
  }

  lemma TaskCarriesOver(policy: Policy, m: Inbox, m': Inbox, task: Task, t: int, t': int)
    requires TaskOk(policy, m, task, t) && t <= t'
    requires task.id in m' && SameOrigin(m'[task.id], m[task.id]) && m'[task.id].level <= task.seen
    ensures TaskOk(policy, m', task, t')
  {
    var stages, n := policy(m[task.id].ruleId), task.seen + 1;
    assert forall k :: 0 <= k <= n ==> m[task.id].startedAt + TotalWait(stages, k) <= t;
  }

  /** No outstanding task finds its incident above the level it saw. */
  ghost predicate NoneRaised(m: Inbox, m': Inbox, tasks: seq<Task>)
  {
    forall i :: 0 <= i < |tasks| ==> NotRaised(m, m', tasks[i])
  }

  predicate NotRaised(m: Inbox, m': Inbox, task: Task)
  {
    task.id in m && task.id in m' && SameOrigin(m'[task.id], m[task.id]) && m'[task.id].level <= task.seen
  }

  lemma TasksCarryOver(policy: Policy, m: Inbox, m': Inbox, tasks: seq<Task>, t: int, t': int)
    requires TasksOk(policy, m, tasks, t) && t <= t' && NoneRaised(m, m', tasks)
    ensures TasksOk(policy, m', tasks, t')
  {
    forall i | 0 <= i < |tasks|
      ensures TaskOk(policy, m', tasks[i], t')
    {
      assert NotRaised(m, m', tasks[i]);
      TaskCarriesOver(policy, m, m', tasks[i], t, t');
    }
  }

  lemma CheckerCarriesOver(policy: Policy, w: World, w': World)
    requires CheckerOk(policy, w) && w.clock <= w'.clock && w'.checker == w.checker
    requires NoneRaised(w.incidents, w'.incidents, Tasks(w.checker))
    ensures CheckerOk(policy, w')
  {
    TasksCarryOver(policy, w.incidents, w'.incidents, Tasks(w.checker), w.clock, w'.clock);
    if w.checker.Sending? {
      assert NotRaised(w.incidents, w'.incidents, Tasks(w.checker)[0]);
      TaskCarriesOver(policy, w.incidents, w'.incidents, w.checker.task, w.checker.at, w.checker.at);
    }
  }

  lemma PacedCarriesOver(policy: Policy, a: Incident, b: Incident, t: int, t': int)
    requires Paced(policy, a, t) && t <= t' && a.ruleId == b.ruleId && a.startedAt == b.startedAt
    requires a.level == b.level && a.lastEscalatedAt == b.lastEscalatedAt
    ensures Paced(policy, b, t')
  {
    var stages := policy(a.ruleId);
    if a.lastEscalatedAt.Some? {
      assert After(a, stages, a.level, a.lastEscalatedAt.value);
      assert forall m :: 0 <= m <= b.level ==> b.startedAt + TotalWait(stages, m) <= b.lastEscalatedAt.value;
    }
  }

  /** What the checker decides to escalate has waited through the stage it is in. */
  lemma DueHasWaited(policy: Policy, m: Inbox, task: Task, clock: int, now: int)
    requires task.id in m && task.seen == m[task.id].level && clock <= now
    requires Paced(policy, m[task.id], clock) && Due(m[task.id], policy, now)
    ensures TaskOk(policy, m, task, now)
  {
    var inc := m[task.id];
    var stages := policy(inc.ruleId);
    forall k | 0 <= k <= inc.level + 1
      ensures inc.startedAt + TotalWait(stages, k) <= now
    {
      if inc.lastEscalatedAt.Some? {
        var j := if k <= inc.level then k else inc.level;
        assert inc.startedAt + TotalWait(stages, j) <= inc.lastEscalatedAt.value;
      }
    }
  }

  /** Incrementing a level that is at or below the one the checker saw keeps the pace. */
  lemma EscalatedIsPaced(policy: Policy, w: World, task: Task, at: int, clock: int)
    requires task.id in w.incidents && TaskOk(policy, w.incidents, task, at)
    requires Paced(policy, w.incidents[task.id], w.clock) && at <= clock && w.clock <= clock
    ensures Paced(policy, Escalated(w.incidents, task.id, at)[task.id], clock)
  {
    var inc := w.incidents[task.id];
    var stages := policy(inc.ruleId);
    assert forall k :: 0 <= k <= task.seen + 1 ==> inc.startedAt + TotalWait(stages, k) <= at;
  }

  /** Whatever happened since the check, the increment keeps the pace exactly when the next stage exists and is over. */
  lemma IncrementIsPacedIff(policy: Policy, m: Inbox, id: string, at: int, clock: int)
    requires id in m && Paced(policy, m[id], clock) && at <= clock
    ensures var inc := m[id];
            var stages := policy(inc.ruleId);
            Paced(policy, Escalated(m, id, at)[id], clock)
            <==> inc.level < |stages| && After(inc, stages, inc.level + 1, at)
  {
    var inc, next := m[id], Escalated(m, id, at)[id];
    var stages := policy(inc.ruleId);
    if inc.level < |stages| {
      SameWait(inc, next, stages, inc.level + 1, at);
      SameWait(next, inc, stages, inc.level + 1, at);
    }
  }

  lemma SameWait(a: Incident, b: Incident, stages: seq<Stage>, n: nat, t: int)
    requires n <= |stages| && a.startedAt == b.startedAt
    ensures After(a, stages, n, t) ==> After(b, stages, n, t)
  {
    if After(a, stages, n, t) {
      forall m | 0 <= m <= n
        ensures b.startedAt + TotalWait(stages, m) <= t
      {
        assert a.startedAt + TotalWait(stages, m) <= t;
      }
    }
  }

  /** Where an incident's level and escalation time come from, unless it was escalated. */
  lemma PaceSource(policy: Policy, w: World, step: Step, w': World, id: string) returns (source: Incident)
    requires AllPaced(policy, w) && Next(policy, w, step, w') && id in w.incidents
    requires step.FinishSend? ==> id != w.checker.task.id
    ensures Paced(policy, source, w.clock) && id in w'.incidents
    ensures source.ruleId == w'.incidents[id].ruleId && source.startedAt == w'.incidents[id].startedAt
    ensures source.level == w'.incidents[id].level && source.lastEscalatedAt == w'.incidents[id].lastEscalatedAt
  {
    source := if step.CommitWrite? && w.writes[step.op].id == id then w.writes[step.op] else w.incidents[id];
  }

  /** Only an increment can break the pace of the inbox, and it does exactly when its stage is not over. */
  lemma InboxStaysPaced(policy: Policy, w: World, step: Step, w': World)
    requires AllPaced(policy, w) && SendTimed(w) && Next(policy, w, step, w')
    ensures InboxPaced(policy, w') <==> (step.FinishSend? ==> StageOver(policy, w))
  {
    forall id | id in w'.incidents && !(step.FinishSend? && id == w.checker.task.id)
      ensures Paced(policy, w'.incidents[id], w'.clock)
    {
      if id in w.incidents {
        var source := PaceSource(policy, w, step, w', id);
        PacedCarriesOver(policy, source, w'.incidents[id], w.clock, w'.clock);
      }
    }
    if step.FinishSend? {
      var id := w.checker.task.id;
      PacedCarriesOver(policy, w.incidents[id], w.incidents[id], w.clock, w'.clock);
      IncrementIsPacedIff(policy, w.incidents, id, w.checker.at, w'.clock);
    }
  }

  /** A send began no later than now. */
  predicate SendTimed(w: World)
  {
    w.checker.Sending? ==> w.checker.at <= w.clock
  }

  /** The incident being escalated has a next stage, and that stage was over when the send began. */
  ghost predicate StageOver(policy: Policy, w: World)
    requires w.checker.Sending? && w.checker.task.id in w.incidents
  {
    var inc := w.incidents[w.checker.task.id];
    var stages := policy(inc.ruleId);
    inc.level < |stages| && After(inc, stages, inc.level + 1, w.checker.at)
  }

  lemma TaskIsOver(policy: Policy, w: World)
    requires w.checker.Sending? && w.checker.task.id in w.incidents
    requires TaskOk(policy, w.incidents, w.checker.task, w.checker.at)
    ensures StageOver(policy, w)
  {
    var task := w.checker.task;
    var inc := w.incidents[task.id];
    var stages := policy(inc.ruleId);
    forall k | 0 <= k <= inc.level + 1
      ensures inc.startedAt + TotalWait(stages, k) <= w.checker.at
    {
    }
  }

  lemma WritesStayPaced(policy: Policy, w: World, step: Step, w': World)
    requires AllPaced(policy, w) && Next(policy, w, step, w')
    ensures WritesPaced(policy, w')
  {
    forall op | op in w'.writes
      ensures Paced(policy, w'.writes[op], w'.clock)
    {
      var source := if op in w.writes then w.writes[op] else w.incidents[w'.writes[op].id];
      PacedCarriesOver(policy, source, w'.writes[op], w.clock, w'.clock);
    }
  }

  lemma FinishSendKeepsTasks(policy: Policy, w: World, w': World)
    requires EscalationInv(policy, w) && Next(policy, w, FinishSend, w')
    ensures CheckerOk(policy, w')
  {
    var task, tasks, rest := w.checker.task, Tasks(w.checker), w.checker.rest;
    assert tasks[0] == task && tasks[1..] == rest;
    forall i | 0 <= i < |rest|
      ensures TaskOk(policy, w'.incidents, rest[i], w'.clock)
    {
      assert rest[i] == tasks[i + 1] && rest[i].id != task.id;
      TaskCarriesOver(policy, w.incidents, w'.incidents, rest[i], w.clock, w'.clock);
    }
  }

  lemma CheckKeepsTasks(policy: Policy, w: World, step: Step, w': World)
    requires EscalationInv(policy, w) && Next(policy, w, step, w') && step.Check?
    ensures CheckerOk(policy, w')
  {
    forall i | 0 <= i < |step.tasks|
      ensures TaskOk(policy, w'.incidents, step.tasks[i], w'.clock)
    {
      DueHasWaited(policy, w.incidents, step.tasks[i], w.clock, w'.clock);
    }
  }

  lemma TakeTaskKeepsTasks(policy: Policy, w: World, step: Step, w': World)
    requires EscalationInv(policy, w) && Next(policy, w, step, w') && (step.Skip? || step.StartSend?)
    ensures CheckerOk(policy, w')
  {
    var tasks := w.checker.tasks;
    TasksCarryOver(policy, w.incidents, w'.incidents, tasks, w.clock, w'.clock);
    if step.StartSend? {
      assert Tasks(w'.checker) == tasks && tasks[0] == w'.checker.task;
    }
  }

  lemma QuietStepsRaiseNone(policy: Policy, w: World, step: Step, w': World)
    requires Identities(w) && CheckerOk(policy, w) && Next(policy, w, step, w')
    requires step.Trigger? || step.Recover? || step.BeginWrite? || step.FailWrite?
    ensures NoneRaised(w.incidents, w'.incidents, Tasks(w.checker)) && w'.checker == w.checker && w.clock <= w'.clock
  {
    forall i | 0 <= i < |Tasks(w.checker)|
      ensures NotRaised(w.incidents, w'.incidents, Tasks(w.checker)[i])
    {
      assert TaskOk(policy, w.incidents, Tasks(w.checker)[i], w.clock);
    }
  }

  /** The write would lift an incident above the level that an outstanding task of the checker saw. */
  ghost predicate Overtakes(w: World, op: nat)
    requires op in w.writes
  {
    exists i :: 0 <= i < |Tasks(w.checker)| && OvertakesTask(w.writes[op], Tasks(w.checker)[i])
  }

  predicate OvertakesTask(update: Incident, task: Task)
  {
    task.id == update.id && update.level > task.seen
  }

  /** A commit leaves the checker's outstanding work justified exactly when it overtakes none of it. */
  lemma CommitKeepsCheckerIff(policy: Policy, w: World, op: nat, w': World)
    requires EscalationInv(policy, w) && Next(policy, w, CommitWrite(op), w')
    ensures CheckerOk(policy, w') <==> !Overtakes(w, op)
  {
    var tasks, m' := Tasks(w.checker), w'.incidents;
    if Overtakes(w, op) {
      var i :| 0 <= i < |tasks| && OvertakesTask(w.writes[op], tasks[i]);
      assert !TaskOk(policy, m', tasks[i], w'.clock);
    } else {
      forall i | 0 <= i < |tasks|
        ensures NotRaised(w.incidents, m', tasks[i])
      {
        assert TaskOk(policy, w.incidents, tasks[i], w.clock);
        assert !OvertakesTask(w.writes[op], tasks[i]);
      }
      CheckerCarriesOver(policy, w, w');
    }
  }

  lemma CheckerStaysOk(policy: Policy, w: World, step: Step, w': World)
    requires EscalationInv(policy, w) && Next(policy, w, step, w')
    requires step.CommitWrite? ==> !Overtakes(w, step.op)
    ensures CheckerOk(policy, w')
  {
    match step
    case FinishSend => FinishSendKeepsTasks(policy, w, w');
    case Check(_) => CheckKeepsTasks(policy, w, step, w');
    case Skip => TakeTaskKeepsTasks(policy, w, step, w');
    case StartSend => TakeTaskKeepsTasks(policy, w, step, w');
    case CommitWrite(op) => CommitKeepsCheckerIff(policy, w, op, w');
    case _ =>
      QuietStepsRaiseNone(policy, w, step, w');
      CheckerCarriesOver(policy, w, w');
  }

  lemma StepKeepsPace(policy: Policy, w: World, step: Step, w': World)
    requires EscalationInv(policy, w) && Next(policy, w, step, w')
    requires step.CommitWrite? ==> !Overtakes(w, step.op)
    ensures EscalationInv(policy, w')
  {
    IdentitiesKept(policy, w, step, w');
    if step.FinishSend? {
      TaskIsOver(policy, w);
    }
    InboxStaysPaced(policy, w, step, w');
    WritesStayPaced(policy, w, step, w');
    CheckerStaysOk(policy, w, step, w');
  }

  ghost predicate NoOvertaking(worlds: seq<World>, steps: seq<Step>)
    requires |worlds| == |steps| + 1
  {
    forall i :: 0 <= i < |steps| && steps[i].CommitWrite? && steps[i].op in worlds[i].writes ==>
      !Overtakes(worlds[i], steps[i].op)
  }

  lemma {:induction false} RunKeepsPace(policy: Policy, worlds: seq<World>, steps: seq<Step>, k: nat)
    requires Run(policy, worlds, steps) && NoOvertaking(worlds, steps) && k < |worlds|
    ensures EscalationInv(policy, worlds[k])
  {
    if k > 0 {
      RunKeepsPace(policy, worlds, steps, k - 1);
      StepKeepsPace(policy, worlds[k - 1], steps[k - 1], worlds[k]);
    }
  }

  /**
    However many operator writes are in flight: as long as none of them overtakes
    the checker, every incident at level n >= 1 has n stages and was last
    escalated no earlier than its start plus the first n waits, even when a write
    commits between the check, the sends and the increment.
   */
  lemma EscalationIsPaced(policy: Policy, worlds: seq<World>, steps: seq<Step>, k: nat, id: string)
    requires Run(policy, worlds, steps) && NoOvertaking(worlds, steps) && k < |worlds| && id in worlds[k].incidents
    ensures var inc := worlds[k].incidents[id];
            var stages := policy(inc.ruleId);
            && inc.level <= |stages|
            && (inc.level >= 1 ==> inc.lastEscalatedAt.Some?
                                   && inc.lastEscalatedAt.value >= inc.startedAt + TotalWait(stages, inc.level))
  {
    RunKeepsPace(policy, worlds, steps, k);
  }

  // Exactly when a whole run keeps the pace --------------------------------

  /** At every increment of the run the stage was over. */
  ghost predicate StagesOver(policy: Policy, worlds: seq<World>, steps: seq<Step>)
    requires |worlds| == |steps| + 1
  {
    forall i :: 0 <= i < |steps| && steps[i].FinishSend? ==> Increments(worlds[i]) && StageOver(policy, worlds[i])
  }

  predicate Increments(w: World)
  {
    w.checker.Sending? && w.checker.task.id in w.incidents
  }

  lemma {:induction false} StagesOverKeepPace(policy: Policy, worlds: seq<World>, steps: seq<Step>, k: nat)
    requires Run(policy, worlds, steps) && StagesOver(policy, worlds, steps) && k < |worlds|
    ensures AllPaced(policy, worlds[k]) && SendTimed(worlds[k])
  {
    if k > 0 {
      StagesOverKeepPace(policy, worlds, steps, k - 1);
      PaceStep(policy, worlds[k - 1], steps[k - 1], worlds[k]);
    }
  }

  /** One step, whatever the checker thinks. */
  lemma PaceStep(policy: Policy, w: World, step: Step, w': World)
    requires AllPaced(policy, w) && SendTimed(w) && Next(policy, w, step, w')
    ensures Identities(w') && WritesPaced(policy, w') && SendTimed(w')
    ensures InboxPaced(policy, w') <==> (step.FinishSend? ==> StageOver(policy, w))
  {
    IdentitiesKept(policy, w, step, w');
    InboxStaysPaced(policy, w, step, w');
    WritesStayPaced(policy, w, step, w');
  }

  lemma {:induction false} PacedInboxesKeepPace(policy: Policy, worlds: seq<World>, steps: seq<Step>, k: nat)
    requires Run(policy, worlds, steps) && k < |worlds|
    requires forall i :: 0 <= i < |worlds| ==> InboxPaced(policy, worlds[i])
    ensures AllPaced(policy, worlds[k]) && SendTimed(worlds[k])
  {
    if k > 0 {
      PacedInboxesKeepPace(policy, worlds, steps, k - 1);
      PaceStep(policy, worlds[k - 1], steps[k - 1], worlds[k]);
    }
  }

  /**
    A run keeps every incident paced throughout exactly when, at every increment,
    the incident's next stage existed and was over when the send began.
   */
  lemma RunIsPacedIff(policy: Policy, worlds: seq<World>, steps: seq<Step>)
    requires Run(policy, worlds, steps)
    ensures (forall k :: 0 <= k < |worlds| ==> InboxPaced(policy, worlds[k])) <==> StagesOver(policy, worlds, steps)
  {
    if StagesOver(policy, worlds, steps) {
      forall k | 0 <= k < |worlds|
        ensures InboxPaced(policy, worlds[k])
      {
        StagesOverKeepPace(policy, worlds, steps, k);
      }
    }
    if forall k :: 0 <= k < |worlds| ==> InboxPaced(policy, worlds[k]) {
      forall i | 0 <= i < |steps| && steps[i].FinishSend?
        ensures Increments(worlds[i]) && StageOver(policy, worlds[i])
      {
        PacedInboxesKeepPace(policy, worlds, steps, i);
        PaceStep(policy, worlds[i], steps[i], worlds[i + 1]);
      }
    }
  }

  // One write per incident never overtakes --------------------------------

  ghost predicate OneWriteEach(w: World)
  {
    forall op, op' :: op in w.writes && op' in w.writes && w.writes[op].id == w.writes[op'].id ==> op == op'
  }

  /** Never two operator writes in flight on the same incident. */
  ghost predicate OneWritePerIncident(worlds: seq<World>)
  {
    forall i :: 0 <= i < |worlds| ==> OneWriteEach(worlds[i])
  }

  /** No copy in flight is at a higher level than its incident. */
  ghost predicate WritesBelow(w: World)
  {
    forall op :: op in w.writes ==> BelowIncident(w.writes[op], w.incidents)
  }

  predicate BelowIncident(update: Incident, m: Inbox)
  {
    update.id in m && update.level <= m[update.id].level
  }

  lemma WritesStayBelow(policy: Policy, w: World, step: Step, w': World)
    requires Identities(w) && WritesBelow(w) && OneWriteEach(w) && Next(policy, w, step, w')
    ensures WritesBelow(w')
  {
    forall op | op in w'.writes
      ensures BelowIncident(w'.writes[op], w'.incidents)
    {
      if op in w.writes {
        assert BelowIncident(w.writes[op], w.incidents);
      }
    }
  }

  lemma BelowNeverOvertakes(policy: Policy, w: World, op: nat)
    requires CheckerOk(policy, w) && WritesBelow(w) && op in w.writes
    ensures !Overtakes(w, op)
  {
    forall i | 0 <= i < |Tasks(w.checker)|
      ensures !OvertakesTask(w.writes[op], Tasks(w.checker)[i])
    {
      assert TaskOk(policy, w.incidents, Tasks(w.checker)[i], w.clock) && BelowIncident(w.writes[op], w.incidents);
    }
  }

  lemma {:induction false} OneWriteKeepsPace(policy: Policy, worlds: seq<World>, steps: seq<Step>, k: nat)
    requires Run(policy, worlds, steps) && OneWritePerIncident(worlds) && k < |worlds|
    ensures EscalationInv(policy, worlds[k]) && WritesBelow(worlds[k])
  {
    if k > 0 {
      OneWriteKeepsPace(policy, worlds, steps, k - 1);
      var w, step, w' := worlds[k - 1], steps[k - 1], worlds[k];
      if step.CommitWrite? {
        BelowNeverOvertakes(policy, w, step.op);
      }
      StepKeepsPace(policy, w, step, w');
      WritesStayBelow(policy, w, step, w');
    }
  }

  /** With at most one write in flight per incident no commit overtakes, so the pace is kept. */
  lemma OneWriteNeverOvertakes(policy: Policy, worlds: seq<World>, steps: seq<Step>)
    requires Run(policy, worlds, steps) && OneWritePerIncident(worlds)
    ensures NoOvertaking(worlds, steps)
  {
    forall i | 0 <= i < |steps| && steps[i].CommitWrite? && steps[i].op in worlds[i].writes
      ensures !Overtakes(worlds[i], steps[i].op)
    {
      OneWriteKeepsPace(policy, worlds, steps, i);
      BelowNeverOvertakes(policy, worlds[i], steps[i].op);
    }
  }

  // Two operator writes in flight ---------------------------------------

  /** One nanosecond, then a hundred. */
  const TWO_STAGES := [Stage(1, "not_resolved", []), Stage(100, "not_resolved", [])]

  /** Two acknowledgements overlap; the older one takes a level back, the newer one returns it mid-send. */
  function OverlapSteps(a: string): seq<Step>
  {
    [Trigger("r", "s", "", "e", a, None), BeginWrite(0, a, Acknowledge("u")),
     Check([Task(a, 0)]), StartSend, FinishSend, Skip,
     BeginWrite(1, a, Acknowledge("u")), CommitWrite(0),
     Check([Task(a, 0)]), StartSend, CommitWrite(1), FinishSend]
  }

  function OverlapWorlds(a: string): seq<World>
  {
    var i0 := Incident(a, "r", "s", "", Open, 0, None, "", None, "", ["e"], 0, None);
    var i1 := i0.(level := 1, lastEscalatedAt := Some(1));
    var c0 := i0.(status := Acked, ackedAt := Some(0), ackedBy := "u");
    var c1 := i1.(status := Acked, ackedAt := Some(1), ackedBy := "u");
    var i2 := c1.(level := 2, lastEscalatedAt := Some(2));
    var task := Task(a, 0);
    [World(map[], 0, map[], Quiet, []),
     World(map[a := i0], 0, map[], Quiet, ["e"]),
     World(map[a := i0], 0, map[0 := c0], Quiet, ["e"]),
     World(map[a := i0], 1, map[0 := c0], Working([task]), ["e"]),
     World(map[a := i0], 1, map[0 := c0], Sending(task, 1, []), ["e"]),
     World(map[a := i1], 1, map[0 := c0], Working([]), ["e"]),
     World(map[a := i1], 1, map[0 := c0], Quiet, ["e"]),
     World(map[a := i1], 1, map[0 := c0, 1 := c1], Quiet, ["e"]),
     World(map[a := c0], 1, map[1 := c1], Quiet, ["e"]),
     World(map[a := c0], 2, map[1 := c1], Working([task]), ["e"]),
     World(map[a := c0], 2, map[1 := c1], Sending(task, 2, []), ["e"]),
     World(map[a := c1], 2, map[], Sending(task, 2, []), ["e"]),
     World(map[a := i2], 2, map[], Working([]), ["e"])]
  }

  lemma OverlapFirstSteps(policy: Policy, a: string)
    requires policy("r") == TWO_STAGES
    ensures var w, s := OverlapWorlds(a), OverlapSteps(a);
            forall i :: 0 <= i < 4 ==> Next(policy, w[i], s[i], w[i + 1])
  {
    var w, s := OverlapWorlds(a), OverlapSteps(a);
    assert Next(policy, w[0], s[0], w[1]);
    assert Next(policy, w[1], s[1], w[2]);
    assert Next(policy, w[2], s[2], w[3]) by {
      assert s[2].tasks[0].id == a && Lists(s[2].tasks, a);
    }
    assert Next(policy, w[3], s[3], w[4]) by {
      assert [Task(a, 0)][1..] == [];
    }
  }

  lemma OverlapNextSteps(policy: Policy, a: string)
    requires policy("r") == TWO_STAGES
    ensures var w, s := OverlapWorlds(a), OverlapSteps(a);
            forall i :: 4 <= i < 8 ==> Next(policy, w[i], s[i], w[i + 1])
  {
    var w, s := OverlapWorlds(a), OverlapSteps(a);
    assert Next(policy, w[4], s[4], w[5]);
    assert Next(policy, w[5], s[5], w[6]);
    assert Next(policy, w[6], s[6], w[7]);
    assert Next(policy, w[7], s[7], w[8]) by {
      assert w[7].writes - {0} == w[8].writes;
    }
  }

  lemma OverlapSecondCheck(policy: Policy, a: string)
    requires policy("r") == TWO_STAGES
    ensures var w, s := OverlapWorlds(a), OverlapSteps(a);
            forall i :: 8 <= i < 10 ==> Next(policy, w[i], s[i], w[i + 1])
  {
    var w, s := OverlapWorlds(a), OverlapSteps(a);
    assert Next(policy, w[8], s[8], w[9]) by {
      assert s[8].tasks[0].id == a && Lists(s[8].tasks, a);
    }
    assert Next(policy, w[9], s[9], w[10]) by {
      assert [Task(a, 0)][1..] == [];
    }
  }

  lemma OverlapLastSteps(policy: Policy, a: string)
    requires policy("r") == TWO_STAGES
    ensures var w, s := OverlapWorlds(a), OverlapSteps(a);
            forall i :: 10 <= i < 12 ==> Next(policy, w[i], s[i], w[i + 1])
  {
    var w, s := OverlapWorlds(a), OverlapSteps(a);
    assert Next(policy, w[10], s[10], w[11]) by {
      assert w[10].writes - {1} == w[11].writes;
    }
    assert Next(policy, w[11], s[11], w[12]);
  }

  /** A commit that overtakes really loses the pace: level 2 is reached before the second wait began. */
  lemma OverlappingWritesBreakPace(policy: Policy, a: string)
    requires policy("r") == TWO_STAGES
    ensures Run(policy, OverlapWorlds(a), OverlapSteps(a))
    ensures 1 in OverlapWorlds(a)[10].writes && Overtakes(OverlapWorlds(a)[10], 1)
    ensures var inc := OverlapWorlds(a)[12].incidents[a];
            && inc.level == 2 && inc.lastEscalatedAt == Some(2)
            && inc.startedAt + TotalWait(TWO_STAGES, 2) == 101
  {
    OverlapFirstSteps(policy, a);
    OverlapNextSteps(policy, a);
    OverlapSecondCheck(policy, a);
    OverlapLastSteps(policy, a);
    var w := OverlapWorlds(a);
    assert OvertakesTask(w[10].writes[1], Tasks(w[10].checker)[0]);
    assert TotalWait(TWO_STAGES, 1) == 1;
  }
}
