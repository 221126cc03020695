/**
  Quota admission across a cluster (cmd/anubis/quota.go and the soul write path
  of cmd/anubis/server.go).

  Every node counts souls in its own replica, which is a prefix of the shared
  log, and holds its guard's mutex from the count until its own create has been
  applied locally. A write to a soul the node already sees takes no lock and is
  never counted. The main theorem bounds what any run can commit.
 */
module QuotaAdmission {
  import opened Options

  datatype Soul = Soul(ws: string, id: string)

  /** Souls with their check interval. */
  type Store = map<Soul, int>

  datatype Command = Set(soul: Soul, weight: int) | Delete(soul: Soul)

  function ApplyOne(store: Store, cmd: Command): Store
  {
    match cmd
    case Set(soul, weight) => store[soul := weight]
    case Delete(soul) => store - {soul}
  }

  function Replay(base: Store, log: seq<Command>): Store
  {
    if log == [] then base else ApplyOne(Replay(base, log[..|log| - 1]), log[|log| - 1])
  }

  function InWorkspace(store: Store, ws: string): set<Soul>
  {
    set s | s in store && s.ws == ws
  }

  /** What a node that has applied this much of the log counts in ws. */
  function Count(base: Store, log: seq<Command>, ws: string): nat
  {
    |InWorkspace(Replay(base, log), ws)|
  }

  // ---------------------------------------------------------------------
  // The guard
  // ---------------------------------------------------------------------

  datatype Limits = Limits(enabled: bool, maxSouls: int, intervalFloor: int)

  /** Refused: an error. Unlocked: admitted without the mutex. Locked: admitted, mutex held. */
  datatype Decision = Refused | Unlocked | Locked

  /** What a lookup by bare ID may return: any stored soul with that ID, in whatever workspace. */
  predicate LookupResult(view: Store, id: string, found: Option<Soul>)
  {
    match found
    case Some(s) => s in view && s.id == id
    case None => forall s :: s in view ==> s.id != id
  }

  predicate IntervalAllowed(floor: int, weight: int, current: Option<int>)
  {
    floor <= 0 || current == Some(weight) || weight <= 0 || weight >= floor
  }

  function Existing(seen: Store, soul: Soul, found: Option<Soul>): Option<int>
    requires LookupResult(seen, soul.id, found)
  {
    if found.Some? && found.value.ws == soul.ws then Some(seen[found.value]) else None
  }

  /** The lookup reads the replica before the mutex is taken (seen), the count reads it afterwards (view). */
  function Decide(limits: Limits, seen: Store, view: Store, soul: Soul, weight: int, found: Option<Soul>): Decision
    requires LookupResult(seen, soul.id, found)
  {
    var existing := Existing(seen, soul, found);
    if !limits.enabled then Unlocked
    else if !IntervalAllowed(limits.intervalFloor, weight, existing) then Refused
    else if existing.Some? || limits.maxSouls <= 0 then Unlocked
    else if |InWorkspace(view, soul.ws)| >= limits.maxSouls then Refused
    else Locked
  }

  /** The write has to wait for the mutex. */
  predicate TakesLock(limits: Limits, seen: Store, soul: Soul, weight: int, found: Option<Soul>)
    requires LookupResult(seen, soul.id, found)
  {
    var existing := Existing(seen, soul, found);
    limits.enabled && IntervalAllowed(limits.intervalFloor, weight, existing) && existing.None? && limits.maxSouls > 0
  }

  /** A soul the lookup did not find in its own workspace. */
  predicate IsCreate(soul: Soul, found: Option<Soul>)
  {
    found.None? || found.value.ws != soul.ws
  }

  /** The interval is positive, below a positive floor, and not the one the soul already has. */
  predicate TooOften(limits: Limits, seen: Store, soul: Soul, weight: int, found: Option<Soul>)
    requires LookupResult(seen, soul.id, found)
  {
    0 < weight < limits.intervalFloor && (IsCreate(soul, found) || seen[found.value] != weight)
  }

  /**
    Refused are too short intervals and creates in a workspace that is full;
    every other create under a limit is admitted with the mutex, and all the rest
    without it. In particular an interval at or above the floor always passes.
   */
  lemma DecisionMeans(limits: Limits, seen: Store, view: Store, soul: Soul, weight: int, found: Option<Soul>)
    requires LookupResult(seen, soul.id, found)
    ensures var d := Decide(limits, seen, view, soul, weight, found);
            var counted := IsCreate(soul, found) && limits.maxSouls > 0;
            var full := |InWorkspace(view, soul.ws)| >= limits.maxSouls;
            && (d == Refused <==> limits.enabled && (TooOften(limits, seen, soul, weight, found) || (counted && full)))
            && (d == Locked <==>
                  limits.enabled && !TooOften(limits, seen, soul, weight, found) && counted && !full)
            && (d == Refused && weight >= limits.intervalFloor ==> counted && full)
  {
  }

  class QuotaGuard {
    const limits: Limits
    var held: bool

    constructor (limits: Limits)
      ensures this.limits == limits && !held
    {
      this.limits := limits;
      held := false;
    }

    /** Every refusing path gives the mutex back; only a counted create keeps it. */
    method AdmitSoul(seen: Store, view: Store, soul: Soul, weight: int, found: Option<Soul>) returns (d: Decision)
      requires LookupResult(seen, soul.id, found)
      requires TakesLock(limits, seen, soul, weight, found) ==> !held
      modifies this
      ensures d == Refused <==>
                && limits.enabled
                && (TooOften(limits, seen, soul, weight, found)
                    || (IsCreate(soul, found) && 0 < limits.maxSouls <= |InWorkspace(view, soul.ws)|))
      ensures d == Decide(limits, seen, view, soul, weight, found)
      ensures held <==> old(held) || d == Locked
    {
      if !limits.enabled {
        return Unlocked;
      }
      var existing := Existing(seen, soul, found);
      if !IntervalAllowed(limits.intervalFloor, weight, existing) {
        return Refused;
      }
      if existing.Some? || limits.maxSouls <= 0 {
        return Unlocked;
      }
      held := true;
      var souls := InWorkspace(view, soul.ws);
      if |souls| >= limits.maxSouls {
        held := false;
        return Refused;
      }
      return Locked;
    }

    method Release()
      requires held
      modifies this
      ensures !held
    {
      held := false;
    }
  }

  // ---------------------------------------------------------------------
  // The cluster as a state machine
  // ---------------------------------------------------------------------

  /** The mutex is held in every phase but Idle. */
  datatype Phase = Idle | Admitted(soul: Soul, weight: int) | Waiting(at: nat)

  datatype Node = Node(applied: nat, phase: Phase)

  /** updates: writes admitted without the mutex whose command is not in the log yet. */
  datatype Cluster = Cluster(log: seq<Command>, nodes: seq<Node>, updates: multiset<Command>)

  /** seen: the prefix the lookup of an offer read, before it waited for the mutex. */
  datatype Step =
    | Offer(n: nat, soul: Soul, weight: int, seen: nat, found: Option<Soul>)
    | Commit(n: nat)
    | Abort(n: nat)
    | CommitUpdate(cmd: Command)
    | Remove(soul: Soul)
    | Deliver(n: nat, upTo: nat)
    | Release(n: nat)

  predicate Init(c: Cluster, n: nat)
  {
    && c.log == []
    && c.updates == multiset{}
    && |c.nodes| == n
    && forall i :: 0 <= i < n ==> c.nodes[i] == Node(0, Idle)
  }

  function View(base: Store, c: Cluster, n: nat): Store
    requires n < |c.nodes| && c.nodes[n].applied <= |c.log|
  {
    Replay(base, c.log[..c.nodes[n].applied])
  }

  predicate WellFormed(c: Cluster)
  {
    forall i :: 0 <= i < |c.nodes| ==>
      && c.nodes[i].applied <= |c.log|
      && (c.nodes[i].phase.Waiting? ==> c.nodes[i].phase.at < |c.log|)
  }

  predicate Next(base: Store, limits: Limits, c: Cluster, step: Step, c': Cluster)
    requires WellFormed(c)
  {
    match step
    case Offer(n, soul, weight, seen, found) =>
      && n < |c.nodes| && seen <= c.nodes[n].applied
      && var looked := Replay(base, c.log[..seen]);
      && LookupResult(looked, soul.id, found)
      && (match Decide(limits, looked, View(base, c, n), soul, weight, found)
          case Refused => c' == c
          case Unlocked => c' == c.(updates := c.updates + multiset{Set(soul, weight)})
          case Locked =>
            && c.nodes[n].phase.Idle?
            && c' == c.(nodes := c.nodes[n := c.nodes[n].(phase := Admitted(soul, weight))]))
    case Commit(n) =>
      && n < |c.nodes| && c.nodes[n].phase.Admitted?
      && var p := c.nodes[n].phase;
      && c' == c.(log := c.log + [Set(p.soul, p.weight)],
                  nodes := c.nodes[n := c.nodes[n].(phase := Waiting(|c.log|))])
    case Abort(n) =>
      && n < |c.nodes| && c.nodes[n].phase.Admitted?
      && c' == c.(nodes := c.nodes[n := c.nodes[n].(phase := Idle)])
    case CommitUpdate(cmd) =>
      && cmd in c.updates
      && c' == c.(log := c.log + [cmd], updates := c.updates - multiset{cmd})
    case Remove(soul) =>
      c' == c.(log := c.log + [Delete(soul)])
    case Deliver(n, upTo) =>
      && n < |c.nodes| && c.nodes[n].applied <= upTo <= |c.log|
      && c' == c.(nodes := c.nodes[n := c.nodes[n].(applied := upTo)])
    case Release(n) =>
      && n < |c.nodes| && c.nodes[n].phase.Waiting? && c.nodes[n].phase.at < c.nodes[n].applied
      && c' == c.(nodes := c.nodes[n := c.nodes[n].(phase := Idle)])
  }

  ghost predicate Run(base: Store, limits: Limits, n: nat, states: seq<Cluster>, steps: seq<Step>)
  {
    && |states| == |steps| + 1
    && Init(states[0], n)
    && forall i :: 0 <= i < |steps| ==> StepAt(base, limits, states, steps, i)
  }

  ghost predicate StepAt(base: Store, limits: Limits, states: seq<Cluster>, steps: seq<Step>, i: int)
    requires 0 <= i < |steps| && |states| == |steps| + 1
  {
    WellFormed(states[i]) && Next(base, limits, states[i], steps[i], states[i + 1])
  }

  /** A lock-free write to a soul of ws that is not there any more: it was deleted after the node looked it up. */
  predicate Revives(base: Store, ws: string, c: Cluster, step: Step)
  {
    step.CommitUpdate? && step.cmd.soul.ws == ws && step.cmd.soul !in Replay(base, c.log)
  }

  /** How many of the first k steps do that. */
  function Revivals(base: Store, ws: string, states: seq<Cluster>, steps: seq<Step>, k: nat): nat
    requires k <= |steps| && k <= |states|
  {
    if k == 0 then 0
    else Revivals(base, ws, states, steps, k - 1) + if Revives(base, ws, states[k - 1], steps[k - 1]) then 1 else 0
  }

  // ---------------------------------------------------------------------
  // The last point of the log at which the workspace was below its limit
  // ---------------------------------------------------------------------

  /** Length of the longest prefix that counts fewer than limit souls, -1 if none does. */
  function LastLow(base: Store, log: seq<Command>, ws: string, limit: nat): (t: int)
    ensures -1 <= t <= |log|
    ensures t >= 0 ==> Count(base, log[..t], ws) < limit
    ensures forall p :: t < p <= |log| ==> Count(base, log[..p], ws) >= limit
  {
    assert log[..|log|] == log;
    if Count(base, log, ws) < limit then |log|
    else if log == [] then -1
    else
      var shorter := log[..|log| - 1];
      assert forall p :: 0 <= p <= |shorter| ==> shorter[..p] == log[..p];
      LastLow(base, shorter, ws, limit)
  }

  lemma LastLowAppend(base: Store, log: seq<Command>, cmd: Command, ws: string, limit: nat)
    ensures var t, t' := LastLow(base, log, ws, limit), LastLow(base, log + [cmd], ws, limit);
            if Count(base, log + [cmd], ws) < limit then t' == |log| + 1 else t' == t
  {
    assert (log + [cmd])[..|log|] == log;
  }

  lemma CountAppend(base: Store, log: seq<Command>, cmd: Command, ws: string)
    ensures var a, b := Count(base, log, ws), Count(base, log + [cmd], ws);
            && (cmd.Delete? || cmd.soul.ws != ws || cmd.soul in Replay(base, log) ==> b <= a)
            && b <= a + 1
  {
    assert (log + [cmd])[..|log|] == log;
    var before, after := Replay(base, log), Replay(base, log + [cmd]);
    assert after == ApplyOne(before, cmd);
    var x, y := InWorkspace(before, ws), InWorkspace(after, ws);
    if cmd.Delete? || cmd.soul.ws != ws || cmd.soul in before {
      assert y <= x;
      SubsetSize(y, x);
    } else {
      assert y <= x + {cmd.soul};
      SubsetSize(y, x + {cmd.soul});
    }
  }

  lemma {:induction false} SubsetSize<T>(a: set<T>, b: set<T>)
    requires a <= b
    ensures |a| <= |b|
  {
    assert b == a + (b - a);
  }

  // ---------------------------------------------------------------------
  // Which nodes may still commit a create they admitted below the limit
  // ---------------------------------------------------------------------

  /** t is the last low point: the node holds, or could still obtain, an admission that predates it. */
  predicate Fresh(node: Node, ws: string, t: int)
  {
    match node.phase
    case Idle => node.applied <= t
    case Admitted(soul, _) => soul.ws == ws || node.applied <= t
    case Waiting(at) => at < t && node.applied <= t
  }

  predicate AdmittedTo(node: Node, ws: string)
  {
    node.phase.Admitted? && node.phase.soul.ws == ws
  }

  function FreshNodes(nodes: seq<Node>, ws: string, t: int): set<nat>
  {
    set i: nat | i < |nodes| && Fresh(nodes[i], ws, t)
  }

  function Below(n: nat): (s: set<nat>)
    ensures |s| == n && forall i: nat :: i in s <==> i < n
  {
    if n == 0 then {} else Below(n - 1) + {n - 1}
  }

  lemma FreshAtMostAll(nodes: seq<Node>, ws: string, t: int)
    ensures |FreshNodes(nodes, ws, t)| <= |nodes|
  {
    SubsetSize(FreshNodes(nodes, ws, t), Below(|nodes|));
  }

  /** revived: how many souls of ws lock-free writes have brought back so far. */
  ghost predicate Inv(base: Store, limit: nat, ws: string, c: Cluster, revived: nat)
  {
    && WellFormed(c)
    && var t := LastLow(base, c.log, ws, limit);
    && (t == -1 ==> Count(base, c.log, ws) <= Count(base, [], ws) + revived)
    && (t == -1 ==> forall i :: 0 <= i < |c.nodes| ==> !AdmittedTo(c.nodes[i], ws))
    && (t >= 0 ==> Count(base, c.log, ws) + |FreshNodes(c.nodes, ws, t)| <= limit - 1 + |c.nodes| + revived)
  }

  lemma InvInit(base: Store, limit: nat, ws: string, c: Cluster, n: nat)
    requires Init(c, n)
    ensures Inv(base, limit, ws, c, 0)
  {
    FreshAtMostAll(c.nodes, ws, LastLow(base, c.log, ws, limit));
  }

  /** A node that is fresh after the step was fresh before it, for every step that leaves the log alone. */
  lemma QuietNode(base: Store, limits: Limits, ws: string, c: Cluster, step: Step, c': Cluster, i: nat)
    requires limits.enabled && limits.maxSouls >= 1
    requires WellFormed(c) && Next(base, limits, c, step, c') && c'.log == c.log && i < |c.nodes|
    ensures |c'.nodes| == |c.nodes|
    ensures var t := LastLow(base, c.log, ws, limits.maxSouls);
            && (Fresh(c'.nodes[i], ws, t) ==> Fresh(c.nodes[i], ws, t))
            && (t == -1 && AdmittedTo(c'.nodes[i], ws) ==> AdmittedTo(c.nodes[i], ws))
  {
  }

  lemma QuietStep(base: Store, limits: Limits, ws: string, c: Cluster, step: Step, c': Cluster, revived: nat)
    requires limits.enabled && limits.maxSouls >= 1
    requires Inv(base, limits.maxSouls, ws, c, revived)
    requires Next(base, limits, c, step, c')
    requires c'.log == c.log
    ensures Inv(base, limits.maxSouls, ws, c', revived) && |c'.nodes| == |c.nodes|
  {
    var t := LastLow(base, c.log, ws, limits.maxSouls);
    forall i: nat | i < |c.nodes|
      ensures Fresh(c'.nodes[i], ws, t) ==> Fresh(c.nodes[i], ws, t)
      ensures t == -1 && AdmittedTo(c'.nodes[i], ws) ==> AdmittedTo(c.nodes[i], ws)
    {
      QuietNode(base, limits, ws, c, step, c', i);
    }
    SubsetSize(FreshNodes(c'.nodes, ws, t), FreshNodes(c.nodes, ws, t));
  }

  /** Every step that appends a command which adds no soul to ws, or revives one. */
  lemma NeutralAppend(base: Store, limit: nat, ws: string, c: Cluster, cmd: Command, nodes: seq<Node>, c': Cluster,
                      revived: nat, revived': nat)
    requires limit >= 1
    requires Inv(base, limit, ws, c, revived) && revived <= revived'
    requires c'.log == c.log + [cmd] && c'.nodes == nodes && |nodes| == |c.nodes|
    requires WellFormed(c')
    requires Count(base, c'.log, ws) <= Count(base, c.log, ws) + (revived' - revived)
    requires forall i, t :: 0 <= i < |nodes| && t <= |c.log| && Fresh(nodes[i], ws, t) ==> Fresh(c.nodes[i], ws, t)
    requires forall i :: 0 <= i < |nodes| && nodes[i].phase.Admitted? ==> nodes[i] == c.nodes[i]
    ensures Inv(base, limit, ws, c', revived')
  {
    var t, t' := LastLow(base, c.log, ws, limit), LastLow(base, c'.log, ws, limit);
    LastLowAppend(base, c.log, cmd, ws, limit);
    if t' == |c'.log| {
      FreshAtMostAll(nodes, ws, t');
      assert c'.log[..t'] == c'.log;
    } else {
      SubsetSize(FreshNodes(nodes, ws, t), FreshNodes(c.nodes, ws, t));
    }
  }

  /** The committing node spends its freshness: afterwards it waits for an entry at or past the low point. */
  lemma CommitStep(base: Store, limits: Limits, ws: string, c: Cluster, n: nat, c': Cluster, revived: nat)
    requires limits.enabled && limits.maxSouls >= 1
    requires Inv(base, limits.maxSouls, ws, c, revived)
    requires Next(base, limits, c, Commit(n), c')
    ensures Inv(base, limits.maxSouls, ws, c', revived)
  {
    var p := c.nodes[n].phase;
    var cmd := Set(p.soul, p.weight);
    CountAppend(base, c.log, cmd, ws);
    if p.soul.ws != ws {
      NeutralAppend(base, limits.maxSouls, ws, c, cmd, c'.nodes, c', revived, revived);
    } else {
      CountedAppend(base, limits.maxSouls, ws, c, n, cmd, c', revived);
    }
  }

  lemma CountedAppend(base: Store, limit: nat, ws: string, c: Cluster, n: nat, cmd: Command, c': Cluster, revived: nat)
    requires limit >= 1 && Inv(base, limit, ws, c, revived)
    requires n < |c.nodes| && c.nodes[n].phase.Admitted? && c.nodes[n].phase.soul.ws == ws
    requires c'.log == c.log + [cmd] && Count(base, c'.log, ws) <= Count(base, c.log, ws) + 1
    requires c'.nodes == c.nodes[n := c.nodes[n].(phase := Waiting(|c.log|))]
    ensures Inv(base, limit, ws, c', revived)
  {
    var t, t' := LastLow(base, c.log, ws, limit), LastLow(base, c'.log, ws, limit);
    LastLowAppend(base, c.log, cmd, ws, limit);
    if t' == |c'.log| {
      FreshAtMostAll(c'.nodes, ws, t');
      assert c'.log[..t'] == c'.log;
    } else {
      CommitterNotFresh(c, n, ws, t);
    }
  }

  lemma CommitterNotFresh(c: Cluster, n: nat, ws: string, t: int)
    requires n < |c.nodes| && c.nodes[n].phase.Admitted? && c.nodes[n].phase.soul.ws == ws && t <= |c.log|
    ensures |FreshNodes(c.nodes[n := c.nodes[n].(phase := Waiting(|c.log|))], ws, t)| < |FreshNodes(c.nodes, ws, t)|
  {
    var before := FreshNodes(c.nodes, ws, t);
    var after := FreshNodes(c.nodes[n := c.nodes[n].(phase := Waiting(|c.log|))], ws, t);
    assert n in before && after <= before - {n};
    SubsetSize(after, before - {n});
  }

  lemma StepKeepsInv(base: Store, limits: Limits, ws: string, c: Cluster, step: Step, c': Cluster, revived: nat)
    requires limits.enabled && limits.maxSouls >= 1
    requires Inv(base, limits.maxSouls, ws, c, revived)
    requires Next(base, limits, c, step, c')
    ensures Inv(base, limits.maxSouls, ws, c', revived + if Revives(base, ws, c, step) then 1 else 0)
    ensures |c'.nodes| == |c.nodes|
  {
    match step
    case Commit(n) => CommitStep(base, limits, ws, c, n, c', revived);
    case CommitUpdate(cmd) =>
      CountAppend(base, c.log, cmd, ws);
      NeutralAppend(base, limits.maxSouls, ws, c, cmd, c.nodes, c', revived,
                    revived + if Revives(base, ws, c, step) then 1 else 0);
    case Remove(soul) =>
      CountAppend(base, c.log, Delete(soul), ws);
      NeutralAppend(base, limits.maxSouls, ws, c, Delete(soul), c.nodes, c', revived, revived);
    case _ => QuietStep(base, limits, ws, c, step, c', revived);
  }

  lemma {:induction false} RunKeepsInv(base: Store, limits: Limits, n: nat, ws: string,
                                       states: seq<Cluster>, steps: seq<Step>, k: nat)
    requires limits.enabled && limits.maxSouls >= 1
    requires Run(base, limits, n, states, steps) && k < |states|
    ensures Inv(base, limits.maxSouls, ws, states[k], Revivals(base, ws, states, steps, k)) && |states[k].nodes| == n
  {
    if k == 0 {
      InvInit(base, limits.maxSouls, ws, states[0], n);
    } else {
      RunKeepsInv(base, limits, n, ws, states, steps, k - 1);
      assert StepAt(base, limits, states, steps, k - 1);
      StepKeepsInv(base, limits, ws, states[k - 1], steps[k - 1], states[k], Revivals(base, ws, states, steps, k - 1));
    }
  }

  /**
    With n nodes and limit L, a workspace that starts below the limit never holds
    more than L + n - 1 souls and those that lock-free writes brought back after
    their deletion; one that starts over the limit never grows past that or its
    own start and what was brought back.
   */
  lemma QuotaOvershootBound(base: Store, limits: Limits, n: nat, ws: string,
                            states: seq<Cluster>, steps: seq<Step>, k: nat)
    requires limits.enabled && limits.maxSouls >= 1
    requires Run(base, limits, n, states, steps) && k < |states|
    ensures var start, now := Count(base, [], ws), Count(base, states[k].log, ws);
            var revived := Revivals(base, ws, states, steps, k);
            && (start < limits.maxSouls ==> now <= limits.maxSouls + n - 1 + revived)
            && (now > start + revived ==> now <= limits.maxSouls + n - 1 + revived)
  {
    RunKeepsInv(base, limits, n, ws, states, steps, k);
    assert states[k].log[..0] == [];
  }

  // ---------------------------------------------------------------------
  // The bound is reached, for every number of nodes, limit and revivals
  // ---------------------------------------------------------------------

  /** Some run ends in c, with that many revivals on the way. */
  ghost predicate Reaches(base: Store, limits: Limits, n: nat, ws: string, c: Cluster, revived: nat)
  {
    WellFormed(c) && exists states, steps :: EndsIn(base, limits, n, ws, states, steps, c, revived)
  }

  ghost predicate EndsIn(base: Store, limits: Limits, n: nat, ws: string, states: seq<Cluster>, steps: seq<Step>,
                         c: Cluster, revived: nat)
  {
    && Run(base, limits, n, states, steps)
    && states[|steps|] == c && Revivals(base, ws, states, steps, |steps|) == revived
  }

  lemma {:induction false} RevivalsOfPrefix(base: Store, ws: string, states: seq<Cluster>, steps: seq<Step>,
                                            states': seq<Cluster>, steps': seq<Step>, k: nat)
    requires k <= |steps| <= |states| && steps <= steps' && states <= states'
    ensures Revivals(base, ws, states, steps, k) == Revivals(base, ws, states', steps', k)
  {
    if k > 0 {
      RevivalsOfPrefix(base, ws, states, steps, states', steps', k - 1);
    }
  }

  /** A run that ends in c goes on with any step from c. */
  lemma Extend(base: Store, limits: Limits, n: nat, ws: string, c: Cluster, revived: nat, step: Step, c': Cluster)
    requires Reaches(base, limits, n, ws, c, revived) && Next(base, limits, c, step, c') && WellFormed(c')
    ensures Reaches(base, limits, n, ws, c', revived + if Revives(base, ws, c, step) then 1 else 0)
  {
    var states, steps :| EndsIn(base, limits, n, ws, states, steps, c, revived);
    var states', steps' := states + [c'], steps + [step];
    RevivalsOfPrefix(base, ws, states, steps, states', steps', |steps|);
    forall i | 0 <= i < |steps'|
      ensures StepAt(base, limits, states', steps', i)
    {
      assert i < |steps| ==> StepAt(base, limits, states, steps, i);
    }
    assert EndsIn(base, limits, n, ws, states', steps', c', revived + if Revives(base, ws, c, step) then 1 else 0);
  }

  /** Different souls of one workspace. */
  ghost predicate Different(names: seq<Soul>, ws: string)
  {
    && (forall i :: 0 <= i < |names| ==> names[i].ws == ws)
    && (forall i, j :: 0 <= i < j < |names| ==> names[i].id != names[j].id)
  }

  lemma {:induction false} EnoughNames(ws: string, k: nat) returns (names: seq<Soul>)
    ensures |names| == k && Different(names, ws) && forall i :: 0 <= i < k ==> |names[i].id| == i
  {
    if k == 0 {
      names := [];
    } else {
      var rest := EnoughNames(ws, k - 1);
      names := rest + [Soul(ws, seq(k - 1, _ => 'a'))];
    }
  }

  /** The replica that has applied everything holds the first k souls and nothing else. */
  ghost predicate Holds(base: Store, log: seq<Command>, names: seq<Soul>, k: nat)
    requires k <= |names|
  {
    forall s :: s in Replay(base, log) <==> s in names[..k]
  }

  function Stock(souls: seq<Soul>): Store
  {
    if souls == [] then map[] else Stock(souls[..|souls| - 1])[souls[|souls| - 1] := 0]
  }

  lemma {:induction false} StockHolds(names: seq<Soul>, k: nat)
    requires k <= |names|
    ensures Holds(Stock(names[..k]), [], names, k)
  {
    if k > 0 {
      StockHolds(names, k - 1);
      assert names[..k] == names[..k - 1] + [names[k - 1]];
    }
  }

  lemma ReplayAppend(base: Store, log: seq<Command>, cmd: Command)
    ensures Replay(base, log + [cmd]) == ApplyOne(Replay(base, log), cmd)
  {
    assert (log + [cmd])[..|log|] == log;
  }

  lemma SetNext(base: Store, log: seq<Command>, names: seq<Soul>, k: nat)
    requires k < |names| && Holds(base, log, names, k)
    ensures Holds(base, log + [Set(names[k], 0)], names, k + 1)
  {
    ReplayAppend(base, log, Set(names[k], 0));
    assert names[..k + 1] == names[..k] + [names[k]];
  }

  /** Creating and deleting a further soul brings the store back. */
  lemma SetAndDelete(base: Store, log: seq<Command>, names: seq<Soul>, k: nat, x: Soul)
    requires k <= |names| && Holds(base, log, names, k) && x !in names[..k]
    ensures x in Replay(base, log + [Set(x, 0)])
    ensures Holds(base, log + [Set(x, 0)] + [Delete(x)], names, k)
  {
    ReplayAppend(base, log, Set(x, 0));
    ReplayAppend(base, log + [Set(x, 0)], Delete(x));
  }

  lemma HeldCount(base: Store, log: seq<Command>, names: seq<Soul>, ws: string, k: nat)
    requires k <= |names| && Different(names, ws) && Holds(base, log, names, k)
    ensures Count(base, log, ws) == k
  {
    assert InWorkspace(Replay(base, log), ws) == Members(names, k);
    MembersSize(names, ws, k);
  }

  function Members(names: seq<Soul>, k: nat): set<Soul>
    requires k <= |names|
  {
    set s | s in names[..k]
  }

  lemma {:induction false} MembersSize(names: seq<Soul>, ws: string, k: nat)
    requires k <= |names| && Different(names, ws)
    ensures |Members(names, k)| == k
  {
    if k > 0 {
      MembersSize(names, ws, k - 1);
      NotAmong(names, ws, k - 1, k - 1);
      assert names[..k] == names[..k - 1] + [names[k - 1]];
      assert Members(names, k) == Members(names, k - 1) + {names[k - 1]};
    }
  }

  lemma NotAmong(names: seq<Soul>, ws: string, k: nat, i: nat)
    requires Different(names, ws) && k <= i < |names|
    ensures forall s :: s in names[..k] ==> s.id != names[i].id
  {
  }

  /** The writes of souls i and later that were admitted without the mutex and are still on their way. */
  function Late(names: seq<Soul>, i: nat): multiset<Command>
    requires i <= |names|
    decreases |names| - i
  {
    if i == |names| then multiset{} else multiset{Set(names[i], 0)} + Late(names, i + 1)
  }

  /** Between two rounds: the store is back at one below the limit, node 0 has applied everything and is idle. */
  ghost predicate Prepared(base: Store, names: seq<Soul>, lo: nat, n: nat, c: Cluster)
    requires lo <= |names|
  {
    && |c.nodes| == n >= 1 && c.nodes[0] == Node(|c.log|, Idle)
    && (forall i :: 1 <= i < n ==> c.nodes[i] == Node(0, Idle))
    && Holds(base, c.log, names, lo)
  }

  /** A node that has applied everything is admitted to create soul i. */
  lemma OfferOne(base: Store, limits: Limits, ws: string, n: nat, names: seq<Soul>, lo: nat, c: Cluster, k: nat, i: nat)
    returns (c': Cluster)
    requires limits == Limits(true, lo + 1, 0) && Different(names, ws) && lo <= i < |names|
    requires Reaches(base, limits, n, ws, c, 0) && Holds(base, c.log, names, lo)
    requires k < |c.nodes| && c.nodes[k] == Node(|c.log|, Idle)
    ensures Reaches(base, limits, n, ws, c', 0)
    ensures c' == c.(nodes := c.nodes[k := Node(|c.log|, Admitted(names[i], 0))])
  {
    var at := |c.log|;
    assert c.log[..at] == c.log;
    HeldCount(base, c.log, names, ws, lo);
    NotAmong(names, ws, lo, i);
    c' := c.(nodes := c.nodes[k := Node(at, Admitted(names[i], 0))]);
    Extend(base, limits, n, ws, c, 0, Offer(k, names[i], 0, at, None), c');
  }

  lemma CommitOne(base: Store, limits: Limits, ws: string, n: nat, c: Cluster, k: nat, x: Soul) returns (c': Cluster)
    requires Reaches(base, limits, n, ws, c, 0) && k < |c.nodes| && c.nodes[k].phase == Admitted(x, 0)
    ensures Reaches(base, limits, n, ws, c', 0)
    ensures c' == Cluster(c.log + [Set(x, 0)], c.nodes[k := c.nodes[k].(phase := Waiting(|c.log|))], c.updates)
  {
    c' := Cluster(c.log + [Set(x, 0)], c.nodes[k := c.nodes[k].(phase := Waiting(|c.log|))], c.updates);
    Extend(base, limits, n, ws, c, 0, Commit(k), c');
  }

  lemma DeliverOne(base: Store, limits: Limits, ws: string, n: nat, c: Cluster, k: nat) returns (c': Cluster)
    requires Reaches(base, limits, n, ws, c, 0) && k < |c.nodes|
    ensures Reaches(base, limits, n, ws, c', 0)
    ensures c' == c.(nodes := c.nodes[k := c.nodes[k].(applied := |c.log|)])
  {
    c' := c.(nodes := c.nodes[k := c.nodes[k].(applied := |c.log|)]);
    Extend(base, limits, n, ws, c, 0, Deliver(k, |c.log|), c');
  }

  /** Node 0 creates soul i and is done with it. */
  lemma CreateOne(base: Store, limits: Limits, ws: string, n: nat, names: seq<Soul>, lo: nat, c: Cluster, i: nat)
    returns (c': Cluster)
    requires limits == Limits(true, lo + 1, 0) && Different(names, ws) && lo <= i < |names|
    requires Reaches(base, limits, n, ws, c, 0) && Prepared(base, names, lo, n, c)
    ensures Reaches(base, limits, n, ws, c', 0)
    ensures c' == Cluster(c.log + [Set(names[i], 0)], c.nodes[0 := Node(|c.log| + 1, Idle)], c.updates)
  {
    var c1 := OfferOne(base, limits, ws, n, names, lo, c, 0, i);
    var c2 := CommitOne(base, limits, ws, n, c1, 0, names[i]);
    var c3 := DeliverOne(base, limits, ws, n, c2, 0);
    c' := c3.(nodes := c3.nodes[0 := c3.nodes[0].(phase := Idle)]);
    Extend(base, limits, n, ws, c3, 0, Release(0), c');
  }

  /** An update of x is admitted while x exists, then x is deleted. */
  lemma UpdateThenDelete(base: Store, limits: Limits, ws: string, n: nat, c: Cluster, x: Soul) returns (c': Cluster)
    requires limits.enabled && limits.intervalFloor == 0 && Reaches(base, limits, n, ws, c, 0)
    requires x in Replay(base, c.log) && |c.nodes| >= 1 && c.nodes[0] == Node(|c.log|, Idle)
    ensures Reaches(base, limits, n, ws, c', 0)
    ensures c' == Cluster(c.log + [Delete(x)], c.nodes[0 := Node(|c.log| + 1, Idle)], c.updates + multiset{Set(x, 0)})
  {
    var at := |c.log|;
    assert c.log[..at] == c.log;
    var c1 := c.(updates := c.updates + multiset{Set(x, 0)});
    Extend(base, limits, n, ws, c, 0, Offer(0, x, 0, at, Some(x)), c1);
    var c2 := c1.(log := c.log + [Delete(x)]);
    Extend(base, limits, n, ws, c1, 0, Remove(x), c2);
    c' := DeliverOne(base, limits, ws, n, c2, 0);
  }

  lemma PrepareOne(base: Store, limits: Limits, ws: string, n: nat, names: seq<Soul>, lo: nat, c: Cluster, i: nat)
    returns (c': Cluster)
    requires limits == Limits(true, lo + 1, 0) && Different(names, ws) && lo <= i < |names|
    requires Reaches(base, limits, n, ws, c, 0) && Prepared(base, names, lo, n, c)
    ensures Reaches(base, limits, n, ws, c', 0) && Prepared(base, names, lo, n, c')
    ensures c'.updates == c.updates + multiset{Set(names[i], 0)}
  {
    NotAmong(names, ws, lo, i);
    SetAndDelete(base, c.log, names, lo, names[i]);
    var c1 := CreateOne(base, limits, ws, n, names, lo, c, i);
    c' := UpdateThenDelete(base, limits, ws, n, c1, names[i]);
  }

  /** Souls i and later were created, updated and deleted; the updates are still on their way. */
  lemma {:induction false} PrepareLate(base: Store, limits: Limits, ws: string, n: nat, names: seq<Soul>, lo: nat,
                                       i: nat) returns (c: Cluster)
    requires limits == Limits(true, lo + 1, 0) && Different(names, ws) && lo <= i <= |names| && n >= 1
    requires Holds(base, [], names, lo)
    ensures Reaches(base, limits, n, ws, c, 0) && Prepared(base, names, lo, n, c)
    ensures c.updates == Late(names, i)
    decreases |names| - i
  {
    if i == |names| {
      c := Cluster([], seq(n, _ => Node(0, Idle)), multiset{});
      assert EndsIn(base, limits, n, ws, [c], [], c, 0);
    } else {
      var c0 := PrepareLate(base, limits, ws, n, names, lo, i + 1);
      c := PrepareOne(base, limits, ws, n, names, lo, c0, i);
    }
  }

  lemma {:induction false} DeliverAll(base: Store, limits: Limits, ws: string, n: nat, c: Cluster, k: nat)
    returns (c': Cluster)
    requires Reaches(base, limits, n, ws, c, 0) && k <= |c.nodes| == n
    requires forall i :: 0 <= i < n ==> c.nodes[i].phase == Idle
    ensures Reaches(base, limits, n, ws, c', 0) && |c'.nodes| == n && c'.log == c.log && c'.updates == c.updates
    ensures forall i :: 0 <= i < k ==> c'.nodes[i] == Node(|c.log|, Idle)
    ensures forall i :: k <= i < n ==> c'.nodes[i] == c.nodes[i]
  {
    if k == 0 {
      c' := c;
    } else {
      var c0 := DeliverAll(base, limits, ws, n, c, k - 1);
      c' := DeliverOne(base, limits, ws, n, c0, k - 1);
    }
  }

  /** The first k nodes hold an admission for a soul each, the others have only applied the log. */
  ghost predicate Racing(names: seq<Soul>, lo: nat, n: nat, c: Cluster, k: nat)
  {
    && |c.nodes| == n && lo + n <= |names|
    && (forall i :: 0 <= i < n && i < k ==> c.nodes[i] == Node(|c.log|, Admitted(names[lo + i], 0)))
    && (forall i :: k <= i < n ==> c.nodes[i] == Node(|c.log|, Idle))
  }

  lemma {:induction false} OfferAll(base: Store, limits: Limits, ws: string, n: nat, names: seq<Soul>, lo: nat,
                                    c: Cluster, k: nat) returns (c': Cluster)
    requires limits == Limits(true, lo + 1, 0) && Different(names, ws) && k <= n
    requires Reaches(base, limits, n, ws, c, 0) && Racing(names, lo, n, c, 0) && Holds(base, c.log, names, lo)
    ensures Reaches(base, limits, n, ws, c', 0) && Racing(names, lo, n, c', k)
    ensures c'.log == c.log && c'.updates == c.updates
  {
    if k == 0 {
      c' := c;
    } else {
      var c0 := OfferAll(base, limits, ws, n, names, lo, c, k - 1);
      c' := OfferOne(base, limits, ws, n, names, lo, c0, k - 1, lo + k - 1);
    }
  }

  lemma {:induction false} CommitAll(base: Store, limits: Limits, ws: string, n: nat, names: seq<Soul>, lo: nat,
                                     c: Cluster, k: nat) returns (c': Cluster)
    requires k <= n && Reaches(base, limits, n, ws, c, 0) && Racing(names, lo, n, c, n) && Holds(base, c.log, names, lo)
    ensures Reaches(base, limits, n, ws, c', 0) && |c'.nodes| == n && c'.updates == c.updates
    ensures forall i :: k <= i < n ==> c'.nodes[i] == c.nodes[i]
    ensures Holds(base, c'.log, names, lo + k)
  {
    if k == 0 {
      c' := c;
    } else {
      var c0 := CommitAll(base, limits, ws, n, names, lo, c, k - 1);
      c' := CommitOne(base, limits, ws, n, c0, k - 1, names[lo + (k - 1)]);
      SetNext(base, c0.log, names, lo + (k - 1));
    }
  }

  lemma NextIsFree(base: Store, log: seq<Command>, names: seq<Soul>, ws: string, k: nat)
    requires Different(names, ws) && k < |names| && Holds(base, log, names, k)
    ensures names[k] !in Replay(base, log) && names[k].ws == ws
  {
    NotAmong(names, ws, k, k);
  }

  lemma LateStep(names: seq<Soul>, i: nat)
    requires i < |names|
    ensures Set(names[i], 0) in Late(names, i) && Late(names, i) - multiset{Set(names[i], 0)} == Late(names, i + 1)
  {
  }

  lemma ReviveOne(base: Store, limits: Limits, ws: string, n: nat, c: Cluster, j: nat, x: Soul) returns (c': Cluster)
    requires Reaches(base, limits, n, ws, c, j) && Set(x, 0) in c.updates && x.ws == ws && x !in Replay(base, c.log)
    ensures Reaches(base, limits, n, ws, c', j + 1)
    ensures c'.log == c.log + [Set(x, 0)] && c'.updates == c.updates - multiset{Set(x, 0)}
  {
    c' := c.(log := c.log + [Set(x, 0)], updates := c.updates - multiset{Set(x, 0)});
    assert Revives(base, ws, c, CommitUpdate(Set(x, 0)));
    Extend(base, limits, n, ws, c, j, CommitUpdate(Set(x, 0)), c');
  }

  /** The next late update lands. */
  lemma ReviveNext(base: Store, limits: Limits, ws: string, n: nat, names: seq<Soul>, c: Cluster, j: nat, k: nat)
    returns (c': Cluster)
    requires Different(names, ws) && k < |names|
    requires Reaches(base, limits, n, ws, c, j) && c.updates == Late(names, k) && Holds(base, c.log, names, k)
    ensures Reaches(base, limits, n, ws, c', j + 1) && c'.updates == Late(names, k + 1)
    ensures Holds(base, c'.log, names, k + 1)
  {
    NextIsFree(base, c.log, names, ws, k);
    LateStep(names, k);
    c' := ReviveOne(base, limits, ws, n, c, j, names[k]);
    SetNext(base, c.log, names, k);
  }

  /** All late updates from soul k on land, after j of them have. */
  lemma {:induction false} ReviveAll(base: Store, limits: Limits, ws: string, n: nat, names: seq<Soul>, c: Cluster,
                                     j: nat, k: nat) returns (c': Cluster)
    requires Different(names, ws) && k <= |names|
    requires Reaches(base, limits, n, ws, c, j) && c.updates == Late(names, k) && Holds(base, c.log, names, k)
    ensures Reaches(base, limits, n, ws, c', j + |names| - k) && Holds(base, c'.log, names, |names|)
    decreases |names| - k
  {
    if k == |names| {
      c' := c;
    } else {
      var c1 := ReviveNext(base, limits, ws, n, names, c, j, k);
      c' := ReviveAll(base, limits, ws, n, names, c1, j + 1, k + 1);
    }
  }

  /** All nodes count before any commits. */
  lemma Race(base: Store, limits: Limits, ws: string, n: nat, names: seq<Soul>, lo: nat, c: Cluster)
    returns (c': Cluster)
    requires limits == Limits(true, lo + 1, 0) && Different(names, ws) && lo + n <= |names|
    requires Reaches(base, limits, n, ws, c, 0) && Prepared(base, names, lo, n, c)
    ensures Reaches(base, limits, n, ws, c', 0) && c'.updates == c.updates && Holds(base, c'.log, names, lo + n)
  {
    var c1 := DeliverAll(base, limits, ws, n, c, n);
    assert Racing(names, lo, n, c1, 0);
    var c2 := OfferAll(base, limits, ws, n, names, lo, c1, n);
    c' := CommitAll(base, limits, ws, n, names, lo, c2, n);
  }

  lemma ReachBound(base: Store, limits: Limits, ws: string, n: nat, names: seq<Soul>, lo: nat) returns (c: Cluster)
    requires limits == Limits(true, lo + 1, 0) && Different(names, ws) && lo + n <= |names| && n >= 1
    requires Holds(base, [], names, lo)
    ensures Reaches(base, limits, n, ws, c, |names| - (lo + n)) && Holds(base, c.log, names, |names|)
  {
    var c0 := PrepareLate(base, limits, ws, n, names, lo, lo + n);
    var c1 := Race(base, limits, ws, n, names, lo, c0);
    c := ReviveAll(base, limits, ws, n, names, c1, 0, lo + n);
  }

  /**
    For every n >= 1, L >= 1 and number of revivals there is a workspace below
    the limit and a run that ends with exactly L + n - 1 souls and the revived
    ones: node 0 creates, updates and deletes the souls to revive, all nodes
    count before any commits, and the updates land last.
   */
  lemma QuotaBoundIsReached(ws: string, limit: nat, n: nat, revived: nat)
    returns (base: Store, limits: Limits, states: seq<Cluster>, steps: seq<Step>)
    requires limit >= 1 && n >= 1
    ensures limits.enabled && limits.maxSouls == limit && Count(base, [], ws) < limit
    ensures Run(base, limits, n, states, steps) && Revivals(base, ws, states, steps, |steps|) == revived
    ensures Count(base, states[|steps|].log, ws) == limit + n - 1 + revived
  {
    var names := EnoughNames(ws, limit - 1 + n + revived);
    base, limits := Stock(names[..limit - 1]), Limits(true, limit, 0);
    StockHolds(names, limit - 1);
    HeldCount(base, [], names, ws, limit - 1);
    var c := ReachBound(base, limits, ws, n, names, limit - 1);
    HeldCount(base, c.log, names, ws, |names|);
    states, steps :| EndsIn(base, limits, n, ws, states, steps, c, revived);
  }
}
