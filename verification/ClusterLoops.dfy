/**
  The two loops of cmd/anubis/cluster_work.go as interleaved atomic steps.

  enqueue appends under a lock and then posts to a one-slot channel; eventLoop
  receives the token, swaps the slice out and handles it; Trigger posts to a
  second one-slot channel that reconcileLoop receives, debounces and drains
  before it starts an ownership pass. Every step below is one atomic action of
  one goroutine, so a run is an arbitrary interleaving before halt.
 */
module ClusterEvents {
  import opened Options

  /** A stored alert channel or rule, with the ID it carries itself. */
  datatype Record = Record(id: string, body: string)

  /** An applied command; parts is its key split at '/' into at most four pieces, value the record if it decodes. */
  datatype Command = Command(isSet: bool, table: string, parts: seq<string>, value: Option<Record>, origin: string)

  datatype Event = Restore | Applied(cmd: Command)

  const JUDGMENT_TABLE := "judgments"

  predicate Local(cmd: Command, node: string)
  {
    cmd.origin != "" && cmd.origin == node
  }

  /** handleEvent asks for an ownership pass. */
  predicate Replans(ev: Event)
  {
    match ev
    case Restore => true
    case Applied(cmd) =>
      cmd.table != JUDGMENT_TABLE && |cmd.parts| >= 3 && (cmd.parts[1] == "souls" || cmd.parts[1] == "journeys")
  }
}

module ClusterLoops {
  import opened ClusterEvents

  datatype EventLoop = Waiting | Swapping | Handling(batch: seq<Event>)

  datatype PassLoop = Selecting | Debouncing | Draining | Starting | Running

  /**
    appended: every event ever appended; handled: every event handled so far.
    senders: enqueue calls between their unlock and their channel send.
   */
  datatype State = State(
    appended: seq<Event>, events: seq<Event>, wake: bool, senders: nat, loop: EventLoop, handled: seq<Event>,
    trigger: bool, pass: PassLoop)

  const INITIAL := State([], [], false, 0, Waiting, [], false, Selecting)

  datatype Step =
    | Append(ev: Event) | PostWake                          // enqueue
    | ReceiveWake | Swap | HandleOne | EndBatch             // eventLoop
    | Trigger                                               // any caller
    | Tick | ReceiveTrigger | Debounced | Drain | StartPass | FinishPass  // reconcileLoop

  predicate EventLoopStep(step: Step)
  {
    step.ReceiveWake? || step.Swap? || step.HandleOne? || step.EndBatch?
  }

  predicate PassLoopStep(step: Step)
  {
    step.Tick? || step.ReceiveTrigger? || step.Debounced? || step.Drain? || step.StartPass? || step.FinishPass?
  }

  predicate Enabled(s: State, step: Step)
  {
    match step
    case Append(_) => true
    case PostWake => s.senders > 0
    case ReceiveWake => s.loop.Waiting? && s.wake
    case Swap => s.loop.Swapping?
    case HandleOne => s.loop.Handling? && s.loop.batch != []
    case EndBatch => s.loop == Handling([])
    case Trigger => true
    case Tick => s.pass.Selecting?
    case ReceiveTrigger => s.pass.Selecting? && s.trigger
    case Debounced => s.pass.Debouncing?
    case Drain => s.pass.Draining?
    case StartPass => s.pass.Starting?
    case FinishPass => s.pass.Running?
  }

  function Do(s: State, step: Step): State
    requires Enabled(s, step)
  {
    match step
    case Append(ev) => s.(appended := s.appended + [ev], events := s.events + [ev], senders := s.senders + 1)
    case PostWake => s.(senders := s.senders - 1, wake := true)
    case ReceiveWake => s.(wake := false, loop := Swapping)
    case Swap => s.(loop := Handling(s.events), events := [])
    case HandleOne =>
      var ev := s.loop.batch[0];
      s.(loop := Handling(s.loop.batch[1..]), handled := s.handled + [ev], trigger := s.trigger || Replans(ev))
    case EndBatch => s.(loop := Waiting)
    case Trigger => s.(trigger := true)
    case Tick => s.(pass := Starting)
    case ReceiveTrigger => s.(trigger := false, pass := Debouncing)
    case Debounced => s.(pass := Draining)
    case Drain => s.(trigger := false, pass := Starting)
    case StartPass => s.(pass := Running)
    case FinishPass => s.(pass := Selecting)
  }

  ghost predicate Run(states: seq<State>, steps: seq<Step>)
  {
    && |states| == |steps| + 1
    && states[0] == INITIAL
    && forall i :: 0 <= i < |steps| ==> Enabled(states[i], steps[i]) && states[i + 1] == Do(states[i], steps[i])
  }

  // ---------------------------------------------------------------------
  // Events: no lost wake-up, exactly once, in append order
  // ---------------------------------------------------------------------

  function Batch(s: State): seq<Event>
  {
    if s.loop.Handling? then s.loop.batch else []
  }

  predicate Inv(s: State)
  {
    && (s.events != [] ==> s.wake || s.senders > 0 || s.loop.Swapping?)
    && s.appended == s.handled + Batch(s) + s.events
  }

  lemma StepKeepsInv(s: State, step: Step)
    requires Inv(s) && Enabled(s, step)
    ensures Inv(Do(s, step))
  {
    match step
    case HandleOne => HandleKeepsOrder(s.handled, s.loop.batch, s.events);
    case Swap => assert s.appended == s.handled + s.events + [];
    case Append(ev) => assert s.appended + [ev] == s.handled + Batch(s) + (s.events + [ev]);
    case _ =>
  }

  /** Handling the head of the batch moves it over and leaves the order alone. */
  lemma HandleKeepsOrder(handled: seq<Event>, batch: seq<Event>, events: seq<Event>)
    requires batch != []
    ensures handled + batch + events == (handled + [batch[0]]) + batch[1..] + events
  {
    assert [batch[0]] + batch[1..] == batch;
  }

  /** In every interleaving: a queued event has a token, a pending sender or a loop about to swap. */
  lemma {:induction false} NoLostWakeup(states: seq<State>, steps: seq<Step>, k: nat)
    requires Run(states, steps) && k < |states|
    ensures var s := states[k]; s.events != [] ==> s.wake || s.senders > 0 || s.loop.Swapping?
    ensures Inv(states[k])
  {
    if k > 0 {
      NoLostWakeup(states, steps, k - 1);
      StepKeepsInv(states[k - 1], steps[k - 1]);
    }
  }

  /** Events are handled exactly once in append order, and a quiescent loop has handled them all. */
  lemma HandledInAppendOrder(states: seq<State>, steps: seq<Step>, k: nat)
    requires Run(states, steps) && k < |states|
    ensures states[k].handled <= states[k].appended
    ensures (forall step :: EventLoopStep(step) || step.PostWake? ==> !Enabled(states[k], step))
            ==> states[k].handled == states[k].appended
  {
    NoLostWakeup(states, steps, k);
    var s := states[k];
    if forall step :: EventLoopStep(step) || step.PostWake? ==> !Enabled(s, step) {
      assert !Enabled(s, PostWake) && !Enabled(s, ReceiveWake) && !Enabled(s, Swap);
      assert !Enabled(s, HandleOne) && !Enabled(s, EndBatch);
    }
  }

  /** How many more steps of eventLoop handle event number m. */
  function EventDistance(s: State, m: nat): nat
  {
    if m < |s.handled| then 0
    else match s.loop
      case Waiting => m - |s.handled| + 3
      case Swapping => m - |s.handled| + 2
      case Handling(batch) => if m < |s.handled| + |batch| then m - |s.handled| + 1 else m - |s.handled| + 4
  }

  /** No step of another goroutine sets the event back, and every step of the loop brings it closer. */
  lemma EventDistanceDecreases(s: State, step: Step, m: nat)
    requires Inv(s) && Enabled(s, step) && m < |s.appended|
    ensures EventDistance(Do(s, step), m) <= EventDistance(s, m)
    ensures EventLoopStep(step) && EventDistance(s, m) > 0 ==> EventDistance(Do(s, step), m) < EventDistance(s, m)
    ensures |s.appended| <= |Do(s, step).appended|
  {
  }

  function CountSteps(steps: seq<Step>, i: nat, k: nat, p: Step -> bool): nat
    requires i <= k <= |steps|
  {
    if i == k then 0 else CountSteps(steps, i, k - 1, p) + if p(steps[k - 1]) then 1 else 0
  }

  lemma {:induction false} EventDistanceOverRun(states: seq<State>, steps: seq<Step>, i: nat, k: nat, m: nat)
    requires Run(states, steps) && i <= k < |states| && m < |states[i].appended|
    ensures m < |states[k].appended|
    ensures EventDistance(states[k], m) > 0 ==>
      CountSteps(steps, i, k, EventLoopStep) + EventDistance(states[k], m) <= EventDistance(states[i], m)
  {
    if i < k {
      EventDistanceOverRun(states, steps, i, k - 1, m);
      NoLostWakeup(states, steps, k - 1);
      var s, step := states[k - 1], steps[k - 1];
      EventDistanceDecreases(s, step, m);
      assert states[k] == Do(s, step);
    }
  }

  /** Whatever else is scheduled, event m is handled after at most that many steps of eventLoop. */
  lemma EventHandledWithin(states: seq<State>, steps: seq<Step>, i: nat, k: nat, m: nat)
    requires Run(states, steps) && i <= k < |states| && m < |states[i].appended|
    requires CountSteps(steps, i, k, EventLoopStep) >= EventDistance(states[i], m)
    ensures m < |states[k].handled|
  {
    EventDistanceOverRun(states, steps, i, k, m);
  }

  // ---------------------------------------------------------------------
  // Passes: every completed Trigger is followed by a pass that starts later
  // ---------------------------------------------------------------------

  /** A pass that has not started yet is due. */
  predicate PassOwed(s: State)
  {
    s.trigger || s.pass.Debouncing? || s.pass.Draining? || s.pass.Starting?
  }

  /** How many more steps of reconcileLoop start the owed pass. */
  function PassDistance(s: State): nat
    requires PassOwed(s)
  {
    match s.pass
    case Starting => 1
    case Draining => 2
    case Debouncing => 3
    case Selecting => 4
    case Running => 5
  }

  /** An owed pass stays owed until it starts; each step of reconcileLoop brings it closer. */
  lemma OwedUntilStarted(s: State, step: Step)
    requires PassOwed(s) && Enabled(s, step) && !step.StartPass?
    ensures PassOwed(Do(s, step)) && PassDistance(Do(s, step)) <= PassDistance(s)
    ensures PassLoopStep(step) ==> PassDistance(Do(s, step)) < PassDistance(s)
  {
  }

  /** Some pass starts strictly after step i and before state k. */
  ghost predicate PassStartsBetween(steps: seq<Step>, i: nat, k: nat)
    requires k <= |steps|
  {
    exists j :: i <= j < k && steps[j].StartPass?
  }

  lemma {:induction false} OwedPassStarts(states: seq<State>, steps: seq<Step>, i: nat, k: nat)
    requires Run(states, steps) && i <= k < |states| && PassOwed(states[i])
    ensures PassStartsBetween(steps, i, k)
            || (PassOwed(states[k])
                && CountSteps(steps, i, k, PassLoopStep) + PassDistance(states[k]) <= PassDistance(states[i]))
  {
    if i < k {
      OwedPassStarts(states, steps, i, k - 1);
      if PassStartsBetween(steps, i, k - 1) {
        var j :| i <= j < k - 1 && steps[j].StartPass?;
        assert steps[j].StartPass?;
      } else if !steps[k - 1].StartPass? {
        OwedUntilStarted(states[k - 1], steps[k - 1]);
      }
    }
  }

  /** A Trigger that completed at step i is covered by a pass starting within five steps of the loop. */
  lemma TriggerIsFollowedByPass(states: seq<State>, steps: seq<Step>, i: nat, k: nat)
    requires Run(states, steps) && i < k < |states| && steps[i].Trigger?
    requires CountSteps(steps, i + 1, k, PassLoopStep) >= 5
    ensures PassStartsBetween(steps, i + 1, k)
  {
    OwedPassStarts(states, steps, i + 1, k);
  }

  /**
    End to end: once a soul or journey change (or a snapshot) has been appended,
    enough steps of both loops in any interleaving start a pass after it was handled.
   */
  lemma ChangeReachesPass(states: seq<State>, steps: seq<Step>, i: nat, mid: nat, k: nat, m: nat)
    requires Run(states, steps) && i <= mid <= k < |states|
    requires |states[i].handled| <= m < |states[i].appended| && Replans(states[i].appended[m])
    requires CountSteps(steps, i, mid, EventLoopStep) >= EventDistance(states[i], m)
    requires CountSteps(steps, mid, k, PassLoopStep) >= 5
    ensures exists h :: i <= h < mid && steps[h].HandleOne? && |states[h].handled| == m
                        && PassStartsBetween(steps, h + 1, k)
  {
    EventHandledWithin(states, steps, i, mid, m);
    var h := HandledAt(states, steps, i, mid, m);
    AppendedGrows(states, steps, i, h);
    PassFollowsHandling(states, steps, h, mid, k, m);
  }

  /** The same for any write to a soul or journey key <workspace>/<kind>/<id>, whoever proposed it. */
  lemma SoulOrJourneyWriteReachesPass(states: seq<State>, steps: seq<Step>, i: nat, mid: nat, k: nat, m: nat,
                                      workspace: string, kind: string, rest: seq<string>)
    requires Run(states, steps) && i <= mid <= k < |states|
    requires |states[i].handled| <= m < |states[i].appended| && states[i].appended[m].Applied?
    requires states[i].appended[m].cmd.table != "judgments" && rest != []
    requires states[i].appended[m].cmd.parts == [workspace, kind] + rest && kind in ["souls", "journeys"]
    requires CountSteps(steps, i, mid, EventLoopStep) >= EventDistance(states[i], m)
    requires CountSteps(steps, mid, k, PassLoopStep) >= 5
    ensures exists h :: i <= h < mid && steps[h].HandleOne? && |states[h].handled| == m
                        && PassStartsBetween(steps, h + 1, k)
  {
    var parts := states[i].appended[m].cmd.parts;
    assert |parts| >= 3 && parts[1] == kind;
    ChangeReachesPass(states, steps, i, mid, k, m);
  }

  /** Handling anything else asks for no pass. */
  lemma OnlyChangesReplan(s: State)
    requires Enabled(s, HandleOne) && !s.trigger && Do(s, HandleOne).trigger
    ensures match s.loop.batch[0]
            case Restore => true
            case Applied(cmd) =>
              cmd.table != "judgments" && |cmd.parts| >= 3 && cmd.parts[1] in ["souls", "journeys"]
  {
  }

  lemma PassFollowsHandling(states: seq<State>, steps: seq<Step>, h: nat, mid: nat, k: nat, m: nat)
    requires Run(states, steps) && h < mid <= k < |states| && steps[h].HandleOne?
    requires |states[h].handled| == m < |states[h].appended| && Replans(states[h].appended[m])
    requires CountSteps(steps, mid, k, PassLoopStep) >= 5
    ensures PassStartsBetween(steps, h + 1, k)
  {
    NoLostWakeup(states, steps, h);
    assert PassOwed(states[h + 1]);
    CountSplit(steps, h + 1, mid, k);
    OwedPassStarts(states, steps, h + 1, k);
  }

  lemma {:induction false} HandledAt(states: seq<State>, steps: seq<Step>, i: nat, k: nat, m: nat) returns (h: nat)
    requires Run(states, steps) && i <= k < |states|
    requires |states[i].handled| <= m < |states[k].handled|
    ensures i <= h < k && steps[h].HandleOne? && |states[h].handled| == m
  {
    if |states[k - 1].handled| <= m {
      h := k - 1;
    } else {
      h := HandledAt(states, steps, i, k - 1, m);
    }
  }

  lemma {:induction false} AppendedGrows(states: seq<State>, steps: seq<Step>, i: nat, k: nat)
    requires Run(states, steps) && i <= k < |states|
    ensures states[i].appended <= states[k].appended
  {
    if i < k {
      AppendedGrows(states, steps, i, k - 1);
    }
  }

  lemma {:induction false} CountSplit(steps: seq<Step>, i: nat, mid: nat, k: nat)
    requires i <= mid <= k <= |steps|
    ensures CountSteps(steps, i, k, PassLoopStep)
         == CountSteps(steps, i, mid, PassLoopStep) + CountSteps(steps, mid, k, PassLoopStep)
  {
    if mid < k {
      CountSplit(steps, i, mid, k - 1);
    }
  }
}
