/**
  Windowed failure-rate conditions over the in-memory sample buffer
  (internal/alert/failure_rate.go, with the condition trees of manager.go).

  The buffer keeps, per soul, only the samples inside the widest window any
  enabled rule asks for, pruned in place on every judgment; with a store that
  keeps judgments the window is read from there instead. Quotients are rounded by
  an arbitrary function, so nothing depends on how floating point rounds.
 */
module FailureRate {
  import opened Options

  const DEFAULT_WINDOW := 300_000_000_000 // five minutes

  datatype Sample = Sample(at: int, status: string, id: string)

  datatype Judgment = Judgment(at: int, status: string, id: string, packetLoss: Option<real>)

  datatype Condition = Condition(kind: string, threshold: int, metric: string, operator: string, value: real,
                                 window: int, logic: string, sub: seq<Condition>)

  datatype Rule = Rule(enabled: bool, conditions: seq<Condition>)

  // ---------------------------------------------------------------------
  // Windows
  // ---------------------------------------------------------------------

  function RateWindow(c: Condition): (w: int)
    ensures w > 0
  {
    if c.window > 0 then c.window else DEFAULT_WINDOW
  }

  predicate IsRate(c: Condition)
  {
    c.kind == "failure_rate" || c.kind == "percentage"
  }

  function Max(a: int, b: int): int
  {
    if a < b then b else a
  }

  function MaxRateWindow(conditions: seq<Condition>): (w: int)
    ensures w >= 0
    decreases conditions
  {
    if conditions == [] then 0
    else
      var last := conditions[|conditions| - 1];
      Max(MaxRateWindow(conditions[..|conditions| - 1]),
          Max(if IsRate(last) then RateWindow(last) else 0, MaxRateWindow(last.sub)))
  }

  /** Retention of the buffer: the widest window of the enabled rules. */
  function Retention(rules: seq<Rule>): (w: int)
    ensures w >= 0
    ensures forall i :: 0 <= i < |rules| && rules[i].enabled ==> MaxRateWindow(rules[i].conditions) <= w
  {
    if rules == [] then 0
    else
      var last := rules[|rules| - 1];
      Max(Retention(rules[..|rules| - 1]), if last.enabled then MaxRateWindow(last.conditions) else 0)
  }

  method ComputeRetention(rules: seq<Rule>) returns (window: int)
    ensures window == Retention(rules)
  {
    window := 0;
    for i := 0 to |rules|
      invariant window == Retention(rules[..i])
    {
      assert rules[..i + 1][..i] == rules[..i];
      if rules[i].enabled {
        var w := MaxRateWindow(rules[i].conditions);
        if w > window {
          window := w;
        }
      }
    }
    assert rules[..|rules|] == rules;
  }

  /** c occurs in the trees, at any depth. */
  ghost predicate Occurs(c: Condition, conditions: seq<Condition>)
    decreases conditions
  {
    exists i :: 0 <= i < |conditions| && (conditions[i] == c || Occurs(c, conditions[i].sub))
  }

  lemma {:induction false} MemberWindow(conditions: seq<Condition>, i: nat)
    requires i < |conditions|
    ensures IsRate(conditions[i]) ==> RateWindow(conditions[i]) <= MaxRateWindow(conditions)
    ensures MaxRateWindow(conditions[i].sub) <= MaxRateWindow(conditions)
  {
    if i < |conditions| - 1 {
      MemberWindow(conditions[..|conditions| - 1], i);
    }
  }

  lemma {:induction false} OccurrenceWindow(c: Condition, conditions: seq<Condition>)
    requires Occurs(c, conditions) && IsRate(c)
    ensures RateWindow(c) <= MaxRateWindow(conditions)
    decreases conditions
  {
    var i :| 0 <= i < |conditions| && (conditions[i] == c || Occurs(c, conditions[i].sub));
    MemberWindow(conditions, i);
    if conditions[i] != c {
      OccurrenceWindow(c, conditions[i].sub);
    }
  }

  // ---------------------------------------------------------------------
  // The buffer
  // ---------------------------------------------------------------------

  function Keep(samples: seq<Sample>, cutoff: int): seq<Sample>
  {
    if samples == [] then []
    else Keep(samples[..|samples| - 1], cutoff)
         + if samples[|samples| - 1].at >= cutoff then [samples[|samples| - 1]] else []
  }

  predicate Has(samples: seq<Sample>, id: string)
  {
    exists i :: 0 <= i < |samples| && samples[i].id == id
  }

  function Noted(samples: seq<Sample>, j: Judgment, retention: int): seq<Sample>
  {
    var kept := Keep(samples, j.at - retention);
    if j.id != "" && Has(kept, j.id) then kept else kept + [Sample(j.at, j.status, j.id)]
  }

  /** The in-place filter: survivors move to the front of the same array. */
  method PruneInPlace(buffer: array<Sample>, cutoff: int) returns (n: nat)
    modifies buffer
    ensures n <= buffer.Length
    ensures buffer[..n] == Keep(old(buffer[..]), cutoff)
  {
    n := 0;
    for i := 0 to buffer.Length
      invariant n <= i
      invariant buffer[..n] == Keep(old(buffer[..])[..i], cutoff)
      invariant forall k :: i <= k < buffer.Length ==> buffer[k] == old(buffer[k])
    {
      assert old(buffer[..])[..i + 1][..i] == old(buffer[..])[..i];
      if buffer[i].at >= cutoff {
        buffer[n] := buffer[i];
        n := n + 1;
      }
    }
    assert old(buffer[..])[..buffer.Length] == old(buffer[..]);
  }

  /** The slice that is left of a buffer after the filter. */
  method Prune(samples: seq<Sample>, cutoff: int) returns (kept: seq<Sample>)
    ensures kept == Keep(samples, cutoff)
  {
    var buffer := new Sample[|samples|](i requires 0 <= i < |samples| => samples[i]);
    assert buffer[..] == samples;
    var n := PruneInPlace(buffer, cutoff);
    kept := buffer[..n];
  }

  /** The scan for a sample with the ID. */
  method Contains(samples: seq<Sample>, id: string) returns (found: bool)
    ensures found == Has(samples, id)
  {
    for i := 0 to |samples|
      invariant forall k :: 0 <= k < i ==> samples[k].id != id
    {
      if samples[i].id == id {
        return true;
      }
    }
    return false;
  }

  class RateBuffer {
    var rateSamples: map<string, seq<Sample>>

    constructor ()
      ensures rateSamples == map[]
    {
      rateSamples := map[];
    }

    function SamplesOf(key: string): seq<Sample>
      reads this
    {
      if key in rateSamples then rateSamples[key] else []
    }

    method NoteRateJudgment(key: string, j: Judgment, rules: seq<Rule>)
      modifies this
      ensures rateSamples == if Retention(rules) == 0 then old(rateSamples) - {key}
                             else old(rateSamples)[key := Noted(old(SamplesOf(key)), j, Retention(rules))]
    {
      var window := ComputeRetention(rules);
      if window == 0 {
        rateSamples := rateSamples - {key};
        return;
      }
      var samples := if key in rateSamples then rateSamples[key] else [];
      var kept := Prune(samples, j.at - window);
      var known := Contains(kept, j.id);
      if !(j.id != "" && known) {
        kept := kept + [Sample(j.at, j.status, j.id)];
      }
      rateSamples := rateSamples[key := kept];
    }
  }

  // ---------------------------------------------------------------------
  // Verdicts
  // ---------------------------------------------------------------------

  /** One more sample against the window [start, end]: checks, and failed checks. */
  function Count(t: (nat, nat), s: Sample, start: int, end: int): (nat, nat)
  {
    if s.at < start || s.at > end then t
    else if s.status == "alive" || s.status == "degraded" then (t.0 + 1, t.1)
    else if s.status == "dead" then (t.0 + 1, t.1 + 1)
    else t
  }

  function Tally(samples: seq<Sample>, start: int, end: int): (nat, nat)
  {
    if samples == [] then (0, 0)
    else Count(Tally(samples[..|samples| - 1], start, end), samples[|samples| - 1], start, end)
  }

  /** A completed check of the closed window. */
  predicate IsCheck(s: Sample, start: int, end: int)
  {
    start <= s.at <= end && s.status in {"alive", "degraded", "dead"}
  }

  predicate IsFailure(s: Sample, start: int, end: int)
  {
    start <= s.at <= end && s.status == "dead"
  }

  function CheckIndices(samples: seq<Sample>, start: int, end: int): set<int>
  {
    set i | 0 <= i < |samples| && IsCheck(samples[i], start, end)
  }

  function FailureIndices(samples: seq<Sample>, start: int, end: int): set<int>
  {
    set i | 0 <= i < |samples| && IsFailure(samples[i], start, end)
  }

  /** A tally is the number of completed checks of the window, and of the dead ones among them. */
  lemma {:induction false} TallyCounts(samples: seq<Sample>, start: int, end: int)
    ensures Tally(samples, start, end) == (|CheckIndices(samples, start, end)|, |FailureIndices(samples, start, end)|)
  {
    if samples == [] {
      assert CheckIndices(samples, start, end) == {} && FailureIndices(samples, start, end) == {};
    } else {
      var rest, last := samples[..|samples| - 1], samples[|samples| - 1];
      assert samples == rest + [last];
      TallyCounts(rest, start, end);
      CheckStep(rest, last, start, end);
      FailureStep(rest, last, start, end);
    }
  }

  lemma CheckStep(rest: seq<Sample>, last: Sample, start: int, end: int)
    ensures |CheckIndices(rest + [last], start, end)|
         == |CheckIndices(rest, start, end)| + if IsCheck(last, start, end) then 1 else 0
  {
    var all := rest + [last];
    assert forall i :: 0 <= i < |rest| ==> all[i] == rest[i];
    assert CheckIndices(all, start, end)
        == CheckIndices(rest, start, end) + if IsCheck(last, start, end) then {|rest|} else {};
  }

  lemma FailureStep(rest: seq<Sample>, last: Sample, start: int, end: int)
    ensures |FailureIndices(rest + [last], start, end)|
         == |FailureIndices(rest, start, end)| + if IsFailure(last, start, end) then 1 else 0
  {
    var all := rest + [last];
    assert forall i :: 0 <= i < |rest| ==> all[i] == rest[i];
    assert FailureIndices(all, start, end)
        == FailureIndices(rest, start, end) + if IsFailure(last, start, end) then {|rest|} else {};
  }

  method CountWindow(samples: seq<Sample>, start: int, end: int) returns (total: nat, failed: nat)
    ensures total == |CheckIndices(samples, start, end)| && failed == |FailureIndices(samples, start, end)|
    ensures (total, failed) == Tally(samples, start, end)
  {
    total, failed := 0, 0;
    for i := 0 to |samples|
      invariant (total, failed) == Tally(samples[..i], start, end)
    {
      assert samples[..i + 1][..i] == samples[..i];
      var sample := samples[i];
      if sample.at < start || sample.at > end {
        continue;
      }
      if sample.status == "alive" || sample.status == "degraded" {
        total := total + 1;
      } else if sample.status == "dead" {
        total, failed := total + 1, failed + 1;
      }
    }
    assert samples[..|samples|] == samples;
    TallyCounts(samples, start, end);
  }

  function WindowSamples(samples: seq<Sample>, j: Judgment): seq<Sample>
  {
    if samples == [] then [Sample(j.at, j.status, "")] else samples
  }

  function WindowTally(c: Condition, samples: seq<Sample>, j: Judgment): (nat, nat)
  {
    Tally(WindowSamples(samples, j), j.at - RateWindow(c), j.at)
  }

  /** How the machine rounds the result of a floating-point operation; any function. */
  type Rounding = real -> real

  predicate FailureRateCondition(round: Rounding, c: Condition, samples: seq<Sample>, j: Judgment)
  {
    var (total, failed) := WindowTally(c, samples, j);
    total != 0 && failed != 0
    && (c.threshold == 0 || round(failed as real * 100.0 / total as real) >= c.threshold as real)
  }

  predicate Compare(actual: real, operator: string, expected: real)
  {
    if operator in {"<", "lt", "less_than"} then actual < expected
    else if operator in {">=", "ge", "greater_equals"} then actual >= expected
    else if operator in {"<=", "le", "less_equals"} then actual <= expected
    else if operator in {"==", "eq", "equals"} then actual == expected
    else if operator in {"!=", "ne", "not_equals"} then actual != expected
    else actual > expected
  }

  function Percent(round: Rounding, uptime: bool, total: nat, failed: nat): real
    requires total > 0
  {
    var failurePct := round(failed as real * 100.0 / total as real);
    if uptime then round(100.0 - failurePct) else failurePct
  }

  predicate PercentageCondition(round: Rounding, c: Condition, samples: seq<Sample>, j: Judgment)
  {
    var threshold := if c.value == 0.0 then c.threshold as real else c.value;
    if c.metric in {"", "failure_rate", "uptime_percent"} then
      var (total, failed) := WindowTally(c, samples, j);
      total != 0
      && Compare(Percent(round, c.metric == "uptime_percent", total, failed), c.operator, threshold)
    else if c.metric == "packet_loss_percent" then
      j.packetLoss.Some? && Compare(j.packetLoss.value, c.operator, threshold)
    else false
  }

  /** The condition kinds that do not read the buffer, decided for one judgment. */
  type Oracle = Condition -> bool

  predicate Evaluate(round: Rounding, c: Condition, samples: seq<Sample>, j: Judgment, other: Oracle)
    decreases c, 1
  {
    if c.kind == "compound" then CheckCompound(round, c, samples, j, other)
    else if c.kind == "failure_rate" then FailureRateCondition(round, c, samples, j)
    else if c.kind == "percentage" then PercentageCondition(round, c, samples, j)
    else other(c)
  }

  function Matched(round: Rounding, conditions: seq<Condition>, samples: seq<Sample>, j: Judgment, other: Oracle): nat
    decreases conditions
  {
    if conditions == [] then 0
    else Matched(round, conditions[..|conditions| - 1], samples, j, other)
         + if Evaluate(round, conditions[|conditions| - 1], samples, j, other) then 1 else 0
  }

  predicate CheckCompound(round: Rounding, c: Condition, samples: seq<Sample>, j: Judgment, other: Oracle)
    decreases c, 0
  {
    && c.sub != []
    && var matched := Matched(round, c.sub, samples, j, other);
       if c.logic == "or" then matched > 0
       else if c.logic == "majority" then matched > |c.sub| / 2
       else if c.logic == "at_least" then matched >= (if c.threshold <= 0 then 1 else c.threshold)
       else matched == |c.sub|
  }

  /** top decides the other kinds at the top level (which knows consecutive_failures), nested inside compounds. */
  predicate CheckConditions(round: Rounding, conditions: seq<Condition>, samples: seq<Sample>, j: Judgment,
                            top: Oracle, nested: Oracle)
  {
    exists i :: 0 <= i < |conditions| &&
      if IsRate(conditions[i]) || conditions[i].kind == "compound"
      then Evaluate(round, conditions[i], samples, j, nested)
      else top(conditions[i])
  }

  // ---------------------------------------------------------------------
  // What the verdicts mean
  // ---------------------------------------------------------------------

  const EXACT: Rounding := x => x

  /** Five minutes unless the condition names a window. */
  function WindowStart(c: Condition, j: Judgment): int
  {
    j.at - if c.window <= 0 then 5 * 60 * 1_000_000_000 else c.window
  }

  lemma Scaled(part: real, total: real, threshold: real)
    requires total > 0.0
    ensures part / total < threshold <==> part < threshold * total
    ensures part / total == threshold <==> part == threshold * total
  {
    var q := part / total;
    assert q * total == part;
    if q < threshold {
      assert (threshold - q) * total > 0.0;
    } else if q > threshold {
      assert (q - threshold) * total > 0.0;
    }
  }

  /** The operators, by every name they have; any other name is greater-than. */
  lemma OperatorNames(a: real, b: real, other: string)
    requires other !in {"<", "lt", "less_than", ">=", "ge", "greater_equals", "<=", "le", "less_equals",
                        "==", "eq", "equals", "!=", "ne", "not_equals"}
    ensures Compare(a, "<", b) == Compare(a, "lt", b) == Compare(a, "less_than", b) == (a < b)
    ensures Compare(a, ">", b) == Compare(a, "gt", b) == Compare(a, "greater_than", b) == (a > b)
    ensures Compare(a, ">=", b) == Compare(a, "ge", b) == Compare(a, "greater_equals", b) == (a >= b)
    ensures Compare(a, "<=", b) == Compare(a, "le", b) == Compare(a, "less_equals", b) == (a <= b)
    ensures Compare(a, "==", b) == Compare(a, "eq", b) == Compare(a, "equals", b) == (a == b)
    ensures Compare(a, "!=", b) == Compare(a, "ne", b) == Compare(a, "not_equals", b) == (a != b)
    ensures Compare(a, other, b) == (a > b)
  {
  }

  /** With exact quotients: some check of the window failed, and failures reach the threshold if one is set. */
  lemma FailureRateMeans(c: Condition, samples: seq<Sample>, j: Judgment)
    requires samples != []
    ensures var total, failed := |CheckIndices(samples, WindowStart(c, j), j.at)|,
                                 |FailureIndices(samples, WindowStart(c, j), j.at)|;
            FailureRateCondition(EXACT, c, samples, j)
            <==> failed > 0 && (c.threshold == 0 || 100 * failed >= c.threshold * total)
  {
    WindowCounts(c, samples, j);
    FailedIsChecked(samples, WindowStart(c, j), j.at);
    var (total, failed) := WindowTally(c, samples, j);
    if total > 0 {
      RateArithmetic(failed, total, c.threshold);
    }
  }

  lemma WindowCounts(c: Condition, samples: seq<Sample>, j: Judgment)
    requires samples != []
    ensures WindowTally(c, samples, j)
         == (|CheckIndices(samples, WindowStart(c, j), j.at)|, |FailureIndices(samples, WindowStart(c, j), j.at)|)
  {
    TallyCounts(samples, WindowStart(c, j), j.at);
  }

  lemma RateArithmetic(failed: nat, total: nat, threshold: int)
    requires total > 0
    ensures failed as real * 100.0 / total as real >= threshold as real <==> 100 * failed >= threshold * total
  {
    Scaled(failed as real * 100.0, total as real, threshold as real);
    ProductAsReal(threshold, total);
  }

  lemma ProductAsReal(a: int, b: nat)
    ensures a as real * b as real == (a * b) as real
    decreases b
  {
    if b > 0 {
      ProductAsReal(a, b - 1);
      assert a * b == a * (b - 1) + a;
      assert a as real * b as real == a as real * (b - 1) as real + a as real;
    }
  }

  lemma FailedIsChecked(samples: seq<Sample>, start: int, end: int)
    ensures |FailureIndices(samples, start, end)| <= |CheckIndices(samples, start, end)|
  {
    var failed, checks := FailureIndices(samples, start, end), CheckIndices(samples, start, end);
    assert checks == failed + (checks - failed);
  }

  /** What the percentage metrics compare, for a window with that many checks and failures. */
  predicate PercentVerdict(uptime: bool, operator: string, threshold: real, total: nat, failed: int)
  {
    total > 0 && Compare((100 * if uptime then total - failed else failed) as real, operator, threshold * total as real)
  }

  function PercentThreshold(c: Condition): real
  {
    if c.value == 0.0 then c.threshold as real else c.value
  }

  /** With exact quotients the failure percentage, or the uptime percentage, is compared with the threshold. */
  lemma PercentageMeans(c: Condition, samples: seq<Sample>, j: Judgment)
    requires samples != [] && (c.metric == "" || c.metric == "failure_rate" || c.metric == "uptime_percent")
    ensures PercentageCondition(EXACT, c, samples, j)
       <==> PercentVerdict(c.metric == "uptime_percent", c.operator, PercentThreshold(c),
                           |CheckIndices(samples, WindowStart(c, j), j.at)|,
                           |FailureIndices(samples, WindowStart(c, j), j.at)|)
  {
    WindowCounts(c, samples, j);
    var (total, failed) := WindowTally(c, samples, j);
    PercentageUnfolds(c, samples, j, total, failed);
    PercentIsVerdict(c.metric == "uptime_percent", c.operator, PercentThreshold(c), total, failed);
  }

  lemma PercentageUnfolds(c: Condition, samples: seq<Sample>, j: Judgment, total: nat, failed: nat)
    requires c.metric == "" || c.metric == "failure_rate" || c.metric == "uptime_percent"
    requires WindowTally(c, samples, j) == (total, failed)
    ensures PercentageCondition(EXACT, c, samples, j)
       <==> ExactVerdict(c.metric == "uptime_percent", c.operator, PercentThreshold(c), total, failed)
  {
  }

  predicate ExactVerdict(uptime: bool, operator: string, threshold: real, total: nat, failed: nat)
  {
    total > 0 && Compare(Percent(EXACT, uptime, total, failed), operator, threshold)
  }

  lemma PercentIsVerdict(uptime: bool, operator: string, threshold: real, total: nat, failed: nat)
    ensures ExactVerdict(uptime, operator, threshold, total, failed)
       <==> PercentVerdict(uptime, operator, threshold, total, failed)
  {
    if total > 0 {
      var part := 100 * if uptime then total - failed else failed;
      PercentOrder(uptime, threshold, total, failed);
      CompareSame(Percent(EXACT, uptime, total, failed), threshold, part as real, threshold * total as real, operator);
    }
  }

  /** A comparison depends only on how its sides are ordered. */
  lemma CompareSame(a: real, b: real, c: real, d: real, operator: string)
    requires (a < b <==> c < d) && (a == b <==> c == d)
    ensures Compare(a, operator, b) <==> Compare(c, operator, d)
  {
  }

  lemma PercentOrder(uptime: bool, threshold: real, total: nat, failed: nat)
    requires total > 0
    ensures var a := Percent(EXACT, uptime, total, failed);
            var c := (100 * if uptime then total - failed else failed) as real;
            && (a < threshold <==> c < threshold * total as real)
            && (a == threshold <==> c == threshold * total as real)
  {
    var t, f := total as real, failed as real;
    Complement(t, f);
    Scaled(f * 100.0, t, threshold);
    Scaled((t - f) * 100.0, t, threshold);
  }

  lemma Complement(t: real, f: real)
    requires t > 0.0
    ensures 100.0 - f * 100.0 / t == (t - f) * 100.0 / t
  {
    var q, p := f * 100.0 / t, (t - f) * 100.0 / t;
    assert q * t == f * 100.0 && p * t == (t - f) * 100.0;
    assert (100.0 - q) * t == 100.0 * t - q * t;
    Quotient(100.0 - q, p, t);
  }

  lemma Quotient(a: real, b: real, t: real)
    requires t > 0.0 && a * t == b * t
    ensures a == b
  {
    assert (a - b) * t == 0.0;
  }

  /** An empty buffer decides as one that holds the current judgment only. */
  lemma EmptyBufferMeans(round: Rounding, c: Condition, j: Judgment, id: string)
    ensures FailureRateCondition(round, c, [], j) == FailureRateCondition(round, c, [Sample(j.at, j.status, id)], j)
    ensures PercentageCondition(round, c, [], j) == PercentageCondition(round, c, [Sample(j.at, j.status, id)], j)
  {
    assert WindowTally(c, [], j) == WindowTally(c, [Sample(j.at, j.status, id)], j) by {
      var start, end := j.at - RateWindow(c), j.at;
      assert Tally([Sample(j.at, j.status, id)], start, end) == Tally([Sample(j.at, j.status, "")], start, end);
    }
  }

  /** Packet loss needs a measurement, and an unknown metric never fires. */
  lemma OtherMetrics(round: Rounding, c: Condition, samples: seq<Sample>, j: Judgment)
    requires c.metric !in {"", "failure_rate", "uptime_percent"}
    ensures PercentageCondition(round, c, samples, j)
       <==> c.metric == "packet_loss_percent" && j.packetLoss.Some?
            && Compare(j.packetLoss.value, c.operator, if c.value == 0.0 then c.threshold as real else c.value)
  {
  }

  ghost function MatchingIndices(round: Rounding, conditions: seq<Condition>, samples: seq<Sample>, j: Judgment,
                                 other: Oracle): set<int>
  {
    set i | 0 <= i < |conditions| && Evaluate(round, conditions[i], samples, j, other)
  }

  lemma {:induction false} MatchedCounts(round: Rounding, conditions: seq<Condition>, samples: seq<Sample>, j: Judgment,
                                         other: Oracle)
    ensures Matched(round, conditions, samples, j, other) == |MatchingIndices(round, conditions, samples, j, other)|
  {
    if conditions == [] {
      assert MatchingIndices(round, conditions, samples, j, other) == {};
    } else {
      var rest, last := conditions[..|conditions| - 1], conditions[|conditions| - 1];
      assert conditions == rest + [last];
      MatchedCounts(round, rest, samples, j, other);
      MatchStep(round, rest, last, samples, j, other);
    }
  }

  lemma MatchStep(round: Rounding, rest: seq<Condition>, last: Condition, samples: seq<Sample>, j: Judgment,
                  other: Oracle)
    ensures |MatchingIndices(round, rest + [last], samples, j, other)|
         == |MatchingIndices(round, rest, samples, j, other)|
            + if Evaluate(round, last, samples, j, other) then 1 else 0
  {
    var all := rest + [last];
    assert forall i :: 0 <= i < |rest| ==> all[i] == rest[i];
    assert MatchingIndices(round, all, samples, j, other)
        == MatchingIndices(round, rest, samples, j, other)
           + if Evaluate(round, last, samples, j, other) then {|rest|} else {};
  }

  /** All indices match exactly when every condition holds, and some does exactly when one holds. */
  lemma MatchingBounds(round: Rounding, conditions: seq<Condition>, samples: seq<Sample>, j: Judgment, other: Oracle)
    ensures |MatchingIndices(round, conditions, samples, j, other)| == |conditions|
       <==> forall i :: 0 <= i < |conditions| ==> Evaluate(round, conditions[i], samples, j, other)
    ensures |MatchingIndices(round, conditions, samples, j, other)| > 0
       <==> exists i :: 0 <= i < |conditions| && Evaluate(round, conditions[i], samples, j, other)
  {
    var m := MatchingIndices(round, conditions, samples, j, other);
    var all := Indices(|conditions|);
    assert all == m + (all - m);
    forall i | 0 <= i < |conditions|
      ensures i in m <==> Evaluate(round, conditions[i], samples, j, other)
    {
    }
    if |m| == |conditions| {
      assert all - m == {};
      forall i | 0 <= i < |conditions|
        ensures Evaluate(round, conditions[i], samples, j, other)
      {
        assert i in all && i !in all - m;
      }
    } else {
      assert m != all;
      var i :| i in all && i !in m;
      assert !Evaluate(round, conditions[i], samples, j, other);
    }
    if |m| > 0 {
      var i :| i in m;
      assert Evaluate(round, conditions[i], samples, j, other);
    }
  }

  function Indices(n: nat): (s: set<int>)
    ensures |s| == n && forall i :: i in s <==> 0 <= i < n
  {
    if n == 0 then {} else Indices(n - 1) + {n - 1}
  }

  /** A compound holds if any, all, more than half, or at least so many of its parts hold; an empty one never does. */
  lemma CompoundMeans(round: Rounding, c: Condition, samples: seq<Sample>, j: Judgment, other: Oracle)
    requires c.kind == "compound"
    ensures var n, m := |c.sub|, |MatchingIndices(round, c.sub, samples, j, other)|;
            var verdict := Evaluate(round, c, samples, j, other);
            && (n == 0 ==> !verdict)
            && (n > 0 && c.logic == "or" ==>
                  (verdict <==> exists i :: 0 <= i < n && Evaluate(round, c.sub[i], samples, j, other)))
            && (n > 0 && c.logic !in {"or", "majority", "at_least"} ==>
                  (verdict <==> forall i :: 0 <= i < n ==> Evaluate(round, c.sub[i], samples, j, other)))
            && (n > 0 && c.logic == "majority" ==> (verdict <==> 2 * m > n))
            && (n > 0 && c.logic == "at_least" ==> (verdict <==> m >= c.threshold && m >= 1))
  {
    MatchedCounts(round, c.sub, samples, j, other);
    MatchingBounds(round, c.sub, samples, j, other);
  }

  // ---------------------------------------------------------------------
  // The pruned buffer decides like the full history
  // ---------------------------------------------------------------------

  /** Both buffers answer every window up to the retention alike. */
  ghost predicate Agree(a: seq<Sample>, b: seq<Sample>, j: Judgment, retention: int)
  {
    a != [] && b != [] && forall start :: start >= j.at - retention ==> Tally(a, start, j.at) == Tally(b, start, j.at)
  }

  lemma RateVerdictsAgree(round: Rounding, c: Condition, a: seq<Sample>, b: seq<Sample>, j: Judgment, retention: int)
    requires Agree(a, b, j, retention) && RateWindow(c) <= retention
    ensures FailureRateCondition(round, c, a, j) == FailureRateCondition(round, c, b, j)
    ensures PercentageCondition(round, c, a, j) == PercentageCondition(round, c, b, j)
  {
    assert WindowTally(c, a, j) == WindowTally(c, b, j);
  }

  lemma {:induction false} EvaluateAgrees(round: Rounding, c: Condition, a: seq<Sample>, b: seq<Sample>, j: Judgment,
                                          other: Oracle, retention: int)
    requires retention > 0 ==> Agree(a, b, j, retention)
    requires IsRate(c) ==> RateWindow(c) <= retention
    requires MaxRateWindow(c.sub) <= retention
    ensures Evaluate(round, c, a, j, other) == Evaluate(round, c, b, j, other)
    decreases c, 1
  {
    if IsRate(c) {
      RateVerdictsAgree(round, c, a, b, j, retention);
    } else if c.kind == "compound" {
      MatchedAgrees(round, c.sub, a, b, j, other, retention);
    }
  }

  lemma {:induction false} MatchedAgrees(round: Rounding, conditions: seq<Condition>, a: seq<Sample>, b: seq<Sample>,
                                         j: Judgment, other: Oracle, retention: int)
    requires retention > 0 ==> Agree(a, b, j, retention)
    requires MaxRateWindow(conditions) <= retention
    ensures Matched(round, conditions, a, j, other) == Matched(round, conditions, b, j, other)
    decreases conditions
  {
    if conditions != [] {
      MatchedAgrees(round, conditions[..|conditions| - 1], a, b, j, other, retention);
      EvaluateAgrees(round, conditions[|conditions| - 1], a, b, j, other, retention);
    }
  }

  /** Every judgment noted in turn, on an empty buffer. */
  function BufferAfter(h: seq<Judgment>, retention: int): seq<Sample>
  {
    if h == [] then [] else Noted(BufferAfter(h[..|h| - 1], retention), h[|h| - 1], retention)
  }

  function FullHistory(h: seq<Judgment>): seq<Sample>
  {
    seq(|h|, i requires 0 <= i < |h| => Sample(h[i].at, h[i].status, h[i].id))
  }

  /** Non-decreasing timestamps; IDs are distinct where present. */
  predicate InOrder(h: seq<Judgment>)
  {
    && (forall i, j :: 0 <= i < j < |h| ==> h[i].at <= h[j].at)
    && (forall i, j :: 0 <= i < j < |h| && h[j].id != "" ==> h[i].id != h[j].id)
  }

  lemma {:induction false} KeepTwice(samples: seq<Sample>, early: int, late: int)
    requires early <= late
    ensures Keep(Keep(samples, early), late) == Keep(samples, late)
  {
    if samples != [] {
      var rest, last := samples[..|samples| - 1], samples[|samples| - 1];
      KeepTwice(rest, early, late);
      KeepLast(Keep(rest, early), last, late);
      assert last.at < early ==> Keep(samples, early) == Keep(rest, early);
      assert last.at < late ==> Keep(samples, late) == Keep(rest, late);
    }
  }

  lemma KeepLast(samples: seq<Sample>, last: Sample, cutoff: int)
    ensures Keep(samples + [last], cutoff) == Keep(samples, cutoff) + if last.at >= cutoff then [last] else []
  {
    assert (samples + [last])[..|samples|] == samples;
  }

  lemma {:induction false} KeepSelects(samples: seq<Sample>, cutoff: int, s: Sample)
    ensures s in Keep(samples, cutoff) <==> s in samples && s.at >= cutoff
  {
    if samples != [] {
      KeepSelects(samples[..|samples| - 1], cutoff, s);
      assert samples == samples[..|samples| - 1] + [samples[|samples| - 1]];
    }
  }

  lemma NewIdNotKept(rest: seq<Judgment>, last: Judgment, cutoff: int)
    requires InOrder(rest + [last]) && last.id != ""
    ensures !Has(Keep(FullHistory(rest), cutoff), last.id)
  {
    var full := FullHistory(rest);
    var kept := Keep(full, cutoff);
    forall i | 0 <= i < |kept|
      ensures kept[i].id != last.id
    {
      KeepSelects(full, cutoff, kept[i]);
      var k :| 0 <= k < |full| && full[k] == kept[i];
      assert (rest + [last])[k].id != (rest + [last])[|rest|].id;
    }
  }

  /** The history inside the retention of its latest judgment. */
  function Recent(h: seq<Judgment>, retention: int): seq<Sample>
  {
    if h == [] then [] else Keep(FullHistory(h), h[|h| - 1].at - retention)
  }

  lemma NotedKeepsRecent(rest: seq<Judgment>, last: Judgment, retention: int)
    requires InOrder(rest + [last]) && retention >= 0
    ensures Noted(Recent(rest, retention), last, retention) == Recent(rest + [last], retention)
  {
    var cutoff := last.at - retention;
    var kept := Keep(FullHistory(rest), cutoff);
    RecentKept(rest, last, retention);
    if last.id != "" {
      NewIdNotKept(rest, last, cutoff);
    }
    NotedAppends(Recent(rest, retention), last, retention, kept);
    RecentAppends(rest, last, retention, kept);
  }

  lemma NotedAppends(samples: seq<Sample>, j: Judgment, retention: int, kept: seq<Sample>)
    requires kept == Keep(samples, j.at - retention) && !(j.id != "" && Has(kept, j.id))
    ensures Noted(samples, j, retention) == kept + [Sample(j.at, j.status, j.id)]
  {
  }

  lemma RecentAppends(rest: seq<Judgment>, last: Judgment, retention: int, kept: seq<Sample>)
    requires kept == Keep(FullHistory(rest), last.at - retention) && retention >= 0
    ensures Recent(rest + [last], retention) == kept + [Sample(last.at, last.status, last.id)]
  {
    FullHistoryLast(rest, last, last.at - retention);
  }

  /** Pruning what was kept before gives what pruning the whole history gives. */
  lemma RecentKept(rest: seq<Judgment>, last: Judgment, retention: int)
    requires InOrder(rest + [last]) && retention >= 0
    ensures Keep(Recent(rest, retention), last.at - retention) == Keep(FullHistory(rest), last.at - retention)
  {
    if rest != [] {
      assert (rest + [last])[|rest| - 1].at <= (rest + [last])[|rest|].at;
      KeepTwice(FullHistory(rest), rest[|rest| - 1].at - retention, last.at - retention);
    }
  }

  lemma InOrderPrefix(h: seq<Judgment>, n: nat)
    requires InOrder(h) && n <= |h|
    ensures InOrder(h[..n])
  {
  }

  /** The buffer is exactly the part of the history inside the retention of the latest judgment. */
  lemma {:induction false} BufferIsRecentHistory(h: seq<Judgment>, retention: int)
    requires InOrder(h) && retention >= 0
    ensures BufferAfter(h, retention) == Recent(h, retention)
  {
    if h != [] {
      var rest, last := h[..|h| - 1], h[|h| - 1];
      assert h == rest + [last];
      InOrderPrefix(h, |h| - 1);
      BufferIsRecentHistory(rest, retention);
      NotedKeepsRecent(rest, last, retention);
    }
  }

  lemma FullHistoryLast(rest: seq<Judgment>, last: Judgment, cutoff: int)
    requires last.at >= cutoff
    ensures Keep(FullHistory(rest + [last]), cutoff)
         == Keep(FullHistory(rest), cutoff) + [Sample(last.at, last.status, last.id)]
  {
    var sample := Sample(last.at, last.status, last.id);
    assert FullHistory(rest + [last]) == FullHistory(rest) + [sample];
    KeepLast(FullHistory(rest), sample, cutoff);
  }

  lemma {:induction false} TallyIgnoresPruned(samples: seq<Sample>, cutoff: int, start: int, end: int)
    requires cutoff <= start
    ensures Tally(Keep(samples, cutoff), start, end) == Tally(samples, start, end)
  {
    if samples != [] {
      var rest, last := samples[..|samples| - 1], samples[|samples| - 1];
      TallyIgnoresPruned(rest, cutoff, start, end);
      if last.at >= cutoff {
        TallyLast(Keep(rest, cutoff), last, start, end);
      } else {
        assert Keep(samples, cutoff) == Keep(rest, cutoff);
      }
    }
  }

  lemma TallyLast(samples: seq<Sample>, last: Sample, start: int, end: int)
    ensures Tally(samples + [last], start, end) == Count(Tally(samples, start, end), last, start, end)
  {
    assert (samples + [last])[..|samples|] == samples;
  }

  lemma RecentAgrees(h: seq<Judgment>, retention: int)
    requires h != [] && retention >= 0
    ensures Agree(Recent(h, retention), FullHistory(h), h[|h| - 1], retention)
  {
    var full, last, cutoff := FullHistory(h), h[|h| - 1], h[|h| - 1].at - retention;
    var kept := Keep(full, cutoff);
    KeepSelects(full, cutoff, full[|h| - 1]);
    assert full[|h| - 1] in full && full[|h| - 1] in kept;
    forall start | start >= cutoff
      ensures Tally(kept, start, last.at) == Tally(full, start, last.at)
    {
      TallyIgnoresPruned(full, cutoff, start, last.at);
    }
  }

  lemma BufferAgrees(h: seq<Judgment>, retention: int)
    requires InOrder(h) && h != [] && retention >= 0
    ensures Agree(BufferAfter(h, retention), FullHistory(h), h[|h| - 1], retention)
  {
    BufferIsRecentHistory(h, retention);
    RecentAgrees(h, retention);
  }

  /** Every rate condition, at any depth of an enabled rule, decides as it would on the whole history. */
  lemma PrunedConditionVerdict(round: Rounding, rules: seq<Rule>, i: nat, h: seq<Judgment>, c: Condition)
    requires i < |rules| && rules[i].enabled && Occurs(c, rules[i].conditions) && IsRate(c)
    requires InOrder(h) && h != []
    ensures var j, pruned, full := h[|h| - 1], BufferAfter(h, Retention(rules)), FullHistory(h);
            && FailureRateCondition(round, c, pruned, j) == FailureRateCondition(round, c, full, j)
            && PercentageCondition(round, c, pruned, j) == PercentageCondition(round, c, full, j)
  {
    OccurrenceWindow(c, rules[i].conditions);
    BufferAgrees(h, Retention(rules));
    RateVerdictsAgree(round, c, BufferAfter(h, Retention(rules)), FullHistory(h), h[|h| - 1], Retention(rules));
  }

  /** So does the rule as a whole, whatever the other conditions say. buffer is [] once no rule needs one. */
  lemma PrunedRuleVerdict(round: Rounding, rules: seq<Rule>, i: nat, h: seq<Judgment>, buffer: seq<Sample>,
                          top: Oracle, nested: Oracle)
    requires i < |rules| && rules[i].enabled && InOrder(h) && h != []
    requires buffer == if Retention(rules) == 0 then [] else BufferAfter(h, Retention(rules))
    ensures CheckConditions(round, rules[i].conditions, buffer, h[|h| - 1], top, nested)
         == CheckConditions(round, rules[i].conditions, FullHistory(h), h[|h| - 1], top, nested)
  {
    var retention, j, conditions := Retention(rules), h[|h| - 1], rules[i].conditions;
    BufferAgrees(h, retention);
    forall k | 0 <= k < |conditions|
      ensures Evaluate(round, conditions[k], buffer, j, nested)
           == Evaluate(round, conditions[k], FullHistory(h), j, nested)
    {
      MemberWindow(conditions, k);
      EvaluateAgrees(round, conditions[k], buffer, FullHistory(h), j, nested, retention);
    }
  }

  // ---------------------------------------------------------------------
  // The window read from persisted judgments
  // ---------------------------------------------------------------------

  /** The stored judgment is taken for the current one; stamped: the current one carries its own time. */
  predicate Twin(x: Judgment, j: Judgment, stamped: bool)
  {
    (j.id != "" && x.id == j.id) || SameMoment(x, j, stamped)
  }

  predicate SameMoment(x: Judgment, j: Judgment, stamped: bool)
  {
    stamped && x.at == j.at && x.status == j.status
  }

  ghost predicate HasTwin(listing: seq<Judgment>, j: Judgment, stamped: bool)
  {
    exists x :: x in listing && Twin(x, j, stamped)
  }

  ghost function Persisted(listing: seq<Judgment>, j: Judgment, stamped: bool): seq<Sample>
  {
    FullHistory(listing) + if HasTwin(listing, j, stamped) then [] else [Sample(j.at, j.status, j.id)]
  }

  /** The listed judgments, and the current one when it does not seem to be stored yet. */
  method HistorySamples(listing: seq<Judgment>, j: Judgment, stamped: bool) returns (samples: seq<Sample>)
    ensures samples == Persisted(listing, j, stamped)
  {
    samples := [];
    var currentIncluded := false;
    for i := 0 to |listing|
      invariant samples == FullHistory(listing[..i])
      invariant currentIncluded <==> HasTwin(listing[..i], j, stamped)
    {
      var x := listing[i];
      assert listing[..i + 1] == listing[..i] + [x];
      if Twin(x, j, stamped) {
        currentIncluded := true;
      }
      samples := samples + [Sample(x.at, x.status, x.id)];
    }
    assert listing[..|listing|] == listing;
    if !currentIncluded {
      samples := samples + [Sample(j.at, j.status, j.id)];
    }
  }

  function InRange(h: seq<Judgment>, start: int, end: int): seq<Judgment>
  {
    if h == [] then []
    else InRange(h[..|h| - 1], start, end) + if start <= h[|h| - 1].at <= end then [h[|h| - 1]] else []
  }

  /** What storage promises: the judgments of the closed window, in any order. */
  ghost predicate ListsWindow(stored: seq<Judgment>, start: int, end: int, listing: seq<Judgment>)
  {
    multiset(listing) == multiset(InRange(stored, start, end))
  }

  function HistoryTally(h: seq<Judgment>, start: int, end: int): (nat, nat)
  {
    Tally(FullHistory(h), start, end)
  }

  lemma HistoryTallyLast(h: seq<Judgment>, j: Judgment, start: int, end: int)
    ensures HistoryTally(h + [j], start, end)
         == Count(HistoryTally(h, start, end), Sample(j.at, j.status, j.id), start, end)
  {
    assert FullHistory(h + [j]) == FullHistory(h) + [Sample(j.at, j.status, j.id)];
    TallyLast(FullHistory(h), Sample(j.at, j.status, j.id), start, end);
  }

  lemma {:induction false} RangeKeepsTally(h: seq<Judgment>, start: int, end: int)
    ensures HistoryTally(InRange(h, start, end), start, end) == HistoryTally(h, start, end)
  {
    if h != [] {
      var rest, last := h[..|h| - 1], h[|h| - 1];
      var kept := InRange(rest, start, end);
      RangeKeepsTally(rest, start, end);
      assert h == rest + [last];
      HistoryTallyLast(rest, last, start, end);
      HistoryTallyLast(kept, last, start, end);
      RangeStep(rest, last, start, end);
    }
  }

  lemma RangeStep(rest: seq<Judgment>, last: Judgment, start: int, end: int)
    ensures InRange(rest + [last], start, end)
         == if start <= last.at <= end then InRange(rest, start, end) + [last] else InRange(rest, start, end)
  {
    assert (rest + [last])[..|rest|] == rest;
  }

  lemma {:induction false} RangeMembers(h: seq<Judgment>, start: int, end: int, x: Judgment)
    ensures x in InRange(h, start, end) <==> x in h && start <= x.at <= end
  {
    if h != [] {
      RangeMembers(h[..|h| - 1], start, end, x);
      assert h == h[..|h| - 1] + [h[|h| - 1]];
    }
  }

  /** Counting one judgment first or last makes no difference. */
  lemma {:induction false} TallyMoves(a: seq<Judgment>, j: Judgment, b: seq<Judgment>, start: int, end: int)
    ensures HistoryTally(a + [j] + b, start, end) == HistoryTally(a + b + [j], start, end)
  {
    if b == [] {
      assert a + [j] + b == a + b + [j];
    } else {
      var rest, last := b[..|b| - 1], b[|b| - 1];
      TallyMoves(a, j, rest, start, end);
      assert a + [j] + b == (a + [j] + rest) + [last] && a + b == (a + rest) + [last];
      HistoryTallyLast(a + [j] + rest, last, start, end);
      HistoryTallyLast(a + rest, j, start, end);
      HistoryTallyLast(a + rest, last, start, end);
      HistoryTallyLast(a + b, j, start, end);
    }
  }

  lemma {:induction false} TallyOfPermutation(a: seq<Judgment>, b: seq<Judgment>, start: int, end: int)
    requires multiset(a) == multiset(b)
    ensures HistoryTally(a, start, end) == HistoryTally(b, start, end)
    decreases |a|
  {
    if a == [] {
      EmptyPermutation(b);
    } else {
      var rest, last := a[..|a| - 1], a[|a| - 1];
      assert a == rest + [last] && last in multiset(a);
      var i :| 0 <= i < |b| && b[i] == last;
      var p, q := b[..i], b[i + 1..];
      assert b == p + [last] + q;
      RemoveOne(rest, last, p, q);
      TallyOfPermutation(rest, p + q, start, end);
      TallyMoves(p, last, q, start, end);
      HistoryTallyLast(rest, last, start, end);
      HistoryTallyLast(p + q, last, start, end);
    }
  }

  lemma EmptyPermutation(b: seq<Judgment>)
    requires multiset(b) == multiset{}
    ensures b == []
  {
    assert |multiset(b)| == |b|;
  }

  lemma RemoveOne(rest: seq<Judgment>, last: Judgment, p: seq<Judgment>, q: seq<Judgment>)
    requires multiset(rest + [last]) == multiset(p + [last] + q)
    ensures multiset(rest) == multiset(p + q)
  {
    assert multiset(rest + [last]) == multiset(rest) + multiset{last};
    assert multiset(p + [last] + q) == multiset(p + q) + multiset{last};
    assert multiset(rest) == multiset(rest) + multiset{last} - multiset{last};
    assert multiset(p + q) == multiset(p + q) + multiset{last} - multiset{last};
  }

  lemma ListingTally(stored: seq<Judgment>, listing: seq<Judgment>, start: int, end: int)
    requires ListsWindow(stored, start, end, listing)
    ensures HistoryTally(listing, start, end) == HistoryTally(stored, start, end)
    ensures forall x :: x in listing <==> x in stored && start <= x.at <= end
  {
    TallyOfPermutation(listing, InRange(stored, start, end), start, end);
    RangeKeepsTally(stored, start, end);
    forall x
      ensures x in listing <==> x in stored && start <= x.at <= end
    {
      RangeMembers(stored, start, end, x);
      assert x in listing <==> x in multiset(listing);
      assert x in InRange(stored, start, end) <==> x in multiset(InRange(stored, start, end));
    }
  }

  predicate CountedStatus(status: string)
  {
    status == "alive" || status == "degraded" || status == "dead"
  }

  /** When the current judgment is stored already, the window counts what the whole history counts. */
  lemma PersistedTally(stored: seq<Judgment>, j: Judgment, stamped: bool, listing: seq<Judgment>, start: int)
    requires start <= j.at && ListsWindow(stored, start, j.at, listing) && j in stored && (j.id != "" || stamped)
    ensures Tally(Persisted(listing, j, stamped), start, j.at) == HistoryTally(stored, start, j.at)
  {
    ListingTally(stored, listing, start, j.at);
    assert j in listing && Twin(j, j, stamped);
    assert Persisted(listing, j, stamped) == FullHistory(listing);
  }

  /**
    When it is not, the window counts it exactly unless it is a counted check and
    some stored judgment has its time and status.
   */
  lemma PersistedTallyIff(stored: seq<Judgment>, j: Judgment, stamped: bool, listing: seq<Judgment>, start: int)
    requires start <= j.at && ListsWindow(stored, start, j.at, listing)
    requires forall x :: x in stored ==> j.id == "" || x.id != j.id
    ensures Tally(Persisted(listing, j, stamped), start, j.at) == HistoryTally(stored + [j], start, j.at)
       <==> !(CountedStatus(j.status) && exists x :: x in stored && SameMoment(x, j, stamped))
  {
    ListingTally(stored, listing, start, j.at);
    HistoryTallyLast(stored, j, start, j.at);
    TallyLast(FullHistory(listing), Sample(j.at, j.status, j.id), start, j.at);
    assert HasTwin(listing, j, stamped) <==> exists x :: x in stored && SameMoment(x, j, stamped) by {
      if x :| x in stored && SameMoment(x, j, stamped) {
        assert x in listing && Twin(x, j, stamped);
      }
    }
    if HasTwin(listing, j, stamped) {
      assert Persisted(listing, j, stamped) == FullHistory(listing);
    }
  }

  /** Two checks of one status at one moment: while the second is not stored yet, it is not counted. */
  lemma TwinHidesCurrent(x: Judgment, j: Judgment, start: int)
    requires SameMoment(x, j, true) && CountedStatus(j.status) && x.id != j.id && start <= j.at
    ensures Tally(Persisted([x], j, true), start, j.at) != HistoryTally([x, j], start, j.at)
  {
    assert [x][..0] == [] && InRange([x], start, j.at) == [x] && [x] + [j] == [x, j];
    assert x in [x];
    PersistedTallyIff([x], j, true, [x], start);
  }

  /** Equal counts give equal verdicts, so the conditions decide on the persisted window as on the whole history. */
  lemma PersistedVerdict(round: Rounding, c: Condition, history: seq<Judgment>, j: Judgment, stamped: bool,
                         listing: seq<Judgment>)
    requires var start := j.at - RateWindow(c);
             Tally(Persisted(listing, j, stamped), start, j.at) == HistoryTally(history, start, j.at)
    requires history != []
    ensures var samples := Persisted(listing, j, stamped);
            && FailureRateCondition(round, c, samples, j) == FailureRateCondition(round, c, FullHistory(history), j)
            && PercentageCondition(round, c, samples, j) == PercentageCondition(round, c, FullHistory(history), j)
  {
    var samples := Persisted(listing, j, stamped);
    if HasTwin(listing, j, stamped) {
      assert listing != [];
    }
    assert samples != [] && FullHistory(history) != [];
    assert WindowTally(c, samples, j) == WindowTally(c, FullHistory(history), j);
  }
}
