/**
  The hour-chunked judgment export (the fallback loop of streamJudgments in
  internal/api/reports.go). Storage is seen through the contract of its listing:
  newest first, complete inside the requested bounds, which are both exclusive.
  Time is an integer in nanoseconds.
 */
module Export {
  import opened Options

  const HOUR := 3_600_000_000_000

  datatype Judgment = Judgment(ts: int, id: string)

  /** The judgments with lo <= ts < hi, in their order. */
  function Within(s: seq<Judgment>, lo: int, hi: int): seq<Judgment>
  {
    if s == [] then []
    else Within(s[..|s| - 1], lo, hi) + if lo <= s[|s| - 1].ts < hi then [s[|s| - 1]] else []
  }

  function Reversed(s: seq<Judgment>): (r: seq<Judgment>)
    ensures |r| == |s| && forall i :: 0 <= i < |s| ==> r[i] == s[|s| - 1 - i]
  {
    seq(|s|, i requires 0 <= i < |s| => s[|s| - 1 - i])
  }

  /** Oldest first, ties by ID; every judgment once. */
  predicate Before(a: Judgment, b: Judgment)
  {
    a.ts < b.ts || (a.ts == b.ts && Less(a.id, b.id))
  }

  predicate Less(a: string, b: string)
  {
    b != "" && (a == "" || a[0] < b[0] || (a[0] == b[0] && Less(a[1..], b[1..])))
  }

  predicate Chronological(s: seq<Judgment>)
  {
    forall i, j :: 0 <= i < j < |s| ==> Before(s[i], s[j])
  }

  /**
    What storage promises: read backwards, a listing holds exactly the judgments
    of the history strictly between its bounds, and possibly some outside them.
   */
  ghost predicate Lists(history: seq<Judgment>, list: (int, int) -> seq<Judgment>)
  {
    forall start, end :: Within(Reversed(list(start, end)), start + 1, end) == Within(history, start + 1, end)
  }

  function Min(a: int, b: int): int
  {
    if a < b then a else b
  }

  function Cap(limit: int): nat
  {
    if limit < 0 then 0 else limit
  }

  // ---------------------------------------------------------------------
  // Windows compose
  // ---------------------------------------------------------------------

  lemma {:induction false} WithinSplits(s: seq<Judgment>, lo: int, mid: int, hi: int)
    requires lo <= mid <= hi && Chronological(s)
    ensures Within(s, lo, hi) == Within(s, lo, mid) + Within(s, mid, hi)
  {
    if s != [] {
      var rest, last := s[..|s| - 1], s[|s| - 1];
      WithinSplits(rest, lo, mid, hi);
      ChronologicalEnd(s);
      if last.ts < mid {
        NothingLate(rest, last.ts, mid, hi);
      }
    }
  }

  lemma ChronologicalEnd(s: seq<Judgment>)
    requires Chronological(s) && s != []
    ensures forall i :: 0 <= i < |s| - 1 ==> s[i].ts <= s[|s| - 1].ts
  {
    forall i | 0 <= i < |s| - 1
      ensures s[i].ts <= s[|s| - 1].ts
    {
      assert Before(s[i], s[|s| - 1]);
    }
  }

  lemma {:induction false} NothingLate(s: seq<Judgment>, latest: int, mid: int, hi: int)
    requires latest < mid && forall i :: 0 <= i < |s| ==> s[i].ts <= latest
    ensures Within(s, mid, hi) == []
  {
    if s != [] {
      NothingLate(s[..|s| - 1], latest, mid, hi);
    }
  }

  /** A window selects its judgments, keeps their order and repeats none. */
  lemma {:induction false} WithinIsChronological(s: seq<Judgment>, lo: int, hi: int)
    requires Chronological(s)
    ensures Chronological(Within(s, lo, hi))
    ensures forall j :: j in Within(s, lo, hi) <==> j in s && lo <= j.ts < hi
  {
    if s != [] {
      var rest, last := s[..|s| - 1], s[|s| - 1];
      WithinIsChronological(rest, lo, hi);
      assert s == rest + [last];
      assert forall j :: j in rest ==> Before(j, last);
      assert forall j :: j in Within(rest, lo, hi) ==> j in rest;
    }
  }

  // ---------------------------------------------------------------------
  // The export
  // ---------------------------------------------------------------------

  datatype Outcome = Complete | Truncated | Failed

  /** budget: how many calls of the callback succeed before it fails; None for one that never fails. */
  ghost predicate Exported(all: seq<Judgment>, limit: int, budget: Option<nat>, emitted: seq<Judgment>,
                           outcome: Outcome)
  {
    var wanted := Min(|all|, Cap(limit));
    if budget.Some? && budget.value < wanted then
      outcome == Failed && emitted == all[..budget.value]
    else
      emitted == all[..wanted] && outcome == if |all| > Cap(limit) then Truncated else Complete
  }

  /** One hour's judgments after what was emitted before; stops at the limit or when the callback fails. */
  method EmitChunk(judgments: seq<Judgment>, a: int, b: int, limit: int, budget: Option<nat>, before: seq<Judgment>)
    returns (emitted: seq<Judgment>, stopped: Option<Outcome>)
    requires |before| <= Cap(limit) && (budget.Some? ==> |before| <= budget.value)
    ensures var all := before + Within(Reversed(judgments), a, b);
            && emitted <= all && |emitted| <= Cap(limit) && (budget.Some? ==> |emitted| <= budget.value)
            && (stopped.None? ==> emitted == all)
            && (stopped.Some? ==> |emitted| < |all| && stopped.value != Complete)
            && (stopped == Some(Truncated) ==> |emitted| == Cap(limit))
            && (stopped == Some(Failed) ==> budget == Some(|emitted|) && |emitted| < Cap(limit))
  {
    emitted := before;
    ghost var ordered := Reversed(judgments);
    var i := |judgments| - 1;
    while i >= 0
      invariant -1 <= i < |judgments|
      invariant emitted == before + Within(ordered[..|judgments| - 1 - i], a, b)
      invariant |emitted| <= Cap(limit) && (budget.Some? ==> |emitted| <= budget.value)
    {
      var j := judgments[i];
      ghost var k := |judgments| - 1 - i;
      assert ordered[k] == j;
      WithinStep(ordered, k, a, b);
      i := i - 1;
      if j.ts < a || !(j.ts < b) {
        continue;
      }
      if |emitted| >= limit {
        return emitted, Some(Truncated);
      }
      if budget.Some? && |emitted| >= budget.value {
        return emitted, Some(Failed);
      }
      emitted := emitted + [j];
    }
    assert ordered[..|judgments|] == ordered;
    return emitted, None;
  }

  lemma WithinStep(s: seq<Judgment>, k: nat, lo: int, hi: int)
    requires k < |s|
    ensures Within(s[..k + 1], lo, hi) == Within(s[..k], lo, hi) + if lo <= s[k].ts < hi then [s[k]] else []
    ensures Within(s[..k + 1], lo, hi) <= Within(s, lo, hi)
  {
    assert s[..k + 1][..k] == s[..k];
    WithinPrefix(s, k + 1, lo, hi);
  }

  lemma {:induction false} WithinPrefix(s: seq<Judgment>, n: nat, lo: int, hi: int)
    requires n <= |s|
    ensures Within(s[..n], lo, hi) <= Within(s, lo, hi)
  {
    if n == |s| {
      assert s[..n] == s;
    } else {
      WithinPrefix(s[..|s| - 1], n, lo, hi);
      assert s[..|s| - 1][..n] == s[..n];
    }
  }

  /**
    Whatever hours the range spans: the judgments of [from, to), oldest first and
    each once, cut to the first limit, and truncated exactly when more remained.
   */
  method StreamJudgments(ghost history: seq<Judgment>, list: (int, int) -> seq<Judgment>, from: int, to: int,
                         limit: int, budget: Option<nat>) returns (emitted: seq<Judgment>, outcome: Outcome)
    requires Chronological(history) && Lists(history, list)
    ensures Exported(Within(history, from, to), limit, budget, emitted, outcome)
  {
    emitted := [];
    var a := from;
    WithinEmpty(history, from, from);
    while a < to
      invariant from <= a && (a <= to || a == from)
      invariant emitted == Within(history, from, a)
      invariant |emitted| <= Cap(limit) && (budget.Some? ==> |emitted| <= budget.value)
      decreases if a < to then to - a else 0
    {
      var b := a - a % HOUR + HOUR;
      if b > to {
        b := to;
      }
      var judgments := list(a - 1, b);
      var stopped;
      assert Within(Reversed(judgments), a, b) == Within(history, a, b);
      WithinSplits(history, from, a, b);
      emitted, stopped := EmitChunk(judgments, a, b, limit, budget, emitted);
      if stopped.Some? {
        WithinSplits(history, from, b, to);
        return emitted, stopped.value;
      }
      a := b;
    }
    if a > to {
      WithinEmpty(history, from, to);
    }
    return emitted, Complete;
  }

  lemma {:induction false} WithinEmpty(s: seq<Judgment>, lo: int, hi: int)
    requires hi <= lo
    ensures Within(s, lo, hi) == []
  {
    if s != [] {
      WithinEmpty(s[..|s| - 1], lo, hi);
    }
  }
}
