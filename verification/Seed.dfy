/**
  Failure streaks and status clocks (internal/alert/manager.go), and rebuilding
  them from stored judgments when a node takes a soul over
  (internal/alert/replication.go). The clock of noteStatus is a parameter; a
  replay passes each judgment's own timestamp. The zero time is 0.
 */
module Seed {
  import opened Options

  const DEAD := "dead"
  const STREAK_CAP := 1_000_000

  datatype Judgment = Judgment(ts: int, status: string)

  datatype Hold = Hold(status: string, since: int)

  datatype State = State(rules: set<string>, streaks: map<string, nat>, holds: map<string, Hold>)

  function StreakKey(ruleId: string, soulId: string): string
  {
    ruleId + ":" + soulId
  }

  /** For one soul, different rules have different keys. */
  lemma StreakKeyInjective(a: string, b: string, soulId: string)
    requires StreakKey(a, soulId) == StreakKey(b, soulId)
    ensures a == b
  {
    var x, y := StreakKey(a, soulId), StreakKey(b, soulId);
    assert |x| == |a| + 1 + |soulId| && |y| == |b| + 1 + |soulId|;
    assert x[..|a|] == a && y[..|b|] == b;
  }

  /** Whatever the rule IDs are, souls whose IDs hold no colon never share a key. */
  lemma StreakKeysOfSouls(r: string, soulId: string, q: string, other: string)
    requires ':' !in soulId && ':' !in other && StreakKey(r, soulId) == StreakKey(q, other)
    ensures r == q && soulId == other
  {
    var s := StreakKey(r, soulId);
    assert s == r + (":" + soulId) == q + (":" + other);
    assert s[|s| - |soulId| - 1] == ':' && s[|s| - |other| - 1] == ':';
    assert forall i :: 0 <= i < |soulId| ==> s[|s| - |soulId| + i] == soulId[i];
    assert forall i :: 0 <= i < |other| ==> s[|s| - |other| + i] == other[i];
    assert |soulId| == |other|;
    assert s[|r| + 1..] == soulId && s[|q| + 1..] == other && s[..|r|] == r && s[..|q|] == q;
  }

  function SoulKeys(rules: set<string>, soulId: string): set<string>
  {
    set r | r in rules :: StreakKey(r, soulId)
  }

  // ---------------------------------------------------------------------
  // One judgment at a time
  // ---------------------------------------------------------------------

  function Bump(n: nat, status: string): nat
  {
    if status != DEAD then 0 else if n < STREAK_CAP then n + 1 else n
  }

  function Counter(streaks: map<string, nat>, key: string): nat
  {
    if key in streaks then streaks[key] else 0
  }

  /** A counter of zero is stored as an absent key. */
  function PutCounter(streaks: map<string, nat>, key: string, n: nat): map<string, nat>
  {
    if n == 0 then streaks - {key} else streaks[key := n]
  }

  function Noted(hold: Option<Hold>, status: string, now: int): Hold
  {
    if hold.Some? && hold.value.status == status then hold.value else Hold(status, now)
  }

  function HoldOf(s: State, soulId: string): Option<Hold>
  {
    if soulId in s.holds then Some(s.holds[soulId]) else None
  }

  /** Every registered rule's counter of the soul, set to n. */
  function WithCounters(streaks: map<string, nat>, keys: set<string>, n: nat): map<string, nat>
  {
    if n == 0 then streaks - keys else streaks + map key | key in keys :: n
  }

  // ---------------------------------------------------------------------
  // A history, replayed
  // ---------------------------------------------------------------------

  function ReplayStreak(h: seq<Judgment>): nat
  {
    if h == [] then 0 else Bump(ReplayStreak(h[..|h| - 1]), h[|h| - 1].status)
  }

  function ReplayHold(h: seq<Judgment>): Option<Hold>
  {
    if h == [] then None else Some(Noted(ReplayHold(h[..|h| - 1]), h[|h| - 1].status, h[|h| - 1].ts))
  }

  /** Length of the run of equal statuses that ends the history. */
  function Trailing(h: seq<Judgment>): (n: nat)
    requires h != []
    ensures 1 <= n <= |h|
    ensures forall i :: |h| - n <= i < |h| ==> h[i].status == h[|h| - 1].status
    ensures n < |h| ==> h[|h| - n - 1].status != h[|h| - 1].status
  {
    if |h| == 1 || h[|h| - 2].status != h[|h| - 1].status then 1 else Trailing(h[..|h| - 1]) + 1
  }

  function Min(a: int, b: int): int
  {
    if a < b then a else b
  }

  /** The backward walk over the last run finds what the forward replay accumulates. */
  lemma {:induction false} ReplayIsTrailingRun(h: seq<Judgment>)
    requires h != []
    ensures ReplayStreak(h) == if h[|h| - 1].status == DEAD then Min(Trailing(h), STREAK_CAP) else 0
    ensures ReplayHold(h) == Some(Hold(h[|h| - 1].status, h[|h| - Trailing(h)].ts))
  {
    if |h| > 1 {
      ReplayIsTrailingRun(h[..|h| - 1]);
    }
  }

  /** A history that ends in exactly n dead judgments has streak n, up to a million. */
  lemma StreakCountsDead(h: seq<Judgment>, n: nat)
    requires n <= |h| && (forall i :: |h| - n <= i < |h| ==> h[i].status == "dead")
    requires n < |h| ==> h[|h| - n - 1].status != "dead"
    ensures ReplayStreak(h) == if n <= 1_000_000 then n else 1_000_000
  {
    if h != [] {
      ReplayIsTrailingRun(h);
      assert n > 0 ==> h[|h| - 1].status == "dead" && Trailing(h) == n;
    }
  }

  // ---------------------------------------------------------------------
  // Seeding as a function of the sorted history
  // ---------------------------------------------------------------------

  function Cleared(s: State, soulId: string): State
  {
    s.(streaks := s.streaks - SoulKeys(s.rules, soulId), holds := s.holds - {soulId})
  }

  function Seeded(s: State, soulId: string, ordered: seq<Judgment>, replace: bool): State
  {
    if soulId == "" then s
    else
      var base := if replace then Cleared(s, soulId) else s;
      if ordered == [] then base
      else
        var latest := ordered[|ordered| - 1];
        var since := ordered[|ordered| - Trailing(ordered)].ts;
        var streak: nat := if latest.status == DEAD then Min(Trailing(ordered), STREAK_CAP) else 0;
        base.(holds := if soulId in base.holds || since == 0 then base.holds
                       else base.holds[soulId := Hold(latest.status, since)],
              streaks := if streak == 0 then base.streaks
                         else (map key | key in SoulKeys(s.rules, soulId) :: streak) + base.streaks)
  }

  predicate Sorted(h: seq<Judgment>)
  {
    forall i, j :: 0 <= i < j < |h| ==> h[i].ts <= h[j].ts
  }

  predicate Present(judgments: seq<Option<Judgment>>, h: seq<Judgment>)
  {
    multiset(h) == multiset(NonNil(judgments))
  }

  function NonNil(judgments: seq<Option<Judgment>>): seq<Judgment>
  {
    if judgments == [] then []
    else NonNil(judgments[..|judgments| - 1])
         + if judgments[|judgments| - 1].Some? then [judgments[|judgments| - 1].value] else []
  }

  lemma InsertionKeepsOrder(ordered: seq<Judgment>, j: Judgment, k: nat)
    requires Sorted(ordered) && k <= |ordered|
    requires k > 0 ==> ordered[k - 1].ts <= j.ts
    requires forall n :: k <= n < |ordered| ==> ordered[n].ts > j.ts
    ensures Sorted(ordered[..k] + [j] + ordered[k..])
  {
    var next := ordered[..k] + [j] + ordered[k..];
    forall a, b | 0 <= a < b < |next|
      ensures next[a].ts <= next[b].ts
    {
      assert a < k ==> next[a] == ordered[a];
      assert b > k ==> next[b] == ordered[b - 1];
      assert a > k ==> next[a] == ordered[a - 1];
    }
  }

  lemma InsertionKeepsElements<T>(s: seq<T>, x: T, k: nat)
    requires k <= |s|
    ensures multiset(s[..k] + [x] + s[k..]) == multiset(s + [x])
  {
    assert s == s[..k] + s[k..];
  }

  method Insert(ordered: seq<Judgment>, j: Judgment) returns (next: seq<Judgment>)
    requires Sorted(ordered)
    ensures Sorted(next) && multiset(next) == multiset(ordered + [j])
  {
    var k := |ordered|;
    while k > 0 && ordered[k - 1].ts > j.ts
      invariant 0 <= k <= |ordered|
      invariant forall n :: k <= n < |ordered| ==> ordered[n].ts > j.ts
    {
      k := k - 1;
    }
    InsertionKeepsOrder(ordered, j, k);
    InsertionKeepsElements(ordered, j, k);
    next := ordered[..k] + [j] + ordered[k..];
  }

  /** sort.Slice by timestamp: some sorted permutation. */
  method SortByTime(judgments: seq<Judgment>) returns (ordered: seq<Judgment>)
    ensures Sorted(ordered) && multiset(ordered) == multiset(judgments)
  {
    ordered := [];
    for i := 0 to |judgments|
      invariant Sorted(ordered) && multiset(ordered) == multiset(judgments[..i])
    {
      ordered := Insert(ordered, judgments[i]);
      assert judgments[..i + 1] == judgments[..i] + [judgments[i]];
    }
    assert judgments[..|judgments|] == judgments;
  }

  method Collect(judgments: seq<Option<Judgment>>) returns (list: seq<Judgment>)
    ensures list == NonNil(judgments)
  {
    list := [];
    for n := 0 to |judgments|
      invariant list == NonNil(judgments[..n])
    {
      assert judgments[..n + 1][..n] == judgments[..n];
      if judgments[n].Some? {
        list := list + [judgments[n].value];
      }
    }
    assert judgments[..|judgments|] == judgments;
  }

  /** The walk back from the latest judgment while the status stays the same. */
  method WalkBack(ordered: seq<Judgment>) returns (streak: nat, since: int)
    requires ordered != []
    ensures since == ordered[|ordered| - Trailing(ordered)].ts
    ensures streak == if ordered[|ordered| - 1].status == DEAD then Min(Trailing(ordered), STREAK_CAP) else 0
  {
    var latest := ordered[|ordered| - 1];
    streak, since := 0, latest.ts;
    var i := |ordered| - 1;
    while i >= 0 && ordered[i].status == latest.status
      invariant -1 <= i < |ordered|
      invariant forall n :: i < n < |ordered| ==> ordered[n].status == latest.status
      invariant since == if i == |ordered| - 1 then latest.ts else ordered[i + 1].ts
      invariant streak == if latest.status == DEAD then |ordered| - 1 - i else 0
    {
      since := ordered[i].ts;
      if latest.status == DEAD {
        streak := streak + 1;
      }
      i := i - 1;
    }
    assert |ordered| - 1 - i == Trailing(ordered);
    if streak > STREAK_CAP {
      streak := STREAK_CAP;
    }
  }

  class Evaluation {
    var rules: set<string>
    var failureStreak: map<string, nat>
    var statusSince: map<string, Hold>

    constructor (rules: set<string>)
      ensures Contents() == State(rules, map[], map[])
    {
      this.rules := rules;
      failureStreak, statusSince := map[], map[];
    }

    function Contents(): State
      reads this
    {
      State(rules, failureStreak, statusSince)
    }

    method UpdateFailureStreak(ruleId: string, soulId: string, status: string)
      modifies this`failureStreak
      ensures var key := ruleId + ":" + soulId;
              var before := Counter(old(failureStreak), key);
              && Counter(failureStreak, key)
                 == (if status != "dead" then 0 else if before < 1_000_000 then before + 1 else before)
              && forall k :: k != key ==> SameCounter(old(failureStreak), failureStreak, k)
      ensures var key := StreakKey(ruleId, soulId);
              failureStreak == PutCounter(old(failureStreak), key, Bump(Counter(old(failureStreak), key), status))
    {
      var key := StreakKey(ruleId, soulId);
      if status == DEAD {
        var n := if key in failureStreak then failureStreak[key] else 0;
        if n < STREAK_CAP {
          failureStreak := failureStreak[key := n + 1];
        }
      } else {
        failureStreak := failureStreak - {key};
      }
    }

    method NoteStatus(soulId: string, status: string, now: int)
      modifies this`statusSince
      ensures statusSince == old(statusSince)[soulId := Noted(old(HoldOf(Contents(), soulId)), status, now)]
    {
      if soulId in statusSince && statusSince[soulId].status == status {
        assert statusSince == statusSince[soulId := statusSince[soulId]];
        return;
      }
      statusSince := statusSince[soulId := Hold(status, now)];
    }

    /** The per-rule part of ProcessJudgment; active: the rules that are enabled and apply to the soul. */
    method ObserveJudgment(active: set<string>, soulId: string, j: Judgment)
      requires active <= rules
      modifies this`failureStreak, this`statusSince
      ensures Contents() == Observed(old(Contents()), active, soulId, j)
    {
      var todo := active;
      ghost var before, held := failureStreak, statusSince;
      while todo != {}
        invariant todo <= active
        invariant statusSince == if todo == active then held else NotedHolds(held, soulId, j)
        invariant forall key :: key in SoulKeys(active - todo, soulId) ==>
          Stored(failureStreak, key, Bump(Counter(before, key), j.status))
        invariant forall key :: key !in SoulKeys(active - todo, soulId) ==> SameCounter(before, failureStreak, key)
      {
        var r :| r in todo;
        ghost var mid := failureStreak;
        UpdateFailureStreak(r, soulId, j.status);
        NoteStatus(soulId, j.status, j.ts);
        ghost var key := StreakKey(r, soulId);
        SoulKeysStep(active, todo, r, soulId);
        todo := todo - {r};
        assert forall k :: k != key ==> SameCounter(mid, failureStreak, k);
      }
      assert active - todo == active;
      assert failureStreak == CountersAfter(before, SoulKeys(active, soulId), j.status);
    }

    method SeedFromJudgments(soulId: string, judgments: seq<Option<Judgment>>, replace: bool)
      returns (ghost ordered: seq<Judgment>)
      modifies this`failureStreak, this`statusSince
      ensures Sorted(ordered) && Present(judgments, ordered)
      ensures Contents() == Seeded(old(Contents()), soulId, ordered, replace)
    {
      var list := Collect(judgments);
      var sorted := SortByTime(list);
      ordered := sorted;
      if soulId == "" { return; }
      if replace {
        statusSince := statusSince - {soulId};
        failureStreak := failureStreak - SoulKeys(rules, soulId);
      }
      if |sorted| == 0 { return; }
      var streak, since := WalkBack(sorted);
      if soulId !in statusSince && since != 0 {
        statusSince := statusSince[soulId := Hold(sorted[|sorted| - 1].status, since)];
      }
      if streak == 0 { return; }
      failureStreak := (map key | key in SoulKeys(rules, soulId) :: streak) + failureStreak;
    }
  }

  predicate Stored(streaks: map<string, nat>, key: string, n: nat)
  {
    if n == 0 then key !in streaks else key in streaks && streaks[key] == n
  }

  predicate SameCounter(a: map<string, nat>, b: map<string, nat>, key: string)
  {
    (key in a <==> key in b) && (key in a ==> a[key] == b[key])
  }

  lemma SoulKeysStep(rules: set<string>, todo: set<string>, r: string, soulId: string)
    requires r in todo && todo <= rules
    ensures SoulKeys(rules - (todo - {r}), soulId) == SoulKeys(rules - todo, soulId) + {StreakKey(r, soulId)}
    ensures StreakKey(r, soulId) !in SoulKeys(rules - todo, soulId)
  {
    assert rules - (todo - {r}) == (rules - todo) + {r};
    forall q | q in rules - todo
      ensures StreakKey(q, soulId) != StreakKey(r, soulId)
    {
      if StreakKey(q, soulId) == StreakKey(r, soulId) {
        StreakKeyInjective(q, r, soulId);
      }
    }
  }

  function CountersAfter(streaks: map<string, nat>, keys: set<string>, status: string): map<string, nat>
  {
    map key | key in streaks.Keys + keys && (key in keys ==> Bump(Counter(streaks, key), status) > 0) ::
      if key in keys then Bump(Counter(streaks, key), status) else streaks[key]
  }

  function NotedHolds(holds: map<string, Hold>, soulId: string, j: Judgment): map<string, Hold>
  {
    holds[soulId := Noted(if soulId in holds then Some(holds[soulId]) else None, j.status, j.ts)]
  }

  /** Without an active rule nothing at all is noted. */
  function Observed(s: State, active: set<string>, soulId: string, j: Judgment): State
  {
    s.(streaks := CountersAfter(s.streaks, SoulKeys(active, soulId), j.status),
       holds := if active == {} then s.holds else NotedHolds(s.holds, soulId, j))
  }

  function ObservedAll(s: State, active: set<string>, soulId: string, h: seq<Judgment>): State
  {
    if h == [] then s else Observed(ObservedAll(s, active, soulId, h[..|h| - 1]), active, soulId, h[|h| - 1])
  }

  lemma CountersStep(base: map<string, nat>, keys: set<string>, n: nat, status: string)
    requires base.Keys !! keys
    ensures CountersAfter(WithCounters(base, keys, n), keys, status) == WithCounters(base, keys, Bump(n, status))
  {
    var streaks := WithCounters(base, keys, n);
    assert forall key :: key in keys ==> Counter(streaks, key) == n;
    assert streaks.Keys + keys == base.Keys + keys;
    var a, b := CountersAfter(streaks, keys, status), WithCounters(base, keys, Bump(n, status));
    assert a.Keys == b.Keys;
    assert forall key :: key in a ==> a[key] == b[key];
  }

  lemma ObserveStep(c: State, mid: State, active: set<string>, soulId: string, n: nat, hold: Option<Hold>, j: Judgment)
    requires active != {} && c.streaks.Keys !! SoulKeys(active, soulId) && soulId !in c.holds
    requires mid == State(c.rules, WithCounters(c.streaks, SoulKeys(active, soulId), n),
                          WithHold(c.holds, soulId, hold))
    ensures Observed(mid, active, soulId, j)
         == State(c.rules, WithCounters(c.streaks, SoulKeys(active, soulId), Bump(n, j.status)),
                  WithHold(c.holds, soulId, Some(Noted(hold, j.status, j.ts))))
  {
    CountersStep(c.streaks, SoulKeys(active, soulId), n, j.status);
    assert HoldOf(mid, soulId) == hold;
    var noted := Noted(hold, j.status, j.ts);
    assert mid.holds[soulId := noted] == c.holds[soulId := noted];
  }

  /** Replaying a history on a state without the soul leaves the replay functions' values and nothing else. */
  lemma {:induction false} ReplayFromCleared(c: State, active: set<string>, soulId: string, h: seq<Judgment>)
    requires active != {} && c.streaks.Keys !! SoulKeys(active, soulId) && soulId !in c.holds
    ensures ObservedAll(c, active, soulId, h)
         == State(c.rules, WithCounters(c.streaks, SoulKeys(active, soulId), ReplayStreak(h)),
                  WithHold(c.holds, soulId, ReplayHold(h)))
  {
    if h == [] {
      assert c.streaks - SoulKeys(active, soulId) == c.streaks;
    } else {
      var shorter, last := h[..|h| - 1], h[|h| - 1];
      ReplayFromCleared(c, active, soulId, shorter);
      var mid := ObservedAll(c, active, soulId, shorter);
      ObserveStep(c, mid, active, soulId, ReplayStreak(shorter), ReplayHold(shorter), last);
    }
  }

  /** Without an active rule a replay leaves no trace. */
  lemma {:induction false} InactiveReplay(c: State, soulId: string, h: seq<Judgment>)
    ensures ObservedAll(c, {}, soulId, h) == c
  {
    if h != [] {
      InactiveReplay(c, soulId, h[..|h| - 1]);
      assert SoulKeys({}, soulId) == {};
      assert CountersAfter(c.streaks, {}, h[|h| - 1].status) == c.streaks;
    }
  }

  function WithHold(holds: map<string, Hold>, soulId: string, hold: Option<Hold>): map<string, Hold>
  {
    if hold.Some? then holds[soulId := hold.value] else holds
  }

  predicate DistinctNonZero(h: seq<Judgment>)
  {
    && (forall i :: 0 <= i < |h| ==> h[i].ts != 0)
    && (forall i, j :: 0 <= i < j < |h| ==> h[i].ts != h[j].ts)
  }

  lemma LatestIsMaximal(h: seq<Judgment>, x: Judgment)
    requires Sorted(h) && x in multiset(h)
    ensures h != [] && x.ts <= h[|h| - 1].ts
  {
    var i :| 0 <= i < |h| && h[i] == x;
  }

  lemma SameTimeSameJudgment(h: seq<Judgment>, x: Judgment, y: Judgment)
    requires DistinctNonZero(h) && x in h && y in h && x.ts == y.ts
    ensures x == y
  {
  }

  lemma DropLast<T>(s: seq<T>)
    requires s != []
    ensures multiset(s[..|s| - 1]) == multiset(s) - multiset{s[|s| - 1]}
  {
    assert s == s[..|s| - 1] + [s[|s| - 1]];
  }

  lemma {:induction false} SortedPermutationUnique(a: seq<Judgment>, b: seq<Judgment>)
    requires Sorted(a) && Sorted(b) && multiset(a) == multiset(b) && DistinctNonZero(a)
    ensures a == b
  {
    SameLength(a, b);
    if a != [] {
      var a', b' := a[..|a| - 1], b[..|b| - 1];
      SameLatest(a, b);
      SortedPrefix(a);
      SortedPrefix(b);
      assert multiset(a') == multiset(b') by {
        DropLast(a);
        DropLast(b);
      }
      SortedPermutationUnique(a', b');
      SameEnds(a, b);
    }
  }

  lemma SameLength<T>(a: seq<T>, b: seq<T>)
    requires multiset(a) == multiset(b)
    ensures |a| == |b|
  {
    assert |a| == |multiset(a)| == |multiset(b)| == |b|;
  }

  lemma SameEnds<T>(a: seq<T>, b: seq<T>)
    requires a != [] && b != [] && a[..|a| - 1] == b[..|b| - 1] && a[|a| - 1] == b[|b| - 1]
    ensures a == b
  {
    assert a == a[..|a| - 1] + [a[|a| - 1]] && b == b[..|b| - 1] + [b[|b| - 1]];
  }

  lemma SortedPrefix(h: seq<Judgment>)
    requires Sorted(h) && h != []
    ensures Sorted(h[..|h| - 1])
    ensures DistinctNonZero(h) ==> DistinctNonZero(h[..|h| - 1])
  {
  }

  lemma SameLatest(a: seq<Judgment>, b: seq<Judgment>)
    requires Sorted(a) && Sorted(b) && multiset(a) == multiset(b) && DistinctNonZero(a) && a != [] && b != []
    ensures a[|a| - 1] == b[|b| - 1]
  {
    var x, y := a[|a| - 1], b[|b| - 1];
    assert x in multiset(a) && y in multiset(b);
    assert x in multiset(b) && y in multiset(a);
    LatestIsMaximal(b, x);
    LatestIsMaximal(a, y);
    assert y in a;
    SameTimeSameJudgment(a, x, y);
  }

  /** On a cleared state the seed writes what the replay functions say. */
  lemma SeedWritesReplay(s: State, soulId: string, keys: set<string>, h: seq<Judgment>)
    requires soulId != "" && keys == SoulKeys(s.rules, soulId) && DistinctNonZero(h)
    ensures var c, r := Cleared(s, soulId), Seeded(s, soulId, h, true);
            && r.rules == s.rules
            && r.streaks == WithCounters(c.streaks, keys, ReplayStreak(h))
            && r.holds == WithHold(c.holds, soulId, ReplayHold(h))
  {
    var c := Cleared(s, soulId);
    assert c.streaks - keys == c.streaks;
    if h != [] {
      ReplayIsTrailingRun(h);
      var n := ReplayStreak(h);
      var added := map key | key in keys :: n;
      assert added + c.streaks == c.streaks + added;
    }
  }

  /** The state a replay leaves, with or without active rules. */
  lemma ReplayState(c: State, active: set<string>, soulId: string, h: seq<Judgment>)
    requires c.streaks.Keys !! SoulKeys(active, soulId) && soulId !in c.holds
    ensures ObservedAll(c, active, soulId, h)
         == State(c.rules, WithCounters(c.streaks, SoulKeys(active, soulId), ReplayStreak(h)),
                  if active == {} then c.holds else WithHold(c.holds, soulId, ReplayHold(h)))
  {
    if active == {} {
      InactiveReplay(c, soulId, h);
      assert SoulKeys({}, soulId) == {};
      assert WithCounters(c.streaks, {}, ReplayStreak(h)) == c.streaks;
    } else {
      ReplayFromCleared(c, active, soulId, h);
    }
  }

  /**
    Taking a soul over with any permutation of its history, nil entries included,
    writes the streak and the status clock that replaying the history in time
    order gives, for every registered rule.
   */
  lemma SeedEqualsReplay(s: State, active: set<string>, soulId: string, judgments: seq<Option<Judgment>>,
                         ordered: seq<Judgment>, history: seq<Judgment>, r: string)
    requires soulId != "" && active <= s.rules && r in s.rules
    requires Sorted(history) && DistinctNonZero(history) && Present(judgments, history)
    requires Sorted(ordered) && Present(judgments, ordered)
    ensures var seeded := Seeded(s, soulId, ordered, true);
            var replayed := ObservedAll(Cleared(s, soulId), active, soulId, history);
            var key := StreakKey(r, soulId);
            && Counter(seeded.streaks, key) == ReplayStreak(history) && HoldOf(seeded, soulId) == ReplayHold(history)
            && (r in active ==> Counter(replayed.streaks, key) == Counter(seeded.streaks, key)
                                && HoldOf(replayed, soulId) == HoldOf(seeded, soulId))
  {
    SortedPermutationUnique(history, ordered);
    SeedWritesReplay(s, soulId, SoulKeys(s.rules, soulId), history);
    ReplayState(Cleared(s, soulId), active, soulId, history);
    assert StreakKey(r, soulId) in SoulKeys(s.rules, soulId);
    assert r in active ==> StreakKey(r, soulId) in SoulKeys(active, soulId);
  }

  /**
    The whole state is that of the replay exactly when every rule that gets a
    streak is active, and some rule is active unless there is no history.
   */
  lemma SeedEqualsReplayIff(s: State, active: set<string>, soulId: string, judgments: seq<Option<Judgment>>,
                            ordered: seq<Judgment>, history: seq<Judgment>)
    requires soulId != "" && active <= s.rules
    requires Sorted(history) && DistinctNonZero(history) && Present(judgments, history)
    requires Sorted(ordered) && Present(judgments, ordered)
    ensures Seeded(s, soulId, ordered, true) == ObservedAll(Cleared(s, soulId), active, soulId, history)
       <==> (ReplayStreak(history) == 0 || active == s.rules) && (history == [] || active != {})
  {
    SortedPermutationUnique(history, ordered);
    SeedWritesReplay(s, soulId, SoulKeys(s.rules, soulId), history);
    var c := Cleared(s, soulId);
    ReplayState(c, active, soulId, history);
    CountersDiffer(c.streaks, s.rules, active, soulId, ReplayStreak(history));
    HoldsDiffer(c.holds, soulId, history);
  }

  lemma HoldsDiffer(holds: map<string, Hold>, soulId: string, history: seq<Judgment>)
    requires soulId !in holds
    ensures WithHold(holds, soulId, ReplayHold(history)) == holds <==> history == []
  {
    assert history != [] ==> soulId in WithHold(holds, soulId, ReplayHold(history));
  }

  /** Counters of all rules, or only of active ones: the same exactly when they are zero or all rules are active. */
  lemma CountersDiffer(base: map<string, nat>, rules: set<string>, active: set<string>, soulId: string, n: nat)
    requires active <= rules && base.Keys !! SoulKeys(rules, soulId)
    ensures WithCounters(base, SoulKeys(rules, soulId), n) == WithCounters(base, SoulKeys(active, soulId), n)
       <==> n == 0 || active == rules
  {
    var all, some := SoulKeys(rules, soulId), SoulKeys(active, soulId);
    assert some <= all;
    if n == 0 {
      assert base - all == base && base - some == base;
    } else if active != rules {
      var r :| r in rules && r !in active;
      var key := StreakKey(r, soulId);
      forall q | q in active
        ensures StreakKey(q, soulId) != key
      {
        if StreakKey(q, soulId) == key {
          StreakKeyInjective(q, r, soulId);
        }
      }
      assert key in WithCounters(base, all, n) && key !in WithCounters(base, some, n);
    }
  }

  /** Without replacing, a seed keeps every counter and clock there is and gives the replay's to what is missing. */
  lemma SeedFillsGaps(s: State, soulId: string, h: seq<Judgment>, r: string)
    requires soulId != "" && r in s.rules
    ensures var seeded, key := Seeded(s, soulId, h, false), StreakKey(r, soulId);
            && Counter(seeded.streaks, key) == (if key in s.streaks then s.streaks[key] else ReplayStreak(h))
            && HoldOf(seeded, soulId) == if soulId in s.holds then Some(s.holds[soulId])
                                         else if h == [] || ReplayHold(h).value.since == 0 then None else ReplayHold(h)
  {
    assert StreakKey(r, soulId) in SoulKeys(s.rules, soulId);
    if h != [] {
      ReplayIsTrailingRun(h);
    }
  }

  /** Neither judging nor seeding one soul touches another, if their IDs hold no colon. */
  lemma OtherSoulsUntouched(s: State, active: set<string>, soulId: string, j: Judgment, h: seq<Judgment>,
                            replace: bool, r: string, other: string)
    requires other != soulId && ':' !in soulId && ':' !in other
    ensures forall s' :: s' in {Observed(s, active, soulId, j), Seeded(s, soulId, h, replace)} ==>
              SameCounter(s.streaks, s'.streaks, StreakKey(r, other)) && HoldOf(s', other) == HoldOf(s, other)
  {
    forall rules: set<string>
      ensures StreakKey(r, other) !in SoulKeys(rules, soulId)
    {
      forall q | q in rules
        ensures StreakKey(q, soulId) != StreakKey(r, other)
      {
        if StreakKey(q, soulId) == StreakKey(r, other) {
          StreakKeysOfSouls(q, soulId, r, other);
        }
      }
    }
    assert StreakKey(r, other) !in SoulKeys(active, soulId);
    assert StreakKey(r, other) !in SoulKeys(s.rules, soulId);
  }

  /** Seeding from less history never claims a longer outage, */
  lemma SuffixStreakNoLarger(history: seq<Judgment>, k: nat)
    requires Sorted(history) && k < |history|
    ensures ReplayStreak(history[k..]) <= ReplayStreak(history)
  {
    ReplayIsTrailingRun(history);
    ReplayIsTrailingRun(history[k..]);
    SuffixTrailing(history, k);
  }

  /** nor an earlier start of the current status. */
  lemma SuffixStartNoEarlier(history: seq<Judgment>, k: nat)
    requires Sorted(history) && k < |history|
    ensures StartsNoEarlier(ReplayHold(history[k..]), ReplayHold(history))
  {
    SuffixRunStart(history, k);
    HoldOrder(history[k..], history);
  }

  predicate StartsNoEarlier(a: Option<Hold>, b: Option<Hold>)
  {
    a.Some? && b.Some? && a.value.status == b.value.status && a.value.since >= b.value.since
  }

  ghost predicate RunStartsNoEarlier(a: seq<Judgment>, b: seq<Judgment>)
  {
    && a != [] && b != [] && a[|a| - 1].status == b[|b| - 1].status
    && a[|a| - Trailing(a)].ts >= b[|b| - Trailing(b)].ts
  }

  lemma HoldOrder(a: seq<Judgment>, b: seq<Judgment>)
    requires RunStartsNoEarlier(a, b)
    ensures StartsNoEarlier(ReplayHold(a), ReplayHold(b))
  {
    ReplayIsTrailingRun(a);
    ReplayIsTrailingRun(b);
  }

  lemma SuffixRunStart(history: seq<Judgment>, k: nat)
    requires Sorted(history) && k < |history|
    ensures RunStartsNoEarlier(history[k..], history)
  {
    SuffixTrailing(history, k);
    RunStartOrder(history, k, Trailing(history), Trailing(history[k..]));
  }

  lemma RunStartOrder(history: seq<Judgment>, k: nat, m: nat, n: nat)
    requires Sorted(history) && k < |history| && 1 <= n <= |history| - k && n <= m <= |history|
    ensures history[k..][|history| - k - n].ts >= history[|history| - m].ts
  {
    assert history[k..][|history| - k - n] == history[|history| - n];
  }

  lemma SuffixTrailing(history: seq<Judgment>, k: nat)
    requires k < |history|
    ensures Trailing(history[k..]) <= Trailing(history)
    ensures history[k..][|history| - k - 1] == history[|history| - 1]
  {
    var suffix, m := history[k..], Trailing(history);
    if m < |suffix| {
      assert suffix[|suffix| - m - 1] == history[|history| - m - 1];
    }
  }
}
