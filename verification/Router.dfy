/**
  The route table of internal/api/rest.go: the order on patterns, registration,
  matching and dispatch. A handler is an opaque value; middleware and CORS are
  not modelled.
 */
module Routing {
  import opened Options

  // ---------------------------------------------------------------------
  // Paths as segments
  // ---------------------------------------------------------------------

  /** strings.Split at '/'. */
  function Split(s: string): (parts: seq<string>)
    ensures parts != []
    ensures forall i :: 0 <= i < |parts| ==> '/' !in parts[i]
  {
    if s == "" then [""]
    else
      var rest := Split(s[1..]);
      if s[0] == '/' then [""] + rest else [[s[0]] + rest[0]] + rest[1..]
  }

  function Join(parts: seq<string>): string
    requires parts != []
  {
    if |parts| == 1 then parts[0] else parts[0] + "/" + Join(parts[1..])
  }

  lemma {:induction false} JoinSplit(s: string)
    ensures Join(Split(s)) == s
  {
    if s != "" {
      JoinSplit(s[1..]);
      var rest := Split(s[1..]);
      if s[0] == '/' {
        assert ([""] + rest)[1..] == rest;
        assert "" + "/" + Join(rest) == s;
      } else {
        var head := [s[0]] + rest[0];
        assert ([head] + rest[1..])[1..] == rest[1..];
        if |rest| > 1 {
          assert head + "/" + Join(rest[1..]) == [s[0]] + (rest[0] + "/" + Join(rest[1..]));
        }
      }
    }
  }

  lemma {:induction false} SplitPrefix(head: string, tail: string)
    requires '/' !in head
    ensures Split(head + "/" + tail) == [head] + Split(tail)
  {
    var s := head + "/" + tail;
    if head == "" {
      assert s[1..] == tail;
    } else {
      assert s[1..] == head[1..] + "/" + tail;
      SplitPrefix(head[1..], tail);
      assert [s[0]] + head[1..] == head;
    }
  }

  lemma {:induction false} SplitPlain(head: string)
    requires '/' !in head
    ensures Split(head) == [head]
  {
    if head != "" {
      SplitPlain(head[1..]);
      assert [head[0]] + head[1..] == head;
    }
  }

  lemma {:induction false} SplitJoin(parts: seq<string>)
    requires parts != [] && forall i :: 0 <= i < |parts| ==> '/' !in parts[i]
    ensures Split(Join(parts)) == parts
  {
    if |parts| == 1 {
      SplitPlain(parts[0]);
    } else {
      SplitJoin(parts[1..]);
      SplitPrefix(parts[0], Join(parts[1..]));
    }
  }

  predicate IsParam(segment: string)
  {
    segment != "" && segment[0] == ':'
  }

  // ---------------------------------------------------------------------
  // Lexicographic order
  // ---------------------------------------------------------------------

  ghost predicate StrictTotal<T(!new)>(lt: (T, T) -> bool)
  {
    && (forall x :: !lt(x, x))
    && (forall x, y :: lt(x, y) || lt(y, x) || x == y)
    && (forall x, y, z :: lt(x, y) && lt(y, z) ==> lt(x, z))
  }

  /** A proper prefix comes first. */
  predicate Lex<T(==)>(x: seq<T>, y: seq<T>, lt: (T, T) -> bool)
  {
    if y == [] then false
    else if x == [] then true
    else if x[0] == y[0] then Lex(x[1..], y[1..], lt)
    else lt(x[0], y[0])
  }

  lemma {:induction false} LexIrreflexive<T>(x: seq<T>, lt: (T, T) -> bool)
    ensures !Lex(x, x, lt)
  {
    if x != [] {
      LexIrreflexive(x[1..], lt);
    }
  }

  lemma {:induction false} LexTotal<T(!new)>(x: seq<T>, y: seq<T>, lt: (T, T) -> bool)
    requires StrictTotal(lt)
    ensures Lex(x, y, lt) || Lex(y, x, lt) || x == y
  {
    if x != [] && y != [] && x[0] == y[0] {
      LexTotal(x[1..], y[1..], lt);
      assert x == [x[0]] + x[1..] && y == [y[0]] + y[1..];
    }
  }

  lemma {:induction false} LexTransitive<T(!new)>(x: seq<T>, y: seq<T>, z: seq<T>, lt: (T, T) -> bool)
    requires StrictTotal(lt) && Lex(x, y, lt) && Lex(y, z, lt)
    ensures Lex(x, z, lt)
  {
    if x != [] && x[0] == y[0] == z[0] {
      LexTransitive(x[1..], y[1..], z[1..], lt);
    }
  }

  const FlagLess: (bool, bool) -> bool := (a, b) => !a && b
  const CharLess: (char, char) -> bool := (a: char, b: char) => a < b

  // ---------------------------------------------------------------------
  // The order on patterns
  // ---------------------------------------------------------------------

  /** Which segments are parameters. */
  function Flags(pattern: string): seq<bool>
  {
    var parts := Split(pattern);
    seq(|parts|, i requires 0 <= i < |parts| => IsParam(parts[i]))
  }

  /** Literal segments first, then fewer segments, then the text. */
  predicate MoreSpecific(a: string, b: string)
  {
    Lex(Flags(a), Flags(b), FlagLess) || (Flags(a) == Flags(b) && Lex(a, b, CharLess))
  }

  method MoreSpecificRoute(a: string, b: string) returns (before: bool)
    ensures before == MoreSpecific(a, b)
  {
    var aParts, bParts := Split(a), Split(b);
    ghost var x, y := Flags(a), Flags(b);
    var i := 0;
    while i < |aParts| && i < |bParts|
      invariant 0 <= i <= |x| && i <= |y|
      invariant x[..i] == y[..i]
      invariant Lex(x, y, FlagLess) == Lex(x[i..], y[i..], FlagLess)
    {
      var aParam, bParam := IsParam(aParts[i]), IsParam(bParts[i]);
      assert x[i] == aParam && y[i] == bParam;
      if aParam != bParam {
        return !aParam;
      }
      assert x[i..][1..] == x[i + 1..] && y[i..][1..] == y[i + 1..];
      i := i + 1;
    }
    if |aParts| != |bParts| {
      return |aParts| < |bParts|;
    }
    assert x == x[..i] && y == y[..i];
    return Lex(a, b, CharLess);
  }

  /** The order is strict and total, so sorting has exactly one outcome. */
  lemma MoreSpecificIsStrictTotal(a: string, b: string, c: string)
    ensures !MoreSpecific(a, a)
    ensures MoreSpecific(a, b) || MoreSpecific(b, a) || a == b
    ensures MoreSpecific(a, b) && MoreSpecific(b, c) ==> MoreSpecific(a, c)
    ensures !(MoreSpecific(a, b) && MoreSpecific(b, a))
  {
    LexIrreflexive(Flags(a), FlagLess);
    LexIrreflexive(a, CharLess);
    LexTotal(Flags(a), Flags(b), FlagLess);
    LexTotal(a, b, CharLess);
    MoreSpecificTransitive(a, b, c);
    MoreSpecificTransitive(a, b, a);
  }

  lemma MoreSpecificTransitive(a: string, b: string, c: string)
    ensures MoreSpecific(a, b) && MoreSpecific(b, c) ==> MoreSpecific(a, c)
  {
    if MoreSpecific(a, b) && MoreSpecific(b, c) {
      if Flags(a) == Flags(b) == Flags(c) {
        LexIrreflexive(Flags(a), FlagLess);
        LexTransitive(a, b, c, CharLess);
      } else if Flags(a) != Flags(b) && Flags(b) != Flags(c) {
        LexTransitive(Flags(a), Flags(b), Flags(c), FlagLess);
      }
    }
  }

  lemma {:induction false} LexAt<T>(x: seq<T>, y: seq<T>, i: nat, lt: (T, T) -> bool)
    requires i < |x| && i < |y| && x[..i] == y[..i] && x[i] != y[i]
    ensures Lex(x, y, lt) <==> lt(x[i], y[i])
  {
    if i > 0 {
      assert x[0] == x[..i][0] == y[..i][0] == y[0];
      assert x[1..][..i - 1] == x[..i][1..] && y[1..][..i - 1] == y[..i][1..];
      LexAt(x[1..], y[1..], i - 1, lt);
    }
  }

  lemma {:induction false} LexPrefix<T>(x: seq<T>, y: seq<T>, lt: (T, T) -> bool)
    requires x < y
    ensures Lex(x, y, lt) && !Lex(y, x, lt)
  {
    if x != [] {
      assert x[1..] < y[1..];
      LexPrefix(x[1..], y[1..], lt);
    }
  }

  /** The first i segments of both patterns agree on being parameters. */
  predicate AgreeUpTo(a: string, b: string, i: nat)
    requires i <= |Split(a)| && i <= |Split(b)|
  {
    forall k :: 0 <= k < i ==> (":" <= Split(a)[k] <==> ":" <= Split(b)[k])
  }

  lemma FlagsAt(a: string, b: string, i: nat)
    requires i <= |Split(a)| && i <= |Split(b)| && AgreeUpTo(a, b, i)
    ensures Flags(a)[..i] == Flags(b)[..i]
  {
    assert forall k :: 0 <= k < i ==> Flags(a)[..i][k] == Flags(b)[..i][k];
  }

  /** A literal beats a parameter at the first segment where the patterns differ, whatever follows. */
  lemma LiteralBeatsParameter(a: string, b: string, i: nat)
    requires i < |Split(a)| && i < |Split(b)| && AgreeUpTo(a, b, i)
    requires !(":" <= Split(a)[i]) && ":" <= Split(b)[i]
    ensures MoreSpecific(a, b) && !MoreSpecific(b, a)
  {
    FlagsAt(a, b, i);
    assert !Flags(a)[i] && Flags(b)[i];
    LexAt(Flags(a), Flags(b), i, FlagLess);
    LexAt(Flags(b), Flags(a), i, FlagLess);
  }

  /** Without such a segment the shorter pattern comes first. */
  lemma ShorterComesFirst(a: string, b: string)
    requires |Split(a)| < |Split(b)| && AgreeUpTo(a, b, |Split(a)|)
    ensures MoreSpecific(a, b) && !MoreSpecific(b, a)
  {
    FlagsAt(a, b, |Split(a)|);
    assert Flags(a) == Flags(b)[..|Flags(a)|];
    LexPrefix(Flags(a), Flags(b), FlagLess);
  }

  /** The texts first differ at k, or the first one ends there. */
  predicate TextBefore(a: string, b: string, k: nat)
  {
    k < |b| && k <= |a| && a[..k] == b[..k] && (k == |a| || a[k] < b[k])
  }

  /** Patterns of one shape are ordered by their text. */
  lemma TextDecidesLast(a: string, b: string, k: nat)
    requires |Split(a)| == |Split(b)| && AgreeUpTo(a, b, |Split(a)|) && TextBefore(a, b, k)
    ensures MoreSpecific(a, b) && !MoreSpecific(b, a)
  {
    FlagsAt(a, b, |Split(a)|);
    assert Flags(a) == Flags(a)[..|Split(a)|] == Flags(b)[..|Split(a)|] == Flags(b);
    LexIrreflexive(Flags(a), FlagLess);
    if k == |a| {
      LexPrefix(a, b, CharLess);
    } else {
      LexAt(a, b, k, CharLess);
      LexAt(b, a, k, CharLess);
    }
  }

  // ---------------------------------------------------------------------
  // Matching
  // ---------------------------------------------------------------------

  predicate Matches(pattern: seq<string>, path: seq<string>)
  {
    |pattern| == |path| && forall i :: 0 <= i < |pattern| ==> IsParam(pattern[i]) || pattern[i] == path[i]
  }

  /** The parameters captured by the first n segments; a repeated name keeps its last capture. */
  function Captured(pattern: seq<string>, path: seq<string>, n: nat): map<string, string>
    requires n <= |pattern| && n <= |path|
  {
    if n == 0 then map[]
    else
      var before := Captured(pattern, path, n - 1);
      if IsParam(pattern[n - 1]) then before[pattern[n - 1][1..] := path[n - 1]] else before
  }

  method MatchRoute(pattern: string, path: string) returns (params: Option<map<string, string>>)
    ensures params.Some? <==> Matches(Split(pattern), Split(path))
    ensures params.Some? ==> params.value == Captured(Split(pattern), Split(path), |Split(pattern)|)
  {
    var patternParts, pathParts := Split(pattern), Split(path);
    if |patternParts| != |pathParts| {
      return None;
    }
    var captured := map[];
    for i := 0 to |patternParts|
      invariant captured == Captured(patternParts, pathParts, i)
      invariant forall k :: 0 <= k < i ==> IsParam(patternParts[k]) || patternParts[k] == pathParts[k]
    {
      if IsParam(patternParts[i]) {
        captured := captured[patternParts[i][1..] := pathParts[i]];
      } else if patternParts[i] != pathParts[i] {
        return None;
      }
    }
    return Some(captured);
  }

  function Substituted(pattern: seq<string>, params: map<string, string>): seq<string>
  {
    seq(|pattern|, i requires 0 <= i < |pattern| =>
      if IsParam(pattern[i]) && pattern[i][1..] in params then params[pattern[i][1..]] else pattern[i])
  }

  /** Parameters with one name captured one text. */
  predicate Consistent(pattern: seq<string>, path: seq<string>)
    requires |pattern| == |path|
  {
    forall i, j :: 0 <= i < j < |pattern| && IsParam(pattern[i]) && pattern[i] == pattern[j] ==> path[i] == path[j]
  }

  predicate DistinctNames(pattern: seq<string>)
  {
    forall i, j :: 0 <= i < j < |pattern| && IsParam(pattern[i]) ==> pattern[i] != pattern[j]
  }

  /** The capture of a name is the segment of its last occurrence. */
  lemma {:induction false} CapturedLast(pattern: seq<string>, path: seq<string>, n: nat, i: nat) returns (k: nat)
    requires |pattern| == |path| && i < n <= |pattern| && IsParam(pattern[i])
    ensures i <= k < n && pattern[k] == pattern[i]
    ensures pattern[i][1..] in Captured(pattern, path, n)
    ensures Captured(pattern, path, n)[pattern[i][1..]] == path[k]
  {
    if IsParam(pattern[n - 1]) && pattern[n - 1][1..] == pattern[i][1..] {
      k := n - 1;
      assert pattern[k] == [':'] + pattern[k][1..] && pattern[i] == [':'] + pattern[i][1..];
    } else {
      k := CapturedLast(pattern, path, n - 1, i);
    }
  }

  /**
    Putting the captured parameters back into the pattern reproduces the path
    exactly when no name captured two different texts.
   */
  lemma SubstitutionReproducesPath(pattern: string, path: string)
    requires Matches(Split(pattern), Split(path))
    ensures var p, s := Split(pattern), Split(path);
            Join(Substituted(p, Captured(p, s, |p|))) == path <==> Consistent(p, s)
    ensures DistinctNames(Split(pattern)) ==> Consistent(Split(pattern), Split(path))
  {
    var p, s := Split(pattern), Split(path);
    var back := Substituted(p, Captured(p, s, |p|));
    SegmentsReproduced(p, s);
    JoinSplit(path);
    if Join(back) == path {
      SplitJoin(back);
    }
  }

  /** The same on segments. */
  lemma SegmentsReproduced(p: seq<string>, s: seq<string>)
    requires Matches(p, s) && forall i :: 0 <= i < |s| ==> '/' !in s[i]
    ensures var back := Substituted(p, Captured(p, s, |p|));
            && (forall i :: 0 <= i < |back| ==> '/' !in back[i])
            && (back == s <==> Consistent(p, s))
  {
    var back := Substituted(p, Captured(p, s, |p|));
    forall i | 0 <= i < |p|
      ensures '/' !in back[i]
      ensures Consistent(p, s) ==> back[i] == s[i]
    {
      if IsParam(p[i]) {
        var k := CapturedLast(p, s, |p|, i);
        assert back[i] == s[k];
      }
    }
  }

  /** The parameters name exactly the parameter segments, and no value holds a slash. */
  ghost predicate Fits(pattern: seq<string>, params: map<string, string>)
  {
    && (forall i :: 0 <= i < |pattern| && ":" <= pattern[i] ==> pattern[i][1..] in params)
    && (forall name :: name in params ==> '/' !in params[name] && Names(pattern, name))
  }

  ghost predicate Names(pattern: seq<string>, name: string)
  {
    exists i :: 0 <= i < |pattern| && ":" <= pattern[i] && pattern[i][1..] == name
  }

  /** Filling parameters into a pattern gives a path that matches it and captures exactly those parameters. */
  lemma InstanceMatches(pattern: string, params: map<string, string>)
    requires Fits(Split(pattern), params)
    ensures var p := Split(pattern);
            var s := Split(Join(Substituted(p, params)));
            Matches(p, s) && Captured(p, s, |p|) == params
  {
    var p := Split(pattern);
    var filled := Substituted(p, params);
    assert forall i :: 0 <= i < |filled| ==> '/' !in filled[i];
    SplitJoin(filled);
    forall name
      ensures name in params ==> name in Captured(p, filled, |p|) && Captured(p, filled, |p|)[name] == params[name]
    {
      if name in params {
        assert Names(p, name);
        var i :| 0 <= i < |p| && ":" <= p[i] && p[i][1..] == name;
        var k := CapturedLast(p, filled, |p|, i);
        assert p[k][1..] == name;
      }
    }
    CapturedNames(p, filled, |p|);
    assert Captured(p, filled, |p|).Keys == params.Keys;
  }

  lemma {:induction false} CapturedNames(pattern: seq<string>, path: seq<string>, n: nat)
    requires |pattern| == |path| && n <= |pattern|
    ensures forall name :: name in Captured(pattern, path, n) ==> Names(pattern, name)
  {
    if n > 0 {
      CapturedNames(pattern, path, n - 1);
      if IsParam(pattern[n - 1]) {
        assert Names(pattern, pattern[n - 1][1..]);
      }
    }
  }

  // ---------------------------------------------------------------------
  // The route table
  // ---------------------------------------------------------------------

  type Handler = string

  type Routes = map<string, map<string, Handler>>

  predicate Registered(routes: Routes, pattern: string, verb: string)
  {
    pattern in routes && verb in routes[pattern]
  }

  predicate Parameterized(routes: Routes, pattern: string)
  {
    pattern in routes && ':' in pattern
  }

  predicate SortedRoutes(bucket: seq<string>)
  {
    forall i, j :: 0 <= i < j < |bucket| ==> MoreSpecific(bucket[i], bucket[j])
  }

  /** Each bucket holds the parameterized patterns with its number of segments, most specific first. */
  ghost predicate GoodBuckets(routes: Routes, buckets: map<nat, seq<string>>)
  {
    forall n: nat ::
      && SortedRoutes(Bucket(buckets, n))
      && forall p :: p in Bucket(buckets, n) <==> Parameterized(routes, p) && |Split(p)| == n
  }

  function Bucket(buckets: map<nat, seq<string>>, n: nat): seq<string>
  {
    if n in buckets then buckets[n] else []
  }

  function Handled(routes: Routes, verb: string, path: string, handler: Handler): Routes
  {
    routes[path := (if path in routes then routes[path] else map[])[verb := handler]]
  }

  /** A pattern that parameterized dispatch may choose for the request. */
  predicate Candidate(routes: Routes, pattern: string, path: string, verb: string)
  {
    Parameterized(routes, pattern) && Matches(Split(pattern), Split(path)) && Registered(routes, pattern, verb)
  }

  /** The choice: the candidate more specific than every other one, None when there is none. */
  ghost predicate Chosen(routes: Routes, path: string, verb: string, choice: Option<string>)
  {
    match choice
    case Some(p) =>
      Candidate(routes, p, path, verb)
      && forall q :: Candidate(routes, q, path, verb) && q != p ==> MoreSpecific(p, q)
    case None => forall q :: !Candidate(routes, q, path, verb)
  }

  /** No candidate has a literal where the chosen pattern has a parameter, at the first segment where they differ. */
  lemma ChosenHasLiterals(routes: Routes, path: string, verb: string, p: string, q: string, i: nat)
    requires Chosen(routes, path, verb, Some(p)) && Candidate(routes, q, path, verb)
    requires i < |Split(p)| && i < |Split(q)| && AgreeUpTo(q, p, i)
    ensures ":" <= Split(p)[i] ==> ":" <= Split(q)[i]
  {
    if !(":" <= Split(q)[i]) && ":" <= Split(p)[i] {
      LiteralBeatsParameter(q, p, i);
    }
  }

  lemma ChoiceIsUnique(routes: Routes, routes': Routes, path: string, verb: string,
                       a: Option<string>, b: Option<string>)
    requires forall p :: Registered(routes, p, verb) <==> Registered(routes', p, verb)
    requires Chosen(routes, path, verb, a) && Chosen(routes', path, verb, b)
    ensures a == b
  {
    assert forall p :: Candidate(routes, p, path, verb) <==> Candidate(routes', p, path, verb);
    if a.Some? && b.Some? && a != b {
      MoreSpecificIsStrictTotal(a.value, b.value, a.value);
    }
  }

  lemma InsertKeepsOrder(bucket: seq<string>, path: string, k: nat)
    requires SortedRoutes(bucket) && k <= |bucket|
    requires forall i :: 0 <= i < k ==> MoreSpecific(bucket[i], path)
    requires forall i :: k <= i < |bucket| ==> MoreSpecific(path, bucket[i])
    ensures SortedRoutes(bucket[..k] + [path] + bucket[k..])
  {
    var next := bucket[..k] + [path] + bucket[k..];
    forall i, j | 0 <= i < j < |next|
      ensures MoreSpecific(next[i], next[j])
    {
      assert i < k ==> next[i] == bucket[i];
      assert j > k ==> next[j] == bucket[j - 1];
      assert i > k ==> next[i] == bucket[i - 1];
    }
  }

  /** Sorting a sorted bucket with one more pattern: the pattern moves down to its place. */
  method SortIn(bucket: seq<string>, path: string) returns (next: seq<string>)
    requires SortedRoutes(bucket) && path !in bucket
    ensures SortedRoutes(next)
    ensures forall p :: p in next <==> p in bucket || p == path
  {
    var k := |bucket|;
    var before := true;
    while k > 0 && before
      invariant 0 <= k <= |bucket|
      invariant forall i :: k <= i < |bucket| ==> MoreSpecific(path, bucket[i])
      invariant !before ==> k > 0 && !MoreSpecific(path, bucket[k - 1])
      decreases k, before
    {
      before := MoreSpecificRoute(path, bucket[k - 1]);
      if before {
        k := k - 1;
      }
    }
    PlaceInOrder(bucket, path, k);
    InsertKeepsOrder(bucket, path, k);
    next := bucket[..k] + [path] + bucket[k..];
    assert bucket == bucket[..k] + bucket[k..];
  }

  /** Everything above a pattern that is not before the last one is before it. */
  lemma PlaceInOrder(bucket: seq<string>, path: string, k: nat)
    requires SortedRoutes(bucket) && path !in bucket && k <= |bucket|
    requires k > 0 ==> !MoreSpecific(path, bucket[k - 1])
    ensures forall i :: 0 <= i < k ==> MoreSpecific(bucket[i], path)
  {
    if k > 0 {
      MoreSpecificIsStrictTotal(path, bucket[k - 1], path);
      forall i | 0 <= i < k
        ensures MoreSpecific(bucket[i], path)
      {
        MoreSpecificTransitive(bucket[i], bucket[k - 1], path);
      }
    }
  }

  lemma CandidateInBucket(routes: Routes, buckets: map<nat, seq<string>>, path: string, verb: string, q: string)
    requires GoodBuckets(routes, buckets) && Candidate(routes, q, path, verb)
    ensures q in Bucket(buckets, |Split(path)|)
  {
    var n: nat := |Split(q)|;
    assert q in Bucket(buckets, n);
  }

  lemma CandidateIndex(routes: Routes, bucket: seq<string>, path: string, verb: string, q: string, i: nat)
    returns (k: nat)
    requires Candidate(routes, q, path, verb) && q in bucket && i <= |bucket|
    requires forall j :: 0 <= j < i ==> !Candidate(routes, bucket[j], path, verb)
    ensures i <= k < |bucket| && bucket[k] == q
  {
    k :| 0 <= k < |bucket| && bucket[k] == q;
  }

  /** A sorted bucket that holds every candidate. */
  ghost predicate Covers(routes: Routes, bucket: seq<string>, path: string, verb: string)
  {
    SortedRoutes(bucket) && forall q :: Candidate(routes, q, path, verb) ==> q in bucket
  }

  lemma BucketCovers(routes: Routes, buckets: map<nat, seq<string>>, path: string, verb: string)
    requires GoodBuckets(routes, buckets)
    ensures Covers(routes, Bucket(buckets, |Split(path)|), path, verb)
  {
    forall q | Candidate(routes, q, path, verb)
      ensures q in Bucket(buckets, |Split(path)|)
    {
      CandidateInBucket(routes, buckets, path, verb, q);
    }
  }

  /** The first candidate of a covering bucket is the choice; without one there is none. */
  lemma FirstCandidateIsChosen(routes: Routes, bucket: seq<string>, path: string, verb: string, i: nat)
    requires Covers(routes, bucket, path, verb) && i <= |bucket|
    requires i < |bucket| ==> Candidate(routes, bucket[i], path, verb)
    requires forall j :: 0 <= j < i ==> !Candidate(routes, bucket[j], path, verb)
    ensures Chosen(routes, path, verb, if i < |bucket| then Some(bucket[i]) else None)
  {
    forall q
      ensures Candidate(routes, q, path, verb) ==> i < |bucket| && (q == bucket[i] || MoreSpecific(bucket[i], q))
    {
      if Candidate(routes, q, path, verb) {
        var k := CandidateIndex(routes, bucket, path, verb, q, i);
      }
    }
  }

  /** The dispatch loop: the first pattern of the bucket that matches and has the method. */
  method FirstMatch(routes: Routes, bucket: seq<string>, path: string, verb: string)
    returns (i: nat, params: map<string, string>)
    requires forall k :: 0 <= k < |bucket| ==> Parameterized(routes, bucket[k])
    ensures i <= |bucket|
    ensures forall k :: 0 <= k < i ==> !Candidate(routes, bucket[k], path, verb)
    ensures i < |bucket| ==> Candidate(routes, bucket[i], path, verb)
                             && params == Captured(Split(bucket[i]), Split(path), |Split(path)|)
  {
    i, params := 0, map[];
    while i < |bucket|
      invariant 0 <= i <= |bucket|
      invariant forall k :: 0 <= k < i ==> !Candidate(routes, bucket[k], path, verb)
    {
      var captured := MatchRoute(bucket[i], path);
      if captured.Some? && verb in routes[bucket[i]] {
        params := captured.value;
        return;
      }
      i := i + 1;
    }
  }

  datatype Match = Exact(handler: Handler) | Parameters(pattern: string, handler: Handler, params: map<string, string>)
                 | NoRoute

  class Router {
    var routes: Routes
    var paramRoutes: map<nat, seq<string>>

    constructor ()
      ensures routes == map[] && Valid()
    {
      routes, paramRoutes := map[], map[];
    }

    ghost predicate Valid()
      reads this
    {
      GoodBuckets(routes, paramRoutes)
    }

    method Handle(verb: string, path: string, handler: Handler)
      requires Valid()
      modifies this
      ensures Valid()
      ensures routes == Handled(old(routes), verb, path, handler)
    {
      if path !in routes && ':' in path {
        var n := |Split(path)|;
        var bucket := if n in paramRoutes then paramRoutes[n] else [];
        assert bucket == Bucket(paramRoutes, n);
        var next := SortIn(bucket, path);
        ghost var before := paramRoutes;
        paramRoutes := paramRoutes[n := next];
        assert forall m: nat :: m != n ==> Bucket(paramRoutes, m) == Bucket(before, m);
      }
      routes := Handled(routes, verb, path, handler);
    }

    /** ServeHTTP up to the call of the handler. */
    method Dispatch(path: string, verb: string) returns (m: Match)
      requires Valid()
      ensures Registered(routes, path, verb) ==> m == Exact(routes[path][verb])
      ensures !Registered(routes, path, verb) ==> !m.Exact?
      ensures !Registered(routes, path, verb) ==>
        Chosen(routes, path, verb, if m.Parameters? then Some(m.pattern) else None)
      ensures m.Parameters? ==>
        && Candidate(routes, m.pattern, path, verb) && m.handler == routes[m.pattern][verb]
        && m.params == Captured(Split(m.pattern), Split(path), |Split(path)|)
    {
      if path in routes && verb in routes[path] {
        return Exact(routes[path][verb]);
      }
      var n := |Split(path)|;
      var bucket := if n in paramRoutes then paramRoutes[n] else [];
      assert bucket == Bucket(paramRoutes, n);
      BucketCovers(routes, paramRoutes, path, verb);
      var i, params := FirstMatch(routes, bucket, path, verb);
      FirstCandidateIsChosen(routes, bucket, path, verb, i);
      if i < |bucket| {
        return Parameters(bucket[i], routes[bucket[i]][verb], params);
      }
      return NoRoute;
    }
  }

  // ---------------------------------------------------------------------
  // Registration order
  // ---------------------------------------------------------------------

  datatype Registration = Registration(verb: string, path: string, handler: Handler)

  function RoutesAfter(regs: seq<Registration>): Routes
  {
    if regs == [] then map[]
    else
      var r := regs[|regs| - 1];
      Handled(RoutesAfter(regs[..|regs| - 1]), r.verb, r.path, r.handler)
  }

  lemma {:induction false} RegisteredIffListed(regs: seq<Registration>, path: string, verb: string)
    ensures Registered(RoutesAfter(regs), path, verb)
       <==> exists r :: r in regs && r.path == path && r.verb == verb
    ensures Registered(RoutesAfter(regs), path, verb) ==>
      Registration(verb, path, RoutesAfter(regs)[path][verb]) in regs
  {
    if regs != [] {
      var rest, last := regs[..|regs| - 1], regs[|regs| - 1];
      RegisteredIffListed(rest, path, verb);
      assert regs == rest + [last];
    }
  }

  predicate NoOverride(regs: seq<Registration>)
  {
    forall i, j :: 0 <= i < j < |regs| ==> regs[i].path != regs[j].path || regs[i].verb != regs[j].verb
  }

  /**
    Whatever order routes were registered in, a request resolves to the same
    pattern, and to the same handler unless a route was registered twice.
   */
  lemma RegistrationOrderIrrelevant(regs: seq<Registration>, regs': seq<Registration>, path: string, verb: string,
                                    a: Option<string>, b: Option<string>)
    requires multiset(regs) == multiset(regs')
    requires Chosen(RoutesAfter(regs), path, verb, a) && Chosen(RoutesAfter(regs'), path, verb, b)
    ensures a == b
    ensures a.Some? && NoOverride(regs) ==> RoutesAfter(regs)[a.value][verb] == RoutesAfter(regs')[a.value][verb]
  {
    assert forall r :: r in regs <==> r in multiset(regs);
    assert forall r :: r in regs' <==> r in multiset(regs');
    forall p
      ensures Registered(RoutesAfter(regs), p, verb) <==> Registered(RoutesAfter(regs'), p, verb)
    {
      RegisteredIffListed(regs, p, verb);
      RegisteredIffListed(regs', p, verb);
    }
    ChoiceIsUnique(RoutesAfter(regs), RoutesAfter(regs'), path, verb, a, b);
    if a.Some? && NoOverride(regs) {
      RegisteredIffListed(regs, a.value, verb);
      RegisteredIffListed(regs', a.value, verb);
      var x := Registration(verb, a.value, RoutesAfter(regs)[a.value][verb]);
      var y := Registration(verb, a.value, RoutesAfter(regs')[a.value][verb]);
      assert x in regs && y in regs;
    }
  }
}
