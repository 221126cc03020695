/**
  Request rate limits (takeRateLimitQuotas and the cleanup loop of
  internal/api/rest.go). A request names several quotas and is charged to all of
  them or to none. Quota states are found through their keys, so two quotas with
  one key share a counter, as they do in the program. Time is in nanoseconds.
 */
module RateLimit {
  const WINDOW := 60_000_000_000 // one minute

  datatype Client = Client(count: int, resetTime: int)

  type Clients = map<string, Client>

  datatype Quota = Quota(key: string, limit: int)

  // ---------------------------------------------------------------------
  // Specification
  // ---------------------------------------------------------------------

  /** No state, or one whose window is over: the next request starts a new window. */
  predicate Expired(clients: Clients, key: string, now: int)
  {
    key !in clients || clients[key].resetTime <= now
  }

  /** The state a request at time now sees. */
  function Current(clients: Clients, key: string, now: int): Client
  {
    if Expired(clients, key, now) then Client(0, now + WINDOW) else clients[key]
  }

  /** Every named key has a running window. */
  function Opened(clients: Clients, now: int, quotas: seq<Quota>): Clients
  {
    if quotas == [] then clients
    else
      var before, q := Opened(clients, now, quotas[..|quotas| - 1]), quotas[|quotas| - 1];
      before[q.key := Current(before, q.key, now)]
  }

  predicate Exhausted(clients: Clients, q: Quota)
    requires q.key in clients
  {
    clients[q.key].count >= q.limit
  }

  /** q is exhausted and no quota named before it is. */
  predicate FirstExhausted(clients: Clients, quotas: seq<Quota>, q: Quota)
  {
    exists n :: 0 <= n < |quotas| && quotas[n] == q && IsFirst(clients, quotas, n)
  }

  predicate IsFirst(clients: Clients, quotas: seq<Quota>, n: nat)
    requires n < |quotas|
  {
    && quotas[n].key in clients && clients[quotas[n].key].count >= quotas[n].limit
    && forall i :: 0 <= i < n ==> quotas[i].key in clients && clients[quotas[i].key].count < quotas[i].limit
  }

  function Charged(clients: Clients, quotas: seq<Quota>): (r: Clients)
    requires forall i :: 0 <= i < |quotas| ==> quotas[i].key in clients
    ensures r.Keys == clients.Keys
  {
    if quotas == [] then clients
    else
      var before, q := Charged(clients, quotas[..|quotas| - 1]), quotas[|quotas| - 1];
      Incremented(before, q.key)
  }

  function Headroom(clients: Clients, q: Quota): int
    requires q.key in clients
  {
    q.limit - clients[q.key].count
  }

  predicate DistinctKeys(quotas: seq<Quota>)
  {
    forall i, j :: 0 <= i < j < |quotas| ==> quotas[i].key != quotas[j].key
  }

  predicate Names(quotas: seq<Quota>, key: string)
  {
    exists i :: 0 <= i < |quotas| && quotas[i].key == key
  }

  lemma {:induction false} OpenedAt(clients: Clients, now: int, quotas: seq<Quota>, key: string)
    ensures Names(quotas, key) ==> key in Opened(clients, now, quotas)
                                   && Opened(clients, now, quotas)[key] == Current(clients, key, now)
    ensures !Names(quotas, key) ==> (key in Opened(clients, now, quotas) <==> key in clients)
    ensures !Names(quotas, key) && key in clients ==> Opened(clients, now, quotas)[key] == clients[key]
  {
    if quotas != [] {
      var rest, last := quotas[..|quotas| - 1], quotas[|quotas| - 1];
      OpenedAt(clients, now, rest, key);
      assert Names(quotas, key) <==> Names(rest, key) || last.key == key by {
        assert forall i :: 0 <= i < |rest| ==> rest[i] == quotas[i];
      }
    }
  }

  /** On distinct keys every named counter goes up by one and nothing else changes. */
  lemma {:induction false} ChargedAt(clients: Clients, quotas: seq<Quota>, key: string)
    requires forall i :: 0 <= i < |quotas| ==> quotas[i].key in clients
    requires DistinctKeys(quotas) && key in clients
    ensures key in Charged(clients, quotas)
    ensures Charged(clients, quotas)[key]
         == if Names(quotas, key) then clients[key].(count := clients[key].count + 1) else clients[key]
  {
    if quotas != [] {
      var rest, last := quotas[..|quotas| - 1], quotas[|quotas| - 1];
      ChargedAt(clients, rest, key);
      assert Names(quotas, key) <==> Names(rest, key) || last.key == key by {
        assert forall i :: 0 <= i < |rest| ==> rest[i] == quotas[i];
      }
      if Names(rest, key) {
        var i :| 0 <= i < |rest| && rest[i].key == key;
        assert quotas[i].key != quotas[|quotas| - 1].key;
      }
    }
  }

  // ---------------------------------------------------------------------
  // The limiter
  // ---------------------------------------------------------------------

  ghost predicate AllOpen(clients: Clients, quotas: seq<Quota>)
  {
    forall i :: 0 <= i < |quotas| ==> quotas[i].key in clients
  }

  /** The quotas named by a request are all below their limits. */
  ghost predicate Admits(clients: Clients, now: int, quotas: seq<Quota>)
  {
    forall i :: 0 <= i < |quotas| ==> Current(clients, quotas[i].key, now).count < quotas[i].limit
  }

  lemma OpenedAll(clients: Clients, now: int, quotas: seq<Quota>)
    ensures AllOpen(Opened(clients, now, quotas), quotas)
    ensures forall i :: 0 <= i < |quotas| ==>
      Opened(clients, now, quotas)[quotas[i].key] == Current(clients, quotas[i].key, now)
  {
    forall i | 0 <= i < |quotas|
      ensures quotas[i].key in Opened(clients, now, quotas)
      ensures Opened(clients, now, quotas)[quotas[i].key] == Current(clients, quotas[i].key, now)
    {
      OpenedAt(clients, now, quotas, quotas[i].key);
    }
  }

  /** The state after a request. */
  ghost function Taken(clients: Clients, now: int, quotas: seq<Quota>): Clients
  {
    OpenedAll(clients, now, quotas);
    if Admits(clients, now, quotas) then Charged(Opened(clients, now, quotas), quotas) else Opened(clients, now, quotas)
  }

  function Incremented(clients: Clients, key: string): (r: Clients)
    requires key in clients
    ensures r.Keys == clients.Keys
  {
    clients[key := clients[key].(count := clients[key].count + 1)]
  }

  lemma ChargedStep(clients: Clients, quotas: seq<Quota>, n: nat)
    requires n < |quotas| && AllOpen(clients, quotas)
    ensures var before, key := Charged(clients, quotas[..n]), quotas[n].key;
            Charged(clients, quotas[..n + 1]) == Incremented(before, key)
  {
    assert quotas[..n + 1][..n] == quotas[..n];
  }

  /** No quota among the first n has less headroom left than q. */
  predicate Tightest(clients: Clients, quotas: seq<Quota>, n: nat, q: Quota)
    requires n <= |quotas|
  {
    && q.key in clients
    && forall i :: 0 <= i < n ==> quotas[i].key in clients && Headroom(clients, q) <= Headroom(clients, quotas[i])
  }

  /** After charging quota n, the tighter of the tightest so far and quota n is the tightest. */
  lemma TightestStep(before: Clients, after: Clients, quotas: seq<Quota>, n: nat, k: nat)
    requires n < |quotas| && (if n == 0 then k == 0 else k < n) && AllOpen(before, quotas)
    requires after == Incremented(before, quotas[n].key)
    ensures DistinctKeys(quotas) && Tightest(before, quotas, n, quotas[k]) ==>
      Tightest(after, quotas, n + 1,
               if Headroom(after, quotas[n]) < Headroom(after, quotas[k]) then quotas[n] else quotas[k])
  {
    if DistinctKeys(quotas) {
      forall i | 0 <= i < n
        ensures after[quotas[i].key] == before[quotas[i].key]
      {
        assert quotas[i].key != quotas[n].key;
      }
    }
  }

  method ChargeAll(start: Clients, quotas: seq<Quota>) returns (clients: Clients, selected: Quota)
    requires |quotas| > 0 && AllOpen(start, quotas)
    ensures clients == Charged(start, quotas)
    ensures selected in quotas
    ensures DistinctKeys(quotas) ==> Tightest(clients, quotas, |quotas|, selected)
  {
    selected := quotas[0];
    clients := start;
    ghost var k := 0;
    for n := 0 to |quotas|
      invariant clients.Keys == start.Keys && clients == Charged(start, quotas[..n])
      invariant 0 <= k < |quotas| && selected == quotas[k]
      invariant if n == 0 then k == 0 else k < n
      invariant DistinctKeys(quotas) ==> Tightest(clients, quotas, n, selected)
    {
      var q := quotas[n];
      ghost var before := clients;
      ChargedStep(start, quotas, n);
      clients := Incremented(clients, q.key);
      TightestStep(before, clients, quotas, n, k);
      if Headroom(clients, q) < Headroom(clients, selected) {
        selected, k := q, n;
      }
    }
    assert quotas[..|quotas|] == quotas;
  }

  class Limiter {
    var clients: Clients

    constructor ()
      ensures clients == map[]
    {
      clients := map[];
    }

    method Open(now: int, quotas: seq<Quota>)
      modifies this
      ensures clients == Opened(old(clients), now, quotas)
    {
      for i := 0 to |quotas|
        invariant clients == Opened(old(clients), now, quotas[..i])
      {
        assert quotas[..i + 1][..i] == quotas[..i];
        var key := quotas[i].key;
        if key !in clients || clients[key].resetTime <= now {
          clients := clients[key := Client(0, now + WINDOW)];
        } else {
          assert clients == clients[key := clients[key]];
        }
      }
      assert quotas[..|quotas|] == quotas;
    }

    /** Charges every quota once or none; a refusal returns the first exhausted one, a success the tightest. */
    method TakeRateLimitQuotas(now: int, quotas: seq<Quota>) returns (selected: Quota, ok: bool)
      requires |quotas| > 0
      modifies this
      ensures ok <==> Admits(old(clients), now, quotas)
      ensures clients == Taken(old(clients), now, quotas)
      ensures selected in quotas && selected.key in clients
      ensures !ok ==> FirstExhausted(clients, quotas, selected)
      ensures ok && DistinctKeys(quotas) ==> Tightest(clients, quotas, |quotas|, selected)
    {
      ghost var start := clients;
      Open(now, quotas);
      OpenedAll(start, now, quotas);
      var n := 0;
      while n < |quotas|
        invariant 0 <= n <= |quotas|
        invariant clients == Opened(start, now, quotas)
        invariant forall i :: 0 <= i < n ==> !Exhausted(clients, quotas[i])
      {
        if clients[quotas[n].key].count >= quotas[n].limit {
          assert IsFirst(clients, quotas, n);
          return quotas[n], false;
        }
        n := n + 1;
      }
      clients, selected := ChargeAll(clients, quotas);
      ok := true;
    }

    /** The cleanup loop. */
    method Cleanup(now: int)
      modifies this
      ensures clients == Cleaned(old(clients), now)
    {
      var todo := clients.Keys;
      ghost var start := clients;
      while todo != {}
        invariant todo <= start.Keys
        invariant forall k :: k in clients <==> k in start && (k in todo || start[k].resetTime >= now)
        invariant forall k :: k in clients ==> clients[k] == start[k]
      {
        var key :| key in todo;
        if clients[key].resetTime < now {
          clients := clients - {key};
        }
        todo := todo - {key};
      }
    }
  }

  function Cleaned(clients: Clients, now: int): Clients
  {
    map k | k in clients && clients[k].resetTime >= now :: clients[k]
  }

  /** What a request does to each key. */
  lemma TakenAt(clients: Clients, now: int, quotas: seq<Quota>, key: string)
    requires DistinctKeys(quotas)
    ensures AllOpen(Taken(clients, now, quotas), quotas)
    ensures Names(quotas, key) ==>
      && key in Taken(clients, now, quotas)
      && var c := Current(clients, key, now);
         Taken(clients, now, quotas)[key] == if Admits(clients, now, quotas) then c.(count := c.count + 1) else c
    ensures Names(quotas, key) && (key !in clients || clients[key].resetTime <= now) ==>
      Taken(clients, now, quotas)[key].resetTime == now + 60 * 1_000_000_000
    ensures !Names(quotas, key) ==> (key in Taken(clients, now, quotas) <==> key in clients)
    ensures !Names(quotas, key) && key in clients ==> Taken(clients, now, quotas)[key] == clients[key]
  {
    OpenedAll(clients, now, quotas);
    OpenedAt(clients, now, quotas, key);
    if key in Opened(clients, now, quotas) {
      ChargedAt(Opened(clients, now, quotas), quotas, key);
    }
  }

  // ---------------------------------------------------------------------
  // Runs, and the requests accepted on one key
  // ---------------------------------------------------------------------

  /** A request naming quotas, or a cleanup, at a time. */
  datatype Op = Request(now: int, quotas: seq<Quota>) | Sweep(now: int)

  /** One accepted request: when, and when its window began. */
  datatype Hit = Hit(at: int, start: int)

  datatype Track = Track(clients: Clients, clock: int, hits: seq<Hit>)

  /** limitOf: the fixed limit of each key. */
  ghost predicate GoodOp(limitOf: string -> nat, clock: int, op: Op)
  {
    && op.now >= clock
    && (op.Request? ==> DistinctKeys(op.quotas)
                        && forall i :: 0 <= i < |op.quotas| ==> op.quotas[i].limit == limitOf(op.quotas[i].key))
  }

  ghost function Do(clients: Clients, op: Op): Clients
  {
    match op
    case Request(now, quotas) => Taken(clients, now, quotas)
    case Sweep(now) => Cleaned(clients, now)
  }

  ghost predicate Hits(clients: Clients, op: Op, key: string)
  {
    op.Request? && Names(op.quotas, key) && Admits(clients, op.now, op.quotas)
  }

  ghost function Advance(t: Track, op: Op, key: string): Track
  {
    Track(Do(t.clients, op), op.now,
          if Hits(t.clients, op, key)
          then t.hits + [Hit(op.now, Current(t.clients, key, op.now).resetTime - WINDOW)] else t.hits)
  }

  ghost function TrackAfter(key: string, clock: int, ops: seq<Op>): Track
  {
    if ops == [] then Track(map[], clock, [])
    else Advance(TrackAfter(key, clock, ops[..|ops| - 1]), ops[|ops| - 1], key)
  }

  function EndClock(clock: int, ops: seq<Op>): int
  {
    if ops == [] then clock else ops[|ops| - 1].now
  }

  ghost predicate GoodOps(limitOf: string -> nat, clock: int, ops: seq<Op>)
  {
    ops == [] ||
    var rest := ops[..|ops| - 1];
    GoodOps(limitOf, clock, rest) && GoodOp(limitOf, EndClock(clock, rest), ops[|ops| - 1])
  }

  /** Accepted requests of the window that began at start. */
  function InWindow(hits: seq<Hit>, start: int): nat
  {
    if hits == [] then 0
    else InWindow(hits[..|hits| - 1], start) + if hits[|hits| - 1].start == start then 1 else 0
  }

  /** Accepted requests in [from, from + WINDOW). */
  function InInterval(hits: seq<Hit>, from: int): nat
  {
    if hits == [] then 0
    else InInterval(hits[..|hits| - 1], from) + if from <= hits[|hits| - 1].at < from + WINDOW then 1 else 0
  }

  ghost predicate Separate(hits: seq<Hit>)
  {
    && (forall i :: 0 <= i < |hits| ==> hits[i].start <= hits[i].at < hits[i].start + WINDOW)
    && (forall i, j :: 0 <= i < j < |hits| ==>
          hits[i].start == hits[j].start || hits[i].start + WINDOW <= hits[j].start)
  }

  /** Every hit belongs to the window that begins at start or to one that ended before it. */
  ghost predicate UpTo(hits: seq<Hit>, start: int)
  {
    forall i :: 0 <= i < |hits| ==> hits[i].start == start || hits[i].start + WINDOW <= start
  }

  ghost predicate WithinLimit(hits: seq<Hit>, limit: nat)
  {
    forall start :: InWindow(hits, start) <= limit
  }

  ghost predicate Inv(limit: nat, key: string, t: Track)
  {
    && Separate(t.hits)
    && WithinLimit(t.hits, limit)
    && (key !in t.clients ==> forall i :: 0 <= i < |t.hits| ==> t.hits[i].start + WINDOW <= t.clock)
    && (key in t.clients ==> Counts(t.hits, t.clients[key]) && t.clients[key].resetTime - WINDOW <= t.clock)
  }

  /** The counter holds the hits of its own window, and no hit is of a later one. */
  ghost predicate Counts(hits: seq<Hit>, c: Client)
  {
    var start := c.resetTime - WINDOW;
    UpTo(hits, start) && c.count == InWindow(hits, start)
  }

  lemma {:induction false} NoHitsInWindow(hits: seq<Hit>, start: int)
    requires forall i :: 0 <= i < |hits| ==> hits[i].start != start
    ensures InWindow(hits, start) == 0
  {
    if hits != [] {
      NoHitsInWindow(hits[..|hits| - 1], start);
    }
  }

  /** The counter a request sees is the number of hits of the window it belongs to. */
  lemma CurrentCounts(limit: nat, key: string, t: Track, now: int)
    requires Inv(limit, key, t) && now >= t.clock
    ensures var c := Current(t.clients, key, now);
            Counts(t.hits, c) && c.resetTime - WINDOW <= now < c.resetTime
  {
    if Expired(t.clients, key, now) {
      assert forall i :: 0 <= i < |t.hits| ==> t.hits[i].start + WINDOW <= now;
      NoHitsInWindow(t.hits, now);
    }
  }

  lemma HitAppended(limit: nat, hits: seq<Hit>, h: Hit, c: Client)
    requires Separate(hits) && h.start <= h.at < h.start + WINDOW && h.start == c.resetTime - WINDOW
    requires WithinLimit(hits, limit) && Counts(hits, c) && c.count < limit
    ensures Separate(hits + [h]) && WithinLimit(hits + [h], limit)
    ensures Counts(hits + [h], c.(count := c.count + 1))
  {
    SeparateAppended(hits, h);
    InWindowAppended(hits, h, h.start);
    forall start
      ensures InWindow(hits + [h], start) <= limit
    {
      InWindowAppended(hits, h, start);
    }
  }

  lemma SeparateAppended(hits: seq<Hit>, h: Hit)
    requires Separate(hits) && UpTo(hits, h.start) && h.start <= h.at < h.start + WINDOW
    ensures Separate(hits + [h]) && UpTo(hits + [h], h.start)
  {
    var all := hits + [h];
    assert forall i :: 0 <= i < |hits| ==> all[i] == hits[i];
  }

  lemma InWindowAppended(hits: seq<Hit>, h: Hit, start: int)
    ensures InWindow(hits + [h], start) == InWindow(hits, start) + if start == h.start then 1 else 0
  {
    assert (hits + [h])[..|hits|] == hits;
  }

  lemma HitKeepsInv(limitOf: string -> nat, key: string, t: Track, op: Op)
    requires Inv(limitOf(key), key, t) && GoodOp(limitOf, t.clock, op) && Hits(t.clients, op, key)
    ensures Inv(limitOf(key), key, Advance(t, op, key))
  {
    var c := Current(t.clients, key, op.now);
    assert c.count < limitOf(key) by {
      var i :| 0 <= i < |op.quotas| && op.quotas[i].key == key;
      assert c.count < op.quotas[i].limit;
    }
    assert Advance(t, op, key).clients[key] == c.(count := c.count + 1) by {
      TakenAt(t.clients, op.now, op.quotas, key);
    }
    CurrentCounts(limitOf(key), key, t, op.now);
    ChargedTrack(limitOf(key), key, t.hits, c, Advance(t, op, key));
  }

  lemma ChargedTrack(limit: nat, key: string, hits: seq<Hit>, c: Client, t': Track)
    requires Separate(hits) && WithinLimit(hits, limit) && Counts(hits, c) && c.count < limit
    requires c.resetTime - WINDOW <= t'.clock < c.resetTime
    requires t'.hits == hits + [Hit(t'.clock, c.resetTime - WINDOW)]
    requires key in t'.clients && t'.clients[key] == c.(count := c.count + 1)
    ensures Inv(limit, key, t')
  {
    HitAppended(limit, hits, Hit(t'.clock, c.resetTime - WINDOW), c);
  }

  lemma MissKeepsInv(limitOf: string -> nat, key: string, t: Track, op: Op)
    requires Inv(limitOf(key), key, t) && GoodOp(limitOf, t.clock, op) && op.Request? && !Hits(t.clients, op, key)
    ensures Inv(limitOf(key), key, Advance(t, op, key))
  {
    TakenAt(t.clients, op.now, op.quotas, key);
    CurrentCounts(limitOf(key), key, t, op.now);
  }

  lemma SweepKeepsInv(limit: nat, key: string, t: Track, op: Op)
    requires Inv(limit, key, t) && op.now >= t.clock && op.Sweep?
    ensures Inv(limit, key, Advance(t, op, key))
  {
  }

  lemma {:induction false} RunKeepsInv(limitOf: string -> nat, key: string, clock: int, ops: seq<Op>)
    requires GoodOps(limitOf, clock, ops)
    ensures Inv(limitOf(key), key, TrackAfter(key, clock, ops))
    ensures TrackAfter(key, clock, ops).clock == EndClock(clock, ops)
  {
    if ops != [] {
      var rest, last := ops[..|ops| - 1], ops[|ops| - 1];
      RunKeepsInv(limitOf, key, clock, rest);
      var t := TrackAfter(key, clock, rest);
      if last.Sweep? {
        SweepKeepsInv(limitOf(key), key, t, last);
      } else if Hits(t.clients, last, key) {
        HitKeepsInv(limitOf, key, t, last);
      } else {
        MissKeepsInv(limitOf, key, t, last);
      }
    }
  }

  /** Over any run, no window of a key accepts more than the key's limit. */
  lemma WindowLimit(limitOf: string -> nat, key: string, clock: int, ops: seq<Op>, start: int)
    requires GoodOps(limitOf, clock, ops)
    ensures InWindow(TrackAfter(key, clock, ops).hits, start) <= limitOf(key)
  {
    RunKeepsInv(limitOf, key, clock, ops);
  }

  /** The clients a run leads to do not depend on the key that is tracked. */
  lemma {:induction false} SameClients(a: string, b: string, clock: int, ops: seq<Op>)
    ensures TrackAfter(a, clock, ops).clients == TrackAfter(b, clock, ops).clients
  {
    if ops != [] {
      SameClients(a, b, clock, ops[..|ops| - 1]);
    }
  }

  /** A request is refused only when one of its keys has used up its limit in the running window. */
  lemma RefusalIsJustified(limitOf: string -> nat, key: string, clock: int, ops: seq<Op>, now: int, quotas: seq<Quota>)
    returns (full: Quota, start: int)
    requires GoodOps(limitOf, clock, ops) && GoodOp(limitOf, EndClock(clock, ops), Request(now, quotas))
    requires !Admits(TrackAfter(key, clock, ops).clients, now, quotas)
    ensures full in quotas && start <= now < start + 60 * 1_000_000_000
    ensures InWindow(TrackAfter(full.key, clock, ops).hits, start) == limitOf(full.key)
  {
    var clients := TrackAfter(key, clock, ops).clients;
    var i :| 0 <= i < |quotas| && Current(clients, quotas[i].key, now).count >= quotas[i].limit;
    full := quotas[i];
    SameClients(key, full.key, clock, ops);
    start := FullWindow(limitOf, full.key, clock, ops, now);
  }

  lemma FullWindow(limitOf: string -> nat, key: string, clock: int, ops: seq<Op>, now: int) returns (start: int)
    requires GoodOps(limitOf, clock, ops) && now >= EndClock(clock, ops)
    requires Current(TrackAfter(key, clock, ops).clients, key, now).count >= limitOf(key)
    ensures start <= now < start + WINDOW
    ensures InWindow(TrackAfter(key, clock, ops).hits, start) == limitOf(key)
  {
    RunKeepsInv(limitOf, key, clock, ops);
    var t := TrackAfter(key, clock, ops);
    CurrentCounts(limitOf(key), key, t, now);
    start := Current(t.clients, key, now).resetTime - WINDOW;
  }

  /** Everything accepted in [from, from + WINDOW) is of the window that began at a or of the one at b. */
  ghost predicate CoveredBy(hits: seq<Hit>, from: int, a: int, b: int)
  {
    forall i :: 0 <= i < |hits| && from <= hits[i].at < from + WINDOW ==> hits[i].start == a || hits[i].start == b
  }

  /** Two windows cover everything accepted in an interval of window length. */
  lemma TwoWindowsCover(hits: seq<Hit>, from: int) returns (a: int, b: int)
    requires Separate(hits)
    ensures CoveredBy(hits, from, a, b)
  {
    a, b := 0, 0;
    if i :| 0 <= i < |hits| && from <= hits[i].at < from + WINDOW {
      a, b := hits[i].start, hits[i].start;
      if j :| 0 <= j < |hits| && from <= hits[j].at < from + WINDOW && hits[j].start != a {
        b := hits[j].start;
        forall k | 0 <= k < |hits| && from <= hits[k].at < from + WINDOW
          ensures hits[k].start == a || hits[k].start == b
        {
          SeparateStarts(hits, i, j);
          SeparateStarts(hits, i, k);
          SeparateStarts(hits, j, k);
        }
      }
    }
  }

  lemma SeparateStarts(hits: seq<Hit>, i: nat, j: nat)
    requires Separate(hits) && i < |hits| && j < |hits|
    ensures var a, b := hits[i].start, hits[j].start; a == b || a + WINDOW <= b || b + WINDOW <= a
  {
  }

  lemma {:induction false} CoveredCount(hits: seq<Hit>, from: int, a: int, b: int)
    requires CoveredBy(hits, from, a, b)
    ensures InInterval(hits, from) <= InWindow(hits, a) + InWindow(hits, b)
  {
    if hits != [] {
      CoveredCount(hits[..|hits| - 1], from, a, b);
    }
  }

  /** Over any run, any half-open interval of one window length accepts at most twice the limit. */
  lemma IntervalLimit(limitOf: string -> nat, key: string, clock: int, ops: seq<Op>, from: int)
    requires GoodOps(limitOf, clock, ops)
    ensures InInterval(TrackAfter(key, clock, ops).hits, from) <= 2 * limitOf(key)
  {
    RunKeepsInv(limitOf, key, clock, ops);
    var hits := TrackAfter(key, clock, ops).hits;
    var a, b := TwoWindowsCover(hits, from);
    CoveredCount(hits, from, a, b);
  }

  // ---------------------------------------------------------------------
  // Deleting expired entries changes no outcome
  // ---------------------------------------------------------------------

  /** What a request tells its caller: whether it was admitted and, per quota, the state it left. */
  ghost function Answer(clients: Clients, now: int, quotas: seq<Quota>): (bool, seq<Client>)
    requires DistinctKeys(quotas)
  {
    TakenAt(clients, now, quotas, "");
    (Admits(clients, now, quotas),
     seq(|quotas|, i requires 0 <= i < |quotas| => Taken(clients, now, quotas)[quotas[i].key]))
  }

  ghost predicate Requests(clock: int, ops: seq<Op>)
    decreases |ops|
  {
    ops == [] ||
    (ops[0].now >= clock && (ops[0].Request? ==> DistinctKeys(ops[0].quotas)) && Requests(ops[0].now, ops[1..]))
  }

  ghost function Answers(clients: Clients, clock: int, ops: seq<Op>): seq<(bool, seq<Client>)>
    requires Requests(clock, ops)
    decreases |ops|
  {
    if ops == [] then []
    else (if ops[0].Request? then [Answer(clients, ops[0].now, ops[0].quotas)] else [])
         + Answers(Do(clients, ops[0]), ops[0].now, ops[1..])
  }

  /** Replaces every cleanup by nothing at all. */
  ghost function AnswersWithoutSweeps(clients: Clients, clock: int, ops: seq<Op>): seq<(bool, seq<Client>)>
    requires Requests(clock, ops)
    decreases |ops|
  {
    if ops == [] then []
    else if ops[0].Request? then
      [Answer(clients, ops[0].now, ops[0].quotas)] + AnswersWithoutSweeps(Do(clients, ops[0]), ops[0].now, ops[1..])
    else AnswersWithoutSweeps(clients, ops[0].now, ops[1..])
  }

  /** Equal, or both over by now. */
  ghost predicate Similar(a: Clients, b: Clients, now: int)
  {
    forall key :: SimilarAt(a, b, key, now)
  }

  ghost predicate SimilarAt(a: Clients, b: Clients, key: string, now: int)
  {
    (Expired(a, key, now) && Expired(b, key, now)) || (key in a && key in b && a[key] == b[key])
  }

  lemma SimilarRequest(a: Clients, b: Clients, clock: int, now: int, quotas: seq<Quota>)
    requires Similar(a, b, clock) && now >= clock && DistinctKeys(quotas)
    ensures Answer(a, now, quotas) == Answer(b, now, quotas)
    ensures Similar(Taken(a, now, quotas), Taken(b, now, quotas), now)
  {
    forall key
      ensures Current(a, key, now) == Current(b, key, now)
    {
      assert SimilarAt(a, b, key, clock);
    }
    forall key
      ensures SimilarAt(Taken(a, now, quotas), Taken(b, now, quotas), key, now)
    {
      assert SimilarAt(a, b, key, clock);
      TakenAt(a, now, quotas, key);
      TakenAt(b, now, quotas, key);
    }
    forall i | 0 <= i < |quotas|
      ensures Answer(a, now, quotas).1[i] == Answer(b, now, quotas).1[i]
    {
      TakenAt(a, now, quotas, quotas[i].key);
      TakenAt(b, now, quotas, quotas[i].key);
    }
    assert Admits(a, now, quotas) == Admits(b, now, quotas);
    assert Answer(a, now, quotas).1 == Answer(b, now, quotas).1;
  }

  lemma SimilarSweep(a: Clients, b: Clients, clock: int, now: int)
    requires Similar(a, b, clock) && now >= clock
    ensures Similar(Cleaned(a, now), b, now)
  {
    forall key
      ensures SimilarAt(Cleaned(a, now), b, key, now)
    {
      assert SimilarAt(a, b, key, clock);
    }
  }

  lemma {:induction false} SimilarAnswers(a: Clients, b: Clients, clock: int, ops: seq<Op>)
    requires Similar(a, b, clock) && Requests(clock, ops)
    ensures Answers(a, clock, ops) == AnswersWithoutSweeps(b, clock, ops)
    decreases |ops|
  {
    if ops != [] {
      var op := ops[0];
      if op.Request? {
        SimilarRequest(a, b, clock, op.now, op.quotas);
        SimilarAnswers(Do(a, op), Do(b, op), op.now, ops[1..]);
      } else {
        SimilarSweep(a, b, clock, op.now);
        SimilarAnswers(Do(a, op), b, op.now, ops[1..]);
      }
    }
  }

  /** Whenever the cleanup loop runs, every request is answered as if it never had. */
  lemma CleanupIsUnobservable(clients: Clients, clock: int, ops: seq<Op>)
    requires Requests(clock, ops)
    ensures Answers(clients, clock, ops) == AnswersWithoutSweeps(clients, clock, ops)
  {
    assert forall key :: SimilarAt(clients, clients, key, clock);
    SimilarAnswers(clients, clients, clock, ops);
  }
}
