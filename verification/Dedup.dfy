/**
  Notification dedup state (internal/alert/manager.go and replication.go).

  A record per (rule, soul, status) key remembers when an alert was last
  accepted; a claim remembers which event wrote the record, so that a delivery
  failure releases only its own reservation. An offer claims its key and is
  queued or dropped in two critical sections; what other nodes share may arrive
  in between. Time is an integer in nanoseconds, passed to every step.
 */
module Dedup {
  import opened Options

  const DEFAULT_WINDOW := 300_000_000_000 // five minutes

  datatype Entry = Entry(key: string, channelId: string, count: int, firstSent: int, lastSent: int, status: string)

  datatype Event = Event(id: string, ruleId: string, soulId: string, status: string, kind: string)

  datatype Rule = Rule(id: string, cooldown: int)

  datatype State = State(entries: map<string, Entry>, claims: map<string, string>)

  // ---------------------------------------------------------------------
  // Keys
  // ---------------------------------------------------------------------

  function DedupStatus(event: Event): string
  {
    if event.kind != "" then event.kind else event.status
  }

  function DedupKey(ruleId: string, soulId: string, status: string): string
  {
    "dedup:" + ruleId + ":" + soulId + ":" + status
  }

  function EventKey(event: Event): string
  {
    DedupKey(event.ruleId, event.soulId, DedupStatus(event))
  }

  predicate HasPrefix(s: string, prefix: string)
  {
    prefix <= s
  }

  predicate SharedHistoryKey(key: string)
  {
    HasPrefix(key, "dedup:") || HasPrefix(key, "ratelimit:")
  }

  /** The part of a key after its last colon. */
  function AfterLastColon(s: string): string
  {
    if s == "" || s[|s| - 1] == ':' then "" else AfterLastColon(s[..|s| - 1]) + [s[|s| - 1]]
  }

  lemma {:induction false} AfterLastColonOfStatus(prefix: string, status: string)
    requires ':' !in status
    ensures AfterLastColon(prefix + ":" + status) == status
  {
    var s := prefix + ":" + status;
    if status == "" {
      assert s[|s| - 1] == ':';
    } else {
      var shorter := status[..|status| - 1];
      AfterLastColonOfStatus(prefix, shorter);
      assert s[..|s| - 1] == prefix + ":" + shorter;
      assert s[|s| - 1] == status[|status| - 1] != ':';
    }
  }

  /** IDs may contain colons, so keys may collide across rules and souls, but never across statuses. */
  lemma KeyDeterminesStatus(ruleId: string, soulId: string, status: string)
    requires ':' !in status
    ensures AfterLastColon(DedupKey(ruleId, soulId, status)) == status
    ensures HasPrefix(DedupKey(ruleId, soulId, status), "dedup:")
  {
    AfterLastColonOfStatus("dedup:" + ruleId + ":" + soulId, status);
    assert DedupKey(ruleId, soulId, status) == ("dedup:" + ruleId + ":" + soulId) + ":" + status;
  }

  /** One alarm: rule, soul, and what the event says happened, which is its kind if it has one and its status if not. */
  predicate SameAlarm(a: Event, b: Event)
  {
    && a.ruleId == b.ruleId && a.soulId == b.soulId
    && if a.kind == "" && b.kind == "" then a.status == b.status
       else if a.kind != "" && b.kind != "" then a.kind == b.kind
       else if a.kind == "" then a.status == b.kind else a.kind == b.status
  }

  predicate PlainIds(event: Event)
  {
    ':' !in event.ruleId && ':' !in event.soulId
  }

  lemma SplitAtColon(x: string, u: string, y: string, v: string)
    requires ':' !in x && ':' !in y && x + ":" + u == y + ":" + v
    ensures x == y && u == v
  {
    var s := x + ":" + u;
    assert s[|x|] == ':' && s[|y|] == ':' && s == y + ":" + v;
    assert s[..|x|] == x && s[..|y|] == y && s[|x| + 1..] == u && s[|y| + 1..] == v;
  }

  /** Where IDs hold no separator, two events share a key exactly when they are one alarm. */
  lemma OneKeyPerAlarm(a: Event, b: Event)
    ensures SameAlarm(a, b) ==> EventKey(a) == EventKey(b)
    ensures PlainIds(a) && PlainIds(b) ==> (EventKey(a) == EventKey(b) <==> SameAlarm(a, b))
  {
    if PlainIds(a) && PlainIds(b) && EventKey(a) == EventKey(b) {
      KeyTail(a);
      KeyTail(b);
      SplitAtColon(a.ruleId, a.soulId + ":" + DedupStatus(a), b.ruleId, b.soulId + ":" + DedupStatus(b));
      SplitAtColon(a.soulId, DedupStatus(a), b.soulId, DedupStatus(b));
    }
  }

  lemma KeyTail(a: Event)
    ensures EventKey(a)[6..] == a.ruleId + ":" + (a.soulId + ":" + DedupStatus(a))
  {
    assert EventKey(a) == "dedup:" + (a.ruleId + ":" + (a.soulId + ":" + DedupStatus(a)));
  }

  /** With separators in IDs two alarms may share a key. */
  lemma ColonIdsCollide(status: string)
    ensures DedupKey("a:b", "c", status) == DedupKey("a", "b:c", status)
  {
    assert "a:b" + ":" + "c" == "a" + ":" + "b:c";
  }

  // ---------------------------------------------------------------------
  // Operations as functions of the state
  // ---------------------------------------------------------------------

  function Window(rule: Rule): int
  {
    if rule.cooldown == 0 then DEFAULT_WINDOW else rule.cooldown
  }

  /** isDuplicate's answer, including the branch for a record with another status. */
  predicate Suppressed(s: State, rule: Rule, event: Event, now: int)
  {
    var key := DedupKey(rule.id, event.soulId, DedupStatus(event));
    && key in s.entries
    && now - s.entries[key].lastSent < Window(rule)
    && s.entries[key].status == DedupStatus(event)
  }

  function Claimed(s: State, rule: Rule, event: Event, now: int): State
  {
    var status := DedupStatus(event);
    var key := DedupKey(rule.id, event.soulId, status);
    var entry :=
      if key !in s.entries then Entry(key, rule.id, 1, now, now, status)
      else if now - s.entries[key].lastSent >= Window(rule) then
        s.entries[key].(firstSent := now, lastSent := now, count := 1)
      else s.entries[key].(firstSent := now, lastSent := now, count := 1, status := status);
    State(s.entries[key := entry], s.claims[key := event.id])
  }

  function Released(s: State, event: Event): State
  {
    var key := EventKey(event);
    if event.ruleId == "" || key !in s.claims || s.claims[key] != event.id then s
    else State(s.entries - {key}, s.claims - {key})
  }

  function Loaded(s: State, entry: Entry): State
  {
    if !SharedHistoryKey(entry.key) then s
    else if entry.key !in s.entries then s.(entries := s.entries[entry.key := entry])
    else if s.entries[entry.key].lastSent > entry.lastSent then s
    else State(s.entries[entry.key := entry],
               if s.entries[entry.key].lastSent < entry.lastSent then s.claims - {entry.key} else s.claims)
  }

  function Unloaded(s: State, key: string): State
  {
    State(s.entries - {key}, s.claims - {key})
  }

  /** A record or a release shared by another node. It takes only the history lock. */
  datatype Arrival = Load(entry: Entry) | Unload(key: string)

  function Arrived(s: State, a: Arrival): State
  {
    match a case Load(entry) => Loaded(s, entry) case Unload(key) => Unloaded(s, key)
  }

  function ArrivedAll(s: State, arrivals: seq<Arrival>): State
  {
    if arrivals == [] then s else Arrived(ArrivedAll(s, arrivals[..|arrivals| - 1]), arrivals[|arrivals| - 1])
  }

  /** The first critical section of an offer: suppressed, or claimed. */
  function Tried(s: State, rule: Rule, event: Event, now: int): State
  {
    if Suppressed(s, rule, event, now) then s else Claimed(s, rule, event, now)
  }

  /** The second one, when the queue has taken the alert or was full. */
  function Settled(s: State, event: Event, room: bool): State
  {
    if room then s else Released(s, event)
  }

  // ---------------------------------------------------------------------
  // The manager
  // ---------------------------------------------------------------------

  /** What became of one channel of a dispatch: not attempted, or attempted with a result. */
  datatype Send = Skipped | Delivered | Failed

  class Manager {
    var entries: map<string, Entry>
    var claims: map<string, string>
    var queue: seq<Event>
    const capacity: nat

    constructor (capacity: nat)
      ensures Contents() == State(map[], map[]) && queue == [] && this.capacity == capacity
    {
      entries, claims, queue := map[], map[], [];
      this.capacity := capacity;
    }

    function Contents(): State
      reads this
    {
      State(entries, claims)
    }

    method IsDuplicate(rule: Rule, event: Event, now: int) returns (duplicate: bool)
      modifies this
      ensures var status := if event.kind == "" then event.status else event.kind;
              var key := "dedup:" + rule.id + ":" + event.soulId + ":" + status;
              var cooldown := if rule.cooldown == 0 then 5 * 60 * 1_000_000_000 else rule.cooldown;
              && (duplicate <==> key in old(entries) && old(entries)[key].status == status
                                 && now < old(entries)[key].lastSent + cooldown)
              && (!duplicate ==>
                    && key in entries && entries[key].firstSent == entries[key].lastSent == now
                    && entries[key].count == 1 && key in claims && claims[key] == event.id)
      ensures duplicate == Suppressed(old(Contents()), rule, event, now)
      ensures Contents() == if duplicate then old(Contents()) else Claimed(old(Contents()), rule, event, now)
      ensures queue == old(queue)
    {
      var status := DedupStatus(event);
      var key := DedupKey(rule.id, event.soulId, status);
      if key !in entries {
        entries := entries[key := Entry(key, rule.id, 1, now, now, status)];
        claims := claims[key := event.id];
        return false;
      }
      var entry := entries[key];
      var dedupWindow := rule.cooldown;
      if dedupWindow == 0 {
        dedupWindow := DEFAULT_WINDOW;
      }
      if now - entry.lastSent >= dedupWindow {
        entries := entries[key := entry.(firstSent := now, lastSent := now, count := 1)];
        claims := claims[key := event.id];
        return false;
      }
      if entry.status != status {
        entries := entries[key := entry.(firstSent := now, lastSent := now, count := 1, status := status)];
        claims := claims[key := event.id];
        return false;
      }
      return true;
    }

    method ReleaseDedup(event: Event)
      modifies this
      ensures Contents() == Released(old(Contents()), event) && queue == old(queue)
    {
      if event.ruleId == "" { return; }
      var key := EventKey(event);
      if key !in claims || claims[key] != event.id { return; }
      claims := claims - {key};
      entries := entries - {key};
    }

    /** arrivals: what other nodes shared while the claim stood and the alert was not queued yet. */
    method EnqueueAlert(rule: Rule, event: Event, now: int, arrivals: seq<Arrival>) returns (duplicate: bool)
      modifies this
      ensures duplicate == Suppressed(old(Contents()), rule, event, now)
      ensures duplicate ==> Contents() == old(Contents()) && queue == old(queue)
      ensures var room := |old(queue)| < capacity;
              !duplicate ==>
                && Contents() == Settled(ArrivedAll(Claimed(old(Contents()), rule, event, now), arrivals), event, room)
                && queue == old(queue) + if room then [event] else []
    {
      duplicate := IsDuplicate(rule, event, now);
      if duplicate { return; }
      Receive(arrivals);
      if |queue| < capacity {
        queue := queue + [event];
      } else {
        ReleaseDedup(event);
      }
    }

    method Receive(arrivals: seq<Arrival>)
      modifies this
      ensures Contents() == ArrivedAll(old(Contents()), arrivals) && queue == old(queue)
    {
      for i := 0 to |arrivals|
        invariant Contents() == ArrivedAll(old(Contents()), arrivals[..i]) && queue == old(queue)
      {
        match arrivals[i] {
          case Load(entry) => LoadDedupState(entry);
          case Unload(key) => UnloadDedupState(key);
        }
        assert arrivals[..i + 1][..i] == arrivals[..i];
      }
      assert arrivals[..|arrivals|] == arrivals;
    }

    /** Only an alert that was attempted and reached nobody gives its reservation back. */
    method Dispatch(event: Event, sends: seq<Send>)
      modifies this
      ensures Contents() == if Failed in sends && Delivered !in sends then Released(old(Contents()), event)
                            else old(Contents())
      ensures queue == old(queue)
    {
      var attempted, delivered := 0, 0;
      for i := 0 to |sends|
        invariant 0 <= delivered <= attempted
        invariant delivered > 0 <==> Delivered in sends[..i]
        invariant attempted > delivered <==> Failed in sends[..i]
        invariant Contents() == old(Contents()) && queue == old(queue)
      {
        assert sends[..i + 1] == sends[..i] + [sends[i]];
        if sends[i] != Skipped {
          attempted := attempted + 1;
          if sends[i] == Delivered {
            delivered := delivered + 1;
          }
        }
      }
      assert sends[..|sends|] == sends;
      if attempted > 0 && delivered == 0 {
        ReleaseDedup(event);
      }
    }

    method LoadDedupState(entry: Entry)
      modifies this
      ensures if "dedup:" <= entry.key || "ratelimit:" <= entry.key
              then entry.key in entries && entries[entry.key].lastSent >= entry.lastSent
              else Contents() == old(Contents())
      ensures Contents() == Loaded(old(Contents()), entry) && queue == old(queue)
    {
      if !SharedHistoryKey(entry.key) { return; }
      if entry.key in entries {
        var existing := entries[entry.key];
        if existing.lastSent > entry.lastSent { return; }
        if existing.lastSent < entry.lastSent {
          claims := claims - {entry.key};
        }
      }
      entries := entries[entry.key := entry];
    }

    method UnloadDedupState(key: string)
      modifies this
      ensures Contents() == Unloaded(old(Contents()), key) && queue == old(queue)
    {
      entries := entries - {key};
      claims := claims - {key};
    }
  }

  // ---------------------------------------------------------------------
  // Runs of one node
  // ---------------------------------------------------------------------

  /** Claim and Settle are the two critical sections of one offer; other nodes' records may arrive in between. */
  datatype Op =
    | Claim(rule: Rule, event: Event, now: int)
    | Settle(event: Event, room: bool)
    | Fail(event: Event)
    | Arrive(a: Arrival)

  /** A dedup record written by any node carries the status of its key. */
  predicate GoodRecord(key: string, entry: Entry)
  {
    HasPrefix(key, "dedup:") ==> entry.status == AfterLastColon(key)
  }

  predicate GoodArrival(a: Arrival)
  {
    a.Load? ==> GoodRecord(a.entry.key, a.entry)
  }

  /** The cooldown of a key never changes; the event belongs to a rule with an ID; statuses hold no colon. */
  predicate GoodOffer(cool: string -> int, rule: Rule, event: Event)
  {
    event.ruleId == rule.id != "" && ':' !in DedupStatus(event) && Window(rule) == cool(EventKey(event))
  }

  /** One alert that took its claim. */
  datatype Sent = Sent(event: Event, at: int)

  /**
    alerts: every alert that took its claim and was not dropped, in order; the
    last one is not queued yet while unsettled holds. freed: IDs of those whose
    reservation was released.
   */
  datatype World = World(s: State, clock: int, alerts: seq<Sent>, unsettled: bool, freed: set<string>)

  function Last<T>(s: seq<T>): T
    requires s != []
  {
    s[|s| - 1]
  }

  /** Offers and releases exclude each other by a lock that arrivals do not take. */
  predicate Enabled(cool: string -> int, w: World, op: Op)
  {
    match op
    case Claim(rule, event, now) =>
      && !w.unsettled && now >= w.clock && GoodOffer(cool, rule, event)
      && event.id !in w.freed && forall i :: 0 <= i < |w.alerts| ==> w.alerts[i].event.id != event.id
    case Settle(event, _) => w.unsettled && w.alerts != [] && Last(w.alerts).event == event
    case Fail(event) => !w.unsettled && exists i :: 0 <= i < |w.alerts| && w.alerts[i].event == event
    case Arrive(a) => GoodArrival(a)
  }

  function Do(w: World, op: Op): World
  {
    match op
    case Claim(rule, event, now) =>
      if Suppressed(w.s, rule, event, now) then w.(clock := now)
      else World(Claimed(w.s, rule, event, now), now, w.alerts + [Sent(event, now)], true, w.freed)
    case Settle(event, room) =>
      World(Settled(w.s, event, room), w.clock,
            if room || w.alerts == [] then w.alerts else w.alerts[..|w.alerts| - 1], false, w.freed)
    case Fail(event) =>
      w.(s := Released(w.s, event), freed := if Released(w.s, event) != w.s then w.freed + {event.id} else w.freed)
    case Arrive(a) => w.(s := Arrived(w.s, a))
  }

  ghost predicate StepAt(cool: string -> int, worlds: seq<World>, ops: seq<Op>, i: int)
    requires 0 <= i < |ops| && |worlds| == |ops| + 1
  {
    Enabled(cool, worlds[i], ops[i]) && worlds[i + 1] == Do(worlds[i], ops[i])
  }

  ghost predicate Run(cool: string -> int, worlds: seq<World>, ops: seq<Op>)
  {
    && |worlds| == |ops| + 1
    && worlds[0].s == State(map[], map[]) && worlds[0].alerts == [] && worlds[0].freed == {} && !worlds[0].unsettled
    && forall i :: 0 <= i < |ops| ==> StepAt(cool, worlds, ops, i)
  }

  // ---------------------------------------------------------------------
  // Claims and records
  // ---------------------------------------------------------------------

  /** A claim implies a record; every record carries the status of its key. */
  ghost predicate Sound(s: State)
  {
    && s.claims.Keys <= s.entries.Keys
    && forall key :: key in s.entries ==> GoodRecord(key, s.entries[key])
  }

  /** The claim on key was taken by alert i, whose time is the record's. */
  predicate IsTaker(w: World, key: string, i: int)
  {
    && key in w.s.claims && key in w.s.entries && 0 <= i < |w.alerts|
    && w.alerts[i].event.id == w.s.claims[key]
    && EventKey(w.alerts[i].event) == key && w.alerts[i].at == w.s.entries[key].lastSent
  }

  ghost predicate Taken(w: World, key: string)
  {
    exists i :: IsTaker(w, key, i)
  }

  ghost predicate DistinctIds(w: World)
  {
    forall i, j :: 0 <= i < j < |w.alerts| ==> w.alerts[i].event.id != w.alerts[j].event.id
  }

  ghost predicate ClaimInv(w: World)
  {
    && Sound(w.s)
    && DistinctIds(w)
    && (w.unsettled ==> w.alerts != [] && Last(w.alerts).event.ruleId != "")
    && forall key :: key in w.s.claims ==> Taken(w, key)
  }

  /** With the status in the key, a record inside its window is always a duplicate. */
  lemma WindowDecides(s: State, rule: Rule, event: Event, now: int)
    requires Sound(s) && event.ruleId == rule.id && ':' !in DedupStatus(event)
    ensures var key := EventKey(event);
            Suppressed(s, rule, event, now) <==> key in s.entries && now - s.entries[key].lastSent < Window(rule)
  {
    KeyDeterminesStatus(rule.id, event.soulId, DedupStatus(event));
  }

  lemma ClaimedIsSound(s: State, rule: Rule, event: Event, now: int)
    requires Sound(s) && event.ruleId == rule.id && ':' !in DedupStatus(event)
    ensures Sound(Claimed(s, rule, event, now))
  {
    KeyDeterminesStatus(rule.id, event.soulId, DedupStatus(event));
  }

  /** What a try does to the state, away from its key and at it. */
  lemma TryEffect(s: State, rule: Rule, event: Event, now: int)
    requires Sound(s) && event.ruleId == rule.id && ':' !in DedupStatus(event)
    ensures var key, s', duplicate := EventKey(event), Tried(s, rule, event, now), Suppressed(s, rule, event, now);
            && Sound(s')
            && SameExceptAt(s, s', key)
            && (duplicate <==> key in s.entries && now - s.entries[key].lastSent < Window(rule))
            && (duplicate ==> s' == s)
            && (!duplicate ==> SentAt(s', key) == Some(now) && ClaimAt(s', key) == Some(event.id))
  {
    WindowDecides(s, rule, event, now);
    ClaimedIsSound(s, rule, event, now);
  }

  ghost predicate SameExceptAt(s: State, s': State, key: string)
  {
    forall k :: k != key ==> SameAt(s, s', k)
  }

  /** Same record time and same claim. */
  predicate SameAt(s: State, s': State, k: string)
  {
    SentAt(s, k) == SentAt(s', k) && ClaimAt(s, k) == ClaimAt(s', k)
  }

  function SentAt(s: State, key: string): Option<int>
  {
    if key in s.entries then Some(s.entries[key].lastSent) else None
  }

  function ClaimAt(s: State, key: string): Option<string>
  {
    if key in s.claims then Some(s.claims[key]) else None
  }

  lemma TakerCarriesOver(w: World, w': World, k: string)
    requires Taken(w, k) && w.alerts <= w'.alerts && SameAt(w.s, w'.s, k)
    ensures Taken(w', k)
  {
    var i :| IsTaker(w, k, i);
    assert w'.alerts[i] == w.alerts[i];
    assert IsTaker(w', k, i);
  }

  lemma ClaimKeepsClaimInv(cool: string -> int, w: World, op: Op)
    requires ClaimInv(w) && Enabled(cool, w, op) && op.Claim?
    ensures ClaimInv(Do(w, op))
  {
    var w', key := Do(w, op), EventKey(op.event);
    TryEffect(w.s, op.rule, op.event, op.now);
    forall k | k in w'.s.claims
      ensures Taken(w', k)
    {
      if k == key && !Suppressed(w.s, op.rule, op.event, op.now) {
        assert IsTaker(w', k, |w.alerts|);
      } else {
        assert SameAt(w.s, w'.s, k);
        TakerCarriesOver(w, w', k);
      }
    }
  }

  /** A dropped alert takes its claim with it, so nobody refers to it any more. */
  lemma DropKeepsClaimInv(w: World, w': World)
    requires ClaimInv(w) && w.unsettled
    requires w' == World(Released(w.s, Last(w.alerts).event), w.clock, w.alerts[..|w.alerts| - 1], false, w.freed)
    ensures ClaimInv(w')
  {
    forall k | k in w'.s.claims
      ensures Taken(w', k)
    {
      assert Taken(w, k);
      SurvivingTaker(w, w', k);
    }
  }

  lemma SurvivingTaker(w: World, w': World, k: string)
    requires w.alerts != [] && Last(w.alerts).event.ruleId != "" && Taken(w, k) && k in w'.s.claims
    requires w'.s == Released(w.s, Last(w.alerts).event) && w'.alerts == w.alerts[..|w.alerts| - 1]
    ensures Taken(w', k)
  {
    var i :| IsTaker(w, k, i);
    assert i != |w.alerts| - 1;
    assert IsTaker(w', k, i);
  }

  lemma StepKeepsClaimInv(cool: string -> int, w: World, op: Op)
    requires ClaimInv(w) && Enabled(cool, w, op)
    ensures ClaimInv(Do(w, op))
  {
    match op
    case Claim(_, _, _) => ClaimKeepsClaimInv(cool, w, op);
    case Settle(_, room) =>
      if room {
        KeepOtherClaims(w, Do(w, op));
      } else {
        DropKeepsClaimInv(w, Do(w, op));
      }
    case Fail(event) =>
      ReleaseKeepsOthers(w.s, event);
      KeepOtherClaims(w, Do(w, op));
    case Arrive(a) =>
      ArrivalTakesNoClaim(w.s, a);
      KeepOtherClaims(w, Do(w, op));
  }

  lemma ReleaseKeepsOthers(s: State, event: Event)
    requires Sound(s)
    ensures Sound(Released(s, event))
    ensures forall k :: k in Released(s, event).claims ==> SameAt(s, Released(s, event), k)
  {
  }

  lemma ArrivalTakesNoClaim(s: State, a: Arrival)
    requires Sound(s) && GoodArrival(a)
    ensures Sound(Arrived(s, a))
    ensures forall k :: k in Arrived(s, a).claims ==> SameAt(s, Arrived(s, a), k)
  {
  }

  lemma KeepOtherClaims(w: World, w': World)
    requires ClaimInv(w) && Sound(w'.s) && w'.alerts == w.alerts && (w'.unsettled ==> w.unsettled)
    requires forall k :: k in w'.s.claims ==> SameAt(w.s, w'.s, k)
    ensures ClaimInv(w')
  {
    forall k | k in w'.s.claims
      ensures Taken(w', k)
    {
      assert SameAt(w.s, w'.s, k);
      TakerCarriesOver(w, w', k);
    }
  }

  lemma {:induction false} RunKeepsClaimInv(cool: string -> int, worlds: seq<World>, ops: seq<Op>, k: nat)
    requires Run(cool, worlds, ops) && k < |worlds|
    ensures ClaimInv(worlds[k])
  {
    if k > 0 {
      RunKeepsClaimInv(cool, worlds, ops, k - 1);
      assert StepAt(cool, worlds, ops, k - 1);
      StepKeepsClaimInv(cool, worlds[k - 1], ops[k - 1]);
    }
  }

  /** A dropped or failing alert, however late, deletes nothing but a record with its own time. */
  lemma ReleaseDeletesOnlyOwnRecord(cool: string -> int, worlds: seq<World>, ops: seq<Op>, k: nat, i: nat)
    requires Run(cool, worlds, ops) && k < |worlds| && i < |worlds[k].alerts|
    ensures var s, sent := worlds[k].s, worlds[k].alerts[i];
            var s', key := Released(s, sent.event), EventKey(sent.event);
            s' == s || (SentAt(s, key) == Some(sent.at) && SentAt(s', key) == None && SameExceptAt(s, s', key))
  {
    RunKeepsClaimInv(cool, worlds, ops, k);
    var w := worlds[k];
    var event := w.alerts[i].event;
    if Released(w.s, event) != w.s {
      OwnClaim(w, i, EventKey(event));
    }
  }

  /** The alert that holds a claim wrote the record. */
  lemma OwnClaim(w: World, i: nat, key: string)
    requires ClaimInv(w) && i < |w.alerts| && key in w.s.claims && w.s.claims[key] == w.alerts[i].event.id
    ensures key in w.s.entries && w.s.entries[key].lastSent == w.alerts[i].at && EventKey(w.alerts[i].event) == key
  {
    assert Taken(w, key);
    var j :| IsTaker(w, key, j);
    assert i == j;
  }

  // ---------------------------------------------------------------------
  // Accepted alerts are a cooldown apart
  // ---------------------------------------------------------------------

  predicate Live(w: World, i: int)
  {
    0 <= i < |w.alerts| && w.alerts[i].event.id !in w.freed
  }

  function KeyOf(w: World, i: int): string
    requires 0 <= i < |w.alerts|
  {
    EventKey(w.alerts[i].event)
  }

  /** The cooldown that alert i started has run out. */
  predicate Past(cool: string -> int, w: World, i: int)
    requires 0 <= i < |w.alerts|
  {
    w.alerts[i].at + cool(KeyOf(w, i)) <= w.clock
  }

  predicate Guarded(w: World, i: int)
    requires 0 <= i < |w.alerts|
  {
    var sent := SentAt(w.s, KeyOf(w, i));
    sent.Some? && w.alerts[i].at <= sent.value
  }

  /** Any two unreleased alerts with one key are at least the key's cooldown apart. */
  ghost predicate Spaced(cool: string -> int, w: World)
  {
    forall i, j :: i < j && Live(w, i) && Live(w, j) && KeyOf(w, i) == KeyOf(w, j) ==>
      w.alerts[j].at - w.alerts[i].at >= cool(KeyOf(w, i))
  }

  /** Alert i is guarded by its record or past, and past if a later alert has claimed its key. */
  ghost predicate Covered(cool: string -> int, w: World, i: int)
    requires 0 <= i < |w.alerts|
  {
    var key := KeyOf(w, i);
    && (Guarded(w, i) || Past(cool, w, i))
    && (ClaimAt(w.s, key).Some? && ClaimAt(w.s, key).value != w.alerts[i].event.id ==> Past(cool, w, i))
  }

  ghost predicate SpacingInv(cool: string -> int, w: World)
  {
    && ClaimInv(w)
    && Spaced(cool, w)
    && (forall i :: Live(w, i) ==> Covered(cool, w, i))
  }

  /** Nothing happened to alert i's key. */
  lemma CoveredCarriesOver(cool: string -> int, w: World, w': World, i: int)
    requires 0 <= i < |w.alerts| && i < |w'.alerts| && w'.alerts[i] == w.alerts[i] && Covered(cool, w, i)
    requires w.clock <= w'.clock && SameAt(w.s, w'.s, KeyOf(w, i))
    ensures Covered(cool, w', i)
  {
  }

  /** An alert that is not suppressed finds every earlier alert of its key past. */
  lemma ClaimCovers(cool: string -> int, w: World, op: Op, i: int)
    requires SpacingInv(cool, w) && Enabled(cool, w, op) && op.Claim? && Live(w, i)
    ensures Covered(cool, Do(w, op), i)
    ensures !Suppressed(w.s, op.rule, op.event, op.now) && KeyOf(w, i) == EventKey(op.event) ==>
      Past(cool, Do(w, op), i)
  {
    var w', key := Do(w, op), EventKey(op.event);
    TryEffect(w.s, op.rule, op.event, op.now);
    assert w'.alerts[i] == w.alerts[i] && KeyOf(w', i) == KeyOf(w, i);
    if KeyOf(w, i) != key || w'.s == w.s {
      CoveredCarriesOver(cool, w, w', i);
    }
  }

  lemma ClaimKeepsSpacing(cool: string -> int, w: World, op: Op)
    requires SpacingInv(cool, w) && Enabled(cool, w, op) && op.Claim?
    ensures SpacingInv(cool, Do(w, op))
  {
    StepKeepsClaimInv(cool, w, op);
    var w', n := Do(w, op), |w.alerts|;
    forall i | Live(w', i)
      ensures Covered(cool, w', i)
      ensures i < n ==> Live(w, i) && w'.alerts[i] == w.alerts[i]
      ensures i < n && n < |w'.alerts| && KeyOf(w', i) == KeyOf(w', n) ==> Past(cool, w', i)
    {
      if i < n {
        ClaimCovers(cool, w, op, i);
      } else {
        TryEffect(w.s, op.rule, op.event, op.now);
      }
    }
    forall i, j | i < j && Live(w', i) && Live(w', j) && KeyOf(w', i) == KeyOf(w', j)
      ensures w'.alerts[j].at - w'.alerts[i].at >= cool(KeyOf(w', i))
    {
      if j == n {
        assert Past(cool, w', i);
      } else {
        assert Live(w, i) && Live(w, j) && KeyOf(w, i) == KeyOf(w, j);
      }
    }
  }

  /** For the steps that add no alert. */
  lemma SpacedShrinks(cool: string -> int, w: World, w': World)
    requires Spaced(cool, w) && w'.alerts <= w.alerts && w.freed <= w'.freed
    ensures Spaced(cool, w')
    ensures forall i :: Live(w', i) ==> Live(w, i) && w'.alerts[i] == w.alerts[i]
  {
    forall i, j | i < j && Live(w', i) && Live(w', j) && KeyOf(w', i) == KeyOf(w', j)
      ensures w'.alerts[j].at - w'.alerts[i].at >= cool(KeyOf(w', i))
    {
      assert Live(w, i) && Live(w, j) && KeyOf(w, i) == KeyOf(w, j);
    }
  }

  /** Releasing one alert's claim uncovers no other alert that is still inside its cooldown. */
  lemma ReleaseCovers(cool: string -> int, w: World, w': World, event: Event, i: int)
    requires SpacingInv(cool, w) && Live(w, i) && w.alerts[i].event.id != event.id
    requires w'.s == Released(w.s, event) && w'.clock == w.clock
    requires i < |w'.alerts| && w'.alerts[i] == w.alerts[i]
    ensures Covered(cool, w', i)
  {
    var key := EventKey(event);
    if KeyOf(w, i) != key || w'.s == w.s {
      assert SameAt(w.s, w'.s, KeyOf(w, i));
      CoveredCarriesOver(cool, w, w', i);
    } else {
      assert ClaimAt(w.s, key) == Some(event.id);
      assert Past(cool, w, i) && Past(cool, w', i);
    }
  }

  lemma SettleKeepsSpacing(cool: string -> int, w: World, op: Op)
    requires SpacingInv(cool, w) && Enabled(cool, w, op) && op.Settle?
    ensures SpacingInv(cool, Do(w, op))
  {
    StepKeepsClaimInv(cool, w, op);
    var w' := Do(w, op);
    SpacedShrinks(cool, w, w');
    forall i | Live(w', i)
      ensures Covered(cool, w', i)
    {
      if op.room {
        CoveredCarriesOver(cool, w, w', i);
      } else {
        ReleaseCovers(cool, w, w', op.event, i);
      }
    }
  }

  lemma FailKeepsSpacing(cool: string -> int, w: World, op: Op)
    requires SpacingInv(cool, w) && Enabled(cool, w, op) && op.Fail?
    ensures SpacingInv(cool, Do(w, op))
  {
    StepKeepsClaimInv(cool, w, op);
    var w' := Do(w, op);
    SpacedShrinks(cool, w, w');
    forall i | Live(w', i)
      ensures Covered(cool, w', i)
    {
      if w'.s == w.s {
        CoveredCarriesOver(cool, w, w', i);
      } else {
        ReleaseCovers(cool, w, w', op.event, i);
      }
    }
  }

  lemma LoadKeepsSpacing(cool: string -> int, w: World, entry: Entry)
    requires SpacingInv(cool, w) && Enabled(cool, w, Arrive(Load(entry)))
    ensures SpacingInv(cool, Do(w, Arrive(Load(entry))))
  {
    var w' := Do(w, Arrive(Load(entry)));
    StepKeepsClaimInv(cool, w, Arrive(Load(entry)));
    SpacedShrinks(cool, w, w');
    forall i | Live(w', i)
      ensures Covered(cool, w', i)
    {
      LoadNeverLowers(w.s, entry, KeyOf(w, i));
      assert KeyOf(w', i) == KeyOf(w, i);
    }
  }

  /** Every unreleased alert of the key is past its cooldown. */
  ghost predicate AllPast(cool: string -> int, w: World, key: string)
  {
    forall i :: Live(w, i) && KeyOf(w, i) == key ==> Past(cool, w, i)
  }

  lemma UnloadKeepsSpacing(cool: string -> int, w: World, key: string)
    requires SpacingInv(cool, w) && AllPast(cool, w, key)
    ensures SpacingInv(cool, Do(w, Arrive(Unload(key))))
  {
    var w' := Do(w, Arrive(Unload(key)));
    StepKeepsClaimInv(cool, w, Arrive(Unload(key)));
    SpacedShrinks(cool, w, w');
    forall i | Live(w', i)
      ensures Covered(cool, w', i)
    {
      if KeyOf(w, i) != key {
        CoveredCarriesOver(cool, w, w', i);
      } else {
        assert Past(cool, w, i) && Past(cool, w', i);
      }
    }
  }

  /** Another node releases a record only when no unreleased alert of this node is inside the cooldown. */
  ghost predicate SafeUnloads(cool: string -> int, worlds: seq<World>, ops: seq<Op>)
    requires |worlds| == |ops| + 1
  {
    forall i :: 0 <= i < |ops| && ops[i].Arrive? && ops[i].a.Unload? ==> AllPast(cool, worlds[i], ops[i].a.key)
  }

  lemma {:induction false} RunKeepsSpacing(cool: string -> int, worlds: seq<World>, ops: seq<Op>, k: nat)
    requires Run(cool, worlds, ops) && k < |worlds| && SafeUnloads(cool, worlds, ops)
    ensures SpacingInv(cool, worlds[k])
  {
    if k > 0 {
      RunKeepsSpacing(cool, worlds, ops, k - 1);
      assert StepAt(cool, worlds, ops, k - 1);
      match ops[k - 1]
      case Claim(_, _, _) => ClaimKeepsSpacing(cool, worlds[k - 1], ops[k - 1]);
      case Settle(_, _) => SettleKeepsSpacing(cool, worlds[k - 1], ops[k - 1]);
      case Fail(_) => FailKeepsSpacing(cool, worlds[k - 1], ops[k - 1]);
      case Arrive(a) =>
        if a.Load? {
          LoadKeepsSpacing(cool, worlds[k - 1], a.entry);
        } else {
          UnloadKeepsSpacing(cool, worlds[k - 1], a.key);
        }
    }
  }

  /**
    Over every run whose remote releases are safe, two alerts with the same key
    that were queued, or are about to be, and were not released are at least the
    cooldown apart.
   */
  lemma CooldownNeverViolated(cool: string -> int, worlds: seq<World>, ops: seq<Op>, k: nat, i: nat, j: nat)
    requires Run(cool, worlds, ops) && k < |worlds| && SafeUnloads(cool, worlds, ops)
    requires i < j && Live(worlds[k], i) && Live(worlds[k], j) && KeyOf(worlds[k], i) == KeyOf(worlds[k], j)
    ensures worlds[k].alerts[j].at - worlds[k].alerts[i].at >= cool(KeyOf(worlds[k], i))
  {
    RunKeepsSpacing(cool, worlds, ops, k);
  }

  /** Every alert of a run is the event of one of its offers, at that offer's time. */
  lemma {:induction false} AlertWasOffered(cool: string -> int, worlds: seq<World>, ops: seq<Op>, k: nat, i: nat)
    returns (m: nat)
    requires Run(cool, worlds, ops) && k < |worlds| && i < |worlds[k].alerts|
    ensures m < k && ops[m].Claim? && Sent(ops[m].event, ops[m].now) == worlds[k].alerts[i]
    ensures GoodOffer(cool, ops[m].rule, ops[m].event)
  {
    assert k > 0;
    assert StepAt(cool, worlds, ops, k - 1);
    if i < |worlds[k - 1].alerts| {
      m := AlertWasOffered(cool, worlds, ops, k - 1, i);
    } else {
      m := k - 1;
    }
  }

  function Cooldown(rule: Rule): int
  {
    if rule.cooldown == 0 then 5 * 60 * 1_000_000_000 else rule.cooldown
  }

  /** The same in the events' own terms: one alarm is not raised again before its rule's cooldown is over. */
  lemma SameAlarmsAreSpaced(cool: string -> int, worlds: seq<World>, ops: seq<Op>, k: nat, i: nat, j: nat)
    returns (m: nat)
    requires Run(cool, worlds, ops) && k < |worlds| && SafeUnloads(cool, worlds, ops)
    requires i < j && Live(worlds[k], i) && Live(worlds[k], j)
    requires SameAlarm(worlds[k].alerts[i].event, worlds[k].alerts[j].event)
    ensures m < k && ops[m].Claim? && ops[m].event == worlds[k].alerts[j].event
    ensures worlds[k].alerts[j].at - worlds[k].alerts[i].at >= Cooldown(ops[m].rule)
  {
    OneKeyPerAlarm(worlds[k].alerts[i].event, worlds[k].alerts[j].event);
    CooldownNeverViolated(cool, worlds, ops, k, i, j);
    m := AlertWasOffered(cool, worlds, ops, k, j);
  }

  /**
    A remote release deletes unconditionally. The next alert on the key is then
    not suppressed, and the cooldown survives exactly when no unreleased alert
    of the key is still inside it.
   */
  lemma UnloadSafeIffWindowPast(cool: string -> int, w: World, rule: Rule, event: Event, now: int)
    requires SpacingInv(cool, w) && Enabled(cool, w, Claim(rule, event, now))
    ensures var key := EventKey(event);
            var w1 := Do(w, Arrive(Unload(key)));
            && !Suppressed(w1.s, rule, event, now)
            && (Spaced(cool, Do(w1, Claim(rule, event, now)))
                <==> forall i :: Live(w, i) && KeyOf(w, i) == key ==> w.alerts[i].at + cool(key) <= now)
  {
    var key := EventKey(event);
    var w1 := Do(w, Arrive(Unload(key)));
    var w2 := Do(w1, Claim(rule, event, now));
    var n := |w.alerts|;
    assert w2.alerts == w.alerts + [Sent(event, now)] && w2.freed == w.freed;
    assert Live(w2, n) && KeyOf(w2, n) == key;
    assert forall i :: i < n ==> (Live(w2, i) <==> Live(w, i)) && (Live(w, i) ==> KeyOf(w2, i) == KeyOf(w, i));
    if Spaced(cool, w2) {
      forall i | Live(w, i) && KeyOf(w, i) == key
        ensures w.alerts[i].at + cool(key) <= now
      {
        assert i < n && Live(w2, i) && KeyOf(w2, i) == KeyOf(w2, n);
      }
    }
  }

  // ---------------------------------------------------------------------
  // Nothing is suppressed without cause
  // ---------------------------------------------------------------------

  /** Without loads every record is claimed, by an alert that was not released. */
  ghost predicate OwnRecordsInv(w: World)
  {
    ClaimInv(w) && OwnRecords(w)
  }

  ghost predicate OwnRecords(w: World)
  {
    && w.s.entries.Keys <= w.s.claims.Keys
    && (forall key :: key in w.s.claims ==> w.s.claims[key] !in w.freed)
  }

  lemma ClaimKeepsOwnRecords(cool: string -> int, w: World, op: Op)
    requires OwnRecordsInv(w) && Enabled(cool, w, op) && op.Claim?
    ensures OwnRecordsInv(Do(w, op))
  {
    StepKeepsClaimInv(cool, w, op);
    TryEffect(w.s, op.rule, op.event, op.now);
    var w', key := Do(w, op), EventKey(op.event);
    forall k
      ensures k in w'.s.entries ==> k in w'.s.claims
      ensures k in w'.s.claims ==> w'.s.claims[k] !in w'.freed
    {
      if k != key {
        assert SameAt(w.s, w'.s, k);
      }
    }
  }

  lemma FailKeepsOwnRecords(cool: string -> int, w: World, op: Op)
    requires OwnRecordsInv(w) && Enabled(cool, w, op) && op.Fail?
    ensures OwnRecordsInv(Do(w, op))
  {
    StepKeepsClaimInv(cool, w, op);
    if Released(w.s, op.event) != w.s {
      var e :| 0 <= e < |w.alerts| && w.alerts[e].event == op.event;
      var w', key := Do(w, op), EventKey(op.event);
      forall k | k in w.s.claims && k != key
        ensures w.s.claims[k] != op.event.id
      {
        ClaimsOfOthers(w, e, k);
      }
      FreeingKeepsOwnRecords(w, w', op.event.id, key);
    }
  }

  lemma FreeingKeepsOwnRecords(w: World, w': World, id: string, key: string)
    requires OwnRecords(w) && forall k :: k in w.s.claims && k != key ==> w.s.claims[k] != id
    requires w'.s == State(w.s.entries - {key}, w.s.claims - {key}) && w'.freed == w.freed + {id}
    ensures OwnRecords(w')
  {
  }

  /** An alert holds at most the claim on its own key. */
  lemma ClaimsOfOthers(w: World, e: nat, k: string)
    requires ClaimInv(w) && e < |w.alerts| && k in w.s.claims && k != EventKey(w.alerts[e].event)
    ensures w.s.claims[k] != w.alerts[e].event.id
  {
    if w.s.claims[k] == w.alerts[e].event.id {
      OwnClaim(w, e, k);
    }
  }

  lemma {:induction false} RunKeepsOwnRecords(cool: string -> int, worlds: seq<World>, ops: seq<Op>, k: nat)
    requires Run(cool, worlds, ops) && k < |worlds|
    requires forall i :: 0 <= i < |ops| ==> !ops[i].Arrive?
    ensures OwnRecordsInv(worlds[k])
  {
    if k > 0 {
      RunKeepsOwnRecords(cool, worlds, ops, k - 1);
      assert StepAt(cool, worlds, ops, k - 1);
      match ops[k - 1]
      case Claim(_, _, _) => ClaimKeepsOwnRecords(cool, worlds[k - 1], ops[k - 1]);
      case Settle(_, _) => StepKeepsClaimInv(cool, worlds[k - 1], ops[k - 1]);
      case Fail(_) => FailKeepsOwnRecords(cool, worlds[k - 1], ops[k - 1]);
    }
  }

  /** On a node on its own, an alert is suppressed only while an unreleased alert of its key is inside the cooldown. */
  lemma SuppressionIsJustified(cool: string -> int, worlds: seq<World>, ops: seq<Op>, k: nat)
    requires Run(cool, worlds, ops) && k < |ops| && ops[k].Claim?
    requires forall i :: 0 <= i < |ops| ==> !ops[i].Arrive?
    requires Suppressed(worlds[k].s, ops[k].rule, ops[k].event, ops[k].now)
    ensures exists i :: Live(worlds[k], i) && KeyOf(worlds[k], i) == EventKey(ops[k].event)
                        && ops[k].now - worlds[k].alerts[i].at < cool(EventKey(ops[k].event))
  {
    var w, op, key := worlds[k], ops[k], EventKey(ops[k].event);
    RunKeepsOwnRecords(cool, worlds, ops, k);
    assert StepAt(cool, worlds, ops, k);
    WindowDecides(w.s, op.rule, op.event, op.now);
    assert Taken(w, key);
    var i :| IsTaker(w, key, i);
    assert Live(w, i) && KeyOf(w, i) == key;
  }

  /** In the events' own terms: the offer that took the claim raised the same alarm less than the cooldown ago. */
  lemma SuppressedAlarmWasRaised(cool: string -> int, worlds: seq<World>, ops: seq<Op>, k: nat) returns (m: nat)
    requires Run(cool, worlds, ops) && k < |ops| && ops[k].Claim?
    requires forall i :: 0 <= i < |ops| ==> !ops[i].Arrive?
    requires forall i :: 0 <= i < |ops| && ops[i].Claim? ==> PlainIds(ops[i].event)
    requires Suppressed(worlds[k].s, ops[k].rule, ops[k].event, ops[k].now)
    ensures m < k && ops[m].Claim? && SameAlarm(ops[m].event, ops[k].event)
    ensures ops[m].event.id !in worlds[k].freed && Sent(ops[m].event, ops[m].now) in worlds[k].alerts
    ensures ops[k].now - ops[m].now < Cooldown(ops[k].rule)
  {
    SuppressionIsJustified(cool, worlds, ops, k);
    assert StepAt(cool, worlds, ops, k);
    var key := EventKey(ops[k].event);
    var i :| Live(worlds[k], i) && KeyOf(worlds[k], i) == key && ops[k].now - worlds[k].alerts[i].at < cool(key);
    m := AlertWasOffered(cool, worlds, ops, k, i);
    OneKeyPerAlarm(ops[m].event, ops[k].event);
  }

  // ---------------------------------------------------------------------
  // Replicated loads
  // ---------------------------------------------------------------------

  lemma LoadNeverLowers(s: State, entry: Entry, key: string)
    ensures var before, after := SentAt(s, key), SentAt(Loaded(s, entry), key);
            before.Some? ==> after.Some? && after.value >= before.value
    ensures Loaded(s, entry).claims.Keys <= s.claims.Keys
    ensures forall k :: k in Loaded(s, entry).claims ==> Loaded(s, entry).claims[k] == s.claims[k]
  {
  }

  function LoadAll(s: State, loads: seq<Entry>): State
  {
    if loads == [] then s else Loaded(LoadAll(s, loads[..|loads| - 1]), loads[|loads| - 1])
  }

  /** The record's time, or that of one of the loads of the key. */
  ghost predicate Offers(s: State, loads: seq<Entry>, key: string, t: int)
  {
    SentAt(s, key) == Some(t)
    || (SharedHistoryKey(key) && exists e :: e in loads && e.key == key && e.lastSent == t)
  }

  lemma {:induction false} LoadsEndAtMaximum(s: State, loads: seq<Entry>, key: string)
    ensures var r := SentAt(LoadAll(s, loads), key);
            && (r.Some? ==> Offers(s, loads, key, r.value))
            && (forall t :: Offers(s, loads, key, t) ==> r.Some? && t <= r.value)
  {
    if loads != [] {
      var rest, last := loads[..|loads| - 1], loads[|loads| - 1];
      LoadsEndAtMaximum(s, rest, key);
      assert loads == rest + [last];
      LoadNeverLowers(LoadAll(s, rest), last, key);
      forall t | Offers(s, loads, key, t)
        ensures var r := SentAt(LoadAll(s, loads), key); r.Some? && t <= r.value
      {
        if !Offers(s, rest, key, t) {
          assert last.key == key && last.lastSent == t;
        }
      }
      var r := SentAt(LoadAll(s, loads), key);
      if r.Some? && r != SentAt(LoadAll(s, rest), key) {
        assert last in loads && last.key == key;
      }
    }
  }

  /** Any order of the same loads leaves every key at the same time. */
  lemma LoadOrderIrrelevant(s: State, loads: seq<Entry>, loads': seq<Entry>, key: string)
    requires multiset(loads) == multiset(loads')
    ensures SentAt(LoadAll(s, loads), key) == SentAt(LoadAll(s, loads'), key)
  {
    LoadsEndAtMaximum(s, loads, key);
    LoadsEndAtMaximum(s, loads', key);
    assert forall e :: e in loads <==> e in multiset(loads);
    assert forall e :: e in loads' <==> e in multiset(loads');
    assert forall t :: Offers(s, loads, key, t) <==> Offers(s, loads', key, t);
  }

  // ---------------------------------------------------------------------
  // When an alert dropped because the queue is full leaves no trace
  // ---------------------------------------------------------------------

  function DoState(s: State, op: Op): State
  {
    match op
    case Claim(rule, event, now) => Tried(s, rule, event, now)
    case Settle(event, room) => Settled(s, event, room)
    case Fail(event) => Released(s, event)
    case Arrive(a) => Arrived(s, a)
  }

  /** The dedup decisions of a continuation: which offers are duplicates. */
  function Decisions(s: State, ops: seq<Op>): seq<bool>
    decreases |ops|
  {
    if ops == [] then []
    else (if ops[0].Claim? then [Suppressed(s, ops[0].rule, ops[0].event, ops[0].now)] else [])
         + Decisions(DoState(s, ops[0]), ops[1..])
  }

  /** Offers with a non-decreasing clock from now on and fixed cooldowns, any other steps in between. */
  predicate Continuation(cool: string -> int, now: int, ops: seq<Op>)
    decreases |ops|
  {
    ops == [] ||
    match ops[0]
    case Claim(rule, event, t) => t >= now && GoodOffer(cool, rule, event) && Continuation(cool, t, ops[1..])
    case Arrive(a) => GoodArrival(a) && Continuation(cool, now, ops[1..])
    case _ => Continuation(cool, now, ops[1..])
  }

  /** No record on key can suppress an alert from now on. */
  predicate Free(cool: string -> int, s: State, key: string, now: int)
  {
    SentAt(s, key).None? || SentAt(s, key).value + cool(key) <= now
  }

  ghost predicate Similar(cool: string -> int, s: State, s': State, now: int)
  {
    && Sound(s) && Sound(s')
    && forall key :: SimilarAt(cool, s, s', key, now)
  }

  predicate SimilarAt(cool: string -> int, s: State, s': State, key: string, now: int)
  {
    SameAt(s, s', key) || (Free(cool, s, key, now) && Free(cool, s', key, now))
  }

  lemma SimilarClaim(cool: string -> int, s: State, s': State, now: int, op: Op)
    requires Similar(cool, s, s', now) && op.Claim? && op.now >= now && GoodOffer(cool, op.rule, op.event)
    ensures Suppressed(s, op.rule, op.event, op.now) == Suppressed(s', op.rule, op.event, op.now)
    ensures Similar(cool, DoState(s, op), DoState(s', op), op.now)
  {
    TryEffect(s, op.rule, op.event, op.now);
    TryEffect(s', op.rule, op.event, op.now);
    var key, t, t' := EventKey(op.event), DoState(s, op), DoState(s', op);
    assert SimilarAt(cool, s, s', key, now);
    forall k
      ensures SimilarAt(cool, t, t', k, op.now)
    {
      assert SimilarAt(cool, s, s', k, now);
      if k != key {
        assert SameAt(s, t, k) && SameAt(s', t', k);
      }
    }
  }

  lemma SimilarRelease(cool: string -> int, s: State, s': State, now: int, event: Event)
    requires Similar(cool, s, s', now)
    ensures Similar(cool, Released(s, event), Released(s', event), now)
  {
    var key, t, t' := EventKey(event), Released(s, event), Released(s', event);
    forall k
      ensures SimilarAt(cool, t, t', k, now)
    {
      assert SimilarAt(cool, s, s', k, now);
      if k != key {
        assert SameAt(s, t, k) && SameAt(s', t', k);
      }
    }
  }

  lemma SimilarArrivalAt(cool: string -> int, s: State, s': State, k: string, now: int, a: Arrival)
    requires Sound(s) && Sound(s') && SimilarAt(cool, s, s', k, now)
    ensures SimilarAt(cool, Arrived(s, a), Arrived(s', a), k, now)
  {
    var key := if a.Load? then a.entry.key else a.key;
    if k != key {
      assert SameAt(s, Arrived(s, a), k) && SameAt(s', Arrived(s', a), k);
    }
  }

  lemma SimilarArrival(cool: string -> int, s: State, s': State, now: int, a: Arrival)
    requires Similar(cool, s, s', now) && GoodArrival(a)
    ensures Similar(cool, Arrived(s, a), Arrived(s', a), now)
  {
    forall k
      ensures SimilarAt(cool, Arrived(s, a), Arrived(s', a), k, now)
    {
      assert SimilarAt(cool, s, s', k, now);
      SimilarArrivalAt(cool, s, s', k, now, a);
    }
  }

  lemma {:induction false} SimilarDecisions(cool: string -> int, s: State, s': State, now: int, ops: seq<Op>)
    requires Similar(cool, s, s', now) && Continuation(cool, now, ops)
    ensures Decisions(s, ops) == Decisions(s', ops)
    decreases |ops|
  {
    if ops != [] {
      var op := ops[0];
      match op {
        case Claim(_, _, _) => SimilarClaim(cool, s, s', now, op);
        case Settle(event, _) => SimilarRelease(cool, s, s', now, event);
        case Fail(event) => SimilarRelease(cool, s, s', now, event);
        case Arrive(a) => SimilarArrival(cool, s, s', now, a);
      }
      SimilarDecisions(cool, DoState(s, op), DoState(s', op), if op.Claim? then op.now else now, ops[1..]);
    }
  }

  /** What arrived between claim and drop kept the claim in place, */
  ghost predicate ClaimStands(arrivals: seq<Arrival>, key: string, now: int)
  {
    && Unload(key) !in arrivals
    && forall e :: Load(e) in arrivals && e.key == key ==> e.lastSent <= now
  }

  /** and brought a record that would still suppress alerts. */
  ghost predicate Inside(cool: string -> int, arrivals: seq<Arrival>, key: string, now: int)
  {
    exists e :: Load(e) in arrivals && e.key == key && e.lastSent + cool(key) > now
  }

  /** The two states after the same arrivals, with the claim (a) and without (b), at the key of the alert. */
  ghost predicate WhileClaimed(cool: string -> int, arrivals: seq<Arrival>, a: State, b: State, event: Event, now: int)
  {
    var key := EventKey(event);
    if ClaimStands(arrivals, key, now) then
      && SentAt(a, key) == Some(now) && ClaimAt(a, key) == Some(event.id)
      && (!Free(cool, b, key, now) <==> Inside(cool, arrivals, key, now))
      && (SentAt(b, key).Some? && SentAt(b, key).value > now ==> Free(cool, b, key, now))
    else
      ClaimAt(a, key) == None && SimilarAt(cool, a, b, key, now)
  }

  lemma ArrivalWhileClaimed(cool: string -> int, arrivals: seq<Arrival>, last: Arrival, a: State, b: State,
                            event: Event, now: int)
    requires Sound(a) && Sound(b) && HasPrefix(EventKey(event), "dedup:")
    requires WhileClaimed(cool, arrivals, a, b, event, now)
    ensures WhileClaimed(cool, arrivals + [last], Arrived(a, last), Arrived(b, last), event, now)
  {
    var key := EventKey(event);
    OneMoreArrival(cool, arrivals, last, key, now);
    if !ClaimStands(arrivals, key, now) {
      SimilarArrivalAt(cool, a, b, key, now, last);
    }
  }

  lemma OneMoreArrival(cool: string -> int, arrivals: seq<Arrival>, last: Arrival, key: string, now: int)
    ensures ClaimStands(arrivals + [last], key, now)
       <==> ClaimStands(arrivals, key, now) && last != Unload(key)
            && (last.Load? && last.entry.key == key ==> last.entry.lastSent <= now)
    ensures Inside(cool, arrivals + [last], key, now)
       <==> Inside(cool, arrivals, key, now)
            || (last.Load? && last.entry.key == key && last.entry.lastSent + cool(key) > now)
  {
    assert forall x :: x in arrivals + [last] <==> x in arrivals || x == last;
  }

  lemma {:induction false} ArrivalsAreSound(s: State, arrivals: seq<Arrival>)
    requires Sound(s) && forall x :: x in arrivals ==> GoodArrival(x)
    ensures Sound(ArrivedAll(s, arrivals))
  {
    if arrivals != [] {
      ArrivalsAreSound(s, arrivals[..|arrivals| - 1]);
      assert GoodArrival(arrivals[|arrivals| - 1]);
    }
  }

  lemma ArrivalElsewhere(a: State, b: State, last: Arrival, key: string)
    requires SameExceptAt(a, b, key)
    ensures SameExceptAt(Arrived(a, last), Arrived(b, last), key)
  {
    forall k | k != key
      ensures SameAt(Arrived(a, last), Arrived(b, last), k)
    {
      assert SameAt(a, b, k);
    }
  }

  /** a: the state once the alert holds its claim; b: the state had it never been offered. */
  lemma {:induction false} ArrivalsWhileClaimed(cool: string -> int, a: State, b: State, arrivals: seq<Arrival>,
                                                event: Event, now: int)
    requires Sound(a) && Sound(b) && HasPrefix(EventKey(event), "dedup:") && SameExceptAt(a, b, EventKey(event))
    requires SentAt(a, EventKey(event)) == Some(now) && ClaimAt(a, EventKey(event)) == Some(event.id)
    requires Free(cool, b, EventKey(event), now)
    requires forall x :: x in arrivals ==> GoodArrival(x)
    ensures WhileClaimed(cool, arrivals, ArrivedAll(a, arrivals), ArrivedAll(b, arrivals), event, now)
    ensures SameExceptAt(ArrivedAll(a, arrivals), ArrivedAll(b, arrivals), EventKey(event))
  {
    if arrivals != [] {
      var rest, last := arrivals[..|arrivals| - 1], arrivals[|arrivals| - 1];
      assert arrivals == rest + [last];
      ArrivalsWhileClaimed(cool, a, b, rest, event, now);
      ArrivalsAreSound(a, rest);
      ArrivalsAreSound(b, rest);
      ArrivalWhileClaimed(cool, rest, last, ArrivedAll(a, rest), ArrivedAll(b, rest), event, now);
      ArrivalElsewhere(ArrivedAll(a, rest), ArrivedAll(b, rest), last, EventKey(event));
    }
  }

  /** The state after a claim, the arrivals and the drop. */
  function DroppedState(s: State, rule: Rule, event: Event, now: int, arrivals: seq<Arrival>): State
  {
    Released(ArrivedAll(Claimed(s, rule, event, now), arrivals), event)
  }

  /** Every later decision is the one made had the alert never been offered. */
  ghost predicate Unobservable(cool: string -> int, dropped: State, never: State, now: int)
  {
    forall ops :: Continuation(cool, now, ops) ==> Decisions(dropped, ops) == Decisions(never, ops)
  }

  /**
    A drop is unobservable exactly unless a record arrived between the claim and
    the drop that is inside the cooldown, none arrived that is newer than the
    claim, and no release of the key arrived: the claim then hides the record and
    the drop deletes it.
   */
  lemma DropUnobservableIff(cool: string -> int, s: State, rule: Rule, event: Event, now: int, arrivals: seq<Arrival>)
    requires Sound(s) && GoodOffer(cool, rule, event) && !Suppressed(s, rule, event, now)
    requires forall x :: x in arrivals ==> GoodArrival(x)
    ensures var key := EventKey(event);
            Unobservable(cool, DroppedState(s, rule, event, now, arrivals), ArrivedAll(s, arrivals), now)
            <==> !(ClaimStands(arrivals, key, now) && Inside(cool, arrivals, key, now))
  {
    var key, c := EventKey(event), Claimed(s, rule, event, now);
    KeyDeterminesStatus(event.ruleId, event.soulId, DedupStatus(event));
    TryEffect(s, rule, event, now);
    ArrivalsWhileClaimed(cool, c, s, arrivals, event, now);
    ArrivalsAreSound(c, arrivals);
    ArrivalsAreSound(s, arrivals);
    var a, b := ArrivedAll(c, arrivals), ArrivedAll(s, arrivals);
    if ClaimStands(arrivals, key, now) && Inside(cool, arrivals, key, now) {
      HiddenRecord(cool, a, b, rule, event, now);
    } else {
      DropLeavesSimilar(cool, a, b, event, now);
      forall ops | Continuation(cool, now, ops)
        ensures Decisions(Released(a, event), ops) == Decisions(b, ops)
      {
        SimilarDecisions(cool, Released(a, event), b, now, ops);
      }
    }
  }

  /** The next offer is a duplicate of the hidden record, but finds none after the drop. */
  lemma HiddenRecord(cool: string -> int, a: State, b: State, rule: Rule, event: Event, now: int)
    requires Sound(a) && Sound(b) && GoodOffer(cool, rule, event) && !Free(cool, b, EventKey(event), now)
    requires ClaimAt(a, EventKey(event)) == Some(event.id)
    ensures !Unobservable(cool, Released(a, event), b, now)
  {
    var ops := [Claim(rule, event, now)];
    WindowDecides(b, rule, event, now);
    WindowDecides(Released(a, event), rule, event, now);
    assert Continuation(cool, now, ops);
    assert Decisions(Released(a, event), ops)[0] == Suppressed(Released(a, event), rule, event, now);
    assert Decisions(b, ops)[0] == Suppressed(b, rule, event, now);
  }

  lemma DropLeavesSimilar(cool: string -> int, a: State, b: State, event: Event, now: int)
    requires Sound(a) && Sound(b) && event.ruleId != "" && SameExceptAt(a, b, EventKey(event))
    requires if ClaimAt(a, EventKey(event)) == Some(event.id) then Free(cool, b, EventKey(event), now)
             else SimilarAt(cool, a, b, EventKey(event), now)
    ensures Similar(cool, Released(a, event), b, now)
  {
    var key := EventKey(event);
    forall k
      ensures SimilarAt(cool, Released(a, event), b, k, now)
    {
      if k != key {
        assert SameAt(a, b, k);
      }
    }
  }

  /** When nothing arrives in between, a drop leaves no trace. */
  lemma DropIsUnobservable(cool: string -> int, s: State, rule: Rule, event: Event, now: int)
    requires Sound(s) && GoodOffer(cool, rule, event) && !Suppressed(s, rule, event, now)
    ensures Unobservable(cool, DroppedState(s, rule, event, now, []), s, now)
  {
    DropUnobservableIff(cool, s, rule, event, now, []);
  }

  /**
    A record of the same key that another node shared between the claim and the
    drop is lost when it is no newer than the claim: the next alert is sent
    although the record's cooldown runs.
   */
  lemma HiddenLoadIsObservable(cool: string -> int, s: State, rule: Rule, event: Event, entry: Entry, now: int)
    requires Sound(s) && GoodOffer(cool, rule, event) && !Suppressed(s, rule, event, now)
    requires entry.key == EventKey(event) && GoodRecord(entry.key, entry)
    requires now - cool(entry.key) < entry.lastSent <= now
    ensures !Suppressed(DroppedState(s, rule, event, now, [Load(entry)]), rule, event, now)
    ensures Suppressed(Loaded(s, entry), rule, event, now)
  {
    KeyDeterminesStatus(event.ruleId, event.soulId, DedupStatus(event));
    TryEffect(s, rule, event, now);
    var c := Claimed(s, rule, event, now);
    assert [Load(entry)][..0] == [];
    assert ArrivedAll(c, [Load(entry)]) == Loaded(c, entry);
    WindowDecides(Loaded(s, entry), rule, event, now);
  }

  /** The release needs a rule ID: a dropped alert without one suppresses its key for a whole window. */
  lemma DropWithoutRuleIdIsObservable(s: State, rule: Rule, event: Event, now: int, t: int)
    requires Sound(s) && event.ruleId == rule.id == "" && ':' !in DedupStatus(event)
    requires !Suppressed(s, rule, event, now) && t >= now
    ensures !Suppressed(s, rule, event, t)
    ensures Suppressed(DroppedState(s, rule, event, now, []), rule, event, t) <==> t - now < Window(rule)
  {
    TryEffect(s, rule, event, now);
    WindowDecides(s, rule, event, t);
    WindowDecides(Claimed(s, rule, event, now), rule, event, t);
  }
}
