/**
  Keeping in-memory alert channels and rules in step with replicated storage
  (cmd/anubis/cluster_work.go and internal/alert/replication.go).

  The apply path stores a batch of commands and reports each one afterwards; a
  snapshot replaces storage piece by piece and is reported once it is complete.
  The reports are handled later, one at a time, and a snapshot is handled by a
  Resync whose two storage reads and final install are three separate steps, so
  it may see storage that is already ahead of the queue. A read lists the default
  workspace only, as the start of the manager does.
 */
module AlertSync {
  import opened ClusterEvents
  import opened Options

  datatype Kind = Channels | Rules

  /** In memory a record is found by its ID alone. */
  datatype Tables = Tables(channels: map<string, Record>, rules: map<string, Record>)

  /** Workspace and ID. */
  type Key = (string, string)

  /** In storage it is found by workspace and ID; None is a value that does not decode. */
  datatype Store = Store(channels: map<Key, Option<Record>>, rules: map<Key, Option<Record>>)

  function Table(t: Tables, kind: Kind): map<string, Record>
  {
    match kind case Channels => t.channels case Rules => t.rules
  }

  function StoreTable(s: Store, kind: Kind): map<Key, Option<Record>>
  {
    match kind case Channels => s.channels case Rules => s.rules
  }

  function Find(m: map<string, Record>, id: string): Option<Record>
  {
    if id in m then Some(m[id]) else None
  }

  function PutTable(t: Tables, kind: Kind, m: map<string, Record>): Tables
  {
    match kind case Channels => t.(channels := m) case Rules => t.(rules := m)
  }

  datatype Target = Target(kind: Kind, key: Key)

  /** The channel or rule record a command writes in storage. */
  function StorageTarget(cmd: Command): Option<Target>
  {
    if cmd.table != JUDGMENT_TABLE && |cmd.parts| == 4 && cmd.parts[1] == "alerts" then
      if cmd.parts[2] == "channels" then Some(Target(Channels, (cmd.parts[0], cmd.parts[3])))
      else if cmd.parts[2] == "rules" then Some(Target(Rules, (cmd.parts[0], cmd.parts[3])))
      else None
    else None
  }

  /** The key is <workspace>/alerts/<kind>/<id>, outside the table of judgments. */
  predicate IsRecordOf(cmd: Command, kind: string)
  {
    cmd.table != "judgments" && |cmd.parts| == 4 && cmd.parts[1] == "alerts" && cmd.parts[2] == kind
  }

  /** Channels and rules are written under their own keys and under no other. */
  lemma TargetMeans(cmd: Command, ws: string, id: string)
    ensures StorageTarget(cmd) == Some(Target(Channels, (ws, id)))
       <==> IsRecordOf(cmd, "channels") && cmd.parts[0] == ws && cmd.parts[3] == id
    ensures StorageTarget(cmd) == Some(Target(Rules, (ws, id)))
       <==> IsRecordOf(cmd, "rules") && cmd.parts[0] == ws && cmd.parts[3] == id
  {
  }

  function PutStored(m: map<Key, Option<Record>>, key: Key, cmd: Command): map<Key, Option<Record>>
  {
    if cmd.isSet then m[key := cmd.value] else m - {key}
  }

  /** What applying a command does to storage. */
  function Stored(s: Store, cmd: Command): Store
  {
    match StorageTarget(cmd)
    case Some(Target(Channels, key)) => s.(channels := PutStored(s.channels, key, cmd))
    case Some(Target(Rules, key)) => s.(rules := PutStored(s.rules, key, cmd))
    case None => s
  }

  // ---------------------------------------------------------------------
  // The manager's tables
  // ---------------------------------------------------------------------

  /** A record is filed under the ID it carries; one without an ID is ignored. */
  function Load(m: map<string, Record>, record: Record): map<string, Record>
  {
    if record.id == "" then m else m[record.id := record]
  }

  class AlertTables {
    var channels: map<string, Record>
    var rules: map<string, Record>

    constructor ()
      ensures channels == map[] && rules == map[]
    {
      channels, rules := map[], map[];
    }

    function Contents(): Tables
      reads this
    {
      Tables(channels, rules)
    }

    method LoadChannel(channel: Record)
      modifies this
      ensures channels == Load(old(channels), channel) && rules == old(rules)
    {
      if channel.id == "" { return; }
      channels := channels[channel.id := channel];
    }

    method UnloadChannel(id: string)
      modifies this
      ensures channels == old(channels) - {id} && rules == old(rules)
    {
      channels := channels - {id};
    }

    method LoadRule(rule: Record)
      modifies this
      ensures rules == Load(old(rules), rule) && channels == old(channels)
    {
      if rule.id == "" { return; }
      rules := rules[rule.id := rule];
    }

    method UnloadRule(id: string)
      modifies this
      ensures rules == old(rules) - {id} && channels == old(channels)
    {
      rules := rules - {id};
    }

    /** applyAlertRecord behind handleEvent's routing: a command this node proposed is skipped. */
    method ApplyAlertRecord(node: string, cmd: Command)
      modifies this
      ensures var foreign := cmd.origin == "" || cmd.origin != node;
              && (foreign && IsRecordOf(cmd, "channels") ==>
                    && rules == old(rules)
                    && (!cmd.isSet ==> channels == old(channels) - {cmd.parts[3]})
                    && (cmd.isSet && cmd.value.Some? && cmd.value.value.id != "" ==>
                          channels == old(channels)[cmd.value.value.id := cmd.value.value]))
              && (foreign && IsRecordOf(cmd, "rules") ==>
                    && channels == old(channels)
                    && (!cmd.isSet ==> rules == old(rules) - {cmd.parts[3]})
                    && (cmd.isSet && cmd.value.Some? && cmd.value.value.id != "" ==>
                          rules == old(rules)[cmd.value.value.id := cmd.value.value]))
              && (!foreign || (!IsRecordOf(cmd, "channels") && !IsRecordOf(cmd, "rules"))
                  || (cmd.isSet && (cmd.value.None? || cmd.value.value.id == "")) ==>
                    Contents() == old(Contents()))
      ensures Contents() == Reflected(old(Contents()), cmd, node)
    {
      if cmd.table == JUDGMENT_TABLE || |cmd.parts| != 4 || cmd.parts[1] != "alerts" || Local(cmd, node) {
        return;
      }
      var kind, id := cmd.parts[2], cmd.parts[3];
      if kind == "channels" {
        if !cmd.isSet {
          UnloadChannel(id);
        } else if cmd.value.Some? {
          LoadChannel(cmd.value.value);
        }
      } else if kind == "rules" {
        if !cmd.isSet {
          UnloadRule(id);
        } else if cmd.value.Some? {
          LoadRule(cmd.value.value);
        }
      }
    }

    /** The install half of Resync: each listing that could be read replaces its table. */
    method Install(listedChannels: Option<seq<Record>>, listedRules: Option<seq<Record>>)
      modifies this
      ensures channels == if listedChannels.Some? then Listed(listedChannels.value) else old(channels)
      ensures rules == if listedRules.Some? then Listed(listedRules.value) else old(rules)
    {
      if listedChannels.Some? {
        channels := BuildTable(listedChannels.value);
      }
      if listedRules.Some? {
        rules := BuildTable(listedRules.value);
      }
    }
  }

  function Reflected(t: Tables, cmd: Command, node: string): Tables
  {
    match StorageTarget(cmd)
    case Some(Target(kind, key)) =>
      if Local(cmd, node) then t
      else if !cmd.isSet then PutTable(t, kind, Table(t, kind) - {key.1})
      else if cmd.value.Some? then PutTable(t, kind, Load(Table(t, kind), cmd.value.value))
      else t
    case None => t
  }

  function Listed(records: seq<Record>): map<string, Record>
  {
    if records == [] then map[] else Listed(records[..|records| - 1])[Last(records).id := Last(records)]
  }

  function Last<T>(s: seq<T>): T
    requires s != []
  {
    s[|s| - 1]
  }

  method BuildTable(records: seq<Record>) returns (table: map<string, Record>)
    ensures table == Listed(records)
  {
    table := map[];
    for i := 0 to |records|
      invariant table == Listed(records[..i])
    {
      table := table[records[i].id := records[i]];
      assert records[..i + 1][..i] == records[..i];
    }
    assert records[..|records|] == records;
  }

  /** The table holds, under its own ID, one of the records with that ID; collisions keep an arbitrary one. */
  lemma {:induction false} ListedIsListing(records: seq<Record>)
    ensures forall id :: id in Listed(records) ==> Listed(records)[id] in records && Listed(records)[id].id == id
    ensures forall r :: r in records ==> r.id in Listed(records)
  {
    if records != [] {
      ListedIsListing(records[..|records| - 1]);
      assert records == records[..|records| - 1] + [Last(records)];
    }
  }

  // ---------------------------------------------------------------------
  // The node as a state machine
  // ---------------------------------------------------------------------

  /** Where the event loop is inside Resync. */
  datatype Phase = Ready | Resyncing | HaveChannels(channels: map<string, Record>)
                 | HaveBoth(channels: map<string, Record>, rules: map<string, Record>)

  /**
    unreported: commands already in storage whose report has not been queued.
    restoring: a snapshot is replacing storage.
   */
  datatype Node = Node(store: Store, restoring: bool, unreported: seq<Event>, queue: seq<Event>,
                       phase: Phase, memory: Tables)

  /** The reads of Resync list storage in any order. */
  datatype Step =
    | Apply(cmds: seq<Command>) | Report
    | BeginRestore | RestoreWrite(store: Store) | FinishRestore
    | Handle | ReadChannels(listing: seq<Record>) | ReadRules(listing: seq<Record>) | InstallBoth

  /** Listing with no workspace lists this one only. */
  const DEFAULT_WORKSPACE := "default"

  /** The records of the default workspace that decode. */
  ghost predicate Lists(m: map<Key, Option<Record>>, listing: seq<Record>)
  {
    && (forall key :: key in m && key.0 == DEFAULT_WORKSPACE && m[key].Some? ==> m[key].value in listing)
    && (forall r :: r in listing ==> exists key :: key in m && key.0 == DEFAULT_WORKSPACE && m[key] == Some(r))
  }

  /** Just started: memory was loaded with the same listing. */
  ghost predicate Init(s: Node)
  {
    && !s.restoring && s.unreported == [] && s.queue == [] && s.phase == Ready
    && forall kind :: Loaded(s.store, s.memory, kind)
  }

  ghost predicate Loaded(s: Store, memory: Tables, kind: Kind)
  {
    exists listing :: Lists(StoreTable(s, kind), listing) && Table(memory, kind) == Listed(listing)
  }

  /** A node starts empty on an empty store. */
  lemma StartEmpty()
    ensures Init(Node(Store(map[], map[]), false, [], [], Ready, Tables(map[], map[])))
  {
    var s, memory := Store(map[], map[]), Tables(map[], map[]);
    forall kind
      ensures Loaded(s, memory, kind)
    {
      assert Lists(StoreTable(s, kind), []) && Table(memory, kind) == Listed([]);
    }
  }

  function StoredAll(s: Store, cmds: seq<Command>): Store
    decreases |cmds|
  {
    if cmds == [] then s else StoredAll(Stored(s, cmds[0]), cmds[1..])
  }

  function Reports(cmds: seq<Command>): seq<Event>
  {
    seq(|cmds|, i requires 0 <= i < |cmds| => Applied(cmds[i]))
  }

  ghost predicate Next(node: string, s: Node, step: Step, s': Node)
  {
    match step
    case Apply(cmds) =>
      && !s.restoring
      && s' == s.(store := StoredAll(s.store, cmds), unreported := s.unreported + Reports(cmds))
    case Report =>
      && s.unreported != []
      && s' == s.(queue := s.queue + [s.unreported[0]], unreported := s.unreported[1..])
    case BeginRestore => !s.restoring && s' == s.(restoring := true)
    case RestoreWrite(store) => s.restoring && s' == s.(store := store)
    case FinishRestore => s.restoring && s' == s.(restoring := false, unreported := s.unreported + [Restore])
    case Handle =>
      && s.phase == Ready && s.queue != []
      && (match s.queue[0]
          case Restore => s' == s.(queue := s.queue[1..], phase := Resyncing)
          case Applied(cmd) => s' == s.(queue := s.queue[1..], memory := Reflected(s.memory, cmd, node)))
    case ReadChannels(listing) =>
      s.phase == Resyncing && Lists(s.store.channels, listing) && s' == s.(phase := HaveChannels(Listed(listing)))
    case ReadRules(listing) =>
      && s.phase.HaveChannels? && Lists(s.store.rules, listing)
      && s' == s.(phase := HaveBoth(s.phase.channels, Listed(listing)))
    case InstallBoth =>
      s.phase.HaveBoth? && s' == s.(phase := Ready, memory := Tables(s.phase.channels, s.phase.rules))
  }

  ghost predicate StepAt(node: string, states: seq<Node>, steps: seq<Step>, i: int)
    requires 0 <= i < |steps| && |states| == |steps| + 1
  {
    Next(node, states[i], steps[i], states[i + 1])
  }

  ghost predicate Run(node: string, states: seq<Node>, steps: seq<Step>)
  {
    && |states| == |steps| + 1
    && Init(states[0])
    && forall i :: 0 <= i < |steps| ==> StepAt(node, states, steps, i)
  }

  // ---------------------------------------------------------------------
  // What the cluster has to keep
  // ---------------------------------------------------------------------

  /** The write is not this node's own and stores a record under the record's own, non-empty ID. */
  predicate GoodCommand(node: string, cmd: Command)
  {
    match StorageTarget(cmd)
    case Some(Target(_, key)) =>
      !Local(cmd, node) && (cmd.isSet ==> key.1 != "" && cmd.value.Some? && cmd.value.value.id == key.1)
    case None => true
  }

  /** So is everything in a snapshot. */
  ghost predicate GoodStore(s: Store)
  {
    forall kind, key :: key in StoreTable(s, kind) ==> GoodEntry(s, kind, key)
  }

  predicate GoodEntry(s: Store, kind: Kind, key: Key)
    requires key in StoreTable(s, kind)
  {
    var value := StoreTable(s, kind)[key];
    value.Some? && value.value.id == key.1
  }

  ghost predicate GoodStep(node: string, s: Node, step: Step)
  {
    match step
    case Apply(cmds) => forall i :: 0 <= i < |cmds| ==> GoodCommand(node, cmds[i])
    case FinishRestore => GoodStore(s.store)
    case _ => true
  }

  ghost predicate GoodRun(node: string, states: seq<Node>, steps: seq<Step>)
    requires |states| == |steps| + 1
  {
    && GoodStore(states[0].store)
    && forall i :: 0 <= i < |steps| ==> GoodStep(node, states[i], steps[i])
  }

  /** Memory holds exactly the records of storage, each under its ID. */
  ghost predicate Mirrors(memory: Tables, s: Store, kind: Kind)
  {
    && (forall key :: key in StoreTable(s, kind) ==> StoreTable(s, kind)[key] == Find(Table(memory, kind), key.1))
    && (forall id :: id in Table(memory, kind) ==> exists key :: key in StoreTable(s, kind) && key.1 == id)
  }

  // ---------------------------------------------------------------------
  // What memory holds: the last write since the last listing, or the listing
  // ---------------------------------------------------------------------

  /** The record of the default workspace with that ID. */
  function DefaultFind(s: Store, kind: Kind, id: string): Option<Record>
  {
    var key := (DEFAULT_WORKSPACE, id);
    if key in StoreTable(s, kind) then StoreTable(s, kind)[key] else None
  }

  /** The commands applied since the node started or began to restore a snapshot, whichever was later. */
  function Recent(steps: seq<Step>): seq<Command>
  {
    if steps == [] then []
    else match Last(steps)
      case BeginRestore => []
      case Apply(cmds) => Recent(steps[..|steps| - 1]) + cmds
      case _ => Recent(steps[..|steps| - 1])
  }

  /** The command writes or deletes the ID, in whatever workspace. */
  predicate Writes(cmd: Command, kind: Kind, id: string)
  {
    StorageTarget(cmd).Some? && StorageTarget(cmd).value.kind == kind && StorageTarget(cmd).value.key.1 == id
  }

  function Written(cmd: Command): Option<Record>
  {
    if cmd.isSet then cmd.value else None
  }

  function LastWrite(cmds: seq<Command>, kind: Kind, id: string): (r: Option<Command>)
    ensures r.Some? ==> r.value in cmds && Writes(r.value, kind, id)
  {
    if cmds == [] then None
    else if Writes(Last(cmds), kind, id) then Some(Last(cmds))
    else LastWrite(cmds[..|cmds| - 1], kind, id)
  }

  /** What memory holds for an ID once everything is handled. */
  function Expected(recent: seq<Command>, s: Store, kind: Kind, id: string): Option<Record>
  {
    match LastWrite(recent, kind, id)
    case Some(cmd) => Written(cmd)
    case None => DefaultFind(s, kind, id)
  }

  /** Everything that has touched storage and is not reflected in memory yet, oldest first. */
  function Pending(s: Node): seq<Event>
  {
    s.queue + s.unreported + if s.restoring then [Restore] else []
  }

  /** What memory is about to hold: a Resync in progress ends at the tables it read or will read. */
  function Seen(s: Node, kind: Kind, id: string): Option<Record>
  {
    match s.phase
    case Ready => Find(Table(s.memory, kind), id)
    case Resyncing => DefaultFind(s.store, kind, id)
    case HaveChannels(channels) => if kind == Channels then Find(channels, id) else DefaultFind(s.store, kind, id)
    case HaveBoth(channels, rules) => Find(if kind == Channels then channels else rules, id)
  }

  predicate Touches(ev: Event, kind: Kind, id: string)
  {
    ev.Applied? && Writes(ev.cmd, kind, id)
  }

  /** The record after handling pending, starting from seen, if a listing finds now. */
  function Settled(seen: Option<Record>, pending: seq<Event>, now: Option<Record>, kind: Kind, id: string)
    : Option<Record>
  {
    if pending == [] then seen
    else if Last(pending).Restore? then now
    else if Touches(Last(pending), kind, id) then Written(Last(pending).cmd)
    else Settled(seen, pending[..|pending| - 1], now, kind, id)
  }

  predicate SettledAt(s: Node, recent: seq<Command>, kind: Kind, id: string)
  {
    Settled(Seen(s, kind, id), Pending(s), DefaultFind(s.store, kind, id), kind, id)
    == Expected(recent, s.store, kind, id)
  }

  predicate GoodEvent(node: string, ev: Event)
  {
    ev.Applied? ==> GoodCommand(node, ev.cmd)
  }

  /** The last write of an ID is in storage, or its deletion is. */
  predicate LastWriteStored(recent: seq<Command>, s: Store, kind: Kind, id: string)
  {
    match LastWrite(recent, kind, id)
    case None => true
    case Some(cmd) =>
      var key, m := StorageTarget(cmd).value.key, StoreTable(s, kind);
      if cmd.isSet then key in m && m[key] == cmd.value else key !in m
  }

  ghost predicate Inv(node: string, s: Node, recent: seq<Command>)
  {
    && (forall kind, id :: SettledAt(s, recent, kind, id))
    && (forall i :: 0 <= i < |Pending(s)| ==> GoodEvent(node, Pending(s)[i]))
    && (s.restoring ==> recent == [])
    && (!s.restoring ==> GoodStore(s.store))
    && (forall kind, id :: LastWriteStored(recent, s.store, kind, id))
  }

  /** One event: a snapshot brings the listing, a command its record, and other records stay. */
  function AfterEvent(seen: Option<Record>, ev: Event, now: Option<Record>, kind: Kind, id: string): Option<Record>
  {
    if ev.Restore? then now else if Touches(ev, kind, id) then Written(ev.cmd) else seen
  }

  lemma {:induction false} SettledDropFirst(seen: Option<Record>, pending: seq<Event>, now: Option<Record>, kind: Kind,
                                            id: string)
    requires pending != []
    ensures Settled(seen, pending, now, kind, id)
         == Settled(AfterEvent(seen, pending[0], now, kind, id), pending[1..], now, kind, id)
  {
    if |pending| > 1 {
      SettledDropFirst(seen, pending[..|pending| - 1], now, kind, id);
      assert pending[..|pending| - 1][1..] == pending[1..][..|pending| - 2];
    }
  }

  lemma StoredIsGood(node: string, s: Store, cmd: Command)
    requires GoodCommand(node, cmd) && GoodStore(s)
    ensures GoodStore(Stored(s, cmd))
  {
    var s' := Stored(s, cmd);
    forall kind, key | key in StoreTable(s', kind)
      ensures GoodEntry(s', kind, key)
    {
      assert key in StoreTable(s, kind) ==> GoodEntry(s, kind, key);
    }
  }

  /** A command leaves the records of other IDs alone. */
  lemma StoredElsewhere(s: Store, cmd: Command, kind: Kind, key: Key)
    requires !Writes(cmd, kind, key.1)
    ensures var m, m' := StoreTable(s, kind), StoreTable(Stored(s, cmd), kind);
            (key in m <==> key in m') && (key in m ==> m[key] == m'[key])
  {
  }

  lemma ReflectedFind(node: string, t: Tables, cmd: Command, kind: Kind, id: string)
    requires GoodCommand(node, cmd)
    ensures Find(Table(Reflected(t, cmd, node), kind), id)
         == if Writes(cmd, kind, id) then Written(cmd) else Find(Table(t, kind), id)
  {
  }

  lemma LastWriteAppend(recent: seq<Command>, cmd: Command, kind: Kind, id: string)
    ensures LastWrite(recent + [cmd], kind, id)
         == if Writes(cmd, kind, id) then Some(cmd) else LastWrite(recent, kind, id)
  {
    assert (recent + [cmd])[..|recent|] == recent;
  }

  lemma StoreOneStored(s: Store, cmd: Command, recent: seq<Command>, kind: Kind, id: string)
    requires LastWriteStored(recent, s, kind, id)
    ensures LastWriteStored(recent + [cmd], Stored(s, cmd), kind, id)
  {
    LastWriteAppend(recent, cmd, kind, id);
    var last := LastWrite(recent, kind, id);
    if !Writes(cmd, kind, id) && last.Some? {
      StoredElsewhere(s, cmd, kind, StorageTarget(last.value).value.key);
    }
  }

  lemma StoreOneSettled(s: Node, cmd: Command, s': Node, recent: seq<Command>, kind: Kind, id: string)
    requires !s.restoring && SettledAt(s, recent, kind, id)
    requires s' == s.(store := Stored(s.store, cmd), unreported := s.unreported + [Applied(cmd)])
    ensures SettledAt(s', recent + [cmd], kind, id)
  {
    LastWriteAppend(recent, cmd, kind, id);
    assert Pending(s') == Pending(s) + [Applied(cmd)];
    assert Pending(s')[..|Pending(s)|] == Pending(s);
    if !Writes(cmd, kind, id) {
      StoredElsewhere(s.store, cmd, kind, (DEFAULT_WORKSPACE, id));
    }
  }

  /** A stored command and its pending report settle the ID at what was stored. */
  lemma StoreOne(node: string, s: Node, cmd: Command, s': Node, recent: seq<Command>)
    requires Inv(node, s, recent) && !s.restoring && GoodCommand(node, cmd)
    requires s' == s.(store := Stored(s.store, cmd), unreported := s.unreported + [Applied(cmd)])
    ensures Inv(node, s', recent + [cmd])
  {
    assert Pending(s') == Pending(s) + [Applied(cmd)];
    StoredIsGood(node, s.store, cmd);
    forall kind, id
      ensures SettledAt(s', recent + [cmd], kind, id) && LastWriteStored(recent + [cmd], s'.store, kind, id)
    {
      assert SettledAt(s, recent, kind, id) && LastWriteStored(recent, s.store, kind, id);
      StoreOneSettled(s, cmd, s', recent, kind, id);
      StoreOneStored(s.store, cmd, recent, kind, id);
    }
  }

  /** The whole batch, one command at a time. */
  lemma {:induction false} ApplyKeepsInv(node: string, s: Node, cmds: seq<Command>, recent: seq<Command>)
    requires Inv(node, s, recent) && !s.restoring
    requires forall i :: 0 <= i < |cmds| ==> GoodCommand(node, cmds[i])
    ensures Inv(node, s.(store := StoredAll(s.store, cmds), unreported := s.unreported + Reports(cmds)), recent + cmds)
    decreases |cmds|
  {
    if cmds == [] {
      assert s.unreported + Reports(cmds) == s.unreported && recent + cmds == recent;
    } else {
      var mid := s.(store := Stored(s.store, cmds[0]), unreported := s.unreported + [Applied(cmds[0])]);
      StoreOne(node, s, cmds[0], mid, recent);
      ApplyKeepsInv(node, mid, cmds[1..], recent + [cmds[0]]);
      assert Reports(cmds) == [Applied(cmds[0])] + Reports(cmds[1..]);
      assert s.unreported + Reports(cmds) == mid.unreported + Reports(cmds[1..]);
      assert recent + [cmds[0]] + cmds[1..] == recent + cmds;
    }
  }

  lemma HandleKeepsInv(node: string, s: Node, s': Node, recent: seq<Command>)
    requires Inv(node, s, recent) && Next(node, s, Handle, s')
    ensures Inv(node, s', recent)
  {
    assert Pending(s)[0] == s.queue[0] && Pending(s') == Pending(s)[1..];
    assert GoodEvent(node, Pending(s)[0]);
    forall kind, id
      ensures SettledAt(s', recent, kind, id)
    {
      assert SettledAt(s, recent, kind, id);
      SettledDropFirst(Seen(s, kind, id), Pending(s), DefaultFind(s.store, kind, id), kind, id);
      if s.queue[0].Applied? {
        ReflectedFind(node, s.memory, s.queue[0].cmd, kind, id);
      }
    }
  }

  /** Listing a good table finds for every ID the record of the default workspace, and nothing else. */
  lemma ListingFinds(s: Store, kind: Kind, listing: seq<Record>, id: string)
    requires GoodStore(s) && Lists(StoreTable(s, kind), listing)
    ensures Find(Listed(listing), id) == DefaultFind(s, kind, id)
  {
    ListedIsListing(listing);
    var m := StoreTable(s, kind);
    if id in Listed(listing) {
      var r := Listed(listing)[id];
      var key :| key in m && key.0 == DEFAULT_WORKSPACE && m[key] == Some(r);
      assert GoodEntry(s, kind, key);
    }
    if (DEFAULT_WORKSPACE, id) in m {
      assert GoodEntry(s, kind, (DEFAULT_WORKSPACE, id));
    }
  }

  /** A read of Resync keeps what is about to be seen, or a snapshot that is still coming makes it irrelevant. */
  lemma ReadKeepsInv(node: string, s: Node, s': Node, kind: Kind, listing: seq<Record>, recent: seq<Command>)
    requires Inv(node, s, recent) && Lists(StoreTable(s.store, kind), listing)
    requires s'.store == s.store && Pending(s') == Pending(s) && s'.restoring == s.restoring
    requires forall id :: Seen(s, kind, id) == DefaultFind(s.store, kind, id)
    requires forall id :: Seen(s', kind, id) == Find(Listed(listing), id)
    requires forall k, id :: k != kind ==> Seen(s', k, id) == Seen(s, k, id)
    ensures Inv(node, s', recent)
  {
    forall k, id
      ensures SettledAt(s', recent, k, id)
    {
      assert SettledAt(s, recent, k, id);
      if k == kind {
        if s.restoring {
          assert Last(Pending(s)).Restore?;
        } else {
          ListingFinds(s.store, kind, listing, id);
        }
      }
    }
  }

  /** Once a snapshot is pending, every ID settles at what a listing of storage finds for it in the end. */
  lemma RestoreSettles(node: string, s: Node, s': Node, recent: seq<Command>)
    requires Inv(node, s, recent) && Pending(s') != [] && Last(Pending(s')).Restore?
    requires forall i :: 0 <= i < |Pending(s')| ==> Pending(s')[i] in Pending(s) || Pending(s')[i].Restore?
    requires !s'.restoring ==> GoodStore(s'.store)
    ensures Inv(node, s', [])
  {
    forall i | 0 <= i < |Pending(s')|
      ensures GoodEvent(node, Pending(s')[i])
    {
      if Pending(s')[i] in Pending(s) {
        var j :| 0 <= j < |Pending(s)| && Pending(s)[j] == Pending(s')[i];
        assert GoodEvent(node, Pending(s)[j]);
      }
    }
  }

  /** Nothing changed that the invariant looks at. */
  lemma SameSettled(node: string, s: Node, s': Node, recent: seq<Command>)
    requires Inv(node, s, recent)
    requires s'.store == s.store && s'.restoring == s.restoring && Pending(s') == Pending(s)
    requires forall kind, id :: Seen(s', kind, id) == Seen(s, kind, id)
    ensures Inv(node, s', recent)
  {
    forall kind, id
      ensures SettledAt(s', recent, kind, id)
    {
      assert SettledAt(s, recent, kind, id);
    }
  }

  function RecentAfter(recent: seq<Command>, step: Step): seq<Command>
  {
    match step case BeginRestore => [] case Apply(cmds) => recent + cmds case _ => recent
  }

  lemma StepKeepsInv(node: string, s: Node, step: Step, s': Node, recent: seq<Command>)
    requires Inv(node, s, recent) && Next(node, s, step, s') && GoodStep(node, s, step)
    ensures Inv(node, s', RecentAfter(recent, step))
  {
    match step
    case Apply(cmds) => ApplyKeepsInv(node, s, cmds, recent);
    case Handle => HandleKeepsInv(node, s, s', recent);
    case Report =>
      assert s.unreported == [s.unreported[0]] + s.unreported[1..];
      assert Pending(s') == Pending(s);
      SameSettled(node, s, s', recent);
    case ReadChannels(listing) => ReadKeepsInv(node, s, s', Channels, listing, recent);
    case ReadRules(listing) => ReadKeepsInv(node, s, s', Rules, listing, recent);
    case InstallBoth => SameSettled(node, s, s', recent);
    case BeginRestore =>
      assert Pending(s') == Pending(s) + [Restore];
      RestoreSettles(node, s, s', recent);
    case RestoreWrite(_) =>
      assert Last(Pending(s')) == Restore && Pending(s') == Pending(s);
      RestoreSettles(node, s, s', recent);
    case FinishRestore =>
      assert Pending(s') == Pending(s);
      RestoreSettles(node, s, s', recent);
  }

  lemma StartIsSettled(node: string, s: Node)
    requires Init(s) && GoodStore(s.store)
    ensures Inv(node, s, [])
  {
    assert Pending(s) == [];
    forall kind, id
      ensures SettledAt(s, [], kind, id)
    {
      assert Loaded(s.store, s.memory, kind);
      var listing :| Lists(StoreTable(s.store, kind), listing) && Table(s.memory, kind) == Listed(listing);
      ListingFinds(s.store, kind, listing, id);
    }
  }

  lemma {:induction false} RunKeepsInv(node: string, states: seq<Node>, steps: seq<Step>, k: nat)
    requires Run(node, states, steps) && GoodRun(node, states, steps) && k < |states|
    ensures Inv(node, states[k], Recent(steps[..k]))
  {
    if k == 0 {
      StartIsSettled(node, states[0]);
    } else {
      RunKeepsInv(node, states, steps, k - 1);
      assert StepAt(node, states, steps, k - 1);
      assert GoodStep(node, states[k - 1], steps[k - 1]);
      StepKeepsInv(node, states[k - 1], steps[k - 1], states[k], Recent(steps[..k - 1]));
      assert steps[..k][..k - 1] == steps[..k - 1];
    }
  }

  predicate Drained(s: Node)
  {
    s.queue == [] && s.unreported == [] && !s.restoring && s.phase == Ready
  }

  /**
    In every interleaving, a node that has handled everything holds for every ID
    the last write since it started or last restored a snapshot, in whatever
    workspace that was, and otherwise the record of the default workspace.
   */
  lemma DrainedMemory(node: string, states: seq<Node>, steps: seq<Step>, k: nat, kind: Kind, id: string)
    requires Run(node, states, steps) && GoodRun(node, states, steps) && k < |states| && Drained(states[k])
    ensures Find(Table(states[k].memory, kind), id) == Expected(Recent(steps[..k]), states[k].store, kind, id)
  {
    RunKeepsInv(node, states, steps, k);
    assert Pending(states[k]) == [] && SettledAt(states[k], Recent(steps[..k]), kind, id);
  }

  /**
    Such a node mirrors storage exactly when every stored record is the last write
    of its ID since the start or the last snapshot or, for an ID not written since,
    equals the record of the default workspace.
   */
  lemma DrainedMirrorsIff(node: string, states: seq<Node>, steps: seq<Step>, k: nat, kind: Kind)
    requires Run(node, states, steps) && GoodRun(node, states, steps) && k < |states| && Drained(states[k])
    ensures Mirrors(states[k].memory, states[k].store, kind)
       <==> forall key :: key in StoreTable(states[k].store, kind) ==>
              StoreTable(states[k].store, kind)[key] == Expected(Recent(steps[..k]), states[k].store, kind, key.1)
  {
    var s, recent := states[k], Recent(steps[..k]);
    forall id
      ensures Find(Table(s.memory, kind), id) == Expected(recent, s.store, kind, id)
    {
      DrainedMemory(node, states, steps, k, kind, id);
    }
    forall id | id in Table(s.memory, kind)
      ensures exists key :: key in StoreTable(s.store, kind) && key.1 == id
    {
      RunKeepsInv(node, states, steps, k);
      ExpectedIsStored(recent, s.store, kind, id);
    }
  }

  lemma ExpectedIsStored(recent: seq<Command>, s: Store, kind: Kind, id: string)
    requires LastWriteStored(recent, s, kind, id) && Expected(recent, s, kind, id).Some?
    ensures exists key :: key in StoreTable(s, kind) && key.1 == id
  {
    match LastWrite(recent, kind, id)
    case Some(cmd) => assert StorageTarget(cmd).value.key in StoreTable(s, kind);
    case None => assert (DEFAULT_WORKSPACE, id) in StoreTable(s, kind);
  }

  // ---------------------------------------------------------------------
  // When every ID is used in one workspace only
  // ---------------------------------------------------------------------

  /** The one workspace in which an ID of a kind is used. */
  type Homes = (Kind, string) -> string

  ghost predicate Homed(homes: Homes, s: Store, recent: seq<Command>, kind: Kind)
  {
    && (forall key :: key in StoreTable(s, kind) ==> key.0 == homes(kind, key.1))
    && (forall cmd, id :: cmd in recent && Writes(cmd, kind, id) ==> StorageTarget(cmd).value.key.0 == homes(kind, id))
  }

  /**
    A drained node mirrors storage exactly when every stored record is in the
    default workspace or was written since the node started or last restored a
    snapshot.
   */
  lemma DrainedMemoryEqualsStorage(node: string, homes: Homes, states: seq<Node>, steps: seq<Step>, k: nat, kind: Kind)
    requires Run(node, states, steps) && GoodRun(node, states, steps) && k < |states| && Drained(states[k])
    requires Homed(homes, states[k].store, Recent(steps[..k]), kind)
    ensures Mirrors(states[k].memory, states[k].store, kind)
       <==> forall key :: key in StoreTable(states[k].store, kind) ==>
              key.0 == "default" || LastWrite(Recent(steps[..k]), kind, key.1).Some?
  {
    var s, recent := states[k], Recent(steps[..k]);
    DrainedMirrorsIff(node, states, steps, k, kind);
    RunKeepsInv(node, states, steps, k);
    forall key | key in StoreTable(s.store, kind)
      ensures StoreTable(s.store, kind)[key] == Expected(recent, s.store, kind, key.1)
         <==> key.0 == DEFAULT_WORKSPACE || LastWrite(recent, kind, key.1).Some?
    {
      assert GoodEntry(s.store, kind, key) && LastWriteStored(recent, s.store, kind, key.1);
      HomedExpected(homes, recent, s.store, kind, key);
    }
  }

  lemma HomedExpected(homes: Homes, recent: seq<Command>, s: Store, kind: Kind, key: Key)
    requires Homed(homes, s, recent, kind) && LastWriteStored(recent, s, kind, key.1)
    requires key in StoreTable(s, kind) && GoodEntry(s, kind, key)
    ensures StoreTable(s, kind)[key] == Expected(recent, s, kind, key.1)
       <==> key.0 == DEFAULT_WORKSPACE || LastWrite(recent, kind, key.1).Some?
  {
    var last := LastWrite(recent, kind, key.1);
    if last.Some? {
      assert StorageTarget(last.value).value.key == key;
    }
  }

  // ---------------------------------------------------------------------
  // One Resync, and one command
  // ---------------------------------------------------------------------

  /** A Resync leaves memory mirroring a store exactly when every record equals that of the default workspace. */
  lemma ResyncMirrorsIff(s: Store, memory: Tables, kind: Kind, listing: seq<Record>)
    requires GoodStore(s) && Lists(StoreTable(s, kind), listing) && Table(memory, kind) == Listed(listing)
    ensures Mirrors(memory, s, kind)
       <==> forall key :: key in StoreTable(s, kind) ==> StoreTable(s, kind)[key] == DefaultFind(s, kind, key.1)
  {
    forall id
      ensures Find(Table(memory, kind), id) == DefaultFind(s, kind, id)
      ensures id in Table(memory, kind) ==> (DEFAULT_WORKSPACE, id) in StoreTable(s, kind)
    {
      ListingFinds(s, kind, listing, id);
    }
  }

  predicate UniqueIds(s: Store, kind: Kind)
  {
    forall key, key' :: key in StoreTable(s, kind) && key' in StoreTable(s, kind) && key.1 == key'.1 ==> key == key'
  }

  /** With unique IDs: exactly when every stored record is in the default workspace. */
  lemma ResyncMirrorsUniqueIff(s: Store, memory: Tables, kind: Kind, listing: seq<Record>)
    requires GoodStore(s) && Lists(StoreTable(s, kind), listing) && Table(memory, kind) == Listed(listing)
    requires UniqueIds(s, kind)
    ensures Mirrors(memory, s, kind) <==> forall key :: key in StoreTable(s, kind) ==> key.0 == "default"
  {
    ResyncMirrorsIff(s, memory, kind, listing);
    forall key | key in StoreTable(s, kind)
      ensures StoreTable(s, kind)[key] == DefaultFind(s, kind, key.1) <==> key.0 == DEFAULT_WORKSPACE
    {
      assert GoodEntry(s, kind, key);
      assert (DEFAULT_WORKSPACE, key.1) in StoreTable(s, kind) ==> (DEFAULT_WORKSPACE, key.1) == key;
    }
  }

  /** Every other workspace that stores the ID stores exactly what the command sets. */
  ghost predicate OthersAgree(s: Store, kind: Kind, key: Key, cmd: Command)
  {
    forall other :: other in StoreTable(s, kind) && other.1 == key.1 && other != key ==>
      cmd.isSet && StoreTable(s, kind)[other] == cmd.value
  }

  /**
    Storing and handling a command keeps the mirror exactly when no other
    workspace stores the ID, or the command sets the very record they store.
   */
  lemma CommandKeepsMirrorIff(node: string, s: Store, memory: Tables, cmd: Command, kind: Kind, key: Key)
    requires GoodStore(s) && Mirrors(memory, s, kind)
    requires GoodCommand(node, cmd) && StorageTarget(cmd) == Some(Target(kind, key))
    ensures Mirrors(Reflected(memory, cmd, node), Stored(s, cmd), kind) <==> OthersAgree(s, kind, key, cmd)
  {
    var m, m', memory' := StoreTable(s, kind), StoreTable(Stored(s, cmd), kind), Reflected(memory, cmd, node);
    forall id
      ensures Find(Table(memory', kind), id) == if id == key.1 then Written(cmd) else Find(Table(memory, kind), id)
    {
      ReflectedFind(node, memory, cmd, kind, id);
    }
    forall other | other in m
      ensures GoodEntry(s, kind, other) && (other != key ==> other in m' && m'[other] == m[other])
    {
    }
    if OthersAgree(s, kind, key, cmd) {
      CommandKeepsMirror(s, memory, cmd, kind, key, Stored(s, cmd), memory');
    } else {
      var other :| other in m && other.1 == key.1 && other != key && !(cmd.isSet && m[other] == cmd.value);
      assert other in m' && m'[other] != Written(cmd);
    }
  }

  lemma CommandKeepsMirror(s: Store, memory: Tables, cmd: Command, kind: Kind, key: Key, s': Store, memory': Tables)
    requires GoodStore(s) && Mirrors(memory, s, kind) && OthersAgree(s, kind, key, cmd)
    requires StoreTable(s', kind) == PutStored(StoreTable(s, kind), key, cmd)
    requires cmd.isSet ==> cmd.value.Some?
    requires forall id :: Find(Table(memory', kind), id)
                       == if id == key.1 then Written(cmd) else Find(Table(memory, kind), id)
    ensures Mirrors(memory', s', kind)
  {
    var m, m' := StoreTable(s, kind), StoreTable(s', kind);
    forall id | id in Table(memory', kind)
      ensures exists k :: k in m' && k.1 == id
    {
      if id == key.1 {
        assert Find(Table(memory', kind), id).Some? && key in m';
      } else {
        assert Find(Table(memory', kind), id) == Find(Table(memory, kind), id);
        var k :| k in m && k.1 == id;
        assert k in m';
      }
    }
  }

  // ---------------------------------------------------------------------
  // A snapshot loses the records of other workspaces
  // ---------------------------------------------------------------------

  /** A channel is stored and loaded, then a snapshot that changes nothing is restored and handled. */
  function LostSteps(ws: string, id: string, body: string): seq<Step>
  {
    [Apply([ChannelWrite(ws, id, Some(body))]), Report, Handle,
     BeginRestore, FinishRestore, Report, Handle, ReadChannels([]), ReadRules([]), InstallBoth]
  }

  function LostStates(ws: string, id: string, body: string): seq<Node>
  {
    var ev, r := Applied(ChannelWrite(ws, id, Some(body))), Record(id, body);
    var none, one := Tables(map[], map[]), Tables(map[id := r], map[]);
    var empty, store := Store(map[], map[]), Store(map[(ws, id) := Some(r)], map[]);
    [Node(empty, false, [], [], Ready, none),
     Node(store, false, [ev], [], Ready, none),
     Node(store, false, [], [ev], Ready, none),
     Node(store, false, [], [], Ready, one),
     Node(store, true, [], [], Ready, one),
     Node(store, false, [Restore], [], Ready, one),
     Node(store, false, [], [Restore], Ready, one),
     Node(store, false, [], [], Resyncing, one),
     Node(store, false, [], [], HaveChannels(map[]), one),
     Node(store, false, [], [], HaveBoth(map[], map[]), one),
     Node(store, false, [], [], Ready, none)]
  }

  lemma OneStored(ws: string, id: string, body: string)
    ensures var cmd := ChannelWrite(ws, id, Some(body));
            && Reports([cmd]) == [Applied(cmd)]
            && StoredAll(Store(map[], map[]), [cmd]) == Store(map[(ws, id) := Some(Record(id, body))], map[])
  {
    var cmd := ChannelWrite(ws, id, Some(body));
    assert [cmd][1..] == [];
    assert Stored(Store(map[], map[]), cmd) == Store(map[(ws, id) := Some(Record(id, body))], map[]);
  }

  lemma LostFirstSteps(node: string, ws: string, id: string, body: string)
    requires id != ""
    ensures var w, s := LostStates(ws, id, body), LostSteps(ws, id, body);
            forall i :: 0 <= i < 3 ==> StepAt(node, w, s, i)
  {
    var w, s := LostStates(ws, id, body), LostSteps(ws, id, body);
    LostApply(node, ws, id, body);
    assert StepAt(node, w, s, 1);
    assert StepAt(node, w, s, 2);
  }

  lemma LostApply(node: string, ws: string, id: string, body: string)
    ensures StepAt(node, LostStates(ws, id, body), LostSteps(ws, id, body), 0)
  {
    OneStored(ws, id, body);
  }

  lemma LostRestoreSteps(node: string, ws: string, id: string, body: string)
    ensures var w, s := LostStates(ws, id, body), LostSteps(ws, id, body);
            forall i :: 3 <= i < 7 ==> StepAt(node, w, s, i)
  {
    var w, s := LostStates(ws, id, body), LostSteps(ws, id, body);
    assert StepAt(node, w, s, 3);
    assert StepAt(node, w, s, 4);
    assert StepAt(node, w, s, 5);
    assert StepAt(node, w, s, 6);
  }

  lemma LostLastSteps(node: string, ws: string, id: string, body: string)
    requires ws != "default"
    ensures var w, s := LostStates(ws, id, body), LostSteps(ws, id, body);
            forall i :: 7 <= i < 10 ==> StepAt(node, w, s, i)
  {
    var w, s := LostStates(ws, id, body), LostSteps(ws, id, body);
    assert Lists(w[7].store.channels, []) && Lists(w[8].store.rules, []);
    assert StepAt(node, w, s, 7);
    assert StepAt(node, w, s, 8);
    assert StepAt(node, w, s, 9);
  }

  /** For any other workspace, any ID and any body: memory held the channel and drops it, storage keeps it. */
  lemma RestoreLosesRecord(node: string, ws: string, id: string, body: string)
    requires ws != "default" && id != ""
    ensures var w, s := LostStates(ws, id, body), LostSteps(ws, id, body);
            && Run(node, w, s) && GoodRun(node, w, s)
            && Drained(w[3]) && Mirrors(w[3].memory, w[3].store, Channels)
            && Drained(w[10]) && (ws, id) in w[10].store.channels && id !in w[10].memory.channels
            && !Mirrors(w[10].memory, w[10].store, Channels)
  {
    var w, s := LostStates(ws, id, body), LostSteps(ws, id, body);
    StartEmpty();
    LostFirstSteps(node, ws, id, body);
    LostRestoreSteps(node, ws, id, body);
    LostLastSteps(node, ws, id, body);
    assert (ws, id) in StoreTable(w[10].store, Channels) && (ws, id) in StoreTable(w[3].store, Channels);
    forall i | 0 <= i < |s|
      ensures GoodStep(node, w[i], s[i])
    {
      assert s[i].Apply? ==> i == 0;
    }
  }

  // ---------------------------------------------------------------------
  // An ID used in two workspaces loses its record
  // ---------------------------------------------------------------------

  function ChannelWrite(ws: string, id: string, body: Option<string>): Command
  {
    Command(body.Some?, "", [ws, "alerts", "channels", id],
            if body.Some? then Some(Record(id, body.value)) else None, "")
  }

  /** The channel is created in two workspaces and deleted in the second. */
  function SharedIdCommands(a: string, b: string, id: string, body: string): seq<Command>
  {
    [ChannelWrite(a, id, Some(body)), ChannelWrite(b, id, Some(body)), ChannelWrite(b, id, None)]
  }

  function SharedIdSteps(a: string, b: string, id: string, body: string): seq<Step>
  {
    [Apply(SharedIdCommands(a, b, id, body)), Report, Report, Report, Handle, Handle, Handle]
  }

  function SharedIdStates(a: string, b: string, id: string, body: string): seq<Node>
  {
    var evs := Reports(SharedIdCommands(a, b, id, body));
    var r := Record(id, body);
    var none, one := Tables(map[], map[]), Tables(map[id := r], map[]);
    var empty, store := Store(map[], map[]), Store(map[(a, id) := Some(r)], map[]);
    [Node(empty, false, [], [], Ready, none),
     Node(store, false, evs, [], Ready, none),
     Node(store, false, evs[1..], evs[..1], Ready, none),
     Node(store, false, evs[2..], evs[..2], Ready, none),
     Node(store, false, [], evs, Ready, none),
     Node(store, false, [], evs[1..], Ready, one),
     Node(store, false, [], evs[2..], Ready, one),
     Node(store, false, [], [], Ready, none)]
  }

  lemma SharedIdStores(a: string, b: string, id: string, body: string)
    requires a != b
    ensures StoredAll(Store(map[], map[]), SharedIdCommands(a, b, id, body))
         == Store(map[(a, id) := Some(Record(id, body))], map[])
  {
    var cmds, r := SharedIdCommands(a, b, id, body), Record(id, body);
    var s1 := Store(map[(a, id) := Some(r)], map[]);
    var s2 := Store(map[(a, id) := Some(r), (b, id) := Some(r)], map[]);
    assert Stored(Store(map[], map[]), cmds[0]) == s1;
    assert Stored(s1, cmds[1]) == s2;
    assert Stored(s2, cmds[2]).channels == s1.channels;
    assert StoredAll(s2, cmds[2..]) == s1;
    assert StoredAll(s1, cmds[1..]) == s1;
  }

  /** For any two workspaces, any ID and any body: memory has lost the channel that the first workspace still stores. */
  lemma SharedIdLosesRecord(node: string, a: string, b: string, id: string, body: string)
    requires a != b && id != ""
    ensures Run(node, SharedIdStates(a, b, id, body), SharedIdSteps(a, b, id, body))
    ensures var s := SharedIdStates(a, b, id, body)[7];
            && Drained(s) && (a, id) in s.store.channels && id !in s.memory.channels
            && !Mirrors(s.memory, s.store, Channels)
  {
    StartEmpty();
    SharedIdReports(node, a, b, id, body);
    SharedIdHandles(node, a, b, id, body);
    var s := SharedIdStates(a, b, id, body)[7];
    assert (a, id) in StoreTable(s.store, Channels);
  }

  lemma SharedIdReports(node: string, a: string, b: string, id: string, body: string)
    requires a != b
    ensures var w, s := SharedIdStates(a, b, id, body), SharedIdSteps(a, b, id, body);
            forall i :: 0 <= i < 4 ==> StepAt(node, w, s, i)
  {
    var w, s := SharedIdStates(a, b, id, body), SharedIdSteps(a, b, id, body);
    SharedIdApply(node, a, b, id, body);
    assert StepAt(node, w, s, 1);
    assert StepAt(node, w, s, 2);
    assert StepAt(node, w, s, 3);
  }

  lemma SharedIdApply(node: string, a: string, b: string, id: string, body: string)
    requires a != b
    ensures StepAt(node, SharedIdStates(a, b, id, body), SharedIdSteps(a, b, id, body), 0)
  {
    SharedIdStores(a, b, id, body);
    var evs := Reports(SharedIdCommands(a, b, id, body));
    assert [] + evs == evs;
  }

  lemma SharedIdHandles(node: string, a: string, b: string, id: string, body: string)
    requires a != b && id != ""
    ensures var w, s := SharedIdStates(a, b, id, body), SharedIdSteps(a, b, id, body);
            forall i :: 4 <= i < 7 ==> StepAt(node, w, s, i)
  {
    var w, s := SharedIdStates(a, b, id, body), SharedIdSteps(a, b, id, body);
    assert StepAt(node, w, s, 4);
    assert StepAt(node, w, s, 5);
    assert w[7].memory.channels == w[6].memory.channels - {id};
    assert StepAt(node, w, s, 6);
  }
}
