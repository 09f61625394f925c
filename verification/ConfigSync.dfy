/**
 The replicated settings database of identity-linked engines, as values.

 A `Snapshot` is one engine's whole copy of the database: what an engine stores, and what it
 sends to a peer. The functions below are the effect of each replica operation on that value;
 the class in `ConfigSyncReplica` performs them in place.
 */
module ConfigSync {
  import opened Outcomes

  /** An instance UUID. Only its identity and its order, the order of its text, are used. */
  type Id = nat
  type Key = string
  type Value = string
  type Code = string

  const COUNTER_MAX: int := 0xFFFF_FFFF
  type Counter = c: int | 0 <= c <= COUNTER_MAX

  datatype Clock = Clock(wall: int, counter: Counter, node: Id)

  datatype Field = Field(key: Key, value: Value, deleted: bool, clock: Clock, writer: Id)
  type Record = map<Key, Field>

  datatype Connection = Connection(instance: Id, details: string, online: bool, lastSeen: string, clock: Clock)

  datatype EditStatus = Pending | Applied | Superseded
  /** The formatted edit id. A key may hold any character, but ids and numbers hold no separator,
      so the formatted text determines the three parts. */
  datatype EditId = EditId(target: Id, path: Key, clock: Clock)
  datatype Edit = Edit(id: EditId, target: Id, path: Key, value: Value, deleted: bool,
                       clock: Clock, origin: Id, status: EditStatus)

  datatype CommandAction = Issue | Accept | UnknownAction(text: string)
  datatype CommandStatus = Waiting | Done | Failed
  datatype CommandId = CommandId(target: Id, action: CommandAction, clock: Clock)
  datatype Command = Command(id: CommandId, target: Id, action: CommandAction, code: Code,
                             expires: string, status: CommandStatus, message: string,
                             clock: Clock, origin: Id)

  datatype Snapshot = Snapshot(group: string, id: Id, records: map<Id, Record>,
                               connections: map<Id, Connection>, pending: seq<Edit>,
                               onboarding: seq<Command>, local: Clock)

  /** What the text checks decide: UUID syntax, key syntax, secret-looking text, pairing codes,
      and the textual order of edit ids. Everything below holds for every such choice. */
  datatype Policy = Policy(idOk: Id -> bool, keyOk: Key -> bool, safe: (Key, Value) -> bool,
                           connectionOk: Connection -> bool, blank: Code -> bool,
                           normalize: Code -> Option<Code>, idBefore: (EditId, EditId) -> bool,
                           timeText: int -> string)

  predicate Admissible(p: Policy, key: Key, value: Value) {
    p.keyOk(key) && p.safe(key, value)
  }

  // ---------------------------------------------------------------- clocks

  /** 1 when `a` is later, -1 when it is earlier, 0 when the clocks are identical. */
  function Compare(a: Clock, b: Clock): int {
    if a.wall != b.wall then (if a.wall > b.wall then 1 else -1)
    else if a.counter != b.counter then (if a.counter > b.counter then 1 else -1)
    else if a.node > b.node then 1
    else if a.node < b.node then -1
    else 0
  }

  predicate Later(a: Clock, b: Clock) {
    Compare(a, b) > 0
  }

  /** Wall time and counter of `c` do not pass those of `bound`; the node plays no part. */
  predicate Covers(bound: Clock, c: Clock) {
    c.wall < bound.wall || (c.wall == bound.wall && c.counter <= bound.counter)
  }

  function NextClock(local: Clock, id: Id, wall: int): Clock {
    var w := if wall < local.wall then local.wall else wall;
    var counter := if w == local.wall
                   then (if local.counter == COUNTER_MAX then 0 else local.counter + 1)
                   else 0;
    Clock(w, counter, id)
  }

  /** The next clock would overflow the 32-bit counter. */
  predicate Wraps(local: Clock, wall: int) {
    wall <= local.wall && local.counter == COUNTER_MAX
  }

  function Witness(local: Clock, id: Id, remote: Clock): Clock {
    if Later(remote, local) then Clock(remote.wall, remote.counter, id) else local
  }

  /** A new clock is later than every clock the local one covers, exactly when the counter does
      not wrap. */
  lemma TickAdvancesUnlessItWraps(local: Clock, id: Id, wall: int)
    ensures !Wraps(local, wall) <==>
            forall c :: Covers(local, c) ==> Later(NextClock(local, id, wall), c)
    ensures !Wraps(local, wall) ==>
            Covers(NextClock(local, id, wall), local) && !Covers(local, NextClock(local, id, wall))
  {
    if Wraps(local, wall) {
      assert Covers(local, local) && !Later(NextClock(local, id, wall), local);
    }
  }

  /** Witnessing a clock covers it, but does not always overtake it: with equal wall time and
      counter a larger writer id still compares as later than the local clock. */
  lemma WitnessCoversButMayCompareBehind(local: Clock, id: Id, remote: Clock)
    requires local.node == id
    ensures Covers(Witness(local, id, remote), remote) && Covers(Witness(local, id, remote), local)
    ensures Later(remote, Witness(local, id, remote)) <==> Covers(remote, local) && remote.node > id
  {
    var after := Witness(local, id, remote);
    assert Later(remote, local) || after == local;
  }

  // ---------------------------------------------------------------- one engine's own writes

  function Own(r: Snapshot): Record {
    if r.id in r.records then r.records[r.id] else map[]
  }

  function NewSnapshot(group: string, id: Id): Snapshot {
    Snapshot(group, id, map[], map[], [], [], Clock(0, 0, id))
  }

  function Ticked(r: Snapshot, wall: int): Snapshot {
    r.(local := NextClock(r.local, r.id, wall))
  }

  function Witnessed(r: Snapshot, c: Clock): Snapshot {
    r.(local := Witness(r.local, r.id, c))
  }

  function PutOwn(r: Snapshot, key: Key, value: Value, deleted: bool, clock: Clock): Snapshot {
    r.(records := r.records[r.id := Own(r)[key := Field(key, value, deleted, clock, r.id)]])
  }

  function SetOwn(p: Policy, r: Snapshot, key: Key, value: Value, deleted: bool, wall: int): Snapshot {
    if !Admissible(p, key, value) then r
    else
      var t := Ticked(r, wall);
      PutOwn(t, key, value, deleted, t.local)
  }

  /** Replaces the first edit with the same id, or appends. */
  function UpsertEdit(s: seq<Edit>, e: Edit): seq<Edit> {
    if s == [] then [e]
    else if s[0].id == e.id then [e] + s[1..]
    else [s[0]] + UpsertEdit(s[1..], e)
  }

  /** Where an upserted edit ends up, and that nothing else moves. */
  lemma {:induction false} UpsertEditAt(s: seq<Edit>, e: Edit, i: nat)
    requires i <= |s| && (forall j :: 0 <= j < i ==> s[j].id != e.id) && (i < |s| ==> s[i].id == e.id)
    ensures UpsertEdit(s, e) == if i == |s| then s + [e] else s[i := e]
  {
    if i > 0 {
      UpsertEditAt(s[1..], e, i - 1);
    }
  }

  function NewEdit(r: Snapshot, target: Id, key: Key, value: Value, deleted: bool, clock: Clock): Edit {
    Edit(EditId(target, key, clock), target, key, value, deleted, clock, r.id,
         if target == r.id then Applied else Pending)
  }

  function QueueEdit(p: Policy, r: Snapshot, target: Id, key: Key, value: Value, deleted: bool, wall: int): Snapshot {
    if !p.idOk(target) || !Admissible(p, key, value) then r
    else
      var t := Ticked(r, wall);
      var u := if target == r.id then PutOwn(t, key, value, deleted, t.local) else t;
      u.(pending := UpsertEdit(u.pending, NewEdit(r, target, key, value, deleted, t.local)))
  }

  /** A connection as published: an online one without a time was last seen at the time of its clock. */
  function Stamped(p: Policy, conn: Connection, clock: Clock): Connection {
    conn.(clock := clock,
          lastSeen := if conn.lastSeen == "" && conn.online then p.timeText(clock.wall) else conn.lastSeen)
  }

  function Publish(p: Policy, r: Snapshot, conn: Connection, wall: int): Snapshot {
    if !p.idOk(conn.instance) || !p.connectionOk(conn) then r
    else
      var t := Ticked(r, wall);
      t.(connections := t.connections[conn.instance := Stamped(p, conn, t.local)])
  }

  // ---------------------------------------------------------------- onboarding commands

  /** The code a new command carries, when the request is acceptable. */
  function QueuedCode(p: Policy, action: CommandAction, code: Code): Option<Code> {
    match action
    case Issue => if p.blank(code) then Some(code) else None
    case Accept => p.normalize(code)
    case UnknownAction(_) => None
  }

  function NewCommand(r: Snapshot, target: Id, action: CommandAction, code: Code, clock: Clock): Command {
    Command(CommandId(target, action, clock), target, action, code, "", Waiting, "", clock, r.id)
  }

  function QueueOnboarding(p: Policy, r: Snapshot, target: Id, action: CommandAction, code: Code, wall: int): Snapshot {
    if !p.idOk(target) || QueuedCode(p, action, code).None? then r
    else
      var t := Ticked(r, wall);
      t.(onboarding := t.onboarding + [NewCommand(r, target, action, QueuedCode(p, action, code).value, t.local)])
  }

  /** Position of the first command with this id, or the length when there is none. */
  function FindCommand(s: seq<Command>, id: CommandId): (i: nat)
    ensures i <= |s|
    ensures i < |s| ==> s[i].id == id
    ensures forall j :: 0 <= j < i ==> s[j].id != id
  {
    if s == [] then 0 else if s[0].id == id then 0 else 1 + FindCommand(s[1..], id)
  }

  /** The code a finished command keeps: only a successful issue keeps one. */
  function FinalCode(p: Policy, action: CommandAction, status: CommandStatus, code: Code): Option<Code> {
    if action.Issue? && status.Done? then p.normalize(code) else Some("")
  }

  predicate Completes(p: Policy, r: Snapshot, id: CommandId, status: CommandStatus, code: Code) {
    && !status.Waiting?
    && var i := FindCommand(r.onboarding, id);
    && i < |r.onboarding|
    && r.onboarding[i].target == r.id
    && r.onboarding[i].status.Waiting?
    && FinalCode(p, r.onboarding[i].action, status, code).Some?
  }

  function Finished(p: Policy, r: Snapshot, id: CommandId, status: CommandStatus, code: Code,
                    expires: string, message: string, clock: Clock): Command
    requires Completes(p, r, id, status, code)
  {
    var c := r.onboarding[FindCommand(r.onboarding, id)];
    c.(status := status, expires := expires, message := message,
       code := FinalCode(p, c.action, status, code).value, clock := clock)
  }

  /** The command was found here, and had been completed before. */
  predicate AlreadyFinished(r: Snapshot, id: CommandId, status: CommandStatus) {
    && !status.Waiting?
    && var i := FindCommand(r.onboarding, id);
       i < |r.onboarding| && r.onboarding[i].target == r.id && !r.onboarding[i].status.Waiting?
  }

  function CompleteOnboarding(p: Policy, r: Snapshot, id: CommandId, status: CommandStatus, code: Code,
                              expires: string, message: string, wall: int): Snapshot
  {
    if !Completes(p, r, id, status, code) then r
    else
      var t := Ticked(r, wall);
      t.(onboarding := t.onboarding[FindCommand(r.onboarding, id) :=
                                    Finished(p, r, id, status, code, expires, message, t.local)])
  }

  /** Keeps the later of two copies of one command, or appends a new one. */
  function UpsertCommand(s: seq<Command>, c: Command): seq<Command> {
    if s == [] then [c]
    else if s[0].id == c.id then (if Later(c.clock, s[0].clock) then [c] + s[1..] else s)
    else [s[0]] + UpsertCommand(s[1..], c)
  }

  /** Where an upserted command ends up, and that nothing else moves. */
  lemma {:induction false} UpsertCommandAt(s: seq<Command>, c: Command)
    ensures var i, after := FindCommand(s, c.id), UpsertCommand(s, c);
            if i == |s| then after == s + [c]
            else after == s[i := if Later(c.clock, s[i].clock) then c else s[i]]
  {
    if s != [] && s[0].id != c.id {
      UpsertCommandAt(s[1..], c);
      var i := FindCommand(s[1..], c.id);
      assert FindCommand(s, c.id) == i + 1;
      if i < |s| - 1 {
        var v := if Later(c.clock, s[i + 1].clock) then c else s[i + 1];
        assert s[i + 1 := v] == [s[0]] + s[1..][i := v];
      }
    }
  }

  // ---------------------------------------------------------------- merging

  predicate TakesField(p: Policy, mine: Record, key: Key, field: Field) {
    Admissible(p, key, field.value) && (key !in mine || Later(field.clock, mine[key].clock))
  }

  function MergeRecord(p: Policy, mine: Record, theirs: Record): Record {
    map k | k in mine.Keys + theirs.Keys && (k in mine || TakesField(p, mine, k, theirs[k])) ::
      if k in theirs && TakesField(p, mine, k, theirs[k]) then theirs[k].(key := k) else mine[k]
  }

  function RecordOf(records: map<Id, Record>, x: Id): Record {
    if x in records then records[x] else map[]
  }

  predicate TakesRecord(p: Policy, id: Id, x: Id) {
    p.idOk(x) && x != id
  }

  /** Foreign records, field by field; the record of `id` itself is never touched. */
  function MergeRecords(p: Policy, id: Id, mine: map<Id, Record>, theirs: map<Id, Record>): map<Id, Record> {
    map x | x in mine.Keys + theirs.Keys && (x in mine || TakesRecord(p, id, x)) ::
      if x in theirs && TakesRecord(p, id, x) then MergeRecord(p, RecordOf(mine, x), theirs[x]) else mine[x]
  }

  predicate TakesConnection(p: Policy, mine: map<Id, Connection>, x: Id, conn: Connection) {
    p.idOk(x) && (x !in mine || Later(conn.clock, mine[x].clock))
  }

  function MergeConnections(p: Policy, mine: map<Id, Connection>, theirs: map<Id, Connection>): map<Id, Connection> {
    map x | x in mine.Keys + theirs.Keys && (x in mine || TakesConnection(p, mine, x, theirs[x])) ::
      if x in theirs && TakesConnection(p, mine, x, theirs[x]) then theirs[x] else mine[x]
  }

  /** What an incoming edit does here: one for this engine is decided at once, others are relayed. */
  function MergeEdit(p: Policy, r: Snapshot, e: Edit): Snapshot {
    var t := Witnessed(r, e.clock);
    if e.target == r.id && e.status.Pending? && Admissible(p, e.path, e.value) then
      if e.path !in Own(t) || Later(e.clock, Own(t)[e.path].clock) then
        PutOwn(t, e.path, e.value, e.deleted, e.clock).(pending := UpsertEdit(t.pending, e.(status := Applied)))
      else
        t.(pending := UpsertEdit(t.pending, e.(status := Superseded)))
    else
      t.(pending := UpsertEdit(t.pending, e))
  }

  function MergeEdits(p: Policy, r: Snapshot, edits: seq<Edit>): Snapshot {
    if edits == [] then r
    else MergeEdit(p, MergeEdits(p, r, edits[..|edits| - 1]), edits[|edits| - 1])
  }

  predicate TakesCommand(p: Policy, c: Command) {
    && p.idOk(c.target)
    && !c.action.UnknownAction?
    && (c.action.Accept? && c.code != "" ==> p.normalize(c.code).Some?)
  }

  function MergeCommand(p: Policy, r: Snapshot, c: Command): Snapshot {
    if !TakesCommand(p, c) then r
    else
      var t := Witnessed(r, c.clock);
      t.(onboarding := UpsertCommand(t.onboarding, c))
  }

  function MergeCommands(p: Policy, r: Snapshot, commands: seq<Command>): Snapshot {
    if commands == [] then r
    else MergeCommand(p, MergeCommands(p, r, commands[..|commands| - 1]), commands[|commands| - 1])
  }

  /** `c` is the clock of a foreign field or a connection that merging `remote` looks at. */
  ghost predicate Offers(p: Policy, id: Id, remote: Snapshot, c: Clock) {
    || (exists x, k :: x in remote.records && TakesRecord(p, id, x) && k in remote.records[x] &&
                       Admissible(p, k, remote.records[x][k].value) && remote.records[x][k].clock == c)
    || (exists x :: x in remote.connections && p.idOk(x) && remote.connections[x].clock == c)
  }

  predicate SameStamp(a: Clock, b: Clock) {
    a.wall == b.wall && a.counter == b.counter
  }

  /** `after` is the greatest of `before` and the clocks `offered`, stamped with the local node. */
  ghost predicate Raised(before: Clock, after: Clock, offered: iset<Clock>) {
    && after.node == before.node
    && Covers(after, before)
    && (forall c :: c in offered ==> Covers(after, c))
    && (SameStamp(after, before) || exists c :: c in offered && SameStamp(after, c))
  }

  lemma RaiseMore(a: Clock, b: Clock, c: Clock, first: iset<Clock>, second: iset<Clock>)
    requires Raised(a, b, first) && Raised(b, c, second)
    ensures Raised(a, c, first + second)
  {
    if !SameStamp(c, b) {
      var d :| d in second && SameStamp(c, d);
      assert d in first + second;
    } else if !SameStamp(b, a) {
      var d :| d in first && SameStamp(b, d);
      assert d in first + second && SameStamp(c, d);
    }
  }

  lemma WitnessRaises(before: Clock, id: Id, c: Clock)
    requires before.node == id
    ensures Raised(before, Witness(before, id, c), iset{c})
  {
    assert c in iset{c};
  }

  lemma WitnessAlso(first: Clock, before: Clock, id: Id, c: Clock, offered: iset<Clock>)
    requires before.node == id && Raised(first, before, offered)
    ensures Raised(first, Witness(before, id, c), offered + iset{c})
  {
    WitnessRaises(before, id, c);
    RaiseMore(first, before, Witness(before, id, c), offered, iset{c});
  }

  /** Records and connections of `remote` are folded in, in any order. */
  ghost predicate MergedMaps(p: Policy, l: Snapshot, remote: Snapshot, out: Snapshot) {
    && out == l.(group := if l.group == "" then remote.group else l.group,
                 records := MergeRecords(p, l.id, l.records, remote.records),
                 connections := MergeConnections(p, l.connections, remote.connections),
                 local := out.local)
    && Raised(l.local, out.local, iset c | Offers(p, l.id, remote, c))
  }

  /** `out` is a merge of `remote` into `l`: maps first, then edits and commands in list order,
      and both lists left in whatever order the final sort gives them. */
  ghost predicate MergeResult(p: Policy, l: Snapshot, remote: Snapshot, out: Snapshot) {
    exists m :: MergedMaps(p, l, remote, m) && SortedCopy(MergedLists(p, m, remote), out)
  }

  function MergedLists(p: Policy, m: Snapshot, remote: Snapshot): Snapshot {
    MergeCommands(p, MergeEdits(p, m, remote.pending), remote.onboarding)
  }

  ghost predicate SortedCopy(r: Snapshot, out: Snapshot) {
    && out == r.(pending := out.pending, onboarding := out.onboarding)
    && multiset(out.pending) == multiset(r.pending)
    && multiset(out.onboarding) == multiset(r.onboarding)
  }
}
