/**
 Every run of a group of engines. A step is a local operation on one engine, or a merge of any
 snapshot that was ever the state of any engine: stale, repeated and out of order as it may be.
 */
module ConfigSyncRuns {
  import opened Outcomes
  import opened ConfigSync

  /** What was stamped with a clock. A queued edit and the field it becomes are one event. */
  datatype Event =
    | Wrote(owner: Id, key: Key, value: Value, deleted: bool)
    | Published(conn: Connection)
    | Commanded(command: Command)

  /** The engines, every state any of them was ever in, and the history the claims speak of:
      what each clock stamped, which writes reached their owner, and when commands completed. */
  datatype World = World(replicas: map<Id, Snapshot>, seen: set<Snapshot>, log: map<Clock, Event>,
                         arrived: map<Id, set<Clock>>, completed: map<CommandId, Clock>)

  datatype Op =
    | SetOp(key: Key, value: Value, deleted: bool, wall: int)
    | EditOp(target: Id, key: Key, value: Value, deleted: bool, wall: int)
    | PublishOp(conn: Connection, wall: int)
    | CommandOp(to: Id, action: CommandAction, code: Code, wall: int)
    | CompleteOp(id: CommandId, status: CommandStatus, code: Code, expires: string, message: string, wall: int)

  datatype Action =
    | Join(x: Id, group: string)
    | Local(x: Id, op: Op)
    | Merged(x: Id, snapshot: Snapshot, out: Snapshot)

  function Apply(p: Policy, r: Snapshot, op: Op): Snapshot {
    match op
    case SetOp(key, value, deleted, wall) => SetOwn(p, r, key, value, deleted, wall)
    case EditOp(target, key, value, deleted, wall) => QueueEdit(p, r, target, key, value, deleted, wall)
    case PublishOp(conn, wall) => Publish(p, r, conn, wall)
    case CommandOp(target, action, code, wall) => QueueOnboarding(p, r, target, action, code, wall)
    case CompleteOp(id, status, code, expires, message, wall) =>
      CompleteOnboarding(p, r, id, status, code, expires, message, wall)
  }

  /** What an operation stamps; nothing when it is refused. */
  function Stamps(p: Policy, r: Snapshot, op: Op): Option<Event> {
    var c := NextClock(r.local, r.id, op.wall);
    match op
    case SetOp(key, value, deleted, _) =>
      if Admissible(p, key, value) then Some(Wrote(r.id, key, value, deleted)) else None
    case EditOp(target, key, value, deleted, _) =>
      if p.idOk(target) && Admissible(p, key, value) then Some(Wrote(target, key, value, deleted)) else None
    case PublishOp(conn, _) =>
      if p.idOk(conn.instance) && p.connectionOk(conn) then Some(Published(Stamped(p, conn, c))) else None
    case CommandOp(target, action, code, _) =>
      if p.idOk(target) && QueuedCode(p, action, code).Some?
      then Some(Commanded(NewCommand(r, target, action, QueuedCode(p, action, code).value, c))) else None
    case CompleteOp(id, status, code, expires, message, _) =>
      if Completes(p, r, id, status, code)
      then Some(Commanded(Finished(p, r, id, status, code, expires, message, c))) else None
  }

  function ArrivedAt(w: World, x: Id): set<Clock> {
    if x in w.arrived then w.arrived[x] else {}
  }

  function OwnOf(w: World, x: Id): Record {
    if x in w.replicas then Own(w.replicas[x]) else map[]
  }

  /** Engine `x` moves to `after`, whose new local clock stamps `event`. */
  function Stamp(w: World, x: Id, after: Snapshot, event: Event, done: Option<CommandId>): World {
    World(w.replicas[x := after], w.seen + {after}, w.log[after.local := event],
          if event.Wrote? && event.owner == x then w.arrived[x := ArrivedAt(w, x) + {after.local}] else w.arrived,
          if done.Some? then w.completed[done.value := after.local] else w.completed)
  }

  function AfterLocal(p: Policy, w: World, x: Id, op: Op): World
    requires x in w.replicas
  {
    match Stamps(p, w.replicas[x], op)
    case None => w
    case Some(event) =>
      Stamp(w, x, Apply(p, w.replicas[x], op), event, if op.CompleteOp? then Some(op.id) else None)
  }

  /** An edit this engine has to decide. */
  predicate ForMe(p: Policy, id: Id, e: Edit) {
    e.target == id && e.status.Pending? && Admissible(p, e.path, e.value)
  }

  function Delivered(p: Policy, id: Id, edits: seq<Edit>): set<Clock> {
    set e | e in edits && ForMe(p, id, e) :: e.clock
  }

  function AfterMerge(p: Policy, w: World, x: Id, s: Snapshot, out: Snapshot): World {
    w.(replicas := w.replicas[x := out], seen := w.seen + {out},
       arrived := w.arrived[x := ArrivedAt(w, x) + Delivered(p, x, s.pending)])
  }

  function AfterJoin(w: World, x: Id, group: string): World {
    w.(replicas := w.replicas[x := NewSnapshot(group, x)], seen := w.seen + {NewSnapshot(group, x)})
  }

  ghost predicate Step(p: Policy, w: World, a: Action, w': World) {
    match a
    case Join(x, group) => p.idOk(x) && x !in w.replicas && w' == AfterJoin(w, x, group)
    case Local(x, op) =>
      && x in w.replicas
      && (Stamps(p, w.replicas[x], op).Some? ==> !Wraps(w.replicas[x].local, op.wall))
      && w' == AfterLocal(p, w, x, op)
    case Merged(x, s, out) =>
      && x in w.replicas && s in w.seen
      && MergeResult(p, w.replicas[x], s, out)
      && w' == AfterMerge(p, w, x, s, out)
  }

  const EMPTY_WORLD: World := World(map[], {}, map[], map[], map[])

  ghost predicate Run(p: Policy, worlds: seq<World>, actions: seq<Action>) {
    && |worlds| == |actions| + 1
    && worlds[0] == EMPTY_WORLD
    && forall i :: 0 <= i < |actions| ==> Step(p, worlds[i], actions[i], worlds[i + 1])
  }

  // ---------------------------------------------------------------- what every state satisfies

  predicate Stored(s: Snapshot, x: Id, k: Key) {
    x in s.records && k in s.records[x]
  }

  /** The local clock covers every clock the snapshot stores. */
  ghost predicate Dominates(s: Snapshot) {
    && s.local.node == s.id
    && (forall x, k :: Stored(s, x, k) ==> Covers(s.local, s.records[x][k].clock))
    && (forall x :: x in s.connections ==> Covers(s.local, s.connections[x].clock))
    && (forall e :: e in s.pending ==> Covers(s.local, e.clock))
    && (forall c :: c in s.onboarding ==> Covers(s.local, c.clock))
  }

  predicate FieldLogged(p: Policy, log: map<Clock, Event>, x: Id, k: Key, f: Field) {
    && p.idOk(x) && Admissible(p, k, f.value) && f.key == k && f.writer == x
    && f.clock in log && log[f.clock] == Wrote(x, k, f.value, f.deleted)
  }

  predicate EditLogged(p: Policy, log: map<Clock, Event>, e: Edit) {
    && p.idOk(e.target) && Admissible(p, e.path, e.value)
    && e.id == EditId(e.target, e.path, e.clock) && e.origin == e.clock.node
    && e.clock in log && log[e.clock] == Wrote(e.target, e.path, e.value, e.deleted)
  }

  predicate CommandLogged(log: map<Clock, Event>, c: Command) {
    && c.clock in log && log[c.clock] == Commanded(c)
    && c.id == CommandId(c.target, c.action, c.id.clock) && c.id.clock in log
  }

  /** Everything a snapshot stores is what its clock stamped. */
  ghost predicate Logged(p: Policy, log: map<Clock, Event>, s: Snapshot) {
    && (forall x, k :: Stored(s, x, k) ==> FieldLogged(p, log, x, k, s.records[x][k]))
    && (forall x :: x in s.connections ==>
          p.idOk(x) && s.connections[x].instance == x && s.connections[x].clock in log &&
          log[s.connections[x].clock] == Published(s.connections[x]))
    && (forall e :: e in s.pending ==> EditLogged(p, log, e))
    && (forall c :: c in s.onboarding ==> CommandLogged(log, c))
  }

  /** A stored field is not ahead of its owner's own record. */
  predicate Behind(own: Record, k: Key, f: Field) {
    k in own && !Later(f.clock, own[k].clock)
  }

  ghost predicate NotAhead(w: World, s: Snapshot) {
    && s.records.Keys <= w.replicas.Keys
    && forall x, k :: Stored(s, x, k) ==> Behind(OwnOf(w, x), k, s.records[x][k])
  }

  /** An edit shown as decided has reached its target. */
  ghost predicate Decided(w: World, s: Snapshot) {
    forall e :: e in s.pending && !e.status.Pending? ==> e.clock in ArrivedAt(w, e.target)
  }

  predicate CommandState(completed: map<CommandId, Clock>, c: Command) {
    if c.status.Waiting? then c.clock == c.id.clock
    else c.id in completed && completed[c.id] == c.clock && !Covers(c.id.clock, c.clock)
  }

  predicate DistinctIds(s: seq<Command>) {
    forall i, j :: 0 <= i < j < |s| ==> s[i].id != s[j].id
  }

  ghost predicate CommandsOk(w: World, s: Snapshot) {
    && DistinctIds(s.onboarding)
    && forall c :: c in s.onboarding ==> CommandState(w.completed, c)
  }

  ghost predicate Good(p: Policy, w: World, s: Snapshot) {
    Dominates(s) && Logged(p, w.log, s) && NotAhead(w, s) && Decided(w, s) && CommandsOk(w, s)
  }

  ghost predicate Homes(p: Policy, w: World) {
    && w.arrived.Keys <= w.replicas.Keys
    && forall x :: x in w.replicas ==> p.idOk(x) && w.replicas[x].id == x && w.replicas[x] in w.seen
  }

  /** Each clock was stamped by its node, whose local clock has it covered. */
  ghost predicate LogBounded(w: World) {
    forall c :: c in w.log ==> c.node in w.replicas && Covers(w.replicas[c.node].local, c)
  }

  predicate LoggedWrite(log: map<Clock, Event>, x: Id, c: Clock) {
    c in log && log[c].Wrote? && log[c].owner == x
  }

  /** `own` holds, for each key, the latest of the writes for `x` with a clock in `clocks`. */
  ghost predicate Tracks(log: map<Clock, Event>, x: Id, own: Record, clocks: set<Clock>) {
    && (forall k :: k in own ==>
          var c := own[k].clock;
          c in clocks && LoggedWrite(log, x, c) && log[c].key == k)
    && (forall c :: c in clocks ==>
          LoggedWrite(log, x, c) && log[c].key in own && !Later(c, own[log[c].key].clock))
  }

  /** An engine's own record is the latest of the writes that reached it. */
  ghost predicate OwnIsLatest(w: World, x: Id) {
    Tracks(w.log, x, OwnOf(w, x), ArrivedAt(w, x))
  }

  /** Edits for an engine are decided as soon as it holds them. */
  ghost predicate Settled(w: World) {
    forall x, e :: x in w.replicas && e in w.replicas[x].pending && e.target == x ==> !e.status.Pending?
  }

  predicate Finalized(s: Snapshot, id: CommandId) {
    var i := FindCommand(s.onboarding, id);
    i < |s.onboarding| && !s.onboarding[i].status.Waiting?
  }

  /** A completed command is finished in its target's list. */
  ghost predicate CompletedAtHome(w: World) {
    forall id :: id in w.completed ==> id.target in w.replicas && Finalized(w.replicas[id.target], id)
  }

  ghost predicate AllLatest(w: World) {
    forall x :: x in w.replicas ==> OwnIsLatest(w, x)
  }

  ghost predicate AllGood(p: Policy, w: World) {
    forall s :: s in w.seen ==> Good(p, w, s)
  }

  ghost predicate Inv(p: Policy, w: World) {
    && Homes(p, w) && LogBounded(w) && Settled(w) && CompletedAtHome(w)
    && AllLatest(w) && AllGood(p, w)
  }
}
