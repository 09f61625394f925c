/** Every step keeps the invariant of `ConfigSyncRuns`. */
module ConfigSyncInvariant {
  import opened Outcomes
  import opened ConfigSync
  import opened ConfigSyncRuns

  // ---------------------------------------------------------------- what may change

  /** Every field is kept or overtaken. */
  ghost predicate Advanced(a: Record, b: Record) {
    forall k :: k in a ==> k in b && (b[k] == a[k] || Later(b[k].clock, a[k].clock))
  }

  ghost predicate Grows(w: World, w': World) {
    && w.replicas.Keys <= w'.replicas.Keys
    && (forall c :: c in w.log ==> c in w'.log && w'.log[c] == w.log[c])
    && (forall x :: x in w.replicas ==> Advanced(OwnOf(w, x), OwnOf(w', x)))
    && (forall x :: ArrivedAt(w, x) <= ArrivedAt(w', x))
    && (forall id :: id in w.completed ==> id in w'.completed && w'.completed[id] == w.completed[id])
  }

  ghost predicate Kept(p: Policy, w: World, w': World) {
    Inv(p, w') && Grows(w, w')
  }

  lemma LoggedStays(p: Policy, log: map<Clock, Event>, log': map<Clock, Event>, s: Snapshot)
    requires Logged(p, log, s) && forall c :: c in log ==> c in log' && log'[c] == log[c]
    ensures Logged(p, log', s)
  {
  }

  lemma NotAheadStays(w: World, w': World, s: Snapshot)
    requires NotAhead(w, s) && w.replicas.Keys <= w'.replicas.Keys
    requires forall x :: x in w.replicas ==> Advanced(OwnOf(w, x), OwnOf(w', x))
    ensures NotAhead(w', s)
  {
  }

  lemma DecidedStays(w: World, w': World, s: Snapshot)
    requires Decided(w, s) && forall x :: ArrivedAt(w, x) <= ArrivedAt(w', x)
    ensures Decided(w', s)
  {
  }

  lemma GoodStays(p: Policy, w: World, w': World, s: Snapshot)
    requires Good(p, w, s) && Grows(w, w')
    ensures Good(p, w', s)
  {
    LoggedStays(p, w.log, w'.log, s);
    NotAheadStays(w, w', s);
    DecidedStays(w, w', s);
  }

  // ---------------------------------------------------------------- list updates

  lemma {:induction false} UpsertEditMembers(s: seq<Edit>, e: Edit)
    ensures e in UpsertEdit(s, e)
    ensures forall d :: d in UpsertEdit(s, e) ==> d == e || d in s
    ensures forall d :: d in s && d.id != e.id ==> d in UpsertEdit(s, e)
  {
    if s != [] && s[0].id != e.id {
      UpsertEditMembers(s[1..], e);
      assert UpsertEdit(s, e) == [s[0]] + UpsertEdit(s[1..], e);
    }
  }

  lemma {:induction false} FindSame(s: seq<Command>, i: nat, id: CommandId)
    requires DistinctIds(s) && i < |s| && s[i].id == id
    ensures FindCommand(s, id) == i
  {
  }

  // ---------------------------------------------------------------- local operations

  /** `after` has a new local clock that covers the old one and has never stamped anything. */
  ghost predicate Advances(w: World, r: Snapshot, after: Snapshot) {
    && after.id == r.id && after.local.node == r.id
    && Covers(after.local, r.local) && !Covers(r.local, after.local)
    && after.local !in w.log
  }

  lemma TickIsFresh(p: Policy, w: World, x: Id, wall: int)
    requires Inv(p, w) && x in w.replicas && !Wraps(w.replicas[x].local, wall)
    ensures Advances(w, w.replicas[x], Ticked(w.replicas[x], wall))
  {
  }

  lemma OverwritesOwn(r: Snapshot, key: Key, value: Value, deleted: bool, c: Clock)
    requires Dominates(r) && !Covers(r.local, c)
    ensures Advanced(Own(r), Own(PutOwn(r, key, value, deleted, c)))
  {
  }

  lemma StampGrows(w: World, x: Id, after: Snapshot, event: Event, done: Option<CommandId>)
    requires x in w.replicas && after.local !in w.log && Advanced(OwnOf(w, x), Own(after))
    requires done.Some? ==> done.value !in w.completed
    ensures Grows(w, Stamp(w, x, after, event, done))
  {
  }

  /** A command that can still be completed has not been completed. */
  lemma CompletesOnlyOnce(p: Policy, w: World, x: Id, id: CommandId, status: CommandStatus, code: Code)
    requires Inv(p, w) && x in w.replicas && Completes(p, w.replicas[x], id, status, code)
    ensures id.target == x && id !in w.completed
  {
    var r := w.replicas[x];
    assert Good(p, w, r);
    var c := r.onboarding[FindCommand(r.onboarding, id)];
    assert c in r.onboarding && CommandLogged(w.log, c);
  }

  /** `after` adds to `r` only items stamped with its own new local clock. */
  ghost predicate AddsFields(p: Policy, log: map<Clock, Event>, r: Snapshot, after: Snapshot) {
    && after.records.Keys <= r.records.Keys + {r.id}
    && forall x, k :: Stored(after, x, k) ==>
         || (Stored(r, x, k) && after.records[x][k] == r.records[x][k])
         || (x == r.id && after.records[x][k].clock == after.local && FieldLogged(p, log, x, k, after.records[x][k]))
  }

  ghost predicate AddsConnections(p: Policy, log: map<Clock, Event>, r: Snapshot, after: Snapshot) {
    forall x :: x in after.connections ==>
      var conn := after.connections[x];
      || (x in r.connections && conn == r.connections[x])
      || (p.idOk(x) && conn.instance == x && conn.clock == after.local && conn.clock in log &&
          log[conn.clock] == Published(conn))
  }

  ghost predicate AddsEdits(p: Policy, w: World, r: Snapshot, after: Snapshot) {
    forall e :: e in after.pending ==>
      || e in r.pending
      || (&& e.clock == after.local && EditLogged(p, w.log, e)
          && (if e.target == after.id then e.status.Applied? && e.clock in ArrivedAt(w, e.target)
              else e.status.Pending?))
  }

  ghost predicate AddsCommands(w: World, r: Snapshot, after: Snapshot) {
    && DistinctIds(after.onboarding)
    && forall c :: c in after.onboarding ==>
         c in r.onboarding || (c.clock == after.local && CommandLogged(w.log, c) && CommandState(w.completed, c))
  }

  ghost predicate Adds(p: Policy, w: World, r: Snapshot, after: Snapshot) {
    && after.id == r.id && after.local.node == r.id && Covers(after.local, r.local)
    && AddsFields(p, w.log, r, after) && AddsConnections(p, w.log, r, after)
    && AddsEdits(p, w, r, after) && AddsCommands(w, r, after)
  }

  lemma AddsGood(p: Policy, w: World, r: Snapshot, after: Snapshot)
    requires Good(p, w, r) && Adds(p, w, r, after) && r.id in w.replicas && w.replicas[r.id] == after
    ensures Good(p, w, after)
  {
  }

  lemma PutOwnAdds(p: Policy, log: map<Clock, Event>, r: Snapshot, after: Snapshot, key: Key, value: Value,
                   deleted: bool)
    requires after.id == r.id && after.records == PutOwn(r, key, value, deleted, after.local).records
    requires p.idOk(r.id) && Admissible(p, key, value)
    requires after.local in log && log[after.local] == Wrote(r.id, key, value, deleted)
    ensures AddsFields(p, log, r, after)
    ensures Own(after) == Own(r)[key := Field(key, value, deleted, after.local, r.id)]
  {
  }

  lemma SameRecordsAdd(p: Policy, log: map<Clock, Event>, r: Snapshot, after: Snapshot)
    requires after.records == r.records
    ensures AddsFields(p, log, r, after)
  {
  }

  /** A step of `x` that adds to its lists but writes no field of its own. */
  lemma ListStepKeeps(p: Policy, w: World, x: Id, after: Snapshot, event: Event, done: Option<CommandId>)
    requires Inv(p, w) && x in w.replicas && Advances(w, w.replicas[x], after)
    requires after.records == w.replicas[x].records && !(event.Wrote? && event.owner == x)
    requires AddsConnections(p, Stamp(w, x, after, event, done).log, w.replicas[x], after)
    requires AddsEdits(p, Stamp(w, x, after, event, done), w.replicas[x], after)
    requires AddsCommands(Stamp(w, x, after, event, done), w.replicas[x], after)
    requires done.Some? ==> done.value !in w.completed && done.value.target == x && Finalized(after, done.value)
    requires KeepsFinal(w.replicas[x], after) && SettledIn(after)
    ensures Kept(p, w, Stamp(w, x, after, event, done))
  {
    assert w.replicas[x].id == x;
    OwnUnchanged(w.replicas[x], after);
    SameRecordsAdd(p, Stamp(w, x, after, event, done).log, w.replicas[x], after);
    assert OwnIsLatest(Stamp(w, x, after, event, done), x) by {
      OwnUntouched(w, x, after, event, done);
    }
    StampKeeps(p, w, x, after, event, done);
  }

  lemma OwnUnchanged(r: Snapshot, after: Snapshot)
    requires after.records == r.records && after.id == r.id
    ensures Own(after) == Own(r) && Advanced(Own(r), Own(after))
  {
  }

  ghost predicate SettledIn(s: Snapshot) {
    forall e :: e in s.pending && e.target == s.id ==> !e.status.Pending?
  }

  ghost predicate KeepsFinal(r: Snapshot, after: Snapshot) {
    forall id :: Finalized(r, id) ==> Finalized(after, id)
  }

  lemma OwnUntouched(w: World, x: Id, after: Snapshot, event: Event, done: Option<CommandId>)
    requires x in w.replicas && OwnIsLatest(w, x) && Own(after) == OwnOf(w, x) && after.local !in w.log
    requires !(event.Wrote? && event.owner == x)
    ensures OwnIsLatest(Stamp(w, x, after, event, done), x)
  {
  }

  lemma OwnWriteLatest(w: World, x: Id, after: Snapshot, key: Key, value: Value, deleted: bool)
    requires x in w.replicas && OwnIsLatest(w, x) && after.local !in w.log
    requires Own(after) == OwnOf(w, x)[key := Field(key, value, deleted, after.local, x)]
    requires Advanced(OwnOf(w, x), Own(after))
    ensures OwnIsLatest(Stamp(w, x, after, Wrote(x, key, value, deleted), None), x)
  {
  }

  /** What remains of the invariant once the new state of `x` is known. */
  lemma StampHomes(p: Policy, w: World, x: Id, after: Snapshot, event: Event, done: Option<CommandId>)
    requires Homes(p, w) && LogBounded(w) && x in w.replicas && Advances(w, w.replicas[x], after)
    ensures Homes(p, Stamp(w, x, after, event, done)) && LogBounded(Stamp(w, x, after, event, done))
  {
  }

  lemma StampSettled(w: World, x: Id, after: Snapshot, event: Event, done: Option<CommandId>)
    requires Settled(w) && x in w.replicas && SettledIn(after) && after.id == x
    ensures Settled(Stamp(w, x, after, event, done))
  {
  }

  lemma StampCompleted(w: World, x: Id, after: Snapshot, event: Event, done: Option<CommandId>)
    requires CompletedAtHome(w) && x in w.replicas && KeepsFinal(w.replicas[x], after)
    requires done.Some? ==> done.value.target == x && Finalized(after, done.value)
    ensures CompletedAtHome(Stamp(w, x, after, event, done))
  {
  }

  lemma StampKeeps(p: Policy, w: World, x: Id, after: Snapshot, event: Event, done: Option<CommandId>)
    requires Inv(p, w) && x in w.replicas && Advances(w, w.replicas[x], after)
    requires done.Some? ==> done.value !in w.completed && done.value.target == x && Finalized(after, done.value)
    requires Advanced(Own(w.replicas[x]), Own(after)) && KeepsFinal(w.replicas[x], after) && SettledIn(after)
    requires Adds(p, Stamp(w, x, after, event, done), w.replicas[x], after)
    requires OwnIsLatest(Stamp(w, x, after, event, done), x)
    ensures Kept(p, w, Stamp(w, x, after, event, done))
  {
    StampGrows(w, x, after, event, done);
    StampHomes(p, w, x, after, event, done);
    StampSettled(w, x, after, event, done);
    StampCompleted(w, x, after, event, done);
    StampSeen(p, w, x, after, event, done);
    StampLatest(w, x, after, event, done);
  }

  lemma StampLatest(w: World, x: Id, after: Snapshot, event: Event, done: Option<CommandId>)
    requires x in w.replicas && AllLatest(w)
    requires Grows(w, Stamp(w, x, after, event, done)) && OwnIsLatest(Stamp(w, x, after, event, done), x)
    ensures var w' := Stamp(w, x, after, event, done); AllLatest(w')
  {
  }

  lemma StampSeen(p: Policy, w: World, x: Id, after: Snapshot, event: Event, done: Option<CommandId>)
    requires Homes(p, w) && x in w.replicas && AllGood(p, w)
    requires Grows(w, Stamp(w, x, after, event, done))
    requires Adds(p, Stamp(w, x, after, event, done), w.replicas[x], after)
    ensures var w' := Stamp(w, x, after, event, done); AllGood(p, w')
  {
    var w' := Stamp(w, x, after, event, done);
    forall s | s in w'.seen ensures Good(p, w', s) {
      if s == after {
        GoodStays(p, w, w', w.replicas[x]);
        AddsGood(p, w', w.replicas[x], after);
      } else {
        GoodStays(p, w, w', s);
      }
    }
  }

  /** What an engine's state says about itself. */
  lemma HomeGood(p: Policy, w: World, x: Id)
    requires Inv(p, w) && x in w.replicas
    ensures Good(p, w, w.replicas[x]) && w.replicas[x].id == x && SettledIn(w.replicas[x])
  {
  }

  /** A step of `x` that writes one of its own fields. */
  lemma OwnStepKeeps(p: Policy, w: World, x: Id, after: Snapshot, key: Key, value: Value, deleted: bool)
    requires Inv(p, w) && x in w.replicas && Advances(w, w.replicas[x], after) && Admissible(p, key, value)
    requires after.records == PutOwn(w.replicas[x], key, value, deleted, after.local).records
    requires after.connections == w.replicas[x].connections && after.onboarding == w.replicas[x].onboarding
    requires AddsEdits(p, Stamp(w, x, after, Wrote(x, key, value, deleted), None), w.replicas[x], after) &&
             SettledIn(after)
    ensures var w' := Stamp(w, x, after, Wrote(x, key, value, deleted), None); Kept(p, w, w')
  {
    var r, event := w.replicas[x], Wrote(x, key, value, deleted);
    assert Dominates(r) && DistinctIds(r.onboarding) && r.id == x && p.idOk(x) by {
      HomeGood(p, w, x);
    }
    PutOwnAdds(p, Stamp(w, x, after, event, None).log, r, after, key, value, deleted);
    OverwritesOwn(r, key, value, deleted, after.local);
    assert OwnIsLatest(Stamp(w, x, after, event, None), x) by {
      OwnWriteLatest(w, x, after, key, value, deleted);
    }
    StampKeeps(p, w, x, after, event, None);
  }

  lemma SetKeeps(p: Policy, w: World, x: Id, key: Key, value: Value, deleted: bool, wall: int)
    requires Inv(p, w) && x in w.replicas && Admissible(p, key, value) && !Wraps(w.replicas[x].local, wall)
    ensures var w' := Stamp(w, x, SetOwn(p, w.replicas[x], key, value, deleted, wall), Wrote(x, key, value, deleted),
                            None);
            Kept(p, w, w')
  {
    TickIsFresh(p, w, x, wall);
    HomeGood(p, w, x);
    OwnStepKeeps(p, w, x, SetOwn(p, w.replicas[x], key, value, deleted, wall), key, value, deleted);
  }

  lemma NewEditAdds(p: Policy, w: World, r: Snapshot, after: Snapshot, e: Edit)
    requires after.pending == UpsertEdit(r.pending, e) && after.id == r.id && e.clock == after.local && SettledIn(r)
    requires EditLogged(p, w.log, e) && e.status == (if e.target == r.id then Applied else Pending)
    requires e.target == r.id ==> e.clock in ArrivedAt(w, r.id)
    ensures AddsEdits(p, w, r, after) && SettledIn(after)
  {
    UpsertEditMembers(r.pending, e);
  }

  /** An edit that an engine queues for itself is recorded as applied. */
  lemma EditSelfAdds(p: Policy, w: World, x: Id, after: Snapshot, key: Key, value: Value, deleted: bool, wall: int)
    requires x in w.replicas && w.replicas[x].id == x && SettledIn(w.replicas[x])
    requires p.idOk(x) && Admissible(p, key, value)
    requires after == QueueEdit(p, w.replicas[x], x, key, value, deleted, wall)
    ensures AddsEdits(p, Stamp(w, x, after, Wrote(x, key, value, deleted), None), w.replicas[x], after) &&
            SettledIn(after)
  {
    var r := w.replicas[x];
    NewEditAdds(p, Stamp(w, x, after, Wrote(x, key, value, deleted), None), r, after,
                NewEdit(r, x, key, value, deleted, after.local));
  }

  lemma EditSelfKeeps(p: Policy, w: World, x: Id, key: Key, value: Value, deleted: bool, wall: int)
    requires Inv(p, w) && x in w.replicas && p.idOk(x) && Admissible(p, key, value) && !Wraps(w.replicas[x].local, wall)
    ensures var w' := Stamp(w, x, QueueEdit(p, w.replicas[x], x, key, value, deleted, wall),
                            Wrote(x, key, value, deleted), None);
            Kept(p, w, w')
  {
    var r := w.replicas[x];
    var after := QueueEdit(p, r, x, key, value, deleted, wall);
    assert r.id == x && SettledIn(r) by {
      HomeGood(p, w, x);
    }
    EditSelfAdds(p, w, x, after, key, value, deleted, wall);
    TickIsFresh(p, w, x, wall);
    OwnStepKeeps(p, w, x, after, key, value, deleted);
  }

  lemma EditOtherKeeps(p: Policy, w: World, x: Id, target: Id, key: Key, value: Value, deleted: bool, wall: int)
    requires Inv(p, w) && x in w.replicas && p.idOk(target) && target != x
    requires Admissible(p, key, value) && !Wraps(w.replicas[x].local, wall)
    ensures var w' := Stamp(w, x, QueueEdit(p, w.replicas[x], target, key, value, deleted, wall),
                            Wrote(target, key, value, deleted), None);
            Kept(p, w, w')
  {
    var r := w.replicas[x];
    var after := QueueEdit(p, r, target, key, value, deleted, wall);
    var event := Wrote(target, key, value, deleted);
    TickIsFresh(p, w, x, wall);
    assert SettledIn(r) && DistinctIds(r.onboarding) && r.id == x by {
      HomeGood(p, w, x);
    }
    NewEditAdds(p, Stamp(w, x, after, event, None), r, after, NewEdit(r, target, key, value, deleted, after.local));
    ListStepKeeps(p, w, x, after, event, None);
  }

  lemma PublishKeeps(p: Policy, w: World, x: Id, conn: Connection, wall: int)
    requires Inv(p, w) && x in w.replicas && p.idOk(conn.instance) && p.connectionOk(conn) &&
             !Wraps(w.replicas[x].local, wall)
    ensures var after := Publish(p, w.replicas[x], conn, wall);
            var w' := Stamp(w, x, after, Published(Stamped(p, conn, after.local)), None);
            Kept(p, w, w')
  {
    var r := w.replicas[x];
    var after := Publish(p, r, conn, wall);
    TickIsFresh(p, w, x, wall);
    HomeGood(p, w, x);
    ListStepKeeps(p, w, x, after, Published(Stamped(p, conn, after.local)), None);
  }

  lemma AppendCommand(log: map<Clock, Event>, s: seq<Command>, c: Command)
    requires DistinctIds(s) && c.id.clock !in log && (forall d :: d in s ==> CommandLogged(log, d))
    ensures DistinctIds(s + [c])
    ensures forall id :: FindCommand(s, id) < |s| ==> FindCommand(s + [c], id) == FindCommand(s, id)
  {
    forall i | 0 <= i < |s| ensures s[i].id != c.id {
      assert s[i] in s && CommandLogged(log, s[i]);
    }
    forall id | FindCommand(s, id) < |s| ensures FindCommand(s + [c], id) == FindCommand(s, id) {
      FindSame(s + [c], FindCommand(s, id), id);
    }
  }

  /** Queueing a new waiting command. */
  lemma AppendAdds(w: World, w': World, r: Snapshot, after: Snapshot, c: Command)
    requires DistinctIds(r.onboarding) && (forall d :: d in r.onboarding ==> CommandLogged(w.log, d))
    requires after.onboarding == r.onboarding + [c] && after.local !in w.log && c.clock == c.id.clock == after.local
    requires c.id == CommandId(c.target, c.action, c.clock) && c.status.Waiting?
    requires w'.log == w.log[after.local := Commanded(c)] && w'.completed == w.completed
    ensures AddsCommands(w', r, after) && KeepsFinal(r, after)
  {
    AppendCommand(w.log, r.onboarding, c);
  }

  lemma CommandKeeps(p: Policy, w: World, x: Id, target: Id, action: CommandAction, code: Code, wall: int)
    requires Inv(p, w) && x in w.replicas && p.idOk(target) && QueuedCode(p, action, code).Some?
    requires !Wraps(w.replicas[x].local, wall)
    ensures var after := QueueOnboarding(p, w.replicas[x], target, action, code, wall);
            var c := NewCommand(w.replicas[x], target, action, QueuedCode(p, action, code).value, after.local);
            var w' := Stamp(w, x, after, Commanded(c), None);
            Kept(p, w, w')
  {
    var r := w.replicas[x];
    var after := QueueOnboarding(p, r, target, action, code, wall);
    var c := NewCommand(r, target, action, QueuedCode(p, action, code).value, after.local);
    TickIsFresh(p, w, x, wall);
    HomeGood(p, w, x);
    AppendAdds(w, Stamp(w, x, after, Commanded(c), None), r, after, c);
    ListStepKeeps(p, w, x, after, Commanded(c), None);
  }

  lemma ReplaceCommand(s: seq<Command>, i: nat, c: Command)
    requires DistinctIds(s) && i < |s| && c.id == s[i].id
    ensures DistinctIds(s[i := c])
    ensures forall id :: FindCommand(s[i := c], id) == FindCommand(s, id)
    ensures forall d :: d in s[i := c] ==> d == c || d in s
  {
    var t := s[i := c];
    assert forall j :: 0 <= j < |s| ==> t[j].id == s[j].id;
    forall id ensures FindCommand(t, id) == FindCommand(s, id) {
      if FindCommand(s, id) < |s| {
        FindSame(t, FindCommand(s, id), id);
      }
    }
  }

  /** Finishing the waiting command at position `i`. */
  lemma FinishAdds(w: World, w': World, r: Snapshot, after: Snapshot, i: nat, c: Command)
    requires DistinctIds(r.onboarding) && i < |r.onboarding| && after.onboarding == r.onboarding[i := c]
    requires CommandLogged(w.log, r.onboarding[i]) && CommandState(w.completed, r.onboarding[i])
    requires r.onboarding[i].status.Waiting? && Covers(r.local, r.onboarding[i].clock) && !Covers(r.local, after.local)
    requires c == r.onboarding[i].(status := c.status, code := c.code, expires := c.expires, message := c.message,
                                   clock := after.local)
    requires !c.status.Waiting? && w'.log == w.log[after.local := Commanded(c)] &&
             w'.completed == w.completed[c.id := after.local]
    ensures AddsCommands(w', r, after) && KeepsFinal(r, after) && Finalized(after, c.id)
  {
    ReplaceCommand(r.onboarding, i, c);
    FindSame(r.onboarding, i, c.id);
  }

  lemma CompleteKeeps(p: Policy, w: World, x: Id, id: CommandId, status: CommandStatus, code: Code,
                      expires: string, message: string, wall: int)
    requires Inv(p, w) && x in w.replicas && Completes(p, w.replicas[x], id, status, code)
    requires !Wraps(w.replicas[x].local, wall)
    ensures var after := CompleteOnboarding(p, w.replicas[x], id, status, code, expires, message, wall);
            var c := Finished(p, w.replicas[x], id, status, code, expires, message, after.local);
            var w' := Stamp(w, x, after, Commanded(c), Some(id));
            Kept(p, w, w')
  {
    var r := w.replicas[x];
    var after := CompleteOnboarding(p, r, id, status, code, expires, message, wall);
    var c := Finished(p, r, id, status, code, expires, message, after.local);
    CompletesOnlyOnce(p, w, x, id, status, code);
    TickIsFresh(p, w, x, wall);
    HomeGood(p, w, x);
    var i := FindCommand(r.onboarding, id);
    assert r.onboarding[i] in r.onboarding;
    FinishAdds(w, Stamp(w, x, after, Commanded(c), Some(id)), r, after, i, c);
    ListStepKeeps(p, w, x, after, Commanded(c), Some(id));
  }

  lemma EditKeeps(p: Policy, w: World, x: Id, target: Id, key: Key, value: Value, deleted: bool, wall: int)
    requires Inv(p, w) && x in w.replicas && p.idOk(target) && Admissible(p, key, value) &&
             !Wraps(w.replicas[x].local, wall)
    ensures var w' := Stamp(w, x, QueueEdit(p, w.replicas[x], target, key, value, deleted, wall),
                            Wrote(target, key, value, deleted), None);
            Kept(p, w, w')
  {
    if target == x {
      EditSelfKeeps(p, w, x, key, value, deleted, wall);
    } else {
      EditOtherKeeps(p, w, x, target, key, value, deleted, wall);
    }
  }

  lemma FieldOpKeeps(p: Policy, w: World, x: Id, op: Op)
    requires Inv(p, w) && x in w.replicas && (op.SetOp? || op.EditOp? || op.PublishOp?)
    requires Stamps(p, w.replicas[x], op).Some? && !Wraps(w.replicas[x].local, op.wall)
    ensures Kept(p, w, AfterLocal(p, w, x, op))
  {
    assert w.replicas[x].id == x;
    match op {
      case SetOp(key, value, deleted, wall) => SetKeeps(p, w, x, key, value, deleted, wall);
      case EditOp(target, key, value, deleted, wall) => EditKeeps(p, w, x, target, key, value, deleted, wall);
      case PublishOp(conn, wall) => PublishKeeps(p, w, x, conn, wall);
    }
  }

  lemma CommandOpStamps(p: Policy, w: World, x: Id, op: Op)
    requires x in w.replicas && op.CommandOp? && Stamps(p, w.replicas[x], op).Some?
    ensures p.idOk(op.to) && QueuedCode(p, op.action, op.code).Some?
    ensures var after := QueueOnboarding(p, w.replicas[x], op.to, op.action, op.code, op.wall);
            var c := NewCommand(w.replicas[x], op.to, op.action, QueuedCode(p, op.action, op.code).value, after.local);
            AfterLocal(p, w, x, op) == Stamp(w, x, after, Commanded(c), None)
  {
  }

  lemma CommandOpKeeps(p: Policy, w: World, x: Id, op: Op)
    requires Inv(p, w) && x in w.replicas && op.CommandOp?
    requires Stamps(p, w.replicas[x], op).Some? && !Wraps(w.replicas[x].local, op.wall)
    ensures Kept(p, w, AfterLocal(p, w, x, op))
  {
    CommandOpStamps(p, w, x, op);
    CommandKeeps(p, w, x, op.to, op.action, op.code, op.wall);
  }

  lemma CompleteOpStamps(p: Policy, w: World, x: Id, op: Op)
    requires x in w.replicas && op.CompleteOp? && Stamps(p, w.replicas[x], op).Some?
    ensures Completes(p, w.replicas[x], op.id, op.status, op.code)
    ensures var r := w.replicas[x];
            var after := CompleteOnboarding(p, r, op.id, op.status, op.code, op.expires, op.message, op.wall);
            var c := Finished(p, r, op.id, op.status, op.code, op.expires, op.message, after.local);
            AfterLocal(p, w, x, op) == Stamp(w, x, after, Commanded(c), Some(op.id))
  {
  }

  lemma CompleteOpKeeps(p: Policy, w: World, x: Id, op: Op)
    requires Inv(p, w) && x in w.replicas && op.CompleteOp?
    requires Stamps(p, w.replicas[x], op).Some? && !Wraps(w.replicas[x].local, op.wall)
    ensures Kept(p, w, AfterLocal(p, w, x, op))
  {
    CompleteOpStamps(p, w, x, op);
    CompleteKeeps(p, w, x, op.id, op.status, op.code, op.expires, op.message, op.wall);
  }

  lemma LocalKeeps(p: Policy, w: World, x: Id, op: Op)
    requires Inv(p, w) && x in w.replicas
    requires Stamps(p, w.replicas[x], op).Some? ==> !Wraps(w.replicas[x].local, op.wall)
    ensures Kept(p, w, AfterLocal(p, w, x, op))
  {
    if Stamps(p, w.replicas[x], op).Some? {
      if op.CommandOp? {
        CommandOpKeeps(p, w, x, op);
      } else if op.CompleteOp? {
        CompleteOpKeeps(p, w, x, op);
      } else {
        FieldOpKeeps(p, w, x, op);
      }
    }
  }

  lemma JoinKeeps(p: Policy, w: World, x: Id, group: string)
    requires Inv(p, w) && p.idOk(x) && x !in w.replicas
    ensures Inv(p, AfterJoin(w, x, group)) && Grows(w, AfterJoin(w, x, group))
  {
    JoinHomes(p, w, x, group);
    JoinGrows(w, x, group);
    JoinSeen(p, w, x, group);
    JoinLatest(w, x, group);
  }

  lemma JoinHomes(p: Policy, w: World, x: Id, group: string)
    requires Homes(p, w) && LogBounded(w) && Settled(w) && CompletedAtHome(w) && p.idOk(x) && x !in w.replicas
    ensures var w' := AfterJoin(w, x, group); Homes(p, w') && LogBounded(w') && Settled(w') && CompletedAtHome(w')
  {
  }

  lemma JoinGrows(w: World, x: Id, group: string)
    requires x !in w.replicas
    ensures Grows(w, AfterJoin(w, x, group))
  {
  }

  lemma JoinSeen(p: Policy, w: World, x: Id, group: string)
    requires AllGood(p, w) && x !in w.replicas
    ensures AllGood(p, AfterJoin(w, x, group))
  {
  }

  lemma JoinLatest(w: World, x: Id, group: string)
    requires AllLatest(w) && w.arrived.Keys <= w.replicas.Keys && x !in w.replicas
    ensures AllLatest(AfterJoin(w, x, group))
  {
  }
}
