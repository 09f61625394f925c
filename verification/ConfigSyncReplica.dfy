/**
 One engine's replica, updated in place. Every method is tied to the function of the same name on
 snapshots, and `Merge` to the relation `MergeResult`, whatever order its map loops run in.
 */
module ConfigSyncReplica {
  import opened Outcomes
  import opened ConfigSync
  import Sorting

  function Restrict<A, B>(m: map<A, B>, keep: set<A>): map<A, B> {
    map x | x in m && x in keep :: m[x]
  }

  /** Clocks of the fields of one remote record that a merge looks at. */
  ghost function FieldClocks(p: Policy, theirs: Record): iset<Clock> {
    iset k | k in theirs && Admissible(p, k, theirs[k].value) :: theirs[k].clock
  }

  /** `remote` with only some of its records and connections. */
  function Part(remote: Snapshot, ids: set<Id>, conns: set<Id>): Snapshot {
    remote.(records := Restrict(remote.records, ids), connections := Restrict(remote.connections, conns))
  }

  ghost function Offered(p: Policy, id: Id, remote: Snapshot): iset<Clock> {
    iset c | Offers(p, id, remote, c)
  }

  lemma RestrictOneMore<A, B>(m: map<A, B>, done: set<A>, x: A)
    requires x in m && x !in done
    ensures Restrict(m, done + {x}) == Restrict(m, done)[x := m[x]]
  {
  }

  lemma NothingLeft<A>(all: set<A>, done: set<A>)
    requires done <= all && all - done == {}
    ensures done == all
  {
    forall x | x in all ensures x in done {
      assert x !in all - done;
    }
  }

  lemma FieldClocksOfOneMore(p: Policy, theirs: Record, done: set<Key>, key: Key)
    requires key in theirs && key !in done
    ensures FieldClocks(p, Restrict(theirs, done + {key})) == FieldClocks(p, Restrict(theirs, done)) +
              (if Admissible(p, key, theirs[key].value) then iset{theirs[key].clock} else iset{})
  {
    var before, after := Restrict(theirs, done), Restrict(theirs, done + {key});
    RestrictOneMore(theirs, done, key);
    assert forall k :: k in after <==> k in before || k == key;
    assert forall c :: c in FieldClocks(p, after) ==>
        c in FieldClocks(p, before) || (Admissible(p, key, theirs[key].value) && c == theirs[key].clock);
    forall c | c in FieldClocks(p, before) ensures c in FieldClocks(p, after) {
      var k :| k in before && Admissible(p, k, before[k].value) && before[k].clock == c;
      assert k in after && after[k] == before[k];
    }
    assert key in after && after[key] == theirs[key];
  }

  lemma FieldsOfOneMore(p: Policy, mine: Record, theirs: Record, done: set<Key>, key: Key)
    requires key in theirs && key !in done
    ensures var before, after := Restrict(theirs, done), Restrict(theirs, done + {key});
            && MergeRecord(p, mine, after) ==
                 (if TakesField(p, mine, key, theirs[key])
                  then MergeRecord(p, mine, before)[key := theirs[key].(key := key)]
                  else MergeRecord(p, mine, before))
            && (key in MergeRecord(p, mine, before) <==> key in mine)
            && (key in mine ==> MergeRecord(p, mine, before)[key] == mine[key])
  {
    var before, after := Restrict(theirs, done), Restrict(theirs, done + {key});
    RestrictOneMore(theirs, done, key);
    assert forall k :: k in after <==> k in before || k == key;
    assert key in after && after[key] == theirs[key];
  }

  lemma ConnectionsOfOneMore(p: Policy, mine: map<Id, Connection>, theirs: map<Id, Connection>, done: set<Id>, x: Id)
    requires x in theirs && x !in done
    ensures var before, after := Restrict(theirs, done), Restrict(theirs, done + {x});
            && ConnectionClocks(p, after) == ConnectionClocks(p, before) +
                 (if p.idOk(x) then iset{theirs[x].clock} else iset{})
            && MergeConnections(p, mine, after) ==
                 (if TakesConnection(p, mine, x, theirs[x])
                  then MergeConnections(p, mine, before)[x := theirs[x]]
                  else MergeConnections(p, mine, before))
            && (x in MergeConnections(p, mine, before) <==> x in mine)
            && (x in mine ==> MergeConnections(p, mine, before)[x] == mine[x])
  {
    var before, after := Restrict(theirs, done), Restrict(theirs, done + {x});
    RestrictOneMore(theirs, done, x);
    assert forall y :: y in after <==> y in before || y == x;
    forall c | c in ConnectionClocks(p, before) ensures c in ConnectionClocks(p, after) {
      var y :| y in before && p.idOk(y) && before[y].clock == c;
      assert y in after && after[y] == before[y];
    }
    assert x in after && after[x] == theirs[x];
  }

  /** One field of the engine's own record was written, and no other record was touched. */
  ghost predicate OwnWritten(before: Snapshot, after: Snapshot, key: Key, field: Field) {
    after.id == before.id && after.records == before.records[before.id := Own(before)[key := field]]
  }

  class Replica {
    var group: string
    const id: Id
    var records: map<Id, Record>
    var connections: map<Id, Connection>
    var pending: seq<Edit>
    var onboarding: seq<Command>
    var local: Clock

    ghost function View(): Snapshot
      reads this
    {
      Snapshot(group, id, records, connections, pending, onboarding, local)
    }

    constructor (group: string, id: Id)
      ensures View() == NewSnapshot(group, id)
      ensures this.group == group && this.id == id && local == Clock(0, 0, id)
      ensures records == map[] && connections == map[] && pending == [] && onboarding == []
    {
      this.group, this.id := group, id;
      records, connections, pending, onboarding := map[], map[], [], [];
      local := Clock(0, 0, id);
    }

    constructor Clone(source: Replica)
      ensures View() == source.View()
    {
      group, id := source.group, source.id;
      records, connections := source.records, source.connections;
      pending, onboarding, local := source.pending, source.onboarding, source.local;
    }

    method Tick(wall: int) returns (clock: Clock)
      modifies this`local
      ensures View() == Ticked(old(View()), wall)
      ensures clock == local && clock.node == id
      ensures wall > old(local).wall ==> clock.wall == wall && clock.counter == 0
      ensures wall <= old(local).wall ==>
                clock.wall == old(local).wall &&
                clock.counter == if old(local).counter == COUNTER_MAX then 0 else old(local).counter + 1
    {
      var w := if wall < local.wall then local.wall else wall;
      var counter: Counter := 0;
      if w == local.wall {
        counter := if local.counter == COUNTER_MAX then 0 else local.counter + 1;
      }
      local := Clock(w, counter, id);
      clock := local;
    }

    method WitnessClock(remote: Clock)
      modifies this`local
      ensures View() == Witnessed(old(View()), remote)
    {
      if Compare(remote, local) > 0 {
        local := Clock(remote.wall, remote.counter, id);
      }
    }

    method PutOwnField(key: Key, value: Value, deleted: bool, clock: Clock)
      modifies this`records
      ensures View() == PutOwn(old(View()), key, value, deleted, clock)
    {
      var fields := if id in records then records[id] else map[];
      fields := fields[key := Field(key, value, deleted, clock, id)];
      records := records[id := fields];
    }

    method Set(p: Policy, key: Key, value: Value, deleted: bool, wall: int) returns (r: Result<Field>)
      modifies this
      ensures View() == SetOwn(p, old(View()), key, value, deleted, wall)
      ensures r.Ok? <==> p.keyOk(key) && p.safe(key, value)
      ensures !r.Ok? ==> View() == old(View())
      ensures r.Ok? ==>
                r.value == Field(key, value, deleted, local, id) && OwnWritten(old(View()), View(), key, r.value)
      ensures pending == old(pending) && onboarding == old(onboarding) && connections == old(connections)
    {
      if !p.keyOk(key) || !p.safe(key, value) {
        return Err("refused");
      }
      var clock := Tick(wall);
      PutOwnField(key, value, deleted, clock);
      r := Ok(records[id][key]);
    }

    method Upsert(edit: Edit)
      modifies this`pending
      ensures pending == UpsertEdit(old(pending), edit)
    {
      for i := 0 to |pending|
        invariant pending == old(pending)
        invariant forall j :: 0 <= j < i ==> pending[j].id != edit.id
      {
        if pending[i].id == edit.id {
          UpsertEditAt(pending, edit, i);
          pending := pending[i := edit];
          return;
        }
      }
      UpsertEditAt(pending, edit, |pending|);
      pending := pending + [edit];
    }

    method Queue(p: Policy, target: Id, key: Key, value: Value, deleted: bool, wall: int) returns (r: Result<Edit>)
      modifies this
      ensures View() == QueueEdit(p, old(View()), target, key, value, deleted, wall)
      ensures r.Ok? <==> p.idOk(target) && p.keyOk(key) && p.safe(key, value)
      ensures !r.Ok? ==> View() == old(View())
      ensures r.Ok? ==> r.value == Edit(EditId(target, key, local), target, key, value, deleted, local, id,
                                        if target == id then Applied else Pending)
      ensures r.Ok? ==> pending == UpsertEdit(old(pending), r.value)
      ensures r.Ok? && target == id ==> OwnWritten(old(View()), View(), key, Field(key, value, deleted, local, id))
      ensures target != id ==> records == old(records)
      ensures onboarding == old(onboarding) && connections == old(connections)
    {
      if !p.idOk(target) || !p.keyOk(key) || !p.safe(key, value) {
        return Err("refused");
      }
      var clock := Tick(wall);
      var edit := Edit(EditId(target, key, clock), target, key, value, deleted, clock, id, Pending);
      if target == id {
        PutOwnField(key, value, deleted, clock);
        edit := edit.(status := Applied);
      }
      Upsert(edit);
      r := Ok(edit);
    }

    method QueueCommand(p: Policy, target: Id, action: CommandAction, code: Code, wall: int)
      returns (r: Result<Command>)
      modifies this
      ensures View() == QueueOnboarding(p, old(View()), target, action, code, wall)
      ensures r.Ok? <==>
                p.idOk(target) && ((action.Issue? && p.blank(code)) || (action.Accept? && p.normalize(code).Some?))
      ensures !r.Ok? ==> View() == old(View())
      ensures r.Ok? ==> onboarding == old(onboarding) + [r.value]
      ensures r.Ok? ==> r.value == Command(CommandId(target, action, local), target, action,
                                           if action.Issue? then code else p.normalize(code).value, "", Waiting, "",
                                           local, id)
      ensures records == old(records) && pending == old(pending) && connections == old(connections)
    {
      if !p.idOk(target) {
        return Err("instance id must be a UUID");
      }
      var kept := code;
      match action {
        case Issue =>
          if !p.blank(code) {
            return Err("issuing a pairing code does not take a code");
          }
        case Accept =>
          var normalized := p.normalize(code);
          if normalized.None? {
            return Err("pairing code is invalid");
          }
          kept := normalized.value;
        case UnknownAction(_) =>
          return Err("onboarding action must be issue or accept");
      }
      var clock := Tick(wall);
      var command := Command(CommandId(target, action, clock), target, action, kept, "", Waiting, "", clock, id);
      onboarding := onboarding + [command];
      r := Ok(command);
    }

    method Complete(p: Policy, cid: CommandId, status: CommandStatus, code: Code,
                    expires: string, message: string, wall: int) returns (r: Result<Command>)
      modifies this
      ensures View() == CompleteOnboarding(p, old(View()), cid, status, code, expires, message, wall)
      ensures Completes(p, old(View()), cid, status, code) ==>
                var i := FindCommand(old(onboarding), cid);
                && r.Ok? && onboarding == old(onboarding)[i := r.value]
                && r.value == old(onboarding)[i].(status := status, expires := expires, message := message,
                                                  clock := local, code := r.value.code)
                && (if r.value.action.Issue? && status.Done? then p.normalize(code) == Some(r.value.code)
                    else r.value.code == "")
      ensures AlreadyFinished(old(View()), cid, status) ==> r == Ok(old(onboarding)[FindCommand(old(onboarding), cid)])
      ensures r.Ok? ==> Completes(p, old(View()), cid, status, code) || AlreadyFinished(old(View()), cid, status)
      ensures !Completes(p, old(View()), cid, status, code) ==> View() == old(View())
      ensures records == old(records) && pending == old(pending) && connections == old(connections)
    {
      if status.Waiting? {
        return Err("onboarding status must be done or failed");
      }
      for i := 0 to |onboarding|
        invariant View() == old(View())
        invariant forall j :: 0 <= j < i ==> onboarding[j].id != cid
      {
        var command := onboarding[i];
        if command.id == cid {
          if command.target != id {
            return Err("only the selected instance completes its onboarding");
          }
          if !command.status.Waiting? {
            return Ok(command);
          }
          command := command.(status := status, expires := expires, message := message, code := "");
          if command.action.Issue? && status.Done? {
            var normalized := p.normalize(code);
            if normalized.None? {
              return Err("pairing code is invalid");
            }
            command := command.(code := normalized.value);
          }
          var clock := Tick(wall);
          command := command.(clock := clock);
          onboarding := onboarding[i := command];
          return Ok(command);
        }
      }
      r := Err("onboarding command was not found");
    }

    method PublishConnection(p: Policy, conn: Connection, wall: int) returns (r: Result<Connection>)
      modifies this
      ensures View() == Publish(p, old(View()), conn, wall)
      ensures r.Ok? <==> p.idOk(conn.instance) && p.connectionOk(conn)
      ensures !r.Ok? ==> View() == old(View())
      ensures r.Ok? ==> connections == old(connections)[conn.instance := r.value]
      ensures r.Ok? ==> r.value == conn.(clock := local, lastSeen := r.value.lastSeen)
      ensures r.Ok? && conn.online && conn.lastSeen == "" ==> r.value.lastSeen == p.timeText(local.wall)
      ensures r.Ok? && !(conn.online && conn.lastSeen == "") ==> r.value.lastSeen == conn.lastSeen
      ensures records == old(records) && pending == old(pending) && onboarding == old(onboarding)
    {
      if !p.idOk(conn.instance) || !p.connectionOk(conn) {
        return Err("refused");
      }
      var clock := Tick(wall);
      var stamped := conn.(clock := clock);
      if conn.lastSeen == "" && conn.online {
        stamped := stamped.(lastSeen := p.timeText(clock.wall));
      }
      connections := connections[conn.instance := stamped];
      r := Ok(stamped);
    }

    method UpsertOnboarding(command: Command)
      modifies this`onboarding
      ensures onboarding == UpsertCommand(old(onboarding), command)
    {
      UpsertCommandAt(onboarding, command);
      for i := 0 to |onboarding|
        invariant onboarding == old(onboarding)
        invariant forall j :: 0 <= j < i ==> onboarding[j].id != command.id
      {
        if onboarding[i].id == command.id {
          if Compare(command.clock, onboarding[i].clock) > 0 {
            onboarding := onboarding[i := command];
          }
          return;
        }
      }
      onboarding := onboarding + [command];
    }

    /** Folds one remote record into the stored copy, in any key order. */
    method FoldRecord(p: Policy, x: Id, theirs: Record)
      requires local.node == id
      modifies this`records, this`local
      ensures records == old(records)[x := MergeRecord(p, RecordOf(old(records), x), theirs)]
      ensures Raised(old(local), local, FieldClocks(p, theirs))
    {
      var mine := if x in records then records[x] else map[];
      var fields := mine;
      var done: set<Key> := {};
      assert Restrict(theirs, {}) == map[];
      while theirs.Keys - done != {}
        invariant done <= theirs.Keys && records == old(records)
        invariant fields == MergeRecord(p, mine, Restrict(theirs, done))
        invariant Raised(old(local), local, FieldClocks(p, Restrict(theirs, done)))
        decreases theirs.Keys - done
      {
        var key :| key in theirs.Keys - done;
        var field := theirs[key];
        FieldClocksOfOneMore(p, theirs, done, key);
        FieldsOfOneMore(p, mine, theirs, done, key);
        if p.keyOk(key) && p.safe(key, field.value) {
          WitnessAlso(old(local), local, id, field.clock, FieldClocks(p, Restrict(theirs, done)));
          WitnessClock(field.clock);
          if key !in fields || Compare(field.clock, fields[key].clock) > 0 {
            fields := fields[key := field.(key := key)];
          }
        }
        done := done + {key};
      }
      NothingLeft(theirs.Keys, done);
      assert Restrict(theirs, done) == theirs;
      records := records[x := fields];
    }

    method FoldRecords(p: Policy, remote: Replica)
      requires local.node == id && this != remote
      modifies this`records, this`local
      ensures records == MergeRecords(p, id, old(records), remote.records)
      ensures Raised(old(local), local, Offered(p, id, Part(remote.View(), remote.records.Keys, {})))
    {
      ghost var whole := remote.View();
      var done: set<Id> := {};
      assert Restrict(whole.records, {}) == map[];
      while remote.records.Keys - done != {}
        invariant done <= remote.records.Keys
        invariant records == MergeRecords(p, id, old(records), Restrict(whole.records, done))
        invariant Raised(old(local), local, Offered(p, id, Part(whole, done, {})))
        decreases remote.records.Keys - done
      {
        var x :| x in remote.records.Keys - done;
        OfferedByOneMore(p, id, whole, done, x);
        RecordsOfOneMore(p, id, old(records), whole.records, done, x);
        if p.idOk(x) && x != id {
          ghost var middle := local;
          FoldRecord(p, x, remote.records[x]);
          RaiseMore(old(local), middle, local, Offered(p, id, Part(whole, done, {})), FieldClocks(p, whole.records[x]));
        }
        done := done + {x};
      }
      NothingLeft(whole.records.Keys, done);
      assert Restrict(whole.records, done) == whole.records;
    }

    method FoldConnections(p: Policy, remote: Replica)
      requires local.node == id && this != remote
      modifies this`connections, this`local
      ensures connections == MergeConnections(p, old(connections), remote.connections)
      ensures Raised(old(local), local, ConnectionClocks(p, remote.connections))
    {
      ghost var whole := remote.connections;
      var done: set<Id> := {};
      assert Restrict(whole, {}) == map[];
      while remote.connections.Keys - done != {}
        invariant done <= whole.Keys
        invariant connections == MergeConnections(p, old(connections), Restrict(whole, done))
        invariant Raised(old(local), local, ConnectionClocks(p, Restrict(whole, done)))
        decreases remote.connections.Keys - done
      {
        var x :| x in remote.connections.Keys - done;
        var conn := remote.connections[x];
        ConnectionsOfOneMore(p, old(connections), whole, done, x);
        if p.idOk(x) {
          WitnessAlso(old(local), local, id, conn.clock, ConnectionClocks(p, Restrict(whole, done)));
          WitnessClock(conn.clock);
          if x !in connections || Compare(conn.clock, connections[x].clock) > 0 {
            connections := connections[x := conn];
          }
        }
        done := done + {x};
      }
      NothingLeft(whole.Keys, done);
      assert Restrict(whole, done) == whole;
    }

    /** Decides or relays one incoming edit. */
    method FoldEdit(p: Policy, edit: Edit)
      modifies this
      ensures View() == MergeEdit(p, old(View()), edit)
      ensures edit.target == id && edit.status.Pending? && p.keyOk(edit.path) && p.safe(edit.path, edit.value) ==>
                var own := Own(old(View()));
                if edit.path !in own || Later(edit.clock, own[edit.path].clock) then
                  && pending == UpsertEdit(old(pending), edit.(status := Applied))
                  && OwnWritten(old(View()), View(), edit.path,
                                Field(edit.path, edit.value, edit.deleted, edit.clock, id))
                else records == old(records) && pending == UpsertEdit(old(pending), edit.(status := Superseded))
      ensures !(edit.target == id && edit.status.Pending? && p.keyOk(edit.path) && p.safe(edit.path, edit.value)) ==>
                records == old(records) && pending == UpsertEdit(old(pending), edit)
      ensures onboarding == old(onboarding) && connections == old(connections)
    {
      WitnessClock(edit.clock);
      var merged := edit;
      if merged.target == id && merged.status.Pending? {
        if p.keyOk(merged.path) && p.safe(merged.path, merged.value) {
          var own := if id in records then records[id] else map[];
          if merged.path !in own || Compare(merged.clock, own[merged.path].clock) > 0 {
            PutOwnField(merged.path, merged.value, merged.deleted, merged.clock);
            merged := merged.(status := Applied);
          } else {
            merged := merged.(status := Superseded);
          }
        }
      }
      Upsert(merged);
    }

    method FoldCommand(p: Policy, command: Command)
      modifies this
      ensures View() == MergeCommand(p, old(View()), command)
      ensures p.idOk(command.target) &&
              (command.action.Issue? ||
               (command.action.Accept? && (command.code == "" || p.normalize(command.code).Some?))) ==>
                onboarding == UpsertCommand(old(onboarding), command) && Covers(local, command.clock)
      ensures !p.idOk(command.target) || command.action.UnknownAction? ||
              (command.action.Accept? && command.code != "" && p.normalize(command.code).None?) ==>
                View() == old(View())
      ensures records == old(records) && pending == old(pending) && connections == old(connections)
    {
      if !p.idOk(command.target) || command.action.UnknownAction? {
        return;
      }
      if command.action.Accept? && command.code != "" && p.normalize(command.code).None? {
        return;
      }
      WitnessClock(command.clock);
      UpsertOnboarding(command);
    }
  }

  ghost function ConnectionClocks(p: Policy, theirs: map<Id, Connection>): iset<Clock> {
    iset x | x in theirs && p.idOk(x) :: theirs[x].clock
  }

  lemma OfferedByOneMore(p: Policy, id: Id, remote: Snapshot, ids: set<Id>, x: Id)
    requires x in remote.records && x !in ids
    ensures TakesRecord(p, id, x) ==>
              Offered(p, id, Part(remote, ids + {x}, {})) ==
              Offered(p, id, Part(remote, ids, {})) + FieldClocks(p, remote.records[x])
    ensures !TakesRecord(p, id, x) ==>
              Offered(p, id, Part(remote, ids + {x}, {})) == Offered(p, id, Part(remote, ids, {}))
  {
    var before, after := Part(remote, ids, {}), Part(remote, ids + {x}, {});
    assert x in after.records && after.records[x] == remote.records[x];
    assert forall y :: y in before.records ==> y in after.records && after.records[y] == before.records[y];
    assert forall y :: y in after.records && y != x ==> y in before.records;
    if TakesRecord(p, id, x) {
      forall c ensures c in Offered(p, id, after) <==> c in Offered(p, id, before) + FieldClocks(p, remote.records[x]) {
        if c in FieldClocks(p, remote.records[x]) {
          var k :| k in remote.records[x] && Admissible(p, k, remote.records[x][k].value) &&
                   remote.records[x][k].clock == c;
          assert k in after.records[x];
        }
        if Offers(p, id, before, c) {
          var y, k :| y in before.records && TakesRecord(p, id, y) && k in before.records[y] &&
                      Admissible(p, k, before.records[y][k].value) && before.records[y][k].clock == c;
          assert k in after.records[y];
        }
        if Offers(p, id, after, c) && c !in FieldClocks(p, remote.records[x]) {
          var y, k :| y in after.records && TakesRecord(p, id, y) && k in after.records[y] &&
                      Admissible(p, k, after.records[y][k].value) && after.records[y][k].clock == c;
          assert y != x && k in before.records[y];
        }
      }
    }
  }

  lemma RecordsOfOneMore(p: Policy, id: Id, mine: map<Id, Record>, theirs: map<Id, Record>, ids: set<Id>, x: Id)
    requires x in theirs && x !in ids
    ensures var before := MergeRecords(p, id, mine, Restrict(theirs, ids));
            && RecordOf(before, x) == RecordOf(mine, x)
            && MergeRecords(p, id, mine, Restrict(theirs, ids + {x})) ==
                 (if TakesRecord(p, id, x)
                  then before[x := MergeRecord(p, RecordOf(mine, x), theirs[x])]
                  else before)
  {
  }

  /** Folds `remote` into a copy of `local`. The result is a fresh replica; both arguments are
      left as they were. */
  method Merge(p: Policy, local: Replica, remote: Replica) returns (out: Replica)
    requires local.local.node == local.id
    ensures fresh(out)
    ensures MergeResult(p, local.View(), remote.View(), out.View())
    ensures out.id == local.id && out.group == if local.group == "" then remote.group else local.group
    ensures Sorting.StrictWeakOrder(p.idBefore) ==>
              Sorting.Sorted(out.pending, (a: Edit, b: Edit) => p.idBefore(a.id, b.id))
    ensures Sorting.Sorted(out.onboarding, (a: Command, b: Command) => Compare(a.clock, b.clock) < 0)
  {
    out := new Replica.Clone(local);
    if out.group == "" {
      out.group := remote.group;
    }
    ghost var start := out.View();
    out.FoldRecords(p, remote);
    ghost var middle := out.local;
    out.FoldConnections(p, remote);
    ghost var mapped := out.View();
    RaiseMore(start.local, middle, out.local, Offered(p, out.id, Part(remote.View(), remote.records.Keys, {})),
              ConnectionClocks(p, remote.connections));
    OfferedInAll(p, out.id, remote.View());
    assert MergedMaps(p, local.View(), remote.View(), mapped);
    FoldLists(p, out, remote);
    ListsKeepGroup(p, mapped, remote.View());
    SortLists(p, out);
  }

  lemma {:induction false} EditsKeepGroup(p: Policy, r: Snapshot, edits: seq<Edit>)
    ensures MergeEdits(p, r, edits).id == r.id && MergeEdits(p, r, edits).group == r.group
  {
    if edits != [] {
      EditsKeepGroup(p, r, edits[..|edits| - 1]);
    }
  }

  lemma {:induction false} CommandsKeepGroup(p: Policy, r: Snapshot, commands: seq<Command>)
    ensures MergeCommands(p, r, commands).id == r.id && MergeCommands(p, r, commands).group == r.group
  {
    if commands != [] {
      CommandsKeepGroup(p, r, commands[..|commands| - 1]);
    }
  }

  lemma ListsKeepGroup(p: Policy, m: Snapshot, remote: Snapshot)
    ensures MergedLists(p, m, remote).id == m.id && MergedLists(p, m, remote).group == m.group
  {
    EditsKeepGroup(p, m, remote.pending);
    CommandsKeepGroup(p, MergeEdits(p, m, remote.pending), remote.onboarding);
  }

  /** Edits, then commands, in list order. */
  method FoldLists(p: Policy, out: Replica, remote: Replica)
    requires out != remote
    modifies out
    ensures out.View() == MergedLists(p, old(out.View()), remote.View())
  {
    ghost var mapped := out.View();
    for i := 0 to |remote.pending|
      invariant out.View() == MergeEdits(p, mapped, remote.pending[..i])
    {
      assert remote.pending[..i + 1][..i] == remote.pending[..i];
      out.FoldEdit(p, remote.pending[i]);
    }
    assert remote.pending[..|remote.pending|] == remote.pending;
    ghost var edited := out.View();
    for i := 0 to |remote.onboarding|
      invariant out.View() == MergeCommands(p, edited, remote.onboarding[..i])
    {
      assert remote.onboarding[..i + 1][..i] == remote.onboarding[..i];
      out.FoldCommand(p, remote.onboarding[i]);
    }
    assert remote.onboarding[..|remote.onboarding|] == remote.onboarding;
  }

  method SortLists(p: Policy, out: Replica)
    modifies out`pending, out`onboarding
    ensures SortedCopy(old(out.View()), out.View())
    ensures Sorting.StrictWeakOrder(p.idBefore) ==>
              Sorting.Sorted(out.pending, (a: Edit, b: Edit) => p.idBefore(a.id, b.id))
    ensures Sorting.Sorted(out.onboarding, (a: Command, b: Command) => Compare(a.clock, b.clock) < 0)
  {
    var byId := (a: Edit, b: Edit) => p.idBefore(a.id, b.id);
    var byClock := (a: Command, b: Command) => Compare(a.clock, b.clock) < 0;
    Sorting.SortKeepsElements(out.pending, byId);
    Sorting.SortKeepsElements(out.onboarding, byClock);
    if Sorting.StrictWeakOrder(p.idBefore) {
      assert Sorting.StrictWeakOrder(byId) by {
        assert forall a, b :: byId(a, b) == p.idBefore(a.id, b.id);
      }
      Sorting.SortSorts(out.pending, byId);
    }
    Sorting.SortSorts(out.onboarding, byClock);
    out.pending := Sorting.Sort(out.pending, byId);
    out.onboarding := Sorting.Sort(out.onboarding, byClock);
  }

  lemma OfferedInAll(p: Policy, id: Id, remote: Snapshot)
    ensures Offered(p, id, remote) ==
            Offered(p, id, Part(remote, remote.records.Keys, {})) + ConnectionClocks(p, remote.connections)
  {
    var part := Part(remote, remote.records.Keys, {});
    assert part.records == remote.records;
    assert part.connections == map[];
  }
}
