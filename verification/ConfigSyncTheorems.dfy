/** What holds in every run of the replicated settings database. */
module ConfigSyncTheorems {
  import opened ConfigSync
  import opened ConfigSyncRuns
  import opened ConfigSyncInvariant
  import opened ConfigSyncMerge

  lemma StepKeeps(p: Policy, w: World, a: Action, w': World)
    requires Inv(p, w) && Step(p, w, a, w')
    ensures Inv(p, w') && Grows(w, w')
  {
    match a {
      case Join(x, group) => JoinKeeps(p, w, x, group);
      case Local(x, op) => LocalKeeps(p, w, x, op);
      case Merged(x, s, out) => MergeKeeps(p, w, x, s, out);
    }
  }

  lemma {:induction false} EveryStateIsGood(p: Policy, worlds: seq<World>, actions: seq<Action>, i: nat)
    requires Run(p, worlds, actions) && i < |worlds|
    ensures Inv(p, worlds[i])
  {
    if i > 0 {
      EveryStateIsGood(p, worlds, actions, i - 1);
      assert Step(p, worlds[i - 1], actions[i - 1], worlds[i]);
      StepKeeps(p, worlds[i - 1], actions[i - 1], worlds[i]);
    }
  }

  lemma GrowsAgain(a: World, b: World, c: World)
    requires Grows(a, b) && Grows(b, c)
    ensures Grows(a, c)
  {
    forall x | x in a.replicas ensures Advanced(OwnOf(a, x), OwnOf(c, x)) {
      assert Advanced(OwnOf(a, x), OwnOf(b, x)) && Advanced(OwnOf(b, x), OwnOf(c, x));
    }
    forall x ensures ArrivedAt(a, x) <= ArrivedAt(c, x) {
      assert ArrivedAt(a, x) <= ArrivedAt(b, x) <= ArrivedAt(c, x);
    }
  }

  lemma StepGrows(p: Policy, worlds: seq<World>, actions: seq<Action>, i: nat)
    requires Run(p, worlds, actions) && i < |actions|
    ensures Grows(worlds[i], worlds[i + 1])
  {
    EveryStateIsGood(p, worlds, actions, i);
    assert Step(p, worlds[i], actions[i], worlds[i + 1]);
    StepKeeps(p, worlds[i], actions[i], worlds[i + 1]);
  }

  lemma {:induction false} HistoryGrows(p: Policy, worlds: seq<World>, actions: seq<Action>, i: nat, j: nat)
    requires Run(p, worlds, actions) && i <= j < |worlds|
    ensures Grows(worlds[i], worlds[j])
  {
    if i < j {
      HistoryGrows(p, worlds, actions, i, j - 1);
      StepGrows(p, worlds, actions, j - 1);
      GrowsAgain(worlds[i], worlds[j - 1], worlds[j]);
    }
  }

  // ---------------------------------------------------------------- copies of records

  /** The clock of a logged field determines the field. */
  lemma SameClockSameField(p: Policy, log: map<Clock, Event>, x: Id, k: Key, f: Field, g: Field)
    requires FieldLogged(p, log, x, k, f) && FieldLogged(p, log, x, k, g) && f.clock == g.clock
    ensures f == g
  {
  }

  lemma OwnFieldLogged(p: Policy, w: World, x: Id, k: Key)
    requires Inv(p, w) && x in w.replicas && k in OwnOf(w, x)
    ensures FieldLogged(p, w.log, x, k, OwnOf(w, x)[k])
  {
    assert Good(p, w, w.replicas[x]) && Stored(w.replicas[x], x, k);
  }

  /** The copy of `x`'s record held anywhere is never ahead of `x`'s own record, and agrees with it
      wherever their clocks do. */
  lemma CopyIsNeverAhead(p: Policy, worlds: seq<World>, actions: seq<Action>, i: nat, y: Id, x: Id, k: Key)
    requires Run(p, worlds, actions) && i < |worlds| && y in worlds[i].replicas
    requires Stored(worlds[i].replicas[y], x, k)
    ensures var copy, own := worlds[i].replicas[y].records[x][k], OwnOf(worlds[i], x);
            x in worlds[i].replicas && k in own && !Later(copy.clock, own[k].clock) &&
            (copy.clock == own[k].clock ==> copy == own[k])
  {
    var w := worlds[i];
    EveryStateIsGood(p, worlds, actions, i);
    var s := w.replicas[y];
    assert Good(p, w, s);
    assert FieldLogged(p, w.log, x, k, s.records[x][k]) && Behind(OwnOf(w, x), k, s.records[x][k]);
    OwnFieldLogged(p, w, x, k);
    if s.records[x][k].clock == OwnOf(w, x)[k].clock {
      SameClockSameField(p, w.log, x, k, s.records[x][k], OwnOf(w, x)[k]);
    }
  }

  /** The foreign part of a merge does not depend on the lists. */
  lemma {:induction false} EditsLeaveForeign(p: Policy, r: Snapshot, edits: seq<Edit>)
    ensures var after := MergeEdits(p, r, edits);
            && after.id == r.id && after.connections == r.connections && after.onboarding == r.onboarding
            && after.records.Keys <= r.records.Keys + {r.id} && r.records.Keys <= after.records.Keys
            && forall x :: x in r.records && x != r.id ==> after.records[x] == r.records[x]
  {
    if edits != [] {
      EditsLeaveForeign(p, r, edits[..|edits| - 1]);
      EditParts(p, MergeEdits(p, r, edits[..|edits| - 1]), edits[|edits| - 1]);
    }
  }

  lemma {:induction false} CommandsLeaveMaps(p: Policy, r: Snapshot, commands: seq<Command>)
    ensures var after := MergeCommands(p, r, commands);
            after.id == r.id && after.connections == r.connections && after.records == r.records &&
            after.pending == r.pending
  {
    if commands != [] {
      CommandsLeaveMaps(p, r, commands[..|commands| - 1]);
    }
  }

  lemma MergeForeign(p: Policy, l: Snapshot, s: Snapshot, out: Snapshot, x: Id)
    requires MergeResult(p, l, s, out) && x != l.id
    ensures out.id == l.id && out.connections == MergeConnections(p, l.connections, s.connections)
    ensures x in out.records <==> x in l.records || (x in s.records && p.idOk(x))
    ensures x in out.records ==>
              RecordOf(out.records, x) ==
              MergeRecord(p, RecordOf(l.records, x), if p.idOk(x) then RecordOf(s.records, x) else map[])
  {
    var m :| MergedMaps(p, l, s, m) && SortedCopy(MergedLists(p, m, s), out);
    MapsForeign(p, l, s, x);
    ListsLeaveForeign(p, m, s);
    assert RecordOf(out.records, x) == RecordOf(m.records, x);
  }

  lemma ListsLeaveForeign(p: Policy, m: Snapshot, s: Snapshot)
    ensures var after := MergedLists(p, m, s);
            && after.id == m.id && after.connections == m.connections
            && after.records.Keys <= m.records.Keys + {m.id} && m.records.Keys <= after.records.Keys
            && forall x :: x in m.records && x != m.id ==> after.records[x] == m.records[x]
  {
    EditsLeaveForeign(p, m, s.pending);
    CommandsLeaveMaps(p, MergeEdits(p, m, s.pending), s.onboarding);
  }

  lemma MapsForeign(p: Policy, l: Snapshot, s: Snapshot, x: Id)
    requires x != l.id
    ensures var merged := MergeRecords(p, l.id, l.records, s.records);
            && (x in merged <==> x in l.records || (x in s.records && p.idOk(x)))
            && (x in merged ==>
                  merged[x] ==
                  MergeRecord(p, RecordOf(l.records, x), if p.idOk(x) then RecordOf(s.records, x) else map[]))
  {
  }

  lemma OwnRecordIsClean(p: Policy, worlds: seq<World>, actions: seq<Action>, i: nat, x: Id)
    requires Run(p, worlds, actions) && i < |worlds| && x in worlds[i].replicas
    ensures p.idOk(x) && worlds[i].replicas[x].id == x
    ensures var own := OwnOf(worlds[i], x); forall k :: k in own ==> Admissible(p, k, own[k].value) && own[k].key == k
  {
    EveryStateIsGood(p, worlds, actions, i);
    forall k | k in OwnOf(worlds[i], x) ensures FieldLogged(p, worlds[i].log, x, k, OwnOf(worlds[i], x)[k]) {
      OwnFieldLogged(p, worlds[i], x, k);
    }
  }

  /** Merging a snapshot taken since `x`'s last change makes the local copy of `x`'s record equal. */
  lemma CurrentSnapshotMakesCopyEqual(p: Policy, worlds: seq<World>, actions: seq<Action>, j: nat, i: nat, y: Id, x: Id)
    requires Run(p, worlds, actions) && j <= i < |actions| && x in worlds[j].replicas && x != y
    requires OwnOf(worlds[j], x) == OwnOf(worlds[i], x)
    requires actions[i].Merged? && actions[i].x == y && actions[i].snapshot == worlds[j].replicas[x]
    ensures y in worlds[i + 1].replicas
    ensures RecordOf(worlds[i + 1].replicas[y].records, x) == OwnOf(worlds[i + 1], x) == OwnOf(worlds[i], x)
  {
    var w, s, out := worlds[i], actions[i].snapshot, actions[i].out;
    assert Step(p, w, actions[i], worlds[i + 1]);
    assert x in w.replicas by {
      HistoryGrows(p, worlds, actions, j, i);
    }
    OwnRecordIsClean(p, worlds, actions, j, x);
    OwnRecordIsClean(p, worlds, actions, i, x);
    OwnRecordIsClean(p, worlds, actions, i, y);
    var own, mine := OwnOf(w, x), RecordOf(w.replicas[y].records, x);
    assert RecordOf(s.records, x) == own;
    MergeForeign(p, w.replicas[y], s, out, x);
    forall k | k in mine ensures Behind(own, k, mine[k]) && (mine[k].clock == own[k].clock ==> mine[k] == own[k]) {
      assert Stored(w.replicas[y], x, k);
      CopyIsNeverAhead(p, worlds, actions, i, y, x, k);
    }
    CurrentWins(p, mine, own);
  }

  lemma CurrentWins(p: Policy, mine: Record, own: Record)
    requires forall k :: k in mine ==> Behind(own, k, mine[k]) && (mine[k].clock == own[k].clock ==> mine[k] == own[k])
    requires forall k :: k in own ==> Admissible(p, k, own[k].value) && own[k].key == k
    ensures MergeRecord(p, mine, own) == own
  {
  }

  // ---------------------------------------------------------------- own records and edits

  /** An engine's own field is the greatest-clock write among its local writes and the edits for it
      that were delivered to it, and nothing else. */
  lemma OwnFieldIsLatestArrival(p: Policy, worlds: seq<World>, actions: seq<Action>, i: nat, x: Id, k: Key)
    requires Run(p, worlds, actions) && i < |worlds| && x in worlds[i].replicas
    ensures var w := worlds[i];
            && (k in OwnOf(w, x) <==> exists c :: c in ArrivedAt(w, x) && LoggedWrite(w.log, x, c) && w.log[c].key == k)
            && (k in OwnOf(w, x) ==>
                  var f := OwnOf(w, x)[k];
                  && f.clock in ArrivedAt(w, x) && LoggedWrite(w.log, x, f.clock)
                  && w.log[f.clock] == Wrote(x, k, f.value, f.deleted) && f.writer == x
                  && forall c :: c in ArrivedAt(w, x) && LoggedWrite(w.log, x, c) && w.log[c].key == k ==>
                       !Later(c, f.clock))
  {
    EveryStateIsGood(p, worlds, actions, i);
    assert OwnIsLatest(worlds[i], x);
    if k in OwnOf(worlds[i], x) {
      OwnFieldLogged(p, worlds[i], x, k);
    }
  }

  /** No replica shows an edit as applied or superseded before its target's own clock for that path
      has reached the edit's clock. */
  lemma DecidedEditHasArrived(p: Policy, worlds: seq<World>, actions: seq<Action>, i: nat, y: Id, e: Edit)
    requires Run(p, worlds, actions) && i < |worlds| && y in worlds[i].replicas
    requires e in worlds[i].replicas[y].pending && !e.status.Pending?
    ensures var own := OwnOf(worlds[i], e.target);
            e.target in worlds[i].replicas && e.path in own && !Later(e.clock, own[e.path].clock)
  {
    var w := worlds[i];
    EveryStateIsGood(p, worlds, actions, i);
    assert Good(p, w, w.replicas[y]);
    assert EditLogged(p, w.log, e) && e.clock in ArrivedAt(w, e.target);
    assert OwnIsLatest(w, e.target);
  }

  function EditIds(edits: seq<Edit>): set<EditId> {
    set e | e in edits :: e.id
  }

  lemma {:induction false} UpsertAddsId(s: seq<Edit>, e: Edit)
    ensures EditIds(UpsertEdit(s, e)) == EditIds(s) + {e.id}
  {
    if s == [] {
    } else {
      assert s == [s[0]] + s[1..];
      assert EditIds(s) == {s[0].id} + EditIds(s[1..]);
      if s[0].id == e.id {
        assert EditIds([e] + s[1..]) == {e.id} + EditIds(s[1..]);
      } else {
        UpsertAddsId(s[1..], e);
        assert EditIds([s[0]] + UpsertEdit(s[1..], e)) == {s[0].id} + EditIds(UpsertEdit(s[1..], e));
      }
    }
  }

  lemma {:induction false} EditsAddIds(p: Policy, r: Snapshot, edits: seq<Edit>)
    ensures EditIds(MergeEdits(p, r, edits).pending) == EditIds(r.pending) + EditIds(edits)
  {
    if edits != [] {
      var n := |edits| - 1;
      EditsAddIds(p, r, edits[..n]);
      var before := MergeEdits(p, r, edits[..n]);
      EditParts(p, before, edits[n]);
      UpsertAddsId(before.pending, StoredEdit(p, before, edits[n]));
      IdsOneMore(edits);
    }
  }

  lemma IdsOneMore(edits: seq<Edit>)
    requires edits != []
    ensures EditIds(edits) == EditIds(edits[..|edits| - 1]) + {edits[|edits| - 1].id}
  {
  }

  /** A merge holds exactly the edits of both sides. */
  lemma MergeUnitesEdits(p: Policy, l: Snapshot, s: Snapshot, out: Snapshot)
    requires MergeResult(p, l, s, out)
    ensures EditIds(out.pending) == EditIds(l.pending) + EditIds(s.pending)
  {
    var m :| MergedMaps(p, l, s, m) && SortedCopy(MergedLists(p, m, s), out);
    EditsAddIds(p, m, s.pending);
    CommandsLeaveMaps(p, MergeEdits(p, m, s.pending), s.onboarding);
    SameMembers(MergedLists(p, m, s).pending, out.pending);
  }

  lemma StepKeepsEdits(p: Policy, w: World, a: Action, w': World, y: Id)
    requires Step(p, w, a, w') && y in w.replicas
    ensures y in w'.replicas && EditIds(w.replicas[y].pending) <= EditIds(w'.replicas[y].pending)
  {
    if a.Merged? && a.x == y {
      MergeUnitesEdits(p, w.replicas[y], a.snapshot, a.out);
    } else if a.Local? && a.x == y && a.op.EditOp? {
      var r, op := w.replicas[y], a.op;
      UpsertAddsId(r.pending, NewEdit(r, op.target, op.key, op.value, op.deleted, NextClock(r.local, r.id, op.wall)));
    }
  }

  /** The last step up to time `j` merges at `y` what `z` was at time `u`. */
  ghost predicate Relays(worlds: seq<World>, actions: seq<Action>, j: nat, y: Id, u: nat, z: Id) {
    && u < j < |worlds| <= |actions| + 1 && actions[j - 1].Merged? && actions[j - 1].x == y
    && z in worlds[u].replicas && worlds[u].replicas[z] == actions[j - 1].snapshot
  }

  /** What `x` knew at time `i` has reached `y` by time `j`, through any chain of merges. */
  ghost predicate Reaches(worlds: seq<World>, actions: seq<Action>, i: nat, x: Id, j: nat, y: Id)
    decreases j
  {
    && i <= j < |worlds| <= |actions| + 1
    && if i == j then x == y
       else Reaches(worlds, actions, i, x, j - 1, y) ||
            exists u: nat, z :: u < j && Relays(worlds, actions, j, y, u, z) && Reaches(worlds, actions, i, x, u, z)
  }

  lemma RelayMerges(p: Policy, worlds: seq<World>, actions: seq<Action>, j: nat, y: Id, u: nat, z: Id)
    requires Run(p, worlds, actions) && Relays(worlds, actions, j, y, u, z)
    ensures y in worlds[j - 1].replicas && y in worlds[j].replicas && worlds[u].replicas[z] in worlds[j - 1].seen
    ensures MergeResult(p, worlds[j - 1].replicas[y], worlds[u].replicas[z], worlds[j].replicas[y])
  {
    assert Step(p, worlds[j - 1], actions[j - 1], worlds[j - 1 + 1]);
  }

  /** What holds of an engine at a time still holds of it one step later. */
  ghost predicate Stays(holds: (nat, Id) -> bool, k: nat, z: Id) {
    holds(k, z) ==> holds(k + 1, z)
  }

  /** What holds of the engine whose state is merged comes to hold where it is merged. */
  ghost predicate Passes(worlds: seq<World>, actions: seq<Action>, holds: (nat, Id) -> bool, k: nat, z: Id, u: nat,
                         v: Id)
  {
    Relays(worlds, actions, k, z, u, v) && holds(u, v) ==> holds(k, z)
  }

  /** What stays and passes on gets wherever knowledge gets. */
  lemma {:induction false} ReachesAlong(worlds: seq<World>, actions: seq<Action>, i: nat, x: Id, j: nat, y: Id,
                                        holds: (nat, Id) -> bool)
    requires Reaches(worlds, actions, i, x, j, y) && holds(i, x)
    requires forall k: nat, z :: k < |actions| ==> Stays(holds, k, z)
    requires forall k: nat, z, u: nat, v :: Passes(worlds, actions, holds, k, z, u, v)
    ensures holds(j, y)
    decreases j
  {
    if i < j {
      if Reaches(worlds, actions, i, x, j - 1, y) {
        ReachesAlong(worlds, actions, i, x, j - 1, y, holds);
        assert Stays(holds, j - 1, y);
      } else {
        var u: nat, z :| u < j && Relays(worlds, actions, j, y, u, z) && Reaches(worlds, actions, i, x, u, z);
        ReachesAlong(worlds, actions, i, x, u, z, holds);
        assert Passes(worlds, actions, holds, j, y, u, z);
      }
    }
  }

  /** The engine `y` holds these edits at time `k`. */
  ghost predicate HoldsEdits(worlds: seq<World>, ids: set<EditId>, k: nat, y: Id) {
    k < |worlds| && y in worlds[k].replicas && ids <= EditIds(worlds[k].replicas[y].pending)
  }

  lemma HeldEditsStay(p: Policy, worlds: seq<World>, actions: seq<Action>, ids: set<EditId>, k: nat, y: Id)
    requires Run(p, worlds, actions) && k < |actions| && HoldsEdits(worlds, ids, k, y)
    ensures HoldsEdits(worlds, ids, k + 1, y)
  {
    StepKeepsEdits(p, worlds[k], actions[k], worlds[k + 1], y);
  }

  lemma HeldEditsPass(p: Policy, worlds: seq<World>, actions: seq<Action>, ids: set<EditId>, k: nat, y: Id, u: nat,
                      z: Id)
    requires Run(p, worlds, actions) && Relays(worlds, actions, k, y, u, z) && HoldsEdits(worlds, ids, u, z)
    ensures HoldsEdits(worlds, ids, k, y)
  {
    RelayMerges(p, worlds, actions, k, y, u, z);
    MergeUnitesEdits(p, worlds[k - 1].replicas[y], worlds[u].replicas[z], worlds[k].replicas[y]);
  }

  lemma ReachedEditsAreHeld(p: Policy, worlds: seq<World>, actions: seq<Action>, i: nat, x: Id, j: nat, y: Id)
    requires Run(p, worlds, actions) && i < |worlds| && x in worlds[i].replicas && Reaches(worlds, actions, i, x, j, y)
    ensures y in worlds[j].replicas && EditIds(worlds[i].replicas[x].pending) <= EditIds(worlds[j].replicas[y].pending)
  {
    var ids := EditIds(worlds[i].replicas[x].pending);
    var holds := (k: nat, z: Id) => HoldsEdits(worlds, ids, k, z);
    forall k: nat, z | k < |actions| ensures Stays(holds, k, z) {
      if holds(k, z) {
        HeldEditsStay(p, worlds, actions, ids, k, z);
      }
    }
    forall k: nat, z, u: nat, v ensures Passes(worlds, actions, holds, k, z, u, v) {
      if Relays(worlds, actions, k, z, u, v) && holds(u, v) {
        HeldEditsPass(p, worlds, actions, ids, k, z, u, v);
      }
    }
    ReachesAlong(worlds, actions, i, x, j, y, holds);
  }

  lemma HeldEditIsLogged(p: Policy, worlds: seq<World>, actions: seq<Action>, i: nat, x: Id, e: Edit)
    requires Run(p, worlds, actions) && i < |worlds| && x in worlds[i].replicas && e in worlds[i].replicas[x].pending
    ensures EditLogged(p, worlds[i].log, e) && (e.target == x ==> !e.status.Pending?)
  {
    EveryStateIsGood(p, worlds, actions, i);
    assert Good(p, worlds[i], worlds[i].replicas[x]);
  }

  lemma OwnFieldAt(p: Policy, worlds: seq<World>, actions: seq<Action>, i: nat, x: Id, k: Key)
    requires Run(p, worlds, actions) && i < |worlds| && x in worlds[i].replicas && k in OwnOf(worlds[i], x)
    ensures FieldLogged(p, worlds[i].log, x, k, OwnOf(worlds[i], x)[k])
  {
    EveryStateIsGood(p, worlds, actions, i);
    OwnFieldLogged(p, worlds[i], x, k);
  }

  /** An edit relayed through any chain of merges to its target has been decided there: it is the
      target's own field, or a later write for that path is. */
  lemma RelayedEditTakesEffect(p: Policy, worlds: seq<World>, actions: seq<Action>, i: nat, x: Id, e: Edit, j: nat)
    requires Run(p, worlds, actions) && i < |worlds| && x in worlds[i].replicas
    requires e in worlds[i].replicas[x].pending && Reaches(worlds, actions, i, x, j, e.target)
    ensures j < |worlds| && e.target in worlds[j].replicas
    ensures var own := OwnOf(worlds[j], e.target);
            && e.path in own
            && (own[e.path] == Field(e.path, e.value, e.deleted, e.clock, e.target) ||
                Later(own[e.path].clock, e.clock))
    ensures exists d :: d in worlds[j].replicas[e.target].pending && d.id == e.id && !d.status.Pending?
  {
    ReachedEditsAreHeld(p, worlds, actions, i, x, j, e.target);
    ReachedLater(worlds, actions, i, x, j, e.target);
    assert e.id in EditIds(worlds[i].replicas[x].pending);
    var d :| d in worlds[j].replicas[e.target].pending && d.id == e.id;
    HeldEditIsLogged(p, worlds, actions, i, x, e);
    HeldEditIsLogged(p, worlds, actions, j, e.target, d);
    DecidedEditHasArrived(p, worlds, actions, j, e.target, d);
    OwnFieldAt(p, worlds, actions, j, e.target, e.path);
    assert worlds[j].log[e.clock] == Wrote(e.target, e.path, e.value, e.deleted) by {
      HistoryGrows(p, worlds, actions, i, j);
    }
  }

  lemma ReachedLater(worlds: seq<World>, actions: seq<Action>, i: nat, x: Id, j: nat, y: Id)
    requires Reaches(worlds, actions, i, x, j, y)
    ensures i <= j < |worlds|
  {
  }

  // ---------------------------------------------------------------- clocks

  ghost predicate StampsAt(p: Policy, worlds: seq<World>, actions: seq<Action>, i: nat)
    requires Run(p, worlds, actions) && i < |actions|
  {
    && actions[i].Local?
    && actions[i].x in worlds[i].replicas
    && Stamps(p, worlds[i].replicas[actions[i].x], actions[i].op).Some?
  }

  function StampOf(worlds: seq<World>, actions: seq<Action>, i: nat): Clock
    requires i + 1 < |worlds| && i < |actions| && actions[i].Local? && actions[i].x in worlds[i + 1].replicas
  {
    worlds[i + 1].replicas[actions[i].x].local
  }

  /** A stamp is new, and later than every stamp its node issued before. */
  lemma StampIsNew(p: Policy, worlds: seq<World>, actions: seq<Action>, i: nat)
    requires Run(p, worlds, actions) && i < |actions| && StampsAt(p, worlds, actions, i)
    ensures actions[i].x in worlds[i + 1].replicas
    ensures var c := StampOf(worlds, actions, i);
            && c !in worlds[i].log && c in worlds[i + 1].log && c.node == actions[i].x
            && forall d :: d in worlds[i].log && d.node == c.node ==> Later(c, d)
  {
    var w, x, op := worlds[i], actions[i].x, actions[i].op;
    assert Step(p, w, actions[i], worlds[i + 1]);
    EveryStateIsGood(p, worlds, actions, i);
    TickIsFresh(p, w, x, op.wall);
    TickAdvancesUnlessItWraps(w.replicas[x].local, x, op.wall);
    AppliedClock(p, w.replicas[x], op);
    assert w.replicas[x].id == x;
  }

  lemma AppliedClock(p: Policy, r: Snapshot, op: Op)
    requires Stamps(p, r, op).Some?
    ensures Apply(p, r, op).local == NextClock(r.local, r.id, op.wall)
  {
  }

  /** Issued clocks are unique in the whole run and increase at each node; the local clock covers
      every clock its replica stores. */
  lemma ClocksAreUniqueAndIncrease(p: Policy, worlds: seq<World>, actions: seq<Action>, i: nat, j: nat)
    requires Run(p, worlds, actions) && i < j < |actions|
    requires StampsAt(p, worlds, actions, i) && StampsAt(p, worlds, actions, j)
    ensures actions[i].x in worlds[i + 1].replicas && actions[j].x in worlds[j + 1].replicas
    ensures var c, d := StampOf(worlds, actions, i), StampOf(worlds, actions, j);
            c != d && (actions[i].x == actions[j].x ==> Later(d, c))
    ensures Dominates(worlds[j].replicas[actions[j].x])
  {
    StampIsNew(p, worlds, actions, i);
    StampIsNew(p, worlds, actions, j);
    HistoryGrows(p, worlds, actions, i + 1, j);
    EveryStateIsGood(p, worlds, actions, j);
    assert Good(p, worlds[j], worlds[j].replicas[actions[j].x]);
  }

  // ---------------------------------------------------------------- onboarding

  ghost predicate CompletesAt(p: Policy, worlds: seq<World>, actions: seq<Action>, i: nat, id: CommandId)
    requires Run(p, worlds, actions) && i < |actions|
  {
    && actions[i].Local? && actions[i].op.CompleteOp? && actions[i].op.id == id
    && actions[i].x in worlds[i].replicas
    && Completes(p, worlds[i].replicas[actions[i].x], id, actions[i].op.status, actions[i].op.code)
  }

  /** Only its target completes a command, and at most once in any run. */
  lemma CommandCompletesAtMostOnce(p: Policy, worlds: seq<World>, actions: seq<Action>, i: nat, j: nat, id: CommandId)
    requires Run(p, worlds, actions) && i < |actions| && j < |actions|
    requires CompletesAt(p, worlds, actions, i, id) && CompletesAt(p, worlds, actions, j, id)
    ensures i == j && actions[i].x == id.target
  {
    if i > j {
      CommandCompletesAtMostOnce(p, worlds, actions, j, i, id);
    } else {
      CompletionIsNew(p, worlds, actions, i, id);
      CompletionIsNew(p, worlds, actions, j, id);
      if i < j {
        HistoryGrows(p, worlds, actions, i + 1, j);
      }
    }
  }

  lemma CompletionIsNew(p: Policy, worlds: seq<World>, actions: seq<Action>, i: nat, id: CommandId)
    requires Run(p, worlds, actions) && i < |actions| && CompletesAt(p, worlds, actions, i, id)
    ensures actions[i].x == id.target && id !in worlds[i].completed && id in worlds[i + 1].completed
  {
    assert actions[i].x == id.target && id !in worlds[i].completed by {
      EveryStateIsGood(p, worlds, actions, i);
      CompletesOnlyOnce(p, worlds[i], actions[i].x, id, actions[i].op.status, actions[i].op.code);
    }
    assert Step(p, worlds[i], actions[i], worlds[i + 1]);
  }

  lemma StepKeepsFinal(p: Policy, w: World, a: Action, w': World, y: Id)
    requires Inv(p, w) && Step(p, w, a, w') && y in w.replicas
    ensures y in w'.replicas && KeepsFinal(w.replicas[y], w'.replicas[y])
  {
    if a.Merged? && a.x == y {
      MergeKeeps(p, w, y, a.snapshot, a.out);
    } else if a.Local? && a.x == y && Stamps(p, w.replicas[y], a.op).Some? {
      LocalKeepsFinal(p, w, y, a.op);
    }
  }

  lemma LocalKeepsFinal(p: Policy, w: World, y: Id, op: Op)
    requires Inv(p, w) && y in w.replicas && Stamps(p, w.replicas[y], op).Some?
    ensures KeepsFinal(w.replicas[y], Apply(p, w.replicas[y], op))
  {
    assert DistinctIds(w.replicas[y].onboarding) by {
      HomeGood(p, w, y);
    }
    ApplyKeepsFinal(p, w.replicas[y], op);
  }

  lemma ApplyKeepsFinal(p: Policy, r: Snapshot, op: Op)
    requires DistinctIds(r.onboarding) && Stamps(p, r, op).Some?
    ensures KeepsFinal(r, Apply(p, r, op))
  {
    var after := Apply(p, r, op);
    if op.CommandOp? {
      AppendKeepsFinal(r, after);
    } else if op.CompleteOp? {
      var i := FindCommand(r.onboarding, op.id);
      ReplaceCommand(r.onboarding, i, after.onboarding[i]);
    }
  }

  lemma AppendKeepsFinal(r: Snapshot, after: Snapshot)
    requires |after.onboarding| == |r.onboarding| + 1 && after.onboarding[..|r.onboarding|] == r.onboarding
    ensures KeepsFinal(r, after)
  {
  }

  /** From state `k` to the next, the replica stays and forgets no ending. */
  ghost predicate KeepsFinalAt(worlds: seq<World>, k: nat, y: Id)
    requires k + 1 < |worlds|
  {
    y in worlds[k].replicas ==>
      y in worlds[k + 1].replicas && KeepsFinal(worlds[k].replicas[y], worlds[k + 1].replicas[y])
  }

  lemma RunStepKeepsFinal(p: Policy, worlds: seq<World>, actions: seq<Action>, k: nat, y: Id)
    requires Run(p, worlds, actions) && k < |actions|
    ensures KeepsFinalAt(worlds, k, y)
  {
    if y in worlds[k].replicas {
      EveryStateIsGood(p, worlds, actions, k);
      StepKeepsFinal(p, worlds[k], actions[k], worlds[k + 1], y);
    }
  }

  lemma {:induction false} FinalAlong(worlds: seq<World>, i: nat, j: nat, y: Id, id: CommandId)
    requires i <= j < |worlds| && y in worlds[i].replicas && Finalized(worlds[i].replicas[y], id)
    requires forall k :: i <= k < j ==> KeepsFinalAt(worlds, k, y)
    ensures y in worlds[j].replicas && Finalized(worlds[j].replicas[y], id)
  {
    if i < j {
      FinalAlong(worlds, i, j - 1, y, id);
      assert KeepsFinalAt(worlds, j - 1, y);
    }
  }

  /** A done or failed copy of a command, at any replica, is never waiting again. */
  lemma FinishedCommandStaysFinished(p: Policy, worlds: seq<World>, actions: seq<Action>, i: nat, j: nat, y: Id,
                                     id: CommandId)
    requires Run(p, worlds, actions) && i <= j < |worlds| && y in worlds[i].replicas &&
             Finalized(worlds[i].replicas[y], id)
    ensures y in worlds[j].replicas && Finalized(worlds[j].replicas[y], id)
  {
    forall k | i <= k < j ensures KeepsFinalAt(worlds, k, y) {
      RunStepKeepsFinal(p, worlds, actions, k, y);
    }
    FinalAlong(worlds, i, j, y, id);
  }
}
