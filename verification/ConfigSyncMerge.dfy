/** A merge of any earlier snapshot keeps the invariant of `ConfigSyncRuns`. */
module ConfigSyncMerge {
  import opened ConfigSync
  import opened ConfigSyncRuns
  import opened ConfigSyncInvariant

  /** `Good`, except that the own record is not compared with anything. */
  ghost predicate Fits(p: Policy, w: World, r: Snapshot) {
    Dominates(r) && Logged(p, w.log, r) && ForeignBehind(w, r) && Decided(w, r) && CommandsOk(w, r)
  }

  ghost predicate ForeignBehind(w: World, r: Snapshot) {
    && r.records.Keys <= w.replicas.Keys
    && forall x, k :: Stored(r, x, k) && x != r.id ==> Behind(OwnOf(w, x), k, r.records[x][k])
  }

  // ---------------------------------------------------------------- records and connections

  /** Each merged field comes from one side, and a field taken from the remote was offered. */
  lemma MergedFieldFrom(p: Policy, l: Snapshot, s: Snapshot, m: Snapshot, x: Id, k: Key)
    requires m.records == MergeRecords(p, l.id, l.records, s.records) && Stored(m, x, k)
    requires forall y, j :: Stored(s, y, j) ==> s.records[y][j].key == j
    ensures (Stored(l, x, k) && m.records[x][k] == l.records[x][k]) ||
            (x != l.id && Stored(s, x, k) && m.records[x][k] == s.records[x][k] &&
             Offers(p, l.id, s, s.records[x][k].clock))
  {
  }

  lemma MergedConnectionFrom(p: Policy, l: Snapshot, s: Snapshot, m: Snapshot, x: Id)
    requires m.connections == MergeConnections(p, l.connections, s.connections) && x in m.connections
    ensures (x in l.connections && m.connections[x] == l.connections[x]) ||
            (x in s.connections && m.connections[x] == s.connections[x] && Offers(p, l.id, s, s.connections[x].clock))
  {
  }

  lemma MapsDominate(p: Policy, w: World, l: Snapshot, s: Snapshot, m: Snapshot)
    requires Dominates(l) && Logged(p, w.log, s) && MergedMaps(p, l, s, m)
    ensures Dominates(m)
  {
    forall x, k | Stored(m, x, k) ensures Covers(m.local, m.records[x][k].clock) {
      forall y, j | Stored(s, y, j) ensures s.records[y][j].key == j {
        assert FieldLogged(p, w.log, y, j, s.records[y][j]);
      }
      MergedFieldFrom(p, l, s, m, x, k);
      if Stored(l, x, k) {
        assert Covers(l.local, l.records[x][k].clock);
      }
    }
    forall x | x in m.connections ensures Covers(m.local, m.connections[x].clock) {
      MergedConnectionFrom(p, l, s, m, x);
    }
  }

  lemma MapsLogged(p: Policy, log: map<Clock, Event>, l: Snapshot, s: Snapshot, m: Snapshot)
    requires Logged(p, log, l) && Logged(p, log, s) && MergedMaps(p, l, s, m)
    ensures Logged(p, log, m)
  {
    forall y, j | Stored(s, y, j) ensures s.records[y][j].key == j {
      assert FieldLogged(p, log, y, j, s.records[y][j]);
    }
    forall x, k | Stored(m, x, k) ensures FieldLogged(p, log, x, k, m.records[x][k]) {
      MergedFieldFrom(p, l, s, m, x, k);
      if Stored(l, x, k) && m.records[x][k] == l.records[x][k] {
        assert FieldLogged(p, log, x, k, l.records[x][k]);
      }
    }
    forall x | x in m.connections
      ensures p.idOk(x) && m.connections[x].instance == x && m.connections[x].clock in log &&
              log[m.connections[x].clock] == Published(m.connections[x])
    {
      MergedConnectionFrom(p, l, s, m, x);
    }
  }

  lemma MapsBehind(p: Policy, w: World, l: Snapshot, s: Snapshot, m: Snapshot)
    requires NotAhead(w, l) && NotAhead(w, s) && Logged(p, w.log, s) && MergedMaps(p, l, s, m)
    ensures ForeignBehind(w, m)
  {
    forall x, k | Stored(m, x, k) && x != m.id ensures Behind(OwnOf(w, x), k, m.records[x][k]) {
      forall y, j | Stored(s, y, j) ensures s.records[y][j].key == j {
        assert FieldLogged(p, w.log, y, j, s.records[y][j]);
      }
      MergedFieldFrom(p, l, s, m, x, k);
    }
  }

  lemma MapsFit(p: Policy, w: World, l: Snapshot, s: Snapshot, m: Snapshot)
    requires Good(p, w, l) && Good(p, w, s) && MergedMaps(p, l, s, m)
    ensures Fits(p, w, m) && Own(m) == Own(l)
  {
    MapsDominate(p, w, l, s, m);
    MapsLogged(p, w.log, l, s, m);
    MapsBehind(p, w, l, s, m);
  }

  // ---------------------------------------------------------------- edits

  /** What is known about an incoming edit. */
  ghost predicate Incoming(p: Policy, w: World, id: Id, e: Edit) {
    && EditLogged(p, w.log, e)
    && (ForMe(p, id, e) || !e.status.Pending? ==> e.clock in ArrivedAt(w, e.target))
  }

  /** What an edit is stored as. */
  function StoredEdit(p: Policy, r: Snapshot, e: Edit): Edit {
    if ForMe(p, r.id, e) then
      e.(status := if e.path !in Own(r) || Later(e.clock, Own(r)[e.path].clock) then Applied else Superseded)
    else e
  }

  lemma EditParts(p: Policy, r: Snapshot, e: Edit)
    ensures var after := MergeEdit(p, r, e);
            && after == r.(records := after.records, local := Witness(r.local, r.id, e.clock),
                           pending := UpsertEdit(r.pending, StoredEdit(p, r, e)))
            && after.records == (if StoredEdit(p, r, e).status.Applied? && e.status.Pending?
                                 then PutOwn(r, e.path, e.value, e.deleted, e.clock).records else r.records)
  {
  }

  lemma EditRecordsFit(p: Policy, w: World, r: Snapshot, e: Edit)
    requires Fits(p, w, r) && EditLogged(p, w.log, e) && r.id in w.replicas
    ensures var after := MergeEdit(p, r, e);
            && ForeignBehind(w, after)
            && (forall x, k :: Stored(after, x, k) ==> FieldLogged(p, w.log, x, k, after.records[x][k]))
            && (forall x, k :: Stored(after, x, k) ==> Covers(after.local, after.records[x][k].clock))
            && Covers(after.local, r.local) && Covers(after.local, e.clock)
  {
    var after := MergeEdit(p, r, e);
    EditParts(p, r, e);
    WitnessCoversButMayCompareBehind(r.local, r.id, e.clock);
    forall x, k | Stored(after, x, k)
      ensures FieldLogged(p, w.log, x, k, after.records[x][k]) && Covers(after.local, after.records[x][k].clock)
      ensures x != r.id ==> Behind(OwnOf(w, x), k, after.records[x][k])
    {
      if Stored(r, x, k) && after.records[x][k] == r.records[x][k] {
        assert FieldLogged(p, w.log, x, k, r.records[x][k]) && Covers(r.local, r.records[x][k].clock);
      } else {
        assert x == r.id && k == e.path;
      }
    }
  }

  lemma EditFits(p: Policy, w: World, r: Snapshot, e: Edit)
    requires Fits(p, w, r) && Incoming(p, w, r.id, e) && r.id in w.replicas
    ensures Fits(p, w, MergeEdit(p, r, e))
  {
    EditParts(p, r, e);
    EditRecordsFit(p, w, r, e);
    UpsertEditMembers(r.pending, StoredEdit(p, r, e));
    EditListFits(p, w, r, e, MergeEdit(p, r, e));
  }

  lemma EditListFits(p: Policy, w: World, r: Snapshot, e: Edit, after: Snapshot)
    requires Fits(p, w, r) && Incoming(p, w, r.id, e) && Covers(after.local, r.local) && Covers(after.local, e.clock)
    requires after == r.(records := after.records, local := after.local, pending := after.pending)
    requires forall d :: d in after.pending ==> d == StoredEdit(p, r, e) || d in r.pending
    ensures forall d :: d in after.pending ==> EditLogged(p, w.log, d) && Covers(after.local, d.clock)
    ensures Decided(w, after) && CommandsOk(w, after)
    ensures forall c :: c in after.onboarding ==> CommandLogged(w.log, c) && Covers(after.local, c.clock)
    ensures forall x :: x in after.connections ==> Covers(after.local, after.connections[x].clock)
  {
  }

  /** Deciding an edit keeps the own record the latest of the writes that arrived. */
  lemma EditTracks(p: Policy, log: map<Clock, Event>, r: Snapshot, e: Edit, clocks: set<Clock>)
    requires Tracks(log, r.id, Own(r), clocks) && EditLogged(p, log, e)
    ensures var after := MergeEdit(p, r, e);
            && after.id == r.id
            && Tracks(log, r.id, Own(after), if ForMe(p, r.id, e) then clocks + {e.clock} else clocks)
            && Advanced(Own(r), Own(after))
  {
    EditParts(p, r, e);
  }

  lemma EditSettled(p: Policy, log: map<Clock, Event>, r: Snapshot, e: Edit)
    requires SettledIn(r) && EditLogged(p, log, e)
    ensures SettledIn(MergeEdit(p, r, e))
  {
    EditParts(p, r, e);
    UpsertEditMembers(r.pending, StoredEdit(p, r, e));
  }

  lemma AdvancedAgain(a: Record, b: Record, c: Record)
    requires Advanced(a, b) && Advanced(b, c)
    ensures Advanced(a, c)
  {
  }

  lemma EditStepFits(p: Policy, w: World, r: Snapshot, before: Snapshot, e: Edit, clocks: set<Clock>)
    requires Fits(p, w, before) && before.id in w.replicas && SettledIn(before) && Incoming(p, w, before.id, e)
    requires Tracks(w.log, before.id, Own(before), clocks)
    requires Advanced(Own(r), Own(before)) && Covers(before.local, r.local)
    ensures var after := MergeEdit(p, before, e);
            && Fits(p, w, after) && SettledIn(after) && after.id == before.id && after.onboarding == before.onboarding
            && Tracks(w.log, before.id, Own(after), if ForMe(p, before.id, e) then clocks + {e.clock} else clocks)
            && Advanced(Own(r), Own(after)) && Covers(after.local, r.local)
  {
    EditFits(p, w, before, e);
    EditSettled(p, w.log, before, e);
    EditTracks(p, w.log, before, e, clocks);
    AdvancedAgain(Own(r), Own(before), Own(MergeEdit(p, before, e)));
    EditParts(p, before, e);
    WitnessCoversButMayCompareBehind(before.local, before.id, e.clock);
  }

  lemma {:induction false} EditsFit(p: Policy, w: World, r: Snapshot, edits: seq<Edit>, clocks: set<Clock>)
    requires Fits(p, w, r) && r.id in w.replicas && SettledIn(r) && Tracks(w.log, r.id, Own(r), clocks)
    requires forall e :: e in edits ==> Incoming(p, w, r.id, e)
    ensures var after := MergeEdits(p, r, edits);
            && Fits(p, w, after) && SettledIn(after) && after.id == r.id && after.onboarding == r.onboarding
            && Tracks(w.log, r.id, Own(after), clocks + Delivered(p, r.id, edits))
            && Advanced(Own(r), Own(after)) && Covers(after.local, r.local)
  {
    if edits == [] {
      assert clocks + Delivered(p, r.id, edits) == clocks;
    } else {
      var n := |edits| - 1;
      var e := edits[n];
      EditsFit(p, w, r, edits[..n], clocks);
      var before := MergeEdits(p, r, edits[..n]);
      assert Incoming(p, w, r.id, e) by {
        assert e in edits;
      }
      EditStepFits(p, w, r, before, e, clocks + Delivered(p, r.id, edits[..n]));
      assert clocks + Delivered(p, r.id, edits) ==
             (if ForMe(p, r.id, e) then clocks + Delivered(p, r.id, edits[..n]) + {e.clock}
              else clocks + Delivered(p, r.id, edits[..n])) by {
        DeliveredOneMore(p, r.id, edits);
      }
    }
  }

  lemma DeliveredOneMore(p: Policy, id: Id, edits: seq<Edit>)
    requires edits != []
    ensures var n := |edits| - 1;
            Delivered(p, id, edits) ==
            Delivered(p, id, edits[..n]) + (if ForMe(p, id, edits[n]) then {edits[n].clock} else {})
  {
  }

  // ---------------------------------------------------------------- commands

  /** A merged command never takes a finished copy back. */
  lemma UpsertKeepsFinal(completed: map<CommandId, Clock>, r: Snapshot, after: Snapshot, c: Command)
    requires DistinctIds(r.onboarding) && CommandState(completed, c)
    requires forall d :: d in r.onboarding ==> CommandState(completed, d)
    requires after.onboarding == UpsertCommand(r.onboarding, c)
    ensures DistinctIds(after.onboarding) && KeepsFinal(r, after)
    ensures forall d :: d in after.onboarding ==> d == c || d in r.onboarding
  {
    var s, t := r.onboarding, after.onboarding;
    var i := FindCommand(s, c.id);
    UpsertCommandAt(s, c);
    if i < |s| {
      assert s[i] in s;
      ReplaceCommand(s, i, t[i]);
    } else {
      assert DistinctIds(t);
      forall id | Finalized(r, id) ensures Finalized(after, id) {
        FindSame(t, FindCommand(s, id), id);
      }
    }
  }

  lemma CommandFits(p: Policy, w: World, r: Snapshot, c: Command)
    requires Fits(p, w, r) && CommandLogged(w.log, c) && CommandState(w.completed, c)
    ensures Fits(p, w, MergeCommand(p, r, c)) && KeepsFinal(r, MergeCommand(p, r, c))
    ensures var after := MergeCommand(p, r, c);
            after == r.(local := after.local, onboarding := after.onboarding) && Covers(after.local, r.local)
  {
    if TakesCommand(p, c) {
      var after := MergeCommand(p, r, c);
      WitnessCoversButMayCompareBehind(r.local, r.id, c.clock);
      UpsertKeepsFinal(w.completed, r, after, c);
      forall x, k | Stored(after, x, k)
        ensures FieldLogged(p, w.log, x, k, after.records[x][k]) && Covers(after.local, after.records[x][k].clock)
        ensures x != r.id ==> Behind(OwnOf(w, x), k, after.records[x][k])
      {
        assert Stored(r, x, k);
      }
    }
  }

  lemma {:induction false} CommandsFit(p: Policy, w: World, r: Snapshot, commands: seq<Command>)
    requires Fits(p, w, r)
    requires forall c :: c in commands ==> CommandLogged(w.log, c) && CommandState(w.completed, c)
    ensures var after := MergeCommands(p, r, commands);
            && Fits(p, w, after) && KeepsFinal(r, after)
            && after == r.(local := after.local, onboarding := after.onboarding) && Covers(after.local, r.local)
  {
    if commands != [] {
      var n := |commands| - 1;
      assert commands[n] in commands;
      CommandsFit(p, w, r, commands[..n]);
      CommandFits(p, w, MergeCommands(p, r, commands[..n]), commands[n]);
    }
  }

  // ---------------------------------------------------------------- the final sort

  lemma {:induction false} TwoPlaces<T>(s: seq<T>, i: nat, j: nat)
    requires i < j < |s| && s[i] == s[j]
    ensures multiset(s)[s[i]] >= 2
  {
    assert s == s[..j] + [s[j]] + s[j + 1..];
    assert s[i] in s[..j];
  }

  lemma {:induction false} PlacesOfTwo<T>(s: seq<T>, v: T) returns (i: nat, j: nat)
    requires multiset(s)[v] >= 2
    ensures i < j < |s| && s[i] == s[j] == v
  {
    assert s == s[..|s| - 1] + [s[|s| - 1]];
    if s[|s| - 1] == v {
      j := |s| - 1;
      assert multiset(s[..j])[v] >= 1;
      i :| 0 <= i < j && s[..j][i] == v;
    } else {
      i, j := PlacesOfTwo(s[..|s| - 1], v);
    }
  }

  lemma DistinctUnderSort(s: seq<Command>, t: seq<Command>)
    requires multiset(s) == multiset(t) && DistinctIds(s)
    ensures DistinctIds(t)
  {
    forall i, j | 0 <= i < j < |t| ensures t[i].id != t[j].id {
      if t[i] == t[j] {
        TwoPlaces(t, i, j);
        var _, _ := PlacesOfTwo(s, t[i]);
      } else {
        assert t[i] in multiset(t) && t[j] in multiset(t);
        assert t[i] in s && t[j] in s;
      }
    }
  }

  lemma SortKeepsFinal(r: Snapshot, out: Snapshot)
    requires DistinctIds(r.onboarding) && multiset(r.onboarding) == multiset(out.onboarding)
    ensures DistinctIds(out.onboarding) && KeepsFinal(r, out)
  {
    DistinctUnderSort(r.onboarding, out.onboarding);
    forall id | Finalized(r, id) ensures Finalized(out, id) {
      var c := r.onboarding[FindCommand(r.onboarding, id)];
      assert c in multiset(out.onboarding);
      var i :| 0 <= i < |out.onboarding| && out.onboarding[i] == c;
      FindSame(out.onboarding, i, id);
    }
  }

  lemma SameMembers<T>(s: seq<T>, t: seq<T>)
    requires multiset(s) == multiset(t)
    ensures forall v :: v in s <==> v in t
  {
    forall v ensures v in s <==> v in t {
      assert v in multiset(s) <==> v in multiset(t);
    }
  }

  lemma SortFits(p: Policy, w: World, r: Snapshot, out: Snapshot)
    requires Fits(p, w, r) && SortedCopy(r, out)
    ensures Fits(p, w, out) && KeepsFinal(r, out) && Own(out) == Own(r) && (SettledIn(r) ==> SettledIn(out))
  {
    SameMembers(r.pending, out.pending);
    SameMembers(r.onboarding, out.onboarding);
    SortKeepsFinal(r, out);
    forall x, k | Stored(out, x, k)
      ensures FieldLogged(p, w.log, x, k, out.records[x][k]) && Covers(out.local, out.records[x][k].clock)
      ensures x != r.id ==> Behind(OwnOf(w, x), k, out.records[x][k])
    {
      assert Stored(r, x, k);
    }
  }

  // ---------------------------------------------------------------- the whole merge

  /** Only the history of what reached `x` changes before its state does. */
  function WithArrivals(p: Policy, w: World, x: Id, s: Snapshot): World {
    w.(arrived := w.arrived[x := ArrivedAt(w, x) + Delivered(p, x, s.pending)])
  }

  lemma ArrivalsGrow(p: Policy, w: World, x: Id, s: Snapshot)
    ensures Grows(w, WithArrivals(p, w, x, s))
  {
  }

  lemma EditsIncoming(p: Policy, w: World, x: Id, s: Snapshot)
    requires Good(p, w, s) && Delivered(p, x, s.pending) <= ArrivedAt(w, x)
    ensures forall e :: e in s.pending ==> Incoming(p, w, x, e)
  {
  }

  /** The merged lists on top of merged maps. */
  lemma ListsFit(p: Policy, w: World, m: Snapshot, s: Snapshot, clocks: set<Clock>)
    requires Fits(p, w, m) && m.id in w.replicas && SettledIn(m) && Tracks(w.log, m.id, Own(m), clocks)
    requires forall e :: e in s.pending ==> Incoming(p, w, m.id, e)
    requires forall c :: c in s.onboarding ==> CommandLogged(w.log, c) && CommandState(w.completed, c)
    ensures var listed := MergedLists(p, m, s);
            && Fits(p, w, listed) && SettledIn(listed) && listed.id == m.id && Covers(listed.local, m.local)
            && Tracks(w.log, m.id, Own(listed), clocks + Delivered(p, m.id, s.pending))
            && Advanced(Own(m), Own(listed)) && KeepsFinal(m, listed)
  {
    EditsFit(p, w, m, s.pending, clocks);
    var edited := MergeEdits(p, m, s.pending);
    CommandsFit(p, w, edited, s.onboarding);
    KeepsFinalAgain(m, edited, MergeCommands(p, edited, s.onboarding));
  }

  lemma KeepsFinalAgain(a: Snapshot, b: Snapshot, c: Snapshot)
    requires b.onboarding == a.onboarding && KeepsFinal(b, c)
    ensures KeepsFinal(a, c)
  {
    forall id | Finalized(a, id) ensures Finalized(c, id) {
      assert Finalized(b, id);
    }
  }

  lemma MergeFits(p: Policy, w: World, l: Snapshot, s: Snapshot, out: Snapshot, clocks: set<Clock>)
    requires Good(p, w, l) && Good(p, w, s) && l.id in w.replicas && SettledIn(l) && MergeResult(p, l, s, out)
    requires Delivered(p, l.id, s.pending) <= ArrivedAt(w, l.id) && Tracks(w.log, l.id, Own(l), clocks)
    ensures Fits(p, w, out) && SettledIn(out) && out.id == l.id && Covers(out.local, l.local)
    ensures Tracks(w.log, l.id, Own(out), clocks + Delivered(p, l.id, s.pending))
    ensures Advanced(Own(l), Own(out)) && KeepsFinal(l, out)
  {
    var m :| MergedMaps(p, l, s, m) && SortedCopy(MergedLists(p, m, s), out);
    MapsFit(p, w, l, s, m);
    EditsIncoming(p, w, l.id, s);
    ListsFit(p, w, m, s, clocks);
    var listed := MergedLists(p, m, s);
    SortFits(p, w, listed, out);
    assert KeepsFinal(l, out) by {
      KeepsFinalAgain(l, m, listed);
      forall id | Finalized(l, id) ensures Finalized(out, id) {
        assert Finalized(listed, id);
      }
    }
  }

  lemma FitsIsGood(p: Policy, w: World, w': World, out: Snapshot)
    requires Fits(p, w, out) && out.id in w'.replicas && w'.replicas == w.replicas[out.id := out]
    requires w'.log == w.log && w'.arrived == w.arrived && w'.completed == w.completed
    ensures Good(p, w', out)
  {
  }

  lemma MergeGrows(p: Policy, w: World, x: Id, s: Snapshot, out: Snapshot)
    requires x in w.replicas && Advanced(OwnOf(w, x), Own(out))
    ensures Grows(w, AfterMerge(p, w, x, s, out))
  {
  }

  lemma MergeSeen(p: Policy, w: World, x: Id, s: Snapshot, out: Snapshot)
    requires AllGood(p, w)
    requires x in w.replicas && out.id == x && Grows(w, AfterMerge(p, w, x, s, out)) &&
             Fits(p, WithArrivals(p, w, x, s), out)
    ensures var w' := AfterMerge(p, w, x, s, out); AllGood(p, w')
  {
    var w' := AfterMerge(p, w, x, s, out);
    forall t | t in w'.seen ensures Good(p, w', t) {
      if t == out {
        FitsIsGood(p, WithArrivals(p, w, x, s), w', out);
      } else {
        GoodStays(p, w, w', t);
      }
    }
  }

  lemma MergeLatest(p: Policy, w: World, x: Id, s: Snapshot, out: Snapshot)
    requires x in w.replicas && AllLatest(w)
    requires Grows(w, AfterMerge(p, w, x, s, out))
    requires Tracks(w.log, x, Own(out), ArrivedAt(w, x) + Delivered(p, x, s.pending))
    ensures var w' := AfterMerge(p, w, x, s, out); AllLatest(w')
  {
  }

  lemma MergeSettled(p: Policy, w: World, x: Id, s: Snapshot, out: Snapshot)
    requires Settled(w) && CompletedAtHome(w) && x in w.replicas && SettledIn(out) && out.id == x
    requires KeepsFinal(w.replicas[x], out)
    ensures Settled(AfterMerge(p, w, x, s, out)) && CompletedAtHome(AfterMerge(p, w, x, s, out))
  {
  }

  lemma MergeHomes(p: Policy, w: World, x: Id, s: Snapshot, out: Snapshot)
    requires Homes(p, w) && LogBounded(w) && x in w.replicas && out.id == x && Covers(out.local, w.replicas[x].local)
    ensures Homes(p, AfterMerge(p, w, x, s, out)) && LogBounded(AfterMerge(p, w, x, s, out))
  {
  }

  lemma MergeKeeps(p: Policy, w: World, x: Id, s: Snapshot, out: Snapshot)
    requires Inv(p, w) && x in w.replicas && s in w.seen && MergeResult(p, w.replicas[x], s, out)
    ensures Inv(p, AfterMerge(p, w, x, s, out)) && Grows(w, AfterMerge(p, w, x, s, out))
    ensures KeepsFinal(w.replicas[x], out) && Advanced(OwnOf(w, x), Own(out))
  {
    var l, mid := w.replicas[x], WithArrivals(p, w, x, s);
    HomeGood(p, w, x);
    ArrivalsGrow(p, w, x, s);
    GoodStays(p, w, mid, l);
    GoodStays(p, w, mid, s);
    MergeFits(p, mid, l, s, out, ArrivedAt(w, x));
    MergeGrows(p, w, x, s, out);
    MergeHomes(p, w, x, s, out);
    MergeSettled(p, w, x, s, out);
    MergeSeen(p, w, x, s, out);
    MergeLatest(p, w, x, s, out);
  }
}
