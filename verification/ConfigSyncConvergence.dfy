/**
 Merging is a join: what a set of snapshots leaves behind does not depend on the order in which
 they are merged or on how often each one is.
 */
module ConfigSyncConvergence {
  import opened ConfigSync
  import opened ConfigSyncRuns
  import opened ConfigSyncInvariant
  import opened ConfigSyncMerge
  import opened ConfigSyncTheorems
  import opened ConfigSyncCommands

  /** `states` are the results of merging `snaps` one after the other, starting from `l`. */
  ghost predicate Chain(p: Policy, l: Snapshot, snaps: seq<Snapshot>, states: seq<Snapshot>) {
    && |states| == |snaps| + 1
    && states[0] == l
    && forall i :: 0 <= i < |snaps| ==> MergeResult(p, states[i], snaps[i], states[i + 1])
  }

  function Last(states: seq<Snapshot>): Snapshot
    requires states != []
  {
    states[|states| - 1]
  }

  lemma ChainPrefix(p: Policy, l: Snapshot, snaps: seq<Snapshot>, states: seq<Snapshot>)
    requires Chain(p, l, snaps, states) && snaps != []
    ensures var n := |snaps| - 1;
            Chain(p, l, snaps[..n], states[..n + 1]) && Last(states[..n + 1]) == states[n] &&
            MergeResult(p, states[n], snaps[n], Last(states)) && snaps == snaps[..n] + [snaps[n]]
  {
  }

  ghost predicate SomeHolds(l: Snapshot, snaps: seq<Snapshot>, x: Id, k: Key) {
    Stored(l, x, k) || exists s :: s in snaps && Stored(s, x, k)
  }

  ghost predicate SomeHoldsField(l: Snapshot, snaps: seq<Snapshot>, x: Id, k: Key, f: Field) {
    (Stored(l, x, k) && l.records[x][k] == f) || exists s :: s in snaps && Stored(s, x, k) && s.records[x][k] == f
  }

  /** No start or snapshot holds a later field. */
  ghost predicate NoneLater(l: Snapshot, snaps: seq<Snapshot>, x: Id, k: Key, f: Field) {
    && (Stored(l, x, k) ==> !Later(l.records[x][k].clock, f.clock))
    && forall s :: s in snaps && Stored(s, x, k) ==> !Later(s.records[x][k].clock, f.clock)
  }

  ghost predicate AllLogged(p: Policy, log: map<Clock, Event>, l: Snapshot, snaps: seq<Snapshot>) {
    Logged(p, log, l) && forall s :: s in snaps ==> Logged(p, log, s)
  }

  /** One merge, seen at one foreign field. */
  ghost predicate JoinsField(l: Snapshot, s: Snapshot, out: Snapshot, x: Id, k: Key) {
    && (Stored(out, x, k) <==> Stored(l, x, k) || Stored(s, x, k))
    && (Stored(out, x, k) ==>
          var f := out.records[x][k];
          && ((Stored(l, x, k) && f == l.records[x][k]) || (Stored(s, x, k) && f == s.records[x][k]))
          && (Stored(l, x, k) ==> !Later(l.records[x][k].clock, f.clock))
          && (Stored(s, x, k) ==> !Later(s.records[x][k].clock, f.clock)))
  }

  lemma MergeJoinsField(p: Policy, log: map<Clock, Event>, l: Snapshot, s: Snapshot, out: Snapshot, x: Id, k: Key)
    requires MergeResult(p, l, s, out) && x != l.id && Logged(p, log, s)
    ensures out.id == l.id && JoinsField(l, s, out, x, k)
  {
    MergeForeign(p, l, s, out, x);
    if Stored(s, x, k) {
      assert FieldLogged(p, log, x, k, s.records[x][k]);
    }
  }

  /** The field left is one of those offered, and the latest of them. */
  ghost predicate LatestField(l: Snapshot, snaps: seq<Snapshot>, out: Snapshot, x: Id, k: Key) {
    && (Stored(out, x, k) <==> SomeHolds(l, snaps, x, k))
    && (Stored(out, x, k) ==>
          SomeHoldsField(l, snaps, x, k, out.records[x][k]) && NoneLater(l, snaps, x, k, out.records[x][k]))
  }

  lemma LatestFieldOfOneMore(l: Snapshot, snaps: seq<Snapshot>, s: Snapshot, before: Snapshot, out: Snapshot, x: Id,
                             k: Key)
    requires LatestField(l, snaps, before, x, k) && JoinsField(before, s, out, x, k)
    ensures LatestField(l, snaps + [s], out, x, k)
  {
  }

  lemma {:induction false} ChainField(p: Policy, log: map<Clock, Event>, l: Snapshot, snaps: seq<Snapshot>,
                                      states: seq<Snapshot>, x: Id, k: Key)
    requires Chain(p, l, snaps, states) && x != l.id && AllLogged(p, log, l, snaps)
    ensures Last(states).id == l.id && LatestField(l, snaps, Last(states), x, k)
  {
    if snaps != [] {
      var n := |snaps| - 1;
      ChainPrefix(p, l, snaps, states);
      ChainField(p, log, l, snaps[..n], states[..n + 1], x, k);
      MergeJoinsField(p, log, states[n], snaps[n], Last(states), x, k);
      LatestFieldOfOneMore(l, snaps[..n], snaps[n], states[n], Last(states), x, k);
    }
  }

  /** Two fields that are both among those held and both not behind any of them are equal. */
  lemma WinnerIsUnique(p: Policy, log: map<Clock, Event>, l: Snapshot, a: seq<Snapshot>, b: seq<Snapshot>, x: Id,
                       k: Key, f: Field, g: Field)
    requires AllLogged(p, log, l, a) && AllLogged(p, log, l, b) && (forall s :: s in a <==> s in b)
    requires SomeHoldsField(l, a, x, k, f) && NoneLater(l, a, x, k, f)
    requires SomeHoldsField(l, b, x, k, g) && NoneLater(l, b, x, k, g)
    ensures f == g
  {
  }

  lemma {:induction false} ChainHasRecord(p: Policy, l: Snapshot, snaps: seq<Snapshot>, states: seq<Snapshot>, x: Id)
    requires Chain(p, l, snaps, states) && x != l.id
    ensures Last(states).id == l.id
    ensures x in Last(states).records <==> x in l.records || exists s :: s in snaps && x in s.records && p.idOk(x)
  {
    if snaps != [] {
      var n := |snaps| - 1;
      ChainPrefix(p, l, snaps, states);
      ChainHasRecord(p, l, snaps[..n], states[..n + 1], x);
      MergeForeign(p, states[n], snaps[n], Last(states), x);
      assert forall s :: s in snaps <==> s in snaps[..n] || s == snaps[n];
    }
  }

  lemma SameForeignRecord(p: Policy, log: map<Clock, Event>, l: Snapshot, a: seq<Snapshot>, sa: seq<Snapshot>,
                          b: seq<Snapshot>, sb: seq<Snapshot>, x: Id)
    requires Chain(p, l, a, sa) && Chain(p, l, b, sb) && (forall s :: s in a <==> s in b)
    requires AllLogged(p, log, l, a) && AllLogged(p, log, l, b) && x != l.id
    ensures x in Last(sa).records <==> x in Last(sb).records
    ensures RecordOf(Last(sa).records, x) == RecordOf(Last(sb).records, x)
  {
    ChainHasRecord(p, l, a, sa, x);
    ChainHasRecord(p, l, b, sb, x);
    var ra, rb := RecordOf(Last(sa).records, x), RecordOf(Last(sb).records, x);
    forall k ensures (k in ra <==> k in rb) && (k in ra ==> ra[k] == rb[k]) {
      ChainField(p, log, l, a, sa, x, k);
      ChainField(p, log, l, b, sb, x, k);
      assert Stored(Last(sa), x, k) <==> k in ra;
      assert Stored(Last(sb), x, k) <==> k in rb;
      if k in ra {
        WinnerIsUnique(p, log, l, a, b, x, k, ra[k], rb[k]);
      }
    }
  }

  // ---------------------------------------------------------------- connections

  ghost predicate SomeConnects(l: Snapshot, snaps: seq<Snapshot>, x: Id, c: Connection) {
    || (x in l.connections && l.connections[x] == c)
    || exists s :: s in snaps && x in s.connections && s.connections[x] == c
  }

  ghost predicate NoLaterConnection(l: Snapshot, snaps: seq<Snapshot>, x: Id, c: Connection) {
    && (x in l.connections ==> !Later(l.connections[x].clock, c.clock))
    && forall s :: s in snaps && x in s.connections ==> !Later(s.connections[x].clock, c.clock)
  }

  ghost predicate JoinsConnection(l: Snapshot, s: Snapshot, out: Snapshot, x: Id) {
    && (x in out.connections <==> x in l.connections || x in s.connections)
    && (x in out.connections ==>
          var c := out.connections[x];
          && ((x in l.connections && c == l.connections[x]) || (x in s.connections && c == s.connections[x]))
          && (x in l.connections ==> !Later(l.connections[x].clock, c.clock))
          && (x in s.connections ==> !Later(s.connections[x].clock, c.clock)))
  }

  lemma MergeJoinsConnection(p: Policy, log: map<Clock, Event>, l: Snapshot, s: Snapshot, out: Snapshot, x: Id)
    requires MergeResult(p, l, s, out) && Logged(p, log, s)
    ensures JoinsConnection(l, s, out, x)
  {
    MergeForeign(p, l, s, out, l.id + 1);
  }

  ghost predicate LatestConnection(l: Snapshot, snaps: seq<Snapshot>, out: Snapshot, x: Id) {
    && (x in out.connections <==> x in l.connections || exists s :: s in snaps && x in s.connections)
    && (x in out.connections ==>
          SomeConnects(l, snaps, x, out.connections[x]) && NoLaterConnection(l, snaps, x, out.connections[x]))
  }

  lemma LatestConnectionOfOneMore(l: Snapshot, snaps: seq<Snapshot>, s: Snapshot, before: Snapshot, out: Snapshot,
                                  x: Id)
    requires LatestConnection(l, snaps, before, x) && JoinsConnection(before, s, out, x)
    ensures LatestConnection(l, snaps + [s], out, x)
  {
  }

  lemma {:induction false} ChainConnection(p: Policy, log: map<Clock, Event>, l: Snapshot, snaps: seq<Snapshot>,
                                           states: seq<Snapshot>, x: Id)
    requires Chain(p, l, snaps, states) && AllLogged(p, log, l, snaps)
    ensures LatestConnection(l, snaps, Last(states), x)
  {
    if snaps != [] {
      var n := |snaps| - 1;
      ChainPrefix(p, l, snaps, states);
      ChainConnection(p, log, l, snaps[..n], states[..n + 1], x);
      MergeJoinsConnection(p, log, states[n], snaps[n], Last(states), x);
      LatestConnectionOfOneMore(l, snaps[..n], snaps[n], states[n], Last(states), x);
    }
  }

  lemma HeldConnectionIsLogged(p: Policy, log: map<Clock, Event>, l: Snapshot, snaps: seq<Snapshot>, x: Id,
                               c: Connection)
    requires AllLogged(p, log, l, snaps) && SomeConnects(l, snaps, x, c)
    ensures c.clock in log && log[c.clock] == Published(c)
  {
  }

  lemma SameConnections(p: Policy, log: map<Clock, Event>, l: Snapshot, a: seq<Snapshot>, sa: seq<Snapshot>,
                        b: seq<Snapshot>, sb: seq<Snapshot>)
    requires Chain(p, l, a, sa) && Chain(p, l, b, sb) && (forall s :: s in a <==> s in b)
    requires AllLogged(p, log, l, a) && AllLogged(p, log, l, b)
    ensures Last(sa).connections == Last(sb).connections
  {
    var ca, cb := Last(sa).connections, Last(sb).connections;
    forall x ensures (x in ca <==> x in cb) && (x in ca ==> ca[x] == cb[x]) {
      ChainConnection(p, log, l, a, sa, x);
      ChainConnection(p, log, l, b, sb, x);
      if x in ca {
        HeldConnectionIsLogged(p, log, l, a, x, ca[x]);
        HeldConnectionIsLogged(p, log, l, b, x, cb[x]);
        assert !Later(ca[x].clock, cb[x].clock) && !Later(cb[x].clock, ca[x].clock);
      }
    }
  }

  // ---------------------------------------------------------------- the local clock

  /** Every clock that merging `s` makes the engine `id` witness. */
  ghost function Heard(p: Policy, id: Id, s: Snapshot): iset<Clock> {
    (iset c | Offers(p, id, s, c)) + (iset e | e in s.pending :: e.clock) +
    (iset m | m in s.onboarding && TakesCommand(p, m) :: m.clock)
  }

  lemma {:induction false} EditsRaise(p: Policy, r: Snapshot, edits: seq<Edit>)
    requires r.local.node == r.id
    ensures Raised(r.local, MergeEdits(p, r, edits).local, iset e | e in edits :: e.clock)
  {
    if edits != [] {
      var n := |edits| - 1;
      var before := MergeEdits(p, r, edits[..n]);
      var heard := iset e | e in edits[..n] :: e.clock;
      EditsRaise(p, r, edits[..n]);
      EditsLeaveForeign(p, r, edits[..n]);
      EditParts(p, before, edits[n]);
      WitnessAlso(r.local, before.local, r.id, edits[n].clock, heard);
      assert forall e :: e in edits <==> e in edits[..n] || e == edits[n];
      assert (iset e | e in edits :: e.clock) == heard + iset{edits[n].clock};
    }
  }

  lemma {:induction false} CommandsRaise(p: Policy, r: Snapshot, commands: seq<Command>)
    requires r.local.node == r.id
    ensures Raised(r.local, MergeCommands(p, r, commands).local,
                   iset m | m in commands && TakesCommand(p, m) :: m.clock)
  {
    if commands != [] {
      var n := |commands| - 1;
      var before := MergeCommands(p, r, commands[..n]);
      var heard := iset m | m in commands[..n] && TakesCommand(p, m) :: m.clock;
      var all := iset m | m in commands && TakesCommand(p, m) :: m.clock;
      CommandsRaise(p, r, commands[..n]);
      CommandsLeaveMaps(p, r, commands[..n]);
      assert forall m :: m in commands <==> m in commands[..n] || m == commands[n];
      if TakesCommand(p, commands[n]) {
        WitnessAlso(r.local, before.local, r.id, commands[n].clock, heard);
        assert all == heard + iset{commands[n].clock};
      } else {
        assert all == heard;
      }
    }
  }

  lemma MergeRaises(p: Policy, l: Snapshot, s: Snapshot, out: Snapshot)
    requires MergeResult(p, l, s, out) && l.local.node == l.id
    ensures out.id == l.id && Raised(l.local, out.local, Heard(p, l.id, s))
  {
    var m :| MergedMaps(p, l, s, m) && SortedCopy(MergedLists(p, m, s), out);
    var edited := MergeEdits(p, m, s.pending);
    EditsLeaveForeign(p, m, s.pending);
    EditsRaise(p, m, s.pending);
    CommandsLeaveMaps(p, edited, s.onboarding);
    CommandsRaise(p, edited, s.onboarding);
    RaiseMore(l.local, m.local, edited.local, iset c | Offers(p, l.id, s, c), iset e | e in s.pending :: e.clock);
    RaiseMore(l.local, edited.local, out.local, (iset c | Offers(p, l.id, s, c)) + (iset e | e in s.pending :: e.clock),
              iset c | c in s.onboarding && TakesCommand(p, c) :: c.clock);
  }

  ghost function HeardIn(p: Policy, id: Id, snaps: seq<Snapshot>): iset<Clock> {
    iset s, c | s in snaps && c in Heard(p, id, s) :: c
  }

  lemma {:induction false} ChainRaises(p: Policy, l: Snapshot, snaps: seq<Snapshot>, states: seq<Snapshot>)
    requires Chain(p, l, snaps, states) && l.local.node == l.id
    ensures Last(states).id == l.id && Raised(l.local, Last(states).local, HeardIn(p, l.id, snaps))
  {
    if snaps != [] {
      var n := |snaps| - 1;
      ChainPrefix(p, l, snaps, states);
      ChainRaises(p, l, snaps[..n], states[..n + 1]);
      MergeRaises(p, states[n], snaps[n], Last(states));
      RaiseMore(l.local, states[n].local, Last(states).local, HeardIn(p, l.id, snaps[..n]), Heard(p, l.id, snaps[n]));
      assert forall s :: s in snaps <==> s in snaps[..n] || s == snaps[n];
      assert HeardIn(p, l.id, snaps) == HeardIn(p, l.id, snaps[..n]) + Heard(p, l.id, snaps[n]);
    }
  }

  lemma RaisedIsUnique(before: Clock, a: Clock, b: Clock, offered: iset<Clock>)
    requires Raised(before, a, offered) && Raised(before, b, offered)
    ensures a == b
  {
  }

  // ---------------------------------------------------------------- the own record and the edits

  /** The own record is the latest of the writes with these clocks, field by field as logged. */
  ghost predicate Follows(p: Policy, log: map<Clock, Event>, x: Id, own: Record, clocks: set<Clock>) {
    Tracks(log, x, own, clocks) && forall k :: k in own ==> FieldLogged(p, log, x, k, own[k])
  }

  lemma FollowsIsUnique(p: Policy, log: map<Clock, Event>, x: Id, a: Record, b: Record, clocks: set<Clock>)
    requires Follows(p, log, x, a, clocks) && Follows(p, log, x, b, clocks)
    ensures a == b
  {
    forall k ensures (k in a <==> k in b) && (k in a ==> a[k] == b[k]) {
      if k in a {
        assert log[a[k].clock].key == k;
      }
      if k in b {
        assert log[b[k].clock].key == k;
      }
      if k in a && k in b {
        assert !Later(a[k].clock, b[k].clock) && !Later(b[k].clock, a[k].clock);
        SameClockSameField(p, log, x, k, a[k], b[k]);
      }
    }
  }

  lemma EditFollows(p: Policy, log: map<Clock, Event>, r: Snapshot, e: Edit, clocks: set<Clock>)
    requires Follows(p, log, r.id, Own(r), clocks) && EditLogged(p, log, e)
    ensures var after := MergeEdit(p, r, e);
            after.id == r.id &&
            Follows(p, log, r.id, Own(after), if ForMe(p, r.id, e) then clocks + {e.clock} else clocks)
  {
    EditTracks(p, log, r, e, clocks);
    EditParts(p, r, e);
  }

  lemma {:induction false} EditsFollow(p: Policy, log: map<Clock, Event>, r: Snapshot, edits: seq<Edit>,
                                       clocks: set<Clock>)
    requires Follows(p, log, r.id, Own(r), clocks) && forall e :: e in edits ==> EditLogged(p, log, e)
    ensures var after := MergeEdits(p, r, edits);
            after.id == r.id && Follows(p, log, r.id, Own(after), clocks + Delivered(p, r.id, edits))
  {
    if edits == [] {
      assert clocks + Delivered(p, r.id, edits) == clocks;
    } else {
      var n := |edits| - 1;
      var so := clocks + Delivered(p, r.id, edits[..n]);
      EditsFollow(p, log, r, edits[..n], clocks);
      EditFollows(p, log, MergeEdits(p, r, edits[..n]), edits[n], so);
      DeliveredOneMore(p, r.id, edits);
      assert clocks + Delivered(p, r.id, edits) == if ForMe(p, r.id, edits[n]) then so + {edits[n].clock} else so;
    }
  }

  lemma ListsFollow(p: Policy, log: map<Clock, Event>, m: Snapshot, s: Snapshot, clocks: set<Clock>)
    requires (forall e :: e in s.pending ==> EditLogged(p, log, e)) && Follows(p, log, m.id, Own(m), clocks)
    ensures var out := MergedLists(p, m, s);
            out.id == m.id && Follows(p, log, m.id, Own(out), clocks + Delivered(p, m.id, s.pending))
  {
    EditsFollow(p, log, m, s.pending, clocks);
    CommandsLeaveMaps(p, MergeEdits(p, m, s.pending), s.onboarding);
  }

  lemma MapsLeaveOwn(p: Policy, l: Snapshot, s: Snapshot, m: Snapshot)
    requires MergedMaps(p, l, s, m)
    ensures m.id == l.id && Own(m) == Own(l)
  {
  }

  lemma MergeFollows(p: Policy, log: map<Clock, Event>, l: Snapshot, s: Snapshot, out: Snapshot, clocks: set<Clock>)
    requires MergeResult(p, l, s, out) && Logged(p, log, s) && Follows(p, log, l.id, Own(l), clocks)
    ensures out.id == l.id && Follows(p, log, l.id, Own(out), clocks + Delivered(p, l.id, s.pending))
  {
    var m :| MergedMaps(p, l, s, m) && SortedCopy(MergedLists(p, m, s), out);
    MapsLeaveOwn(p, l, s, m);
    ListsFollow(p, log, m, s, clocks);
  }

  ghost function DeliveredIn(p: Policy, id: Id, snaps: seq<Snapshot>): set<Clock> {
    set s, c | s in snaps && c in Delivered(p, id, s.pending) :: c
  }

  lemma {:induction false} ChainFollows(p: Policy, log: map<Clock, Event>, l: Snapshot, snaps: seq<Snapshot>,
                                        states: seq<Snapshot>, clocks: set<Clock>)
    requires Chain(p, l, snaps, states) && AllLogged(p, log, l, snaps) && Follows(p, log, l.id, Own(l), clocks)
    ensures Last(states).id == l.id
    ensures Follows(p, log, l.id, Own(Last(states)), clocks + DeliveredIn(p, l.id, snaps))
  {
    if snaps == [] {
      assert clocks + DeliveredIn(p, l.id, snaps) == clocks;
    } else {
      var n := |snaps| - 1;
      ChainPrefix(p, l, snaps, states);
      ChainFollows(p, log, l, snaps[..n], states[..n + 1], clocks);
      MergeFollows(p, log, states[n], snaps[n], Last(states), clocks + DeliveredIn(p, l.id, snaps[..n]));
      assert forall s :: s in snaps <==> s in snaps[..n] || s == snaps[n];
      assert clocks + DeliveredIn(p, l.id, snaps) ==
             clocks + DeliveredIn(p, l.id, snaps[..n]) + Delivered(p, l.id, snaps[n].pending);
    }
  }

  ghost function IdsIn(snaps: seq<Snapshot>): set<EditId> {
    set s, id | s in snaps && id in EditIds(s.pending) :: id
  }

  /** After any chain of merges, the edits held are those held at first and those of all the snapshots. */
  lemma {:induction false} ChainEdits(p: Policy, l: Snapshot, snaps: seq<Snapshot>, states: seq<Snapshot>)
    requires Chain(p, l, snaps, states)
    ensures EditIds(Last(states).pending) == EditIds(l.pending) + IdsIn(snaps)
  {
    if snaps == [] {
      assert EditIds(l.pending) + IdsIn(snaps) == EditIds(l.pending);
    } else {
      var n := |snaps| - 1;
      ChainPrefix(p, l, snaps, states);
      ChainEdits(p, l, snaps[..n], states[..n + 1]);
      MergeUnitesEdits(p, states[n], snaps[n], Last(states));
      assert forall s :: s in snaps <==> s in snaps[..n] || s == snaps[n];
      assert IdsIn(snaps) == IdsIn(snaps[..n]) + EditIds(snaps[n].pending);
    }
  }

  lemma SameOwnRecord(p: Policy, log: map<Clock, Event>, l: Snapshot, a: seq<Snapshot>, sa: seq<Snapshot>,
                      b: seq<Snapshot>, sb: seq<Snapshot>, clocks: set<Clock>)
    requires Chain(p, l, a, sa) && Chain(p, l, b, sb) && (forall s :: s in a <==> s in b)
    requires AllLogged(p, log, l, a) && AllLogged(p, log, l, b) && Tracks(log, l.id, Own(l), clocks)
    ensures Own(Last(sa)) == Own(Last(sb))
  {
    forall k | k in Own(l) ensures FieldLogged(p, log, l.id, k, Own(l)[k]) {
      assert Stored(l, l.id, k);
    }
    ChainFollows(p, log, l, a, sa, clocks);
    ChainFollows(p, log, l, b, sb, clocks);
    assert DeliveredIn(p, l.id, a) == DeliveredIn(p, l.id, b);
    FollowsIsUnique(p, log, l.id, Own(Last(sa)), Own(Last(sb)), clocks + DeliveredIn(p, l.id, a));
  }

  // ---------------------------------------------------------------- the theorem

  lemma ChainStartsLogged(p: Policy, worlds: seq<World>, actions: seq<Action>, i: nat, y: Id, snaps: seq<Snapshot>)
    requires Run(p, worlds, actions) && i < |worlds| && y in worlds[i].replicas
    requires forall s :: s in snaps ==> s in worlds[i].seen
    ensures AllLogged(p, worlds[i].log, worlds[i].replicas[y], snaps)
    ensures worlds[i].replicas[y].id == worlds[i].replicas[y].local.node == y
    ensures Tracks(worlds[i].log, y, Own(worlds[i].replicas[y]), ArrivedAt(worlds[i], y))
  {
    var w := worlds[i];
    EveryStateIsGood(p, worlds, actions, i);
    assert Good(p, w, w.replicas[y]) && OwnIsLatest(w, y);
    forall s | s in snaps ensures Logged(p, w.log, s) {
      assert Good(p, w, s);
    }
  }

  /** From any reachable state, merging the same set of earlier snapshots, in any two orders and with
      any repetition, leaves the same records, connections, edits by id and local clock. */
  lemma MergeOrderDoesNotMatter(p: Policy, worlds: seq<World>, actions: seq<Action>, i: nat, y: Id,
                                a: seq<Snapshot>, sa: seq<Snapshot>, b: seq<Snapshot>, sb: seq<Snapshot>)
    requires Run(p, worlds, actions) && i < |worlds| && y in worlds[i].replicas
    requires (forall s :: s in a <==> s in b) && (forall s :: s in a ==> s in worlds[i].seen)
    requires Chain(p, worlds[i].replicas[y], a, sa) && Chain(p, worlds[i].replicas[y], b, sb)
    ensures Last(sa).connections == Last(sb).connections && Last(sa).local == Last(sb).local
    ensures Own(Last(sa)) == Own(Last(sb)) && EditIds(Last(sa).pending) == EditIds(Last(sb).pending)
    ensures forall x :: x != y ==>
              (x in Last(sa).records <==> x in Last(sb).records) &&
              RecordOf(Last(sa).records, x) == RecordOf(Last(sb).records, x)
  {
    var w := worlds[i];
    var l := w.replicas[y];
    ChainStartsLogged(p, worlds, actions, i, y, a);
    ChainStartsLogged(p, worlds, actions, i, y, b);
    SameOwnRecord(p, w.log, l, a, sa, b, sb, ArrivedAt(w, y));
    ChainEdits(p, l, a, sa);
    ChainEdits(p, l, b, sb);
    assert IdsIn(a) == IdsIn(b);
    SameConnections(p, w.log, l, a, sa, b, sb);
    forall x | x != y
      ensures (x in Last(sa).records <==> x in Last(sb).records) &&
              RecordOf(Last(sa).records, x) == RecordOf(Last(sb).records, x)
    {
      SameForeignRecord(p, w.log, l, a, sa, b, sb, x);
    }
    ChainRaises(p, l, a, sa);
    ChainRaises(p, l, b, sb);
    assert HeardIn(p, l.id, a) == HeardIn(p, l.id, b);
    RaisedIsUnique(l.local, Last(sa).local, Last(sb).local, HeardIn(p, l.id, a));
  }

  // ---------------------------------------------------------------- commands

  /** The command comes from the start or a snapshot, and none of them has a later copy. */
  ghost predicate LatestOfAll(l: Snapshot, snaps: seq<Snapshot>, c: Command) {
    && (c in l.onboarding || exists s :: s in snaps && c in s.onboarding)
    && (forall d :: d in l.onboarding && d.id == c.id ==> !Later(d.clock, c.clock))
    && (forall s, d :: s in snaps && d in s.onboarding && d.id == c.id ==> !Later(d.clock, c.clock))
  }

  ghost function CommandIdsIn(snaps: seq<Snapshot>): set<CommandId> {
    set s, id | s in snaps && id in CommandIds(s.onboarding) :: id
  }

  /** The commands of the start and of all the snapshots, each once and in its latest copy. */
  ghost predicate Gathers(l: Snapshot, snaps: seq<Snapshot>, all: seq<Command>) {
    && DistinctIds(all) && CommandIds(all) == CommandIds(l.onboarding) + CommandIdsIn(snaps)
    && forall c :: c in all ==> LatestOfAll(l, snaps, c)
  }

  lemma GathersNothing(l: Snapshot)
    requires DistinctIds(l.onboarding)
    ensures Gathers(l, [], l.onboarding)
  {
    assert CommandIdsIn([]) == {};
    forall c | c in l.onboarding ensures LatestOfAll(l, [], c) {
      forall d | d in l.onboarding && d.id == c.id ensures !Later(d.clock, c.clock) {
        var i :| 0 <= i < |l.onboarding| && l.onboarding[i] == c;
        var j :| 0 <= j < |l.onboarding| && l.onboarding[j] == d;
      }
    }
  }

  lemma GathersMore(l: Snapshot, snaps: seq<Snapshot>, s: Snapshot, before: seq<Command>, all: seq<Command>)
    requires Gathers(l, snaps, before) && Unites(before, s.onboarding, all)
    ensures Gathers(l, snaps + [s], all)
  {
    assert CommandIdsIn(snaps + [s]) == CommandIdsIn(snaps) + CommandIds(s.onboarding);
    forall c | c in all ensures LatestOfAll(l, snaps + [s], c) {
      LatestGathered(l, snaps, s, before, all, c);
    }
  }

  lemma LatestGathered(l: Snapshot, snaps: seq<Snapshot>, s: Snapshot, before: seq<Command>, all: seq<Command>,
                       c: Command)
    requires Gathers(l, snaps, before) && Unites(before, s.onboarding, all) && c in all
    ensures LatestOfAll(l, snaps + [s], c)
  {
    assert LatestCopy(before, s.onboarding, c);
    assert c in before ==> LatestOfAll(l, snaps, c);
    assert c in s.onboarding ==> s in snaps + [s];
    forall d: Command | d.id == c.id && (d in l.onboarding || exists t :: t in snaps && d in t.onboarding)
      ensures !Later(d.clock, c.clock)
    {
      EarlierCopyGathered(l, snaps, before, d);
      var e :| e in before && e.id == d.id && !Later(d.clock, e.clock);
      assert !Later(e.clock, c.clock);
    }
  }

  lemma EarlierCopyGathered(l: Snapshot, snaps: seq<Snapshot>, before: seq<Command>, d: Command)
    requires Gathers(l, snaps, before) && (d in l.onboarding || exists t :: t in snaps && d in t.onboarding)
    ensures exists e :: e in before && e.id == d.id && !Later(d.clock, e.clock)
  {
    if d in l.onboarding {
      assert d.id in CommandIds(l.onboarding);
    } else {
      var t :| t in snaps && d in t.onboarding;
      assert d.id in CommandIds(t.onboarding) && d.id in CommandIdsIn(snaps);
    }
    assert d.id in CommandIds(before);
    var e :| e in before && e.id == d.id;
    assert LatestOfAll(l, snaps, e);
  }

  lemma {:induction false} ChainCommands(p: Policy, l: Snapshot, snaps: seq<Snapshot>, states: seq<Snapshot>)
    requires Chain(p, l, snaps, states) && DistinctIds(l.onboarding)
    requires forall s, c :: s in snaps && c in s.onboarding ==> Wellformed(p, c)
    ensures Gathers(l, snaps, Last(states).onboarding)
  {
    if snaps == [] {
      GathersNothing(l);
    } else {
      var n := |snaps| - 1;
      ChainPrefix(p, l, snaps, states);
      ChainCommands(p, l, snaps[..n], states[..n + 1]);
      MergeUnitesCommands(p, states[n], snaps[n], Last(states));
      GathersMore(l, snaps[..n], snaps[n], states[n].onboarding, Last(states).onboarding);
    }
  }

  /** Both lists have a command in the same copy. */
  lemma SameCopy(w: World, l: Snapshot, a: seq<Snapshot>, b: seq<Snapshot>, c: Command, d: Command)
    requires (forall s :: s in a <==> s in b) && LatestOfAll(l, a, c) && LatestOfAll(l, b, d) && c.id == d.id
    requires CommandLogged(w.log, c) && CommandLogged(w.log, d)
    ensures c == d
  {
  }

  lemma SameCommands(p: Policy, w: World, l: Snapshot, a: seq<Snapshot>, all: seq<Command>, b: seq<Snapshot>,
                     other: seq<Command>, c: Command)
    requires (forall s :: s in a <==> s in b) && Gathers(l, a, all) && Gathers(l, b, other) && c in all
    requires AllLogged(p, w.log, l, a)
    ensures c in other
  {
    assert CommandIdsIn(a) == CommandIdsIn(b);
    assert c.id in CommandIds(other);
    var d :| d in other && d.id == c.id;
    assert LatestOfAll(l, a, c) && LatestOfAll(l, b, d);
    SameCopy(w, l, a, b, c, d);
  }

  /** And the same commands, each in the same copy. */
  lemma MergeOrderDoesNotMatterForCommands(p: Policy, worlds: seq<World>, actions: seq<Action>, i: nat, y: Id,
                                           a: seq<Snapshot>, sa: seq<Snapshot>, b: seq<Snapshot>, sb: seq<Snapshot>)
    requires Run(p, worlds, actions) && StableCodes(p) && i < |worlds| && y in worlds[i].replicas
    requires (forall s :: s in a <==> s in b) && (forall s :: s in a ==> s in worlds[i].seen)
    requires Chain(p, worlds[i].replicas[y], a, sa) && Chain(p, worlds[i].replicas[y], b, sb)
    ensures forall c :: c in Last(sa).onboarding <==> c in Last(sb).onboarding
  {
    var w, l := worlds[i], worlds[i].replicas[y];
    ChainStartsLogged(p, worlds, actions, i, y, a);
    ChainStartsLogged(p, worlds, actions, i, y, b);
    HomeIsDistinct(p, worlds, actions, i, y);
    forall s, c | s in a && c in s.onboarding ensures Wellformed(p, c) {
      SeenIsWellformed(p, worlds, actions, i, s);
    }
    ChainCommands(p, l, a, sa);
    ChainCommands(p, l, b, sb);
    forall c ensures c in Last(sa).onboarding <==> c in Last(sb).onboarding {
      if c in Last(sa).onboarding {
        SameCommands(p, w, l, a, Last(sa).onboarding, b, Last(sb).onboarding, c);
      }
      if c in Last(sb).onboarding {
        SameCommands(p, w, l, b, Last(sb).onboarding, a, Last(sa).onboarding, c);
      }
    }
  }

  // ---------------------------------------------------------------- copies relayed by others

  /** The snapshot has every field of the record, with a clock at least as late. */
  ghost predicate AsLate(own: Record, s: Snapshot, x: Id) {
    forall k :: k in own ==> Stored(s, x, k) && !Later(own[k].clock, s.records[x][k].clock)
  }

  ghost predicate HoldsAsLate(worlds: seq<World>, own: Record, x: Id, k: nat, y: Id) {
    k < |worlds| && y in worlds[k].replicas && AsLate(own, worlds[k].replicas[y], x)
  }

  lemma OpLeavesForeign(p: Policy, r: Snapshot, op: Op, x: Id)
    requires x != r.id
    ensures x in Apply(p, r, op).records <==> x in r.records
    ensures RecordOf(Apply(p, r, op).records, x) == RecordOf(r.records, x)
  {
  }

  lemma JoinIsAsLate(l: Snapshot, s: Snapshot, out: Snapshot, f: Field, x: Id, k: Key)
    requires JoinsField(l, s, out, x, k)
    requires || (Stored(l, x, k) && !Later(f.clock, l.records[x][k].clock))
             || (Stored(s, x, k) && !Later(f.clock, s.records[x][k].clock))
    ensures Stored(out, x, k) && !Later(f.clock, out.records[x][k].clock)
  {
  }

  lemma MergeKeepsAsLate(p: Policy, log: map<Clock, Event>, l: Snapshot, s: Snapshot, out: Snapshot, own: Record, x: Id)
    requires MergeResult(p, l, s, out) && x != l.id && Logged(p, log, s) && (AsLate(own, l, x) || AsLate(own, s, x))
    ensures AsLate(own, out, x)
  {
    forall k | k in own ensures Stored(out, x, k) && !Later(own[k].clock, out.records[x][k].clock) {
      MergeJoinsField(p, log, l, s, out, x, k);
      JoinIsAsLate(l, s, out, own[k], x, k);
    }
  }

  lemma LocalKeepsAsLate(p: Policy, w: World, op: Op, own: Record, x: Id, y: Id)
    requires y in w.replicas && w.replicas[y].id == y != x && AsLate(own, w.replicas[y], x)
    ensures y in AfterLocal(p, w, y, op).replicas && AsLate(own, AfterLocal(p, w, y, op).replicas[y], x)
  {
    OpLeavesForeign(p, w.replicas[y], op, x);
    var after := AfterLocal(p, w, y, op).replicas[y];
    assert after == w.replicas[y] || after == Apply(p, w.replicas[y], op);
    forall k | k in own ensures Stored(after, x, k) && !Later(own[k].clock, after.records[x][k].clock) {
      assert Stored(w.replicas[y], x, k);
    }
  }

  lemma StepKeepsAsLate(p: Policy, w: World, a: Action, w': World, own: Record, x: Id, y: Id)
    requires Step(p, w, a, w') && y in w.replicas && w.replicas[y].id == y != x && AsLate(own, w.replicas[y], x)
    requires a.Merged? ==> Logged(p, w.log, a.snapshot)
    ensures y in w'.replicas && AsLate(own, w'.replicas[y], x)
  {
    if a.Merged? && a.x == y {
      MergeKeepsAsLate(p, w.log, w.replicas[y], a.snapshot, a.out, own, x);
    } else if a.Local? && a.x == y {
      LocalKeepsAsLate(p, w, a.op, own, x, y);
    } else {
      assert y in w'.replicas && w'.replicas[y] == w.replicas[y];
    }
  }

  /** An engine's own record is as late as it ever was. */
  lemma OwnStaysAsLate(p: Policy, worlds: seq<World>, actions: seq<Action>, i: nat, x: Id, k: nat)
    requires Run(p, worlds, actions) && i <= k < |worlds| && x in worlds[i].replicas
    ensures HoldsAsLate(worlds, OwnOf(worlds[i], x), x, k, x)
  {
    HistoryGrows(p, worlds, actions, i, k);
    OwnRecordIsClean(p, worlds, actions, k, x);
    assert Advanced(OwnOf(worlds[i], x), OwnOf(worlds[k], x));
  }

  lemma AsLateStays(p: Policy, worlds: seq<World>, actions: seq<Action>, own: Record, x: Id, k: nat, y: Id)
    requires Run(p, worlds, actions) && k < |actions| && y != x && HoldsAsLate(worlds, own, x, k, y)
    ensures HoldsAsLate(worlds, own, x, k + 1, y)
  {
    var w, a := worlds[k], actions[k];
    assert Step(p, w, a, worlds[k + 1]);
    IdIsItsOwn(p, worlds, actions, k, y);
    if a.Merged? {
      SeenIsLogged(p, worlds, actions, k, a.snapshot);
    }
    StepKeepsAsLate(p, w, a, worlds[k + 1], own, x, y);
  }

  lemma IdIsItsOwn(p: Policy, worlds: seq<World>, actions: seq<Action>, k: nat, y: Id)
    requires Run(p, worlds, actions) && k < |worlds| && y in worlds[k].replicas
    ensures worlds[k].replicas[y].id == y
  {
    EveryStateIsGood(p, worlds, actions, k);
  }

  lemma SeenIsLogged(p: Policy, worlds: seq<World>, actions: seq<Action>, k: nat, s: Snapshot)
    requires Run(p, worlds, actions) && k < |worlds| && s in worlds[k].seen
    ensures Logged(p, worlds[k].log, s)
  {
    EveryStateIsGood(p, worlds, actions, k);
    assert Good(p, worlds[k], s);
  }

  lemma AsLatePasses(p: Policy, worlds: seq<World>, actions: seq<Action>, own: Record, x: Id, k: nat, y: Id, u: nat,
                     z: Id)
    requires Run(p, worlds, actions) && Relays(worlds, actions, k, y, u, z) && y != x &&
             HoldsAsLate(worlds, own, x, u, z)
    ensures HoldsAsLate(worlds, own, x, k, y)
  {
    var s := worlds[u].replicas[z];
    RelayMerges(p, worlds, actions, k, y, u, z);
    IdIsItsOwn(p, worlds, actions, k - 1, y);
    SeenIsLogged(p, worlds, actions, k - 1, s);
    MergeKeepsAsLate(p, worlds[k - 1].log, worlds[k - 1].replicas[y], s, worlds[k].replicas[y], own, x);
  }

  /** Whoever `x`'s state has reached, through any chain of merges, holds all of it or something later. */
  lemma ReachedRecordIsHeld(p: Policy, worlds: seq<World>, actions: seq<Action>, i: nat, x: Id, j: nat, y: Id)
    requires Run(p, worlds, actions) && i < |worlds| && x in worlds[i].replicas && Reaches(worlds, actions, i, x, j, y)
    ensures HoldsAsLate(worlds, OwnOf(worlds[i], x), x, j, y)
  {
    var own := OwnOf(worlds[i], x);
    var holds := (k: nat, z: Id) => i <= k < |worlds| && (z == x || HoldsAsLate(worlds, own, x, k, z));
    forall k: nat, z | k < |actions| ensures Stays(holds, k, z) {
      if holds(k, z) && z != x {
        AsLateStays(p, worlds, actions, own, x, k, z);
      }
    }
    forall k: nat, z, u: nat, v ensures Passes(worlds, actions, holds, k, z, u, v) {
      if Relays(worlds, actions, k, z, u, v) && holds(u, v) && z != x {
        if v == x {
          OwnStaysAsLate(p, worlds, actions, i, x, u);
        }
        AsLatePasses(p, worlds, actions, own, x, k, z, u, v);
      }
    }
    ReachesAlong(worlds, actions, i, x, j, y, holds);
    if y == x {
      OwnStaysAsLate(p, worlds, actions, i, x, j);
    }
  }

  /** If what `x` was at some time has reached `y`, however indirectly, and `x` has not changed its record
      since, `y`'s copy is that record. */
  lemma RelayedCopyIsCurrent(p: Policy, worlds: seq<World>, actions: seq<Action>, i: nat, x: Id, j: nat, y: Id)
    requires Run(p, worlds, actions) && i < |worlds| && x in worlds[i].replicas && Reaches(worlds, actions, i, x, j, y)
    requires OwnOf(worlds[i], x) == OwnOf(worlds[j], x)
    ensures y in worlds[j].replicas && RecordOf(worlds[j].replicas[y].records, x) == OwnOf(worlds[j], x)
  {
    ReachedRecordIsHeld(p, worlds, actions, i, x, j, y);
    var own, copy := OwnOf(worlds[j], x), RecordOf(worlds[j].replicas[y].records, x);
    forall k ensures (k in copy <==> k in own) && (k in copy ==> copy[k] == own[k]) {
      if k in own {
        assert Stored(worlds[j].replicas[y], x, k) && !Later(own[k].clock, copy[k].clock);
      }
      if k in copy {
        CopyIsNeverAhead(p, worlds, actions, j, y, x, k);
      }
    }
  }
}
