/** Onboarding commands on their way: no merge drops one, and what reaches its target can be completed there. */
module ConfigSyncCommands {
  import opened Outcomes
  import opened ConfigSync
  import opened ConfigSyncRuns
  import opened ConfigSyncInvariant
  import opened ConfigSyncMerge
  import opened ConfigSyncTheorems
  import PairingCode

  // ---------------------------------------------------------------- what is ever stored

  /** A request to issue a code, or to accept one that is readable or was cleared, for a valid engine. */
  predicate Wellformed(p: Policy, c: Command) {
    && p.idOk(c.target)
    && (c.action.Issue? || (c.action.Accept? && (c.code == "" || p.normalize(c.code).Some?)))
  }

  /** A normalised code can be normalised. */
  ghost predicate StableCodes(p: Policy) {
    forall code :: p.normalize(code).Some? ==> p.normalize(p.normalize(code).value).Some?
  }

  /** The code check as it is has this property, if trimming and upper-casing leave a normalised code alone. */
  lemma CodesAreStable(p: Policy, prepare: string -> string)
    requires forall code :: p.normalize(code) == PairingCode.Normalized(prepare(code))
    requires forall code :: PairingCode.Normalized(code) == Some(code) ==> prepare(code) == code
    ensures StableCodes(p)
  {
    forall code | p.normalize(code).Some? ensures p.normalize(p.normalize(code).value).Some? {
      PairingCode.NormalizedIsStable(prepare(code));
    }
  }

  ghost predicate AllWellformed(p: Policy, log: map<Clock, Event>) {
    forall c :: c in log && log[c].Commanded? ==> Wellformed(p, log[c].command)
  }

  lemma NewIsWellformed(p: Policy, r: Snapshot, target: Id, action: CommandAction, code: Code, clock: Clock)
    requires StableCodes(p) && p.idOk(target) && QueuedCode(p, action, code).Some?
    ensures Wellformed(p, NewCommand(r, target, action, QueuedCode(p, action, code).value, clock))
  {
  }

  lemma FinishedIsWellformed(p: Policy, r: Snapshot, op: Op, clock: Clock)
    requires op.CompleteOp? && Completes(p, r, op.id, op.status, op.code)
    requires forall c :: c in r.onboarding ==> Wellformed(p, c)
    ensures Wellformed(p, Finished(p, r, op.id, op.status, op.code, op.expires, op.message, clock))
  {
    assert r.onboarding[FindCommand(r.onboarding, op.id)] in r.onboarding;
  }

  lemma StoredIsWellformed(p: Policy, w: World, s: Snapshot)
    requires Good(p, w, s) && AllWellformed(p, w.log)
    ensures forall c :: c in s.onboarding ==> Wellformed(p, c)
  {
    forall c | c in s.onboarding ensures Wellformed(p, c) {
      assert CommandLogged(w.log, c);
    }
  }

  lemma EventIsWellformed(p: Policy, r: Snapshot, op: Op)
    requires StableCodes(p) && forall c :: c in r.onboarding ==> Wellformed(p, c)
    ensures var event := Stamps(p, r, op);
            event.Some? && event.value.Commanded? ==> Wellformed(p, event.value.command)
  {
    var clock := NextClock(r.local, r.id, op.wall);
    if Stamps(p, r, op).Some? {
      if op.CommandOp? {
        NewIsWellformed(p, r, op.to, op.action, op.code, clock);
      } else if op.CompleteOp? {
        FinishedIsWellformed(p, r, op, clock);
      }
    }
  }

  lemma StepKeepsWellformed(p: Policy, w: World, a: Action, w': World)
    requires StableCodes(p) && Inv(p, w) && Step(p, w, a, w') && AllWellformed(p, w.log)
    ensures AllWellformed(p, w'.log)
  {
    if a.Local? {
      HomeGood(p, w, a.x);
      StoredIsWellformed(p, w, w.replicas[a.x]);
      EventIsWellformed(p, w.replicas[a.x], a.op);
    }
  }

  lemma NextIsWellformed(p: Policy, worlds: seq<World>, actions: seq<Action>, i: nat)
    requires Run(p, worlds, actions) && StableCodes(p) && i < |actions| && AllWellformed(p, worlds[i].log)
    ensures AllWellformed(p, worlds[i + 1].log)
  {
    EveryStateIsGood(p, worlds, actions, i);
    StepKeepsWellformed(p, worlds[i], actions[i], worlds[i + 1]);
  }

  lemma {:induction false} EveryCommandIsWellformed(p: Policy, worlds: seq<World>, actions: seq<Action>, i: nat)
    requires Run(p, worlds, actions) && StableCodes(p) && i < |worlds|
    ensures AllWellformed(p, worlds[i].log)
  {
    if i > 0 {
      EveryCommandIsWellformed(p, worlds, actions, i - 1);
      NextIsWellformed(p, worlds, actions, i - 1);
    }
  }

  lemma SeenIsWellformed(p: Policy, worlds: seq<World>, actions: seq<Action>, i: nat, s: Snapshot)
    requires Run(p, worlds, actions) && StableCodes(p) && i < |worlds| && s in worlds[i].seen
    ensures DistinctIds(s.onboarding) && forall c :: c in s.onboarding ==> Wellformed(p, c)
  {
    EveryCommandIsWellformed(p, worlds, actions, i);
    EveryStateIsGood(p, worlds, actions, i);
    assert Good(p, worlds[i], s);
    StoredIsWellformed(p, worlds[i], s);
  }

  /** A finished command keeps a code only if it is an issue that succeeded. */
  predicate Cleared(c: Command) {
    !c.status.Waiting? && c.code != "" ==> c.action.Issue? && c.status.Done?
  }

  ghost predicate AllCleared(log: map<Clock, Event>) {
    forall c :: c in log && log[c].Commanded? ==> Cleared(log[c].command)
  }

  lemma StepKeepsCleared(p: Policy, w: World, a: Action, w': World)
    requires Step(p, w, a, w') && AllCleared(w.log)
    ensures AllCleared(w'.log)
  {
  }

  lemma {:induction false} EveryLogIsCleared(p: Policy, worlds: seq<World>, actions: seq<Action>, i: nat)
    requires Run(p, worlds, actions) && i < |worlds|
    ensures AllCleared(worlds[i].log)
  {
    if i > 0 {
      EveryLogIsCleared(p, worlds, actions, i - 1);
      assert Step(p, worlds[i - 1], actions[i - 1], worlds[i - 1 + 1]);
      StepKeepsCleared(p, worlds[i - 1], actions[i - 1], worlds[i]);
    }
  }

  /** Nowhere does a finished accept, or a failed issue, keep its one-time code. */
  lemma FinishedCommandKeepsNoCode(p: Policy, worlds: seq<World>, actions: seq<Action>, i: nat, x: Id, c: Command)
    requires Run(p, worlds, actions) && i < |worlds| && x in worlds[i].replicas
    requires c in worlds[i].replicas[x].onboarding && !c.status.Waiting? && c.code != ""
    ensures c.action.Issue? && c.status.Done?
  {
    EveryLogIsCleared(p, worlds, actions, i);
    HeldCommandIsLogged(p, worlds, actions, i, x, c);
  }

  // ---------------------------------------------------------------- what a merge keeps

  function CommandIds(commands: seq<Command>): set<CommandId> {
    set c | c in commands :: c.id
  }

  /** A command from one of the two lists, and neither has a later copy of it. */
  ghost predicate LatestCopy(a: seq<Command>, b: seq<Command>, c: Command) {
    && (c in a || c in b)
    && (forall d :: d in a && d.id == c.id ==> !Later(d.clock, c.clock))
    && (forall d :: d in b && d.id == c.id ==> !Later(d.clock, c.clock))
  }

  /** The commands of both lists, each once and in its latest copy. */
  ghost predicate Unites(a: seq<Command>, b: seq<Command>, all: seq<Command>) {
    && DistinctIds(all) && CommandIds(all) == CommandIds(a) + CommandIds(b)
    && forall c :: c in all ==> LatestCopy(a, b, c)
  }

  lemma ReplacingUnites(s: seq<Command>, i: nat, c: Command)
    requires DistinctIds(s) && i < |s| && s[i].id == c.id
    ensures Unites(s, [c], s[i := if Later(c.clock, s[i].clock) then c else s[i]])
  {
    var after := s[i := if Later(c.clock, s[i].clock) then c else s[i]];
    ReplaceCommand(s, i, after[i]);
    assert s[i] in s;
    assert CommandIds(after) == CommandIds(s) + CommandIds([c]) by {
      SameIds(s, after);
    }
  }

  lemma AppendingUnites(s: seq<Command>, c: Command)
    requires DistinctIds(s) && forall j :: 0 <= j < |s| ==> s[j].id != c.id
    ensures Unites(s, [c], s + [c])
  {
    assert forall d :: d in s + [c] <==> d in s || d == c;
  }

  lemma UpsertUnites(s: seq<Command>, c: Command)
    requires DistinctIds(s)
    ensures Unites(s, [c], UpsertCommand(s, c))
  {
    var i := FindCommand(s, c.id);
    UpsertCommandAt(s, c);
    if i < |s| {
      ReplacingUnites(s, i, c);
    } else {
      AppendingUnites(s, c);
    }
  }

  lemma SameIds(a: seq<Command>, b: seq<Command>)
    requires |a| == |b| && forall j :: 0 <= j < |a| ==> a[j].id == b[j].id
    ensures CommandIds(a) == CommandIds(b)
  {
    forall id ensures id in CommandIds(a) <==> id in CommandIds(b) {
      if id in CommandIds(a) {
        var j :| 0 <= j < |a| && a[j].id == id;
        assert b[j] in b;
      }
      if id in CommandIds(b) {
        var j :| 0 <= j < |b| && b[j].id == id;
        assert a[j] in a;
      }
    }
  }

  lemma UnitesMore(a: seq<Command>, b: seq<Command>, ab: seq<Command>, c: Command, all: seq<Command>)
    requires Unites(a, b, ab) && Unites(ab, [c], all)
    ensures Unites(a, b + [c], all)
  {
    assert CommandIds([c]) == {c.id} && CommandIds(b + [c]) == CommandIds(b) + {c.id};
    forall d | d in all ensures LatestCopy(a, b + [c], d) {
      LatestOfMore(a, b, ab, c, all, d);
    }
  }

  lemma LatestOfMore(a: seq<Command>, b: seq<Command>, ab: seq<Command>, c: Command, all: seq<Command>, d: Command)
    requires Unites(a, b, ab) && Unites(ab, [c], all) && d in all
    ensures LatestCopy(a, b + [c], d)
  {
    forall e | (e in a || e in b + [c]) && e.id == d.id ensures !Later(e.clock, d.clock) {
      if e in a || e in b {
        assert e.id in CommandIds(ab);
        var f :| f in ab && f.id == e.id;
        assert LatestCopy(a, b, f) && LatestCopy(ab, [c], d);
      }
    }
  }

  lemma CommandUnites(p: Policy, r: Snapshot, c: Command)
    requires DistinctIds(r.onboarding) && Wellformed(p, c)
    ensures Unites(r.onboarding, [c], MergeCommand(p, r, c).onboarding)
  {
    UpsertUnites(r.onboarding, c);
  }

  lemma {:induction false} CommandsUnite(p: Policy, r: Snapshot, commands: seq<Command>)
    requires DistinctIds(r.onboarding) && forall c :: c in commands ==> Wellformed(p, c)
    ensures Unites(r.onboarding, commands, MergeCommands(p, r, commands).onboarding)
  {
    if commands != [] {
      var n := |commands| - 1;
      var before, c := MergeCommands(p, r, commands[..n]), commands[n];
      CommandsUnite(p, r, commands[..n]);
      assert Unites(r.onboarding, commands[..n] + [c], MergeCommand(p, before, c).onboarding) by {
        CommandUnites(p, before, c);
        UnitesMore(r.onboarding, commands[..n], before.onboarding, c, MergeCommand(p, before, c).onboarding);
      }
      assert commands == commands[..n] + [c];
    }
  }

  /** A merge holds exactly the commands of both sides, each in its later copy. */
  lemma MergeUnitesCommands(p: Policy, l: Snapshot, s: Snapshot, out: Snapshot)
    requires MergeResult(p, l, s, out) && DistinctIds(l.onboarding)
    requires forall c :: c in s.onboarding ==> Wellformed(p, c)
    ensures Unites(l.onboarding, s.onboarding, out.onboarding)
  {
    var m :| MergedMaps(p, l, s, m) && SortedCopy(MergedLists(p, m, s), out);
    var edited := MergeEdits(p, m, s.pending);
    EditsLeaveForeign(p, m, s.pending);
    CommandsUnite(p, edited, s.onboarding);
    SortUnites(l.onboarding, s.onboarding, MergedLists(p, m, s).onboarding, out.onboarding);
  }

  lemma SortUnites(a: seq<Command>, b: seq<Command>, all: seq<Command>, sorted: seq<Command>)
    requires Unites(a, b, all) && multiset(all) == multiset(sorted)
    ensures Unites(a, b, sorted)
  {
    SameMembers(all, sorted);
    DistinctUnderSort(all, sorted);
  }

  /** The same for every merge of a run, whatever actions the commands ask for. */
  lemma RunMergeUnitesCommands(p: Policy, worlds: seq<World>, actions: seq<Action>, k: nat)
    requires Run(p, worlds, actions) && StableCodes(p) && k < |actions| && actions[k].Merged?
    ensures var y, s := actions[k].x, actions[k].snapshot;
            && y in worlds[k].replicas && y in worlds[k + 1].replicas
            && Unites(worlds[k].replicas[y].onboarding, s.onboarding, worlds[k + 1].replicas[y].onboarding)
  {
    var y, s := actions[k].x, actions[k].snapshot;
    assert Step(p, worlds[k], actions[k], worlds[k + 1]);
    SeenIsWellformed(p, worlds, actions, k, s);
    HomeIsDistinct(p, worlds, actions, k, y);
    MergeUnitesCommands(p, worlds[k].replicas[y], s, worlds[k + 1].replicas[y]);
  }

  lemma HomeIsDistinct(p: Policy, worlds: seq<World>, actions: seq<Action>, k: nat, y: Id)
    requires Run(p, worlds, actions) && k < |worlds| && y in worlds[k].replicas
    ensures DistinctIds(worlds[k].replicas[y].onboarding)
  {
    EveryStateIsGood(p, worlds, actions, k);
    HomeGood(p, worlds[k], y);
  }

  // ---------------------------------------------------------------- commands that travel

  /** A copy of the command at least as late is among these. */
  ghost predicate Carries(s: seq<Command>, c: Command) {
    exists d :: d in s && d.id == c.id && !Later(c.clock, d.clock)
  }

  lemma UnionCarries(a: seq<Command>, b: seq<Command>, all: seq<Command>, c: Command)
    requires Unites(a, b, all) && (Carries(a, c) || Carries(b, c))
    ensures Carries(all, c)
  {
    var d :| (d in a || d in b) && d.id == c.id && !Later(c.clock, d.clock);
    assert d.id in CommandIds(all);
    var e :| e in all && e.id == d.id;
    assert LatestCopy(a, b, e);
  }

  lemma CompletedIsLater(p: Policy, r: Snapshot, op: Op, c: Command)
    requires Dominates(r) && op.CompleteOp? && Completes(p, r, op.id, op.status, op.code) && !Wraps(r.local, op.wall)
    requires Carries(r.onboarding, c)
    ensures Carries(Apply(p, r, op).onboarding, c)
  {
    var after := Apply(p, r, op).onboarding;
    var i := FindCommand(r.onboarding, op.id);
    var d :| d in r.onboarding && d.id == c.id && !Later(c.clock, d.clock);
    var j :| 0 <= j < |r.onboarding| && r.onboarding[j] == d;
    TickAdvancesUnlessItWraps(r.local, r.id, op.wall);
    assert Covers(r.local, d.clock);
    assert after[j] in after && after[j].id == c.id;
  }

  lemma ApplyCarries(p: Policy, r: Snapshot, op: Op, c: Command)
    requires Dominates(r) && Stamps(p, r, op).Some? && !Wraps(r.local, op.wall) && Carries(r.onboarding, c)
    ensures Carries(Apply(p, r, op).onboarding, c)
  {
    var after := Apply(p, r, op).onboarding;
    if op.CompleteOp? {
      CompletedIsLater(p, r, op, c);
    } else {
      var d :| d in r.onboarding && d.id == c.id && !Later(c.clock, d.clock);
      assert d in after;
    }
  }

  ghost predicate HoldsCopy(worlds: seq<World>, c: Command, k: nat, y: Id) {
    k < |worlds| && y in worlds[k].replicas && Carries(worlds[k].replicas[y].onboarding, c)
  }

  lemma LocalCarries(p: Policy, w: World, x: Id, op: Op, c: Command)
    requires Inv(p, w) && x in w.replicas && Carries(w.replicas[x].onboarding, c)
    requires Stamps(p, w.replicas[x], op).Some? ==> !Wraps(w.replicas[x].local, op.wall)
    ensures x in AfterLocal(p, w, x, op).replicas && Carries(AfterLocal(p, w, x, op).replicas[x].onboarding, c)
  {
    if Stamps(p, w.replicas[x], op).Some? {
      assert Dominates(w.replicas[x]) by {
        HomeGood(p, w, x);
      }
      ApplyCarries(p, w.replicas[x], op, c);
    }
  }

  lemma HeldCopyStays(p: Policy, worlds: seq<World>, actions: seq<Action>, c: Command, k: nat, y: Id)
    requires Run(p, worlds, actions) && StableCodes(p) && k < |actions| && HoldsCopy(worlds, c, k, y)
    ensures HoldsCopy(worlds, c, k + 1, y)
  {
    var w, a := worlds[k], actions[k];
    assert Step(p, w, a, worlds[k + 1]);
    if a.Merged? && a.x == y {
      RunMergeUnitesCommands(p, worlds, actions, k);
      UnionCarries(w.replicas[y].onboarding, a.snapshot.onboarding, worlds[k + 1].replicas[y].onboarding, c);
    } else if a.Local? && a.x == y {
      EveryStateIsGood(p, worlds, actions, k);
      LocalCarries(p, w, y, a.op, c);
    } else {
      assert worlds[k + 1].replicas[y] == w.replicas[y];
    }
  }

  lemma HeldCopyPasses(p: Policy, worlds: seq<World>, actions: seq<Action>, c: Command, k: nat, y: Id, u: nat, z: Id)
    requires Run(p, worlds, actions) && StableCodes(p) && Relays(worlds, actions, k, y, u, z) &&
             HoldsCopy(worlds, c, u, z)
    ensures HoldsCopy(worlds, c, k, y)
  {
    RunMergeUnitesCommands(p, worlds, actions, k - 1);
    UnionCarries(worlds[k - 1].replicas[y].onboarding, worlds[u].replicas[z].onboarding,
                 worlds[k - 1 + 1].replicas[y].onboarding, c);
  }

  lemma CopyReaches(p: Policy, worlds: seq<World>, actions: seq<Action>, i: nat, x: Id, c: Command, j: nat, y: Id)
    requires Run(p, worlds, actions) && StableCodes(p) && Reaches(worlds, actions, i, x, j, y)
    requires HoldsCopy(worlds, c, i, x)
    ensures HoldsCopy(worlds, c, j, y)
  {
    var holds := (k: nat, z: Id) => HoldsCopy(worlds, c, k, z);
    forall k: nat, z | k < |actions| ensures Stays(holds, k, z) {
      if holds(k, z) {
        HeldCopyStays(p, worlds, actions, c, k, z);
      }
    }
    forall k: nat, z, u: nat, v ensures Passes(worlds, actions, holds, k, z, u, v) {
      if Relays(worlds, actions, k, z, u, v) && holds(u, v) {
        HeldCopyPasses(p, worlds, actions, c, k, z, u, v);
      }
    }
    ReachesAlong(worlds, actions, i, x, j, y, holds);
  }

  /** Two copies of a command, the second at least as late: they are the same, or the second is finished. */
  lemma CopiesDiffer(w: World, c: Command, d: Command)
    requires CommandLogged(w.log, c) && CommandLogged(w.log, d) && c.id == d.id && !Later(c.clock, d.clock)
    requires CommandState(w.completed, c) && CommandState(w.completed, d)
    ensures d == c || (c.status.Waiting? && !d.status.Waiting?)
  {
  }

  lemma HeldCommandIsLogged(p: Policy, worlds: seq<World>, actions: seq<Action>, i: nat, x: Id, c: Command)
    requires Run(p, worlds, actions) && i < |worlds| && x in worlds[i].replicas
    requires c in worlds[i].replicas[x].onboarding
    ensures CommandLogged(worlds[i].log, c) && CommandState(worlds[i].completed, c)
  {
    EveryStateIsGood(p, worlds, actions, i);
    HomeGood(p, worlds[i], x);
  }

  lemma CommandStaysLogged(w: World, w': World, c: Command)
    requires Grows(w, w') && CommandLogged(w.log, c) && CommandState(w.completed, c)
    ensures CommandLogged(w'.log, c) && CommandState(w'.completed, c)
  {
  }

  /** A command that an engine holds is held wherever its state has reached, through any chain of merges: the
      same copy, or a finished one where it was still waiting. */
  lemma ReachedCommandIsHeld(p: Policy, worlds: seq<World>, actions: seq<Action>, i: nat, x: Id, c: Command, j: nat,
                             y: Id)
    requires Run(p, worlds, actions) && StableCodes(p) && i < |worlds| && Reaches(worlds, actions, i, x, j, y)
    requires x in worlds[i].replicas && c in worlds[i].replicas[x].onboarding
    ensures y in worlds[j].replicas
    ensures exists d :: && d in worlds[j].replicas[y].onboarding && d.id == c.id
                        && (d == c || (c.status.Waiting? && !d.status.Waiting?))
  {
    assert Carries(worlds[i].replicas[x].onboarding, c);
    CopyReaches(p, worlds, actions, i, x, c, j, y);
    var d :| d in worlds[j].replicas[y].onboarding && d.id == c.id && !Later(c.clock, d.clock);
    ReachedLater(worlds, actions, i, x, j, y);
    HeldCommandIsLogged(p, worlds, actions, i, x, c);
    HeldCommandIsLogged(p, worlds, actions, j, y, d);
    assert CommandLogged(worlds[j].log, c) && CommandState(worlds[j].completed, c) by {
      HistoryGrows(p, worlds, actions, i, j);
      CommandStaysLogged(worlds[i], worlds[j], c);
    }
    CopiesDiffer(worlds[j], c, d);
  }

  /** A waiting command whose state has reached its target is finished there, or can be: with a failure, or
      with a success that for an issue brings a readable code. */
  lemma RelayedCommandCanComplete(p: Policy, worlds: seq<World>, actions: seq<Action>, i: nat, x: Id, c: Command,
                                  j: nat, status: CommandStatus, code: Code)
    requires Run(p, worlds, actions) && StableCodes(p) && i < |worlds| && Reaches(worlds, actions, i, x, j, c.target)
    requires x in worlds[i].replicas && c in worlds[i].replicas[x].onboarding && c.status.Waiting?
    requires !status.Waiting? && (c.action.Issue? && status.Done? ==> p.normalize(code).Some?)
    ensures c.target in worlds[j].replicas
    ensures Finalized(worlds[j].replicas[c.target], c.id) ||
            Completes(p, worlds[j].replicas[c.target], c.id, status, code)
  {
    ReachedCommandIsHeld(p, worlds, actions, i, x, c, j, c.target);
    var r := worlds[j].replicas[c.target];
    var d :| d in r.onboarding && d.id == c.id && (d == c || (c.status.Waiting? && !d.status.Waiting?));
    var k :| 0 <= k < |r.onboarding| && r.onboarding[k] == d;
    HomeIsDistinct(p, worlds, actions, j, c.target);
    FindSame(r.onboarding, k, c.id);
    assert r.id == c.target by {
      EveryStateIsGood(p, worlds, actions, j);
      HomeGood(p, worlds[j], c.target);
    }
  }
}
