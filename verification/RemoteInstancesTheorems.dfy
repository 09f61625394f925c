/** What holds of the registry file and the vault over all runs, whatever fails and whenever the process ends. */
module RemoteInstancesTheorems {
  import opened RemoteInstances
  import opened RemoteInstancesApp

  /** Every registered instance has its secret, and every secret has an instance or a tombstone. */
  ghost predicate Backed(r: Registry, vault: map<Ref, Secret>) {
    && (forall x :: Owns(r.instances, x) ==> x in vault)
    && (forall x :: x in vault ==> x in r.pending || Owns(r.instances, x))
  }

  ghost predicate Consistent(rules: Rules, d: Disk) {
    Readable(rules, d.file) && Backed(Shown(d.file), d.vault)
  }

  /** A reference that stays owned keeps its secret. */
  ghost predicate KeepsSecrets(before: Disk, after: Disk) {
    forall x :: Owns(Shown(before.file).instances, x) && Owns(Shown(after.file).instances, x) ==>
      x in before.vault && x in after.vault && after.vault[x] == before.vault[x]
  }

  datatype Request =
    | Onboarding(entry: Entry, secret: Secret)
    | Updating(edit: Edit)
    | Removing(removal: Removal)
    | Selecting(id: string, expected: string)
    | Reconciling

  /** What a request does, as the methods of `RemoteInstancesApp.App` promise it. */
  ghost predicate Effect(rules: Rules, request: Request, before: Disk, reply: Reply, after: Disk) {
    match request
    case Onboarding(entry, secret) => Onboarded(rules, before, entry, secret, reply, after)
    case Updating(edit) => Updated(rules, before, edit, reply, after)
    case Removing(removal) => Removed(rules, before, removal, reply, after)
    case Selecting(id, expected) => Selected(rules, before, id, expected, reply, after)
    case Reconciling => Reconciled(rules, before, reply, after)
  }

  lemma ShownAsHeld(after: Disk, r: Registry)
    requires Holds(after, r)
    ensures Shown(after.file) == Normal(r) && (IsNormal(r) ==> Shown(after.file) == r)
  {
  }

  lemma OnboardKeeps(rules: Rules, before: Disk, entry: Entry, secret: Secret, reply: Reply, after: Disk)
    requires Consistent(rules, before) && Onboarded(rules, before, entry, secret, reply, after)
    ensures Consistent(rules, after) && KeepsSecrets(before, after)
  {
    var r, e := Shown(before.file), NormalEntry(entry);
    if !UnchangedDisk(before, after) {
      AcceptedRefIsNew(rules, r, e, secret);
      CommitFacts(rules, before.file, r, e, secret);
      var next := r.(instances := r.instances + [e], selected := e.id);
      if Holds(after, next) {
        assert Shown(after.file) == next;
        OwnsOneMore(r.instances, e);
      }
    }
  }

  lemma OwnsOneMore(entries: seq<Entry>, e: Entry)
    ensures forall x :: Owns(entries + [e], x) <==> Owns(entries, x) || x == e.ref
  {
    Extend(entries + [e], |entries|);
    assert (entries + [e])[..|entries|] == entries && (entries + [e])[..|entries| + 1] == entries + [e];
  }

  lemma UpdateKeeps(rules: Rules, before: Disk, edit: Edit, reply: Reply, after: Disk)
    requires Consistent(rules, before) && Updated(rules, before, edit, reply, after)
    ensures Consistent(rules, after) && KeepsSecrets(before, after)
    ensures Succeeded(reply) ==> !EditAccepted(Shown(after.file), edit)
  {
    if !UnchangedDisk(before, after) || Succeeded(reply) {
      var i :| UpdatedAt(rules, before, edit, i, reply, after);
      UpdateAtKeeps(rules, before, edit, i, reply, after);
    }
  }

  lemma UpdateAtKeeps(rules: Rules, before: Disk, edit: Edit, i: int, reply: Reply, after: Disk)
    requires Consistent(rules, before) && UpdatedAt(rules, before, edit, i, reply, after)
    ensures Consistent(rules, after) && KeepsSecrets(before, after)
    ensures !EditAccepted(Shown(after.file), edit)
  {
    var r := Shown(before.file);
    EditedEntries(rules, r, i, edit);
    assert Shown(after.file) == EditedRegistry(rules, r, i, edit);
    EditIsSpent(EditedRegistry(rules, r, i, edit), i, edit);
  }

  /** An edited registry is normal, owns the same references, and its edited entry has another revision. */
  lemma EditedEntries(rules: Rules, r: Registry, i: nat, edit: Edit)
    requires i < |r.instances| && EditMatches(r.instances[i], edit)
    ensures var next := EditedRegistry(rules, r, i, edit);
            && Normal(next) == next && next.pending == r.pending
            && (forall x :: Owns(r.instances, x) <==> Owns(next.instances, x))
            && next.instances[i].id == edit.id && next.instances[i].revision != edit.expectedRevision
  {
    var edited := r.(instances := r.instances[i := Edited(rules, r.instances[i], edit)]);
    NormalIsIdempotent(edited);
    NormalIsIdempotent(Normal(edited));
    SameRefs(r.instances, Normal(edited).instances);
  }

  /** Some entry has the id, the reference and the revision that the edit expects. */
  ghost predicate EditAccepted(r: Registry, edit: Edit) {
    exists i :: 0 <= i < |r.instances| && EditMatches(r.instances[i], edit)
  }

  lemma EditIsSpent(r: Registry, i: nat, edit: Edit)
    requires i < |r.instances| && DistinctEntries(r.instances) && r.instances[i].id == edit.id
    requires r.instances[i].revision != edit.expectedRevision
    ensures !EditAccepted(r, edit)
  {
  }

  lemma SameRefs(a: seq<Entry>, b: seq<Entry>)
    requires |a| == |b| && forall k :: 0 <= k < |a| ==> a[k].ref == b[k].ref
    ensures forall x :: Owns(a, x) <==> Owns(b, x)
  {
  }

  lemma RemoveKeeps(rules: Rules, before: Disk, removal: Removal, reply: Reply, after: Disk)
    requires Consistent(rules, before) && Removed(rules, before, removal, reply, after)
    ensures Consistent(rules, after) && KeepsSecrets(before, after)
  {
    if !UnchangedDisk(before, after) {
      var i :| RemovedAt(before, removal, i, reply, after);
      RemoveAtKeeps(rules, before, removal, i, reply, after);
    }
  }

  lemma RemoveAtKeeps(rules: Rules, before: Disk, removal: Removal, i: int, reply: Reply, after: Disk)
    requires Consistent(rules, before) && RemovedAt(before, removal, i, reply, after)
    ensures Consistent(rules, after) && KeepsSecrets(before, after)
  {
    var r := Shown(before.file);
    var next, ref := Detached(r, i), r.instances[i].ref;
    DetachedIsNormal(before.file, i);
    DetachedIsValid(rules, r, i);
    WithoutKeepsOthers(r.instances, i);
    RemoveRefElements(next.pending, ref);
    assert Shown(after.file) == next || Shown(after.file) == next.(pending := RemoveRef(next.pending, ref));
  }

  lemma SelectKeeps(rules: Rules, before: Disk, id: string, expected: string, reply: Reply, after: Disk)
    requires Consistent(rules, before) && Selected(rules, before, id, expected, reply, after)
    ensures Consistent(rules, after) && KeepsSecrets(before, after)
  {
    var r := Shown(before.file);
    if !UnchangedDisk(before, after) {
      NormalOfShown(before.file);
      ShownAsHeld(after, r.(selected := id));
    }
  }

  /** After a cleanup that reports no failure the vault holds the instances' secrets and nothing else. */
  lemma ReconcileKeeps(rules: Rules, before: Disk, reply: Reply, after: Disk)
    requires Consistent(rules, before) && Reconciled(rules, before, reply, after)
    ensures Consistent(rules, after) && KeepsSecrets(before, after)
    ensures Succeeded(reply) ==>
              && Shown(after.file).pending == []
              && forall x :: x in after.vault <==> Owns(Shown(after.file).instances, x)
    ensures Shown(after.file).instances == Shown(before.file).instances
  {
    var r, s := Shown(before.file), Shown(after.file);
    if !UnchangedDisk(before, after) || Succeeded(reply) {
      CleanedIsValid(rules, before.file, s.pending);
      assert s == r.(pending := s.pending);
    }
  }

  lemma EffectKeeps(rules: Rules, request: Request, before: Disk, reply: Reply, after: Disk)
    requires Consistent(rules, before) && Effect(rules, request, before, reply, after)
    ensures Consistent(rules, after) && KeepsSecrets(before, after)
  {
    match request
    case Onboarding(entry, secret) => OnboardKeeps(rules, before, entry, secret, reply, after);
    case Updating(edit) => UpdateKeeps(rules, before, edit, reply, after);
    case Removing(removal) => RemoveKeeps(rules, before, removal, reply, after);
    case Selecting(id, expected) => SelectKeeps(rules, before, id, expected, reply, after);
    case Reconciling => ReconcileKeeps(rules, before, reply, after);
  }

  // ---------------------------------------------------------------- runs

  datatype Event = Event(request: Request, reply: Reply)

  /** Requests served one after another, restarts between them included, from an empty vault. */
  ghost predicate Run(rules: Rules, disks: seq<Disk>, events: seq<Event>) {
    && |disks| == |events| + 1 && disks[0] == Disk(Missing, map[])
    && forall i :: 0 <= i < |events| ==> Effect(rules, events[i].request, disks[i], events[i].reply, disks[i + 1])
  }

  lemma {:induction false} EveryDiskIsConsistent(rules: Rules, disks: seq<Disk>, events: seq<Event>, n: nat)
    requires Run(rules, disks, events) && n < |disks|
    ensures Consistent(rules, disks[n])
  {
    if n > 0 {
      EveryDiskIsConsistent(rules, disks, events, n - 1);
      EffectKeeps(rules, events[n - 1].request, disks[n - 1], events[n - 1].reply, disks[n - 1 + 1]);
    }
  }

  /** What any run ever stores: at most 128 instances with ids and references of their own, each complete, and a
      selection that exists. */
  lemma StoredRegistryIsSound(rules: Rules, disks: seq<Disk>, events: seq<Event>, n: nat)
    requires Run(rules, disks, events) && n < |disks| && rules.trim("") == ""
    ensures var r := Shown(disks[n].file);
            && |r.instances| <= 128
            && (r.selected != "" ==> exists i :: 0 <= i < |r.instances| && r.instances[i].id == r.selected)
            && (forall i, j :: 0 <= i < j < |r.instances| ==>
                  r.instances[i].id != r.instances[j].id && r.instances[i].ref != r.instances[j].ref)
            && (forall i, k :: 0 <= i < |r.instances| && 0 <= k < |r.pending| ==> r.instances[i].ref != r.pending[k])
    ensures forall i :: 0 <= i < |Shown(disks[n].file).instances| ==>
              var e := Shown(disks[n].file).instances[i];
              && 0 < |e.id| <= 128 && 0 < |e.title| <= 96 && e.revision > 0
              && rules.refOk(e.ref) && rules.endpointOk(e.url) && e.source == "api-endpoint-key"
              && e.state in {"offline", "connecting", "online", "failed"}
  {
    EveryDiskIsConsistent(rules, disks, events, n);
    var r := Shown(disks[n].file);
    forall i, k | 0 <= i < |r.instances| && 0 <= k < |r.pending| ensures r.instances[i].ref != r.pending[k] {
      assert r.pending[k] in r.pending;
    }
    forall i | 0 <= i < |r.instances| ensures 0 < |r.instances[i].id| <= 128 && 0 < |r.instances[i].title| <= 96 {
      assert EntryOk(rules, r.instances[i]);
    }
  }

  /** Both disks hold the same secret under this reference. */
  ghost predicate SameSecret(before: Disk, after: Disk, ref: Ref) {
    ref in before.vault && ref in after.vault && after.vault[ref] == before.vault[ref]
  }

  lemma EffectKeepsSecret(rules: Rules, event: Event, before: Disk, after: Disk, ref: Ref)
    requires Consistent(rules, before) && Effect(rules, event.request, before, event.reply, after)
    requires Owns(Shown(before.file).instances, ref) && Owns(Shown(after.file).instances, ref)
    ensures SameSecret(before, after, ref)
  {
    EffectKeeps(rules, event.request, before, event.reply, after);
  }

  lemma StepKeepsSecret(rules: Rules, disks: seq<Disk>, events: seq<Event>, k: nat, ref: Ref)
    requires Run(rules, disks, events) && k < |events|
    requires Owns(Shown(disks[k].file).instances, ref) && Owns(Shown(disks[k + 1].file).instances, ref)
    ensures SameSecret(disks[k], disks[k + 1], ref)
  {
    EveryDiskIsConsistent(rules, disks, events, k);
    EffectKeepsSecret(rules, events[k], disks[k], disks[k + 1], ref);
  }

  lemma {:induction false} SecretKeptAlong(disks: seq<Disk>, i: nat, j: nat, ref: Ref)
    requires i <= j < |disks| && ref in disks[i].vault
    requires forall k :: i <= k < j ==> SameSecret(disks[k], disks[k + 1], ref)
    ensures SameSecret(disks[i], disks[j], ref)
  {
    if i < j {
      SecretKeptAlong(disks, i, j - 1, ref);
      assert SameSecret(disks[j - 1], disks[j - 1 + 1], ref);
    }
  }

  /** While an instance stays registered, nothing changes its secret. */
  lemma SecretOutlastsOtherRequests(rules: Rules, disks: seq<Disk>, events: seq<Event>, i: nat, j: nat, ref: Ref)
    requires Run(rules, disks, events) && i <= j < |disks|
    requires forall k :: i <= k <= j ==> Owns(Shown(disks[k].file).instances, ref)
    ensures ref in disks[i].vault && ref in disks[j].vault && disks[j].vault[ref] == disks[i].vault[ref]
  {
    forall k | i <= k < j ensures SameSecret(disks[k], disks[k + 1], ref) {
      StepKeepsSecret(rules, disks, events, k, ref);
    }
    RegisteredHasSecret(rules, disks, events, i, ref);
    SecretKeptAlong(disks, i, j, ref);
  }

  lemma RegisteredHasSecret(rules: Rules, disks: seq<Disk>, events: seq<Event>, i: nat, ref: Ref)
    requires Run(rules, disks, events) && i < |disks| && Owns(Shown(disks[i].file).instances, ref)
    ensures ref in disks[i].vault
  {
    EveryDiskIsConsistent(rules, disks, events, i);
  }
}
