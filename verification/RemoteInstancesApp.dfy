/** The requests on the registry file and the credential vault, step by step. */
module RemoteInstancesApp {
  import opened Outcomes
  import opened RemoteInstances

  /** What one input or output does. A vault call that fails, or during which the process ends, may or
      may not have taken effect; a registry write is a rename, so one that fails did not. */
  datatype Fault = Works | Fails(took: bool) | Dies(took: bool)
  datatype Io = Went | Failed | Gone

  /** What call number `i` from now meets; when the list is used up, everything works. */
  function FaultAt(faults: seq<Fault>, i: nat): Fault {
    if i < |faults| then faults[i] else Works
  }

  function Later(faults: seq<Fault>, n: nat): seq<Fault> {
    if n <= |faults| then faults[n..] else []
  }

  function EffectOf(fault: Fault): Io {
    match fault
    case Works => Went
    case Fails(_) => Failed
    case Dies(_) => Gone
  }

  /** Call number `n` from now fails and all others work. */
  ghost predicate OnlyFails(faults: seq<Fault>, n: nat) {
    n < |faults| && faults[n].Fails? && forall i :: 0 <= i < |faults| && i != n ==> faults[i].Works?
  }

  lemma LaterAgain(faults: seq<Fault>, n: nat)
    ensures Later(Later(faults, n), 1) == Later(faults, n + 1)
    ensures FaultAt(Later(faults, n), 0) == FaultAt(faults, n)
  {
  }

  method AppendUniqueRef(refs: seq<Ref>, ref: Ref) returns (result: seq<Ref>)
    ensures result == AppendUnique(refs, ref)
  {
    for i := 0 to |refs|
      invariant ref !in refs[..i]
    {
      if refs[i] == ref {
        return refs;
      }
    }
    assert refs[..|refs|] == refs;
    result := refs + [ref];
  }

  method RemoveCredentialRef(refs: seq<Ref>, ref: Ref) returns (result: seq<Ref>)
    ensures result == RemoveRef(refs, ref)
  {
    result := [];
    for i := 0 to |refs|
      invariant result == RemoveRef(refs[..i], ref)
    {
      assert refs[..i + 1] == refs[..i] + [refs[i]];
      RemoveRefSplits(refs[..i], [refs[i]], ref);
      if refs[i] != ref {
        result := result + [refs[i]];
      }
    }
    assert refs[..|refs|] == refs;
  }

  /** The validator's loops, with the sets of ids and references seen so far. */
  method Validate(rules: Rules, r: Registry) returns (ok: bool)
    ensures ok <==> Valid(rules, r)
  {
    if |r.instances| > 128 {
      return false;
    }
    var owned: set<Ref>, seen: set<string> := {}, {};
    for i := 0 to |r.pending|
      invariant forall k :: 0 <= k < i ==> rules.refOk(r.pending[k])
      invariant Distinct(r.pending[..i])
      invariant forall x :: x in owned <==> x in r.pending[..i]
    {
      if !rules.refOk(r.pending[i]) {
        return false;
      }
      if r.pending[i] in owned {
        ghost var j :| 0 <= j < i && r.pending[..i][j] == r.pending[i];
        return false;
      }
      assert r.pending[..i + 1] == r.pending[..i] + [r.pending[i]];
      owned := owned + {r.pending[i]};
    }
    assert r.pending[..|r.pending|] == r.pending;
    ok := ValidateInstances(rules, r, owned);
  }

  method ValidateInstances(rules: Rules, r: Registry, tombstones: set<Ref>) returns (ok: bool)
    requires forall x :: x in tombstones <==> x in r.pending
    ensures ok <==>
              && (forall i :: 0 <= i < |r.instances| ==> EntryOk(rules, r.instances[i]))
              && DistinctEntries(r.instances) && Disjoint(r.pending, r.instances)
              && (r.selected != "" ==> HasId(r.instances, r.selected))
  {
    var owned, seen: set<string> := tombstones, {};
    for i := 0 to |r.instances|
      invariant Seen(rules, r.instances[..i], tombstones, owned, seen)
    {
      var e := r.instances[i];
      if !EntryOk(rules, e) || e.id in seen || e.ref in owned {
        Refuses(rules, r.instances, i, tombstones, owned, seen);
        return false;
      }
      SeenGrows(rules, r.instances[..i], e, tombstones, owned, seen);
      assert r.instances[..i + 1] == r.instances[..i] + [e];
      seen, owned := seen + {e.id}, owned + {e.ref};
    }
    assert r.instances[..|r.instances|] == r.instances;
    ok := r.selected == "" || r.selected in seen;
  }

  /** The entries so far pass, and these are their ids and, with the tombstones, their references. */
  ghost predicate Seen(rules: Rules, entries: seq<Entry>, tombstones: set<Ref>, owned: set<Ref>, seen: set<string>) {
    && (forall k :: 0 <= k < |entries| ==> EntryOk(rules, entries[k]) && entries[k].ref !in tombstones)
    && DistinctEntries(entries)
    && (forall x :: x in seen <==> HasId(entries, x))
    && (forall x :: x in owned <==> x in tombstones || Owns(entries, x))
  }

  lemma Refuses(rules: Rules, entries: seq<Entry>, i: nat, tombstones: set<Ref>, owned: set<Ref>, seen: set<string>)
    requires i < |entries| && Seen(rules, entries[..i], tombstones, owned, seen)
    requires !EntryOk(rules, entries[i]) || entries[i].id in seen || entries[i].ref in owned
    ensures !EntryOk(rules, entries[i]) || !DistinctEntries(entries) ||
            (entries[i].ref in tombstones && Owns(entries, entries[i].ref))
  {
  }

  lemma SeenGrows(rules: Rules, entries: seq<Entry>, e: Entry, tombstones: set<Ref>, owned: set<Ref>, seen: set<string>)
    requires Seen(rules, entries, tombstones, owned, seen) && EntryOk(rules, e) && e.id !in seen && e.ref !in owned
    ensures Seen(rules, entries + [e], tombstones, owned + {e.ref}, seen + {e.id})
  {
    var more := entries + [e];
    assert (forall x :: HasId(more, x) <==> HasId(entries, x) || x == e.id) &&
           (forall x :: Owns(more, x) <==> Owns(entries, x) || x == e.ref) by {
      Extend(more, |entries|);
      assert more[..|entries|] == entries && more[..|more|] == more;
    }
    assert !HasId(entries, e.id) && !Owns(entries, e.ref);
    DistinctGrows(entries, e);
  }

  lemma DistinctGrows(entries: seq<Entry>, e: Entry)
    requires DistinctEntries(entries) && !HasId(entries, e.id) && !Owns(entries, e.ref)
    ensures DistinctEntries(entries + [e])
  {
  }

  /** What one more entry adds to the ids and references seen. */
  lemma Extend(entries: seq<Entry>, i: nat)
    requires i < |entries|
    ensures forall x :: HasId(entries[..i + 1], x) <==> HasId(entries[..i], x) || x == entries[i].id
    ensures forall x :: Owns(entries[..i + 1], x) <==> Owns(entries[..i], x) || x == entries[i].ref
    ensures Owns(entries, entries[i].ref)
    ensures HasId(entries[..i], entries[i].id) || Owns(entries[..i], entries[i].ref) ==> !DistinctEntries(entries)
  {
    var more := entries[..i + 1];
    assert more[i] == entries[i] && forall k :: 0 <= k < i ==> more[k] == entries[..i][k];
    forall x ensures HasId(more, x) <==> HasId(entries[..i], x) || x == entries[i].id {
      if x == entries[i].id {
        assert more[i].id == x;
      }
    }
    forall x ensures Owns(more, x) <==> Owns(entries[..i], x) || x == entries[i].ref {
      if x == entries[i].ref {
        assert more[i].ref == x;
      }
    }
  }

  function Aborted(io: Io, problem: Problem, r: Registry): Reply {
    if io.Gone? then Died else Reply(r, Some(problem))
  }

  /** The position of the first entry with this id, or the number of entries. */
  method Find(entries: seq<Entry>, id: string) returns (index: nat)
    ensures index <= |entries| && (index < |entries| ==> entries[index].id == id)
    ensures index < |entries| <==> HasId(entries, id)
  {
    index := 0;
    while index < |entries| && entries[index].id != id
      invariant index <= |entries| && forall k :: 0 <= k < index ==> entries[k].id != id
    {
      index := index + 1;
    }
  }

  /** The entry an edit is for, if it still has the reference and revision the edit expects. */
  method FindExpected(entries: seq<Entry>, edit: Edit) returns (index: nat, refusal: Problem)
    requires DistinctEntries(entries)
    ensures index <= |entries| && (index < |entries| ==> EditMatches(entries[index], edit))
    ensures forall i :: 0 <= i < |entries| && EditMatches(entries[i], edit) ==> i == index
    ensures index == |entries| ==> refusal == if HasId(entries, edit.id) then Changed else DoesNotExist
  {
    index := Find(entries, edit.id);
    refusal := DoesNotExist;
    if index < |entries| && !Expects(entries[index], edit.expectedRef, edit.expectedRevision) {
      index, refusal := |entries|, Changed;
    }
  }

  class App {
    const rules: Rules
    var file: File
    var vault: map<Ref, Secret>
    var faults: seq<Fault>

    constructor (rules: Rules, faults: seq<Fault>)
      ensures this.rules == rules && Now() == Disk(Missing, map[])
    {
      this.rules, this.faults := rules, faults;
      file, vault := Missing, map[];
    }

    ghost function Now(): Disk
      reads this
    {
      Disk(file, vault)
    }

    ghost predicate Healthy()
      reads this
    {
      forall i :: 0 <= i < |faults| ==> faults[i].Works?
    }

    /** No call ends the process. */
    ghost predicate NobodyDies()
      reads this
    {
      forall i :: 0 <= i < |faults| ==> !faults[i].Dies?
    }

    method Draw() returns (fault: Fault)
      modifies this`faults
      ensures old(Healthy()) ==> fault.Works? && Healthy()
      ensures fault == FaultAt(old(faults), 0) && faults == Later(old(faults), 1)
    {
      if faults == [] {
        return Works;
      }
      fault, faults := faults[0], faults[1..];
    }

    method Load() returns (io: Io, problem: Problem, r: Registry)
      modifies this`faults
      ensures io.Went? ==> Readable(rules, file) && r == Shown(file)
      ensures old(Healthy()) ==> Healthy() && (io.Went? <==> Readable(rules, file)) && !io.Gone?
      ensures faults == Later(old(faults), 1)
      ensures Readable(rules, file) ==> io == EffectOf(FaultAt(old(faults), 0))
    {
      var fault := Draw();
      r := Empty();
      if !fault.Works? {
        return if fault.Dies? then Gone else Failed, CannotRead, r;
      }
      if file.Unreadable? {
        return Failed, Unparsable, r;
      }
      if file.Stored? {
        r := Normal(file.registry);
      }
      var ok := Validate(rules, r);
      io := if ok then Went else Failed;
      problem := Invalid;
    }

    method Save(r: Registry) returns (io: Io, problem: Problem, saved: Registry)
      modifies this`file, this`faults
      ensures saved == Normal(r)
      ensures io.Went? ==> Valid(rules, saved) && file == Stored(saved)
      ensures io.Failed? ==> file == old(file)
      ensures io.Gone? ==> file == old(file) || (Valid(rules, saved) && file == Stored(saved))
      ensures old(Healthy()) ==> Healthy() && !io.Gone? && (io.Went? <==> Valid(rules, saved))
      ensures Valid(rules, saved) ==> io == EffectOf(FaultAt(old(faults), 0)) && faults == Later(old(faults), 1)
    {
      saved, problem := Normal(r), Invalid;
      var ok := Validate(rules, saved);
      if !ok {
        return Failed, problem, saved;
      }
      problem := CannotWrite;
      var fault := Draw();
      match fault
      case Works =>
        file, io := Stored(saved), Went;
      case Fails(_) =>
        io := Failed;
      case Dies(took) =>
        io := Gone;
        if took {
          file := Stored(saved);
        }
    }

    method StoreCredential(ref: Ref, secret: Secret) returns (io: Io)
      modifies this`vault, this`faults
      ensures io.Went? ==> vault == old(vault)[ref := secret]
      ensures vault == old(vault) || vault == old(vault)[ref := secret]
      ensures old(Healthy()) ==> Healthy() && (io.Went? <==> rules.refOk(ref) && rules.trim(secret) != "") && !io.Gone?
      ensures rules.refOk(ref) && rules.trim(secret) != "" ==>
                io == EffectOf(FaultAt(old(faults), 0)) && faults == Later(old(faults), 1)
    {
      if !rules.refOk(ref) || rules.trim(secret) == "" {
        return Failed;
      }
      var fault := Draw();
      if fault.Works? || fault.took {
        vault := vault[ref := secret];
      }
      io := if fault.Works? then Went else if fault.Fails? then Failed else Gone;
    }

    /** Deleting a credential that is not there succeeds. */
    method DeleteCredential(ref: Ref) returns (io: Io)
      modifies this`vault, this`faults
      ensures io.Went? ==> vault == old(vault) - {ref}
      ensures vault == old(vault) || vault == old(vault) - {ref}
      ensures old(Healthy()) ==> Healthy() && (io.Went? <==> rules.refOk(ref)) && !io.Gone?
      ensures rules.refOk(ref) ==> io == EffectOf(FaultAt(old(faults), 0)) && faults == Later(old(faults), 1)
    {
      if !rules.refOk(ref) {
        return Failed;
      }
      var fault := Draw();
      if fault.Works? || fault.took {
        vault := vault - {ref};
      }
      io := if fault.Works? then Went else if fault.Fails? then Failed else Gone;
    }

    method Select(id: string, expected: string) returns (reply: Reply)
      modifies this
      ensures Selected(rules, old(Now()), id, expected, reply, Now())
      ensures Succeeded(reply) ==> reply.registry == Shown(file) == old(Shown(file)).(selected := id)
      ensures Succeeded(reply) ==> old(Shown(file)).selected == expected && vault == old(vault)
      ensures old(Healthy()) && old(Readable(rules, file)) && SelectionAccepted(old(Shown(file)), id, expected) ==>
                Succeeded(reply)
    {
      var io, problem, r := Load();
      if io != Went {
        return Aborted(io, problem, Empty());
      }
      if r.selected != expected {
        return Reply(Empty(), Some(Changed));
      }
      if id != "" {
        var found := Find(r.instances, id);
        if found == |r.instances| {
          return Reply(Empty(), Some(DoesNotExist));
        }
      }
      NormalOfShown(file);
      NormalIsIdempotent(r.(selected := id));
      io, problem, r := Save(r.(selected := id));
      reply := if io.Went? then Reply(r, None) else Aborted(io, problem, Empty());
    }

    method Onboard(entry: Entry, secret: Secret) returns (reply: Reply)
      modifies this
      ensures Onboarded(rules, old(Now()), entry, secret, reply, Now())
      ensures Succeeded(reply) ==> reply.registry == Shown(file)
      ensures Succeeded(reply) ==>
                var e := entry.(revision := if entry.revision == 0 then 1 else entry.revision);
                && Shown(file) == Registry(e.id, old(Shown(file)).instances + [e], old(Shown(file)).pending)
                && vault == old(vault)[entry.ref := secret]
      ensures old(Readable(rules, file)) && OnboardAccepted(rules, old(Shown(file)), NormalEntry(entry), secret) &&
              OnlyFails(old(faults), 3)
              ==> !Succeeded(reply) && Shown(file) == old(Shown(file)) && vault == old(vault) - {entry.ref}
      ensures old(Healthy()) && old(Readable(rules, file)) &&
              OnboardAccepted(rules, old(Shown(file)), NormalEntry(entry), secret)
              ==> Succeeded(reply)
    {
      var io, problem, r := Load();
      if io != Went {
        return Aborted(io, problem, Empty());
      }
      var e := NormalEntry(entry);
      var alone := Validate(rules, Registry("", [e], []));
      if !alone {
        return Reply(r, Some(Invalid));
      }
      assert EntryOk(rules, Registry("", [e], []).instances[0]);
      var found := Find(r.instances, e.id);
      if found < |r.instances| {
        return Reply(r, Some(AlreadyExists));
      }
      var fits := Validate(rules, r.(instances := r.instances + [e]));
      if !fits {
        return Reply(r, Some(Invalid));
      }
      if rules.trim(secret) == "" {
        return Reply(r, Some(NoSecret));
      }
      assert OnlyFails(old(faults), 3) ==> OnlyFails(faults, 2);
      reply := Commit(r, e, secret);
    }

    /** The writes of an onboarding: a tombstone first, then the secret, then the instance. */
    method Commit(r: Registry, e: Entry, secret: Secret) returns (reply: Reply)
      requires Readable(rules, file) && r == Shown(file) && OnboardAccepted(rules, r, e, secret) && NormalEntry(e) == e
      modifies this
      ensures Onboarded(rules, old(Now()), e, secret, reply, Now())
      ensures Succeeded(reply) ==> reply.registry == Shown(file)
      ensures old(Healthy()) ==> Succeeded(reply)
      ensures OnlyFails(old(faults), 2) ==>
                !Succeeded(reply) && Shown(file) == r && vault == old(vault) - {e.ref}
    {
      var refs := AppendUniqueRef(r.pending, e.ref);
      var pending := r.(pending := refs);
      CommitFacts(rules, file, r, e, secret);
      assert vault[e.ref := secret] - {e.ref} == vault - {e.ref};
      var io, problem, saved := Save(pending);
      if io != Went {
        return Aborted(io, problem, r);
      }
      io := StoreCredential(e.ref, secret);
      if io != Went {
        return Aborted(io, VaultFailed, pending);
      }
      refs := RemoveCredentialRef(pending.pending, e.ref);
      var next := pending.(pending := refs, instances := pending.instances + [e], selected := e.id);
      var commit: Problem;
      io, commit, saved := Save(next);
      if io.Went? {
        return Reply(saved, None);
      }
      if io.Gone? {
        return Died;
      }
      io := DeleteCredential(e.ref);
      if io.Went? {
        refs := RemoveCredentialRef(pending.pending, e.ref);
        io, problem, saved := Save(pending.(pending := refs));
        if io.Went? {
          return Reply(saved, Some(commit));
        }
      }
      reply := if io.Gone? then Died else Reply(pending, Some(commit));
    }

    method Update(edit: Edit) returns (reply: Reply)
      modifies this
      ensures Updated(rules, old(Now()), edit, reply, Now())
      ensures Succeeded(reply) ==> reply.registry == Shown(file)
      ensures Succeeded(reply) ==> Renewed(rules, old(Shown(file)), Shown(file), edit) && vault == old(vault)
      ensures Succeeded(reply) ==> Editable(rules, old(Shown(file)), edit)
      ensures old(Healthy()) && old(Readable(rules, file)) && Editable(rules, old(Shown(file)), edit) ==>
                Succeeded(reply)
    {
      if Readable(rules, file) {
        NormalOfShown(file);
        EditableExactlyWhen(rules, Shown(file), edit);
      }
      var io, problem, r := Load();
      if io != Went {
        return Aborted(io, problem, Empty());
      }
      var index, refusal := FindExpected(r.instances, edit);
      if index == |r.instances| {
        return Reply(Empty(), Some(refusal));
      }
      reply := SaveEdit(r, index, edit);
    }

    method SaveEdit(r: Registry, index: nat, edit: Edit) returns (reply: Reply)
      requires Readable(rules, file) && r == Shown(file) && index < |r.instances| &&
               EditMatches(r.instances[index], edit)
      modifies this
      ensures Updated(rules, old(Now()), edit, reply, Now())
      ensures Succeeded(reply) ==> reply.registry == Shown(file) && UpdateAccepted(rules, r, edit)
      ensures Succeeded(reply) ==> Renewed(rules, r, Shown(file), edit) && vault == old(vault)
      ensures old(Healthy()) && Valid(rules, EditedRegistry(rules, r, index, edit)) ==> Succeeded(reply)
    {
      NormalOfShown(file);
      EditedIsRenewed(rules, r, index, edit);
      var next := r.(instances := r.instances[index := Edited(rules, r.instances[index], edit)]);
      NormalIsIdempotent(next);
      var io, problem, saved := Save(next);
      reply := if io.Went? then Reply(saved, None) else Aborted(io, problem, Empty());
      assert file == old(file) || UpdatedAt(rules, old(Now()), edit, index, reply, Now());
    }

    /** The instance goes first, leaving a tombstone; then the secret, then the tombstone. */
    method Remove(removal: Removal) returns (reply: Reply)
      modifies this
      ensures Removed(rules, old(Now()), removal, reply, Now())
      ensures Succeeded(reply) ==> reply.registry == Shown(file)
      ensures Succeeded(reply) ==> Removable(old(Shown(file)), removal)
      ensures Succeeded(reply) ==> Dismissed(old(Shown(file)), Shown(file), removal, vault)
      ensures vault == old(vault) || vault == old(vault) - {removal.expectedRef}
      ensures old(Healthy()) && old(Readable(rules, file)) && Removable(old(Shown(file)), removal)
              ==> Succeeded(reply) && removal.expectedRef !in vault && removal.expectedRef !in Shown(file).pending
    {
      RemovableExactlyWhen(Shown(file), removal);
      var io, problem, r := Load();
      if io != Went {
        return Aborted(io, problem, Empty());
      }
      var index := Find(r.instances, removal.id);
      if index == |r.instances| {
        return Reply(Empty(), Some(DoesNotExist));
      }
      var entry := r.instances[index];
      if removal.title != entry.title {
        return Reply(Empty(), Some(NotConfirmed));
      }
      if !Expects(entry, removal.expectedRef, removal.expectedRevision) {
        return Reply(Empty(), Some(Changed));
      }
      reply := Detach(r, index, removal);
      RemovalMeans(rules, old(Now()), removal, reply, Now());
    }

    method Detach(r: Registry, index: nat, ghost removal: Removal) returns (reply: Reply)
      requires Readable(rules, file) && r == Shown(file) && index < |r.instances|
      requires RemovalMatches(r.instances[index], removal)
      modifies this
      ensures Removed(rules, old(Now()), removal, reply, Now())
      ensures Succeeded(reply) ==> reply.registry == Shown(file)
      ensures old(Healthy()) ==>
                Succeeded(reply) && removal.expectedRef !in vault && removal.expectedRef !in Shown(file).pending
    {
      var entry := r.instances[index];
      var refs := AppendUniqueRef(r.pending, entry.ref);
      var next := Registry(if r.selected == entry.id then "" else r.selected,
                           r.instances[..index] + r.instances[index + 1..], refs);
      DetachedIsNormal(file, index);
      DetachedIsValid(rules, r, index);
      var io, problem, saved := Save(next);
      if io != Went {
        reply := Aborted(io, problem, Empty());
        assert file == old(file) || RemovedAt(old(Now()), removal, index, reply, Now());
        return;
      }
      io := DeleteCredential(entry.ref);
      if io != Went {
        reply := if io.Gone? then Died else Reply(next, None);
        assert RemovedAt(old(Now()), removal, index, reply, Now());
        return;
      }
      refs := RemoveCredentialRef(next.pending, entry.ref);
      io, problem, saved := Save(next.(pending := refs));
      reply := if io.Went? then Reply(saved, None) else Aborted(io, StillPending, next);
      assert RemovedAt(old(Now()), removal, index, reply, Now());
    }

    /** Retries the deletion of every tombstoned credential. */
    method Reconcile() returns (reply: Reply)
      modifies this
      ensures Reconciled(rules, old(Now()), reply, Now())
      ensures Succeeded(reply) ==> reply.registry == Shown(file)
      ensures old(Healthy()) && old(Readable(rules, file)) ==> Succeeded(reply)
      ensures old(Readable(rules, file)) && old(NobodyDies()) && old(FaultAt(faults, 0)).Works? ==>
                forall i :: 0 <= i < |old(Shown(file)).pending| && old(FaultAt(faults, i + 1)).Works? ==>
                  old(Shown(file)).pending[i] !in vault
    {
      var io, problem, r := Load();
      if io != Went {
        return Aborted(io, problem, Empty());
      }
      assert forall i: nat :: FaultAt(faults, i) == FaultAt(old(faults), i + 1);
      assert old(NobodyDies()) ==> NobodyDies();
      var gone, remaining, failed := DeleteAll(r);
      if gone {
        CleaningStops(rules, old(Now()), |r.pending|, remaining, true, Now());
        return Died;
      }
      reply := Finish(r, remaining, failed, old(Now()));
    }

    /** Tries to delete every tombstoned credential; one that fails does not stop the others. */
    method DeleteAll(r: Registry) returns (gone: bool, remaining: seq<Ref>, failed: bool)
      requires Readable(rules, file) && r == Shown(file)
      modifies this`vault, this`faults
      ensures Cleaning(r, |r.pending|, remaining, failed || gone, old(vault), vault)
      ensures old(Healthy()) ==> Healthy() && !failed && !gone
      ensures old(NobodyDies()) ==>
                && !gone
                && forall i :: 0 <= i < |r.pending| && FaultAt(old(faults), i).Works? ==> r.pending[i] !in vault
    {
      gone, remaining, failed := false, r.pending, false;
      for i := 0 to |r.pending|
        invariant Cleaning(r, i, remaining, failed, old(vault), vault)
        invariant old(Healthy()) ==> Healthy() && !failed
        invariant faults == Later(old(faults), i)
        invariant forall k :: 0 <= k < i && FaultAt(old(faults), k).Works? ==> r.pending[k] !in vault
      {
        LaterAgain(old(faults), i);
        CleaningGoesOn(r, i, remaining, failed, old(vault), vault);
        var io := DeleteCredential(r.pending[i]);
        if io.Gone? {
          return true, remaining, failed;
        }
        if io.Failed? {
          failed := true;
        } else {
          remaining := RemoveCredentialRef(remaining, r.pending[i]);
        }
      }
    }

    method Finish(r: Registry, remaining: seq<Ref>, failed: bool, ghost before: Disk) returns (reply: Reply)
      requires file == before.file && Readable(rules, file) && r == Shown(file)
      requires Cleaning(r, |r.pending|, remaining, failed, before.vault, vault)
      modifies this
      ensures Reconciled(rules, before, reply, Now())
      ensures Succeeded(reply) ==> reply.registry == Shown(file)
      ensures old(Healthy()) && !failed ==> Succeeded(reply)
      ensures vault == old(vault)
    {
      CleaningStops(rules, before, |r.pending|, remaining, failed, Now());
      reply := if failed then Reply(r, Some(VaultFailed)) else Reply(r, None);
      if |remaining| != |r.pending| {
        CleanedIsValid(rules, file, remaining);
        var io, problem, saved := Save(r.(pending := remaining));
        if io != Went {
          return Aborted(io, problem, r);
        }
        reply := if failed then Reply(saved, Some(VaultFailed)) else Reply(saved, None);
      }
    }
  }

  /** The cleanup has tried the first `i` tombstones; `remaining` are those not known to be gone. */
  ghost predicate Cleaning(r: Registry, i: nat, remaining: seq<Ref>, failed: bool, before: map<Ref, Secret>,
                           vault: map<Ref, Secret>) {
    && i <= |r.pending|
    && (remaining == r.pending || |remaining| < |r.pending|)
    && Distinct(remaining) && (forall x :: x in remaining ==> x in r.pending)
    && (forall x :: x in vault ==> x in before && vault[x] == before[x])
    && (forall x :: x in before && x !in vault ==> x in r.pending)
    && (forall x :: x in r.pending && x !in remaining ==> x !in vault)
    && (!failed ==> forall k :: 0 <= k < i ==> r.pending[k] !in remaining)
  }

  lemma CleaningGoesOn(r: Registry, i: nat, remaining: seq<Ref>, failed: bool, before: map<Ref, Secret>,
                       vault: map<Ref, Secret>)
    requires Cleaning(r, i, remaining, failed, before, vault) && i < |r.pending|
    ensures var ref := r.pending[i];
            Cleaning(r, i + 1, RemoveRef(remaining, ref), failed, before, vault - {ref})
  {
    RemoveRefElements(remaining, r.pending[i]);
  }

  /** Wherever the loop stops, the vault has lost only tombstoned secrets. */
  lemma CleaningStops(rules: Rules, before: Disk, i: nat, remaining: seq<Ref>, failed: bool, now: Disk)
    requires Readable(rules, before.file) && now.file == before.file
    requires Cleaning(Shown(before.file), i, remaining, failed, before.vault, now.vault)
    ensures Reconciled(rules, before, Died, now)
    ensures !failed && i == |Shown(before.file).pending| ==> remaining == []
  {
    if remaining != [] {
      assert remaining[0] in remaining;
    }
  }

  lemma CleanedIsValid(rules: Rules, file: File, remaining: seq<Ref>)
    requires Readable(rules, file) && Distinct(remaining) && forall x :: x in remaining ==> x in Shown(file).pending
    ensures var r := Shown(file).(pending := remaining); Valid(rules, r) && Normal(r) == r
  {
    NormalOfShown(file);
    NormalIsIdempotent(Shown(file).(pending := remaining));
    forall k | 0 <= k < |remaining| ensures rules.refOk(remaining[k]) {
      assert remaining[k] in remaining;
    }
  }

  lemma NormalOfShown(file: File)
    ensures Normal(Shown(file)) == Shown(file) && IsNormal(Shown(file))
  {
  }

  lemma DetachedIsValid(rules: Rules, r: Registry, i: nat)
    requires Valid(rules, r) && i < |r.instances|
    ensures var next, ref := Detached(r, i), r.instances[i].ref;
            && Valid(rules, next) && Valid(rules, next.(pending := RemoveRef(next.pending, ref)))
            && ref in next.pending && ref !in RemoveRef(next.pending, ref)
  {
    var ref := r.instances[i].ref;
    WithoutKeepsOthers(r.instances, i);
    assert Owns(r.instances, ref);
    RemoveRefElements(r.pending + [ref], ref);
    forall k | 0 <= k < |RemoveRef(r.pending + [ref], ref)| ensures rules.refOk(RemoveRef(r.pending + [ref], ref)[k]) {
      assert RemoveRef(r.pending + [ref], ref)[k] in RemoveRef(r.pending + [ref], ref);
    }
  }

  lemma DetachedIsNormal(file: File, i: nat)
    requires i < |Shown(file).instances|
    ensures IsNormal(Detached(Shown(file), i)) && Normal(Detached(Shown(file), i)) == Detached(Shown(file), i)
    ensures forall pending :: Normal(Detached(Shown(file), i).(pending := pending)) ==
              Detached(Shown(file), i).(pending := pending)
  {
  }

  lemma RemovedAtMeans(rules: Rules, before: Disk, removal: Removal, i: nat, reply: Reply, after: Disk)
    requires Readable(rules, before.file) && RemovedAt(before, removal, i, reply, after)
    ensures Dismissed(Shown(before.file), Shown(after.file), removal, after.vault)
  {
    var r := Shown(before.file);
    DetachedIsNormal(before.file, i);
    DetachedIsDismissed(rules, r, i, removal, after.vault);
  }

  /** What a removal that succeeded has done. */
  lemma RemovalMeans(rules: Rules, before: Disk, removal: Removal, reply: Reply, after: Disk)
    requires Removed(rules, before, removal, reply, after)
    ensures Succeeded(reply) ==> Dismissed(Shown(before.file), Shown(after.file), removal, after.vault)
    ensures after.vault == before.vault || after.vault == before.vault - {removal.expectedRef}
  {
    if i :| RemovedAt(before, removal, i, reply, after) && Succeeded(reply) && Readable(rules, before.file) {
      RemovedAtMeans(rules, before, removal, i, reply, after);
    }
  }

  lemma CommitRefs(rules: Rules, r: Registry, e: Entry, secret: Secret)
    requires Valid(rules, r) && OnboardAccepted(rules, r, e, secret)
    ensures AppendUnique(r.pending, e.ref) == r.pending + [e.ref] && RemoveRef(r.pending + [e.ref], e.ref) == r.pending
    ensures Valid(rules, r.(pending := r.pending + [e.ref]))
    ensures Valid(rules, r.(instances := r.instances + [e], selected := e.id))
  {
    AcceptedRefIsNew(rules, r, e, secret);
    AppendedRefIsRemoved(r.pending, e.ref);
  }

  lemma CommitNormal(file: File, r: Registry, e: Entry)
    requires r == Shown(file) && NormalEntry(e) == e
    ensures Normal(r) == r && Normal(r.(pending := r.pending + [e.ref])) == r.(pending := r.pending + [e.ref])
    ensures var next := r.(instances := r.instances + [e], selected := e.id); Normal(next) == next
  {
    assert Normal(r) == r by {
      if file.Stored? {
        NormalIsIdempotent(file.registry);
      }
    }
    NormalIsIdempotent(r.(pending := r.pending + [e.ref]));
    NormalIsIdempotent(r.(instances := r.instances + [e], selected := e.id));
  }

  lemma CommitFacts(rules: Rules, file: File, r: Registry, e: Entry, secret: Secret)
    requires Readable(rules, file) && r == Shown(file) && OnboardAccepted(rules, r, e, secret) && NormalEntry(e) == e
    ensures var pending := r.(pending := r.pending + [e.ref]);
            var next := r.(instances := r.instances + [e], selected := e.id);
            && AppendUnique(r.pending, e.ref) == r.pending + [e.ref]
            && RemoveRef(r.pending + [e.ref], e.ref) == r.pending
            && Normal(pending) == pending && Normal(next) == next && Normal(r) == r
            && Valid(rules, pending) && Valid(rules, next)
  {
    CommitRefs(rules, r, e, secret);
    CommitNormal(file, r, e);
  }
}
