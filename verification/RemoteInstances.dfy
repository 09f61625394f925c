/**
 The registry of remote instances and its credential cleanup tombstones, as values, and what each
 request may do to the registry file and the credential vault when any input or output fails.
 */
module RemoteInstances {
  import opened Outcomes

  type Ref = string
  type Secret = string
  const REVISIONS: int := 0x1_0000_0000_0000_0000
  type Revision = r: int | 0 <= r < REVISIONS

  datatype Entry = Entry(id: string, title: string, url: string, ref: Ref, source: string,
                         state: string, revision: Revision)
  datatype Registry = Registry(selected: string, instances: seq<Entry>, pending: seq<Ref>)

  /** What text and URL parsing decide; everything below holds for every such choice. */
  datatype Rules = Rules(trim: string -> string, refOk: Ref -> bool, endpointOk: string -> bool)

  datatype File = Missing | Unreadable | Stored(registry: Registry)
  datatype Disk = Disk(file: File, vault: map<Ref, Secret>)

  datatype Problem =
    | CannotRead | Unparsable | Invalid | AlreadyExists | NoSecret | DoesNotExist | Changed
    | NotConfirmed | CannotWrite | VaultFailed | StillPending

  /** `Died`: the process ended during the request. */
  datatype Reply = Reply(registry: Registry, problem: Option<Problem>) | Died

  predicate Succeeded(reply: Reply) {
    reply.Reply? && reply.problem.None?
  }

  function Empty(): Registry {
    Registry("", [], [])
  }

  // ---------------------------------------------------------------- validity

  predicate EntryOk(rules: Rules, e: Entry) {
    && e.source == "api-endpoint-key"
    && e.state in ["offline", "connecting", "online", "failed"]
    && rules.trim(e.id) != "" && |e.id| <= 128 && rules.trim(e.title) != "" && |e.title| <= 96
    && rules.refOk(e.ref) && rules.endpointOk(e.url)
  }

  predicate Distinct(s: seq<string>) {
    forall i, j :: 0 <= i < j < |s| ==> s[i] != s[j]
  }

  predicate HasId(entries: seq<Entry>, id: string) {
    exists i :: 0 <= i < |entries| && entries[i].id == id
  }

  predicate Owns(entries: seq<Entry>, ref: Ref) {
    exists i :: 0 <= i < |entries| && entries[i].ref == ref
  }

  /** No two entries share an id or a credential reference. */
  predicate DistinctEntries(entries: seq<Entry>) {
    forall i, j :: 0 <= i < j < |entries| ==> entries[i].id != entries[j].id && entries[i].ref != entries[j].ref
  }

  predicate Disjoint(refs: seq<Ref>, entries: seq<Entry>) {
    forall ref :: ref in refs ==> !Owns(entries, ref)
  }

  predicate Valid(rules: Rules, r: Registry) {
    && |r.instances| <= 128
    && (forall i :: 0 <= i < |r.instances| ==> EntryOk(rules, r.instances[i]))
    && (forall i :: 0 <= i < |r.pending| ==> rules.refOk(r.pending[i]))
    && Distinct(r.pending) && DistinctEntries(r.instances) && Disjoint(r.pending, r.instances)
    && (r.selected != "" ==> HasId(r.instances, r.selected))
  }

  /** A revision of zero means one. */
  function NormalEntry(e: Entry): Entry {
    if e.revision == 0 then e.(revision := 1) else e
  }

  function Normal(r: Registry): (n: Registry)
    ensures n.selected == r.selected && n.pending == r.pending && |n.instances| == |r.instances|
    ensures forall i :: 0 <= i < |r.instances| ==> n.instances[i] == NormalEntry(r.instances[i])
  {
    r.(instances := seq(|r.instances|, i requires 0 <= i < |r.instances| => NormalEntry(r.instances[i])))
  }

  predicate IsNormal(r: Registry) {
    forall i :: 0 <= i < |r.instances| ==> r.instances[i].revision != 0
  }

  lemma NormalIsIdempotent(r: Registry)
    ensures IsNormal(Normal(r)) && (IsNormal(r) ==> Normal(r) == r)
  {
  }

  function Shown(file: File): Registry {
    if file.Stored? then Normal(file.registry) else Empty()
  }

  predicate Readable(rules: Rules, file: File) {
    !file.Unreadable? && Valid(rules, Shown(file))
  }

  // ---------------------------------------------------------------- tombstones

  function AppendUnique(refs: seq<Ref>, ref: Ref): seq<Ref> {
    if ref in refs then refs else refs + [ref]
  }

  function RemoveRef(refs: seq<Ref>, ref: Ref): seq<Ref> {
    if refs == [] then []
    else (if refs[0] == ref then [] else [refs[0]]) + RemoveRef(refs[1..], ref)
  }

  lemma DistinctCons(x: string, s: seq<string>)
    requires Distinct(s) && x !in s
    ensures Distinct([x] + s)
  {
  }

  lemma {:induction false} RemoveRefElements(refs: seq<Ref>, ref: Ref)
    ensures forall x :: x in RemoveRef(refs, ref) <==> x in refs && x != ref
    ensures |RemoveRef(refs, ref)| <= |refs|
    ensures ref !in refs ==> RemoveRef(refs, ref) == refs
    ensures ref in refs ==> |RemoveRef(refs, ref)| < |refs|
    ensures Distinct(refs) ==> Distinct(RemoveRef(refs, ref))
  {
    if refs != [] {
      var rest := RemoveRef(refs[1..], ref);
      RemoveRefElements(refs[1..], ref);
      assert refs == [refs[0]] + refs[1..];
      assert Distinct(refs) ==> Distinct(refs[1..]) && refs[0] !in refs[1..];
      if Distinct(refs) {
        DistinctCons(refs[0], rest);
      }
    }
  }

  lemma {:induction false} RemoveRefSplits(a: seq<Ref>, b: seq<Ref>, ref: Ref)
    ensures RemoveRef(a + b, ref) == RemoveRef(a, ref) + RemoveRef(b, ref)
  {
    if a == [] {
      assert a + b == b;
    } else {
      assert (a + b)[1..] == a[1..] + b;
      RemoveRefSplits(a[1..], b, ref);
    }
  }

  /** Clearing a tombstone just written gives back the tombstones before. */
  lemma AppendedRefIsRemoved(refs: seq<Ref>, ref: Ref)
    requires ref !in refs
    ensures RemoveRef(AppendUnique(refs, ref), ref) == refs
  {
    RemoveRefSplits(refs, [ref], ref);
    RemoveRefElements(refs, ref);
    RemoveRefElements([ref], ref);
  }

  // ---------------------------------------------------------------- what each request may do

  function Without(entries: seq<Entry>, i: nat): seq<Entry>
    requires i < |entries|
  {
    entries[..i] + entries[i + 1..]
  }

  /** Taking one entry out leaves the others, in order, and no trace of its id and reference. */
  lemma WithoutKeepsOthers(entries: seq<Entry>, i: nat)
    requires i < |entries| && DistinctEntries(entries)
    ensures DistinctEntries(Without(entries, i))
    ensures forall x :: HasId(Without(entries, i), x) <==> HasId(entries, x) && x != entries[i].id
    ensures forall x :: Owns(Without(entries, i), x) <==> Owns(entries, x) && x != entries[i].ref
    ensures forall e :: e in Without(entries, i) ==> e in entries
  {
    var rest := Without(entries, i);
    forall x ensures HasId(rest, x) <==> HasId(entries, x) && x != entries[i].id {
      if HasId(entries, x) && x != entries[i].id {
        var k :| 0 <= k < |entries| && entries[k].id == x;
        assert rest[if k < i then k else k - 1] == entries[k];
      }
    }
    forall x ensures Owns(rest, x) <==> Owns(entries, x) && x != entries[i].ref {
      if Owns(entries, x) && x != entries[i].ref {
        var k :| 0 <= k < |entries| && entries[k].ref == x;
        assert rest[if k < i then k else k - 1] == entries[k];
      }
    }
  }

  predicate UnchangedDisk(before: Disk, after: Disk) {
    Shown(after.file) == Shown(before.file) && (after.file.Unreadable? <==> before.file.Unreadable?) &&
    after.vault == before.vault
  }

  /** Stored as written; every save normalises. */
  predicate Holds(after: Disk, r: Registry) {
    after.file == Stored(Normal(r))
  }

  predicate OnboardAccepted(rules: Rules, r: Registry, entry: Entry, secret: Secret) {
    && !HasId(r.instances, entry.id) && rules.trim(secret) != ""
    && EntryOk(rules, entry) && Valid(rules, r.(instances := r.instances + [entry]))
  }

  /** A refused or failed onboarding leaves nothing, or a tombstone for whatever the vault may hold;
      only a committed one leaves the instance, and then its secret is in the vault. */
  ghost predicate Onboarded(rules: Rules, before: Disk, entry: Entry, secret: Secret, reply: Reply, after: Disk) {
    var r, e := Shown(before.file), NormalEntry(entry);
    var marked := r.(pending := r.pending + [e.ref]);
    || (UnchangedDisk(before, after) && !Succeeded(reply))
    || (Readable(rules, before.file) && OnboardAccepted(rules, r, e, secret) &&
        (|| (Holds(after, marked) && !Succeeded(reply) &&
             after.vault in {before.vault, before.vault[e.ref := secret], before.vault - {e.ref}})
         || (Holds(after, r) && after.vault == before.vault - {e.ref} && !Succeeded(reply))
         || (Holds(after, r.(instances := r.instances + [e], selected := e.id)) &&
             after.vault == before.vault[e.ref := secret] && (Succeeded(reply) || reply.Died?))))
  }

  /** A reference that an acceptable new instance brings is neither tombstoned nor owned. */
  lemma AcceptedRefIsNew(rules: Rules, r: Registry, e: Entry, secret: Secret)
    requires Valid(rules, r) && OnboardAccepted(rules, r, e, secret)
    ensures e.ref !in r.pending && !Owns(r.instances, e.ref)
    ensures Valid(rules, r.(pending := r.pending + [e.ref])) &&
            Valid(rules, r.(instances := r.instances + [e], selected := e.id))
  {
    var grown := r.instances + [e];
    var n := |r.instances|;
    assert grown[n] == e && HasId(grown, e.id) && Owns(grown, e.ref);
    assert forall k :: 0 <= k < n ==> grown[k] == r.instances[k];
  }

  datatype Edit = Edit(id: string, expectedRef: Ref, expectedRevision: Revision, title: string, url: string)

  predicate Expects(e: Entry, ref: Ref, revision: Revision) {
    ref != "" && ref == e.ref && revision != 0 && revision == e.revision
  }

  function Edited(rules: Rules, e: Entry, edit: Edit): Entry {
    e.(title := rules.trim(edit.title), url := rules.trim(edit.url), state := "offline",
       revision := (e.revision + 1) % REVISIONS)
  }

  /** Some entry is the one the edit names and expects, and stays valid when edited. */
  ghost predicate UpdateAccepted(rules: Rules, r: Registry, edit: Edit) {
    exists i :: 0 <= i < |r.instances| && EditMatches(r.instances[i], edit) &&
      Valid(rules, EditedRegistry(rules, r, i, edit))
  }

  predicate EditMatches(e: Entry, edit: Edit) {
    e.id == edit.id && Expects(e, edit.expectedRef, edit.expectedRevision)
  }

  function EditedRegistry(rules: Rules, r: Registry, i: nat, edit: Edit): Registry
    requires i < |r.instances|
  {
    Normal(r.(instances := r.instances[i := Edited(rules, r.instances[i], edit)]))
  }

  ghost predicate UpdatedAt(rules: Rules, before: Disk, edit: Edit, i: int, reply: Reply, after: Disk) {
    var r := Shown(before.file);
    && 0 <= i < |r.instances| && EditMatches(r.instances[i], edit)
    && Valid(rules, EditedRegistry(rules, r, i, edit)) && after.file == Stored(EditedRegistry(rules, r, i, edit))
    && after.vault == before.vault && (Succeeded(reply) || reply.Died?)
  }

  ghost predicate Updated(rules: Rules, before: Disk, edit: Edit, reply: Reply, after: Disk) {
    || (UnchangedDisk(before, after) && !Succeeded(reply))
    || (Readable(rules, before.file) && exists i :: UpdatedAt(rules, before, edit, i, reply, after))
  }

  datatype Removal = Removal(id: string, expectedRef: Ref, expectedRevision: Revision, title: string)

  ghost predicate RemovalAccepted(r: Registry, removal: Removal) {
    exists i :: 0 <= i < |r.instances| && RemovalMatches(r.instances[i], removal)
  }

  predicate RemovalMatches(e: Entry, removal: Removal) {
    e.id == removal.id && e.title == removal.title && Expects(e, removal.expectedRef, removal.expectedRevision)
  }

  function Detached(r: Registry, i: nat): Registry
    requires i < |r.instances|
  {
    Registry(if r.selected == r.instances[i].id then "" else r.selected, Without(r.instances, i),
             AppendUnique(r.pending, r.instances[i].ref))
  }

  /** A removal takes the instance out and leaves a tombstone until its secret is known to be gone. */
  ghost predicate RemovedAt(before: Disk, removal: Removal, i: int, reply: Reply, after: Disk) {
    var r := Shown(before.file);
    && 0 <= i < |r.instances| && RemovalMatches(r.instances[i], removal)
    && var next := Detached(r, i);
       var ref := r.instances[i].ref;
       || (Holds(after, next) && (after.vault == before.vault || after.vault == before.vault - {ref}))
       || (Holds(after, next.(pending := RemoveRef(next.pending, ref))) && after.vault == before.vault - {ref}
           && (Succeeded(reply) || reply.Died?))
  }

  ghost predicate Removed(rules: Rules, before: Disk, removal: Removal, reply: Reply, after: Disk) {
    || (UnchangedDisk(before, after) && !Succeeded(reply))
    || (Readable(rules, before.file) && exists i :: RemovedAt(before, removal, i, reply, after))
  }

  predicate SelectionAccepted(r: Registry, id: string, expected: string) {
    r.selected == expected && (id != "" ==> HasId(r.instances, id))
  }

  ghost predicate Selected(rules: Rules, before: Disk, id: string, expected: string, reply: Reply, after: Disk) {
    var r := Shown(before.file);
    || (UnchangedDisk(before, after) && !Succeeded(reply))
    || (Readable(rules, before.file) && SelectionAccepted(r, id, expected) &&
        Holds(after, r.(selected := id)) && after.vault == before.vault && (Succeeded(reply) || reply.Died?))
  }

  /** A cleanup deletes only tombstoned secrets and drops only tombstones whose secret is gone;
      when it reports no failure, none is left. */
  ghost predicate Reconciled(rules: Rules, before: Disk, reply: Reply, after: Disk) {
    var r, s := Shown(before.file), Shown(after.file);
    || (UnchangedDisk(before, after) && !Succeeded(reply))
    || (Readable(rules, before.file)
        && s == r.(pending := s.pending) && !after.file.Unreadable?
        && (forall x :: x in s.pending ==> x in r.pending) && Distinct(s.pending)
        && (forall x :: x in after.vault ==> x in before.vault && after.vault[x] == before.vault[x])
        && (forall x :: x in before.vault && x !in after.vault ==> x in r.pending)
        && (forall x :: x in r.pending && x !in s.pending ==> x !in after.vault)
        && (Succeeded(reply) ==> s.pending == []))
  }

  // ---------------------------------------------------------------- what a success means

  /** The entry with this id, and it alone, changed: it has the new title and URL, is offline and one revision
      further, and keeps its reference and source. */
  predicate Renewed(rules: Rules, r: Registry, s: Registry, edit: Edit) {
    && HasId(r.instances, edit.id) && s.selected == r.selected && s.pending == r.pending
    && |s.instances| == |r.instances|
    && forall i :: 0 <= i < |r.instances| ==> RenewedEntry(rules, r.instances[i], s.instances[i], edit)
  }

  predicate RenewedEntry(rules: Rules, e: Entry, f: Entry, edit: Edit) {
    if e.id != edit.id then f == e
    else
      && f.id == e.id && f.ref == e.ref && f.source == e.source && f.state == "offline"
      && f.title == rules.trim(edit.title) && f.url == rules.trim(edit.url)
      && f.revision == if e.revision == REVISIONS - 1 then 1 else e.revision + 1
  }

  /** The edit names an entry by its id, reference and revision, and brings a title and a URL that are valid. */
  predicate Editable(rules: Rules, r: Registry, edit: Edit) {
    && edit.expectedRef != "" && edit.expectedRevision != 0
    && (exists i :: 0 <= i < |r.instances| && r.instances[i].id == edit.id &&
                    r.instances[i].ref == edit.expectedRef && r.instances[i].revision == edit.expectedRevision)
    && rules.trim(rules.trim(edit.title)) != "" && |rules.trim(edit.title)| <= 96
    && rules.endpointOk(rules.trim(edit.url))
  }

  lemma NextRevision(revision: Revision)
    ensures NormalEntry(Entry("", "", "", "", "", "", (revision + 1) % REVISIONS)).revision ==
            if revision == REVISIONS - 1 then 1 else revision + 1
  {
  }

  lemma EditedEntryIsRenewed(rules: Rules, e: Entry, edit: Edit)
    requires e.id == edit.id
    ensures RenewedEntry(rules, e, NormalEntry(Edited(rules, e, edit)), edit)
  {
    NextRevision(e.revision);
  }

  lemma EditedIsRenewed(rules: Rules, r: Registry, i: nat, edit: Edit)
    requires i < |r.instances| && r.instances[i].id == edit.id && DistinctEntries(r.instances) && IsNormal(r)
    ensures Renewed(rules, r, EditedRegistry(rules, r, i, edit), edit)
  {
    var s := EditedRegistry(rules, r, i, edit);
    forall k | 0 <= k < |r.instances| ensures RenewedEntry(rules, r.instances[k], s.instances[k], edit) {
      if k == i {
        EditedEntryIsRenewed(rules, r.instances[i], edit);
      }
    }
  }

  /** An edit is accepted exactly when the entry is found as expected and stays valid. */
  lemma EditableExactlyWhen(rules: Rules, r: Registry, edit: Edit)
    requires Valid(rules, r) && IsNormal(r)
    ensures UpdateAccepted(rules, r, edit) <==> Editable(rules, r, edit)
  {
    if UpdateAccepted(rules, r, edit) {
      var i :| 0 <= i < |r.instances| && EditMatches(r.instances[i], edit) &&
               Valid(rules, EditedRegistry(rules, r, i, edit));
      EditedIsRenewed(rules, r, i, edit);
      assert EntryOk(rules, EditedRegistry(rules, r, i, edit).instances[i]);
    }
    if Editable(rules, r, edit) {
      var i :| 0 <= i < |r.instances| && r.instances[i].id == edit.id && r.instances[i].ref == edit.expectedRef &&
               r.instances[i].revision == edit.expectedRevision;
      EditedIsValid(rules, r, i, edit);
    }
  }

  lemma EditedIsValid(rules: Rules, r: Registry, i: nat, edit: Edit)
    requires Valid(rules, r) && IsNormal(r) && Editable(rules, r, edit) && i < |r.instances|
    requires r.instances[i].id == edit.id
    ensures Valid(rules, EditedRegistry(rules, r, i, edit))
  {
    var s := EditedRegistry(rules, r, i, edit);
    EditedIsRenewed(rules, r, i, edit);
    assert forall k :: 0 <= k < |r.instances| ==>
             s.instances[k].id == r.instances[k].id && s.instances[k].ref == r.instances[k].ref;
    SameNames(r.instances, s.instances);
    forall k | 0 <= k < |s.instances| ensures EntryOk(rules, s.instances[k]) {
      assert EntryOk(rules, r.instances[k]) && RenewedEntry(rules, r.instances[k], s.instances[k], edit);
    }
  }

  /** Entries with the same ids and references are known and owned alike. */
  lemma SameNames(a: seq<Entry>, b: seq<Entry>)
    requires |a| == |b| && forall k :: 0 <= k < |a| ==> a[k].id == b[k].id && a[k].ref == b[k].ref
    ensures forall x :: HasId(a, x) <==> HasId(b, x)
    ensures forall x :: Owns(a, x) <==> Owns(b, x)
    ensures DistinctEntries(a) ==> DistinctEntries(b)
  {
  }

  /** The entry with this id is gone and the others keep their order; only its own selection is cleared; its
      reference is tombstoned, or its secret is known to be gone. */
  ghost predicate Dismissed(r: Registry, s: Registry, removal: Removal, vault: map<Ref, Secret>) {
    exists i :: 0 <= i < |r.instances| && DismissedAt(r, s, removal, vault, i)
  }

  predicate DismissedAt(r: Registry, s: Registry, removal: Removal, vault: map<Ref, Secret>, i: nat)
    requires i < |r.instances|
  {
    && r.instances[i].id == removal.id && s.instances == r.instances[..i] + r.instances[i + 1..]
    && s.selected == (if r.selected == removal.id then "" else r.selected)
    && (|| s.pending == r.pending + [r.instances[i].ref]
        || (s.pending == r.pending && r.instances[i].ref !in vault))
  }

  /** The removal names an entry by its id, title, reference and revision. */
  predicate Removable(r: Registry, removal: Removal) {
    && removal.expectedRef != "" && removal.expectedRevision != 0
    && exists i :: 0 <= i < |r.instances| && r.instances[i].id == removal.id && r.instances[i].title == removal.title &&
                   r.instances[i].ref == removal.expectedRef && r.instances[i].revision == removal.expectedRevision
  }

  lemma RemovableExactlyWhen(r: Registry, removal: Removal)
    ensures RemovalAccepted(r, removal) <==> Removable(r, removal)
  {
    if RemovalAccepted(r, removal) {
      var i :| 0 <= i < |r.instances| && RemovalMatches(r.instances[i], removal);
      assert r.instances[i].ref == removal.expectedRef;
    }
    if Removable(r, removal) {
      var i :| 0 <= i < |r.instances| && r.instances[i].id == removal.id && r.instances[i].title == removal.title &&
               r.instances[i].ref == removal.expectedRef && r.instances[i].revision == removal.expectedRevision;
      assert RemovalMatches(r.instances[i], removal);
    }
  }

  lemma DetachedIsDismissed(rules: Rules, r: Registry, i: nat, removal: Removal, vault: map<Ref, Secret>)
    requires Valid(rules, r) && i < |r.instances| && RemovalMatches(r.instances[i], removal)
    ensures var next, ref := Detached(r, i), r.instances[i].ref;
            && Dismissed(r, next, removal, vault)
            && (ref !in vault ==> Dismissed(r, next.(pending := RemoveRef(next.pending, ref)), removal, vault))
  {
    var next, ref := Detached(r, i), r.instances[i].ref;
    assert Owns(r.instances, ref) && ref !in r.pending;
    AppendedRefIsRemoved(r.pending, ref);
    assert DismissedAt(r, next, removal, vault, i);
    if ref !in vault {
      assert DismissedAt(r, next.(pending := RemoveRef(next.pending, ref)), removal, vault, i);
    }
  }
}
