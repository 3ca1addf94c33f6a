/** The one-off status migration (`src/app/admin/run-migration.tsx`): every
    stored user document that has no status and is not an admin is given
    status `pending`. The writes are issued without being awaited; here they
    are applied one after another, each landing. */
module StatusMigration {
  import opened Wrappers
  import opened Seqs
  import opened Types

  /** `!data.status && data.role !== 'admin'`: the candidates are the
      restaurants and NGOs that have no status. */
  function NeedsDefault(u: User): (r: bool)
    ensures r <==> u.status.None? && (u.role == Restaurant || u.role == Ngo)
  {
    u.status.None? && u.role != Admin
  }

  /** The per-user rule: a candidate gets status `pending`, every other user
      is left exactly as it is, and only the status field is ever written. */
  function Migrated(u: User): (r: User)
    ensures r.(status := u.status) == u
    ensures NeedsDefault(u) ==> r.status == Some(Pending)
    ensures !NeedsDefault(u) ==> r == u
    ensures !NeedsDefault(r)
  {
    if NeedsDefault(u) then u.(status := Some(Pending)) else u
  }

  /** The whole table after a run in which every write lands. */
  function MigrateAll(users: seq<User>): (r: seq<User>)
    ensures |r| == |users|
    ensures forall i :: 0 <= i < |users| ==> r[i] == Migrated(users[i])
  {
    seq(|users|, i requires 0 <= i < |users| => Migrated(users[i]))
  }

  /** The ids of the documents a run writes, in snapshot order. */
  function WrittenIds(users: seq<User>): (ids: seq<string>)
    ensures |ids| <= |users|
  {
    if users == [] then []
    else (if NeedsDefault(users[0]) then [users[0].id] else []) + WrittenIds(users[1..])
  }

  /** Visiting one more document adds its id when it is a candidate. */
  lemma {:induction false} WrittenIdsSnoc(users: seq<User>, u: User)
    ensures WrittenIds(users + [u]) == WrittenIds(users) + (if NeedsDefault(u) then [u.id] else [])
  {
    if users == [] {
      assert [u][1..] == [];
    } else {
      assert (users + [u])[1..] == users[1..] + [u];
      WrittenIdsSnoc(users[1..], u);
    }
  }

  /** The ids of a sequence of users. */
  function Ids(users: seq<User>): (ids: seq<string>)
    ensures |ids| == |users| && forall i :: 0 <= i < |users| ==> ids[i] == users[i].id
  {
    if users == [] then [] else [users[0].id] + Ids(users[1..])
  }

  /** The written ids are the ids of the candidates, in order. */
  lemma {:induction false} WrittenIdsOfCandidates(users: seq<User>)
    ensures WrittenIds(users) == Ids(Filter(NeedsDefault, users))
  {
    if users != [] {
      WrittenIdsOfCandidates(users[1..]);
      var rest := Filter(NeedsDefault, users[1..]);
      if NeedsDefault(users[0]) {
        assert ([users[0]] + rest)[1..] == rest;
      }
    }
  }

  /** A run writes exactly the candidates: no document whose status is set,
      and no admin, is ever written. */
  lemma WrittenIdsAreCandidates(users: seq<User>)
    ensures forall i :: 0 <= i < |users| && NeedsDefault(users[i]) ==> users[i].id in WrittenIds(users)
    ensures forall i :: 0 <= i < |WrittenIds(users)| ==>
              exists j :: 0 <= j < |users| && users[j].id == WrittenIds(users)[i] && NeedsDefault(users[j])
  {
    WrittenIdsOfCandidates(users);
    var candidates := Filter(NeedsDefault, users);
    var written := WrittenIds(users);
    forall i | 0 <= i < |users| && NeedsDefault(users[i])
      ensures users[i].id in written
    {
      var k :| 0 <= k < |candidates| && candidates[k] == users[i];
      assert written[k] == users[i].id;
    }
    forall i | 0 <= i < |written|
      ensures exists j :: 0 <= j < |users| && users[j].id == written[i] && NeedsDefault(users[j])
    {
      var j :| 0 <= j < |users| && users[j] == candidates[i];
      assert users[j].id == written[i];
    }
  }

  /** After a run every non-admin user has a status, admins without one still
      have none, and every status that was set is unchanged. */
  lemma MigrationOutcome(users: seq<User>)
    ensures forall i :: 0 <= i < |users| && users[i].role != Admin ==> MigrateAll(users)[i].status.Some?
    ensures forall i :: 0 <= i < |users| && users[i].role == Admin ==>
              MigrateAll(users)[i] == users[i]
    ensures forall i :: 0 <= i < |users| && users[i].status.Some? ==> MigrateAll(users)[i] == users[i]
  {
  }

  /** A second run finds no candidate, writes nothing and changes nothing. */
  lemma {:induction false} MigrationIdempotent(users: seq<User>)
    ensures WrittenIds(MigrateAll(users)) == []
    ensures MigrateAll(MigrateAll(users)) == MigrateAll(users)
  {
    NoCandidatesNoWrites(MigrateAll(users));
  }

  /** A table without candidates is written nowhere. */
  lemma {:induction false} NoCandidatesNoWrites(users: seq<User>)
    requires forall i :: 0 <= i < |users| ==> !NeedsDefault(users[i])
    ensures WrittenIds(users) == []
  {
    if users != [] {
      NoCandidatesNoWrites(users[1..]);
    }
  }

  /** `setDefaultStatuses`: go through the snapshot of the user documents and
      write status `pending` into each candidate, returning the ids written
      (the console log lines). */
  method SetDefaultStatuses(docs: array<User>) returns (written: seq<string>)
    modifies docs
    ensures docs[..] == MigrateAll(old(docs[..]))
    ensures written == WrittenIds(old(docs[..]))
  {
    ghost var snapshot := docs[..];
    written := [];
    var i := 0;
    while i < docs.Length
      invariant 0 <= i <= docs.Length
      invariant forall k :: 0 <= k < i ==> docs[k] == Migrated(snapshot[k])
      invariant forall k :: i <= k < docs.Length ==> docs[k] == snapshot[k]
      invariant written == WrittenIds(snapshot[..i])
    {
      var d := docs[i];
      assert snapshot[..i + 1] == snapshot[..i] + [d];
      WrittenIdsSnoc(snapshot[..i], d);
      if d.status.None? && d.role != Admin {
        docs[i] := d.(status := Some(Pending));
        written := written + [d.id];
      }
      assert docs[i] == Migrated(snapshot[i]);
      i := i + 1;
    }
    assert snapshot[..i] == snapshot;
    assert forall k :: 0 <= k < docs.Length ==> docs[..][k] == MigrateAll(snapshot)[k];
  }
}
