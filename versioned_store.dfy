/**
 * ASSUMED STORE CONTRACT. The application entity marks `versionNumber` with
 * `@Version`; the repository code that writes it is not part of this model,
 * so no code here is transcribed. This module states, as an assumption, the
 * optimistic-locking behaviour the entity relies on: an update names the
 * version the reviewer last read, and it is written, with the version
 * incremented by one, only when that version is still the stored one.
 */
module VersionedStore {
  import opened Domain

  /** The stored part of an application that a review changes. */
  datatype Row = Row(status: ApplicationStatus, version: int)

  datatype UpdateResult =
    | Updated(row: Row)
    | Conflict(current: Row)   // the version read is stale
    | NotFound

  /** The outcome of one status update against the store `db`. */
  function Attempt(db: map<int, Row>, id: int, newStatus: ApplicationStatus, readVersion: int): (r: UpdateResult)
    ensures r.NotFound? <==> id !in db
    ensures r.Updated? <==> id in db && db[id].version == readVersion
    ensures r.Updated? ==> r.row == Row(newStatus, readVersion + 1)
    ensures r.Conflict? ==> r.current == db[id]
  {
    if id !in db then NotFound
    else if db[id].version != readVersion then Conflict(db[id])
    else Updated(Row(newStatus, readVersion + 1))
  }

  /** The store after the update: only a successful update writes, and only its own row. */
  function Apply(db: map<int, Row>, id: int, newStatus: ApplicationStatus, readVersion: int): (db': map<int, Row>)
    ensures db'.Keys == db.Keys
    ensures forall k :: k in db && k != id ==> db'[k] == db[k]
    ensures id in db ==> db'[id] == if db[id].version == readVersion then Row(newStatus, readVersion + 1) else db[id]
  {
    match Attempt(db, id, newStatus, readVersion)
    case Updated(row) => db[id := row]
    case _ => db
  }

  /**
   * Two reviewers who read the same version and update one after the other:
   * the first write succeeds and the second is refused as stale, reporting
   * the first reviewer's status.
   */
  lemma {:induction false} SecondOfTwoConcurrentUpdatesConflicts(db: map<int, Row>, id: int, first: ApplicationStatus, second: ApplicationStatus)
    requires id in db
    ensures Attempt(db, id, first, db[id].version).Updated?
    ensures Attempt(Apply(db, id, first, db[id].version), id, second, db[id].version)
            == Conflict(Row(first, db[id].version + 1))
  {
    var db' := Apply(db, id, first, db[id].version);
    assert db'[id] == Row(first, db[id].version + 1);
  }

  /** A write always raises the version, so a version once read can never be matched again after a write. */
  lemma VersionIncreases(db: map<int, Row>, id: int, s: ApplicationStatus, v: int)
    requires id in db
    ensures Apply(db, id, s, v)[id].version >= db[id].version
    ensures Attempt(db, id, s, v).Updated? ==> Apply(db, id, s, v)[id].version == db[id].version + 1
  {
  }

  /** A reviewer who re-reads the row after a conflict can then update it. */
  lemma RetryAfterConflictSucceeds(db: map<int, Row>, id: int, s: ApplicationStatus, v: int)
    requires Attempt(db, id, s, v).Conflict?
    ensures Attempt(db, id, s, Attempt(db, id, s, v).current.version).Updated?
  {
  }
}
