/** The persisted `user` table behind Doctrine's entity manager: rows in
    insertion order, an auto-increment id, and the unique index on
    `username` declared on the `User` entity. Whether two usernames collide
    is decided by the column's collation, given here as a function `collate`
    that maps a username to its collation key (MySQL's default collation
    ignores case and trailing spaces, for instance); two usernames collide
    exactly when their keys are equal. */
module Store {
  import opened Common
  import opened Entity

  /** One persisted user. `name` and `surname` are nullable columns. */
  datatype UserRecord = UserRecord(
    id: nat,
    clientId: nat,
    username: string,
    password: string,
    name: Option<string>,
    surname: Option<string>,
    email: string,
    creationDate: Timestamp)

  predicate DistinctIds(rows: seq<UserRecord>) {
    forall i, j :: 0 <= i < j < |rows| ==> rows[i].id != rows[j].id
  }

  predicate DistinctUsernames(rows: seq<UserRecord>, collate: string -> string) {
    forall i, j :: 0 <= i < j < |rows| ==> collate(rows[i].username) != collate(rows[j].username)
  }

  predicate UsernameTaken(rows: seq<UserRecord>, username: string, collate: string -> string) {
    exists i :: 0 <= i < |rows| && collate(rows[i].username) == collate(username)
  }

  /** Removing one row keeps ids and usernames distinct. */
  lemma RemoveAtKeepsDistinct(rows: seq<UserRecord>, i: nat, collate: string -> string)
    requires i < |rows| && DistinctIds(rows) && DistinctUsernames(rows, collate)
    ensures DistinctIds(rows[..i] + rows[i + 1..])
    ensures DistinctUsernames(rows[..i] + rows[i + 1..], collate)
  {
    var r := rows[..i] + rows[i + 1..];
    forall j, k | 0 <= j < k < |r|
      ensures r[j].id != r[k].id && collate(r[j].username) != collate(r[k].username)
    {
      var oj := if j < i then j else j + 1;
      var ok := if k < i then k else k + 1;
      assert r[j] == rows[oj] && r[k] == rows[ok] && oj < ok;
    }
  }

  class UserTable {
    var rows: seq<UserRecord>
    var nextId: nat
    const collate: string -> string

    /** Ids are unique and below the next id to hand out; usernames are
        unique under the collation (the `UNIQ_IDENTIFIER_USERNAME` index). */
    ghost predicate Valid()
      reads this
    {
      && DistinctIds(rows)
      && DistinctUsernames(rows, collate)
      && forall i :: 0 <= i < |rows| ==> rows[i].id < nextId
    }

    constructor (collate: string -> string)
      ensures Valid() && rows == [] && nextId == 1 && this.collate == collate
    {
      rows, nextId, this.collate := [], 1, collate;
    }

    /** `persist` + `flush` of a new user: the row gets the next id, unless
        its username collides with a stored one, in which case the flush
        fails and nothing is stored; the auto-increment value drawn for the
        failed INSERT is used up all the same. */
    method Insert(draft: UserRecord) returns (id: Option<nat>)
      requires Valid()
      modifies this
      ensures Valid()
      ensures UsernameTaken(old(rows), draft.username, collate) ==>
        id == None && rows == old(rows) && nextId == old(nextId) + 1
      ensures !UsernameTaken(old(rows), draft.username, collate) ==>
        && id == Some(old(nextId))
        && rows == old(rows) + [draft.(id := old(nextId))]
        && nextId == old(nextId) + 1
    {
      if exists i :: 0 <= i < |rows| && collate(rows[i].username) == collate(draft.username) {
        id := None;
        nextId := nextId + 1;
      } else {
        id := Some(nextId);
        rows := rows + [draft.(id := nextId)];
        nextId := nextId + 1;
      }
    }

    /** `remove` + `flush` of the user stored at position `i`. */
    method RemoveAt(i: nat)
      requires Valid() && i < |rows|
      modifies this
      ensures Valid()
      ensures rows == old(rows[..i] + rows[i + 1..]) && nextId == old(nextId)
    {
      RemoveAtKeepsDistinct(rows, i, collate);
      rows := rows[..i] + rows[i + 1..];
      assert forall k :: 0 <= k < |rows| ==> rows[k] in old(rows);
    }
  }
}
