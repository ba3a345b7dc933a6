/** `UserRepository`: the users of one client, and offset pagination over
    them (`setFirstResult((page - 1) * limit)`, `setMaxResults(limit)`). */
module Repository {
  import opened Common
  import opened Store

  /** Why a query yields no value: the database layer refuses a negative
      offset or limit, and `getSingleScalarResult` throws when no row is
      left. */
  datatype QueryError = InvalidLimitClause | NoResult

  function Min(a: int, b: int): int { if a <= b then a else b }

  function Max(a: int, b: int): int { if a >= b then a else b }

  /** `WHERE b.client = :client`, in table order. */
  function ClientUsers(rows: seq<UserRecord>, client: nat): (r: seq<UserRecord>)
    ensures |r| <= |rows|
    ensures forall u :: u in r <==> u in rows && u.clientId == client
  {
    if rows == [] then []
    else
      assert rows == [rows[0]] + rows[1..];
      (if rows[0].clientId == client then [rows[0]] else []) + ClientUsers(rows[1..], client)
  }

  /** Filtering distributes over concatenation. */
  lemma {:induction false} ClientUsersAppend(a: seq<UserRecord>, b: seq<UserRecord>, client: nat)
    ensures ClientUsers(a + b, client) == ClientUsers(a, client) + ClientUsers(b, client)
  {
    if a == [] {
      assert a + b == b;
    } else {
      assert (a + b)[0] == a[0] && (a + b)[1..] == a[1..] + b;
      ClientUsersAppend(a[1..], b, client);
    }
  }

  /** A row of another client does not change this client's users, wherever
      it is inserted or removed. */
  lemma OtherClientRowInvisible(a: seq<UserRecord>, row: UserRecord, b: seq<UserRecord>, client: nat)
    requires row.clientId != client
    ensures ClientUsers(a + [row] + b, client) == ClientUsers(a + b, client)
  {
    ClientUsersAppend(a + [row], b, client);
    ClientUsersAppend(a, [row], client);
    ClientUsersAppend(a, b, client);
    assert ClientUsers([row], client) == [];
  }

  /** Removing a row of one client leaves every other client's users as
      they were. */
  lemma RemovingOwnRowKeepsOthers(rows: seq<UserRecord>, i: nat, client: nat)
    requires i < |rows| && rows[i].clientId == client
    ensures forall d: nat :: d != client ==>
      ClientUsers(rows[..i] + rows[i + 1..], d) == ClientUsers(rows, d)
  {
    assert rows == rows[..i] + [rows[i]] + rows[i + 1..];
    forall d: nat | d != client
      ensures ClientUsers(rows[..i] + rows[i + 1..], d) == ClientUsers(rows, d)
    {
      OtherClientRowInvisible(rows[..i], rows[i], rows[i + 1..], d);
    }
  }

  /** Appending a row of one client leaves every other client's users as
      they were. */
  lemma AppendingOwnRowKeepsOthers(rows: seq<UserRecord>, row: UserRecord, client: nat)
    requires row.clientId == client
    ensures forall d: nat :: d != client ==> ClientUsers(rows + [row], d) == ClientUsers(rows, d)
  {
    forall d: nat | d != client
      ensures ClientUsers(rows + [row], d) == ClientUsers(rows, d)
    {
      assert rows + [row] == rows + [row] + [];
      assert rows + [] == rows;
      OtherClientRowInvisible(rows, row, [], d);
    }
  }

  /** `find($id)`, as the route's entity resolver uses it: the position of
      the first row with that id. */
  function FindById(rows: seq<UserRecord>, id: nat): (r: Option<nat>)
    ensures r.Some? ==> r.value < |rows| && rows[r.value].id == id
    ensures r.None? <==> forall i :: 0 <= i < |rows| ==> rows[i].id != id
  {
    if rows == [] then None
    else if rows[0].id == id then Some(0)
    else match FindById(rows[1..], id)
      case None => assert forall i :: 1 <= i < |rows| ==> rows[i] == rows[1..][i - 1]; None
      case Some(k) => Some(k + 1)
  }

  /** `findOneBy(["id" => $id, "client" => $client])`: the position of the
      first row with that id and that client. */
  function FindOneByIdAndClient(rows: seq<UserRecord>, id: nat, client: nat): (r: Option<nat>)
    ensures r.Some? ==> r.value < |rows| && rows[r.value].id == id && rows[r.value].clientId == client
    ensures r.None? <==> forall i :: 0 <= i < |rows| ==> !(rows[i].id == id && rows[i].clientId == client)
  {
    if rows == [] then None
    else if rows[0].id == id && rows[0].clientId == client then Some(0)
    else match FindOneByIdAndClient(rows[1..], id, client)
      case None => assert forall i :: 1 <= i < |rows| ==> rows[i] == rows[1..][i - 1]; None
      case Some(k) => Some(k + 1)
  }

  /** With unique ids, the owner-restricted lookup finds the row the id
      lookup finds exactly when that row belongs to the client. */
  lemma FindOneByIdAndClientIsOwnedFindById(rows: seq<UserRecord>, id: nat, client: nat)
    requires DistinctIds(rows)
    ensures var byId := FindById(rows, id);
      FindOneByIdAndClient(rows, id, client)
        == if byId.Some? && rows[byId.value].clientId == client then byId else None
  {
    var byId := FindById(rows, id);
    var owned := FindOneByIdAndClient(rows, id, client);
    if owned.Some? {
      assert byId.Some?;
      assert byId.value == owned.value;
    }
  }

  /** Once the row at `i` is removed, its id is no longer found. */
  lemma RemovedIdIsGone(rows: seq<UserRecord>, i: nat)
    requires DistinctIds(rows) && i < |rows|
    ensures FindById(rows[..i] + rows[i + 1..], rows[i].id) == None
  {
    var r := rows[..i] + rows[i + 1..];
    forall j | 0 <= j < |r| ensures r[j].id != rows[i].id {
      if j < i { assert r[j] == rows[j]; } else { assert r[j] == rows[j + 1]; }
    }
  }

  lemma MulMonotone(a: int, b: int, c: nat)
    requires a >= b
    ensures a * c >= b * c
  {
  }

  /** The offset the query builder is given. */
  function Offset(page: int, limit: int): int {
    (page - 1) * limit
  }

  /** LIMIT/OFFSET applied to a result list. */
  function Window<T>(s: seq<T>, offset: nat, limit: nat): seq<T> {
    if offset >= |s| then [] else s[offset..Min(offset + limit, |s|)]
  }

  /** `findByClientWithPagination`. */
  function FindByClientWithPagination(rows: seq<UserRecord>, client: nat, page: int, limit: int)
    : (r: Result<seq<UserRecord>, QueryError>)
    ensures r.Success? <==> Offset(page, limit) >= 0 && limit >= 0
    ensures r.Success? ==> |r.value| <= limit
    ensures r.Success? ==> forall u :: u in r.value ==> u in rows && u.clientId == client
  {
    var offset := Offset(page, limit);
    if offset < 0 || limit < 0 then Failure(InvalidLimitClause)
    else Success(Window(ClientUsers(rows, client), offset, limit))
  }

  /** A page is the run of the client's users that starts at the offset:
      `min(limit, N - offset)` of them, or none past the end. */
  lemma PageIsSlice(rows: seq<UserRecord>, client: nat, page: int, limit: int)
    requires Offset(page, limit) >= 0 && limit >= 0
    ensures var all, offset := ClientUsers(rows, client), Offset(page, limit);
      var r := FindByClientWithPagination(rows, client, page, limit).value;
      && |r| == Max(0, Min(limit, |all| - offset))
      && forall j :: 0 <= j < |r| ==> r[j] == all[offset + j]
  {
    var all, offset := ClientUsers(rows, client), Offset(page, limit);
    var r := FindByClientWithPagination(rows, client, page, limit).value;
    assert r == Window(all, offset, limit);
    if offset < |all| {
      assert r == all[offset..Min(offset + limit, |all|)];
    }
  }

  /** A page that starts at or past the client's user count is empty. */
  lemma PageBeyondEndIsEmpty(rows: seq<UserRecord>, client: nat, page: int, limit: int)
    requires limit >= 0 && Offset(page, limit) >= |ClientUsers(rows, client)|
    ensures FindByClientWithPagination(rows, client, page, limit) == Success([])
  {
  }

  /** Pages 1..k with a fixed limit, one after another. */
  function ConcatPages(rows: seq<UserRecord>, client: nat, limit: nat, k: nat): seq<UserRecord>
    requires limit >= 1
  {
    if k == 0 then []
    else ConcatPages(rows, client, limit, k - 1)
         + FindByClientWithPagination(rows, client, k, limit).value
  }

  /** Pages 1..k are exactly the first k * limit of the client's users. */
  lemma {:induction false} ConcatPagesIsPrefix(rows: seq<UserRecord>, client: nat, limit: nat, k: nat)
    requires limit >= 1
    ensures var all := ClientUsers(rows, client);
      ConcatPages(rows, client, limit, k) == all[..Min(k * limit, |all|)]
  {
    if k > 0 {
      ConcatPagesIsPrefix(rows, client, limit, k - 1);
      var all := ClientUsers(rows, client);
      var offset := (k - 1) * limit;
      assert k * limit == offset + limit;
      var page := FindByClientWithPagination(rows, client, k, limit).value;
      assert page == Window(all, offset, limit);
      if offset < |all| {
        var hi := Min(offset + limit, |all|);
        assert all[..hi] == all[..offset] + all[offset..hi];
      } else {
        assert page == [];
      }
    }
  }

  /** Once the pages cover the count, concatenating them gives back every
      user of the client exactly once, in order. */
  lemma PagesReconstructClientUsers(rows: seq<UserRecord>, client: nat, limit: nat, k: nat)
    requires limit >= 1 && k * limit >= |ClientUsers(rows, client)|
    ensures ConcatPages(rows, client, limit, k) == ClientUsers(rows, client)
  {
    ConcatPagesIsPrefix(rows, client, limit, k);
  }

  /** `getNumberOfPagesByClientWithPagination` as written: the COUNT query
      keeps the LIMIT/OFFSET of the page query, so its single row survives
      only at offset 0 with a positive limit, and it is an item count. */
  function CountByClientWithPagination(rows: seq<UserRecord>, client: nat, page: int, limit: int)
    : (r: Result<nat, QueryError>)
    ensures r == Failure(InvalidLimitClause) <==> Offset(page, limit) < 0 || limit < 0
    ensures r.Success? ==> r.value == |ClientUsers(rows, client)|
    ensures r.Success? ==> page == 1
  {
    var offset := Offset(page, limit);
    if offset < 0 || limit < 0 then Failure(InvalidLimitClause)
    else if offset == 0 && limit >= 1 then Success(|ClientUsers(rows, client)|)
    else Failure(NoResult)
  }

  /** The as-written count answers only for page 1, and then with the number
      of users rather than the number of pages. */
  lemma CountAnswersOnlyPageOne(rows: seq<UserRecord>, client: nat, page: int, limit: int)
    requires limit >= 1
    ensures var r := CountByClientWithPagination(rows, client, page, limit);
      && (r.Success? <==> page == 1)
      && (r.Success? ==> r.value == |ClientUsers(rows, client)|)
      && (page > 1 ==> r == Failure(NoResult))
  {
    if page > 1 {
      MulMonotone(page - 1, 1, limit);
    } else if page < 1 {
      MulMonotone(1 - page, 1, limit);
      assert Offset(page, limit) == -((1 - page) * limit);
    }
  }

  /** The page count: the least number of pages of `limit` users that holds
      all the client's users (0 for a client without users). */
  function NumberOfPages(rows: seq<UserRecord>, client: nat, limit: nat): (n: nat)
    requires limit >= 1
    ensures n * limit >= |ClientUsers(rows, client)|
    ensures n == 0 || (n - 1) * limit < |ClientUsers(rows, client)|
  {
    var count := |ClientUsers(rows, client)|;
    var n := (count + limit - 1) / limit;
    assert n * limit + (count + limit - 1) % limit == count + limit - 1;
    assert (n - 1) * limit == n * limit - limit;
    n
  }

  /** Pages of at least two users are fewer than the users they hold, once
      there is more than one page. */
  lemma FewerPagesThanItems(count: nat, limit: nat, n: nat)
    requires limit >= 2 && count > limit
    requires n == 0 || (n - 1) * limit < count
    ensures n < count
  {
    if n >= count {
      MulMonotone(limit, 2, count - 1);
      MulMonotone(n - 1, count - 1, limit);
    }
  }

  /** On a client with more users than fit on one page, the as-written
      count fails on page 2 although page 2 holds users. */
  lemma CountFailsOnPageTwo(rows: seq<UserRecord>, client: nat, limit: nat)
    requires limit >= 1 && |ClientUsers(rows, client)| > limit
    ensures CountByClientWithPagination(rows, client, 2, limit) == Failure(NoResult)
    ensures FindByClientWithPagination(rows, client, 2, limit).value != []
  {
    CountAnswersOnlyPageOne(rows, client, 2, limit);
    assert Offset(2, limit) == limit;
  }

  /** With pages of at least two users and more users than one page holds,
      the as-written count on page 1 is not the page count. */
  lemma CountIsNotPageCount(rows: seq<UserRecord>, client: nat, limit: nat)
    requires limit >= 2 && |ClientUsers(rows, client)| > limit
    ensures CountByClientWithPagination(rows, client, 1, limit)
         != Success(NumberOfPages(rows, client, limit))
  {
    CountAnswersOnlyPageOne(rows, client, 1, limit);
    FewerPagesThanItems(|ClientUsers(rows, client)|, limit, NumberOfPages(rows, client, limit));
  }

  /** Pages 1..NumberOfPages reconstruct the client's users; every later
      page is empty. */
  lemma NumberOfPagesCoversAll(rows: seq<UserRecord>, client: nat, limit: nat, page: int)
    requires limit >= 1
    ensures ConcatPages(rows, client, limit, NumberOfPages(rows, client, limit)) == ClientUsers(rows, client)
    ensures page > NumberOfPages(rows, client, limit) ==>
      FindByClientWithPagination(rows, client, page, limit) == Success([])
  {
    var n := NumberOfPages(rows, client, limit);
    PagesReconstructClientUsers(rows, client, limit, n);
    if page > n {
      MulMonotone(page - 1, n, limit);
    }
  }
}
