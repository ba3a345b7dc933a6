/** `UserController` and `ProductController`: the endpoints over the user
    table and the tag-aware cache. Serialization, password hashing, URL
    generation and the product repository are parameters of the
    controllers; the authenticated client is passed in as `caller`. */
module Controller {
  import opened Common
  import opened Http
  import opened Validator
  import opened UserConstraints
  import opened Entity
  import opened Store
  import opened Repository
  import opened Cache
  import opened ConstraintViolation

  const UserCachePrefix := "userCache-"
  const ProductsCachePrefix := "productsCache-"
  const ProductsTag := "productsCache"
  const DefaultPage := "1"
  const DefaultLimit := "10"

  /** The key of a client's users list, which is also the entry's tag. */
  function UserCacheKey(clientId: nat): (r: string)
    ensures |r| > |UserCachePrefix| && r[..|UserCachePrefix|] == UserCachePrefix
    ensures forall i :: |UserCachePrefix| <= i < |r| ==> '0' <= r[i] <= '9'
  {
    UserCachePrefix + NatToString(clientId)
  }

  /** The key of one page of the products list. */
  function ProductsCacheKey(page: string, limit: string): (r: string)
    ensures |r| == |ProductsCachePrefix| + |page| + 1 + |limit|
    ensures r[..|ProductsCachePrefix|] == ProductsCachePrefix
    ensures r[|ProductsCachePrefix|..|ProductsCachePrefix| + |page|] == page
    ensures r[|ProductsCachePrefix| + |page|] == '-'
    ensures r[|ProductsCachePrefix| + |page| + 1..] == limit
  {
    ProductsCachePrefix + page + "-" + limit
  }

  /** `$request->get($name, $default)`. */
  function QueryParameter(value: Option<string>, default: string): (r: string)
    ensures value.Some? ==> r == value.value
    ensures value.None? ==> r == default
  {
    if value.Some? then value.value else default
  }

  /** Different clients have different users-list keys (and tags). */
  lemma UserCacheKeyInjective(a: nat, b: nat)
    requires UserCacheKey(a) == UserCacheKey(b)
    ensures a == b
  {
    var n := |UserCachePrefix|;
    assert UserCacheKey(a)[n..] == NatToString(a);
    assert UserCacheKey(b)[n..] == NatToString(b);
    NatToStringInjective(a, b);
  }

  /** A products key is never a users-list key, nor the products tag. */
  lemma ProductsKeyIsNotUserKey(page: string, limit: string, clientId: nat)
    ensures ProductsCacheKey(page, limit) != UserCacheKey(clientId)
    ensures ProductsTag != UserCacheKey(clientId)
  {
    assert ProductsCacheKey(page, limit)[0] == 'p';
    assert UserCacheKey(clientId)[0] == 'u';
  }

  /** Parameters without a dash (numbers, in particular) give distinct
      products keys to distinct (page, limit) pairs. */
  lemma ProductsCacheKeyInjective(page1: string, limit1: string, page2: string, limit2: string)
    requires '-' !in page1 && '-' !in page2
    requires ProductsCacheKey(page1, limit1) == ProductsCacheKey(page2, limit2)
    ensures page1 == page2 && limit1 == limit2
  {
    var n := |ProductsCachePrefix|;
    var k1 := ProductsCacheKey(page1, limit1);
    assert k1[n..] == page1 + "-" + limit1;
    assert ProductsCacheKey(page2, limit2)[n..] == page2 + "-" + limit2;
    assert k1[n + |page1|] == '-' && k1[n + |page2|] == '-';
    assert forall i :: 0 <= i < |page1| ==> k1[n + i] == page1[i] != '-';
    assert forall i :: 0 <= i < |page2| ==> k1[n + i] == page2[i] != '-';
    assert |page1| == |page2|;
    assert page1 == k1[n..n + |page1|] == page2;
    assert limit1 == k1[n + |page1| + 1..] == limit2;
  }

  /** Parameters containing a dash can share a key: page "1-2" with
      limit "3" and page "1" with limit "2-3" read the same entry. */
  lemma ProductsCacheKeyAmbiguous()
    ensures ProductsCacheKey("1-2", "3") == ProductsCacheKey("1", "2-3")
  {
  }

  /** Every cached users list is the current serialized list of its client,
      tagged with its own key. */
  ghost predicate UserCacheCoherent(entries: map<string, Entry>, rows: seq<UserRecord>,
                                    serializeUsers: seq<UserRecord> -> string)
  {
    forall c: nat :: UserCacheKey(c) in entries ==>
      entries[UserCacheKey(c)] == Entry(serializeUsers(ClientUsers(rows, c)), {UserCacheKey(c)})
  }

  /** Storing a client's freshly computed list keeps the cache coherent. */
  lemma CoherentAfterStore(entries: map<string, Entry>, rows: seq<UserRecord>,
                           serializeUsers: seq<UserRecord> -> string, client: nat)
    requires UserCacheCoherent(entries, rows, serializeUsers)
    ensures UserCacheCoherent(
      entries[UserCacheKey(client) := Entry(serializeUsers(ClientUsers(rows, client)), {UserCacheKey(client)})],
      rows, serializeUsers)
  {
    var e := entries[UserCacheKey(client) := Entry(serializeUsers(ClientUsers(rows, client)), {UserCacheKey(client)})];
    forall c: nat | UserCacheKey(c) in e
      ensures e[UserCacheKey(c)] == Entry(serializeUsers(ClientUsers(rows, c)), {UserCacheKey(c)})
    {
      if UserCacheKey(c) == UserCacheKey(client) {
        UserCacheKeyInjective(c, client);
      }
    }
  }

  /** Dropping entries keeps the cache coherent. */
  lemma CoherentAfterInvalidate(entries: map<string, Entry>, rows: seq<UserRecord>,
                                serializeUsers: seq<UserRecord> -> string, tags: set<string>)
    requires UserCacheCoherent(entries, rows, serializeUsers)
    ensures UserCacheCoherent(Invalidated(entries, tags), rows, serializeUsers)
  {
  }

  /** A change to one client's users, preceded by invalidating that client's
      tag, keeps the cache coherent. */
  lemma CoherentAfterClientChange(entries: map<string, Entry>, rows: seq<UserRecord>,
                                  rows': seq<UserRecord>, serializeUsers: seq<UserRecord> -> string,
                                  client: nat)
    requires UserCacheCoherent(entries, rows, serializeUsers)
    requires forall d: nat :: d != client ==> ClientUsers(rows', d) == ClientUsers(rows, d)
    ensures UserCacheCoherent(Invalidated(entries, {UserCacheKey(client)}), rows', serializeUsers)
  {
    var e := Invalidated(entries, {UserCacheKey(client)});
    forall c: nat | UserCacheKey(c) in e
      ensures e[UserCacheKey(c)] == Entry(serializeUsers(ClientUsers(rows', c)), {UserCacheKey(c)})
    {
      assert entries[UserCacheKey(c)].tags == {UserCacheKey(c)};
      assert UserCacheKey(c) != UserCacheKey(client);
    }
  }

  /** Invalidating one client's tag leaves every other client's users list
      in the cache. */
  lemma InvalidateSparesOtherClients(entries: map<string, Entry>, rows: seq<UserRecord>,
                                     serializeUsers: seq<UserRecord> -> string, client: nat)
    requires UserCacheCoherent(entries, rows, serializeUsers)
    ensures forall c: nat :: c != client && UserCacheKey(c) in entries ==>
      && UserCacheKey(c) in Invalidated(entries, {UserCacheKey(client)})
      && Invalidated(entries, {UserCacheKey(client)})[UserCacheKey(c)] == entries[UserCacheKey(c)]
  {
    forall c: nat | c != client && UserCacheKey(c) in entries
      ensures UserCacheKey(c) in Invalidated(entries, {UserCacheKey(client)})
    {
      if UserCacheKey(c) == UserCacheKey(client) {
        UserCacheKeyInjective(c, client);
      }
      assert entries[UserCacheKey(c)].tags !! {UserCacheKey(client)};
    }
  }

  /** Storing a products page leaves the users lists coherent. */
  lemma ProductsEntryKeepsUserCacheCoherent(entries: map<string, Entry>, rows: seq<UserRecord>,
                                            serializeUsers: seq<UserRecord> -> string,
                                            page: string, limit: string, payload: string)
    requires UserCacheCoherent(entries, rows, serializeUsers)
    ensures UserCacheCoherent(entries[ProductsCacheKey(page, limit) := Entry(payload, {ProductsTag})],
                              rows, serializeUsers)
  {
    var e := entries[ProductsCacheKey(page, limit) := Entry(payload, {ProductsTag})];
    forall c: nat | UserCacheKey(c) in e
      ensures e[UserCacheKey(c)] == Entry(serializeUsers(ClientUsers(rows, c)), {UserCacheKey(c)})
    {
      ProductsKeyIsNotUserKey(page, limit, c);
    }
  }

  /** `getClientUser` as written: the guard `empty($user) && ...` never
      holds for a resolved user, so any existing user is returned,
      whichever client owns it; an unknown id is refused by the resolver. */
  function ClientUserResponse(rows: seq<UserRecord>, callerId: nat, id: nat,
                              serializeUser: UserRecord -> string): (r: JsonResponse)
    ensures r.status == StatusOk || r == JsonResponse(StatusNotFound, NullData, None)
    ensures r.status == StatusOk <==> exists i :: 0 <= i < |rows| && rows[i].id == id
    ensures r.status == StatusOk ==>
      exists u :: u in rows && u.id == id && r.body == RawJson(serializeUser(u))
  {
    match FindById(rows, id)
    case None => JsonResponse(StatusNotFound, NullData, None)
    case Some(i) => JsonResponse(StatusOk, RawJson(serializeUser(rows[i])), None)
  }

  /** A client is served another client's user. */
  lemma ClientUserResponseCrossesClients(serializeUser: UserRecord -> string)
    ensures var other := UserRecord(7, 2, "bob", "hash", Some("Bob"), Some("Smith"), "bob@example.com", 0);
      && other.clientId != 1
      && ClientUserResponse([other], 1, 7, serializeUser)
         == JsonResponse(StatusOk, RawJson(serializeUser(other)), None)
  {
    var other := UserRecord(7, 2, "bob", "hash", Some("Bob"), Some("Smith"), "bob@example.com", 0);
    assert FindById([other], 7) == Some(0);
  }

  /** `getClientUser` with the tenant check its guard evidently means: a
      user is returned only to the client that owns it. */
  function OwnedUserResponse(rows: seq<UserRecord>, callerId: nat, id: nat,
                             serializeUser: UserRecord -> string): (r: JsonResponse)
    ensures r.status == StatusOk || r == JsonResponse(StatusNotFound, NullData, None)
    ensures r.status == StatusOk <==>
      exists i :: 0 <= i < |rows| && rows[i].id == id && rows[i].clientId == callerId
  {
    match FindOneByIdAndClient(rows, id, callerId)
    case None => JsonResponse(StatusNotFound, NullData, None)
    case Some(i) => JsonResponse(StatusOk, RawJson(serializeUser(rows[i])), None)
  }

  /** The corrected endpoint answers 200 exactly when the caller owns a
      user with that id, and then with that user; otherwise 404. */
  lemma OwnedUserResponseIsolation(rows: seq<UserRecord>, callerId: nat, id: nat,
                                   serializeUser: UserRecord -> string)
    ensures var r := OwnedUserResponse(rows, callerId, id, serializeUser);
      && (r.status == StatusOk || r == JsonResponse(StatusNotFound, NullData, None))
      && (r.status == StatusOk <==>
            exists i :: 0 <= i < |rows| && rows[i].id == id && rows[i].clientId == callerId)
      && (r.status == StatusOk ==>
            exists u :: u in rows && u.id == id && u.clientId == callerId
                        && r.body == RawJson(serializeUser(u)))
  {
    var found := FindOneByIdAndClient(rows, id, callerId);
    if found.Some? {
      assert rows[found.value] in rows;
    }
  }

  /** On the caller's own users (ids being unique) the corrected endpoint
      answers as the written one does. */
  lemma OwnedUserResponseAgreesOnOwnUsers(rows: seq<UserRecord>, callerId: nat, id: nat,
                                          serializeUser: UserRecord -> string)
    requires DistinctIds(rows)
    requires exists i :: 0 <= i < |rows| && rows[i].id == id && rows[i].clientId == callerId
    ensures OwnedUserResponse(rows, callerId, id, serializeUser)
         == ClientUserResponse(rows, callerId, id, serializeUser)
  {
    FindOneByIdAndClientIsOwnedFindById(rows, id, callerId);
  }

  /** A deleted user is not found afterwards, by either endpoint. */
  lemma DeletedUserIsNotFound(rows: seq<UserRecord>, i: nat, callerId: nat,
                              serializeUser: UserRecord -> string)
    requires DistinctIds(rows) && i < |rows|
    ensures var rest := rows[..i] + rows[i + 1..];
      && ClientUserResponse(rest, callerId, rows[i].id, serializeUser).status == StatusNotFound
      && OwnedUserResponse(rest, callerId, rows[i].id, serializeUser).status == StatusNotFound
  {
    RemovedIdIsGone(rows, i);
  }

  /** The user fields of an `addUser` request body; fields the body leaves
      out are null. */
  datatype UserInput = UserInput(
    username: Option<string>,
    password: Option<string>,
    name: Option<string>,
    surname: Option<string>,
    email: Option<string>)

  /** What the validator sees once the caller has been set as the client. */
  function InputFields(input: UserInput): (f: UserFields)
    ensures f.hasClient
    ensures f.username == input.username && f.password == input.password
    ensures f.name == input.name && f.surname == input.surname && f.email == input.email
  {
    UserFields(input.username, input.password, input.name, input.surname, input.email, true)
  }

  /** How `addUser` ends: a response, the constraint-violation exception,
      or a failed flush (the username's unique index refuses the row). */
  datatype AddOutcome =
    | Returned(response: JsonResponse)
    | Raised(exception: HttpException)
    | FlushFailed

  class UserController {
    const cache: TagAwareCache
    const store: UserTable
    const serializeUsers: seq<UserRecord> -> string
    const serializeUser: UserRecord -> string
    const hashPassword: string -> string
    const userUrl: nat -> string
    const isEmail: string -> bool
    const isStrongPassword: string -> bool

    /** The store keeps its invariant and every cached users list matches
        the store. */
    ghost predicate Valid()
      reads cache, store
    {
      store.Valid() && UserCacheCoherent(cache.entries, store.rows, serializeUsers)
    }

    constructor (cache: TagAwareCache, store: UserTable,
                 serializeUsers: seq<UserRecord> -> string, serializeUser: UserRecord -> string,
                 hashPassword: string -> string, userUrl: nat -> string,
                 isEmail: string -> bool, isStrongPassword: string -> bool)
      requires store.Valid() && UserCacheCoherent(cache.entries, store.rows, serializeUsers)
      ensures Valid()
      ensures this.cache == cache && this.store == store
      ensures this.serializeUsers == serializeUsers && this.serializeUser == serializeUser
      ensures this.hashPassword == hashPassword && this.userUrl == userUrl
      ensures this.isEmail == isEmail && this.isStrongPassword == isStrongPassword
    {
      this.cache, this.store := cache, store;
      this.serializeUsers, this.serializeUser := serializeUsers, serializeUser;
      this.hashPassword, this.userUrl := hashPassword, userUrl;
      this.isEmail, this.isStrongPassword := isEmail, isStrongPassword;
    }

    /** `getUsersByClient`: the caller's whole users list, from the cache
        entry `userCache-{id}` or computed and stored under it with the same
        tag. Either way the body is the current list. */
    method GetUsersByClient(caller: Client) returns (response: JsonResponse, hit: bool)
      requires Valid() && caller.id.Some?
      modifies cache
      ensures Valid()
      ensures response == JsonResponse(StatusOk,
        RawJson(serializeUsers(ClientUsers(store.rows, caller.id.value))), None)
      ensures hit <==> UserCacheKey(caller.id.value) in old(cache.entries)
      ensures hit ==> response.body == RawJson(old(cache.entries)[UserCacheKey(caller.id.value)].payload)
      ensures hit ==> cache.entries == old(cache.entries)
      ensures !hit ==> cache.entries == old(cache.entries)[UserCacheKey(caller.id.value) :=
        Entry(response.body.json, {UserCacheKey(caller.id.value)})]
    {
      var clientId := caller.id.value;
      var idCache := UserCacheKey(clientId);
      var rows := store.rows;
      var serialize := serializeUsers;
      CoherentAfterStore(cache.entries, rows, serialize, clientId);
      var json;
      json, hit := cache.Get(idCache, {idCache}, () => serialize(ClientUsers(rows, clientId)));
      response := JsonResponse(StatusOk, RawJson(json), None);
    }

    /** `getClientUser` as written: no tenant check. */
    method GetClientUser(caller: Client, id: nat) returns (response: JsonResponse)
      requires caller.id.Some?
      ensures response == ClientUserResponse(store.rows, caller.id.value, id, serializeUser)
    {
      var found := FindById(store.rows, id);
      if found.None? {
        return JsonResponse(StatusNotFound, NullData, None);
      }
      var user := store.rows[found.value];
      response := JsonResponse(StatusOk, RawJson(serializeUser(user)), None);
    }

    /** `getClientUser` with the tenant check restored. */
    method GetOwnedClientUser(caller: Client, id: nat) returns (response: JsonResponse)
      requires caller.id.Some?
      ensures response == OwnedUserResponse(store.rows, caller.id.value, id, serializeUser)
    {
      var found := FindOneByIdAndClient(store.rows, id, caller.id.value);
      if found.None? {
        return JsonResponse(StatusNotFound, NullData, None);
      }
      var user := store.rows[found.value];
      response := JsonResponse(StatusOk, RawJson(serializeUser(user)), None);
    }

    /** `deleteUser`: 404 and no change unless the caller owns a user with
        that id; otherwise the caller's tag is invalidated, the user removed
        and 204 returned. Other clients' cached lists survive. */
    method DeleteUser(caller: Client, id: nat) returns (response: JsonResponse)
      requires Valid() && caller.id.Some?
      modifies cache, store
      ensures Valid()
      ensures FindOneByIdAndClient(old(store.rows), id, caller.id.value).None? ==>
        response == JsonResponse(StatusNotFound, NullData, None) && unchanged(cache, store)
      ensures var found := FindOneByIdAndClient(old(store.rows), id, caller.id.value);
        found.Some? ==>
          && response == JsonResponse(StatusNoContent, NullData, None)
          && cache.entries == Invalidated(old(cache.entries), {UserCacheKey(caller.id.value)})
          && store.rows == old(store.rows)[..found.value] + old(store.rows)[found.value + 1..]
          && store.nextId == old(store.nextId)
      ensures forall c: nat :: c != caller.id.value && UserCacheKey(c) in old(cache.entries) ==>
        UserCacheKey(c) in cache.entries && cache.entries[UserCacheKey(c)] == old(cache.entries)[UserCacheKey(c)]
    {
      var clientId := caller.id.value;
      var found := FindOneByIdAndClient(store.rows, id, clientId);
      if found.None? {
        return JsonResponse(StatusNotFound, NullData, None);
      }
      var i := found.value;
      InvalidateSparesOtherClients(cache.entries, store.rows, serializeUsers, clientId);
      RemovingOwnRowKeepsOthers(store.rows, i, clientId);
      CoherentAfterClientChange(cache.entries, store.rows, store.rows[..i] + store.rows[i + 1..],
                                serializeUsers, clientId);
      cache.InvalidateTags({UserCacheKey(clientId)});
      store.RemoveAt(i);
      response := JsonResponse(StatusNoContent, NullData, None);
    }

    /** `addUser`: the caller is set as the client, the user validated;
        violations raise the 400 exception before anything changes.
        Otherwise the password is replaced by its hash, the caller's tag
        invalidated, the creation date stamped and the user stored with the
        next id; the answer is 201 with the user and its Location. */
    method AddUser(caller: Client, input: UserInput, now: Timestamp) returns (outcome: AddOutcome)
      requires Valid() && caller.id.Some?
      modifies cache, store
      ensures Valid()
      ensures !UserAcceptable(InputFields(input), isEmail, isStrongPassword) ==>
        && outcome == Raised(HttpException(StatusBadRequest,
             DetailPrefix + Segments(ValidateUser(InputFields(input), isEmail, isStrongPassword))))
        && unchanged(cache, store)
      ensures UserAcceptable(InputFields(input), isEmail, isStrongPassword) ==>
        cache.entries == Invalidated(old(cache.entries), {UserCacheKey(caller.id.value)})
      ensures (UserAcceptable(InputFields(input), isEmail, isStrongPassword)
               && UsernameTaken(old(store.rows), input.username.value, store.collate)) ==>
        outcome == FlushFailed && store.rows == old(store.rows) && store.nextId == old(store.nextId) + 1
      ensures (UserAcceptable(InputFields(input), isEmail, isStrongPassword)
               && !UsernameTaken(old(store.rows), input.username.value, store.collate)) ==>
        var row := UserRecord(old(store.nextId), caller.id.value, input.username.value,
                              hashPassword(input.password.value), input.name, input.surname,
                              input.email.value, now);
        && store.rows == old(store.rows) + [row]
        && store.nextId == old(store.nextId) + 1
        && outcome == Returned(JsonResponse(StatusCreated, RawJson(serializeUser(row)), Some(userUrl(row.id))))
    {
      var clientId := caller.id.value;
      var user := new User();
      user.username, user.password, user.email := input.username, input.password, input.email;
      user.name, user.surname := input.name, input.surname;
      user.SetClient(caller);
      assert user.Fields() == InputFields(input);
      var errors := ValidateUser(user.Fields(), isEmail, isStrongPassword);
      ValidateUserEmptyIff(user.Fields(), isEmail, isStrongPassword);
      if |errors| > 0 {
        var e := NewConstraintViolationException(StatusBadRequest, errors);
        return Raised(e);
      }
      user.SetPassword(hashPassword(user.password.value));
      CoherentAfterInvalidate(cache.entries, store.rows, serializeUsers, {UserCacheKey(clientId)});
      cache.InvalidateTags({UserCacheKey(clientId)});
      user.SetCreationDateValue(now);
      var draft := UserRecord(0, clientId, user.username.value, user.password.value,
                              user.name, user.surname, user.email.value, now);
      ghost var before := store.rows;
      AppendingOwnRowKeepsOthers(before, draft.(id := store.nextId), clientId);
      CoherentAfterClientChange(old(cache.entries), before, before + [draft.(id := store.nextId)],
                                serializeUsers, clientId);
      var id := store.Insert(draft);
      if id.None? {
        return FlushFailed;
      }
      user.id := id;
      var stored := draft.(id := id.value);
      outcome := Returned(JsonResponse(StatusCreated, RawJson(serializeUser(stored)), Some(userUrl(id.value))));
    }
  }

  class ProductController<Product> {
    const cache: TagAwareCache
    const findAllWithPagination: (string, string) -> seq<Product>
    const serializeProducts: seq<Product> -> string
    const serializeProduct: Product -> string

    constructor (cache: TagAwareCache, findAllWithPagination: (string, string) -> seq<Product>,
                 serializeProducts: seq<Product> -> string, serializeProduct: Product -> string)
      ensures this.cache == cache && this.findAllWithPagination == findAllWithPagination
      ensures this.serializeProducts == serializeProducts && this.serializeProduct == serializeProduct
    {
      this.cache, this.findAllWithPagination := cache, findAllWithPagination;
      this.serializeProducts, this.serializeProduct := serializeProducts, serializeProduct;
    }

    /** `getAllProducts`: `page` defaults to "1" and `limit` to "10"; the
        page is read from `productsCache-{page}-{limit}` or fetched,
        serialized and stored there with the tag `productsCache`. */
    method GetAllProducts(page: Option<string>, limit: Option<string>)
      returns (response: JsonResponse, hit: bool)
      modifies cache
      ensures var p, l := QueryParameter(page, DefaultPage), QueryParameter(limit, DefaultLimit);
        var key := ProductsCacheKey(p, l);
        && response.status == StatusOk && response.location == None
        && (hit <==> key in old(cache.entries))
        && (hit ==> response.body == RawJson(old(cache.entries)[key].payload)
                    && cache.entries == old(cache.entries))
        && (!hit ==> response.body == RawJson(serializeProducts(findAllWithPagination(p, l)))
                     && cache.entries == old(cache.entries)[key := Entry(response.body.json, {ProductsTag})])
    {
      var p := QueryParameter(page, DefaultPage);
      var l := QueryParameter(limit, DefaultLimit);
      var idCache := ProductsCacheKey(p, l);
      var find, serialize := findAllWithPagination, serializeProducts;
      var json;
      json, hit := cache.Get(idCache, {ProductsTag}, () => serialize(find(p, l)));
      response := JsonResponse(StatusOk, RawJson(json), None);
    }

    /** `getProduct`: 404 without a product, otherwise 200 with it. */
    method GetProduct(product: Option<Product>) returns (response: JsonResponse)
      ensures product.None? ==> response == JsonResponse(StatusNotFound, NullData, None)
      ensures product.Some? ==>
        response == JsonResponse(StatusOk, RawJson(serializeProduct(product.value)), None)
    {
      if product.None? {
        return JsonResponse(StatusNotFound, NullData, None);
      }
      response := JsonResponse(StatusOk, RawJson(serializeProduct(product.value)), None);
    }
  }
}
