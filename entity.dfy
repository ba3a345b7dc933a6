/** The `Client` and `User` Doctrine entities: their fields, setters, the
    role and identifier accessors of `Client`, and the two sides of the
    Client-User association kept in step by `AddUser` and `RemoveUser`. */
module Entity {
  import opened Common
  import opened UserConstraints

  /** A point in time; "now" is supplied by the caller. */
  type Timestamp = int

  const RoleUser := "ROLE_USER"

  /** PHP's `array_unique` on a list of strings: the first occurrence of
      each value is kept, later repeats are dropped, order is preserved. */
  function ArrayUnique(s: seq<string>): (r: seq<string>)
    ensures NoDuplicates(r)
    ensures forall x :: x in r <==> x in s
    decreases |s|
  {
    if s == [] then []
    else
      var rest := ArrayUnique(s[..|s| - 1]);
      if s[|s| - 1] in rest then rest else rest + [s[|s| - 1]]
  }

  /** On a list without repeats `array_unique` changes nothing. */
  lemma {:induction false} ArrayUniqueOfDistinct(s: seq<string>)
    requires NoDuplicates(s)
    ensures ArrayUnique(s) == s
  {
    if s != [] {
      var k := |s| - 1;
      ArrayUniqueOfDistinct(s[..k]);
      assert s[k] !in s[..k];
    }
  }

  /** `ArrayCollection::removeElement`: drops the first occurrence of `x`,
      if any. */
  function RemoveFirst<T(==)>(s: seq<T>, x: T): (r: seq<T>)
    ensures x !in s ==> r == s
    ensures x in s ==> |r| == |s| - 1
    ensures multiset(r) == multiset(s) - multiset{x}
  {
    if s == [] then []
    else
      assert s == [s[0]] + s[1..];
      if s[0] == x then s[1..] else [s[0]] + RemoveFirst(s[1..], x)
  }

  /** Removing one element keeps every other element. */
  lemma RemoveFirstKeepsOthers<T>(s: seq<T>, x: T, y: T)
    requires y in s && y != x
    ensures y in RemoveFirst(s, x)
  {
    assert y in multiset(s) && multiset(RemoveFirst(s, x))[y] == multiset(s)[y];
  }

  /** Removing from a list without repeats removes the element entirely
      and keeps the list free of repeats. */
  lemma {:induction false} RemoveFirstOfDistinct<T>(s: seq<T>, x: T)
    requires NoDuplicates(s)
    ensures NoDuplicates(RemoveFirst(s, x))
    ensures x !in RemoveFirst(s, x)
    ensures forall y :: y in RemoveFirst(s, x) ==> y in s
  {
    if s != [] && s[0] != x {
      assert NoDuplicates(s[1..]);
      RemoveFirstOfDistinct(s[1..], x);
      var r := RemoveFirst(s[1..], x);
      assert s[0] !in s[1..];
      assert s[0] !in r;
    } else if s != [] {
      assert x !in s[1..];
    }
  }

  class User {
    var id: Option<nat>
    var username: Option<string>
    var password: Option<string>
    var name: Option<string>
    var surname: Option<string>
    var email: Option<string>
    var creationDate: Option<Timestamp>
    var client: Client?

    /** A new entity: every field null. */
    constructor ()
      ensures id == None && username == None && password == None
      ensures name == None && surname == None && email == None
      ensures creationDate == None && client == null
    {
      id, username, password, name, surname, email := None, None, None, None, None, None;
      creationDate, client := None, null;
    }

    /** What the validator reads from this entity. */
    function Fields(): UserFields
      reads this
    {
      UserFields(username, password, name, surname, email, client != null)
    }

    method SetUsername(username: string)
      modifies this`username
      ensures this.username == Some(username)
    {
      this.username := Some(username);
    }

    method SetPassword(password: string)
      modifies this`password
      ensures this.password == Some(password)
    {
      this.password := Some(password);
    }

    method SetName(name: Option<string>)
      modifies this`name
      ensures this.name == name
    {
      this.name := name;
    }

    method SetSurname(surname: Option<string>)
      modifies this`surname
      ensures this.surname == surname
    {
      this.surname := surname;
    }

    method SetEmail(email: string)
      modifies this`email
      ensures this.email == Some(email)
    {
      this.email := Some(email);
    }

    method SetCreationDate(date: Timestamp)
      modifies this`creationDate
      ensures creationDate == Some(date)
    {
      creationDate := Some(date);
    }

    /** The pre-persist callback: stamps the entity with the current time. */
    method SetCreationDateValue(now: Timestamp)
      modifies this`creationDate
      ensures creationDate == Some(now)
    {
      creationDate := Some(now);
    }

    /** The owning side of the association; `null` is accepted. */
    method SetClient(client: Client?)
      modifies this`client
      ensures this.client == client
    {
      this.client := client;
    }
  }

  class Client {
    var id: Option<nat>
    var email: Option<string>
    var roles: seq<string>
    var password: Option<string>
    var users: seq<User>
    var name: Option<string>
    var address: Option<string>
    var addressComplement: Option<string>
    var postalCode: Option<string>
    var city: Option<string>
    var creationDate: Option<Timestamp>

    /** A new entity: no users, no stored roles, every other field null. */
    constructor ()
      ensures id == None && email == None && roles == [] && password == None
      ensures users == [] && name == None && address == None
      ensures addressComplement == None && postalCode == None && city == None
      ensures creationDate == None
    {
      id, email, roles, password, users := None, None, [], None, [];
      name, address, addressComplement, postalCode, city := None, None, None, None, None;
      creationDate := None;
    }

    /** The inverse side agrees with the owning side: every held user is
        held once and points back at this client. */
    ghost predicate LinksConsistent()
      reads this, users
    {
      NoDuplicates(users) && forall u :: u in users ==> u.client == this
    }

    /** The owning side agrees with the inverse side, over the users in
        `all`: every one of them that points at this client is held. */
    ghost predicate LinksComplete(all: set<User>)
      reads this, all
    {
      forall u :: u in all && u.client == this ==> u in users
    }

    /** The security identifier is the email, or "" while it is null. */
    function GetUserIdentifier(): (r: string)
      reads this
      ensures email.Some? ==> r == email.value
      ensures email.None? ==> r == ""
    {
      if email.Some? then email.value else ""
    }

    /** The stored roles plus `ROLE_USER`, without repeats. */
    function GetRoles(): (r: seq<string>)
      reads this
      ensures RoleUser in r
      ensures forall x :: x in roles ==> x in r
      ensures forall x :: x in r ==> x in roles || x == RoleUser
      ensures NoDuplicates(r)
    {
      ArrayUnique(roles + [RoleUser])
    }

    /** `addUser`: a user not yet held is appended and pointed at this
        client. A user held by another client is re-pointed but stays in
        that client's `users`. */
    method AddUser(user: User, ghost all: set<User>)
      modifies this`users, user`client
      ensures user in users
      ensures user in old(users) ==> users == old(users) && user.client == old(user.client)
      ensures user !in old(users) ==> users == old(users) + [user] && user.client == this
      ensures old(LinksConsistent()) ==> LinksConsistent() && user.client == this
      ensures old(LinksComplete(all)) ==> LinksComplete(all)
    {
      if user !in users {
        users := users + [user];
        user.SetClient(this);
      }
    }

    /** `removeUser`: the user is dropped from `users` and, when it points at
        this client, its client is set to null. */
    method RemoveUser(user: User, ghost all: set<User>)
      modifies this`users, user`client
      ensures users == RemoveFirst(old(users), user)
      ensures user in old(users) && old(user.client) == this ==> user.client == null
      ensures !(user in old(users) && old(user.client) == this) ==> user.client == old(user.client)
      ensures old(LinksConsistent()) ==> LinksConsistent() && user !in users
      ensures old(LinksConsistent()) && user in old(users) ==> user.client == null
      ensures old(LinksComplete(all)) ==> LinksComplete(all)
    {
      ghost var wasConsistent := LinksConsistent();
      if LinksComplete(all) {
        forall u | u in all && u.client == this && u != user
          ensures u in RemoveFirst(users, user)
        {
          RemoveFirstKeepsOthers(users, user, u);
        }
      }
      if user in users {
        if wasConsistent {
          RemoveFirstOfDistinct(users, user);
        }
        users := RemoveFirst(users, user);
        if user.client == this {
          user.SetClient(null);
        }
      }
    }

    method SetEmail(email: string)
      modifies this`email
      ensures this.email == Some(email)
    {
      this.email := Some(email);
    }

    method SetRoles(roles: seq<string>)
      modifies this`roles
      ensures this.roles == roles
    {
      this.roles := roles;
    }

    method SetPassword(password: string)
      modifies this`password
      ensures this.password == Some(password)
    {
      this.password := Some(password);
    }

    method SetName(name: string)
      modifies this`name
      ensures this.name == Some(name)
    {
      this.name := Some(name);
    }

    method SetAddress(address: Option<string>)
      modifies this`address
      ensures this.address == address
    {
      this.address := address;
    }

    method SetAddressComplement(addressComplement: Option<string>)
      modifies this`addressComplement
      ensures this.addressComplement == addressComplement
    {
      this.addressComplement := addressComplement;
    }

    method SetPostalCode(postalCode: Option<string>)
      modifies this`postalCode
      ensures this.postalCode == postalCode
    {
      this.postalCode := postalCode;
    }

    method SetCity(city: Option<string>)
      modifies this`city
      ensures this.city == city
    {
      this.city := city;
    }

    method SetCreationDate(date: Timestamp)
      modifies this`creationDate
      ensures creationDate == Some(date)
    {
      creationDate := Some(date);
    }

    /** The pre-persist callback: whatever `SetCreationDate` stored, the
        creation date becomes the current time. */
    method SetCreationDateValue(now: Timestamp)
      modifies this`creationDate
      ensures creationDate == Some(now)
    {
      creationDate := Some(now);
    }
  }

  /** With stored roles that are distinct and do not include `ROLE_USER`,
      the roles come back in stored order followed by `ROLE_USER`. */
  lemma GetRolesOfDistinctRoles(c: Client)
    requires NoDuplicates(c.roles) && RoleUser !in c.roles
    ensures c.GetRoles() == c.roles + [RoleUser]
  {
    var s := c.roles + [RoleUser];
    assert NoDuplicates(s) by {
      forall i, j | 0 <= i < j < |s| ensures s[i] != s[j] {
        if j == |s| - 1 { assert s[i] in c.roles; }
      }
    }
    ArrayUniqueOfDistinct(s);
  }

  /** Client.php:180-188 does not take a user away from the client that
      holds it: after a second client adds it, the first still lists a
      user that now points elsewhere. */
  method MovedUserStaysWithFormerClient() returns (former: Client, current: Client, user: User)
    ensures current != former && user.client == current && user in former.users
    ensures !former.LinksConsistent()
  {
    former := new Client();
    current := new Client();
    user := new User();
    former.AddUser(user, {user});
    current.AddUser(user, {user});
  }
}
