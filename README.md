# bilemo user and product API: a Dafny model

bilemo is a Symfony REST API. An authenticated client (a B2B customer)
manages its own end users and browses a product catalogue. This project
models the core of that API and proves properties of the model:

- the `User` and `Client` entities: their setters, the two sides of the
  client-user association, the role list, and the `User` validation
  constraints;
- the user table behind the entity manager: auto-increment ids and a
  `username` unique under the column's collation;
- `UserRepository`: a client's users, offset pagination, and the page
  count query;
- the `PaginatedResponse` envelope and the HATEOAS navigation links of its
  users and products subclasses;
- `ValidationErrorService` and `ConstraintViolationException`, which turn
  a violation list into a 400 answer;
- `UserController` and `ProductController`, running over a tag-aware
  cache and the user table.

Layout, one module per file:

| file | module | models |
|---|---|---|
| common.dfy | `Common` | optional values, results, PHP's decimal rendering of an integer |
| http.dfy | `Http` | JSON responses, HTTP exceptions, status codes |
| validator.dfy | `Validator` | violation entries; `NotBlank`, `Length`, `Email`, `PasswordStrength` behaviour |
| user_constraints.dfy | `UserConstraints` | the `User` entity's constraint attributes as a violation list |
| entity.dfy | `Entity` | classes `User` and `Client` |
| store.dfy | `Store` | the persisted user rows (class `UserTable`) |
| repository.dfy | `Repository` | `UserRepository` queries |
| pagination.dfy | `Pagination` | `PaginatedResponse` and its link relations |
| validation_error_service.dfy | `ValidationErrorService` | `createValidationErrorResponse` |
| constraint_violation.dfy | `ConstraintViolation` | the `ConstraintViolationException` constructor |
| cache.dfy | `Cache` | the tag-aware cache (class `TagAwareCache`) |
| controller.dfy | `Controller` | classes `UserController` and `ProductController`, cache keys, cache coherence |

Collaborators the code only calls are parameters of the model:

- the JMS serializer, the password hasher and the URL generator;
- the `Email` and `PasswordStrength` decisions;
- `ProductRepository::findAllWithPagination`;
- the clock, which is passed in as `now`.

The authenticated client (`$this->getUser()`) is the `caller` argument.
The central invariant is `UserController.Valid`:

- the table's ids are unique, and so are its usernames under the column's
  collation;
- every cached users list equals the current list of its client and
  carries that client's tag.

Every `UserController` endpoint preserves it: the ones that change the
cache or the table (`GetUsersByClient`, `DeleteUser`, `AddUser`) ensure
`Valid()`, and `GetClientUser` and `GetOwnedClientUser` modify nothing, so
`Valid()` holds by framing.
`ProductController.GetAllProducts` shares the cache: it only stores a
products entry, and `ProductsEntryKeepsUserCacheCoherent` shows that such a
store leaves every users list coherent.

## Model

| member | source | states |
|---|---|---|
| Common.NatToString | src/Controller/UserController.php:94 | the decimal rendering of an id is non-empty, all digits, one digit exactly below 10, "0" only for 0 and otherwise without a leading zero |
| Common.NatToStringInjective | src/Controller/UserController.php:94 | different ids render as different strings |
| Validator.NotBlank | src/Entity/User.php:63 | `NotBlank` reports at most one violation, exactly for null or "" |
| Validator.Length | src/Entity/User.php:64-69 | `Length` reports at most one violation; null is skipped; max is checked before min |
| Validator.Delegated | src/Entity/User.php:75-77 | `PasswordStrength`/`Email` report at most one violation and skip null and "" |
| UserConstraints.UsernameViolations | src/Entity/User.php:62-70 | no username violation iff it is set and 1..180 long; blank gives "You must enter a username" under `username` |
| UserConstraints.PasswordViolations | src/Entity/User.php:72-78 | no password violation iff non-empty and strong; blank gives "You must enter a password" |
| UserConstraints.NameViolations | src/Entity/User.php:80-91 | no name violation iff set and 1..50 long; blank gives "You must enter a name" |
| UserConstraints.SurnameViolations | src/Entity/User.php:93-104 | no surname violation iff set and 1..50 long; blank gives "You must enter a surname" |
| UserConstraints.EmailViolations | src/Entity/User.php:106-118 | no email violation iff non-empty, at most 50 long and a valid address; blank gives "You must enter an email adress" |
| UserConstraints.ClientViolations | src/Entity/User.php:124-130 | a violation under `client` iff no client is set |
| UserConstraints.ValidateUser | src/Entity/User.php:62-130 | a missing client is reported with its message, and only then; the empty-iff-acceptable, blank-field and path properties are `ValidateUserEmptyIff`, `BlankFieldsReported` and `ViolationPathsAreProperties` |
| UserConstraints.ValidateUserEmptyIff | src/Entity/User.php:62-130 | the validator reports nothing iff every field satisfies its constraints and the client is set |
| UserConstraints.BlankFieldsReported | src/Entity/User.php:62-130 | each blank required field is reported under its path with its NotBlank message |
| UserConstraints.ViolationPathsAreProperties | src/Entity/User.php:62-130 | every violation names one of the six constrained properties |
| Entity.ArrayUnique | src/Entity/Client.php:135 | `array_unique` leaves no repeats and keeps exactly the same values |
| Entity.ArrayUniqueOfDistinct | src/Entity/Client.php:135 | on a list without repeats `array_unique` changes nothing |
| Entity.RemoveFirst | src/Entity/Client.php:192 | `removeElement` removes one occurrence when present, else nothing |
| Entity.RemoveFirstOfDistinct | src/Entity/Client.php:192 | on a list without repeats the element is gone afterwards and no repeat appears |
| Entity.User.constructor | src/Entity/User.php:59-130 | a new user has every field null |
| Entity.User.SetUsername | src/Entity/User.php:142-147 | stores the username, no other field changes |
| Entity.User.SetPassword | src/Entity/User.php:154-159 | stores the password, no other field changes |
| Entity.User.SetName | src/Entity/User.php:166-171 | stores the name (null allowed), no other field changes |
| Entity.User.SetSurname | src/Entity/User.php:178-183 | stores the surname (null allowed), no other field changes |
| Entity.User.SetEmail | src/Entity/User.php:190-195 | stores the email, no other field changes |
| Entity.User.SetCreationDate | src/Entity/User.php:202-207 | stores the date, no other field changes |
| Entity.User.SetCreationDateValue | src/Entity/User.php:209-213 | the pre-persist callback sets a non-null creation date, the current time |
| Entity.User.SetClient | src/Entity/User.php:220-225 | stores exactly the given client, which may be null; no other field changes |
| Entity.Client.constructor | src/Entity/Client.php:92-95 | a new client holds no users and no stored roles |
| Entity.Client.GetUserIdentifier | src/Entity/Client.php:119-122 | the identifier is the email ("" while it is null) |
| Entity.Client.GetRoles | src/Entity/Client.php:129-136 | contains ROLE_USER and every stored role, nothing else, no repeats; reads only, so `roles` is unchanged |
| Entity.GetRolesOfDistinctRoles | src/Entity/Client.php:129-136 | distinct stored roles without ROLE_USER come back in order followed by ROLE_USER |
| Entity.Client.SetRoles | src/Entity/Client.php:141-146 | stores the roles, no other field changes |
| Entity.Client.AddUser | src/Entity/Client.php:180-188 | a new user is appended once and its client set to this one; a held user changes nothing; this client's link consistency (held users point back) and completeness (users pointing here are held) are preserved |
| Entity.RemoveFirstKeepsOthers | src/Entity/Client.php:190-200 | `removeElement` keeps every element other than the one removed |
| Entity.MovedUserStaysWithFormerClient | src/Entity/Client.php:180-188 | a user added to a second client still appears in the first client's users while pointing at the second, so the first loses link consistency |
| Entity.Client.RemoveUser | src/Entity/Client.php:190-200 | a held user is removed and its client nulled if it was this one; a user not held changes nothing; this client's link consistency and completeness are preserved |
| Entity.Client.SetEmail | src/Entity/Client.php:107-112 | stores the email, no other field changes |
| Entity.Client.SetPassword | src/Entity/Client.php:156-161 | stores the password, no other field changes |
| Entity.Client.SetName | src/Entity/Client.php:207-212 | stores the name, no other field changes |
| Entity.Client.SetAddress | src/Entity/Client.php:219-224 | stores the address, no other field changes |
| Entity.Client.SetAddressComplement | src/Entity/Client.php:231-236 | stores the address complement, no other field changes |
| Entity.Client.SetPostalCode | src/Entity/Client.php:243-248 | stores the postal code, no other field changes |
| Entity.Client.SetCity | src/Entity/Client.php:255-260 | stores the city, no other field changes |
| Entity.Client.SetCreationDate | src/Entity/Client.php:267-272 | stores the date, no other field changes |
| Entity.Client.SetCreationDateValue | src/Entity/Client.php:274-278 | on pre-persist the creation date becomes the current time, whatever was set before |
| Store.RemoveAtKeepsDistinct | src/Entity/User.php:51 | removing a row keeps ids and usernames unique |
| Store.UserTable.constructor | src/Entity/User.php:51-59 | an empty table that satisfies the uniqueness invariant |
| Store.UserTable.Insert | src/Entity/User.php:51-59 | a username that collides with no stored one under the collation is stored with the next id; a colliding one makes the flush fail with nothing stored, the auto-increment value being used up all the same; the invariant holds |
| Store.UserTable.RemoveAt | src/Controller/UserController.php:187-188 | exactly the chosen row is removed, the invariant holds |
| Repository.ClientUsers | src/Repository/UserRepository.php:42-44 | a user is listed iff it is in the table with that client |
| Repository.ClientUsersAppend | src/Repository/UserRepository.php:42-44 | filtering by client distributes over concatenation |
| Repository.OtherClientRowInvisible | src/Repository/UserRepository.php:42-44 | another client's row never changes this client's list |
| Repository.RemovingOwnRowKeepsOthers | src/Controller/UserController.php:187-188 | deleting a client's user leaves every other client's list unchanged |
| Repository.AppendingOwnRowKeepsOthers | src/Controller/UserController.php:242-243 | adding a client's user leaves every other client's list unchanged |
| Repository.FindById | src/Controller/UserController.php:143 | the id resolver finds a row with that id, or none exists |
| Repository.FindOneByIdAndClient | src/Controller/UserController.php:180 | `findOneBy` finds a row with that id and client, or none exists |
| Repository.FindOneByIdAndClientIsOwnedFindById | src/Controller/UserController.php:180 | with unique ids, the owner-restricted lookup is the id lookup restricted to the client's own row |
| Repository.RemovedIdIsGone | src/Controller/UserController.php:187-188 | after removal the id is no longer found |
| Repository.FindByClientWithPagination | src/Repository/UserRepository.php:40-49 | succeeds iff offset and limit are non-negative; at most `limit` users, all of that client |
| Repository.PageIsSlice | src/Repository/UserRepository.php:45-46 | page p is the run of `min(limit, N - offset)` users starting at `(p - 1) * limit` |
| Repository.PageBeyondEndIsEmpty | src/Repository/UserRepository.php:45-46 | a page starting past the end is empty |
| Repository.ConcatPagesIsPrefix | src/Repository/UserRepository.php:45-46 | pages 1..k are exactly the first k * limit users |
| Repository.PagesReconstructClientUsers | src/Repository/UserRepository.php:40-49 | once k * limit covers the count, pages 1..k give back every user once, in order |
| Repository.CountByClientWithPagination | src/Repository/UserRepository.php:51-63 | as written: a negative offset or limit fails with `InvalidLimitClause` and only then; an answer is given only for page 1 and is the client's user count, not a page count (with `CountAnswersOnlyPageOne`) |
| Repository.CountAnswersOnlyPageOne | src/Repository/UserRepository.php:51-63 | the count query as written answers only on page 1, with the user count, and fails with no result on later pages |
| Repository.NumberOfPages | src/Repository/UserRepository.php:51-63 | the page count is the least n with n * limit >= N |
| Repository.FewerPagesThanItems | src/Repository/UserRepository.php:51-63 | with limit >= 2 and N > limit the page count is below N |
| Repository.CountFailsOnPageTwo | src/Repository/UserRepository.php:57-62 | with N > limit the as-written count fails on page 2 although page 2 holds users |
| Repository.CountIsNotPageCount | src/Repository/UserRepository.php:62 | with limit >= 2 and N > limit the as-written page-1 answer is not the page count |
| Repository.NumberOfPagesCoversAll | src/Repository/UserRepository.php:40-63 | pages 1..NumberOfPages give back every user; every later page is empty |
| Pagination.GetUsers | src/Service/PaginatedResponseUsers.php:62-65 | the envelope is its users together with its page, page count and limit |
| Pagination.GetProducts | src/Service/PaginatedResponseProducts.php:51-54 | the envelope is its products together with its page, page count and limit |
| Pagination.GettersReturnConstructorArguments | src/Service/PaginatedResponse.php:17-43 | the getters, `getUsers` and `getProducts` return what the constructor was given |
| Pagination.FindRel | src/Service/PaginatedResponseUsers.php:10-44 | a relation found is in the list with that name; none found means none present |
| Pagination.NavigationLinks | src/Service/PaginatedResponseUsers.php:10-44 | two to four relations, `first` (page 1) and `last` (`totalPages`) leading, all on the given route with the envelope's limit |
| Pagination.FirstAndLastLead | src/Service/PaginatedResponseUsers.php:10-26 | `first` is page 1 and `last` is `totalPages`, both with the envelope's limit |
| Pagination.PrevLinkRule | src/Service/PaginatedResponseUsers.php:28-35 | `prev` is present iff currentPage > 1, and then points at currentPage - 1 |
| Pagination.NextLinkRule | src/Service/PaginatedResponseUsers.php:37-44 | `next` is present iff currentPage < totalPages, and then points at currentPage + 1 |
| Pagination.LinksShareRouteAndLimit | src/Service/PaginatedResponseUsers.php:10-44 | every link keeps the route and the limit; no relation appears twice |
| Pagination.NavigationLinkRules | src/Service/PaginatedResponseProducts.php:9-41 | the four relation rules together, for either route |
| Pagination.UsersLinks | src/Service/PaginatedResponseUsers.php:10-44 | either no relation or exactly the navigation relations on `getUsersByClient`; without a group context they are always present |
| Pagination.UsersLinksVisibility | src/Service/PaginatedResponseUsers.php:10-44 | users relations appear iff the context has no groups or selects `getUsers`, on route `getUsersByClient` |
| Pagination.ProductsLinks | src/Service/PaginatedResponseProducts.php:9-41 | either no relation or exactly the navigation relations on `getAllProducts`; without a group context they are always present |
| Pagination.ProductsLinksVisibility | src/Service/PaginatedResponseProducts.php:9-41 | products relations appear iff the context has no groups or selects Default, on route `getAllProducts` |
| Pagination.SinglePageHasNoNeighbours | src/Service/PaginatedResponseProducts.php:25-41 | page 1 of 1 has neither `prev` nor `next` |
| ValidationErrorService.CreateValidationErrorResponse | src/Service/ValidationErrorService.php:11-22 | the loop builds the path-to-message map; the answer is 400 with status "error" and that map |
| ValidationErrorService.ErrorMessagesKeys | src/Service/ValidationErrorService.php:13-16 | the map's keys are exactly the violated paths |
| ValidationErrorService.ErrorMessagesLastWins | src/Service/ValidationErrorService.php:15 | for a repeated path the last message is kept |
| ConstraintViolation.SegmentsAppend | src/Exception/ConstraintViolationException.php:14-17 | each violation appends "path : message. " to the detail |
| ConstraintViolation.NewConstraintViolationException | src/Exception/ConstraintViolationException.php:11-19 | the detail is the prefix followed by one segment per violation, in order, under the given status |
| ConstraintViolation.SegmentsEmptyIff | src/Exception/ConstraintViolationException.php:14-17 | the detail adds nothing iff there are no violations; each violation adds at least 5 characters |
| Cache.InvalidatedDropsExactlyTagged | src/Controller/UserController.php:186 | invalidation drops exactly the entries carrying a given tag and keeps the others unchanged |
| Cache.InvalidateIdempotent | src/Controller/UserController.php:186 | invalidating the same tags twice equals once |
| Cache.TagAwareCache.constructor | src/Controller/UserController.php:32 | the cache starts empty |
| Cache.TagAwareCache.Get | src/Controller/UserController.php:96-101 | a hit returns the stored payload and changes nothing; a miss computes, stores with the given tags and returns |
| Cache.TagAwareCache.InvalidateTags | src/Controller/UserController.php:186 | the entries afterwards are the old ones minus those carrying a tag |
| Controller.QueryParameter | src/Controller/ProductController.php:61-62 | an absent parameter takes its default |
| Controller.UserCacheKey | src/Controller/UserController.php:94-97 | the key is `userCache-` followed by digits only (and distinct per client, `UserCacheKeyInjective`) |
| Controller.UserCacheKeyInjective | src/Controller/UserController.php:94-97 | different clients have different users-list keys and tags |
| Controller.ProductsKeyIsNotUserKey | src/Controller/ProductController.php:64-67 | a products key is never a users-list key, and the products tag is never a client tag |
| Controller.ProductsCacheKey | src/Controller/ProductController.php:64 | the key is `productsCache-`, the page, a dash and the limit, each at its own position |
| Controller.ProductsCacheKeyInjective | src/Controller/ProductController.php:64 | dash-free (e.g. numeric) page values give distinct keys to distinct (page, limit) pairs |
| Controller.ProductsCacheKeyAmbiguous | src/Controller/ProductController.php:64 | page "1-2" with limit "3" shares its key with page "1" and limit "2-3" |
| Controller.CoherentAfterStore | src/Controller/UserController.php:96-101 | storing a freshly computed list under its client's key keeps every cached list current |
| Controller.CoherentAfterInvalidate | src/Controller/UserController.php:241 | dropping entries keeps every cached list current |
| Controller.CoherentAfterClientChange | src/Controller/UserController.php:186-188 | changing one client's users after invalidating its tag keeps every cached list current |
| Controller.InvalidateSparesOtherClients | src/Controller/UserController.php:186 | invalidating one client's tag keeps every other client's entry unchanged |
| Controller.ProductsEntryKeepsUserCacheCoherent | src/Controller/ProductController.php:66-70 | storing a products page does not disturb the users lists |
| Controller.ClientUserResponse | src/Controller/UserController.php:143-155 | as written: 200 iff some user has that id, whichever client owns it, and then with that user's serialization; otherwise 404 |
| Controller.ClientUserResponseCrossesClients | src/Controller/UserController.php:143-155 | as written, client 1 is served client 2's user with status 200 |
| Controller.OwnedUserResponse | src/Controller/UserController.php:146-150 | corrected: 200 iff the caller owns a user with that id; otherwise 404 with null data |
| Controller.OwnedUserResponseIsolation | src/Controller/UserController.php:146-150 | corrected: 200 iff the caller owns a user with that id, and then with that user; otherwise 404 |
| Controller.OwnedUserResponseAgreesOnOwnUsers | src/Controller/UserController.php:143-155 | on the caller's own users the corrected endpoint answers as the written one |
| Controller.DeletedUserIsNotFound | src/Controller/UserController.php:143-190 | after a deletion both versions of `getClientUser` answer 404 for that id |
| Controller.InputFields | src/Controller/UserController.php:221-226 | the validated fields are the request's, with the client set |
| Controller.UserController.constructor | src/Controller/UserController.php:54-66 | stores the collaborators; the invariant holds |
| Controller.UserController.GetUsersByClient | src/Controller/UserController.php:89-104 | always 200 with the caller's full current list; hit iff the key was cached, and then nothing changes; a miss stores the list under `userCache-{id}` tagged the same |
| Controller.UserController.GetClientUser | src/Controller/UserController.php:143-155 | as written: 404 only for an unknown id, otherwise 200 with that user, whoever owns it |
| Controller.UserController.GetOwnedClientUser | src/Controller/UserController.php:146-154 | corrected: answers as `OwnedUserResponse` |
| Controller.UserController.DeleteUser | src/Controller/UserController.php:175-190 | 404 and nothing changed unless the caller owns the id; otherwise the caller's tag is invalidated, exactly that row removed and 204 returned; other clients' entries survive; the invariant holds |
| Controller.UserController.AddUser | src/Controller/UserController.php:219-251 | violations raise 400 with the detail before anything changes; otherwise the caller's tag is invalidated and the user stored with the hashed password, the caller as client, the current time and the next id, answered with 201 and its Location; a username colliding under the collation fails the flush, nothing stored and one id used up; the invariant holds |
| Controller.ProductController.constructor | src/Controller/ProductController.php:31-36 | stores the collaborators |
| Controller.ProductController.GetAllProducts | src/Controller/ProductController.php:59-73 | defaults "1" and "10"; a hit returns the stored payload with 200 and changes nothing; a miss fetches that page, stores it under `productsCache-{page}-{limit}` tagged `productsCache`, and returns it |
| Controller.ProductController.GetProduct | src/Controller/ProductController.php:99-108 | 404 without a product, otherwise 200 with it serialized |

## Left out

- Serialization: JMS output, its groups on entity fields and the JSON text are a parameter (`serializeUsers`, `serializeUser`, `serializeProducts`, `serializeProduct`).
- Request deserialization is reduced to the five user fields: extra JSON properties (an `id`, a `creation_date`) and malformed bodies are not modelled.
- Password hashing, URL generation and the `Email`/`PasswordStrength` decisions are opaque function parameters.
- The clock: `setCreationDateValue` takes `now` instead of reading the time.
- Security: `IsGranted('ROLE_USER')`, authentication and the JWT layer. The caller is assumed authenticated and persisted (`caller.id.Some?`).
- The route's entity resolvers answer 404 through the framework. The model gives `404` with null data; the framework's error body is not modelled.
- `deleteUser` first resolves the id through the framework (404 if missing). That step is folded into `findOneBy`: an unknown id is never owned by the caller.
- `addUser` reads the client again with `clientRepository->find($idClient)`. The model uses the caller itself, which the identity map makes the same object.
- Entity.Client.AddUser: as in the source, a user held by another client is re-pointed without leaving that client's `users` (`MovedUserStaysWithFormerClient`); link consistency and completeness are promised for the receiving client only, not for every client.
- Controller.UserController.AddUser: a failed flush is returned as `FlushFailed` rather than as a 500 error page. The cache invalidation before it is kept.
- The `username` column's collation is the parameter `UserTable.collate` (a username's collation key); the rules of any concrete MySQL collation are not modelled.
- Database order: `findBy`/`findOneBy` are modelled in table (insertion) order. The ORM gives no ordering guarantee.
- Cache expiry, eviction, storage failures and concurrent requests are not modelled.
- `cache->get` locking and early recomputation are also not modelled.
- Ids are unbounded naturals; integer width and id exhaustion are not modelled.
- `array_unique` keeps the original array keys in PHP. The model renumbers them, as a list.
- JSON object key order in the error map of `createValidationErrorResponse` is not modelled (a `map`).
- Doctrine's `orphanRemoval` and cascade rules, the `Client` validation constraints, the `Product` entity, the fixtures and the migrations are not part of this model.
- `ProductRepository` is not part of this model; `findAllWithPagination` is a parameter.
- `getAllProducts` passes the raw query strings to the cache key and to the repository. The defaults are the strings "1" and "10"; PHP's integer defaults render the same in the key.
- Pagination.NavigationLinkRules: links carry the route name and the page and limit parameters, not the absolute URL.
- `getUsersByClient` uses `findBy`, not the paginated query; the paginated query and `PaginatedResponse` are modelled on their own, as no controller in this core wires them together.

## Findings

| source | as written | input that shows it | evidently intended | confidence | as-written member | corrected member |
|---|---|---|---|---|---|---|
| src/Repository/UserRepository.php:51-63 | the COUNT query reuses the builder that still carries `setFirstResult`/`setMaxResults`, and returns the row count | a client with 3 users, limit 2: page 2 yields no row (`getSingleScalarResult` throws) and page 1 answers 3, not 2 pages | the number of pages, `ceil(N / limit)`, independent of the page asked | not executed | Repository.CountByClientWithPagination (shown by Repository.CountFailsOnPageTwo, Repository.CountIsNotPageCount) | Repository.NumberOfPages (proved by Repository.NumberOfPagesCoversAll) |
| src/Controller/UserController.php:148 | `empty($user) && $user->getId() !== $idClient` is false for every resolved user, and it compares the user's id with the client's id | client 1 asks for user 7 of client 2: answer 200 with that user | 404 unless the user belongs to the caller | not executed | Controller.UserController.GetClientUser (shown by Controller.ClientUserResponseCrossesClients) | Controller.UserController.GetOwnedClientUser (proved by Controller.OwnedUserResponseIsolation) |
