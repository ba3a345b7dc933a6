/** `PaginatedResponse` and its two subclasses: an immutable envelope of
    one page, and the HATEOAS navigation relations (`first`, `last`,
    `prev`, `next`) their annotations declare. Only the page and limit
    parameters of each link are modelled, not the absolute URL. */
module Pagination {
  import opened Common

  datatype PaginatedResponse<T> = PaginatedResponse(
    items: seq<T>,
    currentPage: int,
    totalPages: int,
    limit: int)

  /** `PaginatedResponseUsers::getUsers`: the items, through `getItems`. */
  function GetUsers<T>(p: PaginatedResponse<T>): (r: seq<T>)
    ensures p == PaginatedResponse(r, p.currentPage, p.totalPages, p.limit)
  {
    p.items
  }

  /** `PaginatedResponseProducts::getProducts`: the items, through `getItems`. */
  function GetProducts<T>(p: PaginatedResponse<T>): (r: seq<T>)
    ensures p == PaginatedResponse(r, p.currentPage, p.totalPages, p.limit)
  {
    p.items
  }

  /** The getters give back what the constructor was given. */
  lemma GettersReturnConstructorArguments<T>(items: seq<T>, currentPage: int, totalPages: int, limit: int)
    ensures var p := PaginatedResponse(items, currentPage, totalPages, limit);
      && p.items == items && p.currentPage == currentPage
      && p.totalPages == totalPages && p.limit == limit
      && GetUsers(p) == items && GetProducts(p) == items
  {
  }

  datatype Rel = First | Last | Prev | Next

  /** A relation: its name, the route it points at and that route's
      `page` and `limit` parameters. */
  datatype Link = Link(rel: Rel, route: string, page: int, limit: int)

  const UsersRoute := "getUsersByClient"
  const ProductsRoute := "getAllProducts"
  const UsersGroup := "getUsers"

  /** The four relations of one envelope, in declaration order; `prev` is
      excluded when `currentPage <= 1`, `next` when
      `currentPage >= totalPages`. */
  function NavigationLinks<T>(route: string, p: PaginatedResponse<T>): (r: seq<Link>)
    ensures 2 <= |r| <= 4
    ensures r[0] == Link(First, route, 1, p.limit) && r[1] == Link(Last, route, p.totalPages, p.limit)
    ensures forall l :: l in r ==> l.route == route && l.limit == p.limit
  {
    [Link(First, route, 1, p.limit), Link(Last, route, p.totalPages, p.limit)]
    + (if p.currentPage <= 1 then [] else [Link(Prev, route, p.currentPage - 1, p.limit)])
    + (if p.currentPage >= p.totalPages then [] else [Link(Next, route, p.currentPage + 1, p.limit)])
  }

  /** The first link with the given relation, if any. */
  function FindRel(links: seq<Link>, rel: Rel): (r: Option<Link>)
    ensures r.Some? ==> r.value in links && r.value.rel == rel
    ensures r.None? ==> forall l :: l in links ==> l.rel != rel
  {
    if links == [] then None
    else if links[0].rel == rel then Some(links[0])
    else FindRel(links[1..], rel)
  }

  /** JMS group exclusion: a context without groups serializes everything;
      otherwise a relation is kept when one of its groups is in the
      context, a relation without groups counting as group "Default". */
  predicate InGroups(declared: set<string>, context: Option<set<string>>) {
    context.None?
    || (if declared == {} then "Default" in context.value else declared * context.value != {})
  }

  /** The relations of `PaginatedResponseUsers`: route `getUsersByClient`,
      each restricted to the group `getUsers`. */
  function UsersLinks<T>(p: PaginatedResponse<T>, context: Option<set<string>>): (r: seq<Link>)
    ensures r == [] || r == NavigationLinks(UsersRoute, p)
    ensures context.None? ==> r != []
  {
    if InGroups({UsersGroup}, context) then NavigationLinks(UsersRoute, p) else []
  }

  /** The relations of `PaginatedResponseProducts`: route `getAllProducts`,
      without groups. */
  function ProductsLinks<T>(p: PaginatedResponse<T>, context: Option<set<string>>): (r: seq<Link>)
    ensures r == [] || r == NavigationLinks(ProductsRoute, p)
    ensures context.None? ==> r != []
  {
    if InGroups({}, context) then NavigationLinks(ProductsRoute, p) else []
  }

  /** `first` and `last` lead the list; the search for `prev` and `next`
      starts after them. */
  lemma FirstAndLastLead<T>(route: string, p: PaginatedResponse<T>)
    ensures var links := NavigationLinks(route, p);
      && FindRel(links, First) == Some(Link(First, route, 1, p.limit))
      && FindRel(links, Last) == Some(Link(Last, route, p.totalPages, p.limit))
      && FindRel(links, Prev) == FindRel(links[2..], Prev)
      && FindRel(links, Next) == FindRel(links[2..], Next)
  {
    var links := NavigationLinks(route, p);
    assert links[0].rel == First && links[1].rel == Last;
    assert links[1..][0] == links[1] && links[1..][1..] == links[2..];
  }

  /** `prev` exists iff `currentPage > 1`, and is the page before. */
  lemma PrevLinkRule<T>(route: string, p: PaginatedResponse<T>)
    ensures var prev := FindRel(NavigationLinks(route, p), Prev);
      && (prev.Some? <==> p.currentPage > 1)
      && (prev.Some? ==> prev.value == Link(Prev, route, p.currentPage - 1, p.limit))
  {
    FirstAndLastLead(route, p);
    var rest := NavigationLinks(route, p)[2..];
    if p.currentPage > 1 {
      assert rest[0] == Link(Prev, route, p.currentPage - 1, p.limit);
    } else {
      assert forall l :: l in rest ==> l.rel == Next;
    }
  }

  /** `next` exists iff `currentPage < totalPages`, and is the page after. */
  lemma NextLinkRule<T>(route: string, p: PaginatedResponse<T>)
    ensures var next := FindRel(NavigationLinks(route, p), Next);
      && (next.Some? <==> p.currentPage < p.totalPages)
      && (next.Some? ==> next.value == Link(Next, route, p.currentPage + 1, p.limit))
  {
    FirstAndLastLead(route, p);
    var rest := NavigationLinks(route, p)[2..];
    if p.currentPage < p.totalPages {
      if p.currentPage > 1 {
        assert rest[0].rel == Prev && rest[1..][0] == Link(Next, route, p.currentPage + 1, p.limit);
      } else {
        assert rest[0] == Link(Next, route, p.currentPage + 1, p.limit);
      }
    } else {
      assert forall l :: l in rest ==> l.rel == Prev;
    }
  }

  /** Every link keeps the route and the limit, and no relation appears
      twice. */
  lemma LinksShareRouteAndLimit<T>(route: string, p: PaginatedResponse<T>)
    ensures var links := NavigationLinks(route, p);
      && (forall l :: l in links ==> l.route == route && l.limit == p.limit)
      && (forall i, j :: 0 <= i < j < |links| ==> links[i].rel != links[j].rel)
  {
  }

  /** The navigation rules together: `first` is page 1, `last` is
      `totalPages`, `prev` exists iff `currentPage > 1` and is the page
      before, `next` exists iff `currentPage < totalPages` and is the page
      after; every link keeps the route and the limit, and no relation
      appears twice. */
  lemma NavigationLinkRules<T>(route: string, p: PaginatedResponse<T>)
    ensures var links := NavigationLinks(route, p);
      && FindRel(links, First) == Some(Link(First, route, 1, p.limit))
      && FindRel(links, Last) == Some(Link(Last, route, p.totalPages, p.limit))
      && (FindRel(links, Prev).Some? <==> p.currentPage > 1)
      && (FindRel(links, Prev).Some? ==> FindRel(links, Prev).value.page == p.currentPage - 1)
      && (FindRel(links, Next).Some? <==> p.currentPage < p.totalPages)
      && (FindRel(links, Next).Some? ==> FindRel(links, Next).value.page == p.currentPage + 1)
      && (forall l :: l in links ==> l.route == route && l.limit == p.limit)
      && (forall i, j :: 0 <= i < j < |links| ==> links[i].rel != links[j].rel)
  {
    FirstAndLastLead(route, p);
    PrevLinkRule(route, p);
    NextLinkRule(route, p);
    LinksShareRouteAndLimit(route, p);
  }

  /** Users relations are emitted exactly when the context selects the
      `getUsers` group (or selects no group at all), and then follow the
      navigation rules on route `getUsersByClient`. */
  lemma UsersLinksVisibility<T>(p: PaginatedResponse<T>, context: Option<set<string>>)
    ensures UsersLinks(p, context) != [] <==> context.None? || UsersGroup in context.value
    ensures UsersLinks(p, context) != [] ==> UsersLinks(p, context) == NavigationLinks(UsersRoute, p)
  {
    if context.Some? && UsersGroup in context.value {
      assert UsersGroup in {UsersGroup} * context.value;
    }
  }

  /** Products relations are emitted when the context selects no group or
      the "Default" group, and then follow the navigation rules on route
      `getAllProducts`. */
  lemma ProductsLinksVisibility<T>(p: PaginatedResponse<T>, context: Option<set<string>>)
    ensures ProductsLinks(p, context) != [] <==> context.None? || "Default" in context.value
    ensures ProductsLinks(p, context) != [] ==> ProductsLinks(p, context) == NavigationLinks(ProductsRoute, p)
  {
  }

  /** On page 1 of a single page, neither `prev` nor `next` is present. */
  lemma SinglePageHasNoNeighbours<T>(route: string, p: PaginatedResponse<T>)
    requires p.currentPage == 1 && p.totalPages == 1
    ensures FindRel(NavigationLinks(route, p), Prev) == None
    ensures FindRel(NavigationLinks(route, p), Next) == None
    ensures |NavigationLinks(route, p)| == 2
  {
    NavigationLinkRules(route, p);
  }
}
