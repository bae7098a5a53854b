/**
 * The portal routes of one Environment: a bounded table in which a route is
 * published, later only ever deactivated, and finally pruned.  Locators and
 * declaration instances are random identifiers; the random source is a
 * parameter.
 */
module PortalRoutes {
  import opened Basics

  const ROUTE_LIMIT: nat := 64
  const DECLARATION_LIMIT: nat := 32

  /** `portal` holds when the protocol is HTTP and the visibility is Project; a missing instance is 0. */
  datatype Declaration = Declaration(name: string, instance: nat, revision: nat, portal: bool)

  datatype Route = Route(
    name: string,
    presentation: nat,
    instance: nat,
    revision: nat,
    locator: nat,
    generation: nat,
    active: bool)

  datatype Table = Table(routes: seq<Route>, next: nat)

  /** What a caller asks a route for. */
  datatype Wanted = Wanted(name: string, instance: nat, revision: nat, presentation: nat)

  // ---------------------------------------------------------------------
  // Specification
  // ---------------------------------------------------------------------

  function Declared(services: seq<Declaration>, name: string): Option<Declaration> {
    if services == [] then None
    else
      var d := services[|services| - 1];
      if d.portal && d.name == name then Some(d) else Declared(services[..|services| - 1], name)
  }

  predicate Current(services: seq<Declaration>, presentation: nat, r: Route) {
    var d := Declared(services, r.name);
    d.Some? && d.value.instance == r.instance && d.value.revision == r.revision && r.presentation == presentation
  }

  function Screen(services: seq<Declaration>, presentation: nat, r: Route): Route {
    if r.active && !Current(services, presentation, r) then r.(active := false) else r
  }

  function Screened(services: seq<Declaration>, presentation: nat, routes: seq<Route>): seq<Route> {
    seq(|routes|, i requires 0 <= i < |routes| => Screen(services, presentation, routes[i]))
  }

  function AllInactive(routes: seq<Route>): seq<Route> {
    seq(|routes|, i requires 0 <= i < |routes| => routes[i].(active := false))
  }

  predicate Serves(r: Route, w: Wanted) {
    r.active && r.name == w.name && r.instance == w.instance && r.revision == w.revision
  }

  predicate Denies(r: Route, w: Wanted) {
    !r.active && r.name == w.name && r.presentation == w.presentation && r.instance == w.instance && r.revision == w.revision
  }

  /** The last route of the table that serves the request. */
  function Serving(routes: seq<Route>, w: Wanted): Option<Route> {
    if routes == [] then None
    else if Serves(routes[|routes| - 1], w) then Some(routes[|routes| - 1])
    else Serving(routes[..|routes| - 1], w)
  }

  /** The first of several routes denying the request with the greatest generation above zero. */
  function Denial(routes: seq<Route>, w: Wanted): Option<Route> {
    if routes == [] then None
    else
      var r := routes[|routes| - 1];
      var before := Denial(routes[..|routes| - 1], w);
      if Denies(r, w) && r.generation > (if before.Some? then before.value.generation else 0) then Some(r) else before
  }

  function Latest(routes: seq<Route>, name: string): nat {
    if routes == [] then 0
    else
      var r := routes[|routes| - 1];
      var before := Latest(routes[..|routes| - 1], name);
      if r.name == name && r.generation > before then r.generation else before
  }

  /** The index of the first inactive route, or the length when there is none. */
  function FirstInactive(routes: seq<Route>): (i: nat)
    ensures i <= |routes|
    ensures i < |routes| ==> !routes[i].active
    ensures forall k :: 0 <= k < i ==> routes[k].active
  {
    if routes == [] || !routes[0].active then 0 else 1 + FirstInactive(routes[1..])
  }

  function Without(routes: seq<Route>, i: nat): seq<Route>
    requires i < |routes|
  {
    routes[..i] + routes[i + 1..]
  }

  /** Drops oldest inactive routes until the table fits; the last `kept` routes are never looked at. */
  function Prune(routes: seq<Route>, kept: nat): seq<Route>
    requires kept <= |routes|
    decreases |routes|
  {
    if |routes| <= ROUTE_LIMIT then routes
    else
      var i := FirstInactive(routes[..|routes| - kept]);
      if i == |routes| - kept then routes else Prune(Without(routes, i), kept)
  }

  function Published(w: Wanted, locator: nat, generation: nat, active: bool): Route {
    Route(w.name, w.presentation, w.instance, w.revision, locator, generation, active)
  }

  /** Publishing a route for `w`; the empty name only screens the table. */
  function Discover(t: Table, services: seq<Declaration>, w: Wanted, locator: nat): (Table, Option<Route>) {
    var screened := Screened(services, w.presentation, t.routes);
    var serving := Serving(screened, w);
    if serving.Some? then (Table(screened, t.next), serving)
    else if w.name == "" then (Table(screened, t.next), None)
    else
      var route := Published(w, locator, t.next + 1, true);
      (Table(Prune(screened + [route], 0), t.next + 1), Some(route))
  }

  predicate AnyActive(routes: seq<Route>) {
    exists i :: 0 <= i < |routes| && routes[i].active
  }

  /** With the gateway disabled: every route is withdrawn and the request gets a recorded denial. */
  function Disable(t: Table, w: Wanted, locator: nat): (Table, Route) {
    var denial := Denial(t.routes, w);
    if !AnyActive(t.routes) && denial.Some? && denial.value.generation >= Latest(t.routes, w.name) then (t, denial.value)
    else
      var route := Published(w, locator, t.next + 1, false);
      (Table(Prune(AllInactive(t.routes) + [route], 1), t.next + 1), route)
  }

  predicate Resolves(r: Route, generation: nat, locator: nat) {
    r.active && r.generation == generation && r.locator == locator
  }

  /** Withdraws the one route a stale locator resolved to. */
  function Tombstone(routes: seq<Route>, generation: nat, locator: nat): seq<Route> {
    if routes == [] then []
    else if Resolves(routes[0], generation, locator)
    then [routes[0].(active := false)] + routes[1..]
    else [routes[0]] + Tombstone(routes[1..], generation, locator)
  }

  /** The request names a declaration's own instance and revision, as every caller's does. */
  predicate OwnIdentity(services: seq<Declaration>, w: Wanted) {
    var d := Declared(services, w.name);
    w.name != "" && d.Some? && d.value.instance == w.instance && d.value.revision == w.revision
  }

  // ---------------------------------------------------------------------
  // The table invariant
  // ---------------------------------------------------------------------

  ghost predicate Ordered(routes: seq<Route>, next: nat) {
    && (forall i, j :: 0 <= i < j < |routes| ==> routes[i].generation < routes[j].generation)
    && (forall i :: 0 <= i < |routes| ==> 1 <= routes[i].generation <= next)
  }

  ghost predicate OneActivePerName(routes: seq<Route>) {
    forall i, j :: 0 <= i < j < |routes| && routes[i].active && routes[j].active ==> routes[i].name != routes[j].name
  }

  ghost predicate TableOk(t: Table) {
    Ordered(t.routes, t.next) && OneActivePerName(t.routes) && |t.routes| <= ROUTE_LIMIT
  }

  /** `small` arises from `large` by dropping some inactive routes. */
  ghost predicate Thinned(small: seq<Route>, large: seq<Route>) {
    && (forall r :: r in small ==> r in large)
    && (forall r :: r in large && r.active ==> r in small)
  }

  lemma OrderedWithout(routes: seq<Route>, next: nat, i: nat)
    requires i < |routes| && !routes[i].active && Ordered(routes, next)
    ensures Ordered(Without(routes, i), next) && Thinned(Without(routes, i), routes)
    ensures OneActivePerName(routes) ==> OneActivePerName(Without(routes, i))
  {
    var small := Without(routes, i);
    forall r | r in routes && r.active ensures r in small {
      var k :| 0 <= k < |routes| && routes[k] == r;
      assert small[if k < i then k else k - 1] == r;
    }
  }

  lemma {:induction false} PruneKeeps(routes: seq<Route>, next: nat, kept: nat)
    requires kept <= |routes| && Ordered(routes, next)
    ensures Ordered(Prune(routes, kept), next) && Thinned(Prune(routes, kept), routes)
    ensures OneActivePerName(routes) ==> OneActivePerName(Prune(routes, kept))
    decreases |routes|
  {
    hide Ordered, Thinned, OneActivePerName;
    if |routes| > ROUTE_LIMIT {
      var i := FirstInactive(routes[..|routes| - kept]);
      if i < |routes| - kept {
        OrderedWithout(routes, next, i);
        PruneKeeps(Without(routes, i), next, kept);
        ThinnedTwice(Prune(routes, kept), Without(routes, i), routes);
      } else {
        ThinnedSelf(routes);
      }
    } else {
      ThinnedSelf(routes);
    }
  }

  lemma {:induction false} PruneMembers(routes: seq<Route>, kept: nat)
    requires kept <= |routes|
    ensures forall r :: r in Prune(routes, kept) ==> r in routes
    decreases |routes|
  {
    if |routes| > ROUTE_LIMIT {
      var i := FirstInactive(routes[..|routes| - kept]);
      if i < |routes| - kept {
        PruneMembers(Without(routes, i), kept);
      }
    }
  }

  lemma ThinnedSelf(routes: seq<Route>)
    ensures Thinned(routes, routes)
  {
  }

  lemma ThinnedTwice(small: seq<Route>, middle: seq<Route>, large: seq<Route>)
    requires Thinned(small, middle) && Thinned(middle, large)
    ensures Thinned(small, large)
  {
  }

  /** The protected last route stays last. */
  lemma {:induction false} PruneKeepsLast(routes: seq<Route>)
    requires |routes| > 0
    ensures var p := Prune(routes, 1); |p| > 0 && p[|p| - 1] == routes[|routes| - 1]
    decreases |routes|
  {
    if |routes| > ROUTE_LIMIT {
      var i := FirstInactive(routes[..|routes| - 1]);
      if i < |routes| - 1 {
        var less := Without(routes, i);
        assert |less| == |routes| - 1 && less[|less| - 1] == routes[|routes| - 1];
        hide Without, FirstInactive;
        PruneKeepsLast(less);
      }
    }
  }

  // How many routes can be active at once.

  ghost function ActiveNames(routes: seq<Route>): set<string> {
    set i | 0 <= i < |routes| && routes[i].active :: routes[i].name
  }

  ghost function Names(services: seq<Declaration>): set<string> {
    set i | 0 <= i < |services| :: services[i].name
  }

  lemma {:induction false} NamesAtMost(services: seq<Declaration>)
    ensures |Names(services)| <= |services|
  {
    if services != [] {
      var n := |services| - 1;
      NamesAtMost(services[..n]);
      assert Names(services) == Names(services[..n]) + {services[n].name};
    }
  }

  lemma {:induction false} DeclaredIsNamed(services: seq<Declaration>, name: string)
    ensures Declared(services, name).Some? ==> name in Names(services)
  {
    if services != [] {
      DeclaredIsNamed(services[..|services| - 1], name);
    }
  }

  lemma {:induction false} AllActiveNames(routes: seq<Route>)
    requires OneActivePerName(routes) && forall i :: 0 <= i < |routes| ==> routes[i].active
    ensures |ActiveNames(routes)| == |routes|
  {
    if routes != [] {
      var n := |routes| - 1;
      AllActiveNames(routes[..n]);
      assert ActiveNames(routes) == ActiveNames(routes[..n]) + {routes[n].name};
      assert routes[n].name !in ActiveNames(routes[..n]);
    }
  }

  /** Enough inactive routes: pruning always brings the table back to its limit. */
  lemma {:induction false} PruneFits(routes: seq<Route>, kept: nat, names: set<string>)
    requires kept <= |routes| && kept <= 1 && OneActivePerName(routes)
    requires ActiveNames(routes) <= names && |names| <= DECLARATION_LIMIT
    ensures |Prune(routes, kept)| <= ROUTE_LIMIT
    ensures |routes| > ROUTE_LIMIT ==> |Prune(routes, kept)| == ROUTE_LIMIT
    decreases |routes|
  {
    if |routes| > ROUTE_LIMIT {
      var head := routes[..|routes| - kept];
      var i := FirstInactive(head);
      if i == |head| {
        AllActiveNames(head);
        SubsetSize(ActiveNames(head), names);
      } else {
        PruneFits(Without(routes, i), kept, names);
      }
    }
  }

  // ---------------------------------------------------------------------
  // What discovery keeps and returns
  // ---------------------------------------------------------------------

  lemma {:induction false} ServingFound(routes: seq<Route>, w: Wanted)
    ensures var s := Serving(routes, w);
      if s.Some? then s.value in routes && Serves(s.value, w) else forall r :: r in routes ==> !Serves(r, w)
  {
    if routes != [] {
      var n := |routes| - 1;
      ServingFound(routes[..n], w);
      assert routes == routes[..n] + [routes[n]];
    }
  }

  lemma ScreenedKeeps(t: Table, services: seq<Declaration>, presentation: nat)
    requires TableOk(t)
    ensures TableOk(Table(Screened(services, presentation, t.routes), t.next))
    ensures ActiveNames(Screened(services, presentation, t.routes)) <= Names(services)
  {
    var s := Screened(services, presentation, t.routes);
    forall i | 0 <= i < |s| && s[i].active ensures s[i].name in Names(services) {
      DeclaredIsNamed(services, s[i].name);
    }
  }

  /** The table with a new route for `w` at its end, before pruning. */
  lemma AppendedOk(t: Table, services: seq<Declaration>, w: Wanted, locator: nat)
    requires TableOk(t) && OwnIdentity(services, w) && Serving(Screened(services, w.presentation, t.routes), w).None?
    ensures var routes := Screened(services, w.presentation, t.routes) + [Published(w, locator, t.next + 1, true)];
      Ordered(routes, t.next + 1) && OneActivePerName(routes) && ActiveNames(routes) <= Names(services)
  {
    var screened := Screened(services, w.presentation, t.routes);
    ScreenedKeeps(t, services, w.presentation);
    ServingFound(screened, w);
    DeclaredIsNamed(services, w.name);
    forall i | 0 <= i < |screened| && screened[i].active ensures screened[i].name != w.name {
      assert screened[i] in screened;
    }
  }

  /**
   * A discovery that finds nothing to serve publishes one route: the request's
   * own, under the locator it was given and the next generation.
   */
  lemma DiscoverPublishes(t: Table, services: seq<Declaration>, w: Wanted, locator: nat)
    ensures var (u, route) := Discover(t, services, w, locator);
      && t.next <= u.next <= t.next + 1
      && (u.next > t.next ==>
            route == Some(Route(w.name, w.presentation, w.instance, w.revision, locator, u.next, true)))
      && (u.next == t.next && route.Some? ==>
            exists r :: r in t.routes && r == route.value && r.active && r.name == w.name && r.instance == w.instance && r.revision == w.revision)
  {
    var screened := Screened(services, w.presentation, t.routes);
    ServingFound(screened, w);
    if Serving(screened, w).Some? {
      var r := Serving(screened, w).value;
      var k :| 0 <= k < |screened| && screened[k] == r;
      assert t.routes[k] == r;
    }
  }

  /** A denial that is not recorded yet is, under the locator it was given and the next generation. */
  lemma DisablePublishes(t: Table, w: Wanted, locator: nat)
    ensures var (u, route) := Disable(t, w, locator);
      && t.next <= u.next <= t.next + 1
      && (u.next > t.next ==> route == Route(w.name, w.presentation, w.instance, w.revision, locator, u.next, false))
      && (u.next == t.next ==> u == t && route in t.routes)
      // what is returned denies just this request, whoever recorded it
      && route.name == w.name && route.presentation == w.presentation && route.instance == w.instance
      && route.revision == w.revision && !route.active
  {
    DenialFound(t.routes, w);
  }

  /**
   * After discovery the table is still in order and within its limit, every
   * active route matches its declaration and presentation, and the route
   * returned is active, serves the request and is in the table.  A route that
   * still matches is never lost.
   */
  lemma DiscoverKeeps(t: Table, services: seq<Declaration>, w: Wanted, locator: nat)
    requires TableOk(t) && |services| <= DECLARATION_LIMIT
    requires w.name == "" || OwnIdentity(services, w)
    ensures var (u, route) := Discover(t, services, w, locator);
      && TableOk(u) && t.next <= u.next
      && (forall r :: r in u.routes && r.active ==> Current(services, w.presentation, r))
      && (w.name != "" ==> route.Some? && Serves(route.value, w) && route.value.presentation == w.presentation)
      && (route.Some? ==> route.value in u.routes)
      && (forall r :: r in t.routes && r.active && Current(services, w.presentation, r) ==> r in u.routes)
  {
    var screened := Screened(services, w.presentation, t.routes);
    ScreenedKeeps(t, services, w.presentation);
    ServingFound(screened, w);
    forall r | r in t.routes && r.active && Current(services, w.presentation, r) ensures r in screened {
      var k :| 0 <= k < |t.routes| && t.routes[k] == r;
      assert screened[k] == r;
    }
    if Serving(screened, w).None? && w.name != "" {
      AppendKeeps(t, services, w, locator);
    }
  }

  lemma AppendKeeps(t: Table, services: seq<Declaration>, w: Wanted, locator: nat)
    requires TableOk(t) && |services| <= DECLARATION_LIMIT && OwnIdentity(services, w)
    requires Serving(Screened(services, w.presentation, t.routes), w).None?
    ensures var screened := Screened(services, w.presentation, t.routes);
      var route := Published(w, locator, t.next + 1, true);
      var u := Prune(screened + [route], 0);
      && TableOk(Table(u, t.next + 1)) && route in u
      && (forall r :: r in u && r.active ==> Current(services, w.presentation, r))
      && (forall r :: r in screened && r.active ==> r in u)
  {
    hide Ordered, OneActivePerName;
    var screened := Screened(services, w.presentation, t.routes);
    var route := Published(w, locator, t.next + 1, true);
    var routes := screened + [route];
    AppendedOk(t, services, w, locator);
    PruneKeeps(routes, t.next + 1, 0);
    NamesAtMost(services);
    PruneFits(routes, 0, Names(services));
    assert routes[|screened|] == route;
    assert Current(services, w.presentation, route);
  }

  /** The table with everything withdrawn and a denial at its end, before pruning. */
  lemma WithdrawnOk(t: Table, route: Route)
    requires TableOk(t) && !route.active && route.generation == t.next + 1
    ensures var routes := AllInactive(t.routes) + [route];
      Ordered(routes, t.next + 1) && forall r :: r in routes ==> !r.active
  {
  }

  lemma WithdrawKeeps(t: Table, route: Route)
    requires TableOk(t) && !route.active && route.generation == t.next + 1
    ensures var u := Prune(AllInactive(t.routes) + [route], 1);
      TableOk(Table(u, t.next + 1)) && !AnyActive(u) && route in u
  {
    hide Ordered, Prune, AllInactive;
    var routes := AllInactive(t.routes) + [route];
    WithdrawnOk(t, route);
    assert OneActivePerName(routes) && ActiveNames(routes) == {};
    PruneKeeps(routes, t.next + 1, 1);
    PruneKeepsLast(routes);
    PruneFits(routes, 1, {});
  }

  /** With the gateway disabled nothing stays active, and the denial returned is in the table. */
  lemma DisableKeeps(t: Table, w: Wanted, locator: nat)
    requires TableOk(t)
    ensures var (u, route) := Disable(t, w, locator);
      && TableOk(u) && t.next <= u.next && !AnyActive(u.routes)
      && route in u.routes && Denies(route, w)
  {
    hide Prune, AllInactive;
    DenialFound(t.routes, w);
    WithdrawKeeps(t, Published(w, locator, t.next + 1, false));
  }

  lemma {:induction false} DenialFound(routes: seq<Route>, w: Wanted)
    ensures var d := Denial(routes, w);
      && (d.Some? ==> d.value in routes && Denies(d.value, w) && d.value.generation >= 1)
      && (forall r :: r in routes && Denies(r, w) && r.generation >= 1 ==> d.Some? && d.value.generation >= r.generation)
  {
    if routes != [] {
      var n := |routes| - 1;
      DenialFound(routes[..n], w);
      assert routes == routes[..n] + [routes[n]];
    }
  }

  lemma {:induction false} LatestBounds(routes: seq<Route>, name: string)
    ensures forall r :: r in routes && r.name == name ==> r.generation <= Latest(routes, name)
    ensures Latest(routes, name) > 0 ==> exists r :: r in routes && r.name == name && r.generation == Latest(routes, name)
  {
    if routes != [] {
      var n := |routes| - 1;
      LatestBounds(routes[..n], name);
      assert routes == routes[..n] + [routes[n]];
    }
  }

  // ---------------------------------------------------------------------
  // Repeating a call
  // ---------------------------------------------------------------------

  lemma {:induction false} ServingLast(routes: seq<Route>, r: Route, w: Wanted)
    requires Serves(r, w)
    ensures Serving(routes + [r], w) == Some(r)
  {
  }

  lemma ScreenedTwice(services: seq<Declaration>, presentation: nat, routes: seq<Route>)
    requires forall r :: r in routes && r.active ==> Current(services, presentation, r)
    ensures Screened(services, presentation, routes) == routes
  {
    forall i | 0 <= i < |routes| ensures Screen(services, presentation, routes[i]) == routes[i] {
      assert routes[i] in routes;
    }
  }

  lemma {:induction false} PruneActiveLast(routes: seq<Route>, r: Route)
    requires r.active
    ensures var p := Prune(routes + [r], 0); |p| > 0 && p[|p| - 1] == r && forall x :: x in p ==> x in routes + [r]
    decreases |routes|
  {
    var all := routes + [r];
    if |all| > ROUTE_LIMIT {
      assert all[..|all| - 0] == all;
      var i := FirstInactive(all);
      if i < |all| {
        assert Without(all, i) == Without(routes, i) + [r];
        PruneActiveLast(Without(routes, i), r);
      }
    }
  }

  lemma DiscoverSettles(t: Table, services: seq<Declaration>, w: Wanted, first: nat, second: nat)
    requires w.name == "" || OwnIdentity(services, w)
    ensures var (u, route) := Discover(t, services, w, first);
      Discover(u, services, w, second) == (u, route)
  {
    var screened := Screened(services, w.presentation, t.routes);
    forall r | r in screened && r.active ensures Current(services, w.presentation, r) {
    }
    ScreenedTwice(services, w.presentation, screened);
    if Serving(screened, w).None? && w.name != "" {
      var route := Published(w, first, t.next + 1, true);
      PruneActiveLast(screened, route);
      var u := Prune(screened + [route], 0);
      ScreenedTwice(services, w.presentation, u);
      assert u == u[..|u| - 1] + [route];
      ServingLast(u[..|u| - 1], route, w);
    }
  }

  /** A request nobody declared is published anew, and withdrawn again, each time it is made. */
  lemma DiscoverUndeclared(t: Table, services: seq<Declaration>, w: Wanted, locator: nat)
    requires w.name != "" && !OwnIdentity(services, w)
    ensures Discover(t, services, w, locator).0.next == t.next + 1
  {
    ServingFound(Screened(services, w.presentation, t.routes), w);
  }

  /**
   * Discovery repeated with the same arguments changes nothing and returns the
   * same route exactly when it asks for no route, or for a declaration under
   * that declaration's own identity.
   */
  lemma DiscoverIdempotent(t: Table, services: seq<Declaration>, w: Wanted, first: nat, second: nat)
    ensures var (u, route) := Discover(t, services, w, first);
      Discover(u, services, w, second) == (u, route) <==> w.name == "" || OwnIdentity(services, w)
  {
    if w.name == "" || OwnIdentity(services, w) {
      DiscoverSettles(t, services, w, first, second);
    } else {
      var u := Discover(t, services, w, first).0;
      DiscoverUndeclared(u, services, w, second);
    }
  }

  lemma DisableIdempotent(t: Table, w: Wanted, first: nat, second: nat)
    requires TableOk(t)
    ensures var (u, route) := Disable(t, w, first);
      Disable(u, w, second) == (u, route)
  {
    var (u, route) := Disable(t, w, first);
    if u != t {
      DisableKeeps(t, w, first);
      DenialFound(u.routes, w);
      LatestBounds(u.routes, w.name);
      var d := Denial(u.routes, w).value;
      var i :| 0 <= i < |u.routes| && u.routes[i] == d;
      var k :| 0 <= k < |u.routes| && u.routes[k] == route;
      assert d.generation == route.generation;
      assert i == k;
    }
  }
}
