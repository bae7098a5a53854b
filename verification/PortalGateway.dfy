/**
 * The gateway's operations on the route table, in place, and every run of
 * them interleaved with edits of the declarations.
 */
module PortalGateway {
  import opened Basics
  import opened PortalRoutes

  class RouteTable {
    var services: seq<Declaration>
    var routes: seq<Route>
    var next: nat

    constructor (declarations: seq<Declaration>)
      ensures services == declarations && Contents() == Table([], 0)
    {
      services := declarations;
      routes := [];
      next := 0;
    }

    ghost function Contents(): Table
      reads this
    {
      Table(routes, next)
    }

    /** The one declaration of a name, if it is exposed through the portal and has an instance. */
    method ExactPortalDeclaration(name: string) returns (d: Option<Declaration>)
      ensures d.Some? ==> d.value.name == name && d.value.portal && d.value.instance != 0 && Declared(services, name) == d
      ensures d.Some? <==> exists i ::
        && 0 <= i < |services| && services[i].name == name && services[i].portal && services[i].instance != 0
        && forall j :: 0 <= j < |services| && j != i ==> services[j].name != name
    {
      var found: Option<nat> := None;
      for i := 0 to |services|
        invariant found.None? ==> forall j :: 0 <= j < i ==> services[j].name != name
        invariant found.Some? ==>
          && found.value < i && services[found.value].name == name
          && forall j :: 0 <= j < i && j != found.value ==> services[j].name != name
      {
        if services[i].name == name {
          if found.Some? {
            return None;
          }
          found := Some(i);
        }
      }
      if found.None? || services[found.value].instance == 0 || !services[found.value].portal {
        return None;
      }
      DeclaredAt(services, found.value);
      return Some(services[found.value]);
    }

    /** The portal declarations by name. */
    method Declarations() returns (m: map<string, Declaration>)
      ensures forall name ::
        (name in m <==> Declared(services, name).Some?) && (name in m ==> Declared(services, name) == Some(m[name]))
    {
      m := map[];
      var i := 0;
      while i < |services|
        invariant i <= |services|
        invariant forall name ::
          && (name in m <==> Declared(services[..i], name).Some?)
          && (name in m ==> Declared(services[..i], name) == Some(m[name]))
      {
        var d := services[i];
        assert services[..i + 1][..i] == services[..i];
        if d.portal {
          m := m[d.name := d];
        }
        i := i + 1;
      }
      assert services[..i] == services;
    }

    /** Drops oldest inactive routes, never one of the last `kept`, until the table fits. */
    method PruneRoutes(kept: nat)
      requires kept <= |routes|
      modifies this`routes
      ensures routes == Prune(old(routes), kept)
    {
      while |routes| > ROUTE_LIMIT
        invariant kept <= |routes| && Prune(routes, kept) == Prune(old(routes), kept)
        decreases |routes|
      {
        var idx := 0;
        while idx < |routes| - kept && routes[idx].active
          invariant idx <= |routes| - kept
          invariant forall k :: 0 <= k < idx ==> routes[k].active
        {
          idx := idx + 1;
        }
        var head := routes[..|routes| - kept];
        assert idx < |head| ==> !head[idx].active;
        if idx == |routes| - kept {
          break;
        }
        routes := routes[..idx] + routes[idx + 1..];
      }
    }

    /** Withdraws routes that no longer match and finds the one serving the request. */
    method ScreenRoutes(w: Wanted) returns (changed: bool, route: Option<Route>)
      modifies this`routes
      ensures routes == Screened(services, w.presentation, old(routes)) && route == Serving(routes, w)
      ensures changed <==> routes != old(routes)
    {
      changed, route := false, None;
      var declarations := Declarations();
      ghost var screened := Screened(services, w.presentation, routes);
      var i := 0;
      while i < |routes|
        invariant i <= |routes| == |old(routes)|
        invariant routes[..i] == screened[..i] && routes[i..] == old(routes)[i..]
        invariant route == Serving(screened[..i], w)
        invariant !changed ==> routes == old(routes)
        invariant changed ==> exists k :: 0 <= k < i && screened[k] != old(routes)[k]
      {
        var r := routes[i];
        assert r == old(routes)[i..][0] == old(routes)[i];
        if r.active && !(r.name in declarations && declarations[r.name].instance == r.instance
                         && declarations[r.name].revision == r.revision && r.presentation == w.presentation) {
          r := r.(active := false);
          routes := routes[i := r];
          changed := true;
        }
        assert r == screened[i];
        assert screened[..i + 1] == screened[..i] + [r];
        assert screened[..i + 1][..i] == screened[..i];
        if r.active && r.name == w.name && r.instance == w.instance && r.revision == w.revision {
          route := Some(r);
        }
        i := i + 1;
      }
      assert screened[..i] == screened && routes[..i] == routes;
    }

    /** Returns the route serving the request, publishing it first if need be. */
    method ReconcilePortalRoutes(w: Wanted, locator: nat) returns (changed: bool, route: Option<Route>)
      modifies this`routes, this`next
      ensures (Contents(), route) == Discover(old(Contents()), services, w, locator)
      ensures changed <==> Contents() != old(Contents())
      ensures next != old(next) ==>
        next == old(next) + 1 && route == Some(Route(w.name, w.presentation, w.instance, w.revision, locator, next, true))
    {
      changed, route := ScreenRoutes(w);
      if route.Some? || w.name == "" {
        return;
      }
      next := next + 1;
      route := Some(Published(w, locator, next, true));
      routes := routes + [route.value];
      PruneRoutes(0);
      changed := true;
    }

    /** With the gateway disabled: withdraws everything and records one denial of the request. */
    method ReconcileDisabledPortalRoute(w: Wanted, locator: nat) returns (changed: bool, route: Route)
      modifies this`routes, this`next
      ensures (Contents(), route) == Disable(old(Contents()), w, locator)
      ensures changed <==> Contents() != old(Contents())
      ensures next != old(next) ==>
        next == old(next) + 1 && route == Route(w.name, w.presentation, w.instance, w.revision, locator, next, false)
    {
      hide Prune, Denial, Latest, AllInactive;
      changed := WithdrawAll();
      if !changed {
        var denial, latest := FindDenial(w);
        if denial.Some? && denial.value.generation >= latest {
          return false, denial.value;
        }
      }
      next := next + 1;
      route := Published(w, locator, next, false);
      routes := routes + [route];
      PruneRoutes(1);
      changed := true;
    }

    method WithdrawAll() returns (changed: bool)
      modifies this`routes
      ensures routes == AllInactive(old(routes))
      ensures changed <==> AnyActive(old(routes))
      ensures !changed ==> routes == old(routes)
    {
      changed := false;
      var i := 0;
      while i < |routes|
        invariant i <= |routes| == |old(routes)|
        invariant forall k :: 0 <= k < i ==> routes[k] == old(routes)[k].(active := false)
        invariant forall k :: i <= k < |routes| ==> routes[k] == old(routes)[k]
        invariant changed <==> exists k :: 0 <= k < i && old(routes)[k].active
        invariant !changed ==> routes == old(routes)
      {
        if routes[i].active {
          routes := routes[i := routes[i].(active := false)];
          changed := true;
        }
        i := i + 1;
      }
      assert routes == AllInactive(old(routes));
    }

    method FindDenial(w: Wanted) returns (denial: Option<Route>, latest: nat)
      ensures denial == Denial(routes, w) && latest == Latest(routes, w.name)
    {
      denial, latest := None, 0;
      var i := 0;
      while i < |routes|
        invariant i <= |routes|
        invariant denial == Denial(routes[..i], w) && latest == Latest(routes[..i], w.name)
      {
        var r := routes[i];
        assert routes[..i + 1][..i] == routes[..i];
        if r.name == w.name {
          if r.generation > latest {
            latest := r.generation;
          }
          if Denies(r, w) && r.generation > (if denial.Some? then denial.value.generation else 0) {
            denial := Some(r);
          }
        }
        i := i + 1;
      }
      assert routes[..i] == routes;
    }

    /** Withdraws the active route a stale locator resolved to. */
    method TombstoneStaleRoute(generation: nat, locator: nat) returns (found: bool)
      modifies this`routes
      ensures routes == Tombstone(old(routes), generation, locator)
      ensures found <==> routes != old(routes)
      // it is the first route active under both, and only its being active changes
      ensures !found ==> forall r :: r in routes && r.generation == generation && r.locator == locator ==> !r.active
      ensures found ==> exists i ::
        && 0 <= i < |old(routes)| && routes == old(routes)[i := old(routes)[i].(active := false)]
        && old(routes)[i].active && old(routes)[i].generation == generation && old(routes)[i].locator == locator
    {
      for i := 0 to |routes|
        invariant routes == old(routes)
        invariant forall k :: 0 <= k < i ==> !Resolves(routes[k], generation, locator)
      {
        if Resolves(routes[i], generation, locator) {
          TombstoneHits(routes, i, generation, locator);
          routes := routes[i := routes[i].(active := false)];
          assert routes[i] != old(routes)[i];
          return true;
        }
      }
      TombstoneHits(routes, |routes|, generation, locator);
      return false;
    }

    /** The route of one declaration under one generation; no second one can hide it. */
    method ExactRoute(d: Declaration, generation: nat, active: bool) returns (found: Option<Route>)
      requires Ordered(routes, next)
      ensures found.Some? ==>
        && found.value in routes && found.value.name == d.name && found.value.instance == d.instance
        && found.value.revision == d.revision && found.value.generation == generation && found.value.active == active
      ensures forall r :: r in routes && r.name == d.name && r.instance == d.instance && r.revision == d.revision ==>
        (r.generation == generation && r.active == active ==> found == Some(r))
    {
      var last: Option<Route>, count := None, 0;
      var i := 0;
      while i < |routes|
        invariant i <= |routes| && count <= 1
        invariant count == 0 ==> forall k :: 0 <= k < i ==> !IsExact(routes[k], d, generation, active)
        invariant count == 1 ==>
          exists k :: 0 <= k < i && last == Some(routes[k]) && IsExact(routes[k], d, generation, active)
        invariant count == 1 ==> forall k :: 0 <= k < i && IsExact(routes[k], d, generation, active) ==> last == Some(routes[k])
      {
        if IsExact(routes[i], d, generation, active) {
          last := Some(routes[i]);
          count := count + 1;
        }
        i := i + 1;
      }
      found := if count == 1 then last else None;
    }

    /** Whether exactly this route is still published. */
    method ActiveExactRoute(want: Route) returns (b: bool)
      ensures b <==> want in routes && want.active
    {
      b := false;
      for i := 0 to |routes|
        invariant want.active ==> want !in routes[..i]
      {
        if routes[i] == want && routes[i].active {
          return true;
        }
      }
      assert routes[..|routes|] == routes;
    }
  }

  lemma {:induction false} DeclaredAt(services: seq<Declaration>, i: nat)
    requires i < |services| && services[i].portal
    requires forall j :: i < j < |services| ==> services[j].name != services[i].name
    ensures Declared(services, services[i].name) == Some(services[i])
  {
    if i < |services| - 1 {
      DeclaredAt(services[..|services| - 1], i);
    }
  }

  lemma {:induction false} TombstoneHits(routes: seq<Route>, i: nat, generation: nat, locator: nat)
    requires i <= |routes| && forall k :: 0 <= k < i ==> !Resolves(routes[k], generation, locator)
    requires i < |routes| ==> Resolves(routes[i], generation, locator)
    ensures Tombstone(routes, generation, locator)
      == if i < |routes| then routes[i := routes[i].(active := false)] else routes
  {
    if i > 0 {
      TombstoneHits(routes[1..], i - 1, generation, locator);
    }
  }

  predicate IsExact(r: Route, d: Declaration, generation: nat, active: bool) {
    r.name == d.name && r.active == active && r.instance == d.instance && r.revision == d.revision && r.generation == generation
  }

  // ---------------------------------------------------------------------
  // Runs
  // ---------------------------------------------------------------------

  datatype Portal = Portal(services: seq<Declaration>, table: Table)

  datatype Action =
    | Edit(services: seq<Declaration>)
    | Serve(name: string, presentation: nat, locator: nat)
    | Clean(presentation: nat)
    | Deny(name: string, presentation: nat, locator: nat)
    | Retire(generation: nat, locator: nat)

  /** The request a caller makes for a declaration it has just looked up. */
  function For(services: seq<Declaration>, name: string, presentation: nat): Wanted
    requires Declared(services, name).Some?
  {
    var d := Declared(services, name).value;
    Wanted(name, d.instance, d.revision, presentation)
  }

  predicate Enabled(p: Portal, a: Action) {
    match a
    case Edit(services) => |services| <= DECLARATION_LIMIT
    case Serve(name, _, _) => name != "" && Declared(p.services, name).Some?
    case Clean(_) => true
    case Deny(name, _, _) => name != "" && Declared(p.services, name).Some?
    case Retire(_, _) => true
  }

  function Do(p: Portal, a: Action): Portal
    requires Enabled(p, a)
  {
    match a
    case Edit(services) => p.(services := services)
    case Serve(name, presentation, locator) =>
      p.(table := Discover(p.table, p.services, For(p.services, name, presentation), locator).0)
    case Clean(presentation) => p.(table := Discover(p.table, p.services, Wanted("", 0, 0, presentation), 0).0)
    case Deny(name, presentation, locator) =>
      p.(table := Disable(p.table, For(p.services, name, presentation), locator).0)
    case Retire(generation, locator) => p.(table := p.table.(routes := Tombstone(p.table.routes, generation, locator)))
  }

  ghost predicate IsRun(states: seq<Portal>, actions: seq<Action>) {
    && |states| == |actions| + 1
    && states[0].table == Table([], 0) && |states[0].services| <= DECLARATION_LIMIT
    && forall i :: 0 <= i < |actions| ==> Enabled(states[i], actions[i]) && states[i + 1] == Do(states[i], actions[i])
  }

  ghost predicate Inv(p: Portal) {
    TableOk(p.table) && |p.services| <= DECLARATION_LIMIT
  }

  ghost predicate ActiveIn(t: Table, generation: nat) {
    exists i :: 0 <= i < |t.routes| && t.routes[i].active && t.routes[i].generation == generation
  }

  lemma {:induction false} TombstoneAt(routes: seq<Route>, generation: nat, locator: nat)
    ensures var t := Tombstone(routes, generation, locator);
      && |t| == |routes|
      && forall i :: 0 <= i < |t| ==> t[i].(active := routes[i].active) == routes[i] && (t[i].active ==> routes[i].active)
  {
    if routes != [] {
      TombstoneAt(routes[1..], generation, locator);
    }
  }

  lemma DiscoverIssues(t: Table, services: seq<Declaration>, w: Wanted, locator: nat, generation: nat)
    requires ActiveIn(Discover(t, services, w, locator).0, generation)
    ensures ActiveIn(t, generation) || generation == t.next + 1
  {
    var u := Discover(t, services, w, locator).0;
    var screened := Screened(services, w.presentation, t.routes);
    var i :| 0 <= i < |u.routes| && u.routes[i].active && u.routes[i].generation == generation;
    if u.next != t.next {
      var routes := screened + [Published(w, locator, t.next + 1, true)];
      PruneMembers(routes, 0);
      assert u.routes[i] in routes;
      var k :| 0 <= k < |routes| && routes[k] == u.routes[i];
      assert k < |screened| ==> t.routes[k].active && t.routes[k].generation == generation;
    } else {
      assert t.routes[i].active && t.routes[i].generation == generation;
    }
  }

  lemma TombstoneKeeps(t: Table, generation: nat, locator: nat)
    requires TableOk(t)
    ensures TableOk(t.(routes := Tombstone(t.routes, generation, locator)))
    ensures forall g :: ActiveIn(t.(routes := Tombstone(t.routes, generation, locator)), g) ==> ActiveIn(t, g)
  {
    TombstoneAt(t.routes, generation, locator);
  }

  lemma InvStep(p: Portal, a: Action)
    requires Inv(p) && Enabled(p, a)
    ensures Inv(Do(p, a)) && p.table.next <= Do(p, a).table.next
  {
    hide Discover, Disable, TableOk, Tombstone;
    match a
    case Edit(_) =>
    case Serve(name, presentation, locator) => DiscoverKeeps(p.table, p.services, For(p.services, name, presentation), locator);
    case Clean(presentation) => DiscoverKeeps(p.table, p.services, Wanted("", 0, 0, presentation), 0);
    case Deny(name, presentation, locator) => DisableKeeps(p.table, For(p.services, name, presentation), locator);
    case Retire(generation, locator) => TombstoneKeeps(p.table, generation, locator);
  }

  lemma ActiveStep(p: Portal, a: Action, generation: nat)
    requires Inv(p) && Enabled(p, a) && ActiveIn(Do(p, a).table, generation)
    ensures ActiveIn(p.table, generation) || generation == p.table.next + 1
  {
    hide Discover, Disable, TableOk, Tombstone;
    match a
    case Edit(_) =>
    case Serve(name, presentation, locator) =>
      DiscoverIssues(p.table, p.services, For(p.services, name, presentation), locator, generation);
    case Clean(presentation) => DiscoverIssues(p.table, p.services, Wanted("", 0, 0, presentation), 0, generation);
    case Deny(name, presentation, locator) =>
      var w := For(p.services, name, presentation);
      DisableKeeps(p.table, w, locator);
    case Retire(g, locator) => TombstoneKeeps(p.table, g, locator);
  }

  /**
   * In every reachable table generations strictly increase along the list and
   * never exceed the counter, each service has at most one active route, and
   * there are at most 64 routes.
   */
  lemma {:induction false} TableAlways(states: seq<Portal>, actions: seq<Action>, i: nat)
    requires IsRun(states, actions) && i < |states|
    ensures TableOk(states[i].table) && |states[i].services| <= DECLARATION_LIMIT
  {
    hide Do;
    if i > 0 {
      TableAlways(states, actions, i - 1);
      InvStep(states[i - 1], actions[i - 1]);
    }
  }

  /** A generation that has been issued and is not active is never active again. */
  lemma {:induction false} NeverActiveAgain(states: seq<Portal>, actions: seq<Action>, i: nat, j: nat, generation: nat)
    requires IsRun(states, actions) && i <= j < |states|
    requires generation <= states[i].table.next && !ActiveIn(states[i].table, generation)
    ensures generation <= states[j].table.next && !ActiveIn(states[j].table, generation)
  {
    hide Do, ActiveIn;
    if i < j {
      NeverActiveAgain(states, actions, i, j - 1, generation);
      TableAlways(states, actions, j - 1);
      InvStep(states[j - 1], actions[j - 1]);
      if ActiveIn(states[j].table, generation) {
        ActiveStep(states[j - 1], actions[j - 1], generation);
      }
    }
  }

  // ---------------------------------------------------------------------
  // Locators
  // ---------------------------------------------------------------------

  /** The step was given this locator for a route. */
  predicate Gives(a: Action, locator: nat) {
    (a.Serve? || a.Deny?) && a.locator == locator
  }

  ghost predicate DistinctLocators(actions: seq<Action>) {
    forall i, j, locator :: 0 <= i < j < |actions| && Gives(actions[i], locator) ==> !Gives(actions[j], locator)
  }

  /** `r` is a route of the table, but that it may since have been withdrawn. */
  ghost predicate Descends(t: Table, r: Route) {
    exists i :: 0 <= i < |t.routes| && t.routes[i].generation == r.generation && t.routes[i].locator == r.locator
  }

  lemma DiscoverOrigin(t: Table, services: seq<Declaration>, w: Wanted, locator: nat, r: Route)
    requires r in Discover(t, services, w, locator).0.routes
    ensures Descends(t, r) || (r.locator == locator && r.generation == t.next + 1 == Discover(t, services, w, locator).0.next)
  {
    var u := Discover(t, services, w, locator).0;
    var screened := Screened(services, w.presentation, t.routes);
    var all := screened;
    if u.next != t.next {
      all := screened + [Published(w, locator, t.next + 1, true)];
      PruneMembers(all, 0);
    }
    var k :| 0 <= k < |all| && all[k] == r;
    assert k < |screened| ==> t.routes[k].generation == r.generation && t.routes[k].locator == r.locator;
  }

  lemma DisableOrigin(t: Table, w: Wanted, locator: nat, r: Route)
    requires r in Disable(t, w, locator).0.routes
    ensures Descends(t, r) || (r.locator == locator && r.generation == t.next + 1 == Disable(t, w, locator).0.next)
  {
    var u := Disable(t, w, locator).0;
    var before := AllInactive(t.routes);
    if u.next != t.next {
      var all := before + [Published(w, locator, t.next + 1, false)];
      PruneMembers(all, 1);
      var k :| 0 <= k < |all| && all[k] == r;
      assert k < |before| ==> t.routes[k].generation == r.generation && t.routes[k].locator == r.locator;
    }
  }

  lemma TombstoneOrigin(t: Table, generation: nat, locator: nat, r: Route)
    requires r in Tombstone(t.routes, generation, locator)
    ensures Descends(t, r)
  {
    TombstoneAt(t.routes, generation, locator);
    var k :| 0 <= k < |t.routes| && Tombstone(t.routes, generation, locator)[k] == r;
    assert t.routes[k].generation == r.generation && t.routes[k].locator == r.locator;
  }

  lemma OriginStep(p: Portal, a: Action, r: Route)
    requires Enabled(p, a) && r in Do(p, a).table.routes
    ensures Descends(p.table, r) || (Gives(a, r.locator) && r.generation == p.table.next + 1 == Do(p, a).table.next)
  {
    hide Discover, Disable, Tombstone;
    match a
    case Edit(_) =>
      var k :| 0 <= k < |p.table.routes| && p.table.routes[k] == r;
    case Serve(name, presentation, locator) =>
      DiscoverOrigin(p.table, p.services, For(p.services, name, presentation), locator, r);
    case Clean(presentation) => CleanOrigin(p.table, p.services, presentation, r);
    case Deny(name, presentation, locator) => DisableOrigin(p.table, For(p.services, name, presentation), locator, r);
    case Retire(generation, locator) => TombstoneOrigin(p.table, generation, locator, r);
  }

  lemma CleanOrigin(t: Table, services: seq<Declaration>, presentation: nat, r: Route)
    requires r in Discover(t, services, Wanted("", 0, 0, presentation), 0).0.routes
    ensures Descends(t, r)
  {
    var screened := Screened(services, presentation, t.routes);
    var k :| 0 <= k < |screened| && screened[k] == r;
    assert t.routes[k].generation == r.generation && t.routes[k].locator == r.locator;
  }

  /** The step that published a route, under the locator the route has ever since. */
  lemma {:induction false} PublishedAt(states: seq<Portal>, actions: seq<Action>, i: nat, r: Route) returns (k: nat)
    requires IsRun(states, actions) && i < |states| && r in states[i].table.routes
    ensures k < i && Gives(actions[k], r.locator) && states[k + 1].table.next == r.generation
  {
    hide Do;
    assert i > 0;
    OriginStep(states[i - 1], actions[i - 1], r);
    if Descends(states[i - 1].table, r) {
      var x :| 0 <= x < |states[i - 1].table.routes|
        && states[i - 1].table.routes[x].generation == r.generation && states[i - 1].table.routes[x].locator == r.locator;
      k := PublishedAt(states, actions, i - 1, states[i - 1].table.routes[x]);
    } else {
      k := i - 1;
    }
  }

  /** If no locator is drawn twice, a locator resolves to at most one route of any reachable table. */
  lemma LocatorResolvesToOne(states: seq<Portal>, actions: seq<Action>, i: nat, x: nat, y: nat)
    requires IsRun(states, actions) && i < |states| && DistinctLocators(actions)
    requires x < |states[i].table.routes| && y < |states[i].table.routes|
    requires states[i].table.routes[x].locator == states[i].table.routes[y].locator
    ensures x == y
  {
    hide Do;
    TableAlways(states, actions, i);
    var a := PublishedAt(states, actions, i, states[i].table.routes[x]);
    var b := PublishedAt(states, actions, i, states[i].table.routes[y]);
    assert a == b;
  }
}
