/**
 * Merging the services a repository asks for into the declarations of an
 * Environment.
 */
module ServiceConvergence {
  import opened Basics
  import opened ServicePorts

  const DECLARATION_LIMIT: nat := 32

  /** `Unset` is a declaration written before sources were recorded. */
  datatype Source = Unset | Api | Repository

  datatype Exposure = Exposure(protocol: string, visibility: string, readiness: string)

  /** The only exposure admission lets a declaration have. */
  const EXPOSURE := Exposure("HTTP", "Project", "TCPConnect")

  datatype Service = Service(
    name: string,
    source: Source,
    instance: Option<nat>,
    revision: nat,
    launch: Option<seq<string>>,
    port: nat,
    exposure: Exposure)

  datatype Desired = Desired(name: string, argv: seq<string>, port: Option<nat>)

  /** The hash and the random instance identifier a convergence meets for each name. */
  datatype Chance = Chance(hash: string -> nat, instance: string -> nat)

  datatype Collision = WithApi(name: string) | Between(first: string, second: string)

  datatype Outcome =
    | Converged(services: seq<Service>)
    | Collided(collision: Collision)
    | TooMany
    | RevisionExhausted(name: string)

  // ---------------------------------------------------------------------
  // Specification
  // ---------------------------------------------------------------------

  predicate FromApi(s: Service) {
    s.source != Repository
  }

  function ApiServices(services: seq<Service>): seq<Service> {
    if services == [] then []
    else
      var rest := ApiServices(services[..|services| - 1]);
      if FromApi(services[|services| - 1]) then rest + [services[|services| - 1]] else rest
  }

  /** The repository service already declared under a name. */
  function Existing(services: seq<Service>, name: string): Option<Service> {
    if services == [] then None
    else
      var s := services[|services| - 1];
      if !FromApi(s) && s.name == name then Some(s) else Existing(services[..|services| - 1], name)
  }

  ghost function Ports(services: seq<Service>): set<nat> {
    set i | 0 <= i < |services| :: services[i].port
  }

  ghost function ExplicitPorts(desired: seq<Desired>): set<nat> {
    set i | 0 <= i < |desired| && desired[i].port.Some? :: desired[i].port.value
  }

  /** The first desired service that an API service or an earlier explicit port rules out. */
  function FirstCollision(services: seq<Service>, desired: seq<Desired>): Option<Collision> {
    if desired == [] then None
    else
      var n := |desired| - 1;
      var before := FirstCollision(services, desired[..n]);
      if before.Some? then before
      else if exists s :: s in services && FromApi(s) && s.name == desired[n].name then Some(WithApi(desired[n].name))
      else
        var other := ExplicitOwner(desired[..n], desired[n].port);
        if other.Some? then Some(Between(other.value, desired[n].name)) else None
  }

  /** The name that asked for an explicit port last. */
  function ExplicitOwner(desired: seq<Desired>, port: Option<nat>): Option<string> {
    if desired == [] || port.None? then None
    else if desired[|desired| - 1].port == port then Some(desired[|desired| - 1].name)
    else ExplicitOwner(desired[..|desired| - 1], port)
  }

  /** The repository declarations placed so far, and the ports nobody may be given any more. */
  datatype Progress =
    | Placed(placed: seq<Service>, occupied: set<nat>)
    | Clash(first: string, second: string)
    | Exhausted(name: string)

  function PortOwner(placed: seq<Service>, port: nat): Option<string> {
    if placed == [] then None
    else if placed[|placed| - 1].port == port then Some(placed[|placed| - 1].name)
    else PortOwner(placed[..|placed| - 1], port)
  }

  function ChosenPort(prior: Option<Service>, d: Desired, chance: Chance, occupied: set<nat>): nat {
    if d.port.Some? then d.port.value
    else if prior.Some? then prior.value.port
    else Allocate(chance.hash(d.name), occupied)
  }

  /** The declaration of `d` on `port`; a change of launch or port takes the next revision. */
  function Declare(prior: Option<Service>, d: Desired, port: nat, chance: Chance): Service {
    if prior.None? then Service(d.name, Repository, Some(chance.instance(d.name)), 1, Some(d.argv), port, EXPOSURE)
    else
      Service(d.name, Repository, prior.value.instance,
        if prior.value.launch != Some(d.argv) || prior.value.port != port then prior.value.revision + 1 else prior.value.revision,
        Some(d.argv), port, EXPOSURE)
  }

  function PlaceOne(services: seq<Service>, p: Progress, d: Desired, chance: Chance): Progress
    requires p.Placed?
  {
    var prior := Existing(services, d.name);
    var port := ChosenPort(prior, d, chance, p.occupied);
    var other := PortOwner(p.placed, port);
    if other.Some? then Clash(other.value, d.name)
    else if prior.Some? && prior.value.revision == MAX_INT64 && (prior.value.launch != Some(d.argv) || prior.value.port != port)
    then Exhausted(d.name)
    else Placed(p.placed + [Declare(prior, d, port, chance)], p.occupied + {port})
  }

  function Place(services: seq<Service>, desired: seq<Desired>, occupied: set<nat>, chance: Chance)
    : Progress
  {
    if desired == [] then Placed([], occupied)
    else
      var before := Place(services, desired[..|desired| - 1], occupied, chance);
      if before.Placed? then PlaceOne(services, before, desired[|desired| - 1], chance) else before
  }

  // Bytewise order of names.

  predicate Less(a: string, b: string) {
    b != [] && (a == [] || a[0] < b[0] || (a[0] == b[0] && Less(a[1..], b[1..])))
  }

  function Insert(s: Service, sorted: seq<Service>): seq<Service> {
    if sorted == [] || !Less(sorted[0].name, s.name) then [s] + sorted
    else [sorted[0]] + Insert(s, sorted[1..])
  }

  function SortByName(services: seq<Service>): seq<Service> {
    if services == [] then [] else Insert(services[|services| - 1], SortByName(services[..|services| - 1]))
  }

  ghost function Converge(services: seq<Service>, desired: seq<Desired>, chance: Chance): Outcome {
    var collision := FirstCollision(services, desired);
    if collision.Some? then Collided(collision.value)
    else if |ApiServices(services)| + |desired| > DECLARATION_LIMIT then TooMany
    else
      match Place(services, desired, Ports(services) + ExplicitPorts(desired), chance)
      case Clash(first, second) => Collided(Between(first, second))
      case Exhausted(name) => RevisionExhausted(name)
      case Placed(placed, _) => Converged(SortByName(ApiServices(services) + placed))
  }

  // ---------------------------------------------------------------------
  // Order
  // ---------------------------------------------------------------------

  lemma {:induction false} LessTotal(a: string, b: string)
    ensures Less(a, b) || Less(b, a) || a == b
    ensures !(Less(a, b) && Less(b, a)) && !Less(a, a)
  {
    if a != [] {
      LessTotal(a[1..], if b == [] then [] else b[1..]);
      if b != [] && a[0] == b[0] && a[1..] == b[1..] {
        assert a == [a[0]] + a[1..] && b == [b[0]] + b[1..];
      }
    }
  }

  lemma {:induction false} LessTransitive(a: string, b: string, c: string)
    requires Less(a, b) && Less(b, c)
    ensures Less(a, c)
  {
    if a != [] && a[0] == b[0] == c[0] {
      LessTransitive(a[1..], b[1..], c[1..]);
    }
  }

  ghost predicate Ascending(services: seq<Service>) {
    forall i, j :: 0 <= i < j < |services| ==> Less(services[i].name, services[j].name)
  }

  ghost predicate DistinctNames(services: seq<Service>) {
    forall i, j :: 0 <= i < j < |services| ==> services[i].name != services[j].name
  }

  ghost predicate SameMembers(a: seq<Service>, b: seq<Service>) {
    forall s :: s in a <==> s in b
  }

  lemma {:induction false} InsertAscending(s: Service, sorted: seq<Service>)
    requires Ascending(sorted) && forall i :: 0 <= i < |sorted| ==> sorted[i].name != s.name
    ensures Ascending(Insert(s, sorted)) && forall x :: x in Insert(s, sorted) <==> x == s || x in sorted
  {
    if sorted != [] {
      var first, rest := sorted[0], sorted[1..];
      LessTotal(first.name, s.name);
      assert sorted == [first] + rest;
      if Less(first.name, s.name) {
        InsertAscending(s, rest);
        var r := Insert(s, rest);
        forall j | 0 <= j < |r| ensures Less(first.name, r[j].name) {
          assert r[j] in r;
        }
      } else {
        forall j | 0 <= j < |sorted| ensures Less(s.name, sorted[j].name) {
          if j > 0 {
            LessTransitive(s.name, first.name, sorted[j].name);
          }
        }
      }
    }
  }

  lemma {:induction false} SortAscending(services: seq<Service>)
    requires DistinctNames(services)
    ensures Ascending(SortByName(services)) && SameMembers(SortByName(services), services)
  {
    if services != [] {
      var n := |services| - 1;
      SortAscending(services[..n]);
      var sorted := SortByName(services[..n]);
      assert services == services[..n] + [services[n]];
      forall i | 0 <= i < |sorted| ensures sorted[i].name != services[n].name {
        assert sorted[i] in services[..n];
      }
      InsertAscending(services[n], sorted);
    }
  }

  /** An ascending list is determined by its members, so the order of insertion does not matter. */
  lemma {:induction false} AscendingUnique(a: seq<Service>, b: seq<Service>)
    requires Ascending(a) && Ascending(b) && SameMembers(a, b)
    ensures a == b
  {
    HeadIsMember(a);
    HeadIsMember(b);
    if a != [] {
      assert a[0] in b;
      assert b != [] && b[0] in a;
      FirstMember(a, b[0]);
      FirstMember(b, a[0]);
      LessTotal(a[0].name, b[0].name);
      assert a[0] == b[0];
      forall s ensures s in a[1..] <==> s in b[1..] {
        TailMember(a, s);
        TailMember(b, s);
      }
      AscendingUnique(a[1..], b[1..]);
      assert a == [a[0]] + a[1..] && b == [b[0]] + b[1..];
    }
  }

  lemma HeadIsMember(a: seq<Service>)
    ensures a == [] || a[0] in a
  {
  }

  lemma FirstMember(a: seq<Service>, s: Service)
    requires Ascending(a) && s in a
    ensures a[0] == s || Less(a[0].name, s.name)
  {
  }

  lemma TailMember(a: seq<Service>, s: Service)
    requires Ascending(a) && a != []
    ensures s in a[1..] <==> s in a && s != a[0]
  {
    LessTotal(a[0].name, a[0].name);
    assert a == [a[0]] + a[1..];
    if s in a[1..] {
      var k :| 1 <= k < |a| && a[k] == s;
    }
  }

  // ---------------------------------------------------------------------
  // Reading the declarations
  // ---------------------------------------------------------------------

  ghost predicate DistinctDesired(desired: seq<Desired>) {
    forall i, j :: 0 <= i < j < |desired| ==> desired[i].name != desired[j].name
  }

  /** What admission guarantees of the stored declarations. */
  ghost predicate Stored(services: seq<Service>) {
    && DistinctNames(services) && |services| <= DECLARATION_LIMIT
    && (forall s :: s in services ==> s.exposure == EXPOSURE)
    && (forall s :: s in services ==> (s.source == Repository <==> s.launch.Some?) && (s.source == Repository ==> s.instance.Some?))
  }

  lemma {:induction false} ApiMembers(services: seq<Service>)
    ensures forall s :: s in ApiServices(services) <==> s in services && FromApi(s)
    ensures DistinctNames(services) ==> DistinctNames(ApiServices(services))
  {
    if services != [] {
      var n := |services| - 1;
      ApiMembers(services[..n]);
      assert services == services[..n] + [services[n]];
      var rest := ApiServices(services[..n]);
      forall i | 0 <= i < |rest| ensures exists k :: 0 <= k < n && services[k] == rest[i] {
        assert rest[i] in services[..n];
      }
    }
  }

  lemma {:induction false} ExistingFound(services: seq<Service>, name: string)
    ensures var e := Existing(services, name);
      && (e.Some? ==> e.value in services && !FromApi(e.value) && e.value.name == name)
      && (e.None? ==> forall s :: s in services && !FromApi(s) ==> s.name != name)
  {
    if services != [] {
      var n := |services| - 1;
      ExistingFound(services[..n], name);
      assert services == services[..n] + [services[n]];
    }
  }

  lemma ExistingIs(services: seq<Service>, s: Service)
    requires DistinctNames(services) && s in services && !FromApi(s)
    ensures Existing(services, s.name) == Some(s)
  {
    ExistingFound(services, s.name);
    var e := Existing(services, s.name).value;
    var i :| 0 <= i < |services| && services[i] == s;
    var j :| 0 <= j < |services| && services[j] == e;
    assert i == j;
  }

  lemma {:induction false} OwnerFound(placed: seq<Service>, port: nat)
    ensures PortOwner(placed, port).Some? <==> exists i :: 0 <= i < |placed| && placed[i].port == port
    ensures PortOwner(placed, port).Some? <==> port in Ports(placed)
  {
    if placed != [] {
      OwnerFound(placed[..|placed| - 1], port);
    }
  }

  // ---------------------------------------------------------------------
  // Placing the desired services
  // ---------------------------------------------------------------------

  /** The port a desired service insists on: its explicit one, or the one it already has. */
  function Claim(services: seq<Service>, d: Desired): Option<nat> {
    if d.port.Some? then d.port
    else if Existing(services, d.name).Some? then Some(Existing(services, d.name).value.port)
    else None
  }

  /** A change is due that has no revision left to carry it. */
  predicate Exhausts(services: seq<Service>, d: Desired) {
    var e := Existing(services, d.name);
    && e.Some? && e.value.revision == MAX_INT64
    && (e.value.launch != Some(d.argv) || Some(e.value.port) != Claim(services, d))
  }

  ghost predicate ClaimsDistinct(services: seq<Service>, desired: seq<Desired>) {
    forall i, j :: 0 <= i < j < |desired| && Claim(services, desired[i]).Some? ==>
      Claim(services, desired[i]) != Claim(services, desired[j])
  }

  ghost predicate NoneExhausted(services: seq<Service>, desired: seq<Desired>) {
    forall i :: 0 <= i < |desired| ==> !Exhausts(services, desired[i])
  }

  function Open(desired: seq<Desired>): nat {
    if desired == [] then 0
    else Open(desired[..|desired| - 1]) + if desired[|desired| - 1].port.None? then 1 else 0
  }

  lemma ClaimReserved(services: seq<Service>, d: Desired, occupied: set<nat>)
    requires Ports(services) <= occupied && (d.port.Some? ==> d.port.value in occupied)
    ensures Claim(services, d).Some? ==> Claim(services, d).value in occupied
  {
    ExistingFound(services, d.name);
  }

  /** `placed` answers `desired` one by one: claims are met, other ports are dynamic and were free. */
  ghost predicate Answers(services: seq<Service>, desired: seq<Desired>, occupied: set<nat>, placed: seq<Service>, chance: Chance) {
    && |placed| == |desired|
    && (forall i :: 0 <= i < |placed| ==> placed[i] == Declare(Existing(services, desired[i].name), desired[i], placed[i].port, chance))
    && (forall i :: 0 <= i < |placed| ==>
          if Claim(services, desired[i]).Some? then placed[i].port == Claim(services, desired[i]).value
          else Dynamic(placed[i].port) && placed[i].port !in occupied)
    && (forall i, j :: 0 <= i < j < |placed| ==> placed[i].port != placed[j].port)
  }

  ghost predicate Roomy(services: seq<Service>, desired: seq<Desired>, occupied: set<nat>) {
    && Ports(services) <= occupied
    && ExplicitPorts(desired) <= occupied
    && |occupied| + Open(desired) <= PORT_COUNT
  }

  lemma RoomyPrefix(services: seq<Service>, desired: seq<Desired>, occupied: set<nat>)
    requires Roomy(services, desired, occupied) && desired != []
    ensures Roomy(services, desired[..|desired| - 1], occupied)
    ensures desired[|desired| - 1].port.Some? ==> desired[|desired| - 1].port.value in occupied
  {
    var n := |desired| - 1;
    assert ExplicitPorts(desired[..n]) <= ExplicitPorts(desired);
    if desired[n].port.Some? {
      assert desired[n].port.value in ExplicitPorts(desired);
    }
  }

  lemma {:induction false} PlaceAnswers(
    services: seq<Service>, desired: seq<Desired>, occupied: set<nat>, chance: Chance)
    requires Roomy(services, desired, occupied)
    ensures var p := Place(services, desired, occupied, chance);
      p.Placed? ==>
        && Answers(services, desired, occupied, p.placed, chance)
        && p.occupied == occupied + Ports(p.placed)
        && |p.occupied| <= |occupied| + Open(desired)
  {
    if desired == [] {
      assert Ports([]) == {};
    } else {
      var n := |desired| - 1;
      RoomyPrefix(services, desired, occupied);
      PlaceAnswers(services, desired[..n], occupied, chance);
      var before := Place(services, desired[..n], occupied, chance);
      if before.Placed? {
        PlaceOneAnswers(services, desired, occupied, before, chance);
      }
    }
  }

  lemma PlaceOneAnswers(
    services: seq<Service>, desired: seq<Desired>, occupied: set<nat>, before: Progress, chance: Chance)
    requires desired != [] && Roomy(services, desired, occupied) && before.Placed?
    requires Answers(services, desired[..|desired| - 1], occupied, before.placed, chance)
    requires before.occupied == occupied + Ports(before.placed)
    requires |before.occupied| <= |occupied| + Open(desired[..|desired| - 1])
    ensures var d := desired[|desired| - 1];
      var p := PlaceOne(services, before, d, chance);
      && (p.Placed? ==>
            && Answers(services, desired, occupied, p.placed, chance)
            && p.occupied == occupied + Ports(p.placed)
            && |p.occupied| <= |occupied| + Open(desired))
      && (Claim(services, d).None? ==> p.Placed?)
  {
    hide Answers, Ports, ExplicitPorts;
    var d := desired[|desired| - 1];
    var prior := Existing(services, d.name);
    var port := ChosenPort(prior, d, chance, before.occupied);
    RoomyPrefix(services, desired, occupied);
    ClaimReserved(services, d, occupied);
    OwnerFound(before.placed, port);
    if Claim(services, d).None? {
      AllocateSucceeds(chance.hash(d.name), before.occupied);
    } else {
      assert before.occupied + {port} == before.occupied;
    }
    var p := PlaceOne(services, before, d, chance);
    if p.Placed? {
      var s := Declare(prior, d, port, chance);
      PortsExtended(before.placed, s);
      AnswersExtended(services, desired, occupied, before.placed, s, chance);
    }
  }

  lemma AnswersExtended(
    services: seq<Service>, desired: seq<Desired>, occupied: set<nat>, placed: seq<Service>, s: Service, chance: Chance)
    requires desired != [] && Answers(services, desired[..|desired| - 1], occupied, placed, chance)
    requires var d := desired[|desired| - 1];
      && s == Declare(Existing(services, d.name), d, s.port, chance) && s.port !in Ports(placed)
      && if Claim(services, d).Some? then s.port == Claim(services, d).value else Dynamic(s.port) && s.port !in occupied
    ensures Answers(services, desired, occupied, placed + [s], chance)
  {
    var n := |desired| - 1;
    var all := placed + [s];
    forall i | 0 <= i < n ensures all[i] == placed[i] && desired[..n][i] == desired[i] && all[i].port != s.port {
      assert placed[i].port in Ports(placed);
    }
  }

  lemma PortsExtended(placed: seq<Service>, s: Service)
    ensures Ports(placed + [s]) == Ports(placed) + {s.port}
  {
    var all := placed + [s];
    assert all[|placed|] == s;
    forall p | p in Ports(placed) ensures p in Ports(all) {
      var i :| 0 <= i < |placed| && placed[i].port == p;
      assert all[i].port == p;
    }
  }

  // ---------------------------------------------------------------------
  // When convergence succeeds
  // ---------------------------------------------------------------------

  lemma {:induction false} PlaceSucceeds(services: seq<Service>, desired: seq<Desired>, occupied: set<nat>, chance: Chance)
    requires Roomy(services, desired, occupied)
    ensures Place(services, desired, occupied, chance).Placed? <==>
      ClaimsDistinct(services, desired) && NoneExhausted(services, desired)
  {
    if desired != [] {
      var n := |desired| - 1;
      RoomyPrefix(services, desired, occupied);
      PlaceSucceeds(services, desired[..n], occupied, chance);
      PlaceAnswers(services, desired[..n], occupied, chance);
      var before := Place(services, desired[..n], occupied, chance);
      ConditionsSplit(services, desired);
      hide ClaimsDistinct, NoneExhausted, Answers, Roomy, Claim, Exhausts, PlaceOne;
      if before.Placed? {
        PlaceOneAnswers(services, desired, occupied, before, chance);
        PlaceOneSucceeds(services, desired, occupied, before, chance);
      }
    }
  }

  /** Whether the last desired service can follow the others. */
  ghost predicate LastFits(services: seq<Service>, desired: seq<Desired>)
    requires desired != []
  {
    var n := |desired| - 1;
    && (Claim(services, desired[n]).Some? ==> forall i :: 0 <= i < n ==> Claim(services, desired[i]) != Claim(services, desired[n]))
    && !Exhausts(services, desired[n])
  }

  lemma ConditionsSplit(services: seq<Service>, desired: seq<Desired>)
    requires desired != []
    ensures ClaimsDistinct(services, desired) && NoneExhausted(services, desired) <==>
      && ClaimsDistinct(services, desired[..|desired| - 1]) && NoneExhausted(services, desired[..|desired| - 1])
      && LastFits(services, desired)
  {
    var n := |desired| - 1;
    var front := desired[..n];
    assert forall i :: 0 <= i < n ==> front[i] == desired[i];
    if ClaimsDistinct(services, front) && NoneExhausted(services, front) && LastFits(services, desired) {
      forall i, j | 0 <= i < j < |desired| && Claim(services, desired[i]).Some?
        ensures Claim(services, desired[i]) != Claim(services, desired[j])
      {
        assert j < n ==> front[j] == desired[j];
      }
    }
  }

  lemma PlaceOneSucceeds(
    services: seq<Service>, desired: seq<Desired>, occupied: set<nat>, before: Progress, chance: Chance)
    requires desired != [] && Roomy(services, desired, occupied) && before.Placed?
    requires Answers(services, desired[..|desired| - 1], occupied, before.placed, chance)
    ensures Claim(services, desired[|desired| - 1]).Some? ==>
      (PlaceOne(services, before, desired[|desired| - 1], chance).Placed? <==> LastFits(services, desired))
    ensures Claim(services, desired[|desired| - 1]).None? ==> LastFits(services, desired)
  {
    var n := |desired| - 1;
    if Claim(services, desired[n]).None? {
      return;
    }
    var port := Claim(services, desired[n]).value;
    RoomyPrefix(services, desired, occupied);
    ClaimReserved(services, desired[n], occupied);
    OwnerFound(before.placed, port);
    forall i | 0 <= i < n ensures before.placed[i].port == port <==> Claim(services, desired[i]) == Some(port) {
      assert desired[..n][i] == desired[i];
    }
  }

  ghost predicate NoApiClash(services: seq<Service>, desired: seq<Desired>) {
    forall i, s :: 0 <= i < |desired| && s in services && FromApi(s) ==> s.name != desired[i].name
  }

  ghost predicate ExplicitDistinct(desired: seq<Desired>) {
    forall i, j :: 0 <= i < j < |desired| && desired[i].port.Some? ==> desired[i].port != desired[j].port
  }

  lemma {:induction false} ExplicitOwnerFound(desired: seq<Desired>, port: Option<nat>)
    ensures ExplicitOwner(desired, port).Some? <==> port.Some? && exists i :: 0 <= i < |desired| && desired[i].port == port
  {
    if desired != [] {
      ExplicitOwnerFound(desired[..|desired| - 1], port);
    }
  }

  lemma {:induction false} NoFirstCollision(services: seq<Service>, desired: seq<Desired>)
    ensures FirstCollision(services, desired).None? <==> NoApiClash(services, desired) && ExplicitDistinct(desired)
  {
    if desired != [] {
      var n := |desired| - 1;
      var front := desired[..n];
      NoFirstCollision(services, front);
      ExplicitOwnerFound(front, desired[n].port);
      assert forall i :: 0 <= i < n ==> front[i] == desired[i];
    }
  }

  lemma {:induction false} PortsSize(services: seq<Service>)
    ensures |Ports(services)| <= |services|
  {
    if services != [] {
      var n := |services| - 1;
      PortsSize(services[..n]);
      PortsExtended(services[..n], services[n]);
      assert services == services[..n] + [services[n]];
    }
  }

  lemma {:induction false} ExplicitSize(desired: seq<Desired>)
    ensures |ExplicitPorts(desired)| + Open(desired) <= |desired|
  {
    if desired != [] {
      var n := |desired| - 1;
      ExplicitSize(desired[..n]);
      ExplicitExtended(desired[..n], desired[n]);
      assert desired == desired[..n] + [desired[n]];
      hide ExplicitPorts;
    }
  }

  lemma ExplicitExtended(desired: seq<Desired>, d: Desired)
    ensures ExplicitPorts(desired + [d]) == ExplicitPorts(desired) + if d.port.Some? then {d.port.value} else {}
  {
    var all := desired + [d];
    assert all[|desired|] == d;
    forall p | p in ExplicitPorts(desired) ensures p in ExplicitPorts(all) {
      var i :| 0 <= i < |desired| && desired[i].port == Some(p);
      assert all[i].port == Some(p);
    }
  }

  /** Throughout a convergence at most 64 ports are occupied, so a free one is always found. */
  lemma AlwaysRoomy(services: seq<Service>, desired: seq<Desired>)
    requires |services| <= DECLARATION_LIMIT && |desired| <= DECLARATION_LIMIT
    ensures var occupied := Ports(services) + ExplicitPorts(desired);
      Roomy(services, desired, occupied) && |occupied| + Open(desired) <= 2 * DECLARATION_LIMIT
  {
    PortsSize(services);
    ExplicitSize(desired);
  }

  /** The desired services fit: no name of an API service, room for all, no port claimed twice, no revision used up. */
  ghost predicate Mergeable(services: seq<Service>, desired: seq<Desired>) {
    && NoApiClash(services, desired)
    && |ApiServices(services)| + |desired| <= DECLARATION_LIMIT
    && ClaimsDistinct(services, desired)
    && NoneExhausted(services, desired)
  }

  /** Convergence succeeds exactly when the desired services fit, whatever the hashes are. */
  lemma ConvergesIff(services: seq<Service>, desired: seq<Desired>, chance: Chance)
    requires |services| <= DECLARATION_LIMIT
    ensures Converge(services, desired, chance).Converged? <==> Mergeable(services, desired)
  {
    NoFirstCollision(services, desired);
    assert ClaimsDistinct(services, desired) ==> ExplicitDistinct(desired) by {
      if ClaimsDistinct(services, desired) {
        forall i, j | 0 <= i < j < |desired| && desired[i].port.Some? ensures desired[i].port != desired[j].port {
          assert Claim(services, desired[i]) == desired[i].port;
          assert desired[j].port.Some? ==> Claim(services, desired[j]) == desired[j].port;
        }
      }
    }
    if |desired| <= DECLARATION_LIMIT {
      AlwaysRoomy(services, desired);
      PlaceSucceeds(services, desired, Ports(services) + ExplicitPorts(desired), chance);
    }
  }

  // ---------------------------------------------------------------------
  // What convergence yields
  // ---------------------------------------------------------------------

  /** `result` is what merging `desired` into `services` should be. */
  ghost predicate Merged(services: seq<Service>, desired: seq<Desired>, result: seq<Service>, chance: Chance) {
    && Ascending(result)
    && (forall s :: FromApi(s) ==> (s in result <==> s in services))
    && (forall s :: s in result && !FromApi(s) ==> exists i :: 0 <= i < |desired| && desired[i].name == s.name)
    && (forall i :: 0 <= i < |desired| ==> Existing(result, desired[i].name).Some?)
    && (forall i :: 0 <= i < |desired| ==>
          Yields(services, desired, desired[i], Existing(result, desired[i].name).value, chance))
    && (forall s, r :: s in result && r in result && !FromApi(s) && !FromApi(r) && s.port == r.port ==> s == r)
  }

  /** One desired service: its port, its identity, and a revision that counts changes of launch or port. */
  ghost predicate Yields(services: seq<Service>, desired: seq<Desired>, d: Desired, s: Service, chance: Chance) {
    var e := Existing(services, d.name);
    && s.name == d.name && s.source == Repository && s.launch == Some(d.argv) && s.exposure == EXPOSURE
    && (d.port.Some? ==> s.port == d.port.value)
    && (d.port.None? && e.Some? ==> s.port == e.value.port)
    && (d.port.None? && e.None? ==> Dynamic(s.port) && s.port !in Ports(services) && s.port !in ExplicitPorts(desired))
    && (e.Some? ==> s.instance == e.value.instance)
    && (e.Some? ==> s.revision == e.value.revision + if s.launch != e.value.launch || s.port != e.value.port then 1 else 0)
    && (e.None? ==> s.instance == Some(chance.instance(d.name)) && s.revision == 1)
  }

  lemma PlacedNames(services: seq<Service>, desired: seq<Desired>, occupied: set<nat>, placed: seq<Service>, chance: Chance)
    requires DistinctNames(services) && DistinctDesired(desired) && NoApiClash(services, desired)
    requires Answers(services, desired, occupied, placed, chance)
    ensures DistinctNames(ApiServices(services) + placed)
  {
    ApiMembers(services);
    var api := ApiServices(services);
    forall i, j | 0 <= i < |api| && 0 <= j < |placed| ensures api[i].name != placed[j].name {
      assert api[i] in api;
      assert placed[j].name == desired[j].name;
    }
  }

  lemma ConvergedIs(services: seq<Service>, desired: seq<Desired>, chance: Chance) returns (placed: seq<Service>)
    requires Stored(services) && DistinctDesired(desired) && Converge(services, desired, chance).Converged?
    ensures var result := Converge(services, desired, chance).services;
      && Answers(services, desired, Ports(services) + ExplicitPorts(desired), placed, chance)
      && Ascending(result) && DistinctNames(result)
      && (forall s :: s in result <==> (s in services && FromApi(s)) || s in placed)
  {
    ConvergesIff(services, desired, chance);
    AlwaysRoomy(services, desired);
    var occupied := Ports(services) + ExplicitPorts(desired);
    PlaceAnswers(services, desired, occupied, chance);
    placed := Place(services, desired, occupied, chance).placed;
    PlacedNames(services, desired, occupied, placed, chance);
    SortAscending(ApiServices(services) + placed);
    ApiMembers(services);
    AscendingDistinct(Converge(services, desired, chance).services);
  }

  lemma AscendingDistinct(services: seq<Service>)
    requires Ascending(services)
    ensures DistinctNames(services)
  {
    forall i, j | 0 <= i < j < |services| ensures services[i].name != services[j].name {
      LessTotal(services[i].name, services[j].name);
    }
  }

  lemma AnswerYields(services: seq<Service>, desired: seq<Desired>, placed: seq<Service>, chance: Chance, i: nat)
    requires Answers(services, desired, Ports(services) + ExplicitPorts(desired), placed, chance) && i < |desired|
    ensures Yields(services, desired, desired[i], placed[i], chance)
  {
    hide Ports, ExplicitPorts;
  }

  /**
   * A successful convergence leaves API declarations exactly as they are, and
   * besides them declares exactly the desired names, each as it should be.
   */
  lemma ConvergeMerges(services: seq<Service>, desired: seq<Desired>, chance: Chance)
    requires Stored(services) && DistinctDesired(desired) && Converge(services, desired, chance).Converged?
    ensures Merged(services, desired, Converge(services, desired, chance).services, chance)
  {
    var result := Converge(services, desired, chance).services;
    var placed := ConvergedIs(services, desired, chance);
    hide Converge;
    forall i | 0 <= i < |desired|
      ensures Existing(result, desired[i].name) == Some(placed[i])
      ensures Yields(services, desired, desired[i], placed[i], chance)
    {
      assert placed[i] in placed;
      ExistingIs(result, placed[i]);
      AnswerYields(services, desired, placed, chance, i);
    }
    forall s | s in result && !FromApi(s)
      ensures exists i :: 0 <= i < |desired| && desired[i].name == s.name && placed[i] == s
    {
      var i :| 0 <= i < |placed| && placed[i] == s;
      assert desired[i].name == s.name;
    }
  }

  // ---------------------------------------------------------------------
  // Admission of the result
  // ---------------------------------------------------------------------

  /** The stored form: a declaration without a source is an API declaration. */
  function Defaulted(s: Service): Service {
    if s.source == Unset then s.(source := Api) else s
  }

  /** The transition rules a declaration must satisfy to replace `prior`, or to be new. */
  predicate Admissible(prior: Option<Service>, s: Service) {
    && (prior.Some? ==> s == prior.value || s.revision > prior.value.revision)
    && (if prior.None? then s.instance.Some?
        else if prior.value.instance.Some? then s.instance == prior.value.instance
        else s == prior.value || (s.instance.Some? && s.revision > prior.value.revision))
    && (prior.Some? ==> s.source == prior.value.source)
    && (s.source == Repository <==> s.launch.Some?)
  }

  /** The declaration of a name, from either source. */
  ghost predicate IsPrior(services: seq<Service>, name: string, prior: Option<Service>) {
    if prior.Some? then prior.value in services && prior.value.name == name
    else forall s :: s in services ==> s.name != name
  }

  /** Every declaration of the result may replace the one stored under its name. */
  lemma ConvergeAdmissible(services: seq<Service>, desired: seq<Desired>, chance: Chance, s: Service, prior: Option<Service>)
    requires Stored(services) && DistinctDesired(desired) && Converge(services, desired, chance).Converged?
    requires s in Converge(services, desired, chance).services && IsPrior(services, s.name, prior)
    ensures Admissible(if prior.Some? then Some(Defaulted(prior.value)) else None, Defaulted(s))
  {
    ConvergesIff(services, desired, chance);
    var placed := ConvergedIs(services, desired, chance);
    hide Converge;
    if s in placed {
      var i :| 0 <= i < |placed| && placed[i] == s;
      assert s.name == desired[i].name && s.source == Repository;
      ExistingFound(services, s.name);
      if prior.Some? {
        assert !FromApi(prior.value);
        ExistingIs(services, prior.value);
      }
    } else {
      var i :| 0 <= i < |services| && services[i] == s;
      assert prior.Some?;
      var j :| 0 <= j < |services| && services[j] == prior.value;
      assert i == j;
    }
  }

  // ---------------------------------------------------------------------
  // Convergence is idempotent
  // ---------------------------------------------------------------------

  lemma {:induction false} SortLength(services: seq<Service>)
    ensures |SortByName(services)| == |services|
  {
    if services != [] {
      var n := |services| - 1;
      SortLength(services[..n]);
      InsertLength(services[n], SortByName(services[..n]));
    }
  }

  lemma {:induction false} InsertLength(s: Service, sorted: seq<Service>)
    ensures |Insert(s, sorted)| == |sorted| + 1
  {
    if sorted != [] {
      InsertLength(s, sorted[1..]);
    }
  }

  lemma ApiCount(a: seq<Service>, b: seq<Service>)
    requires DistinctNames(a) && DistinctNames(b) && forall s :: FromApi(s) ==> (s in a <==> s in b)
    ensures |ApiServices(a)| == |ApiServices(b)|
  {
    ApiMembers(a);
    ApiMembers(b);
    SortAscending(ApiServices(a));
    SortAscending(ApiServices(b));
    AscendingUnique(SortByName(ApiServices(a)), SortByName(ApiServices(b)));
    SortLength(ApiServices(a));
    SortLength(ApiServices(b));
  }

  lemma {:induction false} ConvergedSize(services: seq<Service>, desired: seq<Desired>, chance: Chance)
    requires Stored(services) && DistinctDesired(desired) && Converge(services, desired, chance).Converged?
    ensures |Converge(services, desired, chance).services| <= DECLARATION_LIMIT
  {
    var occupied := Ports(services) + ExplicitPorts(desired);
    AlwaysRoomy(services, desired);
    PlaceAnswers(services, desired, occupied, chance);
    SortLength(ApiServices(services) + Place(services, desired, occupied, chance).placed);
  }

  /** In its own result every desired service is found as it stands, so nothing is left to change. */
  lemma ResultMergeable(services: seq<Service>, desired: seq<Desired>, chance: Chance)
    requires Stored(services) && DistinctDesired(desired) && Converge(services, desired, chance).Converged?
    ensures Mergeable(Converge(services, desired, chance).services, desired)
  {
    var result := Converge(services, desired, chance).services;
    ConvergesIff(services, desired, chance);
    ConvergeMerges(services, desired, chance);
    AscendingDistinct(result);
    ApiCount(services, result);
    hide Converge;
    forall i | 0 <= i < |desired|
      ensures Claim(result, desired[i]) == Some(Existing(result, desired[i].name).value.port) && !Exhausts(result, desired[i])
    {
      assert Yields(services, desired, desired[i], Existing(result, desired[i].name).value, chance);
    }
    forall i, j | 0 <= i < j < |desired| ensures Claim(result, desired[i]) != Claim(result, desired[j]) {
      ExistingFound(result, desired[i].name);
      ExistingFound(result, desired[j].name);
    }
  }

  /**
   * Converging the result of a convergence with the same desired services
   * returns the identical list, whatever hashes and identifiers it meets.
   */
  lemma ConvergeIdempotent(services: seq<Service>, desired: seq<Desired>, first: Chance, second: Chance)
    requires Stored(services) && DistinctDesired(desired) && Converge(services, desired, first).Converged?
    ensures var result := Converge(services, desired, first).services;
      Stored(result) && Converge(result, desired, second) == Converged(result)
  {
    var result := Converge(services, desired, first).services;
    ConvergeMerges(services, desired, first);
    ResultStored(services, desired, first);
    ResultMergeable(services, desired, first);
    ConvergesIff(result, desired, second);
    ConvergeMerges(result, desired, second);
    var again := Converge(result, desired, second).services;
    hide Converge;
    SameEntries(services, desired, result, again, first, second);
    AscendingUnique(result, again);
  }

  lemma ResultStored(services: seq<Service>, desired: seq<Desired>, chance: Chance)
    requires Stored(services) && DistinctDesired(desired) && Converge(services, desired, chance).Converged?
    ensures Stored(Converge(services, desired, chance).services)
  {
    var result := Converge(services, desired, chance).services;
    ConvergedSize(services, desired, chance);
    var placed := ConvergedIs(services, desired, chance);
    hide Converge;
    forall s | s in placed ensures s.source == Repository && s.launch.Some? && s.instance.Some? {
      var i :| 0 <= i < |placed| && placed[i] == s;
      ExistingFound(services, desired[i].name);
    }
  }

  lemma SameEntries(
    services: seq<Service>, desired: seq<Desired>, result: seq<Service>, again: seq<Service>, first: Chance, second: Chance)
    requires Merged(services, desired, result, first) && Merged(result, desired, again, second)
    ensures SameMembers(result, again)
  {
    AscendingDistinct(result);
    AscendingDistinct(again);
    forall i | 0 <= i < |desired| ensures Existing(again, desired[i].name) == Existing(result, desired[i].name) {
      assert Yields(services, desired, desired[i], Existing(result, desired[i].name).value, first);
      assert Yields(result, desired, desired[i], Existing(again, desired[i].name).value, second);
    }
    forall s ensures s in result <==> s in again {
      if s in result && !FromApi(s) {
        var i :| 0 <= i < |desired| && desired[i].name == s.name;
        ExistingIs(result, s);
        ExistingFound(again, s.name);
      }
      if s in again && !FromApi(s) {
        var i :| 0 <= i < |desired| && desired[i].name == s.name;
        ExistingIs(again, s);
        ExistingFound(result, s.name);
      }
    }
  }

  // ---------------------------------------------------------------------
  // Admission of the ports
  // ---------------------------------------------------------------------

  /** The rule for a target port. */
  predicate ValidPort(port: nat) {
    1 <= port <= 65535 && port != CONTROL_PORT
  }

  lemma {:induction false} PlacedPort(services: seq<Service>, desired: seq<Desired>, occupied: set<nat>, chance: Chance, i: nat)
    requires Place(services, desired, occupied, chance).Placed? && i < |desired|
    ensures |Place(services, desired, occupied, chance).placed| == |desired|
    ensures var before := Place(services, desired[..i], occupied, chance);
      && before.Placed?
      && Place(services, desired, occupied, chance).placed[i].port
         == ChosenPort(Existing(services, desired[i].name), desired[i], chance, before.occupied)
  {
    var n := |desired| - 1;
    PlaceLength(services, desired[..n], occupied, chance);
    if i < n {
      PlacedPort(services, desired[..n], occupied, chance, i);
      assert desired[..n][..i] == desired[..i];
    }
  }

  lemma {:induction false} PlaceLength(services: seq<Service>, desired: seq<Desired>, occupied: set<nat>, chance: Chance)
    ensures var p := Place(services, desired, occupied, chance); p.Placed? ==> |p.placed| == |desired|
  {
    if desired != [] {
      PlaceLength(services, desired[..|desired| - 1], occupied, chance);
    }
  }

  /** The ports nobody may be given when the `i`-th desired service is placed. */
  ghost function OccupiedBefore(services: seq<Service>, desired: seq<Desired>, chance: Chance, i: nat): set<nat>
    requires i <= |desired|
  {
    var p := Place(services, desired[..i], Ports(services) + ExplicitPorts(desired), chance);
    if p.Placed? then p.occupied else {}
  }

  /** The search for this service ends at the control port: it is free and all ports from the start up to it are not. */
  ghost predicate FallsOnControlPort(services: seq<Service>, desired: seq<Desired>, chance: Chance, i: nat)
    requires i < |desired|
  {
    var hash, occupied := chance.hash(desired[i].name), OccupiedBefore(services, desired, chance, i);
    && CONTROL_PORT !in occupied
    && forall k :: 0 <= k < Distance(hash, CONTROL_PORT) ==> Probe(hash, k) in occupied
  }

  /**
   * A converged result puts a repository service on the control port exactly
   * when one claims it, or one without a claim is hashed so that its search
   * ends there.
   */
  lemma NamesControlPortIff(services: seq<Service>, desired: seq<Desired>, chance: Chance)
    requires Stored(services) && DistinctDesired(desired) && Converge(services, desired, chance).Converged?
    ensures (exists s :: s in Converge(services, desired, chance).services && !FromApi(s) && s.port == CONTROL_PORT) <==>
      exists i :: 0 <= i < |desired| &&
        if Claim(services, desired[i]).Some? then Claim(services, desired[i]).value == CONTROL_PORT
        else FallsOnControlPort(services, desired, chance, i)
  {
    var result := Converge(services, desired, chance).services;
    var placed := Place(services, desired, Ports(services) + ExplicitPorts(desired), chance).placed;
    ConvergedMembers(services, desired, chance);
    hide Converge, Place, FallsOnControlPort;
    forall i | 0 <= i < |desired|
      ensures i < |placed| && placed[i] in placed && !FromApi(placed[i])
      ensures placed[i].port == CONTROL_PORT <==>
        if Claim(services, desired[i]).Some? then Claim(services, desired[i]).value == CONTROL_PORT
        else FallsOnControlPort(services, desired, chance, i)
    {
      PlacedOnControlPort(services, desired, chance, i);
    }
  }

  lemma ConvergedMembers(services: seq<Service>, desired: seq<Desired>, chance: Chance)
    requires Stored(services) && DistinctDesired(desired) && Converge(services, desired, chance).Converged?
    ensures var p := Place(services, desired, Ports(services) + ExplicitPorts(desired), chance);
      && p.Placed? && |p.placed| == |desired| && (forall i :: 0 <= i < |desired| ==> !FromApi(p.placed[i]))
      && forall s :: s in Converge(services, desired, chance).services <==> (s in services && FromApi(s)) || s in p.placed
  {
    ConvergesIff(services, desired, chance);
    AlwaysRoomy(services, desired);
    var occupied := Ports(services) + ExplicitPorts(desired);
    PlaceAnswers(services, desired, occupied, chance);
    var placed := Place(services, desired, occupied, chance).placed;
    PlacedNames(services, desired, occupied, placed, chance);
    SortAscending(ApiServices(services) + placed);
    ApiMembers(services);
  }

  lemma PlacedOnControlPort(services: seq<Service>, desired: seq<Desired>, chance: Chance, i: nat)
    requires Place(services, desired, Ports(services) + ExplicitPorts(desired), chance).Placed? && i < |desired|
    ensures i < |Place(services, desired, Ports(services) + ExplicitPorts(desired), chance).placed|
    ensures Place(services, desired, Ports(services) + ExplicitPorts(desired), chance).placed[i].port == CONTROL_PORT <==>
      if Claim(services, desired[i]).Some? then Claim(services, desired[i]).value == CONTROL_PORT
      else FallsOnControlPort(services, desired, chance, i)
  {
    PlacedPort(services, desired, Ports(services) + ExplicitPorts(desired), chance, i);
    AllocatesControlPort(chance.hash(desired[i].name), OccupiedBefore(services, desired, chance, i));
  }

  /**
   * With admitted declarations and parsed ports, admission accepts every port
   * of the result exactly when no search ends at the control port.
   */
  lemma PortsAdmittedIff(services: seq<Service>, desired: seq<Desired>, chance: Chance)
    requires Stored(services) && DistinctDesired(desired) && Converge(services, desired, chance).Converged?
    requires forall s :: s in services ==> ValidPort(s.port)
    requires forall i :: 0 <= i < |desired| && desired[i].port.Some? ==> ValidPort(desired[i].port.value)
    ensures (forall s :: s in Converge(services, desired, chance).services ==> ValidPort(s.port)) <==>
      forall i :: 0 <= i < |desired| && Claim(services, desired[i]).None? ==> !FallsOnControlPort(services, desired, chance, i)
  {
    var result := Converge(services, desired, chance).services;
    NamesControlPortIff(services, desired, chance);
    var placed := ConvergedIs(services, desired, chance);
    hide Converge, FallsOnControlPort;
    forall i | 0 <= i < |desired| && Claim(services, desired[i]).Some? ensures ValidPort(Claim(services, desired[i]).value) {
      ExistingFound(services, desired[i].name);
    }
    forall s | s in result && s.port != CONTROL_PORT ensures ValidPort(s.port) {
      if s in placed {
        var i :| 0 <= i < |placed| && placed[i] == s;
      }
    }
    forall s | s in result && FromApi(s) ensures ValidPort(s.port) {
      if s in placed {
        var i :| 0 <= i < |placed| && placed[i] == s;
      }
    }
  }

  /** A repository service may be declared on sandboxd's control port, which admission then refuses. */
  lemma ConvergesOntoControlPort(argv: seq<string>, chance: Chance)
    requires chance.hash("web") == 899
    ensures Converge([], [Desired("web", argv, None)], chance).Converged?
    ensures var e := Existing(Converge([], [Desired("web", argv, None)], chance).services, "web");
      e.Some? && e.value.port == CONTROL_PORT
  {
    var desired := [Desired("web", argv, None)];
    ConvergesIff([], desired, chance);
    AllocatesControlPortExample();
    assert desired[..0] == [];
    var occupied := Ports([]) + ExplicitPorts(desired);
    assert occupied == {};
    assert Place([], [], {}, chance) == Placed([], {});
    var s := Declare(None, desired[0], CONTROL_PORT, chance);
    assert Place([], desired, {}, chance).placed == [s];
    assert ApiServices([]) + [s] == [s];
    assert [s][..0] == [];
    assert SortByName([s]) == [s];
  }

  // ---------------------------------------------------------------------
  // The operation
  // ---------------------------------------------------------------------

  lemma {:induction false} CollisionStays(services: seq<Service>, desired: seq<Desired>, i: nat)
    requires i <= |desired| && FirstCollision(services, desired[..i]).Some?
    ensures FirstCollision(services, desired) == FirstCollision(services, desired[..i])
  {
    var n := |desired| - 1;
    if i <= n {
      assert desired[..n][..i] == desired[..i];
      CollisionStays(services, desired[..n], i);
    } else {
      assert desired[..i] == desired;
    }
  }

  lemma {:induction false} FailureStays(services: seq<Service>, desired: seq<Desired>, occupied: set<nat>, chance: Chance, i: nat)
    requires i <= |desired| && !Place(services, desired[..i], occupied, chance).Placed?
    ensures Place(services, desired, occupied, chance) == Place(services, desired[..i], occupied, chance)
  {
    var n := |desired| - 1;
    if i <= n {
      assert desired[..n][..i] == desired[..i];
      FailureStays(services, desired[..n], occupied, chance, i);
    } else {
      assert desired[..i] == desired;
    }
  }

  /** Splits the declarations by owner and collects their ports. */
  method ReadServices(services: seq<Service>)
    returns (api: seq<Service>, apiNames: set<string>, existing: map<string, Service>, occupied: set<nat>)
    ensures api == ApiServices(services) && occupied == Ports(services)
    ensures forall name :: name in apiNames <==> exists s :: s in services && FromApi(s) && s.name == name
    ensures forall name :: Existing(services, name) == if name in existing then Some(existing[name]) else None
  {
    api, apiNames, existing, occupied := [], {}, map[], {};
    for i := 0 to |services|
      invariant api == ApiServices(services[..i]) && occupied == Ports(services[..i])
      invariant forall name :: name in apiNames <==> exists s :: s in services[..i] && FromApi(s) && s.name == name
      invariant forall name :: Existing(services[..i], name) == if name in existing then Some(existing[name]) else None
    {
      var d := services[i];
      assert services[..i + 1] == services[..i] + [d];
      assert services[..i + 1][..i] == services[..i];
      PortsExtended(services[..i], d);
      occupied := occupied + {d.port};
      if FromApi(d) {
        api, apiNames := api + [d], apiNames + {d.name};
        assert d in services[..i + 1];
      } else {
        existing := existing[d.name := d];
      }
    }
    assert services[..|services|] == services;
  }

  /** Looks for a name or an explicit port that is taken, and reserves the explicit ports. */
  method CheckDesired(services: seq<Service>, desired: seq<Desired>, apiNames: set<string>)
    returns (collision: Option<Collision>, reserved: set<nat>)
    requires forall name :: name in apiNames <==> exists s :: s in services && FromApi(s) && s.name == name
    ensures collision == FirstCollision(services, desired)
    ensures collision.None? ==> reserved == ExplicitPorts(desired)
  {
    collision, reserved := None, {};
    var owners: map<nat, string> := map[];
    for i := 0 to |desired|
      invariant FirstCollision(services, desired[..i]).None? && reserved == ExplicitPorts(desired[..i])
      invariant forall p :: ExplicitOwner(desired[..i], Some(p)) == if p in owners then Some(owners[p]) else None
    {
      var d := desired[i];
      var upTo := desired[..i + 1];
      assert upTo[..i] == desired[..i] && upTo == desired[..i] + [d];
      ExplicitExtended(desired[..i], d);
      if d.name in apiNames {
        CollisionStays(services, desired, i + 1);
        return Some(WithApi(d.name)), reserved;
      }
      if d.port.Some? {
        if d.port.value in owners {
          assert FirstCollision(services, upTo) == Some(Between(owners[d.port.value], d.name));
          CollisionStays(services, desired, i + 1);
          return Some(Between(owners[d.port.value], d.name)), reserved;
        }
        owners := owners[d.port.value := d.name];
        reserved := reserved + {d.port.value};
      }
    }
    assert desired[..|desired|] == desired;
  }

  /** Places one more service among those placed. */
  method PlaceNext(
    services: seq<Service>, d: Desired, found: Option<Service>, placed: seq<Service>, occupied: set<nat>,
    owner: Option<string>, port: nat, chance: Chance)
    returns (p: Progress)
    requires found == Existing(services, d.name) && owner == PortOwner(placed, port)
    requires port == ChosenPort(found, d, chance, occupied)
    ensures p == PlaceOne(services, Placed(placed, occupied), d, chance)
  {
    hide Existing, PortOwner, ChosenPort;
    if owner.Some? {
      return Clash(owner.value, d.name);
    }
    var s := Service(d.name, Repository, None, 1, Some(d.argv), port, EXPOSURE);
    if found.Some? {
      var prior := found.value;
      s := s.(instance := prior.instance, revision := prior.revision);
      if prior.launch != s.launch || prior.port != port {
        if s.revision == MAX_INT64 {
          return Exhausted(d.name);
        }
        s := s.(revision := s.revision + 1);
      }
    } else {
      s := s.(instance := Some(chance.instance(d.name)));
    }
    return Placed(placed + [s], occupied + {port});
  }

  method ChoosePort(d: Desired, found: Option<Service>, occupied: set<nat>, chance: Chance) returns (port: nat)
    ensures port == ChosenPort(found, d, chance, occupied)
  {
    hide Allocate;
    if d.port.Some? {
      port := d.port.value;
    } else if found.Some? {
      port := found.value.port;
    } else {
      port := AllocateServicePort(chance.hash(d.name), occupied);
    }
  }

  lemma OwnersNext(before: seq<Service>, s: Service, ports: map<nat, string>)
    requires forall q :: PortOwner(before, q) == if q in ports then Some(ports[q]) else None
    ensures var more := ports[s.port := s.name];
      forall q :: PortOwner(before + [s], q) == if q in more then Some(more[q]) else None
  {
    var all := before + [s];
    assert all[..|before|] == before && all[|before|] == s;
  }

  method PlaceAll(
    services: seq<Service>, desired: seq<Desired>, existing: map<string, Service>, reserved: set<nat>, chance: Chance)
    returns (p: Progress)
    requires forall name :: Existing(services, name) == if name in existing then Some(existing[name]) else None
    ensures p == Place(services, desired, reserved, chance)
  {
    hide Existing, ChosenPort, PlaceOne, PortOwner;
    var placed: seq<Service>, occupied := [], reserved;
    var repositoryPorts: map<nat, string> := map[];
    NobodyOwns();
    for i := 0 to |desired|
      invariant Place(services, desired[..i], reserved, chance) == Placed(placed, occupied)
      invariant forall q :: PortOwner(placed, q) == if q in repositoryPorts then Some(repositoryPorts[q]) else None
    {
      var d := desired[i];
      assert desired[..i + 1][..i] == desired[..i] && desired[..i + 1][i] == d;
      var found := if d.name in existing then Some(existing[d.name]) else None;
      var port := ChoosePort(d, found, occupied, chance);
      var owner := if port in repositoryPorts then Some(repositoryPorts[port]) else None;
      p := PlaceNext(services, d, found, placed, occupied, owner, port, chance);
      assert Place(services, desired[..i + 1], reserved, chance) == p;
      if !p.Placed? {
        FailureStays(services, desired, reserved, chance, i + 1);
        return;
      }
      PlacedLast(services, placed, occupied, d, chance, port);
      OwnersNext(placed, p.placed[|placed|], repositoryPorts);
      repositoryPorts := repositoryPorts[port := d.name];
      placed, occupied := p.placed, p.occupied;
    }
    assert desired[..|desired|] == desired;
    return Placed(placed, occupied);
  }

  lemma NobodyOwns()
    ensures forall q :: PortOwner([], q).None?
  {
  }

  lemma PlacedLast(services: seq<Service>, placed: seq<Service>, occupied: set<nat>, d: Desired, chance: Chance, port: nat)
    requires port == ChosenPort(Existing(services, d.name), d, chance, occupied)
    requires PlaceOne(services, Placed(placed, occupied), d, chance).Placed?
    ensures var p := PlaceOne(services, Placed(placed, occupied), d, chance);
      |p.placed| == |placed| + 1 && p.placed == placed + [p.placed[|placed|]]
      && p.placed[|placed|].port == port && p.placed[|placed|].name == d.name
  {
    hide ChosenPort, PortOwner, Existing;
  }

  method ConvergeRepositoryDeclarations(services: seq<Service>, desired: seq<Desired>, chance: Chance) returns (o: Outcome)
    ensures o == Converge(services, desired, chance)
  {
    var api, apiNames, existing, occupied := ReadServices(services);
    var collision, reserved := CheckDesired(services, desired, apiNames);
    if collision.Some? {
      return Collided(collision.value);
    }
    if |api| + |desired| > DECLARATION_LIMIT {
      return TooMany;
    }
    var p := PlaceAll(services, desired, existing, occupied + reserved, chance);
    match p
    case Clash(first, second) => return Collided(Between(first, second));
    case Exhausted(name) => return RevisionExhausted(name);
    case Placed(placed, _) => return Converged(SortByName(api + placed));
  }
}
