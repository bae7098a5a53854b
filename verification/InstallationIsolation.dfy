/**
 * The isolation lifecycle of an Installation: what it selects, what the
 * reconciler has observed, and whether Environments may execute.
 *
 * A pass reads the Installation, may scan every Environment for a live
 * execution, and ends with at most one status write, guarded by the version
 * it read.  Revisions are compared for equality only, so a revision is the
 * value it is derived from.
 */
module InstallationIsolation {
  import opened Basics

  datatype Mode = UnrestrictedDevelopment | RestrictedProduction

  /** `valid` is the outcome of selection validation; `content` is everything else selected. */
  datatype Selection = Selection(mode: Mode, valid: bool, content: nat)

  datatype IsolationState = NoState | LegacyUnclassified | Active | Fencing | Blocked

  datatype Revision = OfSelection(selection: Selection) | OfDependencies(selection: Selection, identities: nat)

  datatype ReadyReason = ReasonFencing | ReasonLegacy | ReasonUnrestricted | ReasonUnavailable

  datatype Conditions = Conditions(dependenciesResolved: bool, ready: bool, reason: ReadyReason, observedGeneration: nat)

  datatype Status = Status(
    state: IsolationState,
    observed: Option<Selection>,
    revision: Option<Revision>,
    dependencies: Option<nat>,
    conditions: Option<Conditions>)

  datatype Installation = Installation(generation: nat, selection: Option<Selection>, status: Status)

  const FRESH := Status(NoState, None, None, None, None)

  predicate Withdrawn(s: Status) {
    s.state == Fencing || s.state == Blocked
  }

  // ---------------------------------------------------------------------
  // Execution authority
  // ---------------------------------------------------------------------

  predicate LegacyCompatible(s: Status) {
    && s.observed.None? && s.revision.None? && s.dependencies.None?
    && (s.state == LegacyUnclassified || (s.state == NoState && s.conditions.None?))
  }

  predicate AuthorityMatches(s: Status, selection: Selection) {
    s.state == Active && s.observed == Some(selection) && s.revision == Some(OfSelection(selection)) && s.dependencies.None?
  }

  predicate ExecutionAllowed(i: Installation) {
    if i.selection.None? then LegacyCompatible(i.status)
    else
      var selection := i.selection.value;
      && selection.valid && selection.mode == UnrestrictedDevelopment
      && (LegacyCompatible(i.status)
          || (&& AuthorityMatches(i.status, selection)
              && i.status.conditions.Some? && i.status.conditions.value.ready
              && i.status.conditions.value.reason == ReasonUnrestricted
              && i.status.conditions.value.observedGeneration == i.generation))
  }

  /** While execution is being fenced or is blocked, no selection allows it. */
  lemma WithdrawnDisallows(generation: nat, selection: Option<Selection>, status: Status)
    ensures Withdrawn(status) ==> !ExecutionAllowed(Installation(generation, selection, status))
  {
  }

  /** A restricted or invalid selection never allows execution, whatever status it finds. */
  lemma SelectionDisallows(generation: nat, selection: Selection, status: Status)
    requires selection.mode == RestrictedProduction || !selection.valid
    ensures !ExecutionAllowed(Installation(generation, Some(selection), status))
  {
  }

  /**
   * Authority is for exactly one selection: without a selection, and for any
   * other selection, revision or generation than it was written for, an Active
   * status allows nothing; nor does one that is not ready or that carries
   * restricted dependencies.
   */
  lemma AuthorityIsExact(generation: nat, selection: Option<Selection>, status: Status)
    requires status.state == Active && ExecutionAllowed(Installation(generation, selection, status))
    ensures selection.Some? && status.observed == selection && status.revision == Some(OfSelection(selection.value))
    ensures status.dependencies.None? && status.conditions.Some?
    ensures status.conditions.value.ready && status.conditions.value.reason == ReasonUnrestricted
    ensures status.conditions.value.observedGeneration == generation
  {
  }

  /** A status that is not Active allows execution only as one nobody has classified, with nothing observed. */
  lemma LegacyAllowsOnlyUnobserved(generation: nat, selection: Option<Selection>, status: Status)
    requires status.state != Active && ExecutionAllowed(Installation(generation, selection, status))
    ensures status.observed.None? && status.revision.None? && status.dependencies.None?
    ensures status.state == LegacyUnclassified || (status.state == NoState && status.conditions.None?)
    ensures selection.Some? ==> selection.value.valid && selection.value.mode == UnrestrictedDevelopment
  {
  }

  /** An Installation that was never classified executes, with no selection and with an unrestricted one. */
  lemma UnclassifiedAllows(generation: nat, selection: Option<Selection>, conditions: Option<Conditions>)
    requires selection.Some? ==> selection.value.valid && selection.value.mode == UnrestrictedDevelopment
    ensures ExecutionAllowed(Installation(generation, selection, Status(LegacyUnclassified, None, None, None, conditions)))
    ensures ExecutionAllowed(Installation(generation, selection, FRESH))
  {
  }

  // ---------------------------------------------------------------------
  // What a pass wants to write
  // ---------------------------------------------------------------------

  datatype Scan = NotScanned | AllFenced | SomeLive | ScanFailed

  function LegacyStatus(i: Installation, state: IsolationState): Status {
    Status(state, None, None, None,
      Some(Conditions(true, false, if state == Fencing then ReasonFencing else ReasonLegacy, i.generation)))
  }

  function UnrestrictedStatus(i: Installation, state: IsolationState, selection: Selection): Status {
    Status(state, Some(selection), Some(OfSelection(selection)), None,
      Some(Conditions(true, state == Active, if state == Active then ReasonUnrestricted else ReasonFencing, i.generation)))
  }

  function BlockedStatus(i: Installation, state: IsolationState, observed: Option<Selection>, identities: Option<nat>): Status {
    Status(state, observed,
      if identities.Some? && observed.Some? then Some(OfDependencies(observed.value, identities.value)) else None,
      if observed.Some? then identities else None,
      Some(Conditions(identities.Some?, false, if state == Blocked then ReasonUnavailable else ReasonFencing, i.generation)))
  }

  /** A selection that may leave execution as it is, or else fences first and settles after a clean scan. */
  function TwoPhase(i: Installation, compatible: bool, settled: Status, fencing: Status, scan: Scan): Option<Status> {
    if compatible then Some(settled)
    else if i.status != fencing then Some(fencing)
    else if scan == AllFenced then Some(settled)
    else None
  }

  predicate FenceFirst(i: Installation, observed: Option<Selection>, identities: Option<nat>) {
    var fencing := BlockedStatus(i, Fencing, observed, identities);
    || i.status.observed != observed
    || !Withdrawn(i.status)
    || (i.status.state == Blocked
        && !(i.status.revision == fencing.revision && i.status.dependencies == fencing.dependencies))
  }

  function BlockedPlan(i: Installation, identities: Option<nat>, scan: Scan): Option<Status>
    requires i.selection.Some?
  {
    var observed := if i.selection.value.valid then i.selection else None;
    if FenceFirst(i, observed, identities) then Some(BlockedStatus(i, Fencing, observed, identities))
    else if scan == NotScanned then None
    else Some(BlockedStatus(i, if scan == AllFenced then Blocked else Fencing, observed, identities))
  }

  /** `identities` is what resolving the restricted dependencies yields, if it succeeds. */
  function Plan(i: Installation, identities: Option<nat>, scan: Scan): Option<Status> {
    if i.selection.None? then
      TwoPhase(i, LegacyCompatible(i.status), LegacyStatus(i, LegacyUnclassified), LegacyStatus(i, Fencing), scan)
    else
      var selection := i.selection.value;
      if !selection.valid then BlockedPlan(i, None, scan)
      else if selection.mode == UnrestrictedDevelopment then
        TwoPhase(i, LegacyCompatible(i.status) || AuthorityMatches(i.status, selection),
          UnrestrictedStatus(i, Active, selection), UnrestrictedStatus(i, Fencing, selection), scan)
      else if i.status.observed != Some(selection) || !Withdrawn(i.status) then BlockedPlan(i, None, scan)
      else BlockedPlan(i, identities, scan)
  }

  /**
   * Blocking, and giving authority back after it was withdrawn, are only ever
   * planned on a scan that found no live execution.
   */
  lemma PlanNeedsScan(i: Installation, identities: Option<nat>, scan: Scan)
    requires Plan(i, identities, scan).Some?
    ensures var next := Plan(i, identities, scan).value;
      (next.state == Blocked || (Withdrawn(i.status) && !Withdrawn(next))) ==> scan == AllFenced
  {
  }

  /** A pass never leaves authority that the selection it read does not carry. */
  lemma PlanSettles(i: Installation, identities: Option<nat>, scan: Scan)
    requires Plan(i, identities, scan).Some?
    ensures var next := Plan(i, identities, scan).value;
      !Withdrawn(next) ==> next.state != NoState && ExecutionAllowed(i.(status := next))
  {
  }

  /** The Installation after a pass whose write applies. */
  function Passed(i: Installation, identities: Option<nat>, scan: Scan): Installation {
    var plan := Plan(i, identities, scan);
    if plan.Some? then i.(status := plan.value) else i
  }

  /** Where passes are heading: what the selection as it stands should come to. */
  function Goal(i: Installation, identities: Option<nat>): Status {
    match i.selection
    case None => Status(LegacyUnclassified, None, None, None, Some(Conditions(true, false, ReasonLegacy, i.generation)))
    case Some(selection) =>
      if !selection.valid then Status(Blocked, None, None, None, Some(Conditions(false, false, ReasonUnavailable, i.generation)))
      else if selection.mode == UnrestrictedDevelopment then
        Status(Active, Some(selection), Some(OfSelection(selection)), None,
          Some(Conditions(true, true, ReasonUnrestricted, i.generation)))
      else
        Status(Blocked, Some(selection), if identities.Some? then Some(OfDependencies(selection, identities.value)) else None,
          identities, Some(Conditions(identities.Some?, false, ReasonUnavailable, i.generation)))
  }

  /**
   * From whatever status, three passes over a selection that stands, and whose
   * scans are clean, bring the Installation where the selection says, and a
   * further one leaves it there: unclassified without a selection, Active with
   * an unrestricted one, and Blocked with one that is restricted or invalid.
   */
  lemma PassesConverge(i: Installation, identities: Option<nat>)
    ensures var j := Passed(Passed(Passed(i, identities, AllFenced), identities, AllFenced), identities, AllFenced);
      j == i.(status := Goal(i, identities)) && Passed(j, identities, AllFenced) == j
  {
  }

  /**
   * A status that does not already carry the authority of its selection is
   * withdrawn by one pass, and stays so as long as anything is found live or a
   * scan fails: the state is Fencing, and says so.
   */
  lemma NotCleanKeepsFencing(i: Installation, identities: Option<nat>, scan: Scan)
    requires scan == SomeLive || scan == ScanFailed
    ensures var next := Passed(i, identities, scan).status;
      || (ExecutionAllowed(i.(status := next)) && !Withdrawn(i.status))
      || (&& next.state == Fencing && next.conditions.Some?
          && !next.conditions.value.ready && next.conditions.value.reason == ReasonFencing
          && next.conditions.value.observedGeneration == i.generation)
  {
  }

  // ---------------------------------------------------------------------
  // The scan
  // ---------------------------------------------------------------------

  datatype TenancyMode = Scoped | TrustedAdmin | NoTenancy

  datatype Ownership = Owned | Foreign | Uncertain

  /** The Environments the Installation answers for. */
  datatype Scope = Scope(mode: TenancyMode, namespaces: seq<string>, owner: string -> Ownership)

  /** An Environment as a list shows it. */
  datatype Listed = Listed(id: nat, namespace: string, podName: bool, endpoint: bool, ready: bool)

  /**
   * What a call finds at the moment it is made: the Environments, those whose
   * own Pod or credential exists, and whether the call fails.
   */
  datatype World = World(environments: seq<Listed>, pods: set<nat>, credentials: set<nat>, fails: bool)

  predicate Published(e: Listed) {
    e.podName || e.endpoint || e.ready
  }

  predicate InScope(scope: Scope, namespace: string) {
    match scope.mode
    case Scoped => namespace in scope.namespaces
    case TrustedAdmin => scope.owner(namespace) == Owned
    case NoTenancy => false
  }

  function Compacted(names: seq<string>): seq<string> {
    if names == [] then []
    else
      var rest := Compacted(names[..|names| - 1]);
      if names[|names| - 1] in rest then rest else rest + [names[|names| - 1]]
  }

  function InNamespace(environments: seq<Listed>, namespace: string): seq<Listed> {
    if environments == [] then []
    else
      var n := |environments| - 1;
      var rest := InNamespace(environments[..n], namespace);
      if environments[n].namespace == namespace then rest + [environments[n]] else rest
  }

  function OwnedOnly(environments: seq<Listed>, owner: string -> Ownership): seq<Listed> {
    if environments == [] then []
    else
      var n := |environments| - 1;
      var rest := OwnedOnly(environments[..n], owner);
      if owner(environments[n].namespace) == Owned then rest + [environments[n]] else rest
  }

  predicate AnyUncertain(environments: seq<Listed>, owner: string -> Ownership) {
    exists i :: 0 <= i < |environments| && owner(environments[i].namespace) == Uncertain
  }

  /** How far a scan has got; every state but the last waits for one call. */
  datatype Scanning =
    | ListingAll
    | Listing(names: seq<string>, listed: seq<Listed>)
    | ReadingPod(todo: seq<Listed>)
    | ReadingSecret(todo: seq<Listed>)
    | Finished(scan: Scan)

  function Check(todo: seq<Listed>): Scanning {
    if todo == [] then Finished(AllFenced)
    else if Published(todo[0]) then Finished(SomeLive)
    else ReadingPod(todo)
  }

  function BeginScan(scope: Scope): Scanning {
    match scope.mode
    case NoTenancy => Finished(ScanFailed)
    case TrustedAdmin => ListingAll
    case Scoped => if scope.namespaces == [] then Check([]) else Listing(Compacted(scope.namespaces), [])
  }

  /** One call, answered by the world as it is now. */
  function Look(scope: Scope, p: Scanning, w: World): Scanning {
    if p.Finished? then p
    else if w.fails then Finished(ScanFailed)
    else
      match p
      case ListingAll =>
        if AnyUncertain(w.environments, scope.owner) then Finished(ScanFailed) else Check(OwnedOnly(w.environments, scope.owner))
      case Listing(todo, listed) =>
        if todo == [] then Check(listed)
        else
          var more := listed + InNamespace(w.environments, todo[0]);
          if |todo| == 1 then Check(more) else Listing(todo[1..], more)
      case ReadingPod(todo) =>
        if todo == [] then Finished(AllFenced)
        else if todo[0].id in w.pods then Finished(SomeLive) else ReadingSecret(todo)
      case ReadingSecret(todo) =>
        if todo == [] then Finished(AllFenced)
        else if todo[0].id in w.credentials then Finished(SomeLive) else Check(todo[1..])
      case Finished(_) => p
  }

  /** A scan whose calls met these worlds, one after another. */
  function Watch(scope: Scope, worlds: seq<World>): Scanning {
    if worlds == [] then BeginScan(scope) else Look(scope, Watch(scope, worlds[..|worlds| - 1]), worlds[|worlds| - 1])
  }

  /** The list of all Environments is refused exactly when it fails or shows a namespace nobody can answer for. */
  lemma UncertainOwnerFails(scope: Scope, w: World)
    requires scope.mode == TrustedAdmin
    ensures Look(scope, BeginScan(scope), w) == Finished(ScanFailed) <==>
      w.fails || exists e :: e in w.environments && scope.owner(e.namespace) != Owned && scope.owner(e.namespace) != Foreign
  {
    forall k | 0 <= k < |w.environments| && scope.owner(w.environments[k].namespace) == Uncertain
      ensures exists e :: e in w.environments && scope.owner(e.namespace) != Owned && scope.owner(e.namespace) != Foreign
    {
      assert w.environments[k] in w.environments;
    }
  }

  // What a clean scan has seen.

  /** Call `k` lists the Environments of this namespace. */
  ghost predicate ListCall(scope: Scope, worlds: seq<World>, k: nat, namespace: string) {
    && k < |worlds|
    && var p := Watch(scope, worlds[..k]);
       p.ListingAll? || (p.Listing? && p.names != [] && p.names[0] == namespace)
  }

  /** Call `k` looks for the Pod of this Environment. */
  ghost predicate PodCall(scope: Scope, worlds: seq<World>, k: nat, e: Listed) {
    k < |worlds| && var p := Watch(scope, worlds[..k]); p.ReadingPod? && p.todo != [] && p.todo[0] == e
  }

  /** Call `k` looks for the credential of this Environment. */
  ghost predicate SecretCall(scope: Scope, worlds: seq<World>, k: nat, e: Listed) {
    k < |worlds| && var p := Watch(scope, worlds[..k]); p.ReadingSecret? && p.todo != [] && p.todo[0] == e
  }

  /** Listed at call `k` without a connection, then found without its Pod, then without its credential. */
  ghost predicate Quiet(scope: Scope, e: Listed, worlds: seq<World>, k: nat) {
    && !Published(e)
    && exists p :: k < p && FoundAbsent(scope, e, worlds, p)
  }

  /** Call `p` looks for its Pod, the next for its credential, and neither is there. */
  ghost predicate FoundAbsent(scope: Scope, e: Listed, worlds: seq<World>, p: nat) {
    && PodCall(scope, worlds, p, e) && e.id !in worlds[p].pods
    && SecretCall(scope, worlds, p + 1, e) && e.id !in worlds[p + 1].credentials
  }

  /** At one call the Environments of the namespace were listed, and each of them was found quiet. */
  ghost predicate Cleared(scope: Scope, worlds: seq<World>) {
    forall namespace :: InScope(scope, namespace) ==> NamespaceCleared(scope, worlds, namespace, [], |worlds|)
  }

  /** The same but for what is still to be read. */
  ghost predicate NamespaceCleared(scope: Scope, worlds: seq<World>, namespace: string, todo: seq<Listed>, bound: nat)
    requires bound <= |worlds|
  {
    exists k :: 0 <= k < bound && ListingCleared(scope, worlds, namespace, todo, k)
  }

  ghost predicate ListingCleared(scope: Scope, worlds: seq<World>, namespace: string, todo: seq<Listed>, k: nat)
    requires k < |worlds|
  {
    && ListCall(scope, worlds, k, namespace)
    && forall e :: e in worlds[k].environments && e.namespace == namespace ==> e in todo || Quiet(scope, e, worlds, k)
  }

  ghost predicate Tracked(scope: Scope, worlds: seq<World>, todo: seq<Listed>, bound: nat)
    requires bound <= |worlds|
  {
    forall namespace :: InScope(scope, namespace) ==> NamespaceCleared(scope, worlds, namespace, todo, bound)
  }

  ghost predicate NamespaceListed(scope: Scope, worlds: seq<World>, namespace: string, listed: seq<Listed>) {
    exists k: nat :: ListCall(scope, worlds, k, namespace) &&
      forall e :: e in worlds[k].environments && e.namespace == namespace ==> e in listed
  }

  /** What holds of a scan in progress. */
  ghost predicate Watched(scope: Scope, worlds: seq<World>) {
    match Watch(scope, worlds)
    case ListingAll => scope.mode == TrustedAdmin
    case Listing(todo, listed) =>
      && scope.mode == Scoped && todo != []
      && forall namespace :: namespace in scope.namespaces ==> namespace in todo || NamespaceListed(scope, worlds, namespace, listed)
    case ReadingPod(todo) => todo != [] && !Published(todo[0]) && Tracked(scope, worlds, todo, |worlds|)
    case ReadingSecret(todo) =>
      && todo != [] && !Published(todo[0]) && |worlds| > 0 && todo[0].id !in worlds[|worlds| - 1].pods
      && PodCall(scope, worlds, |worlds| - 1, todo[0]) && Tracked(scope, worlds, todo, |worlds| - 1)
    case Finished(scan) => scan == AllFenced ==> Tracked(scope, worlds, [], |worlds|)
  }

  lemma {:induction false} CompactedMembers(names: seq<string>)
    ensures forall n :: n in Compacted(names) <==> n in names
    ensures names != [] ==> Compacted(names) != []
  {
    if names != [] {
      var n := |names| - 1;
      CompactedMembers(names[..n]);
      assert names == names[..n] + [names[n]];
    }
  }

  lemma {:induction false} InNamespaceMembers(environments: seq<Listed>, namespace: string)
    ensures forall e :: e in InNamespace(environments, namespace) <==> e in environments && e.namespace == namespace
  {
    if environments != [] {
      var n := |environments| - 1;
      InNamespaceMembers(environments[..n], namespace);
      assert environments == environments[..n] + [environments[n]];
    }
  }

  lemma {:induction false} OwnedOnlyMembers(environments: seq<Listed>, owner: string -> Ownership)
    ensures forall e :: e in OwnedOnly(environments, owner) <==> e in environments && owner(e.namespace) == Owned
  {
    if environments != [] {
      var n := |environments| - 1;
      OwnedOnlyMembers(environments[..n], owner);
      assert environments == environments[..n] + [environments[n]];
    }
  }

  lemma QuietLonger(scope: Scope, e: Listed, worlds: seq<World>, k: nat, w: World)
    requires Quiet(scope, e, worlds, k)
    ensures Quiet(scope, e, worlds + [w], k)
  {
    var p :| k < p && FoundAbsent(scope, e, worlds, p);
    var more := worlds + [w];
    assert more[..p] == worlds[..p] && more[..p + 1] == worlds[..p + 1];
    assert FoundAbsent(scope, e, more, p);
  }

  /** Nothing is lost by looking again; `done` may leave what is still to be read once it is quiet. */
  lemma TrackedLonger(scope: Scope, worlds: seq<World>, w: World, todo: seq<Listed>, left: seq<Listed>, bound: nat)
    requires bound <= |worlds| && Tracked(scope, worlds, todo, bound)
    requires forall e, k :: e in todo && e !in left && 0 <= k < bound ==> Quiet(scope, e, worlds + [w], k)
    ensures Tracked(scope, worlds + [w], left, bound)
  {
    var more := worlds + [w];
    forall namespace | InScope(scope, namespace) ensures NamespaceCleared(scope, more, namespace, left, bound) {
      var k :| 0 <= k < bound && ListingCleared(scope, worlds, namespace, todo, k);
      forall e | e in more[k].environments && e.namespace == namespace ensures e in left || Quiet(scope, e, more, k) {
        if e !in todo {
          QuietLonger(scope, e, worlds, k, w);
        }
      }
      assert more[..k] == worlds[..k];
      assert ListingCleared(scope, more, namespace, left, k);
    }
  }

  lemma TrackedWider(scope: Scope, worlds: seq<World>, todo: seq<Listed>, bound: nat)
    requires bound < |worlds| && Tracked(scope, worlds, todo, bound)
    ensures Tracked(scope, worlds, todo, bound + 1) && Tracked(scope, worlds, todo, |worlds|)
  {
    forall namespace | InScope(scope, namespace)
      ensures NamespaceCleared(scope, worlds, namespace, todo, bound + 1) && NamespaceCleared(scope, worlds, namespace, todo, |worlds|)
    {
      var k :| 0 <= k < bound && ListingCleared(scope, worlds, namespace, todo, k);
    }
  }

  lemma CheckTracked(scope: Scope, worlds: seq<World>, todo: seq<Listed>)
    requires Tracked(scope, worlds, todo, |worlds|) && Watch(scope, worlds) == Check(todo)
    ensures Watched(scope, worlds)
  {
  }

  lemma LookAtAll(scope: Scope, worlds: seq<World>, w: World)
    requires Watched(scope, worlds) && Watch(scope, worlds).ListingAll?
    ensures Watched(scope, worlds + [w])
  {
    var more := worlds + [w];
    assert more[..|worlds|] == worlds;
    var owned := OwnedOnly(w.environments, scope.owner);
    OwnedOnlyMembers(w.environments, scope.owner);
    if !w.fails && !AnyUncertain(w.environments, scope.owner) {
      forall namespace | InScope(scope, namespace) ensures NamespaceCleared(scope, more, namespace, owned, |more|) {
        assert ListingCleared(scope, more, namespace, owned, |worlds|);
      }
      CheckTracked(scope, more, owned);
    }
  }

  /** A namespace listed now, or before, is listed. */
  lemma ListedNext(scope: Scope, worlds: seq<World>, w: World, namespace: string, listed: seq<Listed>, items: seq<Listed>)
    requires NamespaceListed(scope, worlds, namespace, listed) || ListCall(scope, worlds + [w], |worlds|, namespace)
    requires ListCall(scope, worlds + [w], |worlds|, namespace) ==>
      forall e :: e in w.environments && e.namespace == namespace ==> e in items
    ensures NamespaceListed(scope, worlds + [w], namespace, listed + items)
    ensures NamespaceCleared(scope, worlds + [w], namespace, listed + items, |worlds| + 1)
  {
    var more := worlds + [w];
    var k: nat;
    if ListCall(scope, more, |worlds|, namespace) {
      k := |worlds|;
    } else {
      k :| ListCall(scope, worlds, k, namespace) &&
        forall e :: e in worlds[k].environments && e.namespace == namespace ==> e in listed;
      assert more[..k] == worlds[..k];
    }
    assert ListCall(scope, more, k, namespace);
    assert forall e :: e in more[k].environments && e.namespace == namespace ==> e in listed + items;
    assert ListingCleared(scope, more, namespace, listed + items, k);
  }

  lemma LookAtNamespace(scope: Scope, worlds: seq<World>, w: World)
    requires Watched(scope, worlds) && Watch(scope, worlds).Listing?
    ensures Watched(scope, worlds + [w])
  {
    var more := worlds + [w];
    assert more[..|worlds|] == worlds;
    var p := Watch(scope, worlds);
    if !w.fails {
      var items := InNamespace(w.environments, p.names[0]);
      InNamespaceMembers(w.environments, p.names[0]);
      assert p.names == [p.names[0]] + p.names[1..];
      forall namespace | namespace in scope.namespaces && namespace !in p.names[1..]
        ensures NamespaceListed(scope, more, namespace, p.listed + items)
        ensures NamespaceCleared(scope, more, namespace, p.listed + items, |more|)
      {
        ListedNext(scope, worlds, w, namespace, p.listed, items);
      }
      if |p.names| == 1 {
        CheckTracked(scope, more, p.listed + items);
      }
    }
  }

  lemma LookAtPod(scope: Scope, worlds: seq<World>, w: World)
    requires Watched(scope, worlds) && Watch(scope, worlds).ReadingPod?
    ensures Watched(scope, worlds + [w])
  {
    var more := worlds + [w];
    assert more[..|worlds|] == worlds;
    var todo := Watch(scope, worlds).todo;
    TrackedLonger(scope, worlds, w, todo, todo, |worlds|);
  }

  lemma LookAtSecret(scope: Scope, worlds: seq<World>, w: World)
    requires Watched(scope, worlds) && Watch(scope, worlds).ReadingSecret?
    ensures Watched(scope, worlds + [w])
  {
    var more := worlds + [w];
    assert more[..|worlds|] == worlds;
    var todo := Watch(scope, worlds).todo;
    var e := todo[0];
    var n := |worlds| - 1;
    if !w.fails && e.id !in w.credentials {
      assert more[n] == worlds[n] && more[n + 1] == w && more[..n] == worlds[..n] && more[..n + 1] == worlds;
      assert FoundAbsent(scope, e, more, n);
      assert forall k :: 0 <= k < n ==> Quiet(scope, e, more, k);
      assert todo == [e] + todo[1..];
      TrackedLonger(scope, worlds, w, todo, todo[1..], n);
      TrackedWider(scope, more, todo[1..], n);
      CheckTracked(scope, more, todo[1..]);
    }
  }

  lemma {:induction false} AlwaysWatched(scope: Scope, worlds: seq<World>)
    ensures Watched(scope, worlds)
  {
    if worlds == [] {
      CompactedMembers(scope.namespaces);
    } else {
      var n := |worlds| - 1;
      var before, w := worlds[..n], worlds[n];
      AlwaysWatched(scope, before);
      assert worlds == before + [w];
      match Watch(scope, before)
      case ListingAll => LookAtAll(scope, before, w);
      case Listing(_, _) => LookAtNamespace(scope, before, w);
      case ReadingPod(_) => LookAtPod(scope, before, w);
      case ReadingSecret(_) => LookAtSecret(scope, before, w);
      case Finished(scan) =>
        if scan == AllFenced {
          TrackedLonger(scope, before, w, [], [], n);
          TrackedWider(scope, worlds, [], n);
        }
    }
  }

  /**
   * A scan that finds nothing live has, for every namespace in scope, listed
   * its Environments at one call, none of them with a connection, and later
   * found each without its Pod and then without its credential.
   */
  lemma CleanScanMeans(scope: Scope, worlds: seq<World>)
    requires Watch(scope, worlds) == Finished(AllFenced)
    ensures Cleared(scope, worlds)
  {
    AlwaysWatched(scope, worlds);
  }

  // What the other answers mean.

  /** Every one of these was listed at some call, in scope. */
  ghost predicate Known(scope: Scope, worlds: seq<World>, listed: seq<Listed>) {
    forall e :: e in listed ==> InScope(scope, e.namespace) && exists j :: 0 <= j < |worlds| && e in worlds[j].environments
  }

  /** An Environment in scope was listed at one call and found live then or at a later one. */
  ghost predicate SawLive(scope: Scope, worlds: seq<World>) {
    exists e, k :: 0 <= k < |worlds| && Known(scope, worlds, [e]) && (Published(e) || e.id in worlds[k].pods || e.id in worlds[k].credentials)
  }

  ghost predicate SawFailure(scope: Scope, worlds: seq<World>) {
    || scope.mode == NoTenancy
    || exists k :: 0 <= k < |worlds| &&
         (worlds[k].fails || (scope.mode == TrustedAdmin && AnyUncertain(worlds[k].environments, scope.owner)))
  }

  ghost predicate Explained(scope: Scope, worlds: seq<World>) {
    match Watch(scope, worlds)
    case ListingAll => scope.mode == TrustedAdmin
    case Listing(names, listed) =>
      scope.mode == Scoped && names != [] && Known(scope, worlds, listed) && forall n :: n in names ==> n in scope.namespaces
    case ReadingPod(todo) => todo != [] && Known(scope, worlds, todo)
    case ReadingSecret(todo) => todo != [] && Known(scope, worlds, todo)
    case Finished(scan) =>
      && scan != NotScanned && (scan == SomeLive ==> SawLive(scope, worlds)) && (scan == ScanFailed ==> SawFailure(scope, worlds))
  }

  lemma KnownLonger(scope: Scope, worlds: seq<World>, listed: seq<Listed>, w: World)
    requires Known(scope, worlds, listed)
    ensures Known(scope, worlds + [w], listed)
  {
    var more := worlds + [w];
    forall e | e in listed ensures exists j :: 0 <= j < |more| && e in more[j].environments {
      var j :| 0 <= j < |worlds| && e in worlds[j].environments;
      assert more[j] == worlds[j];
    }
  }

  lemma CheckExplained(scope: Scope, worlds: seq<World>, todo: seq<Listed>)
    requires Known(scope, worlds, todo) && Watch(scope, worlds) == Check(todo) && worlds != []
    ensures Explained(scope, worlds)
  {
    if todo != [] && Published(todo[0]) {
      var e := todo[0];
      assert e in todo && Known(scope, worlds, [e]);
      assert 0 < |worlds|;
      assert SawLive(scope, worlds);
    }
  }

  lemma ListExplained(scope: Scope, worlds: seq<World>, w: World)
    requires Explained(scope, worlds) && !w.fails && (Watch(scope, worlds).ListingAll? || Watch(scope, worlds).Listing?)
    ensures Explained(scope, worlds + [w])
  {
    var more := worlds + [w];
    assert more[..|worlds|] == worlds && more[|worlds|] == w;
    var p := Watch(scope, worlds);
    if p.ListingAll? {
      var owned := OwnedOnly(w.environments, scope.owner);
      OwnedOnlyMembers(w.environments, scope.owner);
      if !AnyUncertain(w.environments, scope.owner) {
        assert Known(scope, more, owned);
        CheckExplained(scope, more, owned);
      }
    } else {
      var items := InNamespace(w.environments, p.names[0]);
      InNamespaceMembers(w.environments, p.names[0]);
      KnownLonger(scope, worlds, p.listed, w);
      assert p.names[0] in p.names;
      assert Known(scope, more, p.listed + items);
      if |p.names| == 1 {
        CheckExplained(scope, more, p.listed + items);
      }
    }
  }

  lemma ReadExplained(scope: Scope, worlds: seq<World>, w: World)
    requires Explained(scope, worlds) && !w.fails && (Watch(scope, worlds).ReadingPod? || Watch(scope, worlds).ReadingSecret?)
    ensures Explained(scope, worlds + [w])
  {
    var more := worlds + [w];
    assert more[..|worlds|] == worlds && more[|worlds|] == w;
    var p := Watch(scope, worlds);
    var todo := p.todo;
    KnownLonger(scope, worlds, todo, w);
    assert todo[0] in todo && todo == [todo[0]] + todo[1..];
    assert Known(scope, more, [todo[0]]) && Known(scope, more, todo[1..]);
    if Watch(scope, more) == Finished(SomeLive) && (todo[0].id in w.pods || todo[0].id in w.credentials) {
      assert SawLive(scope, more);
    } else if p.ReadingSecret? {
      CheckExplained(scope, more, todo[1..]);
    }
  }

  lemma FinishedExplained(scope: Scope, worlds: seq<World>, w: World)
    requires Explained(scope, worlds) && (w.fails || Watch(scope, worlds).Finished?)
    ensures Explained(scope, worlds + [w])
  {
    var more := worlds + [w];
    assert more[..|worlds|] == worlds && more[|worlds|] == w;
    if Watch(scope, worlds) == Finished(SomeLive) {
      var e, k :| 0 <= k < |worlds| && Known(scope, worlds, [e]) && (Published(e) || e.id in worlds[k].pods || e.id in worlds[k].credentials);
      KnownLonger(scope, worlds, [e], w);
      assert more[k] == worlds[k];
      assert SawLive(scope, more);
    } else if Watch(scope, worlds) == Finished(ScanFailed) && scope.mode != NoTenancy {
      var k :| 0 <= k < |worlds| &&
        (worlds[k].fails || (scope.mode == TrustedAdmin && AnyUncertain(worlds[k].environments, scope.owner)));
      assert more[k] == worlds[k];
    }
  }

  /** A scan answers that something is live only when it saw it, and fails only on a failed call or an uncertain owner. */
  lemma {:induction false} AlwaysExplained(scope: Scope, worlds: seq<World>)
    ensures Explained(scope, worlds)
  {
    if worlds == [] {
      CompactedMembers(scope.namespaces);
    } else {
      var n := |worlds| - 1;
      var before, w := worlds[..n], worlds[n];
      AlwaysExplained(scope, before);
      assert worlds == before + [w];
      var p := Watch(scope, before);
      if w.fails || p.Finished? {
        FinishedExplained(scope, before, w);
      } else if p.ListingAll? || p.Listing? {
        ListExplained(scope, before, w);
      } else {
        ReadExplained(scope, before, w);
      }
    }
  }

  // ---------------------------------------------------------------------
  // When a clean scan ends with nothing live
  // ---------------------------------------------------------------------

  predicate LiveAt(w: World, e: Listed) {
    Published(e) || e.id in w.pods || e.id in w.credentials
  }

  /** Some Environment in scope has a connection, a Pod or a credential. */
  ghost predicate LiveIn(scope: Scope, w: World) {
    exists e :: e in w.environments && InScope(scope, e.namespace) && LiveAt(w, e)
  }

  ghost predicate PresentIn(w: World, id: nat, namespace: string) {
    exists e :: e in w.environments && e.id == id && e.namespace == namespace
  }

  ghost predicate ConnectedIn(w: World, id: nat, namespace: string) {
    exists e :: e in w.environments && e.id == id && e.namespace == namespace && Published(e)
  }

  ghost function Presence(e: Listed): World -> bool {
    (w: World) => PresentIn(w, e.id, e.namespace)
  }

  ghost function Connection(e: Listed): World -> bool {
    (w: World) => ConnectedIn(w, e.id, e.namespace)
  }

  ghost function HasPod(e: Listed): World -> bool {
    (w: World) => e.id in w.pods
  }

  ghost function HasCredential(e: Listed): World -> bool {
    (w: World) => e.id in w.credentials
  }

  /** `f` comes to hold at call `j`, and holds from then to the last. */
  ghost predicate RisesAt(worlds: seq<World>, f: World -> bool, j: nat) {
    0 < j < |worlds| && !f(worlds[j - 1]) && forall m :: j <= m < |worlds| ==> f(worlds[m])
  }

  ghost predicate Rises(worlds: seq<World>, f: World -> bool, k: nat) {
    exists j :: k < j && RisesAt(worlds, f, j)
  }

  lemma {:induction false} RisesFrom(worlds: seq<World>, f: World -> bool, k: nat, n: nat) returns (j: nat)
    requires k < n < |worlds| && !f(worlds[k]) && forall m :: n <= m < |worlds| ==> f(worlds[m])
    ensures k < j <= n && RisesAt(worlds, f, j)
  {
    if f(worlds[n - 1]) {
      j := RisesFrom(worlds, f, k, n - 1);
    } else {
      j := n;
    }
  }

  lemma RisesIff(worlds: seq<World>, f: World -> bool, k: nat)
    requires k < |worlds| && !f(worlds[k])
    ensures Rises(worlds, f, k) <==> f(worlds[|worlds| - 1])
  {
    if f(worlds[|worlds| - 1]) {
      var j := RisesFrom(worlds, f, k, |worlds| - 1);
    }
  }

  /** Its connection came up after the call that listed its namespace, and stands. */
  ghost predicate ConnectedLater(scope: Scope, worlds: seq<World>, e: Listed) {
    exists k: nat :: ListCall(scope, worlds, k, e.namespace) && Rises(worlds, Connection(e), k)
  }

  /** It appeared after the call that listed its namespace, with a Pod or a credential. */
  ghost predicate AppearedLater(scope: Scope, worlds: seq<World>, e: Listed)
    requires worlds != []
  {
    && (exists k: nat :: ListCall(scope, worlds, k, e.namespace) && Rises(worlds, Presence(e), k))
    && (e.id in worlds[|worlds| - 1].pods || e.id in worlds[|worlds| - 1].credentials)
  }

  /** Its Pod came after the call that looked for it, or its credential after the one that looked for that, and stands. */
  ghost predicate CreatedLater(scope: Scope, worlds: seq<World>, e: Listed) {
    exists f: Listed, p: nat ::
      && f.id == e.id && f.namespace == e.namespace
      && ((PodCall(scope, worlds, p, f) && Rises(worlds, HasPod(e), p))
          || (SecretCall(scope, worlds, p, f) && Rises(worlds, HasCredential(e), p)))
  }

  ghost predicate StartedLater(scope: Scope, worlds: seq<World>, e: Listed)
    requires worlds != []
  {
    ConnectedLater(scope, worlds, e) || AppearedLater(scope, worlds, e) || CreatedLater(scope, worlds, e)
  }

  lemma LiveStartedLater(scope: Scope, worlds: seq<World>, e: Listed)
    requires Cleared(scope, worlds) && worlds != []
    requires e in worlds[|worlds| - 1].environments && InScope(scope, e.namespace) && LiveAt(worlds[|worlds| - 1], e)
    ensures StartedLater(scope, worlds, e)
  {
    var last := worlds[|worlds| - 1];
    hide Rises, PodCall, SecretCall;
    assert NamespaceCleared(scope, worlds, e.namespace, [], |worlds|);
    var k :| 0 <= k < |worlds| && ListingCleared(scope, worlds, e.namespace, [], k);
    if Published(e) {
      assert Connection(e)(last);
      assert !Connection(e)(worlds[k]);
      RisesIff(worlds, Connection(e), k);
    } else if !PresentIn(worlds[k], e.id, e.namespace) {
      assert Presence(e)(last) && !Presence(e)(worlds[k]);
      RisesIff(worlds, Presence(e), k);
    } else {
      var f :| f in worlds[k].environments && f.id == e.id && f.namespace == e.namespace;
      assert Quiet(scope, f, worlds, k);
      var p :| k < p && FoundAbsent(scope, f, worlds, p);
      AbsentThenCreated(scope, worlds, e, f, p);
    }
  }

  lemma AbsentThenCreated(scope: Scope, worlds: seq<World>, e: Listed, f: Listed, p: nat)
    requires f.id == e.id && f.namespace == e.namespace && FoundAbsent(scope, f, worlds, p)
    requires e.id in worlds[|worlds| - 1].pods || e.id in worlds[|worlds| - 1].credentials
    ensures CreatedLater(scope, worlds, e)
  {
    RisesIff(worlds, HasPod(e), p);
    RisesIff(worlds, HasCredential(e), p + 1);
    if e.id in worlds[|worlds| - 1].pods {
      assert PodCall(scope, worlds, p, f) && Rises(worlds, HasPod(e), p);
    } else {
      assert SecretCall(scope, worlds, p + 1, f) && Rises(worlds, HasCredential(e), p + 1);
    }
  }

  lemma StartedLaterIsLive(scope: Scope, worlds: seq<World>, e: Listed)
    requires worlds != [] && e in worlds[|worlds| - 1].environments && InScope(scope, e.namespace)
    requires StartedLater(scope, worlds, e)
    ensures LiveIn(scope, worlds[|worlds| - 1])
  {
    var last := worlds[|worlds| - 1];
    if ConnectedLater(scope, worlds, e) {
      var k: nat :| ListCall(scope, worlds, k, e.namespace) && Rises(worlds, Connection(e), k);
      assert Connection(e)(last);
    } else if AppearedLater(scope, worlds, e) {
      assert LiveAt(last, e);
    } else {
      var f: Listed, p: nat :| f.id == e.id && f.namespace == e.namespace
        && ((PodCall(scope, worlds, p, f) && Rises(worlds, HasPod(e), p))
            || (SecretCall(scope, worlds, p, f) && Rises(worlds, HasCredential(e), p)));
      assert HasPod(e)(last) || HasCredential(e)(last);
      assert LiveAt(last, e);
    }
  }

  /**
   * After a clean scan something in scope is live exactly when an Environment
   * got its connection after the call that listed it, its Pod or credential
   * after the call that looked for it, or itself came after the list with one.
   */
  lemma LiveAfterCleanScanIff(scope: Scope, worlds: seq<World>)
    requires Watch(scope, worlds) == Finished(AllFenced) && worlds != []
    ensures LiveIn(scope, worlds[|worlds| - 1]) <==>
      exists e :: e in worlds[|worlds| - 1].environments && InScope(scope, e.namespace) && StartedLater(scope, worlds, e)
  {
    var last := worlds[|worlds| - 1];
    CleanScanMeans(scope, worlds);
    if LiveIn(scope, last) {
      var e :| e in last.environments && InScope(scope, e.namespace) && LiveAt(last, e);
      LiveStartedLater(scope, worlds, e);
    }
    if e :| e in last.environments && InScope(scope, e.namespace) && StartedLater(scope, worlds, e) {
      StartedLaterIsLive(scope, worlds, e);
    }
  }

  /** From one world to another nothing in scope starts: Pods, credentials, Environments and connections only go. */
  ghost predicate OnlyStops(scope: Scope, v: World, w: World) {
    && w.pods <= v.pods && w.credentials <= v.credentials
    && forall e :: e in w.environments && InScope(scope, e.namespace) ==>
         PresentIn(v, e.id, e.namespace) && (Published(e) ==> ConnectedIn(v, e.id, e.namespace))
  }

  lemma NeverRises(worlds: seq<World>, f: World -> bool, k: nat)
    requires forall j :: 0 < j < |worlds| && f(worlds[j]) ==> f(worlds[j - 1])
    ensures !Rises(worlds, f, k)
  {
    forall j | k < j < |worlds| ensures !RisesAt(worlds, f, j) {
      assert f(worlds[j]) ==> f(worlds[j - 1]);
    }
  }

  lemma NothingRises(scope: Scope, worlds: seq<World>, e: Listed, k: nat)
    requires InScope(scope, e.namespace) && forall m :: 0 < m < |worlds| ==> OnlyStops(scope, worlds[m - 1], worlds[m])
    ensures !Rises(worlds, Connection(e), k) && !Rises(worlds, Presence(e), k)
    ensures !Rises(worlds, HasPod(e), k) && !Rises(worlds, HasCredential(e), k)
  {
    hide Rises;
    forall j | 0 < j < |worlds|
      ensures (Connection(e)(worlds[j]) ==> Connection(e)(worlds[j - 1])) && (Presence(e)(worlds[j]) ==> Presence(e)(worlds[j - 1]))
      ensures (HasPod(e)(worlds[j]) ==> HasPod(e)(worlds[j - 1])) && (HasCredential(e)(worlds[j]) ==> HasCredential(e)(worlds[j - 1]))
    {
      assert OnlyStops(scope, worlds[j - 1], worlds[j]);
    }
    NeverRises(worlds, Connection(e), k);
    NeverRises(worlds, Presence(e), k);
    NeverRises(worlds, HasPod(e), k);
    NeverRises(worlds, HasCredential(e), k);
  }

  /** If nothing in scope starts while it runs, a clean scan ends with nothing in scope live. */
  lemma CleanScanEndsQuiet(scope: Scope, worlds: seq<World>)
    requires Watch(scope, worlds) == Finished(AllFenced) && worlds != []
    requires forall m :: 0 < m < |worlds| ==> OnlyStops(scope, worlds[m - 1], worlds[m])
    ensures !LiveIn(scope, worlds[|worlds| - 1])
  {
    LiveAfterCleanScanIff(scope, worlds);
    forall e: Listed, k: nat | InScope(scope, e.namespace)
      ensures !Rises(worlds, Connection(e), k) && !Rises(worlds, Presence(e), k)
      ensures !Rises(worlds, HasPod(e), k) && !Rises(worlds, HasCredential(e), k)
    {
      NothingRises(scope, worlds, e, k);
    }
  }

  /** A clean scan need not have met an instant at which nothing in scope was live. */
  lemma CleanScanIsNoInstant(scope: Scope, namespace: string) returns (worlds: seq<World>)
    requires scope.mode == Scoped && scope.namespaces == [namespace]
    ensures Watch(scope, worlds) == Finished(AllFenced) && worlds != []
    ensures forall k :: 0 <= k < |worlds| ==> LiveIn(scope, worlds[k])
  {
    var a, b := Listed(1, namespace, false, false, false), Listed(2, namespace, false, false, false);
    var early, late := World([a, b], {2}, {}, false), World([a, b], {1}, {}, false);
    OneNamespace(namespace, a, b);
    assert b in early.environments && LiveAt(early, b) && LiveIn(scope, early);
    assert a in late.environments && LiveAt(late, a) && LiveIn(scope, late);
    FiveCalls(scope, namespace, a, b, early, late);
    worlds := [];
    assert Watch(scope, worlds) == Listing([namespace], []);
    hide LiveIn, Watch, Look;
    worlds := Meeting(scope, worlds, early);
    worlds := Meeting(scope, worlds, early);
    worlds := Meeting(scope, worlds, early);
    worlds := Meeting(scope, worlds, late);
    worlds := Meeting(scope, worlds, late);
  }

  lemma FiveCalls(scope: Scope, namespace: string, a: Listed, b: Listed, early: World, late: World)
    requires InNamespace([a, b], namespace) == [a, b] && a.id != b.id && !Published(a) && !Published(b)
    requires early == World([a, b], {b.id}, {}, false) && late == World([a, b], {a.id}, {}, false)
    ensures Look(scope, Listing([namespace], []), early) == ReadingPod([a, b])
    ensures Look(scope, ReadingPod([a, b]), early) == ReadingSecret([a, b])
    ensures Look(scope, ReadingSecret([a, b]), early) == ReadingPod([b])
    ensures Look(scope, ReadingPod([b]), late) == ReadingSecret([b])
    ensures Look(scope, ReadingSecret([b]), late) == Finished(AllFenced)
  {
    hide InNamespace;
    assert [] + [a, b] == [a, b] && [a, b][1..] == [b] && [b][1..] == [];
  }

  lemma Meeting(scope: Scope, worlds: seq<World>, w: World) returns (more: seq<World>)
    requires LiveIn(scope, w) && forall k :: 0 <= k < |worlds| ==> LiveIn(scope, worlds[k])
    ensures more == worlds + [w] && Watch(scope, more) == Look(scope, Watch(scope, worlds), w)
    ensures forall k :: 0 <= k < |more| ==> LiveIn(scope, more[k])
  {
    more := worlds + [w];
    assert more[..|worlds|] == worlds;
  }

  lemma OneNamespace(namespace: string, a: Listed, b: Listed)
    requires a.namespace == b.namespace == namespace
    ensures Compacted([namespace]) == [namespace] && InNamespace([a, b], namespace) == [a, b]
  {
    assert [namespace][..0] == [] && [a, b][..1] == [a] && [a][..0] == [];
    assert InNamespace([a], namespace) == [a];
  }

  // The scan as the loops it is.

  /** The first `n` worlds of a timeline. */
  function Timeline(world: nat -> World, n: nat): seq<World> {
    seq(n, i requires 0 <= i < n => world(i))
  }

  lemma NextCall(scope: Scope, world: nat -> World, t: nat)
    ensures Watch(scope, Timeline(world, t + 1)) == Look(scope, Watch(scope, Timeline(world, t)), world(t))
  {
    assert Timeline(world, t + 1)[..t] == Timeline(world, t);
  }

  method CompactNamespaces(names: seq<string>) returns (distinct: seq<string>)
    ensures distinct == Compacted(names)
  {
    distinct := [];
    for i := 0 to |names|
      invariant distinct == Compacted(names[..i])
    {
      assert names[..i + 1][..i] == names[..i];
      if names[i] !in distinct {
        distinct := distinct + [names[i]];
      }
    }
    assert names[..|names|] == names;
  }

  method ListNamespace(environments: seq<Listed>, namespace: string) returns (items: seq<Listed>)
    ensures items == InNamespace(environments, namespace)
  {
    items := [];
    for i := 0 to |environments|
      invariant items == InNamespace(environments[..i], namespace)
    {
      assert environments[..i + 1][..i] == environments[..i];
      if environments[i].namespace == namespace {
        items := items + [environments[i]];
      }
    }
    assert environments[..|environments|] == environments;
  }

  /** Asks each namespace for its owner once. */
  method CollectOwned(environments: seq<Listed>, owner: string -> Ownership) returns (owned: seq<Listed>, ok: bool)
    ensures ok <==> !AnyUncertain(environments, owner)
    ensures ok ==> owned == OwnedOnly(environments, owner)
  {
    owned, ok := [], true;
    var ownership: map<string, bool> := map[];
    for i := 0 to |environments|
      invariant forall n :: n in ownership ==> owner(n) == if ownership[n] then Owned else Foreign
      invariant forall k :: 0 <= k < i ==> owner(environments[k].namespace) != Uncertain
      invariant owned == OwnedOnly(environments[..i], owner)
    {
      var e := environments[i];
      assert environments[..i + 1][..i] == environments[..i];
      if e.namespace !in ownership {
        if owner(e.namespace) == Uncertain {
          return owned, false;
        }
        ownership := ownership[e.namespace := owner(e.namespace) == Owned];
      }
      if ownership[e.namespace] {
        owned := owned + [e];
      }
    }
    assert environments[..|environments|] == environments;
  }

  /** The lists; `t` counts the calls made, each answered by the world of its own moment. */
  method ListScope(scope: Scope, world: nat -> World) returns (listed: seq<Listed>, t: nat, ok: bool)
    ensures ok ==> Watch(scope, Timeline(world, t)) == Check(listed)
    ensures !ok ==> Watch(scope, Timeline(world, t)) == Finished(ScanFailed)
  {
    listed, t, ok := [], 0, true;
    match scope.mode
    case NoTenancy =>
      ok := false;
    case TrustedAdmin =>
      NextCall(scope, world, 0);
      t := 1;
      if world(0).fails {
        return listed, t, false;
      }
      listed, ok := CollectOwned(world(0).environments, scope.owner);
    case Scoped =>
      var namespaces := CompactNamespaces(scope.namespaces);
      CompactedMembers(scope.namespaces);
      var i := 0;
      while i < |namespaces|
        invariant 0 <= i <= |namespaces|
        invariant Watch(scope, Timeline(world, t)) == if i == |namespaces| then Check(listed) else Listing(namespaces[i..], listed)
      {
        NextCall(scope, world, t);
        var w := world(t);
        t := t + 1;
        if w.fails {
          return listed, t, false;
        }
        var items := ListNamespace(w.environments, namespaces[i]);
        assert namespaces[i..][1..] == namespaces[i + 1..];
        listed := listed + items;
        i := i + 1;
      }
  }

  /**
   * Lists every Environment in scope and looks at each one's status, Pod and
   * credential in turn, while the world goes on changing between the calls.
   */
  method AllEnvironmentExecutionsFenced(scope: Scope, world: nat -> World) returns (scan: Scan, t: nat)
    ensures Watch(scope, Timeline(world, t)) == Finished(scan) && scan != NotScanned
    ensures scan == AllFenced ==> Cleared(scope, Timeline(world, t))
    ensures scan == SomeLive ==> SawLive(scope, Timeline(world, t))
    ensures scan == ScanFailed ==> SawFailure(scope, Timeline(world, t))
  {
    scan, t := RunScan(scope, world);
    AlwaysExplained(scope, Timeline(world, t));
    if scan == AllFenced {
      CleanScanMeans(scope, Timeline(world, t));
    }
  }

  method RunScan(scope: Scope, world: nat -> World) returns (scan: Scan, t: nat)
    ensures Watch(scope, Timeline(world, t)) == Finished(scan) && scan != NotScanned
  {
    var listed, ok;
    listed, t, ok := ListScope(scope, world);
    if !ok {
      return ScanFailed, t;
    }
    var i := 0;
    while i < |listed|
      invariant 0 <= i <= |listed|
      invariant Watch(scope, Timeline(world, t)) == Check(listed[i..])
    {
      var e := listed[i];
      if e.podName || e.endpoint || e.ready {
        return SomeLive, t;
      }
      NextCall(scope, world, t);
      var pod := world(t);
      t := t + 1;
      if pod.fails {
        return ScanFailed, t;
      }
      if e.id in pod.pods {
        return SomeLive, t;
      }
      NextCall(scope, world, t);
      var secret := world(t);
      t := t + 1;
      if secret.fails {
        return ScanFailed, t;
      }
      if e.id in secret.credentials {
        return SomeLive, t;
      }
      assert listed[i..][1..] == listed[i + 1..];
      i := i + 1;
    }
    return AllFenced, t;
  }

  // ---------------------------------------------------------------------
  // The operation
  // ---------------------------------------------------------------------

  /** The stored Installation, its scope, and the worlds the calls of a scan will meet. */
  class IsolationReconciler {
    var installation: Installation
    const scope: Scope
    const world: nat -> World

    constructor (installation: Installation, scope: Scope, world: nat -> World)
      ensures this.installation == installation && this.scope == scope && this.world == world
    {
      this.installation, this.scope, this.world := installation, scope, world;
    }

    /** Some scan of the scope found every Environment quiet. */
    ghost predicate ScannedClean() {
      exists t :: Cleared(scope, Timeline(world, t))
    }

    method UpdateStatus(desired: Status, applied: bool) returns (changed: bool, failed: bool)
      modifies this`installation
      ensures installation == old(installation).(status := if applied then desired else old(installation).status)
      ensures failed <==> !applied && desired != old(installation).status
      ensures changed <==> installation != old(installation)
    {
      if installation.status == desired {
        return false, false;
      }
      if !applied {
        return false, true;
      }
      installation := installation.(status := desired);
      return true, false;
    }

    /** Fences, scans and settles; one write at most, and the second half only after a clean scan. */
    method ReconcileTwoPhase(compatible: bool, settled: Status, fencing: Status, applied: bool) returns (ghost scan: Scan)
      modifies this`installation
      ensures scan == AllFenced ==> ScannedClean()
      ensures installation == old(installation).(status :=
        var plan := TwoPhase(old(installation), compatible, settled, fencing, scan);
        if plan.Some? && applied then plan.value else old(installation).status)
    {
      scan := NotScanned;
      var changed, failed;
      if compatible {
        changed, failed := UpdateStatus(settled, applied);
        return;
      }
      changed, failed := UpdateStatus(fencing, applied);
      if changed || failed {
        return;
      }
      var found, calls := AllEnvironmentExecutionsFenced(scope, world);
      scan := found;
      if found == AllFenced {
        changed, failed := UpdateStatus(settled, applied);
      }
    }

    method ReconcileBlockedSelection(identities: Option<nat>, applied: bool) returns (ghost scan: Scan)
      requires installation.selection.Some?
      modifies this`installation
      ensures scan == AllFenced ==> ScannedClean()
      ensures installation == old(installation).(status :=
        var plan := BlockedPlan(old(installation), identities, scan);
        if plan.Some? && applied then plan.value else old(installation).status)
    {
      scan := NotScanned;
      var observed := if installation.selection.value.valid then installation.selection else None;
      var changed, failed;
      if FenceFirst(installation, observed, identities) {
        changed, failed := UpdateStatus(BlockedStatus(installation, Fencing, observed, identities), applied);
        return;
      }
      var found, calls := AllEnvironmentExecutionsFenced(scope, world);
      scan := found;
      var state := if found == AllFenced then Blocked else Fencing;
      changed, failed := UpdateStatus(BlockedStatus(installation, state, observed, identities), applied);
    }

    /** One pass: what it writes is its plan, and it blocks or gives authority back only after a clean scan. */
    method Reconcile(identities: Option<nat>, applied: bool) returns (ghost scan: Scan)
      modifies this`installation
      ensures scan == AllFenced ==> ScannedClean()
      ensures installation == old(installation).(status :=
        var plan := Plan(old(installation), identities, scan);
        if plan.Some? && applied then plan.value else old(installation).status)
      ensures installation.status.state == Blocked != old(installation).status.state ==> ScannedClean()
      ensures Withdrawn(old(installation).status) && !Withdrawn(installation.status) ==> ScannedClean()
    {
      var i := installation;
      if i.selection.None? {
        scan := ReconcileTwoPhase(LegacyCompatible(i.status), LegacyStatus(i, LegacyUnclassified), LegacyStatus(i, Fencing), applied);
      } else if !i.selection.value.valid {
        scan := ReconcileBlockedSelection(None, applied);
      } else if i.selection.value.mode == UnrestrictedDevelopment {
        var selection := i.selection.value;
        scan := ReconcileTwoPhase(
          LegacyCompatible(i.status) || AuthorityMatches(i.status, selection),
          UnrestrictedStatus(i, Active, selection), UnrestrictedStatus(i, Fencing, selection), applied);
      } else if i.status.observed != i.selection || !Withdrawn(i.status) {
        // authority is withdrawn before any dependency is read
        scan := ReconcileBlockedSelection(None, applied);
      } else {
        scan := ReconcileBlockedSelection(identities, applied);
      }
      if Plan(i, identities, scan).Some? {
        PlanNeedsScan(i, identities, scan);
      }
    }
  }

  // ---------------------------------------------------------------------
  // Runs
  // ---------------------------------------------------------------------

  /** A pass in progress: the Installation it read, how far its scan has got, and the worlds its calls met. */
  datatype Pass =
    | AtRest
    | Began(version: nat, installation: Installation, scanning: Scanning, seen: seq<World>)

  datatype State = State(
    version: nat, installation: Installation, scope: Scope, world: World, identities: Option<nat>, pass: Pass)

  datatype Action =
    | EditSelection(selection: Option<Selection>)
    | Change(world: World)
    | SetDependencies(identities: Option<nat>)
    | Begin
    | Call
    | Finish(applied: bool)
    | Stop

  predicate Enabled(s: State, a: Action) {
    match a
    case EditSelection(_) | Change(_) | SetDependencies(_) | Stop => true
    case Begin => s.pass.AtRest?
    case Call => s.pass.Began? && !s.pass.scanning.Finished?
    case Finish(_) => s.pass.Began?
  }

  function Do(s: State, a: Action): State
    requires Enabled(s, a)
  {
    match a
    case EditSelection(selection) =>
      s.(installation := s.installation.(selection := selection, generation := s.installation.generation + 1), version := s.version + 1)
    case Change(world) => s.(world := world)
    case SetDependencies(identities) => s.(identities := identities)
    case Begin => s.(pass := Began(s.version, s.installation, BeginScan(s.scope), []))
    case Call => s.(pass := s.pass.(scanning := Look(s.scope, s.pass.scanning, s.world), seen := s.pass.seen + [s.world]))
    case Finish(applied) =>
      var plan := Plan(s.pass.installation, s.identities, Result(s.pass));
      if plan.Some? && plan.value != s.pass.installation.status && applied && s.pass.version == s.version
      then s.(installation := s.installation.(status := plan.value), version := s.version + 1, pass := AtRest)
      else s.(pass := AtRest)
    case Stop => s.(pass := AtRest)
  }

  function Result(pass: Pass): Scan
    requires pass.Began?
  {
    if pass.scanning.Finished? then pass.scanning.scan else NotScanned
  }

  ghost predicate IsRun(states: seq<State>, actions: seq<Action>) {
    && |states| == |actions| + 1
    && states[0].installation.status == FRESH && states[0].pass.AtRest?
    && forall i :: 0 <= i < |actions| ==> Enabled(states[i], actions[i]) && states[i + 1] == Do(states[i], actions[i])
  }

  ghost predicate Inv(s: State) {
    s.pass.Began? ==>
      && s.pass.version <= s.version && (s.pass.version == s.version ==> s.pass.installation == s.installation)
      && s.pass.scanning == Watch(s.scope, s.pass.seen)
  }

  lemma InvStep(s: State, a: Action)
    requires Inv(s) && Enabled(s, a)
    ensures Inv(Do(s, a)) && Do(s, a).scope == s.scope
  {
    if a.Call? {
      assert (s.pass.seen + [s.world])[..|s.pass.seen|] == s.pass.seen;
    }
  }

  lemma {:induction false} InvAlways(states: seq<State>, actions: seq<Action>, i: nat)
    requires IsRun(states, actions) && i < |states|
    ensures Inv(states[i]) && states[i].scope == states[0].scope
  {
    hide Do;
    if i > 0 {
      InvAlways(states, actions, i - 1);
      InvStep(states[i - 1], actions[i - 1]);
    }
  }

  /** The status enters Blocked, or authority that had been withdrawn comes back. */
  predicate Turns(s: State, t: State) {
    || (t.installation.status.state == Blocked && s.installation.status.state != Blocked)
    || (Withdrawn(s.installation.status) && !Withdrawn(t.installation.status))
  }

  lemma TurnStep(s: State, a: Action)
    requires Inv(s) && Enabled(s, a) && Turns(s, Do(s, a))
    ensures a.Finish? && s.pass.Began? && s.pass.scanning == Finished(AllFenced) && s.pass.version == s.version
    ensures Withdrawn(s.installation.status)
  {
    if a.Finish? {
      var plan := Plan(s.pass.installation, s.identities, Result(s.pass));
      if plan.Some? {
        PlanNeedsScan(s.pass.installation, s.identities, Result(s.pass));
      }
    }
  }

  lemma SeenStep(s: State, a: Action)
    requires Enabled(s, a) && Do(s, a).pass.Began?
    ensures
      || Do(s, a).pass == s.pass
      || (a.Begin? && Do(s, a).pass.seen == [])
      || (&& a.Call? && s.pass.Began? && s.pass.version == Do(s, a).pass.version
          && Do(s, a).pass.seen == s.pass.seen + [s.world])
  {
  }

  /** The states of a run at which the calls of one pass, the one that `i` belongs to, were made. */
  ghost predicate CallsOf(states: seq<State>, actions: seq<Action>, i: nat, calls: seq<nat>)
    requires |states| == |actions| + 1 && i < |states|
  {
    && states[i].pass.Began? && |calls| == |states[i].pass.seen|
    && (forall x :: 0 <= x < |calls| ==>
          && calls[x] < i && actions[calls[x]].Call? && states[calls[x]].world == states[i].pass.seen[x]
          && states[calls[x]].pass.Began? && states[calls[x]].pass.version == states[i].pass.version)
    && (forall x, y :: 0 <= x < y < |calls| ==> calls[x] < calls[y])
  }

  lemma {:induction false} SeenAt(states: seq<State>, actions: seq<Action>, i: nat) returns (calls: seq<nat>)
    requires IsRun(states, actions) && i < |states| && states[i].pass.Began?
    ensures CallsOf(states, actions, i, calls)
  {
    hide Do;
    assert i > 0;
    SeenStep(states[i - 1], actions[i - 1]);
    if actions[i - 1].Begin? && states[i].pass.seen == [] {
      calls := [];
    } else {
      calls := SeenAt(states, actions, i - 1);
      if states[i].pass != states[i - 1].pass {
        calls := calls + [i - 1];
      }
    }
  }

  /** What the calls met. */
  ghost function WorldsMet(states: seq<State>, calls: seq<nat>): seq<World>
    requires forall x :: 0 <= x < |calls| ==> calls[x] < |states|
  {
    seq(|calls|, x requires 0 <= x < |calls| => states[calls[x]].world)
  }

  /**
   * The status enters Blocked, or leaves Fencing or Blocked for Active or
   * Legacy, only at the end of a pass whose calls, one after another in this
   * run, found every Environment in scope quiet; and from the first of these
   * calls to the end of the pass authority stood withdrawn.
   */
  lemma TurnsAfterScan(states: seq<State>, actions: seq<Action>, i: nat) returns (calls: seq<nat>)
    requires IsRun(states, actions) && i < |actions| && Turns(states[i], states[i + 1])
    ensures CallsOf(states, actions, i, calls) && states[i].pass.version == states[i].version
    ensures Cleared(states[i].scope, WorldsMet(states, calls))
    ensures forall x, m :: 0 <= x < |calls| && calls[x] <= m <= i ==>
      Withdrawn(states[m].installation.status) && !ExecutionAllowed(states[m].installation)
  {
    hide Do, ExecutionAllowed;
    InvAlways(states, actions, i);
    TurnStep(states[i], actions[i]);
    calls := SeenAt(states, actions, i);
    assert WorldsMet(states, calls) == states[i].pass.seen;
    CleanScanMeans(states[i].scope, states[i].pass.seen);
    forall x, m | 0 <= x < |calls| && calls[x] <= m <= i
      ensures Withdrawn(states[m].installation.status) && !ExecutionAllowed(states[m].installation)
    {
      InvAlways(states, actions, calls[x]);
      VersionsRise(states, actions, calls[x], m);
      VersionsRise(states, actions, m, i);
      WithdrawnDisallows(states[m].installation.generation, states[m].installation.selection, states[m].installation.status);
    }
  }

  lemma VersionStep(s: State, a: Action)
    requires Enabled(s, a)
    ensures s.version <= Do(s, a).version && (s.version == Do(s, a).version ==> s.installation == Do(s, a).installation)
  {
  }

  /** One version names one Installation. */
  lemma {:induction false} VersionsRise(states: seq<State>, actions: seq<Action>, i: nat, j: nat)
    requires IsRun(states, actions) && i <= j < |states|
    ensures states[i].version <= states[j].version
    ensures states[i].version == states[j].version ==> states[i].installation == states[j].installation
  {
    hide Do;
    if i < j {
      VersionsRise(states, actions, i, j - 1);
      VersionStep(states[j - 1], actions[j - 1]);
    }
  }

  lemma StopsTwice(scope: Scope, u: World, v: World, w: World)
    requires OnlyStops(scope, u, v) && OnlyStops(scope, v, w)
    ensures OnlyStops(scope, u, w)
  {
  }

  lemma WorldStep(s: State, a: Action)
    requires Enabled(s, a)
    ensures Do(s, a).world == if a.Change? then a.world else s.world
  {
  }

  lemma {:induction false} StopsOver(states: seq<State>, actions: seq<Action>, scope: Scope, i: nat, j: nat)
    requires IsRun(states, actions) && i <= j < |states|
    requires forall m :: i <= m < j && actions[m].Change? ==> OnlyStops(scope, states[m].world, actions[m].world)
    ensures OnlyStops(scope, states[i].world, states[j].world)
  {
    hide Do;
    if i < j {
      StopsOver(states, actions, scope, i, j - 1);
      WorldStep(states[j - 1], actions[j - 1]);
      if actions[j - 1].Change? {
        StopsTwice(scope, states[i].world, states[j - 1].world, states[j].world);
      }
    }
  }

  /**
   * If nothing in scope starts from the first call of the deciding pass on,
   * then nothing in scope is live when the status turns.
   */
  lemma TurnsWithNothingLive(states: seq<State>, actions: seq<Action>, i: nat, calls: seq<nat>)
    requires IsRun(states, actions) && i < |actions| && Turns(states[i], states[i + 1])
    requires CallsOf(states, actions, i, calls) && calls != []
    requires forall m :: calls[0] <= m < i && actions[m].Change? ==> OnlyStops(states[i].scope, states[m].world, actions[m].world)
    ensures !LiveIn(states[i].scope, states[i].world)
  {
    hide Do, OnlyStops, LiveIn, Cleared;
    var scope, seen := states[i].scope, states[i].pass.seen;
    InvAlways(states, actions, i);
    TurnStep(states[i], actions[i]);
    var worlds := seen + [states[i].world];
    assert worlds[..|seen|] == seen;
    forall m | 0 < m < |worlds| ensures OnlyStops(scope, worlds[m - 1], worlds[m]) {
      var from, to := calls[m - 1], if m < |seen| then calls[m] else i;
      assert calls[0] <= from;
      StopsOver(states, actions, scope, from, to);
    }
    CleanScanEndsQuiet(scope, worlds);
  }

  /**
   * Between a state in which authority is withdrawn and a later one in which
   * execution is allowed again, some pass ended that found every Environment
   * in scope quiet.
   */
  lemma ReactivatedAfterScan(states: seq<State>, actions: seq<Action>, i: nat, j: nat) returns (m: nat, calls: seq<nat>)
    requires IsRun(states, actions) && i <= j < |states|
    requires Withdrawn(states[i].installation.status) && ExecutionAllowed(states[j].installation)
    ensures i <= m < j && Withdrawn(states[m].installation.status) && !Withdrawn(states[m + 1].installation.status)
    ensures CallsOf(states, actions, m, calls) && Cleared(states[m].scope, WorldsMet(states, calls))
  {
    hide Do, ExecutionAllowed;
    WithdrawnDisallows(states[j].installation.generation, states[j].installation.selection, states[j].installation.status);
    assert !Withdrawn(states[j].installation.status);
    m := LastWithdrawn(states, i, j);
    calls := TurnsAfterScan(states, actions, m);
  }

  lemma SelectionStep(s: State, a: Action)
    requires Enabled(s, a) && !a.EditSelection?
    ensures Do(s, a).installation.selection == s.installation.selection
  {
  }

  /** From the step that selects restricted mode until the selection is edited again, execution is refused at every state. */
  lemma {:induction false} RestrictedRefusesAtOnce(states: seq<State>, actions: seq<Action>, i: nat, j: nat)
    requires IsRun(states, actions) && i <= j < |states|
    requires states[i].installation.selection.Some? && states[i].installation.selection.value.mode == RestrictedProduction
    requires forall m :: i <= m < j ==> !actions[m].EditSelection?
    ensures states[j].installation.selection == states[i].installation.selection
    ensures !ExecutionAllowed(states[j].installation)
  {
    hide Do, ExecutionAllowed;
    if i < j {
      RestrictedRefusesAtOnce(states, actions, i, j - 1);
      SelectionStep(states[j - 1], actions[j - 1]);
    }
    var at := states[j].installation;
    SelectionDisallows(at.generation, at.selection.value, at.status);
    assert at == Installation(at.generation, Some(at.selection.value), at.status);
  }

  lemma {:induction false} LastWithdrawn(states: seq<State>, i: nat, j: nat) returns (m: nat)
    requires i <= j < |states| && Withdrawn(states[i].installation.status) && !Withdrawn(states[j].installation.status)
    ensures i <= m < j && Withdrawn(states[m].installation.status) && !Withdrawn(states[m + 1].installation.status)
  {
    if Withdrawn(states[j - 1].installation.status) {
      m := j - 1;
    } else {
      m := LastWithdrawn(states, i, j - 1);
    }
  }
}
