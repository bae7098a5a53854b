/**
 * The repository token of one Run: the rotation record on the Run, the active
 * Secret, and the pending-revocation Secret that is the write-ahead log of
 * tokens still to be revoked.
 *
 * The reconciler works from a cached copy of the Run, which may lag behind the
 * stored one; it reads Secrets directly.  It reads the Environment directly
 * while it keeps a lease, and from the cache when it cleans up.  Every call to the API server or to
 * the token provider is one action and may be applied, applied with a lost
 * response, or not applied.  `at` is the reconciler's place inside a pass,
 * which a crash (`Stop`) loses.  Nobody else writes the two Secrets, except
 * that the Environment controller binds the active one to an execution.
 */
module RepositoryCredential {
  import opened Basics

  type Nonce = nat

  /** How long before its expiry, in seconds, a lease is replaced. */
  const REFRESH_MARGIN: nat := 600

  datatype Credential = Credential(token: Nonce, expires: nat)

  datatype Rotation = Rotation(oldUid: Nonce, target: nat, wake: bool)

  datatype Condition =
    | NoCondition | Issuing | Refreshing | LeaseReady | RevocationPending | InvalidToken | Revoked | OtherCondition

  datatype RunRecord = RunRecord(version: nat, rotation: Option<Rotation>, condition: Condition)

  datatype Lease = Lease(uid: Nonce, credential: Credential, generation: nat, bound: bool)

  /** `invalid` is the disposition of a token the provider itself reported as unusable. */
  datatype Pending = Pending(uid: Nonce, credential: Credential, generation: nat, complete: bool, invalid: bool)

  datatype Position =
    | Idle
    | FenceSeen
    | PodAbsent
    // cleaning up on what the cache held: a fence, or else no Environment at all
    | Cleaning(view: nat, lost: bool)
    | PendingDone(uid: Nonce)
    | ActiveDone(uid: Nonce)
    | Cleared
    | Issued(credential: Credential, generation: nat, invalid: bool)
    | Unstored(credential: Credential, generation: nat)
    | Unrecorded(credential: Credential)

  /**
   * The Environment: whether it was fenced, from the beginning to now, and
   * which of these the cache holds; whether it is gone; whether the Pod of its
   * execution exists, and whether it is about to create one with the active
   * lease.
   */
  datatype Surroundings = Surroundings(fences: seq<bool>, viewed: nat, gone: bool, pod: bool, provisioned: bool)

  datatype State = State(
    stored: RunRecord,
    cached: RunRecord,
    active: Option<Lease>,
    pending: Option<Pending>,
    at: Position,
    // cleanup has begun: the Run is terminal, deleting, or has lost its Environment
    closing: bool,
    env: Surroundings,
    // which of the fences was so when the rotation was recorded
    rotatedAt: nat,
    revoked: set<Nonce>,
    now: nat,
    // every UID and token handed out so far is below this
    nonce: Nonce)

  predicate FencedAt(s: State, view: nat) {
    view < |s.env.fences| && s.env.fences[view]
  }

  /** The Environment is fenced now. */
  predicate Fenced(s: State) {
    s.env.fences != [] && FencedAt(s, |s.env.fences| - 1)
  }

  datatype Outcome = Applied | LostResponse | NotApplied

  predicate Happens(o: Outcome) {
    !o.NotApplied?
  }

  /** A token nobody can use any more. */
  predicate Spent(s: State, c: Credential) {
    c.token in s.revoked || s.now >= c.expires
  }

  // ---------------------------------------------------------------------
  // The checks the source makes
  // ---------------------------------------------------------------------

  /** The generation the next token is issued under, and a pending record must carry. */
  function Expected(rotation: Option<Rotation>): nat {
    if rotation.Some? then rotation.value.target else 1
  }

  predicate IsOld(r: Rotation, lease: Lease) {
    lease.uid == r.oldUid && lease.generation + 1 == r.target
  }

  predicate IsReplacement(r: Rotation, lease: Lease) {
    lease.uid != r.oldUid && lease.generation == r.target
  }

  predicate RotationMatches(rotation: Option<Rotation>, active: Option<Lease>) {
    rotation.Some? && active.Some? ==> IsOld(rotation.value, active.value) || IsReplacement(rotation.value, active.value)
  }

  predicate SameToken(lease: Lease, p: Pending) {
    lease.credential == p.credential && lease.generation == p.generation
  }

  /** The failure of the Run with this disposition is recorded, in the cache and in the store. */
  predicate DispositionDurable(s: State) {
    s.cached.condition == InvalidToken && s.stored.condition == InvalidToken
  }

  // ---------------------------------------------------------------------
  // Actions
  // ---------------------------------------------------------------------

  datatype Action =
    // surroundings
    | Tick(delta: nat)
    | Refresh(to: RunRecord)
    | WriteStatus(condition: Condition)
    | SetFenced(fenced: bool)
    | RefreshEnvironment(view: nat)
    | LoseEnvironment
    | SetPod(present: bool)
    | SetProvisioned(provisioned: bool)
    | Bind
    | Stop
    // the write-ahead log
    | RevokePending(revoke: Outcome)
    | CompletePending(complete: Outcome)
    | DeleteCompletedActive(delete: Outcome)
    | DeletePending(delete: Outcome)
    // keeping a lease
    | ObservePodGone
    | PersistRotation(wake: bool, update: Outcome)
    | ObserveFence
    | RevokeOld(revoke: Outcome)
    | DeleteActive(delete: Outcome)
    | FinishRotation(update: Outcome)
    | Issue(lifetime: nat, invalid: bool, response: bool)
    | CreateActive(create: Outcome, readBack: bool)
    | PersistPending(create: Outcome, readBack: bool)
    | BestEffortRevoke(revoke: Outcome)
    // cleaning up after the Run
    | BeginCleanup
    | RevokeActive(revoke: Outcome)
    | RemoveRotation(update: Outcome)

  /** The reconciler has found no pending record and still wants a lease. */
  predicate Ensuring(s: State) {
    !s.closing && !s.env.gone && s.pending.None? && (s.at.Idle? || s.at.FenceSeen?)
  }

  predicate Enabled(s: State, a: Action) {
    match a
    case Tick(_) | WriteStatus(_) | SetFenced(_) | LoseEnvironment | SetPod(_) | SetProvisioned(_) | Stop => true
    // to any version since; the rotation changes at most once between the two copies
    case Refresh(to) =>
      && s.cached.version <= to.version <= s.stored.version
      && (to.rotation == s.cached.rotation || to.rotation == s.stored.rotation)
      && (to.version == s.cached.version ==> to == s.cached) && (to.version == s.stored.version ==> to == s.stored)
    case RefreshEnvironment(view) => s.env.viewed <= view < |s.env.fences|
    case Bind => s.active.Some?
    case RevokePending(_) =>
      && (s.at.Idle? || s.at.Cleaning?)
      && s.pending.Some? && s.pending.value.generation == Expected(s.cached.rotation) && !s.pending.value.complete
    case CompletePending(_) =>
      s.at.PendingDone? && s.pending.Some? && s.pending.value.uid == s.at.uid && !s.pending.value.complete
    case DeleteCompletedActive(_) =>
      && (s.at.Idle? || s.at.Cleaning?)
      && s.pending.Some? && s.pending.value.generation == Expected(s.cached.rotation) && s.pending.value.complete
      && (s.pending.value.invalid ==> DispositionDurable(s))
      && s.active.Some? && SameToken(s.active.value, s.pending.value)
    case DeletePending(_) =>
      && (s.at.Idle? || s.at.Cleaning?)
      && s.pending.Some? && s.pending.value.generation == Expected(s.cached.rotation) && s.pending.value.complete
      && (s.pending.value.invalid ==> DispositionDurable(s))
      && s.active.None?
    case ObservePodGone =>
      Ensuring(s) && s.at.Idle? && s.cached.rotation.None? && s.active.Some? && s.active.value.bound && !s.env.pod && !s.env.provisioned
    // a lease about to expire is rotated with a wake, one whose execution is gone without
    case PersistRotation(wake, _) =>
      && !s.closing && !s.env.gone && s.pending.None? && s.cached.rotation.None? && s.active.Some?
      && (if wake then s.at.Idle? && s.active.value.credential.expires <= s.now + REFRESH_MARGIN else s.at.PodAbsent?)
    case ObserveFence =>
      && Ensuring(s) && s.active.Some? && s.cached.rotation.Some? && IsOld(s.cached.rotation.value, s.active.value)
      && Fenced(s)
    case RevokeOld(_) =>
      && Ensuring(s) && s.active.Some? && s.cached.rotation.Some? && IsOld(s.cached.rotation.value, s.active.value)
      && (s.cached.rotation.value.wake ==> s.at.FenceSeen?)
    case DeleteActive(_) => s.at.ActiveDone? && s.active.Some? && s.active.value.uid == s.at.uid
    case FinishRotation(_) =>
      Ensuring(s) && s.active.Some? && s.cached.rotation.Some? && IsReplacement(s.cached.rotation.value, s.active.value)
    case Issue(_, _, _) =>
      Ensuring(s) && s.active.None? && (s.cached.condition == Issuing || s.cached.condition == Refreshing)
    case CreateActive(_, _) => s.at.Issued? && !s.at.invalid
    case PersistPending(_, _) => s.at.Unstored? || (s.at.Issued? && s.at.invalid)
    case BestEffortRevoke(_) => s.at.Unrecorded?
    case BeginCleanup => s.at.Idle? && (s.env.gone || FencedAt(s, s.env.viewed))
    case RevokeActive(_) =>
      s.at.Cleaning? && s.pending.None? && s.active.Some? && RotationMatches(s.cached.rotation, s.active)
    case RemoveRotation(_) =>
      (s.at.Cleared? || (s.at.Cleaning? && s.pending.None? && s.active.None?)) && s.cached.rotation.Some?
  }

  /**
   * An update guarded by the resource version.  It may follow status writes of
   * the same pass, but no other change of the rotation.
   */
  function WriteRotation(s: State, rotation: Option<Rotation>, update: Outcome): State {
    if Happens(update) && s.cached.rotation == s.stored.rotation
    then
      s.(stored := s.stored.(version := s.stored.version + 1, rotation := rotation),
         rotatedAt := if rotation.Some? && s.env.fences != [] then |s.env.fences| - 1 else s.rotatedAt)
    else s
  }

  function Revoke(s: State, token: Nonce, revoke: Outcome): State {
    if Happens(revoke) then s.(revoked := s.revoked + {token}) else s
  }

  /** Revocation is confirmed, or the token has expired whatever the provider said. */
  predicate Settled(s: State, c: Credential, revoke: Outcome) {
    revoke.Applied? || s.now >= c.expires
  }

  function DoIssue(s: State, lifetime: nat, invalid: bool, response: bool): State {
    var c := Credential(s.nonce, s.now + lifetime);
    s.(nonce := s.nonce + 1,
       at := if response then Issued(c, Expected(s.cached.rotation), invalid) else Idle)
  }

  function DoCreateActive(s: State, create: Outcome, readBack: bool): State
    requires s.at.Issued?
  {
    var t :=
      if Happens(create) && s.active.None?
      then s.(active := Some(Lease(s.nonce, s.at.credential, s.at.generation, false)), nonce := s.nonce + 1)
      else s;
    t.(at := if create.Applied? || (create.LostResponse? && readBack) then Idle else Unstored(s.at.credential, s.at.generation))
  }

  function DoPersistPending(s: State, create: Outcome, readBack: bool): State
    requires s.at.Unstored? || s.at.Issued?
  {
    var t :=
      if Happens(create) && s.pending.None?
      then s.(pending := Some(Pending(s.nonce, s.at.credential, s.at.generation, false, s.at.Issued?)), nonce := s.nonce + 1)
      else s;
    t.(at := if create.Applied? || (create.LostResponse? && readBack) then Idle else Unrecorded(s.at.credential))
  }

  function Do(s: State, a: Action): State
    requires Enabled(s, a)
  {
    match a
    case Tick(delta) => s.(now := s.now + delta)
    case Refresh(to) => s.(cached := to)
    case RefreshEnvironment(view) => s.(env := s.env.(viewed := view))
    case WriteStatus(c) => s.(stored := s.stored.(version := s.stored.version + 1, condition := c))
    case SetFenced(f) => s.(env := s.env.(fences := s.env.fences + [f]))
    case LoseEnvironment => s.(env := s.env.(gone := true))
    case SetPod(present) => s.(env := s.env.(pod := present))
    case SetProvisioned(provisioned) => s.(env := s.env.(provisioned := provisioned))
    case Bind => s.(active := Some(s.active.value.(bound := true)))
    case Stop => s.(at := Idle)
    case RevokePending(revoke) =>
      Revoke(s, s.pending.value.credential.token, revoke).(
        at := if Settled(s, s.pending.value.credential, revoke) then PendingDone(s.pending.value.uid) else Idle)
    case CompletePending(complete) =>
      if Happens(complete) then s.(pending := Some(s.pending.value.(complete := true)), at := Idle) else s.(at := Idle)
    case DeleteCompletedActive(delete) => if Happens(delete) then s.(active := None, at := Idle) else s.(at := Idle)
    case DeletePending(delete) => if Happens(delete) then s.(pending := None, at := Idle) else s.(at := Idle)
    case PersistRotation(wake, update) =>
      WriteRotation(s, Some(Rotation(s.active.value.uid, s.active.value.generation + 1, wake)), update).(at := Idle)
    case ObserveFence => s.(at := FenceSeen)
    case ObservePodGone => s.(at := PodAbsent)
    case RevokeOld(revoke) =>
      Revoke(s, s.active.value.credential.token, revoke).(
        at := if Settled(s, s.active.value.credential, revoke) then ActiveDone(s.active.value.uid) else Idle)
    case DeleteActive(delete) =>
      (if Happens(delete) then s.(active := None) else s).(at := if delete.Applied? && s.closing then Cleared else Idle)
    case FinishRotation(update) => WriteRotation(s, None, update).(at := Idle)
    case Issue(lifetime, invalid, response) => DoIssue(s, lifetime, invalid, response)
    case CreateActive(create, readBack) => DoCreateActive(s, create, readBack)
    case PersistPending(create, readBack) => DoPersistPending(s, create, readBack)
    case BestEffortRevoke(revoke) => Revoke(s, s.at.credential.token, revoke).(at := Idle)
    case BeginCleanup => s.(at := Cleaning(s.env.viewed, !FencedAt(s, s.env.viewed)), closing := true)
    case RevokeActive(revoke) =>
      Revoke(s, s.active.value.credential.token, revoke).(
        at := if Settled(s, s.active.value.credential, revoke) then ActiveDone(s.active.value.uid) else Idle)
    case RemoveRotation(update) => WriteRotation(s, None, update).(at := Idle)
  }

  predicate Initial(s: State) {
    && s.stored == s.cached && s.stored.rotation.None?
    && s.active.None? && s.pending.None? && s.at.Idle? && !s.closing && s.revoked == {}
    && |s.env.fences| == 1 && s.env.viewed == 0
  }

  ghost predicate IsPath(states: seq<State>, actions: seq<Action>) {
    && |states| == |actions| + 1
    && forall i :: 0 <= i < |actions| ==> Enabled(states[i], actions[i]) && states[i + 1] == Do(states[i], actions[i])
  }

  ghost predicate IsRun(states: seq<State>, actions: seq<Action>) {
    IsPath(states, actions) && Initial(states[0])
  }

  // ---------------------------------------------------------------------
  // The invariant
  // ---------------------------------------------------------------------

  /** Names and tokens already handed out are old. */
  ghost predicate NoncesOk(s: State) {
    && (s.active.Some? ==> s.active.value.uid < s.nonce && s.active.value.credential.token < s.nonce)
    && (s.pending.Some? ==> s.pending.value.uid < s.nonce && s.pending.value.credential.token < s.nonce)
    && (s.stored.rotation.Some? ==> s.stored.rotation.value.oldUid < s.nonce)
    && (s.cached.rotation.Some? ==> s.cached.rotation.value.oldUid < s.nonce)
    && (s.at.Issued? || s.at.Unstored? || s.at.Unrecorded? ==> s.at.credential.token < s.nonce)
  }

  /**
   * The two copies of the Run and the active Secret.  While a lease is still
   * wanted, the copies differ on the rotation only when the active Secret is
   * the one the newer copy starts to rotate, or the one that ended the older.
   */
  ghost predicate RotationOk(s: State) {
    && s.cached.version <= s.stored.version
    && (s.cached.version == s.stored.version ==> s.cached == s.stored)
    && RotationMatches(s.stored.rotation, s.active)
    && RotationMatches(s.cached.rotation, s.active)
    && (s.cached.rotation != s.stored.rotation ==> s.pending.None?)
    && (s.cached.rotation != s.stored.rotation && !s.closing ==>
          && s.active.Some?
          && (if s.stored.rotation.Some? then s.cached.rotation.None? && IsOld(s.stored.rotation.value, s.active.value)
              else IsReplacement(s.cached.rotation.value, s.active.value)))
  }

  ghost predicate PendingOk(s: State) {
    && (s.pending.Some? ==>
          && s.pending.value.generation == Expected(s.stored.rotation)
          && (s.pending.value.complete ==> Spent(s, s.pending.value.credential))
          && (s.active.Some? ==> SameToken(s.active.value, s.pending.value)))
  }

  ghost predicate PositionOk(s: State) {
    match s.at
    case Idle => true
    case FenceSeen =>
      && !s.closing && s.pending.None? && s.cached.rotation == s.stored.rotation
      && s.stored.rotation.Some? && s.active.Some? && IsOld(s.stored.rotation.value, s.active.value)
    case PodAbsent => !s.closing && s.pending.None? && s.active.Some? && s.active.value.bound
    case Cleaning(view, lost) => s.closing && if lost then s.env.gone else FencedAt(s, view)
    case PendingDone(uid) =>
      s.pending.Some? && s.pending.value.uid == uid && !s.pending.value.complete && Spent(s, s.pending.value.credential)
    case ActiveDone(uid) =>
      s.active.Some? && s.active.value.uid == uid && s.pending.None? && Spent(s, s.active.value.credential)
      && (!s.closing ==> s.cached.rotation == s.stored.rotation)
    case Cleared => s.closing && s.active.None? && s.pending.None?
    case Issued(c, g, _) =>
      !s.closing && s.active.None? && s.pending.None? && g == Expected(s.stored.rotation) == Expected(s.cached.rotation)
      && s.cached.rotation == s.stored.rotation
    case Unstored(c, g) =>
      !s.closing && s.pending.None? && g == Expected(s.stored.rotation) && s.cached.rotation == s.stored.rotation
      && (s.active.Some? ==> s.active.value.credential == c && s.active.value.generation == g)
    case Unrecorded(_) => s.active.Some? ==> s.active.value.generation == Expected(s.stored.rotation)
  }

  ghost predicate Inv(s: State) {
    NoncesOk(s) && RotationOk(s) && PendingOk(s) && PositionOk(s)
  }

  /** The actions that hand out a name or a token, or write one down on the Run. */
  predicate Names(a: Action) {
    a.Issue? || a.CreateActive? || a.PersistPending? || a.PersistRotation?
  }

  /** What happens around the reconciler, and what it does without a call. */
  predicate Around(a: Action) {
    || a.Tick? || a.Refresh? || a.WriteStatus? || a.SetFenced? || a.RefreshEnvironment? || a.LoseEnvironment? || a.Bind?
    || a.SetPod? || a.SetProvisioned? || a.Stop? || a.ObserveFence? || a.ObservePodGone? || a.BeginCleanup?
  }

  /** The actions that write the Run or read it again. */
  predicate TouchesRun(a: Action) {
    a.Refresh? || a.WriteStatus? || a.PersistRotation? || a.FinishRotation? || a.RemoveRotation?
  }

  lemma NoncesNamed(s: State, a: Action)
    requires Inv(s) && Enabled(s, a) && Names(a)
    ensures NoncesOk(Do(s, a))
  {
  }

  lemma NoncesKept(s: State, a: Action)
    requires Inv(s) && Enabled(s, a) && !Names(a)
    ensures NoncesOk(Do(s, a))
  {
    if !TouchesRun(a) {
      RunKept(s, a);
    }
  }

  lemma RotationTouched(s: State, a: Action)
    requires Inv(s) && Enabled(s, a) && TouchesRun(a)
    ensures RotationOk(Do(s, a))
  {
  }

  lemma RunKept(s: State, a: Action)
    requires Enabled(s, a) && !TouchesRun(a)
    ensures Do(s, a).stored == s.stored && Do(s, a).cached == s.cached
  {
  }

  lemma RotationKept(s: State, a: Action)
    requires Inv(s) && Enabled(s, a) && !TouchesRun(a)
    ensures RotationOk(Do(s, a))
  {
    RunKept(s, a);
  }

  lemma PendingAround(s: State, a: Action)
    requires Inv(s) && Enabled(s, a) && Around(a)
    ensures PendingOk(Do(s, a))
  {
  }

  lemma PendingNamed(s: State, a: Action)
    requires Inv(s) && Enabled(s, a) && Names(a)
    ensures PendingOk(Do(s, a))
  {
  }

  lemma PendingOther(s: State, a: Action)
    requires Inv(s) && Enabled(s, a) && !Around(a) && !Names(a)
    ensures PendingOk(Do(s, a))
  {
  }

  lemma PendingStep(s: State, a: Action)
    requires Inv(s) && Enabled(s, a)
    ensures PendingOk(Do(s, a))
  {
    hide Do;
    if Around(a) {
      PendingAround(s, a);
    } else if Names(a) {
      PendingNamed(s, a);
    } else {
      PendingOther(s, a);
    }
  }

  lemma PositionAround(s: State, a: Action)
    requires Inv(s) && Enabled(s, a) && Around(a)
    ensures PositionOk(Do(s, a))
  {
  }

  lemma PositionNamed(s: State, a: Action)
    requires Inv(s) && Enabled(s, a) && Names(a)
    ensures PositionOk(Do(s, a))
  {
  }

  lemma PositionOther(s: State, a: Action)
    requires Inv(s) && Enabled(s, a) && !Around(a) && !Names(a)
    ensures PositionOk(Do(s, a))
  {
  }

  lemma PositionStep(s: State, a: Action)
    requires Inv(s) && Enabled(s, a)
    ensures PositionOk(Do(s, a))
  {
    hide Do;
    if Around(a) {
      PositionAround(s, a);
    } else if Names(a) {
      PositionNamed(s, a);
    } else {
      PositionOther(s, a);
    }
  }

  lemma InvStep(s: State, a: Action)
    requires Inv(s) && Enabled(s, a)
    ensures Inv(Do(s, a))
  {
    hide Do;
    if Names(a) {
      NoncesNamed(s, a);
    } else {
      NoncesKept(s, a);
    }
    if TouchesRun(a) {
      RotationTouched(s, a);
    } else {
      RotationKept(s, a);
    }
    PendingStep(s, a);
    PositionStep(s, a);
  }

  lemma {:induction false} InvAlways(states: seq<State>, actions: seq<Action>, i: nat)
    requires IsRun(states, actions) && i < |states|
    ensures Inv(states[i])
  {
    hide Do;
    if i > 0 {
      InvAlways(states, actions, i - 1);
      InvStep(states[i - 1], actions[i - 1]);
    }
  }

  // ---------------------------------------------------------------------
  // The three objects agree
  // ---------------------------------------------------------------------

  /**
   * Whenever a rotation is recorded, the active Secret is absent, or the old
   * one one generation below the target, or a fresh one at the target; and a
   * pending record carries exactly the generation expected of it.
   */
  lemma ObjectsAgree(states: seq<State>, actions: seq<Action>, i: nat)
    requires IsRun(states, actions) && i < |states|
    ensures var s := states[i];
      && (s.stored.rotation.Some? ==>
            || s.active.None?
            || (s.active.value.uid == s.stored.rotation.value.oldUid
                && s.active.value.generation + 1 == s.stored.rotation.value.target)
            || (s.active.value.uid != s.stored.rotation.value.oldUid
                && s.active.value.generation == s.stored.rotation.value.target))
      && (s.pending.Some? ==> s.pending.value.generation == Expected(s.stored.rotation))
  {
    InvAlways(states, actions, i);
  }

  /** What a pass over this state could fail or block on. */
  datatype Mismatch = RotationMismatch | IssuanceMismatch | CompletionMismatch

  predicate Finds(s: State, m: Mismatch) {
    match m
    case RotationMismatch => !RotationMatches(s.cached.rotation, s.active)
    case IssuanceMismatch => s.pending.Some? && s.pending.value.generation != Expected(s.cached.rotation)
    case CompletionMismatch =>
      s.pending.Some? && s.pending.value.complete && s.active.Some? && !SameToken(s.active.value, s.pending.value)
  }

  /** However stale the cached Run, no mismatch branch can be taken. */
  lemma MismatchUnreachable(states: seq<State>, actions: seq<Action>, i: nat, m: Mismatch)
    requires IsRun(states, actions) && i < |states|
    ensures !Finds(states[i], m)
  {
    InvAlways(states, actions, i);
  }

  // ---------------------------------------------------------------------
  // No token is forgotten
  // ---------------------------------------------------------------------

  lemma DeletionStep(s: State, a: Action)
    requires Inv(s) && Enabled(s, a)
    ensures var t := Do(s, a);
      && (s.active.Some? ==>
            || (t.active.Some? && t.active.value == s.active.value.(bound := t.active.value.bound))
            || (t.active.None? && Spent(s, s.active.value.credential)))
      && (s.pending.Some? ==>
            || (t.pending.Some? && t.pending.value == s.pending.value.(complete := t.pending.value.complete)
                && (s.pending.value.complete ==> t.pending.value.complete)
                && (t.pending.value.complete ==> Spent(s, s.pending.value.credential)))
            || (t.pending.None? && s.pending.value.complete && Spent(s, s.pending.value.credential)
                && s.active.None? && (s.pending.value.invalid ==> s.stored.condition == InvalidToken)))
  {
  }

  /**
   * A token Secret is deleted only when its token is revoked or expired.  A
   * revocation record is deleted only when it is complete, its token is
   * revoked or expired, no active Secret is left, and a failure it carries is
   * recorded on the Run.  Neither is ever changed in any other way.
   */
  lemma DeletedOnlySpent(states: seq<State>, actions: seq<Action>, i: nat)
    requires IsRun(states, actions) && i < |actions|
    ensures var s, t := states[i], states[i + 1];
      && (s.active.Some? ==>
            || (t.active.Some? && t.active.value == s.active.value.(bound := t.active.value.bound))
            || (t.active.None? && Spent(s, s.active.value.credential)))
      && (s.pending.Some? ==>
            || (t.pending.Some? && t.pending.value == s.pending.value.(complete := t.pending.value.complete)
                && (s.pending.value.complete ==> t.pending.value.complete)
                && (t.pending.value.complete ==> Spent(s, s.pending.value.credential)))
            || (t.pending.None? && s.pending.value.complete && Spent(s, s.pending.value.credential)
                && s.active.None? && (s.pending.value.invalid ==> s.stored.condition == InvalidToken)))
  {
    hide Do;
    InvAlways(states, actions, i);
    DeletionStep(states[i], actions[i]);
  }

  predicate Stores(s: State, c: Credential) {
    (s.active.Some? && s.active.value.credential == c) || (s.pending.Some? && s.pending.value.credential == c)
  }

  lemma SpentStep(s: State, a: Action, c: Credential)
    requires Enabled(s, a) && Spent(s, c)
    ensures Spent(Do(s, a), c)
  {
  }

  /** A token once written to either Secret stays in one of them until it is revoked or expired. */
  lemma {:induction false} StoredUntilSpent(states: seq<State>, actions: seq<Action>, i: nat, j: nat, c: Credential)
    requires IsRun(states, actions) && i <= j < |states| && Stores(states[i], c)
    ensures Stores(states[j], c) || Spent(states[j], c)
  {
    hide Do;
    if i < j {
      StoredUntilSpent(states, actions, i, j - 1, c);
      if Spent(states[j - 1], c) {
        SpentStep(states[j - 1], actions[j - 1], c);
      } else {
        DeletedOnlySpent(states, actions, j - 1);
      }
    }
  }

  // ---------------------------------------------------------------------
  // Fence before revocation
  // ---------------------------------------------------------------------

  /** One step back: the pass saw the fence now, or had seen it. */
  lemma FenceSeenStep(s: State, a: Action)
    requires Inv(s) && Enabled(s, a) && Do(s, a).at.FenceSeen?
    ensures s.at.FenceSeen? || Fenced(s)
    ensures Do(s, a).stored.rotation == s.stored.rotation
  {
  }

  /** A pass that has seen the fence saw it at some step `k`, under the rotation that still stands. */
  lemma {:induction false} FenceSeenSince(states: seq<State>, actions: seq<Action>, i: nat) returns (k: nat)
    requires IsRun(states, actions) && i < |states| && states[i].at.FenceSeen?
    ensures k < i && Fenced(states[k])
    ensures forall m :: k < m <= i ==> states[m].at.FenceSeen?
    ensures forall m :: k <= m <= i ==> states[m].stored.rotation == states[i].stored.rotation
  {
    hide Do;
    assert i > 0;
    InvAlways(states, actions, i - 1);
    FenceSeenStep(states[i - 1], actions[i - 1]);
    if states[i - 1].at.FenceSeen? {
      k := FenceSeenSince(states, actions, i - 1);
    } else {
      k := i - 1;
    }
  }

  /** The step revokes the token a recorded waking rotation is about to replace. */
  predicate RevokesOld(s: State, t: State) {
    && s.stored.rotation.Some? && s.stored.rotation.value.wake
    && s.active.Some? && s.active.value.uid == s.stored.rotation.value.oldUid
    && s.active.value.credential.token !in s.revoked && s.active.value.credential.token in t.revoked
  }

  lemma RevocationStep(s: State, a: Action)
    requires Inv(s) && Enabled(s, a) && RevokesOld(s, Do(s, a))
    ensures s.at.FenceSeen? || (s.at.Cleaning? && if s.at.lost then s.env.gone else FencedAt(s, s.at.view))
  {
  }

  // A cleanup whose cache is old.

  lemma HistoryStep(s: State, a: Action)
    requires Inv(s) && Enabled(s, a)
    ensures s.env.fences <= Do(s, a).env.fences && |Do(s, a).env.fences| <= |s.env.fences| + 1
    ensures Do(s, a).stored.rotation.Some? ==>
      || (s.stored.rotation == Do(s, a).stored.rotation && s.rotatedAt == Do(s, a).rotatedAt)
      || (s.stored.rotation.None? && Do(s, a).env.fences == s.env.fences && (s.env.fences != [] ==> Do(s, a).rotatedAt == |s.env.fences| - 1)
          && Records(s, a, Do(s, a).stored.rotation.value))
  {
  }

  /** The step records this rotation: of the active lease, with a wake when it is about to expire, without when its Pod is gone. */
  predicate Records(s: State, a: Action, r: Rotation) {
    && a.PersistRotation? && s.active.Some?
    && r.oldUid == s.active.value.uid && r.target == s.active.value.generation + 1
    && (if r.wake then s.active.value.credential.expires <= s.now + REFRESH_MARGIN else s.at.PodAbsent?)
  }

  lemma {:induction false} FencesGrow(states: seq<State>, actions: seq<Action>, i: nat, j: nat)
    requires IsRun(states, actions) && i <= j < |states|
    ensures states[i].env.fences <= states[j].env.fences && states[i].env.fences != []
  {
    hide Do;
    if i < j {
      FencesGrow(states, actions, i, j - 1);
      InvAlways(states, actions, j - 1);
      HistoryStep(states[j - 1], actions[j - 1]);
    } else if i > 0 {
      FencesGrow(states, actions, 0, i);
    }
  }

  /** The step `b` that recorded the rotation. */
  lemma {:induction false} RotationSince(states: seq<State>, actions: seq<Action>, i: nat) returns (b: nat)
    requires IsRun(states, actions) && i < |states| && states[i].stored.rotation.Some?
    ensures b < i && states[b].stored.rotation.None?
    ensures forall m :: b < m <= i ==> states[m].stored.rotation == states[i].stored.rotation
    ensures |states[b].env.fences| == |states[b + 1].env.fences| == states[i].rotatedAt + 1
    ensures Records(states[b], actions[b], states[i].stored.rotation.value)
  {
    hide Do;
    assert i > 0;
    InvAlways(states, actions, i - 1);
    FencesGrow(states, actions, i - 1, i - 1);
    HistoryStep(states[i - 1], actions[i - 1]);
    if states[i - 1].stored.rotation == states[i].stored.rotation {
      b := RotationSince(states, actions, i - 1);
    } else {
      b := i - 1;
    }
  }

  lemma {:induction false} FenceCurrentAt(states: seq<State>, actions: seq<Action>, b: nat, i: nat, view: nat) returns (k: nat)
    requires IsRun(states, actions) && b <= i < |states| && |states[b].env.fences| <= view + 1 <= |states[i].env.fences|
    ensures b <= k <= i && |states[k].env.fences| == view + 1
  {
    hide Do;
    if |states[i].env.fences| == view + 1 {
      k := i;
    } else {
      InvAlways(states, actions, i - 1);
      HistoryStep(states[i - 1], actions[i - 1]);
      k := FenceCurrentAt(states, actions, b, i - 1, view);
    }
  }

  /**
   * In a waking rotation the old token is revoked only after the Environment
   * was fenced at some step `k`, or is gone.  A pass that keeps a lease found
   * it fenced under this very rotation; a pass that cleans up had this state
   * of it in its cache.
   */
  lemma FenceBeforeRevocation(states: seq<State>, actions: seq<Action>, i: nat) returns (k: nat)
    requires IsRun(states, actions) && i < |actions| && RevokesOld(states[i], states[i + 1])
    ensures k <= i && (Fenced(states[k]) || states[i].env.gone)
    ensures states[i].at.FenceSeen? ==>
      && k < i && Fenced(states[k]) && (forall m :: k < m <= i ==> states[m].at.FenceSeen?)
      && forall m :: k <= m <= i ==> states[m].stored.rotation == states[i].stored.rotation
    ensures !states[i].at.FenceSeen? ==>
      states[i].at.Cleaning? && (!states[i].at.lost ==> Fenced(states[k]) && |states[k].env.fences| == states[i].at.view + 1)
  {
    hide Do;
    InvAlways(states, actions, i);
    RevocationStep(states[i], actions[i]);
    k := i;
    if states[i].at.FenceSeen? {
      k := FenceSeenSince(states, actions, i);
    } else if !states[i].at.lost {
      k := FenceCurrentAt(states, actions, 0, i, states[i].at.view);
      FencesGrow(states, actions, k, i);
    }
  }

  lemma PodAbsentStep(s: State, a: Action)
    requires Inv(s) && Enabled(s, a) && Do(s, a).at.PodAbsent?
    ensures s.active.Some? && s.active.value.bound && Do(s, a).active == s.active
    ensures s.at.PodAbsent? || (!s.env.pod && !s.env.provisioned)
  {
  }

  lemma {:induction false} PodAbsentSince(states: seq<State>, actions: seq<Action>, i: nat) returns (k: nat)
    requires IsRun(states, actions) && i < |states| && states[i].at.PodAbsent?
    ensures k < i && !states[k].env.pod && !states[k].env.provisioned
    ensures states[k].active == states[i].active && states[i].active.Some? && states[i].active.value.bound
  {
    hide Do;
    assert i > 0;
    InvAlways(states, actions, i - 1);
    PodAbsentStep(states[i - 1], actions[i - 1]);
    if states[i - 1].at.PodAbsent? {
      k := PodAbsentSince(states, actions, i - 1);
    } else {
      k := i - 1;
    }
  }

  /**
   * A rotation without a wake names a lease that had been bound to an
   * execution, and was recorded after the Pod of that execution was found gone
   * at some step `k`; one with a wake names a lease about to expire.
   */
  lemma RotationHasCause(states: seq<State>, actions: seq<Action>, i: nat) returns (k: nat)
    requires IsRun(states, actions) && i < |states| && states[i].stored.rotation.Some?
    ensures k < i && states[k].active.Some? && states[k].active.value.uid == states[i].stored.rotation.value.oldUid
    ensures states[k].active.value.generation + 1 == states[i].stored.rotation.value.target
    ensures if states[i].stored.rotation.value.wake
      then states[k].active.value.credential.expires <= states[k].now + REFRESH_MARGIN
      else states[k].active.value.bound && !states[k].env.pod && !states[k].env.provisioned
  {
    hide Do;
    k := RotationSince(states, actions, i);
    if !states[i].stored.rotation.value.wake {
      k := PodAbsentSince(states, actions, k);
    }
  }

  /** The step revokes the token of the active Secret. */
  predicate RevokesActive(s: State, t: State) {
    s.active.Some? && s.active.value.credential.token !in s.revoked && s.active.value.credential.token in t.revoked
  }

  /** Storing this token was never confirmed: it is in the log, or about to be given up. */
  predicate Unconfirmed(s: State, token: Nonce) {
    (s.pending.Some? && s.pending.value.credential.token == token) || (s.at.Unrecorded? && s.at.credential.token == token)
  }

  lemma ActiveRevokedStep(s: State, a: Action)
    requires Inv(s) && Enabled(s, a) && RevokesActive(s, Do(s, a))
    ensures
      || s.at.FenceSeen?
      || (s.stored.rotation.Some? && !s.stored.rotation.value.wake && s.stored.rotation.value.oldUid == s.active.value.uid)
      || s.at.Cleaning?
      || Unconfirmed(s, s.active.value.credential.token)
  {
  }

  /**
   * Over every run the active token is revoked only after the Environment was
   * found fenced under the standing rotation, or the Pod that received the
   * token was found gone, or the Run is being cleaned up on a fenced or lost
   * Environment, or the token is one whose storing was never confirmed.
   */
  lemma ActiveRevokedOnly(states: seq<State>, actions: seq<Action>, i: nat) returns (k: nat)
    requires IsRun(states, actions) && i < |actions| && RevokesActive(states[i], states[i + 1])
    ensures k <= i
    ensures
      || (&& states[i].stored.rotation.Some? && Fenced(states[k])
          && forall m :: k <= m <= i ==> states[m].stored.rotation == states[i].stored.rotation)
      || (&& states[k].active.Some? && states[k].active.value.uid == states[i].active.value.uid
          && states[k].active.value.bound && !states[k].env.pod)
      || (states[i].at.Cleaning? && (Fenced(states[k]) || states[i].env.gone))
      || Unconfirmed(states[i], states[i].active.value.credential.token)
  {
    hide Do;
    InvAlways(states, actions, i);
    ActiveRevokedStep(states[i], actions[i]);
    k := i;
    if states[i].at.FenceSeen? {
      k := FenceSeenSince(states, actions, i);
    } else if states[i].at.Cleaning? {
      if !states[i].at.lost {
        k := FenceCurrentAt(states, actions, 0, i, states[i].at.view);
        FencesGrow(states, actions, k, i);
      }
    } else if !Unconfirmed(states[i], states[i].active.value.credential.token) {
      k := RotationHasCause(states, actions, i);
    }
  }

  /** The token in hand is the one a call issued, as that call described it. */
  predicate IssuesAs(s: State, a: Action, c: Credential, generation: nat, invalid: bool) {
    && a.Issue? && a.response && a.invalid == invalid
    && c.token == s.nonce && c.expires == s.now + a.lifetime
    && generation == (if s.stored.rotation.Some? then s.stored.rotation.value.target else 1)
    && s.active.None? && s.pending.None? && !s.closing && !s.env.gone
  }

  lemma IssuedStep(s: State, a: Action)
    requires Inv(s) && Enabled(s, a) && Do(s, a).at.Issued?
    ensures var at := Do(s, a).at;
      at == s.at || IssuesAs(s, a, at.credential, at.generation, at.invalid)
  {
  }

  lemma {:induction false} IssuedSince(states: seq<State>, actions: seq<Action>, i: nat) returns (k: nat)
    requires IsRun(states, actions) && i < |states| && states[i].at.Issued?
    ensures k < i && IssuesAs(states[k], actions[k], states[i].at.credential, states[i].at.generation, states[i].at.invalid)
  {
    hide Do, IssuesAs;
    InvAlways(states, actions, i - 1);
    IssuedStep(states[i - 1], actions[i - 1]);
    if states[i - 1].at == states[i].at {
      k := IssuedSince(states, actions, i - 1);
    } else {
      k := i - 1;
    }
  }

  lemma CreatedStep(s: State, a: Action)
    requires Inv(s) && Enabled(s, a) && s.active.None? && Do(s, a).active.Some?
    ensures s.at.Issued? && !s.at.invalid && s.pending.None?
    ensures var l := Do(s, a).active.value;
      l.credential == s.at.credential && l.generation == s.at.generation && !l.bound
      && (s.stored.rotation.Some? ==> l.uid != s.stored.rotation.value.oldUid)
  {
  }

  /**
   * A lease comes into being only as a token issued at an earlier step `k`
   * that the provider did not report unusable, under the generation then due,
   * when no other token was stored; it is bound to no execution yet and its
   * name is not that of the lease it replaces.
   */
  lemma LeaseWasIssued(states: seq<State>, actions: seq<Action>, i: nat) returns (k: nat)
    requires IsRun(states, actions) && i < |actions| && states[i].active.None? && states[i + 1].active.Some?
    ensures var l := states[i + 1].active.value;
      && k < i && IssuesAs(states[k], actions[k], l.credential, l.generation, false) && !l.bound
      && (states[i].stored.rotation.Some? ==> l.uid != states[i].stored.rotation.value.oldUid)
  {
    hide Do, IssuesAs;
    InvAlways(states, actions, i);
    CreatedStep(states[i], actions[i]);
    k := IssuedSince(states, actions, i);
  }

  lemma RotationEndsStep(s: State, a: Action)
    requires Inv(s) && Enabled(s, a) && s.stored.rotation.Some? && Do(s, a).stored.rotation != s.stored.rotation
    ensures Do(s, a).stored.rotation.None? && s.pending.None?
    ensures if s.active.Some?
      then s.active.value.uid != s.stored.rotation.value.oldUid && s.active.value.generation == s.stored.rotation.value.target
      else s.closing
  {
  }

  /**
   * A rotation ends only with its fresh lease in place, or, when cleaning up,
   * with no lease left; and with no revocation outstanding.  It is never
   * replaced by another.
   */
  lemma RotationEndsOnly(states: seq<State>, actions: seq<Action>, i: nat)
    requires IsRun(states, actions) && i < |actions|
    requires states[i].stored.rotation.Some? && states[i + 1].stored.rotation != states[i].stored.rotation
    ensures states[i + 1].stored.rotation.None? && states[i].pending.None?
    ensures if states[i].active.Some?
      then
        && states[i].active.value.uid != states[i].stored.rotation.value.oldUid
        && states[i].active.value.generation == states[i].stored.rotation.value.target
      else states[i].closing
  {
    hide Do;
    InvAlways(states, actions, i);
    RotationEndsStep(states[i], actions[i]);
  }

  /** At some step under the rotation that stands at `i`, the Environment was the one of this view. */
  ghost predicate CurrentUnderRotation(states: seq<State>, i: nat, view: nat)
    requires i < |states|
  {
    exists k :: 0 <= k <= i && |states[k].env.fences| == view + 1
      && forall m :: k <= m <= i ==> states[m].stored.rotation == states[i].stored.rotation
  }

  /**
   * The fence a cleanup acts on was one under the rotation exactly when the
   * cached Environment is no older than the rotation record.
   */
  lemma CleanupFenceUnderRotationIff(states: seq<State>, actions: seq<Action>, i: nat, view: nat)
    requires IsRun(states, actions) && i < |states| && states[i].stored.rotation.Some? && view < |states[i].env.fences|
    ensures CurrentUnderRotation(states, i, view) <==> view >= states[i].rotatedAt
  {
    hide Do;
    var b := RotationSince(states, actions, i);
    if view >= states[i].rotatedAt {
      var k := FenceCurrentAt(states, actions, b + 1, i, view);
    }
    if CurrentUnderRotation(states, i, view) {
      var k :| 0 <= k <= i && |states[k].env.fences| == view + 1
        && forall m :: k <= m <= i ==> states[m].stored.rotation == states[i].stored.rotation;
      assert k > b;
      FencesGrow(states, actions, b, k);
    }
  }

  lemma Appended(states: seq<State>, actions: seq<Action>, a: Action) returns (more: seq<State>, longer: seq<Action>)
    requires IsRun(states, actions) && Enabled(states[|actions|], a)
    ensures IsRun(more, longer) && longer == actions + [a] && more == states + [Do(states[|actions|], a)]
  {
    more, longer := states + [Do(states[|actions|], a)], actions + [a];
    hide Do, Enabled, Initial;
    forall i | 0 <= i < |longer| ensures Enabled(more[i], longer[i]) && more[i + 1] == Do(more[i], longer[i]) {
    }
  }

  /** A first lease is issued while the Environment is fenced, and the cache sees it so. */
  lemma LeaseIssued(s: State, lifetime: nat) returns (states: seq<State>, actions: seq<Action>)
    requires Initial(s) && s.env.fences == [true] && !s.env.gone && s.cached.condition == Issuing
    ensures IsRun(states, actions) && |actions| == 2 && forall m :: 0 <= m <= 2 ==> states[m].stored.rotation.None?
    ensures var t := states[2];
      && t == s.(active := t.active, nonce := t.nonce) && t.active.Some? && t.active.value.credential.token !in t.revoked
      && t.active.value.credential.expires == s.now + lifetime
  {
    states, actions := [s], [];
    states, actions := Appended(states, actions, Issue(lifetime, false, true));
    states, actions := Appended(states, actions, CreateActive(Applied, false));
  }

  /** Later the Environment runs, and the lease is about to expire; the cache still holds the fence. */
  lemma RotationRecorded(s: State, lifetime: nat) returns (states: seq<State>, actions: seq<Action>)
    requires Initial(s) && s.env.fences == [true] && !s.env.gone && s.cached.condition == Issuing
    ensures IsRun(states, actions) && |actions| == 5
    ensures forall m :: 0 <= m < 5 ==> states[m].stored.rotation.None?
    ensures var t := states[5];
      && t.stored.rotation.Some? && t.stored.rotation.value.wake && t.cached.rotation.None? && t.pending.None? && t.at.Idle?
      && t.active.Some? && t.active.value.uid == t.stored.rotation.value.oldUid && t.active.value.credential.token !in t.revoked
      && t.env.fences == [true, false] && t.env.viewed == 0 && !t.env.gone
  {
    states, actions := LeaseIssued(s, lifetime);
    hide IsRun;
    states, actions := Appended(states, actions, SetFenced(false));
    assert states[3].env.fences == [true, false];
    states, actions := Appended(states, actions, Tick(lifetime));
    states, actions := Appended(states, actions, PersistRotation(true, Applied));
  }

  /**
   * A cleanup whose cached Environment is older than the rotation revokes the
   * old token though, since the rotation was recorded, the Environment was
   * never fenced.
   */
  lemma RevokedUnfenced(s: State, lifetime: nat) returns (states: seq<State>, actions: seq<Action>, i: nat)
    requires Initial(s) && s.env.fences == [true] && !s.env.gone && s.cached.condition == Issuing
    ensures IsRun(states, actions) && i < |actions| && RevokesOld(states[i], states[i + 1])
    ensures forall m :: 0 <= m <= i && states[m].stored.rotation.Some? ==> !Fenced(states[m]) && !states[m].env.gone
  {
    states, actions := RotationRecorded(s, lifetime);
    hide IsRun;
    states, actions := Appended(states, actions, BeginCleanup);
    states, actions := Appended(states, actions, RevokeActive(Applied));
    i := 6;
  }
}
