/**
 * The Environment object, its two execution children, and what each reconcile
 * operation does to them.  Every operation performs at most one write that
 * decides the outcome, so each is a function on the state it finds.
 *
 * The fixed-name Pod and credential are the controller's own; a foreign object
 * under either name only ever makes the source return an error.
 */
module EnvironmentSteps {
  import opened Basics
  import opened Lifecycle

  const RECOVERY_LIMIT: nat := 3
  const RECOVERY_DELAY: nat := 5

  datatype PodPhase = PodPending | PodRunning(ready: bool) | PodFailed | PodSucceeded

  datatype Pod = Pod(execution: nat, phase: PodPhase, terminating: bool)

  datatype Recovery = Recovery(attempts: nat, exhausted: bool, execution: nat, nextAttemptAt: Option<nat>)

  const NO_RECOVERY := Recovery(0, false, 0, None)

  /** The reasons of the Ready condition that a reconcile reads back. */
  datatype ReadyReason = RecoveryExhausted | RecoveryPending | OtherReason

  datatype Status = Status(
    lifecycle: LifecycleStatus,
    phase: Phase,
    podName: bool,
    endpoint: bool,
    ready: bool,
    readyReason: ReadyReason,
    observedGeneration: nat,
    execution: nat,
    recovery: Recovery,
    lastActiveAt: Option<nat>)

  /** Which repository token an execution under creation is about to receive. */
  datatype Record = Record(secretUid: Uid, execution: nat)

  datatype Environment = Environment(
    uid: Uid,
    generation: nat,
    spec: LifecycleSpec,
    paused: bool,
    status: Status,
    record: Option<Record>)

  datatype Cluster = Cluster(env: Environment, pod: Option<Pod>, credential: bool)

  function LifecycleContext(env: Environment): Context {
    Context(env.uid, env.spec, env.status.execution, env.status.phase)
  }

  predicate IsReady(env: Environment) {
    env.status.execution > 0 && env.status.observedGeneration == env.generation && env.status.ready
  }

  /** A connection is published, or the status still says one is. */
  predicate Connected(env: Environment) {
    env.status.podName || env.status.endpoint || IsReady(env)
  }

  predicate Suspended(env: Environment) {
    env.paused || env.status.lifecycle.suspended
  }

  /** The published connection of a live execution. */
  predicate Reachable(env: Environment) {
    env.status.execution > 0 && !Suspended(env) && IsReady(env) && env.status.podName && env.status.endpoint
  }

  predicate Fenced(env: Environment) {
    Suspended(env) && env.status.phase == Paused && !env.status.podName && !env.status.endpoint
  }

  predicate TerminalPhase(pod: Pod) {
    pod.phase == PodFailed || pod.phase == PodSucceeded
  }

  function Later(last: Option<nat>, candidate: Option<nat>): Option<nat> {
    if candidate.Some? && (last.None? || candidate.value > last.value) then candidate else last
  }

  /** Publishes a phase and the connection that goes with it. */
  function Apply(env: Environment, phase: Phase, podName: bool, endpoint: bool, reason: ReadyReason, last: Option<nat>)
    : Environment
  {
    env.(status := env.status.(
      phase := phase, podName := podName, endpoint := endpoint,
      ready := phase == Ready || phase == Running, readyReason := reason,
      observedGeneration := env.generation,
      lastActiveAt := Later(env.status.lastActiveAt, last)))
  }

  // ---------------------------------------------------------------------
  // Lifecycle gate
  // ---------------------------------------------------------------------

  /** A spec write: the stored generation advances. */
  function WithSpec(env: Environment, spec: LifecycleSpec, paused: bool): Environment {
    env.(spec := spec, paused := paused, generation := env.generation + 1)
  }

  function MigratePaused(env: Environment): Environment {
    var hold :=
      if env.spec.hold.None? then HoldPolicy(true, 1)
      else if env.spec.hold.value.enabled then env.spec.hold.value
      else HoldPolicy(true, env.spec.hold.value.revision + 1);
    WithSpec(env, env.spec.(hold := Some(hold)), false)
  }

  /** The published suspend request is a replay, or no longer authorized. */
  predicate Discardable(env: Environment) {
    && env.spec.suspend.Some?
    && var r := env.spec.suspend.value;
       var l := env.status.lifecycle;
       && (l.pending != r.request.id || l.lastSequence != r.sequence)
       && (r.sequence <= l.lastSequence || r.request.id == l.lastSuspend || !ValidRequest(LifecycleContext(env), r.request))
  }

  function DiscardSuspend(env: Environment): Environment {
    WithSpec(env, env.spec.(suspend := None), env.paused)
  }

  function IntentStep(env: Environment, activity: seq<ActivityRequest>, now: nat): Environment {
    var c := LifecycleContext(env);
    env.(status := env.status.(
      lifecycle := Intent(c, env.status.lifecycle, activity),
      lastActiveAt := LastActive(env.status.lastActiveAt, now, SawActivity(c, env.status.lifecycle.receipts, activity))))
  }

  /**
   * The gates before provisioning let a reconcile through: the lifecycle
   * decision on this very spec and status is already recorded, and it is not
   * a suspension.
   */
  predicate PastSuspension(env: Environment) {
    && !env.paused
    && !Discardable(env)
    && Decide(LifecycleContext(env), env.status.lifecycle) == env.status.lifecycle
    && !env.status.lifecycle.suspended
  }

  /** The recovery gate neither waits nor charges. */
  predicate PastRecovery(env: Environment) {
    !env.status.recovery.exhausted && env.status.recovery.nextAttemptAt.None?
  }

  // ---------------------------------------------------------------------
  // Suspension
  // ---------------------------------------------------------------------

  function PauseStep(c: Cluster): Cluster {
    var s := c.env.status;
    if Connected(c.env) then
      c.(env := Apply(c.env, Idle, false, false, OtherReason, s.lastActiveAt))
    else if c.pod.Some? then
      c.(pod := Some(c.pod.value.(terminating := true)))
    else if c.credential then
      c.(credential := false)
    else if s.phase == Paused && s.lifecycle.pending != NoId then
      c.(env := c.env.(status := s.(lifecycle := s.lifecycle.(pending := NoId))))
    else
      c.(env := Apply(c.env, Paused, false, false, OtherReason, s.lastActiveAt))
  }

  predicate IdleDue(env: Environment, timeout: int, warmPool: bool, runActive: bool, now: nat) {
    && !warmPool
    && !runActive
    && (if env.status.lastActiveAt.Some? then env.status.lastActiveAt.value + timeout - now else timeout) <= 0
  }

  function IdleStep(env: Environment, timeout: int, warmPool: bool, runActive: bool, now: nat): Environment {
    if !IdleDue(env, timeout, warmPool, runActive, now) then env
    else
      var l := env.status.lifecycle;
      var suspended := env.(status := env.status.(lifecycle :=
        l.(suspended := true, reason := ReasonIdle, requestId := NoId, epoch := l.epoch + 1)));
      Apply(suspended, Idle, env.status.podName, env.status.endpoint, OtherReason, env.status.lastActiveAt)
  }

  // ---------------------------------------------------------------------
  // Execution identities
  // ---------------------------------------------------------------------

  /** `seen` is the spec generation this reconcile read before it started creating. */
  predicate MayReserve(env: Environment, seen: nat) {
    env.generation == seen && !env.paused && !env.status.lifecycle.suspended && env.status.execution < MAX_INT64
  }

  function Reserve(env: Environment): Environment {
    var phase := if env.status.phase == Resuming then Resuming else Creating;
    var e := Apply(env, phase, false, false, OtherReason, env.status.lastActiveAt);
    e.(status := e.status.(execution := env.status.execution + 1))
  }

  predicate CreationCurrent(env: Environment, seen: nat) {
    env.generation == seen && !env.paused && !env.status.lifecycle.suspended && !Held(env.spec)
  }

  // ---------------------------------------------------------------------
  // Recovery
  // ---------------------------------------------------------------------

  function Backoff(attempts: nat): nat {
    RECOVERY_DELAY * Pow2(attempts)
  }

  function Pow2(n: nat): nat {
    if n == 0 then 1 else 2 * Pow2(n - 1)
  }

  function RecoveryPhase(resume: bool): Phase {
    if resume then Resuming else Creating
  }

  predicate AlreadyReported(env: Environment, reason: ReadyReason) {
    env.status.observedGeneration == env.generation && !env.status.ready && env.status.readyReason == reason
  }

  /** The recovery gate; `resume` says whether a replacement resumes a retained workspace. */
  function PendingRecovery(env: Environment, resume: bool, now: nat): Environment {
    var r := env.status.recovery;
    if r.exhausted then
      if AlreadyReported(env, RecoveryExhausted) then env
      else Apply(env, Failed, env.status.podName, false, RecoveryExhausted, env.status.lastActiveAt)
    else if r.nextAttemptAt.None? then env
    else if now < r.nextAttemptAt.value then
      if AlreadyReported(env, RecoveryPending) then env
      else Apply(env, RecoveryPhase(resume), false, false, RecoveryPending, env.status.lastActiveAt)
    else
      var e := Apply(env, RecoveryPhase(resume), false, false, OtherReason, env.status.lastActiveAt);
      e.(status := e.status.(recovery := r.(attempts := r.attempts + 1, nextAttemptAt := None)))
  }

  /** This reconcile charges one replacement against the budget. */
  predicate Charges(env: Environment, now: nat) {
    var r := env.status.recovery;
    !r.exhausted && r.nextAttemptAt.Some? && now >= r.nextAttemptAt.value
  }

  /** Deletes the Pod that was read, and no other. */
  function DeleteObserved(current: Option<Pod>, read: Pod): Option<Pod> {
    if current.Some? && current.value.execution == read.execution then Some(current.value.(terminating := true)) else current
  }

  /** `pod` is the terminal Pod as it was read at time `now`. */
  function TerminalPod(c: Cluster, pod: Pod, resume: bool, now: nat): Cluster {
    var env := c.env;
    var r := env.status.recovery;
    var execution := pod.execution;
    if execution != env.status.execution then c
    else if r.execution != execution then
      if r.attempts >= RECOVERY_LIMIT then
        var e := Apply(env, Failed, true, false, RecoveryExhausted, env.status.lastActiveAt);
        c.(env := e.(status := e.status.(recovery := r.(exhausted := true, execution := execution))))
      else
        var e := Apply(env, RecoveryPhase(resume), false, false, RecoveryPending, env.status.lastActiveAt);
        c.(env := e.(status := e.status.(recovery :=
          Recovery(r.attempts, false, execution, Some(now + Backoff(r.attempts))))))
    else if r.nextAttemptAt.Some? then c
    else c.(pod := DeleteObserved(c.pod, pod))
  }

  /** Publishing what the Pod reports; `phase` is the phase its containers add up to. */
  function SyncStatus(env: Environment, phase: Phase, now: nat): Environment {
    var active :=
      if phase == Ready && (env.status.lastActiveAt.None? || (env.status.phase != Ready && env.status.phase != Running))
      then Some(now) else env.status.lastActiveAt;
    var e := Apply(env, phase, true, phase == Ready, OtherReason, active);
    if phase == Ready then e.(status := e.status.(recovery := NO_RECOVERY)) else e
  }

  // ---------------------------------------------------------------------
  // Fences published by the Run controller
  // ---------------------------------------------------------------------

  function FenceSequence(read: LifecycleStatus): nat {
    Max(read.epoch, read.lastSequence) + 1
  }

  /** The write of a fence: `sequence` was computed from an earlier read. */
  function PublishFence(env: Environment, owner: Uid, sequence: nat, revision: nat): Environment {
    var current := env.spec.suspend;
    if PolicyRevision(env.spec) != revision then env
    else if sequence <= env.status.lifecycle.lastSequence then env
    else if current.Some? && (current.value.sequence >= sequence || current.value.request.id == FenceId(owner, sequence)) then env
    else
      WithSpec(env,
        env.spec.(suspend := Some(SuspendRequest(Request(FenceId(owner, sequence), env.uid, revision), sequence))),
        env.paused)
  }
}
