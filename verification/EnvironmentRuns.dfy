/**
 * Every run of one Environment incarnation.
 *
 * A run interleaves the reconciler with users and other components that edit
 * the spec, with the kubelet, and with the clock.  Each write to a stored
 * object is one action, so a crash (`Stop`) can fall between any two writes;
 * what it loses is only the reconciler's own position, `Controller`.  Writes
 * that the source guards by resource version or spec generation find the spec
 * they were decided on, so their guards are read on the state they act on.  A
 * recovery write is not so guarded: any spec edit may precede it, as may any
 * change of the Pod it was decided on.  The status writes whose only effect is to withdraw a connection
 * (errors, invalid configuration, Pod replacement, warm promotion) are one
 * action, `Withdraw`, allowed at any time.
 */
module EnvironmentRuns {
  import opened Basics
  import opened Lifecycle
  import opened EnvironmentSteps

  /** How far one reconcile has got past its gates: creating an execution, or looking at one. */
  datatype Controller =
    | AtRest
    | Recorded(seen: nat, record: Option<Record>)
    | Rotated(seen: nat, record: Option<Record>)
    | Reserved(seen: nat, execution: nat)
    | Checked(seen: nat, execution: nat)
    | Created(seen: nat, execution: nat)
    // the Pod that was read, and when
    | Observed(seen: nat, pod: Pod, at: nat)

  datatype Charge = Charge(execution: nat, scheduledAt: nat, chargedAt: nat)

  datatype State = State(
    cluster: Cluster,
    controller: Controller,
    now: nat,
    // history: executions created, replacements charged since the Environment
    // was last ready, when the current deadline was set, and the newest
    // execution ever charged
    created: seq<nat>,
    charges: seq<Charge>,
    scheduledAt: nat,
    charged: nat)

  datatype Outcome = Applied | LostResponse | NotApplied

  datatype Action =
    // users and other components
    | EditHold(hold: HoldPolicy)
    | SetPaused(paused: bool)
    | PublishWake(wake: WakeRequest)
    | PublishSuspend(suspend: Option<SuspendRequest>)
    | Fence(owner: Uid, read: Environment)
    | Tick(delta: nat)
    // kubelet
    | PodReports(phase: PodPhase)
    | PodGone
    // reconciler
    | Migrate
    | Discard
    | Intend(activity: seq<ActivityRequest>)
    | Pause
    | Resume
    | Withdraw(to: Phase)
    | ClearRecord
    | Begin(lease: Option<Uid>)
    | Rotate
    | ReserveExecution
    | Check
    | Create(outcome: Outcome)
    | Confirm
    | Recover(resume: bool)
    | Observe
    | ObserveTerminal(resume: bool)
    | Sync(observed: Phase)
    | GoIdle(timeout: int, warmPool: bool, runActive: bool)
    | DeletePod
    | DeleteCredential
    | Stop

  /** A reconcile that got past the suspension gate and the recovery gate. */
  predicate Provisioning(s: State) {
    s.controller.AtRest? && PastSuspension(s.cluster.env) && PastRecovery(s.cluster.env) && s.cluster.env.status.phase != Paused
  }

  predicate NamesItsSequence(r: SuspendRequest) {
    r.request.id.FenceId? ==> r.request.id.sequence == r.sequence
  }

  predicate Enabled(s: State, a: Action) {
    var env := s.cluster.env;
    match a
    case EditHold(h) =>
      h.revision >= 1 && (env.spec.hold.Some? ==> h == env.spec.hold.value || h.revision > env.spec.hold.value.revision)
    case SetPaused(_) => true
    case PublishWake(_) => true
    case PublishSuspend(r) =>
      r.Some? ==>
        && r.value.request.id != NoId && r.value.sequence >= 1 && NamesItsSequence(r.value)
        && (env.spec.suspend.Some? ==> r.value == env.spec.suspend.value || r.value.sequence > env.spec.suspend.value.sequence)
    case Fence(_, read) => !Suspended(read) && read.uid == env.uid
    case Tick(_) => true
    case PodReports(_) => s.cluster.pod.Some? && !TerminalPhase(s.cluster.pod.value)
    case PodGone => s.cluster.pod.Some?
    case Migrate => s.controller.AtRest? && env.paused
    case Discard => s.controller.AtRest? && !env.paused && Discardable(env)
    case Intend(activity) => s.controller.AtRest? && !env.paused && !Discardable(env)
    case Pause => s.controller.AtRest? && env.status.lifecycle.suspended
    case Resume => s.controller.AtRest? && PastSuspension(env) && PastRecovery(env) && env.status.phase == Paused
    case Withdraw(to) => to != Paused && to != Ready && to != Running
    case ClearRecord => s.controller.AtRest? && env.record.Some?
    case Begin(_) => Provisioning(s) && s.cluster.pod.None? && env.record.None?
    case Rotate => s.controller.Recorded?
    case ReserveExecution => s.controller.Rotated?
    case Check => s.controller.Reserved?
    case Create(_) => s.controller.Checked?
    case Confirm => s.controller.Created?
    case Recover(_) => s.controller.AtRest? && !env.status.lifecycle.suspended
    case Observe => Provisioning(s) && s.cluster.pod.Some?
    case ObserveTerminal(_) => s.controller.Observed? && TerminalPhase(s.controller.pod)
    case Sync(observed) =>
      && s.controller.Observed? && !TerminalPhase(s.controller.pod) && env.generation == s.controller.seen
      && s.controller.pod.execution == env.status.execution
      && observed != Paused && observed != Running
      && (observed == Ready ==> s.controller.pod.phase == PodRunning(true))
    case GoIdle(_, _, _) => s.controller.Observed? && s.controller.pod.phase.PodRunning? && PastSuspension(env)
    case DeletePod => s.controller.AtRest? && s.cluster.pod.Some?
    case DeleteCredential => s.controller.AtRest? && s.cluster.pod.None?
    case Stop => true
  }

  function WithEnv(s: State, env: Environment): State {
    s.(cluster := s.cluster.(env := env))
  }

  function WithPod(s: State, pod: Option<Pod>): State {
    s.(cluster := s.cluster.(pod := pod))
  }

  function Terminating(s: State): State {
    if s.cluster.pod.Some? then WithPod(s, Some(s.cluster.pod.value.(terminating := true))) else s
  }

  function DoBegin(s: State, lease: Option<Uid>): State {
    var env := s.cluster.env;
    if lease.None? then s.(controller := Recorded(env.generation, None))
    else
      var record := Some(Record(lease.value, env.status.execution + 1));
      WithEnv(s, env.(record := record)).(controller := Recorded(env.generation, record))
  }

  /** Reserves a fresh execution, or takes the branch that would use the current one again. */
  function DoReserve(s: State): State
    requires s.controller.Rotated?
  {
    var env := s.cluster.env;
    var record := s.controller.record;
    if record.Some? && record.value.execution == env.status.execution then
      s.(controller := Reserved(s.controller.seen, env.status.execution))
    else if !MayReserve(env, s.controller.seen) then
      s.(controller := AtRest)
    else
      var reserved := WithEnv(s, Reserve(env));
      var execution := env.status.execution + 1;
      if record.Some? && record.value.execution != execution then reserved.(controller := AtRest)
      else reserved.(controller := Reserved(s.controller.seen, execution))
  }

  function DoCreate(s: State, outcome: Outcome): State
    requires s.controller.Checked?
  {
    if s.cluster.pod.Some? || outcome.NotApplied? then s.(controller := AtRest)
    else
      var execution := s.controller.execution;
      WithPod(s, Some(Pod(execution, PodPending, false))).(
        created := s.created + [execution],
        controller := if outcome.Applied? then Created(s.controller.seen, execution) else AtRest)
  }

  function DoConfirm(s: State): State
    requires s.controller.Created?
  {
    var t := if CreationCurrent(s.cluster.env, s.controller.seen) then s else Terminating(s);
    WithEnv(t, s.cluster.env.(record := None)).(controller := AtRest)
  }

  function DoRecover(s: State, resume: bool): State {
    var env := s.cluster.env;
    var t := WithEnv(s, PendingRecovery(env, resume, s.now));
    if Charges(env, s.now)
    then t.(charges := s.charges + [Charge(env.status.recovery.execution, s.scheduledAt, s.now)],
            charged := env.status.recovery.execution)
    else t
  }

  function DoSync(s: State, observed: Phase): State {
    var t := WithEnv(s, SyncStatus(s.cluster.env, observed, s.now)).(controller := AtRest);
    if observed == Ready then t.(charges := []) else t
  }

  function DoTerminal(s: State, resume: bool): State
    requires s.controller.Observed?
  {
    var at := s.controller.at;
    s.(cluster := TerminalPod(s.cluster, s.controller.pod, resume, at), scheduledAt := at, controller := AtRest)
  }

  function Do(s: State, a: Action): State
    requires Enabled(s, a)
  {
    var env := s.cluster.env;
    match a
    case EditHold(h) => WithEnv(s, WithSpec(env, env.spec.(hold := Some(h)), env.paused))
    case SetPaused(paused) => WithEnv(s, WithSpec(env, env.spec, paused))
    case PublishWake(w) => WithEnv(s, WithSpec(env, env.spec.(wake := Some(w)), env.paused))
    case PublishSuspend(r) => WithEnv(s, WithSpec(env, env.spec.(suspend := r), env.paused))
    case Fence(owner, read) =>
      WithEnv(s, PublishFence(env, owner, FenceSequence(read.status.lifecycle), PolicyRevision(read.spec)))
    case Tick(delta) => s.(now := s.now + delta)
    case PodReports(phase) => WithPod(s, Some(s.cluster.pod.value.(phase := phase)))
    case PodGone => WithPod(s, None)
    case Migrate => WithEnv(s, MigratePaused(env))
    case Discard => WithEnv(s, DiscardSuspend(env))
    case Intend(activity) => WithEnv(s, IntentStep(env, activity, s.now))
    case Pause => s.(cluster := PauseStep(s.cluster))
    case Resume => WithEnv(s, Apply(env, Resuming, false, false, OtherReason, Some(s.now)))
    case Withdraw(to) => WithEnv(s, Apply(env, to, false, false, OtherReason, None))
    case ClearRecord => WithEnv(s, env.(record := None))
    case Begin(lease) => DoBegin(s, lease)
    case Rotate => s.(cluster := s.cluster.(credential := true), controller := Rotated(s.controller.seen, s.controller.record))
    case ReserveExecution => DoReserve(s)
    case Check =>
      if CreationCurrent(env, s.controller.seen)
      then s.(controller := Checked(s.controller.seen, s.controller.execution))
      else s.(controller := AtRest)
    case Create(outcome) => DoCreate(s, outcome)
    case Confirm => DoConfirm(s)
    case Recover(resume) => DoRecover(s, resume)
    case Observe => s.(controller := Observed(env.generation, s.cluster.pod.value, s.now))
    case ObserveTerminal(resume) => DoTerminal(s, resume)
    case Sync(observed) => DoSync(s, observed)
    case GoIdle(timeout, warmPool, runActive) =>
      WithEnv(s, IdleStep(env, timeout, warmPool, runActive, s.now)).(controller := AtRest)
    case DeletePod => Terminating(s)
    case DeleteCredential => s.(cluster := s.cluster.(credential := false))
    case Stop => s.(controller := AtRest)
  }

  /** A new Environment: nothing created, nothing decided. */
  predicate Initial(s: State) {
    && s.cluster.pod.None? && !s.cluster.credential && s.controller.AtRest?
    && s.created == [] && s.charges == [] && s.charged == 0
    && var env := s.cluster.env;
       && Admitted(env.spec) && env.record.None?
       && (env.spec.suspend.Some? ==> NamesItsSequence(env.spec.suspend.value))
       && env.status == Status(FRESH_STATUS, NoPhase, false, false, false, OtherReason, 0, 0, NO_RECOVERY, None)
  }

  ghost predicate IsRun(states: seq<State>, actions: seq<Action>) {
    && |states| == |actions| + 1
    && Initial(states[0])
    && forall i :: 0 <= i < |actions| ==> Enabled(states[i], actions[i]) && states[i + 1] == Do(states[i], actions[i])
  }

  // ---------------------------------------------------------------------
  // The invariant
  // ---------------------------------------------------------------------

  ghost predicate Increasing(xs: seq<nat>) {
    forall i, j :: 0 <= i < j < |xs| ==> xs[i] < xs[j]
  }

  ghost predicate RequestsOk(s: State) {
    var env := s.cluster.env;
    var l := env.status.lifecycle;
    && Admitted(env.spec)
    && (env.spec.suspend.Some? ==> NamesItsSequence(env.spec.suspend.value))
    && (l.pending != NoId ==> l.suspended)
    && (l.suspended <==> l.reason != NoReason)
    && (l.lastSuspend.FenceId? ==> l.lastSuspend.sequence == l.lastSequence)
  }

  ghost predicate ChildrenOk(s: State) {
    var env := s.cluster.env;
    && (env.status.phase == Paused ==> s.cluster.pod.None? && !s.cluster.credential)
    && (!s.controller.AtRest? ==>
          && !env.status.lifecycle.suspended && env.status.phase != Paused && PastRecovery(env)
          && (!s.controller.Created? && !s.controller.Observed? ==> s.cluster.pod.None?))
  }

  ghost predicate ExecutionsOk(s: State) {
    var execution := s.cluster.env.status.execution;
    && Increasing(s.created)
    && (forall i :: 0 <= i < |s.created| ==> s.created[i] <= execution)
    && (s.cluster.pod.Some? ==> s.cluster.pod.value.execution in s.created)
    && (s.cluster.env.status.podName ==> execution in s.created)
    && (s.controller.Recorded? && s.controller.record.Some? ==> s.controller.record.value.execution == execution + 1)
    && (s.controller.Rotated? && s.controller.record.Some? ==> s.controller.record.value.execution == execution + 1)
    && (s.controller.Reserved? || s.controller.Checked? ==>
          s.controller.execution == execution && execution !in s.created)
    && (s.controller.Observed? ==> s.controller.pod.execution in s.created)
  }

  ghost predicate ChargesOk(charges: seq<Charge>) {
    && (forall i, j :: 0 <= i < j < |charges| ==> charges[i].execution < charges[j].execution)
    && (forall i :: 0 <= i < |charges| ==> charges[i].chargedAt >= charges[i].scheduledAt + Backoff(i))
  }

  ghost predicate RecoveryOk(s: State) {
    var r := s.cluster.env.status.recovery;
    && ChargesOk(s.charges)
    && |s.charges| == r.attempts <= RECOVERY_LIMIT
    && r.execution <= s.cluster.env.status.execution
    && (forall i :: 0 <= i < |s.charges| ==> s.charges[i].execution <= s.charged)
    && (r.nextAttemptAt.Some? ==>
          && !r.exhausted && r.attempts < RECOVERY_LIMIT
          && r.nextAttemptAt.value == s.scheduledAt + Backoff(r.attempts)
          && s.charged < r.execution)
    && (r.exhausted ==> r.attempts == RECOVERY_LIMIT)
    && (r.execution > 0 && r.nextAttemptAt.None? && !r.exhausted ==> s.charged == r.execution)
  }

  /** The execution `r` accounts for has failed: its Pod is gone for good or terminal. */
  ghost predicate FailedOk(s: State) {
    var status := s.cluster.env.status;
    && s.charged <= status.execution
    && (s.charged == status.execution > 0 ==> status.recovery.execution == s.charged)
    && (status.recovery.execution == status.execution > 0 && s.cluster.pod.Some? ==>
          s.cluster.pod.value.execution == status.execution ==> TerminalPhase(s.cluster.pod.value))
    && (status.recovery.execution == status.execution > 0 ==> status.execution in s.created)
    && (s.controller.Observed? ==>
          if TerminalPhase(s.controller.pod)
          then s.cluster.pod.Some? && s.cluster.pod.value.execution == s.controller.pod.execution ==> TerminalPhase(s.cluster.pod.value)
          else s.controller.pod.execution == status.execution > 0 ==> status.recovery.execution != status.execution)
  }

  ghost predicate Inv(s: State) {
    RequestsOk(s) && ChildrenOk(s) && ExecutionsOk(s) && RecoveryOk(s) && FailedOk(s)
  }

  // What the groups of actions leave alone.

  predicate EditsSpec(a: Action) {
    a.EditHold? || a.SetPaused? || a.PublishWake? || a.PublishSuspend? || a.Fence? || a.Migrate? || a.Discard?
  }

  predicate DecidesLifecycle(a: Action) {
    a.Intend? || a.Pause? || a.GoIdle?
  }

  predicate TouchesRecovery(a: Action) {
    a.Recover? || a.ObserveTerminal? || a.Sync?
  }

  predicate PublishesStatus(a: Action) {
    a.Resume? || a.Withdraw? || a.ReserveExecution? || TouchesRecovery(a)
  }

  lemma EditsFrame(s: State, a: Action)
    requires Enabled(s, a) && EditsSpec(a)
    ensures var t := Do(s, a);
      && t == s.(cluster := s.cluster.(env := t.cluster.env))
      && t.cluster.env.status == s.cluster.env.status && t.cluster.env.uid == s.cluster.env.uid
  {
  }

  lemma BudgetFrame(s: State, a: Action)
    requires Enabled(s, a) && TouchesRecovery(a)
    ensures var e, f := s.cluster.env, Do(s, a).cluster.env;
      && f.spec == e.spec && f.uid == e.uid && f.status.lifecycle == e.status.lifecycle
  {
  }

  lemma StatusFrame(s: State, a: Action)
    requires Enabled(s, a) && PublishesStatus(a)
    ensures var e, f := s.cluster.env, Do(s, a).cluster.env;
      && f.spec == e.spec && f.uid == e.uid && f.status.lifecycle == e.status.lifecycle
  {
    if TouchesRecovery(a) {
      hide Do;
      BudgetFrame(s, a);
    }
  }

  lemma OutsideFrame(s: State, a: Action)
    requires Enabled(s, a) && !EditsSpec(a) && !DecidesLifecycle(a) && !PublishesStatus(a)
    ensures var e, f := s.cluster.env, Do(s, a).cluster.env;
      f == e.(record := f.record)
    ensures Do(s, a).charges == s.charges && Do(s, a).scheduledAt == s.scheduledAt && Do(s, a).charged == s.charged
  {
  }

  lemma DecisionFrame(s: State, a: Action)
    requires Enabled(s, a) && DecidesLifecycle(a)
    ensures Do(s, a) == s.(cluster := Do(s, a).cluster, controller := Do(s, a).controller)
    ensures var e, f := s.cluster.env, Do(s, a).cluster.env;
      && f.spec == e.spec && f.uid == e.uid
      && f.status.execution == e.status.execution && f.status.recovery == e.status.recovery
      && f.status.lifecycle.lastSequence >= e.status.lifecycle.lastSequence
      && f.status.lifecycle.epoch ==
         (if f.status.lifecycle.suspended && !e.status.lifecycle.suspended then e.status.lifecycle.epoch + 1
          else e.status.lifecycle.epoch)
  {
  }

  /** Outside a lifecycle decision the lifecycle status stays; outside a spec edit the spec does. */
  lemma LifecycleFrame(s: State, a: Action)
    requires Enabled(s, a)
    ensures var e, f := s.cluster.env, Do(s, a).cluster.env;
      && f.uid == e.uid
      && (!EditsSpec(a) ==> f.spec == e.spec)
      && (!DecidesLifecycle(a) ==> f.status.lifecycle == e.status.lifecycle)
  {
    hide Do;
    if EditsSpec(a) {
      EditsFrame(s, a);
    } else if PublishesStatus(a) {
      StatusFrame(s, a);
    } else if DecidesLifecycle(a) {
      DecisionFrame(s, a);
    } else {
      OutsideFrame(s, a);
    }
  }

  lemma RequestsEdited(s: State, a: Action)
    requires RequestsOk(s) && Enabled(s, a) && EditsSpec(a)
    ensures RequestsOk(Do(s, a))
  {
  }

  lemma RequestsDecided(s: State, a: Action)
    requires RequestsOk(s) && Enabled(s, a) && DecidesLifecycle(a)
    ensures RequestsOk(Do(s, a))
  {
  }

  lemma RequestsStep(s: State, a: Action)
    requires RequestsOk(s) && Enabled(s, a)
    ensures RequestsOk(Do(s, a))
  {
    hide Do;
    if EditsSpec(a) {
      RequestsEdited(s, a);
    } else if DecidesLifecycle(a) {
      RequestsDecided(s, a);
    } else {
      LifecycleFrame(s, a);
    }
  }

  lemma ChildrenDecided(s: State, a: Action)
    requires Inv(s) && Enabled(s, a) && DecidesLifecycle(a)
    ensures ChildrenOk(Do(s, a))
  {
  }

  lemma ChildrenPublished(s: State, a: Action)
    requires Inv(s) && Enabled(s, a) && PublishesStatus(a) && !TouchesRecovery(a)
    ensures ChildrenOk(Do(s, a))
  {
  }

  lemma ChildrenRecovered(s: State, a: Action)
    requires Inv(s) && Enabled(s, a) && TouchesRecovery(a)
    ensures ChildrenOk(Do(s, a))
  {
  }

  lemma ChildrenOutside(s: State, a: Action)
    requires Inv(s) && Enabled(s, a) && !EditsSpec(a) && !DecidesLifecycle(a) && !PublishesStatus(a)
    ensures ChildrenOk(Do(s, a))
  {
  }

  lemma ChildrenStep(s: State, a: Action)
    requires Inv(s) && Enabled(s, a)
    ensures ChildrenOk(Do(s, a))
  {
    hide Do;
    if EditsSpec(a) {
      EditsFrame(s, a);
    } else if DecidesLifecycle(a) {
      ChildrenDecided(s, a);
    } else if TouchesRecovery(a) {
      ChildrenRecovered(s, a);
    } else if PublishesStatus(a) {
      ChildrenPublished(s, a);
    } else {
      ChildrenOutside(s, a);
    }
  }

  /** The actions that issue an execution identity or bring one into being. */
  predicate IssuesExecution(a: Action) {
    a.ReserveExecution? || a.Create?
  }

  lemma ExecutionsQuiet(s: State, a: Action)
    requires Inv(s) && Enabled(s, a) && !IssuesExecution(a)
    ensures Do(s, a).created == s.created && Do(s, a).cluster.env.status.execution == s.cluster.env.status.execution
    ensures ExecutionsOk(Do(s, a))
  {
    hide Do;
    if EditsSpec(a) {
      EditsFrame(s, a);
    } else if DecidesLifecycle(a) {
      ExecutionsDecided(s, a);
    } else if PublishesStatus(a) {
      ExecutionsPublished(s, a);
    } else {
      ExecutionsOutside(s, a);
    }
  }

  lemma ExecutionsDecided(s: State, a: Action)
    requires Inv(s) && Enabled(s, a) && DecidesLifecycle(a)
    ensures Do(s, a).created == s.created && Do(s, a).cluster.env.status.execution == s.cluster.env.status.execution
    ensures ExecutionsOk(Do(s, a))
  {
  }

  lemma ExecutionsPublished(s: State, a: Action)
    requires Inv(s) && Enabled(s, a) && PublishesStatus(a) && !IssuesExecution(a)
    ensures Do(s, a).created == s.created && Do(s, a).cluster.env.status.execution == s.cluster.env.status.execution
    ensures ExecutionsOk(Do(s, a))
  {
    if TouchesRecovery(a) {
      hide Do;
      ExecutionsRecovered(s, a);
    }
  }

  lemma ExecutionsRecovered(s: State, a: Action)
    requires Inv(s) && Enabled(s, a) && TouchesRecovery(a)
    ensures Do(s, a).created == s.created && Do(s, a).cluster.env.status.execution == s.cluster.env.status.execution
    ensures ExecutionsOk(Do(s, a))
  {
  }

  lemma ExecutionsOutside(s: State, a: Action)
    requires Inv(s) && Enabled(s, a) && !EditsSpec(a) && !DecidesLifecycle(a) && !PublishesStatus(a) && !IssuesExecution(a)
    ensures Do(s, a).created == s.created && Do(s, a).cluster.env.status.execution == s.cluster.env.status.execution
    ensures ExecutionsOk(Do(s, a))
  {
  }

  lemma ExecutionsReserve(s: State)
    requires Inv(s) && s.controller.Rotated?
    ensures ExecutionsOk(DoReserve(s))
  {
    var t := DoReserve(s);
    assert t.created == s.created && t.cluster.pod.None?;
    assert t.cluster.env.status.execution > s.cluster.env.status.execution ==> !t.cluster.env.status.podName;
  }

  lemma ExecutionsCreate(s: State, outcome: Outcome)
    requires Inv(s) && s.controller.Checked?
    ensures ExecutionsOk(DoCreate(s, outcome))
  {
    var t := DoCreate(s, outcome);
    if t.created != s.created {
      assert t.created[|s.created|] == s.controller.execution;
      assert forall e :: e in s.created ==> e in t.created;
    }
  }

  lemma ExecutionsStep(s: State, a: Action)
    requires Inv(s) && Enabled(s, a)
    ensures ExecutionsOk(Do(s, a))
  {
    match a
    case ReserveExecution => ExecutionsReserve(s);
    case Create(outcome) => ExecutionsCreate(s, outcome);
    case _ => ExecutionsQuiet(s, a);
  }

  lemma RecoveryQuiet(s: State, a: Action)
    requires Enabled(s, a) && !TouchesRecovery(a)
    ensures Do(s, a).cluster.env.status.recovery == s.cluster.env.status.recovery
    ensures Do(s, a).charges == s.charges && Do(s, a).scheduledAt == s.scheduledAt && Do(s, a).charged == s.charged
    ensures Do(s, a).cluster.env.status.execution >= s.cluster.env.status.execution
  {
    if !PublishesStatus(a) {
      hide Do;
      if EditsSpec(a) {
        EditsFrame(s, a);
      } else if DecidesLifecycle(a) {
        DecisionFrame(s, a);
      } else {
        OutsideFrame(s, a);
      }
    }
  }

  lemma RecoveryFrame(s: State, t: State)
    requires RecoveryOk(s)
    requires t.cluster.env.status.recovery == s.cluster.env.status.recovery
    requires t.charges == s.charges && t.scheduledAt == s.scheduledAt && t.charged == s.charged
    requires t.cluster.env.status.execution >= s.cluster.env.status.execution
    ensures RecoveryOk(t)
  {
  }

  lemma RecoveryCharge(s: State, resume: bool)
    requires RecoveryOk(s)
    ensures RecoveryOk(DoRecover(s, resume))
  {
    var t := DoRecover(s, resume);
    if Charges(s.cluster.env, s.now) {
      assert forall i :: 0 <= i < |s.charges| ==> t.charges[i] == s.charges[i];
    }
  }

  lemma RecoveryTerminal(s: State, resume: bool)
    requires RecoveryOk(s) && FailedOk(s) && PastRecovery(s.cluster.env) && s.controller.Observed?
    ensures RecoveryOk(DoTerminal(s, resume))
  {
  }

  lemma RecoverySync(s: State, observed: Phase)
    requires RecoveryOk(s)
    ensures RecoveryOk(DoSync(s, observed))
  {
  }

  lemma RecoveryStep(s: State, a: Action)
    requires Inv(s) && Enabled(s, a)
    ensures RecoveryOk(Do(s, a))
  {
    if a.Recover? {
      RecoveryCharge(s, a.resume);
    } else if a.ObserveTerminal? {
      RecoveryTerminal(s, a.resume);
    } else if a.Sync? {
      RecoverySync(s, a.observed);
    } else {
      RecoveryQuiet(s, a);
      RecoveryFrame(s, Do(s, a));
    }
  }

  lemma FailedQuiet(s: State, a: Action)
    requires Inv(s) && Enabled(s, a) && !IssuesExecution(a) && !TouchesRecovery(a)
    ensures FailedOk(Do(s, a))
  {
    hide Do;
    RecoveryQuiet(s, a);
    ExecutionsQuiet(s, a);
    if Do(s, a).cluster.pod.Some? {
      PodFrame(s, a);
    }
    if Do(s, a).controller.Observed? {
      ObservedFrame(s, a);
    }
  }

  /** A Pod is read once in a reconcile. */
  lemma ObservedFrame(s: State, a: Action)
    requires Enabled(s, a) && Do(s, a).controller.Observed?
    ensures if a.Observe? then Do(s, a).cluster == s.cluster && s.cluster.pod == Some(Do(s, a).controller.pod)
      else Do(s, a).controller == s.controller
  {
  }

  /** A Pod keeps its execution, and a terminal Pod stays terminal. */
  lemma PodFrame(s: State, a: Action)
    requires Enabled(s, a) && !IssuesExecution(a) && Do(s, a).cluster.pod.Some?
    ensures s.cluster.pod.Some?
    ensures var p, q := s.cluster.pod.value, Do(s, a).cluster.pod.value;
      q.execution == p.execution && (TerminalPhase(p) ==> TerminalPhase(q))
  {
    if EditsSpec(a) {
      hide Do;
      EditsFrame(s, a);
    } else if PublishesStatus(a) {
      hide Do;
      PodPublished(s, a);
    }
  }

  lemma PodPublished(s: State, a: Action)
    requires Enabled(s, a) && PublishesStatus(a) && !IssuesExecution(a)
    ensures Do(s, a).cluster.pod == s.cluster.pod
      || (s.cluster.pod.Some? && Do(s, a).cluster.pod == Some(s.cluster.pod.value.(terminating := true)))
  {
  }

  lemma FailedTouched(s: State, a: Action)
    requires Inv(s) && Enabled(s, a) && TouchesRecovery(a)
    ensures FailedOk(Do(s, a))
  {
    match a
    case Recover(resume) => FailedRecover(s, resume);
    case ObserveTerminal(resume) => FailedTerminal(s, resume);
    case Sync(observed) =>
  }

  lemma FailedRecover(s: State, resume: bool)
    requires Inv(s)
    ensures FailedOk(DoRecover(s, resume))
  {
  }

  lemma FailedTerminal(s: State, resume: bool)
    requires Inv(s) && s.controller.Observed? && TerminalPhase(s.controller.pod)
    ensures FailedOk(DoTerminal(s, resume))
  {
  }

  lemma FailedIssues(s: State, a: Action)
    requires Inv(s) && Enabled(s, a) && IssuesExecution(a)
    ensures FailedOk(Do(s, a))
  {
    if a.ReserveExecution? {
      ExecutionsReserve(s);
    } else {
      ExecutionsCreate(s, a.outcome);
      assert forall e :: e in s.created ==> e in Do(s, a).created;
    }
  }

  lemma InvStep(s: State, a: Action)
    requires Inv(s) && Enabled(s, a)
    ensures Inv(Do(s, a))
  {
    RequestsStep(s, a);
    ChildrenStep(s, a);
    ExecutionsStep(s, a);
    RecoveryStep(s, a);
    if IssuesExecution(a) {
      FailedIssues(s, a);
    } else if TouchesRecovery(a) {
      FailedTouched(s, a);
    } else {
      FailedQuiet(s, a);
    }
  }

  /** Every state of every run satisfies the invariant. */
  lemma {:induction false} InvAlways(states: seq<State>, actions: seq<Action>, i: nat)
    requires IsRun(states, actions) && i < |states|
    ensures Inv(states[i])
  {
    hide Do;
    if i > 0 {
      InvAlways(states, actions, i - 1);
      InvStep(states[i - 1], actions[i - 1]);
    }
  }
}
