/**
 * What a published connection, a created Pod, a completed fence and a charged
 * replacement tell about the run that led to them.
 */
module EnvironmentConnections {
  import opened Basics
  import opened Lifecycle
  import opened EnvironmentSteps
  import opened EnvironmentRuns
  import opened EnvironmentSafety

  // ---------------------------------------------------------------------
  // The gates before provisioning
  // ---------------------------------------------------------------------

  /** Nothing in the spec asks for suspension, and none is recorded. */
  predicate Clear(env: Environment) {
    && !env.paused && !env.status.lifecycle.suspended && env.spec.suspend.None?
    && (env.spec.hold.Some? ==> !env.spec.hold.value.enabled)
  }

  /** The published wake, if it is for this Environment and policy, has been taken up. */
  predicate WakeAnswered(env: Environment) {
    var revision := if env.spec.hold.Some? then env.spec.hold.value.revision else 0;
    && env.status.lifecycle.observedHoldRevision == revision
    && (env.spec.wake.Some? && env.spec.wake.value.request.uid == env.uid && env.spec.wake.value.request.holdRevision == revision ==>
          env.status.lifecycle.lastWake == env.spec.wake.value.request.id)
  }

  /** A reconcile passes the suspension gate only when everything published has been answered. */
  lemma PastGateIsClear(s: State)
    requires RequestsOk(s) && PastSuspension(s.cluster.env)
    ensures Clear(s.cluster.env) && WakeAnswered(s.cluster.env)
  {
    var env := s.cluster.env;
    var c, l := LifecycleContext(env), env.status.lifecycle;
    SuspendedIff(c, l);
    assert !AcceptsSuspend(c, l);
    WakeTakenIff(c, l);
    DecisionRecords(c, l);
  }

  // ---------------------------------------------------------------------
  // Spec generations
  // ---------------------------------------------------------------------

  lemma SpecStep(s: State, a: Action)
    requires Enabled(s, a)
    ensures var e, f := s.cluster.env, Do(s, a).cluster.env;
      e.generation <= f.generation && (e.generation == f.generation ==> e.spec == f.spec && e.paused == f.paused)
  {
    if EditsSpec(a) {
      hide Do;
      SpecEdited(s, a);
    } else if !PublishesStatus(a) && !DecidesLifecycle(a) {
      hide Do;
      OutsideFrame(s, a);
    }
  }

  lemma SpecEdited(s: State, a: Action)
    requires Enabled(s, a) && EditsSpec(a)
    ensures var e, f := s.cluster.env, Do(s, a).cluster.env;
      f.generation > e.generation || f == e
  {
  }

  lemma {:induction false} SameGenerationSameSpec(states: seq<State>, actions: seq<Action>, i: nat, j: nat)
    requires IsRun(states, actions) && i <= j < |states|
    ensures var e, f := states[i].cluster.env, states[j].cluster.env;
      e.generation <= f.generation && (e.generation == f.generation ==> e.spec == f.spec && e.paused == f.paused)
  {
    hide Do;
    if i < j {
      SameGenerationSameSpec(states, actions, i, j - 1);
      SpecStep(states[j - 1], actions[j - 1]);
    }
  }

  // ---------------------------------------------------------------------
  // What the status says of itself
  // ---------------------------------------------------------------------

  ghost predicate StatusOk(s: State) {
    var st := s.cluster.env.status;
    && (st.ready <==> st.phase == Ready || st.phase == Running)
    && st.observedGeneration <= s.cluster.env.generation
    && (st.endpoint ==> st.podName)
    && (st.phase == Paused ==> !st.podName && !st.endpoint)
    && (forall k :: 0 <= k < |s.created| ==> s.created[k] > 0)
    && (s.controller.Reserved? || s.controller.Checked? ==> s.controller.execution > 0)
  }

  lemma StatusEdited(s: State, a: Action)
    requires StatusOk(s) && Enabled(s, a) && EditsSpec(a)
    ensures StatusOk(Do(s, a))
  {
    EditsFrame(s, a);
  }

  lemma StatusDecided(s: State, a: Action)
    requires Inv(s) && StatusOk(s) && Enabled(s, a) && DecidesLifecycle(a)
    ensures StatusOk(Do(s, a))
  {
  }

  lemma StatusTouched(s: State, a: Action)
    requires Inv(s) && StatusOk(s) && Enabled(s, a) && TouchesRecovery(a)
    ensures StatusOk(Do(s, a))
  {
    match a
    case Recover(resume) => StatusRecovered(s, resume);
    case ObserveTerminal(resume) => StatusTerminal(s, resume);
    case Sync(observed) => StatusSynced(s, observed);
  }

  lemma StatusRecovered(s: State, resume: bool)
    requires StatusOk(s)
    ensures StatusOk(DoRecover(s, resume))
  {
  }

  lemma StatusTerminal(s: State, resume: bool)
    requires StatusOk(s) && s.controller.Observed?
    ensures StatusOk(DoTerminal(s, resume))
  {
  }

  lemma StatusSynced(s: State, observed: Phase)
    requires StatusOk(s) && observed != Paused && observed != Running
    ensures StatusOk(DoSync(s, observed))
  {
  }

  lemma StatusPublished(s: State, a: Action)
    requires Inv(s) && StatusOk(s) && Enabled(s, a) && PublishesStatus(a) && !TouchesRecovery(a)
    ensures StatusOk(Do(s, a))
  {
  }

  lemma StatusOutside(s: State, a: Action)
    requires StatusOk(s) && Enabled(s, a) && !EditsSpec(a) && !DecidesLifecycle(a) && !PublishesStatus(a)
    ensures StatusOk(Do(s, a))
  {
  }

  lemma {:induction false} StatusAlways(states: seq<State>, actions: seq<Action>, i: nat)
    requires IsRun(states, actions) && i < |states|
    ensures StatusOk(states[i])
  {
    hide Do;
    if i > 0 {
      StatusAlways(states, actions, i - 1);
      InvAlways(states, actions, i - 1);
      var s, a := states[i - 1], actions[i - 1];
      if EditsSpec(a) {
        StatusEdited(s, a);
      } else if DecidesLifecycle(a) {
        StatusDecided(s, a);
      } else if TouchesRecovery(a) {
        StatusTouched(s, a);
      } else if PublishesStatus(a) {
        StatusPublished(s, a);
      } else {
        StatusOutside(s, a);
      }
    }
  }

  /** A fenced Environment has no Pod, no credential, no connection and is not ready. */
  lemma FencedMeans(states: seq<State>, actions: seq<Action>, i: nat)
    requires IsRun(states, actions) && i < |states| && Fenced(states[i].cluster.env)
    ensures var c := states[i].cluster;
      && (c.env.paused || c.env.status.lifecycle.suspended)
      && c.pod.None? && !c.credential
      && !c.env.status.podName && !c.env.status.endpoint && !c.env.status.ready
  {
    InvAlways(states, actions, i);
    StatusAlways(states, actions, i);
  }

  // ---------------------------------------------------------------------
  // A created Pod
  // ---------------------------------------------------------------------

  predicate IsCreating(c: Controller) {
    c.Recorded? || c.Rotated? || c.Reserved? || c.Checked?
  }

  lemma CreatingStep(s: State, a: Action)
    requires Enabled(s, a) && IsCreating(Do(s, a).controller)
    ensures var t := Do(s, a);
      if a.Begin? then t.controller.Recorded? && t.controller.seen == s.cluster.env.generation
      else IsCreating(s.controller) && t.controller.seen == s.controller.seen
    ensures Do(s, a).controller.Checked? && !s.controller.Checked? ==>
      && a.Check? && s.cluster.env.generation == s.controller.seen
      && !s.cluster.env.paused && !s.cluster.env.status.lifecycle.suspended
      && (s.cluster.env.spec.hold.Some? ==> !s.cluster.env.spec.hold.value.enabled)
  {
  }

  /** The reconcile creating an execution at `i` began at `b` and has been at it ever since. */
  ghost predicate CreatingSince(states: seq<State>, actions: seq<Action>, b: nat, i: nat)
    requires |states| == |actions| + 1 && b < i < |states|
  {
    && actions[b].Begin?
    && forall m :: b < m <= i ==> IsCreating(states[m].controller) && states[m].controller.seen == states[b].cluster.env.generation
  }

  lemma {:induction false} CreationBegan(states: seq<State>, actions: seq<Action>, i: nat) returns (b: nat)
    requires IsRun(states, actions) && i < |states| && IsCreating(states[i].controller)
    ensures b < i && CreatingSince(states, actions, b, i)
  {
    hide Do;
    CreatingStep(states[i - 1], actions[i - 1]);
    if actions[i - 1].Begin? {
      b := i - 1;
    } else {
      b := CreationBegan(states, actions, i - 1);
    }
  }

  lemma {:induction false} CreationChecked(states: seq<State>, actions: seq<Action>, b: nat, i: nat) returns (k: nat)
    requires IsRun(states, actions) && b < i < |states| && CreatingSince(states, actions, b, i)
    requires states[i].controller.Checked?
    ensures b < k < i && actions[k].Check? && states[k].cluster.env.generation == states[b].cluster.env.generation
    ensures !states[k].cluster.env.status.lifecycle.suspended
  {
    hide Do;
    CreatingStep(states[i - 1], actions[i - 1]);
    if states[i - 1].controller.Checked? {
      assert i - 1 != b by {
        BeginsAtRest(states[b], actions[b]);
      }
      k := CreationChecked(states, actions, b, i - 1);
    } else {
      k := i - 1;
    }
  }

  lemma BeginsAtRest(s: State, a: Action)
    requires Enabled(s, a) && a.Begin?
    ensures s.controller.AtRest? && PastSuspension(s.cluster.env) && s.cluster.pod.None?
  {
  }

  /**
   * A Pod is created only by a reconcile that began, and once more after its
   * identity was reserved confirmed, on one and the same spec, in which
   * nothing asks for suspension and everything published has been answered;
   * throughout there was no other Pod and no suspension.
   */
  lemma CreatedAsDecided(states: seq<State>, actions: seq<Action>, i: nat) returns (b: nat, k: nat)
    requires IsRun(states, actions) && i < |actions| && CreatesPod(states[i], actions[i])
    ensures b < k < i && actions[b].Begin? && actions[k].Check?
    ensures Clear(states[b].cluster.env) && WakeAnswered(states[b].cluster.env) && Clear(states[k].cluster.env)
    ensures states[k].cluster.env.spec == states[b].cluster.env.spec
    ensures forall m :: b <= m <= i ==> states[m].cluster.pod.None? && !states[m].cluster.env.status.lifecycle.suspended
  {
    hide Do;
    b := CreationBegan(states, actions, i);
    k := CreationChecked(states, actions, b, i);
    BeginsAtRest(states[b], actions[b]);
    InvAlways(states, actions, b);
    PastGateIsClear(states[b]);
    SameGenerationSameSpec(states, actions, b, k);
    forall m | b <= m <= i ensures states[m].cluster.pod.None? && !states[m].cluster.env.status.lifecycle.suspended {
      InvAlways(states, actions, m);
    }
  }

  lemma CreatedSinceStep(s: State, a: Action)
    requires Enabled(s, a) && Do(s, a).controller.Created?
    ensures if a.Create? then s.controller.Checked? && Do(s, a).controller.seen == s.controller.seen
      else Do(s, a).controller == s.controller
  {
  }

  lemma {:induction false} CreatedSince(states: seq<State>, actions: seq<Action>, i: nat) returns (b: nat)
    requires IsRun(states, actions) && i < |states| && states[i].controller.Created?
    ensures b < i && actions[b].Begin? && states[i].controller.seen == states[b].cluster.env.generation
  {
    hide Do;
    CreatedSinceStep(states[i - 1], actions[i - 1]);
    if actions[i - 1].Create? {
      b := CreationBegan(states, actions, i - 1);
    } else {
      b := CreatedSince(states, actions, i - 1);
    }
  }

  lemma ConfirmStep(s: State, a: Action)
    requires Inv(s) && Enabled(s, a) && a.Confirm?
    ensures s.controller.Created? && !s.cluster.env.status.lifecycle.suspended
    ensures var t := Do(s, a).cluster;
      && t.env.record.None?
      && (t.pod.Some? && !t.pod.value.terminating ==>
            && s.cluster.pod == t.pod && s.cluster.env.generation == s.controller.seen && !s.cluster.env.paused
            && (s.cluster.env.spec.hold.Some? ==> !s.cluster.env.spec.hold.value.enabled))
  {
  }

  /**
   * A new Pod survives the confirmation of its creation only if the spec is
   * still the one the reconcile began on, with nothing in it asking for
   * suspension; otherwise it is being deleted.
   */
  lemma ConfirmedOrStopped(states: seq<State>, actions: seq<Action>, i: nat) returns (b: nat)
    requires IsRun(states, actions) && i < |actions| && actions[i].Confirm?
    requires states[i + 1].cluster.pod.Some? && !states[i + 1].cluster.pod.value.terminating
    ensures b < i && actions[b].Begin? && states[i].cluster.env.spec == states[b].cluster.env.spec
    ensures Clear(states[i].cluster.env) && states[i + 1].cluster.env.record.None?
  {
    hide Do;
    InvAlways(states, actions, i);
    ConfirmStep(states[i], actions[i]);
    b := CreatedSince(states, actions, i);
    BeginsAtRest(states[b], actions[b]);
    InvAlways(states, actions, b);
    PastGateIsClear(states[b]);
    SameGenerationSameSpec(states, actions, b, i);
  }

  // ---------------------------------------------------------------------
  // A published connection
  // ---------------------------------------------------------------------

  /** The Pod held by the reconcile at `i` was read at `b`, with everything published answered. */
  ghost predicate ReadAt(states: seq<State>, actions: seq<Action>, b: nat, i: nat)
    requires |states| == |actions| + 1 && b < i < |states| && states[i].controller.Observed?
  {
    && actions[b].Observe?
    && states[b].cluster.pod == Some(states[i].controller.pod)
    && states[b].cluster.env.generation == states[i].controller.seen
    && Clear(states[b].cluster.env)
  }

  lemma ObservedStep(s: State, a: Action)
    requires Inv(s) && Enabled(s, a) && Do(s, a).controller.Observed?
    ensures if a.Observe?
      then
        && s.cluster.pod == Some(Do(s, a).controller.pod) && Do(s, a).controller.seen == s.cluster.env.generation
        && Clear(s.cluster.env)
      else Do(s, a).controller == s.controller
  {
    if a.Observe? {
      PastGateIsClear(s);
    }
  }

  lemma {:induction false} PodWasRead(states: seq<State>, actions: seq<Action>, i: nat) returns (b: nat)
    requires IsRun(states, actions) && i < |states| && states[i].controller.Observed?
    ensures b < i && ReadAt(states, actions, b, i)
  {
    hide Do;
    InvAlways(states, actions, i - 1);
    ObservedStep(states[i - 1], actions[i - 1]);
    if actions[i - 1].Observe? {
      b := i - 1;
    } else {
      b := PodWasRead(states, actions, i - 1);
    }
  }

  /** The status publishes a connection of this execution, for the spec as it stands. */
  predicate Live(env: Environment) {
    var st := env.status;
    st.ready && st.endpoint && st.podName && st.observedGeneration == env.generation && !st.lifecycle.suspended
  }

  /** No other published status has a live connection. */
  lemma NotLivePublished(s: State, a: Action)
    requires Inv(s) && StatusOk(s) && Enabled(s, a) && PublishesStatus(a) && !ReadyAt(a) && Live(Do(s, a).cluster.env)
    ensures Do(s, a).cluster.env == s.cluster.env
  {
    match a
    case Recover(resume) => NotLiveRecover(s, resume);
    case ObserveTerminal(resume) => NotLiveTerminal(s, resume);
    case Sync(observed) => NotLiveSync(s, observed);
    case _ =>
  }

  lemma NotLiveSync(s: State, observed: Phase)
    requires observed != Ready && observed != Running
    ensures !Live(DoSync(s, observed).cluster.env)
  {
  }

  lemma NotLiveRecover(s: State, resume: bool)
    requires Live(DoRecover(s, resume).cluster.env)
    ensures DoRecover(s, resume).cluster.env == s.cluster.env
  {
  }

  lemma NotLiveTerminal(s: State, resume: bool)
    requires s.controller.Observed? && Live(DoTerminal(s, resume).cluster.env)
    ensures DoTerminal(s, resume).cluster.env == s.cluster.env
  {
  }

  lemma LiveDecided(s: State, a: Action)
    requires Inv(s) && StatusOk(s) && Enabled(s, a) && DecidesLifecycle(a) && Live(Do(s, a).cluster.env)
    ensures Live(s.cluster.env) && Do(s, a).cluster.env.generation == s.cluster.env.generation
  {
    if a.Intend? && s.cluster.env.status.lifecycle.suspended {
      ReleaseStep(s, a);
    }
  }

  /** Only the observation of a ready Pod makes a connection live. */
  lemma LiveStep(s: State, a: Action)
    requires Inv(s) && StatusOk(s) && Enabled(s, a) && Live(Do(s, a).cluster.env) && !ReadyAt(a)
    ensures Live(s.cluster.env)
    ensures Do(s, a).cluster.env.status.execution == s.cluster.env.status.execution
    ensures Do(s, a).cluster.env.generation == s.cluster.env.generation
  {
    hide Do;
    if EditsSpec(a) {
      EditsFrame(s, a);
      SpecEdited(s, a);
    } else if PublishesStatus(a) {
      NotLivePublished(s, a);
    } else if DecidesLifecycle(a) {
      DecisionFrame(s, a);
      LiveDecided(s, a);
    } else {
      OutsideFrame(s, a);
    }
  }

  lemma {:induction false} LiveSince(states: seq<State>, actions: seq<Action>, i: nat) returns (k: nat)
    requires IsRun(states, actions) && i < |states| && Live(states[i].cluster.env)
    ensures k < i && ReadyAt(actions[k])
    ensures forall m :: k < m <= i ==>
      && Live(states[m].cluster.env)
      && states[m].cluster.env.status.execution == states[i].cluster.env.status.execution
      && states[m].cluster.env.generation == states[i].cluster.env.generation
  {
    hide Do;
    assert i > 0;
    InvAlways(states, actions, i - 1);
    StatusAlways(states, actions, i - 1);
    if ReadyAt(actions[i - 1]) {
      k := i - 1;
    } else {
      LiveStep(states[i - 1], actions[i - 1]);
      k := LiveSince(states, actions, i - 1);
    }
  }

  lemma ReadyStep(s: State, a: Action)
    requires Inv(s) && StatusOk(s) && Enabled(s, a) && ReadyAt(a)
    ensures var e, f := s.cluster.env, Do(s, a).cluster.env;
      && s.controller.Observed? && s.controller.pod.phase == PodRunning(true)
      && s.controller.pod.execution == e.status.execution == f.status.execution > 0
      && s.controller.seen == e.generation == f.generation && e.spec == f.spec && e.paused == f.paused
      && Live(f)
  {
  }

  /**
   * A reachable Environment was found running and ready: the Pod read at `b`
   * is of the execution that is reachable at `i`, its readiness was published
   * at `k`, and ever since the connection stands and nothing was suspended.
   * The spec is the one the Pod was read under, and nothing in it asks for
   * suspension.
   */
  lemma ReachableMeans(states: seq<State>, actions: seq<Action>, i: nat) returns (b: nat, k: nat)
    requires IsRun(states, actions) && i < |states| && Reachable(states[i].cluster.env)
    ensures b < k < i && actions[b].Observe? && actions[k] == Sync(Ready)
    ensures states[b].cluster.pod.Some? && states[b].cluster.pod.value.phase == PodRunning(true)
    ensures states[b].cluster.pod.value.execution == states[i].cluster.env.status.execution > 0
    ensures states[b].cluster.env.spec == states[i].cluster.env.spec && Clear(states[i].cluster.env)
    ensures forall m :: k < m <= i ==>
      && Live(states[m].cluster.env)
      && states[m].cluster.env.status.execution == states[i].cluster.env.status.execution
      && states[m].cluster.env.spec == states[i].cluster.env.spec
  {
    hide Do;
    k := LiveSince(states, actions, i);
    InvAlways(states, actions, k);
    StatusAlways(states, actions, k);
    ReadyStep(states[k], actions[k]);
    assert Live(states[k + 1].cluster.env) && states[k + 1].cluster.env.generation == states[i].cluster.env.generation;
    b := PodWasRead(states, actions, k);
    SameGenerationSameSpec(states, actions, b, i);
    forall m | k < m <= i ensures states[m].cluster.env.spec == states[i].cluster.env.spec {
      SameGenerationSameSpec(states, actions, m, i);
    }
  }

  /** Publishing a ready Pod makes the Environment reachable. */
  lemma ReadyIsReachable(states: seq<State>, actions: seq<Action>, k: nat)
    requires IsRun(states, actions) && k < |actions| && actions[k] == Sync(Ready)
    ensures Reachable(states[k + 1].cluster.env)
  {
    hide Do;
    InvAlways(states, actions, k);
    StatusAlways(states, actions, k);
    ReadyStep(states[k], actions[k]);
    var b := PodWasRead(states, actions, k);
    SameGenerationSameSpec(states, actions, b, k);
  }

  // ---------------------------------------------------------------------
  // A charged replacement
  // ---------------------------------------------------------------------

  lemma RecoveryNames(s: State, a: Action)
    requires Enabled(s, a)
    ensures var r, q := s.cluster.env.status.recovery, Do(s, a).cluster.env.status.recovery;
      || q.execution == r.execution
      || q.execution == 0
      || (a.ObserveTerminal? && s.controller.Observed? && s.controller.pod.execution == q.execution
          && (s.controller.pod.phase == PodFailed || s.controller.pod.phase == PodSucceeded))
  {
    if !TouchesRecovery(a) {
      hide Do;
      RecoveryQuiet(s, a);
    }
  }

  lemma {:induction false} AccountedHasFailed(states: seq<State>, actions: seq<Action>, i: nat) returns (b: nat)
    requires IsRun(states, actions) && i < |states| && states[i].cluster.env.status.recovery.execution > 0
    ensures b < i && states[b].cluster.pod.Some?
    ensures states[b].cluster.pod.value.execution == states[i].cluster.env.status.recovery.execution
    ensures states[b].cluster.pod.value.phase == PodFailed || states[b].cluster.pod.value.phase == PodSucceeded
  {
    hide Do;
    assert i > 0;
    RecoveryNames(states[i - 1], actions[i - 1]);
    if states[i - 1].cluster.env.status.recovery.execution == states[i].cluster.env.status.recovery.execution {
      b := AccountedHasFailed(states, actions, i - 1);
    } else {
      b := PodWasRead(states, actions, i - 1);
    }
  }

  /** A replacement is charged only for an execution whose Pod was found failed, or ended. */
  lemma ChargedHasFailed(states: seq<State>, actions: seq<Action>, i: nat) returns (b: nat)
    requires IsRun(states, actions) && i < |actions| && ChargesAt(states[i], actions[i])
    ensures b < i && states[b].cluster.pod.Some?
    ensures states[b].cluster.pod.value.execution == states[i].cluster.env.status.recovery.execution
    ensures states[b].cluster.pod.value.phase == PodFailed || states[b].cluster.pod.value.phase == PodSucceeded
  {
    InvAlways(states, actions, i);
    b := AccountedHasFailed(states, actions, i);
  }

  // ---------------------------------------------------------------------
  // Pausing runs to its end
  // ---------------------------------------------------------------------

  /** A pass leaves everything but the connection, the children, the phase and the pending request alone. */
  predicate PauseFrame(c: Cluster, d: Cluster) {
    var s, t := c.env.status, d.env.status;
    && d.env.spec == c.env.spec && d.env.generation == c.env.generation && d.env.uid == c.env.uid
    && t.execution == s.execution && t.recovery == s.recovery && t.lifecycle == s.lifecycle.(pending := t.lifecycle.pending)
    && (t.lifecycle.pending == s.lifecycle.pending || t.lifecycle.pending == NoId)
  }

  /** The status was written by the last branch of a pass. */
  predicate PausedHere(env: Environment) {
    env.status.phase == Paused && env.status.observedGeneration == env.generation && !env.status.ready
    && env.status.readyReason == OtherReason
  }

  lemma PausePass(c: Cluster)
    requires c.pod.None?
    ensures var d := PauseStep(c);
      && PauseFrame(c, d) && d.pod.None? && !Connected(d.env)
      && (!Connected(c.env) ==> !d.credential)
      && (!Connected(c.env) && !c.credential ==>
            d.env.status.phase == Paused && (PausedHere(d.env) || d.env.status.lifecycle.pending == NoId))
  {
  }

  lemma PauseEnds(c: Cluster)
    requires c.pod.None? && !Connected(c.env) && !c.credential && c.env.status.phase == Paused
    requires PausedHere(c.env) || c.env.status.lifecycle.pending == NoId
    ensures var d := PauseStep(c); PausedHere(d.env) && d.env.status.lifecycle.pending == NoId && PauseStep(d) == d
  {
  }

  /** Once the Pod is gone, four passes withdraw, revoke, pause and acknowledge, and a further one changes nothing. */
  lemma PauseConverges(c: Cluster)
    requires c.pod.None?
    ensures var d := PauseStep(PauseStep(PauseStep(PauseStep(c))));
      && PauseStep(d) == d && d.pod.None? && !d.credential
      && d.env.status.phase == Paused && d.env.status.lifecycle == c.env.status.lifecycle.(pending := NoId)
      && !d.env.status.podName && !d.env.status.endpoint && !d.env.status.ready
      && d.env.spec == c.env.spec && d.env.generation == c.env.generation
      && d.env.status.execution == c.env.status.execution && d.env.status.recovery == c.env.status.recovery
  {
    hide PauseStep;
    var c1 := PauseStep(c);
    var c2 := PauseStep(c1);
    var c3 := PauseStep(c2);
    PausePass(c);
    PausePass(c1);
    PausePass(c2);
    PausePass(c3);
    PauseEnds(c3);
  }

  // ---------------------------------------------------------------------
  // The legacy pause flag, and requests that are no longer good
  // ---------------------------------------------------------------------

  /**
   * A paused Environment becomes a held one: the flag is cleared, an enabled
   * hold is in place under a revision no older than before, and newer unless
   * it was in place already.  The next decision records it as a hold.
   */
  lemma MigrationHolds(env: Environment, activity: seq<ActivityRequest>, now: nat)
    ensures var e := MigratePaused(env);
      && !e.paused && e.spec.hold.Some? && e.spec.hold.value.enabled && e.generation > env.generation
      && e.spec.wake == env.spec.wake && e.spec.suspend == env.spec.suspend && e.status == env.status
      && (if env.spec.hold.None? then e.spec.hold.value.revision == 1
          else if env.spec.hold.value.enabled then e.spec.hold == env.spec.hold
          else e.spec.hold.value.revision == env.spec.hold.value.revision + 1)
    ensures var l := IntentStep(MigratePaused(env), activity, now).status.lifecycle;
      l.suspended && l.reason == ReasonHold && l.requestId == NoId
  {
  }

  /**
   * With nothing pending a published request is either taken up by the next
   * decision or removed; the request being answered is never removed.  So
   * right after a decision that had nothing pending before, what is published
   * is being answered or removed.
   */
  lemma RequestAnswered(env: Environment, activity: seq<ActivityRequest>, now: nat)
    requires Admitted(env.spec) && env.spec.suspend.Some?
    ensures var r, l := env.spec.suspend.value, env.status.lifecycle;
      && (l.pending == NoId ==> (Discardable(env) <==> !AcceptsSuspend(LifecycleContext(env), l)))
      && (l.pending == r.request.id && l.lastSequence == r.sequence ==> !Discardable(env))
    ensures env.status.lifecycle.pending == NoId ==>
      var e := IntentStep(env, activity, now);
      Discardable(e) != (e.status.lifecycle.pending == env.spec.suspend.value.request.id)
  {
  }

  /**
   * A fence is written exactly under the policy it was computed for, when its
   * sequence was not taken yet and it is ahead of the request published; it
   * then stands in place of that request, in the owner's name.
   */
  lemma FenceWrittenIff(env: Environment, owner: Uid, sequence: nat, revision: nat)
    ensures var e, current := PublishFence(env, owner, sequence, revision), env.spec.suspend;
      var written :=
        && revision == (if env.spec.hold.Some? then env.spec.hold.value.revision else 0)
        && sequence > env.status.lifecycle.lastSequence
        && (current.Some? ==> sequence > current.value.sequence && current.value.request.id != FenceId(owner, sequence));
      && (e != env <==> written)
      && (written ==>
            && e.spec.suspend == Some(SuspendRequest(Request(FenceId(owner, sequence), env.uid, revision), sequence))
            && e.spec.hold == env.spec.hold && e.spec.wake == env.spec.wake && e.paused == env.paused
            && e.generation == env.generation + 1 && e.status == env.status)
  {
  }

  /**
   * A fence computed from the Environment as it stands, with no request
   * published or pending, is written and taken up: the next decision suspends,
   * as requested under the fence's identifier unless a hold comes first.
   */
  lemma FreshFenceSuspends(env: Environment, owner: Uid, activity: seq<ActivityRequest>, now: nat)
    requires env.spec.suspend.None? && env.status.lifecycle.pending == NoId
    requires env.status.lifecycle.lastSuspend.FenceId? ==>
      env.status.lifecycle.lastSuspend.sequence == env.status.lifecycle.lastSequence
    ensures var before := env.status.lifecycle;
      var sequence := FenceSequence(before);
      var e := IntentStep(PublishFence(env, owner, sequence, PolicyRevision(env.spec)), activity, now);
      var l := e.status.lifecycle;
      && l.suspended && l.pending == l.lastSuspend == FenceId(owner, sequence) && l.lastSequence == sequence
      && (sequence == before.epoch + 1 || sequence == before.lastSequence + 1)
      && sequence > before.epoch && sequence > before.lastSequence
      && (!Held(env.spec) ==> l.reason == ReasonRequested && l.requestId == FenceId(owner, sequence))
  {
    var e := PublishFence(env, owner, FenceSequence(env.status.lifecycle), PolicyRevision(env.spec));
    var l := env.status.lifecycle;
    DecisionRecords(LifecycleContext(e), l.(receipts := Consume(LifecycleContext(e), l.receipts, activity)));
  }
}
