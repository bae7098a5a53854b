/**
 * What holds in every run of one Environment: how suspension begins and ends,
 * which requests are taken up, which executions come into being, what an
 * unchanged fence proves, and what recovery may spend.
 */
module EnvironmentSafety {
  import opened Basics
  import opened Lifecycle
  import opened EnvironmentSteps
  import opened EnvironmentRuns

  // ---------------------------------------------------------------------
  // Fence before release
  // ---------------------------------------------------------------------

  lemma ReleaseStep(s: State, a: Action)
    requires Inv(s) && Enabled(s, a)
    requires s.cluster.env.status.lifecycle.suspended && !Do(s, a).cluster.env.status.lifecycle.suspended
    ensures a.Intend? && s.cluster.env.status.phase == Paused && !Held(s.cluster.env.spec)
    ensures s.cluster.env.status.lifecycle.pending == NoId
    ensures var t := Do(s, a).cluster;
      && t.pod == s.cluster.pod && t.credential == s.cluster.credential
      && t.env.spec == s.cluster.env.spec && t.env.status.lifecycle.pending == NoId
  {
  }

  /**
   * Suspension ends only in a lifecycle decision taken when the fenced Pod and
   * its credential are gone, no hold is enabled, and no suspend request is
   * pending or waiting to be accepted.
   */
  lemma FenceBeforeRelease(states: seq<State>, actions: seq<Action>, i: nat)
    requires IsRun(states, actions) && i < |actions|
    requires states[i].cluster.env.status.lifecycle.suspended
    requires !states[i + 1].cluster.env.status.lifecycle.suspended
    ensures var s, t := states[i].cluster, states[i + 1].cluster;
      && s.env.status.phase == Paused
      && s.pod.None? && !s.credential && t.pod.None? && !t.credential
      && !Held(s.env.spec) && s.env.status.lifecycle.pending == NoId
      && t.env.status.lifecycle.pending == NoId && t.env.spec == s.env.spec
  {
    hide Do;
    InvAlways(states, actions, i);
    ReleaseStep(states[i], actions[i]);
  }

  /** A pending suspend request keeps the Environment suspended, and a paused one has no execution. */
  lemma PendingKeepsSuspended(states: seq<State>, actions: seq<Action>, i: nat)
    requires IsRun(states, actions) && i < |states|
    ensures var c := states[i].cluster;
      && (c.env.status.lifecycle.pending != NoId ==> c.env.status.lifecycle.suspended)
      && (c.env.status.phase == Paused ==> c.pod.None? && !c.credential)
  {
    InvAlways(states, actions, i);
  }

  // ---------------------------------------------------------------------
  // Which wake ends which suspension
  // ---------------------------------------------------------------------

  /** The published wake is for this Environment and policy, was not the last one taken, and asks for this reason. */
  predicate WakePublished(env: Environment, reason: Reason) {
    && env.spec.wake.Some?
    && var w := env.spec.wake.value;
       && w.request.uid == env.uid && w.request.holdRevision == (if env.spec.hold.Some? then env.spec.hold.value.revision else 0)
       && w.request.id != env.status.lifecycle.lastWake
       && (w.expected == reason || (reason == ReasonIdle && w.expected == NoReason))
  }

  lemma ReleasedByWake(s: State, a: Action)
    requires Inv(s) && Enabled(s, a)
    requires s.cluster.env.status.lifecycle.suspended && !Do(s, a).cluster.env.status.lifecycle.suspended
    requires s.cluster.env.status.lifecycle.reason != ReasonHold
    ensures WakePublished(s.cluster.env, s.cluster.env.status.lifecycle.reason)
  {
    ReleaseStep(s, a);
    var l := s.cluster.env.status.lifecycle;
    ReleasedIff(LifecycleContext(s.cluster.env), l.(receipts := Consume(LifecycleContext(s.cluster.env), l.receipts, a.activity)));
  }

  /** A decision that takes up a hold, or a request. */
  predicate TakesHold(s: State, a: Action) {
    a.Intend? && s.cluster.env.spec.hold.Some? && s.cluster.env.spec.hold.value.enabled
  }

  lemma ReasonKept(s: State, a: Action)
    requires Inv(s) && Enabled(s, a) && !TakesHold(s, a)
    requires s.cluster.env.status.lifecycle.suspended && Do(s, a).cluster.env.status.lifecycle.suspended
    ensures Do(s, a).cluster.env.status.lifecycle.reason == ReasonRequested || !AcceptsAt(s, a)
    ensures !AcceptsAt(s, a) && s.cluster.env.status.lifecycle.pending == NoId ==>
      Do(s, a).cluster.env.status.lifecycle.reason == s.cluster.env.status.lifecycle.reason
    ensures s.cluster.env.status.lifecycle.reason == ReasonRequested ==>
      Do(s, a).cluster.env.status.lifecycle.reason == ReasonRequested
  {
    if !DecidesLifecycle(a) {
      LifecycleFrame(s, a);
    } else if a.Intend? {
      var l := s.cluster.env.status.lifecycle;
      DecisionRecords(LifecycleContext(s.cluster.env), l.(receipts := Consume(LifecycleContext(s.cluster.env), l.receipts, a.activity)));
    }
  }

  lemma AcceptedAsRequested(s: State, a: Action)
    requires Enabled(s, a) && AcceptsAt(s, a) && !TakesHold(s, a)
    ensures var l := Do(s, a).cluster.env.status.lifecycle;
      && l.suspended && l.reason == ReasonRequested
      && l.requestId == l.pending == s.cluster.env.spec.suspend.value.request.id
  {
    var l := s.cluster.env.status.lifecycle;
    DecisionRecords(LifecycleContext(s.cluster.env), l.(receipts := Consume(LifecycleContext(s.cluster.env), l.receipts, a.activity)));
  }

  /** Suspended all the way from after step `b` to step `i`, with no hold taken up. */
  ghost predicate SuspendedSince(states: seq<State>, actions: seq<Action>, b: nat, i: nat)
    requires |states| == |actions| + 1 && b < i < |states|
  {
    && (forall m :: b < m <= i ==> states[m].cluster.env.status.lifecycle.suspended)
    && (forall m :: b <= m < i ==> !TakesHold(states[m], actions[m]))
  }

  lemma {:induction false} RequestedSince(states: seq<State>, actions: seq<Action>, b: nat, i: nat)
    requires IsRun(states, actions) && b < i < |states|
    requires AcceptsAt(states[b], actions[b]) && SuspendedSince(states, actions, b, i)
    ensures states[i].cluster.env.status.lifecycle.reason == ReasonRequested
  {
    hide Do;
    if i == b + 1 {
      AcceptedAsRequested(states[b], actions[b]);
    } else {
      RequestedSince(states, actions, b, i - 1);
      InvAlways(states, actions, i - 1);
      assert states[i - 1 + 1] == Do(states[i - 1], actions[i - 1]) && states[i].cluster.env.status.lifecycle.suspended;
      ReasonKept(states[i - 1], actions[i - 1]);
    }
  }

  /**
   * A suspension that an accepted request began, and no hold took over, is
   * recorded as requested throughout and ends only by a wake published for
   * just that: an idle wake cannot lift the Run controller's fence.
   */
  lemma RequestedEndsByItsWake(states: seq<State>, actions: seq<Action>, b: nat, i: nat)
    requires IsRun(states, actions) && b < i < |actions|
    requires AcceptsAt(states[b], actions[b]) && SuspendedSince(states, actions, b, i)
    requires !states[i + 1].cluster.env.status.lifecycle.suspended
    ensures states[i].cluster.env.status.lifecycle.reason == ReasonRequested
    ensures actions[i].Intend? && WakePublished(states[i].cluster.env, ReasonRequested)
  {
    hide Do;
    RequestedSince(states, actions, b, i);
    InvAlways(states, actions, i);
    ReleaseStep(states[i], actions[i]);
    ReleasedByWake(states[i], actions[i]);
  }

  /** The step suspends an Environment for not being used. */
  predicate GoesIdleAt(s: State, t: State, a: Action) {
    a.GoIdle? && !s.cluster.env.status.lifecycle.suspended && t.cluster.env.status.lifecycle.suspended
  }

  lemma IdleStarts(s: State, a: Action)
    requires Inv(s) && Enabled(s, a) && GoesIdleAt(s, Do(s, a), a)
    ensures Do(s, a).cluster.env.status.lifecycle.reason == ReasonIdle && Do(s, a).cluster.env.status.lifecycle.pending == NoId
  {
  }

  lemma {:induction false} IdleSince(states: seq<State>, actions: seq<Action>, b: nat, i: nat)
    requires IsRun(states, actions) && b < i < |states|
    requires GoesIdleAt(states[b], states[b + 1], actions[b]) && SuspendedSince(states, actions, b, i)
    requires forall m :: b < m < i ==> !AcceptsAt(states[m], actions[m])
    ensures states[i].cluster.env.status.lifecycle.reason == ReasonIdle && states[i].cluster.env.status.lifecycle.pending == NoId
  {
    hide Do;
    if i == b + 1 {
      InvAlways(states, actions, b);
      IdleStarts(states[b], actions[b]);
    } else {
      IdleSince(states, actions, b, i - 1);
      InvAlways(states, actions, i - 1);
      assert states[i - 1 + 1] == Do(states[i - 1], actions[i - 1]) && states[i].cluster.env.status.lifecycle.suspended;
      ReasonKept(states[i - 1], actions[i - 1]);
      PendingStays(states[i - 1], actions[i - 1]);
    }
  }

  lemma PendingStays(s: State, a: Action)
    requires Enabled(s, a) && !AcceptsAt(s, a) && s.cluster.env.status.lifecycle.pending == NoId
    ensures Do(s, a).cluster.env.status.lifecycle.pending == NoId
  {
    if !a.Intend? {
      hide Do;
      NothingPending(s, a);
    } else {
      var l := s.cluster.env.status.lifecycle;
      DecisionRecords(LifecycleContext(s.cluster.env), l.(receipts := Consume(LifecycleContext(s.cluster.env), l.receipts, a.activity)));
    }
  }

  /** A suspension for not being used, that no hold or request took over, ends only by a wake published for idleness. */
  lemma IdleEndsByItsWake(states: seq<State>, actions: seq<Action>, b: nat, i: nat)
    requires IsRun(states, actions) && b < i < |actions|
    requires GoesIdleAt(states[b], states[b + 1], actions[b]) && SuspendedSince(states, actions, b, i)
    requires forall m :: b < m < i ==> !AcceptsAt(states[m], actions[m])
    requires !states[i + 1].cluster.env.status.lifecycle.suspended
    ensures actions[i].Intend? && WakePublished(states[i].cluster.env, ReasonIdle)
  {
    hide Do;
    IdleSince(states, actions, b, i);
    InvAlways(states, actions, i);
    ReleaseStep(states[i], actions[i]);
    ReleasedByWake(states[i], actions[i]);
  }

  // ---------------------------------------------------------------------
  // Suspend requests
  // ---------------------------------------------------------------------

  /** Step `i` of the run takes up the published suspend request. */
  predicate AcceptsAt(s: State, a: Action) {
    a.Intend? && AcceptsSuspend(LifecycleContext(s.cluster.env), s.cluster.env.status.lifecycle)
  }

  lemma SequenceStep(s: State, a: Action)
    requires Enabled(s, a)
    ensures Do(s, a).cluster.env.status.lifecycle.lastSequence >= s.cluster.env.status.lifecycle.lastSequence
    ensures AcceptsAt(s, a) ==>
      Do(s, a).cluster.env.status.lifecycle.lastSequence == s.cluster.env.spec.suspend.value.sequence
      > s.cluster.env.status.lifecycle.lastSequence
  {
    if !DecidesLifecycle(a) {
      LifecycleFrame(s, a);
    }
  }

  lemma {:induction false} SequenceMonotone(states: seq<State>, actions: seq<Action>, i: nat, j: nat)
    requires IsRun(states, actions) && i <= j < |states|
    ensures states[i].cluster.env.status.lifecycle.lastSequence <= states[j].cluster.env.status.lifecycle.lastSequence
  {
    hide Do;
    if i < j {
      SequenceMonotone(states, actions, i, j - 1);
      SequenceStep(states[j - 1], actions[j - 1]);
    }
  }

  /** Accepted sequences strictly increase, so no request is accepted twice. */
  lemma AcceptedOnce(states: seq<State>, actions: seq<Action>, i: nat, j: nat)
    requires IsRun(states, actions) && i < j < |actions|
    requires AcceptsAt(states[i], actions[i]) && AcceptsAt(states[j], actions[j])
    ensures states[i].cluster.env.spec.suspend.value.sequence < states[j].cluster.env.spec.suspend.value.sequence
  {
    hide Do;
    SequenceStep(states[i], actions[i]);
    SequenceMonotone(states, actions, i + 1, j);
  }

  /** A published request that the next lifecycle decision will accept. */
  predicate Waiting(env: Environment, r: SuspendRequest) {
    && env.spec.suspend == Some(r)
    && AcceptsSuspend(LifecycleContext(env), env.status.lifecycle)
  }

  /** A step that answers a published request, replaces it, or changes the policy it was published under. */
  predicate Supersedes(s: State, a: Action)
    requires Enabled(s, a)
  {
    || a.Intend?
    || Do(s, a).cluster.env.spec.hold != s.cluster.env.spec.hold
    || (!a.Discard? && Do(s, a).cluster.env.spec.suspend != s.cluster.env.spec.suspend)
  }

  /** A fence request that was written, and was not a repetition without effect. */
  predicate WritesFence(s: State, a: Action)
    requires Enabled(s, a)
  {
    a.Fence? && Do(s, a).cluster.env.spec != s.cluster.env.spec
  }

  lemma PublishedFenceWaits(s: State, a: Action)
    requires Inv(s) && Enabled(s, a) && WritesFence(s, a) && s.cluster.env.status.lifecycle.pending == NoId
    ensures var env := Do(s, a).cluster.env;
      var sequence := FenceSequence(a.read.status.lifecycle);
      && env.spec.suspend.Some? && Waiting(env, env.spec.suspend.value)
      && env.spec.suspend.value.request.id == FenceId(a.owner, sequence) && env.spec.suspend.value.sequence == sequence
  {
  }

  lemma WaitingKept(s: State, a: Action, r: SuspendRequest)
    requires Inv(s) && Enabled(s, a) && Waiting(s.cluster.env, r) && !Supersedes(s, a)
    ensures !a.Discard? && Waiting(Do(s, a).cluster.env, r)
  {
    LifecycleFrame(s, a);
    if EditsSpec(a) {
      EditsFrame(s, a);
    }
  }

  lemma {:induction false} WaitingUntil(states: seq<State>, actions: seq<Action>, i: nat, j: nat, r: SuspendRequest)
    requires IsRun(states, actions) && i <= j < |states|
    requires Waiting(states[i].cluster.env, r) && forall k :: i <= k < j ==> !Supersedes(states[k], actions[k])
    ensures Waiting(states[j].cluster.env, r) && forall k :: i <= k < j ==> !actions[k].Discard?
  {
    hide Do, Supersedes;
    if i < j {
      WaitingUntil(states, actions, i, j - 1, r);
      InvAlways(states, actions, j - 1);
      WaitingKept(states[j - 1], actions[j - 1], r);
    }
  }

  /** The decision at step `j` takes up the fence written at step `i`. */
  predicate Accepted(states: seq<State>, actions: seq<Action>, i: nat, j: nat)
    requires i < |actions| && j < |actions| < |states| && actions[i].Fence?
  {
    var l := states[j + 1].cluster.env.status.lifecycle;
    && l.suspended
    && l.pending == FenceId(actions[i].owner, l.lastSequence)
    && l.lastSequence == FenceSequence(actions[i].read.status.lifecycle)
  }

  lemma WaitingAccepted(s: State, a: Action, r: SuspendRequest)
    requires Enabled(s, a) && a.Intend? && Waiting(s.cluster.env, r)
    ensures var l := Do(s, a).cluster.env.status.lifecycle;
      l.suspended && l.pending == r.request.id && l.lastSequence == r.sequence
  {
  }

  /**
   * A fence the Run controller writes while no suspension is pending, however
   * stale the read it was computed from, is never discarded as a replay, and
   * the next lifecycle decision accepts it, unless a step in between changes
   * the hold policy or replaces the request.  Repeating the request, and any
   * other edit of the spec, changes nothing of this.
   */
  lemma FenceAccepted(states: seq<State>, actions: seq<Action>, i: nat, j: nat)
    requires IsRun(states, actions) && i < j < |actions|
    requires WritesFence(states[i], actions[i]) && states[i].cluster.env.status.lifecycle.pending == NoId
    requires actions[j].Intend? && forall k :: i < k < j ==> !Supersedes(states[k], actions[k])
    ensures forall k :: i < k < j ==> !actions[k].Discard?
    ensures Accepted(states, actions, i, j)
  {
    hide Do, Supersedes, WritesFence;
    InvAlways(states, actions, i);
    PublishedFenceWaits(states[i], actions[i]);
    var r := states[i + 1].cluster.env.spec.suspend.value;
    WaitingUntil(states, actions, i + 1, j, r);
    WaitingAccepted(states[j], actions[j], r);
  }

  /** A step that leaves the policy alone and touches the request only by a fence, or by discarding it. */
  predicate FencesOnly(s: State, a: Action)
    requires Enabled(s, a)
  {
    && !a.Intend?
    && Do(s, a).cluster.env.spec.hold == s.cluster.env.spec.hold
    && (a.Fence? || a.Discard? || Do(s, a).cluster.env.spec.suspend == s.cluster.env.spec.suspend)
  }

  lemma FencesOnlyMeans(s: State, a: Action)
    requires Enabled(s, a) && FencesOnly(s, a)
    ensures WritesFence(s, a) || !Supersedes(s, a)
  {
  }

  lemma NothingPending(s: State, a: Action)
    requires Enabled(s, a) && !a.Intend? && s.cluster.env.status.lifecycle.pending == NoId
    ensures Do(s, a).cluster.env.status.lifecycle.pending == NoId
  {
    if !DecidesLifecycle(a) {
      LifecycleFrame(s, a);
    }
  }

  /** The last fence written up to `j`, with nothing superseding it after. */
  lemma {:induction false} NewestFence(states: seq<State>, actions: seq<Action>, i: nat, j: nat) returns (m: nat)
    requires IsRun(states, actions) && i < j < |actions|
    requires WritesFence(states[i], actions[i]) && states[i].cluster.env.status.lifecycle.pending == NoId
    requires forall k :: i < k < j ==> FencesOnly(states[k], actions[k])
    ensures i <= m < j && WritesFence(states[m], actions[m])
    ensures forall k :: m < k < j ==> !Supersedes(states[k], actions[k])
    ensures forall k :: m < k < j ==> !WritesFence(states[k], actions[k])
    ensures states[m].cluster.env.status.lifecycle.pending == NoId && states[j].cluster.env.status.lifecycle.pending == NoId
  {
    hide Do, Supersedes, WritesFence, FencesOnly;
    if j == i + 1 {
      m := i;
      assert actions[i].Fence? by {
        FenceIsFence(states[i], actions[i]);
      }
      NothingPending(states[i], actions[i]);
    } else {
      m := NewestFence(states, actions, i, j - 1);
      var s, a := states[j - 1], actions[j - 1];
      FencesOnlyMeans(s, a);
      NotIntend(s, a);
      NothingPending(s, a);
      if WritesFence(s, a) {
        m := j - 1;
      }
    }
  }

  lemma FenceIsFence(s: State, a: Action)
    requires Enabled(s, a) && WritesFence(s, a)
    ensures a.Fence?
  {
  }

  lemma NotIntend(s: State, a: Action)
    requires Enabled(s, a) && FencesOnly(s, a)
    ensures !a.Intend?
  {
  }

  /**
   * However many fences follow the first before the next decision, from
   * whatever reads and whoever owns them, that decision accepts the one
   * written last.
   */
  lemma NewestFenceAccepted(states: seq<State>, actions: seq<Action>, i: nat, j: nat) returns (m: nat)
    requires IsRun(states, actions) && i < j < |actions|
    requires WritesFence(states[i], actions[i]) && states[i].cluster.env.status.lifecycle.pending == NoId
    requires actions[j].Intend? && forall k :: i < k < j ==> FencesOnly(states[k], actions[k])
    ensures i <= m < j && WritesFence(states[m], actions[m])
    ensures forall k :: m < k < j ==> !WritesFence(states[k], actions[k])
    ensures Accepted(states, actions, m, j)
  {
    hide Do, Supersedes, FencesOnly, Accepted;
    m := NewestFence(states, actions, i, j);
    FenceAccepted(states, actions, m, j);
  }

  // ---------------------------------------------------------------------
  // Wakes
  // ---------------------------------------------------------------------

  /** Step `i` of the run takes up the published wake. */
  predicate TakesWake(s: State, a: Action) {
    a.Intend? && ConsumesWake(LifecycleContext(s.cluster.env), s.cluster.env.status.lifecycle)
  }

  lemma WakeStep(s: State, a: Action)
    requires Enabled(s, a)
    ensures TakesWake(s, a) ==>
      && s.cluster.env.spec.wake.Some? && s.cluster.env.spec.wake.value.request.id != s.cluster.env.status.lifecycle.lastWake
      && Do(s, a).cluster.env.status.lifecycle.lastWake == s.cluster.env.spec.wake.value.request.id
    ensures !TakesWake(s, a) ==> Do(s, a).cluster.env.status.lifecycle.lastWake == s.cluster.env.status.lifecycle.lastWake
  {
    hide Do;
    if a.Intend? {
      WakeDecided(s, a);
    } else if DecidesLifecycle(a) {
      WakeKept(s, a);
    } else {
      LifecycleFrame(s, a);
    }
  }

  lemma WakeDecided(s: State, a: Action)
    requires Enabled(s, a) && a.Intend?
    ensures Do(s, a).cluster.env.status.lifecycle.lastWake ==
      if TakesWake(s, a) then s.cluster.env.spec.wake.value.request.id else s.cluster.env.status.lifecycle.lastWake
  {
  }

  lemma WakeKept(s: State, a: Action)
    requires Enabled(s, a) && (a.Pause? || a.GoIdle?)
    ensures Do(s, a).cluster.env.status.lifecycle.lastWake == s.cluster.env.status.lifecycle.lastWake
  {
  }

  lemma {:induction false} LastWakeKept(states: seq<State>, actions: seq<Action>, i: nat, j: nat, id: RequestId)
    requires IsRun(states, actions) && i <= j < |states| && states[i].cluster.env.status.lifecycle.lastWake == id
    requires forall k :: i <= k < j && TakesWake(states[k], actions[k]) ==> states[k].cluster.env.spec.wake.value.request.id == id
    ensures states[j].cluster.env.status.lifecycle.lastWake == id
  {
    hide Do;
    if i < j {
      LastWakeKept(states, actions, i, j - 1, id);
      WakeStep(states[j - 1], actions[j - 1]);
    }
  }

  /** One wake is taken a second time only if another was taken in between. */
  lemma WakeTakenAgain(states: seq<State>, actions: seq<Action>, i: nat, j: nat)
    requires IsRun(states, actions) && i < j < |actions|
    requires TakesWake(states[i], actions[i]) && TakesWake(states[j], actions[j])
    requires states[i].cluster.env.spec.wake.value.request.id == states[j].cluster.env.spec.wake.value.request.id
    ensures exists k ::
      && i < k < j && TakesWake(states[k], actions[k])
      && states[k].cluster.env.spec.wake.value.request.id != states[i].cluster.env.spec.wake.value.request.id
  {
    hide Do;
    WakeStep(states[i], actions[i]);
    WakeStep(states[j], actions[j]);
    var id := states[i].cluster.env.spec.wake.value.request.id;
    if forall k :: i < k < j && TakesWake(states[k], actions[k]) ==> states[k].cluster.env.spec.wake.value.request.id == id {
      LastWakeKept(states, actions, i + 1, j, id);
    }
  }

  // ---------------------------------------------------------------------
  // Execution identities
  // ---------------------------------------------------------------------

  /** Step `i` of the run brings a Pod into being. */
  predicate CreatesPod(s: State, a: Action) {
    a.Create? && s.controller.Checked? && s.cluster.pod.None? && !a.outcome.NotApplied?
  }

  lemma CreatedStep(s: State, a: Action)
    requires Inv(s) && Enabled(s, a)
    ensures s.cluster.env.status.execution <= Do(s, a).cluster.env.status.execution
    ensures s.created <= Do(s, a).created
    ensures CreatesPod(s, a) ==> Do(s, a).created == s.created + [s.controller.execution]
    ensures !CreatesPod(s, a) ==> Do(s, a).created == s.created
  {
    if !IssuesExecution(a) {
      ExecutionsQuiet(s, a);
    }
  }

  lemma {:induction false} CreatedMonotone(states: seq<State>, actions: seq<Action>, i: nat, j: nat)
    requires IsRun(states, actions) && i <= j < |states|
    ensures states[i].created <= states[j].created
    ensures states[i].cluster.env.status.execution <= states[j].cluster.env.status.execution
  {
    hide Do;
    if i < j {
      CreatedMonotone(states, actions, i, j - 1);
      InvAlways(states, actions, j - 1);
      CreatedStep(states[j - 1], actions[j - 1]);
    }
  }

  /** No two Pods ever carry the same execution: later Pods carry greater ones. */
  lemma ExecutionsNeverReused(states: seq<State>, actions: seq<Action>, i: nat, j: nat)
    requires IsRun(states, actions) && i < j < |actions|
    requires CreatesPod(states[i], actions[i]) && CreatesPod(states[j], actions[j])
    ensures states[i].controller.execution < states[j].controller.execution
  {
    hide Do;
    InvAlways(states, actions, i);
    InvAlways(states, actions, j + 1);
    CreatedStep(states[i], actions[i]);
    InvAlways(states, actions, j);
    CreatedStep(states[j], actions[j]);
    CreatedMonotone(states, actions, i + 1, j);
    var m, n := |states[i].created|, |states[j].created|;
    assert states[j + 1].created[m] == states[i + 1].created[m] == states[i].controller.execution;
    assert states[j + 1].created[n] == states[j].controller.execution;
  }

  /** The branch that would use the current execution again is never taken. */
  lemma ReuseUnreachable(states: seq<State>, actions: seq<Action>, i: nat)
    requires IsRun(states, actions) && i < |actions| && actions[i].ReserveExecution?
    ensures states[i].controller.record.Some? ==>
      states[i].controller.record.value.execution == states[i].cluster.env.status.execution + 1
    ensures states[i + 1].controller.Reserved? ==>
      states[i + 1].controller.execution == states[i].cluster.env.status.execution + 1
  {
    InvAlways(states, actions, i);
  }

  // ---------------------------------------------------------------------
  // The execution fence has no ABA
  // ---------------------------------------------------------------------

  datatype ExecutionFence = ExecutionFence(uid: Uid, execution: nat, epoch: nat, holdRevision: nat)

  function CaptureFence(env: Environment): ExecutionFence {
    ExecutionFence(env.uid, env.status.execution, env.status.lifecycle.epoch, PolicyRevision(env.spec))
  }

  predicate ValidFence(f: ExecutionFence, env: Environment) {
    f.execution >= 1 && CaptureFence(env) == f
  }

  /** The epoch rises by exactly one on entering suspension and never otherwise. */
  lemma EpochStep(s: State, a: Action)
    requires Enabled(s, a)
    ensures var l, m := s.cluster.env.status.lifecycle, Do(s, a).cluster.env.status.lifecycle;
      m.epoch == if m.suspended && !l.suspended then l.epoch + 1 else l.epoch
  {
    hide Do;
    LifecycleFrame(s, a);
    if DecidesLifecycle(a) {
      DecisionFrame(s, a);
    }
  }

  /** A hold revision names one policy. */
  lemma HoldStep(s: State, a: Action)
    requires Inv(s) && Enabled(s, a)
    ensures var p, q := s.cluster.env.spec, Do(s, a).cluster.env.spec;
      PolicyRevision(p) <= PolicyRevision(q) && (PolicyRevision(p) == PolicyRevision(q) ==> p.hold == q.hold)
  {
    if !EditsSpec(a) {
      LifecycleFrame(s, a);
    }
  }

  lemma {:induction false} FenceMonotone(states: seq<State>, actions: seq<Action>, i: nat, j: nat)
    requires IsRun(states, actions) && i <= j < |states|
    ensures var l, m := states[i].cluster.env.status.lifecycle, states[j].cluster.env.status.lifecycle;
      l.epoch <= m.epoch && (l.epoch == m.epoch && !l.suspended ==> !m.suspended)
    ensures var p, q := states[i].cluster.env.spec, states[j].cluster.env.spec;
      PolicyRevision(p) <= PolicyRevision(q) && (PolicyRevision(p) == PolicyRevision(q) ==> p.hold == q.hold)
  {
    hide Do;
    if i < j {
      FenceMonotone(states, actions, i, j - 1);
      InvAlways(states, actions, j - 1);
      EpochStep(states[j - 1], actions[j - 1]);
      HoldStep(states[j - 1], actions[j - 1]);
    }
  }

  lemma {:induction false} Gap(xs: seq<nat>, i: nat, j: nat)
    requires Increasing(xs) && i <= j < |xs|
    ensures xs[i] + (j - i) <= xs[j]
  {
    if i < j {
      Gap(xs, i, j - 1);
    }
  }

  lemma SameExecutionCreatesNothing(states: seq<State>, actions: seq<Action>, i: nat, j: nat)
    requires IsRun(states, actions) && i <= j < |states|
    requires states[i].cluster.env.status.podName
    requires states[i].cluster.env.status.execution == states[j].cluster.env.status.execution
    ensures states[i].created == states[j].created
  {
    InvAlways(states, actions, i);
    InvAlways(states, actions, j);
    CreatedMonotone(states, actions, i, j);
    var a, b := states[i].created, states[j].created;
    var k :| 0 <= k < |a| && a[k] == states[i].cluster.env.status.execution;
    Gap(b, k, |b| - 1);
  }

  /**
   * A fence captured from a reachable Environment before an adapter call and
   * still valid on a reachable Environment after it proves that throughout the
   * call the Environment was never suspended, its execution was never
   * replaced, no Pod was created, and the hold policy did not change.
   */
  lemma FenceHasNoAba(states: seq<State>, actions: seq<Action>, i: nat, k: nat, j: nat)
    requires IsRun(states, actions) && i <= k <= j < |states|
    requires Reachable(states[i].cluster.env) && Reachable(states[j].cluster.env)
    requires ValidFence(CaptureFence(states[i].cluster.env), states[j].cluster.env)
    ensures !states[k].cluster.env.status.lifecycle.suspended
    ensures ValidFence(CaptureFence(states[i].cluster.env), states[k].cluster.env)
    ensures states[k].created == states[i].created
    ensures states[k].cluster.env.spec.hold == states[i].cluster.env.spec.hold
  {
    FenceMonotone(states, actions, i, k);
    FenceMonotone(states, actions, k, j);
    CreatedMonotone(states, actions, i, k);
    CreatedMonotone(states, actions, k, j);
    UidFixed(states, actions, i, k);
    SameExecutionCreatesNothing(states, actions, i, k);
  }

  lemma {:induction false} UidFixed(states: seq<State>, actions: seq<Action>, i: nat, j: nat)
    requires IsRun(states, actions) && i <= j < |states|
    ensures states[i].cluster.env.uid == states[j].cluster.env.uid
  {
    hide Do;
    if i < j {
      UidFixed(states, actions, i, j - 1);
      UidStep(states[j - 1], actions[j - 1]);
    }
  }

  lemma UidStep(s: State, a: Action)
    requires Enabled(s, a)
    ensures Do(s, a).cluster.env.uid == s.cluster.env.uid
  {
    hide Do;
    LifecycleFrame(s, a);
  }

  // ---------------------------------------------------------------------
  // The recovery budget
  // ---------------------------------------------------------------------

  predicate ChargesAt(s: State, a: Action) {
    a.Recover? && Charges(s.cluster.env, s.now)
  }

  predicate ReadyAt(a: Action) {
    a.Sync? && a.observed == Ready
  }

  ghost function ChargeCount(states: seq<State>, actions: seq<Action>, i: nat, j: nat): nat
    requires |states| == |actions| + 1 && i <= j < |states|
  {
    if i == j then 0
    else ChargeCount(states, actions, i, j - 1) + if ChargesAt(states[j - 1], actions[j - 1]) then 1 else 0
  }

  lemma AttemptsStep(s: State, a: Action)
    requires Inv(s) && Enabled(s, a) && !ReadyAt(a)
    ensures Do(s, a).cluster.env.status.recovery.attempts
      == s.cluster.env.status.recovery.attempts + if ChargesAt(s, a) then 1 else 0
  {
    if !TouchesRecovery(a) {
      RecoveryQuiet(s, a);
    }
  }

  lemma {:induction false} AttemptsCount(states: seq<State>, actions: seq<Action>, i: nat, j: nat)
    requires IsRun(states, actions) && i <= j < |states|
    requires forall k :: i <= k < j ==> !ReadyAt(actions[k])
    ensures states[j].cluster.env.status.recovery.attempts
      == states[i].cluster.env.status.recovery.attempts + ChargeCount(states, actions, i, j)
  {
    hide Do;
    if i < j {
      AttemptsCount(states, actions, i, j - 1);
      InvAlways(states, actions, j - 1);
      AttemptsStep(states[j - 1], actions[j - 1]);
    }
  }

  /** Between two observations of readiness at most three replacements are charged. */
  lemma RecoveryBudget(states: seq<State>, actions: seq<Action>, i: nat, j: nat)
    requires IsRun(states, actions) && i <= j < |states|
    requires forall k :: i <= k < j ==> !ReadyAt(actions[k])
    ensures ChargeCount(states, actions, i, j) <= RECOVERY_LIMIT
  {
    AttemptsCount(states, actions, i, j);
    InvAlways(states, actions, j);
  }

  lemma ChargedStep(s: State, a: Action)
    requires Inv(s) && Enabled(s, a)
    ensures Do(s, a).charged >= s.charged
    ensures ChargesAt(s, a) ==> s.charged < s.cluster.env.status.recovery.execution == Do(s, a).charged
  {
    if !TouchesRecovery(a) {
      RecoveryQuiet(s, a);
    }
  }

  lemma {:induction false} ChargedMonotone(states: seq<State>, actions: seq<Action>, i: nat, j: nat)
    requires IsRun(states, actions) && i <= j < |states|
    ensures states[i].charged <= states[j].charged
  {
    hide Do;
    if i < j {
      ChargedMonotone(states, actions, i, j - 1);
      InvAlways(states, actions, j - 1);
      ChargedStep(states[j - 1], actions[j - 1]);
    }
  }

  /** Over a whole run each failed execution is charged at most once, even across readiness. */
  lemma ChargedOnce(states: seq<State>, actions: seq<Action>, i: nat, j: nat)
    requires IsRun(states, actions) && i < j < |actions|
    requires ChargesAt(states[i], actions[i]) && ChargesAt(states[j], actions[j])
    ensures states[i].cluster.env.status.recovery.execution < states[j].cluster.env.status.recovery.execution
  {
    hide Do;
    InvAlways(states, actions, i);
    ChargedStep(states[i], actions[i]);
    ChargedMonotone(states, actions, i + 1, j);
    InvAlways(states, actions, j);
    ChargedStep(states[j], actions[j]);
  }

  /** Each charge since readiness waited out its own backoff: 5, 10, then 20 seconds. */
  lemma ChargesWaitedOut(states: seq<State>, actions: seq<Action>, i: nat)
    requires IsRun(states, actions) && i < |states|
    ensures forall k :: 0 <= k < |states[i].charges| ==>
      states[i].charges[k].chargedAt >= states[i].charges[k].scheduledAt + Backoff(k)
    ensures Backoff(0) == 5 && Backoff(1) == 10 && Backoff(2) == 20
  {
    InvAlways(states, actions, i);
    assert Pow2(2) == 2 * Pow2(1) && Pow2(1) == 2 * Pow2(0);
  }

  lemma ExhaustedStep(s: State, a: Action)
    requires Inv(s) && Enabled(s, a) && s.cluster.env.status.recovery.exhausted
    ensures Do(s, a).cluster.env.status.recovery.exhausted && !CreatesPod(s, a)
  {
    if !TouchesRecovery(a) {
      RecoveryQuiet(s, a);
    }
  }

  /** Once exhausted, recovery stays exhausted and no later step creates a Pod. */
  lemma {:induction false} ExhaustedIsFinal(states: seq<State>, actions: seq<Action>, i: nat, j: nat)
    requires IsRun(states, actions) && i <= j < |states|
    requires states[i].cluster.env.status.recovery.exhausted
    ensures states[j].cluster.env.status.recovery.exhausted
    ensures j < |actions| ==> !CreatesPod(states[j], actions[j])
  {
    hide Do;
    if i < j {
      ExhaustedIsFinal(states, actions, i, j - 1);
      InvAlways(states, actions, j - 1);
      ExhaustedStep(states[j - 1], actions[j - 1]);
    }
    InvAlways(states, actions, j);
  }

  lemma DeletionStep(s: State, a: Action)
    requires Inv(s) && Enabled(s, a) && a.ObserveTerminal? && Do(s, a).cluster.pod != s.cluster.pod
    ensures s.cluster.pod.Some? && s.cluster.pod.value.execution == s.charged
  {
  }

  /** Recovery deletes a Pod only after the replacement of that very execution was charged. */
  lemma DeletedAfterCharge(states: seq<State>, actions: seq<Action>, i: nat)
    requires IsRun(states, actions) && i < |actions| && actions[i].ObserveTerminal?
    requires states[i + 1].cluster.pod != states[i].cluster.pod
    ensures states[i].cluster.pod.Some? && states[i].cluster.pod.value.execution == states[i].charged
  {
    hide Do;
    InvAlways(states, actions, i);
    DeletionStep(states[i], actions[i]);
  }
}
