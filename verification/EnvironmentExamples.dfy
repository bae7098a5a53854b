/**
 * Runs of one Environment in which a plausible claim about requests fails.
 * Each is built for every new Environment and every choice of identifiers.
 */
module EnvironmentExamples {
  import opened Basics
  import opened Lifecycle
  import opened EnvironmentSteps
  import opened EnvironmentRuns

  /** `trace` leads from `s` to `t`. */
  ghost predicate Leads(s: State, trace: seq<Action>, t: State)
    decreases |trace|
  {
    if trace == [] then s == t else Enabled(s, trace[0]) && Leads(Do(s, trace[0]), trace[1..], t)
  }

  lemma {:induction false} Joined(s: State, first: seq<Action>, t: State, second: seq<Action>, u: State)
    requires Leads(s, first, t) && Leads(t, second, u)
    ensures Leads(s, first + second, u)
    decreases |first|
  {
    hide Do, Enabled;
    if first == [] {
      assert first + second == second;
    } else {
      Joined(Do(s, first[0]), first[1..], t, second, u);
      assert (first + second)[1..] == first[1..] + second;
    }
  }

  /** One more step at the end. */
  lemma Then(s: State, trace: seq<Action>, t: State, a: Action)
    requires Leads(s, trace, t) && Enabled(t, a)
    ensures Leads(s, trace + [a], Do(t, a))
  {
    hide Do, Enabled;
    assert Leads(t, [a], Do(t, a)) by {
      assert [a][1..] == [];
    }
    Joined(s, trace, t, [a], Do(t, a));
  }

  lemma Nothing(s: State) returns (trace: seq<Action>, t: State)
    ensures trace == [] && t == s && Leads(s, trace, t)
  {
    trace, t := [], s;
  }

  lemma Step(s: State, trace: seq<Action>, t: State, a: Action) returns (more: seq<Action>, u: State)
    requires Leads(s, trace, t) && Enabled(t, a)
    ensures more == trace + [a] && u == Do(t, a) && Leads(s, more, u)
  {
    Then(s, trace, t, a);
    more, u := trace + [a], Do(t, a);
  }

  /** A trace from an initial state is a run. */
  lemma {:induction false} IsARun(states: seq<State>, done: seq<Action>, trace: seq<Action>, t: State) returns (all: seq<State>)
    requires IsRun(states, done) && Leads(states[|done|], trace, t)
    ensures IsRun(all, done + trace) && all[|done + trace|] == t && states <= all
    decreases |trace|
  {
    hide Do, Enabled, Initial;
    if trace == [] {
      assert done + trace == done;
      all := states;
    } else {
      var more := states + [Do(states[|done|], trace[0])];
      var doneMore := done + [trace[0]];
      forall i | 0 <= i < |doneMore|
        ensures Enabled(more[i], doneMore[i]) && more[i + 1] == Do(more[i], doneMore[i])
      {
      }
      all := IsARun(more, doneMore, trace[1..], t);
      assert doneMore + trace[1..] == done + trace;
    }
  }

  /** A new Environment of which nothing has been asked. */
  predicate New(s: State) {
    Initial(s) && s.cluster.env.spec == LifecycleSpec(None, None, None) && !s.cluster.env.paused
  }

  // ---------------------------------------------------------------------
  // A suspend request does not outlive a hold
  // ---------------------------------------------------------------------

  /** A suspend request was accepted while a hold was enabled; nothing was ever created. */
  predicate AcceptedUnderHold(s: State, id: RequestId) {
    var env := s.cluster.env;
    var l := env.status.lifecycle;
    && s.controller.AtRest? && s.cluster.pod.None? && !s.cluster.credential && !env.paused && !Connected(env)
    && env.status.phase != Paused && env.spec.hold == Some(HoldPolicy(true, 1)) && env.spec.wake.None?
    && env.spec.suspend == Some(SuspendRequest(Request(id, env.uid, 1), 1))
    && l.suspended && l.reason == ReasonHold && l.lastSuspend == id && l.lastSequence == 1 && l.pending == id
  }

  /** The request was acknowledged, and discarded, and the Environment is paused under the hold. */
  predicate AcknowledgedUnderHold(s: State, id: RequestId) {
    var env := s.cluster.env;
    var l := env.status.lifecycle;
    && s.controller.AtRest? && !env.paused && env.status.phase == Paused
    && env.spec == LifecycleSpec(Some(HoldPolicy(true, 1)), None, None)
    && l.suspended && l.reason == ReasonHold && l.lastSuspend == id && l.lastSequence == 1 && l.pending == NoId
  }

  lemma AcceptUnderHold(s: State, id: RequestId) returns (trace: seq<Action>, t: State)
    requires New(s) && id.OtherId?
    ensures Leads(s, trace, t) && AcceptedUnderHold(t, id)
  {
    hide Leads;
    trace, t := Nothing(s);
    trace, t := Step(s, trace, t, EditHold(HoldPolicy(true, 1)));
    assert t.cluster.env.spec == LifecycleSpec(Some(HoldPolicy(true, 1)), None, None);
    trace, t := Step(s, trace, t, PublishSuspend(Some(SuspendRequest(Request(id, s.cluster.env.uid, 1), 1))));
    assert AcceptsSuspend(LifecycleContext(t.cluster.env), t.cluster.env.status.lifecycle);
    trace, t := Step(s, trace, t, Intend([]));
  }

  lemma AcknowledgeUnderHold(s: State, id: RequestId) returns (trace: seq<Action>, t: State)
    requires AcceptedUnderHold(s, id) && id.OtherId?
    ensures Leads(s, trace, t) && AcknowledgedUnderHold(t, id)
  {
    hide Leads;
    trace, t := Nothing(s);
    trace, t := Step(s, trace, t, Pause);
    assert t.cluster.env.status.phase == Paused && t.cluster.env.status.lifecycle == s.cluster.env.status.lifecycle;
    trace, t := Step(s, trace, t, Pause);
    assert t.cluster.env.status.lifecycle.pending == NoId && Discardable(t.cluster.env);
    trace, t := Step(s, trace, t, Discard);
  }

  /**
   * A suspend request accepted and acknowledged under a hold is gone with it:
   * disabling the hold resumes the Environment, though nobody ever woke it.
   */
  lemma HoldReleaseResumes(s: State, id: RequestId)
    returns (accept: seq<Action>, accepted: State, acknowledge: seq<Action>, acknowledged: State, resumed: State)
    requires New(s) && id.OtherId?
    ensures Leads(s, accept, accepted) && AcceptedUnderHold(accepted, id)
    ensures Leads(accepted, acknowledge, acknowledged) && AcknowledgedUnderHold(acknowledged, id)
    ensures Leads(acknowledged, [EditHold(HoldPolicy(false, 2)), Intend([])], resumed)
    ensures !resumed.cluster.env.status.lifecycle.suspended && resumed.cluster.env.status.lifecycle.lastSuspend == id
  {
    hide Leads;
    accept, accepted := AcceptUnderHold(s, id);
    acknowledge, acknowledged := AcknowledgeUnderHold(accepted, id);
    var trace, t := Nothing(acknowledged);
    trace, t := Step(acknowledged, trace, t, EditHold(HoldPolicy(false, 2)));
    assert t.cluster.env.spec == LifecycleSpec(Some(HoldPolicy(false, 2)), None, None);
    ReleasedIff(LifecycleContext(t.cluster.env), t.cluster.env.status.lifecycle);
    trace, resumed := Step(acknowledged, trace, t, Intend([]));
    assert trace == [EditHold(HoldPolicy(false, 2)), Intend([])];
  }

  // ---------------------------------------------------------------------
  // A wake can be taken twice
  // ---------------------------------------------------------------------

  /** Nothing is asked of the Environment that it has not answered, and it has begun `n` executions. */
  predicate Answered(env: Environment, n: nat, last: RequestId) {
    var l := env.status.lifecycle;
    && !env.paused && env.spec.hold.None? && env.spec.suspend.None? && env.record.None?
    && (env.spec.wake.Some? ==> env.spec.wake.value.request.id == last)
    && l.lastWake == last && l.pending == NoId && l.observedHoldRevision == 0 && l.receipts == []
    && PastRecovery(env) && env.status.execution == n
  }

  predicate Awake(env: Environment) {
    !env.status.lifecycle.suspended && env.status.lifecycle.reason == NoReason && env.status.lifecycle.requestId == NoId
  }

  /** At rest, awake, with no execution. */
  predicate Vacant(s: State, n: nat, last: RequestId) {
    s.controller.AtRest? && Answered(s.cluster.env, n, last) && Awake(s.cluster.env) && s.cluster.pod.None?
  }

  /** At rest, awake, with execution `n` up and ready. */
  predicate Occupied(s: State, n: nat, last: RequestId) {
    && s.controller.AtRest? && Answered(s.cluster.env, n, last) && Awake(s.cluster.env)
    && s.cluster.pod == Some(Pod(n, PodRunning(true), false)) && s.cluster.env.status.phase != Paused
  }

  /** Suspended as idle and fenced. */
  predicate IdlePaused(s: State, n: nat, last: RequestId) {
    && s.controller.AtRest? && Answered(s.cluster.env, n, last)
    && s.cluster.env.status.lifecycle.suspended && s.cluster.env.status.lifecycle.reason == ReasonIdle
    && s.cluster.env.status.phase == Paused && s.cluster.pod.None?
  }

  lemma AwakeIsPast(env: Environment, n: nat, last: RequestId)
    requires Answered(env, n, last) && Awake(env)
    ensures PastSuspension(env)
  {
    assert !Fencing(LifecycleContext(env), env.status.lifecycle);
  }

  lemma Resumes(s: State, n: nat, last: RequestId) returns (trace: seq<Action>, t: State)
    requires Vacant(s, n, last)
    ensures Leads(s, trace, t) && Vacant(t, n, last) && t.cluster.env.status.phase != Paused
  {
    hide Leads;
    trace, t := Nothing(s);
    if s.cluster.env.status.phase == Paused {
      AwakeIsPast(s.cluster.env, n, last);
      trace, t := Step(s, trace, t, Resume);
    }
  }

  /** Awake, not paused, at the given point of creating execution `n`. */
  predicate Underway(s: State, n: nat, last: RequestId, at: Controller) {
    && Answered(s.cluster.env, n, last) && Awake(s.cluster.env) && s.cluster.env.status.phase != Paused
    && s.controller == at
  }

  lemma Begins(s: State, n: nat, last: RequestId) returns (trace: seq<Action>, t: State)
    requires Vacant(s, n, last) && s.cluster.env.status.phase != Paused
    ensures Leads(s, trace, t) && Underway(t, n, last, Rotated(t.cluster.env.generation, None)) && t.cluster.pod.None?
  {
    hide Leads;
    AwakeIsPast(s.cluster.env, n, last);
    trace, t := Nothing(s);
    trace, t := Step(s, trace, t, Begin(None));
    trace, t := Step(s, trace, t, Rotate);
  }

  lemma Reserves(s: State, n: nat, last: RequestId) returns (trace: seq<Action>, t: State)
    requires Underway(s, n, last, Rotated(s.cluster.env.generation, None)) && s.cluster.pod.None? && n < MAX_INT64
    ensures Leads(s, trace, t) && Underway(t, n + 1, last, Checked(t.cluster.env.generation, n + 1)) && t.cluster.pod.None?
  {
    hide Leads;
    trace, t := Nothing(s);
    trace, t := Step(s, trace, t, ReserveExecution);
    trace, t := Step(s, trace, t, Check);
  }

  lemma Creates(s: State, n: nat, last: RequestId) returns (trace: seq<Action>, t: State)
    requires Underway(s, n, last, Checked(s.cluster.env.generation, n)) && s.cluster.pod.None?
    ensures Leads(s, trace, t) && Underway(t, n, last, AtRest) && t.cluster.pod == Some(Pod(n, PodPending, false))
  {
    hide Leads;
    trace, t := Nothing(s);
    trace, t := Step(s, trace, t, Create(Applied));
    trace, t := Step(s, trace, t, Confirm);
  }

  lemma Starts(s: State, n: nat, last: RequestId) returns (trace: seq<Action>, t: State)
    requires Underway(s, n, last, AtRest) && s.cluster.pod == Some(Pod(n, PodPending, false))
    ensures Leads(s, trace, t) && Occupied(t, n, last)
  {
    hide Leads;
    trace, t := Nothing(s);
    trace, t := Step(s, trace, t, PodReports(PodRunning(true)));
  }

  lemma BecomesReady(s: State, n: nat, last: RequestId) returns (trace: seq<Action>, t: State)
    requires Occupied(s, n, last)
    ensures Leads(s, trace, t) && Occupied(t, n, last) && t.cluster.env.status.lastActiveAt.Some?
  {
    hide Leads;
    AwakeIsPast(s.cluster.env, n, last);
    trace, t := Nothing(s);
    trace, t := Step(s, trace, t, Observe);
    assert t == s.(controller := Observed(s.cluster.env.generation, s.cluster.pod.value, s.now));
    trace, t := Step(s, trace, t, Sync(Ready));
  }

  /** The whole way from vacant to ready. */
  lemma Provisions(s: State, n: nat, last: RequestId) returns (trace: seq<Action>, t: State)
    requires Vacant(s, n, last) && n < MAX_INT64
    ensures Leads(s, trace, t) && Occupied(t, n + 1, last) && t.cluster.env.status.lastActiveAt.Some?
  {
    hide Leads, Do, Enabled;
    var a, s1 := Resumes(s, n, last);
    var b, s2 := Begins(s1, n, last);
    Joined(s, a, s1, b, s2);
    var c, s3 := Reserves(s2, n, last);
    Joined(s, a + b, s2, c, s3);
    var d, s4 := Creates(s3, n + 1, last);
    Joined(s, a + b + c, s3, d, s4);
    var e, s5 := Starts(s4, n + 1, last);
    Joined(s, a + b + c + d, s4, e, s5);
    var f, s6 := BecomesReady(s5, n + 1, last);
    Joined(s, a + b + c + d + e, s5, f, s6);
    trace, t := a + b + c + d + e + f, s6;
  }

  lemma GoesIdle(s: State, n: nat, last: RequestId, timeout: nat) returns (trace: seq<Action>, t: State)
    requires Occupied(s, n, last) && s.cluster.env.status.lastActiveAt.Some?
    ensures Leads(s, trace, t)
    ensures t.controller.AtRest? && Answered(t.cluster.env, n, last) && t.cluster.pod == s.cluster.pod
    ensures t.cluster.env.status.lifecycle.suspended && t.cluster.env.status.lifecycle.reason == ReasonIdle
    ensures t.cluster.env.status.phase == Idle
  {
    hide Leads;
    AwakeIsPast(s.cluster.env, n, last);
    trace, t := Nothing(s);
    trace, t := Step(s, trace, t, Tick(s.cluster.env.status.lastActiveAt.value + timeout));
    trace, t := Step(s, trace, t, Observe);
    trace, t := Step(s, trace, t, GoIdle(timeout, false, false));
  }

  /** Suspended as idle, its connection withdrawn, on the way to Paused. */
  predicate Stopping(s: State, n: nat, last: RequestId) {
    && s.controller.AtRest? && Answered(s.cluster.env, n, last) && !Connected(s.cluster.env)
    && s.cluster.env.status.lifecycle.suspended && s.cluster.env.status.lifecycle.reason == ReasonIdle
  }

  lemma Withdraws(s: State, n: nat, last: RequestId) returns (trace: seq<Action>, t: State)
    requires s.controller.AtRest? && Answered(s.cluster.env, n, last)
    requires s.cluster.env.status.lifecycle.suspended && s.cluster.env.status.lifecycle.reason == ReasonIdle
    ensures Leads(s, trace, t) && Stopping(t, n, last)
  {
    hide Leads;
    trace, t := Nothing(s);
    if Connected(s.cluster.env) {
      trace, t := Step(s, trace, t, Pause);
    }
  }

  lemma Stops(s: State, n: nat, last: RequestId) returns (trace: seq<Action>, t: State)
    requires Stopping(s, n, last)
    ensures Leads(s, trace, t) && Stopping(t, n, last) && t.cluster.pod.None?
  {
    hide Leads;
    trace, t := Nothing(s);
    if s.cluster.pod.Some? {
      trace, t := Step(s, trace, t, Pause);
      trace, t := Step(s, trace, t, PodGone);
    }
  }

  lemma Pauses(s: State, n: nat, last: RequestId) returns (trace: seq<Action>, t: State)
    requires Stopping(s, n, last) && s.cluster.pod.None?
    ensures Leads(s, trace, t) && IdlePaused(t, n, last)
  {
    hide Leads;
    trace, t := Nothing(s);
    if s.cluster.credential {
      trace, t := Step(s, trace, t, Pause);
    }
    trace, t := Step(s, trace, t, Pause);
  }

  /** An Environment is created, becomes ready, is not used, and is paused for it. */
  lemma IdleCycle(s: State, n: nat, last: RequestId, timeout: nat) returns (trace: seq<Action>, t: State)
    requires Vacant(s, n, last) && n < MAX_INT64
    ensures Leads(s, trace, t) && IdlePaused(t, n + 1, last)
  {
    hide Leads, Do, Enabled;
    var a, s1 := Provisions(s, n, last);
    var b, s2 := GoesIdle(s1, n + 1, last, timeout);
    Joined(s, a, s1, b, s2);
    var c, s3 := FencesIdle(s2, n + 1, last);
    Joined(s, a + b, s2, c, s3);
    trace, t := a + b + c, s3;
  }

  lemma FencesIdle(s: State, n: nat, last: RequestId) returns (trace: seq<Action>, t: State)
    requires s.controller.AtRest? && Answered(s.cluster.env, n, last)
    requires s.cluster.env.status.lifecycle.suspended && s.cluster.env.status.lifecycle.reason == ReasonIdle
    ensures Leads(s, trace, t) && IdlePaused(t, n, last)
  {
    hide Leads, Do, Enabled;
    var a, s1 := Withdraws(s, n, last);
    var b, s2 := Stops(s1, n, last);
    Joined(s, a, s1, b, s2);
    var c, s3 := Pauses(s2, n, last);
    Joined(s, a + b, s2, c, s3);
    trace, t := a + b + c, s3;
  }

  /** Publishing a wake for an idle Environment, and the decision on it. */
  function Waking(env: Environment, id: RequestId): seq<Action> {
    [PublishWake(WakeRequest(Request(id, env.uid, 0), ReasonIdle)), Intend([])]
  }

  lemma WakesUp(s: State, n: nat, last: RequestId, id: RequestId) returns (t: State)
    requires IdlePaused(s, n, last) && id != last
    ensures Leads(s, Waking(s.cluster.env, id), t) && Vacant(t, n, id)
  {
    hide Leads;
    var trace, u := Nothing(s);
    trace, u := Step(s, trace, u, Waking(s.cluster.env, id)[0]);
    ReleasedIff(LifecycleContext(u.cluster.env), u.cluster.env.status.lifecycle);
    trace, t := Step(s, trace, u, Intend([]));
    assert trace == Waking(s.cluster.env, id);
  }

  /**
   * Only the last wake is remembered.  A wake that resumed the Environment
   * once resumes it again, when another wake was taken in between.
   */
  lemma WakeReplayed(s: State, first: RequestId, second: RequestId, timeout: nat)
    returns (idle: State, resumed: State, between: seq<Action>, idleAgain: State, resumedAgain: State)
    requires New(s) && first != NoId && second != NoId && first != second
    ensures exists trace :: Leads(s, trace, idle)
    ensures idle.cluster.env.status.lifecycle.suspended && !resumed.cluster.env.status.lifecycle.suspended
    ensures Leads(idle, Waking(idle.cluster.env, first), resumed)
    ensures Leads(resumed, between, idleAgain)
    ensures idleAgain.cluster.env.status.lifecycle.suspended && !resumedAgain.cluster.env.status.lifecycle.suspended
    ensures Leads(idleAgain, Waking(idleAgain.cluster.env, first), resumedAgain)
  {
    hide Leads;
    assert Vacant(s, 0, NoId);
    hide Do, Enabled;
    var a, s1 := IdleCycle(s, 0, NoId, timeout);
    idle := s1;
    resumed := WakesUp(idle, 1, NoId, first);
    var b, s2 := IdleCycle(resumed, 1, first, timeout);
    var s3 := WakesUp(s2, 2, first, second);
    Joined(resumed, b, s2, Waking(s2.cluster.env, second), s3);
    var c, s4 := IdleCycle(s3, 2, second, timeout);
    Joined(resumed, b + Waking(s2.cluster.env, second), s3, c, s4);
    between, idleAgain := b + Waking(s2.cluster.env, second) + c, s4;
    resumedAgain := WakesUp(idleAgain, 3, second, first);
  }
}
