/**
 * The Environment reconciler as the object it is: each method updates the
 * stored Environment and its children in place, branch by branch, and is
 * proved to do what the operation of the same name on values does.
 */
module EnvironmentController {
  import opened Basics
  import opened Lifecycle
  import opened EnvironmentSteps

  class EnvironmentReconciler {
    var env: Environment
    var pod: Option<Pod>
    var credential: bool

    ghost function Contents(): Cluster
      reads this
    {
      Cluster(env, pod, credential)
    }

    constructor (env: Environment, pod: Option<Pod>, credential: bool)
      ensures Contents() == Cluster(env, pod, credential)
    {
      this.env, this.pod, this.credential := env, pod, credential;
    }

    /** Consumes each published request at most once and decides whether execution is suspended. */
    method ReconcileLifecycleIntent(activity: seq<ActivityRequest>, now: nat) returns (changed: bool)
      modifies this`env
      ensures env == IntentStep(old(env), activity, now)
      ensures changed <==> env != old(env)
      // a request is recorded as requested under its own identifier, a hold as a hold
      ensures Held(env.spec) ==>
        var l := env.status.lifecycle; l.suspended && l.reason == ReasonHold && l.requestId == NoId
      ensures !Held(env.spec) && env.status.lifecycle.pending != NoId ==>
        var l := env.status.lifecycle; l.suspended && l.reason == ReasonRequested && l.requestId == l.pending
      ensures !env.status.lifecycle.suspended && old(env).status.lifecycle.suspended ==>
        env.status.lifecycle.reason == NoReason && env.status.lifecycle.requestId == NoId
      // activity that is taken up renews the Environment
      ensures env.status.lifecycle.receipts != old(env).status.lifecycle.receipts ==>
        env.status.lastActiveAt.Some? && env.status.lastActiveAt.value >= now
      ensures env == old(env).(status := old(env).status.(lifecycle := env.status.lifecycle, lastActiveAt := env.status.lastActiveAt))
    {
      var l := env.status.lifecycle;
      var c := LifecycleContext(env);
      if env.spec.hold.None? && env.spec.wake.None? && env.spec.suspend.None? && activity == [] &&
         !l.suspended && l.epoch == 0 && l.observedHoldRevision == 0 && l.lastWake == NoId &&
         l.lastSuspend == NoId && l.lastSequence == 0 && l.pending == NoId && l.receipts == [] {
        UntouchedIsSettled(c, l);
        return false;
      }
      var lastActiveAt := env.status.lastActiveAt;
      l, lastActiveAt := ConsumeActivity(c, l, lastActiveAt, activity, now);
      l := DecideSuspension(c, l);
      var before := env;
      env := env.(status := env.status.(lifecycle := l, lastActiveAt := lastActiveAt));
      changed := env != before;
      ghost var receipts := before.status.lifecycle.receipts;
      if !SawActivity(c, receipts, activity) {
        QuietConsume(c, receipts, activity, |activity|);
        assert activity[..|activity|] == activity;
      }
    }

    /** An Environment nobody ever asked anything of has nothing to decide. */
    static lemma UntouchedIsSettled(c: Context, l: LifecycleStatus)
      requires c.spec == LifecycleSpec(None, None, None)
      requires !l.suspended && l.epoch == 0 && l.observedHoldRevision == 0 && l.lastWake == NoId
      requires l.pending == NoId && l.receipts == []
      ensures Intent(c, l, []) == l && !SawActivity(c, l.receipts, [])
    {
      assert l.(receipts := Consume(c, l.receipts, [])) == l;
      assert !Fencing(c, l) && !ConsumesWake(c, l) && !Releases(c, l);
    }

    /** The branches from the published requests to the new suspension state. */
    static method DecideSuspension(c: Context, before: LifecycleStatus) returns (l: LifecycleStatus)
      ensures l == Decide(c, before)
    {
      l := before;
      var policyRevision, held := 0, false;
      if c.spec.hold.Some? {
        policyRevision, held := c.spec.hold.value.revision, c.spec.hold.value.enabled;
      }
      l := l.(observedHoldRevision := policyRevision);
      var suspendInFlight := l.pending != NoId;
      var suspendNew := false;
      if c.spec.suspend.Some? {
        var suspend := c.spec.suspend.value;
        suspendNew := ValidRequest(c, suspend.request) && !suspendInFlight &&
          suspend.sequence > l.lastSequence && suspend.request.id != l.lastSuspend;
        if suspendNew {
          l := l.(lastSuspend := suspend.request.id, lastSequence := suspend.sequence, pending := suspend.request.id);
        }
      }
      var wakeNew, wakeMatches := false, false;
      if c.spec.wake.Some? {
        var wake := c.spec.wake.value;
        wakeNew := ValidRequest(c, wake.request) && wake.request.id != l.lastWake;
        var current := if held then ReasonHold else if suspendNew || suspendInFlight then ReasonRequested else l.reason;
        wakeMatches := (if wake.expected == NoReason then ReasonIdle else wake.expected) == current;
      }
      var fencePending := l.suspended && c.phase != Paused;
      var consumeWake := wakeNew && (held || !wakeMatches || (!suspendNew && !suspendInFlight && !fencePending));
      if consumeWake {
        l := l.(lastWake := c.spec.wake.value.request.id);
      }
      var suspended, reason, requestId := l.suspended, l.reason, l.requestId;
      if held {
        suspended, reason, requestId := true, ReasonHold, NoId;
      } else if suspendNew || suspendInFlight {
        suspended, reason, requestId := true, ReasonRequested, l.pending;
      } else if l.suspended && l.reason == ReasonHold && !fencePending {
        suspended, reason, requestId := false, NoReason, NoId;
      } else if consumeWake && wakeMatches && l.reason != ReasonHold {
        suspended, reason, requestId := false, NoReason, NoId;
      }
      if suspended && !l.suspended {
        l := l.(epoch := l.epoch + 1);
      }
      l := l.(suspended := suspended, reason := reason, requestId := requestId);
      assert suspendNew == AcceptsSuspend(c, before) && consumeWake == ConsumesWake(c, before);
    }

    static method ConsumeActivity(
      c: Context, l: LifecycleStatus, last: Option<nat>, activity: seq<ActivityRequest>, now: nat)
      returns (m: LifecycleStatus, lastActiveAt: Option<nat>)
      ensures m == l.(receipts := Consume(c, l.receipts, activity))
      ensures lastActiveAt == LastActive(last, now, SawActivity(c, l.receipts, activity))
    {
      m, lastActiveAt := l, last;
      for i := 0 to |activity|
        invariant m == l.(receipts := Consume(c, l.receipts, activity[..i]))
        invariant lastActiveAt == LastActive(last, now, SawActivity(c, l.receipts, activity[..i]))
      {
        var a := activity[i];
        assert activity[..i + 1][..i] == activity[..i];
        SawMore(c, l.receipts, activity, i);
        if ValidRequest(c, a.request) && a.execution == c.execution {
          var acknowledged := FindReceipt(m.receipts, a.source, a.execution);
          if acknowledged != a.request.id {
            var receipts := SetReceipt(m.receipts, a.source, a.execution, a.request.id);
            m := m.(receipts := receipts);
            if lastActiveAt.None? || now > lastActiveAt.value {
              lastActiveAt := Some(now);
            }
          }
        }
      }
      assert activity[..|activity|] == activity;
    }

    static lemma SawMore(c: Context, r: seq<Receipt>, activity: seq<ActivityRequest>, i: nat)
      requires i < |activity|
      ensures SawActivity(c, r, activity[..i + 1]) <==>
        SawActivity(c, r, activity[..i]) || NewActivity(c, Consume(c, r, activity[..i]), activity[i])
    {
      var more := activity[..i + 1];
      assert forall k :: 0 <= k <= i ==> more[..k] == activity[..k];
      assert forall k :: 0 <= k <= i ==> activity[..i][..k] == activity[..k];
      if SawActivity(c, r, activity[..i]) {
        var k :| 0 <= k < i && NewActivity(c, Consume(c, r, activity[..i][..k]), activity[..i][k]);
        assert NewActivity(c, Consume(c, r, more[..k]), more[k]);
      }
      if NewActivity(c, Consume(c, r, activity[..i]), activity[i]) {
        assert NewActivity(c, Consume(c, r, more[..i]), more[i]);
      }
      if SawActivity(c, r, more) {
        var k :| 0 <= k < i + 1 && NewActivity(c, Consume(c, r, more[..k]), more[k]);
        if k < i {
          assert NewActivity(c, Consume(c, r, activity[..i][..k]), activity[..i][k]);
        }
      }
    }

    static method FindReceipt(receipts: seq<Receipt>, source: Source, execution: nat) returns (id: RequestId)
      ensures id == Acknowledged(receipts, source, execution)
    {
      var i := 0;
      while i < |receipts|
        invariant 0 <= i <= |receipts|
        invariant Acknowledged(receipts, source, execution) == Acknowledged(receipts[i..], source, execution)
      {
        if receipts[i].source == source && receipts[i].execution == execution {
          return receipts[i].id;
        }
        i := i + 1;
      }
      return NoId;
    }

    static method SetReceipt(receipts: seq<Receipt>, source: Source, execution: nat, id: RequestId)
      returns (r: seq<Receipt>)
      ensures r == WithReceipt(receipts, source, execution, id)
    {
      var i := 0;
      while i < |receipts|
        invariant 0 <= i <= |receipts|
        invariant forall k :: 0 <= k < i ==> receipts[k].source != source
      {
        if receipts[i].source == source {
          ReceiptPlace(receipts, source, execution, id, i);
          return receipts[i := Receipt(source, id, execution)];
        }
        i := i + 1;
      }
      ReceiptPlace(receipts, source, execution, id, i);
      return receipts + [Receipt(source, id, execution)];
    }

    static lemma {:induction false} ReceiptPlace(
      receipts: seq<Receipt>, source: Source, execution: nat, id: RequestId, i: nat)
      requires i <= |receipts| && forall k :: 0 <= k < i ==> receipts[k].source != source
      requires i < |receipts| ==> receipts[i].source == source
      ensures WithReceipt(receipts, source, execution, id)
        == if i < |receipts| then receipts[i := Receipt(source, id, execution)] else receipts + [Receipt(source, id, execution)]
    {
      if i > 0 {
        ReceiptPlace(receipts[1..], source, execution, id, i - 1);
      }
    }

    /** Withdraws the connection, then stops the Pod, then revokes its credential, then acknowledges. */
    method ReconcilePaused()
      modifies this
      ensures Contents() == PauseStep(old(Contents()))
      // in this order, each only when what comes before it is done
      ensures pod != old(pod) ==>
        && !Connected(old(env)) && old(pod).Some? && pod == Some(old(pod).value.(terminating := true))
        && credential == old(credential) && env == old(env)
      ensures credential != old(credential) ==>
        !Connected(old(env)) && old(pod).None? && pod.None? && !credential && env == old(env)
      ensures env.status.phase == Paused && old(env).status.phase != Paused ==>
        !Connected(old(env)) && !Connected(env) && pod.None? && !credential && pod == old(pod) && credential == old(credential)
      ensures env.status.lifecycle != old(env).status.lifecycle ==>
        && old(env).status.phase == Paused && pod.None? && !credential
        && env == old(env).(status := old(env).status.(lifecycle := old(env).status.lifecycle.(pending := NoId)))
      // no pass leaves a connection published, and one that finds none goes on to what comes next
      ensures !env.status.podName && !env.status.endpoint
      ensures !(env.status.ready && env.status.execution > 0 && env.status.observedGeneration == env.generation)
      ensures !old(env).status.podName && !old(env).status.endpoint && !old(env).status.ready ==>
        if old(pod).Some? then pod == Some(old(pod).value.(terminating := true))
        else !credential && (!old(credential) ==> env.status.phase == Paused)
      // a pass that changes nothing waits for the kubelet, or has nothing left to do
      ensures Contents() == old(Contents()) ==>
        (pod.Some? && pod.value.terminating)
        || (pod.None? && !credential && env.status.phase == Paused && env.status.lifecycle.pending == NoId && !Connected(env))
    {
      var s := env.status;
      if s.podName || s.endpoint || IsReady(env) {
        env := Apply(env, Idle, false, false, OtherReason, s.lastActiveAt);
        return;
      }
      if pod.Some? {
        pod := Some(pod.value.(terminating := true));
        return;
      }
      if credential {
        credential := false;
        return;
      }
      if s.phase == Paused && s.lifecycle.pending != NoId {
        env := env.(status := s.(lifecycle := s.lifecycle.(pending := NoId)));
        return;
      }
      env := Apply(env, Paused, false, false, OtherReason, s.lastActiveAt);
    }

    /** Suspends an Environment whose timeout has passed with nobody using it, in a new epoch. */
    method ReconcileIdle(timeout: int, warmPool: bool, runActive: bool, now: nat)
      modifies this`env
      ensures env == IdleStep(old(env), timeout, warmPool, runActive, now)
      ensures env != old(env) <==>
        && !warmPool && !runActive
        && (if old(env).status.lastActiveAt.Some? then now >= old(env).status.lastActiveAt.value + timeout else timeout <= 0)
      ensures env != old(env) ==>
        var l := old(env).status.lifecycle;
        && env.status.lifecycle == l.(suspended := true, reason := ReasonIdle, requestId := NoId, epoch := l.epoch + 1)
        && env.status.phase == Idle && !env.status.ready && env.spec == old(env).spec
        && env.status.podName == old(env).status.podName && env.status.endpoint == old(env).status.endpoint
        && env.status.execution == old(env).status.execution && env.status.recovery == old(env).status.recovery
    {
      if warmPool || runActive {
        return;
      }
      var remaining := timeout;
      if env.status.lastActiveAt.Some? {
        remaining := env.status.lastActiveAt.value + timeout - now;
      }
      if remaining > 0 {
        return;
      }
      var l := env.status.lifecycle.(suspended := true, reason := ReasonIdle, requestId := NoId);
      l := l.(epoch := l.epoch + 1);
      env := env.(status := env.status.(lifecycle := l));
      env := Apply(env, Idle, env.status.podName, env.status.endpoint, OtherReason, env.status.lastActiveAt);
    }

    /** Durably allocates a fresh execution identity before a Pod is created. */
    method ReserveExecutionGeneration(seen: nat) returns (reserved: Option<nat>)
      modifies this`env
      ensures reserved.Some? <==>
        && old(env).generation == seen && !old(env).paused && !old(env).status.lifecycle.suspended
        && old(env).status.execution < 0x7fff_ffff_ffff_ffff
      ensures env == if reserved.Some? then Reserve(old(env)) else old(env)
      ensures reserved.Some? ==> reserved.value == env.status.execution == old(env).status.execution + 1
      // whatever was published belonged to another execution; a resuming Environment stays so
      ensures reserved.Some? ==>
        && !env.status.podName && !env.status.endpoint && !env.status.ready
        && env.status.phase == (if old(env).status.phase == Resuming then Resuming else Creating)
        && env.spec == old(env).spec && env.status.lifecycle == old(env).status.lifecycle
        && env.status.recovery == old(env).status.recovery && env.status.lastActiveAt == old(env).status.lastActiveAt
    {
      if env.generation != seen || env.paused || env.status.lifecycle.suspended {
        return None;
      }
      if env.status.execution >= MAX_INT64 {
        return None;
      }
      var next := env.status.execution + 1;
      var phase := Creating;
      if env.status.phase == Resuming {
        phase := Resuming;
      }
      env := Apply(env, phase, false, false, OtherReason, env.status.lastActiveAt);
      env := env.(status := env.status.(execution := next));
      return Some(next);
    }

    /** The recovery gate: `handled` stops the reconcile before anything is created. */
    method ReconcilePendingPodRecovery(resume: bool, now: nat) returns (handled: bool)
      modifies this`env
      ensures env == PendingRecovery(old(env), resume, now)
      ensures !handled <==> PastRecovery(old(env))
      ensures !handled ==> env == old(env)
      ensures env != old(env) ==> !IsReady(env) && !env.status.endpoint
      // a replacement is charged exactly when its deadline has come, and nothing else is ever spent
      ensures var r := old(env).status.recovery;
        env.status.recovery ==
          if !r.exhausted && r.nextAttemptAt.Some? && r.nextAttemptAt.value <= now
          then Recovery(r.attempts + 1, r.exhausted, r.execution, None) else r
      ensures env.status.lifecycle == old(env).status.lifecycle && env.status.execution == old(env).status.execution
      // a retained workspace resumes, a new one is created, an exhausted budget fails
      ensures env != old(env) ==>
        env.status.phase == if old(env).status.recovery.exhausted then Failed else if resume then Resuming else Creating
      // the status says why nothing is ready, and is not written again when it already does
      ensures var r := old(env).status.recovery;
        var reason := if r.exhausted then RecoveryExhausted else RecoveryPending;
        r.exhausted || (r.nextAttemptAt.Some? && now < r.nextAttemptAt.value) ==>
          && !env.status.ready && env.status.observedGeneration == env.generation && env.status.readyReason == reason
          && var s := old(env).status;
             (s.observedGeneration == env.generation && !s.ready && s.readyReason == reason ==> env == old(env))
    {
      var r := env.status.recovery;
      if r.exhausted {
        if !AlreadyReported(env, RecoveryExhausted) {
          env := Apply(env, Failed, env.status.podName, false, RecoveryExhausted, env.status.lastActiveAt);
        }
        return true;
      }
      if r.nextAttemptAt.None? {
        return false;
      }
      if now < r.nextAttemptAt.value {
        if !AlreadyReported(env, RecoveryPending) {
          env := Apply(env, RecoveryPhase(resume), false, false, RecoveryPending, env.status.lastActiveAt);
        }
        return true;
      }
      env := Apply(env, RecoveryPhase(resume), false, false, OtherReason, env.status.lastActiveAt);
      env := env.(status := env.status.(recovery := r.(attempts := r.attempts + 1, nextAttemptAt := None)));
      return true;
    }

    /**
     * Accounts for the terminal Pod that was read, and deletes it.  A failure
     * is accounted once per execution: it schedules a replacement or exhausts
     * the budget, and spends nothing.  The Pod goes only when the failure of
     * its own execution is on record with no deadline left to wait for.
     */
    method ReconcileTerminalPod(read: Pod, resume: bool, now: nat)
      modifies this
      ensures Contents() == TerminalPod(old(Contents()), read, resume, now)
      ensures pod != old(pod) ==>
        && old(pod).Some? && old(pod).value.execution == read.execution && pod == Some(old(pod).value.(terminating := true))
        && env == old(env) && env.status.recovery.execution == read.execution == env.status.execution
        && env.status.recovery.nextAttemptAt.None?
      ensures env != old(env) ==>
        && old(env).status.recovery.execution != read.execution == env.status.execution
        && env.status.recovery.execution == read.execution
        && env.status.recovery.attempts == old(env).status.recovery.attempts
        && (if env.status.recovery.attempts < RECOVERY_LIMIT
            then
              && env.status.recovery.nextAttemptAt == Some(now + RECOVERY_DELAY * Pow2(env.status.recovery.attempts))
              && env.status.phase == (if resume then Resuming else Creating) && !env.status.podName && !env.status.endpoint
            else env.status.recovery.exhausted && env.status.phase == Failed && env.status.podName && !env.status.endpoint)
        && env.status.readyReason == (if env.status.recovery.exhausted then RecoveryExhausted else RecoveryPending)
      ensures credential == old(credential) && env.spec == old(env).spec && (env != old(env) ==> !env.status.ready)
    {
      var execution := read.execution;
      if execution != env.status.execution {
        return;
      }
      var r := env.status.recovery;
      if r.execution != execution {
        if r.attempts >= RECOVERY_LIMIT {
          env := Apply(env, Failed, true, false, RecoveryExhausted, env.status.lastActiveAt);
          env := env.(status := env.status.(recovery := r.(exhausted := true, execution := execution)));
          return;
        }
        env := Apply(env, RecoveryPhase(resume), false, false, RecoveryPending, env.status.lastActiveAt);
        var next := Some(now + Backoff(r.attempts));
        env := env.(status := env.status.(recovery := Recovery(r.attempts, false, execution, next)));
        return;
      }
      if r.nextAttemptAt.Some? {
        return;
      }
      if pod.Some? && pod.value.execution == execution {
        pod := Some(pod.value.(terminating := true));
      }
    }

    /**
     * Publishes what the Pod that was read adds up to.  A ready one gets its
     * connection, clears the recovery budget and counts as active from when it
     * became ready; one of another execution, or after a spec edit, is not
     * published at all.
     */
    method SyncPodStatus(read: Pod, seen: nat, phase: Phase, now: nat)
      modifies this`env
      ensures env == if read.execution == old(env).status.execution && seen == old(env).generation
        then SyncStatus(old(env), phase, now) else old(env)
      ensures env != old(env) ==>
        && read.execution == env.status.execution && env.status.phase == phase && env.status.podName
        && (env.status.endpoint <==> phase == Ready) && (env.status.ready <==> phase == Ready || phase == Running)
        && env.status.observedGeneration == env.generation
        && env.status.recovery == (if phase == Ready then Recovery(0, false, 0, None) else old(env).status.recovery)
      // becoming ready counts as activity, staying so does not
      ensures env != old(env) && phase == Ready && old(env).status.phase != Ready && old(env).status.phase != Running ==>
        env.status.lastActiveAt.Some? && env.status.lastActiveAt.value >= now
      ensures old(env).status.lastActiveAt.Some? && (phase != Ready || old(env).status.phase == Ready || old(env).status.phase == Running) ==>
        env.status.lastActiveAt == old(env).status.lastActiveAt
      ensures old(env).status.lastActiveAt.None? && env != old(env) ==>
        env.status.lastActiveAt == if phase == Ready then Some(now) else None
      ensures env.spec == old(env).spec && env.status.lifecycle == old(env).status.lifecycle
        && env.status.execution == old(env).status.execution
    {
      if read.execution != env.status.execution || seen != env.generation {
        return;
      }
      var active := env.status.lastActiveAt;
      if phase == Ready && (active.None? || (env.status.phase != Ready && env.status.phase != Running)) {
        active := Some(now);
      }
      env := Apply(env, phase, true, phase == Ready, OtherReason, active);
      if phase == Ready {
        env := env.(status := env.status.(recovery := Recovery(0, false, 0, None)));
      }
    }
  }
}
