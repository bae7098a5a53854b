/**
 * The three passes of the Run controller over the repository token, in the
 * source's own order of branches and calls.  Each pass leaves a trace of
 * actions of `RepositoryCredential`, so what is proved of every run there
 * holds at every point of a pass, and a crash is a prefix of its trace.
 */
module RepositoryReconciler {
  import opened Basics
  import opened RepositoryCredential

  const MINIMUM_VALIDITY: nat := 300

  ghost function After(s: State, trace: seq<Action>): State
    requires Legal(s, trace)
    decreases |trace|, 1
  {
    if trace == [] then s else Do(After(s, trace[..|trace| - 1]), trace[|trace| - 1])
  }

  ghost predicate Legal(s: State, trace: seq<Action>)
    decreases |trace|, 0
  {
    trace == [] || (Legal(s, trace[..|trace| - 1]) && Enabled(After(s, trace[..|trace| - 1]), trace[|trace| - 1]))
  }

  lemma Extended(s: State, trace: seq<Action>, a: Action)
    requires Legal(s, trace) && Enabled(After(s, trace), a)
    ensures Legal(s, trace + [a]) && After(s, trace + [a]) == Do(After(s, trace), a)
  {
    assert (trace + [a])[..|trace|] == trace;
  }

  lemma {:induction false} LegalKeepsInv(s: State, trace: seq<Action>)
    requires Inv(s) && Legal(s, trace)
    ensures Inv(After(s, trace))
  {
    hide Do, Inv;
    if trace != [] {
      LegalKeepsInv(s, trace[..|trace| - 1]);
      InvStep(After(s, trace[..|trace| - 1]), trace[|trace| - 1]);
    }
  }

  /** A run followed by the trace of a pass is a run: passes add nothing to what runs can do. */
  lemma {:induction false} PassContinuesRun(states: seq<State>, actions: seq<Action>, trace: seq<Action>)
    returns (longer: seq<State>)
    requires IsRun(states, actions) && Legal(states[|actions|], trace)
    ensures IsRun(longer, actions + trace) && longer[|actions + trace|] == After(states[|actions|], trace)
    ensures states <= longer
  {
    hide Do, Initial;
    if trace == [] {
      longer := states;
      assert actions + trace == actions;
    } else {
      var n := |trace| - 1;
      var before := PassContinuesRun(states, actions, trace[..n]);
      var shorter := actions + trace[..n];
      longer := before + [After(states[|actions|], trace)];
      assert actions + trace == shorter + [trace[n]];
      forall i | 0 <= i < |actions + trace|
        ensures Enabled(longer[i], (actions + trace)[i]) && longer[i + 1] == Do(longer[i], (actions + trace)[i])
      {
        if i < |shorter| {
          assert longer[i] == before[i] && longer[i + 1] == before[i + 1] && (actions + trace)[i] == shorter[i];
        }
      }
    }
  }

  /** What issuing a token came back with. */
  datatype IssueResult = NoHandle(happened: bool, retryable: bool) | Handle(lifetime: nat, invalid: bool)

  /** What the calls of one pass meet. */
  datatype World = World(
    provider: bool,
    revoke: Outcome,
    complete: Outcome,
    delete: Outcome,
    update: Outcome,
    status: Outcome,
    repositoryKnown: bool,
    held: bool,
    wakePublished: bool,
    wakeAccepted: bool,
    issue: IssueResult,
    create: Outcome,
    readBack: bool,
    createPending: Outcome,
    readBackPending: bool,
    bestEffort: Outcome)

  /** Every call of the pass succeeds. */
  predicate AllWell(w: World) {
    && w.provider && w.revoke.Applied? && w.complete.Applied? && w.delete.Applied? && w.update.Applied? && w.status.Applied?
    && w.repositoryKnown && w.wakeAccepted && w.create.Applied? && w.createPending.Applied?
  }

  /** A completed record whose failure, if it carries one, is durable. */
  predicate Concluded(s: State) {
    s.pending.Some? && s.pending.value.complete && (s.pending.value.invalid ==> DispositionDurable(s))
  }

  /** A completed record carries a failure that the Run, as cached and stored, does not show yet. */
  predicate FailureUnrecorded(s: State) {
    && s.pending.Some? && s.pending.value.complete && s.pending.value.invalid
    && s.cached == s.stored && s.stored.condition != InvalidToken
  }

  /** No token is stored and the Environment is there to receive one. */
  predicate Wanting(s: State) {
    s.active.None? && s.pending.None? && !s.env.gone && s.cached == s.stored
  }

  /** The old lease of the rotation may be revoked. */
  predicate MayRetire(s: State) {
    && s.cached.rotation.Some? && s.active.Some? && IsOld(s.cached.rotation.value, s.active.value)
    && (s.cached.rotation.value.wake ==> Fenced(s) && s.cached.condition == Refreshing)
  }

  /** The fresh lease is there, and the Environment has been, or may be, told to wake. */
  predicate MayFinish(s: State, w: World) {
    && s.cached.rotation.Some? && s.active.Some? && IsReplacement(s.cached.rotation.value, s.active.value)
    && s.cached.rotation == s.stored.rotation
    && (s.cached.rotation.value.wake ==> w.wakePublished || (Fenced(s) && !w.held))
  }

  /** A lease that is about to expire, or whose execution is gone, and that nothing else is under way for. */
  predicate DueForRotation(s: State) {
    && s.pending.None? && !s.env.gone && s.cached.rotation.None? && s.stored.rotation.None? && s.active.Some?
    && (|| (s.active.value.bound && !s.env.pod && !s.env.provisioned)
        || s.active.value.credential.expires <= s.now + REFRESH_MARGIN)
  }

  predicate MayClose(s: State) {
    s.pending.None? && s.cached == s.stored && (FencedAt(s, s.env.viewed) || s.env.gone)
  }

  /** `Blocked` and `Changed` are the answers to objects that contradict each other. */
  datatype Answer = Again | Ready | Failing | Blocked | Changed

  class RepositoryCredentials {
    var s: State
    ghost var trace: seq<Action>

    constructor (initial: State)
      ensures s == initial && trace == []
    {
      s := initial;
      trace := [];
    }

    method Act(ghost before: State, a: Action)
      requires Legal(before, trace) && After(before, trace) == s && Enabled(s, a)
      modifies this
      ensures s == Do(old(s), a)
      ensures Legal(before, trace) && After(before, trace) == s
    {
      Extended(before, trace, a);
      trace := trace + [a];
      s := Do(s, a);
    }

    /** Writes the condition of the Run, which a lagging cache makes fail. */
    method SetCondition(ghost before: State, c: Condition, status: Outcome)
      requires Legal(before, trace) && After(before, trace) == s
      modifies this
      ensures Legal(before, trace) && After(before, trace) == s
      ensures s == old(s).(stored := s.stored) && s.stored.rotation == old(s).stored.rotation
      ensures s.stored == old(s).stored || s.stored.condition == c
      ensures !status.NotApplied? && s.cached == old(s).stored ==> s.stored.condition == c
      ensures s.cached.version != old(s).stored.version ==> s.stored == old(s).stored
    {
      if s.cached.condition != c && s.cached.version == s.stored.version && !status.NotApplied? {
        Act(before, WriteStatus(c));
      }
    }

    /**
     * Drives a pending revocation record one write further.  `done` says there
     * was none; a record that contradicts the Run or the active Secret blocks,
     * which no reachable state lets happen.
     */
    method CleanupPending(ghost before: State, w: World) returns (done: bool, answer: Answer)
      requires Legal(before, trace) && After(before, trace) == s && (s.at.Idle? || s.at.Cleaning?)
      modifies this
      ensures Legal(before, trace) && After(before, trace) == s
      ensures done <==> old(s).pending.None?
      ensures done ==> s == old(s)
      ensures answer == Again || (answer == Blocked && !Inv(old(s)))
      ensures s.cached == old(s).cached && s.stored.rotation == old(s).stored.rotation
      // with nothing in the way: revoked and complete, then the active Secret goes, then the record
      ensures AllWell(w) && Inv(old(s)) && old(s).pending.Some? && !old(s).pending.value.complete ==>
        && s.pending == Some(old(s).pending.value.(complete := true)) && s.active == old(s).active
        && old(s).pending.value.credential.token in s.revoked
      ensures AllWell(w) && Inv(old(s)) && FailureUnrecorded(old(s)) ==>
        s.stored.condition == InvalidToken && s.pending == old(s).pending && s.active == old(s).active
      ensures AllWell(w) && Inv(old(s)) && Concluded(old(s)) ==>
        s.active.None? && s.pending == if old(s).active.Some? then old(s).pending else None
    {
      hide Legal, After;
      answer := Again;
      if s.pending.None? {
        return true, Again;
      }
      done := false;
      var p := s.pending.value;
      if p.generation != Expected(s.cached.rotation) {
        return false, Blocked;
      }
      if p.complete {
        if s.active.Some? && !SameToken(s.active.value, p) && (p.invalid ==> DispositionDurable(s)) {
          return false, Blocked;
        }
        DropCompleted(before, w);
      } else {
        RevokePendingToken(before, w);
      }
    }

    /** A completed record: the failure it carries, then the active Secret, then the record itself. */
    method DropCompleted(ghost before: State, w: World)
      requires Legal(before, trace) && After(before, trace) == s && (s.at.Idle? || s.at.Cleaning?)
      requires s.pending.Some? && s.pending.value.complete && s.pending.value.generation == Expected(s.cached.rotation)
      requires s.active.None? || SameToken(s.active.value, s.pending.value)
        || (s.pending.value.invalid && !DispositionDurable(s))
      modifies this
      ensures Legal(before, trace) && After(before, trace) == s
      ensures s.cached == old(s).cached && s.stored.rotation == old(s).stored.rotation
      ensures s.pending.None? ==> old(s).active.None?
      // a failure the record carries is recorded on the Run first, and nothing is deleted before
      ensures old(s).pending.value.invalid && (old(s).cached.condition != InvalidToken || old(s).stored.condition != InvalidToken) ==>
        && s.pending == old(s).pending && s.active == old(s).active
        && (AllWell(w) && old(s).cached == old(s).stored ==> s.stored.condition == InvalidToken)
      ensures w.delete.Applied? && Concluded(old(s)) ==>
        s.active.None? && s.pending == if old(s).active.Some? then old(s).pending else None
    {
      hide Legal, After;
      if s.pending.value.invalid && !DispositionDurable(s) {
        SetCondition(before, InvalidToken, w.status);
      } else if s.active.Some? {
        Act(before, DeleteCompletedActive(w.delete));
      } else {
        Act(before, DeletePending(w.delete));
      }
    }

    method RevokePendingToken(ghost before: State, w: World)
      requires Legal(before, trace) && After(before, trace) == s && (s.at.Idle? || s.at.Cleaning?)
      requires s.pending.Some? && !s.pending.value.complete && s.pending.value.generation == Expected(s.cached.rotation)
      modifies this
      ensures Legal(before, trace) && After(before, trace) == s
      ensures s.cached == old(s).cached && s.stored.rotation == old(s).stored.rotation && s.active == old(s).active
      ensures s.pending.Some? && (s.pending.value.complete ==> Spent(s, s.pending.value.credential))
      ensures w.provider && w.revoke.Applied? && w.complete.Applied? ==>
        s.pending == Some(old(s).pending.value.(complete := true)) && old(s).pending.value.credential.token in s.revoked
    {
      hide Legal, After;
      if !w.provider && s.now < s.pending.value.credential.expires {
        SetCondition(before, RevocationPending, w.status);
        return;
      }
      Act(before, RevokePending(if w.provider then w.revoke else NotApplied));
      if s.at.PendingDone? {
        MarkComplete(before, w);
      } else {
        SetCondition(before, RevocationPending, w.status);
      }
    }

    method MarkComplete(ghost before: State, w: World)
      requires Legal(before, trace) && After(before, trace) == s
      requires s.at.PendingDone? && s.pending.Some? && s.pending.value.uid == s.at.uid && !s.pending.value.complete
      modifies this
      ensures Legal(before, trace) && After(before, trace) == s
      ensures s == old(s).(at := Idle, pending := s.pending)
      ensures s.pending == Some(old(s).pending.value.(complete := !w.complete.NotApplied?))
    {
      hide Legal, After;
      Act(before, CompletePending(w.complete));
    }

    /** Issues a token and makes it durable, as a lease or else as a pending record. */
    method IssueLease(ghost before: State, w: World)
      requires Legal(before, trace) && After(before, trace) == s && Enabled(s, Issue(0, false, false))
      modifies this
      ensures Legal(before, trace) && After(before, trace) == s
      ensures w.issue.Handle? ==>
        || Stores(s, Credential(old(s).nonce, old(s).now + w.issue.lifetime))
        || (w.createPending.NotApplied? && (w.create.NotApplied? || w.issue.invalid || w.issue.lifetime <= MINIMUM_VALIDITY))
      ensures s.stored.rotation == old(s).stored.rotation && s.cached == old(s).cached
      // a usable token becomes the lease of the generation that is due, an unusable one goes to the log
      ensures w.issue.Handle? && AllWell(w) ==>
        var c := Credential(old(s).nonce, old(s).now + w.issue.lifetime);
        if w.issue.invalid || w.issue.lifetime <= MINIMUM_VALIDITY
        then
          && s.active.None? && s.pending.Some? && s.pending.value.credential == c && !s.pending.value.complete
          && s.pending.value.generation == Expected(old(s).cached.rotation) && s.pending.value.invalid == w.issue.invalid
        else
          && s.pending.None? && s.active.Some? && s.active.value.credential == c && !s.active.value.bound
          && s.active.value.generation == Expected(old(s).cached.rotation)
    {
      hide Legal, After;
      match w.issue
      case NoHandle(happened, retryable) =>
        if happened {
          Act(before, Issue(0, false, false));
        }
        SetCondition(before, OtherCondition, w.status);
      case Handle(lifetime, invalid) =>
        Act(before, Issue(lifetime, invalid, true));
        if !invalid {
          // a token too short-lived to store goes straight to the log
          var storable := lifetime > MINIMUM_VALIDITY;
          Act(before, CreateActive(if storable then w.create else NotApplied, storable && w.readBack));
        }
        if !s.at.Idle? {
          LogCredential(before, w);
        }
    }

    /** Records an issued token that is not a lease for revocation, or gives up on it. */
    method LogCredential(ghost before: State, w: World)
      requires Legal(before, trace) && After(before, trace) == s && (s.at.Unstored? || (s.at.Issued? && s.at.invalid))
      modifies this
      ensures Legal(before, trace) && After(before, trace) == s
      ensures s.at.Idle? && s.active == old(s).active
      ensures old(s).pending.None? && !w.createPending.NotApplied? ==>
        s.pending == Some(Pending(old(s).nonce, old(s).at.credential, old(s).at.generation, false, old(s).at.Issued?))
      ensures s.stored.rotation == old(s).stored.rotation && s.cached == old(s).cached
    {
      hide Legal, After;
      Act(before, PersistPending(w.createPending, w.readBackPending));
      if s.at.Unrecorded? {
        Act(before, BestEffortRevoke(w.bestEffort));
        SetCondition(before, OtherCondition, w.status);
      }
    }

    /** The branches for a lease found while a rotation is recorded. */
    method Rotate(ghost before: State, w: World) returns (answer: Answer)
      requires Legal(before, trace) && After(before, trace) == s && Ensuring(s) && s.at.Idle?
      requires s.active.Some? && s.cached.rotation.Some?
      modifies this
      ensures Legal(before, trace) && After(before, trace) == s
      ensures answer == Changed ==> !RotationMatches(old(s).cached.rotation, old(s).active)
      ensures answer == Ready ==> s == old(s).(stored := s.stored) && IsReplacement(s.cached.rotation.value, s.active.value)
      ensures answer != Failing && answer != Blocked
      ensures s.revoked == old(s).revoked || !old(s).cached.rotation.value.wake || Fenced(old(s))
      ensures s.stored.rotation == old(s).stored.rotation || s.stored.rotation.None?
      // with nothing in the way: the old lease is revoked and goes, and a fresh one ends the rotation
      ensures AllWell(w) && MayRetire(old(s)) ==> s.active.None? && old(s).active.value.credential.token in s.revoked
      ensures AllWell(w) && MayRetire(old(s)) && old(s).cached == old(s).stored ==> s.stored.condition == Issuing
      ensures AllWell(w) && MayFinish(old(s), w) ==> s.stored.rotation.None? && s.active == old(s).active
    {
      hide Legal, After;
      var r, lease := s.cached.rotation.value, s.active.value;
      answer := Again;
      if lease.uid != r.oldUid {
        if lease.generation != r.target {
          SetCondition(before, OtherCondition, w.status);
          return Changed;
        }
        if r.wake && !w.wakePublished {
          if w.held {
            SetCondition(before, LeaseReady, w.status);
            return Ready;
          }
          // a missing old Secret does not prove that its execution stopped
          if !Fenced(s) || !w.wakeAccepted {
            return;
          }
        }
        Act(before, FinishRotation(w.update));
        return;
      }
      if lease.generation + 1 != r.target {
        SetCondition(before, OtherCondition, w.status);
        return Changed;
      }
      if r.wake {
        if s.cached.condition != Refreshing {
          SetCondition(before, Refreshing, w.status);
          return;
        }
        if !Fenced(s) {
          return;
        }
        Act(before, ObserveFence);
      }
      Act(before, RevokeOld(w.revoke));
      if s.at.ActiveDone? {
        Act(before, DeleteActive(w.delete));
        if w.delete.Applied? {
          SetCondition(before, Issuing, w.status);
        }
      }
    }

    /**
     * Keeps the Run supplied with a lease.  It reports `Ready` only with a
     * lease in place and no revocation outstanding, a fresh one during a
     * rotation and one good for longer than the refresh margin otherwise.
     */
    method Ensure(w: World) returns (answer: Answer)
      requires s.at.Idle? && !s.closing
      modifies this
      ensures Legal(old(s), trace) && After(old(s), trace) == s
      ensures Inv(old(s)) ==> Inv(s) && answer != Blocked && answer != Changed
      ensures answer == Ready ==>
        && s.active.Some? && s.pending.None? && !s.env.gone && s.cached == old(s).cached
        && (if s.cached.rotation.Some? then IsReplacement(s.cached.rotation.value, s.active.value)
            else s.active.value.credential.expires > s.now + REFRESH_MARGIN)
      // a rotation it records is of the lease it found: without a wake exactly when the execution that received it is gone
      ensures s.stored.rotation.Some? && s.stored.rotation != old(s).stored.rotation ==>
        && old(s).active.Some?
        && s.stored.rotation.value.oldUid == old(s).active.value.uid
        && s.stored.rotation.value.target == old(s).active.value.generation + 1
        && (!s.stored.rotation.value.wake <==> old(s).active.value.bound && !old(s).env.pod && !old(s).env.provisioned)
      ensures AllWell(w) && DueForRotation(old(s)) ==> s.stored.rotation.Some?
      // without a token the Run first shows that one is being issued, and only then is one
      ensures AllWell(w) && Wanting(old(s)) && old(s).cached.condition != Issuing && old(s).cached.condition != Refreshing ==>
        s == old(s).(stored := s.stored) && s.stored.condition == Issuing
      ensures AllWell(w) && Wanting(old(s)) && (old(s).cached.condition == Issuing || old(s).cached.condition == Refreshing) ==>
        (w.issue.Handle? && !w.issue.invalid && w.issue.lifetime > MINIMUM_VALIDITY ==> s.active.Some? && !s.active.value.bound)
    {
      ghost var before := s;
      trace := [];
      answer := EnsureFrom(before, w);
      if Inv(before) {
        LegalKeepsInv(before, trace);
      }
    }

    method EnsureFrom(ghost before: State, w: World) returns (answer: Answer)
      requires s == before && Legal(before, trace) && After(before, trace) == s && s.at.Idle? && !s.closing
      modifies this
      ensures Legal(before, trace) && After(before, trace) == s
      ensures Inv(before) ==> answer != Blocked && answer != Changed
      ensures answer == Ready ==>
        && s.active.Some? && s.pending.None? && !s.env.gone && s.cached == before.cached
        && (if s.cached.rotation.Some? then IsReplacement(s.cached.rotation.value, s.active.value)
            else s.active.value.credential.expires > s.now + REFRESH_MARGIN)
      // a rotation it records is of the lease it found: without a wake exactly when the execution that received it is gone
      ensures s.stored.rotation.Some? && s.stored.rotation != before.stored.rotation ==>
        && before.active.Some?
        && s.stored.rotation.value.oldUid == before.active.value.uid
        && s.stored.rotation.value.target == before.active.value.generation + 1
        && (!s.stored.rotation.value.wake <==> before.active.value.bound && !before.env.pod && !before.env.provisioned)
      ensures AllWell(w) && DueForRotation(before) ==> s.stored.rotation.Some?
      ensures AllWell(w) && Wanting(before) && before.cached.condition != Issuing && before.cached.condition != Refreshing ==>
        s == before.(stored := s.stored) && s.stored.condition == Issuing
      ensures AllWell(w) && Wanting(before) && (before.cached.condition == Issuing || before.cached.condition == Refreshing) ==>
        (w.issue.Handle? && !w.issue.invalid && w.issue.lifetime > MINIMUM_VALIDITY ==> s.active.Some? && !s.active.value.bound)
    {
      hide Legal, After;
      var done;
      done, answer := CleanupPending(before, w);
      if !done {
        return;
      }
      if !w.provider || s.env.gone {
        SetCondition(before, OtherCondition, w.status);
        return Failing;
      }
      if !w.repositoryKnown {
        SetCondition(before, Issuing, w.status);
        return Again;
      }
      if s.active.None? {
        if s.cached.condition == Issuing || s.cached.condition == Refreshing {
          IssueLease(before, w);
        } else {
          SetCondition(before, Issuing, w.status);
        }
        return Again;
      }
      if s.cached.rotation.Some? {
        answer := Rotate(before, w);
        return;
      }
      // the execution that received a bound lease is gone: rotate before it resumes
      if s.active.value.bound && !s.env.pod && !s.env.provisioned {
        Act(before, ObservePodGone);
        Act(before, PersistRotation(false, w.update));
        return Again;
      }
      if s.active.value.credential.expires <= s.now + REFRESH_MARGIN {
        Act(before, PersistRotation(true, w.update));
        return Again;
      }
      SetCondition(before, LeaseReady, w.status);
      return Ready;
    }

    /**
     * Cleans up after the Run.  It reports completion only when neither Secret
     * is left and the token that was active is revoked or expired.
     */
    method Cleanup(w: World) returns (done: bool, answer: Answer)
      requires s.at.Idle?
      modifies this
      ensures Legal(old(s), trace) && After(old(s), trace) == s
      ensures Inv(old(s)) ==> Inv(s) && answer == Again
      ensures done ==>
        && s.active.None? && s.pending.None? && (FencedAt(old(s), old(s).env.viewed) || old(s).env.gone)
        && (old(s).active.Some? ==> Spent(s, old(s).active.value.credential))
        && (old(s).cached == old(s).stored ==> s.stored.rotation.None?)
      ensures AllWell(w) && Inv(old(s)) && MayClose(old(s)) ==> done
    {
      ghost var before := s;
      trace := [];
      done, answer := CleanupFrom(before, w);
      if Inv(before) {
        LegalKeepsInv(before, trace);
      }
    }

    /** Revokes the active token, or waits for it to expire, and then deletes its Secret. */
    method DropActive(ghost before: State, w: World) returns (done: bool)
      requires Legal(before, trace) && After(before, trace) == s && s.at.Cleaning? && s.closing
      requires s.pending.None? && s.active.Some? && RotationMatches(s.cached.rotation, s.active)
      modifies this
      ensures Legal(before, trace) && After(before, trace) == s
      ensures done ==>
        && s.at.Cleared? && s.active.None? && s.pending.None?
        && s.cached == old(s).cached && s.stored == old(s).stored && Spent(s, old(s).active.value.credential)
      ensures AllWell(w) ==> done
    {
      hide Legal, After;
      if !w.provider && s.now < s.active.value.credential.expires {
        SetCondition(before, RevocationPending, w.status);
        return false;
      }
      Act(before, RevokeActive(if w.provider then w.revoke else NotApplied));
      if !s.at.ActiveDone? {
        SetCondition(before, RevocationPending, w.status);
        return false;
      }
      Act(before, DeleteActive(w.delete));
      return w.delete.Applied?;
    }

    method CleanupFrom(ghost before: State, w: World) returns (done: bool, answer: Answer)
      requires s == before && Legal(before, trace) && After(before, trace) == s && s.at.Idle?
      modifies this
      ensures Legal(before, trace) && After(before, trace) == s
      ensures Inv(before) ==> answer == Again
      ensures done ==>
        && s.active.None? && s.pending.None? && (FencedAt(before, before.env.viewed) || before.env.gone)
        && (before.active.Some? ==> Spent(s, before.active.value.credential))
        && (before.cached == before.stored ==> s.stored.rotation.None?)
      ensures AllWell(w) && Inv(before) && MayClose(before) ==> done
    {
      hide Legal, After;
      // the Environment comes from the cache here
      if !s.env.gone && !FencedAt(s, s.env.viewed) {
        return false, Again;
      }
      Act(before, BeginCleanup);
      assert Inv(before) ==> Inv(s) by {
        if Inv(before) {
          InvStep(before, BeginCleanup);
        }
      }
      done, answer := CleanupPending(before, w);
      if !done {
        return;
      }
      if s.active.Some? {
        if !RotationMatches(s.cached.rotation, s.active) {
          return false, Blocked;
        }
        done := DropActive(before, w);
        if !done {
          return;
        }
      }
      done := DropRotation(before, w);
    }

    method DropRotation(ghost before: State, w: World) returns (done: bool)
      requires Legal(before, trace) && After(before, trace) == s && s.active.None? && s.pending.None?
      requires s.at.Cleared? || s.at.Cleaning?
      modifies this
      ensures Legal(before, trace) && After(before, trace) == s
      ensures s == old(s).(at := s.at, stored := s.stored)
      ensures done && old(s).cached.rotation == old(s).stored.rotation ==> s.stored.rotation.None?
      ensures AllWell(w) && old(s).cached.rotation == old(s).stored.rotation ==> done
    {
      hide Legal, After;
      if s.cached.rotation.None? {
        return true;
      }
      var current := s.cached.rotation == s.stored.rotation;
      Act(before, RemoveRotation(w.update));
      return w.update.Applied? && current;
    }
  }
}
