/**
 * The lifecycle decision of one Environment: hold policy, sequenced suspend
 * requests, scoped wakes and activity receipts.
 *
 * Identifiers are only ever compared for equality, so they are modelled by
 * small values instead of strings.  A request identifier published by the Run
 * controller names the sequence it was published with, which is kept.
 */
module Lifecycle {
  import opened Basics

  type Uid = nat

  datatype RequestId = NoId | FenceId(owner: Uid, sequence: nat) | OtherId(n: nat)

  datatype Reason = NoReason | ReasonHold | ReasonIdle | ReasonRequested

  datatype Phase =
    | NoPhase | Creating | Setup | Ready | Running | Idle | Paused | Resuming | Failed | Terminated

  datatype Source = Terminal | Portal | Inbox | Agent | Run

  datatype HoldPolicy = HoldPolicy(enabled: bool, revision: nat)

  datatype Request = Request(id: RequestId, uid: Uid, holdRevision: nat)

  datatype SuspendRequest = SuspendRequest(request: Request, sequence: nat)

  /** `expected == NoReason` is a request written before wakes were scoped. */
  datatype WakeRequest = WakeRequest(request: Request, expected: Reason)

  datatype ActivityRequest = ActivityRequest(source: Source, request: Request, execution: nat)

  datatype Receipt = Receipt(source: Source, id: RequestId, execution: nat)

  datatype LifecycleSpec = LifecycleSpec(
    hold: Option<HoldPolicy>,
    wake: Option<WakeRequest>,
    suspend: Option<SuspendRequest>)

  datatype LifecycleStatus = LifecycleStatus(
    suspended: bool,
    reason: Reason,
    requestId: RequestId,
    epoch: nat,
    observedHoldRevision: nat,
    lastWake: RequestId,
    lastSuspend: RequestId,
    lastSequence: nat,
    pending: RequestId,
    receipts: seq<Receipt>)

  const FRESH_STATUS := LifecycleStatus(false, NoReason, NoId, 0, 0, NoId, NoId, 0, NoId, [])

  /** What admission guarantees of every stored lifecycle spec. */
  predicate Admitted(spec: LifecycleSpec) {
    && (spec.hold.Some? ==> spec.hold.value.revision >= 1)
    && (spec.suspend.Some? ==> spec.suspend.value.request.id != NoId && spec.suspend.value.sequence >= 1)
  }

  /** What the decision reads of the Environment besides its lifecycle status. */
  datatype Context = Context(uid: Uid, spec: LifecycleSpec, execution: nat, phase: Phase)

  // ---------------------------------------------------------------------
  // The decision
  // ---------------------------------------------------------------------

  function PolicyRevision(spec: LifecycleSpec): nat {
    if spec.hold.Some? then spec.hold.value.revision else 0
  }

  predicate Held(spec: LifecycleSpec) {
    spec.hold.Some? && spec.hold.value.enabled
  }

  predicate ValidRequest(c: Context, r: Request) {
    r.uid == c.uid && r.holdRevision == PolicyRevision(c.spec)
  }

  /** A published suspend request that this decision takes up. */
  predicate AcceptsSuspend(c: Context, l: LifecycleStatus) {
    && c.spec.suspend.Some?
    && ValidRequest(c, c.spec.suspend.value.request)
    && l.pending == NoId
    && c.spec.suspend.value.sequence > l.lastSequence
    && c.spec.suspend.value.request.id != l.lastSuspend
  }

  predicate Fencing(c: Context, l: LifecycleStatus) {
    AcceptsSuspend(c, l) || l.pending != NoId
  }

  /** Suspension was decided but the backend is not yet known to be gone. */
  predicate BackendFencePending(c: Context, l: LifecycleStatus) {
    l.suspended && c.phase != Paused
  }

  predicate NewWake(c: Context, l: LifecycleStatus) {
    && c.spec.wake.Some?
    && ValidRequest(c, c.spec.wake.value.request)
    && c.spec.wake.value.request.id != l.lastWake
  }

  predicate WakeMatches(c: Context, l: LifecycleStatus) {
    && c.spec.wake.Some?
    && var expected := if c.spec.wake.value.expected == NoReason then ReasonIdle else c.spec.wake.value.expected;
       expected == (if Held(c.spec) then ReasonHold else if Fencing(c, l) then ReasonRequested else l.reason)
  }

  predicate ConsumesWake(c: Context, l: LifecycleStatus) {
    && NewWake(c, l)
    && (Held(c.spec) || !WakeMatches(c, l) || (!Fencing(c, l) && !BackendFencePending(c, l)))
  }

  /** Disabling a hold is its own release; every other suspension needs a matching wake. */
  predicate Releases(c: Context, l: LifecycleStatus) {
    && !Held(c.spec)
    && !Fencing(c, l)
    && (if l.suspended && l.reason == ReasonHold && c.phase == Paused then true
        else ConsumesWake(c, l) && WakeMatches(c, l) && l.reason != ReasonHold)
  }

  /** The lifecycle status after one decision, activity receipts aside. */
  function Decide(c: Context, l: LifecycleStatus): LifecycleStatus {
    var accepts := AcceptsSuspend(c, l);
    var id := if accepts then c.spec.suspend.value.request.id else l.pending;
    var suspended := Held(c.spec) || Fencing(c, l) || (l.suspended && !Releases(c, l));
    l.(
      observedHoldRevision := PolicyRevision(c.spec),
      lastSuspend := if accepts then id else l.lastSuspend,
      lastSequence := if accepts then c.spec.suspend.value.sequence else l.lastSequence,
      pending := id,
      lastWake := if ConsumesWake(c, l) then c.spec.wake.value.request.id else l.lastWake,
      epoch := if suspended && !l.suspended then l.epoch + 1 else l.epoch,
      suspended := suspended,
      reason :=
        if Held(c.spec) then ReasonHold
        else if Fencing(c, l) then ReasonRequested
        else if Releases(c, l) then NoReason else l.reason,
      requestId :=
        if Held(c.spec) then NoId
        else if Fencing(c, l) then id
        else if Releases(c, l) then NoId else l.requestId)
  }

  // ---------------------------------------------------------------------
  // Activity receipts
  // ---------------------------------------------------------------------

  function Acknowledged(receipts: seq<Receipt>, source: Source, execution: nat): RequestId {
    if receipts == [] then NoId
    else if receipts[0].source == source && receipts[0].execution == execution then receipts[0].id
    else Acknowledged(receipts[1..], source, execution)
  }

  function WithReceipt(receipts: seq<Receipt>, source: Source, execution: nat, id: RequestId): seq<Receipt> {
    if receipts == [] then [Receipt(source, id, execution)]
    else if receipts[0].source == source then [Receipt(source, id, execution)] + receipts[1..]
    else [receipts[0]] + WithReceipt(receipts[1..], source, execution, id)
  }

  /** A request for this Environment, under its policy and for its execution. */
  predicate Current(c: Context, a: ActivityRequest) {
    ValidRequest(c, a.request) && a.execution == c.execution
  }

  predicate NewActivity(c: Context, receipts: seq<Receipt>, a: ActivityRequest) {
    && Current(c, a)
    && Acknowledged(receipts, a.source, a.execution) != a.request.id
  }

  function Consume(c: Context, receipts: seq<Receipt>, activity: seq<ActivityRequest>): seq<Receipt> {
    if activity == [] then receipts
    else
      var a := activity[|activity| - 1];
      var r := Consume(c, receipts, activity[..|activity| - 1]);
      if NewActivity(c, r, a) then WithReceipt(r, a.source, a.execution, a.request.id) else r
  }

  /** Whether consuming `activity` takes up at least one request. */
  predicate SawActivity(c: Context, receipts: seq<Receipt>, activity: seq<ActivityRequest>) {
    exists i :: 0 <= i < |activity| && NewActivity(c, Consume(c, receipts, activity[..i]), activity[i])
  }

  function LastActive(last: Option<nat>, now: nat, active: bool): Option<nat> {
    if active && (last.None? || now > last.value) then Some(now) else last
  }

  /** The whole intent step on the lifecycle status. */
  function Intent(c: Context, l: LifecycleStatus, activity: seq<ActivityRequest>): LifecycleStatus {
    Decide(c, l.(receipts := Consume(c, l.receipts, activity)))
  }

  predicate DistinctSources(activity: seq<ActivityRequest>) {
    forall i, j :: 0 <= i < j < |activity| ==> activity[i].source != activity[j].source
  }

  // ---------------------------------------------------------------------
  // Requests offered to the decision
  // ---------------------------------------------------------------------

  const SOURCES: seq<Source> := [Terminal, Portal, Inbox, Agent, Run]

  predicate WellFormedActivity(a: ActivityRequest) {
    a.request.id != NoId && a.request.uid != 0 && a.execution >= 1
  }

  /** The last well-formed legacy request of a source. */
  function LegacySlot(legacy: seq<ActivityRequest>, source: Source): Option<ActivityRequest> {
    if legacy == [] then None
    else
      var a := legacy[|legacy| - 1];
      if a.source == source && WellFormedActivity(a) then Some(a) else LegacySlot(legacy[..|legacy| - 1], source)
  }

  /** The request offered for one source: a current metadata slot supersedes the legacy list. */
  function Slot(c: Context, legacy: seq<ActivityRequest>, slots: map<Source, ActivityRequest>, source: Source)
    : Option<ActivityRequest>
  {
    if source in slots && slots[source].source == source && WellFormedActivity(slots[source])
       && ValidRequest(c, slots[source].request) && slots[source].execution == c.execution
    then Some(slots[source])
    else LegacySlot(legacy, source)
  }

  function Slots(c: Context, legacy: seq<ActivityRequest>, slots: map<Source, ActivityRequest>, sources: seq<Source>)
    : seq<ActivityRequest>
  {
    if sources == [] then []
    else
      var rest := Slots(c, legacy, slots, sources[..|sources| - 1]);
      var s := Slot(c, legacy, slots, sources[|sources| - 1]);
      if s.Some? then rest + [s.value] else rest
  }

  function ActivityRequests(c: Context, legacy: seq<ActivityRequest>, slots: map<Source, ActivityRequest>)
    : seq<ActivityRequest>
  {
    Slots(c, legacy, slots, SOURCES)
  }

  lemma {:induction false} LegacySlotSource(legacy: seq<ActivityRequest>, source: Source)
    ensures LegacySlot(legacy, source).Some? ==> LegacySlot(legacy, source).value.source == source
  {
    if legacy != [] {
      LegacySlotSource(legacy[..|legacy| - 1], source);
    }
  }

  lemma {:induction false} SlotsDistinct(
    c: Context, legacy: seq<ActivityRequest>, slots: map<Source, ActivityRequest>, sources: seq<Source>)
    requires forall i, j :: 0 <= i < j < |sources| ==> sources[i] != sources[j]
    ensures DistinctSources(Slots(c, legacy, slots, sources))
    ensures forall i :: 0 <= i < |Slots(c, legacy, slots, sources)| ==> Slots(c, legacy, slots, sources)[i].source in sources
  {
    if sources != [] {
      var n := |sources| - 1;
      SlotsDistinct(c, legacy, slots, sources[..n]);
      LegacySlotSource(legacy, sources[n]);
      var rest := Slots(c, legacy, slots, sources[..n]);
      forall i | 0 <= i < |rest| ensures rest[i].source != sources[n] && rest[i].source in sources {
        var k :| 0 <= k < n && sources[..n][k] == rest[i].source;
        assert sources[k] == rest[i].source;
      }
    }
  }

  /** The requests offered to the decision never name one source twice. */
  lemma ActivityRequestsDistinct(c: Context, legacy: seq<ActivityRequest>, slots: map<Source, ActivityRequest>)
    ensures DistinctSources(ActivityRequests(c, legacy, slots))
  {
    SlotsDistinct(c, legacy, slots, SOURCES);
  }

  // ---------------------------------------------------------------------
  // One application is a fixpoint
  // ---------------------------------------------------------------------

  lemma {:induction false} ReceiptRead(r: seq<Receipt>, source: Source, execution: nat, id: RequestId, other: Source)
    ensures Acknowledged(WithReceipt(r, source, execution, id), source, execution) == id
    ensures other != source ==>
      Acknowledged(WithReceipt(r, source, execution, id), other, execution) == Acknowledged(r, other, execution)
  {
    if r != [] && r[0].source != source {
      ReceiptRead(r[1..], source, execution, id, other);
      assert WithReceipt(r, source, execution, id)[1..] == WithReceipt(r[1..], source, execution, id);
    }
  }

  /** What a source acknowledged is kept per execution: the first receipt of both counts, and without one nothing does. */
  lemma {:induction false} AcknowledgedIs(r: seq<Receipt>, source: Source, execution: nat, i: nat)
    requires i <= |r| && forall k :: 0 <= k < i ==> r[k].source != source || r[k].execution != execution
    requires i < |r| ==> r[i].source == source && r[i].execution == execution
    ensures Acknowledged(r, source, execution) == if i < |r| then r[i].id else NoId
  {
    if i > 0 {
      AcknowledgedIs(r[1..], source, execution, i - 1);
    }
  }

  /** Consuming requests of other sources leaves what one source acknowledged alone. */
  lemma {:induction false} ConsumeKeeps(c: Context, r: seq<Receipt>, activity: seq<ActivityRequest>, source: Source)
    requires forall i :: 0 <= i < |activity| ==> activity[i].source != source
    ensures Acknowledged(Consume(c, r, activity), source, c.execution) == Acknowledged(r, source, c.execution)
  {
    if activity != [] {
      var n := |activity| - 1;
      ConsumeKeeps(c, r, activity[..n], source);
      var a := activity[n];
      ReceiptRead(Consume(c, r, activity[..n]), a.source, a.execution, a.request.id, source);
    }
  }

  /** No two requests this decision may take up name one source with different identifiers. */
  predicate Agreeing(c: Context, activity: seq<ActivityRequest>) {
    forall i, j ::
      0 <= i < j < |activity| && Current(c, activity[i]) && Current(c, activity[j]) && activity[i].source == activity[j].source ==>
        activity[i].request.id == activity[j].request.id
  }

  /** After consumption every offered request is acknowledged. */
  lemma {:induction false} ConsumeAcknowledges(c: Context, r: seq<Receipt>, activity: seq<ActivityRequest>, k: nat)
    requires Agreeing(c, activity) && k < |activity|
    ensures !NewActivity(c, Consume(c, r, activity), activity[k])
  {
    var n := |activity| - 1;
    var a := activity[n];
    var before := Consume(c, r, activity[..n]);
    ReceiptRead(before, a.source, a.execution, a.request.id, activity[k].source);
    if k < n {
      ConsumeAcknowledges(c, r, activity[..n], k);
      assert activity[..n][k] == activity[k];
    }
  }

  /** A consumption that takes up nothing leaves the receipts alone throughout. */
  lemma {:induction false} QuietConsume(c: Context, r: seq<Receipt>, activity: seq<ActivityRequest>, i: nat)
    requires !SawActivity(c, r, activity) && i <= |activity|
    ensures Consume(c, r, activity[..i]) == r
  {
    if i > 0 {
      QuietConsume(c, r, activity, i - 1);
      assert activity[..i][..i - 1] == activity[..i - 1];
      assert !NewActivity(c, Consume(c, r, activity[..i - 1]), activity[i - 1]);
    }
  }

  lemma {:induction false} ConsumeIdle(c: Context, r: seq<Receipt>, activity: seq<ActivityRequest>)
    requires forall k :: 0 <= k < |activity| ==> !NewActivity(c, r, activity[k])
    ensures Consume(c, r, activity) == r && !SawActivity(c, r, activity)
  {
    forall i | 0 <= i < |activity| ensures Consume(c, r, activity[..i]) == r {
      ConsumeIdle(c, r, activity[..i]);
    }
    if activity != [] {
      ConsumeIdle(c, r, activity[..|activity| - 1]);
    }
  }

  lemma DecideFixpoint(c: Context, l: LifecycleStatus)
    requires Admitted(c.spec)
    ensures Decide(c, Decide(c, l)) == Decide(c, l)
  {
    var m := Decide(c, l);
    assert !AcceptsSuspend(c, m);
    if NewWake(c, m) {
      assert WakeMatches(c, l) && !Held(c.spec) && (Fencing(c, l) || BackendFencePending(c, l));
      assert !ConsumesWake(c, m);
    }
  }

  /**
   * Applying the intent step a second time, with the same spec and phase,
   * changes nothing and sees no activity: a reconcile that wrote the status
   * does not write it again.
   */
  lemma IntentFixpoint(c: Context, l: LifecycleStatus, activity: seq<ActivityRequest>)
    requires Admitted(c.spec) && Agreeing(c, activity)
    ensures var m := Intent(c, l, activity);
      Intent(c, m, activity) == m && !SawActivity(c, m.receipts, activity)
  {
    var r := Consume(c, l.receipts, activity);
    forall k | 0 <= k < |activity| ensures !NewActivity(c, r, activity[k]) {
      ConsumeAcknowledges(c, l.receipts, activity, k);
    }
    ConsumeIdle(c, r, activity);
    var consumed := l.(receipts := r);
    DecideFixpoint(c, consumed);
    assert Intent(c, l, activity).receipts == r;
    assert Intent(c, l, activity).(receipts := r) == Intent(c, l, activity);
  }

  /**
   * The step settles exactly when the requests it may take up agree, source by
   * source; otherwise every application sees activity again.
   */
  lemma IntentSettlesIff(c: Context, l: LifecycleStatus, activity: seq<ActivityRequest>)
    requires Admitted(c.spec)
    ensures !SawActivity(c, Intent(c, l, activity).receipts, activity) <==> Agreeing(c, activity)
  {
    if Agreeing(c, activity) {
      IntentFixpoint(c, l, activity);
    }
    var r := Intent(c, l, activity).receipts;
    if !SawActivity(c, r, activity) {
      forall i | 0 <= i < |activity| ensures !NewActivity(c, r, activity[i]) {
        QuietConsume(c, r, activity, i);
      }
    }
  }

  /** The requests offered to the decision always agree. */
  lemma ActivityRequestsSettle(c: Context, l: LifecycleStatus, legacy: seq<ActivityRequest>, slots: map<Source, ActivityRequest>)
    requires Admitted(c.spec)
    ensures var activity := ActivityRequests(c, legacy, slots);
      var m := Intent(c, l, activity);
      Intent(c, m, activity) == m && !SawActivity(c, m.receipts, activity)
  {
    ActivityRequestsDistinct(c, legacy, slots);
    IntentFixpoint(c, l, ActivityRequests(c, legacy, slots));
  }

  // ---------------------------------------------------------------------
  // Who may end a suspension
  // ---------------------------------------------------------------------

  /** The valid wake in `c` was not the last one taken, and asks to end this kind of suspension. */
  predicate Wakes(c: Context, l: LifecycleStatus) {
    && c.spec.wake.Some?
    && var w := c.spec.wake.value;
       && w.request.uid == c.uid && w.request.holdRevision == PolicyRevision(c.spec) && w.request.id != l.lastWake
       && l.reason == if w.expected == NoReason then ReasonIdle else w.expected
  }

  /**
   * A suspension ends exactly when no hold is enabled, no suspend request is
   * pending or acceptable, the backend is gone, and either the suspension was
   * the hold's own or a new wake was published for just this reason.
   */
  lemma ReleasedIff(c: Context, l: LifecycleStatus)
    requires l.suspended
    ensures !Decide(c, l).suspended <==>
      && !Held(c.spec) && l.pending == NoId && !AcceptsSuspend(c, l) && c.phase == Paused
      && (l.reason == ReasonHold || Wakes(c, l))
  {
  }

  /** A suspension begins exactly when a hold is enabled or a suspend request is pending or accepted. */
  lemma SuspendedIff(c: Context, l: LifecycleStatus)
    requires !l.suspended
    ensures Decide(c, l).suspended <==> Held(c.spec) || l.pending != NoId || AcceptsSuspend(c, l)
  {
  }

  // ---------------------------------------------------------------------
  // What a decision writes down
  // ---------------------------------------------------------------------

  /**
   * The request a decision takes up, and what it records a suspension as: a
   * hold under no request, a request as requested under its own identifier,
   * anything else as what it was.  A release clears both.
   */
  lemma DecisionRecords(c: Context, l: LifecycleStatus)
    ensures var m := Decide(c, l);
      var held := c.spec.hold.Some? && c.spec.hold.value.enabled;
      var revision := if c.spec.hold.Some? then c.spec.hold.value.revision else 0;
      var r := c.spec.suspend;
      var accepts :=
        && r.Some? && r.value.request.uid == c.uid && r.value.request.holdRevision == revision
        && l.pending == NoId && r.value.sequence > l.lastSequence && r.value.request.id != l.lastSuspend;
      && m.observedHoldRevision == revision && m.receipts == l.receipts
      && (if accepts
          then m.pending == m.lastSuspend == r.value.request.id && m.lastSequence == r.value.sequence
          else m.pending == l.pending && m.lastSuspend == l.lastSuspend && m.lastSequence == l.lastSequence)
      && (held ==> m.suspended && m.reason == ReasonHold && m.requestId == NoId)
      && (!held && (accepts || l.pending != NoId) ==> m.suspended && m.reason == ReasonRequested && m.requestId == m.pending)
      && (!held && !accepts && l.pending == NoId && m.suspended ==>
            l.suspended && m.reason == l.reason && m.requestId == l.requestId)
      && (!m.suspended && l.suspended ==> m.reason == NoReason && m.requestId == NoId)
  {
  }

  /**
   * A wake is taken exactly when it is for this Environment and policy, is not
   * the last one taken, and either asks for something else than what it finds,
   * or finds a hold, or finds what it asks for with the backend gone and no
   * request being answered.  A wake that has to wait is left for later.
   */
  lemma WakeTakenIff(c: Context, l: LifecycleStatus)
    ensures var m := Decide(c, l);
      var held := c.spec.hold.Some? && c.spec.hold.value.enabled;
      var revision := if c.spec.hold.Some? then c.spec.hold.value.revision else 0;
      var answering := m.pending != NoId;
      var finds := if held then ReasonHold else if answering then ReasonRequested else l.reason;
      var w := c.spec.wake;
      var taken :=
        && w.Some? && w.value.request.uid == c.uid && w.value.request.holdRevision == revision && w.value.request.id != l.lastWake
        && (|| held
            || finds != (if w.value.expected == NoReason then ReasonIdle else w.value.expected)
            || (!answering && (!l.suspended || c.phase == Paused)));
      Admitted(c.spec) ==> m.lastWake == if taken then w.value.request.id else l.lastWake
  {
  }

  // ---------------------------------------------------------------------
  // What is offered, and what it renews
  // ---------------------------------------------------------------------

  /** Of the legacy requests of a source the last well-formed one counts. */
  lemma {:induction false} LegacySlotIs(legacy: seq<ActivityRequest>, source: Source, i: nat)
    requires i < |legacy|
    requires legacy[i].source == source && legacy[i].request.id != NoId && legacy[i].request.uid != 0 && legacy[i].execution >= 1
    requires forall k :: i < k < |legacy| && legacy[k].source == source ==>
      legacy[k].request.id == NoId || legacy[k].request.uid == 0 || legacy[k].execution == 0
    ensures LegacySlot(legacy, source) == Some(legacy[i])
  {
    if i < |legacy| - 1 {
      LegacySlotIs(legacy[..|legacy| - 1], source, i);
    }
  }

  lemma {:induction false} LegacySlotNone(legacy: seq<ActivityRequest>, source: Source)
    ensures LegacySlot(legacy, source).None? <==>
      forall k :: 0 <= k < |legacy| && legacy[k].source == source ==>
        legacy[k].request.id == NoId || legacy[k].request.uid == 0 || legacy[k].execution == 0
  {
    if legacy != [] {
      LegacySlotNone(legacy[..|legacy| - 1], source);
    }
  }

  lemma {:induction false} SlotsMembers(
    c: Context, legacy: seq<ActivityRequest>, slots: map<Source, ActivityRequest>, sources: seq<Source>, a: ActivityRequest)
    ensures a in Slots(c, legacy, slots, sources) <==> exists i :: 0 <= i < |sources| && Slot(c, legacy, slots, sources[i]) == Some(a)
  {
    if sources != [] {
      var n := |sources| - 1;
      SlotsMembers(c, legacy, slots, sources[..n], a);
      if Slot(c, legacy, slots, sources[n]) == Some(a) {
        assert sources[n] in sources;
      }
      if i :| 0 <= i < |sources| && Slot(c, legacy, slots, sources[i]) == Some(a) && i < n {
        assert sources[..n][i] == sources[i];
      }
    }
  }

  /**
   * For each source exactly one request is offered if there is one: the
   * metadata slot when it is well formed and for this Environment, policy and
   * execution, and the legacy request otherwise.
   */
  lemma ActivityRequestsOffered(c: Context, legacy: seq<ActivityRequest>, slots: map<Source, ActivityRequest>, a: ActivityRequest)
    ensures var revision := if c.spec.hold.Some? then c.spec.hold.value.revision else 0;
      var s := a.source;
      var slotted :=
        && s in slots && slots[s].source == s && slots[s].request.id != NoId && slots[s].request.uid != 0 && slots[s].execution >= 1
        && slots[s].request.uid == c.uid && slots[s].request.holdRevision == revision && slots[s].execution == c.execution;
      a in ActivityRequests(c, legacy, slots) <==> if slotted then slots[s] == a else LegacySlot(legacy, s) == Some(a)
  {
    SlotsMembers(c, legacy, slots, SOURCES, a);
    forall s: Source | Slot(c, legacy, slots, s) == Some(a) ensures s == a.source {
      LegacySlotSource(legacy, s);
    }
    assert SOURCES[0] == Terminal && SOURCES[1] == Portal && SOURCES[2] == Inbox && SOURCES[3] == Agent && SOURCES[4] == Run;
    assert exists i :: 0 <= i < |SOURCES| && SOURCES[i] == a.source by {
      var i := match a.source case Terminal => 0 case Portal => 1 case Inbox => 2 case Agent => 3 case Run => 4;
      assert SOURCES[i] == a.source;
    }
  }

  /** Taking up activity makes the Environment active now; taking up none leaves that alone. */
  lemma ActivityRenews(last: Option<nat>, now: nat, active: bool)
    ensures var r := LastActive(last, now, active);
      && (active ==> r.Some? && r.value >= now && (r.value == now || r == last))
      && (last.Some? ==> r.Some? && r.value >= last.value)
      && (!active ==> r == last)
  {
  }
}
