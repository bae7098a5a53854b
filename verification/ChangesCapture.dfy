/**
 * Capturing the changes of one Run into its record, and reading them back a
 * page at a time.
 *
 * Requests run concurrently: each loads the record, captures a snapshot, and
 * saves what it made of the two by compare-and-swap.  The record is deleted
 * only while the Run is deleting, and only once every admitted request is done.
 */
module ChangesCapture {
  import opened Basics
  import opened ChangesStore

  datatype Request = Request(baseline: bool, final: bool, environmentUid: nat)

  // ---------------------------------------------------------------------
  // What a request saves
  // ---------------------------------------------------------------------

  datatype Update = Answered | Refused | SaveNext(record: Record)

  /** Identical polling observations keep their revision. */
  predicate Unchanged(loaded: Record, request: Request, snapshot: Snapshot) {
    loaded.revision > 0 && !request.final && !loaded.unavailable && snapshot.available && loaded.current == snapshot
  }

  function Next(loaded: Record, request: Request, snapshot: Snapshot, now: nat): Update {
    if loaded.final || (request.baseline && loaded.revision > 0) then Answered
    else if loaded.revision > 0 && loaded.environmentUid != request.environmentUid then Refused
    else if Unchanged(loaded, request, snapshot) then Answered
    else
      var first := loaded.revision == 0;
      SaveNext(Record(
        loaded.revision + 1,
        if first then request.environmentUid else loaded.environmentUid,
        if !first then loaded.baseline else if request.baseline then snapshot else UNAVAILABLE,
        if snapshot.available then snapshot else if first then UNAVAILABLE else loaded.current,
        if snapshot.available then now else loaded.capturedAt,
        request.final,
        !snapshot.available))
  }

  /** The update of a loaded record, field by field. */
  method UpdateRecord(loaded: Record, request: Request, snapshot: Snapshot, now: nat) returns (u: Update)
    ensures u == Next(loaded, request, snapshot, now)
    // another Environment on a started, open record is refused
    ensures u.Refused? <==>
      && !loaded.final && loaded.revision > 0 && !request.baseline && loaded.environmentUid != request.environmentUid
    // nothing is saved only when the record is final, has its baseline, or already says what was captured
    ensures u.Answered? <==>
      || loaded.final
      || (request.baseline && loaded.revision > 0)
      || (&& loaded.revision > 0 && loaded.environmentUid == request.environmentUid && !request.final
          && snapshot.available && loaded.current == snapshot && !loaded.unavailable)
    // in particular a final capture always closes an open record
    ensures request.final && !loaded.final && loaded.revision == 0 ==> u.SaveNext? && u.record.final
    ensures request.final && !loaded.final && !request.baseline && loaded.environmentUid == request.environmentUid ==>
      u.SaveNext? && u.record.final
    ensures u.SaveNext? ==> u.record.revision == loaded.revision + 1
    ensures u.SaveNext? ==> u.record.final == request.final && (u.record.unavailable <==> !snapshot.available)
    ensures u.SaveNext? && snapshot.available ==> u.record.current == snapshot && u.record.capturedAt == now
    ensures u.SaveNext? && loaded.revision == 0 ==>
      && u.record.environmentUid == request.environmentUid
      && u.record.baseline == if request.baseline then snapshot else UNAVAILABLE
    ensures u.SaveNext? && loaded.revision > 0 ==>
      u.record.baseline == loaded.baseline && u.record.environmentUid == loaded.environmentUid == request.environmentUid
    ensures u.SaveNext? && loaded.revision > 0 && !snapshot.available ==>
      u.record.current == loaded.current && u.record.capturedAt == loaded.capturedAt && u.record.unavailable
  {
    var record := loaded;
    if record.final || (request.baseline && record.revision > 0) {
      return Answered;
    }
    var expected := record.revision;
    var identical := expected > 0 && !request.final && !record.unavailable && snapshot.available && record.current == snapshot;
    if expected == 0 {
      record := record.(environmentUid := request.environmentUid, baseline := UNAVAILABLE, current := UNAVAILABLE);
      if request.baseline {
        record := record.(baseline := snapshot);
      }
    } else if record.environmentUid != request.environmentUid {
      return Refused;
    }
    record := record.(revision := record.revision + 1, final := request.final, unavailable := !snapshot.available);
    if snapshot.available {
      record := record.(current := snapshot, capturedAt := now);
    }
    if identical {
      return Answered;
    }
    return SaveNext(record);
  }

  // ---------------------------------------------------------------------
  // Runs of requests
  // ---------------------------------------------------------------------

  datatype Flight = Flight(loaded: Record, request: Request)

  datatype State = State(records: map<Id, Record>, flights: map<nat, Flight>, deleting: bool, deleted: bool)

  datatype Action =
    | Admit(flight: nat, request: Request)
    | Save(flight: nat, snapshot: Snapshot, now: nat, room: bool)
    | Abandon(flight: nat)
    | MarkDeleting
    | Delete

  /** The one Run these requests are for. */
  const RUN: Id := 0

  predicate Enabled(s: State, a: Action) {
    match a
    case Admit(f, _) => f !in s.flights && !s.deleting
    case Save(f, _, _, _) => f in s.flights
    case Abandon(f) => f in s.flights
    case MarkDeleting => true
    case Delete => s.deleting && s.flights == map[]
  }

  function Do(s: State, a: Action): State
    requires Enabled(s, a)
  {
    match a
    case Admit(f, request) => s.(flights := s.flights[f := Flight(Loaded(s.records, RUN), request)])
    case Save(f, snapshot, now, room) =>
      var loaded := s.flights[f].loaded;
      var u := Next(loaded, s.flights[f].request, snapshot, now);
      var t := s.(flights := s.flights - {f});
      if u.SaveNext? && room then t.(records := SaveTo(s.records, RUN, loaded.revision, u.record).0) else t
    case Abandon(f) => s.(flights := s.flights - {f})
    case MarkDeleting => s.(deleting := true)
    case Delete => s.(records := s.records - {RUN}, deleted := true)
  }

  ghost predicate IsRun(states: seq<State>, actions: seq<Action>) {
    && |states| == |actions| + 1
    && states[0].records == map[] && states[0].flights == map[] && !states[0].deleting && !states[0].deleted
    && forall i :: 0 <= i < |actions| ==> Enabled(states[i], actions[i]) && states[i + 1] == Do(states[i], actions[i])
  }

  /** A request whose revision is still the stored one holds the stored record. */
  ghost predicate Inv(s: State) {
    && Started(s.records)
    && (s.deleted ==> s.deleting && s.flights == map[] && RUN !in s.records)
    && (forall f :: f in s.flights ==>
          && s.flights[f].loaded.revision <= Loaded(s.records, RUN).revision
          && (s.flights[f].loaded.revision == Loaded(s.records, RUN).revision ==>
                s.flights[f].loaded == Loaded(s.records, RUN)))
  }

  lemma InvStep(s: State, a: Action)
    requires Inv(s) && Enabled(s, a)
    ensures Inv(Do(s, a))
  {
  }

  lemma {:induction false} InvAlways(states: seq<State>, actions: seq<Action>, i: nat)
    requires IsRun(states, actions) && i < |states|
    ensures Inv(states[i])
  {
    hide Do;
    if i > 0 {
      InvAlways(states, actions, i - 1);
      InvStep(states[i - 1], actions[i - 1]);
    }
  }

  /** What one step may do to a stored record. */
  ghost predicate Continues(a: Record, b: Record) {
    || b == a
    || (&& b.revision == a.revision + 1 && !a.final
        && b.environmentUid == a.environmentUid && b.baseline == a.baseline
        && (b.unavailable ==> b.current == a.current && b.capturedAt == a.capturedAt)
        && (a.current.available ==> b.current.available))
  }

  lemma RecordStep(s: State, a: Action)
    requires Inv(s) && Enabled(s, a) && RUN in s.records
    ensures var t := Do(s, a);
      if a.Delete? then RUN !in t.records else RUN in t.records && Continues(s.records[RUN], t.records[RUN])
  {
  }

  /**
   * Each change of a stored record is the next revision of the same baseline
   * and Environment; a final record never changes; and a capture that found
   * nothing available leaves the content and the time of the last one.
   */
  lemma RecordContinues(states: seq<State>, actions: seq<Action>, i: nat)
    requires IsRun(states, actions) && i < |actions| && RUN in states[i].records && RUN in states[i + 1].records
    ensures Continues(states[i].records[RUN], states[i + 1].records[RUN])
  {
    hide Do;
    InvAlways(states, actions, i);
    RecordStep(states[i], actions[i]);
  }

  lemma DeletedStep(s: State, a: Action)
    requires Inv(s) && Enabled(s, a) && s.deleted
    ensures Do(s, a).deleted
  {
  }

  lemma {:induction false} DeletedForGood(states: seq<State>, actions: seq<Action>, i: nat, j: nat)
    requires IsRun(states, actions) && i <= j < |states| && states[i].deleted
    ensures states[j].deleted && RUN !in states[j].records
  {
    hide Do;
    InvAlways(states, actions, j);
    if i < j {
      DeletedForGood(states, actions, i, j - 1);
      InvAlways(states, actions, j - 1);
      DeletedStep(states[j - 1], actions[j - 1]);
    }
  }

  lemma Deletes(s: State, a: Action)
    requires Enabled(s, a) && a.Delete?
    ensures Do(s, a).deleted
  {
  }

  /**
   * Over a whole run the Environment and the baseline are those of the first
   * save, revisions never fall, one revision names one record, and a final
   * record is the last.
   */
  lemma {:induction false} RecordFixed(states: seq<State>, actions: seq<Action>, i: nat, j: nat)
    requires IsRun(states, actions) && i <= j < |states| && RUN in states[i].records && RUN in states[j].records
    ensures var a, b := states[i].records[RUN], states[j].records[RUN];
      && b.environmentUid == a.environmentUid && b.baseline == a.baseline
      && a.revision <= b.revision && (a.revision == b.revision ==> a == b)
      && (a.final ==> a == b)
      && (a.current.available ==> b.current.available)
  {
    hide Do;
    if i < j {
      if RUN !in states[j - 1].records {
        GoneStaysGone(states, actions, i, j - 1);
        DeletedForGood(states, actions, j - 1, j);
      } else {
        RecordFixed(states, actions, i, j - 1);
        RecordContinues(states, actions, j - 1);
      }
    }
  }

  /** A record that was there and no longer is has been deleted. */
  lemma {:induction false} GoneStaysGone(states: seq<State>, actions: seq<Action>, i: nat, j: nat)
    requires IsRun(states, actions) && i <= j < |states| && RUN in states[i].records && RUN !in states[j].records
    ensures states[j].deleted
  {
    hide Do;
    InvAlways(states, actions, j - 1);
    if RUN in states[j - 1].records {
      RecordStep(states[j - 1], actions[j - 1]);
      Deletes(states[j - 1], actions[j - 1]);
    } else {
      GoneStaysGone(states, actions, i, j - 1);
      DeletedStep(states[j - 1], actions[j - 1]);
    }
  }

  // ---------------------------------------------------------------------
  // Pages
  // ---------------------------------------------------------------------

  const PAGE_SIZE: nat := 50

  datatype File = File(path: string, kind: nat, diff: string)

  function Listed(files: seq<File>): seq<File> {
    seq(|files|, i requires 0 <= i < |files| => files[i].(diff := ""))
  }

  function PageEnd(files: seq<File>, offset: nat): nat {
    if offset + PAGE_SIZE < |files| then offset + PAGE_SIZE else |files|
  }

  /** One page without diffs, and where the next one starts; 0 says there is none. */
  method WritePage(files: seq<File>, offset: nat) returns (page: Option<seq<File>>, next: nat)
    ensures page.None? <==> offset > |files|
    ensures page.Some? ==> page.value == Listed(files)[offset..PageEnd(files, offset)] && |page.value| <= PAGE_SIZE
    ensures page.Some? ==> next == if PageEnd(files, offset) < |files| then PageEnd(files, offset) else 0
  {
    if offset > |files| {
      return None, 0;
    }
    var end := if offset + PAGE_SIZE < |files| then offset + PAGE_SIZE else |files|;
    var result: seq<File> := [];
    for i := offset to end
      invariant result == Listed(files)[offset..i]
    {
      result := result + [files[i].(diff := "")];
    }
    return Some(result), if end < |files| then end else 0;
  }

  /** The first file of a path, with its diff. */
  method FindFile(files: seq<File>, path: string) returns (found: Option<File>)
    ensures found.Some? ==> exists i ::
      && 0 <= i < |files| && found == Some(files[i]) && files[i].path == path
      && forall k :: 0 <= k < i ==> files[k].path != path
    ensures found.None? ==> forall f :: f in files ==> f.path != path
  {
    for i := 0 to |files|
      invariant forall k :: 0 <= k < i ==> files[k].path != path
    {
      if files[i].path == path {
        return Some(files[i]);
      }
    }
    return None;
  }

  /** Everything a reader collects by following `next` from `offset`. */
  function Collected(files: seq<File>, offset: nat): seq<File>
    requires offset <= |files|
    decreases |files| - offset
  {
    var end := PageEnd(files, offset);
    Listed(files)[offset..end] + if end < |files| then Collected(files, end) else []
  }

  lemma {:induction false} CollectedIsRest(files: seq<File>, offset: nat)
    requires offset <= |files|
    ensures Collected(files, offset) == Listed(files)[offset..]
    decreases |files| - offset
  {
    var end := PageEnd(files, offset);
    if end < |files| {
      CollectedIsRest(files, end);
      assert Listed(files)[offset..] == Listed(files)[offset..end] + Listed(files)[end..];
    }
  }

  /** Following the pages from the start yields every file exactly once and in order. */
  lemma PagesPartition(files: seq<File>)
    ensures Collected(files, 0) == Listed(files)
  {
    CollectedIsRest(files, 0);
  }
}
