/**
 * One pass over the warm pool of a Template: unusable members are marked and
 * after a grace period deleted, missing ones created, surplus ones trimmed.
 *
 * `budget` is the number of writes that succeed before the pass gives up, on
 * a conflict, an error, a changed Template or a crash; what holds without
 * `completed` therefore holds at every point of every pass.  A deleted
 * Environment counts as gone from the moment it is deleting.
 */
module WarmPool {
  import opened Basics

  const CLEANUP_GRACE: nat := 300

  /** An Environment carrying the pool's label; `member` says its Template owns it exactly. */
  datatype Member = Member(
    member: bool,
    claimed: bool,
    deleting: bool,
    current: bool,
    suspended: bool,
    statusCurrent: bool,
    failed: bool,
    createdAt: nat,
    marker: Option<nat>)

  predicate Unclaimed(m: Member) {
    m.member && !m.claimed && !m.deleting
  }

  predicate Usable(m: Member) {
    m.current && !m.suspended && !(m.statusCurrent && m.failed)
  }

  /** What a pass does to one listed member before it looks at numbers. */
  function Swept(m: Member, now: nat): Member {
    if !Unclaimed(m) then m
    else if Usable(m) then m.(marker := None)
    else if m.marker.None? || m.marker.value > now then m.(marker := Some(now))
    else if m.marker.value + CLEANUP_GRACE > now then m
    else m.(deleting := true)
  }

  // ---------------------------------------------------------------------
  // Counting
  // ---------------------------------------------------------------------

  ghost function Unclaims(members: seq<Member>): set<nat> {
    set i | 0 <= i < |members| && Unclaimed(members[i])
  }

  /** Unclaimed members that serve the pool: usable when listed, or created since. */
  ghost function Serving(listed: seq<Member>, members: seq<Member>): set<nat>
    requires |listed| <= |members|
  {
    set i | 0 <= i < |members| && Unclaimed(members[i]) && (i >= |listed| || Usable(listed[i]))
  }

  /** Unclaimed members kept only until their grace period ends. */
  ghost function Quarantined(listed: seq<Member>, members: seq<Member>): set<nat>
    requires |listed| <= |members|
  {
    set i | 0 <= i < |listed| && Unclaimed(members[i]) && !Usable(listed[i])
  }

  ghost function Elements(xs: seq<nat>): set<nat> {
    set x | x in xs
  }

  ghost predicate Distinct(xs: seq<nat>) {
    forall i, j :: 0 <= i < j < |xs| ==> xs[i] != xs[j]
  }

  lemma {:induction false} DistinctSize(xs: seq<nat>)
    requires Distinct(xs)
    ensures |Elements(xs)| == |xs|
  {
    if xs == [] {
      assert Elements(xs) == {};
    } else {
      var n := |xs| - 1;
      DistinctSize(xs[..n]);
      assert xs == xs[..n] + [xs[n]];
      assert Elements(xs) == Elements(xs[..n]) + {xs[n]};
      assert xs[n] !in xs[..n];
    }
  }

  lemma Parts(listed: seq<Member>, members: seq<Member>)
    requires |listed| <= |members|
    ensures |Unclaims(members)| == |Serving(listed, members)| + |Quarantined(listed, members)|
  {
    assert Unclaims(members) == Serving(listed, members) + Quarantined(listed, members);
    assert Serving(listed, members) !! Quarantined(listed, members);
  }

  // ---------------------------------------------------------------------
  // Marking and quarantine
  // ---------------------------------------------------------------------

  /** `active` are the members that serve, `quarantined` how many others are left. */
  ghost predicate Tallied(listed: seq<Member>, members: seq<Member>, active: seq<nat>, quarantined: nat) {
    && |listed| <= |members|
    && Distinct(active)
    && Elements(active) == Serving(listed, members)
    && quarantined == |Quarantined(listed, members)|
  }

  /** How one listed member counts after the pass has looked at it. */
  datatype Standing = Outside | Serves | Held | Dropped

  method Visit(m: Member, now: nat, budget: nat) returns (a: Member, standing: Standing, left: nat, completed: bool)
    ensures a == m || a == Swept(m, now)
    ensures completed ==>
      && a == Swept(m, now)
      && standing == (if !Unclaimed(m) then Outside else if Usable(m) then Serves else if Unclaimed(a) then Held else Dropped)
    ensures left <= budget
  {
    a, standing, left, completed := m, Outside, budget, true;
    if !Unclaimed(m) {
      return;
    }
    if Usable(m) {
      standing := Serves;
      if m.marker.Some? {
        if left == 0 {
          return a, standing, left, false;
        }
        a, left := m.(marker := None), left - 1;
      }
      return;
    }
    var since := m.marker;
    if since.None? || since.value > now {
      if left == 0 {
        return a, standing, left, false;
      }
      a, left := m.(marker := Some(now)), left - 1;
      since := Some(now);
    }
    if since.value + CLEANUP_GRACE > now {
      standing := Held;
      return;
    }
    if left == 0 {
      return a, standing, left, false;
    }
    a, standing, left := a.(deleting := true), Dropped, left - 1;
  }

  method Sweep(listed: seq<Member>, now: nat, budget: nat)
    returns (members: seq<Member>, active: seq<nat>, quarantined: nat, left: nat, completed: bool)
    ensures |members| == |listed|
    ensures forall i :: 0 <= i < |listed| ==> members[i] == listed[i] || members[i] == Swept(listed[i], now)
    ensures completed ==> forall i :: 0 <= i < |listed| ==> members[i] == Swept(listed[i], now)
    ensures completed ==> Tallied(listed, members, active, quarantined)
  {
    hide Serving, Quarantined, Elements, Distinct;
    members, active, quarantined, left, completed := [], [], 0, budget, true;
    assert Tallied([], [], [], 0) by {
      TallyNothing();
    }
    var i := 0;
    while i < |listed|
      invariant 0 <= i <= |listed| && |members| == i
      invariant forall k :: 0 <= k < i ==> members[k] == Swept(listed[k], now)
      invariant Tallied(listed[..i], members, active, quarantined)
    {
      var a, standing, rest, ok := Visit(listed[i], now, left);
      if !ok {
        return members + [a] + listed[i + 1..], active, quarantined, rest, false;
      }
      TallyNext(listed[..i], members, active, quarantined, listed[i], a);
      assert listed[..i + 1] == listed[..i] + [listed[i]];
      members, left := members + [a], rest;
      if standing == Serves {
        active := active + [i];
      } else if standing == Held {
        quarantined := quarantined + 1;
      }
      i := i + 1;
    }
    assert listed[..i] == listed;
  }

  lemma TallyNothing()
    ensures Tallied([], [], [], 0)
  {
    assert Serving([], []) == {} && Quarantined([], []) == {} && Elements([]) == {};
  }

  lemma TallyNext(listed: seq<Member>, members: seq<Member>, active: seq<nat>, quarantined: nat, m: Member, a: Member)
    requires |listed| == |members| && Tallied(listed, members, active, quarantined)
    ensures Unclaimed(a) && Usable(m) ==> Tallied(listed + [m], members + [a], active + [|listed|], quarantined)
    ensures Unclaimed(a) && !Usable(m) ==> Tallied(listed + [m], members + [a], active, quarantined + 1)
    ensures !Unclaimed(a) ==> Tallied(listed + [m], members + [a], active, quarantined)
  {
    SetsNext(listed, members, m, a);
    hide Serving, Quarantined;
    ElementsNext(active, |listed|);
    DistinctNext(active, |listed|);
  }

  lemma SetsNext(listed: seq<Member>, members: seq<Member>, m: Member, a: Member)
    requires |listed| == |members|
    ensures Serving(listed + [m], members + [a]) == Serving(listed, members) + if Unclaimed(a) && Usable(m) then {|listed|} else {}
    ensures Quarantined(listed + [m], members + [a])
      == Quarantined(listed, members) + if Unclaimed(a) && !Usable(m) then {|listed|} else {}
    ensures |listed| !in Serving(listed, members) && |listed| !in Quarantined(listed, members)
  {
  }

  lemma DistinctNext(xs: seq<nat>, x: nat)
    requires Distinct(xs) && x !in Elements(xs)
    ensures Distinct(xs + [x])
  {
    assert forall k :: 0 <= k < |xs| ==> xs[k] in Elements(xs);
  }

  lemma ElementsNext(xs: seq<nat>, x: nat)
    ensures Elements(xs + [x]) == Elements(xs) + {x}
  {
  }

  lemma TallySize(listed: seq<Member>, members: seq<Member>, active: seq<nat>, quarantined: nat)
    requires Tallied(listed, members, active, quarantined)
    ensures |Unclaims(members)| == |active| + quarantined
  {
    DistinctSize(active);
    Parts(listed, members);
  }

  // ---------------------------------------------------------------------
  // Replacement
  // ---------------------------------------------------------------------

  /** A member just created: nothing is captured for it yet. */
  function Created(now: nat): Member {
    Member(true, false, false, false, false, false, false, now, None)
  }

  lemma TallyCreated(listed: seq<Member>, members: seq<Member>, active: seq<nat>, quarantined: nat, now: nat)
    requires Tallied(listed, members, active, quarantined)
    ensures Tallied(listed, members + [Created(now)], active + [|members|], quarantined)
  {
    var more := members + [Created(now)];
    assert Serving(listed, more) == Serving(listed, members) + {|members|};
    assert Quarantined(listed, more) == Quarantined(listed, members);
    assert |members| !in Serving(listed, members);
    hide Serving, Quarantined;
    ElementsNext(active, |members|);
    DistinctNext(active, |members|);
  }

  /** Creates replacements, one complete set at most while unusable members remain. */
  method Surge(ghost listed: seq<Member>, before: seq<Member>, found: seq<nat>, quarantined: nat, minimum: nat, now: nat, budget: nat)
    returns (members: seq<Member>, active: seq<nat>, left: nat, completed: bool)
    requires Tallied(listed, before, found, quarantined)
    ensures Tallied(listed, members, active, quarantined) && before <= members
    ensures forall i :: |before| <= i < |members| ==> members[i] == Created(now)
    ensures |Unclaims(members)| <= Max(|Unclaims(before)|, 2 * minimum)
    ensures completed ==> |active| >= minimum || |active| + quarantined >= 2 * minimum
    ensures |active| > minimum ==> members == before && active == found
    ensures |found| <= minimum ==> |active| <= minimum
  {
    hide Tallied, Unclaims;
    members, active, left, completed := before, found, budget, true;
    TallySize(listed, members, active, quarantined);
    while |active| < minimum && |active| + quarantined < 2 * minimum
      invariant Tallied(listed, members, active, quarantined) && before <= members
      invariant forall i :: |before| <= i < |members| ==> members[i] == Created(now)
      invariant |Unclaims(members)| == |active| + quarantined
      invariant |active| + quarantined <= Max(|Unclaims(before)|, 2 * minimum)
      invariant |active| <= minimum || (members == before && active == found)
      invariant |active| > |found| ==> |active| <= minimum
      decreases minimum - |active|
    {
      if left == 0 {
        return members, active, left, false;
      }
      TallyCreated(listed, members, active, quarantined, now);
      active, members, left := active + [|members|], members + [Created(now)], left - 1;
      TallySize(listed, members, active, quarantined);
    }
  }

  // ---------------------------------------------------------------------
  // Trimming
  // ---------------------------------------------------------------------

  predicate Within(xs: seq<nat>, members: seq<Member>) {
    forall i :: 0 <= i < |xs| ==> xs[i] < |members|
  }

  function InsertNewest(members: seq<Member>, x: nat, sorted: seq<nat>): seq<nat>
    requires x < |members| && Within(sorted, members)
  {
    if sorted == [] || members[sorted[0]].createdAt <= members[x].createdAt then [x] + sorted
    else [sorted[0]] + InsertNewest(members, x, sorted[1..])
  }

  ghost predicate NewestFirst(members: seq<Member>, xs: seq<nat>) {
    && Within(xs, members)
    && forall i, j :: 0 <= i < j < |xs| ==> members[xs[i]].createdAt >= members[xs[j]].createdAt
  }

  /** A member newer than all of a sorted list may go before it. */
  lemma Prepended(members: seq<Member>, x: nat, sorted: seq<nat>)
    requires x < |members| && NewestFirst(members, sorted) && Distinct(sorted)
    requires forall j :: 0 <= j < |sorted| ==> sorted[j] != x && members[x].createdAt >= members[sorted[j]].createdAt
    ensures NewestFirst(members, [x] + sorted) && Distinct([x] + sorted)
    ensures forall y :: y in [x] + sorted <==> y == x || y in sorted
  {
    var r := [x] + sorted;
    forall i, j | 0 <= i < j < |r| ensures r[i] != r[j] && members[r[i]].createdAt >= members[r[j]].createdAt {
      assert r[j] == sorted[j - 1];
      if i > 0 {
        assert r[i] == sorted[i - 1];
      }
    }
  }

  lemma {:induction false} InsertNewestOk(members: seq<Member>, x: nat, sorted: seq<nat>)
    requires x < |members| && NewestFirst(members, sorted) && Distinct(sorted) && x !in sorted
    ensures var r := InsertNewest(members, x, sorted);
      NewestFirst(members, r) && Distinct(r) && |r| == |sorted| + 1 && forall y :: y in r <==> y == x || y in sorted
  {
    if sorted == [] || members[sorted[0]].createdAt <= members[x].createdAt {
      Prepended(members, x, sorted);
    } else {
      var first, rest := sorted[0], sorted[1..];
      assert sorted == [first] + rest;
      InsertNewestOk(members, x, rest);
      var r := InsertNewest(members, x, rest);
      forall j | 0 <= j < |r| ensures r[j] != first && members[first].createdAt >= members[r[j]].createdAt {
        assert r[j] in r;
        if r[j] in rest {
          var k :| 0 <= k < |rest| && rest[k] == r[j];
          assert sorted[k + 1] == r[j];
        }
      }
      Prepended(members, first, r);
    }
  }

  /** The active members, newest first. */
  method SortNewest(members: seq<Member>, active: seq<nat>) returns (sorted: seq<nat>)
    requires Within(active, members) && Distinct(active)
    ensures NewestFirst(members, sorted) && Distinct(sorted) && Elements(sorted) == Elements(active) && |sorted| == |active|
  {
    sorted := [];
    for i := 0 to |active|
      invariant NewestFirst(members, sorted) && Distinct(sorted) && |sorted| == i
      invariant forall y :: y in sorted <==> y in active[..i]
    {
      assert active[i] !in active[..i];
      InsertNewestOk(members, active[i], sorted);
      assert active[..i + 1] == active[..i] + [active[i]];
      sorted := InsertNewest(members, active[i], sorted);
    }
    assert active[..|active|] == active;
  }

  lemma TallyWithin(listed: seq<Member>, members: seq<Member>, active: seq<nat>, quarantined: nat)
    requires Tallied(listed, members, active, quarantined)
    ensures forall i :: 0 <= i < |active| ==> active[i] in Serving(listed, members) && active[i] < |members|
  {
    forall i | 0 <= i < |active| ensures active[i] in Serving(listed, members) {
      assert active[i] in Elements(active);
    }
  }

  function Deleted(members: seq<Member>, x: nat): seq<Member>
    requires x < |members|
  {
    members[x := members[x].(deleting := true)]
  }

  lemma TallyDeleted(listed: seq<Member>, members: seq<Member>, active: seq<nat>, quarantined: nat)
    requires Tallied(listed, members, active, quarantined) && active != []
    ensures active[0] < |members| && Tallied(listed, Deleted(members, active[0]), active[1..], quarantined)
  {
    TallyWithin(listed, members, active, quarantined);
    var x := active[0];
    var less := Deleted(members, x);
    assert Serving(listed, less) == Serving(listed, members) - {x};
    assert Quarantined(listed, less) == Quarantined(listed, members);
    hide Serving, Quarantined;
    assert active == [x] + active[1..];
    assert x !in active[1..];
    assert Elements(active[1..]) == Elements(active) - {x};
  }

  /** Deletes the newest active members beyond the minimum. */
  method Trim(ghost listed: seq<Member>, before: seq<Member>, active: seq<nat>, ghost quarantined: nat, minimum: nat, budget: nat)
    returns (members: seq<Member>, ghost dropped: seq<nat>, ghost kept: seq<nat>, completed: bool)
    requires Tallied(listed, before, active, quarantined) && |active| >= minimum
    ensures |members| == |before| && Tallied(listed, members, kept, quarantined)
    ensures Within(dropped, before) && Within(kept, before)
    ensures forall i :: 0 <= i < |before| ==> members[i] == if i in dropped then before[i].(deleting := true) else before[i]
    ensures forall d, k :: d in dropped && k in kept ==> before[d].createdAt >= before[k].createdAt
    ensures Elements(active) == Elements(dropped) + Elements(kept)
    ensures completed ==> |kept| == minimum
  {
    TallyWithin(listed, before, active, quarantined);
    var sorted := SortNewest(before, active);
    members := before;
    var j := 0;
    while j < |active| - minimum
      invariant j <= |active| - minimum && |members| == |before|
      invariant Tallied(listed, members, sorted[j..], quarantined)
      invariant forall i :: 0 <= i < |before| ==> members[i] == if i in sorted[..j] then before[i].(deleting := true) else before[i]
    {
      if j >= budget {
        dropped, kept := sorted[..j], sorted[j..];
        SplitSorted(before, sorted, j);
        return members, dropped, kept, false;
      }
      TallyDeleted(listed, members, sorted[j..], quarantined);
      var x := sorted[j];
      assert sorted[j..][1..] == sorted[j + 1..];
      assert sorted[..j + 1] == sorted[..j] + [x];
      members := Deleted(members, x);
      j := j + 1;
    }
    dropped, kept := sorted[..j], sorted[j..];
    SplitSorted(before, sorted, j);
    completed := true;
  }

  lemma SplitSorted(members: seq<Member>, sorted: seq<nat>, j: nat)
    requires NewestFirst(members, sorted) && j <= |sorted|
    ensures Within(sorted[..j], members) && Within(sorted[j..], members)
    ensures forall d, k :: d in sorted[..j] && k in sorted[j..] ==> members[d].createdAt >= members[k].createdAt
    ensures Elements(sorted) == Elements(sorted[..j]) + Elements(sorted[j..])
  {
    assert sorted == sorted[..j] + sorted[j..];
  }

  // ---------------------------------------------------------------------
  // The pass
  // ---------------------------------------------------------------------

  /** What may have become of a listed member: nothing, its sweep, or its sweep and then a trim. */
  predicate Fate(m: Member, a: Member, now: nat) {
    a == m || a == Swept(m, now) || (Unclaimed(m) && Usable(m) && a == Swept(m, now).(deleting := true))
  }

  /** Why a member may go: it is surplus, or it has been outdated, suspended or failed for five marked minutes. */
  predicate DeletedFor(m: Member, surplus: bool, now: nat) {
    if m.current && !m.suspended && !(m.statusCurrent && m.failed) then surplus
    else m.marker.Some? && m.marker.value + 300 <= now
  }

  /** An unclaimed member that is outdated, suspended or failed is marked or gone; any other carries no marker. */
  predicate Attended(m: Member, a: Member, now: nat) {
    m.member && !m.claimed && !m.deleting ==>
      if !m.current || m.suspended || (m.statusCurrent && m.failed)
      then a.deleting || (a.marker.Some? && a.marker.value <= now)
      else a.marker.None?
  }

  lemma FateMeans(m: Member, a: Member, surplus: bool, now: nat)
    requires a == m || Outcome(m, a, surplus, now)
    ensures Fate(m, a, now) && (!Unclaimed(m) ==> a == m)
    ensures a.deleting && !m.deleting ==> DeletedFor(m, surplus, now)
    ensures Outcome(m, a, surplus, now) ==> Attended(m, a, now)
  {
  }

  lemma SweptServing(listed: seq<Member>, swept: seq<Member>, now: nat)
    requires |swept| == |listed| && forall i :: 0 <= i < |listed| ==> swept[i] == Swept(listed[i], now)
    ensures Serving(listed, swept) == Serving(listed, listed)
  {
  }

  /** A trimmed member is no older than any that still serves. */
  ghost predicate NewestTrimmed(listed: seq<Member>, members: seq<Member>)
    requires |listed| <= |members|
  {
    forall d, k ::
      0 <= d < |listed| && Unclaimed(listed[d]) && Usable(listed[d]) && members[d].deleting && k in Serving(listed, members) ==>
        listed[d].createdAt >= members[k].createdAt
  }

  /** A pool that has what it asks for, or as many replacements as it may. */
  ghost predicate Balanced(listed: seq<Member>, members: seq<Member>, minimum: nat)
    requires |listed| <= |members|
  {
    var active, quarantined := |Serving(listed, members)|, |Quarantined(listed, members)|;
    active <= minimum && (active == minimum || active + quarantined >= 2 * minimum)
  }

  lemma SweptUnclaims(listed: seq<Member>, members: seq<Member>, now: nat)
    requires |members| == |listed|
    requires forall i :: 0 <= i < |listed| ==> members[i] == listed[i] || members[i] == Swept(listed[i], now)
    ensures |Unclaims(members)| <= |Unclaims(listed)|
  {
    SubsetSize(Unclaims(members), Unclaims(listed));
  }

  lemma DroppedUnclaims(before: seq<Member>, members: seq<Member>)
    requires |members| == |before|
    requires forall i :: 0 <= i < |before| ==> members[i] == before[i] || members[i] == before[i].(deleting := true)
    ensures |Unclaims(members)| <= |Unclaims(before)|
  {
    SubsetSize(Unclaims(members), Unclaims(before));
  }

  /**
   * One pass.  At every point of it claimed, foreign and deleting Environments
   * are untouched, an unusable member is deleted only when a marker at least
   * five minutes old was already stored, the newest are trimmed first, and
   * unclaimed membership is at most what it was or twice the minimum.  A
   * completed pass leaves the pool balanced.
   */
  method ReconcilePool(listed: seq<Member>, minimum: nat, now: nat, budget: nat) returns (members: seq<Member>, completed: bool)
    ensures |listed| <= |members|
    ensures forall i :: 0 <= i < |listed| && !Unclaimed(listed[i]) ==> members[i] == listed[i]
    ensures forall i :: 0 <= i < |listed| && members[i].deleting && !listed[i].deleting ==>
      DeletedFor(listed[i], |Serving(listed, listed)| > minimum, now)
    ensures completed ==> forall i :: 0 <= i < |listed| ==> Attended(listed[i], members[i], now)
    ensures forall i :: 0 <= i < |listed| ==> Fate(listed[i], members[i], now)
    ensures forall i :: |listed| <= i < |members| ==> members[i] == Created(now)
    ensures NewestTrimmed(listed, members)
    ensures |Unclaims(members)| <= Max(|Unclaims(listed)|, 2 * minimum)
    ensures completed ==> Balanced(listed, members, minimum)
  {
    members, completed := RunPass(listed, minimum, now, budget);
    forall i | 0 <= i < |listed|
      ensures members[i].deleting && !listed[i].deleting ==> DeletedFor(listed[i], |Serving(listed, listed)| > minimum, now)
      ensures completed ==> Attended(listed[i], members[i], now)
      ensures Fate(listed[i], members[i], now)
      ensures !Unclaimed(listed[i]) ==> members[i] == listed[i]
    {
      FateMeans(listed[i], members[i], |Serving(listed, listed)| > minimum, now);
    }
  }

  /** What may have become of a listed member; only a surplus lets a usable one go. */
  predicate Outcome(m: Member, a: Member, surplus: bool, now: nat) {
    a == Swept(m, now) || (surplus && Unclaimed(m) && Usable(m) && a == Swept(m, now).(deleting := true))
  }

  method RunPass(listed: seq<Member>, minimum: nat, now: nat, budget: nat) returns (members: seq<Member>, completed: bool)
    ensures |listed| <= |members|
    ensures forall i :: 0 <= i < |listed| ==>
      members[i] == listed[i] || Outcome(listed[i], members[i], |Serving(listed, listed)| > minimum, now)
    ensures completed ==> forall i :: 0 <= i < |listed| ==> Outcome(listed[i], members[i], |Serving(listed, listed)| > minimum, now)
    ensures forall i :: |listed| <= i < |members| ==> members[i] == Created(now)
    ensures NewestTrimmed(listed, members)
    ensures |Unclaims(members)| <= Max(|Unclaims(listed)|, 2 * minimum)
    ensures completed ==> Balanced(listed, members, minimum)
  {
    var active, quarantined, left;
    members, active, quarantined, left, completed := Sweep(listed, now, budget);
    SweptUnclaims(listed, members, now);
    if !completed {
      return;
    }
    var swept := members;
    SweptServing(listed, swept, now);
    assert NewestTrimmed(listed, swept);
    var found := active;
    DistinctSize(found);
    members, active, left, completed := Surge(listed, swept, found, quarantined, minimum, now, left);
    assert NewestTrimmed(listed, members);
    if !completed {
      return;
    }
    if |active| > minimum {
      members, completed := TrimPool(listed, swept, found, quarantined, minimum, now, left);
    } else {
      DistinctSize(active);
    }
  }

  method TrimPool(
    ghost listed: seq<Member>, swept: seq<Member>, active: seq<nat>, ghost quarantined: nat, minimum: nat, ghost now: nat, budget: nat)
    returns (members: seq<Member>, completed: bool)
    requires |swept| == |listed| && Tallied(listed, swept, active, quarantined) && |active| > minimum
    requires forall i :: 0 <= i < |listed| ==> swept[i] == Swept(listed[i], now)
    ensures |members| == |listed|
    ensures forall i :: 0 <= i < |listed| ==> Outcome(listed[i], members[i], true, now)
    ensures NewestTrimmed(listed, members)
    ensures |Unclaims(members)| <= |Unclaims(swept)|
    ensures completed ==> Balanced(listed, members, minimum)
  {
    ghost var dropped, kept;
    members, dropped, kept, completed := Trim(listed, swept, active, quarantined, minimum, budget);
    DroppedUnclaims(swept, members);
    DistinctSize(kept);
    forall i | 0 <= i < |listed| && i in dropped ensures Unclaimed(listed[i]) && Usable(listed[i]) {
      assert i in Elements(dropped);
      assert i in Serving(listed, swept);
    }
    forall d, k | 0 <= d < |listed| && Unclaimed(listed[d]) && Usable(listed[d]) && members[d].deleting && k in Serving(listed, members)
      ensures listed[d].createdAt >= members[k].createdAt
    {
      assert d in dropped;
      assert k in Elements(kept);
    }
  }

  // ---------------------------------------------------------------------
  // Claims and releases between and during passes
  // ---------------------------------------------------------------------

  /** Releasing the claim on an unpromoted member. */
  function Released(members: seq<Member>, i: nat): seq<Member>
    requires i < |members|
  {
    members[i := members[i].(claimed := false)]
  }

  predicate Claimed(m: Member) {
    m.member && m.claimed && !m.deleting
  }

  /**
   * A released claim adds one unclaimed member, so it exceeds twice the
   * minimum exactly when the pool was already at it.
   */
  lemma ReleaseExceedsBound(members: seq<Member>, i: nat, minimum: nat)
    requires i < |members| && Claimed(members[i])
    ensures |Unclaims(Released(members, i))| == |Unclaims(members)| + 1
    ensures |Unclaims(Released(members, i))| > 2 * minimum <==> |Unclaims(members)| >= 2 * minimum
  {
    assert Unclaims(Released(members, i)) == Unclaims(members) + {i};
  }

  /**
   * A pass in progress: the minimum it read, the usable and all the unclaimed
   * members it counts, which are those it listed, less the ones it deleted,
   * plus the ones it created, and how many claims had been released when it
   * listed them.  `ReconcilePool` counts the same (`TallySize`).
   */
  datatype Pass = AtRest | Underway(minimum: nat, active: nat, counted: nat, releases: nat)

  datatype State = State(members: seq<Member>, pass: Pass, releases: nat)

  datatype Action =
    | List(minimum: nat)
    | CreateMember(now: nat)
    | DeleteMember(i: nat)
    | Stop
    | Claim(i: nat)
    | Release(i: nat)
    | Alter(i: nat, to: Member)
    | Lose(i: nat)

  predicate Enabled(s: State, a: Action) {
    match a
    case List(_) => s.pass.AtRest?
    case CreateMember(_) =>
      s.pass.Underway? && s.pass.active < s.pass.minimum && s.pass.counted < 2 * s.pass.minimum
    case DeleteMember(i) => s.pass.Underway? && s.pass.counted > 0 && i < |s.members| && Unclaimed(s.members[i])
    case Stop => true
    // a Run claims only a current member that is up and not suspended
    case Claim(i) => i < |s.members| && Unclaimed(s.members[i]) && Usable(s.members[i])
    case Release(i) => i < |s.members| && Claimed(s.members[i])
    // marking, provisioning, failing, suspending: anything but ownership, claim and deletion
    case Alter(i, to) =>
      i < |s.members| && to.member == s.members[i].member && to.claimed == s.members[i].claimed && to.deleting == s.members[i].deleting
    case Lose(i) => i < |s.members|
  }

  ghost function Do(s: State, a: Action): State
    requires Enabled(s, a)
  {
    match a
    case List(minimum) => s.(pass := Underway(minimum, |Serving(s.members, s.members)|, |Unclaims(s.members)|, s.releases))
    case CreateMember(now) =>
      s.(members := s.members + [Created(now)], pass := s.pass.(active := s.pass.active + 1, counted := s.pass.counted + 1))
    case DeleteMember(i) => s.(members := Deleted(s.members, i), pass := s.pass.(counted := s.pass.counted - 1))
    case Stop => s.(pass := AtRest)
    case Claim(i) => s.(members := s.members[i := s.members[i].(claimed := true)])
    case Release(i) => s.(members := Released(s.members, i), releases := s.releases + 1)
    case Alter(i, to) => s.(members := s.members[i := to])
    case Lose(i) => s.(members := Deleted(s.members, i))
  }

  ghost predicate IsRun(states: seq<State>, actions: seq<Action>, limit: nat) {
    && |states| == |actions| + 1
    && states[0] == State([], AtRest, 0)
    && forall i :: 0 <= i < |actions| ==>
         && Enabled(states[i], actions[i]) && states[i + 1] == Do(states[i], actions[i])
         && (actions[i].List? ==> actions[i].minimum <= limit)
  }

  ghost predicate Inv(s: State, limit: nat) {
    && |Unclaims(s.members)| <= 2 * limit + s.releases
    && (s.pass.Underway? ==>
          && s.pass.minimum <= limit && s.pass.releases <= s.releases
          && |Unclaims(s.members)| <= s.pass.counted + (s.releases - s.pass.releases))
  }

  /** How one member changing changes the count. */
  lemma OneChanged(members: seq<Member>, i: nat, m: Member)
    requires i < |members|
    ensures var before, after := |Unclaims(members)|, |Unclaims(members[i := m])|;
      after + (if Unclaimed(members[i]) then 1 else 0) == before + (if Unclaimed(m) then 1 else 0)
  {
    var rest := Unclaims(members) - {i};
    assert Unclaims(members) == rest + if Unclaimed(members[i]) then {i} else {};
    assert Unclaims(members[i := m]) == rest + if Unclaimed(m) then {i} else {};
  }

  lemma NotYet(members: seq<Member>)
    ensures |members| !in Unclaims(members)
  {
  }

  lemma OneCreated(members: seq<Member>, now: nat)
    ensures |Unclaims(members + [Created(now)])| == |Unclaims(members)| + 1
  {
    var more := members + [Created(now)];
    forall i: nat ensures i in Unclaims(more) <==> i in Unclaims(members) || i == |members| {
      assert i < |members| ==> more[i] == members[i];
    }
    hide Unclaims;
    assert Unclaims(more) == Unclaims(members) + {|members|};
    assert |members| !in Unclaims(members) by {
      NotYet(members);
    }
  }

  lemma InvStep(s: State, a: Action, limit: nat)
    requires Inv(s, limit) && Enabled(s, a) && (a.List? ==> a.minimum <= limit)
    ensures Inv(Do(s, a), limit)
  {
    hide Unclaims;
    match a
    case List(_) =>
    case CreateMember(now) => OneCreated(s.members, now);
    case DeleteMember(i) => OneChanged(s.members, i, s.members[i].(deleting := true));
    case Stop =>
    case Claim(i) => OneChanged(s.members, i, s.members[i].(claimed := true));
    case Release(i) => ReleaseExceedsBound(s.members, i, 0);
    case Alter(i, to) => OneChanged(s.members, i, to);
    case Lose(i) => OneChanged(s.members, i, s.members[i].(deleting := true));
  }

  /**
   * Over every run of passes, claims and releases, with claims and releases
   * falling into passes as well as between them, unclaimed membership is at
   * most twice the largest minimum plus the claims released.
   */
  lemma {:induction false} MembershipBound(states: seq<State>, actions: seq<Action>, limit: nat, i: nat)
    requires IsRun(states, actions, limit) && i < |states|
    ensures Inv(states[i], limit) && |Unclaims(states[i].members)| <= 2 * limit + states[i].releases
  {
    hide Do;
    if i > 0 {
      MembershipBound(states, actions, limit, i - 1);
      InvStep(states[i - 1], actions[i - 1], limit);
    }
  }

  /** One pass over unclaimed members none of which is usable creates a member. */
  lemma OnePass(s: State, now: nat) returns (t: State)
    requires s.pass.AtRest? && |Unclaims(s.members)| < 2
    requires forall i :: 0 <= i < |s.members| && Unclaimed(s.members[i]) ==> !Usable(s.members[i])
    ensures Enabled(s, List(1)) && Enabled(Do(s, List(1)), CreateMember(now))
    ensures t == Do(Do(Do(s, List(1)), CreateMember(now)), Stop) && t.pass.AtRest?
    ensures t.members == s.members + [Created(now)] && |Unclaims(t.members)| == |Unclaims(s.members)| + 1
  {
    assert Serving(s.members, s.members) == {};
    OneCreated(s.members, now);
    t := Do(Do(Do(s, List(1)), CreateMember(now)), Stop);
  }

  /**
   * The bound is one of a pass: a member is created, becomes ready and is
   * claimed, two more are created while neither is ready, and the claim is
   * released.
   */
  lemma BoundExceeded(now: nat) returns (states: seq<State>, actions: seq<Action>)
    ensures IsRun(states, actions, 1) && |Unclaims(states[|actions|].members)| == 3 > 2 * 1
  {
    var s0 := State([], AtRest, 0);
    assert Unclaims([]) == {};
    var s1 := OnePass(s0, now);
    var ready := Created(now).(current := true, statusCurrent := true);
    var up := Do(s1, Alter(0, ready));
    OneChanged(s1.members, 0, ready);
    var s2 := Do(up, Claim(0));
    OneChanged(up.members, 0, ready.(claimed := true));
    var s3 := OnePass(s2, now);
    var s4 := OnePass(s3, now);
    var s5 := Do(s4, Release(0));
    ReleaseExceedsBound(s4.members, 0, 1);
    actions := [List(1), CreateMember(now), Stop, Alter(0, ready), Claim(0),
                List(1), CreateMember(now), Stop, List(1), CreateMember(now), Stop, Release(0)];
    states := [s0, Do(s0, List(1)), Do(Do(s0, List(1)), CreateMember(now)), s1, up,
               s2, Do(s2, List(1)), Do(Do(s2, List(1)), CreateMember(now)),
               s3, Do(s3, List(1)), Do(Do(s3, List(1)), CreateMember(now)), s4, s5];
    hide Do, Enabled;
  }
}
