/** The flake ledger's runs over GitHub issues. */
module FlakeLedger {
  import opened Wrappers
  import opened FlakeMarkers

  /** `heading` is the count that the heading of the issue's body holds; it is 0 for every ordinary test name. */
  datatype Issue = Issue(id: Bytes, heading: nat, count: nat, isOpen: bool, completed: bool, comments: seq<Marker>)

  datatype Occurrence = Occurrence(marker: Marker, heading: nat)

  datatype Delivery = Done | Failed | Lost

  ghost predicate NoCallFails(deliveries: nat -> Delivery) {
    forall k :: deliveries(k).Done?
  }

  predicate TakesEffect(d: Delivery) {
    !d.Failed?
  }

  const LIST_LIMIT: nat := 1000
  const MAX_ISSUES: nat := 20
  const MAX_COMMENTS: nat := 5

  type Issues = map<nat, Issue>

  // ----- what the ledger keeps -----

  ghost predicate NoMarkerTwice(comments: seq<Marker>) {
    forall i, j :: 0 <= i < j < |comments| ==> comments[i] != comments[j]
  }

  ghost predicate OneIssuePerFlake(issues: Issues) {
    forall a, b :: a in issues && b in issues && issues[a].id == issues[b].id ==> a == b
  }

  predicate Holds(issues: Issues, n: nat, m: Marker) {
    n in issues && m in issues[n].comments
  }

  /** No occurrence is recorded twice, neither on one issue nor on two. */
  ghost predicate MarkersOnce(issues: Issues) {
    && (forall n :: n in issues ==> NoMarkerTwice(issues[n].comments))
    && (forall a, b, m :: Holds(issues, a, m) && Holds(issues, b, m) ==> a == b)
  }

  /** Comments are of the issue's own flake and differ; the count line claims no more than they show. */
  ghost predicate Tidy(issue: Issue) {
    && NoMarkerTwice(issue.comments)
    && (forall m :: m in issue.comments ==> m.id == issue.id)
    && issue.count <= issue.heading + |issue.comments|
  }

  ghost predicate AllTidy(issues: Issues) {
    forall n :: n in issues ==> Tidy(issues[n])
  }

  lemma OneIssueMeansOnce(issues: Issues)
    requires AllTidy(issues) && OneIssuePerFlake(issues)
    ensures MarkersOnce(issues)
  {
    forall a, b, m | Holds(issues, a, m) && Holds(issues, b, m) ensures a == b {
      assert m.id == issues[a].id == issues[b].id;
    }
  }

  predicate Exact(issue: Issue) {
    issue.count == issue.heading + |issue.comments|
  }

  ghost predicate AllExact(issues: Issues) {
    forall n :: n in issues ==> Exact(issues[n])
  }

  /** Issues are never removed or renamed, comments never deleted; only a completed issue that may be reopened is. */
  ghost predicate Continues(before: Issues, after: Issues, reopen: bool) {
    forall n :: n in before ==>
      && n in after && after[n].id == before[n].id && after[n].heading == before[n].heading
      && after[n].completed == before[n].completed && before[n].comments <= after[n].comments
      && (before[n].isOpen ==> after[n].isOpen)
      && (!before[n].isOpen && after[n].isOpen ==> reopen && before[n].completed)
  }

  class Tracker {
    var issues: Issues
    var next: nat

    ghost predicate Valid()
      reads this
    {
      (forall n :: n in issues ==> n < next) && AllTidy(issues)
    }

    constructor ()
      ensures Valid() && issues == map[]
    {
      issues, next := map[], 1;
    }

    /** gh issue create: the caller learns the number unless the call fails or its answer is lost. */
    method Create(id: Bytes, heading: nat, d: Delivery) returns (number: Option<nat>)
      modifies this
      ensures number == if d.Done? then Some(old(next)) else None
      ensures next == if TakesEffect(d) then old(next) + 1 else old(next)
      ensures issues == if !TakesEffect(d) then old(issues)
                        else old(issues)[old(next) := Issue(id, heading, heading, true, false, [])]
    {
      number := if d.Done? then Some(next) else None;
      if TakesEffect(d) {
        issues := issues[next := Issue(id, heading, heading, true, false, [])];
        next := next + 1;
      }
    }

    /** gh issue comment */
    method Comment(n: nat, m: Marker, d: Delivery) returns (ok: bool)
      requires n in issues
      modifies this`issues
      ensures ok == d.Done?
      ensures issues == if !TakesEffect(d) then old(issues)
                        else old(issues)[n := old(issues)[n].(comments := old(issues)[n].comments + [m])]
    {
      ok := d.Done?;
      if TakesEffect(d) {
        issues := issues[n := issues[n].(comments := issues[n].comments + [m])];
      }
    }

    /** gh issue reopen */
    method Reopen(n: nat, d: Delivery) returns (ok: bool)
      requires n in issues
      modifies this`issues
      ensures ok == d.Done?
      ensures issues == if TakesEffect(d) then old(issues)[n := old(issues)[n].(isOpen := true)] else old(issues)
    {
      ok := d.Done?;
      if TakesEffect(d) {
        issues := issues[n := issues[n].(isOpen := true)];
      }
    }

    /** gh issue edit: rewrites the count line of the body. */
    method Edit(n: nat, count: nat, d: Delivery) returns (ok: bool)
      requires n in issues
      modifies this`issues
      ensures ok == d.Done?
      ensures issues == if TakesEffect(d) then old(issues)[n := old(issues)[n].(count := count)] else old(issues)
    {
      ok := d.Done?;
      if TakesEffect(d) {
        issues := issues[n := issues[n].(count := count)];
      }
    }
  }

  // ----- fresh occurrences -----

  /** The occurrences whose markers are neither on the issue nor earlier in the list. */
  function Fresh(group: seq<Occurrence>, existing: seq<Marker>): (kept: seq<Marker>)
    ensures forall m :: m in kept ==> m !in existing && exists o :: o in group && o.marker == m
    ensures forall o :: o in group ==> o.marker in existing || o.marker in kept
    ensures |kept| <= |group|
  {
    if group == [] then []
    else
      var kept := Fresh(group[..|group| - 1], existing);
      var o := group[|group| - 1];
      assert group == group[..|group| - 1] + [o];
      if o.marker in kept || o.marker in existing then kept else kept + [o.marker]
  }

  lemma {:induction false} FreshDiffer(group: seq<Occurrence>, existing: seq<Marker>)
    requires NoMarkerTwice(existing)
    ensures NoMarkerTwice(existing + Fresh(group, existing))
  {
    if group == [] {
      assert existing + [] == existing;
    } else {
      FreshDiffer(group[..|group| - 1], existing);
      var kept := Fresh(group[..|group| - 1], existing);
      var m := group[|group| - 1].marker;
      if m !in kept && m !in existing {
        var before := existing + kept;
        assert existing + (kept + [m]) == before + [m];
        assert m !in before;
      }
    }
  }

  // ----- one group of occurrences -----

  ghost predicate OneGroup(group: seq<Occurrence>, id: Bytes) {
    group != [] && forall o :: o in group ==> o.marker.id == id
  }

  /** The comments that are still to be posted keep the issue tidy. */
  lemma PostKeepsTidy(issue: Issue, m: Marker)
    requires Tidy(issue) && m !in issue.comments && m.id == issue.id
    ensures Tidy(issue.(comments := issue.comments + [m]))
  {
  }

  lemma NextDiffers(existing: seq<Marker>, markers: seq<Marker>, k: nat)
    requires NoMarkerTwice(existing + markers) && k < |markers|
    ensures markers[k] !in existing + markers[..k]
  {
    var all := existing + markers;
    assert all[|existing| + k] == markers[k];
    assert existing + markers[..k] == all[..|existing| + k];
  }

  function Posted(issues: Issues, n: nat, markers: seq<Marker>): Issues
    requires n in issues
  {
    issues[n := issues[n].(comments := issues[n].comments + markers)]
  }

  lemma NothingPosted(issues: Issues, n: nat)
    requires n in issues
    ensures Posted(issues, n, []) == issues
  {
    assert issues[n].comments + [] == issues[n].comments;
  }

  lemma PostedNext(issues: Issues, n: nat, markers: seq<Marker>, k: nat)
    requires n in issues && k < |markers|
    ensures Posted(Posted(issues, n, markers[..k]), n, [markers[k]]) == Posted(issues, n, markers[..k + 1])
  {
    assert markers[..k + 1] == markers[..k] + [markers[k]];
    assert issues[n].comments + (markers[..k] + [markers[k]]) == issues[n].comments + markers[..k] + [markers[k]];
  }

  /** Posts the comments in order until a call fails. */
  method PostAll(t: Tracker, n: nat, markers: seq<Marker>, deliveries: nat -> Delivery, from: nat)
    returns (ok: bool, calls: nat)
    requires t.Valid() && n in t.issues
    requires NoMarkerTwice(t.issues[n].comments + markers) && forall m :: m in markers ==> m.id == t.issues[n].id
    modifies t`issues
    ensures t.Valid()
    ensures exists k :: 0 <= k <= |markers| && t.issues == Posted(old(t.issues), n, markers[..k])
    ensures ok ==> t.issues == Posted(old(t.issues), n, markers)
    ensures (forall k :: deliveries(k).Done?) ==> ok
  {
    ok, calls := true, from;
    ghost var first := t.issues;
    NothingPosted(first, n);
    assert markers[..0] == [];
    for k := 0 to |markers|
      invariant t.Valid() && t.issues == Posted(first, n, markers[..k])
    {
      NextDiffers(first[n].comments, markers, k);
      PostKeepsTidy(t.issues[n], markers[k]);
      PostedNext(first, n, markers, k);
      ok := t.Comment(n, markers[k], deliveries(calls));
      calls := calls + 1;
      if !ok {
        return;
      }
    }
    assert markers[..|markers|] == markers;
  }

  // ----- the issue of a flake -----

  ghost predicate IsHighest(numbers: set<nat>, n: nat) {
    n in numbers && forall k :: k in numbers ==> k <= n
  }

  lemma {:induction false} SomeHighest(numbers: set<nat>)
    requires numbers != {}
    ensures exists n :: IsHighest(numbers, n)
    decreases |numbers|
  {
    var n :| n in numbers;
    if numbers == {n} {
      assert IsHighest(numbers, n);
    } else {
      assert numbers - {n} != {};
      SomeHighest(numbers - {n});
      var other :| IsHighest(numbers - {n}, other);
      assert forall k :: k in numbers ==> k == n || k in numbers - {n};
      assert IsHighest(numbers, if n < other then other else n);
    }
  }

  ghost function Highest(numbers: set<nat>): (n: nat)
    requires numbers != {}
    ensures IsHighest(numbers, n)
  {
    SomeHighest(numbers);
    var n :| IsHighest(numbers, n);
    n
  }

  function AllOf(listed: Issues, id: Bytes): set<nat> {
    set n | n in listed && listed[n].id == id
  }

  function OpenOf(listed: Issues, id: Bytes): set<nat> {
    set n | n in listed && listed[n].id == id && listed[n].isOpen
  }

  /** The issue of a flake: its newest open one, or else its newest. */
  ghost function Target(listed: Issues, id: Bytes): (target: Option<nat>)
    ensures target.None? <==> forall n :: n in listed ==> listed[n].id != id
    ensures target.Some? ==> target.value in listed && listed[target.value].id == id
  {
    if OpenOf(listed, id) != {} then
      var n := Highest(OpenOf(listed, id));
      assert n in OpenOf(listed, id);
      Some(n)
    else if AllOf(listed, id) != {} then
      var n := Highest(AllOf(listed, id));
      assert n in AllOf(listed, id);
      Some(n)
    else
      assert forall n :: n in AllOf(listed, id) <==> n in listed && listed[n].id == id;
      None
  }

  method Newest(numbers: set<nat>) returns (newest: nat)
    requires numbers != {}
    ensures newest == Highest(numbers)
  {
    newest :| newest in numbers;
    var rest := numbers - {newest};
    while rest != {}
      invariant newest in numbers && rest <= numbers
      invariant forall n :: n in numbers && n !in rest ==> n <= newest
    {
      var n :| n in rest;
      if newest < n {
        newest := n;
      }
      rest := rest - {n};
    }
  }

  /** Listings are newest first. */
  method FindIssue(listed: Issues, id: Bytes) returns (found: Option<nat>)
    ensures found == Target(listed, id)
  {
    if OpenOf(listed, id) != {} {
      var n := Newest(OpenOf(listed, id));
      return Some(n);
    }
    if AllOf(listed, id) != {} {
      var n := Newest(AllOf(listed, id));
      return Some(n);
    }
    return None;
  }

  function FirstOf(markers: seq<Marker>): (first: seq<Marker>)
    ensures |first| <= MAX_COMMENTS && first <= markers
  {
    if |markers| <= MAX_COMMENTS then markers else markers[..MAX_COMMENTS]
  }

  lemma FirstDiffer(existing: seq<Marker>, markers: seq<Marker>)
    requires NoMarkerTwice(existing + markers)
    ensures NoMarkerTwice(existing + FirstOf(markers))
  {
    assert existing + FirstOf(markers) == (existing + markers)[..|existing| + |FirstOf(markers)|];
  }

  /** The issue once its fresh occurrences are commented and counted. */
  function Counted(issue: Issue, markers: seq<Marker>, reopen: bool): Issue {
    if markers == [] then issue
    else
      issue.(isOpen := issue.isOpen || (reopen && issue.completed), comments := issue.comments + FirstOf(markers),
             count := issue.count + |FirstOf(markers)|)
  }

  /** What a failed or lost call may leave: some of the comments, and the count as it was or as it should be. */
  ghost predicate PartlyCounted(before: Issue, after: Issue, markers: seq<Marker>, reopen: bool) {
    && after.id == before.id && after.heading == before.heading && after.completed == before.completed
    && (exists k :: 0 <= k <= |FirstOf(markers)| && after.comments == before.comments + FirstOf(markers)[..k])
    && (after.count == before.count || after == Counted(before, markers, reopen))
    && (after.isOpen == before.isOpen || (after.isOpen && reopen && before.completed))
  }

  lemma NothingCounted(issue: Issue, markers: seq<Marker>, reopen: bool)
    ensures PartlyCounted(issue, issue, markers, reopen)
  {
    assert issue.comments + FirstOf(markers)[..0] == issue.comments;
  }

  lemma CountedIsPartly(issue: Issue, markers: seq<Marker>, reopen: bool)
    ensures PartlyCounted(issue, Counted(issue, markers, reopen), markers, reopen)
  {
    assert FirstOf(markers)[..|FirstOf(markers)|] == FirstOf(markers);
    assert issue.comments + FirstOf(markers)[..0] == issue.comments;
  }

  /** Comments on an existing issue, reopening it first where that is allowed, then counts the comments. */
  method RecordOn(t: Tracker, n: nat, seen: Issue, markers: seq<Marker>, reopen: bool, deliveries: nat -> Delivery,
                  from: nat)
    returns (ok: bool, calls: nat, ghost after: Issue)
    requires t.Valid() && n in t.issues && t.issues[n] == seen && markers != []
    requires NoMarkerTwice(seen.comments + markers) && forall m :: m in markers ==> m.id == seen.id
    modifies t`issues
    ensures t.Valid()
    ensures t.issues == old(t.issues)[n := after] && PartlyCounted(seen, after, markers, reopen)
    ensures ok ==> after == Counted(seen, markers, reopen)
    ensures (forall k :: deliveries(k).Done?) ==> ok
  {
    ok, calls, after := true, from, seen;
    NothingCounted(seen, markers, reopen);
    assert t.issues == t.issues[n := seen];
    if !seen.isOpen && reopen && seen.completed {
      ok := t.Reopen(n, deliveries(calls));
      calls := calls + 1;
      NothingCounted(seen.(isOpen := true), markers, reopen);
      after := t.issues[n];
      if !ok {
        return;
      }
    }
    ghost var middle := t.issues;
    FirstDiffer(seen.comments, markers);
    ok, calls := PostAll(t, n, FirstOf(markers), deliveries, calls);
    after := t.issues[n];
    if !ok {
      ghost var k :| 0 <= k <= |FirstOf(markers)| && t.issues == Posted(middle, n, FirstOf(markers)[..k]);
      return;
    }
    ok := t.Edit(n, seen.count + |FirstOf(markers)|, deliveries(calls));
    calls := calls + 1;
    after := t.issues[n];
    CountedIsPartly(seen, markers, reopen);
    assert FirstOf(markers)[..|FirstOf(markers)|] == FirstOf(markers);
  }

  // ----- one flake -----

  /** A new issue, without comments. */
  function Filed(id: Bytes, heading: nat): Issue {
    Issue(id, heading, heading, true, false, [])
  }

  lemma ContinuesOn(a: Issues, b: Issues, c: Issues, reopen: bool)
    requires Continues(a, b, reopen) && Continues(b, c, reopen)
    ensures Continues(a, c, reopen)
  {
  }

  /** The markers of the group, up to the limit, are on an issue of its flake. */
  ghost predicate Recorded(issues: Issues, group: seq<Occurrence>, id: Bytes) {
    exists n :: n in issues && issues[n].id == id
                && (|group| <= MAX_COMMENTS ==> forall o :: o in group ==> o.marker in issues[n].comments)
  }

  /** What was listed of the flake is what the tracker holds. */
  ghost predicate UpToDate(issues: Issues, listed: Issues, id: Bytes) {
    forall n :: n in listed && listed[n].id == id ==> n in issues && issues[n] == listed[n]
  }

  /** Where a flake is recorded: the issue that was found, or the one to be filed. */
  datatype Spot = Spot(number: nat, issue: Issue)

  ghost function SpotOf(listed: Issues, id: Bytes, heading: nat, next: nat): (spot: Spot)
    ensures spot.issue.id == id
  {
    var target := Target(listed, id);
    if target.Some? then Spot(target.value, listed[target.value]) else Spot(next, Filed(id, heading))
  }

  /** The issue to record on: the one that was listed, with its comments read, or a new one. */
  method FindOrFile(t: Tracker, listed: Issues, id: Bytes, heading: nat, d: Delivery) returns (found: Option<nat>)
    requires t.Valid() && UpToDate(t.issues, listed, id)
    modifies t
    ensures t.Valid()
    ensures found == if d.Done? then Some(SpotOf(listed, id, heading, old(t.next)).number) else None
    ensures t.issues == if Target(listed, id).Some? || !TakesEffect(d) then old(t.issues)
                        else old(t.issues)[old(t.next) := Filed(id, heading)]
  {
    found := FindIssue(listed, id);
    if found.None? {
      found := t.Create(id, heading, d);
    } else if !d.Done? {
      found := None;
    }
  }

  /** Recording a flake changes its own issue, which may be new, or nothing. */
  ghost predicate RecordStep(before: Issues, after: Issues, spot: Spot, now: Issue, markers: seq<Marker>,
                             reopen: bool) {
    PartlyCounted(spot.issue, now, markers, reopen) && (after == before || after == before[spot.number := now])
  }

  /** Files the flake's issue if none was found, then records on it what is not there yet. */
  method RecordFlake(t: Tracker, listed: Issues, group: seq<Occurrence>, id: Bytes, reopen: bool,
                     deliveries: nat -> Delivery, from: nat)
    returns (ok: bool, calls: nat, ghost now: Issue)
    requires t.Valid() && OneGroup(group, id) && UpToDate(t.issues, listed, id)
    modifies t
    ensures t.Valid()
    ensures var spot := SpotOf(listed, id, group[0].heading, old(t.next));
            var markers := Fresh(group, spot.issue.comments);
            && RecordStep(old(t.issues), t.issues, spot, now, markers, reopen)
            && (NoCallFails(deliveries) ==>
                  ok && now == Counted(spot.issue, markers, reopen) && t.issues == old(t.issues)[spot.number := now])
  {
    ghost var before := t.issues;
    ghost var spot := SpotOf(listed, id, group[0].heading, t.next);
    calls, now := from + 1, spot.issue;
    var found := FindOrFile(t, listed, id, group[0].heading, deliveries(from));
    NothingCounted(spot.issue, Fresh(group, spot.issue.comments), reopen);
    if found.None? {
      return false, calls, now;
    }
    var n := found.value;
    var seen := t.issues[n];
    assert t.issues == before[n := seen];
    var markers := Fresh(group, seen.comments);
    FreshDiffer(group, seen.comments);
    if markers == [] {
      return true, calls, now;
    }
    ok, calls, now := RecordOn(t, n, seen, markers, reopen, deliveries, calls);
    assert t.issues == before[n := now];
  }

  /** Only issues of this flake change or are added. */
  ghost predicate OnlyThis(before: Issues, after: Issues, id: Bytes) {
    && (forall n :: n in before && before[n].id != id ==> n in after && after[n] == before[n])
    && (forall n :: n in after && n !in before ==> after[n].id == id)
  }

  lemma StepContinues(before: Issues, after: Issues, spot: Spot, now: Issue, markers: seq<Marker>, reopen: bool)
    requires RecordStep(before, after, spot, now, markers, reopen)
    requires spot.number in before ==> before[spot.number] == spot.issue
    ensures Continues(before, after, reopen) && OnlyThis(before, after, spot.issue.id)
  {
  }

  // ----- a second issue, and a marker posted again -----

  /** The flake has an issue, but none was found. */
  ghost predicate Hidden(issues: Issues, listed: Issues, id: Bytes) {
    Target(listed, id).None? && exists n :: n in issues && issues[n].id == id
  }

  /** The markers of the group that are posted: those not on the issue that was found, up to the limit. */
  ghost function ToPost(listed: Issues, group: seq<Occurrence>, id: Bytes): seq<Marker> {
    var target := Target(listed, id);
    FirstOf(Fresh(group, if target.Some? then listed[target.value].comments else []))
  }

  /** An issue of the flake that was not found holds a marker that is posted. */
  ghost predicate OnOther(issues: Issues, listed: Issues, id: Bytes, markers: seq<Marker>, n: nat, m: Marker) {
    Holds(issues, n, m) && issues[n].id == id && Some(n) != Target(listed, id) && m in markers
  }

  ghost predicate Elsewhere(issues: Issues, listed: Issues, id: Bytes, markers: seq<Marker>) {
    exists n, m :: OnOther(issues, listed, id, markers, n, m)
  }

  lemma StepKeepsOne(before: Issues, after: Issues, listed: Issues, id: Bytes, spot: Spot, now: Issue)
    requires OneIssuePerFlake(before) && UpToDate(before, listed, id) && !Hidden(before, listed, id)
    requires spot.issue.id == now.id == id && (Target(listed, id).Some? ==> spot.number == Target(listed, id).value)
    requires after == before || after == before[spot.number := now]
    ensures OneIssuePerFlake(after)
  {
  }

  lemma StepBreaksOne(before: Issues, listed: Issues, id: Bytes, n: nat, now: Issue)
    requires Hidden(before, listed, id) && n !in before && now.id == id
    ensures !OneIssuePerFlake(before[n := now])
  {
    var k :| k in before && before[k].id == id;
    var after := before[n := now];
    assert after[k] == before[k] && after[n] == now && k != n;
  }

  lemma StepKeepsOnce(before: Issues, after: Issues, listed: Issues, id: Bytes, spot: Spot, now: Issue,
                      markers: seq<Marker>)
    requires MarkersOnce(before) && AllTidy(before) && AllTidy(after) && !Elsewhere(before, listed, id, markers)
    requires now.id == id && (Target(listed, id).Some? ==> spot.number == Target(listed, id).value)
    requires Target(listed, id).None? ==> spot.number !in before
    requires spot.number in before ==> before[spot.number] == spot.issue
    requires spot.number !in before ==> spot.issue.comments == []
    requires after == before || after == before[spot.number := now]
    requires forall m :: m in now.comments ==> m in spot.issue.comments || m in markers
    ensures MarkersOnce(after)
  {
    forall a, m | Holds(after, a, m) && Holds(after, spot.number, m) ensures a == spot.number {
      if a != spot.number && after != before {
        assert Holds(before, a, m) && m.id == before[a].id == id;
        assert !OnOther(before, listed, id, markers, a, m);
        assert m !in markers;
        assert Holds(before, spot.number, m);
      }
    }
    forall a, b, m | Holds(after, a, m) && Holds(after, b, m) ensures a == b {
      if a != spot.number && b != spot.number {
        assert Holds(before, a, m) && Holds(before, b, m);
      }
    }
  }

  lemma StepBreaksOnce(before: Issues, listed: Issues, id: Bytes, spot: Spot, now: Issue, markers: seq<Marker>)
    requires Elsewhere(before, listed, id, markers) && forall m :: m in markers ==> m in now.comments
    requires if Target(listed, id).Some? then spot.number == Target(listed, id).value else spot.number !in before
    ensures !MarkersOnce(before[spot.number := now])
  {
    var n, m :| OnOther(before, listed, id, markers, n, m);
    var after := before[spot.number := now];
    assert Holds(after, n, m) && Holds(after, spot.number, m) && n != spot.number;
  }

  /** Whatever was recorded twice stays so. */
  lemma OnceBefore(before: Issues, after: Issues, reopen: bool)
    requires Continues(before, after, reopen)
    ensures OneIssuePerFlake(after) ==> OneIssuePerFlake(before)
    ensures MarkersOnce(after) ==> MarkersOnce(before)
  {
    if MarkersOnce(after) {
      forall n | n in before ensures NoMarkerTwice(before[n].comments) {
        assert NoMarkerTwice(after[n].comments);
      }
      forall a, b, m | Holds(before, a, m) && Holds(before, b, m) ensures a == b {
        assert Holds(after, a, m) && Holds(after, b, m);
      }
    }
  }

  lemma {:induction false} CountedRecords(issues: Issues, spot: Spot, group: seq<Occurrence>, id: Bytes, reopen: bool)
    requires spot.issue.id == id
    ensures Recorded(issues[spot.number := Counted(spot.issue, Fresh(group, spot.issue.comments), reopen)], group, id)
  {
    var markers := Fresh(group, spot.issue.comments);
    var after := issues[spot.number := Counted(spot.issue, markers, reopen)];
    assert after[spot.number].id == id;
    if |group| <= MAX_COMMENTS {
      assert FirstOf(markers) == markers;
    }
  }

  lemma CountedIsExact(issues: Issues, spot: Spot, markers: seq<Marker>, reopen: bool)
    requires AllExact(issues) ==> Exact(spot.issue)
    ensures AllExact(issues) ==> AllExact(issues[spot.number := Counted(spot.issue, markers, reopen)])
  {
  }

  // ----- one run -----

  /** The flakes of a run, in the order in which they first occur. */
  function Ids(occurrences: seq<Occurrence>): (ids: seq<Bytes>)
    ensures forall id :: id in ids <==> exists o :: o in occurrences && o.marker.id == id
    ensures forall i, j :: 0 <= i < j < |ids| ==> ids[i] != ids[j]
  {
    if occurrences == [] then []
    else
      var before := Ids(occurrences[..|occurrences| - 1]);
      var o := occurrences[|occurrences| - 1];
      assert occurrences == occurrences[..|occurrences| - 1] + [o];
      if o.marker.id in before then before else before + [o.marker.id]
  }

  function GroupOf(occurrences: seq<Occurrence>, id: Bytes): (group: seq<Occurrence>)
    ensures forall o :: o in group <==> o in occurrences && o.marker.id == id
  {
    if occurrences == [] then []
    else
      var o := occurrences[|occurrences| - 1];
      assert occurrences == occurrences[..|occurrences| - 1] + [o];
      GroupOf(occurrences[..|occurrences| - 1], id) + (if o.marker.id == id then [o] else [])
  }

  function Above(issues: Issues, n: nat): set<nat> {
    set k | k in issues && k > n
  }

  /** The newest issues, up to the limit. */
  function Listing(issues: Issues): Issues {
    map n | n in issues && |Above(issues, n)| < LIST_LIMIT :: issues[n]
  }

  lemma SubsetSize(a: set<nat>, b: set<nat>)
    requires a <= b
    ensures |a| <= |b|
  {
    assert b == a + (b - a);
  }

  lemma ShortListing(issues: Issues)
    requires |issues| <= LIST_LIMIT
    ensures Listing(issues) == issues
  {
    forall n | n in issues ensures |Above(issues, n)| < LIST_LIMIT {
      SubsetSize(Above(issues, n), issues.Keys - {n});
      assert |issues.Keys - {n}| == |issues| - 1;
    }
  }

  lemma NewestAreListed(issues: Issues, kept: Issues)
    requires forall n :: n in kept ==> n in issues && issues[n] == kept[n]
    requires forall n, k :: n in kept && k in issues && k !in kept ==> k < n
    requires |kept| == LIST_LIMIT
    ensures kept == Listing(issues)
  {
    forall n | n in issues ensures n in kept <==> |Above(issues, n)| < LIST_LIMIT {
      if n in kept {
        SubsetSize(Above(issues, n), kept.Keys - {n});
        assert |kept.Keys - {n}| == |kept| - 1;
      } else {
        SubsetSize(kept.Keys, Above(issues, n));
      }
    }
  }

  /** gh issue list */
  method List(t: Tracker, d: Delivery) returns (listed: Option<Issues>)
    ensures listed == if d.Done? then Some(Listing(t.issues)) else None
  {
    if !d.Done? {
      return None;
    }
    var kept := t.issues;
    if |kept| <= LIST_LIMIT {
      ShortListing(kept);
      return Some(kept);
    }
    while |kept| > LIST_LIMIT
      invariant |kept| >= LIST_LIMIT
      invariant forall n :: n in kept ==> n in t.issues && t.issues[n] == kept[n]
      invariant forall n, k :: n in kept && k in t.issues && k !in kept ==> k < n
      decreases |kept|
    {
      var oldest := Oldest(kept.Keys);
      assert kept.Keys - {oldest} == (kept - {oldest}).Keys;
      kept := kept - {oldest};
    }
    NewestAreListed(t.issues, kept);
    return Some(kept);
  }

  method Oldest(numbers: set<nat>) returns (oldest: nat)
    requires numbers != {}
    ensures oldest in numbers && forall n :: n in numbers ==> oldest <= n
  {
    oldest :| oldest in numbers;
    var rest := numbers - {oldest};
    while rest != {}
      invariant oldest in numbers && rest <= numbers
      invariant forall n :: n in numbers && n !in rest ==> oldest <= n
    {
      var n :| n in rest;
      if n < oldest {
        oldest := n;
      }
      rest := rest - {n};
    }
  }

  /** Issues of flakes that are not among `ids` are as they were when the run began. */
  ghost predicate UntouchedBut(before: Issues, now: Issues, ids: seq<Bytes>) {
    && (forall n :: n in before && before[n].id !in ids ==> n in now && now[n] == before[n])
    && (forall n :: n in now && now[n].id !in ids ==> n in before && now[n] == before[n])
  }

  lemma StillUntouched(before: Issues, now: Issues, later: Issues, ids: seq<Bytes>, id: Bytes, reopen: bool)
    requires UntouchedBut(before, now, ids) && OnlyThis(now, later, id) && Continues(now, later, reopen)
    ensures UntouchedBut(before, later, ids + [id])
  {
    forall n | n in later && later[n].id !in ids + [id] ensures n in before && later[n] == before[n] {
      assert n in now && now[n].id != id;
    }
  }

  lemma RecordedStays(now: Issues, later: Issues, id: Bytes, group: seq<Occurrence>, other: Bytes)
    requires OnlyThis(now, later, id) && other != id && Recorded(now, group, other)
    ensures Recorded(later, group, other)
  {
    var n :| n in now && now[n].id == other
             && (|group| <= MAX_COMMENTS ==> forall o :: o in group ==> o.marker in now[n].comments);
    assert later[n] == now[n];
  }

  /** Until its turn comes, a flake's issues are as they were when the run began. */
  lemma BeforeItsTurn(first: Issues, now: Issues, listed: Issues, ids: seq<Bytes>, id: Bytes, markers: seq<Marker>)
    requires UntouchedBut(first, now, ids) && id !in ids && listed == Listing(first)
    ensures UpToDate(now, listed, id)
    ensures Hidden(now, listed, id) <==> Hidden(first, listed, id)
    ensures Elsewhere(now, listed, id, markers) <==> Elsewhere(first, listed, id, markers)
  {
    if Elsewhere(now, listed, id, markers) {
      var n, m :| OnOther(now, listed, id, markers, n, m);
      assert OnOther(first, listed, id, markers, n, m);
    }
    if Elsewhere(first, listed, id, markers) {
      var n, m :| OnOther(first, listed, id, markers, n, m);
      assert OnOther(now, listed, id, markers, n, m);
    }
  }

  ghost predicate AllRecorded(issues: Issues, occurrences: seq<Occurrence>, ids: seq<Bytes>) {
    forall id :: id in ids ==> Recorded(issues, GroupOf(occurrences, id), id)
  }

  lemma {:induction false} AllRecordedNext(now: Issues, later: Issues, occurrences: seq<Occurrence>, ids: seq<Bytes>,
                                           id: Bytes)
    requires OnlyThis(now, later, id) && id !in ids && AllRecorded(now, occurrences, ids)
    requires Recorded(later, GroupOf(occurrences, id), id)
    ensures AllRecorded(later, occurrences, ids + [id])
  {
    forall other | other in ids + [id] ensures Recorded(later, GroupOf(occurrences, other), other) {
      if other != id {
        RecordedStays(now, later, id, GroupOf(occurrences, other), other);
      }
    }
  }

  /** The flakes a run files. */
  function FiledIds(occurrences: seq<Occurrence>): seq<Bytes> {
    var ids := Ids(occurrences);
    if |ids| <= MAX_ISSUES then ids else ids[..MAX_ISSUES]
  }

  lemma IdAt(ids: seq<Bytes>, k: nat)
    requires k < |ids| && forall i, j :: 0 <= i < j < |ids| ==> ids[i] != ids[j]
    ensures ids[k] !in ids[..k] && ids[..k + 1] == ids[..k] + [ids[k]]
  {
  }

  lemma {:induction false} GroupIsOne(occurrences: seq<Occurrence>, id: Bytes)
    requires exists o :: o in occurrences && o.marker.id == id
    ensures OneGroup(GroupOf(occurrences, id), id)
  {
    var o :| o in occurrences && o.marker.id == id;
    assert o in GroupOf(occurrences, id);
  }

  lemma {:induction false} FiledIdAt(occurrences: seq<Occurrence>, k: nat)
    requires k < |FiledIds(occurrences)|
    ensures var ids := FiledIds(occurrences);
            && ids[k] !in ids[..k] && ids[..k + 1] == ids[..k] + [ids[k]]
            && OneGroup(GroupOf(occurrences, ids[k]), ids[k])
  {
    var ids := FiledIds(occurrences);
    IdAt(ids, k);
    assert ids[k] == Ids(occurrences)[k] && ids[k] in Ids(occurrences);
    GroupIsOne(occurrences, ids[k]);
  }

  /** Every one of these flakes is found in the listing, if it has an issue. */
  ghost predicate NoneHidden(issues: Issues, ids: seq<Bytes>) {
    forall id :: id in ids ==> !Hidden(issues, Listing(issues), id)
  }

  /** No marker that a run would post for these flakes is on an issue that the listing does not lead to. */
  ghost predicate NoneElsewhere(issues: Issues, occurrences: seq<Occurrence>, ids: seq<Bytes>) {
    forall id :: id in ids ==>
      !Elsewhere(issues, Listing(issues), id, ToPost(Listing(issues), GroupOf(occurrences, id), id))
  }

  /** How the flakes recorded so far bear on what a tracker should hold once only. */
  ghost predicate SoFar(first: Issues, now: Issues, occurrences: seq<Occurrence>, ids: seq<Bytes>, complete: bool) {
    && (OneIssuePerFlake(first) && NoneHidden(first, ids) ==> OneIssuePerFlake(now))
    && (MarkersOnce(first) && NoneElsewhere(first, occurrences, ids) ==> MarkersOnce(now))
    && (complete && OneIssuePerFlake(now) ==> OneIssuePerFlake(first) && NoneHidden(first, ids))
    && (complete && MarkersOnce(now) ==> MarkersOnce(first) && NoneElsewhere(first, occurrences, ids))
  }

  lemma SoFarNothing(first: Issues, occurrences: seq<Occurrence>, complete: bool)
    ensures SoFar(first, first, occurrences, [], complete)
  {
  }

  lemma PrefixIn(now: seq<Marker>, base: seq<Marker>, markers: seq<Marker>, k: nat)
    requires k <= |markers| && now == base + markers[..k]
    ensures forall m :: m in now ==> m in base || m in markers
  {
  }

  /** What one step does to the flake it records, in the state in which its turn comes. */
  lemma {:induction false} StepOnce(now: Issues, later: Issues, listed: Issues, id: Bytes, group: seq<Occurrence>,
                                    heading: nat, next: nat, issue: Issue, reopen: bool, complete: bool)
    requires AllTidy(now) && AllTidy(later) && UpToDate(now, listed, id) && next !in now
    requires var spot := SpotOf(listed, id, heading, next);
             var markers := Fresh(group, spot.issue.comments);
             && RecordStep(now, later, spot, issue, markers, reopen)
             && (complete ==> issue == Counted(spot.issue, markers, reopen) && later == now[spot.number := issue])
    ensures OneIssuePerFlake(now) && !Hidden(now, listed, id) ==> OneIssuePerFlake(later)
    ensures complete && Hidden(now, listed, id) ==> !OneIssuePerFlake(later)
    ensures MarkersOnce(now) && !Elsewhere(now, listed, id, ToPost(listed, group, id)) ==> MarkersOnce(later)
    ensures complete && Elsewhere(now, listed, id, ToPost(listed, group, id)) ==> !MarkersOnce(later)
  {
    var spot := SpotOf(listed, id, heading, next);
    var markers := Fresh(group, spot.issue.comments);
    assert ToPost(listed, group, id) == FirstOf(markers);
    if OneIssuePerFlake(now) && !Hidden(now, listed, id) {
      StepKeepsOne(now, later, listed, id, spot, issue);
    }
    if complete && Hidden(now, listed, id) {
      StepBreaksOne(now, listed, id, next, issue);
    }
    if MarkersOnce(now) && !Elsewhere(now, listed, id, FirstOf(markers)) {
      var k :| 0 <= k <= |FirstOf(markers)| && issue.comments == spot.issue.comments + FirstOf(markers)[..k];
      PrefixIn(issue.comments, spot.issue.comments, FirstOf(markers), k);
      StepKeepsOnce(now, later, listed, id, spot, issue, FirstOf(markers));
    }
    if complete && Elsewhere(now, listed, id, FirstOf(markers)) {
      assert markers != [];
      StepBreaksOnce(now, listed, id, spot, issue, FirstOf(markers));
    }
  }

  lemma {:induction false} SoFarNext(first: Issues, now: Issues, later: Issues, occurrences: seq<Occurrence>,
                                     ids: seq<Bytes>, id: Bytes, reopen: bool, complete: bool)
    requires SoFar(first, now, occurrences, ids, complete) && UntouchedBut(first, now, ids) && id !in ids
    requires Continues(now, later, reopen)
    requires var listed := Listing(first);
             var markers := ToPost(listed, GroupOf(occurrences, id), id);
             && (OneIssuePerFlake(now) && !Hidden(now, listed, id) ==> OneIssuePerFlake(later))
             && (complete && Hidden(now, listed, id) ==> !OneIssuePerFlake(later))
             && (MarkersOnce(now) && !Elsewhere(now, listed, id, markers) ==> MarkersOnce(later))
             && (complete && Elsewhere(now, listed, id, markers) ==> !MarkersOnce(later))
    ensures SoFar(first, later, occurrences, ids + [id], complete)
  {
    var listed := Listing(first);
    BeforeItsTurn(first, now, listed, ids, id, ToPost(listed, GroupOf(occurrences, id), id));
    OnceBefore(now, later, reopen);
    OneMore(first, occurrences, ids, id);
  }

  lemma {:induction false} OneMore(first: Issues, occurrences: seq<Occurrence>, ids: seq<Bytes>, id: Bytes)
    ensures NoneHidden(first, ids + [id]) <==> NoneHidden(first, ids) && !Hidden(first, Listing(first), id)
    ensures NoneElsewhere(first, occurrences, ids + [id])
            <==> NoneElsewhere(first, occurrences, ids)
                 && !Elsewhere(first, Listing(first), id, ToPost(Listing(first), GroupOf(occurrences, id), id))
  {
    assert forall x :: x in ids + [id] <==> x in ids || x == id;
  }

  /** What recording the next flake of a run keeps. */
  lemma {:induction false} Onward(first: Issues, now: Issues, later: Issues, listed: Issues,
                                  occurrences: seq<Occurrence>, ids: seq<Bytes>, id: Bytes, heading: nat, next: nat,
                                  issue: Issue, reopen: bool, complete: bool)
    requires AllTidy(now) && AllTidy(later) && listed == Listing(first) && next !in now && id !in ids
    requires Continues(first, now, reopen) && UntouchedBut(first, now, ids) && UpToDate(now, listed, id)
    requires SoFar(first, now, occurrences, ids, complete) && (complete ==> AllRecorded(now, occurrences, ids))
    requires var spot := SpotOf(listed, id, heading, next);
             var markers := Fresh(GroupOf(occurrences, id), spot.issue.comments);
             && RecordStep(now, later, spot, issue, markers, reopen)
             && (complete ==> issue == Counted(spot.issue, markers, reopen) && later == now[spot.number := issue])
    ensures Continues(first, later, reopen) && UntouchedBut(first, later, ids + [id])
    ensures SoFar(first, later, occurrences, ids + [id], complete)
    ensures complete ==> AllRecorded(later, occurrences, ids + [id])
    ensures complete && AllExact(now) ==> AllExact(later)
  {
    var spot := SpotOf(listed, id, heading, next);
    var group := GroupOf(occurrences, id);
    var markers := Fresh(group, spot.issue.comments);
    StepContinues(now, later, spot, issue, markers, reopen);
    ContinuesOn(first, now, later, reopen);
    StillUntouched(first, now, later, ids, id, reopen);
    StepOnce(now, later, listed, id, group, heading, next, issue, reopen, complete);
    SoFarNext(first, now, later, occurrences, ids, id, reopen, complete);
    if complete {
      CountedRecords(now, spot, group, id, reopen);
      AllRecordedNext(now, later, occurrences, ids, id);
      CountedIsExact(now, spot, markers, reopen);
    }
  }

  /**
   * One run. A failed call only ends the work on its flake; listing failures end the run. No flake gets a second issue,
   * and no marker is posted a second time, exactly when the listing leads to every issue that matters.
   */
  method UpdateLedger(t: Tracker, occurrences: seq<Occurrence>, reopen: bool, deliveries: nat -> Delivery)
    requires t.Valid()
    modifies t
    ensures t.Valid() && Continues(old(t.issues), t.issues, reopen)
    ensures OneIssuePerFlake(old(t.issues)) && NoneHidden(old(t.issues), FiledIds(occurrences)) ==>
              OneIssuePerFlake(t.issues)
    ensures MarkersOnce(old(t.issues)) && NoneElsewhere(old(t.issues), occurrences, FiledIds(occurrences)) ==>
              MarkersOnce(t.issues)
    ensures NoCallFails(deliveries) && OneIssuePerFlake(t.issues) ==>
              OneIssuePerFlake(old(t.issues)) && NoneHidden(old(t.issues), FiledIds(occurrences))
    ensures NoCallFails(deliveries) && MarkersOnce(t.issues) ==>
              MarkersOnce(old(t.issues)) && NoneElsewhere(old(t.issues), occurrences, FiledIds(occurrences))
    ensures NoCallFails(deliveries) ==> AllRecorded(t.issues, occurrences, FiledIds(occurrences))
    ensures NoCallFails(deliveries) && AllExact(old(t.issues)) ==> AllExact(t.issues)
  {
    var ids := FiledIds(occurrences);
    ghost var first, complete := t.issues, NoCallFails(deliveries);
    SoFarNothing(first, occurrences, complete);
    if Ids(occurrences) == [] {
      return;
    }
    if !deliveries(0).Done? {
      return;
    }
    var answer := List(t, deliveries(1));
    if answer.None? {
      return;
    }
    var listed := answer.value;
    var calls := 2;
    assert ids[..0] == [];
    for k := 0 to |ids|
      invariant t.Valid() && Continues(first, t.issues, reopen) && UntouchedBut(first, t.issues, ids[..k])
      invariant SoFar(first, t.issues, occurrences, ids[..k], complete)
      invariant complete ==> AllRecorded(t.issues, occurrences, ids[..k])
      invariant complete && AllExact(first) ==> AllExact(t.issues)
    {
      ghost var now, next := t.issues, t.next;
      var id := ids[k];
      var group := GroupOf(occurrences, id);
      FiledIdAt(occurrences, k);
      BeforeItsTurn(first, now, listed, ids[..k], id, ToPost(listed, group, id));
      var ok;
      ghost var issue;
      ok, calls, issue := RecordFlake(t, listed, group, id, reopen, deliveries, calls);
      Onward(first, now, t.issues, listed, occurrences, ids[..k], id, group[0].heading, next, issue, reopen, complete);
    }
    assert ids[..|ids|] == ids;
  }

  // ----- a listing that leaves an issue out -----

  /**
   * The same occurrence once more, its issue no longer listed: the flake gets a second issue, and the marker that is
   * on the first is posted on the second.
   */
  method RecordAgain(t: Tracker, n: nat, o: Occurrence, reopen: bool, deliveries: nat -> Delivery)
    requires t.Valid() && Holds(t.issues, n, o.marker) && NoCallFails(deliveries)
    requires Target(Listing(t.issues), o.marker.id).None?
    modifies t
    ensures t.Valid() && !OneIssuePerFlake(t.issues) && !MarkersOnce(t.issues)
  {
    assert t.issues[n].id == o.marker.id;
    OnlyOne(o);
    var issues, listed, id := t.issues, Listing(t.issues), o.marker.id;
    assert Hidden(issues, listed, id);
    assert ToPost(listed, [o], id) == [o.marker];
    assert OnOther(issues, listed, id, ToPost(listed, [o], id), n, o.marker);
    UpdateLedger(t, [o], reopen, deliveries);
  }

  lemma OnlyOne(o: Occurrence)
    ensures FiledIds([o]) == [o.marker.id] && GroupOf([o], o.marker.id) == [o] && Fresh([o], []) == [o.marker]
  {
    assert [o][..0] == [];
    assert Ids([]) == [] && GroupOf([], o.marker.id) == [] && Fresh([], []) == [];
  }

  /** The numbers from 1 to `k`. */
  function UpTo(k: nat): (numbers: set<nat>)
    ensures |numbers| == k && forall n :: n in numbers <==> 1 <= n <= k
  {
    if k == 0 then {} else UpTo(k - 1) + {k}
  }

  function CrowdIssue(m: Marker, n: nat): Issue {
    if n == 1 then Issue(m.id, 0, 1, true, false, [m]) else Issue(m.id + seq(n, _ => 0), 0, 0, true, false, [])
  }

  /** An issue that holds `m`, and newer ones of other flakes. */
  function Crowded(m: Marker, newer: nat): Issues {
    map n | n in UpTo(newer + 1) :: CrowdIssue(m, n)
  }

  /** Such a tracker keeps everything, but a listing leaves the oldest issue out. */
  lemma CrowdedHides(m: Marker, newer: nat)
    requires newer >= LIST_LIMIT
    ensures var issues := Crowded(m, newer);
            && AllTidy(issues) && OneIssuePerFlake(issues) && MarkersOnce(issues) && Holds(issues, 1, m)
            && Target(Listing(issues), m.id).None?
  {
    var issues := Crowded(m, newer);
    forall a, b | a in issues && b in issues && issues[a].id == issues[b].id ensures a == b {
      assert |issues[a].id| == |m.id| + (if a == 1 then 0 else a);
      assert |issues[b].id| == |m.id| + (if b == 1 then 0 else b);
    }
    OneIssueMeansOnce(issues);
    SubsetSize(UpTo(newer + 1) - {1}, Above(issues, 1));
    assert 1 !in Listing(issues);
    forall n | n in Listing(issues) ensures issues[n].id != m.id {
      assert |issues[n].id| == |m.id| + n;
    }
  }

  // ----- every sequence of runs -----

  /** The same issues, of the same flakes, are still there. */
  ghost predicate StillThere(before: Issues, after: Issues) {
    forall n :: n in before ==> n in after && after[n].id == before[n].id
  }

  /** What people do to an issue between two runs. */
  datatype Move = Close(number: nat, completed: bool) | OpenAgain(number: nat)

  function Moved(issues: Issues, move: Move): Issues {
    if move.number !in issues then issues
    else
      var issue := issues[move.number];
      issues[move.number := match move
                            case Close(_, completed) => issue.(isOpen := false, completed := completed)
                            case OpenAgain(_) => issue.(isOpen := true)]
  }

  method MoveAll(t: Tracker, moves: seq<Move>)
    requires t.Valid()
    modifies t`issues
    ensures t.Valid() && StillThere(old(t.issues), t.issues)
    ensures OneIssuePerFlake(old(t.issues)) ==> OneIssuePerFlake(t.issues)
    ensures AllExact(old(t.issues)) ==> AllExact(t.issues)
  {
    for k := 0 to |moves|
      invariant t.Valid() && t.issues.Keys == old(t.issues).Keys && StillThere(old(t.issues), t.issues)
      invariant OneIssuePerFlake(old(t.issues)) ==> OneIssuePerFlake(t.issues)
      invariant AllExact(old(t.issues)) ==> AllExact(t.issues)
    {
      MovedKeeps(t.issues, moves[k]);
      t.issues := Moved(t.issues, moves[k]);
    }
  }

  lemma MovedKeeps(issues: Issues, move: Move)
    ensures Moved(issues, move).Keys == issues.Keys && StillThere(issues, Moved(issues, move))
    ensures OneIssuePerFlake(issues) ==> OneIssuePerFlake(Moved(issues, move))
    ensures AllExact(issues) ==> AllExact(Moved(issues, move))
    ensures AllTidy(issues) ==> AllTidy(Moved(issues, move))
  {
  }

  /** A run, and what people did to issues since the last one. */
  datatype RunInput = RunInput(moves: seq<Move>, occurrences: seq<Occurrence>, reopen: bool,
                               deliveries: nat -> Delivery)

  lemma CompleteHidesNothing(issues: Issues, ids: seq<Bytes>)
    requires |issues| <= LIST_LIMIT
    ensures NoneHidden(issues, ids)
  {
    ShortListing(issues);
  }

  lemma StillThereOn(before: Issues, middle: Issues, after: Issues)
    requires StillThere(before, middle) && StillThere(middle, after)
    ensures StillThere(before, after)
  {
  }

  lemma FewerBefore(before: Issues, after: Issues)
    requires StillThere(before, after)
    ensures |before| <= |after|
  {
    SubsetSize(before.Keys, after.Keys);
  }

  /** What each run met on the tracker led it, by its listing, to every issue of the flakes it filed. */
  ghost predicate AllFound(runs: seq<RunInput>, met: seq<Issues>) {
    |met| <= |runs| && forall k :: 0 <= k < |met| ==> NoneHidden(met[k], FiledIds(runs[k].occurrences))
  }

  /** What runs met is still there, and was for the later ones. */
  ghost predicate Met(met: seq<Issues>, issues: Issues) {
    && (forall k :: 0 <= k < |met| ==> StillThere(met[k], issues))
    && (forall j, k :: 0 <= j < k < |met| ==> StillThere(met[j], met[k]))
  }

  lemma MetNext(met: seq<Issues>, issues: Issues, later: Issues)
    requires Met(met, issues) && StillThere(issues, later)
    ensures Met(met + [issues], later)
  {
    forall k | 0 <= k < |met| ensures StillThere(met[k], later) {
      StillThereOn(met[k], issues, later);
    }
  }

  lemma MetStays(met: seq<Issues>, issues: Issues, later: Issues)
    requires Met(met, issues) && StillThere(issues, later)
    ensures Met(met, later)
  {
    forall k | 0 <= k < |met| ensures StillThere(met[k], later) {
      StillThereOn(met[k], issues, later);
    }
  }

  lemma AllFoundBefore(runs: seq<RunInput>, met: seq<Issues>, issues: Issues)
    requires AllFound(runs, met + [issues])
    ensures AllFound(runs, met) && NoneHidden(issues, FiledIds(runs[|met|].occurrences))
  {
    assert (met + [issues])[|met|] == issues;
    forall k | 0 <= k < |met| ensures NoneHidden(met[k], FiledIds(runs[k].occurrences)) {
      assert (met + [issues])[k] == met[k];
    }
  }

  lemma SmallIsFound(runs: seq<RunInput>, met: seq<Issues>, issues: Issues)
    requires Met(met, issues) && |met| <= |runs| && |issues| <= LIST_LIMIT
    ensures AllFound(runs, met)
  {
    forall k | 0 <= k < |met| ensures NoneHidden(met[k], FiledIds(runs[k].occurrences)) {
      FewerBefore(met[k], issues);
      CompleteHidesNothing(met[k], FiledIds(runs[k].occurrences));
    }
  }

  /**
   * Any number of runs on an empty tracker, with people closing and reopening issues in between; `met` is what each run
   * found on the tracker. No count exceeds the comments. While every run's listing leads to the issues it needs, and so
   * while listings show the whole tracker, no flake has two issues and no marker is posted twice anywhere. If no call
   * ever fails, every count is exact.
   */
  method RunLedger(runs: seq<RunInput>) returns (t: Tracker, ghost met: seq<Issues>)
    ensures t.Valid() && |met| == |runs| && Met(met, t.issues)
    ensures AllFound(runs, met) ==> OneIssuePerFlake(t.issues) && MarkersOnce(t.issues)
    ensures |t.issues| <= LIST_LIMIT ==> OneIssuePerFlake(t.issues) && MarkersOnce(t.issues)
    ensures (forall r :: r in runs ==> NoCallFails(r.deliveries)) ==> AllExact(t.issues)
  {
    t := new Tracker();
    met := [];
    for k := 0 to |runs|
      invariant fresh(t) && t.Valid() && |met| == k && Met(met, t.issues)
      invariant AllFound(runs, met) ==> OneIssuePerFlake(t.issues)
      invariant (forall r :: r in runs ==> NoCallFails(r.deliveries)) ==> AllExact(t.issues)
    {
      assert runs[k] in runs;
      ghost var before := t.issues;
      MoveAll(t, runs[k].moves);
      ghost var issues := t.issues;
      UpdateLedger(t, runs[k].occurrences, runs[k].reopen, runs[k].deliveries);
      MetStays(met, before, issues);
      MetNext(met, issues, t.issues);
      if AllFound(runs, met + [issues]) {
        AllFoundBefore(runs, met, issues);
      }
      met := met + [issues];
    }
    if |t.issues| <= LIST_LIMIT {
      SmallIsFound(runs, met, t.issues);
    }
    if OneIssuePerFlake(t.issues) {
      OneIssueMeansOnce(t.issues);
    }
  }
}
