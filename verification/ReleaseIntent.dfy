/** Stable requests read from the intent file's history. */
module ReleaseIntent {
  import opened Wrappers
  import opened JsText

  /** What JSON.parse makes of one snapshot of the file; absent fields and fields of another type are None. */
  datatype Document =
    | NotAnObject
    | Object(hasAction: bool, action: Option<string>, version: Option<string>, requestId: Option<string>,
             hasSupersedes: bool, supersedes: Option<string>,
             withdraws: Option<seq<Option<string>>>, reason: Option<string>)

  /** `text` is None when the file is gone, empty or not JSON. */
  datatype Snapshot = Snapshot(sourceSha: string, text: Option<Document>)

  datatype Intent =
    | Stable(version: string, requestId: string, supersedes: Option<string>)
    | Withdrawal(requestId: string, withdraws: set<string>, reason: string)

  datatype StableRequest = StableRequest(version: string, requestId: string, supersedes: Option<string>,
                                         sourceSha: string)

  datatype Parsed = Parsed(sourceSha: string, intent: Option<Intent>)

  datatype HistoryError =
    | UnknownWithdrawalTarget(sourceSha: string)
    | InvalidIntent(sourceSha: string)
    | RequestIdReused(requestId: string)

  // ----- parsing -----

  predicate IsSha(s: string) {
    |s| == 40 && forall c :: c in s ==> IsLowerHex(c)
  }

  predicate IsUuid(s: string) {
    |s| == 36 && forall i :: 0 <= i < 36 ==>
      if i in {8, 13, 18, 23} then s[i] == '-' else IsLowerHex(s[i])
  }

  /** Three dot-separated numbers without leading zeros, at most 100 characters. */
  predicate IsStableVersion(s: string) {
    var parts := Split(s, '.');
    |s| <= 100 && |parts| == 3 && forall i :: 0 <= i < 3 ==>
      parts[i] != [] && AllDigits(parts[i]) && (|parts[i]| > 1 ==> parts[i][0] != '0')
  }

  predicate IsStableIntent(version: string, requestId: string, supersedes: Option<string>) {
    IsStableVersion(version) && IsUuid(requestId) &&
    (supersedes.Some? ==> IsUuid(supersedes.value) && supersedes.value != requestId)
  }

  function ParseStableIntent(d: Document): (intent: Option<Intent>)
    ensures intent.Some? ==> intent.value.Stable? && IsUuid(intent.value.requestId)
    ensures intent.Some? && intent.value.supersedes.Some? ==> IsUuid(intent.value.supersedes.value)
  {
    if d.NotAnObject? || d.version.None? || d.requestId.None? || (d.hasSupersedes && d.supersedes.None?) then None
    else
      var supersedes := if d.hasSupersedes then d.supersedes else None;
      if IsStableIntent(d.version.value, d.requestId.value, supersedes)
      then Some(Stable(d.version.value, d.requestId.value, supersedes))
      else None
  }

  /** A withdrawal keeps its targets as a set: the script drops repeats and sorts them. */
  function ParseReleaseIntent(d: Document): (intent: Option<Intent>)
    ensures intent.Some? ==> IsUuid(intent.value.requestId)
    ensures intent.Some? && intent.value.Stable? && intent.value.supersedes.Some? ==>
              IsUuid(intent.value.supersedes.value)
  {
    if d.NotAnObject? || !d.hasAction then ParseStableIntent(d)
    else if
      || d.action != Some("withdraw")
      || d.requestId.None? || !IsUuid(d.requestId.value)
      || d.withdraws.None? || d.withdraws.value == []
      || (exists i :: 0 <= i < |d.withdraws.value| && !ValidTarget(d.withdraws.value[i], d.requestId.value))
      || d.reason.None? || Trim(d.reason.value) == []
    then None
    else
      Some(Withdrawal(d.requestId.value, set t | t in d.withdraws.value :: if t.Some? then t.value else "",
                      Trim(d.reason.value)))
  }

  predicate ValidTarget(target: Option<string>, requestId: string) {
    target.Some? && (IsUuid(target.value) || IsSha(target.value)) && target.value != requestId
  }

  function ParseSnapshot(s: Snapshot): Parsed {
    Parsed(s.sourceSha, if s.text.None? then None else ParseReleaseIntent(s.text.value))
  }

  function ParseAll(snapshots: seq<Snapshot>): (parsed: seq<Parsed>)
    ensures |parsed| == |snapshots|
    ensures forall i :: 0 <= i < |snapshots| ==> parsed[i] == ParseSnapshot(snapshots[i])
  {
    if snapshots == [] then []
    else ParseAll(snapshots[..|snapshots| - 1]) + [ParseSnapshot(snapshots[|snapshots| - 1])]
  }

  // ----- withdrawals, newest first -----

  datatype Withdrawals = Withdrawals(targets: set<string>, invalid: set<string>)

  function IdsOf(p: Parsed): set<string> {
    {p.sourceSha} + (if p.intent.Some? then {p.intent.value.requestId} else {})
  }

  /** Commits and request IDs of the first `n` snapshots. */
  function Known(parsed: seq<Parsed>, n: nat): set<string>
    requires n <= |parsed|
  {
    if n == 0 then {} else Known(parsed, n - 1) + IdsOf(parsed[n - 1])
  }

  predicate IsWithdrawal(p: Parsed) {
    p.intent.Some? && p.intent.value.Withdrawal?
  }

  predicate IsStable(p: Parsed) {
    p.intent.Some? && p.intent.value.Stable?
  }

  function ApplyWithdrawal(parsed: seq<Parsed>, k: nat, later: Withdrawals): Withdrawals
    requires k < |parsed|
  {
    var p := parsed[k];
    if !IsWithdrawal(p) || p.sourceSha in later.targets || p.intent.value.requestId in later.targets then later
    else
      var wanted, known := p.intent.value.withdraws, Known(parsed, k);
      Withdrawals(later.targets + wanted * known,
                  if wanted <= known then later.invalid else later.invalid + {p.sourceSha})
  }

  /** What the withdrawals at `k` and later withdraw. */
  function WithdrawnFrom(parsed: seq<Parsed>, k: nat): Withdrawals
    requires k <= |parsed|
    decreases |parsed| - k
  {
    if k == |parsed| then Withdrawals({}, {})
    else ApplyWithdrawal(parsed, k, WithdrawnFrom(parsed, k + 1))
  }

  // ----- lineages -----

  function Targets(r: StableRequest): set<string> {
    {r.requestId, r.sourceSha} + (if r.supersedes.Some? then {r.supersedes.value} else {})
  }

  function AsRequest(p: Parsed): StableRequest
    requires IsStable(p)
  {
    StableRequest(p.intent.value.version, p.intent.value.requestId, p.intent.value.supersedes, p.sourceSha)
  }

  function Requests(parsed: seq<Parsed>): seq<StableRequest> {
    if parsed == [] then []
    else
      var n := |parsed| - 1;
      Requests(parsed[..n]) + (if IsStable(parsed[n]) then [AsRequest(parsed[n])] else [])
  }

  /** One withdrawn target withdraws the request's other targets too. */
  ghost predicate LineageClosed(requests: seq<StableRequest>, withdrawn: set<string>) {
    forall r :: r in requests && Targets(r) * withdrawn != {} ==> Targets(r) <= withdrawn
  }

  /** The least superset of `from` that takes whole lineages. */
  ghost predicate IsLineageClosure(requests: seq<StableRequest>, from: set<string>, withdrawn: set<string>) {
    && from <= withdrawn
    && LineageClosed(requests, withdrawn)
    && forall other :: from <= other && LineageClosed(requests, other) ==> withdrawn <= other
  }

  method CloseLineages(requests: seq<StableRequest>, from: set<string>) returns (withdrawn: set<string>)
    ensures IsLineageClosure(requests, from, withdrawn)
  {
    withdrawn := from;
    var changed := true;
    ghost var all := AllTargets(requests, |requests|);
    while changed
      invariant from <= withdrawn
      invariant !changed ==> LineageClosed(requests, withdrawn)
      invariant forall other :: from <= other && LineageClosed(requests, other) ==> withdrawn <= other
      decreases all - withdrawn, changed
    {
      changed := false;
      ghost var start := withdrawn;
      for i := 0 to |requests|
        invariant start <= withdrawn && (changed <==> all - withdrawn < all - start)
            && (!changed ==> withdrawn == start)
        invariant !changed ==> forall k :: 0 <= k < i && Targets(requests[k]) * withdrawn != {} ==>
                                 Targets(requests[k]) <= withdrawn
        invariant forall other :: from <= other && LineageClosed(requests, other) ==> withdrawn <= other
      {
        var targets := Targets(requests[i]);
        if targets * withdrawn != {} && !(targets <= withdrawn) {
          TargetsInAll(requests, i, |requests|);
          ghost var t :| t in targets && t !in withdrawn;
          assert t in all - withdrawn;
          withdrawn := withdrawn + targets;
          changed := true;
        }
      }
    }
  }

  function AllTargets(requests: seq<StableRequest>, n: nat): set<string>
    requires n <= |requests|
  {
    if n == 0 then {} else AllTargets(requests, n - 1) + Targets(requests[n - 1])
  }

  lemma {:induction false} TargetsInAll(requests: seq<StableRequest>, i: nat, n: nat)
    requires i < n <= |requests|
    ensures Targets(requests[i]) <= AllTargets(requests, n)
  {
    if i < n - 1 {
      TargetsInAll(requests, i, n - 1);
    }
  }

  /** One sweep over the first `n` requests. */
  function Sweep(requests: seq<StableRequest>, n: nat, from: set<string>): (swept: set<string>)
    requires n <= |requests|
    ensures from <= swept <= from + AllTargets(requests, n)
  {
    if n == 0 then from
    else
      var w := Sweep(requests, n - 1, from);
      if Targets(requests[n - 1]) * w != {} then w + Targets(requests[n - 1]) else w
  }

  /** The least lineage-closed superset of `from`; see LineageIsClosure. */
  function Lineage(requests: seq<StableRequest>, from: set<string>): set<string>
    decreases AllTargets(requests, |requests|) - from
  {
    var swept := Sweep(requests, |requests|, from);
    if swept == from then from
    else
      assert exists t :: t in swept && t !in from && t in AllTargets(requests, |requests|);
      Lineage(requests, swept)
  }

  // ----- requests, oldest first -----

  datatype Scan = Scan(seen: map<string, Intent>, result: seq<StableRequest>)

  function ScanStep(p: Parsed, withdrawn: set<string>, invalid: set<string>, scan: Scan): Result<Scan, HistoryError> {
    if p.sourceSha in withdrawn then Success(scan)
    else if p.sourceSha in invalid then Failure(UnknownWithdrawalTarget(p.sourceSha))
    else if p.intent.None? then Failure(InvalidIntent(p.sourceSha))
    else
      var intent := p.intent.value;
      if intent.requestId in withdrawn then Success(scan)
      else if intent.requestId in scan.seen then
        if scan.seen[intent.requestId] != intent then Failure(RequestIdReused(intent.requestId)) else Success(scan)
      else
        Success(Scan(scan.seen[intent.requestId := intent],
                     if intent.Stable? then scan.result + [AsRequest(p)] else scan.result))
  }

  function ScanTo(parsed: seq<Parsed>, k: nat, withdrawn: set<string>, invalid: set<string>): Result<Scan, HistoryError>
    requires k <= |parsed|
  {
    if k == 0 then Success(Scan(map[], []))
    else
      var before := ScanTo(parsed, k - 1, withdrawn, invalid);
      if before.Failure? then before else ScanStep(parsed[k - 1], withdrawn, invalid, before.value)
  }

  /** Everything withdrawn in the history, whole lineages included. */
  function Withdrawn(parsed: seq<Parsed>): set<string> {
    Lineage(Requests(parsed), WithdrawnFrom(parsed, 0).targets)
  }

  function Resolve(parsed: seq<Parsed>): Result<seq<StableRequest>, HistoryError> {
    ScanResult(ScanTo(parsed, |parsed|, Withdrawn(parsed), WithdrawnFrom(parsed, 0).invalid))
  }

  function ScanResult(scan: Result<Scan, HistoryError>): Result<seq<StableRequest>, HistoryError> {
    if scan.Failure? then Failure(scan.error) else Success(scan.value.result)
  }

  /** The backward loop: a later withdrawal may withdraw an earlier one. */
  method EffectiveWithdrawals(parsed: seq<Parsed>) returns (withdrawn: set<string>, withdrawalErrors: set<string>)
    ensures Withdrawals(withdrawn, withdrawalErrors) == WithdrawnFrom(parsed, 0)
  {
    withdrawn, withdrawalErrors := {}, {};
    var index: nat := |parsed|;
    while index > 0
      invariant index <= |parsed|
      invariant Withdrawals(withdrawn, withdrawalErrors) == WithdrawnFrom(parsed, index)
    {
      index := index - 1;
      var p := parsed[index];
      if !IsWithdrawal(p) || p.sourceSha in withdrawn || p.intent.value.requestId in withdrawn {
        continue;
      }
      var known := Known(parsed, index);
      var ids := p.intent.value.withdraws;
      ghost var before, errorsBefore := withdrawn, withdrawalErrors;
      while ids != {}
        invariant ids <= p.intent.value.withdraws
        invariant withdrawn == before + (p.intent.value.withdraws - ids) * known
        invariant withdrawalErrors == if p.intent.value.withdraws - ids <= known then errorsBefore
                                      else errorsBefore + {p.sourceSha}
      {
        var id :| id in ids;
        if id !in known {
          withdrawalErrors := withdrawalErrors + {p.sourceSha};
        } else {
          withdrawn := withdrawn + {id};
        }
        ids := ids - {id};
      }
    }
  }

  /** The forward loop. */
  method PinRequests(parsed: seq<Parsed>, withdrawn: set<string>, withdrawalErrors: set<string>)
    returns (result: Result<seq<StableRequest>, HistoryError>)
    ensures result == ScanResult(ScanTo(parsed, |parsed|, withdrawn, withdrawalErrors))
  {
    var seen: map<string, Intent> := map[];
    var found: seq<StableRequest> := [];
    for k := 0 to |parsed|
      invariant ScanTo(parsed, k, withdrawn, withdrawalErrors) == Success(Scan(seen, found))
    {
      var p := parsed[k];
      if ScanTo(parsed, k + 1, withdrawn, withdrawalErrors).Failure? {
        ScanStops(parsed, k + 1, |parsed|, withdrawn, withdrawalErrors);
      }
      if p.sourceSha in withdrawn {
        continue;
      }
      if p.sourceSha in withdrawalErrors {
        return Failure(UnknownWithdrawalTarget(p.sourceSha));
      }
      if p.intent.None? {
        return Failure(InvalidIntent(p.sourceSha));
      }
      var intent := p.intent.value;
      if intent.requestId in withdrawn {
        continue;
      }
      if intent.requestId in seen {
        if seen[intent.requestId] != intent {
          return Failure(RequestIdReused(intent.requestId));
        }
        continue;
      }
      seen := seen[intent.requestId := intent];
      if intent.Stable? {
        found := found + [AsRequest(p)];
      }
    }
    return Success(found);
  }

  method ResolveStableHistory(snapshots: seq<Snapshot>) returns (result: Result<seq<StableRequest>, HistoryError>)
    ensures result == Resolve(ParseAll(snapshots))
  {
    var parsed := ParseAll(snapshots);
    var withdrawn, withdrawalErrors := EffectiveWithdrawals(parsed);
    ghost var from := withdrawn;
    withdrawn := CloseLineages(Requests(parsed), withdrawn);
    LineageIsClosure(Requests(parsed), from);
    ClosureUnique(Requests(parsed), from, withdrawn, Withdrawn(parsed));
    result := PinRequests(parsed, withdrawn, withdrawalErrors);
  }

  // ----- what the two passes compute -----

  lemma {:induction false} ScanStops(parsed: seq<Parsed>, k: nat, n: nat, withdrawn: set<string>, invalid: set<string>)
    requires k <= n <= |parsed| && ScanTo(parsed, k, withdrawn, invalid).Failure?
    ensures ScanTo(parsed, n, withdrawn, invalid) == ScanTo(parsed, k, withdrawn, invalid)
  {
    if k < n {
      ScanStops(parsed, k, n - 1, withdrawn, invalid);
    }
  }

  lemma {:induction false} SweepSkips(requests: seq<StableRequest>, n: nat, from: set<string>)
    requires n <= |requests| && Sweep(requests, n, from) == from
    ensures forall k :: 0 <= k < n && Targets(requests[k]) * from != {} ==> Targets(requests[k]) <= from
  {
    if n > 0 {
      SweepSkips(requests, n - 1, from);
    }
  }

  lemma {:induction false} SweepWithin(requests: seq<StableRequest>, n: nat, from: set<string>, other: set<string>)
    requires n <= |requests| && from <= other && LineageClosed(requests, other)
    ensures Sweep(requests, n, from) <= other
  {
    if n > 0 {
      SweepWithin(requests, n - 1, from, other);
      assert requests[n - 1] in requests;
    }
  }

  /** The loop reaches the least set that holds `from` and takes whole lineages. */
  lemma {:induction false} LineageIsClosure(requests: seq<StableRequest>, from: set<string>)
    ensures IsLineageClosure(requests, from, Lineage(requests, from))
    decreases AllTargets(requests, |requests|) - from
  {
    var swept := Sweep(requests, |requests|, from);
    forall other | from <= other && LineageClosed(requests, other) ensures swept <= other {
      SweepWithin(requests, |requests|, from, other);
    }
    if swept == from {
      SweepSkips(requests, |requests|, from);
    } else {
      assert exists t :: t in swept && t !in from && t in AllTargets(requests, |requests|);
      LineageIsClosure(requests, swept);
    }
  }

  lemma ClosureUnique(requests: seq<StableRequest>, from: set<string>, a: set<string>, b: set<string>)
    requires IsLineageClosure(requests, from, a) && IsLineageClosure(requests, from, b)
    ensures a == b
  {
    assert a <= b && b <= a;
  }
}
