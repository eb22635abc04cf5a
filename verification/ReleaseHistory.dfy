/** What any history of release intents keeps. */
module ReleaseHistory {
  import opened Wrappers
  import opened ReleaseIntent

  ghost predicate DistinctCommits(parsed: seq<Parsed>) {
    forall i, j :: 0 <= i < j < |parsed| ==> parsed[i].sourceSha != parsed[j].sourceSha
  }

  /** What parsing and Git guarantee: commits are SHAs, request IDs are UUIDs. */
  ghost predicate WellTyped(parsed: seq<Parsed>) {
    forall i :: 0 <= i < |parsed| ==> TypedSnapshot(parsed[i])
  }

  predicate TypedSnapshot(p: Parsed) {
    && IsSha(p.sourceSha)
    && (p.intent.Some? ==> IsUuid(p.intent.value.requestId))
    && (IsStable(p) && p.intent.value.supersedes.Some? ==> IsUuid(p.intent.value.supersedes.value))
  }

  lemma {:induction false} ParsedIsWellTyped(snapshots: seq<Snapshot>)
    requires forall i :: 0 <= i < |snapshots| ==> IsSha(snapshots[i].sourceSha)
    ensures WellTyped(ParseAll(snapshots))
  {
  }

  // ----- a declarative reading -----

  /** Neither the commit nor the request of this snapshot is withdrawn. */
  predicate Live(p: Parsed, withdrawn: set<string>) {
    p.sourceSha !in withdrawn && p.intent.Some? && p.intent.value.requestId !in withdrawn
  }

  predicate SameRequest(p: Parsed, q: Parsed) {
    p.intent.Some? && q.intent.Some? && p.intent.value.requestId == q.intent.value.requestId
  }

  /** The first live snapshot that carries its request ID. */
  predicate FirstLive(parsed: seq<Parsed>, i: nat, withdrawn: set<string>)
    requires i < |parsed|
  {
    Live(parsed[i], withdrawn) && forall j :: 0 <= j < i && Live(parsed[j], withdrawn) ==>
          !SameRequest(parsed[j], parsed[i])
  }

  /** The requests first made, and still live, in the first `k` snapshots. */
  function Pins(parsed: seq<Parsed>, k: nat, withdrawn: set<string>): seq<StableRequest>
    requires k <= |parsed|
  {
    if k == 0 then []
    else if IsStable(parsed[k - 1]) && FirstLive(parsed, k - 1, withdrawn)
    then Pins(parsed, k - 1, withdrawn) + [AsRequest(parsed[k - 1])]
    else Pins(parsed, k - 1, withdrawn)
  }

  /** Snapshot `i` raises no error: withdrawn, or well formed and consistent with earlier live uses of its ID. */
  predicate Acceptable(parsed: seq<Parsed>, i: nat, withdrawn: set<string>, invalid: set<string>)
    requires i < |parsed|
  {
    var p := parsed[i];
    p.sourceSha in withdrawn
    || (p.sourceSha !in invalid && p.intent.Some?
        && (p.intent.value.requestId in withdrawn
            || forall j :: 0 <= j < i && Live(parsed[j], withdrawn) && SameRequest(parsed[j], p)
                 ==> parsed[j].intent == p.intent))
  }

  ghost predicate AllAcceptable(parsed: seq<Parsed>, k: nat, withdrawn: set<string>, invalid: set<string>)
    requires k <= |parsed|
  {
    forall i :: 0 <= i < k ==> Acceptable(parsed, i, withdrawn, invalid)
  }

  /** `seen` holds exactly the intents of live snapshots before `k`. */
  ghost predicate SeenIs(parsed: seq<Parsed>, k: nat, withdrawn: set<string>, seen: map<string, Intent>)
    requires k <= |parsed|
  {
    && (forall i :: 0 <= i < k && Live(parsed[i], withdrawn) ==>
          var id := parsed[i].intent.value.requestId;
          id in seen && seen[id] == parsed[i].intent.value)
    && (forall id :: id in seen ==>
          exists i :: 0 <= i < k && Live(parsed[i], withdrawn) && parsed[i].intent == Some(seen[id]) &&
                      parsed[i].intent.value.requestId == id)
  }

  lemma {:induction false} ScanMeaning(parsed: seq<Parsed>, k: nat, withdrawn: set<string>, invalid: set<string>)
    requires k <= |parsed|
    ensures var scan := ScanTo(parsed, k, withdrawn, invalid);
            && (scan.Success? <==> AllAcceptable(parsed, k, withdrawn, invalid))
            && (scan.Success? ==> scan.value.result == Pins(parsed, k, withdrawn)
                                  && SeenIs(parsed, k, withdrawn, scan.value.seen))
  {
    if k > 0 {
      ScanMeaning(parsed, k - 1, withdrawn, invalid);
      var before := ScanTo(parsed, k - 1, withdrawn, invalid);
      if before.Success? {
        StepMeaning(parsed, k - 1, withdrawn, invalid, before.value);
      }
    }
  }

  lemma StepMeaning(parsed: seq<Parsed>, k: nat, withdrawn: set<string>, invalid: set<string>, scan: Scan)
    requires k < |parsed| && SeenIs(parsed, k, withdrawn, scan.seen)
    ensures var next := ScanStep(parsed[k], withdrawn, invalid, scan);
            && (next.Success? <==> Acceptable(parsed, k, withdrawn, invalid))
            && (next.Success? ==>
                  && next.value.result == (if IsStable(parsed[k]) && FirstLive(parsed, k, withdrawn)
                                           then scan.result + [AsRequest(parsed[k])] else scan.result)
                  && SeenIs(parsed, k + 1, withdrawn, next.value.seen))
  {
    var p := parsed[k];
    if Live(p, withdrawn) && p.intent.value.requestId in scan.seen {
      var i :| 0 <= i < k && Live(parsed[i], withdrawn)
          && parsed[i].intent == Some(scan.seen[p.intent.value.requestId]);
      assert SameRequest(parsed[i], p);
    }
  }

  /** The outcome in full: when it succeeds, and with which requests in which order. */
  lemma {:induction false} ResolveMeaning(parsed: seq<Parsed>)
    ensures var withdrawn, invalid := Withdrawn(parsed), WithdrawnFrom(parsed, 0).invalid;
            && (Resolve(parsed).Success? <==> AllAcceptable(parsed, |parsed|, withdrawn, invalid))
            && (Resolve(parsed).Success? ==> Resolve(parsed).value == Pins(parsed, |parsed|, withdrawn))
  {
    ScanMeaning(parsed, |parsed|, Withdrawn(parsed), WithdrawnFrom(parsed, 0).invalid);
  }

  lemma {:induction false} PinOrigin(parsed: seq<Parsed>, k: nat, withdrawn: set<string>, r: StableRequest)
    returns (i: nat)
    requires k <= |parsed| && r in Pins(parsed, k, withdrawn)
    ensures i < k && IsStable(parsed[i]) && FirstLive(parsed, i, withdrawn) && r == AsRequest(parsed[i])
  {
    i := k - 1;
    if !(IsStable(parsed[i]) && FirstLive(parsed, i, withdrawn) && r == AsRequest(parsed[i])) {
      i := PinOrigin(parsed, k - 1, withdrawn, r);
    }
  }

  lemma {:induction false} RequestListed(parsed: seq<Parsed>, i: nat)
    requires i < |parsed| && IsStable(parsed[i])
    ensures AsRequest(parsed[i]) in Requests(parsed)
  {
    if i < |parsed| - 1 {
      RequestListed(parsed[..|parsed| - 1], i);
    }
  }

  /** Nothing withdrawn is returned, by commit, by request ID or through the request it supersedes. */
  lemma ReturnedIsUntouched(parsed: seq<Parsed>, r: StableRequest)
    requires Resolve(parsed).Success? && r in Resolve(parsed).value
    ensures Targets(r) !! Withdrawn(parsed)
  {
    ResolveMeaning(parsed);
    var i := PinOrigin(parsed, |parsed|, Withdrawn(parsed), r);
    RequestListed(parsed, i);
    LineageIsClosure(Requests(parsed), WithdrawnFrom(parsed, 0).targets);
  }

  /** A returned request is pinned to the first commit, of the whole history, whose stable intent carries its ID. */
  lemma PinnedToFirstIntent(parsed: seq<Parsed>, r: StableRequest) returns (i: nat)
    requires Resolve(parsed).Success? && r in Resolve(parsed).value
    ensures i < |parsed| && IsStable(parsed[i]) && r == AsRequest(parsed[i])
    ensures forall j :: 0 <= j < i && IsStable(parsed[j]) ==> parsed[j].intent.value.requestId != r.requestId
    ensures forall j :: 0 <= j < i && SameRequest(parsed[j], parsed[i]) ==>
              IsWithdrawal(parsed[j]) && parsed[j].sourceSha in Withdrawn(parsed)
  {
    var w := Withdrawn(parsed);
    ResolveMeaning(parsed);
    ReturnedIsUntouched(parsed, r);
    i := PinOrigin(parsed, |parsed|, w, r);
    LineageIsClosure(Requests(parsed), WithdrawnFrom(parsed, 0).targets);
    forall j | 0 <= j < i && IsStable(parsed[j]) ensures parsed[j].intent.value.requestId != r.requestId {
      RequestListed(parsed, j);
      if parsed[j].intent.value.requestId == r.requestId {
        assert parsed[j].sourceSha in Targets(AsRequest(parsed[j]));
        assert Live(parsed[j], w);
        assert SameRequest(parsed[j], parsed[i]);
      }
    }
  }

  /** The first snapshot of any kind that carries `id`. */
  predicate FirstCarrier(parsed: seq<Parsed>, i: nat, id: string)
    requires i < |parsed|
  {
    && parsed[i].intent.Some? && parsed[i].intent.value.requestId == id
    && forall j :: 0 <= j < i && parsed[j].intent.Some? ==> parsed[j].intent.value.requestId != id
  }

  lemma {:induction false} SomeFirstCarrier(parsed: seq<Parsed>, k: nat) returns (i: nat)
    requires k < |parsed| && parsed[k].intent.Some?
    ensures i <= k && FirstCarrier(parsed, i, parsed[k].intent.value.requestId)
  {
    i := k;
    if j :| 0 <= j < k && SameRequest(parsed[j], parsed[k]) {
      i := SomeFirstCarrier(parsed, j);
    }
  }

  /** Some snapshot is the first to carry the ID, and the pin is that snapshot exactly when it is a stable intent. */
  lemma PinnedToFirstCarrierIff(parsed: seq<Parsed>, r: StableRequest)
    requires DistinctCommits(parsed)
    requires Resolve(parsed).Success? && r in Resolve(parsed).value
    ensures exists i :: 0 <= i < |parsed| && FirstCarrier(parsed, i, r.requestId)
    ensures forall i :: 0 <= i < |parsed| && FirstCarrier(parsed, i, r.requestId) ==>
              (r.sourceSha == parsed[i].sourceSha <==> IsStable(parsed[i]))
  {
    var pin := PinnedToFirstIntent(parsed, r);
    var first := SomeFirstCarrier(parsed, pin);
    forall i | 0 <= i < |parsed| && FirstCarrier(parsed, i, r.requestId)
      ensures r.sourceSha == parsed[i].sourceSha <==> IsStable(parsed[i])
    {
      assert i <= pin && (IsStable(parsed[i]) ==> i == pin);
    }
  }

  // ----- appending a stable intent -----

  lemma {:induction false} KnownOfPrefix(parsed: seq<Parsed>, p: Parsed, n: nat)
    requires n <= |parsed|
    ensures Known(parsed + [p], n) == Known(parsed, n)
  {
    if n > 0 {
      KnownOfPrefix(parsed, p, n - 1);
    }
  }

  lemma {:induction false} StableWithdrawsNothing(parsed: seq<Parsed>, p: Parsed, k: nat)
    requires k <= |parsed| && !IsWithdrawal(p)
    ensures WithdrawnFrom(parsed + [p], k) == WithdrawnFrom(parsed, k)
    decreases |parsed| - k
  {
    var more := parsed + [p];
    if k == |parsed| {
      assert WithdrawnFrom(more, k + 1) == Withdrawals({}, {});
    } else {
      StableWithdrawsNothing(parsed, p, k + 1);
      KnownOfPrefix(parsed, p, k);
    }
  }

  lemma {:induction false} AppendedRequests(parsed: seq<Parsed>, p: Parsed)
    requires IsStable(p)
    ensures Requests(parsed + [p]) == Requests(parsed) + [AsRequest(p)]
  {
    assert (parsed + [p])[..|parsed|] == parsed;
  }

  /** A stable intent never revives a withdrawn ID or commit. */
  lemma {:induction false} StableOnlyGrowsWithdrawn(parsed: seq<Parsed>, more: seq<Parsed>)
    requires forall p :: p in more ==> IsStable(p)
    ensures Withdrawn(parsed) <= Withdrawn(parsed + more)
    decreases |more|
  {
    if more == [] {
      assert parsed + more == parsed;
    } else {
      var p, rest := more[0], more[1..];
      assert parsed + more == (parsed + [p]) + rest;
      assert p in more;
      StableWithdrawsNothing(parsed, p, 0);
      AppendedRequests(parsed, p);
      var from := WithdrawnFrom(parsed, 0).targets;
      LineageIsClosure(Requests(parsed), from);
      LineageIsClosure(Requests(parsed + [p]), from);
      assert LineageClosed(Requests(parsed), Withdrawn(parsed + [p]));
      StableOnlyGrowsWithdrawn(parsed + [p], rest);
    }
  }

  /** No later stable intent brings a withdrawn pin back. */
  lemma WithdrawnPinNeverRevives(parsed: seq<Parsed>, more: seq<Parsed>, r: StableRequest)
    requires forall p :: p in more ==> IsStable(p)
    requires Resolve(parsed + more).Success? && r in Resolve(parsed + more).value
    ensures Targets(r) !! Withdrawn(parsed)
  {
    StableOnlyGrowsWithdrawn(parsed, more);
    ReturnedIsUntouched(parsed + more, r);
  }

  lemma {:induction false} KnownIsTyped(parsed: seq<Parsed>, n: nat, sha: string)
    requires n <= |parsed| && WellTyped(parsed) && IsSha(sha)
    requires forall i :: 0 <= i < n ==> parsed[i].sourceSha != sha
    ensures sha !in Known(parsed, n)
  {
    if n > 0 {
      KnownIsTyped(parsed, n - 1, sha);
      assert TypedSnapshot(parsed[n - 1]);
    }
  }

  ghost predicate FreshCommit(parsed: seq<Parsed>, sha: string) {
    IsSha(sha) && forall i :: 0 <= i < |parsed| ==> parsed[i].sourceSha != sha
  }

  lemma {:induction false} FreshNotEffective(parsed: seq<Parsed>, k: nat, sha: string)
    requires k <= |parsed| && WellTyped(parsed) && FreshCommit(parsed, sha)
    ensures sha !in WithdrawnFrom(parsed, k).targets
    ensures sha !in WithdrawnFrom(parsed, k).invalid
    decreases |parsed| - k
  {
    if k < |parsed| {
      FreshNotEffective(parsed, k + 1, sha);
      KnownIsTyped(parsed, k, sha);
    }
  }

  lemma {:induction false} FreshNotTarget(parsed: seq<Parsed>, sha: string)
    requires WellTyped(parsed) && FreshCommit(parsed, sha)
    ensures forall r :: r in Requests(parsed) ==> sha !in Targets(r)
  {
    if parsed != [] {
      FreshNotTarget(parsed[..|parsed| - 1], sha);
      assert TypedSnapshot(parsed[|parsed| - 1]);
    }
  }

  /** A fresh commit is not withdrawn: removing it leaves the closure closed. */
  lemma FreshNotWithdrawn(parsed: seq<Parsed>, sha: string)
    requires WellTyped(parsed) && FreshCommit(parsed, sha)
    ensures sha !in Withdrawn(parsed)
  {
    var requests, from, w := Requests(parsed), WithdrawnFrom(parsed, 0).targets, Withdrawn(parsed);
    LineageIsClosure(requests, from);
    FreshNotEffective(parsed, 0, sha);
    FreshNotTarget(parsed, sha);
    assert LineageClosed(requests, w - {sha}) by {
      forall r | r in requests && Targets(r) * (w - {sha}) != {} ensures Targets(r) <= w - {sha} {
        assert Targets(r) * w != {};
      }
    }
  }

  /** A copy of `earlier` at a fresh commit joins the closure only when `earlier` is in it. */
  lemma CopyStaysClosed(requests: seq<StableRequest>, earlier: StableRequest, sha: string, w: set<string>)
    returns (wider: set<string>)
    requires earlier in requests && LineageClosed(requests, w)
    requires sha !in w && forall r :: r in requests ==> sha !in Targets(r)
    ensures w <= wider <= w + {sha} && LineageClosed(requests + [earlier.(sourceSha := sha)], wider)
  {
    wider := if Targets(earlier) * w == {} then w else w + {sha};
    forall r | r in requests + [earlier.(sourceSha := sha)] && Targets(r) * wider != {} ensures Targets(r) <= wider {
      if r in requests {
        var t :| t in Targets(r) * wider;
        assert t in Targets(r) * w;
      } else {
        assert Targets(r) <= Targets(earlier) + {sha};
        assert Targets(r) * w <= Targets(earlier) * w;
      }
    }
  }

  /** Repeating an earlier request withdraws at most the commit that repeats it. */
  lemma RepeatWithdraws(parsed: seq<Parsed>, again: nat, sha: string)
    requires again < |parsed| && IsStable(parsed[again])
    requires WellTyped(parsed) && FreshCommit(parsed, sha)
    ensures Withdrawn(parsed) <= Withdrawn(parsed + [Parsed(sha, parsed[again].intent)]) <= Withdrawn(parsed) + {sha}
  {
    var p := Parsed(sha, parsed[again].intent);
    var from := WithdrawnFrom(parsed, 0).targets;
    StableOnlyGrowsWithdrawn(parsed, [p]);
    StableWithdrawsNothing(parsed, p, 0);
    AppendedRequests(parsed, p);
    LineageIsClosure(Requests(parsed), from);
    LineageIsClosure(Requests(parsed + [p]), from);
    RequestListed(parsed, again);
    FreshNotTarget(parsed, sha);
    FreshNotWithdrawn(parsed, sha);
    var wider := CopyStaysClosed(Requests(parsed), AsRequest(parsed[again]), sha, Withdrawn(parsed));
    assert AsRequest(parsed[again]).(sourceSha := sha) == AsRequest(p);
  }

  lemma {:induction false} SameScan(parsed: seq<Parsed>, p: Parsed, k: nat, withdrawn: set<string>, wider: set<string>,
                                    invalid: set<string>)
    requires k <= |parsed| && WellTyped(parsed) && FreshCommit(parsed, p.sourceSha)
    requires withdrawn <= wider <= withdrawn + {p.sourceSha}
    ensures ScanTo(parsed + [p], k, wider, invalid) == ScanTo(parsed, k, withdrawn, invalid)
  {
    if k > 0 {
      SameScan(parsed, p, k - 1, withdrawn, wider, invalid);
      assert TypedSnapshot(parsed[k - 1]);
    }
  }

  /** Reverts never repin: repeating an earlier stable intent in a new commit changes nothing. */
  lemma RevertNeverRepins(parsed: seq<Parsed>, again: nat, sha: string)
    requires WellTyped(parsed) && FreshCommit(parsed, sha)
    requires again < |parsed| && IsStable(parsed[again])
    ensures Resolve(parsed + [Parsed(sha, parsed[again].intent)]) == Resolve(parsed)
  {
    var p := Parsed(sha, parsed[again].intent);
    var n, w, wider := |parsed|, Withdrawn(parsed), Withdrawn(parsed + [p]);
    var invalid := WithdrawnFrom(parsed, 0).invalid;
    StableWithdrawsNothing(parsed, p, 0);
    RepeatWithdraws(parsed, again, sha);
    FreshNotEffective(parsed, 0, sha);
    SameScan(parsed, p, n, w, wider, invalid);
    ScanMeaning(parsed, n, w, invalid);
    var scan := ScanTo(parsed, n, w, invalid);
    if scan.Success? {
      assert ScanStep(p, wider, invalid, scan.value) == scan by {
        if sha !in wider && p.intent.value.requestId !in wider {
          RequestListed(parsed, again);
          LineageIsClosure(Requests(parsed), WithdrawnFrom(parsed, 0).targets);
          var earlier := AsRequest(parsed[again]);
          assert Targets(earlier) * w != {} ==> Targets(earlier) <= w;
          assert parsed[again].sourceSha in Targets(earlier) && p.intent.value.requestId in Targets(earlier);
          assert Live(parsed[again], w);
        }
      }
    }
  }

  lemma {:induction false} RevertedTextNeverRepins(snapshots: seq<Snapshot>, again: nat, sha: string)
    requires forall i :: 0 <= i < |snapshots| ==> IsSha(snapshots[i].sourceSha) && snapshots[i].sourceSha != sha
    requires IsSha(sha) && again < |snapshots| && IsStable(ParseSnapshot(snapshots[again]))
    ensures Resolve(ParseAll(snapshots + [Snapshot(sha, snapshots[again].text)])) == Resolve(ParseAll(snapshots))
  {
    var revert := Snapshot(sha, snapshots[again].text);
    assert (snapshots + [revert])[..|snapshots|] == snapshots;
    ParsedIsWellTyped(snapshots);
    RevertNeverRepins(ParseAll(snapshots), again, sha);
  }

  // ----- an ID first used by a withdrawal -----

  /** Here the pin is not the first snapshot carrying the ID: `c0` carried it in a withdrawal that `c1` withdrew. */
  lemma PinAfterWithdrawnCarrier(c0: string, c1: string, c2: string, id: string, other: string, version: string)
    requires c0 != c1 && c0 != c2 && c1 != c2 && id != other
    requires {id, other} !! {c0, c1, c2}
    ensures var parsed := [Parsed(c0, Some(Withdrawal(id, {other}, "mistake"))),
                           Parsed(c1, Some(Withdrawal(other, {c0}, "repair"))),
                           Parsed(c2, Some(Stable(version, id, None)))];
            && Resolve(parsed) == Success([StableRequest(version, id, None, c2)])
            && FirstCarrier(parsed, 0, id) && parsed[0].sourceSha != c2
  {
    var p0, p1, p2 := Parsed(c0, Some(Withdrawal(id, {other}, "mistake"))),
                      Parsed(c1, Some(Withdrawal(other, {c0}, "repair"))), Parsed(c2, Some(Stable(version, id, None)));
    var parsed := [p0, p1, p2];
    assert Known(parsed, 0) == {} && Known(parsed, 1) == {c0, id};
    assert WithdrawnFrom(parsed, 2) == WithdrawnFrom(parsed, 3) == Withdrawals({}, {});
    assert WithdrawnFrom(parsed, 1) == Withdrawals({c0}, {});
    assert WithdrawnFrom(parsed, 0) == Withdrawals({c0}, {});
    var r := StableRequest(version, id, None, c2);
    assert parsed[..2] == [p0, p1] && [p0, p1][..1] == [p0] && [p0][..0] == [];
    assert Requests([]) == [] && Requests([p0]) == [] && Requests([p0, p1]) == [] && Requests(parsed) == [r];
    assert Sweep([r], 0, {c0}) == {c0} && Sweep([r], 1, {c0}) == {c0};
    assert Withdrawn(parsed) == {c0};
    assert ScanTo(parsed, 1, {c0}, {}) == Success(Scan(map[], []));
    assert ScanTo(parsed, 2, {c0}, {}) == Success(Scan(map[other := p1.intent.value], []));
  }
}
