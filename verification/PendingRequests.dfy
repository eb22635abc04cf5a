/** Which stable request still waits for publication. */
module PendingRequests {
  import opened Wrappers
  import opened ReleaseIntent

  datatype PendingError = InvalidRequest | RequestIdReused | NotARecovery | DifferentSource | AnotherPending

  predicate ValidRequest(r: StableRequest) {
    IsStableIntent(r.version, r.requestId, r.supersedes)
  }

  /** IDs that some request supersedes. */
  function Superseded(requests: seq<StableRequest>): set<string> {
    set r | r in requests && r.supersedes.Some? :: r.supersedes.value
  }

  /** A published version's commit; the script reads an empty string as unpublished. */
  predicate PublishedAt(published: map<string, string>, version: string, sourceSha: string) {
    version in published && published[version] != "" && published[version] == sourceSha
  }

  datatype State = State(pending: map<string, StableRequest>, seen: set<string>)

  function Step(r: StableRequest, superseded: set<string>, published: map<string, string>,
                state: State): Result<State, PendingError> {
    if !ValidRequest(r) then Failure(InvalidRequest)
    else if r.requestId in state.seen then Failure(PendingError.RequestIdReused)
    else if r.supersedes.Some? &&
            (r.supersedes.value !in state.pending || state.pending[r.supersedes.value].version != r.version)
    then Failure(NotARecovery)
    else
      var seen := state.seen + {r.requestId};
      var pending := if r.supersedes.Some? then state.pending - {r.supersedes.value} else state.pending;
      if r.requestId !in superseded && r.version in published && published[r.version] != "" then
        if published[r.version] != r.sourceSha then Failure(DifferentSource) else Success(State(pending, seen))
      else if pending != map[] then Failure(AnotherPending)
      else Success(State(map[r.requestId := r], seen))
  }

  function StateAfter(requests: seq<StableRequest>, k: nat, published: map<string, string>): Result<State, PendingError>
    requires k <= |requests|
  {
    if k == 0 then Success(State(map[], {}))
    else
      var before := StateAfter(requests, k - 1, published);
      if before.Failure? then before else Step(requests[k - 1], Superseded(requests), published, before.value)
  }

  predicate AtMostOne(pending: map<string, StableRequest>) {
    forall a, b :: a in pending && b in pending ==> a == b
  }

  /** The values of a map with at most one key. */
  function Only(pending: map<string, StableRequest>): seq<StableRequest>
    requires AtMostOne(pending)
  {
    if pending == map[] then [] else
      var id :| id in pending;
      [pending[id]]
  }

  lemma {:induction false} OnePending(requests: seq<StableRequest>, k: nat, published: map<string, string>)
    requires k <= |requests| && StateAfter(requests, k, published).Success?
    ensures AtMostOne(StateAfter(requests, k, published).value.pending)
  {
    if k > 0 {
      OnePending(requests, k - 1, published);
    }
  }

  function Pending(requests: seq<StableRequest>, published: map<string, string>): Result<seq<StableRequest>,
                   PendingError> {
    var state := StateAfter(requests, |requests|, published);
    if state.Failure? then Failure(state.error)
    else
      OnePending(requests, |requests|, published);
      Success(Only(state.value.pending))
  }

  method PendingStableRequests(requests: seq<StableRequest>, published: map<string, string>)
    returns (result: Result<seq<StableRequest>, PendingError>)
    ensures result == Pending(requests, published)
  {
    var pending: map<string, StableRequest> := map[];
    var seen: set<string> := {};
    var superseded := Superseded(requests);
    for k := 0 to |requests|
      invariant StateAfter(requests, k, published) == Success(State(pending, seen))
    {
      var r := requests[k];
      if StateAfter(requests, k + 1, published).Failure? {
        FailureStays(requests, k + 1, |requests|, published);
      }
      if !ValidRequest(r) {
        return Failure(InvalidRequest);
      }
      if r.requestId in seen {
        return Failure(PendingError.RequestIdReused);
      }
      seen := seen + {r.requestId};
      if r.supersedes.Some? {
        if r.supersedes.value !in pending || r.version != pending[r.supersedes.value].version {
          return Failure(NotARecovery);
        }
        pending := pending - {r.supersedes.value};
      }
      if r.requestId !in superseded && r.version in published && published[r.version] != "" {
        if published[r.version] != r.sourceSha {
          return Failure(DifferentSource);
        }
        continue;
      }
      if pending != map[] {
        return Failure(AnotherPending);
      }
      pending := pending[r.requestId := r];
    }
    OnePending(requests, |requests|, published);
    return Success(Only(pending));
  }

  lemma {:induction false} FailureStays(requests: seq<StableRequest>, k: nat, n: nat, published: map<string, string>)
    requires k <= n <= |requests| && StateAfter(requests, k, published).Failure?
    ensures StateAfter(requests, n, published) == StateAfter(requests, k, published)
  {
    if k < n {
      FailureStays(requests, k, n - 1, published);
    }
  }

  // ----- when it succeeds -----

  /** The IDs of the first `k` requests. */
  function Ids(requests: seq<StableRequest>, k: nat): set<string>
    requires k <= |requests|
  {
    if k == 0 then {} else Ids(requests, k - 1) + {requests[k - 1].requestId}
  }

  /** What the first `k` requests supersede. */
  function Recovered(requests: seq<StableRequest>, k: nat): set<string>
    requires k <= |requests|
  {
    if k == 0 then {}
    else
      var r := requests[k - 1];
      Recovered(requests, k - 1) + if r.supersedes.Some? then {r.supersedes.value} else {}
  }

  /** Superseded at some point, or not yet published: the request has to wait. */
  predicate Waits(requests: seq<StableRequest>, i: nat, published: map<string, string>)
    requires i < |requests|
  {
    var r := requests[i];
    r.requestId in Superseded(requests) || r.version !in published || published[r.version] == ""
  }

  function WaitingIds(requests: seq<StableRequest>, k: nat, published: map<string, string>): set<string>
    requires k <= |requests|
  {
    if k == 0 then {}
    else
      WaitingIds(requests, k - 1, published)
      + if Waits(requests, k - 1, published) then {requests[k - 1].requestId} else {}
  }

  /** A recovery names a request that waits, of the same version, and that no earlier request has recovered. */
  predicate RecoversEarlier(requests: seq<StableRequest>, k: nat, published: map<string, string>)
    requires k < |requests|
  {
    var r := requests[k];
    r.supersedes.Some? ==>
      && r.supersedes.value in WaitingIds(requests, k, published) - Recovered(requests, k)
      && forall i :: 0 <= i < k && requests[i].requestId == r.supersedes.value ==> requests[i].version == r.version
  }

  /** What request `k` must satisfy, in terms of the earlier requests only. */
  predicate InOrder(requests: seq<StableRequest>, k: nat, published: map<string, string>)
    requires k < |requests|
  {
    var r := requests[k];
    && ValidRequest(r)
    && r.requestId !in Ids(requests, k)
    && RecoversEarlier(requests, k, published)
    && (if Waits(requests, k, published) then WaitingIds(requests, k, published) <= Recovered(requests, k + 1)
        else published[r.version] == r.sourceSha)
  }

  predicate AllInOrder(requests: seq<StableRequest>, k: nat, published: map<string, string>)
    requires k <= |requests|
  {
    forall i :: 0 <= i < k ==> InOrder(requests, i, published)
  }

  /** The pending map holds the waiting requests that are not yet recovered. */
  ghost predicate StateIs(requests: seq<StableRequest>, k: nat, published: map<string, string>, state: State)
    requires k <= |requests|
  {
    && state.seen == Ids(requests, k)
    && state.pending.Keys == WaitingIds(requests, k, published) - Recovered(requests, k)
    && Recovered(requests, k) <= Ids(requests, k)
    && forall i :: 0 <= i < k && requests[i].requestId in state.pending ==>
         state.pending[requests[i].requestId] == requests[i]
  }

  lemma {:induction false} IdsComeFrom(requests: seq<StableRequest>, k: nat, published: map<string, string>)
    requires k <= |requests|
    ensures WaitingIds(requests, k, published) <= Ids(requests, k)
    ensures forall i :: 0 <= i < k ==> requests[i].requestId in Ids(requests, k)
    ensures forall id :: id in Ids(requests, k) ==> exists i :: 0 <= i < k && requests[i].requestId == id
  {
    if k > 0 {
      IdsComeFrom(requests, k - 1, published);
    }
  }

  lemma RecoveryIsChecked(requests: seq<StableRequest>, k: nat, published: map<string, string>, state: State)
    requires k < |requests| && StateIs(requests, k, published, state)
    ensures var r := requests[k];
            RecoversEarlier(requests, k, published)
            <==> (r.supersedes.Some? ==>
                    r.supersedes.value in state.pending && state.pending[r.supersedes.value].version == r.version)
  {
    IdsComeFrom(requests, k, published);
    var r := requests[k];
    if r.supersedes.Some? && r.supersedes.value in state.pending {
      var i :| 0 <= i < k && requests[i].requestId == r.supersedes.value;
    }
  }

  /** The pending requests without the one that `r` recovers. */
  function Left(r: StableRequest, pending: map<string, StableRequest>): map<string, StableRequest> {
    if r.supersedes.Some? then pending - {r.supersedes.value} else pending
  }

  lemma {:induction false} LeftWait(requests: seq<StableRequest>, k: nat, published: map<string, string>, state: State)
    requires k < |requests| && StateIs(requests, k, published, state)
    ensures Left(requests[k], state.pending).Keys == WaitingIds(requests, k, published) - Recovered(requests, k + 1)
    ensures Left(requests[k], state.pending) == map[]
            <==> WaitingIds(requests, k, published) <= Recovered(requests, k + 1)
  {
    var left := Left(requests[k], state.pending);
    assert left.Keys == WaitingIds(requests, k, published) - Recovered(requests, k + 1);
    assert left == map[] <==> left.Keys == {};
  }

  /** The state after a request that does not wait, or that does while nothing else is left. */
  lemma NextStateIs(requests: seq<StableRequest>, k: nat, published: map<string, string>, state: State)
    requires k < |requests| && StateIs(requests, k, published, state)
    requires requests[k].requestId !in state.seen && RecoversEarlier(requests, k, published)
    ensures var r, left := requests[k], Left(requests[k], state.pending);
            var seen := state.seen + {r.requestId};
            && (!Waits(requests, k, published) ==> StateIs(requests, k + 1, published, State(left, seen)))
            && (Waits(requests, k, published) && left == map[] ==>
                  StateIs(requests, k + 1, published, State(map[r.requestId := r], seen)))
  {
    IdsComeFrom(requests, k, published);
    LeftWait(requests, k, published, state);
    assert requests[k].requestId !in Ids(requests, k);
  }

  /** The outcome succeeds exactly when `ok`, with what waits. */
  ghost predicate Means(outcome: Result<State, PendingError>, requests: seq<StableRequest>, k: nat,
                        published: map<string, string>, ok: bool)
    requires k <= |requests|
  {
    (outcome.Success? <==> ok) && (outcome.Success? ==> StateIs(requests, k, published, outcome.value))
  }

  lemma StepMeaning(requests: seq<StableRequest>, k: nat, published: map<string, string>, state: State)
    requires k < |requests| && StateIs(requests, k, published, state)
    ensures Means(Step(requests[k], Superseded(requests), published, state), requests, k + 1, published,
                  InOrder(requests, k, published))
  {
    RecoveryIsChecked(requests, k, published, state);
    LeftWait(requests, k, published, state);
    if requests[k].requestId !in state.seen && RecoversEarlier(requests, k, published) {
      NextStateIs(requests, k, published, state);
    }
  }

  lemma OneMoreInOrder(requests: seq<StableRequest>, k: nat, published: map<string, string>)
    requires k < |requests|
    ensures AllInOrder(requests, k + 1, published) <==>
              AllInOrder(requests, k, published) && InOrder(requests, k, published)
  {
  }

  lemma {:induction false} StateMeaning(requests: seq<StableRequest>, k: nat, published: map<string, string>)
    requires k <= |requests|
    ensures Means(StateAfter(requests, k, published), requests, k, published, AllInOrder(requests, k, published))
  {
    if k > 0 {
      StateMeaning(requests, k - 1, published);
      OneMoreInOrder(requests, k - 1, published);
      var before := StateAfter(requests, k - 1, published);
      if before.Success? {
        StepMeaning(requests, k - 1, published, before.value);
      }
    }
  }

  // ----- every request is accounted for -----

  predicate Supersedes(requests: seq<StableRequest>, j: nat, i: nat)
    requires i < |requests| && j < |requests|
  {
    requests[j].supersedes == Some(requests[i].requestId)
  }

  /** Exactly one request supersedes `i`, and it comes later and asks for the same version. */
  ghost predicate SupersededOnce(requests: seq<StableRequest>, i: nat)
    requires i < |requests|
  {
    exists j :: i < j < |requests| && Supersedes(requests, j, i) && requests[j].version == requests[i].version
                && forall k :: 0 <= k < |requests| && Supersedes(requests, k, i) ==> k == j
  }

  predicate PublishedUnsuperseded(requests: seq<StableRequest>, i: nat, published: map<string, string>)
    requires i < |requests|
  {
    requests[i].requestId !in Superseded(requests) && PublishedAt(published, requests[i].version, requests[i].sourceSha)
  }

  predicate StillPending(requests: seq<StableRequest>, i: nat, published: map<string, string>)
    requires i < |requests|
  {
    Pending(requests, published) == Success([requests[i]])
  }

  lemma IdsOnce(requests: seq<StableRequest>, i: nat, j: nat, published: map<string, string>)
    requires i < j < |requests| && AllInOrder(requests, |requests|, published)
    ensures requests[i].requestId != requests[j].requestId
  {
    IdsComeFrom(requests, j, published);
    assert InOrder(requests, j, published);
  }

  lemma {:induction false} RecoveredComesFrom(requests: seq<StableRequest>, k: nat)
    requires k <= |requests|
    ensures forall j :: 0 <= j < k && requests[j].supersedes.Some? ==>
              requests[j].supersedes.value in Recovered(requests, k)
    ensures forall id :: id in Recovered(requests, k) ==> exists j :: 0 <= j < k && requests[j].supersedes == Some(id)
    ensures Recovered(requests, k) <= Superseded(requests)
  {
    if k > 0 {
      RecoveredComesFrom(requests, k - 1);
      assert requests[k - 1] in requests;
    }
  }

  lemma RecoveryMatches(requests: seq<StableRequest>, i: nat, j: nat, published: map<string, string>)
    requires i < |requests| && j < |requests| && AllInOrder(requests, |requests|, published)
        && Supersedes(requests, j, i)
    ensures i < j && requests[j].version == requests[i].version
  {
    assert InOrder(requests, j, published);
    IdsComeFrom(requests, j, published);
    var k :| 0 <= k < j && requests[k].requestId == requests[i].requestId;
    if i != k {
      IdsOnce(requests, if i < k then i else k, if i < k then k else i, published);
    }
  }

  lemma RecoveriesDiffer(requests: seq<StableRequest>, j: nat, k: nat, published: map<string, string>)
    requires j < k < |requests| && AllInOrder(requests, |requests|, published) && requests[j].supersedes.Some?
    ensures requests[k].supersedes != requests[j].supersedes
  {
    RecoveredComesFrom(requests, k);
    assert InOrder(requests, k, published);
  }

  lemma {:induction false} SupersededIsOnce(requests: seq<StableRequest>, i: nat, published: map<string, string>)
    requires i < |requests| && AllInOrder(requests, |requests|, published)
    requires requests[i].requestId in Superseded(requests)
    ensures SupersededOnce(requests, i)
    ensures requests[i].requestId in Recovered(requests, |requests|)
  {
    var r :| r in requests && r.supersedes == Some(requests[i].requestId);
    var j :| 0 <= j < |requests| && requests[j] == r;
    RecoveryMatches(requests, i, j, published);
    forall k | 0 <= k < |requests| && Supersedes(requests, k, i) ensures k == j {
      if j < k {
        RecoveriesDiffer(requests, j, k, published);
      } else if k < j {
        RecoveriesDiffer(requests, k, j, published);
      }
    }
    RecoveredComesFrom(requests, |requests|);
  }

  /**
   * On success every request is superseded once, published at its own commit, or the single pending one; never two of
   * these.
   */
  lemma EveryRequestSettled(requests: seq<StableRequest>, i: nat, published: map<string, string>)
    requires Pending(requests, published).Success? && i < |requests|
    ensures SupersededOnce(requests, i) || PublishedUnsuperseded(requests, i, published)
        || StillPending(requests, i, published)
    ensures !(SupersededOnce(requests, i) && PublishedUnsuperseded(requests, i, published))
    ensures !(SupersededOnce(requests, i) && StillPending(requests, i, published))
    ensures !(PublishedUnsuperseded(requests, i, published) && StillPending(requests, i, published))
  {
    var n, r := |requests|, requests[i];
    StateMeaning(requests, n, published);
    var state := StateAfter(requests, n, published).value;
    OnePending(requests, n, published);
    RecoveredComesFrom(requests, n);
    if SupersededOnce(requests, i) {
      var j :| i < j < n && Supersedes(requests, j, i);
      assert requests[j] in requests;
      assert r.requestId in Superseded(requests);
    }
    WaitingIff(requests, i, n, published);
    if r.requestId in Superseded(requests) {
      SupersededIsOnce(requests, i, published);
    } else {
      assert InOrder(requests, i, published);
    }
    PendingIff(requests, i, published, state);
  }

  lemma PendingIff(requests: seq<StableRequest>, i: nat, published: map<string, string>, state: State)
    requires i < |requests| && StateIs(requests, |requests|, published, state) && AtMostOne(state.pending)
    ensures Only(state.pending) == [requests[i]] <==> requests[i].requestId in state.pending
  {
    if state.pending != map[] {
      var id :| id in state.pending && Only(state.pending) == [state.pending[id]];
      IdsComeFrom(requests, |requests|, published);
      var k :| 0 <= k < |requests| && requests[k].requestId == id;
      assert state.pending[id] == requests[k];
    }
  }

  lemma {:induction false} WaitingIff(requests: seq<StableRequest>, i: nat, k: nat, published: map<string, string>)
    requires i < k <= |requests| && AllInOrder(requests, |requests|, published)
    ensures requests[i].requestId in WaitingIds(requests, k, published) <==> Waits(requests, i, published)
  {
    if i < k - 1 {
      WaitingIff(requests, i, k - 1, published);
      IdsOnce(requests, i, k - 1, published);
    } else {
      IdsComeFrom(requests, i, published);
      assert InOrder(requests, i, published);
    }
  }

  /** It returns at most one request, one of its input, and only when the requests are in order. */
  lemma PendingIsOneOfThem(requests: seq<StableRequest>, published: map<string, string>)
    ensures Pending(requests, published).Success? <==> AllInOrder(requests, |requests|, published)
    ensures Pending(requests, published).Success? ==>
              && |Pending(requests, published).value| <= 1
              && forall r :: r in Pending(requests, published).value ==> r in requests
  {
    var n := |requests|;
    StateMeaning(requests, n, published);
    if Pending(requests, published).Success? && Pending(requests, published).value != [] {
      OnePending(requests, n, published);
      var pending := StateAfter(requests, n, published).value.pending;
      var id :| id in pending && Only(pending) == [pending[id]];
      IdsComeFrom(requests, n, published);
      var i :| 0 <= i < n && requests[i].requestId == id;
    }
  }
}
