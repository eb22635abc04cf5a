/**
 * publishCandidate, call by call, against a remote whose calls may fail or take effect unseen: what one run may do,
 * and what interrupted runs and a clean one end with.
 */
module Publisher {
  import opened Wrappers
  import opened Publication
  import opened PublicationRuns

  /** How one call ends. A crash right after a call is `Lost(false)`; a crash before it is `Failed`. */
  datatype Delivery =
    | Done
    | Failed
    | Lost(transient: bool)
    | Partial(size: nat)

  predicate TakesEffect(d: Delivery) {
    d.Done? || d.Lost?
  }

  /** What the environment decides during one run: checks passed, the end of each call, the order uploads finish in. */
  datatype Plan = Plan(
    valid: bool,
    certified: bool,
    gateOpen: bool,
    changelog: bool,
    stillOpen: bool,
    stillCertified: bool,
    deliveries: nat -> Delivery,
    order: nat -> nat)

  /** Every check passes and every call succeeds. */
  ghost predicate CrashFree(plan: Plan) {
    && plan.valid && plan.certified && plan.gateOpen && plan.changelog && plan.stillOpen && plan.stillCertified
    && forall k :: plan.deliveries(k).Done?
  }

  /** Nothing became public, and nothing public changed. */
  ghost predicate SamePublic(a: Remote, b: Remote) {
    forall id :: (IsPublic(a, id) <==> IsPublic(b, id)) && (IsPublic(a, id) ==> b.releases[id] == a.releases[id])
  }

  /** No tag, release or asset was added, and nothing changed in public: at most unfinished uploads are gone. */
  ghost predicate NothingAdded(a: Remote, b: Remote) {
    a.tags == b.tags && a.releases.Keys == b.releases.Keys && a.nextId == b.nextId && SamePublic(a, b)
  }

  class GitHub {
    var tags: map<Version, string>
    var releases: map<int, Release>
    var nextId: int

    function State(): Remote
      reads this
    {
      Remote(tags, releases, nextId)
    }

    constructor ()
      ensures State() == Remote(map[], map[], 1)
    {
      tags, releases, nextId := map[], map[], 1;
    }

    /** POST git/refs */
    method PostTag(c: Candidate, d: Delivery) returns (ok: bool)
      modifies this
      ensures State() == if TakesEffect(d) then Make(old(State()), Move(c, ReserveTag)) else old(State())
      ensures ok == d.Done?
    {
      ok := d.Done?;
      if TakesEffect(d) {
        tags := tags[c.version := c.sourceSha];
      }
    }

    /** POST releases, as a draft */
    method PostDraft(c: Candidate, d: Delivery) returns (ok: bool)
      modifies this
      ensures State() == if TakesEffect(d) then Make(old(State()), Move(c, OpenDraft)) else old(State())
      ensures ok == d.Done?
    {
      ok := d.Done?;
      if TakesEffect(d) {
        releases := releases[nextId := Release(c.version, true, c.version.beta.Some?, [])];
        nextId := nextId + 1;
      }
    }

    /** DELETE releases/assets */
    method DeleteAsset(c: Candidate, id: int, at: nat, d: Delivery) returns (ok: bool)
      requires id in releases && at < |releases[id].assets|
      modifies this
      ensures State() == if TakesEffect(d) then Make(old(State()), Move(c, DropPartial(id, at))) else old(State())
      ensures ok == d.Done?
    {
      ok := d.Done?;
      if TakesEffect(d) {
        releases := releases[id := releases[id].(assets := Without(releases[id].assets, at))];
      }
    }

    /** POST releases/<id>/assets: a failed upload may leave a starter asset behind. */
    method UploadAsset(c: Candidate, id: int, f: ReleaseFile, d: Delivery) returns (ok: bool)
      requires id in releases
      modifies this
      ensures ok == d.Done?
      ensures State() == if d.Failed? then old(State())
                         else Make(old(State()), Move(c, PutAsset(id, UploadedAs(f, d, old(nextId)))))
    {
      ok := d.Done?;
      if !d.Failed? {
        releases := releases[id := releases[id].(assets := releases[id].assets + [UploadedAs(f, d, nextId)])];
        nextId := nextId + 1;
      }
    }

    /** PATCH releases/<id>, draft=false */
    method PatchPublic(c: Candidate, id: int, d: Delivery) returns (ok: bool)
      requires id in releases
      modifies this
      ensures State() == if TakesEffect(d) then Make(old(State()), Move(c, Promote(id))) else old(State())
      ensures ok == d.Done?
    {
      ok := d.Done?;
      if TakesEffect(d) {
        releases := releases[id := releases[id].(draft := false)];
      }
    }

    /** The release on this tag; two of them are an error. */
    method FindRelease(version: Version) returns (result: Result<Option<int>, PublicationError>)
      ensures result.Failure? ==> result.error.DuplicateRelease?
                                  && exists i, j :: i != j && i in releases && j in releases
                                                    && releases[i].tag == releases[j].tag
      ensures result == Success(None) <==> Unreleased(State(), version)
      ensures result.Success? && result.value.Some? ==>
                result.value.value in releases && releases[result.value.value].tag == version
    {
      if forall id :: id in releases ==> releases[id].tag != version {
        return Success(None);
      }
      var id :| id in releases && releases[id].tag == version;
      if exists j :: j in releases && j != id && releases[j].tag == version {
        return Failure(DuplicateRelease);
      }
      return Success(Some(id));
    }
  }

  function UploadedAs(f: ReleaseFile, d: Delivery, id: int): Asset {
    if d.Partial? then Asset(id, f.name, if d.size <= f.size then d.size else f.size, None, Starter)
    else Asset(id, f.name, f.size, Digest(f), Uploaded)
  }

  // ----- recovering a draft with unfinished uploads -----

  function Starters(assets: seq<Asset>): seq<Asset> {
    if assets == [] then []
    else (if assets[0].state == Starter then [assets[0]] else []) + Starters(assets[1..])
  }

  function Finished(assets: seq<Asset>): seq<Asset> {
    if assets == [] then []
    else (if assets[0].state == Starter then [] else [assets[0]]) + Finished(assets[1..])
  }

  lemma {:induction false} StartersFinished(assets: seq<Asset>)
    ensures forall a :: a in Starters(assets) <==> a in assets && a.state == Starter
    ensures forall a :: a in Finished(assets) <==> a in assets && a.state != Starter
    ensures Starters(assets) == [] ==> Finished(assets) == assets
  {
    if assets != [] {
      StartersFinished(assets[1..]);
      assert assets == [assets[0]] + assets[1..];
    }
  }

  /** Deleting the first starter leaves the others, and every finished asset, in order. */
  lemma {:induction false} FirstStarter(assets: seq<Asset>) returns (at: nat)
    requires Starters(assets) != []
    ensures at < |assets| && assets[at] == Starters(assets)[0] && assets[at].state == Starter
    ensures Starters(Without(assets, at)) == Starters(assets)[1..]
    ensures Finished(Without(assets, at)) == Finished(assets)
  {
    if assets[0].state == Starter {
      at := 0;
      assert Without(assets, 0) == assets[1..];
    } else {
      at := FirstStarter(assets[1..]);
      assert Without(assets, at + 1) == [assets[0]] + Without(assets[1..], at);
      at := at + 1;
    }
  }

  method IndexOf(assets: seq<Asset>, id: int) returns (at: nat)
    requires exists k :: 0 <= k < |assets| && assets[k].id == id
    ensures at < |assets| && assets[at].id == id
  {
    at := 0;
    while assets[at].id != id
      invariant at < |assets| && forall k :: 0 <= k < at ==> assets[k].id != id
      decreases |assets| - at
    {
      at := at + 1;
    }
  }

  predicate RecognizedPartial(files: seq<ReleaseFile>, a: Asset) {
    var wanted := Find(files, a.name);
    wanted.Some? && a.id >= 1 && a.digest.None? && 0 <= a.size <= wanted.value.size
  }

  /** A draft may be cleaned up only when every asset on it is accounted for. */
  method CheckDraft(files: seq<ReleaseFile>, assets: seq<Asset>) returns (problem: Option<PublicationError>)
    requires UniqueNames(files)
    ensures (forall a :: a in assets ==> OwnFile(files, a)) && DistinctNames(assets) && PositiveIds(assets) ==>
              problem.None?
  {
    var checked := MissingUploads(files, Finished(assets));
    if checked.Failure? {
      OwnFinished(files, assets);
      return Some(checked.error);
    }
    if !DistinctNames(assets) {
      return Some(DuplicateDraftAsset);
    }
    var partial := Starters(assets);
    if exists k :: 0 <= k < |partial| && !RecognizedPartial(files, partial[k]) {
      var k :| 0 <= k < |partial| && !RecognizedPartial(files, partial[k]);
      OwnPartial(files, assets, k);
      return Some(UnrecognizedPartial(partial[k].name));
    }
    return None;
  }

  predicate DistinctNames(assets: seq<Asset>) {
    forall i, j :: 0 <= i < j < |assets| ==> assets[i].name != assets[j].name
  }

  predicate PositiveIds(assets: seq<Asset>) {
    forall a :: a in assets ==> a.id >= 1
  }

  lemma PrependDistinct(a: Asset, rest: seq<Asset>)
    requires DistinctNames(rest) && forall b :: b in rest ==> b.name != a.name
    ensures DistinctNames([a] + rest)
  {
  }

  lemma FirstDiffers(assets: seq<Asset>, a: Asset)
    requires assets != [] && DistinctNames(assets) && a in assets[1..]
    ensures a.name != assets[0].name
  {
    var k :| 0 <= k < |assets[1..]| && assets[1..][k] == a;
  }

  lemma {:induction false} FinishedDistinct(assets: seq<Asset>)
    requires DistinctNames(assets)
    ensures DistinctNames(Finished(assets))
  {
    if assets != [] {
      var rest := Finished(assets[1..]);
      FinishedDistinct(assets[1..]);
      StartersFinished(assets[1..]);
      forall a | a in rest ensures a.name != assets[0].name {
        FirstDiffers(assets, a);
      }
      PrependDistinct(assets[0], rest);
      assert [] + rest == rest;
    }
  }

  lemma {:induction false} OwnFinished(files: seq<ReleaseFile>, assets: seq<Asset>)
    ensures (forall a :: a in assets ==> OwnFile(files, a)) && DistinctNames(assets) ==>
              OnlyExpected(files, Finished(assets))
  {
    StartersFinished(assets);
    if DistinctNames(assets) {
      FinishedDistinct(assets);
    }
  }

  lemma {:induction false} OwnPartial(files: seq<ReleaseFile>, assets: seq<Asset>, k: nat)
    requires UniqueNames(files) && k < |Starters(assets)|
    ensures (forall a :: a in assets ==> OwnFile(files, a)) && PositiveIds(assets) ==>
              RecognizedPartial(files, Starters(assets)[k])
  {
    StartersFinished(assets);
    var a := Starters(assets)[k];
    assert a in Starters(assets);
    if OwnFile(files, a) {
      var f :| f in files && f.name == a.name && (Matches(a, f) || LeftOver(a, f));
      SameFile(files, f);
    }
  }

  method DeleteStarter(gh: GitHub, c: Candidate, id: int, target: Asset, d: Delivery)
    returns (ok: bool, ghost moves: seq<Move>)
    requires Sound(gh.State()) && OwnDraft(gh.State(), c, id)
    requires Starters(gh.releases[id].assets) != [] && target == Starters(gh.releases[id].assets)[0]
    modifies gh
    ensures Leads(old(gh.State()), c, moves, gh.State()) && Sound(gh.State()) && OwnDraft(gh.State(), c, id)
    ensures ok ==> Starters(gh.releases[id].assets) == old(Starters(gh.releases[id].assets)[1..])
                   && Finished(gh.releases[id].assets) == old(Finished(gh.releases[id].assets))
    ensures ok == d.Done?
    ensures NothingAdded(old(gh.State()), gh.State())
  {
    var now := gh.releases[id].assets;
    ghost var first := FirstStarter(now);
    var at := IndexOf(now, target.id);
    assert at == first;
    ghost var before := gh.State();
    ok := gh.DeleteAsset(c, id, at, d);
    moves := [];
    if TakesEffect(d) {
      moves := [Move(c, DropPartial(id, at))];
      LeadsOne(before, c, DropPartial(id, at));
      MoveKeepsSound(before, Move(c, DropPartial(id, at)));
    }
  }

  /** Deletes the unfinished uploads of a matching draft, once everything else on it has been checked. */
  method RecoverDraft(gh: GitHub, c: Candidate, id: int, plan: Plan, call: nat)
    returns (result: Result<nat, PublicationError>, ghost moves: seq<Move>)
    requires Sound(gh.State()) && OwnDraft(gh.State(), c, id) && UniqueNames(c.files)
    modifies gh
    ensures Leads(old(gh.State()), c, moves, gh.State())
    ensures result.Success? ==> OwnDraft(gh.State(), c, id)
                                && gh.releases[id].assets == Finished(old(gh.releases[id].assets))
    ensures Own(old(gh.State()), c) && CrashFree(plan) ==> result.Success?
    ensures NothingAdded(old(gh.State()), gh.State())
  {
    moves := [];
    var assets := gh.releases[id].assets;
    var problem := CheckDraft(c.files, assets);
    if problem.Some? {
      return Failure(problem.value), moves;
    }
    var calls := call;
    var partial := Starters(assets);
    for k := 0 to |partial|
      invariant Leads(old(gh.State()), c, moves, gh.State()) && Sound(gh.State()) && OwnDraft(gh.State(), c, id)
      invariant Starters(gh.releases[id].assets) == partial[k..]
      invariant Finished(gh.releases[id].assets) == Finished(assets)
      invariant NothingAdded(old(gh.State()), gh.State())
    {
      ghost var before := gh.State();
      var ok, step := DeleteStarter(gh, c, id, partial[k], plan.deliveries(calls));
      LeadsOn(old(gh.State()), c, moves, before, step, gh.State());
      moves := moves + step;
      if !ok {
        return Failure(CallFailed), moves;
      }
      calls := calls + 1;
    }
    StartersFinished(gh.releases[id].assets);
    return Success(calls), moves;
  }

  // ----- tag, draft, uploads -----

  /** The tag is reserved before anything else is created; a tag elsewhere is an error. */
  method EnsureTag(gh: GitHub, c: Candidate, d: Delivery)
    returns (result: Option<PublicationError>, ghost moves: seq<Move>)
    requires Sound(gh.State())
    modifies gh
    ensures Leads(old(gh.State()), c, moves, gh.State()) && Sound(gh.State())
    ensures gh.releases == old(gh.releases) && gh.nextId == old(gh.nextId)
    ensures result.None? ==> TagReserved(gh.State(), c)
    ensures d.Done? && (c.version in old(gh.tags) ==> old(gh.tags)[c.version] == c.sourceSha) ==> result.None?
  {
    moves := [];
    if c.version in gh.tags {
      return if gh.tags[c.version] != c.sourceSha then Some(TagElsewhere) else None, moves;
    }
    ghost var before := gh.State();
    var ok := gh.PostTag(c, d);
    if TakesEffect(d) {
      moves := [Move(c, ReserveTag)];
      LeadsOne(before, c, ReserveTag);
      MoveKeepsSound(before, Move(c, ReserveTag));
    }
    return if ok then None else Some(CallFailed), moves;
  }

  /** An ambiguous creation is never repeated: its result is looked up once. */
  method CreateDraft(gh: GitHub, c: Candidate, d: Delivery)
    returns (result: Result<int, PublicationError>, ghost moves: seq<Move>)
    requires Sound(gh.State()) && TagReserved(gh.State(), c) && Unreleased(gh.State(), c.version)
    modifies gh
    ensures Leads(old(gh.State()), c, moves, gh.State()) && Sound(gh.State())
    ensures result.Success? ==> OwnDraft(gh.State(), c, result.value) && gh.releases[result.value].assets == []
    ensures result.Success? <==> d.Done? || d == Lost(true)
    ensures SamePublic(old(gh.State()), gh.State())
  {
    moves := [];
    var id := gh.nextId;
    ghost var before := gh.State();
    var ok := gh.PostDraft(c, d);
    if TakesEffect(d) {
      moves := [Move(c, OpenDraft)];
      LeadsOne(before, c, OpenDraft);
      MoveKeepsSound(before, Move(c, OpenDraft));
      assert gh.State().releases[id].tag == c.version;
    }
    if ok {
      return Success(id), moves;
    }
    if d != Lost(true) {
      return Failure(CallFailed), moves;
    }
    var found := gh.FindRelease(c.version);
    if found.Failure? || found.value.None? {
      return Failure(if found.Failure? then DuplicateRelease else CallFailed), moves;
    }
    return Success(found.value.value), moves;
  }

  /** Uploads every missing file. Uploads finish in any order and are drained even after one has failed. */
  method UploadAll(gh: GitHub, c: Candidate, id: int, missing: seq<ReleaseFile>, plan: Plan, call: nat)
    returns (ok: bool, ghost moves: seq<Move>)
    requires Sound(gh.State()) && OwnDraft(gh.State(), c, id) && UniqueNames(c.files)
    requires OnlyExpected(c.files, gh.releases[id].assets)
    requires missing == Missing(c.files, Names(gh.releases[id].assets))
    modifies gh
    ensures Leads(old(gh.State()), c, moves, gh.State()) && Sound(gh.State()) && OwnDraft(gh.State(), c, id)
    ensures ok ==> Exact(c.files, gh.releases[id].assets)
    ensures CrashFree(plan) ==> ok
    ensures SamePublic(old(gh.State()), gh.State())
  {
    moves := [];
    ok := true;
    var queue := missing;
    var calls := call;
    MissingMeaning(c.files, Names(gh.releases[id].assets));
    MissingUnique(c.files, Names(gh.releases[id].assets));
    while queue != []
      invariant Leads(old(gh.State()), c, moves, gh.State()) && Sound(gh.State()) && OwnDraft(gh.State(), c, id)
      invariant UniqueNames(queue) && forall f :: f in queue ==>
                f in c.files && f.name !in Names(gh.releases[id].assets)
      invariant ok ==> OnlyExpected(c.files, gh.releases[id].assets)
                       && forall f :: f in c.files ==> f in queue || f.name in Names(gh.releases[id].assets)
      invariant CrashFree(plan) ==> ok
      invariant SamePublic(old(gh.State()), gh.State())
      decreases |queue|
    {
      var pick := plan.order(calls) % |queue|;
      var d := plan.deliveries(calls);
      ghost var before := gh.State();
      var done, step := UploadOne(gh, c, id, queue, pick, d, ok);
      LeadsOn(old(gh.State()), c, moves, before, step, gh.State());
      moves := moves + step;
      ok := ok && done;
      queue := queue[..pick] + queue[pick + 1..];
      calls := calls + 1;
    }
    if ok {
      CoveredIsExact(c.files, gh.releases[id].assets);
    }
  }

  lemma {:induction false} MissingUnique(files: seq<ReleaseFile>, names: set<string>)
    requires UniqueNames(files)
    ensures UniqueNames(Missing(files, names))
  {
    if files != [] {
      MissingUnique(files[1..], names);
      MissingMeaning(files[1..], names);
      forall f | f in Missing(files[1..], names) ensures f.name != files[0].name {
        var k :| 0 <= k < |files[1..]| && files[1..][k] == f;
      }
    }
  }

  method UploadOne(gh: GitHub, c: Candidate, id: int, queue: seq<ReleaseFile>, pick: nat, d: Delivery,
                   ghost wasOk: bool)
    returns (ok: bool, ghost moves: seq<Move>)
    requires Sound(gh.State()) && OwnDraft(gh.State(), c, id) && UniqueNames(c.files) && pick < |queue|
    requires UniqueNames(queue) && forall f :: f in queue ==> f in c.files && f.name !in Names(gh.releases[id].assets)
    requires wasOk ==> OnlyExpected(c.files, gh.releases[id].assets)
                       && forall f :: f in c.files ==> f in queue || f.name in Names(gh.releases[id].assets)
    modifies gh
    ensures Leads(old(gh.State()), c, moves, gh.State()) && Sound(gh.State()) && OwnDraft(gh.State(), c, id)
    ensures ok == d.Done?
    ensures var rest := queue[..pick] + queue[pick + 1..];
            && UniqueNames(rest)
            && (forall f :: f in rest ==> f in c.files && f.name !in Names(gh.releases[id].assets))
            && (wasOk && ok ==> OnlyExpected(c.files, gh.releases[id].assets)
                                && forall f :: f in c.files ==> f in rest || f.name in Names(gh.releases[id].assets))
    ensures SamePublic(old(gh.State()), gh.State())
  {
    var f := queue[pick];
    ghost var before, assets, asset := gh.State(), gh.releases[id].assets, UploadedAs(queue[pick], d, gh.nextId);
    ok := gh.UploadAsset(c, id, f, d);
    moves := [];
    if !d.Failed? {
      moves := [Move(c, PutAsset(id, asset))];
      assert OwnFile(c.files, asset) by {
        assert f in queue;
      }
      LeadsOne(before, c, PutAsset(id, asset));
      MoveKeepsSound(before, Move(c, PutAsset(id, asset)));
      NamesAppend(assets, asset);
      if wasOk && ok {
        ExpectedAppend(c.files, assets, asset, f);
      }
    }
    QueueWithout(queue, pick);
  }

  lemma NamesAppend(assets: seq<Asset>, asset: Asset)
    ensures Names(assets + [asset]) == Names(assets) + {asset.name}
  {
  }

  lemma ExpectedAppend(files: seq<ReleaseFile>, assets: seq<Asset>, asset: Asset, f: ReleaseFile)
    requires OnlyExpected(files, assets) && f in files && Matches(asset, f) && asset.name !in Names(assets)
    ensures OnlyExpected(files, assets + [asset])
  {
    forall i | 0 <= i < |assets| ensures assets[i].name != asset.name {
      assert assets[i] in assets;
    }
  }

  lemma QueueWithout(queue: seq<ReleaseFile>, pick: nat)
    requires pick < |queue| && UniqueNames(queue)
    ensures var rest := queue[..pick] + queue[pick + 1..];
            && UniqueNames(rest)
            && (forall f :: f in rest ==> f in queue && f.name != queue[pick].name)
            && (forall f :: f in queue ==> f == queue[pick] || f in rest)
  {
    var rest := queue[..pick] + queue[pick + 1..];
    forall f | f in queue ensures f == queue[pick] || f in rest {
      var k :| 0 <= k < |queue| && queue[k] == f;
      assert k < pick ==> rest[k] == f;
      assert k > pick ==> rest[k - 1] == f;
    }
  }

  // ----- the whole publication -----

  /** The version is public, on its tag at this commit, with exactly these files. */
  ghost predicate Published(r: Remote, c: Candidate) {
    && TagReserved(r, c)
    && exists id :: IsPublic(r, id) && r.releases[id].tag == c.version && Exact(c.files, r.releases[id].assets)
  }

  /** A run of this candidate keeps the remote sound. */
  lemma LeadsSound(a: Remote, c: Candidate, moves: seq<Move>, b: Remote)
    requires Sound(a) && Leads(a, c, moves, b)
    ensures Sound(b)
  {
    RunsStaySound(a, moves);
  }

  /** Checks the release already on the tag and removes unfinished uploads from it. */
  method CheckExisting(gh: GitHub, c: Candidate, listed: int, plan: Plan)
    returns (result: Result<nat, PublicationError>, ghost moves: seq<Move>)
    requires Sound(gh.State()) && listed in gh.releases && gh.releases[listed].tag == c.version && UniqueNames(c.files)
    modifies gh
    ensures Leads(old(gh.State()), c, moves, gh.State()) && NothingAdded(old(gh.State()), gh.State())
    ensures old(!gh.releases[listed].draft) ==> gh.State() == old(gh.State())
    ensures result.Success? ==>
              && TagReserved(gh.State(), c)
              && listed in gh.releases && gh.releases[listed].tag == c.version
              && gh.releases[listed].draft == old(gh.releases[listed].draft)
              && OnlyExpected(c.files, gh.releases[listed].assets)
              && (!gh.releases[listed].draft ==> Exact(c.files, gh.releases[listed].assets))
    ensures Own(old(gh.State()), c) && CrashFree(plan) ==> result.Success?
  {
    moves := [];
    var calls := 0;
    var release := gh.releases[listed];
    if release.prerelease != c.version.beta.Some? || c.version !in gh.tags || gh.tags[c.version] != c.sourceSha {
      return Failure(DifferentIdentity), moves;
    }
    OwnFinished(c.files, release.assets);
    StartersFinished(release.assets);
    if release.draft && Starters(release.assets) != [] {
      var recovered, step := RecoverDraft(gh, c, listed, plan, 0);
      moves := step;
      if recovered.Failure? {
        return Failure(recovered.error), moves;
      }
      calls := recovered.value;
    }
    var missing := MissingUploads(c.files, gh.releases[listed].assets);
    if missing.Failure? {
      return Failure(missing.error), moves;
    }
    NothingMissing(c.files, gh.releases[listed].assets);
    if !gh.releases[listed].draft && missing.value != [] {
      return Failure(IncompletePublic), moves;
    }
    return Success(calls), moves;
  }

  /** Uploads what is missing on the draft, checks everything again and makes the release public. */
  method FinishDraft(gh: GitHub, c: Candidate, id: int, plan: Plan, call: nat)
    returns (problem: Option<PublicationError>, ghost moves: seq<Move>)
    requires Sound(gh.State()) && OwnDraft(gh.State(), c, id) && UniqueNames(c.files)
    requires OnlyExpected(c.files, gh.releases[id].assets)
    modifies gh
    ensures Leads(old(gh.State()), c, moves, gh.State())
    ensures problem.None? ==> Published(gh.State(), c)
    ensures CrashFree(plan) && NewestOfAll(old(gh.State()), c.version) ==> problem.None?
    ensures !plan.stillOpen || !plan.stillCertified ==> SamePublic(old(gh.State()), gh.State()) && problem.Some?
  {
    var uploads := MissingUploads(c.files, gh.releases[id].assets);
    var uploaded;
    uploaded, moves := UploadAll(gh, c, id, uploads.value, plan, call);
    if !uploaded {
      return Some(CallFailed), moves;
    }
    var missing := MissingUploads(c.files, gh.releases[id].assets);
    NothingMissing(c.files, gh.releases[id].assets);
    if missing.Failure? || missing.value != [] {
      return Some(UploadIncomplete), moves;
    }
    if !plan.stillOpen || !plan.stillCertified {
      return Some(Held), moves;
    }
    if exists p :: p in gh.releases && !gh.releases[p].draft && !Later(c.version, gh.releases[p].tag) {
      var p :| p in gh.releases && !gh.releases[p].draft && !Later(c.version, gh.releases[p].tag);
      return Some(Superseded(gh.releases[p].tag)), moves;
    }
    ghost var before := gh.State();
    var d := plan.deliveries(call + |c.files|);
    var ok := gh.PatchPublic(c, id, d);
    if TakesEffect(d) {
      LeadsOne(before, c, Promote(id));
      LeadsOn(old(gh.State()), c, moves, before, [Move(c, Promote(id))], gh.State());
      moves := moves + [Move(c, Promote(id))];
    }
    if !ok {
      return Some(CallFailed), moves;
    }
    assert IsPublic(gh.State(), id);
    return None, moves;
  }

  lemma Extend(a: Remote, c: Candidate, first: seq<Move>, b: Remote, second: seq<Move>, d: Remote)
    requires Sound(a) && Leads(a, c, first, b) && Leads(b, c, second, d)
    ensures Leads(a, c, first + second, d) && Sound(b) && Sound(d)
    ensures Own(a, c) ==> Own(b, c)
  {
    LeadsOn(a, c, first, b, second, d);
    LeadsSound(a, c, first, b);
    LeadsSound(b, c, second, d);
    if Own(a, c) {
      RunsStayOwn(a, c, first);
    }
  }

  lemma NewestStays(a: Remote, b: Remote, v: Version)
    requires SamePublic(a, b) && NewestOfAll(a, v)
    ensures NewestOfAll(b, v)
  {
    forall id | id in b.releases && !b.releases[id].draft ensures Later(v, b.releases[id].tag) {
      assert IsPublic(b, id);
    }
  }

  /** Reserves the tag, opens a draft when there is none, and finishes it. */
  method PublishDraft(gh: GitHub, c: Candidate, listed: Option<int>, plan: Plan, call: nat)
    returns (problem: Option<PublicationError>, ghost moves: seq<Move>)
    requires Sound(gh.State()) && UniqueNames(c.files)
    requires listed.None? ==> Unreleased(gh.State(), c.version)
    requires listed.Some? ==>
              OwnDraft(gh.State(), c, listed.value) && OnlyExpected(c.files, gh.releases[listed.value].assets)
    modifies gh
    ensures Leads(old(gh.State()), c, moves, gh.State())
    ensures problem.None? ==> Published(gh.State(), c)
    ensures (&& CrashFree(plan)
             && NewestOfAll(old(gh.State()), c.version)
             && (c.version in old(gh.tags) ==> old(gh.tags)[c.version] == c.sourceSha)) ==> problem.None?
    ensures !plan.stillOpen || !plan.stillCertified ==> SamePublic(old(gh.State()), gh.State()) && problem.Some?
  {
    ghost var start := gh.State();
    problem, moves := EnsureTag(gh, c, plan.deliveries(call));
    if problem.Some? {
      return problem, moves;
    }
    if listed.None? && c.version.beta.None? && !plan.changelog {
      return Some(ChangelogMissing), moves;
    }
    ghost var tagged := gh.State();
    var id := if listed.Some? then listed.value else 0;
    if listed.None? {
      var created, opening := CreateDraft(gh, c, plan.deliveries(call + 1));
      Extend(start, c, moves, tagged, opening, gh.State());
      moves := moves + opening;
      if created.Failure? {
        return Some(created.error), moves;
      }
      id := created.value;
    }
    ghost var withDraft := gh.State();
    if NewestOfAll(start, c.version) {
      assert SamePublic(start, tagged);
      NewestStays(start, withDraft, c.version);
    }
    ghost var finishing: seq<Move>;
    problem, finishing := FinishDraft(gh, c, id, plan, call + 2);
    Extend(start, c, moves, withDraft, finishing, gh.State());
    moves := moves + finishing;
  }

  /** One run. Every state it can leave behind, wherever it stops, is the end of a legal sequence of changes. */
  method PublishCandidate(gh: GitHub, c: Candidate, plan: Plan)
    returns (problem: Option<PublicationError>, ghost moves: seq<Move>)
    requires Sound(gh.State()) && UniqueNames(c.files)
    modifies gh
    ensures Leads(old(gh.State()), c, moves, gh.State())
    ensures problem.None? ==> Published(gh.State(), c)
    ensures Published(old(gh.State()), c) ==> gh.State() == old(gh.State())
    ensures (&& CrashFree(plan)
             && Own(old(gh.State()), c)
             && (Published(old(gh.State()), c) || NewestOfAll(old(gh.State()), c.version))) ==> problem.None?
    ensures !plan.valid || !plan.certified ==> gh.State() == old(gh.State())
    ensures !plan.gateOpen || !NewestOfAll(old(gh.State()), c.version) ==> NothingAdded(old(gh.State()), gh.State())
    ensures !plan.stillOpen || !plan.stillCertified ==> SamePublic(old(gh.State()), gh.State())
    ensures problem.None? && !Published(old(gh.State()), c) ==>
              plan.valid && plan.certified && plan.gateOpen && plan.stillOpen && plan.stillCertified
  {
    moves := [];
    ghost var start := gh.State();
    if !plan.valid {
      return Some(NotReady), moves;
    }
    var listed := gh.FindRelease(c.version);
    if listed.Failure? {
      return Some(DuplicateRelease), moves;
    }
    if (listed.value.None? || gh.releases[listed.value.value].draft) && !plan.certified {
      return Some(NotCertified), moves;
    }
    var calls := 0;
    if listed.value.Some? {
      var checked;
      checked, moves := CheckExisting(gh, c, listed.value.value, plan);
      if checked.Failure? {
        return Some(checked.error), moves;
      }
      calls := checked.value;
      if !gh.releases[listed.value.value].draft {
        assert IsPublic(gh.State(), listed.value.value);
        return None, moves;
      }
    }
    ghost var ready := gh.State();
    if exists p :: p in gh.releases && !gh.releases[p].draft && !Later(c.version, gh.releases[p].tag) {
      var p :| p in gh.releases && !gh.releases[p].draft && !Later(c.version, gh.releases[p].tag);
      return Some(Superseded(gh.releases[p].tag)), moves;
    }
    if !plan.gateOpen {
      return Some(Held), moves;
    }
    LeadsSound(start, c, moves, ready);
    ghost var publishing: seq<Move>;
    problem, publishing := PublishDraft(gh, c, listed.value, plan, calls);
    Extend(start, c, moves, ready, publishing, gh.State());
    moves := moves + publishing;
  }

  // ----- interrupted and run again -----

  /**
   * Before its first run: the tag is free or at this commit, nothing is released on it, and nothing as new is public.
   */
  ghost predicate Publishable(r: Remote, c: Candidate) {
    && Sound(r) && Unreleased(r, c.version) && NewestOfAll(r, c.version)
    && (c.version in r.tags ==> r.tags[c.version] == c.sourceSha)
  }

  /** After any interrupted runs, a rerun finds only its own traces and no newer public version. */
  ghost predicate Resumable(r: Remote, c: Candidate) {
    Sound(r) && Own(r, c) && (Published(r, c) || NewestOfAll(r, c.version))
  }

  lemma PublishableIsResumable(r: Remote, c: Candidate)
    requires Publishable(r, c)
    ensures Resumable(r, c)
  {
    UntouchedIsOwn(r, c);
  }

  lemma StaysResumable(r: Remote, c: Candidate, moves: seq<Move>, s: Remote)
    requires Resumable(r, c) && Leads(r, c, moves, s)
    ensures Resumable(s, c)
  {
    LeadsSound(r, c, moves, s);
    RunsStayOwn(r, c, moves);
    if Published(r, c) {
      var id :| IsPublic(r, id) && r.releases[id].tag == c.version && Exact(c.files, r.releases[id].assets);
      PublicIsFrozen(r, moves, id);
      TagsNeverMove(r, moves, c.version);
    } else if !NewestOfAll(s, c.version) {
      var id :| IsPublic(s, id) && !Later(c.version, s.releases[id].tag);
      if IsPublic(r, id) {
        PublicIsFrozen(r, moves, id);
      }
      var k := PromotedExactly(r, moves, id);
      assert moves[k] in moves;
    }
  }

  /**
   * However often one candidate's publication is interrupted, one clean run completes it and a further run changes
   * nothing.
   */
  method PublishThroughCrashes(gh: GitHub, c: Candidate, interrupted: seq<Plan>, clean: Plan, again: Plan)
    requires Publishable(gh.State(), c) && UniqueNames(c.files) && CrashFree(clean)
    modifies gh
    ensures Published(gh.State(), c) && Sound(gh.State())
  {
    PublishableIsResumable(gh.State(), c);
    for k := 0 to |interrupted|
      invariant Resumable(gh.State(), c)
    {
      ghost var before := gh.State();
      var _, moves := PublishCandidate(gh, c, interrupted[k]);
      StaysResumable(before, c, moves, gh.State());
    }
    ghost var before := gh.State();
    var problem, moves := PublishCandidate(gh, c, clean);
    assert problem.None?;
    StaysResumable(before, c, moves, gh.State());
    ghost var done := gh.State();
    var _, _ := PublishCandidate(gh, c, again);
    assert gh.State() == done;
  }
}
