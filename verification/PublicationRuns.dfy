/** What every sequence of publication steps keeps. */
module PublicationRuns {
  import opened Publication

  datatype Candidate = Candidate(version: Version, sourceSha: string, files: seq<ReleaseFile>)

  datatype Release = Release(tag: Version, draft: bool, prerelease: bool, assets: seq<Asset>)

  /** Tags and releases on the hosting service, releases by ID; new IDs are taken from `nextId`. */
  datatype Remote = Remote(tags: map<Version, string>, releases: map<int, Release>, nextId: int)

  datatype Change =
    | ReserveTag
    | OpenDraft
    | DropPartial(id: int, at: nat)
    | PutAsset(id: int, asset: Asset)
    | Promote(id: int)

  /** A change made on behalf of a candidate. */
  datatype Move = Move(candidate: Candidate, change: Change)

  // ----- what the publisher may do -----

  predicate TagReserved(r: Remote, c: Candidate) {
    c.version in r.tags && r.tags[c.version] == c.sourceSha
  }

  predicate OwnDraft(r: Remote, c: Candidate, id: int) {
    && TagReserved(r, c)
    && id in r.releases && r.releases[id].tag == c.version && r.releases[id].draft
  }

  predicate Unreleased(r: Remote, version: Version) {
    forall id :: id in r.releases ==> r.releases[id].tag != version
  }

  predicate IsPublic(r: Remote, id: int) {
    id in r.releases && !r.releases[id].draft
  }

  /** No public release is as new as `version`. */
  predicate NewestOfAll(r: Remote, version: Version) {
    forall id :: id in r.releases && !r.releases[id].draft ==> Later(version, r.releases[id].tag)
  }

  /** A new asset: one of the files, either complete or the unfinished remains of an upload. */
  predicate FreshAsset(r: Remote, c: Candidate, assets: seq<Asset>, asset: Asset) {
    && asset.id == r.nextId && asset.name !in Names(assets)
    && OwnFile(c.files, asset)
  }

  /** The unfinished remains of an upload of this file. */
  predicate LeftOver(a: Asset, f: ReleaseFile) {
    a.state == Starter && a.digest.None? && 0 <= a.size <= f.size
  }

  /** An asset that uploading one of the files can leave behind. */
  predicate OwnFile(files: seq<ReleaseFile>, a: Asset) {
    exists f :: f in files && f.name == a.name && (Matches(a, f) || LeftOver(a, f))
  }

  ghost predicate Allowed(r: Remote, m: Move) {
    var c := m.candidate;
    match m.change
    case ReserveTag => c.version !in r.tags
    case OpenDraft => TagReserved(r, c) && Unreleased(r, c.version)
    case DropPartial(id, at) => OwnDraft(r, c, id) && at < |r.releases[id].assets|
        && r.releases[id].assets[at].state == Starter
    case PutAsset(id, asset) => OwnDraft(r, c, id) && FreshAsset(r, c, r.releases[id].assets, asset)
    case Promote(id) => OwnDraft(r, c, id) && Exact(c.files, r.releases[id].assets) && NewestOfAll(r, c.version)
  }

  function Without(assets: seq<Asset>, at: nat): seq<Asset>
    requires at < |assets|
  {
    assets[..at] + assets[at + 1..]
  }

  function Updated(r: Remote, id: int, release: Release): Remote {
    r.(releases := r.releases[id := release])
  }

  function Make(r: Remote, m: Move): Remote {
    var c := m.candidate;
    match m.change
    case ReserveTag => r.(tags := r.tags[c.version := c.sourceSha])
    case OpenDraft => Updated(r, r.nextId, Release(c.version, true, c.version.beta.Some?, [])).(nextId := r.nextId + 1)
    case DropPartial(id, at) =>
      if id in r.releases && at < |r.releases[id].assets|
      then Updated(r, id, r.releases[id].(assets := Without(r.releases[id].assets, at))) else r
    case PutAsset(id, asset) =>
      if id in r.releases
      then Updated(r, id, r.releases[id].(assets := r.releases[id].assets + [asset])).(nextId := r.nextId + 1) else r
    case Promote(id) => if id in r.releases then Updated(r, id, r.releases[id].(draft := false)) else r
  }

  function After(r: Remote, moves: seq<Move>): Remote {
    if moves == [] then r else Make(After(r, moves[..|moves| - 1]), moves[|moves| - 1])
  }

  ghost predicate Legal(r: Remote, moves: seq<Move>) {
    moves == [] || (Legal(r, moves[..|moves| - 1]) && Allowed(After(r, moves[..|moves| - 1]), moves[|moves| - 1]))
  }

  // ----- what every reachable remote satisfies -----

  /** Asset names and IDs are not repeated. */
  predicate SoundAssets(assets: seq<Asset>, nextId: int) {
    && (forall a :: a in assets ==> 0 < a.id < nextId)
    && (forall i, j :: 0 <= i < j < |assets| ==> assets[i].id != assets[j].id && assets[i].name != assets[j].name)
  }

  /** Every release sits on a reserved tag of its own; IDs are fresh. */
  predicate Sound(r: Remote) {
    && r.nextId > 0
    && (forall id :: id in r.releases ==>
          0 < id < r.nextId && r.releases[id].tag in r.tags && SoundAssets(r.releases[id].assets, r.nextId))
    && (forall i, j :: i in r.releases && j in r.releases && r.releases[i].tag == r.releases[j].tag ==> i == j)
  }

  lemma WithoutKeeps(assets: seq<Asset>, at: nat, nextId: int)
    requires at < |assets|
    ensures forall a :: a in Without(assets, at) ==> a in assets
    ensures forall a :: a in assets && a != assets[at] ==> a in Without(assets, at)
    ensures SoundAssets(assets, nextId) ==> SoundAssets(Without(assets, at), nextId)
  {
    assert assets == assets[..at] + [assets[at]] + assets[at + 1..];
  }

  lemma AppendKeeps(assets: seq<Asset>, asset: Asset)
    requires SoundAssets(assets, asset.id) && 0 < asset.id && asset.name !in Names(assets)
    ensures SoundAssets(assets + [asset], asset.id + 1)
  {
    forall i | 0 <= i < |assets| ensures assets[i].name != asset.name && assets[i].id != asset.id {
      assert assets[i] in assets;
    }
  }

  lemma SoundLater(assets: seq<Asset>, nextId: int)
    requires SoundAssets(assets, nextId)
    ensures SoundAssets(assets, nextId + 1)
  {
  }

  lemma OpenKeepsSound(r: Remote, m: Move)
    requires Sound(r) && Allowed(r, m) && m.change.OpenDraft?
    ensures Sound(Make(r, m))
  {
    forall id | id in r.releases ensures SoundAssets(r.releases[id].assets, r.nextId + 1) {
      SoundLater(r.releases[id].assets, r.nextId);
    }
  }

  lemma PutKeepsSound(r: Remote, m: Move)
    requires Sound(r) && Allowed(r, m) && m.change.PutAsset?
    ensures Sound(Make(r, m))
  {
    AppendKeeps(r.releases[m.change.id].assets, m.change.asset);
    forall id | id in r.releases ensures SoundAssets(r.releases[id].assets, r.nextId + 1) {
      SoundLater(r.releases[id].assets, r.nextId);
    }
  }

  lemma MoveKeepsSound(r: Remote, m: Move)
    requires Sound(r) && Allowed(r, m)
    ensures Sound(Make(r, m))
  {
    match m.change
    case ReserveTag =>
    case OpenDraft => OpenKeepsSound(r, m);
    case DropPartial(id, at) => WithoutKeeps(r.releases[id].assets, at, r.nextId);
    case PutAsset(_, _) => PutKeepsSound(r, m);
    case Promote(id) =>
  }

  /** A draft, like any release, exists only on a tag reserved before it. */
  lemma {:induction false} RunsStaySound(r: Remote, moves: seq<Move>)
    requires Sound(r) && Legal(r, moves)
    ensures Sound(After(r, moves))
  {
    if moves != [] {
      RunsStaySound(r, moves[..|moves| - 1]);
      MoveKeepsSound(After(r, moves[..|moves| - 1]), moves[|moves| - 1]);
    }
  }

  /** A reserved tag never moves and never disappears. */
  lemma {:induction false} TagsNeverMove(r: Remote, moves: seq<Move>, tag: Version)
    requires Legal(r, moves) && tag in r.tags
    ensures tag in After(r, moves).tags && After(r, moves).tags[tag] == r.tags[tag]
  {
    if moves != [] {
      TagsNeverMove(r, moves[..|moves| - 1], tag);
    }
  }

  /** A fully uploaded asset is never deleted or replaced. */
  lemma {:induction false} UploadedStays(r: Remote, moves: seq<Move>, id: int, a: Asset)
    requires Sound(r) && Legal(r, moves)
    requires id in r.releases && a in r.releases[id].assets && a.state == Uploaded
    ensures id in After(r, moves).releases && a in After(r, moves).releases[id].assets
  {
    if moves != [] {
      var before, m := After(r, moves[..|moves| - 1]), moves[|moves| - 1];
      UploadedStays(r, moves[..|moves| - 1], id, a);
      RunsStaySound(r, moves[..|moves| - 1]);
      if m.change.DropPartial? && m.change.id == id {
        WithoutKeeps(before.releases[id].assets, m.change.at, before.nextId);
      }
    }
  }

  /** A public release never changes. */
  lemma {:induction false} PublicIsFrozen(r: Remote, moves: seq<Move>, id: int)
    requires Sound(r) && Legal(r, moves) && IsPublic(r, id)
    ensures id in After(r, moves).releases && After(r, moves).releases[id] == r.releases[id]
  {
    if moves != [] {
      PublicIsFrozen(r, moves[..|moves| - 1], id);
      RunsStaySound(r, moves[..|moves| - 1]);
    }
  }

  lemma {:induction false} LegalPrefix(r: Remote, moves: seq<Move>, k: nat)
    requires Legal(r, moves) && k <= |moves|
    ensures Legal(r, moves[..k])
    ensures k < |moves| ==> Allowed(After(r, moves[..k]), moves[k])
  {
    var n := |moves| - 1;
    if k == |moves| {
      assert moves[..k] == moves;
    } else if k < n {
      LegalPrefix(r, moves[..n], k);
      assert moves[..n][..k] == moves[..k];
    }
  }

  lemma {:induction false} RunAppend(r: Remote, a: seq<Move>, b: seq<Move>)
    ensures After(r, a + b) == After(After(r, a), b)
    ensures Legal(r, a + b) <==> Legal(r, a) && Legal(After(r, a), b)
  {
    if b == [] {
      assert a + b == a;
    } else {
      var n := |b| - 1;
      assert (a + b)[..|a + b| - 1] == a + b[..n];
      RunAppend(r, a, b[..n]);
    }
  }

  /** Whatever became public was promoted for one candidate: with exactly its files, on its tag, at its commit. */
  lemma {:induction false} PromotedExactly(r: Remote, moves: seq<Move>, id: int) returns (k: nat)
    requires Sound(r) && Legal(r, moves)
    requires IsPublic(After(r, moves), id) && !IsPublic(r, id)
    ensures k < |moves| && moves[k].change == Promote(id)
    ensures var c, release := moves[k].candidate, After(r, moves).releases[id];
            && Exact(c.files, release.assets)
            && release.tag == c.version
            && TagReserved(After(r, moves), c)
  {
    var n := |moves| - 1;
    var before, m := After(r, moves[..n]), moves[n];
    RunsStaySound(r, moves[..n]);
    if IsPublic(before, id) {
      k := PromotedExactly(r, moves[..n], id);
      var c := moves[k].candidate;
      PublicIsFrozen(before, [m], id);
      TagsNeverMove(before, [m], c.version);
      assert moves[..n] + [m] == moves;
      RunAppend(r, moves[..n], [m]);
    } else {
      k := n;
    }
  }

  lemma PromotedNow(r: Remote, m: Move)
    requires m.change.Promote? && Allowed(r, m)
    ensures IsPublic(Make(r, m), m.change.id)
    ensures Make(r, m).releases[m.change.id].tag == m.candidate.version
  {
  }

  /** A later promotion sees every version that was public before it. */
  lemma {:induction false} NewerThanPublic(r: Remote, between: seq<Move>, m: Move, id: int)
    requires Sound(r) && Legal(r, between) && IsPublic(r, id)
    requires m.change.Promote? && Allowed(After(r, between), m)
    ensures Later(m.candidate.version, r.releases[id].tag)
  {
    PublicIsFrozen(r, between, id);
  }

  lemma {:induction false} PromotedThenLater(start: Remote, m: Move, between: seq<Move>, last: Move)
    requires Sound(start) && Allowed(start, m) && m.change.Promote? && Legal(Make(start, m), between)
    requires last.change.Promote? && Allowed(After(Make(start, m), between), last)
    ensures Later(last.candidate.version, m.candidate.version)
  {
    PromotedNow(start, m);
    MoveKeepsSound(start, m);
    NewerThanPublic(Make(start, m), between, last, m.change.id);
  }

  lemma {:induction false} SplitAt(r: Remote, before: seq<Move>, m: Move, between: seq<Move>)
    requires Legal(r, before + ([m] + between))
    ensures var next := Make(After(r, before), m);
            Legal(next, between) && After(next, between) == After(r, before + ([m] + between))
  {
    RunAppend(r, before, [m] + between);
    RunAppend(After(r, before), [m], between);
    AfterOne(After(r, before), m);
  }

  /** Versions become public in strictly increasing order. */
  lemma {:induction false} PromotionsIncrease(r: Remote, moves: seq<Move>, i: nat, j: nat)
    requires Sound(r) && Legal(r, moves)
    requires i < j < |moves| && moves[i].change.Promote? && moves[j].change.Promote?
    ensures Later(moves[j].candidate.version, moves[i].candidate.version)
  {
    LegalPrefix(r, moves, i);
    LegalPrefix(r, moves, j);
    RunsStaySound(r, moves[..i]);
    assert moves[..j] == moves[..i] + ([moves[i]] + moves[i + 1..j]);
    SplitAt(r, moves[..i], moves[i], moves[i + 1..j]);
    PromotedThenLater(After(r, moves[..i]), moves[i], moves[i + 1..j], moves[j]);
  }

  lemma {:induction false} AfterOne(r: Remote, m: Move)
    ensures After(r, [m]) == Make(r, m)
    ensures Legal(r, [m]) <==> Allowed(r, m)
  {
    assert [m][..0] == [];
  }

  // ----- one candidate, interrupted any number of times -----

  ghost predicate OwnRelease(c: Candidate, release: Release) {
    && release.prerelease == c.version.beta.Some?
    && (forall a :: a in release.assets ==> OwnFile(c.files, a))
    && (!release.draft ==> Exact(c.files, release.assets))
  }

  /** Everything under the candidate's tag was left there by its own publication. */
  ghost predicate Own(r: Remote, c: Candidate) {
    && (c.version in r.tags ==> r.tags[c.version] == c.sourceSha)
    && (forall id :: id in r.releases && r.releases[id].tag == c.version ==> OwnRelease(c, r.releases[id]))
  }

  ghost predicate MovesOf(c: Candidate, moves: seq<Move>) {
    forall m :: m in moves ==> m.candidate == c
  }

  lemma UntouchedIsOwn(r: Remote, c: Candidate)
    requires Unreleased(r, c.version) && (c.version in r.tags ==> r.tags[c.version] == c.sourceSha)
    ensures Own(r, c)
  {
  }

  lemma MoveStaysOwn(r: Remote, c: Candidate, m: Move)
    requires Sound(r) && Own(r, c) && m.candidate == c && Allowed(r, m)
    ensures Own(Make(r, m), c)
  {
    match m.change
    case DropPartial(id, at) => WithoutKeeps(r.releases[id].assets, at, r.nextId);
    case _ =>
  }

  /** However often it is interrupted, a publication leaves only its own traces. */
  lemma {:induction false} RunsStayOwn(r: Remote, c: Candidate, moves: seq<Move>)
    requires Sound(r) && Own(r, c) && MovesOf(c, moves) && Legal(r, moves)
    ensures Own(After(r, moves), c)
  {
    if moves != [] {
      var n := |moves| - 1;
      assert moves[n] in moves;
      RunsStayOwn(r, c, moves[..n]);
      RunsStaySound(r, moves[..n]);
      MoveStaysOwn(After(r, moves[..n]), c, moves[n]);
    }
  }

  /** `moves` of this candidate lead from `a` to `b`. */
  ghost predicate Leads(a: Remote, c: Candidate, moves: seq<Move>, b: Remote) {
    MovesOf(c, moves) && Legal(a, moves) && After(a, moves) == b
  }

  lemma LeadsOn(a: Remote, c: Candidate, first: seq<Move>, b: Remote, second: seq<Move>, d: Remote)
    requires Leads(a, c, first, b) && Leads(b, c, second, d)
    ensures Leads(a, c, first + second, d)
  {
    RunAppend(a, first, second);
  }

  lemma LeadsOne(a: Remote, c: Candidate, change: Change)
    requires Allowed(a, Move(c, change))
    ensures Leads(a, c, [Move(c, change)], Make(a, Move(c, change)))
  {
    AfterOne(a, Move(c, change));
  }
}
