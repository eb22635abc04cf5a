/** Release versions, assets, and the checks on both. */
module Publication {
  import opened Wrappers

  // ----- versions -----

  /** A stable version, or a numbered beta of it. */
  datatype Version = Version(major: nat, minor: nat, patch: nat, beta: Option<nat>)

  function CompareNumbers(a: nat, b: nat): int {
    if a == b then 0 else if a > b then 1 else -1
  }

  /** Semantic Versioning section 11, for these versions. */
  function CompareVersions(a: Version, b: Version): int {
    if a.major != b.major then CompareNumbers(a.major, b.major)
    else if a.minor != b.minor then CompareNumbers(a.minor, b.minor)
    else if a.patch != b.patch then CompareNumbers(a.patch, b.patch)
    else if a.beta.None? || b.beta.None? then
      if a.beta.None? == b.beta.None? then 0 else if a.beta.Some? then -1 else 1
    else CompareNumbers(a.beta.value, b.beta.value)
  }

  predicate Later(a: Version, b: Version) {
    CompareVersions(a, b) > 0
  }

  lemma VersionsTotallyOrdered(a: Version, b: Version, c: Version)
    ensures CompareVersions(a, b) == -CompareVersions(b, a)
    ensures CompareVersions(a, b) == 0 <==> a == b
    ensures Later(a, b) && Later(b, c) ==> Later(a, c)
  {
  }

  // ----- assets -----

  datatype ReleaseFile = ReleaseFile(name: string, size: nat, sha256: string)

  datatype AssetState = Starter | Uploaded | OtherState

  datatype Asset = Asset(id: int, name: string, size: int, digest: Option<string>, state: AssetState)

  datatype PublicationError =
    | NotReady
    | DuplicateRelease
    | NotCertified
    | DifferentIdentity
    | AssetDiffers(name: string)
    | DuplicateDraftAsset
    | UnrecognizedPartial(name: string)
    | IncompletePublic
    | Superseded(version: Version)
    | Held
    | TagElsewhere
    | ChangelogMissing
    | UploadIncomplete
    | CallFailed

  function Digest(f: ReleaseFile): Option<string> {
    Some("sha256:" + f.sha256)
  }

  predicate Matches(a: Asset, f: ReleaseFile) {
    a.name == f.name && a.size == f.size && a.digest == Digest(f) && a.state == Uploaded
  }

  predicate UniqueNames(files: seq<ReleaseFile>) {
    forall i, j :: 0 <= i < j < |files| ==> files[i].name != files[j].name
  }

  function Find(files: seq<ReleaseFile>, name: string): (wanted: Option<ReleaseFile>)
    ensures wanted.Some? ==> wanted.value in files && wanted.value.name == name
    ensures wanted.None? ==> forall f :: f in files ==> f.name != name
  {
    if files == [] then None
    else if files[0].name == name then Some(files[0])
    else Find(files[1..], name)
  }

  function Names(assets: seq<Asset>): set<string> {
    set a | a in assets :: a.name
  }

  function Missing(files: seq<ReleaseFile>, names: set<string>): seq<ReleaseFile> {
    if files == [] then []
    else (if files[0].name in names then [] else [files[0]]) + Missing(files[1..], names)
  }

  /** The verified files not yet uploaded; any asset that is not one of them is an error. */
  method MissingUploads(expected: seq<ReleaseFile>, actual: seq<Asset>)
    returns (result: Result<seq<ReleaseFile>, PublicationError>)
    requires UniqueNames(expected)
    ensures result.Success? <==> OnlyExpected(expected, actual)
    ensures result.Success? ==> result.value == Missing(expected, Names(actual))
    ensures result.Failure? ==> result.error.AssetDiffers?
  {
    var names: set<string> := {};
    for k := 0 to |actual|
      invariant names == Names(actual[..k])
      invariant OnlyExpected(expected, actual[..k])
    {
      var asset := actual[k];
      var wanted := Find(expected, asset.name);
      assert actual[..k + 1] == actual[..k] + [asset];
      if asset.name in names || wanted.None? || !Matches(asset, wanted.value) {
        if OnlyExpected(expected, actual) {
          ExpectedAt(expected, actual, k);
        }
        return Failure(AssetDiffers(asset.name));
      }
      names := names + {asset.name};
    }
    assert actual[..|actual|] == actual;
    return Success(Missing(expected, names));
  }

  /** Every asset is one of the files, fully uploaded, and none appears twice. */
  ghost predicate OnlyExpected(files: seq<ReleaseFile>, assets: seq<Asset>) {
    && (forall a :: a in assets ==> exists f :: f in files && Matches(a, f))
    && (forall i, j :: 0 <= i < j < |assets| ==> assets[i].name != assets[j].name)
  }

  lemma {:induction false} SameFile(files: seq<ReleaseFile>, f: ReleaseFile)
    requires UniqueNames(files) && f in files
    ensures Find(files, f.name) == Some(f)
  {
    var found := Find(files, f.name).value;
    var i :| 0 <= i < |files| && files[i] == f;
    var j :| 0 <= j < |files| && files[j] == found;
  }

  lemma {:induction false} ExpectedAt(files: seq<ReleaseFile>, assets: seq<Asset>, k: nat)
    requires UniqueNames(files) && k < |assets| && OnlyExpected(files, assets)
    ensures assets[k].name !in Names(assets[..k])
    ensures Find(files, assets[k].name).Some? && Matches(assets[k], Find(files, assets[k].name).value)
  {
    assert assets[k] in assets;
    var f :| f in files && Matches(assets[k], f);
    SameFile(files, f);
  }

  /** The release holds exactly the verified files: by name, size and digest, each once. */
  ghost predicate Exact(files: seq<ReleaseFile>, assets: seq<Asset>) {
    OnlyExpected(files, assets) && forall f :: f in files ==> exists a :: a in assets && Matches(a, f)
  }

  lemma {:induction false} MissingMeaning(files: seq<ReleaseFile>, names: set<string>)
    ensures forall f :: f in Missing(files, names) <==> f in files && f.name !in names
  {
    if files != [] {
      MissingMeaning(files[1..], names);
    }
  }

  lemma CoveredIsExact(files: seq<ReleaseFile>, assets: seq<Asset>)
    requires UniqueNames(files) && OnlyExpected(files, assets)
    requires forall f :: f in files ==> f.name in Names(assets)
    ensures Exact(files, assets)
  {
    forall f | f in files ensures exists a :: a in assets && Matches(a, f) {
      var a :| a in assets && a.name == f.name;
      var g :| g in files && Matches(a, g);
      SameFile(files, f);
      SameFile(files, g);
    }
  }

  /** Nothing missing is what complete means. */
  lemma {:induction false} NothingMissing(files: seq<ReleaseFile>, assets: seq<Asset>)
    requires UniqueNames(files) && OnlyExpected(files, assets)
    ensures Missing(files, Names(assets)) == [] <==> Exact(files, assets)
  {
    MissingMeaning(files, Names(assets));
    var missing := Missing(files, Names(assets));
    if missing == [] {
      assert forall f :: f in files ==> f !in missing;
      CoveredIsExact(files, assets);
    } else {
      assert missing[0] in missing;
    }
  }
}
