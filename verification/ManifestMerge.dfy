/** Which update manifests merge, and into what. */
module ManifestMerge {
  import opened Wrappers
  import opened Sorting
  import opened Sequences
  import opened UpdateManifest
  import ManifestRoundTrip

  datatype MergeError = DifferentVersions | ConflictingFile(url: string) | ConflictingExtra

  /** Names every JavaScript object answers to; `merged[key]` finds them although no manifest has them. */
  const INHERITED: set<string> := {
    "constructor", "hasOwnProperty", "isPrototypeOf", "propertyIsEnumerable", "toLocaleString", "toString", "valueOf",
    "__proto__", "__defineGetter__", "__defineSetter__", "__lookupGetter__", "__lookupSetter__"
  }

  // ----- files -----

  predicate SameContent(f: File, g: File) {
    f.sha512 == g.sha512 && f.size == g.size
  }

  /** Where `url` is among the files, or their number. */
  function At(files: seq<File>, url: string): (k: nat)
    ensures k <= |files| && (k < |files| ==> files[k].url == url)
    ensures forall j :: 0 <= j < k ==> files[j].url != url
  {
    if files == [] || files[0].url == url then 0 else 1 + At(files[1..], url)
  }

  /** A Map keeps the place of a key it already has. */
  function Put(files: seq<File>, f: File): seq<File> {
    var k := At(files, f.url);
    if k < |files| then files[k := f] else files + [f]
  }

  predicate Conflicts(files: seq<File>, f: File) {
    var k := At(files, f.url);
    k < |files| && !SameContent(files[k], f)
  }

  function PutAll(files: seq<File>, more: seq<File>): seq<File> {
    if more == [] then files else Put(PutAll(files, more[..|more| - 1]), more[|more| - 1])
  }

  function MergeFiles(files: seq<File>): Result<seq<File>, MergeError> {
    if files == [] then Success([])
    else
      var f := files[|files| - 1];
      match MergeFiles(files[..|files| - 1])
      case Failure(e) => Failure(e)
      case Success(before) => if Conflicts(before, f) then Failure(ConflictingFile(f.url)) else Success(Put(before, f))
  }

  lemma {:induction false} ConflictStops(files: seq<File>, k: nat)
    requires k <= |files| && MergeFiles(files[..k]).Failure?
    ensures MergeFiles(files) == MergeFiles(files[..k])
  {
    if k < |files| {
      assert files[..|files| - 1][..k] == files[..k];
      ConflictStops(files[..|files| - 1], k);
    } else {
      assert files[..k] == files;
    }
  }

  method CollectFiles(files: seq<File>) returns (result: Result<seq<File>, MergeError>)
    ensures result == MergeFiles(files)
  {
    var filesByUrl: seq<File> := [];
    for i := 0 to |files|
      invariant MergeFiles(files[..i]) == Success(filesByUrl)
    {
      assert files[..i + 1][..i] == files[..i];
      if Conflicts(filesByUrl, files[i]) {
        ConflictStops(files, i + 1);
        return Failure(ConflictingFile(files[i].url));
      }
      filesByUrl := Put(filesByUrl, files[i]);
    }
    assert files[..|files|] == files;
    return Success(filesByUrl);
  }

  // ----- extras -----

  /** `value` can be stored under `key`: nothing else is found there. */
  predicate Fits(extras: map<string, Scalar>, key: string, value: Scalar) {
    if key in extras then extras[key] == value else key !in INHERITED
  }

  predicate AllFit(primary: map<string, Scalar>, secondary: map<string, Scalar>) {
    forall k :: k in secondary ==> Fits(primary, k, secondary[k])
  }

  /** The outcome does not depend on the order in which the entries are stored. */
  method MergeExtras(primary: map<string, Scalar>, secondary: map<string, Scalar>)
    returns (result: Result<map<string, Scalar>, MergeError>)
    ensures result == if AllFit(primary, secondary) then Success(primary + secondary) else Failure(ConflictingExtra)
  {
    var merged := primary;
    var rest := secondary.Keys;
    while rest != {}
      invariant rest <= secondary.Keys
      invariant merged.Keys == primary.Keys + (secondary.Keys - rest)
      invariant forall k :: k in merged ==>
                merged[k] == if k in secondary && k !in rest then secondary[k] else primary[k]
      invariant forall k :: k in secondary && k !in rest ==> Fits(primary, k, secondary[k])
    {
      var key :| key in rest;
      if !Fits(merged, key, secondary[key]) {
        return Failure(ConflictingExtra);
      }
      merged := merged[key := secondary[key]];
      rest := rest - {key};
    }
    assert merged == primary + secondary;
    return Success(merged);
  }

  // ----- manifests -----

  function LaterDate(a: string, b: string): string {
    if LexLess(a, b) then b else a
  }

  function Merge(primary: Manifest, secondary: Manifest): Result<Manifest, MergeError> {
    if primary.version != secondary.version then Failure(DifferentVersions)
    else
      match MergeFiles(primary.files + secondary.files)
      case Failure(e) => Failure(e)
      case Success(files) =>
        if !AllFit(primary.extras, secondary.extras) then Failure(ConflictingExtra)
        else
          Success(Manifest(primary.version, LaterDate(primary.releaseDate, secondary.releaseDate), files,
                           primary.extras + secondary.extras))
  }

  method MergeMacUpdateManifests(primary: Manifest, secondary: Manifest) returns (result: Result<Manifest, MergeError>)
    ensures result == Merge(primary, secondary)
  {
    if primary.version != secondary.version {
      return Failure(DifferentVersions);
    }
    var files := CollectFiles(primary.files + secondary.files);
    if files.Failure? {
      return Failure(files.error);
    }
    var extras := MergeExtras(primary.extras, secondary.extras);
    if extras.Failure? {
      return Failure(extras.error);
    }
    var date := if !LexLess(primary.releaseDate, secondary.releaseDate) then primary.releaseDate
        else secondary.releaseDate;
    return Success(Manifest(primary.version, date, files.value, extras.value));
  }

  // ----- what the file loop computes -----

  ghost predicate UniqueUrls(files: seq<File>) {
    forall i, j :: 0 <= i < j < |files| ==> files[i].url != files[j].url
  }

  /** Files with the same URL have the same digest and size. */
  ghost predicate Agree(files: seq<File>) {
    forall f, g :: f in files && g in files && f.url == g.url ==> SameContent(f, g)
  }

  /** The last record of every URL. */
  function Latest(files: seq<File>): map<string, File> {
    if files == [] then map[] else Latest(files[..|files| - 1])[files[|files| - 1].url := files[|files| - 1]]
  }

  lemma {:induction false} LatestIsListed(files: seq<File>)
    ensures forall u :: u in Latest(files) ==> Latest(files)[u] in files && Latest(files)[u].url == u
    ensures forall f :: f in files ==> f.url in Latest(files)
  {
    if files != [] {
      LatestIsListed(files[..|files| - 1]);
      assert files == files[..|files| - 1] + [files[|files| - 1]];
    }
  }

  lemma {:induction false} LatestOfUnique(files: seq<File>)
    requires UniqueUrls(files)
    ensures forall f :: f in files ==> f.url in Latest(files) && Latest(files)[f.url] == f
  {
    if files != [] {
      var n := |files| - 1;
      LatestOfUnique(files[..n]);
      assert files == files[..n] + [files[n]];
      forall f | f in files[..n] ensures f.url != files[n].url {
        var i :| 0 <= i < n && files[i] == f;
      }
    }
  }

  lemma {:induction false} LatestAppend(a: seq<File>, b: seq<File>)
    ensures Latest(a + b) == Latest(a) + Latest(b)
  {
    if b == [] {
      assert a + b == a;
      assert Latest(a) + map[] == Latest(a);
    } else {
      var n := |b| - 1;
      assert (a + b)[..|a + b| - 1] == a + b[..n];
      LatestAppend(a, b[..n]);
    }
  }

  lemma {:induction false} AtIsFirst(files: seq<File>, url: string, k: nat)
    requires k < |files| && files[k].url == url && forall j :: 0 <= j < k ==> files[j].url != url
    ensures At(files, url) == k
  {
    assert At(files, url) <= k;
  }

  lemma {:induction false} AtMissing(files: seq<File>, url: string)
    requires forall f :: f in files ==> f.url != url
    ensures At(files, url) == |files|
  {
    if files != [] {
      AtMissing(files[1..], url);
    }
  }

  lemma {:induction false} LatestReplaced(files: seq<File>, k: nat, f: File)
    requires UniqueUrls(files) && k < |files| && files[k].url == f.url
    ensures Latest(files[k := f]) == Latest(files)[f.url := f]
  {
    var n := |files| - 1;
    if k == n {
      assert files[k := f][..n] == files[..n];
    } else {
      assert files[k := f][..n] == files[..n][k := f];
      LatestReplaced(files[..n], k, f);
    }
  }

  lemma {:induction false} PutFacts(files: seq<File>, f: File)
    requires UniqueUrls(files)
    ensures UniqueUrls(Put(files, f))
    ensures Latest(Put(files, f)) == Latest(files)[f.url := f]
    ensures forall g :: g in Put(files, f) ==> g in files || g == f
  {
    var k := At(files, f.url);
    if k < |files| {
      LatestReplaced(files, k, f);
    } else {
      assert (files + [f])[..|files|] == files;
    }
  }

  /** Every URL once, with its last record. */
  lemma {:induction false} Collected(more: seq<File>)
    ensures UniqueUrls(PutAll([], more)) && Latest(PutAll([], more)) == Latest(more)
  {
    if more != [] {
      Collected(more[..|more| - 1]);
      PutFacts(PutAll([], more[..|more| - 1]), more[|more| - 1]);
    }
  }

  lemma {:induction false} CollectedMembers(more: seq<File>)
    ensures forall f :: f in PutAll([], more) <==> f.url in Latest(more) && Latest(more)[f.url] == f
  {
    Collected(more);
    LatestOfUnique(PutAll([], more));
    LatestIsListed(PutAll([], more));
  }

  lemma {:induction false} ListedMembers(more: seq<File>)
    ensures forall f :: f in PutAll([], more) ==> f in more
  {
    CollectedMembers(more);
    LatestIsListed(more);
  }

  /** Whether the next file conflicts with what is collected, given that the files before it agree. */
  lemma {:induction false} ConflictMeans(files: seq<File>, f: File)
    requires Agree(files)
    ensures Agree(files + [f]) <==> !Conflicts(PutAll([], files), f)
  {
    var held := PutAll([], files);
    var k := At(held, f.url);
    CollectedMembers(files);
    LatestIsListed(files);
    if k < |held| {
      assert held[k] in held && held[k] in files;
      if SameContent(held[k], f) {
        forall g | g in files && g.url == f.url ensures SameContent(g, f) {
          assert SameContent(g, held[k]);
        }
      } else {
        assert held[k] in files + [f] && f in files + [f];
      }
    } else {
      forall g | g in files ensures g.url != f.url {
        assert Latest(files)[g.url] in held;
      }
    }
  }

  lemma AgreePrefix(files: seq<File>, f: File)
    requires Agree(files + [f])
    ensures Agree(files)
  {
    forall g, h | g in files && h in files && g.url == h.url ensures SameContent(g, h) {
      assert g in files + [f] && h in files + [f];
    }
  }

  /** The file loop succeeds exactly when files with the same URL have the same content. */
  lemma {:induction false} FilesMerge(files: seq<File>)
    ensures MergeFiles(files).Success? <==> Agree(files)
    ensures MergeFiles(files).Success? ==> MergeFiles(files).value == PutAll([], files)
  {
    if files != [] {
      var n := |files| - 1;
      assert files == files[..n] + [files[n]];
      FilesMerge(files[..n]);
      if Agree(files[..n]) {
        ConflictMeans(files[..n], files[n]);
      } else if Agree(files) {
        AgreePrefix(files[..n], files[n]);
      }
    }
  }

  // ----- which manifests merge, and into what -----

  /** Extras both manifests have are equal. */
  ghost predicate SharedEqual(a: map<string, Scalar>, b: map<string, Scalar>) {
    forall k :: k in a && k in b ==> a[k] == b[k]
  }

  /** The merge would store an inherited name that the first manifest lacks. */
  ghost predicate AddsInherited(a: set<string>, b: set<string>) {
    (b - a) * INHERITED != {}
  }

  /** Nothing in the two manifests contradicts the other. */
  ghost predicate Compatible(a: Manifest, b: Manifest) {
    a.version == b.version && Agree(a.files + b.files) && SharedEqual(a.extras, b.extras)
  }

  lemma NotBoth(x: set<string>, y: set<string>, k: string)
    requires x * y == {} && k in x
    ensures k !in y
  {
    assert k in y ==> k in x * y;
  }

  lemma FitMeans(a: map<string, Scalar>, b: map<string, Scalar>)
    ensures AllFit(a, b) <==> SharedEqual(a, b) && !AddsInherited(a.Keys, b.Keys)
  {
    if AddsInherited(a.Keys, b.Keys) {
      var k :| k in (b.Keys - a.Keys) * INHERITED;
      assert !Fits(a, k, b[k]);
    } else {
      forall k | k in b && k !in a ensures k !in INHERITED {
        NotBoth(b.Keys - a.Keys, INHERITED, k);
      }
    }
    if AllFit(a, b) {
      forall k | k in a && k in b ensures a[k] == b[k] {
        assert Fits(a, k, b[k]);
      }
    }
  }

  /** Exactly when two manifests merge, and the whole result. */
  lemma MergeMeaning(a: Manifest, b: Manifest)
    ensures Merge(a, b).Success? <==> Compatible(a, b) && !AddsInherited(a.extras.Keys, b.extras.Keys)
    ensures Merge(a, b).Success? ==>
              Merge(a, b).value == Manifest(a.version, LaterDate(a.releaseDate, b.releaseDate),
                                            PutAll([], a.files + b.files), a.extras + b.extras)
  {
    FilesMerge(a.files + b.files);
    FitMeans(a.extras, b.extras);
  }

  /** A record with the same URL and content. */
  ghost predicate HasLike(files: seq<File>, f: File) {
    exists g :: g in files && g.url == f.url && SameContent(f, g)
  }

  lemma KeptRecord(files: seq<File>, f: File) returns (g: File)
    requires Agree(files) && f in files
    ensures g in PutAll([], files) && g.url == f.url && SameContent(f, g)
  {
    LatestIsListed(files);
    CollectedMembers(files);
    g := Latest(files)[f.url];
  }

  /** The merged manifest is the union of the two: one record per URL, with the content both sides know. */
  lemma MergeIsUnion(a: Manifest, b: Manifest)
    requires Merge(a, b).Success?
    ensures var m := Merge(a, b).value;
            && m.version == a.version == b.version
            && m.releaseDate in {a.releaseDate, b.releaseDate}
            && !LexLess(m.releaseDate, a.releaseDate) && !LexLess(m.releaseDate, b.releaseDate)
            && UniqueUrls(m.files)
            && (forall g :: g in m.files ==> g in a.files || g in b.files)
            && (forall f :: f in a.files || f in b.files ==> HasLike(m.files, f))
            && m.extras.Keys == a.extras.Keys + b.extras.Keys
            && (forall k :: k in a.extras ==> m.extras[k] == a.extras[k])
            && (forall k :: k in b.extras ==> m.extras[k] == b.extras[k])
  {
    var both := a.files + b.files;
    MergeMeaning(a, b);
    LexTrichotomy(a.releaseDate, b.releaseDate);
    LexTrichotomy(a.releaseDate, a.releaseDate);
    LexTrichotomy(b.releaseDate, b.releaseDate);
    Collected(both);
    ListedMembers(both);
    forall f | f in a.files || f in b.files
      ensures HasLike(PutAll([], both), f)
    {
      assert f in both;
      var g := KeptRecord(both, f);
    }
  }

  // ----- equal up to the order of the files -----

  ghost predicate SameUpToOrder(m: Manifest, n: Manifest) {
    m.version == n.version && m.releaseDate == n.releaseDate && m.extras == n.extras
        && multiset(m.files) == multiset(n.files)
  }

  ghost predicate SameOutcome(m: Result<Manifest, MergeError>, n: Result<Manifest, MergeError>) {
    if m.Success? && n.Success? then SameUpToOrder(m.value, n.value) else m.Failure? && n.Failure?
  }

  lemma {:induction false} OnlyOnce(files: seq<File>, f: File)
    requires UniqueUrls(files)
    ensures multiset(files)[f] == if f in files then 1 else 0
  {
    if files != [] {
      var n := |files| - 1;
      OnlyOnce(files[..n], f);
      assert files == files[..n] + [files[n]];
      if f in files[..n] {
        var i :| 0 <= i < n && files[i] == f;
      }
    }
  }

  lemma {:induction false} LatestOneWay(a: seq<File>, b: seq<File>)
    requires multiset(PutAll([], a)) == multiset(PutAll([], b))
    ensures forall u :: u in Latest(a) ==> u in Latest(b) && Latest(b)[u] == Latest(a)[u]
  {
    CollectedMembers(a);
    CollectedMembers(b);
    LatestIsListed(a);
    forall u | u in Latest(a) ensures u in Latest(b) && Latest(b)[u] == Latest(a)[u] {
      var f := Latest(a)[u];
      assert f in PutAll([], a);
      assert f in multiset(PutAll([], b));
      assert f in PutAll([], b);
    }
  }

  lemma {:induction false} SameLatest(a: seq<File>, b: seq<File>)
    requires Latest(a) == Latest(b)
    ensures multiset(PutAll([], a)) == multiset(PutAll([], b))
  {
    var x, y := PutAll([], a), PutAll([], b);
    Collected(a);
    Collected(b);
    CollectedMembers(a);
    CollectedMembers(b);
    forall f ensures multiset(x)[f] == multiset(y)[f] {
      OnlyOnce(x, f);
      OnlyOnce(y, f);
    }
  }

  lemma {:induction false} SameRecords(a: seq<File>, b: seq<File>)
    ensures multiset(PutAll([], a)) == multiset(PutAll([], b)) <==> Latest(a) == Latest(b)
  {
    if Latest(a) == Latest(b) {
      SameLatest(a, b);
    }
    if multiset(PutAll([], a)) == multiset(PutAll([], b)) {
      LatestOneWay(a, b);
      LatestOneWay(b, a);
    }
  }

  // ----- commutativity -----

  /** The records of a shared URL also have the same block map size; nothing compares it. */
  ghost predicate SameShared(a: seq<File>, b: seq<File>) {
    forall u :: u in Latest(a) && u in Latest(b) ==> Latest(a)[u] == Latest(b)[u]
  }

  lemma AgreeSwaps(a: seq<File>, b: seq<File>)
    ensures Agree(a + b) ==> Agree(b + a)
  {
    forall f | f in b + a ensures f in a + b {
    }
  }

  lemma LaterDateSwaps(a: string, b: string)
    ensures LaterDate(a, b) == LaterDate(b, a)
  {
    LexTrichotomy(a, b);
  }

  lemma OverrideSwaps<K, V>(x: map<K, V>, y: map<K, V>)
    ensures x + y == y + x <==> forall k :: k in x && k in y ==> x[k] == y[k]
  {
    if x + y == y + x {
      forall k | k in x && k in y ensures x[k] == y[k] {
        assert (x + y)[k] == y[k] && (y + x)[k] == x[k];
      }
    }
  }

  lemma {:induction false} LatestSwaps(a: seq<File>, b: seq<File>)
    ensures Latest(a + b) == Latest(b + a) <==> SameShared(a, b)
  {
    LatestAppend(a, b);
    LatestAppend(b, a);
    OverrideSwaps(Latest(a), Latest(b));
  }

  /** What two orders of merging return, given that both succeed. */
  lemma BothOrders(a: Manifest, b: Manifest)
    requires Merge(a, b).Success? && Merge(b, a).Success?
    ensures SameUpToOrder(Merge(a, b).value, Merge(b, a).value) <==> SameShared(a.files, b.files)
  {
    MergeMeaning(a, b);
    MergeMeaning(b, a);
    LaterDateSwaps(a.releaseDate, b.releaseDate);
    LatestSwaps(a.files, b.files);
    SameRecords(a.files + b.files, b.files + a.files);
    OverrideSwaps(a.extras, b.extras);
  }

  lemma CompatibleSwaps(a: Manifest, b: Manifest)
    ensures Compatible(a, b) <==> Compatible(b, a)
  {
    AgreeSwaps(a.files, b.files);
    AgreeSwaps(b.files, a.files);
  }

  lemma MergesExactly(a: Manifest, b: Manifest)
    ensures Merge(a, b).Success? <==> Compatible(a, b) && !AddsInherited(a.extras.Keys, b.extras.Keys)
  {
    MergeMeaning(a, b);
  }

  /**
   * Merging commutes up to file order, except that an inherited name on one side only makes exactly one
   * of the two orders fail, and that the second manifest's block map size wins.
   */
  lemma MergeCommutes(a: Manifest, b: Manifest)
    ensures SameOutcome(Merge(a, b), Merge(b, a)) <==>
            (Compatible(a, b) ==>
               && (AddsInherited(a.extras.Keys, b.extras.Keys) <==> AddsInherited(b.extras.Keys, a.extras.Keys))
               && (AddsInherited(a.extras.Keys, b.extras.Keys) || SameShared(a.files, b.files)))
  {
    MergesExactly(a, b);
    MergesExactly(b, a);
    CompatibleSwaps(a, b);
    if Merge(a, b).Success? && Merge(b, a).Success? {
      BothOrders(a, b);
    }
  }

  ghost predicate NoBlockMaps(m: Manifest) {
    forall f :: f in m.files ==> f.blockMapSize.None?
  }

  ghost predicate NothingInherited(m: Manifest) {
    m.extras.Keys * INHERITED == {}
  }

  /** What the macOS reader returns never has a block map size. */
  lemma ReadHasNoBlockMaps(lines: seq<string>)
    ensures ParseMacLines(lines).Success? ==> NoBlockMaps(ParseMacLines(lines).value)
  {
    ManifestRoundTrip.ReaderProduces(lines);
  }

  lemma {:induction false} LatestRecord(files: seq<File>, u: string)
    requires u in Latest(files)
    ensures Latest(files)[u] in files && Latest(files)[u].url == u
  {
    LatestIsListed(files);
  }

  lemma SameRecord(a: Manifest, b: Manifest, f: File, g: File)
    requires NoBlockMaps(a) && NoBlockMaps(b) && Agree(a.files + b.files)
    requires f in a.files && g in b.files && f.url == g.url
    ensures f == g
  {
    assert f in a.files + b.files && g in a.files + b.files;
  }

  lemma ShareSameRecords(a: Manifest, b: Manifest)
    requires NoBlockMaps(a) && NoBlockMaps(b) && Agree(a.files + b.files)
    ensures SameShared(a.files, b.files)
  {
    forall u | u in Latest(a.files) && u in Latest(b.files) ensures Latest(a.files)[u] == Latest(b.files)[u] {
      LatestRecord(a.files, u);
      LatestRecord(b.files, u);
      SameRecord(a, b, Latest(a.files)[u], Latest(b.files)[u]);
    }
  }

  /** Without inherited names, manifests as the macOS reader returns them merge the same in both orders. */
  lemma ReadManifestsCommute(a: Manifest, b: Manifest)
    requires NoBlockMaps(a) && NoBlockMaps(b) && NothingInherited(a) && NothingInherited(b)
    ensures SameOutcome(Merge(a, b), Merge(b, a))
  {
    MergeCommutes(a, b);
    NothingToAdd(a.extras.Keys, b.extras.Keys);
    NothingToAdd(b.extras.Keys, a.extras.Keys);
    if Compatible(a, b) {
      ShareSameRecords(a, b);
    }
  }

  lemma NothingToAdd(a: set<string>, b: set<string>)
    ensures b * INHERITED == {} ==> !AddsInherited(a, b)
  {
    if AddsInherited(a, b) {
      var k :| k in (b - a) * INHERITED;
      assert k in b * INHERITED;
    }
  }

  /** One extra named `constructor`: the arm64 manifest may have it, the x64 manifest may not. */
  lemma InheritedNameBreaksOrder(plain: Manifest)
    requires plain.extras == map[] && Agree(plain.files + plain.files)
    ensures var named := plain.(extras := map["constructor" := Bool(true)]);
            Merge(named, plain).Success? && Merge(plain, named).Failure?
  {
    var named := plain.(extras := map["constructor" := Bool(true)]);
    MergeMeaning(named, plain);
    MergeMeaning(plain, named);
    assert "constructor" in (named.extras.Keys - plain.extras.Keys) * INHERITED;
    assert plain.extras.Keys - named.extras.Keys == {};
  }

  // ----- idempotence -----

  lemma {:induction false} PutAllAppend(files: seq<File>, a: seq<File>, b: seq<File>)
    ensures PutAll(files, a + b) == PutAll(PutAll(files, a), b)
  {
    if b == [] {
      assert a + b == a;
    } else {
      assert (a + b)[..|a + b| - 1] == a + b[..|b| - 1];
      PutAllAppend(files, a, b[..|b| - 1]);
    }
  }

  lemma PutNew(files: seq<File>, f: File)
    requires UniqueUrls(files + [f])
    ensures Put(files, f) == files + [f] && UniqueUrls(files)
  {
    var all := files + [f];
    forall g | g in files ensures g.url != f.url {
      var i :| 0 <= i < |files| && files[i] == g;
      assert all[i].url != all[|files|].url;
    }
    assert forall i :: 0 <= i < |files| ==> files[i] == all[i];
    AtMissing(files, f.url);
  }

  lemma {:induction false} PutAllUnique(files: seq<File>)
    requires UniqueUrls(files)
    ensures PutAll([], files) == files
  {
    if files != [] {
      var n := |files| - 1;
      assert files == files[..n] + [files[n]];
      PutNew(files[..n], files[n]);
      PutAllUnique(files[..n]);
    }
  }

  lemma {:induction false} PutKnown(files: seq<File>, more: seq<File>)
    requires UniqueUrls(files) && forall f :: f in more ==> f in files
    ensures PutAll(files, more) == files
  {
    if more != [] {
      var n := |more| - 1;
      PutKnown(files, more[..n]);
      assert more[n] in files;
      var k :| 0 <= k < |files| && files[k] == more[n];
      AtIsFirst(files, more[n].url, k);
    }
  }

  /** Merging a manifest with itself gives it back exactly when no URL occurs twice. */
  lemma MergeIsIdempotent(m: Manifest)
    ensures Merge(m, m) == Success(m) <==> UniqueUrls(m.files)
  {
    MergeMeaning(m, m);
    Collected(m.files + m.files);
    assert m.extras + m.extras == m.extras;
    if UniqueUrls(m.files) {
      forall f, g | f in m.files + m.files && g in m.files + m.files && f.url == g.url ensures SameContent(f, g) {
        LatestOfUnique(m.files);
        assert Latest(m.files)[f.url] == f && Latest(m.files)[g.url] == g;
      }
      PutAllAppend([], m.files, m.files);
      PutAllUnique(m.files);
      PutKnown(m.files, m.files);
      assert !AddsInherited(m.extras.Keys, m.extras.Keys);
    }
  }

  // ----- associativity -----

  function Then(first: Result<Manifest, MergeError>, c: Manifest): Result<Manifest, MergeError> {
    match first
    case Failure(e) => Failure(e)
    case Success(m) => Merge(m, c)
  }

  function After(a: Manifest, rest: Result<Manifest, MergeError>): Result<Manifest, MergeError> {
    match rest
    case Failure(e) => Failure(e)
    case Success(m) => Merge(a, m)
  }

  lemma PutTwice(files: seq<File>, f: File, g: File)
    requires f.url == g.url
    ensures Put(Put(files, f), g) == Put(files, g)
  {
    var k := At(files, f.url);
    AtIsFirst(Put(files, f), g.url, k);
  }

  /** Replacing a listed record and putting another one can be done in either order. */
  lemma {:induction false} PutSwaps(files: seq<File>, f: File, g: File)
    requires f.url != g.url && At(files, f.url) < |files|
    ensures Put(Put(files, f), g) == Put(Put(files, g), f)
  {
    var i, j := At(files, f.url), At(files, g.url);
    AtIsFirst(Put(files, g), f.url, i);
    if j < |files| {
      AtIsFirst(Put(files, f), g.url, j);
    } else {
      AtMissing(files[i := f], g.url);
    }
  }

  lemma {:induction false} PutStays(files: seq<File>, f: File, url: string)
    ensures At(files, url) < |files| || f.url == url ==> At(Put(files, f), url) < |Put(files, f)|
  {
    var k := At(files, f.url);
    assert Put(files, f)[k] == f;
    if At(files, url) < |files| && f.url != url {
      assert Put(files, f)[At(files, url)].url == url;
    }
  }

  lemma {:induction false} ListedAfterPutAll(files: seq<File>, more: seq<File>, k: nat)
    requires k < |more|
    ensures At(PutAll(files, more), more[k].url) < |PutAll(files, more)|
  {
    var n := |more| - 1;
    if k < n {
      ListedAfterPutAll(files, more[..n], k);
    }
    PutStays(PutAll(files, more[..n]), more[n], more[k].url);
  }

  /** Replacing record `k` before putting the list is putting the replacement last. */
  lemma {:induction false} PutReplaced(files: seq<File>, more: seq<File>, k: nat, f: File)
    requires UniqueUrls(more) && k < |more| && more[k].url == f.url
    ensures PutAll(files, more[k := f]) == Put(PutAll(files, more), f)
  {
    var n := |more| - 1;
    var before := PutAll(files, more[..n]);
    if k == n {
      assert more[k := f][..n] == more[..n];
      PutTwice(before, more[n], f);
    } else {
      assert more[k := f][..n] == more[..n][k := f];
      PutReplaced(files, more[..n], k, f);
      ListedAfterPutAll(files, more[..n], k);
      PutSwaps(before, f, more[n]);
    }
  }

  /** Putting a collected list is the same as putting every record of it. */
  lemma {:induction false} PutCollected(files: seq<File>, more: seq<File>)
    ensures PutAll(files, PutAll([], more)) == PutAll(files, more)
  {
    if more != [] {
      var f := more[|more| - 1];
      var held := PutAll([], more[..|more| - 1]);
      PutCollected(files, more[..|more| - 1]);
      Collected(more[..|more| - 1]);
      var k := At(held, f.url);
      if k < |held| {
        PutReplaced(files, held, k, f);
      } else {
        assert (held + [f])[..|held|] == held;
      }
    }
  }

  lemma {:induction false} CollectFirst(a: seq<File>, b: seq<File>)
    ensures PutAll([], PutAll([], a) + b) == PutAll([], a + b)
  {
    PutAllAppend([], PutAll([], a), b);
    PutCollected([], a);
    PutAllAppend([], a, b);
  }

  lemma {:induction false} CollectSecond(a: seq<File>, b: seq<File>)
    ensures PutAll([], a + PutAll([], b)) == PutAll([], a + b)
  {
    PutAllAppend([], a, PutAll([], b));
    PutCollected(PutAll([], a), b);
    PutAllAppend([], a, b);
  }

  lemma {:induction false} FilesAssociate(a: seq<File>, b: seq<File>, c: seq<File>)
    ensures PutAll([], PutAll([], a + b) + c) == PutAll([], a + b + c)
    ensures PutAll([], a + PutAll([], b + c)) == PutAll([], a + b + c)
  {
    CollectFirst(a + b, c);
    CollectSecond(a, b + c);
    Regroup(a, b, c);
  }

  lemma AgreeWithin(all: seq<File>, some: seq<File>)
    requires Agree(all) && forall f :: f in some ==> f in all
    ensures Agree(some)
  {
  }

  /** A list that stands for `all`: its records are among them and every one of them has its like. */
  ghost predicate Represents(some: seq<File>, all: seq<File>) {
    (forall f :: f in some ==> f in all) && (forall f :: f in all ==> HasLike(some, f))
  }

  lemma LikesAgree(files: seq<File>, f: File, g: File)
    requires Agree(files) && HasLike(files, f) && HasLike(files, g) && f.url == g.url
    ensures SameContent(f, g)
  {
    var x :| x in files && x.url == f.url && SameContent(f, x);
    var y :| y in files && y.url == g.url && SameContent(g, y);
    assert SameContent(x, y);
  }

  lemma AgreeRepresented(some: seq<File>, all: seq<File>)
    requires Represents(some, all)
    ensures Agree(some) <==> Agree(all)
  {
    if Agree(all) {
      AgreeWithin(all, some);
    }
    if Agree(some) {
      forall f, g | f in all && g in all && f.url == g.url ensures SameContent(f, g) {
        LikesAgree(some, f, g);
      }
    }
  }

  lemma {:induction false} CollectedRepresents(before: seq<File>, files: seq<File>, after: seq<File>)
    requires Agree(files)
    ensures Represents(before + PutAll([], files) + after, before + files + after)
  {
    var some, all := before + PutAll([], files) + after, before + files + after;
    ListedMembers(files);
    forall f | f in all ensures HasLike(some, f) {
      if f in files {
        var g := KeptRecord(files, f);
        assert g in some;
      } else {
        assert f in some;
      }
    }
  }

  lemma {:induction false} AgreeCollected(before: seq<File>, files: seq<File>, after: seq<File>)
    ensures Agree(files) && Agree(before + PutAll([], files) + after) <==> Agree(before + files + after)
  {
    if Agree(before + files + after) {
      AgreeWithin(before + files + after, files);
    }
    if Agree(files) {
      CollectedRepresents(before, files, after);
      AgreeRepresented(before + PutAll([], files) + after, before + files + after);
    }
  }

  lemma {:induction false} AgreeAssociates(a: seq<File>, b: seq<File>, c: seq<File>)
    ensures Agree(a + b) && Agree(PutAll([], a + b) + c) <==> Agree(a + b + c)
    ensures Agree(b + c) && Agree(a + PutAll([], b + c)) <==> Agree(a + b + c)
  {
    AgreeCollected([], a + b, c);
    Padded(PutAll([], a + b));
    Padded(a + b);
    AgreeCollected(a, b + c, []);
    Padded(a + PutAll([], b + c));
    Padded(a + (b + c));
    Regroup(a, b, c);
  }

  lemma SharedAssociates(a: map<string, Scalar>, b: map<string, Scalar>, c: map<string, Scalar>)
    ensures SharedEqual(a, b) && SharedEqual(a + b, c) <==> SharedEqual(a, b) && SharedEqual(b, c) && SharedEqual(a, c)
    ensures SharedEqual(b, c) && SharedEqual(a, b + c) <==> SharedEqual(a, b) && SharedEqual(b, c) && SharedEqual(a, c)
  {
    if SharedEqual(a, b) && SharedEqual(a + b, c) {
      assert forall k :: k in a && k in c ==> (a + b)[k] == a[k];
      assert forall k :: k in b && k in c ==> (a + b)[k] == b[k];
    }
    if SharedEqual(b, c) && SharedEqual(a, b + c) {
      assert forall k :: k in a && k in c ==> (b + c)[k] == c[k];
      assert forall k :: k in a && k in b ==> (b + c)[k] == b[k];
    }
  }

  lemma AddsAssociates(a: set<string>, b: set<string>, c: set<string>)
    ensures AddsInherited(a, b) || AddsInherited(a + b, c) <==> AddsInherited(a, b + c)
  {
    assert (b - a) * INHERITED + (c - (a + b)) * INHERITED == (b + c - a) * INHERITED;
  }

  lemma LaterDateAssociates(a: string, b: string, c: string)
    ensures LaterDate(LaterDate(a, b), c) == LaterDate(a, LaterDate(b, c))
  {
    LexTrichotomy(a, b);
    LexTrichotomy(b, c);
    LexTrichotomy(a, c);
    if LexLess(a, b) && LexLess(b, c) {
      LexTransitive(a, b, c);
    }
    if !LexLess(a, b) && a != b && LexLess(a, c) {
      LexTransitive(b, a, c);
    }
  }

  ghost predicate AllCompatible(a: Manifest, b: Manifest, c: Manifest) {
    && a.version == b.version == c.version
    && Agree(a.files + b.files + c.files)
    && SharedEqual(a.extras, b.extras) && SharedEqual(b.extras, c.extras) && SharedEqual(a.extras, c.extras)
  }

  function Union(a: Manifest, b: Manifest, c: Manifest): Manifest {
    Manifest(a.version, LaterDate(a.releaseDate, LaterDate(b.releaseDate, c.releaseDate)),
             PutAll([], a.files + b.files + c.files), a.extras + b.extras + c.extras)
  }

  lemma LeftFirst(a: Manifest, b: Manifest, c: Manifest)
    ensures Then(Merge(a, b), c).Success? <==>
            AllCompatible(a, b, c) && !AddsInherited(a.extras.Keys, b.extras.Keys + c.extras.Keys)
    ensures Then(Merge(a, b), c).Success? ==> Then(Merge(a, b), c).value == Union(a, b, c)
  {
    MergeMeaning(a, b);
    AgreeAssociates(a.files, b.files, c.files);
    SharedAssociates(a.extras, b.extras, c.extras);
    AddsAssociates(a.extras.Keys, b.extras.Keys, c.extras.Keys);
    if Merge(a, b).Success? {
      MergeMeaning(Merge(a, b).value, c);
      FilesAssociate(a.files, b.files, c.files);
      LaterDateAssociates(a.releaseDate, b.releaseDate, c.releaseDate);
    }
  }

  lemma RightFirst(a: Manifest, b: Manifest, c: Manifest)
    ensures After(a, Merge(b, c)).Success? <==>
            && AllCompatible(a, b, c) && !AddsInherited(a.extras.Keys, b.extras.Keys + c.extras.Keys)
            && !AddsInherited(b.extras.Keys, c.extras.Keys)
    ensures After(a, Merge(b, c)).Success? ==> After(a, Merge(b, c)).value == Union(a, b, c)
  {
    MergeMeaning(b, c);
    AgreeAssociates(a.files, b.files, c.files);
    SharedAssociates(a.extras, b.extras, c.extras);
    if Merge(b, c).Success? {
      MergeMeaning(a, Merge(b, c).value);
      FilesAssociate(a.files, b.files, c.files);
      RegroupMaps(a.extras, b.extras, c.extras);
    }
  }

  /**
   * Merging associates, order of the files included: both bracketings succeed or fail together with the same
   * manifest, unless an inherited name of the third manifest is missing from the second but not from the first.
   */
  lemma MergeAssociates(a: Manifest, b: Manifest, c: Manifest)
    ensures (Then(Merge(a, b), c).Success? <==> After(a, Merge(b, c)).Success?) <==>
            !(&& AllCompatible(a, b, c) && !AddsInherited(a.extras.Keys, b.extras.Keys + c.extras.Keys)
              && AddsInherited(b.extras.Keys, c.extras.Keys))
    ensures Then(Merge(a, b), c).Success? && After(a, Merge(b, c)).Success? ==>
              Then(Merge(a, b), c) == After(a, Merge(b, c))
  {
    LeftFirst(a, b, c);
    RightFirst(a, b, c);
  }

  // ----- round trip -----

  /** Merging keeps manifests well formed, so the merged manifest survives printing and reading. */
  lemma MergedReadsBack(a: Manifest, b: Manifest)
    requires ManifestRoundTrip.WellFormed(a) && ManifestRoundTrip.WellFormed(b) && Merge(a, b).Success?
    ensures ManifestRoundTrip.WellFormed(Merge(a, b).value)
    ensures ManifestRoundTrip.ParseMac(ManifestRoundTrip.Print(Merge(a, b).value)) == Success(Merge(a, b).value)
  {
    var m := Merge(a, b).value;
    MergeIsUnion(a, b);
    assert m.files != [] by {
      assert a.files[0] in a.files;
    }
    forall f | f in m.files ensures ManifestRoundTrip.WellFormedFile(f) {
    }
    forall k | k in m.extras ensures ManifestRoundTrip.WellFormedExtra(k, m.extras[k]) {
    }
    ManifestRoundTrip.ParseUndoesPrint(m);
  }
}
