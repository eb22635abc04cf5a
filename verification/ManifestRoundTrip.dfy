/**
 * Parsing undoes printing, exactly for well-formed manifests: what each printed line does to the reader,
 * what all of them do, and what every manifest that was read satisfies.
 */
module ManifestRoundTrip {
  import opened Wrappers
  import opened JsText
  import opened Decimals
  import opened UpdateManifest
  import opened ManifestText

  type Outcome = Result<State, ManifestError>

  // ----- one printed line at a time -----

  /** How a plain field reads back. */
  function Reread(x: string): string {
    StripSingleQuotes(Trim(x))
  }

  function ReadFile(f: File): PendingFile {
    PendingFile(Reread(f.url), Some(Reread(f.sha512)), Some(f.size), None)
  }

  function ReadRecord(f: File): File {
    File(Reread(f.url), Reread(f.sha512), f.size, None)
  }

  predicate Readable(f: File) {
    Trim(f.url) != [] && Trim(f.sha512) != [] && AllDigits(NumberText(f.size))
  }

  predicate Complete(current: Option<PendingFile>) {
    current.Some? ==> current.value.sha512.Some? && current.value.size.Some?
  }

  /** The state once a pending entry has been moved to the files. */
  function Settled(s: State): State {
    if s.current.Some? && Complete(s.current) then
      var c := s.current.value;
      s.(files := s.files + [File(c.url, c.sha512.value, c.size.value, c.blockMapSize)], current := None)
    else s
  }

  lemma FinalizeIsSettled(s: State, line: nat)
    ensures Finalize(s, line) == if Complete(s.current) then Success(Settled(s)) else Failure(IncompleteFileEntry(line))
  {
  }

  // ----- what kind of line a printed field is -----

  lemma OtherPrefix(prefix: string, line: string, k: nat)
    requires k < |prefix| && k < |line| && prefix[k] != line[k]
    ensures After(prefix, line).None? && DigitsAfter(prefix, line).None?
  {
  }

  /** An indented line that is no file field is unsupported, or a block map. */
  lemma IndentedUnsupported(line: string)
    requires line != [] && line[0] == ' '
    requires After("  - url:", line).None? && After("    sha512:", line).None? && DigitsAfter("    size:", line).None?
    ensures Classify(line).Unsupported? || Classify(line).FileBlockMap?
  {
    assert KeyPrefix(line) == 0;
  }

  predicate Rejected(kind: Line) {
    kind.Unsupported? || kind.FileBlockMap?
  }

  lemma {:induction false} UrlLine(x: string)
    requires SingleLine(x)
    ensures var kind := Classify(TrimEnd("  - url: " + x));
            if Trim(x) == [] then Rejected(kind) else kind == FileUrl(Trim(x))
  {
    assert "  - url:" + " " + x == "  - url: " + x;
    AfterPrinted("  - url:", x);
    var line := TrimEnd("  - url: " + x);
    if Trim(x) == [] {
      OtherPrefix("    sha512:", line, 2);
      OtherPrefix("    size:", line, 2);
      IndentedUnsupported(line);
    }
  }

  lemma {:induction false} ShaLine(x: string)
    requires SingleLine(x)
    ensures var kind := Classify(TrimEnd("    sha512: " + x));
            if Trim(x) == [] then Rejected(kind) else kind == FileSha(Trim(x))
  {
    assert "    sha512:" + " " + x == "    sha512: " + x;
    AfterPrinted("    sha512:", x);
    var line := TrimEnd("    sha512: " + x);
    OtherPrefix("  - url:", line, 2);
    if Trim(x) == [] {
      OtherPrefix("    size:", line, 5);
      IndentedUnsupported(line);
    }
  }

  lemma {:induction false} SizeLine(x: string)
    requires SingleLine(x) && Trim(x) == x && x != []
    ensures var kind := Classify(TrimEnd("    size: " + x));
            if AllDigits(x) then kind == FileSize(x) else Rejected(kind)
  {
    assert "    size:" + " " + x == "    size: " + x;
    AfterPrinted("    size:", x);
    var line := TrimEnd("    size: " + x);
    OtherPrefix("  - url:", line, 2);
    OtherPrefix("    sha512:", line, 5);
    if !AllDigits(x) {
      IndentedUnsupported(line);
    }
  }

  lemma {:induction false} KeyPrefixRuns(key: string, rest: string)
    requires forall c :: c in key ==> IsLetter(c) || IsDigit(c)
    requires rest != [] && rest[0] == ':'
    ensures KeyPrefix(key + rest) == |key|
  {
    if key == [] {
      assert key + rest == rest;
    } else {
      assert key[0] in key && (key + rest)[1..] == key[1..] + rest;
      KeyPrefixRuns(key[1..], rest);
    }
  }

  /** A line that begins with a letter is no file field. */
  lemma LetterLine(line: string)
    requires line != [] && IsLetter(line[0]) && line != "files:"
    ensures Classify(line)
        == (if TopLevel(line).Some? then Entry(TopLevel(line).value.0, TopLevel(line).value.1) else Unsupported)
  {
    OtherPrefix("  - url:", line, 0);
    OtherPrefix("    sha512:", line, 0);
    OtherPrefix("    size:", line, 0);
    OtherPrefix("    blockMapSize:", line, 0);
  }

  lemma TopLevelOf(key: string, line: string)
    requires IsKey(key) && key + ":" <= line
    ensures TopLevel(line) == var text := After(key + ":", line); if text.None? then None else Some((key, text.value))
  {
    var rest := line[|key|..];
    assert line[|key|] == (key + ":")[|key|];
    assert line == key + rest && rest[0] == ':';
    KeyPrefixRuns(key, rest);
    assert line[..|key| + 1] == key + ":" && line[..|key|] == key;
  }

  lemma NotFilesHeader(key: string, line: string)
    requires key + ":" <= line && (key == "files" ==> |line| > 6)
    ensures line != "files:"
  {
    var colon := |key|;
    assert line[colon] == (key + ":")[colon] == ':' && line[..colon] == key;
    assert "files:"[..5] == "files";
  }

  lemma {:induction false} EntryLine(key: string, x: string)
    requires IsKey(key) && SingleLine(x) && (key == "files" ==> Trim(x) != [])
    ensures Classify(TrimEnd(key + ": " + x)) == if Trim(x) == [] then Unsupported else Entry(key, Trim(x))
  {
    var prefix := key + ":";
    assert prefix + " " + x == key + ": " + x;
    AfterPrinted(prefix, x);
    var line := TrimEnd(key + ": " + x);
    TrimFacts(x);
    assert line[0] == key[0];
    NotFilesHeader(key, line);
    TopLevelOf(key, line);
    LetterLine(line);
  }

  // ----- runs of lines -----

  lemma {:induction false} RunAppend(start: Outcome, a: seq<string>, b: seq<string>, first: nat, step: Step)
    ensures Run(start, a + b, first, step) == Run(Run(start, a, first, step), b, first + |a|, step)
  {
    if b == [] {
      assert a + b == a;
    } else {
      var n := |b| - 1;
      assert (a + b)[..|a + b| - 1] == a + b[..n];
      RunAppend(start, a, b[..n], first, step);
    }
  }

  lemma {:induction false} RunOne(s: State, line: string, first: nat, step: Step)
    ensures Run(Success(s), [line], first, step) == step(s, line, first)
  {
    assert [line][..0] == [];
  }

  lemma {:induction false} RunFails(e: ManifestError, lines: seq<string>, first: nat, step: Step)
    ensures Run(Failure(e), lines, first, step) == Failure(e)
  {
    if lines != [] {
      RunFails(e, lines[..|lines| - 1], first, step);
    }
  }

  lemma RejectFails(s: State, kind: Line, number: nat)
    requires Rejected(kind) && (kind.FileBlockMap? ==> AllDigits(kind.digits))
    ensures Apply(s, kind, number, false).Failure?
  {
  }

  lemma UrlStep(s: State, x: string, number: nat)
    requires SingleLine(x)
    ensures var next := LineStep(s, "  - url: " + x, number, false);
            && (next.Success? <==> Trim(x) != [] && Complete(s.current))
            && (next.Success? ==>
                  next.value == Settled(s).(current := Some(PendingFile(Reread(x), None, None, None)), inFiles := true))
  {
    UrlLine(x);
    TrimFacts(x);
    FinalizeIsSettled(s, number);
    if Trim(x) == [] {
      RejectFails(s, Classify(TrimEnd("  - url: " + x)), number);
    }
  }

  lemma ShaStep(s: State, x: string, number: nat)
    requires SingleLine(x) && s.current.Some?
    ensures var next := LineStep(s, "    sha512: " + x, number, false);
            && (next.Success? <==> Trim(x) != [])
            && (next.Success? ==> next.value == s.(current := Some(s.current.value.(sha512 := Some(Reread(x))))))
  {
    ShaLine(x);
    TrimFacts(x);
    if Trim(x) == [] {
      RejectFails(s, Classify(TrimEnd("    sha512: " + x)), number);
    }
  }

  lemma SizeStep(s: State, n: JsNumber, number: nat)
    requires s.current.Some?
    ensures var next := LineStep(s, "    size: " + NumberText(n), number, false);
            && (next.Success? <==> AllDigits(NumberText(n)))
            && (next.Success? ==> next.value == s.(current := Some(s.current.value.(size := Some(n)))))
  {
    var x := NumberText(n);
    NumberTextChars(n);
    NumberTextIsBare(x);
    SizeText(n);
    SizeLine(x);
    if !AllDigits(x) {
      RejectFails(s, Classify(TrimEnd("    size: " + x)), number);
    }
  }

  /** The lines of one file settle the entry before it and leave its own pending. */
  lemma {:induction false} FileBlock(s: State, f: File, first: nat)
    requires SingleLine(f.url) && SingleLine(f.sha512)
    ensures BlockDone(s, f, Run(Success(s), FileLines(f), first, Reader(false)))
  {
    var step := Reader(false);
    var url, sha, size := "  - url: " + f.url, "    sha512: " + f.sha512, "    size: " + NumberText(f.size);
    assert FileLines(f) == ([url] + [sha]) + [size];
    RunAppend(Success(s), [url] + [sha], [size], first, step);
    RunAppend(Success(s), [url], [sha], first, step);
    RunOne(s, url, first, step);
    UrlStep(s, f.url, first);
    var one := step(s, url, first);
    if one.Failure? {
      RunFails(one.error, [sha], first + 1, step);
      RunFails(one.error, [size], first + 2, step);
    } else {
      RunOne(one.value, sha, first + 1, step);
      ShaStep(one.value, f.sha512, first + 1);
      var two := step(one.value, sha, first + 1);
      if two.Failure? {
        RunFails(two.error, [size], first + 2, step);
      } else {
        RunOne(two.value, size, first + 2, step);
        SizeStep(two.value, f.size, first + 2);
      }
    }
  }

  predicate SingleLineFiles(files: seq<File>) {
    forall f :: f in files ==> SingleLine(f.url) && SingleLine(f.sha512)
  }

  predicate AllReadable(files: seq<File>) {
    files == [] || (AllReadable(files[..|files| - 1]) && Readable(files[|files| - 1]))
  }

  function ReadRecords(files: seq<File>): seq<File> {
    if files == [] then [] else ReadRecords(files[..|files| - 1]) + [ReadRecord(files[|files| - 1])]
  }

  /** What the file lines leave behind: every record but the last, which is pending. */
  function AfterFiles(s: State, files: seq<File>): State {
    if files == [] then s
    else
      var n := |files| - 1;
      s.(files := s.files + ReadRecords(files[..n]), current := Some(ReadFile(files[n])), inFiles := true)
  }

  predicate BlockDone(s: State, f: File, next: Outcome) {
    && (next.Success? <==> Readable(f) && Complete(s.current))
    && (next.Success? ==> next.value == Settled(s).(current := Some(ReadFile(f)), inFiles := true))
  }

  predicate BlocksDone(s: State, files: seq<File>, next: Outcome) {
    && (next.Success? <==> AllReadable(files))
    && (next.Success? ==> next.value == AfterFiles(s, files))
  }

  lemma NextBlock(s: State, files: seq<File>, before: Outcome, after: Outcome)
    requires files != [] && s.current.None?
    requires BlocksDone(s, files[..|files| - 1], before)
    requires before.Failure? ==> after == before
    requires before.Success? ==> BlockDone(before.value, files[|files| - 1], after)
    ensures BlocksDone(s, files, after)
  {
    SettledAfterFiles(s, files[..|files| - 1]);
  }

  /** What FileBlock says of the reader, said of any step function. */
  ghost predicate HandlesFiles(step: Step) {
    forall s: State, f: File, first: nat :: SingleLine(f.url) && SingleLine(f.sha512) ==>
      BlockDone(s, f, Run(Success(s), FileLines(f), first, step))
  }

  lemma TwoParts(s: State, a: seq<string>, b: seq<string>, first: nat, step: Step)
    returns (before: Outcome, after: Outcome)
    ensures before == Run(Success(s), a, first, step)
    ensures after == Run(Success(s), a + b, first, step)
    ensures before.Failure? ==> after == before
    ensures before.Success? ==> after == Run(Success(before.value), b, first + |a|, step)
  {
    before, after := Run(Success(s), a, first, step), Run(Success(s), a + b, first, step);
    RunAppend(Success(s), a, b, first, step);
    if before.Failure? {
      RunFails(before.error, b, first + |a|, step);
    }
  }

  lemma {:induction false} FileBlocks(s: State, files: seq<File>, first: nat, step: Step)
    requires SingleLineFiles(files) && s.current.None? && HandlesFiles(step)
    ensures BlocksDone(s, files, Run(Success(s), AllFileLines(files), first, step))
  {
    if files != [] {
      FileBlocks(s, files[..|files| - 1], first, step);
      var before, after := TwoParts(s, AllFileLines(files[..|files| - 1]), FileLines(files[|files| - 1]), first, step);
      NextBlock(s, files, before, after);
    }
  }

  lemma {:induction false} SettledAfterFiles(s: State, files: seq<File>)
    requires s.current.None?
    ensures Complete(AfterFiles(s, files).current)
    ensures Settled(AfterFiles(s, files)) ==
            s.(files := s.files + ReadRecords(files), inFiles := s.inFiles || files != [])
  {
    if files != [] {
      var n := |files| - 1;
      assert s.files + (ReadRecords(files[..n]) + [ReadRecord(files[n])])
          == s.files + ReadRecords(files[..n]) + [ReadRecord(files[n])];
    } else {
      assert s.files + ReadRecords(files) == s.files;
    }
  }

  // ----- top-level lines -----

  /** Once outside the list of files. */
  function Left(s: State): State {
    (if s.inFiles then Settled(s) else s).(inFiles := false)
  }

  predicate CanLeave(s: State) {
    s.inFiles ==> Complete(s.current)
  }

  lemma LeavesSettled(s: State, number: nat)
    requires CanLeave(s)
    ensures LeaveFiles(s, number) == Success(Left(s))
  {
    FinalizeIsSettled(s, number);
  }

  lemma TrimmedReads(x: string)
    ensures ParseScalarValue(Trim(x)) == ParseScalarValue(x)
  {
    TrimFacts(x);
  }

  lemma EntryApplies(s: State, key: string, raw: string, number: nat)
    requires CanLeave(s)
    ensures Apply(s, Entry(key, raw), number, false) == StoreEntry(Left(s), key, ParseScalarValue(raw), number)
  {
    LeavesSettled(s, number);
  }

  lemma EntryStep(s: State, key: string, x: string, number: nat)
    requires IsKey(key) && SingleLine(x) && Trim(x) != [] && CanLeave(s)
    ensures LineStep(s, key + ": " + x, number, false) == StoreEntry(Left(s), key, ParseScalarValue(x), number)
  {
    EntryLine(key, x);
    EntryApplies(s, key, Trim(x), number);
    TrimmedReads(x);
  }

  lemma BlankEntryFails(s: State, key: string, x: string, number: nat)
    requires IsKey(key) && SingleLine(x) && Trim(x) == [] && key != "files"
    ensures LineStep(s, key + ": " + x, number, false).Failure?
  {
    EntryLine(key, x);
  }

  predicate ExtraKey(key: string) {
    IsKey(key) && key != "version" && key != "releaseDate"
  }

  function Reparsed(value: Scalar): Scalar {
    ParseScalarValue(SerializeScalarValue(value))
  }

  function WithExtra(s: State, key: string, value: Scalar): State {
    Left(s).(extras := s.extras[key := value])
  }

  lemma ExtraStep(s: State, key: string, value: Scalar, number: nat)
    requires ExtraKey(key) && SingleLineScalar(value) && CanLeave(s)
    ensures Reader(false)(s, ExtraLine(key, value), number) == Success(WithExtra(s, key, Reparsed(value)))
  {
    ScalarReadsBack(value);
    EntryStep(s, key, SerializeScalarValue(value), number);
  }

  /** What ExtraStep says of the reader, said of any step function. */
  ghost predicate HandlesExtras(step: Step, read: Scalar -> Scalar) {
    forall s: State, key: string, value: Scalar, number: nat ::
      ExtraKey(key) && SingleLineScalar(value) && CanLeave(s) ==>
        step(s, ExtraLine(key, value), number) == Success(WithExtra(s, key, read(value)))
  }

  predicate PrintableExtras(extras: map<string, Scalar>) {
    forall k :: k in extras ==> ExtraKey(k) && SingleLineScalar(extras[k])
  }

  function AfterExtras(s: State, keys: seq<string>, extras: map<string, Scalar>, read: Scalar -> Scalar): State
    requires forall k :: k in keys ==> k in extras
  {
    if keys == [] then s
    else
      var n := |keys| - 1;
      WithExtra(AfterExtras(s, keys[..n], extras, read), keys[n], read(extras[keys[n]]))
  }

  lemma {:induction false} ExtraBlocks(s: State, keys: seq<string>, extras: map<string, Scalar>, first: nat,
                                       step: Step, read: Scalar -> Scalar)
    requires (forall k :: k in keys ==> k in extras) && PrintableExtras(extras) && CanLeave(s)
        && HandlesExtras(step, read)
    ensures Run(Success(s), ExtraLines(keys, extras), first, step) == Success(AfterExtras(s, keys, extras, read))
    ensures CanLeave(AfterExtras(s, keys, extras, read))
  {
    if keys != [] {
      var n := |keys| - 1;
      var key := keys[n];
      var init, line := ExtraLines(keys[..n], extras), ExtraLine(key, extras[key]);
      ExtraBlocks(s, keys[..n], extras, first, step, read);
      var before := AfterExtras(s, keys[..n], extras, read);
      RunAppend(Success(s), init, [line], first, step);
      RunOne(before, line, first + |init|, step);
      assert key in extras;
    }
  }

  /** The values at the given keys, each read back. */
  function ReadBack(keys: seq<string>, extras: map<string, Scalar>, read: Scalar -> Scalar): map<string, Scalar>
    requires forall k :: k in keys ==> k in extras
  {
    map k | k in keys :: read(extras[k])
  }

  lemma ReadBackNext(base: map<string, Scalar>, keys: seq<string>, extras: map<string, Scalar>, read: Scalar -> Scalar)
    requires keys != [] && forall k :: k in keys ==> k in extras
    ensures var n := |keys| - 1;
            base + ReadBack(keys, extras, read)
                == (base + ReadBack(keys[..n], extras, read))[keys[n] := read(extras[keys[n]])]
  {
    var n := |keys| - 1;
    assert keys == keys[..n] + [keys[n]];
  }

  lemma LeftOfExtra(s: State, key: string, value: Scalar)
    ensures Left(WithExtra(s, key, value)) == Left(s).(extras := Left(s).extras[key := value])
  {
  }

  /** All extras read back, over those already there. */
  lemma {:induction false} LeftAfterExtras(s: State, keys: seq<string>, extras: map<string, Scalar>,
                                           read: Scalar -> Scalar)
    requires forall k :: k in keys ==> k in extras
    ensures Left(AfterExtras(s, keys, extras, read)) == Left(s).(extras := s.extras + ReadBack(keys, extras, read))
  {
    if keys == [] {
      assert s.extras + ReadBack([], extras, read) == s.extras;
    } else {
      var n := |keys| - 1;
      LeftAfterExtras(s, keys[..n], extras, read);
      ReadBackNext(s.extras, keys, extras, read);
      LeftOfExtra(AfterExtras(s, keys[..n], extras, read), keys[n], read(extras[keys[n]]));
    }
  }

  lemma ReaderHandlesAll()
    ensures HandlesFiles(Reader(false)) && HandlesExtras(Reader(false), Reparsed)
  {
    forall s: State, f: File, first: nat | SingleLine(f.url) && SingleLine(f.sha512)
      ensures BlockDone(s, f, Run(Success(s), FileLines(f), first, Reader(false)))
    {
      FileBlock(s, f, first);
    }
    forall s: State, key: string, value: Scalar, number: nat | ExtraKey(key) && SingleLineScalar(value) && CanLeave(s)
      ensures Reader(false)(s, ExtraLine(key, value), number) == Success(WithExtra(s, key, Reparsed(value)))
    {
      ExtraStep(s, key, value, number);
    }
  }

  lemma VersionStep(version: string)
    requires SingleLine(version)
    ensures var next, value := Reader(false)(START, "version: " + version, 1), ParseScalarValue(version);
            if Trim(version) != [] && value.Str? then next == Success(START.(version := Some(value.text)))
            else next.Failure?
  {
    assert "version" + ": " + version == "version: " + version;
    if Trim(version) == [] {
      BlankEntryFails(START, "version", version, 1);
    } else {
      EntryStep(START, "version", version, 1);
      assert Left(START) == START;
    }
  }

  lemma FilesHeaderStep(s: State, number: nat)
    ensures Reader(false)(s, "files:", number) == Success(s.(inFiles := true))
  {
    var line := "files:";
    assert line[5] == ':' && TrimEnd(line) == line;
    OtherPrefix("  - url:", line, 0);
    OtherPrefix("    sha512:", line, 0);
    OtherPrefix("    size:", line, 0);
    OtherPrefix("    blockMapSize:", line, 0);
  }

  lemma DateStep(s: State, date: string, number: nat)
    requires SingleLine(date) && CanLeave(s)
    ensures Reader(false)(s, "releaseDate: " + QuoteYamlString(date), number)
        == Success(Left(s).(releaseDate := Some(date)))
  {
    var text := QuoteYamlString(date);
    assert "releaseDate" + ": " + text == "releaseDate: " + text;
    StringReadsBack(date);
    EntryStep(s, "releaseDate", text, number);
  }

  lemma BlankStep(s: State, number: nat)
    ensures Reader(false)(s, "", number) == Success(s)
  {
  }

  // ----- the whole manifest -----

  function ParseMac(raw: string): Result<Manifest, ManifestError> {
    ParseMacLines(SplitLines(raw))
  }

  function Print(m: Manifest): string {
    JoinLines(ManifestLines(m))
  }

  /** Every field prints on one line, under a key the reader accepts. */
  predicate Printable(m: Manifest) {
    && SingleLine(m.version) && SingleLine(m.releaseDate)
    && SingleLineFiles(m.files) && PrintableExtras(m.extras)
  }

  predicate Accepted(m: Manifest) {
    && Trim(m.version) != [] && ParseScalarValue(m.version).Str? && ParseScalarValue(m.version).text != []
    && m.releaseDate != [] && m.files != [] && AllReadable(m.files)
  }

  function ReadExtras(m: Manifest, read: Scalar -> Scalar): map<string, Scalar> {
    SortedKeysHave(m.extras.Keys);
    ReadBack(SortedKeys(m.extras.Keys), m.extras, read)
  }

  /** A printed manifest as it reads back. */
  function Reprinted(m: Manifest): Manifest
    requires Accepted(m)
  {
    Manifest(ParseScalarValue(m.version).text, m.releaseDate, ReadRecords(m.files), ReadExtras(m, Reparsed))
  }

  /** The state after `version:` and `files:`. */
  function Header(version: string): State {
    START.(version := Some(version), inFiles := true)
  }

  lemma HeaderRun(version: string)
    requires SingleLine(version)
    ensures var next, value := Run(Success(START), ["version: " + version, "files:"], 1, Reader(false)),
        ParseScalarValue(version);
            if Trim(version) != [] && value.Str? then next == Success(Header(value.text)) else next.Failure?
  {
    var one, two := "version: " + version, "files:";
    assert [one] + [two] == [one, two];
    RunAppend(Success(START), [one], [two], 1, Reader(false));
    RunOne(START, one, 1, Reader(false));
    VersionStep(version);
    var next := Reader(false)(START, one, 1);
    if next.Failure? {
      RunFails(next.error, [two], 2, Reader(false));
    } else {
      RunOne(next.value, two, 2, Reader(false));
      FilesHeaderStep(next.value, 2);
    }
  }

  lemma {:induction false} TailRun(s: State, date: string, first: nat)
    requires SingleLine(date) && CanLeave(s)
    ensures Run(Success(s), ["releaseDate: " + QuoteYamlString(date), ""], first, Reader(false)) ==
            Success(Left(s).(releaseDate := Some(date)))
  {
    var line := "releaseDate: " + QuoteYamlString(date);
    assert [line] + [""] == [line, ""];
    RunAppend(Success(s), [line], [""], first, Reader(false));
    RunOne(s, line, first, Reader(false));
    DateStep(s, date, first);
    var next := Left(s).(releaseDate := Some(date));
    RunOne(next, "", first + 1, Reader(false));
    BlankStep(next, first + 1);
  }

  function HeadLines(m: Manifest): seq<string> {
    ["version: " + m.version, "files:"]
  }

  function TailLines(m: Manifest): seq<string> {
    ["releaseDate: " + QuoteYamlString(m.releaseDate), ""]
  }

  function ExtrasPart(m: Manifest): seq<string> {
    SortedKeysHave(m.extras.Keys);
    ExtraLines(SortedKeys(m.extras.Keys), m.extras)
  }

  function AfterBody(s: State, m: Manifest, read: Scalar -> Scalar): State {
    SortedKeysHave(m.extras.Keys);
    AfterExtras(AfterFiles(s, m.files), SortedKeys(m.extras.Keys), m.extras, read)
  }

  /** `next` succeeds exactly when `ok`, and then with `after`. */
  predicate Reaches(next: Outcome, ok: bool, after: State) {
    (next.Success? <==> ok) && (ok ==> next.value == after)
  }

  lemma {:induction false} Then(s: State, a: seq<string>, b: seq<string>, first: nat, step: Step,
                                ok: bool, mid: State, final: State)
    requires Reaches(Run(Success(s), a, first, step), ok, mid)
    requires Run(Success(mid), b, first + |a|, step) == Success(final)
    ensures Reaches(Run(Success(s), a + b, first, step), ok, final)
  {
    var before, after := TwoParts(s, a, b, first, step);
  }

  lemma {:induction false} BodyRun(m: Manifest, s: State, first: nat, step: Step, read: Scalar -> Scalar)
    requires Printable(m) && s.current.None? && HandlesFiles(step) && HandlesExtras(step, read)
    ensures Reaches(Run(Success(s), AllFileLines(m.files) + ExtrasPart(m), first, step), AllReadable(m.files),
        AfterBody(s, m, read))
    ensures CanLeave(AfterBody(s, m, read))
  {
    SortedKeysHave(m.extras.Keys);
    FileBlocks(s, m.files, first, step);
    SettledAfterFiles(s, m.files);
    var files := AllFileLines(m.files);
    ExtraBlocks(AfterFiles(s, m.files), SortedKeys(m.extras.Keys), m.extras, first + |files|, step, read);
    Then(s, files, ExtrasPart(m), first, step, AllReadable(m.files), AfterFiles(s, m.files), AfterBody(s, m, read));
  }

  /** The state at the end of a printed manifest. */
  function FinalState(version: string, m: Manifest, read: Scalar -> Scalar): State {
    State(ReadRecords(m.files), ReadExtras(m, read), Some(version), Some(m.releaseDate), false, None)
  }

  lemma BodyLeft(version: string, m: Manifest, read: Scalar -> Scalar)
    ensures Left(AfterBody(Header(version), m, read)).(releaseDate := Some(m.releaseDate))
        == FinalState(version, m, read)
  {
    SortedKeysHave(m.extras.Keys);
    var s := Header(version);
    LeftAfterExtras(AfterFiles(s, m.files), SortedKeys(m.extras.Keys), m.extras, read);
    SettledAfterFiles(s, m.files);
    var extras := ReadExtras(m, read);
    assert s.files + ReadRecords(m.files) == ReadRecords(m.files) && s.extras + extras == extras;
  }

  /** What TailRun says of the reader, said of any step function. */
  ghost predicate HandlesTail(step: Step, m: Manifest) {
    forall s: State, first: nat :: CanLeave(s) ==>
      Run(Success(s), TailLines(m), first, step) == Success(Left(s).(releaseDate := Some(m.releaseDate)))
  }

  lemma {:induction false} Around(head: seq<string>, body: seq<string>, tail: seq<string>, step: Step,
                                  s: State, ok: bool, mid: State, final: State)
    requires Run(Success(START), head, 1, step) == Success(s)
    requires Reaches(Run(Success(s), body, 1 + |head|, step), ok, mid)
    requires Run(Success(mid), tail, 1 + |head| + |body|, step) == Success(final)
    ensures Reaches(Run(Success(START), head + body + tail, 1, step), ok, final)
  {
    var one, two := TwoParts(START, head, body, 1, step);
    Then(START, head + body, tail, 1, step, ok, mid, final);
  }

  lemma {:induction false} PartsRun(m: Manifest, head: seq<string>, version: string, step: Step, read: Scalar -> Scalar)
    requires Printable(m) && HandlesFiles(step) && HandlesExtras(step, read) && HandlesTail(step, m)
    requires Run(Success(START), head, 1, step) == Success(Header(version))
    ensures Reaches(Run(Success(START), head + (AllFileLines(m.files) + ExtrasPart(m)) + TailLines(m), 1, step),
                    AllReadable(m.files), FinalState(version, m, read))
  {
    BodyRun(m, Header(version), 1 + |head|, step, read);
    BodyLeft(version, m, read);
    Around(head, AllFileLines(m.files) + ExtrasPart(m), TailLines(m), step, Header(version), AllReadable(m.files),
           AfterBody(Header(version), m, read), FinalState(version, m, read));
  }

  lemma {:induction false} HeadFails(head: seq<string>, body: seq<string>, tail: seq<string>, step: Step)
    requires Run(Success(START), head, 1, step).Failure?
    ensures Run(Success(START), head + body + tail, 1, step).Failure?
  {
    var one, two := TwoParts(START, head, body, 1, step);
    var _, three := TwoParts(START, head + body, tail, 1, step);
  }

  lemma ManifestRun(m: Manifest)
    requires Printable(m)
    ensures var next, value := Run(Success(START), ManifestLines(m), 1, Reader(false)), ParseScalarValue(m.version);
            && (next.Success? <==> Trim(m.version) != [] && value.Str? && AllReadable(m.files))
            && (next.Success? ==> next.value == FinalState(value.text, m, Reparsed))
  {
    var step := Reader(false);
    assert ManifestLines(m) == HeadLines(m) + (AllFileLines(m.files) + ExtrasPart(m)) + TailLines(m);
    HeaderRun(m.version);
    ReaderHandlesAll();
    forall s: State, first: nat | CanLeave(s)
      ensures Run(Success(s), TailLines(m), first, step) == Success(Left(s).(releaseDate := Some(m.releaseDate)))
    {
      TailRun(s, m.releaseDate, first);
    }
    if Run(Success(START), HeadLines(m), 1, step).Success? {
      PartsRun(m, HeadLines(m), ParseScalarValue(m.version).text, step, Reparsed);
    } else {
      HeadFails(HeadLines(m), AllFileLines(m.files) + ExtrasPart(m), TailLines(m), step);
    }
  }

  // ----- what the reader can produce -----

  predicate WholeSize(n: JsNumber) {
    !n.negative && n.fraction == []
  }

  predicate ReadableFile(f: File) {
    SingleLine(f.url) && SingleLine(f.sha512) && WholeSize(f.size) && f.blockMapSize.None?
  }

  predicate ReadableFiles(files: seq<File>) {
    forall f :: f in files ==> ReadableFile(f)
  }

  predicate ReadablePending(c: PendingFile) {
    && SingleLine(c.url) && c.blockMapSize.None?
    && (c.sha512.Some? ==> SingleLine(c.sha512.value))
    && (c.size.Some? ==> WholeSize(c.size.value))
  }

  predicate Producible(s: State) {
    && (forall f :: f in s.files ==> ReadableFile(f))
    && (s.current.Some? ==> ReadablePending(s.current.value))
    && (s.version.Some? ==> SingleLine(s.version.value))
    && (s.releaseDate.Some? ==> SingleLine(s.releaseDate.value))
    && PrintableExtras(s.extras)
  }

  lemma RereadSingleLine(x: string)
    requires SingleLine(x)
    ensures SingleLine(Reread(x))
  {
    TrimFacts(x);
    var t := Trim(x);
    if QuotedEnds(t) && |t| > 1 {
      UndoubleShrinks(t[1..|t| - 1]);
    }
  }

  lemma ParsedScalarSingleLine(x: string)
    requires SingleLine(x)
    ensures SingleLineScalar(ParseScalarValue(x))
  {
    TrimFacts(x);
    var t := Trim(x);
    if QuotedEnds(t) && |t| >= 2 {
      UndoubleShrinks(t[1..|t| - 1]);
    }
  }

  predicate SingleLineKind(kind: Line) {
    && (kind.FileUrl? || kind.FileSha? ==> SingleLine(kind.text))
    && (kind.Entry? ==> SingleLine(kind.raw) && IsKey(kind.key))
    && (kind.FileSize? || kind.FileBlockMap? ==> AllDigits(kind.digits))
  }

  lemma ClassifiedIsSingleLine(line: string)
    ensures SingleLineKind(Classify(line))
  {
  }

  lemma SettledKeepsProducible(s: State)
    requires Producible(s)
    ensures Producible(Settled(s))
  {
  }

  lemma EntryKeepsProducible(s: State, key: string, raw: string, number: nat)
    requires Producible(s) && SingleLine(raw) && IsKey(key)
    ensures var next := Apply(s, Entry(key, raw), number, false); next.Success? ==> Producible(next.value)
  {
    ParsedScalarSingleLine(raw);
    FinalizeIsSettled(s, number);
    SettledKeepsProducible(s);
    var left := LeaveFiles(s, number);
    if left.Success? {
      StoreKeepsProducible(left.value, key, ParseScalarValue(raw), number);
    }
  }

  lemma StoreKeepsProducible(s: State, key: string, value: Scalar, number: nat)
    requires Producible(s) && SingleLineScalar(value) && IsKey(key)
    ensures var next := StoreEntry(s, key, value, number); next.Success? ==> Producible(next.value)
  {
  }

  lemma UrlKeepsProducible(s: State, text: string, number: nat)
    requires Producible(s) && SingleLine(text)
    ensures var next := Apply(s, FileUrl(text), number, false); next.Success? ==> Producible(next.value)
  {
    RereadSingleLine(text);
    FinalizeIsSettled(s, number);
    SettledKeepsProducible(s);
  }

  lemma ApplyKeepsProducible(s: State, kind: Line, number: nat)
    requires Producible(s) && SingleLineKind(kind)
    ensures var next := Apply(s, kind, number, false); next.Success? ==> Producible(next.value)
  {
    match kind
    case FileUrl(text) => UrlKeepsProducible(s, text, number);
    case FileSha(text) => RereadSingleLine(text);
    case Entry(key, raw) => EntryKeepsProducible(s, key, raw, number);
    case _ =>
  }

  ghost predicate KeepsProducible(step: Step) {
    forall s: State, line: string, number: nat :: Producible(s) && step(s, line, number).Success? ==>
      Producible(step(s, line, number).value)
  }

  lemma ReaderKeepsProducible()
    ensures KeepsProducible(Reader(false))
  {
    forall s: State, line: string, number: nat | Producible(s) && Reader(false)(s, line, number).Success?
      ensures Producible(Reader(false)(s, line, number).value)
    {
      ClassifiedIsSingleLine(TrimEnd(line));
      ApplyKeepsProducible(s, Classify(TrimEnd(line)), number);
    }
  }

  lemma {:induction false} RunKeepsProducible(s: State, lines: seq<string>, first: nat, step: Step)
    requires Producible(s) && KeepsProducible(step)
    ensures var next := Run(Success(s), lines, first, step); next.Success? ==> Producible(next.value)
  {
    if lines != [] {
      RunKeepsProducible(s, lines[..|lines| - 1], first, step);
    }
  }

  /** What every manifest the macOS reader returns satisfies. */
  predicate Produced(m: Manifest) {
    && SingleLine(m.version) && m.version != []
    && SingleLine(m.releaseDate) && m.releaseDate != []
    && m.files != [] && ReadableFiles(m.files)
    && PrintableExtras(m.extras) && "path" !in m.extras && "sha512" !in m.extras
  }

  lemma ReaderProduces(lines: seq<string>)
    ensures ParseMacLines(lines).Success? ==> Produced(ParseMacLines(lines).value)
  {
    ReaderKeepsProducible();
    RunKeepsProducible(START, lines, 1, Reader(false));
    var last := Run(Success(START), lines, 1, Reader(false));
    if last.Success? {
      FinalizeIsSettled(last.value, |lines|);
      SettledKeepsProducible(last.value);
    }
  }

  // ----- the round trip -----

  /** A field written without quotes: visible at both ends, on one line, not quoted. */
  predicate PlainField(s: string) {
    s != [] && Trimmed(s) && SingleLine(s) && !QuotedEnds(s)
  }

  /**
   * A version is written without quotes too, and must not look like a boolean or a number; a lone quote is harmless.
   */
  predicate PlainVersion(s: string) {
    && s != [] && Trimmed(s) && SingleLine(s) && !(QuotedEnds(s) && |s| >= 2)
    && s != "true" && s != "false" && !NumberLike(s)
  }

  predicate WellFormedFile(f: File) {
    PlainField(f.url) && PlainField(f.sha512) && WholeSize(f.size) && f.size.whole < Power10(21) && f.blockMapSize.None?
  }

  predicate AllWellFormed(files: seq<File>) {
    forall f :: f in files ==> WellFormedFile(f)
  }

  predicate WellFormedExtra(key: string, value: Scalar) {
    && IsKey(key) && key !in {"version", "releaseDate", "path", "sha512"}
    && (value.Str? ==> SingleLine(value.text))
    && (value.Num? ==> Plain(value.number))
  }

  predicate WellFormed(m: Manifest) {
    && PlainVersion(m.version)
    && m.releaseDate != [] && SingleLine(m.releaseDate)
    && m.files != [] && AllWellFormed(m.files)
    && (forall k :: k in m.extras ==> WellFormedExtra(k, m.extras[k]))
  }

  lemma FieldSurvives(x: string)
    requires SingleLine(x)
    ensures PlainField(x) <==> Trim(x) != [] && Reread(x) == x
  {
    TrimFacts(x);
    var t := Trim(x);
    if QuotedEnds(t) && |t| > 1 {
      UndoubleShrinks(t[1..|t| - 1]);
    }
  }

  lemma VersionSurvives(x: string)
    requires SingleLine(x)
    ensures PlainVersion(x) <==> Trim(x) != [] && ParseScalarValue(x) == Str(x)
  {
    TrimFacts(x);
    var t := Trim(x);
    if QuotedEnds(t) && |t| >= 2 {
      UndoubleShrinks(t[1..|t| - 1]);
    }
  }

  lemma FileSurvives(f: File)
    requires ReadableFile(f)
    ensures WellFormedFile(f) <==> Readable(f) && ReadRecord(f) == f
  {
    FieldSurvives(f.url);
    FieldSurvives(f.sha512);
    SizeText(f.size);
  }

  lemma LastWellFormed(files: seq<File>, f: File)
    ensures AllWellFormed(files + [f]) <==> AllWellFormed(files) && WellFormedFile(f)
  {
    assert forall g :: g in files + [f] <==> g in files || g == f;
  }

  lemma SameLast<T>(a: seq<T>, x: T, b: seq<T>, y: T)
    requires |a| == |b|
    ensures a + [x] == b + [y] <==> a == b && x == y
  {
    if a + [x] == b + [y] {
      assert (a + [x])[..|a|] == a && (b + [y])[..|b|] == b;
      assert (a + [x])[|a|] == x && (b + [y])[|b|] == y;
    }
  }

  lemma {:induction false} FilesSurvive(files: seq<File>)
    requires ReadableFiles(files)
    ensures AllWellFormed(files) <==> AllReadable(files) && ReadRecords(files) == files
    ensures |ReadRecords(files)| == |files|
  {
    if files != [] {
      var before, f := files[..|files| - 1], files[|files| - 1];
      assert files == before + [f];
      FilesSurvive(before);
      assert f in files;
      FileSurvives(f);
      LastWellFormed(before, f);
      SameLast(ReadRecords(before), ReadRecord(f), before, f);
    }
  }

  lemma ExtraSurvives(key: string, value: Scalar)
    requires ExtraKey(key) && SingleLineScalar(value) && key != "path" && key != "sha512"
    ensures WellFormedExtra(key, value) <==> Reparsed(value) == value
  {
    ScalarReadsBack(value);
  }

  lemma ReadBackIsSame(m: Manifest, read: Scalar -> Scalar)
    ensures ReadExtras(m, read).Keys == m.extras.Keys
    ensures ReadExtras(m, read) == m.extras <==> forall k :: k in m.extras ==> read(m.extras[k]) == m.extras[k]
  {
    SortedKeysHave(m.extras.Keys);
    var back := ReadExtras(m, read);
    assert back.Keys == m.extras.Keys;
    assert forall k :: k in m.extras ==> back[k] == read(m.extras[k]);
  }

  lemma ExtrasSurvive(m: Manifest)
    requires PrintableExtras(m.extras)
    requires "path" !in m.extras && "sha512" !in m.extras
    ensures (forall k :: k in m.extras ==> WellFormedExtra(k, m.extras[k])) <==> ReadExtras(m, Reparsed) == m.extras
    ensures ReadExtras(m, Reparsed).Keys == m.extras.Keys
  {
    ReadBackIsSame(m, Reparsed);
    forall k | k in m.extras ensures WellFormedExtra(k, m.extras[k]) <==> Reparsed(m.extras[k]) == m.extras[k] {
      ExtraSurvives(k, m.extras[k]);
    }
  }

  lemma {:induction false} FilesKept(files: seq<File>)
    ensures |ReadRecords(files)| == |files|
  {
    if files != [] {
      FilesKept(files[..|files| - 1]);
    }
  }

  /** A finished state without a pending entry. */
  lemma FinishPlain(s: State, version: string, date: string, lines: nat)
    requires s.current.None? && s.version == Some(version) && s.releaseDate == Some(date)
    ensures Finish(s, lines).Success? <==> version != [] && date != [] && s.files != []
    ensures Finish(s, lines).Success? ==> Finish(s, lines).value == Manifest(version, date, s.files, s.extras)
  {
  }

  /** The outcome of printing and reading a manifest whose fields are single lines. */
  lemma PrintedReadsAs(m: Manifest)
    requires Printable(m)
    ensures var next := ParseMac(Print(m));
            && (next.Success? <==> Accepted(m))
            && (next.Success? ==> next.value == Reprinted(m).(extras := Reprinted(m).extras - {"path", "sha512"}))
  {
    LinesHaveNoBreaks(m);
    SplitUndoesJoin(ManifestLines(m));
    ManifestRun(m);
    FilesKept(m.files);
    var last := Run(Success(START), ManifestLines(m), 1, Reader(false));
    if last.Success? {
      FinishPlain(last.value, ParseScalarValue(m.version).text, m.releaseDate, |ManifestLines(m)|);
    }
  }

  lemma ConcatHasNoBreaks(a: string, b: string)
    requires NoBreaks(a) && SingleLine(b)
    ensures NoBreaks(a + b)
  {
    forall c | c in a + b ensures !IsBreak(c) {
      if c in b {
        assert !IsLineTerminator(c);
      }
    }
  }

  predicate AllNoBreaks(lines: seq<string>) {
    forall l :: l in lines ==> NoBreaks(l)
  }

  lemma AllNoBreaksJoin(a: seq<string>, b: seq<string>)
    requires AllNoBreaks(a) && AllNoBreaks(b)
    ensures AllNoBreaks(a + b)
  {
  }

  lemma NumberHasNoBreaks(n: JsNumber)
    ensures SingleLine(NumberText(n))
  {
    NumberTextChars(n);
    NumberTextIsBare(NumberText(n));
  }

  lemma FieldNamesHaveNoBreaks()
    ensures NoBreaks("  - url: ") && NoBreaks("    sha512: ") && NoBreaks("    size: ")
  {
  }

  lemma OneFileHasNoBreaks(f: File)
    requires SingleLine(f.url) && SingleLine(f.sha512)
    ensures AllNoBreaks(FileLines(f))
  {
    FieldNamesHaveNoBreaks();
    NumberHasNoBreaks(f.size);
    ConcatHasNoBreaks("  - url: ", f.url);
    ConcatHasNoBreaks("    sha512: ", f.sha512);
    ConcatHasNoBreaks("    size: ", NumberText(f.size));
  }

  lemma {:induction false} FileLinesHaveNoBreaks(files: seq<File>)
    requires SingleLineFiles(files)
    ensures AllNoBreaks(AllFileLines(files))
  {
    if files != [] {
      var before, f := files[..|files| - 1], files[|files| - 1];
      assert f in files;
      FileLinesHaveNoBreaks(before);
      OneFileHasNoBreaks(f);
      AllNoBreaksJoin(AllFileLines(before), FileLines(f));
    }
  }

  lemma KeyHasNoBreaks(key: string)
    requires IsKey(key)
    ensures NoBreaks(key + ": ")
  {
    forall c | c in key + ": " ensures !IsBreak(c) {
      if c in key {
        assert IsLetter(c) || IsDigit(c);
      }
    }
  }

  lemma {:induction false} ExtraLinesHaveNoBreaks(keys: seq<string>, extras: map<string, Scalar>)
    requires (forall k :: k in keys ==> k in extras) && PrintableExtras(extras)
    ensures AllNoBreaks(ExtraLines(keys, extras))
  {
    if keys != [] {
      var n := |keys| - 1;
      var key := keys[n];
      ExtraLinesHaveNoBreaks(keys[..n], extras);
      assert key in extras;
      KeyHasNoBreaks(key);
      ScalarReadsBack(extras[key]);
      ConcatHasNoBreaks(key + ": ", SerializeScalarValue(extras[key]));
    }
  }

  lemma FirstLinesHaveNoBreaks(version: string)
    requires SingleLine(version)
    ensures AllNoBreaks(["version: " + version, "files:"])
  {
    ConcatHasNoBreaks("version: ", version);
    assert NoBreaks("files:");
  }

  lemma LastLinesHaveNoBreaks(date: string)
    requires SingleLine(date)
    ensures AllNoBreaks(["releaseDate: " + QuoteYamlString(date), ""])
  {
    StringReadsBack(date);
    ConcatHasNoBreaks("releaseDate: ", QuoteYamlString(date));
    assert NoBreaks("");
  }

  lemma LinesHaveNoBreaks(m: Manifest)
    requires Printable(m)
    ensures AllNoBreaks(ManifestLines(m))
  {
    var keys := SortedKeys(m.extras.Keys);
    SortedKeysHave(m.extras.Keys);
    var first, files, extras := ["version: " + m.version, "files:"], AllFileLines(m.files), ExtraLines(keys, m.extras);
    FileLinesHaveNoBreaks(m.files);
    ExtraLinesHaveNoBreaks(keys, m.extras);
    FirstLinesHaveNoBreaks(m.version);
    LastLinesHaveNoBreaks(m.releaseDate);
    AllNoBreaksJoin(first, files);
    AllNoBreaksJoin(first + files, extras);
    AllNoBreaksJoin(first + files + extras, ["releaseDate: " + QuoteYamlString(m.releaseDate), ""]);
  }

  lemma ProducedIsPrintable(m: Manifest)
    requires Produced(m)
    ensures Printable(m)
  {
  }

  lemma WellFormedIsProduced(m: Manifest)
    requires WellFormed(m)
    ensures Produced(m)
  {
    assert forall f :: f in m.files ==> WellFormedFile(f) ==> ReadableFile(f);
    assert forall k :: k in m.extras ==>
          WellFormedExtra(k, m.extras[k]) ==> ExtraKey(k) && SingleLineScalar(m.extras[k]);
  }

  lemma SameWithout(extras: map<string, Scalar>)
    requires "path" !in extras && "sha512" !in extras
    ensures extras - {"path", "sha512"} == extras
  {
  }

  /** Parsing undoes printing exactly for well-formed manifests, files in their order. */
  lemma ParseUndoesPrint(m: Manifest)
    ensures ParseMac(Print(m)) == Success(m) <==> WellFormed(m)
  {
    if ParseMac(Print(m)) == Success(m) {
      ReaderProduces(SplitLines(Print(m)));
    }
    if WellFormed(m) {
      WellFormedIsProduced(m);
    }
    if Produced(m) {
      ProducedIsPrintable(m);
      ProducedSurvives(m);
    }
  }

  lemma ProducedSurvives(m: Manifest)
    requires Produced(m)
    ensures ParseMac(Print(m)) == Success(m) <==> WellFormed(m)
  {
    ProducedIsPrintable(m);
    PrintedReadsAs(m);
    VersionSurvives(m.version);
    FilesSurvive(m.files);
    ExtrasSurvive(m);
    SameWithout(m.extras);
    if Accepted(m) {
      SameWithout(Reprinted(m).extras);
    }
  }
}
