/** Desktop update manifests: scalars, the line parser, the printer. */
module UpdateManifest {
  import opened Wrappers
  import opened JsText
  import opened Sorting
  import opened Decimals

  // ----- numbers -----

  /** A decimal number; `fraction` holds the digits after the point. */
  datatype Number = Number(negative: bool, whole: nat, fraction: string)

  /** One representation per number: no trailing zeros, no negative zero. */
  predicate Canonical(n: Number) {
    && AllDigits(n.fraction)
    && (n.fraction != [] ==> n.fraction[|n.fraction| - 1] != '0')
    && (n.negative ==> n.whole != 0 || n.fraction != [])
  }

  type JsNumber = n: Number | Canonical(n) witness Number(false, 0, [])

  function DropTrailingZeros(digits: string): (r: string)
    ensures r <= digits && (r != [] ==> r[|r| - 1] != '0')
  {
    if digits == [] || digits[|digits| - 1] != '0' then digits
    else DropTrailingZeros(digits[..|digits| - 1])
  }

  /** An unsigned decimal: digits, and optionally a point and more digits. */
  predicate UnsignedNumber(s: string) {
    var n := DigitPrefix(s);
    n > 0 && (n == |s| || (s[n] == '.' && n + 1 < |s| && AllDigits(s[n + 1..])))
  }

  predicate NumberLike(s: string) {
    UnsignedNumber(if s != [] && s[0] == '-' then s[1..] else s)
  }

  function ReadUnsigned(s: string, negative: bool): JsNumber
    requires UnsignedNumber(s)
  {
    var n := DigitPrefix(s);
    var whole := ParseDigits(s[..n]);
    var fraction := if n == |s| then [] else DropTrailingZeros(s[n + 1..]);
    Number(negative && (whole != 0 || fraction != []), whole, fraction)
  }

  function ReadNumber(s: string): JsNumber
    requires NumberLike(s)
  {
    if s[0] == '-' then ReadUnsigned(s[1..], true) else ReadUnsigned(s, false)
  }

  function LeadingZeros(digits: string): (n: nat)
    ensures n <= |digits|
  {
    if digits == [] || digits[0] != '0' then 0 else 1 + LeadingZeros(digits[1..])
  }

  /** Printed without an exponent. */
  predicate Plain(n: JsNumber) {
    n.whole < Power10(21) && (n.whole == 0 && n.fraction != [] ==> LeadingZeros(n.fraction) < 6)
  }

  function Scientific(digits: string, exponent: int): string
    requires digits != []
  {
    [digits[0]] + (if |digits| == 1 then "" else "." + digits[1..]) + "e"
    + (if exponent < 0 then "-" + Decimal(-exponent) else "+" + Decimal(exponent))
  }

  function UnsignedText(n: JsNumber): string {
    if Plain(n) then Decimal(n.whole) + (if n.fraction == [] then "" else "." + n.fraction)
    else if n.whole > 0 then
      var whole := Decimal(n.whole);
      var digits := if n.fraction == [] then DropTrailingZeros(whole) else whole + n.fraction;
      Scientific(if digits == [] then whole else digits, |whole| - 1)
    else
      var zeros := LeadingZeros(n.fraction);
      Scientific(if zeros == |n.fraction| then n.fraction else n.fraction[zeros..], -(zeros + 1))
  }

  /** JavaScript's String(n). */
  function NumberText(n: JsNumber): string {
    if n.negative then "-" + UnsignedText(n) else UnsignedText(n)
  }

  // ----- scalars -----

  datatype Scalar = Str(text: string) | Num(number: JsNumber) | Bool(value: bool)

  /** Every pair of quotes, from the left, becomes one. */
  function Undouble(s: string): string {
    if s == [] then []
    else if |s| >= 2 && s[0] == '\'' && s[1] == '\'' then ['\''] + Undouble(s[2..])
    else [s[0]] + Undouble(s[1..])
  }

  function Double(s: string): string {
    if s == [] then [] else (if s[0] == '\'' then "''" else [s[0]]) + Double(s[1..])
  }

  /** Begins and ends with a quote; a single quote does both. */
  predicate QuotedEnds(s: string) {
    s != [] && s[0] == '\'' && s[|s| - 1] == '\''
  }

  function StripSingleQuotes(s: string): string {
    if !QuotedEnds(s) then s
    else if |s| == 1 then []
    else Undouble(s[1..|s| - 1])
  }

  function ParseScalarValue(raw: string): Scalar {
    var trimmed := Trim(raw);
    if QuotedEnds(trimmed) && |trimmed| >= 2 then Str(Undouble(trimmed[1..|trimmed| - 1]))
    else if trimmed == "true" then Bool(true)
    else if trimmed == "false" then Bool(false)
    else if NumberLike(trimmed) then Num(ReadNumber(trimmed))
    else Str(trimmed)
  }

  function QuoteYamlString(s: string): string {
    "'" + Double(s) + "'"
  }

  function SerializeScalarValue(value: Scalar): string {
    match value
    case Str(text) => QuoteYamlString(text)
    case Num(n) => NumberText(n)
    case Bool(b) => if b then "true" else "false"
  }

  // ----- manifests -----

  datatype File = File(url: string, sha512: string, size: JsNumber, blockMapSize: Option<JsNumber>)

  datatype Manifest = Manifest(version: string, releaseDate: string, files: seq<File>, extras: map<string, Scalar>)

  datatype ManifestError =
    | IncompleteFileEntry(line: nat)
    | ShaWithoutFile(line: nat)
    | SizeWithoutFile(line: nat)
    | UnsafeBlockMapSize
    | UnsupportedLine(line: nat)
    | VersionNotString(line: nat)
    | ReleaseDateNotString(line: nat)
    | MissingVersion
    | MissingReleaseDate
    | MissingFiles

  /** The file entry being read. */
  datatype PendingFile = PendingFile(url: string, sha512: Option<string>, size: Option<JsNumber>,
                                     blockMapSize: Option<JsNumber>)

  datatype State = State(files: seq<File>, extras: map<string, Scalar>, version: Option<string>,
                         releaseDate: Option<string>, inFiles: bool, current: Option<PendingFile>)

  const START := State([], map[], None, None, false, None)

  const MAX_SAFE_INTEGER := 9007199254740991

  /** Lines end at a line feed; a carriage return right before it goes too. */
  function SplitLines(s: string): (lines: seq<string>)
    ensures lines != []
  {
    if s == [] then [[]]
    else if s[0] == '\n' then [[]] + SplitLines(s[1..])
    else if |s| > 1 && s[0] == '\r' && s[1] == '\n' then [[]] + SplitLines(s[2..])
    else
      var rest := SplitLines(s[1..]);
      [[s[0]] + rest[0]] + rest[1..]
  }

  /** The text after `prefix` and white space, when it is a single line; the line has no white space at its end. */
  function After(prefix: string, line: string): (text: Option<string>)
    ensures text.Some? ==> text.value != []
  {
    if !(prefix <= line) then None
    else
      var text := TrimStart(line[|prefix|..]);
      if text == [] || (exists c :: c in text && IsLineTerminator(c)) then None else Some(text)
  }

  function DigitsAfter(prefix: string, line: string): (text: Option<string>)
    ensures text.Some? ==> AllDigits(text.value)
  {
    var text := After(prefix, line);
    if text.Some? && AllDigits(text.value) then text else None
  }

  /** The letters and digits `s` begins with. */
  function KeyPrefix(s: string): (n: nat)
    ensures n <= |s|
    ensures forall i :: 0 <= i < n ==> IsLetter(s[i]) || IsDigit(s[i])
    ensures n < |s| ==> !IsLetter(s[n]) && !IsDigit(s[n])
  {
    if s == [] || !(IsLetter(s[0]) || IsDigit(s[0])) then 0 else 1 + KeyPrefix(s[1..])
  }

  predicate IsKey(s: string) {
    s != [] && IsLetter(s[0]) && forall c :: c in s ==> IsLetter(c) || IsDigit(c)
  }

  /** A top-level key with its raw value. */
  function TopLevel(line: string): (entry: Option<(string, string)>)
    ensures entry.Some? ==> IsKey(entry.value.0)
  {
    var n := KeyPrefix(line);
    if n == 0 || !IsLetter(line[0]) || n == |line| || line[n] != ':' then None
    else
      var text := After(line[..n + 1], line);
      if text.None? then None else Some((line[..n], text.value))
  }

  function Integer(n: nat): JsNumber {
    Number(false, n, [])
  }

  function ParseFileRecord(current: PendingFile, line: nat): Result<File, ManifestError> {
    if current.sha512.None? || current.size.None? then Failure(IncompleteFileEntry(line))
    else Success(File(current.url, current.sha512.value, current.size.value, current.blockMapSize))
  }

  /** Moves the pending entry, if any, to the files. */
  function Finalize(state: State, line: nat): Result<State, ManifestError> {
    if state.current.None? then Success(state)
    else
      match ParseFileRecord(state.current.value, line)
      case Failure(e) => Failure(e)
      case Success(file) => Success(state.(files := state.files + [file], current := None))
  }

  /** What a line is, by the first pattern that matches it. */
  datatype Line =
    | Blank
    | FileUrl(text: string)
    | FileSha(text: string)
    | FileSize(digits: string)
    | FileBlockMap(digits: string)
    | FilesHeader
    | Entry(key: string, raw: string)
    | Unsupported

  function Classify(line: string): (kind: Line)
    ensures kind.FileSize? ==> AllDigits(kind.digits)
    ensures kind.FileBlockMap? ==> AllDigits(kind.digits)
    ensures kind.Entry? ==> IsKey(kind.key)
  {
    var url, sha, size, blockMap := After("  - url:", line), After("    sha512:", line),
                                    DigitsAfter("    size:", line), DigitsAfter("    blockMapSize:", line);
    var entry := TopLevel(line);
    if line == [] then Blank
    else if url.Some? then FileUrl(url.value)
    else if sha.Some? then FileSha(sha.value)
    else if size.Some? then FileSize(size.value)
    else if blockMap.Some? then FileBlockMap(blockMap.value)
    else if line == "files:" then FilesHeader
    else if entry.Some? then Entry(entry.value.0, entry.value.1)
    else Unsupported
  }

  function StoreEntry(state: State, key: string, value: Scalar, number: nat): Result<State, ManifestError> {
    if key == "version" then
      if value.Str? then Success(state.(version := Some(value.text))) else Failure(VersionNotString(number))
    else if key == "releaseDate" then
      if value.Str? then Success(state.(releaseDate := Some(value.text))) else Failure(ReleaseDateNotString(number))
    else Success(state.(extras := state.extras[key := value]))
  }

  /** Any other line ends the list of files. */
  function LeaveFiles(state: State, number: nat): Result<State, ManifestError> {
    match (if state.inFiles then Finalize(state, number) else Success(state))
    case Failure(e) => Failure(e)
    case Success(s) => Success(s.(inFiles := false))
  }

  function Apply(state: State, kind: Line, number: nat, allowBlockMapSize: bool): Result<State, ManifestError>
    requires kind.FileSize? ==> AllDigits(kind.digits)
    requires kind.FileBlockMap? ==> AllDigits(kind.digits)
  {
    match kind
    case Blank => Success(state)
    case FileUrl(text) =>
      (match Finalize(state, number)
       case Failure(e) => Failure(e)
       case Success(s) => Success(s.(current := Some(PendingFile(StripSingleQuotes(Trim(text)), None, None, None)),
                                     inFiles := true)))
    case FileSha(text) =>
      if state.current.None? then Failure(ShaWithoutFile(number))
      else Success(state.(current := Some(state.current.value.(sha512 := Some(StripSingleQuotes(Trim(text)))))))
    case FileSize(digits) =>
      if state.current.None? then Failure(SizeWithoutFile(number))
      else Success(state.(current := Some(state.current.value.(size := Some(Integer(ParseDigits(digits)))))))
    case FileBlockMap(digits) =>
      if !allowBlockMapSize || state.current.None? then Reject(state, number)
      else if ParseDigits(digits) > MAX_SAFE_INTEGER then Failure(UnsafeBlockMapSize)
      else Success(state.(current := Some(state.current.value.(blockMapSize := Some(Integer(ParseDigits(digits)))))))
    case FilesHeader => Success(state.(inFiles := true))
    case Entry(key, raw) =>
      (match LeaveFiles(state, number)
       case Failure(e) => Failure(e)
       case Success(s) => StoreEntry(s, key, ParseScalarValue(raw), number))
    case Unsupported => Reject(state, number)
  }

  /** A line that fits nowhere; an incomplete file entry before it is reported first. */
  function Reject(state: State, number: nat): Result<State, ManifestError> {
    match LeaveFiles(state, number)
    case Failure(e) => Failure(e)
    case Success(_) => Failure(UnsupportedLine(number))
  }

  function LineStep(state: State, rawLine: string, number: nat, allowBlockMapSize: bool): Result<State, ManifestError> {
    Apply(state, Classify(TrimEnd(rawLine)), number, allowBlockMapSize)
  }

  type Step = (State, string, nat) -> Result<State, ManifestError>

  function Reader(allowBlockMapSize: bool): Step {
    (state: State, line: string, number: nat) => LineStep(state, line, number, allowBlockMapSize)
  }

  /** The state after the given lines, the first of which has number `first`. */
  function Run(start: Result<State, ManifestError>, lines: seq<string>, first: nat, step: Step): Result<State,
               ManifestError> {
    if lines == [] then start
    else
      var n := |lines| - 1;
      var before := Run(start, lines[..n], first, step);
      if before.Failure? then before else step(before.value, lines[n], first + n)
  }

  function Finish(state: State, lineCount: nat): Result<Manifest, ManifestError> {
    match Finalize(state, lineCount)
    case Failure(e) => Failure(e)
    case Success(s) =>
      if s.version.None? || s.version.value == "" then Failure(MissingVersion)
      else if s.releaseDate.None? || s.releaseDate.value == "" then Failure(MissingReleaseDate)
      else if s.files == [] then Failure(MissingFiles)
      else Success(Manifest(s.version.value, s.releaseDate.value, s.files, s.extras))
  }

  function ParseLines(lines: seq<string>, allowBlockMapSize: bool): Result<Manifest, ManifestError> {
    match Run(Success(START), lines, 1, Reader(allowBlockMapSize))
    case Failure(e) => Failure(e)
    case Success(s) => Finish(s, |lines|)
  }

  /** The loop over the lines, which stops at the first failure. */
  method ReadLines(start: State, lines: seq<string>, step: Step) returns (result: Result<State, ManifestError>)
    ensures result == Run(Success(start), lines, 1, step)
  {
    var state := start;
    for index := 0 to |lines|
      invariant Run(Success(start), lines[..index], 1, step) == Success(state)
    {
      RunNext(Success(start), lines, index, 1, step);
      var next := step(state, lines[index], index + 1);
      if next.Failure? {
        RunStops(Success(start), lines, index + 1, 1, step);
        return Failure(next.error);
      }
      state := next.value;
    }
    assert lines[..|lines|] == lines;
    return Success(state);
  }

  method ParseDesktopUpdateManifest(raw: string, allowBlockMapSize: bool)
    returns (result: Result<Manifest, ManifestError>)
    ensures result == ParseLines(SplitLines(raw), allowBlockMapSize)
  {
    var lines := SplitLines(raw);
    var state := ReadLines(START, lines, Reader(allowBlockMapSize));
    if state.Failure? {
      return Failure(state.error);
    }
    return Finish(state.value, |lines|);
  }

  lemma {:induction false} RunNext(start: Result<State, ManifestError>, lines: seq<string>, k: nat, first: nat,
                                   step: Step)
    requires k < |lines| && Run(start, lines[..k], first, step).Success?
    ensures Run(start, lines[..k + 1], first, step)
        == step(Run(start, lines[..k], first, step).value, lines[k], first + k)
  {
    assert lines[..k + 1][..k] == lines[..k];
  }

  lemma {:induction false} RunStops(start: Result<State, ManifestError>, lines: seq<string>, k: nat, first: nat,
                                    step: Step)
    requires k <= |lines| && Run(start, lines[..k], first, step).Failure?
    ensures Run(start, lines, first, step) == Run(start, lines[..k], first, step)
  {
    if k < |lines| {
      var n := |lines| - 1;
      assert lines[..n][..k] == lines[..k];
      RunStops(start, lines[..n], k, first, step);
    } else {
      assert lines[..k] == lines;
    }
  }

  /** The macOS reader has no block maps and drops the legacy top-level `path` and `sha512`. */
  function ParseMacLines(lines: seq<string>): Result<Manifest, ManifestError> {
    match ParseLines(lines, false)
    case Failure(e) => Failure(e)
    case Success(m) => Success(m.(extras := m.extras - {"path", "sha512"}))
  }

  // ----- printing -----

  /** The keys in ascending order. */
  function SortedKeys(keys: set<string>): (sorted: seq<string>) {
    if keys == {} then []
    else
      LeastKeyExists(keys);
      assert forall a, b :: IsLeastKey(keys, a) && IsLeastKey(keys, b) ==> a == b by {
        forall a, b | IsLeastKey(keys, a) && IsLeastKey(keys, b) ensures a == b {
          LeastKeyUnique(keys, a, b);
        }
      }
      var k :| k in keys && IsLeastKey(keys, k);
      [k] + SortedKeys(keys - {k})
  }

  predicate IsLeastKey(keys: set<string>, k: string) {
    k in keys && forall j :: j in keys && j != k ==> LexLess(k, j)
  }

  lemma {:induction false} LeastKeyExists(keys: set<string>)
    requires keys != {}
    ensures exists k :: IsLeastKey(keys, k)
  {
    var x :| x in keys;
    var rest := keys - {x};
    assert keys == {x} + rest;
    if rest == {} {
      assert IsLeastKey(keys, x);
    } else {
      LeastKeyExists(rest);
      var k :| IsLeastKey(rest, k);
      LexTrichotomy(x, k);
      forall j | LexLess(x, k) && j in rest ensures LexLess(x, j) {
        if j != k {
          LexTransitive(x, k, j);
        }
      }
      assert IsLeastKey(keys, if LexLess(x, k) then x else k);
    }
  }

  lemma LeastKeyUnique(keys: set<string>, a: string, b: string)
    requires IsLeastKey(keys, a) && IsLeastKey(keys, b)
    ensures a == b
  {
    LexTrichotomy(a, b);
  }

  function FileLines(f: File): seq<string> {
    ["  - url: " + f.url, "    sha512: " + f.sha512, "    size: " + NumberText(f.size)]
  }

  function AllFileLines(files: seq<File>): seq<string> {
    if files == [] then [] else AllFileLines(files[..|files| - 1]) + FileLines(files[|files| - 1])
  }

  function ExtraLine(key: string, value: Scalar): string {
    key + ": " + SerializeScalarValue(value)
  }

  function ExtraLines(keys: seq<string>, extras: map<string, Scalar>): seq<string>
    requires forall k :: k in keys ==> k in extras
  {
    if keys == [] then []
    else ExtraLines(keys[..|keys| - 1], extras) + [ExtraLine(keys[|keys| - 1], extras[keys[|keys| - 1]])]
  }

  lemma {:induction false} SortedKeysHave(keys: set<string>)
    ensures forall k :: k in SortedKeys(keys) <==> k in keys
    ensures forall i, j :: 0 <= i < j < |SortedKeys(keys)| ==> SortedKeys(keys)[i] != SortedKeys(keys)[j]
  {
    if keys != {} {
      var sorted := SortedKeys(keys);
      SortedKeysHave(keys - {sorted[0]});
    }
  }

  function ManifestLines(m: Manifest): seq<string> {
    SortedKeysHave(m.extras.Keys);
    ["version: " + m.version, "files:"] + AllFileLines(m.files)
    + ExtraLines(SortedKeys(m.extras.Keys), m.extras)
    + ["releaseDate: " + QuoteYamlString(m.releaseDate), ""]
  }

  method PrintFiles(files: seq<File>) returns (lines: seq<string>)
    ensures lines == AllFileLines(files)
  {
    lines := [];
    for k := 0 to |files|
      invariant lines == AllFileLines(files[..k])
    {
      assert files[..k + 1][..k] == files[..k];
      lines := lines + ["  - url: " + files[k].url];
      lines := lines + ["    sha512: " + files[k].sha512];
      lines := lines + ["    size: " + NumberText(files[k].size)];
    }
    assert files[..|files|] == files;
  }

  method PrintExtras(extras: map<string, Scalar>) returns (lines: seq<string>)
    ensures (forall k :: k in SortedKeys(extras.Keys) ==> k in extras)
        && lines == ExtraLines(SortedKeys(extras.Keys), extras)
  {
    var keys := SortedKeys(extras.Keys);
    SortedKeysHave(extras.Keys);
    lines := [];
    for k := 0 to |keys|
      invariant lines == ExtraLines(keys[..k], extras)
    {
      assert keys[..k + 1][..k] == keys[..k];
      lines := lines + [ExtraLine(keys[k], extras[keys[k]])];
    }
    assert keys[..|keys|] == keys;
  }

  method SerializeMacUpdateManifest(m: Manifest) returns (text: string)
    ensures text == JoinLines(ManifestLines(m))
  {
    var files := PrintFiles(m.files);
    var extras := PrintExtras(m.extras);
    var lines := ["version: " + m.version, "files:"] + files + extras
                 + ["releaseDate: " + QuoteYamlString(m.releaseDate), ""];
    text := JoinLines(lines);
  }
}
