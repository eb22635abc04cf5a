/** The comments of the flake ledger: what is shown of an occurrence, and which occurrence each comment records. */
module FlakeComments {
  import opened JsText
  import opened Decimals
  import opened FlakeMarkers
  import opened FlakeBodies

  datatype Kind = Test | Step | Rerun | Unhandled | Unfinished

  datatype Recurrence = NoRecurrence | Reopened | SeenClosed

  /** An occurrence as it is shown; the parts of the marker are the UTF-8 bytes of what is shown of them. */
  datatype Report = Report(marker: Marker, kind: Kind, os: string, job: string, branch: string, sha: string,
                           runUrl: string, errors: seq<string>)

  // ----- rendering -----

  const TEST: string := "Failed, then passed "
  const ON_RETRY: string := "on the automatic CI retry"
  const STEP: string := "CI step failed, then passed "
  const ON_STEP_RETRY: string := "on the automatic retry"
  const RERUN: string := "Failed "
  const UNHANDLED: string := "Suite failed on an unhandled error "
  const UNFINISHED: string := "Suite did not finish "
  const KILLED: string := "(killed before reporting) "
  const IN_ATTEMPT: string := "in an attempt that a manual "
  const GREEN: string := "rerun turned green"

  function Label(kind: Kind): string {
    match kind
    case Test => TEST + ON_RETRY
    case Step => STEP + ON_STEP_RETRY
    case Rerun => RERUN + IN_ATTEMPT + GREEN
    case Unhandled => UNHANDLED + IN_ATTEMPT + GREEN
    case Unfinished => UNFINISHED + KILLED + (IN_ATTEMPT + GREEN)
  }

  const RECURRED: string := "**Recurred after fix.**"
  const SEEN: string := "**Seen while this issue is closed.** "
  const KEPT: string := "Not reopened: only a default-branch run "
  const RULE: string := "reopens an issue closed as completed."

  function RecurrenceLines(recurrence: Recurrence): seq<string> {
    match recurrence
    case NoRecurrence => []
    case Reopened => [RECURRED, ""]
    case SeenClosed => [SEEN + KEPT + RULE, ""]
  }

  function Max(a: nat, b: nat): nat {
    if a < b then b else a
  }

  /** A fence longer than any run of backticks in the text. */
  function CodeBlock(text: string): string {
    var value := Neutralize(text);
    var fence := Ticks(Max(3, LongestTicks(value, 0) + 1));
    fence + "text\n" + value + ("\n" + fence)
  }

  function Paragraphs(texts: seq<string>): string {
    if texts == [] then "" else if |texts| == 1 then texts[0] else texts[0] + "\n\n" + Paragraphs(texts[1..])
  }

  function FactLines(r: Report): seq<string> {
    [
      "**" + Label(r.kind) + "**",
      "",
      "- OS: " + CodeSpan(r.os) + (", job: " + CodeSpan(r.job)) + (", attempt " + Decimal(r.marker.attempt)),
      "- Branch: " + CodeSpan(r.branch) + (", commit: " + CodeSpan(if |r.sha| <= 12 then r.sha else r.sha[..12]))
    ]
  }

  function RunLine(r: Report): string {
    "- Run: " + r.runUrl
  }

  function Tag(name: string): string {
    "<" + (name + ">")
  }

  /** The details element opened, with its summary. */
  function Opening(): string {
    Tag("details") + Tag("summary") + ("First failure" + Tag("/summary"))
  }

  function ErrorLines(errors: seq<string>): seq<string> {
    if errors == [] then []
    else ["", Opening(), "", CodeBlock(Paragraphs(errors)), "", Tag("/details")]
  }

  function CommentLines(r: Report, recurrence: Recurrence): seq<string> {
    [OccurrenceMarker(r.marker)] + RecurrenceLines(recurrence) + FactLines(r) + [RunLine(r)] + ErrorLines(r.errors)
  }

  function OccurrenceComment(r: Report, recurrence: Recurrence): string {
    JoinLines(CommentLines(r, recurrence))
  }

  // ----- lines without a comment opener -----

  predicate Plain(text: string) {
    '<' !in text
  }

  lemma PlainJoin(a: string, b: string)
    requires Plain(a) && Plain(b)
    ensures Plain(a + b) && Clean(a + b)
  {
    NoBracketIsClean(a + b);
  }

  lemma FirstPieces()
    ensures Plain(TEST) && Plain(ON_RETRY) && Plain(STEP) && Plain(ON_STEP_RETRY)
  {
  }

  lemma SecondPieces()
    ensures Plain(RERUN) && Plain(UNHANDLED) && Plain(UNFINISHED) && Plain(KILLED)
  {
  }

  lemma ThirdPieces()
    ensures Plain(IN_ATTEMPT + GREEN) && Plain(RECURRED)
  {
    assert Plain(IN_ATTEMPT) && Plain(GREEN);
  }

  lemma SeenIsPlain()
    ensures Plain(SEEN)
  {
  }

  lemma KeptIsPlain()
    ensures Plain(KEPT)
  {
  }

  lemma RuleIsPlain()
    ensures Plain(RULE)
  {
  }

  lemma ThreePlain(a: string, b: string, c: string)
    requires Plain(a) && Plain(b) && Plain(c)
    ensures Plain(a + b + c) && Clean(a + b + c)
  {
    PlainJoin(a, b);
    PlainJoin(a + b, c);
  }

  lemma NoticeIsClean()
    ensures Clean(SEEN + KEPT + RULE)
  {
    SeenIsPlain();
    KeptIsPlain();
    RuleIsPlain();
    ThreePlain(SEEN, KEPT, RULE);
  }

  lemma LabelIsPlain(kind: Kind)
    ensures Plain(Label(kind))
  {
    FirstPieces();
    SecondPieces();
    ThirdPieces();
    assert RERUN + IN_ATTEMPT + GREEN == RERUN + (IN_ATTEMPT + GREEN);
    assert UNHANDLED + IN_ATTEMPT + GREEN == UNHANDLED + (IN_ATTEMPT + GREEN);
  }

  ghost predicate AllClean(lines: seq<string>) {
    forall i :: 0 <= i < |lines| ==> Clean(lines[i])
  }

  lemma EmptyIsClean()
    ensures Clean("")
  {
    NoBracketIsClean("");
  }

  lemma NoticeLines(notice: string)
    requires Clean(notice)
    ensures AllClean([notice, ""])
  {
    EmptyIsClean();
  }

  lemma RecurrenceIsClean(recurrence: Recurrence)
    ensures AllClean(RecurrenceLines(recurrence))
  {
    NoticeIsClean();
    ThirdPieces();
    NoBracketIsClean(RECURRED);
    NoticeLines(RECURRED);
    NoticeLines(SEEN + KEPT + RULE);
  }

  /** A plain text before clean text, and after it. */
  lemma Around(a: string, text: string, b: string)
    requires Plain(a) && Clean(text) && Plain(b) && (b == [] || b[0] !in "!-")
    ensures Clean(a + text + b)
  {
    SkipPlain(a, text);
    NoBracketIsClean(b);
    CleanJoin(a + text, b);
  }

  lemma SecondSpan(a: string, text: string)
    requires Plain(a) && Clean(text) && a != [] && a[0] !in "!-"
    ensures Clean(a + text) && (a + text)[0] !in "!-"
  {
    SkipPlain(a, text);
  }

  lemma {:induction false} AttemptIsPlain(attempt: nat)
    ensures Plain(", attempt " + Decimal(attempt))
  {
    assert forall c :: c in Decimal(attempt) ==> IsDigit(c);
  }

  lemma {:induction false} OsLineIsClean(os: string, job: string, attempt: nat)
    ensures Clean("- OS: " + CodeSpan(os) + (", job: " + CodeSpan(job)) + (", attempt " + Decimal(attempt)))
  {
    CodeSpanIsClean(os);
    CodeSpanIsClean(job);
    AttemptIsPlain(attempt);
    SkipPlain("- OS: ", CodeSpan(os));
    SecondSpan(", job: ", CodeSpan(job));
    CleanJoin("- OS: " + CodeSpan(os), ", job: " + CodeSpan(job));
    NoBracketIsClean(", attempt " + Decimal(attempt));
    CleanJoin("- OS: " + CodeSpan(os) + (", job: " + CodeSpan(job)), ", attempt " + Decimal(attempt));
  }

  lemma BranchLineIsClean(branch: string, commit: string)
    ensures Clean("- Branch: " + CodeSpan(branch) + (", commit: " + CodeSpan(commit)))
  {
    CodeSpanIsClean(branch);
    CodeSpanIsClean(commit);
    SkipPlain("- Branch: ", CodeSpan(branch));
    SecondSpan(", commit: ", CodeSpan(commit));
    CleanJoin("- Branch: " + CodeSpan(branch), ", commit: " + CodeSpan(commit));
  }

  lemma FourLines(a: string, b: string, c: string)
    requires Clean(a) && Clean(b) && Clean(c)
    ensures AllClean([a, "", b, c])
  {
    EmptyIsClean();
  }

  lemma FactsAreClean(r: Report)
    ensures AllClean(FactLines(r))
  {
    LabelIsPlain(r.kind);
    ThreePlain("**", Label(r.kind), "**");
    OsLineIsClean(r.os, r.job, r.marker.attempt);
    BranchLineIsClean(r.branch, if |r.sha| <= 12 then r.sha else r.sha[..12]);
    FourLines(FactLines(r)[0], FactLines(r)[2], FactLines(r)[3]);
  }

  /** Downloaded error text, fenced, opens no comment. */
  lemma CodeBlockIsClean(text: string)
    ensures Clean(CodeBlock(text))
  {
    var value := Neutralize(text);
    var fence := Ticks(Max(3, LongestTicks(value, 0) + 1));
    NeutralizedHasNoOpener(text);
    assert Plain(fence + "text\n") && Plain("\n" + fence);
    Around(fence + "text\n", value, "\n" + fence);
  }

  lemma TagIsClean(name: string)
    requires Plain(name) && name != [] && name[0] != '!'
    ensures Clean(Tag(name)) && Tag(name)[0] == '<'
  {
    var rest := name + ">";
    PlainJoin(name, ">");
    assert ("<" + rest)[1..] == rest && ("<" + rest)[1] == name[0] && OPENER[1] == '!';
  }

  lemma TagsAreClean(a: string, b: string, text: string, c: string)
    requires Clean(Tag(a)) && Clean(Tag(b)) && Clean(Tag(c)) && Plain(text) && text != [] && text[0] !in "!-"
    ensures Clean(Tag(a) + Tag(b) + (text + Tag(c)))
  {
    SkipPlain(text, Tag(c));
    CleanJoin(Tag(a), Tag(b));
    CleanJoin(Tag(a) + Tag(b), text + Tag(c));
  }

  lemma OpeningIsClean()
    ensures Clean(Opening())
  {
    TagIsClean("details");
    TagIsClean("summary");
    TagIsClean("/summary");
    TagsAreClean("details", "summary", "First failure", "/summary");
  }

  lemma SixLines(a: string, b: string, c: string)
    requires Clean(a) && Clean(b) && Clean(c)
    ensures AllClean(["", a, "", b, "", c])
  {
    EmptyIsClean();
  }

  lemma ErrorsAreClean(errors: seq<string>)
    ensures AllClean(ErrorLines(errors))
  {
    OpeningIsClean();
    TagIsClean("/details");
    CodeBlockIsClean(Paragraphs(errors));
    SixLines(Opening(), CodeBlock(Paragraphs(errors)), Tag("/details"));
  }

  // ----- lines that hold a part -----

  ghost predicate SomeHolds(lines: seq<string>, part: string) {
    exists i :: 0 <= i < |lines| && Contains(lines[i], part)
  }

  /** A part without a line break lies before a break or after it. */
  lemma {:induction false} AcrossBreak(a: string, b: string, part: string)
    requires part != [] && '\n' !in part
    ensures Contains(a + "\n" + b, part) <==> Contains(a, part) || Contains(b, part)
  {
    var text := a + "\n" + b;
    assert text[|a|] == '\n';
    if a == [] {
      assert text[1..] == b && part[0] in part;
    } else {
      assert text[1..] == a[1..] + "\n" + b;
      AcrossBreak(a[1..], b, part);
      FrontOf(a, text, part);
    }
  }

  lemma FrontOf(a: string, text: string, part: string)
    requires '\n' !in part && a <= text && |a| < |text| && text[|a|] == '\n'
    ensures part <= text <==> part <= a
  {
    assert |a| < |part| ==> part[|a|] in part;
  }

  lemma {:induction false} JoinedHolds(lines: seq<string>, part: string)
    requires part != [] && '\n' !in part
    ensures Contains(JoinLines(lines), part) <==> SomeHolds(lines, part)
  {
    if |lines| == 1 {
      assert lines == [lines[0]];
    } else if lines != [] {
      JoinedHolds(lines[1..], part);
      AcrossBreak(lines[0], JoinLines(lines[1..]), part);
      FirstOrLater(lines[0], lines[1..], part);
      assert lines == [lines[0]] + lines[1..];
    }
  }

  lemma {:induction false} FirstOrLater(first: string, rest: seq<string>, part: string)
    ensures SomeHolds([first] + rest, part) <==> Contains(first, part) || SomeHolds(rest, part)
  {
    EitherHolds([first], rest, part);
    assert SomeHolds([first], part) <==> Contains([first][0], part);
  }

  lemma EitherHolds(a: seq<string>, b: seq<string>, part: string)
    ensures SomeHolds(a + b, part) <==> SomeHolds(a, part) || SomeHolds(b, part)
  {
    if SomeHolds(a, part) {
      var i :| 0 <= i < |a| && Contains(a[i], part);
      assert (a + b)[i] == a[i];
    }
    if SomeHolds(b, part) {
      var i :| 0 <= i < |b| && Contains(b[i], part);
      assert (a + b)[|a| + i] == b[i];
    }
  }

  lemma AnyHolds(a: seq<string>, b: seq<string>, c: seq<string>, d: seq<string>, e: seq<string>, part: string)
    ensures SomeHolds(a + b + c + d + e, part)
            <==> (SomeHolds(a, part) || SomeHolds(b, part) || SomeHolds(c, part) || SomeHolds(d, part)
                  || SomeHolds(e, part))
  {
    EitherHolds(a, b, part);
    EitherHolds(a + b, c, part);
    EitherHolds(a + b + c, d, part);
    EitherHolds(a + b + c + d, e, part);
  }

  // ----- which occurrence a comment records -----

  lemma {:induction false} EncodedHasNoBreak(bytes: Bytes)
    ensures forall c :: c in Encode(bytes) ==> c !in ": <>" && c != '\n'
  {
    if bytes != [] {
      EncodedHasNoBreak(bytes[1..]);
      EscapedIsPlain(bytes[0]);
      assert '\n' !in Escape(bytes[0]);
    }
  }

  lemma {:induction false} JoinedIsPlain(parts: seq<Bytes>)
    ensures forall c :: c in Joined(parts) ==> c !in "<>" && c != '\n'
  {
    if parts != [] {
      EncodedHasNoBreak(parts[0]);
      if |parts| > 1 {
        JoinedIsPlain(parts[1..]);
      }
    }
  }

  const MARKER_HEAD: string := "!-- ci-flaky-run:"

  predicate Bracketless(text: string) {
    '<' !in text && '>' !in text && '\n' !in text
  }

  lemma HeadIsBracketless()
    ensures Bracketless(MARKER_HEAD) && Bracketless(" --")
  {
  }

  lemma BracketlessJoin(a: string, b: string)
    requires Bracketless(a) && Bracketless(b)
    ensures Bracketless(a + b)
  {
  }

  lemma Wrapped(head: string, joined: string)
    ensures "<" + head + (joined + " -->") == "<" + (head + joined + " --") + ">"
  {
  }

  /** A marker is one line with an angle bracket at each end and no other. */
  lemma MarkerShape(m: Marker) returns (inner: string)
    ensures OccurrenceMarker(m) == "<" + inner + ">" && Bracketless(inner)
    ensures OPENER <= OccurrenceMarker(m)
  {
    var joined := Joined(Parts(m));
    JoinedIsPlain(Parts(m));
    HeadIsBracketless();
    BracketlessJoin(MARKER_HEAD, joined);
    BracketlessJoin(MARKER_HEAD + joined, " --");
    inner := MARKER_HEAD + joined + " --";
    assert "<" + MARKER_HEAD == "<!-- ci-flaky-run:";
    Wrapped(MARKER_HEAD, joined);
    assert OccurrenceMarker(m)[..4] == OPENER;
  }

  lemma Longer(a: string, b: string, text: string)
    requires a <= b
    ensures b <= text ==> a <= text
  {
  }

  lemma {:induction false} CleanHoldsNoMarker(text: string, m: Marker)
    requires Clean(text)
    ensures !Contains(text, OccurrenceMarker(m))
  {
    var inner := MarkerShape(m);
    Longer(OPENER, OccurrenceMarker(m), text);
    if text != [] {
      DropClean(text, 1);
      CleanHoldsNoMarker(text[1..], m);
    }
  }

  lemma NoneAt(b: string)
    requires '>' !in b
    ensures forall i :: 0 <= i < |b| ==> b[i] != '>'
  {
  }

  /** Two bracketed texts, one at the front of the other, are the same. */
  lemma SameBracketed(a: string, b: string)
    requires '>' !in a && '>' !in b && "<" + a + ">" <= "<" + b + ">"
    ensures "<" + a + ">" == "<" + b + ">"
  {
    var s, t := "<" + a + ">", "<" + b + ">";
    NoneAt(b);
    assert t[|a| + 1] == s[|a| + 1] == '>';
  }

  lemma MarkerHoldsItself(m: Marker, x: Marker)
    ensures Contains(OccurrenceMarker(m), OccurrenceMarker(x)) <==> m == x
  {
    var a := MarkerShape(m);
    var b := MarkerShape(x);
    var text := OccurrenceMarker(m);
    assert text[1..] == a + ">";
    PlainJoin(a, ">");
    CleanHoldsNoMarker(a + ">", x);
    if OccurrenceMarker(x) <= text {
      SameBracketed(b, a);
      MarkersDiffer(x, m);
    }
  }

  lemma {:induction false} AfterPlain(a: string, text: string, part: string)
    requires Plain(a) && part != [] && part[0] == '<'
    ensures Contains(a + text, part) <==> Contains(text, part)
  {
    if a == [] {
      assert a + text == text;
    } else {
      assert (a + text)[0] == a[0] && a[0] in a && (a + text)[1..] == a[1..] + text;
      AfterPlain(a[1..], text, part);
    }
  }

  lemma CleanLinesHoldNone(lines: seq<string>, m: Marker)
    requires AllClean(lines)
    ensures !SomeHolds(lines, OccurrenceMarker(m))
  {
    forall i | 0 <= i < |lines| ensures !Contains(lines[i], OccurrenceMarker(m)) {
      CleanHoldsNoMarker(lines[i], m);
    }
  }

  lemma {:induction false} OneHolds(line: string, part: string)
    ensures SomeHolds([line], part) <==> Contains(line, part)
  {
    assert [line][0] == line;
  }

  lemma OtherLinesHoldNone(r: Report, recurrence: Recurrence, x: Marker)
    ensures !SomeHolds(RecurrenceLines(recurrence), OccurrenceMarker(x))
    ensures !SomeHolds(FactLines(r), OccurrenceMarker(x))
    ensures !SomeHolds(ErrorLines(r.errors), OccurrenceMarker(x))
  {
    RecurrenceIsClean(recurrence);
    FactsAreClean(r);
    ErrorsAreClean(r.errors);
    CleanLinesHoldNone(RecurrenceLines(recurrence), x);
    CleanLinesHoldNone(FactLines(r), x);
    CleanLinesHoldNone(ErrorLines(r.errors), x);
  }

  lemma RunLineHolds(r: Report, x: Marker)
    ensures SomeHolds([RunLine(r)], OccurrenceMarker(x)) <==> Contains(r.runUrl, OccurrenceMarker(x))
  {
    var inner := MarkerShape(x);
    OneHolds(RunLine(r), OccurrenceMarker(x));
    AfterPlain("- Run: ", r.runUrl, OccurrenceMarker(x));
  }

  lemma FirstLineHolds(m: Marker, x: Marker)
    ensures SomeHolds([OccurrenceMarker(m)], OccurrenceMarker(x)) <==> m == x
  {
    OneHolds(OccurrenceMarker(m), OccurrenceMarker(x));
    MarkerHoldsItself(m, x);
  }

  /**
   * A comment holds the marker of its own occurrence and of no other, whatever the names, the branch and the errors
   * say, unless the address of the run itself holds one.
   */
  lemma CommentNames(r: Report, recurrence: Recurrence, x: Marker)
    ensures Contains(OccurrenceComment(r, recurrence), OccurrenceMarker(x))
            <==> x == r.marker || Contains(r.runUrl, OccurrenceMarker(x))
  {
    var part := OccurrenceMarker(x);
    var inner := MarkerShape(x);
    var a, b := [OccurrenceMarker(r.marker)], RecurrenceLines(recurrence);
    var c, d, e := FactLines(r), [RunLine(r)], ErrorLines(r.errors);
    JoinedHolds(CommentLines(r, recurrence), part);
    AnyHolds(a, b, c, d, e, part);
    FirstLineHolds(r.marker, x);
    OtherLinesHoldNone(r, recurrence, x);
    RunLineHolds(r, x);
  }

  // ----- all comments of an issue -----

  /** The comment holds the marker of this occurrence and of no other. */
  ghost predicate Carries(comment: string, m: Marker) {
    forall x :: Contains(comment, OccurrenceMarker(x)) <==> x == m
  }

  ghost predicate AllCarry(comments: seq<string>, markers: seq<Marker>) {
    |comments| == |markers| && forall i :: 0 <= i < |comments| ==> Carries(comments[i], markers[i])
  }

  /** Every comment on a line of its own, as they are read. */
  function Existing(comments: seq<string>): string {
    JoinLines(comments + [""])
  }

  /** The comments read as one text hold a marker exactly when one of them records its occurrence. */
  lemma ExistingHolds(comments: seq<string>, markers: seq<Marker>, x: Marker)
    requires AllCarry(comments, markers)
    ensures Contains(Existing(comments), OccurrenceMarker(x)) <==> x in markers
  {
    var part := OccurrenceMarker(x);
    var inner := MarkerShape(x);
    JoinedHolds(comments + [""], part);
    EitherHolds(comments, [""], part);
    EmptyIsClean();
    OneHolds("", part);
    CleanHoldsNoMarker("", x);
    if x in markers {
      var i :| 0 <= i < |markers| && markers[i] == x;
      assert Contains(comments[i], part);
    }
  }

  lemma CommentCarries(r: Report, recurrence: Recurrence)
    requires Clean(r.runUrl)
    ensures Carries(OccurrenceComment(r, recurrence), r.marker)
  {
    forall x ensures Contains(OccurrenceComment(r, recurrence), OccurrenceMarker(x)) <==> x == r.marker {
      CommentNames(r, recurrence, x);
      CleanHoldsNoMarker(r.runUrl, x);
    }
  }
}
