/** The count line of a flake issue's body: reading it, writing it, and names that hold one. */
module FlakeCounts {
  import opened Wrappers
  import opened JsText
  import opened Decimals
  import opened Sequences
  import opened FlakeMarkers
  import opened FlakeBodies

  const COUNT_LABEL: string := "Occurrences: "

  /** Ends a line: the text is over, or a terminator follows. */
  predicate LineEnds(s: string) {
    s == [] || IsLineTerminator(s[0])
  }

  /** Digits up to the end of the line. */
  predicate DigitsEndLine(s: string) {
    DigitPrefix(s) > 0 && LineEnds(s[DigitPrefix(s)..])
  }

  /** The text begins with a count line: label, digits, end of line. */
  predicate IsCountLine(s: string) {
    COUNT_LABEL <= s && DigitsEndLine(s[13..])
  }

  function Later(place: Option<nat>, distance: nat): Option<nat> {
    if place.Some? then Some(place.value + distance) else None
  }

  /** Where the first count line is; `lineStart` is whether a line begins here. */
  function FindCount(body: string, lineStart: bool): (place: Option<nat>)
    ensures place.Some? ==> place.value + 13 <= |body|
  {
    if lineStart && IsCountLine(body) then Some(0)
    else if body == [] then None
    else Later(FindCount(body[1..], IsLineTerminator(body[0])), 1)
  }

  function DigitsOf(s: string): (digits: string)
    ensures AllDigits(digits)
  {
    s[..DigitPrefix(s)]
  }

  function AfterDigits(s: string): string {
    s[DigitPrefix(s)..]
  }

  function CountIn(body: string): nat {
    var place := FindCount(body, true);
    if place.None? then 0 else ParseDigits(DigitsOf(body[place.value + 13..]))
  }

  function WithCount(body: string, count: nat): string {
    var place := FindCount(body, true);
    if place.None? then body + ("\n\n" + CountLine(count))
    else body[..place.value] + (CountLine(count) + AfterDigits(body[place.value + 13..]))
  }

  // ----- a line is judged by itself -----

  lemma {:induction false} DigitsStop(s: string, x: string)
    requires s != [] && IsLineTerminator(s[|s| - 1])
    ensures DigitPrefix(s + x) == DigitPrefix(s) < |s|
  {
    assert (s + x)[0] == s[0];
    if IsDigit(s[0]) {
      assert (s + x)[1..] == s[1..] + x;
      DigitsStop(s[1..], x);
    }
  }

  lemma DigitsEndStays(s: string, x: string)
    requires s != [] && IsLineTerminator(s[|s| - 1])
    ensures DigitsEndLine(s + x) == DigitsEndLine(s)
  {
    DigitsStop(s, x);
    var d := DigitPrefix(s);
    assert (s + x)[d..][0] == s[d..][0];
  }

  /** Whether a count line begins the text depends on its first line only. */
  lemma FrontIsOneLine(line: string, x: string)
    requires line != [] && IsLineTerminator(line[|line| - 1])
    ensures IsCountLine(line + x) == IsCountLine(line)
  {
    var s := line + x;
    var k := |line| - 1;
    assert s[k] == line[k];
    if k < 13 {
      assert COUNT_LABEL[k] != line[k];
    } else {
      assert s[..13] == line[..13];
      assert s[13..] == line[13..] + x;
      DigitsEndStays(line[13..], x);
    }
  }

  lemma {:induction false} CountLineIsOne(count: nat, rest: string)
    requires LineEnds(rest)
    ensures IsCountLine(CountLine(count) + rest)
    ensures (CountLine(count) + rest)[13..] == Decimal(count) + rest
    ensures DigitPrefix(Decimal(count) + rest) == |Decimal(count)|
  {
    var s := CountLine(count) + rest;
    assert s[..13] == COUNT_LABEL;
    assert s[13..] == Decimal(count) + rest;
    DigitPrefixOf(Decimal(count), rest);
    assert (Decimal(count) + rest)[|Decimal(count)|..] == rest;
  }

  // ----- the first count line -----

  /** Text that ends a line decides whether the first count line is in it or after it. */
  lemma {:induction false} FindAfter(head: string, lineStart: bool, rest: string)
    requires head != [] && IsLineTerminator(head[|head| - 1])
    ensures FindCount(head + rest, lineStart)
            == if FindCount(head, lineStart).Some? then FindCount(head, lineStart)
                else Later(FindCount(rest, true), |head|)
    decreases |head|
  {
    FrontIsOneLine(head, rest);
    TakeFirst(head, rest);
    if |head| == 1 {
      FindNothing(head[1..], rest);
    } else {
      FindAfter(head[1..], IsLineTerminator(head[0]), rest);
    }
  }

  lemma TakeFirst(head: string, rest: string)
    requires head != []
    ensures (head + rest)[0] == head[0] && (head + rest)[1..] == head[1..] + rest
  {
  }

  lemma {:induction false} FindNothing(empty: string, rest: string)
    requires empty == []
    ensures empty + rest == rest && forall b :: FindCount(empty, b).None?
  {
  }

  /** What comes before the first count line ends a line and has no count line. */
  lemma {:induction false} NoneBefore(body: string, lineStart: bool, k: nat)
    requires FindCount(body, lineStart) == Some(k)
    ensures FindCount(body[..k], lineStart).None?
    ensures if k == 0 then lineStart else IsLineTerminator(body[k - 1])
    ensures IsCountLine(body[k..])
    decreases |body|
  {
    if k == 0 {
      FindNothing(body[..0], []);
      assert body[0..] == body;
    } else {
      NoneBefore(body[1..], IsLineTerminator(body[0]), k - 1);
      assert body[1..][..k - 1] == body[..k][1..];
      assert body[1..][k - 1..] == body[k..];
      NotYet(body, lineStart, k);
    }
  }

  lemma NotYet(body: string, lineStart: bool, k: nat)
    requires 0 < k <= |body| && IsLineTerminator(body[k - 1]) && !(lineStart && IsCountLine(body))
    ensures !(lineStart && IsCountLine(body[..k]))
  {
    assert body == body[..k] + body[k..];
    FrontIsOneLine(body[..k], body[k..]);
  }

  /** A count line placed where a line begins, after text without one, is the first. */
  lemma {:induction false} PlacedIsFirst(head: string, line: string)
    requires head == [] || IsLineTerminator(head[|head| - 1])
    requires FindCount(head, true).None? && IsCountLine(line)
    ensures FindCount(head + line, true) == Some(|head|)
  {
    if head == [] {
      assert head + line == line;
    } else {
      FindAfter(head, true, line);
    }
  }

  lemma {:induction false} CountPlaced(head: string, count: nat, rest: string)
    requires head == [] || IsLineTerminator(head[|head| - 1])
    requires FindCount(head, true).None? && LineEnds(rest)
    ensures CountIn(head + (CountLine(count) + rest)) == count
  {
    var line := CountLine(count) + rest;
    CountLineIsOne(count, rest);
    PlacedIsFirst(head, line);
    CountThere(head, line, Decimal(count), rest);
    ParseUndoesDecimal(count);
  }

  lemma {:induction false} CountThere(head: string, line: string, digits: string, rest: string)
    requires FindCount(head + line, true) == Some(|head|) && |line| >= 13 && line[13..] == digits + rest
    requires AllDigits(digits) && DigitPrefix(digits + rest) == |digits|
    ensures CountIn(head + line) == ParseDigits(digits)
  {
    Dropped(head, line, |head| + 13);
    assert DigitsOf(digits + rest) == digits;
  }

  lemma Dropped(a: string, b: string, k: nat)
    requires k <= |a| + |b|
    ensures (a + b)[k..] == if k <= |a| then a[k..] + b else b[k - |a|..]
  {
  }

  // ----- text without a count line -----

  lemma {:induction false} DigitsThenBreak(s: string)
    ensures DigitPrefix(s + "\n\n") == DigitPrefix(s)
  {
    var ended := s + "\n\n";
    if s == [] {
      assert ended == "\n\n";
    } else {
      assert ended[0] == s[0] && ended[1..] == s[1..] + "\n\n";
      DigitsThenBreak(s[1..]);
    }
  }

  lemma DigitsEndWithBreak(s: string)
    ensures DigitsEndLine(s + "\n\n") == DigitsEndLine(s)
  {
    DigitsThenBreak(s);
    var d := DigitPrefix(s);
    assert (s + "\n\n")[d..] == s[d..] + "\n\n";
  }

  lemma ShortIsNoCount(body: string)
    requires |body| < 13
    ensures !IsCountLine(body) && !IsCountLine(body + "\n\n")
  {
    var ended := body + "\n\n";
    assert ended[|body|] == '\n' && COUNT_LABEL[|body|] != '\n';
  }

  lemma FrontWithBreak(body: string)
    ensures IsCountLine(body + "\n\n") == IsCountLine(body)
  {
    if |body| < 13 {
      ShortIsNoCount(body);
    } else {
      DigitsEndWithBreak(body[13..]);
      assert (body + "\n\n")[..13] == body[..13] && (body + "\n\n")[13..] == body[13..] + "\n\n";
    }
  }

  /** A terminator after the text makes no line of it a count line. */
  lemma {:induction false} NoneWithBreak(body: string, lineStart: bool)
    requires FindCount(body, lineStart).None?
    ensures FindCount(body + "\n\n", lineStart).None?
    decreases |body|
  {
    FrontWithBreak(body);
    if body == [] {
      assert body + "\n\n" == "\n\n";
      TwoBreaks(lineStart);
    } else {
      TakeFirst(body, "\n\n");
      NoneWithBreak(body[1..], IsLineTerminator(body[0]));
    }
  }

  lemma {:induction false} TwoBreaks(lineStart: bool)
    ensures FindCount("\n\n", lineStart).None?
  {
    assert "\n\n"[1..] == "\n" && "\n"[1..] == [];
    assert "\n\n"[0] != COUNT_LABEL[0] && "\n"[0] != COUNT_LABEL[0];
    FindNothing([], []);
    assert FindCount("\n", true).None?;
  }

  // ----- reading and writing -----

  lemma {:induction false} FoundLine(body: string, k: nat)
    requires FindCount(body, true) == Some(k)
    ensures FindCount(body[..k], true).None? && (k == 0 || IsLineTerminator(body[..k][k - 1]))
    ensures LineEnds(AfterDigits(body[k + 13..]))
  {
    NoneBefore(body, true, k);
    assert body[k..][13..] == body[k + 13..];
  }

  lemma {:induction false} CountReplaced(body: string, count: nat, k: nat)
    requires FindCount(body, true) == Some(k)
    ensures CountIn(WithCount(body, count)) == count
  {
    FoundLine(body, k);
    CountPlaced(body[..k], count, AfterDigits(body[k + 13..]));
  }

  lemma {:induction false} CountAppended(body: string, count: nat)
    requires FindCount(body, true).None?
    ensures CountIn(WithCount(body, count)) == count
  {
    var head := body + "\n\n";
    NoneWithBreak(body, true);
    assert head[|head| - 1] == '\n';
    CountPlaced(head, count, []);
    Padded(CountLine(count));
    Regroup(body, "\n\n", CountLine(count));
  }

  /** Writing a count and reading it back, for every body whatever people added to it. */
  lemma CountReadsBack(body: string, count: nat)
    ensures CountIn(WithCount(body, count)) == count
  {
    var found := FindCount(body, true);
    if found.Some? {
      CountReplaced(body, count, found.value);
    } else {
      CountAppended(body, count);
    }
  }

  // ----- whose body it stays -----

  /** The marker is on the first line, which is no count line. */
  lemma {:induction false} CountBelowMarker(body: string, id: string, k: nat)
    requires IsId(id) && Marked(body, id) && FindCount(body, true) == Some(k)
    ensures |IssueMarker(id)| < k
  {
    MarkerLine(body, id);
    NoneBefore(body, true, k);
    assert body[0..] == body;
  }

  lemma MarkerLine(body: string, id: string)
    requires IsId(id) && IssueMarker(id) <= body
    ensures !IsCountLine(body) && forall i :: 0 <= i < |IssueMarker(id)| ==> !IsLineTerminator(body[i])
  {
    MarkerIsOneLine(id);
    assert body[0] == IssueMarker(id)[0] && COUNT_LABEL[0] == 'O';
    forall i | 0 <= i < |IssueMarker(id)| ensures !IsLineTerminator(body[i]) {
      assert body[i] == IssueMarker(id)[i] && IssueMarker(id)[i] in IssueMarker(id);
    }
  }

  lemma CountLineJoins(a: string, count: nat, b: string)
    requires Clean(a) && Clean(b)
    ensures Clean(a + (CountLine(count) + b)) && (a + (CountLine(count) + b))[0] == if a == [] then 'O' else a[0]
  {
    CountLineHasNoBracket(count);
    SkipPlain(CountLine(count), b);
    CleanJoin(a, CountLine(count) + b);
  }

  lemma PlacedStaysMarked(id: string, front: string, count: nat, after: string)
    requires Clean(front) && Clean(after) && front != [] && front[0] !in "!-"
    ensures Marked((IssueMarker(id) + front) + (CountLine(count) + after), id)
  {
    CountLineJoins(front, count, after);
    Regroup(IssueMarker(id), front, CountLine(count) + after);
    MarkedBody(id, front + (CountLine(count) + after));
  }

  /** What stands between the marker and the count line, and what is left after it, opens no comment. */
  lemma AroundCountLine(body: string, marker: string, k: nat, after: string)
    requires marker <= body && |marker| < k <= |body| - |after| && Clean(body[|marker|..])
    requires after == body[|body| - |after|..]
    ensures body[..k] == marker + body[|marker|..k] && Clean(body[|marker|..k]) && Clean(after)
  {
    var rest := body[|marker|..];
    TakeClean(rest, k - |marker|);
    DropClean(rest, |rest| - |after|);
    assert rest[..k - |marker|] == body[|marker|..k] && rest[|rest| - |after|..] == after;
  }

  lemma {:induction false} ReplacedStaysMarked(body: string, id: string, count: nat, k: nat)
    requires IsId(id) && Marked(body, id) && FindCount(body, true) == Some(k)
    ensures Marked(WithCount(body, count), id)
  {
    var marker, after := IssueMarker(id), AfterDigits(body[k + 13..]);
    CountBelowMarker(body, id, k);
    AroundCountLine(body, marker, k, after);
    PlacedStaysMarked(id, body[|marker|..k], count, after);
  }

  lemma {:induction false} AppendedStaysMarked(body: string, id: string, count: nat)
    requires IsId(id) && Marked(body, id) && FindCount(body, true).None?
    ensures Marked(WithCount(body, count), id)
  {
    var marker := IssueMarker(id);
    var rest := body[|marker|..];
    NoBracketIsClean("\n\n");
    NoBracketIsClean([]);
    CleanJoin(rest, "\n\n");
    CountLineJoins(rest + "\n\n", count, []);
    Padded(CountLine(count));
    Regroup(rest, "\n\n", CountLine(count));
    Regroup(marker, rest, "\n\n" + CountLine(count));
    assert marker + rest == body;
    MarkedBody(id, rest + ("\n\n" + CountLine(count)));
  }

  /** Rewriting the count, whatever people added below the marker, leaves the issue the flake's own. */
  lemma CountKeepsMarked(body: string, id: string, count: nat)
    requires IsId(id) && Marked(body, id)
    ensures Marked(WithCount(body, count), id)
  {
    var found := FindCount(body, true);
    if found.Some? {
      ReplacedStaysMarked(body, id, count, found.value);
    } else {
      AppendedStaysMarked(body, id, count);
    }
  }

  /** The body after any number of runs. */
  function Rewritten(body: string, counts: seq<nat>): string {
    if counts == [] then body else WithCount(Rewritten(body, counts[..|counts| - 1]), counts[|counts| - 1])
  }

  lemma {:induction false} RewrittenIsMarked(body: string, id: string, counts: seq<nat>)
    requires IsId(id) && Marked(body, id)
    ensures Marked(Rewritten(body, counts), id)
  {
    if counts != [] {
      RewrittenIsMarked(body, id, counts[..|counts| - 1]);
      CountKeepsMarked(Rewritten(body, counts[..|counts| - 1]), id, counts[|counts| - 1]);
    }
  }

  /** However often its count was rewritten, an issue's body names its own flake, no other, and holds the last count. */
  lemma {:induction false} RewrittenBodyNames(id: string, subject: string, first: nat, counts: seq<nat>, other: string)
    requires IsId(id) && IsId(other)
    ensures Contains(Rewritten(IssueBody(id, subject, first), counts), IssueMarker(other)) <==> id == other
    ensures counts != [] ==> CountIn(Rewritten(IssueBody(id, subject, first), counts)) == counts[|counts| - 1]
  {
    NewBodyIsMarked(id, subject, first);
    RewrittenIsMarked(IssueBody(id, subject, first), id, counts);
    MarkedNames(Rewritten(IssueBody(id, subject, first), counts), id, other);
    if counts != [] {
      CountReadsBack(Rewritten(IssueBody(id, subject, first), counts[..|counts| - 1]), counts[|counts| - 1]);
    }
  }

  lemma SameDigitsOf(rest: string, line: string)
    requires rest != [] && IsLineTerminator(rest[|rest| - 1])
    ensures DigitsOf(rest + line) == DigitsOf(rest)
  {
    DigitsStop(rest, line);
  }

  /** After the label of a count line there is more, up to the end of the text. */
  lemma {:induction false} MoreAfterLabel(head: string, k: nat)
    requires head != [] && FindCount(head, true) == Some(k)
    ensures head[k + 13..] != [] && head[k + 13..][|head[k + 13..]| - 1] == head[|head| - 1]
  {
    NoneBefore(head, true, k);
    assert head[k..][13..] == head[k + 13..];
  }

  lemma {:induction false} CountAt(body: string, k: nat, after: string)
    requires FindCount(body, true) == Some(k) && body[k + 13..] == after
    ensures CountIn(body) == ParseDigits(DigitsOf(after))
  {
  }

  lemma {:induction false} CountInHead(head: string, line: string, k: nat)
    requires head != [] && IsLineTerminator(head[|head| - 1])
    requires FindCount(head, true) == Some(k) && FindCount(head + line, true) == Some(k)
    ensures CountIn(head + line) == CountIn(head)
  {
    var after := head[k + 13..];
    MoreAfterLabel(head, k);
    Dropped(head, line, k + 13);
    SameDigitsOf(after, line);
    CountAt(head, k, after);
    CountAt(head + line, k, after + line);
  }

  lemma {:induction false} CountAfter(head: string, count: nat, tail: string)
    requires head != [] && IsLineTerminator(head[|head| - 1]) && LineEnds(tail)
    ensures CountIn(head + (CountLine(count) + tail)) == if FindCount(head, true).None? then count else CountIn(head)
  {
    var line := CountLine(count) + tail;
    if FindCount(head, true).None? {
      CountPlaced(head, count, tail);
    } else {
      FindAfter(head, true, line);
      CountInHead(head, line, FindCount(head, true).value);
    }
  }

  lemma BodyParts(id: string, subject: string, count: nat) returns (head: string, tail: string)
    ensures head == IssueMarker(id) + Heading(subject)
    ensures head != [] && IsLineTerminator(head[|head| - 1]) && LineEnds(tail)
    ensures IssueBody(id, subject, count) == head + (CountLine(count) + tail)
  {
    head, tail := IssueMarker(id) + Heading(subject), TAIL;
    EndsWithBreak("\n**Flaky in CI:** " + CodeSpan(subject));
    Regroup(IssueMarker(id), Heading(subject), CountLine(count) + TAIL);
    LastStays(IssueMarker(id), Heading(subject));
    TailEndsLine();
  }

  lemma EndsWithBreak(s: string)
    ensures var t := s + "\n\n"; t != [] && IsLineTerminator(t[|t| - 1])
  {
  }

  lemma LastStays(a: string, b: string)
    requires b != []
    ensures (a + b)[|a + b| - 1] == b[|b| - 1]
  {
  }

  lemma TailEndsLine()
    ensures LineEnds(TAIL)
  {
    assert TAIL[0] == '\n';
  }

  /**
   * A new issue's body carries the count it was given, unless its heading holds a count line: then that one is read.
   */
  lemma CountOfBody(id: string, subject: string, count: nat)
    ensures var head := IssueMarker(id) + Heading(subject);
            CountIn(IssueBody(id, subject, count)) == if FindCount(head, true).None? then count else CountIn(head)
  {
    var head, tail := BodyParts(id, subject, count);
    CountAfter(head, count, tail);
  }

  // ----- a test name that holds a count line -----

  predicate PlainText(s: string) {
    Trimmed(s) && s != [] && forall c :: c in s ==> !IsControl(c) && c != '<'
  }

  lemma {:induction false} NothingToNeutralize(s: string)
    requires '<' !in s
    ensures Neutralize(s) == s
  {
    if s != [] {
      assert s[0] in s;
      assert !(OPENER <= s);
      NothingToNeutralize(s[1..]);
    }
  }

  lemma {:induction false} NothingToCollapse(s: string)
    requires forall c :: c in s ==> !IsControl(c)
    ensures Collapse(s, false) == s
  {
    if s != [] {
      assert s[0] in s;
      NothingToCollapse(s[1..]);
    }
  }

  lemma PlainIsOneLine(s: string)
    requires PlainText(s)
    ensures OneLine(s) == s
  {
    NothingToNeutralize(s);
    NothingToCollapse(s);
    assert TrimEnd(s) == s && TrimStart(s) == s;
  }

  /** One line that does not begin with a count line has none. */
  lemma {:induction false} NoneInLine(line: string, lineStart: bool)
    requires line != [] && IsLineTerminator(line[|line| - 1])
    requires forall k :: 0 <= k < |line| - 1 ==> !IsLineTerminator(line[k])
    requires lineStart ==> line[0] != 'O'
    ensures FindCount(line, lineStart).None?
    decreases |line|
  {
    assert COUNT_LABEL[0] == 'O';
    if |line| == 1 {
      FindNothing(line[1..], []);
    } else {
      NoneInLine(line[1..], false);
    }
  }

  /** Two lines, then a count line: that is the count. */
  lemma CountOnThirdLine(one: string, two: string, count: nat, rest: string)
    requires one != [] && IsLineTerminator(one[|one| - 1]) && one[0] != 'O'
    requires forall k :: 0 <= k < |one| - 1 ==> !IsLineTerminator(one[k])
    requires two != [] && IsLineTerminator(two[|two| - 1]) && two[0] != 'O'
    requires forall k :: 0 <= k < |two| - 1 ==> !IsLineTerminator(two[k])
    requires LineEnds(rest)
    ensures CountIn(one + two + (CountLine(count) + rest)) == count
  {
    NoneInLine(one, true);
    NoneInLine(two, true);
    FindAfter(one, true, two);
    CountPlaced(one + two, count, rest);
  }

  /**
   * A line separator is no control character, so a test name may hold a line of its own that looks like the count:
   * a new issue then reads that count, whatever it was given.
   */
  lemma SubjectCarriesCount(id: string, name: string, forged: nat, count: nat)
    requires IsId(id) && PlainText(name + "\U{2028}" + CountLine(forged) + "\U{2028}" + name)
    requires forall c :: c in name ==> !IsLineTerminator(c)
    ensures CountIn(IssueBody(id, name + "\U{2028}" + CountLine(forged) + "\U{2028}" + name, count)) == forged
  {
    var subject := name + "\U{2028}" + CountLine(forged) + "\U{2028}" + name;
    var before, after := SpanOf(name, forged);
    MarkerIsOneLine(id);
    BodyOf(id, subject, count, before, CountLine(forged), after);
    CountOnThirdLine(IssueMarker(id) + "\n", HEAD + before, forged, after + "\n\n" + (CountLine(count) + TAIL));
  }

  /** The code span of such a name: the line before the forged count line, and what follows it. */
  lemma SpanOf(name: string, forged: nat) returns (before: string, after: string)
    requires PlainText(name + "\U{2028}" + CountLine(forged) + "\U{2028}" + name)
    requires forall c :: c in name ==> !IsLineTerminator(c)
    ensures CodeSpan(name + "\U{2028}" + CountLine(forged) + "\U{2028}" + name) == before + (CountLine(forged) + after)
    ensures after != [] && IsLineTerminator(after[0])
    ensures var two := HEAD + before;
            && two[0] == '*' && IsLineTerminator(two[|two| - 1]) && forall k :: 0 <= k < |two| - 1 ==>
                   !IsLineTerminator(two[k])
  {
    var subject := name + "\U{2028}" + CountLine(forged) + "\U{2028}" + name;
    PlainIsOneLine(subject);
    var ticks := Ticks(LongestTicks(subject, 0) + 1);
    before, after := ticks + " " + name + "\U{2028}", "\U{2028}" + name + " " + ticks;
    SpanSplits(ticks, " ", name, "\U{2028}", CountLine(forged));
    SecondLine(ticks, name);
    Regroup("\U{2028}", name, " " + ticks);
  }

  lemma BodyOf(id: string, subject: string, count: nat, before: string, line: string, after: string)
    requires CodeSpan(subject) == before + (line + after)
    ensures IssueBody(id, subject, count)
            == (IssueMarker(id) + "\n") + (HEAD + before) + (line + (after + "\n\n" + (CountLine(count) + TAIL)))
  {
    BodySplits(IssueMarker(id), "\n", HEAD, before, line, after, "\n\n", CountLine(count) + TAIL);
    assert "\n" + HEAD == "\n**Flaky in CI:** ";
  }

  const HEAD: string := "**Flaky in CI:** "

  lemma SpanSplits(ticks: string, space: string, name: string, line: string, count: string)
    ensures ticks + space + (name + line + count + line + name) + space + ticks
            == ticks + space + name + line + (count + (line + name + space + ticks))
  {
  }

  lemma BodySplits(marker: string, line: string, head: string, before: string, count: string, after: string,
                   blank: string, rest: string)
    ensures marker + ((line + head + (before + (count + after)) + blank) + rest)
            == (marker + line) + (head + before) + (count + (after + blank + rest))
  {
  }

  lemma SecondLine(ticks: string, name: string)
    requires forall c :: c in ticks ==> c == '`'
    requires forall c :: c in name ==> !IsLineTerminator(c)
    ensures var two := HEAD + (ticks + " " + name + "\U{2028}");
            && two[0] == '*' && two[|two| - 1] == '\U{2028}'
            && forall k :: 0 <= k < |two| - 1 ==> !IsLineTerminator(two[k])
  {
    var text := HEAD + (ticks + " " + name);
    forall c | c in text ensures !IsLineTerminator(c) {
      assert c in HEAD || c in ticks || c == ' ' || c in name;
    }
    assert HEAD + (ticks + " " + name + "\U{2028}") == text + "\U{2028}";
  }

  lemma MarkerIsOneLine(id: string)
    requires IsId(id)
    ensures forall c :: c in IssueMarker(id) ==> !IsLineTerminator(c)
    ensures IssueMarker(id)[0] == '<'
  {
  }
}
