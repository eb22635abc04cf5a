/** The bodies of the flake ledger's issues: how a name is rendered, and why each names its own flake. */
module FlakeBodies {
  import opened JsText
  import opened Decimals
  import opened FlakeMarkers

  // ----- rendering -----

  /** What `\p{Cc}` matches. */
  predicate IsControl(c: char) {
    c < ' ' || '\U{007F}' <= c <= '\U{009F}'
  }

  /** Every run of control characters becomes a space; `after` is whether one is going on. */
  function Collapse(text: string, after: bool): string {
    if text == [] then []
    else if IsControl(text[0]) then (if after then [] else [' ']) + Collapse(text[1..], true)
    else [text[0]] + Collapse(text[1..], false)
  }

  function OneLine(text: string): string {
    Trim(Collapse(Neutralize(text), false))
  }

  /** The longest run of backticks; `run` is the length of the one that ends here. */
  function LongestTicks(text: string, run: nat): nat {
    if text == [] then run
    else if text[0] == '`' then LongestTicks(text[1..], run + 1)
    else
      var rest := LongestTicks(text[1..], 0);
      if rest < run then run else rest
  }

  function Ticks(n: nat): (ticks: string)
    ensures |ticks| == n && forall c :: c in ticks ==> c == '`'
  {
    if n == 0 then "" else "`" + Ticks(n - 1)
  }

  function CodeSpan(text: string): string {
    var value := if OneLine(text) == "" then " " else OneLine(text);
    var ticks := Ticks(LongestTicks(value, 0) + 1);
    ticks + " " + value + " " + ticks
  }

  function IssueMarker(id: string): string {
    "<!-- ci-flaky:" + id + CLOSER
  }

  const WHO: string := "Maintained by the CI flake ledger "
  const WHERE: string := "(`docs/ci.md`, \"Flaky tests\"). "
  const FIX: string := "Fix the root cause in\n"
  const HOW: string := "its own PR with repro-harness evidence "
  const TOOL: string := "(`ci-flake-repro.yml`), "
  const FINALLY: string := "then close this issue.\n"
  const AGAIN: string := "A recurrence reopens it."

  const TAIL: string := "\n\n" + (WHO + WHERE + FIX) + (HOW + TOOL + FINALLY) + AGAIN

  /** Everything before the count line but the marker. */
  function Heading(subject: string): string {
    "\n**Flaky in CI:** " + CodeSpan(subject) + "\n\n"
  }

  function IssueBody(id: string, subject: string, count: nat): string {
    IssueMarker(id) + (Heading(subject) + (CountLine(count) + TAIL))
  }

  function CountLine(count: nat): string {
    "Occurrences: " + Decimal(count)
  }

  // ----- which issue a body names -----

  /** A hash in lower-case hexadecimal. */
  predicate IsId(id: string) {
    forall c :: c in id ==> IsLowerHex(c)
  }

  predicate Clean(text: string) {
    !Contains(text, OPENER)
  }

  /** Clean texts stay clean when joined, unless the second goes on where an opener may have begun. */
  lemma {:induction false} CleanJoin(a: string, b: string)
    requires Clean(a) && Clean(b) && (b == [] || b[0] !in "!-")
    ensures Clean(a + b)
  {
    if a == [] {
      assert a + b == b;
    } else {
      assert (a + b)[1..] == a[1..] + b;
      CleanJoin(a[1..], b);
      NotAcross(a, b);
    }
  }

  lemma NotAcross(a: string, b: string)
    requires !(OPENER <= a) && a != [] && (b == [] || b[0] !in "!-")
    ensures !(OPENER <= a + b)
  {
    var s := a + b;
    assert OPENER == ['<', '!', '-', '-'];
    if |a| < 4 && |s| >= 4 {
      assert s[|a|] == b[0] && OPENER[|a|] in "!-";
    } else if |s| >= 4 {
      assert s[..4] == a[..4];
    }
  }

  lemma NoBracketIsClean(text: string)
    requires '<' !in text
    ensures Clean(text)
  {
    assert text + [] == text;
    SkipPlain(text, []);
  }

  lemma {:induction false} CollapseFirst(text: string, after: bool)
    ensures Collapse(text, after) != [] && Collapse(text, after)[0] != ' ' && !after ==>
              text != [] && text[0] == Collapse(text, after)[0]
                  && Collapse(text, after)[1..] == Collapse(text[1..], false)
  {
  }

  lemma PrefixCons(p: string, s: string)
    requires p != []
    ensures p <= s <==> s != [] && p[0] == s[0] && p[1..] <= s[1..]
  {
    if s != [] {
      assert s == [s[0]] + s[1..] && p == [p[0]] + p[1..];
    }
  }

  /** What the collapsed text begins with, up to a space, the text begins with. */
  lemma {:induction false} CollapsedPrefix(text: string, p: string)
    requires ' ' !in p
    ensures p <= Collapse(text, false) ==> p <= text
    decreases |p|
  {
    if p != [] {
      assert p[0] in p;
      PrefixCons(p, Collapse(text, false));
      PrefixCons(p, text);
      CollapseFirst(text, false);
      if text != [] {
        CollapsedPrefix(text[1..], p[1..]);
      }
    }
  }

  lemma {:induction false} CollapseKeepsClean(text: string, after: bool)
    requires Clean(text)
    ensures Clean(Collapse(text, after))
    decreases |text|
  {
    if text != [] {
      if IsControl(text[0]) {
        CollapseKeepsClean(text[1..], true);
        var rest := Collapse(text[1..], true);
        assert [] + rest == rest;
        SkipPlain(" ", rest);
      } else {
        CollapseKeepsClean(text[1..], false);
        CollapsedPrefix(text, OPENER);
        assert Collapse(text, after) == Collapse(text, false);
        assert Collapse(text, false)[1..] == Collapse(text[1..], false);
      }
    }
  }

  lemma {:induction false} DropClean(text: string, k: nat)
    requires Clean(text) && k <= |text|
    ensures Clean(text[k..])
  {
    if k > 0 {
      DropClean(text[1..], k - 1);
      assert text[1..][k - 1..] == text[k..];
    }
  }

  lemma {:induction false} TakeClean(text: string, k: nat)
    requires Clean(text) && k <= |text|
    ensures Clean(text[..k])
  {
    if k > 0 {
      TakeClean(text[1..], k - 1);
      assert text[..k][1..] == text[1..][..k - 1];
      assert text == text[..k] + text[k..];
    }
  }

  lemma {:induction false} TrimStartIsPart(s: string)
    ensures TrimStart(s) == s[|s| - |TrimStart(s)|..]
  {
    if s != [] && IsSpace(s[0]) {
      TrimStartIsPart(s[1..]);
    }
  }

  lemma TrimKeepsClean(s: string)
    requires Clean(s)
    ensures Clean(Trim(s))
  {
    var t := TrimEnd(s);
    TakeClean(s, |t|);
    assert s[..|t|] == t;
    TrimStartIsPart(t);
    DropClean(t, |t| - |TrimStart(t)|);
  }

  lemma OneLineIsClean(text: string)
    ensures Clean(OneLine(text))
  {
    NeutralizedHasNoOpener(text);
    CollapseKeepsClean(Neutralize(text), false);
    TrimKeepsClean(Collapse(Neutralize(text), false));
  }

  lemma CodeSpanIsClean(text: string)
    ensures Clean(CodeSpan(text))
  {
    var value := if OneLine(text) == "" then " " else OneLine(text);
    var ticks := Ticks(LongestTicks(value, 0) + 1);
    OneLineIsClean(text);
    NoBracketIsClean(" ");
    assert '<' !in ticks + " ";
    assert '<' !in " " + ticks;
    SkipPlain(ticks + " ", value);
    NoBracketIsClean(" " + ticks);
    CleanJoin(ticks + " " + value, " " + ticks);
    assert ticks + " " + value + (" " + ticks) == CodeSpan(text);
  }

  /** A marker followed by clean text holds the marker of its own issue and of no other. */
  lemma {:induction false} MarkedTextNames(id: string, rest: string, other: string)
    requires IsId(id) && IsId(other) && Clean(rest) && (rest == [] || rest[0] !in "!-")
    ensures Contains(IssueMarker(id) + rest, IssueMarker(other)) <==> id == other
  {
    var text := IssueMarker(id) + rest;
    var inner := text[1..];
    assert IssueMarker(id)[0] == '<' && text[0] == '<';
    assert inner == ("!-- ci-flaky:" + id + CLOSER) + rest;
    assert '<' !in "!-- ci-flaky:" + id + CLOSER by {
      assert forall c :: c in id ==> IsLowerHex(c);
    }
    SkipPlain("!-- ci-flaky:" + id + CLOSER, rest);
    MarkerHasOpener(inner, other);
    SamePrefix(id, rest, other);
  }

  lemma {:induction false} MarkerHasOpener(text: string, id: string)
    ensures Contains(text, IssueMarker(id)) ==> Contains(text, OPENER)
  {
    if IssueMarker(id) <= text {
      assert IssueMarker(id)[..4] == OPENER;
    } else if text != [] {
      MarkerHasOpener(text[1..], id);
    }
  }

  /** Where an ID ends is where the closer begins. */
  lemma {:induction false} SameId(a: string, b: string, rest: string)
    requires IsId(a) && IsId(b)
    ensures b + CLOSER <= a + (CLOSER + rest) <==> a == b
    decreases |a|
  {
    var p, s := b + CLOSER, a + (CLOSER + rest);
    PrefixCons(p, s);
    if a == [] && b == [] {
      assert p == CLOSER && s == CLOSER + rest;
    } else if a == [] {
      assert b[0] in b && p[0] == b[0] && s[0] == ' ';
    } else if b == [] {
      assert a[0] in a && s[0] == a[0] && p[0] == ' ';
    } else {
      assert p[1..] == b[1..] + CLOSER && s[1..] == a[1..] + (CLOSER + rest);
      SameId(a[1..], b[1..], rest);
      assert a == [a[0]] + a[1..] && b == [b[0]] + b[1..];
    }
  }

  lemma SamePrefix(id: string, rest: string, other: string)
    requires IsId(id) && IsId(other)
    ensures IssueMarker(other) <= IssueMarker(id) + rest <==> id == other
  {
    var head := "<!-- ci-flaky:";
    SameId(id, other, rest);
    assert IssueMarker(id) + rest == head + (id + (CLOSER + rest));
    assert IssueMarker(other) == head + (other + CLOSER);
    PrefixAfter(head, other + CLOSER, id + (CLOSER + rest));
  }

  lemma PrefixAfter(head: string, p: string, s: string)
    ensures head + p <= head + s <==> p <= s
  {
    if head + p <= head + s {
      assert (head + s)[|head|..|head + p|] == (head + p)[|head|..];
    }
  }

  lemma HeadingIsClean(subject: string)
    ensures Clean(Heading(subject)) && Heading(subject)[0] == '\n'
  {
    var head := "\n**Flaky in CI:** ";
    CodeSpanIsClean(subject);
    SkipPlain(head, CodeSpan(subject));
    NoBracketIsClean("\n\n");
    CleanJoin(head + CodeSpan(subject), "\n\n");
  }

  lemma CountLineHasNoBracket(count: nat)
    ensures '<' !in CountLine(count) && CountLine(count)[0] == 'O'
  {
    assert forall c :: c in Decimal(count) ==> IsDigit(c);
  }

  lemma FirstAdvice()
    ensures '<' !in WHO && '<' !in WHERE && '<' !in FIX
  {
  }

  lemma SecondAdvice()
    ensures '<' !in HOW && '<' !in TOOL
  {
  }

  lemma LastAdvice()
    ensures '<' !in FINALLY && '<' !in AGAIN
  {
  }

  lemma NoneInJoin(a: string, b: string, c: string)
    requires '<' !in a && '<' !in b && '<' !in c
    ensures '<' !in a + b + c
  {
  }

  lemma AdviceHasNoBracket()
    ensures '<' !in TAIL
  {
    FirstAdvice();
    SecondAdvice();
    LastAdvice();
    NoneInJoin(WHO, WHERE, FIX);
    NoneInJoin(HOW, TOOL, FINALLY);
    NoneInJoin("\n\n", WHO + WHERE + FIX, HOW + TOOL + FINALLY);
    NoneInJoin("\n\n" + (WHO + WHERE + FIX) + (HOW + TOOL + FINALLY), AGAIN, []);
    assert TAIL + [] == TAIL;
  }

  lemma RestIsClean(count: nat)
    ensures Clean(CountLine(count) + TAIL) && (CountLine(count) + TAIL)[0] == 'O'
  {
    CountLineHasNoBracket(count);
    AdviceHasNoBracket();
    NoBracketIsClean(TAIL);
    SkipPlain(CountLine(count), TAIL);
  }

  /** A body that begins with the marker of its issue and opens no comment after it. */
  predicate Marked(body: string, id: string) {
    var marker := IssueMarker(id);
    && marker <= body && Clean(body[|marker|..])
    && (|marker| < |body| ==> body[|marker|] !in "!-")
  }

  lemma MarkedBody(id: string, rest: string)
    requires Clean(rest) && (rest == [] || rest[0] !in "!-")
    ensures Marked(IssueMarker(id) + rest, id)
  {
    assert (IssueMarker(id) + rest)[|IssueMarker(id)|..] == rest;
  }

  lemma {:induction false} MarkedNames(body: string, id: string, other: string)
    requires IsId(id) && IsId(other) && Marked(body, id)
    ensures Contains(body, IssueMarker(other)) <==> id == other
  {
    var rest := body[|IssueMarker(id)|..];
    assert body == IssueMarker(id) + rest;
    MarkedTextNames(id, rest, other);
  }

  lemma NewBodyIsMarked(id: string, subject: string, count: nat)
    requires IsId(id)
    ensures Marked(IssueBody(id, subject, count), id)
  {
    HeadingIsClean(subject);
    RestIsClean(count);
    CleanJoin(Heading(subject), CountLine(count) + TAIL);
    MarkedBody(id, Heading(subject) + (CountLine(count) + TAIL));
  }

  /** An issue's body, whatever the test is called, names the issue's own flake and no other. */
  lemma BodyNamesIssue(id: string, subject: string, count: nat, other: string)
    requires IsId(id) && IsId(other)
    ensures Contains(IssueBody(id, subject, count), IssueMarker(other)) <==> id == other
  {
    NewBodyIsMarked(id, subject, count);
    MarkedNames(IssueBody(id, subject, count), id, other);
  }
}
