/**
 * The flake ledger's hidden markers, which tell occurrences apart, and text that cannot forge one however it is made.
 */
module FlakeMarkers {
  import opened JsText
  import opened Decimals
  import opened Sequences

  // ----- percent-encoding -----

  type Byte = x: int | 0 <= x < 256

  /** The UTF-8 bytes of a text. */
  type Bytes = seq<Byte>

  /** Characters that encodeURIComponent leaves as they are. */
  predicate IsUnreserved(b: Byte) {
    || '0' as int <= b <= '9' as int || 'A' as int <= b <= 'Z' as int || 'a' as int <= b <= 'z' as int
    || (b as char) in "-_.!~*'()"
  }

  function HexDigit(d: int): char
    requires 0 <= d < 16
  {
    if d < 10 then ('0' as int + d) as char else ('A' as int + d - 10) as char
  }

  function Escape(b: Byte): string {
    if IsUnreserved(b) then [b as char] else ['%', HexDigit(b / 16), HexDigit(b % 16)]
  }

  function Encode(bytes: Bytes): string {
    if bytes == [] then "" else Escape(bytes[0]) + Encode(bytes[1..])
  }

  lemma EscapeDecodes(a: Byte, b: Byte, x: string, y: string)
    requires Escape(a) + x == Escape(b) + y
    ensures a == b && x == y
  {
    var s, t := Escape(a) + x, Escape(b) + y;
    assert s[0] == t[0];
    if IsUnreserved(a) {
      assert s[1..] == x && t[1..] == y;
    } else {
      assert s[1] == HexDigit(a / 16) && s[2] == HexDigit(a % 16);
      assert t[1] == HexDigit(b / 16) && t[2] == HexDigit(b % 16);
      assert s[3..] == x && t[3..] == y;
    }
  }

  /** No encoded text holds a colon, a space or an angle bracket. */
  lemma {:induction false} EncodedIsPlain(bytes: Bytes)
    ensures forall c :: c in Encode(bytes) ==> c !in ": <>"
  {
    if bytes != [] {
      EncodedIsPlain(bytes[1..]);
    }
  }

  /** What follows an encoded part does not begin like one. */
  predicate Ends(rest: string) {
    rest == [] || rest[0] in ": "
  }

  lemma EscapedIsPlain(b: Byte)
    ensures Escape(b) != [] && forall c :: c in Escape(b) ==> c !in ": <>"
  {
  }

  lemma {:induction false} EncodeFirst(bytes: Bytes, rest: string)
    requires bytes != []
    ensures Encode(bytes) + rest == Escape(bytes[0]) + (Encode(bytes[1..]) + rest)
  {
    Regroup(Escape(bytes[0]), Encode(bytes[1..]), rest);
  }

  lemma {:induction false} EncodedEnds(bytes: Bytes, rest: string)
    requires Ends(rest)
    ensures bytes == [] <==> Ends(Encode(bytes) + rest)
  {
    if bytes == [] {
      assert [] + rest == rest;
    } else {
      EscapedIsPlain(bytes[0]);
      EncodeFirst(bytes, rest);
      assert (Encode(bytes) + rest)[0] == Escape(bytes[0])[0];
      assert Escape(bytes[0])[0] in Escape(bytes[0]);
    }
  }

  lemma {:induction false} EncodeDecodes(a: Bytes, b: Bytes, x: string, y: string)
    requires Ends(x) && Ends(y) && Encode(a) + x == Encode(b) + y
    ensures a == b && x == y
    decreases |a|
  {
    EncodedEnds(a, x);
    EncodedEnds(b, y);
    if a == [] {
      assert [] + x == x && [] + y == y;
    } else {
      EncodeFirst(a, x);
      EncodeFirst(b, y);
      EscapeDecodes(a[0], b[0], Encode(a[1..]) + x, Encode(b[1..]) + y);
      EncodeDecodes(a[1..], b[1..], x, y);
      assert a == [a[0]] + a[1..] && b == [b[0]] + b[1..];
    }
  }

  // ----- occurrence markers -----

  /** One occurrence: the run, the attempt of the run, the job, its operating system, and the flake. */
  datatype Marker = Marker(runId: Bytes, attempt: nat, job: Bytes, os: Bytes, id: Bytes)

  function Ascii(digits: string): (bytes: Bytes)
    requires AllDigits(digits)
    ensures |bytes| == |digits| && forall i :: 0 <= i < |digits| ==> bytes[i] == digits[i] as int
  {
    if digits == [] then []
    else
      assert digits[0] in digits;
      [digits[0] as int] + Ascii(digits[1..])
  }

  function Parts(m: Marker): seq<Bytes> {
    [m.runId, Ascii(Decimal(m.attempt)), m.job, m.os, m.id]
  }

  function Joined(parts: seq<Bytes>): string {
    if parts == [] then ""
    else if |parts| == 1 then Encode(parts[0])
    else Encode(parts[0]) + (":" + Joined(parts[1..]))
  }

  const OPENER: string := "<!--"
  const CLOSER: string := " -->"

  function OccurrenceMarker(m: Marker): string {
    "<!-- ci-flaky-run:" + (Joined(Parts(m)) + CLOSER)
  }

  /** What follows the first part of a marker. */
  function AfterFirst(parts: seq<Bytes>): (rest: string)
    requires parts != []
    ensures Ends(rest)
  {
    if |parts| == 1 then CLOSER else ":" + (Joined(parts[1..]) + CLOSER)
  }

  lemma {:induction false} JoinedFirst(parts: seq<Bytes>)
    requires parts != []
    ensures Joined(parts) + CLOSER == Encode(parts[0]) + AfterFirst(parts)
  {
    if |parts| > 1 {
      Regroup(Encode(parts[0]), ":" + Joined(parts[1..]), CLOSER);
      Regroup(":", Joined(parts[1..]), CLOSER);
    }
  }

  lemma {:induction false} FirstDecodes(p: seq<Bytes>, q: seq<Bytes>)
    requires p != [] && q != [] && Joined(p) + CLOSER == Joined(q) + CLOSER
    ensures p[0] == q[0] && AfterFirst(p) == AfterFirst(q)
  {
    JoinedFirst(p);
    JoinedFirst(q);
    EncodeDecodes(p[0], q[0], AfterFirst(p), AfterFirst(q));
  }

  lemma RestDecodes(p: seq<Bytes>, q: seq<Bytes>)
    requires |p| == |q| > 1 && AfterFirst(p) == AfterFirst(q)
    ensures Joined(p[1..]) + CLOSER == Joined(q[1..]) + CLOSER
  {
    SameTail(":", Joined(p[1..]) + CLOSER, Joined(q[1..]) + CLOSER);
  }

  lemma {:induction false} JoinedDecodes(p: seq<Bytes>, q: seq<Bytes>)
    requires |p| == |q| > 0 && Joined(p) + CLOSER == Joined(q) + CLOSER
    ensures p == q
    decreases |p|
  {
    FirstDecodes(p, q);
    if |p| > 1 {
      RestDecodes(p, q);
      JoinedDecodes(p[1..], q[1..]);
    }
    assert p == [p[0]] + p[1..] && q == [q[0]] + q[1..];
  }

  lemma SameTail(head: string, x: string, y: string)
    requires head + x == head + y
    ensures x == y
  {
    assert (head + x)[|head|..] == x && (head + y)[|head|..] == y;
  }

  lemma {:induction false} SameAscii(s: string, t: string)
    requires AllDigits(s) && AllDigits(t) && Ascii(s) == Ascii(t)
    ensures s == t
  {
    assert |Ascii(s)| == |s| && |Ascii(t)| == |t|;
    forall i | 0 <= i < |s| ensures s[i] == t[i] {
      assert Ascii(s)[i] == s[i] as int && Ascii(t)[i] == t[i] as int;
    }
  }

  lemma {:induction false} SameDigits(a: nat, b: nat)
    requires Ascii(Decimal(a)) == Ascii(Decimal(b))
    ensures a == b
  {
    SameAscii(Decimal(a), Decimal(b));
    ParseUndoesDecimal(a);
    ParseUndoesDecimal(b);
  }

  lemma SameParts(a: Marker, b: Marker)
    requires Parts(a) == Parts(b)
    ensures a == b
  {
    var p, q := Parts(a), Parts(b);
    assert p[0] == q[0] && p[1] == q[1] && p[2] == q[2] && p[3] == q[3] && p[4] == q[4];
    SameDigits(a.attempt, b.attempt);
  }

  /** Equal markers name the same occurrence: no part can run into its neighbour or close the comment. */
  lemma MarkersDiffer(a: Marker, b: Marker)
    requires OccurrenceMarker(a) == OccurrenceMarker(b)
    ensures a == b
  {
    var head := "<!-- ci-flaky-run:";
    SameTail(head, Joined(Parts(a)) + CLOSER, Joined(Parts(b)) + CLOSER);
    JoinedDecodes(Parts(a), Parts(b));
    SameParts(a, b);
  }

  // ----- untrusted text -----

  predicate Contains(text: string, part: string) {
    part <= text || (text != [] && Contains(text[1..], part))
  }

  /** Every comment opener gets a space. */
  function Neutralize(text: string): string {
    if text == [] then []
    else if OPENER <= text then "<! --" + Neutralize(text[4..])
    else [text[0]] + Neutralize(text[1..])
  }

  /** A first character other than an angle bracket is the text's own. */
  lemma {:induction false} FirstKept(text: string)
    ensures (Neutralize(text) != [] && Neutralize(text)[0] != '<' ==>
               text != [] && text[0] == Neutralize(text)[0] && Neutralize(text)[1..] == Neutralize(text[1..]))
  {
  }

  lemma {:induction false} RestOfOpenerKept(text: string)
    ensures "!--" <= Neutralize(text) ==> "!--" <= text
  {
    FirstKept(text);
    if "!--" <= Neutralize(text) {
      var out, two := Neutralize(text), Neutralize(text[1..]);
      assert out[0] == '!' && out[1] == '-' && out[2] == '-';
      assert two[0] == '-' && two[1] == '-';
      FirstKept(text[1..]);
      assert Neutralize(text[1..][1..])[0] == '-';
      FirstKept(text[1..][1..]);
      assert text[0] == '!' && text[1] == '-' && text[2] == '-';
    }
  }

  lemma OpenerSplits(s: string)
    ensures OPENER <= s <==> s != [] && s[0] == '<' && "!--" <= s[1..]
  {
    if s != [] {
      assert s == [s[0]] + s[1..];
    }
  }

  lemma {:induction false} NoOpenerFirst(text: string)
    ensures !(OPENER <= Neutralize(text))
  {
    OpenerSplits(text);
    OpenerSplits(Neutralize(text));
    if text != [] && !(OPENER <= text) {
      RestOfOpenerKept(text[1..]);
      assert Neutralize(text)[1..] == Neutralize(text[1..]);
    } else if text != [] {
      assert Neutralize(text)[2] == ' ';
    }
  }

  lemma {:induction false} SkipPlain(a: string, b: string)
    requires '<' !in a
    ensures Contains(a + b, OPENER) <==> Contains(b, OPENER)
  {
    if a == [] {
      assert a + b == b;
    } else {
      assert (a + b)[0] == a[0] && (a + b)[1..] == a[1..] + b;
      assert a[0] in a;
      SkipPlain(a[1..], b);
    }
  }

  /** Downloaded text cannot open a comment. */
  lemma {:induction false} NeutralizedHasNoOpener(text: string)
    ensures !Contains(Neutralize(text), OPENER)
    decreases |text|
  {
    NoOpenerFirst(text);
    if text != [] {
      if OPENER <= text {
        NeutralizedHasNoOpener(text[4..]);
        assert Neutralize(text)[1..] == "! --" + Neutralize(text[4..]);
        SkipPlain("! --", Neutralize(text[4..]));
      } else {
        NeutralizedHasNoOpener(text[1..]);
        assert Neutralize(text)[1..] == Neutralize(text[1..]);
      }
    }
  }
}
