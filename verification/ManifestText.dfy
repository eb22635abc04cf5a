/** What the text of one printed line reads back as. */
module ManifestText {
  import opened Wrappers
  import opened JsText
  import opened Decimals
  import opened UpdateManifest

  predicate SingleLine(s: string) {
    forall c :: c in s ==> !IsLineTerminator(c)
  }

  // ----- trimming -----

  lemma {:induction false} TrimEndAppend(a: string, b: string)
    ensures TrimEnd(a + b) == if TrimEnd(b) == [] then TrimEnd(a) else a + TrimEnd(b)
  {
    if b == [] {
      assert a + b == a;
    } else {
      var n := |b| - 1;
      assert (a + b)[..|a + b| - 1] == a + b[..n];
      if IsSpace(b[n]) {
        TrimEndAppend(a, b[..n]);
      }
    }
  }

  /** Text that ends in a visible character has a visible start. */
  lemma {:induction false} TrimStartVisible(s: string)
    requires s != [] && !IsSpace(s[|s| - 1])
    ensures TrimStart(s) != []
  {
    if IsSpace(s[0]) {
      TrimStartVisible(s[1..]);
    }
  }

  lemma {:induction false} TrimStartSuffix(s: string) returns (k: nat)
    ensures k <= |s| && TrimStart(s) == s[k..]
  {
    k := 0;
    if s != [] && IsSpace(s[0]) {
      k := TrimStartSuffix(s[1..]);
      assert s[1..][k..] == s[k + 1..];
      k := k + 1;
    }
  }

  /** Trimmed text is a part of the original, visible at both ends. */
  lemma {:induction false} TrimFacts(s: string)
    ensures |Trim(s)| <= |s| && Trimmed(Trim(s)) && Trim(Trim(s)) == Trim(s)
    ensures SingleLine(s) ==> SingleLine(Trim(s))
    ensures Trimmed(s) <==> Trim(s) == s
    ensures Trim(s) == [] <==> TrimEnd(s) == []
  {
    var e := TrimEnd(s);
    var k := TrimStartSuffix(e);
    if e != [] {
      TrimStartVisible(e);
      var t := TrimStart(e);
      assert t[|t| - 1] == e[|e| - 1];
      assert TrimEnd(t) == t && TrimStart(t) == t;
    }
  }

  /** What follows `key:` on a printed line reads back trimmed. */
  lemma {:induction false} AfterPrinted(prefix: string, x: string)
    requires prefix != [] && !IsSpace(prefix[|prefix| - 1]) && SingleLine(x)
    ensures var line := TrimEnd(prefix + " " + x);
            if Trim(x) == [] then line == prefix && After(prefix, line) == None
            else line == prefix + " " + TrimEnd(x) && After(prefix, line) == Some(Trim(x))
  {
    TrimFacts(x);
    TrimEndAppend(prefix + " ", x);
    TrimEndAppend(prefix, " ");
    assert TrimEnd(" ") == [];
    var line := TrimEnd(prefix + " " + x);
    if Trim(x) == [] {
      assert line[|prefix|..] == [];
    } else {
      assert line[|prefix|..] == " " + TrimEnd(x);
      assert (" " + TrimEnd(x))[1..] == TrimEnd(x);
    }
  }

  // ----- quotes -----

  lemma {:induction false} UndoubleUndoesDouble(s: string)
    ensures Undouble(Double(s)) == s
  {
    if s != [] {
      UndoubleUndoesDouble(s[1..]);
      var d := Double(s);
      if s[0] == '\'' {
        assert d == "''" + Double(s[1..]);
        assert d[2..] == Double(s[1..]);
      } else {
        assert d[1..] == Double(s[1..]);
      }
    }
  }

  lemma {:induction false} UndoubleShrinks(s: string)
    ensures |Undouble(s)| <= |s|
    ensures SingleLine(s) ==> SingleLine(Undouble(s))
  {
    if s == [] {
    } else if |s| >= 2 && s[0] == '\'' && s[1] == '\'' {
      UndoubleShrinks(s[2..]);
    } else {
      UndoubleShrinks(s[1..]);
    }
  }

  lemma {:induction false} DoubleSingleLine(s: string)
    requires SingleLine(s)
    ensures SingleLine(Double(s))
  {
    if s != [] {
      DoubleSingleLine(s[1..]);
    }
  }

  // ----- lines -----

  predicate IsBreak(c: char) {
    c == '\n' || c == '\r'
  }

  predicate NoBreaks(line: string) {
    forall c :: c in line ==> !IsBreak(c)
  }

  lemma {:induction false} SplitFirst(line: string, rest: string)
    requires NoBreaks(line)
    ensures SplitLines(line + "\n" + rest) == [line] + SplitLines(rest)
  {
    var text := line + "\n" + rest;
    if line == [] {
      assert text[1..] == rest;
    } else {
      assert text[1..] == line[1..] + "\n" + rest;
      assert text[0] == line[0] && line[0] in line;
      SplitFirst(line[1..], rest);
      assert [line[0]] + line[1..] == line;
      assert SplitLines(text[1..])[1..] == SplitLines(rest);
    }
  }

  lemma {:induction false} SplitLast(line: string)
    requires NoBreaks(line)
    ensures SplitLines(line) == [line]
  {
    if line != [] {
      assert line[0] in line;
      SplitLast(line[1..]);
      assert [line[0]] + line[1..] == line;
    }
  }

  lemma {:induction false} SplitUndoesJoin(lines: seq<string>)
    requires lines != [] && forall l :: l in lines ==> NoBreaks(l)
    ensures SplitLines(JoinLines(lines)) == lines
  {
    assert lines[0] in lines;
    if |lines| == 1 {
      SplitLast(lines[0]);
    } else {
      SplitUndoesJoin(lines[1..]);
      SplitFirst(lines[0], JoinLines(lines[1..]));
    }
  }

  // ----- numbers -----

  predicate NumberChar(c: char) {
    IsDigit(c) || c in "-.e+"
  }

  predicate NumberChars(s: string) {
    s != [] && forall c :: c in s ==> NumberChar(c)
  }

  lemma NumberTextChars(n: JsNumber)
    ensures NumberChars(NumberText(n))
  {
    var text := UnsignedText(n);
    assert NumberChars(text) by {
      if !Plain(n) {
        if n.whole > 0 {
          var whole := Decimal(n.whole);
          var digits := if n.fraction == [] then DropTrailingZeros(whole) else whole + n.fraction;
          ScientificChars(if digits == [] then whole else digits, |whole| - 1);
        } else {
          var zeros: int := LeadingZeros(n.fraction);
          var exponent: int := -(zeros + 1);
          ScientificChars(if zeros == |n.fraction| then n.fraction else n.fraction[zeros..], exponent);
        }
      }
    }
  }

  lemma ScientificChars(digits: string, exponent: int)
    requires digits != [] && AllDigits(digits)
    ensures NumberChars(Scientific(digits, exponent)) && 'e' in Scientific(digits, exponent)
  {
    var power := if exponent < 0 then "-" + Decimal(-exponent) else "+" + Decimal(exponent);
    var mantissa := [digits[0]] + (if |digits| == 1 then "" else "." + digits[1..]);
    assert Scientific(digits, exponent) == mantissa + "e" + power;
    assert digits[0] in digits;
    assert "e"[0] == 'e';
  }

  /** Number text needs no trimming and is no keyword. */
  lemma NumberTextIsBare(s: string)
    requires NumberChars(s)
    ensures Trim(s) == s && SingleLine(s) && !QuotedEnds(s) && s != "true" && s != "false"
  {
    assert s[0] in s && s[|s| - 1] in s;
    TrimFacts(s);
    assert "true"[0] == 't' && "false"[0] == 'f';
  }

  lemma UnsignedReadsBack(n: JsNumber, negative: bool)
    requires Plain(n) && negative == n.negative
    ensures UnsignedNumber(UnsignedText(n)) && ReadUnsigned(UnsignedText(n), negative) == n
  {
    var whole, text := Decimal(n.whole), UnsignedText(n);
    var point := if n.fraction == [] then "" else "." + n.fraction;
    assert text == whole + point;
    DigitPrefixOf(whole, point);
    assert text[..|whole|] == whole;
    ParseUndoesDecimal(n.whole);
    if n.fraction != [] {
      assert text[|whole| + 1..] == n.fraction;
    }
  }

  /** Numbers printed without an exponent read back exactly. */
  lemma PlainReadsBack(n: JsNumber)
    requires Plain(n)
    ensures NumberLike(NumberText(n)) && ReadNumber(NumberText(n)) == n
  {
    var whole, text := Decimal(n.whole), UnsignedText(n);
    UnsignedReadsBack(n, n.negative);
    assert whole[0] in whole && text[0] == whole[0];
    if n.negative {
      assert NumberText(n)[1..] == text;
    }
  }

  lemma ExponentNotRead(s: string)
    requires 'e' in s
    ensures !UnsignedNumber(s)
  {
    var n := DigitPrefix(s);
    assert s == s[..n] + s[n..];
    if n < |s| {
      assert s[n..] == [s[n]] + s[n + 1..];
    }
  }

  lemma ExponentReadsAsText(n: JsNumber)
    requires !Plain(n)
    ensures !NumberLike(NumberText(n)) && 'e' in NumberText(n)
  {
    var text := UnsignedText(n);
    if n.whole > 0 {
      var whole := Decimal(n.whole);
      var digits := if n.fraction == [] then DropTrailingZeros(whole) else whole + n.fraction;
      ScientificChars(if digits == [] then whole else digits, |whole| - 1);
    } else {
      var zeros: int := LeadingZeros(n.fraction);
      var exponent: int := -(zeros + 1);
      ScientificChars(if zeros == |n.fraction| then n.fraction else n.fraction[zeros..], exponent);
    }
    ExponentNotRead(text);
    NumberTextChars(n);
    if n.negative {
      assert NumberText(n)[1..] == text;
    } else {
      assert text[0] == '-' ==> 'e' in text[1..];
      if text[0] == '-' {
        ExponentNotRead(text[1..]);
      }
    }
  }

  /** A size line holds digits exactly for whole, non-negative sizes below 10^21. */
  lemma SizeText(n: JsNumber)
    ensures AllDigits(NumberText(n)) <==> !n.negative && n.fraction == [] && Plain(n)
    ensures AllDigits(NumberText(n)) ==> Integer(ParseDigits(NumberText(n))) == n
  {
    if n.negative {
      assert NumberText(n)[0] == '-';
      assert '-' in NumberText(n) && !IsDigit('-');
    } else if !Plain(n) {
      ExponentReadsAsText(n);
      assert !IsDigit('e');
    } else if n.fraction != [] {
      assert NumberText(n)[|Decimal(n.whole)|] == '.';
      assert '.' in NumberText(n) && !IsDigit('.');
    } else {
      assert NumberText(n) == Decimal(n.whole);
      ParseUndoesDecimal(n.whole);
    }
  }

  // ----- values -----

  lemma StringReadsBack(s: string)
    ensures var text := QuoteYamlString(s);
            && Trim(text) == text && text != []
            && ParseScalarValue(text) == Str(s)
            && (SingleLine(s) ==> SingleLine(text))
  {
    var text := QuoteYamlString(s);
    TrimFacts(text);
    assert text[1..|text| - 1] == Double(s);
    UndoubleUndoesDouble(s);
    if SingleLine(s) {
      DoubleSingleLine(s);
    }
  }

  lemma NumberReadsBack(n: JsNumber)
    ensures var text := NumberText(n);
            && Trim(text) == text && text != [] && SingleLine(text)
            && ParseScalarValue(text) == (if Plain(n) then Num(n) else Str(text))
  {
    NumberTextChars(n);
    NumberTextIsBare(NumberText(n));
    if Plain(n) {
      PlainReadsBack(n);
    } else {
      ExponentReadsAsText(n);
    }
  }

  lemma KeywordsReadBack()
    ensures Trim("true") == "true" && Trim("false") == "false"
    ensures ParseScalarValue("true") == Bool(true) && ParseScalarValue("false") == Bool(false)
    ensures SingleLine("true") && SingleLine("false")
  {
    TrimFacts("true");
    TrimFacts("false");
    assert "true"[0] == 't' && "false"[0] == 'f' && "true"[3] == 'e' && "false"[4] == 'e';
  }

  predicate SingleLineScalar(value: Scalar) {
    value.Str? ==> SingleLine(value.text)
  }

  /** Strings and booleans always survive; numbers exactly when printed without an exponent. */
  lemma ScalarReadsBack(value: Scalar)
    ensures var text := SerializeScalarValue(value);
            && Trim(text) == text && text != []
            && (ParseScalarValue(text) == value <==> (value.Num? ==> Plain(value.number)))
            && (SingleLineScalar(value) ==> SingleLine(text))
  {
    match value
    case Str(s) => StringReadsBack(s);
    case Num(n) => NumberReadsBack(n);
    case Bool(b) => KeywordsReadBack();
  }
}
