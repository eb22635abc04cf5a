/**
 * Precedence of release versions as text, with any prerelease identifiers: a total order on the accepted tokens, and
 * the order of the numbers.
 */
module ReleaseVersions {
  import opened Wrappers
  import opened JsText
  import opened Decimals
  import opened Sorting
  import opened Publication

  datatype VersionError = InvalidVersion | NotCanonical

  // ----- tokens -----

  /** Where the first hyphen is, or the end. */
  function DashAt(s: string): (k: nat)
    ensures k <= |s| && '-' !in s[..k] && (k < |s| ==> s[k] == '-')
  {
    if s == [] || s[0] == '-' then 0
    else
      var k := DashAt(s[1..]);
      assert s[..1 + k] == [s[0]] + s[1..][..k];
      1 + k
  }

  function CoreParts(s: string): (parts: seq<string>)
    ensures parts != []
  {
    Split(s[..DashAt(s)], '.')
  }

  predicate HasTail(s: string) {
    DashAt(s) < |s|
  }

  function Identifiers(s: string): (ids: seq<string>)
    ensures ids == [] <==> !HasTail(s)
  {
    if HasTail(s) then Split(s[DashAt(s) + 1..], '.') else []
  }

  predicate Numeric(s: string) {
    s != [] && AllDigits(s)
  }

  predicate LeadingZero(s: string) {
    |s| > 1 && s[0] == '0' && AllDigits(s)
  }

  predicate Alphanumeric(s: string) {
    s != [] && forall c :: c in s ==> IsLetter(c) || IsDigit(c)
  }

  /** Letters and digits, in groups joined by hyphens. */
  predicate IsIdentifier(s: string) {
    forall group :: group in Split(s, '-') ==> Alphanumeric(group)
  }

  /** Three numbers joined by dots, and identifiers joined by dots after a hyphen. */
  predicate Shaped(s: string) {
    && |s| <= 100 && |CoreParts(s)| == 3
    && (forall part :: part in CoreParts(s) ==> Numeric(part))
    && (forall id :: id in Identifiers(s) ==> IsIdentifier(id))
  }

  predicate WithoutLeadingZeros(s: string) {
    && (forall part :: part in CoreParts(s) ==> !LeadingZero(part))
    && (forall id :: id in Identifiers(s) ==> !LeadingZero(id))
  }

  predicate Canonical(s: string) {
    Shaped(s) && WithoutLeadingZeros(s)
  }

  function Refusal(s: string): Option<VersionError> {
    if !Shaped(s) then Some(InvalidVersion) else if !WithoutLeadingZeros(s) then Some(NotCanonical) else None
  }

  // ----- precedence -----

  function CoreNumber(s: string, k: nat): nat
    requires k < |CoreParts(s)| && Numeric(CoreParts(s)[k])
  {
    ParseDigits(CoreParts(s)[k])
  }

  predicate NumericCore(s: string) {
    |CoreParts(s)| == 3 && Numeric(CoreParts(s)[0]) && Numeric(CoreParts(s)[1]) && Numeric(CoreParts(s)[2])
  }

  function CompareCores(a: string, b: string, k: nat): int
    requires NumericCore(a) && NumericCore(b) && k <= 3
    decreases 3 - k
  {
    if k == 3 then 0
    else if CoreNumber(a, k) != CoreNumber(b, k) then CompareNumbers(CoreNumber(a, k), CoreNumber(b, k))
    else CompareCores(a, b, k + 1)
  }

  /** Numbers by value and below other identifiers, those by code unit. */
  function CompareIdentifier(x: string, y: string): int {
    if x == y then 0
    else if Numeric(x) && Numeric(y) then if ParseDigits(x) > ParseDigits(y) then 1 else -1
    else if Numeric(x) != Numeric(y) then if Numeric(x) then -1 else 1
    else if LexLess(y, x) then 1 else -1
  }

  /** The first difference from position `k` on; a list that ends first comes first. */
  function CompareFrom(a: seq<string>, b: seq<string>, k: nat): int
    decreases |a| - k
  {
    if k >= |a| then if k >= |b| then 0 else -1
    else if k >= |b| then 1
    else if a[k] == b[k] then CompareFrom(a, b, k + 1)
    else CompareIdentifier(a[k], b[k])
  }

  /** Semantic Versioning section 11; no prerelease comes last. */
  function ComparePrereleases(a: seq<string>, b: seq<string>): int {
    if a == [] || b == [] then if |a| == |b| then 0 else if a != [] then -1 else 1
    else CompareFrom(a, b, 0)
  }

  function Compare(a: string, b: string): int
    requires NumericCore(a) && NumericCore(b)
  {
    var cores := CompareCores(a, b, 0);
    if cores != 0 then cores else ComparePrereleases(Identifiers(a), Identifiers(b))
  }

  lemma ShapedCore(s: string)
    requires Shaped(s)
    ensures NumericCore(s)
  {
  }

  function Precedence(a: string, b: string): Result<int, VersionError> {
    if Refusal(a).Some? then Failure(Refusal(a).value)
    else if Refusal(b).Some? then Failure(Refusal(b).value)
    else
      ShapedCore(a);
      ShapedCore(b);
      Success(Compare(a, b))
  }

  /** The comparison as it is done, position by position. */
  method CompareReleases(left: string, right: string) returns (result: Result<int, VersionError>)
    ensures result == Precedence(left, right)
  {
    if Refusal(left).Some? {
      return Failure(Refusal(left).value);
    }
    if Refusal(right).Some? {
      return Failure(Refusal(right).value);
    }
    for index := 0 to 3
      invariant CompareCores(left, right, 0) == CompareCores(left, right, index)
    {
      var x, y := CoreNumber(left, index), CoreNumber(right, index);
      if x != y {
        return Success(if x > y then 1 else -1);
      }
    }
    var a, b := Identifiers(left), Identifiers(right);
    if a == [] || b == [] {
      return Success(if |a| == |b| then 0 else if a != [] then -1 else 1);
    }
    var order := CompareLists(a, b);
    return Success(order);
  }

  method CompareLists(a: seq<string>, b: seq<string>) returns (order: int)
    ensures order == CompareFrom(a, b, 0)
  {
    var longer := if |a| > |b| then |a| else |b|;
    for index := 0 to longer
      invariant CompareFrom(a, b, 0) == CompareFrom(a, b, index)
    {
      if index >= |a| || index >= |b| {
        return if index >= |a| then -1 else 1;
      }
      var x, y := a[index], b[index];
      if x != y {
        if Numeric(x) && Numeric(y) {
          return if ParseDigits(x) > ParseDigits(y) then 1 else -1;
        }
        if Numeric(x) != Numeric(y) {
          return if Numeric(x) then -1 else 1;
        }
        return if LexLess(y, x) then 1 else -1;
      }
    }
    return 0;
  }

  // ----- a total order on canonical tokens -----

  lemma {:induction false} NoZeroIsPositive(s: string)
    requires Numeric(s) && s[0] != '0'
    ensures ParseDigits(s) > 0
  {
    assert s[0] in s && s[|s| - 1] in s;
    if |s| > 1 {
      assert s[..|s| - 1][0] == s[0];
      NoZeroIsPositive(s[..|s| - 1]);
    }
  }

  lemma DecimalStep(front: nat, d: nat)
    requires front > 0 && d < 10
    ensures Decimal(10 * front + d) == Decimal(front) + [DigitChar(d)]
  {
    assert (10 * front + d) / 10 == front && (10 * front + d) % 10 == d;
  }

  lemma {:induction false} ParseStep(s: string)
    requires Numeric(s)
    ensures AllDigits(s[..|s| - 1]) && IsDigit(s[|s| - 1])
    ensures ParseDigits(s) == 10 * ParseDigits(s[..|s| - 1]) + DigitValue(s[|s| - 1])
    ensures s == s[..|s| - 1] + [DigitChar(DigitValue(s[|s| - 1]))]
  {
    assert s[|s| - 1] in s;
  }

  lemma {:induction false} DecimalUndoesParse(s: string)
    requires Numeric(s) && !LeadingZero(s)
    ensures Decimal(ParseDigits(s)) == s
  {
    var front, last := s[..|s| - 1], s[|s| - 1];
    ParseStep(s);
    if front == [] {
      assert s == [last];
    } else {
      assert front[0] == s[0];
      NoZeroIsPositive(front);
      DecimalUndoesParse(front);
      DecimalStep(ParseDigits(front), DigitValue(last));
    }
  }

  lemma {:induction false} NumbersDiffer(x: string, y: string)
    requires Numeric(x) && Numeric(y) && !LeadingZero(x) && !LeadingZero(y)
    ensures ParseDigits(x) == ParseDigits(y) <==> x == y
  {
    DecimalUndoesParse(x);
    DecimalUndoesParse(y);
  }

  /** What each comparison is: antisymmetric, zero for equal operands only. */
  predicate Opposite(forth: int, back: int, same: bool) {
    forth == -back && (forth == 0 <==> same)
  }

  lemma IdentifierOpposite(x: string, y: string)
    requires !LeadingZero(x) && !LeadingZero(y)
    ensures Opposite(CompareIdentifier(x, y), CompareIdentifier(y, x), x == y)
  {
    LexTrichotomy(x, y);
    if Numeric(x) && Numeric(y) {
      NumbersDiffer(x, y);
    }
  }

  lemma IdentifierChains(x: string, y: string, z: string)
    requires !LeadingZero(x) && !LeadingZero(y) && !LeadingZero(z)
    requires CompareIdentifier(x, y) > 0 && CompareIdentifier(y, z) > 0
    ensures CompareIdentifier(x, z) > 0
  {
    LexTrichotomy(x, z);
    LexTrichotomy(y, z);
    if Numeric(x) && Numeric(z) {
      assert Numeric(y);
    } else if !Numeric(x) && !Numeric(y) && !Numeric(z) {
      LexTransitive(z, y, x);
    }
  }

  predicate NoneZeroLed(ids: seq<string>) {
    forall id :: id in ids ==> !LeadingZero(id)
  }

  lemma {:induction false} ListOpposite(a: seq<string>, b: seq<string>, k: nat)
    requires NoneZeroLed(a) && NoneZeroLed(b) && k <= |a| && k <= |b|
    ensures Opposite(CompareFrom(a, b, k), CompareFrom(b, a, k), a[k..] == b[k..])
    decreases |a| - k
  {
    if k < |a| && k < |b| {
      assert a[k] in a && b[k] in b;
      assert a[k..] == [a[k]] + a[k + 1..] && b[k..] == [b[k]] + b[k + 1..];
      IdentifierOpposite(a[k], b[k]);
      if a[k] == b[k] {
        ListOpposite(a, b, k + 1);
      }
    }
  }

  lemma {:induction false} ListChains(a: seq<string>, b: seq<string>, c: seq<string>, k: nat)
    requires NoneZeroLed(a) && NoneZeroLed(b) && NoneZeroLed(c) && k <= |a| && k <= |b| && k <= |c|
    requires CompareFrom(a, b, k) > 0 && CompareFrom(b, c, k) > 0
    ensures CompareFrom(a, c, k) > 0
    decreases |a| - k
  {
    if k < |a| && k < |b| && k < |c| {
      assert a[k] in a && b[k] in b && c[k] in c;
      if a[k] == b[k] && b[k] == c[k] {
        ListChains(a, b, c, k + 1);
      } else if a[k] != b[k] && b[k] != c[k] {
        IdentifierChains(a[k], b[k], c[k]);
        IdentifierOpposite(a[k], c[k]);
      }
    }
  }

  lemma PrereleaseOpposite(a: seq<string>, b: seq<string>)
    requires NoneZeroLed(a) && NoneZeroLed(b)
    ensures Opposite(ComparePrereleases(a, b), ComparePrereleases(b, a), a == b)
  {
    ListOpposite(a, b, 0);
    assert a[0..] == a && b[0..] == b;
  }

  lemma PrereleaseChains(a: seq<string>, b: seq<string>, c: seq<string>)
    requires NoneZeroLed(a) && NoneZeroLed(b) && NoneZeroLed(c)
    requires ComparePrereleases(a, b) > 0 && ComparePrereleases(b, c) > 0
    ensures ComparePrereleases(a, c) > 0
  {
    if a != [] && b != [] && c != [] {
      ListChains(a, b, c, 0);
    }
  }

  lemma {:induction false} CoreOpposite(a: string, b: string, k: nat)
    requires NumericCore(a) && NumericCore(b) && k <= 3
    ensures Opposite(CompareCores(a, b, k), CompareCores(b, a, k),
                     forall i :: k <= i < 3 ==> CoreNumber(a, i) == CoreNumber(b, i))
    decreases 3 - k
  {
    if k < 3 {
      CoreOpposite(a, b, k + 1);
    }
  }

  lemma {:induction false} CoreChains(a: string, b: string, c: string, k: nat)
    requires NumericCore(a) && NumericCore(b) && NumericCore(c) && k <= 3
    ensures CompareCores(a, b, k) >= 0 && CompareCores(b, c, k) >= 0 ==> CompareCores(a, c, k) >= 0
    ensures CompareCores(a, b, k) > 0 && CompareCores(b, c, k) >= 0 ==> CompareCores(a, c, k) > 0
    ensures CompareCores(a, b, k) >= 0 && CompareCores(b, c, k) > 0 ==> CompareCores(a, c, k) > 0
    decreases 3 - k
  {
    if k < 3 {
      CoreChains(a, b, c, k + 1);
    }
  }

  lemma {:induction false} SplitDiffers(a: string, b: string, c: char)
    ensures Split(a, c) == Split(b, c) <==> a == b
  {
    if a != [] && b != [] {
      SplitDiffers(a[1..], b[1..], c);
      var p, q := Split(a[1..], c), Split(b[1..], c);
      SplitHead(a, c);
      SplitHead(b, c);
      assert a == [a[0]] + a[1..] && b == [b[0]] + b[1..];
      if Split(a, c) == Split(b, c) {
        assert p == [p[0]] + p[1..] && q == [q[0]] + q[1..];
        assert a[0] == c ==> Split(a, c)[1..] == p;
        assert b[0] == c ==> Split(b, c)[1..] == q;
        assert a[0] != c ==> Split(a, c)[0] == [a[0]] + p[0] && Split(a, c)[1..] == p[1..];
        assert b[0] != c ==> Split(b, c)[0] == [b[0]] + q[0] && Split(b, c)[1..] == q[1..];
        assert a[0] != c && b[0] != c ==> ([a[0]] + p[0])[1..] == p[0] && ([b[0]] + q[0])[1..] == q[0];
      }
    } else if a != [] {
      SplitHead(a, c);
    } else if b != [] {
      SplitHead(b, c);
    }
  }

  lemma {:induction false} SplitHead(s: string, c: char)
    requires s != []
    ensures if s[0] == c then Split(s, c)[0] == [] && |Split(s, c)| > 1 else Split(s, c)[0] != []
    ensures s[0] != c ==> Split(s, c)[0][0] == s[0]
  {
  }

  lemma {:induction false} SamePart(x: string, y: string)
    requires Numeric(x) && Numeric(y) && !LeadingZero(x) && !LeadingZero(y) && ParseDigits(x) == ParseDigits(y)
    ensures x == y
  {
    NumbersDiffer(x, y);
  }

  lemma SameCore(a: string, b: string)
    requires Canonical(a) && Canonical(b)
    requires forall i :: 0 <= i < 3 ==> CoreParts(a)[i] in CoreParts(a) && CoreParts(b)[i] in CoreParts(b)
    requires NumericCore(a) && NumericCore(b) && forall i :: 0 <= i < 3 ==> CoreNumber(a, i) == CoreNumber(b, i)
    ensures CoreParts(a) == CoreParts(b)
  {
    forall i | 0 <= i < 3 ensures CoreParts(a)[i] == CoreParts(b)[i] {
      assert CoreNumber(a, i) == CoreNumber(b, i);
      SamePart(CoreParts(a)[i], CoreParts(b)[i]);
    }
  }

  lemma Pieces(s: string) returns (core: string, tail: string)
    ensures CoreParts(s) == Split(core, '.') && core + tail == s && (tail == [] <==> !HasTail(s))
    ensures tail != [] ==> Identifiers(s) == Split(tail[1..], '.') && tail == ['-'] + tail[1..]
  {
    core, tail := s[..DashAt(s)], s[DashAt(s)..];
    if HasTail(s) {
      assert tail[1..] == s[DashAt(s) + 1..];
    }
  }

  /** A token is its numbers and its identifiers. */
  lemma SameToken(a: string, b: string)
    ensures CoreParts(a) == CoreParts(b) && Identifiers(a) == Identifiers(b) <==> a == b
  {
    var core, tail := Pieces(a);
    var other, rest := Pieces(b);
    SplitDiffers(core, other, '.');
    if tail != [] && rest != [] {
      SplitDiffers(tail[1..], rest[1..], '.');
    }
  }

  lemma CompareOpposite(a: string, b: string)
    requires Canonical(a) && Canonical(b)
    ensures NumericCore(a) && NumericCore(b) && Opposite(Compare(a, b), Compare(b, a), a == b)
  {
    ShapedCore(a);
    ShapedCore(b);
    CoreOpposite(a, b, 0);
    PrereleaseOpposite(Identifiers(a), Identifiers(b));
    SameToken(a, b);
    if CompareCores(a, b, 0) == 0 {
      SameCore(a, b);
    }
  }

  lemma CompareChains(a: string, b: string, c: string)
    requires Canonical(a) && Canonical(b) && Canonical(c) && NumericCore(a) && NumericCore(b) && NumericCore(c)
    requires Compare(a, b) > 0 && Compare(b, c) > 0
    ensures Compare(a, c) > 0
  {
    CoreChains(a, b, c, 0);
    CoreOpposite(a, b, 0);
    CoreOpposite(b, c, 0);
    CoreOpposite(a, c, 0);
    if CompareCores(a, b, 0) == 0 && CompareCores(b, c, 0) == 0 {
      PrereleaseChains(Identifiers(a), Identifiers(b), Identifiers(c));
      CoreChains(c, b, a, 0);
      CoreOpposite(c, b, 0);
    }
  }

  predicate Above(a: string, b: string) {
    Precedence(a, b).Success? && Precedence(a, b).value > 0
  }

  lemma TokensCompare(a: string, b: string)
    ensures Precedence(a, b).Success? <==> Canonical(a) && Canonical(b)
    ensures (Precedence(a, b).Success? ==>
               && Precedence(b, a) == Success(-Precedence(a, b).value)
               && (Precedence(a, b).value == 0 <==> a == b))
  {
    if Canonical(a) && Canonical(b) {
      CompareOpposite(a, b);
    }
  }

  lemma TokensChain(a: string, b: string, c: string)
    requires Above(a, b) && Above(b, c)
    ensures Above(a, c)
  {
    TokensCompare(a, b);
    TokensCompare(b, c);
    ShapedCore(a);
    ShapedCore(b);
    ShapedCore(c);
    CompareChains(a, b, c);
  }

  /** Every two tokens compare, unless one is refused: a total order, in which only equal ones come out equal. */
  lemma TokensTotallyOrdered(a: string, b: string, c: string)
    ensures Precedence(a, b).Success? <==> Canonical(a) && Canonical(b)
    ensures (Precedence(a, b).Success? ==>
               && Precedence(b, a) == Success(-Precedence(a, b).value)
               && (Precedence(a, b).value == 0 <==> a == b))
    ensures Above(a, b) && Above(b, c) ==> Above(a, c)
  {
    TokensCompare(a, b);
    if Above(a, b) && Above(b, c) {
      TokensChain(a, b, c);
    }
  }

  // ----- the versions that are released -----

  function CoreText(v: Version): string {
    Decimal(v.major) + ['.'] + (Decimal(v.minor) + ['.'] + Decimal(v.patch))
  }

  function BetaText(n: nat): string {
    "beta" + ['.'] + Decimal(n)
  }

  /** The token of a stable version or of a numbered beta. */
  function Text(v: Version): string {
    if v.beta.None? then CoreText(v) else CoreText(v) + ("-" + BetaText(v.beta.value))
  }

  lemma {:induction false} SplitAtFirst(a: string, c: char, b: string)
    requires c !in a
    ensures Split(a + [c] + b, c) == [a] + Split(b, c)
  {
    var s := a + [c] + b;
    if a == [] {
      assert s[1..] == b;
    } else {
      assert a[0] in a && s[0] == a[0] && s[1..] == a[1..] + [c] + b;
      SplitAtFirst(a[1..], c, b);
      assert ([a[1..]] + Split(b, c))[1..] == Split(b, c);
      assert [a[0]] + a[1..] == a;
    }
  }

  lemma {:induction false} SplitOne(a: string, c: char)
    requires c !in a
    ensures Split(a, c) == [a]
  {
    if a != [] {
      assert a[0] in a;
      SplitOne(a[1..], c);
      assert [a[0]] + a[1..] == a;
    }
  }

  lemma {:induction false} DigitsArePlain(n: nat)
    ensures '.' !in Decimal(n) && '-' !in Decimal(n) && Numeric(Decimal(n))
  {
  }

  lemma CoreTextSplits(v: Version)
    ensures Split(CoreText(v), '.') == [Decimal(v.major), Decimal(v.minor), Decimal(v.patch)]
    ensures '-' !in CoreText(v)
  {
    DigitsArePlain(v.major);
    DigitsArePlain(v.minor);
    DigitsArePlain(v.patch);
    SplitOne(Decimal(v.patch), '.');
    SplitAtFirst(Decimal(v.minor), '.', Decimal(v.patch));
    SplitAtFirst(Decimal(v.major), '.', Decimal(v.minor) + ['.'] + Decimal(v.patch));
  }

  lemma {:induction false} BetaTextSplits(n: nat)
    ensures Split(BetaText(n), '.') == ["beta", Decimal(n)]
  {
    DigitsArePlain(n);
    SplitOne(Decimal(n), '.');
    SplitAtFirst("beta", '.', Decimal(n));
  }

  lemma {:induction false} DashAfter(core: string, rest: string)
    requires '-' !in core && (rest == [] || rest[0] == '-')
    ensures DashAt(core + rest) == |core|
  {
    if core == [] {
      assert core + rest == rest;
    } else {
      assert core[0] in core && (core + rest)[1..] == core[1..] + rest;
      DashAfter(core[1..], rest);
    }
  }

  lemma {:induction false} PartsOf(core: string, tail: string)
    requires '-' !in core && (tail == [] || tail[0] == '-')
    ensures CoreParts(core + tail) == Split(core, '.')
    ensures Identifiers(core + tail) == if tail == [] then [] else Split(tail[1..], '.')
  {
    DashAfter(core, tail);
    assert (core + tail)[..|core|] == core;
    assert tail != [] ==> (core + tail)[|core| + 1..] == tail[1..];
  }

  lemma TextParts(v: Version)
    ensures CoreParts(Text(v)) == [Decimal(v.major), Decimal(v.minor), Decimal(v.patch)]
    ensures Identifiers(Text(v)) == if v.beta.None? then [] else ["beta", Decimal(v.beta.value)]
  {
    var core := CoreText(v);
    CoreTextSplits(v);
    if v.beta.None? {
      PartsOf(core, []);
      assert core + [] == core;
    } else {
      var beta := BetaText(v.beta.value);
      BetaTextSplits(v.beta.value);
      PartsOf(core, "-" + beta);
      assert ("-" + beta)[1..] == beta;
    }
  }

  lemma TextNumbers(v: Version)
    ensures NumericCore(Text(v))
    ensures CoreNumber(Text(v), 0) == v.major && CoreNumber(Text(v), 1) == v.minor && CoreNumber(Text(v), 2) == v.patch
  {
    TextParts(v);
    DigitsArePlain(v.major);
    DigitsArePlain(v.minor);
    DigitsArePlain(v.patch);
    ParseUndoesDecimal(v.major);
    ParseUndoesDecimal(v.minor);
    ParseUndoesDecimal(v.patch);
  }

  lemma {:induction false} BetasCompare(m: nat, n: nat)
    ensures CompareFrom(["beta", Decimal(m)], ["beta", Decimal(n)], 0) == CompareNumbers(m, n)
  {
    var a, b := ["beta", Decimal(m)], ["beta", Decimal(n)];
    DigitsArePlain(m);
    DigitsArePlain(n);
    ParseUndoesDecimal(m);
    ParseUndoesDecimal(n);
    assert CompareFrom(a, b, 0) == CompareFrom(a, b, 1);
    assert CompareFrom(a, b, 2) == 0;
  }

  /** Comparing versions by their numbers is comparing their tokens. */
  lemma VersionsCompareAsText(a: Version, b: Version)
    ensures NumericCore(Text(a)) && NumericCore(Text(b)) && Compare(Text(a), Text(b)) == CompareVersions(a, b)
  {
    TextNumbers(a);
    TextNumbers(b);
    TextParts(a);
    TextParts(b);
    CoresCompare(Text(a), Text(b));
    if a.beta.Some? && b.beta.Some? {
      BetasCompare(a.beta.value, b.beta.value);
    }
  }

  lemma {:induction false} CoresCompare(s: string, t: string)
    requires NumericCore(s) && NumericCore(t)
    ensures CompareCores(s, t, 0)
            == if CoreNumber(s, 0) != CoreNumber(t, 0) then CompareNumbers(CoreNumber(s, 0), CoreNumber(t, 0))
               else if CoreNumber(s, 1) != CoreNumber(t, 1) then CompareNumbers(CoreNumber(s, 1), CoreNumber(t, 1))
               else CompareNumbers(CoreNumber(s, 2), CoreNumber(t, 2))
  {
    assert CompareCores(s, t, 3) == 0;
    assert CompareCores(s, t, 2) == CompareNumbers(CoreNumber(s, 2), CoreNumber(t, 2));
  }

  lemma {:induction false} DecimalHasNoLeadingZero(n: nat)
    ensures !LeadingZero(Decimal(n))
  {
    if n >= 10 {
      DecimalHasNoLeadingZero(n / 10);
      NotJustZero(n / 10);
      assert Decimal(n)[0] == Decimal(n / 10)[0];
    }
  }

  lemma {:induction false} NotJustZero(n: nat)
    requires n > 0
    ensures Decimal(n) != "0"
  {
    ParseUndoesDecimal(n);
    ParseUndoesDecimal(0);
  }

  lemma BetaIsIdentifier()
    ensures IsIdentifier("beta")
  {
    SplitOne("beta", '-');
  }

  lemma {:induction false} NumberIsIdentifier(n: nat)
    ensures IsIdentifier(Decimal(n))
  {
    DigitsArePlain(n);
    SplitOne(Decimal(n), '-');
  }

  /** The token of a version is accepted exactly when it is not too long. */
  lemma TextIsCanonical(v: Version)
    ensures Canonical(Text(v)) <==> |Text(v)| <= 100
  {
    TextParts(v);
    TextNumbers(v);
    DecimalHasNoLeadingZero(v.major);
    DecimalHasNoLeadingZero(v.minor);
    DecimalHasNoLeadingZero(v.patch);
    if v.beta.Some? {
      DecimalHasNoLeadingZero(v.beta.value);
      BetaIsIdentifier();
      NumberIsIdentifier(v.beta.value);
    }
  }
}
