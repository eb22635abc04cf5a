/** Stable sorting by a "comes before" relation, and the order of strings by code unit as JavaScript compares them. */
module Sorting {

  ghost predicate StrictWeakOrder<T(!new)>(before: (T, T) -> bool) {
    && (forall x, y :: before(x, y) ==> !before(y, x))
    && (forall x, y, z :: before(x, y) && before(y, z) ==> before(x, z))
    && (forall x, y, z :: before(x, z) ==> before(x, y) || before(y, z))
  }

  /** Two elements that neither precedes the other are the same element. */
  ghost predicate Total<T(!new)>(before: (T, T) -> bool) {
    forall x, y :: before(x, y) || before(y, x) || x == y
  }

  ghost predicate Sorted<T>(before: (T, T) -> bool, s: seq<T>) {
    forall i, j :: 0 <= i < j < |s| ==> !before(s[j], s[i])
  }

  function Insert<T>(before: (T, T) -> bool, x: T, s: seq<T>): seq<T> {
    if s == [] || !before(s[0], x) then [x] + s else [s[0]] + Insert(before, x, s[1..])
  }

  /** The first of two equivalent elements of `s` stays first. */
  function Sort<T>(before: (T, T) -> bool, s: seq<T>): seq<T> {
    if s == [] then [] else Insert(before, s[0], Sort(before, s[1..]))
  }

  lemma {:induction false} InsertKeepsElements<T>(before: (T, T) -> bool, x: T, s: seq<T>)
    ensures multiset(Insert(before, x, s)) == multiset(s) + multiset{x}
  {
    if s == [] || !before(s[0], x) {
    } else {
      InsertKeepsElements(before, x, s[1..]);
      assert s == [s[0]] + s[1..];
    }
  }

  lemma {:induction false} InsertKeepsSorted<T(!new)>(before: (T, T) -> bool, x: T, s: seq<T>)
    requires StrictWeakOrder(before) && Sorted(before, s)
    ensures Sorted(before, Insert(before, x, s))
  {
    if s == [] {
    } else if !before(s[0], x) {
      forall j | 0 <= j < |s| ensures !before(s[j], x) {
        var first, other := s[0], s[j];
        assert before(other, first) || before(first, x) || !before(other, x);
      }
    } else {
      InsertKeepsSorted(before, x, s[1..]);
      var t := Insert(before, x, s[1..]);
      InsertKeepsElements(before, x, s[1..]);
      forall j | 0 <= j < |t| ensures !before(t[j], s[0]) {
        assert t[j] in multiset(t);
        if t[j] != x {
          assert t[j] in s[1..];
        }
      }
    }
  }

  lemma {:induction false} SortKeepsElements<T>(before: (T, T) -> bool, s: seq<T>)
    ensures multiset(Sort(before, s)) == multiset(s)
    ensures |Sort(before, s)| == |s|
  {
    if s != [] {
      SortKeepsElements(before, s[1..]);
      InsertKeepsElements(before, s[0], Sort(before, s[1..]));
      assert s == [s[0]] + s[1..];
    }
    assert |multiset(Sort(before, s))| == |multiset(s)|;
  }

  lemma {:induction false} SortSorts<T(!new)>(before: (T, T) -> bool, s: seq<T>)
    requires StrictWeakOrder(before)
    ensures Sorted(before, Sort(before, s))
  {
    if s != [] {
      SortSorts(before, s[1..]);
      InsertKeepsSorted(before, s[0], Sort(before, s[1..]));
    }
  }

  /** Under a total order the sorted arrangement is unique, whatever algorithm produced it. */
  lemma {:induction false} SortedUnique<T(!new)>(before: (T, T) -> bool, s: seq<T>, t: seq<T>)
    requires Total(before)
    requires Sorted(before, s) && Sorted(before, t)
    requires multiset(s) == multiset(t)
    ensures s == t
  {
    assert |multiset(s)| == |s| && |multiset(t)| == |t|;
    if s != [] {
      assert s[0] in multiset(t) && t[0] in multiset(s);
      assert s[0] == t[0] by {
        var i :| 0 <= i < |t| && t[i] == s[0];
        var j :| 0 <= j < |s| && s[j] == t[0];
      }
      assert s == [s[0]] + s[1..] && t == [t[0]] + t[1..];
      assert multiset(s[1..]) == multiset(s) - multiset{s[0]};
      assert multiset(t[1..]) == multiset(t) - multiset{t[0]};
      SortedUnique(before, s[1..], t[1..]);
    }
  }

  lemma {:induction false} SortIgnoresInputOrder<T(!new)>(before: (T, T) -> bool, s: seq<T>, t: seq<T>)
    requires StrictWeakOrder(before) && Total(before)
    requires multiset(s) == multiset(t)
    ensures Sort(before, s) == Sort(before, t)
  {
    SortKeepsElements(before, s);
    SortKeepsElements(before, t);
    SortSorts(before, s);
    SortSorts(before, t);
    SortedUnique(before, Sort(before, s), Sort(before, t));
  }

  function Map<T, U>(f: T -> U, s: seq<T>): seq<U> {
    seq(|s|, i requires 0 <= i < |s| => f(s[i]))
  }

  function RemoveAt<T>(s: seq<T>, k: nat): seq<T>
    requires k < |s|
  {
    s[..k] + s[k + 1..]
  }

  lemma RemoveAtElements<T>(s: seq<T>, k: nat)
    requires k < |s|
    ensures multiset(s) == multiset(RemoveAt(s, k)) + multiset{s[k]}
  {
    assert s == s[..k] + [s[k]] + s[k + 1..];
  }

  /** Equal multisets stay equal when one occurrence of the same element is dropped from each. */
  lemma SameElement<T>(s: seq<T>, n: nat, t: seq<T>) returns (k: nat)
    requires n < |s| && multiset(s) == multiset(t)
    ensures k < |t| && t[k] == s[n]
    ensures multiset(RemoveAt(s, n)) == multiset(RemoveAt(t, k))
  {
    assert s[n] in multiset(t);
    k :| 0 <= k < |t| && t[k] == s[n];
    RemoveAtElements(s, n);
    RemoveAtElements(t, k);
    var x := multiset{s[n]};
    assert multiset(RemoveAt(s, n)) == multiset(s) - x;
    assert multiset(RemoveAt(t, k)) == multiset(t) - x;
  }

  lemma {:induction false} MapKeepsElements<T, U>(f: T -> U, s: seq<T>, t: seq<T>)
    requires multiset(s) == multiset(t)
    ensures multiset(Map(f, s)) == multiset(Map(f, t))
  {
    if s == [] {
      assert |multiset(t)| == |t|;
    } else {
      var k := SameElement(s, 0, t);
      MapKeepsElements(f, RemoveAt(s, 0), RemoveAt(t, k));
      MapRemoveAt(f, s, 0);
      MapRemoveAt(f, t, k);
    }
  }

  lemma MapRemoveAt<T, U>(f: T -> U, s: seq<T>, k: nat)
    requires k < |s|
    ensures multiset(Map(f, s)) == multiset(Map(f, RemoveAt(s, k))) + multiset{f(s[k])}
  {
    RemoveAtElements(Map(f, s), k);
    assert RemoveAt(Map(f, s), k) == Map(f, RemoveAt(s, k));
  }

  /** JavaScript's `<` on strings: lexicographic by code unit. */
  predicate LexLess(a: string, b: string) {
    b != [] && (a == [] || a[0] < b[0] || (a[0] == b[0] && LexLess(a[1..], b[1..])))
  }

  lemma {:induction false} LexTrichotomy(a: string, b: string)
    ensures LexLess(a, b) || LexLess(b, a) || a == b
    ensures !(LexLess(a, b) && LexLess(b, a))
    ensures !LexLess(a, a)
    decreases a
  {
    if a != [] {
      LexTrichotomy(a[1..], a[1..]);
      if b != [] {
        LexTrichotomy(a[1..], b[1..]);
        assert a == [a[0]] + a[1..] && b == [b[0]] + b[1..];
      }
    }
  }

  lemma {:induction false} LexTransitive(a: string, b: string, c: string)
    requires LexLess(a, b) && LexLess(b, c)
    ensures LexLess(a, c)
  {
    if a != [] && a[0] == b[0] && b[0] == c[0] {
      LexTransitive(a[1..], b[1..], c[1..]);
    }
  }

  lemma LexStrictTotal()
    ensures StrictWeakOrder(LexLess) && Total(LexLess)
  {
    forall a, b ensures LexLess(a, b) ==> !LexLess(b, a) {
      LexTrichotomy(a, b);
    }
    forall a, b ensures LexLess(a, b) || LexLess(b, a) || a == b {
      LexTrichotomy(a, b);
    }
    forall a, b, c | LexLess(a, b) && LexLess(b, c) ensures LexLess(a, c) {
      LexTransitive(a, b, c);
    }
  }
}
