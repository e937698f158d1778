/** Sums, filters, first occurrences and sorted enumerations of sequences. */
module Sequences {

  // ----- sums -----

  /** The sum of `f` over `s`. */
  function SumBy<T>(s: seq<T>, f: T -> int): int {
    if s == [] then 0 else SumBy(s[..|s| - 1], f) + f(s[|s| - 1])
  }

  function SumRealBy<T>(s: seq<T>, f: T -> real): real {
    if s == [] then 0.0 else SumRealBy(s[..|s| - 1], f) + f(s[|s| - 1])
  }

  lemma SumByAppend<T>(s: seq<T>, x: T, f: T -> int)
    ensures SumBy(s + [x], f) == SumBy(s, f) + f(x)
  {
    assert (s + [x])[..|s|] == s;
  }

  lemma {:induction false} SumByConcat<T>(a: seq<T>, b: seq<T>, f: T -> int)
    ensures SumBy(a + b, f) == SumBy(a, f) + SumBy(b, f)
  {
    if b == [] {
      assert a + b == a;
    } else {
      var n := |b| - 1;
      assert a + b == (a + b[..n]) + [b[n]];
      SumByAppend(a + b[..n], b[n], f);
      SumByConcat(a, b[..n], f);
    }
  }

  lemma SumByCons<T>(x: T, s: seq<T>, f: T -> int)
    ensures SumBy([x] + s, f) == f(x) + SumBy(s, f)
  {
    SumByConcat([x], s, f);
    SumByAppend([], x, f);
    assert [] + [x] == [x];
  }

  lemma MultisetWithout<T>(s: seq<T>, j: nat)
    requires j < |s|
    ensures multiset(s[..j] + s[j + 1..]) == multiset(s) - multiset{s[j]}
  {
    assert s == s[..j] + [s[j]] + s[j + 1..];
    assert multiset(s) == multiset(s[..j]) + multiset{s[j]} + multiset(s[j + 1..]);
  }

  /** A sum does not depend on the order of its terms. */
  lemma {:induction false} SumByPermuted<T>(a: seq<T>, b: seq<T>, f: T -> int)
    requires multiset(a) == multiset(b)
    ensures SumBy(a, f) == SumBy(b, f)
    decreases |a|
  {
    if a == [] {
      assert |multiset(b)| == |multiset(a)| == 0;
      assert b == [];
    } else {
      var n := |a| - 1;
      assert a == a[..n] + [a[n]];
      assert a[n] in multiset(b);
      var j :| 0 <= j < |b| && b[j] == a[n];
      assert b == b[..j] + [b[j]] + b[j + 1..];
      MultisetWithout(a, n);
      MultisetWithout(b, j);
      assert a[..n] + a[n + 1..] == a[..n];
      SumByPermuted(a[..n], b[..j] + b[j + 1..], f);
      SumByConcat(b[..j], b[j + 1..], f);
      SumByConcat(b[..j] + [b[j]], b[j + 1..], f);
      SumByAppend(b[..j], b[j], f);
    }
  }

  lemma {:induction false} SumByAgrees<T>(s: seq<T>, f: T -> int, g: T -> int)
    requires forall k :: 0 <= k < |s| ==> f(s[k]) == g(s[k])
    ensures SumBy(s, f) == SumBy(s, g)
  {
    if s != [] { SumByAgrees(s[..|s| - 1], f, g); }
  }

  // ----- filters -----

  function Filter<T>(s: seq<T>, p: T -> bool): (r: seq<T>)
    ensures |r| <= |s|
  {
    if s == [] then []
    else if p(s[|s| - 1]) then Filter(s[..|s| - 1], p) + [s[|s| - 1]]
    else Filter(s[..|s| - 1], p)
  }

  lemma {:induction false} FilterMember<T>(s: seq<T>, p: T -> bool, x: T)
    ensures x in Filter(s, p) <==> x in s && p(x)
  {
    if s != [] {
      assert s == s[..|s| - 1] + [s[|s| - 1]];
      FilterMember(s[..|s| - 1], p, x);
    }
  }

  lemma FilterAppend<T>(s: seq<T>, x: T, p: T -> bool)
    ensures Filter(s + [x], p) == if p(x) then Filter(s, p) + [x] else Filter(s, p)
  {
    assert (s + [x])[..|s|] == s;
  }

  lemma {:induction false} FilterConcat<T>(a: seq<T>, b: seq<T>, p: T -> bool)
    ensures Filter(a + b, p) == Filter(a, p) + Filter(b, p)
  {
    if b == [] {
      assert a + b == a;
    } else {
      var n := |b| - 1;
      assert a + b == (a + b[..n]) + [b[n]];
      FilterAppend(a + b[..n], b[n], p);
      FilterConcat(a, b[..n], p);
    }
  }

  lemma {:induction false} FilterKeepsAll<T>(s: seq<T>, p: T -> bool)
    requires forall k :: 0 <= k < |s| ==> p(s[k])
    ensures Filter(s, p) == s
  {
    if s != [] {
      FilterKeepsAll(s[..|s| - 1], p);
      assert s == s[..|s| - 1] + [s[|s| - 1]];
    }
  }

  // ----- distinct elements -----

  ghost predicate NoDup<T>(s: seq<T>) {
    forall i, j :: 0 <= i < j < |s| ==> s[i] != s[j]
  }

  function Elements<T>(s: seq<T>): set<T> {
    set x | x in s
  }

  lemma ElementsAppend<T(!new)>(s: seq<T>, x: T)
    ensures Elements(s + [x]) == Elements(s) + {x}
  {
    assert forall y :: y in s + [x] <==> y in s || y == x;
  }

  /** A sequence without repetitions has as many elements as places. */
  lemma {:induction false} ElementsCount<T(!new)>(s: seq<T>)
    requires NoDup(s)
    ensures |Elements(s)| == |s|
  {
    if s != [] {
      var n := |s| - 1;
      ElementsCount(s[..n]);
      assert s == s[..n] + [s[n]];
      ElementsAppend(s[..n], s[n]);
    }
  }

  /** `s` with every repetition removed, the first occurrence kept. */
  function FirstOccurrences<T(==)>(s: seq<T>): (r: seq<T>)
    ensures |r| <= |s|
  {
    if s == [] then []
    else
      var r := FirstOccurrences(s[..|s| - 1]);
      if s[|s| - 1] in r then r else r + [s[|s| - 1]]
  }

  lemma {:induction false} FirstOccurrencesMember<T>(s: seq<T>, x: T)
    ensures x in FirstOccurrences(s) <==> x in s
  {
    if s != [] {
      assert s == s[..|s| - 1] + [s[|s| - 1]];
      FirstOccurrencesMember(s[..|s| - 1], x);
    }
  }

  lemma {:induction false} FirstOccurrencesDistinct<T>(s: seq<T>)
    ensures NoDup(FirstOccurrences(s))
  {
    if s != [] {
      FirstOccurrencesDistinct(s[..|s| - 1]);
    }
  }

  lemma FirstOccurrencesAppend<T>(s: seq<T>, x: T)
    ensures FirstOccurrences(s + [x])
         == if x in FirstOccurrences(s) then FirstOccurrences(s) else FirstOccurrences(s) + [x]
  {
    assert (s + [x])[..|s|] == s;
  }

  lemma {:induction false} FirstOccurrencesOfDistinct<T>(s: seq<T>)
    requires NoDup(s)
    ensures FirstOccurrences(s) == s
  {
    if s != [] {
      var n := |s| - 1;
      FirstOccurrencesOfDistinct(s[..n]);
      assert s == s[..n] + [s[n]];
    }
  }

  /** Appending elements already present changes nothing. */
  lemma {:induction false} FirstOccurrencesOfRepeats<T>(a: seq<T>, b: seq<T>)
    requires forall i :: 0 <= i < |b| ==> b[i] in a
    ensures FirstOccurrences(a + b) == FirstOccurrences(a)
  {
    if b == [] {
      assert a + b == a;
    } else {
      var n := |b| - 1;
      assert a + b == (a + b[..n]) + [b[n]];
      FirstOccurrencesAppend(a + b[..n], b[n]);
      FirstOccurrencesMember(a, b[n]);
      FirstOccurrencesOfRepeats(a, b[..n]);
    }
  }

  /** Going on only adds at the end. */
  lemma {:induction false} FirstOccurrencesGrow<T>(a: seq<T>, b: seq<T>)
    ensures FirstOccurrences(a) <= FirstOccurrences(a + b)
  {
    if b == [] {
      assert a + b == a;
    } else {
      var n := |b| - 1;
      assert a + b == (a + b[..n]) + [b[n]];
      FirstOccurrencesAppend(a + b[..n], b[n]);
      FirstOccurrencesGrow(a, b[..n]);
    }
  }

  /** The least index at which `x` occurs. */
  function FirstIndex<T(==)>(s: seq<T>, x: T): (i: nat)
    requires x in s
    ensures i < |s| && s[i] == x
    ensures forall j :: 0 <= j < i ==> s[j] != x
  {
    if s[0] == x then 0 else FirstIndex(s[1..], x) + 1
  }

  lemma FirstIndexIsLeast<T>(s: seq<T>, x: T, i: nat)
    requires i < |s| && s[i] == x
    requires forall j :: 0 <= j < i ==> s[j] != x
    ensures FirstIndex(s, x) == i
  {
  }

  /** First occurrences come in the order in which they first occur. */
  lemma {:induction false} FirstOccurrencesInOrder<T>(s: seq<T>, i: nat, j: nat)
    requires i < j < |FirstOccurrences(s)|
    ensures FirstOccurrences(s)[i] in s && FirstOccurrences(s)[j] in s
    ensures FirstIndex(s, FirstOccurrences(s)[i]) < FirstIndex(s, FirstOccurrences(s)[j])
  {
    var n := |s| - 1;
    var prefix, r := s[..n], FirstOccurrences(s);
    var r0 := FirstOccurrences(prefix);
    assert s == prefix + [s[n]];
    FirstOccurrencesMember(s, r[i]);
    FirstOccurrencesMember(s, r[j]);
    FirstOccurrencesMember(prefix, r[i]);
    FirstOccurrencesMember(prefix, r[j]);
    FirstIndexIsLeast(s, r[i], FirstIndex(prefix, r[i]));
    if j < |r0| {
      FirstOccurrencesInOrder(prefix, i, j);
      FirstIndexIsLeast(s, r[j], FirstIndex(prefix, r[j]));
    } else {
      FirstIndexIsLeast(s, r[j], n);
    }
  }

  // ----- strictly increasing sequences of integers -----

  ghost predicate Increasing(s: seq<int>) {
    forall i, j :: 0 <= i < j < |s| ==> s[i] < s[j]
  }

  /** A finite set of integers has one increasing enumeration. */
  lemma {:induction false} IncreasingIsUnique(a: seq<int>, b: seq<int>)
    requires Increasing(a) && Increasing(b)
    requires forall x :: x in a <==> x in b
    ensures a == b
  {
    assert a != [] ==> a[0] in a;
    assert b != [] ==> b[0] in b;
    if a != [] && b != [] {
      var m, n := |a| - 1, |b| - 1;
      assert a[m] in b && b[n] in a;
      assert a[m] == b[n];
      forall x ensures x in a[..m] <==> x in b[..n] {
        assert x in a[..m] <==> x in a && x != a[m];
        assert x in b[..n] <==> x in b && x != b[n];
      }
      IncreasingIsUnique(a[..m], b[..n]);
      assert a == a[..m] + [a[m]] && b == b[..n] + [b[n]];
    }
  }
}
