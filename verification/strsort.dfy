/** Python's `sorted` on lists of strings, and `sorted(set(...))`: code-point
    order as `PyStr.LexLess` defines it. */
module StrSort {
  import PyStr

  predicate Sorted(xs: seq<string>) {
    forall i, j :: 0 <= i < j < |xs| ==> PyStr.LexLessEq(xs[i], xs[j])
  }

  /** Sorted and without repeats. */
  predicate StrictlySorted(xs: seq<string>) {
    forall i, j :: 0 <= i < j < |xs| ==> PyStr.LexLess(xs[i], xs[j])
  }

  lemma LexLessEqTransitive(a: string, b: string, c: string)
    requires PyStr.LexLessEq(a, b) && PyStr.LexLessEq(b, c)
    ensures PyStr.LexLessEq(a, c)
  {
    if a != b && b != c {
      PyStr.LexLessTransitive(a, b, c);
    }
  }

  /** A string below the head of a sorted list is below all of it. */
  lemma BelowHead(x: string, xs: seq<string>)
    requires Sorted(xs) && |xs| > 0 && PyStr.LexLessEq(x, xs[0])
    ensures Sorted([x] + xs)
  {
    forall j | 0 <= j < |xs| ensures PyStr.LexLessEq(x, xs[j]) {
      if j > 0 {
        LexLessEqTransitive(x, xs[0], xs[j]);
      }
    }
  }

  /** The head of a sorted list is below everything inserted behind it. */
  lemma HeadBelowRest(x: string, xs: seq<string>, rest: seq<string>)
    requires Sorted(xs) && |xs| > 0 && PyStr.LexLess(xs[0], x)
    requires multiset(rest) == multiset(xs[1..]) + multiset{x}
    ensures forall k :: 0 <= k < |rest| ==> PyStr.LexLessEq(xs[0], rest[k])
  {
    forall k | 0 <= k < |rest| ensures PyStr.LexLessEq(xs[0], rest[k]) {
      assert rest[k] in multiset(rest);
      if rest[k] != x {
        assert rest[k] in multiset(xs[1..]);
        var j :| 0 <= j < |xs[1..]| && xs[1..][j] == rest[k];
        assert xs[j + 1] == rest[k];
      }
    }
  }

  lemma ConsSorted(h: string, rest: seq<string>)
    requires Sorted(rest) && forall k :: 0 <= k < |rest| ==> PyStr.LexLessEq(h, rest[k])
    ensures Sorted([h] + rest)
  {
  }

  function Insert(x: string, xs: seq<string>): (r: seq<string>)
    requires Sorted(xs)
    ensures Sorted(r)
    ensures multiset(r) == multiset(xs) + multiset{x}
    ensures |r| == |xs| + 1
    decreases |xs|
  {
    if |xs| == 0 then [x]
    else if PyStr.LexLessEq(x, xs[0]) then
      BelowHead(x, xs);
      [x] + xs
    else
      PyStr.LexLessTotal(x, xs[0]);
      var rest := Insert(x, xs[1..]);
      HeadBelowRest(x, xs, rest);
      ConsSorted(xs[0], rest);
      assert xs == [xs[0]] + xs[1..];
      [xs[0]] + rest
  }

  /** `sorted(xs)`: the same strings, in order. */
  function Sort(xs: seq<string>): (r: seq<string>)
    ensures Sorted(r)
    ensures multiset(r) == multiset(xs)
    ensures |r| == |xs|
    decreases |xs|
  {
    if |xs| == 0 then []
    else
      assert xs == [xs[0]] + xs[1..];
      Insert(xs[0], Sort(xs[1..]))
  }

  /** Rearranged lists hold the same strings. */
  lemma SameMembers(a: seq<string>, b: seq<string>)
    requires multiset(a) == multiset(b)
    ensures forall x :: x in a <==> x in b
  {
    forall x ensures x in a <==> x in b {
      assert x in a <==> x in multiset(a);
      assert x in b <==> x in multiset(b);
    }
  }

  /** Two sorted arrangements of the same strings are the same list: `sorted`
      does not depend on the order of its input. */
  lemma {:induction false} SortedUnique(a: seq<string>, b: seq<string>)
    requires Sorted(a) && Sorted(b) && multiset(a) == multiset(b)
    ensures a == b
    decreases |a|
  {
    assert |a| == |multiset(a)| == |b|;
    if |a| > 0 {
      SameHead(a, b);
      SameTail(a, b);
      SortedUnique(a[1..], b[1..]);
      assert a == [a[0]] + a[1..] && b == [b[0]] + b[1..];
    }
  }

  /** Sorted arrangements of the same strings start with the same string. */
  lemma SameHead(a: seq<string>, b: seq<string>)
    requires Sorted(a) && Sorted(b) && multiset(a) == multiset(b) && |a| > 0
    ensures |b| > 0 && a[0] == b[0]
  {
    assert |a| == |multiset(a)| == |b|;
    SameMembers(a, b);
    assert a[0] in b && b[0] in a;
    var i :| 0 <= i < |b| && b[i] == a[0];
    var j :| 0 <= j < |a| && a[j] == b[0];
    assert PyStr.LexLessEq(b[0], a[0]) by {
      if i > 0 {
        assert PyStr.LexLessEq(b[0], b[i]);
      }
    }
    assert PyStr.LexLessEq(a[0], b[0]) by {
      if j > 0 {
        assert PyStr.LexLessEq(a[0], a[j]);
      }
    }
    if a[0] != b[0] {
      PyStr.LexLessTransitive(a[0], b[0], a[0]);
      PyStr.LexLessIrreflexive(a[0]);
    }
  }

  /** Dropping an equal head keeps both lists sorted and rearrangements of
      each other. */
  lemma SameTail(a: seq<string>, b: seq<string>)
    requires Sorted(a) && Sorted(b) && multiset(a) == multiset(b)
    requires |a| > 0 && |b| > 0 && a[0] == b[0]
    ensures Sorted(a[1..]) && Sorted(b[1..])
    ensures multiset(a[1..]) == multiset(b[1..])
  {
    assert a == [a[0]] + a[1..] && b == [b[0]] + b[1..];
    assert multiset(a) == multiset{a[0]} + multiset(a[1..]);
    assert multiset(b) == multiset{b[0]} + multiset(b[1..]);
    assert multiset(a[1..]) == multiset(a) - multiset{a[0]};
    assert multiset(b[1..]) == multiset(b) - multiset{b[0]};
    forall i, j | 0 <= i < j < |a[1..]| ensures PyStr.LexLessEq(a[1..][i], a[1..][j]) {
      assert a[1..][i] == a[i + 1] && a[1..][j] == a[j + 1];
    }
    forall i, j | 0 <= i < j < |b[1..]| ensures PyStr.LexLessEq(b[1..][i], b[1..][j]) {
      assert b[1..][i] == b[i + 1] && b[1..][j] == b[j + 1];
    }
  }

  /** `sorted(xs)` is the same whatever order `xs` came in. */
  lemma SortPermutationInvariant(a: seq<string>, b: seq<string>)
    requires multiset(a) == multiset(b)
    ensures Sort(a) == Sort(b)
  {
    SortedUnique(Sort(a), Sort(b));
  }

  /** The first occurrence of each string, in order. */
  function Dedup(xs: seq<string>): (r: seq<string>)
    ensures forall x :: x in r <==> x in xs
    ensures forall i, j :: 0 <= i < j < |r| ==> r[i] != r[j]
    decreases |xs|
  {
    if |xs| == 0 then []
    else
      var prev := Dedup(xs[..|xs| - 1]);
      var last := xs[|xs| - 1];
      assert xs == xs[..|xs| - 1] + [last];
      if last in prev then prev else prev + [last]
  }

  /** A sorted list without repeats is strictly sorted. */
  lemma SortedDistinctStrict(xs: seq<string>)
    requires Sorted(xs) && forall i, j :: 0 <= i < j < |xs| ==> xs[i] != xs[j]
    ensures StrictlySorted(xs)
  {
  }

  /** `sorted(set(xs))`: every string of `xs` once, in strict order. */
  function SortedSet(xs: seq<string>): (r: seq<string>)
    ensures StrictlySorted(r)
    ensures forall x :: x in r <==> x in xs
  {
    var d := Dedup(xs);
    var r := Sort(d);
    SameMembers(r, d);
    DistinctKept(d, r);
    SortedDistinctStrict(r);
    r
  }

  /** Rearranging a list without repeats gives one without repeats. */
  lemma DistinctKept(a: seq<string>, b: seq<string>)
    requires multiset(a) == multiset(b)
    requires forall i, j :: 0 <= i < j < |a| ==> a[i] != a[j]
    ensures forall i, j :: 0 <= i < j < |b| ==> b[i] != b[j]
  {
    forall i, j | 0 <= i < j < |b| ensures b[i] != b[j] {
      CountOfPair(b, i, j);
      assert b[j] in multiset(a);
      MultiplicityOne(a, b[j]);
    }
  }

  /** Two equal entries make a string occur at least twice. */
  lemma CountOfPair(b: seq<string>, i: nat, j: nat)
    requires i < j < |b|
    ensures b[j] in multiset(b)
    ensures b[i] == b[j] ==> multiset(b)[b[j]] >= 2
  {
    assert b == b[..j] + [b[j]] + b[j + 1..];
    assert b[i] == b[..j][i];
    assert multiset(b) == multiset(b[..j]) + multiset{b[j]} + multiset(b[j + 1..]);
  }

  /** In a list without repeats each present string occurs once. */
  lemma {:induction false} MultiplicityOne(a: seq<string>, x: string)
    requires forall i, j :: 0 <= i < j < |a| ==> a[i] != a[j]
    requires x in multiset(a)
    ensures multiset(a)[x] == 1
    decreases |a|
  {
    assert a == [a[0]] + a[1..];
    if a[0] == x {
      assert x !in a[1..];
      assert multiset(a[1..])[x] == 0;
    } else {
      MultiplicityOne(a[1..], x);
    }
  }
}
