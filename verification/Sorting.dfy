/** Sorting of reals: any two sorts of the same samples agree, element by element. */
module Sorting {

  predicate Sorted(s: seq<real>) {
    forall i, j :: 0 <= i < j < |s| ==> s[i] <= s[j]
  }

  function Insert(s: seq<real>, x: real): (r: seq<real>)
    ensures |r| == |s| + 1
  {
    if s == [] || s[|s| - 1] <= x then s + [x] else Insert(s[..|s| - 1], x) + [s[|s| - 1]]
  }

  function Sort(s: seq<real>): (r: seq<real>)
    ensures |r| == |s|
  {
    if s == [] then [] else Insert(Sort(s[..|s| - 1]), s[|s| - 1])
  }

  lemma LastOf(s: seq<real>)
    requires s != []
    ensures multiset(s) == multiset(s[..|s| - 1]) + multiset{s[|s| - 1]}
  {
    assert s == s[..|s| - 1] + [s[|s| - 1]];
  }

  lemma {:induction false} InsertAdds(s: seq<real>, x: real)
    ensures multiset(Insert(s, x)) == multiset(s) + multiset{x}
  {
    if s != [] && s[|s| - 1] > x {
      InsertAdds(s[..|s| - 1], x);
      LastOf(s);
    }
  }

  lemma {:induction false} SortPermutes(s: seq<real>)
    ensures multiset(Sort(s)) == multiset(s)
  {
    if s != [] {
      SortPermutes(s[..|s| - 1]);
      InsertAdds(Sort(s[..|s| - 1]), s[|s| - 1]);
      LastOf(s);
    }
  }

  lemma {:induction false} InsertSorted(s: seq<real>, x: real)
    requires Sorted(s)
    ensures Sorted(Insert(s, x))
  {
    if s != [] && s[|s| - 1] > x {
      var r := Insert(s[..|s| - 1], x);
      InsertSorted(s[..|s| - 1], x);
      InsertAdds(s[..|s| - 1], x);
      forall i | 0 <= i < |r|
        ensures r[i] <= s[|s| - 1]
      {
        assert r[i] in multiset(r);
      }
    }
  }

  lemma {:induction false} SortSorts(s: seq<real>)
    ensures Sorted(Sort(s))
  {
    if s != [] {
      SortSorts(s[..|s| - 1]);
      InsertSorted(Sort(s[..|s| - 1]), s[|s| - 1]);
    }
  }

  lemma LastIsMax(s: seq<real>, x: real)
    requires Sorted(s) && x in multiset(s)
    ensures s != [] && x <= s[|s| - 1]
  {
    assert x in s;
  }

  lemma Cancel(a: multiset<real>, b: multiset<real>, x: real)
    requires a + multiset{x} == b + multiset{x}
    ensures a == b
  {
    assert a == (a + multiset{x}) - multiset{x};
    assert b == (b + multiset{x}) - multiset{x};
  }

  lemma SameLast(a: seq<real>, b: seq<real>)
    requires Sorted(a) && Sorted(b) && multiset(a) == multiset(b) && a != []
    ensures b != [] && a[|a| - 1] == b[|b| - 1]
    ensures multiset(a[..|a| - 1]) == multiset(b[..|b| - 1])
  {
    LastIsMax(b, a[|a| - 1]);
    LastIsMax(a, b[|b| - 1]);
    LastOf(a);
    LastOf(b);
    Cancel(multiset(a[..|a| - 1]), multiset(b[..|b| - 1]), a[|a| - 1]);
  }

  /** A sorted list is determined by the samples in it. */
  lemma {:induction false} SortedUnique(a: seq<real>, b: seq<real>)
    requires Sorted(a) && Sorted(b) && multiset(a) == multiset(b)
    ensures a == b
  {
    assert |a| == |b| by {
      assert |multiset(a)| == |a| && |multiset(b)| == |b|;
    }
    if a != [] {
      SameLast(a, b);
      SortedUnique(a[..|a| - 1], b[..|b| - 1]);
      assert a == a[..|a| - 1] + [a[|a| - 1]] && b == b[..|b| - 1] + [b[|b| - 1]];
    }
  }

  /** The order in which samples arrive does not matter once they are sorted. */
  lemma SortCanonical(a: seq<real>, b: seq<real>)
    requires multiset(a) == multiset(b)
    ensures Sort(a) == Sort(b)
  {
    SortSorts(a);
    SortSorts(b);
    SortPermutes(a);
    SortPermutes(b);
    SortedUnique(Sort(a), Sort(b));
  }

  lemma {:induction false} InsertAt(s: seq<real>, x: real, j: nat)
    requires j <= |s| && (forall i :: j <= i < |s| ==> s[i] > x) && (j == 0 || s[j - 1] <= x)
    ensures Insert(s, x) == s[..j] + [x] + s[j..]
  {
    if j < |s| {
      var t := s[..|s| - 1];
      InsertAt(t, x, j);
      assert t[..j] == s[..j] && t[j..] + [s[|s| - 1]] == s[j..];
    } else {
      assert s[..j] == s && s[j..] == [];
    }
  }

  /** Inserts `a[i]` into the sorted prefix before it. */
  method InsertInPlace(a: array<real>, i: nat)
    requires i < a.Length
    modifies a
    ensures a[..i + 1] == Insert(old(a[..i]), old(a[i]))
    ensures a[i + 1..] == old(a[i + 1..])
  {
    ghost var s := a[..i];
    var x, j := a[i], i;
    while j > 0 && a[j - 1] > x
      invariant j <= i
      invariant a[..j] == s[..j]
      invariant forall k :: j < k <= i ==> a[k] == s[k - 1]
      invariant forall k :: j <= k < i ==> s[k] > x
      invariant a[i + 1..] == old(a[i + 1..])
    {
      assert a[j - 1] == a[..j][j - 1];
      a[j] := a[j - 1];
      j := j - 1;
    }
    assert j > 0 ==> a[j - 1] == a[..j][j - 1];
    a[j] := x;
    InsertAt(s, x, j);
    assert a[..j] == s[..j];
    assert a[..i + 1] == s[..j] + [x] + s[j..];
  }

  lemma SortNext(s: seq<real>, i: nat)
    requires i < |s|
    ensures Sort(s[..i + 1]) == Insert(Sort(s[..i]), s[i])
  {
    assert s[..i + 1][..i] == s[..i];
  }

  /** slices.Sort on the first `c` samples. */
  method SortPrefix(a: array<real>, c: nat)
    requires c <= a.Length
    modifies a
    ensures a[..c] == Sort(old(a[..c]))
    ensures a[c..] == old(a[c..])
  {
    ghost var s := a[..];
    var i := 0;
    while i < c
      invariant i <= c
      invariant a[..i] == Sort(s[..i])
      invariant a[i..] == s[i..]
    {
      assert a[i] == a[i..][0] == s[i];
      InsertInPlace(a, i);
      SortNext(s, i);
      assert a[i + 1..] == s[i + 1..];
      i := i + 1;
    }
    assert s[..c] == old(a[..c]) && s[c..] == old(a[c..]);
  }
}
