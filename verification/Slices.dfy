/** Order-preserving de-duplication, shared by every component that flattens lists. */
module Slices {

  /** `s` with every repeated element dropped, first occurrences kept in order. */
  function Uniq<T(==)>(s: seq<T>): (r: seq<T>)
    ensures forall x :: x in r ==> x in s
    ensures forall x :: x in s ==> x in r
    ensures NoDups(r)
    ensures |r| <= |s|
  {
    if s == [] then []
    else
      var init := Uniq(s[..|s| - 1]);
      assert s == s[..|s| - 1] + [s[|s| - 1]];
      if s[|s| - 1] in init then init else init + [s[|s| - 1]]
  }

  ghost predicate NoDups<T>(s: seq<T>) {
    forall i, j :: 0 <= i < j < |s| ==> s[i] != s[j]
  }

  function ToSet<T(==)>(s: seq<T>): set<T> {
    set x | x in s
  }

  function Flatten<T>(ss: seq<seq<T>>): seq<T> {
    if ss == [] then [] else Flatten(ss[..|ss| - 1]) + ss[|ss| - 1]
  }

  /** A list without repeats is its own de-duplication. */
  lemma {:induction false} UniqOfNoDups<T>(s: seq<T>)
    requires NoDups(s)
    ensures Uniq(s) == s
  {
    if s != [] {
      UniqOfNoDups(s[..|s| - 1]);
      assert s == s[..|s| - 1] + [s[|s| - 1]];
    }
  }

  lemma UniqSnoc<T>(s: seq<T>, x: T)
    ensures Uniq(s + [x]) == if x in s then Uniq(s) else Uniq(s) + [x]
  {
    assert (s + [x])[..|s + [x]| - 1] == s;
  }

  lemma UniqUnion<T>(a: seq<T>, b: seq<T>)
    ensures ToSet(Uniq(a + b)) == ToSet(a) + ToSet(b)
  {
    var u := Uniq(a + b);
    forall x | x in ToSet(a) + ToSet(b)
      ensures x in u
    {
      assert x in a + b;
    }
    forall x | x in u
      ensures x in ToSet(a) + ToSet(b)
    {
      assert x in a + b;
    }
  }

  lemma FlattenSnoc<T>(ss: seq<seq<T>>, s: seq<T>)
    ensures Flatten(ss + [s]) == Flatten(ss) + s
  {
    assert (ss + [s])[..|ss + [s]| - 1] == ss;
  }

  lemma FlattenTwo<T>(a: seq<T>, b: seq<T>)
    ensures Flatten([a, b]) == a + b
  {
    assert [a, b] == [a] + [b] && [a] == [] + [a];
    FlattenSnoc([a], b);
    FlattenSnoc([], a);
    assert Flatten<T>([]) + a == a;
  }

  method AppendNew<T(==)>(ghost s: seq<T>, out0: seq<T>, acc0: set<T>, x: T) returns (out: seq<T>, acc: set<T>)
    requires out0 == Uniq(s) && acc0 == ToSet(out0)
    ensures out == Uniq(s + [x]) && acc == ToSet(out)
  {
    out, acc := out0, acc0;
    UniqSnoc(s, x);
    if x !in acc {
      out := out + [x];
      acc := acc + {x};
    }
  }

  /** The inner loop of CopyUniq: appends what `acc` has not seen yet. */
  method AppendUniq<T(==)>(ghost before: seq<T>, out0: seq<T>, acc0: set<T>, x: seq<T>) returns (out: seq<T>, acc: set<T>)
    requires out0 == Uniq(before) && acc0 == ToSet(out0)
    ensures out == Uniq(before + x) && acc == ToSet(out)
  {
    out, acc := out0, acc0;
    assert before + x[..0] == before;
    for j := 0 to |x|
      invariant out == Uniq(before + x[..j])
      invariant acc == ToSet(out)
    {
      assert before + x[..j + 1] == (before + x[..j]) + [x[j]];
      out, acc := AppendNew(before + x[..j], out, acc, x[j]);
    }
    assert x[..|x|] == x;
  }

  /** CopyUniq: all the lists one after the other, repeats dropped. */
  method CopyUniq<T(==)>(a: seq<seq<T>>) returns (out: seq<T>)
    ensures out == Uniq(Flatten(a))
  {
    out := [];
    var acc: set<T> := {};
    for i := 0 to |a|
      invariant out == Uniq(Flatten(a[..i]))
      invariant acc == ToSet(out)
    {
      FlattenSnoc(a[..i], a[i]);
      assert a[..i + 1] == a[..i] + [a[i]];
      out, acc := AppendUniq(Flatten(a[..i]), out, acc, a[i]);
    }
    assert a[..|a|] == a;
  }
}
