/**
 Sequence and string helpers shared by the query builders: reversal, and
 concatenation of a string-valued map over a sequence.
 */
module Seqs {

  /** The sequence read back to front (Python's `xs[::-1]` and `reversed(xs)`). */
  function Reverse<T>(xs: seq<T>): (r: seq<T>)
    ensures |r| == |xs|
    ensures forall i :: 0 <= i < |xs| ==> r[i] == xs[|xs| - 1 - i]
  {
    if |xs| == 0 then [] else Reverse(xs[1..]) + [xs[0]]
  }

  lemma ReverseAppend<T>(a: seq<T>, b: seq<T>)
    ensures Reverse(a + b) == Reverse(b) + Reverse(a)
  {
    var l, r := Reverse(a + b), Reverse(b) + Reverse(a);
    assert |l| == |r|;
    forall i | 0 <= i < |l|
      ensures l[i] == r[i]
    {
      if i < |b| {
        assert l[i] == (a + b)[|a| + |b| - 1 - i] == b[|b| - 1 - i];
      } else {
        assert l[i] == (a + b)[|a| + |b| - 1 - i] == a[|a| - 1 - (i - |b|)];
      }
    }
  }

  /** `f(xs[0]) + f(xs[1]) + ...`: the text built by a loop that appends one piece per element. */
  function ConcatMap<T>(xs: seq<T>, f: T -> string): string
  {
    if |xs| == 0 then "" else f(xs[0]) + ConcatMap(xs[1..], f)
  }

  lemma {:induction false} ConcatMapAppend<T>(a: seq<T>, b: seq<T>, f: T -> string)
    ensures ConcatMap(a + b, f) == ConcatMap(a, f) + ConcatMap(b, f)
  {
    if |a| == 0 {
      assert a + b == b;
    } else {
      assert (a + b)[1..] == a[1..] + b;
      ConcatMapAppend(a[1..], b, f);
    }
  }

  /** The pieces of `xs` concatenated newest element last, i.e. read back to front. */
  function ConcatReversed<T>(xs: seq<T>, f: T -> string): string
  {
    ConcatMap(Reverse(xs), f)
  }

  /** Appending newer elements puts their text in front: the result reads back to front. */
  lemma ConcatReversedAppend<T>(a: seq<T>, b: seq<T>, f: T -> string)
    ensures ConcatReversed(a + b, f) == ConcatReversed(b, f) + ConcatReversed(a, f)
  {
    ReverseAppend(a, b);
    ConcatMapAppend(Reverse(b), Reverse(a), f);
  }

  lemma ConcatReversedSingle<T>(x: T, f: T -> string)
    ensures ConcatReversed([x], f) == f(x)
  {
    assert Reverse([x]) == [x];
    assert [x][1..] == [];
    assert ConcatMap([x], f) == f(x) + ConcatMap([], f);
    assert f(x) + "" == f(x);
  }

  /** Read back to front, the text opens with the last element's piece and closes with the first's. */
  lemma ConcatReversedEnds<T>(xs: seq<T>, f: T -> string)
    requires |xs| >= 1
    ensures var q := ConcatReversed(xs, f); var n := |xs|;
      && |f(xs[n - 1])| <= |q| && |f(xs[0])| <= |q|
      && q[..|f(xs[n - 1])|] == f(xs[n - 1])
      && q[|q| - |f(xs[0])|..] == f(xs[0])
  {
    var n := |xs|;
    assert xs == xs[..n - 1] + [xs[n - 1]];
    ConcatReversedAppend(xs[..n - 1], [xs[n - 1]], f);
    ConcatReversedSingle(xs[n - 1], f);
    assert xs == [xs[0]] + xs[1..];
    ConcatReversedAppend([xs[0]], xs[1..], f);
    ConcatReversedSingle(xs[0], f);
  }

  /** True iff `p` occurs in `s` starting at index `k`. */
  predicate OccursAt(s: string, p: string, k: int)
  {
    0 <= k && k + |p| <= |s| && s[k..k + |p|] == p
  }
}
