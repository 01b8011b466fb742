/** Sequence folds shared by the loops of the model. */
module Seqs {

  /** A sequence is its prefix followed by the rest. */
  lemma SplitAt<T>(xs: seq<T>, k: nat)
    requires k <= |xs|
    ensures xs[..k] + xs[k..] == xs
  {
  }

  /** A sequence is the concatenation of its pieces at two cut points. */
  lemma CutTwice<T>(xs: seq<T>, i: nat, j: nat)
    requires i <= j <= |xs|
    ensures xs == xs[..i] + xs[i..j] + xs[j..]
  {
  }

  /** The two sides of `a + sep + b`, cut back out. */
  lemma AroundSeparator<T>(a: seq<T>, sep: seq<T>, b: seq<T>)
    ensures (a + sep + b)[..|a|] == a && (a + sep + b)[|a| + |sep|..] == b
  {
  }

  /** The concatenation of `f(x)` for every `x` of `xs`, in order. Defined from the
      last element so that a loop over a prefix extends it one element at a time. */
  function FlatMap<T, U>(xs: seq<T>, f: T -> seq<U>): seq<U>
  {
    if xs == [] then [] else FlatMap(xs[..|xs| - 1], f) + f(xs[|xs| - 1])
  }

  /** One more element contributes exactly its own image. */
  lemma FlatMapSnoc<T, U>(xs: seq<T>, x: T, f: T -> seq<U>)
    ensures FlatMap(xs + [x], f) == FlatMap(xs, f) + f(x)
  {
    assert (xs + [x])[..|xs|] == xs;
  }

  /** The prefix one element longer contributes that element's image. */
  lemma FlatMapPrefix<T, U>(xs: seq<T>, j: nat, f: T -> seq<U>)
    requires j < |xs|
    ensures FlatMap(xs[..j + 1], f) == FlatMap(xs[..j], f) + f(xs[j])
  {
    assert xs[..j + 1] == xs[..j] + [xs[j]];
    FlatMapSnoc(xs[..j], xs[j], f);
  }

  /** The step of a loop that appends the image of each element to `acc`. */
  lemma FlatMapStep<T, U>(acc: seq<U>, xs: seq<T>, j: nat, f: T -> seq<U>)
    requires j < |xs|
    ensures (acc + FlatMap(xs[..j], f)) + f(xs[j]) == acc + FlatMap(xs[..j + 1], f)
  {
    FlatMapPrefix(xs, j, f);
  }

  /** FlatMap distributes over concatenation: every element is mapped independently. */
  lemma {:induction false} FlatMapAppend<T, U>(xs: seq<T>, ys: seq<T>, f: T -> seq<U>)
    ensures FlatMap(xs + ys, f) == FlatMap(xs, f) + FlatMap(ys, f)
    decreases |ys|
  {
    if ys == [] {
      assert xs + ys == xs;
    } else {
      var init := ys[..|ys| - 1];
      assert (xs + ys)[..|xs + ys| - 1] == xs + init;
      assert (xs + ys)[|xs + ys| - 1] == ys[|ys| - 1];
      FlatMapAppend(xs, init, f);
    }
  }

  /** Everything FlatMap produces comes from the image of some element. */
  lemma {:induction false} FlatMapMember<T, U>(xs: seq<T>, f: T -> seq<U>, u: U)
    requires u in FlatMap(xs, f)
    ensures exists k :: 0 <= k < |xs| && u in f(xs[k])
    decreases |xs|
  {
    var init := xs[..|xs| - 1];
    if u in FlatMap(init, f) {
      FlatMapMember(init, f, u);
      var k :| 0 <= k < |init| && u in f(init[k]);
      assert xs[k] == init[k];
    } else {
      assert u in f(xs[|xs| - 1]);
    }
  }

  lemma AppendAssociative<T>(a: seq<T>, b: seq<T>, c: seq<T>)
    ensures (a + b) + c == a + (b + c)
  {
  }

  /** No element occurs twice. */
  predicate Distinct<T(==)>(s: seq<T>) {
    forall i, j :: 0 <= i < j < |s| ==> s[i] != s[j]
  }

  lemma DistinctAppend<T>(a: seq<T>, b: seq<T>)
    requires Distinct(a) && Distinct(b)
    requires forall x :: x in b ==> x !in a
    ensures Distinct(a + b)
  {
    forall i, j | 0 <= i < j < |a + b|
      ensures (a + b)[i] != (a + b)[j]
    {
      if j < |a| {
        assert (a + b)[i] == a[i] && (a + b)[j] == a[j];
      } else if i < |a| {
        assert (a + b)[i] == a[i] && (a + b)[j] == b[j - |a|];
        assert b[j - |a|] in b;
      } else {
        assert (a + b)[i] == b[i - |a|] && (a + b)[j] == b[j - |a|];
      }
    }
  }
}
