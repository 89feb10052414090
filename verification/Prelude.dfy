/** What every module shares.

    Optional values and results stand for Python's None and its exceptions. `Over` sums a weight
    over a sequence, and the lemmas below say how such a sum changes when an element is added,
    changed, taken out or moved. The rest are ranges of numbers and sequences without repeats. */
module Prelude {

  datatype Option<+T> = None | Some(value: T)

  datatype Result<+T, +E> = Ok(value: T) | Err(error: E)

  /** The sum of `f` over `xs`. */
  ghost function Over<T>(xs: seq<T>, f: T -> nat): nat {
    if xs == [] then 0 else f(xs[0]) + Over(xs[1..], f)
  }

  lemma {:induction false} OverConcat<T>(a: seq<T>, b: seq<T>, f: T -> nat)
    ensures Over(a + b, f) == Over(a, f) + Over(b, f)
  {
    if a == [] {
      assert a + b == b;
    } else {
      assert (a + b)[1..] == a[1..] + b;
      OverConcat(a[1..], b, f);
    }
  }

  lemma OverSplit<T>(xs: seq<T>, i: nat, f: T -> nat)
    requires i < |xs|
    ensures Over(xs, f) == Over(xs[..i], f) + f(xs[i]) + Over(xs[i + 1..], f)
    ensures f(xs[i]) <= Over(xs, f)
  {
    assert xs == xs[..i] + xs[i..];
    OverConcat(xs[..i], xs[i..], f);
    assert xs[i..][1..] == xs[i + 1..];
  }

  lemma OverUpdate<T>(xs: seq<T>, i: nat, x: T, f: T -> nat)
    requires i < |xs|
    ensures Over(xs[i := x], f) + f(xs[i]) == Over(xs, f) + f(x)
  {
    OverSplit(xs, i, f);
    OverSplit(xs[i := x], i, f);
    assert xs[i := x][..i] == xs[..i];
    assert xs[i := x][i + 1..] == xs[i + 1..];
  }

  lemma OverRemove<T>(xs: seq<T>, i: nat, f: T -> nat)
    requires i < |xs|
    ensures Over(xs[..i] + xs[i + 1..], f) + f(xs[i]) == Over(xs, f)
  {
    OverSplit(xs, i, f);
    OverConcat(xs[..i], xs[i + 1..], f);
  }

  lemma {:induction false} OverZero<T>(xs: seq<T>, f: T -> nat)
    ensures Over(xs, f) == 0 <==> forall i :: 0 <= i < |xs| ==> f(xs[i]) == 0
  {
    if xs != [] {
      OverZero(xs[1..], f);
      assert forall i :: 1 <= i < |xs| ==> xs[i] == xs[1..][i - 1];
    }
  }

  /** Only the elements count, not their order. */
  lemma {:induction false} OverPermuted<T>(a: seq<T>, b: seq<T>, f: T -> nat)
    requires multiset(a) == multiset(b)
    ensures Over(a, f) == Over(b, f)
  {
    if a == [] {
      assert |multiset(b)| == |b|;
    } else {
      assert a[0] in multiset(b);
      var i :| 0 <= i < |b| && b[i] == a[0];
      var rest := b[..i] + b[i + 1..];
      assert a == [a[0]] + a[1..];
      assert b == b[..i] + [b[i]] + b[i + 1..];
      assert multiset(a[1..]) == multiset(a) - multiset{a[0]};
      assert multiset(rest) == multiset(b) - multiset{b[i]};
      OverPermuted(a[1..], rest, f);
      OverRemove(b, i, f);
    }
  }

  lemma {:induction false} OverMap<S, T>(xs: seq<S>, ys: seq<T>, f: S -> nat, g: T -> nat)
    requires |xs| == |ys|
    requires forall i :: 0 <= i < |xs| ==> f(xs[i]) == g(ys[i])
    ensures Over(xs, f) == Over(ys, g)
  {
    if xs != [] {
      assert forall i :: 0 <= i < |xs| - 1 ==> xs[1..][i] == xs[i + 1] && ys[1..][i] == ys[i + 1];
      OverMap(xs[1..], ys[1..], f, g);
    }
  }

  lemma {:induction false} OverAtMost<S, T>(xs: seq<S>, ys: seq<T>, f: S -> nat, g: T -> nat)
    requires |xs| == |ys|
    requires forall i :: 0 <= i < |xs| ==> f(xs[i]) <= g(ys[i])
    ensures Over(xs, f) <= Over(ys, g)
  {
    if xs != [] {
      assert forall i :: 0 <= i < |xs| - 1 ==> xs[1..][i] == xs[i + 1] && ys[1..][i] == ys[i + 1];
      OverAtMost(xs[1..], ys[1..], f, g);
    }
  }

  lemma OverChangeAt<T>(xs: seq<T>, i: nat, f: T -> nat, g: T -> nat)
    requires i < |xs|
    requires forall j :: 0 <= j < |xs| && j != i ==> f(xs[j]) == g(xs[j])
    ensures Over(xs, g) + f(xs[i]) == Over(xs, f) + g(xs[i])
  {
    OverSplit(xs, i, f);
    OverSplit(xs, i, g);
    OverMap(xs[..i], xs[..i], f, g);
    OverMap(xs[i + 1..], xs[i + 1..], f, g);
  }

  /** At most `each` apiece. */
  lemma {:induction false} OverBounded<T>(xs: seq<T>, f: T -> nat, each: nat)
    requires forall i :: 0 <= i < |xs| ==> f(xs[i]) <= each
    ensures Over(xs, f) <= each * |xs|
  {
    if xs != [] {
      assert forall i :: 0 <= i < |xs| - 1 ==> xs[1..][i] == xs[i + 1];
      OverBounded(xs[1..], f, each);
    }
  }

  ghost predicate NoDuplicates<T(!new)>(xs: seq<T>) {
    forall i, j :: 0 <= i < j < |xs| ==> xs[i] != xs[j]
  }

  lemma RepeatCountsTwice<T(!new)>(xs: seq<T>, i: nat, j: nat)
    requires i < j < |xs| && xs[i] == xs[j]
    ensures multiset(xs)[xs[i]] >= 2
  {
    assert xs == xs[..j] + [xs[j]] + xs[j + 1..];
    assert xs[i] in xs[..j];
  }

  ghost predicate Increasing(xs: seq<nat>) {
    forall i, j :: 0 <= i < j < |xs| ==> xs[i] < xs[j]
  }

  /** 0, 1, ..., n - 1 */
  function Range(n: nat): (r: seq<nat>)
    ensures |r| == n && forall i :: 0 <= i < n ==> r[i] == i
  {
    seq(n, i => i)
  }

  /** The numbers below `n`. */
  function Upto(n: nat): (r: set<nat>)
    ensures forall p: nat :: p in r <==> p < n
  {
    if n == 0 then {} else Upto(n - 1) + {n - 1}
  }
}
