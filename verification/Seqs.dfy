/** Generic sequence helpers shared by every collection of the shop:
    a sum of a per-element weight, and the index of the first element that
    satisfies a predicate (what a non-multi document-store update touches). */
module Seqs {

  datatype Option<+T> = None | Some(value: T)

  /** The sum of `f` over the elements of `xs`. */
  function Sum<T>(xs: seq<T>, f: T -> int): int
    decreases |xs|
  {
    if |xs| == 0 then 0 else f(xs[0]) + Sum(xs[1..], f)
  }

  /** Sums are additive over concatenation. */
  lemma {:induction false} SumConcat<T>(a: seq<T>, b: seq<T>, f: T -> int)
    ensures Sum(a + b, f) == Sum(a, f) + Sum(b, f)
    decreases |a|
  {
    if |a| == 0 {
      assert a + b == b;
    } else {
      assert (a + b)[1..] == a[1..] + b;
      SumConcat(a[1..], b, f);
    }
  }

  /** Appending one element adds its weight. */
  lemma {:induction false} SumAppend<T>(a: seq<T>, x: T, f: T -> int)
    ensures Sum(a + [x], f) == Sum(a, f) + f(x)
  {
    SumConcat(a, [x], f);
    assert Sum([x], f) == f(x) + Sum([x][1..], f);
    assert [x][1..] == [];
  }

  /** Removing the element at `k` subtracts its weight. */
  lemma {:induction false} SumRemoveAt<T>(a: seq<T>, k: int, f: T -> int)
    requires 0 <= k < |a|
    ensures Sum(a[..k] + a[k + 1..], f) == Sum(a, f) - f(a[k])
  {
    assert a == a[..k] + ([a[k]] + a[k + 1..]);
    SumConcat(a[..k], [a[k]] + a[k + 1..], f);
    SumConcat([a[k]], a[k + 1..], f);
    SumConcat(a[..k], a[k + 1..], f);
    assert Sum([a[k]], f) == f(a[k]) + Sum([a[k]][1..], f);
    assert [a[k]][1..] == [];
  }

  /** Two weights that agree on every element give the same sum. */
  lemma {:induction false} SumAgree<T>(a: seq<T>, f: T -> int, g: T -> int)
    requires forall i :: 0 <= i < |a| ==> f(a[i]) == g(a[i])
    ensures Sum(a, f) == Sum(a, g)
    decreases |a|
  {
    if |a| > 0 {
      SumAgree(a[1..], f, g);
    }
  }

  /** A weight that is zero on every element sums to zero. */
  lemma {:induction false} SumZero<T>(a: seq<T>, f: T -> int)
    requires forall i :: 0 <= i < |a| ==> f(a[i]) == 0
    ensures Sum(a, f) == 0
    decreases |a|
  {
    if |a| > 0 {
      SumZero(a[1..], f);
    }
  }

  /** `f` applied to each element of `xs`, in order. */
  function Map<T, U>(xs: seq<T>, f: T -> U): (ys: seq<U>)
    ensures |ys| == |xs|
    ensures forall i :: 0 <= i < |xs| ==> ys[i] == f(xs[i])
  {
    seq(|xs|, i requires 0 <= i < |xs| => f(xs[i]))
  }

  /** The index of the first element satisfying `p`, or `|xs|` when there is none. */
  function FirstIndex<T>(xs: seq<T>, p: T -> bool): (i: nat)
    ensures i <= |xs|
    ensures i < |xs| ==> p(xs[i])
    ensures forall j :: 0 <= j < i ==> !p(xs[j])
    decreases |xs|
  {
    if |xs| == 0 then 0
    else if p(xs[0]) then 0
    else 1 + FirstIndex(xs[1..], p)
  }

  /** Appending an element does not move an existing first match; without one,
      the appended element is the first match exactly when it satisfies `p`. */
  lemma {:induction false} FirstIndexAppend<T>(xs: seq<T>, x: T, p: T -> bool)
    ensures FirstIndex(xs, p) < |xs| ==> FirstIndex(xs + [x], p) == FirstIndex(xs, p)
    ensures FirstIndex(xs, p) == |xs| ==> FirstIndex(xs + [x], p) == (if p(x) then |xs| else |xs| + 1)
  {
    var i := FirstIndex(xs, p);
    var ys := xs + [x];
    assert forall j :: 0 <= j < |xs| ==> ys[j] == xs[j];
    FirstIndexUnique(ys, p, if i < |xs| then i else if p(x) then |xs| else |xs| + 1);
  }

  /** `FirstIndex` is characterised by its contract: any index that matches and
      has no match before it is the first index. */
  lemma {:induction false} FirstIndexUnique<T>(xs: seq<T>, p: T -> bool, i: nat)
    requires i <= |xs|
    requires i < |xs| ==> p(xs[i])
    requires forall j :: 0 <= j < i ==> !p(xs[j])
    ensures FirstIndex(xs, p) == i
  {
  }
}
