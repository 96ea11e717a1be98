/** Sums of a weight over a sequence. */
module Sums {
  function One(b: bool): nat {
    if b then 1 else 0
  }

  function Sum<T>(xs: seq<T>, f: T -> nat): nat {
    if xs == [] then 0 else f(xs[0]) + Sum(xs[1..], f)
  }

  lemma {:induction false} SumConcat<T>(a: seq<T>, b: seq<T>, f: T -> nat)
    ensures Sum(a + b, f) == Sum(a, f) + Sum(b, f)
  {
    if a == [] {
      assert a + b == b;
    } else {
      assert (a + b)[1..] == a[1..] + b;
      SumConcat(a[1..], b, f);
    }
  }

  lemma {:induction false} SumOne<T>(x: T, f: T -> nat)
    ensures Sum([x], f) == f(x)
  {
    assert [x][1..] == [];
  }

  lemma SumNone<T>(f: T -> nat)
    ensures Sum([], f) == 0
  {
  }

  lemma SumRest<T>(xs: seq<T>, f: T -> nat)
    requires xs != []
    ensures Sum(xs, f) == f(xs[0]) + Sum(xs[1..], f)
  {
  }

  lemma {:induction false} SumAppend<T>(a: seq<T>, x: T, f: T -> nat)
    ensures Sum(a + [x], f) == Sum(a, f) + f(x)
  {
    SumConcat(a, [x], f);
    SumOne(x, f);
  }

  lemma {:induction false} SumUpdate<T>(xs: seq<T>, i: nat, x: T, f: T -> nat)
    requires i < |xs|
    ensures Sum(xs[i := x], f) + f(xs[i]) == Sum(xs, f) + f(x)
  {
    if i == 0 {
      assert xs[0 := x][1..] == xs[1..];
    } else {
      assert xs[i := x][1..] == xs[1..][i - 1 := x];
      SumUpdate(xs[1..], i - 1, x, f);
    }
  }

  function Without<T>(xs: seq<T>, i: nat): seq<T>
    requires i < |xs|
  {
    xs[..i] + xs[i + 1..]
  }

  lemma {:induction false} SumWithout<T>(xs: seq<T>, i: nat, f: T -> nat)
    requires i < |xs|
    ensures Sum(Without(xs, i), f) + f(xs[i]) == Sum(xs, f)
  {
    SumConcat(xs[..i], xs[i + 1..], f);
    SumConcat(xs[..i], [xs[i]] + xs[i + 1..], f);
    SumConcat([xs[i]], xs[i + 1..], f);
    SumOne(xs[i], f);
    assert xs == xs[..i] + ([xs[i]] + xs[i + 1..]);
  }

  /** A positive sum has a positive term. */
  lemma {:induction false} SumWitness<T>(xs: seq<T>, f: T -> nat) returns (i: nat)
    requires Sum(xs, f) > 0
    ensures i < |xs| && f(xs[i]) > 0
  {
    if f(xs[0]) > 0 {
      i := 0;
    } else {
      var j := SumWitness(xs[1..], f);
      i := j + 1;
    }
  }

  lemma {:induction false} SumAtLeast<T>(xs: seq<T>, f: T -> nat, i: nat)
    requires i < |xs|
    ensures f(xs[i]) <= Sum(xs, f)
  {
    if i > 0 {
      SumAtLeast(xs[1..], f, i - 1);
    }
  }

  lemma {:induction false} SumZero<T>(xs: seq<T>, f: T -> nat)
    requires forall i :: 0 <= i < |xs| ==> f(xs[i]) == 0
    ensures Sum(xs, f) == 0
  {
    if xs != [] {
      SumZero(xs[1..], f);
    }
  }
}
