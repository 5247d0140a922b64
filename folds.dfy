/** Left-to-right folds over a list of numbers, the arithmetic the evaluators
    of app/models/calculation.py perform. Numbers are exact reals. */
module Folds {

  /** Python's built-in `sum`: 0 plus each element in turn, left to right.
      The empty sum is 0, and a sum of terms of one sign has that sign. */
  function Sum(s: seq<real>): (r: real)
    ensures s == [] ==> r == 0.0
    ensures (forall i :: 0 <= i < |s| ==> s[i] >= 0.0) ==> r >= 0.0
    ensures (forall i :: 0 <= i < |s| ==> s[i] <= 0.0) ==> r <= 0.0
  {
    if s == [] then 0.0
    else
      assert forall i :: 0 <= i < |s| - 1 ==> s[..|s| - 1][i] == s[i];
      Sum(s[..|s| - 1]) + s[|s| - 1]
  }

  /** Some element of `s` is zero. */
  predicate HasZero(s: seq<real>)
  {
    0.0 in s
  }

  /** 1 multiplied by each element in turn, left to right. It is zero
      exactly when one of the factors is. */
  function Product(s: seq<real>): (r: real)
    ensures s == [] ==> r == 1.0
    ensures r == 0.0 <==> HasZero(s)
  {
    if s == [] then 1.0
    else
      assert forall i :: 0 <= i < |s| - 1 ==> s[..|s| - 1][i] == s[i];
      Product(s[..|s| - 1]) * s[|s| - 1]
  }

  /** Dividing by `p` and then by `x` is dividing by `p * x`. */
  lemma DivideTwice(a: real, p: real, x: real)
    requires p != 0.0 && x != 0.0
    ensures p * x != 0.0
    ensures (a / p) / x == a / (p * x)
  {
    var q := a / p;
    var r := q / x;
    calc {
      r * (p * x);
      (r * x) * p;
      q * p;
      a;
    }
    assert (r - a / (p * x)) * (p * x) == 0.0;
  }

  /** Extending a list by one element adds that element to its sum. */
  lemma SumSnoc(s: seq<real>, x: real)
    ensures Sum(s + [x]) == Sum(s) + x
  {
    assert (s + [x])[..|s|] == s;
  }

  /** Extending a list by one element multiplies its product by that element. */
  lemma ProductSnoc(s: seq<real>, x: real)
    ensures Product(s + [x]) == Product(s) * x
  {
    assert (s + [x])[..|s|] == s;
  }

  /** Dividing by a nonzero product and then by one more nonzero factor is
      dividing by the extended product. */
  lemma QuotientSnoc(a: real, s: seq<real>, x: real)
    requires Product(s) != 0.0 && x != 0.0
    ensures Product(s + [x]) != 0.0
    ensures (a / Product(s)) / x == a / Product(s + [x])
  {
    ProductSnoc(s, x);
    DivideTwice(a, Product(s), x);
    DivideByEqual(a, Product(s) * x, Product(s + [x]));
  }

  /** Multiplying by `q` and then by `x` is multiplying by `q * x`. */
  lemma Regroup(p: real, q: real, x: real)
    ensures (p * q) * x == p * (q * x)
  {
  }

  /** Dividing by equal nonzero divisors gives equal quotients. */
  lemma DivideByEqual(a: real, d: real, e: real)
    requires d == e && d != 0.0
    ensures a / d == a / e
  {
  }

  /** The sum of two lists laid end to end is the sum of their sums. */
  lemma {:induction false} SumConcat(a: seq<real>, b: seq<real>)
    ensures Sum(a + b) == Sum(a) + Sum(b)
    decreases |b|
  {
    if b == [] {
      assert a + b == a;
    } else {
      var b' := b[..|b| - 1];
      assert a + b == (a + b') + [b[|b| - 1]];
      SumSnoc(a + b', b[|b| - 1]);
      SumConcat(a, b');
    }
  }

  /** The product of two lists laid end to end is the product of their products. */
  lemma {:induction false} ProductConcat(a: seq<real>, b: seq<real>)
    ensures Product(a + b) == Product(a) * Product(b)
    decreases |b|
  {
    if b == [] {
      assert a + b == a;
    } else {
      var b' := b[..|b| - 1];
      var x := b[|b| - 1];
      assert b == b' + [x];
      assert a + b == (a + b') + [x];
      ProductSnoc(a + b', x);
      ProductSnoc(b', x);
      ProductConcat(a, b');
      var pa, pb' := Product(a), Product(b');
      Regroup(pa, pb', x);
      calc {
        Product(a + b);
        Product(a + b') * x;
        (pa * pb') * x;
        pa * (pb' * x);
        pa * Product(b);
      }
    }
  }
}
