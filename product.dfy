/**
 * Fixed-width digit tuples in base `b`, most significant digit first.
 *
 * `itertools.product(range(b), repeat=w)` yields the `b^w` tuples of width
 * `w` in lexicographic order; the `n`-th tuple it yields is `Digits(n, b, w)`.
 * This module proves that decoding is onto the tuples (every tuple is some
 * index's decoding) and strictly increasing in lexicographic order.
 */
module Product {

  /** `b` raised to the power `w`. */
  function Pow(b: nat, w: nat): (r: nat)
    ensures b > 0 ==> r > 0
  {
    if w == 0 then 1 else b * Pow(b, w - 1)
  }

  /** A tuple of width `w` whose every entry is below `b`. */
  predicate IsTuple(ds: seq<nat>, b: nat, w: nat)
  {
    |ds| == w && forall i :: 0 <= i < w ==> ds[i] < b
  }

  /** The `w` base-`b` digits of `n`, most significant first (the last digit varies fastest). */
  function Digits(n: nat, b: nat, w: nat): (ds: seq<nat>)
    requires b > 0
    ensures IsTuple(ds, b, w)
    decreases w
  {
    if w == 0 then []
    else
      var prefix := Digits(n / b, b, w - 1);
      assert n % b < b;
      prefix + [n % b]
  }

  /** The number whose base-`b` digits, most significant first, are `ds`. */
  function Value(ds: seq<nat>, b: nat): nat
  {
    if |ds| == 0 then 0 else Value(ds[..|ds| - 1], b) * b + ds[|ds| - 1]
  }

  /** `a` comes strictly before `c` in lexicographic order. */
  ghost predicate LexLess(a: seq<nat>, c: seq<nat>)
  {
    exists i :: 0 <= i < |a| && i < |c| && a[..i] == c[..i] && a[i] < c[i]
  }

  lemma DivModOfSum(q: nat, x: nat, b: nat)
    requires x < b
    ensures (q * b + x) / b == q && (q * b + x) % b == x
  {
    var n := q * b + x;
    var d, r := n / b, n % b;
    assert d * b + r == q * b + x;
    if d > q {
      MulAtLeast(d - q, b);
      assert false;
    } else if d < q {
      MulAtLeast(q - d, b);
      assert false;
    }
  }

  lemma MulAtLeast(k: nat, b: nat)
    requires k >= 1
    ensures k * b >= b
  {
    assert k * b == (k - 1) * b + b;
  }

  lemma MulMonotone(x: nat, y: nat, b: nat)
    requires x <= y
    ensures x * b <= y * b
  {
    assert y * b == x * b + (y - x) * b;
  }

  /** Dividing by `b` does not reverse order. */
  lemma DivMonotone(n: nat, m: nat, b: nat)
    requires b > 0 && n <= m
    ensures n / b <= m / b
  {
    if n / b > m / b {
      MulMonotone(m / b + 1, n / b, b);
      assert false;
    }
  }

  /** A number below `b * p` has quotient below `p`. */
  lemma DivBelow(m: nat, b: nat, p: nat)
    requires b > 0 && m < b * p
    ensures m / b < p
  {
    if m / b >= p {
      MulMonotone(p, m / b, b);
    }
  }

  /** The number a tuple of width `w` encodes is an index of `product`: it is below `b^w`. */
  lemma {:induction false} ValueBelowPow(ds: seq<nat>, b: nat)
    requires b > 0 && IsTuple(ds, b, |ds|)
    ensures Value(ds, b) < Pow(b, |ds|)
  {
    if |ds| > 0 {
      var w := |ds|;
      var p, x := ds[..w - 1], ds[w - 1];
      assert IsTuple(p, b, w - 1);
      ValueBelowPow(p, b);
      BelowNextMultiple(Value(p, b), x, b, Pow(b, w - 1));
    }
  }

  lemma BelowNextMultiple(q: nat, x: nat, b: nat, p: nat)
    requires q < p && x < b
    ensures q * b + x < p * b
  {
    MulMonotone(q + 1, p, b);
    assert (q + 1) * b == q * b + b;
  }

  /** Decoding after encoding gives the tuple back. */
  lemma {:induction false} DigitsOfValue(ds: seq<nat>, b: nat)
    requires b > 0 && IsTuple(ds, b, |ds|)
    ensures Digits(Value(ds, b), b, |ds|) == ds
  {
    if |ds| > 0 {
      var w := |ds|;
      var p, x := ds[..w - 1], ds[w - 1];
      assert IsTuple(p, b, w - 1);
      DigitsOfValue(p, b);
      var q := Value(p, b);
      assert Value(ds, b) == q * b + x;
      DivModOfSum(q, x, b);
      assert ds == p + [x];
    }
  }

  /** Appending a digit to lexicographically ordered prefixes keeps them ordered. */
  lemma LexLessExtend(a: seq<nat>, c: seq<nat>, x: nat, y: nat)
    requires |a| == |c|
    requires LexLess(a, c) || (a == c && x < y)
    ensures LexLess(a + [x], c + [y])
  {
    if LexLess(a, c) {
      var i :| 0 <= i < |a| && i < |c| && a[..i] == c[..i] && a[i] < c[i];
      assert (a + [x])[..i] == a[..i] && (c + [y])[..i] == c[..i];
    } else {
      var i := |a|;
      assert (a + [x])[..i] == a && (c + [y])[..i] == c;
    }
  }

  /** Larger indices decode to lexicographically later tuples: `product` order is lexicographic. */
  lemma {:induction false} DigitsMonotone(n: nat, m: nat, b: nat, w: nat)
    requires b > 0 && n < m < Pow(b, w)
    ensures LexLess(Digits(n, b, w), Digits(m, b, w))
    decreases w
  {
    if w == 0 {
      assert false;
    } else {
      DivMonotone(n, m, b);
      DivBelow(m, b, Pow(b, w - 1));
      if n / b < m / b {
        DigitsMonotone(n / b, m / b, b, w - 1);
      } else {
        assert n % b < m % b;
      }
      LexLessExtend(Digits(n / b, b, w - 1), Digits(m / b, b, w - 1), n % b, m % b);
    }
  }

  /** Two sequences agreeing on a prefix agree at each of its positions. */
  lemma PrefixEntry(a: seq<nat>, c: seq<nat>, k: nat, n: nat)
    ensures k < n <= |a| && n <= |c| && a[..n] == c[..n] ==> a[k] == c[k]
  {
    if k < n <= |a| && n <= |c| && a[..n] == c[..n] {
      assert a[..n][k] == c[..n][k];
    }
  }

  /** Lexicographic order is irreflexive and asymmetric. */
  lemma LexLessAsymmetric(a: seq<nat>, c: seq<nat>)
    requires LexLess(a, c)
    ensures !LexLess(c, a) && a != c
  {
    var i :| 0 <= i < |a| && i < |c| && a[..i] == c[..i] && a[i] < c[i];
    forall j | 0 <= j < |c| && j < |a| && c[..j] == a[..j]
      ensures c[j] >= a[j]
    {
      PrefixEntry(a, c, j, i);
      PrefixEntry(c, a, i, j);
    }
  }

  /** `product(range(2), repeat=6)` has 64 tuples and `product(range(3), repeat=6)` has 729. */
  lemma ProductSizes()
    ensures Pow(2, 6) == 64 && Pow(3, 6) == 729
  {
    assert Pow(2, 2) == 4 && Pow(3, 2) == 9;
    assert Pow(2, 4) == 16 && Pow(3, 4) == 81;
  }

  /**
   * A tuple that comes before the `n`-th tuple of `product` in
   * lexicographic order is an earlier index's tuple.
   */
  lemma EarlierTuple(e: seq<nat>, n: nat, b: nat, w: nat)
    requires b > 0 && IsTuple(e, b, w) && n < Pow(b, w)
    requires LexLess(e, Digits(n, b, w))
    ensures Value(e, b) < n && Digits(Value(e, b), b, w) == e
  {
    var m := Value(e, b);
    ValueBelowPow(e, b);
    DigitsOfValue(e, b);
    LexLessAsymmetric(e, Digits(n, b, w));
    if m > n {
      DigitsMonotone(n, m, b, w);
    }
  }
}
