/** Sums of real sequences, and the few laws the ledger's accounts are kept with. */
module Sums {

  function Sum(xs: seq<real>): real {
    if |xs| == 0 then 0.0 else Sum(xs[..|xs| - 1]) + xs[|xs| - 1]
  }

  lemma SumAppend(xs: seq<real>, x: real)
    ensures Sum(xs + [x]) == Sum(xs) + x
  {
    assert (xs + [x])[..|xs|] == xs;
  }

  /** The sum of a prefix and of the prefix one longer differ by the element between them. */
  lemma SumPrefix(xs: seq<real>, k: nat)
    requires k < |xs|
    ensures Sum(xs[..k + 1]) == Sum(xs[..k]) + xs[k]
  {
    assert xs[..k + 1] == xs[..k] + [xs[k]];
    SumAppend(xs[..k], xs[k]);
  }

  lemma {:induction false} SumAdd(xs: seq<real>, ys: seq<real>, zs: seq<real>)
    requires |xs| == |ys| == |zs|
    requires forall i :: 0 <= i < |xs| ==> zs[i] == xs[i] + ys[i]
    ensures Sum(zs) == Sum(xs) + Sum(ys)
  {
    if |xs| > 0 {
      var n := |xs| - 1;
      SumAdd(xs[..n], ys[..n], zs[..n]);
    }
  }

  /** A product, by name: what multiplies two amounts says so once. */
  function Product(a: real, b: real): real { a * b }

  function Scale(xs: seq<real>, t: real): (ys: seq<real>)
    ensures |ys| == |xs|
  {
    seq(|xs|, i requires 0 <= i < |xs| => Product(xs[i], t))
  }

  lemma {:induction false} SumScale(xs: seq<real>, t: real)
    ensures Sum(Scale(xs, t)) == Product(Sum(xs), t)
  {
    if |xs| > 0 {
      var n := |xs| - 1;
      SumScale(xs[..n], t);
      assert Scale(xs, t)[..n] == Scale(xs[..n], t);
      MulDistribute(Sum(xs[..n]), xs[n], t);
    }
  }

  lemma {:induction false} SumLe(xs: seq<real>, ys: seq<real>)
    requires |xs| == |ys|
    requires forall i :: 0 <= i < |xs| ==> xs[i] <= ys[i]
    ensures Sum(xs) <= Sum(ys)
  {
    if |xs| > 0 {
      var n := |xs| - 1;
      SumLe(xs[..n], ys[..n]);
    }
  }

  lemma {:induction false} SumNonNegative(xs: seq<real>)
    requires forall i :: 0 <= i < |xs| ==> xs[i] >= 0.0
    ensures Sum(xs) >= 0.0
    ensures forall i :: 0 <= i < |xs| ==> xs[i] <= Sum(xs)
  {
    if |xs| > 0 {
      SumNonNegative(xs[..|xs| - 1]);
    }
  }

  lemma MulDistribute(a: real, b: real, c: real)
    ensures (a + b) * c == a * c + b * c
    ensures c * (a + b) == c * a + c * b
  {
  }

  lemma MulMonotone(a: real, b: real, c: real)
    requires a <= b && c >= 0.0
    ensures a * c <= b * c && c * a <= c * b
  {
  }

  lemma MulNonNegative(a: real, b: real)
    requires a >= 0.0 && b >= 0.0
    ensures a * b >= 0.0
  {
  }

  lemma DivMul(a: real, b: real)
    requires b > 0.0
    ensures b * (a / b) == a && (a / b) * b == a
    ensures a >= 0.0 ==> a / b >= 0.0
    ensures a > 0.0 ==> a / b > 0.0
  {
  }

  lemma MulPositive(a: real, b: real)
    requires a > 0.0 && b > 0.0
    ensures a * b > 0.0
  {
  }

  /** A quotient is the one number that times the divisor gives the dividend. */
  lemma DivUnique(a: real, b: real, q: real)
    requires b > 0.0 && q * b == a
    ensures a / b == q
  {
    DivMul(a, b);
    assert (a / b - q) * b == 0.0;
  }

  lemma QuotientAtLeast(a: real, b: real, w: real)
    requires w > 0.0
    ensures a / w >= b <==> a >= b * w
  {
    DivMul(a, w);
    OrderTimes(a / w, b, w);
  }

  lemma OrderTimes(a: real, b: real, w: real)
    requires w > 0.0
    ensures a >= b <==> a * w >= b * w
  {
    if a >= b {
      MulMonotone(b, a, w);
    } else {
      MulPositive(b - a, w);
      MulDistribute(b - a, a, w);
      assert (b - a) + a == b;
    }
  }

  lemma DivOne(a: real, b: real)
    requires b > 0.0
    ensures a / b <= 1.0 <==> a <= b
  {
  }

  /** How many of the flags are set. */
  function Count(flags: seq<bool>): nat {
    if |flags| == 0 then 0 else Count(flags[..|flags| - 1]) + if flags[|flags| - 1] then 1 else 0
  }

  lemma CountAppend(flags: seq<bool>, flag: bool)
    ensures Count(flags + [flag]) == Count(flags) + if flag then 1 else 0
  {
    assert (flags + [flag])[..|flags|] == flags;
  }

  /** n times x, as repeated addition. */
  function Times(n: nat, x: real): real {
    if n == 0 then 0.0 else Times(n - 1, x) + x
  }

  lemma {:induction false} TimesIsProduct(n: nat, x: real)
    ensures Times(n, x) == n as real * x
  {
    if n > 0 {
      TimesIsProduct(n - 1, x);
      MulDistribute((n - 1) as real, 1.0, x);
    }
  }

  lemma {:induction false} TimesAdd(a: nat, b: nat, x: real)
    ensures Times(a + b, x) == Times(a, x) + Times(b, x)
  {
    if b > 0 {
      TimesAdd(a, b - 1, x);
    }
  }

  lemma {:induction false} TimesNonNegative(n: nat, x: real)
    requires x >= 0.0
    ensures Times(n, x) >= 0.0
  {
    if n > 0 {
      TimesNonNegative(n - 1, x);
    }
  }

  lemma {:induction false} TimesBound(n: nat, a: real, b: real, delta: real)
    requires a <= b + delta
    ensures Times(n, a) <= Times(n, b) + Times(n, delta)
  {
    if n > 0 { TimesBound(n - 1, a, b, delta); }
  }

  lemma TimesEven(n: nat, total: real)
    requires n > 0
    ensures Times(n, total / n as real) == total
  {
    TimesIsProduct(n, total / n as real);
    DivMul(total, n as real);
  }

  lemma TimesAtMost(n: nat, total: real, part: real, delta: real)
    requires n > 0 && part <= total / n as real + delta
    ensures Times(n, part) <= total + Times(n, delta)
  {
    TimesBound(n, part, total / n as real, delta);
    TimesEven(n, total);
  }

  lemma TimesAtLeast(n: nat, total: real, part: real, delta: real)
    requires n > 0 && part >= total / n as real - delta
    ensures Times(n, part) >= total - Times(n, delta)
  {
    TimesBound(n, total / n as real, part, delta);
    TimesEven(n, total);
  }

  /** A sum whose terms each lie within delta of another's where flagged, and agree elsewhere. */
  lemma {:induction false} SumWithin(xs: seq<real>, ys: seq<real>, flags: seq<bool>, delta: real)
    requires |xs| == |ys| == |flags| && delta >= 0.0
    requires forall i :: 0 <= i < |xs| ==> if flags[i] then -delta <= xs[i] - ys[i] <= delta else xs[i] == ys[i]
    ensures -Times(Count(flags), delta) <= Sum(xs) - Sum(ys) <= Times(Count(flags), delta)
  {
    if |xs| > 0 {
      var n := |xs| - 1;
      SumWithin(xs[..n], ys[..n], flags[..n], delta);
    }
  }

  /** A sum of equal terms where flagged and zero elsewhere. */
  lemma {:induction false} SumFlagged(xs: seq<real>, flags: seq<bool>, x: real)
    requires |xs| == |flags|
    requires forall i :: 0 <= i < |xs| ==> xs[i] == if flags[i] then x else 0.0
    ensures Sum(xs) == Times(Count(flags), x)
  {
    if |xs| > 0 {
      var n := |xs| - 1;
      SumFlagged(xs[..n], flags[..n], x);
    }
  }
}
