/** Accelerator-hours as they are stored: exact reals, rounded to the millionth of an hour. */
module Hours {

  const MILLION: real := 1000000.0

  /** math.Round: the nearest integer, halves away from zero. */
  function RoundInt(x: real): int {
    if x >= 0.0 then (x + 0.5).Floor else -((-x + 0.5).Floor)
  }

  function RoundHours(hours: real): real {
    RoundInt(hours * MILLION) as real / MILLION
  }

  /** How an allocation is rounded: as the platform does, or not at all. The ledger's laws are
      stated for both, so the second is their exact form and the first the form with the error. */
  datatype Rounding = Exact | Millionth

  function Round(m: Rounding, hours: real): real {
    if m.Exact? then hours else RoundHours(hours)
  }

  /** The most one rounding moves an amount: half a millionth of an hour. */
  function Delta(m: Rounding): (d: real)
    ensures d >= 0.0
  {
    if m.Exact? then 0.0 else 0.5 / MILLION
  }

  function Max(a: real, b: real): real { if a >= b then a else b }
  function Min(a: real, b: real): real { if a <= b then a else b }
  function Abs(a: real): real { if a >= 0.0 then a else -a }

  lemma RoundIntNear(x: real)
    ensures -0.5 <= RoundInt(x) as real - x <= 0.5
    ensures x >= 0.0 ==> RoundInt(x) >= 0
    ensures RoundInt(-x) == -RoundInt(x)
  {
  }

  /** RoundHours is the nearest multiple of a millionth of an hour, and the one away from zero of
      two equally near. */
  lemma RoundHoursNearest(x: real, k: int)
    ensures Abs(RoundHours(x) - x) <= Abs(k as real / MILLION - x)
    ensures Abs(RoundHours(x) - x) == Abs(k as real / MILLION - x) ==> Abs(k as real / MILLION) <= Abs(RoundHours(x))
  {
    var y := x * MILLION;
    var n := RoundInt(y);
    RoundIntNear(y);
    assert n as real / MILLION - x == (n as real - y) / MILLION;
    assert k as real / MILLION - x == (k as real - y) / MILLION;
    NearestInt(y, k);
    DivAbs(n as real - y);
    DivAbs(k as real - y);
    DivAbs(n as real);
    DivAbs(k as real);
  }

  lemma NearestInt(y: real, k: int)
    ensures Abs(RoundInt(y) as real - y) <= Abs(k as real - y)
    ensures Abs(RoundInt(y) as real - y) == Abs(k as real - y) ==> Abs(k as real) <= Abs(RoundInt(y) as real)
  {
    var n := RoundInt(y);
    RoundIntNear(y);
    if k > n {
      assert k as real >= n as real + 1.0;
    } else if k < n {
      assert k as real <= n as real - 1.0;
    }
  }

  lemma DivAbs(a: real)
    ensures Abs(a / MILLION) == Abs(a) / MILLION
  {
  }

  lemma RoundNear(m: Rounding, x: real)
    ensures -Delta(m) <= Round(m, x) - x <= Delta(m)
    ensures x >= 0.0 ==> Round(m, x) >= 0.0
  {
    if m.Millionth? {
      RoundIntNear(x * MILLION);
      assert RoundHours(x) - x == (RoundInt(x * MILLION) as real - x * MILLION) / MILLION;
    }
  }

  lemma RoundSign(x: real)
    ensures RoundHours(x) >= 0.0 <==> x > -Delta(Millionth)
  {
    var y := x * MILLION;
    assert RoundInt(y) >= 0 <==> y > -0.5;
    assert y > -0.5 <==> x > -0.5 / MILLION;
  }

  /** What is rounded and still positive is more than one rounding error. */
  lemma RoundPositive(m: Rounding, x: real)
    requires Round(m, x) > 0.0
    ensures Round(m, x) > Delta(m)
  {
    if m.Millionth? {
      assert RoundInt(x * MILLION) >= 1;
    }
  }

  lemma RoundMonotone(m: Rounding, x: real, y: real)
    requires x <= y
    ensures Round(m, x) <= Round(m, y)
  {
    if m.Millionth? {
      assert x * MILLION <= y * MILLION;
      assert RoundInt(x * MILLION) <= RoundInt(y * MILLION);
    }
  }
}
