/** What a holder of some of a node's accelerators may take of the node's other resources. */
module FairShares {
  datatype Share = Amount(amount: int) | NoneInstalled

  function FairShare(total: int, held: int, installed: int): Share {
    if installed <= 0 then NoneInstalled
    else if held <= 0 || total <= 0 then Amount(0)
    else Amount(total * held / installed)
  }

  function Positive(n: int): nat { if n > 0 then n else 0 }

  /** The one error, and otherwise the largest whole amount not above the exact share. */
  lemma LargestWithinExact(total: int, held: int, installed: int, other: int)
    ensures FairShare(total, held, installed) == NoneInstalled <==> installed <= 0
    ensures var share := FairShare(total, held, installed);
            share.Amount? ==>
              && 0 <= share.amount
              && (other <= share.amount <==> other * installed <= Positive(total) * Positive(held))
  {
    if installed > 0 {
      var product := Positive(total) * Positive(held);
      if held <= 0 || total <= 0 {
        assert product == 0;
        ZeroOver(installed);
      } else {
        assert product == total * held;
        PositiveProduct(total, held);
      }
      FloorIsLargest(product, installed, other);
    }
  }

  lemma PositiveProduct(a: int, b: int)
    requires a >= 0 && b >= 0
    ensures a * b >= 0
  {
  }

  lemma ZeroOver(n: int)
    requires n > 0
    ensures 0 / n == 0
  {
  }

  lemma FloorIsLargest(a: int, n: int, q: int)
    requires a >= 0 && n > 0
    ensures a / n >= 0 && (q <= a / n <==> q * n <= a)
  {
    var d := a / n;
    assert a == d * n + a % n;
    if q <= d {
      MultiplesOrdered(q, d, n);
    } else {
      MultiplesOrdered(d + 1, q, n);
      assert (d + 1) * n == d * n + n;
    }
  }

  lemma MultiplesOrdered(a: int, b: int, n: int)
    requires a <= b && n >= 0
    ensures a * n <= b * n
  {
    PositiveProduct(b - a, n);
    assert (b - a) * n == b * n - a * n;
  }

  /** The share as the sum of two parts' shares: splitting a holding never gains. */
  lemma Superadditive(total: int, a: int, b: int, installed: int)
    requires installed > 0 && a >= 0 && b >= 0
    ensures FairShare(total, a, installed).amount + FairShare(total, b, installed).amount <=
            FairShare(total, a + b, installed).amount
  {
    var x, y := FairShare(total, a, installed).amount, FairShare(total, b, installed).amount;
    LargestWithinExact(total, a, installed, x);
    LargestWithinExact(total, b, installed, y);
    LargestWithinExact(total, a + b, installed, x + y);
    Distributes(x, y, installed);
    Distributes(a, b, Positive(total));
  }

  lemma Distributes(x: int, y: int, n: int)
    ensures (x + y) * n == x * n + y * n && n * (x + y) == n * x + n * y
  {
  }

  /** A larger node or a larger holding never earns less, more accelerators installed never more. */
  lemma Monotone(total: int, held: int, installed: int, total': int, held': int, installed': int)
    requires 0 < installed' <= installed && total <= total' && held <= held'
    ensures FairShare(total, held, installed).amount <= FairShare(total', held', installed').amount
  {
    var x := FairShare(total, held, installed).amount;
    LargestWithinExact(total, held, installed, x);
    LargestWithinExact(total', held', installed', x);
    MultiplesOrdered(installed', installed, x);
    MultiplesOrdered(Positive(total), Positive(total'), Positive(held));
    MultiplesOrdered(Positive(held), Positive(held'), Positive(total'));
    Commutes(x, installed);
    Commutes(x, installed');
    Commutes(Positive(held), Positive(total'));
    Commutes(Positive(held'), Positive(total'));
  }

  lemma Commutes(a: int, b: int)
    ensures a * b == b * a
  {
  }

  /** Multiplying first never gives less than flooring one accelerator's share first. */
  lemma AtLeastTwiceFloored(total: nat, held: nat, installed: int)
    requires installed > 0
    ensures (total / installed) * held <= FairShare(total, held, installed).amount
  {
    var one := total / installed;
    FloorIsLargest(total, installed, one);
    MultiplesOrdered(one * installed, total, held);
    LargestWithinExact(total, held, installed, one * held);
    Rearranged(one, held, installed);
  }

  lemma Rearranged(a: int, b: int, c: int)
    ensures (a * b) * c == (a * c) * b
  {
    Commutes(b, c);
  }

  function Total(held: seq<nat>): nat {
    if |held| == 0 then 0 else Total(held[..|held| - 1]) + held[|held| - 1]
  }

  function SharesOf(total: int, held: seq<nat>, installed: int): int
    requires installed > 0
  {
    if |held| == 0 then 0
    else SharesOf(total, held[..|held| - 1], installed) + FairShare(total, held[|held| - 1], installed).amount
  }

  lemma {:induction false} SharesWithinOne(total: int, held: seq<nat>, installed: int)
    requires installed > 0
    ensures SharesOf(total, held, installed) <= FairShare(total, Total(held), installed).amount
  {
    if |held| > 0 {
      SharesWithinOne(total, held[..|held| - 1], installed);
      Superadditive(total, Total(held[..|held| - 1]), held[|held| - 1], installed);
    }
  }

  /** The fair shares of everyone on a node, who hold no more accelerators than it has, are within
      what the node has; and whoever holds them all is entitled to all of it. */
  lemma SharesWithinNode(total: int, held: seq<nat>, installed: int)
    requires installed > 0 && Total(held) <= installed
    ensures SharesOf(total, held, installed) <= Positive(total)
    ensures FairShare(total, installed, installed) == Amount(Positive(total))
  {
    var all := FairShare(total, installed, installed).amount;
    SharesWithinOne(total, held, installed);
    Monotone(total, Total(held), installed, total, installed, installed);
    LargestWithinExact(total, installed, installed, Positive(total));
    LargestWithinExact(total, installed, installed, Positive(total) + 1);
    Distributes(Positive(total), 1, installed);
  }
}
