// Facts about multiplication and division that the solver needs in small steps.
module Arith {

  lemma MulBound(d: int, m: nat)
    ensures d >= 1 ==> d * m >= m
    ensures d <= -1 ==> d * m <= -(m as int)
  {
  }

  lemma MulMono(x: nat, y: nat, m: nat)
    requires x <= y
    ensures x * m <= y * m
  {
  }

  lemma MulCancel(x: int, y: int, m: nat)
    requires m > 0
    ensures x * m == y * m <==> x == y
  {
    assert (x - y) * m == x * m - y * m;
    MulBound(x - y, m);
  }

  lemma LessCancel(q: nat, n: nat, m: nat)
    requires q * m < n * m
    ensures q < n
  {
    assert (q - n) * m == q * m - n * m;
    MulBound(q - n, m);
  }

  lemma DivMod(a: nat, m: nat)
    requires m > 0
    ensures a == (a / m) * m + a % m && a % m < m
  {
  }

  // Quotient and remainder are determined by the division equation.
  lemma DivUnique(a: nat, m: nat, q: nat, r: nat)
    requires m > 0 && a == q * m + r && r < m
    ensures a / m == q && a % m == r
  {
    DivMod(a, m);
    assert (a / m - q) * m == (a / m) * m - q * m;
    MulBound(a / m - q, m);
  }

  lemma Regroup(q: nat, c: nat, r: nat, b: nat)
    ensures (q * c + r) * b == q * (b * c) + r * b
  {
  }

  lemma RemainderBound(r2: nat, c: nat, r1: nat, b: nat)
    requires r2 < c && r1 < b
    ensures r2 * b + r1 < b * c
  {
    MulMono(r2, c - 1, b);
    assert (c - 1) * b == b * c - b;
  }

  // Dividing by a product is dividing twice.
  lemma DivDiv(a: nat, b: nat, c: nat)
    requires b > 0 && c > 0
    ensures b * c > 0 && a / (b * c) == (a / b) / c
  {
    DivMod(a, b);
    DivMod(a / b, c);
    MulMono(1, b, c);
    Regroup(a / b / c, c, (a / b) % c, b);
    RemainderBound((a / b) % c, c, a % b, b);
    DivUnique(a, b * c, a / b / c, ((a / b) % c) * b + a % b);
  }

  // The block of size m around a number below m * n lies below m * n.
  lemma BlockFits(a: nat, m: nat, n: nat)
    requires m > 0 && a < n * m
    ensures (a / m) * m + (m - 1) < n * m
  {
    DivMod(a, m);
    LessCancel(a / m, n, m);
    MulMono(a / m + 1, n, m);
    assert (a / m + 1) * m == (a / m) * m + m;
  }

  // First and last number of a block.
  lemma BlockEnds(q: nat, m: nat)
    requires m > 0
    ensures (q * m) / m == q && (q * m + (m - 1)) / m == q
  {
    DivUnique(q * m, m, q, 0);
    DivUnique(q * m + (m - 1), m, q, m - 1);
  }

  // The ends of a block of two or more smaller blocks lie in different smaller blocks.
  lemma BlockSplits(q: nat, small: nat, ratio: nat)
    requires small > 0 && ratio >= 2
    ensures (q * (small * ratio)) / small != (q * (small * ratio) + (small * ratio - 1)) / small
  {
    var low, high := q * ratio, q * ratio + (ratio - 1);
    assert q * (small * ratio) == low * small by {
      Regroup(q, ratio, 0, small);
    }
    assert (ratio - 1) * small == small * ratio - small;
    assert high * small == low * small + (ratio - 1) * small;
    BlockEnds(low, small);
    BlockEnds(high, small);
  }

  // Two numbers of one block that lie in different smaller blocks.
  lemma TwoBlocks(a: nat, big: nat, small: nat, ratio: nat, n: nat) returns (first: nat, last: nat)
    requires small > 0 && ratio >= 2 && big == small * ratio && big > 0 && a < n * big
    ensures first / big == a / big == last / big
    ensures first / small != last / small
    ensures first < n * big && last < n * big
  {
    var q := a / big;
    first, last := q * big, q * big + (big - 1);
    BlockEnds(q, big);
    BlockFits(a, big, n);
    BlockSplits(q, small, ratio);
  }
}
