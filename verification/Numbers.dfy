// Quotients and remainders, one multiplication at a time.
module Numbers {
  lemma Multiples(d: int, m: int)
    requires m > 0
    ensures d >= 1 ==> d * m >= m
    ensures d <= -1 ==> d * m <= -m
    ensures d == 0 <==> d * m == 0
  {
    if d >= 1 {
      assert d * m == (d - 1) * m + m && (d - 1) * m >= 0;
    } else if d <= -1 {
      assert d * m == -((-d) * m) && (-d) * m == (-d - 1) * m + m && (-d - 1) * m >= 0;
    }
  }

  lemma Distributes(a: int, b: int, m: int)
    ensures (a + b) * m == a * m + b * m
  {
  }

  lemma Splits(n: nat, m: nat)
    requires m > 0
    ensures n == (n / m) * m + n % m && n % m < m
  {
  }

  // A quotient and a remainder that fit are the quotient and the remainder.
  lemma Remainder(n: nat, m: nat, q: nat, r: nat)
    requires m > 0 && n == q * m + r && r < m
    ensures n % m == r && n / m == q
  {
    Splits(n, m);
    var p := n / m;
    Distributes(p - q, q, m);
    Multiples(p - q, m);
  }

  lemma Exact(q: nat, m: nat)
    requires m > 0
    ensures q * m % m == 0
  {
    Multiples(q, m);
    Remainder(q * m, m, q, 0);
  }

  lemma Associates(p: int, k: int, c: int)
    ensures p * (k * c) == (p * k) * c
  {
  }

  lemma CoarserParts(x: nat, m: nat, k: nat, c: nat, p: nat, a: nat, b: nat)
    requires m == k * c && b < c && x == p * m + (a * c + b)
    ensures x % c == b
  {
    Associates(p, k, c);
    Distributes(p * k, a, c);
    Remainder(x, c, p * k + a, b);
  }

  // A remainder by a multiple m of c, by c.
  lemma Coarser(x: nat, m: nat, k: nat, c: nat)
    requires m > 0 && c > 0 && m == k * c
    ensures x % m % c == x % c
  {
    Splits(x, m);
    Splits(x % m, c);
    CoarserParts(x, m, k, c, x / m, x % m / c, x % m % c);
  }

  lemma SameRemainder(x: nat, y: nat, m: nat)
    requires m > 0 && x <= y
    ensures x % m == y % m <==> (y - x) % m == 0
  {
    Splits(x, m);
    Splits(y, m);
    Splits(y - x, m);
    if x % m == y % m {
      ApartByMultiple(x, y, m, x / m, y / m, x % m);
    }
    if (y - x) % m == 0 {
      FurtherByMultiple(x, y, m, x / m, (y - x) / m, x % m);
    }
  }

  lemma FurtherByMultiple(x: nat, y: nat, m: nat, p: nat, d: nat, r: nat)
    requires m > 0 && r < m && x == p * m + r && y == x + d * m
    ensures y % m == r
  {
    Distributes(p, d, m);
    Remainder(y, m, p + d, r);
  }

  lemma ApartByMultiple(x: nat, y: nat, m: nat, p: nat, q: nat, r: nat)
    requires m > 0 && x <= y && x == p * m + r && y == q * m + r
    ensures (y - x) % m == 0
  {
    Distributes(q - p, p, m);
    Multiples(q - p, m);
    Remainder(y - x, m, q - p, 0);
  }

  // A remainder goes on with the number, or starts again at zero.
  lemma NextRemainder(n: nat, m: nat)
    requires m > 0
    ensures (n + 1) % m == if n % m + 1 >= m then 0 else n % m + 1
  {
    Splits(n, m);
    var q, r := n / m, n % m;
    if r + 1 >= m {
      Distributes(q, 1, m);
      Remainder(n + 1, m, q + 1, 0);
    } else {
      Remainder(n + 1, m, q, r + 1);
    }
  }
}
