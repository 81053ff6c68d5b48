/** Numbers as byte strings with the lowest byte first. */
module LittleEndian {
  import opened Ledger

  function Pow256(k: nat): (p: nat)
    ensures p >= 1
  {
    if k == 0 then 1 else 256 * Pow256(k - 1)
  }

  lemma PowValues()
    ensures Pow256(1) == 0x100 && Pow256(2) == 0x1_0000
    ensures Pow256(4) == 0x1_0000_0000 && Pow256(8) == 0x1_0000_0000_0000_0000
  {
    assert Pow256(3) == 0x100_0000;
    assert Pow256(5) == 256 * Pow256(4) && Pow256(6) == 256 * Pow256(5);
    assert Pow256(7) == 256 * Pow256(6) && Pow256(8) == 256 * Pow256(7);
  }

  lemma {:induction false} PowAdds(m: nat, n: nat)
    ensures Pow256(m + n) == Pow256(m) * Pow256(n)
  {
    if m > 0 { PowAdds(m - 1, n); }
  }

  lemma Multiple(d: nat, e: int)
    ensures e >= 1 ==> d * e >= d
    ensures e <= -1 ==> d * e <= 0 - d
  {
  }

  /** A quotient is fixed by its remainder's range. */
  lemma QuotientIs(n: nat, d: nat, q: nat, r: nat)
    requires n == d * q + r && r < d
    ensures n / d == q && n % d == r
  {
    var e := n / d - q;
    assert n == d * (n / d) + n % d;
    assert d * e == d * (n / d) - d * q;
    Multiple(d, e);
  }

  /** Dividing twice is dividing by the product. */
  lemma DivideTwice(n: nat, a: nat, b: nat)
    requires a >= 1 && b >= 1
    ensures a * b >= 1 && n / a / b == n / (a * b)
  {
    var x, y := n / a, n % a;
    var q, r := x / b, x % b;
    Regroup(n, a, b, q, r, y);
    QuotientIs(n, a * b, q, a * r + y);
  }

  lemma Regroup(n: nat, a: nat, b: nat, q: nat, r: nat, y: nat)
    requires n == a * (b * q + r) + y && y < a && r < b
    ensures n == a * b * q + (a * r + y) && a * r + y < a * b
  {
    assert a * (b * q + r) == a * (b * q) + a * r;
    assert a * (b * q) == a * b * q;
    assert a * (b - r) >= a by { Multiple(a, b - r); }
    assert a * (b - r) == a * b - a * r;
  }

  /** Reads any number of bytes, lowest first. */
  function FromLe(s: Bytes): nat {
    if s == [] then 0 else s[0] as nat + 256 * FromLe(s[1..])
  }
}
