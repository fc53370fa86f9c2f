/** IPv4 prefixes as netip compares them - leading bits - and as an operator reads them:
    intervals of addresses. */
module Subnets {
  type Addr = nat

  function Pow2(n: nat): (r: nat)
    ensures r > 0
  {
    if n == 0 then 1 else 2 * Pow2(n - 1)
  }

  datatype Prefix = Prefix(addr: Addr, bits: nat)

  predicate Wellformed(p: Prefix) { p.bits <= 32 && p.addr < Pow2(32) }

  /** How many addresses share the prefix's leading bits. */
  function Block(p: Prefix): (b: nat)
    requires Wellformed(p)
    ensures b > 0
  {
    Pow2(32 - p.bits)
  }

  /** p == p.Masked(): no host bit set. */
  predicate Masked(p: Prefix)
    requires Wellformed(p)
  {
    p.addr % Block(p) == 0
  }

  /** netip.Prefix.Contains: the same leading bits. */
  predicate Contains(p: Prefix, a: Addr)
    requires Wellformed(p)
  {
    a / Block(p) == p.addr / Block(p)
  }

  /** netip.Prefix.Overlaps: the same bits, as far as the shorter prefix goes. */
  predicate Overlaps(p: Prefix, q: Prefix)
    requires Wellformed(p) && Wellformed(q)
  {
    var b := Pow2(32 - if p.bits < q.bits then p.bits else q.bits);
    p.addr / b == q.addr / b
  }

  function RoundDown(a: nat, b: nat): (r: nat)
    requires b > 0
    ensures r <= a
  {
    a - a % b
  }

  function First(p: Prefix): nat
    requires Wellformed(p)
  {
    RoundDown(p.addr, Block(p))
  }

  function Last(p: Prefix): nat
    requires Wellformed(p)
  {
    First(p) + Block(p) - 1
  }

  // -------------------------------------------------------------- arithmetic

  lemma DivInterval(a: nat, k: nat, b: nat)
    requires b > 0
    ensures a / b == k <==> k * b <= a < k * b + b
  {
    assert a == b * (a / b) + a % b;
    if a / b < k {
      Product(a / b + 1, k, b);
    } else if a / b > k {
      Product(k + 1, a / b, b);
    }
  }

  lemma Product(x: nat, y: nat, b: nat)
    requires x <= y
    ensures x * b <= y * b
  {
  }

  lemma DivUnique(a: nat, b: nat, q: nat, r: nat)
    requires b > 0 && r < b && a == q * b + r
    ensures a / b == q && a % b == r
  {
    DivInterval(a, q, b);
    assert a == b * (a / b) + a % b;
  }

  lemma DivDiv(a: nat, b: nat, d: nat)
    requires b > 0 && d > 0
    ensures b * d > 0 && a / (b * d) == a / b / d
  {
    var q := a / b;
    var k := q / d;
    DivInterval(q, k, d);
    assert a == b * q + a % b;
    var c := b * d;
    assert k * c == (k * d) * b;
    Product(k * d, q, b);
    Product(q + 1, k * d + d, b);
    assert (k * d + d) * b == k * c + c;
    DivInterval(a, k, c);
  }

  lemma {:induction false} PowSum(m: nat, n: nat)
    ensures Pow2(m + n) == Pow2(m) * Pow2(n)
  {
    if m > 0 {
      PowSum(m - 1, n);
    }
  }

  lemma RoundsDown(a: nat, b: nat)
    requires b > 0
    ensures RoundDown(a, b) == (a / b) * b && RoundDown(a, b) % b == 0
  {
    assert a == b * (a / b) + a % b;
    DivUnique(a - a % b, b, a / b, 0);
  }

  // --------------------------------------------------------------- intervals

  /** A prefix is exactly the addresses from its network to its broadcast address. */
  lemma ContainsIsInterval(p: Prefix, a: Addr)
    requires Wellformed(p)
    ensures Contains(p, a) <==> First(p) <= a <= Last(p)
  {
    hide RoundDown, Pow2;
    RoundsDown(p.addr, Block(p));
    DivInterval(a, p.addr / Block(p), Block(p));
  }

  lemma SharedBits(p: Prefix, q: Prefix, a: Addr)
    requires Wellformed(p) && Wellformed(q) && p.bits <= q.bits && Contains(p, a) && Contains(q, a)
    ensures Overlaps(p, q)
  {
    var b, d := Block(q), Pow2(q.bits - p.bits);
    PowSum(32 - q.bits, q.bits - p.bits);
    assert Block(p) == b * d;
    DivDiv(a, b, d);
    DivDiv(q.addr, b, d);
  }

  /** Overlap is interval intersection: some address lies in both. */
  lemma OverlapsIffShare(p: Prefix, q: Prefix)
    requires Wellformed(p) && Wellformed(q)
    ensures Overlaps(p, q) <==> exists a :: Contains(p, a) && Contains(q, a)
  {
    if Overlaps(p, q) {
      var a := if p.bits <= q.bits then q.addr else p.addr;
      assert Contains(p, a) && Contains(q, a);
    }
    if a :| Contains(p, a) && Contains(q, a) {
      if p.bits <= q.bits {
        SharedBits(p, q, a);
      } else {
        SharedBits(q, p, a);
      }
    }
  }

  // ---------------------------------------------------------------- lastAddr

  /** Bitwise or. */
  function Or(x: nat, y: nat): nat {
    if x == 0 && y == 0 then 0
    else (if x % 2 == 1 || y % 2 == 1 then 1 else 0) + 2 * Or(x / 2, y / 2)
  }

  lemma {:induction false} OrZero(x: nat)
    ensures Or(x, 0) == x && Or(0, x) == x
  {
    if x > 0 {
      OrZero(x / 2);
    }
  }

  /** Where the bits do not meet, or is plus. */
  lemma {:induction false} OrIsSum(x: nat, y: nat, k: nat)
    requires x % Pow2(k) == 0 && y < Pow2(k)
    ensures Or(x, y) == x + y
    decreases k
  {
    if k == 0 {
      OrZero(x);
    } else {
      var b := Pow2(k - 1);
      var q := x / (2 * b);
      assert x == 2 * b * q + x % (2 * b);
      assert x == 2 * (b * q);
      DivUnique(b * q, b, q, 0) by { assert b * q == q * b; }
      OrIsSum(x / 2, y / 2, k - 1);
    }
  }

  function FromBytes(a: seq<nat>): nat {
    if a == [] then 0 else FromBytes(a[..|a| - 1]) * 256 + a[|a| - 1]
  }

  /** As4: the n bytes of an address, most significant first. */
  function Bytes(x: nat, n: nat): (a: seq<nat>)
    ensures |a| == n
  {
    if n == 0 then [] else Bytes(x / 256, n - 1) + [x % 256]
  }

  /** The bytes with the bytes of h or'ed in. */
  function OrAll(a: seq<nat>, h: nat): (r: seq<nat>)
    ensures |r| == |a|
  {
    if a == [] then [] else OrAll(a[..|a| - 1], h / 256) + [Or(a[|a| - 1], h % 256)]
  }

  lemma Divisible(x: nat, c: nat, d: nat)
    requires c > 0 && d > 0 && x % (c * d) == 0
    ensures x % c == 0 && (x / c) % d == 0
  {
    var e := c * d;
    var q := x / e;
    assert x == e * q + x % e;
    assert x == (d * q) * c;
    DivUnique(x, c, d * q, 0);
    DivUnique(d * q, d, q, 0) by { assert d * q == q * d; }
  }

  lemma OneByteMore(k: nat)
    requires k >= 8
    ensures Pow2(k) == 256 * Pow2(k - 8)
    ensures (Pow2(k) - 1) / 256 == Pow2(k - 8) - 1 && (Pow2(k) - 1) % 256 == 255
  {
    PowSum(8, k - 8);
    assert Pow2(8) == 256 by { PowSum(4, 4); }
    DivUnique(Pow2(k) - 1, 256, Pow2(k - 8) - 1, 255);
  }

  lemma ModMod(x: nat, b: nat, d: nat)
    requires b > 0 && d > 0 && b * d > 0 && x % b == 0
    ensures (x % (b * d)) % b == 0
  {
    var e := b * d;
    var m, q, r := x / b, x / e, x % e;
    assert x == b * m + x % b && x == e * q + r;
    var j := m - d * q;
    assert r == b * j by { assert e * q == b * (d * q); }
    NonNegative(b, j);
    DivUnique(r, b, j, 0);
  }

  lemma NonNegative(b: nat, j: int)
    requires b > 0 && b * j >= 0
    ensures j >= 0
  {
  }

  lemma SmallHost(x: nat, k: nat)
    requires k < 8 && x % Pow2(k) == 0
    ensures Pow2(k) - 1 < 256 && (x % 256) % Pow2(k) == 0
  {
    PowSum(k, 8 - k);
    assert Pow2(8) == 256 by { PowSum(4, 4); }
    Product(1, Pow2(8 - k), Pow2(k));
    ModMod(x, Pow2(k), Pow2(8 - k));
  }

  lemma {:induction false} LastByte(x: nat, n: nat, h: nat)
    requires n > 0
    ensures FromBytes(OrAll(Bytes(x, n), h)) ==
            FromBytes(OrAll(Bytes(x / 256, n - 1), h / 256)) * 256 + Or(x % 256, h % 256)
  {
    var rest := Bytes(x / 256, n - 1);
    assert Bytes(x, n)[..n - 1] == rest;
    var out := OrAll(Bytes(x, n), h);
    assert out[..n - 1] == OrAll(rest, h / 256);
  }

  /** Filling the host bits of a masked address byte by byte adds the host part. */
  lemma {:induction false} FillsHost(x: nat, n: nat, k: nat)
    requires x < Pow2(8 * n) && x % Pow2(k) == 0 && k <= 8 * n
    ensures FromBytes(OrAll(Bytes(x, n), Pow2(k) - 1)) == x + Pow2(k) - 1
    decreases n, 1
  {
    if n > 0 {
      ShortAddress(x, n);
      if k >= 8 {
        FillsByte(x, n, k);
      } else {
        FillsPart(x, n, k);
      }
    }
  }

  lemma {:induction false} FillsByte(x: nat, n: nat, k: nat)
    requires n > 0 && x / 256 < Pow2(8 * (n - 1)) && x % Pow2(k) == 0 && 8 <= k <= 8 * n
    ensures FromBytes(OrAll(Bytes(x, n), Pow2(k) - 1)) == x + Pow2(k) - 1
    decreases n, 0
  {
    OneByteMore(k);
    Divisible(x, 256, Pow2(k - 8));
    FillsHost(x / 256, n - 1, k - 8);
    hide *;
    LastByte(x, n, Pow2(k) - 1);
    OrZero(255);
  }

  lemma {:induction false} AddsLastByte(x: nat, n: nat, h: nat)
    requires n > 0 && h < 256 && Or(x % 256, h) == x % 256 + h
    requires FromBytes(OrAll(Bytes(x / 256, n - 1), 0)) == x / 256
    ensures FromBytes(OrAll(Bytes(x, n), h)) == x + h
  {
    hide *;
    LastByte(x, n, h);
  }

  lemma {:induction false} NoHost(x: nat, n: nat)
    requires x < Pow2(8 * n)
    ensures FromBytes(OrAll(Bytes(x, n), 0)) == x
    decreases n, 2
  {
    assert Pow2(0) == 1;
    FillsHost(x, n, 0);
  }

  lemma {:induction false} FillsPart(x: nat, n: nat, k: nat)
    requires n > 0 && x / 256 < Pow2(8 * (n - 1)) && x % Pow2(k) == 0 && k < 8
    ensures FromBytes(OrAll(Bytes(x, n), Pow2(k) - 1)) == x + Pow2(k) - 1
    decreases n, 0
  {
    hide *;
    NoHost(x / 256, n - 1);
    SmallHost(x, k);
    OrIsSum(x % 256, Pow2(k) - 1, k);
    AddsLastByte(x, n, Pow2(k) - 1);
  }

  lemma ShortAddress(x: nat, n: nat)
    requires n > 0 && x < Pow2(8 * n)
    ensures x / 256 < Pow2(8 * (n - 1))
  {
    PowSum(8, 8 * (n - 1));
    assert Pow2(8) == 256 by { PowSum(4, 4); }
  }

  /** lastAddr, on its four bytes: the largest address of the prefix. */
  method LastAddr(p: Prefix) returns (r: Addr)
    requires Wellformed(p)
    ensures r == Last(p)
  {
    var start := Bytes(First(p), 4);
    var a := new nat[4](i requires 0 <= i < 4 => start[i]);
    assert a[..] == start;
    var host: nat := Pow2(32 - p.bits) - 1;
    FillAll(a, start, host);
    r := FromBytes(a[..]);
    MaskedFirst(p);
    FillsHost(First(p), 4, 32 - p.bits);
  }

  method FillAll(a: array<nat>, ghost start: seq<nat>, h: nat)
    requires a[..] == start
    modifies a
    ensures a[..] == OrAll(start, h)
  {
    hide Or;
    var host, i := h, a.Length;
    assert a[..i] == start;
    while i > 0
      invariant 0 <= i <= a.Length
      invariant OrAll(a[..i], host) + a[i..] == OrAll(start, h)
    {
      i := i - 1;
      ghost var before := a[..i + 1];
      assert before[..i] == a[..i];
      ghost var tail := a[i + 1..];
      ghost var rest := OrAll(before[..i], host / 256);
      assert OrAll(before, host) == rest + [Or(before[i], host % 256)];
      a[i] := Or(a[i], host % 256);
      assert a[..i] == before[..i];
      assert rest + a[i..] == rest + [a[i]] + tail;
      host := host / 256;
    }
    assert a[..0] == [] && a[0..] == a[..];
  }

  lemma MaskedFirst(p: Prefix)
    requires Wellformed(p)
    ensures First(p) % Block(p) == 0 && First(p) < Pow2(32)
  {
    hide RoundDown, Pow2;
    RoundsDown(p.addr, Block(p));
  }
}
