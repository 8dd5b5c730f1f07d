/** Bitwise operators on natural numbers, defined bit by bit, and the laws that
    let shift-and-or code be read as arithmetic. */
module BitOps {
  const TWO32: nat := 0x1_0000_0000

  type U8 = x: int | 0 <= x < 256
  type U32 = x: int | 0 <= x < 0x1_0000_0000

  function Pow2(n: nat): (p: nat)
    ensures p > 0
  {
    if n == 0 then 1 else 2 * Pow2(n - 1)
  }

  function BitAnd(a: nat, b: nat): (r: nat)
    ensures r <= a
  {
    if a == 0 || b == 0 then 0
    else (if a % 2 == 1 && b % 2 == 1 then 1 else 0) + 2 * BitAnd(a / 2, b / 2)
  }

  function BitOr(a: nat, b: nat): (r: nat)
  {
    if a == 0 then b else if b == 0 then a
    else (if a % 2 == 1 || b % 2 == 1 then 1 else 0) + 2 * BitOr(a / 2, b / 2)
  }

  function BitXor(a: nat, b: nat): (r: nat)
  {
    if a == 0 then b else if b == 0 then a
    else (if a % 2 != b % 2 then 1 else 0) + 2 * BitXor(a / 2, b / 2)
  }

  lemma Associate(x: int, y: int)
    ensures 2 * (x * y) == (2 * x) * y
  {
  }

  lemma {:induction false} Pow2Add(m: nat, n: nat)
    ensures Pow2(m + n) == Pow2(m) * Pow2(n)
  {
    if m > 0 {
      Pow2Add(m - 1, n);
      Associate(Pow2(m - 1), Pow2(n));
    }
  }

  lemma Pow2Of32()
    ensures Pow2(32) == TWO32
  {
    assert Pow2(8) == 256;
    Pow2Add(8, 8);
    Pow2Add(16, 16);
  }

  /** An n-bit bound is kept by `|` and `^`. */
  lemma {:induction false} OrXorBound(a: nat, b: nat, n: nat)
    requires a < Pow2(n) && b < Pow2(n)
    ensures BitOr(a, b) < Pow2(n) && BitXor(a, b) < Pow2(n)
  {
    if a != 0 && b != 0 {
      OrXorBound(a / 2, b / 2, n - 1);
    }
  }

  /** Or-ing into cleared low bits is addition. */
  lemma {:induction false} OrDisjoint(h: nat, l: nat, n: nat)
    requires l < Pow2(n)
    ensures BitOr(h * Pow2(n), l) == h * Pow2(n) + l
  {
    if n > 0 && h != 0 && l != 0 {
      assert h * Pow2(n) == 2 * (h * Pow2(n - 1));
      OrDisjoint(h, l / 2, n - 1);
    }
  }

  /** Masking with n ones is the remainder modulo 2^n. */
  lemma {:induction false} AndMask(a: nat, n: nat)
    ensures BitAnd(a, Pow2(n) - 1) == a % Pow2(n)
  {
    if n > 0 {
      AndMask(a / 2, n - 1);
      HalveRemainder(a, Pow2(n - 1));
      AndHalves(a, Pow2(n - 1));
    }
  }

  lemma AndHalves(a: nat, half: nat)
    requires half > 0
    ensures BitAnd(a, 2 * half - 1) == 2 * BitAnd(a / 2, half - 1) + a % 2
  {
    assert (2 * half - 1) / 2 == half - 1 && (2 * half - 1) % 2 == 1;
  }

  lemma HalveRemainder(a: nat, half: nat)
    requires half > 0
    ensures a % (2 * half) == 2 * ((a / 2) % half) + a % 2
  {
    var q, r := (a / 2) / half, (a / 2) % half;
    assert a / 2 == q * half + r;
    assert 2 * (q * half) == q * (2 * half);
    RemainderIs(a, 2 * half, q, 2 * r + a % 2);
  }

  lemma Distribute(x: int, y: int, d: int)
    ensures (x - y) * d == x * d - y * d
  {
  }

  lemma TimesPositive(x: nat, d: nat)
    requires x >= 1
    ensures x * d >= d
  {
    Distribute(x, 1, d);
  }

  /** Quotient and remainder are unique. */
  lemma RemainderIs(a: nat, d: nat, q: nat, r: nat)
    requires d > 0 && r < d && a == q * d + r
    ensures a % d == r && a / d == q
  {
    var q', r' := a / d, a % d;
    assert a == q' * d + r';
    Distribute(q', q, d);
    Distribute(q, q', d);
    if q < q' {
      TimesPositive(q' - q, d);
    } else if q' < q {
      TimesPositive(q - q', d);
    }
  }

  function And32(a: U32, b: U32): U32 { BitAnd(a, b) }

  function Or32(a: U32, b: U32): U32 {
    Pow2Of32();
    OrXorBound(a, b, 32);
    BitOr(a, b)
  }

  function Xor32(a: U32, b: U32): U32 {
    Pow2Of32();
    OrXorBound(a, b, 32);
    BitXor(a, b)
  }

  /** A left shift that drops the bits leaving the top of the register. */
  function Shl32(a: U32, n: nat): U32
    requires n < 32
  {
    (a * Pow2(n)) % TWO32
  }

  function Shr32(a: U32, n: nat): (r: U32)
    requires n < 32
  {
    ShrShrinks(a, Pow2(n));
    a / Pow2(n)
  }

  lemma ShrShrinks(a: nat, d: nat)
    requires d > 0
    ensures 0 <= a / d <= a
  {
    var q, r := a / d, a % d;
    assert a == q * d + r;
    if d > 1 && q > 0 {
      TimesPositive(d, q);
    }
  }

  lemma Regroup(a: int, b: int, c: int)
    ensures a * (b * c) == (a * c) * b
  {
  }

  lemma MultipleVanishes(a: nat, p: nat, rest: nat)
    requires p == TWO32 * rest
    ensures (a * p) % TWO32 == 0
  {
    Regroup(a, TWO32, rest);
    RemainderIs(a * p, TWO32, a * rest, 0);
  }

  /** Shifting a 32-bit register by 32 or more leaves nothing. */
  lemma ShiftedOut(a: U32, n: nat)
    requires n >= 32
    ensures (a * Pow2(n)) % TWO32 == 0 && a / Pow2(n) == 0
  {
    var rest := Pow2(n - 32);
    Pow2Add(32, n - 32);
    Pow2Of32();
    MultipleVanishes(a, Pow2(n), rest);
    TimesPositive(rest, TWO32);
    RemainderIs(a, Pow2(n), 0, a);
  }
}
