/** What the bitwise operators and shifts of `BitOps` compute, bit by bit. */
module Bits {
  import opened BitOps

  /** Bit `i` of `v`, the lowest being bit 0. */
  predicate Bit(v: nat, i: nat)
    decreases i
  {
    if i == 0 then v % 2 == 1 else Bit(v / 2, i - 1)
  }

  lemma {:induction false} ZeroHasNoBits(i: nat)
    ensures !Bit(0, i)
  {
    if i > 0 {
      ZeroHasNoBits(i - 1);
    }
  }

  /** A number is its bits. */
  lemma {:induction false} BitsDetermine(a: nat, b: nat)
    requires forall i: nat :: Bit(a, i) <==> Bit(b, i)
    ensures a == b
    decreases a + b
  {
    assert Bit(a, 0) <==> Bit(b, 0);
    if a + b > 0 {
      forall i: nat
        ensures Bit(a / 2, i) <==> Bit(b / 2, i)
      {
        assert Bit(a, i + 1) <==> Bit(b, i + 1);
      }
      BitsDetermine(a / 2, b / 2);
    }
  }

  lemma {:induction false} NonzeroHasABit(v: nat) returns (i: nat)
    requires v != 0
    ensures Bit(v, i)
  {
    if v % 2 == 1 {
      i := 0;
    } else {
      i := NonzeroHasABit(v / 2);
      i := i + 1;
    }
  }

  lemma {:induction false} BitOfAnd(a: nat, b: nat, i: nat)
    ensures Bit(BitAnd(a, b), i) <==> Bit(a, i) && Bit(b, i)
    decreases i
  {
    if a == 0 || b == 0 {
      ZeroHasNoBits(i);
    } else if i > 0 {
      BitOfAnd(a / 2, b / 2, i - 1);
    }
  }

  lemma {:induction false} BitOfOr(a: nat, b: nat, i: nat)
    ensures Bit(BitOr(a, b), i) <==> Bit(a, i) || Bit(b, i)
    decreases i
  {
    if a == 0 || b == 0 {
      ZeroHasNoBits(i);
    } else if i > 0 {
      BitOfOr(a / 2, b / 2, i - 1);
    }
  }

  lemma {:induction false} BitOfXor(a: nat, b: nat, i: nat)
    ensures Bit(BitXor(a, b), i) <==> Bit(a, i) != Bit(b, i)
    decreases i
  {
    if a == 0 || b == 0 {
      ZeroHasNoBits(i);
    } else if i > 0 {
      BitOfXor(a / 2, b / 2, i - 1);
    }
  }

  ghost predicate CommonBit(a: nat, b: nat) {
    exists i: nat :: Bit(a, i) && Bit(b, i)
  }

  lemma AndIsNonzero(a: nat, b: nat)
    ensures BitAnd(a, b) != 0 <==> CommonBit(a, b)
  {
    if BitAnd(a, b) != 0 {
      var i := NonzeroHasABit(BitAnd(a, b));
      BitOfAnd(a, b, i);
    }
    if i: nat :| Bit(a, i) && Bit(b, i) {
      BitOfAnd(a, b, i);
      ZeroHasNoBits(i);
    }
  }

  lemma {:induction false} BitOfProduct(v: nat, n: nat, i: nat)
    ensures Bit(v * Pow2(n), i) <==> n <= i && Bit(v, i - n)
    decreases n
  {
    if n > 0 {
      var half := v * Pow2(n - 1);
      assert v * Pow2(n) == 2 * half;
      if i > 0 {
        BitOfProduct(v, n - 1, i - 1);
      }
    }
  }

  lemma {:induction false} BitOfRemainder(v: nat, n: nat, i: nat)
    ensures Bit(v % Pow2(n), i) <==> i < n && Bit(v, i)
    decreases n
  {
    if n == 0 {
      ZeroHasNoBits(i);
    } else {
      RemainderHalved(v, Pow2(n - 1));
      if i > 0 {
        BitOfRemainder(v / 2, n - 1, i - 1);
      }
    }
  }

  lemma RemainderHalved(a: nat, half: nat)
    requires half > 0
    ensures (a % (2 * half)) / 2 == (a / 2) % half && (a % (2 * half)) % 2 == a % 2
  {
    HalveRemainder(a, half);
  }

  lemma {:induction false} BitOfQuotient(v: nat, n: nat, i: nat)
    ensures v / Pow2(n) >= 0 && (Bit(v / Pow2(n), i) <==> Bit(v, i + n))
    decreases n
  {
    if n > 0 {
      HalveQuotient(v, Pow2(n - 1));
      BitOfQuotient(v / 2, n - 1, i);
    }
  }

  lemma HalveQuotient(a: nat, half: nat)
    requires half > 0
    ensures a / (2 * half) == (a / 2) / half
  {
    var q, r := (a / 2) / half, (a / 2) % half;
    assert a / 2 == q * half + r;
    assert 2 * (q * half) == q * (2 * half);
    RemainderIs(a, 2 * half, q, 2 * r + a % 2);
  }

  /** A left shift within 32 bits. */
  lemma BitOfShiftLeft(v: nat, n: nat, i: nat)
    ensures Bit((v * Pow2(n)) % TWO32, i) <==> n <= i < 32 && Bit(v, i - n)
  {
    Pow2Of32();
    BitOfRemainder(v * Pow2(n), 32, i);
    BitOfProduct(v, n, i);
  }
}
