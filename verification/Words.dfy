/** Machine words as bit vectors, lowest bit first, and bitmaps made of them. */
module Words {
  /** `usize::BITS`. */
  const BITS: nat := 64

  type Word = w: seq<bool> | |w| == BITS witness seq(BITS, _ => false)

  const ZERO: Word := seq(BITS, _ => false)
  const ONE: Word := seq(BITS, i => i == 0)

  function Or(a: Word, b: Word): Word { seq(BITS, i requires 0 <= i < BITS => a[i] || b[i]) }
  function And(a: Word, b: Word): Word { seq(BITS, i requires 0 <= i < BITS => a[i] && b[i]) }
  function Not(a: Word): Word { seq(BITS, i requires 0 <= i < BITS => !a[i]) }

  function Shr(a: Word, n: nat): Word
    requires n < BITS
  {
    seq(BITS, i requires 0 <= i < BITS => i + n < BITS && a[i + n])
  }

  function Shl(a: Word, n: nat): Word
    requires n < BITS
  {
    seq(BITS, i requires 0 <= i < BITS => i >= n && a[i - n])
  }

  /** Number of clear bits below the lowest set one. */
  function TrailingZeros(a: Word): (n: nat)
    requires a != ZERO
    ensures n < BITS && a[n] && forall i :: 0 <= i < n ==> !a[i]
  {
    HasSetBit(a);
    LowestFrom(a, 0)
  }

  /** Number of clear bits above the highest set one. */
  function LeadingZeros(a: Word): (n: nat)
    requires a != ZERO
    ensures n < BITS && a[BITS - 1 - n] && forall i :: BITS - n <= i < BITS ==> !a[i]
  {
    HasSetBit(a);
    BITS - 1 - HighestTo(a, BITS - 1)
  }

  lemma AllClear(a: Word)
    requires forall i :: 0 <= i < BITS ==> !a[i]
    ensures a == ZERO
  {
  }

  lemma HasSetBit(a: Word)
    requires a != ZERO
    ensures exists i :: 0 <= i < BITS && a[i]
  {
    if !exists i :: 0 <= i < BITS && a[i] {
      AllClear(a);
    }
  }

  function LowestFrom(a: Word, lo: nat): (n: nat)
    requires exists i :: lo <= i < BITS && a[i]
    ensures lo <= n < BITS && a[n] && forall i :: lo <= i < n ==> !a[i]
    decreases BITS - lo
  {
    if a[lo] then lo else LowestFrom(a, lo + 1)
  }

  function HighestTo(a: Word, hi: nat): (n: nat)
    requires hi < BITS && exists i :: 0 <= i <= hi && a[i]
    ensures n <= hi && a[n] && forall i :: n < i <= hi ==> !a[i]
    decreases hi
  {
    if a[hi] then hi else HighestTo(a, hi - 1)
  }

  /** `(mask >> b) & 1 != 0` tests bit `b`. */
  lemma TestBit(mask: Word, b: nat)
    requires b < BITS
    ensures And(Shr(mask, b), ONE) != ZERO <==> mask[b]
  {
    var r := And(Shr(mask, b), ONE);
    assert r[0] == mask[b];
    if !mask[b] {
      assert r == ZERO;
    }
  }

  /** `mask | (1 << b)` sets bit `b` and no other. */
  lemma SetBit(mask: Word, b: nat)
    requires b < BITS
    ensures Or(mask, Shl(ONE, b)) == mask[b := true]
  {
  }

  /** `mask & !(1 << b)` clears bit `b` and no other. */
  lemma ClearBit(mask: Word, b: nat)
    requires b < BITS
    ensures And(mask, Not(Shl(ONE, b))) == mask[b := false]
  {
  }

  // Bitmaps: slot `i` is bit `BitOf(i)` of word `WordOf(i)`.

  function WordOf(i: nat): nat { i / BITS }
  function BitOf(i: nat): (b: nat) ensures b < BITS { i % BITS }
  function WordCount(capacity: nat): nat { (capacity + BITS - 1) / BITS }

  predicate Bit(bitmap: seq<Word>, i: nat)
    requires WordOf(i) < |bitmap|
  {
    bitmap[WordOf(i)][BitOf(i)]
  }

  /** The set bits in [lo, hi), ascending: the naive bit-by-bit scan. */
  function SetBits(bitmap: seq<Word>, lo: nat, hi: nat): (bits: seq<nat>)
    requires hi <= |bitmap| * BITS
    decreases hi - lo
  {
    if lo >= hi then []
    else (if Bit(bitmap, lo) then [lo] else []) + SetBits(bitmap, lo + 1, hi)
  }

  lemma {:induction false} SetBitsMembers(bitmap: seq<Word>, lo: nat, hi: nat)
    requires hi <= |bitmap| * BITS
    ensures forall i {:trigger i in SetBits(bitmap, lo, hi)} ::
              i in SetBits(bitmap, lo, hi) <==> lo <= i < hi && Bit(bitmap, i)
    decreases hi - lo
  {
    if lo < hi {
      SetBitsMembers(bitmap, lo + 1, hi);
    }
  }

  lemma {:induction false} SetBitsAscend(bitmap: seq<Word>, lo: nat, hi: nat)
    requires hi <= |bitmap| * BITS
    ensures forall a, b :: 0 <= a < b < |SetBits(bitmap, lo, hi)| ==>
              SetBits(bitmap, lo, hi)[a] < SetBits(bitmap, lo, hi)[b]
    decreases hi - lo
  {
    if lo < hi {
      SetBitsAscend(bitmap, lo + 1, hi);
      SetBitsMembers(bitmap, lo + 1, hi);
      var rest := SetBits(bitmap, lo + 1, hi);
      forall a | 0 <= a < |rest| ensures rest[a] > lo {
        assert rest[a] in rest;
      }
    }
  }

  lemma {:induction false} SetBitsSplit(bitmap: seq<Word>, lo: nat, mid: nat, hi: nat)
    requires lo <= mid <= hi <= |bitmap| * BITS
    ensures SetBits(bitmap, lo, hi) == SetBits(bitmap, lo, mid) + SetBits(bitmap, mid, hi)
    decreases mid - lo
  {
    if lo < mid {
      SetBitsSplit(bitmap, lo + 1, mid, hi);
    }
  }

  lemma {:induction false} SetBitsOfClear(bitmap: seq<Word>, lo: nat, hi: nat)
    requires hi <= |bitmap| * BITS
    requires forall i :: lo <= i < hi ==> !Bit(bitmap, i)
    ensures SetBits(bitmap, lo, hi) == []
    decreases hi - lo
  {
    if lo < hi {
      SetBitsOfClear(bitmap, lo + 1, hi);
    }
  }
}
