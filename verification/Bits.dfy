/** Bit operations on register values, defined bit by bit over the integers. */
module Bits {
  import opened WrappingCounters

  function BitAnd(a: nat, b: nat): (r: nat)
    ensures r <= a && r <= b
  {
    if a == 0 then 0 else (if a % 2 == 1 && b % 2 == 1 then 1 else 0) + 2 * BitAnd(a / 2, b / 2)
  }

  /** `a & !b`. */
  function BitAndNot(a: nat, b: nat): (r: nat)
    ensures r <= a
  {
    if a == 0 then 0 else (if a % 2 == 1 && b % 2 == 0 then 1 else 0) + 2 * BitAndNot(a / 2, b / 2)
  }

  /** Bit number `k`. */
  function Bit(v: nat, k: nat): (b: nat)
    ensures b <= 1
  {
    if k == 0 then v % 2 else Bit(v / 2, k - 1)
  }

  predicate HasBit(v: nat, k: nat) { Bit(v, k) == 1 }

  function Pow2(k: nat): (p: nat)
    ensures p > 0
  {
    if k == 0 then 1 else 2 * Pow2(k - 1)
  }

  function SetBit(v: nat, k: nat): nat { if HasBit(v, k) then v else v + Pow2(k) }

  function ClearBit(v: nat, k: nat): nat { BitAndNot(v, Pow2(k)) }

  /** Bit `k` is what is left of the value above the lower `k` bits, modulo 2. */
  lemma {:induction false} BitAsDivision(v: nat, k: nat)
    ensures Bit(v, k) == v / Pow2(k) % 2
  {
    if k > 0 {
      BitAsDivision(v / 2, k - 1);
      DivideTwice(v, Pow2(k - 1));
    }
  }

  lemma DivideTwice(v: nat, n: nat)
    requires n > 0
    ensures v / 2 / n == v / (2 * n)
  {
    var q, r := v / 2 / n, v / 2 % n;
    assert v == 2 * (n * q + r) + v % 2;
    assert 2 * r + v % 2 < 2 * n && v == (2 * n) * q + (2 * r + v % 2);
    QuotientUnique(2 * n, q, 2 * r + v % 2);
  }

  lemma QuotientUnique(b: nat, q: nat, r: nat)
    requires r < b
    ensures (b * q + r) / b == q
  {
    RemainderUnique(b, q, r);
    var x := b * q + r;
    assert b * (x / b) == b * q;
    MultipleBounds(b, x / b - q);
    assert b * (x / b - q) == 0;
  }

  lemma {:induction false} BitOfZero(k: nat)
    ensures Bit(0, k) == 0
  {
    if k > 0 {
      BitOfZero(k - 1);
    }
  }

  lemma {:induction false} BitOfPow2(n: nat, k: nat)
    ensures Bit(Pow2(n), k) == if k == n then 1 else 0
  {
    if n == 0 {
      if k > 0 {
        BitOfZero(k - 1);
      }
    } else if k > 0 {
      BitOfPow2(n - 1, k - 1);
      assert Pow2(n) / 2 == Pow2(n - 1);
    }
  }

  lemma {:induction false} BitOfAndNot(a: nat, b: nat, k: nat)
    ensures Bit(BitAndNot(a, b), k) == if Bit(a, k) == 1 && Bit(b, k) == 0 then 1 else 0
  {
    if a == 0 {
      BitOfZero(k);
    } else {
      var low := if a % 2 == 1 && b % 2 == 0 then 1 else 0;
      assert BitAndNot(a, b) == low + 2 * BitAndNot(a / 2, b / 2);
      if k > 0 {
        BitOfAndNot(a / 2, b / 2, k - 1);
      }
    }
  }

  lemma {:induction false} BitOfSetBit(v: nat, n: nat, k: nat)
    ensures Bit(SetBit(v, n), k) == if k == n then 1 else Bit(v, k)
  {
    if !HasBit(v, n) && n > 0 {
      assert SetBit(v, n) == v + 2 * Pow2(n - 1);
      assert SetBit(v, n) / 2 == SetBit(v / 2, n - 1) && SetBit(v, n) % 2 == v % 2;
      if k > 0 {
        BitOfSetBit(v / 2, n - 1, k - 1);
      }
    }
  }

  lemma {:induction false} Pow2Adds(a: nat, b: nat)
    ensures Pow2(a + b) == Pow2(a) * Pow2(b)
  {
    if a > 0 {
      Pow2Adds(a - 1, b);
    }
  }

  /** Clearing a bit that is set takes its weight away. */
  lemma {:induction false} ClearBitValue(v: nat, k: nat)
    requires HasBit(v, k)
    ensures ClearBit(v, k) == v - Pow2(k)
  {
    if k == 0 {
      assert BitAndNot(v, 1) == 2 * BitAndNot(v / 2, 0);
      AndNotZero(v / 2);
    } else {
      ClearBitValue(v / 2, k - 1);
      assert Pow2(k) / 2 == Pow2(k - 1) && Pow2(k) % 2 == 0;
      BitOfZero(k);
    }
  }

  lemma {:induction false} AndNotZero(v: nat)
    ensures BitAndNot(v, 0) == v
  {
    if v > 0 {
      AndNotZero(v / 2);
    }
  }

  /** Nothing is left over exactly when every bit of `a` is a bit of `b`. */
  lemma {:induction false} AndNotZeroIff(a: nat, b: nat)
    ensures BitAndNot(a, b) == 0 <==> forall k: nat :: HasBit(a, k) ==> HasBit(b, k)
  {
    if BitAndNot(a, b) == 0 {
      forall k: nat | HasBit(a, k) ensures HasBit(b, k) {
        BitOfAndNot(a, b, k);
        BitOfZero(k);
      }
    } else {
      var k := SomeBit(BitAndNot(a, b));
      BitOfAndNot(a, b, k);
      assert HasBit(a, k) && !HasBit(b, k);
    }
  }

  lemma {:induction false} SomeBit(v: nat) returns (k: nat)
    requires v > 0
    ensures HasBit(v, k)
  {
    if v % 2 == 1 {
      k := 0;
    } else {
      var j := SomeBit(v / 2);
      k := j + 1;
    }
  }

  lemma {:induction false} AndSelf(a: nat)
    ensures BitAnd(a, a) == a
  {
    if a > 0 {
      AndSelf(a / 2);
    }
  }

  /** The mask test `size & (size - 1) == 0` recognises exactly the powers of two. */
  lemma {:induction false} MaskTest(n: nat)
    requires n > 0
    ensures BitAnd(n, n - 1) == 0 <==> IsPowerOfTwo(n)
  {
    if n % 2 == 0 {
      MaskTest(n / 2);
      assert (n - 1) / 2 == n / 2 - 1 && (n - 1) % 2 == 1;
    } else {
      AndSelf(n / 2);
      assert (n - 1) / 2 == n / 2;
    }
  }
}
