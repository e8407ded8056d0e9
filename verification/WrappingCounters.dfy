/** Wrapping 16-bit counters over power-of-two rings, against the unbounded counters they stand for. */
module WrappingCounters {

  predicate IsPowerOfTwo(n: nat) {
    n == 1 || (n > 1 && n % 2 == 0 && IsPowerOfTwo(n / 2))
  }

  predicate IsRingSize(n: nat): (b: bool)
    ensures b ==> 0 < n <= 256
  {
    0 < n <= 256 && IsPowerOfTwo(n)
  }

  function Next(c: nat): nat {
    (c + 1) % 0x1_0000
  }

  /** `b.wrapping_sub(a)` on 16 bits. */
  function Distance(a: nat, b: nat): nat {
    (b - a) % 0x1_0000
  }

  lemma DistanceStep(a: nat, b: nat)
    requires a < 0x1_0000 && b < 0x1_0000 && a != b
    ensures Distance(a, b) > 0 && Distance(Next(a), b) == Distance(a, b) - 1
  {
  }

  lemma DistanceZero(a: nat, b: nat)
    requires a < 0x1_0000 && b < 0x1_0000
    ensures Distance(a, b) == 0 <==> a == b
  {
  }

  /** The wrapped counters of two unbounded counters less than 65536 apart recover the gap. */
  lemma DistanceOfCounters(lo: nat, hi: nat)
    requires lo <= hi < lo + 0x1_0000
    ensures Distance(lo % 0x1_0000, hi % 0x1_0000) == hi - lo
    ensures lo % 0x1_0000 == hi % 0x1_0000 <==> lo == hi
  {
  }

  /** One step of a wrapping cursor towards an index it has not reached. */
  lemma CursorStep(lo: nat, hi: nat)
    requires lo < hi < lo + 0x1_0000
    ensures lo % 0x1_0000 != hi % 0x1_0000
    ensures Next(lo % 0x1_0000) == (lo + 1) % 0x1_0000
    ensures Distance((lo + 1) % 0x1_0000, hi % 0x1_0000) < Distance(lo % 0x1_0000, hi % 0x1_0000)
  {
    DistanceOfCounters(lo, hi);
    DistanceOfCounters(lo + 1, hi);
  }

  lemma AdvanceCounter(c: nat, d: nat)
    ensures (c % 0x1_0000 + d) % 0x1_0000 == (c + d) % 0x1_0000
  {
  }

  lemma MultipleBounds(n: int, t: int)
    requires n > 0
    ensures t >= 1 ==> n * t >= n
    ensures t <= -1 ==> n * t <= -n
  {
    assert t >= 1 ==> n * (t - 1) >= 0;
    assert t <= -1 ==> n * (-t - 1) >= 0;
    assert n * (t - 1) == n * t - n && n * (-t - 1) == -(n * t) - n;
  }

  /** Counters less than a ring apart name different slots. */
  lemma SlotsDistinct(i: nat, j: nat, n: nat)
    requires i < j < i + n
    ensures i % n != j % n
  {
    if i % n == j % n {
      var a, b := i / n, j / n;
      assert i == n * a + i % n && j == n * b + j % n;
      assert j - i == n * (b - a);
      MultipleBounds(n, b - a);
    }
  }

  lemma RemainderUnique(b: nat, q: int, r: nat)
    requires r < b
    requires b * q + r >= 0
    ensures (b * q + r) % b == r
  {
    var x := b * q + r;
    var p := x / b;
    assert x == b * p + x % b;
    assert b * (q - p) == x % b - r;
    MultipleBounds(b, q - p);
  }

  lemma SmallMod(x: nat, n: nat)
    requires x < n
    ensures x % n == x
  {
  }

  /** The smaller of two powers of two divides the larger. */
  lemma {:induction false} PowersDivide(a: nat, b: nat) returns (c: nat)
    requires IsPowerOfTwo(a) && IsPowerOfTwo(b) && b <= a
    ensures a == b * c
  {
    if b == 1 {
      c := a;
    } else {
      c := PowersDivide(a / 2, b / 2);
      assert a == 2 * (a / 2) && b == 2 * (b / 2);
      assert 2 * (b / 2 * c) == b * c;
    }
  }

  lemma NestedMod(x: nat, a: nat, b: nat, c: nat)
    requires b > 0 && a > 0 && a == b * c
    ensures (x % a) % b == x % b
  {
    var y, r := x / a, x % a;
    var p, t := r / b, r % b;
    calc {
      x;
      a * y + r;
      (b * c) * y + (b * p + t);
      b * (c * y) + b * p + t;
      b * (c * y + p) + t;
    }
    RemainderUnique(b, c * y + p, t);
  }

  /** Wrapping the counter never changes the ring slot it names. */
  lemma SlotOfCounter(k: nat, n: nat)
    requires IsRingSize(n)
    ensures (k % 0x1_0000) % n == k % n
  {
    assert IsPowerOfTwo(0x1_0000);
    var c := PowersDivide(0x1_0000, n);
    NestedMod(k, 0x1_0000, n, c);
  }

  /** The device reduces a cursor first by the queue's size and then by the ring's own; together that is one
      reduction by the smaller of the two, applied to the unbounded counter. */
  lemma DoubleReduction(k: nat, queueSize: nat, ringSize: nat)
    requires IsRingSize(queueSize) && IsRingSize(ringSize)
    ensures ((k % 0x1_0000) % queueSize) % ringSize == k % (if queueSize < ringSize then queueSize else ringSize)
    ensures ((k % 0x1_0000) % queueSize) % ringSize < ringSize
  {
    SlotOfCounter(k, queueSize);
    if ringSize <= queueSize {
      var c := PowersDivide(queueSize, ringSize);
      NestedMod(k, queueSize, ringSize, c);
    } else {
      SmallMod(k % queueSize, ringSize);
    }
  }
}
