/** Numbers as strings of bits: shifts, masks and the bitwise operators of the address code. */
module BitOps {

  function Pow2(n: nat): (p: nat)
    ensures p >= 1
  {
    if n == 0 then 1 else 2 * Pow2(n - 1)
  }

  lemma MulMonotone(p: nat, a: int, b: int)
    requires a <= b
    ensures p * a <= p * b
  {
  }

  /** x without its w low bits, and those bits. */
  function High(x: nat, w: nat): nat {
    QuotientIsNat(x, Pow2(w));
    x / Pow2(w)
  }

  function Low(x: nat, w: nat): (l: nat)
    ensures l < Pow2(w)
  {
    x % Pow2(w)
  }

  /** The number in `width` bits of a, from bit `low` up. */
  function Slice(a: nat, low: nat, width: nat): (s: nat)
    ensures s < Pow2(width)
  {
    Low(High(a, low), width)
  }

  lemma QuotientIsNat(x: nat, p: nat)
    requires p >= 1
    ensures x / p >= 0
  {
    var h := x / p;
    assert x == p * h + x % p;
    if h < 0 {
      MulMonotone(p, h, -1);
    }
  }

  lemma HighLow(x: nat, w: nat)
    ensures x == Pow2(w) * High(x, w) + Low(x, w)
  {
  }

  lemma {:induction false} Pow2Add(a: nat, b: nat)
    ensures Pow2(a + b) == Pow2(a) * Pow2(b)
  {
    if a > 0 {
      Pow2Add(a - 1, b);
      assert 2 * (Pow2(a - 1) * Pow2(b)) == (2 * Pow2(a - 1)) * Pow2(b);
    }
  }

  lemma {:induction false} Pow2Grows(a: nat, b: nat)
    requires a <= b
    ensures Pow2(a) <= Pow2(b)
  {
    if a < b {
      Pow2Grows(a, b - 1);
    }
  }

  lemma Pow2Four()
    ensures Pow2(0) == 1 && Pow2(3) == 8 && Pow2(4) == 16
  {
    assert Pow2(1) == 2 && Pow2(2) == 4;
  }

  lemma Pow2Values()
    ensures Pow2(0) == 1 && Pow2(7) == 128 && Pow2(8) == 256 && Pow2(32) == 0x1_0000_0000
    ensures Pow2(64) == 0x1_0000_0000_0000_0000 && Pow2(70) == 0x40_0000_0000_0000_0000
  {
    hide Pow2;
    Pow2Four();
    Pow2Add(3, 4);
    Pow2Add(4, 4);
    Pow2Add(8, 8);
    Pow2Add(16, 16);
    Pow2Add(32, 32);
    Pow2Add(3, 3);
    Pow2Add(6, 64);
  }

  /** A number is split in one way only. */
  lemma Unique(x: nat, w: nat, h: int, l: int)
    requires x == Pow2(w) * h + l && 0 <= l < Pow2(w)
    ensures High(x, w) == h && Low(x, w) == l
  {
    var p, h', l' := Pow2(w), High(x, w), Low(x, w);
    assert p * h' - p * h == l - l';
    assert p * (h + 1) == p * h + p && p * (h' + 1) == p * h' + p;
    if h' > h {
      MulMonotone(p, h + 1, h');
    } else if h' < h {
      MulMonotone(p, h' + 1, h);
    }
  }

  /** The low a + b bits are the low b bits above the low a bits. */
  lemma SplitLow(x: nat, a: nat, b: nat)
    ensures Low(x, a + b) == Low(x, a) + Pow2(a) * Low(High(x, a), b)
    ensures High(x, a + b) == High(High(x, a), b)
  {
    hide Pow2, High, Low;
    var y := High(x, a);
    var p, q, l := Pow2(a), Pow2(b), Low(y, b);
    var r, h := Low(x, a) + p * l, High(y, b);
    Pow2Add(a, b);
    HighLow(x, a);
    HighLow(y, b);
    Regroup(p, q, h, l);
    Stacked(Low(x, a), p, l, q);
    MulMonotone(p, 0, l);
    Unique(x, a + b, h, r);
  }

  lemma Regroup(p: nat, q: nat, h: nat, l: nat)
    ensures p * (q * h + l) == (p * q) * h + p * l
  {
  }

  lemma Stacked(low: nat, p: nat, k: nat, b: nat)
    requires low < p && k < b
    ensures low + p * k < p * b
  {
    MulMonotone(p, k, b - 1);
    assert p * (b - 1) == p * b - p;
  }

  lemma Reorder(x: int, a: int, b: int)
    ensures x * a * b == (b * a) * x
  {
  }

  /** Bitwise combination, one binary digit at a time. */
  function Bitwise(op: (bool, bool) -> bool, a: nat, b: nat): nat
    decreases a + b
  {
    if a == 0 && b == 0 then 0
    else 2 * Bitwise(op, a / 2, b / 2) + (if op(a % 2 == 1, b % 2 == 1) then 1 else 0)
  }

  function Xor(a: nat, b: nat): nat {
    Bitwise((p, q) => p != q, a, b)
  }

  function And(a: nat, b: nat): nat {
    Bitwise((p, q) => p && q, a, b)
  }

  function Or(a: nat, b: nat): nat {
    Bitwise((p, q) => p || q, a, b)
  }

  /** The last binary digit, and the number without it. */
  lemma HalfSplits(x: nat, w: nat)
    requires w > 0
    ensures Low(x, w) == 2 * Low(x / 2, w - 1) + x % 2
    ensures High(x, w) == High(x / 2, w - 1)
  {
    Pow2One();
    Unique(x, 1, x / 2, x % 2);
    SplitLow(x, 1, w - 1);
  }

  lemma Pow2One()
    ensures Pow2(1) == 2 && Pow2(0) == 1
  {
    assert Pow2(1) == 2 * Pow2(0);
  }

  lemma {:induction false} XorSelf(x: nat)
    ensures Xor(x, x) == 0
  {
    if x > 0 {
      XorSelf(x / 2);
    }
  }

  /** Shifting w bits out and back in and comparing with the original leaves the w low bits. */
  lemma {:induction false} XorShifted(x: nat, w: nat)
    ensures Xor(x, High(x, w) * Pow2(w)) == Low(x, w)
    decreases w
  {
    hide Pow2, Xor;
    if w == 0 {
      Pow2One();
      Unique(x, 0, x, 0);
      XorSelf(x);
    } else {
      Pow2Twice(w);
      HalfSplits(x, w);
      XorShifted(x / 2, w - 1);
      Doubled(High(x, w), Pow2(w - 1));
      XorTwice(x, High(x, w) * Pow2(w - 1));
    }
  }

  lemma XorTwice(x: nat, m: nat)
    ensures Xor(x, 2 * m) == 2 * Xor(x / 2, m) + x % 2
  {
  }

  /** Masking with n ones keeps the n low bits. */
  lemma {:induction false} AndMask(x: nat, n: nat)
    ensures And(x, Pow2(n) - 1) == Low(x, n)
    decreases n
  {
    hide Low, High;
    if n == 0 {
      Pow2One();
      Unique(x, 0, x, 0);
      AndZero(x);
    } else {
      HalfSplits(x, n);
      AndMask(x / 2, n - 1);
      assert Pow2(n) - 1 == 2 * (Pow2(n - 1) - 1) + 1;
      assert (Pow2(n) - 1) / 2 == Pow2(n - 1) - 1 && (Pow2(n) - 1) % 2 == 1;
    }
  }

  lemma {:induction false} AndZero(x: nat)
    ensures And(x, 0) == 0
  {
    if x > 0 {
      AndZero(x / 2);
    }
  }

  lemma {:induction false} OrZero(x: nat)
    ensures Or(x, 0) == x && Or(0, x) == x
  {
    if x > 0 {
      OrZero(x / 2);
    }
  }

  /** Filling in bits that are all zero is an addition. */
  lemma {:induction false} OrDisjoint(low: nat, h: nat, w: nat)
    requires low < Pow2(w)
    ensures Or(low, h * Pow2(w)) == low + h * Pow2(w) && Or(h * Pow2(w), low) == low + h * Pow2(w)
    decreases w
  {
    if w == 0 {
      Pow2One();
      OrZero(h);
    } else {
      var b, c := h * Pow2(w), h * Pow2(w - 1);
      assert b == 2 * c by {
        Reorder(h, 2, Pow2(w - 1));
        Reorder(2, h, Pow2(w - 1));
      }
      OrDisjoint(low / 2, h, w - 1);
    }
  }

  /** Masking with a single one tests that bit. */
  lemma {:induction false} AndBit(x: nat, n: nat)
    ensures And(x, Pow2(n)) == Pow2(n) * (High(x, n) % 2)
    decreases n
  {
    if n == 0 {
      Pow2One();
      Unique(x, 0, x, 0);
      AndZero(x / 2);
    } else {
      HalfSplits(x, n);
      AndBit(x / 2, n - 1);
    }
  }

  /** Masking with w - n ones above n zeros clears the n low bits. */
  lemma {:induction false} AndHighMask(x: nat, n: nat, w: nat)
    requires n <= w && x < Pow2(w)
    ensures Pow2(w) - Pow2(n) >= 0 && And(x, Pow2(w) - Pow2(n)) == High(x, n) * Pow2(n)
    decreases n
  {
    hide And, Pow2;
    Pow2One();
    if n == 0 {
      Unique(x, 0, x, 0);
      AndMask(x, w);
      Unique(x, w, 0, x);
    } else {
      Pow2Twice(w);
      Pow2Twice(n);
      HalfSplits(x, n);
      AndHighMask(x / 2, n - 1, w - 1);
      AndTwice(x, Pow2(w - 1) - Pow2(n - 1));
      Doubled(High(x, n), Pow2(n - 1));
    }
  }

  lemma Pow2Twice(n: nat)
    requires n > 0
    ensures Pow2(n) == 2 * Pow2(n - 1)
  {
  }

  lemma Doubled(a: nat, p: nat)
    ensures a * (2 * p) == 2 * (a * p)
  {
  }

  lemma AndTwice(x: nat, m: nat)
    ensures And(x, 2 * m) == 2 * And(x / 2, m)
  {
  }

  // ---- Single bits ----

  function Bit(x: nat, i: nat): bool {
    High(x, i) % 2 == 1
  }

  lemma BitHalf(x: nat, i: nat)
    ensures Bit(x, 0) == (x % 2 == 1)
    ensures i > 0 ==> Bit(x, i) == Bit(x / 2, i - 1)
  {
    Pow2One();
    Unique(x, 0, x, 0);
    if i > 0 {
      HalfSplits(x, i);
    }
  }

  lemma BitHigh(x: nat, w: nat, i: nat)
    ensures Bit(High(x, w), i) == Bit(x, w + i)
  {
    SplitLow(x, w, i);
  }

  lemma {:induction false} BitLow(x: nat, w: nat, i: nat)
    requires i < w
    ensures Bit(Low(x, w), i) == Bit(x, i)
    decreases i
  {
    hide Bit, High, Low;
    HalfSplits(x, w);
    BitHalf(x, i);
    BitHalf(Low(x, w), i);
    if i > 0 {
      BitLow(x / 2, w - 1, i - 1);
    }
  }

  lemma {:induction false} BitXor(a: nat, b: nat, i: nat)
    ensures Bit(Xor(a, b), i) == (Bit(a, i) != Bit(b, i))
    decreases i
  {
    hide Bit, High;
    BitHalf(a, i);
    BitHalf(b, i);
    BitHalf(Xor(a, b), i);
    XorHalf(a, b);
    if i > 0 {
      BitXor(a / 2, b / 2, i - 1);
    }
  }

  lemma XorHalf(a: nat, b: nat)
    ensures Xor(a, b) / 2 == Xor(a / 2, b / 2)
    ensures Xor(a, b) % 2 == 1 <==> (a % 2 == 1) != (b % 2 == 1)
  {
  }

  lemma {:induction false} XorBound(a: nat, b: nat, w: nat)
    requires a < Pow2(w) && b < Pow2(w)
    ensures Xor(a, b) < Pow2(w)
    decreases w
  {
    if w > 0 {
      XorBound(a / 2, b / 2, w - 1);
    }
  }

  /** Numbers of w bits that agree on every bit are the same. */
  lemma {:induction false} BitsDecide(x: nat, y: nat, w: nat)
    requires x < Pow2(w) && y < Pow2(w)
    requires forall i :: 0 <= i < w ==> Bit(x, i) == Bit(y, i)
    ensures x == y
    decreases w
  {
    hide Bit;
    if w > 0 {
      forall i | 0 <= i < w - 1
        ensures Bit(x / 2, i) == Bit(y / 2, i)
      {
        BitHalf(x, i + 1);
        BitHalf(y, i + 1);
        assert Bit(x, i + 1) == Bit(y, i + 1);
      }
      BitsDecide(x / 2, y / 2, w - 1);
      BitHalf(x, 0);
      BitHalf(y, 0);
      assert Bit(x, 0) == Bit(y, 0);
    }
  }
}
