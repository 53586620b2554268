/** Interleaved address ranges: which of several ranges an address belongs to, and where it lies inside that range. */
module AddressRanges {
  import opened BitOps
  import opened Wrappers

  const ALL_ONES: nat := 0xffff_ffff_ffff_ffff

  type Addr = a: int | 0 <= a <= ALL_ONES

  datatype AddressRange = AddressRange(
    start: Addr, end: Addr, intlvHighBit: Byte, xorHighBit: Byte, intlvBits: Byte, intlvMatch: Byte)
  {
    predicate Interleaved() {
      intlvBits != 0
    }

    predicate Hashed() {
      Interleaved() && xorHighBit != 0
    }

    predicate MergesWith(r: AddressRange) {
      && r.start == start && r.end == end
      && r.intlvHighBit == intlvHighBit && r.xorHighBit == xorHighBit && r.intlvBits == intlvBits
    }

    /** The lowest bit of the interleaving slice and of the slice it is hashed with; negative if the bits run out. */
    function LowBit(): int {
      intlvHighBit - intlvBits + 1
    }

    function XorLowBit(): int {
      xorHighBit - intlvBits + 1
    }
  }

  // ---- 64-bit words; a shift count is taken modulo 64 ----

  function ShiftRight(a: Addr, n: int): (r: Addr)
    ensures r == High(a, n % 64)
  {
    HighAtMost(a, n % 64);
    High(a, n % 64)
  }

  lemma HighAtMost(a: nat, w: nat)
    ensures High(a, w) <= a
  {
    MulMonotone(High(a, w), 1, Pow2(w));
  }

  function ShiftLeft(a: Addr, n: int): Addr {
    a * Pow2(n % 64) % (ALL_ONES + 1)
  }

  function Mask(nbits: int): (m: Addr)
    ensures m == if nbits == 64 then ALL_ONES else Pow2(nbits % 64) - 1
  {
    Pow2Grows(nbits % 64, 64);
    Pow2Values();
    if nbits == 64 then ALL_ONES else Pow2(nbits % 64) - 1
  }

  lemma {:induction false} AndAtMost(a: nat, b: nat)
    ensures And(a, b) <= a && And(a, b) <= b
    decreases a + b
  {
    if a != 0 || b != 0 {
      AndAtMost(a / 2, b / 2);
    }
  }

  function Bits(val: Addr, first: int, last: int): (r: Addr) {
    AndAtMost(ShiftRight(val, last), Mask(first - last + 1));
    And(ShiftRight(val, last), Mask(first - last + 1))
  }

  function Not(a: Addr): Addr {
    ALL_ONES - a
  }

  function InsertBits(val: Addr, first: int, last: int, bitVal: Addr): nat {
    var bmask := ShiftLeft(Mask(first - last + 1), last);
    Or(And(ShiftLeft(bitVal, last), bmask), And(val, Not(bmask)))
  }

  // ---- The operations of a range ----

  predicate Contains(r: AddressRange, a: Addr) {
    && r.start <= a <= r.end
    && (r.Interleaved() ==>
          if !r.Hashed() then Bits(a, r.intlvHighBit, r.LowBit()) == r.intlvMatch
          else Xor(Bits(a, r.intlvHighBit, r.LowBit()), Bits(a, r.xorHighBit, r.XorLowBit())) == r.intlvMatch)
  }

  function RemoveIntlvBits(r: AddressRange, a: Addr): nat {
    InsertBits(ShiftRight(a, r.intlvBits), r.LowBit() - 1, 0, a)
  }

  /** The distance of an address from the start, counted within the range. */
  function GetOffset(r: AddressRange, a: Addr): int {
    if !(r.start <= a <= r.end) then ALL_ONES
    else if r.Interleaved() then (RemoveIntlvBits(r, a) - RemoveIntlvBits(r, r.start)) % (ALL_ONES + 1)
    else a - r.start
  }

  // ---- Slices of an address ----

  lemma BitsIsSlice(a: Addr, first: int, last: int)
    requires 0 <= first - last + 1 < 64
    ensures Bits(a, first, last) == Slice(a, last % 64, first - last + 1)
  {
    hide And, Pow2, High, Low;
    var n := first - last + 1;
    assert n % 64 == n;
    AndMask(High(a, last % 64), n);
  }

  lemma BitSlice(a: nat, low: nat, width: nat, i: nat)
    requires i < width
    ensures Bit(Slice(a, low, width), i) == Bit(a, low + i)
  {
    hide Bit;
    BitLow(High(a, low), width, i);
    BitHigh(a, low, i);
  }

  /** The value the range compares with its match. */
  function Selector(r: AddressRange, a: Addr): nat {
    var low, k := r.LowBit() % 64, r.intlvBits;
    if r.Hashed() then Xor(Slice(a, low, k), Slice(a, r.XorLowBit() % 64, k)) else Slice(a, low, k)
  }

  lemma ContainsBySelector(r: AddressRange, a: Addr)
    requires 0 < r.intlvBits < 64
    ensures Contains(r, a) <==> r.start <= a <= r.end && Selector(r, a) == r.intlvMatch
    ensures Selector(r, a) < Pow2(r.intlvBits)
  {
    hide Bits, Xor, Slice;
    BitsIsSlice(a, r.intlvHighBit, r.LowBit());
    BitsIsSlice(a, r.xorHighBit, r.XorLowBit());
    var low, k := r.LowBit() % 64, r.intlvBits;
    XorBound(Slice(a, low, k), Slice(a, r.XorLowBit() % 64, k), k);
  }

  // ---- Partition ----

  /** The range that differs from r in the match alone has the address, and the match fits in the slice. */
  predicate Owns(r: AddressRange, m: Byte, a: Addr) {
    m < Pow2(r.intlvBits) && Contains(r.(intlvMatch := m), a)
  }

  /** The ranges that differ in nothing but the match share out the addresses between start and end. */
  lemma Partition(r: AddressRange, a: Addr)
    requires r.intlvBits <= 8
    ensures (exists m: Byte :: Owns(r, m, a)) <==> r.start <= a <= r.end
    ensures forall m: Byte, n: Byte :: Owns(r, m, a) && Owns(r, n, a) ==> m == n
  {
    hide Contains, Selector;
    Pow2Values();
    Pow2Grows(r.intlvBits, 8);
    forall m: Byte
      ensures Contains(r.(intlvMatch := m), a)
        <==> r.start <= a <= r.end && (r.intlvBits > 0 ==> Selector(r, a) == m)
      ensures r.intlvBits > 0 ==> Selector(r, a) < Pow2(r.intlvBits)
    {
      ContainsMatch(r, m, a);
    }
    var m: Byte := if r.intlvBits == 0 then 0 else Selector(r, a);
    assert Owns(r, m, a) <==> r.start <= a <= r.end;
  }

  lemma ContainsMatch(r: AddressRange, m: Byte, a: Addr)
    requires r.intlvBits <= 8
    ensures Contains(r.(intlvMatch := m), a) <==> r.start <= a <= r.end && (r.intlvBits > 0 ==> Selector(r, a) == m)
    ensures r.intlvBits > 0 ==> Selector(r, a) < Pow2(r.intlvBits)
  {
    hide Pow2, Xor, Slice, Bits;
    if r.intlvBits > 0 {
      ContainsBySelector(r.(intlvMatch := m), a);
    }
  }

  // ---- Removing the interleaving bits ----

  /** The bits above the slice move down onto those below it. */
  lemma RemoveForm(r: AddressRange, a: Addr)
    requires r.intlvBits < 64
    ensures var l := r.LowBit() % 64;
      RemoveIntlvBits(r, a) == if r.LowBit() == 64 then a else High(a, l + r.intlvBits) * Pow2(l) + Low(a, l)
  {
    hide And, Or, Pow2, Mask, InsertBits, High, Low, ShiftRight;
    var k, low := r.intlvBits, r.LowBit();
    var v := ShiftRight(a, k);
    InsertAtBottom(v, low, a);
    MaskedParts(v, low, a);
    SplitLow(a, k, low % 64);
  }

  lemma InsertAtBottom(v: Addr, low: int, a: Addr)
    ensures InsertBits(v, low - 1, 0, a) == Or(And(a, Mask(low)), And(v, Not(Mask(low))))
  {
    hide And, Or, Mask, Pow2;
    Pow2One();
    assert ShiftLeft(a, 0) == a && ShiftLeft(Mask(low), 0) == Mask(low);
  }

  lemma MaskedParts(v: Addr, low: int, a: Addr)
    ensures var l := low % 64;
      Or(And(a, Mask(low)), And(v, Not(Mask(low)))) == if low == 64 then a else High(v, l) * Pow2(l) + Low(a, l)
  {
    hide And, Or, Pow2;
    Pow2Values();
    if low == 64 {
      AndMask(a, 64);
      Unique(a, 64, 0, a);
      AndZero(v);
      OrZero(a);
    } else {
      var l := low % 64;
      AndMask(a, l);
      AndHighMask(v, l, 64);
      OrDisjoint(Low(a, l), High(v, l), l);
    }
  }

  /** Bit i of the hashed slice is the same in both addresses. */
  ghost predicate SameHash(a: nat, b: nat, l: nat, x: nat, i: nat) {
    (Bit(a, l + i) != Bit(a, x + i)) == (Bit(b, l + i) != Bit(b, x + i))
  }

  ghost predicate SameOutside(a: nat, b: nat, l: nat, k: nat) {
    forall j :: 0 <= j && !(l <= j < l + k) ==> Bit(a, j) == Bit(b, j)
  }

  /**
   * Whatever the overlap of the two slices, each bit is hashed with one that lies outside the slice or further along in
   * one direction, so the hash can be undone bit by bit from that end.
   */
  lemma {:induction false} SliceAgrees(a: nat, b: nat, l: nat, x: nat, k: nat, i: nat)
    requires x != l && i < k && SameOutside(a, b, l, k)
    requires forall j :: 0 <= j < k ==> SameHash(a, b, l, x, j)
    ensures Bit(a, l + i) == Bit(b, l + i)
    decreases if x > l then k - i else i
  {
    hide Bit;
    var j := x + i - l;
    assert l + j == x + i;
    assert SameHash(a, b, l, x, i);
    if 0 <= j < k {
      SliceAgrees(a, b, l, x, k, j);
    }
  }

  /** The slice and the one it is hashed with start at different bits of the 64-bit word, or the slice is never removed. */
  predicate Separated(r: AddressRange) {
    r.Hashed() ==> (r.xorHighBit - r.intlvHighBit) % 64 != 0 || r.LowBit() == 64
  }

  ghost predicate Injective(r: AddressRange) {
    forall a, b :: Contains(r, a) && Contains(r, b) && RemoveIntlvBits(r, a) == RemoveIntlvBits(r, b) ==> a == b
  }

  lemma OutsideAgrees(a: nat, b: nat, l: nat, k: nat)
    requires Low(a, l) == Low(b, l) && High(a, l + k) == High(b, l + k)
    ensures SameOutside(a, b, l, k)
  {
    hide Bit;
    forall j | 0 <= j && !(l <= j < l + k)
      ensures Bit(a, j) == Bit(b, j)
    {
      if j < l {
        BitLow(a, l, j);
        BitLow(b, l, j);
      } else {
        BitHigh(a, l + k, j - l - k);
        BitHigh(b, l + k, j - l - k);
      }
    }
  }

  lemma HashAgrees(a: nat, b: nat, l: nat, x: nat, k: nat)
    requires Xor(Slice(a, l, k), Slice(a, x, k)) == Xor(Slice(b, l, k), Slice(b, x, k))
    ensures forall i :: 0 <= i < k ==> SameHash(a, b, l, x, i)
  {
    hide Bit, Xor, Slice;
    forall i | 0 <= i < k
      ensures SameHash(a, b, l, x, i)
    {
      BitXor(Slice(a, l, k), Slice(a, x, k), i);
      BitXor(Slice(b, l, k), Slice(b, x, k), i);
      BitSlice(a, l, k, i);
      BitSlice(a, x, k, i);
      BitSlice(b, l, k, i);
      BitSlice(b, x, k, i);
    }
  }

  /** The hash of a slice and what lies around the slice determine it. */
  lemma HashTellsApart(a: nat, b: nat, l: nat, x: nat, k: nat)
    requires x != l && Low(a, l) == Low(b, l) && High(a, l + k) == High(b, l + k)
    requires Xor(Slice(a, l, k), Slice(a, x, k)) == Xor(Slice(b, l, k), Slice(b, x, k))
    ensures Slice(a, l, k) == Slice(b, l, k)
  {
    hide Bit, Xor, Slice, SameHash, SameOutside;
    OutsideAgrees(a, b, l, k);
    HashAgrees(a, b, l, x, k);
    forall i | 0 <= i < k
      ensures Bit(Slice(a, l, k), i) == Bit(Slice(b, l, k), i)
    {
      SliceAgrees(a, b, l, x, k, i);
      BitSlice(a, l, k, i);
      BitSlice(b, l, k, i);
    }
    BitsDecide(Slice(a, l, k), Slice(b, l, k), k);
  }

  lemma Reassemble(a: nat, b: nat, l: nat, k: nat)
    requires Low(a, l) == Low(b, l) && Slice(a, l, k) == Slice(b, l, k) && High(a, l + k) == High(b, l + k)
    ensures a == b
  {
    hide Pow2;
    SplitLow(a, l, k);
    SplitLow(b, l, k);
  }

  /** Without their slices, no two addresses of a range look alike. */
  lemma RemoveIsInjective(r: AddressRange)
    requires r.intlvBits < 64 && Separated(r)
    ensures r.Interleaved() ==> Injective(r)
  {
    hide Contains, RemoveIntlvBits, Selector, Separated;
    forall a: Addr, b: Addr | r.Interleaved() && Contains(r, a) && Contains(r, b) && RemoveIntlvBits(r, a) == RemoveIntlvBits(r, b)
      ensures a == b
    {
      ContainsBySelector(r, a);
      ContainsBySelector(r, b);
      RemovedAlike(r, a, b);
    }
  }

  lemma DifferentStarts(r: AddressRange)
    requires Separated(r) && r.LowBit() != 64
    ensures r.Hashed() ==> r.LowBit() % 64 != r.XorLowBit() % 64
  {
  }

  lemma RemovedAlike(r: AddressRange, a: Addr, b: Addr)
    requires 0 < r.intlvBits < 64 && Separated(r)
    requires Selector(r, a) == Selector(r, b) && RemoveIntlvBits(r, a) == RemoveIntlvBits(r, b)
    ensures a == b
  {
    hide RemoveIntlvBits, Xor, Slice, Pow2, Separated;
    RemoveForm(r, a);
    RemoveForm(r, b);
    if r.LowBit() != 64 {
      var l, x, k := r.LowBit() % 64, r.XorLowBit() % 64, r.intlvBits;
      DifferentStarts(r);
      SameParts(High(a, l + k), Low(a, l), High(b, l + k), Low(b, l), l);
      if r.Hashed() {
        HashTellsApart(a, b, l, x, k);
      }
      Reassemble(a, b, l, k);
    }
  }

  lemma SameParts(h: nat, low: nat, h': nat, low': nat, l: nat)
    requires low < Pow2(l) && low' < Pow2(l) && h * Pow2(l) + low == h' * Pow2(l) + low'
    ensures h == h' && low == low'
  {
    hide Pow2;
    MulMonotone(h, 0, Pow2(l));
    var x := h * Pow2(l) + low;
    Unique(x, l, h, low);
    Unique(x, l, h', low');
  }

  /** If both slices start at the same bit the hash is always zero: addresses 0 and 2^LowBit cannot be told apart. */
  lemma SameSliceCollides(r: AddressRange)
    requires 0 < r.intlvBits < 64 && !Separated(r) && r.start == 0 && r.end == ALL_ONES && r.intlvMatch == 0
    ensures !Injective(r)
  {
    hide Contains, RemoveIntlvBits, Pow2, Selector, Separated;
    var l := r.LowBit() % 64;
    var b := Lowest(r);
    ZeroHash(r, 0);
    ZeroHash(r, b);
    ContainsBySelector(r, 0);
    ContainsBySelector(r, b);
    NothingLeft(r, 0);
    NothingLeft(r, b);
    assert Contains(r, 0) && Contains(r, b) && RemoveIntlvBits(r, 0) == RemoveIntlvBits(r, b);
  }

  /** The address with the slice's lowest bit set and no other. */
  lemma Lowest(r: AddressRange) returns (b: Addr)
    ensures b == Pow2(r.LowBit() % 64)
  {
    hide Pow2;
    var l := r.LowBit() % 64;
    Pow2Values();
    Pow2Grows(l + 1, 64);
    Pow2Twice(l + 1);
    b := Pow2(l);
  }

  lemma ZeroHash(r: AddressRange, a: Addr)
    requires !Separated(r)
    ensures Selector(r, a) == 0
  {
    hide Xor, Slice;
    assert r.XorLowBit() % 64 == r.LowBit() % 64;
    XorSelf(Slice(a, r.LowBit() % 64, r.intlvBits));
  }

  lemma NothingLeft(r: AddressRange, a: Addr)
    requires 0 < r.intlvBits < 64 && !Separated(r)
    requires a == 0 || a == Pow2(r.LowBit() % 64)
    ensures RemoveIntlvBits(r, a) == 0
  {
    hide RemoveIntlvBits, Pow2;
    RemoveForm(r, a);
    var l, k := r.LowBit() % 64, r.intlvBits;
    Pow2Grows(l + 1, l + k);
    Pow2Twice(l + 1);
    Unique(a, l + k, 0, a);
    Unique(a, l, if a == 0 then 0 else 1, 0);
  }

  /** Over the whole address space, the slices can be removed from every one of the ranges if and only if they differ. */
  lemma RemoveInjectiveIff(r: AddressRange)
    requires 0 < r.intlvBits < 64 && r.start == 0 && r.end == ALL_ONES
    ensures (forall m: Byte :: Injective(r.(intlvMatch := m))) <==> Separated(r)
  {
    hide Injective;
    if Separated(r) {
      forall m: Byte
        ensures Injective(r.(intlvMatch := m))
      {
        RemoveIsInjective(r.(intlvMatch := m));
      }
    } else {
      var zero := r.(intlvMatch := 0);
      SameSliceCollides(zero);
      assert !Injective(r.(intlvMatch := 0));
    }
  }

  /**
   * Offsets count from 0 at the start, by one where nothing is interleaved; otherwise they count what is left of the address
   * without the bits of the slice, from what is left of the start. An address outside has all ones.
   */
  lemma OffsetsCount(r: AddressRange, a: Addr)
    requires r.intlvBits < 64
    ensures !(r.start <= a <= r.end) ==> GetOffset(r, a) == 0xFFFF_FFFF_FFFF_FFFF
    ensures r.start <= r.end ==> GetOffset(r, r.start) == 0
    ensures !r.Interleaved() && r.start <= a < r.end ==> GetOffset(r, a + 1) == GetOffset(r, a) + 1
    ensures
      var low, k := r.LowBit() % 64, r.intlvBits;
      r.Interleaved() && r.LowBit() != 64 && r.start <= a <= r.end ==>
        exists wraps: int :: GetOffset(r, a) + wraps * 0x1_0000_0000_0000_0000
          == (High(a, low + k) * Pow2(low) + Low(a, low)) - (High(r.start, low + k) * Pow2(low) + Low(r.start, low))
    ensures 0 <= GetOffset(r, a) <= 0xFFFF_FFFF_FFFF_FFFF
  {
    hide RemoveIntlvBits, Pow2, High, Low;
    RemoveForm(r, a);
    RemoveForm(r, r.start);
    var left := RemoveIntlvBits(r, a) - RemoveIntlvBits(r, r.start);
    assert GetOffset(r, r.start) == 0 || r.start > r.end;
    assert left % (ALL_ONES + 1) + left / (ALL_ONES + 1) * (ALL_ONES + 1) == left;
  }

  /** Offsets tell the addresses of a range apart as well. */
  lemma OffsetsDiffer(r: AddressRange, a: Addr, b: Addr)
    requires r.intlvBits < 64 && Separated(r) && Contains(r, a) && Contains(r, b) && a != b
    ensures GetOffset(r, a) != GetOffset(r, b)
  {
    hide RemoveIntlvBits, Separated, Bits, Xor;
    RemoveIsInjective(r);
    if r.Interleaved() {
      RemoveFits(r, a);
      RemoveFits(r, b);
      var s := RemoveIntlvBits(r, r.start);
      Wraps(RemoveIntlvBits(r, a), RemoveIntlvBits(r, b), s);
    }
  }

  lemma Wraps(x: nat, y: nat, s: nat)
    requires x <= ALL_ONES && y <= ALL_ONES && x != y
    ensures (x - s) % (ALL_ONES + 1) != (y - s) % (ALL_ONES + 1)
  {
    var w := ALL_ONES + 1;
    var p, q := (x - s) / w, (y - s) / w;
    assert x - s == w * p + (x - s) % w && y - s == w * q + (y - s) % w;
  }

  lemma RemoveFits(r: AddressRange, a: Addr)
    requires r.intlvBits < 64
    ensures RemoveIntlvBits(r, a) <= a
  {
    hide RemoveIntlvBits, Pow2;
    RemoveForm(r, a);
    var l, k := r.LowBit() % 64, r.intlvBits;
    SplitLow(a, l, k);
    var p, h, h' := Pow2(l), High(a, l + k), High(a, l);
    HighAtMost(h', k);
    MulMonotone(p, h, h');
    assert h * p == p * h;
  }

  // ---- The offsets fill a contiguous range ----

  /** The slice, and the slice it is hashed with, are whole bit fields of the word that do not overlap. */
  predicate InWord(r: AddressRange) {
    && 0 < r.intlvBits < 64 && r.LowBit() >= 0 && r.intlvHighBit < 64
    && (r.Hashed() ==> r.XorLowBit() >= 0 && r.xorHighBit < 64 && !TooClose(r.intlvHighBit, r.xorHighBit, r.intlvBits))
  }

  /** An address from the bits above its slice, the slice and the bits below. */
  function Compose(h: nat, s: nat, low: nat, l: nat, k: nat): nat {
    Pow2(l) * (Pow2(k) * h + s) + low
  }

  lemma ComposeParts(h: nat, s: nat, low: nat, l: nat, k: nat)
    requires s < Pow2(k) && low < Pow2(l)
    ensures var a := Compose(h, s, low, l, k);
      Low(a, l) == low && Slice(a, l, k) == s && High(a, l + k) == h
  {
    hide Pow2;
    var a, upper := Compose(h, s, low, l, k), Pow2(k) * h + s;
    Unique(a, l, upper, low);
    Unique(upper, k, h, s);
    SplitLow(a, l, k);
  }

  lemma ComposeFits(h: nat, s: nat, low: nat, l: nat, k: nat)
    requires l + k <= 64 && h < Pow2(64 - k - l) && s < Pow2(k) && low < Pow2(l)
    ensures Compose(h, s, low, l, k) <= ALL_ONES
  {
    hide Pow2;
    Pow2Values();
    Stacked(s, Pow2(k), h, Pow2(64 - k - l));
    Pow2Add(k, 64 - k - l);
    Stacked(low, Pow2(l), Pow2(k) * h + s, Pow2(64 - l));
    Pow2Add(l, 64 - l);
  }

  /** A slice apart from the one at l does not see what is put there. */
  lemma SliceElsewhere(a: nat, b: nat, l: nat, x: nat, k: nat)
    requires x + k <= l || l + k <= x
    requires Low(a, l) == Low(b, l) && High(a, l + k) == High(b, l + k)
    ensures Slice(a, x, k) == Slice(b, x, k)
  {
    hide Bit, Slice;
    OutsideAgrees(a, b, l, k);
    forall i | 0 <= i < k
      ensures Bit(Slice(a, x, k), i) == Bit(Slice(b, x, k), i)
    {
      BitSlice(a, x, k, i);
      BitSlice(b, x, k, i);
      assert Bit(a, x + i) == Bit(b, x + i);
    }
    BitsDecide(Slice(a, x, k), Slice(b, x, k), k);
  }

  lemma XorCancels(m: nat, x: nat, k: nat)
    requires m < Pow2(k) && x < Pow2(k)
    ensures Xor(m, x) < Pow2(k) && Xor(Xor(m, x), x) == m
  {
    hide Bit, Xor;
    XorBound(m, x, k);
    XorBound(Xor(m, x), x, k);
    forall i | 0 <= i < k
      ensures Bit(Xor(Xor(m, x), x), i) == Bit(m, i)
    {
      BitXor(m, x, i);
      BitXor(Xor(m, x), x, i);
    }
    BitsDecide(Xor(Xor(m, x), x), m, k);
  }

  /** The address with a given selector and a given offset from zero. */
  lemma AddressAt(r: AddressRange, target: nat, offset: nat) returns (a: Addr)
    requires InWord(r) && target < Pow2(r.intlvBits) && offset < Pow2(64 - r.intlvBits)
    ensures Selector(r, a) == target && RemoveIntlvBits(r, a) == offset
  {
    hide Pow2, Xor, Slice, RemoveIntlvBits, Compose, Selector, High, Low;
    var l, k := r.LowBit(), r.intlvBits;
    var h, low := High(offset, l), Low(offset, l);
    HighLow(offset, l);
    Product(Pow2(l), h);
    UpperFits(offset, l, k);
    var s := SliceFor(r, target, h, low);
    ComposeFits(h, s, low, l, k);
    ComposeParts(h, s, low, l, k);
    a := Compose(h, s, low, l, k);
    RemoveForm(r, a);
  }

  lemma Product(p: nat, q: nat)
    ensures p * q == q * p
  {
  }

  /** The slice that makes up for the hash of the bits around it. */
  lemma SliceFor(r: AddressRange, target: nat, h: nat, low: nat) returns (s: nat)
    requires InWord(r) && target < Pow2(r.intlvBits)
    requires low < Pow2(r.LowBit()) && h < Pow2(64 - r.intlvBits - r.LowBit())
    ensures s < Pow2(r.intlvBits)
    ensures var a := Compose(h, s, low, r.LowBit(), r.intlvBits); a <= ALL_ONES && Selector(r, a) == target
  {
    hide Pow2, Xor, Slice, Compose, InWord;
    var l, x, k := r.LowBit(), r.XorLowBit(), r.intlvBits;
    FieldsInWord(r);
    if r.Hashed() {
      s := Unhash(h, low, target, l, x, k);
    } else {
      s := target;
      ComposeParts(h, s, low, l, k);
    }
    ComposeFits(h, s, low, l, k);
  }

  lemma FieldsInWord(r: AddressRange)
    requires InWord(r)
    ensures r.LowBit() % 64 == r.LowBit() && r.LowBit() + r.intlvBits <= 64
    ensures r.Hashed() ==> r.XorLowBit() % 64 == r.XorLowBit()
    ensures r.Hashed() ==> r.XorLowBit() + r.intlvBits <= r.LowBit() || r.LowBit() + r.intlvBits <= r.XorLowBit()
  {
  }

  lemma Unhash(h: nat, low: nat, m: nat, l: nat, x: nat, k: nat) returns (s: nat)
    requires low < Pow2(l) && m < Pow2(k) && (x + k <= l || l + k <= x)
    ensures s < Pow2(k)
    ensures var a := Compose(h, s, low, l, k); Xor(Slice(a, l, k), Slice(a, x, k)) == m
  {
    hide Pow2, Xor, Slice, Compose;
    var blank := Compose(h, 0, low, l, k);
    var hash := Slice(blank, x, k);
    XorCancels(m, hash, k);
    s := Xor(m, hash);
    ComposeParts(h, 0, low, l, k);
    ComposeParts(h, s, low, l, k);
    SliceElsewhere(Compose(h, s, low, l, k), blank, l, x, k);
  }

  lemma UpperFits(offset: nat, l: nat, k: nat)
    requires l + k <= 64 && offset < Pow2(64 - k)
    ensures High(offset, l) < Pow2(64 - k - l)
  {
    hide Pow2;
    Pow2Add(l, 64 - k - l);
    if High(offset, l) >= Pow2(64 - k - l) {
      MulMonotone(Pow2(l), Pow2(64 - k - l), High(offset, l));
    }
  }

  /** Over the whole address space, removing the slice maps each range onto the numbers of the remaining bits. */
  lemma RemoveIsOnto(r: AddressRange, offset: nat)
    requires InWord(r) && r.intlvMatch < Pow2(r.intlvBits) && r.start == 0 && r.end == ALL_ONES
    ensures offset < Pow2(64 - r.intlvBits) <==> exists a: Addr :: Contains(r, a) && RemoveIntlvBits(r, a) == offset
  {
    hide Pow2, Contains, RemoveIntlvBits, Selector;
    if offset < Pow2(64 - r.intlvBits) {
      var a := AddressAt(r, r.intlvMatch, offset);
      ContainsBySelector(r, a);
    }
    forall a: Addr | Contains(r, a)
      ensures RemoveIntlvBits(r, a) < Pow2(64 - r.intlvBits)
    {
      RemoveShortens(r, a);
    }
  }

  lemma RemoveShortens(r: AddressRange, a: Addr)
    requires InWord(r)
    ensures RemoveIntlvBits(r, a) < Pow2(64 - r.intlvBits)
  {
    hide Pow2, RemoveIntlvBits;
    var l, k := r.LowBit(), r.intlvBits;
    RemoveForm(r, a);
    Pow2Values();
    UpperFits(a, l + k, 0);
    var h := High(a, l + k);
    Stacked(Low(a, l), Pow2(l), h, Pow2(64 - l - k));
    Pow2Add(l, 64 - l - k);
  }

  /** A match value is a byte: with more than eight interleaving bits, plain or hashed, some address belongs to no range. */
  lemma MatchTooNarrow(r: AddressRange) returns (a: Addr)
    requires InWord(r) && r.intlvBits >= 9
    ensures forall m: Byte :: !Contains(r.(intlvMatch := m), a)
  {
    hide Contains, Pow2, Selector, InWord;
    Pow2Values();
    Pow2Grows(9, r.intlvBits);
    Pow2Twice(9);
    a := AddressAt(r, 256, 0);
    forall m: Byte
      ensures !Contains(r.(intlvMatch := m), a)
    {
      NotMatched(r, m, a);
    }
  }

  lemma NotMatched(r: AddressRange, m: Byte, a: Addr)
    requires InWord(r) && Selector(r, a) >= 256
    ensures !Contains(r.(intlvMatch := m), a)
  {
    hide Contains, Slice, Xor, Pow2;
    ContainsBySelector(r.(intlvMatch := m), a);
  }

  // ---- Constructors ----

  /** 1 << n in a signed 32-bit word. */
  function One32(n: nat): int {
    if n % 32 == 31 then 0 - Pow2(31) else Pow2(n % 32)
  }

  lemma One32Small(n: nat)
    ensures n < 31 ==> One32(n) == Pow2(n)
  {
    hide Pow2;
  }

  /** The two slices overlap. */
  predicate TooClose(high: Byte, xorHigh: Byte, width: Byte) {
    xorHigh < high + width && high < xorHigh + width
  }

  lemma ApartIsSeparated(r: AddressRange)
    ensures r.intlvHighBit < 64 && r.xorHighBit < 64 && r.xorHighBit != r.intlvHighBit ==> Separated(r)
    ensures !r.Hashed() ==> Separated(r)
  {
  }

  /** The sanity checks of the constructor refuse these arguments. */
  predicate Refused(intlvHighBit: Byte, xorHighBit: Byte, intlvBits: Byte, intlvMatch: Byte) {
    intlvBits > 0 && (intlvMatch >= One32(intlvBits) || (xorHighBit > 0 && TooClose(intlvHighBit, xorHighBit, intlvBits)))
  }

  /** The constructor with its sanity checks; a failed one is None. */
  method Create(start: Addr, end: Addr, intlvHighBit: Byte, xorHighBit: Byte, intlvBits: Byte, intlvMatch: Byte)
    returns (r: Option<AddressRange>)
    ensures r == if Refused(intlvHighBit, xorHighBit, intlvBits, intlvMatch) then None
                 else Some(AddressRange(start, end, intlvHighBit, xorHighBit, intlvBits, intlvMatch))
    ensures intlvHighBit < 64 && xorHighBit < 64 && r.Some? ==> Separated(r.value)
    ensures 0 < intlvBits < 31 && r.Some? ==> intlvMatch < Pow2(intlvBits)
    ensures r.Some? && 0 < intlvBits <= intlvHighBit + 1 <= 64 && (xorHighBit > 0 ==> intlvBits <= xorHighBit + 1 <= 64) ==>
      InWord(r.value) || intlvBits == 64
  {
    hide Pow2, One32, Separated;
    One32Small(intlvBits);
    ApartIsSeparated(AddressRange(start, end, intlvHighBit, xorHighBit, intlvBits, intlvMatch));
    var range := AddressRange(start, end, intlvHighBit, xorHighBit, intlvBits, intlvMatch);
    if intlvBits > 0 && intlvMatch >= One32(intlvBits) {
      return None;
    }
    if intlvBits > 0 && xorHighBit > 0 {
      if xorHighBit == intlvHighBit {
        return None;
      } else if xorHighBit > intlvHighBit {
        if xorHighBit - intlvHighBit < intlvBits {
          return None;
        }
      } else {
        if intlvHighBit - xorHighBit < intlvBits {
          return None;
        }
      }
    }
    return Some(range);
  }

  /** As many ranges as there are match values, alike but for the match, and in its order as an 8-bit count. */
  predicate Mergeable(ranges: seq<AddressRange>) {
    ranges != [] ==>
      && |ranges| == One32(ranges[0].intlvBits)
      && forall i :: 0 <= i < |ranges| ==> ranges[0].MergesWith(ranges[i]) && ranges[i].intlvMatch == i % 256
  }

  function Merged(ranges: seq<AddressRange>): AddressRange {
    if ranges == [] then AddressRange(1, 0, 0, 0, 0, 0)
    else AddressRange(ranges[0].start, ranges[0].end, 0, 0, 0, 0)
  }

  lemma NextMatch(i: nat)
    ensures (i + 1) % 256 == (i % 256 + 1) % 256
  {
  }

  method Merge(ranges: seq<AddressRange>) returns (r: Option<AddressRange>)
    ensures r == if Mergeable(ranges) then Some(Merged(ranges)) else None
  {
    hide One32;
    var range := AddressRange(1, 0, 0, 0, 0, 0);
    if |ranges| > 0 {
      range := ranges[0].(intlvMatch := 0);
      if |ranges| != One32(range.intlvBits) {
        return None;
      }
      var matched: Byte := 0;
      for i := 0 to |ranges|
        invariant matched == i % 256
        invariant forall j :: 0 <= j < i ==> ranges[0].MergesWith(ranges[j]) && ranges[j].intlvMatch == j % 256
      {
        if !range.MergesWith(ranges[i]) || ranges[i].intlvMatch != matched {
          return None;
        }
        NextMatch(i);
        matched := (matched + 1) % 256;
      }
      range := range.(intlvHighBit := 0, xorHighBit := 0, intlvBits := 0);
    }
    return Some(range);
  }

  /** The merged range contains exactly what the ranges contain together. */
  lemma MergedIsUnion(ranges: seq<AddressRange>, a: Addr)
    requires Mergeable(ranges) && (ranges != [] ==> ranges[0].intlvBits <= 8)
    ensures Contains(Merged(ranges), a) <==> exists i :: 0 <= i < |ranges| && Contains(ranges[i], a)
  {
    hide Pow2, Bits, Xor;
    if ranges != [] {
      var r := ranges[0];
      Partition(r, a);
      forall i | 0 <= i < |ranges| && Contains(ranges[i], a)
        ensures Contains(Merged(ranges), a)
      {
        assert r.MergesWith(ranges[i]);
      }
      if Contains(Merged(ranges), a) {
        var m: Byte :| Owns(r, m, a);
        assert ranges[m] == r.(intlvMatch := m);
      }
    }
  }

  /** With more than eight interleaving bits the count wraps and the merged range claims more than the union. */
  lemma MergedExceedsUnion(ranges: seq<AddressRange>)
    requires Mergeable(ranges) && ranges != [] && ranges[0].start == 0 && ranges[0].end == ALL_ONES
    requires InWord(ranges[0]) && 9 <= ranges[0].intlvBits
    ensures exists a: Addr :: Contains(Merged(ranges), a) && forall i :: 0 <= i < |ranges| ==> !Contains(ranges[i], a)
  {
    hide Pow2, Contains, InWord;
    var r := ranges[0];
    var a := MatchTooNarrow(r);
    forall i | 0 <= i < |ranges|
      ensures !Contains(ranges[i], a)
    {
      assert r.MergesWith(ranges[i]);
      assert ranges[i] == r.(intlvMatch := ranges[i].intlvMatch);
    }
    MergedContains(ranges, a);
  }

  lemma MergedContains(ranges: seq<AddressRange>, a: Addr)
    requires ranges != []
    ensures Contains(Merged(ranges), a) <==> ranges[0].start <= a <= ranges[0].end
  {
  }
}
