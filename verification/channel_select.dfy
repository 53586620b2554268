/** The base-2 logarithm of the configuration and the choice of a channel. */
module ChannelSelect {
  import opened BitOps
  import opened AddressMapping

  /** r is the least number of bits that can count to v. */
  predicate IsCeilingLog(v: nat, r: nat) {
    v <= Pow2(r) && (r > 0 ==> Pow2(r - 1) < v)
  }

  predicate IsPower(v: nat) {
    exists k: nat :: k <= v && v == Pow2(k)
  }

  function FloorLog(v: nat): nat {
    if v <= 1 then 0 else 1 + FloorLog(v / 2)
  }

  /** The 32-bit shift of the source takes only the low five bits of the distance. */
  function Shift32(n: nat): nat {
    Pow2(n % 32)
  }

  function Log2(v: nat): nat {
    var f := FloorLog(v);
    if Shift32(f) < v then f + 1 else f
  }

  lemma {:induction false} FloorLogBounds(v: nat)
    requires v >= 1
    ensures Pow2(FloorLog(v)) <= v < Pow2(FloorLog(v) + 1)
  {
    if v > 1 {
      FloorLogBounds(v / 2);
    }
  }

  lemma {:induction false} Pow2Monotone(a: nat, b: nat)
    ensures a < b ==> Pow2(a) < Pow2(b)
    ensures Pow2(a) > a
    decreases b + a
  {
    if a > 0 && b > 0 {
      Pow2Monotone(a - 1, b - 1);
    } else if b > 1 {
      Pow2Monotone(a, b - 1);
    } else if a > 0 {
      Pow2Monotone(a - 1, b);
    }
  }

  lemma PowerIsFloor(v: nat)
    requires v >= 1
    ensures IsPower(v) <==> v == Pow2(FloorLog(v))
  {
    FloorLogBounds(v);
    var f := FloorLog(v);
    Pow2Monotone(f, f);
    if v == Pow2(f) {
      assert f <= v;
    }
    if IsPower(v) {
      var k: nat :| k <= v && v == Pow2(k);
      Pow2Monotone(k, f);
      Pow2Monotone(f, k);
      Pow2Monotone(f + 1, k);
    }
  }

  const TWO32 := 0x1_0000_0000

  lemma TwoTo32()
    ensures Pow2(32) == TWO32
  {
    hide Pow2;
    Pow2Values();
  }

  lemma SmallLog(v: nat)
    requires 1 <= v < TWO32
    ensures FloorLog(v) < 32
  {
    TwoTo32();
    FloorLogBounds(v);
    var f: nat := FloorLog(v);
    Pow2Monotone(32, f);
  }

  /** The logarithm is the ceiling logarithm except on the powers of two from 2^32 on. */
  lemma Log2CorrectIff(v: nat)
    ensures IsCeilingLog(v, Log2(v)) <==> (v < TWO32 || !IsPower(v))
  {
    hide Pow2;
    if v == 0 {
      Pow2One();
    } else if v < TWO32 {
      SmallLogCorrect(v);
    } else {
      LargeLogCorrectIff(v);
    }
  }

  lemma SmallLogCorrect(v: nat)
    requires 1 <= v < TWO32
    ensures IsCeilingLog(v, Log2(v))
  {
    hide Pow2;
    SmallLog(v);
    FloorLogBounds(v);
    var f := FloorLog(v);
    assert Shift32(f) == Pow2(f);
    if f > 0 {
      Pow2Twice(f);
    }
  }

  lemma LargeLogCorrectIff(v: nat)
    requires v >= TWO32
    ensures IsCeilingLog(v, Log2(v)) <==> !IsPower(v)
  {
    hide Pow2, IsPower;
    TwoTo32();
    var f := FloorLog(v);
    FloorLogBounds(v);
    PowerIsFloor(v);
    Pow2Monotone(f % 32, 32);
    assert Log2(v) == f + 1;
  }

  /** The loop that computes it. */
  method ComputeLog2(value: nat) returns (logbase2: nat)
    ensures logbase2 == Log2(value)
  {
    logbase2 := 0;
    var orig := value;
    var v: nat := value / 2;
    while v > 0
      invariant v == 0 ==> FloorLog(value) == logbase2
      invariant v > 0 ==> FloorLog(value) == logbase2 + 1 + FloorLog(v)
      decreases v
    {
      v := v / 2;
      logbase2 := logbase2 + 1;
    }
    assert logbase2 == FloorLog(value);
    if Shift32(logbase2) < orig {
      logbase2 := logbase2 + 1;
    }
  }

  /** The test compares with a 64-bit shift. */
  method IsPowerOfTwo(x: nat) returns (yes: bool)
    requires x < Pow2(64)
    ensures yes <==> x < TWO32 && IsPower(x)
  {
    var n := ComputeLog2(x);
    yes := Pow2(n % 64) == x;
    PowerTest(x);
  }

  lemma PowerTest(x: nat)
    requires x < Pow2(64)
    ensures Pow2(Log2(x) % 64) == x <==> x < TWO32 && IsPower(x)
  {
    hide Pow2;
    TwoTo32();
    if x == 0 {
      assert !IsPower(0);
    } else if x < TWO32 {
      SmallPowerTest(x);
    } else {
      LargePowerTest(x);
    }
  }

  lemma SmallPowerTest(x: nat)
    requires 1 <= x < TWO32
    ensures Pow2(Log2(x) % 64) == x <==> IsPower(x)
  {
    hide Pow2;
    TwoTo32();
    var f := FloorLog(x);
    FloorLogBounds(x);
    PowerIsFloor(x);
    assert f < 32 by {
      if f >= 32 {
        Pow2Monotone(32, f);
      }
    }
    assert Shift32(f) == Pow2(f);
  }

  /** From 2^32 on the logarithm is one too large for a power, and the 64-bit shift may wrap. */
  lemma LargePowerTest(x: nat)
    requires TWO32 <= x < Pow2(64)
    ensures Pow2(Log2(x) % 64) != x
  {
    hide Pow2;
    TwoTo32();
    Pow2One();
    var f := FloorLog(x);
    FloorLogBounds(x);
    assert 32 <= f < 64 by {
      if f >= 64 {
        Pow2Monotone(64, f);
      }
      if f + 1 <= 32 {
        Pow2Monotone(f + 1, 32);
      }
    }
    Pow2Monotone(f % 32, 32);
    assert Log2(x) == f + 1;
    assert f == 63 ==> Pow2((f + 1) % 64) == 1;
  }

  datatype Channel = Chosen(number: nat) | Refused

  /** The channel of an address: refused exactly when the number of channels is not a small power of two. */
  method FindChannelNumber(g: Geometry, channels: nat, address: nat) returns (c: Channel)
    requires channels < Pow2(64) && g.channelBits == Log2(channels)
    ensures c == if channels < TWO32 && IsPower(channels) then Chosen(Decode(g, address).channel) else Refused
    ensures c.Chosen? ==> c.number < channels
  {
    ChannelsFit(channels);
    var l := Decode(g, address);
    assert Get(l, AddressMapping.Channel) < Pow2(Width(g, AddressMapping.Channel));
    if channels == 1 {
      return Chosen(0);
    }
    var power := IsPowerOfTwo(channels);
    if !power {
      return Refused;
    }
    l := MapAddress(g, address);
    if l.channel >= channels {
      return Refused;
    }
    return Chosen(l.channel);
  }

  lemma ChannelsFit(channels: nat)
    ensures channels < TWO32 && IsPower(channels) ==> Pow2(Log2(channels)) == channels
    ensures channels == 1 ==> Log2(channels) == 0 && Pow2(0) == 1 && IsPower(channels)
  {
    if channels >= 1 {
      Log2CorrectIff(channels);
      PowerIsFloor(channels);
      FloorLogBounds(channels);
      Pow2Monotone(Log2(channels), FloorLog(channels));
      Pow2Monotone(FloorLog(channels), Log2(channels));
      if Log2(channels) > 0 {
        Pow2Monotone(FloorLog(channels), Log2(channels) - 1);
      }
    }
    assert channels == 1 ==> channels == Pow2(0);
  }
}
