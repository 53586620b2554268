/** The physical address mapping of the memory controller and of the multi-channel system. */
module AddressMapping {
  import opened BitOps

  datatype Scheme = Scheme1 | Scheme2 | Scheme3 | Scheme4 | Scheme5 | Scheme6

  /** Field widths; the low bits of an address are dropped in two steps before the fields are taken. */
  datatype Geometry = Geometry(
    scheme: Scheme,
    channelBits: nat, rankBits: nat, bankBits: nat, rowBits: nat, columnHighBits: nat,
    byteOffsetBits: nat, columnLowBits: nat)

  datatype Location = Location(channel: nat, rank: nat, bank: nat, row: nat, column: nat)

  datatype Field = Channel | Rank | Bank | Row | Column

  function Width(g: Geometry, f: Field): nat {
    match f
    case Channel => g.channelBits
    case Rank => g.rankBits
    case Bank => g.bankBits
    case Row => g.rowBits
    case Column => g.columnHighBits
  }

  /** The fields of an address from the low bits up. */
  function Order(s: Scheme): (fs: seq<Field>)
    ensures |fs| == 5
  {
    match s
    case Scheme1 => [Bank, Column, Row, Rank, Channel]
    case Scheme2 => [Rank, Bank, Column, Row, Channel]
    case Scheme3 => [Row, Column, Bank, Rank, Channel]
    case Scheme4 => [Column, Row, Bank, Rank, Channel]
    case Scheme5 => [Bank, Rank, Column, Row, Channel]
    case Scheme6 => [Column, Rank, Bank, Row, Channel]
  }

  function Get(l: Location, f: Field): nat {
    match f
    case Channel => l.channel
    case Rank => l.rank
    case Bank => l.bank
    case Row => l.row
    case Column => l.column
  }

  function Set(l: Location, f: Field, v: nat): Location {
    match f
    case Channel => l.(channel := v)
    case Rank => l.(rank := v)
    case Bank => l.(bank := v)
    case Row => l.(row := v)
    case Column => l.(column := v)
  }

  const ORIGIN := Location(0, 0, 0, 0, 0)

  /** The fields fs taken off the low end of x in turn, everything else as in l. */
  function Take(g: Geometry, fs: seq<Field>, x: nat, l: Location): Location
    decreases |fs|
  {
    if fs == [] then l
    else Take(g, fs[1..], High(x, Width(g, fs[0])), Set(l, fs[0], Low(x, Width(g, fs[0]))))
  }

  /** The number whose low fields are those of l. */
  function Pack(g: Geometry, fs: seq<Field>, l: Location): nat {
    if fs == [] then 0
    else Low(Get(l, fs[0]), Width(g, fs[0])) + Pow2(Width(g, fs[0])) * Pack(g, fs[1..], l)
  }

  function Bits(g: Geometry, fs: seq<Field>): nat {
    if fs == [] then 0 else Width(g, fs[0]) + Bits(g, fs[1..])
  }

  predicate InRange(g: Geometry, l: Location) {
    forall f: Field :: Get(l, f) < Pow2(Width(g, f))
  }

  /** The line of memory an address belongs to: the address without its dropped low bits. */
  function LineOf(g: Geometry, address: nat): nat {
    High(High(address, g.byteOffsetBits), g.columnLowBits)
  }

  function Decode(g: Geometry, address: nat): (l: Location)
    ensures InRange(g, l)
  {
    TakeInRange(g, Order(g.scheme), LineOf(g, address), ORIGIN);
    Take(g, Order(g.scheme), LineOf(g, address), ORIGIN)
  }

  function Encode(g: Geometry, l: Location): nat {
    Pack(g, Order(g.scheme), l) * Pow2(g.columnLowBits) * Pow2(g.byteOffsetBits)
  }

  lemma {:induction false} TakeInRange(g: Geometry, fs: seq<Field>, x: nat, l: Location)
    requires forall f: Field :: f !in fs ==> Get(l, f) < Pow2(Width(g, f))
    ensures InRange(g, Take(g, fs, x, l))
    decreases |fs|
  {
    if fs != [] {
      var w := Width(g, fs[0]);
      var l' := Set(l, fs[0], Low(x, w));
      forall f: Field | f !in fs[1..]
        ensures Get(l', f) < Pow2(Width(g, f))
      {
        if f != fs[0] {
          assert f !in fs;
        }
      }
      TakeInRange(g, fs[1..], High(x, w), l');
    }
  }

  predicate Distinct(fs: seq<Field>) {
    forall i, j :: 0 <= i < j < |fs| ==> fs[i] != fs[j]
  }

  lemma {:induction false} TakeKeeps(g: Geometry, fs: seq<Field>, x: nat, l: Location, f: Field)
    requires f !in fs
    ensures Get(Take(g, fs, x, l), f) == Get(l, f)
    decreases |fs|
  {
    if fs != [] {
      var w := Width(g, fs[0]);
      TakeKeeps(g, fs[1..], High(x, w), Set(l, fs[0], Low(x, w)), f);
    }
  }

  /** Packing what has been taken gives the low part of the number back. */
  lemma {:induction false} PackTake(g: Geometry, fs: seq<Field>, x: nat, l: Location)
    requires Distinct(fs)
    ensures Pack(g, fs, Take(g, fs, x, l)) == Low(x, Bits(g, fs))
    decreases |fs|
  {
    if fs == [] {
      Unique(x, 0, x, 0);
    } else {
      var w, rest := Width(g, fs[0]), fs[1..];
      var l' := Set(l, fs[0], Low(x, w));
      PackTake(g, rest, High(x, w), l');
      TakeKeeps(g, rest, High(x, w), l', fs[0]);
      Unique(Low(x, w), w, 0, Low(x, w));
      SplitLow(x, w, Bits(g, rest));
    }
  }

  /** Taking what has been packed gives the fields back. */
  lemma {:induction false} TakePack(g: Geometry, fs: seq<Field>, l: Location, base: Location)
    requires InRange(g, l)
    requires forall f: Field :: f !in fs ==> Get(base, f) == Get(l, f)
    ensures Take(g, fs, Pack(g, fs, l), base) == l
    decreases |fs|
  {
    if fs == [] {
      assert Get(base, Channel) == Get(l, Channel) && Get(base, Rank) == Get(l, Rank) && Get(base, Bank) == Get(l, Bank)
          && Get(base, Row) == Get(l, Row) && Get(base, Column) == Get(l, Column);
    } else {
      var w, v := Width(g, fs[0]), Get(l, fs[0]);
      Unique(v, w, 0, v);
      Unique(Pack(g, fs, l), w, Pack(g, fs[1..], l), v);
      var base' := Set(base, fs[0], v);
      forall f: Field | f !in fs[1..]
        ensures Get(base', f) == Get(l, f)
      {
        if f != fs[0] {
          assert f !in fs;
        }
      }
      TakePack(g, fs[1..], l, base');
    }
  }

  lemma {:induction false} PackBound(g: Geometry, fs: seq<Field>, l: Location)
    ensures Pack(g, fs, l) < Pow2(Bits(g, fs))
  {
    if fs != [] {
      var p, k, b := Pow2(Width(g, fs[0])), Pack(g, fs[1..], l), Pow2(Bits(g, fs[1..]));
      PackBound(g, fs[1..], l);
      Pow2Add(Width(g, fs[0]), Bits(g, fs[1..]));
      Stacked(Low(Get(l, fs[0]), Width(g, fs[0])), p, k, b);
    }
  }

  lemma OrderCovers(s: Scheme, f: Field)
    ensures f in Order(s) && Distinct(Order(s))
  {
    match s
    case Scheme1 => assert Order(s) == [Bank, Column, Row, Rank, Channel];
    case Scheme2 => assert Order(s) == [Rank, Bank, Column, Row, Channel];
    case Scheme3 => assert Order(s) == [Row, Column, Bank, Rank, Channel];
    case Scheme4 => assert Order(s) == [Column, Row, Bank, Rank, Channel];
    case Scheme5 => assert Order(s) == [Bank, Rank, Column, Row, Channel];
    case Scheme6 => assert Order(s) == [Column, Rank, Bank, Row, Channel];
  }

  // ---- Where the fields lie ----

  /** The k-th field taken lies above those taken before it. */
  lemma {:induction false} TakeAt(g: Geometry, fs: seq<Field>, x: nat, l: Location, k: nat)
    requires Distinct(fs) && k < |fs|
    ensures Get(Take(g, fs, x, l), fs[k]) == Low(High(x, Bits(g, fs[..k])), Width(g, fs[k]))
    decreases |fs|
  {
    hide High, Low, Pow2;
    var w, rest := Width(g, fs[0]), fs[1..];
    var l' := Set(l, fs[0], Low(x, w));
    if k == 0 {
      TakeKeeps(g, rest, High(x, w), l', fs[0]);
      HighNone(x);
    } else {
      TakeAt(g, rest, High(x, w), l', k - 1);
      assert fs[..k][1..] == rest[..k - 1];
      SplitLow(x, w, Bits(g, rest[..k - 1]));
    }
  }

  lemma HighNone(x: nat)
    ensures High(x, 0) == x
  {
    Unique(x, 0, x, 0);
  }

  /** The field at the k-th place of the order, as a slice of the address. */
  lemma FieldSlice(g: Geometry, address: nat, k: nat)
    requires k < 5
    ensures
      var fs := Order(g.scheme);
      Get(Decode(g, address), fs[k]) == Slice(address, ThrownAway(g) + Bits(g, fs[..k]), Width(g, fs[k]))
  {
    hide Take, Bits;
    var fs := Order(g.scheme);
    OrderCovers(g.scheme, Bank);
    TakeAt(g, fs, LineOf(g, address), ORIGIN, k);
    LineIsHigh(g, address);
    SplitLow(address, ThrownAway(g), Bits(g, fs[..k]));
  }

  /** The bits below the k-th field. */
  lemma BitsBelow(g: Geometry, fs: seq<Field>)
    requires |fs| == 5
    ensures Bits(g, fs[..0]) == 0 && Bits(g, fs[..1]) == Width(g, fs[0])
    ensures Bits(g, fs[..2]) == Width(g, fs[0]) + Width(g, fs[1])
    ensures Bits(g, fs[..3]) == Width(g, fs[0]) + Width(g, fs[1]) + Width(g, fs[2])
    ensures Bits(g, fs[..4]) == Width(g, fs[0]) + Width(g, fs[1]) + Width(g, fs[2]) + Width(g, fs[3])
  {
    hide Width;
    forall k | 1 <= k <= 4
      ensures Bits(g, fs[..k]) == Bits(g, fs[..k - 1]) + Width(g, fs[k - 1])
    {
      BitsSnoc(g, fs[..k - 1], fs[k - 1]);
      assert fs[..k] == fs[..k - 1] + [fs[k - 1]];
    }
  }

  lemma {:induction false} BitsSnoc(g: Geometry, fs: seq<Field>, f: Field)
    ensures Bits(g, fs + [f]) == Bits(g, fs) + Width(g, f)
  {
    if fs != [] {
      assert (fs + [f])[1..] == fs[1..] + [f];
      BitsSnoc(g, fs[1..], f);
    } else {
      assert (fs + [f])[1..] == [];
    }
  }

  /** Which bits of an address make up each field, scheme by scheme. */
  lemma FieldsOf(g: Geometry, a: nat)
    ensures
      var l := Decode(g, a);
      var low := g.byteOffsetBits + g.columnLowBits;
      var (h, k, b, r, c) := (g.channelBits, g.rankBits, g.bankBits, g.rowBits, g.columnHighBits);
      match g.scheme
      case Scheme1 =>
        && l.bank == Slice(a, low, b) && l.column == Slice(a, low + b, c) && l.row == Slice(a, low + b + c, r)
        && l.rank == Slice(a, low + b + c + r, k) && l.channel == Slice(a, low + b + c + r + k, h)
      case Scheme2 =>
        && l.rank == Slice(a, low, k) && l.bank == Slice(a, low + k, b) && l.column == Slice(a, low + k + b, c)
        && l.row == Slice(a, low + k + b + c, r) && l.channel == Slice(a, low + k + b + c + r, h)
      case Scheme3 =>
        && l.row == Slice(a, low, r) && l.column == Slice(a, low + r, c) && l.bank == Slice(a, low + r + c, b)
        && l.rank == Slice(a, low + r + c + b, k) && l.channel == Slice(a, low + r + c + b + k, h)
      case Scheme4 =>
        && l.column == Slice(a, low, c) && l.row == Slice(a, low + c, r) && l.bank == Slice(a, low + c + r, b)
        && l.rank == Slice(a, low + c + r + b, k) && l.channel == Slice(a, low + c + r + b + k, h)
      case Scheme5 =>
        && l.bank == Slice(a, low, b) && l.rank == Slice(a, low + b, k) && l.column == Slice(a, low + b + k, c)
        && l.row == Slice(a, low + b + k + c, r) && l.channel == Slice(a, low + b + k + c + r, h)
      case Scheme6 =>
        && l.column == Slice(a, low, c) && l.rank == Slice(a, low + c, k) && l.bank == Slice(a, low + c + k, b)
        && l.row == Slice(a, low + c + k + b, r) && l.channel == Slice(a, low + c + k + b + r, h)
  {
    hide Slice, Decode, Bits;
    FieldSlice(g, a, 0);
    FieldSlice(g, a, 1);
    FieldSlice(g, a, 2);
    FieldSlice(g, a, 3);
    FieldSlice(g, a, 4);
    BitsBelow(g, Order(g.scheme));
  }

  function ThrownAway(g: Geometry): nat {
    g.byteOffsetBits + g.columnLowBits
  }

  /** The number of address bits the mapping looks at. */
  function LineBits(g: Geometry): nat {
    Bits(g, Order(g.scheme))
  }

  predicate Aligned(g: Geometry, address: nat) {
    Low(address, ThrownAway(g)) == 0
  }

  function Capacity(g: Geometry): nat {
    Pow2(ThrownAway(g) + LineBits(g))
  }

  lemma LineIsHigh(g: Geometry, address: nat)
    ensures LineOf(g, address) == High(address, ThrownAway(g))
  {
    SplitLow(address, g.byteOffsetBits, g.columnLowBits);
  }

  /** Two addresses go to the same location exactly when they lie in the same line, up to whole capacities. */
  lemma SameLocationIff(g: Geometry, a: nat, b: nat)
    ensures Decode(g, a) == Decode(g, b) <==> Low(LineOf(g, a), LineBits(g)) == Low(LineOf(g, b), LineBits(g))
  {
    var fs := Order(g.scheme);
    OrderCovers(g.scheme, Bank);
    PackTake(g, fs, LineOf(g, a), ORIGIN);
    PackTake(g, fs, LineOf(g, b), ORIGIN);
    forall f: Field
      ensures f in fs
    {
      OrderCovers(g.scheme, f);
    }
    TakePack(g, fs, Decode(g, a), ORIGIN);
    TakePack(g, fs, Decode(g, b), ORIGIN);
  }

  lemma LineBelow(address: nat, t: nat, n: nat)
    requires address < Pow2(t + n)
    ensures High(address, t) < Pow2(n)
  {
    Pow2Add(t, n);
    if High(address, t) >= Pow2(n) {
      MulMonotone(Pow2(t), Pow2(n), High(address, t));
    }
  }

  lemma EncodeIs(g: Geometry, l: Location)
    ensures Encode(g, l) == Pow2(ThrownAway(g)) * Pack(g, Order(g.scheme), l)
  {
    Pow2Add(g.byteOffsetBits, g.columnLowBits);
    Reorder(Pack(g, Order(g.scheme), l), Pow2(g.columnLowBits), Pow2(g.byteOffsetBits));
  }

  /** Every aligned address below capacity is found again from its location. */
  lemma EncodeInvertsDecode(g: Geometry, address: nat)
    requires Aligned(g, address) && address < Capacity(g)
    ensures Encode(g, Decode(g, address)) == address
  {
    hide Pow2, Encode, Take, Pack, Bits, Order;
    OrderCovers(g.scheme, Bank);
    PackTake(g, Order(g.scheme), LineOf(g, address), ORIGIN);
    LineIsHigh(g, address);
    LineBelow(address, ThrownAway(g), LineBits(g));
    var h := High(address, ThrownAway(g));
    Unique(h, LineBits(g), 0, h);
    EncodeIs(g, Decode(g, address));
  }

  /** Every location in range is reached by exactly one aligned address below capacity. */
  lemma DecodeInvertsEncode(g: Geometry, l: Location)
    requires InRange(g, l)
    ensures Decode(g, Encode(g, l)) == l && Aligned(g, Encode(g, l)) && Encode(g, l) < Capacity(g)
  {
    hide Pow2, Encode, Take, Pack, Bits, Order;
    var t, n, x := ThrownAway(g), LineBits(g), Pack(g, Order(g.scheme), l);
    EncodeIs(g, l);
    Unique(Encode(g, l), t, x, 0);
    LineIsHigh(g, Encode(g, l));
    PackBound(g, Order(g.scheme), l);
    Pow2Add(t, n);
    Stacked(0, Pow2(t), x, Pow2(n));
    forall f: Field
      ensures f in Order(g.scheme)
    {
      OrderCovers(g.scheme, f);
    }
    TakePack(g, Order(g.scheme), l, ORIGIN);
  }

  /** One field of the mapping code: shift it out, shift the rest back and compare. */
  method TakeField(physicalAddress: nat, width: nat) returns (rest: nat, field: nat)
    ensures rest == High(physicalAddress, width) && field == Low(physicalAddress, width)
  {
    var tempA := physicalAddress;
    rest := High(physicalAddress, width);
    var tempB := rest * Pow2(width);
    XorShifted(tempA, width);
    field := Xor(tempA, tempB);
  }

  /** The mapping code, scheme by scheme; schemes beyond the sixth are refused. */
  method MapAddress(g: Geometry, address: nat) returns (l: Location)
    ensures l == Decode(g, address)
  {
    hide Low, Pow2, InRange;
    var a := High(address, g.byteOffsetBits);
    a := High(a, g.columnLowBits);
    var channel, rank, bank, row, column;
    ghost var x := a;
    match g.scheme {
      case Scheme1 =>
        a, bank := TakeField(a, g.bankBits);
        a, column := TakeField(a, g.columnHighBits);
        a, row := TakeField(a, g.rowBits);
        a, rank := TakeField(a, g.rankBits);
        a, channel := TakeField(a, g.channelBits);
      case Scheme2 =>
        a, rank := TakeField(a, g.rankBits);
        a, bank := TakeField(a, g.bankBits);
        a, column := TakeField(a, g.columnHighBits);
        a, row := TakeField(a, g.rowBits);
        a, channel := TakeField(a, g.channelBits);
      case Scheme3 =>
        a, row := TakeField(a, g.rowBits);
        a, column := TakeField(a, g.columnHighBits);
        a, bank := TakeField(a, g.bankBits);
        a, rank := TakeField(a, g.rankBits);
        a, channel := TakeField(a, g.channelBits);
      case Scheme4 =>
        a, column := TakeField(a, g.columnHighBits);
        a, row := TakeField(a, g.rowBits);
        a, bank := TakeField(a, g.bankBits);
        a, rank := TakeField(a, g.rankBits);
        a, channel := TakeField(a, g.channelBits);
      case Scheme5 =>
        a, bank := TakeField(a, g.bankBits);
        a, rank := TakeField(a, g.rankBits);
        a, column := TakeField(a, g.columnHighBits);
        a, row := TakeField(a, g.rowBits);
        a, channel := TakeField(a, g.channelBits);
      case Scheme6 =>
        a, column := TakeField(a, g.columnHighBits);
        a, rank := TakeField(a, g.rankBits);
        a, bank := TakeField(a, g.bankBits);
        a, row := TakeField(a, g.rowBits);
        a, channel := TakeField(a, g.channelBits);
    }
    l := Location(channel, rank, bank, row, column);
    TakeFive(g, x);
  }

  /** The five fields of an order, written out. */
  lemma TakeFive(g: Geometry, x: nat)
    ensures
      var fs := Order(g.scheme);
      var x1 := High(x, Width(g, fs[0]));
      var x2 := High(x1, Width(g, fs[1]));
      var x3 := High(x2, Width(g, fs[2]));
      var x4 := High(x3, Width(g, fs[3]));
      Take(g, fs, x, ORIGIN)
      == Set(Set(Set(Set(Set(ORIGIN, fs[0], Low(x, Width(g, fs[0]))), fs[1], Low(x1, Width(g, fs[1]))),
                     fs[2], Low(x2, Width(g, fs[2]))), fs[3], Low(x3, Width(g, fs[3]))), fs[4], Low(x4, Width(g, fs[4])))
  {
    hide Low, Pow2, Set, Width, Order;
    var fs := Order(g.scheme);
    var x1 := High(x, Width(g, fs[0]));
    var x2 := High(x1, Width(g, fs[1]));
    var x3 := High(x2, Width(g, fs[2]));
    var x4 := High(x3, Width(g, fs[3]));
    var l1 := Set(ORIGIN, fs[0], Low(x, Width(g, fs[0])));
    var l2 := Set(l1, fs[1], Low(x1, Width(g, fs[1])));
    var l3 := Set(l2, fs[2], Low(x2, Width(g, fs[2])));
    var l4 := Set(l3, fs[3], Low(x3, Width(g, fs[3])));
    assert fs[0..] == fs;
    TakeStep(g, fs, 0, x, ORIGIN);
    TakeStep(g, fs, 1, x1, l1);
    TakeStep(g, fs, 2, x2, l2);
    TakeStep(g, fs, 3, x3, l3);
    TakeStep(g, fs, 4, x4, l4);
    assert fs[5..] == [];
  }

  lemma TakeStep(g: Geometry, fs: seq<Field>, k: nat, x: nat, l: Location)
    requires k < |fs|
    ensures Take(g, fs[k..], x, l)
         == Take(g, fs[k + 1..], High(x, Width(g, fs[k])), Set(l, fs[k], Low(x, Width(g, fs[k]))))
  {
    assert fs[k..][0] == fs[k] && fs[k..][1..] == fs[k + 1..];
  }
}
