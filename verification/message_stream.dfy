/** Length-prefixed messages in a byte file, the lengths written as base 128 varints. */
module MessageStream {
  import opened BitOps
  import opened Wrappers

  // ---- Varints ----

  /** Seven bits per byte, lowest first, the top bit set on all bytes but the last. */
  function Varint(value: nat): (s: seq<Byte>)
    ensures |s| >= 1
  {
    if value < 128 then [value] else [128 + value % 128] + Varint(value / 128)
  }

  /** What reading a varint makes of a file: its end, a value, or too many bytes; and the bytes left after it. */
  datatype VarintRead = EndOfFile | Value(value: int, rest: seq<Byte>) | TooLong(rest: seq<Byte>)

  const MASK: nat := 0xffff_ffff

  /** The 32 low bits of what was read, with all bits above them set if the whole does not fit in 63 bits. */
  function Truncated(result: nat): int {
    var low := result % (MASK + 1);
    if result > 0x7fff_ffff_ffff_ffff then low - (MASK + 1) else low
  }

  function ReadVarint(file: seq<Byte>, shift: nat, result: nat): (r: VarintRead)
    ensures r.Value? ==> |r.rest| < |file|
  {
    if file == [] then EndOfFile
    else
      var result' := result + (file[0] % 128) * Pow2(shift);
      if file[0] < 128 then Value(Truncated(result'), file[1..])
      else if shift + 7 >= 64 then TooLong(file[1..])
      else ReadVarint(file[1..], shift + 7, result')
  }

  /** The varint of a number: its digits to the base 128, as many as it needs, lowest first. */
  lemma {:induction false} VarintBytes(value: nat)
    ensures
      var s := Varint(value);
      && value < Pow2(7 * |s|) && (|s| > 1 ==> value >= Pow2(7 * (|s| - 1)))
      && forall k :: 0 <= k < |s| ==> s[k] == Slice(value, 7 * k, 7) + (if k + 1 < |s| then 128 else 0)
  {
    hide Pow2, Slice;
    Pow2Values();
    FirstDigit(value);
    if value >= 128 {
      VarintBytes(value / 128);
      var s, rest := Varint(value), Varint(value / 128);
      forall k | 0 <= k < |s|
        ensures s[k] == Slice(value, 7 * k, 7) + (if k + 1 < |s| then 128 else 0)
      {
        if k > 0 {
          NextDigit(value, k);
          assert s[k] == rest[k - 1];
        }
      }
      Pow2Add(7, 7 * |rest|);
      Pow2Add(7, 7 * (|rest| - 1));
      HighBounds(value, Pow2(7 * |rest|), Pow2(7 * (|rest| - 1)));
    }
  }

  lemma FirstDigit(value: nat)
    ensures Slice(value, 0, 7) == value % 128
  {
    hide Pow2;
    Pow2Values();
    Unique(value, 0, value, 0);
  }

  lemma NextDigit(value: nat, k: nat)
    requires k > 0
    ensures Slice(value, 7 * k, 7) == Slice(value / 128, 7 * (k - 1), 7)
  {
    hide Pow2;
    Pow2Values();
    SplitLow(value, 7, 7 * (k - 1));
  }

  lemma HighBounds(value: nat, above: nat, below: nat)
    ensures value / 128 < above ==> value < 128 * above
    ensures value / 128 >= below ==> value >= 128 * below
  {
  }

  /** What the reader makes of the varint of any number, the reader having come as far as the given shift. */
  lemma {:induction false} ReadWritten(value: nat, shift: nat, result: nat, rest: seq<Byte>)
    requires shift % 7 == 0 && shift < 70
    ensures var r := ReadVarint(Varint(value) + rest, shift, result);
      if value < Pow2(70 - shift) then r == Value(Truncated(result + value * Pow2(shift)), rest) else r.TooLong?
  {
    hide Truncated, Pow2, ReadVarint;
    Pow2Values();
    if value < 128 {
      ReadLast(value, shift, result, rest);
      Pow2Grows(7, 70 - shift);
    } else {
      VarintContinues(value, rest);
      ReadNext(value % 128, Varint(value / 128) + rest, shift, result);
      if shift != 63 {
        var result' := result + (value % 128) * Pow2(shift);
        ReadWritten(value / 128, shift + 7, result', rest);
        NextShift(value, shift, result);
      }
    }
  }

  lemma VarintContinues(value: nat, rest: seq<Byte>)
    requires value >= 128
    ensures Varint(value) + rest == [128 + value % 128] + (Varint(value / 128) + rest)
  {
  }

  lemma ReadLast(value: nat, shift: nat, result: nat, rest: seq<Byte>)
    requires value < 128
    ensures ReadVarint(Varint(value) + rest, shift, result) == Value(Truncated(result + value * Pow2(shift)), rest)
  {
    hide Pow2, Truncated;
    var file := Varint(value) + rest;
    assert file[0] == value && file[1..] == rest;
  }

  lemma ReadNext(low: nat, rest: seq<Byte>, shift: nat, result: nat)
    requires low < 128
    ensures ReadVarint([128 + low] + rest, shift, result) ==
      if shift + 7 >= 64 then TooLong(rest) else ReadVarint(rest, shift + 7, result + low * Pow2(shift))
  {
    hide Pow2, Truncated;
    var file: seq<Byte> := [128 + low] + rest;
    assert file[0] == 128 + low && file[1..] == rest;
  }

  /** Seven bits taken off the value are seven bits added to the result. */
  lemma NextShift(value: nat, shift: nat, result: nat)
    requires shift <= 63
    ensures value < Pow2(70 - shift) <==> value / 128 < Pow2(63 - shift)
    ensures result + (value % 128) * Pow2(shift) + (value / 128) * Pow2(shift + 7) == result + value * Pow2(shift)
  {
    hide Pow2;
    Pow2Values();
    Pow2Add(7, 63 - shift);
    Pow2Add(7, shift);
    ShiftSplits(value, Pow2(shift));
  }

  lemma ShiftSplits(value: nat, p: nat)
    ensures value * p == (value % 128) * p + (value / 128) * (128 * p)
  {
    assert value == value % 128 + 128 * (value / 128);
  }

  /** Decoding takes exactly the bytes written; it gives the value back if and only if that has at most 32 bits. */
  lemma VarintRoundTrip(value: nat, rest: seq<Byte>)
    ensures var r := ReadVarint(Varint(value) + rest, 0, 0);
      && (value < 0x40_0000_0000_0000_0000 ==> r == Value(Truncated(value), rest))
      && (value >= 0x40_0000_0000_0000_0000 ==> r.TooLong?)
      && (r == Value(value, rest) <==> value < 0x1_0000_0000)
  {
    hide Pow2, Varint, ReadVarint;
    ReadWritten(value, 0, 0, rest);
    Pow2Values();
  }

  /** The number that the low seven bits of each byte make up, lowest first. */
  function Number(s: seq<Byte>): nat {
    if s == [] then 0 else s[0] % 128 + 128 * Number(s[1..])
  }

  /** The bytes up to position k go on, if they have their top bit set. */
  predicate GoesOn(file: seq<Byte>, k: nat) {
    k <= |file| && forall i :: 0 <= i < k ==> file[i] >= 128
  }

  /**
   * What the reader makes of any file: the number of the bytes up to the first without top bit, if that is among the first ten,
   * with its 32 low bits, and less 2^32 if it does not fit in 63 bits. Ten bytes that all go on are an error, and fewer the end.
   */
  lemma ReadsVarint(file: seq<Byte>, k: nat)
    requires GoesOn(file, k) && k <= 10
    ensures
      var r, v := ReadVarint(file, 0, 0), if k < |file| then Number(file[..k + 1]) else 0;
      && (k == 10 ==> r == TooLong(file[10..]))
      && (k == |file| && k < 10 ==> r == EndOfFile)
      && (k < 10 && k < |file| && file[k] < 128 ==>
            r == Value(v % 0x1_0000_0000 - (if v >= 0x8000_0000_0000_0000 then 0x1_0000_0000 else 0), file[k + 1..]))
  {
    hide Pow2, Truncated, ReadVarint, Number;
    Pow2Values();
    ReadsOn(file, k, 0, 0);
    assert Reads(file, k, 0, 0);
    if k < 10 && k < |file| && file[k] < 128 {
      assert Pow2(0) * Number(file[..k + 1]) == Number(file[..k + 1]);
      TruncatedIs(Number(file[..k + 1]));
    }
  }

  lemma TruncatedIs(v: nat)
    ensures Truncated(v) == v % 0x1_0000_0000 - (if v >= 0x8000_0000_0000_0000 then 0x1_0000_0000 else 0)
  {
  }

  lemma {:induction false} ReadsOn(file: seq<Byte>, k: nat, shift: nat, result: nat)
    requires GoesOn(file, k) && shift % 7 == 0 && shift <= 63 && 7 * k + shift <= 70
    ensures Reads(file, k, shift, result)
    decreases k
  {
    hide Pow2, Truncated, ReadVarint, Number, Reads;
    if k == 0 {
      ReadsEnd(file, shift, result);
    } else {
      if shift < 63 {
        assert forall i :: 0 <= i < k - 1 ==> file[1..][i] == file[i + 1];
        ReadsOn(file[1..], k - 1, shift + 7, result + (file[0] % 128) * Pow2(shift));
      }
      ReadsMore(file, k, shift, result);
    }
  }

  predicate Reads(file: seq<Byte>, k: nat, shift: nat, result: nat)
    requires k <= |file|
  {
    var r := ReadVarint(file, shift, result);
    && (7 * k + shift == 70 ==> r == TooLong(file[k..]))
    && (k == |file| && 7 * k + shift < 70 ==> r == EndOfFile)
    && (k < |file| && 7 * k + shift < 70 && file[k] < 128 ==>
          r == Value(Truncated(result + Pow2(shift) * Number(file[..k + 1])), file[k + 1..]))
  }

  lemma ReadsEnd(file: seq<Byte>, shift: nat, result: nat)
    requires shift <= 63
    ensures Reads(file, 0, shift, result)
  {
    hide Pow2, Truncated;
    if file != [] {
      assert file[..1][1..] == [] && file[0..] == file;
      assert Number(file[..1]) == file[0] % 128;
      Swapped(file[0] % 128, Pow2(shift));
    }
  }

  lemma Swapped(a: nat, b: nat)
    ensures a * b == b * a
  {
  }

  lemma ReadsMore(file: seq<Byte>, k: nat, shift: nat, result: nat)
    requires 0 < k <= |file| && file[0] >= 128 && shift % 7 == 0 && shift <= 63 && 7 * k + shift <= 70
    requires shift < 63 ==> Reads(file[1..], k - 1, shift + 7, result + (file[0] % 128) * Pow2(shift))
    ensures Reads(file, k, shift, result)
  {
    hide Pow2, Truncated;
    var rest, result' := file[1..], result + (file[0] % 128) * Pow2(shift);
    assert rest[k - 1..] == file[k..];
    if shift < 63 && k < |file| {
      assert file[..k + 1][1..] == rest[..k] && rest[k..] == file[k + 1..];
      Pow2Values();
      Pow2Add(shift, 7);
      DigitsAdd(result, file[0] % 128, Pow2(shift), Number(rest[..k]));
    }
  }

  lemma DigitsAdd(result: nat, low: nat, p: nat, high: nat)
    ensures result + low * p + (p * 128) * high == result + p * (low + 128 * high)
  {
  }

  // ---- Messages ----

  function Frame(payload: seq<Byte>): seq<Byte> {
    Varint(|payload|) + payload
  }

  function WriteAll(payloads: seq<seq<Byte>>): seq<Byte> {
    if payloads == [] then [] else Frame(payloads[0]) + WriteAll(payloads[1..])
  }

  /** How many of the available bytes file.read(size) returns; all of them for a negative size. */
  function Available(size: int, available: nat): (n: nat)
    ensures n <= available
  {
    if 0 <= size <= available then size else available
  }

  /** The payload handed to the message parser, if any, and the bytes left. */
  function ReadMessage(file: seq<Byte>): (r: (Option<seq<Byte>>, seq<Byte>))
    ensures r.0.Some? ==> |r.1| < |file|
  {
    match ReadVarint(file, 0, 0)
    case EndOfFile => (None, [])
    case TooLong(rest) => (None, rest)
    case Value(size, rest) =>
      var n := Available(size, |rest|);
      if size == 0 then (None, rest) else (Some(rest[..n]), rest[n..])
  }

  /** The payloads a reader gets before the first message that cannot be read. */
  function ReadAll(file: seq<Byte>): seq<seq<Byte>>
    decreases |file|
  {
    var (message, rest) := ReadMessage(file);
    if message.None? then [] else [message.value] + ReadAll(rest)
  }

  predicate Framable(payload: seq<Byte>) {
    0 < |payload| <= MASK
  }

  /** A payload too long for the prefix is cut to its length's 32 low bits. */
  lemma ReadFrame(payload: seq<Byte>, rest: seq<Byte>)
    requires |payload| < 0x8000_0000_0000_0000
    ensures var r := ReadMessage(Frame(payload) + rest);
      if Framable(payload) then r == (Some(payload), rest)
      else r.0 != Some(payload)
  {
    hide Varint, ReadVarint;
    assert Frame(payload) + rest == Varint(|payload|) + (payload + rest);
    VarintRoundTrip(|payload|, payload + rest);
    if Framable(payload) {
      assert (payload + rest)[..|payload|] == payload && (payload + rest)[|payload|..] == rest;
    }
  }

  /** A list of payloads is read back unchanged if and only if each is non-empty and has a 32-bit length. */
  lemma {:induction false} StreamRoundTrip(payloads: seq<seq<Byte>>)
    requires forall p :: p in payloads ==> |p| < 0x8000_0000_0000_0000
    ensures ReadAll(WriteAll(payloads)) == payloads <==> forall p :: p in payloads ==> Framable(p)
  {
    hide Frame, ReadMessage, Framable;
    if payloads == [] {
      EmptyFile();
    } else {
      var head, tail := payloads[0], payloads[1..];
      var file := WriteAll(payloads);
      assert payloads == [head] + tail;
      ReadFrame(head, WriteAll(tail));
      if Framable(head) {
        StreamRoundTrip(tail);
        assert ReadAll(file) == [head] + ReadAll(WriteAll(tail));
        assert ReadAll(file)[1..] == ReadAll(WriteAll(tail));
        assert (forall p :: p in tail ==> Framable(p)) <==> (forall p :: p in payloads ==> Framable(p));
      } else {
        assert ReadAll(file) == [] || Some(ReadAll(file)[0]) == ReadMessage(file).0;
        assert head in payloads;
      }
    }
  }

  lemma EmptyFile()
    ensures ReadAll([]) == []
  {
  }

  // ---- The file operations ----

  class ByteFile {
    var data: seq<Byte>
    var pos: nat

    ghost predicate Valid()
      reads this
    {
      pos <= |data|
    }

    function Rest(): seq<Byte>
      requires Valid()
      reads this
    {
      data[pos..]
    }

    constructor (data: seq<Byte>)
      ensures Valid() && this.data == data && pos == 0
    {
      this.data, pos := data, 0;
    }

    method Read(size: int) returns (bytes: seq<Byte>)
      requires Valid()
      modifies this`pos
      ensures Valid()
      ensures var n := Available(size, |old(Rest())|);
        bytes == old(Rest())[..n] && Rest() == old(Rest())[n..]
    {
      var n := Available(size, |data| - pos);
      bytes := data[pos..pos + n];
      pos := pos + n;
    }

    method Write(bytes: seq<Byte>)
      modifies this`data
      ensures data == old(data) + bytes
    {
      data := data + bytes;
    }
  }

  /** The seven low bits of a number, by the writer's mask and shift, and what is left. */
  lemma TakeBits(value: nat)
    ensures And(value, 0x7f) < 128 && value == And(value, 0x7f) + 128 * High(value, 7) && Or(0x80, And(value, 0x7f)) == 128 + And(value, 0x7f)
    ensures High(value, 7) > 0 ==>
      Varint(value) == [128 + And(value, 0x7f)] + Varint(High(value, 7)) && High(value, 7) < value
    ensures High(value, 7) == 0 ==> Varint(value) == [And(value, 0x7f)]
  {
    hide And, Or, Pow2;
    Pow2Values();
    AndMask(value, 7);
    OrDisjoint(And(value, 0x7f), 1, 7);
  }

  method EncodeVarint32(file: ByteFile, value: nat)
    modifies file`data
    ensures file.data == old(file.data) + Varint(value)
  {
    hide And, Or, High, Varint;
    TakeBits(value);
    var bits: Byte := And(value, 0x7f);
    var left := High(value, 7);
    while left != 0
      invariant bits < 128 && Or(0x80, bits) == 128 + bits
      invariant file.data + (if left > 0 then [128 + bits] + Varint(left) else [bits]) == old(file.data) + Varint(value)
      decreases left
    {
      TakeBits(left);
      file.Write([Or(0x80, bits)]);
      bits := And(left, 0x7f);
      left := High(left, 7);
    }
    file.Write([bits]);
  }

  /** One more byte of a varint, by the reader's masks and shifts. */
  lemma AppendBits(result: nat, b: Byte, shift: nat)
    requires result < Pow2(shift)
    ensures And(b, 0x7f) * Pow2(shift) >= 0
    ensures Or(result, And(b, 0x7f) * Pow2(shift)) == result + (b % 128) * Pow2(shift) < Pow2(shift + 7)
    ensures And(b, 0x80) == 0 <==> b < 128
  {
    hide And, Or, Pow2;
    Pow2Values();
    AndMask(b, 7);
    AndBit(b, 7);
    OrDisjoint(result, b % 128, shift);
    Stacked(result, Pow2(shift), b % 128, 128);
    MulMonotone(Pow2(shift), 0, b % 128);
    Pow2Add(shift, 7);
  }

  /** The value read and the number of bytes it took, (0, 0) at the end of the file; None is the IOError. */
  method DecodeVarint32(file: ByteFile) returns (r: Option<(int, nat)>)
    requires file.Valid()
    modifies file`pos
    ensures file.Valid()
    ensures match ReadVarint(old(file.Rest()), 0, 0)
      case EndOfFile => r == Some((0, 0)) && file.Rest() == []
      case TooLong(rest) => r == None && file.Rest() == rest
      case Value(value, rest) => r == Some((value, file.pos - old(file.pos))) && file.Rest() == rest
  {
    hide And, Or, Pow2;
    Pow2Values();
    var result: nat, shift: nat, pos: nat := 0, 0, 0;
    while true
      invariant file.Valid() && file.pos == old(file.pos) + pos
      invariant shift < 64 && result < Pow2(shift)
      invariant ReadVarint(file.Rest(), shift, result) == ReadVarint(old(file.Rest()), 0, 0)
      decreases |file.data| - file.pos
    {
      var c := file.Read(1);
      if |c| == 0 {
        return Some((0, 0));
      }
      var b := c[0];
      AppendBits(result, b, shift);
      result := Or(result, And(b, 0x7f) * Pow2(shift));
      pos := pos + 1;
      if And(b, 0x80) == 0 {
        var value: int;
        if result > 0x7fff_ffff_ffff_ffff {
          // Python's | with the complement of the mask: the low bits kept, all others set.
          value := (result - 0x1_0000_0000_0000_0000) % (MASK + 1) - (MASK + 1);
        } else {
          AndMask(result, 32);
          value := And(result, MASK);
        }
        return Some((value, pos));
      }
      shift := shift + 7;
      if shift >= 64 {
        return None;
      }
    }
  }

  /** The payload for the parser, or None for the answer False. */
  method DecodeMessage(file: ByteFile) returns (message: Option<seq<Byte>>)
    requires file.Valid()
    modifies file`pos
    ensures file.Valid() && (message, file.Rest()) == ReadMessage(old(file.Rest()))
  {
    hide ReadVarint;
    var r := DecodeVarint32(file);
    if r.None? || r.value.0 == 0 {
      return None;
    }
    var buf := file.Read(r.value.0);
    return Some(buf);
  }

  method EncodeMessage(file: ByteFile, payload: seq<Byte>)
    modifies file`data
    ensures file.data == old(file.data) + Varint(|payload|) + payload
  {
    EncodeVarint32(file, |payload|);
    file.Write(payload);
  }

  /** The readers' loop: messages until one cannot be read. */
  method DecodeAll(file: ByteFile) returns (messages: seq<seq<Byte>>)
    requires file.Valid()
    modifies file`pos
    ensures messages == ReadAll(old(file.Rest()))
  {
    hide ReadMessage;
    messages := [];
    var message := DecodeMessage(file);
    while message.Some?
      invariant file.Valid()
      invariant messages + (if message.Some? then [message.value] + ReadAll(file.Rest()) else []) == ReadAll(old(file.Rest()))
      decreases message.Some?, |file.Rest()|
    {
      messages := messages + [message.value];
      message := DecodeMessage(file);
    }
  }
}
