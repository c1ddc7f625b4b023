/** Bytes, base-128 varints and fixed-width integers, as the protocol-buffer
    wire format lays them out ("Base 128 Varints" of the Protocol Buffers
    encoding document), together with the reader a receiver runs. */
module Wire {

  type Byte = b: int | 0 <= b < 0x100

  const TWO_32: int := 0x1_0000_0000
  const TWO_63: int := 0x8000_0000_0000_0000
  const TWO_64: int := 0x1_0000_0000_0000_0000

  type Bits32 = n: int | 0 <= n < TWO_32
  type Bits64 = n: int | 0 <= n < TWO_64

  /** What a reader makes of the front of a byte string. */
  datatype Read<+T> = Malformed | Got(value: T, rest: seq<Byte>)

  // ----- varints ------------------------------------------------------------

  function Varint(value: nat): (bytes: seq<Byte>)
    ensures 1 <= |bytes| <= 1 + value
  {
    if value < 0x80 then [value] else [value % 0x80 + 0x80] + Varint(value / 0x80)
  }

  function ReadVarint(bytes: seq<Byte>): (r: Read<nat>)
    ensures r.Got? ==> |r.rest| < |bytes| && bytes[|bytes| - |r.rest|..] == r.rest
  {
    if bytes == [] then Malformed
    else if bytes[0] < 0x80 then Got(bytes[0], bytes[1..])
    else
      match ReadVarint(bytes[1..])
      case Malformed => Malformed
      case Got(high, rest) => Got(bytes[0] - 0x80 + 0x80 * high, rest)
  }

  lemma {:induction false} VarintRoundTrip(value: nat, rest: seq<Byte>)
    ensures ReadVarint(Varint(value) + rest) == Got(value, rest)
  {
    var bytes := Varint(value) + rest;
    if value < 0x80 {
      assert bytes[1..] == rest;
    } else {
      VarintRoundTrip(value / 0x80, rest);
      assert bytes[1..] == Varint(value / 0x80) + rest;
    }
  }

  /** 0x80 to the power n: what n groups of seven bits can hold. */
  function Groups(n: nat): (p: nat)
    ensures p >= 1
  {
    if n == 0 then 1 else 0x80 * Groups(n - 1)
  }

  lemma {:induction false} GroupsOfConstants()
    ensures Groups(5) == 0x8_0000_0000
    ensures Groups(8) == 0x100_0000_0000_0000
    ensures Groups(9) == TWO_63
    ensures Groups(10) == 64 * TWO_64
  {
    assert Groups(1) == 0x80;
    assert Groups(2) == 0x4000;
    assert Groups(3) == 0x20_0000;
    assert Groups(4) == 0x1000_0000;
    assert Groups(5) == 0x8_0000_0000;
    assert Groups(6) == 0x400_0000_0000;
    assert Groups(7) == 0x2_0000_0000_0000;
    assert Groups(8) == 0x100_0000_0000_0000;
    assert Groups(9) == 0x8000_0000_0000_0000;
  }

  /** A varint takes at most n bytes exactly when its value fits n groups. */
  lemma {:induction false} VarintFits(value: nat, n: nat)
    requires n >= 1
    ensures |Varint(value)| <= n <==> value < Groups(n)
  {
    assert Groups(1) == 0x80 * Groups(0);
    if value < 0x80 {
      GroupsAtLeast(n);
    } else if n == 1 {
    } else {
      VarintFits(value / 0x80, n - 1);
    }
  }

  lemma {:induction false} GroupsAtLeast(n: nat)
    requires n >= 1
    ensures Groups(n) >= 0x80
  {
    if n == 1 {
      assert Groups(1) == 0x80 * Groups(0);
    } else {
      GroupsAtLeast(n - 1);
    }
  }

  /** No byte string read as `value` is shorter than the one written for it. */
  lemma {:induction false} VarintIsMinimal(bytes: seq<Byte>, value: nat)
    requires ReadVarint(bytes) == Got(value, [])
    ensures |Varint(value)| <= |bytes|
  {
    if bytes[0] < 0x80 {
      assert value == bytes[0];
    } else {
      var high := ReadVarint(bytes[1..]).value;
      VarintIsMinimal(bytes[1..], high);
      assert value == bytes[0] - 0x80 + 0x80 * high;
      if value >= 0x80 {
        assert value / 0x80 == high;
      }
    }
  }

  /** Every integer a JavaScript number holds exactly fits eight bytes. */
  lemma {:induction false} SafeVarintLength(value: nat)
    requires value <= 0x20_0000_0000_0000
    ensures |Varint(value)| <= 8
  {
    GroupsOfConstants();
    VarintFits(value, 8);
  }

  // ----- 64-bit two's complement as a varint --------------------------------

  function TwosComplement(value: int): Bits64 {
    value % TWO_64
  }

  function Signed(bits: Bits64): int {
    if bits < TWO_63 then bits else bits - TWO_64
  }

  function Int64(value: int): seq<Byte> {
    if value >= 0 then Varint(value) else Varint(TwosComplement(value))
  }

  /** A negative 64-bit integer is ten bytes, and any 64-bit integer is read back. */
  lemma {:induction false} Int64RoundTrip(value: int, rest: seq<Byte>)
    requires -TWO_63 <= value < TWO_63
    ensures value < 0 ==> |Int64(value)| == 10
    ensures |Int64(value)| <= 10
    ensures ReadVarint(Int64(value) + rest) == Got(TwosComplement(value), rest)
    ensures Signed(TwosComplement(value)) == value
  {
    GroupsOfConstants();
    if value >= 0 {
      assert TwosComplement(value) == value;
      VarintFits(value, 10);
    } else {
      assert TwosComplement(value) == value + TWO_64;
      VarintFits(value + TWO_64, 9);
      VarintFits(value + TWO_64, 10);
    }
    VarintRoundTrip(TwosComplement(value), rest);
  }

  // ----- fixed-width little-endian integers ----------------------------------

  function Fixed(value: nat, width: nat): (bytes: seq<Byte>)
    ensures |bytes| == width
  {
    if width == 0 then [] else [value % 0x100] + Fixed(value / 0x100, width - 1)
  }

  function Bytes(width: nat): (p: nat)
    ensures p >= 1
  {
    if width == 0 then 1 else 0x100 * Bytes(width - 1)
  }

  function ReadFixed(bytes: seq<Byte>): (value: nat)
    ensures value < Bytes(|bytes|)
  {
    if bytes == [] then 0 else bytes[0] + 0x100 * ReadFixed(bytes[1..])
  }

  lemma {:induction false} FixedRoundTrip(value: nat, width: nat)
    requires value < Bytes(width)
    ensures ReadFixed(Fixed(value, width)) == value
  {
    if width > 0 {
      FixedRoundTrip(value / 0x100, width - 1);
      assert Fixed(value, width)[1..] == Fixed(value / 0x100, width - 1);
    }
  }

  lemma {:induction false} BytesOfConstants()
    ensures Bytes(4) == TWO_32 && Bytes(8) == TWO_64
  {
    assert Bytes(1) == 0x100;
    assert Bytes(2) == 0x1_0000;
    assert Bytes(3) == 0x100_0000;
    assert Bytes(4) == 0x1_0000_0000;
    assert Bytes(5) == 0x100_0000_0000;
    assert Bytes(6) == 0x1_0000_0000_0000;
    assert Bytes(7) == 0x100_0000_0000_0000;
    assert Bytes(8) == TWO_64;
  }

  // ----- lowercase hex -------------------------------------------------------

  const HEX_DIGITS: string := "0123456789abcdef"

  function Digit(n: int): char
    requires 0 <= n < 16
  {
    HEX_DIGITS[n]
  }

  predicate IsDigit(c: char) {
    '0' <= c <= '9' || 'a' <= c <= 'f'
  }

  function DigitValue(c: char): (n: int)
    requires IsDigit(c)
    ensures 0 <= n < 16 && Digit(n) == c
  {
    if c <= '9' then c as int - '0' as int else c as int - 'a' as int + 10
  }

  /** The form every trace and span id takes: lowercase hex, two digits a byte. */
  predicate IsHex(s: string) {
    |s| % 2 == 0 && forall i :: 0 <= i < |s| ==> IsDigit(s[i])
  }

  type Hex = s: string | IsHex(s)

  function FromHex(s: Hex): (bytes: seq<Byte>)
    ensures |bytes| == |s| / 2
  {
    if s == "" then [] else [0x10 * DigitValue(s[0]) + DigitValue(s[1])] + FromHex(s[2..])
  }

  function ToHex(bytes: seq<Byte>): (s: Hex)
    ensures |s| == 2 * |bytes|
  {
    if bytes == [] then "" else
      var s := [Digit(bytes[0] / 0x10), Digit(bytes[0] % 0x10)] + ToHex(bytes[1..]);
      DigitsAreDigits();
      s
  }

  lemma DigitsAreDigits()
    ensures forall n | 0 <= n < 16 :: IsDigit(Digit(n))
  {
  }

  lemma {:induction false} HexRoundTrip(s: Hex)
    ensures ToHex(FromHex(s)) == s
  {
    if s != "" {
      var high, low, tail := DigitValue(s[0]), DigitValue(s[1]), s[2..];
      HexRoundTrip(tail);
      var bytes := FromHex(s);
      assert bytes[1..] == FromHex(tail);
      assert bytes[0] == 0x10 * high + low;
      assert bytes[0] / 0x10 == high && bytes[0] % 0x10 == low;
      assert ToHex(bytes) == [Digit(high), Digit(low)] + ToHex(FromHex(tail));
      assert s == [s[0], s[1]] + tail;
    }
  }
}
