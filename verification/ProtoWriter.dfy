/** The hand-written protobuf writer: one growing buffer, in which a sub-message
    is written after a reserved gap that its length is patched into once known. */
module ProtoWriting {
  import opened Wire

  const INITIAL_SIZE: nat := 16 * 1024
  const LENGTH_PREFIX_RESERVE: nat := 5
  const MAX_EXACT_INTEGER: nat := 0x20_0000_0000_0000

  /** The longest body whose length fits the reserved prefix: below 2^35. */
  const PREFIX_LIMIT: nat := 0x8_0000_0000

  const WIRE_VARINT: nat := 0
  const WIRE_FIXED64: nat := 1
  const WIRE_LENGTH_DELIMITED: nat := 2
  const WIRE_FIXED32: nat := 5

  function Key(field: nat, wireType: nat): seq<Byte> {
    Varint(field * 8 + wireType)
  }

  function LengthPrefixed(body: seq<Byte>): seq<Byte> {
    Varint(|body|) + body
  }

  /** `s` with the gap at `prefixAt` closed up around the length of what follows it. */
  function Closed(s: seq<Byte>, prefixAt: nat): seq<Byte>
    requires prefixAt + LENGTH_PREFIX_RESERVE <= |s|
  {
    s[..prefixAt] + LengthPrefixed(s[prefixAt + LENGTH_PREFIX_RESERVE..])
  }

  /** `s` with `bytes` written over it from `at` on. */
  function Overwritten(s: seq<Byte>, at: nat, bytes: seq<Byte>): seq<Byte>
    requires at + |bytes| <= |s|
  {
    s[..at] + bytes + s[at + |bytes|..]
  }

  /** The prefix of a body of `length` bytes fits its reservation exactly below 2^35. */
  lemma PrefixFits(length: nat)
    ensures |Varint(length)| <= LENGTH_PREFIX_RESERVE <==> length < PREFIX_LIMIT
  {
    GroupsOfConstants();
    VarintFits(length, LENGTH_PREFIX_RESERVE);
  }

  /** What `endMessage` leaves of `s` when the innermost gap is at `prefixAt`. */
  function AfterEnd(s: seq<Byte>, prefixAt: nat): seq<Byte>
    requires prefixAt + LENGTH_PREFIX_RESERVE <= |s|
  {
    var length := |s| - prefixAt - LENGTH_PREFIX_RESERVE;
    if length < PREFIX_LIMIT then Closed(s, prefixAt) else Overwritten(s, prefixAt, Varint(length))
  }

  /** That is the length-prefixed body exactly below 2^35 bytes; from there on the
      prefix runs over the first bytes of the body. */
  lemma {:induction false} ClosingIsExact(s: seq<Byte>, prefixAt: nat)
    requires prefixAt + LENGTH_PREFIX_RESERVE <= |s|
    ensures AfterEnd(s, prefixAt) == Closed(s, prefixAt)
            <==> |s| - prefixAt - LENGTH_PREFIX_RESERVE < PREFIX_LIMIT
  {
    var length := |s| - prefixAt - LENGTH_PREFIX_RESERVE;
    PrefixFits(length);
    if length >= PREFIX_LIMIT {
      assert |Overwritten(s, prefixAt, Varint(length))| == |s|;
      assert |Closed(s, prefixAt)| == prefixAt + |Varint(length)| + length;
    }
  }

  /** Patching the length in and closing up behind it gives `AfterEnd`. */
  lemma PatchedAndClosedUp(s: seq<Byte>, prefixAt: nat, length: nat, at: nat)
    requires length == |s| - prefixAt - LENGTH_PREFIX_RESERVE
    requires at == prefixAt + |Varint(length)|
    ensures var patched := Overwritten(s, prefixAt, Varint(length));
      AfterEnd(s, prefixAt)
      == if at < prefixAt + LENGTH_PREFIX_RESERVE
         then patched[..at] + patched[prefixAt + LENGTH_PREFIX_RESERVE..]
         else patched
  {
    PrefixFits(length);
    var patched := Overwritten(s, prefixAt, Varint(length));
    var body := s[prefixAt + LENGTH_PREFIX_RESERVE..];
    if at <= prefixAt + LENGTH_PREFIX_RESERVE {
      assert patched[..at] == s[..prefixAt] + Varint(length);
      assert patched[prefixAt + LENGTH_PREFIX_RESERVE..] == body;
      assert s[..prefixAt] + Varint(length) + body == s[..prefixAt] + (Varint(length) + body);
    }
  }

  lemma OverwrittenByNothing(s: seq<Byte>, at: nat)
    requires at <= |s|
    ensures Overwritten(s, at, []) == s
  {
  }

  lemma VarintUnrolled(value: nat)
    ensures Varint(value) == if value < 0x80 then [value] else [value % 0x80 + 0x80] + Varint(value / 0x80)
  {
  }

  lemma OverwrittenStep(s: seq<Byte>, at: nat, byte: Byte, rest: seq<Byte>)
    requires at + 1 + |rest| <= |s|
    ensures Overwritten(s, at, [byte] + rest) == Overwritten(s[at := byte], at + 1, rest)
  {
    assert s[..at] + [byte] == s[at := byte][..at + 1];
  }

  class ProtoWriter {
    var buffer: array<Byte>
    var position: nat
    var openMessages: seq<nat>

    /** The reserved gaps lie in order, apart, and inside what is written. */
    ghost predicate Valid()
      reads this, buffer
    {
      && position <= buffer.Length
      && 0 < buffer.Length
      && (forall i, j :: 0 <= i < j < |openMessages| ==>
            openMessages[i] + LENGTH_PREFIX_RESERVE <= openMessages[j])
      && (forall i :: 0 <= i < |openMessages| ==>
            openMessages[i] + LENGTH_PREFIX_RESERVE <= position)
    }

    ghost function Contents(): seq<Byte>
      requires Valid()
      reads this, buffer
    {
      buffer[..position]
    }

    constructor ()
      ensures Valid() && fresh(buffer) && buffer.Length == 16384
      ensures Contents() == [] && openMessages == []
    {
      buffer := new Byte[INITIAL_SIZE];
      position := 0;
      openMessages := [];
    }

    method Finish() returns (bytes: seq<Byte>)
      requires Valid()
      ensures bytes == Contents()
    {
      bytes := buffer[..position];
    }

    /** Makes room by doubling; every byte written so far survives the move. */
    method Reserve(bytes: nat)
      requires Valid()
      modifies this`buffer
      ensures Valid() && (buffer == old(buffer) || fresh(buffer))
      ensures Contents() == old(Contents())
      ensures position + bytes <= buffer.Length
      ensures unchanged(old(buffer))
    {
      if position + bytes <= buffer.Length {
        return;
      }
      var size := buffer.Length * 2;
      while size < position + bytes
        invariant size >= buffer.Length * 2
        decreases position + bytes - size
      {
        size := size * 2;
      }
      var grown := new Byte[size];
      forall i | 0 <= i < position {
        grown[i] := buffer[i];
      }
      assert grown[..position] == buffer[..position];
      buffer := grown;
    }

    /** `buffer[position++] = byte`, where there is room for it. */
    method Push(byte: Byte)
      requires Valid() && position < buffer.Length
      modifies this`position, buffer
      ensures Valid() && position == old(position) + 1
      ensures Contents() == old(Contents()) + [byte]
    {
      buffer[position] := byte;
      position := position + 1;
      assert Contents() == old(Contents()) + [byte];
    }

    method PutVarint(value: nat)
      requires Valid() && value <= MAX_EXACT_INTEGER
      modifies this, buffer
      ensures Valid() && (buffer == old(buffer) || fresh(buffer))
      ensures openMessages == old(openMessages)
      ensures Contents() == old(Contents()) + Varint(value)
    {
      Reserve(10);
      SafeVarintLength(value);
      ghost var start := Contents();
      var rest := value;
      while rest > 0x7f
        invariant Valid() && (buffer == old(buffer) || fresh(buffer))
        invariant openMessages == old(openMessages)
        invariant position + |Varint(rest)| <= buffer.Length
        invariant Contents() + Varint(rest) == start + Varint(value)
        decreases rest
      {
        ghost var before := Contents();
        Push(rest % 0x80 + 0x80);
        assert before + Varint(rest) == Contents() + Varint(rest / 0x80);
        rest := rest / 0x80;
      }
      Push(rest);
    }

    method PutInt64(value: int)
      requires Valid() && -TWO_63 <= value <= MAX_EXACT_INTEGER
      modifies this, buffer
      ensures Valid() && (buffer == old(buffer) || fresh(buffer))
      ensures openMessages == old(openMessages)
      ensures Contents() == old(Contents()) + Int64(value)
    {
      if value >= 0 {
        PutVarint(value);
        return;
      }
      ghost var bits := TwosComplement(value);
      Int64RoundTrip(value, []);
      var remaining := TwosComplement(value);
      Reserve(10);
      ghost var start := Contents();
      while remaining > 0x7f
        invariant Valid() && (buffer == old(buffer) || fresh(buffer))
        invariant openMessages == old(openMessages) && remaining >= 0
        invariant position + |Varint(remaining)| <= buffer.Length
        invariant Contents() + Varint(remaining) == start + Varint(bits)
        decreases remaining
      {
        ghost var before := Contents();
        Push(remaining % 0x80 + 0x80);
        assert before + Varint(remaining) == Contents() + Varint(remaining / 0x80);
        remaining := remaining / 0x80;
      }
      Push(remaining);
    }

    /** The platform's own copies into the buffer: `write`, `writeBigUInt64LE` and the like. */
    method Put(bytes: seq<Byte>)
      requires Valid()
      modifies this, buffer
      ensures Valid() && (buffer == old(buffer) || fresh(buffer))
      ensures openMessages == old(openMessages)
      ensures Contents() == old(Contents()) + bytes
    {
      Reserve(|bytes|);
      forall i | 0 <= i < |bytes| {
        buffer[position + i] := bytes[i];
      }
      position := position + |bytes|;
      assert Contents() == old(Contents()) + bytes;
    }

    method PutKey(field: nat, wireType: nat)
      requires Valid() && field < 0x1000 && wireType < 8
      modifies this, buffer
      ensures Valid() && (buffer == old(buffer) || fresh(buffer))
      ensures openMessages == old(openMessages)
      ensures Contents() == old(Contents()) + Key(field, wireType)
    {
      PutVarint(field * 8 + wireType);
    }

    method PutFixed64(value: int)
      requires Valid()
      modifies this, buffer
      ensures Valid() && (buffer == old(buffer) || fresh(buffer))
      ensures openMessages == old(openMessages)
      ensures Contents() == old(Contents()) + Fixed(TwosComplement(value), 8)
    {
      Put(Fixed(TwosComplement(value), 8));
    }

    method PutFixed32(value: int)
      requires Valid()
      modifies this, buffer
      ensures Valid() && (buffer == old(buffer) || fresh(buffer))
      ensures openMessages == old(openMessages)
      ensures Contents() == old(Contents()) + Fixed(value % TWO_32, 4)
    {
      Put(Fixed(value % TWO_32, 4));
    }

    method PutString(value: seq<Byte>)
      requires Valid() && |value| <= MAX_EXACT_INTEGER
      modifies this, buffer
      ensures Valid() && (buffer == old(buffer) || fresh(buffer))
      ensures openMessages == old(openMessages)
      ensures Contents() == old(Contents()) + LengthPrefixed(value)
    {
      PutVarint(|value|);
      Put(value);
      assert Contents() == old(Contents()) + LengthPrefixed(value);
    }

    method PutHex(hex: Hex)
      requires Valid() && |hex| <= MAX_EXACT_INTEGER
      modifies this, buffer
      ensures Valid() && (buffer == old(buffer) || fresh(buffer))
      ensures openMessages == old(openMessages)
      ensures Contents() == old(Contents()) + LengthPrefixed(FromHex(hex))
    {
      PutVarint(|hex| / 2);
      Put(FromHex(hex));
      assert Contents() == old(Contents()) + LengthPrefixed(FromHex(hex));
    }

    /** Writes the key and leaves a gap, of whatever bytes the buffer held there. */
    method BeginMessage(field: nat)
      requires Valid() && field < 0x1000
      modifies this, buffer
      ensures Valid() && (buffer == old(buffer) || fresh(buffer))
      ensures openMessages == old(openMessages) + [|old(Contents()) + Key(field, WIRE_LENGTH_DELIMITED)|]
      ensures |Contents()| == |old(Contents()) + Key(field, WIRE_LENGTH_DELIMITED)| + LENGTH_PREFIX_RESERVE
      ensures old(Contents()) + Key(field, WIRE_LENGTH_DELIMITED) <= Contents()
    {
      PutKey(field, WIRE_LENGTH_DELIMITED);
      Reserve(LENGTH_PREFIX_RESERVE);
      ghost var before := Contents();
      openMessages := openMessages + [position];
      position := position + LENGTH_PREFIX_RESERVE;
      assert Contents()[..|before|] == before;
    }

    /** Closes the innermost open message, whatever is open around it; refuses
        when none is. */
    method EndMessage() returns (ok: bool)
      requires Valid()
      modifies this, buffer
      ensures Valid() && buffer == old(buffer)
      ensures ok == (old(openMessages) != [])
      ensures !ok ==> openMessages == old(openMessages) && Contents() == old(Contents())
      ensures ok ==>
        && openMessages == old(openMessages)[..|old(openMessages)| - 1]
        && Contents() == AfterEnd(old(Contents()), old(openMessages)[|old(openMessages)| - 1])
    {
      if |openMessages| == 0 {
        return false;
      }
      var prefixAt := openMessages[|openMessages| - 1];
      openMessages := openMessages[..|openMessages| - 1];
      var contentStart := prefixAt + LENGTH_PREFIX_RESERVE;
      var length := position - contentStart;
      ghost var before := Contents();
      var at := PatchLength(prefixAt, length);
      PatchedAndClosedUp(before, prefixAt, length, at);
      if at < contentStart {
        CloseUp(at, contentStart);
      }
      return true;
    }

    /** Writes a varint over what is already there, and returns where it ends. */
    method PatchLength(prefixAt: nat, length: nat) returns (at: nat)
      requires Valid() && prefixAt + |Varint(length)| <= position
      modifies buffer
      ensures Valid() && at == prefixAt + |Varint(length)|
      ensures Contents() == Overwritten(old(Contents()), prefixAt, Varint(length))
    {
      hide Varint, Overwritten;
      ghost var patched := Overwritten(Contents(), prefixAt, Varint(length));
      at := prefixAt;
      var remaining := length;
      while remaining > 0x7f
        invariant Valid() && remaining >= 0
        invariant at + |Varint(remaining)| == prefixAt + |Varint(length)|
        invariant Overwritten(Contents(), at, Varint(remaining)) == patched
        modifies buffer
        decreases remaining
      {
        VarintUnrolled(remaining);
        OverwrittenStep(Contents(), at, remaining % 0x80 + 0x80, Varint(remaining / 0x80));
        ghost var before := Contents();
        buffer[at] := remaining % 0x80 + 0x80;
        assert Contents() == before[at := remaining % 0x80 + 0x80];
        at := at + 1;
        remaining := remaining / 0x80;
      }
      VarintUnrolled(remaining);
      assert [remaining] + [] == [remaining];
      OverwrittenStep(Contents(), at, remaining, []);
      ghost var before := Contents();
      buffer[at] := remaining;
      assert Contents() == before[at := remaining];
      at := at + 1;
      OverwrittenByNothing(Contents(), at);
    }

    /** `copyWithin`: slides what starts at `from` back to `at`. */
    method CloseUp(at: nat, from: nat)
      requires Valid() && at <= from <= position
      requires forall i :: 0 <= i < |openMessages| ==> openMessages[i] + LENGTH_PREFIX_RESERVE <= at
      modifies this`position, buffer
      ensures Valid() && Contents() == old(Contents()[..at] + Contents()[from..])
    {
      ghost var head, tail := buffer[..at], buffer[from..position];
      forall i | 0 <= i < position - from {
        buffer[at + i] := buffer[from + i];
      }
      position := position - (from - at);
      assert buffer[..at] == head && buffer[at..position] == tail;
      assert Contents() == head + tail;
    }
  }
}
