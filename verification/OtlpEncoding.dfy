/** Spans as an `ExportTraceServiceRequest`: the message layout of the
    opentelemetry-proto `trace.proto`, and the writer calls that produce it. */
module OtlpEncoding {
  import opened Wire
  import opened ProtoWriting

  datatype Option<+T> = None | Some(value: T)

  const MAX_SAFE_INTEGER: int := MAX_EXACT_INTEGER - 1

  /** Text as its UTF-8 bytes. */
  type Utf8 = seq<Byte>
  type SafeInteger = i: int | -MAX_SAFE_INTEGER <= i <= MAX_SAFE_INTEGER
  type Count = n: nat | n <= MAX_EXACT_INTEGER

  /** An attribute's value. A number that is a safe integer travels as one; any
      other as the bits of the double it is. */
  datatype AttributeValue =
    | Text(text: Utf8)
    | Flag(flag: bool)
    | Integer(integer: SafeInteger)
    | Double(bits: Bits64)

  datatype Attribute = Attribute(key: Utf8, value: AttributeValue)

  datatype Event = Event(timeUnixNano: int, name: Utf8, attributes: seq<Attribute>)

  datatype Status = Status(code: Count, message: Option<Utf8>)

  datatype Span = Span(
    traceId: Hex,
    spanId: Hex,
    parentSpanId: Option<Hex>,
    traceState: Option<Utf8>,
    name: Utf8,
    kind: Count,
    startTimeUnixNano: int,
    endTimeUnixNano: int,
    attributes: seq<Attribute>,
    droppedAttributesCount: Count,
    events: seq<Event>,
    status: Option<Status>,
    flags: Bits32)

  datatype Scope = Scope(name: Utf8, version: Utf8)

  // ----- the wire: a message is a sequence of fields -------------------------

  datatype Field =
    | VarintField(number: nat, value: nat)
    | Fixed64Field(number: nat, bits: Bits64)
    | BytesField(number: nat, body: seq<Byte>)
    | Fixed32Field(number: nat, bits32: Bits32)

  function FieldBytes(f: Field): (bytes: seq<Byte>)
    ensures f.BytesField? ==> |f.body| < |bytes|
  {
    match f
    case VarintField(n, v) => Key(n, WIRE_VARINT) + Varint(v)
    case Fixed64Field(n, bits) => Key(n, WIRE_FIXED64) + Fixed(bits, 8)
    case BytesField(n, body) => Key(n, WIRE_LENGTH_DELIMITED) + LengthPrefixed(body)
    case Fixed32Field(n, bits) => Key(n, WIRE_FIXED32) + Fixed(bits, 4)
  }

  function MessageBytes(fields: seq<Field>): seq<Byte> {
    if fields == [] then [] else FieldBytes(fields[0]) + MessageBytes(fields[1..])
  }

  lemma Assoc<T>(x: seq<T>, y: seq<T>, z: seq<T>)
    ensures (x + y) + z == x + (y + z)
  {
  }

  lemma {:induction false} MessageConcat(a: seq<Field>, b: seq<Field>)
    ensures MessageBytes(a + b) == MessageBytes(a) + MessageBytes(b)
  {
    if a == [] {
      assert a + b == b;
    } else {
      var whole := a + b;
      assert whole[0] == a[0] && whole[1..] == a[1..] + b;
      MessageConcat(a[1..], b);
      Assoc(FieldBytes(a[0]), MessageBytes(a[1..]), MessageBytes(b));
    }
  }

  lemma {:induction false} MessageOfOne(f: Field)
    ensures MessageBytes([f]) == FieldBytes(f)
  {
    assert MessageBytes([f][1..]) == [];
  }

  /** One more message part written after what is there. */
  lemma Extend(start: seq<Byte>, a: seq<Field>, b: seq<Field>)
    ensures (start + MessageBytes(a)) + MessageBytes(b) == start + MessageBytes(a + b)
  {
    MessageConcat(a, b);
    Assoc(start, MessageBytes(a), MessageBytes(b));
  }

  lemma ExtendByOne(start: seq<Byte>, a: seq<Field>, f: Field)
    ensures (start + MessageBytes(a)) + FieldBytes(f) == start + MessageBytes(a + [f])
  {
    MessageOfOne(f);
    Extend(start, a, [f]);
  }

  /** A field is no longer than the message it is in. */
  lemma {:induction false} FieldWithin(fields: seq<Field>, i: nat)
    requires i < |fields|
    ensures |FieldBytes(fields[i])| <= |MessageBytes(fields)|
  {
    hide FieldBytes;
    if i > 0 {
      FieldWithin(fields[1..], i - 1);
    }
  }

  // ----- the messages, field by field -----------------------------------------

  function AnyValueField(value: AttributeValue): Field {
    match value
    case Text(text) => BytesField(1, text)
    case Flag(flag) => VarintField(2, if flag then 1 else 0)
    case Integer(i) => VarintField(3, TwosComplement(i))
    case Double(bits) => Fixed64Field(4, bits)
  }

  function KeyValueFields(a: Attribute): seq<Field> {
    [BytesField(1, a.key), BytesField(2, MessageBytes([AnyValueField(a.value)]))]
  }

  function KeyValueField(number: nat, a: Attribute): Field {
    BytesField(number, MessageBytes(KeyValueFields(a)))
  }

  function AttributesFields(number: nat, attributes: seq<Attribute>): (fields: seq<Field>)
    ensures |fields| == |attributes|
  {
    seq(|attributes|, i requires 0 <= i < |attributes| => KeyValueField(number, attributes[i]))
  }

  function EventFields(e: Event): seq<Field> {
    [Fixed64Field(1, TwosComplement(e.timeUnixNano)), BytesField(2, e.name)]
    + AttributesFields(3, e.attributes)
  }

  function EventField(e: Event): Field {
    BytesField(11, MessageBytes(EventFields(e)))
  }

  function EventsFields(events: seq<Event>): (fields: seq<Field>)
    ensures |fields| == |events|
  {
    seq(|events|, i requires 0 <= i < |events| => EventField(events[i]))
  }

  /** Absent text and empty text are left out alike. */
  function TextFields(number: nat, text: Option<Utf8>): seq<Field> {
    if text.Some? && text.value != [] then [BytesField(number, text.value)] else []
  }

  function ParentFields(parent: Option<Hex>): seq<Field> {
    if parent.Some? && parent.value != "" then [BytesField(4, FromHex(parent.value))] else []
  }

  function StatusFields(s: Status): seq<Field> {
    TextFields(2, s.message) + [VarintField(3, s.code)]
  }

  function OptionalStatusFields(s: Option<Status>): seq<Field> {
    if s.Some? then [BytesField(15, MessageBytes(StatusFields(s.value)))] else []
  }

  function DroppedFields(count: Count): seq<Field> {
    if count > 0 then [VarintField(10, count)] else []
  }

  function FlagsFields(flags: Bits32): seq<Field> {
    if flags != 0 then [Fixed32Field(16, flags)] else []
  }

  function HeadFields(s: Span): seq<Field> {
    [BytesField(1, FromHex(s.traceId)), BytesField(2, FromHex(s.spanId))]
    + TextFields(3, s.traceState)
    + ParentFields(s.parentSpanId)
    + TextFields(5, Some(s.name))
    + [VarintField(6, s.kind),
       Fixed64Field(7, TwosComplement(s.startTimeUnixNano)),
       Fixed64Field(8, TwosComplement(s.endTimeUnixNano))]
  }

  function SpanFields(s: Span): seq<Field> {
    HeadFields(s)
    + AttributesFields(9, s.attributes)
    + DroppedFields(s.droppedAttributesCount)
    + EventsFields(s.events)
    + OptionalStatusFields(s.status)
    + FlagsFields(s.flags)
  }

  function SpanField(s: Span): Field {
    BytesField(2, MessageBytes(SpanFields(s)))
  }

  function SpansFields(spans: seq<Span>): (fields: seq<Field>)
    ensures |fields| == |spans|
  {
    seq(|spans|, i requires 0 <= i < |spans| => SpanField(spans[i]))
  }

  function ScopeFields(scope: Scope): seq<Field> {
    [BytesField(1, scope.name), BytesField(2, scope.version)]
  }

  function ScopeSpansFields(scope: Scope, spans: seq<Span>): seq<Field> {
    [BytesField(1, MessageBytes(ScopeFields(scope)))] + SpansFields(spans)
  }

  function ResourceSpansFields(resource: seq<Attribute>, scope: Scope, spans: seq<Span>): seq<Field> {
    [BytesField(1, MessageBytes(AttributesFields(1, resource))),
     BytesField(2, MessageBytes(ScopeSpansFields(scope, spans)))]
  }

  function RequestFields(resource: seq<Attribute>, scope: Scope, spans: seq<Span>): seq<Field> {
    [BytesField(1, MessageBytes(ResourceSpansFields(resource, scope, spans)))]
  }

  // ----- the writer calls --------------------------------------------------------

  /** What opening a message, writing its body and closing it leaves behind. */
  lemma ClosedField(before: seq<Byte>, field: nat, gap: seq<Byte>, body: seq<Byte>)
    requires before + Key(field, WIRE_LENGTH_DELIMITED) <= gap
    requires |gap| == |before + Key(field, WIRE_LENGTH_DELIMITED)| + LENGTH_PREFIX_RESERVE
    requires |body| < PREFIX_LIMIT
    ensures AfterEnd(gap + body, |before + Key(field, WIRE_LENGTH_DELIMITED)|)
            == before + FieldBytes(BytesField(field, body))
  {
    var key := Key(field, WIRE_LENGTH_DELIMITED);
    assert (gap + body)[..|before + key|] == before + key;
    assert (gap + body)[|gap|..] == body;
    assert before + key + LengthPrefixed(body) == before + (key + LengthPrefixed(body));
  }

  method WriteBytesField(writer: ProtoWriter, number: nat, text: seq<Byte>)
    requires writer.Valid() && number < 0x1000 && |text| < PREFIX_LIMIT
    modifies writer, writer.buffer
    ensures writer.Valid() && (writer.buffer == old(writer.buffer) || fresh(writer.buffer))
    ensures writer.openMessages == old(writer.openMessages)
    ensures writer.Contents() == old(writer.Contents()) + FieldBytes(BytesField(number, text))
  {
    hide ProtoWriter.Valid, ProtoWriter.Contents, Wire.Varint, Wire.Fixed, ProtoWriting.Key;
    writer.PutKey(number, WIRE_LENGTH_DELIMITED);
    writer.PutString(text);
    Assoc(old(writer.Contents()), Key(number, WIRE_LENGTH_DELIMITED), LengthPrefixed(text));
  }

  method WriteHexField(writer: ProtoWriter, number: nat, hex: Hex)
    requires writer.Valid() && number < 0x1000 && |FromHex(hex)| < PREFIX_LIMIT
    modifies writer, writer.buffer
    ensures writer.Valid() && (writer.buffer == old(writer.buffer) || fresh(writer.buffer))
    ensures writer.openMessages == old(writer.openMessages)
    ensures writer.Contents() == old(writer.Contents()) + FieldBytes(BytesField(number, FromHex(hex)))
  {
    hide ProtoWriter.Valid, ProtoWriter.Contents, Wire.Varint, Wire.Fixed, ProtoWriting.Key;
    writer.PutKey(number, WIRE_LENGTH_DELIMITED);
    writer.PutHex(hex);
    Assoc(old(writer.Contents()), Key(number, WIRE_LENGTH_DELIMITED), LengthPrefixed(FromHex(hex)));
  }

  method WriteVarintField(writer: ProtoWriter, number: nat, value: Count)
    requires writer.Valid() && number < 0x1000
    modifies writer, writer.buffer
    ensures writer.Valid() && (writer.buffer == old(writer.buffer) || fresh(writer.buffer))
    ensures writer.openMessages == old(writer.openMessages)
    ensures writer.Contents() == old(writer.Contents()) + FieldBytes(VarintField(number, value))
  {
    hide ProtoWriter.Valid, ProtoWriter.Contents, Wire.Varint, Wire.Fixed, ProtoWriting.Key;
    writer.PutKey(number, WIRE_VARINT);
    writer.PutVarint(value);
    Assoc(old(writer.Contents()), Key(number, WIRE_VARINT), Varint(value));
  }

  method WriteInt64Field(writer: ProtoWriter, number: nat, value: SafeInteger)
    requires writer.Valid() && number < 0x1000
    modifies writer, writer.buffer
    ensures writer.Valid() && (writer.buffer == old(writer.buffer) || fresh(writer.buffer))
    ensures writer.openMessages == old(writer.openMessages)
    ensures writer.Contents() == old(writer.Contents()) + FieldBytes(VarintField(number, TwosComplement(value)))
  {
    hide ProtoWriter.Valid, ProtoWriter.Contents, Wire.Varint, Wire.Fixed, ProtoWriting.Key;
    writer.PutKey(number, WIRE_VARINT);
    writer.PutInt64(value);
    assert Int64(value) == Varint(TwosComplement(value));
    Assoc(old(writer.Contents()), Key(number, WIRE_VARINT), Int64(value));
  }

  method WriteFixed64Field(writer: ProtoWriter, number: nat, value: int)
    requires writer.Valid() && number < 0x1000
    modifies writer, writer.buffer
    ensures writer.Valid() && (writer.buffer == old(writer.buffer) || fresh(writer.buffer))
    ensures writer.openMessages == old(writer.openMessages)
    ensures writer.Contents() == old(writer.Contents()) + FieldBytes(Fixed64Field(number, TwosComplement(value)))
  {
    hide ProtoWriter.Valid, ProtoWriter.Contents, Wire.Varint, Wire.Fixed, ProtoWriting.Key;
    writer.PutKey(number, WIRE_FIXED64);
    writer.PutFixed64(value);
    Assoc(old(writer.Contents()), Key(number, WIRE_FIXED64), Fixed(TwosComplement(value), 8));
  }

  method WriteAnyValue(writer: ProtoWriter, value: AttributeValue)
    requires writer.Valid() && (value.Text? ==> |value.text| < PREFIX_LIMIT)
    modifies writer, writer.buffer
    ensures writer.Valid() && (writer.buffer == old(writer.buffer) || fresh(writer.buffer))
    ensures writer.openMessages == old(writer.openMessages)
    ensures writer.Contents() == old(writer.Contents()) + MessageBytes([AnyValueField(value)])
  {
    hide ProtoWriter.Valid, ProtoWriter.Contents, Wire.Varint, Wire.Fixed, ProtoWriting.Key, FieldBytes;
    MessageOfOne(AnyValueField(value));
    match value
    case Text(text) => WriteBytesField(writer, 1, text);
    case Flag(flag) => WriteVarintField(writer, 2, if flag then 1 else 0);
    case Integer(i) => WriteInt64Field(writer, 3, i);
    case Double(bits) => WriteFixed64Field(writer, 4, bits);
  }

  lemma KeyValueInParts(field: nat, a: Attribute)
    requires |FieldBytes(KeyValueField(field, a))| < PREFIX_LIMIT
    ensures var value := BytesField(2, MessageBytes([AnyValueField(a.value)]));
      && KeyValueField(field, a) == BytesField(field, MessageBytes([BytesField(1, a.key)] + [value]))
      && |a.key| < PREFIX_LIMIT && |value.body| < PREFIX_LIMIT
      && |MessageBytes([BytesField(1, a.key)] + [value])| < PREFIX_LIMIT
    ensures MessageBytes([BytesField(1, a.key)]) == FieldBytes(BytesField(1, a.key))
    ensures a.value.Text? ==> |a.value.text| < PREFIX_LIMIT
  {
    hide FieldBytes;
    var fields := KeyValueFields(a);
    assert fields == [fields[0]] + [fields[1]];
    FieldWithin(fields, 0);
    FieldWithin(fields, 1);
    MessageOfOne(fields[0]);
    MessageOfOne(AnyValueField(a.value));
  }

  method WriteKeyValue(writer: ProtoWriter, field: nat, a: Attribute)
    requires writer.Valid() && field < 0x1000
    requires |FieldBytes(KeyValueField(field, a))| < PREFIX_LIMIT
    modifies writer, writer.buffer
    ensures writer.Valid() && (writer.buffer == old(writer.buffer) || fresh(writer.buffer))
    ensures writer.openMessages == old(writer.openMessages)
    ensures writer.Contents() == old(writer.Contents()) + FieldBytes(KeyValueField(field, a))
  {
    hide *;
    KeyValueInParts(field, a);
    ghost var key, value := BytesField(1, a.key), BytesField(2, MessageBytes([AnyValueField(a.value)]));
    ghost var before := writer.Contents();
    writer.BeginMessage(field);
    ghost var gap := writer.Contents();
    WriteBytesField(writer, 1, a.key);
    ghost var middle := writer.Contents();
    writer.BeginMessage(2);
    ghost var inner := writer.Contents();
    WriteAnyValue(writer, a.value);
    ClosedField(middle, 2, inner, value.body);
    var _ := writer.EndMessage();
    ExtendByOne(gap, [key], value);
    ClosedField(before, field, gap, MessageBytes([key] + [value]));
    var _ := writer.EndMessage();
  }

  method WriteKeyValues(writer: ProtoWriter, field: nat, attributes: seq<Attribute>)
    requires writer.Valid() && field < 0x1000
    requires |MessageBytes(AttributesFields(field, attributes))| < PREFIX_LIMIT
    modifies writer, writer.buffer
    ensures writer.Valid() && (writer.buffer == old(writer.buffer) || fresh(writer.buffer))
    ensures writer.openMessages == old(writer.openMessages)
    ensures writer.Contents() == old(writer.Contents()) + MessageBytes(AttributesFields(field, attributes))
  {
    hide ProtoWriter.Valid, ProtoWriter.Contents, Wire.Varint, Wire.Fixed, ProtoWriting.Key, FieldBytes;
    ghost var start := writer.Contents();
    assert AttributesFields(field, attributes[..0]) == [];
    assert start + [] == start;
    for i := 0 to |attributes|
      invariant writer.Valid() && (writer.buffer == old(writer.buffer) || fresh(writer.buffer))
      invariant writer.openMessages == old(writer.openMessages)
      invariant writer.Contents() == start + MessageBytes(AttributesFields(field, attributes[..i]))
    {
      FieldWithin(AttributesFields(field, attributes), i);
      WriteKeyValue(writer, field, attributes[i]);
      ExtendByOne(start, AttributesFields(field, attributes[..i]), KeyValueField(field, attributes[i]));
      assert AttributesFields(field, attributes[..i + 1])
          == AttributesFields(field, attributes[..i]) + [KeyValueField(field, attributes[i])];
    }
    assert attributes[..|attributes|] == attributes;
  }

  method WriteEvent(writer: ProtoWriter, e: Event)
    requires writer.Valid() && |FieldBytes(EventField(e))| < PREFIX_LIMIT
    modifies writer, writer.buffer
    ensures writer.Valid() && (writer.buffer == old(writer.buffer) || fresh(writer.buffer))
    ensures writer.openMessages == old(writer.openMessages)
    ensures writer.Contents() == old(writer.Contents()) + FieldBytes(EventField(e))
  {
    hide ProtoWriter.Valid, ProtoWriter.Contents, Wire.Varint, Wire.Fixed, ProtoWriting.Key, FieldBytes;
    ghost var fields := EventFields(e);
    FieldWithin(fields, 1);
    MessageConcat(fields[..2], AttributesFields(3, e.attributes));
    ghost var before := writer.Contents();
    writer.BeginMessage(11);
    ghost var gap := writer.Contents();
    WriteFixed64Field(writer, 1, e.timeUnixNano);
    MessageOfOne(fields[0]);
    WriteBytesField(writer, 2, e.name);
    ExtendByOne(gap, [fields[0]], fields[1]);
    WriteKeyValues(writer, 3, e.attributes);
    Extend(gap, [fields[0], fields[1]], AttributesFields(3, e.attributes));
    ClosedField(before, 11, gap, MessageBytes(fields));
    var _ := writer.EndMessage();
  }

  method WriteEvents(writer: ProtoWriter, events: seq<Event>)
    requires writer.Valid() && |MessageBytes(EventsFields(events))| < PREFIX_LIMIT
    modifies writer, writer.buffer
    ensures writer.Valid() && (writer.buffer == old(writer.buffer) || fresh(writer.buffer))
    ensures writer.openMessages == old(writer.openMessages)
    ensures writer.Contents() == old(writer.Contents()) + MessageBytes(EventsFields(events))
  {
    hide ProtoWriter.Valid, ProtoWriter.Contents, Wire.Varint, Wire.Fixed, ProtoWriting.Key, FieldBytes;
    ghost var start := writer.Contents();
    assert EventsFields(events[..0]) == [];
    assert start + [] == start;
    for i := 0 to |events|
      invariant writer.Valid() && (writer.buffer == old(writer.buffer) || fresh(writer.buffer))
      invariant writer.openMessages == old(writer.openMessages)
      invariant writer.Contents() == start + MessageBytes(EventsFields(events[..i]))
    {
      FieldWithin(EventsFields(events), i);
      WriteEvent(writer, events[i]);
      ExtendByOne(start, EventsFields(events[..i]), EventField(events[i]));
      assert EventsFields(events[..i + 1]) == EventsFields(events[..i]) + [EventField(events[i])];
    }
    assert events[..|events|] == events;
  }

  method WriteStatus(writer: ProtoWriter, s: Status)
    requires writer.Valid() && |MessageBytes(OptionalStatusFields(Some(s)))| < PREFIX_LIMIT
    modifies writer, writer.buffer
    ensures writer.Valid() && (writer.buffer == old(writer.buffer) || fresh(writer.buffer))
    ensures writer.openMessages == old(writer.openMessages)
    ensures writer.Contents() == old(writer.Contents()) + MessageBytes(OptionalStatusFields(Some(s)))
  {
    hide ProtoWriter.Valid, ProtoWriter.Contents, Wire.Varint, Wire.Fixed, ProtoWriting.Key, FieldBytes;
    ghost var fields := StatusFields(s);
    MessageOfOne(BytesField(15, MessageBytes(fields)));
    MessageConcat(TextFields(2, s.message), [VarintField(3, s.code)]);
    ghost var before := writer.Contents();
    writer.BeginMessage(15);
    ghost var gap := writer.Contents();
    WriteOptionalText(writer, 2, s.message);
    WriteVarintField(writer, 3, s.code);
    ExtendByOne(gap, TextFields(2, s.message), VarintField(3, s.code));
    ClosedField(before, 15, gap, MessageBytes(fields));
    var _ := writer.EndMessage();
  }

  method WriteOptionalText(writer: ProtoWriter, number: nat, text: Option<Utf8>)
    requires writer.Valid() && number < 0x1000 && |MessageBytes(TextFields(number, text))| < PREFIX_LIMIT
    modifies writer, writer.buffer
    ensures writer.Valid() && (writer.buffer == old(writer.buffer) || fresh(writer.buffer))
    ensures writer.openMessages == old(writer.openMessages)
    ensures writer.Contents() == old(writer.Contents()) + MessageBytes(TextFields(number, text))
  {
    if text.Some? && text.value != [] {
      MessageOfOne(BytesField(number, text.value));
      WriteBytesField(writer, number, text.value);
    }
  }

  method WriteParent(writer: ProtoWriter, parent: Option<Hex>)
    requires writer.Valid() && |MessageBytes(ParentFields(parent))| < PREFIX_LIMIT
    modifies writer, writer.buffer
    ensures writer.Valid() && (writer.buffer == old(writer.buffer) || fresh(writer.buffer))
    ensures writer.openMessages == old(writer.openMessages)
    ensures writer.Contents() == old(writer.Contents()) + MessageBytes(ParentFields(parent))
  {
    if parent.Some? && parent.value != "" {
      MessageOfOne(BytesField(4, FromHex(parent.value)));
      WriteHexField(writer, 4, parent.value);
    }
  }

  method WriteFlags(writer: ProtoWriter, flags: Bits32)
    requires writer.Valid()
    modifies writer, writer.buffer
    ensures writer.Valid() && (writer.buffer == old(writer.buffer) || fresh(writer.buffer))
    ensures writer.openMessages == old(writer.openMessages)
    ensures writer.Contents() == old(writer.Contents()) + MessageBytes(FlagsFields(flags))
  {
    hide ProtoWriter.Valid, ProtoWriter.Contents, Wire.Varint, Wire.Fixed, ProtoWriting.Key;
    if flags != 0 {
      MessageOfOne(Fixed32Field(16, flags));
      writer.PutKey(16, WIRE_FIXED32);
      writer.PutFixed32(flags);
      Assoc(old(writer.Contents()), Key(16, WIRE_FIXED32), Fixed(flags, 4));
    }
  }

  method WriteScope(writer: ProtoWriter, scope: Scope)
    requires writer.Valid() && |MessageBytes(ScopeFields(scope))| < PREFIX_LIMIT
    modifies writer, writer.buffer
    ensures writer.Valid() && (writer.buffer == old(writer.buffer) || fresh(writer.buffer))
    ensures writer.openMessages == old(writer.openMessages)
    ensures writer.Contents() == old(writer.Contents())
                                 + FieldBytes(BytesField(1, MessageBytes(ScopeFields(scope))))
  {
    hide ProtoWriter.Valid, ProtoWriter.Contents, Wire.Varint, Wire.Fixed, ProtoWriting.Key, FieldBytes;
    ghost var fields := ScopeFields(scope);
    FieldWithin(fields, 0);
    FieldWithin(fields, 1);
    MessageOfOne(fields[0]);
    ghost var before := writer.Contents();
    writer.BeginMessage(1);
    ghost var gap := writer.Contents();
    WriteBytesField(writer, 1, scope.name);
    WriteBytesField(writer, 2, scope.version);
    ExtendByOne(gap, [fields[0]], fields[1]);
    ClosedField(before, 1, gap, MessageBytes(fields));
    var _ := writer.EndMessage();
  }

  lemma PartsWithin(ids: seq<Field>, a: seq<Field>, b: seq<Field>, c: seq<Field>, rest: seq<Field>)
    ensures var n := |MessageBytes(ids + a + b + c + rest)|;
      |MessageBytes(ids)| <= n && |MessageBytes(a)| <= n && |MessageBytes(b)| <= n && |MessageBytes(c)| <= n
  {
    hide MessageBytes;
    MessageConcat(ids + a + b + c, rest);
    MessageConcat(ids + a + b, c);
    MessageConcat(ids + a, b);
    MessageConcat(ids, a);
  }

  /** Each part of a span is no longer than the span. */
  lemma HeadInParts(s: Span)
    ensures HeadFields(s) == [BytesField(1, FromHex(s.traceId))] + [BytesField(2, FromHex(s.spanId))]
      + TextFields(3, s.traceState) + ParentFields(s.parentSpanId) + TextFields(5, Some(s.name))
      + [VarintField(6, s.kind)] + [Fixed64Field(7, TwosComplement(s.startTimeUnixNano))]
      + [Fixed64Field(8, TwosComplement(s.endTimeUnixNano))]
    ensures var n := |MessageBytes(HeadFields(s))|;
      && |FromHex(s.traceId)| <= n && |FromHex(s.spanId)| <= n
      && |MessageBytes(TextFields(3, s.traceState))| <= n
      && |MessageBytes(ParentFields(s.parentSpanId))| <= n
      && |MessageBytes(TextFields(5, Some(s.name)))| <= n
  {
    hide FieldBytes;
    var ids := [BytesField(1, FromHex(s.traceId)), BytesField(2, FromHex(s.spanId))];
    var a, b, c := TextFields(3, s.traceState), ParentFields(s.parentSpanId), TextFields(5, Some(s.name));
    var rest := [VarintField(6, s.kind), Fixed64Field(7, TwosComplement(s.startTimeUnixNano)),
                 Fixed64Field(8, TwosComplement(s.endTimeUnixNano))];
    FieldWithin(ids, 0);
    FieldWithin(ids, 1);
    PartsWithin(ids, a, b, c, rest);
    hide MessageBytes, TextFields, ParentFields;
  }

  lemma SpanInParts(s: Span)
    ensures SpanFields(s) == HeadFields(s) + AttributesFields(9, s.attributes)
      + DroppedFields(s.droppedAttributesCount) + EventsFields(s.events)
      + OptionalStatusFields(s.status) + FlagsFields(s.flags)
    ensures var n := |MessageBytes(SpanFields(s))|;
      && |MessageBytes(HeadFields(s))| <= n
      && |MessageBytes(AttributesFields(9, s.attributes))| <= n
      && |MessageBytes(EventsFields(s.events))| <= n
      && |MessageBytes(OptionalStatusFields(s.status))| <= n
  {
    var f1 := HeadFields(s) + AttributesFields(9, s.attributes);
    var f2 := f1 + DroppedFields(s.droppedAttributesCount);
    var f3 := f2 + EventsFields(s.events);
    var f4 := f3 + OptionalStatusFields(s.status);
    MessageConcat(f4, FlagsFields(s.flags));
    MessageConcat(f3, OptionalStatusFields(s.status));
    MessageConcat(f2, EventsFields(s.events));
    MessageConcat(f1, DroppedFields(s.droppedAttributesCount));
    MessageConcat(HeadFields(s), AttributesFields(9, s.attributes));
  }

  method WriteDropped(writer: ProtoWriter, count: Count)
    requires writer.Valid()
    modifies writer, writer.buffer
    ensures writer.Valid() && (writer.buffer == old(writer.buffer) || fresh(writer.buffer))
    ensures writer.openMessages == old(writer.openMessages)
    ensures writer.Contents() == old(writer.Contents()) + MessageBytes(DroppedFields(count))
  {
    if count > 0 {
      MessageOfOne(VarintField(10, count));
      WriteVarintField(writer, 10, count);
    }
  }

  method WriteOptionalStatus(writer: ProtoWriter, s: Option<Status>)
    requires writer.Valid() && |MessageBytes(OptionalStatusFields(s))| < PREFIX_LIMIT
    modifies writer, writer.buffer
    ensures writer.Valid() && (writer.buffer == old(writer.buffer) || fresh(writer.buffer))
    ensures writer.openMessages == old(writer.openMessages)
    ensures writer.Contents() == old(writer.Contents()) + MessageBytes(OptionalStatusFields(s))
  {
    if s.Some? {
      WriteStatus(writer, s.value);
    }
  }

  method WriteSpanHead(writer: ProtoWriter, s: Span)
    requires writer.Valid() && |MessageBytes(HeadFields(s))| < PREFIX_LIMIT
    modifies writer, writer.buffer
    ensures writer.Valid() && (writer.buffer == old(writer.buffer) || fresh(writer.buffer))
    ensures writer.openMessages == old(writer.openMessages)
    ensures writer.Contents() == old(writer.Contents()) + MessageBytes(HeadFields(s))
  {
    hide *;
    HeadInParts(s);
    ghost var start := writer.Contents();
    ghost var f1 := [BytesField(1, FromHex(s.traceId))];
    ghost var f2 := f1 + [BytesField(2, FromHex(s.spanId))];
    ghost var f3 := f2 + TextFields(3, s.traceState);
    ghost var f4 := f3 + ParentFields(s.parentSpanId);
    ghost var f5 := f4 + TextFields(5, Some(s.name));
    ghost var f6 := f5 + [VarintField(6, s.kind)];
    ghost var f7 := f6 + [Fixed64Field(7, TwosComplement(s.startTimeUnixNano))];
    MessageOfOne(f1[0]);
    WriteHexField(writer, 1, s.traceId);
    WriteHexField(writer, 2, s.spanId);
    ExtendByOne(start, f1, BytesField(2, FromHex(s.spanId)));
    WriteOptionalText(writer, 3, s.traceState);
    Extend(start, f2, TextFields(3, s.traceState));
    WriteParent(writer, s.parentSpanId);
    Extend(start, f3, ParentFields(s.parentSpanId));
    WriteOptionalText(writer, 5, Some(s.name));
    Extend(start, f4, TextFields(5, Some(s.name)));
    WriteVarintField(writer, 6, s.kind);
    ExtendByOne(start, f5, VarintField(6, s.kind));
    WriteFixed64Field(writer, 7, s.startTimeUnixNano);
    ExtendByOne(start, f6, Fixed64Field(7, TwosComplement(s.startTimeUnixNano)));
    WriteFixed64Field(writer, 8, s.endTimeUnixNano);
    ExtendByOne(start, f7, Fixed64Field(8, TwosComplement(s.endTimeUnixNano)));
  }

  method WriteSpan(writer: ProtoWriter, s: Span)
    requires writer.Valid() && |MessageBytes(SpanFields(s))| < PREFIX_LIMIT
    modifies writer, writer.buffer
    ensures writer.Valid() && (writer.buffer == old(writer.buffer) || fresh(writer.buffer))
    ensures writer.openMessages == old(writer.openMessages)
    ensures writer.Contents() == old(writer.Contents()) + MessageBytes(SpanFields(s))
  {
    hide *;
    SpanInParts(s);
    ghost var start := writer.Contents();
    ghost var f1 := HeadFields(s) + AttributesFields(9, s.attributes);
    ghost var f2 := f1 + DroppedFields(s.droppedAttributesCount);
    ghost var f3 := f2 + EventsFields(s.events);
    ghost var f4 := f3 + OptionalStatusFields(s.status);
    WriteSpanHead(writer, s);
    WriteKeyValues(writer, 9, s.attributes);
    Extend(start, HeadFields(s), AttributesFields(9, s.attributes));
    WriteDropped(writer, s.droppedAttributesCount);
    Extend(start, f1, DroppedFields(s.droppedAttributesCount));
    WriteEvents(writer, s.events);
    Extend(start, f2, EventsFields(s.events));
    WriteOptionalStatus(writer, s.status);
    Extend(start, f3, OptionalStatusFields(s.status));
    WriteFlags(writer, s.flags);
    Extend(start, f4, FlagsFields(s.flags));
  }

  method WriteSpanField(writer: ProtoWriter, s: Span)
    requires writer.Valid() && |FieldBytes(SpanField(s))| < PREFIX_LIMIT
    modifies writer, writer.buffer
    ensures writer.Valid() && (writer.buffer == old(writer.buffer) || fresh(writer.buffer))
    ensures writer.openMessages == old(writer.openMessages)
    ensures writer.Contents() == old(writer.Contents()) + FieldBytes(SpanField(s))
  {
    hide ProtoWriter.Valid, ProtoWriter.Contents, Wire.Varint, Wire.Fixed, ProtoWriting.Key, FieldBytes;
    ghost var before := writer.Contents();
    writer.BeginMessage(2);
    ghost var gap := writer.Contents();
    WriteSpan(writer, s);
    ClosedField(before, 2, gap, MessageBytes(SpanFields(s)));
    var _ := writer.EndMessage();
  }

  method WriteSpans(writer: ProtoWriter, spans: seq<Span>)
    requires writer.Valid() && |MessageBytes(SpansFields(spans))| < PREFIX_LIMIT
    modifies writer, writer.buffer
    ensures writer.Valid() && (writer.buffer == old(writer.buffer) || fresh(writer.buffer))
    ensures writer.openMessages == old(writer.openMessages)
    ensures writer.Contents() == old(writer.Contents()) + MessageBytes(SpansFields(spans))
  {
    hide ProtoWriter.Valid, ProtoWriter.Contents, Wire.Varint, Wire.Fixed, ProtoWriting.Key, FieldBytes;
    hide SpanField, Closed, Key;
    ghost var start := writer.Contents();
    assert SpansFields(spans[..0]) == [];
    assert start + [] == start;
    for i := 0 to |spans|
      invariant writer.Valid() && (writer.buffer == old(writer.buffer) || fresh(writer.buffer))
      invariant writer.openMessages == old(writer.openMessages)
      invariant writer.Contents() == start + MessageBytes(SpansFields(spans[..i]))
    {
      FieldWithin(SpansFields(spans), i);
      WriteSpanField(writer, spans[i]);
      ExtendByOne(start, SpansFields(spans[..i]), SpanField(spans[i]));
      assert SpansFields(spans[..i + 1]) == SpansFields(spans[..i]) + [SpanField(spans[i])];
    }
    assert spans[..|spans|] == spans;
  }

  method WriteScopeSpans(writer: ProtoWriter, scope: Scope, spans: seq<Span>)
    requires writer.Valid() && |MessageBytes(ScopeSpansFields(scope, spans))| < PREFIX_LIMIT
    modifies writer, writer.buffer
    ensures writer.Valid() && (writer.buffer == old(writer.buffer) || fresh(writer.buffer))
    ensures writer.openMessages == old(writer.openMessages)
    ensures writer.Contents() == old(writer.Contents()) + MessageBytes(ScopeSpansFields(scope, spans))
  {
    hide ProtoWriter.Valid, ProtoWriter.Contents, Wire.Varint, Wire.Fixed, ProtoWriting.Key, FieldBytes;

    ghost var start := writer.Contents();
    ghost var scopeField := BytesField(1, MessageBytes(ScopeFields(scope)));
    MessageConcat([scopeField], SpansFields(spans));
    MessageOfOne(scopeField);
    WriteScope(writer, scope);
    WriteSpans(writer, spans);
    Extend(start, [scopeField], SpansFields(spans));
  }

  method WriteScopeSpansField(writer: ProtoWriter, scope: Scope, spans: seq<Span>)
    requires writer.Valid() && |MessageBytes(ScopeSpansFields(scope, spans))| < PREFIX_LIMIT
    modifies writer, writer.buffer
    ensures writer.Valid() && (writer.buffer == old(writer.buffer) || fresh(writer.buffer))
    ensures writer.openMessages == old(writer.openMessages)
    ensures writer.Contents() == old(writer.Contents())
                                 + FieldBytes(BytesField(2, MessageBytes(ScopeSpansFields(scope, spans))))
  {
    hide ProtoWriter.Valid, ProtoWriter.Contents, Wire.Varint, Wire.Fixed, ProtoWriting.Key, FieldBytes;
    hide ScopeSpansFields, MessageBytes;
    ghost var before := writer.Contents();
    writer.BeginMessage(2);
    ghost var gap := writer.Contents();
    WriteScopeSpans(writer, scope, spans);
    ClosedField(before, 2, gap, MessageBytes(ScopeSpansFields(scope, spans)));
    var _ := writer.EndMessage();
  }

  method WriteResource(writer: ProtoWriter, resource: seq<Attribute>)
    requires writer.Valid() && |MessageBytes(AttributesFields(1, resource))| < PREFIX_LIMIT
    modifies writer, writer.buffer
    ensures writer.Valid() && (writer.buffer == old(writer.buffer) || fresh(writer.buffer))
    ensures writer.openMessages == old(writer.openMessages)
    ensures writer.Contents() == old(writer.Contents())
                                 + FieldBytes(BytesField(1, MessageBytes(AttributesFields(1, resource))))
  {
    hide ProtoWriter.Valid, ProtoWriter.Contents, Wire.Varint, Wire.Fixed, ProtoWriting.Key, FieldBytes;
    ghost var before := writer.Contents();
    writer.BeginMessage(1);
    ghost var gap := writer.Contents();
    WriteKeyValues(writer, 1, resource);
    ClosedField(before, 1, gap, MessageBytes(AttributesFields(1, resource)));
    var _ := writer.EndMessage();
  }

  /** The bytes the back-patching writer leaves are the pure encoding's, at
      every nesting depth, whenever no body reaches 2^35 bytes. */
  method EncodeOtlpProtobuf(resource: seq<Attribute>, scope: Scope, spans: seq<Span>)
    returns (bytes: seq<Byte>)
    requires |MessageBytes(RequestFields(resource, scope, spans))| < PREFIX_LIMIT
    ensures bytes == MessageBytes(RequestFields(resource, scope, spans))
  {
    hide ProtoWriter.Valid, ProtoWriter.Contents, Wire.Varint, Wire.Fixed, ProtoWriting.Key, FieldBytes;
    hide AttributesFields, ScopeSpansFields, Closed, Bytes, Groups;

    ghost var fields := ResourceSpansFields(resource, scope, spans);
    MessageOfOne(RequestFields(resource, scope, spans)[0]);
    FieldWithin(fields, 0);
    FieldWithin(fields, 1);
    MessageOfOne(fields[0]);
    var writer := new ProtoWriter();
    writer.BeginMessage(1);
    ghost var outer := writer.Contents();
    WriteResource(writer, resource);
    WriteScopeSpansField(writer, scope, spans);
    ExtendByOne(outer, [fields[0]], fields[1]);
    ClosedField([], 1, outer, MessageBytes(fields));
    var _ := writer.EndMessage();
    bytes := writer.Finish();
  }
}
