/** A receiver of the export request, written from `trace.proto`: fields in any
    order, unknown fields skipped, the last value of a singular field kept, and
    an absent field read as its default. */
module OtlpDecoding {
  import opened Wire
  import opened ProtoWriting
  import opened OtlpEncoding

  // ----- from bytes to fields ---------------------------------------------------

  function ReadField(bytes: seq<Byte>): (r: Read<Field>)
    ensures r.Got? ==> |r.rest| < |bytes|
  {
    match ReadVarint(bytes)
    case Malformed => Malformed
    case Got(key, rest) => if key / 8 == 0 then Malformed else ReadPayload(key / 8, key % 8, rest)
  }

  /** By the wire types of the encoding document: 0 a varint, 1 eight bytes, 2 a length and
      as many bytes, 5 four bytes. */
  function ReadPayload(number: nat, wireType: nat, bytes: seq<Byte>): (r: Read<Field>)
    ensures r.Got? ==> |r.rest| <= |bytes|
  {
    BytesOfConstants();
    if wireType == 0 then
      match ReadVarint(bytes)
      case Malformed => Malformed
      case Got(value, rest) => if value < TWO_64 then Got(VarintField(number, value), rest) else Malformed
    else if wireType == 1 then
      if |bytes| < 8 then Malformed
      else Got(Fixed64Field(number, ReadFixed(bytes[..8])), bytes[8..])
    else if wireType == 2 then
      match ReadVarint(bytes)
      case Malformed => Malformed
      case Got(length, rest) =>
        if length <= |rest| then Got(BytesField(number, rest[..length]), rest[length..]) else Malformed
    else if wireType == 5 then
      if |bytes| < 4 then Malformed
      else Got(Fixed32Field(number, ReadFixed(bytes[..4])), bytes[4..])
    else Malformed
  }

  function ParseMessage(bytes: seq<Byte>): Option<seq<Field>>
    decreases |bytes|
  {
    if bytes == [] then Some([]) else
      match ReadField(bytes)
      case Malformed => None
      case Got(f, rest) =>
        match ParseMessage(rest)
        case None => None
        case Some(fields) => Some([f] + fields)
  }

  predicate Sound(f: Field) {
    f.number > 0 && (f.VarintField? ==> f.value < TWO_64)
  }

  lemma PayloadRoundTrip(f: Field, rest: seq<Byte>)
    requires Sound(f)
    ensures match f
      case VarintField(n, v) => ReadPayload(n, 0, Varint(v) + rest) == Got(f, rest)
      case Fixed64Field(n, bits) => ReadPayload(n, 1, Fixed(bits, 8) + rest) == Got(f, rest)
      case BytesField(n, body) => ReadPayload(n, 2, LengthPrefixed(body) + rest) == Got(f, rest)
      case Fixed32Field(n, bits) => ReadPayload(n, 5, Fixed(bits, 4) + rest) == Got(f, rest)
  {
    hide Varint, ReadVarint, Fixed, ReadFixed, Bytes;
    BytesOfConstants();
    match f
    case VarintField(_, value) => VarintRoundTrip(value, rest);
    case Fixed64Field(_, bits) =>
      FixedRoundTrip(bits, 8);
      assert (Fixed(bits, 8) + rest)[..8] == Fixed(bits, 8);
    case BytesField(_, body) =>
      VarintRoundTrip(|body|, body + rest);
      Assoc(Varint(|body|), body, rest);
    case Fixed32Field(_, bits) =>
      FixedRoundTrip(bits, 4);
      assert (Fixed(bits, 4) + rest)[..4] == Fixed(bits, 4);
  }

  lemma FieldRoundTrip(f: Field, rest: seq<Byte>)
    requires Sound(f)
    ensures ReadField(FieldBytes(f) + rest) == Got(f, rest)
  {
    hide Varint, ReadVarint, Fixed, ReadFixed, ReadPayload, LengthPrefixed;
    PayloadRoundTrip(f, rest);
    match f
    case VarintField(n, v) =>
      VarintRoundTrip(n * 8 + WIRE_VARINT, Varint(v) + rest);
      Assoc(Key(n, WIRE_VARINT), Varint(v), rest);
    case Fixed64Field(n, bits) =>
      VarintRoundTrip(n * 8 + WIRE_FIXED64, Fixed(bits, 8) + rest);
      Assoc(Key(n, WIRE_FIXED64), Fixed(bits, 8), rest);
    case BytesField(n, body) =>
      VarintRoundTrip(n * 8 + WIRE_LENGTH_DELIMITED, LengthPrefixed(body) + rest);
      Assoc(Key(n, WIRE_LENGTH_DELIMITED), LengthPrefixed(body), rest);
    case Fixed32Field(n, bits) =>
      VarintRoundTrip(n * 8 + WIRE_FIXED32, Fixed(bits, 4) + rest);
      Assoc(Key(n, WIRE_FIXED32), Fixed(bits, 4), rest);
  }

  /** Four fields down to the byte: keys of one and of two bytes, a varint of two groups,
      eight and four bytes from the lowest up, and a length before its bytes. */
  lemma KnownBytes()
    ensures FieldBytes(VarintField(1, 150)) == [0x08, 0x96, 0x01]
    ensures FieldBytes(Fixed64Field(7, 0x0102)) == [0x39, 0x02, 0x01, 0, 0, 0, 0, 0, 0]
    ensures FieldBytes(BytesField(2, [0x68, 0x69])) == [0x12, 0x02, 0x68, 0x69]
    ensures AnyValueField(Integer(0x1F_FFFF_FFFF_FFFF)) == VarintField(3, 0x1F_FFFF_FFFF_FFFF)
    ensures AnyValueField(Integer(-1)) == VarintField(3, 0xFFFF_FFFF_FFFF_FFFF)
    ensures FieldBytes(Fixed32Field(16, 0x0101)) == [0x85, 0x01, 0x01, 0x01, 0, 0]
  {
    assert Varint(1) == [1] && Varint(150) == [0x96] + Varint(1) && Varint(133) == [0x85] + Varint(1);
    FixedKnown();
  }

  lemma FixedKnown()
    ensures Fixed(0x0102, 8) == [0x02, 0x01, 0, 0, 0, 0, 0, 0] && Fixed(0x0101, 4) == [0x01, 0x01, 0, 0]
  {
    assert Fixed(0, 1) == [0] && Fixed(0, 2) == [0, 0] && Fixed(0, 3) == [0, 0, 0];
    assert Fixed(0, 4) == [0] + Fixed(0, 3) && Fixed(0, 5) == [0] + Fixed(0, 4) && Fixed(0, 6) == [0] + Fixed(0, 5);
    assert Fixed(1, 3) == [1] + Fixed(0, 2) && Fixed(0x0101, 4) == [1] + Fixed(1, 3);
    assert Fixed(1, 7) == [1] + Fixed(0, 6) && Fixed(0x0102, 8) == [2] + Fixed(1, 7);
  }

  /** Any sequence of fields is read back from its bytes. */
  lemma {:induction false} MessageRoundTrip(fields: seq<Field>)
    requires forall f | f in fields :: Sound(f)
    ensures ParseMessage(MessageBytes(fields)) == Some(fields)
  {
    if fields != [] {
      hide FieldBytes, ReadField;
      FieldRoundTrip(fields[0], MessageBytes(fields[1..]));
      MessageRoundTrip(fields[1..]);
      assert fields == [fields[0]] + fields[1..];
    }
  }

  // ----- from fields to spans ------------------------------------------------------

  function Fold<A>(apply: (A, Field) -> Option<A>, acc: A, fields: seq<Field>): Option<A> {
    if fields == [] then Some(acc) else
      match apply(acc, fields[0])
      case None => None
      case Some(next) => Fold(apply, next, fields[1..])
  }

  lemma {:induction false} FoldConcat<A>(apply: (A, Field) -> Option<A>, acc: A, a: seq<Field>, b: seq<Field>)
    ensures Fold(apply, acc, a + b)
         == match Fold(apply, acc, a) case None => None case Some(next) => Fold(apply, next, b)
  {
    if a == [] {
      assert a + b == b;
    } else {
      assert (a + b)[1..] == a[1..] + b;
      match apply(acc, a[0])
      case None =>
      case Some(next) => FoldConcat(apply, next, a[1..], b);
    }
  }

  function Decode<A>(apply: (A, Field) -> Option<A>, empty: A, bytes: seq<Byte>): Option<A> {
    match ParseMessage(bytes)
    case None => None
    case Some(fields) => Fold(apply, empty, fields)
  }

  lemma DecodeFields<A>(apply: (A, Field) -> Option<A>, empty: A, fields: seq<Field>)
    requires forall f | f in fields :: Sound(f)
    ensures Decode(apply, empty, MessageBytes(fields)) == Fold(apply, empty, fields)
  {
    MessageRoundTrip(fields);
  }

  /** One occurrence of a `oneof` field decides it; a later one replaces it. */
  function ApplyAnyValue(acc: Option<AttributeValue>, f: Field): Option<Option<AttributeValue>> {
    match f
    case BytesField(1, text) => Some(Some(Text(text)))
    case VarintField(2, value) => Some(Some(Flag(value != 0)))
    case VarintField(3, value) =>
      if value < TWO_64 && -0x1F_FFFF_FFFF_FFFF <= Signed(value) <= 0x1F_FFFF_FFFF_FFFF
      then Some(Some(Integer(Signed(value)))) else None
    case Fixed64Field(4, bits) => Some(Some(Double(bits)))
    case _ => Some(acc)
  }

  datatype PartialAttribute = PartialAttribute(key: Utf8, value: Option<AttributeValue>)

  function ApplyKeyValue(acc: PartialAttribute, f: Field): Option<PartialAttribute> {
    match f
    case BytesField(1, key) => Some(acc.(key := key))
    case BytesField(2, body) =>
      (match Decode(ApplyAnyValue, None, body)
       case None => None
       case Some(value) => Some(acc.(value := value)))
    case _ => Some(acc)
  }

  function DecodeKeyValue(body: seq<Byte>): Option<Attribute> {
    match Decode(ApplyKeyValue, PartialAttribute([], None), body)
    case None => None
    case Some(a) => if a.value.Some? then Some(Attribute(a.key, a.value.value)) else None
  }

  function AppendKeyValue(acc: seq<Attribute>, body: seq<Byte>): Option<seq<Attribute>> {
    match DecodeKeyValue(body)
    case None => None
    case Some(a) => Some(acc + [a])
  }

  function ApplyEvent(acc: Event, f: Field): Option<Event> {
    match f
    case Fixed64Field(1, bits) => Some(acc.(timeUnixNano := bits))
    case BytesField(2, name) => Some(acc.(name := name))
    case BytesField(3, body) =>
      (match AppendKeyValue(acc.attributes, body)
       case None => None
       case Some(attributes) => Some(acc.(attributes := attributes)))
    case _ => Some(acc)
  }

  const EMPTY_EVENT := Event(0, [], [])

  function ApplyStatus(acc: Status, f: Field): Option<Status> {
    match f
    case BytesField(2, message) => Some(acc.(message := Some(message)))
    case VarintField(3, code) => if code <= 0x20_0000_0000_0000 then Some(acc.(code := code)) else None
    case _ => Some(acc)
  }

  const EMPTY_STATUS := Status(0, None)

  function ApplySpan(acc: Span, f: Field): Option<Span> {
    match f
    case BytesField(1, id) => Some(acc.(traceId := ToHex(id)))
    case BytesField(2, id) => Some(acc.(spanId := ToHex(id)))
    case BytesField(3, text) => Some(acc.(traceState := Some(text)))
    case BytesField(4, id) => Some(acc.(parentSpanId := Some(ToHex(id))))
    case BytesField(5, name) => Some(acc.(name := name))
    case VarintField(6, kind) => if kind <= MAX_EXACT_INTEGER then Some(acc.(kind := kind)) else None
    case Fixed64Field(7, bits) => Some(acc.(startTimeUnixNano := bits))
    case Fixed64Field(8, bits) => Some(acc.(endTimeUnixNano := bits))
    case BytesField(9, body) =>
      (match AppendKeyValue(acc.attributes, body)
       case None => None
       case Some(attributes) => Some(acc.(attributes := attributes)))
    case VarintField(10, count) =>
      if count <= MAX_EXACT_INTEGER then Some(acc.(droppedAttributesCount := count)) else None
    case BytesField(11, body) =>
      (match Decode(ApplyEvent, EMPTY_EVENT, body)
       case None => None
       case Some(event) => Some(acc.(events := acc.events + [event])))
    case BytesField(15, body) =>
      (match Decode(ApplyStatus, EMPTY_STATUS, body)
       case None => None
       case Some(status) => Some(acc.(status := Some(status))))
    case Fixed32Field(16, bits) => Some(acc.(flags := bits))
    case _ => Some(acc)
  }

  const EMPTY_SPAN := Span("", "", None, None, [], 0, 0, 0, [], 0, [], None, 0)

  datatype ScopeSpans = ScopeSpans(scope: Scope, spans: seq<Span>)
  datatype ResourceSpans = ResourceSpans(resource: seq<Attribute>, scopeSpans: seq<ScopeSpans>)

  function ApplyScope(acc: Scope, f: Field): Option<Scope> {
    match f
    case BytesField(1, name) => Some(acc.(name := name))
    case BytesField(2, version) => Some(acc.(version := version))
    case _ => Some(acc)
  }

  function ApplyScopeSpans(acc: ScopeSpans, f: Field): Option<ScopeSpans> {
    match f
    case BytesField(1, body) =>
      (match Decode(ApplyScope, Scope([], []), body)
       case None => None
       case Some(scope) => Some(acc.(scope := scope)))
    case BytesField(2, body) =>
      (match Decode(ApplySpan, EMPTY_SPAN, body)
       case None => None
       case Some(span) => Some(acc.(spans := acc.spans + [span])))
    case _ => Some(acc)
  }

  const EMPTY_SCOPE_SPANS := ScopeSpans(Scope([], []), [])

  function ApplyResource(acc: seq<Attribute>, f: Field): Option<seq<Attribute>> {
    match f
    case BytesField(1, body) => AppendKeyValue(acc, body)
    case _ => Some(acc)
  }

  function ApplyResourceSpans(acc: ResourceSpans, f: Field): Option<ResourceSpans> {
    match f
    case BytesField(1, body) =>
      (match Decode(ApplyResource, [], body)
       case None => None
       case Some(resource) => Some(acc.(resource := resource)))
    case BytesField(2, body) =>
      (match Decode(ApplyScopeSpans, EMPTY_SCOPE_SPANS, body)
       case None => None
       case Some(scopeSpans) => Some(acc.(scopeSpans := acc.scopeSpans + [scopeSpans])))
    case _ => Some(acc)
  }

  function ApplyRequest(acc: seq<ResourceSpans>, f: Field): Option<seq<ResourceSpans>> {
    match f
    case BytesField(1, body) =>
      (match Decode(ApplyResourceSpans, ResourceSpans([], []), body)
       case None => None
       case Some(resourceSpans) => Some(acc + [resourceSpans]))
    case _ => Some(acc)
  }

  function DecodeRequest(bytes: seq<Byte>): Option<seq<ResourceSpans>> {
    Decode(ApplyRequest, [], bytes)
  }

  // ----- what of a span the wire carries ----------------------------------------------

  function CanonicalText(text: Option<Utf8>): Option<Utf8> {
    if text == Some([]) then None else text
  }

  function CanonicalParent(parent: Option<Hex>): Option<Hex> {
    if parent == Some("") then None else parent
  }

  function CanonicalEvent(e: Event): Event {
    e.(timeUnixNano := TwosComplement(e.timeUnixNano))
  }

  function CanonicalEvents(events: seq<Event>): (r: seq<Event>)
    ensures |r| == |events|
  {
    seq(|events|, i requires 0 <= i < |events| => CanonicalEvent(events[i]))
  }

  function CanonicalStatus(s: Option<Status>): Option<Status> {
    if s.None? then None else Some(s.value.(message := CanonicalText(s.value.message)))
  }

  /** A span as the wire tells spans apart: empty text is absent text, and times
      are 64-bit. */
  function Canonical(s: Span): Span {
    s.(traceState := CanonicalText(s.traceState),
       parentSpanId := CanonicalParent(s.parentSpanId),
       startTimeUnixNano := TwosComplement(s.startTimeUnixNano),
       endTimeUnixNano := TwosComplement(s.endTimeUnixNano),
       events := CanonicalEvents(s.events),
       status := CanonicalStatus(s.status))
  }

  function CanonicalSpans(spans: seq<Span>): (r: seq<Span>)
    ensures |r| == |spans|
  {
    seq(|spans|, i requires 0 <= i < |spans| => Canonical(spans[i]))
  }

  // ----- the round trip, message by message ----------------------------------------------

  lemma FoldOne<A>(apply: (A, Field) -> Option<A>, acc: A, f: Field)
    ensures Fold(apply, acc, [f]) == apply(acc, f)
  {
    assert [f][1..] == [];
  }

  lemma FoldTwo<A>(apply: (A, Field) -> Option<A>, acc: A, f: Field, g: Field)
    ensures Fold(apply, acc, [f, g])
         == match apply(acc, f) case None => None case Some(next) => apply(next, g)
  {
    assert [f, g] == [f] + [g];
    FoldConcat(apply, acc, [f], [g]);
    FoldOne(apply, acc, f);
    match apply(acc, f)
    case None =>
    case Some(next) => FoldOne(apply, next, g);
  }

  /** Every case of `AnyValue` is kept apart: zero, false and the empty string too. */
  lemma AnyValueRoundTrip(value: AttributeValue)
    ensures Decode(ApplyAnyValue, None, MessageBytes([AnyValueField(value)])) == Some(Some(value))
  {
    DecodeFields(ApplyAnyValue, None, [AnyValueField(value)]);
    FoldOne(ApplyAnyValue, None, AnyValueField(value));
    if value.Integer? {
      Int64RoundTrip(value.integer, []);
    }
  }

  lemma KeyValueRoundTrip(a: Attribute)
    ensures DecodeKeyValue(MessageBytes(KeyValueFields(a))) == Some(a)
  {
    hide AnyValueField;
    var empty := PartialAttribute([], None);
    DecodeFields(ApplyKeyValue, empty, KeyValueFields(a));
    FoldTwo(ApplyKeyValue, empty, KeyValueFields(a)[0], KeyValueFields(a)[1]);
    AnyValueRoundTrip(a.value);
  }

  /** A repeated field: one step per element. */
  lemma {:induction false} FoldSteps<A>(apply: (A, Field) -> Option<A>, accs: seq<A>, fields: seq<Field>)
    requires |accs| == |fields| + 1
    requires forall i | 0 <= i < |fields| :: apply(accs[i], fields[i]) == Some(accs[i + 1])
    ensures Fold(apply, accs[0], fields) == Some(accs[|fields|])
    decreases |fields|
  {
    if fields != [] {
      FoldSteps(apply, accs[1..], fields[1..]);
    }
  }

  lemma AppendKeyValueOf(acc: seq<Attribute>, a: Attribute)
    ensures AppendKeyValue(acc, MessageBytes(KeyValueFields(a))) == Some(acc + [a])
  {
    KeyValueRoundTrip(a);
  }

  lemma FoldSpanAttributes(acc: Span, attributes: seq<Attribute>)
    ensures Fold(ApplySpan, acc, AttributesFields(9, attributes)) == Some(acc.(attributes := acc.attributes + attributes))
  {
    hide DecodeKeyValue, KeyValueFields, MessageBytes, Fold;
    var n := |attributes|;
    var accs := seq(n + 1, i requires 0 <= i <= n => acc.(attributes := acc.attributes + attributes[..i]));
    forall i | 0 <= i < n
      ensures ApplySpan(accs[i], AttributesFields(9, attributes)[i]) == Some(accs[i + 1])
    {
      AppendKeyValueOf(acc.attributes + attributes[..i], attributes[i]);
      assert acc.attributes + attributes[..i] + [attributes[i]] == acc.attributes + attributes[..i + 1];
    }
    FoldSteps(ApplySpan, accs, AttributesFields(9, attributes));
    assert acc.attributes + attributes[..0] == acc.attributes;
    assert attributes[..n] == attributes;
  }

  lemma FoldEventAttributes(acc: Event, attributes: seq<Attribute>)
    ensures Fold(ApplyEvent, acc, AttributesFields(3, attributes)) == Some(acc.(attributes := acc.attributes + attributes))
  {
    hide DecodeKeyValue, KeyValueFields, MessageBytes, Fold;
    var n := |attributes|;
    var accs := seq(n + 1, i requires 0 <= i <= n => acc.(attributes := acc.attributes + attributes[..i]));
    forall i | 0 <= i < n
      ensures ApplyEvent(accs[i], AttributesFields(3, attributes)[i]) == Some(accs[i + 1])
    {
      AppendKeyValueOf(acc.attributes + attributes[..i], attributes[i]);
      assert acc.attributes + attributes[..i] + [attributes[i]] == acc.attributes + attributes[..i + 1];
    }
    FoldSteps(ApplyEvent, accs, AttributesFields(3, attributes));
    assert acc.attributes + attributes[..0] == acc.attributes;
    assert attributes[..n] == attributes;
  }

  lemma FoldResource(acc: seq<Attribute>, attributes: seq<Attribute>)
    ensures Fold(ApplyResource, acc, AttributesFields(1, attributes)) == Some(acc + attributes)
  {
    hide DecodeKeyValue, KeyValueFields, MessageBytes, Fold;
    var n := |attributes|;
    var accs := seq(n + 1, i requires 0 <= i <= n => acc + attributes[..i]);
    forall i | 0 <= i < n
      ensures ApplyResource(accs[i], AttributesFields(1, attributes)[i]) == Some(accs[i + 1])
    {
      AppendKeyValueOf(acc + attributes[..i], attributes[i]);
      assert acc + attributes[..i] + [attributes[i]] == acc + attributes[..i + 1];
    }
    FoldSteps(ApplyResource, accs, AttributesFields(1, attributes));
    assert acc + attributes[..0] == acc;
    assert attributes[..n] == attributes;
  }

  lemma EventRoundTrip(e: Event)
    ensures Decode(ApplyEvent, EMPTY_EVENT, MessageBytes(EventFields(e))) == Some(CanonicalEvent(e))
  {
    var head := [Fixed64Field(1, TwosComplement(e.timeUnixNano)), BytesField(2, e.name)];
    DecodeFields(ApplyEvent, EMPTY_EVENT, EventFields(e));
    FoldConcat(ApplyEvent, EMPTY_EVENT, head, AttributesFields(3, e.attributes));
    FoldTwo(ApplyEvent, EMPTY_EVENT, head[0], head[1]);
    FoldEventAttributes(Event(TwosComplement(e.timeUnixNano), e.name, []), e.attributes);
    assert [] + e.attributes == e.attributes;
  }

  lemma StatusRoundTrip(s: Status)
    ensures Decode(ApplyStatus, EMPTY_STATUS, MessageBytes(StatusFields(s)))
         == Some(s.(message := CanonicalText(s.message)))
  {
    var message, code := TextFields(2, s.message), VarintField(3, s.code);
    DecodeFields(ApplyStatus, EMPTY_STATUS, StatusFields(s));
    FoldConcat(ApplyStatus, EMPTY_STATUS, message, [code]);
    FoldOne(ApplyStatus, Status(0, CanonicalText(s.message)), code);
    if message != [] {
      FoldOne(ApplyStatus, EMPTY_STATUS, message[0]);
    }
  }

  lemma FoldEvents(acc: Span, events: seq<Event>)
    ensures Fold(ApplySpan, acc, EventsFields(events))
         == Some(acc.(events := acc.events + CanonicalEvents(events)))
  {
    hide EventFields, MessageBytes, Fold, ApplyEvent, CanonicalEvent;
    var n := |events|;
    var read := CanonicalEvents(events);
    var accs := seq(n + 1, i requires 0 <= i <= n => acc.(events := acc.events + read[..i]));
    forall i | 0 <= i < n
      ensures ApplySpan(accs[i], EventsFields(events)[i]) == Some(accs[i + 1])
    {
      EventRoundTrip(events[i]);
      assert acc.events + read[..i] + [read[i]] == acc.events + read[..i + 1];
    }
    FoldSteps(ApplySpan, accs, EventsFields(events));
    assert acc.events + read[..0] == acc.events;
    assert read[..n] == read;
  }

  /** Reading goes on from what the fields before came to. */
  lemma Then<A>(apply: (A, Field) -> Option<A>, acc: A, a: seq<Field>, mid: A, b: seq<Field>)
    requires Fold(apply, acc, a) == Some(mid)
    ensures Fold(apply, acc, a + b) == Fold(apply, mid, b)
  {
    FoldConcat(apply, acc, a, b);
  }

  lemma ThenOne<A>(apply: (A, Field) -> Option<A>, acc: A, a: seq<Field>, mid: A, f: Field)
    requires Fold(apply, acc, a) == Some(mid)
    ensures Fold(apply, acc, a + [f]) == apply(mid, f)
  {
    Then(apply, acc, a, mid, [f]);
    FoldOne(apply, mid, f);
  }

  lemma FoldOptional(acc: Span, fields: seq<Field>, next: Span)
    requires |fields| <= 1
    requires if fields == [] then next == acc else ApplySpan(acc, fields[0]) == Some(next)
    ensures Fold(ApplySpan, acc, fields) == Some(next)
  {
    if fields != [] {
      assert fields == [fields[0]];
      FoldOne(ApplySpan, acc, fields[0]);
    }
  }

  lemma FoldHead(s: Span)
    ensures Fold(ApplySpan, EMPTY_SPAN, HeadFields(s))
         == Some(Span(s.traceId, s.spanId, CanonicalParent(s.parentSpanId), CanonicalText(s.traceState),
                      s.name, s.kind, TwosComplement(s.startTimeUnixNano), TwosComplement(s.endTimeUnixNano),
                      [], 0, [], None, 0))
  {
    hide Fold, HeadFields, FromHex, ToHex, DecodeKeyValue, ApplyEvent, ApplyStatus, Decode;
    HexRoundTrip(s.traceId);
    HexRoundTrip(s.spanId);
    var r1 := EMPTY_SPAN.(traceId := s.traceId);
    var f1 := [BytesField(1, FromHex(s.traceId))];
    FoldOne(ApplySpan, EMPTY_SPAN, f1[0]);
    var r2 := r1.(spanId := s.spanId);
    var f2 := f1 + [BytesField(2, FromHex(s.spanId))];
    ThenOne(ApplySpan, EMPTY_SPAN, f1, r1, BytesField(2, FromHex(s.spanId)));
    var r3 := r2.(traceState := CanonicalText(s.traceState));
    var f3 := f2 + TextFields(3, s.traceState);
    FoldOptional(r2, TextFields(3, s.traceState), r3);
    Then(ApplySpan, EMPTY_SPAN, f2, r2, TextFields(3, s.traceState));
    var r4 := r3.(parentSpanId := CanonicalParent(s.parentSpanId));
    var f4 := f3 + ParentFields(s.parentSpanId);
    if s.parentSpanId.Some? {
      HexRoundTrip(s.parentSpanId.value);
    }
    FoldOptional(r3, ParentFields(s.parentSpanId), r4);
    Then(ApplySpan, EMPTY_SPAN, f3, r3, ParentFields(s.parentSpanId));
    var r5 := r4.(name := s.name);
    var f5 := f4 + TextFields(5, Some(s.name));
    FoldOptional(r4, TextFields(5, Some(s.name)), r5);
    Then(ApplySpan, EMPTY_SPAN, f4, r4, TextFields(5, Some(s.name)));
    var r6 := r5.(kind := s.kind);
    ThenOne(ApplySpan, EMPTY_SPAN, f5, r5, VarintField(6, s.kind));
    var f6 := f5 + [VarintField(6, s.kind)];
    var start, end := Fixed64Field(7, TwosComplement(s.startTimeUnixNano)),
                      Fixed64Field(8, TwosComplement(s.endTimeUnixNano));
    ThenOne(ApplySpan, EMPTY_SPAN, f6, r6, start);
    var r7 := r6.(startTimeUnixNano := TwosComplement(s.startTimeUnixNano));
    ThenOne(ApplySpan, EMPTY_SPAN, f6 + [start], r7, end);
    HeadInParts(s);
  }

  lemma StatusSection(s: Span, acc: Span)
    requires acc.status == None
    ensures Fold(ApplySpan, acc, OptionalStatusFields(s.status))
         == Some(acc.(status := CanonicalStatus(s.status)))
  {
    hide Fold, Decode, ApplyEvent, ApplyStatus, MessageBytes, StatusFields;
    if s.status.Some? {
      StatusRoundTrip(s.status.value);
    }
    FoldOptional(acc, OptionalStatusFields(s.status), acc.(status := CanonicalStatus(s.status)));
  }

  lemma SpanFieldsAreSound(s: Span)
    ensures forall f | f in SpanFields(s) :: Sound(f)
  {
  }

  lemma DroppedSection(count: Count, acc: Span)
    requires acc.droppedAttributesCount == 0
    ensures Fold(ApplySpan, acc, DroppedFields(count)) == Some(acc.(droppedAttributesCount := count))
  {
    FoldOptional(acc, DroppedFields(count), acc.(droppedAttributesCount := count));
  }

  lemma FlagsSection(flags: Bits32, acc: Span)
    requires acc.flags == 0
    ensures Fold(ApplySpan, acc, FlagsFields(flags)) == Some(acc.(flags := flags))
  {
    FoldOptional(acc, FlagsFields(flags), acc.(flags := flags));
  }

  lemma FoldSpan(s: Span)
    ensures Fold(ApplySpan, EMPTY_SPAN, SpanFields(s))
         == Some(Span(s.traceId, s.spanId, CanonicalParent(s.parentSpanId), CanonicalText(s.traceState),
                      s.name, s.kind, TwosComplement(s.startTimeUnixNano), TwosComplement(s.endTimeUnixNano),
                      s.attributes, s.droppedAttributesCount, CanonicalEvents(s.events),
                      CanonicalStatus(s.status), s.flags))
  {
    hide *;
    FoldHead(s);
    var f1 := HeadFields(s);
    var r1 := Fold(ApplySpan, EMPTY_SPAN, f1).value;
    FoldSpanAttributes(r1, s.attributes);
    assert [] + s.attributes == s.attributes;
    var f2 := f1 + AttributesFields(9, s.attributes);
    var r2 := r1.(attributes := s.attributes);
    Then(ApplySpan, EMPTY_SPAN, f1, r1, AttributesFields(9, s.attributes));
    DroppedSection(s.droppedAttributesCount, r2);
    var f3 := f2 + DroppedFields(s.droppedAttributesCount);
    var r3 := r2.(droppedAttributesCount := s.droppedAttributesCount);
    Then(ApplySpan, EMPTY_SPAN, f2, r2, DroppedFields(s.droppedAttributesCount));
    FoldEvents(r3, s.events);
    assert [] + CanonicalEvents(s.events) == CanonicalEvents(s.events);
    var f4 := f3 + EventsFields(s.events);
    var r4 := r3.(events := CanonicalEvents(s.events));
    Then(ApplySpan, EMPTY_SPAN, f3, r3, EventsFields(s.events));
    StatusSection(s, r4);
    var f5 := f4 + OptionalStatusFields(s.status);
    var r5 := r4.(status := CanonicalStatus(s.status));
    Then(ApplySpan, EMPTY_SPAN, f4, r4, OptionalStatusFields(s.status));
    FlagsSection(s.flags, r5);
    Then(ApplySpan, EMPTY_SPAN, f5, r5, FlagsFields(s.flags));
    SpanInParts(s);
  }

  /** A span is read back from its bytes as what the wire carries of it. */
  lemma SpanRoundTrip(s: Span)
    ensures Decode(ApplySpan, EMPTY_SPAN, MessageBytes(SpanFields(s))) == Some(Canonical(s))
  {
    hide Fold, ApplySpan;
    SpanFieldsAreSound(s);
    DecodeFields(ApplySpan, EMPTY_SPAN, SpanFields(s));
    FoldSpan(s);
  }

  lemma ScopeRoundTrip(scope: Scope)
    ensures Decode(ApplyScope, Scope([], []), MessageBytes(ScopeFields(scope))) == Some(scope)
  {
    DecodeFields(ApplyScope, Scope([], []), ScopeFields(scope));
    FoldTwo(ApplyScope, Scope([], []), ScopeFields(scope)[0], ScopeFields(scope)[1]);
  }

  lemma FoldSpans(acc: ScopeSpans, spans: seq<Span>)
    ensures Fold(ApplyScopeSpans, acc, SpansFields(spans))
         == Some(acc.(spans := acc.spans + CanonicalSpans(spans)))
  {
    hide SpanFields, MessageBytes, Fold, Decode, ApplySpan, Canonical;
    var n := |spans|;
    var read := CanonicalSpans(spans);
    var accs := seq(n + 1, i requires 0 <= i <= n => acc.(spans := acc.spans + read[..i]));
    forall i | 0 <= i < n
      ensures ApplyScopeSpans(accs[i], SpansFields(spans)[i]) == Some(accs[i + 1])
    {
      SpanRoundTrip(spans[i]);
      assert acc.spans + read[..i] + [read[i]] == acc.spans + read[..i + 1];
    }
    FoldSteps(ApplyScopeSpans, accs, SpansFields(spans));
    assert acc.spans + read[..0] == acc.spans;
    assert read[..n] == read;
  }

  lemma ScopeSpansRoundTrip(scope: Scope, spans: seq<Span>)
    ensures Decode(ApplyScopeSpans, EMPTY_SCOPE_SPANS, MessageBytes(ScopeSpansFields(scope, spans)))
         == Some(ScopeSpans(scope, CanonicalSpans(spans)))
  {
    hide SpanFields, MessageBytes, Fold, ApplySpan, Canonical, CanonicalSpans, ApplyScope;
    var head := BytesField(1, MessageBytes(ScopeFields(scope)));
    DecodeFields(ApplyScopeSpans, EMPTY_SCOPE_SPANS, ScopeSpansFields(scope, spans));
    ScopeRoundTrip(scope);
    FoldOne(ApplyScopeSpans, EMPTY_SCOPE_SPANS, head);
    Then(ApplyScopeSpans, EMPTY_SCOPE_SPANS, [head], ScopeSpans(scope, []), SpansFields(spans));
    FoldSpans(ScopeSpans(scope, []), spans);
    assert [] + CanonicalSpans(spans) == CanonicalSpans(spans);
  }

  lemma ResourceRoundTrip(resource: seq<Attribute>)
    ensures Decode(ApplyResource, [], MessageBytes(AttributesFields(1, resource))) == Some(resource)
  {
    hide Fold, DecodeKeyValue, KeyValueFields, MessageBytes;
    DecodeFields(ApplyResource, [], AttributesFields(1, resource));
    FoldResource([], resource);
    assert [] + resource == resource;
  }

  lemma ResourceSpansRoundTrip(resource: seq<Attribute>, scope: Scope, spans: seq<Span>)
    ensures Decode(ApplyResourceSpans, ResourceSpans([], []),
                   MessageBytes(ResourceSpansFields(resource, scope, spans)))
         == Some(ResourceSpans(resource, [ScopeSpans(scope, CanonicalSpans(spans))]))
  {
    hide Fold, MessageBytes, ScopeSpansFields, AttributesFields, ApplyScopeSpans, ApplyResource, CanonicalSpans;
    var fields := ResourceSpansFields(resource, scope, spans);
    DecodeFields(ApplyResourceSpans, ResourceSpans([], []), fields);
    FoldTwo(ApplyResourceSpans, ResourceSpans([], []), fields[0], fields[1]);
    ResourceRoundTrip(resource);
    ScopeSpansRoundTrip(scope, spans);
    var read := ScopeSpans(scope, CanonicalSpans(spans));
    assert [] + [read] == [read];
  }

  /** The whole export request: what the receiver reads is the resource, the
      scope and every span, in order. */
  lemma RequestRoundTrip(resource: seq<Attribute>, scope: Scope, spans: seq<Span>)
    ensures DecodeRequest(MessageBytes(RequestFields(resource, scope, spans)))
         == Some([ResourceSpans(resource, [ScopeSpans(scope, CanonicalSpans(spans))])])
  {
    hide Fold, MessageBytes, ResourceSpansFields, ApplyResourceSpans, CanonicalSpans;
    var fields := RequestFields(resource, scope, spans);
    DecodeFields(ApplyRequest, [], fields);
    FoldOne(ApplyRequest, [], fields[0]);
    ResourceSpansRoundTrip(resource, scope, spans);
    var read := ResourceSpans(resource, [ScopeSpans(scope, CanonicalSpans(spans))]);
    assert [] + [read] == [read];
  }

  /** A span whose times fit 64 bits, and whose texts and parent say something where they
      are given. */
  predicate Plain(s: Span) {
    && 0 <= s.startTimeUnixNano < 0x1_0000_0000_0000_0000 && 0 <= s.endTimeUnixNano < 0x1_0000_0000_0000_0000
    && s.traceState != Some([]) && s.parentSpanId != Some("")
    && (s.status.Some? ==> s.status.value.message != Some([]))
    && forall e | e in s.events :: 0 <= e.timeUnixNano < 0x1_0000_0000_0000_0000
  }

  /** Of such spans nothing at all is lost on the way. */
  lemma PlainSpansComeBack(resource: seq<Attribute>, scope: Scope, spans: seq<Span>)
    requires forall s | s in spans :: Plain(s)
    ensures DecodeRequest(MessageBytes(RequestFields(resource, scope, spans)))
         == Some([ResourceSpans(resource, [ScopeSpans(scope, spans)])])
  {
    hide DecodeRequest, MessageBytes, RequestFields;
    RequestRoundTrip(resource, scope, spans);
    forall i | 0 <= i < |spans|
      ensures Canonical(spans[i]) == spans[i]
    {
      assert spans[i] in spans;
      assert CanonicalEvents(spans[i].events) == spans[i].events;
    }
    assert CanonicalSpans(spans) == spans;
  }

  /** Nothing else of a span reaches the wire. */
  lemma CanonicalEncodesAlike(s: Span)
    ensures SpanFields(Canonical(s)) == SpanFields(s)
  {
    hide MessageBytes, KeyValueField;
    var c := Canonical(s);
    assert HeadFields(c) == HeadFields(s);
    forall i | 0 <= i < |s.events|
      ensures EventField(c.events[i]) == EventField(s.events[i])
    {
    }
    assert EventsFields(c.events) == EventsFields(s.events);
    assert OptionalStatusFields(c.status) == OptionalStatusFields(s.status) by {
      if s.status.Some? {
        assert StatusFields(c.status.value) == StatusFields(s.status.value);
      }
    }
  }

  /** Two batches take the same bytes exactly when they say the same. */
  lemma EncodedAlikeExactlyWhenCanonical(
      resource: seq<Attribute>, scope: Scope, spans: seq<Span>,
      resource': seq<Attribute>, scope': Scope, spans': seq<Span>)
    ensures MessageBytes(RequestFields(resource, scope, spans))
              == MessageBytes(RequestFields(resource', scope', spans'))
      <==> resource == resource' && scope == scope' && CanonicalSpans(spans) == CanonicalSpans(spans')
  {
    RequestRoundTrip(resource, scope, spans);
    RequestRoundTrip(resource', scope', spans');
    if resource == resource' && scope == scope' && CanonicalSpans(spans) == CanonicalSpans(spans') {
      forall i | 0 <= i < |spans|
        ensures SpanField(spans[i]) == SpanField(spans'[i])
      {
        assert CanonicalSpans(spans)[i] == Canonical(spans[i]);
        assert CanonicalSpans(spans')[i] == Canonical(spans'[i]);
        CanonicalEncodesAlike(spans[i]);
        CanonicalEncodesAlike(spans'[i]);
      }
      assert SpansFields(spans) == SpansFields(spans');
    }
  }
}
