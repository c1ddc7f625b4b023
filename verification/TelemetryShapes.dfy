/** The contract itself: the batch the agent posts, section by section. */
module TelemetryShapes {
  import opened WireContract

  const MAX_BATCH_ITEMS: nat := 5000

  function Units(s: string): Text
    requires forall i :: 0 <= i < |s| ==> s[i] < '\U{10000}'
  {
    seq(|s|, i requires 0 <= i < |s| => s[i] as int)
  }

  const STRING := FieldSpec(StringType, [], false, None, false, PassedThrough, false, None, None, None)
  const NUMBER := STRING.(fieldType := NumberType)
  const BOOLEAN := STRING.(fieldType := BooleanType)
  const OBJECT := STRING.(fieldType := ObjectType)
  const OBJECTS := OBJECT.(isArray := true)

  function RequiredField(spec: FieldSpec): FieldSpec {
    spec.(required := true)
  }

  function AtMost(spec: FieldSpec, maxLength: nat): FieldSpec {
    spec.(maxLength := Some(maxLength))
  }

  function AnyOf(spec: FieldSpec, allowed: seq<Scalar>): FieldSpec {
    spec.(oneOf := Some(allowed))
  }

  function Of(spec: FieldSpec, shape: Shape): FieldSpec {
    spec.(shape := Modelled(shape))
  }

  function UpTo(spec: FieldSpec, maxItems: nat): FieldSpec {
    spec.(maxItems := Some(maxItems))
  }

  function Word(s: string): Scalar
    requires forall i :: 0 <= i < |s| ==> s[i] < '\U{10000}'
  {
    TextScalar(Units(s))
  }

  const TRACE_NODE: Shape := [
    Entry("n", AtMost(STRING, 255)),
    Entry("o", AnyOf(RequiredField(STRING), [Word("manual"), Word("auto")])),
    Entry("t", OBJECT),
    Entry("d", NUMBER),
    Entry("e", OBJECT.(alsoAccepts := [BooleanType])),
    Entry("c", AtMost(RequiredField(STRING), 255)),
    Entry("m", AtMost(RequiredField(STRING), 255)),
    Entry("s", STRING),
    Entry("so", NUMBER),
    Entry("ch", OBJECTS.(recursive := true))
  ]

  const REQUEST_ATTRIBUTES: Shape := [
    Entry("m", STRING), Entry("sc", NUMBER), Entry("ou", STRING), Entry("dop", STRING)
  ]

  const TRACES := Of(OBJECTS, TRACE_NODE).(required := true, fallback := Some(Arr([])))

  const REQUEST_SNAPSHOT: Shape := [
    Entry("ct", STRING),
    Entry("ti", AtMost(RequiredField(STRING), 255)),
    Entry("d", NUMBER),
    Entry("p", STRING),
    Entry("op", RequiredField(STRING)),
    Entry("u", STRING),
    Entry("tg", OBJECT),
    Entry("e", OBJECT),
    Entry("rq", OBJECT),
    Entry("a", Of(OBJECT, REQUEST_ATTRIBUTES)),
    Entry("t", TRACES)
  ]

  const JOB_SNAPSHOT: Shape := [
    Entry("i", RequiredField(STRING)),
    Entry("ti", AtMost(RequiredField(STRING), 255)),
    Entry("n", STRING),
    Entry("q", STRING),
    Entry("s", STRING),
    Entry("c", STRING),
    Entry("d", NUMBER),
    Entry("ea", STRING),
    Entry("wd", NUMBER),
    Entry("am", NUMBER),
    Entry("ma", NUMBER),
    Entry("tg", OBJECT),
    Entry("e", OBJECT),
    Entry("t", TRACES)
  ]

  const GC_COLLECTIONS: Shape := [Entry("count", NUMBER), Entry("duration", NUMBER)]

  const GC_KINDS: Shape := [
    Entry("m", Of(OBJECT, GC_COLLECTIONS)),
    Entry("j", Of(OBJECT, GC_COLLECTIONS)),
    Entry("i", Of(OBJECT, GC_COLLECTIONS))
  ]

  const RUNTIME_METRICS: Shape := [
    Entry("c", Of(OBJECT, [Entry("u", NUMBER), Entry("s", NUMBER), Entry("p", NUMBER)])),
    Entry("m", Of(OBJECT, [
      Entry("r", NUMBER), Entry("ht", NUMBER), Entry("hu", NUMBER),
      Entry("e", NUMBER), Entry("ab", NUMBER), Entry("p", NUMBER)])),
    Entry("g", Of(OBJECT, [Entry("c", NUMBER), Entry("td", NUMBER), Entry("b", Of(OBJECT, GC_KINDS))])),
    Entry("e", Of(OBJECT, [Entry("l", NUMBER), Entry("u", NUMBER)]))
  ]

  const CUSTOM_METRIC: Shape := [
    Entry("n", AtMost(RequiredField(STRING), 100)),
    Entry("t", AnyOf(RequiredField(STRING), [Word("counter"), Word("gauge"), Word("summary")])),
    Entry("v", OBJECT),
    Entry("tg", OBJECT),
    Entry("d", AtMost(STRING, 255)),
    Entry("l", UpTo(AtMost(STRING, 255), 1000).(isArray := true)),
    Entry("lu", NUMBER),
    Entry("k", AnyOf(STRING, [Word("additive"), Word("ratio"), Word("peak")])),
    Entry("iv", OBJECT),
    Entry("q50", OBJECT),
    Entry("q95", OBJECT),
    Entry("q99", OBJECT),
    Entry("ct", OBJECT),
    Entry("sm", OBJECT),
    Entry("mx", OBJECT)
  ]

  const LOG_LEVELS: seq<Scalar> := [
    Word("fatal"), Word("error"), Word("warn"), Word("log"), Word("debug"), Word("verbose")
  ]

  const LOG_ENTRY: Shape := [
    Entry("timestamp", RequiredField(NUMBER)),
    Entry("text", RequiredField(STRING)),
    Entry("traceId", AtMost(STRING, 255)),
    Entry("spanId", AtMost(STRING, 255)),
    Entry("level", AnyOf(STRING, LOG_LEVELS)),
    Entry("context", AtMost(STRING, 255)),
    Entry("attributes", OBJECT)
  ]

  const DECLARED_OBJECTIVE: Shape := [
    Entry("availability", NUMBER),
    Entry("latency", Of(OBJECT, [
      Entry("underMs", RequiredField(NUMBER)), Entry("target", RequiredField(NUMBER))])),
    Entry("windowDays", AnyOf(NUMBER, [
      NumberScalar(7.0), NumberScalar(14.0), NumberScalar(28.0), NumberScalar(30.0)])),
    Entry("name", AtMost(STRING, 120))
  ]

  const OBJECTIVE_DECLARATION: Shape := [
    Entry("handler", AtMost(RequiredField(STRING), 255)),
    Entry("operationId", AtMost(RequiredField(STRING), 255)),
    Entry("method", AtMost(STRING, 10)),
    Entry("objectives", UpTo(Of(RequiredField(OBJECTS), DECLARED_OBJECTIVE), 10))
  ]

  const TELEMETRY_BATCH: Shape := [
    Entry("serviceId", AtMost(RequiredField(STRING), 100)),
    Entry("serviceVersion", AtMost(STRING, 50)),
    Entry("truncatedSpans", NUMBER),
    Entry("forwardLogs", BOOLEAN),
    Entry("snapshots", UpTo(Of(OBJECTS, REQUEST_SNAPSHOT), MAX_BATCH_ITEMS)),
    Entry("jobs", UpTo(Of(OBJECTS, JOB_SNAPSHOT), MAX_BATCH_ITEMS)),
    Entry("runtime", Of(OBJECT, RUNTIME_METRICS)),
    Entry("custom", UpTo(Of(OBJECTS, CUSTOM_METRIC), MAX_BATCH_ITEMS)),
    Entry("logs", UpTo(Of(OBJECTS, LOG_ENTRY), MAX_BATCH_ITEMS)),
    Entry("objectives", UpTo(Of(OBJECTS, OBJECTIVE_DECLARATION), 100))
  ]

  datatype Section = Snapshots | Jobs | Custom | Logs | Runtime

  function SectionKey(section: Section): string {
    match section
    case Snapshots => "snapshots"
    case Jobs => "jobs"
    case Custom => "custom"
    case Logs => "logs"
    case Runtime => "runtime"
  }

  function SectionShape(section: Section): Shape {
    match section
    case Snapshots => REQUEST_SNAPSHOT
    case Jobs => JOB_SNAPSHOT
    case Custom => CUSTOM_METRIC
    case Logs => LOG_ENTRY
    case Runtime => RUNTIME_METRICS
  }

  /** The sections sent as arrays, in the order they are repaired. */
  const ARRAY_SECTIONS: seq<Section> := [Snapshots, Jobs, Custom, Logs]

  /** Where a section is declared in the batch. */
  function SectionIndex(section: Section): (i: nat)
    ensures i < |TELEMETRY_BATCH| && TELEMETRY_BATCH[i].key == SectionKey(section)
    ensures TELEMETRY_BATCH[i].spec.shape == Modelled(SectionShape(section))
  {
    match section
    case Snapshots => 4
    case Jobs => 5
    case Runtime => 6
    case Custom => 7
    case Logs => 8
  }

  // ----- the contract is well formed --------------------------------------------------

  ghost predicate OwnKeys(shape: Shape) {
    DistinctKeys(shape) && forall i :: 0 <= i < |shape| ==> shape[i].key !in INHERITED
  }

  ghost predicate SpecsOk(shape: Shape) {
    forall i :: 0 <= i < |shape| ==> SpecOk(shape[i].spec, shape)
  }

  /** Nothing to be well formed about: no fallback and no contract of its own. */
  predicate IsFlat(spec: FieldSpec) {
    spec.fallback.None? && spec.shape.PassedThrough?
  }

  lemma FlatSpecIsOk(spec: FieldSpec, parent: Shape)
    requires IsFlat(spec)
    ensures SpecOk(spec, parent)
  {
  }

  lemma ModelledSpecIsOk(spec: FieldSpec, parent: Shape)
    requires spec.fallback.None? && spec.shape.Modelled? && ShapeOk(spec.shape.entries)
    ensures SpecOk(spec, parent)
  {
  }

  lemma ShapeIsOk(shape: Shape)
    requires OwnKeys(shape) && SpecsOk(shape)
    ensures ShapeOk(shape)
  {
  }

  lemma FlatShapeIsOk(shape: Shape)
    requires OwnKeys(shape) && forall i :: 0 <= i < |shape| ==> IsFlat(shape[i].spec)
    ensures ShapeOk(shape)
  {
    forall i | 0 <= i < |shape|
      ensures SpecOk(shape[i].spec, shape)
    {
      FlatSpecIsOk(shape[i].spec, shape);
    }
    ShapeIsOk(shape);
  }

  /** Every inherited name is longer than most of the contract's. */
  lemma ShortKeysAreOwn(shape: Shape)
    requires DistinctKeys(shape) && forall i :: 0 <= i < |shape| ==> |shape[i].key| < 7
    ensures OwnKeys(shape)
  {
    assert forall key :: key in INHERITED ==> |key| >= 7;
  }

  lemma TraceNodeIsOk()
    ensures ShapeOk(TRACE_NODE)
  {
    ShortKeysAreOwn(TRACE_NODE);
    FlatShapeIsOk(TRACE_NODE);
  }

  lemma TracesIsOk(parent: Shape)
    ensures SpecOk(TRACES, parent)
  {
    TraceNodeIsOk();
    EmptyTracesCheck(parent);
    hide CheckField, ShapeOk;
    assert ShapeOk(TRACES.shape.entries);
    FallbackSpecIsOk(TRACES, parent);
  }

  lemma EmptyTracesCheck(parent: Shape)
    ensures CheckField(Arr([]), TRACES, parent, [], STRICT) == []
  {
    ItemsOfNothing(TRACES, parent);
  }

  lemma ItemsOfNothing(spec: FieldSpec, parent: Shape)
    ensures CheckItems(Arr([]), 0, spec, parent, [], STRICT) == []
  {
  }

  lemma FallbackSpecIsOk(spec: FieldSpec, parent: Shape)
    requires spec.fallback.Some? && Present(spec.fallback.value)
    requires CheckField(spec.fallback.value, spec, parent, [], STRICT) == []
    requires spec.shape.Modelled? && ShapeOk(spec.shape.entries)
    ensures SpecOk(spec, parent)
  {
  }

  lemma AttributesAreOk()
    ensures ShapeOk(REQUEST_ATTRIBUTES)
  {
    FlatShapeIsOk(REQUEST_ATTRIBUTES);
  }

  lemma RequestSpecsAreOk()
    ensures SpecsOk(REQUEST_SNAPSHOT)
  {
    hide SpecOk, ShapeOk;
    AttributesAreOk();
    ModelledSpecIsOk(REQUEST_SNAPSHOT[9].spec, REQUEST_SNAPSHOT);
    TracesIsOk(REQUEST_SNAPSHOT);
    forall i | 0 <= i < 9
      ensures SpecOk(REQUEST_SNAPSHOT[i].spec, REQUEST_SNAPSHOT)
    {
      FlatSpecIsOk(REQUEST_SNAPSHOT[i].spec, REQUEST_SNAPSHOT);
    }
  }

  lemma RequestIsOk()
    ensures ShapeOk(REQUEST_SNAPSHOT)
  {
    hide SpecsOk, ShapeOk, OwnKeys;
    RequestSpecsAreOk();
    ShortKeysAreOwn(REQUEST_SNAPSHOT);
    ShapeIsOk(REQUEST_SNAPSHOT);
  }

  lemma JobSpecsAreOk()
    ensures SpecsOk(JOB_SNAPSHOT)
  {
    hide SpecOk, ShapeOk;
    TracesIsOk(JOB_SNAPSHOT);
    forall i | 0 <= i < 13
      ensures SpecOk(JOB_SNAPSHOT[i].spec, JOB_SNAPSHOT)
    {
      FlatSpecIsOk(JOB_SNAPSHOT[i].spec, JOB_SNAPSHOT);
    }
  }

  lemma JobIsOk()
    ensures ShapeOk(JOB_SNAPSHOT)
  {
    hide SpecsOk, ShapeOk, OwnKeys;
    JobSpecsAreOk();
    ShortKeysAreOwn(JOB_SNAPSHOT);
    ShapeIsOk(JOB_SNAPSHOT);
  }

  lemma CustomIsOk()
    ensures ShapeOk(CUSTOM_METRIC)
  {
    hide ShapeOk, OwnKeys;
    ShortKeysAreOwn(CUSTOM_METRIC);
    FlatShapeIsOk(CUSTOM_METRIC);
  }

  lemma LogsAreOk()
    ensures ShapeOk(LOG_ENTRY)
  {
    hide ShapeOk;
    FlatShapeIsOk(LOG_ENTRY);
  }

  lemma CollectionsAreOk()
    ensures ShapeOk(GC_COLLECTIONS) && ShapeOk(GC_KINDS)
  {
    hide ShapeOk, SpecOk;
    FlatShapeIsOk(GC_COLLECTIONS);
    forall i | 0 <= i < |GC_KINDS|
      ensures SpecOk(GC_KINDS[i].spec, GC_KINDS)
    {
      ModelledSpecIsOk(GC_KINDS[i].spec, GC_KINDS);
    }
    ShapeIsOk(GC_KINDS);
  }

  lemma GarbageCollectionIsOk()
    ensures SpecOk(RUNTIME_METRICS[2].spec, RUNTIME_METRICS)
  {
    hide ShapeOk, SpecOk, OwnKeys;
    var part := RUNTIME_METRICS[2].spec.shape.entries;
    ShortKeysAreOwn(part);
    CollectionsAreOk();
    FlatSpecIsOk(part[0].spec, part);
    FlatSpecIsOk(part[1].spec, part);
    ModelledSpecIsOk(part[2].spec, part);
    ShapeIsOk(part);
    ModelledSpecIsOk(RUNTIME_METRICS[2].spec, RUNTIME_METRICS);
  }

  lemma RuntimePartIsOk(i: nat)
    requires i < |RUNTIME_METRICS|
    ensures SpecOk(RUNTIME_METRICS[i].spec, RUNTIME_METRICS)
  {
    hide ShapeOk, SpecOk, OwnKeys;
    if i == 2 {
      GarbageCollectionIsOk();
    } else {
      var part := RUNTIME_METRICS[i].spec.shape.entries;
      ShortKeysAreOwn(part);
      FlatShapeIsOk(part);
      ModelledSpecIsOk(RUNTIME_METRICS[i].spec, RUNTIME_METRICS);
    }
  }

  lemma RuntimeIsOk()
    ensures ShapeOk(RUNTIME_METRICS)
  {
    hide ShapeOk, SpecOk, OwnKeys;
    ShortKeysAreOwn(RUNTIME_METRICS);
    forall i | 0 <= i < |RUNTIME_METRICS|
      ensures SpecOk(RUNTIME_METRICS[i].spec, RUNTIME_METRICS)
    {
      RuntimePartIsOk(i);
    }
    ShapeIsOk(RUNTIME_METRICS);
  }

  lemma SectionShapeIsOk(section: Section)
    ensures ShapeOk(SectionShape(section))
  {
    hide ShapeOk;
    match section {
      case Snapshots => RequestIsOk();
      case Jobs => JobIsOk();
      case Custom => CustomIsOk();
      case Logs => LogsAreOk();
      case Runtime => RuntimeIsOk();
    }
  }

  /** The sanitizer's shapes are ones repair is sound and exact for. */
  lemma SectionShapesAreOk(section: Section)
    ensures ShapeOk(SectionShape(section)) && IsRecord(SectionShape(section))
  {
    hide ShapeOk, IsRecord, SectionShape;
    SectionShapeIsOk(section);
    ShapeOkIsRecord(SectionShape(section));
  }
}
