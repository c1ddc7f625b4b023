/** The contract's other shapes spelt out: a request, a job and a custom metric as the wire
    takes them, key by key. */
module SectionMeaning {
  import opened WireContract
  import opened TelemetryShapes
  import opened ContractMeaning

  /** The operation's spans: required, and each in contract with all that is under it. */
  ghost predicate SpansAt(v: Json, key: string)
    requires v.Obj?
  {
    key in v.fields && v.fields[key].Arr? && forall i :: 0 <= i < |v.fields[key].items| ==> SpanOnTheWire(v.fields[key].items[i])
  }

  predicate LabelsAt(v: Json, key: string)
    requires v.Obj?
  {
    key in v.fields ==>
      && v.fields[key].Arr? && |v.fields[key].items| <= 1000
      && forall i :: 0 <= i < |v.fields[key].items| ==> v.fields[key].items[i].Str? && Characters(v.fields[key].items[i].text) <= 255
  }

  predicate AttributesOnTheWire(v: Json) {
    && v.Obj?
    && NoOtherKeys(v, ["m", "sc", "ou", "dop"])
    && TextAt(v, "m", false, None)
    && NumberAt(v, "sc", false)
    && TextAt(v, "ou", false, None)
    && TextAt(v, "dop", false, None)
  }

  /** A request as the wire takes it. */
  ghost predicate RequestOnTheWire(v: Json) {
    && v.Obj?
    && NoOtherKeys(v, ["ct", "ti", "d", "p", "op", "u", "tg", "e", "rq", "a", "t"])
    && TextAt(v, "ct", false, None)
    && TextAt(v, "ti", true, Some(255))
    && NumberAt(v, "d", false)
    && TextAt(v, "p", false, None)
    && TextAt(v, "op", true, None)
    && TextAt(v, "u", false, None)
    && ObjectAt(v, "tg")
    && ObjectAt(v, "e")
    && ObjectAt(v, "rq")
    && ("a" in v.fields ==> AttributesOnTheWire(v.fields["a"]))
    && SpansAt(v, "t")
  }

  /** A job as the wire takes it. */
  ghost predicate JobOnTheWire(v: Json) {
    && v.Obj?
    && NoOtherKeys(v, ["i", "ti", "n", "q", "s", "c", "d", "ea", "wd", "am", "ma", "tg", "e", "t"])
    && TextAt(v, "i", true, None)
    && TextAt(v, "ti", true, Some(255))
    && TextAt(v, "n", false, None)
    && TextAt(v, "q", false, None)
    && TextAt(v, "s", false, None)
    && TextAt(v, "c", false, None)
    && NumberAt(v, "d", false)
    && TextAt(v, "ea", false, None)
    && NumberAt(v, "wd", false)
    && NumberAt(v, "am", false)
    && NumberAt(v, "ma", false)
    && ObjectAt(v, "tg")
    && ObjectAt(v, "e")
    && SpansAt(v, "t")
  }

  /** A custom metric as the wire takes it. */
  predicate MetricOnTheWire(v: Json) {
    && v.Obj?
    && NoOtherKeys(v, ["n", "t", "v", "tg", "d", "l", "lu", "k", "iv", "q50", "q95", "q99", "ct", "sm", "mx"])
    && TextAt(v, "n", true, Some(100))
    && WordAt(v, "t", true, ["counter", "gauge", "summary"])
    && ObjectAt(v, "v")
    && ObjectAt(v, "tg")
    && TextAt(v, "d", false, Some(255))
    && LabelsAt(v, "l")
    && NumberAt(v, "lu", false)
    && WordAt(v, "k", false, ["additive", "ratio", "peak"])
    && ObjectAt(v, "iv")
    && ObjectAt(v, "q50")
    && ObjectAt(v, "q95")
    && ObjectAt(v, "q99")
    && ObjectAt(v, "ct")
    && ObjectAt(v, "sm")
    && ObjectAt(v, "mx")
  }

  // ----- and that is what the shapes say -----------------------------------------------------

  lemma SpansEntryMeans(v: Json, e: Entry, shape: Shape)
    requires v.Obj? && e.spec == TRACES
    ensures InEntry(v, e, shape, STRICT) <==> SpansAt(v, e.key)
  {
    if e.key in v.fields && v.fields[e.key].Arr? {
      var items := v.fields[e.key].items;
      forall i | 0 <= i < |items|
        ensures InOne(items[i], e.spec, shape, STRICT) <==> SpanOnTheWire(items[i])
      {
        assert !AlsoTaken(items[i], e.spec.alsoAccepts);
        assert InOne(items[i], e.spec, shape, STRICT) <==> InObject(items[i], TRACE_NODE, STRICT);
        SpanIsIn(items[i]);
      }
      hide InOne, SpanOnTheWire;
      assert InField(v.fields[e.key], e.spec, shape, STRICT) <==> forall i :: 0 <= i < |items| ==> InOne(items[i], e.spec, shape, STRICT);
    }
  }

  lemma NestedEntryMeans(v: Json, e: Entry, shape: Shape, nested: Shape)
    requires v.Obj? && e.spec == Of(OBJECT, nested)
    ensures InEntry(v, e, shape, STRICT) <==> (e.key in v.fields ==> InObject(v.fields[e.key], nested, STRICT))
  {
    if e.key in v.fields {
      assert !AlsoTaken(v.fields[e.key], e.spec.alsoAccepts);
      hide InObject;
      assert InField(v.fields[e.key], e.spec, shape, STRICT) <==> InOne(v.fields[e.key], e.spec, shape, STRICT);
      NoObjectIsNothing(v.fields[e.key], nested);
    }
  }

  lemma NoObjectIsNothing(v: Json, shape: Shape)
    ensures InObject(v, shape, STRICT) ==> v.Obj?
  {
  }

  lemma LabelsEntryMeans(v: Json, e: Entry, shape: Shape)
    requires v.Obj? && e.spec == STRING.(isArray := true, maxLength := Some(255), maxItems := Some(1000))
    ensures InEntry(v, e, shape, STRICT) <==> LabelsAt(v, e.key)
  {
    if e.key in v.fields && v.fields[e.key].Arr? {
      var items := v.fields[e.key].items;
      forall i | 0 <= i < |items|
        ensures InOne(items[i], e.spec, shape, STRICT) <==> items[i].Str? && Characters(items[i].text) <= 255
      {
        assert !AlsoTaken(items[i], e.spec.alsoAccepts);
      }
      hide InOne;
      assert InField(v.fields[e.key], e.spec, shape, STRICT) <==> |items| <= 1000 && forall i :: 0 <= i < |items| ==> InOne(items[i], e.spec, shape, STRICT);
    }
  }

  lemma AttributesMean(v: Json)
    ensures InObject(v, REQUEST_ATTRIBUTES, STRICT) <==> AttributesOnTheWire(v)
  {
    hide InEntry, TextAt, NumberAt, HasKey, Inherited;
    if v.Obj? {
      assert Names(REQUEST_ATTRIBUTES) == ["m", "sc", "ou", "dop"];
      NamesAreKeys(v, REQUEST_ATTRIBUTES);
      PlainEntryMeans(v, REQUEST_ATTRIBUTES[0], REQUEST_ATTRIBUTES);
      PlainEntryMeans(v, REQUEST_ATTRIBUTES[1], REQUEST_ATTRIBUTES);
      PlainEntryMeans(v, REQUEST_ATTRIBUTES[2], REQUEST_ATTRIBUTES);
      PlainEntryMeans(v, REQUEST_ATTRIBUTES[3], REQUEST_ATTRIBUTES);
      hide Names, NoOtherKeys;
    }
  }

  lemma TypesAreWords(allowed: seq<Scalar>)
    requires allowed == [Word("counter"), Word("gauge"), Word("summary")]
    ensures AreWords(allowed, ["counter", "gauge", "summary"])
  {
  }

  lemma KindsAreWords(allowed: seq<Scalar>)
    requires allowed == [Word("additive"), Word("ratio"), Word("peak")]
    ensures AreWords(allowed, ["additive", "ratio", "peak"])
  {
  }

  lemma RequestTable()
    ensures |REQUEST_SNAPSHOT| == 11
    ensures REQUEST_SNAPSHOT[0] == Entry("ct", STRING)
    ensures REQUEST_SNAPSHOT[1] == Entry("ti", STRING.(required := true, maxLength := Some(255)))
    ensures REQUEST_SNAPSHOT[2] == Entry("d", NUMBER)
    ensures REQUEST_SNAPSHOT[3] == Entry("p", STRING)
    ensures REQUEST_SNAPSHOT[4] == Entry("op", STRING.(required := true))
    ensures REQUEST_SNAPSHOT[5] == Entry("u", STRING)
    ensures REQUEST_SNAPSHOT[6] == Entry("tg", OBJECT)
    ensures REQUEST_SNAPSHOT[7] == Entry("e", OBJECT)
    ensures REQUEST_SNAPSHOT[8] == Entry("rq", OBJECT)
    ensures REQUEST_SNAPSHOT[9] == Entry("a", Of(OBJECT, REQUEST_ATTRIBUTES))
    ensures REQUEST_SNAPSHOT[10] == Entry("t", TRACES)
  {
    hide Word, TRACES, REQUEST_ATTRIBUTES;
  }

  lemma RequestNames()
    ensures Names(REQUEST_SNAPSHOT) == ["ct", "ti", "d", "p", "op", "u", "tg", "e", "rq", "a", "t"]
  {
    RequestTable();
    hide REQUEST_SNAPSHOT;
  }

  lemma RequestEntries(v: Json)
    requires v.Obj?
    ensures InEntry(v, REQUEST_SNAPSHOT[0], REQUEST_SNAPSHOT, STRICT) <==> TextAt(v, "ct", false, None)
    ensures InEntry(v, REQUEST_SNAPSHOT[1], REQUEST_SNAPSHOT, STRICT) <==> TextAt(v, "ti", true, Some(255))
    ensures InEntry(v, REQUEST_SNAPSHOT[2], REQUEST_SNAPSHOT, STRICT) <==> NumberAt(v, "d", false)
    ensures InEntry(v, REQUEST_SNAPSHOT[3], REQUEST_SNAPSHOT, STRICT) <==> TextAt(v, "p", false, None)
    ensures InEntry(v, REQUEST_SNAPSHOT[4], REQUEST_SNAPSHOT, STRICT) <==> TextAt(v, "op", true, None)
    ensures InEntry(v, REQUEST_SNAPSHOT[5], REQUEST_SNAPSHOT, STRICT) <==> TextAt(v, "u", false, None)
    ensures InEntry(v, REQUEST_SNAPSHOT[6], REQUEST_SNAPSHOT, STRICT) <==> ObjectAt(v, "tg")
    ensures InEntry(v, REQUEST_SNAPSHOT[7], REQUEST_SNAPSHOT, STRICT) <==> ObjectAt(v, "e")
    ensures InEntry(v, REQUEST_SNAPSHOT[8], REQUEST_SNAPSHOT, STRICT) <==> ObjectAt(v, "rq")
    ensures InEntry(v, REQUEST_SNAPSHOT[9], REQUEST_SNAPSHOT, STRICT) <==> ("a" in v.fields ==> AttributesOnTheWire(v.fields["a"]))
    ensures InEntry(v, REQUEST_SNAPSHOT[10], REQUEST_SNAPSHOT, STRICT) <==> SpansAt(v, "t")
  {
    hide InEntry, InObject, TextAt, NumberAt, ObjectAt, WordAt, SpansAt, LabelsAt, AttributesOnTheWire, REQUEST_SNAPSHOT, TRACES, Word, REQUEST_ATTRIBUTES;
    RequestTable();
    PlainEntryMeans(v, REQUEST_SNAPSHOT[0], REQUEST_SNAPSHOT);
    PlainEntryMeans(v, REQUEST_SNAPSHOT[1], REQUEST_SNAPSHOT);
    PlainEntryMeans(v, REQUEST_SNAPSHOT[2], REQUEST_SNAPSHOT);
    PlainEntryMeans(v, REQUEST_SNAPSHOT[3], REQUEST_SNAPSHOT);
    PlainEntryMeans(v, REQUEST_SNAPSHOT[4], REQUEST_SNAPSHOT);
    PlainEntryMeans(v, REQUEST_SNAPSHOT[5], REQUEST_SNAPSHOT);
    PlainEntryMeans(v, REQUEST_SNAPSHOT[6], REQUEST_SNAPSHOT);
    PlainEntryMeans(v, REQUEST_SNAPSHOT[7], REQUEST_SNAPSHOT);
    PlainEntryMeans(v, REQUEST_SNAPSHOT[8], REQUEST_SNAPSHOT);
    NestedEntryMeans(v, REQUEST_SNAPSHOT[9], REQUEST_SNAPSHOT, REQUEST_ATTRIBUTES);
    if "a" in v.fields {
      AttributesMean(v.fields["a"]);
    }
    SpansEntryMeans(v, REQUEST_SNAPSHOT[10], REQUEST_SNAPSHOT);
  }

  lemma RequestMeans(v: Json, path: Path)
    ensures CheckShape(v, REQUEST_SNAPSHOT, path, STRICT) == [] <==> RequestOnTheWire(v)
  {
    hide CheckShape, InEntry, InObject, TextAt, NumberAt, ObjectAt, WordAt, SpansAt, LabelsAt, AttributesOnTheWire, HasKey, Inherited, REQUEST_SNAPSHOT;
    ObjectIsExact(v, REQUEST_SNAPSHOT, path, STRICT);
    RequestIsIn(v);
  }

  lemma RequestIsIn(v: Json)
    ensures InObject(v, REQUEST_SNAPSHOT, STRICT) <==> RequestOnTheWire(v)
  {
    hide InEntry, TextAt, NumberAt, ObjectAt, WordAt, SpansAt, LabelsAt, AttributesOnTheWire, HasKey, Inherited, REQUEST_SNAPSHOT;
    if v.Obj? {
      RequestEntries(v);
      NamesAreKeys(v, REQUEST_SNAPSHOT);
      RequestNames();
      hide Names, NoOtherKeys;
      RequestSize();
    }
  }

  lemma RequestSize()
    ensures |REQUEST_SNAPSHOT| == 11
  {
  }

  lemma JobTable()
    ensures |JOB_SNAPSHOT| == 14
    ensures JOB_SNAPSHOT[0] == Entry("i", STRING.(required := true))
    ensures JOB_SNAPSHOT[1] == Entry("ti", STRING.(required := true, maxLength := Some(255)))
    ensures JOB_SNAPSHOT[2] == Entry("n", STRING)
    ensures JOB_SNAPSHOT[3] == Entry("q", STRING)
    ensures JOB_SNAPSHOT[4] == Entry("s", STRING)
    ensures JOB_SNAPSHOT[5] == Entry("c", STRING)
    ensures JOB_SNAPSHOT[6] == Entry("d", NUMBER)
    ensures JOB_SNAPSHOT[7] == Entry("ea", STRING)
    ensures JOB_SNAPSHOT[8] == Entry("wd", NUMBER)
    ensures JOB_SNAPSHOT[9] == Entry("am", NUMBER)
    ensures JOB_SNAPSHOT[10] == Entry("ma", NUMBER)
    ensures JOB_SNAPSHOT[11] == Entry("tg", OBJECT)
    ensures JOB_SNAPSHOT[12] == Entry("e", OBJECT)
    ensures JOB_SNAPSHOT[13] == Entry("t", TRACES)
  {
    hide Word, TRACES, REQUEST_ATTRIBUTES;
  }

  lemma JobNames()
    ensures Names(JOB_SNAPSHOT) == ["i", "ti", "n", "q", "s", "c", "d", "ea", "wd", "am", "ma", "tg", "e", "t"]
  {
    JobTable();
    hide JOB_SNAPSHOT;
  }

  lemma JobEntries(v: Json)
    requires v.Obj?
    ensures InEntry(v, JOB_SNAPSHOT[0], JOB_SNAPSHOT, STRICT) <==> TextAt(v, "i", true, None)
    ensures InEntry(v, JOB_SNAPSHOT[1], JOB_SNAPSHOT, STRICT) <==> TextAt(v, "ti", true, Some(255))
    ensures InEntry(v, JOB_SNAPSHOT[2], JOB_SNAPSHOT, STRICT) <==> TextAt(v, "n", false, None)
    ensures InEntry(v, JOB_SNAPSHOT[3], JOB_SNAPSHOT, STRICT) <==> TextAt(v, "q", false, None)
    ensures InEntry(v, JOB_SNAPSHOT[4], JOB_SNAPSHOT, STRICT) <==> TextAt(v, "s", false, None)
    ensures InEntry(v, JOB_SNAPSHOT[5], JOB_SNAPSHOT, STRICT) <==> TextAt(v, "c", false, None)
    ensures InEntry(v, JOB_SNAPSHOT[6], JOB_SNAPSHOT, STRICT) <==> NumberAt(v, "d", false)
    ensures InEntry(v, JOB_SNAPSHOT[7], JOB_SNAPSHOT, STRICT) <==> TextAt(v, "ea", false, None)
    ensures InEntry(v, JOB_SNAPSHOT[8], JOB_SNAPSHOT, STRICT) <==> NumberAt(v, "wd", false)
    ensures InEntry(v, JOB_SNAPSHOT[9], JOB_SNAPSHOT, STRICT) <==> NumberAt(v, "am", false)
    ensures InEntry(v, JOB_SNAPSHOT[10], JOB_SNAPSHOT, STRICT) <==> NumberAt(v, "ma", false)
    ensures InEntry(v, JOB_SNAPSHOT[11], JOB_SNAPSHOT, STRICT) <==> ObjectAt(v, "tg")
    ensures InEntry(v, JOB_SNAPSHOT[12], JOB_SNAPSHOT, STRICT) <==> ObjectAt(v, "e")
    ensures InEntry(v, JOB_SNAPSHOT[13], JOB_SNAPSHOT, STRICT) <==> SpansAt(v, "t")
  {
    hide InEntry, InObject, TextAt, NumberAt, ObjectAt, WordAt, SpansAt, LabelsAt, AttributesOnTheWire, JOB_SNAPSHOT, TRACES, Word, REQUEST_ATTRIBUTES;
    JobTable();
    PlainEntryMeans(v, JOB_SNAPSHOT[0], JOB_SNAPSHOT);
    PlainEntryMeans(v, JOB_SNAPSHOT[1], JOB_SNAPSHOT);
    PlainEntryMeans(v, JOB_SNAPSHOT[2], JOB_SNAPSHOT);
    PlainEntryMeans(v, JOB_SNAPSHOT[3], JOB_SNAPSHOT);
    PlainEntryMeans(v, JOB_SNAPSHOT[4], JOB_SNAPSHOT);
    PlainEntryMeans(v, JOB_SNAPSHOT[5], JOB_SNAPSHOT);
    PlainEntryMeans(v, JOB_SNAPSHOT[6], JOB_SNAPSHOT);
    PlainEntryMeans(v, JOB_SNAPSHOT[7], JOB_SNAPSHOT);
    PlainEntryMeans(v, JOB_SNAPSHOT[8], JOB_SNAPSHOT);
    PlainEntryMeans(v, JOB_SNAPSHOT[9], JOB_SNAPSHOT);
    PlainEntryMeans(v, JOB_SNAPSHOT[10], JOB_SNAPSHOT);
    PlainEntryMeans(v, JOB_SNAPSHOT[11], JOB_SNAPSHOT);
    PlainEntryMeans(v, JOB_SNAPSHOT[12], JOB_SNAPSHOT);
    SpansEntryMeans(v, JOB_SNAPSHOT[13], JOB_SNAPSHOT);
  }

  lemma JobMeans(v: Json, path: Path)
    ensures CheckShape(v, JOB_SNAPSHOT, path, STRICT) == [] <==> JobOnTheWire(v)
  {
    hide CheckShape, InEntry, InObject, TextAt, NumberAt, ObjectAt, WordAt, SpansAt, LabelsAt, AttributesOnTheWire, HasKey, Inherited, JOB_SNAPSHOT;
    ObjectIsExact(v, JOB_SNAPSHOT, path, STRICT);
    JobIsIn(v);
  }

  lemma JobIsIn(v: Json)
    ensures InObject(v, JOB_SNAPSHOT, STRICT) <==> JobOnTheWire(v)
  {
    hide InEntry, TextAt, NumberAt, ObjectAt, WordAt, SpansAt, LabelsAt, AttributesOnTheWire, HasKey, Inherited, JOB_SNAPSHOT;
    if v.Obj? {
      JobEntries(v);
      NamesAreKeys(v, JOB_SNAPSHOT);
      JobNames();
      hide Names, NoOtherKeys;
      JobSize();
    }
  }

  lemma JobSize()
    ensures |JOB_SNAPSHOT| == 14
  {
  }

  lemma MetricTable()
    ensures |CUSTOM_METRIC| == 15
    ensures CUSTOM_METRIC[0] == Entry("n", STRING.(required := true, maxLength := Some(100)))
    ensures CUSTOM_METRIC[1] == Entry("t", STRING.(required := true, oneOf := Some([Word("counter"), Word("gauge"), Word("summary")])))
    ensures CUSTOM_METRIC[2] == Entry("v", OBJECT)
    ensures CUSTOM_METRIC[3] == Entry("tg", OBJECT)
    ensures CUSTOM_METRIC[4] == Entry("d", STRING.(maxLength := Some(255)))
    ensures CUSTOM_METRIC[5] == Entry("l", STRING.(isArray := true, maxLength := Some(255), maxItems := Some(1000)))
    ensures CUSTOM_METRIC[6] == Entry("lu", NUMBER)
    ensures CUSTOM_METRIC[7] == Entry("k", STRING.(oneOf := Some([Word("additive"), Word("ratio"), Word("peak")])))
    ensures CUSTOM_METRIC[8] == Entry("iv", OBJECT)
    ensures CUSTOM_METRIC[9] == Entry("q50", OBJECT)
    ensures CUSTOM_METRIC[10] == Entry("q95", OBJECT)
    ensures CUSTOM_METRIC[11] == Entry("q99", OBJECT)
    ensures CUSTOM_METRIC[12] == Entry("ct", OBJECT)
    ensures CUSTOM_METRIC[13] == Entry("sm", OBJECT)
    ensures CUSTOM_METRIC[14] == Entry("mx", OBJECT)
  {
    hide Word, TRACES, REQUEST_ATTRIBUTES;
  }

  lemma MetricNames()
    ensures Names(CUSTOM_METRIC) == ["n", "t", "v", "tg", "d", "l", "lu", "k", "iv", "q50", "q95", "q99", "ct", "sm", "mx"]
  {
    MetricTable();
    hide CUSTOM_METRIC;
  }

  lemma MetricEntries(v: Json)
    requires v.Obj?
    ensures InEntry(v, CUSTOM_METRIC[0], CUSTOM_METRIC, STRICT) <==> TextAt(v, "n", true, Some(100))
    ensures InEntry(v, CUSTOM_METRIC[1], CUSTOM_METRIC, STRICT) <==> WordAt(v, "t", true, ["counter", "gauge", "summary"])
    ensures InEntry(v, CUSTOM_METRIC[2], CUSTOM_METRIC, STRICT) <==> ObjectAt(v, "v")
    ensures InEntry(v, CUSTOM_METRIC[3], CUSTOM_METRIC, STRICT) <==> ObjectAt(v, "tg")
    ensures InEntry(v, CUSTOM_METRIC[4], CUSTOM_METRIC, STRICT) <==> TextAt(v, "d", false, Some(255))
    ensures InEntry(v, CUSTOM_METRIC[5], CUSTOM_METRIC, STRICT) <==> LabelsAt(v, "l")
    ensures InEntry(v, CUSTOM_METRIC[6], CUSTOM_METRIC, STRICT) <==> NumberAt(v, "lu", false)
    ensures InEntry(v, CUSTOM_METRIC[7], CUSTOM_METRIC, STRICT) <==> WordAt(v, "k", false, ["additive", "ratio", "peak"])
    ensures InEntry(v, CUSTOM_METRIC[8], CUSTOM_METRIC, STRICT) <==> ObjectAt(v, "iv")
    ensures InEntry(v, CUSTOM_METRIC[9], CUSTOM_METRIC, STRICT) <==> ObjectAt(v, "q50")
    ensures InEntry(v, CUSTOM_METRIC[10], CUSTOM_METRIC, STRICT) <==> ObjectAt(v, "q95")
    ensures InEntry(v, CUSTOM_METRIC[11], CUSTOM_METRIC, STRICT) <==> ObjectAt(v, "q99")
    ensures InEntry(v, CUSTOM_METRIC[12], CUSTOM_METRIC, STRICT) <==> ObjectAt(v, "ct")
    ensures InEntry(v, CUSTOM_METRIC[13], CUSTOM_METRIC, STRICT) <==> ObjectAt(v, "sm")
    ensures InEntry(v, CUSTOM_METRIC[14], CUSTOM_METRIC, STRICT) <==> ObjectAt(v, "mx")
  {
    hide InEntry, InObject, TextAt, NumberAt, ObjectAt, WordAt, SpansAt, LabelsAt, AttributesOnTheWire, CUSTOM_METRIC, TRACES, Word, REQUEST_ATTRIBUTES;
    MetricTable();
    PlainEntryMeans(v, CUSTOM_METRIC[0], CUSTOM_METRIC);
    TypesAreWords(CUSTOM_METRIC[1].spec.oneOf.value);
    WordEntryMeans(v, CUSTOM_METRIC[1], CUSTOM_METRIC, ["counter", "gauge", "summary"]);
    PlainEntryMeans(v, CUSTOM_METRIC[2], CUSTOM_METRIC);
    PlainEntryMeans(v, CUSTOM_METRIC[3], CUSTOM_METRIC);
    PlainEntryMeans(v, CUSTOM_METRIC[4], CUSTOM_METRIC);
    LabelsEntryMeans(v, CUSTOM_METRIC[5], CUSTOM_METRIC);
    PlainEntryMeans(v, CUSTOM_METRIC[6], CUSTOM_METRIC);
    KindsAreWords(CUSTOM_METRIC[7].spec.oneOf.value);
    WordEntryMeans(v, CUSTOM_METRIC[7], CUSTOM_METRIC, ["additive", "ratio", "peak"]);
    PlainEntryMeans(v, CUSTOM_METRIC[8], CUSTOM_METRIC);
    PlainEntryMeans(v, CUSTOM_METRIC[9], CUSTOM_METRIC);
    PlainEntryMeans(v, CUSTOM_METRIC[10], CUSTOM_METRIC);
    PlainEntryMeans(v, CUSTOM_METRIC[11], CUSTOM_METRIC);
    PlainEntryMeans(v, CUSTOM_METRIC[12], CUSTOM_METRIC);
    PlainEntryMeans(v, CUSTOM_METRIC[13], CUSTOM_METRIC);
    PlainEntryMeans(v, CUSTOM_METRIC[14], CUSTOM_METRIC);
  }

  lemma MetricMeans(v: Json, path: Path)
    ensures CheckShape(v, CUSTOM_METRIC, path, STRICT) == [] <==> MetricOnTheWire(v)
  {
    hide CheckShape, InEntry, InObject, TextAt, NumberAt, ObjectAt, WordAt, SpansAt, LabelsAt, AttributesOnTheWire, HasKey, Inherited, CUSTOM_METRIC;
    ObjectIsExact(v, CUSTOM_METRIC, path, STRICT);
    MetricIsIn(v);
  }

  lemma MetricIsIn(v: Json)
    ensures InObject(v, CUSTOM_METRIC, STRICT) <==> MetricOnTheWire(v)
  {
    hide InEntry, TextAt, NumberAt, ObjectAt, WordAt, SpansAt, LabelsAt, AttributesOnTheWire, HasKey, Inherited, CUSTOM_METRIC;
    if v.Obj? {
      MetricEntries(v);
      NamesAreKeys(v, CUSTOM_METRIC);
      MetricNames();
      hide Names, NoOtherKeys;
      MetricSize();
    }
  }

  lemma MetricSize()
    ensures |CUSTOM_METRIC| == 15
  {
  }
}
