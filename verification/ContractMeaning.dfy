/** What the contract lets through, said of values alone: which values a field takes, an
    object has and an array holds. The validator is this, in both directions. */
module ContractMeaning {
  import opened WireContract
  import opened WireRepair
  import opened TelemetryShapes

  // ----- how long a text is -----------------------------------------------------------------

  predicate HighSurrogate(c: CodeUnit) {
    0xD800 <= c <= 0xDBFF
  }

  predicate LowSurrogate(c: CodeUnit) {
    0xDC00 <= c <= 0xDFFF
  }

  lemma {:induction false} PairsAfter(c: CodeUnit, text: Text, from: nat)
    requires from <= |text|
    ensures Pairs([c] + text, from + 1) == Pairs(text, from)
    decreases |text| - from
  {
    if from < |text| {
      PairsAfter(c, text, from + 1);
      assert IsPair([c] + text, from + 1) <==> IsPair(text, from);
    }
  }

  lemma {:induction false} SelectorsAfter(c: CodeUnit, text: Text, from: nat)
    requires from <= |text|
    ensures Selectors([c] + text, from + 1) == Selectors(text, from)
    decreases |text| - from
  {
    if from < |text| {
      SelectorsAfter(c, text, from + 1);
    }
  }

  /** The count, unit by unit from the front: a selector is no character, a high surrogate
      none of its own before a low one, and every other unit is one. */
  lemma CharactersOneMore(c: CodeUnit, text: Text)
    ensures Characters([]) == 0
    ensures Characters([c] + text) == Characters(text) +
      if c == 0xFE0E || c == 0xFE0F then 0
      else if HighSurrogate(c) && text != [] && LowSurrogate(text[0]) then 0
      else 1
  {
    PairsAfter(c, text, 0);
    SelectorsAfter(c, text, 0);
    assert IsPair([c] + text, 0) <==> HighSurrogate(c) && text != [] && LowSurrogate(text[0]);
  }

  // ----- what a field takes ------------------------------------------------------------------

  /** Taken for its type alone, the field's other limits aside. */
  predicate AlsoTaken(v: Json, types: seq<FieldType>) {
    match v
    case Undefined => false
    case Bool(_) => BooleanType in types
    case Num(_) => NumberType in types
    case Str(_) => StringType in types
    case _ => ObjectType in types
  }

  /** Taken by a field that is neither an array nor an object with a contract. */
  predicate Taken(v: Json, spec: FieldSpec, finiteOnly: bool) {
    match v
    case Str(text) =>
      && spec.fieldType == StringType
      && (spec.oneOf.Some? ==> TextScalar(text) in spec.oneOf.value)
      && (spec.maxLength.Some? ==> Characters(text) <= spec.maxLength.value)
    case Num(number) =>
      && spec.fieldType == NumberType
      && (finiteOnly ==> number.Finite?)
      && (spec.oneOf.Some? ==> number.Finite? && NumberScalar(number.value) in spec.oneOf.value)
    case Bool(_) => spec.fieldType == BooleanType && spec.oneOf.None?
    case Obj(_) => spec.fieldType == ObjectType
    case _ => false
  }

  predicate Inherited(key: string) {
    key in {"constructor", "hasOwnProperty", "isPrototypeOf", "propertyIsEnumerable", "toLocaleString",
            "toString", "valueOf", "__proto__", "__defineGetter__", "__defineSetter__",
            "__lookupGetter__", "__lookupSetter__"}
  }

  predicate HasKey(shape: Shape, key: string) {
    exists e :: e in shape && e.key == key
  }

  // ----- what an object and a field hold, to any depth ------------------------------------------

  ghost predicate InObject(v: Json, shape: Shape, options: Options)
    decreases v, 1
  {
    && v.Obj?
    && (options.forbidUnknown ==> forall key :: key in v.fields ==> HasKey(shape, key) || Inherited(key))
    && (forall i :: 0 <= i < |shape| ==> InEntry(v, shape[i], shape, options))
  }

  ghost predicate InEntry(v: Json, e: Entry, shape: Shape, options: Options)
    requires v.Obj?
    decreases v, 0
  {
    if e.key !in v.fields then !e.spec.required
    else if v.fields[e.key].Undefined? || v.fields[e.key].Null? then !e.spec.required && !options.noNulls
    else InField(v.fields[e.key], e.spec, shape, options)
  }

  ghost predicate InField(v: Json, spec: FieldSpec, parent: Shape, options: Options)
    decreases v, 3
  {
    if spec.isArray then
      && v.Arr?
      && (spec.maxItems.Some? ==> |v.items| <= spec.maxItems.value)
      && (forall i :: 0 <= i < |v.items| ==> InOne(v.items[i], spec, parent, options))
    else InOne(v, spec, parent, options)
  }

  /** A field's one value, or one element of its array. */
  ghost predicate InOne(v: Json, spec: FieldSpec, parent: Shape, options: Options)
    decreases v, 2
  {
    || AlsoTaken(v, spec.alsoAccepts)
    || (if spec.recursive then InObject(v, parent, options)
        else if spec.shape.Modelled? then InObject(v, spec.shape.entries, options)
        else Taken(v, spec, options.finiteOnly))
  }

  // ----- and that is what the validator says -----------------------------------------------------

  lemma AlsoTakenIsTypeOf(v: Json, types: seq<FieldType>)
    ensures AlsoTaken(v, types) <==> TypeOf(v).Some? && TypeOf(v).value in types
  {
  }

  lemma UndeclaredIsUnknown(fields: map<string, Json>, shape: Shape)
    ensures Undeclared(fields, shape) == {} <==> forall key :: key in fields ==> HasKey(shape, key) || Inherited(key)
  {
    forall key
      ensures KeyIn(key, shape) <==> HasKey(shape, key) || Inherited(key)
    {
      if HasKey(shape, key) {
        var e :| e in shape && e.key == key;
        var i :| 0 <= i < |shape| && shape[i] == e;
      }
      if Declares(shape, key) {
        var i :| 0 <= i < |shape| && shape[i].key == key;
        assert shape[i] in shape;
      }
    }
    if Undeclared(fields, shape) == {} {
      forall key | key in fields
        ensures HasKey(shape, key) || Inherited(key)
      {
        assert key !in Undeclared(fields, shape);
      }
    }
  }

  /** Of one value that is no modelled object, whatever else its field says. */
  lemma FlatIsTaken(v: Json, spec: FieldSpec, path: Path, options: Options)
    requires !AlsoTaken(v, spec.alsoAccepts)
    requires !spec.isArray && !spec.recursive && spec.shape.PassedThrough?
    ensures forall parent :: CheckField(v, spec, parent, path, options) == [] <==> Taken(v, spec, options.finiteOnly)
    ensures forall parent :: RepairField(v, spec, parent, path).value == v
    ensures forall parent :: RepairField(v, spec, parent, path).ok <==> Taken(v, spec, true)
  {
    AlsoTakenIsTypeOf(v, spec.alsoAccepts);
  }

  lemma {:induction false} OneIsExact(v: Json, spec: FieldSpec, parent: Shape, path: Path, options: Options)
    requires !spec.isArray
    ensures CheckField(v, spec, parent, path, options) == [] <==> InOne(v, spec, parent, options)
    decreases v, 2
  {
    AlsoTakenIsTypeOf(v, spec.alsoAccepts);
    if AlsoTaken(v, spec.alsoAccepts) {
    } else if spec.recursive {
      ObjectIsExact(v, parent, path, options);
      hide InObject, CheckShape;
    } else if spec.shape.Modelled? {
      ObjectIsExact(v, spec.shape.entries, path, options);
      hide InObject, CheckShape;
    } else {
      FlatIsTaken(v, spec, path, options);
    }
  }

  lemma {:induction false} ValueIsExact(v: Json, spec: FieldSpec, parent: Shape, path: Path, options: Options)
    ensures CheckField(v, spec, parent, path, options) == [] <==> InField(v, spec, parent, options)
    decreases v, 3
  {
    hide InOne;
    if !spec.isArray {
      OneIsExact(v, spec, parent, path, options);
    } else if v.Arr? {
      ItemsCheck(v, 0, spec, parent, path, options);
      forall i | 0 <= i < |v.items|
        ensures CheckField(v.items[i], Element(spec), parent, path + [Index(i)], options) == []
           <==> InOne(v.items[i], spec, parent, options)
      {
        OneIsExact(v.items[i], Element(spec), parent, path + [Index(i)], options);
        ElementIsOne(v.items[i], spec, parent, options);
      }
    }
  }

  lemma ElementIsOne(v: Json, spec: FieldSpec, parent: Shape, options: Options)
    ensures InOne(v, Element(spec), parent, options) <==> InOne(v, spec, parent, options)
  {
  }

  /** The validator itself lets through what the wire does not carry: a number that is none,
      and a key that holds null, which JSON and the API's own checks turn into a refusal. */
  lemma LooserThanTheWire(v: Json, spec: FieldSpec, parent: Shape, path: Path)
    requires spec == NUMBER && v.Num?
    ensures CheckField(v, spec, parent, path, FORBID_UNKNOWN) == []
    ensures CheckField(v, spec, parent, path, STRICT) == [] <==> v.number.Finite?
    ensures CheckEntry(Obj(map["d" := Null]), Entry("d", spec), parent, path, FORBID_UNKNOWN) == []
    ensures CheckEntry(Obj(map["d" := Null]), Entry("d", spec), parent, path, STRICT) != []
    ensures FORBID_UNKNOWN.forbidUnknown && STRICT.forbidUnknown && STRICT_BUT_NULLS == STRICT.(noNulls := false)
  {
    FlatIsTaken(v, spec, path, FORBID_UNKNOWN);
    FlatIsTaken(v, spec, path, STRICT);
  }

  lemma {:induction false} EntryIsIn(v: Json, e: Entry, shape: Shape, path: Path, options: Options)
    requires v.Obj?
    ensures CheckEntry(v, e, shape, path, options) == [] <==> InEntry(v, e, shape, options)
    decreases v, 0
  {
    if e.key in v.fields {
      ValueIsExact(v.fields[e.key], e.spec, shape, path + [Key(e.key)], options);
      hide InField, CheckField;
    }
  }

  /** For any value, shape and options: the validator has nothing to report exactly when the
      value is what the contract lets through. */
  lemma {:induction false} ObjectIsExact(v: Json, shape: Shape, path: Path, options: Options)
    ensures CheckShape(v, shape, path, options) == [] <==> InObject(v, shape, options)
    decreases v, 1
  {
    if v.Obj? {
      hide CheckEntry, CheckEntries, InEntry, Undeclared;
      EntriesCheck(v, shape, shape, path, options);
      UndeclaredIsUnknown(v.fields, shape);
      forall i | 0 <= i < |shape|
        ensures CheckEntry(v, shape[i], shape, path, options) == [] <==> InEntry(v, shape[i], shape, options)
      {
        EntryIsIn(v, shape[i], shape, path, options);
      }
    }
  }

  // ----- two of the contract's own shapes, spelt out -------------------------------------------

  predicate NoOtherKeys(v: Json, keys: seq<string>)
    requires v.Obj?
  {
    forall key :: key in v.fields ==> key in keys || Inherited(key)
  }

  predicate TextAt(v: Json, key: string, required: bool, most: Option<nat>)
    requires v.Obj?
  {
    if key !in v.fields then !required
    else v.fields[key].Str? && (most.Some? ==> Characters(v.fields[key].text) <= most.value)
  }

  predicate Spells(text: Text, word: string) {
    |text| == |word| && forall i :: 0 <= i < |word| ==> text[i] == word[i] as int
  }

  predicate WordAt(v: Json, key: string, required: bool, words: seq<string>)
    requires v.Obj?
  {
    if key !in v.fields then !required
    else v.fields[key].Str? && exists i :: 0 <= i < |words| && Spells(v.fields[key].text, words[i])
  }

  predicate NumberAt(v: Json, key: string, required: bool)
    requires v.Obj?
  {
    if key !in v.fields then !required else v.fields[key].Num? && v.fields[key].number.Finite?
  }

  predicate ObjectAt(v: Json, key: string)
    requires v.Obj?
  {
    key in v.fields ==> v.fields[key].Obj?
  }

  /** A log entry as the wire takes it. */
  predicate LogEntryOnTheWire(v: Json) {
    && v.Obj?
    && NoOtherKeys(v, ["timestamp", "text", "traceId", "spanId", "level", "context", "attributes"])
    && NumberAt(v, "timestamp", true)
    && TextAt(v, "text", true, None)
    && TextAt(v, "traceId", false, Some(255))
    && TextAt(v, "spanId", false, Some(255))
    && WordAt(v, "level", false, ["fatal", "error", "warn", "log", "debug", "verbose"])
    && TextAt(v, "context", false, Some(255))
    && ObjectAt(v, "attributes")
  }

  /** A span and every span under it: what failed on it is an object, or just that it did. */
  ghost predicate SpanOnTheWire(v: Json)
    decreases v
  {
    && v.Obj?
    && NoOtherKeys(v, ["n", "o", "t", "d", "e", "c", "m", "s", "so", "ch"])
    && TextAt(v, "n", false, Some(255))
    && WordAt(v, "o", true, ["manual", "auto"])
    && ObjectAt(v, "t")
    && NumberAt(v, "d", false)
    && ("e" in v.fields ==> v.fields["e"].Obj? || v.fields["e"].Bool?)
    && TextAt(v, "c", true, Some(255))
    && TextAt(v, "m", true, Some(255))
    && TextAt(v, "s", false, None)
    && NumberAt(v, "so", false)
    && ("ch" in v.fields ==> v.fields["ch"].Arr? && forall i :: 0 <= i < |v.fields["ch"].items| ==> SpanOnTheWire(v.fields["ch"].items[i]))
  }

  lemma FlatFieldMeans(v: Json, spec: FieldSpec, parent: Shape)
    requires !spec.isArray && !spec.recursive && spec.shape.PassedThrough?
    ensures InField(v, spec, parent, STRICT) <==> AlsoTaken(v, spec.alsoAccepts) || Taken(v, spec, true)
  {
    assert InField(v, spec, parent, STRICT) <==> InOne(v, spec, parent, STRICT);
  }

  lemma PlainEntryMeans(v: Json, e: Entry, shape: Shape)
    requires v.Obj? && e.spec.alsoAccepts == [] && !e.spec.isArray && !e.spec.recursive && e.spec.shape.PassedThrough? && e.spec.oneOf.None?
    ensures e.spec.fieldType == StringType ==> (InEntry(v, e, shape, STRICT) <==> TextAt(v, e.key, e.spec.required, e.spec.maxLength))
    ensures e.spec.fieldType == NumberType ==> (InEntry(v, e, shape, STRICT) <==> NumberAt(v, e.key, e.spec.required))
    ensures e.spec.fieldType == ObjectType && !e.spec.required ==> (InEntry(v, e, shape, STRICT) <==> ObjectAt(v, e.key))
  {
    if e.key in v.fields {
      FlatFieldMeans(v.fields[e.key], e.spec, shape);
    }
  }

  ghost predicate AreWords(allowed: seq<Scalar>, words: seq<string>) {
    |allowed| == |words| && forall i :: 0 <= i < |words| ==> allowed[i].TextScalar? && Spells(allowed[i].text, words[i])
  }

  lemma WordEntryMeans(v: Json, e: Entry, shape: Shape, words: seq<string>)
    requires v.Obj? && e.spec.alsoAccepts == [] && !e.spec.isArray && !e.spec.recursive && e.spec.shape.PassedThrough? && e.spec.maxLength.None?
    requires e.spec.fieldType == StringType && e.spec.oneOf.Some? && AreWords(e.spec.oneOf.value, words)
    ensures InEntry(v, e, shape, STRICT) <==> WordAt(v, e.key, e.spec.required, words)
  {
    if e.key in v.fields {
      FlatFieldMeans(v.fields[e.key], e.spec, shape);
      if v.fields[e.key].Str? {
        OneOfMeans(v.fields[e.key].text, e.spec.oneOf.value, words);
      }
    }
  }

  lemma OneOfMeans(text: Text, allowed: seq<Scalar>, words: seq<string>)
    requires AreWords(allowed, words)
    ensures TextScalar(text) in allowed <==> exists i :: 0 <= i < |words| && Spells(text, words[i])
  {
    if TextScalar(text) in allowed {
      var i :| 0 <= i < |words| && allowed[i] == TextScalar(text);
      assert Spells(text, words[i]);
    }
    if exists i :: 0 <= i < |words| && Spells(text, words[i]) {
      var i :| 0 <= i < |words| && Spells(text, words[i]);
      assert text == allowed[i].text;
    }
  }

  lemma LevelsAreWords()
    ensures AreWords(LOG_LEVELS, ["fatal", "error", "warn", "log", "debug", "verbose"])
  {
  }

  lemma OriginsAreWords(allowed: seq<Scalar>)
    requires allowed == [Word("manual"), Word("auto")]
    ensures AreWords(allowed, ["manual", "auto"])
  {
  }

  function Names(shape: Shape): (names: seq<string>)
    ensures |names| == |shape|
  {
    seq(|shape|, i requires 0 <= i < |shape| => shape[i].key)
  }

  lemma NamesAreKeys(v: Json, shape: Shape)
    requires v.Obj?
    ensures (forall key :: key in v.fields ==> HasKey(shape, key) || Inherited(key)) <==> NoOtherKeys(v, Names(shape))
  {
    forall key
      ensures HasKey(shape, key) <==> key in Names(shape)
    {
      if HasKey(shape, key) {
        var e :| e in shape && e.key == key;
        var i :| 0 <= i < |shape| && shape[i] == e;
        assert Names(shape)[i] == key;
      }
      if key in Names(shape) {
        var i :| 0 <= i < |shape| && Names(shape)[i] == key;
        assert shape[i] in shape;
      }
    }
  }

  lemma NamesOfLogEntry()
    ensures |LOG_ENTRY| == 7
    ensures Names(LOG_ENTRY) == ["timestamp", "text", "traceId", "spanId", "level", "context", "attributes"]
  {
  }

  lemma NamesOfSpan()
    ensures |TRACE_NODE| == 10
    ensures Names(TRACE_NODE) == ["n", "o", "t", "d", "e", "c", "m", "s", "so", "ch"]
  {
  }

  lemma LogTable()
    ensures |LOG_ENTRY| == 7
    ensures LOG_ENTRY[0] == Entry("timestamp", NUMBER.(required := true)) && LOG_ENTRY[1] == Entry("text", STRING.(required := true))
    ensures LOG_ENTRY[2] == Entry("traceId", STRING.(maxLength := Some(255))) && LOG_ENTRY[3] == Entry("spanId", STRING.(maxLength := Some(255)))
    ensures LOG_ENTRY[4] == Entry("level", STRING.(oneOf := Some(LOG_LEVELS))) && LOG_ENTRY[5] == Entry("context", STRING.(maxLength := Some(255)))
    ensures LOG_ENTRY[6] == Entry("attributes", OBJECT)
  {
    hide LOG_LEVELS;
  }

  lemma LogEntries(v: Json)
    requires v.Obj?
    ensures |LOG_ENTRY| == 7
    ensures InEntry(v, LOG_ENTRY[0], LOG_ENTRY, STRICT) <==> NumberAt(v, "timestamp", true)
    ensures InEntry(v, LOG_ENTRY[1], LOG_ENTRY, STRICT) <==> TextAt(v, "text", true, None)
    ensures InEntry(v, LOG_ENTRY[2], LOG_ENTRY, STRICT) <==> TextAt(v, "traceId", false, Some(255))
    ensures InEntry(v, LOG_ENTRY[3], LOG_ENTRY, STRICT) <==> TextAt(v, "spanId", false, Some(255))
    ensures InEntry(v, LOG_ENTRY[4], LOG_ENTRY, STRICT) <==> WordAt(v, "level", false, ["fatal", "error", "warn", "log", "debug", "verbose"])
    ensures InEntry(v, LOG_ENTRY[5], LOG_ENTRY, STRICT) <==> TextAt(v, "context", false, Some(255))
    ensures InEntry(v, LOG_ENTRY[6], LOG_ENTRY, STRICT) <==> ObjectAt(v, "attributes")
  {
    hide InEntry, TextAt, NumberAt, ObjectAt, WordAt, LOG_ENTRY, LOG_LEVELS;
    LogTable();
    LevelsAreWords();
    PlainEntryMeans(v, LOG_ENTRY[0], LOG_ENTRY);
    PlainEntryMeans(v, LOG_ENTRY[1], LOG_ENTRY);
    PlainEntryMeans(v, LOG_ENTRY[2], LOG_ENTRY);
    PlainEntryMeans(v, LOG_ENTRY[3], LOG_ENTRY);
    WordEntryMeans(v, LOG_ENTRY[4], LOG_ENTRY, ["fatal", "error", "warn", "log", "debug", "verbose"]);
    PlainEntryMeans(v, LOG_ENTRY[5], LOG_ENTRY);
    PlainEntryMeans(v, LOG_ENTRY[6], LOG_ENTRY);
  }

  lemma LogEntryMeans(v: Json, path: Path)
    ensures CheckShape(v, LOG_ENTRY, path, STRICT) == [] <==> LogEntryOnTheWire(v)
  {
    hide InEntry, CheckShape, TextAt, NumberAt, ObjectAt, WordAt, HasKey, Inherited, LOG_ENTRY;
    ObjectIsExact(v, LOG_ENTRY, path, STRICT);
    if v.Obj? {
      LogEntries(v);
      NamesAreKeys(v, LOG_ENTRY);
      NamesOfLogEntry();
      hide Names, NoOtherKeys;
    }
  }

  lemma ErrorEntryMeans(v: Json, e: Entry, shape: Shape)
    requires v.Obj? && e == Entry("e", OBJECT.(alsoAccepts := [BooleanType]))
    ensures InEntry(v, e, shape, STRICT) <==> ("e" in v.fields ==> v.fields["e"].Obj? || v.fields["e"].Bool?)
  {
    if "e" in v.fields {
      FlatFieldMeans(v.fields["e"], e.spec, shape);
    }
  }

  lemma ChildrenMean(v: Json, e: Entry, shape: Shape)
    requires v.Obj? && e == Entry("ch", OBJECTS.(recursive := true))
    ensures InEntry(v, e, shape, STRICT) <==>
      ("ch" in v.fields ==> v.fields["ch"].Arr? && forall i :: 0 <= i < |v.fields["ch"].items| ==> InObject(v.fields["ch"].items[i], shape, STRICT))
  {
    if "ch" in v.fields && v.fields["ch"].Arr? {
      var items := v.fields["ch"].items;
      forall i | 0 <= i < |items|
        ensures InOne(items[i], e.spec, shape, STRICT) <==> InObject(items[i], shape, STRICT)
      {
        assert !AlsoTaken(items[i], e.spec.alsoAccepts);
      }
      hide InOne;
      assert InField(v.fields["ch"], e.spec, shape, STRICT) <==> forall i :: 0 <= i < |items| ==> InOne(items[i], e.spec, shape, STRICT);
    }
  }

  lemma SpanTable()
    ensures |TRACE_NODE| == 10
    ensures TRACE_NODE[0] == Entry("n", STRING.(maxLength := Some(255)))
    ensures TRACE_NODE[1] == Entry("o", STRING.(required := true, oneOf := Some([Word("manual"), Word("auto")])))
    ensures TRACE_NODE[2] == Entry("t", OBJECT) && TRACE_NODE[3] == Entry("d", NUMBER)
    ensures TRACE_NODE[4] == Entry("e", OBJECT.(alsoAccepts := [BooleanType]))
    ensures TRACE_NODE[5] == Entry("c", STRING.(required := true, maxLength := Some(255)))
    ensures TRACE_NODE[6] == Entry("m", STRING.(required := true, maxLength := Some(255)))
    ensures TRACE_NODE[7] == Entry("s", STRING) && TRACE_NODE[8] == Entry("so", NUMBER)
    ensures TRACE_NODE[9] == Entry("ch", OBJECTS.(recursive := true))
  {
    hide Word;
  }

  lemma SpanEntries(v: Json)
    requires v.Obj?
    ensures |TRACE_NODE| == 10
    ensures InEntry(v, TRACE_NODE[0], TRACE_NODE, STRICT) <==> TextAt(v, "n", false, Some(255))
    ensures InEntry(v, TRACE_NODE[1], TRACE_NODE, STRICT) <==> WordAt(v, "o", true, ["manual", "auto"])
    ensures InEntry(v, TRACE_NODE[2], TRACE_NODE, STRICT) <==> ObjectAt(v, "t")
    ensures InEntry(v, TRACE_NODE[3], TRACE_NODE, STRICT) <==> NumberAt(v, "d", false)
    ensures TRACE_NODE[4] == Entry("e", OBJECT.(alsoAccepts := [BooleanType]))
    ensures InEntry(v, TRACE_NODE[5], TRACE_NODE, STRICT) <==> TextAt(v, "c", true, Some(255))
    ensures InEntry(v, TRACE_NODE[6], TRACE_NODE, STRICT) <==> TextAt(v, "m", true, Some(255))
    ensures InEntry(v, TRACE_NODE[7], TRACE_NODE, STRICT) <==> TextAt(v, "s", false, None)
    ensures InEntry(v, TRACE_NODE[8], TRACE_NODE, STRICT) <==> NumberAt(v, "so", false)
    ensures TRACE_NODE[9] == Entry("ch", OBJECTS.(recursive := true))
  {
    hide InEntry, TextAt, NumberAt, ObjectAt, WordAt, TRACE_NODE, Word;
    SpanTable();
    OriginsAreWords(TRACE_NODE[1].spec.oneOf.value);
    PlainEntryMeans(v, TRACE_NODE[0], TRACE_NODE);
    WordEntryMeans(v, TRACE_NODE[1], TRACE_NODE, ["manual", "auto"]);
    PlainEntryMeans(v, TRACE_NODE[2], TRACE_NODE);
    PlainEntryMeans(v, TRACE_NODE[3], TRACE_NODE);
    PlainEntryMeans(v, TRACE_NODE[5], TRACE_NODE);
    PlainEntryMeans(v, TRACE_NODE[6], TRACE_NODE);
    PlainEntryMeans(v, TRACE_NODE[7], TRACE_NODE);
    PlainEntryMeans(v, TRACE_NODE[8], TRACE_NODE);
  }

  lemma {:induction false} SpanIsIn(v: Json)
    ensures InObject(v, TRACE_NODE, STRICT) <==> SpanOnTheWire(v)
    decreases v
  {
    hide InEntry, TextAt, NumberAt, ObjectAt, WordAt, HasKey, Inherited, TRACE_NODE;
    if v.Obj? {
      SpanEntries(v);
      NamesAreKeys(v, TRACE_NODE);
      NamesOfSpan();
      hide Names, NoOtherKeys;
      ErrorEntryMeans(v, TRACE_NODE[4], TRACE_NODE);
      ChildrenMean(v, TRACE_NODE[9], TRACE_NODE);
      if "ch" in v.fields && v.fields["ch"].Arr? {
        forall i | 0 <= i < |v.fields["ch"].items|
          ensures InObject(v.fields["ch"].items[i], TRACE_NODE, STRICT) <==> SpanOnTheWire(v.fields["ch"].items[i])
        {
          SpanIsIn(v.fields["ch"].items[i]);
        }
      }
    }
  }

  /** A span is in contract exactly when it and all the spans under it are, to any depth. */
  lemma SpanMeans(v: Json, path: Path)
    ensures CheckShape(v, TRACE_NODE, path, STRICT) == [] <==> SpanOnTheWire(v)
  {
    ObjectIsExact(v, TRACE_NODE, path, STRICT);
    SpanIsIn(v);
    hide CheckShape, InObject, SpanOnTheWire;
  }
}
