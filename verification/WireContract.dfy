/** The contract a telemetry batch keeps: the schema language, the validator that
    judges a value by it, and the repairer that brings a value into it. */
module WireContract {

  datatype Option<+T> = None | Some(value: T)

  // ----- values ---------------------------------------------------------------

  /** A UTF-16 code unit, which is what a JavaScript string is made of. */
  type CodeUnit = n: int | 0 <= n < 0x1_0000
  type Text = seq<CodeUnit>

  datatype Number = Finite(value: real) | NaN | PositiveInfinity | NegativeInfinity

  datatype Json =
    | Undefined
    | Null
    | Bool(flag: bool)
    | Num(number: Number)
    | Str(text: Text)
    | Arr(items: seq<Json>)
    | Obj(fields: map<string, Json>)

  datatype FieldType = StringType | NumberType | BooleanType | ObjectType

  /** `typeof`, where it names a type the contract has a word for. */
  function TypeOf(v: Json): Option<FieldType> {
    match v
    case Undefined => None
    case Null => Some(ObjectType)
    case Bool(_) => Some(BooleanType)
    case Num(_) => Some(NumberType)
    case Str(_) => Some(StringType)
    case Arr(_) => Some(ObjectType)
    case Obj(_) => Some(ObjectType)
  }

  predicate Present(v: Json) {
    !v.Undefined? && !v.Null?
  }

  /** `value[key]`. */
  function Get(fields: map<string, Json>, key: string): Json {
    if key in fields then fields[key] else Undefined
  }

  // ----- the schema language ------------------------------------------------------

  datatype Scalar = TextScalar(text: Text) | NumberScalar(value: real)

  datatype FieldSpec = FieldSpec(
    fieldType: FieldType,
    alsoAccepts: seq<FieldType>,
    required: bool,
    fallback: Option<Json>,
    isArray: bool,
    shape: Contract,
    recursive: bool,
    maxLength: Option<nat>,
    oneOf: Option<seq<Scalar>>,
    maxItems: Option<nat>)

  /** An object the API passes through, or one it models field by field. */
  datatype Contract = PassedThrough | Modelled(entries: seq<Entry>)

  datatype Entry = Entry(key: string, spec: FieldSpec)

  /** The declared fields, in the order they are declared. */
  type Shape = seq<Entry>

  /** What every plain object answers `in` for without declaring it. */
  const INHERITED: set<string> := {
    "constructor", "hasOwnProperty", "isPrototypeOf", "propertyIsEnumerable", "toLocaleString",
    "toString", "valueOf", "__proto__", "__defineGetter__", "__defineSetter__",
    "__lookupGetter__", "__lookupSetter__"
  }

  predicate Declares(shape: Shape, key: string) {
    exists i :: 0 <= i < |shape| && shape[i].key == key
  }

  /** `key in shape`: declared, or inherited from `Object.prototype`. */
  predicate KeyIn(key: string, shape: Shape) {
    Declares(shape, key) || key in INHERITED
  }

  function Undeclared(fields: map<string, Json>, shape: Shape): set<string> {
    set key | key in fields && !KeyIn(key, shape)
  }

  /** The contract of an object in this field: `recursive` means the shape the
      field itself lives in. */
  function Nested(spec: FieldSpec, parent: Shape): Contract {
    if spec.recursive then Modelled(parent) else spec.shape
  }

  function Element(spec: FieldSpec): FieldSpec {
    spec.(isArray := false)
  }

  // ----- text length, as the API counts it ------------------------------------------

  predicate IsPair(text: Text, i: nat)
    requires i < |text|
  {
    i + 1 < |text| && 0xD800 <= text[i] <= 0xDBFF && 0xDC00 <= text[i + 1] <= 0xDFFF
  }

  function Pairs(text: Text, from: nat): nat
    requires from <= |text|
    decreases |text| - from
  {
    if from == |text| then 0
    else if IsPair(text, from) then 1 + Pairs(text, from + 1)
    else Pairs(text, from + 1)
  }

  function Selectors(text: Text, from: nat): nat
    requires from <= |text|
    decreases |text| - from
  {
    if from == |text| then 0
    else (if text[from] == 0xFE0E || text[from] == 0xFE0F then 1 else 0) + Selectors(text, from + 1)
  }

  /** Characters, with a surrogate pair counted once and a variation selector not at all. */
  function Characters(text: Text): int {
    |text| - Pairs(text, 0) - Selectors(text, 0)
  }

  predicate ExceedsMaxLength(text: Text, maxLength: nat) {
    |text| > maxLength && Characters(text) > maxLength
  }

  /** The shortcut on `.length` changes no answer. */
  lemma LengthShortcutIsExact(text: Text, maxLength: nat)
    ensures ExceedsMaxLength(text, maxLength) <==> Characters(text) > maxLength
  {
  }

  function ScalarOf(v: Json): Option<Scalar> {
    match v
    case Str(text) => Some(TextScalar(text))
    case Num(Finite(n)) => Some(NumberScalar(n))
    case _ => None
  }

  predicate OneOf(v: Json, allowed: seq<Scalar>) {
    ScalarOf(v).Some? && ScalarOf(v).value in allowed
  }

  // ----- problems ---------------------------------------------------------------------

  datatype Step = Key(key: string) | Index(index: nat)
  type Path = seq<Step>

  datatype Kind =
    | ExpectedObject
    | ExpectedArray
    | TooManyItems
    | WrongType
    | NotOneOf
    | TooLong
    | Required
    | NonFinite
    | ExplicitNull
    | SentAs(fallback: Json)
    | NotDeclared(keys: set<string>)

  /** One report. The undeclared keys of one object are one report here, since the
      order they are listed in is the order they were inserted. */
  datatype Problem = Problem(path: Path, kind: Kind)

  // ----- the validator ------------------------------------------------------------------

  /** `forbidUnknown` is the validator's own option. The other two make it stricter,
      as the wire is: a non-finite number is a null there, and a present null fails
      the API's type checks. */
  datatype Options = Options(forbidUnknown: bool, finiteOnly: bool, noNulls: bool)

  const STRICT := Options(true, true, true)
  const STRICT_BUT_NULLS := Options(true, true, false)
  const FORBID_UNKNOWN := Options(true, false, false)

  function CheckShape(v: Json, shape: Shape, path: Path, options: Options): seq<Problem>
    decreases v, 2, 0
  {
    if !v.Obj? then [Problem(path, ExpectedObject)] else
      CheckEntries(v, shape, shape, path, options)
      + if options.forbidUnknown && Undeclared(v.fields, shape) != {}
        then [Problem(path, NotDeclared(Undeclared(v.fields, shape)))] else []
  }

  function CheckEntries(v: Json, entries: seq<Entry>, shape: Shape, path: Path, options: Options): seq<Problem>
    requires v.Obj?
    decreases v, 1, |entries|
  {
    if entries == [] then [] else
      CheckEntry(v, entries[0], shape, path, options) + CheckEntries(v, entries[1..], shape, path, options)
  }

  function CheckEntry(v: Json, e: Entry, shape: Shape, path: Path, options: Options): seq<Problem>
    requires v.Obj?
    decreases v, 0, 0
  {
    if !Present(Get(v.fields, e.key)) then
      if e.spec.required then [Problem(path + [Key(e.key)], Required)]
      else if options.noNulls && e.key in v.fields then [Problem(path + [Key(e.key)], ExplicitNull)]
      else []
    else CheckField(v.fields[e.key], e.spec, shape, path + [Key(e.key)], options)
  }

  function CheckField(v: Json, spec: FieldSpec, parent: Shape, path: Path, options: Options): seq<Problem>
    decreases v, 4, 0
  {
    if spec.isArray then
      if !v.Arr? then [Problem(path, ExpectedArray)] else
        (if spec.maxItems.Some? && |v.items| > spec.maxItems.value
         then [Problem(path, TooManyItems)] else [])
        + CheckItems(v, 0, spec, parent, path, options)
    else if TypeOf(v).Some? && TypeOf(v).value in spec.alsoAccepts then []
    else if Nested(spec, parent).Modelled? then CheckShape(v, Nested(spec, parent).entries, path, options)
    else if spec.fieldType == ObjectType then
      if v.Obj? then [] else [Problem(path, ExpectedObject)]
    else if TypeOf(v) != Some(spec.fieldType) then [Problem(path, WrongType)]
    else CheckScalar(v, spec, path, options)
  }

  function CheckItems(v: Json, from: nat, spec: FieldSpec, parent: Shape, path: Path, options: Options): seq<Problem>
    requires v.Arr? && from <= |v.items|
    decreases v, 3, |v.items| - from
  {
    if from == |v.items| then [] else
      CheckField(v.items[from], Element(spec), parent, path + [Index(from)], options)
      + CheckItems(v, from + 1, spec, parent, path, options)
  }

  function CheckScalar(v: Json, spec: FieldSpec, path: Path, options: Options): seq<Problem> {
    (if options.finiteOnly && v.Num? && !v.number.Finite? then [Problem(path, NonFinite)] else [])
    + (if spec.oneOf.Some? && !OneOf(v, spec.oneOf.value) then [Problem(path, NotOneOf)] else [])
    + (if spec.maxLength.Some? && v.Str? && ExceedsMaxLength(v.text, spec.maxLength.value)
       then [Problem(path, TooLong)] else [])
  }

  // ----- the repairer ---------------------------------------------------------------------

  /** What is left of a value, whether that is usable, and what was reported. */
  datatype Repair = Repair(ok: bool, value: Json, problems: seq<Problem>)

  datatype FieldsRepair = FieldsRepair(ok: bool, fields: map<string, Json>, problems: seq<Problem>)

  datatype ItemsRepair = ItemsRepair(items: seq<Json>, problems: seq<Problem>)

  /** What becomes of one declared key: `None` is a deleted one. */
  datatype EntryRepair = EntryRepair(ok: bool, value: Option<Json>, problems: seq<Problem>)

  function RepairShape(v: Json, shape: Shape, path: Path): Repair
    decreases v, 2, 0
  {
    if !v.Obj? then Repair(false, v, [Problem(path, ExpectedObject)]) else
      var undeclared := Undeclared(v.fields, shape);
      var r := RepairEntries(v, v.fields - undeclared, shape, shape, path);
      Repair(r.ok, Obj(r.fields), UndeclaredProblems(undeclared, path) + r.problems)
  }

  function UndeclaredProblems(undeclared: set<string>, path: Path): seq<Problem> {
    if undeclared != {} then [Problem(path, NotDeclared(undeclared))] else []
  }

  function SetOrDelete(fields: map<string, Json>, key: string, value: Option<Json>): map<string, Json> {
    if value.Some? then fields[key := value.value] else fields - {key}
  }

  function RepairEntries(v: Json, fields: map<string, Json>, entries: seq<Entry>, shape: Shape, path: Path): FieldsRepair
    requires v.Obj?
    decreases v, 1, |entries|
  {
    if entries == [] then FieldsRepair(true, fields, []) else
      var e := RepairEntry(v, entries[0], shape, path);
      var rest := RepairEntries(v, SetOrDelete(fields, entries[0].key, e.value), entries[1..], shape, path);
      FieldsRepair(e.ok && rest.ok, rest.fields, e.problems + rest.problems)
  }

  function RepairEntry(v: Json, e: Entry, shape: Shape, path: Path): EntryRepair
    requires v.Obj?
    decreases v, 0, 0
  {
    var at := path + [Key(e.key)];
    if !Present(Get(v.fields, e.key)) then
      if e.spec.required && e.spec.fallback.Some? then
        EntryRepair(true, e.spec.fallback, [Problem(at, SentAs(e.spec.fallback.value))])
      else if e.spec.required then
        EntryRepair(false, if e.key in v.fields then Some(v.fields[e.key]) else None, [Problem(at, Required)])
      else EntryRepair(true, None, [])
    else
      var r := RepairField(v.fields[e.key], e.spec, shape, at);
      if r.ok then EntryRepair(true, Some(r.value), r.problems)
      else if e.spec.required then EntryRepair(false, Some(r.value), r.problems)
      else EntryRepair(true, None, r.problems)
  }

  function RepairField(v: Json, spec: FieldSpec, parent: Shape, path: Path): Repair
    decreases v, 4, 0
  {
    if spec.isArray then
      if !v.Arr? then Repair(false, v, [Problem(path, ExpectedArray)]) else
        var r := RepairItems(v, |v.items|, spec, parent, path);
        if spec.maxItems.Some? && |r.items| > spec.maxItems.value
        then Repair(true, Arr(r.items[..spec.maxItems.value]), r.problems + [Problem(path, TooManyItems)])
        else Repair(true, Arr(r.items), r.problems)
    else if TypeOf(v).Some? && TypeOf(v).value in spec.alsoAccepts then Repair(true, v, [])
    else if Nested(spec, parent).Modelled? then RepairShape(v, Nested(spec, parent).entries, path)
    else if spec.fieldType == ObjectType then
      if v.Obj? then Repair(true, v, []) else Repair(false, v, [Problem(path, ExpectedObject)])
    else if TypeOf(v) != Some(spec.fieldType) then Repair(false, v, [Problem(path, WrongType)])
    else if spec.fieldType == NumberType && !v.number.Finite? then Repair(false, v, [Problem(path, NonFinite)])
    else if spec.oneOf.Some? && !OneOf(v, spec.oneOf.value) then Repair(false, v, [Problem(path, NotOneOf)])
    else if spec.maxLength.Some? && v.Str? && ExceedsMaxLength(v.text, spec.maxLength.value)
    then Repair(false, v, [Problem(path, TooLong)])
    else Repair(true, v, [])
  }

  /** The first `upTo` elements, each repaired and dropped when unusable. They are
      taken from the last to the first, and reported in that order. */
  function RepairItems(v: Json, upTo: nat, spec: FieldSpec, parent: Shape, path: Path): ItemsRepair
    requires v.Arr? && upTo <= |v.items|
    decreases v, 3, upTo
  {
    if upTo == 0 then ItemsRepair([], []) else
      var r := RepairField(v.items[upTo - 1], Element(spec), parent, path + [Index(upTo - 1)]);
      var rest := RepairItems(v, upTo - 1, spec, parent, path);
      ItemsRepair(rest.items + if r.ok then [r.value] else [], r.problems + rest.problems)
  }

  // ----- well-formed shapes -----------------------------------------------------------------

  ghost predicate DistinctKeys(shape: Shape) {
    forall i, j :: 0 <= i < j < |shape| ==> shape[i].key != shape[j].key
  }

  /** A field whose fallback, where the repairer would use one, is in contract
      itself, and whose nested contract is well formed. */
  ghost predicate SpecOk(spec: FieldSpec, parent: Shape)
    decreases spec
  {
    && (spec.required && spec.fallback.Some? ==>
          && Present(spec.fallback.value)
          && CheckField(spec.fallback.value, spec, parent, [], STRICT) == [])
    && (spec.shape.Modelled? ==>
          && DistinctKeys(spec.shape.entries)
          && (forall e :: e in spec.shape.entries ==>
                e.key !in INHERITED && SpecOk(e.spec, spec.shape.entries)))
  }

  /** No key declared twice or inherited, and every fallback in contract. */
  ghost predicate ShapeOk(shape: Shape) {
    && DistinctKeys(shape)
    && (forall e :: e in shape ==> e.key !in INHERITED && SpecOk(e.spec, shape))
  }

  /** Keys distinct all the way down, as the keys of a record are. */
  ghost predicate SpecIsRecord(spec: FieldSpec)
    decreases spec
  {
    spec.shape.Modelled? ==>
      && DistinctKeys(spec.shape.entries)
      && (forall e :: e in spec.shape.entries ==> SpecIsRecord(e.spec))
  }

  ghost predicate IsRecord(shape: Shape) {
    DistinctKeys(shape) && forall e :: e in shape ==> SpecIsRecord(e.spec)
  }

  lemma {:induction false} SpecOkIsRecord(spec: FieldSpec, parent: Shape)
    requires SpecOk(spec, parent)
    ensures SpecIsRecord(spec)
    decreases spec
  {
    if spec.shape.Modelled? {
      forall e | e in spec.shape.entries
        ensures SpecIsRecord(e.spec)
      {
        SpecOkIsRecord(e.spec, spec.shape.entries);
      }
    }
  }

  lemma ShapeOkIsRecord(shape: Shape)
    requires ShapeOk(shape)
    ensures IsRecord(shape)
  {
    forall e | e in shape
      ensures SpecIsRecord(e.spec)
    {
      SpecOkIsRecord(e.spec, shape);
    }
  }

  // ----- where a problem is said to be, and how strictly -----------------------------------------

  ghost predicate AsStrict(strong: Options, weak: Options) {
    && (weak.forbidUnknown ==> strong.forbidUnknown)
    && (weak.finiteOnly ==> strong.finiteOnly)
    && (weak.noNulls ==> strong.noNulls)
  }

  /** What a stricter reading accepts a laxer one does, and where the reports would
      be said to be changes neither. */
  lemma {:induction false} CheckLaxer(v: Json, spec: FieldSpec, parent: Shape, p: Path, q: Path, strong: Options, weak: Options)
    requires AsStrict(strong, weak)
    ensures CheckField(v, spec, parent, p, strong) == [] ==> CheckField(v, spec, parent, q, weak) == []
    decreases v, 4, 0
  {
    if spec.isArray {
      if v.Arr? {
        CheckItemsLaxer(v, 0, spec, parent, p, q, strong, weak);
      }
    } else if TypeOf(v).Some? && TypeOf(v).value in spec.alsoAccepts {
    } else if Nested(spec, parent).Modelled? {
      CheckShapeLaxer(v, Nested(spec, parent).entries, p, q, strong, weak);
    }
  }

  lemma {:induction false} CheckItemsLaxer(v: Json, from: nat, spec: FieldSpec, parent: Shape, p: Path, q: Path, strong: Options, weak: Options)
    requires v.Arr? && from <= |v.items| && AsStrict(strong, weak)
    ensures CheckItems(v, from, spec, parent, p, strong) == [] ==> CheckItems(v, from, spec, parent, q, weak) == []
    decreases v, 3, |v.items| - from
  {
    if from < |v.items| {
      CheckLaxer(v.items[from], Element(spec), parent, p + [Index(from)], q + [Index(from)], strong, weak);
      CheckItemsLaxer(v, from + 1, spec, parent, p, q, strong, weak);
    }
  }

  lemma {:induction false} CheckShapeLaxer(v: Json, shape: Shape, p: Path, q: Path, strong: Options, weak: Options)
    requires AsStrict(strong, weak)
    ensures CheckShape(v, shape, p, strong) == [] ==> CheckShape(v, shape, q, weak) == []
    decreases v, 2, 0
  {
    if v.Obj? {
      CheckEntriesLaxer(v, shape, shape, p, q, strong, weak);
    }
  }

  lemma {:induction false} CheckEntriesLaxer(v: Json, entries: seq<Entry>, shape: Shape, p: Path, q: Path, strong: Options, weak: Options)
    requires v.Obj? && AsStrict(strong, weak)
    ensures CheckEntries(v, entries, shape, p, strong) == [] ==> CheckEntries(v, entries, shape, q, weak) == []
    decreases v, 1, |entries|
  {
    if entries != [] {
      var e := entries[0];
      if Present(Get(v.fields, e.key)) {
        CheckLaxer(v.fields[e.key], e.spec, shape, p + [Key(e.key)], q + [Key(e.key)], strong, weak);
      }
      assert CheckEntry(v, e, shape, p, strong) == [] ==> CheckEntry(v, e, shape, q, weak) == [];
      CheckEntriesLaxer(v, entries[1..], shape, p, q, strong, weak);
    }
  }

  lemma CheckAnywhere(v: Json, spec: FieldSpec, parent: Shape, p: Path, q: Path, options: Options)
    ensures CheckField(v, spec, parent, p, options) == [] <==> CheckField(v, spec, parent, q, options) == []
  {
    CheckLaxer(v, spec, parent, p, q, options, options);
    CheckLaxer(v, spec, parent, q, p, options, options);
  }
}
