/** The validator as it runs: two procedures that push their problems onto one list. */
module TelemetryValidator {
  import opened WireContract
  import opened TelemetryShapes

  function Plain(forbidUnknown: bool): Options {
    Options(forbidUnknown, false, false)
  }

  lemma EntriesOneMore(v: Json, entries: seq<Entry>, e: Entry, shape: Shape, path: Path, options: Options)
    requires v.Obj?
    ensures CheckEntries(v, entries + [e], shape, path, options)
         == CheckEntries(v, entries, shape, path, options) + CheckEntry(v, e, shape, path, options)
    decreases |entries|
  {
    hide CheckEntry;
    if entries == [] {
      assert [] + [e] == [e] && [e][1..] == [];
    } else {
      assert (entries + [e])[1..] == entries[1..] + [e];
      EntriesOneMore(v, entries[1..], e, shape, path, options);
    }
  }

  /** What the first elements of an array add to the list. */
  function CheckFirst(v: Json, upTo: nat, spec: FieldSpec, parent: Shape, path: Path, options: Options): seq<Problem>
    requires v.Arr? && upTo <= |v.items|
    decreases upTo
  {
    if upTo == 0 then []
    else
      var last := CheckField(v.items[upTo - 1], Element(spec), parent, path + [Index(upTo - 1)], options);
      CheckFirst(v, upTo - 1, spec, parent, path, options) + last
  }

  lemma FirstAndRest(v: Json, upTo: nat, spec: FieldSpec, parent: Shape, path: Path, options: Options)
    requires v.Arr? && upTo <= |v.items|
    ensures CheckItems(v, 0, spec, parent, path, options)
         == CheckFirst(v, upTo, spec, parent, path, options) + CheckItems(v, upTo, spec, parent, path, options)
    decreases upTo
  {
    hide CheckField;
    if upTo > 0 {
      FirstAndRest(v, upTo - 1, spec, parent, path, options);
    }
  }

  lemma Assoc(a: seq<Problem>, b: seq<Problem>, c: seq<Problem>)
    ensures a + b + c == a + (b + c)
  {
  }

  method ValidateShape(v: Json, shape: Shape, path: Path, forbidUnknown: bool, errors: seq<Problem>) returns (more: seq<Problem>)
    ensures more == errors + CheckShape(v, shape, path, Plain(forbidUnknown))
    decreases v, 2, 0
  {
    more := errors;
    if !v.Obj? {
      more := more + [Problem(path, ExpectedObject)];
      return;
    }
    ghost var options := Plain(forbidUnknown);
    hide CheckField, CheckEntry;
    for i := 0 to |shape|
      invariant more == errors + CheckEntries(v, shape[..i], shape, path, options)
    {
      ghost var before := more;
      more := ValidateEntry(v, shape[i], shape, path, forbidUnknown, more);
      assert shape[..i + 1] == shape[..i] + [shape[i]];
      EntriesOneMore(v, shape[..i], shape[i], shape, path, options);
      Assoc(errors, CheckEntries(v, shape[..i], shape, path, options), CheckEntry(v, shape[i], shape, path, options));
    }
    assert shape[..|shape|] == shape;
    ghost var entries := CheckEntries(v, shape, shape, path, options);
    if forbidUnknown {
      var undeclared := Undeclared(v.fields, shape);
      if undeclared != {} {
        more := more + [Problem(path, NotDeclared(undeclared))];
        Assoc(errors, entries, [Problem(path, NotDeclared(undeclared))]);
        return;
      }
    }
    Assoc(errors, entries, []);
  }

  method ValidateEntry(v: Json, e: Entry, shape: Shape, path: Path, forbidUnknown: bool, errors: seq<Problem>)
    returns (more: seq<Problem>)
    requires v.Obj?
    ensures more == errors + CheckEntry(v, e, shape, path, Plain(forbidUnknown))
    decreases v, 0, 0
  {
    hide CheckField;
    more := errors;
    if !Present(Get(v.fields, e.key)) {
      if e.spec.required {
        more := more + [Problem(path + [Key(e.key)], Required)];
      }
      return;
    }
    more := ValidateField(v.fields[e.key], e.spec, shape, path + [Key(e.key)], forbidUnknown, more);
  }

  method ValidateField(v: Json, spec: FieldSpec, parent: Shape, path: Path, forbidUnknown: bool, errors: seq<Problem>)
    returns (more: seq<Problem>)
    ensures more == errors + CheckField(v, spec, parent, path, Plain(forbidUnknown))
    decreases v, 4, 0
  {
    more := errors;
    if spec.isArray {
      if !v.Arr? {
        more := more + [Problem(path, ExpectedArray)];
        return;
      }
      more := ValidateItems(v, spec, parent, path, forbidUnknown, more);
      return;
    }
    if TypeOf(v).Some? && TypeOf(v).value in spec.alsoAccepts {
      return;
    }
    var nested := Nested(spec, parent);
    if nested.Modelled? {
      more := ValidateShape(v, nested.entries, path, forbidUnknown, more);
      return;
    }
    if spec.fieldType == ObjectType {
      if !v.Obj? {
        more := more + [Problem(path, ExpectedObject)];
      }
      return;
    }
    if TypeOf(v) != Some(spec.fieldType) {
      more := more + [Problem(path, WrongType)];
      return;
    }
    if spec.oneOf.Some? && !OneOf(v, spec.oneOf.value) {
      more := more + [Problem(path, NotOneOf)];
    }
    if spec.maxLength.Some? && v.Str? && ExceedsMaxLength(v.text, spec.maxLength.value) {
      more := more + [Problem(path, TooLong)];
    }
  }

  method ValidateItems(v: Json, spec: FieldSpec, parent: Shape, path: Path, forbidUnknown: bool, errors: seq<Problem>)
    returns (more: seq<Problem>)
    requires v.Arr? && spec.isArray
    ensures more == errors + CheckField(v, spec, parent, path, Plain(forbidUnknown))
    decreases v, 3, |v.items|
  {
    ghost var options := Plain(forbidUnknown);
    more := errors;
    if spec.maxItems.Some? && |v.items| > spec.maxItems.value {
      more := more + [Problem(path, TooManyItems)];
    }
    ghost var start := more;
    for i := 0 to |v.items|
      invariant more == start + CheckFirst(v, i, spec, parent, path, options)
    {
      more := ValidateField(v.items[i], Element(spec), parent, path + [Index(i)], forbidUnknown, more);
      Assoc(start, CheckFirst(v, i, spec, parent, path, options),
            CheckField(v.items[i], Element(spec), parent, path + [Index(i)], options));
    }
    FirstAndRest(v, |v.items|, spec, parent, path, options);
    var all := CheckItems(v, 0, spec, parent, path, options);
    assert CheckFirst(v, |v.items|, spec, parent, path, options) + [] == all;
    Assoc(errors, if spec.maxItems.Some? && |v.items| > spec.maxItems.value then [Problem(path, TooManyItems)] else [], all);
  }

  /** All that is wrong with a batch, in one list. */
  method ValidateTelemetryPayload(payload: Json, forbidUnknown: bool) returns (errors: seq<Problem>)
    ensures errors == CheckShape(payload, TELEMETRY_BATCH, [], Plain(forbidUnknown))
  {
    errors := ValidateShape(payload, TELEMETRY_BATCH, [], forbidUnknown, []);
    assert [] + CheckShape(payload, TELEMETRY_BATCH, [], Plain(forbidUnknown)) == CheckShape(payload, TELEMETRY_BATCH, [], Plain(forbidUnknown));
  }
}
