/** The sanitizer the worker applies to a batch the collector answered 400: the
    loops that strip, delete and splice, and the batch-level pass over them. */
module TelemetrySanitizer {
  import opened WireContract
  import opened WireRepair
  import opened TelemetryShapes

  // ----- one value ------------------------------------------------------------------

  method SanitizeShape(v: Json, shape: Shape, path: Path) returns (r: Repair)
    requires IsRecord(shape)
    ensures r == RepairShape(v, shape, path)
    decreases v, 2, 0
  {
    if !v.Obj? {
      return Repair(false, v, [Problem(path, ExpectedObject)]);
    }
    hide RepairEntry, RepairField;
    var fields, undeclared := RemoveUndeclared(v.fields, shape);
    var problems := [];
    var usable := true;
    ghost var target := RepairEntries(v, fields, shape, shape, path);
    assert shape[0..] == shape;
    for i := 0 to |shape|
      invariant Remaining(v, fields, shape, i, path, usable, problems, target)
      invariant forall j :: i <= j < |shape| ==> SameAt(fields, v.fields, shape[j].key)
    {
      RemainingStep(v, fields, shape, i, path, usable, problems, target);
      var ok, next, more := SanitizeEntry(v, fields, shape, i, path);
      forall j | i < j < |shape|
        ensures SameAt(next, v.fields, shape[j].key)
      {
        assert SameAt(fields, v.fields, shape[j].key);
      }
      usable := usable && ok;
      fields := next;
      problems := problems + more;
    }
    assert shape[|shape|..] == [];
    r := Repair(usable, Obj(fields), UndeclaredProblems(undeclared, path) + problems);
  }

  ghost predicate SameAt(a: map<string, Json>, b: map<string, Json>, key: string) {
    (key in a <==> key in b) && (key in a ==> a[key] == b[key])
  }

  /** The first `i` entries dealt with, the rest leads to `target`. */
  ghost predicate Remaining(v: Json, fields: map<string, Json>, shape: Shape, i: nat, path: Path,
                            usable: bool, problems: seq<Problem>, target: FieldsRepair)
    requires v.Obj? && i <= |shape|
  {
    var rest := RepairEntries(v, fields, shape[i..], shape, path);
    FieldsRepair(usable && rest.ok, rest.fields, problems + rest.problems) == target
  }

  lemma RemainingStep(v: Json, fields: map<string, Json>, shape: Shape, i: nat, path: Path,
                      usable: bool, problems: seq<Problem>, target: FieldsRepair)
    requires v.Obj? && i < |shape| && Remaining(v, fields, shape, i, path, usable, problems, target)
    ensures var e := RepairEntry(v, shape[i], shape, path);
      Remaining(v, SetOrDelete(fields, shape[i].key, e.value), shape, i + 1, path,
                usable && e.ok, problems + e.problems, target)
  {
    assert shape[i..][0] == shape[i] && shape[i..][1..] == shape[i + 1..];
  }

  /** One declared key, in place: set, repaired, or deleted. */
  method SanitizeEntry(v: Json, before: map<string, Json>, shape: Shape, i: nat, path: Path)
    returns (usable: bool, fields: map<string, Json>, problems: seq<Problem>)
    requires v.Obj? && IsRecord(shape) && i < |shape| && SameAt(before, v.fields, shape[i].key)
    ensures var e := RepairEntry(v, shape[i], shape, path);
      usable == e.ok && fields == SetOrDelete(before, shape[i].key, e.value) && problems == e.problems
    decreases v, 1, 0
  {
    var key, spec := shape[i].key, shape[i].spec;
    var at := path + [Key(key)];
    usable, fields, problems := true, before, [];
    if !Present(Get(fields, key)) {
      if spec.required && spec.fallback.Some? {
        problems := [Problem(at, SentAs(spec.fallback.value))];
        fields := fields[key := spec.fallback.value];
      } else if spec.required {
        problems := [Problem(at, Required)];
        usable := false;
      } else if key in fields {
        fields := fields - {key};
      }
    } else {
      assert shape[i] in shape;
      var field := SanitizeField(fields[key], spec, shape, at);
      problems := field.problems;
      if field.ok || spec.required {
        fields := fields[key := field.value];
        usable := field.ok;
      } else {
        fields := fields - {key};
      }
    }
  }

  method RemoveUndeclared(all: map<string, Json>, shape: Shape)
    returns (fields: map<string, Json>, removed: set<string>)
    ensures removed == Undeclared(all, shape)
    ensures fields == all - removed
  {
    fields, removed := all, {};
    var keys := all.Keys;
    while keys != {}
      invariant keys <= all.Keys
      invariant removed == set key | key in all && key !in keys && !KeyIn(key, shape)
      invariant fields == all - removed
      decreases |keys|
    {
      var key :| key in keys;
      keys := keys - {key};
      if !KeyIn(key, shape) {
        removed := removed + {key};
        fields := fields - {key};
      }
    }
  }

  method SanitizeField(v: Json, spec: FieldSpec, parent: Shape, path: Path) returns (r: Repair)
    requires SpecIsRecord(spec) && IsRecord(parent)
    ensures r == RepairField(v, spec, parent, path)
    decreases v, 4, 0
  {
    if spec.isArray {
      if !v.Arr? {
        return Repair(false, v, [Problem(path, ExpectedArray)]);
      }
      r := SanitizeItems(v, spec, parent, path);
      return;
    }
    if TypeOf(v).Some? && TypeOf(v).value in spec.alsoAccepts {
      return Repair(true, v, []);
    }
    if Nested(spec, parent).Modelled? {
      r := SanitizeShape(v, Nested(spec, parent).entries, path);
      return;
    }
    if spec.fieldType == ObjectType {
      if !v.Obj? {
        return Repair(false, v, [Problem(path, ExpectedObject)]);
      }
      return Repair(true, v, []);
    }
    if TypeOf(v) != Some(spec.fieldType) {
      return Repair(false, v, [Problem(path, WrongType)]);
    }
    if spec.fieldType == NumberType && !v.number.Finite? {
      return Repair(false, v, [Problem(path, NonFinite)]);
    }
    if spec.oneOf.Some? && !OneOf(v, spec.oneOf.value) {
      return Repair(false, v, [Problem(path, NotOneOf)]);
    }
    if spec.maxLength.Some? && v.Str? && ExceedsMaxLength(v.text, spec.maxLength.value) {
      return Repair(false, v, [Problem(path, TooLong)]);
    }
    return Repair(true, v, []);
  }

  lemma ArrayRepair(v: Json, spec: FieldSpec, parent: Shape, path: Path)
    requires v.Arr? && spec.isArray
    ensures var r := RepairItems(v, |v.items|, spec, parent, path);
      RepairField(v, spec, parent, path) ==
        if spec.maxItems.Some? && |r.items| > spec.maxItems.value
        then Repair(true, Arr(r.items[..spec.maxItems.value]), r.problems + [Problem(path, TooManyItems)])
        else Repair(true, Arr(r.items), r.problems)
    ensures RepairItems(v, 0, spec, parent, path) == ItemsRepair([], [])
  {
  }

  lemma ElementIsRecord(spec: FieldSpec)
    requires SpecIsRecord(spec)
    ensures SpecIsRecord(Element(spec))
  {
  }

  lemma Spliced(items: seq<Json>, all: seq<Json>, index: nat, value: Json)
    requires index < |items| && index < |all| && items[..index + 1] == all[..index + 1]
    ensures items[index] == all[index]
    ensures items[index := value][..index] == all[..index] && items[index := value][index..] == [value] + items[index + 1..]
    ensures (items[..index] + items[index + 1..])[..index] == all[..index]
    ensures (items[..index] + items[index + 1..])[index..] == items[index + 1..]
  {
    assert items[..index + 1][..index] == items[..index];
    assert all[..index + 1][..index] == all[..index];
    assert items[..index + 1][index] == items[index];
  }

  lemma AssocItems(a: seq<Json>, b: seq<Json>, c: seq<Json>)
    ensures a + b + c == a + (b + c)
  {
  }

  lemma AssocProblems(a: seq<Problem>, b: seq<Problem>, c: seq<Problem>)
    ensures a + b + c == a + (b + c)
  {
  }

  /** Backwards, so that removing one element does not shift the next. */
  method SanitizeItems(v: Json, spec: FieldSpec, parent: Shape, path: Path) returns (r: Repair)
    requires v.Arr? && spec.isArray && SpecIsRecord(spec) && IsRecord(parent)
    ensures r == RepairField(v, spec, parent, path)
    decreases v, 3, 0
  {
    ArrayRepair(v, spec, parent, path);
    ElementIsRecord(spec);
    hide RepairField, RepairItems, SpecIsRecord, IsRecord, Element;
    var items, problems := v.items, [];
    ghost var target := RepairItems(v, |v.items|, spec, parent, path);
    assert target.items + [] == target.items && [] + target.problems == target.problems;
    var index := |items|;
    while index > 0
      invariant 0 <= index <= |v.items| && index <= |items|
      invariant items[..index] == v.items[..index]
      invariant RepairItems(v, index, spec, parent, path).items + items[index..] == target.items
      invariant problems + RepairItems(v, index, spec, parent, path).problems == target.problems
    {
      index := index - 1;
      ghost var later := items[index + 1..];
      OneMoreItem(v, index, spec, parent, path);
      Spliced(items, v.items, index, items[index]);
      var element := SanitizeField(items[index], Element(spec), parent, path + [Index(index)]);
      Spliced(items, v.items, index, element.value);
      ghost var before := RepairItems(v, index, spec, parent, path);
      AssocProblems(problems, element.problems, before.problems);
      AssocItems(before.items, if element.ok then [element.value] else [], later);
      problems := problems + element.problems;
      if element.ok {
        items := items[index := element.value];
      } else {
        assert [] + later == later;
        items := items[..index] + items[index + 1..];
      }
    }
    assert items[0..] == items && [] + items == items && problems + [] == problems;
    if spec.maxItems.Some? && |items| > spec.maxItems.value {
      problems := problems + [Problem(path, TooManyItems)];
      items := items[..spec.maxItems.value];
    }
    r := Repair(true, Arr(items), problems);
  }

  // ----- a whole batch -------------------------------------------------------------------

  /** A batch so far: what is left of it, the entries dropped, and the reports.
      It has changed when anything was reported. */
  datatype BatchRepair = BatchRepair(payload: map<string, Json>, dropped: nat, problems: seq<Problem>) {
    predicate Changed() {
      problems != []
    }
  }

  datatype EntriesFilter = EntriesFilter(kept: seq<Json>, dropped: nat, problems: seq<Problem>)

  /** The entries a section keeps, each repaired; the rest dropped one by one. */
  function FilterEntries(entries: seq<Json>, section: Section): (r: EntriesFilter)
    ensures |r.kept| + r.dropped == |entries|
  {
    if entries == [] then EntriesFilter([], 0, []) else
      var n := |entries| - 1;
      var front := FilterEntries(entries[..n], section);
      var last := RepairShape(entries[n], SectionShape(section), [Key(SectionKey(section))]);
      EntriesFilter(front.kept + (if last.ok then [last.value] else []),
                    front.dropped + (if last.ok then 0 else 1),
                    front.problems + last.problems)
  }

  function RepairSection(b: BatchRepair, section: Section): BatchRepair {
    var key := SectionKey(section);
    if !Get(b.payload, key).Arr? then b else
      var f := FilterEntries(b.payload[key].items, section);
      BatchRepair(b.payload[key := Arr(f.kept)], b.dropped + f.dropped, b.problems + f.problems)
  }

  function RepairSections(b: BatchRepair, sections: seq<Section>): BatchRepair
    decreases |sections|
  {
    if sections == [] then b else RepairSections(RepairSection(b, sections[0]), sections[1..])
  }

  function RepairRuntime(b: BatchRepair): BatchRepair {
    var v := Get(b.payload, SectionKey(Runtime));
    if !Present(v) then b else
      var r := RepairShape(v, SectionShape(Runtime), [Key(SectionKey(Runtime))]);
      BatchRepair(if r.ok then b.payload[SectionKey(Runtime) := r.value] else b.payload - {SectionKey(Runtime)},
                  b.dropped + (if r.ok then 0 else 1), b.problems + r.problems)
  }

  function RepairBatch(payload: map<string, Json>): BatchRepair {
    RepairRuntime(RepairSections(BatchRepair(payload, 0, []), ARRAY_SECTIONS))
  }

  method SanitizeEntries(entries: seq<Json>, section: Section) returns (r: EntriesFilter)
    ensures r == FilterEntries(entries, section)
  {
    hide SectionShape, SectionKey, ShapeOk, RepairShape;
    SectionShapesAreOk(section);
    var kept, dropped, problems := [], 0, [];
    for i := 0 to |entries|
      invariant EntriesFilter(kept, dropped, problems) == FilterEntries(entries[..i], section)
    {
      assert entries[..i + 1][..i] == entries[..i];
      var entry := SanitizeShape(entries[i], SectionShape(section), [Key(SectionKey(section))]);
      problems := problems + entry.problems;
      if entry.ok {
        kept := kept + [entry.value];
      } else {
        dropped := dropped + 1;
      }
    }
    assert entries[..|entries|] == entries;
    r := EntriesFilter(kept, dropped, problems);
  }

  method SanitizeSection(b: BatchRepair, section: Section) returns (r: BatchRepair)
    ensures r == RepairSection(b, section)
  {
    hide FilterEntries, SectionKey;
    var entries := Get(b.payload, SectionKey(section));
    if !entries.Arr? {
      return b;
    }
    var f := SanitizeEntries(entries.items, section);
    r := BatchRepair(b.payload[SectionKey(section) := Arr(f.kept)], b.dropped + f.dropped, b.problems + f.problems);
  }

  method SanitizeBatch(payload: map<string, Json>) returns (r: BatchRepair)
    ensures r == RepairBatch(payload)
  {
    hide SectionShape, SectionKey, ShapeOk, RepairShape, RepairSection;
    r := BatchRepair(payload, 0, []);
    ghost var target := RepairSections(r, ARRAY_SECTIONS);
    for i := 0 to |ARRAY_SECTIONS|
      invariant RepairSections(r, ARRAY_SECTIONS[i..]) == target
    {
      assert ARRAY_SECTIONS[i..][1..] == ARRAY_SECTIONS[i + 1..];
      r := SanitizeSection(r, ARRAY_SECTIONS[i]);
    }
    assert ARRAY_SECTIONS[|ARRAY_SECTIONS|..] == [];
    var runtime := Get(r.payload, SectionKey(Runtime));
    if Present(runtime) {
      SectionShapesAreOk(Runtime);
      var entry := SanitizeShape(runtime, SectionShape(Runtime), [Key(SectionKey(Runtime))]);
      var left := if entry.ok then r.payload[SectionKey(Runtime) := entry.value] else r.payload - {SectionKey(Runtime)};
      r := BatchRepair(left, r.dropped + (if entry.ok then 0 else 1), r.problems + entry.problems);
    }
  }

  // ----- a repaired batch is in contract ---------------------------------------------------

  lemma UsableIsInContract(v: Json, shape: Shape, path: Path, at: Path)
    requires ShapeOk(shape)
    ensures var r := RepairShape(v, shape, path);
      r.ok ==> r.value.Obj? && CheckShape(r.value, shape, at, FORBID_UNKNOWN) == []
  {
    ShapeIsSound(v, shape, path, at);
    CheckShapeLaxer(RepairShape(v, shape, path).value, shape, at, at, STRICT, FORBID_UNKNOWN);
  }

  lemma {:induction false} KeptAreSound(entries: seq<Json>, section: Section, at: Path)
    ensures forall i :: 0 <= i < |FilterEntries(entries, section).kept| ==>
      CheckShape(FilterEntries(entries, section).kept[i], SectionShape(section), at, FORBID_UNKNOWN) == []
  {
    hide SectionShape, SectionKey, ShapeOk, RepairShape, CheckShape;
    if entries != [] {
      var n := |entries| - 1;
      KeptAreSound(entries[..n], section, at);
      SectionShapesAreOk(section);
      UsableIsInContract(entries[n], SectionShape(section), [Key(SectionKey(section))], at);
    }
  }

  /** What the repair leaves under each key of a batch. */
  ghost predicate SectionRepaired(before: map<string, Json>, after: map<string, Json>, section: Section) {
    var key := SectionKey(section);
    if Get(before, key).Arr?
    then key in after && after[key] == Arr(FilterEntries(before[key].items, section).kept)
    else SameAt(before, after, key)
  }

  ghost predicate RuntimeRepaired(before: map<string, Json>, after: map<string, Json>) {
    var v := Get(before, SectionKey(Runtime));
    var r := RepairShape(v, SectionShape(Runtime), [Key(SectionKey(Runtime))]);
    if !Present(v) then SameAt(before, after, SectionKey(Runtime))
    else if r.ok then SectionKey(Runtime) in after && after[SectionKey(Runtime)] == r.value
    else SectionKey(Runtime) !in after
  }

  ghost predicate IsSectionKey(key: string) {
    exists section: Section :: key == SectionKey(section)
  }

  lemma SectionKeysDiffer()
    ensures forall a: Section, b: Section | SectionKey(a) == SectionKey(b) :: a == b
  {
    assert |SectionKey(Snapshots)| == 9 && |SectionKey(Jobs)| == 4 && |SectionKey(Custom)| == 6
        && |SectionKey(Logs)| == 4 && |SectionKey(Runtime)| == 7;
    assert SectionKey(Jobs)[0] == 'j' && SectionKey(Logs)[0] == 'l';
  }

  ghost predicate KeyOf(key: string, sections: seq<Section>) {
    exists i :: 0 <= i < |sections| && key == SectionKey(sections[i])
  }

  /** Each listed section is repaired once, and no other key touched. */
  lemma {:induction false} SectionsByKey(b: BatchRepair, sections: seq<Section>)
    requires forall i, j :: 0 <= i < j < |sections| ==> sections[i] != sections[j]
    ensures var after := RepairSections(b, sections).payload;
      && (forall section | section in sections :: SectionRepaired(b.payload, after, section))
      && (forall key | !KeyOf(key, sections) :: SameAt(b.payload, after, key))
    decreases |sections|
  {
    if sections != [] {
      SectionKeysDiffer();
      hide SectionKey, FilterEntries;
      var next := RepairSection(b, sections[0]);
      var rest := sections[1..];
      SectionsByKey(next, rest);
      var after := RepairSections(b, sections).payload;
      forall section | section in sections
        ensures SectionRepaired(b.payload, after, section)
      {
        if section != sections[0] {
          assert section in rest && SameAt(b.payload, next.payload, SectionKey(section));
        } else {
          forall i | 0 <= i < |rest|
            ensures SectionKey(section) != SectionKey(rest[i])
          {
            assert rest[i] == sections[i + 1];
          }
          assert !KeyOf(SectionKey(section), rest);
          assert SameAt(next.payload, after, SectionKey(section));
        }
      }
      forall key | !KeyOf(key, sections)
        ensures SameAt(b.payload, after, key)
      {
        assert key != SectionKey(sections[0]);
        forall i | 0 <= i < |rest|
          ensures key != SectionKey(rest[i])
        {
          assert rest[i] == sections[i + 1];
        }
        assert !KeyOf(key, rest);
        assert SameAt(b.payload, next.payload, key) && SameAt(next.payload, after, key);
      }
    }
  }

  lemma RepairedByKey(payload: map<string, Json>)
    ensures var after := RepairBatch(payload).payload;
      && (forall section | section in ARRAY_SECTIONS :: SectionRepaired(payload, after, section))
      && RuntimeRepaired(payload, after)
      && (forall key | !IsSectionKey(key) :: SameAt(payload, after, key))
  {
    SectionKeysDiffer();
    hide RepairShape, FilterEntries, SectionShape, SectionKey, RepairSections;
    var b := BatchRepair(payload, 0, []);
    var middle := RepairSections(b, ARRAY_SECTIONS).payload;
    SectionsByKey(b, ARRAY_SECTIONS);
    assert SameAt(payload, middle, SectionKey(Runtime));
    forall section | section in ARRAY_SECTIONS
      ensures SameAt(middle, RepairBatch(payload).payload, SectionKey(section))
    {
      assert section != Runtime;
    }
    forall key | !IsSectionKey(key)
      ensures SameAt(payload, RepairBatch(payload).payload, key)
    {
      assert !KeyOf(key, ARRAY_SECTIONS);
      assert SameAt(payload, middle, key);
    }
  }

  /** The root fields the repair does not touch are in contract, and no root key is undeclared. */
  ghost predicate RootInContract(payload: map<string, Json>, options: Options) {
    && Undeclared(payload, TELEMETRY_BATCH) == {}
    && (forall i | 0 <= i < |TELEMETRY_BATCH| && !IsSectionKey(TELEMETRY_BATCH[i].key) ::
          CheckEntry(Obj(payload), TELEMETRY_BATCH[i], TELEMETRY_BATCH, [], options) == [])
  }

  /** A section is absent, or an array of which no more than the API takes is left. */
  ghost predicate SectionFits(payload: map<string, Json>, section: Section) {
    var v := Get(payload, SectionKey(section));
    Present(v) ==> v.Arr? && |FilterEntries(v.items, section).kept| <= MAX_BATCH_ITEMS
  }

  lemma SectionSpec(section: Section)
    ensures var spec := TELEMETRY_BATCH[SectionIndex(section)].spec;
      && spec == FieldSpec(ObjectType, [], false, None, section != Runtime, Modelled(SectionShape(section)),
                           false, None, None, if section == Runtime then None else Some(MAX_BATCH_ITEMS))
  {
  }

  /** An array of entries in contract is in contract itself when it is not too long. */
  lemma ArrayCheck(items: seq<Json>, spec: FieldSpec, shape: Shape, parent: Shape, at: Path, options: Options)
    requires spec.isArray && spec.alsoAccepts == [] && !spec.recursive && spec.shape == Modelled(shape)
    requires spec.maxItems.Some?
    requires forall i :: 0 <= i < |items| ==> CheckShape(items[i], shape, at + [Index(i)], options) == []
    ensures CheckField(Arr(items), spec, parent, at, options) == [] <==> |items| <= spec.maxItems.value
  {
    hide CheckShape;
    ItemsCheck(Arr(items), 0, spec, parent, at, options);
    forall i | 0 <= i < |items|
      ensures CheckField(items[i], Element(spec), parent, at + [Index(i)], options) == []
    {
      assert CheckShape(items[i], shape, at + [Index(i)], options) == [];
    }
  }

  lemma ObjectCheck(v: Json, spec: FieldSpec, shape: Shape, parent: Shape, at: Path, options: Options)
    requires !spec.isArray && spec.alsoAccepts == [] && !spec.recursive && spec.shape == Modelled(shape)
    ensures CheckField(v, spec, parent, at, options) == CheckShape(v, shape, at, options)
  {
  }

  lemma SectionCheck(payload: map<string, Json>, after: map<string, Json>, section: Section)
    requires section in ARRAY_SECTIONS && SectionRepaired(payload, after, section)
    ensures CheckEntry(Obj(after), TELEMETRY_BATCH[SectionIndex(section)], TELEMETRY_BATCH, [], FORBID_UNKNOWN) == []
       <==> SectionFits(payload, section)
  {
    hide CheckShape, SectionShape, SectionKey, FilterEntries, CheckField;
    var e := TELEMETRY_BATCH[SectionIndex(section)];
    SectionSpec(section);
    var at := [] + [Key(e.key)];
    var v := Get(payload, e.key);
    if v.Arr? {
      var kept := FilterEntries(v.items, section).kept;
      forall i | 0 <= i < |kept|
        ensures CheckShape(kept[i], SectionShape(section), at + [Index(i)], FORBID_UNKNOWN) == []
      {
        KeptAreSound(v.items, section, at + [Index(i)]);
      }
      ArrayCheck(kept, e.spec, SectionShape(section), TELEMETRY_BATCH, at, FORBID_UNKNOWN);
    } else if Present(v) {
      NotAnArray(v, e.spec, TELEMETRY_BATCH, at, FORBID_UNKNOWN);
    }
  }

  lemma NotAnArray(v: Json, spec: FieldSpec, parent: Shape, at: Path, options: Options)
    requires spec.isArray && !v.Arr?
    ensures CheckField(v, spec, parent, at, options) != []
  {
  }

  lemma RuntimeCheck(payload: map<string, Json>, after: map<string, Json>)
    requires RuntimeRepaired(payload, after)
    ensures CheckEntry(Obj(after), TELEMETRY_BATCH[SectionIndex(Runtime)], TELEMETRY_BATCH, [], FORBID_UNKNOWN) == []
  {
    hide RepairShape, CheckShape, SectionShape, SectionKey, ShapeOk, CheckField;
    var e := TELEMETRY_BATCH[SectionIndex(Runtime)];
    SectionSpec(Runtime);
    var at := [] + [Key(e.key)];
    var v := Get(payload, e.key);
    if Present(v) {
      SectionShapesAreOk(Runtime);
      var r := RepairShape(v, SectionShape(Runtime), [Key(e.key)]);
      UsableIsInContract(v, SectionShape(Runtime), [Key(e.key)], at);
      ObjectCheck(r.value, e.spec, SectionShape(Runtime), TELEMETRY_BATCH, at, FORBID_UNKNOWN);
    }
  }

  /** A repaired batch has no validation error exactly when what the repair leaves
      alone had none: the other root fields, the root keys, and the kind and size
      of the array sections. */
  lemma RepairedBatchIsInContract(payload: map<string, Json>)
    ensures CheckShape(Obj(RepairBatch(payload).payload), TELEMETRY_BATCH, [], FORBID_UNKNOWN) == []
       <==> RootInContract(payload, FORBID_UNKNOWN) && forall section | section in ARRAY_SECTIONS :: SectionFits(payload, section)
  {
    hide RepairBatch, CheckEntry, FilterEntries, CheckEntries, RepairShape, SectionShape;
    var after := RepairBatch(payload).payload;
    RepairedByKey(payload);
    EntriesCheck(Obj(after), TELEMETRY_BATCH, TELEMETRY_BATCH, [], FORBID_UNKNOWN);
    RuntimeCheck(payload, after);
    forall section | section in ARRAY_SECTIONS
      ensures CheckEntry(Obj(after), TELEMETRY_BATCH[SectionIndex(section)], TELEMETRY_BATCH, [], FORBID_UNKNOWN) == []
         <==> SectionFits(payload, section)
    {
      SectionCheck(payload, after, section);
    }
    forall i | 0 <= i < |TELEMETRY_BATCH| && IsSectionKey(TELEMETRY_BATCH[i].key)
      ensures exists section: Section :: i == SectionIndex(section)
    {
      BatchKeys();
      var section: Section :| TELEMETRY_BATCH[i].key == SectionKey(section);
      assert TELEMETRY_BATCH[SectionIndex(section)].key == TELEMETRY_BATCH[i].key;
    }
    forall i | 0 <= i < |TELEMETRY_BATCH| && !IsSectionKey(TELEMETRY_BATCH[i].key)
      ensures CheckEntry(Obj(after), TELEMETRY_BATCH[i], TELEMETRY_BATCH, [], FORBID_UNKNOWN)
           == CheckEntry(Obj(payload), TELEMETRY_BATCH[i], TELEMETRY_BATCH, [], FORBID_UNKNOWN)
    {
      EntryDependsOnItsKey(payload, after, TELEMETRY_BATCH[i], TELEMETRY_BATCH);
    }
    UndeclaredUnchanged(payload, after);
  }

  lemma BatchKeys()
    ensures DistinctKeys(TELEMETRY_BATCH)
  {
  }

  lemma EntryDependsOnItsKey(a: map<string, Json>, b: map<string, Json>, e: Entry, shape: Shape)
    requires SameAt(a, b, e.key)
    ensures CheckEntry(Obj(a), e, shape, [], FORBID_UNKNOWN) == CheckEntry(Obj(b), e, shape, [], FORBID_UNKNOWN)
  {
  }

  lemma UndeclaredUnchanged(payload: map<string, Json>, after: map<string, Json>)
    requires forall key | !IsSectionKey(key) :: SameAt(payload, after, key)
    ensures Undeclared(after, TELEMETRY_BATCH) == Undeclared(payload, TELEMETRY_BATCH)
  {
    forall key | IsSectionKey(key)
      ensures Declares(TELEMETRY_BATCH, key)
    {
      assert TELEMETRY_BATCH[4].key == "snapshots" && TELEMETRY_BATCH[5].key == "jobs"
          && TELEMETRY_BATCH[SectionIndex(Runtime)].key == SectionKey(Runtime) && TELEMETRY_BATCH[7].key == "custom"
          && TELEMETRY_BATCH[8].key == "logs";
    }
    forall key
      ensures key in Undeclared(after, TELEMETRY_BATCH) <==> key in Undeclared(payload, TELEMETRY_BATCH)
    {
      if !IsSectionKey(key) {
        assert SameAt(payload, after, key);
      }
    }
  }

  // ----- a second repair ------------------------------------------------------------------

  /** What a section keeps is what it would keep again, with nothing to report. */
  lemma {:induction false} KeptStay(entries: seq<Json>, section: Section)
    ensures FilterEntries(FilterEntries(entries, section).kept, section) == EntriesFilter(FilterEntries(entries, section).kept, 0, [])
  {
    hide SectionShape, SectionKey, ShapeOk, RepairShape;
    if entries != [] {
      var n := |entries| - 1;
      KeptStay(entries[..n], section);
      var front := FilterEntries(entries[..n], section).kept;
      var last := RepairShape(entries[n], SectionShape(section), [Key(SectionKey(section))]);
      if last.ok {
        SectionShapesAreOk(section);
        RepairIsIdempotent(entries[n], SectionShape(section), [Key(SectionKey(section))]);
        FilterOneMore(front, last.value, section);
        assert FilterEntries(entries, section).kept == front + [last.value];
      } else {
        assert FilterEntries(entries, section).kept == front + [] == front;
      }
    }
  }

  lemma FilterOneMore(entries: seq<Json>, entry: Json, section: Section)
    requires FilterEntries(entries, section) == EntriesFilter(entries, 0, [])
    requires RepairShape(entry, SectionShape(section), [Key(SectionKey(section))]) == Repair(true, entry, [])
    ensures FilterEntries(entries + [entry], section) == EntriesFilter(entries + [entry], 0, [])
  {
    hide SectionShape, SectionKey, RepairShape;
    assert (entries + [entry])[..|entries|] == entries;
  }

  /** A section as a repair leaves it. */
  ghost predicate Settled(payload: map<string, Json>, section: Section) {
    var v := Get(payload, SectionKey(section));
    v.Arr? ==> FilterEntries(v.items, section) == EntriesFilter(v.items, 0, [])
  }

  lemma {:induction false} SettledSectionsStay(b: BatchRepair, sections: seq<Section>)
    requires forall section | section in sections :: Settled(b.payload, section)
    ensures RepairSections(b, sections) == b
    decreases |sections|
  {
    if sections != [] {
      hide SectionKey, FilterEntries;
      assert sections[0] in sections && Settled(b.payload, sections[0]);
      assert RepairSection(b, sections[0]) == b;
      SettledSectionsStay(b, sections[1..]);
    }
  }

  /** Repairing a repaired batch changes nothing, drops nothing and reports nothing. */
  lemma BatchRepairIsIdempotent(payload: map<string, Json>)
    ensures var after := RepairBatch(payload).payload;
      RepairBatch(after) == BatchRepair(after, 0, [])
  {
    var after := RepairBatch(payload).payload;
    RepairedByKey(payload);
    forall section | section in ARRAY_SECTIONS
      ensures Settled(after, section)
    {
      SectionIsSettled(payload, after, section);
    }
    SettledSectionsStay(BatchRepair(after, 0, []), ARRAY_SECTIONS);
    RuntimeIsSettled(payload, after);
    hide RepairSections, SectionShape, RepairShape;
  }

  lemma SectionIsSettled(payload: map<string, Json>, after: map<string, Json>, section: Section)
    requires SectionRepaired(payload, after, section)
    ensures Settled(after, section)
  {
    hide FilterEntries, SectionKey;
    if Get(payload, SectionKey(section)).Arr? {
      KeptStay(payload[SectionKey(section)].items, section);
    }
  }

  lemma RuntimeIsSettled(payload: map<string, Json>, after: map<string, Json>)
    requires RuntimeRepaired(payload, after)
    ensures RepairRuntime(BatchRepair(after, 0, [])) == BatchRepair(after, 0, [])
  {
    hide RepairShape, SectionShape, SectionKey, ShapeOk;
    var v := Get(payload, SectionKey(Runtime));
    if Present(v) {
      SectionShapesAreOk(Runtime);
      RepairIsIdempotent(v, SectionShape(Runtime), [Key(SectionKey(Runtime))]);
    }
  }

  // ----- what the repair does not see ----------------------------------------------------

  /** A key named like something every object inherits is never undeclared: a
      usable repair leaves exactly those undeclared keys it was given. */
  lemma InheritedNamesStay(v: Json, shape: Shape, path: Path)
    requires ShapeOk(shape) && v.Obj? && RepairShape(v, shape, path).ok
    ensures var r := RepairShape(v, shape, path).value;
      && r.Obj?
      && (forall key | !Declares(shape, key) ::
            key in r.fields <==> key in v.fields && key in INHERITED)
  {
    EntriesRepair(v, v.fields - Undeclared(v.fields, shape), shape, shape, path);
  }

  lemma AbsentOptional(v: Json, e: Entry, shape: Shape, path: Path)
    requires v.Obj? && !Present(Get(v.fields, e.key)) && !e.spec.required
    ensures CheckEntry(v, e, shape, path, STRICT_BUT_NULLS) == []
  {
  }

  lemma PresentScalar(v: Json, e: Entry, shape: Shape, path: Path)
    requires v.Obj? && Present(Get(v.fields, e.key)) && IsFlat(e.spec)
    requires !e.spec.isArray && !e.spec.recursive && e.spec.fieldType != ObjectType
    requires TypeOf(v.fields[e.key]) == Some(e.spec.fieldType)
    requires CheckScalar(v.fields[e.key], e.spec, path + [Key(e.key)], STRICT_BUT_NULLS) == []
    ensures CheckEntry(v, e, shape, path, STRICT_BUT_NULLS) == []
  {
  }

  /** A log line whose only fault is an explicit null is repaired without a report,
      so a batch holding nothing worse is called unchanged. */
  lemma SilentNull(timestamp: real, text: Text)
    ensures var entry := Obj(map["timestamp" := Num(Finite(timestamp)), "text" := Str(text), "level" := Null]);
      var r := RepairShape(entry, LOG_ENTRY, [Key("logs")]);
      r.ok && r.problems == [] && r.value != entry
  {
    var entry := Obj(map["timestamp" := Num(Finite(timestamp)), "text" := Str(text), "level" := Null]);
    var at := [Key("logs")];
    LogsAreOk();
    hide CheckField, RepairShape, ShapeOk;
    assert LOG_ENTRY[0].key == "timestamp" && LOG_ENTRY[1].key == "text" && LOG_ENTRY[4].key == "level";
    assert CheckEntry(entry, LOG_ENTRY[4], LOG_ENTRY, at, STRICT) != [];
    PresentScalar(entry, LOG_ENTRY[0], LOG_ENTRY, at);
    PresentScalar(entry, LOG_ENTRY[1], LOG_ENTRY, at);
    forall i | 2 <= i < |LOG_ENTRY|
      ensures CheckEntry(entry, LOG_ENTRY[i], LOG_ENTRY, at, STRICT_BUT_NULLS) == []
    {
      AbsentOptional(entry, LOG_ENTRY[i], LOG_ENTRY, at);
    }
    hide CheckEntry;
    EntriesCheck(entry, LOG_ENTRY, LOG_ENTRY, at, STRICT);
    EntriesCheck(entry, LOG_ENTRY, LOG_ENTRY, at, STRICT_BUT_NULLS);
    assert Undeclared(entry.fields, LOG_ENTRY) == {};
    ReportsAreMutations(entry, LOG_ENTRY, at);
    ShapeIsExact(entry, LOG_ENTRY, at);
  }
}
