/** What a repair keeps, said of values alone: of an object the keys that can be kept, of an
    array the elements, of a batch the entries. The repairer is this, reports aside. */
module RepairMeaning {
  import opened WireContract
  import opened WireRepair
  import opened TelemetryShapes
  import opened TelemetrySanitizer
  import opened ContractMeaning

  // ----- what is kept, to any depth -----------------------------------------------------------

  /** Nothing is kept of a value that is no object, or lacks what its contract requires; else
      each declared key that can be kept, and no other but an inherited one. */
  ghost function KeptObject(v: Json, shape: Shape): Option<Json>
    decreases v, 1, 0
  {
    if !v.Obj? || exists i :: 0 <= i < |shape| && shape[i].spec.required && KeptEntry(v, shape[i], shape).None? then None
    else Some(Obj(KeptFields(v, shape)))
  }

  ghost function KeptFields(v: Json, shape: Shape): map<string, Json>
    requires v.Obj?
    decreases v, 0, 2
  {
    map key | key in v.fields.Keys + Keys(shape) && KeptAt(v, key, shape).Some? :: KeptAt(v, key, shape).value
  }

  ghost function Keys(shape: Shape): set<string> {
    set e | e in shape :: e.key
  }

  ghost function KeptAt(v: Json, key: string, shape: Shape): Option<Json>
    requires v.Obj?
    decreases v, 0, 1
  {
    if exists i :: 0 <= i < |shape| && shape[i].key == key then
      var i :| 0 <= i < |shape| && shape[i].key == key;
      KeptEntry(v, shape[i], shape)
    else if Inherited(key) && key in v.fields then Some(v.fields[key])
    else None
  }

  /** A required key that holds nothing is kept as its fallback, where it has one. */
  ghost function KeptEntry(v: Json, e: Entry, shape: Shape): Option<Json>
    requires v.Obj?
    decreases v, 0, 0
  {
    if e.key in v.fields && !v.fields[e.key].Undefined? && !v.fields[e.key].Null? then KeptField(v.fields[e.key], e.spec, shape)
    else if e.spec.required then e.spec.fallback
    else None
  }

  /** Of an array the elements that can be kept, in their order, the first so many. */
  ghost function KeptField(v: Json, spec: FieldSpec, parent: Shape): Option<Json>
    decreases v, 3, 0
  {
    if !spec.isArray then KeptOne(v, spec, parent)
    else if !v.Arr? then None
    else
      var kept := KeptItems(v, |v.items|, spec, parent);
      Some(Arr(if spec.maxItems.Some? && spec.maxItems.value < |kept| then kept[..spec.maxItems.value] else kept))
  }

  ghost function KeptItems(v: Json, upTo: nat, spec: FieldSpec, parent: Shape): seq<Json>
    requires v.Arr? && upTo <= |v.items|
    decreases v, 2, upTo
  {
    if upTo == 0 then []
    else
      var last := KeptOne(v.items[upTo - 1], spec, parent);
      KeptItems(v, upTo - 1, spec, parent) + if last.Some? then [last.value] else []
  }

  ghost function KeptOne(v: Json, spec: FieldSpec, parent: Shape): Option<Json>
    decreases v, 2, 0
  {
    if AlsoTaken(v, spec.alsoAccepts) then Some(v)
    else if spec.recursive then KeptObject(v, parent)
    else if spec.shape.Modelled? then KeptObject(v, spec.shape.entries)
    else if Taken(v, spec, true) then Some(v)
    else None
  }

  // ----- and that is what the repairer keeps -----------------------------------------------------

  ghost predicate Agrees(r: Repair, kept: Option<Json>) {
    (r.ok <==> kept.Some?) && (r.ok ==> kept == Some(r.value))
  }

  lemma ElementKeeps(v: Json, spec: FieldSpec, parent: Shape)
    ensures KeptOne(v, Element(spec), parent) == KeptOne(v, spec, parent)
  {
  }

  lemma {:induction false} OneIsKept(v: Json, spec: FieldSpec, parent: Shape, path: Path)
    requires NestedOk(spec, parent) && !spec.isArray
    ensures Agrees(RepairField(v, spec, parent, path), KeptOne(v, spec, parent))
    decreases v, 2, 0
  {
    AlsoTakenIsTypeOf(v, spec.alsoAccepts);
    if AlsoTaken(v, spec.alsoAccepts) {
    } else if spec.recursive {
      ObjectIsKept(v, parent, path);
      hide KeptObject, RepairShape;
    } else if spec.shape.Modelled? {
      ObjectIsKept(v, spec.shape.entries, path);
      hide KeptObject, RepairShape;
    } else {
      FlatIsTaken(v, spec, path, STRICT);
    }
  }

  lemma {:induction false} ItemsAreKept(v: Json, upTo: nat, spec: FieldSpec, parent: Shape, path: Path)
    requires NestedOk(spec, parent) && v.Arr? && upTo <= |v.items|
    ensures RepairItems(v, upTo, spec, parent, path).items == KeptItems(v, upTo, spec, parent)
    decreases v, 2, upTo
  {
    if upTo > 0 {
      ItemsAreKept(v, upTo - 1, spec, parent, path);
      OneIsKept(v.items[upTo - 1], Element(spec), parent, path + [Index(upTo - 1)]);
      ElementKeeps(v.items[upTo - 1], spec, parent);
      hide RepairField, KeptOne;
    }
  }

  lemma {:induction false} FieldIsKept(v: Json, spec: FieldSpec, parent: Shape, path: Path)
    requires NestedOk(spec, parent)
    ensures Agrees(RepairField(v, spec, parent, path), KeptField(v, spec, parent))
    decreases v, 3, 0
  {
    if !spec.isArray {
      OneIsKept(v, spec, parent, path);
    } else if v.Arr? {
      ItemsAreKept(v, |v.items|, spec, parent, path);
      hide RepairItems, KeptItems;
    }
  }

  lemma {:induction false} EntryIsKept(v: Json, shape: Shape, i: nat, path: Path)
    requires v.Obj? && ShapeOk(shape) && i < |shape|
    ensures var e, kept := RepairEntry(v, shape[i], shape, path), KeptEntry(v, shape[i], shape);
      && (e.ok <==> !shape[i].spec.required || kept.Some?)
      && (e.ok ==> e.value == kept)
    decreases v, 0, 0
  {
    var e := shape[i];
    if Present(Get(v.fields, e.key)) {
      EntryNestedOk(shape, i);
      FieldIsKept(v.fields[e.key], e.spec, shape, path + [Key(e.key)]);
      hide RepairField, KeptField;
    }
  }

  lemma OnlyEntry(v: Json, shape: Shape, i: nat)
    requires v.Obj? && DistinctKeys(shape) && i < |shape|
    ensures KeptAt(v, shape[i].key, shape) == KeptEntry(v, shape[i], shape)
  {
    hide KeptEntry;
  }

  lemma NoEntry(v: Json, shape: Shape, key: string)
    requires v.Obj? && !Declares(shape, key)
    ensures KeptAt(v, key, shape) == if Inherited(key) && key in v.fields then Some(v.fields[key]) else None
    ensures key in v.fields - Undeclared(v.fields, shape) <==> Inherited(key) && key in v.fields
    ensures key !in Keys(shape)
  {
    hide KeptEntry;
  }

  /** For any value and well-formed shape: a repair is usable exactly when something can be
      kept, and then it is just that. */
  lemma {:induction false} ObjectIsKept(v: Json, shape: Shape, path: Path)
    requires ShapeOk(shape)
    ensures Agrees(RepairShape(v, shape, path), KeptObject(v, shape))
    decreases v, 1, 0
  {
    if v.Obj? {
      var fields := v.fields - Undeclared(v.fields, shape);
      EntriesRepair(v, fields, shape, shape, path);
      forall i | 0 <= i < |shape|
        ensures var e, kept := RepairEntry(v, shape[i], shape, path), KeptEntry(v, shape[i], shape);
          && (e.ok <==> !shape[i].spec.required || kept.Some?)
          && (e.ok ==> e.value == kept)
        ensures KeptAt(v, shape[i].key, shape) == KeptEntry(v, shape[i], shape)
      {
        EntryIsKept(v, shape, i, path);
        OnlyEntry(v, shape, i);
      }
      hide RepairEntry, KeptEntry, RepairEntries, KeptFields;
      var r := RepairEntries(v, fields, shape, shape, path);
      KeptObjectIs(v, shape);
      hide KeptObject;
      if r.ok {
        SameFields(v, shape, r.fields, fields);
      } else {
        var i :| 0 <= i < |shape| && !RepairEntry(v, shape[i], shape, path).ok;
        assert shape[i].spec.required && KeptEntry(v, shape[i], shape).None?;
      }
    }
  }

  lemma KeptObjectIs(v: Json, shape: Shape)
    requires v.Obj?
    ensures if exists i :: 0 <= i < |shape| && shape[i].spec.required && KeptEntry(v, shape[i], shape).None? then KeptObject(v, shape) == None
      else KeptObject(v, shape) == Some(Obj(KeptFields(v, shape)))
  {
    hide KeptEntry, KeptAt, KeptFields;
  }

  lemma SameFields(v: Json, shape: Shape, left: map<string, Json>, fields: map<string, Json>)
    requires v.Obj? && fields == v.fields - Undeclared(v.fields, shape)
    requires forall i :: 0 <= i < |shape| ==>
      var kept := KeptAt(v, shape[i].key, shape);
      (shape[i].key in left <==> kept.Some?) && (kept.Some? ==> left[shape[i].key] == kept.value)
    requires forall key :: !Declares(shape, key) ==> (key in left <==> key in fields) && (key in fields ==> left[key] == fields[key])
    ensures left == KeptFields(v, shape)
  {
    hide KeptAt;
    forall key
      ensures key in left <==> key in v.fields.Keys + Keys(shape) && KeptAt(v, key, shape).Some?
      ensures key in left ==> left[key] == KeptAt(v, key, shape).value
    {
      if Declares(shape, key) {
        var i :| 0 <= i < |shape| && shape[i].key == key;
        assert shape[i] in shape;
      } else {
        NoEntry(v, shape, key);
      }
    }
  }

  // ----- whole batches ---------------------------------------------------------------------------

  /** The entries of a section that can be kept, in their order. */
  ghost function KeptEntries(entries: seq<Json>, section: Section): seq<Json> {
    if entries == [] then []
    else
      var last := KeptObject(entries[|entries| - 1], SectionShape(section));
      KeptEntries(entries[..|entries| - 1], section) + if last.Some? then [last.value] else []
  }

  lemma {:induction false} EntriesAreKept(entries: seq<Json>, section: Section)
    ensures FilterEntries(entries, section).kept == KeptEntries(entries, section)
  {
    if entries != [] {
      var n := |entries| - 1;
      EntriesAreKept(entries[..n], section);
      SectionShapesAreOk(section);
      hide SectionShape, SectionKey, ShapeOk;
      ObjectIsKept(entries[n], SectionShape(section), [Key(SectionKey(section))]);
      hide RepairShape, KeptObject;
    }
  }

  /** For every batch: each array section holds just the entries that can be kept, repaired;
      the runtime sample is kept where it can be; and no other key is touched. */
  lemma BatchIsKept(payload: map<string, Json>)
    ensures var after := RepairBatch(payload).payload;
      && (forall section | section in ARRAY_SECTIONS && Get(payload, SectionKey(section)).Arr? ::
            Get(after, SectionKey(section)) == Arr(KeptEntries(payload[SectionKey(section)].items, section)))
      && (forall section | section in ARRAY_SECTIONS && !Get(payload, SectionKey(section)).Arr? ::
            Get(after, SectionKey(section)) == Get(payload, SectionKey(section)))
      && (forall key | key !in {"snapshots", "jobs", "custom", "logs", "runtime"} :: Get(after, key) == Get(payload, key))
      && (Get(payload, "runtime") != Undefined && Get(payload, "runtime") != Null ==>
            var kept := KeptObject(payload["runtime"], RUNTIME_METRICS);
            Get(after, "runtime") == if kept.Some? then kept.value else Undefined)
  {
    var after := RepairBatch(payload).payload;
    RepairedByKey(payload);
    hide RepairBatch, FilterEntries, RepairShape, KeptObject, KeptEntries;
    OtherKeys(payload, after);
    KeptSample(payload, after);
    hide SectionShape, SectionKey, RuntimeRepaired;
    forall section | section in ARRAY_SECTIONS && Get(payload, SectionKey(section)).Arr?
      ensures FilterEntries(payload[SectionKey(section)].items, section).kept == KeptEntries(payload[SectionKey(section)].items, section)
    {
      EntriesAreKept(payload[SectionKey(section)].items, section);
    }
  }

  lemma OtherKeys(payload: map<string, Json>, after: map<string, Json>)
    requires forall key | !IsSectionKey(key) :: SameAt(payload, after, key)
    ensures forall key | key !in {"snapshots", "jobs", "custom", "logs", "runtime"} :: Get(after, key) == Get(payload, key)
  {
    forall key | key !in {"snapshots", "jobs", "custom", "logs", "runtime"}
      ensures Get(after, key) == Get(payload, key)
    {
      assert !IsSectionKey(key);
      assert SameAt(payload, after, key);
    }
  }

  lemma KeptSample(payload: map<string, Json>, after: map<string, Json>)
    requires RuntimeRepaired(payload, after)
    ensures Get(payload, "runtime") != Undefined && Get(payload, "runtime") != Null ==>
      var kept := KeptObject(payload["runtime"], RUNTIME_METRICS);
      Get(after, "runtime") == if kept.Some? then kept.value else Undefined
  {
    if Get(payload, "runtime") != Undefined && Get(payload, "runtime") != Null {
      SectionShapesAreOk(Runtime);
      assert SectionShape(Runtime) == RUNTIME_METRICS && SectionKey(Runtime) == "runtime";
      hide RUNTIME_METRICS, ShapeOk, RepairShape, KeptObject;
      ObjectIsKept(payload["runtime"], SectionShape(Runtime), [Key(SectionKey(Runtime))]);
    }
  }
}
