/** What the repairer does to a value, judged by the validator. */
module WireRepair {
  import opened WireContract

  // ----- the entries of an object, one key at a time -------------------------------

  /** No problem among the entries exactly when there is none with each. */
  lemma {:induction false} EntriesCheck(v: Json, entries: seq<Entry>, shape: Shape, path: Path, options: Options)
    requires v.Obj?
    ensures CheckEntries(v, entries, shape, path, options) == []
       <==> forall i :: 0 <= i < |entries| ==> CheckEntry(v, entries[i], shape, path, options) == []
  {
    if entries != [] {
      EntriesCheck(v, entries[1..], shape, path, options);
      forall i | 0 <= i < |entries| - 1
        ensures entries[1..][i] == entries[i + 1]
      {
      }
      if forall i :: 0 <= i < |entries| ==> CheckEntry(v, entries[i], shape, path, options) == [] {
        assert CheckEntry(v, entries[0], shape, path, options) == [];
      } else if CheckEntry(v, entries[0], shape, path, options) == [] {
        var i :| 0 <= i < |entries| && CheckEntry(v, entries[i], shape, path, options) != [];
        assert CheckEntry(v, entries[1..][i - 1], shape, path, options) != [];
      }
    }
  }

  lemma {:induction false} ItemsCheck(v: Json, from: nat, spec: FieldSpec, parent: Shape, path: Path, options: Options)
    requires v.Arr? && from <= |v.items|
    ensures CheckItems(v, from, spec, parent, path, options) == []
       <==> forall i :: from <= i < |v.items| ==>
              CheckField(v.items[i], Element(spec), parent, path + [Index(i)], options) == []
    decreases |v.items| - from
  {
    if from < |v.items| {
      ItemsCheck(v, from + 1, spec, parent, path, options);
    }
  }

  /** What the repairer makes of an object, key by key: a declared key as its own
      entry says, any other key as it was. */
  lemma {:induction false} EntriesRepair(v: Json, fields: map<string, Json>, entries: seq<Entry>, shape: Shape, path: Path)
    requires v.Obj? && DistinctKeys(entries)
    ensures var r := RepairEntries(v, fields, entries, shape, path);
      && (r.ok <==> forall i :: 0 <= i < |entries| ==> RepairEntry(v, entries[i], shape, path).ok)
      && (r.problems == [] <==> forall i :: 0 <= i < |entries| ==> RepairEntry(v, entries[i], shape, path).problems == [])
      && (forall i :: 0 <= i < |entries| ==>
            var e := RepairEntry(v, entries[i], shape, path);
            && (entries[i].key in r.fields <==> e.value.Some?)
            && (e.value.Some? ==> r.fields[entries[i].key] == e.value.value))
      && (forall key :: !Declares(entries, key) ==>
            && (key in r.fields <==> key in fields)
            && (key in fields ==> r.fields[key] == fields[key]))
    decreases |entries|
  {
    if entries != [] {
      var e := RepairEntry(v, entries[0], shape, path);
      var next := SetOrDelete(fields, entries[0].key, e.value);
      var rest := entries[1..];
      EntriesRepair(v, next, rest, shape, path);
      forall i | 0 < i < |entries|
        ensures entries[i] == rest[i - 1]
      {
      }
      assert !Declares(rest, entries[0].key);
      forall key | !Declares(entries, key)
        ensures !Declares(rest, key) && key != entries[0].key
      {
        assert entries[0].key != key;
      }
    }
  }

  ghost predicate NestedOk(spec: FieldSpec, parent: Shape) {
    Nested(spec, parent).Modelled? ==> ShapeOk(Nested(spec, parent).entries)
  }

  lemma EntryNestedOk(shape: Shape, i: nat)
    requires ShapeOk(shape) && i < |shape|
    ensures NestedOk(shape[i].spec, shape)
  {
    assert shape[i] in shape;
  }

  // ----- exactness: what is reported, and what is left alone ------------------------------

  /** The repairer reports nothing exactly when the strict validator finds nothing
      but explicit nulls, and changes nothing besides exactly when it finds nothing
      at all. What it gives up on, it reports. */
  ghost predicate IsExact(v: Json, r: Repair, problems: seq<Problem>, problemsButNulls: seq<Problem>) {
    && (r.problems == [] <==> problemsButNulls == [])
    && (r.problems == [] && r.value == v <==> problems == [])
    && (!r.ok ==> r.problems != [])
  }

  lemma {:induction false} FieldIsExact(v: Json, spec: FieldSpec, parent: Shape, path: Path)
    requires NestedOk(spec, parent)
    ensures IsExact(v, RepairField(v, spec, parent, path),
                    CheckField(v, spec, parent, path, STRICT),
                    CheckField(v, spec, parent, path, STRICT_BUT_NULLS))
    decreases v, 4, 0
  {
    if spec.isArray {
      if v.Arr? {
        AllItemsExact(v, spec, parent, path);
        hide RepairItems, CheckItems;
      }
    } else if TypeOf(v).Some? && TypeOf(v).value in spec.alsoAccepts {
    } else if Nested(spec, parent).Modelled? {
      ShapeIsExact(v, Nested(spec, parent).entries, path);
    }
  }

  lemma AllItemsExact(v: Json, spec: FieldSpec, parent: Shape, path: Path)
    requires v.Arr? && NestedOk(spec, parent)
    ensures var r := RepairItems(v, |v.items|, spec, parent, path);
      && |r.items| <= |v.items|
      && (r.problems == [] ==> |r.items| == |v.items|)
      && (r.problems == [] <==> CheckItems(v, 0, spec, parent, path, STRICT_BUT_NULLS) == [])
      && (r.problems == [] && r.items == v.items <==> CheckItems(v, 0, spec, parent, path, STRICT) == [])
    decreases v, 3, |v.items| + 1
  {
    ItemsAreExact(v, |v.items|, spec, parent, path);
    ItemsCheck(v, 0, spec, parent, path, STRICT);
    ItemsCheck(v, 0, spec, parent, path, STRICT_BUT_NULLS);
    hide RepairItems, CheckItems, CheckField;
    assert v.items[..|v.items|] == v.items;
  }

  /** No problem with any of the first elements of an array. */
  ghost predicate ItemsClean(v: Json, upTo: nat, spec: FieldSpec, parent: Shape, path: Path, options: Options)
    requires v.Arr? && upTo <= |v.items|
  {
    forall i :: 0 <= i < upTo ==> CheckField(v.items[i], Element(spec), parent, path + [Index(i)], options) == []
  }

  lemma OneMoreExact(items: seq<Json>, n: nat, rest: ItemsRepair, last: Repair, problems: seq<Problem>, problemsButNulls: seq<Problem>)
    requires n < |items| && |rest.items| <= n && (rest.problems == [] ==> |rest.items| == n)
    requires IsExact(items[n], last, problems, problemsButNulls)
    ensures var more := rest.items + if last.ok then [last.value] else [];
      && |more| <= n + 1
      && (last.problems + rest.problems == [] <==> rest.problems == [] && problemsButNulls == [])
      && (last.problems + rest.problems == [] ==> |more| == n + 1)
      && (last.problems + rest.problems == [] && more == items[..n + 1]
          <==> rest.problems == [] && rest.items == items[..n] && problems == [])
  {
    assert items[..n + 1] == items[..n] + [items[n]];
    var more := rest.items + if last.ok then [last.value] else [];
    if last.problems + rest.problems == [] {
      assert more[..n] == rest.items && more[n] == last.value;
    }
  }

  lemma OneMoreItem(v: Json, n: nat, spec: FieldSpec, parent: Shape, path: Path)
    requires v.Arr? && n < |v.items|
    ensures var rest, last := RepairItems(v, n, spec, parent, path), RepairField(v.items[n], Element(spec), parent, path + [Index(n)]);
      RepairItems(v, n + 1, spec, parent, path)
        == ItemsRepair(rest.items + if last.ok then [last.value] else [], last.problems + rest.problems)
    ensures RepairItems(v, 0, spec, parent, path) == ItemsRepair([], [])
  {
    hide RepairField;
  }

  lemma OneMoreClean(v: Json, n: nat, spec: FieldSpec, parent: Shape, path: Path, options: Options)
    requires v.Arr? && n < |v.items|
    ensures ItemsClean(v, n + 1, spec, parent, path, options)
       <==> ItemsClean(v, n, spec, parent, path, options)
            && CheckField(v.items[n], Element(spec), parent, path + [Index(n)], options) == []
  {
    hide CheckField;
  }

  lemma {:induction false} ItemsAreExact(v: Json, upTo: nat, spec: FieldSpec, parent: Shape, path: Path)
    requires v.Arr? && upTo <= |v.items| && NestedOk(spec, parent)
    ensures var r := RepairItems(v, upTo, spec, parent, path);
      && |r.items| <= upTo
      && (r.problems == [] ==> |r.items| == upTo)
      && (r.problems == [] <==> ItemsClean(v, upTo, spec, parent, path, STRICT_BUT_NULLS))
      && (r.problems == [] && r.items == v.items[..upTo] <==> ItemsClean(v, upTo, spec, parent, path, STRICT))
    decreases v, 3, upTo
  {
    if upTo > 0 {
      var n := upTo - 1;
      var at := path + [Index(n)];
      ItemsAreExact(v, n, spec, parent, path);
      FieldIsExact(v.items[n], Element(spec), parent, at);
      OneMoreItem(v, n, spec, parent, path);
      OneMoreClean(v, n, spec, parent, path, STRICT);
      OneMoreClean(v, n, spec, parent, path, STRICT_BUT_NULLS);
      hide RepairItems, RepairField, CheckField, IsExact, ItemsClean, ShapeOk;
      OneMoreExact(v.items, n, RepairItems(v, n, spec, parent, path), RepairField(v.items[n], Element(spec), parent, at),
                   CheckField(v.items[n], Element(spec), parent, at, STRICT),
                   CheckField(v.items[n], Element(spec), parent, at, STRICT_BUT_NULLS));
    }
  }

  ghost predicate Unchanged(v: Json, key: string, r: EntryRepair)
    requires v.Obj?
  {
    (r.value.Some? <==> key in v.fields) && (r.value.Some? ==> r.value.value == v.fields[key])
  }

  lemma {:induction false} EntryIsExact(v: Json, shape: Shape, i: nat, path: Path)
    requires v.Obj? && ShapeOk(shape) && i < |shape|
    ensures var r := RepairEntry(v, shape[i], shape, path);
      && (r.problems == [] <==> CheckEntry(v, shape[i], shape, path, STRICT_BUT_NULLS) == [])
      && (r.problems == [] && Unchanged(v, shape[i].key, r)
          <==> CheckEntry(v, shape[i], shape, path, STRICT) == [])
      && (!r.ok ==> r.problems != [])
    decreases v, 0, 0
  {
    var e := shape[i];
    EntryNestedOk(shape, i);
    if Present(Get(v.fields, e.key)) {
      FieldIsExact(v.fields[e.key], e.spec, shape, path + [Key(e.key)]);
    }
  }

  lemma {:induction false} ShapeIsExact(v: Json, shape: Shape, path: Path)
    requires ShapeOk(shape)
    ensures IsExact(v, RepairShape(v, shape, path),
                    CheckShape(v, shape, path, STRICT), CheckShape(v, shape, path, STRICT_BUT_NULLS))
    decreases v, 2, 0
  {
    if v.Obj? {
      var undeclared := Undeclared(v.fields, shape);
      EntriesRepair(v, v.fields - undeclared, shape, shape, path);
      EntriesCheck(v, shape, shape, path, STRICT);
      EntriesCheck(v, shape, shape, path, STRICT_BUT_NULLS);
      var r := RepairEntries(v, v.fields - undeclared, shape, shape, path);
      forall i | 0 <= i < |shape|
        ensures var e := RepairEntry(v, shape[i], shape, path);
          && (e.problems == [] <==> CheckEntry(v, shape[i], shape, path, STRICT_BUT_NULLS) == [])
          && (e.problems == [] && Unchanged(v, shape[i].key, e)
              <==> CheckEntry(v, shape[i], shape, path, STRICT) == [])
          && (!e.ok ==> e.problems != [])
      {
        EntryIsExact(v, shape, i, path);
      }
      UnchangedFields(v, shape, path);
    }
  }

  /** With nothing undeclared, the object is as it was exactly when every entry is. */
  lemma UnchangedFields(v: Json, shape: Shape, path: Path)
    requires v.Obj? && DistinctKeys(shape)
    ensures var undeclared := Undeclared(v.fields, shape);
      var r := RepairEntries(v, v.fields - undeclared, shape, shape, path);
      undeclared == {} ==>
        (r.fields == v.fields
         <==> forall i :: 0 <= i < |shape| ==> Unchanged(v, shape[i].key, RepairEntry(v, shape[i], shape, path)))
  {
    var undeclared := Undeclared(v.fields, shape);
    var r := RepairEntries(v, v.fields - undeclared, shape, shape, path);
    EntriesRepair(v, v.fields - undeclared, shape, shape, path);
    if undeclared == {}
      && forall i :: 0 <= i < |shape| ==> Unchanged(v, shape[i].key, RepairEntry(v, shape[i], shape, path))
    {
      forall key
        ensures (key in r.fields <==> key in v.fields) && (key in v.fields ==> r.fields[key] == v.fields[key])
      {
        if Declares(shape, key) {
          var i :| 0 <= i < |shape| && shape[i].key == key;
          assert Unchanged(v, shape[i].key, RepairEntry(v, shape[i], shape, path));
        }
      }
    }
  }

  // ----- soundness: what is usable is in contract ---------------------------------------------

  lemma {:induction false} FieldIsSound(v: Json, spec: FieldSpec, parent: Shape, path: Path, at: Path)
    requires NestedOk(spec, parent)
    ensures var r := RepairField(v, spec, parent, path);
      r.ok ==> CheckField(r.value, spec, parent, at, STRICT) == [] && (Present(v) ==> Present(r.value))
    decreases v, 4, 0
  {
    var r := RepairField(v, spec, parent, path);
    if spec.isArray {
      if v.Arr? {
        ItemsAreSound(v, |v.items|, spec, parent, path);
        forall i | 0 <= i < |r.value.items|
          ensures CheckField(r.value.items[i], Element(spec), parent, at + [Index(i)], STRICT) == []
        {
          CheckAnywhere(r.value.items[i], Element(spec), parent, [], at + [Index(i)], STRICT);
        }
        ItemsCheck(r.value, 0, spec, parent, at, STRICT);
      }
    } else if TypeOf(v).Some? && TypeOf(v).value in spec.alsoAccepts {
    } else if Nested(spec, parent).Modelled? {
      ShapeIsSound(v, Nested(spec, parent).entries, path, at);
    }
  }

  lemma {:induction false} ItemsAreSound(v: Json, upTo: nat, spec: FieldSpec, parent: Shape, path: Path)
    requires v.Arr? && upTo <= |v.items| && NestedOk(spec, parent)
    ensures forall i :: 0 <= i < |RepairItems(v, upTo, spec, parent, path).items| ==>
      CheckField(RepairItems(v, upTo, spec, parent, path).items[i], Element(spec), parent, [], STRICT) == []
    decreases v, 3, upTo
  {
    if upTo > 0 {
      ItemsAreSound(v, upTo - 1, spec, parent, path);
      FieldIsSound(v.items[upTo - 1], Element(spec), parent, path + [Index(upTo - 1)], []);
    }
  }

  lemma {:induction false} EntryIsSound(v: Json, shape: Shape, i: nat, path: Path, fixed: Json, at: Path)
    requires v.Obj? && ShapeOk(shape) && i < |shape| && fixed.Obj?
    requires var r := RepairEntry(v, shape[i], shape, path);
      && r.ok
      && (shape[i].key in fixed.fields <==> r.value.Some?)
      && (r.value.Some? ==> fixed.fields[shape[i].key] == r.value.value)
    ensures CheckEntry(fixed, shape[i], shape, at, STRICT) == []
    decreases v, 0, 0
  {
    var e := shape[i];
    EntryNestedOk(shape, i);
    if Present(Get(v.fields, e.key)) {
      FieldIsSound(v.fields[e.key], e.spec, shape, path + [Key(e.key)], at + [Key(e.key)]);
    } else if e.spec.required {
      assert e in shape;
      CheckAnywhere(e.spec.fallback.value, e.spec, shape, [], at + [Key(e.key)], STRICT);
    }
  }

  /** Whatever the value and the shape, a value the repairer calls usable has no
      error under the validator, undeclared keys, nulls and non-finite numbers included. */
  lemma {:induction false} ShapeIsSound(v: Json, shape: Shape, path: Path, at: Path)
    requires ShapeOk(shape)
    ensures var r := RepairShape(v, shape, path);
      r.ok ==> r.value.Obj? && CheckShape(r.value, shape, at, STRICT) == []
    decreases v, 2, 0
  {
    var r := RepairShape(v, shape, path);
    if r.ok {
      var undeclared := Undeclared(v.fields, shape);
      EntriesRepair(v, v.fields - undeclared, shape, shape, path);
      forall i | 0 <= i < |shape|
        ensures CheckEntry(r.value, shape[i], shape, at, STRICT) == []
      {
        EntryIsSound(v, shape, i, path, r.value, at);
      }
      EntriesCheck(r.value, shape, shape, at, STRICT);
      forall key | key in r.value.fields
        ensures KeyIn(key, shape)
      {
        if !Declares(shape, key) {
          assert key in v.fields - undeclared;
        }
      }
      assert Undeclared(r.value.fields, shape) == {};
    }
  }

  // ----- what follows ---------------------------------------------------------------------------

  /** A second pass reports nothing and changes nothing. */
  lemma RepairIsIdempotent(v: Json, shape: Shape, path: Path)
    requires ShapeOk(shape)
    ensures var r := RepairShape(v, shape, path);
      r.ok ==> RepairShape(r.value, shape, path) == Repair(true, r.value, [])
  {
    var r := RepairShape(v, shape, path);
    ShapeIsSound(v, shape, path, path);
    ShapeIsExact(r.value, shape, path);
  }

  /** A value in contract is returned as it is, with nothing reported, and only such a value is. */
  lemma CleanExactlyWhenUntouched(v: Json, shape: Shape, path: Path)
    requires ShapeOk(shape)
    ensures CheckShape(v, shape, path, STRICT) == [] <==> RepairShape(v, shape, path) == Repair(true, v, [])
  {
    ShapeIsExact(v, shape, path);
  }

  /** Every report is a mutation or a drop; but a mutation goes unreported exactly
      when explicit nulls are all that is wrong. */
  lemma ReportsAreMutations(v: Json, shape: Shape, path: Path)
    requires ShapeOk(shape)
    ensures var r := RepairShape(v, shape, path);
      && (r.problems != [] ==> !r.ok || r.value != v)
      && (r.problems == [] && r.value != v <==>
            && CheckShape(v, shape, path, STRICT_BUT_NULLS) == []
            && CheckShape(v, shape, path, STRICT) != [])
  {
    ShapeIsSound(v, shape, path, path);
    ShapeIsExact(v, shape, path);
  }

  // ----- what an unreported repair does -----------------------------------------------------

  /** The one is the other without some keys that held nothing, at any depth. */
  ghost predicate DropsNothings(before: Json, after: Json)
    decreases before
  {
    || before == after
    || (before.Obj? && after.Obj? && after.fields.Keys <= before.fields.Keys
          && forall key :: key in before.fields ==>
               if key in after.fields then DropsNothings(before.fields[key], after.fields[key])
               else !Present(before.fields[key]))
    || (before.Arr? && after.Arr? && |before.items| == |after.items|
          && forall i :: 0 <= i < |before.items| ==> DropsNothings(before.items[i], after.items[i]))
  }

  lemma {:induction false} QuietField(v: Json, spec: FieldSpec, parent: Shape, path: Path)
    requires NestedOk(spec, parent) && RepairField(v, spec, parent, path).problems == []
    ensures DropsNothings(v, RepairField(v, spec, parent, path).value)
    decreases v, 4, 0
  {
    if spec.isArray {
      if v.Arr? {
        QuietItems(v, |v.items|, spec, parent, path);
      }
    } else if TypeOf(v).Some? && TypeOf(v).value in spec.alsoAccepts {
    } else if Nested(spec, parent).Modelled? {
      QuietShape(v, Nested(spec, parent).entries, path);
    }
  }

  lemma {:induction false} QuietItems(v: Json, upTo: nat, spec: FieldSpec, parent: Shape, path: Path)
    requires v.Arr? && upTo <= |v.items| && NestedOk(spec, parent)
    requires RepairItems(v, upTo, spec, parent, path).problems == []
    ensures var r := RepairItems(v, upTo, spec, parent, path);
      |r.items| == upTo && forall i :: 0 <= i < upTo ==> DropsNothings(v.items[i], r.items[i])
    decreases v, 3, upTo
  {
    hide RepairField, RepairItems, CheckField, DropsNothings, NestedOk;
    if upTo > 0 {
      var n := upTo - 1;
      var at := path + [Index(n)];
      ElementNestedOk(spec, parent);
      OneMoreItem(v, n, spec, parent, path);
      FieldIsExact(v.items[n], Element(spec), parent, at);
      QuietField(v.items[n], Element(spec), parent, at);
      QuietItems(v, n, spec, parent, path);
      OneMoreQuiet(v.items, n, RepairItems(v, n, spec, parent, path).items, RepairField(v.items[n], Element(spec), parent, at).value);
    } else {
      NoItems(v, spec, parent, path);
    }
  }

  lemma ElementNestedOk(spec: FieldSpec, parent: Shape)
    requires NestedOk(spec, parent)
    ensures NestedOk(Element(spec), parent)
  {
  }

  lemma NoItems(v: Json, spec: FieldSpec, parent: Shape, path: Path)
    requires v.Arr?
    ensures RepairItems(v, 0, spec, parent, path) == ItemsRepair([], [])
  {
  }

  lemma OneMoreQuiet(items: seq<Json>, n: nat, rest: seq<Json>, last: Json)
    requires n < |items| && |rest| == n && DropsNothings(items[n], last)
    requires forall i :: 0 <= i < n ==> DropsNothings(items[i], rest[i])
    ensures forall i :: 0 <= i < n + 1 ==> DropsNothings(items[i], (rest + [last])[i])
  {
    hide DropsNothings;
  }

  lemma {:induction false} QuietEntry(v: Json, shape: Shape, i: nat, path: Path)
    requires v.Obj? && ShapeOk(shape) && i < |shape| && RepairEntry(v, shape[i], shape, path).problems == []
    ensures var r, key := RepairEntry(v, shape[i], shape, path), shape[i].key;
      if r.value.Some? then key in v.fields && DropsNothings(v.fields[key], r.value.value)
      else !Present(Get(v.fields, key))
    decreases v, 0, 0
  {
    var e := shape[i];
    EntryNestedOk(shape, i);
    if Present(Get(v.fields, e.key)) {
      FieldIsExact(v.fields[e.key], e.spec, shape, path + [Key(e.key)]);
      QuietField(v.fields[e.key], e.spec, shape, path + [Key(e.key)]);
    }
  }

  /** A repair that reports nothing has taken out keys that held nothing, explicit nulls
      at any depth, and has changed nothing else. */
  lemma {:induction false} QuietShape(v: Json, shape: Shape, path: Path)
    requires ShapeOk(shape) && RepairShape(v, shape, path).problems == []
    ensures DropsNothings(v, RepairShape(v, shape, path).value)
    decreases v, 2, 0
  {
    if v.Obj? {
      var undeclared := Undeclared(v.fields, shape);
      var r := RepairEntries(v, v.fields - undeclared, shape, shape, path);
      assert undeclared == {};
      EntriesRepair(v, v.fields - undeclared, shape, shape, path);
      forall key | key in v.fields || key in r.fields
        ensures key in v.fields
        ensures if key in r.fields then DropsNothings(v.fields[key], r.fields[key]) else !Present(v.fields[key])
      {
        if Declares(shape, key) {
          var i :| 0 <= i < |shape| && shape[i].key == key;
          QuietEntry(v, shape, i, path);
        }
      }
    }
  }

  // ----- what strictness about nulls comes to -------------------------------------------------

  /** No declared key of a modelled object, at any depth, is there and holds nothing. */
  ghost predicate NullFree(v: Json, shape: Shape)
    decreases v, 2, 0
  {
    v.Obj? ==> forall i :: 0 <= i < |shape| ==> NullFreeAt(v, shape[i], shape)
  }

  ghost predicate NullFreeAt(v: Json, e: Entry, shape: Shape)
    requires v.Obj?
    decreases v, 0, 0
  {
    e.key in v.fields ==> Present(v.fields[e.key]) && NullFreeField(v.fields[e.key], e.spec, shape)
  }

  ghost predicate NullFreeField(v: Json, spec: FieldSpec, parent: Shape)
    decreases v, 4, 0
  {
    if spec.isArray then
      v.Arr? ==> forall i :: 0 <= i < |v.items| ==> NullFreeField(v.items[i], Element(spec), parent)
    else if TypeOf(v).Some? && TypeOf(v).value in spec.alsoAccepts then true
    else Nested(spec, parent).Modelled? ==> NullFree(v, Nested(spec, parent).entries)
  }

  /** A value passes the strictest reading exactly when it passes the one that lets nulls
      be and holds none. */
  lemma {:induction false} StrictFieldIsNullFree(v: Json, spec: FieldSpec, parent: Shape, path: Path)
    ensures CheckField(v, spec, parent, path, STRICT) == []
       <==> CheckField(v, spec, parent, path, STRICT_BUT_NULLS) == [] && NullFreeField(v, spec, parent)
    decreases v, 4, 0
  {
    if spec.isArray {
      if v.Arr? {
        ItemsCheck(v, 0, spec, parent, path, STRICT);
        ItemsCheck(v, 0, spec, parent, path, STRICT_BUT_NULLS);
        hide CheckItems;
        forall i | 0 <= i < |v.items|
          ensures CheckField(v.items[i], Element(spec), parent, path + [Index(i)], STRICT) == []
             <==> CheckField(v.items[i], Element(spec), parent, path + [Index(i)], STRICT_BUT_NULLS) == []
                  && NullFreeField(v.items[i], Element(spec), parent)
        {
          StrictFieldIsNullFree(v.items[i], Element(spec), parent, path + [Index(i)]);
        }
      }
    } else if TypeOf(v).Some? && TypeOf(v).value in spec.alsoAccepts {
    } else if Nested(spec, parent).Modelled? {
      StrictIsNullFree(v, Nested(spec, parent).entries, path);
    }
  }

  lemma {:induction false} StrictIsNullFree(v: Json, shape: Shape, path: Path)
    ensures CheckShape(v, shape, path, STRICT) == []
       <==> CheckShape(v, shape, path, STRICT_BUT_NULLS) == [] && NullFree(v, shape)
    decreases v, 2, 0
  {
    if v.Obj? {
      EntriesCheck(v, shape, shape, path, STRICT);
      EntriesCheck(v, shape, shape, path, STRICT_BUT_NULLS);
      hide CheckEntries;
      forall i | 0 <= i < |shape|
        ensures CheckEntry(v, shape[i], shape, path, STRICT) == []
           <==> CheckEntry(v, shape[i], shape, path, STRICT_BUT_NULLS) == [] && NullFreeAt(v, shape[i], shape)
      {
        var e := shape[i];
        if Present(Get(v.fields, e.key)) {
          StrictFieldIsNullFree(v.fields[e.key], e.spec, shape, path + [Key(e.key)]);
        }
      }
    }
  }
}
