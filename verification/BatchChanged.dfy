/** What the `changed` of a repaired batch says: what it is exactly, and exactly when its
    being false means the batch was in contract. */
module BatchChanged {
  import opened WireContract
  import opened WireRepair
  import opened TelemetryShapes
  import opened TelemetrySanitizer

  // ----- the sections the repair looks at ----------------------------------------------

  ghost predicate EntriesClean(entries: seq<Json>, section: Section, options: Options) {
    forall i :: 0 <= i < |entries| ==>
      CheckShape(entries[i], SectionShape(section), [Key(SectionKey(section))], options) == []
  }

  /** Every entry of an array section is in contract. */
  ghost predicate SectionClean(payload: map<string, Json>, section: Section, options: Options) {
    var v := Get(payload, SectionKey(section));
    v.Arr? ==> EntriesClean(v.items, section, options)
  }

  ghost predicate RuntimeClean(payload: map<string, Json>, options: Options) {
    var v := Get(payload, SectionKey(Runtime));
    Present(v) ==> CheckShape(v, SectionShape(Runtime), [Key(SectionKey(Runtime))], options) == []
  }

  /** Every entry of each array section, and the runtime sample, is in contract. */
  ghost predicate SectionsClean(payload: map<string, Json>, options: Options) {
    && (forall section | section in ARRAY_SECTIONS :: SectionClean(payload, section, options))
    && RuntimeClean(payload, options)
  }

  lemma {:induction false} FilterIsExact(entries: seq<Json>, section: Section)
    ensures var f := FilterEntries(entries, section);
      && (f.problems == [] <==> EntriesClean(entries, section, STRICT_BUT_NULLS))
      && (f.problems == [] && f.kept == entries <==> EntriesClean(entries, section, STRICT))
      && (f.problems != [] ==> f.kept != entries)
      && (f.problems == [] ==> f.dropped == 0)
  {
    hide SectionShape, SectionKey, ShapeOk, RepairShape, CheckShape;
    if entries != [] {
      var n := |entries| - 1;
      var at := [Key(SectionKey(section))];
      var front, last := FilterEntries(entries[..n], section), RepairShape(entries[n], SectionShape(section), at);
      FilterIsExact(entries[..n], section);
      SectionShapesAreOk(section);
      ShapeIsExact(entries[n], SectionShape(section), at);
      ReportsAreMutations(entries[n], SectionShape(section), at);
      CleanOneMore(entries, section, STRICT);
      CleanOneMore(entries, section, STRICT_BUT_NULLS);
      hide EntriesClean;
      OneMoreKept(entries, front.kept, last.value, last.ok);
    }
  }

  lemma CleanOneMore(entries: seq<Json>, section: Section, options: Options)
    requires entries != []
    ensures var n := |entries| - 1;
      EntriesClean(entries, section, options) <==>
        && EntriesClean(entries[..n], section, options)
        && CheckShape(entries[n], SectionShape(section), [Key(SectionKey(section))], options) == []
  {
    hide CheckShape, SectionShape, SectionKey;
    var n := |entries| - 1;
    if EntriesClean(entries[..n], section, options)
      && CheckShape(entries[n], SectionShape(section), [Key(SectionKey(section))], options) == []
    {
      forall i | 0 <= i < |entries|
        ensures CheckShape(entries[i], SectionShape(section), [Key(SectionKey(section))], options) == []
      {
        if i < n {
          assert entries[..n][i] == entries[i];
        }
      }
    }
  }

  /** What is kept is what there was exactly when the front was and the last is. */
  lemma OneMoreKept(entries: seq<Json>, front: seq<Json>, last: Json, ok: bool)
    requires entries != [] && |front| <= |entries| - 1
    ensures front + (if ok then [last] else []) == entries
       <==> front == entries[..|entries| - 1] && ok && last == entries[|entries| - 1]
  {
    var n := |entries| - 1;
    var kept := front + if ok then [last] else [];
    assert entries == entries[..n] + [entries[n]];
    if kept == entries {
      assert |front| == n && ok;
      assert kept[..n] == front && kept[n] == last;
    }
  }

  // ----- the reports of a batch ------------------------------------------------------------

  /** A section the repair has nothing to say about. */
  ghost predicate Quiet(payload: map<string, Json>, section: Section) {
    var v := Get(payload, SectionKey(section));
    v.Arr? ==> FilterEntries(v.items, section).problems == []
  }

  /** One section's repair adds no report exactly when it has nothing to say, and leaves
      what the others hold. */
  lemma SectionReports(b: BatchRepair, section: Section)
    ensures RepairSection(b, section).problems == [] <==> b.problems == [] && Quiet(b.payload, section)
    ensures RepairSection(b, section).dropped >= b.dropped
    ensures RepairSection(b, section).problems == [] ==> RepairSection(b, section).dropped == b.dropped
    ensures forall other | other != section :: Quiet(RepairSection(b, section).payload, other) <==> Quiet(b.payload, other)
  {
    hide SectionKey, FilterEntries, EntriesClean;
    var next := RepairSection(b, section);
    SectionKeysDiffer();
    if Get(b.payload, SectionKey(section)).Arr? {
      FilterIsExact(b.payload[SectionKey(section)].items, section);
    }
    forall other | other != section
      ensures Quiet(next.payload, other) <==> Quiet(b.payload, other)
    {
      assert Get(next.payload, SectionKey(other)) == Get(b.payload, SectionKey(other));
    }
  }

  lemma {:induction false} SectionsReports(b: BatchRepair, sections: seq<Section>)
    requires forall i, j :: 0 <= i < j < |sections| ==> sections[i] != sections[j]
    ensures RepairSections(b, sections).problems == []
       <==> b.problems == [] && forall section | section in sections :: Quiet(b.payload, section)
    ensures RepairSections(b, sections).dropped >= b.dropped
    ensures RepairSections(b, sections).problems == [] ==> RepairSections(b, sections).dropped == b.dropped
    decreases |sections|
  {
    if sections != [] {
      hide RepairSection, Quiet;
      var next, rest := RepairSection(b, sections[0]), sections[1..];
      SectionReports(b, sections[0]);
      SectionsReports(next, rest);
      forall section | section in sections
        ensures section == sections[0] || section in rest
      {
      }
      assert sections[0] in sections;
    }
  }

  /** The runtime sample is neither reported on nor dropped. */
  ghost predicate RuntimeQuiet(payload: map<string, Json>) {
    var v := Get(payload, SectionKey(Runtime));
    Present(v) ==> RepairShape(v, SectionShape(Runtime), [Key(SectionKey(Runtime))]).problems == []
  }

  lemma RuntimeIsExact(payload: map<string, Json>)
    ensures RuntimeQuiet(payload) <==> RuntimeClean(payload, STRICT_BUT_NULLS)
    ensures var v := Get(payload, SectionKey(Runtime));
      var r := RepairShape(v, SectionShape(Runtime), [Key(SectionKey(Runtime))]);
      Present(v) ==>
        && (r.problems == [] && r.value == v <==> RuntimeClean(payload, STRICT))
        && (r.problems != [] ==> !r.ok || r.value != v)
        && (r.problems == [] ==> r.ok)
  {
    hide SectionShape, SectionKey, ShapeOk, RepairShape, CheckShape;
    SectionShapesAreOk(Runtime);
    var v := Get(payload, SectionKey(Runtime));
    ShapeIsExact(v, SectionShape(Runtime), [Key(SectionKey(Runtime))]);
    ReportsAreMutations(v, SectionShape(Runtime), [Key(SectionKey(Runtime))]);
  }

  lemma RuntimeReports(b: BatchRepair)
    ensures RepairRuntime(b).problems == [] <==> b.problems == [] && RuntimeQuiet(b.payload)
    ensures RepairRuntime(b).problems == [] ==> RepairRuntime(b).dropped == b.dropped
  {
    hide SectionShape, SectionKey, RepairShape, RuntimeClean;
    RuntimeIsExact(b.payload);
  }

  lemma SameRuntime(payload: map<string, Json>, middle: map<string, Json>)
    requires SameAt(payload, middle, SectionKey(Runtime))
    ensures RuntimeQuiet(payload) <==> RuntimeQuiet(middle)
  {
    hide SectionShape, RepairShape, SectionKey;
    assert Get(middle, SectionKey(Runtime)) == Get(payload, SectionKey(Runtime));
  }

  lemma BatchReports(payload: map<string, Json>)
    ensures var r := RepairBatch(payload);
      && (r.problems == [] <==> RuntimeQuiet(payload) && forall section | section in ARRAY_SECTIONS :: Quiet(payload, section))
      && (r.problems == [] ==> r.dropped == 0)
  {
    var b := BatchRepair(payload, 0, []);
    SectionsReports(b, ARRAY_SECTIONS);
    SectionsByKey(b, ARRAY_SECTIONS);
    SectionKeysDiffer();
    var middle := RepairSections(b, ARRAY_SECTIONS);
    assert !KeyOf(SectionKey(Runtime), ARRAY_SECTIONS);
    hide RepairSections, RepairRuntime, RuntimeQuiet, SectionKey, Quiet, SectionRepaired;
    SameRuntime(payload, middle.payload);
    RuntimeReports(middle);
  }

  /** A section the repair leaves as it was. */
  ghost predicate SameSection(payload: map<string, Json>, after: map<string, Json>, section: Section) {
    SameAt(payload, after, SectionKey(section))
  }

  lemma SameBatch(payload: map<string, Json>, after: map<string, Json>)
    requires forall key | !IsSectionKey(key) :: SameAt(payload, after, key)
    ensures payload == after <==> forall section: Section :: SameSection(payload, after, section)
  {
    hide SectionKey;
    if forall section: Section :: SameSection(payload, after, section) {
      forall key
        ensures (key in payload <==> key in after) && (key in payload ==> payload[key] == after[key])
      {
        if IsSectionKey(key) {
          var section: Section :| key == SectionKey(section);
          assert SameSection(payload, after, section);
        }
      }
      assert payload.Keys == after.Keys;
    }
  }

  /** What becomes of each section, by what the validator says of its entries. */
  lemma SectionIsExact(payload: map<string, Json>, after: map<string, Json>, section: Section)
    requires SectionRepaired(payload, after, section)
    ensures Quiet(payload, section) <==> SectionClean(payload, section, STRICT_BUT_NULLS)
    ensures Quiet(payload, section) && SameSection(payload, after, section) <==> SectionClean(payload, section, STRICT)
    ensures !Quiet(payload, section) ==> !SameSection(payload, after, section)
  {
    hide FilterEntries, EntriesClean, SectionKey;
    var v := Get(payload, SectionKey(section));
    if v.Arr? {
      FilterIsExact(v.items, section);
    }
  }

  lemma RuntimeSectionIsExact(payload: map<string, Json>, after: map<string, Json>)
    requires RuntimeRepaired(payload, after)
    ensures RuntimeQuiet(payload) <==> RuntimeClean(payload, STRICT_BUT_NULLS)
    ensures RuntimeQuiet(payload) && SameSection(payload, after, Runtime) <==> RuntimeClean(payload, STRICT)
    ensures !RuntimeQuiet(payload) ==> !SameSection(payload, after, Runtime)
  {
    hide RepairShape, SectionShape, SectionKey, RuntimeClean;
    RuntimeIsExact(payload);
    var v := Get(payload, SectionKey(Runtime));
    if !Present(v) {
      NothingToSample(payload);
    }
  }

  lemma NothingToSample(payload: map<string, Json>)
    requires !Present(Get(payload, SectionKey(Runtime)))
    ensures RuntimeClean(payload, STRICT) && RuntimeClean(payload, STRICT_BUT_NULLS)
  {
  }

  /** For every batch: it is called unchanged exactly when the sections hold nothing
      worse than explicit nulls, it is unchanged and so called exactly when they are in
      contract, and called changed it has been changed. Nothing is dropped unsaid. */
  lemma ChangedIsExact(payload: map<string, Json>)
    ensures var r := RepairBatch(payload);
      && (!r.Changed() <==> SectionsClean(payload, STRICT_BUT_NULLS))
      && (!r.Changed() && r.payload == payload <==> SectionsClean(payload, STRICT))
      && (r.Changed() ==> r.payload != payload)
      && (r.dropped > 0 ==> r.Changed())
  {
    var after := RepairBatch(payload).payload;
    RepairedByKey(payload);
    BatchReports(payload);
    RuntimeSectionIsExact(payload, after);
    forall section | section in ARRAY_SECTIONS
      ensures Quiet(payload, section) <==> SectionClean(payload, section, STRICT_BUT_NULLS)
      ensures Quiet(payload, section) && SameSection(payload, after, section) <==> SectionClean(payload, section, STRICT)
      ensures !Quiet(payload, section) ==> !SameSection(payload, after, section)
    {
      SectionIsExact(payload, after, section);
    }
    SameBatch(payload, after);
    hide RepairBatch, Quiet, RuntimeQuiet, RuntimeClean, SectionClean, SectionRepaired, RuntimeRepaired, SameSection;
    forall section: Section
      ensures section == Runtime || section in ARRAY_SECTIONS
    {
    }
  }

  // ----- in contract, section by section -----------------------------------------------------

  /** A section is absent, or an array no longer than the API takes. */
  ghost predicate HoldsArray(payload: map<string, Json>, section: Section) {
    var v := Get(payload, SectionKey(section));
    Present(v) ==> v.Arr? && |v.items| <= MAX_BATCH_ITEMS
  }

  lemma ArraySectionCheck(payload: map<string, Json>, section: Section, options: Options)
    requires section in ARRAY_SECTIONS
    ensures CheckEntry(Obj(payload), TELEMETRY_BATCH[SectionIndex(section)], TELEMETRY_BATCH, [], options) == []
        ==> HoldsArray(payload, section) && SectionClean(payload, section, options)
    ensures !options.noNulls && HoldsArray(payload, section) && SectionClean(payload, section, options)
        ==> CheckEntry(Obj(payload), TELEMETRY_BATCH[SectionIndex(section)], TELEMETRY_BATCH, [], options) == []
  {
    hide CheckShape, SectionShape, SectionKey, CheckField;
    var e := TELEMETRY_BATCH[SectionIndex(section)];
    SectionSpec(section);
    var at := [] + [Key(e.key)];
    var v := Get(payload, e.key);
    if v.Arr? {
      ArrayIsClean(v.items, section, e.spec, at, options);
    } else if Present(v) {
      NotAnArray(v, e.spec, TELEMETRY_BATCH, at, options);
    }
  }

  lemma ArrayIsClean(items: seq<Json>, section: Section, spec: FieldSpec, at: Path, options: Options)
    requires spec.isArray && spec.alsoAccepts == [] && !spec.recursive && spec.shape == Modelled(SectionShape(section))
    requires spec.maxItems == Some(MAX_BATCH_ITEMS)
    ensures CheckField(Arr(items), spec, TELEMETRY_BATCH, at, options) == []
       <==> |items| <= MAX_BATCH_ITEMS && EntriesClean(items, section, options)
  {
    hide CheckShape, SectionShape, SectionKey;
    ItemsCheck(Arr(items), 0, spec, TELEMETRY_BATCH, at, options);
    forall i | 0 <= i < |items|
      ensures CheckField(items[i], Element(spec), TELEMETRY_BATCH, at + [Index(i)], options) == []
         <==> CheckShape(items[i], SectionShape(section), [Key(SectionKey(section))], options) == []
    {
      var p, q := at + [Index(i)], [Key(SectionKey(section))];
      CheckShapeLaxer(items[i], SectionShape(section), p, q, options, options);
      CheckShapeLaxer(items[i], SectionShape(section), q, p, options, options);
    }
  }

  lemma RuntimeSectionCheck(payload: map<string, Json>, options: Options)
    ensures CheckEntry(Obj(payload), TELEMETRY_BATCH[SectionIndex(Runtime)], TELEMETRY_BATCH, [], options) == []
        ==> RuntimeClean(payload, options)
    ensures !options.noNulls && RuntimeClean(payload, options)
        ==> CheckEntry(Obj(payload), TELEMETRY_BATCH[SectionIndex(Runtime)], TELEMETRY_BATCH, [], options) == []
  {
    hide CheckShape, SectionShape, SectionKey, CheckField;
    var e := TELEMETRY_BATCH[SectionIndex(Runtime)];
    SectionSpec(Runtime);
    var at := [] + [Key(e.key)];
    assert at == [Key(SectionKey(Runtime))];
    var v := Get(payload, e.key);
    if Present(v) {
      ObjectCheck(v, e.spec, SectionShape(Runtime), TELEMETRY_BATCH, at, options);
    }
  }

  /** A batch is in contract exactly when its root is and its sections are. */
  lemma InContractBySection(payload: map<string, Json>, options: Options)
    requires options.forbidUnknown && !options.noNulls
    ensures CheckShape(Obj(payload), TELEMETRY_BATCH, [], options) == []
       <==> && RootInContract(payload, options)
            && (forall section | section in ARRAY_SECTIONS :: HoldsArray(payload, section))
            && SectionsClean(payload, options)
  {
    hide CheckEntry, CheckEntries, SectionClean, RuntimeClean, HoldsArray, SectionShape;
    EntriesCheck(Obj(payload), TELEMETRY_BATCH, TELEMETRY_BATCH, [], options);
    RuntimeSectionCheck(payload, options);
    forall section | section in ARRAY_SECTIONS
      ensures CheckEntry(Obj(payload), TELEMETRY_BATCH[SectionIndex(section)], TELEMETRY_BATCH, [], options) == []
         <==> HoldsArray(payload, section) && SectionClean(payload, section, options)
    {
      ArraySectionCheck(payload, section, options);
    }
    forall i | 0 <= i < |TELEMETRY_BATCH| && IsSectionKey(TELEMETRY_BATCH[i].key)
      ensures exists section: Section :: i == SectionIndex(section) && (section == Runtime || section in ARRAY_SECTIONS)
    {
      BatchKeys();
      var section: Section :| TELEMETRY_BATCH[i].key == SectionKey(section);
      assert TELEMETRY_BATCH[SectionIndex(section)].key == TELEMETRY_BATCH[i].key;
      assert i == SectionIndex(section);
    }
  }

  /** What the repair neither looks at nor changes, apart from the sections' entries. */
  ghost predicate RestInContract(payload: map<string, Json>, options: Options) {
    RootInContract(payload, options) && forall section | section in ARRAY_SECTIONS :: HoldsArray(payload, section)
  }

  /** For every batch, when `changed` false means what it is said to mean. By the validator:
      exactly when the root is in contract, with no key undeclared, and each array section
      an array within its limit. As the wire takes it: exactly when no declared key holds
      an explicit null besides. And a batch in contract is never called changed. */
  lemma UnchangedMeansInContractExactly(payload: map<string, Json>)
    ensures !RepairBatch(payload).Changed() ==>
      && (CheckShape(Obj(payload), TELEMETRY_BATCH, [], FORBID_UNKNOWN) == [] <==> RestInContract(payload, FORBID_UNKNOWN))
      && (CheckShape(Obj(payload), TELEMETRY_BATCH, [], STRICT) == []
          <==> RestInContract(payload, STRICT_BUT_NULLS) && NullFree(Obj(payload), TELEMETRY_BATCH))
    ensures CheckShape(Obj(payload), TELEMETRY_BATCH, [], STRICT) == [] ==> !RepairBatch(payload).Changed()
  {
    hide RepairBatch, RootInContract, HoldsArray, CheckShape, NullFree, SectionsClean;
    ChangedIsExact(payload);
    InContractBySection(payload, FORBID_UNKNOWN);
    InContractBySection(payload, STRICT_BUT_NULLS);
    StrictIsNullFree(Obj(payload), TELEMETRY_BATCH, []);
    SectionsCleanLaxer(payload);
  }

  lemma SectionsCleanLaxer(payload: map<string, Json>)
    ensures SectionsClean(payload, STRICT_BUT_NULLS) ==> SectionsClean(payload, FORBID_UNKNOWN)
  {
    if SectionsClean(payload, STRICT_BUT_NULLS) {
      hide CheckShape, SectionShape, SectionKey;
      forall section | section in ARRAY_SECTIONS
        ensures SectionClean(payload, section, FORBID_UNKNOWN)
      {
        assert SectionClean(payload, section, STRICT_BUT_NULLS);
        EntriesCleanLaxer(payload, section);
      }
      var at := [Key(SectionKey(Runtime))];
      CheckShapeLaxer(Get(payload, SectionKey(Runtime)), SectionShape(Runtime), at, at, STRICT_BUT_NULLS, FORBID_UNKNOWN);
    }
  }

  lemma EntriesCleanLaxer(payload: map<string, Json>, section: Section)
    requires SectionClean(payload, section, STRICT_BUT_NULLS)
    ensures SectionClean(payload, section, FORBID_UNKNOWN)
  {
    hide CheckShape, SectionShape, SectionKey;
    var v := Get(payload, SectionKey(section));
    if v.Arr? {
      forall i | 0 <= i < |v.items|
        ensures CheckShape(v.items[i], SectionShape(section), [Key(SectionKey(section))], FORBID_UNKNOWN) == []
      {
        var at := [Key(SectionKey(section))];
        CheckShapeLaxer(v.items[i], SectionShape(section), at, at, STRICT_BUT_NULLS, FORBID_UNKNOWN);
      }
    }
  }

  // ----- batches called unchanged that are not in contract -------------------------------------

  /** With nothing in any section the repair looks at, a batch is called unchanged and is. */
  lemma NothingToRepair(payload: map<string, Json>)
    requires forall section: Section :: !Get(payload, SectionKey(section)).Arr? && (section == Runtime ==> !Present(Get(payload, SectionKey(section))))
    ensures !RepairBatch(payload).Changed() && RepairBatch(payload).payload == payload
  {
    hide CheckShape, SectionKey;
    ChangedIsExact(payload);
    hide RepairBatch;
    assert SectionsClean(payload, STRICT);
  }

  lemma BogusIsUndeclared()
    ensures !KeyIn("bogus", TELEMETRY_BATCH)
  {
    hide REQUEST_SNAPSHOT, JOB_SNAPSHOT, CUSTOM_METRIC, LOG_ENTRY, RUNTIME_METRICS, OBJECTIVE_DECLARATION;
    hide Of, UpTo, AtMost, RequiredField;
    forall i | 0 <= i < |TELEMETRY_BATCH|
      ensures TELEMETRY_BATCH[i].key != "bogus"
    {
      assert |"bogus"| == 5 && |TELEMETRY_BATCH[i].key| != 5;
    }
  }

  /** A root key nobody declared. */
  lemma UnchangedWithAnUndeclaredKey(id: Text)
    ensures var payload := map["serviceId" := Str(id), "bogus" := Bool(true)];
      && !RepairBatch(payload).Changed() && RepairBatch(payload).payload == payload
      && CheckShape(Obj(payload), TELEMETRY_BATCH, [], FORBID_UNKNOWN) != []
  {
    var payload := map["serviceId" := Str(id), "bogus" := Bool(true)];
    hide TELEMETRY_BATCH, RepairBatch, CheckShape, CheckEntry;
    SectionKeysAreNot("bogus");
    SectionKeysAreNot("serviceId");
    NothingToRepair(payload);
    UnchangedMeansInContractExactly(payload);
    BogusIsUndeclared();
    assert "bogus" in Undeclared(payload, TELEMETRY_BATCH);
  }

  /** A section that is no array. */
  lemma UnchangedWithoutAnArray(text: Text)
    ensures var payload := map["logs" := Str(text)];
      && !RepairBatch(payload).Changed() && RepairBatch(payload).payload == payload
      && CheckShape(Obj(payload), TELEMETRY_BATCH, [], FORBID_UNKNOWN) != []
  {
    var payload := map["logs" := Str(text)];
    SectionKeysAreNot("logs");
    NothingToRepair(payload);
    UnchangedMeansInContractExactly(payload);
    hide RepairBatch, CheckShape, RootInContract;
    assert SectionKey(Logs) == "logs" && Logs in ARRAY_SECTIONS;
    assert !HoldsArray(payload, Logs);
  }

  /** What the validator says of a log line with nothing wrong but a null. */
  lemma LineWithANull(timestamp: real, text: Text)
    ensures var entry := Obj(map["timestamp" := Num(Finite(timestamp)), "text" := Str(text), "level" := Null]);
      && CheckShape(entry, LOG_ENTRY, [Key("logs")], STRICT_BUT_NULLS) == []
      && CheckShape(entry, LOG_ENTRY, [Key("logs")], STRICT) != []
  {
    var entry := Obj(map["timestamp" := Num(Finite(timestamp)), "text" := Str(text), "level" := Null]);
    hide LOG_ENTRY, CheckShape, RepairShape, ShapeOk;
    SilentNull(timestamp, text);
    LogsAreOk();
    ShapeIsExact(entry, LOG_ENTRY, [Key("logs")]);
  }

  /** A batch of log lines alone is as clean as they are. */
  lemma OnlyLogs(payload: map<string, Json>, items: seq<Json>, options: Options)
    requires payload == map["logs" := Arr(items)]
    ensures SectionsClean(payload, options) <==> EntriesClean(items, Logs, options)
  {
    hide CheckShape, EntriesClean;
    SectionKeysAreNot("logs");
    hide SectionKey, SectionShape;
    assert ARRAY_SECTIONS[3] == Logs;
    assert SectionClean(payload, Logs, options) <==> EntriesClean(items, Logs, options);
    forall section: Section | section != Logs
      ensures Get(payload, SectionKey(section)) == Undefined
    {
    }
    assert RuntimeClean(payload, options);
  }

  /** A log line that holds an explicit null: the batch is called unchanged, though the
      key has been taken out, and was not what the wire takes. */
  lemma UnchangedWithANull(timestamp: real, text: Text)
    ensures var entry := Obj(map["timestamp" := Num(Finite(timestamp)), "text" := Str(text), "level" := Null]);
      var payload := map["logs" := Arr([entry])];
      && !RepairBatch(payload).Changed() && RepairBatch(payload).payload != payload
      && CheckShape(Obj(payload), TELEMETRY_BATCH, [], STRICT) != []
  {
    var entry := Obj(map["timestamp" := Num(Finite(timestamp)), "text" := Str(text), "level" := Null]);
    var payload := map["logs" := Arr([entry])];
    LineWithANull(timestamp, text);
    OneLineClean(entry, STRICT);
    OneLineClean(entry, STRICT_BUT_NULLS);
    hide *;
    OnlyLogs(payload, [entry], STRICT);
    OnlyLogs(payload, [entry], STRICT_BUT_NULLS);
    ChangedIsExact(payload);
    if CheckShape(Obj(payload), TELEMETRY_BATCH, [], STRICT) == [] {
      StrictBatchIsUnchanged(payload);
    }
  }

  lemma OneLineClean(entry: Json, options: Options)
    ensures EntriesClean([entry], Logs, options) <==> CheckShape(entry, LOG_ENTRY, [Key("logs")], options) == []
  {
    hide CheckShape, LOG_ENTRY;
    assert SectionShape(Logs) == LOG_ENTRY && SectionKey(Logs) == "logs";
    assert [entry][0] == entry;
  }

  /** A batch the wire takes has clean sections, and so is left as it is. */
  lemma StrictBatchIsUnchanged(payload: map<string, Json>)
    requires CheckShape(Obj(payload), TELEMETRY_BATCH, [], STRICT) == []
    ensures SectionsClean(payload, STRICT) && RepairBatch(payload).payload == payload
  {
    hide RepairBatch, CheckEntry, CheckEntries, SectionClean, RuntimeClean, HoldsArray, SectionShape;
    EntriesCheck(Obj(payload), TELEMETRY_BATCH, TELEMETRY_BATCH, [], STRICT);
    RuntimeSectionCheck(payload, STRICT);
    forall section | section in ARRAY_SECTIONS
      ensures SectionClean(payload, section, STRICT)
    {
      ArraySectionCheck(payload, section, STRICT);
    }
    ChangedIsExact(payload);
  }
  lemma SectionKeysAreNot(key: string)
    ensures key == "bogus" || key == "serviceId" ==> forall section: Section :: SectionKey(section) != key
    ensures key == "logs" ==> forall section: Section :: section != Logs ==> SectionKey(section) != key
    ensures SectionKey(Logs) == "logs"
  {
    SectionKeysDiffer();
    assert |"bogus"| == 5 && |"serviceId"| == 9 && "serviceId"[1] == 'e' && SectionKey(Snapshots)[1] == 'n';
    assert |SectionKey(Snapshots)| == 9 && |SectionKey(Jobs)| == 4 && |SectionKey(Custom)| == 6
        && |SectionKey(Logs)| == 4 && |SectionKey(Runtime)| == 7;
  }
}
