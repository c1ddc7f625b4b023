/** What is produced stays within what the contract takes: the collector refuses a whole
    batch over one value too long or one entry too many, so every producer cuts or counts. */
module ProducerLimits {
  import opened WireContract
  import opened TelemetryShapes
  import opened SharedBuffer
  import opened IngestRuns
  import C = ContractMeaning
  import Ingest
  import M = MetricDelivery
  import O = Objectives
  import Logs = LogBacklog

  /** How many entries the contract takes in a section. */
  function RoomFor(section: Section): int {
    var most := TELEMETRY_BATCH[SectionIndex(section)].spec.maxItems;
    if most.Some? then most.value else -1
  }

  ghost predicate BatchFits(p: Payload) {
    && |p.snapshots| <= RoomFor(Snapshots)
    && |p.jobs| <= RoomFor(Jobs)
    && |LogsOf(p)| <= RoomFor(Section.Logs)
  }

  lemma RoomIs()
    ensures RoomFor(Snapshots) == RoomFor(Jobs) == RoomFor(Section.Logs) == 5000
  {
  }

  ghost predicate LinesFit(w: World) {
    && |LogsOf(BatchOf(w.s))| <= 2000 && |w.s.pendingLogs| <= 2000
    && forall p :: p in w.flushed ==> |LogsOf(p)| <= 2000
  }

  lemma LinesFitStep(o: SharedBuffer.Options, w: World, e: Event)
    requires LinesFit(w)
    ensures LinesFit(Apply(o, w, e))
  {
    hide Ingest.Grade, Ingest.Encode, Ingest.HasOperation, Ingest.WithOperation, OperationCap;
  }

  lemma {:induction false} LinesFitRun(o: SharedBuffer.Options, w: World, events: seq<Event>)
    requires LinesFit(w)
    ensures LinesFit(Run(o, w, events))
    decreases |events|
  {
    if events != [] {
      LinesFitStep(o, w, events[0]);
      hide Apply, LinesFit;
      LinesFitRun(o, Apply(o, w, events[0]), events[1..]);
    }
  }

  /** Over any run, the final flush of a whole backlog included, every batch handed off has
      no more of anything than the contract takes in its section. */
  lemma EveryBatchFits(o: SharedBuffer.Options, events: seq<Event>)
    ensures forall p :: p in Run(o, FRESH, events).flushed ==> BatchFits(p)
  {
    LinesFitRun(o, FRESH, events);
    RunStaysUnderTheCap(o, FRESH, events);
    RoomIs();
    hide Run, RoomFor;
  }

  /** A metric's name, as it is sent, is one the contract takes, whatever it was. */
  lemma EveryMetricNameFits(name: M.Name, hash: M.Name -> M.Name, path: Path, options: WireContract.Options)
    requires |hash(name)| == 8
    ensures CheckField(Str(M.FitToLength(name, hash)), CUSTOM_METRIC[0].spec, CUSTOM_METRIC, path, options) == []
  {
    M.CutNames(name, hash);
    var sent := M.FitToLength(name, hash);
    assert CUSTOM_METRIC[0].spec == STRING.(required := true, maxLength := Some(100));
    hide CUSTOM_METRIC, M.FitToLength;
    C.FlatIsTaken(Str(sent), CUSTOM_METRIC[0].spec, path, options);
  }

  /** A batch's declarations, and the route of each, are within what the contract takes. */
  lemma DeclarationsFit(registry: O.Registry, r: O.Request)
    ensures TELEMETRY_BATCH[9].spec.maxItems == Some(O.MAX_OBJECTIVES_PER_BATCH) && TELEMETRY_BATCH[9].spec.shape == Modelled(OBJECTIVE_DECLARATION)
    ensures OBJECTIVE_DECLARATION[1].key == "operationId" && OBJECTIVE_DECLARATION[1].spec.maxLength.Some?
    ensures registry.MayDeclare(r) ==> |r.operationId.value| <= OBJECTIVE_DECLARATION[1].spec.maxLength.value
  {
  }
}
