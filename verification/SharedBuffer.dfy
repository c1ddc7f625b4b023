/** The main thread's side of the agent: the batch being built, the collector's last
    answer about the account, and the backlog of log lines. The class is the buffer the
    application writes to; `State` and the functions on it say what each call does.
    Every call reads the clock once, as `now`. */
module SharedBuffer {
  import opened Ingest
  import Logs = LogBacklog

  datatype IngestMode = Full | Reduced | Trimmed | Paced | ErrorsOnly

  /** What the collector lets the agent export to a receiver of the application's own. */
  datatype Grant = FullGrant | Capped | NoGrant

  datatype Reporting = Off | Started | Ingesting

  const DEGRADED_TTL_MS: nat := 5 * 60 * 1000
  const DEFAULT_MAX_TRACES_PER_BATCH: nat := 1000
  const MAX_BATCH_ITEMS: nat := 5000

  datatype Options = Options(maxTracesPerBatch: Option<nat>, exporterEnabled: bool)

  function OperationCap(o: Options): (cap: nat)
    ensures cap <= MAX_BATCH_ITEMS
  {
    var configured := if o.maxTracesPerBatch.Some? then o.maxTracesPerBatch.value else DEFAULT_MAX_TRACES_PER_BATCH;
    if configured < MAX_BATCH_ITEMS then configured else MAX_BATCH_ITEMS
  }

  datatype Payload = Payload(
    snapshots: seq<Encoded>,
    jobs: seq<Encoded>,
    truncatedSpans: nat,
    logs: Option<seq<Logs.LogEntry>>,
    runtime: Option<nat>)

  const EMPTY_PAYLOAD := Payload([], [], 0, None, None)

  /** One operation handed to the exporter, with the tree under it or without. */
  datatype Export = Export(work: Execution, withTree: bool)

  datatype State = State(
    batch: Option<Payload>,
    withheldSnapshots: nat,
    withheldJobs: nat,
    pendingLogs: seq<Logs.LogEntry>,
    degradedUntil: nat,
    errorsOnly: bool,
    reporting: Reporting,
    otlpExport: Grant,
    cappedUntil: nat)

  const INIT := State(None, 0, 0, [], 0, false, Off, NoGrant, 0)

  // ----- what each call does -----------------------------------------------------------

  predicate IsDegraded(s: State, now: nat) {
    s.degradedUntil > now
  }

  predicate IsErrorsOnly(s: State, now: nat) {
    s.errorsOnly && IsDegraded(s, now)
  }

  function TreatmentAt(s: State, now: nat): Treatment {
    if IsErrorsOnly(s, now) then KeepErrors else if IsDegraded(s, now) then WithholdTrees else KeepAll
  }

  function GrantAt(o: Options, s: State, now: nat): Grant {
    if !o.exporterEnabled || s.reporting != Ingesting || (s.otlpExport == Capped && now >= s.cappedUntil)
    then NoGrant else s.otlpExport
  }

  function BatchOf(s: State): Payload {
    if s.batch.Some? then s.batch.value else EMPTY_PAYLOAD
  }

  /** Withheld executions count towards the cap as though they had been sent. */
  predicate HasRoomForRequest(o: Options, s: State) {
    |BatchOf(s).snapshots| + s.withheldSnapshots < OperationCap(o)
  }

  predicate HasRoomForJob(o: Options, s: State) {
    |BatchOf(s).jobs| + s.withheldJobs < OperationCap(o)
  }

  function OneMore(sent: seq<Encoded>, outcome: Outcome): seq<Encoded> {
    if outcome.sent.Some? then sent + [outcome.sent.value] else sent
  }

  function RequestInserted(o: Options, s: State, request: Execution, now: nat): State {
    var x := WithOperation(request);
    if !HasOperation(x) then s
    else if !HasRoomForRequest(o, s) then s.(batch := Some(BatchOf(s)))
    else
      var p, outcome := BatchOf(s), Grade(Encode(x), TreatmentAt(s, now));
      s.(batch := Some(p.(snapshots := OneMore(p.snapshots, outcome), truncatedSpans := p.truncatedSpans + outcome.withheld)),
         withheldSnapshots := s.withheldSnapshots + if outcome.sent.Some? then 0 else 1)
  }

  function JobInserted(o: Options, s: State, job: Execution, now: nat): State {
    if !HasRoomForJob(o, s) then s.(batch := Some(BatchOf(s)))
    else
      var p, outcome := BatchOf(s), Grade(Encode(job), TreatmentAt(s, now));
      s.(batch := Some(p.(jobs := OneMore(p.jobs, outcome), truncatedSpans := p.truncatedSpans + outcome.withheld)),
         withheldJobs := s.withheldJobs + if outcome.sent.Some? then 0 else 1)
  }

  /** A full grant exports whatever happens to the batch; a capped one what the batch
      was just given, and its tree only if the batch has it. */
  function ExportFor(grant: Grant, x: Execution, enters: bool, outcome: Outcome): Option<Export> {
    match grant
    case FullGrant => Some(Export(x, true))
    case Capped => if enters && outcome.sent.Some? then Some(Export(x, outcome.keepsTree)) else None
    case NoGrant => None
  }

  function RequestExport(o: Options, s: State, request: Execution, now: nat): Option<Export> {
    var x := WithOperation(request);
    ExportFor(GrantAt(o, s, now), x, HasOperation(x) && HasRoomForRequest(o, s), Grade(Encode(x), TreatmentAt(s, now)))
  }

  function JobExport(o: Options, s: State, job: Execution, now: nat): Option<Export> {
    ExportFor(GrantAt(o, s, now), job, HasRoomForJob(o, s), Grade(Encode(job), TreatmentAt(s, now)))
  }

  function VerdictRecorded(s: State, mode: IngestMode, now: nat): State {
    s.(degradedUntil := if mode == Full then 0 else now + DEGRADED_TTL_MS, errorsOnly := mode == ErrorsOnly)
  }

  function GrantRecorded(s: State, grant: Grant, now: nat): State {
    s.(otlpExport := grant, cappedUntil := if grant == Capped then now + DEGRADED_TTL_MS else 0)
  }

  /** What the worker thread has been heard to do. */
  datatype News = WorkerStarted | BatchAccepted | CredentialsRefused | WorkerStopped

  /** A start moves on from off alone; an accepted batch always counts; a refusal and a
      stop turn reporting off. */
  function ReportingAfter(reporting: Reporting, news: News): Reporting {
    match news
    case WorkerStarted => if reporting == Off then Started else reporting
    case BatchAccepted => Ingesting
    case CredentialsRefused => Off
    case WorkerStopped => Off
  }

  function LogsOf(p: Payload): seq<Logs.LogEntry> {
    if p.logs.Some? then p.logs.value else []
  }

  function LogsPushed(s: State, lines: seq<Logs.LogEntry>): State {
    var p := BatchOf(s);
    var pushed := Logs.Push(LogsOf(p), s.pendingLogs, lines);
    s.(batch := Some(p.(logs := Some(pushed.batch))), pendingLogs := pushed.backlog)
  }

  function LogsDrained(s: State, most: Logs.Limit): State {
    if s.pendingLogs == [] then s
    else
      var p := BatchOf(s);
      var n := Logs.DrainCount(|LogsOf(p)|, |s.pendingLogs|, most);
      s.(batch := Some(p.(logs := Some(LogsOf(p) + s.pendingLogs[..n]))), pendingLogs := s.pendingLogs[n..])
  }

  /** Errors-only ingest takes the log lines out as the batch is written, one unit each. */
  function LogsWithheld(s: State, now: nat): State {
    if s.batch.Some? && s.batch.value.logs.Some? && IsErrorsOnly(s, now)
    then s.(batch := Some(s.batch.value.(logs := None, truncatedSpans := s.batch.value.truncatedSpans + |s.batch.value.logs.value|)))
    else s
  }

  /** One runtime sample a batch: a later one takes the place of an earlier. */
  function RuntimeAdded(s: State, sample: Option<nat>): State {
    if sample.None? then s else s.(batch := Some(BatchOf(s).(runtime := sample)))
  }

  function Reset(s: State): State {
    s.(batch := None, withheldSnapshots := 0, withheldJobs := 0)
  }

  /** Bytes a batch takes encoded, against the room in the slot. */
  datatype Written = TooLarge | Wrote(payload: Option<Payload>)

  const SLOT_BYTES: nat := 1024 * 1024 * 16 - 8

  // ----- the buffer ----------------------------------------------------------------------

  class Buffer {
    const options: Options
    const encodedLength: Option<Payload> -> nat
    var batch: Option<Payload>
    var withheldSnapshots: nat
    var withheldJobs: nat
    var pendingLogs: seq<Logs.LogEntry>
    var degradedUntil: nat
    var errorsOnly: bool
    var reporting: Reporting
    var otlpExport: Grant
    var cappedUntil: nat

    ghost function Model(): State
      reads this
    {
      State(batch, withheldSnapshots, withheldJobs, pendingLogs, degradedUntil, errorsOnly, reporting, otlpExport, cappedUntil)
    }

    constructor (options: Options, encodedLength: Option<Payload> -> nat)
      ensures Model() == INIT && this.options == options && this.encodedLength == encodedLength
    {
      this.options, this.encodedLength := options, encodedLength;
      batch, withheldSnapshots, withheldJobs, pendingLogs := None, 0, 0, [];
      degradedUntil, errorsOnly, reporting, otlpExport, cappedUntil := 0, false, Off, NoGrant, 0;
    }

    predicate Degraded(now: nat)
      reads this
      ensures Degraded(now) == IsDegraded(Model(), now)
    {
      degradedUntil > now
    }

    predicate OnlyErrors(now: nat)
      reads this
      ensures OnlyErrors(now) == IsErrorsOnly(Model(), now)
    {
      errorsOnly && Degraded(now)
    }

    /** Asked once per operation, as it is handed over. */
    function OtlpExportGrant(now: nat): (grant: Grant)
      reads this
      ensures grant == GrantAt(options, Model(), now)
    {
      if !options.exporterEnabled || reporting != Ingesting then NoGrant
      else if otlpExport == Capped && now >= cappedUntil then NoGrant
      else otlpExport
    }

    method CountWithheld(events: nat)
      modifies this`batch
      ensures batch == if old(batch).None? then None else Some(old(batch).value.(truncatedSpans := old(batch).value.truncatedSpans + events))
    {
      if batch.None? {
        return;
      }
      batch := Some(batch.value.(truncatedSpans := batch.value.truncatedSpans + events));
    }

    method CountTruncated(traces: seq<EncodedNode>)
      modifies this`batch
      ensures batch == if old(batch).None? then None
                       else Some(old(batch).value.(truncatedSpans := old(batch).value.truncatedSpans + EncodedCount(traces)))
    {
      var count := CountTraceNodes(traces);
      CountWithheld(count);
    }

    /** Whether an execution is sent under errors-only ingest: without its tree, which
        is counted, and counted itself where it is not. */
    method SendsWhileErrorsOnly(execution: Encoded) returns (sends: bool, stripped: Encoded)
      requires batch.Some?
      modifies this`batch
      ensures var outcome := Grade(execution, KeepErrors);
        && sends == outcome.sent.Some?
        && (sends <==> if execution.sc.Some? then execution.sc.value >= 500 else execution.e)
        && (sends ==> stripped == outcome.sent.value)
        && batch == Some(old(batch).value.(truncatedSpans := old(batch).value.truncatedSpans + outcome.withheld))
    {
      CountTruncated(execution.t);
      stripped := execution.(t := []);
      if IsServerError(stripped) {
        return true, stripped;
      }
      CountWithheld(if stripped.e then 2 else 1);
      return false, stripped;
    }

    /** Outside errors-only ingest: an execution's tree is taken out, and counted, where
        trees are withheld and it is not notable. */
    method WithholdOrdinaryTree(execution: Encoded, now: nat) returns (kept: Encoded, keepsTree: bool)
      requires batch.Some? && !OnlyErrors(now)
      modifies this`batch
      ensures var outcome := Grade(execution, TreatmentAt(old(Model()), now));
        && outcome.sent == Some(kept) && keepsTree == outcome.keepsTree
        && batch == Some(old(batch).value.(truncatedSpans := old(batch).value.truncatedSpans + outcome.withheld))
    {
      kept, keepsTree := execution, true;
      if Degraded(now) && !IsNotable(execution) {
        CountTruncated(execution.t);
        kept, keepsTree := execution.(t := []), false;
      }
    }

    method InsertRequestSnapshot(request: Execution, now: nat) returns (exported: Option<Export>)
      modifies this`batch, this`withheldSnapshots
      ensures Model() == RequestInserted(options, old(Model()), request, now)
      ensures exported == RequestExport(options, old(Model()), request, now)
    {
      hide Encode, EncodedCount, WithOperation, HasOperation, IsNotable, IsServerError, OperationCap, GrantAt, OtlpExportGrant;
      var x := WithOperation(request);
      exported := None;
      var otlp := OtlpExportGrant(now);
      if otlp == FullGrant {
        exported := Some(Export(x, true));
      }
      if !HasOperation(x) {
        return;
      }
      if batch.None? {
        batch := Some(EMPTY_PAYLOAD);
      }
      if |batch.value.snapshots| + withheldSnapshots >= OperationCap(options) {
        return;
      }
      var encoded := Encode(x);
      if OnlyErrors(now) {
        var sends, stripped := SendsWhileErrorsOnly(encoded);
        if sends {
          batch := Some(batch.value.(snapshots := batch.value.snapshots + [stripped]));
          if otlp == Capped {
            exported := Some(Export(x, false));
          }
        } else {
          withheldSnapshots := withheldSnapshots + 1;
        }
      } else {
        var kept, keepsTree := WithholdOrdinaryTree(encoded, now);
        batch := Some(batch.value.(snapshots := batch.value.snapshots + [kept]));
        if otlp == Capped {
          exported := Some(Export(x, keepsTree));
        }
      }
    }

    method InsertJobSnapshot(job: Execution, now: nat) returns (exported: Option<Export>)
      modifies this`batch, this`withheldJobs
      ensures Model() == JobInserted(options, old(Model()), job, now)
      ensures exported == JobExport(options, old(Model()), job, now)
    {
      hide Encode, EncodedCount, IsNotable, IsServerError, OperationCap, GrantAt, OtlpExportGrant;
      exported := None;
      var otlp := OtlpExportGrant(now);
      if otlp == FullGrant {
        exported := Some(Export(job, true));
      }
      if batch.None? {
        batch := Some(EMPTY_PAYLOAD);
      }
      if |batch.value.jobs| + withheldJobs >= OperationCap(options) {
        return;
      }
      var encoded := Encode(job);
      if OnlyErrors(now) {
        var sends, stripped := SendsWhileErrorsOnly(encoded);
        if sends {
          batch := Some(batch.value.(jobs := batch.value.jobs + [stripped]));
          if otlp == Capped {
            exported := Some(Export(job, false));
          }
        } else {
          withheldJobs := withheldJobs + 1;
        }
      } else {
        var kept, keepsTree := WithholdOrdinaryTree(encoded, now);
        batch := Some(batch.value.(jobs := batch.value.jobs + [kept]));
        if otlp == Capped {
          exported := Some(Export(job, keepsTree));
        }
      }
    }

    method SetIngestMode(mode: IngestMode, now: nat)
      modifies this`degradedUntil, this`errorsOnly
      ensures Model() == VerdictRecorded(old(Model()), mode, now)
    {
      degradedUntil := if mode == Full then 0 else now + DEGRADED_TTL_MS;
      errorsOnly := mode == ErrorsOnly;
    }

    method SetOtlpExport(grant: Grant, now: nat)
      modifies this`otlpExport, this`cappedUntil
      ensures Model() == GrantRecorded(old(Model()), grant, now)
    {
      otlpExport := grant;
      cappedUntil := if grant == Capped then now + DEGRADED_TTL_MS else 0;
    }

    method AddNodeRuntimeMetrics(sample: Option<nat>)
      modifies this`batch
      ensures Model() == RuntimeAdded(old(Model()), sample)
    {
      if sample.None? {
        return;
      }
      if batch.None? {
        batch := Some(EMPTY_PAYLOAD);
      }
      batch := Some(batch.value.(runtime := sample));
    }

    method RecordStarted()
      modifies this`reporting
      ensures reporting == ReportingAfter(old(reporting), WorkerStarted)
    {
      if reporting == Off {
        reporting := Started;
      }
    }

    method RecordAccepted()
      modifies this`reporting
      ensures reporting == ReportingAfter(old(reporting), BatchAccepted)
    {
      reporting := Ingesting;
    }

    method RecordRefused()
      modifies this`reporting
      ensures reporting == ReportingAfter(old(reporting), CredentialsRefused)
    {
      reporting := Off;
    }

    method RecordStopped()
      modifies this`reporting
      ensures reporting == ReportingAfter(old(reporting), WorkerStopped)
    {
      reporting := Off;
    }

    method PushLogs(lines: seq<Logs.LogEntry>)
      modifies this`batch, this`pendingLogs
      ensures Model() == LogsPushed(old(Model()), lines)
    {
      if batch.None? {
        batch := Some(EMPTY_PAYLOAD);
      }
      if batch.value.logs.None? {
        batch := Some(batch.value.(logs := Some([])));
      }
      var buffered, backlog := Logs.PushAll(batch.value.logs.value, pendingLogs, lines);
      batch := Some(batch.value.(logs := Some(buffered)));
      pendingLogs := backlog;
    }

    method DrainPendingLogs(most: Logs.Limit)
      modifies this`batch, this`pendingLogs
      ensures Model() == LogsDrained(old(Model()), most)
    {
      if |pendingLogs| == 0 {
        return;
      }
      if batch.None? {
        batch := Some(EMPTY_PAYLOAD);
      }
      if batch.value.logs.None? {
        batch := Some(batch.value.(logs := Some([])));
      }
      var buffered := batch.value.logs.value;
      if most.AtMost? && most.cap <= |buffered| {
        assert buffered + pendingLogs[..0] == buffered && pendingLogs[0..] == pendingLogs;
        return;
      }
      var take := Logs.MAX_PENDING_LOGS;
      if most.AtMost? && most.cap - |buffered| < take {
        take := most.cap - |buffered|;
      }
      if |pendingLogs| < take {
        take := |pendingLogs|;
      }
      batch := Some(batch.value.(logs := Some(buffered + pendingLogs[..take])));
      pendingLogs := pendingLogs[take..];
    }

    method WithholdLogs(now: nat)
      modifies this`batch
      ensures Model() == LogsWithheld(old(Model()), now)
    {
      if batch.None? || batch.value.logs.None? || !OnlyErrors(now) {
        return;
      }
      if |batch.value.logs.value| > 0 {
        CountWithheld(|batch.value.logs.value|);
      }
      batch := Some(batch.value.(logs := None));
    }

    /** The log lines are withheld even from a batch that turns out too large to write. */
    method EncodeAndWrite(now: nat) returns (written: Written)
      modifies this`batch
      ensures Model() == LogsWithheld(old(Model()), now)
      ensures written == if encodedLength(batch) > SLOT_BYTES then TooLarge else Wrote(batch)
    {
      WithholdLogs(now);
      var length := encodedLength(batch);
      if length > SLOT_BYTES {
        return TooLarge;
      }
      written := Wrote(batch);
    }

    method ResetMainThreadBuffer()
      modifies this`batch, this`withheldSnapshots, this`withheldJobs
      ensures Model() == Reset(old(Model()))
    {
      batch := None;
      withheldSnapshots := 0;
      withheldJobs := 0;
    }
  }
}
