/** What holds over whole runs of the buffer: billed units are the same in every ingest
    mode, a capped export never exceeds the batch, and its grant lapses before the
    verdict it rests on. */
module IngestRuns {
  import opened Ingest
  import opened SharedBuffer
  import Logs = LogBacklog

  datatype Event =
    | RequestEnded(request: Execution, at: nat)
    | JobEnded(job: Execution, at: nat)
    | LinesWritten(lines: seq<Logs.LogEntry>)
    | VerdictRead(mode: IngestMode, at: nat)
    | GrantRead(grant: Grant, at: nat)
    | NewsHeard(news: News)
    | RuntimeSampled(sample: Option<nat>)
    | LinesDrained
    | BacklogDrained
    | BatchDiscarded
    | BatchFlushed(at: nat)

  /** An operation handed to the exporter, and the grant it was handed over under. */
  datatype Handed = Handed(grant: Grant, item: Export)

  /** The buffer, and its past: the batches flushed, the ones an agent that sends nothing
      threw away, the executions that came under the cap, and what was exported. */
  datatype World = World(
    s: State,
    flushed: seq<Payload>,
    discarded: seq<Payload>,
    admitted: seq<Execution>,
    exports: seq<Handed>)

  function Exported(exports: seq<Handed>, grant: Grant, more: Option<Export>): seq<Handed> {
    if more.Some? then exports + [Handed(grant, more.value)] else exports
  }

  /** A batch takes from the backlog what it has room for. */
  function TimerDrained(s: State): State {
    LogsDrained(s, Logs.AtMost(Logs.MAX_LOGS_PER_BATCH))
  }

  /** The final flush takes the whole backlog, where there is no batch yet. */
  function FullyDrained(s: State): State {
    if s.batch.None? then LogsDrained(s, Logs.NoLimit) else s
  }

  /** A flush tops the batch up from the backlog, and hands off one that is not empty. */
  function Flush(w: World, at: nat): World {
    var s := TimerDrained(w.s);
    if s.batch.None? then w.(s := s)
    else w.(s := Reset(s), flushed := w.flushed + [BatchOf(LogsWithheld(s, at))])
  }

  function Apply(o: Options, w: World, e: Event): World {
    match e
    case RequestEnded(request, at) =>
      var x := WithOperation(request);
      w.(s := RequestInserted(o, w.s, request, at),
         admitted := if HasOperation(x) && HasRoomForRequest(o, w.s) then w.admitted + [x] else w.admitted,
         exports := Exported(w.exports, GrantAt(o, w.s, at), RequestExport(o, w.s, request, at)))
    case JobEnded(job, at) =>
      w.(s := JobInserted(o, w.s, job, at),
         admitted := if HasRoomForJob(o, w.s) then w.admitted + [job] else w.admitted,
         exports := Exported(w.exports, GrantAt(o, w.s, at), JobExport(o, w.s, job, at)))
    case LinesWritten(lines) => w.(s := LogsPushed(w.s, lines))
    case VerdictRead(mode, at) => w.(s := VerdictRecorded(w.s, mode, at))
    case GrantRead(grant, at) => w.(s := GrantRecorded(w.s, grant, at))
    case NewsHeard(news) => w.(s := w.s.(reporting := ReportingAfter(w.s.reporting, news)))
    case RuntimeSampled(sample) => w.(s := RuntimeAdded(w.s, sample))
    case LinesDrained => w.(s := TimerDrained(w.s))
    case BacklogDrained => w.(s := FullyDrained(w.s))
    case BatchDiscarded => w.(s := Reset(TimerDrained(w.s)), discarded := w.discarded + [BatchOf(TimerDrained(w.s))])
    case BatchFlushed(at) => Flush(w, at)
  }

  function Run(o: Options, w: World, events: seq<Event>): World
    decreases |events|
  {
    if events == [] then w else Run(o, Apply(o, w, events[0]), events[1..])
  }

  // ----- units are the same in every mode ------------------------------------------------

  /** The same run, had the collector never withheld anything. */
  function InFull(e: Event): Event {
    if e.VerdictRead? then e.(mode := Full) else e
  }

  function AllInFull(events: seq<Event>): (r: seq<Event>)
    ensures |r| == |events|
  {
    seq(|events|, i requires 0 <= i < |events| => InFull(events[i]))
  }

  /** What a batch bills, what it reports as withheld included. */
  function BilledUnits(p: Payload): nat {
    SumUnits(p.snapshots) + SumUnits(p.jobs) + |LogsOf(p)| + p.truncatedSpans
  }

  /** `sent` is `all` with some trees gone, and some executions that are not server
      errors, in the same order. */
  ghost predicate Thinned(sent: seq<Encoded>, all: seq<Encoded>)
    decreases |all|
  {
    if all == [] then sent == []
    else
      var x := all[|all| - 1];
      || (sent != [] && (sent[|sent| - 1] == x || sent[|sent| - 1] == x.(t := []))
            && Thinned(sent[..|sent| - 1], all[..|all| - 1]))
      || (!IsServerError(x) && Thinned(sent, all[..|all| - 1]))
  }

  /** One batch and the same one in full. */
  ghost predicate SameBill(p: Payload, full: Payload) {
    && Thinned(p.snapshots, full.snapshots)
    && Thinned(p.jobs, full.jobs)
    && BilledUnits(p) == BilledUnits(full)
    && full.truncatedSpans == 0
  }

  ghost predicate Matches(s: State, full: State) {
    && full.degradedUntil == 0
    && full.withheldSnapshots == 0 && full.withheldJobs == 0
    && s.pendingLogs == full.pendingLogs
    && (s.batch.Some? <==> full.batch.Some?)
    && (s.batch.None? ==> s.withheldSnapshots == 0 && s.withheldJobs == 0)
    && |BatchOf(s).snapshots| + s.withheldSnapshots == |BatchOf(full).snapshots|
    && |BatchOf(s).jobs| + s.withheldJobs == |BatchOf(full).jobs|
    && BatchOf(s).logs == BatchOf(full).logs
    && SameBill(BatchOf(s), BatchOf(full))
  }

  ghost predicate WorldsMatch(w: World, full: World) {
    && Matches(w.s, full.s)
    && w.admitted == full.admitted
    && |w.flushed| == |full.flushed|
    && forall k :: 0 <= k < |w.flushed| ==> SameBill(w.flushed[k], full.flushed[k])
  }

  /** One more execution, graded in one run and whole in the other. */
  lemma OneMoreThinned(sent: seq<Encoded>, all: seq<Encoded>, x: Encoded, treatment: Treatment)
    requires Thinned(sent, all)
    ensures var outcome := Grade(x, treatment);
      && Thinned(OneMore(sent, outcome), all + [x])
      && SumUnits(OneMore(sent, outcome)) + outcome.withheld == SumUnits(sent) + Units(x)
      && SumUnits(all + [x]) == SumUnits(all) + Units(x)
      && |OneMore(sent, outcome)| + (if outcome.sent.Some? then 0 else 1) == |sent| + 1
  {
    var outcome := Grade(x, treatment);
    var more := OneMore(sent, outcome);
    assert (all + [x])[..|all|] == all;
    if outcome.sent.Some? {
      SumUnitsOneMore(sent, outcome.sent.value);
      assert more[..|more| - 1] == sent;
    }
    SumUnitsOneMore(all, x);
  }

  lemma InFullAllEnter(all: seq<Encoded>, x: Encoded)
    ensures OneMore(all, Grade(x, KeepAll)) == all + [x] && Grade(x, KeepAll).withheld == 0
  {
  }

  lemma RequestMatches(o: Options, s: State, full: State, request: Execution, at: nat)
    requires Matches(s, full)
    ensures Matches(RequestInserted(o, s, request, at), RequestInserted(o, full, request, at))
    ensures HasRoomForRequest(o, s) == HasRoomForRequest(o, full)
  {
    var x := WithOperation(request);
    if HasOperation(x) && HasRoomForRequest(o, s) {
      OneMoreThinned(BatchOf(s).snapshots, BatchOf(full).snapshots, Encode(x), TreatmentAt(s, at));
      InFullAllEnter(BatchOf(full).snapshots, Encode(x));
      hide Thinned, SumUnits, OneMore, Encode, HasOperation, WithOperation, OperationCap;
    }
  }

  lemma JobMatches(o: Options, s: State, full: State, job: Execution, at: nat)
    requires Matches(s, full)
    ensures Matches(JobInserted(o, s, job, at), JobInserted(o, full, job, at))
    ensures HasRoomForJob(o, s) == HasRoomForJob(o, full)
  {
    if HasRoomForJob(o, s) {
      OneMoreThinned(BatchOf(s).jobs, BatchOf(full).jobs, Encode(job), TreatmentAt(s, at));
      InFullAllEnter(BatchOf(full).jobs, Encode(job));
      hide Thinned, SumUnits, OneMore, Encode, OperationCap;
    }
  }

  lemma LinesMatch(s: State, full: State, lines: seq<Logs.LogEntry>)
    requires Matches(s, full)
    ensures Matches(LogsPushed(s, lines), LogsPushed(full, lines))
  {
    hide Logs.Push, Thinned, SumUnits;
  }

  lemma DrainMatches(s: State, full: State, most: Logs.Limit)
    requires Matches(s, full)
    ensures Matches(LogsDrained(s, most), LogsDrained(full, most))
  {
    hide Logs.DrainCount, Thinned, SumUnits;
  }

  lemma WithheldLinesAreBilled(s: State, full: State, at: nat)
    requires Matches(s, full)
    ensures SameBill(BatchOf(LogsWithheld(s, at)), BatchOf(LogsWithheld(full, at)))
    ensures Matches(Reset(s), Reset(full))
  {
    hide SumUnits;
  }

  lemma FlushMatches(w: World, full: World, at: nat)
    requires WorldsMatch(w, full)
    ensures WorldsMatch(Flush(w, at), Flush(full, at))
  {
    var most := Logs.AtMost(Logs.MAX_LOGS_PER_BATCH);
    DrainMatches(w.s, full.s, most);
    var s, t := LogsDrained(w.s, most), LogsDrained(full.s, most);
    WithheldLinesAreBilled(s, t, at);
    assert s.batch.Some? <==> t.batch.Some?;
    hide SameBill, Matches, Reset, LogsDrained, LogsWithheld, BatchOf;
  }

  lemma DiscardMatches(s: State, full: State)
    requires Matches(s, full)
    ensures Matches(Reset(TimerDrained(s)), Reset(TimerDrained(full)))
  {
    DrainMatches(s, full, Logs.AtMost(Logs.MAX_LOGS_PER_BATCH));
    WithheldLinesAreBilled(TimerDrained(s), TimerDrained(full), 0);
  }

  lemma AnswersMatch(s: State, full: State, e: Event)
    requires Matches(s, full)
    ensures e.VerdictRead? ==> Matches(VerdictRecorded(s, e.mode, e.at), VerdictRecorded(full, Full, e.at))
    ensures e.GrantRead? ==> Matches(GrantRecorded(s, e.grant, e.at), GrantRecorded(full, e.grant, e.at))
    ensures e.RuntimeSampled? ==> Matches(RuntimeAdded(s, e.sample), RuntimeAdded(full, e.sample))
    ensures e.NewsHeard? ==> Matches(s.(reporting := ReportingAfter(s.reporting, e.news)), full.(reporting := ReportingAfter(full.reporting, e.news)))
  {
    hide Thinned, SumUnits;
  }

  lemma StepMatches(o: Options, w: World, full: World, e: Event)
    requires WorldsMatch(w, full)
    ensures WorldsMatch(Apply(o, w, e), Apply(o, full, InFull(e)))
  {
    match e
    case RequestEnded(request, at) =>
      RequestMatches(o, w.s, full.s, request, at);
      hide RequestInserted, HasRoomForRequest, SameBill, Matches;
    case JobEnded(job, at) =>
      JobMatches(o, w.s, full.s, job, at);
      hide JobInserted, HasRoomForJob, SameBill, Matches;
    case LinesWritten(lines) =>
      LinesMatch(w.s, full.s, lines);
      hide LogsPushed, SameBill, Matches;
    case BatchFlushed(at) =>
      FlushMatches(w, full, at);
      hide *;
    case LinesDrained =>
      DrainMatches(w.s, full.s, Logs.AtMost(Logs.MAX_LOGS_PER_BATCH));
      hide LogsDrained, SameBill, Matches;
    case BacklogDrained =>
      DrainMatches(w.s, full.s, Logs.NoLimit);
      hide LogsDrained, SameBill;
    case BatchDiscarded =>
      DiscardMatches(w.s, full.s);
      hide TimerDrained, Reset, SameBill, Matches;
    case _ =>
      AnswersMatch(w.s, full.s, e);
      hide VerdictRecorded, GrantRecorded, RuntimeAdded, SameBill, Matches;
  }

  lemma InFullOneByOne(events: seq<Event>)
    requires events != []
    ensures AllInFull(events)[0] == InFull(events[0]) && AllInFull(events)[1..] == AllInFull(events[1..])
  {
  }

  lemma {:induction false} RunsMatch(o: Options, w: World, full: World, events: seq<Event>)
    requires WorldsMatch(w, full)
    ensures WorldsMatch(Run(o, w, events), Run(o, full, AllInFull(events)))
    decreases |events|
  {
    if events != [] {
      StepMatches(o, w, full, events[0]);
      InFullOneByOne(events);
      hide Apply, WorldsMatch, InFull, AllInFull;
      RunsMatch(o, Apply(o, w, events[0]), Apply(o, full, InFull(events[0])), events[1..]);
    }
  }

  // ----- in full, what comes under the cap is what is sent --------------------------------

  function SentIn(p: Payload): multiset<Encoded> {
    multiset(p.snapshots) + multiset(p.jobs)
  }

  function SentInAll(batches: seq<Payload>): multiset<Encoded> {
    if batches == [] then multiset{} else SentInAll(batches[..|batches| - 1]) + SentIn(batches[|batches| - 1])
  }

  function EncodeAll(xs: seq<Execution>): (r: seq<Encoded>)
    ensures |r| == |xs|
  {
    seq(|xs|, i requires 0 <= i < |xs| => Encode(xs[i]))
  }

  /** Every execution that came under the cap is in a batch, once, and nothing else is. */
  ghost predicate SentIsAdmitted(w: World) {
    && w.s.degradedUntil == 0
    && SentInAll(w.flushed) + SentIn(BatchOf(w.s)) == multiset(EncodeAll(w.admitted))
  }

  /** An event of a run in full, of an agent that has a worker. */
  predicate Plain(e: Event) {
    !e.BatchDiscarded? && (e.VerdictRead? ==> e.mode == Full)
  }

  lemma EncodeOneMore(xs: seq<Execution>, x: Execution)
    ensures EncodeAll(xs + [x]) == EncodeAll(xs) + [Encode(x)]
  {
    hide Encode;
  }

  lemma SentOneMore(batches: seq<Payload>, p: Payload)
    ensures SentInAll(batches + [p]) == SentInAll(batches) + SentIn(p)
  {
    assert (batches + [p])[..|batches|] == batches;
  }

  lemma OneMoreSent(sent: seq<Encoded>, x: Encoded)
    ensures multiset(sent + [x]) == multiset(sent) + multiset{x}
  {
  }

  lemma RequestIsSent(o: Options, s: State, x: Execution, at: nat)
    requires s.degradedUntil == 0
    ensures var y := WithOperation(x);
      SentIn(BatchOf(RequestInserted(o, s, x, at)))
        == SentIn(BatchOf(s)) + if HasOperation(y) && HasRoomForRequest(o, s) then multiset{Encode(y)} else multiset{}
    ensures RequestInserted(o, s, x, at).degradedUntil == 0
  {
    var p, y := BatchOf(s), WithOperation(x);
    OneMoreSent(p.snapshots, Encode(y));
    InFullAllEnter(p.snapshots, Encode(y));
    hide Encode, HasOperation, WithOperation, HasRoomForRequest, OneMore, Grade;
  }

  lemma JobIsSent(o: Options, s: State, x: Execution, at: nat)
    requires s.degradedUntil == 0
    ensures SentIn(BatchOf(JobInserted(o, s, x, at))) == SentIn(BatchOf(s)) + if HasRoomForJob(o, s) then multiset{Encode(x)} else multiset{}
    ensures JobInserted(o, s, x, at).degradedUntil == 0
  {
    var p := BatchOf(s);
    OneMoreSent(p.jobs, Encode(x));
    InFullAllEnter(p.jobs, Encode(x));
    hide Encode, HasRoomForJob, OneMore, Grade;
  }

  lemma AdmittedOneMore(sent: multiset<Encoded>, batch: multiset<Encoded>, xs: seq<Execution>, x: Execution)
    requires sent + batch == multiset(EncodeAll(xs))
    ensures sent + (batch + multiset{Encode(x)}) == multiset(EncodeAll(xs + [x]))
  {
    EncodeOneMore(xs, x);
    OneMoreSent(EncodeAll(xs), Encode(x));
    hide EncodeAll, Encode;
  }

  /** A flush moves a batch's executions, all of them, to the batches flushed. */
  lemma FlushKeepsWhatIsSent(w: World, at: nat)
    requires w.s.degradedUntil == 0
    ensures var after := Flush(w, at);
      && after.s.degradedUntil == 0 && after.admitted == w.admitted
      && (if TimerDrained(w.s).batch.Some? then
            && SentIn(BatchOf(after.s)) == multiset{} && |after.flushed| > 0
            && after.flushed == w.flushed + [after.flushed[|after.flushed| - 1]]
            && SentIn(after.flushed[|after.flushed| - 1]) == SentIn(BatchOf(w.s))
          else after.flushed == w.flushed && SentIn(BatchOf(after.s)) == SentIn(BatchOf(w.s)))
  {
    hide Logs.DrainCount;
  }

  /** An event that neither brings an execution nor flushes leaves them as they are. */
  lemma OthersKeepWhatIsSent(o: Options, w: World, e: Event)
    requires w.s.degradedUntil == 0 && Plain(e) && !e.RequestEnded? && !e.JobEnded? && !e.BatchFlushed?
    ensures var after := Apply(o, w, e);
      && after.s.degradedUntil == 0 && after.admitted == w.admitted && after.flushed == w.flushed
      && SentIn(BatchOf(after.s)) == SentIn(BatchOf(w.s))
  {
    hide Logs.Push, Logs.DrainCount;
  }

  /** The books still balance when both sides get the same one more, or none. */
  lemma StillBalanced(flushed: multiset<Encoded>, batch: multiset<Encoded>, after: multiset<Encoded>,
                      xs: seq<Execution>, x: Execution, enters: bool)
    requires flushed + batch == multiset(EncodeAll(xs))
    requires after == batch + if enters then multiset{Encode(x)} else multiset{}
    ensures flushed + after == multiset(EncodeAll(if enters then xs + [x] else xs))
  {
    if enters {
      AdmittedOneMore(flushed, batch, xs, x);
    }
    hide EncodeAll, Encode;
  }

  lemma RequestAdmitted(o: Options, w: World, x: Execution, at: nat)
    requires SentIsAdmitted(w)
    ensures SentIsAdmitted(Apply(o, w, RequestEnded(x, at)))
  {
    var y := WithOperation(x);
    RequestIsSent(o, w.s, x, at);
    hide SentIn, SentInAll, EncodeAll, Encode, HasOperation, WithOperation, HasRoomForRequest, RequestInserted, BatchOf;
    StillBalanced(SentInAll(w.flushed), SentIn(BatchOf(w.s)), SentIn(BatchOf(RequestInserted(o, w.s, x, at))), w.admitted, y,
                  HasOperation(y) && HasRoomForRequest(o, w.s));
  }

  lemma JobAdmitted(o: Options, w: World, x: Execution, at: nat)
    requires SentIsAdmitted(w)
    ensures SentIsAdmitted(Apply(o, w, JobEnded(x, at)))
  {
    JobIsSent(o, w.s, x, at);
    hide SentIn, SentInAll, EncodeAll, Encode, HasRoomForJob, JobInserted, BatchOf;
    StillBalanced(SentInAll(w.flushed), SentIn(BatchOf(w.s)), SentIn(BatchOf(JobInserted(o, w.s, x, at))), w.admitted, x,
                  HasRoomForJob(o, w.s));
  }

  lemma FlushAdmitted(o: Options, w: World, at: nat)
    requires SentIsAdmitted(w)
    ensures SentIsAdmitted(Apply(o, w, BatchFlushed(at)))
  {
    var after := Flush(w, at);
    FlushKeepsWhatIsSent(w, at);
    if TimerDrained(w.s).batch.Some? {
      SentOneMore(w.flushed, after.flushed[|after.flushed| - 1]);
    }
    hide SentIn, SentInAll, EncodeAll, Flush, BatchOf, TimerDrained;
  }

  lemma OtherAdmitted(o: Options, w: World, e: Event)
    requires SentIsAdmitted(w) && Plain(e) && !e.RequestEnded? && !e.JobEnded? && !e.BatchFlushed?
    ensures SentIsAdmitted(Apply(o, w, e))
  {
    OthersKeepWhatIsSent(o, w, e);
    hide SentIn, SentInAll, EncodeAll, BatchOf, Apply;
  }

  lemma AdmittedStep(o: Options, w: World, e: Event)
    requires SentIsAdmitted(w) && Plain(e)
    ensures SentIsAdmitted(Apply(o, w, e))
  {
    hide SentIsAdmitted, Plain, Apply;
    match e
    case RequestEnded(x, at) => RequestAdmitted(o, w, x, at);
    case JobEnded(x, at) => JobAdmitted(o, w, x, at);
    case BatchFlushed(at) => FlushAdmitted(o, w, at);
    case _ => OtherAdmitted(o, w, e);
  }

  /** In full, over any run: what the batches carry is every execution that came under
      the cap, each once, and nothing else. */
  lemma {:induction false} InFullAllAdmittedIsSent(o: Options, w: World, events: seq<Event>)
    requires SentIsAdmitted(w) && forall e :: e in events ==> Plain(e)
    ensures SentIsAdmitted(Run(o, w, events))
    decreases |events|
  {
    if events != [] {
      assert events[0] in events;
      AdmittedStep(o, w, events[0]);
      hide Apply, SentIsAdmitted;
      InFullAllAdmittedIsSent(o, Apply(o, w, events[0]), events[1..]);
    }
  }

  // ----- bounds ------------------------------------------------------------------------

  ghost predicate UnderTheCap(o: Options, s: State) {
    && |BatchOf(s).snapshots| + s.withheldSnapshots <= OperationCap(o)
    && |BatchOf(s).jobs| + s.withheldJobs <= OperationCap(o)
  }

  lemma {:induction false} RunStaysUnderTheCap(o: Options, w: World, events: seq<Event>)
    requires UnderTheCap(o, w.s)
    requires forall p :: p in w.flushed ==> |p.snapshots| <= MAX_BATCH_ITEMS && |p.jobs| <= MAX_BATCH_ITEMS
    ensures UnderTheCap(o, Run(o, w, events).s)
    ensures forall p :: p in Run(o, w, events).flushed ==> |p.snapshots| <= MAX_BATCH_ITEMS && |p.jobs| <= MAX_BATCH_ITEMS
    decreases |events|
  {
    if events != [] {
      var next := Apply(o, w, events[0]);
      UnderTheCapStep(o, w, events[0]);
      hide Apply, UnderTheCap;
      RunStaysUnderTheCap(o, next, events[1..]);
    }
  }

  lemma UnderTheCapStep(o: Options, w: World, e: Event)
    requires UnderTheCap(o, w.s)
    requires forall p :: p in w.flushed ==> |p.snapshots| <= MAX_BATCH_ITEMS && |p.jobs| <= MAX_BATCH_ITEMS
    ensures UnderTheCap(o, Apply(o, w, e).s)
    ensures forall p :: p in Apply(o, w, e).flushed ==> |p.snapshots| <= MAX_BATCH_ITEMS && |p.jobs| <= MAX_BATCH_ITEMS
  {
    hide Grade, Encode, HasOperation, WithOperation, Logs.Push;
  }

  /** The book of log lines is the buffer's own: each of its moves is what the buffer does. */
  ghost predicate Keeps(b: Logs.Book, s: State) {
    b.batch == LogsOf(BatchOf(s)) && b.backlog == s.pendingLogs
  }

  function Moves(s: State, e: Event): seq<Logs.Move> {
    match e
    case LinesWritten(lines) => [Logs.Came(lines)]
    case LinesDrained => [Logs.TimerDrain]
    case BacklogDrained => if s.batch.None? then [Logs.FinalDrain] else []
    case BatchDiscarded => [Logs.TimerDrain, Logs.BatchLeaves]
    case BatchFlushed(_) => [Logs.TimerDrain, Logs.BatchLeaves]
    case _ => []
  }

  function AllMoves(o: Options, w: World, events: seq<Event>): seq<Logs.Move>
    decreases |events|
  {
    if events == [] then [] else Moves(w.s, events[0]) + AllMoves(o, Apply(o, w, events[0]), events[1..])
  }

  lemma DrainKeeps(b: Logs.Book, s: State, most: Logs.Limit)
    requires Keeps(b, s)
    ensures Keeps(Logs.Drain(b, most), LogsDrained(s, most))
  {
    assert b.batch + b.backlog[..0] == b.batch;
  }

  lemma RunOfTwo(b: Logs.Book, m: Logs.Move, n: Logs.Move)
    ensures Logs.Run(b, []) == b
    ensures Logs.Run(b, [m]) == Logs.Apply(b, m)
    ensures Logs.Run(b, [m, n]) == Logs.Apply(Logs.Apply(b, m), n)
  {
    assert [m, n][1..] == [n];
    assert [m][1..] == [];
    assert Logs.Run(Logs.Apply(b, m), [n]) == Logs.Apply(Logs.Apply(b, m), n);
  }

  lemma InsertKeeps(o: Options, b: Logs.Book, s: State, x: Execution, at: nat)
    requires Keeps(b, s)
    ensures Keeps(b, RequestInserted(o, s, x, at)) && Keeps(b, JobInserted(o, s, x, at))
  {
    hide Encode, Grade, HasOperation, OperationCap;
  }

  lemma BookStep(o: Options, b: Logs.Book, w: World, e: Event)
    requires Keeps(b, w.s)
    ensures Keeps(Logs.Run(b, Moves(w.s, e)), Apply(o, w, e).s)
  {
    if e.RequestEnded? {
      InsertKeeps(o, b, w.s, e.request, e.at);
      RunOfTwo(b, Logs.TimerDrain, Logs.BatchLeaves);
      hide RequestInserted, Logs.Run;
    } else if e.JobEnded? {
      InsertKeeps(o, b, w.s, e.job, e.at);
      RunOfTwo(b, Logs.TimerDrain, Logs.BatchLeaves);
      hide JobInserted, Logs.Run;
    } else if e.LinesWritten? {
      RunOfTwo(b, Logs.Came(e.lines), Logs.BatchLeaves);
      hide Logs.Push, Logs.Run;
    } else {
      DrainStep(o, b, w, e);
    }
  }

  lemma DrainStep(o: Options, b: Logs.Book, w: World, e: Event)
    requires Keeps(b, w.s) && !e.RequestEnded? && !e.JobEnded? && !e.LinesWritten?
    ensures Keeps(Logs.Run(b, Moves(w.s, e)), Apply(o, w, e).s)
  {
    hide LogsDrained, Logs.Drain, Logs.Run, LogsWithheld;
    if e.BacklogDrained? {
      DrainKeeps(b, w.s, Logs.NoLimit);
      RunOfTwo(b, Logs.FinalDrain, Logs.BatchLeaves);
    } else if e.LinesDrained? || e.BatchDiscarded? || e.BatchFlushed? {
      DrainKeeps(b, w.s, Logs.AtMost(Logs.MAX_LOGS_PER_BATCH));
      RunOfTwo(b, Logs.TimerDrain, Logs.BatchLeaves);
    } else {
      RunOfTwo(b, Logs.TimerDrain, Logs.BatchLeaves);
    }
  }

  lemma {:induction false} BookConcat(b: Logs.Book, first: seq<Logs.Move>, second: seq<Logs.Move>)
    ensures Logs.Run(b, first + second) == Logs.Run(Logs.Run(b, first), second)
    decreases |first|
  {
    if first == [] {
      assert first + second == second;
    } else {
      assert (first + second)[1..] == first[1..] + second;
      BookConcat(Logs.Apply(b, first[0]), first[1..], second);
    }
  }

  lemma {:induction false} BookFollowsTheRun(o: Options, b: Logs.Book, w: World, events: seq<Event>)
    requires Keeps(b, w.s)
    ensures Keeps(Logs.Run(b, AllMoves(o, w, events)), Run(o, w, events).s)
    decreases |events|
  {
    if events != [] {
      BookStep(o, b, w, events[0]);
      hide Apply, Moves;
      BookFollowsTheRun(o, Logs.Run(b, Moves(w.s, events[0])), Apply(o, w, events[0]), events[1..]);
      BookConcat(b, Moves(w.s, events[0]), AllMoves(o, Apply(o, w, events[0]), events[1..]));
    }
  }

  lemma {:induction false} RunConcat(o: Options, w: World, first: seq<Event>, second: seq<Event>)
    ensures Run(o, w, first + second) == Run(o, Run(o, w, first), second)
    decreases |first|
  {
    if first == [] {
      assert first + second == second;
    } else {
      assert (first + second)[1..] == first[1..] + second;
      hide Apply;
      RunConcat(o, Apply(o, w, first[0]), first[1..], second);
    }
  }

  /** Every line written to the buffer over a run is in a batch flushed, in the one being
      built, in the backlog, or was dropped; none is in two places. */
  lemma LinesOfARunAreConserved(o: Options, events: seq<Event>)
    ensures var w, b := Run(o, FRESH, events), Logs.Run(Logs.EmptyBook, AllMoves(o, FRESH, events));
      && Keeps(b, w.s)
      && multiset(b.pushed) == multiset(LogsOf(BatchOf(w.s))) + multiset(w.s.pendingLogs) + multiset(b.handedOff) + multiset(b.dropped)
      && |w.s.pendingLogs| <= Logs.MAX_PENDING_LOGS
      && |LogsOf(BatchOf(w.s))| <= (if Logs.FinalDrain in AllMoves(o, FRESH, events) then Logs.MAX_PENDING_LOGS else Logs.MAX_LOGS_PER_BATCH)
  {
    BookFollowsTheRun(o, Logs.EmptyBook, FRESH, events);
    Logs.LinesAreConserved(AllMoves(o, FRESH, events));
    hide Logs.Run, Run;
  }

  const FRESH := World(INIT, [], [], [], [])

  /** Whatever the collector answered and when: the same executions come under the cap,
      and every batch, with what it reports as withheld, bills what it would have had
      nothing been withheld; all that is missing are trees, and executions that are no
      server error. */
  lemma UnitsAreConserved(o: Options, events: seq<Event>)
    ensures var w, full := Run(o, FRESH, events), Run(o, FRESH, AllInFull(events));
      && w.admitted == full.admitted
      && |w.flushed| == |full.flushed|
      && (forall k :: 0 <= k < |w.flushed| ==>
            && BilledUnits(w.flushed[k]) == BilledUnits(full.flushed[k]) && full.flushed[k].truncatedSpans == 0
            && Thinned(w.flushed[k].snapshots, full.flushed[k].snapshots)
            && Thinned(w.flushed[k].jobs, full.flushed[k].jobs))
      && BilledUnits(BatchOf(w.s)) == BilledUnits(BatchOf(full.s))
  {
    RunsMatch(o, FRESH, FRESH, events);
  }

  /** A server error of the full run is in the thinned one, its tree aside. */
  lemma {:induction false} ThinningKeepsServerErrors(sent: seq<Encoded>, all: seq<Encoded>, k: nat)
    requires Thinned(sent, all) && k < |all| && (if all[k].sc.Some? then all[k].sc.value >= 500 else all[k].e)
    ensures exists j :: 0 <= j < |sent| && (sent[j] == all[k] || sent[j] == all[k].(t := []))
    decreases |all|
  {
    var x, before := all[|all| - 1], all[..|all| - 1];
    if k < |before| {
      if sent != [] && (sent[|sent| - 1] == x || sent[|sent| - 1] == x.(t := [])) && Thinned(sent[..|sent| - 1], before) {
        ThinningKeepsServerErrors(sent[..|sent| - 1], before, k);
      } else {
        ThinningKeepsServerErrors(sent, before, k);
      }
    }
  }

  // ----- a capped export never exceeds the batch ------------------------------------------

  /** What a call put into the batch, if anything. */
  function Entered(was: seq<Encoded>, after: seq<Encoded>): Option<Encoded> {
    if |after| > |was| then Some(after[|after| - 1]) else None
  }

  /** On the wire, an exported operation is itself, with its tree or without. */
  function AsExported(e: Export): Encoded {
    if e.withTree then Encode(e.work) else Encode(e.work).(t := [])
  }

  /** Under a capped grant an operation is exported exactly when the batch took it, and
      as the batch took it; under a full grant always, and whole; without one never. */
  ghost predicate FollowsTheBatch(grant: Grant, x: Execution, entered: Option<Encoded>, exported: Option<Export>) {
    match grant
    case Capped =>
      && (exported.Some? <==> entered.Some?)
      && (exported.Some? ==> exported.value.work == x && entered.value == AsExported(exported.value))
    case FullGrant => exported == Some(Export(x, true))
    case NoGrant => exported == None
  }

  lemma RequestExportFollowsTheBatch(o: Options, s: State, x: Execution, at: nat)
    ensures FollowsTheBatch(GrantAt(o, s, at), WithOperation(x),
              Entered(BatchOf(s).snapshots, BatchOf(RequestInserted(o, s, x, at)).snapshots), RequestExport(o, s, x, at))
  {
    hide Encode, OperationCap, GrantAt;
  }

  lemma JobExportFollowsTheBatch(o: Options, s: State, x: Execution, at: nat)
    ensures FollowsTheBatch(GrantAt(o, s, at), x,
              Entered(BatchOf(s).jobs, BatchOf(JobInserted(o, s, x, at)).jobs), JobExport(o, s, x, at))
  {
    hide Encode, OperationCap, GrantAt;
  }

  ghost predicate InBatch(p: Payload, x: Encoded) {
    x in p.snapshots || x in p.jobs
  }

  ghost predicate InOne(batches: seq<Payload>, x: Encoded) {
    exists k :: 0 <= k < |batches| && InBatch(batches[k], x)
  }

  /** In a batch flushed or thrown away, or in the one being built. */
  ghost predicate InSomeBatch(w: World, x: Encoded) {
    InBatch(BatchOf(w.s), x) || InOne(w.flushed, x) || InOne(w.discarded, x)
  }

  ghost predicate CappedAreInBatches(w: World) {
    forall i :: 0 <= i < |w.exports| && w.exports[i].grant == Capped ==> InSomeBatch(w, AsExported(w.exports[i].item))
  }

  lemma StaysInOne(batches: seq<Payload>, more: seq<Payload>, x: Encoded)
    ensures InOne(batches, x) ==> InOne(batches + more, x)
    ensures |more| > 0 && InBatch(more[0], x) ==> InOne(batches + more, x)
  {
    if InOne(batches, x) {
      var k :| 0 <= k < |batches| && InBatch(batches[k], x);
      assert InBatch((batches + more)[k], x);
    }
    if |more| > 0 && InBatch(more[0], x) {
      assert InBatch((batches + more)[|batches|], x);
    }
  }

  /** What is in the batch being built stays in it until it is flushed or thrown away. */
  lemma StaysInTheBatch(o: Options, w: World, e: Event, x: Encoded)
    requires InBatch(BatchOf(w.s), x)
    ensures InSomeBatch(Apply(o, w, e), x)
  {
    hide Encode, OperationCap, Grade, HasOperation, WithOperation, Logs.Push, Logs.DrainCount;
    if e.BatchFlushed? && TimerDrained(w.s).batch.Some? {
      StaysInOne(w.flushed, [BatchOf(LogsWithheld(TimerDrained(w.s), e.at))], x);
    } else if e.BatchDiscarded? {
      StaysInOne(w.discarded, [BatchOf(TimerDrained(w.s))], x);
    }
  }

  lemma PastOnlyGrows(o: Options, w: World, e: Event)
    ensures var after := Apply(o, w, e);
      && |w.flushed| <= |after.flushed| && after.flushed == w.flushed + after.flushed[|w.flushed|..]
      && |w.discarded| <= |after.discarded| && after.discarded == w.discarded + after.discarded[|w.discarded|..]
  {
  }

  lemma StaysInSomeBatch(o: Options, w: World, e: Event, x: Encoded)
    requires InSomeBatch(w, x)
    ensures InSomeBatch(Apply(o, w, e), x)
  {
    if InBatch(BatchOf(w.s), x) {
      StaysInTheBatch(o, w, e, x);
    } else {
      var after := Apply(o, w, e);
      PastOnlyGrows(o, w, e);
      StaysInOne(w.flushed, after.flushed[|w.flushed|..], x);
      StaysInOne(w.discarded, after.discarded[|w.discarded|..], x);
      hide Apply, InOne, InBatch;
    }
  }

  lemma ExportStep(o: Options, w: World, e: Event)
    requires CappedAreInBatches(w)
    ensures CappedAreInBatches(Apply(o, w, e))
  {
    var after := Apply(o, w, e);
    forall i | 0 <= i < |after.exports| && after.exports[i].grant == Capped
      ensures InSomeBatch(after, AsExported(after.exports[i].item))
    {
      if i < |w.exports| {
        StaysInSomeBatch(o, w, e, AsExported(w.exports[i].item));
      } else if e.RequestEnded? {
        RequestExportFollowsTheBatch(o, w.s, e.request, e.at);
      } else if e.JobEnded? {
        JobExportFollowsTheBatch(o, w.s, e.job, e.at);
      }
    }
  }

  lemma {:induction false} ExportRun(o: Options, w: World, events: seq<Event>)
    requires CappedAreInBatches(w)
    ensures CappedAreInBatches(Run(o, w, events))
    decreases |events|
  {
    if events != [] {
      ExportStep(o, w, events[0]);
      hide Apply, CappedAreInBatches;
      ExportRun(o, Apply(o, w, events[0]), events[1..]);
    }
  }

  /** In any run, whatever was granted before and after: all that was exported under a
      capped grant was put in a batch, and was exported with its tree only if the batch
      has the tree. */
  lemma CappedExportNeverExceedsTheBatch(o: Options, events: seq<Event>)
    ensures var w := Run(o, FRESH, events);
      forall i :: 0 <= i < |w.exports| && w.exports[i].grant == Capped ==> InSomeBatch(w, AsExported(w.exports[i].item))
  {
    ExportRun(o, FRESH, events);
  }

  // ----- the grant lapses before the verdict does ----------------------------------------

  /** The verdict last read, if one has been; and whether a grant was read after it,
      whose reply's verdict is still to come. */
  datatype Heard = Heard(verdict: Option<IngestMode>, midReply: bool, clock: nat)

  const NOTHING_HEARD := Heard(None, false, 0)

  /** The worker posts each reply's grant and then its verdict, and the clock never runs
      backwards. */
  ghost predicate InOrder(h: Heard, e: Event) {
    && (e.GrantRead? ==> !h.midReply)
    && (e.GrantRead? || e.VerdictRead? ==> h.clock <= e.at)
  }

  function Hear(h: Heard, e: Event): Heard {
    match e
    case GrantRead(_, at) => h.(midReply := true, clock := at)
    case VerdictRead(mode, at) => Heard(Some(mode), false, at)
    case _ => h
  }

  function HearAll(h: Heard, events: seq<Event>): Heard
    decreases |events|
  {
    if events == [] then h else HearAll(Hear(h, events[0]), events[1..])
  }

  ghost predicate AllInOrder(h: Heard, events: seq<Event>)
    decreases |events|
  {
    events == [] || (InOrder(h, events[0]) && AllInOrder(Hear(h, events[0]), events[1..]))
  }

  ghost predicate GrantLapsesFirst(s: State, h: Heard) {
    && s.cappedUntil <= h.clock + DEGRADED_TTL_MS
    && (h.verdict.None? && !h.midReply ==> s.otlpExport == NoGrant)
    && (!h.midReply && h.verdict.Some? && h.verdict.value != Full ==> s.cappedUntil <= s.degradedUntil)
  }

  lemma LapseStep(o: Options, w: World, h: Heard, e: Event)
    requires GrantLapsesFirst(w.s, h) && InOrder(h, e)
    ensures GrantLapsesFirst(Apply(o, w, e).s, Hear(h, e))
  {
    hide Encode, OperationCap, Grade, HasOperation, WithOperation;
  }

  lemma {:induction false} LapseRun(o: Options, w: World, h: Heard, events: seq<Event>)
    requires GrantLapsesFirst(w.s, h) && AllInOrder(h, events)
    ensures GrantLapsesFirst(Run(o, w, events).s, HearAll(h, events))
    decreases |events|
  {
    if events != [] {
      LapseStep(o, w, h, events[0]);
      hide Apply, GrantLapsesFirst, InOrder, Hear;
      LapseRun(o, Apply(o, w, events[0]), Hear(h, events[0]), events[1..]);
    }
  }

  /** Once both lines of the last reply are read, a capped grant is alive only while the
      agent still knows it is degraded, unless that reply's verdict was full: it never
      falls back on exporting every span. */
  lemma CappedGrantLapsesFirst(o: Options, events: seq<Event>, now: nat)
    requires AllInOrder(NOTHING_HEARD, events)
    ensures var w, h := Run(o, FRESH, events), HearAll(NOTHING_HEARD, events);
      !h.midReply && h.verdict != Some(Full) && GrantAt(o, w.s, now) == Capped ==> IsDegraded(w.s, now)
  {
    LapseRun(o, FRESH, NOTHING_HEARD, events);
  }

  /** Between a reply's two lines it can be otherwise: the grant is capped and alive, and
      the last verdict read is still the one before. What is exported then is still what
      the batch keeps. */
  lemma BetweenTheLines(o: Options)
    requires o.exporterEnabled
    ensures var events := [NewsHeard(BatchAccepted), VerdictRead(Full, 0), GrantRead(Capped, 1)];
      && AllInOrder(NOTHING_HEARD, events)
      && HearAll(NOTHING_HEARD, events).midReply
      && GrantAt(o, Run(o, FRESH, events).s, 1) == Capped && !IsDegraded(Run(o, FRESH, events).s, 1)
  {
    var events := [NewsHeard(BatchAccepted), VerdictRead(Full, 0), GrantRead(Capped, 1)];
    assert events[1..] == [VerdictRead(Full, 0), GrantRead(Capped, 1)];
    assert events[1..][1..] == [GrantRead(Capped, 1)];
    assert events[1..][1..][1..] == [];
    var one := Apply(o, FRESH, events[0]);
    var two := Apply(o, one, events[1]);
    assert Run(o, two, events[1..][1..]) == Apply(o, two, events[2]);
  }

  // ----- whether the app reports, and whether it is ingested -------------------------------

  function ReportingRun(reporting: Reporting, news: seq<News>): Reporting
    decreases |news|
  {
    if news == [] then reporting else ReportingAfter(ReportingRun(reporting, news[..|news| - 1]), news[|news| - 1])
  }

  /** The place of the latest news that is not a start, or -1. */
  function LatestVerdict(news: seq<News>): (i: int)
    ensures -1 <= i < |news|
    ensures i >= 0 ==> news[i] != WorkerStarted
    ensures forall j :: i < j < |news| ==> news[j] == WorkerStarted
    decreases |news|
  {
    if news == [] then -1
    else if news[|news| - 1] != WorkerStarted then |news| - 1
    else LatestVerdict(news[..|news| - 1])
  }

  /** Ingesting exactly when the latest of accepted, refused and stopped was accepted;
      and reporting then, or when the worker has started since, or started with nothing
      else heard. */
  lemma {:induction false} IngestingMeansLastAccepted(news: seq<News>)
    ensures var latest := LatestVerdict(news);
      && (ReportingRun(Off, news) == Ingesting <==> latest >= 0 && news[latest] == BatchAccepted)
      && (ReportingRun(Off, news) != Off <==> (latest >= 0 && news[latest] == BatchAccepted) || latest < |news| - 1)
    decreases |news|
  {
    if news != [] {
      IngestingMeansLastAccepted(news[..|news| - 1]);
    }
  }
}
