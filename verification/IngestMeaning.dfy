/** What the buffer keeps of a request or a job, in terms of the request, the job and the
    collector's last verdict alone. */
module IngestMeaning {
  import opened Ingest
  import opened SharedBuffer
  import opened IngestRuns

  // ----- an execution, and how much of it is kept ----------------------------------------------

  /** With a status code it fails from 500 up, whatever error it carries; without one, when
      it carries an error. */
  predicate Failed(x: Execution) {
    match x.statusCode
    case Some(code) => code >= 500
    case None => x.error
  }

  predicate Slow(x: Execution) {
    x.duration.Some? && x.duration.value > 1000.0
  }

  function Whole(x: Execution): Encoded {
    Encoded(x.operation, x.duration, x.error, x.statusCode, EncodeTraces(x.traces))
  }

  function WithoutTree(x: Execution): Encoded {
    Encoded(x.operation, x.duration, x.error, x.statusCode, [])
  }

  /** What is sent of it: under errors-only, a failure alone and without its tree; under the
      other degraded modes everything, and the trees of failures and slow ones; else all. */
  function Sent(x: Execution, mode: IngestMode): seq<Encoded> {
    match mode
    case Full => [Whole(x)]
    case ErrorsOnly => if Failed(x) then [WithoutTree(x)] else []
    case _ => if Failed(x) || Slow(x) then [Whole(x)] else [WithoutTree(x)]
  }

  /** What is reported as withheld: the spans not sent, and an execution not sent with the
      error it carried. */
  function Reported(x: Execution, mode: IngestMode): nat {
    match mode
    case Full => 0
    case ErrorsOnly => NodeCount(x.traces) + if Failed(x) then 0 else if x.error then 2 else 1
    case _ => if Failed(x) || Slow(x) then 0 else NodeCount(x.traces)
  }

  /** The mode that is in force. */
  function ModeAt(s: State, now: nat): (mode: IngestMode) {
    if s.degradedUntil <= now then Full else if s.errorsOnly then ErrorsOnly else Reduced
  }

  /** A request's own operation, or failing that what its URL folds to. */
  function Named(x: Execution): Execution {
    match x.operation
    case Some(_) => x
    case None => Execution(x.urlRoute, x.urlRoute, x.duration, x.error, x.statusCode, x.traces)
  }

  /** A thousand operations a batch unless configured otherwise, and never over five thousand. */
  function Cap(o: Options): nat {
    var wanted := match o.maxTracesPerBatch case Some(n) => n case None => 1000;
    if wanted <= 5000 then wanted else 5000
  }

  lemma GradeIs(x: Execution, s: State, now: nat)
    ensures var outcome, sent := Grade(Encode(x), TreatmentAt(s, now)), Sent(x, ModeAt(s, now));
      && (outcome.sent.Some? <==> |sent| == 1) && (outcome.sent.None? <==> sent == [])
      && (outcome.sent.Some? ==> outcome.sent.value == sent[0])
      && outcome.withheld == Reported(x, ModeAt(s, now))
  {
    EncodingKeepsTheCount(x.traces);
  }

  lemma GradeMeans(x: Execution, s: State, now: nat, sent: seq<Encoded>)
    ensures var outcome := Grade(Encode(x), TreatmentAt(s, now));
      && OneMore(sent, outcome) == sent + Sent(x, ModeAt(s, now))
      && outcome.withheld == Reported(x, ModeAt(s, now))
      && (if outcome.sent.Some? then 0 else 1) == 1 - |Sent(x, ModeAt(s, now))|
  {
    GradeIs(x, s, now);
    hide Grade, Sent, Reported, ModeAt, TreatmentAt, Encode;
    assert sent + [] == sent;
  }

  /** Any request, in any state: one without a name is not taken; one past the cap leaves the
      batch as it was; any other is sent as its own status, error and duration say. */
  lemma RequestMeans(o: Options, s: State, request: Execution, now: nat)
    ensures var x, p, mode := Named(request), BatchOf(s), ModeAt(s, now);
      RequestInserted(o, s, request, now) ==
        if x.operation == None || x.operation == Some("") then s
        else if |p.snapshots| + s.withheldSnapshots >= Cap(o) then s.(batch := Some(p))
        else s.(
          batch := Some(p.(snapshots := p.snapshots + Sent(x, mode), truncatedSpans := p.truncatedSpans + Reported(x, mode))),
          withheldSnapshots := s.withheldSnapshots + 1 - |Sent(x, mode)|)
  {
    GradeMeans(Named(request), s, now, BatchOf(s).snapshots);
    hide Grade, Encode, Sent, Reported, OneMore, TreatmentAt, ModeAt;
  }

  lemma JobMeans(o: Options, s: State, job: Execution, now: nat)
    ensures var p, mode := BatchOf(s), ModeAt(s, now);
      JobInserted(o, s, job, now) ==
        if |p.jobs| + s.withheldJobs >= Cap(o) then s.(batch := Some(p))
        else s.(
          batch := Some(p.(jobs := p.jobs + Sent(job, mode), truncatedSpans := p.truncatedSpans + Reported(job, mode))),
          withheldJobs := s.withheldJobs + 1 - |Sent(job, mode)|)
  {
    GradeMeans(job, s, now, BatchOf(s).jobs);
    hide Grade, Encode, Sent, Reported, OneMore, TreatmentAt, ModeAt;
  }

  // ----- over a run ----------------------------------------------------------------------------

  lemma {:induction false} VerdictHolds(o: Options, w: World, events: seq<Event>)
    requires forall e :: e in events ==> !e.VerdictRead?
    ensures var t := Run(o, w, events).s; t.degradedUntil == w.s.degradedUntil && t.errorsOnly == w.s.errorsOnly
    decreases |events|
  {
    if events != [] {
      assert events[0] in events;
      VerdictStep(o, w, events[0]);
      VerdictHolds(o, Apply(o, w, events[0]), events[1..]);
    }
  }

  lemma VerdictStep(o: Options, w: World, e: Event)
    requires !e.VerdictRead?
    ensures var t := Apply(o, w, e).s; t.degradedUntil == w.s.degradedUntil && t.errorsOnly == w.s.errorsOnly
  {
  }

  /** The mode a verdict stands for: three of them come to the same. */
  function InForce(mode: IngestMode): IngestMode {
    if mode == Trimmed || mode == Paced then Reduced else mode
  }

  /** Whatever happens after a verdict is read, the next one aside, requests are kept as it
      says for five minutes, and whole from then on. */
  lemma RequestAfterAVerdict(o: Options, w: World, mode: IngestMode, at: nat, between: seq<Event>, request: Execution, now: nat)
    requires forall e :: e in between ==> !e.VerdictRead?
    ensures var before := Run(o, w, [VerdictRead(mode, at)] + between);
      var x, p := Named(request), BatchOf(before.s);
      var after := Run(o, w, [VerdictRead(mode, at)] + between + [RequestEnded(request, now)]);
      var kept := Sent(x, if now < at + 300000 then InForce(mode) else Full);
      x.operation.Some? && x.operation.value != "" && |p.snapshots| + before.s.withheldSnapshots < Cap(o) ==>
        BatchOf(after.s).snapshots == p.snapshots + kept
  {
    hide RequestInserted;
    var told := [VerdictRead(mode, at)];
    RunConcat(o, w, told, between);
    assert told[1..] == [];
    var first := Apply(o, w, VerdictRead(mode, at));
    assert Run(o, w, told) == Run(o, first, []) == first;
    VerdictHolds(o, first, between);
    var before := Run(o, w, told + between);
    RunConcat(o, w, told + between, [RequestEnded(request, now)]);
    assert [RequestEnded(request, now)][1..] == [];
    assert Run(o, before, [RequestEnded(request, now)]) == Run(o, Apply(o, before, RequestEnded(request, now)), []);
    hide Run;
    RequestMeans(o, before.s, request, now);
    hide Sent, Reported, Named;
    assert ModeAt(before.s, now) == if now < at + 300000 then InForce(mode) else Full;
  }

  // ----- trees ---------------------------------------------------------------------------------

  /** A span's tree, read back from the wire. */
  function Read(nodes: seq<EncodedNode>): seq<TraceNode> {
    if nodes == [] then []
    else [TraceNode(if nodes[0].Branch? then Read(nodes[0].ch) else [])] + Read(nodes[1..])
  }

  /** A span without children is sent without a list of them. */
  predicate NoneEmpty(nodes: seq<EncodedNode>) {
    nodes == [] || ((nodes[0].Branch? ==> nodes[0].ch != [] && NoneEmpty(nodes[0].ch)) && NoneEmpty(nodes[1..]))
  }

  /** A tree that is sent is sent whole: every span under its own parent, in its own place. */
  lemma {:induction false} TreesComeBack(nodes: seq<TraceNode>)
    ensures Read(EncodeTraces(nodes)) == nodes && NoneEmpty(EncodeTraces(nodes))
    decreases nodes
  {
    if nodes != [] {
      TreesComeBack(nodes[0].children);
      TreesComeBack(nodes[1..]);
      assert EncodeTraces(nodes)[1..] == EncodeTraces(nodes[1..]);
      assert nodes == [nodes[0]] + nodes[1..];
      assert nodes[0] == TraceNode(nodes[0].children);
    }
  }
}
