/** What one finished request or job comes to on the wire: its encoded tree, the units
    the meter bills for it, and what each of the collector's ingest modes leaves of it. */
module Ingest {

  datatype Option<+T> = None | Some(value: T)

  // ----- executions and their trees ------------------------------------------------

  /** A span and the spans under it. What a span says is not part of this model. */
  datatype TraceNode = TraceNode(children: seq<TraceNode>)

  /** A span on the wire: `ch` is left out where there are no children. */
  datatype EncodedNode = Leaf | Branch(ch: seq<EncodedNode>)

  /** A finished request or job. A request over HTTP has a status code; one that ended
      before its route was known has no operation, only what its URL folds to. */
  datatype Execution = Execution(
    operation: Option<string>,
    urlRoute: Option<string>,
    duration: Option<real>,
    error: bool,
    statusCode: Option<int>,
    traces: seq<TraceNode>)

  datatype Encoded = Encoded(
    op: Option<string>,
    d: Option<real>,
    e: bool,
    sc: Option<int>,
    t: seq<EncodedNode>)

  function EncodeTrace(node: TraceNode): EncodedNode
    decreases node, 0
  {
    if |node.children| > 0 then Branch(EncodeTraces(node.children)) else Leaf
  }

  function EncodeTraces(nodes: seq<TraceNode>): (r: seq<EncodedNode>)
    ensures |r| == |nodes|
    decreases nodes
  {
    if nodes == [] then [] else [EncodeTrace(nodes[0])] + EncodeTraces(nodes[1..])
  }

  function Encode(x: Execution): Encoded {
    Encoded(x.operation, x.duration, x.error, x.statusCode, EncodeTraces(x.traces))
  }

  /** A request's operation, or failing that what its URL folds to. */
  function WithOperation(x: Execution): Execution {
    if x.operation.Some? then x else x.(operation := x.urlRoute)
  }

  predicate HasOperation(x: Execution) {
    x.operation.Some? && x.operation.value != ""
  }

  /** How many spans there are, children included: what the meter bills. */
  function NodeCount(nodes: seq<TraceNode>): nat {
    if nodes == [] then 0 else 1 + NodeCount(nodes[0].children) + NodeCount(nodes[1..])
  }

  function EncodedCount(nodes: seq<EncodedNode>): nat {
    if nodes == [] then 0 else
      1 + (if nodes[0].Branch? then EncodedCount(nodes[0].ch) else 0) + EncodedCount(nodes[1..])
  }

  /** The count adds up over any split of the forest. */
  lemma {:induction false} EncodedCountConcat(a: seq<EncodedNode>, b: seq<EncodedNode>)
    ensures EncodedCount(a + b) == EncodedCount(a) + EncodedCount(b)
  {
    if a == [] {
      assert a + b == b;
    } else {
      assert (a + b)[1..] == a[1..] + b;
      EncodedCountConcat(a[1..], b);
    }
  }

  method CountTraceNodes(traces: seq<EncodedNode>) returns (count: nat)
    ensures count == EncodedCount(traces)
    decreases traces
  {
    count := 0;
    for i := 0 to |traces|
      invariant count == EncodedCount(traces[..i])
    {
      var below := 0;
      if traces[i].Branch? {
        below := CountTraceNodes(traces[i].ch);
      }
      assert traces[..i + 1] == traces[..i] + [traces[i]];
      EncodedCountConcat(traces[..i], [traces[i]]);
      count := count + 1 + below;
    }
    assert traces[..|traces|] == traces;
  }

  /** Encoding loses no span and makes none up. */
  lemma {:induction false} EncodingKeepsTheCount(nodes: seq<TraceNode>)
    ensures EncodedCount(EncodeTraces(nodes)) == NodeCount(nodes)
    decreases nodes
  {
    if nodes != [] {
      EncodingKeepsTheCount(nodes[0].children);
      EncodingKeepsTheCount(nodes[1..]);
      assert EncodeTraces(nodes)[1..] == EncodeTraces(nodes[1..]);
    }
  }

  // ----- what the collector keeps ------------------------------------------------------

  const NOTABLE_DURATION_MS := 1000.0
  const SERVER_ERROR_FLOOR := 500

  /** Where there is a status code it decides alone. */
  predicate IsServerError(x: Encoded) {
    if x.sc.Some? then x.sc.value >= SERVER_ERROR_FLOOR else x.e
  }

  predicate IsNotable(x: Encoded) {
    (x.d.Some? && x.d.value > NOTABLE_DURATION_MS) || IsServerError(x)
  }

  /** What the modes come to: `full` keeps everything; reduced, trimmed and paced alike
      withhold the trees of all but the notable; errors-only keeps server errors alone,
      without their trees. */
  datatype Treatment = KeepAll | WithholdTrees | KeepErrors

  /** What is left of one execution: what is sent, if anything, and the units reported
      as withheld. */
  datatype Outcome = Outcome(sent: Option<Encoded>, withheld: nat, keepsTree: bool)

  function Grade(x: Encoded, treatment: Treatment): Outcome {
    match treatment
    case KeepAll => Outcome(Some(x), 0, true)
    case WithholdTrees =>
      if IsNotable(x) then Outcome(Some(x), 0, true)
      else Outcome(Some(x.(t := [])), EncodedCount(x.t), false)
    case KeepErrors =>
      if IsServerError(x) then Outcome(Some(x.(t := [])), EncodedCount(x.t), false)
      else Outcome(None, EncodedCount(x.t) + (if x.e then 2 else 1), false)
  }

  /** What the meter bills for an execution on the wire: itself, the error it carries,
      and every span of its tree. */
  function Units(x: Encoded): nat {
    1 + (if x.e then 1 else 0) + EncodedCount(x.t)
  }

  function OutcomeUnits(o: Outcome): nat {
    (if o.sent.Some? then Units(o.sent.value) else 0) + o.withheld
  }

  function SumUnits(sent: seq<Encoded>): nat {
    if sent == [] then 0 else Units(sent[0]) + SumUnits(sent[1..])
  }

  lemma {:induction false} SumUnitsOneMore(sent: seq<Encoded>, x: Encoded)
    ensures SumUnits(sent + [x]) == SumUnits(sent) + Units(x)
    ensures SumUnits([x]) == Units(x)
  {
    if sent == [] {
      assert [] + [x] == [x];
    } else {
      assert (sent + [x])[1..] == sent[1..] + [x];
      SumUnitsOneMore(sent[1..], x);
    }
  }

  /** Sent and withheld together are what full ingest would have billed, whatever the
      mode; and the original's spans are what is counted. */
  lemma GradingConservesUnits(x: Execution, treatment: Treatment)
    ensures OutcomeUnits(Grade(Encode(x), treatment))
         == 1 + (if x.error then 1 else 0) + NodeCount(x.traces)
  {
    EncodingKeepsTheCount(x.traces);
  }
}
