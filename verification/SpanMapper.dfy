/** An operation and its tree as a flat list of OTLP spans, and the reader that makes the
    tree of the list again. */
module SpanMapper {

  datatype Option<+T> = None | Some(value: T)

  type SpanId = nat
  type TraceId = nat

  /** A node of an operation's tree: its span's id, minted where it had none, when it
      started after the operation and how long it took, in nanoseconds, and the rest of
      it. A node still open is not exported, nor anything under it. */
  datatype TraceNode = TraceNode(
    open: bool,
    id: SpanId,
    startOffset: Option<int>,
    duration: Option<int>,
    content: nat,
    children: seq<TraceNode>)

  datatype OtlpSpan = OtlpSpan(
    traceId: TraceId,
    spanId: SpanId,
    parentSpanId: Option<SpanId>,
    startTime: nat,
    endTime: nat,
    content: nat)

  function Nanos(ns: Option<int>): nat {
    if ns.Some? && ns.value > 0 then ns.value else 0
  }

  function SpanOf(node: TraceNode, trace: TraceId, parent: SpanId, operationStart: nat): OtlpSpan {
    var start := operationStart + Nanos(node.startOffset);
    OtlpSpan(trace, node.id, Some(parent), start, start + Nanos(node.duration), node.content)
  }

  // ----- flattening ------------------------------------------------------------------

  /** Depth first, a parent before its children, each tree after the one before it. */
  function ForestSpans(nodes: seq<TraceNode>, trace: TraceId, parent: SpanId, start: nat): seq<OtlpSpan> {
    if nodes == [] then []
    else NodeSpans(nodes[0], trace, parent, start) + ForestSpans(nodes[1..], trace, parent, start)
  }

  function NodeSpans(node: TraceNode, trace: TraceId, parent: SpanId, start: nat): seq<OtlpSpan> {
    if node.open then [] else [SpanOf(node, trace, parent, start)] + ForestSpans(node.children, trace, node.id, start)
  }

  method AppendNodeSpans(spans: seq<OtlpSpan>, node: TraceNode, trace: TraceId, parent: SpanId, start: nat)
    returns (longer: seq<OtlpSpan>)
    ensures longer == spans + NodeSpans(node, trace, parent, start)
    decreases node
  {
    if node.open {
      return spans;
    }
    var span := SpanOf(node, trace, parent, start);
    longer := spans + [span];
    for i := 0 to |node.children|
      invariant longer == spans + [span] + ForestSpans(node.children[..i], trace, node.id, start)
    {
      var before := longer;
      longer := AppendNodeSpans(longer, node.children[i], trace, span.spanId, start);
      ForestOneMore(node.children[..i], node.children[i], trace, node.id, start);
      assert node.children[..i + 1] == node.children[..i] + [node.children[i]];
    }
    assert node.children[..|node.children|] == node.children;
  }

  lemma {:induction false} ForestOneMore(nodes: seq<TraceNode>, node: TraceNode, trace: TraceId, parent: SpanId, start: nat)
    ensures ForestSpans(nodes + [node], trace, parent, start) == ForestSpans(nodes, trace, parent, start) + NodeSpans(node, trace, parent, start)
  {
    if nodes == [] {
      assert ([node])[1..] == [];
      assert [] + [node] == [node];
    } else {
      assert (nodes + [node])[1..] == nodes[1..] + [node];
      ForestOneMore(nodes[1..], node, trace, parent, start);
    }
  }

  /** The operation's own span, and under it, where its tree is wanted, its tree's. */
  method OperationSpans(operation: OtlpSpan, traces: seq<TraceNode>, withTree: bool) returns (spans: seq<OtlpSpan>)
    ensures spans == [operation] +
      if withTree then ForestSpans(traces, operation.traceId, operation.spanId, operation.startTime) else []
  {
    spans := [operation];
    if !withTree {
      return;
    }
    for i := 0 to |traces|
      invariant spans == [operation] + ForestSpans(traces[..i], operation.traceId, operation.spanId, operation.startTime)
    {
      spans := AppendNodeSpans(spans, traces[i], operation.traceId, operation.spanId, operation.startTime);
      ForestOneMore(traces[..i], traces[i], operation.traceId, operation.spanId, operation.startTime);
      assert traces[..i + 1] == traces[..i] + [traces[i]];
    }
    assert traces[..|traces|] == traces;
  }

  // ----- making the tree again ----------------------------------------------------------

  datatype SpanTree = SpanTree(span: OtlpSpan, children: seq<SpanTree>)

  /** The spans under a parent, each with what comes later under itself. */
  function Rebuild(spans: seq<OtlpSpan>, parent: Option<SpanId>): seq<SpanTree>
    decreases |spans|
  {
    if spans == [] then []
    else if spans[0].parentSpanId == parent then
      [SpanTree(spans[0], Rebuild(spans[1..], Some(spans[0].spanId)))] + Rebuild(spans[1..], parent)
    else Rebuild(spans[1..], parent)
  }

  /** The forest that was recorded, without what was still open and all under it. */
  function Pruned(nodes: seq<TraceNode>, trace: TraceId, parent: SpanId, start: nat): seq<SpanTree> {
    if nodes == [] then []
    else
      var rest := Pruned(nodes[1..], trace, parent, start);
      if nodes[0].open then rest
      else [SpanTree(SpanOf(nodes[0], trace, parent, start), Pruned(nodes[0].children, trace, nodes[0].id, start))] + rest
  }

  function Ids(spans: seq<OtlpSpan>): set<SpanId> {
    set i | 0 <= i < |spans| :: spans[i].spanId
  }

  ghost predicate DistinctIds(spans: seq<OtlpSpan>) {
    forall i, j :: 0 <= i < j < |spans| ==> spans[i].spanId != spans[j].spanId
  }

  /** No span of these hangs under one of those ids. */
  ghost predicate NoneUnder(spans: seq<OtlpSpan>, ids: set<SpanId>) {
    forall i :: 0 <= i < |spans| && spans[i].parentSpanId.Some? ==> spans[i].parentSpanId.value !in ids
  }

  lemma IdsConcat(a: seq<OtlpSpan>, b: seq<OtlpSpan>)
    ensures Ids(a + b) == Ids(a) + Ids(b)
    ensures DistinctIds(a + b) ==> DistinctIds(a) && DistinctIds(b) && Ids(a) !! Ids(b)
  {
    forall id | id in Ids(a) + Ids(b)
      ensures id in Ids(a + b)
    {
      if id in Ids(a) {
        var i :| 0 <= i < |a| && a[i].spanId == id;
        assert (a + b)[i].spanId == id;
      } else {
        var i :| 0 <= i < |b| && b[i].spanId == id;
        assert (a + b)[|a| + i].spanId == id;
      }
    }
    if DistinctIds(a + b) {
      forall i, j | 0 <= i < j < |a|
        ensures a[i].spanId != a[j].spanId
      {
        assert (a + b)[i].spanId != (a + b)[j].spanId;
      }
      forall i, j | 0 <= i < j < |b|
        ensures b[i].spanId != b[j].spanId
      {
        assert (a + b)[|a| + i].spanId != (a + b)[|a| + j].spanId;
      }
      forall i, j | 0 <= i < |a| && 0 <= j < |b|
        ensures a[i].spanId != b[j].spanId
      {
        assert (a + b)[i].spanId != (a + b)[|a| + j].spanId;
      }
    }
  }

  /** Every span of a forest is under the parent it was given or under one of its own,
      that comes before it. */
  lemma {:induction false} ParentsComeFirst(nodes: seq<TraceNode>, trace: TraceId, parent: SpanId, start: nat, k: nat)
    requires k < |ForestSpans(nodes, trace, parent, start)|
    ensures var spans := ForestSpans(nodes, trace, parent, start);
      && spans[k].traceId == trace
      && spans[k].parentSpanId.Some?
      && (spans[k].parentSpanId.value == parent || exists j :: 0 <= j < k && spans[j].spanId == spans[k].parentSpanId.value)
    decreases nodes
  {
    var first, rest := NodeSpans(nodes[0], trace, parent, start), ForestSpans(nodes[1..], trace, parent, start);
    var spans := ForestSpans(nodes, trace, parent, start);
    assert spans == first + rest;
    if k >= |first| {
      ParentsComeFirst(nodes[1..], trace, parent, start, k - |first|);
      if rest[k - |first|].parentSpanId.value != parent {
        var j :| 0 <= j < k - |first| && rest[j].spanId == rest[k - |first|].parentSpanId.value;
        assert spans[|first| + j].spanId == spans[k].parentSpanId.value;
      }
    } else if k > 0 {
      var below := ForestSpans(nodes[0].children, trace, nodes[0].id, start);
      ParentsComeFirst(nodes[0].children, trace, nodes[0].id, start, k - 1);
      assert spans[k] == below[k - 1];
      if below[k - 1].parentSpanId.value == nodes[0].id {
        assert spans[0].spanId == nodes[0].id;
      } else {
        var j :| 0 <= j < k - 1 && below[j].spanId == below[k - 1].parentSpanId.value;
        assert spans[j + 1].spanId == spans[k].parentSpanId.value;
      }
    }
  }

  ghost predicate NotUnder(spans: seq<OtlpSpan>, parent: Option<SpanId>) {
    forall i :: 0 <= i < |spans| ==> spans[i].parentSpanId != parent
  }

  /** Spans that are not under a parent do not matter to it. */
  lemma {:induction false} Skipped(spans: seq<OtlpSpan>, rest: seq<OtlpSpan>, parent: Option<SpanId>)
    requires NotUnder(spans, parent)
    ensures Rebuild(spans + rest, parent) == Rebuild(rest, parent)
    decreases |spans|
  {
    if spans == [] {
      assert spans + rest == rest;
    } else {
      assert (spans + rest)[1..] == spans[1..] + rest;
      Skipped(spans[1..], rest, parent);
    }
  }

  /** A forest's spans hang under its parent or under each other. */
  lemma ForestHangsTogether(nodes: seq<TraceNode>, trace: TraceId, parent: SpanId, start: nat, ids: set<SpanId>)
    requires parent !in ids && Ids(ForestSpans(nodes, trace, parent, start)) !! ids
    ensures NoneUnder(ForestSpans(nodes, trace, parent, start), ids)
  {
    var spans := ForestSpans(nodes, trace, parent, start);
    forall k | 0 <= k < |spans| && spans[k].parentSpanId.Some?
      ensures spans[k].parentSpanId.value !in ids
    {
      ParentsComeFirst(nodes, trace, parent, start, k);
      if spans[k].parentSpanId.value != parent {
        var j :| 0 <= j < k && spans[j].spanId == spans[k].parentSpanId.value;
        assert spans[j].spanId in Ids(spans);
      }
    }
  }

  lemma ForestRebuilds(nodes: seq<TraceNode>, trace: TraceId, parent: SpanId, start: nat, rest: seq<OtlpSpan>)
    requires var spans := ForestSpans(nodes, trace, parent, start);
      DistinctIds(spans) && parent !in Ids(spans) && NoneUnder(rest, Ids(spans))
    ensures Rebuild(ForestSpans(nodes, trace, parent, start) + rest, Some(parent))
         == Pruned(nodes, trace, parent, start) + Rebuild(rest, Some(parent))
    decreases nodes
  {
    var spans := ForestSpans(nodes, trace, parent, start);
    if nodes == [] {
      assert spans + rest == rest;
    } else if nodes[0].open {
      assert spans == ForestSpans(nodes[1..], trace, parent, start);
      ForestRebuilds(nodes[1..], trace, parent, start, rest);
    } else {
      TreeRebuilds(nodes, trace, parent, start, rest);
    }
  }

  lemma OneUnder(rest: seq<OtlpSpan>, ids: set<SpanId>, fewer: set<SpanId>)
    requires NoneUnder(rest, ids) && fewer <= ids
    ensures NoneUnder(rest, fewer)
  {
  }

  lemma NoneUnderBoth(a: seq<OtlpSpan>, b: seq<OtlpSpan>, ids: set<SpanId>)
    requires NoneUnder(a, ids) && NoneUnder(b, ids)
    ensures NoneUnder(a + b, ids)
  {
  }

  lemma NotUnderOne(spans: seq<OtlpSpan>, ids: set<SpanId>, id: SpanId)
    requires NoneUnder(spans, ids) && id in ids
    ensures NotUnder(spans, Some(id))
  {
  }

  /** How the spans of the first tree, of the later ones and of what follows keep out of
      each other's way. */
  lemma Stretches(own: OtlpSpan, below: seq<OtlpSpan>, later: seq<OtlpSpan>, rest: seq<OtlpSpan>, parent: SpanId)
    requires var spans := [own] + (below + later);
      DistinctIds(spans) && parent !in Ids(spans) && NoneUnder(rest, Ids(spans))
    ensures DistinctIds(below) && DistinctIds(later)
    ensures own.spanId !in Ids(below) && parent !in Ids(later) && own.spanId != parent && parent !in Ids(below)
    ensures Ids(later) !! Ids(below) + {own.spanId}
    ensures NoneUnder(rest, Ids(below) + {own.spanId}) && NoneUnder(rest, Ids(later))
  {
    IdsConcat([own], below + later);
    IdsConcat(below, later);
    assert own.spanId in Ids([own]) by { assert [own][0] == own; }
    var all := Ids([own] + (below + later));
    OneUnder(rest, all, Ids(below) + {own.spanId});
    OneUnder(rest, all, Ids(later));
  }

  /** The first tree and the ones after it, each in its stretch of the list. */
  lemma TreeRebuilds(nodes: seq<TraceNode>, trace: TraceId, parent: SpanId, start: nat, rest: seq<OtlpSpan>)
    requires nodes != [] && !nodes[0].open
    requires var spans := ForestSpans(nodes, trace, parent, start);
      DistinctIds(spans) && parent !in Ids(spans) && NoneUnder(rest, Ids(spans))
    ensures Rebuild(ForestSpans(nodes, trace, parent, start) + rest, Some(parent))
         == Pruned(nodes, trace, parent, start) + Rebuild(rest, Some(parent))
    decreases nodes, 0
  {
    var node := nodes[0];
    var own := SpanOf(node, trace, parent, start);
    var below := ForestSpans(node.children, trace, node.id, start);
    var later := ForestSpans(nodes[1..], trace, parent, start);
    var spans := ForestSpans(nodes, trace, parent, start);
    var children, siblings := Pruned(node.children, trace, node.id, start), Pruned(nodes[1..], trace, parent, start);
    var after := later + rest;
    assert Pruned(nodes, trace, parent, start) == [SpanTree(own, children)] + siblings;
    assert own.parentSpanId == Some(parent) && own.spanId == node.id;
    assert spans == [own] + (below + later);
    assert spans + rest == [own] + (below + after);
    hide Rebuild, Pruned, ForestSpans, NodeSpans, SpanOf, Ids, DistinctIds, NoneUnder, NotUnder;
    Stretches(own, below, later, rest, parent);
    ForestHangsTogether(nodes[1..], trace, parent, start, Ids(below) + {node.id});
    NoneUnderBoth(later, rest, Ids(below) + {node.id});
    OneUnder(after, Ids(below) + {node.id}, Ids(below));
    NotUnderOne(after, Ids(below) + {node.id}, node.id);
    ForestHangsTogether(node.children, trace, node.id, start, {parent});
    NotUnderOne(below, {parent}, parent);
    ForestRebuilds(node.children, trace, node.id, start, after);
    Skipped(after, [], Some(node.id));
    assert after + [] == after;
    Skipped(below, after, Some(parent));
    ForestRebuilds(nodes[1..], trace, parent, start, rest);
    RebuildFirst([own] + (below + after), Some(parent));
    assert ([own] + (below + after))[1..] == below + after;
    assert children + [] == children;
    Assoc([SpanTree(own, children)], siblings, Rebuild(rest, Some(parent)));
  }

  lemma Assoc(a: seq<SpanTree>, b: seq<SpanTree>, c: seq<SpanTree>)
    ensures a + (b + c) == a + b + c
  {
  }

  lemma RebuildFirst(spans: seq<OtlpSpan>, parent: Option<SpanId>)
    requires spans != [] && spans[0].parentSpanId == parent
    ensures Rebuild(spans, parent) == [SpanTree(spans[0], Rebuild(spans[1..], Some(spans[0].spanId)))] + Rebuild(spans[1..], parent)
    ensures Rebuild([], Some(spans[0].spanId)) == []
  {
  }

  /** Given distinct ids, the one of the operation's own span among them, the list makes
      the tree again: read from where the operation hangs, it is the operation with the
      forest recorded under it, less what was still open. */
  lemma FlatteningIsInvertible(operation: OtlpSpan, traces: seq<TraceNode>)
    requires var spans := [operation] + ForestSpans(traces, operation.traceId, operation.spanId, operation.startTime);
      DistinctIds(spans) && (operation.parentSpanId.Some? ==> operation.parentSpanId.value !in Ids(spans))
    ensures Rebuild([operation] + ForestSpans(traces, operation.traceId, operation.spanId, operation.startTime), operation.parentSpanId)
         == [SpanTree(operation, Pruned(traces, operation.traceId, operation.spanId, operation.startTime))]
  {
    var below := ForestSpans(traces, operation.traceId, operation.spanId, operation.startTime);
    IdsConcat([operation], below);
    assert operation.spanId in Ids([operation]) by { assert [operation][0] == operation; }
    assert ([operation] + below)[1..] == below;
    ForestRebuilds(traces, operation.traceId, operation.spanId, operation.startTime, []);
    assert below + [] == below;
    forall k | 0 <= k < |below|
      ensures below[k].parentSpanId != operation.parentSpanId
    {
      ParentsComeFirst(traces, operation.traceId, operation.spanId, operation.startTime, k);
      if below[k].parentSpanId.value != operation.spanId {
        var j :| 0 <= j < k && below[j].spanId == below[k].parentSpanId.value;
        assert below[j].spanId in Ids(below);
      }
    }
    Skipped(below, [], operation.parentSpanId);
    var tree := Pruned(traces, operation.traceId, operation.spanId, operation.startTime);
    assert tree + [] == tree;
    assert ([operation] + below)[0] == operation;
    RebuildFirst([operation] + below, operation.parentSpanId);
  }

  // ----- what was recorded, read off the spans ----------------------------------------------

  function NoLess(ns: Option<int>): int {
    match ns
    case Some(n) => if n < 0 then 0 else n
    case None => 0
  }

  /** The nodes that were finished, with when they started and how long they took as
      numbers, and nothing negative. */
  function Finished(nodes: seq<TraceNode>): seq<TraceNode> {
    if nodes == [] then []
    else if nodes[0].open then Finished(nodes[1..])
    else
      var n := nodes[0];
      [TraceNode(false, n.id, Some(NoLess(n.startOffset)), Some(NoLess(n.duration)), n.content, Finished(n.children))] + Finished(nodes[1..])
  }

  /** Nodes as a reader of the spans makes them out, given when the operation started. */
  function AsNodes(trees: seq<SpanTree>, start: nat): seq<TraceNode> {
    if trees == [] then []
    else
      var span := trees[0].span;
      [TraceNode(false, span.spanId, Some(span.startTime - start), Some(span.endTime - span.startTime), span.content,
                 AsNodes(trees[0].children, start))]
      + AsNodes(trees[1..], start)
  }

  lemma {:induction false} PrunedReadsAsFinished(nodes: seq<TraceNode>, trace: TraceId, parent: SpanId, start: nat)
    ensures AsNodes(Pruned(nodes, trace, parent, start), start) == Finished(nodes)
    decreases nodes
  {
    if nodes != [] {
      PrunedReadsAsFinished(nodes[1..], trace, parent, start);
      if !nodes[0].open {
        PrunedReadsAsFinished(nodes[0].children, trace, nodes[0].id, start);
        var trees := Pruned(nodes, trace, parent, start);
        assert trees[1..] == Pruned(nodes[1..], trace, parent, start);
      }
    }
  }

  /** The whole way: from the list of spans a reader makes out every finished node, under
      its own parent, with its id, its content, its start and its length. */
  lemma RecordedIsReadBack(operation: OtlpSpan, traces: seq<TraceNode>)
    requires var spans := [operation] + ForestSpans(traces, operation.traceId, operation.spanId, operation.startTime);
      DistinctIds(spans) && (operation.parentSpanId.Some? ==> operation.parentSpanId.value !in Ids(spans))
    ensures var trees := Rebuild([operation] + ForestSpans(traces, operation.traceId, operation.spanId, operation.startTime), operation.parentSpanId);
      |trees| == 1 && trees[0].span == operation && AsNodes(trees[0].children, operation.startTime) == Finished(traces)
  {
    FlatteningIsInvertible(operation, traces);
    PrunedReadsAsFinished(traces, operation.traceId, operation.spanId, operation.startTime);
  }

  // ----- attributes --------------------------------------------------------------------

  const MAX_ATTRIBUTES_PER_SPAN: nat := 128

  datatype Value = Text(text: string) | Number(value: real) | Flag(on: bool) | NotFinite | Nothing | SomethingElse

  datatype Attribute = Attribute(key: string, value: Value)

  predicate Holds(value: Value) {
    value.Text? || value.Number? || value.Flag?
  }

  /** The attributes of a record that hold something, in its order. */
  function Kept(record: seq<Attribute>): seq<Attribute> {
    if record == [] then []
    else
      var last := record[|record| - 1];
      Kept(record[..|record| - 1]) + if Holds(last.value) then [last] else []
  }

  /** The first 128 are carried and the rest counted, so none goes unmentioned. */
  method ToAttributes(record: seq<Attribute>) returns (attributes: seq<Attribute>, dropped: nat)
    ensures attributes <= Kept(record)
    ensures |attributes| + dropped == |Kept(record)|
    ensures |attributes| == if |Kept(record)| < 128 then |Kept(record)| else 128
  {
    attributes, dropped := [], 0;
    for i := 0 to |record|
      invariant attributes <= Kept(record[..i])
      invariant |attributes| + dropped == |Kept(record[..i])|
      invariant |attributes| <= MAX_ATTRIBUTES_PER_SPAN && (dropped > 0 ==> |attributes| == MAX_ATTRIBUTES_PER_SPAN)
    {
      assert record[..i + 1][..i] == record[..i];
      if !Holds(record[i].value) {
        continue;
      }
      if |attributes| >= MAX_ATTRIBUTES_PER_SPAN {
        dropped := dropped + 1;
        continue;
      }
      attributes := attributes + [record[i]];
    }
    assert record[..|record|] == record;
  }
}
