/** Objectives declared on handlers: the bounded search of a request's tree for the
    handler's span, and how often a route's declaration is stated. */
module Objectives {

  datatype Option<+T> = None | Some(value: T)

  const RESTATE_EVERY_MS: nat := 60 * 60 * 1000
  const MAX_SPANS_SEARCHED: nat := 200
  const MAX_ROUTE_LENGTH: nat := 255
  const MAX_OBJECTIVES_PER_BATCH: nat := 100

  datatype TraceNode = TraceNode(className: string, methodKey: string, children: seq<TraceNode>)

  function Key(node: TraceNode): string {
    node.className + "." + node.methodKey
  }

  // ----- level order --------------------------------------------------------------------

  /** Spans in a forest, children included. */
  function Count(nodes: seq<TraceNode>): nat {
    if nodes == [] then 0 else 1 + Count(nodes[0].children) + Count(nodes[1..])
  }

  lemma {:induction false} CountConcat(a: seq<TraceNode>, b: seq<TraceNode>)
    ensures Count(a + b) == Count(a) + Count(b)
  {
    if a == [] {
      assert a + b == b;
    } else {
      assert (a + b)[1..] == a[1..] + b;
      CountConcat(a[1..], b);
    }
  }

  /** All the children of a level, left to right: the level below it. */
  function Below(nodes: seq<TraceNode>): seq<TraceNode> {
    if nodes == [] then [] else nodes[0].children + Below(nodes[1..])
  }

  lemma {:induction false} BelowIsSmaller(nodes: seq<TraceNode>)
    ensures Count(Below(nodes)) + |nodes| == Count(nodes)
  {
    if nodes != [] {
      BelowIsSmaller(nodes[1..]);
      CountConcat(nodes[0].children, Below(nodes[1..]));
    }
  }

  /** A forest level by level, each left to right. */
  function LevelOrder(nodes: seq<TraceNode>): seq<TraceNode>
    decreases Count(nodes)
  {
    BelowIsSmaller(nodes);
    if nodes == [] then [] else nodes + LevelOrder(Below(nodes))
  }

  /** The spans at a depth, the roots being at nought. */
  function Level(nodes: seq<TraceNode>, depth: nat): seq<TraceNode>
    decreases depth
  {
    if depth == 0 then nodes else Level(Below(nodes), depth - 1)
  }

  /** What a queue gives out that takes each span's children in behind it. */
  function Dequeued(queue: seq<TraceNode>): seq<TraceNode>
    decreases Count(queue)
  {
    if queue == [] then []
    else
      CountConcat(queue[1..], queue[0].children);
      [queue[0]] + Dequeued(queue[1..] + queue[0].children)
  }

  lemma Assoc(a: seq<TraceNode>, b: seq<TraceNode>, c: seq<TraceNode>)
    ensures a + b + c == a + (b + c)
  {
  }

  lemma {:induction false} LevelLeavesFirst(level: seq<TraceNode>, next: seq<TraceNode>)
    ensures Dequeued(level + next) == level + Dequeued(next + Below(level))
    decreases |level|
  {
    if level == [] {
      assert level + next == next && next + [] == next;
    } else {
      var queue := level + next;
      assert queue[1..] == level[1..] + next;
      Assoc(level[1..], next, level[0].children);
      LevelLeavesFirst(level[1..], next + level[0].children);
      Assoc(next, level[0].children, Below(level[1..]));
      assert level == [level[0]] + level[1..];
      Assoc([level[0]], level[1..], Dequeued(next + Below(level)));
    }
  }

  /** The queue gives a forest out in level order. */
  lemma {:induction false} QueueIsLevelOrder(nodes: seq<TraceNode>)
    ensures Dequeued(nodes) == LevelOrder(nodes)
    decreases Count(nodes)
  {
    if nodes != [] {
      BelowIsSmaller(nodes);
      LevelLeavesFirst(nodes, []);
      assert nodes + [] == nodes && [] + Below(nodes) == Below(nodes);
      QueueIsLevelOrder(Below(nodes));
    }
  }

  predicate Declares(handlers: set<string>, node: TraceNode) {
    Key(node) in handlers
  }

  /** A span at this depth declares, and none on a level above does. */
  ghost predicate ShallowestAt(handlers: set<string>, roots: seq<TraceNode>, node: TraceNode, depth: nat) {
    && node in Level(roots, depth)
    && node.className + "." + node.methodKey in handlers
    && forall above: nat, x :: above < depth && x in Level(roots, above) ==> !Declares(handlers, x)
  }

  /** No declaring span is nearer the roots. */
  ghost predicate ShallowestSpan(handlers: set<string>, roots: seq<TraceNode>, node: TraceNode) {
    exists depth: nat :: ShallowestAt(handlers, roots, node, depth)
  }

  /** The first to declare in level order is the shallowest. */
  lemma {:induction false} FirstIsShallowest(handlers: set<string>, roots: seq<TraceNode>, i: nat) returns (depth: nat)
    requires i < |LevelOrder(roots)| && Declares(handlers, LevelOrder(roots)[i])
    requires forall j :: 0 <= j < i ==> !Declares(handlers, LevelOrder(roots)[j])
    ensures ShallowestAt(handlers, roots, LevelOrder(roots)[i], depth)
    decreases Count(roots)
  {
    BelowIsSmaller(roots);
    var below := LevelOrder(Below(roots));
    assert LevelOrder(roots) == roots + below;
    if i < |roots| {
      depth := 0;
    } else {
      forall j | 0 <= j < i - |roots|
        ensures !Declares(handlers, below[j])
      {
        assert LevelOrder(roots)[|roots| + j] == below[j];
      }
      var d := FirstIsShallowest(handlers, Below(roots), i - |roots|);
      depth := d + 1;
      forall above: nat, x | above < depth && x in Level(roots, above)
        ensures !Declares(handlers, x)
      {
        if above == 0 {
          var j :| 0 <= j < |roots| && roots[j] == x;
          assert LevelOrder(roots)[j] == x;
        } else {
          assert x in Level(Below(roots), above - 1);
        }
      }
    }
  }

  // ----- the search ---------------------------------------------------------------------

  /** Among the first two hundred spans in level order one is the handler's, and none
      nearer the roots, anywhere in the forest, declares. */
  ghost predicate FoundWithin(handlers: set<string>, roots: seq<TraceNode>, handler: string) {
    exists i :: 0 <= i < |LevelOrder(roots)| && i < 200
      && Key(LevelOrder(roots)[i]) == handler && ShallowestSpan(handlers, roots, LevelOrder(roots)[i])
  }

  ghost predicate NoneWithin(handlers: set<string>, roots: seq<TraceNode>) {
    forall i :: 0 <= i < |LevelOrder(roots)| && i < 200 ==> !Declares(handlers, LevelOrder(roots)[i])
  }

  lemma NoHandlers(byHandler: map<string, Option<string>>, roots: seq<TraceNode>)
    ensures |byHandler| == 0 ==> NoneWithin(byHandler.Keys, roots)
  {
    if |byHandler| == 0 {
      assert byHandler == map[];
    }
  }

  lemma FirstIsFound(handlers: set<string>, roots: seq<TraceNode>, i: nat)
    requires i < |LevelOrder(roots)| && i < 200 && Declares(handlers, LevelOrder(roots)[i])
    requires forall j :: 0 <= j < i ==> !Declares(handlers, LevelOrder(roots)[j])
    ensures FoundWithin(handlers, roots, Key(LevelOrder(roots)[i])) && !NoneWithin(handlers, roots)
  {
    var depth := FirstIsShallowest(handlers, roots, i);
    assert ShallowestSpan(handlers, roots, LevelOrder(roots)[i]);
  }

  /** Where the search is: what it has read is the front of the level order, and what
      the queue still gives out is the rest. */
  ghost predicate SearchedSoFar(order: seq<TraceNode>, queue: seq<TraceNode>, searched: nat)
    requires searched <= |queue|
  {
    order == queue[..searched] + Dequeued(queue[searched..])
  }

  lemma SearchOneMore(order: seq<TraceNode>, queue: seq<TraceNode>, searched: nat)
    requires searched < |queue| && SearchedSoFar(order, queue, searched)
    ensures searched < |order| && order[searched] == queue[searched]
    ensures var longer := queue + queue[searched].children;
      && SearchedSoFar(order, longer, searched + 1)
      && Count(longer[searched + 1..]) < Count(queue[searched..])
  {
    var rest, node := queue[searched..], queue[searched];
    var longer := queue + node.children;
    assert rest[0] == node && longer[searched + 1..] == rest[1..] + node.children;
    assert longer[..searched + 1] == queue[..searched] + [node];
    assert Dequeued(rest) == [node] + Dequeued(rest[1..] + node.children);
    Assoc(queue[..searched], [node], Dequeued(rest[1..] + node.children));
    CountConcat(rest[1..], node.children);
  }

  lemma SearchIsOver(order: seq<TraceNode>, queue: seq<TraceNode>)
    requires SearchedSoFar(order, queue, |queue|)
    ensures order == queue
  {
    assert queue[|queue|..] == [] && queue[..|queue|] == queue;
  }

  lemma SearchStarts(roots: seq<TraceNode>)
    ensures SearchedSoFar(LevelOrder(roots), roots, 0)
  {
    QueueIsLevelOrder(roots);
    assert roots[0..] == roots && roots[..0] == [];
  }

  /** Breadth first, over a queue that grows as it is read, two hundred spans at most. */
  method HandlerOf(handlers: set<string>, roots: seq<TraceNode>) returns (handler: Option<string>)
    ensures handler.Some? ==> handler.value in handlers && FoundWithin(handlers, roots, handler.value)
    ensures handler.None? <==> NoneWithin(handlers, roots)
  {
    hide LevelOrder, FoundWithin, SearchedSoFar, Key, Count;
    ghost var order := LevelOrder(roots);
    SearchStarts(roots);
    var queue := roots;
    var searched := 0;
    while searched < |queue|
      invariant 0 <= searched <= |queue| && searched <= MAX_SPANS_SEARCHED && searched <= |order|
      invariant SearchedSoFar(order, queue, searched)
      invariant forall i :: 0 <= i < searched ==> !Declares(handlers, order[i])
      decreases Count(queue[searched..])
    {
      if searched >= MAX_SPANS_SEARCHED {
        return None;
      }
      var node := queue[searched];
      SearchOneMore(order, queue, searched);
      if Key(node) in handlers {
        FirstIsFound(handlers, roots, searched);
        return Some(Key(node));
      }
      queue := queue + node.children;
      searched := searched + 1;
    }
    SearchIsOver(order, queue);
    return None;
  }

  // ----- stating a declaration ------------------------------------------------------------

  /** A finished request: its route, whether the application renamed it, its verb where
      it has one, and its tree. */
  datatype Request = Request(operationId: Option<string>, renamed: bool, verb: Option<string>, traces: seq<TraceNode>)

  datatype Declaration = Declaration(handler: string, operationId: string, verb: Option<string>)

  datatype Statement = Statement(route: string, at: nat)

  function RouteOf(handler: string, verb: Option<string>, operationId: string): string {
    handler + " " + (if verb.Some? then verb.value else "") + " " + operationId
  }

  predicate OneWord(s: string) {
    forall i :: 0 <= i < |s| ==> s[i] != ' '
  }

  lemma {:induction false} FirstWord(a: string, b: string, rest: string, more: string)
    requires OneWord(a) && OneWord(b) && a + " " + rest == b + " " + more
    ensures a == b && rest == more
    decreases |a|
  {
    var text := a + " " + rest;
    assert text[0] == (if a == "" then ' ' else a[0]) == (if b == "" then ' ' else b[0]);
    if a == "" || b == "" {
      assert a == b;
      assert text[1..] == rest && text[1..] == more;
    } else {
      assert text[1..] == a[1..] + " " + rest == b[1..] + " " + more;
      assert a == [a[0]] + a[1..] && b == [b[0]] + b[1..];
      FirstWord(a[1..], b[1..], rest, more);
    }
  }

  /** Routes are told apart: by handler, by verb and by what is routed. */
  lemma RoutesApart(handler: string, verb: Option<string>, operationId: string, handler': string, verb': Option<string>, operationId': string)
    requires OneWord(handler) && OneWord(handler') && (verb.Some? ==> OneWord(verb.value)) && (verb'.Some? ==> OneWord(verb'.value))
    requires verb != Some("") && verb' != Some("")
    ensures RouteOf(handler, verb, operationId) == RouteOf(handler', verb', operationId')
       <==> handler == handler' && verb == verb' && operationId == operationId'
  {
    if RouteOf(handler, verb, operationId) == RouteOf(handler', verb', operationId') {
      var v, v' := if verb.Some? then verb.value else "", if verb'.Some? then verb'.value else "";
      assert RouteOf(handler, verb, operationId) == handler + " " + (v + " " + operationId);
      assert RouteOf(handler', verb', operationId') == handler' + " " + (v' + " " + operationId');
      FirstWord(handler, handler', v + " " + operationId, v' + " " + operationId');
      FirstWord(v, v', operationId, operationId');
    }
  }

  /** Two statements of one route are an hour apart at least. */
  ghost predicate Spaced(h: seq<Statement>) {
    forall i, j :: 0 <= i < j < |h| && h[i].route == h[j].route ==> h[j].at - h[i].at >= 3600000
  }

  class Registry {
    /** By handler, the method it is routed for, if it is for one. */
    const byHandler: map<string, Option<string>>
    var statedAt: map<string, nat>
    ghost var statements: seq<Statement>

    /** Each route's latest statement is on record, and none came within the hour. */
    ghost predicate Valid()
      reads this
    {
      && Spaced(statements)
      && (forall i :: 0 <= i < |statements| ==> statements[i].route in statedAt && statements[i].at <= statedAt[statements[i].route])
      && (forall r :: r in statedAt ==> Statement(r, statedAt[r]) in statements)
    }

    constructor (byHandler: map<string, Option<string>>)
      ensures Valid() && statements == [] && this.byHandler == byHandler
    {
      this.byHandler := byHandler;
      statedAt := map[];
      statements := [];
    }

    /** Whether a request of this handler is one that may be declared: not renamed, and
        its route not too long. */
    predicate MayDeclare(r: Request) {
      r.operationId.Some? && r.operationId.value != "" && !r.renamed && |r.operationId.value| <= 255
    }

    function RouteFor(handler: string, r: Request): string
      requires handler in byHandler && r.operationId.Some?
    {
      RouteOf(handler, if byHandler[handler].Some? then byHandler[handler] else r.verb, r.operationId.value)
    }

    predicate Due(route: string, now: nat)
      reads this
    {
      route !in statedAt || now - statedAt[route] >= 3600000
    }

    method DeclarationFor(r: Request, now: nat) returns (d: Option<Declaration>)
      requires Valid()
      modifies this
      ensures Valid()
      ensures d.Some? ==>
        && MayDeclare(r) && d.value.handler in byHandler
        && FoundWithin(byHandler.Keys, r.traces, d.value.handler)
        && d.value.operationId == r.operationId.value
        && d.value.verb == (if byHandler[d.value.handler].Some? then byHandler[d.value.handler] else r.verb)
        && old(Due(RouteOf(d.value.handler, d.value.verb, d.value.operationId), now))
        && statements == old(statements) + [Statement(RouteOf(d.value.handler, d.value.verb, d.value.operationId), now)]
      ensures d.None? ==> statements == old(statements)
      ensures d.None? && MayDeclare(r) && !NoneWithin(byHandler.Keys, r.traces)
        ==> exists handler :: handler in byHandler && FoundWithin(byHandler.Keys, r.traces, handler) && !old(Due(RouteFor(handler, r), now))
    {
      hide FoundWithin, NoneWithin;
      if |byHandler| == 0 || r.operationId.None? || r.operationId.value == "" {
        NoHandlers(byHandler, r.traces);
        return None;
      }
      var handler := HandlerOf(byHandler.Keys, r.traces);
      if handler.None? || r.renamed {
        return None;
      }
      if |r.operationId.value| > MAX_ROUTE_LENGTH {
        return None;
      }
      var route := RouteFor(handler.value, r);
      if route in statedAt && now - statedAt[route] < RESTATE_EVERY_MS {
        assert !Due(route, now);
        return None;
      }
      statedAt := statedAt[route := now];
      statements := statements + [Statement(route, now)];
      var routed := byHandler[handler.value];
      return Some(Declaration(handler.value, r.operationId.value, if routed.Some? then routed else r.verb));
    }

    /** What a request adds to the batch's declarations: one at most, none past the
        hundredth; and what is stated is the route of the declaration the batch takes. */
    method Declare(objectives: seq<Declaration>, r: Request, now: nat) returns (more: seq<Declaration>)
      requires Valid() && |objectives| <= 100
      modifies this
      ensures Valid() && |more| <= 100
      ensures |more| >= |objectives|
      ensures |more| == |objectives| && |objectives| < 100 && MayDeclare(r) && !NoneWithin(byHandler.Keys, r.traces)
        ==> exists handler :: handler in byHandler && FoundWithin(byHandler.Keys, r.traces, handler) && !old(Due(RouteFor(handler, r), now))
      ensures if |more| == |objectives| then more == objectives && statements == old(statements)
        else
          var d := more[|objectives|];
          && more == objectives + [d]
          && d.handler in byHandler && FoundWithin(byHandler.Keys, r.traces, d.handler)
          && r.operationId == Some(d.operationId)
          && statements == old(statements) + [Statement(RouteOf(d.handler, d.verb, d.operationId), now)]
    {
      more := objectives;
      if |objectives| < MAX_OBJECTIVES_PER_BATCH {
        var declaration := DeclarationFor(r, now);
        if declaration.Some? {
          more := more + [declaration.value];
        }
      }
    }
  }
}
