/** The queue of spans on their way to an OTLP receiver of the application's own: bounded,
    one batch in flight, a failed batch back at the front. */
module TraceExporter {
  import opened Backoff

  datatype Option<+T> = None | Some(value: T)

  const MAX_QUEUED_SPANS: nat := 10000
  const MAX_BATCH_SPANS: nat := 1000
  const RETRY_BASE_MS: nat := 1000
  const RETRY_MAX_MS: nat := 60000
  const RETRY_AFTER_MAX_MS: nat := 300000

  /** How a send ends. `retryAfterMs` is what the receiver's Retry-After comes to, where
      it is a number at all. */
  datatype Reply =
    | EncodingFailed
    | Unreachable
    | Answered(status: nat, retryAfterMs: Option<int>)

  predicate Retryable(status: nat) {
    status == 429 || status == 502 || status == 503 || status == 504
  }

  predicate Accepts(status: nat) {
    200 <= status < 300
  }

  /** Four statuses are tried again, and no other. */
  lemma StatusesTriedAgain(status: nat, closed: bool, queued: nat, batch: nat, retryAfterMs: Option<int>)
    requires queued + batch <= 10000
    ensures LeavesAs(Answered(status, retryAfterMs), closed, queued, batch) ==
      if 200 <= status <= 299 then Some(Exported)
      else if status in {429, 502, 503, 504} then None
      else Some(TurnedAway)
  {
  }

  /** What became of a span that has left the exporter. */
  datatype Fate = Exported | NotEncoded | TurnedAway | CutOffAtClose | DroppedForRoom

  /** A span, by its identity. */
  type Span = nat

  datatype Settled = Settled(span: Span, fate: Fate)

  function Settle(spans: seq<Span>, fate: Fate): (r: seq<Settled>)
    ensures |r| == |spans|
  {
    seq(|spans|, i requires 0 <= i < |spans| => Settled(spans[i], fate))
  }

  function SpansOf(settled: seq<Settled>): (r: seq<Span>)
    ensures |r| == |settled|
  {
    seq(|settled|, i requires 0 <= i < |settled| => settled[i].span)
  }

  lemma SettleConcat(settled: seq<Settled>, spans: seq<Span>, fate: Fate)
    ensures SpansOf(settled + Settle(spans, fate)) == SpansOf(settled) + spans
  {
  }

  // ----- operations and the batches that part them --------------------------------------

  /** The spans of the operations accepted, one operation after the other. */
  function Flat(operations: seq<seq<Span>>): seq<Span> {
    if operations == [] then [] else Flat(operations[..|operations| - 1]) + operations[|operations| - 1]
  }

  lemma AssocSpans(a: seq<Span>, b: seq<Span>, c: seq<Span>)
    ensures a + b + c == a + (b + c)
  {
  }

  lemma FlatOneMore(operations: seq<seq<Span>>, spans: seq<Span>)
    ensures Flat(operations + [spans]) == Flat(operations) + spans
  {
    assert (operations + [spans])[..|operations|] == operations;
  }

  /** Where an operation's spans begin among all those accepted. */
  function Start(operations: seq<seq<Span>>, k: nat): nat
    requires k < |operations|
  {
    |Flat(operations[..k])|
  }

  /** A place among the spans accepted that is one of the operation's. */
  predicate Within(operations: seq<seq<Span>>, k: nat, place: nat)
    requires k < |operations|
  {
    Start(operations, k) <= place < Start(operations, k) + |operations[k]|
  }

  /** Of the operation's spans some are in the stretch and some are not. */
  ghost predicate Cuts(operations: seq<seq<Span>>, k: nat, from: nat, to: nat)
    requires k < |operations|
  {
    && (exists i: nat :: Within(operations, k, i) && from <= i < to)
    && (exists j: nat :: Within(operations, k, j) && !(from <= j < to))
  }

  /** A place between two of an operation's spans. */
  predicate Inside(operations: seq<seq<Span>>, k: nat, place: nat)
    requires k < |operations|
  {
    Start(operations, k) < place < Start(operations, k) + |operations[k]|
  }

  /** A batch takes an operation apart exactly when one of its ends lies inside it. */
  lemma CutExactlyAtABoundary(operations: seq<seq<Span>>, k: nat, from: nat, to: nat)
    requires k < |operations| && from < to
    ensures Cuts(operations, k, from, to) <==> Inside(operations, k, from) || Inside(operations, k, to)
  {
    var start, end := Start(operations, k), Start(operations, k) + |operations[k]|;
    if Inside(operations, k, from) {
      assert Within(operations, k, from) && Within(operations, k, from - 1);
    } else if Inside(operations, k, to) {
      assert Within(operations, k, to - 1) && Within(operations, k, to);
    } else if Cuts(operations, k, from, to) {
      var i: nat :| Within(operations, k, i) && from <= i < to;
      var j: nat :| Within(operations, k, j) && !(from <= j < to);
      assert false;
    }
  }

  /** Where two spans fared differently, a batch ended between them. */
  ghost predicate OneFateABatch(settled: seq<Settled>, ends: set<nat>) {
    forall i, j :: 0 <= i < j < |settled| && settled[i].fate != settled[j].fate ==> exists e :: e in ends && i < e <= j
  }

  lemma OneFateMore(settled: seq<Settled>, ends: set<nat>, spans: seq<Span>, fate: Fate)
    requires OneFateABatch(settled, ends)
    ensures OneFateABatch(settled + Settle(spans, fate), ends + {|settled|})
  {
    var more, all := settled + Settle(spans, fate), ends + {|settled|};
    forall i, j | 0 <= i < j < |more| && more[i].fate != more[j].fate
      ensures exists e :: e in all && i < e <= j
    {
      if j < |settled| {
        assert settled[i].fate != settled[j].fate;
        var e :| e in ends && i < e <= j;
        assert e in all;
      } else {
        assert i < |settled| && |settled| in all;
      }
    }
  }

  /** From there on nothing has left but by being exported. */
  ghost predicate OnlyExports(settled: seq<Settled>, from: nat) {
    from <= |settled| && forall i :: from <= i < |settled| ==> settled[i].fate == Exported
  }

  lemma MoreExported(settled: seq<Settled>, from: nat, batch: seq<Span>)
    ensures OnlyExports(settled, from) ==> OnlyExports(settled + Settle(batch, Exported), from)
  {
  }

  /** What a reply does to the batch it answers. */
  function FateOf(reply: Reply, closed: bool): Option<Fate> {
    match reply
    case EncodingFailed => Some(NotEncoded)
    case Unreachable => if closed then Some(CutOffAtClose) else None
    case Answered(status, _) =>
      if Accepts(status) then Some(Exported) else if Retryable(status) then None else Some(TurnedAway)
  }

  /** How a batch leaves, if it does: the reply's own way, or for want of room in a queue
      that cannot take it back. */
  function LeavesAs(reply: Reply, closed: bool, queued: nat, batch: nat): Option<Fate> {
    var fate := FateOf(reply, closed);
    if fate.Some? then fate else if queued + batch > MAX_QUEUED_SPANS then Some(DroppedForRoom) else None
  }

  /** The receiver's own wait, up to five minutes, wins over the backoff. */
  function Delay(backoff: nat, retryAfterMs: Option<int>): (delay: nat)
    ensures delay <= if backoff > 300000 then backoff else 300000
  {
    if retryAfterMs.Some? && retryAfterMs.value > 0 then Min(retryAfterMs.value, RETRY_AFTER_MAX_MS) else backoff
  }

  /** What the receiver asks for counts from its first millisecond, up to five minutes. */
  lemma DelayMeans(backoff: nat, retryAfterMs: Option<int>)
    ensures Delay(backoff, retryAfterMs) ==
      match retryAfterMs
      case Some(ms) => if ms >= 300000 then 300000 else if ms >= 1 then ms else backoff
      case None => backoff
  {
  }

  class Exporter {
    var queue: seq<Span>
    var sending: Option<seq<Span>>
    var closed: bool
    var shuttingDown: bool
    var retryNotBefore: nat
    var retryDelayMs: nat
    var lastSendFailed: bool
    var droppedSpans: nat
    ghost var operations: seq<seq<Span>>
    ghost var accepted: seq<Span>
    ghost var ends: set<nat>
    ghost var settled: seq<Settled>
    ghost var refused: seq<seq<Span>>
    ghost var failures: nat

    ghost function InFlight(): seq<Span>
      reads this`sending
    {
      if sending.Some? then sending.value else []
    }

    /** Every span accepted is settled, in flight or queued, in the order it came; the
        queue and the batch are bounded; and the wait is that of the failures in a row. */
    ghost predicate Valid()
      reads this`queue, this`sending, this`settled, this`ends, this`operations, this`accepted, this`retryDelayMs, this`failures
    {
      && accepted == Flat(operations)
      && accepted == SpansOf(settled) + InFlight() + queue
      && OneFateABatch(settled, ends)
      && |queue| <= 10000
      && |InFlight()| <= 1000
      && (sending.Some? ==> sending.value != [])
      && retryDelayMs == After(1000, 60000, failures)
    }

    constructor ()
      ensures Valid() && operations == [] && settled == [] && refused == [] && failures == 0
      ensures queue == [] && sending.None? && !closed && !shuttingDown && retryNotBefore == 0
    {
      queue, sending, closed, shuttingDown := [], None, false, false;
      retryNotBefore, retryDelayMs, lastSendFailed, droppedSpans := 0, 0, false, 0;
      operations, accepted, ends, settled, refused, failures := [], [], {}, [], [], 0;
    }

    /** Whether an export starts now. */
    predicate CanSend(now: nat)
      reads this
    {
      sending.None? && queue != [] && now >= retryNotBefore
    }

    method Flush(now: nat)
      requires Valid()
      modifies this`queue, this`sending
      ensures Valid()
      ensures if old(CanSend(now)) then
          && sending.Some? && sending.value + queue == old(queue)
          && |sending.value| == Min(|old(queue)|, 1000)
        else queue == old(queue) && sending == old(sending)
    {
      if sending.Some? || |queue| == 0 || now < retryNotBefore {
        return;
      }
      var size := Min(|queue|, MAX_BATCH_SPANS);
      var batch := queue[..size];
      assert batch + queue[size..] == queue;
      TakenFromTheQueue(SpansOf(settled), batch, queue[size..]);
      queue := queue[size..];
      sending := Some(batch);
    }

    lemma TakenFromTheQueue(before: seq<Span>, batch: seq<Span>, rest: seq<Span>)
      ensures before + [] + (batch + rest) == before + batch + rest
    {
    }

    /** An operation's spans are queued together or not at all. */
    method Enqueue(spans: seq<Span>, now: nat)
      requires Valid()
      modifies this`queue, this`sending, this`droppedSpans, this`operations, this`accepted, this`refused
      ensures Valid()
      ensures if |old(queue)| + |spans| > 10000 then
          && queue == old(queue) && sending == old(sending) && operations == old(operations)
          && refused == old(refused) + [spans] && droppedSpans == old(droppedSpans) + |spans|
        else
          && operations == old(operations) + [spans] && refused == old(refused) && droppedSpans == old(droppedSpans)
          && (if |old(queue) + spans| >= 1000 && old(sending).None? && now >= retryNotBefore then
                sending.Some? && sending.value + queue == old(queue) + spans && |sending.value| == 1000
              else queue == old(queue) + spans && sending == old(sending))
    {
      hide Flat, SpansOf, OneFateABatch, After;
      if |queue| + |spans| > MAX_QUEUED_SPANS {
        droppedSpans := droppedSpans + |spans|;
        refused := refused + [spans];
        return;
      }
      FlatOneMore(operations, spans);
      AssocSpans(SpansOf(settled) + InFlight(), queue, spans);
      queue := queue + spans;
      operations, accepted := operations + [spans], accepted + spans;
      if |queue| >= MAX_BATCH_SPANS {
        Flush(now);
      }
    }

    /** The batch has left for good. */
    ghost method Leave(batch: seq<Span>, fate: Fate)
      requires Valid() && sending == Some(batch)
      modifies this`settled, this`ends
      ensures settled == old(settled) + Settle(batch, fate) && OneFateABatch(settled, ends)
      ensures ends == old(ends) + {|old(settled)|}
      ensures accepted == SpansOf(settled) + [] + queue
    {
      SettleConcat(settled, batch, fate);
      OneFateMore(settled, ends, batch, fate);
      ends := ends + {|settled|};
      settled := settled + Settle(batch, fate);
      assert SpansOf(settled) + [] == SpansOf(settled);
    }

    /** The next wait: the last one doubled, or the receiver's own. */
    method HoldBack(retryAfterMs: Option<int>, now: nat)
      requires retryDelayMs == After(1000, 60000, failures)
      modifies this`retryDelayMs, this`retryNotBefore, this`failures
      ensures failures == old(failures) + 1 && retryDelayMs == After(1000, 60000, failures)
      ensures retryNotBefore == now + Delay(retryDelayMs, retryAfterMs)
    {
      NextIsAfter(RETRY_BASE_MS, RETRY_MAX_MS, failures);
      failures := failures + 1;
      retryDelayMs := if retryDelayMs == 0 then RETRY_BASE_MS else Min(retryDelayMs * 2, RETRY_MAX_MS);
      retryNotBefore := now + Delay(retryDelayMs, retryAfterMs);
    }

    /** Back to the front if it still fits, and the next wait. */
    method RetryLater(batch: seq<Span>, retryAfterMs: Option<int>, now: nat)
      requires Valid() && sending == Some(batch)
      modifies this`queue, this`sending, this`settled, this`ends, this`droppedSpans, this`lastSendFailed
      modifies this`retryDelayMs, this`retryNotBefore, this`failures
      ensures Valid() && sending.None? && lastSendFailed
      ensures closed == old(closed) && shuttingDown == old(shuttingDown)
      ensures operations == old(operations) && accepted == old(accepted) && refused == old(refused)
      ensures failures == old(failures) + 1
      ensures retryNotBefore == now + Delay(retryDelayMs, retryAfterMs)
      ensures if |old(queue)| + |batch| <= 10000 then
          queue == batch + old(queue) && settled == old(settled) && droppedSpans == old(droppedSpans)
        else
          && queue == old(queue) && settled == old(settled) + Settle(batch, DroppedForRoom)
          && droppedSpans == old(droppedSpans) + |batch|
    {
      hide SpansOf, Settle, After, Delay, Flat, OneFateABatch;
      lastSendFailed := true;
      if |queue| + |batch| <= MAX_QUEUED_SPANS {
        TakenFromTheQueue(SpansOf(settled), batch, queue);
        queue := batch + queue;
      } else {
        Leave(batch, DroppedForRoom);
        droppedSpans := droppedSpans + |batch|;
      }
      sending := None;
      HoldBack(retryAfterMs, now);
    }

    /** What a reply counts for in the row of failures. */
    static function FailuresAfter(reply: Reply, closed: bool, failures: nat): nat {
      match reply
      case EncodingFailed => failures
      case Unreachable => if closed then failures else failures + 1
      case Answered(status, _) => if Accepts(status) then 0 else if Retryable(status) then failures + 1 else failures
    }

    method Recovered()
      requires Valid()
      modifies this`lastSendFailed, this`retryDelayMs, this`retryNotBefore, this`droppedSpans, this`failures
      ensures Valid() && failures == 0 && droppedSpans == 0 && retryNotBefore == 0 && !lastSendFailed
    {
      lastSendFailed, retryDelayMs, retryNotBefore, droppedSpans := false, 0, 0, 0;
      failures := 0;
    }

    /** The batch in flight is settled or put back. */
    method Receive(reply: Reply, now: nat)
      requires Valid() && sending.Some?
      modifies this`queue, this`sending, this`settled, this`ends, this`droppedSpans, this`lastSendFailed
      modifies this`retryDelayMs, this`retryNotBefore, this`failures
      ensures Valid() && operations == old(operations) && accepted == old(accepted) && refused == old(refused) && sending.None?
      ensures closed == old(closed) && shuttingDown == old(shuttingDown)
      ensures var fate := LeavesAs(reply, closed, |old(queue)|, |old(sending).value|);
        if fate.Some? then
          settled == old(settled) + Settle(old(sending).value, fate.value) && queue == old(queue)
        else
          settled == old(settled) && queue == old(sending).value + old(queue)
      ensures failures == FailuresAfter(reply, closed, old(failures))
      ensures reply.Answered? && 200 <= reply.status <= 299 ==> droppedSpans == 0 && retryNotBefore == 0
      ensures lastSendFailed == if reply.Answered? && 200 <= reply.status <= 299 then false else if reply.Unreachable? && closed then old(lastSendFailed) else true
    {
      hide SpansOf, Settle, After, Flat, OneFateABatch;
      var batch := sending.value;
      match reply {
        case EncodingFailed =>
          Leave(batch, NotEncoded);
          lastSendFailed := true;
        case Unreachable =>
          if closed {
            Leave(batch, CutOffAtClose);
          } else {
            RetryLater(batch, None, now);
          }
        case Answered(status, retryAfterMs) =>
          if Accepts(status) {
            Recovered();
            Leave(batch, Exported);
          } else if Retryable(status) {
            RetryLater(batch, retryAfterMs, now);
          } else {
            Leave(batch, TurnedAway);
            lastSendFailed := true;
          }
      }
      sending := None;
    }

    /** The end of a send; a full batch left behind goes straight out. */
    method SendEnds(reply: Reply, now: nat)
      requires Valid() && sending.Some?
      modifies this`queue, this`sending, this`settled, this`ends, this`droppedSpans, this`lastSendFailed
      modifies this`retryDelayMs, this`retryNotBefore, this`failures
      ensures Valid() && operations == old(operations) && accepted == old(accepted) && refused == old(refused)
      ensures closed == old(closed) && shuttingDown == old(shuttingDown)
      ensures var fate := LeavesAs(reply, closed, |old(queue)|, |old(sending).value|);
        if fate.Some? then
          settled == old(settled) + Settle(old(sending).value, fate.value) && InFlight() + queue == old(queue)
        else
          settled == old(settled) && InFlight() + queue == old(sending).value + old(queue)
      ensures forall k :: 0 <= k < |operations| ==>
        (Cuts(operations, k, |old(settled)|, |settled|) <==>
          && LeavesAs(reply, closed, |old(queue)|, |old(sending).value|).Some?
          && (Inside(operations, k, |old(settled)|) || Inside(operations, k, |old(settled)| + |old(sending).value|)))
      ensures failures == FailuresAfter(reply, closed, old(failures))
      ensures sending.Some? <==> |InFlight() + queue| >= 1000 && !shuttingDown && now >= retryNotBefore
      ensures reply.Answered? && 200 <= reply.status <= 299 ==> retryNotBefore == 0
      ensures lastSendFailed == if reply.Answered? && 200 <= reply.status <= 299 then false else if reply.Unreachable? && closed then old(lastSendFailed) else true
    {
      hide SpansOf, Settle, After, Flat, OneFateABatch;
      ghost var was := settled;
      ghost var size := |sending.value|;
      Receive(reply, now);
      forall k | 0 <= k < |operations|
        ensures Cuts(operations, k, |was|, |settled|) <==>
          |settled| > |was| && (Inside(operations, k, |was|) || Inside(operations, k, |was| + size))
      {
        if |settled| > |was| {
          CutExactlyAtABoundary(operations, k, |was|, |settled|);
        }
      }
      hide Cuts, Inside;
      if |queue| >= MAX_BATCH_SPANS && !shuttingDown {
        Flush(now);
      }
    }

    /** What was exported is part of what was accepted, in the order it was accepted. */
    lemma ExportedInOrder()
      requires Valid()
      ensures Subsequence(ExportedOf(settled), accepted)
    {
      ExportedIsPart(settled);
      assert accepted == SpansOf(settled) + (InFlight() + queue);
      SubsequenceOfMore(ExportedOf(settled), SpansOf(settled), InFlight() + queue);
    }

    /** Where two spans of one operation fared differently, whatever the two fates, a batch
        ended inside the operation, between them. */
    lemma FaredDifferently(k: nat, i: nat, j: nat)
      requires Valid() && k < |operations| && Within(operations, k, i) && Within(operations, k, j)
      requires i < j < |settled| && settled[i].fate != settled[j].fate
      ensures exists e :: e in ends && i < e <= j && Inside(operations, k, e)
    {
      var e :| e in ends && i < e <= j;
      assert Inside(operations, k, e);
    }

    /** Turns the drain still needs where every send is accepted: two a batch, one for a
        batch in flight. */
    ghost function TurnsLeft(): nat
      reads this`queue, this`sending
    {
      2 * ((|queue| + 999) / 1000) + if sending.Some? then 1 else 0
    }

    /** So far into a drain in which every send was accepted: what has gone since was
        exported, and what has not is still in its place. */
    ghost predicate ExportedSince(settledBefore: seq<Settled>, left: seq<Span>)
      reads this`queue, this`sending, this`settled
    {
      && |settledBefore| <= |settled|
      && |settled| - |settledBefore| <= |left|
      && settled == settledBefore + Settle(left[..|settled| - |settledBefore|], Exported)
      && InFlight() + queue == left[|settled| - |settledBefore|..]
    }

    lemma OneMoreExported(settledBefore: seq<Settled>, left: seq<Span>, batch: seq<Span>, queued: seq<Span>, before: seq<Settled>)
      requires |settledBefore| <= |before| && |before| - |settledBefore| <= |left|
      requires before == settledBefore + Settle(left[..|before| - |settledBefore|], Exported)
      requires batch + queued == left[|before| - |settledBefore|..]
      requires settled == before + Settle(batch, Exported) && InFlight() + queue == queued
      ensures ExportedSince(settledBefore, left)
    {
      var n := |before| - |settledBefore|;
      assert left[..n + |batch|] == left[..n] + batch by {
        assert left == left[..n] + (batch + queued);
      }
      assert left[n + |batch|..] == queued;
    }

    /** The turn of a drain that finds a send under way. */
    method TakeReply(turn: Turn, ghost before: seq<Settled>, ghost left: seq<Span>)
      requires Valid() && shuttingDown && sending.Some?
      modifies this
      ensures Valid() && shuttingDown && closed == old(closed)
      ensures Accepting(turn) && old(ExportedSince(before, left)) ==>
        ExportedSince(before, left) && TurnsLeft() + 1 == old(TurnsLeft()) && !lastSendFailed
      ensures !lastSendFailed && !closed && old(OnlyExports(settled, |before|)) ==> OnlyExports(settled, |before|)
    {
      hide SpansOf, Settle, After, Flat, OneFateABatch;
      ghost var batch, queued, was := sending.value, queue, settled;
      ghost var counts := Accepting(turn) && ExportedSince(before, left);
      if turn.reply.Some? {
        SendEnds(turn.reply.value, turn.now);
      }
      MoreExported(was, |before|, batch);
      if counts {
        OneMoreExported(before, left, batch, queued, was);
      }
    }

    /** The turn that finds none, and something to send: no wait holds it back. */
    method SendNext(now: nat, ghost before: seq<Settled>, ghost left: seq<Span>)
      requires Valid() && shuttingDown && sending.None? && queue != []
      modifies this`queue, this`sending, this`retryNotBefore
      ensures Valid() && shuttingDown && closed == old(closed)
      ensures sending.Some? && sending.value + queue == old(queue)
      ensures ExportedSince(before, left) == old(ExportedSince(before, left))
      ensures TurnsLeft() + 1 == old(TurnsLeft())
    {
      hide SpansOf, Settle, After, Flat, OneFateABatch;
      retryNotBefore := 0;
      Flush(now);
    }

    /** Exports what is left, until a send fails, time is up, or nothing is left. The
        clock reaches the deadline by the turn `last`. */
    method Drain(env: nat -> Turn, deadline: nat, ghost last: nat) returns (end: DrainEnd, turns: nat)
      requires Valid() && shuttingDown && env(last).uptime >= deadline
      modifies this
      ensures Valid() && turns <= last && shuttingDown && closed == old(closed)
      ensures end == NothingLeft ==> queue == [] && sending.None? && !env(turns).awaitingCompletion && env(turns).uptime < deadline
      ensures end == SendFailed ==> lastSendFailed
      ensures end == TimeIsUp ==> env(turns).uptime >= deadline
      ensures AllAccepted(env, turns + 1) ==> ExportedSince(old(settled), old(InFlight() + queue))
      ensures AllAccepted(env, turns + 1) && end != NothingLeft ==> end == TimeIsUp && turns <= old(TurnsLeft())
      ensures end != SendFailed && !closed ==> OnlyExports(settled, |old(settled)|)
    {
      hide Valid, AllAccepted, Accepting, ExportedSince, TurnsLeft, OnlyExports;
      turns := 0;
      ghost var before, left, most := settled, InFlight() + queue, TurnsLeft();
      NothingExportedYet();
      OneMoreTurn(env, 0);
      while true
        invariant Valid() && shuttingDown && closed == old(closed) && turns <= last
        invariant AllAccepted(env, turns) ==> ExportedSince(before, left) && turns + TurnsLeft() <= most
        invariant !closed ==> OnlyExports(settled, |before|)
        decreases last - turns
      {
        var turn := env(turns);
        OneMoreTurn(env, turns);
        if turn.uptime >= deadline {
          return TimeIsUp, turns;
        }
        if sending.Some? {
          TakeReply(turn, before, left);
          if lastSendFailed {
            return SendFailed, turns;
          }
          EnqueueAll(turn.finished, turn.now);
        } else if turn.awaitingCompletion {
          EnqueueAll(turn.finished, turn.now);
        } else if |queue| == 0 {
          return NothingLeft, turns;
        } else {
          SendNext(turn.now, before, left);
        }
        turns := turns + 1;
      }
    }

    lemma NothingExportedYet()
      ensures ExportedSince(settled, InFlight() + queue) && OnlyExports(settled, |settled|)
    {
    }

    /** Drains for as long as it may, and lets go of the connection: what is in flight
        then and fails is not put back any more. */
    method ShutDown(env: nat -> Turn, started: nat, timeoutMs: nat, ghost last: nat)
      returns (end: Option<DrainEnd>, ghost turns: nat)
      requires Valid() && env(last).uptime >= started + timeoutMs
      modifies this
      ensures Valid() && shuttingDown && closed
      ensures end.None? <==> timeoutMs == 0
      ensures end == Some(NothingLeft) ==> queue == [] && sending.None?
      ensures end == Some(SendFailed) ==> lastSendFailed
      ensures end != Some(SendFailed) && !old(closed) ==> OnlyExports(settled, |old(settled)|)
      ensures timeoutMs > 0 && AllAccepted(env, turns + 1) ==>
        ExportedSince(old(settled), old(InFlight() + queue)) && (turns > old(TurnsLeft()) ==> end == Some(NothingLeft))
    {
      hide Valid, AllAccepted, ExportedSince, TurnsLeft, Flat, Settle, SpansOf;
      shuttingDown := true;
      end, turns := None, 0;
      if timeoutMs > 0 {
        var drained;
        drained, turns := Drain(env, started + timeoutMs, last);
        end := Some(drained);
      }
      closed := true;
    }

    method EnqueueAll(finished: seq<seq<Span>>, now: nat)
      requires Valid()
      modifies this`queue, this`sending, this`droppedSpans, this`operations, this`accepted, this`refused
      ensures Valid() && shuttingDown == old(shuttingDown) && closed == old(closed)
      ensures finished == [] ==> TurnsLeft() == old(TurnsLeft())
      ensures finished == [] ==> forall before, left :: ExportedSince(before, left) <==> old(ExportedSince(before, left))
    {
      for i := 0 to |finished|
        invariant Valid() && shuttingDown == old(shuttingDown) && closed == old(closed)
        invariant finished == [] ==> queue == old(queue) && sending == old(sending) && settled == old(settled)
      {
        Enqueue(finished[i], now);
      }
    }
  }

  /** What one turn of the final drain finds: how a send ended in it, if one did, and the
      operations that finished meanwhile. */
  datatype Turn = Turn(uptime: nat, now: nat, reply: Option<Reply>, awaitingCompletion: bool, finished: seq<seq<Span>>)

  /** A turn in which a send that is under way ends, accepted, and nothing comes in. */
  predicate Accepting(turn: Turn) {
    && turn.reply.Some? && turn.reply.value.Answered? && 200 <= turn.reply.value.status <= 299
    && !turn.awaitingCompletion && turn.finished == []
  }

  ghost predicate AllAccepted(env: nat -> Turn, n: nat) {
    forall k: nat :: k < n ==> Accepting(env(k))
  }

  lemma OneMoreTurn(env: nat -> Turn, n: nat)
    ensures AllAccepted(env, n + 1) <==> AllAccepted(env, n) && Accepting(env(n))
    ensures Accepting(env(n)) ==> !env(n).awaitingCompletion && env(n).finished == []
    ensures AllAccepted(env, 0)
  {
  }

  datatype DrainEnd = TimeIsUp | SendFailed | NothingLeft

  // ----- trees taken apart ------------------------------------------------------------------

  /** The tree that is dropped in part: a batch to be tried again takes an operation apart
      for good exactly when the queue has no room for it and one of its ends lies inside
      the operation. */
  lemma RetryCutsExactly(reply: Reply, closed: bool, queued: nat, batch: nat, operations: seq<seq<Span>>, k: nat, from: nat)
    requires k < |operations| && batch > 0
    requires if reply.Unreachable? then !closed else reply.Answered? && reply.status in {429, 502, 503, 504}
    ensures LeavesAs(reply, closed, queued, batch) == Some(DroppedForRoom) && Cuts(operations, k, from, from + batch)
       <==> queued + batch > 10000 && (Inside(operations, k, from) || Inside(operations, k, from + batch))
  {
    CutExactlyAtABoundary(operations, k, from, from + batch);
  }

  /** Two trees of 600 spans: the first thousand spans go out, and the second tree's last
      two hundred wait. */
  method SendTwoTrees(first: seq<Span>, second: seq<Span>) returns (e: Exporter)
    requires |first| == 600 && |second| == 600
    ensures fresh(e) && e.Valid() && e.operations == [first, second] && e.settled == []
    ensures e.sending == Some((first + second)[..1000]) && e.queue == (first + second)[1000..]
    ensures e.retryNotBefore == 0 && !e.closed && !e.shuttingDown
  {
    hide SpansOf, After, Flat, OneFateABatch;
    e := new Exporter();
    e.Enqueue(first, 0);
    e.Enqueue(second, 0);
    FirstThousand(first, second, e.sending.value, e.queue);
  }

  /** A tree that spans two batches, its first part dropped on a retry and its last still
      queued: any trees of these sizes, the receiver briefly away. */
  method CutByARetry(first: seq<Span>, second: seq<Span>, others: seq<Span>) returns (e: Exporter)
    requires |first| == 600 && |second| == 600 && |others| == 9500
    ensures fresh(e) && e.Valid() && e.operations == [first, second, others]
    ensures e.settled == Settle((first + second)[..1000], DroppedForRoom) && Cuts(e.operations, 1, 0, 1000)
  {
    hide SpansOf, Settle, After, Flat, OneFateABatch, Start;
    e := SendTwoTrees(first, second);
    e.Enqueue(others, 0);
    TwoTrees(e.operations, first, second);
    e.SendEnds(Answered(503, None), 0);
    CutExactlyAtABoundary(e.operations, 1, 0, 1000);
  }

  method ExportTheFirst(first: seq<Span>, second: seq<Span>) returns (e: Exporter)
    requires |first| == 600 && |second| == 600
    ensures fresh(e) && e.Valid() && e.operations == [first, second]
    ensures e.settled == Settle((first + second)[..1000], Exported)
    ensures e.sending == Some((first + second)[1000..]) && e.queue == []
  {
    hide SpansOf, Settle, After, Flat, OneFateABatch, Start, Cuts;
    e := SendTwoTrees(first, second);
    var rest := (first + second)[1000..];
    e.SendEnds(Answered(200, None), 0);
    assert e.sending.None? && [] + e.queue == e.queue;
    e.Flush(0);
    WholeBatch(e.sending.value, e.queue, rest);
  }

  /** A tree that spans two batches, its first part exported and its last turned away. */
  method CutByARefusal(first: seq<Span>, second: seq<Span>) returns (e: Exporter)
    requires |first| == 600 && |second| == 600
    ensures fresh(e) && e.Valid() && e.operations == [first, second]
    ensures e.settled == Settle((first + second)[..1000], Exported) + Settle((first + second)[1000..], TurnedAway)
    ensures Within(e.operations, 1, 999) && Within(e.operations, 1, 1000)
  {
    hide SpansOf, Settle, After, Flat, OneFateABatch, Start, Cuts;
    e := ExportTheFirst(first, second);
    TwoTrees(e.operations, first, second);
    e.SendEnds(Answered(400, None), 0);
  }

  lemma WholeBatch(batch: seq<Span>, rest: seq<Span>, all: seq<Span>)
    requires batch + rest == all && |batch| == |all|
    ensures batch == all && rest == []
  {
    assert (batch + rest)[..|batch|] == batch;
  }

  lemma FirstThousand(first: seq<Span>, second: seq<Span>, batch: seq<Span>, rest: seq<Span>)
    requires batch + rest == first + second && |batch| == 1000 <= |first + second|
    ensures batch == (first + second)[..1000] && rest == (first + second)[1000..]
  {
    assert (batch + rest)[..1000] == batch && (batch + rest)[1000..] == rest;
  }

  lemma TwoTrees(operations: seq<seq<Span>>, first: seq<Span>, second: seq<Span>)
    requires |operations| >= 2 && operations[0] == first && operations[1] == second && |first| == 600 == |second|
    ensures Start(operations, 1) == 600 && Inside(operations, 1, 1000)
  {
    assert operations[..1] == [first] && [first][..0] == [];
    assert Flat([first]) == Flat([]) + first;
  }

  // ----- order ------------------------------------------------------------------------------

  function ExportedOf(settled: seq<Settled>): seq<Span> {
    if settled == [] then []
    else
      var last := settled[|settled| - 1];
      ExportedOf(settled[..|settled| - 1]) + if last.fate == Exported then [last.span] else []
  }

  ghost predicate Places(places: seq<nat>, part: seq<Span>, all: seq<Span>) {
    && |places| == |part|
    && (forall i :: 0 <= i < |part| ==> places[i] < |all| && all[places[i]] == part[i])
    && (forall i, j :: 0 <= i < j < |part| ==> places[i] < places[j])
  }

  /** The one is the other with some left out. */
  ghost predicate Subsequence(part: seq<Span>, all: seq<Span>) {
    exists places: seq<nat> :: Places(places, part, all)
  }

  lemma SubsequenceOfMore(part: seq<Span>, all: seq<Span>, more: seq<Span>)
    requires Subsequence(part, all)
    ensures Subsequence(part, all + more)
  {
    var places: seq<nat> :| Places(places, part, all);
    assert Places(places, part, all + more);
  }

  lemma SubsequenceOneMore(part: seq<Span>, all: seq<Span>, x: Span)
    requires Subsequence(part, all)
    ensures Subsequence(part + [x], all + [x])
  {
    var places: seq<nat> :| Places(places, part, all);
    assert Places(places + [|all|], part + [x], all + [x]);
  }

  lemma {:induction false} ExportedIsPart(settled: seq<Settled>)
    ensures Subsequence(ExportedOf(settled), SpansOf(settled))
  {
    if settled == [] {
      assert Places([], [], []);
    } else {
      var before, last := settled[..|settled| - 1], settled[|settled| - 1];
      ExportedIsPart(before);
      assert SpansOf(settled) == SpansOf(before) + [last.span];
      if last.fate == Exported {
        SubsequenceOneMore(ExportedOf(before), SpansOf(before), last.span);
      } else {
        SubsequenceOfMore(ExportedOf(before), SpansOf(before), [last.span]);
        assert ExportedOf(settled) == ExportedOf(before);
      }
    }
  }
}
