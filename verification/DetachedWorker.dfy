/** The worker thread: what it makes of each answer of the collector, when it may send
    again, and what it tells the main thread. Sending is one step here; the slot it takes
    batches from is the subject of SharedSlot. */
module DetachedWorker {
  import opened Ingest
  import opened SharedBuffer
  import opened WorkerLines
  import B = Backoff

  const RATE_LIMIT_PAUSE_MS: nat := 5 * 60 * 1000
  const PAUSE_MAX_MS: nat := 60 * 60 * 1000
  const DEFAULT_FLUSH_MS: nat := 5000
  const AUTH_REJECTION_REPORT_EVERY: nat := 720

  /** What comes of a batch refused with a 400: nothing to repair, or repaired and sent
      again. */
  datatype Repair = NothingRepaired | RepairedAndAccepted | RepairedAndRefused

  /** What comes of a send: a reply, none at all, or a fault of the worker's own. */
  datatype Outcome =
    | Unreachable
    | Fault
    | Answered(status: nat, retryAfterMs: Option<int>, reply: Reply, repair: Repair)

  predicate Accepted(o: Outcome) {
    o.Answered? && 200 <= o.status < 300
  }

  predicate Refused(o: Outcome) {
    o.Answered? && (o.status == 401 || o.status == 403)
  }

  predicate RateLimited(o: Outcome) {
    o.Answered? && o.status == 429
  }

  /** What a Retry-After asks for, up to an hour; anything not above nought asks nothing. */
  function RetryAfter(ms: Option<int>): Option<nat> {
    if ms.Some? && ms.value > 0 then Some(B.Min(ms.value, PAUSE_MAX_MS)) else None
  }

  // ----- what a history of sends comes to -------------------------------------------------

  /** One send: when it started, when it was answered, and how. */
  datatype Send = Send(at: nat, answered: nat, outcome: Outcome)

  /** Refusals of the credentials since the last batch accepted. */
  function RefusalsInARow(h: seq<Send>): nat {
    if h == [] then 0
    else
      var before, last := h[..|h| - 1], h[|h| - 1].outcome;
      if Accepted(last) then 0
      else if Refused(last) then RefusalsInARow(before) + 1
      else RefusalsInARow(before)
  }

  function RefusalsEver(h: seq<Send>): nat {
    if h == [] then 0 else RefusalsEver(h[..|h| - 1]) + if Refused(h[|h| - 1].outcome) then 1 else 0
  }

  /** The pause an answer calls for, given the backoff it leaves. */
  function PauseFor(o: Outcome, backoff: nat): Option<nat> {
    if !Refused(o) && !RateLimited(o) then None
    else if RetryAfter(o.retryAfterMs).Some? then RetryAfter(o.retryAfterMs)
    else Some(if Refused(o) then backoff else RATE_LIMIT_PAUSE_MS)
  }

  /** By the status alone: 401 and 403 pause for the backoff, 429 for five minutes, either
      for what a Retry-After above nought asks, up to an hour; nothing else pauses. */
  lemma PauseMeans(status: nat, retryAfterMs: Option<int>, reply: Reply, repair: Repair, backoff: nat)
    ensures PauseFor(Answered(status, retryAfterMs, reply, repair), backoff) ==
      if status != 401 && status != 403 && status != 429 then None
      else if retryAfterMs.Some? && retryAfterMs.value >= 3600000 then Some(3600000)
      else if retryAfterMs.Some? && retryAfterMs.value > 0 then Some(retryAfterMs.value)
      else if status == 429 then Some(300000)
      else Some(backoff)
    ensures PauseFor(Unreachable, backoff) == None && PauseFor(Fault, backoff) == None
  {
  }

  /** The pause after the last of a history's sends, if it calls for one. */
  function PauseAfter(base: nat, h: seq<Send>): Option<nat>
    requires h != []
  {
    PauseFor(h[|h| - 1].outcome, B.After(base, PAUSE_MAX_MS, RefusalsInARow(h)))
  }

  /** Until when the sends so far have paused the next. */
  function PausedUntilAfter(base: nat, h: seq<Send>): nat {
    if h == [] then 0
    else
      var pause := PauseAfter(base, h);
      if pause.Some? then h[|h| - 1].answered + pause.value else PausedUntilAfter(base, h[..|h| - 1])
  }

  /** No pause outlasts an hour. */
  lemma PausesAreBounded(base: nat, h: seq<Send>)
    requires h != []
    ensures PauseAfter(base, h).Some? ==> PauseAfter(base, h).value <= 3600000
  {
    B.AfterGrows(base, PAUSE_MAX_MS, 0, RefusalsInARow(h));
  }

  /** The backoff is that of the refusals in a row, whatever came between them; the
      pause is that of the sends so far; and none of them started within one. */
  ghost predicate Follows(base: nat, h: seq<Send>, authBackoffMs: nat, authRejections: nat, pausedUntil: nat) {
    && authBackoffMs == B.After(base, 3600000, RefusalsInARow(h))
    && authRejections == RefusalsEver(h)
    && pausedUntil == PausedUntilAfter(base, h)
    && forall i :: 0 <= i < |h| ==> h[i].at >= PausedUntilAfter(base, h[..i])
  }

  function BackoffFor(o: Outcome, base: nat, backoff: nat): nat {
    if Accepted(o) then 0 else if Refused(o) then B.Next(base, PAUSE_MAX_MS, backoff) else backoff
  }

  lemma FollowsOneMore(base: nat, h: seq<Send>, backoff: nat, rejections: nat, paused: nat, s: Send)
    requires base > 0 && Follows(base, h, backoff, rejections, paused) && s.at >= paused
    ensures var next := BackoffFor(s.outcome, base, backoff);
      Follows(base, h + [s], next,
              rejections + (if Refused(s.outcome) then 1 else 0),
              if PauseFor(s.outcome, next).Some? then s.answered + PauseFor(s.outcome, next).value else paused)
  {
    OneMoreSend(base, h, s);
    B.NextIsAfter(base, PAUSE_MAX_MS, RefusalsInARow(h));
    hide RefusalsInARow, RefusalsEver, PausedUntilAfter, B.After, B.Next, RetryAfter;
    forall i | 0 <= i < |h + [s]|
      ensures (h + [s])[i].at >= PausedUntilAfter(base, (h + [s])[..i])
    {
      if i < |h| {
        assert (h + [s])[i] == h[i];
      }
    }
  }

  // ----- what it tells the main thread ---------------------------------------------------

  /** The lines a send leaves, given until when it paused the next and how often the
      credentials have been refused. An error's wording is not part of this model. */
  function LinesOf(o: Outcome, asksForOtlpExport: bool, until: nat, refusals: nat): seq<Line> {
    if !o.Answered? then [ErrorLine(""), NotIngestedLine(Failed)]
    else if Refused(o) then
      [PausedLine(until), NotIngestedLine(CredentialsTurnedAway)]
        + if refusals == 1 || refusals % 720 == 0 then [ErrorLine("")] else []
    else if RateLimited(o) then [PausedLine(until), NotIngestedLine(Failed), ErrorLine("")]
    else if Accepted(o) then
      (if asksForOtlpExport then [GrantLine(o.reply.otlpExport)] else []) + [VerdictLine(o.reply), SentLine]
    else if o.status == 400 && o.repair == RepairedAndAccepted then [ErrorLine("")]
    else [ErrorLine(""), NotIngestedLine(Failed)]
  }

  class Worker {
    const flushInterval: Option<int>
    const asksForOtlpExport: bool
    var pausedUntil: nat
    var authBackoffMs: nat
    var authRejections: nat
    ghost var history: seq<Send>

    /** Where the backoff starts. */
    function Base(): (base: nat)
      ensures base > 0 && base == if flushInterval.Some? && flushInterval.value >= 1 then flushInterval.value else 5000
    {
      if flushInterval.Some? && flushInterval.value > 0 then flushInterval.value else DEFAULT_FLUSH_MS
    }

    ghost predicate Valid()
      reads this
    {
      Follows(Base(), history, authBackoffMs, authRejections, pausedUntil)
    }

    constructor (flushInterval: Option<int>, asksForOtlpExport: bool)
      ensures Valid() && history == []
      ensures this.flushInterval == flushInterval && this.asksForOtlpExport == asksForOtlpExport
    {
      this.flushInterval, this.asksForOtlpExport := flushInterval, asksForOtlpExport;
      pausedUntil, authBackoffMs, authRejections := 0, 0, 0;
      history := [];
    }

    /** What an answer does to the backoff and the pause, and what is said of it. */
    method Take(answered: nat, outcome: Outcome) returns (lines: seq<Line>)
      modifies this`pausedUntil, this`authBackoffMs, this`authRejections
      ensures authRejections == old(authRejections) + if Refused(outcome) then 1 else 0
      ensures authBackoffMs == BackoffFor(outcome, Base(), old(authBackoffMs))
      ensures var pause := PauseFor(outcome, authBackoffMs);
        pausedUntil == if pause.Some? then answered + pause.value else old(pausedUntil)
      ensures lines == LinesOf(outcome, asksForOtlpExport, pausedUntil, authRejections)
    {
      hide RetryAfter, Base;
      lines := [];
      match outcome {
        case Unreachable =>
          lines := [ErrorLine(""), NotIngestedLine(Failed)];
        case Fault =>
          lines := [ErrorLine(""), NotIngestedLine(Failed)];
        case Answered(status, retryAfterMs, reply, repair) =>
          if !(200 <= status < 300) {
            if status == 401 || status == 403 {
              authRejections := authRejections + 1;
              authBackoffMs := if authBackoffMs == 0 then B.Min(Base(), PAUSE_MAX_MS) else B.Min(authBackoffMs * 2, PAUSE_MAX_MS);
              var asked := RetryAfter(retryAfterMs);
              pausedUntil := answered + if asked.Some? then asked.value else authBackoffMs;
              lines := [PausedLine(pausedUntil), NotIngestedLine(CredentialsTurnedAway)];
              if authRejections == 1 {
                lines := lines + [ErrorLine("")];
              } else if authRejections % AUTH_REJECTION_REPORT_EVERY == 0 {
                lines := lines + [ErrorLine("")];
              }
              assert [PausedLine(pausedUntil), NotIngestedLine(CredentialsTurnedAway)] + [] == [PausedLine(pausedUntil), NotIngestedLine(CredentialsTurnedAway)];
            } else if status == 429 {
              var asked := RetryAfter(retryAfterMs);
              pausedUntil := answered + if asked.Some? then asked.value else RATE_LIMIT_PAUSE_MS;
              lines := [PausedLine(pausedUntil), NotIngestedLine(Failed), ErrorLine("")];
            } else if status == 400 && repair != NothingRepaired {
              lines := [ErrorLine("")];
              if repair == RepairedAndRefused {
                lines := lines + [NotIngestedLine(Failed)];
              }
            } else {
              lines := [ErrorLine(""), NotIngestedLine(Failed)];
            }
          } else {
            authBackoffMs := 0;
            if asksForOtlpExport {
              lines := [GrantLine(reply.otlpExport)];
            }
            lines := lines + [VerdictLine(reply), SentLine];
          }
      }
    }

    /** One turn: nothing while paused, or with the lock taken, or with nothing to send. */
    method SendOne(at: nat, gotLock: bool, batchWaiting: bool, answered: nat, outcome: Outcome)
      returns (sent: bool, lines: seq<Line>)
      requires Valid() && at <= answered
      modifies this
      ensures Valid()
      ensures sent <==> at >= old(pausedUntil) && gotLock && batchWaiting
      ensures history == if sent then old(history) + [Send(at, answered, outcome)] else old(history)
      ensures lines == if sent then LinesOf(outcome, asksForOtlpExport, pausedUntil, authRejections) else []
    {
      lines := [];
      if at < pausedUntil {
        return false, lines;
      }
      if !gotLock {
        return false, lines;
      }
      if !batchWaiting {
        return false, lines;
      }
      FollowsOneMore(Base(), history, authBackoffMs, authRejections, pausedUntil, Send(at, answered, outcome));
      hide Follows, LinesOf, BackoffFor, PauseFor, Base;
      history := history + [Send(at, answered, outcome)];
      sent := true;
      lines := Take(answered, outcome);
    }
  }

  /** What one more send adds to each of them. */
  lemma OneMoreSend(base: nat, h: seq<Send>, s: Send)
    ensures var after := h + [s];
      && RefusalsInARow(after) == (if Accepted(s.outcome) then 0 else if Refused(s.outcome) then RefusalsInARow(h) + 1 else RefusalsInARow(h))
      && RefusalsEver(after) == RefusalsEver(h) + (if Refused(s.outcome) then 1 else 0)
      && PausedUntilAfter(base, after) == (if PauseAfter(base, after).Some? then s.answered + PauseAfter(base, after).value else PausedUntilAfter(base, h))
      && (forall i :: 0 <= i <= |h| ==> after[..i] == h[..i])
      && after[|after| - 1] == s && h[..|h|] == h
  {
    assert (h + [s])[..|h|] == h;
  }
}
