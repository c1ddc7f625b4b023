/** The worker service on the main thread: the flush that hands the batch to the shared
    slot, and the drain a shutdown waits on. What the worker thread, the application and
    the clocks do meanwhile is a `Look` per turn of the loop. */
module ShutdownDrain {
  import opened Ingest
  import opened SharedBuffer
  import opened IngestRuns
  import opened WorkerLines
  import opened WorkerMessages
  import Logs = LogBacklog

  const FINAL_FLUSH_POLL_MS: nat := 10

  /** What one turn of the loop finds. The worker thread may finish with the slot before
      either look at it, and hold the lock in between; only the main thread fills it.
      `arrivals` is what the application and the worker's lines bring while it sleeps. */
  datatype Look = Look(
    exited: bool,
    now: nat,
    pausedUntil: nat,
    finishedBefore: bool,
    locked: bool,
    lostTheRace: bool,
    finishedAfter: bool,
    awaitingCompletion: bool,
    lastSample: Option<nat>,
    uptime: nat,
    arrivals: seq<Event>)

  datatype Outcome = WorkerExited | SendsPaused | Done | DeadlinePassed

  predicate Arrives(e: Event) {
    !(e.LinesDrained? || e.BacklogDrained? || e.BatchDiscarded? || e.BatchFlushed?)
  }

  /** Time passes: a turn that slept took ten milliseconds, and at most one in a row
      does not sleep. */
  ghost predicate TimePasses(env: nat -> Look) {
    && (forall k: nat :: env(k).uptime <= env(k + 1).uptime)
    && (forall k: nat :: env(k).uptime + FINAL_FLUSH_POLL_MS <= env(k + 2).uptime)
    && (forall k: nat :: forall e :: e in env(k).arrivals ==> Arrives(e))
  }

  lemma {:induction false} UptimeAfter(env: nat -> Look, k: nat)
    requires TimePasses(env)
    ensures env(k).uptime >= env(0).uptime + FINAL_FLUSH_POLL_MS * (k / 2)
    ensures forall e :: e in env(k).arrivals ==> Arrives(e)
    decreases k
  {
    if k == 1 {
      assert env(0).uptime <= env(0 + 1).uptime;
    } else if k >= 2 {
      UptimeAfter(env, k - 2);
      assert env(k - 2).uptime + FINAL_FLUSH_POLL_MS <= env(k - 2 + 2).uptime;
    }
  }

  /** So many looks fit before the deadline. */
  lemma LooksBefore(env: nat -> Look, started: nat, timeoutMs: nat, k: nat)
    requires TimePasses(env) && started <= env(0).uptime && env(k).uptime < started + timeoutMs
    ensures k <= timeoutMs / 5 + 1 && forall e :: e in env(k).arrivals ==> Arrives(e)
  {
    UptimeAfter(env, k);
  }

  // ----- what is written, and what is left to do -----------------------------------------

  /** The batch as it would be written from here. */
  function OutgoingOf(s: State, at: nat): Option<Payload> {
    LogsWithheld(TimerDrained(s), at).batch
  }

  /** Of the batches handed off, those the slot has room for. */
  ghost function Fitting(encodedLength: Option<Payload> -> nat, flushed: seq<Payload>): seq<Payload> {
    if flushed == [] then []
    else
      var last := flushed[|flushed| - 1];
      Fitting(encodedLength, flushed[..|flushed| - 1]) + if encodedLength(Some(last)) <= SLOT_BYTES then [last] else []
  }

  lemma FittingOneMore(encodedLength: Option<Payload> -> nat, flushed: seq<Payload>, p: Payload)
    ensures Fitting(encodedLength, flushed + [p])
         == Fitting(encodedLength, flushed) + if encodedLength(Some(p)) <= SLOT_BYTES then [p] else []
  {
    assert (flushed + [p])[..|flushed|] == flushed;
  }

  /** Nothing ends the drain early, and nothing new comes in. */
  predicate Quiet(look: Look) {
    !look.exited && look.now >= look.pausedUntil && look.arrivals == []
  }

  /** The worker is done with what it had and with what it is given, and no operation's
      spans are waited for. */
  predicate Serves(look: Look) {
    look.finishedBefore && !look.locked && !look.lostTheRace && look.finishedAfter && !look.awaitingCompletion
  }

  ghost predicate AllQuiet(env: nat -> Look, n: nat) {
    forall k: nat :: k < n ==> Quiet(env(k))
  }

  /** What landed before and what came in since has reached the buffer. */
  ghost predicate Landed(env: nat -> Look, n: nat, landed: seq<Event>, events: seq<Event>) {
    && (forall e :: e in landed ==> e in events)
    && (forall k: nat, e :: k < n && e in env(k).arrivals ==> e in events)
  }

  lemma LandedMore(env: nat -> Look, n: nat, landed: seq<Event>, events: seq<Event>, more: seq<Event>)
    ensures Landed(env, 0, landed, landed)
    ensures Landed(env, n, landed, events) ==> Landed(env, n, landed, events + more)
    ensures Landed(env, n, landed, events) && more == env(n).arrivals ==> Landed(env, n + 1, landed, events + more)
  {
  }

  lemma LandedStays(env: nat -> Look, n: nat, landed: seq<Event>, events: seq<Event>, more: seq<Event>)
    requires events <= more
    ensures Landed(env, n, landed, events) ==> Landed(env, n, landed, more)
  {
    assert forall e :: e in events ==> e in more;
  }

  /** Nothing that ends the drain early was seen so far. */
  ghost predicate GoesOn(env: nat -> Look, n: nat) {
    forall k: nat :: k < n ==> !env(k).exited && env(k).now >= env(k).pausedUntil
  }

  lemma GoesOnOneMore(env: nat -> Look, n: nat)
    ensures GoesOn(env, 0)
    ensures GoesOn(env, n) && !env(n).exited && env(n).now >= env(n).pausedUntil ==> GoesOn(env, n + 1)
  {
  }

  ghost function Served(env: nat -> Look, n: nat): nat {
    if n == 0 then 0 else Served(env, n - 1) + if Serves(env(n - 1)) then 1 else 0
  }

  /** Batches still to be written: a backlog beside a batch needs one of its own. */
  function BatchesLeft(s: State): nat {
    if s.batch.Some? && s.pendingLogs != [] then 2 else 1
  }

  predicate NothingLeft(s: State) {
    s.batch.None? && s.pendingLogs == []
  }

  /** What a turn with the slot empty leaves of the buffer. */
  function AfterTurn(s: State, takesAll: bool): State {
    var drained := TimerDrained(FullyDrained(s));
    if takesAll then Reset(drained) else drained
  }

  lemma DrainingGetsOn(s: State, takesAll: bool)
    requires |s.pendingLogs| <= 2000
    ensures var t := AfterTurn(s, takesAll);
      && |t.pendingLogs| <= 2000 && BatchesLeft(t) <= BatchesLeft(s)
      && (takesAll || NothingLeft(s) ==> t.batch.None?)
      && (takesAll && BatchesLeft(s) == 1 ==> NothingLeft(t))
      && (NothingLeft(s) ==> NothingLeft(t) && TimerDrained(FullyDrained(s)).batch.None?)
      && (TimerDrained(FullyDrained(s)).batch.None? ==> NothingLeft(s))
  {
  }

  /** Every turn with the slot empty gets on: one that finds the worker ready leaves no
      batch, and nothing at all unless a backlog stood beside one. */
  lemma TurnLeaves(s: State, look: Look, sendsNothing: bool)
    requires |s.pendingLogs| <= 2000
    ensures var next := OutgoingOf(FullyDrained(s), look.now);
      var t := AfterTurn(s, sendsNothing || (next.Some? && !look.locked && !look.lostTheRace));
      && BatchesLeft(t) <= BatchesLeft(s)
      && (Serves(look) ==> t.batch.None? && (BatchesLeft(s) == 1 ==> NothingLeft(t)))
      && (NothingLeft(s) ==> NothingLeft(t) && next.None?)
  {
    hide TimerDrained, FullyDrained, Reset, AfterTurn;
    WithheldOnlyChangesTheBatch(TimerDrained(FullyDrained(s)), look.now);
    DrainingGetsOn(s, true);
    DrainingGetsOn(s, false);
  }

  lemma SampleKeepsTheBacklog(o: Options, w: World, sample: Option<nat>)
    ensures Apply(o, w, RuntimeSampled(sample)).s.pendingLogs == w.s.pendingLogs
  {
  }

  lemma NothingYet(env: nat -> Look)
    ensures AllQuiet(env, 0) && Served(env, 0) == 0
  {
  }

  /** What a drain starts from, once what was under way has landed. */
  datatype Start = Start(
    encodedLength: Option<Payload> -> nat,
    sendsNothing: bool,
    s: State,
    written: seq<Payload>,
    slotEmpty: bool,
    sampleLast: bool)

  /** The first look finds the slot empty and the lock free, and the drain past its
      checks, with a batch to write that fits. */
  predicate WritesAtOnce(d: Start, look: Look) {
    var first := OutgoingOf(FullyDrained(d.s), look.now);
    && (d.slotEmpty || look.finishedBefore) && !look.exited && look.now >= look.pausedUntil
    && !d.sendsNothing && !look.locked && !look.lostTheRace
    && first.Some? && d.encodedLength(first) <= 16777208
  }

  /** A turn that finds the slot empty: what becomes of the buffer, of what is written and
      of the slot. What is to be sent is written whenever the lock is free and it fits. */
  predicate Turned(encodedLength: Option<Payload> -> nat, sendsNothing: bool, look: Look, s: State, written: seq<Payload>, t: State, more: seq<Payload>, slot: Option<Payload>) {
    var next := OutgoingOf(FullyDrained(s), look.now);
    var writes := !sendsNothing && next.Some? && !look.locked && !look.lostTheRace;
    && t == AfterTurn(s, sendsNothing || writes)
    && (if writes && encodedLength(next) <= 16777208 then
          && more == written + [next.value]
          && slot == if look.finishedAfter then None else next
        else more == written && slot == None)
  }

  /** Looks that found the worker ready and batches still to write: no more of both together
      than there were to write. */
  ghost predicate GettingOn(d: Start, env: nat -> Look, n: nat, s: State, sample: bool) {
    AllQuiet(env, n) ==> Served(env, n) + BatchesLeft(s) + (if sample then 1 else 0) <= if d.sampleLast then 3 else 2
  }

  /** Where the first look could write, its batch is written first; and where nothing else
      is left or comes in, it alone. */
  ghost predicate FirstGone(d: Start, env: nat -> Look, n: nat, s: State, written: seq<Payload>) {
    && d.written <= written
    && (n == 0 ==> s == d.s && written == d.written)
    && (n > 0 && WritesAtOnce(d, env(0)) ==>
          var first := OutgoingOf(FullyDrained(d.s), env(0).now).value;
          && d.written + [first] <= written
          && (AllQuiet(env, n) && !d.sampleLast && AfterTurn(d.s, true).pendingLogs == [] ==>
                NothingLeft(s) && written == d.written + [first]))
  }

  ghost predicate OnCourse(d: Start, env: nat -> Look, n: nat, s: State, written: seq<Payload>, sample: bool) {
    GettingOn(d, env, n, s, sample) && FirstGone(d, env, n, s, written)
  }

  lemma TurnGetsOn(d: Start, env: nat -> Look, n: nat, s: State, written: seq<Payload>, t: State, more: seq<Payload>, slot: Option<Payload>, sample: bool)
    requires |s.pendingLogs| <= 2000 && GettingOn(d, env, n, s, sample)
    requires Turned(d.encodedLength, d.sendsNothing, env(n), s, written, t, more, slot)
    requires slot.Some? || !NothingLeft(t) || env(n).awaitingCompletion
    ensures GettingOn(d, env, n + 1, t, sample)
  {
    OneMoreLook(env, n);
    TurnLeaves(s, env(n), d.sendsNothing);
    hide AfterTurn, OutgoingOf, FullyDrained, AllQuiet, Served;
  }

  /** The turn after which nothing is left but the sample to take. */
  lemma TurnSamples(d: Start, env: nat -> Look, n: nat, s: State, written: seq<Payload>, t: State, more: seq<Payload>, slot: Option<Payload>)
    requires |s.pendingLogs| <= 2000 && GettingOn(d, env, n, s, true) && d.sampleLast
    requires Turned(d.encodedLength, d.sendsNothing, env(n), s, written, t, more, slot)
    requires NothingLeft(t)
    ensures GettingOn(d, env, n + 1, t, false)
  {
    OneMoreLook(env, n);
    TurnLeaves(s, env(n), d.sendsNothing);
    hide AfterTurn, OutgoingOf, FullyDrained, AllQuiet, Served;
  }

  lemma SampleIsOnCourse(d: Start, env: nat -> Look, n: nat, s: State, t: State, written: seq<Payload>)
    requires OnCourse(d, env, n + 1, s, written, false) && d.sampleLast
    requires NothingLeft(s) && t.pendingLogs == s.pendingLogs
    ensures OnCourse(d, env, n + 1, t, written, false)
  {
    hide AfterTurn, OutgoingOf, FullyDrained, AllQuiet, Served;
  }

  lemma TurnWritesFirst(d: Start, env: nat -> Look, n: nat, s: State, written: seq<Payload>, t: State, more: seq<Payload>, slot: Option<Payload>, u: State)
    requires |s.pendingLogs| <= 2000 && FirstGone(d, env, n, s, written) && Turned(d.encodedLength, d.sendsNothing, env(n), s, written, t, more, slot)
    requires !d.sampleLast && Quiet(env(n)) ==> u == t
    ensures FirstGone(d, env, n + 1, u, more)
  {
    OneMoreLook(env, n);
    TurnLeaves(s, env(n), d.sendsNothing);
    hide AfterTurn, OutgoingOf, FullyDrained, AllQuiet;
    if n == 0 && WritesAtOnce(d, env(0)) {
      DrainingGetsOn(s, true);
    }
  }

  /** A look that finds the slot taken changes nothing. */
  lemma WaitingIsOnCourse(d: Start, env: nat -> Look, n: nat, s: State, written: seq<Payload>, sample: bool)
    requires OnCourse(d, env, n, s, written, sample)
    requires !env(n).finishedBefore && (n == 0 ==> !d.slotEmpty)
    ensures OnCourse(d, env, n + 1, s, written, sample)
  {
    OneMoreLook(env, n);
    hide AfterTurn, OutgoingOf, FullyDrained, AllQuiet, Served;
  }

  /** What arrives takes the drain off the quiet course, and harms nothing else. */
  lemma ArrivalsAreNotQuiet(d: Start, env: nat -> Look, n: nat, s: State, t: State, written: seq<Payload>, sample: bool)
    requires OnCourse(d, env, n + 1, s, written, sample)
    requires env(n).arrivals == [] ==> t == s
    ensures OnCourse(d, env, n + 1, t, written, sample)
  {
    OneMoreLook(env, n);
    hide AfterTurn, OutgoingOf, FullyDrained, AllQuiet, Served;
  }

  /** What was written stays so; where the first look could write, its batch was written,
      before any other; and it alone, where it took all there was and nothing else came in. */
  ghost predicate FirstIsWritten(d: Start, env: nat -> Look, n: nat, written: seq<Payload>) {
    && d.written <= written
    && (WritesAtOnce(d, env(0)) ==>
          var first := OutgoingOf(FullyDrained(d.s), env(0).now).value;
          && d.written + [first] <= written
          && (AllQuiet(env, n) && !d.sampleLast && AfterTurn(d.s, true).pendingLogs == [] ==> written == d.written + [first]))
  }

  lemma EndsEarly(d: Start, env: nat -> Look, n: nat, s: State, written: seq<Payload>, sample: bool)
    requires OnCourse(d, env, n, s, written, sample) && (env(n).exited || env(n).now < env(n).pausedUntil)
    ensures !AllQuiet(env, n + 1) && FirstIsWritten(d, env, n + 1, written)
  {
    OneMoreLook(env, n);
    hide AfterTurn, OutgoingOf, FullyDrained, AllQuiet, Served;
  }

  lemma CourseMeans(d: Start, env: nat -> Look, n: nat, s: State, written: seq<Payload>, sample: bool)
    requires n > 0 && OnCourse(d, env, n, s, written, sample)
    ensures AllQuiet(env, n) ==> Served(env, n) <= if d.sampleLast then 2 else 1
    ensures FirstIsWritten(d, env, n, written)
  {
    hide AfterTurn, OutgoingOf, FullyDrained, AllQuiet, Served, WritesAtOnce;
  }

  lemma DoneWritesFirst(d: Start, env: nat -> Look, n: nat, s: State, written: seq<Payload>)
    requires n > 0 && FirstGone(d, env, n, s, written)
    ensures FirstIsWritten(d, env, n, written)
  {
    hide AfterTurn, OutgoingOf, FullyDrained, AllQuiet, Served, WritesAtOnce;
  }

  lemma StartIsOnCourse(d: Start, env: nat -> Look)
    ensures OnCourse(d, env, 0, d.s, d.written, d.sampleLast)
  {
    NothingYet(env);
  }

  lemma DrainedKeepsTheBacklog(s: State)
    ensures |FullyDrained(s).pendingLogs| <= |s.pendingLogs|
  {
  }

  lemma TimerKeepsTheBacklog(s: State, at: nat)
    ensures |TimerDrained(s).pendingLogs| <= |s.pendingLogs|
    ensures OutgoingOf(s, at).Some? ==> BatchOf(LogsWithheld(TimerDrained(s), at)) == OutgoingOf(s, at).value
    ensures OutgoingOf(s, at).Some? <==> TimerDrained(s).batch.Some?
  {
  }

  lemma OneMoreLook(env: nat -> Look, n: nat)
    ensures AllQuiet(env, n + 1) <==> AllQuiet(env, n) && Quiet(env(n))
    ensures Served(env, n + 1) == Served(env, n) + if Serves(env(n)) then 1 else 0
  {
  }

  lemma ArrivingKeeps(o: Options, w: World, e: Event)
    requires Arrives(e) && |w.s.pendingLogs| <= 2000
    ensures Apply(o, w, e).flushed == w.flushed && |Apply(o, w, e).s.pendingLogs| <= 2000
  {
    hide RequestInserted, JobInserted;
    if e.RequestEnded? {
      InsertingKeepsTheBacklog(o, w.s, e.request, e.at);
    } else if e.JobEnded? {
      InsertingKeepsTheBacklog(o, w.s, e.job, e.at);
    }
  }

  lemma InsertingKeepsTheBacklog(o: Options, s: State, x: Execution, at: nat)
    ensures RequestInserted(o, s, x, at).pendingLogs == s.pendingLogs == JobInserted(o, s, x, at).pendingLogs
  {
  }

  class AgentWorker {
    const buffer: Buffer
    const sendsNothing: bool
    var slot: Option<Payload>
    var sendsPausedUntil: nat
    ghost var world: World
    ghost var written: seq<Payload>
    ghost var overwritten: seq<Payload>

    ghost predicate Valid()
      reads this`world, this`written, buffer
    {
      && buffer.Model() == world.s
      && |world.s.pendingLogs| <= 2000
      && written == Fitting(buffer.encodedLength, world.flushed)
    }

    constructor (buffer: Buffer, sendsNothing: bool)
      requires buffer.Model() == INIT
      ensures Valid() && world == FRESH && slot == None && written == [] && overwritten == []
      ensures this.buffer == buffer && this.sendsNothing == sendsNothing
    {
      this.buffer, this.sendsNothing := buffer, sendsNothing;
      slot, sendsPausedUntil := None, 0;
      world, written, overwritten := FRESH, [], [];
    }

    predicate HasBatchAwaitingWorker()
      reads this
    {
      slot.Some?
    }

    /** Whether this flush gets as far as writing. */
    ghost predicate Writes(locked: bool, lostTheRace: bool)
      reads this, buffer
    {
      !sendsNothing && TimerDrained(buffer.Model()).batch.Some? && !locked && !lostTheRace
    }

    /** The batch as it would be written now. */
    ghost function Outgoing(at: nat): Option<Payload>
      reads this, buffer
    {
      OutgoingOf(buffer.Model(), at)
    }

    /** With the lock held: writes the batch where it fits, and lets it go either way. */
    method HandOff(at: nat)
      requires buffer.batch.Some?
      modifies this`slot, this`written, this`overwritten, buffer
      ensures buffer.Model() == Reset(old(buffer.Model()))
      ensures var batch := LogsWithheld(old(buffer.Model()), at).batch;
        batch.Some? &&
        if buffer.encodedLength(batch) <= SLOT_BYTES then
          && slot == batch
          && written == old(written) + [batch.value]
          && overwritten == if old(slot).Some? then old(overwritten) + [old(slot).value] else old(overwritten)
        else slot == old(slot) && written == old(written) && overwritten == old(overwritten)
    {
      WithheldOnlyChangesTheBatch(buffer.Model(), at);
      hide LogsWithheld, Reset;
      var result := buffer.EncodeAndWrite(at);
      if result.Wrote? {
        overwritten := if slot.Some? then overwritten + [slot.value] else overwritten;
        slot := result.payload;
        written := written + [slot.value];
      }
      buffer.ResetMainThreadBuffer();
    }

    /** Takes what it can from the backlog; hands a batch to the slot if there is one and
        the lock is free; and lets the batch go whether or not it could be written. */
    method Flush(at: nat, locked: bool, lostTheRace: bool)
      requires Valid()
      modifies this, buffer
      ensures Valid() && sendsPausedUntil == old(sendsPausedUntil)
      ensures world == Apply(buffer.options, old(world),
        if sendsNothing then BatchDiscarded
        else if old(Writes(locked, lostTheRace)) then BatchFlushed(at)
        else LinesDrained)
      ensures world.s == (if sendsNothing || old(Writes(locked, lostTheRace)) then Reset(TimerDrained(old(world.s))) else TimerDrained(old(world.s)))
      ensures if old(Writes(locked, lostTheRace)) && buffer.encodedLength(old(Outgoing(at))) <= SLOT_BYTES then
          && slot == old(Outgoing(at)) && slot.Some?
          && written == old(written) + [slot.value]
          && overwritten == if old(slot).Some? then old(overwritten) + [old(slot).value] else old(overwritten)
        else slot == old(slot) && written == old(written) && overwritten == old(overwritten)
    {
      hide LogsDrained, LogsWithheld, Fitting;
      TimerKeepsTheBacklog(buffer.Model(), at);
      buffer.DrainPendingLogs(Logs.AtMost(Logs.MAX_LOGS_PER_BATCH));
      if sendsNothing {
        buffer.ResetMainThreadBuffer();
        world := Apply(buffer.options, world, BatchDiscarded);
        return;
      }
      if buffer.batch.None? || locked || lostTheRace {
        world := Apply(buffer.options, world, LinesDrained);
        return;
      }
      HandOff(at);
      FittingOneMore(buffer.encodedLength, world.flushed, old(Outgoing(at)).value);
      world := Apply(buffer.options, world, BatchFlushed(at));
    }

    /** What comes in while the drain sleeps reaches the buffer as it always does. */
    method Deliver(e: Event)
      requires Valid() && Arrives(e)
      modifies buffer, this`world
      ensures Valid() && world == Apply(buffer.options, old(world), e)
    {
      ArrivingKeeps(buffer.options, world, e);
      world := Apply(buffer.options, world, e);
      match e
      case RequestEnded(request, at) => var _ := buffer.InsertRequestSnapshot(request, at);
      case JobEnded(job, at) => var _ := buffer.InsertJobSnapshot(job, at);
      case LinesWritten(lines) => buffer.PushLogs(lines);
      case VerdictRead(mode, at) => buffer.SetIngestMode(mode, at);
      case GrantRead(grant, at) => buffer.SetOtlpExport(grant, at);
      case RuntimeSampled(sample) => buffer.AddNodeRuntimeMetrics(sample);
      case NewsHeard(WorkerStarted) => buffer.RecordStarted();
      case NewsHeard(BatchAccepted) => buffer.RecordAccepted();
      case NewsHeard(CredentialsRefused) => buffer.RecordRefused();
      case NewsHeard(WorkerStopped) => buffer.RecordStopped();
    }

    /** A line from the worker, taken by the first branch that knows it. */
    method HandleMessage(msg: string, at: nat)
      requires Valid()
      modifies buffer, this`world, this`sendsPausedUntil
      ensures Valid() && world == Run(buffer.options, old(world), EventsOf(ClaimOf(msg), at))
      ensures sendsPausedUntil == if ClaimOf(msg).PausedUntil? then ClaimOf(msg).until else old(sendsPausedUntil)
    {
      hide ParsePaused, ParseNotIngested, ParseOtlpExport, ParseDegraded, ParsePauseReason, Contains;
      var paused := ParsePaused(msg);
      if paused.Some? {
        sendsPausedUntil := paused.value;
        return;
      }
      var notIngested := ParseNotIngested(msg);
      if notIngested.Some? {
        if notIngested.value == CredentialsTurnedAway {
          DeliverAll([NewsHeard(CredentialsRefused)]);
        }
        return;
      }
      var grant := ParseOtlpExport(msg);
      if grant.Some? {
        DeliverAll([GrantRead(grant.value, at)]);
        return;
      }
      var mode := ParseDegraded(msg);
      if mode.Some? {
        DeliverAll([NewsHeard(BatchAccepted), VerdictRead(mode.value, at)]);
      }
    }

    /** Unless the agent is terminating, a worker that exits has stopped, and is started
        again where it exited on an error. */
    method WorkerExits(isTerminating: bool, code: int) returns (restart: bool)
      requires Valid()
      modifies buffer, this`world
      ensures Valid() && (restart <==> !isTerminating && code != 0)
      ensures world == if isTerminating then old(world) else Apply(buffer.options, old(world), NewsHeard(WorkerStopped))
    {
      if isTerminating {
        return false;
      }
      Deliver(NewsHeard(WorkerStopped));
      return code != 0;
    }

    method DeliverAll(arrivals: seq<Event>)
      requires Valid() && forall e :: e in arrivals ==> Arrives(e)
      modifies buffer, this`world
      ensures Valid() && world == Run(buffer.options, old(world), arrivals)
      ensures arrivals == [] ==> world == old(world)
    {
      hide Apply, Arrives;
      for i := 0 to |arrivals|
        invariant Valid() && world == Run(buffer.options, old(world), arrivals[..i])
      {
        assert arrivals[i] in arrivals;
        Deliver(arrivals[i]);
        RunOneMore(buffer.options, old(world), arrivals[..i], arrivals[i]);
        assert arrivals[..i + 1] == arrivals[..i] + [arrivals[i]];
      }
      assert arrivals[..|arrivals|] == arrivals;
    }

    /** What the worker has done by now: finished with the slot, or asked for a pause. */
    method Observe(look: Look)
      modifies this`slot, this`sendsPausedUntil
      ensures Valid() == old(Valid())
      ensures sendsPausedUntil == look.pausedUntil && slot == if look.finishedBefore then None else old(slot)
    {
      sendsPausedUntil := look.pausedUntil;
      if look.finishedBefore {
        slot := None;
      }
    }

    /** The whole backlog, where there is no batch yet. */
    method TakeBacklog(ghost from: World, ghost events: seq<Event>) returns (ghost more: seq<Event>)
      requires Valid() && world == Run(buffer.options, from, events)
      modifies buffer, this`world
      ensures Valid() && world == Run(buffer.options, from, more) && events <= more && world.s == FullyDrained(old(world.s))
    {
      hide LogsDrained, Fitting, Run;
      DrainedKeepsTheBacklog(world.s);
      RunOneMore(buffer.options, from, events, BacklogDrained);
      more := events + [BacklogDrained];
      world := Apply(buffer.options, world, BacklogDrained);
      hide Apply;
      if buffer.batch.None? {
        buffer.DrainPendingLogs(Logs.NoLimit);
      }
    }

    /** Into an empty slot: the whole backlog where there is no batch yet, then a flush. What
        is then to be sent is written whenever the lock is free and it fits. */
    method WriteNext(look: Look, ghost from: World, ghost events: seq<Event>) returns (ghost more: seq<Event>)
      requires Valid() && slot.None? && world == Run(buffer.options, from, events)
      modifies this, buffer
      ensures Valid() && world == Run(buffer.options, from, more) && events <= more
      ensures overwritten == old(overwritten) && sendsPausedUntil == old(sendsPausedUntil)
      ensures Turned(buffer.encodedLength, sendsNothing, look, old(world.s), old(written), world.s, written, slot)
    {
      hide LogsDrained, LogsWithheld, Fitting, TimerDrained, FullyDrained, Run, Apply, Reset;
      more := TakeBacklog(from, events);
      ghost var drained := world;
      ghost var flush := if sendsNothing then BatchDiscarded
                         else if Writes(look.locked, look.lostTheRace) then BatchFlushed(look.now) else LinesDrained;
      TimerKeepsTheBacklog(drained.s, look.now);
      Flush(look.now, look.locked, look.lostTheRace);
      RunOneMore(buffer.options, from, more, flush);
      more := more + [flush];
      hide Valid;
      if look.finishedAfter {
        slot := None;
      }
    }

    /** One turn that finds the slot empty, and whether nothing is left after it. */
    method TakeTurn(look: Look, ghost from: World, ghost events: seq<Event>, ghost d: Start, ghost env: nat -> Look, ghost n: nat, ghost sample: bool)
      returns (nothingLeft: bool, ghost more: seq<Event>)
      requires Valid() && slot.None? && world == Run(buffer.options, from, events) && look == env(n)
      requires d.encodedLength == buffer.encodedLength && d.sendsNothing == sendsNothing && (sample ==> d.sampleLast)
      requires OnCourse(d, env, n, world.s, written, sample)
      modifies this, buffer
      ensures Valid() && world == Run(buffer.options, from, more) && events <= more
      ensures overwritten == old(overwritten) && sendsPausedUntil == old(sendsPausedUntil)
      ensures nothingLeft <==> slot.None? && NothingLeft(world.s) && !look.awaitingCompletion
      ensures !nothingLeft || sample ==> OnCourse(d, env, n + 1, world.s, written, sample && !nothingLeft)
      ensures FirstIsWritten(d, env, n + 1, written)
    {
      hide Turned, FirstGone, GettingOn, FirstIsWritten, Valid, Run;
      NothingLeftInIt();
      more := WriteNext(look, from, events);
      NothingLeftInIt();
      nothingLeft := !HasBatchAwaitingWorker() && buffer.batch.None? && |buffer.pendingLogs| == 0 && !look.awaitingCompletion;
      TurnWritesFirst(d, env, n, old(world.s), old(written), world.s, written, slot, world.s);
      DoneWritesFirst(d, env, n + 1, world.s, written);
      if !nothingLeft {
        TurnGetsOn(d, env, n, old(world.s), old(written), world.s, written, slot, sample);
      } else if sample {
        TurnSamples(d, env, n, old(world.s), old(written), world.s, written, slot);
      }
    }

    /** The last sample, taken once what was buffered before has gone. */
    method AddFinalRuntimeMetrics(sample: Option<nat>, ghost from: World, ghost events: seq<Event>, ghost d: Start, ghost env: nat -> Look, ghost n: nat)
      returns (ghost more: seq<Event>)
      requires Valid() && world == Run(buffer.options, from, events)
      requires NothingLeft(world.s) && d.sampleLast && OnCourse(d, env, n + 1, world.s, written, false)
      modifies buffer, this`world
      ensures Valid() && world == Run(buffer.options, from, more) && events <= more
      ensures OnCourse(d, env, n + 1, world.s, written, false)
    {
      hide Run, Fitting;
      ghost var s := world.s;
      RunOneMore(buffer.options, from, events, RuntimeSampled(sample));
      more := events + [RuntimeSampled(sample)];
      SampleKeepsTheBacklog(buffer.options, world, sample);
      hide Apply;
      Deliver(RuntimeSampled(sample));
      SampleIsOnCourse(d, env, n, s, world.s, written);
    }

    /** What the application and the worker's lines bring while the drain sleeps. */
    method Sleep(look: Look, ghost from: World, ghost events: seq<Event>, ghost d: Start, ghost env: nat -> Look, ghost n: nat, ghost sample: bool)
      returns (ghost more: seq<Event>)
      requires Valid() && world == Run(buffer.options, from, events) && look == env(n) && forall e :: e in look.arrivals ==> Arrives(e)
      requires OnCourse(d, env, n + 1, world.s, written, sample)
      modifies buffer, this`world
      ensures Valid() && world == Run(buffer.options, from, more) && events <= more
      ensures OnCourse(d, env, n + 1, world.s, written, sample) && more == events + look.arrivals
    {
      hide Run, Fitting, Arrives;
      ghost var s := world.s;
      RunConcat(buffer.options, from, events, look.arrivals);
      more := events + look.arrivals;
      DeliverAll(look.arrivals);
      ArrivalsAreNotQuiet(d, env, n, s, world.s, written, sample);
    }

    lemma NothingLeftInIt()
      requires Valid()
      ensures buffer.batch.None? && |buffer.pendingLogs| == 0 <==> NothingLeft(world.s)
      ensures |world.s.pendingLogs| <= 2000
    {
    }

    /** Waits for the slot to empty, writes the next batch, and so on until nothing is
        left. `looks` says how many turns it took. */
    method FlushBeforeShutdown(env: nat -> Look, started: nat, landed: seq<Event>, timeoutMs: nat, sampleLast: bool)
      returns (outcome: Outcome, looks: nat, ghost events: seq<Event>)
      requires Valid() && TimePasses(env) && started <= env(0).uptime
      requires forall e :: e in landed ==> Arrives(e)
      modifies this, buffer
      ensures Valid() && world == Run(buffer.options, old(world), events)
      ensures overwritten == old(overwritten)
      ensures looks <= timeoutMs / 5 + 4
      ensures outcome == Done ==> slot.None? && world.s.batch.None? && world.s.pendingLogs == [] && !env(looks).awaitingCompletion
      ensures outcome == WorkerExited <==> env(looks).exited
      ensures outcome == SendsPaused <==> !env(looks).exited && env(looks).now < env(looks).pausedUntil
      ensures GoesOn(env, looks) && (!sampleLast ==> Landed(env, looks, landed, events))
      ensures outcome == DeadlinePassed ==> env(looks).uptime >= started + timeoutMs
      ensures AllQuiet(env, looks + 1) && outcome != Done ==>
        outcome == DeadlinePassed && Served(env, looks + 1) <= if sampleLast then 2 else 1
      ensures FirstIsWritten(
        Start(buffer.encodedLength, sendsNothing, Run(buffer.options, old(world), landed).s, old(written), old(slot).None?, sampleLast),
        env, looks + 1, written)
    {
      hide Apply, Run, AfterTurn, OutgoingOf, FullyDrained, AllQuiet, Served, OnCourse, FirstIsWritten, GoesOn, Landed;
      hide TimePasses, Arrives, WritesAtOnce, Valid;
      var deadline := started + timeoutMs;
      ghost var from := world;
      DeliverAll(landed);
      events := landed;
      var sampleRuntimeMetrics := sampleLast;
      looks := 0;
      ghost var again := 0;
      ghost var d := Start(buffer.encodedLength, sendsNothing, world.s, written, slot.None?, sampleLast);
      StartIsOnCourse(d, env);
      GoesOnOneMore(env, 0);
      LandedMore(env, 0, landed, landed, []);
      while true
        invariant Valid() && world == Run(buffer.options, from, events)
        invariant overwritten == old(overwritten)
        invariant looks <= timeoutMs / 5 + 2 + again
        invariant sampleRuntimeMetrics ==> sampleLast
        invariant again == if sampleLast && !sampleRuntimeMetrics then 1 else 0
        invariant looks == 0 ==> slot.None? == d.slotEmpty
        invariant GoesOn(env, looks) && OnCourse(d, env, looks, world.s, written, sampleRuntimeMetrics)
        invariant !sampleLast ==> Landed(env, looks, landed, events)
        decreases timeoutMs / 5 + 4 - looks
      {
        var look := env(looks);
        GoesOnOneMore(env, looks);
        Observe(look);
        if look.exited {
          EndsEarly(d, env, looks, world.s, written, sampleRuntimeMetrics);
          return WorkerExited, looks, events;
        }
        if look.now < sendsPausedUntil {
          EndsEarly(d, env, looks, world.s, written, sampleRuntimeMetrics);
          return SendsPaused, looks, events;
        }
        if !HasBatchAwaitingWorker() {
          var nothingLeft;
          ghost var so := events;
          nothingLeft, events := TakeTurn(look, from, so, d, env, looks, sampleRuntimeMetrics);
          LandedStays(env, looks, landed, so, events);
          if nothingLeft {
            if !sampleRuntimeMetrics {
              return Done, looks, events;
            }
            sampleRuntimeMetrics := false;
            events := AddFinalRuntimeMetrics(look.lastSample, from, events, d, env, looks);
            again := 1;
            looks := looks + 1;
            continue;
          }
        } else {
          WaitingIsOnCourse(d, env, looks, world.s, written, sampleRuntimeMetrics);
        }
        if look.uptime >= deadline {
          CourseMeans(d, env, looks + 1, world.s, written, sampleRuntimeMetrics);
          return DeadlinePassed, looks, events;
        }
        LooksBefore(env, started, timeoutMs, looks);
        LandedMore(env, looks, landed, events, look.arrivals);
        events := Sleep(look, from, events, d, env, looks, sampleRuntimeMetrics);
        looks := looks + 1;
      }
    }
  }

  /** So a drain that says it is done has left no line behind: every line the buffer was
      ever given was handed off in a batch, or dropped for want of room. */
  lemma DoneLeavesNoLineBehind(o: Options, events: seq<Event>)
    requires var s := Run(o, FRESH, events).s; s.batch.None? && s.pendingLogs == []
    ensures var b := Logs.Run(Logs.EmptyBook, AllMoves(o, FRESH, events));
      multiset(b.pushed) == multiset(b.handedOff) + multiset(b.dropped)
  {
    LinesOfARunAreConserved(o, events);
    hide Run, AllMoves;
  }

  lemma WithheldOnlyChangesTheBatch(s: State, at: nat)
    ensures LogsWithheld(s, at).batch.Some? <==> s.batch.Some?
    ensures Reset(LogsWithheld(s, at)) == Reset(s)
  {
  }

  lemma RunOfTwoEvents(o: Options, w: World, e: Event, f: Event)
    ensures Run(o, w, [e, f]) == Apply(o, Apply(o, w, e), f)
  {
    hide Apply;
    assert [e, f][1..] == [f];
    assert Run(o, Apply(o, w, e), [f]) == Run(o, Apply(o, Apply(o, w, e), f), []);
  }

  lemma RunOneMore(o: Options, w: World, events: seq<Event>, e: Event)
    ensures Run(o, w, events + [e]) == Apply(o, Run(o, w, events), e)
  {
    hide Apply;
    RunConcat(o, w, events, [e]);
    assert Run(o, Run(o, w, events), [e]) == Run(o, Apply(o, Run(o, w, events), e), []);
  }
}
