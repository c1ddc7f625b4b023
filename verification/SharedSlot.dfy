/** The slot two threads share: a lock word, a length word and room for one batch.
    The main thread writes a batch into it; the worker takes the batch out and holds
    the lock until the collector has answered. Every access either side makes is one
    step, so a run is any interleaving of them, down to the single byte copied. */
module SharedSlot {
  import opened Wire

  datatype Option<+T> = None | Some(value: T)

  type Batch = b: seq<Byte> | |b| > 0 witness [0]

  /** What is left of sixteen megabytes after the lock and the length. */
  const CAPACITY: nat := 1024 * 1024 * 16 - 8

  /** Where the main thread is. `draining` marks the shutdown drain, which looks at
      the length before it flushes. */
  datatype Main =
    | Idle
    | SawEmpty(batch: Batch)
    | SawUnlocked(batch: Batch, draining: bool)
    | Locked(batch: Batch, draining: bool)
    | Copying(batch: Batch, copied: nat)
    | Written

  datatype Worker =
    | Waiting
    | Holding
    | Taking(length: nat, bytes: seq<Byte>)
    | Sending(sent: seq<Byte>)
    | Clearing
    | Releasing
    | Dead

  /** The shared words, where each side is, and what has happened so far:
      `written` is every batch written whole, `taken` the ones the worker took (by
      their place in `written`), `replaced` the ones overwritten before it did,
      `slot` the one in the slot, and `decoded` the bytes the worker made out. */
  datatype State = State(
    lock: nat,
    length: nat,
    memory: seq<Byte>,
    main: Main,
    worker: Worker,
    orphaned: bool,
    written: seq<Batch>,
    taken: seq<nat>,
    replaced: set<nat>,
    slot: Option<nat>,
    decoded: seq<seq<Byte>>)

  datatype Action =
    | DrainLook(drained: Batch)
    | FlushLook(flushed: Batch)
    | MainStep
    | WriteFails
    | WorkerStep
    | WorkerDies
    | WorkerRestarts

  predicate MainHolds(m: Main) {
    m.Locked? || m.Copying? || m.Written?
  }

  predicate WorkerHolds(w: Worker) {
    w.Holding? || w.Taking? || w.Sending? || w.Clearing? || w.Releasing?
  }

  predicate Draining(m: Main) {
    m.SawEmpty? || (m.SawUnlocked? && m.draining) || (m.Locked? && m.draining)
  }

  function Init(memory: seq<Byte>): State
    requires |memory| == CAPACITY
  {
    State(0, 0, memory, Idle, Waiting, false, [], [], {}, None, [])
  }

  // ----- the steps ------------------------------------------------------------------

  /** `hasBatchAwaitingWorker`: only an empty slot lets the drain flush. */
  function LookEmpty(s: State, batch: Batch): State {
    if s.main.Idle? && s.length == 0 then s.(main := SawEmpty(batch)) else s
  }

  /** `isBufferLocked`: a flush is skipped while the worker holds the slot. */
  function LookUnlocked(s: State, batch: Batch): State {
    if s.main.Idle? && s.lock == 0 then s.(main := SawUnlocked(batch, false)) else s
  }

  function StepMain(s: State): State {
    match s.main
    case Idle => s
    case SawEmpty(batch) => s.(main := if s.lock == 0 then SawUnlocked(batch, true) else Idle)
    case SawUnlocked(batch, draining) =>
      // compareExchange: the check and the take are one step
      if s.lock == 0 then s.(lock := 1, main := Locked(batch, draining)) else s.(main := Idle)
    case Locked(batch, _) =>
      if |batch| > CAPACITY then s.(main := Written)
      else s.(length := |batch|, main := Copying(batch, 0), slot := None,
              replaced := if s.slot.Some? then s.replaced + {s.slot.value} else s.replaced)
    case Copying(batch, copied) =>
      if copied < |batch| && copied < |s.memory|
      then s.(memory := s.memory[copied := batch[copied]], main := Copying(batch, copied + 1))
      else s.(main := Written, written := s.written + [batch], slot := Some(|s.written|))
    case Written => s.(lock := 0, main := Idle)
  }

  function StepWorker(s: State): State {
    match s.worker
    case Waiting => if s.lock == 0 then s.(lock := 1, worker := Holding) else s
    case Holding => s.(worker := if s.length == 0 then Clearing else Taking(s.length, []))
    case Taking(length, bytes) =>
      if |bytes| < length && |bytes| < |s.memory|
      then s.(worker := Taking(length, bytes + [s.memory[|bytes|]]))
      else s.(worker := Sending(bytes), decoded := s.decoded + [bytes],
              taken := if s.slot.Some? then s.taken + [s.slot.value] else s.taken)
    // whatever the collector answered, or failed to
    case Sending(_) => s.(worker := Clearing)
    case Clearing => s.(worker := Releasing, length := 0, slot := None)
    case Releasing => s.(worker := Waiting, lock := 0)
    case Dead => s
  }

  function Step(s: State, a: Action): State {
    match a
    case DrainLook(batch) => LookEmpty(s, batch)
    case FlushLook(batch) => LookUnlocked(s, batch)
    case MainStep => StepMain(s)
    case WriteFails => if s.main.Locked? then s.(main := Written) else s
    case WorkerStep => StepWorker(s)
    case WorkerDies => s.(worker := Dead, orphaned := s.orphaned || WorkerHolds(s.worker))
    case WorkerRestarts => if s.worker.Dead? then s.(worker := Waiting) else s
  }

  function Run(s: State, actions: seq<Action>): State
    decreases |actions|
  {
    if actions == [] then s else Run(Step(s, actions[0]), actions[1..])
  }

  // ----- what every step keeps ----------------------------------------------------------

  /** At most one side is inside, and the lock word says whether one is. */
  ghost predicate Exclusive(s: State) {
    && s.lock <= 1
    && (s.lock == 1 <==> MainHolds(s.main) || WorkerHolds(s.worker) || s.orphaned)
    && !(MainHolds(s.main) && WorkerHolds(s.worker))
    && (s.orphaned ==> !MainHolds(s.main) && !WorkerHolds(s.worker))
  }

  /** Except while the main thread is copying, the slot holds one whole batch, the
      last one written, or nothing. */
  ghost predicate SlotIsWhole(s: State) {
    && |s.memory| == CAPACITY
    && (if s.main.Copying? then
          && s.slot.None? && s.length == |s.main.batch| <= CAPACITY
          && s.main.copied <= |s.main.batch|
          && s.memory[..s.main.copied] == s.main.batch[..s.main.copied]
        else if s.slot.Some? then
          && s.slot.value + 1 == |s.written|
          && s.length == |s.written[s.slot.value]| <= CAPACITY
          && s.memory[..s.length] == s.written[s.slot.value]
        else s.length == 0)
  }

  ghost predicate Ascending(places: seq<nat>) {
    forall i, j :: 0 <= i < j < |places| ==> places[i] < places[j]
  }

  /** What the worker is taking is what is in the slot, and what it has taken, in order. */
  ghost predicate TakenIsWritten(s: State) {
    && |s.taken| == |s.decoded|
    && (forall j :: 0 <= j < |s.taken| ==> s.taken[j] < |s.written|)
    && (forall j :: 0 <= j < |s.taken| ==> s.decoded[j] == s.written[s.taken[j]])
    && Ascending(s.taken)
    && (s.worker.Taking? ==>
          && s.slot.Some? && s.slot.value !in s.taken
          && s.worker.length == s.length && |s.worker.bytes| <= s.length <= |s.memory|
          && s.worker.bytes == s.memory[..|s.worker.bytes|])
    && (s.worker.Holding? && s.slot.Some? ==> s.slot.value !in s.taken)
    && (s.worker.Sending? ==> s.decoded != [] && s.worker.sent == s.decoded[|s.decoded| - 1])
    && (s.worker.Sending? || s.worker.Clearing? ==> s.slot.Some? ==> s.slot.value in s.taken)
    && (s.worker.Releasing? ==> s.length == 0)
  }

  /** Every written batch is taken, replaced, or in the slot waiting; never two of them. */
  ghost predicate Accounted(s: State) {
    && (forall k :: k in s.replaced ==> k < |s.written| && k !in s.taken && s.slot != Some(k))
    && (forall k :: 0 <= k < |s.written| ==> k in s.taken || k in s.replaced || s.slot == Some(k))
    && (s.slot.Some? && s.slot.value in s.taken ==>
          s.orphaned || s.worker.Sending? || s.worker.Clearing?)
  }

  /** The drain goes on only while the slot it saw empty is. */
  ghost predicate DrainIsSafe(s: State) {
    Draining(s.main) ==> s.length == 0
  }

  ghost predicate Inv(s: State) {
    Exclusive(s) && SlotIsWhole(s) && TakenIsWritten(s) && Accounted(s) && DrainIsSafe(s)
  }

  lemma InitInv(memory: seq<Byte>)
    requires |memory| == CAPACITY
    ensures Inv(Init(memory))
  {
  }

  lemma CopyInv(s: State)
    requires Inv(s) && s.main.Copying?
    ensures Inv(StepMain(s))
  {
    var batch, copied := s.main.batch, s.main.copied;
    if copied < |batch| {
      var memory := s.memory[copied := batch[copied]];
      assert memory[..copied + 1] == s.memory[..copied] + [batch[copied]];
      assert batch[..copied + 1] == batch[..copied] + [batch[copied]];
    } else {
      assert batch[..copied] == batch;
    }
  }

  lemma StepMainInv(s: State)
    requires Inv(s)
    ensures Inv(StepMain(s))
  {
    if s.main.Copying? {
      CopyInv(s);
    }
  }

  lemma TakeByteInv(s: State)
    requires Inv(s) && s.worker.Taking? && |s.worker.bytes| < s.worker.length
    ensures Inv(StepWorker(s))
  {
    var bytes := s.worker.bytes;
    assert s.memory[..|bytes| + 1] == bytes + [s.memory[|bytes|]];
  }

  /** What is taken last is the last batch written, which was not taken before. */
  lemma LastInOrder(taken: seq<nat>, count: nat)
    requires count > 0
    requires forall j :: 0 <= j < |taken| ==> taken[j] < count
    requires Ascending(taken)
    requires count - 1 !in taken
    ensures Ascending(taken + [count - 1])
    ensures forall k :: k in taken + [count - 1] <==> k in taken || k == count - 1
  {
    forall j | 0 <= j < |taken|
      ensures taken[j] < count - 1
    {
      assert taken[j] in taken;
    }
  }

  /** The last byte is out: what was made out is the batch in the slot, whole. */
  lemma TakenWholeInOrder(s: State)
    requires Inv(s) && s.worker.Taking? && |s.worker.bytes| == s.worker.length
    ensures TakenIsWritten(StepWorker(s))
  {
    LastInOrder(s.taken, |s.written|);
    assert s.worker.bytes == s.written[s.slot.value];
    var after := StepWorker(s);
    hide Accounted, DrainIsSafe, Exclusive;
    forall j | 0 <= j < |after.taken|
      ensures after.taken[j] < |after.written| && after.decoded[j] == after.written[after.taken[j]]
    {
      if j < |s.taken| {
        assert after.taken[j] == s.taken[j] && after.decoded[j] == s.decoded[j];
      }
    }
  }

  lemma TakenWholeInv(s: State)
    requires Inv(s) && s.worker.Taking? && |s.worker.bytes| == s.worker.length
    ensures Inv(StepWorker(s))
  {
    TakenWholeInOrder(s);
    LastInOrder(s.taken, |s.written|);
  }

  lemma TakeInv(s: State)
    requires Inv(s) && s.worker.Taking?
    ensures Inv(StepWorker(s))
  {
    if |s.worker.bytes| < s.worker.length {
      TakeByteInv(s);
    } else {
      TakenWholeInv(s);
    }
    hide Inv;
  }

  lemma StepWorkerInv(s: State)
    requires Inv(s)
    ensures Inv(StepWorker(s))
  {
    if s.worker.Taking? {
      TakeInv(s);
    }
  }

  lemma StepInv(s: State, a: Action)
    requires Inv(s)
    ensures Inv(Step(s, a))
  {
    match a
    case MainStep => StepMainInv(s);
    case WorkerStep => StepWorkerInv(s);
    case _ =>
  }

  lemma {:induction false} RunInv(s: State, actions: seq<Action>)
    requires Inv(s)
    ensures Inv(Run(s, actions))
    decreases |actions|
  {
    if actions != [] {
      StepInv(s, actions[0]);
      RunInv(Step(s, actions[0]), actions[1..]);
    }
  }

  // ----- what that says of a run ----------------------------------------------------------

  /** Under every interleaving: never both sides inside; every byte string the worker
      makes out is one whole written batch, in the order they were written and none
      twice; and every written batch was taken, or replaced before it was, or is
      still in the slot. */
  lemma BatchesArriveWholeAndInOrder(memory: seq<Byte>, actions: seq<Action>)
    requires |memory| == CAPACITY
    ensures var s := Run(Init(memory), actions);
      && !(MainHolds(s.main) && WorkerHolds(s.worker))
      && |s.decoded| == |s.taken|
      && (forall j :: 0 <= j < |s.taken| ==> s.taken[j] < |s.written| && s.decoded[j] == s.written[s.taken[j]])
      && (forall i, j :: 0 <= i < j < |s.taken| ==> s.taken[i] < s.taken[j])
      && (forall k :: 0 <= k < |s.written| ==>
            && (k in s.taken || k in s.replaced || s.slot == Some(k))
            && !(k in s.taken && k in s.replaced)
            && !(k in s.replaced && s.slot == Some(k)))
  {
    InitInv(memory);
    RunInv(Init(memory), actions);
  }

  /** Whenever the worker lets go, the slot is empty, and its next step frees the lock. */
  lemma LettingGoLeavesTheSlotEmpty(s: State)
    requires Inv(s) && WorkerHolds(s.worker) && !WorkerHolds(StepWorker(s).worker)
    ensures var after := StepWorker(s);
      after.length == 0 && after.lock == 0 && after.slot == None
  {
  }

  /** What only the worker thread, or its host, does. */
  predicate OfTheWorker(a: Action) {
    a.WorkerStep? || a.WorkerDies? || a.WorkerRestarts?
  }

  /** The slot and what has been written to it and lost from it. */
  predicate SameSlot(s: State, t: State) {
    s.length == t.length && s.memory == t.memory && s.slot == t.slot && s.written == t.written && s.replaced == t.replaced
  }

  lemma {:induction false} RunConcat(s: State, first: seq<Action>, second: seq<Action>)
    ensures Run(s, first + second) == Run(Run(s, first), second)
    decreases |first|
  {
    if first == [] {
      assert first + second == second;
    } else {
      assert (first + second)[1..] == first[1..] + second;
      RunConcat(Step(s, first[0]), first[1..], second);
    }
  }

  /** While the main thread holds the lock, nothing the worker does shows. */
  lemma {:induction false} WorkerWaitsOutside(s: State, actions: seq<Action>)
    requires Inv(s) && MainHolds(s.main) && forall a :: a in actions ==> OfTheWorker(a)
    ensures var t := Run(s, actions);
      Inv(t) && t.main == s.main && SameSlot(s, t)
    decreases |actions|
  {
    if actions != [] {
      assert actions[0] in actions;
      StepInv(s, actions[0]);
      assert SameSlot(s, Step(s, actions[0])) && Step(s, actions[0]).main == s.main;
      hide Inv, Step;
      WorkerWaitsOutside(Step(s, actions[0]), actions[1..]);
    }
  }

  lemma FailureShowsNothing(s: State, failure: Action)
    requires Inv(s) && s.main.Locked?
    requires failure == WriteFails || (failure == MainStep && |s.main.batch| > CAPACITY)
    ensures Inv(Step(s, failure)) && Step(s, failure).main == Written && SameSlot(s, Step(s, failure))
  {
    StepInv(s, failure);
  }

  lemma LastStepLetsGo(s: State)
    requires s.main.Written?
    ensures var t := Run(s, [MainStep]); t.main.Idle? && t.lock == 0 && SameSlot(s, t)
  {
    assert Run(s, [MainStep]) == Run(Step(s, MainStep), []);
  }

  /** A write that throws, at any point or for its size, leaves the slot as it was when the
      lock was taken, whatever the worker does until the lock is let go. */
  lemma FailedWriteTouchesNothing(s: State, before: seq<Action>, failure: Action, between: seq<Action>)
    requires Inv(s) && s.main.Locked?
    requires failure == WriteFails || (failure == MainStep && |s.main.batch| > CAPACITY)
    requires forall a :: a in before + between ==> OfTheWorker(a)
    ensures var t := Run(s, before + [failure] + between + [MainStep]);
      t.main.Idle? && t.lock == 0 && SameSlot(s, t)
  {
    forall a | a in before
      ensures OfTheWorker(a)
    {
      assert a in before + between;
    }
    forall a | a in between
      ensures OfTheWorker(a)
    {
      assert a in before + between;
    }
    WorkerWaitsOutside(s, before);
    var held := Run(s, before);
    var failed := Step(held, failure);
    FailureShowsNothing(held, failure);
    hide Inv, Step;
    assert Run(held, [failure]) == Run(failed, []);
    WorkerWaitsOutside(failed, between);
    var last := Run(failed, between);
    LastStepLetsGo(last);
    RunConcat(s, before, [failure]);
    RunConcat(s, before + [failure], between);
    RunConcat(s, before + [failure] + between, [MainStep]);
  }

  /** No flush of the ordinary kind is under way. */
  predicate OnlyDraining(m: Main) {
    (m.SawUnlocked? || m.Locked?) ==> m.draining
  }

  lemma DrainStep(s: State, a: Action)
    requires Inv(s) && OnlyDraining(s.main) && !a.FlushLook?
    ensures Step(s, a).replaced == s.replaced && OnlyDraining(Step(s, a).main)
  {
    match a
    case MainStep =>
    case WorkerStep =>
    case _ =>
  }

  /** The shutdown drain never overwrites a batch the worker is not done with. */
  lemma {:induction false} DrainReplacesNothing(s: State, actions: seq<Action>)
    requires Inv(s) && OnlyDraining(s.main)
    requires forall a :: a in actions ==> !a.FlushLook?
    ensures Run(s, actions).replaced == s.replaced
    decreases |actions|
  {
    if actions != [] {
      var next := Step(s, actions[0]);
      StepInv(s, actions[0]);
      DrainStep(s, actions[0]);
      hide Inv, Step;
      DrainReplacesNothing(next, actions[1..]);
    }
  }

  /** Outside the drain a batch is replaced exactly when the main thread starts
      writing over one still in the slot. */
  lemma ReplacedExactlyWhenOverwritten(s: State, a: Action)
    requires Inv(s)
    ensures Step(s, a).replaced != s.replaced
       <==> a.MainStep? && s.main.Locked? && |s.main.batch| <= CAPACITY && s.length != 0
  {
  }

  /** A worker that dies inside keeps the lock for good: nothing is written or taken
      again, restarts and all. */
  lemma {:induction false} OrphanedLockIsForever(s: State, actions: seq<Action>)
    requires Inv(s) && s.orphaned
    ensures var after := Run(s, actions);
      && after.lock == 1 && after.orphaned
      && after.written == s.written && after.decoded == s.decoded
    decreases |actions|
  {
    if actions != [] {
      var next := Step(s, actions[0]);
      StepInv(s, actions[0]);
      assert next.orphaned && next.written == s.written && next.decoded == s.decoded;
      OrphanedLockIsForever(next, actions[1..]);
    }
  }

  // ----- as long as nobody died inside, the lock comes free and the batch goes out ------------

  function WorkerSteps(n: nat): (r: seq<Action>)
    ensures |r| == n && forall a :: a in r ==> a == WorkerStep
  {
    if n == 0 then [] else [WorkerStep] + WorkerSteps(n - 1)
  }

  function MainSteps(n: nat): (r: seq<Action>)
    ensures |r| == n
  {
    if n == 0 then [] else [MainStep] + MainSteps(n - 1)
  }

  /** How many steps the worker needs until it lets go. */
  function WorkerLeft(w: Worker, length: nat): nat {
    match w
    case Holding => if length == 0 then 3 else length + 5
    case Taking(toTake, bytes) => if |bytes| < toTake then toTake - |bytes| + 4 else 4
    case Sending(_) => 3
    case Clearing => 2
    case Releasing => 1
    case _ => 0
  }

  function MainLeft(m: Main): nat {
    match m
    case Locked(batch, _) => |batch| + 3
    case Copying(batch, copied) => if copied < |batch| then |batch| - copied + 2 else 2
    case Written => 1
    case _ => 0
  }

  lemma WorkerGoesOn(s: State)
    requires Inv(s) && WorkerHolds(s.worker)
    ensures var t := StepWorker(s);
      && WorkerLeft(t.worker, t.length) + 1 == WorkerLeft(s.worker, s.length)
      && t.main == s.main && t.written == s.written && !t.orphaned
      && (forall k :: k in s.taken ==> k in t.taken)
      && (t.slot == s.slot || (t.slot.None? && s.slot.value in t.taken))
  {
  }

  /** A worker inside takes what is in the slot, whole, empties the slot and frees the
      lock, in as many steps as the batch has bytes and five. */
  lemma {:induction false} WorkerLetsGo(s: State)
    requires Inv(s) && WorkerHolds(s.worker)
    ensures var t := Run(s, WorkerSteps(WorkerLeft(s.worker, s.length)));
      && Inv(t) && t.worker.Waiting? && t.main == s.main && t.lock == 0
      && t.length == 0 && t.slot.None? && t.written == s.written
      && (forall k :: k in s.taken ==> k in t.taken)
      && (s.slot.Some? ==> s.slot.value in t.taken)
    decreases WorkerLeft(s.worker, s.length)
  {
    var n := WorkerLeft(s.worker, s.length);
    var t := StepWorker(s);
    StepWorkerInv(s);
    WorkerGoesOn(s);
    assert WorkerSteps(n)[1..] == WorkerSteps(n - 1);
    assert Step(s, WorkerStep) == t;
    if WorkerHolds(t.worker) {
      hide Inv, StepWorker, WorkerLeft;
      WorkerLetsGo(t);
    } else {
      LettingGoLeavesTheSlotEmpty(s);
      LetGo(s);
    }
  }

  lemma LetGo(s: State)
    requires Inv(s) && WorkerHolds(s.worker) && !WorkerHolds(StepWorker(s).worker)
    ensures WorkerLeft(s.worker, s.length) == 1 && StepWorker(s).worker.Waiting? && s.slot.None?
    ensures Run(StepWorker(s), WorkerSteps(0)) == StepWorker(s)
  {
  }

  lemma {:induction false} MainLetsGo(s: State) returns (n: nat)
    requires Inv(s) && MainHolds(s.main)
    ensures n <= MainLeft(s.main) && Run(s, MainSteps(n)).lock == 0
    decreases MainLeft(s.main)
  {
    var t := StepMain(s);
    StepMainInv(s);
    assert Step(s, MainStep) == t;
    if MainHolds(t.main) {
      assert MainLeft(t.main) < MainLeft(s.main);
      var m := MainLetsGo(t);
      n := m + 1;
    } else {
      n := 1;
      assert Run(t, MainSteps(0)) == t;
    }
    assert MainSteps(n)[1..] == MainSteps(n - 1);
  }

  /** For every state there can be: the lock can never come free again exactly when the
      worker died inside. */
  lemma OrphanedExactlyWhenForGood(s: State)
    requires Inv(s)
    ensures s.orphaned <==> forall actions :: Run(s, actions).lock == 1
  {
    if s.orphaned {
      forall actions
        ensures Run(s, actions).lock == 1
      {
        OrphanedLockIsForever(s, actions);
      }
    } else if MainHolds(s.main) {
      var n := MainLetsGo(s);
      assert Run(s, MainSteps(n)).lock == 0;
    } else if WorkerHolds(s.worker) {
      WorkerLetsGo(s);
      assert Run(s, WorkerSteps(WorkerLeft(s.worker, s.length))).lock == 0;
    } else {
      var none: seq<Action> := [];
      assert Run(s, none) == s;
    }
  }

  /** It can come to that: a worker that takes the lock and dies. */
  lemma DyingInsideOrphans(memory: seq<Byte>)
    requires |memory| == CAPACITY
    ensures Run(Init(memory), [WorkerStep, WorkerDies]).orphaned
  {
    var s := Init(memory);
    assert [WorkerStep, WorkerDies][1..] == [WorkerDies];
    assert Run(Step(s, WorkerStep), [WorkerDies]) == Run(Step(Step(s, WorkerStep), WorkerDies), []);
  }

  /** What the worker does about a batch in the slot, started again if it has died. */
  function Attended(s: State, n: nat): seq<Action> {
    (if s.worker.Dead? then [WorkerRestarts] else []) + WorkerSteps(n)
  }

  /** With the main thread out of the way a batch in the slot is taken, whole, within as
      many steps as it has bytes and six; then the slot is empty and the lock free. */
  lemma BatchGoesOut(s: State) returns (n: nat)
    requires Inv(s) && !s.orphaned && s.main.Idle? && s.slot.Some?
    ensures n <= s.length + 6
    ensures var t := Run(s, Attended(s, n));
      && t.lock == 0 && t.length == 0 && t.slot.None?
      && |t.decoded| == |t.taken|
      && exists j :: 0 <= j < |t.taken| && t.taken[j] == s.slot.value && t.decoded[j] == s.written[s.slot.value]
  {
    var awake := if s.worker.Dead? then Step(s, WorkerRestarts) else s;
    var restart: seq<Action> := if s.worker.Dead? then [WorkerRestarts] else [];
    StepInv(s, WorkerRestarts);
    assert Run(s, restart) == awake by {
      if s.worker.Dead? {
        assert Run(s, restart) == Run(awake, []);
      }
    }
    var inside := if awake.worker.Waiting? then StepWorker(awake) else awake;
    StepWorkerInv(awake);
    var left := WorkerLeft(inside.worker, inside.length);
    WorkerLetsGo(inside);
    var t := Run(inside, WorkerSteps(left));
    n := if awake.worker.Waiting? then left + 1 else left;
    assert Run(awake, WorkerSteps(n)) == t by {
      if awake.worker.Waiting? {
        assert WorkerSteps(n)[1..] == WorkerSteps(left);
        assert Step(awake, WorkerStep) == inside;
      }
    }
    RunConcat(s, restart, WorkerSteps(n));
    assert s.slot.value in t.taken;
    var j :| 0 <= j < |t.taken| && t.taken[j] == s.slot.value;
    assert t.decoded[j] == t.written[t.taken[j]];
  }

  // ----- a flush writes ------------------------------------------------------------------------

  /** A batch whole in the slot, the last one written, and both the lock and the main thread
      free; the worker where it was. */
  predicate WrittenWhole(s: State, t: State, batch: Batch) {
    && t.written == s.written + [batch] && t.slot == Some(|s.written|)
    && t.length == |batch| <= |t.memory| && t.memory[..t.length] == batch
    && t.lock == 0 && t.main.Idle?
    && t.worker == s.worker && t.taken == s.taken && t.decoded == s.decoded && t.orphaned == s.orphaned
  }

  lemma MainStepsOn(s: State, n: nat)
    requires n > 0
    ensures Run(s, MainSteps(n)) == Run(StepMain(s), MainSteps(n - 1))
  {
    assert MainSteps(n)[1..] == MainSteps(n - 1);
    assert Step(s, MainStep) == StepMain(s);
  }

  /** The copy goes on to its last byte, and the lock is let go. */
  lemma {:induction false} CopyFinishes(s: State)
    requires Inv(s) && s.main.Copying?
    ensures WrittenWhole(s, Run(s, MainSteps(|s.main.batch| - s.main.copied + 2)), s.main.batch)
    decreases |s.main.batch| - s.main.copied
  {
    var batch, copied := s.main.batch, s.main.copied;
    var n := |batch| - copied + 2;
    var t := StepMain(s);
    CopyInv(s);
    MainStepsOn(s, n);
    if copied < |batch| {
      assert t == s.(memory := s.memory[copied := batch[copied]], main := Copying(batch, copied + 1));
      hide Inv;
      CopyFinishes(t);
    } else {
      MainStepsOn(t, 1);
      assert batch[..copied] == batch;
      assert Run(StepMain(t), MainSteps(0)) == StepMain(t);
    }
  }

  /** From the free lock on: taken, the batch written over whatever is there, let go. */
  lemma UnlockedWrites(s: State, batch: Batch, draining: bool)
    requires Inv(s) && s.main == SawUnlocked(batch, draining) && s.lock == 0 && |batch| <= 16777208
    ensures WrittenWhole(s, Run(s, MainSteps(|batch| + 4)), batch)
  {
    var locked := StepMain(s);
    var copying := StepMain(locked);
    StepMainInv(s);
    StepMainInv(locked);
    assert copying.main == Copying(batch, 0) && copying.written == s.written;
    MainStepsOn(s, |batch| + 4);
    MainStepsOn(locked, |batch| + 3);
    hide Inv;
    CopyFinishes(copying);
  }

  /** A flush that finds the lock free writes its batch, whole, when the main thread goes on
      from there: as many steps as the batch has bytes and four. One that finds it taken, or
      one too large for the slot, writes nothing. */
  lemma FlushWrites(s: State, batch: Batch)
    requires Inv(s) && s.main.Idle?
    ensures s.lock == 0 && |batch| <= 16777208 ==>
      WrittenWhole(s, Run(s, [FlushLook(batch)] + MainSteps(|batch| + 4)), batch)
    ensures s.lock == 1 ==> Step(s, FlushLook(batch)) == s
    ensures s.lock == 0 && |batch| > 16777208 ==> Run(s, [FlushLook(batch)] + MainSteps(3)) == s
  {
    if s.lock == 0 {
      var looked := Step(s, FlushLook(batch));
      StepInv(s, FlushLook(batch));
      if |batch| <= 16777208 {
        UnlockedWrites(looked, batch, false);
        RunFirst(s, FlushLook(batch), MainSteps(|batch| + 4));
      } else {
        RunFirst(s, FlushLook(batch), MainSteps(3));
        MainStepsOn(looked, 3);
        MainStepsOn(StepMain(looked), 2);
        MainStepsOn(StepMain(StepMain(looked)), 1);
        assert StepMain(StepMain(StepMain(looked))) == s;
      }
    }
  }

  /** The drain writes too, into the slot it saw empty; and where it did not, it waits. */
  lemma DrainWrites(s: State, batch: Batch)
    requires Inv(s) && s.main.Idle?
    ensures s.length == 0 && s.lock == 0 && |batch| <= 16777208 ==>
      WrittenWhole(s, Run(s, [DrainLook(batch)] + MainSteps(|batch| + 5)), batch)
    ensures s.length != 0 ==> Step(s, DrainLook(batch)) == s
  {
    if s.length == 0 && s.lock == 0 && |batch| <= 16777208 {
      var looked := Step(s, DrainLook(batch));
      StepInv(s, DrainLook(batch));
      StepMainInv(looked);
      UnlockedWrites(StepMain(looked), batch, true);
      MainStepsOn(looked, |batch| + 5);
      RunFirst(s, DrainLook(batch), MainSteps(|batch| + 5));
    }
  }

  lemma RunFirst(s: State, a: Action, rest: seq<Action>)
    ensures Run(s, [a] + rest) == Run(Step(s, a), rest)
  {
    assert ([a] + rest)[1..] == rest;
  }

  /** End to end: a batch flushed while the lock is free comes out at the worker byte for
      byte, and leaves the slot empty and the lock free. */
  lemma FlushedBatchArrives(s: State, batch: Batch) returns (n: nat)
    requires Inv(s) && s.main.Idle? && s.lock == 0 && |batch| <= 16777208
    ensures n <= |batch| + 6
    ensures var written := Run(s, [FlushLook(batch)] + MainSteps(|batch| + 4));
      var t := Run(written, Attended(written, n));
      && t.lock == 0 && t.length == 0 && t.slot.None?
      && |t.decoded| == |t.taken|
      && exists j :: 0 <= j < |t.taken| && t.taken[j] == |s.written| && t.decoded[j] == batch
  {
    FlushWrites(s, batch);
    var actions := [FlushLook(batch)] + MainSteps(|batch| + 4);
    RunInv(s, actions);
    var written := Run(s, actions);
    assert !written.orphaned;
    hide Run, Inv, Attended;
    n := BatchGoesOut(written);
  }
}
