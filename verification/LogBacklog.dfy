/** Log lines on their way out: the batch being built takes the first 250, a bounded
    backlog the next 2000, and only what fits neither is lost. */
module LogBacklog {

  const MAX_LOGS_PER_BATCH: nat := 250
  const MAX_PENDING_LOGS: nat := 2000
  const MAX_LOG_ENTRY_LENGTH: nat := 4096
  const TRUNCATION_SUFFIX := "... [truncated by observe]"

  /** A line's text, unless a caller passed something that is not text, and all else
      it carries. */
  datatype LogEntry =
    | Line(text: string, rest: nat)
    | Malformed(rest: nat)

  function Min(a: int, b: int): int {
    if a < b then a else b
  }

  function Fit(entry: LogEntry): (r: LogEntry)
    ensures r.Line? ==> |r.text| <= MAX_LOG_ENTRY_LENGTH
    ensures entry.Line? && |entry.text| <= MAX_LOG_ENTRY_LENGTH ==> r == entry
  {
    if entry.Line? && |entry.text| > MAX_LOG_ENTRY_LENGTH
    then entry.(text := entry.text[..MAX_LOG_ENTRY_LENGTH - |TRUNCATION_SUFFIX|] + TRUNCATION_SUFFIX)
    else entry
  }

  /** A line over 4096 characters keeps its head, says it was cut, and comes to just that
      many; all else it carries stays, and so does any other entry. */
  lemma FitMeans(entry: LogEntry)
    ensures Fit(entry).rest == entry.rest && (Fit(entry).Line? <==> entry.Line?)
    ensures entry.Line? && |entry.text| > 4096 ==>
      && |Fit(entry).text| == 4096
      && Fit(entry).text[..4070] == entry.text[..4070]
      && Fit(entry).text[4070..] == "... [truncated by observe]"
    ensures !(entry.Line? && |entry.text| > 4096) ==> Fit(entry) == entry
  {
    if entry.Line? && |entry.text| > 4096 {
      assert |TRUNCATION_SUFFIX| == 26;
      assert Fit(entry).text == entry.text[..4070] + TRUNCATION_SUFFIX;
    }
  }

  function FitAll(lines: seq<LogEntry>): seq<LogEntry> {
    seq(|lines|, i requires 0 <= i < |lines| => Fit(lines[i]))
  }

  // ----- where each line goes ---------------------------------------------------------

  datatype Pushed = Pushed(batch: seq<LogEntry>, backlog: seq<LogEntry>, dropped: seq<LogEntry>)

  /** Room for so many in a place that holds `cap` and has `used`. */
  function Room(cap: nat, used: nat, wanted: nat): (n: nat)
    ensures n <= wanted
  {
    if used >= cap then 0 else Min(cap - used, wanted)
  }

  /** The first lines fill the batch, the next the backlog, the last are lost. */
  function Push(batch: seq<LogEntry>, backlog: seq<LogEntry>, lines: seq<LogEntry>): Pushed {
    var direct := Room(MAX_LOGS_PER_BATCH, |batch|, |lines|);
    var held := Room(MAX_PENDING_LOGS, |backlog|, |lines| - direct);
    Pushed(
      batch + FitAll(lines[..direct]),
      backlog + FitAll(lines[direct..direct + held]),
      lines[direct + held..])
  }

  /** How many lines the backlog gives a batch that may hold `most`, if there is a
      most at all. */
  function DrainCount(batchLength: nat, backlogLength: nat, most: Limit): (n: nat)
    ensures n <= backlogLength
  {
    var ceiling := Min(MAX_PENDING_LOGS, backlogLength);
    match most
    case AtMost(cap) => Room(cap, batchLength, ceiling)
    case NoLimit => ceiling
  }

  /** What is taken is all there is, or fills the batch to its limit: an ordinary batch to
      250 lines, and the last one without a limit. */
  lemma DrainTakesAllItCan(batchLength: nat, backlogLength: nat)
    requires backlogLength <= 2000
    ensures var n := DrainCount(batchLength, backlogLength, AtMost(MAX_LOGS_PER_BATCH));
      if batchLength >= 250 then n == 0 else n == backlogLength || (n < backlogLength && batchLength + n == 250)
    ensures DrainCount(batchLength, backlogLength, NoLimit) == backlogLength
  {
  }

  datatype Limit = AtMost(cap: nat) | NoLimit

  /** A line is lost only once the batch holds 250 and the backlog 2000; the lines lost
      are the newest, and none is lost between lines kept. */
  lemma DroppedOnlyWhenBothAreFull(batch: seq<LogEntry>, backlog: seq<LogEntry>, lines: seq<LogEntry>)
    ensures var p := Push(batch, backlog, lines);
      && (p.dropped != [] ==> |p.batch| >= 250 && |p.backlog| >= 2000)
      && (|p.backlog| > |backlog| ==> |p.batch| >= 250)
      && |p.batch| <= (if |batch| > 250 then |batch| else 250) && |p.backlog| <= (if |backlog| > 2000 then |backlog| else 2000)
      && exists kept: nat :: kept <= |lines| && p.dropped == lines[kept..]
           && FitAll(lines[..kept]) == p.batch[|batch|..] + p.backlog[|backlog|..]
  {
    var direct := Room(MAX_LOGS_PER_BATCH, |batch|, |lines|);
    var held := Room(MAX_PENDING_LOGS, |backlog|, |lines| - direct);
    var p := Push(batch, backlog, lines);
    assert FitAll(lines[..direct + held]) == p.batch[|batch|..] + p.backlog[|backlog|..];
  }

  // ----- pushing lines one at a time -----------------------------------------------------

  lemma FitAllOneMore(lines: seq<LogEntry>, from: nat, i: nat)
    requires from <= i < |lines|
    ensures FitAll(lines[from..i + 1]) == FitAll(lines[from..i]) + [Fit(lines[i])]
  {
  }

  lemma PushInStretches(buffered: seq<LogEntry>, backlog: seq<LogEntry>, lines: seq<LogEntry>, direct: nat, held: nat)
    requires direct == Room(MAX_LOGS_PER_BATCH, |buffered|, |lines|) && held == Room(MAX_PENDING_LOGS, |backlog|, |lines| - direct)
    ensures Push(buffered, backlog, lines)
         == Pushed(buffered + FitAll(lines[0..direct]), backlog + FitAll(lines[direct..direct + held]), lines[direct + held..])
  {
    assert lines[0..direct] == lines[..direct];
  }

  lemma RoomIs(cap: nat, used: nat, wanted: nat, n: nat)
    requires n <= wanted && (n > 0 ==> used + n <= cap) && (n < wanted ==> used + n >= cap)
    ensures Room(cap, used, wanted) == n
  {
  }

  /** Fills the batch, then the backlog, and stops at the first line that fits neither. */
  method PushAll(batch: seq<LogEntry>, backlog: seq<LogEntry>, lines: seq<LogEntry>)
    returns (buffered: seq<LogEntry>, pending: seq<LogEntry>)
    ensures Push(batch, backlog, lines).batch == buffered && Push(batch, backlog, lines).backlog == pending
  {
    hide Push, FitAll, Fit, Room;
    buffered, pending := batch, backlog;
    NoneFits(lines[0..0]);
    var i := 0;
    ghost var direct := 0;
    while i < |lines|
      invariant direct <= i <= |lines|
      invariant |FitAll(lines[0..direct])| == direct && |FitAll(lines[direct..i])| == i - direct
      invariant buffered == batch + FitAll(lines[0..direct]) && pending == backlog + FitAll(lines[direct..i])
      invariant direct > 0 ==> |batch| + direct <= MAX_LOGS_PER_BATCH
      invariant direct < i ==> |batch| + direct >= MAX_LOGS_PER_BATCH && |backlog| + (i - direct) <= MAX_PENDING_LOGS
    {
      FitAllOneMore(lines, direct, i);
      assert direct < i || |buffered| == |batch| + i;
      var entry := Fit(lines[i]);
      if |buffered| < MAX_LOGS_PER_BATCH {
        FitAllOneMore(lines, 0, i);
        NoneFits(lines[i + 1..i + 1]);
        buffered := buffered + [entry];
        direct := direct + 1;
      } else if |pending| < MAX_PENDING_LOGS {
        pending := pending + [entry];
      } else {
        break;
      }
      i := i + 1;
    }
    RoomIs(MAX_LOGS_PER_BATCH, |batch|, |lines|, direct);
    RoomIs(MAX_PENDING_LOGS, |backlog|, |lines| - direct, i - direct);
    PushInStretches(batch, backlog, lines, direct, i - direct);
  }

  lemma NoneFits(lines: seq<LogEntry>)
    requires lines == []
    ensures FitAll(lines) == []
  {
  }

  // ----- the book of every line ---------------------------------------------------------

  /** What has become of every line so far: `pushed` as they came, `queued` those that
      ever entered the backlog and `drained` those that left it, `handedOff` those in
      batches that are gone, `dropped` those lost. */
  datatype Book = Book(
    batch: seq<LogEntry>,
    backlog: seq<LogEntry>,
    pushed: seq<LogEntry>,
    queued: seq<LogEntry>,
    drained: seq<LogEntry>,
    handedOff: seq<LogEntry>,
    dropped: seq<LogEntry>)

  datatype Move =
    | Came(lines: seq<LogEntry>)
    | TimerDrain
    | FinalDrain
    | BatchLeaves

  const EmptyBook := Book([], [], [], [], [], [], [])

  function Drain(b: Book, most: Limit): Book {
    var n := DrainCount(|b.batch|, |b.backlog|, most);
    b.(batch := b.batch + b.backlog[..n], backlog := b.backlog[n..],
       drained := b.drained + b.backlog[..n])
  }

  /** The final flush lifts the cap only where there is no batch yet. */
  function Apply(b: Book, move: Move): Book {
    match move
    case Came(lines) =>
      var p := Push(b.batch, b.backlog, lines);
      b.(batch := p.batch, backlog := p.backlog, pushed := b.pushed + FitAll(lines),
         queued := b.queued + p.backlog[|b.backlog|..], dropped := b.dropped + FitAll(p.dropped))
    case TimerDrain => Drain(b, AtMost(MAX_LOGS_PER_BATCH))
    case FinalDrain => if b.batch == [] then Drain(b, NoLimit) else b
    case BatchLeaves => b.(batch := [], handedOff := b.handedOff + b.batch)
  }

  function Run(b: Book, moves: seq<Move>): Book
    decreases |moves|
  {
    if moves == [] then b else Run(Apply(b, moves[0]), moves[1..])
  }

  /** Every line pushed is in exactly one place; the backlog is what entered it and has
      not left, in the order it entered; and both ends are bounded. */
  ghost predicate Balanced(b: Book, most: nat) {
    && multiset(b.pushed) == multiset(b.batch) + multiset(b.backlog) + multiset(b.handedOff) + multiset(b.dropped)
    && b.queued == b.drained + b.backlog
    && |b.backlog| <= MAX_PENDING_LOGS
    && |b.batch| <= most
  }

  lemma PushSplits(batch: seq<LogEntry>, backlog: seq<LogEntry>, lines: seq<LogEntry>)
    ensures var p := Push(batch, backlog, lines);
      && |batch| <= |p.batch| && |backlog| <= |p.backlog|
      && p.batch == batch + p.batch[|batch|..]
      && p.backlog == backlog + p.backlog[|backlog|..]
      && FitAll(lines) == p.batch[|batch|..] + p.backlog[|backlog|..] + FitAll(p.dropped)
  {
  }

  lemma PushIsBounded(batch: seq<LogEntry>, backlog: seq<LogEntry>, lines: seq<LogEntry>, most: nat)
    requires |batch| <= most && |backlog| <= MAX_PENDING_LOGS && most >= MAX_LOGS_PER_BATCH
    ensures |Push(batch, backlog, lines).batch| <= most
    ensures |Push(batch, backlog, lines).backlog| <= MAX_PENDING_LOGS
  {
  }

  /** Taking a line of three parts to three places loses nothing. */
  lemma SplitBalances(pushed: seq<LogEntry>, all: seq<LogEntry>, handedOff: seq<LogEntry>,
                      batch: seq<LogEntry>, a: seq<LogEntry>, backlog: seq<LogEntry>, b: seq<LogEntry>,
                      dropped: seq<LogEntry>, c: seq<LogEntry>)
    requires multiset(pushed) == multiset(batch) + multiset(backlog) + multiset(handedOff) + multiset(dropped)
    requires all == a + b + c
    ensures multiset(pushed + all)
         == multiset(batch + a) + multiset(backlog + b) + multiset(handedOff) + multiset(dropped + c)
  {
  }

  lemma CameBalances(b: Book, lines: seq<LogEntry>, most: nat)
    requires Balanced(b, most) && most >= MAX_LOGS_PER_BATCH
    ensures Balanced(Apply(b, Came(lines)), most)
  {
    PushSplits(b.batch, b.backlog, lines);
    PushIsBounded(b.batch, b.backlog, lines, most);
    hide Push, FitAll;
    var p := Push(b.batch, b.backlog, lines);
    CameBalancesInParts(b, most, p.batch[|b.batch|..], p.backlog[|b.backlog|..], FitAll(p.dropped));
  }

  lemma CameBalancesInParts(b: Book, most: nat, direct: seq<LogEntry>, held: seq<LogEntry>, lost: seq<LogEntry>)
    requires Balanced(b, most)
    requires |b.batch + direct| <= most && |b.backlog + held| <= MAX_PENDING_LOGS
    ensures Balanced(b.(batch := b.batch + direct, backlog := b.backlog + held, pushed := b.pushed + (direct + held + lost),
                        queued := b.queued + held, dropped := b.dropped + lost), most)
  {
    SplitBalances(b.pushed, direct + held + lost, b.handedOff, b.batch, direct, b.backlog, held, b.dropped, lost);
    assert b.queued + held == b.drained + (b.backlog + held);
  }

  lemma DrainBalances(b: Book, limit: Limit, most: nat)
    requires Balanced(b, most)
    requires limit.AtMost? ==> limit.cap <= most
    requires limit.NoLimit? ==> b.batch == [] && most >= MAX_PENDING_LOGS
    ensures Balanced(Drain(b, limit), most)
  {
    var n := DrainCount(|b.batch|, |b.backlog|, limit);
    assert b.backlog == b.backlog[..n] + b.backlog[n..];
    assert |b.batch| + n <= most;
    hide DrainCount;
    DrainBalancesInParts(b, most, b.backlog[..n], b.backlog[n..]);
  }

  lemma DrainBalancesInParts(b: Book, most: nat, taken: seq<LogEntry>, left: seq<LogEntry>)
    requires Balanced(b, most) && b.backlog == taken + left && |b.batch| + |taken| <= most
    ensures Balanced(b.(batch := b.batch + taken, backlog := left, drained := b.drained + taken), most)
  {
    assert b.drained + b.backlog == b.drained + taken + left;
  }

  lemma MoveBalances(b: Book, move: Move, most: nat)
    requires Balanced(b, most) && most >= MAX_LOGS_PER_BATCH
    requires move.FinalDrain? ==> most >= MAX_PENDING_LOGS
    ensures Balanced(Apply(b, move), most)
  {
    match move
    case Came(lines) => CameBalances(b, lines, most);
    case TimerDrain => DrainBalances(b, AtMost(MAX_LOGS_PER_BATCH), most);
    case FinalDrain =>
      if b.batch == [] {
        DrainBalances(b, NoLimit, most);
      }
    case BatchLeaves =>
  }

  lemma {:induction false} RunBalances(b: Book, moves: seq<Move>, most: nat)
    requires Balanced(b, most) && most >= MAX_LOGS_PER_BATCH
    requires FinalDrain in moves ==> most >= MAX_PENDING_LOGS
    ensures Balanced(Run(b, moves), most)
    decreases |moves|
  {
    if moves != [] {
      assert moves[0] in moves;
      MoveBalances(b, moves[0], most);
      RunBalances(Apply(b, moves[0]), moves[1..], most);
    }
  }

  /** Over any run no line is lost track of or counted twice, the backlog is first in,
      first out, and a batch holds at most 250 lines, or 2000 in the final flush. */
  lemma LinesAreConserved(moves: seq<Move>)
    ensures Balanced(Run(EmptyBook, moves),
                     if FinalDrain in moves then MAX_PENDING_LOGS else MAX_LOGS_PER_BATCH)
  {
    RunBalances(EmptyBook, moves, if FinalDrain in moves then MAX_PENDING_LOGS else MAX_LOGS_PER_BATCH);
  }
}
