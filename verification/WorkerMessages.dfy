/** The worker's lines as the main thread hears them: what each does to the buffer, and
    what a whole history of sends comes to there. */
module WorkerMessages {
  import opened Ingest
  import opened SharedBuffer
  import opened IngestRuns
  import opened WorkerLines
  import DetachedWorker

  /** What a message heard does. An accepted batch is noted before its verdict. */
  function EventsOf(claim: Claim, at: nat): seq<Event> {
    match claim
    case Grants(grant) => [GrantRead(grant, at)]
    case Verdict(mode, _) => [NewsHeard(BatchAccepted), VerdictRead(mode, at)]
    case NotIngested(CredentialsTurnedAway) => [NewsHeard(CredentialsRefused)]
    case _ => []
  }

  function EventsOfAll(messages: seq<string>, at: nat): seq<Event> {
    if messages == [] then [] else EventsOf(ClaimOf(messages[0]), at) + EventsOfAll(messages[1..], at)
  }

  function PrintAll(lines: seq<Line>): (r: seq<string>)
    ensures |r| == |lines|
  {
    seq(|lines|, i requires 0 <= i < |lines| => Print(lines[i]))
  }

  function MeantByAll(lines: seq<Line>, at: nat): seq<Event> {
    if lines == [] then [] else EventsOf(Meant(lines[0]), at) + MeantByAll(lines[1..], at)
  }

  lemma PrintedOneByOne(lines: seq<Line>)
    requires lines != []
    ensures PrintAll(lines)[0] == Print(lines[0]) && PrintAll(lines)[1..] == PrintAll(lines[1..])
  {
    hide Print;
  }

  lemma {:induction false} HeardAsMeant(lines: seq<Line>, at: nat)
    ensures EventsOfAll(PrintAll(lines), at) == MeantByAll(lines, at)
  {
    if lines != [] {
      LinesReadBack(lines[0]);
      PrintedOneByOne(lines);
      hide ClaimOf, Print, PrintAll, Meant, EventsOf;
      HeardAsMeant(lines[1..], at);
    }
  }

  /** The messages of one send. */
  function MessagesOf(o: DetachedWorker.Outcome, asksForOtlpExport: bool, until: nat, refusals: nat): seq<string> {
    PrintAll(DetachedWorker.LinesOf(o, asksForOtlpExport, until, refusals))
  }

  /** What the main thread should make of one send: of an accepted batch its grant, that
      it was accepted, and its verdict, in this order; of refused credentials the refusal;
      and of anything else nothing, a batch that was repaired and then accepted included. */
  function EffectOf(o: DetachedWorker.Outcome, asksForOtlpExport: bool, at: nat): seq<Event> {
    if DetachedWorker.Accepted(o) then
      (if asksForOtlpExport then [GrantRead(o.reply.otlpExport, at)] else [])
        + [NewsHeard(BatchAccepted), VerdictRead(ModeOf(o.reply), at)]
    else if DetachedWorker.Refused(o) then [NewsHeard(CredentialsRefused)]
    else []
  }

  lemma MeantByConcat(a: Line, rest: seq<Line>, at: nat)
    ensures MeantByAll([a] + rest, at) == EventsOf(Meant(a), at) + MeantByAll(rest, at)
    ensures MeantByAll([], at) == []
  {
    assert ([a] + rest)[1..] == rest;
  }

  lemma MeantByThree(a: Line, b: Line, c: Line, at: nat)
    ensures MeantByAll([a], at) == EventsOf(Meant(a), at)
    ensures MeantByAll([a, b], at) == EventsOf(Meant(a), at) + EventsOf(Meant(b), at)
    ensures MeantByAll([a, b, c], at) == EventsOf(Meant(a), at) + (EventsOf(Meant(b), at) + EventsOf(Meant(c), at))
  {
    MeantByConcat(a, [], at);
    MeantByConcat(b, [], at);
    MeantByConcat(c, [], at);
    MeantByConcat(b, [c], at);
    MeantByConcat(a, [b], at);
    MeantByConcat(a, [b, c], at);
    hide MeantByAll, EventsOf, Meant;
    assert [a] + [] == [a] && [b] + [] == [b] && [c] + [] == [c];
    assert [b] + [c] == [b, c] && [a] + [b] == [a, b] && [a] + [b, c] == [a, b, c];
  }

  lemma AcceptedIsHeard(reply: Reply, asksForOtlpExport: bool, at: nat)
    ensures MeantByAll([VerdictLine(reply), SentLine], at) == [NewsHeard(BatchAccepted), VerdictRead(ModeOf(reply), at)]
    ensures MeantByAll([GrantLine(reply.otlpExport), VerdictLine(reply), SentLine], at)
         == [GrantRead(reply.otlpExport, at)] + [NewsHeard(BatchAccepted), VerdictRead(ModeOf(reply), at)]
  {
    MeantByThree(VerdictLine(reply), SentLine, SentLine, at);
    MeantByThree(GrantLine(reply.otlpExport), VerdictLine(reply), SentLine, at);
    hide MeantByAll, ModeOf;
  }

  lemma FailureIsHeard(until: nat, at: nat)
    ensures MeantByAll([ErrorLine("")], at) == []
    ensures MeantByAll([ErrorLine(""), NotIngestedLine(Failed)], at) == []
    ensures MeantByAll([PausedLine(until), NotIngestedLine(Failed), ErrorLine("")], at) == []
    ensures MeantByAll([PausedLine(until), NotIngestedLine(CredentialsTurnedAway)], at) == [NewsHeard(CredentialsRefused)]
    ensures MeantByAll([PausedLine(until), NotIngestedLine(CredentialsTurnedAway), ErrorLine("")], at) == [NewsHeard(CredentialsRefused)]
  {
    MeantByThree(ErrorLine(""), NotIngestedLine(Failed), SentLine, at);
    MeantByThree(PausedLine(until), NotIngestedLine(Failed), ErrorLine(""), at);
    MeantByThree(PausedLine(until), NotIngestedLine(CredentialsTurnedAway), ErrorLine(""), at);
    hide MeantByAll;
  }

  lemma LinesOneByOne(o: DetachedWorker.Outcome, asksForOtlpExport: bool, until: nat, refusals: nat)
    ensures var lines := DetachedWorker.LinesOf(o, asksForOtlpExport, until, refusals);
      if DetachedWorker.Accepted(o) then
        lines == if asksForOtlpExport then [GrantLine(o.reply.otlpExport), VerdictLine(o.reply), SentLine] else [VerdictLine(o.reply), SentLine]
      else if DetachedWorker.Refused(o) then
        || lines == [PausedLine(until), NotIngestedLine(CredentialsTurnedAway)]
        || lines == [PausedLine(until), NotIngestedLine(CredentialsTurnedAway), ErrorLine("")]
      else
        || lines == [ErrorLine("")]
        || lines == [ErrorLine(""), NotIngestedLine(Failed)]
        || lines == [PausedLine(until), NotIngestedLine(Failed), ErrorLine("")]
  {
  }

  /** Printed, told apart and acted on, the lines of any send do what they should. */
  lemma SendsAreHeard(o: DetachedWorker.Outcome, asksForOtlpExport: bool, until: nat, refusals: nat, at: nat)
    ensures EventsOfAll(MessagesOf(o, asksForOtlpExport, until, refusals), at) == EffectOf(o, asksForOtlpExport, at)
  {
    HeardAsMeant(DetachedWorker.LinesOf(o, asksForOtlpExport, until, refusals), at);
    LinesOneByOne(o, asksForOtlpExport, until, refusals);
    FailureIsHeard(until, at);
    if DetachedWorker.Accepted(o) {
      AcceptedIsHeard(o.reply, asksForOtlpExport, at);
    }
    hide MeantByAll, EventsOfAll, PrintAll, ModeOf, DetachedWorker.LinesOf;
  }

  /** A batch that got in, on its own or repaired and sent again. */
  predicate GotIn(o: DetachedWorker.Outcome) {
    DetachedWorker.Accepted(o) || (o.Answered? && o.status == 400 && o.repair == DetachedWorker.RepairedAndAccepted)
  }

  /** Of a batch that got in, the main thread hears that it did exactly when its own status
      said so: one repaired and then accepted goes unheard. One that did not get in is
      never heard as accepted. */
  lemma HeardAsAcceptedExactlyByItsOwnStatus(o: DetachedWorker.Outcome, asksForOtlpExport: bool, until: nat, refusals: nat, at: nat)
    ensures var events := EventsOfAll(MessagesOf(o, asksForOtlpExport, until, refusals), at);
      && (GotIn(o) ==> (NewsHeard(BatchAccepted) in events <==> 200 <= o.status < 300))
      && (!GotIn(o) ==> NewsHeard(BatchAccepted) !in events)
  {
    SendsAreHeard(o, asksForOtlpExport, until, refusals, at);
    hide EventsOfAll, MessagesOf;
  }

  /** A batch that got in and of which nothing is heard. */
  lemma RepairedGoesUnheard(reply: Reply, asksForOtlpExport: bool, until: nat, refusals: nat, at: nat)
    ensures var o := DetachedWorker.Answered(400, None, reply, DetachedWorker.RepairedAndAccepted);
      GotIn(o) && EventsOfAll(MessagesOf(o, asksForOtlpExport, until, refusals), at) == []
  {
    SendsAreHeard(DetachedWorker.Answered(400, None, reply, DetachedWorker.RepairedAndAccepted), asksForOtlpExport, until, refusals, at);
    hide EventsOfAll, MessagesOf;
  }

  // ----- whole histories -------------------------------------------------------------------

  function HistoryHeard(h: seq<DetachedWorker.Send>, asksForOtlpExport: bool): seq<Event>
    decreases |h|
  {
    if h == [] then []
    else EffectOf(h[0].outcome, asksForOtlpExport, h[0].answered) + HistoryHeard(h[1..], asksForOtlpExport)
  }

  /** Each answer comes after the one before it. */
  ghost predicate Ascending(h: seq<DetachedWorker.Send>) {
    forall i, j :: 0 <= i < j < |h| ==> h[i].answered <= h[j].answered
  }

  lemma {:induction false} InOrderConcat(heard: Heard, first: seq<Event>, second: seq<Event>)
    requires AllInOrder(heard, first) && AllInOrder(HearAll(heard, first), second)
    ensures AllInOrder(heard, first + second)
    ensures HearAll(heard, first + second) == HearAll(HearAll(heard, first), second)
    decreases |first|
  {
    if first == [] {
      assert first + second == second;
    } else {
      assert (first + second)[1..] == first[1..] + second;
      InOrderConcat(Hear(heard, first[0]), first[1..], second);
    }
  }

  lemma EffectInOrder(heard: Heard, o: DetachedWorker.Outcome, asksForOtlpExport: bool, at: nat)
    requires !heard.midReply && heard.clock <= at
    ensures var effect := EffectOf(o, asksForOtlpExport, at);
      && AllInOrder(heard, effect)
      && !HearAll(heard, effect).midReply
      && HearAll(heard, effect).clock <= at
      && HearAll(heard, effect).verdict == if DetachedWorker.Accepted(o) then Some(ModeOf(o.reply)) else heard.verdict
  {
    var effect := EffectOf(o, asksForOtlpExport, at);
    if DetachedWorker.Accepted(o) {
      var rest: seq<Event> := [NewsHeard(BatchAccepted), VerdictRead(ModeOf(o.reply), at)];
      var next := if asksForOtlpExport then Hear(heard, GrantRead(o.reply.otlpExport, at)) else heard;
      assert rest[1..] == [VerdictRead(ModeOf(o.reply), at)];
      assert rest[1..][1..] == [];
      assert AllInOrder(next, rest);
      assert HearAll(next, rest) == HearAll(Hear(Hear(next, rest[0]), rest[1]), []);
      if asksForOtlpExport {
        assert effect[1..] == rest;
      } else {
        assert effect == rest;
      }
    } else if DetachedWorker.Refused(o) {
      assert effect[1..] == [];
    }
  }

  /** The verdict of the last batch accepted, if one was. */
  function LastVerdict(h: seq<DetachedWorker.Send>, before: Option<IngestMode>): Option<IngestMode>
    decreases |h|
  {
    if h == [] then before
    else LastVerdict(h[1..], if DetachedWorker.Accepted(h[0].outcome) then Some(ModeOf(h[0].outcome.reply)) else before)
  }

  lemma {:induction false} HistoryInOrder(heard: Heard, h: seq<DetachedWorker.Send>, asksForOtlpExport: bool)
    requires !heard.midReply && Ascending(h) && (h != [] ==> heard.clock <= h[0].answered)
    ensures var events := HistoryHeard(h, asksForOtlpExport);
      AllInOrder(heard, events) && !HearAll(heard, events).midReply
      && HearAll(heard, events).verdict == LastVerdict(h, heard.verdict)
    decreases |h|
  {
    if h != [] {
      var effect := EffectOf(h[0].outcome, asksForOtlpExport, h[0].answered);
      EffectInOrder(heard, h[0].outcome, asksForOtlpExport, h[0].answered);
      hide EffectOf;
      HistoryInOrder(HearAll(heard, effect), h[1..], asksForOtlpExport);
      InOrderConcat(heard, effect, HistoryHeard(h[1..], asksForOtlpExport));
    }
  }

  /** After any history of sends, a capped grant still alive finds the agent degraded,
      unless the last batch accepted was answered full. */
  lemma AliveWhileDegraded(o: Options, h: seq<DetachedWorker.Send>, asksForOtlpExport: bool, now: nat)
    requires Ascending(h)
    ensures var s := Run(o, FRESH, HistoryHeard(h, asksForOtlpExport)).s;
      GrantAt(o, s, now) == Capped && LastVerdict(h, None) != Some(Full) ==> IsDegraded(s, now)
  {
    HistoryInOrder(NOTHING_HEARD, h, asksForOtlpExport);
    CappedGrantLapsesFirst(o, HistoryHeard(h, asksForOtlpExport), now);
  }

  // ----- whether the app is ingested, by what happened to its worker --------------------------

  datatype Happening =
    | StartsWithTheApp
    | Stops
    | Sends(outcome: DetachedWorker.Outcome)

  function NewsOf(x: Happening): seq<News> {
    match x
    case StartsWithTheApp => [WorkerStarted]
    case Stops => [WorkerStopped]
    case Sends(o) => if DetachedWorker.Accepted(o) then [BatchAccepted] else if DetachedWorker.Refused(o) then [CredentialsRefused] else []
  }

  /** An accepted batch, refused credentials or a stop. */
  predicate Counts(x: Happening) {
    x.Stops? || (x.Sends? && (DetachedWorker.Accepted(x.outcome) || DetachedWorker.Refused(x.outcome)))
  }

  function AllNews(xs: seq<Happening>): seq<News> {
    if xs == [] then [] else AllNews(xs[..|xs| - 1]) + NewsOf(xs[|xs| - 1])
  }

  function LatestThatCounts(xs: seq<Happening>): Option<Happening> {
    if xs == [] then None
    else if Counts(xs[|xs| - 1]) then Some(xs[|xs| - 1])
    else LatestThatCounts(xs[..|xs| - 1])
  }

  /** The app is ingested exactly while the latest of accepted, refused and stopped was
      accepted; and no other failure changes whether it reports. */
  lemma {:induction false} IngestedWhileLastAccepted(xs: seq<Happening>)
    ensures ReportingRun(Off, AllNews(xs)) == Ingesting
       <==> LatestThatCounts(xs).Some? && LatestThatCounts(xs).value.Sends? && DetachedWorker.Accepted(LatestThatCounts(xs).value.outcome)
    ensures xs != [] && xs[|xs| - 1].Sends? && !Counts(xs[|xs| - 1])
        ==> ReportingRun(Off, AllNews(xs)) == ReportingRun(Off, AllNews(xs[..|xs| - 1]))
    decreases |xs|
  {
    if xs != [] {
      var before, last := xs[..|xs| - 1], xs[|xs| - 1];
      IngestedWhileLastAccepted(before);
      var news := AllNews(before);
      if NewsOf(last) == [] {
        assert AllNews(xs) == news;
      } else {
        assert AllNews(xs)[..|AllNews(xs)| - 1] == news;
      }
    }
  }
}
