/** The lines the worker thread posts to the main thread, as text: printed on one side and
    told apart on the other by their prefixes. */
module WorkerLines {
  import opened Ingest
  import opened SharedBuffer

  const DEGRADED_PREFIX := "observe:degraded="
  const PAUSED_PREFIX := "observe:paused-until="
  const NOT_INGESTED_PREFIX := "observe:not-ingested="
  const OTLP_EXPORT_PREFIX := "observe:otlp-export="

  datatype PauseReason = Spike | Budget
  datatype NotIngestedReason = CredentialsTurnedAway | Failed

  // ----- numbers as text ---------------------------------------------------------------

  function Digit(d: nat): char
    requires d < 10
  {
    ('0' as int + d) as char
  }

  function Decimal(n: nat): (text: string)
    ensures text != []
  {
    if n < 10 then [Digit(n)] else Decimal(n / 10) + [Digit(n % 10)]
  }

  /** A number written in decimal digits, the empty text being nought. */
  function ParseDecimal(text: string): Option<nat> {
    if text == [] then Some(0)
    else
      var front, last := ParseDecimal(text[..|text| - 1]), text[|text| - 1];
      if front.Some? && '0' <= last <= '9' then Some(10 * front.value + (last as int - '0' as int)) else None
  }

  lemma {:induction false} DecimalRoundTrip(n: nat)
    ensures ParseDecimal(Decimal(n)) == Some(n)
  {
    var text := Decimal(n);
    if n < 10 {
      assert text[..0] == [];
    } else {
      DecimalRoundTrip(n / 10);
      assert text[..|text| - 1] == Decimal(n / 10);
    }
  }

  // ----- telling lines apart ------------------------------------------------------------

  predicate StartsWith(text: string, prefix: string) {
    |prefix| <= |text| && text[..|prefix|] == prefix
  }

  predicate Contains(text: string, part: string) {
    StartsWith(text, part) || (text != [] && Contains(text[1..], part))
  }

  function After(text: string, prefix: string): string
    requires StartsWith(text, prefix)
  {
    text[|prefix|..]
  }

  function ParsePaused(msg: string): Option<nat> {
    if StartsWith(msg, PAUSED_PREFIX) then ParseDecimal(After(msg, PAUSED_PREFIX)) else None
  }

  function ParseNotIngested(msg: string): Option<NotIngestedReason> {
    if !StartsWith(msg, NOT_INGESTED_PREFIX) then None
    else
      var reason := After(msg, NOT_INGESTED_PREFIX);
      if reason == "refused" then Some(CredentialsTurnedAway) else if reason == "failed" then Some(Failed) else None
  }

  /** What says nothing known grants nothing. */
  function ParseOtlpExport(msg: string): Option<Grant> {
    if !StartsWith(msg, OTLP_EXPORT_PREFIX) then None
    else
      var value := After(msg, OTLP_EXPORT_PREFIX);
      Some(if value == "full" then FullGrant else if value == "capped" then Capped else NoGrant)
  }

  /** An errors-only line is one whatever follows its colon; what is not known is full. */
  function ParseDegraded(msg: string): Option<IngestMode> {
    if !StartsWith(msg, DEGRADED_PREFIX) then None
    else
      var value := After(msg, DEGRADED_PREFIX);
      Some(
        if value == "true" then Reduced
        else if value == "trimmed" then Trimmed
        else if value == "paced" then Paced
        else if value == "errors-only" || StartsWith(value, "errors-only:") then ErrorsOnly
        else Full)
  }

  function ParsePauseReason(msg: string): Option<PauseReason> {
    if msg == DEGRADED_PREFIX + "errors-only:spike" then Some(Spike)
    else if msg == DEGRADED_PREFIX + "errors-only:budget" then Some(Budget)
    else None
  }

  /** Which of the handler's branches takes a message, in the order it tries them. */
  datatype Claim =
    | PausedUntil(until: nat)
    | NotIngested(why: NotIngestedReason)
    | Grants(grant: Grant)
    | Verdict(mode: IngestMode, reason: Option<PauseReason>)
    | AnError
    | JustSaid

  function ClaimOf(msg: string): Claim {
    if ParsePaused(msg).Some? then PausedUntil(ParsePaused(msg).value)
    else if ParseNotIngested(msg).Some? then NotIngested(ParseNotIngested(msg).value)
    else if ParseOtlpExport(msg).Some? then Grants(ParseOtlpExport(msg).value)
    else if ParseDegraded(msg).Some? then Verdict(ParseDegraded(msg).value, ParsePauseReason(msg))
    else if Contains(msg, "Error:") then AnError
    else JustSaid
  }

  /** No message is two of them, whatever it says: the order of the branches decides
      nothing between the four. */
  lemma NoMessageIsTwo(msg: string)
    ensures ParsePaused(msg).Some? ==> ParseNotIngested(msg).None? && ParseOtlpExport(msg).None? && ParseDegraded(msg).None?
    ensures ParseNotIngested(msg).Some? ==> ParseOtlpExport(msg).None? && ParseDegraded(msg).None?
    ensures ParseOtlpExport(msg).Some? ==> ParseDegraded(msg).None?
  {
    assert PAUSED_PREFIX[8] == 'p' && NOT_INGESTED_PREFIX[8] == 'n' && OTLP_EXPORT_PREFIX[8] == 'o' && DEGRADED_PREFIX[8] == 'd';
    if StartsWith(msg, PAUSED_PREFIX) { assert msg[..|PAUSED_PREFIX|][8] == 'p'; }
    if StartsWith(msg, NOT_INGESTED_PREFIX) { assert msg[..|NOT_INGESTED_PREFIX|][8] == 'n'; }
    if StartsWith(msg, OTLP_EXPORT_PREFIX) { assert msg[..|OTLP_EXPORT_PREFIX|][8] == 'o'; }
    if StartsWith(msg, DEGRADED_PREFIX) { assert msg[..|DEGRADED_PREFIX|][8] == 'd'; }
  }

  // ----- what the worker posts -----------------------------------------------------------

  /** What the collector's reply to an accepted batch says, read defensively: anything
      but `true` is not said. */
  datatype Reply = Reply(degraded: bool, trimmed: bool, paced: bool, errorsOnly: bool, reason: Option<PauseReason>, otlpExport: Grant)

  datatype Line =
    | PausedLine(until: nat)
    | NotIngestedLine(why: NotIngestedReason)
    | GrantLine(grant: Grant)
    | VerdictLine(reply: Reply)
    | ErrorLine(detail: string)
    | SentLine
    | ReadyLine

  function ReasonText(reason: Option<PauseReason>): string {
    match reason
    case None => ""
    case Some(Spike) => ":spike"
    case Some(Budget) => ":budget"
  }

  function VerdictText(r: Reply): string {
    if !r.degraded then "false"
    else if r.errorsOnly then "errors-only" + ReasonText(r.reason)
    else if r.trimmed then "trimmed"
    else if r.paced then "paced"
    else "true"
  }

  function GrantText(g: Grant): string {
    match g
    case FullGrant => "full"
    case Capped => "capped"
    case NoGrant => "off"
  }

  function Print(line: Line): string {
    match line
    case PausedLine(until) => PAUSED_PREFIX + Decimal(until)
    case NotIngestedLine(why) => NOT_INGESTED_PREFIX + (if why == Failed then "failed" else "refused")
    case GrantLine(grant) => OTLP_EXPORT_PREFIX + GrantText(grant)
    case VerdictLine(reply) => DEGRADED_PREFIX + VerdictText(reply)
    case ErrorLine(detail) => "Error:" + detail
    case SentLine => "Tracing and instrumentation " + "data sent successfully"
    case ReadyLine => "Ready to process " + "instrumentation data"
  }

  /** One line of each kind, letter by letter. */
  lemma KnownLines()
    ensures Print(PausedLine(42)) == "observe:paused-until=" + "42"
    ensures Print(NotIngestedLine(CredentialsTurnedAway)) == "observe:not-ingested=" + "refused"
    ensures Print(NotIngestedLine(Failed)) == "observe:not-ingested=" + "failed"
    ensures Print(GrantLine(Capped)) == "observe:otlp-export=" + "capped" && Print(GrantLine(NoGrant)) == "observe:otlp-export=" + "off"
    ensures Print(VerdictLine(Reply(false, true, false, false, None, NoGrant))) == "observe:degraded=" + "false"
    ensures Print(VerdictLine(Reply(true, false, false, true, Some(Budget), NoGrant))) == "observe:degraded=" + ("errors-only" + ":budget")
    ensures Print(SentLine) == "Tracing and instrumentation " + "data sent successfully"
    ensures Print(ReadyLine) == "Ready to process " + "instrumentation data"
  {
    assert Decimal(42) == "42" by {
      assert Decimal(42) == Decimal(4) + [Digit(2)];
      assert Decimal(4) == ['4'] && Digit(2) == '2';
    }
  }

  /** Errors-only wins over trimmed, trimmed over paced, any of them over a plain
      allowance spent; and none counts unless spans are being discarded. */
  function ModeOf(r: Reply): IngestMode {
    if !r.degraded then Full
    else if r.errorsOnly then ErrorsOnly
    else if r.trimmed then Trimmed
    else if r.paced then Paced
    else Reduced
  }

  function Meant(line: Line): Claim {
    match line
    case PausedLine(until) => PausedUntil(until)
    case NotIngestedLine(why) => NotIngested(why)
    case GrantLine(grant) => Grants(grant)
    case VerdictLine(r) => Verdict(ModeOf(r), if r.degraded && r.errorsOnly then r.reason else None)
    case ErrorLine(_) => AnError
    case SentLine => JustSaid
    case ReadyLine => JustSaid
  }

  lemma PrefixComesOff(prefix: string, rest: string)
    ensures StartsWith(prefix + rest, prefix) && After(prefix + rest, prefix) == rest
  {
    assert (prefix + rest)[..|prefix|] == prefix;
  }

  /** A text with another letter somewhere does not start with a prefix that has one there. */
  lemma OtherStart(text: string, prefix: string, i: nat)
    requires i < |prefix| && (i < |text| ==> text[i] != prefix[i])
    ensures !StartsWith(text, prefix)
  {
    if |prefix| <= |text| {
      assert text[..|prefix|][i] == text[i];
    }
  }

  lemma VerdictReadsBack(r: Reply)
    ensures ParseDegraded(DEGRADED_PREFIX + VerdictText(r)) == Some(ModeOf(r))
  {
    PrefixComesOff(DEGRADED_PREFIX, VerdictText(r));
    var value := VerdictText(r);
    if r.degraded && r.errorsOnly {
      assert value[0] == 'e';
      match r.reason
      case None =>
      case Some(Spike) => assert value[..12] == "errors-only:";
      case Some(Budget) => assert value[..12] == "errors-only:";
    } else {
      OtherStart(value, "errors-only:", 0);
      assert value[0] != 'e';
    }
  }

  lemma ReasonReadsBack(r: Reply)
    ensures ParsePauseReason(DEGRADED_PREFIX + VerdictText(r)) == if r.degraded && r.errorsOnly then r.reason else None
  {
    var value := VerdictText(r);
    PrefixComesOff(DEGRADED_PREFIX, value);
    PrefixComesOff(DEGRADED_PREFIX, "errors-only:spike");
    PrefixComesOff(DEGRADED_PREFIX, "errors-only:budget");
    var spike, budget := "errors-only:spike", "errors-only:budget";
    assert spike[12] == 's' && budget[12] == 'b' && spike[0] == 'e' && budget[0] == 'e';
    if r.degraded && r.errorsOnly {
      match r.reason
      case None => assert |value| == 11;
      case Some(Spike) => assert value == spike;
      case Some(Budget) => assert value == budget;
    } else {
      assert value[0] != 'e';
    }
  }

  lemma PausedReadsBack(until: nat)
    ensures ClaimOf(Print(PausedLine(until))) == PausedUntil(until)
  {
    PrefixComesOff(PAUSED_PREFIX, Decimal(until));
    DecimalRoundTrip(until);
  }

  lemma NotIngestedReadsBack(why: NotIngestedReason)
    ensures ClaimOf(Print(NotIngestedLine(why))) == NotIngested(why)
  {
    PrefixComesOff(NOT_INGESTED_PREFIX, if why == Failed then "failed" else "refused");
    NoMessageIsTwo(Print(NotIngestedLine(why)));
    assert "failed"[0] != "refused"[0];
  }

  lemma GrantReadsBack(grant: Grant)
    ensures ClaimOf(Print(GrantLine(grant))) == Grants(grant)
  {
    PrefixComesOff(OTLP_EXPORT_PREFIX, GrantText(grant));
    NoMessageIsTwo(Print(GrantLine(grant)));
    assert |"full"| == 4 && |"capped"| == 6 && |"off"| == 3;
  }

  lemma VerdictLineReadsBack(r: Reply)
    ensures ClaimOf(Print(VerdictLine(r))) == Meant(VerdictLine(r))
  {
    PrefixComesOff(DEGRADED_PREFIX, VerdictText(r));
    NoMessageIsTwo(Print(VerdictLine(r)));
    VerdictReadsBack(r);
    ReasonReadsBack(r);
    hide VerdictText, ParsePauseReason;
  }

  lemma ErrorReadsBack(detail: string)
    ensures ClaimOf(Print(ErrorLine(detail))) == AnError
  {
    NoProtocolLine("Error:" + detail);
    PrefixComesOff("Error:", detail);
    hide ParsePaused, ParseNotIngested, ParseOtlpExport, ParseDegraded;
  }

  lemma ProseReadsBack(line: Line)
    requires line == SentLine || line == ReadyLine
    ensures ClaimOf(Print(line)) == JustSaid
  {
    ProseText(line);
    hide Print, ParsePaused, ParseNotIngested, ParseOtlpExport, ParseDegraded;
    NoProtocolLine(Print(line));
    NoErrorWithoutItsLetter(Print(line));
  }

  /** Every line the worker can post is claimed by the branch meant for it and reads back
      as what was meant, the pause's time to the digit. */
  lemma LinesReadBack(line: Line)
    ensures ClaimOf(Print(line)) == Meant(line)
  {
    match line
    case PausedLine(until) => PausedReadsBack(until);
    case NotIngestedLine(why) => NotIngestedReadsBack(why);
    case GrantLine(grant) => GrantReadsBack(grant);
    case VerdictLine(r) => VerdictLineReadsBack(r);
    case ErrorLine(detail) => ErrorReadsBack(detail);
    case SentLine => ProseReadsBack(line);
    case ReadyLine => ProseReadsBack(line);
  }

  lemma NoProtocolLine(msg: string)
    requires msg != [] && msg[0] != 'o'
    ensures ParsePaused(msg).None? && ParseNotIngested(msg).None? && ParseOtlpExport(msg).None? && ParseDegraded(msg).None?
  {
    OtherStart(msg, PAUSED_PREFIX, 0);
    OtherStart(msg, NOT_INGESTED_PREFIX, 0);
    OtherStart(msg, OTLP_EXPORT_PREFIX, 0);
    OtherStart(msg, DEGRADED_PREFIX, 0);
  }

  lemma ProseText(line: Line)
    requires line == SentLine || line == ReadyLine
    ensures Print(line) != [] && Print(line)[0] != 'o' && 'E' !in Print(line)
  {
    if line == SentLine {
      assert Print(line)[0] == 'T';
    } else {
      assert Print(line)[0] == 'R';
    }
  }

  lemma {:induction false} NoErrorWithoutItsLetter(msg: string)
    requires 'E' !in msg
    ensures !Contains(msg, "Error:")
  {
    assert "Error:"[0] == 'E';
    OtherStart(msg, "Error:", 0);
    if msg != [] {
      NoErrorWithoutItsLetter(msg[1..]);
    }
  }
}
