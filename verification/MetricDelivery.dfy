/** Counters' and summaries' windows on their way to the collector: each recorded change
    puts the metric's current window into the outgoing batch, and a batch that was written
    closes the windows of every metric still awaiting one. A metric's change handler is
    taken to put it into the batch at once; a counter asked for again with an initial value
    is changed without it. */
module MetricDelivery {
  import opened MetricWindows

  type Id = nat

  // ----- names, as given and as sent ---------------------------------------------------

  /** A UTF-16 code unit, which is what a name is made of. */
  type CodeUnit = n: int | 0 <= n < 0x1_0000
  type Name = seq<CodeUnit>

  const MAX_NAME_LENGTH: nat := 100
  const HASH_LENGTH: nat := 8
  const TILDE: CodeUnit := 0x7e

  datatype Kind = OfCounter | OfSummary

  /** A metric as the application asked for it; there is one of each name and kind. */
  datatype Metric = Metric(name: Name, kind: Kind)

  /** A metric's name and type as sent, which is what the batch tells metrics apart by. */
  datatype WireName = WireName(name: Name, kind: Kind)

  /** A name no longer than the collector takes: the head of a longer one and a hash of
      the whole, no surrogate pair split. */
  function FitToLength(name: Name, hash: Name -> Name): Name {
    if |name| <= MAX_NAME_LENGTH then name
    else
      var room := MAX_NAME_LENGTH - HASH_LENGTH - 1;
      var head := if 0xd800 <= name[room - 1] <= 0xdbff then room - 1 else room;
      name[..head] + [TILDE] + hash(name)
  }

  /** What a name too long is cut to: a hundred characters at most, its own head and no half
      of a pair at the end of it, a tilde, and eight that stand for the whole. */
  lemma CutNames(name: Name, hash: Name -> Name)
    requires |hash(name)| == 8
    ensures |FitToLength(name, hash)| <= 100 && (|name| <= 100 ==> FitToLength(name, hash) == name)
    ensures |name| > 100 ==>
      var kept := if 0xd800 <= name[90] <= 0xdbff then 90 else 91;
      FitToLength(name, hash) == name[..kept] + [0x7e] + hash(name)
  {
  }

  function SentAs(metrics: map<Id, Metric>, hash: Name -> Name): map<Id, WireName> {
    map id | id in metrics :: WireName(FitToLength(metrics[id].name, hash), metrics[id].kind)
  }

  ghost predicate Apart<T(!new)>(names: map<Id, T>) {
    forall i, j :: i in names && j in names && i != j ==> names[i] != names[j]
  }

  /** Metrics apart in name stay apart as sent where no name is cut. */
  lemma ShortNamesStayApart(metrics: map<Id, Metric>, hash: Name -> Name)
    requires Apart(metrics) && forall id :: id in metrics ==> |metrics[id].name| <= 100
    ensures Apart(SentAs(metrics, hash))
  {
  }

  datatype Entry = Entry(id: Id, report: Window)

  /** For each metric its open window and everything it ever recorded; the batch; the
      metrics whose window a written batch closes; and the batches written. */
  datatype State = State(
    names: map<Id, WireName>,
    windows: map<Id, Window>,
    history: map<Id, Window>,
    custom: map<WireName, Entry>,
    awaiting: set<Id>,
    delivered: seq<map<WireName, Entry>>)

  datatype Action =
    | Records(id: Id, o: Observation)
    | Seeds(id: Id, o: Observation)
    | WriteSucceeds
    | WriteFails

  /** Metrics as they were made, with what they start from recorded and not yet sent. */
  function Init(names: map<Id, WireName>, start: map<Id, Window>): State
    requires start.Keys == names.Keys
  {
    State(names, start, start, map[], {}, [])
  }

  function Upserted(s: State, id: Id): State
    requires id in s.names && id in s.windows
  {
    s.(awaiting := s.awaiting + {id}, custom := s.custom[s.names[id] := Entry(id, s.windows[id])])
  }

  function Observed(s: State, id: Id, o: Observation): State
    requires id in s.names && id in s.windows && id in s.history
  {
    s.(windows := s.windows[id := s.windows[id] + [o]], history := s.history[id := s.history[id] + [o]])
  }

  function Recorded(s: State, id: Id, o: Observation): State
    requires id in s.names && id in s.windows && id in s.history
  {
    Upserted(Observed(s, id, o), id)
  }

  function Flushed(windows: map<Id, Window>, ids: set<Id>): map<Id, Window> {
    map id | id in windows :: if id in ids then [] else windows[id]
  }

  function Apply(s: State, a: Action): State
    requires Known(s)
    ensures Known(Apply(s, a)) && Apply(s, a).names == s.names
  {
    match a
    case Records(id, o) => if id in s.names then Recorded(s, id, o) else s
    // a counter's value set from outside: no handler, and the batch keeps what it held
    case Seeds(id, o) => if id in s.names then Observed(s, id, o) else s
    case WriteSucceeds =>
      s.(delivered := s.delivered + [s.custom], windows := Flushed(s.windows, s.awaiting), awaiting := {}, custom := map[])
    // the batch is gone, and what awaits a written one still does
    case WriteFails => s.(custom := map[])
  }

  predicate Known(s: State) {
    s.windows.Keys == s.names.Keys && s.history.Keys == s.names.Keys
  }

  function Run(s: State, actions: seq<Action>): State
    requires Known(s)
    ensures Known(Run(s, actions)) && Run(s, actions).names == s.names
    decreases |actions|
  {
    if actions == [] then s else Run(Apply(s, actions[0]), actions[1..])
  }

  // ----- the batch's metrics, as they are kept ------------------------------------------

  datatype Buffered = Buffered(name: WireName, entry: Entry)

  function AsMap(custom: seq<Buffered>): map<WireName, Entry> {
    if custom == [] then map[]
    else AsMap(custom[..|custom| - 1])[custom[|custom| - 1].name := custom[|custom| - 1].entry]
  }

  ghost predicate Distinct(custom: seq<Buffered>) {
    forall i, j :: 0 <= i < j < |custom| ==> custom[i].name != custom[j].name
  }

  lemma {:induction false} AsMapReplaced(custom: seq<Buffered>, i: nat, entry: Entry)
    requires Distinct(custom) && i < |custom|
    ensures AsMap(custom[i := Buffered(custom[i].name, entry)]) == AsMap(custom)[custom[i].name := entry]
  {
    var front, last := custom[..|custom| - 1], custom[|custom| - 1];
    var after := custom[i := Buffered(custom[i].name, entry)];
    if i < |front| {
      AsMapReplaced(front, i, entry);
      assert after[..|after| - 1] == front[i := Buffered(custom[i].name, entry)];
    } else {
      assert after[..|after| - 1] == front;
    }
  }

  /** The outgoing batch's custom metrics, and the metrics whose window is in it. */
  class MetricBuffer {
    var custom: seq<Buffered>
    var awaiting: set<Id>

    ghost predicate Valid()
      reads this
    {
      Distinct(custom)
    }

    constructor ()
      ensures Valid() && AsMap(custom) == map[] && awaiting == {}
    {
      custom, awaiting := [], {};
    }

    /** Puts a metric's current report into the batch, in place of the one sent under
        its name if there is one. */
    method UpsertCustomMetric(id: Id, name: WireName, report: Window)
      requires Valid()
      modifies this
      ensures Valid()
      ensures AsMap(custom) == old(AsMap(custom))[name := Entry(id, report)]
      ensures awaiting == old(awaiting) + {id}
    {
      awaiting := awaiting + {id};
      var i := 0;
      while i < |custom| && custom[i].name != name
        invariant 0 <= i <= |custom|
        invariant forall j :: 0 <= j < i ==> custom[j].name != name
      {
        i := i + 1;
      }
      if i < |custom| {
        AsMapReplaced(custom, i, Entry(id, report));
        custom := custom[i := Buffered(name, Entry(id, report))];
      } else {
        ghost var before := custom;
        custom := custom + [Buffered(name, Entry(id, report))];
        assert custom[..|custom| - 1] == before;
      }
    }

    /** A batch written: what it held, and the metrics to close the windows of. */
    method Written() returns (batch: seq<Buffered>, closes: set<Id>)
      modifies this`awaiting
      ensures batch == custom && closes == old(awaiting) && awaiting == {}
    {
      batch, closes := custom, awaiting;
      awaiting := {};
    }

    /** The batch goes, written or not; what awaits a written one still does. */
    method Reset()
      modifies this`custom
      ensures Valid() && AsMap(custom) == map[]
    {
      custom := [];
    }
  }

  // ----- what is delivered -----------------------------------------------------------

  function ReportIn(batch: map<WireName, Entry>, name: WireName, id: Id): Window {
    if name in batch && batch[name].id == id then batch[name].report else []
  }

  /** Every window of a metric that was written, one after the other. */
  function Delivered(batches: seq<map<WireName, Entry>>, name: WireName, id: Id): Window {
    if batches == [] then []
    else Delivered(batches[..|batches| - 1], name, id) + ReportIn(batches[|batches| - 1], name, id)
  }

  /** Nothing is lost and nothing is told twice. */
  ghost predicate Conserved(s: State)
    requires Known(s)
  {
    forall id :: id in s.names ==> Delivered(s.delivered, s.names[id], id) + s.windows[id] == s.history[id]
  }

  /** The batch holds windows of metrics that await it, as they were when last put in; what
      awaits is not empty. */
  ghost predicate Current(s: State)
    requires Known(s)
  {
    && s.awaiting <= s.names.Keys
    && (forall id :: id in s.awaiting ==> s.windows[id] != [])
    && (forall name :: name in s.custom ==>
          && s.custom[name].id in s.awaiting
          && s.names[s.custom[name].id] == name
          && s.custom[name].report <= s.windows[s.custom[name].id])
  }

  /** The batch holds a metric's window as it stands. */
  predicate Holds(s: State, id: Id)
    requires Known(s) && id in s.names
  {
    s.names[id] in s.custom && s.custom[s.names[id]] == Entry(id, s.windows[id])
  }

  /** Every window a write would close is in the batch written, as it stands. */
  ghost predicate Covered(s: State)
    requires Known(s)
  {
    forall id :: id in s.awaiting && id in s.names ==> Holds(s, id)
  }

  /** With names apart as sent, all it takes is that what awaits is in the batch, and has
      not been seeded since it was put there. */
  lemma CoveredWhenApart(s: State)
    requires Known(s) && Current(s) && Apart(s.names)
    ensures Covered(s) <==> forall id :: id in s.awaiting ==> s.names[id] in s.custom && s.custom[s.names[id]].report == s.windows[id]
  {
    forall id | id in s.awaiting && s.names[id] in s.custom
      ensures s.custom[s.names[id]].id == id
    {
    }
  }

  lemma DeliveredOneMore(batches: seq<map<WireName, Entry>>, batch: map<WireName, Entry>, name: WireName, id: Id)
    ensures Delivered(batches + [batch], name, id) == Delivered(batches, name, id) + ReportIn(batch, name, id)
  {
    assert (batches + [batch])[..|batches|] == batches;
  }

  lemma StepCurrent(s: State, a: Action)
    requires Known(s) && Current(s)
    ensures Current(Apply(s, a))
  {
  }

  /** What has been recorded and is neither delivered nor pending. */
  function Missing(s: State, id: Id): int
    requires Known(s) && id in s.names
  {
    |s.history[id]| - |Delivered(s.delivered, s.names[id], id)| - |s.windows[id]|
  }

  lemma StepMissing(s: State, a: Action, id: Id)
    requires Known(s) && Current(s) && id in s.names
    ensures Missing(Apply(s, a), id) >= Missing(s, id)
    ensures a.WriteSucceeds? && id in s.awaiting && !Holds(s, id) ==> Missing(Apply(s, a), id) > Missing(s, id)
  {
    if a.WriteSucceeds? {
      DeliveredOneMore(s.delivered, s.custom, s.names[id], id);
      if id in s.awaiting && s.names[id] in s.custom && s.custom[s.names[id]].id == id && !Holds(s, id) {
        assert |s.custom[s.names[id]].report| < |s.windows[id]|;
      }
    }
  }

  lemma StepConserves(s: State, a: Action)
    requires Known(s) && Current(s) && Conserved(s)
    requires a.WriteSucceeds? ==> Covered(s)
    ensures Conserved(Apply(s, a))
  {
    hide Delivered, Missing;
    var after := Apply(s, a);
    forall id | id in s.names
      ensures Delivered(after.delivered, s.names[id], id) + after.windows[id] == after.history[id]
    {
      DeliveredOneMore(s.delivered, s.custom, s.names[id], id);
      var delivered := Delivered(s.delivered, s.names[id], id);
      if (a.Records? || a.Seeds?) && a.id == id {
        Assoc(delivered, s.windows[id], [a.o]);
      }
    }
  }

  lemma {:induction false} MissingStays(s: State, actions: seq<Action>, id: Id)
    requires Known(s) && Current(s) && id in s.names
    ensures Missing(Run(s, actions), id) >= Missing(s, id)
    decreases |actions|
  {
    if actions != [] {
      StepCurrent(s, actions[0]);
      StepMissing(s, actions[0], id);
      MissingStays(Apply(s, actions[0]), actions[1..], id);
    }
  }

  /** Every write that succeeds along a run is of a batch that covers what it closes. */
  ghost predicate AllCovered(s: State, actions: seq<Action>)
    requires Known(s)
    decreases |actions|
  {
    actions == [] ||
    ((actions[0].WriteSucceeds? ==> Covered(s)) && AllCovered(Apply(s, actions[0]), actions[1..]))
  }

  lemma {:induction false} ConservedExactlyWhenCovered(s: State, actions: seq<Action>)
    requires Known(s) && Current(s) && Conserved(s)
    ensures Conserved(Run(s, actions)) <==> AllCovered(s, actions)
    decreases |actions|
  {
    if actions != [] {
      var next := Apply(s, actions[0]);
      StepCurrent(s, actions[0]);
      if actions[0].WriteSucceeds? && !Covered(s) {
        var id :| id in s.awaiting && id in s.names && !Holds(s, id);
        StepMissing(s, actions[0], id);
        MissingStays(next, actions[1..], id);
        MissingIsLoss(s, id);
        MissingIsLoss(Run(s, actions), id);
      } else {
        StepConserves(s, actions[0]);
        ConservedExactlyWhenCovered(next, actions[1..]);
      }
    }
  }

  lemma MissingIsLoss(s: State, id: Id)
    requires Known(s) && id in s.names
    ensures Conserved(s) ==> Missing(s, id) == 0
  {
    if Conserved(s) {
      assert |Delivered(s.delivered, s.names[id], id) + s.windows[id]| == |s.history[id]|;
    }
  }

  /** Over any run, whatever the metrics start from: windows written and the one still
      open add up to all a metric recorded, for every metric, exactly when each write
      that succeeded held, as it stood, every window it closed. */
  lemma WindowsAreConservedExactlyWhenCovered(names: map<Id, WireName>, start: map<Id, Window>, actions: seq<Action>)
    requires start.Keys == names.Keys
    ensures Conserved(Run(Init(names, start), actions)) <==> AllCovered(Init(names, start), actions)
  {
    var s := Init(names, start);
    forall id | id in names
      ensures Delivered(s.delivered, names[id], id) + s.windows[id] == s.history[id]
    {
      assert [] + start[id] == start[id];
    }
    ConservedExactlyWhenCovered(s, actions);
  }

  // ----- what that is to a counter and to a summary -----------------------------------

  /** The sum of the increases reported for a series, batch by batch. */
  function Reported(batches: seq<map<WireName, Entry>>, name: WireName, id: Id, series: string): real {
    if batches == [] then 0.0
    else Reported(batches[..|batches| - 1], name, id, series) + Sum(ReportIn(batches[|batches| - 1], name, id), series)
  }

  lemma {:induction false} ReportedIsDelivered(batches: seq<map<WireName, Entry>>, name: WireName, id: Id, series: string)
    ensures Reported(batches, name, id, series) == Sum(Delivered(batches, name, id), series)
    decreases |batches|
  {
    if batches != [] {
      ReportedIsDelivered(batches[..|batches| - 1], name, id, series);
      SumConcat(Delivered(batches[..|batches| - 1], name, id), ReportIn(batches[|batches| - 1], name, id), series);
    }
  }

  /** The increases reported and the one pending add up to the cumulative value, series
      by series. */
  lemma IncreasesAddUp(s: State, id: Id, series: string)
    requires Known(s) && Conserved(s) && id in s.names
    ensures Reported(s.delivered, s.names[id], id, series) + Sum(s.windows[id], series) == Sum(s.history[id], series)
  {
    ReportedIsDelivered(s.delivered, s.names[id], id, series);
    SumConcat(Delivered(s.delivered, s.names[id], id), s.windows[id], series);
  }

  /** How many observations were reported for a series. */
  function CountReported(batches: seq<map<WireName, Entry>>, name: WireName, id: Id, series: string): nat {
    if batches == [] then 0
    else CountReported(batches[..|batches| - 1], name, id, series) + |Amounts(ReportIn(batches[|batches| - 1], name, id), series)|
  }

  lemma {:induction false} CountReportedIsDelivered(batches: seq<map<WireName, Entry>>, name: WireName, id: Id, series: string)
    ensures CountReported(batches, name, id, series) == |Amounts(Delivered(batches, name, id), series)|
    decreases |batches|
  {
    if batches != [] {
      CountReportedIsDelivered(batches[..|batches| - 1], name, id, series);
      AmountsConcat(Delivered(batches[..|batches| - 1], name, id), ReportIn(batches[|batches| - 1], name, id), series);
    }
  }

  /** The largest of some observations, where there are any. */
  datatype Maximum = NoMaximum | Maximum(value: real)

  function MaximumOf(xs: seq<real>): Maximum {
    if xs == [] then NoMaximum else Maximum(Largest(xs))
  }

  function Merge(a: Maximum, b: Maximum): Maximum {
    if a.NoMaximum? then b else if b.NoMaximum? then a else Maximum(Larger(a.value, b.value))
  }

  /** The largest of the maxima reported for a series, batch by batch. */
  function MaximumReported(batches: seq<map<WireName, Entry>>, name: WireName, id: Id, series: string): Maximum {
    if batches == [] then NoMaximum
    else
      var last := MaximumOf(Amounts(ReportIn(batches[|batches| - 1], name, id), series));
      Merge(MaximumReported(batches[..|batches| - 1], name, id, series), last)
  }

  lemma MaximumConcat(a: seq<real>, b: seq<real>)
    ensures MaximumOf(a + b) == Merge(MaximumOf(a), MaximumOf(b))
  {
    if a == [] {
      assert a + b == b;
    } else if b == [] {
      assert a + b == a;
    } else {
      LargestConcat(a, b);
    }
  }

  lemma {:induction false} MaximumReportedIsDelivered(batches: seq<map<WireName, Entry>>, name: WireName, id: Id, series: string)
    ensures MaximumReported(batches, name, id, series) == MaximumOf(Amounts(Delivered(batches, name, id), series))
    decreases |batches|
  {
    if batches != [] {
      var before, last := Delivered(batches[..|batches| - 1], name, id), ReportIn(batches[|batches| - 1], name, id);
      MaximumReportedIsDelivered(batches[..|batches| - 1], name, id, series);
      AmountsConcat(before, last, series);
      MaximumConcat(Amounts(before, series), Amounts(last, series));
    }
  }

  /** A summary's counts add up as a counter's increases do, and the largest of the maxima
      reported and the pending one is the largest observation there ever was. */
  lemma DistributionsAddUp(s: State, id: Id, series: string)
    requires Known(s) && Conserved(s) && id in s.names
    ensures CountReported(s.delivered, s.names[id], id, series) + |Amounts(s.windows[id], series)| == |Amounts(s.history[id], series)|
    ensures Merge(MaximumReported(s.delivered, s.names[id], id, series), MaximumOf(Amounts(s.windows[id], series)))
         == MaximumOf(Amounts(s.history[id], series))
  {
    var delivered := Delivered(s.delivered, s.names[id], id);
    CountReportedIsDelivered(s.delivered, s.names[id], id, series);
    MaximumReportedIsDelivered(s.delivered, s.names[id], id, series);
    AmountsConcat(delivered, s.windows[id], series);
    MaximumConcat(Amounts(delivered, series), Amounts(s.windows[id], series));
  }

  // ----- three runs that lose a window ---------------------------------------------------

  /** One uncovered write is enough. */
  lemma LostAtTheLast(s: State, first: seq<Action>, id: Id)
    requires Known(s) && Current(s) && Conserved(s)
    requires var t := Run(s, first); id in t.awaiting && id in t.names && !Holds(t, id)
    ensures !Conserved(Run(s, first + [WriteSucceeds]))
  {
    ConservedExactlyWhenCovered(s, first + [WriteSucceeds]);
    UncoveredAtTheLast(s, first);
  }

  lemma {:induction false} UncoveredAtTheLast(s: State, first: seq<Action>)
    requires Known(s) && !Covered(Run(s, first))
    ensures !AllCovered(s, first + [WriteSucceeds])
    decreases |first|
  {
    if first == [] {
      assert first + [WriteSucceeds] == [WriteSucceeds];
    } else {
      assert (first + [WriteSucceeds])[1..] == first[1..] + [WriteSucceeds];
      UncoveredAtTheLast(Apply(s, first[0]), first[1..]);
    }
  }

  lemma RunFirst(s: State, a: Action, rest: seq<Action>)
    requires Known(s)
    ensures Run(s, [a] + rest) == Run(Apply(s, a), rest)
  {
    assert ([a] + rest)[1..] == rest;
  }

  lemma RunOfThree(s: State, a: Action, b: Action, c: Action)
    requires Known(s)
    ensures Run(s, [a, b]) == Apply(Apply(s, a), b)
    ensures Run(s, [a, b, c]) == Apply(Apply(Apply(s, a), b), c)
  {
    hide Apply;
    var s1 := Apply(s, a);
    var s2 := Apply(s1, b);
    assert [a, b, c] == [a] + [b, c] && [b, c] == [b] + [c] && [a, b] == [a] + [b];
    assert [b] == [b] + [] && [c] == [c] + [];
    RunFirst(s, a, [b]);
    RunFirst(s1, b, []);
    RunFirst(s, a, [b, c]);
    RunFirst(s1, b, [c]);
    RunFirst(s2, c, []);
  }

  lemma RunOfFive(s: State, a: Action, b: Action, c: Action, d: Action, e: Action)
    requires Known(s)
    ensures Run(s, [a, b, c] + [d, e]) == Apply(Apply(Apply(Apply(Apply(s, a), b), c), d), e)
  {
    hide Apply, Run;
    RunOfThree(s, a, b, c);
    RunOfThree(Run(s, [a, b, c]), d, e, e);
    RunConcat(s, [a, b, c], [d, e]);
  }

  lemma InitConserves(names: map<Id, WireName>, start: map<Id, Window>)
    requires start.Keys == names.Keys
    ensures Current(Init(names, start)) && Conserved(Init(names, start))
  {
    forall id | id in names
      ensures [] + start[id] == start[id]
    {
    }
  }

  /** A write that fails, then one that succeeds without the metric having changed in
      between: its window is closed and was in no batch. Two metrics of any two names. */
  lemma LostAfterAFailedWrite(names: map<Id, WireName>, start: map<Id, Window>, o: Observation, p: Observation)
    requires start.Keys == names.Keys == {0, 1} && Apart(names)
    ensures !Conserved(Run(Init(names, start), [Records(0, o), WriteFails, Records(1, p)] + [WriteSucceeds]))
  {
    InitConserves(names, start);
    RunOfThree(Init(names, start), Records(0, o), WriteFails, Records(1, p));
    LostAtTheLast(Init(names, start), [Records(0, o), WriteFails, Records(1, p)], 0);
  }

  /** A counter put into the batch and then seeded: the write closes its window, and the
      seed was in no report. */
  lemma LostWhenSeeded(names: map<Id, WireName>, start: map<Id, Window>, o: Observation, seed: Observation)
    requires start.Keys == names.Keys && 0 in names
    ensures !Conserved(Run(Init(names, start), [Records(0, o), Seeds(0, seed)] + [WriteSucceeds]))
  {
    InitConserves(names, start);
    RunOfThree(Init(names, start), Records(0, o), Seeds(0, seed), WriteSucceeds);
    LostAtTheLast(Init(names, start), [Records(0, o), Seeds(0, seed)], 0);
  }

  /** One counter with nothing open: what was recorded, and the batches written. */
  function Settled(name: WireName, history: Window, batches: seq<map<WireName, Entry>>): State {
    State(map[0 := name], map[0 := []], map[0 := history], map[], {}, batches)
  }

  lemma SeededAndWritten(name: WireName, nought: Observation, seed: Observation)
    ensures Apply(Apply(Apply(Settled(name, [], []), Records(0, nought)), Seeds(0, seed)), WriteSucceeds)
         == Settled(name, [nought, seed], [map[name := Entry(0, [nought])]])
  {
    assert [] + [nought] == [nought] && [nought] + [seed] == [nought, seed];
    var s1 := Apply(Settled(name, [], []), Records(0, nought));
    assert s1 == State(map[0 := name], map[0 := [nought]], map[0 := [nought]], map[name := Entry(0, [nought])], {0}, []);
    var s2 := Apply(s1, Seeds(0, seed));
    assert s2.windows == map[0 := [nought, seed]] == s2.history;
  }

  lemma CountedAndWritten(name: WireName, before: Window, batches: seq<map<WireName, Entry>>, one: Observation)
    ensures Apply(Apply(Settled(name, before, batches), Records(0, one)), WriteSucceeds)
         == Settled(name, before + [one], batches + [map[name := Entry(0, [one])]])
  {
    assert [] + [one] == [one];
    var s1 := Apply(Settled(name, before, batches), Records(0, one));
    assert s1 == State(map[0 := name], map[0 := [one]], map[0 := before + [one]], map[name := Entry(0, [one])], {0}, batches);
  }

  /** A counter at nought, put into the batch, seeded, written, counted up and written. */
  lemma SeededRun(name: WireName, nought: Observation, seed: Observation, one: Observation)
    ensures var names, start: map<Id, Window> := map[0 := name], map[0 := []];
      Run(Init(names, start), [Records(0, nought), Seeds(0, seed), WriteSucceeds] + [Records(0, one), WriteSucceeds])
        == Settled(name, [nought, seed, one], [map[name := Entry(0, [nought])], map[name := Entry(0, [one])]])
  {
    var s := Settled(name, [], []);
    var batch := map[name := Entry(0, [nought])];
    hide Apply, Run;
    SeededAndWritten(name, nought, seed);
    CountedAndWritten(name, [nought, seed], [batch], one);
    RunOfFive(s, Records(0, nought), Seeds(0, seed), WriteSucceeds, Records(0, one), WriteSucceeds);
    assert [nought, seed] + [one] == [nought, seed, one];
  }

  /** What is reported then: a counter at nought, seeded to five and counted up by one has
      reported one in all, and reads six. */
  lemma SeedIsNeverReported(name: WireName)
    ensures var names, start: map<Id, Window> := map[0 := name], map[0 := []];
      var nought, five, one := Observation("default", 0.0), Observation("default", 5.0), Observation("default", 1.0);
      var s := Run(Init(names, start), [Records(0, nought), Seeds(0, five), WriteSucceeds] + [Records(0, one), WriteSucceeds]);
      && Reported(s.delivered, name, 0, "default") + Sum(s.windows[0], "default") == 1.0
      && Sum(s.history[0], "default") == 6.0
  {
    var nought, five, one := Observation("default", 0.0), Observation("default", 5.0), Observation("default", 1.0);
    SeededRun(name, nought, five, one);
    ReportedTwice(map[name := Entry(0, [nought])], map[name := Entry(0, [one])], name, 0, "default");
    SumOfThree(nought, five, one);
    SumOfThree(one, five, nought);
    hide Run, Sum, Reported, Init;
  }

  lemma SumOfThree(a: Observation, b: Observation, c: Observation)
    requires a.series == b.series == c.series
    ensures Sum([], a.series) == 0.0 && Sum([a], a.series) == a.amount
    ensures Sum([a, b, c], a.series) == a.amount + b.amount + c.amount
  {
    var none: Window := [];
    assert Sum(none, a.series) == 0.0;
    hide Sum;
    SumOneMore(none, a, a.series);
    SumOneMore([a], b, a.series);
    SumOneMore([a, b], c, a.series);
    assert none + [a] == [a] && [a] + [b] == [a, b] && [a, b] + [c] == [a, b, c];
  }

  lemma ReportedTwice(a: map<WireName, Entry>, b: map<WireName, Entry>, name: WireName, id: Id, series: string)
    ensures Reported([a, b], name, id, series) == Sum(ReportIn(a, name, id), series) + Sum(ReportIn(b, name, id), series)
  {
    assert [a, b][..1] == [a] && [a][..0] == [];
    assert Reported([a], name, id, series) == Reported([], name, id, series) + Sum(ReportIn(a, name, id), series);
  }

  lemma {:induction false} RunConcat(s: State, first: seq<Action>, second: seq<Action>)
    requires Known(s)
    ensures Run(s, first + second) == Run(Run(s, first), second)
    decreases |first|
  {
    if first == [] {
      assert first + second == second;
    } else {
      assert (first + second)[1..] == first[1..] + second;
      RunConcat(Apply(s, first[0]), first[1..], second);
    }
  }

  /** Two metrics of different names sent under one, the one's name being what the other's
      is cut to: the later takes the earlier's place, and writing it closes both. */
  lemma LostUnderOneName(name: Name, hash: Name -> Name, start: map<Id, Window>, o: Observation, p: Observation)
    requires |name| > 100 && |hash(name)| == 8 && start.Keys == {0, 1}
    ensures var metrics := map[0 := Metric(name, OfCounter), 1 := Metric(FitToLength(name, hash), OfCounter)];
      && Apart(metrics)
      && !Conserved(Run(Init(SentAs(metrics, hash), start), [Records(0, o), Records(1, p)] + [WriteSucceeds]))
  {
    var metrics := map[0 := Metric(name, OfCounter), 1 := Metric(FitToLength(name, hash), OfCounter)];
    var names := SentAs(metrics, hash);
    assert |FitToLength(name, hash)| <= MAX_NAME_LENGTH;
    assert names[0] == names[1];
    hide FitToLength, SentAs, Conserved, Run;
    TheLaterTakesItsPlace(names, start, o, p);
  }

  lemma TheLaterTakesItsPlace(names: map<Id, WireName>, start: map<Id, Window>, o: Observation, p: Observation)
    requires start.Keys == names.Keys == {0, 1} && names[0] == names[1]
    ensures !Conserved(Run(Init(names, start), [Records(0, o), Records(1, p)] + [WriteSucceeds]))
  {
    hide Conserved, Current, Run;
    InitConserves(names, start);
    RunOfThree(Init(names, start), Records(0, o), Records(1, p), WriteSucceeds);
    LostAtTheLast(Init(names, start), [Records(0, o), Records(1, p)], 0);
  }
}
