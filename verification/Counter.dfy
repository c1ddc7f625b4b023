/** A counter: cumulative values by series, and how much each has risen since the last
    report that was written. */
module CounterMetric {
  import opened MetricWindows

  const DEFAULT_LABEL := "default"
  const MAX_SERIES_PER_METRIC: nat := 1000
  const MAX_SERIES_KEY_LENGTH: nat := 255

  /** What `increment` is called with: a label set, serialised to its series key, that
      names the declared labels or does not. */
  datatype Label = Unlabelled | Labelled(key: string, matchesDeclared: bool)

  datatype Outcome = Recorded | Refused | Thrown

  class Counter {
    const hasLabels: bool
    const initialValue: real
    var value: map<string, real>
    var lastFlushed: map<string, real>
    var seriesWarned: bool
    var longKeyWarned: bool
    ghost var flushed: Window
    ghost var window: Window

    /** Cumulative values are the sums of everything recorded, the baseline those of
        what had been recorded at the last report; the latch tells the truth. */
    ghost predicate Valid()
      reads this
    {
      && Tallies(value, flushed + window)
      && Tallies(lastFlushed, flushed)
      && |value| <= 1000
      && (seriesWarned ==> |value| == 1000)
      && (!hasLabels ==> "default" in value)
    }

    /** A counter without labels starts with its one series at the initial value; one
        with labels starts a series at it. */
    constructor (hasLabels: bool, initial: Number)
      ensures Valid()
      ensures this.hasLabels == hasLabels && initialValue == if initial.Finite? then initial.value else 0.0
      ensures flushed == [] && window == if hasLabels then [] else [Observation("default", initialValue)]
    {
      this.hasLabels := hasLabels;
      var start := if initial.Finite? then initial.value else 0.0;
      initialValue := start;
      lastFlushed := map[];
      value := if hasLabels then map[] else map[DEFAULT_LABEL := start];
      seriesWarned, longKeyWarned := false, false;
      flushed, window := [], if hasLabels then [] else [Observation(DEFAULT_LABEL, start)];
      new;
      if !hasLabels {
        TallyOneMore(map[], [], Observation(DEFAULT_LABEL, start));
        assert flushed + window == [] + [Observation(DEFAULT_LABEL, start)];
      }
    }

    /** How much each series rose since the last report written: what was recorded since. */
    function Increase(): (increase: map<string, real>)
      requires Valid()
      reads this
      ensures increase.Keys == value.Keys
      ensures forall s :: s in increase ==> increase[s] == Sum(window, s)
    {
      IncreaseIsTheWindow();
      map s | s in value :: value[s] - At(lastFlushed, s)
    }

    lemma IncreaseIsTheWindow()
      requires Valid()
      ensures forall s :: s in value ==> value[s] - At(lastFlushed, s) == Sum(window, s)
    {
      hide Tallies, Sum;
      forall s | s in value
        ensures value[s] - At(lastFlushed, s) == Sum(window, s)
      {
        TallyDifference(value, lastFlushed, flushed, window, s);
      }
    }

    method MarkFlushed()
      requires Valid()
      modifies this`lastFlushed, this`flushed, this`window
      ensures Valid() && lastFlushed == value
      ensures flushed == old(flushed + window) && window == []
    {
      lastFlushed := value;
      flushed, window := flushed + window, [];
      assert flushed + window == flushed;
    }

    /** Whether a series may be recorded under; a new one only while there is room and
        its key is not too long. The latch spares the counting and changes no answer. */
    method AdmitsSeries(key: string) returns (admits: bool)
      requires Valid()
      modifies this`seriesWarned, this`longKeyWarned
      ensures Valid()
      ensures admits <==> key in value || (|key| <= 255 && |value| < 1000)
    {
      if key in value {
        return true;
      }
      if |key| > MAX_SERIES_KEY_LENGTH {
        longKeyWarned := true;
        return false;
      }
      if !seriesWarned {
        if |value| < MAX_SERIES_PER_METRIC {
          return true;
        }
        seriesWarned := true;
      }
      return false;
    }

    /** Whether a call with this series may record. */
    ghost predicate Admits(key: string)
      reads this
    {
      key in value || (|key| <= 255 && |value| < 1000)
    }

    /** What a call adds to its series: the amount, on top of the initial value where
        the series is new. */
    ghost function Recording(key: string, amount: real): Observation
      reads this
    {
      Observation(key, if key in value then amount else initialValue + amount)
    }

    method Increment(on: Label, amount: Number) returns (outcome: Outcome)
      requires Valid()
      modifies this
      ensures Valid() && flushed == old(flushed)
      ensures outcome == Thrown <==> (hasLabels && on.Unlabelled?) || (on.Labelled? && !on.matchesDeclared)
      ensures var key := if on.Labelled? then on.key else "default";
        && (outcome == Recorded <==> outcome != Thrown && amount.Finite? && old(Admits(key)))
        && (outcome == Recorded ==> window == old(window) + [old(Recording(key, amount.value))])
      ensures outcome != Recorded ==> window == old(window) && value == old(value)
    {
      hide Tallies;
      if hasLabels && on.Unlabelled? {
        return Thrown;
      }
      if on.Labelled? {
        if !on.matchesDeclared {
          return Thrown;
        }
        if amount.NotFinite? {
          return Refused;
        }
        var admits := AdmitsSeries(on.key);
        if !admits {
          return Refused;
        }
        Add(on.key, amount.value);
      } else {
        if amount.NotFinite? {
          return Refused;
        }
        Add(DEFAULT_LABEL, amount.value);
      }
      return Recorded;
    }

    method Add(key: string, amount: real)
      requires Valid() && Admits(key)
      modifies this`value, this`window
      ensures Valid() && window == old(window) + [old(Recording(key, amount))]
      ensures value == old(value)[key := old(At(value, key) + Recording(key, amount).amount)]
    {
      ghost var before, o := flushed + window, Recording(key, amount);
      hide Tallies;
      TallyOneMore(value, before, o);
      value := value[key := (if key in value then value[key] else initialValue) + amount];
      window := window + [o];
      Assoc(flushed, old(window), [o]);
    }

    /** The counter asked for again with an initial value: an unlabelled one that reads
        nought is set to it, and no change handler runs. */
    method SeedAgain(initial: real) returns (seeded: bool)
      requires Valid()
      modifies this`value, this`window
      ensures Valid()
      ensures seeded <==> !hasLabels && old(value)["default"] == 0.0
      ensures window == if seeded then old(window) + [Observation("default", initial)] else old(window)
      ensures value == if seeded then old(value)["default" := initial] else old(value)
    {
      if hasLabels || value[DEFAULT_LABEL] != 0.0 {
        return false;
      }
      hide Tallies;
      // nought and the initial value is the initial value
      Add(DEFAULT_LABEL, initial);
      return true;
    }
  }
}
