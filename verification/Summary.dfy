/** A summary: the count, sum and maximum of a window of observations by label, exact,
    and a bounded sample of them that the quantiles are read off. */
module SummaryMetric {
  import opened MetricWindows

  const DEFAULT_LABEL := "default"

  datatype Outcome = Recorded | Refused | Thrown

  /** What is known of one label's observations. */
  datatype Distribution = Distribution(count: nat, sum: real, max: real, samples: seq<real>)

  function Min(a: nat, b: nat): nat {
    if a < b then a else b
  }

  /** Count, sum and maximum are exact; the sample is some of the observations, as many
      as it has room for. */
  ghost predicate Describes(d: Distribution, xs: seq<real>, sampleSize: nat) {
    && xs != []
    && d.count == |xs|
    && d.sum == Total(xs)
    && d.max == Largest(xs)
    && |d.samples| == Min(|xs|, sampleSize)
    && multiset(d.samples) <= multiset(xs)
  }

  ghost predicate AllDescribed(all: map<string, Distribution>, w: Window, sampleSize: nat) {
    && all.Keys == Series(w)
    && forall s :: s in all ==> Describes(all[s], Amounts(w, s), sampleSize)
  }

  /** The sample with one more observation, which takes an old one's place where there
      is no room and the slot drawn is within it. */
  function Sampled(samples: seq<real>, x: real, sampleSize: nat, slot: nat): seq<real> {
    if |samples| < sampleSize then samples + [x]
    else if slot < |samples| then samples[slot := x]
    else samples
  }

  function OneMore(d: Distribution, x: real, sampleSize: nat, slot: nat): Distribution {
    Distribution(d.count + 1, d.sum + x, Larger(d.max, x), Sampled(d.samples, x, sampleSize, slot))
  }

  function First(x: real, sampleSize: nat, slot: nat): Distribution {
    Distribution(1, x, x, Sampled([], x, sampleSize, slot))
  }

  lemma SampledIsASample(samples: seq<real>, xs: seq<real>, x: real, sampleSize: nat, slot: nat)
    requires multiset(samples) <= multiset(xs)
    ensures multiset(Sampled(samples, x, sampleSize, slot)) <= multiset(xs + [x])
  {
    if |samples| >= sampleSize && slot < |samples| {
      assert multiset(samples[slot := x]) == multiset(samples) - multiset{samples[slot]} + multiset{x};
    }
  }

  lemma DescribesOneMore(d: Distribution, xs: seq<real>, x: real, sampleSize: nat, slot: nat)
    requires Describes(d, xs, sampleSize)
    ensures Describes(OneMore(d, x, sampleSize, slot), xs + [x], sampleSize)
  {
    TotalOneMore(xs, x);
    LargestOneMore(xs, x);
    SampledIsASample(d.samples, xs, x, sampleSize, slot);
  }

  lemma DescribesFirst(x: real, sampleSize: nat, slot: nat)
    ensures Describes(First(x, sampleSize, slot), [x], sampleSize)
  {
    TotalOneMore([], x);
    SampledIsASample([], [], x, sampleSize, slot);
    assert [] + [x] == [x];
  }

  function Observed(all: map<string, Distribution>, o: Observation, sampleSize: nat, slot: nat): map<string, Distribution> {
    all[o.series := if o.series in all then OneMore(all[o.series], o.amount, sampleSize, slot) else First(o.amount, sampleSize, slot)]
  }

  lemma AllDescribedOneMore(all: map<string, Distribution>, w: Window, o: Observation, sampleSize: nat, slot: nat)
    requires AllDescribed(all, w, sampleSize)
    ensures AllDescribed(Observed(all, o, sampleSize, slot), w + [o], sampleSize)
  {
    hide Describes, OneMore, First, Amounts, Series;
    AmountsOneMore(w, o, o.series);
    var after := Observed(all, o, sampleSize, slot);
    forall s | s in after
      ensures Describes(after[s], Amounts(w + [o], s), sampleSize)
    {
      AmountsOneMore(w, o, s);
      if s == o.series && s in all {
        DescribesOneMore(all[s], Amounts(w, s), o.amount, sampleSize, slot);
      } else if s == o.series {
        OutsideIsZero(w, s);
        DescribesFirst(o.amount, sampleSize, slot);
        assert [] + [o.amount] == [o.amount];
      } else {
        assert Amounts(w, s) + [] == Amounts(w, s);
      }
    }
  }

  /** The four maps a summary keeps, taken label by label. */
  ghost function Together(count: map<string, nat>, sum: map<string, real>, max: map<string, real>, samples: map<string, seq<real>>)
    : map<string, Distribution>
    requires count.Keys == sum.Keys == max.Keys == samples.Keys
  {
    map s | s in count :: Distribution(count[s], sum[s], max[s], samples[s])
  }

  /** What the four maps say is what the window holds. */
  ghost predicate Tracks(count: map<string, nat>, sum: map<string, real>, max: map<string, real>, samples: map<string, seq<real>>,
                         w: Window, sampleSize: nat)
  {
    && count.Keys == sum.Keys == max.Keys == samples.Keys
    && AllDescribed(Together(count, sum, max, samples), w, sampleSize)
  }

  lemma TogetherUpdated(count: map<string, nat>, sum: map<string, real>, max: map<string, real>, samples: map<string, seq<real>>,
                        key: string, d: Distribution)
    requires count.Keys == sum.Keys == max.Keys == samples.Keys
    ensures count[key := d.count].Keys == sum[key := d.sum].Keys == max[key := d.max].Keys == samples[key := d.samples].Keys
    ensures Together(count[key := d.count], sum[key := d.sum], max[key := d.max], samples[key := d.samples])
         == Together(count, sum, max, samples)[key := d]
  {
  }

  lemma TracksUpdated(count: map<string, nat>, sum: map<string, real>, max: map<string, real>, samples: map<string, seq<real>>,
                      w: Window, sampleSize: nat, o: Observation, slot: nat, d: Distribution)
    requires Tracks(count, sum, max, samples, w, sampleSize)
    requires o.series in count ==> d == OneMore(Distribution(count[o.series], sum[o.series], max[o.series], samples[o.series]), o.amount, sampleSize, slot)
    requires o.series !in count ==> d == First(o.amount, sampleSize, slot)
    ensures Tracks(count[o.series := d.count], sum[o.series := d.sum], max[o.series := d.max], samples[o.series := d.samples],
                   w + [o], sampleSize)
  {
    var all := Together(count, sum, max, samples);
    assert Observed(all, o, sampleSize, slot) == all[o.series := d];
    AllDescribedOneMore(all, w, o, sampleSize, slot);
    TogetherUpdated(count, sum, max, samples, o.series, d);
    hide AllDescribed, Together, Observed, OneMore, First;
  }

  lemma TracksAt(count: map<string, nat>, sum: map<string, real>, max: map<string, real>, samples: map<string, seq<real>>,
                 w: Window, sampleSize: nat, key: string)
    requires Tracks(count, sum, max, samples, w, sampleSize)
    ensures key in count <==> key in sum
    ensures key in count <==> key in max
    ensures key in count <==> key in samples
    ensures key in samples ==> |samples[key]| <= sampleSize
  {
    if key in samples {
      assert key in Together(count, sum, max, samples);
    }
  }

  class Summary {
    const labels: set<string>
    const hasLabels: bool
    const sampleSize: nat
    var count: map<string, nat>
    var sum: map<string, real>
    var max: map<string, real>
    var samples: map<string, seq<real>>
    ghost var flushed: Window
    ghost var window: Window

    ghost predicate Valid()
      reads this
    {
      Tracks(count, sum, max, samples, window, sampleSize)
    }

    constructor (hasLabels: bool, labels: set<string>, sampleSize: nat)
      ensures Valid() && flushed == [] && window == []
      ensures this.hasLabels == hasLabels && this.labels == labels && this.sampleSize == sampleSize
    {
      this.hasLabels, this.labels, this.sampleSize := hasLabels, labels, sampleSize;
      count, sum, max, samples := map[], map[], map[], map[];
      flushed, window := [], [];
    }

    /** Records an observation under its label. `slot` is the one drawn at random, below
        the label's count. */
    method Observe(x: Number, named: bool, name: string, slot: nat) returns (outcome: Outcome)
      requires Valid()
      modifies this`count, this`sum, this`max, this`samples, this`window
      ensures Valid()
      ensures outcome == Thrown <==> hasLabels && (!named || name == "" || name !in labels)
      ensures outcome == Recorded <==> outcome != Thrown && x.Finite?
      ensures window == if outcome == Recorded
                        then old(window) + [Observation(if named then name else "default", x.value)]
                        else old(window)
    {
      hide Tracks;
      if hasLabels && (!named || name == "") {
        return Thrown;
      }
      if named && hasLabels && name !in labels {
        return Thrown;
      }
      if x.NotFinite? {
        return Refused;
      }
      var key := if named then name else DEFAULT_LABEL;
      ghost var o := Observation(key, x.value);
      TracksAt(count, sum, max, samples, window, sampleSize, key);
      var c := (if key in count then count[key] else 0) + 1;
      var total := (if key in sum then sum[key] else 0.0) + x.value;
      var largest := if key in max then Larger(max[key], x.value) else x.value;
      var reservoir := if key in samples then samples[key] else [];
      if |reservoir| < sampleSize {
        reservoir := reservoir + [x.value];
      } else if slot < sampleSize {
        reservoir := reservoir[slot := x.value];
      }
      TracksUpdated(count, sum, max, samples, window, sampleSize, o, slot, Distribution(c, total, largest, reservoir));
      hide Tracks;
      count, sum, max, samples := count[key := c], sum[key := total], max[key := largest], samples[key := reservoir];
      window := window + [o];
      return Recorded;
    }

    /** Starts a fresh window. */
    method MarkFlushed()
      requires Valid()
      modifies this
      ensures Valid() && window == [] && flushed == old(flushed + window)
    {
      count, sum, max, samples := map[], map[], map[], map[];
      flushed, window := flushed + window, [];
    }
  }

  // ----- quantiles ----------------------------------------------------------------------

  function Insert(x: real, sorted: seq<real>): seq<real> {
    if sorted == [] || x <= sorted[0] then [x] + sorted else [sorted[0]] + Insert(x, sorted[1..])
  }

  function Sort(xs: seq<real>): seq<real> {
    if xs == [] then [] else Insert(xs[0], Sort(xs[1..]))
  }

  ghost predicate Sorted(xs: seq<real>) {
    forall i, j :: 0 <= i < j < |xs| ==> xs[i] <= xs[j]
  }

  /** The number of samples at most, or below, a value. */
  function AtMost(xs: seq<real>, x: real): (n: nat)
    ensures n <= |xs|
  {
    if xs == [] then 0 else AtMost(xs[1..], x) + if xs[0] <= x then 1 else 0
  }

  function Below(xs: seq<real>, x: real): (n: nat)
    ensures n <= |xs|
  {
    if xs == [] then 0 else Below(xs[1..], x) + if xs[0] < x then 1 else 0
  }

  /** Sorting moves observations about and does nothing else to them. */
  lemma {:induction false} InsertSorts(x: real, sorted: seq<real>)
    requires Sorted(sorted)
    ensures Sorted(Insert(x, sorted)) && |Insert(x, sorted)| == |sorted| + 1
    ensures forall y :: y in Insert(x, sorted) ==> y == x || y in sorted
  {
    if sorted != [] && x > sorted[0] {
      InsertSorts(x, sorted[1..]);
      var rest := Insert(x, sorted[1..]);
      forall j | 0 <= j < |rest|
        ensures sorted[0] <= rest[j]
      {
        assert rest[j] in rest;
      }
    }
  }

  lemma {:induction false} InsertCounts(x: real, sorted: seq<real>, v: real)
    ensures AtMost(Insert(x, sorted), v) == AtMost(sorted, v) + if x <= v then 1 else 0
    ensures Below(Insert(x, sorted), v) == Below(sorted, v) + if x < v then 1 else 0
  {
    if sorted == [] || x <= sorted[0] {
      assert ([x] + sorted)[1..] == sorted;
    } else {
      InsertCounts(x, sorted[1..], v);
      assert ([sorted[0]] + Insert(x, sorted[1..]))[1..] == Insert(x, sorted[1..]);
    }
  }

  lemma {:induction false} SortSorts(xs: seq<real>)
    ensures Sorted(Sort(xs)) && |Sort(xs)| == |xs|
    ensures forall y :: y in Sort(xs) ==> y in xs
  {
    if xs != [] {
      SortSorts(xs[1..]);
      InsertSorts(xs[0], Sort(xs[1..]));
    }
  }

  lemma {:induction false} SortCounts(xs: seq<real>, v: real)
    ensures AtMost(Sort(xs), v) == AtMost(xs, v) && Below(Sort(xs), v) == Below(xs, v)
  {
    if xs != [] {
      SortCounts(xs[1..], v);
      InsertCounts(xs[0], Sort(xs[1..]), v);
    }
  }

  /** Nearest rank at `percent` in the hundred: the ceiling of the share, less one, kept
      within the sample. */
  function Rank(percent: nat, n: nat): (rank: nat)
    requires n > 0
    ensures rank < n
  {
    var ceiling := (percent * n + 99) / 100;
    if ceiling == 0 then 0 else Min(ceiling - 1, n - 1)
  }

  function Quantile(samples: seq<real>, percent: nat): real
    requires samples != []
  {
    SortSorts(samples);
    Sort(samples)[Rank(percent, |samples|)]
  }

  lemma {:induction false} SortedCounts(xs: seq<real>, r: nat)
    requires Sorted(xs) && r < |xs|
    ensures AtMost(xs, xs[r]) >= r + 1 && Below(xs, xs[r]) <= r
    decreases |xs|
  {
    if r == 0 {
      NoneBelow(xs, xs[0]);
    } else {
      SortedCounts(xs[1..], r - 1);
    }
  }

  lemma {:induction false} NoneBelow(xs: seq<real>, x: real)
    requires forall i :: 0 <= i < |xs| ==> x <= xs[i]
    ensures Below(xs, x) == 0
  {
    if xs != [] {
      NoneBelow(xs[1..], x);
    }
  }

  /** A quantile is one of the samples; at least its share of them is no larger, and
      less than its share is smaller. */
  lemma QuantileHoldsItsShare(samples: seq<real>, percent: nat)
    requires samples != [] && 1 <= percent <= 100
    ensures var q := Quantile(samples, percent);
      && q in samples
      && 100 * AtMost(samples, q) >= percent * |samples|
      && 100 * Below(samples, q) < percent * |samples|
  {
    SortSorts(samples);
    var sorted, r := Sort(samples), Rank(percent, |samples|);
    SortedCounts(sorted, r);
    SortCounts(samples, sorted[r]);
    assert sorted[r] in sorted;
    RankIsTheShare(percent, |samples|);
  }

  lemma RankIsTheShare(percent: nat, n: nat)
    requires n > 0 && 1 <= percent <= 100
    ensures 100 * (Rank(percent, n) + 1) >= percent * n > 100 * Rank(percent, n)
  {
    var share := percent * n;
    assert 1 <= share <= 100 * n;
  }

  // ----- windows add up ---------------------------------------------------------------

  /** Two windows reported one after the other merge into what one would have been:
      counts and sums add, and the larger maximum is the maximum. */
  lemma DistributionsMerge(first: Window, second: Window, series: string)
    ensures |Amounts(first + second, series)| == |Amounts(first, series)| + |Amounts(second, series)|
    ensures Sum(first + second, series) == Sum(first, series) + Sum(second, series)
    ensures Amounts(first, series) != [] && Amounts(second, series) != []
        ==> Largest(Amounts(first + second, series)) == Larger(Largest(Amounts(first, series)), Largest(Amounts(second, series)))
  {
    AmountsConcat(first, second, series);
    SumConcat(first, second, series);
    if Amounts(first, series) != [] && Amounts(second, series) != [] {
      LargestConcat(Amounts(first, series), Amounts(second, series));
    }
  }
}
