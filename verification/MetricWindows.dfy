/** What a metric has recorded, as the list of its observations, and what a report makes
    of a stretch of them. Numbers are reals; a value that is not finite is its own case. */
module MetricWindows {

  datatype Number = Finite(value: real) | NotFinite

  /** One recorded change: the series it belongs to and by how much. */
  datatype Observation = Observation(series: string, amount: real)

  type Window = seq<Observation>

  function Series(w: Window): set<string> {
    set i | 0 <= i < |w| :: w[i].series
  }

  function Amounts(w: Window, series: string): seq<real> {
    if w == [] then []
    else
      var last := w[|w| - 1];
      Amounts(w[..|w| - 1], series) + if last.series == series then [last.amount] else []
  }

  function Total(xs: seq<real>): real {
    if xs == [] then 0.0 else Total(xs[..|xs| - 1]) + xs[|xs| - 1]
  }

  function Sum(w: Window, series: string): real {
    Total(Amounts(w, series))
  }

  function Larger(a: real, b: real): real {
    if a < b then b else a
  }

  function Largest(xs: seq<real>): real
    requires xs != []
  {
    if |xs| == 1 then xs[0] else Larger(Largest(xs[..|xs| - 1]), xs[|xs| - 1])
  }

  lemma AmountsOneMore(w: Window, o: Observation, series: string)
    ensures Amounts(w + [o], series) == Amounts(w, series) + if o.series == series then [o.amount] else []
    ensures Series(w + [o]) == Series(w) + {o.series}
  {
    assert (w + [o])[..|w|] == w;
    forall s | s in Series(w) + {o.series}
      ensures s in Series(w + [o])
    {
      if s == o.series {
        assert (w + [o])[|w|].series == s;
      } else {
        var i :| 0 <= i < |w| && w[i].series == s;
        assert (w + [o])[i].series == s;
      }
    }
  }

  lemma TotalOneMore(xs: seq<real>, x: real)
    ensures Total(xs + [x]) == Total(xs) + x
  {
    assert (xs + [x])[..|xs|] == xs;
  }

  lemma LargestOneMore(xs: seq<real>, x: real)
    ensures Largest(xs + [x]) == if xs == [] then x else Larger(Largest(xs), x)
  {
    assert (xs + [x])[..|xs|] == xs;
  }

  lemma Assoc<T>(a: seq<T>, b: seq<T>, c: seq<T>)
    ensures a + b + c == a + (b + c)
  {
  }

  lemma {:induction false} AmountsConcat(a: Window, b: Window, series: string)
    ensures Amounts(a + b, series) == Amounts(a, series) + Amounts(b, series)
    decreases |b|
  {
    if b == [] {
      assert a + b == a;
    } else {
      hide Amounts;
      var front, last := b[..|b| - 1], b[|b| - 1];
      AmountsConcat(a, front, series);
      AmountsOneMore(a + front, last, series);
      AmountsOneMore(front, last, series);
      Assoc(a, front, [last]);
      assert front + [last] == b;
      Assoc(Amounts(a, series), Amounts(front, series), if last.series == series then [last.amount] else []);
    }
  }

  lemma {:induction false} TotalConcat(a: seq<real>, b: seq<real>)
    ensures Total(a + b) == Total(a) + Total(b)
    decreases |b|
  {
    if b == [] {
      assert a + b == a;
    } else {
      var front, last := b[..|b| - 1], b[|b| - 1];
      TotalConcat(a, front);
      TotalOneMore(a + front, last);
      assert a + b == (a + front) + [last];
    }
  }

  lemma {:induction false} LargestConcat(a: seq<real>, b: seq<real>)
    requires a != [] && b != []
    ensures Largest(a + b) == Larger(Largest(a), Largest(b))
    decreases |b|
  {
    var front, last := b[..|b| - 1], b[|b| - 1];
    assert a + b == (a + front) + [last];
    LargestOneMore(a + front, last);
    if front == [] {
      assert a + front == a;
    } else {
      LargestConcat(a, front);
    }
  }

  /** The largest is one of them, and none is larger. */
  lemma {:induction false} LargestBounds(xs: seq<real>)
    requires xs != []
    ensures Largest(xs) in xs && forall x :: x in xs ==> x <= Largest(xs)
  {
    if |xs| > 1 {
      LargestBounds(xs[..|xs| - 1]);
      assert xs == xs[..|xs| - 1] + [xs[|xs| - 1]];
    }
  }

  /** Two windows' sums add up to the sum of both together. */
  lemma SumConcat(a: Window, b: Window, series: string)
    ensures Sum(a + b, series) == Sum(a, series) + Sum(b, series)
  {
    AmountsConcat(a, b, series);
    TotalConcat(Amounts(a, series), Amounts(b, series));
  }

  lemma {:induction false} OutsideIsZero(w: Window, series: string)
    requires series !in Series(w)
    ensures Amounts(w, series) == [] && Sum(w, series) == 0.0
  {
    if w != [] {
      var front, last := w[..|w| - 1], w[|w| - 1];
      assert w == front + [last];
      AmountsOneMore(front, last, series);
      OutsideIsZero(front, series);
    }
  }

  // ----- running totals ---------------------------------------------------------------

  /** A map holds, for every series there is, the sum of what was recorded. */
  ghost predicate Tallies(totals: map<string, real>, w: Window) {
    totals.Keys == Series(w) && forall s :: s in totals ==> totals[s] == Sum(w, s)
  }

  function At(totals: map<string, real>, series: string): real {
    if series in totals then totals[series] else 0.0
  }

  lemma TallyAt(totals: map<string, real>, w: Window, series: string)
    requires Tallies(totals, w)
    ensures At(totals, series) == Sum(w, series)
  {
    if series !in totals {
      OutsideIsZero(w, series);
    }
  }

  lemma SumOneMore(w: Window, o: Observation, series: string)
    ensures Sum(w + [o], series) == Sum(w, series) + if o.series == series then o.amount else 0.0
  {
    AmountsOneMore(w, o, series);
    TotalOneMore(Amounts(w, series), o.amount);
    if o.series != series {
      assert Amounts(w, series) + [] == Amounts(w, series);
    }
  }

  lemma TallyOneMore(totals: map<string, real>, w: Window, o: Observation)
    requires Tallies(totals, w)
    ensures Tallies(totals[o.series := At(totals, o.series) + o.amount], w + [o])
  {
    AmountsOneMore(w, o, o.series);
    hide Series, Sum;
    forall s | s in totals || s == o.series
      ensures Sum(w + [o], s) == At(totals, s) + if s == o.series then o.amount else 0.0
    {
      SumOneMore(w, o, s);
      TallyAt(totals, w, s);
    }
  }

  /** What is tallied since is the difference of two tallies. */
  lemma TallyDifference(totals: map<string, real>, baseline: map<string, real>, before: Window, since: Window, series: string)
    requires Tallies(totals, before + since) && Tallies(baseline, before)
    ensures At(totals, series) - At(baseline, series) == Sum(since, series)
  {
    TallyAt(totals, before + since, series);
    TallyAt(baseline, before, series);
    SumConcat(before, since, series);
  }
}
