/** Waits that double up to a ceiling. */
module Backoff {

  function Min(a: int, b: int): (m: int)
    ensures m <= a && m <= b && (m == a || m == b)
  {
    if a < b then a else b
  }

  function PowerOfTwo(n: nat): (p: nat)
    ensures p >= 1
  {
    if n == 0 then 1 else 2 * PowerOfTwo(n - 1)
  }

  /** The wait after the nth failure in a row: the first doubled n - 1 times, under the
      ceiling; none before the first. */
  function After(base: nat, ceiling: nat, n: nat): nat {
    if n == 0 then 0 else Min(base * PowerOfTwo(n - 1), ceiling)
  }

  /** The wait as it is kept: none yet, or the last one doubled, under the ceiling. */
  function Next(base: nat, ceiling: nat, last: nat): nat {
    if last == 0 then Min(base, ceiling) else Min(last * 2, ceiling)
  }

  /** Doubling what is kept comes to the same, though what is kept is already cut to
      the ceiling. */
  lemma NextIsAfter(base: nat, ceiling: nat, n: nat)
    requires base > 0 && ceiling > 0
    ensures Next(base, ceiling, After(base, ceiling, n)) == After(base, ceiling, n + 1)
  {
    if n > 0 {
      var p := PowerOfTwo(n - 1);
      assert base * PowerOfTwo(n) == 2 * (base * p);
      assert base * p >= 1;
    }
  }

  /** The wait never shrinks along a row of failures, and is the ceiling from some point on. */
  lemma {:induction false} AfterGrows(base: nat, ceiling: nat, m: nat, n: nat)
    requires m <= n
    ensures After(base, ceiling, m) <= After(base, ceiling, n) <= ceiling
    decreases n - m
  {
    if m < n {
      AfterGrows(base, ceiling, m + 1, n);
      if m > 0 {
        assert base * PowerOfTwo(m) == 2 * (base * PowerOfTwo(m - 1));
      }
    }
  }
}
