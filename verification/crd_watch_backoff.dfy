/** The pauses between CRD watch iterations: capped exponential backoff with jitter. Nanoseconds. */
module CrdWatchBackoff {

  const SECOND := 1_000_000_000
  const BASE_DELAY := 2 * SECOND
  const MAX_DELAY := 120 * SECOND

  /** How one watch iteration ended, and how long it lasted. */
  datatype Iteration = Iteration(failed: bool, lasted: nat) {
    predicate Healthy() {
      !failed && lasted >= BASE_DELAY
    }
  }

  function Min(a: int, b: int): int {
    if a < b then a else b
  }

  function Pow2(k: nat): (r: nat)
    ensures r >= 1
  {
    if k == 0 then 1 else 2 * Pow2(k - 1)
  }

  /** The backoff after `k` unhealthy iterations since the last healthy one. */
  function Capped(k: nat): int {
    Min(BASE_DELAY * Pow2(k), MAX_DELAY)
  }

  /** How many iterations were unhealthy since the last healthy one. */
  function Streak(its: seq<Iteration>): nat {
    if its == [] || its[|its| - 1].Healthy() then 0 else 1 + Streak(its[..|its| - 1])
  }

  /** A draw in the upper half of the duration. */
  method Jitter(d: int) returns (r: int)
    ensures if d <= 0 then r == 0 else d / 2 <= r <= d
  {
    if d <= 0 {
      return 0;
    }
    var half := d / 2;
    var draw: int :| 0 <= draw <= half;
    r := half + draw;
  }

  lemma CappedDoubles(k: nat)
    ensures Capped(k + 1) == Min(Capped(k) * 2, MAX_DELAY)
  {
  }

  /** The delays the loop may take: the base after a healthy iteration, else half to all of the backoff. */
  predicate Permitted(its: seq<Iteration>, delays: seq<int>) {
    && |delays| == |its|
    && forall i :: 0 <= i < |its| ==>
         if its[i].Healthy() then delays[i] == BASE_DELAY
         else Capped(Streak(its[..i])) / 2 <= delays[i] <= Capped(Streak(its[..i]))
  }

  lemma PermittedSnoc(its: seq<Iteration>, delays: seq<int>, it: Iteration, delay: int)
    requires Permitted(its, delays)
    requires if it.Healthy() then delay == BASE_DELAY else Capped(Streak(its)) / 2 <= delay <= Capped(Streak(its))
    ensures Permitted(its + [it], delays + [delay])
  {
    forall j | 0 <= j <= |its| ensures (its + [it])[..j] == its[..j] {
    }
    assert its[..|its|] == its;
  }

  lemma StreakSnoc(its: seq<Iteration>, it: Iteration)
    ensures Streak(its + [it]) == if it.Healthy() then 0 else Streak(its) + 1
  {
    assert (its + [it])[..|its|] == its;
  }

  /** One round of the loop: the delay is permitted, and the new backoff is that of the longer run. */
  lemma RoundKeepsLaw(its: seq<Iteration>, i: nat, delays: seq<int>, delay: int)
    requires i < |its| && Permitted(its[..i], delays)
    requires
      var backoff := Capped(Streak(its[..i]));
      if its[i].Healthy() then delay == BASE_DELAY else backoff / 2 <= delay <= backoff
    ensures Permitted(its[..i + 1], delays + [delay])
    ensures Capped(Streak(its[..i + 1])) ==
      if its[i].Healthy() then BASE_DELAY else Min(Capped(Streak(its[..i])) * 2, MAX_DELAY)
  {
    assert its[..i + 1] == its[..i] + [its[i]];
    StreakSnoc(its[..i], its[i]);
    PermittedSnoc(its[..i], delays, its[i], delay);
    CappedDoubles(Streak(its[..i]));
    assert Pow2(0) == 1;
  }

  /** The watch loop over the iterations up to a stop signal. */
  method WatchCRDs(its: seq<Iteration>) returns (delays: seq<int>, backoff: int)
    ensures Permitted(its, delays)
    ensures backoff == Capped(Streak(its))
  {
    backoff := BASE_DELAY;
    delays := [];
    var i := 0;
    while i < |its|
      invariant 0 <= i <= |its|
      invariant backoff == Capped(Streak(its[..i]))
      invariant Permitted(its[..i], delays)
    {
      var delay: int;
      if !its[i].failed && its[i].lasted >= BASE_DELAY {
        RoundKeepsLaw(its, i, delays, BASE_DELAY);
        backoff := BASE_DELAY;
        delay := BASE_DELAY;
      } else {
        delay := Jitter(backoff);
        RoundKeepsLaw(its, i, delays, delay);
        backoff := Min(backoff * 2, MAX_DELAY);
      }
      delays := delays + [delay];
      i := i + 1;
    }
    assert its[..|its|] == its;
  }

  function Sum(s: seq<int>): int {
    if s == [] then 0 else Sum(s[..|s| - 1]) + s[|s| - 1]
  }

  /** The least total wait of `n` unhealthy iterations in a row after a reset. */
  function LeastWait(n: nat): int {
    if n <= 6 then (Pow2(n) - 1) * SECOND else 63 * SECOND + 60 * SECOND * (n - 6)
  }

  lemma LeastWaitGrows(n: nat)
    ensures LeastWait(n + 1) <= LeastWait(n) + Capped(n) / 2
  {
    assert Pow2(6) == 64;
    if n >= 6 {
      Pow2Grows(6, n);
    } else {
      Pow2Grows(n, 5);
      assert Pow2(5) == 32;
    }
  }

  lemma {:induction false} Pow2Grows(m: nat, n: nat)
    requires m <= n
    ensures Pow2(m) <= Pow2(n)
  {
    if m == n {
    } else {
      Pow2Grows(m, n - 1);
    }
  }

  lemma {:induction false} StreakAfter(its: seq<Iteration>, from: nat, n: nat)
    requires from + n <= |its| && Streak(its[..from]) == 0
    requires forall i :: from <= i < from + n ==> !its[i].Healthy()
    ensures Streak(its[..from + n]) == n
  {
    if n == 0 {
    } else {
      StreakAfter(its, from, n - 1);
      assert its[..from + n] == its[..from + n - 1] + [its[from + n - 1]];
      StreakSnoc(its[..from + n - 1], its[from + n - 1]);
    }
  }

  lemma LastDelay(its: seq<Iteration>, delays: seq<int>, from: nat, n: nat)
    requires Permitted(its, delays) && from + n < |its|
    requires Streak(its[..from]) == 0
    requires forall i :: from <= i <= from + n ==> !its[i].Healthy()
    ensures delays[from + n] >= Capped(n) / 2
  {
    StreakAfter(its, from, n);
  }

  lemma {:induction false} SumOfDelays(ds: seq<int>)
    requires forall k :: 0 <= k < |ds| ==> ds[k] >= Capped(k) / 2
    ensures Sum(ds) >= LeastWait(|ds|)
  {
    if ds == [] {
    } else {
      SumOfDelays(ds[..|ds| - 1]);
      LeastWaitGrows(|ds| - 1);
    }
  }

  /**
    Failing iterations are rate-bound: from a reset, `n` unhealthy iterations in a row wait at
    least (2^n - 1) seconds in all for n up to 6, and 63 seconds plus 60 more each beyond.
   */
  lemma FailuresAreRateBound(its: seq<Iteration>, delays: seq<int>, from: nat, n: nat)
    requires Permitted(its, delays) && from + n <= |its|
    requires Streak(its[..from]) == 0
    requires forall i :: from <= i < from + n ==> !its[i].Healthy()
    ensures Sum(delays[from..from + n]) >= LeastWait(n)
  {
    var ds := delays[from..from + n];
    forall k | 0 <= k < |ds| ensures ds[k] >= Capped(k) / 2 {
      LastDelay(its, delays, from, k);
    }
    SumOfDelays(ds);
  }

  /** When each iteration starts, from time zero. */
  function StartOf(its: seq<Iteration>, delays: seq<int>, i: nat): int
    requires |its| == |delays| && i <= |its|
  {
    if i == 0 then 0 else StartOf(its, delays, i - 1) + its[i - 1].lasted + delays[i - 1]
  }

  /** Any two iteration starts are at least a second apart per iteration between them. */
  lemma {:induction false} StartsAreSpaced(its: seq<Iteration>, delays: seq<int>, i: nat, j: nat)
    requires Permitted(its, delays) && i <= j <= |its|
    ensures StartOf(its, delays, j) - StartOf(its, delays, i) >= (j - i) * SECOND
  {
    if i == j {
    } else {
      StartsAreSpaced(its, delays, i, j - 1);
      assert Capped(Streak(its[..j - 1])) >= BASE_DELAY;
    }
  }

  /** Unhealthy, spelled out: the watch failed, or collapsed within two seconds. */
  predicate Unhealthy(it: Iteration) {
    it.failed || it.lasted < 2_000_000_000
  }

  lemma CappedBelow(k: nat)
    ensures 2 * SECOND <= Capped(k) <= 120 * SECOND
  {
  }

  /** Every delay is between one second and two minutes; after a watch that stayed up it is two seconds. */
  lemma DelaysAreBounded(its: seq<Iteration>, delays: seq<int>, i: nat)
    requires Permitted(its, delays) && i < |its|
    ensures 1_000_000_000 <= delays[i] <= 120_000_000_000
    ensures !Unhealthy(its[i]) ==> delays[i] == 2_000_000_000
  {
    CappedBelow(Streak(its[..i]));
  }

  /** The most total wait of `n` unhealthy iterations in a row after a reset. */
  function MostWait(n: nat): int {
    if n <= 6 then 2 * (Pow2(n) - 1) * SECOND else 126 * SECOND + 120 * SECOND * (n - 6)
  }

  lemma MostWaitGrows(n: nat)
    ensures MostWait(n) + Capped(n) <= MostWait(n + 1)
  {
    assert Pow2(6) == 64;
    if n >= 6 {
      CappedBelow(n);
    }
  }

  lemma {:induction false} SumOfDelaysBelow(ds: seq<int>)
    requires forall k :: 0 <= k < |ds| ==> ds[k] <= Capped(k)
    ensures Sum(ds) <= MostWait(|ds|)
  {
    if ds == [] {
    } else {
      SumOfDelaysBelow(ds[..|ds| - 1]);
      MostWaitGrows(|ds| - 1);
    }
  }

  lemma DelayBelow(its: seq<Iteration>, delays: seq<int>, from: nat, n: nat)
    requires Permitted(its, delays) && from + n < |its| && Streak(its[..from]) == 0
    requires forall i :: from <= i <= from + n ==> !its[i].Healthy()
    ensures delays[from + n] <= Capped(n)
  {
    StreakAfter(its, from, n);
  }

  /**
    The wait of failing watches, in seconds: from the start, or from a watch that stayed up, `n`
    unhealthy iterations in a row wait between 2^n - 1 and 2 (2^n - 1) seconds for n up to 6, and
    between 63 + 60 (n - 6) and 126 + 120 (n - 6) beyond.
   */
  lemma FailuresWaitBetween(its: seq<Iteration>, delays: seq<int>, from: nat, n: nat)
    requires Permitted(its, delays) && from + n <= |its|
    requires from == 0 || !Unhealthy(its[from - 1])
    requires forall i :: from <= i < from + n ==> Unhealthy(its[i])
    ensures LeastWait(n) <= Sum(delays[from..from + n]) <= MostWait(n)
  {
    assert from > 0 ==> its[..from][from - 1] == its[from - 1];
    FailuresAreRateBound(its, delays, from, n);
    var ds := delays[from..from + n];
    forall k | 0 <= k < |ds| ensures ds[k] <= Capped(k) {
      DelayBelow(its, delays, from, k);
    }
    SumOfDelaysBelow(ds);
  }
}
