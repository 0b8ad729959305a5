/** The ratio buckets of the need histogram: bucket i covers the need-per-byte
    ratios from 1.05^i up to, and not including, 1.05^(i+1). */
module Ratios {
  const BUCKET_GROWTH: real := 1.05

  function Edge(i: int): (e: real)
    ensures e > 0.0
    decreases i < 0, if i >= 0 then i else -i
  {
    if i == 0 then 1.0
    else if i > 0 then Edge(i - 1) * BUCKET_GROWTH
    else 1.0 / Edge(-i)
  }

  predicate InBucket(i: int, ratio: real) {
    Edge(i) <= ratio < Edge(i + 1)
  }

  lemma EdgeStep(i: int)
    ensures Edge(i + 1) == Edge(i) * BUCKET_GROWTH > Edge(i)
  {
    if i < 0 { Reciprocal(Edge(-i - 1)); }
  }

  lemma Reciprocal(e: real)
    requires e > 0.0
    ensures 1.0 / (e * BUCKET_GROWTH) > 0.0 && 1.0 / (e * BUCKET_GROWTH) * BUCKET_GROWTH == 1.0 / e
  {
    var r := 1.0 / (e * BUCKET_GROWTH);
    assert r * (e * BUCKET_GROWTH) == 1.0;
    assert (r * BUCKET_GROWTH) * e == 1.0;
  }

  lemma {:induction false} EdgeMonotone(i: int, j: int)
    requires i <= j
    ensures Edge(i) <= Edge(j)
    decreases j - i
  {
    if i < j {
      EdgeStep(i);
      EdgeMonotone(i + 1, j);
    }
  }

  /** A ratio has at most one bucket. */
  lemma BucketUnique(i: int, j: int, ratio: real)
    requires InBucket(i, ratio) && InBucket(j, ratio)
    ensures i == j
  {
    if i < j {
      EdgeMonotone(i + 1, j);
    } else if j < i {
      EdgeMonotone(j + 1, i);
    }
  }

  /** Edges outgrow every line. */
  lemma {:induction false} EdgeGrows(n: int)
    requires n >= 0
    ensures Edge(n) >= 1.0 + 0.05 * n as real
  {
    if n > 0 { EdgeGrows(n - 1); }
  }

  /** Some edge is at most the ratio. */
  lemma LowEdge(ratio: real) returns (low: int)
    requires ratio > 0.0
    ensures Edge(low) <= ratio
  {
    var n := (20.0 / ratio).Floor + 1;
    assert n as real * ratio >= 20.0 by { assert n as real >= 20.0 / ratio; Times(n as real, 20.0 / ratio, ratio); }
    EdgeGrows(n);
    assert Edge(-n) * Edge(n) == 1.0;
    low := -n;
    if Edge(low) > ratio {
      Times(Edge(low), ratio, Edge(n));
      Times(Edge(n), 0.05 * n as real, ratio);
    }
  }

  lemma Times(a: real, b: real, c: real)
    requires a >= b && c > 0.0
    ensures a * c >= b * c && (a > b ==> a * c > b * c)
  {
  }

  /** Some edge is above the ratio. */
  lemma HighEdge(ratio: real) returns (high: int)
    requires ratio > 0.0
    ensures Edge(high) > ratio
  {
    high := (20.0 * ratio).Floor + 1;
    EdgeGrows(high);
  }

  /** Whatever bucket the logarithm's rounding proposes, the edges settle it. */
  method BucketOf(guess: int, ratio: real) returns (i: int)
    requires ratio > 0.0
    ensures InBucket(i, ratio)
  {
    ghost var low := LowEdge(ratio);
    ghost var high := HighEdge(ratio);
    i := guess;
    while Edge(i) > ratio
      decreases i - low
    {
      if i <= low { EdgeMonotone(i, low); }
      i := i - 1;
    }
    while Edge(i + 1) <= ratio
      invariant Edge(i) <= ratio
      decreases high - i
    {
      if i + 1 >= high { EdgeMonotone(high, i + 1); }
      i := i + 1;
    }
  }

  // ----- decay -----

  function Pow(b: real, n: nat): real {
    if n == 0 then 1.0 else b * Pow(b, n - 1)
  }

  lemma {:induction false} PowBounds(b: real, n: nat)
    requires 0.0 < b <= 1.0
    ensures 0.0 < Pow(b, n) <= 1.0 && (n >= 1 ==> Pow(b, n) <= b)
  {
    if n > 0 {
      PowBounds(b, n - 1);
      PowStep(b, Pow(b, n - 1), Pow(b, n));
    }
  }

  lemma PowStep(b: real, rest: real, product: real)
    requires 0.0 < b && 0.0 < rest <= 1.0 && product == b * rest
    ensures 0.0 < product <= b
  {
    Times(1.0, rest, b);
  }

  lemma {:induction false} PowShrinks(b: real, m: nat, n: nat)
    requires 0.0 < b <= 1.0 && m <= n
    ensures Pow(b, n) <= Pow(b, m)
    decreases n - m
  {
    if m < n {
      PowShrinks(b, m + 1, n);
      PowBounds(b, m);
      Times(1.0, b, Pow(b, m));
    }
  }

  /** The factor that halves a weight over halfLifeFiles files, and over one file
      when that is less than one. */
  ghost predicate HalvesOver(decay: real, halfLifeFiles: int) {
    0.0 < decay < 1.0 && Pow(decay, if halfLifeFiles < 1 then 1 else halfLifeFiles) == 0.5
  }

  lemma DecayAtLeastHalf(decay: real, halfLifeFiles: int)
    requires HalvesOver(decay, halfLifeFiles)
    ensures decay >= 0.5
  {
    PowBounds(decay, if halfLifeFiles < 1 then 1 else halfLifeFiles);
  }
}
