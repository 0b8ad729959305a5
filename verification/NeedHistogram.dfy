/** The decaying histogram of observed need per source byte: what it predicts and
    how it is stored. Weights are reals; a weight below the smallest one a float
    can hold becomes zero. */
module NeedHistogram {
  import opened Int64
  import opened NeedWeights
  import opened Options
  import opened Ratios

  /** Where the sample maximum gives way to the percentile. */
  const PERCENTILE_OBSERVATIONS := 100
  const RESERVED_QUANTILE: real := 0.99

  /** The smallest positive double is 2 to the minus this. */
  const SMALLEST_EXPONENT: nat := 1074

  // ----- ascending indices -----

  lemma {:induction false} LeastExists(s: set<int>)
    requires s != {}
    ensures exists m :: m in s && forall x | x in s :: m <= x
  {
    assert (forall k :: k !in s) ==> s == {};
    var k :| k in s;
    var rest := s - {k};
    assert forall x | x in s :: x == k || x in rest;
    if rest != {} {
      LeastExists(rest);
      var m :| m in rest && forall x | x in rest :: m <= x;
      var least := if k <= m then k else m;
      assert least in s && forall x | x in s :: least <= x;
    }
  }

  ghost predicate Ascending(idx: seq<int>) {
    forall i, j | 0 <= i < j < |idx| :: idx[i] < idx[j]
  }

  function Least(s: set<int>): (m: int)
    requires s != {}
    ensures m in s && forall x | x in s :: m <= x
  {
    LeastExists(s);
    var m :| m in s && forall x | x in s :: m <= x;
    m
  }

  /** The bucket indices, ascending. */
  function SortedIndices(s: set<int>): (idx: seq<int>)
    ensures Ascending(idx)
    ensures forall k | 0 <= k < |idx| :: idx[k] in s
    ensures forall x | x in s :: x in idx
  {
    if s == {} then []
    else
      var m := Least(s);
      var rest := SortedIndices(s - {m});
      assert forall x | x in s && x != m :: x in rest;
      [m] + rest
  }

  // ----- prediction -----

  /** Rounded up, saturating at the largest int64. */
  function Reserve(ratio: real, sourceBytes: int): int {
    var need := -((-(ratio * sourceBytes as real)).Floor);
    if need >= MAX then MAX else need
  }

  /** need is the least whole number of bytes that is not below the ratio's, or the largest
      int64 when that is no smaller. */
  ghost predicate RoundedUp(need: int, ratio: real, sourceBytes: int) {
    var exact := ratio * sourceBytes as real;
    if need == MAX then exact > (MAX - 1) as real else need < MAX && (need - 1) as real < exact <= need as real
  }

  lemma ReserveRoundsUp(ratio: real, sourceBytes: int)
    ensures RoundedUp(Reserve(ratio, sourceBytes), ratio, sourceBytes)
  {
    var exact := ratio * sourceBytes as real;
    var need := -((-exact).Floor);
    assert need as real >= exact > (need - 1) as real;
  }

  /** The upper edge of the highest occupied bucket; zero when none is. */
  ghost predicate IsSampleMaximum(bs: Buckets, ratio: real) {
    if bs == map[] then ratio == 0.0
    else exists top :: top in bs && (forall i | i in bs :: i <= top) && ratio == Edge(top + 1)
  }

  /** The total weight of the zero bucket and of the first n ratio buckets. */
  function Cumulative(zero: real, bs: Buckets, idx: seq<int>, n: nat): real
    requires n <= |idx| && forall k | 0 <= k < |idx| :: idx[k] in bs
  {
    if n == 0 then zero else Cumulative(zero, bs, idx, n - 1) + bs[idx[n - 1]]
  }

  /** The lowest upper edge at which the weight reaches 99% of the total; the zero
      bucket's upper edge is zero. */
  ghost predicate IsPercentile(zero: real, bs: Buckets, ratio: real) {
    var idx := SortedIndices(bs.Keys);
    var goal := RESERVED_QUANTILE * Cumulative(zero, bs, idx, |idx|);
    if zero >= goal then ratio == 0.0
    else exists n | 0 < n <= |idx| ::
      && ratio == Edge(idx[n - 1] + 1) && Cumulative(zero, bs, idx, n) >= goal
      && forall m | 0 <= m < n :: Cumulative(zero, bs, idx, m) < goal
  }

  // ----- encoding -----

  datatype NeedBucket = NeedBucket(index: int, weight: real)
  datatype NeedState = NeedState(observations: int, zero: real, buckets: seq<NeedBucket>)

  function EncodeBuckets(bs: Buckets, idx: seq<int>): (r: seq<NeedBucket>)
    requires forall k | 0 <= k < |idx| :: idx[k] in bs
    ensures |r| == |idx| && forall k | 0 <= k < |idx| :: r[k] == NeedBucket(idx[k], bs[idx[k]])
  {
    seq(|idx|, k requires 0 <= k < |idx| => NeedBucket(idx[k], bs[idx[k]]))
  }

  function Encode(observations: int, zero: real, bs: Buckets): NeedState {
    NeedState(observations, zero, EncodeBuckets(bs, SortedIndices(bs.Keys)))
  }

  function DecodeBuckets(r: seq<NeedBucket>): Buckets {
    if r == [] then map[]
    else DecodeBuckets(r[..|r| - 1])[r[|r| - 1].index := r[|r| - 1].weight]
  }

  /** What a histogram's fields always satisfy, and all that its stored form is checked for. */
  ghost predicate Consistent(observations: int, zero: real, bs: Buckets) {
    && observations >= 0 && zero >= 0.0 && (forall i | i in bs :: bs[i] > 0.0)
    && (observations == 0 <==> zero == 0.0 && bs == map[])
  }

  ghost predicate AscendingWeights(r: seq<NeedBucket>) {
    && (forall k | 0 <= k < |r| :: r[k].weight > 0.0)
    && (forall k, l | 0 <= k < l < |r| :: r[k].index < r[l].index)
  }

  /** What the decoder accepts. */
  ghost predicate Accepted(st: NeedState) {
    && st.observations >= 0 && st.zero >= 0.0 && AscendingWeights(st.buckets)
    && (st.observations == 0 <==> st.zero == 0.0 && st.buckets == [])
  }

  lemma {:induction false} DecodeAt(r: seq<NeedBucket>, k: nat)
    requires AscendingWeights(r) && k < |r|
    ensures r[k].index in DecodeBuckets(r) && DecodeBuckets(r)[r[k].index] == r[k].weight
  {
    if k < |r| - 1 {
      DecodeAt(r[..|r| - 1], k);
    }
  }

  lemma {:induction false} DecodedFrom(r: seq<NeedBucket>, x: int) returns (k: nat)
    requires x in DecodeBuckets(r)
    ensures k < |r| && r[k].index == x
  {
    if r[|r| - 1].index == x {
      k := |r| - 1;
    } else {
      k := DecodedFrom(r[..|r| - 1], x);
    }
  }

  /** Two ascending lists of the same numbers are the same list. */
  lemma {:induction false} AscendingUnique(a: seq<int>, b: seq<int>)
    requires Ascending(a) && Ascending(b) && forall x :: x in a <==> x in b
    ensures a == b
  {
    assert a != [] ==> a[0] in a;
    assert b != [] ==> b[0] in b;
    if a != [] && b != [] {
      assert a[0] == b[0];
      forall x ensures x in a[1..] <==> x in b[1..] {
        if x in a[1..] { assert x in a && x != a[0]; }
        if x in b[1..] { assert x in b && x != b[0]; }
      }
      AscendingUnique(a[1..], b[1..]);
    }
  }

  lemma {:induction false} DecodePrefix(bs: Buckets, idx: seq<int>, n: nat)
    requires n <= |idx| && forall k | 0 <= k < |idx| :: idx[k] in bs
    ensures DecodeBuckets(EncodeBuckets(bs, idx)[..n]) == map i | i in bs && i in idx[..n] :: bs[i]
  {
    var r := EncodeBuckets(bs, idx);
    if n > 0 {
      DecodePrefix(bs, idx, n - 1);
      assert r[..n][..n - 1] == r[..n - 1];
      assert idx[..n] == idx[..n - 1] + [idx[n - 1]];
    }
  }

  lemma EncodedAscends(bs: Buckets, idx: seq<int>)
    requires Ascending(idx) && forall k | 0 <= k < |idx| :: idx[k] in bs && bs[idx[k]] > 0.0
    ensures AscendingWeights(EncodeBuckets(bs, idx))
  {
  }

  lemma DecodeWhole(bs: Buckets, idx: seq<int>)
    requires (forall k | 0 <= k < |idx| :: idx[k] in bs) && forall x | x in bs :: x in idx
    ensures DecodeBuckets(EncodeBuckets(bs, idx)) == bs
    ensures EncodeBuckets(bs, idx) == [] <==> bs == map[]
  {
    DecodePrefix(bs, idx, |idx|);
    assert EncodeBuckets(bs, idx)[..|idx|] == EncodeBuckets(bs, idx);
    assert idx[..|idx|] == idx;
    var kept := map i | i in bs && i in idx :: bs[i];
    assert kept == bs by { assert forall x | x in bs :: x in idx && x in kept; }
    if idx != [] { assert idx[0] in bs; }
  }

  /** Decoding what was encoded gives the model back, and it is accepted. */
  lemma DecodeOfEncode(observations: int, zero: real, bs: Buckets)
    requires Consistent(observations, zero, bs)
    ensures Accepted(Encode(observations, zero, bs))
    ensures DecodeBuckets(Encode(observations, zero, bs).buckets) == bs
  {
    var idx := SortedIndices(bs.Keys);
    EncodedAscends(bs, idx);
    DecodeWhole(bs, idx);
  }

  function Indices(r: seq<NeedBucket>): (own: seq<int>)
    ensures |own| == |r| && forall k | 0 <= k < |r| :: own[k] == r[k].index
  {
    seq(|r|, k requires 0 <= k < |r| => r[k].index)
  }

  lemma SortedIsStored(r: seq<NeedBucket>)
    requires AscendingWeights(r)
    ensures SortedIndices(DecodeBuckets(r).Keys) == Indices(r)
  {
    var bs := DecodeBuckets(r);
    var idx := SortedIndices(bs.Keys);
    var own := Indices(r);
    forall x ensures x in idx <==> x in own {
      if x in own {
        var k :| 0 <= k < |own| && own[k] == x;
        DecodeAt(r, k);
      }
      if x in idx {
        var k := DecodedFrom(r, x);
        assert own[k] == x;
      }
    }
    AscendingUnique(idx, own);
  }

  /** Whatever the decoder accepts is what the encoder writes for the model it decodes
      to, so the decoder accepts exactly the encodings of consistent models. */
  lemma EncodeOfDecode(st: NeedState)
    requires Accepted(st)
    ensures Consistent(st.observations, st.zero, DecodeBuckets(st.buckets))
    ensures Encode(st.observations, st.zero, DecodeBuckets(st.buckets)) == st
  {
    SortedIsStored(st.buckets);
    var written := EncodeBuckets(DecodeBuckets(st.buckets), Indices(st.buckets));
    forall k | 0 <= k < |written| ensures written[k] == st.buckets[k] { DecodeAt(st.buckets, k); }
    assert written == st.buckets;
    DecodedWeights(st.buckets);
  }

  lemma DecodedWeights(r: seq<NeedBucket>)
    requires AscendingWeights(r)
    ensures forall i | i in DecodeBuckets(r) :: DecodeBuckets(r)[i] > 0.0
    ensures DecodeBuckets(r) == map[] <==> r == []
  {
    forall i | i in DecodeBuckets(r) ensures DecodeBuckets(r)[i] > 0.0 {
      var k := DecodedFrom(r, i);
      DecodeAt(r, k);
    }
    if r != [] { DecodeAt(r, 0); }
  }

  // ----- folding a file in -----

  /** The file's ratio has a bucket, weighing at least floor. */
  ghost predicate Held(bs: Buckets, ratio: real, floor: real) {
    exists i :: i in bs && InBucket(i, ratio) && bs[i] >= floor
  }

  /** Every file folded in that needed anything has a bucket, and the bucket weighs
      at least one halving a file since: too much to be dropped until the number of
      files passes the float exponent's range. */
  ghost predicate Remembers(bs: Buckets, seen: seq<File>, exponent: nat) {
    && (forall k | 0 <= k < |seen| :: seen[k].sourceBytes > 0 && seen[k].needBytes >= 0)
    && (|seen| <= exponent ==>
          forall k | 0 <= k < |seen| :: seen[k].needBytes > 0 ==> Held(bs, Ratio(seen[k]), Pow(0.5, |seen|)))
  }

  lemma HeldAfterDecay(bs: Buckets, decay: real, ratio: real, n: nat, exponent: nat)
    requires 0.5 <= decay < 1.0 && n < exponent && Held(bs, ratio, Pow(0.5, n))
    ensures Held(Decayed(bs, decay, exponent), ratio, 0.5 * Pow(0.5, n))
  {
    var i :| i in bs && InBucket(i, ratio) && bs[i] >= Pow(0.5, n);
    KeptAfterDecay(bs, i, decay, n, exponent);
  }

  lemma KeptAfterDecay(bs: Buckets, i: int, decay: real, n: nat, exponent: nat)
    requires 0.5 <= decay < 1.0 && n < exponent && i in bs && bs[i] >= Pow(0.5, n)
    ensures i in Decayed(bs, decay, exponent) && Decayed(bs, decay, exponent)[i] >= 0.5 * Pow(0.5, n)
  {
    NotDropped(bs[i], decay, n, exponent);
  }

  lemma NotDropped(w: real, decay: real, n: nat, exponent: nat)
    requires 0.5 <= decay < 1.0 && n < exponent && w >= Pow(0.5, n)
    ensures DecayedWeight(w, decay, exponent) >= 0.5 * Pow(0.5, n) > 0.0
  {
    PowShrinks(0.5, n + 1, exponent);
    PowBounds(0.5, n);
    AtLeastHalved(w, decay, Pow(0.5, n));
  }

  lemma AtLeastHalved(w: real, decay: real, floor: real)
    requires w >= floor > 0.0 && decay >= 0.5
    ensures w * decay >= 0.5 * floor
  {
    Times(decay, 0.5, w);
  }

  lemma HeldAfterBump(bs: Buckets, i: int, ratio: real, floor: real)
    requires Held(bs, ratio, floor)
    ensures Held(Bumped(bs, i), ratio, floor)
  {
    var j :| j in bs && InBucket(j, ratio) && bs[j] >= floor;
    assert j in Bumped(bs, i);
  }

  lemma RemembersDecayed(bs: Buckets, seen: seq<File>, decay: real, k: nat, exponent: nat)
    requires Remembers(bs, seen, exponent) && 0.5 <= decay < 1.0 && |seen| < exponent
    requires k < |seen| && seen[k].needBytes > 0
    ensures Held(Decayed(bs, decay, exponent), Ratio(seen[k]), Pow(0.5, |seen| + 1))
  {
    HeldAfterDecay(bs, decay, Ratio(seen[k]), |seen|, exponent);
  }

  /** Folding in a file that needed nothing forgets none of the earlier ones. */
  lemma RemembersZero(bs: Buckets, seen: seq<File>, decay: real, f: File, exponent: nat)
    requires Remembers(bs, seen, exponent) && 0.5 <= decay < 1.0 && f.sourceBytes > 0 && f.needBytes == 0
    ensures Remembers(Decayed(bs, decay, exponent), seen + [f], exponent)
  {
    var all := seen + [f];
    if |all| <= exponent {
      forall k | 0 <= k < |all| && all[k].needBytes > 0
        ensures Held(Decayed(bs, decay, exponent), Ratio(all[k]), Pow(0.5, |all|))
      {
        RemembersDecayed(bs, seen, decay, k, exponent);
      }
    }
  }

  /** Nor does folding in one that has a bucket, and that bucket is kept too. */
  lemma RemembersRatio(bs: Buckets, seen: seq<File>, decay: real, f: File, i: int, exponent: nat)
    requires Remembers(bs, seen, exponent) && 0.5 <= decay < 1.0 && f.sourceBytes > 0 && f.needBytes > 0
    requires InBucket(i, Ratio(f)) && forall j | j in bs :: bs[j] > 0.0
    ensures Remembers(Bumped(Decayed(bs, decay, exponent), i), seen + [f], exponent)
  {
    var all := seen + [f];
    var after := Bumped(Decayed(bs, decay, exponent), i);
    if |all| <= exponent {
      PowBounds(0.5, |all|);
      assert i in after && after[i] >= 1.0;
      assert Held(after, Ratio(f), Pow(0.5, |all|));
      forall k | 0 <= k < |all| && all[k].needBytes > 0
        ensures Held(after, Ratio(all[k]), Pow(0.5, |all|))
      {
        if k < |seen| {
          RemembersDecayed(bs, seen, decay, k, exponent);
          HeldAfterBump(Decayed(bs, decay, exponent), i, Ratio(seen[k]), Pow(0.5, |all|));
        }
      }
    }
  }

  /** Every bucket but those left has been decayed. */
  ghost predicate PartDecayed(before: Buckets, decay: real, exponent: nat, left: set<int>, bs: Buckets) {
    && left <= bs.Keys <= before.Keys
    && forall i | i in before ::
         if i in left then bs[i] == before[i]
         else if DecayedWeight(before[i], decay, exponent) > 0.0
         then i in bs && bs[i] == DecayedWeight(before[i], decay, exponent)
         else i !in bs
  }

  function DecayOne(bs: Buckets, i: int, decay: real, exponent: nat): Buckets
    requires i in bs
  {
    var w := DecayedWeight(bs[i], decay, exponent);
    if w > 0.0 then bs[i := w] else bs - {i}
  }

  lemma DecayOneKeeps(before: Buckets, decay: real, exponent: nat, left: set<int>, bs: Buckets, i: int)
    requires PartDecayed(before, decay, exponent, left, bs) && i in left
    ensures PartDecayed(before, decay, exponent, left - {i}, DecayOne(bs, i, decay, exponent))
  {
  }

  lemma AllDecayed(before: Buckets, decay: real, exponent: nat, bs: Buckets)
    requires PartDecayed(before, decay, exponent, {}, bs)
    ensures bs == Decayed(before, decay, exponent)
  {
    var whole := Decayed(before, decay, exponent);
    assert forall i | i in whole :: i in bs && bs[i] == whole[i];
    assert forall i | i in bs :: i in before && i in whole;
  }

  /** What a histogram always satisfies. */
  ghost predicate Sound(observations: int, zero: real, bs: Buckets, seen: seq<File>, exponent: nat) {
    Consistent(observations, zero, bs) && |seen| <= observations && Remembers(bs, seen, exponent)
  }

  lemma DecayedWeights(zero: real, bs: Buckets, decay: real, exponent: nat)
    requires zero >= 0.0
    ensures DecayedWeight(zero, decay, exponent) >= 0.0
    ensures forall i | i in Decayed(bs, decay, exponent) :: Decayed(bs, decay, exponent)[i] > 0.0
  {
    PowBounds(0.5, exponent);
  }

  lemma SoundAfterZero(observations: int, zero: real, bs: Buckets, seen: seq<File>, exponent: nat, decay: real, f: File)
    requires Sound(observations, zero, bs, seen, exponent)
    requires 0.5 <= decay < 1.0 && f.sourceBytes > 0 && f.needBytes == 0
    ensures Sound(observations + 1, DecayedWeight(zero, decay, exponent) + 1.0, Decayed(bs, decay, exponent),
                  seen + [f], exponent)
  {
    DecayedWeights(zero, bs, decay, exponent);
    RemembersZero(bs, seen, decay, f, exponent);
  }

  lemma SoundAfterRatio(observations: int, zero: real, bs: Buckets, seen: seq<File>, exponent: nat,
                        decay: real, f: File, i: int)
    requires Sound(observations, zero, bs, seen, exponent)
    requires 0.5 <= decay < 1.0 && f.sourceBytes > 0 && f.needBytes > 0 && InBucket(i, Ratio(f))
    ensures Sound(observations + 1, DecayedWeight(zero, decay, exponent), Bumped(Decayed(bs, decay, exponent), i),
                  seen + [f], exponent)
  {
    DecayedWeights(zero, bs, decay, exponent);
    RemembersRatio(bs, seen, decay, f, i, exponent);
    assert i in Bumped(Decayed(bs, decay, exponent), i);
  }

  lemma WeighsZero(start: (real, Buckets), log: seq<Noted>, zero: real, bs: Buckets, exponent: nat, e: Noted)
    requires exponent >= 1 && Sized(log) && Weighs(start.0, start.1, log, zero, bs, exponent)
    requires e.file.sourceBytes > 0 && e.file.needBytes == 0 && 0.0 < e.decay < 1.0
    requires forall i | i in bs :: bs[i] > 0.0
    ensures Sized(log + [e])
    ensures Weighs(start.0, start.1, log + [e],
                   DecayedWeight(zero, e.decay, exponent) + 1.0, Decayed(bs, e.decay, exponent), exponent)
  {
    FoldZeroIn(zero, bs, e.decay, exponent);
    WeighsMore(start.0, start.1, log, zero, bs, exponent, e, None,
               DecayedWeight(zero, e.decay, exponent) + 1.0, Decayed(bs, e.decay, exponent));
  }

  lemma WeighsRatio(start: (real, Buckets), log: seq<Noted>, zero: real, bs: Buckets, exponent: nat, e: Noted, i: int)
    requires exponent >= 1 && Sized(log) && Weighs(start.0, start.1, log, zero, bs, exponent)
    requires e.file.sourceBytes > 0 && e.file.needBytes > 0 && InBucket(i, Ratio(e.file)) && 0.0 < e.decay < 1.0
    requires forall i | i in bs :: bs[i] > 0.0
    ensures Sized(log + [e])
    ensures Weighs(start.0, start.1, log + [e],
                   DecayedWeight(zero, e.decay, exponent), Bumped(Decayed(bs, e.decay, exponent), i), exponent)
  {
    FoldRatioIn(zero, bs, e.decay, exponent, i);
    WeighsMore(start.0, start.1, log, zero, bs, exponent, e, Some(i),
               DecayedWeight(zero, e.decay, exponent), Bumped(Decayed(bs, e.decay, exponent), i));
  }

  lemma SoundDecoded(st: NeedState, exponent: nat)
    requires Accepted(st)
    ensures Sound(st.observations, st.zero, DecodeBuckets(st.buckets), [], exponent)
  {
    EncodeOfDecode(st);
  }

  /** What the histogram reserves, as a ratio. */
  ghost predicate IsReservedRatio(observations: int, zero: real, bs: Buckets, ratio: real) {
    if observations < PERCENTILE_OBSERVATIONS then IsSampleMaximum(bs, ratio) else IsPercentile(zero, bs, ratio)
  }

  /** The sample maximum is above the ratio of every file that has a bucket. */
  lemma MaximumCovers(bs: Buckets, ratio: real, seen: real, floor: real)
    requires IsSampleMaximum(bs, ratio) && Held(bs, seen, floor)
    ensures ratio > seen
  {
    var i :| i in bs && InBucket(i, seen) && bs[i] >= floor;
    var top :| top in bs && (forall i | i in bs :: i <= top) && ratio == Edge(top + 1);
    EdgeMonotone(i + 1, top + 1);
  }

  /** Nor does it overshoot: it is within one bucket's width of every ratio of the highest
      occupied bucket. */
  lemma MaximumIsNear(bs: Buckets, ratio: real)
    requires IsSampleMaximum(bs, ratio)
    ensures bs == map[] ==> ratio == 0.0
    ensures bs != map[] ==> exists top | top in bs :: forall r | InBucket(top, r) :: r < ratio <= r * 1.05
  {
    if bs != map[] {
      var top :| top in bs && (forall i | i in bs :: i <= top) && ratio == Edge(top + 1);
      EdgeStep(top);
      forall r | InBucket(top, r) ensures r < ratio <= r * 1.05 { Times(r, Edge(top), 1.05); }
    }
  }

  /** The weight of the zero bucket and of all the others. */
  ghost function Mass(zero: real, bs: Buckets, idx: seq<int>): real
    requires forall k | 0 <= k < |idx| :: idx[k] in bs
  {
    if idx == [] then zero else Mass(zero, bs, idx[..|idx| - 1]) + bs[idx[|idx| - 1]]
  }

  /** The weight of the zero bucket and of those buckets every ratio of which is below this one. */
  ghost function MassUnder(zero: real, bs: Buckets, idx: seq<int>, ratio: real): real
    requires forall k | 0 <= k < |idx| :: idx[k] in bs
  {
    if idx == [] then zero
    else
      var i := idx[|idx| - 1];
      MassUnder(zero, bs, idx[..|idx| - 1], ratio) + if Edge(i + 1) <= ratio then bs[i] else 0.0
  }

  lemma {:induction false} MassIsCumulative(zero: real, bs: Buckets, idx: seq<int>, ratio: real, n: nat, m: nat)
    requires n <= |idx| && m <= |idx| && forall k | 0 <= k < |idx| :: idx[k] in bs
    requires forall k | 0 <= k < |idx| :: Edge(idx[k] + 1) <= ratio <==> k < n
    ensures Mass(zero, bs, idx[..m]) == Cumulative(zero, bs, idx, m)
    ensures MassUnder(zero, bs, idx[..m], ratio) == Cumulative(zero, bs, idx, if m < n then m else n)
    decreases m
  {
    if m > 0 {
      MassIsCumulative(zero, bs, idx, ratio, n, m - 1);
      assert idx[..m][..m - 1] == idx[..m - 1] && idx[..m][m - 1] == idx[m - 1];
    }
  }

  /** Which buckets are wholly below the upper edge of one of them. */
  lemma EdgesUpTo(idx: seq<int>, i: int, n: nat)
    requires Ascending(idx) && n <= |idx|
    requires forall k | 0 <= k < |idx| :: idx[k] < i <==> k < n
    ensures forall k | 0 <= k < |idx| :: Edge(idx[k] + 1) <= Edge(i) <==> k < n
  {
    forall k | 0 <= k < |idx| ensures Edge(idx[k] + 1) <= Edge(i) <==> k < n {
      if k < n {
        EdgeMonotone(idx[k] + 1, i);
      } else {
        EdgeMonotone(i, idx[k]);
        EdgeStep(idx[k]);
      }
    }
  }

  lemma MassUpTo(zero: real, bs: Buckets, idx: seq<int>, i: int, n: nat)
    requires Ascending(idx) && n <= |idx| && forall k | 0 <= k < |idx| :: idx[k] in bs
    requires forall k | 0 <= k < |idx| :: idx[k] < i <==> k < n
    ensures Mass(zero, bs, idx) == Cumulative(zero, bs, idx, |idx|)
    ensures MassUnder(zero, bs, idx, Edge(i)) == Cumulative(zero, bs, idx, n)
  {
    EdgesUpTo(idx, i, n);
    MassIsCumulative(zero, bs, idx, Edge(i), n, |idx|);
    assert idx[..|idx|] == idx;
  }

  lemma {:induction false} NothingUnder(zero: real, bs: Buckets, idx: seq<int>)
    requires forall k | 0 <= k < |idx| :: idx[k] in bs
    ensures MassUnder(zero, bs, idx, 0.0) == zero && Mass(zero, bs, idx) == Cumulative(zero, bs, idx, |idx|)
  {
    forall k | 0 <= k < |idx| ensures !(Edge(idx[k] + 1) <= 0.0) { assert Edge(idx[k] + 1) > 0.0; }
    MassIsCumulative(zero, bs, idx, 0.0, 0, |idx|);
    assert idx[..|idx|] == idx;
  }

  /** The percentile has at least 99% of the weight below it, and is the lowest upper edge
      that has: no more than the files' own ratios ask for. */
  lemma PercentileCovers(zero: real, bs: Buckets, ratio: real)
    requires IsPercentile(zero, bs, ratio)
    ensures var idx := SortedIndices(bs.Keys);
      && MassUnder(zero, bs, idx, ratio) >= 0.99 * Mass(zero, bs, idx)
      && (ratio != 0.0 ==> exists i | i in bs ::
            ratio == Edge(i + 1) && MassUnder(zero, bs, idx, Edge(i)) < 0.99 * Mass(zero, bs, idx))
  {
    var idx := SortedIndices(bs.Keys);
    var goal := RESERVED_QUANTILE * Cumulative(zero, bs, idx, |idx|);
    if zero >= goal {
      NothingUnder(zero, bs, idx);
    } else {
      var n :| 0 < n <= |idx| && ratio == Edge(idx[n - 1] + 1) && Cumulative(zero, bs, idx, n) >= goal
        && forall m | 0 <= m < n :: Cumulative(zero, bs, idx, m) < goal;
      var total := Mass(zero, bs, idx);
      CoversFrom(zero, bs, idx, n, goal, total);
      assert exists i | i in bs :: ratio == Edge(i + 1) && MassUnder(zero, bs, idx, Edge(i)) < goal by {
        assert idx[n - 1] in bs;
      }
    }
  }

  lemma CoversFrom(zero: real, bs: Buckets, idx: seq<int>, n: nat, goal: real, total: real)
    requires Ascending(idx) && 0 < n <= |idx| && forall k | 0 <= k < |idx| :: idx[k] in bs
    requires total == Mass(zero, bs, idx)
    requires Cumulative(zero, bs, idx, n - 1) < goal <= Cumulative(zero, bs, idx, n)
    ensures MassUnder(zero, bs, idx, Edge(idx[n - 1] + 1)) >= goal > MassUnder(zero, bs, idx, Edge(idx[n - 1]))
    ensures total == Cumulative(zero, bs, idx, |idx|)
  {
    MassUpTo(zero, bs, idx, idx[n - 1] + 1, n);
    MassUpTo(zero, bs, idx, idx[n - 1], n - 1);
  }

  /** A reservation made at a ratio at least the file's covers a file of the new size
      that needs as much a byte, up to saturation. */
  lemma ReserveScales(ratio: real, f: File, sourceBytes: int)
    requires f.sourceBytes > 0 && sourceBytes > 0 && ratio >= Ratio(f)
    ensures Reserve(ratio, sourceBytes) == MAX
         || Reserve(ratio, sourceBytes) * f.sourceBytes >= f.needBytes * sourceBytes
  {
    var need := Reserve(ratio, sourceBytes);
    if need < MAX {
      assert need as real >= ratio * sourceBytes as real;
      Times(ratio, Ratio(f), sourceBytes as real);
      Times(need as real, Ratio(f) * sourceBytes as real, f.sourceBytes as real);
      assert Ratio(f) * f.sourceBytes as real == f.needBytes as real;
      Reassociate(Ratio(f), sourceBytes as real, f.sourceBytes as real);
      assert (need * f.sourceBytes) as real == need as real * f.sourceBytes as real;
      assert (f.needBytes * sourceBytes) as real == f.needBytes as real * sourceBytes as real;
    }
  }

  lemma Reassociate(a: real, b: real, c: real)
    ensures a * b * c == (a * c) * b
  {
  }

  class Histogram {
    const exponent: nat
    var observations: int
    var zero: real
    var buckets: Buckets
    /** Every file folded in since the histogram was made, through any storing and
        loading that is known of. */
    ghost var seen: seq<File>
    /** The weights at the last load, or none, and every file folded in since. */
    ghost var start: (real, Buckets)
    ghost var log: seq<Noted>

    ghost predicate Valid()
      reads this
    {
      && exponent >= PERCENTILE_OBSERVATIONS
      && Sound(observations, zero, buckets, seen, exponent)
      && Sized(log) && Weighs(start.0, start.1, log, zero, buckets, exponent)
    }

    constructor ()
      ensures Valid() && exponent == SMALLEST_EXPONENT
      ensures observations == 0 && zero == 0.0 && buckets == map[] && seen == []
      ensures start == (0.0, map[]) && log == []
    {
      exponent := SMALLEST_EXPONENT;
      observations, zero, buckets, seen := 0, 0.0, map[], [];
      start, log := (0.0, map[]), [];
      WeighsAtFirst(0.0, map[], SMALLEST_EXPONENT);
    }

    /** A bucket's weight is the sum of its files' shares, each one when the file was folded
        in and multiplied by every decay since, and of what it held at the last load,
        decayed likewise; to within two of the smallest weights a float can hold. */
    lemma WeightIsShares(b: Option<int>)
      requires Valid()
      ensures var due := Due(Stored(start.0, start.1, b), log, b);
        0.0 <= due - Stored(zero, buckets, b) <= 2.0 * Pow(0.5, exponent)
    {
      var w, due := Stored(zero, buckets, b), Due(Stored(start.0, start.1, b), log, b);
      assert Near(w, due, Unit(exponent));
      PowBounds(0.5, exponent);
      NoLarger(Unit(exponent), Part(w), 1.0);
      Times1(Unit(exponent), 1.0);
    }

    /** Multiplies every ratio bucket's weight by the factor, dropping those that vanish. */
    method Decay(decay: real)
      modifies this`buckets
      ensures buckets == Decayed(old(buckets), decay, exponent)
    {
      var left := buckets.Keys;
      while left != {}
        invariant PartDecayed(old(buckets), decay, exponent, left, buckets)
        decreases |left|
      {
        assert (forall k :: k !in left) ==> left == {};
        var i :| i in left;
        DecayOneKeeps(old(buckets), decay, exponent, left, buckets, i);
        buckets := DecayOne(buckets, i, decay, exponent);
        left := left - {i};
      }
      AllDecayed(old(buckets), decay, exponent, buckets);
    }

    /** Folds in a file that needed nothing. */
    method FoldZero(decay: real, ghost file: File)
      requires Valid() && 0.5 <= decay < 1.0 && file.sourceBytes > 0 && file.needBytes == 0
      modifies this
      ensures Valid()
      ensures observations == old(observations) + 1 && seen == old(seen) + [file]
      ensures start == old(start) && log == old(log) + [Noted(file, decay)]
      ensures zero == DecayedWeight(old(zero), decay, exponent) + 1.0
      ensures buckets == Decayed(old(buckets), decay, exponent)
    {
      SoundAfterZero(observations, zero, buckets, seen, exponent, decay, file);
      WeighsZero(start, log, zero, buckets, exponent, Noted(file, decay));
      zero := DecayedWeight(zero, decay, exponent);
      Decay(decay);
      observations, zero, seen := observations + 1, zero + 1.0, seen + [file];
      log := log + [Noted(file, decay)];
    }

    /** Folds in a file whose need per byte falls in bucket i. */
    method FoldRatio(decay: real, i: int, ghost file: File)
      requires Valid() && 0.5 <= decay < 1.0 && file.sourceBytes > 0 && file.needBytes > 0
      requires InBucket(i, Ratio(file))
      modifies this
      ensures Valid()
      ensures observations == old(observations) + 1 && seen == old(seen) + [file]
      ensures start == old(start) && log == old(log) + [Noted(file, decay)]
      ensures zero == DecayedWeight(old(zero), decay, exponent)
      ensures buckets == Bumped(Decayed(old(buckets), decay, exponent), i)
    {
      SoundAfterRatio(observations, zero, buckets, seen, exponent, decay, file, i);
      WeighsRatio(start, log, zero, buckets, exponent, Noted(file, decay), i);
      zero := DecayedWeight(zero, decay, exponent);
      Decay(decay);
      observations, seen := observations + 1, seen + [file];
      log := log + [Noted(file, decay)];
      buckets := Bumped(buckets, i);
    }

    /** Folds one file's need in. guess stands for the bucket the rounded logarithm proposes. */
    method Observe(needBytes: int, sourceBytes: int, ghost halfLifeFiles: int, decay: real, guess: int)
      returns (ghost bucket: int)
      requires Valid() && HalvesOver(decay, halfLifeFiles)
      modifies this
      ensures Valid()
      ensures sourceBytes <= 0 || needBytes < 0 ==>
        && observations == old(observations) && zero == old(zero)
        && buckets == old(buckets) && seen == old(seen) && log == old(log)
      ensures start == old(start)
      ensures sourceBytes > 0 && needBytes >= 0 ==>
        && observations == old(observations) + 1 && seen == old(seen) + [File(needBytes, sourceBytes)]
        && log == old(log) + [Noted(File(needBytes, sourceBytes), decay)]
      ensures sourceBytes > 0 && needBytes == 0 ==>
        zero == DecayedWeight(old(zero), decay, exponent) + 1.0 && buckets == Decayed(old(buckets), decay, exponent)
      ensures sourceBytes > 0 && needBytes > 0 ==>
        && zero == DecayedWeight(old(zero), decay, exponent)
        && InBucket(bucket, Ratio(File(needBytes, sourceBytes)))
        && buckets == Bumped(Decayed(old(buckets), decay, exponent), bucket)
    {
      bucket := guess;
      if sourceBytes > 0 && needBytes >= 0 {
        DecayAtLeastHalf(decay, halfLifeFiles);
        if needBytes == 0 {
          FoldZero(decay, File(needBytes, sourceBytes));
        } else {
          var i := BucketOf(guess, needBytes as real / sourceBytes as real);
          FoldRatio(decay, i, File(needBytes, sourceBytes));
          bucket := i;
        }
      }
    }

    /** The ratio the reservation is made at. */
    method ReservedRatio() returns (ratio: real)
      requires Valid()
      ensures IsReservedRatio(observations, zero, buckets, ratio)
    {
      var idx := SortedIndices(buckets.Keys);
      if observations < PERCENTILE_OBSERVATIONS {
        ratio := SampleMaximum(buckets, idx);
      } else {
        ratio := Percentile(zero, buckets, idx);
      }
    }

    /** The need to reserve; false when nothing was observed. */
    method Predict(sourceBytes: int) returns (need: int, ok: bool)
      requires Valid()
      ensures ok <==> observations > 0
      ensures !ok || sourceBytes <= 0 ==> need == 0
      ensures ok && sourceBytes > 0 ==>
        exists ratio :: IsReservedRatio(observations, zero, buckets, ratio) && RoundedUp(need, ratio, sourceBytes)
      ensures ok && sourceBytes > 0 && observations < PERCENTILE_OBSERVATIONS ==>
        forall k | 0 <= k < |seen| ::
          need == MAX || need * seen[k].sourceBytes >= seen[k].needBytes * sourceBytes
    {
      if observations == 0 { return 0, false; }
      if sourceBytes <= 0 { return 0, true; }
      var ratio := ReservedRatio();
      need, ok := Reserve(ratio, sourceBytes), true;
      ReserveRoundsUp(ratio, sourceBytes);
      if observations < PERCENTILE_OBSERVATIONS {
        forall k | 0 <= k < |seen|
          ensures need == MAX || need * seen[k].sourceBytes >= seen[k].needBytes * sourceBytes
        {
          if seen[k].needBytes > 0 { MaximumCovers(buckets, ratio, Ratio(seen[k]), Pow(0.5, |seen|)); }
          if ratio >= Ratio(seen[k]) { ReserveScales(ratio, seen[k], sourceBytes); }
        }
      }
    }

    method MarshalBinary() returns (st: NeedState)
      requires Valid()
      ensures st == Encode(observations, zero, buckets)
      ensures Accepted(st) && DecodeBuckets(st.buckets) == buckets
    {
      var idx := SortedIndices(buckets.Keys);
      var written := WriteBuckets(buckets, idx);
      st := NeedState(observations, zero, written);
      DecodeOfEncode(observations, zero, buckets);
    }

    /** Replaces the model by the encoded one, or refuses it and changes nothing. past is
        what the encoded model is known to have folded in: nothing at the least. */
    method UnmarshalBinary(st: NeedState, ghost past: seq<File>) returns (ok: bool)
      requires Valid()
      requires Accepted(st) && past != [] ==> Sound(st.observations, st.zero, DecodeBuckets(st.buckets), past, exponent)
      modifies this
      ensures Valid()
      ensures ok <==> Accepted(st)
      ensures ok ==> Encode(observations, zero, buckets) == st && seen == past
      ensures ok ==> start == (zero, buckets) && log == []
      ensures !ok ==>
        && observations == old(observations) && zero == old(zero)
        && buckets == old(buckets) && seen == old(seen) && start == old(start) && log == old(log)
    {
      var decoded;
      ok, decoded := Decode(st);
      if !ok { return; }
      SoundDecoded(st, exponent);
      TakeOver(st.observations, st.zero, decoded, past);
    }

    /** Becomes the model of these figures, which is known to have folded in past. */
    method TakeOver(observations: int, zero: real, buckets: Buckets, ghost past: seq<File>)
      requires exponent >= PERCENTILE_OBSERVATIONS && Sound(observations, zero, buckets, past, exponent)
      modifies this
      ensures Valid() && this.observations == observations && this.zero == zero && this.buckets == buckets
      ensures seen == past && start == (zero, buckets) && log == []
    {
      WeighsAtFirst(zero, buckets, exponent);
      this.observations, this.zero, this.buckets, seen := observations, zero, buckets, past;
      start, log := (zero, buckets), [];
    }
  }

  /** The model an encoding stands for, or the decoder's refusal. */
  method Decode(st: NeedState) returns (ok: bool, decoded: Buckets)
    ensures ok <==> Accepted(st)
    ensures ok ==> decoded == DecodeBuckets(st.buckets) && Encode(st.observations, st.zero, decoded) == st
  {
    ok, decoded := false, map[];
    if st.observations < 0 || st.zero < 0.0 { return; }
    var ordered;
    ordered, decoded := ReadBuckets(st.buckets);
    if !ordered { return; }
    assert decoded == map[] <==> st.buckets == [] by { DecodedWeights(st.buckets); }
    if (st.observations == 0) != (st.zero == 0.0 && decoded == map[]) { return; }
    EncodeOfDecode(st);
    ok := true;
  }

  /** A model stored and loaded into a new histogram is the same model, and what it has
      folded in is still covered. */
  method Reload(h: Histogram) returns (again: Histogram)
    requires h.Valid() && h.exponent == SMALLEST_EXPONENT
    ensures fresh(again) && again.Valid() && again.seen == h.seen
    ensures again.observations == h.observations && again.zero == h.zero && again.buckets == h.buckets
  {
    var st := h.MarshalBinary();
    again := new Histogram();
    var ok := again.UnmarshalBinary(st, h.seen);
    SameModel(h.observations, h.zero, h.buckets, again.observations, again.zero, again.buckets);
  }

  lemma SameModel(o1: int, z1: real, b1: Buckets, o2: int, z2: real, b2: Buckets)
    requires Consistent(o1, z1, b1) && Consistent(o2, z2, b2) && Encode(o1, z1, b1) == Encode(o2, z2, b2)
    ensures o1 == o2 && z1 == z2 && b1 == b2
  {
    DecodeOfEncode(o1, z1, b1);
    DecodeOfEncode(o2, z2, b2);
  }

  method WriteBuckets(bs: Buckets, idx: seq<int>) returns (written: seq<NeedBucket>)
    requires forall k | 0 <= k < |idx| :: idx[k] in bs
    ensures written == EncodeBuckets(bs, idx)
  {
    written := [];
    for k := 0 to |idx|
      invariant written == EncodeBuckets(bs, idx)[..k]
    {
      written := written + [NeedBucket(idx[k], bs[idx[k]])];
    }
  }

  /** Builds the bucket map, stopping at the first weight or index out of order. */
  method ReadBuckets(r: seq<NeedBucket>) returns (ordered: bool, decoded: Buckets)
    ensures ordered <==> AscendingWeights(r)
    ensures ordered ==> decoded == DecodeBuckets(r)
  {
    decoded := map[];
    var k := 0;
    while k < |r|
      invariant 0 <= k <= |r|
      invariant AscendingWeights(r[..k]) && decoded == DecodeBuckets(r[..k])
    {
      var b := r[k];
      if b.weight <= 0.0 || (k > 0 && b.index <= r[k - 1].index) {
        return false, map[];
      }
      Extended(r, k);
      decoded := decoded[b.index := b.weight];
      k := k + 1;
    }
    assert r[..k] == r;
    ordered := true;
  }

  lemma Extended(r: seq<NeedBucket>, k: nat)
    requires k < |r| && AscendingWeights(r[..k]) && r[k].weight > 0.0 && (k > 0 ==> r[k].index > r[k - 1].index)
    ensures AscendingWeights(r[..k + 1])
    ensures DecodeBuckets(r[..k + 1]) == DecodeBuckets(r[..k])[r[k].index := r[k].weight]
  {
    assert r[..k + 1][..k] == r[..k];
    forall i, j | 0 <= i < j < k + 1 ensures r[i].index < r[j].index {
      if j < k { assert r[..k][i].index < r[..k][j].index; }
      if j == k && i < k - 1 { assert r[..k][i].index < r[..k][k - 1].index; }
    }
    forall i | 0 <= i < k + 1 ensures r[i].weight > 0.0 {
      if i < k { assert r[..k][i].weight > 0.0; }
    }
  }

  lemma LastIsTop(bs: Buckets, idx: seq<int>)
    requires idx == SortedIndices(bs.Keys)
    ensures idx == [] ==> bs == map[]
    ensures idx != [] ==> idx[|idx| - 1] in bs && forall i | i in bs :: i <= idx[|idx| - 1]
  {
    forall i | i in bs ensures idx != [] && i <= idx[|idx| - 1] { assert i in bs.Keys && i in idx; }
  }

  method SampleMaximum(bs: Buckets, idx: seq<int>) returns (ratio: real)
    requires idx == SortedIndices(bs.Keys)
    ensures IsSampleMaximum(bs, ratio)
  {
    LastIsTop(bs, idx);
    if |idx| > 0 {
      ratio := Edge(idx[|idx| - 1] + 1);
    } else {
      ratio := 0.0;
    }
  }

  method TotalWeight(zero: real, bs: Buckets, idx: seq<int>) returns (total: real)
    requires zero >= 0.0 && forall k | 0 <= k < |idx| :: idx[k] in bs && bs[idx[k]] > 0.0
    ensures total == Cumulative(zero, bs, idx, |idx|) >= 0.0
  {
    total := zero;
    for k := 0 to |idx|
      invariant total == Cumulative(zero, bs, idx, k) >= 0.0
    {
      total := total + bs[idx[k]];
    }
  }

  /** Walks the buckets from the lowest until the weight behind reaches the goal. */
  method FirstReaching(zero: real, bs: Buckets, idx: seq<int>, goal: real) returns (n: nat)
    requires forall k | 0 <= k < |idx| :: idx[k] in bs
    requires zero < goal <= Cumulative(zero, bs, idx, |idx|)
    ensures 0 < n <= |idx| && Cumulative(zero, bs, idx, n) >= goal
    ensures forall m | 0 <= m < n :: Cumulative(zero, bs, idx, m) < goal
  {
    var cum := zero;
    n := 0;
    while cum < goal
      invariant n <= |idx| && cum == Cumulative(zero, bs, idx, n)
      invariant forall m | 0 <= m < n :: Cumulative(zero, bs, idx, m) < goal
      decreases |idx| - n
    {
      cum := cum + bs[idx[n]];
      n := n + 1;
    }
  }

  /** The percentile; the walk always finds its bucket, because the whole weight is
      at least 99% of itself. */
  method Percentile(zero: real, bs: Buckets, idx: seq<int>) returns (ratio: real)
    requires zero >= 0.0 && idx == SortedIndices(bs.Keys) && forall i | i in bs :: bs[i] > 0.0
    ensures IsPercentile(zero, bs, ratio)
  {
    var total := TotalWeight(zero, bs, idx);
    ratio := 0.0;
    if zero < RESERVED_QUANTILE * total {
      var n := FirstReaching(zero, bs, idx, RESERVED_QUANTILE * total);
      ratio := Edge(idx[n - 1] + 1);
    }
  }
}
