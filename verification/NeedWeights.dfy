/** What the need histogram's weights are: each file's share of its bucket is one when it is
    folded in and is multiplied by the decay of every file after it. The stored weight is
    their sum, but for what is lost when a weight becomes too small for a float. */
module NeedWeights {
  import opened Options
  import opened Ratios

  datatype File = File(needBytes: int, sourceBytes: int)

  function Ratio(f: File): real
    requires f.sourceBytes > 0
  {
    f.needBytes as real / f.sourceBytes as real
  }

  type Buckets = map<int, real>

  // ----- what is stored -----

  /** A weight as a float holds it once it has decayed, 2 to the minus exponent being
      the smallest it can hold. */
  function DecayedWeight(w: real, decay: real, exponent: nat): real {
    if w * decay < Pow(0.5, exponent) then 0.0 else w * decay
  }

  /** Every weight after one decay: a weight that reaches zero leaves the map. */
  function Decayed(bs: Buckets, decay: real, exponent: nat): Buckets {
    map i | i in bs && DecayedWeight(bs[i], decay, exponent) > 0.0 :: DecayedWeight(bs[i], decay, exponent)
  }

  function Bumped(bs: Buckets, i: int): Buckets {
    bs[i := (if i in bs then bs[i] else 0.0) + 1.0]
  }

  /** The weight of a ratio bucket, or of the zero bucket. */
  function Stored(zero: real, bs: Buckets, b: Option<int>): real {
    match b
    case None => zero
    case Some(i) => if i in bs then bs[i] else 0.0
  }

  // ----- what it should be -----

  /** A file folded in, and the factor that every weight was multiplied by as it was. */
  datatype Noted = Noted(file: File, decay: real)

  /** The file is of the bucket: of the zero bucket when it needed nothing, and otherwise of
      the ratio bucket its need per byte is in. */
  predicate FallsIn(f: File, b: Option<int>)
    requires f.sourceBytes > 0
  {
    match b
    case None => f.needBytes == 0
    case Some(i) => f.needBytes > 0 && InBucket(i, Ratio(f))
  }

  ghost predicate Sized(log: seq<Noted>) {
    forall k | 0 <= k < |log| :: log[k].file.sourceBytes > 0
  }

  /** One file folded in, as one bucket sees it: whether it is the bucket's own. */
  datatype Mark = Mark(own: bool, decay: real)

  ghost function Marks(log: seq<Noted>, b: Option<int>): (ms: seq<Mark>)
    requires Sized(log)
    ensures |ms| == |log|
  {
    seq(|log|, k requires 0 <= k < |log| => Mark(FallsIn(log[k].file, b), log[k].decay))
  }

  /** What is left of a weight of one after these files. */
  function Fade(ms: seq<Mark>): real {
    if ms == [] then 1.0 else Fade(ms[..|ms| - 1]) * ms[|ms| - 1].decay
  }

  /** The n-th file's share: one in its own bucket, faded by the files behind it. */
  function Share(ms: seq<Mark>, n: nat): real
    requires 0 < n <= |ms|
  {
    if ms[n - 1].own then Fade(ms[n..]) else 0.0
  }

  function Shares(ms: seq<Mark>, n: nat): real
    requires n <= |ms|
  {
    if n == 0 then 0.0 else Shares(ms, n - 1) + Share(ms, n)
  }

  /** The weight that files leave of a start, with what they add. */
  function Weight(start: real, ms: seq<Mark>): real {
    start * Fade(ms) + Shares(ms, |ms|)
  }

  /** A bucket's weight: what it started from, faded, and its files' shares. */
  ghost function Due(start: real, log: seq<Noted>, b: Option<int>): real
    requires Sized(log)
  {
    Weight(start, Marks(log, b))
  }

  lemma FadeMore(ms: seq<Mark>, e: Mark)
    ensures Fade(ms + [e]) == Fade(ms) * e.decay
  {
    assert (ms + [e])[..|ms|] == ms;
  }

  lemma ShareMore(ms: seq<Mark>, e: Mark, n: nat)
    requires 0 < n <= |ms|
    ensures Share(ms + [e], n) == Share(ms, n) * e.decay
  {
    var rest := ms[n..];
    assert (ms + [e])[n..] == rest + [e] && (ms + [e])[n - 1] == ms[n - 1];
    assert Fade(rest + [e]) == Fade(rest) * e.decay by { FadeMore(rest, e); }
  }

  lemma {:induction false} SharesMore(ms: seq<Mark>, e: Mark, n: nat)
    requires n <= |ms|
    ensures Shares(ms + [e], n) == Shares(ms, n) * e.decay
  {
    if n > 0 {
      SharesMore(ms, e, n - 1);
      ShareMore(ms, e, n);
      OneShareMore(ms, ms + [e], n, e.decay);
    }
  }

  lemma OneShareMore(ms: seq<Mark>, all: seq<Mark>, n: nat, d: real)
    requires 0 < n <= |ms| && n <= |all|
    requires Shares(all, n - 1) == Shares(ms, n - 1) * d && Share(all, n) == Share(ms, n) * d
    ensures Shares(all, n) == Shares(ms, n) * d
  {
    Added(Shares(ms, n - 1), Share(ms, n), d, Shares(all, n - 1), Share(all, n), Shares(ms, n), Shares(all, n));
  }

  lemma Added(x: real, y: real, d: real, xd: real, yd: real, s: real, sd: real)
    requires xd == x * d && yd == y * d && s == x + y && sd == xd + yd
    ensures sd == s * d
  {
  }

  lemma Spread(x: real, y: real, d: real)
    ensures (x + y) * d == x * d + y * d
  {
  }

  lemma Regroup(a: real, f: real, d: real)
    ensures a * (f * d) == (a * f) * d
  {
  }

  /** What one more file makes of a weight, from the parts it is made of. */
  lemma Together(a: real, f: real, s: real, d: real, own: real, faded: real, earlier: real, w: real, after: real)
    requires faded == f * d && earlier == s * d && w == a * f + s && after == a * faded + (earlier + own)
    ensures after == w * d + own
  {
    Regroup(a, f, d);
    Spread(a * f, s, d);
  }

  lemma SharesStep(ms: seq<Mark>, n: nat)
    requires 0 < n <= |ms|
    ensures Shares(ms, n) == Shares(ms, n - 1) + Share(ms, n)
  {
  }

  lemma LastShare(all: seq<Mark>)
    requires all != []
    ensures Share(all, |all|) == if all[|all| - 1].own then 1.0 else 0.0
  {
    assert all[|all|..] == [];
  }

  lemma AllShares(ms: seq<Mark>, e: Mark)
    ensures Shares(ms + [e], |ms + [e]|) == Shares(ms + [e], |ms|) + if e.own then 1.0 else 0.0
  {
    var all := ms + [e];
    SharesStep(all, |all|);
    LastShare(all);
  }

  lemma MarksMore(start: real, ms: seq<Mark>, e: Mark)
    ensures Weight(start, ms + [e]) == Weight(start, ms) * e.decay + if e.own then 1.0 else 0.0
  {
    FadeMore(ms, e);
    SharesMore(ms, e, |ms|);
    AllShares(ms, e);
    Together(start, Fade(ms), Shares(ms, |ms|), e.decay, if e.own then 1.0 else 0.0,
             Fade(ms + [e]), Shares(ms + [e], |ms|), Weight(start, ms), Weight(start, ms + [e]));
  }

  /** One more file multiplies the weight by its decay and adds one to its own bucket. */
  lemma DueMore(start: real, log: seq<Noted>, e: Noted, b: Option<int>)
    requires Sized(log) && e.file.sourceBytes > 0
    ensures Sized(log + [e])
    ensures Due(start, log + [e], b) == Due(start, log, b) * e.decay + if FallsIn(e.file, b) then 1.0 else 0.0
  {
    MarksSnoc(log, e, b);
    MarksMore(start, Marks(log, b), Mark(FallsIn(e.file, b), e.decay));
  }

  lemma MarksSnoc(log: seq<Noted>, e: Noted, b: Option<int>)
    requires Sized(log) && e.file.sourceBytes > 0
    ensures Sized(log + [e]) && Marks(log + [e], b) == Marks(log, b) + [Mark(FallsIn(e.file, b), e.decay)]
  {
    var all := log + [e];
    assert forall k | 0 <= k < |log| :: all[k] == log[k];
    assert all[|log|] == e;
  }

  // ----- how far apart they are -----

  /** The stored weight is no more than is due, and less by no more than the two smallest
      weights a float can hold, nor by more than that part of a smaller weight. */
  ghost predicate Near(stored: real, due: real, unit: real) {
    0.0 <= stored <= due && due - stored <= unit * Part(stored)
  }

  function Part(stored: real): real { if 0.0 < stored < 1.0 then stored else 1.0 }

  /** Twice the smallest weight a float can hold. */
  function Unit(exponent: nat): real {
    2.0 * Pow(0.5, exponent)
  }

  lemma Scaled(x: real, y: real, d: real)
    requires x <= y && 0.0 < d
    ensures x * d <= y * d
  {
  }

  lemma LostDecays(lost: real, unit: real, d: real, w: real)
    requires 0.0 <= lost <= unit * w && 0.0 < d <= 1.0 && 0.0 <= w
    ensures 0.0 <= lost * d <= unit * (w * d)
  {
    Scaled(lost, unit * w, d);
    assert unit * w * d == unit * (w * d);
  }

  lemma NoLarger(unit: real, a: real, b: real)
    requires 0.0 <= unit && a <= b
    ensures unit * a <= unit * b
  {
  }

  lemma UnitPart(unit: real, w: real)
    requires 0.0 <= unit <= 1.0 && 0.0 <= w
    ensures unit * w <= w
  {
  }

  lemma NearDecayed(stored: real, due: real, decay: real, exponent: nat)
    requires exponent >= 1 && 0.0 < decay < 1.0 && Near(stored, due, Unit(exponent))
    ensures Near(DecayedWeight(stored, decay, exponent), due * decay, Unit(exponent))
  {
    PowBounds(0.5, exponent);
    NearDropped(stored, due, decay, Pow(0.5, exponent), Unit(exponent), stored * decay, due * decay);
  }

  lemma NearDropped(stored: real, due: real, decay: real, least: real, unit: real, w: real, dueNow: real)
    requires 0.0 < least <= 0.5 && unit == 2.0 * least && 0.0 < decay < 1.0 && Near(stored, due, unit)
    requires w == stored * decay && dueNow == due * decay
    ensures Near(if w < least then 0.0 else w, dueNow, unit)
  {
    var lost := due - stored;
    var share := Part(stored);
    var part, lostNow := share * decay, lost * decay;
    assert 0.0 <= lostNow <= unit * part by { LostDecays(lost, unit, decay, share); }
    assert dueNow - w == lostNow by { Spread(due, -stored, decay); }
    assert 0.0 <= w by { Scaled(0.0, stored, decay); }
    assert part <= 1.0 && (stored > 0.0 ==> part <= w) by { PartDecays(stored, decay, w, part); }
    if w < least {
      LostBounds(stored > 0.0, unit, part, lostNow, w);
      NearGone(stored > 0.0, unit, lostNow, w, dueNow, least);
    } else {
      NearKept(unit, part, lostNow, w, dueNow);
    }
  }

  lemma PartDecays(stored: real, decay: real, w: real, part: real)
    requires 0.0 <= stored && 0.0 < decay < 1.0 && w == stored * decay && part == Part(stored) * decay
    ensures part <= 1.0 && (stored > 0.0 ==> part <= w)
  {
    if 0.0 < stored < 1.0 {
      UnitPart(decay, stored);
    } else {
      Times1(decay, Part(stored));
      assert part == decay;
      if stored >= 1.0 {
        NoLarger(decay, 1.0, stored);
        Times1(decay, 1.0);
      }
    }
  }

  /** What is lost of a weight that is kept shrinks with it. */
  lemma NearKept(unit: real, part: real, lost: real, w: real, due: real)
    requires 0.0 < unit && 0.0 <= lost <= unit * part && part <= 1.0 && part <= w
    requires 0.0 <= w && due - w == lost
    ensures Near(w, due, unit)
  {
    var rest := Part(w);
    assert part <= rest;
    NoLarger(unit, part, rest);
    assert unit * part <= unit * rest;
  }

  lemma LostBounds(some: bool, unit: real, part: real, lost: real, w: real)
    requires 0.0 <= unit <= 1.0 && lost <= unit * part && part <= 1.0 && 0.0 <= w && (some ==> part <= w)
    ensures lost <= unit && (some ==> lost <= w)
  {
    var a, b := unit * part, unit * w;
    assert a <= unit by {
      NoLarger(unit, part, 1.0);
      Times1(unit, 1.0);
    }
    if some {
      assert a <= b by { NoLarger(unit, part, w); }
      assert b <= w by { UnitPart(unit, w); }
      assert lost <= w;
    }
  }

  /** A weight that is dropped takes with it less than one smallest weight, and what had
      been lost of it before was a still smaller part of that. */
  lemma NearGone(some: bool, unit: real, lost: real, w: real, due: real, least: real)
    requires 0.0 < least && unit == least + least && 0.0 <= lost <= unit && 0.0 <= w < least && due - w == lost
    requires if some then lost <= w else w == 0.0
    ensures Near(0.0, due, unit)
  {
    assert 0.0 <= due <= unit;
    Times1(unit, Part(0.0));
  }

  lemma Times1(unit: real, one: real)
    requires one == 1.0
    ensures unit * one == unit
  {
  }

  /** One more file, for the weight as stored and as due. */
  lemma NearMore(stored: real, due: real, unit: real)
    requires 0.0 <= unit && Near(stored, due, unit)
    ensures Near(stored + 1.0, due + 1.0, unit)
  {
    NoLarger(unit, Part(stored), Part(stored + 1.0));
  }

  // ----- one file more -----

  /** Every bucket's weight is near what is due of what it started from and of the files
      folded in since. */
  ghost predicate Weighs(zero0: real, bs0: Buckets, log: seq<Noted>, zero: real, bs: Buckets, exponent: nat)
    requires Sized(log)
  {
    forall b: Option<int> :: Near(Stored(zero, bs, b), Due(Stored(zero0, bs0, b), log, b), Unit(exponent))
  }

  lemma WeighsAtFirst(zero: real, bs: Buckets, exponent: nat)
    requires zero >= 0.0 && forall i | i in bs :: bs[i] > 0.0
    ensures Weighs(zero, bs, [], zero, bs, exponent)
  {
    PowBounds(0.5, exponent);
    forall b: Option<int> ensures Near(Stored(zero, bs, b), Due(Stored(zero, bs, b), [], b), Unit(exponent)) {
      var w := Stored(zero, bs, b);
      assert Marks([], b) == [] && Shares([], 0) == 0.0 && Fade([]) == 1.0;
      Times1(w, 1.0);
      NoLarger(Unit(exponent), 0.0, Part(w));
      assert Unit(exponent) * 0.0 == 0.0;
    }
  }

  /** A file folded into its bucket: every weight decays, and its own gains one. */
  ghost predicate FoldedIn(zero: real, bs: Buckets, decay: real, own: Option<int>, exponent: nat,
                           zeroNow: real, bsNow: Buckets) {
    forall b: Option<int> ::
      Stored(zeroNow, bsNow, b)
      == DecayedWeight(Stored(zero, bs, b), decay, exponent) + if b == own then 1.0 else 0.0
  }

  lemma StoredDecayed(bs: Buckets, decay: real, exponent: nat, i: int)
    requires 0.0 < decay && forall i | i in bs :: bs[i] > 0.0
    ensures Stored(0.0, Decayed(bs, decay, exponent), Some(i))
         == DecayedWeight(Stored(0.0, bs, Some(i)), decay, exponent)
  {
    PowBounds(0.5, exponent);
    assert 0.0 * decay == 0.0;
  }

  lemma FoldZeroIn(zero: real, bs: Buckets, decay: real, exponent: nat)
    requires 0.0 < decay && forall i | i in bs :: bs[i] > 0.0
    ensures FoldedIn(zero, bs, decay, None, exponent,
                     DecayedWeight(zero, decay, exponent) + 1.0, Decayed(bs, decay, exponent))
  {
    forall i: int { StoredDecayed(bs, decay, exponent, i); }
  }

  lemma FoldRatioIn(zero: real, bs: Buckets, decay: real, exponent: nat, own: int)
    requires 0.0 < decay && forall i | i in bs :: bs[i] > 0.0
    ensures FoldedIn(zero, bs, decay, Some(own), exponent,
                     DecayedWeight(zero, decay, exponent), Bumped(Decayed(bs, decay, exponent), own))
  {
    forall i: int { StoredDecayed(bs, decay, exponent, i); }
  }

  lemma WeighsMore(zero0: real, bs0: Buckets, log: seq<Noted>, zero: real, bs: Buckets, exponent: nat,
                   e: Noted, own: Option<int>, zeroNow: real, bsNow: Buckets)
    requires exponent >= 1 && Sized(log) && Weighs(zero0, bs0, log, zero, bs, exponent)
    requires e.file.sourceBytes > 0 && 0.0 < e.decay < 1.0 && FallsIn(e.file, own)
    requires FoldedIn(zero, bs, e.decay, own, exponent, zeroNow, bsNow)
    ensures Sized(log + [e]) && Weighs(zero0, bs0, log + [e], zeroNow, bsNow, exponent)
  {
    assert Sized(log + [e]);
    forall b: Option<int>
      ensures Near(Stored(zeroNow, bsNow, b), Due(Stored(zero0, bs0, b), log + [e], b), Unit(exponent))
    {
      DueNext(Stored(zero0, bs0, b), log, e, b, own);
      NearNext(Stored(zero, bs, b), Due(Stored(zero0, bs0, b), log, b), e.decay, b == own, exponent,
               Stored(zeroNow, bsNow, b), Due(Stored(zero0, bs0, b), log + [e], b));
    }
  }

  lemma DueNext(start: real, log: seq<Noted>, e: Noted, b: Option<int>, own: Option<int>)
    requires Sized(log) && e.file.sourceBytes > 0 && FallsIn(e.file, own)
    ensures Sized(log + [e])
    ensures Due(start, log + [e], b) == Due(start, log, b) * e.decay + if b == own then 1.0 else 0.0
  {
    OneBucket(e.file, b, own);
    DueMore(start, log, e, b);
  }

  lemma NearNext(w: real, due: real, decay: real, own: bool, exponent: nat, now: real, dueNow: real)
    requires exponent >= 1 && 0.0 < decay < 1.0 && Near(w, due, Unit(exponent))
    requires now == DecayedWeight(w, decay, exponent) + if own then 1.0 else 0.0
    requires dueNow == due * decay + if own then 1.0 else 0.0
    ensures Near(now, dueNow, Unit(exponent))
  {
    PowBounds(0.5, exponent);
    NearDecayed(w, due, decay, exponent);
    if own { NearMore(DecayedWeight(w, decay, exponent), due * decay, Unit(exponent)); }
  }

  lemma OneBucket(f: File, a: Option<int>, b: Option<int>)
    requires f.sourceBytes > 0 && FallsIn(f, b)
    ensures FallsIn(f, a) <==> a == b
  {
    if a.Some? && b.Some? && FallsIn(f, a) { BucketUnique(a.value, b.value, Ratio(f)); }
  }

  // ----- the half-life -----

  ghost predicate AllDecay(ms: seq<Mark>, decay: real) {
    forall k | 0 <= k < |ms| :: ms[k].decay == decay
  }

  lemma {:induction false} FadeOver(before: seq<Mark>, ms: seq<Mark>, decay: real)
    requires AllDecay(ms, decay)
    ensures Fade(before + ms) == Fade(before) * Pow(decay, |ms|)
    decreases |ms|
  {
    if ms == [] {
      assert before + ms == before;
    } else {
      var front, last := ms[..|ms| - 1], ms[|ms| - 1];
      assert before + ms == (before + front) + [last];
      FadeMore(before + front, last);
      FadeOver(before, front, decay);
      Regroup(Fade(before), Pow(decay, |front|), decay);
    }
  }

  /** Over any half-life's worth of files what is left of a share halves. */
  lemma SharesHalve(before: seq<Mark>, ms: seq<Mark>, decay: real, halfLifeFiles: int)
    requires HalvesOver(decay, halfLifeFiles) && AllDecay(ms, decay)
    requires |ms| == if halfLifeFiles < 1 then 1 else halfLifeFiles
    ensures Fade(before + ms) == Fade(before) * 0.5
  {
    FadeOver(before, ms, decay);
  }
}
