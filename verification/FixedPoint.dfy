/** The ranking's fixed point: scaled multiplication on int64 with an overflow
    check, and the path contribution built from it. */
module FixedPoint {
  import opened Int64
  import opened Options

  const SCALE: int := 1_000_000

  datatype Result = Ok(value: int) | Overflow

  /** n is x / SCALE rounded to the nearest, ties away from zero. */
  ghost predicate RoundsHalfAway(x: int, n: int) {
    && 2 * Abs(x - n * SCALE) <= SCALE
    && (2 * Abs(x - n * SCALE) == SCALE ==> Abs(n * SCALE) > Abs(x))
  }

  function Abs(x: int): nat { if x >= 0 then x else -x }

  /** Go's stored quotient: MIN / -1 wraps back to MIN. */
  function Quotient(p: int, a: int): int
    requires a != 0
  {
    Wrap(TruncDiv(p, a))
  }

  /** Whether product and rounding fit int64. */
  predicate Representable(x: int) {
    MIN + SCALE / 2 <= x <= MAX - SCALE / 2
  }

  method MulScaled(a: int, b: int) returns (r: Result)
    requires InRange(a) && InRange(b)
    ensures r.Ok? <==> Representable(a * b)
    ensures r.Ok? ==> r.value == Scaled(a * b) && RoundsHalfAway(a * b, r.value) && InRange(r.value)
  {
    var p := Wrap(a * b);
    WrappedProduct(a, b);
    if a != 0 && (Quotient(p, a) != b || (a == -1 && b == MIN)) {
      return Overflow;
    }
    var half := SCALE / 2;
    if p >= 0 && p > MAX - half {
      return Overflow;
    } else if p < 0 && p < MIN + half {
      return Overflow;
    } else if p >= 0 {
      p := p + half;
    } else {
      p := p - half;
    }
    RoundingUnique(a * b, Scaled(a * b));
    r := Ok(TruncDiv(p, SCALE));
  }

  /** The check sees every product that does not fit int64, and no other. */
  lemma WrappedProduct(a: int, b: int)
    requires InRange(a) && InRange(b)
    ensures InRange(a * b) ==> Wrap(a * b) == a * b
    ensures a != 0 ==>
              ((Quotient(Wrap(a * b), a) != b || (a == -1 && b == MIN)) <==> !InRange(a * b))
  {
    if a != 0 {
      var p := Wrap(a * b);
      if InRange(a * b) {
        ExactQuotient(a, b);
      } else if a == -1 {
        assert b == MIN;
      } else {
        QuotientInRange(p, a);
        if TruncDiv(p, a) == b {
          QuotientNear(p, a);
          WrapFar(a * b);
        }
      }
    }
  }

  lemma ExactQuotient(a: int, b: int)
    requires a != 0
    ensures TruncDiv(a * b, a) == b
  {
    var x := a * b;
    QuotientNear(x, a);
    var q := TruncDiv(x, a);
    assert Abs(x - a * q) < Abs(a);
    assert x - a * q == a * (b - q);
    MultipleBelow(a, b - q);
  }

  lemma AbsProduct(a: int, k: int)
    ensures Abs(a * k) == Abs(a) * Abs(k)
  {
    if a >= 0 && k < 0 {
      assert a * k == -(a * -k);
    } else if a < 0 && k >= 0 {
      assert a * k == -(-a * k);
    } else if a < 0 && k < 0 {
      assert a * k == -a * -k;
    }
  }

  lemma MoreIsMore(x: nat, k: nat, m: nat)
    requires k >= m
    ensures x * k >= x * m
  {
  }

  lemma MultipleBelow(a: int, k: int)
    requires a != 0 && Abs(a * k) < Abs(a)
    ensures k == 0
  {
    AbsProduct(a, k);
    if k != 0 { MoreIsMore(Abs(a), Abs(k), 1); }
  }

  /** Truncated division leaves less than the divisor. */
  lemma QuotientNear(p: int, a: int)
    requires a != 0
    ensures Abs(p - a * TruncDiv(p, a)) < Abs(a)
  {
    if p >= 0 {
      assert p == a * (p / a) + p % a;
    } else {
      assert -p == a * ((-p) / a) + (-p) % a;
      assert a * -((-p) / a) == -(a * ((-p) / a));
    }
  }

  lemma QuotientInRange(p: int, a: int)
    requires InRange(p) && InRange(a) && a != 0 && a != -1
    ensures InRange(TruncDiv(p, a))
  {
    if a != 1 {
      var q := TruncDiv(p, a);
      QuotientNear(p, a);
      AbsProduct(a, q);
      SmallQuotient(Abs(p), Abs(a), Abs(q), Abs(a) * Abs(q));
    }
  }

  /** A quotient by something of magnitude two or more is well inside the range. */
  lemma SmallQuotient(p: nat, a: nat, q: nat, product: nat)
    requires a >= 2 && product == a * q && product < p + a && p <= MAX + 1
    ensures q <= MAX
  {
    if q >= 1 {
      assert a * (q - 1) == product - a;
      MoreIsMore(q - 1, a, 2);
    }
  }

  /** A wrapped value is a whole modulus away from what it wraps. */
  lemma WrapFar(x: int)
    requires !InRange(x)
    ensures Abs(Wrap(x) - x) >= MODULUS
  {
    var y := x - MIN;
    assert Wrap(x) - x == y % MODULUS - y;
    assert y % MODULUS == y - MODULUS * (y / MODULUS);
  }

  /** The rounded quotient by SCALE, in closed form. */
  function Scaled(x: int): int {
    if x >= 0 then (x + SCALE / 2) / SCALE else -((-x + SCALE / 2) / SCALE)
  }

  lemma RoundingUnique(x: int, n: int)
    ensures RoundsHalfAway(x, n) <==> n == Scaled(x)
  {
  }

  // ----- path contributions -----

  datatype Kind =
    | Implements | Overrides | Extends | Tests | Calls | Reads | Writes | DataFlowsTo | ControlDependsOn
    | References | Exports | DependsOn | Configures | Imports | Documents | Contains | Owns | Defines
    | OtherKind

  datatype Precision = Compiler | LanguageServer | StaticAnalysis | Syntax | Heuristic

  /** A kind that carries no contribution is not admitted to a path. */
  function ContributionWeight(k: Kind): (w: Option<int>)
    ensures w.None? <==> k == OtherKind
    ensures w.Some? ==> 0 < w.value <= 940_000
    ensures w == Some(940_000) <==> k in {Implements, Overrides, Extends}
    ensures w == Some(920_000) <==> k == Tests
    ensures w == Some(900_000) <==> k == Calls
    ensures w == Some(880_000) <==> k in {Reads, Writes, DataFlowsTo, ControlDependsOn}
    ensures w == Some(780_000) <==> k in {References, Exports}
    ensures w == Some(720_000) <==> k in {DependsOn, Configures}
    ensures w == Some(600_000) <==> k == Imports
    ensures w == Some(550_000) <==> k == Documents
    ensures w == Some(350_000) <==> k in {Contains, Owns, Defines}
  {
    match k
    case Implements | Overrides | Extends => Some(940_000)
    case Tests => Some(920_000)
    case Calls => Some(900_000)
    case Reads | Writes | DataFlowsTo | ControlDependsOn => Some(880_000)
    case References | Exports => Some(780_000)
    case DependsOn | Configures => Some(720_000)
    case Imports => Some(600_000)
    case Documents => Some(550_000)
    case Contains | Owns | Defines => Some(350_000)
    case OtherKind => None
  }

  function PrecisionMultiplier(p: Precision): (m: int)
    ensures 450_000 <= m <= SCALE
    ensures m == SCALE <==> p == Compiler
    ensures m == 950_000 <==> p == LanguageServer
    ensures m == 900_000 <==> p == StaticAnalysis
    ensures m == 720_000 <==> p == Syntax
    ensures m == 450_000 <==> p == Heuristic
  {
    match p
    case Compiler => 1_000_000
    case LanguageServer => 950_000
    case StaticAnalysis => 900_000
    case Syntax => 720_000
    case Heuristic => 450_000
  }

  const DEPTH_DECAY: int := 650_000

  /** One hop of a route: its relation's kind, when this compile walked it, and the
      precision of its best evidence, when it has any. */
  datatype Hop = Hop(kind: Option<Kind>, precision: Option<Precision>)

  datatype Score = Admitted(contribution: int, kinds: seq<Kind>) | Inadmissible

  predicate Carries(h: Hop) {
    h.kind.Some? && ContributionWeight(h.kind.value).Some?
  }

  /** The kinds of a route's hops, one by one. */
  predicate KindsAre(hops: seq<Hop>, kinds: seq<Kind>) {
    |kinds| == |hops| && forall i | 0 <= i < |hops| :: hops[i].kind == Some(kinds[i])
  }

  /** A product of two numbers in [0, SCALE], rounded, is no more than either. */
  lemma ScaledShrinks(a: nat, b: nat)
    requires a <= SCALE && b <= SCALE
    ensures Representable(a * b) && 0 <= Scaled(a * b) <= a && Scaled(a * b) <= b
  {
    var x := a * b;
    assert 0 <= x <= a * SCALE && x <= b * SCALE by {
      MoreIsMore(a, SCALE, b);
      MoreIsMore(b, SCALE, a);
    }
    ScaledBelow(x, a);
    ScaledBelow(x, b);
  }

  lemma ScaledBelow(x: nat, y: nat)
    requires x <= y * SCALE
    ensures 0 <= Scaled(x) <= y
  {
    assert Scaled(x) * SCALE <= x + SCALE / 2;
  }

  /** What one admitted hop is worth by itself. */
  function HopScore(h: Hop): (n: int)
    requires Carries(h)
    ensures 0 <= n <= ContributionWeight(h.kind.value).value
  {
    var weight := ContributionWeight(h.kind.value).value;
    var edge := PrecisionMultiplier(if h.precision.Some? then h.precision.value else Heuristic);
    ScaledShrinks(weight, edge);
    Scaled(weight * edge)
  }

  /** A route's contribution with one hop more, decayed unless it is the first. */
  function Joined(before: int, hop: int, first: bool): (n: int)
    requires 0 <= before <= SCALE && 0 <= hop <= SCALE
    ensures 0 <= n <= before && n <= hop
  {
    ScaledShrinks(before, hop);
    var product := Scaled(before * hop);
    ScaledShrinks(product, DEPTH_DECAY);
    if first then product else Scaled(product * DEPTH_DECAY)
  }

  /** The contribution of a non-empty route: the product of its hops, decayed once
      per hop after the first. */
  function PathScore(hops: seq<Hop>): (n: int)
    requires forall i | 0 <= i < |hops| :: Carries(hops[i])
    ensures 0 <= n <= SCALE
  {
    if hops == [] then SCALE
    else
      var k := |hops| - 1;
      Joined(PathScore(hops[..k]), HopScore(hops[k]), k == 0)
  }

  /** A hop is worth its kind's weight at its evidence's precision, and one with no evidence
      what a heuristic is, rounded half away from zero. */
  lemma HopWorth(kind: Kind, precision: Option<Precision>)
    requires kind != OtherKind
    ensures Carries(Hop(Some(kind), precision))
    ensures var weight := ContributionWeight(kind).value;
      RoundsHalfAway(weight * (match precision case None => 450_000 case Some(p) => PrecisionMultiplier(p)),
                     HopScore(Hop(Some(kind), precision)))
  {
    var weight := ContributionWeight(kind).value;
    var edge := match precision case None => 450_000 case Some(p) => PrecisionMultiplier(p);
    RoundingUnique(weight * edge, Scaled(weight * edge));
  }

  /** A route starts from the scale and is multiplied by each hop's worth and, behind the
      first, by the decay; each product rounded. */
  lemma RouteWorth(hops: seq<Hop>, h: Hop) returns (product: int)
    requires Carries(h) && forall i | 0 <= i < |hops| :: Carries(hops[i])
    ensures PathScore([]) == 1_000_000
    ensures RoundsHalfAway(PathScore(hops) * HopScore(h), product)
    ensures if hops == [] then PathScore(hops + [h]) == product
            else RoundsHalfAway(product * 650_000, PathScore(hops + [h]))
  {
    var before, hop := PathScore(hops), HopScore(h);
    product := Scaled(before * hop);
    RoundingUnique(before * hop, product);
    RoundingUnique(product * DEPTH_DECAY, Scaled(product * DEPTH_DECAY));
    assert (hops + [h])[..|hops|] == hops;
  }

  /** Taking a route further never raises its contribution, and no route
      contributes more than the weight of its last hop. */
  lemma LongerScoresNoMore(hops: seq<Hop>, h: Hop)
    requires Carries(h) && forall i | 0 <= i < |hops| :: Carries(hops[i])
    ensures PathScore(hops + [h]) <= PathScore(hops)
    ensures PathScore(hops + [h]) <= ContributionWeight(h.kind.value).value
  {
    assert (hops + [h])[..|hops|] == hops;
    assert PathScore(hops + [h]) == Joined(PathScore(hops), HopScore(h), |hops| == 0);
  }

  /** One more hop's multiplications, none of which the overflow check can refuse. */
  method TakeHop(contribution: int, hop: Hop, weight: int, first: bool) returns (after: int)
    requires 0 <= contribution <= SCALE && Carries(hop) && weight == ContributionWeight(hop.kind.value).value
    ensures after == Joined(contribution, HopScore(hop), first)
  {
    var edge := PrecisionMultiplier(if hop.precision.Some? then hop.precision.value else Heuristic);
    ScaledShrinks(weight, edge);
    var worth := MulScaled(weight, edge);
    ScaledShrinks(contribution, HopScore(hop));
    var next := MulScaled(contribution, worth.value);
    after := next.value;
    if !first {
      ScaledShrinks(after, DEPTH_DECAY);
      var decayed := MulScaled(after, DEPTH_DECAY);
      after := decayed.value;
    }
  }

  // ----- the longest routes -----

  /** What one more hop of the best kind and precision leaves of a contribution. */
  function OneMore(x: nat): (n: nat)
    ensures n <= x
  {
    Scaled(Scaled(x * 940_000) * DEPTH_DECAY)
  }

  /** The contribution of n hops of the best kind and precision. */
  function Top(n: nat): nat {
    if n == 0 then SCALE else if n == 1 then 940_000 else OneMore(Top(n - 1))
  }

  lemma JoinedAtMost(x: nat, y: nat, hop: nat)
    requires x <= y <= SCALE && hop <= 940_000
    ensures Joined(x, hop, true) <= Scaled(y * 940_000)
    ensures Joined(x, hop, false) <= OneMore(y)
  {
    assert x * hop <= y * 940_000 by { MoreIsMore(x, 940_000, hop); }
    ScaledMonotone(x * hop, y * 940_000);
    ScaledMonotone(Scaled(x * hop) * DEPTH_DECAY, Scaled(y * 940_000) * DEPTH_DECAY);
  }

  lemma ScaledMonotone(x: nat, y: nat)
    requires x <= y
    ensures 0 <= Scaled(x) <= Scaled(y)
  {
  }

  /** No route of n hops contributes more than n of the best. */
  lemma {:induction false} TopIsMost(hops: seq<Hop>)
    requires forall i | 0 <= i < |hops| :: Carries(hops[i])
    ensures PathScore(hops) <= Top(|hops|) <= SCALE
  {
    if hops != [] {
      var k := |hops| - 1;
      TopIsMost(hops[..k]);
      JoinedAtMost(PathScore(hops[..k]), Top(k), HopScore(hops[k]));
    }
  }

  function Pow2(k: nat): nat { if k == 0 then 1 else 2 * Pow2(k - 1) }

  lemma TwoMoreHalve(x: nat, half: nat)
    requires half >= 8 && x <= 2 * half + 1
    ensures OneMore(OneMore(x)) <= half + 1
  {
  }

  /** Two hops more than halve what the best of routes contributes, down to nine. */
  lemma {:induction false} TopHalves(n: nat, k: nat)
    requires n >= 1 && k >= 3 && Top(n) <= Pow2(k) + 1
    ensures Top(n + 2 * (k - 3)) <= 9
    decreases k
  {
    if k > 3 {
      assert Pow2(k) == 2 * Pow2(k - 1);
      PowAtLeast(k - 1, 3);
      TwoMoreHalve(Top(n), Pow2(k - 1));
      assert Top(n + 2) == OneMore(Top(n + 1)) == OneMore(OneMore(Top(n)));
      TopHalves(n + 2, k - 1);
    }
  }

  lemma {:induction false} PowAtLeast(k: nat, m: nat)
    requires k >= m && m == 3
    ensures Pow2(k) >= 8
    decreases k
  {
    if k > m { PowAtLeast(k - 1, m); } else { assert Pow2(m) == 2 * (2 * (2 * Pow2(m - 3))); }
  }

  lemma OneMoreSmall(x: nat)
    requires 1 <= x <= 9
    ensures 1 <= OneMore(x) <= 5
    ensures x <= 5 ==> OneMore(x) <= 3
    ensures x <= 3 ==> OneMore(x) <= 2
    ensures x <= 2 ==> OneMore(x) == 1
  {
  }

  lemma TopNext(n: nat)
    requires n >= 1
    ensures Top(n + 1) == OneMore(Top(n))
  {
  }

  lemma TopSmall(n: nat)
    requires n >= 1 && 1 <= Top(n) <= 9
    ensures 1 <= Top(n + 1) <= 5
    ensures Top(n) <= 5 ==> Top(n + 1) <= 3
    ensures Top(n) <= 3 ==> Top(n + 1) <= 2
    ensures Top(n) <= 2 ==> Top(n + 1) == 1
  {
    TopNext(n);
    OneMoreSmall(Top(n));
  }

  /** From nine, four hops are enough for what rounding keeps for ever. */
  lemma TopEnds(n: nat)
    requires n >= 1 && 1 <= Top(n) <= 9
    ensures Top(n + 4) == 1
  {
    TopTwice(n);
    TopTwice(n + 2);
  }

  lemma TopTwice(n: nat)
    requires n >= 1 && 1 <= Top(n) <= 9
    ensures 1 <= Top(n + 2) <= 3
    ensures Top(n) <= 3 ==> Top(n + 2) == 1
  {
    TopSmall(n);
    TopSmall(n + 1);
  }

  lemma {:induction false} TopPositive(n: nat)
    ensures Top(n) >= 1
  {
    if n > 1 { TopPositive(n - 1); }
  }

  lemma {:induction false} TopStays(m: nat, n: nat)
    requires 1 <= m <= n && Top(m) == 1
    ensures Top(n) == 1
    decreases n
  {
    if m < n {
      TopStays(m, n - 1);
      TopSmall(n - 1);
    }
  }

  lemma TopFalls(first: nat, k: nat, n: nat)
    requires first == 1 && k >= 3 && 939_999 <= Pow2(k) && n >= first + 2 * (k - 3) + 4
    ensures Top(n) == 1
  {
    assert Top(first) == 940_000;
    TopHalves(first, k);
    TopPositive(first + 2 * (k - 3));
    TopEnds(first + 2 * (k - 3));
    TopStays(first + 2 * (k - 3) + 4, n);
  }

  /** Rounding half away from zero keeps a contribution of one at one, and a route of
      39 hops or more contributes at most that. */
  lemma LongRoutesScoreOne(n: nat)
    requires n >= 39
    ensures Top(n) == 1
  {
    assert Pow2(20) == 1_048_576 by {
      FiveDoublings(0);
      FiveDoublings(5);
      FiveDoublings(10);
      FiveDoublings(15);
    }
    TopFalls(1, 20, n);
  }

  lemma FiveDoublings(k: nat)
    ensures Pow2(k + 5) == 32 * Pow2(k)
  {
    assert Pow2(k + 5) == 2 * Pow2(k + 4) == 4 * Pow2(k + 3);
    assert Pow2(k + 3) == 2 * Pow2(k + 2) == 4 * Pow2(k + 1);
  }

  /** n hops alike. */
  function Alike(h: Hop, n: nat): (hops: seq<Hop>)
    ensures |hops| == n && forall i | 0 <= i < n :: hops[i] == h
  {
    if n == 0 then [] else Alike(h, n - 1) + [h]
  }

  lemma AlikeStep(h: Hop, n: nat)
    requires Carries(h) && n > 0
    ensures PathScore(Alike(h, n)) == Joined(PathScore(Alike(h, n - 1)), HopScore(h), n == 1)
  {
    assert Alike(h, n)[..n - 1] == Alike(h, n - 1);
  }

  const BEST_HOP := Hop(Some(Implements), Some(Compiler))

  lemma BestHop(h: Hop)
    requires h == BEST_HOP
    ensures Carries(h) && HopScore(h) == 940_000
  {
  }

  lemma TopJoins(n: nat, before: nat)
    requires n > 0 && before == Top(n - 1) <= SCALE
    ensures Joined(before, 940_000, n == 1) == Top(n)
  {
    if n > 1 { TopNext(n - 1); }
  }

  /** The bound is reached by a route of that kind and precision throughout. */
  lemma {:induction false} TopIsReached(h: Hop, n: nat)
    requires Carries(h) && HopScore(h) == 940_000
    ensures PathScore(Alike(h, n)) == Top(n)
  {
    if n > 0 {
      var before := PathScore(Alike(h, n - 1));
      TopIsReached(h, n - 1);
      TopJoins(n, before);
      AlikeStep(h, n);
    }
  }

  lemma OneFurther(hops: seq<Hop>, i: nat, kinds: seq<Kind>)
    requires i < |hops| && KindsAre(hops[..i], kinds) && forall k | 0 <= k <= i :: Carries(hops[k])
    ensures PathScore(hops[..i + 1]) == Joined(PathScore(hops[..i]), HopScore(hops[i]), i == 0)
    ensures KindsAre(hops[..i + 1], kinds + [hops[i].kind.value])
  {
    var front := hops[..i + 1];
    assert PathScore(front) == Joined(PathScore(hops[..i]), HopScore(hops[i]), i == 0) by {
      assert front[..i] == hops[..i] && front[i] == hops[i] && |front| - 1 == i;
    }
  }

  /** The overflow check can never fire on a route: every product stays in range.
      A route is refused exactly when it is empty or some hop carries nothing. */
  method ScorePath(hops: seq<Hop>) returns (score: Score)
    ensures score.Inadmissible? <==> hops == [] || exists i | 0 <= i < |hops| :: !Carries(hops[i])
    ensures score.Admitted? ==> score.contribution == PathScore(hops) && KindsAre(hops, score.kinds)
  {
    if |hops| == 0 {
      return Inadmissible;
    }
    var contribution, kinds := SCALE, [];
    for i := 0 to |hops|
      invariant forall k | 0 <= k < i :: Carries(hops[k])
      invariant KindsAre(hops[..i], kinds)
      invariant contribution == PathScore(hops[..i])
    {
      if hops[i].kind.None? {
        return Inadmissible;
      }
      var weight := ContributionWeight(hops[i].kind.value);
      if weight.None? {
        return Inadmissible;
      }
      OneFurther(hops, i, kinds);
      contribution := TakeHop(contribution, hops[i], weight.value, i == 0);
      kinds := kinds + [hops[i].kind.value];
    }
    assert hops[..|hops|] == hops;
    score := Admitted(contribution, kinds);
  }
}
