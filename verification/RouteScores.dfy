/** Scoring every route that reaches a candidate: the best contribution, the bounded
    list of routes kept to explain it, and the count of those that are not. */
module RouteScores {
  import opened FixedPoint
  import opened Options

  /** The longest route an explanation may hold. */
  const MAX_RELATIONS: int := 64

  /** A route's relations and what this compile knows of each. */
  datatype Route = Route(ids: seq<int>, hops: seq<Hop>)

  datatype Scored = Scored(route: Route, contribution: int)

  /** What the sentence explaining a candidate says: how many hops its first kept route
      has, the kind of the first of them, the candidate's depth, and its best contribution. */
  datatype Reason = Reason(hops: nat, kind: Kind, depth: int, contribution: int)

  datatype RouteScore = RouteScore(best: int, kept: seq<Scored>, more: int, edges: seq<int>, kinds: set<Kind>,
                                   reason: Option<Reason>)

  // ----- the order of explanations -----

  /** Higher contribution first, then fewer hops, then the lower first relation. */
  predicate Precedes(a: Scored, b: Scored)
    requires |a.route.ids| > 0 && |b.route.ids| > 0
  {
    if a.contribution != b.contribution then a.contribution > b.contribution
    else if |a.route.ids| != |b.route.ids| then |a.route.ids| < |b.route.ids|
    else a.route.ids[0] < b.route.ids[0]
  }

  predicate NonEmpty(xs: seq<Scored>) {
    forall i | 0 <= i < |xs| :: |xs[i].route.ids| > 0
  }

  predicate Ordered(xs: seq<Scored>)
    requires NonEmpty(xs)
  {
    forall i, j | 0 <= i < j < |xs| :: !Precedes(xs[j], xs[i])
  }

  /** Behind everything it does not precede, so that ties keep their order. */
  function Insert(xs: seq<Scored>, x: Scored): (r: seq<Scored>)
    requires NonEmpty(xs) && |x.route.ids| > 0
    ensures NonEmpty(r) && |r| == |xs| + 1
  {
    if xs == [] then [x]
    else
      var last := xs[|xs| - 1];
      if Precedes(x, last) then Insert(xs[..|xs| - 1], x) + [last] else xs + [x]
  }

  function Sorted(xs: seq<Scored>): (r: seq<Scored>)
    requires NonEmpty(xs)
    ensures NonEmpty(r) && |r| == |xs|
  {
    if xs == [] then [] else Insert(Sorted(xs[..|xs| - 1]), xs[|xs| - 1])
  }

  lemma {:induction false} InsertBag(xs: seq<Scored>, x: Scored)
    requires NonEmpty(xs) && |x.route.ids| > 0
    ensures multiset(Insert(xs, x)) == multiset(xs) + multiset{x}
  {
    if xs != [] {
      var front, last := xs[..|xs| - 1], xs[|xs| - 1];
      assert multiset(xs) == multiset(front) + multiset{last} by { assert xs == front + [last]; }
      InsertBag(front, x);
    }
  }

  lemma {:induction false} SortedBag(xs: seq<Scored>)
    requires NonEmpty(xs)
    ensures multiset(Sorted(xs)) == multiset(xs)
  {
    if xs != [] {
      SortedBag(xs[..|xs| - 1]);
      InsertBag(Sorted(xs[..|xs| - 1]), xs[|xs| - 1]);
      assert xs == xs[..|xs| - 1] + [xs[|xs| - 1]];
    }
  }

  lemma {:induction false} InsertOrdered(xs: seq<Scored>, x: Scored)
    requires NonEmpty(xs) && |x.route.ids| > 0 && Ordered(xs)
    ensures Ordered(Insert(xs, x))
  {
    if xs != [] {
      var n := |xs| - 1;
      var last := xs[n];
      if Precedes(x, last) {
        InsertOrdered(xs[..n], x);
        var front := Insert(xs[..n], x);
        InsertBag(xs[..n], x);
        forall i | 0 <= i < |front| ensures !Precedes(last, front[i]) {
          assert front[i] in multiset(front);
          assert front[i] == x || front[i] in xs[..n];
        }
      } else {
        forall i | 0 <= i < |xs| ensures !Precedes(x, xs[i]) {
          assert !Precedes(last, xs[i]) || i == n;
        }
      }
    }
  }

  lemma {:induction false} SortedOrdered(xs: seq<Scored>)
    requires NonEmpty(xs)
    ensures Ordered(Sorted(xs))
  {
    if xs != [] {
      SortedOrdered(xs[..|xs| - 1]);
      InsertOrdered(Sorted(xs[..|xs| - 1]), xs[|xs| - 1]);
    }
  }

  /** The elements no element of which precedes x and which x does not precede. */
  function TiesOf(xs: seq<Scored>, x: Scored): seq<Scored>
    requires NonEmpty(xs) && |x.route.ids| > 0
  {
    if xs == [] then []
    else
      var last := xs[|xs| - 1];
      TiesOf(xs[..|xs| - 1], x) + IfTied(last, x)
  }

  function IfTied(y: Scored, x: Scored): seq<Scored>
    requires |x.route.ids| > 0 && |y.route.ids| > 0
  {
    if Precedes(x, y) || Precedes(y, x) then [] else [y]
  }

  lemma TiesSnoc(xs: seq<Scored>, y: Scored, x: Scored)
    requires NonEmpty(xs) && |x.route.ids| > 0 && |y.route.ids| > 0
    ensures TiesOf(xs + [y], x) == TiesOf(xs, x) + IfTied(y, x)
  {
    assert (xs + [y])[..|xs|] == xs;
  }

  /** What precedes another does not tie with what the other ties with. */
  lemma TiesSwap(s: seq<Scored>, y: Scored, z: Scored, x: Scored)
    requires |x.route.ids| > 0 && |y.route.ids| > 0 && |z.route.ids| > 0 && Precedes(y, z)
    ensures s + IfTied(y, x) + IfTied(z, x) == s + IfTied(z, x) + IfTied(y, x)
  {
    assert IfTied(y, x) == [] || IfTied(z, x) == [];
  }

  lemma {:induction false} InsertStable(xs: seq<Scored>, y: Scored, x: Scored)
    requires NonEmpty(xs) && |x.route.ids| > 0 && |y.route.ids| > 0
    ensures TiesOf(Insert(xs, y), x) == TiesOf(xs, x) + IfTied(y, x)
  {
    if xs == [] || !Precedes(y, xs[|xs| - 1]) {
      assert Insert(xs, y) == xs + [y];
      TiesSnoc(xs, y, x);
    } else {
      var front, last := xs[..|xs| - 1], xs[|xs| - 1];
      assert TiesOf(Insert(xs, y), x) == TiesOf(Insert(front, y), x) + IfTied(last, x) by {
        TiesSnoc(Insert(front, y), last, x);
      }
      InsertStable(front, y, x);
      TiesSwap(TiesOf(front, x), y, last, x);
    }
  }

  /** Routes that tie keep the order they arrived in. */
  lemma {:induction false} SortedStable(xs: seq<Scored>, x: Scored)
    requires NonEmpty(xs) && |x.route.ids| > 0
    ensures TiesOf(Sorted(xs), x) == TiesOf(xs, x)
  {
    if xs != [] {
      var front, last := xs[..|xs| - 1], xs[|xs| - 1];
      SortedStable(front, x);
      InsertStable(Sorted(front), last, x);
    }
  }

  // ----- the score -----

  predicate Matched(routes: seq<Route>) {
    forall i | 0 <= i < |routes| :: |routes[i].ids| == |routes[i].hops|
  }

  /** A route of at least one hop, every hop of which carries a contribution. */
  predicate Admissible(r: Route) {
    r.hops != [] && forall i | 0 <= i < |r.hops| :: Carries(r.hops[i])
  }

  lemma AdmissibleMeans(r: Route)
    ensures Admissible(r) <==> |r.hops| > 0 && forall h <- r.hops :: h.kind.Some? && h.kind.value != OtherKind
  {
  }

  function Contribution(r: Route): int
    requires Admissible(r)
  {
    PathScore(r.hops)
  }

  /** The routes admitted among the first n, with their contributions. */
  function AdmittedOf(routes: seq<Route>, n: nat): seq<Scored>
    requires n <= |routes|
  {
    if n == 0 then []
    else
      var before := AdmittedOf(routes, n - 1);
      var r := routes[n - 1];
      if Admissible(r) then before + [Scored(r, Contribution(r))] else before
  }

  predicate IsScored(x: Scored, r: Route) {
    x.route == r && Admissible(r) && x.contribution == PathScore(r.hops)
  }

  /** xs are the routes at these places with their scores, and the places are those of the
      admissible routes among the first n, in order. */
  ghost predicate AdmittedAt(routes: seq<Route>, n: nat, at: seq<int>, xs: seq<Scored>)
    requires n <= |routes|
  {
    && |at| == |xs| && (forall k | 0 <= k < |at| :: 0 <= at[k] < n && IsScored(xs[k], routes[at[k]]))
    && (forall j, k | 0 <= j < k < |at| :: at[j] < at[k])
    && forall i | 0 <= i < n && Admissible(routes[i]) :: i in at
  }

  lemma AdmitNext(routes: seq<Route>, n: nat, at: seq<int>, xs: seq<Scored>, x: Scored)
    requires 0 < n <= |routes| && AdmittedAt(routes, n - 1, at, xs) && IsScored(x, routes[n - 1])
    ensures AdmittedAt(routes, n, at + [n - 1], xs + [x])
  {
    forall i | 0 <= i < n && Admissible(routes[i]) ensures i in at + [n - 1] {
      if i < n - 1 { assert i in at; }
    }
  }

  lemma NotAdmitted(routes: seq<Route>, n: nat, at: seq<int>, xs: seq<Scored>)
    requires 0 < n <= |routes| && AdmittedAt(routes, n - 1, at, xs) && !Admissible(routes[n - 1])
    ensures AdmittedAt(routes, n, at, xs)
  {
  }

  /** Every admissible route is admitted, no other, and in the order they came in. */
  lemma {:induction false} AdmittedFacts(routes: seq<Route>, n: nat) returns (at: seq<int>)
    requires n <= |routes|
    ensures AdmittedAt(routes, n, at, AdmittedOf(routes, n))
  {
    if n == 0 {
      at := [];
    } else {
      var before, r := AdmittedOf(routes, n - 1), routes[n - 1];
      at := AdmittedFacts(routes, n - 1);
      if Admissible(r) {
        AdmitNext(routes, n, at, before, Scored(r, Contribution(r)));
        at := at + [n - 1];
      } else {
        NotAdmitted(routes, n, at, before);
      }
    }
  }

  /** Those of them short enough to be kept. */
  function Storable(xs: seq<Scored>): seq<Scored>
  {
    if xs == [] then []
    else
      var last := xs[|xs| - 1];
      Storable(xs[..|xs| - 1]) + if |last.route.ids| > MAX_RELATIONS then [] else [last]
  }

  function Best(xs: seq<Scored>): int {
    if xs == [] then 0
    else
      var before, last := Best(xs[..|xs| - 1]), xs[|xs| - 1].contribution;
      if last > before then last else before
  }

  function Edges(xs: seq<Scored>): seq<int> {
    if xs == [] then [] else Edges(xs[..|xs| - 1]) + xs[|xs| - 1].route.ids
  }

  function RouteKinds(r: Route): set<Kind> {
    set h | h in r.hops && h.kind.Some? :: h.kind.value
  }

  /** The kinds of every hop of every admitted route, kept or not. */
  function Kinds(xs: seq<Scored>): set<Kind> {
    if xs == [] then {} else Kinds(xs[..|xs| - 1]) + RouteKinds(xs[|xs| - 1].route)
  }

  lemma {:induction false} StorableFrom(xs: seq<Scored>)
    ensures NonEmpty(xs) ==> NonEmpty(Storable(xs))
    ensures (forall i | 0 <= i < |xs| :: xs[i].contribution >= 0) ==>
      forall i | 0 <= i < |Storable(xs)| :: Storable(xs)[i].contribution >= 0
  {
    if xs != [] { StorableFrom(xs[..|xs| - 1]); }
  }

  lemma {:induction false} BestIsMaximum(xs: seq<Scored>)
    ensures Best(xs) >= 0 && forall i | 0 <= i < |xs| :: xs[i].contribution <= Best(xs)
    ensures Best(xs) > 0 ==> exists i | 0 <= i < |xs| :: xs[i].contribution == Best(xs)
  {
    if xs != [] {
      var n := |xs| - 1;
      BestIsMaximum(xs[..n]);
      if Best(xs) > 0 && xs[n].contribution != Best(xs) {
        var i :| 0 <= i < n && xs[..n][i].contribution == Best(xs[..n]);
        assert xs[i].contribution == Best(xs);
      }
    }
  }

  lemma Snoc(xs: seq<Scored>, x: Scored)
    ensures Storable(xs + [x]) == Storable(xs) + if |x.route.ids| > MAX_RELATIONS then [] else [x]
    ensures Best(xs + [x]) == if x.contribution > Best(xs) then x.contribution else Best(xs)
    ensures Edges(xs + [x]) == Edges(xs) + x.route.ids
    ensures Kinds(xs + [x]) == Kinds(xs) + RouteKinds(x.route)
  {
    assert (xs + [x])[..|xs|] == xs;
  }

  datatype Totals = Totals(best: int, edges: seq<int>, kinds: set<Kind>, admitted: seq<Scored>, dropped: nat)

  /** The walk's totals after some of the routes. */
  ghost predicate TotalsOf(all: seq<Scored>, t: Totals) {
    && t.best == Best(all) && t.edges == Edges(all) && t.kinds == Kinds(all) && t.admitted == Storable(all)
    && |t.admitted| + t.dropped == |all|
  }

  lemma TotalsSnoc(all: seq<Scored>, t: Totals, x: Scored)
    requires TotalsOf(all, t)
    ensures var long := |x.route.ids| > MAX_RELATIONS;
      TotalsOf(all + [x],
               Totals(if x.contribution > t.best then x.contribution else t.best, t.edges + x.route.ids,
                      t.kinds + RouteKinds(x.route), if long then t.admitted else t.admitted + [x],
                      if long then t.dropped + 1 else t.dropped))
  {
    Snoc(all, x);
  }

  method ScoreOne(r: Route) returns (score: Score)
    ensures score.Inadmissible? <==> !Admissible(r)
    ensures score.Admitted? ==> score.contribution == Contribution(r) && (set k | k in score.kinds) == RouteKinds(r)
  {
    score := ScorePath(r.hops);
    if score.Admitted? {
      forall k ensures k in score.kinds <==> k in RouteKinds(r) {
        if k in score.kinds {
          var i :| 0 <= i < |score.kinds| && score.kinds[i] == k;
          assert r.hops[i].kind == Some(k);
        }
      }
    }
  }

  method AdmitRoutes(routes: seq<Route>) returns (t: Totals)
    ensures TotalsOf(AdmittedOf(routes, |routes|), t)
  {
    var best, edges, kinds, admitted, dropped: nat := 0, [], {}, [], 0;
    for i := 0 to |routes|
      invariant TotalsOf(AdmittedOf(routes, i), Totals(best, edges, kinds, admitted, dropped))
    {
      var score := ScoreOne(routes[i]);
      if score.Inadmissible? {
        continue;
      }
      var scored := Scored(routes[i], score.contribution);
      ghost var all := AdmittedOf(routes, i);
      assert AdmittedOf(routes, i + 1) == all + [scored];
      TotalsSnoc(all, Totals(best, edges, kinds, admitted, dropped), scored);
      if score.contribution > best { best := score.contribution; }
      kinds := kinds + set k | k in score.kinds;
      edges := edges + routes[i].ids;
      if |routes[i].ids| > MAX_RELATIONS {
        dropped := dropped + 1;
        continue;
      }
      admitted := admitted + [scored];
    }
    t := Totals(best, edges, kinds, admitted, dropped);
  }

  /** A route of the walk with the contribution its hops give it. */
  predicate Real(x: Scored) {
    |x.route.ids| == |x.route.hops| && Admissible(x.route) && x.contribution == Contribution(x.route)
  }

  ghost predicate AllReal(xs: seq<Scored>) {
    forall i | 0 <= i < |xs| :: Real(xs[i])
  }

  lemma {:induction false} AdmittedReal(routes: seq<Route>, n: nat)
    requires n <= |routes| && Matched(routes)
    ensures AllReal(AdmittedOf(routes, n))
  {
    if n > 0 { AdmittedReal(routes, n - 1); }
  }

  lemma {:induction false} StorableReal(all: seq<Scored>)
    requires AllReal(all)
    ensures AllReal(Storable(all)) && NonEmpty(all) && NonEmpty(Storable(all))
  {
    if all != [] { StorableReal(all[..|all| - 1]); }
  }

  lemma SortedReal(short: seq<Scored>)
    requires NonEmpty(short) && AllReal(short)
    ensures AllReal(Sorted(short))
  {
    SortedBag(short);
    forall i | 0 <= i < |Sorted(short)| ensures Real(Sorted(short)[i]) {
      assert Sorted(short)[i] in multiset(Sorted(short));
      assert Sorted(short)[i] in short;
    }
  }

  /** The first routes in order, and the sentence that names the first of them. */
  method KeepRoutes(short: seq<Scored>, depth: int, best: int, limit: nat) returns (kept: seq<Scored>, reason: Reason)
    requires short != [] && NonEmpty(short) && AllReal(short)
    ensures |kept| == (if limit > 0 && |short| > limit then limit else |short|)
    ensures kept == Sorted(short)[..|kept|] && kept != [] && AllReal(kept)
    ensures reason == Reason(|kept[0].route.ids|, kept[0].route.hops[0].kind.value, depth, best)
  {
    var sorted := Sorted(short);
    SortedReal(short);
    var keep := |sorted|;
    if limit > 0 && keep > limit { keep := limit; }
    kept := sorted[..keep];
    var first := sorted[0].route;
    assert Real(sorted[0]);
    reason := Reason(|first.ids|, first.hops[0].kind.value, depth, best);
  }

  /** Every admitted route counts towards the best, the edges and the kinds; the short
      ones are sorted, and as many of them kept as the limit allows; all others are
      counted. limit zero keeps every one. */
  method ScoreRoutes(routes: seq<Route>, depth: int, limit: nat) returns (s: RouteScore)
    requires Matched(routes)
    ensures var all := AdmittedOf(routes, |routes|); var short := Storable(all);
      && s.best == Best(all) && s.edges == Edges(all) && s.kinds == Kinds(all)
      && |s.kept| + s.more == |all|
      && |s.kept| == (if limit > 0 && |short| > limit then limit else |short|)
      && NonEmpty(short) && AllReal(short) && s.kept == Sorted(short)[..|s.kept|]
    ensures s.reason.Some? <==> s.kept != []
    ensures s.kept != [] ==>
      && AllReal(s.kept)
      && s.reason == Some(Reason(|s.kept[0].route.ids|, s.kept[0].route.hops[0].kind.value, depth, s.best))
  {
    var t := AdmitRoutes(routes);
    ghost var all := AdmittedOf(routes, |routes|);
    AdmittedReal(routes, |routes|);
    StorableReal(all);
    if |t.admitted| == 0 {
      return RouteScore(t.best, [], t.dropped, t.edges, t.kinds, None);
    }
    var kept, reason := KeepRoutes(t.admitted, depth, t.best, limit);
    s := RouteScore(t.best, kept, t.dropped + (|t.admitted| - |kept|), t.edges, t.kinds, Some(reason));
  }

  /** No route left out that could have been kept precedes one that was: the kept ones
      are the first of them in order, and ties are settled by arrival. */
  lemma KeptAreFirst(short: seq<Scored>, keep: nat, k: nat, d: nat)
    requires NonEmpty(short) && k < keep <= d < |short|
    ensures !Precedes(Sorted(short)[d], Sorted(short)[k])
    ensures var x, y := Sorted(short)[k], Sorted(short)[d];
      || y.contribution < x.contribution
      || (y.contribution == x.contribution && |y.route.ids| > |x.route.ids|)
      || (&& y.contribution == x.contribution && |y.route.ids| == |x.route.ids|
          && y.route.ids[0] >= x.route.ids[0])
  {
    SortedOrdered(short);
  }

  /** The first kept route has the best contribution exactly when no route too long to
      keep contributes more than every one that is short enough. */
  lemma FirstHasBest(all: seq<Scored>)
    requires NonEmpty(all) && Storable(all) != []
    requires forall i | 0 <= i < |all| :: all[i].contribution >= 0
    ensures NonEmpty(Storable(all))
    ensures Sorted(Storable(all))[0].contribution == Best(all) <==>
      forall i | 0 <= i < |all| && |all[i].route.ids| > MAX_RELATIONS :: all[i].contribution <= Best(Storable(all))
  {
    var short := Storable(all);
    StorableFrom(all);
    BestIsMaximum(all);
    FirstIsBest(short);
    BestSplits(all);
  }

  /** Rounding leaves a route too long to keep a contribution of one at the most. */
  lemma LongScoresAtMostOne(x: Scored)
    requires Real(x) && |x.route.ids| > MAX_RELATIONS
    ensures 0 <= x.contribution <= 1
  {
    TopIsMost(x.route.hops);
    LongRoutesScoreOne(|x.route.hops|);
  }

  /** The reason's route and contribution belong together unless every route short
      enough to keep contributes nothing and some longer one contributes one millionth. */
  lemma ReasonNamesItsRoute(routes: seq<Route>)
    requires Matched(routes) && Storable(AdmittedOf(routes, |routes|)) != []
    ensures var all := AdmittedOf(routes, |routes|); var short := Storable(all);
      && NonEmpty(short)
      && (Sorted(short)[0].contribution != Best(all) <==>
            && (forall i | 0 <= i < |short| :: short[i].contribution == 0)
            && exists i | 0 <= i < |all| :: |all[i].route.ids| > MAX_RELATIONS && all[i].contribution == 1)
  {
    var all := AdmittedOf(routes, |routes|);
    var short := Storable(all);
    AdmittedReal(routes, |routes|);
    StorableReal(all);
    FirstHasBest(all);
    forall i | 0 <= i < |all| && |all[i].route.ids| > MAX_RELATIONS ensures 0 <= all[i].contribution <= 1 {
      LongScoresAtMostOne(all[i]);
    }
    NothingBest(short);
  }

  lemma NothingBest(short: seq<Scored>)
    requires AllReal(short)
    ensures Best(short) <= 0 <==> forall i | 0 <= i < |short| :: short[i].contribution == 0
  {
    BestIsMaximum(short);
  }

  function Numbered(from: int, n: nat): (ids: seq<int>)
    ensures |ids| == n
    decreases n
  {
    if n == 0 then [] else [from] + Numbered(from + 1, n - 1)
  }

  const WEAK_HOP := Hop(Some(Contains), Some(Heuristic))

  const WEAK_SCORES: seq<int> := [SCALE, 157_500, 16_124, 1_651, 169, 18, 2, 0]

  lemma WeakJoined(n: nat)
    requires 1 <= n <= 7
    ensures 0 <= WEAK_SCORES[n - 1] <= SCALE
    ensures Carries(WEAK_HOP) && Joined(WEAK_SCORES[n - 1], HopScore(WEAK_HOP), n == 1) == WEAK_SCORES[n]
  {
    assert HopScore(WEAK_HOP) == 157_500;
  }

  /** Seven containment edges of heuristic evidence round to nothing. */
  lemma {:induction false} WeakScores(n: nat)
    requires n <= 7
    ensures PathScore(Alike(WEAK_HOP, n)) == WEAK_SCORES[n]
  {
    if n > 0 {
      WeakScores(n - 1);
      WeakJoined(n);
      AlikeStep(WEAK_HOP, n);
    }
  }

  lemma TwoRoutes(a: Route, b: Route, x: Scored, y: Scored)
    requires Admissible(a) && Admissible(b) && x == Scored(a, Contribution(a)) && y == Scored(b, Contribution(b))
    requires 0 < |a.ids| <= MAX_RELATIONS < |b.ids|
    ensures AdmittedOf([a, b], 2) == [x, y]
    ensures Storable([x, y]) == [x] && Sorted([x]) == [x]
    ensures x.contribution <= y.contribution ==> Best([x, y]) == y.contribution
  {
    var routes := [a, b];
    assert AdmittedOf(routes, 1) == [x] by { assert AdmittedOf(routes, 0) == []; }
    assert [x] + [y] == [x, y];
    assert [] + [x] == [x];
    Snoc([], x);
    Snoc([x], y);
    assert Sorted([x]) == Insert(Sorted([]), x) by { assert [x][..0] == []; }
  }

  /** Beside a longer route of the best kind throughout, the reason then names the weak
      route and the other's contribution. */
  lemma ReasonMayMismatch(weak: Route, long: Route, n: nat, m: nat)
    requires n == 7 && weak == Route(Numbered(0, n), Alike(WEAK_HOP, n))
    requires m > MAX_RELATIONS && long == Route(Numbered(n, m), Alike(BEST_HOP, m))
    ensures Matched([weak, long])
    ensures var all := AdmittedOf([weak, long], 2);
      NonEmpty(Storable(all)) && Sorted(Storable(all)) == [Scored(weak, 0)] && Best(all) == 1
  {
    WeakRoute(weak, n);
    LongRoute(long, m);
    TwoRoutes(weak, long, Scored(weak, 0), Scored(long, 1));
  }

  lemma WeakRoute(r: Route, n: nat)
    requires n == 7 && r.hops == Alike(WEAK_HOP, n)
    ensures Admissible(r) && Contribution(r) == 0
  {
    WeakScores(n);
  }

  lemma LongRoute(r: Route, n: nat)
    requires n > MAX_RELATIONS && r.hops == Alike(BEST_HOP, n)
    ensures Admissible(r) && Contribution(r) == 1
  {
    BestHop(BEST_HOP);
    TopIsReached(BEST_HOP, n);
    LongRoutesScoreOne(n);
  }

  lemma StillThere(short: seq<Scored>, i: nat) returns (j: nat)
    requires NonEmpty(short) && i < |short|
    ensures j < |short| && Sorted(short)[j] == short[i]
  {
    SortedBag(short);
    assert short[i] in multiset(short);
    assert short[i] in multiset(Sorted(short));
    j :| 0 <= j < |Sorted(short)| && Sorted(short)[j] == short[i];
  }

  lemma FirstIsBest(short: seq<Scored>)
    requires NonEmpty(short) && short != [] && forall i | 0 <= i < |short| :: short[i].contribution >= 0
    ensures Sorted(short)[0].contribution == Best(short)
  {
    var first := Sorted(short)[0];
    forall i | 0 <= i < |short| ensures short[i].contribution <= first.contribution {
      var j := StillThere(short, i);
      NoneAboveFirst(short, j);
    }
    FirstWasThere(short);
    BestIsMaximum(short);
  }

  lemma NoneAboveFirst(short: seq<Scored>, j: nat)
    requires NonEmpty(short) && j < |short|
    ensures Sorted(short)[j].contribution <= Sorted(short)[0].contribution
  {
    SortedOrdered(short);
    assert j > 0 ==> !Precedes(Sorted(short)[j], Sorted(short)[0]);
  }

  lemma FirstWasThere(short: seq<Scored>)
    requires NonEmpty(short) && short != []
    ensures Sorted(short)[0] in short
  {
    SortedBag(short);
    assert Sorted(short)[0] in multiset(Sorted(short));
  }

  lemma {:induction false} StorableStep(all: seq<Scored>)
    requires all != []
    ensures var n := |all| - 1;
      var before := Best(Storable(all[..n]));
      Best(Storable(all)) ==
        if |all[n].route.ids| <= MAX_RELATIONS && all[n].contribution > before then all[n].contribution else before
  {
    var n := |all| - 1;
    Snoc(Storable(all[..n]), all[n]);
    assert Storable(all[..n]) + [] == Storable(all[..n]);
  }

  /** The best of all is the best of the short ones or a long one's. */
  lemma {:induction false} BestSplits(all: seq<Scored>)
    ensures Best(Storable(all)) <= Best(all)
    ensures Best(all) > Best(Storable(all)) ==>
      exists i | 0 <= i < |all| :: |all[i].route.ids| > MAX_RELATIONS && all[i].contribution == Best(all)
  {
    if all != [] {
      var n := |all| - 1;
      BestSplits(all[..n]);
      StorableStep(all);
      if Best(all) > Best(Storable(all)) {
        if all[n].contribution <= Best(all[..n]) {
          var i :| 0 <= i < n && |all[..n][i].route.ids| > MAX_RELATIONS && all[..n][i].contribution == Best(all[..n]);
          assert all[i].contribution == Best(all);
        } else {
          assert |all[n].route.ids| > MAX_RELATIONS;
        }
      }
    }
  }
}
