/** Putting a candidate's routes back together from the route stream and the hop
    stream: from the candidate's own records at once, and as a merge join of two
    cursors that never rewind and may skip candidates. */
module Routes {
  import FixedPoint

  datatype PathRec = PathRec(candidate: int, path: int, cost: int, evidence: seq<int>, hopCount: int)
  /** A hop's kind is empty when the attribute join did not find it. */
  datatype HopRec = HopRec(candidate: int, path: int, hop: int, relation: int, kind: string, multiplier: int)
  datatype RelationPath = RelationPath(relations: seq<int>, evidence: seq<int>, cost: int)

  /** A route's hops are not as many as it declared. */
  datatype Result<T> = Ok(value: T) | MissingHops

  // ----- what is rebuilt -----

  /** The relations of one route, in the order of the first n hops. */
  function HopsOf(hops: seq<HopRec>, n: nat, candidate: int, path: int): seq<int>
    requires n <= |hops|
  {
    if n == 0 then []
    else
      var h := hops[n - 1];
      HopsOf(hops, n - 1, candidate, path) + if h.candidate == candidate && h.path == path then [h.relation] else []
  }

  function RouteOf(r: PathRec, hops: seq<HopRec>): RelationPath {
    RelationPath(HopsOf(hops, |hops|, r.candidate, r.path), r.evidence, r.cost)
  }

  /** One candidate's routes among the first n, each with all its hops. */
  function RoutesOf(paths: seq<PathRec>, n: nat, hops: seq<HopRec>, candidate: int): Result<seq<RelationPath>>
    requires n <= |paths|
  {
    if n == 0 then Ok([])
    else
      match RoutesOf(paths, n - 1, hops, candidate)
      case MissingHops => MissingHops
      case Ok(routes) =>
        var r := paths[n - 1];
        if r.candidate != candidate then Ok(routes)
        else if |RouteOf(r, hops).relations| != r.hopCount then MissingHops
        else Ok(routes + [RouteOf(r, hops)])
  }

  lemma {:induction false} MissingStays(paths: seq<PathRec>, n: nat, hops: seq<HopRec>, candidate: int)
    requires n <= |paths| && RoutesOf(paths, n, hops, candidate).MissingHops?
    ensures RoutesOf(paths, |paths|, hops, candidate).MissingHops?
    decreases |paths| - n
  {
    if n < |paths| { MissingStays(paths, n + 1, hops, candidate); }
  }

  lemma {:induction false} NoneBetween(paths: seq<PathRec>, m: nat, n: nat, hops: seq<HopRec>, candidate: int)
    requires m <= n <= |paths| && forall i | m <= i < n :: paths[i].candidate != candidate
    ensures RoutesOf(paths, n, hops, candidate) == RoutesOf(paths, m, hops, candidate)
    decreases n
  {
    if m < n { NoneBetween(paths, m, n - 1, hops, candidate); }
  }

  lemma {:induction false} NoHopsBetween(hops: seq<HopRec>, m: nat, n: nat, candidate: int, path: int)
    requires m <= n <= |hops|
    requires forall j | m <= j < n :: hops[j].candidate != candidate || hops[j].path != path
    ensures HopsOf(hops, n, candidate, path) == HopsOf(hops, m, candidate, path)
    decreases n
  {
    if m < n { NoHopsBetween(hops, m, n - 1, candidate, path); }
  }

  // ----- the streams -----

  predicate Before(c1: int, p1: int, c2: int, p2: int) {
    c1 < c2 || (c1 == c2 && p1 < p2)
  }

  predicate Owns(r: PathRec, h: HopRec) {
    r.candidate == h.candidate && r.path == h.path
  }

  ghost predicate HasOwner(paths: seq<PathRec>, h: HopRec) {
    exists q :: 0 <= q < |paths| && Owns(paths[q], h)
  }

  ghost predicate InOrder(paths: seq<PathRec>, hops: seq<HopRec>) {
    && (forall i, j | 0 <= i < j < |paths| ::
          Before(paths[i].candidate, paths[i].path, paths[j].candidate, paths[j].path))
    && (forall i, j | 0 <= i < j < |hops| ::
          !Before(hops[j].candidate, hops[j].path, hops[i].candidate, hops[i].path))
  }

  /** From h on the hops are of candidate c or later, and those of c belong to routes. */
  ghost predicate Clear(paths: seq<PathRec>, hops: seq<HopRec>, h: nat, c: int) {
    forall j | h <= j < |hops| :: hops[j].candidate >= c && (hops[j].candidate == c ==> HasOwner(paths, hops[j]))
  }

  /** Every hop from h on belongs to no route before the p-th. */
  ghost predicate Past(paths: seq<PathRec>, hops: seq<HopRec>, p: nat, h: nat)
    requires p <= |paths| && h <= |hops|
  {
    forall q, j | 0 <= q < p && h <= j < |hops| :: !Owns(paths[q], hops[j])
  }

  /** When the routes before the p-th are done with, a hop that belongs to a route is no
      earlier than the p-th route's: it is not left behind to block the join. */
  lemma NextHop(paths: seq<PathRec>, hops: seq<HopRec>, p: nat, h: nat)
    requires InOrder(paths, hops) && p < |paths| && h < |hops| && Past(paths, hops, p, h)
    requires HasOwner(paths, hops[h])
    ensures !Before(hops[h].candidate, hops[h].path, paths[p].candidate, paths[p].path)
  {
    var q :| 0 <= q < |paths| && Owns(paths[q], hops[h]);
  }

  /** The hops before h are of routes before the p-th. */
  ghost predicate Behind(hops: seq<HopRec>, h: nat, r: PathRec)
    requires h <= |hops|
  {
    forall j | 0 <= j < h :: Before(hops[j].candidate, hops[j].path, r.candidate, r.path)
  }

  lemma RunOver(paths: seq<PathRec>, hops: seq<HopRec>, p: nat, h: nat)
    requires InOrder(paths, hops) && p < |paths| && h < |hops| && Clear(paths, hops, h, paths[p].candidate)
    requires Past(paths, hops, p, h) && !Owns(paths[p], hops[h])
    ensures forall j | h <= j < |hops| :: !Owns(paths[p], hops[j])
  {
    if hops[h].candidate == paths[p].candidate { NextHop(paths, hops, p, h); }
  }

  /** A hop that is not this route's ends its run. */
  lemma RunEnds(paths: seq<PathRec>, hops: seq<HopRec>, p: nat, h0: nat, h: nat)
    requires InOrder(paths, hops) && p < |paths| && h0 <= h <= |hops| && Clear(paths, hops, h0, paths[p].candidate)
    requires Past(paths, hops, p, h0) && (h < |hops| ==> !Owns(paths[p], hops[h]))
    ensures var r := paths[p]; HopsOf(hops, |hops|, r.candidate, r.path) == HopsOf(hops, h, r.candidate, r.path)
    ensures Past(paths, hops, p + 1, h)
  {
    if h < |hops| { RunOver(paths, hops, p, h); }
    NoHopsBetween(hops, h, |hops|, paths[p].candidate, paths[p].path);
  }

  ghost predicate OwnedFrom(r: PathRec, hops: seq<HopRec>, m: nat, n: nat)
    requires n <= |hops|
  {
    forall j | m <= j < n :: Owns(r, hops[j])
  }

  /** The route stream is in order from p on. */
  lemma AtLeast(paths: seq<PathRec>, hops: seq<HopRec>, p: nat, candidate: int)
    requires InOrder(paths, hops) && p < |paths| && paths[p].candidate >= candidate
    ensures forall i | p <= i < |paths| :: paths[i].candidate >= candidate
  {
  }

  lemma HopsAtLeast(paths: seq<PathRec>, hops: seq<HopRec>, h: nat, candidate: int)
    requires InOrder(paths, hops) && h < |hops| && hops[h].candidate >= candidate
    ensures forall j | h <= j < |hops| :: hops[j].candidate >= candidate
  {
  }

  /** After the p-th route's hops, the hops taken are behind the next route, and of no
      later candidate. */
  lemma NextRoute(paths: seq<PathRec>, hops: seq<HopRec>, p: nat, m: nat, n: nat)
    requires InOrder(paths, hops) && p < |paths| && m <= n <= |hops|
    requires Behind(hops, m, paths[p]) && OwnedFrom(paths[p], hops, m, n)
    ensures p + 1 < |paths| ==> Behind(hops, n, paths[p + 1]) && paths[p + 1].candidate >= paths[p].candidate
    ensures forall j | m <= j < n :: hops[j].candidate == paths[p].candidate
  {
    forall j | m <= j < n ensures hops[j].candidate == paths[p].candidate { assert Owns(paths[p], hops[j]); }
    if p + 1 < |paths| {
      var next := paths[p + 1];
      assert Before(paths[p].candidate, paths[p].path, next.candidate, next.path);
      forall j | 0 <= j < n ensures Before(hops[j].candidate, hops[j].path, next.candidate, next.path) {
        assert j >= m ==> Owns(paths[p], hops[j]);
      }
    }
  }

  // ----- the join -----

  /** Where the route cursor stands once it has stepped over the candidates before c. */
  function PastPaths(paths: seq<PathRec>, p: nat, c: int): (q: nat)
    requires p <= |paths|
    ensures p <= q <= |paths| && (forall i | p <= i < q :: paths[i].candidate < c)
    ensures q < |paths| ==> paths[q].candidate >= c
    decreases |paths| - p
  {
    if p < |paths| && paths[p].candidate < c then PastPaths(paths, p + 1, c) else p
  }

  function PastHops(hops: seq<HopRec>, h: nat, c: int): (q: nat)
    requires h <= |hops|
    ensures h <= q <= |hops| && (forall j | h <= j < q :: hops[j].candidate < c)
    ensures q < |hops| ==> hops[q].candidate >= c
    decreases |hops| - h
  {
    if h < |hops| && hops[h].candidate < c then PastHops(hops, h + 1, c) else h
  }

  /** The end of a route's run of hops from where the hop cursor stands. */
  function RunEnd(hops: seq<HopRec>, h: nat, r: PathRec): (e: nat)
    requires h <= |hops|
    ensures h <= e <= |hops| && OwnedFrom(r, hops, h, e)
    ensures e < |hops| ==> !Owns(r, hops[e])
    decreases |hops| - h
  {
    if h < |hops| && Owns(r, hops[h]) then RunEnd(hops, h + 1, r) else h
  }

  function RelationsIn(hops: seq<HopRec>, m: nat, n: nat): (ids: seq<int>)
    requires m <= n <= |hops|
    ensures |ids| == n - m && forall k | 0 <= k < n - m :: ids[k] == hops[m + k].relation
    decreases n - m
  {
    if m == n then [] else RelationsIn(hops, m, n - 1) + [hops[n - 1].relation]
  }

  /** What one call answers and where it leaves the two cursors. */
  datatype Taken = Taken(routes: Result<seq<RelationPath>>, p: nat, h: nat)

  /** The candidate's routes from where the cursors stand, each with the run of hops
      that is next. */
  function Walk(paths: seq<PathRec>, hops: seq<HopRec>, p: nat, h: nat, c: int, out: seq<RelationPath>): (t: Taken)
    requires p <= |paths| && h <= |hops|
    ensures t.p <= |paths| && t.h <= |hops|
    decreases |paths| - p
  {
    if p == |paths| || paths[p].candidate != c then Taken(Ok(out), p, h)
    else
      var r := paths[p];
      var e := RunEnd(hops, h, r);
      if e - h != r.hopCount then Taken(MissingHops, p + 1, e)
      else Walk(paths, hops, p + 1, e, c, out + [RelationPath(RelationsIn(hops, h, e), r.evidence, r.cost)])
  }

  function Join(paths: seq<PathRec>, hops: seq<HopRec>, p: nat, h: nat, c: int): (t: Taken)
    requires p <= |paths| && h <= |hops|
    ensures t.p <= |paths| && t.h <= |hops|
  {
    Walk(paths, hops, PastPaths(paths, p, c), PastHops(hops, h, c), c, [])
  }

  class RouteCursors {
    const paths: seq<PathRec>
    const hops: seq<HopRec>
    var p: nat
    var h: nat

    ghost predicate Valid()
      reads this
    {
      p <= |paths| && h <= |hops|
    }

    constructor (paths: seq<PathRec>, hops: seq<HopRec>)
      ensures Valid() && this.paths == paths && this.hops == hops && p == 0 && h == 0
    {
      this.paths, this.hops, p, h := paths, hops, 0, 0;
    }

    /** Steps both cursors over the candidates nobody asks for. */
    method Skip(c: int)
      requires Valid()
      modifies this`p, this`h
      ensures Valid() && p == PastPaths(paths, old(p), c) && h == PastHops(hops, old(h), c)
    {
      while p < |paths| && paths[p].candidate < c
        invariant Valid() && h == old(h) && PastPaths(paths, p, c) == PastPaths(paths, old(p), c)
      {
        p := p + 1;
      }
      while h < |hops| && hops[h].candidate < c
        invariant Valid() && p == PastPaths(paths, old(p), c) && PastHops(hops, h, c) == PastHops(hops, old(h), c)
      {
        h := h + 1;
      }
    }

    /** The run of a route's hops, from where the hop cursor stands. */
    method TakeHops(r: PathRec) returns (relations: seq<int>)
      requires Valid()
      modifies this`h
      ensures Valid() && h == RunEnd(hops, old(h), r) && relations == RelationsIn(hops, old(h), h)
    {
      relations := [];
      while h < |hops| && Owns(r, hops[h])
        invariant old(h) <= h <= |hops| && RunEnd(hops, h, r) == RunEnd(hops, old(h), r)
        invariant relations == RelationsIn(hops, old(h), h)
      {
        relations := relations + [hops[h].relation];
        h := h + 1;
      }
    }

    /** The routes of one candidate, on any streams and from anywhere in them. */
    method Take(c: int) returns (r: Result<seq<RelationPath>>)
      requires Valid()
      modifies this`p, this`h
      ensures Valid() && Taken(r, p, h) == Join(paths, hops, old(p), old(h), c)
    {
      ghost var answer := Join(paths, hops, p, h, c);
      Skip(c);
      var out: seq<RelationPath> := [];
      assert Walk(paths, hops, p, h, c, []) == answer;
      while p < |paths| && paths[p].candidate == c
        invariant Valid() && Walk(paths, hops, p, h, c, out) == answer
        decreases |paths| - p
      {
        var route := paths[p];
        p := p + 1;
        var relations := TakeHops(route);
        if |relations| != route.hopCount {
          return MissingHops;
        }
        out := out + [RelationPath(relations, route.evidence, route.cost)];
      }
      r := Ok(out);
    }
  }

  // ----- the join on ordered streams -----

  /** The cursors have passed only candidates before c. */
  ghost predicate Reached(paths: seq<PathRec>, hops: seq<HopRec>, p: nat, h: nat, c: int) {
    && p <= |paths| && h <= |hops|
    && (forall i | 0 <= i < p :: paths[i].candidate < c)
    && (forall j | 0 <= j < h :: hops[j].candidate < c)
  }

  /** Every hop before the hop cursor is behind the route cursor's route, and every hop
      from it on is of that route or a later one. */
  ghost predicate Between(paths: seq<PathRec>, hops: seq<HopRec>, p: nat, h: nat)
    requires p <= |paths| && h <= |hops|
  {
    Past(paths, hops, p, h) && (p < |paths| ==> Behind(hops, h, paths[p]))
  }

  lemma {:induction false} RelationsAreHops(hops: seq<HopRec>, m: nat, n: nat, r: PathRec)
    requires m <= n <= |hops| && OwnedFrom(r, hops, m, n)
    ensures HopsOf(hops, n, r.candidate, r.path) == HopsOf(hops, m, r.candidate, r.path) + RelationsIn(hops, m, n)
    decreases n
  {
    if m < n {
      assert Owns(r, hops[n - 1]);
      RelationsAreHops(hops, m, n - 1, r);
    }
  }

  /** From where the hop cursor stands, and nothing of the candidate ahead of it being
      without a route, one route's run is all of that route's hops. */
  lemma RunIsWhole(paths: seq<PathRec>, hops: seq<HopRec>, p: nat, h: nat)
    requires InOrder(paths, hops) && p < |paths| && h <= |hops| && Between(paths, hops, p, h)
    requires Clear(paths, hops, h, paths[p].candidate)
    ensures var e := RunEnd(hops, h, paths[p]);
      && RelationsIn(hops, h, e) == RouteOf(paths[p], hops).relations
      && Between(paths, hops, p + 1, e)
  {
    var r := paths[p];
    var e := RunEnd(hops, h, r);
    NoHopsBetween(hops, 0, h, r.candidate, r.path);
    RelationsAreHops(hops, h, e, r);
    RunEnds(paths, hops, p, h, e);
    NextRoute(paths, hops, p, h, e);
  }

  lemma {:induction false} WalkIsGrouped(paths: seq<PathRec>, hops: seq<HopRec>, p: nat, h: nat, c: int,
                                         out: seq<RelationPath>)
    requires InOrder(paths, hops) && Reached(paths, hops, p, h, c + 1) && Between(paths, hops, p, h)
    requires Clear(paths, hops, h, c) && (p < |paths| ==> paths[p].candidate >= c)
    requires RoutesOf(paths, p, hops, c) == Ok(out)
    ensures Walk(paths, hops, p, h, c, out).routes == RoutesOf(paths, |paths|, hops, c)
    decreases |paths| - p
  {
    if p == |paths| || paths[p].candidate != c {
      if p < |paths| { AtLeast(paths, hops, p, c + 1); }
      NoneBetween(paths, p, |paths|, hops, c);
    } else {
      var r := paths[p];
      var e := RunEnd(hops, h, r);
      RunIsWhole(paths, hops, p, h);
      NextRoute(paths, hops, p, h, e);
      if e - h != r.hopCount {
        assert RoutesOf(paths, p + 1, hops, c) == MissingHops;
        MissingStays(paths, p + 1, hops, c);
      } else {
        var longer := out + [RouteOf(r, hops)];
        assert RoutesOf(paths, p + 1, hops, c) == Ok(longer);
        WalkIsGrouped(paths, hops, p + 1, e, c, longer);
        assert Walk(paths, hops, p, h, c, out) == Walk(paths, hops, p + 1, e, c, longer);
      }
    }
  }

  /** Where no hop of the candidate is without a route, the join is the grouped form. */
  lemma ClearJoin(paths: seq<PathRec>, hops: seq<HopRec>, p: nat, h: nat, c: int)
    requires InOrder(paths, hops) && Reached(paths, hops, p, h, c)
    requires forall j | 0 <= j < |hops| && hops[j].candidate == c :: HasOwner(paths, hops[j])
    ensures Join(paths, hops, p, h, c).routes == RoutesOf(paths, |paths|, hops, c)
  {
    var q, k := PastPaths(paths, p, c), PastHops(hops, h, c);
    assert Past(paths, hops, q, k) && Clear(paths, hops, k, c) by {
      if k < |hops| { HopsAtLeast(paths, hops, k, c); }
    }
    NoneBetween(paths, 0, q, hops, c);
    WalkIsGrouped(paths, hops, q, k, c, []);
  }

  /** The first hop of the candidate that belongs to no route, from n on. */
  ghost function FirstOrphan(paths: seq<PathRec>, hops: seq<HopRec>, n: nat, c: int): (j: nat)
    requires n <= |hops|
    ensures n <= j <= |hops|
    ensures forall i | n <= i < j && hops[i].candidate == c :: HasOwner(paths, hops[i])
    ensures j < |hops| ==> hops[j].candidate == c && !HasOwner(paths, hops[j])
    decreases |hops| - n
  {
    if n == |hops| || (hops[n].candidate == c && !HasOwner(paths, hops[n])) then n
    else FirstOrphan(paths, hops, n + 1, c)
  }

  /** The hops the join can get to for a candidate. */
  ghost function Seen(paths: seq<PathRec>, hops: seq<HopRec>, c: int): seq<HopRec> {
    hops[..FirstOrphan(paths, hops, 0, c)]
  }

  lemma {:induction false} RunCut(hops: seq<HopRec>, h: nat, j: nat, r: PathRec)
    requires h <= j < |hops| && !Owns(r, hops[j])
    ensures RunEnd(hops[..j], h, r) == RunEnd(hops, h, r) <= j
    decreases j - h
  {
    if h < j && Owns(r, hops[h]) { RunCut(hops, h + 1, j, r); }
  }

  lemma {:induction false} RelationsCut(hops: seq<HopRec>, m: nat, n: nat, j: nat)
    requires m <= n <= j <= |hops|
    ensures RelationsIn(hops[..j], m, n) == RelationsIn(hops, m, n)
  {
    if m < n { RelationsCut(hops, m, n - 1, j); }
  }

  /** The hop cursor never passes a hop that belongs to no route. */
  lemma {:induction false} WalkCut(paths: seq<PathRec>, hops: seq<HopRec>, p: nat, h: nat, j: nat, c: int,
                                   out: seq<RelationPath>)
    requires p <= |paths| && h <= j < |hops| && !HasOwner(paths, hops[j])
    ensures Walk(paths, hops[..j], p, h, c, out) == Walk(paths, hops, p, h, c, out)
    decreases |paths| - p
  {
    if p < |paths| && paths[p].candidate == c {
      var r := paths[p];
      var e := RunEnd(hops, h, r);
      RunCut(hops, h, j, r);
      RelationsCut(hops, h, e, j);
      if e - h == r.hopCount {
        WalkCut(paths, hops, p + 1, e, j, c, out + [RelationPath(RelationsIn(hops, h, e), r.evidence, r.cost)]);
      }
    }
  }

  lemma {:induction false} SkipCut(hops: seq<HopRec>, h: nat, j: nat, c: int)
    requires h <= j < |hops| && hops[j].candidate == c
    ensures PastHops(hops[..j], h, c) == PastHops(hops, h, c) <= j
    decreases j - h
  {
    if h < j && hops[h].candidate < c { SkipCut(hops, h + 1, j, c); }
  }

  /** In streams in order the join gives each candidate what the grouped form makes of
      the hops before the first of the candidate's that belongs to no route. */
  lemma JoinSees(paths: seq<PathRec>, hops: seq<HopRec>, p: nat, h: nat, c: int)
    requires InOrder(paths, hops) && Reached(paths, hops, p, h, c)
    ensures Join(paths, hops, p, h, c).routes == RoutesOf(paths, |paths|, Seen(paths, hops, c), c)
  {
    var j := FirstOrphan(paths, hops, 0, c);
    if j == |hops| {
      assert hops[..j] == hops;
      ClearJoin(paths, hops, p, h, c);
    } else {
      SkipCut(hops, h, j, c);
      WalkCut(paths, hops, PastPaths(paths, p, c), PastHops(hops, h, c), j, c, []);
      ClearJoin(paths, hops[..j], p, h, c);
    }
  }

  /** One call leaves the cursors where the next candidate may be asked for. */
  lemma {:induction false} WalkReaches(paths: seq<PathRec>, hops: seq<HopRec>, p: nat, h: nat, c: int,
                                       out: seq<RelationPath>)
    requires Reached(paths, hops, p, h, c + 1)
    ensures var t := Walk(paths, hops, p, h, c, out); Reached(paths, hops, t.p, t.h, c + 1)
    decreases |paths| - p
  {
    if p < |paths| && paths[p].candidate == c {
      var r := paths[p];
      var e := RunEnd(hops, h, r);
      assert forall j | h <= j < e :: Owns(r, hops[j]);
      if e - h == r.hopCount {
        WalkReaches(paths, hops, p + 1, e, c, out + [RelationPath(RelationsIn(hops, h, e), r.evidence, r.cost)]);
      }
    }
  }

  lemma JoinReaches(paths: seq<PathRec>, hops: seq<HopRec>, p: nat, h: nat, c: int)
    requires Reached(paths, hops, p, h, c)
    ensures var t := Join(paths, hops, p, h, c); Reached(paths, hops, t.p, t.h, c + 1)
  {
    WalkReaches(paths, hops, PastPaths(paths, p, c), PastHops(hops, h, c), c, []);
  }

  /** No hop of one of the candidate's routes stands behind a hop of the candidate that
      belongs to none. */
  ghost predicate Unblocked(paths: seq<PathRec>, hops: seq<HopRec>, c: int) {
    forall j, k | 0 <= j < k < |hops| && hops[j].candidate == hops[k].candidate == c && HasOwner(paths, hops[k]) ::
      HasOwner(paths, hops[j])
  }

  lemma {:induction false} SameRoutes(paths: seq<PathRec>, n: nat, a: seq<HopRec>, b: seq<HopRec>, c: int)
    requires n <= |paths|
    requires forall i | 0 <= i < n && paths[i].candidate == c :: RouteOf(paths[i], a) == RouteOf(paths[i], b)
    ensures RoutesOf(paths, n, a, c) == RoutesOf(paths, n, b, c)
  {
    if n > 0 { SameRoutes(paths, n - 1, a, b, c); }
  }

  lemma {:induction false} HopsCut(hops: seq<HopRec>, n: nat, j: nat, candidate: int, path: int)
    requires n <= j <= |hops|
    ensures HopsOf(hops[..j], n, candidate, path) == HopsOf(hops, n, candidate, path)
  {
    if n > 0 { HopsCut(hops, n - 1, j, candidate, path); }
  }

  /** Every route of a candidate that is given has as many hops as it declared. */
  lemma {:induction false} GivenCounts(paths: seq<PathRec>, n: nat, hops: seq<HopRec>, c: int, q: nat)
    requires q < n <= |paths| && paths[q].candidate == c && RoutesOf(paths, n, hops, c).Ok?
    ensures |RouteOf(paths[q], hops).relations| == paths[q].hopCount
  {
    if q < n - 1 { GivenCounts(paths, n - 1, hops, c, q); }
  }

  /** A hop of a route beyond what is seen is one the route is seen without. */
  lemma FewerSeen(hops: seq<HopRec>, j: nat, k: nat, r: PathRec)
    requires j <= k < |hops| && Owns(r, hops[k])
    ensures |RouteOf(r, hops[..j]).relations| < |RouteOf(r, hops).relations|
  {
    HopsCut(hops, j, j, r.candidate, r.path);
    HopsExtend(hops, j, k, r.candidate, r.path);
    HopsExtend(hops, k + 1, |hops|, r.candidate, r.path);
  }

  lemma SeenWhole(paths: seq<PathRec>, hops: seq<HopRec>, c: int)
    requires Unblocked(paths, hops, c)
    ensures RoutesOf(paths, |paths|, Seen(paths, hops, c), c) == RoutesOf(paths, |paths|, hops, c)
  {
    var j := FirstOrphan(paths, hops, 0, c);
    forall i | 0 <= i < |paths| && paths[i].candidate == c
      ensures RouteOf(paths[i], hops[..j]) == RouteOf(paths[i], hops)
    {
      var r := paths[i];
      forall k | j <= k < |hops| ensures !Owns(r, hops[k]) {
        if Owns(r, hops[k]) { assert HasOwner(paths, hops[k]); }
      }
      HopsCut(hops, j, j, c, r.path);
      NoHopsBetween(hops, j, |hops|, c, r.path);
    }
    SameRoutes(paths, |paths|, hops[..j], hops, c);
  }

  /** Exactly when the join gives a candidate the routes the grouped form gives it: when
      no orphan hop of the candidate stands in front of a hop of one of its routes. */
  lemma JoinExact(paths: seq<PathRec>, hops: seq<HopRec>, p: nat, h: nat, c: int)
    requires InOrder(paths, hops) && Reached(paths, hops, p, h, c)
    ensures var joined, grouped := Join(paths, hops, p, h, c).routes, RoutesOf(paths, |paths|, hops, c);
      && (Unblocked(paths, hops, c) ==> joined == grouped)
      && (grouped.Ok? ==> (joined == grouped <==> Unblocked(paths, hops, c)))
  {
    JoinSees(paths, hops, p, h, c);
    if Unblocked(paths, hops, c) {
      SeenWhole(paths, hops, c);
    } else if RoutesOf(paths, |paths|, hops, c).Ok? {
      BlockedRefuses(paths, hops, c);
    }
  }

  lemma BlockedRefuses(paths: seq<PathRec>, hops: seq<HopRec>, c: int)
    requires !Unblocked(paths, hops, c) && RoutesOf(paths, |paths|, hops, c).Ok?
    ensures RoutesOf(paths, |paths|, Seen(paths, hops, c), c).MissingHops?
  {
    var i, k :| 0 <= i < k < |hops| && hops[i].candidate == hops[k].candidate == c
      && HasOwner(paths, hops[k]) && !HasOwner(paths, hops[i]);
    var q :| 0 <= q < |paths| && Owns(paths[q], hops[k]);
    FewerSeen(hops, FirstOrphan(paths, hops, 0, c), k, paths[q]);
    GivenCounts(paths, |paths|, hops, c, q);
    if RoutesOf(paths, |paths|, Seen(paths, hops, c), c).Ok? {
      GivenCounts(paths, |paths|, Seen(paths, hops, c), c, q);
    }
  }

  /** So where no orphan hop blocks a candidate, and in particular where every hop belongs
      to a route, the join gives the candidates asked for in increasing order what the
      grouped form gives each. */
  lemma JoinIsGrouped(paths: seq<PathRec>, hops: seq<HopRec>, p: nat, h: nat, c: int)
    requires InOrder(paths, hops) && Reached(paths, hops, p, h, c)
    requires Unblocked(paths, hops, c) || forall j | 0 <= j < |hops| :: HasOwner(paths, hops[j])
    ensures var t := Join(paths, hops, p, h, c);
      t.routes == RoutesOf(paths, |paths|, hops, c) && Reached(paths, hops, t.p, t.h, c + 1)
  {
    JoinExact(paths, hops, p, h, c);
    JoinReaches(paths, hops, p, h, c);
  }

  // ----- the join on any streams -----

  lemma {:induction false} HopsExtend(hops: seq<HopRec>, m: nat, n: nat, candidate: int, path: int)
    requires m <= n <= |hops|
    ensures HopsOf(hops, m, candidate, path) <= HopsOf(hops, n, candidate, path)
    decreases n
  {
    if m < n { HopsExtend(hops, m, n - 1, candidate, path); }
  }

  /** A run as long as all of a route's hops is all of them. */
  lemma RunIsAll(hops: seq<HopRec>, h: nat, r: PathRec)
    requires h <= |hops| && |RouteOf(r, hops).relations| == RunEnd(hops, h, r) - h
    ensures RouteOf(r, hops).relations == RelationsIn(hops, h, RunEnd(hops, h, r))
  {
    var e := RunEnd(hops, h, r);
    RelationsAreHops(hops, h, e, r);
    HopsExtend(hops, e, |hops|, r.candidate, r.path);
  }

  ghost predicate CandidatesAscend(paths: seq<PathRec>) {
    forall i, j | 0 <= i < j < |paths| :: paths[i].candidate <= paths[j].candidate
  }

  lemma {:induction false} WalkAgrees(paths: seq<PathRec>, hops: seq<HopRec>, p: nat, h: nat, c: int,
                                      out: seq<RelationPath>)
    requires p <= |paths| && h <= |hops| && CandidatesAscend(paths)
    requires p < |paths| ==> paths[p].candidate >= c
    requires RoutesOf(paths, p, hops, c) == Ok(out)
    requires Walk(paths, hops, p, h, c, out).routes.Ok? && RoutesOf(paths, |paths|, hops, c).Ok?
    ensures Walk(paths, hops, p, h, c, out).routes == RoutesOf(paths, |paths|, hops, c)
    decreases |paths| - p
  {
    if p == |paths| || paths[p].candidate != c {
      NoneBetween(paths, p, |paths|, hops, c);
    } else {
      var r := paths[p];
      if RoutesOf(paths, p + 1, hops, c).MissingHops? {
        MissingStays(paths, p + 1, hops, c);
      }
      RunIsAll(hops, h, r);
      WalkAgrees(paths, hops, p + 1, RunEnd(hops, h, r), c, out + [RouteOf(r, hops)]);
    }
  }

  /** Whatever the hop stream holds and wherever the cursors are, the join never gives a
      candidate routes other than its own: it differs from the grouped form only when one
      of the two refuses. */
  lemma JoinNeverMixes(paths: seq<PathRec>, hops: seq<HopRec>, p: nat, h: nat, c: int)
    requires CandidatesAscend(paths) && p <= |paths| && h <= |hops|
    requires forall i | 0 <= i < p :: paths[i].candidate < c
    ensures var joined, grouped := Join(paths, hops, p, h, c).routes, RoutesOf(paths, |paths|, hops, c);
      joined == grouped <==> (joined.Ok? <==> grouped.Ok?)
  {
    var joined, grouped := Join(paths, hops, p, h, c).routes, RoutesOf(paths, |paths|, hops, c);
    var q := PastPaths(paths, p, c);
    NoneBetween(paths, 0, q, hops, c);
    if joined.Ok? && grouped.Ok? {
      WalkAgrees(paths, hops, q, PastHops(hops, h, c), c, []);
    }
  }

  // ----- the grouped form -----

  /** One candidate's records of a stream. */
  function PathsAt(paths: seq<PathRec>, candidate: int): seq<PathRec> {
    if paths == [] then []
    else
      var r := paths[|paths| - 1];
      PathsAt(paths[..|paths| - 1], candidate) + if r.candidate == candidate then [r] else []
  }

  function HopsAt(hops: seq<HopRec>, candidate: int): seq<HopRec> {
    if hops == [] then []
    else
      var h := hops[|hops| - 1];
      HopsAt(hops[..|hops| - 1], candidate) + if h.candidate == candidate then [h] else []
  }

  /** A candidate's relations by route. */
  ghost predicate ByPath(byPath: map<int, seq<int>>, hops: seq<HopRec>, n: nat, candidate: int)
    requires n <= |hops|
  {
    forall k :: At(byPath, k) == HopsOf(hops, n, candidate, k)
  }

  function At(byPath: map<int, seq<int>>, k: int): seq<int> {
    if k in byPath then byPath[k] else []
  }

  function Gathered(byPath: map<int, seq<int>>, h: HopRec): map<int, seq<int>> {
    byPath[h.path := At(byPath, h.path) + [h.relation]]
  }

  lemma GatherKeeps(byPath: map<int, seq<int>>, hops: seq<HopRec>, n: nat, candidate: int)
    requires n < |hops| && hops[n].candidate == candidate && ByPath(byPath, hops, n, candidate)
    ensures ByPath(Gathered(byPath, hops[n]), hops, n + 1, candidate)
  {
    forall k ensures At(Gathered(byPath, hops[n]), k) == HopsOf(hops, n + 1, candidate, k) {
      assert At(byPath, k) == HopsOf(hops, n, candidate, k);
    }
  }

  // ----- what the hops say of each relation -----

  /** The floor an edge of no or of weaker evidence is read at. */
  const FLOOR: int := FixedPoint.PrecisionMultiplier(FixedPoint.Heuristic)

  function Precision(h: HopRec): int {
    if h.multiplier < FLOOR then FLOOR else h.multiplier
  }

  ghost predicate Named(hops: seq<HopRec>, n: nat, id: int)
    requires n <= |hops|
  {
    exists j :: 0 <= j < n && hops[j].relation == id
  }

  /** k is the first kind any of the relation's first n hops names, or empty if none does. */
  ghost predicate FirstKind(hops: seq<HopRec>, n: nat, id: int, k: string)
    requires n <= |hops|
  {
    if k == "" then forall j | 0 <= j < n && hops[j].relation == id :: hops[j].kind == ""
    else
      exists j :: 0 <= j < n && hops[j].relation == id && hops[j].kind == k
        && forall i | 0 <= i < j && hops[i].relation == id :: hops[i].kind == ""
  }

  /** m is the highest multiplier any of the relation's first n hops carries, or the floor
      when none carries more. */
  ghost predicate MostPrecise(hops: seq<HopRec>, n: nat, id: int, m: int)
    requires n <= |hops|
  {
    && m >= 450_000
    && (forall j | 0 <= j < n && hops[j].relation == id :: hops[j].multiplier <= m)
    && (m == 450_000 || exists j :: 0 <= j < n && hops[j].relation == id && hops[j].multiplier == m)
  }

  ghost predicate KindsOf(kinds: map<int, string>, hops: seq<HopRec>, n: nat)
    requires n <= |hops|
  {
    && (forall id :: id in kinds <==> Named(hops, n, id))
    && forall id | id in kinds :: FirstKind(hops, n, id, kinds[id])
  }

  ghost predicate PrecisionsOf(precision: map<int, int>, hops: seq<HopRec>, n: nat)
    requires n <= |hops|
  {
    && (forall id :: id in precision <==> Named(hops, n, id))
    && forall id | id in precision :: MostPrecise(hops, n, id, precision[id])
  }

  function WithKind(kinds: map<int, string>, h: HopRec): map<int, string> {
    if h.relation !in kinds || (kinds[h.relation] == "" && h.kind != "") then kinds[h.relation := h.kind] else kinds
  }

  function WithPrecision(precision: map<int, int>, h: HopRec): map<int, int> {
    var before := if h.relation in precision then precision[h.relation] else 0;
    if Precision(h) > before then precision[h.relation := Precision(h)] else precision
  }

  lemma NamedNext(hops: seq<HopRec>, n: nat, id: int)
    requires n < |hops|
    ensures Named(hops, n + 1, id) <==> Named(hops, n, id) || hops[n].relation == id
  {
  }

  lemma FirstKindNext(hops: seq<HopRec>, n: nat, id: int, k: string)
    requires n < |hops| && FirstKind(hops, n, id, k)
    ensures FirstKind(hops, n + 1, id, if hops[n].relation == id && k == "" then hops[n].kind else k)
  {
    if k == "" && hops[n].relation == id && hops[n].kind != "" {
      assert hops[n].relation == id && hops[n].kind == hops[n].kind;
    } else if k != "" {
      var j :| 0 <= j < n && hops[j].relation == id && hops[j].kind == k
        && forall i | 0 <= i < j && hops[i].relation == id :: hops[i].kind == "";
      assert hops[j].relation == id && hops[j].kind == k;
    }
  }

  lemma KindsNext(kinds: map<int, string>, hops: seq<HopRec>, n: nat)
    requires n < |hops| && KindsOf(kinds, hops, n)
    ensures KindsOf(WithKind(kinds, hops[n]), hops, n + 1)
  {
    var after := WithKind(kinds, hops[n]);
    forall id ensures id in after <==> Named(hops, n + 1, id) { NamedNext(hops, n, id); }
    forall id | id in after ensures FirstKind(hops, n + 1, id, after[id]) {
      if id in kinds {
        FirstKindNext(hops, n, id, kinds[id]);
      } else {
        assert !Named(hops, n, id);
        FirstKindNext(hops, n, id, "");
      }
    }
  }

  lemma MostPreciseNext(hops: seq<HopRec>, n: nat, id: int, m: int)
    requires n < |hops| && MostPrecise(hops, n, id, m)
    ensures hops[n].relation == id && Precision(hops[n]) > m ==> MostPrecise(hops, n + 1, id, Precision(hops[n]))
    ensures !(hops[n].relation == id && Precision(hops[n]) > m) ==> MostPrecise(hops, n + 1, id, m)
  {
  }

  lemma FirstPrecise(hops: seq<HopRec>, n: nat, id: int)
    requires n < |hops| && !Named(hops, n, id) && hops[n].relation == id
    ensures MostPrecise(hops, n + 1, id, Precision(hops[n]))
  {
  }

  lemma PrecisionsNext(precision: map<int, int>, hops: seq<HopRec>, n: nat)
    requires n < |hops| && PrecisionsOf(precision, hops, n)
    ensures PrecisionsOf(WithPrecision(precision, hops[n]), hops, n + 1)
  {
    var after := WithPrecision(precision, hops[n]);
    forall id ensures id in after <==> Named(hops, n + 1, id) { NamedNext(hops, n, id); }
    forall id | id in after ensures MostPrecise(hops, n + 1, id, after[id]) {
      if id in precision {
        MostPreciseNext(hops, n, id, precision[id]);
      } else {
        FirstPrecise(hops, n, id);
      }
    }
  }

  /** A candidate's routes and what its hops say of the relations they cross. */
  datatype WorkingSet = WorkingSet(paths: seq<RelationPath>, kinds: map<int, string>, precision: map<int, int>)

  method GatherHops(candidate: int, hops: seq<HopRec>)
    returns (byPath: map<int, seq<int>>, kinds: map<int, string>, precision: map<int, int>)
    requires forall j | 0 <= j < |hops| :: hops[j].candidate == candidate
    ensures ByPath(byPath, hops, |hops|, candidate)
    ensures KindsOf(kinds, hops, |hops|) && PrecisionsOf(precision, hops, |hops|)
  {
    byPath, kinds, precision := map[], map[], map[];
    for j := 0 to |hops|
      invariant ByPath(byPath, hops, j, candidate)
      invariant KindsOf(kinds, hops, j) && PrecisionsOf(precision, hops, j)
    {
      GatherKeeps(byPath, hops, j, candidate);
      KindsNext(kinds, hops, j);
      PrecisionsNext(precision, hops, j);
      byPath := Gathered(byPath, hops[j]);
      precision := WithPrecision(precision, hops[j]);
      kinds := WithKind(kinds, hops[j]);
    }
  }

  /** These are the places of a route's hops among the first n, in order. */
  ghost predicate HopPlaces(at: seq<nat>, hops: seq<HopRec>, n: nat, candidate: int, path: int)
    requires n <= |hops|
  {
    && (forall k | 0 <= k < |at| :: at[k] < n && hops[at[k]].candidate == candidate && hops[at[k]].path == path)
    && (forall j, k | 0 <= j < k < |at| :: at[j] < at[k])
    && forall i | 0 <= i < n && hops[i].candidate == candidate && hops[i].path == path :: i in at
  }

  /** A route rebuilt: its own evidence and cost, and as many relations as it declared, those
      of its hops in the order they are stored in. */
  ghost predicate Rebuilt(out: RelationPath, r: PathRec, hops: seq<HopRec>) {
    && out.evidence == r.evidence && out.cost == r.cost && |out.relations| == r.hopCount
    && exists at :: HopPlaces(at, hops, |hops|, r.candidate, r.path) && RelationsAt(at, hops, out.relations)
  }

  ghost predicate RelationsAt(at: seq<nat>, hops: seq<HopRec>, relations: seq<int>) {
    |at| == |relations| && forall k | 0 <= k < |at| :: at[k] < |hops| && relations[k] == hops[at[k]].relation
  }

  lemma {:induction false} HopsPlaced(hops: seq<HopRec>, n: nat, candidate: int, path: int) returns (at: seq<nat>)
    requires n <= |hops|
    ensures HopPlaces(at, hops, n, candidate, path) && RelationsAt(at, hops, HopsOf(hops, n, candidate, path))
  {
    at := [];
    if n > 0 {
      at := HopsPlaced(hops, n - 1, candidate, path);
      if hops[n - 1].candidate == candidate && hops[n - 1].path == path { at := at + [n - 1]; }
    }
  }

  lemma RebuiltFrom(r: PathRec, hops: seq<HopRec>)
    requires |RouteOf(r, hops).relations| == r.hopCount
    ensures Rebuilt(RouteOf(r, hops), r, hops)
  {
    var at := HopsPlaced(hops, |hops|, r.candidate, r.path);
  }

  ghost predicate AllRebuilt(out: seq<RelationPath>, routes: seq<PathRec>, n: nat, hops: seq<HopRec>) {
    |out| == n <= |routes| && forall i | 0 <= i < n :: Rebuilt(out[i], routes[i], hops)
  }

  /** One candidate's routes come back one by one, in order. */
  lemma {:induction false} RoutesRebuilt(routes: seq<PathRec>, n: nat, hops: seq<HopRec>, candidate: int)
    requires n <= |routes| && (forall i | 0 <= i < n :: routes[i].candidate == candidate)
    requires RoutesOf(routes, n, hops, candidate).Ok?
    ensures AllRebuilt(RoutesOf(routes, n, hops, candidate).value, routes, n, hops)
  {
    if n > 0 {
      RoutesRebuilt(routes, n - 1, hops, candidate);
      OneRebuilt(RoutesOf(routes, n - 1, hops, candidate).value, routes, n - 1, hops);
    }
  }

  lemma OneRebuilt(out: seq<RelationPath>, routes: seq<PathRec>, n: nat, hops: seq<HopRec>)
    requires AllRebuilt(out, routes, n, hops) && n < |routes|
    requires |RouteOf(routes[n], hops).relations| == routes[n].hopCount
    ensures AllRebuilt(out + [RouteOf(routes[n], hops)], routes, n + 1, hops)
  {
    RebuiltFrom(routes[n], hops);
  }

  /** Gathers one candidate's hops by route, then puts its routes together. */
  method RebuildRoutes(candidate: int, routes: seq<PathRec>, hops: seq<HopRec>) returns (r: Result<WorkingSet>)
    requires forall i | 0 <= i < |routes| :: routes[i].candidate == candidate
    requires forall j | 0 <= j < |hops| :: hops[j].candidate == candidate
    ensures r.Ok? <==> RoutesOf(routes, |routes|, hops, candidate).Ok?
    ensures r.Ok? ==>
      && RoutesOf(routes, |routes|, hops, candidate) == Ok(r.value.paths)
      && AllRebuilt(r.value.paths, routes, |routes|, hops)
      && KindsOf(r.value.kinds, hops, |hops|) && PrecisionsOf(r.value.precision, hops, |hops|)
  {
    var byPath, kinds, precision := GatherHops(candidate, hops);
    var out := [];
    for i := 0 to |routes|
      invariant RoutesOf(routes, i, hops, candidate) == Ok(out)
    {
      var run := At(byPath, routes[i].path);
      assert run == RouteOf(routes[i], hops).relations;
      if |run| != routes[i].hopCount {
        MissingStays(routes, i + 1, hops, candidate);
        return MissingHops;
      }
      out := out + [RelationPath(run, routes[i].evidence, routes[i].cost)];
    }
    RoutesRebuilt(routes, |routes|, hops, candidate);
    r := Ok(WorkingSet(out, kinds, precision));
  }

  lemma {:induction false} HopsOfGroup(hops: seq<HopRec>, n: nat, candidate: int, path: int)
    requires n <= |hops|
    ensures var own := HopsAt(hops[..n], candidate);
      HopsOf(own, |own|, candidate, path) == HopsOf(hops, n, candidate, path)
  {
    if n > 0 {
      HopsOfGroup(hops, n - 1, candidate, path);
      assert hops[..n][..n - 1] == hops[..n - 1];
      var own := HopsAt(hops[..n - 1], candidate);
      if hops[n - 1].candidate == candidate {
        assert HopsAt(hops[..n], candidate) == own + [hops[n - 1]];
        assert (own + [hops[n - 1]])[|own|] == hops[n - 1];
        HopsPrefix(own, [hops[n - 1]], |own|, candidate, path);
      } else {
        assert HopsAt(hops[..n], candidate) == own;
      }
    }
  }

  lemma {:induction false} HopsPrefix(a: seq<HopRec>, b: seq<HopRec>, n: nat, candidate: int, path: int)
    requires n <= |a|
    ensures HopsOf(a + b, n, candidate, path) == HopsOf(a, n, candidate, path)
  {
    if n > 0 { HopsPrefix(a, b, n - 1, candidate, path); }
  }

  lemma {:induction false} RoutesPrefix(a: seq<PathRec>, b: seq<PathRec>, n: nat, hops: seq<HopRec>, candidate: int)
    requires n <= |a|
    ensures RoutesOf(a + b, n, hops, candidate) == RoutesOf(a, n, hops, candidate)
  {
    if n > 0 { RoutesPrefix(a, b, n - 1, hops, candidate); }
  }

  /** What the whole streams hold for a candidate is what its own records hold. */
  lemma {:induction false} RoutesOfGroup(paths: seq<PathRec>, n: nat, hops: seq<HopRec>, candidate: int)
    requires n <= |paths|
    ensures var own := PathsAt(paths[..n], candidate);
      RoutesOf(own, |own|, HopsAt(hops, candidate), candidate) == RoutesOf(paths, n, hops, candidate)
  {
    if n > 0 {
      RoutesOfGroup(paths, n - 1, hops, candidate);
      assert paths[..n][..n - 1] == paths[..n - 1];
      var own := PathsAt(paths[..n - 1], candidate);
      if paths[n - 1].candidate != candidate {
        assert PathsAt(paths[..n], candidate) == own;
      } else {
        assert PathsAt(paths[..n], candidate) == own + [paths[n - 1]];
        assert (own + [paths[n - 1]])[|own|] == paths[n - 1];
        RoutesPrefix(own, [paths[n - 1]], |own|, HopsAt(hops, candidate), candidate);
        HopsOfGroup(hops, |hops|, candidate, paths[n - 1].path);
        assert hops[..|hops|] == hops;
        assert RouteOf(paths[n - 1], HopsAt(hops, candidate)) == RouteOf(paths[n - 1], hops);
      }
    }
  }

  /** The answer for a candidate is the grouped rebuild's of its own records, unless an
      orphan hop stands in front of one of its routes' hops and the rebuild gives routes. */
  ghost predicate GivesGrouped(paths: seq<PathRec>, hops: seq<HopRec>, c: int, r: Result<seq<RelationPath>>) {
    var own := PathsAt(paths, c);
    var grouped := RoutesOf(own, |own|, HopsAt(hops, c), c);
    && (Unblocked(paths, hops, c) ==> r == grouped)
    && (grouped.Ok? ==> (r == grouped <==> Unblocked(paths, hops, c)))
  }

  lemma JoinGives(paths: seq<PathRec>, hops: seq<HopRec>, p: nat, h: nat, c: int)
    requires InOrder(paths, hops) && Reached(paths, hops, p, h, c)
    ensures var t := Join(paths, hops, p, h, c);
      GivesGrouped(paths, hops, c, t.routes) && Reached(paths, hops, t.p, t.h, c + 1)
  {
    JoinExact(paths, hops, p, h, c);
    JoinReaches(paths, hops, p, h, c);
    RoutesOfGroup(paths, |paths|, hops, c);
    assert paths[..|paths|] == paths;
  }

  /** The join gives every candidate asked for, in increasing order, the routes the
      grouped rebuild gives it, or the same refusal, wherever no orphan hop stands in
      front of the candidate's own; and where one does it gives none of the rebuild's. */
  method TakeAll(paths: seq<PathRec>, hops: seq<HopRec>, asked: seq<int>) returns (all: seq<Result<seq<RelationPath>>>)
    requires InOrder(paths, hops)
    requires forall i, j | 0 <= i < j < |asked| :: asked[i] < asked[j]
    ensures |all| == |asked|
    ensures forall i | 0 <= i < |asked| :: GivesGrouped(paths, hops, asked[i], all[i])
  {
    all := [];
    var cursors := new RouteCursors(paths, hops);
    for i := 0 to |asked|
      invariant fresh(cursors) && cursors.Valid() && cursors.paths == paths && cursors.hops == hops
      invariant |all| == i && (i < |asked| ==> Reached(paths, hops, cursors.p, cursors.h, asked[i]))
      invariant forall k | 0 <= k < i :: GivesGrouped(paths, hops, asked[k], all[k])
    {
      JoinGives(paths, hops, cursors.p, cursors.h, asked[i]);
      var r := cursors.Take(asked[i]);
      all := all + [r];
    }
  }

  /** A hop of no route blocks the join, which then misses the next route's hops, while
      the grouped rebuild never looks at it: an input where the two differ. */
  lemma OrphanHop(orphan: HopRec, own: HopRec, r: PathRec)
    requires r.candidate == own.candidate == orphan.candidate && orphan.path < own.path == r.path && r.hopCount == 1
    ensures InOrder([r], [orphan, own]) && !Owns(r, orphan) && !Unblocked([r], [orphan, own], r.candidate)
    ensures Join([r], [orphan, own], 0, 0, r.candidate).routes == MissingHops
    ensures RoutesOf([r], 1, [orphan, own], r.candidate) == Ok([RelationPath([own.relation], r.evidence, r.cost)])
  {
    var hops := [orphan, own];
    assert !HasOwner([r], hops[0]);
    assert HasOwner([r], hops[1]) by { assert Owns([r][0], hops[1]); }
    assert RunEnd(hops, 0, r) == 0;
    assert Walk([r], hops, 0, 0, r.candidate, []) == Taken(MissingHops, 1, 0) by { assert [r][0] == r; }
    OneRoute(orphan, own, r);
  }

  lemma OneRoute(orphan: HopRec, own: HopRec, r: PathRec)
    requires r.candidate == own.candidate && own.path == r.path && r.hopCount == 1 && !Owns(r, orphan)
    ensures RoutesOf([r], 1, [orphan, own], r.candidate) == Ok([RelationPath([own.relation], r.evidence, r.cost)])
  {
    var hops := [orphan, own];
    assert HopsOf(hops, 1, r.candidate, r.path) == [];
    assert HopsOf(hops, 2, r.candidate, r.path) == [own.relation];
    assert RoutesOf([r], 0, hops, r.candidate) == Ok([]);
    var route := RouteOf(r, hops);
    assert route == RelationPath([own.relation], r.evidence, r.cost);
    assert [r][0] == r;
    assert RoutesOf([r], 1, hops, r.candidate) == Ok([] + [route]);
    assert [] + [route] == [route];
  }
}
