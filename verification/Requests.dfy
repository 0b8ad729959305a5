/** The identity of a compile request: its seeds are sorted and joined by a separator
    behind their count, so the identity names the seeds only while the separator
    is in none of them. */
module Requests {
  import opened Preimage
  import opened Manifest

  const SEPARATOR: char := '\0'

  datatype Request = Request(task: string, seeds: seq<string>, phase: string, budget: Budget)

  // ----- sorting -----

  predicate LexLe(a: string, b: string) {
    a == [] || (b != [] && (a[0] < b[0] || (a[0] == b[0] && LexLe(a[1..], b[1..]))))
  }

  lemma {:induction false} LexTotal(a: string, b: string)
    ensures LexLe(a, b) || LexLe(b, a)
  {
    if a != [] && b != [] && a[0] == b[0] { LexTotal(a[1..], b[1..]); }
  }

  lemma {:induction false} LexAntisymmetric(a: string, b: string)
    requires LexLe(a, b) && LexLe(b, a)
    ensures a == b
  {
    if a != [] && b != [] {
      LexAntisymmetric(a[1..], b[1..]);
      assert a == [a[0]] + a[1..] && b == [b[0]] + b[1..];
    }
  }

  lemma {:induction false} LexTransitive(a: string, b: string, c: string)
    requires LexLe(a, b) && LexLe(b, c)
    ensures LexLe(a, c)
  {
    if a != [] && a[0] == b[0] == c[0] { LexTransitive(a[1..], b[1..], c[1..]); }
  }

  predicate Ordered(xs: seq<string>) {
    forall i, j | 0 <= i < j < |xs| :: LexLe(xs[i], xs[j])
  }

  function Insert(x: string, xs: seq<string>): (r: seq<string>)
    ensures multiset(r) == multiset(xs) + multiset{x} && |r| == |xs| + 1
  {
    if xs == [] then [x]
    else if LexLe(x, xs[0]) then [x] + xs
    else
      assert xs == [xs[0]] + xs[1..];
      [xs[0]] + Insert(x, xs[1..])
  }

  function Sorted(xs: seq<string>): (r: seq<string>)
    ensures multiset(r) == multiset(xs) && |r| == |xs|
  {
    if xs == [] then []
    else
      assert xs == [xs[0]] + xs[1..];
      Insert(xs[0], Sorted(xs[1..]))
  }

  lemma {:induction false} InsertOrdered(x: string, xs: seq<string>)
    requires Ordered(xs)
    ensures Ordered(Insert(x, xs))
  {
    if xs != [] {
      if LexLe(x, xs[0]) {
        forall j | 0 <= j < |xs| ensures LexLe(x, xs[j]) {
          if j > 0 { LexTransitive(x, xs[0], xs[j]); }
        }
      } else {
        var rest := Insert(x, xs[1..]);
        InsertOrdered(x, xs[1..]);
        LexTotal(x, xs[0]);
        forall j | 0 <= j < |rest| ensures LexLe(xs[0], rest[j]) {
          assert rest[j] in multiset(rest);
          assert rest[j] == x || rest[j] in xs[1..];
        }
      }
    }
  }

  lemma {:induction false} SortedOrdered(xs: seq<string>)
    ensures Ordered(Sorted(xs))
  {
    if xs != [] {
      SortedOrdered(xs[1..]);
      InsertOrdered(xs[0], Sorted(xs[1..]));
    }
  }

  lemma LeastFirst(a: seq<string>, x: string)
    requires Ordered(a) && x in multiset(a)
    ensures LexLe(a[0], x)
  {
    var k :| 0 <= k < |a| && a[k] == x;
    LexTotal(x, x);
  }

  lemma TailBag(a: seq<string>)
    requires a != []
    ensures multiset(a[1..]) == multiset(a) - multiset{a[0]} && a[0] in multiset(a)
  {
    assert a == [a[0]] + a[1..];
  }

  lemma SameFirst(a: seq<string>, b: seq<string>)
    requires Ordered(a) && Ordered(b) && multiset(a) == multiset(b) && a != [] && b != []
    ensures a[0] == b[0]
  {
    TailBag(a);
    TailBag(b);
    LeastFirst(a, b[0]);
    LeastFirst(b, a[0]);
    LexAntisymmetric(a[0], b[0]);
  }

  lemma SameLength(a: seq<string>, b: seq<string>)
    requires multiset(a) == multiset(b)
    ensures |a| == |b|
  {
    assert |a| == |multiset(a)| == |multiset(b)| == |b|;
  }

  /** One order for each bag of seeds. */
  lemma {:induction false} OrderedUnique(a: seq<string>, b: seq<string>)
    requires Ordered(a) && Ordered(b) && multiset(a) == multiset(b)
    ensures a == b
  {
    SameLength(a, b);
    if a != [] {
      SameFirst(a, b);
      TailBag(a);
      TailBag(b);
      OrderedUnique(a[1..], b[1..]);
      assert a == [a[0]] + a[1..] && b == [b[0]] + b[1..];
    }
  }

  // ----- joining -----

  function Join(xs: seq<string>): string {
    if xs == [] then []
    else if |xs| == 1 then xs[0]
    else xs[0] + [SEPARATOR] + Join(xs[1..])
  }

  function Separators(s: string): nat {
    if s == [] then 0 else (if s[0] == SEPARATOR then 1 else 0) + Separators(s[1..])
  }

  function AllSeparators(xs: seq<string>): nat {
    if xs == [] then 0 else Separators(xs[0]) + AllSeparators(xs[1..])
  }

  lemma {:induction false} SeparatorsAppend(a: string, b: string)
    ensures Separators(a + b) == Separators(a) + Separators(b)
  {
    if a == [] {
      assert a + b == b;
    } else {
      assert (a + b)[1..] == a[1..] + b;
      SeparatorsAppend(a[1..], b);
    }
  }

  lemma {:induction false} SeparatorsJoin(xs: seq<string>)
    requires xs != []
    ensures Separators(Join(xs)) == |xs| - 1 + AllSeparators(xs)
  {
    if |xs| > 1 {
      SeparatorsJoin(xs[1..]);
      SeparatorsAppend(xs[0] + [SEPARATOR], Join(xs[1..]));
      SeparatorsAppend(xs[0], [SEPARATOR]);
    }
  }

  lemma {:induction false} NoSeparators(s: string)
    ensures Separators(s) == 0 <==> SEPARATOR !in s
  {
    if s != [] {
      NoSeparators(s[1..]);
      assert s == [s[0]] + s[1..];
    }
  }

  predicate Clean(xs: seq<string>) {
    forall i | 0 <= i < |xs| :: SEPARATOR !in xs[i]
  }

  lemma {:induction false} CleanCount(xs: seq<string>)
    ensures AllSeparators(xs) == 0 <==> Clean(xs)
  {
    if xs != [] {
      NoSeparators(xs[0]);
      CleanCount(xs[1..]);
      assert forall i | 0 < i < |xs| :: xs[i] == xs[1..][i - 1];
    }
  }

  /** A seed list of a known count is recovered from its join when either list that
      could have given it is clean. */
  lemma JoinDetermines(a: seq<string>, b: seq<string>)
    requires |a| == |b| && Join(a) == Join(b) && Clean(a)
    ensures a == b
  {
    if a != [] {
      SeparatorsJoin(a);
      SeparatorsJoin(b);
      CleanCount(a);
      CleanCount(b);
      SplitUnique(a, b);
    }
  }

  /** Where a join is first cut. */
  function FirstCut(s: string): nat {
    if s == [] || s[0] == SEPARATOR then 0 else 1 + FirstCut(s[1..])
  }

  lemma {:induction false} CutBehind(s: string, rest: string)
    requires SEPARATOR !in s
    ensures FirstCut(s + [SEPARATOR] + rest) == |s|
  {
    if s == [] {
      assert [] + [SEPARATOR] + rest == [SEPARATOR] + rest;
    } else {
      assert (s + [SEPARATOR] + rest)[1..] == s[1..] + [SEPARATOR] + rest;
      CutBehind(s[1..], rest);
    }
  }

  lemma {:induction false} SplitUnique(a: seq<string>, b: seq<string>)
    requires |a| == |b| > 0 && Join(a) == Join(b) && Clean(a) && Clean(b)
    ensures a == b
  {
    if |a| > 1 {
      CutBehind(a[0], Join(a[1..]));
      CutBehind(b[0], Join(b[1..]));
      assert Join(a)[..|a[0]|] == a[0] && Join(a)[|a[0]| + 1..] == Join(a[1..]);
      assert Join(b)[..|b[0]|] == b[0] && Join(b)[|b[0]| + 1..] == Join(b[1..]);
      SplitUnique(a[1..], b[1..]);
      assert a == [a[0]] + a[1..] && b == [b[0]] + b[1..];
    }
  }

  // ----- the identity -----

  function RequestComponents(r: Request): seq<string> {
    [r.task, Decimal(|r.seeds|), Join(Sorted(r.seeds)), r.phase] + BudgetComponents(r.budget)
  }

  predicate SameRequest(x: Request, y: Request) {
    x.task == y.task && multiset(x.seeds) == multiset(y.seeds) && x.phase == y.phase && x.budget == y.budget
  }

  lemma ComponentsAgree(x: Request, y: Request)
    requires RequestComponents(x) == RequestComponents(y)
    ensures x.task == y.task && x.phase == y.phase && x.budget == y.budget
    ensures |x.seeds| == |y.seeds| && Join(Sorted(x.seeds)) == Join(Sorted(y.seeds))
  {
    var a, b := RequestComponents(x), RequestComponents(y);
    assert a[0] == b[0] && a[1] == b[1] && a[2] == b[2] && a[3] == b[3];
    assert a[4..] == BudgetComponents(x.budget) && b[4..] == BudgetComponents(y.budget);
    DecimalInjective(|x.seeds|, |y.seeds|);
    BudgetDetermines(x.budget, y.budget);
  }

  lemma CleanSorted(xs: seq<string>)
    requires Clean(xs)
    ensures Clean(Sorted(xs))
  {
    forall i | 0 <= i < |xs| ensures SEPARATOR !in Sorted(xs)[i] {
      assert Sorted(xs)[i] in multiset(Sorted(xs));
      assert Sorted(xs)[i] in multiset(xs);
    }
  }

  /** A request with no separator in a seed, or with one seed at most, shares its
      identity with exactly the requests for the same task, seeds in any order, phase
      and budget. */
  lemma RequestIdentity(x: Request, y: Request)
    requires Clean(x.seeds) || |x.seeds| <= 1
    ensures RequestComponents(x) == RequestComponents(y) <==> SameRequest(x, y)
  {
    if SameRequest(x, y) {
      SortedOrdered(x.seeds);
      SortedOrdered(y.seeds);
      OrderedUnique(Sorted(x.seeds), Sorted(y.seeds));
      assert |x.seeds| == |multiset(x.seeds)| == |multiset(y.seeds)| == |y.seeds|;
    }
    if RequestComponents(x) == RequestComponents(y) {
      ComponentsAgree(x, y);
      if |x.seeds| > 1 {
        CleanSorted(x.seeds);
        JoinDetermines(Sorted(x.seeds), Sorted(y.seeds));
      } else if |x.seeds| == 1 {
        assert Sorted(x.seeds) == [Join(Sorted(x.seeds))] == Sorted(y.seeds);
      }
    }
  }

  /** Every way of cutting s into n at separators. */
  function Cuts(s: string, n: nat): set<seq<string>> {
    if n == 0 then if s == [] then {[]} else {}
    else if n == 1 then {[s]}
    else set i, t | 0 <= i < |s| && s[i] == SEPARATOR && t in Cuts(s[i + 1..], n - 1) :: [s[..i]] + t
  }

  lemma JoinMore(x: string, rest: seq<string>)
    requires rest != []
    ensures Join([x] + rest) == x + [SEPARATOR] + Join(rest)
  {
    assert ([x] + rest)[1..] == rest;
  }

  lemma {:induction false} CutJoins(s: string, n: nat, t: seq<string>)
    requires t in Cuts(s, n)
    ensures |t| == n && Join(t) == s
  {
    if n > 1 {
      var i, rest :| 0 <= i < |s| && s[i] == SEPARATOR && rest in Cuts(s[i + 1..], n - 1) && t == [s[..i]] + rest;
      CutJoins(s[i + 1..], n - 1, rest);
      CutBack(s, i, rest);
    }
  }

  lemma CutBack(s: string, i: nat, rest: seq<string>)
    requires i < |s| && s[i] == SEPARATOR && rest != [] && Join(rest) == s[i + 1..]
    ensures Join([s[..i]] + rest) == s
  {
    JoinMore(s[..i], rest);
    assert s == s[..i] + [SEPARATOR] + s[i + 1..];
  }

  lemma CutMore(x: string, rest: seq<string>, j: string, n: nat)
    requires n > 1 && rest in Cuts(j, n - 1)
    ensures [x] + rest in Cuts(x + [SEPARATOR] + j, n)
  {
    var s, i := x + [SEPARATOR] + j, |x|;
    assert s[..i] == x && s[i] == SEPARATOR && s[i + 1..] == j;
  }

  lemma {:induction false} JoinCuts(t: seq<string>, n: nat)
    requires |t| == n
    ensures t in Cuts(Join(t), n)
  {
    if n > 1 {
      var x, rest := t[0], t[1..];
      JoinCuts(rest, n - 1);
      var s := Join(rest);
      assert t == [x] + rest;
      assert Join(t) == x + [SEPARATOR] + s by { JoinMore(x, rest); }
      assert [x] + rest in Cuts(x + [SEPARATOR] + s, n) by { CutMore(x, rest, s, n); }
    } else if n == 1 {
      assert t == [t[0]];
    }
  }

  lemma CutsAreSplits(s: string, n: nat, t: seq<string>)
    ensures t in Cuts(s, n) <==> |t| == n && Join(t) == s
  {
    if t in Cuts(s, n) { CutJoins(s, n, t); }
    if |t| == n && Join(t) == s { JoinCuts(t, n); }
  }

  /** Of all the ways to cut the joined seeds into as many, only their own is in order. */
  predicate OnlyCut(seeds: seq<string>) {
    forall t | t in Cuts(Join(Sorted(seeds)), |seeds|) && Ordered(t) :: t == Sorted(seeds)
  }

  lemma OnlyCutMeans(seeds: seq<string>, t: seq<string>)
    requires OnlyCut(seeds) && |t| == |seeds| && Ordered(t) && Join(t) == Join(Sorted(seeds))
    ensures t == Sorted(seeds)
  {
    CutsAreSplits(Join(Sorted(seeds)), |seeds|, t);
  }

  lemma OrderedSorted(t: seq<string>)
    requires Ordered(t)
    ensures Sorted(t) == t
  {
    SortedOrdered(t);
    OrderedUnique(Sorted(t), t);
  }

  /** Exactly when a request's identity is its own: no other way of cutting the joined
      seeds into as many is in order. */
  lemma IdentityExact(x: Request)
    ensures (forall y :: RequestComponents(x) == RequestComponents(y) ==> SameRequest(x, y)) <==> OnlyCut(x.seeds)
  {
    if OnlyCut(x.seeds) {
      forall y | RequestComponents(x) == RequestComponents(y) ensures SameRequest(x, y) { CutsAgree(x, y); }
    }
    if forall y :: RequestComponents(x) == RequestComponents(y) ==> SameRequest(x, y) {
      forall t | t in Cuts(Join(Sorted(x.seeds)), |x.seeds|) && Ordered(t) ensures t == Sorted(x.seeds) {
        CutsAreSplits(Join(Sorted(x.seeds)), |x.seeds|, t);
        var y := x.(seeds := t);
        OrderedSorted(t);
        assert RequestComponents(x) == RequestComponents(y);
        SortedOrdered(x.seeds);
        OrderedUnique(t, Sorted(x.seeds));
      }
    }
  }

  lemma CutsAgree(x: Request, y: Request)
    requires OnlyCut(x.seeds) && RequestComponents(x) == RequestComponents(y)
    ensures SameRequest(x, y)
  {
    ComponentsAgree(x, y);
    SortedOrdered(y.seeds);
    OnlyCutMeans(x.seeds, Sorted(y.seeds));
  }

  /** Two pairs of seeds cut from one join share an identity, count and all: the count
      does not tell where the join was cut. */
  lemma SeparatorForges(task: string, phase: string, budget: Budget, p: string, q: string, r: string, s: string)
    requires LexLe(p, q) && LexLe(r, s) && p + [SEPARATOR] + q == r + [SEPARATOR] + s && r != p && r != q
    ensures RequestComponents(Request(task, [p, q], phase, budget))
         == RequestComponents(Request(task, [r, s], phase, budget))
    ensures !SameRequest(Request(task, [p, q], phase, budget), Request(task, [r, s], phase, budget))
  {
    PairSorted(p, q);
    PairSorted(r, s);
    PairJoin(p, q);
    PairJoin(r, s);
    PairsDiffer(p, q, r, s);
  }

  lemma PairJoin(s: string, t: string)
    ensures Join([s, t]) == s + [SEPARATOR] + t
  {
    assert [s, t][1..] == [t];
  }

  lemma PairsDiffer(p: string, q: string, r: string, s: string)
    requires r != p && r != q
    ensures multiset([p, q]) != multiset([r, s])
  {
    assert r in multiset([r, s]);
    assert r !in [p, q];
  }

  /** Seeds "a\0b" and "c" are taken for "a" and "b\0c". */
  lemma ForgedSplit(task: string, phase: string, budget: Budget)
    ensures RequestComponents(Request(task, ["a\0b", "c"], phase, budget))
         == RequestComponents(Request(task, ["a", "b\0c"], phase, budget))
    ensures multiset(["a\0b", "c"]) != multiset(["a", "b\0c"])
  {
    assert LexLe("a\0b", "c") && LexLe("a", "b\0c");
    assert "a\0b" + [SEPARATOR] + "c" == "a" + [SEPARATOR] + "b\0c";
    SeparatorForges(task, phase, budget, "a\0b", "c", "a", "b\0c");
  }

  lemma PairSorted(s: string, t: string)
    requires LexLe(s, t)
    ensures Sorted([s, t]) == [s, t]
  {
    assert [s, t][1..] == [t] && [t][1..] == [];
    assert Sorted([t]) == Insert(t, []);
  }

  /** The separator in a seed is not enough for that: what the join could otherwise be
      cut into is out of order here, so these seeds are still the only ones. */
  lemma OrderMaySave(x: Request, y: Request)
    requires x.seeds == ["a", "a\0"]
    ensures !Clean(x.seeds) && OnlyCut(x.seeds)
    ensures RequestComponents(x) == RequestComponents(y) ==> SameRequest(x, y)
  {
    SavedCuts(x.seeds);
    if RequestComponents(x) == RequestComponents(y) { CutsAgree(x, y); }
  }

  lemma SavedCuts(seeds: seq<string>)
    requires seeds == ["a", "a\0"]
    ensures !Clean(seeds) && OnlyCut(seeds)
  {
    assert SEPARATOR in seeds[1] by { assert "a\0"[1] == SEPARATOR; }
    assert LexLe("a", "a\0");
    PairSorted("a", "a\0");
    forall t | t in Cuts(Join(seeds), |seeds|) && Ordered(t) ensures t == seeds {
      CutsAreSplits(Join(seeds), |seeds|, t);
      SavedCut(t);
    }
  }

  lemma SavedCut(t: seq<string>)
    requires |t| == 2 && Ordered(t) && Join(t) == Join(["a", "a\0"])
    ensures t == ["a", "a\0"]
  {
    PairJoin("a", "a\0");
    assert t == [t[0], t[1]];
    PairJoin(t[0], t[1]);
    OneCut(t[0], t[1]);
  }

  lemma OneCut(s: string, t: string)
    requires s + [SEPARATOR] + t == "a\0a\0" && LexLe(s, t)
    ensures s == "a" && t == "a\0"
  {
    var j := s + [SEPARATOR] + t;
    assert j[|s|] == SEPARATOR && j[..|s|] == s && j[|s| + 1..] == t;
    assert |j| == 4;
    assert |s| == 3 ==> t == [];
  }
}
