/** From ranked survivors to stored slices: how files become groups, why required
    groups come first, and why the sizes that are stored still fit the budget that
    the larger first measurement was checked against. */
module Plan {
  import opened NextFit
  import opened Packing
  import opened PackingTheorems
  import opened Measure
  import opened Options

  datatype Requirement = Full | Symbol | Recommended | Optional | Unknown

  /** The first key of the rank order; an unknown requirement sorts last. */
  function RequirementRank(r: Requirement): nat {
    match r
    case Full => 0
    case Symbol => 1
    case Recommended => 2
    case Optional => 3
    case Unknown => 4
  }

  predicate IsRequired(r: Requirement) { RequirementRank(r) <= 1 }

  /** One survivor of the pre-sort filters; its index is its position. */
  datatype Survivor = Survivor(file: string, path: string, requirement: Requirement, candidate: Candidate)

  ghost predicate Ranked(ss: seq<Survivor>) {
    forall i, j | 0 <= i < j < |ss| :: RequirementRank(ss[i].requirement) <= RequirementRank(ss[j].requirement)
  }

  // ----- groups -----

  /** What survivor i adds to its file's group. */
  function Contribution(s: Survivor, index: nat, e: Entry): Group {
    Group(s.file, s.path, IsRequired(s.requirement), e.estimatedBytes, e.estimatedTokens, index)
  }

  function FoldGroup(a: Group, b: Group): Group {
    a.(bytes := a.bytes + b.bytes, tokens := a.tokens + b.tokens, required := a.required || b.required,
       minIndex := if b.minIndex < a.minIndex then b.minIndex else a.minIndex,
       path := if b.minIndex < a.minIndex then b.path else a.path)
  }

  /** The fold does not depend on the order a merge presents a file's records in. */
  lemma FoldOrderIrrelevant(a: Group, b: Group, c: Group)
    requires a.file == b.file == c.file && a.minIndex != b.minIndex
    ensures FoldGroup(a, b) == FoldGroup(b, a)
    ensures FoldGroup(FoldGroup(a, b), c) == FoldGroup(a, FoldGroup(b, c))
  {
  }

  /** The groups' records of one file, folded left to right. */
  function FileGroup(ms: seq<Group>, file: string): Option<Group> {
    if ms == [] then None
    else
      var n := |ms| - 1;
      var before := FileGroup(ms[..n], file);
      if ms[n].file != file then before
      else if before.None? then Some(ms[n])
      else Some(FoldGroup(before.value, ms[n]))
  }

  function Contributions(ss: seq<Survivor>, es: seq<Entry>): (ms: seq<Group>)
    requires |ss| == |es|
    ensures |ms| == |ss|
  {
    seq(|ss|, i requires 0 <= i < |ss| => Contribution(ss[i], i, es[i]))
  }

  /** The groups are one fold per file, in the order of their best-ranked member. */
  ghost predicate GroupsOf(gs: seq<Group>, ms: seq<Group>) {
    && (forall k | 0 <= k < |gs| :: FileGroup(ms, gs[k].file) == Some(gs[k]))
    && (forall k, l | 0 <= k < l < |gs| :: gs[k].minIndex < gs[l].minIndex)
  }

  // ----- what a group is -----

  /** The sizes of those of the first n survivors whose file is in the set. */
  function SumOver(ss: seq<Survivor>, sizes: seq<int>, n: nat, files: set<string>): int
    requires n <= |ss| == |sizes|
  {
    if n == 0 then 0
    else SumOver(ss, sizes, n - 1, files) + if ss[n - 1].file in files then sizes[n - 1] else 0
  }

  function ByteSizes(es: seq<Entry>): seq<int> { seq(|es|, i requires 0 <= i < |es| => es[i].estimatedBytes) }
  function TokenSizes(es: seq<Entry>): seq<int> { seq(|es|, i requires 0 <= i < |es| => es[i].estimatedTokens) }

  function BytesOf(ss: seq<Survivor>, es: seq<Entry>, files: set<string>): int
    requires |ss| == |es|
  {
    SumOver(ss, ByteSizes(es), |ss|, files)
  }

  function TokensOf(ss: seq<Survivor>, es: seq<Entry>, files: set<string>): int
    requires |ss| == |es|
  {
    SumOver(ss, TokenSizes(es), |ss|, files)
  }

  /** A file's group: its survivors' measured bytes and tokens, at the place and the path
      of the first of them, required when some of them may not be dropped. */
  ghost predicate IsGroup(g: Group, ss: seq<Survivor>, es: seq<Entry>)
    requires |ss| == |es|
  {
    && g.minIndex < |ss| && ss[g.minIndex].file == g.file && ss[g.minIndex].path == g.path
    && (forall i | 0 <= i < |ss| && ss[i].file == g.file :: g.minIndex <= i)
    && (g.required <==> exists i | 0 <= i < |ss| && ss[i].file == g.file :: ss[i].requirement in {Full, Symbol})
    && g.bytes == BytesOf(ss, es, {g.file}) && g.tokens == TokensOf(ss, es, {g.file})
  }

  /** One group a file, in the order of their first members. */
  ghost predicate AreGroups(gs: seq<Group>, ss: seq<Survivor>, es: seq<Entry>)
    requires |ss| == |es|
  {
    && (forall k | 0 <= k < |gs| :: IsGroup(gs[k], ss, es))
    && (forall k, l | 0 <= k < l < |gs| :: gs[k].minIndex < gs[l].minIndex)
  }

  /** The fold of a file's records, from the first n survivors: where the file's first
      survivor stands, and whether any of them may not be dropped. */
  lemma {:induction false} FoldFacts(ss: seq<Survivor>, es: seq<Entry>, n: nat, file: string)
    requires n <= |ss| == |es|
    ensures var g := FileGroup(Contributions(ss, es)[..n], file);
      && (g.None? <==> forall i | 0 <= i < n :: ss[i].file != file)
      && (g.Some? ==>
            && g.value.file == file && g.value.minIndex < n
            && ss[g.value.minIndex].file == file && ss[g.value.minIndex].path == g.value.path
            && (forall i | 0 <= i < n && ss[i].file == file :: g.value.minIndex <= i)
            && (g.value.required <==>
                  exists i | 0 <= i < n && ss[i].file == file :: ss[i].requirement in {Full, Symbol}))
  {
    if n > 0 {
      var ms := Contributions(ss, es);
      assert ms[..n][..n - 1] == ms[..n - 1] && ms[..n][n - 1] == ms[n - 1];
      FoldFacts(ss, es, n - 1, file);
    }
  }

  /** Its sizes are the sums of their measured bytes and tokens. */
  lemma {:induction false} FoldSums(ss: seq<Survivor>, es: seq<Entry>, n: nat, file: string)
    requires n <= |ss| == |es|
    ensures var g := FileGroup(Contributions(ss, es)[..n], file);
      && SumOver(ss, ByteSizes(es), n, {file}) == (if g.Some? then g.value.bytes else 0)
      && SumOver(ss, TokenSizes(es), n, {file}) == (if g.Some? then g.value.tokens else 0)
  {
    if n > 0 {
      var ms := Contributions(ss, es);
      assert ms[..n][..n - 1] == ms[..n - 1] && ms[..n][n - 1] == ms[n - 1];
      FoldSums(ss, es, n - 1, file);
    }
  }

  /** Every file that has a survivor has a group, which is the fold of its records. */
  lemma FileGroupFacts(ss: seq<Survivor>, es: seq<Entry>, file: string)
    requires |ss| == |es|
    ensures var g := FileGroup(Contributions(ss, es), file);
      && (g.None? <==> forall i | 0 <= i < |ss| :: ss[i].file != file)
      && (g.Some? ==> g.value.file == file && IsGroup(g.value, ss, es))
  {
    assert Contributions(ss, es)[..|ss|] == Contributions(ss, es);
    FoldFacts(ss, es, |ss|, file);
    FoldSums(ss, es, |ss|, file);
  }

  lemma FoldedGroups(ss: seq<Survivor>, es: seq<Entry>, gs: seq<Group>)
    requires |ss| == |es| && GroupsOf(gs, Contributions(ss, es))
    ensures AreGroups(gs, ss, es)
  {
    forall k | 0 <= k < |gs| ensures IsGroup(gs[k], ss, es) { FileGroupFacts(ss, es, gs[k].file); }
  }

  /** Required groups are a prefix of the rank order, which is what lets the floor
      check speak for the packer. */
  lemma RequiredGroupsFirst(ss: seq<Survivor>, es: seq<Entry>, gs: seq<Group>)
    requires |ss| == |es| && Ranked(ss) && AreGroups(gs, ss, es)
    ensures RequiredFirst(gs)
  {
    forall k, l | 0 <= k < l < |gs| && gs[l].required ensures gs[k].required {
      var j :| 0 <= j < |ss| && ss[j].file == gs[l].file && ss[j].requirement in {Full, Symbol};
      var i := gs[k].minIndex;
      assert i < j && ss[i].file == gs[k].file;
      assert RequirementRank(ss[i].requirement) <= RequirementRank(ss[j].requirement);
    }
  }

  // ----- sums by file -----

  lemma {:induction false} SumSplits(ss: seq<Survivor>, sizes: seq<int>, n: nat, a: set<string>, b: set<string>)
    requires n <= |ss| == |sizes| && a !! b
    ensures SumOver(ss, sizes, n, a + b) == SumOver(ss, sizes, n, a) + SumOver(ss, sizes, n, b)
  {
    if n > 0 { SumSplits(ss, sizes, n - 1, a, b); }
  }

  lemma {:induction false} NoSum(ss: seq<Survivor>, sizes: seq<int>, n: nat)
    requires n <= |ss| == |sizes|
    ensures SumOver(ss, sizes, n, {}) == 0
  {
    if n > 0 { NoSum(ss, sizes, n - 1); }
  }

  lemma {:induction false} SmallerSum(ss: seq<Survivor>, a: seq<int>, b: seq<int>, n: nat, files: set<string>)
    requires n <= |ss| == |a| == |b| && forall i | 0 <= i < |ss| && ss[i].file in files :: a[i] <= b[i]
    ensures SumOver(ss, a, n, files) <= SumOver(ss, b, n, files)
  {
    if n > 0 { SmallerSum(ss, a, b, n - 1, files); }
  }

  function Files(gs: seq<Group>): set<string> {
    set g <- gs :: g.file
  }

  /** Adding up groups of different files is adding up their survivors. */
  lemma {:induction false} GroupsAddUp(ss: seq<Survivor>, es: seq<Entry>, gs: seq<Group>)
    requires |ss| == |es| && forall k | 0 <= k < |gs| :: IsGroup(gs[k], ss, es)
    requires forall k, l | 0 <= k < l < |gs| :: gs[k].file != gs[l].file
    ensures Total(gs).bytes == BytesOf(ss, es, Files(gs)) && Total(gs).tokens == TokensOf(ss, es, Files(gs))
  {
    if gs == [] {
      NoSum(ss, ByteSizes(es), |ss|);
      NoSum(ss, TokenSizes(es), |ss|);
      assert Files(gs) == {};
    } else {
      var n := |gs| - 1;
      var front, file := Files(gs[..n]), gs[n].file;
      GroupsAddUp(ss, es, gs[..n]);
      assert Files(gs) == front + {file} by { assert gs == gs[..n] + [gs[n]]; }
      SumSplits(ss, ByteSizes(es), |ss|, front, {file});
      SumSplits(ss, TokenSizes(es), |ss|, front, {file});
    }
  }

  // ----- the second measurement -----

  /** The source bytes charged to survivor i: its file's, once, on its first entry. */
  ghost function Charge(ss: seq<Survivor>, i: nat): nat
    requires i < |ss|
  {
    if exists j | 0 <= j < i :: ss[j].file == ss[i].file then 0
    else var w := WireEncodedBytes(ss[i].candidate.sizeBytes); if w.Ok? then w.value else 0
  }

  /** The ordinal survivor i is stored at: how many kept entries come before it. */
  function Ordinal(ss: seq<Survivor>, kept: set<string>, i: nat): (n: nat)
    requires i <= |ss|
    ensures n <= i
  {
    if i == 0 then 0
    else Ordinal(ss, kept, i - 1) + if ss[i - 1].file in kept then 1 else 0
  }

  ghost function Charges(ss: seq<Survivor>): (sizes: seq<int>)
    ensures |sizes| == |ss| && forall i | 0 <= i < |ss| :: sizes[i] == Charge(ss, i)
  {
    seq(|ss|, i requires 0 <= i < |ss| => Charge(ss, i))
  }

  lemma {:induction false} NoneYet(ss: seq<Survivor>, sizes: seq<int>, n: nat, file: string)
    requires n <= |ss| == |sizes| && forall j | 0 <= j < n :: ss[j].file != file
    ensures SumOver(ss, sizes, n, {file}) == 0
  {
    if n > 0 { NoneYet(ss, sizes, n - 1, file); }
  }

  /** A file's source is charged to its survivors exactly once, however many it has. */
  lemma {:induction false} ChargedOnce(ss: seq<Survivor>, n: nat, first: nat)
    requires first < n <= |ss| && forall j | 0 <= j < first :: ss[j].file != ss[first].file
    requires WireEncodedBytes(ss[first].candidate.sizeBytes).Ok?
    ensures SumOver(ss, Charges(ss), n, {ss[first].file}) == WireEncodedBytes(ss[first].candidate.sizeBytes).value
    decreases n
  {
    var file := ss[first].file;
    if n == first + 1 {
      NoneYet(ss, Charges(ss), first, file);
    } else {
      ChargedOnce(ss, n - 1, first);
      assert ss[n - 1].file == file ==> Charge(ss, n - 1) == 0;
    }
  }

  ghost function KeptBefore(ss: seq<Survivor>, kept: set<string>, i: nat): set<nat>
    requires i <= |ss|
  {
    set j: nat | j < i && ss[j].file in kept
  }

  /** The stored ordinals number the kept entries from zero, none skipped. */
  lemma {:induction false} OrdinalCounts(ss: seq<Survivor>, kept: set<string>, i: nat)
    requires i <= |ss|
    ensures Ordinal(ss, kept, i) == |KeptBefore(ss, kept, i)|
  {
    if i > 0 {
      OrdinalCounts(ss, kept, i - 1);
      var before := KeptBefore(ss, kept, i - 1);
      assert KeptBefore(ss, kept, i) == if ss[i - 1].file in kept then before + {i - 1} else before;
    }
  }

  /** First measured at the full rank position, then, for the kept files, at the
      final ordinal. */
  ghost predicate MeasuredTwice(ss: seq<Survivor>, first: seq<Entry>, kept: set<string>, second: seq<Entry>) {
    && |first| == |second| == |ss|
    && (forall i | 0 <= i < |ss| :: first[i].ordinal == i && Measures(ss[i].candidate, Charge(ss, i), first[i]))
    && (forall i | 0 <= i < |ss| && ss[i].file in kept ::
          second[i].ordinal == Ordinal(ss, kept, i) && Measures(ss[i].candidate, Charge(ss, i), second[i]))
  }

  /** The two-phase measurement is sound: whatever the packer kept within the budget by the
      first sizes is within it by the sizes that are stored. */
  lemma StoredSlicesFit(ss: seq<Survivor>, first: seq<Entry>, gs: seq<Group>, vs: seq<Verdict>,
                        second: seq<Entry>, b: Budget, k: nat)
    requires |first| == |ss| && AreGroups(gs, ss, first) && |gs| == |vs|
    requires SlicesFit(gs, vs, b.Slice())
    requires MeasuredTwice(ss, first, Files(Kept(gs, vs)), second)
    ensures BytesOf(ss, second, Files(InSlice(gs, vs, k))) <= b.maxBytes
    ensures TokensOf(ss, second, Files(InSlice(gs, vs, k))) <= b.maxTokens
  {
    var slice := InSlice(gs, vs, k);
    SliceAddsUp(ss, first, gs, vs, k);
    SecondSmaller(ss, first, gs, vs, second, k);
    assert Total(slice).AtMost(b.Slice());
  }

  /** What a slice's groups add up to is what the survivors of their files measured. */
  lemma SliceAddsUp(ss: seq<Survivor>, es: seq<Entry>, gs: seq<Group>, vs: seq<Verdict>, k: nat)
    requires |es| == |ss| && AreGroups(gs, ss, es) && |gs| == |vs|
    ensures var slice := InSlice(gs, vs, k);
      Total(slice).bytes == BytesOf(ss, es, Files(slice)) && Total(slice).tokens == TokensOf(ss, es, Files(slice))
  {
    var slice := InSlice(gs, vs, k);
    SliceOfPlan(gs, vs, k);
    DistinctFiles(ss, es, gs);
    forall i, j | 0 <= i < j < |slice| ensures slice[i].file != slice[j].file {
      SliceDistinct(gs, vs, k, i, j);
    }
    forall i | 0 <= i < |slice| ensures IsGroup(slice[i], ss, es) { assert slice[i] in gs; }
    GroupsAddUp(ss, es, slice);
  }

  /** The second sizes of a slice's survivors are no larger than the first. */
  lemma SecondSmaller(ss: seq<Survivor>, first: seq<Entry>, gs: seq<Group>, vs: seq<Verdict>,
                      second: seq<Entry>, k: nat)
    requires |gs| == |vs| && MeasuredTwice(ss, first, Files(Kept(gs, vs)), second)
    ensures var files := Files(InSlice(gs, vs, k));
      && BytesOf(ss, second, files) <= BytesOf(ss, first, files)
      && TokensOf(ss, second, files) <= TokensOf(ss, first, files)
  {
    var files := Files(InSlice(gs, vs, k));
    SliceOfPlan(gs, vs, k);
    forall i | 0 <= i < |ss| && ss[i].file in files
      ensures ByteSizes(second)[i] <= ByteSizes(first)[i] && TokenSizes(second)[i] <= TokenSizes(first)[i]
    {
      SmallerOrdinalMeasuresNoLarger(ss[i].candidate, Charge(ss, i), second[i], first[i]);
    }
    SmallerSum(ss, ByteSizes(second), ByteSizes(first), |ss|, files);
    SmallerSum(ss, TokenSizes(second), TokenSizes(first), |ss|, files);
  }

  lemma DistinctFiles(ss: seq<Survivor>, es: seq<Entry>, gs: seq<Group>)
    requires |ss| == |es| && AreGroups(gs, ss, es)
    ensures forall k, l | 0 <= k < l < |gs| :: gs[k].file != gs[l].file
  {
    forall k, l | 0 <= k < l < |gs| ensures gs[k].file != gs[l].file {
      assert IsGroup(gs[k], ss, es) && IsGroup(gs[l], ss, es);
    }
  }

  /** The groups of a slice are kept groups of the plan. */
  lemma {:induction false} SliceOfPlan(gs: seq<Group>, vs: seq<Verdict>, k: nat)
    requires |gs| == |vs|
    ensures forall g <- InSlice(gs, vs, k) :: g in gs && g in Kept(gs, vs)
  {
    if gs != [] { SliceOfPlan(gs[..|gs| - 1], vs[..|gs| - 1], k); }
  }

  lemma {:induction false} SliceDistinct(gs: seq<Group>, vs: seq<Verdict>, k: nat, i: nat, j: nat)
    requires |gs| == |vs| && i < j < |InSlice(gs, vs, k)|
    requires forall x, y | 0 <= x < y < |gs| :: gs[x].file != gs[y].file
    ensures InSlice(gs, vs, k)[i].file != InSlice(gs, vs, k)[j].file
  {
    var n := |gs| - 1;
    SliceOfPlan(gs[..n], vs[..n], k);
    if j < |InSlice(gs[..n], vs[..n], k)| {
      SliceDistinct(gs[..n], vs[..n], k, i, j);
    } else {
      assert InSlice(gs[..n], vs[..n], k)[i] in gs[..n];
    }
  }
}
