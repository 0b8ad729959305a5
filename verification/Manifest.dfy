/** What a manifest's canonical digest and a request's identity are taken over: a plan
    printed as a list of components that has one reading, and a request whose seeds
    are sorted and joined. */
module Manifest {
  import opened Preimage

  datatype Entry = Entry(
    ordinal: int, nodeId: string, fileId: string, requirement: string,
    scoreMicros: int, bytes: int, tokens: int,
    reasons: seq<string>, paths: seq<seq<string>>)

  datatype Slice = Slice(index: int, bytes: int, tokens: int, ordinals: seq<int>)
  datatype Exclusion = Exclusion(ordinal: int, nodeId: string, fileId: string, path: string, reason: string)
  datatype Budget = Budget(tokens: int, bytes: int, files: int, slices: int, manifestBytes: int)

  /** excludedCount is what the packer reported; the rows are streamed beside it. */
  datatype Plan = Plan(
    snapshot: string, analysisKey: string, requestHash: string, policyVersion: string,
    budget: Budget, scopeComplete: bool,
    entries: seq<Entry>, slices: seq<Slice>, excludedCount: int, excluded: seq<Exclusion>)

  // ----- the canonical components -----

  function Text(s: string): seq<string> { [s] }

  function Number(n: int): seq<string> { [Decimal(n)] }

  function PathComponents(p: seq<string>): seq<string> { Counted(Text, p) }

  function EntryFields(e: Entry): seq<string> {
    [Decimal(e.ordinal), e.nodeId, e.fileId, e.requirement, Decimal(e.scoreMicros), Decimal(e.bytes), Decimal(e.tokens)]
  }

  function EntryComponents(e: Entry): seq<string> {
    EntryFields(e) + Counted(Text, e.reasons) + Counted(PathComponents, e.paths)
  }

  function SliceComponents(s: Slice): seq<string> {
    [Decimal(s.index), Decimal(s.bytes), Decimal(s.tokens)] + Counted(Number, s.ordinals)
  }

  function ExclusionComponents(x: Exclusion): seq<string> {
    [Decimal(x.ordinal), x.nodeId, x.fileId, x.path, x.reason]
  }

  function Flag(b: bool): string { if b then "true" else "false" }

  function BudgetComponents(b: Budget): seq<string> {
    [Decimal(b.tokens), Decimal(b.bytes), Decimal(b.files), Decimal(b.slices), Decimal(b.manifestBytes)]
  }

  function HeaderComponents(p: Plan): seq<string> {
    [p.snapshot, p.analysisKey, p.requestHash, p.policyVersion] + BudgetComponents(p.budget) + [Flag(p.scopeComplete)]
  }

  function PlanComponents(p: Plan): seq<string> {
    HeaderComponents(p) + (Counted(EntryComponents, p.entries) + (Counted(SliceComponents, p.slices)
    + ([Decimal(p.excludedCount)] + Flat(ExclusionComponents, p.excluded))))
  }

  lemma TextPrefixFree()
    ensures PrefixFree(Text)
  {
    forall x, y, r, s | Text(x) + r == Text(y) + s ensures x == y && r == s {
      HeadCancels(x, r, y, s);
    }
  }

  lemma NumberPrefixFree()
    ensures PrefixFree(Number)
  {
    forall x, y, r, s | Number(x) + r == Number(y) + s ensures x == y && r == s {
      HeadCancels(Decimal(x), r, Decimal(y), s);
      DecimalInjective(x, y);
    }
  }

  lemma PathPrefixFree()
    ensures PrefixFree(PathComponents)
  {
    TextPrefixFree();
    forall x, y, r, s | PathComponents(x) + r == PathComponents(y) + s ensures x == y && r == s {
      CountedCancels(Text, x, y, r, s);
    }
  }

  /** Fields in front of the rest: equal lists agree on as many components as the
      fields are, and on what is behind them. */
  lemma FieldsCancel(a: seq<string>, r: seq<string>, b: seq<string>, s: seq<string>)
    requires |a| == |b| && a + r == b + s
    ensures a == b && r == s
  {
    assert (a + r)[..|a|] == a && (b + s)[..|b|] == b;
    assert (a + r)[|a|..] == r && (b + s)[|b|..] == s;
  }

  lemma EntryPrefixFree()
    ensures PrefixFree(EntryComponents)
  {
    forall x, y, r, s | EntryComponents(x) + r == EntryComponents(y) + s ensures x == y && r == s {
      EntryCancels(x, y, r, s);
    }
  }

  lemma Spread(a: seq<string>, b: seq<string>, c: seq<string>, d: seq<string>)
    ensures a + b + c + d == a + (b + (c + d))
  {
  }

  lemma EntryCancels(x: Entry, y: Entry, r: seq<string>, s: seq<string>)
    requires EntryComponents(x) + r == EntryComponents(y) + s
    ensures x == y && r == s
  {
    Spread(EntryFields(x), Counted(Text, x.reasons), Counted(PathComponents, x.paths), r);
    Spread(EntryFields(y), Counted(Text, y.reasons), Counted(PathComponents, y.paths), s);
    FieldsCancel(EntryFields(x), Counted(Text, x.reasons) + (Counted(PathComponents, x.paths) + r),
                 EntryFields(y), Counted(Text, y.reasons) + (Counted(PathComponents, y.paths) + s));
    TextPrefixFree();
    CountedCancels(Text, x.reasons, y.reasons,
                   Counted(PathComponents, x.paths) + r, Counted(PathComponents, y.paths) + s);
    PathPrefixFree();
    CountedCancels(PathComponents, x.paths, y.paths, r, s);
    EntryFieldsDetermine(x, y);
  }

  lemma EntryFieldsDetermine(x: Entry, y: Entry)
    requires EntryFields(x) == EntryFields(y) && x.reasons == y.reasons && x.paths == y.paths
    ensures x == y
  {
    var a, b := EntryFields(x), EntryFields(y);
    assert a[0] == b[0] && a[1] == b[1] && a[2] == b[2] && a[3] == b[3] && a[4] == b[4] && a[5] == b[5] && a[6] == b[6];
    DecimalInjective(x.ordinal, y.ordinal);
    DecimalInjective(x.scoreMicros, y.scoreMicros);
    DecimalInjective(x.bytes, y.bytes);
    DecimalInjective(x.tokens, y.tokens);
  }

  lemma SlicePrefixFree()
    ensures PrefixFree(SliceComponents)
  {
    forall x, y, r, s | SliceComponents(x) + r == SliceComponents(y) + s ensures x == y && r == s {
      SliceCancels(x, y, r, s);
    }
  }

  lemma SliceCancels(x: Slice, y: Slice, r: seq<string>, s: seq<string>)
    requires SliceComponents(x) + r == SliceComponents(y) + s
    ensures x == y && r == s
  {
    var a := [Decimal(x.index), Decimal(x.bytes), Decimal(x.tokens)];
    var b := [Decimal(y.index), Decimal(y.bytes), Decimal(y.tokens)];
    assert SliceComponents(x) + r == a + (Counted(Number, x.ordinals) + r);
    assert SliceComponents(y) + s == b + (Counted(Number, y.ordinals) + s);
    FieldsCancel(a, Counted(Number, x.ordinals) + r, b, Counted(Number, y.ordinals) + s);
    assert a[0] == b[0] && a[1] == b[1] && a[2] == b[2];
    DecimalInjective(x.index, y.index);
    DecimalInjective(x.bytes, y.bytes);
    DecimalInjective(x.tokens, y.tokens);
    NumberPrefixFree();
    CountedCancels(Number, x.ordinals, y.ordinals, r, s);
  }

  lemma ExclusionPrefixFree()
    ensures PrefixFree(ExclusionComponents)
  {
    forall x, y, r, s | ExclusionComponents(x) + r == ExclusionComponents(y) + s ensures x == y && r == s {
      FieldsCancel(ExclusionComponents(x), r, ExclusionComponents(y), s);
      var a, b := ExclusionComponents(x), ExclusionComponents(y);
      assert a[0] == b[0] && a[1] == b[1] && a[2] == b[2] && a[3] == b[3] && a[4] == b[4];
      DecimalInjective(x.ordinal, y.ordinal);
    }
  }

  lemma HeaderDetermines(x: Plan, y: Plan)
    requires HeaderComponents(x) == HeaderComponents(y)
    ensures x.snapshot == y.snapshot && x.analysisKey == y.analysisKey && x.requestHash == y.requestHash
    ensures x.policyVersion == y.policyVersion && x.budget == y.budget && x.scopeComplete == y.scopeComplete
  {
    var a, b := HeaderComponents(x), HeaderComponents(y);
    assert a[0] == b[0] && a[1] == b[1] && a[2] == b[2] && a[3] == b[3];
    assert a[4..9] == BudgetComponents(x.budget) && b[4..9] == BudgetComponents(y.budget);
    BudgetDetermines(x.budget, y.budget);
    assert a[9] == b[9];
    assert Flag(true) != Flag(false);
  }

  lemma BudgetDetermines(x: Budget, y: Budget)
    requires BudgetComponents(x) == BudgetComponents(y)
    ensures x == y
  {
    var a, b := BudgetComponents(x), BudgetComponents(y);
    assert a[0] == b[0] && a[1] == b[1] && a[2] == b[2] && a[3] == b[3] && a[4] == b[4];
    DecimalInjective(x.tokens, y.tokens);
    DecimalInjective(x.bytes, y.bytes);
    DecimalInjective(x.files, y.files);
    DecimalInjective(x.slices, y.slices);
    DecimalInjective(x.manifestBytes, y.manifestBytes);
  }

  /** Every exclusion is as many components as any other. */
  lemma {:induction false} ExclusionsLength(xs: seq<Exclusion>)
    ensures |Flat(ExclusionComponents, xs)| == 5 * |xs|
    decreases |xs|
  {
    if xs != [] { ExclusionsLength(xs[1..]); }
  }

  /** The component list has one reading: two plans it is the same for are the same,
      binding, budget, entries, slices and exclusions. */
  lemma PlanDetermined(x: Plan, y: Plan)
    requires PlanComponents(x) == PlanComponents(y)
    ensures x == y
  {
    var xLast := [Decimal(x.excludedCount)] + Flat(ExclusionComponents, x.excluded);
    var yLast := [Decimal(y.excludedCount)] + Flat(ExclusionComponents, y.excluded);
    var xSlices, ySlices := Counted(SliceComponents, x.slices) + xLast, Counted(SliceComponents, y.slices) + yLast;
    FieldsCancel(HeaderComponents(x), Counted(EntryComponents, x.entries) + xSlices,
                 HeaderComponents(y), Counted(EntryComponents, y.entries) + ySlices);
    HeaderDetermines(x, y);
    EntryPrefixFree();
    CountedCancels(EntryComponents, x.entries, y.entries, xSlices, ySlices);
    SlicePrefixFree();
    CountedCancels(SliceComponents, x.slices, y.slices, xLast, yLast);
    HeadCancels(Decimal(x.excludedCount), Flat(ExclusionComponents, x.excluded),
                Decimal(y.excludedCount), Flat(ExclusionComponents, y.excluded));
    DecimalInjective(x.excludedCount, y.excludedCount);
    ExclusionsDetermined(x.excluded, y.excluded);
  }

  lemma ExclusionsDetermined(xs: seq<Exclusion>, ys: seq<Exclusion>)
    requires Flat(ExclusionComponents, xs) == Flat(ExclusionComponents, ys)
    ensures xs == ys
  {
    ExclusionsLength(xs);
    ExclusionsLength(ys);
    ExclusionPrefixFree();
    assert Flat(ExclusionComponents, xs) + [] == Flat(ExclusionComponents, xs);
    assert Flat(ExclusionComponents, ys) + [] == Flat(ExclusionComponents, ys);
    FlatCancels(ExclusionComponents, xs, ys, [], []);
  }

  /** Two plans a hasher absorbs the same bytes for, in the same domain, are the same. */
  lemma PlanBytesDetermined(domain: string, x: Plan, y: Plan)
    requires Framable([domain] + PlanComponents(x)) && Framable([domain] + PlanComponents(y))
    requires Absorbed([domain] + PlanComponents(x)) == Absorbed([domain] + PlanComponents(y))
    ensures x == y
  {
    AbsorbedInjective([domain] + PlanComponents(x), [domain] + PlanComponents(y));
    HeadCancels(domain, PlanComponents(x), domain, PlanComponents(y));
    PlanDetermined(x, y);
  }

  // ----- feeding the hasher -----

  lemma FlatNext<T>(e: T -> seq<string>, xs: seq<T>, i: nat)
    requires i < |xs|
    ensures Flat(e, xs[..i + 1]) == Flat(e, xs[..i]) + e(xs[i])
  {
    assert xs[..i + 1] == xs[..i] + [xs[i]];
    FlatAppend(e, xs[..i], xs[i]);
  }

  lemma FlatWhole<T>(e: T -> seq<string>, xs: seq<T>)
    ensures Flat(e, xs[..|xs|]) == Flat(e, xs)
  {
    assert xs[..|xs|] == xs;
  }

  /** The hasher has been fed the first i elements behind base. */
  ghost predicate Fed<T>(e: T -> seq<string>, base: seq<string>, xs: seq<T>, i: nat, h: seq<string>) {
    i <= |xs| && h == base + Flat(e, xs[..i])
  }

  lemma FedNext<T>(e: T -> seq<string>, base: seq<string>, xs: seq<T>, i: nat, h: seq<string>)
    requires i < |xs| && Fed(e, base, xs, i, h)
    ensures Fed(e, base, xs, i + 1, h + e(xs[i]))
  {
    FlatNext(e, xs, i);
  }

  lemma FedAll<T>(e: T -> seq<string>, fed: seq<string>, xs: seq<T>, h: seq<string>)
    requires Fed(e, fed + [Decimal(|xs|)], xs, |xs|, h)
    ensures h == fed + Counted(e, xs)
  {
    FlatWhole(e, xs);
  }

  method AddTexts(fed: seq<string>, xs: seq<string>) returns (h: seq<string>)
    ensures h == fed + Counted(Text, xs)
  {
    h := fed + [Decimal(|xs|)];
    ghost var base := h;
    for i := 0 to |xs|
      invariant Fed(Text, base, xs, i, h)
    {
      FedNext(Text, base, xs, i, h);
      h := h + [xs[i]];
    }
    FedAll(Text, fed, xs, h);
  }

  method AddNumbers(fed: seq<string>, xs: seq<int>) returns (h: seq<string>)
    ensures h == fed + Counted(Number, xs)
  {
    h := fed + [Decimal(|xs|)];
    ghost var base := h;
    for i := 0 to |xs|
      invariant Fed(Number, base, xs, i, h)
    {
      FedNext(Number, base, xs, i, h);
      h := h + [Decimal(xs[i])];
    }
    FedAll(Number, fed, xs, h);
  }

  method AddPaths(fed: seq<string>, xs: seq<seq<string>>) returns (h: seq<string>)
    ensures h == fed + Counted(PathComponents, xs)
  {
    h := fed + [Decimal(|xs|)];
    ghost var base := h;
    for i := 0 to |xs|
      invariant Fed(PathComponents, base, xs, i, h)
    {
      FedNext(PathComponents, base, xs, i, h);
      h := AddTexts(h, xs[i]);
    }
    FedAll(PathComponents, fed, xs, h);
  }

  method AddEntry(fed: seq<string>, e: Entry) returns (h: seq<string>)
    ensures h == fed + EntryComponents(e)
    ensures |fed| + 7 <= |h| && h[|fed|..|fed| + 7] ==
      [Decimal(e.ordinal), e.nodeId, e.fileId, e.requirement, Decimal(e.scoreMicros), Decimal(e.bytes),
       Decimal(e.tokens)]
  {
    h := AddTexts(fed + EntryFields(e), e.reasons);
    h := AddPaths(h, e.paths);
    Behind(fed, EntryFields(e), Counted(Text, e.reasons), Counted(PathComponents, e.paths));
  }

  lemma Behind(a: seq<string>, b: seq<string>, c: seq<string>, d: seq<string>)
    ensures a + b + c + d == a + (b + c + d)
  {
  }

  method AddSlice(fed: seq<string>, s: Slice) returns (h: seq<string>)
    ensures h == fed + SliceComponents(s)
    ensures |fed| + 3 <= |h| && h[|fed|..|fed| + 3] == [Decimal(s.index), Decimal(s.bytes), Decimal(s.tokens)]
  {
    h := AddNumbers(fed + [Decimal(s.index), Decimal(s.bytes), Decimal(s.tokens)], s.ordinals);
  }

  method AddEntries(fed: seq<string>, xs: seq<Entry>) returns (h: seq<string>)
    ensures h == fed + Counted(EntryComponents, xs)
  {
    h := fed + [Decimal(|xs|)];
    ghost var base := h;
    for i := 0 to |xs|
      invariant Fed(EntryComponents, base, xs, i, h)
    {
      FedNext(EntryComponents, base, xs, i, h);
      h := AddEntry(h, xs[i]);
    }
    FedAll(EntryComponents, fed, xs, h);
  }

  method AddSlices(fed: seq<string>, xs: seq<Slice>) returns (h: seq<string>)
    ensures h == fed + Counted(SliceComponents, xs)
  {
    h := fed + [Decimal(|xs|)];
    ghost var base := h;
    for i := 0 to |xs|
      invariant Fed(SliceComponents, base, xs, i, h)
    {
      FedNext(SliceComponents, base, xs, i, h);
      h := AddSlice(h, xs[i]);
    }
    FedAll(SliceComponents, fed, xs, h);
  }

  method AddExclusion(fed: seq<string>, x: Exclusion) returns (h: seq<string>)
    ensures h == fed + ExclusionComponents(x)
    ensures h[|fed|..] == [Decimal(x.ordinal), x.nodeId, x.fileId, x.path, x.reason]
  {
    h := fed + [Decimal(x.ordinal), x.nodeId, x.fileId, x.path, x.reason];
  }

  lemma HeaderFirst(p: Plan)
    ensures |PlanComponents(p)| >= 11
    ensures var b := p.budget;
      PlanComponents(p)[..11] ==
        [p.snapshot, p.analysisKey, p.requestHash, p.policyVersion, Decimal(b.tokens), Decimal(b.bytes),
         Decimal(b.files), Decimal(b.slices), Decimal(b.manifestBytes), if p.scopeComplete then "true" else "false",
         Decimal(|p.entries|)]
  {
    assert PlanComponents(p)[10] == Counted(EntryComponents, p.entries)[0];
  }

  /** The components in the order the canonical digest takes them. */
  method CanonicalComponents(p: Plan) returns (h: seq<string>)
    ensures h == PlanComponents(p) && |h| >= 11
    ensures var b := p.budget;
      h[..11] ==
        [p.snapshot, p.analysisKey, p.requestHash, p.policyVersion, Decimal(b.tokens), Decimal(b.bytes),
         Decimal(b.files), Decimal(b.slices), Decimal(b.manifestBytes), if p.scopeComplete then "true" else "false",
         Decimal(|p.entries|)]
  {
    HeaderFirst(p);
    h := AddEntries(HeaderComponents(p), p.entries);
    h := AddSlices(h, p.slices);
    h := h + [Decimal(p.excludedCount)];
    ghost var before := h;
    for i := 0 to |p.excluded|
      invariant h == before + Flat(ExclusionComponents, p.excluded[..i])
    {
      FlatNext(ExclusionComponents, p.excluded, i);
      h := AddExclusion(h, p.excluded[i]);
    }
    FlatWhole(ExclusionComponents, p.excluded);
    Nested(HeaderComponents(p), Counted(EntryComponents, p.entries), Counted(SliceComponents, p.slices),
           [Decimal(p.excludedCount)], Flat(ExclusionComponents, p.excluded));
  }

  lemma Nested(a: seq<string>, b: seq<string>, c: seq<string>, d: seq<string>, e: seq<string>)
    ensures a + b + c + d + e == a + (b + (c + (d + e)))
  {
  }
}
