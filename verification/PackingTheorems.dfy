/** The packed plan is feasible, and the floor check in front of the packer is
    sound: the packer's internal error is unreachable behind it. */
module PackingTheorems {
  import opened NextFit
  import opened Packing

  // ----- what a list of verdicts keeps -----

  /** The kept groups, in order. */
  function Kept(gs: seq<Group>, vs: seq<Verdict>): seq<Group>
    requires |gs| == |vs|
  {
    if gs == [] then []
    else
      var n := |gs| - 1;
      Kept(gs[..n], vs[..n]) + if vs[n].Keep? then [gs[n]] else []
  }

  /** The kept groups of one slice, in order. */
  function InSlice(gs: seq<Group>, vs: seq<Verdict>, k: nat): seq<Group>
    requires |gs| == |vs|
  {
    if gs == [] then []
    else
      var n := |gs| - 1;
      InSlice(gs[..n], vs[..n], k) + if vs[n].Keep? && vs[n].slice == k then [gs[n]] else []
  }

  /** Slices fill one after the other: indices never decrease, none is skipped,
      and the last open slice is the one reached. */
  ghost predicate SlicesInOrder(gs: seq<Group>, vs: seq<Verdict>, slices: nat)
    requires |gs| == |vs|
  {
    && (forall i | 0 <= i < |vs| && vs[i].Keep? :: vs[i].slice < slices)
    && (forall i, j | 0 <= i < j < |vs| && vs[i].Keep? && vs[j].Keep? :: vs[i].slice <= vs[j].slice)
    && (forall k | 0 <= k < slices :: InSlice(gs, vs, k) != [])
  }

  ghost predicate SlicesFit(gs: seq<Group>, vs: seq<Verdict>, c: Caps)
    requires |gs| == |vs|
  {
    forall k :: Total(InSlice(gs, vs, k)).AtMost(c)
  }

  /** Why a group was dropped, in terms of what was kept before it. */
  ghost predicate Justified(gs: seq<Group>, vs: seq<Verdict>, b: Budget, i: nat)
    requires |gs| == |vs| && i < |gs| && vs[i].Drop?
  {
    var before := Kept(gs[..i], vs[..i]);
    !gs[i].required &&
    match vs[i].reason
    case FileLimit => |before| >= b.maxFiles
    case Oversized => gs[i].bytes > b.maxBytes || gs[i].tokens > b.maxTokens
    case SliceLimit =>
      && Greedy(before, b.Slice()).slices == b.maxSlices
      && exists j | 0 <= j <= i :: Overflows(gs, vs, b, j)
  }

  /** Group j did not fit beside what was kept before it in maxSlices slices. */
  ghost predicate Overflows(gs: seq<Group>, vs: seq<Verdict>, b: Budget, j: nat)
    requires |gs| == |vs| && j < |gs|
  {
    Greedy(Kept(gs[..j], vs[..j]) + [gs[j]], b.Slice()).slices > b.maxSlices
  }

  /** One verdict per group, in order. */
  ghost predicate Named(gs: seq<Group>, vs: seq<Verdict>) {
    |vs| == |gs| && forall i | 0 <= i < |gs| :: vs[i].file == gs[i].file && vs[i].minIndex == gs[i].minIndex
  }

  /** Slices are filled in order, greedily for what is kept and within the budget, and
      the last one holds what is open. */
  ghost predicate VerdictsOk(gs: seq<Group>, b: Budget, vs: seq<Verdict>, open: Open) {
    && Named(gs, vs)
    && open == Greedy(Kept(gs, vs), b.Slice())
    && SlicesInOrder(gs, vs, open.slices)
    && (RequiredFit(gs, b.Slice()) ==> SlicesFit(gs, vs, b.Slice()))
    && (open.slices > 0 ==> Total(InSlice(gs, vs, open.slices - 1)) == Caps(open.bytes, open.tokens))
  }

  /** What is true of the packer after any prefix of the groups. */
  ghost predicate PlanOk(gs: seq<Group>, b: Budget, p: Packer) {
    && VerdictsOk(gs, b, p.verdicts, p.open)
    && p.files == |Kept(gs, p.verdicts)|
    && p.open.slices <= b.maxSlices && (p.full ==> p.open.slices == b.maxSlices)
  }

  lemma KeptSnoc(gs: seq<Group>, vs: seq<Verdict>, g: Group, v: Verdict)
    requires |gs| == |vs|
    ensures Kept(gs + [g], vs + [v]) == if v.Keep? then Kept(gs, vs) + [g] else Kept(gs, vs)
  {
    assert (gs + [g])[..|gs|] == gs && (vs + [v])[..|vs|] == vs;
  }

  lemma InSliceSnoc(gs: seq<Group>, vs: seq<Verdict>, g: Group, v: Verdict, k: nat)
    requires |gs| == |vs|
    ensures InSlice(gs + [g], vs + [v], k) ==
            if v.Keep? && v.slice == k then InSlice(gs, vs, k) + [g] else InSlice(gs, vs, k)
  {
    assert (gs + [g])[..|gs|] == gs && (vs + [v])[..|vs|] == vs;
  }

  lemma {:induction false} SliceUnused(gs: seq<Group>, vs: seq<Verdict>, k: nat)
    requires |gs| == |vs| && forall i | 0 <= i < |vs| && vs[i].Keep? :: vs[i].slice != k
    ensures InSlice(gs, vs, k) == []
  {
    if gs != [] { SliceUnused(gs[..|gs| - 1], vs[..|gs| - 1], k); }
  }

  lemma FitBefore(gs: seq<Group>, g: Group, c: Caps)
    requires RequiredFit(gs + [g], c)
    ensures RequiredFit(gs, c) && (g.required ==> g.bytes <= c.bytes && g.tokens <= c.tokens)
  {
    forall i | 0 <= i < |gs| && gs[i].required ensures gs[i].bytes <= c.bytes && gs[i].tokens <= c.tokens {
      assert (gs + [g])[i] == gs[i];
    }
    assert (gs + [g])[|gs|] == g;
  }

  lemma DropFits(gs: seq<Group>, vs: seq<Verdict>, g: Group, v: Verdict, c: Caps)
    requires |gs| == |vs| && v.Drop? && SlicesFit(gs, vs, c)
    ensures SlicesFit(gs + [g], vs + [v], c)
  {
    forall k ensures Total(InSlice(gs + [g], vs + [v], k)).AtMost(c) {
      InSliceSnoc(gs, vs, g, v, k);
    }
  }

  lemma DropInOrder(gs: seq<Group>, vs: seq<Verdict>, g: Group, v: Verdict, slices: nat)
    requires |gs| == |vs| && v.Drop? && SlicesInOrder(gs, vs, slices)
    ensures SlicesInOrder(gs + [g], vs + [v], slices)
  {
    forall k | 0 <= k < slices ensures InSlice(gs + [g], vs + [v], k) != [] {
      InSliceSnoc(gs, vs, g, v, k);
    }
  }

  lemma DropOk(gs: seq<Group>, b: Budget, p: Packer, g: Group, r: Reason, q: Packer)
    requires PlanOk(gs, b, p) && q == Dropped(p, g, r).(full := q.full)
    requires q.full ==> q.open.slices == b.maxSlices
    ensures PlanOk(gs + [g], b, q)
  {
    DroppedInPlan(gs, b, p.verdicts, p.open, g, Drop(g.file, g.minIndex, r));
  }

  lemma DroppedInPlan(gs: seq<Group>, b: Budget, vs: seq<Verdict>, open: Open, g: Group, v: Verdict)
    requires VerdictsOk(gs, b, vs, open) && v.Drop? && v.file == g.file && v.minIndex == g.minIndex
    ensures VerdictsOk(gs + [g], b, vs + [v], open) && Kept(gs + [g], vs + [v]) == Kept(gs, vs)
  {
    var all, ws := gs + [g], vs + [v];
    assert Named(all, ws) by { NamedSnoc(gs, vs, g, v); }
    assert Kept(all, ws) == Kept(gs, vs) by { KeptSnoc(gs, vs, g, v); }
    assert SlicesInOrder(all, ws, open.slices) by { DropInOrder(gs, vs, g, v, open.slices); }
    assert open.slices > 0 ==> Total(InSlice(all, ws, open.slices - 1)) == Caps(open.bytes, open.tokens) by {
      if open.slices > 0 { InSliceSnoc(gs, vs, g, v, open.slices - 1); }
    }
    assert RequiredFit(all, b.Slice()) ==> SlicesFit(all, ws, b.Slice()) by {
      if RequiredFit(all, b.Slice()) {
        FitBefore(gs, g, b.Slice());
        DropFits(gs, vs, g, v, b.Slice());
      }
    }
  }

  lemma NamedSnoc(gs: seq<Group>, vs: seq<Verdict>, g: Group, v: Verdict)
    requires Named(gs, vs) && v.file == g.file && v.minIndex == g.minIndex
    ensures Named(gs + [g], vs + [v])
  {
  }

  lemma KeepOk(gs: seq<Group>, b: Budget, p: Packer, g: Group)
    requires b.Valid() && PlanOk(gs, b, p)
    requires !g.required ==> g.bytes <= b.maxBytes && g.tokens <= b.maxTokens
    requires OpensNew(p.open, g, b.Slice()) ==> p.open.slices < b.maxSlices
    ensures PlanOk(gs + [g], b, Keeping(p, g, b))
  {
    var o := Put(p.open, g, b.Slice());
    KeptInPlan(gs, b, p.verdicts, p.open, g, Keep(g.file, g.minIndex, o.slices - 1), o);
  }

  /** The verdicts' side of keeping one more group. */
  lemma KeptInPlan(gs: seq<Group>, b: Budget, vs: seq<Verdict>, open: Open, g: Group, v: Verdict, o: Open)
    requires VerdictsOk(gs, b, vs, open)
    requires b.Valid() && (!g.required ==> g.bytes <= b.maxBytes && g.tokens <= b.maxTokens)
    requires o == Put(open, g, b.Slice()) && v == Keep(g.file, g.minIndex, o.slices - 1)
    ensures VerdictsOk(gs + [g], b, vs + [v], o) && Kept(gs + [g], vs + [v]) == Kept(gs, vs) + [g]
  {
    assert Named(gs + [g], vs + [v]) by { NamedSnoc(gs, vs, g, v); }
    KeptSnoc(gs, vs, g, v);
    GreedySnoc(Kept(gs, vs), g, b.Slice());
    assert SlicesInOrder(gs + [g], vs + [v], o.slices) by { KeepInOrder(gs, vs, g, v, open.slices, o.slices); }
    LastSlice(gs, vs, open, b.Slice(), g, v);
    assert RequiredFit(gs + [g], b.Slice()) ==> SlicesFit(gs + [g], vs + [v], b.Slice()) by {
      if RequiredFit(gs + [g], b.Slice()) {
        FitBefore(gs, g, b.Slice());
        KeepFits(gs, b, vs, g, v);
      }
    }
  }

  lemma KeepInOrder(gs: seq<Group>, vs: seq<Verdict>, g: Group, v: Verdict, before: nat, after: nat)
    requires |gs| == |vs| && v.Keep? && SlicesInOrder(gs, vs, before)
    requires after == before + 1 || (after == before && before > 0)
    requires v.slice == after - 1
    ensures SlicesInOrder(gs + [g], vs + [v], after)
  {
    forall k | 0 <= k < after ensures InSlice(gs + [g], vs + [v], k) != [] {
      InSliceSnoc(gs, vs, g, v, k);
    }
  }

  lemma LastSlice(gs: seq<Group>, vs: seq<Verdict>, open: Open, c: Caps, g: Group, v: Verdict)
    requires |gs| == |vs| && (forall i | 0 <= i < |vs| && vs[i].Keep? :: vs[i].slice < open.slices)
    requires open.slices > 0 ==> Total(InSlice(gs, vs, open.slices - 1)) == Caps(open.bytes, open.tokens)
    requires v.Keep? && v.slice == Put(open, g, c).slices - 1
    ensures var o := Put(open, g, c); Total(InSlice(gs + [g], vs + [v], v.slice)) == Caps(o.bytes, o.tokens)
  {
    InSliceSnoc(gs, vs, g, v, v.slice);
    GreedySnoc(InSlice(gs, vs, v.slice), g, c);
    if OpensNew(open, g, c) { SliceUnused(gs, vs, v.slice); }
  }

  lemma KeepFits(gs: seq<Group>, b: Budget, vs: seq<Verdict>, g: Group, v: Verdict)
    requires |gs| == |vs| && SlicesFit(gs, vs, b.Slice()) && v.Keep?
    requires Total(InSlice(gs + [g], vs + [v], v.slice)).AtMost(b.Slice())
    ensures SlicesFit(gs + [g], vs + [v], b.Slice())
  {
    forall k ensures Total(InSlice(gs + [g], vs + [v], k)).AtMost(b.Slice()) {
      InSliceSnoc(gs, vs, g, v, k);
    }
  }

  /** The plan is feasible after every group, so as long as no required group
      failed: one verdict per group in order; slice indices never decrease, skip
      none and stay below maxSlices; each slice is within the budget when every
      required group is; and no packing of the kept groups in this order uses
      fewer slices. */
  lemma {:induction false} PlanIsFeasible(gs: seq<Group>, b: Budget)
    requires b.Valid() && !Pack(gs, b).failed
    ensures PlanOk(gs, b, Pack(gs, b))
  {
    if gs != [] {
      var n := |gs| - 1;
      var p, g := Pack(gs[..n], b), gs[n];
      assert gs == gs[..n] + [g];
      PlanIsFeasible(gs[..n], b);
      if !g.required && p.full {
        DropOk(gs[..n], b, p, g, SliceLimit, Pack(gs, b));
      } else if !g.required && p.files >= b.maxFiles {
        DropOk(gs[..n], b, p, g, FileLimit, Pack(gs, b));
      } else if !g.required && (g.bytes > b.maxBytes || g.tokens > b.maxTokens) {
        DropOk(gs[..n], b, p, g, Oversized, Pack(gs, b));
      } else if OpensNew(p.open, g, b.Slice()) && p.open.slices == b.maxSlices {
        DropOk(gs[..n], b, p, g, SliceLimit, Pack(gs, b));
      } else {
        KeepOk(gs[..n], b, p, g);
      }
    }
  }

  // ----- every drop has its reason -----

  lemma StepVerdicts(p: Packer, g: Group, b: Budget)
    requires !StepPack(p, g, b).failed
    ensures !p.failed && |StepPack(p, g, b).verdicts| == |p.verdicts| + 1
    ensures StepPack(p, g, b).verdicts[..|p.verdicts|] == p.verdicts
  {
  }

  lemma {:induction false} Prefixes(gs: seq<Group>, i: nat, b: Budget)
    requires !Pack(gs, b).failed && i <= |gs|
    ensures !Pack(gs[..i], b).failed
    ensures |Pack(gs, b).verdicts| == |gs| && Pack(gs[..i], b).verdicts == Pack(gs, b).verdicts[..i]
  {
    assert gs[..|gs|] == gs;
    if gs != [] {
      var n := |gs| - 1;
      StepVerdicts(Pack(gs[..n], b), gs[n], b);
      Prefixes(gs[..n], if i < n then i else n, b);
      if i < n { assert gs[..n][..i] == gs[..i]; }
      if i == n { assert gs[..n][..n] == gs[..n]; }
    }
  }

  /** Once the packer stops opening slices, some group overflowed them. */
  lemma {:induction false} FullBecause(gs: seq<Group>, b: Budget) returns (j: nat)
    requires b.Valid() && !Pack(gs, b).failed && Pack(gs, b).full
    ensures |Pack(gs, b).verdicts| == |gs| && j < |gs| && Overflows(gs, Pack(gs, b).verdicts, b, j)
  {
    var n := |gs| - 1;
    Prefixes(gs, n, b);
    var p, vs := Pack(gs[..n], b), Pack(gs, b).verdicts;
    if p.full {
      j := FullBecause(gs[..n], b);
      assert gs[..n][..j] == gs[..j] && vs[..n][..j] == vs[..j];
    } else {
      j := n;
      PlanIsFeasible(gs[..n], b);
      GreedySnoc(Kept(gs[..n], p.verdicts), gs[n], b.Slice());
    }
  }

  /** The verdict on group i is the one the packer gives it after the groups before. */
  lemma VerdictAt(gs: seq<Group>, i: nat, b: Budget)
    requires b.Valid() && !Pack(gs, b).failed && i < |gs|
    ensures !Pack(gs[..i], b).failed && |Pack(gs, b).verdicts| == |gs|
    ensures Pack(gs[..i], b).verdicts == Pack(gs, b).verdicts[..i]
    ensures var q := StepPack(Pack(gs[..i], b), gs[i], b);
            q == Pack(gs[..i + 1], b) && |q.verdicts| == i + 1 && q.verdicts[i] == Pack(gs, b).verdicts[i]
  {
    Prefixes(gs, i, b);
    Prefixes(gs, i + 1, b);
    PackPrefix(gs, i, b);
  }

  lemma EveryDropJustified(gs: seq<Group>, b: Budget, i: nat)
    requires b.Valid() && !Pack(gs, b).failed && i < |gs|
    ensures |Pack(gs, b).verdicts| == |gs|
    ensures Pack(gs, b).verdicts[i].Drop? ==> Justified(gs, Pack(gs, b).verdicts, b, i)
  {
    VerdictAt(gs, i, b);
    PlanIsFeasible(gs[..i], b);
    if Pack(gs, b).verdicts[i].Drop? && Pack(gs, b).verdicts[i].reason == SliceLimit {
      var j := LimitBecause(gs, b, i);
    }
  }

  lemma LimitBecause(gs: seq<Group>, b: Budget, i: nat) returns (j: nat)
    requires b.Valid() && !Pack(gs, b).failed && i < |gs| == |Pack(gs, b).verdicts|
    requires Pack(gs, b).verdicts[i].Drop? && Pack(gs, b).verdicts[i].reason == SliceLimit
    ensures j <= i && Overflows(gs, Pack(gs, b).verdicts, b, j)
  {
    VerdictAt(gs, i, b);
    PlanIsFeasible(gs[..i], b);
    var p, vs := Pack(gs[..i], b), Pack(gs, b).verdicts;
    if p.full {
      j := FullBecause(gs[..i], b);
      assert gs[..i][..j] == gs[..j] && vs[..i][..j] == vs[..j];
    } else {
      j := i;
      GreedySnoc(Kept(gs[..i], p.verdicts), gs[i], b.Slice());
    }
  }

  lemma {:induction false} FullStays(gs: seq<Group>, i: nat, b: Budget)
    requires i <= |gs| && Pack(gs[..i], b).full
    ensures Pack(gs, b).full
    decreases |gs| - i
  {
    if i < |gs| {
      PackPrefix(gs, i, b);
      FullStays(gs, i + 1, b);
    } else {
      assert gs[..i] == gs;
    }
  }

  /** After the slice limit is reached no group that may be dropped is kept. */
  lemma SliceLimitIsFinal(gs: seq<Group>, b: Budget, i: nat, j: nat)
    requires b.Valid() && !Pack(gs, b).failed && i < j < |gs| && !gs[j].required
    requires |Pack(gs, b).verdicts| == |gs|
    requires Pack(gs, b).verdicts[i].Drop? && Pack(gs, b).verdicts[i].reason == SliceLimit
    ensures Pack(gs, b).verdicts[j] == Drop(gs[j].file, gs[j].minIndex, SliceLimit)
  {
    assert Pack(gs[..i + 1], b).full by { VerdictAt(gs, i, b); }
    assert Pack(gs[..j], b).full by {
      assert gs[..j][..i + 1] == gs[..i + 1];
      FullStays(gs[..j], i + 1, b);
    }
    VerdictAt(gs, j, b);
  }

  // ----- the floor check is sound -----

  /** Required groups come before every other, as the rank order puts them. */
  ghost predicate RequiredFirst(gs: seq<Group>) {
    forall i, j | 0 <= i < j < |gs| && gs[j].required :: gs[i].required
  }

  ghost predicate Accepted(gs: seq<Group>, b: Budget) {
    !SomeRequired(gs) || b.AtLeast(Floor(gs))
  }

  lemma {:induction false} RequiredPrefix(gs: seq<Group>)
    requires RequiredFirst(gs)
    ensures |Required(gs)| <= |gs| && Required(gs) == gs[..|Required(gs)|]
    ensures forall i | 0 <= i < |gs| :: gs[i].required <==> i < |Required(gs)|
  {
    if gs != [] {
      var n := |gs| - 1;
      RequiredPrefix(gs[..n]);
      forall i | 0 <= i < n ensures gs[i].required <==> i < |Required(gs[..n])| {
        assert gs[..n][i] == gs[i];
      }
      if gs[n].required {
        assert n > 0 ==> gs[n - 1].required;
        assert |Required(gs[..n])| == n;
        assert gs[..n] + [gs[n]] == gs;
      }
    }
  }

  /** While the groups are required the packer opens slices greedily and keeps every one
      of them, and fails at the first slice over the limit. */
  lemma {:induction false} RequiredWalk(gs: seq<Group>, b: Budget, i: nat)
    requires b.Valid() && i <= |gs| && forall k | 0 <= k < i :: gs[k].required
    ensures Pack(gs[..i], b).failed <==> Greedy(gs[..i], b.Slice()).slices > b.maxSlices
    ensures !Pack(gs[..i], b).failed ==> AllKept(Pack(gs[..i], b), i, Greedy(gs[..i], b.Slice()))
  {
    if i > 0 {
      var before, g := gs[..i - 1], gs[i - 1];
      RequiredWalk(gs, b, i - 1);
      assert gs[..i] == before + [g];
      PackPrefix(gs, i - 1, b);
      GreedySnoc(before, g, b.Slice());
      RequiredStep(Pack(before, b), g, b, i - 1);
    }
  }

  ghost predicate AllKept(p: Packer, n: nat, open: Open) {
    p.files == n && p.open == open && |p.verdicts| == n && forall k | 0 <= k < n :: p.verdicts[k].Keep?
  }

  lemma RequiredStep(p: Packer, g: Group, b: Budget, n: nat)
    requires g.required && (!p.failed ==> AllKept(p, n, p.open) && p.open.slices <= b.maxSlices)
    ensures StepPack(p, g, b).failed <==> p.failed || Put(p.open, g, b.Slice()).slices > b.maxSlices
    ensures !StepPack(p, g, b).failed ==> AllKept(StepPack(p, g, b), n + 1, Put(p.open, g, b.Slice()))
  {
  }

  /** The required groups take no more slices at the budget than at the floor. */
  lemma FloorSlices(gs: seq<Group>, b: Budget)
    requires b.AtLeast(Floor(gs))
    ensures Greedy(Required(gs), b.Slice()).slices <= b.maxSlices
  {
    RequiredWithin(gs);
    WiderNeedsNoMore(Required(gs), Largest(gs), b.Slice());
  }

  lemma {:induction false} RequiredWithin(gs: seq<Group>)
    ensures forall k | 0 <= k < |Required(gs)| ::
      Required(gs)[k].bytes <= Largest(gs).bytes && Required(gs)[k].tokens <= Largest(gs).tokens
  {
    if gs != [] { RequiredWithin(gs[..|gs| - 1]); }
  }

  lemma {:induction false} LargestBounds(gs: seq<Group>)
    ensures 0 <= Largest(gs).bytes && 0 <= Largest(gs).tokens
  {
    if gs != [] { LargestBounds(gs[..|gs| - 1]); }
  }

  lemma OptionalStep(p: Packer, g: Group, b: Budget)
    requires !g.required
    ensures var q := StepPack(p, g, b);
      && (q.failed <==> p.failed)
      && (!p.failed ==> (p.files <= b.maxFiles ==> q.files <= b.maxFiles)
                        && |q.verdicts| == |p.verdicts| + 1 && q.verdicts[..|p.verdicts|] == p.verdicts)
  {
  }

  /** A group that is not required never fails the packer, nor is kept over the limit on
      files. */
  lemma {:induction false} TailPacked(gs: seq<Group>, b: Budget, m: nat)
    requires m <= |gs| && (forall i | m <= i < |gs| :: !gs[i].required)
    requires !Pack(gs[..m], b).failed ==> |Pack(gs[..m], b).verdicts| == m
    ensures Pack(gs, b).failed <==> Pack(gs[..m], b).failed
    ensures !Pack(gs, b).failed ==>
      && (Pack(gs[..m], b).files <= b.maxFiles ==> Pack(gs, b).files <= b.maxFiles)
      && |Pack(gs, b).verdicts| == |gs| && Pack(gs, b).verdicts[..m] == Pack(gs[..m], b).verdicts
  {
    if m < |gs| {
      var n := |gs| - 1;
      assert gs[..n][..m] == gs[..m];
      TailPacked(gs[..n], b, m);
      OptionalStep(Pack(gs[..n], b), gs[n], b);
      if !Pack(gs, b).failed { Narrower(Pack(gs, b).verdicts, m, n); }
    } else {
      assert gs[..m] == gs;
    }
  }

  lemma Narrower(vs: seq<Verdict>, m: nat, n: nat)
    requires m <= n <= |vs|
    ensures vs[..n][..m] == vs[..m]
  {
  }

  /** Behind an accepting floor check the packer never reaches its internal error,
      keeps every required group, and keeps at most maxFiles files. */
  lemma FloorCheckIsSound(gs: seq<Group>, b: Budget)
    requires b.Valid() && RequiredFirst(gs) && Accepted(gs, b)
    ensures var p := Pack(gs, b);
            && !p.failed && p.files <= b.maxFiles && |p.verdicts| == |gs|
            && forall i | 0 <= i < |gs| && gs[i].required :: p.verdicts[i].Keep?
  {
    var m := |Required(gs)|;
    RequiredPrefix(gs);
    RequiredOf(gs);
    RequiredWalk(gs, b, m);
    if SomeRequired(gs) {
      FloorSlices(gs, b);
    }
    TailPacked(gs, b, m);
    forall i | 0 <= i < |gs| && gs[i].required ensures Pack(gs, b).verdicts[i].Keep? {
      assert Pack(gs, b).verdicts[i] == Pack(gs, b).verdicts[..m][i];
    }
  }

  /** The check and the packer together: a plan, or the floor, never an internal
      error; and the floor a refusal reports is itself accepted. */
  method PassPack(gs: seq<Group>, b: Budget) returns (r: Outcome<seq<Verdict>>)
    requires b.Valid() && RequiredFirst(gs)
    ensures r.Ok? <==> Accepted(gs, b)
    ensures r.MinimumBudget? <==> !Accepted(gs, b)
    ensures r.MinimumBudget? ==> Accepted(gs, r.floor)
    ensures r.Ok? ==> |r.value| == |gs| && forall i | 0 <= i < |gs| && gs[i].required :: r.value[i].Keep?
    ensures r.Ok? ==> |Kept(gs, r.value)| <= b.maxFiles && SlicesInOrder(gs, r.value, Pack(gs, b).open.slices)
    ensures r.Ok? ==> SlicesFit(gs, r.value, b.Slice()) && Pack(gs, b).open.slices <= b.maxSlices
  {
    var fits := CheckRequiredFits(gs, b);
    if !fits.Ok? {
      return MinimumBudget(fits.floor);
    }
    FloorCheckIsSound(gs, b);
    PlanIsFeasible(gs, b);
    AcceptedFits(gs, b);
    r := PackPlanStream(gs, b);
  }

  /** Re-running with the reported floor is accepted and keeps every required group. */
  lemma FloorIsEnough(gs: seq<Group>)
    requires RequiredFirst(gs) && SomeRequired(gs)
    requires forall i | 0 <= i < |gs| :: gs[i].bytes > 0 && gs[i].tokens > 0
    ensures Floor(gs).Valid() && Accepted(gs, Floor(gs))
    ensures var p := Pack(gs, Floor(gs));
            !p.failed && |p.verdicts| == |gs| && forall i | 0 <= i < |gs| && gs[i].required :: p.verdicts[i].Keep?
  {
    var i :| 0 <= i < |gs| && gs[i].required;
    LargestBounds(gs);
    LargestCovers(gs, Largest(gs));
    RequiredOf(gs);
    FloorCheckIsSound(gs, Floor(gs));
  }

  lemma AcceptedFits(gs: seq<Group>, b: Budget)
    requires b.Valid() && Accepted(gs, b)
    ensures RequiredFit(gs, b.Slice())
  {
    LargestCovers(gs, b.Slice());
  }

  // ----- what the check refuses -----

  /** The packer reaches its internal error exactly when the required groups take more
      slices at the budget than it allows. */
  lemma FailsExactly(gs: seq<Group>, b: Budget)
    requires b.Valid() && RequiredFirst(gs)
    ensures Pack(gs, b).failed <==> Greedy(Required(gs), b.Slice()).slices > b.maxSlices
  {
    RequiredPrefix(gs);
    RequiredWalk(gs, b, |Required(gs)|);
    TailPacked(gs, b, |Required(gs)|);
  }

  /** The packer, run without the check, would keep every required group within the
      budget. */
  ghost predicate CouldBeMet(gs: seq<Group>, b: Budget) {
    !Pack(gs, b).failed && RequiredFit(gs, b.Slice()) && |Required(gs)| <= b.maxFiles
  }

  /** Exactly which budgets are refused although the packer could meet them: those whose
      slice limit is between what the required groups take at the budget and what they
      take at the size of the largest of them. */
  lemma RefusedThoughMet(gs: seq<Group>, b: Budget)
    requires b.Valid() && RequiredFirst(gs)
    ensures !Accepted(gs, b) && CouldBeMet(gs, b) <==>
      && SomeRequired(gs) && RequiredFit(gs, b.Slice()) && |Required(gs)| <= b.maxFiles
      && Greedy(Required(gs), b.Slice()).slices <= b.maxSlices < Greedy(Required(gs), Largest(gs)).slices
  {
    FailsExactly(gs, b);
    LargestCovers(gs, b.Slice());
    LargestBounds(gs);
  }

  const FIRST := Group("a", "a", true, 1, 1, 0)
  const SECOND := Group("b", "b", true, 1, 1, 1)

  lemma TwoAtTheFloor()
    ensures Floor([FIRST, SECOND]) == Budget(1, 1, 2, 2)
  {
    var gs := [FIRST, SECOND];
    assert gs[..1] == [FIRST] && [FIRST][..0] == [];
    assert Required([FIRST]) == [FIRST] && Required(gs) == gs;
    assert Largest([FIRST]) == Caps(1, 1) && Largest(gs) == Caps(1, 1);
    assert Greedy([FIRST], Caps(1, 1)) == Open(1, 1, 1);
    assert Greedy(gs, Caps(1, 1)) == Put(Open(1, 1, 1), SECOND, Caps(1, 1));
  }

  lemma TwoPacked(b: Budget)
    requires b == Budget(2, 2, 2, 1)
    ensures !Pack([FIRST, SECOND], b).failed
    ensures Pack([FIRST, SECOND], b).verdicts == [Keep("a", 0, 0), Keep("b", 1, 0)]
  {
    var gs := [FIRST, SECOND];
    assert gs[..1] == [FIRST] && [FIRST][..0] == [];
    PackPrefix(gs, 0, b);
    PackPrefix(gs, 1, b);
    assert gs[..0] == [] && gs[..2] == gs;
    var p := Pack(gs[..1], b);
    assert p == StepPack(Packer(0, Open(0, 0, 0), false, [], false), FIRST, b);
    assert p.open == Open(1, 1, 1) && p.verdicts == [Keep("a", 0, 0)];
    assert Pack(gs, b) == StepPack(p, SECOND, b);
  }

  /** The check is not complete: it counts slices at the floor and not at the
      budget, so it refuses two small required files the packer would have kept
      together in one wide slice. */
  lemma RefusesWhatWouldFit()
    ensures var gs, b := [FIRST, SECOND], Budget(2, 2, 2, 1);
            && !Accepted(gs, b) && !Pack(gs, b).failed
            && Pack(gs, b).verdicts == [Keep("a", 0, 0), Keep("b", 1, 0)]
  {
    TwoAtTheFloor();
    TwoPacked(Budget(2, 2, 2, 1));
    assert [FIRST, SECOND][0].required;
  }
}
