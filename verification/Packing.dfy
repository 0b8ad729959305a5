/** The required floor of a budget, and the packer it admits a plan to. */
module Packing {
  import opened NextFit
  import opened Options

  datatype Budget = Budget(maxBytes: int, maxTokens: int, maxFiles: int, maxSlices: int) {
    /** What a resolved budget is: no bound is zero or less. */
    predicate Valid() { maxBytes > 0 && maxTokens > 0 && maxFiles > 0 && maxSlices > 0 }
    function Slice(): Caps { Caps(maxBytes, maxTokens) }
    predicate AtLeast(floor: Budget) {
      && maxBytes >= floor.maxBytes && maxTokens >= floor.maxTokens
      && maxFiles >= floor.maxFiles && maxSlices >= floor.maxSlices
    }
  }

  datatype Reason = SliceLimit | FileLimit | Oversized

  datatype Verdict =
    | Keep(file: string, minIndex: nat, slice: nat)
    | Drop(file: string, minIndex: nat, reason: Reason)

  datatype Outcome<T> = Ok(value: T) | MinimumBudget(floor: Budget) | Internal

  // ----- the packer as a function of the groups seen so far -----

  datatype Packer = Packer(files: nat, open: Open, full: bool, verdicts: seq<Verdict>, failed: bool)

  function StepPack(p: Packer, g: Group, b: Budget): Packer {
    if p.failed then p
    else if !g.required && p.full then Dropped(p, g, SliceLimit)
    else if !g.required && p.files >= b.maxFiles then Dropped(p, g, FileLimit)
    else if !g.required && (g.bytes > b.maxBytes || g.tokens > b.maxTokens) then Dropped(p, g, Oversized)
    else if OpensNew(p.open, g, b.Slice()) && p.open.slices == b.maxSlices then
      if g.required then p.(failed := true) else Dropped(p, g, SliceLimit).(full := true)
    else Keeping(p, g, b)
  }

  function Keeping(p: Packer, g: Group, b: Budget): Packer {
    var o := Put(p.open, g, b.Slice());
    p.(files := p.files + 1, open := o, verdicts := p.verdicts + [Keep(g.file, g.minIndex, o.slices - 1)])
  }

  function Dropped(p: Packer, g: Group, r: Reason): Packer {
    p.(verdicts := p.verdicts + [Drop(g.file, g.minIndex, r)])
  }

  function Pack(gs: seq<Group>, b: Budget): Packer {
    if gs == [] then Packer(0, Open(0, 0, 0), false, [], false)
    else StepPack(Pack(gs[..|gs| - 1], b), gs[|gs| - 1], b)
  }

  lemma PackPrefix(gs: seq<Group>, i: nat, b: Budget)
    requires i < |gs|
    ensures Pack(gs[..i + 1], b) == StepPack(Pack(gs[..i], b), gs[i], b)
  {
    assert gs[..i + 1][..i] == gs[..i];
  }

  lemma {:induction false} FailedStays(gs: seq<Group>, i: nat, b: Budget)
    requires i <= |gs| && Pack(gs[..i], b).failed
    ensures Pack(gs, b).failed
    decreases |gs| - i
  {
    if i < |gs| {
      PackPrefix(gs, i, b);
      FailedStays(gs, i + 1, b);
    } else {
      assert gs[..i] == gs;
    }
  }

  /** Where one group goes: into the open slice, into a new one or nowhere. failed is the
      internal error of a required group with no slice left. */
  method PackGroup(before: Packer, g: Group, b: Budget) returns (after: Packer)
    requires !before.failed
    ensures after == StepPack(before, g, b)
  {
    var files, slices, full := before.files, before.open.slices, before.full;
    var bytes, tokens := before.open.bytes, before.open.tokens;
    var drop := None;
    if !g.required {
      if full {
        drop := Some(SliceLimit);
      } else if files >= b.maxFiles {
        drop := Some(FileLimit);
      } else if g.bytes > b.maxBytes || g.tokens > b.maxTokens {
        drop := Some(Oversized);
      }
    }
    if drop.None? && (slices == 0 || bytes + g.bytes > b.maxBytes || tokens + g.tokens > b.maxTokens) {
      if slices == b.maxSlices {
        if g.required {
          return before.(failed := true);
        }
        full := true;
        drop := Some(SliceLimit);
      } else {
        slices := slices + 1;
        bytes, tokens := 0, 0;
      }
    }
    if drop.Some? {
      return before.(full := full, verdicts := before.verdicts + [Drop(g.file, g.minIndex, drop.value)]);
    }
    bytes := bytes + g.bytes;
    tokens := tokens + g.tokens;
    files := files + 1;
    var verdict := Keep(g.file, g.minIndex, slices - 1);
    after := Packer(files, Open(slices, bytes, tokens), full, before.verdicts + [verdict], false);
  }

  /** The forward walk over the ranked groups: one verdict per group, or the
      internal error of a required group that did not fit. */
  method PackPlanStream(gs: seq<Group>, b: Budget) returns (r: Outcome<seq<Verdict>>)
    ensures Pack(gs, b).failed ==> r == Internal
    ensures !Pack(gs, b).failed ==> r == Ok(Pack(gs, b).verdicts)
  {
    var p := Packer(0, Open(0, 0, 0), false, [], false);
    for i := 0 to |gs|
      invariant p == Pack(gs[..i], b) && !p.failed
    {
      PackPrefix(gs, i, b);
      p := PackGroup(p, gs[i], b);
      if p.failed {
        FailedStays(gs, i + 1, b);
        return Internal;
      }
    }
    assert gs[..|gs|] == gs;
    r := Ok(p.verdicts);
  }

  // ----- the required floor -----

  function Required(gs: seq<Group>): seq<Group> {
    if gs == [] then []
    else Required(gs[..|gs| - 1]) + if gs[|gs| - 1].required then [gs[|gs| - 1]] else []
  }

  function Max(a: int, b: int): int { if a >= b then a else b }

  /** The largest required group, in each dimension by itself. */
  function Largest(gs: seq<Group>): Caps {
    if gs == [] then Caps(0, 0)
    else
      var c, g := Largest(gs[..|gs| - 1]), gs[|gs| - 1];
      if g.required then Caps(Max(c.bytes, g.bytes), Max(c.tokens, g.tokens)) else c
  }

  /** The floor CTX_MINIMUM_BUDGET reports: the largest required group, the slices
      the required set takes at that size, and its number of files. */
  function Floor(gs: seq<Group>): Budget {
    var c := Largest(gs);
    Budget(c.bytes, c.tokens, |Required(gs)|, Max(Greedy(Required(gs), c).slices, 1))
  }

  predicate SomeRequired(gs: seq<Group>) {
    exists i | 0 <= i < |gs| :: gs[i].required
  }

  ghost predicate RequiredFit(gs: seq<Group>, c: Caps) {
    forall i | 0 <= i < |gs| && gs[i].required :: gs[i].bytes <= c.bytes && gs[i].tokens <= c.tokens
  }

  lemma {:induction false} LargestCovers(gs: seq<Group>, c: Caps)
    requires 0 <= c.bytes && 0 <= c.tokens
    ensures RequiredFit(gs, c) <==> Largest(gs).AtMost(c)
  {
    if gs != [] {
      var n := |gs| - 1;
      LargestCovers(gs[..n], c);
      if RequiredFit(gs, c) { assert RequiredFit(gs[..n], c); }
      if RequiredFit(gs[..n], c) && (gs[n].required ==> gs[n].bytes <= c.bytes && gs[n].tokens <= c.tokens) {
        forall i | 0 <= i < |gs| && gs[i].required ensures gs[i].bytes <= c.bytes && gs[i].tokens <= c.tokens {
          if i < n { assert gs[..n][i] == gs[i]; }
        }
      }
    }
  }

  lemma {:induction false} RequiredOf(gs: seq<Group>)
    ensures |Required(gs)| > 0 <==> SomeRequired(gs)
  {
    if gs != [] {
      var n := |gs| - 1;
      RequiredOf(gs[..n]);
      if SomeRequired(gs) && !gs[n].required {
        var i :| 0 <= i < |gs| && gs[i].required;
        assert gs[..n][i].required;
      }
    }
  }

  /** What one more group does to the floor. */
  lemma FloorStep(gs: seq<Group>, i: nat, c: Caps)
    requires i < |gs|
    ensures Required(gs[..i + 1]) == if gs[i].required then Required(gs[..i]) + [gs[i]] else Required(gs[..i])
    ensures var l := Largest(gs[..i]);
      Largest(gs[..i + 1]) == if gs[i].required then Caps(Max(l.bytes, gs[i].bytes), Max(l.tokens, gs[i].tokens)) else l
    ensures RequiredFit(gs[..i + 1], c) <==>
      RequiredFit(gs[..i], c) && (gs[i].required ==> gs[i].bytes <= c.bytes && gs[i].tokens <= c.tokens)
  {
    var before, after := gs[..i], gs[..i + 1];
    assert after[..i] == before && after[i] == gs[i];
    assert Required(before) + [] == Required(before);
    if RequiredFit(after, c) {
      forall j | 0 <= j < i && before[j].required ensures before[j].bytes <= c.bytes && before[j].tokens <= c.tokens {
        assert after[j] == before[j];
      }
    }
  }

  /** The slice count of the required groups at the given slice size. */
  method PackedSliceCount(gs: seq<Group>, maxBytes: int, maxTokens: int) returns (slices: nat)
    ensures slices == Greedy(Required(gs), Caps(maxBytes, maxTokens)).slices
  {
    slices := 0;
    var bytes, tokens := 0, 0;
    for i := 0 to |gs|
      invariant bytes >= 0 && tokens >= 0
      invariant Greedy(Required(gs[..i]), Caps(maxBytes, maxTokens)) == Open(slices, bytes, tokens)
    {
      var g := gs[i];
      FloorStep(gs, i, Caps(maxBytes, maxTokens));
      GreedySnoc(Required(gs[..i]), g, Caps(maxBytes, maxTokens));
      if !g.required {
        continue;
      }
      if slices == 0 || bytes + g.bytes > maxBytes || tokens + g.tokens > maxTokens {
        slices := slices + 1;
        bytes, tokens := 0, 0;
      }
      bytes := bytes + g.bytes;
      tokens := tokens + g.tokens;
    }
    assert gs[..|gs|] == gs;
  }

  /** The largest required group and the number of them, and whether one is over the
      budget by itself. */
  method RequiredFloor(gs: seq<Group>, b: Budget) returns (c: Caps, files: nat, oversized: bool)
    ensures c == Largest(gs) && files == |Required(gs)|
    ensures oversized <==> !RequiredFit(gs, b.Slice())
  {
    var floorBytes, floorTokens := 0, 0;
    files, oversized := 0, false;
    for i := 0 to |gs|
      invariant Largest(gs[..i]) == Caps(floorBytes, floorTokens) && files == |Required(gs[..i])|
      invariant oversized <==> !RequiredFit(gs[..i], b.Slice())
    {
      var g := gs[i];
      FloorStep(gs, i, b.Slice());
      if !g.required {
        continue;
      }
      files := files + 1;
      floorBytes := Max(floorBytes, g.bytes);
      floorTokens := Max(floorTokens, g.tokens);
      if g.bytes > b.maxBytes || g.tokens > b.maxTokens {
        oversized := true;
      }
    }
    assert gs[..|gs|] == gs;
    c := Caps(floorBytes, floorTokens);
  }

  /** The check in front of the packer. It accepts exactly the budgets that are at
      least the floor in every component, and otherwise reports that floor. */
  method CheckRequiredFits(gs: seq<Group>, b: Budget) returns (r: Outcome<()>)
    requires b.Valid()
    ensures r.Ok? <==> !SomeRequired(gs) || b.AtLeast(Floor(gs))
    ensures !r.Ok? ==> r == MinimumBudget(Floor(gs))
  {
    var c, requiredFiles, oversized := RequiredFloor(gs, b);
    RequiredOf(gs);
    LargestCovers(gs, b.Slice());
    if requiredFiles == 0 {
      return Ok(());
    }
    var floorSlices := PackedSliceCount(gs, c.bytes, c.tokens);
    var tooManyFiles := requiredFiles > b.maxFiles;
    var tooManySlices := floorSlices > b.maxSlices;
    if !oversized && !tooManyFiles && !tooManySlices {
      return Ok(());
    }
    r := MinimumBudget(Budget(c.bytes, c.tokens, requiredFiles, Max(floorSlices, 1)));
  }
}
