/** Greedy packing of a fixed order into slices with a byte and a token bound:
    open a new slice only when the next group does not fit in the last one. */
module NextFit {
  /** One file's entries, kept or dropped together. */
  datatype Group = Group(file: string, path: string, required: bool, bytes: nat, tokens: nat, minIndex: nat)

  /** How many slices are open and what the last one holds. */
  datatype Open = Open(slices: nat, bytes: nat, tokens: nat)

  datatype Caps = Caps(bytes: int, tokens: int) {
    predicate AtMost(other: Caps) { bytes <= other.bytes && tokens <= other.tokens }
  }

  predicate OpensNew(o: Open, g: Group, c: Caps) {
    o.slices == 0 || o.bytes + g.bytes > c.bytes || o.tokens + g.tokens > c.tokens
  }

  function Put(o: Open, g: Group, c: Caps): Open {
    if OpensNew(o, g, c) then Open(o.slices + 1, g.bytes, g.tokens)
    else Open(o.slices, o.bytes + g.bytes, o.tokens + g.tokens)
  }

  function Greedy(gs: seq<Group>, c: Caps): Open {
    if gs == [] then Open(0, 0, 0) else Put(Greedy(gs[..|gs| - 1], c), gs[|gs| - 1], c)
  }

  // ----- any way to cut the order into slices -----

  function Total(gs: seq<Group>): (t: Caps)
    ensures t.bytes >= 0 && t.tokens >= 0
  {
    if gs == [] then Caps(0, 0)
    else var t := Total(gs[..|gs| - 1]); Caps(t.bytes + gs[|gs| - 1].bytes, t.tokens + gs[|gs| - 1].tokens)
  }

  function Concat(slices: seq<seq<Group>>): seq<Group> {
    if slices == [] then [] else Concat(slices[..|slices| - 1]) + slices[|slices| - 1]
  }

  ghost predicate Fits(slices: seq<seq<Group>>, c: Caps) {
    forall k | 0 <= k < |slices| :: Total(slices[k]).AtMost(c)
  }

  lemma GreedySnoc(gs: seq<Group>, g: Group, c: Caps)
    ensures Greedy(gs + [g], c) == Put(Greedy(gs, c), g, c)
    ensures Total(gs + [g]) == Caps(Total(gs).bytes + g.bytes, Total(gs).tokens + g.tokens)
  {
    assert (gs + [g])[..|gs|] == gs;
  }

  lemma {:induction false} TotalGrows(gs: seq<Group>, k: nat)
    requires k <= |gs|
    ensures Total(gs[..k]).AtMost(Total(gs))
  {
    if k < |gs| {
      TotalGrows(gs[..|gs| - 1], k);
      assert gs[..|gs| - 1][..k] == gs[..k];
    } else {
      assert gs[..k] == gs;
    }
  }

  /** While it packs what would fit in one slice, the greedy walk opens at most one. */
  lemma {:induction false} OneSliceOpensOne(gs: seq<Group>, slice: seq<Group>, k: nat, c: Caps)
    requires Total(slice).AtMost(c) && k <= |slice|
    ensures var o, o' := Greedy(gs, c), Greedy(gs + slice[..k], c);
            || o'.slices == o.slices
            || (&& o'.slices == o.slices + 1
                && o'.bytes <= Total(slice[..k]).bytes && o'.tokens <= Total(slice[..k]).tokens)
  {
    if k == 0 {
      assert gs + slice[..0] == gs;
    } else {
      OneSliceOpensOne(gs, slice, k - 1, c);
      assert slice[..k] == slice[..k - 1] + [slice[k - 1]];
      assert gs + slice[..k] == (gs + slice[..k - 1]) + [slice[k - 1]];
      GreedySnoc(gs + slice[..k - 1], slice[k - 1], c);
      GreedySnoc(slice[..k - 1], slice[k - 1], c);
      TotalGrows(slice, k);
    }
  }

  /** No way of cutting the same order into slices that fit uses fewer slices. */
  lemma {:induction false} GreedyIsMinimal(slices: seq<seq<Group>>, c: Caps)
    requires Fits(slices, c)
    ensures Greedy(Concat(slices), c).slices <= |slices|
  {
    if slices != [] {
      var n := |slices| - 1;
      GreedyIsMinimal(slices[..n], c);
      OneSliceOpensOne(Concat(slices[..n]), slices[n], |slices[n]|, c);
      assert slices[n][..|slices[n]|] == slices[n];
    }
  }

  /** A cut of the order into slices that fit, the last of them holding what is open. */
  ghost predicate IsCut(slices: seq<seq<Group>>, gs: seq<Group>, o: Open, c: Caps) {
    && Concat(slices) == gs && |slices| == o.slices && Fits(slices, c)
    && (slices != [] ==> Total(slices[|slices| - 1]) == Caps(o.bytes, o.tokens))
  }

  lemma NewCut(slices: seq<seq<Group>>, gs: seq<Group>, o: Open, g: Group, c: Caps)
    requires IsCut(slices, gs, o, c) && g.bytes <= c.bytes && g.tokens <= c.tokens
    ensures IsCut(slices + [[g]], gs + [g], Open(o.slices + 1, g.bytes, g.tokens), c)
  {
    assert (slices + [[g]])[..|slices|] == slices;
    assert [g][..0] == [];
    assert Total([g]) == Caps(g.bytes, g.tokens);
  }

  /** A group that fits in the last slice goes there. */
  lemma GrownCut(slices: seq<seq<Group>>, gs: seq<Group>, o: Open, g: Group, c: Caps)
    requires IsCut(slices, gs, o, c) && slices != [] && o.bytes + g.bytes <= c.bytes && o.tokens + g.tokens <= c.tokens
    ensures var m := |slices| - 1;
      IsCut(slices[m := slices[m] + [g]], gs + [g], Open(o.slices, o.bytes + g.bytes, o.tokens + g.tokens), c)
  {
    var m := |slices| - 1;
    GreedySnoc(slices[m], g, c);
    var grown := slices[m := slices[m] + [g]];
    assert grown[..m] == slices[..m];
    assert Concat(grown) == Concat(slices[..m]) + (slices[m] + [g]);
  }

  /** The greedy walk is itself such a cut, when every group fits by itself. */
  lemma {:induction false} GreedyCut(gs: seq<Group>, c: Caps) returns (slices: seq<seq<Group>>)
    requires forall i | 0 <= i < |gs| :: gs[i].bytes <= c.bytes && gs[i].tokens <= c.tokens
    ensures IsCut(slices, gs, Greedy(gs, c), c)
  {
    if gs == [] {
      slices := [];
    } else {
      var n := |gs| - 1;
      var before := GreedyCut(gs[..n], c);
      var o := Greedy(gs[..n], c);
      assert gs == gs[..n] + [gs[n]];
      if OpensNew(o, gs[n], c) {
        NewCut(before, gs[..n], o, gs[n], c);
        slices := before + [[gs[n]]];
      } else {
        GrownCut(before, gs[..n], o, gs[n], c);
        slices := before[|before| - 1 := before[|before| - 1] + [gs[n]]];
      }
    }
  }

  /** Wider slices never need more of them. */
  lemma WiderNeedsNoMore(gs: seq<Group>, c: Caps, wider: Caps)
    requires c.AtMost(wider)
    requires forall i | 0 <= i < |gs| :: gs[i].bytes <= c.bytes && gs[i].tokens <= c.tokens
    ensures Greedy(gs, wider).slices <= Greedy(gs, c).slices
  {
    var slices := GreedyCut(gs, c);
    GreedyIsMinimal(slices, wider);
  }

  lemma {:induction false} PrefixNeedsNoMore(gs: seq<Group>, k: nat, c: Caps)
    requires k <= |gs|
    ensures Greedy(gs[..k], c).slices <= Greedy(gs, c).slices
  {
    if k == |gs| {
      assert gs[..k] == gs;
    } else {
      PrefixNeedsNoMore(gs[..|gs| - 1], k, c);
      assert gs[..|gs| - 1][..k] == gs[..k];
    }
  }
}
