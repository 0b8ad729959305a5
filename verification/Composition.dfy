/** The plan an uninterrupted compile hands its last pass, written out as the passes one
    behind the other: what each of them is given, and whose error is the compile's. */
module Composition {
  import opened Options
  import opened Passes

  /** What the last pass is handed. */
  datatype Final<S> = Final(measured: Measured<S>, verdicts: S, scope: S, complete: bool)

  function Folded<S>(p: Pipeline<S>, w: Walk<S>, pages: seq<S>): Walk<S>
    decreases |pages|
  {
    if pages == [] then w else Folded(p, p.fold(w, pages[0]), pages[1..])
  }

  /** The second half of the passes, from P-E on. */
  function Ranking<S>(p: Pipeline<S>, r: Scoring<S>, scope: S, whole: bool): Outcome<Final<S>> {
    match p.centrality(r.edges)
    case Fails(e) => Fails(e)
    case Done(counts) =>
      match p.boosts(r.scored, counts)
      case Fails(e) => Fails(e)
      case Done(ranked) =>
        match p.measure(ranked, r.keptPaths, r.keptHops)
        case Fails(e) => Fails(e)
        case Done(m) =>
          match p.pack(m)
          case Fails(e) => Fails(e)
          case Done(verdicts) => Done(Final(m, verdicts, scope, whole))
  }

  /** The passes behind the walk. */
  function Streamed<S>(p: Pipeline<S>, f: Ingested<S>, whole: bool): Outcome<Final<S>> {
    match p.hydrate(f.cands)
    case Fails(e) => Fails(e)
    case Done(hydrated) =>
      match p.attributes(f.hops, f.cands)
      case Fails(e) => Fails(e)
      case Done(a) =>
        match p.routes(hydrated, f.paths, a.hops)
        case Fails(e) => Fails(e)
        case Done(r) => Ranking(p, r, f.scope, whole && a.complete)
  }

  /** All of them: the scope is complete when every seed resolved, no page was cut by a
      bound, the walk's end found nothing missing, no deadline narrowed it and P-C read
      every edge. */
  function Straight<S>(p: Pipeline<S>, g: Gathered): Outcome<Final<S>>
    requires g.pages <= |p.pages|
  {
    match p.finish(Folded(p, p.seeds, p.pages[..g.pages]))
    case Fails(e) => Fails(e)
    case Done(f) => Streamed(p, f, Unnarrowed(p, g) && f.complete)
  }

  predicate Unnarrowed<S>(p: Pipeline<S>, g: Gathered)
    requires g.pages <= |p.pages|
  {
    p.resolved && !g.narrowed && forall i | 0 <= i < g.pages :: !p.bounded(p.pages[i])
  }

  function Handed<S>(x: Final<S>): State<S> {
    State(EMIT, false,
          map[ByFile := x.measured.byFile, Groups := x.measured.groups, Excluded := x.measured.excluded,
              MeasPaths := x.measured.paths, MeasHops := x.measured.hops, Verdicts := x.verdicts],
          None, 0, Some(x.scope), x.complete)
  }

  lemma {:induction false} FoldedMore<S>(p: Pipeline<S>, w: Walk<S>, pages: seq<S>, page: S)
    ensures Folded(p, w, pages + [page]) == p.fold(Folded(p, w, pages), page)
    decreases |pages|
  {
    if pages == [] {
      assert [] + [page] == [page] && [page][1..] == [];
    } else {
      assert (pages + [page])[1..] == pages[1..] + [page];
      FoldedMore(p, p.fold(w, pages[0]), pages[1..], page);
    }
  }

  lemma {:induction false} WalkIsFolded<S>(p: Pipeline<S>, n: nat)
    requires n <= |p.pages|
    ensures WalkTo(p, n) == Folded(p, p.seeds, p.pages[..n])
    ensures CompleteTo(p, n) == (p.resolved && forall i | 0 <= i < n :: !p.bounded(p.pages[i]))
  {
    if n > 0 {
      WalkIsFolded(p, n - 1);
      FoldedMore(p, p.seeds, p.pages[..n - 1], p.pages[n - 1]);
      assert p.pages[..n] == p.pages[..n - 1] + [p.pages[n - 1]];
    }
  }

  /** One pass behind a carry that is known. */
  lemma Onward<S>(p: Pipeline<S>, g: Gathered, s: State<S>)
    requires Ended(p, g) && HYDRATE <= s.pass <= PACK && Carry(p, g, s.pass) == Done(s)
    ensures Carry(p, g, s.pass + 1) == AfterPass(p, s)
  {
  }

  function At<S>(pass: int, live: Live<S>, scope: S, complete: bool): State<S> {
    State(pass, false, live, None, 0, Some(scope), complete)
  }

  lemma Ingests<S>(p: Pipeline<S>, g: Gathered)
    requires Ended(p, g)
    ensures match p.finish(Folded(p, p.seeds, p.pages[..g.pages]))
      case Fails(e) => Carry(p, g, HYDRATE) == Fails(e)
      case Done(f) =>
        Carry(p, g, HYDRATE) ==
          Done(At(HYDRATE, map[Cands := f.cands, Routes := f.paths, Hops := f.hops], f.scope,
                  Unnarrowed(p, g) && f.complete))
  {
    WalkIsFolded(p, g.pages);
  }

  lemma Hydrates<S>(p: Pipeline<S>, f: Ingested<S>, whole: bool, s: State<S>)
    requires s == At(HYDRATE, map[Cands := f.cands, Routes := f.paths, Hops := f.hops], f.scope, whole)
    requires LiveAt(s, HYDRATE)
    ensures match p.hydrate(f.cands)
      case Fails(e) => AfterPass(p, s) == Fails(e)
      case Done(h) =>
        AfterPass(p, s) ==
          Done(At(ATTRIBUTES, map[Cands := f.cands, Hydrated := h, Routes := f.paths, Hops := f.hops], f.scope, whole))
  {
    if p.hydrate(f.cands).Done? {
      var h := p.hydrate(f.cands).value;
      assert s.live[Hydrated := h] == map[Cands := f.cands, Hydrated := h, Routes := f.paths, Hops := f.hops];
    }
  }

  lemma Attributes<S>(p: Pipeline<S>, f: Ingested<S>, h: S, whole: bool, s: State<S>)
    requires s == At(ATTRIBUTES, map[Cands := f.cands, Hydrated := h, Routes := f.paths, Hops := f.hops],
                     f.scope, whole)
    requires LiveAt(s, ATTRIBUTES)
    ensures match p.attributes(f.hops, f.cands)
      case Fails(e) => AfterPass(p, s) == Fails(e)
      case Done(a) =>
        AfterPass(p, s) ==
          Done(At(ROUTES, map[Hydrated := h, Routes := f.paths, Hops := a.hops], f.scope, whole && a.complete))
  {
    if p.attributes(f.hops, f.cands).Done? {
      var a := p.attributes(f.hops, f.cands).value;
      assert s.live[Hops := a.hops] - {Cands} == map[Hydrated := h, Routes := f.paths, Hops := a.hops];
    }
  }

  lemma RoutesScored<S>(p: Pipeline<S>, h: S, paths: S, hops: S, scope: S, whole: bool, s: State<S>)
    requires s == At(ROUTES, map[Hydrated := h, Routes := paths, Hops := hops], scope, whole) && LiveAt(s, ROUTES)
    ensures match p.routes(h, paths, hops)
      case Fails(e) => AfterPass(p, s) == Fails(e)
      case Done(r) =>
        AfterPass(p, s) ==
          Done(At(CENTRALITY, map[Scored := r.scored, KeptPaths := r.keptPaths, KeptHops := r.keptHops,
                                  Edges := r.edges], scope, whole))
  {
    if p.routes(h, paths, hops).Done? {
      var r := p.routes(h, paths, hops).value;
      assert s.live[KeptPaths := r.keptPaths][KeptHops := r.keptHops][Scored := r.scored][Edges := r.edges]
             - {Hydrated, Routes, Hops}
          == map[Scored := r.scored, KeptPaths := r.keptPaths, KeptHops := r.keptHops, Edges := r.edges];
    }
  }

  lemma Counted<S>(p: Pipeline<S>, r: Scoring<S>, scope: S, whole: bool, s: State<S>)
    requires s == At(CENTRALITY, map[Scored := r.scored, KeptPaths := r.keptPaths, KeptHops := r.keptHops,
                                     Edges := r.edges], scope, whole)
    requires LiveAt(s, CENTRALITY)
    ensures match p.centrality(r.edges)
      case Fails(e) => AfterPass(p, s) == Fails(e)
      case Done(c) =>
        AfterPass(p, s) ==
          Done(At(BOOSTS, map[Scored := r.scored, Counts := c, KeptPaths := r.keptPaths, KeptHops := r.keptHops],
                  scope, whole))
  {
    if p.centrality(r.edges).Done? {
      var c := p.centrality(r.edges).value;
      assert s.live[Counts := c] - {Edges}
          == map[Scored := r.scored, Counts := c, KeptPaths := r.keptPaths, KeptHops := r.keptHops];
    }
  }

  lemma Boosted<S>(p: Pipeline<S>, r: Scoring<S>, c: S, scope: S, whole: bool, s: State<S>)
    requires s == At(BOOSTS, map[Scored := r.scored, Counts := c, KeptPaths := r.keptPaths, KeptHops := r.keptHops],
                     scope, whole)
    requires LiveAt(s, BOOSTS)
    ensures match p.boosts(r.scored, c)
      case Fails(e) => AfterPass(p, s) == Fails(e)
      case Done(b) =>
        AfterPass(p, s) ==
          Done(At(MEASURE, map[Ranked := b, KeptPaths := r.keptPaths, KeptHops := r.keptHops], scope, whole))
  {
    if p.boosts(r.scored, c).Done? {
      var b := p.boosts(r.scored, c).value;
      assert s.live[Ranked := b] - {Scored, Counts}
          == map[Ranked := b, KeptPaths := r.keptPaths, KeptHops := r.keptHops];
    }
  }

  lemma MeasuredOut<S>(p: Pipeline<S>, ranked: S, paths: S, hops: S, scope: S, whole: bool, s: State<S>)
    requires s == At(MEASURE, map[Ranked := ranked, KeptPaths := paths, KeptHops := hops], scope, whole)
    requires LiveAt(s, MEASURE)
    ensures match p.measure(ranked, paths, hops)
      case Fails(e) => AfterPass(p, s) == Fails(e)
      case Done(m) => AfterPass(p, s) == Done(At(PACK, MeasuredSlots(m), scope, whole))
  {
    if p.measure(ranked, paths, hops).Done? {
      var m := p.measure(ranked, paths, hops).value;
      assert s.live[ByFile := m.byFile][Groups := m.groups][Excluded := m.excluded]
             [MeasPaths := m.paths][MeasHops := m.hops] - {Ranked, KeptPaths, KeptHops} == MeasuredSlots(m);
    }
  }

  function MeasuredSlots<S>(m: Measured<S>): Live<S> {
    map[ByFile := m.byFile, Groups := m.groups, Excluded := m.excluded, MeasPaths := m.paths, MeasHops := m.hops]
  }

  lemma PackedOut<S>(p: Pipeline<S>, m: Measured<S>, scope: S, whole: bool, s: State<S>)
    requires s == At(PACK, MeasuredSlots(m), scope, whole) && LiveAt(s, PACK)
    ensures match p.pack(m)
      case Fails(e) => AfterPass(p, s) == Fails(e)
      case Done(v) => AfterPass(p, s) == Done(Handed(Final(m, v, scope, whole)))
  {
    assert MeasuredIn(s.live) == m;
    if p.pack(m).Done? {
      var v := p.pack(m).value;
      assert s.live[Verdicts := v] == Handed(Final(m, v, scope, whole)).live;
    }
  }

  /** The carry the last pass reads is the passes' one behind the other, and so is the
      error when there is none. */
  lemma PlanIsStraight<S>(p: Pipeline<S>, g: Gathered)
    requires Ended(p, g)
    ensures match Straight(p, g)
      case Fails(e) => Carry(p, g, EMIT) == Fails(e)
      case Done(x) => Carry(p, g, EMIT) == Done(Handed(x))
  {
    Ingests(p, g);
    match p.finish(Folded(p, p.seeds, p.pages[..g.pages]))
    case Fails(e) => FailsOnward(p, g, HYDRATE, EMIT, e);
    case Done(f) => BehindWalk(p, g, f, Unnarrowed(p, g) && f.complete);
  }

  lemma BehindWalk<S>(p: Pipeline<S>, g: Gathered, f: Ingested<S>, whole: bool)
    requires Ended(p, g)
    requires Carry(p, g, HYDRATE)
      == Done(At(HYDRATE, map[Cands := f.cands, Routes := f.paths, Hops := f.hops], f.scope, whole))
    ensures match Streamed(p, f, whole)
      case Fails(e) => Carry(p, g, EMIT) == Fails(e)
      case Done(x) => Carry(p, g, EMIT) == Done(Handed(x))
  {
    var s1 := Carry(p, g, HYDRATE).value;
    Hydrates(p, f, whole, s1);
    Onward(p, g, s1);
    match p.hydrate(f.cands)
    case Fails(e) => FailsOnward(p, g, ATTRIBUTES, EMIT, e);
    case Done(h) =>
      var s2 := Carry(p, g, ATTRIBUTES).value;
      Attributes(p, f, h, whole, s2);
      Onward(p, g, s2);
      match p.attributes(f.hops, f.cands)
      case Fails(e) => FailsOnward(p, g, ROUTES, EMIT, e);
      case Done(a) =>
        var s3 := Carry(p, g, ROUTES).value;
        RoutesScored(p, h, f.paths, a.hops, f.scope, whole && a.complete, s3);
        Onward(p, g, s3);
        match p.routes(h, f.paths, a.hops)
        case Fails(e) => FailsOnward(p, g, CENTRALITY, EMIT, e);
        case Done(r) => BehindRoutes(p, g, r, f.scope, whole && a.complete);
  }

  lemma BehindRoutes<S>(p: Pipeline<S>, g: Gathered, r: Scoring<S>, scope: S, whole: bool)
    requires Ended(p, g)
    requires Carry(p, g, CENTRALITY)
      == Done(At(CENTRALITY, map[Scored := r.scored, KeptPaths := r.keptPaths, KeptHops := r.keptHops,
                                 Edges := r.edges], scope, whole))
    ensures match Ranking(p, r, scope, whole)
      case Fails(e) => Carry(p, g, EMIT) == Fails(e)
      case Done(x) => Carry(p, g, EMIT) == Done(Handed(x))
  {
    var s1 := Carry(p, g, CENTRALITY).value;
    Counted(p, r, scope, whole, s1);
    Onward(p, g, s1);
    match p.centrality(r.edges)
    case Fails(e) => FailsOnward(p, g, BOOSTS, EMIT, e);
    case Done(c) =>
      var s2 := Carry(p, g, BOOSTS).value;
      Boosted(p, r, c, scope, whole, s2);
      Onward(p, g, s2);
      match p.boosts(r.scored, c)
      case Fails(e) => FailsOnward(p, g, MEASURE, EMIT, e);
      case Done(b) =>
        var s3 := Carry(p, g, MEASURE).value;
        MeasuredOut(p, b, r.keptPaths, r.keptHops, scope, whole, s3);
        Onward(p, g, s3);
        match p.measure(b, r.keptPaths, r.keptHops)
        case Fails(e) => FailsOnward(p, g, PACK, EMIT, e);
        case Done(m) =>
          var s4 := Carry(p, g, PACK).value;
          PackedOut(p, m, scope, whole, s4);
          Onward(p, g, s4);
  }
}
