/** The compile pipeline as a machine that may stop at every boundary between two
    passes, and what a continuation carries across one. A stream is any value; a pass
    is a function of the streams it reads. */
module Passes {
  import opened Options

  /** A pass finishes or fails with an error of its own, never the deadline's. */
  datatype Outcome<T> = Done(value: T) | Fails(error: int)

  // The passes in order; a state's pass is the first unfinished one.
  const INGEST := 1
  const HYDRATE := 2
  const ATTRIBUTES := 3
  const ROUTES := 4
  const CENTRALITY := 5
  const BOOSTS := 6
  const MEASURE := 7
  const PACK := 8
  const EMIT := 9

  /** The slots of a compile's carry, as a checkpoint names them. */
  datatype Name =
    | SeedEntity | SeedCand | SeedPath | SeedHop
    | Cands | Hydrated | Routes | Hops
    | Scored | Counts | KeptPaths | KeptHops | Edges | Ranked
    | ByFile | Groups | Excluded | MeasPaths | MeasHops | Verdicts

  /** The streams a checkpoint at a boundary carries. */
  function PassStreams(pass: int): seq<Name> {
    if pass == INGEST then [SeedEntity, SeedCand, SeedPath, SeedHop]
    else if pass == HYDRATE then [Cands, Routes, Hops]
    else if pass == ATTRIBUTES then [Cands, Hydrated, Routes, Hops]
    else if pass == ROUTES then [Hydrated, Routes, Hops]
    else if pass == CENTRALITY then [Scored, KeptPaths, KeptHops, Edges]
    else if pass == BOOSTS then [Scored, Counts, KeptPaths, KeptHops]
    else if pass == MEASURE then [Ranked, KeptPaths, KeptHops]
    else if pass == PACK then [ByFile, Groups, Excluded, MeasPaths, MeasHops]
    else if pass == EMIT then [ByFile, Groups, Excluded, MeasPaths, MeasHops, Verdicts]
    else []
  }

  /** The slots a pass reads. */
  function Reads(pass: int): set<Name> {
    if pass == HYDRATE then {Cands}
    else if pass == ATTRIBUTES then {Hops, Cands}
    else if pass == ROUTES then {Hydrated, Routes, Hops}
    else if pass == CENTRALITY then {Edges}
    else if pass == BOOSTS then {Scored, Counts}
    else if pass == MEASURE then {Ranked, KeptPaths, KeptHops}
    else if pass == PACK then {ByFile, Groups, Excluded, MeasPaths, MeasHops}
    else if pass == EMIT then {ByFile, Groups, Excluded, MeasPaths, MeasHops, Verdicts}
    else {}
  }

  /** The slots a boundary carries. */
  function Carried(pass: int): set<Name> {
    set n | n in PassStreams(pass)
  }

  type Live<S> = map<Name, S>

  /** The graph walk's sink: four sorts not yet merged, and its scope so far. */
  datatype Walk<S> = Walk(entity: S, cand: S, path: S, hop: S, scope: S)
  datatype Ingested<S> = Ingested(cands: S, paths: S, hops: S, scope: S, complete: bool)
  datatype Attributed<S> = Attributed(hops: S, complete: bool)
  datatype Scoring<S> = Scoring(scored: S, keptPaths: S, keptHops: S, edges: S)
  datatype Measured<S> = Measured(byFile: S, groups: S, excluded: S, paths: S, hops: S)

  /** One request over one generation: its seeds and whether all of them resolved, the
      walk's pages and which of them a bound of the user's cut, and the passes. */
  datatype Pipeline<!S> = Pipeline(
    seeds: Walk<S>,
    resolved: bool,
    pages: seq<S>,
    bounded: S -> bool,
    fold: (Walk<S>, S) -> Walk<S>,
    finish: Walk<S> -> Outcome<Ingested<S>>,
    hydrate: S -> Outcome<S>,
    attributes: (S, S) -> Outcome<Attributed<S>>,
    routes: (S, S, S) -> Outcome<Scoring<S>>,
    centrality: S -> Outcome<S>,
    boosts: (S, S) -> Outcome<S>,
    measure: (S, S, S) -> Outcome<Measured<S>>,
    pack: Measured<S> -> Outcome<S>)

  /** cursor is the walk's place while P-A is halted inside it, and stalls how many pages
      in a row the deadline has cut before they could advance. */
  datatype State<S> = State(
    pass: int,
    halted: bool,
    live: Live<S>,
    cursor: Option<nat>,
    stalls: nat,
    scope: Option<S>,
    complete: bool)

  // ----- the walk -----

  /** The sink after n pages. */
  function WalkTo<S>(p: Pipeline<S>, n: nat): Walk<S>
    requires n <= |p.pages|
  {
    if n == 0 then p.seeds else p.fold(WalkTo(p, n - 1), p.pages[n - 1])
  }

  /** Whether nothing in the first n pages, and no seed, narrows the scope. */
  function CompleteTo<S>(p: Pipeline<S>, n: nat): bool
    requires n <= |p.pages|
  {
    if n == 0 then p.resolved else CompleteTo(p, n - 1) && !p.bounded(p.pages[n - 1])
  }

  /** How far a walk came, and whether a deadline narrowed its scope on the way. */
  datatype Gathered = Gathered(pages: nat, narrowed: bool)

  /** A walk that is over: at its last page, or given up with a narrowed scope. */
  predicate Ended<S>(p: Pipeline<S>, g: Gathered) {
    g.pages <= |p.pages| && (g.pages == |p.pages| || g.narrowed)
  }

  /** The walk no deadline touches. */
  function Whole<S>(p: Pipeline<S>): (g: Gathered)
    ensures Ended(p, g)
  {
    Gathered(|p.pages|, false)
  }

  // ----- the uninterrupted compile -----

  function SinkSlots<S>(w: Walk<S>): Live<S> {
    map[SeedEntity := w.entity, SeedCand := w.cand, SeedPath := w.path, SeedHop := w.hop]
  }

  function MeasuredIn<S>(live: Live<S>): Measured<S>
    requires Reads(PACK) <= live.Keys
  {
    Measured(live[ByFile], live[Groups], live[Excluded], live[MeasPaths], live[MeasHops])
  }

  /** What one of P-B to P-H leaves in the slots: its output, and not what it was the
      last to read. */
  function Produces<S>(p: Pipeline<S>, pass: int, live: Live<S>): Outcome<Live<S>>
    requires HYDRATE <= pass <= PACK && Reads(pass) <= live.Keys
  {
    if pass == HYDRATE then
      match p.hydrate(live[Cands])
      case Fails(e) => Fails(e)
      case Done(h) => Done(live[Hydrated := h])
    else if pass == ATTRIBUTES then
      match p.attributes(live[Hops], live[Cands])
      case Fails(e) => Fails(e)
      case Done(a) => Done(live[Hops := a.hops] - {Cands})
    else if pass == ROUTES then
      match p.routes(live[Hydrated], live[Routes], live[Hops])
      case Fails(e) => Fails(e)
      case Done(r) =>
        Done(live[KeptPaths := r.keptPaths][KeptHops := r.keptHops][Scored := r.scored][Edges := r.edges]
             - {Hydrated, Routes, Hops})
    else if pass == CENTRALITY then
      match p.centrality(live[Edges])
      case Fails(e) => Fails(e)
      case Done(c) => Done(live[Counts := c] - {Edges})
    else if pass == BOOSTS then
      match p.boosts(live[Scored], live[Counts])
      case Fails(e) => Fails(e)
      case Done(r) => Done(live[Ranked := r] - {Scored, Counts})
    else if pass == MEASURE then
      match p.measure(live[Ranked], live[KeptPaths], live[KeptHops])
      case Fails(e) => Fails(e)
      case Done(m) =>
        Done(live[ByFile := m.byFile][Groups := m.groups][Excluded := m.excluded]
             [MeasPaths := m.paths][MeasHops := m.hops] - {Ranked, KeptPaths, KeptHops})
    else
      match p.pack(MeasuredIn(live))
      case Fails(e) => Fails(e)
      case Done(v) => Done(live[Verdicts := v])
  }

  /** P-C narrows the scope when it could not read every edge; nothing widens it. */
  function StillComplete<S>(p: Pipeline<S>, pass: int, live: Live<S>, complete: bool): bool
    requires HYDRATE <= pass <= PACK && Reads(pass) <= live.Keys
  {
    if pass != ATTRIBUTES then complete
    else
      match p.attributes(live[Hops], live[Cands])
      case Fails(_) => complete
      case Done(a) => complete && a.complete
  }

  /** The carry behind a walk that gathered g. */
  function AfterWalk<S>(p: Pipeline<S>, g: Gathered): Outcome<State<S>>
    requires Ended(p, g)
  {
    match p.finish(WalkTo(p, g.pages))
    case Fails(e) => Fails(e)
    case Done(i) =>
      Done(State(HYDRATE, false, map[Cands := i.cands, Routes := i.paths, Hops := i.hops], None, 0, Some(i.scope),
                 CompleteTo(p, g.pages) && i.complete && !g.narrowed))
  }

  ghost predicate LiveAt<S>(s: State<S>, pass: int) {
    && s.pass == pass && !s.halted && s.cursor == None && s.stalls == 0 && s.scope.Some?
    && s.live.Keys == Carried(pass)
  }

  /** The carry at a boundary of a compile whose walk gathered g and whose passes run
      whole, or the first error on the way. At every boundary exactly the slots its
      checkpoint names are set, among them all that the pass behind it reads. */
  function Carry<S>(p: Pipeline<S>, g: Gathered, pass: int): (r: Outcome<State<S>>)
    requires Ended(p, g) && HYDRATE <= pass <= EMIT
    ensures r.Done? ==> LiveAt(r.value, pass) && Reads(pass) <= r.value.live.Keys
    decreases pass
  {
    if pass == HYDRATE then AfterWalk(p, g)
    else
      match Carry(p, g, pass - 1)
      case Fails(e) => Fails(e)
      case Done(s) => AfterPass(p, s)
  }

  /** One pass run whole. */
  function AfterPass<S>(p: Pipeline<S>, s: State<S>): (r: Outcome<State<S>>)
    requires HYDRATE <= s.pass <= PACK && LiveAt(s, s.pass)
    ensures r.Done? ==> LiveAt(r.value, s.pass + 1)
    ensures r.Done? && r.value.complete ==> s.complete
  {
    ReadsLive(s.pass);
    match Produces(p, s.pass, s.live)
    case Fails(e) => Fails(e)
    case Done(live) =>
      ProducesNext(p, s.pass, s.live);
      Done(s.(pass := s.pass + 1, live := live, complete := StillComplete(p, s.pass, s.live, s.complete)))
  }

  /** What a pass reads is what the boundary before it carries. */
  lemma ReadsLive(pass: int)
    requires HYDRATE <= pass <= PACK
    ensures Reads(pass) <= Carried(pass)
  {
  }

  /** What a pass leaves is what the next boundary carries. */
  lemma ProducesNext<S>(p: Pipeline<S>, pass: int, live: Live<S>)
    requires HYDRATE <= pass <= PACK && live.Keys == Carried(pass) && Reads(pass) <= live.Keys
    ensures var o := Produces(p, pass, live); o.Done? ==> o.value.Keys == Carried(pass + 1)
  {
    if pass <= ROUTES { EarlyNext(p, pass, live); } else { LateNext(p, pass, live); }
  }

  lemma EarlyNext<S>(p: Pipeline<S>, pass: int, live: Live<S>)
    requires HYDRATE <= pass <= ROUTES && live.Keys == Carried(pass) && Reads(pass) <= live.Keys
    ensures var o := Produces(p, pass, live); o.Done? ==> o.value.Keys == Carried(pass + 1)
  {
  }

  lemma LateNext<S>(p: Pipeline<S>, pass: int, live: Live<S>)
    requires CENTRALITY <= pass <= PACK && live.Keys == Carried(pass) && Reads(pass) <= live.Keys
    ensures var o := Produces(p, pass, live); o.Done? ==> o.value.Keys == Carried(pass + 1)
  {
  }

  /** A plan whose scope is complete is the plan of the walk no deadline touched: a page
      the deadline cost it would have narrowed the scope, and nothing widens it again. */
  lemma {:induction false} CompleteMeansWhole<S>(p: Pipeline<S>, g: Gathered, pass: int)
    requires Ended(p, g) && HYDRATE <= pass <= EMIT && Carry(p, g, pass).Done? && Carry(p, g, pass).value.complete
    ensures g == Whole(p)
    decreases pass
  {
    if pass > HYDRATE {
      var before := Carry(p, g, pass - 1).value;
      assert AfterPass(p, before).value.complete ==> before.complete;
      CompleteMeansWhole(p, g, pass - 1);
    }
  }

  lemma NextFails<S>(p: Pipeline<S>, g: Gathered, pass: int, e: int)
    requires Ended(p, g) && HYDRATE <= pass < EMIT && Carry(p, g, pass) == Fails(e)
    ensures Carry(p, g, pass + 1) == Fails(e)
  {
  }

  /** An error is final: it is what every later boundary answers. */
  lemma {:induction false} FailsOnward<S>(p: Pipeline<S>, g: Gathered, pass: int, last: int, e: int)
    requires Ended(p, g) && HYDRATE <= pass <= last <= EMIT && Carry(p, g, pass) == Fails(e)
    ensures Carry(p, g, last) == Fails(e)
    decreases last - pass
  {
    if pass < last {
      NextFails(p, g, pass, e);
      FailsOnward(p, g, pass + 1, last, e);
    }
  }
}
