/** One compile spread over any number of calls: each runs the passes that are left
    until it is stopped, checkpoints what the boundary carries, and the next call
    takes it from there. */
module CompileRuns {
  import opened Composition
  import opened Passes
  import opened Options

  /** Whether the deadline's error cuts a pass short, and whether it does so after
      the pass has already stored its first stream. */
  datatype Cut = Through | Cut(late: bool)

  /** What the walk answers a request for its next page: the page; nothing yet but a
      place further on, for the deadline fell inside the walk; or nothing at all, for it
      fell before the walk could advance. */
  datatype Reply = Page | Part | Stall

  /** What one call meets: the stop predicate's answer each time it is asked, the passes
      the deadline cuts, and the walk's replies, a page once they run out. */
  datatype Call = Call(stop: nat -> bool, cut: int -> Cut, replies: seq<Reply>)

  function ReplyAt(call: Call, i: nat): Reply {
    if i < |call.replies| then call.replies[i] else Page
  }

  datatype Result = Finished | Halted | Failed(error: int) | TimedOut

  /** What a checkpoint stores. */
  datatype Checkpoint<S> =
    Checkpoint(pass: int, streams: Live<S>, cursor: Option<nat>, stalls: nat, scope: Option<S>, complete: bool)

  /** The state a walk that gathered g halts in. */
  function HaltedWalk<S>(p: Pipeline<S>, g: Gathered, stalls: nat): State<S>
    requires g.pages <= |p.pages|
  {
    var w := WalkTo(p, g.pages);
    State(INGEST, true, SinkSlots(w), Some(g.pages), stalls, Some(w.scope), CompleteTo(p, g.pages) && !g.narrowed)
  }

  const FRESH_PASS := INGEST
  const NOTHING := Gathered(0, false)

  function Fresh<S>(): State<S> {
    State(FRESH_PASS, false, map[], None, 0, None, false)
  }

  /** A place the walk may halt in: there is more of it, and at most its last reply
      was a stall. */
  ghost predicate Midway<S>(p: Pipeline<S>, g: Gathered, s: State<S>) {
    g.pages < |p.pages| && s.stalls <= 1 && s == HaltedWalk(p, g, s.stalls).(halted := s.halted)
  }

  /** A state some call may start from, with g gathered so far: a new compile, or a
      boundary of it. */
  ghost predicate Startable<S>(p: Pipeline<S>, g: Gathered, s: State<S>) {
    || (g == NOTHING && s == Fresh())
    || (!s.halted && Midway(p, g, s))
    || OnTrack(p, g, s)
  }

  /** The state is, at its boundary, that of a compile whose passes all ran whole. */
  ghost predicate OnTrack<S>(p: Pipeline<S>, g: Gathered, s: State<S>) {
    Ended(p, g) && HYDRATE <= s.pass <= EMIT && Carry(p, g, s.pass) == Done(s)
  }

  /** A state a call may stop in: what the boundary's checkpoint names is there, and is
      what a compile whose passes all ran whole has at that boundary. */
  ghost predicate Resumable<S>(p: Pipeline<S>, g: Gathered, s: State<S>) {
    && s.halted
    && (Midway(p, g, s) || (Ended(p, g) && HYDRATE <= s.pass <= EMIT && AgreesAt(p, g, s)))
  }

  ghost predicate AgreesAt<S>(p: Pipeline<S>, g: Gathered, s: State<S>)
    requires Ended(p, g) && HYDRATE <= s.pass <= EMIT
  {
    match Carry(p, g, s.pass)
    case Fails(_) => false
    case Done(c) => Agrees(c, s)
  }

  /** What the checkpoint names is there, and the same. */
  ghost predicate Agrees<S>(c: State<S>, s: State<S>) {
    && LiveAt(c, s.pass) && s.cursor == None && s.stalls == 0 && s.scope == c.scope && s.complete == c.complete
    && forall n | n in c.live :: n in s.live && s.live[n] == c.live[n]
  }

  /** The compile meets this error at some pass. */
  ghost predicate Stumbles<S>(p: Pipeline<S>, g: Gathered, e: int) {
    Ended(p, g) && exists k | HYDRATE <= k <= EMIT :: Carry(p, g, k) == Fails(e)
  }

  /** The work a state leaves: the pages not walked and the passes not run. */
  function Left<S>(p: Pipeline<S>, s: State<S>): int {
    EMIT - s.pass + if s.pass != INGEST then 0 else |p.pages| - (if s.cursor.Some? then s.cursor.value else 0)
  }

  /** The same, counting that a page may be asked for twice. */
  function Tries<S>(p: Pipeline<S>, s: State<S>): int {
    2 * Left(p, s) - s.stalls
  }

  ghost predicate Uncut(call: Call) {
    forall k :: call.cut(k) == Through
  }

  /** No deadline: every request is answered with a page. */
  ghost predicate Prompt(call: Call) {
    Uncut(call) && forall i | 0 <= i < |call.replies| :: call.replies[i] == Page
  }

  /** No deadline but some that stall the walk where it stands. */
  ghost predicate Steady(call: Call) {
    Uncut(call) && forall i | 0 <= i < |call.replies| :: call.replies[i] != Part
  }

  /** The call has not ended before its i-th request, the walk lasting so long. */
  ghost predicate AsksFor(call: Call, i: nat) {
    forall j | 0 <= j < i :: ReplyAt(call, j) == Page && !call.stop(j)
  }

  /** The call ends where the deadline falls inside the walk. */
  ghost predicate Yields(call: Call) {
    forall i | 0 <= i < |call.replies| && AsksFor(call, i) :: call.replies[i] == Page || call.stop(i)
  }

  /** The last the call asks of the walk is answered with a stall. */
  ghost predicate EndsStalled(call: Call) {
    exists i | 0 <= i < |call.replies| :: AsksFor(call, i) && call.replies[i] == Stall
  }

  function ResultOf<S>(o: Outcome<Live<S>>): Result {
    if o.Done? then Finished else Failed(o.error)
  }

  lemma NextCarry<S>(p: Pipeline<S>, g: Gathered, s: State<S>)
    requires Ended(p, g) && HYDRATE <= s.pass <= PACK && Carry(p, g, s.pass) == Done(s)
    ensures Carry(p, g, s.pass + 1) == AfterPass(p, s)
  {
  }

  /** What running the pass at hand does to the state: its slots and its scope, and the
      error when there is one. */
  ghost predicate Ran<S>(p: Pipeline<S>, before: State<S>, after: State<S>, r: Result)
    requires HYDRATE <= before.pass <= PACK && Reads(before.pass) <= before.live.Keys
  {
    && after == before.(live := after.live, complete := after.complete)
    && after.complete == StillComplete(p, before.pass, before.live, before.complete)
    && r == ResultOf(Produces(p, before.pass, before.live))
    && (r.Finished? ==> Produces(p, before.pass, before.live) == Done(after.live))
  }

  lemma PassResult<S>(p: Pipeline<S>, before: State<S>, after: State<S>, r: Result)
    requires HYDRATE <= before.pass <= PACK && LiveAt(before, before.pass) && Reads(before.pass) <= before.live.Keys
    requires Ran(p, before, after, r)
    ensures AfterPass(p, before) == if r.Finished? then Done(after.(pass := before.pass + 1)) else Fails(r.error)
  {
  }

  /** A whole pass takes the carry of one boundary to the next boundary's. */
  lemma PassRun<S>(p: Pipeline<S>, g: Gathered, before: State<S>, after: State<S>, r: Result)
    requires before.pass <= PACK && OnTrack(p, g, before) && Ran(p, before, after, r)
    ensures r.Finished? || r.Failed?
    ensures after.pass == before.pass && (r.Finished? ==> OnTrack(p, g, after.(pass := before.pass + 1)))
    ensures r.Failed? ==> Stumbles(p, g, r.error)
  {
    NextCarry(p, g, before);
    PassResult(p, before, after, r);
  }

  /** A stream left half way through P-D is none the boundary before it carries. */
  lemma StillAgrees<S>(p: Pipeline<S>, g: Gathered, before: State<S>, after: State<S>)
    requires before.pass <= PACK && OnTrack(p, g, before)
    requires after == before.(live := after.live)
    requires after.live.Keys >= before.live.Keys
    requires forall n | n in before.live && n != KeptPaths :: after.live[n] == before.live[n]
    requires before.pass == ROUTES || after.live == before.live
    ensures Resumable(p, g, after.(halted := true))
  {
    HalfRoutedAgrees(before, after);
  }

  lemma HalfRoutedAgrees<S>(before: State<S>, after: State<S>)
    requires LiveAt(before, before.pass) && after == before.(live := after.live)
    requires after.live.Keys >= before.live.Keys
    requires forall n | n in before.live && n != KeptPaths :: after.live[n] == before.live[n]
    requires before.pass == ROUTES || after.live == before.live
    ensures Agrees(before, after.(halted := true))
  {
    assert KeptPaths !in Carried(ROUTES);
  }

  lemma WalkStumbles<S>(p: Pipeline<S>, g: Gathered, e: int)
    requires Ended(p, g) && AfterWalk(p, g) == Fails(e)
    ensures Stumbles(p, g, e)
  {
    assert Carry(p, g, HYDRATE) == Fails(e);
  }

  /** A call may stop wherever the carry is whole. */
  lemma StopsWhole<S>(p: Pipeline<S>, g: Gathered, s: State<S>)
    requires OnTrack(p, g, s)
    ensures Resumable(p, g, s.(halted := true))
  {
  }

  /** The walk's loop: its sink and scope are those of what it gathered. */
  ghost predicate Walking<S>(p: Pipeline<S>, g: Gathered, w: Walk<S>, complete: bool) {
    g.pages <= |p.pages| && w == WalkTo(p, g.pages) && complete == (CompleteTo(p, g.pages) && !g.narrowed)
  }

  /** One more page of the walk, and whether a bound of the user's cut it. */
  lemma PageFolds<S>(p: Pipeline<S>, g: Gathered, w: Walk<S>, complete: bool)
    requires Walking(p, g, w, complete) && g.pages < |p.pages|
    ensures Walking(p, Gathered(g.pages + 1, g.narrowed), p.fold(w, p.pages[g.pages]),
                    complete && !p.bounded(p.pages[g.pages]))
  {
  }

  /** A call starts with the walk unfinished, or behind it with nothing stalled. */
  lemma StartsWithin<S>(p: Pipeline<S>, g: Gathered, s: State<S>)
    requires Startable(p, g, s)
    ensures INGEST <= s.pass <= EMIT && s.stalls <= 1
    ensures s.pass == INGEST ==> Left(p, s) >= EMIT - INGEST && (Left(p, s) == EMIT - INGEST ==> s.stalls == 0)
    ensures s.pass > INGEST ==> s.stalls == 0 && OnTrack(p, g, s)
  {
  }

  /** What a call's walk starts from. */
  lemma WalkStarts<S>(p: Pipeline<S>, g: Gathered, s: State<S>)
    requires Startable(p, g, s) && s.pass == INGEST
    ensures s.stalls <= 1 && (s.cursor.None? ==> g == NOTHING && Walking(p, g, p.seeds, p.resolved))
    ensures s.cursor.Some? ==>
      && s.cursor.value == g.pages && s.scope.Some?
      && {SeedEntity, SeedCand, SeedPath, SeedHop} <= s.live.Keys
      && Walking(p, g, Walk(s.live[SeedEntity], s.live[SeedCand], s.live[SeedPath], s.live[SeedHop], s.scope.value),
                 s.complete)
  {
  }

  /** What is known of a reply, and of the next request when it does not end the call. */
  lemma ReplyFacts(call: Call, i: nat)
    ensures Prompt(call) ==> ReplyAt(call, i) == Page
    ensures Steady(call) ==> ReplyAt(call, i) != Part
    ensures Yields(call) && AsksFor(call, i) ==> ReplyAt(call, i) == Page || call.stop(i)
    ensures AsksFor(call, i) && ReplyAt(call, i) == Stall ==> EndsStalled(call)
    ensures AsksFor(call, i) && ReplyAt(call, i) == Page && !call.stop(i) ==> AsksFor(call, i + 1)
  {
  }

  /** One request of the walk's loop, and whether the loop is over with its answer. */
  method TakeReply<S>(p: Pipeline<S>, reply: Reply, call: Call, asked0: nat, n0: nat, w0: Walk<S>, whole0: bool,
                      stalled0: nat, ghost g0: Gathered)
    returns (over: bool, halt: bool, asked: nat, n: nat, w: Walk<S>, whole: bool, stalled: nat, ghost g: Gathered)
    requires Walking(p, g0, w0, whole0) && n0 == g0.pages < |p.pages| && stalled0 <= 1
    ensures Walking(p, g, w, whole) && n == g.pages == if reply == Page then n0 + 1 else n0
    ensures stalled == if reply == Stall then stalled0 + 1 else 0
    ensures asked == if stalled > 1 then asked0 else asked0 + 1
    ensures halt <==> stalled <= 1 && call.stop(asked0) && (reply == Page ==> n < |p.pages|)
    ensures over <==> halt || reply == Stall
    ensures g.narrowed <==> g0.narrowed || (reply != Page && !halt)
  {
    asked, n, w, whole, stalled, g := asked0, n0, w0, whole0, stalled0, g0;
    if reply == Stall { stalled := stalled + 1; } else { stalled := 0; }
    if stalled > 1 {
      over, halt, whole, g := true, false, false, g.(narrowed := true);
      return;
    }
    halt := call.stop(asked) && (reply != Page || n + 1 < |p.pages|);
    asked := asked + 1;
    if reply == Page {
      PageFolds(p, g, w, whole);
      if p.bounded(p.pages[n]) { whole := false; }
      w, n, g := p.fold(w, p.pages[n]), n + 1, Gathered(n + 1, g.narrowed);
    } else if !halt {
      whole, g := false, g.(narrowed := true);
    }
    over := halt || reply == Stall;
  }

  /** How many of the first m replies are pages, and whether any is not. */
  ghost function Pages(call: Call, m: nat): nat {
    if m == 0 then 0 else Pages(call, m - 1) + if ReplyAt(call, m - 1) == Page then 1 else 0
  }

  ghost predicate Withheld(call: Call, m: nat) {
    exists i | 0 <= i < m :: ReplyAt(call, i) != Page
  }

  lemma OneReply(call: Call, m: nat)
    ensures Pages(call, m + 1) == Pages(call, m) + (if ReplyAt(call, m) == Page then 1 else 0)
    ensures Withheld(call, m + 1) <==> Withheld(call, m) || ReplyAt(call, m) != Page
  {
  }

  /** The walk's loop: to the last page, or until the call ends between two requests, or
      until a deadline stalls it where the call cannot end, or a second time. */
  method WalkPages<S>(p: Pipeline<S>, call: Call, n0: nat, w0: Walk<S>, whole0: bool, stalled0: nat, ghost g0: Gathered)
    returns (halt: bool, n: nat, w: Walk<S>, whole: bool, stalled: nat, asked: nat, ghost g: Gathered)
    requires Walking(p, g0, w0, whole0) && n0 == g0.pages && stalled0 <= 1
    ensures Walking(p, g, w, whole) && n == g.pages
    ensures if halt then n < |p.pages| && stalled <= 1 else Ended(p, g)
    ensures halt && Prompt(call) ==> n > n0
    ensures halt && Steady(call) ==> n > n0 || (n == n0 && stalled > stalled0)
    ensures Yields(call) && (stalled0 == 0 || ReplyAt(call, 0) != Stall) ==> g.narrowed == g0.narrowed
    ensures halt && Yields(call) && stalled > 0 ==> EndsStalled(call)
    ensures n == n0 + Pages(call, asked) && (halt ==> asked > 0)
    ensures g.narrowed <==>
      (g0.narrowed || Withheld(call, if halt then asked - 1 else if stalled > 1 then asked + 1 else asked))
  {
    halt, n, w, whole, stalled, asked, g := false, n0, w0, whole0, stalled0, 0, g0;
    while n < |p.pages|
      invariant !halt && Walking(p, g, w, whole) && n == g.pages >= n0
      invariant if asked == 0 then g == g0 && stalled == stalled0 else stalled == 0
      invariant Steady(call) && asked > 0 ==> n > n0
      invariant Yields(call) && n < |p.pages| ==> AsksFor(call, asked)
      invariant Yields(call) ==> g.narrowed == g0.narrowed
      invariant n == n0 + Pages(call, asked) && (g.narrowed <==> (g0.narrowed || Withheld(call, asked)))
      decreases |call.replies| - (if asked < |call.replies| then asked else |call.replies|), |p.pages| - n
    {
      var reply, over := ReplyAt(call, asked), false;
      ReplyFacts(call, asked);
      OneReply(call, asked);
      over, halt, asked, n, w, whole, stalled, g := TakeReply(p, reply, call, asked, n, w, whole, stalled, g);
      if over { return; }
    }
  }

  class CompileState<S> {
    var pass: int
    var halted: bool
    var live: Live<S>
    var cursor: Option<nat>
    var stalls: nat
    var scope: Option<S>
    var complete: bool

    function Value(): State<S>
      reads this
    {
      State(pass, halted, live, cursor, stalls, scope, complete)
    }

    constructor ()
      ensures Value() == Fresh()
    {
      pass, halted, live, cursor, stalls, scope, complete := FRESH_PASS, false, map[], None, 0, None, false;
    }

    /** P-A. */
    method StageIngest(p: Pipeline<S>, call: Call, ghost g0: Gathered)
      returns (r: Result, asked: nat, ghost g: Gathered)
      requires Startable(p, g0, Value()) && pass == INGEST
      modifies this
      ensures r.Finished? || r.Halted? || r.Failed?
      ensures r.Halted? ==> Resumable(p, g, Value()) && pass == INGEST
      ensures r.Finished? ==> Ended(p, g) && AfterWalk(p, g) == Done(Value().(pass := HYDRATE)) && pass == INGEST
      ensures r.Failed? ==> Ended(p, g) && AfterWalk(p, g) == Fails(r.error)
      ensures r.Halted? && Prompt(call) ==> Left(p, Value()) < old(Left(p, Value()))
      ensures r.Halted? && Steady(call) ==> Tries(p, Value()) < old(Tries(p, Value()))
      ensures Yields(call) && (old(stalls) == 0 || ReplyAt(call, 0) != Stall) ==> g.narrowed == g0.narrowed
      ensures r.Halted? && Yields(call) && stalls > 0 ==> EndsStalled(call)
    {
      WalkStarts(p, g0, Value());
      var n := if cursor.Some? then cursor.value else 0;
      var w := if cursor.Some? then Walk(live[SeedEntity], live[SeedCand], live[SeedPath], live[SeedHop], scope.value)
               else p.seeds;
      var whole := if cursor.Some? then complete else p.resolved;
      var halt, stalled;
      halt, n, w, whole, stalled, asked, g := WalkPages(p, call, n, w, whole, stalls, g0);
      if halt {
        HaltAt(p, n, w, whole, stalled, g);
        return Halted, asked, g;
      }
      r := FinishWalk(p, w, whole, g);
    }

    /** The sink itself is the carry of a walk halted between two requests. */
    method HaltAt(p: Pipeline<S>, n: nat, w: Walk<S>, whole: bool, stalled: nat, ghost g: Gathered)
      requires pass == INGEST && Walking(p, g, w, whole) && n == g.pages
      modifies this
      ensures Value() == HaltedWalk(p, g, stalled)
    {
      live, cursor, stalls, scope, complete, halted := SinkSlots(w), Some(n), stalled, Some(w.scope), whole, true;
    }

    method FinishWalk(p: Pipeline<S>, w: Walk<S>, whole: bool, ghost g: Gathered) returns (r: Result)
      requires pass == INGEST && !halted && Walking(p, g, w, whole) && Ended(p, g)
      modifies this
      ensures r.Finished? || r.Failed?
      ensures r.Finished? ==> AfterWalk(p, g) == Done(Value().(pass := HYDRATE)) && pass == INGEST
      ensures r.Failed? ==> AfterWalk(p, g) == Fails(r.error)
    {
      match p.finish(w)
      case Fails(e) => return Failed(e);
      case Done(i) =>
        live := map[Cands := i.cands, Routes := i.paths, Hops := i.hops];
        cursor, stalls, scope, complete := None, 0, Some(i.scope), whole && i.complete;
        return Finished;
    }

    /** P-B: the stream before hydration stays, for P-C reads it. */
    method StageHydrate(p: Pipeline<S>) returns (r: Result)
      requires Reads(HYDRATE) <= live.Keys
      modifies this`live
      ensures r == ResultOf(Produces(p, HYDRATE, old(live)))
      ensures r.Finished? ==> Produces(p, HYDRATE, old(live)) == Done(live)
      ensures complete == StillComplete(p, HYDRATE, old(live), old(complete))
      ensures match p.hydrate(old(live[Cands]))
        case Fails(e) => r == Failed(e)
        case Done(h) => r == Finished && live == old(live)[Hydrated := h]
    {
      match p.hydrate(live[Cands])
      case Fails(e) => return Failed(e);
      case Done(h) =>
        live := live[Hydrated := h];
        return Finished;
    }

    /** P-C: replaces the hops by the attributed ones and may narrow the scope. */
    method StageAttributes(p: Pipeline<S>) returns (r: Result)
      requires Reads(ATTRIBUTES) <= live.Keys
      modifies this`live, this`complete
      ensures r == ResultOf(Produces(p, ATTRIBUTES, old(live)))
      ensures r.Finished? ==> Produces(p, ATTRIBUTES, old(live)) == Done(live)
      ensures complete == StillComplete(p, ATTRIBUTES, old(live), old(complete))
      ensures match p.attributes(old(live[Hops]), old(live[Cands]))
        case Fails(e) => r == Failed(e) && complete == old(complete)
        case Done(a) =>
          && r == Finished && live == old(live)[Hops := a.hops] - {Cands}
          && complete == (old(complete) && a.complete)
    {
      match p.attributes(live[Hops], live[Cands])
      case Fails(e) => return Failed(e);
      case Done(a) =>
        if !a.complete { complete := false; }
        live := live[Hops := a.hops] - {Cands};
        return Finished;
    }

    /** P-D. */
    method StageRoutes(p: Pipeline<S>) returns (r: Result)
      requires Reads(ROUTES) <= live.Keys
      modifies this`live
      ensures r == ResultOf(Produces(p, ROUTES, old(live)))
      ensures r.Finished? ==> Produces(p, ROUTES, old(live)) == Done(live)
      ensures complete == StillComplete(p, ROUTES, old(live), old(complete))
      ensures match p.routes(old(live[Hydrated]), old(live[Routes]), old(live[Hops]))
        case Fails(e) => r == Failed(e)
        case Done(d) =>
          && r == Finished
          && live == old(live)[KeptPaths := d.keptPaths][KeptHops := d.keptHops][Scored := d.scored][Edges := d.edges]
                     - {Hydrated, Routes, Hops}
    {
      match p.routes(live[Hydrated], live[Routes], live[Hops])
      case Fails(e) => return Failed(e);
      case Done(s) =>
        live := live[KeptPaths := s.keptPaths];
        live := live[KeptHops := s.keptHops];
        live := live[Scored := s.scored][Edges := s.edges];
        live := live - {Hydrated, Routes, Hops};
        return Finished;
    }

    /** P-E. */
    method StageCentrality(p: Pipeline<S>) returns (r: Result)
      requires Reads(CENTRALITY) <= live.Keys
      modifies this`live
      ensures r == ResultOf(Produces(p, CENTRALITY, old(live)))
      ensures r.Finished? ==> Produces(p, CENTRALITY, old(live)) == Done(live)
      ensures complete == StillComplete(p, CENTRALITY, old(live), old(complete))
      ensures match p.centrality(old(live[Edges]))
        case Fails(e) => r == Failed(e)
        case Done(c) => r == Finished && live == old(live)[Counts := c] - {Edges}
    {
      match p.centrality(live[Edges])
      case Fails(e) => return Failed(e);
      case Done(c) =>
        live := live[Counts := c] - {Edges};
        return Finished;
    }

    /** P-F. */
    method StageBoosts(p: Pipeline<S>) returns (r: Result)
      requires Reads(BOOSTS) <= live.Keys
      modifies this`live
      ensures r == ResultOf(Produces(p, BOOSTS, old(live)))
      ensures r.Finished? ==> Produces(p, BOOSTS, old(live)) == Done(live)
      ensures complete == StillComplete(p, BOOSTS, old(live), old(complete))
      ensures match p.boosts(old(live[Scored]), old(live[Counts]))
        case Fails(e) => r == Failed(e)
        case Done(ranked) => r == Finished && live == old(live)[Ranked := ranked] - {Scored, Counts}
    {
      match p.boosts(live[Scored], live[Counts])
      case Fails(e) => return Failed(e);
      case Done(ranked) =>
        live := live[Ranked := ranked] - {Scored, Counts};
        return Finished;
    }

    /** P-G. */
    method StageMeasure(p: Pipeline<S>) returns (r: Result)
      requires Reads(MEASURE) <= live.Keys
      modifies this`live
      ensures r == ResultOf(Produces(p, MEASURE, old(live)))
      ensures r.Finished? ==> Produces(p, MEASURE, old(live)) == Done(live)
      ensures complete == StillComplete(p, MEASURE, old(live), old(complete))
      ensures match p.measure(old(live[Ranked]), old(live[KeptPaths]), old(live[KeptHops]))
        case Fails(e) => r == Failed(e)
        case Done(m) =>
          && r == Finished
          && live == old(live)[ByFile := m.byFile][Groups := m.groups][Excluded := m.excluded]
                     [MeasPaths := m.paths][MeasHops := m.hops] - {Ranked, KeptPaths, KeptHops}
    {
      match p.measure(live[Ranked], live[KeptPaths], live[KeptHops])
      case Fails(e) => return Failed(e);
      case Done(m) =>
        live := live[ByFile := m.byFile][Groups := m.groups][Excluded := m.excluded]
                    [MeasPaths := m.paths][MeasHops := m.hops];
        live := live - {Ranked, KeptPaths, KeptHops};
        return Finished;
    }

    /** P-H. */
    method StagePack(p: Pipeline<S>) returns (r: Result)
      requires Reads(PACK) <= live.Keys
      modifies this`live
      ensures r == ResultOf(Produces(p, PACK, old(live)))
      ensures r.Finished? ==> Produces(p, PACK, old(live)) == Done(live)
      ensures complete == StillComplete(p, PACK, old(live), old(complete))
      ensures match p.pack(old(MeasuredIn(live)))
        case Fails(e) => r == Failed(e)
        case Done(v) => r == Finished && live == old(live)[Verdicts := v]
    {
      match p.pack(MeasuredIn(live))
      case Fails(e) => return Failed(e);
      case Done(v) =>
        live := live[Verdicts := v];
        return Finished;
    }

    /** A deadline inside P-D may leave the first retained stream behind it. */
    method LeaveHalfRouted(p: Pipeline<S>)
      requires Reads(ROUTES) <= live.Keys
      modifies this`live
      ensures live.Keys >= old(live).Keys && forall n | n in old(live) && n != KeptPaths :: live[n] == old(live)[n]
    {
      var routed := p.routes(live[Hydrated], live[Routes], live[Hops]);
      if routed.Done? { live := live[KeptPaths := routed.value.keptPaths]; }
    }

    /** What the deadline's error leaves of the pass it cuts. */
    method LeaveCut(p: Pipeline<S>, late: bool, ghost g: Gathered)
      requires pass <= PACK && OnTrack(p, g, Value())
      modifies this`live
      ensures Resumable(p, g, Value().(halted := true))
    {
      ghost var before := Value();
      if pass == ROUTES && late { LeaveHalfRouted(p); }
      StillAgrees(p, g, before, Value());
    }

    /** Runs the pass the state is at, or is cut short by the deadline. */
    method StagePass(p: Pipeline<S>, cut: Cut, ghost g: Gathered) returns (r: Result)
      requires pass <= PACK && OnTrack(p, g, Value())
      modifies this`live, this`complete
      ensures r.TimedOut? <==> cut.Cut?
      ensures r.Finished? || r.TimedOut? || r.Failed?
      ensures r.Finished? ==> OnTrack(p, g, Value().(pass := pass + 1))
      ensures r.Failed? ==> Stumbles(p, g, r.error)
      ensures r.TimedOut? ==> Resumable(p, g, Value().(halted := true))
    {
      if cut.Cut? {
        LeaveCut(p, cut.late, g);
        return TimedOut;
      }
      r := RunWhole(p, g);
    }

    method RunWhole(p: Pipeline<S>, ghost g: Gathered) returns (r: Result)
      requires pass <= PACK && OnTrack(p, g, Value())
      modifies this`live, this`complete
      ensures r.Finished? || r.Failed?
      ensures r.Finished? ==> OnTrack(p, g, Value().(pass := pass + 1))
      ensures r.Failed? ==> Stumbles(p, g, r.error)
    {
      ghost var before := Value();
      r := RunStage(p);
      ghost var after := Value();
      PassRun(p, g, before, after, r);
      assert after.(pass := before.pass + 1) == Value().(pass := pass + 1);
    }

    method RunStage(p: Pipeline<S>) returns (r: Result)
      requires HYDRATE <= pass <= PACK && Reads(pass) <= live.Keys
      modifies this`live, this`complete
      ensures Ran(p, old(Value()), Value(), r)
    {
      if pass == HYDRATE { r := StageHydrate(p); }
      else if pass == ATTRIBUTES { r := StageAttributes(p); }
      else if pass == ROUTES { r := StageRoutes(p); }
      else if pass == CENTRALITY { r := StageCentrality(p); }
      else if pass == BOOSTS { r := StageBoosts(p); }
      else if pass == MEASURE { r := StageMeasure(p); }
      else { r := StagePack(p); }
    }

    /** Runs the pass and, when it is finished, records that. The call may stop there, or
        where the deadline cut the pass. */
    method Advance(p: Pipeline<S>, cut: Cut, ghost g: Gathered) returns (r: Result)
      requires pass <= PACK && OnTrack(p, g, Value())
      modifies this`live, this`complete, this`pass
      ensures r.Finished? || r.TimedOut? || r.Failed?
      ensures r.TimedOut? ==> cut.Cut?
      ensures pass == if r.Finished? then old(pass) + 1 else old(pass)
      ensures r.Finished? ==> OnTrack(p, g, Value())
      ensures r.Failed? ==> Stumbles(p, g, r.error)
      ensures !r.Failed? ==> Resumable(p, g, Value().(halted := true)) && stalls == 0
    {
      r := StagePass(p, cut, g);
      if r.Finished? {
        pass := pass + 1;
        StopsWhole(p, g, Value());
      }
    }

    /** One pass and the question after it. asked counts the answers so far. */
    method RunOne(p: Pipeline<S>, call: Call, asked: nat, ghost g: Gathered) returns (r: Result)
      requires pass <= PACK && OnTrack(p, g, Value())
      modifies this
      ensures r.Finished? ==> OnTrack(p, g, Value()) && pass == old(pass) + 1
      ensures r.Halted? ==> Resumable(p, g, Value()) && pass >= old(pass) && stalls == 0
      ensures r.Halted? && Uncut(call) ==> pass > old(pass)
      ensures r.Failed? ==> Stumbles(p, g, r.error)
      ensures r.TimedOut? ==> !Uncut(call)
    {
      r := Advance(p, call.cut(pass), g);
      if !r.Failed? && call.stop(asked) {
        halted := true;
        r := Halted;
      }
    }

    /** The passes behind the walk. */
    method RunLater(p: Pipeline<S>, call: Call, first: nat, ghost g: Gathered) returns (r: Result)
      requires OnTrack(p, g, Value())
      modifies this
      ensures r.Finished? ==> pass == EMIT && OnTrack(p, g, Value())
      ensures r.Halted? ==> Resumable(p, g, Value()) && pass >= old(pass) && stalls == 0
      ensures r.Halted? && Uncut(call) ==> pass > old(pass)
      ensures r.Failed? ==> Stumbles(p, g, r.error)
      ensures r.TimedOut? ==> !Uncut(call)
    {
      var asked := first;
      while pass < EMIT
        invariant old(pass) <= pass <= EMIT && OnTrack(p, g, Value())
        decreases EMIT - pass
      {
        r := RunOne(p, call, asked, g);
        if !r.Finished? { return; }
        asked := asked + 1;
      }
      r := Finished;
    }

    /** P-A and the question after it. */
    method RunIngest(p: Pipeline<S>, call: Call, ghost g0: Gathered)
      returns (r: Result, asked: nat, ghost g: Gathered)
      requires Startable(p, g0, Value()) && pass == INGEST
      modifies this
      ensures r.Finished? ==> OnTrack(p, g, Value()) && pass == HYDRATE && stalls == 0
      ensures r.Halted? ==> Resumable(p, g, Value())
      ensures r.Halted? ==> (pass == HYDRATE && stalls == 0) || pass == INGEST
      ensures r.Halted? && pass == INGEST && Prompt(call) ==> Left(p, Value()) < old(Left(p, Value()))
      ensures r.Halted? && pass == INGEST && Steady(call) ==> Tries(p, Value()) < old(Tries(p, Value()))
      ensures r.Failed? ==> Stumbles(p, g, r.error)
      ensures !r.TimedOut?
      ensures Yields(call) && (old(stalls) == 0 || ReplyAt(call, 0) != Stall) ==> g.narrowed == g0.narrowed
      ensures r.Halted? && Yields(call) && stalls > 0 ==> EndsStalled(call)
    {
      r, asked, g := StageIngest(p, call, g0);
      if r.Failed? { WalkStumbles(p, g, r.error); }
      if !r.Finished? { return; }
      pass := HYDRATE;
      StopsWhole(p, g, Value());
      if call.stop(asked) {
        halted := true;
        r := Halted;
      }
      asked := asked + 1;
    }

    /** Runs the passes that are left, asking after each whether the call ends there. A
        deadline's error inside P-B to P-H is the boundary before it; inside P-A it is
        lost. */
    method RunPasses(p: Pipeline<S>, call: Call, ghost g0: Gathered) returns (r: Result, ghost g: Gathered)
      requires Startable(p, g0, Value())
      modifies this
      ensures r.Finished? ==> pass == EMIT && OnTrack(p, g, Value())
      ensures r.Halted? ==> Resumable(p, g, Value())
      ensures r.Halted? && Prompt(call) ==> Left(p, Value()) < old(Left(p, Value()))
      ensures r.Halted? && Steady(call) ==> Tries(p, Value()) < old(Tries(p, Value()))
      ensures r.Failed? ==> Stumbles(p, g, r.error)
      ensures r.TimedOut? ==> !Uncut(call)
      ensures Yields(call) && (old(stalls) == 0 || ReplyAt(call, 0) != Stall) ==> g.narrowed == g0.narrowed
      ensures r.Halted? && Yields(call) && stalls > 0 ==> EndsStalled(call)
    {
      StartsWithin(p, g0, Value());
      var asked := 0;
      g := g0;
      if pass == INGEST {
        if call.cut(INGEST).Cut? { return TimedOut, g; }
        r, asked, g := RunIngest(p, call, g0);
        if !r.Finished? { return; }
      }
      r := RunLater(p, call, asked, g);
    }

    /** Stores the boundary's streams by name, refusing when one it should have is not
        there. */
    method Save() returns (ok: bool, cp: Checkpoint<S>)
      ensures ok <==> PassStreams(pass) != [] && forall n | n in PassStreams(pass) :: n in live
      ensures ok ==> cp == Saved(Value())
    {
      var names := PassStreams(pass);
      cp := Checkpoint(pass, map[], cursor, stalls, scope, complete);
      if names == [] { return false, cp; }
      var streams: Live<S> := map[];
      for k := 0 to |names|
        invariant forall n | n in names[..k] :: n in live
        invariant streams == map n | n in names[..k] :: live[n]
      {
        if names[k] !in live {
          assert names[k] in names;
          return false, cp;
        }
        streams := streams[names[k] := live[names[k]]];
      }
      assert names[..|names|] == names;
      ok, cp := true, cp.(streams := streams);
    }

    /** Takes the named streams over, refusing when one is lost. */
    method RestoreStreams(names: seq<Name>, streams: Live<S>) returns (ok: bool)
      requires live == map[]
      modifies this`live
      ensures ok <==> forall n | n in names :: n in streams
      ensures ok ==> live == map n | n in names :: streams[n]
    {
      for k := 0 to |names|
        invariant forall n | n in names[..k] :: n in streams
        invariant live == map n | n in names[..k] :: streams[n]
      {
        if names[k] !in streams {
          assert names[k] in names;
          return false;
        }
        live := live[names[k] := streams[names[k]]];
      }
      assert names[..|names|] == names;
      ok := true;
    }

    /** Takes a checkpoint's streams and scalars into a new compile's state, refusing
        one that has lost a stream its boundary needs. */
    method Restore(cp: Checkpoint<S>) returns (ok: bool)
      requires Value() == Fresh()
      modifies this
      ensures ok <==> PassStreams(cp.pass) != [] && forall n | n in PassStreams(cp.pass) :: n in cp.streams
      ensures ok ==> Value() == Restored(cp)
    {
      var names := PassStreams(cp.pass);
      if names == [] { return false; }
      if cp.pass == INGEST { cursor, stalls := cp.cursor, cp.stalls; }
      ok := RestoreStreams(names, cp.streams);
      if ok { pass, scope, complete := cp.pass, cp.scope, cp.complete; }
    }
  }

  // ----- from one call to the next -----

  function Saved<S>(s: State<S>): Checkpoint<S>
    requires forall n | n in PassStreams(s.pass) :: n in s.live
  {
    Checkpoint(s.pass, map n | n in PassStreams(s.pass) :: s.live[n], s.cursor, s.stalls, s.scope, s.complete)
  }

  function Restored<S>(cp: Checkpoint<S>): State<S>
    requires forall n | n in PassStreams(cp.pass) :: n in cp.streams
  {
    State(cp.pass, false, map n | n in PassStreams(cp.pass) :: cp.streams[n],
          if cp.pass == INGEST then cp.cursor else None, if cp.pass == INGEST then cp.stalls else 0,
          cp.scope, cp.complete)
  }

  /** Every stop can be checkpointed, and what the next call restores is exactly what
      the boundary has in a compile whose passes all ran whole: nothing lost and nothing
      left over. */
  lemma ResumesExactly<S>(p: Pipeline<S>, g: Gathered, s: State<S>)
    requires Resumable(p, g, s)
    ensures PassStreams(s.pass) != [] && forall n | n in PassStreams(s.pass) :: n in s.live
    ensures var t := Restored(Saved(s));
      Startable(p, g, t) && Left(p, t) == Left(p, s) && t.stalls == s.stalls
  {
    if s.pass == INGEST {
      ResumesWalk(p, g, s.stalls);
    } else {
      ResumesBoundary(Carry(p, g, s.pass).value, s);
    }
  }

  lemma ResumesWalk<S>(p: Pipeline<S>, g: Gathered, stalls: nat)
    requires g.pages < |p.pages|
    ensures var s := HaltedWalk(p, g, stalls);
      && (forall m | m in PassStreams(INGEST) :: m in s.live)
      && Restored(Saved(s)) == s.(halted := false)
  {
    var s := HaltedWalk(p, g, stalls);
    assert forall m | m in s.live :: m in PassStreams(INGEST);
    assert Restored(Saved(s)).live == s.live;
  }

  lemma ResumesBoundary<S>(c: State<S>, s: State<S>)
    requires HYDRATE <= s.pass <= EMIT && Agrees(c, s)
    ensures PassStreams(s.pass) != []
    ensures forall n | n in PassStreams(s.pass) :: n in s.live
    ensures Restored(Saved(s)) == c
  {
    forall n ensures n in c.live.Keys <==> n in PassStreams(s.pass) {}
    var again := Restored(Saved(s)).live;
    assert again.Keys == c.live.Keys;
    assert again == c.live;
  }

  lemma StumblesOnce<S>(p: Pipeline<S>, g: Gathered, e: int)
    requires Stumbles(p, g, e)
    ensures Carry(p, g, EMIT) == Fails(e)
  {
    var k :| HYDRATE <= k <= EMIT && Carry(p, g, k) == Fails(e);
    FailsOnward(p, g, k, EMIT, e);
  }

  /** The next call takes over from the checkpoint of the one that stopped. */
  method Resume<S>(p: Pipeline<S>, stopped: CompileState<S>, ghost g: Gathered) returns (st: CompileState<S>)
    requires Resumable(p, g, stopped.Value())
    ensures fresh(st) && Startable(p, g, st.Value())
    ensures Left(p, st.Value()) == Left(p, stopped.Value()) && st.stalls == stopped.stalls
  {
    ResumesExactly(p, g, stopped.Value());
    var _, cp := stopped.Save();
    st := new CompileState<S>();
    var _ := st.Restore(cp);
  }

  /** How a chain of calls ended: with the carry the last pass reads, with the error of
      a pass, with a deadline no continuation answers, or still waiting for more. */
  datatype Answer<S> = Plan(carry: State<S>) | Refused(error: int) | Lost | Pending

  /** Every deadline inside the walk ends the call it falls in, and none stalls the walk
      for the second time in a row: no call begins with a stall behind one that ended in
      a stall. */
  ghost predicate Patient(calls: seq<Call>) {
    && (forall k | 0 <= k < |calls| :: Yields(calls[k]))
    && forall k | 0 < k < |calls| :: ReplyAt(calls[k], 0) != Stall || !EndsStalled(calls[k - 1])
  }

  ghost predicate AllSteady(calls: seq<Call>) {
    forall k | 0 <= k < |calls| :: Steady(calls[k])
  }

  ghost predicate AllPrompt(calls: seq<Call>) {
    forall k | 0 <= k < |calls| :: Prompt(calls[k])
  }

  /** What a chain's calls promise of one of them, begun with so many stalls. */
  lemma CallFacts(calls: seq<Call>, k: nat, stalls: nat)
    requires k < |calls|
    ensures AllSteady(calls) ==> Steady(calls[k]) && Uncut(calls[k])
    ensures AllPrompt(calls) ==> Prompt(calls[k]) && Uncut(calls[k])
    ensures Patient(calls) ==> Yields(calls[k])
    ensures Patient(calls) && ChainStalls(calls, k, stalls) ==> stalls == 0 || ReplyAt(calls[k], 0) != Stall
  {
  }

  /** The k-th call begins with a stalled walk only behind one that ended in a stall. */
  ghost predicate ChainStalls(calls: seq<Call>, k: nat, stalls: nat)
    requires k <= |calls|
  {
    stalls > 0 ==> k > 0 && (Yields(calls[k - 1]) ==> EndsStalled(calls[k - 1]))
  }

  /** A compile over any number of calls, each stopped and cut anywhere, ends with the
      carry or the error of a compile that ran the same walk in one call; a plan that
      says its scope is complete is the plan of a compile no deadline touched, and so is
      every answer when each deadline inside the walk ends its call and none stalls it
      twice in a row. When no deadline's error cuts a pass short, twice a call for every page and
      pass is enough, and with no deadline in the walk either, once. */
  method Compile<S>(p: Pipeline<S>, calls: seq<Call>) returns (r: Answer<S>, ghost g: Gathered)
    ensures r.Plan? ==> Ended(p, g) && Carry(p, g, EMIT) == Done(r.carry)
    ensures r.Plan? && r.carry.complete ==> Carry(p, Whole(p), EMIT) == Done(r.carry)
    ensures r.Refused? ==> Ended(p, g) && Carry(p, g, EMIT) == Fails(r.error)
    ensures r.Plan? ==> Straight(p, g).Done? && r.carry == Handed(Straight(p, g).value)
    ensures r.Refused? ==> Straight(p, g) == Fails(r.error)
    ensures Patient(calls) && (r.Plan? || r.Refused?) ==> g == Whole(p)
    ensures AllSteady(calls) ==>
      !r.Lost? && (|calls| > 2 * (|p.pages| + 8) ==> !r.Pending?)
    ensures AllPrompt(calls) ==>
      !r.Lost? && (|calls| > |p.pages| + 8 ==> !r.Pending?)
  {
    var st := new CompileState<S>();
    g := NOTHING;
    for k := 0 to |calls|
      invariant fresh(st) && Startable(p, g, st.Value())
      invariant Patient(calls) ==> !g.narrowed
      invariant ChainStalls(calls, k, st.stalls)
      invariant AllSteady(calls) ==> Tries(p, st.Value()) <= 2 * (|p.pages| + 8) - k
      invariant AllPrompt(calls) ==> Left(p, st.Value()) <= |p.pages| + 8 - k
    {
      CallFacts(calls, k, st.stalls);
      var result;
      result, g := st.RunPasses(p, calls[k], g);
      match result {
        case Finished =>
          if st.complete { CompleteMeansWhole(p, g, EMIT); }
          PlanIsStraight(p, g);
          return Plan(st.Value()), g;
        case Failed(e) =>
          StumblesOnce(p, g, e);
          PlanIsStraight(p, g);
          return Refused(e), g;
        case TimedOut => return Lost, g;
        case Halted =>
          st := Resume(p, st, g);
      }
    }
    r := Pending;
    LeftOver(p, g, st.Value());
  }

  lemma LeftOver<S>(p: Pipeline<S>, g: Gathered, s: State<S>)
    requires Startable(p, g, s)
    ensures Left(p, s) >= 0 && Tries(p, s) >= 0
  {
  }
}
