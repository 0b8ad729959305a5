/** What callers of the ledger rely on, over every run. */
module LedgerTheorems {
  import opened Int64
  import opened LedgerModel
  import opened LedgerProofs
  import opened LedgerRuns

  lemma EveryRun(allocation: int, diskAllocation: int, es: seq<Event>)
    requires 0 <= allocation <= MAX && 0 <= diskAllocation <= MAX
    requires Legal(Start(allocation, diskAllocation), es)
    ensures SysInv(Exec(Start(allocation, diskAllocation), es))
  {
    InitInv(allocation, diskAllocation);
    RunInv(Start(allocation, diskAllocation), es);
  }

  ghost predicate ReachedBy(y: System, allocation: int, diskAllocation: int, es: seq<Event>) {
    && 0 <= allocation <= MAX && 0 <= diskAllocation <= MAX
    && Legal(Start(allocation, diskAllocation), es) && Exec(Start(allocation, diskAllocation), es) == y
  }

  /** Some run of some new ledger ends here. */
  ghost predicate Reachable(y: System) {
    exists allocation, diskAllocation, es :: ReachedBy(y, allocation, diskAllocation, es)
  }

  lemma ReachableInv(y: System)
    requires Reachable(y)
    ensures SysInv(y)
  {
    var allocation, diskAllocation, es :| ReachedBy(y, allocation, diskAllocation, es);
    EveryRun(allocation, diskAllocation, es);
  }

  /** Strict first-in-first-out: once a reservation has been granted, every one
      that arrived before it has been granted or has stopped waiting. */
  lemma NoOvertaking(y: System, i: nat, j: nat)
    requires Reachable(y) && i < j < |y.s.entries| && y.s.entries[j].granted
    ensures y.s.entries[i].granted || y.s.entries[i].canceled
  {
    ReachableInv(y);
    assert y.s.entries[i].Queued() <==> i in y.s.queue;
  }

  // ----- what was asked for -----

  /** One Hold as its callers told it: what it asked for, the memory it was last adjusted
      to, and whether it has been given back. */
  datatype Ask = Ask(r: Reservation, bytes: int, over: bool)

  /** The Holds of a run, in the order they queued. */
  function Told(es: seq<Event>): seq<Ask> {
    if es == [] then []
    else
      var before := Told(es[..|es| - 1]);
      match es[|es| - 1]
      case Queue(r) => before + [Ask(r, r.memory, false)]
      case Adjust(id, bytes) =>
        if id < |before| && bytes >= 0 && !before[id].over then before[id := before[id].(bytes := bytes)] else before
      case Release(id) => if id < |before| then before[id := before[id].(over := true)] else before
      case GiveStraightBack(id) => if id < |before| then before[id := before[id].(over := true)] else before
      case Wake(_) => before
      case Return(_) => before
      case Cancel(_) => before
      case SetAllocation(_) => before
  }

  predicate IsAsked(e: Entry, a: Ask) {
    && e.parse == a.r.parse && e.alone == a.r.alone && e.disk == a.r.disk
    && e.bytes == a.bytes && e.released == a.over
  }

  ghost predicate AllAsked(es: seq<Entry>, asks: seq<Ask>) {
    |es| == |asks| && forall k | 0 <= k < |es| :: IsAsked(es[k], asks[k])
  }

  lemma {:induction false} ExecSnoc(y: System, es: seq<Event>)
    requires Wf(y) && es != [] && Legal(y, es)
    ensures var n := |es| - 1;
      && Legal(y, es[..n]) && Enabled(Exec(y, es[..n]), es[n]) && Exec(y, es) == Step(Exec(y, es[..n]), es[n])
    decreases |es|
  {
    var n := |es| - 1;
    if n > 0 {
      ExecSnoc(Step(y, es[0]), es[1..]);
      assert es[..n][1..] == es[1..][..n - 1] && es[..n][0] == es[0];
    }
  }

  /** What a step tells of one Hold is what it does to its reservation. */
  lemma StepAsked(y: System, e: Event, asks: seq<Ask>, after: seq<Ask>)
    requires SysInv(y) && Enabled(y, e) && AllAsked(y.s.entries, asks)
    requires after ==
      match e
      case Queue(r) => asks + [Ask(r, r.memory, false)]
      case Adjust(id, bytes) =>
        if id < |asks| && bytes >= 0 && !asks[id].over then asks[id := asks[id].(bytes := bytes)] else asks
      case Release(id) => if id < |asks| then asks[id := asks[id].(over := true)] else asks
      case GiveStraightBack(id) => if id < |asks| then asks[id := asks[id].(over := true)] else asks
      case Wake(_) => asks
      case Return(_) => asks
      case Cancel(_) => asks
      case SetAllocation(_) => asks
    ensures AllAsked(Step(y, e).s.entries, after)
  {
    var z := Step(y, e).s;
    assert |z.entries| == |after|;
    forall k | 0 <= k < |z.entries| ensures IsAsked(z.entries[k], after[k]) {
      if k < |asks| { assert IsAsked(y.s.entries[k], asks[k]); }
      match e {
        case Queue(r) => PumpEvolves(Enqueue(y.s, r), k);
        case Cancel(id) => if !y.s.entries[id].granted { RemoveEntry(y.s, id, k); }
        case GiveStraightBack(id) => ReleaseEntry(y.s, id, k);
        case Release(id) => ReleaseEntry(y.s, id, k);
        case Adjust(id, bytes) => AdjustEntry(y.s, id, bytes, k);
        case SetAllocation(bytes) => if bytes >= 0 { PumpEvolves(y.s.(allocation := bytes), k); }
        case Wake(_) =>
        case Return(_) =>
      }
    }
  }

  /** In every run the k-th reservation has the kind, the disk and the memory its Hold
      asked for, the memory as last adjusted, and is over exactly once given back. */
  lemma {:induction false} HeldAsAsked(allocation: int, diskAllocation: int, es: seq<Event>)
    requires 0 <= allocation <= MAX && 0 <= diskAllocation <= MAX
    requires Legal(Start(allocation, diskAllocation), es)
    ensures AllAsked(Exec(Start(allocation, diskAllocation), es).s.entries, Told(es))
    decreases |es|
  {
    if es != [] {
      var n := |es| - 1;
      var start := Start(allocation, diskAllocation);
      ExecSnoc(start, es);
      HeldAsAsked(allocation, diskAllocation, es[..n]);
      EveryRun(allocation, diskAllocation, es[..n]);
      StepAsked(Exec(start, es[..n]), es[n], Told(es[..n]), Told(es));
    }
  }

  /** The memory allocation as last set. */
  function LastAllocation(allocation: int, es: seq<Event>): int {
    if es == [] then allocation
    else
      var e := es[|es| - 1];
      if e.SetAllocation? && e.bytes >= 0 then e.bytes else LastAllocation(allocation, es[..|es| - 1])
  }

  lemma {:induction false} PumpAllocations(s: State)
    requires WellFormed(s)
    ensures Pump(s).allocation == s.allocation && Pump(s).diskAllocation == s.diskAllocation
    decreases |s.queue|
  {
    if s.queue != [] && !Blocked(s, s.entries[s.queue[0]]) { PumpAllocations(Grant(s)); }
  }

  lemma StepAllocations(y: System, e: Event)
    requires Wf(y) && Enabled(y, e)
    ensures Step(y, e).s.diskAllocation == y.s.diskAllocation
    ensures Step(y, e).s.allocation == if e.SetAllocation? && e.bytes >= 0 then e.bytes else y.s.allocation
  {
    match e
    case Queue(r) => PumpAllocations(Enqueue(y.s, r));
    case Cancel(id) => if id in y.s.queue { PumpAllocations(Drop(y.s, id)); }
    case GiveStraightBack(id) => PumpAllocations(GiveBack(y.s, id));
    case Release(id) => PumpAllocations(GiveBack(y.s, id));
    case Adjust(id, bytes) => PumpAllocations(Resize(y.s, id, bytes));
    case SetAllocation(bytes) => PumpAllocations(y.s.(allocation := bytes));
    case Wake(_) =>
    case Return(_) =>
  }

  /** In every run what is held is tested against the memory allocation last set and the
      disk allocation of the start. */
  lemma {:induction false} AllocationsAsSet(allocation: int, diskAllocation: int, es: seq<Event>)
    requires Legal(Start(allocation, diskAllocation), es)
    ensures var s := Exec(Start(allocation, diskAllocation), es).s;
      s.allocation == LastAllocation(allocation, es) && s.diskAllocation == diskAllocation
    decreases |es|
  {
    if es != [] {
      var n := |es| - 1;
      ExecSnoc(Start(allocation, diskAllocation), es);
      AllocationsAsSet(allocation, diskAllocation, es[..n]);
      StepAllocations(Exec(Start(allocation, diskAllocation), es[..n]), es[n]);
    }
  }

  /** Where the k-th Hold stands, by what its caller has heard: it returned, or its context
      ended and then, if it had been granted, it was given straight back. */
  ghost predicate PhaseTold(phase: Phase, granted: bool, es: seq<Event>, k: nat) {
    && (Cancel(k) in es <==> phase in {Aborting, Failed})
    && (Return(k) in es ==> phase == Holding)
    && (phase == Holding ==> Return(k) in es || Wake(k) in es)
    && (GiveStraightBack(k) in es ==> phase == Failed)
    && (phase == Failed && granted ==> GiveStraightBack(k) in es)
  }

  ghost predicate StandsAsTold(y: System, es: seq<Event>, k: nat)
    requires Wf(y)
  {
    if k >= |y.phases| then Cancel(k) !in es && Return(k) !in es && GiveStraightBack(k) !in es && Wake(k) !in es
    else PhaseTold(y.phases[k], y.s.entries[k].granted, es, k)
  }

  lemma {:induction false} PhasesAsTold(allocation: int, diskAllocation: int, es: seq<Event>, k: nat)
    requires 0 <= allocation <= MAX && 0 <= diskAllocation <= MAX
    requires Legal(Start(allocation, diskAllocation), es)
    ensures StandsAsTold(Exec(Start(allocation, diskAllocation), es), es, k)
    decreases |es|
  {
    if es != [] {
      var n := |es| - 1;
      var start := Start(allocation, diskAllocation);
      ExecSnoc(start, es);
      PhasesAsTold(allocation, diskAllocation, es[..n], k);
      EveryRun(allocation, diskAllocation, es[..n]);
      StepTold(Exec(start, es[..n]), es[..n], es[n], k);
      assert es == es[..n] + [es[n]];
    }
  }

  lemma StepTold(y: System, es: seq<Event>, e: Event, k: nat)
    requires SysInv(y) && Enabled(y, e) && StandsAsTold(y, es, k)
    ensures StandsAsTold(Step(y, e), es + [e], k)
  {
    if k < |y.phases| {
      assert PhaseOk(y.phases[k], y.s.entries[k]);
      if y.phases[k] == Failed { StaysFailed(y, e, k); }
      if e == Cancel(k) && !y.s.entries[k].granted { Canceled(y, k); }
      NextPhase(y, e, k);
      ToldNext(y.phases[k], y.s.entries[k].granted, Step(y, e).phases[k], Step(y, e).s.entries[k].granted, es, e, k);
    }
  }

  /** What one event does to where a Hold stands. */
  lemma NextPhase(y: System, e: Event, k: nat)
    requires Wf(y) && Enabled(y, e) && k < |y.phases|
    ensures k < |Step(y, e).phases|
    ensures Step(y, e).phases[k] ==
      if e == Return(k) || (e == Wake(k) && y.s.entries[k].granted) then Holding
      else if e == Cancel(k) then (if y.s.entries[k].granted then Aborting else Failed)
      else if e == GiveStraightBack(k) then Failed
      else y.phases[k]
  {
  }

  lemma ToldNext(phase: Phase, granted: bool, next: Phase, after: bool, es: seq<Event>, e: Event, k: nat)
    requires PhaseTold(phase, granted, es, k)
    requires next ==
      if e == Return(k) || (e == Wake(k) && granted) then Holding
      else if e == Cancel(k) then (if granted then Aborting else Failed)
      else if e == GiveStraightBack(k) then Failed
      else phase
    requires e in [Return(k), Wake(k), Cancel(k)] ==> phase == Waiting
    requires e == GiveStraightBack(k) ==> phase == Aborting
    requires phase == Failed || e == Cancel(k) ==> after == granted
    ensures PhaseTold(next, after, es + [e], k)
  {
  }

  lemma StaysFailed(y: System, e: Event, k: nat)
    requires SysInv(y) && Enabled(y, e) && k < |y.phases| && y.phases[k] == Failed
    ensures k < |Step(y, e).phases| && Step(y, e).s.entries[k].granted == y.s.entries[k].granted
  {
    StepInv(y, e);
    assert PhaseOk(Failed, y.s.entries[k]) && y.s.entries[k].Sane();
    match e
    case Queue(r) => PumpEvolves(Enqueue(y.s, r), k);
    case Cancel(id) => if !y.s.entries[id].granted { RemoveEntry(y.s, id, k); }
    case GiveStraightBack(id) => ReleaseEntry(y.s, id, k);
    case Release(id) => ReleaseEntry(y.s, id, k);
    case Adjust(id, bytes) => AdjustEntry(y.s, id, bytes, k);
    case SetAllocation(bytes) => if bytes >= 0 { PumpEvolves(y.s.(allocation := bytes), k); }
    case Wake(_) =>
    case Return(_) =>
    assert Step(y, e).s.entries[k].Sane();
  }

  /** A Hold whose context ends before its grant is never granted. */
  lemma Canceled(y: System, k: nat)
    requires SysInv(y) && Enabled(y, Cancel(k)) && !y.s.entries[k].granted
    ensures k < |Step(y, Cancel(k)).s.entries| && !Step(y, Cancel(k)).s.entries[k].granted
  {
    StepInv(y, Cancel(k));
    assert PhaseOk(y.phases[k], y.s.entries[k]) && y.s.entries[k].Queued();
    RemoveEntry(y.s, k, k);
    assert Step(y, Cancel(k)).s.entries[k].Sane();
  }

  /** A Hold that asked to run alone is held beside no other that asked for a parse. */
  lemma AloneAmongParses(allocation: int, diskAllocation: int, es: seq<Event>, i: nat, j: nat)
    requires 0 <= allocation <= MAX && 0 <= diskAllocation <= MAX
    requires Legal(Start(allocation, diskAllocation), es)
    requires i < |Told(es)| && j < |Told(es)| && Told(es)[i].r.alone && Told(es)[j].r.parse
    ensures var s := Exec(Start(allocation, diskAllocation), es).s;
      |s.entries| == |Told(es)| && (s.entries[i].Held() && s.entries[j].Held() ==> i == j)
  {
    HeldAsAsked(allocation, diskAllocation, es);
    EveryRun(allocation, diskAllocation, es);
    var s := Exec(Start(allocation, diskAllocation), es).s;
    assert IsAsked(s.entries[i], Told(es)[i]) && IsAsked(s.entries[j], Told(es)[j]) && s.entries[i].Sane();
    if s.entries[i].Held() && s.entries[j].Held() {
      SumAtLeast(s.entries, AloneOne, i, i);
      SumAtLeast(s.entries, ParseOne, i, j);
    }
  }

  // ----- the head is inadmissible -----

  /** Not a holding raised by hand: the one step that moves the sums and does not pump. */
  ghost predicate Pumps(y: System, e: Event)
    requires Wf(y) && Enabled(y, e)
  {
    e.Adjust? ==> e.bytes <= y.s.entries[e.id].bytes || y.s.entries[e.id].released
  }

  ghost predicate AllPump(y: System, es: seq<Event>)
    requires Wf(y) && Legal(y, es)
    decreases |es|
  {
    es != [] ==> Pumps(y, es[0]) && AllPump(Step(y, es[0]), es[1..])
  }

  lemma StepSettled(y: System, e: Event)
    requires SysInv(y) && Settled(y.s) && Enabled(y, e) && Pumps(y, e)
    ensures Settled(Step(y, e).s)
  {
    match e
    case Queue(r) => ArriveInv(y.s, r);
    case Wake(id) => TakeWakeInv(y.s, id);
    case Return(_) =>
    case Cancel(id) => if !y.s.entries[id].granted && id in y.s.queue { RemoveInv(y.s, id); }
    case GiveStraightBack(id) => SettledRelease(y, id);
    case Release(id) => SettledRelease(y, id);
    case Adjust(id, bytes) =>
      assert PhaseOk(y.phases[id], y.s.entries[id]);
      AdjustInv(y.s, id, bytes);
    case SetAllocation(bytes) => SetAllocationInv(y.s, bytes);
  }

  lemma SettledRelease(y: System, id: nat)
    requires SysInv(y) && Settled(y.s) && id < |y.phases| && y.phases[id] in {Holding, Aborting}
    ensures Settled(LedgerModel.Release(y.s, id))
  {
    assert PhaseOk(y.phases[id], y.s.entries[id]);
    ReleaseInv(y.s, id);
  }

  lemma {:induction false} RunSettled(y: System, es: seq<Event>)
    requires SysInv(y) && Settled(y.s) && Legal(y, es) && AllPump(y, es)
    ensures Settled(Exec(y, es).s)
    decreases |es|
  {
    if es != [] {
      StepInv(y, es[0]);
      StepSettled(y, es[0]);
      RunSettled(Step(y, es[0]), es[1..]);
    }
  }

  /** At every lock release of every run that raises no holding, whatever its sums come
      to, the test holds back the head of a non-empty queue. */
  lemma HeadInadmissible(allocation: int, diskAllocation: int, es: seq<Event>)
    requires 0 <= allocation <= MAX && 0 <= diskAllocation <= MAX
    requires Legal(Start(allocation, diskAllocation), es) && AllPump(Start(allocation, diskAllocation), es)
    ensures Settled(Exec(Start(allocation, diskAllocation), es).s)
  {
    InitInv(allocation, diskAllocation);
    RunSettled(Start(allocation, diskAllocation), es);
  }

  // ----- no leak -----

  lemma {:induction false} NoneHeld(es: seq<Entry>)
    requires forall i | 0 <= i < |es| :: !es[i].Held()
    ensures Sum(es, One) == Sum(es, ParseOne) == Sum(es, AloneOne) == Sum(es, Memory) == Sum(es, Disk) == 0
  {
    if es != [] { NoneHeld(es[..|es| - 1]); }
  }

  /** A Hold that ended in an error holds nothing and queues nothing; one that
      returned is held, once, exactly until its first release. */
  lemma EveryHoldAccountedFor(y: System, id: nat)
    requires Reachable(y) && id < |y.phases|
    ensures y.phases[id] == Failed ==> !y.s.entries[id].Live() && id !in y.s.queue
    ensures y.phases[id] == Holding ==> (y.s.entries[id].Held() <==> !y.s.entries[id].released)
    ensures y.phases[id] == Aborting ==> y.s.entries[id].Held()
  {
    ReachableInv(y);
    assert PhaseOk(y.phases[id], y.s.entries[id]) && y.s.entries[id].Sane();
    assert y.s.entries[id].Queued() <==> id in y.s.queue;
  }

  /** Once every Hold has failed or been released, the ledger is as it began. */
  lemma NothingLeaks(y: System)
    requires Reachable(y)
    requires forall id | 0 <= id < |y.phases| ::
               y.phases[id] == Failed || (y.phases[id] == Holding && y.s.entries[id].released)
    ensures y.s.queue == []
    ensures y.s.admitted == y.s.parses == y.s.alone == y.s.used == y.s.diskUsed == 0
  {
    ReachableInv(y);
    assert y.s.queue != [] ==> y.s.queue[0] in y.s.queue && y.s.queue[0] < |y.s.entries|;
    forall id | 0 <= id < |y.s.entries| ensures !y.s.entries[id].Live() && id !in y.s.queue {
      EveryHoldAccountedFor(y, id);
      assert y.s.entries[id].Sane() && (y.s.entries[id].Queued() <==> id in y.s.queue);
    }
    NoneHeld(y.s.entries);
  }

  /** A second release, and an adjustment after the release, change nothing. */
  lemma ReleaseOnce(y: System, id: nat, bytes: int)
    requires Reachable(y) && id < |y.phases| && y.phases[id] == Holding && InRange(bytes)
    ensures var z := Step(y, Event.Release(id));
            Step(z, Event.Release(id)) == z && Step(z, Event.Adjust(id, bytes)) == z
  {
    ReachableInv(y);
    ReleaseEntry(y.s, id, id);
    StepInv(y, Event.Release(id));
  }

  // ----- bounded waiting -----

  /** How many reservations are in front of w: those held and those queued ahead. */
  function Ahead(q: seq<nat>, w: nat): nat
    requires w in q
  {
    if q[0] == w then 0 else 1 + Ahead(q[1..], w)
  }

  function Rank(s: State, w: nat): int
    requires w in s.queue
  {
    s.admitted + Ahead(s.queue, w)
  }

  /** The event gives back a held reservation or takes a waiter out ahead of w. */
  ghost predicate Departs(y: System, e: Event, w: nat)
    requires Wf(y) && Enabled(y, e)
  {
    match e
    case GiveStraightBack(id) => id < |y.s.entries| && !y.s.entries[id].released
    case Release(id) => id < |y.s.entries| && !y.s.entries[id].released
    case Cancel(id) => id in y.s.queue && !y.s.entries[id].granted && id < w
    case _ => false
  }

  lemma {:induction false} PumpRank(s: State, w: nat)
    requires WellFormed(s) && w in Pump(s).queue
    ensures w in s.queue
    ensures (forall i, j | 0 <= i < j < |s.queue| :: s.queue[i] < s.queue[j]) ==> Rank(Pump(s), w) == Rank(s, w)
    decreases |s.queue|
  {
    if s.queue != [] && !Blocked(s, s.entries[s.queue[0]]) {
      PumpRank(Grant(s), w);
    }
  }

  lemma {:induction false} AheadAppend(q: seq<nat>, x: nat, w: nat)
    requires w in q
    ensures Ahead(q + [x], w) == Ahead(q, w)
  {
    if q[0] != w {
      AheadAppend(q[1..], x, w);
      assert (q + [x])[1..] == q[1..] + [x];
    }
  }

  lemma {:induction false} AheadWithout(q: seq<nat>, id: nat, w: nat)
    requires forall i, j | 0 <= i < j < |q| :: q[i] < q[j]
    requires w in q && id in q && id != w
    ensures w in Without(q, id)
    ensures Ahead(Without(q, id), w) == Ahead(q, w) - (if id < w then 1 else 0)
  {
    if q[0] == id {
    } else if q[0] == w {
    } else {
      AheadWithout(q[1..], id, w);
    }
  }

  lemma ArriveRank(s: State, r: Reservation, w: nat)
    requires Inv(s) && r.Valid() && w < |s.entries| && w in Arrive(s, r).queue
    ensures w in s.queue && Rank(Arrive(s, r), w) == Rank(s, w)
  {
    EnqueueQueue(s, r);
    PumpRank(Enqueue(s, r), w);
    assert forall q | q in Enqueue(s, r).queue :: q in s.queue || q == |s.entries|;
    AheadAppend(s.queue, |s.entries|, w);
  }

  lemma RemoveRank(s: State, id: nat, w: nat)
    requires Inv(s) && id in s.queue && w in Remove(s, id).queue
    ensures w in s.queue && Rank(Remove(s, id), w) == Rank(s, w) - (if id < w then 1 else 0)
  {
    var t := Drop(s, id);
    DropQueue(s, id);
    PumpRank(t, w);
    var k :| 0 <= k < |t.queue| && t.queue[k] == w;
    assert t.entries[w].Queued();
    AheadWithout(s.queue, id, w);
  }

  lemma ReleaseRank(s: State, id: nat, w: nat)
    requires Inv(s) && id < |s.entries| && w in LedgerModel.Release(s, id).queue
    ensures w in s.queue
    ensures Rank(LedgerModel.Release(s, id), w) == Rank(s, w) - (if s.entries[id].released then 0 else 1)
  {
    if !s.entries[id].released { PumpRank(GiveBack(s, id), w); }
  }

  lemma AdjustRank(s: State, id: nat, bytes: int, w: nat)
    requires Inv(s) && id < |s.entries| && w in LedgerModel.Adjust(s, id, bytes).queue
    ensures w in s.queue && Rank(LedgerModel.Adjust(s, id, bytes), w) == Rank(s, w)
  {
    var a := s.entries[id];
    if 0 <= bytes < a.bytes && !a.released { PumpRank(Resize(s, id, bytes), w); }
  }

  /** While w stays queued its rank falls by exactly one on each departure ahead
      of it and never changes otherwise, whatever the event. */
  lemma StepRank(y: System, e: Event, w: nat)
    requires SysInv(y) && Enabled(y, e) && w < |y.s.entries| && w in Step(y, e).s.queue
    ensures w in y.s.queue
    ensures Rank(Step(y, e).s, w) == Rank(y.s, w) - (if Departs(y, e, w) then 1 else 0)
  {
    match e
    case Queue(r) => ArriveRank(y.s, r, w);
    case Wake(_) =>
    case Return(_) =>
    case Cancel(id) => if id in y.s.queue && !y.s.entries[id].granted { RemoveRank(y.s, id, w); }
    case GiveStraightBack(id) => ReleaseRank(y.s, id, w);
    case Release(id) => ReleaseRank(y.s, id, w);
    case Adjust(id, bytes) => AdjustRank(y.s, id, bytes, w);
    case SetAllocation(bytes) => if bytes >= 0 { PumpRank(y.s.(allocation := bytes), w); }
  }

  ghost function Departures(y: System, es: seq<Event>, w: nat): nat
    requires Wf(y) && Legal(y, es)
    decreases |es|
  {
    if es == [] then 0
    else (if Departs(y, es[0], w) then 1 else 0) + Departures(Step(y, es[0]), es[1..], w)
  }

  lemma {:induction false} RunRank(y: System, es: seq<Event>, w: nat)
    requires SysInv(y) && Legal(y, es) && w < |y.s.entries| && w in Exec(y, es).s.queue
    ensures w in y.s.queue && Rank(Exec(y, es).s, w) == Rank(y.s, w) - Departures(y, es, w)
    decreases |es|
  {
    if es != [] {
      StepInv(y, es[0]);
      RunRank(Step(y, es[0]), es[1..], w);
      StepRank(y, es[0], w);
    }
  }

  /** Bounded waiting: in whatever way a run goes on, a queued reservation has
      left the queue by the time as many reservations as stand in front of it
      have been given back or have stopped waiting. */
  lemma BoundedWaiting(y: System, es: seq<Event>, w: nat)
    requires Reachable(y) && Legal(y, es) && w in y.s.queue
    requires Departures(y, es, w) >= Rank(y.s, w)
    ensures w !in Exec(y, es).s.queue
    ensures var e := Exec(y, es).s.entries; w < |e| && (e[w].granted || e[w].canceled)
  {
    var z := Exec(y, es);
    ReachableInv(y);
    RunInv(y, es);
    RunGrows(y, es);
    if w in z.s.queue {
      RunRank(y, es, w);
    }
    assert z.s.entries[w].Queued() <==> w in z.s.queue;
  }

  lemma {:induction false} RunGrows(y: System, es: seq<Event>)
    requires Wf(y) && Legal(y, es)
    ensures |Exec(y, es).s.entries| >= |y.s.entries|
    decreases |es|
  {
    if es != [] { RunGrows(Step(y, es[0]), es[1..]); }
  }
}
