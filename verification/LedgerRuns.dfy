/** Whole runs of the ledger: any number of concurrent Hold calls, each of them
    waiting, returned or ending in an error, interleaved in every possible way
    with releases, adjustments and re-derived allocations. */
module LedgerRuns {
  import opened Int64
  import opened LedgerModel
  import opened LedgerProofs

  /** Where the caller of one queued Hold stands. Aborting: its context ended,
      it saw the grant under the lock and has yet to give it straight back. */
  datatype Phase = Waiting | Holding | Aborting | Failed

  datatype System = System(s: State, phases: seq<Phase>)

  /** One lock-protected step of one goroutine. */
  datatype Event =
    | Queue(r: Reservation)             // Hold queues its waiter and pumps
    | Wake(id: nat)                     // Hold receives from stuck
    | Return(id: nat)                   // Hold receives from ready
    | Cancel(id: nat)                   // Hold receives from ctx.Done
    | GiveStraightBack(id: nat)         // ... and had been granted
    | Release(id: nat)                  // Holding.Release
    | Adjust(id: nat, bytes: int)       // Holding.Adjust
    | SetAllocation(bytes: int)

  ghost predicate Wf(y: System) {
    WellFormed(y.s) && |y.phases| == |y.s.entries|
  }

  ghost predicate Enabled(y: System, e: Event) {
    match e
    case Queue(r) => r.Valid()
    case Wake(id) => id < |y.phases| && y.phases[id] == Waiting && id < |y.s.entries| && y.s.entries[id].stuck
    case Return(id) => id < |y.phases| && y.phases[id] == Waiting && id < |y.s.entries| && y.s.entries[id].granted
    case Cancel(id) => id < |y.phases| && y.phases[id] == Waiting && id < |y.s.entries|
    case GiveStraightBack(id) => id < |y.phases| && y.phases[id] == Aborting
    case Release(id) => id < |y.phases| && y.phases[id] == Holding
    case Adjust(id, bytes) => id < |y.phases| && y.phases[id] == Holding && InRange(bytes)
    case SetAllocation(bytes) => InRange(bytes)
  }

  ghost function Step(y: System, e: Event): (z: System)
    requires Wf(y) && Enabled(y, e)
    ensures Wf(z)
  {
    match e
    case Queue(r) => System(Arrive(y.s, r), y.phases + [Waiting])
    case Wake(id) =>
      // A grant that came first wins over the wake-up still buffered.
      System(TakeWake(y.s, id), if y.s.entries[id].granted then y.phases[id := Holding] else y.phases)
    case Return(id) => y.(phases := y.phases[id := Holding])
    case Cancel(id) =>
      if y.s.entries[id].granted then y.(phases := y.phases[id := Aborting])
      else System(LedgerModel.Remove(y.s, id), y.phases[id := Failed])
    case GiveStraightBack(id) => System(LedgerModel.Release(y.s, id), y.phases[id := Failed])
    case Release(id) => y.(s := LedgerModel.Release(y.s, id))
    case Adjust(id, bytes) => y.(s := LedgerModel.Adjust(y.s, id, bytes))
    case SetAllocation(bytes) => y.(s := LedgerModel.SetAllocation(y.s, bytes))
  }

  ghost predicate Legal(y: System, es: seq<Event>)
    requires Wf(y)
    decreases |es|
  {
    es != [] ==> Enabled(y, es[0]) && Legal(Step(y, es[0]), es[1..])
  }

  ghost function Exec(y: System, es: seq<Event>): (z: System)
    requires Wf(y) && Legal(y, es)
    ensures Wf(z)
    decreases |es|
  {
    if es == [] then y else Exec(Step(y, es[0]), es[1..])
  }

  ghost function Start(allocation: int, diskAllocation: int): System {
    System(Init(allocation, diskAllocation), [])
  }

  // ----- the invariant of every run -----

  ghost predicate PhaseOk(p: Phase, e: Entry) {
    match p
    case Waiting => !e.canceled && !e.released
    case Holding => e.granted
    case Aborting => e.Held()
    case Failed => e.canceled || e.released
  }

  ghost predicate SysInv(y: System) {
    && Inv(y.s) && Wf(y)
    && forall id | 0 <= id < |y.phases| :: PhaseOk(y.phases[id], y.s.entries[id])
  }

  lemma {:induction false} StepInv(y: System, e: Event)
    requires SysInv(y) && Enabled(y, e)
    ensures SysInv(Step(y, e))
  {
    var z := Step(y, e);
    StepLedger(y, e);
    forall id | 0 <= id < |z.phases| ensures PhaseOk(z.phases[id], z.s.entries[id]) {
      StepPhase(y, e, id);
    }
  }

  lemma StepLedger(y: System, e: Event)
    requires SysInv(y) && Enabled(y, e)
    ensures Inv(Step(y, e).s)
  {
    match e
    case Queue(r) => ArriveInv(y.s, r);
    case Wake(id) => TakeWakeInv(y.s, id);
    case Return(_) =>
    case Cancel(id) => if id in y.s.queue { RemoveInv(y.s, id); }
    case GiveStraightBack(id) => ReleaseInv(y.s, id);
    case Release(id) => ReleaseInv(y.s, id);
    case Adjust(id, bytes) => AdjustInv(y.s, id, bytes);
    case SetAllocation(bytes) => SetAllocationInv(y.s, bytes);
  }

  lemma RemoveEntry(s: State, x: nat, id: nat)
    requires WellFormed(s) && x < |s.entries| && id < |s.entries|
    ensures Evolves(if x == id && x in s.queue then s.entries[id].(canceled := true) else s.entries[id],
                    LedgerModel.Remove(s, x).entries[id])
  {
    if x in s.queue { PumpEvolves(Drop(s, x), id); }
  }

  lemma ReleaseEntry(s: State, x: nat, id: nat)
    requires WellFormed(s) && x < |s.entries| && id < |s.entries|
    ensures Evolves(if x == id then s.entries[id].(released := true) else s.entries[id],
                    LedgerModel.Release(s, x).entries[id])
  {
    if s.entries[x].released {
      assert s.entries[x] == s.entries[x].(released := true);
    } else {
      PumpEvolves(GiveBack(s, x), id);
    }
  }

  lemma AdjustEntry(s: State, x: nat, bytes: int, id: nat)
    requires WellFormed(s) && x < |s.entries| && id < |s.entries|
    ensures var e := s.entries[id];
      Evolves(if x == id && 0 <= bytes && !s.entries[x].released then e.(bytes := bytes) else e,
              LedgerModel.Adjust(s, x, bytes).entries[id])
  {
    if 0 <= bytes < s.entries[x].bytes { PumpEvolves(Resize(s, x, bytes), id); }
  }

  lemma StepPhase(y: System, e: Event, id: nat)
    requires SysInv(y) && Enabled(y, e) && id < |Step(y, e).phases| && Inv(Step(y, e).s)
    ensures PhaseOk(Step(y, e).phases[id], Step(y, e).s.entries[id])
  {
    var b := Step(y, e).s.entries[id];
    assert b.Sane();
    if id == |y.phases| {
      PumpEvolves(Enqueue(y.s, e.r), id);
    } else {
      assert PhaseOk(y.phases[id], y.s.entries[id]) && y.s.entries[id].Sane();
      OldPhase(y, e, id);
    }
  }

  lemma OldPhase(y: System, e: Event, id: nat)
    requires Wf(y) && Enabled(y, e) && id < |y.phases| && PhaseOk(y.phases[id], y.s.entries[id])
    requires y.s.entries[id].Queued() ==> id in y.s.queue
    requires y.s.entries[id].Sane() && Step(y, e).s.entries[id].Sane()
    ensures PhaseOk(Step(y, e).phases[id], Step(y, e).s.entries[id])
  {
    match e
    case Queue(r) => PumpEvolves(Enqueue(y.s, r), id);
    case Wake(_) =>
    case Return(_) =>
    case Cancel(x) => CancelPhase(y, x, id);
    case GiveStraightBack(x) => ReleasePhase(y.s, y.phases[id], x, id);
    case Release(x) => ReleasePhase(y.s, y.phases[id], x, id);
    case Adjust(x, bytes) => AdjustPhase(y.s, y.phases[id], x, bytes, id);
    case SetAllocation(bytes) => if bytes >= 0 { PumpEvolves(y.s.(allocation := bytes), id); }
  }

  lemma CancelPhase(y: System, x: nat, id: nat)
    requires Wf(y) && Enabled(y, Cancel(x)) && id < |y.phases| && PhaseOk(y.phases[id], y.s.entries[id])
    requires y.s.entries[id].Queued() ==> id in y.s.queue
    requires y.s.entries[id].Sane() && Step(y, Cancel(x)).s.entries[id].Sane()
    ensures PhaseOk(Step(y, Cancel(x)).phases[id], Step(y, Cancel(x)).s.entries[id])
  {
    if !y.s.entries[x].granted { RemoveEntry(y.s, x, id); }
  }

  lemma ReleasePhase(s: State, p: Phase, x: nat, id: nat)
    requires WellFormed(s) && x < |s.entries| && id < |s.entries| && PhaseOk(p, s.entries[id])
    requires LedgerModel.Release(s, x).entries[id].Sane()
    ensures x != id || p == Holding ==> PhaseOk(p, LedgerModel.Release(s, x).entries[id])
    ensures x == id ==> PhaseOk(Failed, LedgerModel.Release(s, x).entries[id])
  {
    ReleaseEntry(s, x, id);
  }

  lemma AdjustPhase(s: State, p: Phase, x: nat, bytes: int, id: nat)
    requires WellFormed(s) && x < |s.entries| && id < |s.entries| && PhaseOk(p, s.entries[id])
    requires LedgerModel.Adjust(s, x, bytes).entries[id].Sane()
    ensures PhaseOk(p, LedgerModel.Adjust(s, x, bytes).entries[id])
  {
    AdjustEntry(s, x, bytes, id);
  }

  /** Every state of every run satisfies the invariant. */
  lemma {:induction false} RunInv(y: System, es: seq<Event>)
    requires SysInv(y) && Legal(y, es)
    ensures SysInv(Exec(y, es))
    decreases |es|
  {
    if es != [] {
      StepInv(y, es[0]);
      RunInv(Step(y, es[0]), es[1..]);
    }
  }
}
