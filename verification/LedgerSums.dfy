/** The sums the ledger admits against: when the int64 test is the true one, how
    far what is held can stand above an allocation, and what goes wrong when the
    sums do not fit int64. */
module LedgerSums {
  import opened Int64
  import opened LedgerModel
  import opened LedgerProofs
  import opened LedgerRuns
  import opened Options

  // ----- the int64 test against the true sum -----

  /** A comparison of an int64 sum with an allocation agrees with the comparison of the
      true sum exactly when the true sum fits int64 or wraps to above the allocation. */
  lemma WrappedTest(held: nat, used: int, bytes: int, allocation: int)
    requires used == Wrap(held) && 0 <= bytes <= MAX && 0 <= allocation <= MAX
    ensures (Wrap(used + bytes) <= allocation <==> held + bytes <= allocation)
            <==> (held + bytes <= MAX || Wrap(held + bytes) > allocation)
    ensures held <= MAX < held + bytes ==> Wrap(held + bytes) < 0
  {
    WrapAdd(held, bytes);
  }

  /** pump's memory comparison against the comparison of the true sums. While what is
      held fits int64, the two agree exactly when the true sum does. */
  lemma MemoryTestExact(s: State, bytes: int)
    requires Core(s) && 0 <= bytes <= MAX
    ensures var sum := Sum(s.entries, Memory) + bytes;
      && ((Wrap(s.used + bytes) <= s.allocation <==> sum <= s.allocation)
          <==> (sum <= MAX || Wrap(sum) > s.allocation))
      && (Sum(s.entries, Memory) <= MAX < sum ==> Wrap(s.used + bytes) <= s.allocation)
  {
    CountBounds(s.entries);
    WrappedTest(Sum(s.entries, Memory), s.used, bytes, s.allocation);
    WrapAdd(Sum(s.entries, Memory), bytes);
  }

  lemma DiskTestExact(s: State, bytes: int)
    requires Core(s) && 0 <= bytes <= MAX
    ensures var sum := Sum(s.entries, Disk) + bytes;
      && ((Wrap(s.diskUsed + bytes) <= s.diskAllocation <==> sum <= s.diskAllocation)
          <==> (sum <= MAX || Wrap(sum) > s.diskAllocation))
      && (Sum(s.entries, Disk) <= MAX < sum ==> Wrap(s.diskUsed + bytes) <= s.diskAllocation)
  {
    CountBounds(s.entries);
    WrappedTest(Sum(s.entries, Disk), s.diskUsed, bytes, s.diskAllocation);
    WrapAdd(Sum(s.entries, Disk), bytes);
  }

  // ----- the sums a run takes -----

  /** Each sum the test on the head takes, one for a dimension it asks some of, fits int64. */
  ghost predicate TestFits(s: State)
    requires WellFormed(s)
  {
    s.queue != [] ==>
      var e := s.entries[s.queue[0]];
      && (e.bytes > 0 ==> Sum(s.entries, Memory) + e.bytes <= MAX)
      && (e.disk > 0 ==> Sum(s.entries, Disk) + e.disk <= MAX)
  }

  /** Every sum pump takes from here fits int64. */
  ghost predicate PumpFits(s: State)
    requires WellFormed(s)
    decreases |s.queue|
  {
    TestFits(s) && (s.queue != [] && !Blocked(s, s.entries[s.queue[0]]) ==> PumpFits(Grant(s)))
  }

  /** The state a step pumps from, when it pumps. */
  ghost function PumpedFrom(y: System, e: Event): (o: Option<State>)
    requires Wf(y) && Enabled(y, e)
    ensures o.Some? ==> WellFormed(o.value)
  {
    match e
    case Queue(r) => Some(Enqueue(y.s, r))
    case Cancel(id) => if !y.s.entries[id].granted && id in y.s.queue then Some(Drop(y.s, id)) else None
    case GiveStraightBack(id) => if y.s.entries[id].released then None else Some(GiveBack(y.s, id))
    case Release(id) => if y.s.entries[id].released then None else Some(GiveBack(y.s, id))
    case Adjust(id, bytes) =>
      if 0 <= bytes < y.s.entries[id].bytes && !y.s.entries[id].released then Some(Resize(y.s, id, bytes)) else None
    case SetAllocation(bytes) => if bytes >= 0 then Some(y.s.(allocation := bytes)) else None
    case Wake(_) => None
    case Return(_) => None
  }

  lemma StepPumps(y: System, e: Event)
    requires SysInv(y) && Enabled(y, e) && PumpedFrom(y, e).Some?
    ensures Step(y, e).s == Pump(PumpedFrom(y, e).value) && Core(PumpedFrom(y, e).value)
  {
    match e
    case Queue(r) => EnqueueCore(y.s, r);
    case Cancel(id) => DropCore(y.s, id);
    case GiveStraightBack(id) => HeldByPhase(y, id); GiveBackCore(y.s, id);
    case Release(id) => HeldByPhase(y, id); GiveBackCore(y.s, id);
    case Adjust(id, bytes) => HeldByPhase(y, id); ResizeCore(y.s, id, bytes);
    case SetAllocation(bytes) =>
  }

  lemma HeldByPhase(y: System, id: nat)
    requires SysInv(y) && id < |y.phases| && y.phases[id] in {Holding, Aborting} && !y.s.entries[id].released
    ensures y.s.entries[id].Held() && y.s.entries[id].Sane()
  {
    assert PhaseOk(y.phases[id], y.s.entries[id]);
  }

  ghost predicate StepFits(y: System, e: Event)
    requires Wf(y) && Enabled(y, e)
  {
    PumpedFrom(y, e).Some? ==> PumpFits(PumpedFrom(y, e).value)
  }

  /** Every sum the tests of a run take fits int64. */
  ghost predicate AllFit(y: System, es: seq<Event>)
    requires Wf(y) && Legal(y, es)
    decreases |es|
  {
    es != [] ==> StepFits(y, es[0]) && AllFit(Step(y, es[0]), es[1..])
  }

  // ----- a head that fits is never left waiting -----

  ghost predicate SomeHeld(es: seq<Entry>) {
    exists i :: 0 <= i < |es| && es[i].Held()
  }

  ghost predicate ParseHeld(es: seq<Entry>) {
    exists i :: 0 <= i < |es| && es[i].Held() && es[i].parse
  }

  ghost predicate AloneHeld(es: seq<Entry>) {
    exists i :: 0 <= i < |es| && es[i].Held() && es[i].alone
  }

  lemma {:induction false} SumSpeaks(es: seq<Entry>, f: Entry -> int)
    requires forall i | 0 <= i < |es| :: f(es[i]) >= 0
    ensures Sum(es, f) > 0 <==> exists i :: 0 <= i < |es| && f(es[i]) > 0
  {
    if es != [] {
      var front := es[..|es| - 1];
      SumNonNegative(front, f);
      SumSpeaks(front, f);
      if i :| 0 <= i < |front| && f(front[i]) > 0 { assert f(es[i]) > 0; }
      if i :| 0 <= i < |es| && f(es[i]) > 0 {
        if i < |front| { assert f(front[i]) > 0; }
      }
    }
  }

  /** The counters speak for what is held. */
  lemma CountsSpeak(es: seq<Entry>)
    ensures Sum(es, One) > 0 <==> SomeHeld(es)
    ensures Sum(es, ParseOne) > 0 <==> ParseHeld(es)
    ensures Sum(es, AloneOne) > 0 <==> AloneHeld(es)
  {
    SumSpeaks(es, One);
    SumSpeaks(es, ParseOne);
    SumSpeaks(es, AloneOne);
  }

  /** Why the head may be kept waiting, in terms of what is held: something is; and the
      runs-alone rule keeps it apart, or the memory it asks for does not fit and it is
      not the one parse that may always go on, or the disk it asks for does not fit. */
  ghost predicate HeadMustWait(s: State)
    requires s.queue != [] && WellFormed(s)
  {
    var e := s.entries[s.queue[0]];
    && SomeHeld(s.entries)
    && (|| (e.parse && AloneHeld(s.entries))
        || (e.alone && ParseHeld(s.entries))
        || (e.bytes > 0 && Sum(s.entries, Memory) + e.bytes > s.allocation && !(e.parse && !ParseHeld(s.entries)))
        || (e.disk > 0 && Sum(s.entries, Disk) + e.disk > s.diskAllocation))
  }

  lemma BlockedMeansMustWait(s: State)
    requires Core(s) && s.queue != [] && TestFits(s)
    ensures Blocked(s, s.entries[s.queue[0]]) <==> HeadMustWait(s)
  {
    var e := s.entries[s.queue[0]];
    assert e.Queued() && e.Sane() by { assert s.queue[0] in s.queue; }
    CountsSpeak(s.entries);
    CountBounds(s.entries);
    assert e.bytes > 0 ==>
      (Wrap(s.used + e.bytes) <= s.allocation <==> Sum(s.entries, Memory) + e.bytes <= s.allocation) by {
      MemoryTestExact(s, e.bytes);
    }
    assert e.disk > 0 ==>
      (Wrap(s.diskUsed + e.disk) <= s.diskAllocation <==> Sum(s.entries, Disk) + e.disk <= s.diskAllocation) by {
      DiskTestExact(s, e.disk);
    }
  }

  /** By what is held, nobody waits who need not. */
  ghost predicate NoneIdle(s: State) {
    s.queue != [] ==> WellFormed(s) && HeadMustWait(s)
  }

  /** A wake-up changes nothing the rule looks at. */
  lemma WakeIdle(s: State, id: nat, e: Entry, t: State)
    requires WellFormed(s) && s.queue != [] && id < |s.entries| && t == s.(entries := s.entries[id := e])
    requires e == s.entries[id].(stuck := e.stuck, woken := e.woken)
    ensures WellFormed(t) && (HeadMustWait(t) <==> HeadMustWait(s))
  {
    Recount(s.entries, id, e);
    CountsSpeak(s.entries);
    CountsSpeak(t.entries);
  }

  lemma {:induction false} PumpIdle(s: State)
    requires Core(s) && PumpFits(s)
    ensures NoneIdle(Pump(s))
    decreases |s.queue|
  {
    if s.queue != [] {
      var id := s.queue[0];
      if Blocked(s, s.entries[id]) {
        BlockedMeansMustWait(s);
        WakeIdle(s, id, s.entries[id].(stuck := true, woken := true), WakeHead(s));
      } else {
        GrantCore(s);
        PumpIdle(Grant(s));
      }
    }
  }

  /** Raising a holding by hand cannot make room for the head. */
  lemma RaiseIdle(s: State, id: nat, bytes: int)
    requires Core(s) && NoneIdle(s) && id < |s.entries| && s.entries[id].Held() && s.entries[id].bytes <= bytes
    ensures NoneIdle(Resize(s, id, bytes))
  {
    var t := Resize(s, id, bytes);
    Recount(s.entries, id, s.entries[id].(bytes := bytes));
    CountsSpeak(s.entries);
    CountsSpeak(t.entries);
    if s.queue != [] {
      assert s.entries[s.queue[0]].Queued() by { assert s.queue[0] in s.queue; }
      assert t.entries[t.queue[0]] == s.entries[s.queue[0]];
    }
  }

  lemma StepIdle(y: System, e: Event)
    requires SysInv(y) && Enabled(y, e) && StepFits(y, e) && NoneIdle(y.s)
    ensures NoneIdle(Step(y, e).s)
  {
    if PumpedFrom(y, e).Some? {
      StepPumps(y, e);
      PumpIdle(PumpedFrom(y, e).value);
    } else if e.Wake? {
      if y.s.queue != [] { WakeIdle(y.s, e.id, y.s.entries[e.id].(stuck := false), TakeWake(y.s, e.id)); }
    } else if e.Adjust? && e.bytes >= 0 && !y.s.entries[e.id].released {
      HeldByPhase(y, e.id);
      RaiseIdle(y.s, e.id, e.bytes);
    } else {
      assert Step(y, e).s == y.s;
    }
  }

  /** Quiescence: at every lock release of every run whose tests take sums that fit
      int64, the head of a non-empty queue must wait by what is held, and the test would
      hold it back wherever its own sums fit. */
  lemma {:induction false} NoIdleRoom(y: System, es: seq<Event>)
    requires SysInv(y) && NoneIdle(y.s) && Legal(y, es) && AllFit(y, es)
    ensures var s := Exec(y, es).s; NoneIdle(s) && (TestFits(s) ==> Settled(s))
    decreases |es|
  {
    if es != [] {
      StepInv(y, es[0]);
      StepIdle(y, es[0]);
      NoIdleRoom(Step(y, es[0]), es[1..]);
    } else if y.s.queue != [] && TestFits(y.s) {
      BlockedMeansMustWait(y.s);
    }
  }

  /** In every run whose tests take sums that fit int64 a head waits only when it must:
      a dimension it asks nothing of never holds it back, an idle ledger admits anything,
      and a parse that asks for no disk waits only for another parse. */
  lemma WaitsOnlyWhenItMust(allocation: int, diskAllocation: int, es: seq<Event>)
    requires 0 <= allocation <= MAX && 0 <= diskAllocation <= MAX
    requires Legal(Start(allocation, diskAllocation), es) && AllFit(Start(allocation, diskAllocation), es)
    ensures var s := Exec(Start(allocation, diskAllocation), es).s;
      s.queue != [] ==>
        && WellFormed(s) && HeadMustWait(s) && s.entries[s.queue[0]].woken
        && (s.entries[s.queue[0]].parse && s.entries[s.queue[0]].disk == 0 ==> ParseHeld(s.entries))
  {
    var start := Start(allocation, diskAllocation);
    InitInv(allocation, diskAllocation);
    RunInv(start, es);
    NoIdleRoom(start, es);
    var s := Exec(start, es).s;
    if s.queue != [] {
      if AloneHeld(s.entries) { AloneIsParse(s.entries); }
      assert s.entries[s.queue[0]].Sane() by { assert s.queue[0] < |s.entries|; }
    }
  }

  lemma AloneIsParse(es: seq<Entry>)
    requires AllSane(es) && AloneHeld(es)
    ensures ParseHeld(es)
  {
    var i :| 0 <= i < |es| && es[i].Held() && es[i].alone;
    assert es[i].Sane();
  }

  // ----- how far over an allocation -----

  function DiskOne(e: Entry): int { if e.Held() && e.disk > 0 then 1 else 0 }
  function OtherMemory(e: Entry): int { if e.Held() && !e.parse then e.bytes else 0 }
  function OtherOne(e: Entry): int { if e.Held() && !e.parse && e.bytes > 0 then 1 else 0 }
  function ParseMemoryOne(e: Entry): int { if e.Held() && e.parse && e.bytes > 0 then 1 else 0 }

  /** Held disk is within the allocation, or exactly one held reservation has any. */
  ghost predicate DiskBound(s: State) {
    Sum(s.entries, Disk) <= s.diskAllocation || Sum(s.entries, DiskOne) == 1
  }

  /** Held memory outside parses is within the allocation, or exactly one such
      holding has any; and memory stands above the allocation only with at most
      one parse holding some of it. */
  ghost predicate MemoryBound(s: State) {
    && (Sum(s.entries, OtherMemory) <= s.allocation || Sum(s.entries, OtherOne) == 1)
    && (Sum(s.entries, Memory) <= s.allocation || Sum(s.entries, ParseMemoryOne) <= 1)
  }

  lemma {:induction false} Details(es: seq<Entry>)
    requires AllSane(es)
    ensures 0 <= Sum(es, OtherMemory) <= Sum(es, Memory)
    ensures 0 <= Sum(es, ParseMemoryOne) <= Sum(es, ParseOne)
    ensures 0 <= Sum(es, OtherOne) && 0 <= Sum(es, DiskOne)
    ensures Sum(es, OtherOne) == 0 ==> Sum(es, OtherMemory) == 0
    ensures Sum(es, DiskOne) == 0 ==> Sum(es, Disk) == 0
    ensures Sum(es, One) == 0 ==> Sum(es, OtherOne) == 0 && Sum(es, DiskOne) == 0
    ensures 0 <= Sum(es, One)
  {
    if es != [] {
      Details(es[..|es| - 1]);
      assert es[|es| - 1].Sane();
    }
  }

  lemma Redetail(es: seq<Entry>, id: nat, e: Entry)
    requires id < |es|
    ensures Sum(es[id := e], DiskOne) == Sum(es, DiskOne) - DiskOne(es[id]) + DiskOne(e)
    ensures Sum(es[id := e], OtherMemory) == Sum(es, OtherMemory) - OtherMemory(es[id]) + OtherMemory(e)
    ensures Sum(es[id := e], OtherOne) == Sum(es, OtherOne) - OtherOne(es[id]) + OtherOne(e)
    ensures Sum(es[id := e], ParseMemoryOne) == Sum(es, ParseMemoryOne) - ParseMemoryOne(es[id]) + ParseMemoryOne(e)
  {
    SumUpdate(es, id, e, DiskOne);
    SumUpdate(es, id, e, OtherMemory);
    SumUpdate(es, id, e, OtherOne);
    SumUpdate(es, id, e, ParseMemoryOne);
  }

  /** A grant adds the head to what is held. */
  lemma GrantSums(s: State)
    requires Core(s) && s.queue != []
    ensures var e := s.entries[s.queue[0]]; var t := Grant(s);
      && e.Queued() && e.Sane()
      && Sum(t.entries, Memory) == Sum(s.entries, Memory) + e.bytes
      && Sum(t.entries, Disk) == Sum(s.entries, Disk) + e.disk
      && Sum(t.entries, DiskOne) == Sum(s.entries, DiskOne) + (if e.disk > 0 then 1 else 0)
      && Sum(t.entries, OtherMemory) == Sum(s.entries, OtherMemory) + (if e.parse then 0 else e.bytes)
      && Sum(t.entries, OtherOne) == Sum(s.entries, OtherOne) + (if !e.parse && e.bytes > 0 then 1 else 0)
      && Sum(t.entries, ParseMemoryOne) == Sum(s.entries, ParseMemoryOne) + (if e.parse && e.bytes > 0 then 1 else 0)
  {
    var id := s.queue[0];
    var e := s.entries[id];
    assert e.Queued() && e.Sane() by { assert id in s.queue; }
    Recount(s.entries, id, e.(granted := true));
    Redetail(s.entries, id, e.(granted := true));
  }

  /** What an admissible head may be granted beside, in true sums. */
  lemma GrantMeans(s: State)
    requires Core(s) && TestFits(s) && s.queue != [] && !Blocked(s, s.entries[s.queue[0]])
    ensures var e := s.entries[s.queue[0]];
      || Sum(s.entries, One) == 0
      || (&& (e.bytes == 0 || Sum(s.entries, Memory) + e.bytes <= s.allocation
              || (e.parse && Sum(s.entries, ParseOne) == 0))
          && (e.disk == 0 || Sum(s.entries, Disk) + e.disk <= s.diskAllocation))
  {
    var e := s.entries[s.queue[0]];
    assert e.Sane() by { assert s.queue[0] < |s.entries|; }
    CountBounds(s.entries);
    if e.bytes > 0 { MemoryTestExact(s, e.bytes); }
    if e.disk > 0 { DiskTestExact(s, e.disk); }
  }

  lemma GrantBound(s: State)
    requires Core(s) && TestFits(s) && s.queue != [] && !Blocked(s, s.entries[s.queue[0]])
    ensures DiskBound(s) ==> DiskBound(Grant(s))
    ensures MemoryBound(s) ==> MemoryBound(Grant(s))
  {
    GrantSums(s);
    GrantMeans(s);
    Details(s.entries);
    CountBounds(s.entries);
    assert AllSane(Grant(s).entries) by { GrantCore(s); }
    Details(Grant(s).entries);
  }

  lemma {:induction false} PumpBound(s: State)
    requires Core(s) && PumpFits(s)
    ensures DiskBound(s) ==> DiskBound(Pump(s))
    ensures MemoryBound(s) ==> MemoryBound(Pump(s))
    decreases |s.queue|
  {
    if s.queue != [] {
      var id := s.queue[0];
      if Blocked(s, s.entries[id]) {
        var e := s.entries[id].(stuck := true, woken := true);
        Recount(s.entries, id, e);
        Redetail(s.entries, id, e);
      } else {
        GrantBound(s);
        GrantCore(s);
        PumpBound(Grant(s));
      }
    }
  }

  /** Changing one reservation to a smaller one, or to one that is over. */
  lemma ShrinkBound(s: State, id: nat, e: Entry, t: State)
    requires AllSane(s.entries) && id < |s.entries| && t.entries == s.entries[id := e]
    requires 0 <= s.allocation && 0 <= s.diskAllocation
    requires t.allocation == s.allocation && t.diskAllocation == s.diskAllocation
    requires AllSane(t.entries)
    requires e == s.entries[id].(bytes := e.bytes, released := e.released, canceled := e.canceled, stuck := e.stuck)
    requires e.bytes <= s.entries[id].bytes && (s.entries[id].released ==> e.released)
    requires s.entries[id].canceled ==> e.canceled
    ensures DiskBound(s) ==> DiskBound(t)
    ensures MemoryBound(s) ==> MemoryBound(t)
  {
    assert s.entries[id].Sane() && e.Sane() by { assert t.entries[id] == e; }
    Recount(s.entries, id, e);
    Redetail(s.entries, id, e);
    Details(t.entries);
  }

  lemma EnqueueBound(s: State, r: Reservation)
    ensures DiskBound(s) ==> DiskBound(Enqueue(s, r))
    ensures MemoryBound(s) ==> MemoryBound(Enqueue(s, r))
  {
    var e := LedgerModel.Queue(r);
    assert Enqueue(s, r).entries == s.entries + [e] && !e.Held();
    SumAppend(s.entries, e, Memory);
    SumAppend(s.entries, e, Disk);
    SumAppend(s.entries, e, DiskOne);
    SumAppend(s.entries, e, OtherMemory);
    SumAppend(s.entries, e, OtherOne);
    SumAppend(s.entries, e, ParseMemoryOne);
  }

  /** The two bounds through one step. Only memory needs the run to lower its
      holdings and raise its allocation: a holding adjusted upward, and a lowered
      allocation, leave what is held above by design. */
  ghost predicate Lowering(y: System, e: Event) {
    match e
    case Adjust(id, bytes) => id < |y.s.entries| && bytes <= y.s.entries[id].bytes
    case SetAllocation(bytes) => bytes < 0 || bytes >= y.s.allocation
    case _ => true
  }

  /** What a step does before it pumps. */
  lemma BeforePump(y: System, e: Event)
    requires SysInv(y) && Enabled(y, e) && PumpedFrom(y, e).Some?
    ensures DiskBound(y.s) ==> DiskBound(PumpedFrom(y, e).value)
    ensures Lowering(y, e) && MemoryBound(y.s) ==> MemoryBound(PumpedFrom(y, e).value)
  {
    StepPumps(y, e);
    var t := PumpedFrom(y, e).value;
    match e
    case Queue(r) => EnqueueBound(y.s, r);
    case Cancel(id) => ShrinkBound(y.s, id, y.s.entries[id].(canceled := true), t);
    case GiveStraightBack(id) => ShrinkBound(y.s, id, y.s.entries[id].(released := true), t);
    case Release(id) => ShrinkBound(y.s, id, y.s.entries[id].(released := true), t);
    case Adjust(id, bytes) => ShrinkBound(y.s, id, y.s.entries[id].(bytes := bytes), t);
    case SetAllocation(bytes) =>
  }

  lemma StepBound(y: System, e: Event)
    requires SysInv(y) && Enabled(y, e) && StepFits(y, e)
    ensures DiskBound(y.s) ==> DiskBound(Step(y, e).s)
    ensures Lowering(y, e) && MemoryBound(y.s) ==> MemoryBound(Step(y, e).s)
  {
    if PumpedFrom(y, e).Some? {
      StepPumps(y, e);
      BeforePump(y, e);
      PumpBound(PumpedFrom(y, e).value);
    } else if e.Wake? {
      TakeWakeInv(y.s, e.id);
      ShrinkBound(y.s, e.id, y.s.entries[e.id].(stuck := false), TakeWake(y.s, e.id));
    } else if e.Adjust? && e.bytes >= 0 && !y.s.entries[e.id].released {
      var a := y.s.entries[e.id];
      if e.bytes == a.bytes {
        assert y.s.entries[e.id := a] == y.s.entries;
      } else {
        Recount(y.s.entries, e.id, a.(bytes := e.bytes));
        Redetail(y.s.entries, e.id, a.(bytes := e.bytes));
      }
    } else {
      assert Step(y, e).s == y.s;
    }
  }

  ghost predicate AllLowering(y: System, es: seq<Event>)
    requires Wf(y) && Legal(y, es)
    decreases |es|
  {
    es != [] ==> Lowering(y, es[0]) && AllLowering(Step(y, es[0]), es[1..])
  }

  lemma {:induction false} RunBound(y: System, es: seq<Event>)
    requires SysInv(y) && Legal(y, es) && AllFit(y, es)
    ensures DiskBound(y.s) ==> DiskBound(Exec(y, es).s)
    ensures AllLowering(y, es) && MemoryBound(y.s) ==> MemoryBound(Exec(y, es).s)
    decreases |es|
  {
    if es != [] {
      StepInv(y, es[0]);
      StepBound(y, es[0]);
      RunBound(Step(y, es[0]), es[1..]);
    }
  }

  /** From an empty ledger: disk is bounded in every run whose tests take sums that fit
      int64, memory in those that also only lower holdings and raise the allocation. */
  lemma OverCommitBound(allocation: int, diskAllocation: int, es: seq<Event>)
    requires 0 <= allocation <= MAX && 0 <= diskAllocation <= MAX
    requires Legal(Start(allocation, diskAllocation), es) && AllFit(Start(allocation, diskAllocation), es)
    ensures DiskBound(Exec(Start(allocation, diskAllocation), es).s)
    ensures AllLowering(Start(allocation, diskAllocation), es) ==>
              MemoryBound(Exec(Start(allocation, diskAllocation), es).s)
  {
    InitInv(allocation, diskAllocation);
    RunBound(Start(allocation, diskAllocation), es);
  }

  // ----- what a sum that does not fit int64 does -----

  const SMALL: nat := 5
  const LIMIT: nat := 10

  function Asks(memory: int, parse: bool): Reservation {
    Reservation(memory, 0, parse, false)
  }

  function Admitted(r: Reservation): Entry {
    LedgerModel.Queue(r).(granted := true)
  }

  /** One reservation of five bytes, held. */
  function OneHeld(parse: bool): State {
    State(LIMIT, 0, 1, if parse then 1 else 0, 0, SMALL, 0, [Admitted(Asks(SMALL, parse))], [])
  }

  lemma SmallStep(parse: bool)
    ensures Arrive(Init(LIMIT, 0), Asks(SMALL, parse)) == OneHeld(parse)
  {
    var q := Enqueue(Init(LIMIT, 0), Asks(SMALL, parse));
    assert q.entries == [LedgerModel.Queue(Asks(SMALL, parse))] && q.queue == [0];
    assert Grant(q).entries == [Admitted(Asks(SMALL, parse))] && Grant(q).queue == [];
  }

  lemma BigStep(s: State, parse: bool)
    requires s == OneHeld(parse)
    ensures Arrive(s, Asks(MAX, parse)).entries == [Admitted(Asks(SMALL, parse)), Admitted(Asks(MAX, parse))]
    ensures Arrive(s, Asks(MAX, parse)).allocation == LIMIT
  {
    var small, big := Asks(SMALL, parse), Asks(MAX, parse);
    var q := Enqueue(s, big);
    assert q.entries == [Admitted(small), LedgerModel.Queue(big)] && q.queue == [1];
    assert q.entries[q.queue[0]].bytes == MAX && Wrap(q.used + MAX) < 0;
    assert MemoryFits(q, q.entries[q.queue[0]]) && DiskFits(q, q.entries[q.queue[0]]);
    assert Grant(q).entries == [Admitted(small), Admitted(big)] && Grant(q).queue == [];
    assert Pump(q) == Pump(Grant(q)) == Grant(q);
  }

  lemma BothHeld(parse: bool)
    ensures var both := [Admitted(Asks(SMALL, parse)), Admitted(Asks(MAX, parse))];
      && Sum(both, Memory) == SMALL + MAX
      && Sum(both, OtherOne) == (if parse then 0 else 2) && Sum(both, OtherMemory) == (if parse then 0 else SMALL + MAX)
      && Sum(both, ParseMemoryOne) == if parse then 2 else 0
  {
    var both := [Admitted(Asks(SMALL, parse)), Admitted(Asks(MAX, parse))];
    assert both == [] + [both[0]] + [both[1]];
    SumTwo(both[0], both[1], Memory);
    SumTwo(both[0], both[1], OtherOne);
    SumTwo(both[0], both[1], OtherMemory);
    SumTwo(both[0], both[1], ParseMemoryOne);
  }

  lemma SumTwo(a: Entry, b: Entry, f: Entry -> int)
    ensures Sum([a, b], f) == f(a) + f(b)
  {
    SumAppend([], a, f);
    SumAppend([a], b, f);
    assert [] + [a] == [a] && [a] + [b] == [a, b];
  }

  /** An allocation of ten bytes, a child of five and a second of the largest int64, both
      parses or neither: the sum wraps negative, so both are held at once and the bound
      does not stand. */
  lemma WrappedSumAdmits(parse: bool)
    ensures var es := [Event.Queue(Asks(SMALL, parse)), Event.Queue(Asks(MAX, parse))];
      && Legal(Start(LIMIT, 0), es) && AllLowering(Start(LIMIT, 0), es)
      && var s := Exec(Start(LIMIT, 0), es).s;
      && !MemoryBound(s) && s.queue == [] && Sum(s.entries, Memory) == SMALL + MAX && s.allocation == LIMIT
      && (parse ==> Sum(s.entries, ParseMemoryOne) == 2)
  {
    var y := Start(LIMIT, 0);
    var es := [Event.Queue(Asks(SMALL, parse)), Event.Queue(Asks(MAX, parse))];
    SmallStep(parse);
    var y1 := Step(y, es[0]);
    assert es[1..] == [es[1]];
    BigStep(y1.s, parse);
    var y2 := Step(y1, es[1]);
    assert es[1..][1..] == [];
    assert Exec(y1, es[1..]) == y2;
    BothHeld(parse);
  }

  /** One held and one waiting behind it. */
  lemma WaitStep(s: State)
    requires s == OneHeld(false)
    ensures var t := Arrive(s, Asks(LIMIT, false));
      && t == s.(entries := [s.entries[0], t.entries[1]], queue := [1])
      && t.entries[1] == LedgerModel.Queue(Asks(LIMIT, false)).(stuck := true, woken := true)
  {
    var q := Enqueue(s, Asks(LIMIT, false));
    assert q.entries == [s.entries[0], LedgerModel.Queue(Asks(LIMIT, false))] && q.queue == [1];
    assert Blocked(q, q.entries[q.queue[0]]);
    assert Pump(q) == WakeHead(q);
  }

  /** Raising a holding so far that its sum with the head wraps leaves a head the test
      would no longer hold back. */
  lemma RaiseUnsettles()
    ensures var es := [Event.Queue(Asks(SMALL, false)), Event.Queue(Asks(LIMIT, false)), Return(0), Adjust(0, MAX)];
      && Legal(Start(LIMIT, 0), es)
      && var s := Exec(Start(LIMIT, 0), es).s;
      WellFormed(s) && s.queue != [] && !Settled(s)
  {
    var es := [Event.Queue(Asks(SMALL, false)), Event.Queue(Asks(LIMIT, false)), Return(0), Adjust(0, MAX)];
    var y0 := Start(LIMIT, 0);
    SmallStep(false);
    var y1 := Step(y0, es[0]);
    WaitStep(y1.s);
    var y2 := Step(y1, es[1]);
    var y3 := Step(y2, es[2]);
    var y4 := Step(y3, es[3]);
    assert y4.s == Resize(y3.s, 0, MAX) && y4.s.used == MAX && y4.s.queue == [1];
    assert !Blocked(y4.s, y4.s.entries[1]);
    FourSteps(y0, es, y1, y2, y3, y4);
  }

  lemma FourSteps(y0: System, es: seq<Event>, y1: System, y2: System, y3: System, y4: System)
    requires |es| == 4 && Wf(y0) && Enabled(y0, es[0]) && y1 == Step(y0, es[0])
    requires Enabled(y1, es[1]) && y2 == Step(y1, es[1]) && Enabled(y2, es[2]) && y3 == Step(y2, es[2])
    requires Enabled(y3, es[3]) && y4 == Step(y3, es[3])
    ensures Legal(y0, es) && Exec(y0, es) == y4
  {
    var a, b, c := es[1..], es[1..][1..], es[1..][1..][1..];
    assert a[0] == es[1] && b[0] == es[2] && c[0] == es[3] && c[1..] == [];
    assert Legal(y3, c) && Exec(y3, c) == y4;
    assert Legal(y2, b) && Exec(y2, b) == y4;
    assert Legal(y1, a) && Exec(y1, a) == y4;
  }
}
