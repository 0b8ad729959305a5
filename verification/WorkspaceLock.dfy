/** The counted hold on one process's workspace lock: the first holder acquires it and
    the last one to give it back closes it, and the run ledger's collector is attached
    for exactly as long. Every step here runs under one mutex. */
module WorkspaceLock {
  datatype Action = Acquire | Attach | Recover | Collect | Detach | Unlock

  /** held: the holds granted and not given back; composition: whether the composition
      that locked at its open still counts as one holder; closed: whether Close has
      given the lock up. */
  datatype State = State(
    builds: bool,
    open: bool,
    holders: int,
    attached: bool,
    stopped: bool,
    closed: bool,
    composition: bool,
    granted: nat,
    held: set<nat>,
    trace: seq<Action>)

  /** How the calls a hold makes turn out. */
  datatype Outcome = Outcome(acquire: bool, attach: bool, recover: bool)

  datatype Event =
    | Hold(o: Outcome)
    | Release(id: nat)
    | StopLedger
    | CloseLock

  /** A stopped ledger, or one with a collector, refuses another. */
  predicate Attaches(s: State, o: Outcome) {
    o.attach && !s.stopped && !s.attached
  }

  /** What taking the lock and recovering under it does to the lock, the ledger's
      collector and the trace. */
  function Taken(s: State, o: Outcome): State {
    if !o.acquire then s
    else if !Attaches(s, o) then s.(trace := s.trace + [Acquire, Unlock])
    else if !o.recover then s.(trace := s.trace + [Acquire, Attach, Detach, Unlock])
    else s.(open := true, attached := true, trace := s.trace + [Acquire, Attach, Recover])
  }

  /** The collection pass that follows a recovery. */
  function Collected(s: State): State {
    s.(trace := s.trace + [Collect])
  }

  /** A hold takes, recovers and collects with nothing in between that can fail. */
  function Acquired(s: State, o: Outcome): State {
    var taken := Taken(s, o);
    if taken.open then Collected(taken) else taken
  }

  function Granted(s: State): State {
    s.(holders := s.holders + 1, granted := s.granted + 1, held := s.held + {s.granted})
  }

  function AfterHold(s: State, o: Outcome): State {
    if !s.builds then s
    else
      var taken := if s.open then s else Acquired(s, o);
      if taken.open then Granted(taken) else taken
  }

  function Detached(s: State): State {
    if s.attached then s.(attached := false, trace := s.trace + [Detach]) else s
  }

  function Unlocked(s: State): State {
    if s.open then s.(open := false, trace := s.trace + [Unlock]) else s
  }

  /** One decrement for each hold, however often its release is called. */
  function AfterRelease(s: State, id: nat): State {
    if id !in s.held then s
    else
      var fewer := s.(holders := s.holders - 1, held := s.held - {id});
      if fewer.holders > 0 || !s.open then fewer else Unlocked(Detached(fewer))
  }

  predicate Enabled(s: State, e: Event) {
    match e
    case Release(id) => id < s.granted
    case CloseLock => s.stopped
    case _ => true
  }

  function Step(s: State, e: Event): State {
    match e
    case Hold(o) => AfterHold(s, o)
    case Release(id) => AfterRelease(s, id)
    case StopLedger => Detached(s).(stopped := true)
    case CloseLock => Unlocked(s).(holders := 0, closed := true, composition := false)
  }

  const NEW: State := State(true, false, 0, false, false, false, false, 0, {}, [])

  /** A composition that locks at its open. It recovers, then opens all the rest, which
      may fail, and collects last; a failed open closes what it took. */
  function OpenedLocked(o: Outcome, rest: bool): State {
    var taken := Taken(NEW, o);
    if taken.open && rest then Collected(taken).(holders := 1, composition := true)
    else Unlocked(Detached(taken).(stopped := true)).(closed := true)
  }

  /** A composition that locks at its first build, or never. */
  function OpenedUnlocked(builds: bool): State {
    NEW.(builds := builds)
  }

  ghost predicate IsStart(s: State) {
    (exists o, rest :: s == OpenedLocked(o, rest)) || (exists builds :: s == OpenedUnlocked(builds))
  }

  // ----- the shape of a trace -----

  datatype Phase = Free | Locked | Writing | Recovered | Held | Ended | Bad

  /** With collecting, a recovery is always followed by the collection pass. */
  function Next(p: Phase, a: Action, collecting: bool): Phase {
    match (p, a)
    case (Free, Acquire) => Locked
    case (Locked, Attach) => Writing
    case (Locked, Unlock) => Free
    case (Writing, Recover) => Recovered
    case (Writing, Detach) => Ended
    case (Recovered, Collect) => Held
    case (Recovered, Detach) => if collecting then Bad else Ended
    case (Held, Detach) => Ended
    case (Ended, Unlock) => Free
    case _ => Bad
  }

  function Reached(p: Phase, trace: seq<Action>, collecting: bool): Phase
    decreases |trace|
  {
    if trace == [] then p else Reached(Next(p, trace[0], collecting), trace[1..], collecting)
  }

  lemma {:induction false} ReachedThrough(p: Phase, a: seq<Action>, b: seq<Action>, collecting: bool)
    ensures Reached(p, a + b, collecting) == Reached(Reached(p, a, collecting), b, collecting)
    decreases |a|
  {
    if a == [] {
      assert a + b == b;
    } else {
      assert (a + b)[1..] == a[1..] + b;
      ReachedThrough(Next(p, a[0], collecting), a[1..], b, collecting);
    }
  }

  /** The three ways an acquisition can go, and the fourth: an open that failed between
      recovering and collecting. */
  ghost predicate IsInterval(t: seq<Action>, collecting: bool) {
    || t == [Acquire, Attach, Recover, Collect, Detach, Unlock]
    || t == [Acquire, Attach, Detach, Unlock]
    || t == [Acquire, Unlock]
    || (!collecting && t == [Acquire, Attach, Recover, Detach, Unlock])
  }

  ghost predicate Intervals(trace: seq<Action>, collecting: bool)
    decreases |trace|
  {
    trace == []
    || exists n | 0 < n <= |trace| :: IsInterval(trace[..n], collecting) && Intervals(trace[n..], collecting)
  }

  lemma {:induction false} BadStays(trace: seq<Action>, collecting: bool)
    ensures Reached(Bad, trace, collecting) == Bad
    decreases |trace|
  {
    if trace != [] { BadStays(trace[1..], collecting); }
  }

  lemma Onward(p: Phase, trace: seq<Action>, i: nat, collecting: bool)
    requires i <= |trace| && Reached(p, trace[i..], collecting) == Free && p != Free
    ensures i < |trace| && Next(p, trace[i], collecting) != Bad
    ensures Reached(Next(p, trace[i], collecting), trace[i + 1..], collecting) == Free
  {
    if i < |trace| {
      assert trace[i..][1..] == trace[i + 1..];
      BadStays(trace[i + 1..], collecting);
    }
  }

  /** A trace that ends with the lock free is a whole number of intervals. */
  lemma {:induction false} FromFree(trace: seq<Action>, collecting: bool)
    requires Reached(Free, trace, collecting) == Free
    ensures Intervals(trace, collecting)
    decreases |trace|
  {
    if trace != [] {
      BadStays(trace[1..], collecting);
      Onward(Locked, trace, 1, collecting);
      var n := 2;
      if trace[1] == Attach {
        Onward(Writing, trace, 2, collecting);
        n := 3;
        if trace[2] == Recover {
          Onward(Recovered, trace, 3, collecting);
          n := 4;
          if trace[3] == Collect {
            Onward(Held, trace, 4, collecting);
            n := 5;
          }
        }
        Onward(Ended, trace, n, collecting);
        n := n + 1;
      }
      assert IsInterval(trace[..n], collecting);
      FromFree(trace[n..], collecting);
    }
  }

  // ----- the invariant -----

  /** The lock is open exactly while someone holds it, the collector is attached exactly
      as long until the ledger is stopped, and the trace so far is a whole number of
      intervals and the open one's beginning. */
  ghost predicate Inv(s: State, collecting: bool) {
    && (forall id | id in s.held :: id < s.granted)
    && (s.attached ==> s.open && !s.stopped)
    && (s.open && !s.stopped ==> s.attached)
    && (!s.closed ==> s.holders == |s.held| + (if s.composition then 1 else 0))
    && (!s.closed ==> (s.open <==> s.holders > 0))
    && (s.closed ==> !s.open && s.stopped)
    && (!s.builds ==> !s.open && s.held == {})
    && Reached(Free, s.trace, collecting) == (if s.attached then Held else if s.open then Ended else Free)
  }

  /** The open failed after its recovery, before it collected. */
  predicate FailedUncollected(start: State) {
    start.closed && Recover in start.trace
  }

  lemma OpenedInv(o: Outcome, rest: bool, collecting: bool)
    requires collecting ==> !(o.acquire && o.attach && o.recover && !rest)
    ensures Inv(OpenedLocked(o, rest), collecting)
  {
    ShortTraces(collecting);
    var taken := Taken(NEW, o);
    assert forall t: seq<Action> {:trigger [] + t} :: [] + t == t;
    if taken.open {
      assert taken.trace == [Acquire, Attach, Recover];
    }
  }

  lemma StartInv(start: State, collecting: bool)
    requires IsStart(start) && (collecting ==> !FailedUncollected(start))
    ensures Inv(start, collecting)
  {
    if o, rest :| start == OpenedLocked(o, rest) {
      UncollectedOpen(o, rest);
      OpenedInv(o, rest, collecting);
    }
  }

  /** The fourth form is the trace of exactly the opens that recover and then fail. */
  lemma UncollectedOpen(o: Outcome, rest: bool)
    ensures FailedUncollected(OpenedLocked(o, rest)) <==> o.acquire && o.attach && o.recover && !rest
    ensures FailedUncollected(OpenedLocked(o, rest)) <==>
      OpenedLocked(o, rest).trace == [Acquire, Attach, Recover, Detach, Unlock]
  {
  }

  /** The few traces an open or a hold can add. */
  lemma ShortTraces(collecting: bool)
    ensures Reached(Free, [Acquire, Unlock], collecting) == Free
    ensures Reached(Free, [Acquire, Attach, Detach, Unlock], collecting) == Free
    ensures Reached(Free, [Acquire, Attach, Recover] + [Collect], collecting) == Held
    ensures !collecting ==> Reached(Free, [Acquire, Attach, Recover] + [Detach] + [Unlock], collecting) == Free
  {
    var a := [Acquire, Attach, Detach, Unlock];
    assert a[1..] == [Attach, Detach, Unlock] && a[1..][1..] == [Detach, Unlock] && a[1..][1..][1..] == [Unlock];
    var b := [Acquire, Attach, Recover];
    assert b[1..] == [Attach, Recover] && b[1..][1..] == [Recover];
    ReachedThrough(Free, b, [Collect], collecting);
    ReachedThrough(Free, b, [Detach], collecting);
    ReachedThrough(Free, b + [Detach], [Unlock], collecting);
  }

  lemma AcquiredTrace(s: State, o: Outcome, collecting: bool)
    requires Reached(Free, s.trace, collecting) == Free && !s.open && !s.attached
    ensures Reached(Free, Acquired(s, o).trace, collecting) == if Acquired(s, o).open then Held else Free
  {
    ShortTraces(collecting);
    ReachedThrough(Free, s.trace, [Acquire, Unlock], collecting);
    ReachedThrough(Free, s.trace, [Acquire, Attach, Detach, Unlock], collecting);
    ReachedThrough(Free, s.trace, [Acquire, Attach, Recover] + [Collect], collecting);
    assert s.trace + [Acquire, Attach, Recover] + [Collect] == s.trace + ([Acquire, Attach, Recover] + [Collect]);
  }

  /** Detaching and unlocking ends the interval. */
  lemma GivenUpTrace(s: State, collecting: bool)
    requires Reached(Free, s.trace, collecting) == if s.attached then Held else if s.open then Ended else Free
    ensures Reached(Free, Detached(s).trace, collecting) == if s.open || s.attached then Ended else Free
    ensures s.open ==> Reached(Free, Unlocked(Detached(s)).trace, collecting) == Free
  {
    ReachedThrough(Free, s.trace, [Detach], collecting);
    ReachedThrough(Free, Detached(s).trace, [Unlock], collecting);
  }

  lemma HoldInv(s: State, o: Outcome, collecting: bool)
    requires Inv(s, collecting)
    ensures Inv(AfterHold(s, o), collecting)
  {
    if s.builds && !s.open { AcquiredTrace(s, o, collecting); }
  }

  lemma ReleaseInv(s: State, id: nat, collecting: bool)
    requires Inv(s, collecting)
    ensures Inv(AfterRelease(s, id), collecting)
  {
    if id in s.held {
      assert |s.held - {id}| == |s.held| - 1;
      GivenUpTrace(s, collecting);
    }
  }

  lemma StepInv(s: State, e: Event, collecting: bool)
    requires Inv(s, collecting) && Enabled(s, e)
    ensures Inv(Step(s, e), collecting)
  {
    match e
    case Hold(o) => HoldInv(s, o, collecting);
    case Release(id) => ReleaseInv(s, id, collecting);
    case StopLedger => GivenUpTrace(s, collecting);
    case CloseLock => GivenUpTrace(s, collecting);
  }

  // ----- whole runs -----

  predicate Legal(s: State, run: seq<Event>)
    decreases |run|
  {
    run == [] || (Enabled(s, run[0]) && Legal(Step(s, run[0]), run[1..]))
  }

  function Exec(s: State, run: seq<Event>): State
    decreases |run|
  {
    if run == [] then s else Exec(Step(s, run[0]), run[1..])
  }

  lemma {:induction false} RunInv(s: State, run: seq<Event>, collecting: bool)
    requires Inv(s, collecting) && Legal(s, run)
    ensures Inv(Exec(s, run), collecting)
    decreases |run|
  {
    if run != [] {
      StepInv(s, run[0], collecting);
      RunInv(Step(s, run[0]), run[1..], collecting);
    }
  }

  /** In every run: before Close the lock is open exactly while holders are counted, the
      collector is attached exactly as long, and a hold not given back still has the
      lock, whatever other holds were released. */
  lemma CountedHolds(start: State, run: seq<Event>)
    requires IsStart(start) && Legal(start, run)
    ensures var s := Exec(start, run);
      && (s.attached ==> s.open)
      && (!s.closed ==> (s.open <==> s.holders > 0) && (s.held != {} ==> s.open))
      && (!s.stopped ==> (s.open <==> s.attached))
  {
    StartInv(start, false);
    RunInv(start, run, false);
    var s := Exec(start, run);
    if id :| id in s.held { assert |s.held| > 0; }
  }

  /** In every run, whenever nobody has the lock the trace is a whole number of
      acquisitions: acquire, attach, recover, collect, detach, unlock; or one that
      failed to attach or to recover, ended in the same order with nothing held; or,
      only when the run began with an open that failed between recovering and
      collecting, that one without its collection. */
  lemma TraceIsIntervals(start: State, run: seq<Event>)
    requires IsStart(start) && Legal(start, run) && !Exec(start, run).open
    ensures Intervals(Exec(start, run).trace, !FailedUncollected(start))
  {
    var collecting := !FailedUncollected(start);
    StartInv(start, collecting);
    RunInv(start, run, collecting);
    FromFree(Exec(start, run).trace, collecting);
  }

  /** A hold is granted just when the process builds and has the lock, or can take it;
      one that is not leaves the same lock, count and collector. */
  lemma HoldGranted(s: State, o: Outcome)
    requires Inv(s, false)
    ensures Step(s, Hold(o)).granted > s.granted <==>
      s.builds && (s.open || (o.acquire && o.attach && o.recover && !s.stopped))
    ensures Step(s, Hold(o)).granted > s.granted ==>
      Step(s, Hold(o)).open && s.granted in Step(s, Hold(o)).held
    ensures Step(s, Hold(o)).granted == s.granted ==> Step(s, Hold(o)).(trace := s.trace) == s
    ensures Step(s, Hold(o)).trace == s.trace +
      if !s.builds || s.open || !o.acquire then []
      else if !o.attach || s.stopped then [Acquire, Unlock]
      else if !o.recover then [Acquire, Attach, Detach, Unlock]
      else [Acquire, Attach, Recover, Collect]
  {
    var t := s.trace;
    assert t + [Acquire, Attach, Recover] + [Collect] == t + [Acquire, Attach, Recover, Collect];
    assert t + [] == t;
  }

  /** Only the last holder's release closes the lock, and a second release of the same
      hold changes nothing. */
  lemma ReleaseClosesLast(s: State, id: nat)
    requires Inv(s, false) && !s.closed && id in s.held
    ensures Step(s, Release(id)).open <==> s.held != {id} || s.composition
    ensures Step(Step(s, Release(id)), Release(id)) == Step(s, Release(id))
  {
    StepInv(s, Release(id), false);
    assert |s.held - {id}| == |s.held| - 1;
    if |s.held| == 1 {
      assert s.held - {id} == {};
      assert s.held == {id};
    }
  }

  /** Once Close has given the lock up nothing in the process takes it again, and the
      releases it left behind close nothing: a stopped ledger refuses every attach. */
  lemma {:induction false} ClosedForGood(s: State, run: seq<Event>)
    requires Inv(s, false) && s.closed && Legal(s, run)
    ensures Exec(s, run).closed && !Exec(s, run).open && !Exec(s, run).attached
    ensures Exec(s, run).granted == s.granted
    decreases |run|
  {
    if run != [] {
      StepInv(s, run[0], false);
      ClosedForGood(Step(s, run[0]), run[1..]);
    }
  }

  // ----- the stack -----

  /** The release a hold hands back; it runs once. */
  class Lease {
    ghost const id: nat
    var spent: bool

    constructor (ghost id: nat)
      ensures this.id == id && !spent
    {
      this.id := id;
      spent := false;
    }
  }

  class Stack {
    var builds: bool
    var open: bool
    var holders: int
    var attached: bool
    var stopped: bool
    ghost var closed: bool
    ghost var composition: bool
    ghost var granted: nat
    ghost var held: set<nat>
    ghost var trace: seq<Action>

    ghost function Value(): State
      reads this
    {
      State(builds, open, holders, attached, stopped, closed, composition, granted, held, trace)
    }

    ghost predicate Issued(l: Lease)
      reads this, l
    {
      l.id < granted && (l.spent <==> l.id !in held)
    }

    constructor OpenUnlocked(builds: bool)
      ensures Value() == OpenedUnlocked(builds) && Inv(Value(), false)
    {
      this.builds, open, holders, attached, stopped := builds, false, 0, false, false;
      closed, composition, granted, held, trace := false, false, 0, {}, [];
    }

    /** The open of a composition that locks there; rest is how what it opens between
        recovering and collecting turned out. */
    constructor OpenLocked(o: Outcome, rest: bool)
      ensures Value() == OpenedLocked(o, rest) && Inv(Value(), false)
      ensures open <==> o.acquire && o.attach && o.recover && rest
    {
      builds, open, holders, attached, stopped := true, false, 0, false, false;
      closed, composition, granted, held, trace := false, false, 0, {}, [];
      new;
      assert Value() == NEW;
      Take(o);
      if open && rest {
        trace := trace + [Action.Collect];
        holders := 1;
        composition := true;
      } else {
        GiveUp();
      }
      assert Value() == OpenedLocked(o, rest);
      StartInv(Value(), false);
    }

    /** Stops the ledger and closes the lock, if they were got. */
    method GiveUp()
      modifies this
      ensures Value() == Unlocked(Detached(old(Value())).(stopped := true)).(closed := true)
    {
      if attached {
        trace := trace + [Action.Detach];
        attached := false;
      }
      stopped := true;
      if open {
        trace := trace + [Action.Unlock];
        open := false;
      }
      closed := true;
    }

    /** Takes the lock, attaches the collector and recovers, undoing what it did if it
        fails. */
    method Take(o: Outcome)
      requires !open
      modifies this
      ensures Value() == Taken(old(Value()), o)
    {
      if !o.acquire { return; }
      trace := trace + [Action.Acquire];
      if !o.attach || stopped || attached {
        trace := trace + [Action.Unlock];
        assert trace == old(trace) + [Acquire, Unlock];
        return;
      }
      attached := true;
      trace := trace + [Action.Attach];
      if !o.recover {
        attached := false;
        trace := trace + [Action.Detach, Action.Unlock];
        assert trace == old(trace) + [Acquire, Attach, Detach, Unlock];
        return;
      }
      open := true;
      trace := trace + [Action.Recover];
      assert trace == old(trace) + [Acquire, Attach, Recover];
    }

    /** Lends the lock to one more operation; null when it could not be had. */
    method Hold(o: Outcome) returns (l: Lease?)
      requires Inv(Value(), false)
      modifies this
      ensures Value() == Step(old(Value()), Event.Hold(o)) && Inv(Value(), false)
      ensures l == null <==> granted == old(granted)
      ensures l != null ==> fresh(l) && Issued(l) && !l.spent && open
    {
      StepInv(Value(), Event.Hold(o), false);
      l := null;
      if !builds { return; }
      if !open {
        Take(o);
        if open { trace := trace + [Action.Collect]; }
      }
      if open { l := Lend(); }
    }

    /** Counts one more holder. */
    method Lend() returns (l: Lease)
      modifies this
      ensures Value() == Granted(old(Value())) && fresh(l) && l.id == old(granted) && !l.spent
    {
      l := new Lease(granted);
      holders := holders + 1;
      held, granted := held + {granted}, granted + 1;
    }

    /** One call of the release a hold was handed. */
    method Give(l: Lease)
      requires Inv(Value(), false) && Issued(l)
      modifies this, l
      ensures Value() == Step(old(Value()), Release(l.id)) && Inv(Value(), false)
      ensures l.spent && Issued(l)
    {
      StepInv(Value(), Release(l.id), false);
      if l.spent { return; }
      l.spent := true;
      held := held - {l.id};
      holders := holders - 1;
      if holders > 0 || !open { return; }
      if attached {
        trace := trace + [Action.Detach];
        attached := false;
      }
      trace := trace + [Action.Unlock];
      open := false;
    }

    /** Gives up the composition's own hold, and any an operation left behind. */
    method Close()
      requires Inv(Value(), false)
      modifies this
      ensures Value() == Step(Step(old(Value()), StopLedger), CloseLock) && Inv(Value(), false)
      ensures !open && !attached
    {
      StepInv(Value(), StopLedger, false);
      StepInv(Step(Value(), StopLedger), CloseLock, false);
      GiveUp();
      holders, composition := 0, false;
    }
  }
}
