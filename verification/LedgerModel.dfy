/** The reservation ledger as a value: its counters, its first-in-first-out
    queue and every reservation that ever queued, in arrival order. The
    functions below are its lock-protected steps. */
module LedgerModel {
  import opened Int64

  datatype Reservation = Reservation(memory: int, disk: int, parse: bool, alone: bool) {
    /** What Hold checks before it queues anything. */
    predicate Valid() {
      0 <= memory <= MAX && 0 <= disk <= MAX && (alone ==> parse)
    }
  }

  /** One reservation, queued and then held. canceled and woken are not stored
      by the program: they record that the reservation left the queue without a
      grant, and that it was asked to make room. */
  datatype Entry = Entry(bytes: int, disk: int, parse: bool, alone: bool,
                         granted: bool, released: bool, stuck: bool,
                         canceled: bool, woken: bool) {
    predicate Held() { granted && !released }
    predicate Queued() { !granted && !canceled }
    /** Not yet ended: queued or held. */
    predicate Live() { Queued() || Held() }
    predicate Sane() {
      && 0 <= bytes <= MAX && 0 <= disk <= MAX
      && (alone ==> parse) && (released ==> granted) && (canceled ==> !granted)
      && (stuck ==> woken)
    }
  }

  function Queue(r: Reservation): Entry {
    Entry(r.memory, r.disk, r.parse, r.alone, false, false, false, false, false)
  }

  datatype State = State(allocation: int, diskAllocation: int,
                         admitted: int, parses: int, alone: int,
                         used: int, diskUsed: int,
                         entries: seq<Entry>, queue: seq<nat>)

  function Init(allocation: int, diskAllocation: int): State {
    State(allocation, diskAllocation, 0, 0, 0, 0, 0, [], [])
  }

  // ----- sums over the reservations -----

  function Sum(es: seq<Entry>, f: Entry -> int): int {
    if es == [] then 0 else Sum(es[..|es| - 1], f) + f(es[|es| - 1])
  }

  function One(e: Entry): int { if e.Held() then 1 else 0 }
  function ParseOne(e: Entry): int { if e.Held() && e.parse then 1 else 0 }
  function AloneOne(e: Entry): int { if e.Held() && e.alone then 1 else 0 }
  function Memory(e: Entry): int { if e.Held() then e.bytes else 0 }
  function Disk(e: Entry): int { if e.Held() then e.disk else 0 }

  lemma {:induction false} SumUpdate(es: seq<Entry>, i: nat, e: Entry, f: Entry -> int)
    requires i < |es|
    ensures Sum(es[i := e], f) == Sum(es, f) - f(es[i]) + f(e)
  {
    var n := |es| - 1;
    if i < n {
      SumUpdate(es[..n], i, e, f);
      assert es[i := e][..n] == es[..n][i := e];
    } else {
      assert es[i := e][..n] == es[..n];
    }
  }

  lemma SumAppend(es: seq<Entry>, e: Entry, f: Entry -> int)
    ensures Sum(es + [e], f) == Sum(es, f) + f(e)
  {
    assert (es + [e])[..|es|] == es;
  }

  lemma {:induction false} SumNonNegative(es: seq<Entry>, f: Entry -> int)
    requires forall i | 0 <= i < |es| :: f(es[i]) >= 0
    ensures Sum(es, f) >= 0
  {
    if es != [] { SumNonNegative(es[..|es| - 1], f); }
  }

  /** A sum of non-negative terms is at least any one of them, and at least any two. */
  lemma {:induction false} SumAtLeast(es: seq<Entry>, f: Entry -> int, i: nat, j: nat)
    requires forall i | 0 <= i < |es| :: f(es[i]) >= 0
    requires i < |es| && j < |es|
    ensures Sum(es, f) >= (if i == j then f(es[i]) else f(es[i]) + f(es[j]))
  {
    var n := |es| - 1;
    SumNonNegative(es[..n], f);
    if i < n && j < n {
      SumAtLeast(es[..n], f, i, j);
    } else if i < n {
      SumAtLeast(es[..n], f, i, i);
    } else if j < n {
      SumAtLeast(es[..n], f, j, j);
    }
  }

  lemma {:induction false} SumMonotone(es: seq<Entry>, f: Entry -> int, g: Entry -> int)
    requires forall i | 0 <= i < |es| :: f(es[i]) <= g(es[i])
    ensures Sum(es, f) <= Sum(es, g)
  {
    if es != [] { SumMonotone(es[..|es| - 1], f, g); }
  }

  // ----- the steps -----

  ghost predicate WellFormed(s: State) {
    forall i | 0 <= i < |s.queue| :: s.queue[i] < |s.entries|
  }

  /** The memory half of pump's test on the head, with int64 sums. */
  function MemoryFits(s: State, e: Entry): bool {
    if e.parse && (s.alone > 0 || (e.alone && s.parses > 0)) then false
    else e.bytes == 0 || Wrap(s.used + e.bytes) <= s.allocation || (e.parse && s.parses == 0)
  }

  function DiskFits(s: State, e: Entry): bool {
    e.disk == 0 || Wrap(s.diskUsed + e.disk) <= s.diskAllocation
  }

  predicate Blocked(s: State, e: Entry) {
    s.admitted > 0 && !(MemoryFits(s, e) && DiskFits(s, e))
  }

  function Grant(s: State): State
    requires WellFormed(s) && s.queue != []
  {
    var id := s.queue[0];
    var e := s.entries[id];
    s.(queue := s.queue[1..],
       admitted := s.admitted + 1,
       parses := if e.parse then s.parses + 1 else s.parses,
       alone := if e.alone then s.alone + 1 else s.alone,
       used := Wrap(s.used + e.bytes),
       diskUsed := Wrap(s.diskUsed + e.disk),
       entries := s.entries[id := e.(granted := true)])
  }

  function WakeHead(s: State): State
    requires WellFormed(s) && s.queue != []
  {
    var id := s.queue[0];
    s.(entries := s.entries[id := s.entries[id].(stuck := true, woken := true)])
  }

  function Pump(s: State): (t: State)
    requires WellFormed(s)
    ensures |t.entries| == |s.entries| && WellFormed(t)
    decreases |s.queue|
  {
    if s.queue == [] then s
    else if Blocked(s, s.entries[s.queue[0]]) then WakeHead(s)
    else Pump(Grant(s))
  }

  /** Hold's queueing step. */
  function Arrive(s: State, r: Reservation): State
    requires WellFormed(s)
  {
    Pump(Enqueue(s, r))
  }

  function Enqueue(s: State, r: Reservation): State {
    s.(entries := s.entries + [Queue(r)], queue := s.queue + [|s.entries|])
  }

  function Without(q: seq<nat>, id: nat): (r: seq<nat>)
    ensures forall i | 0 <= i < |r| :: r[i] in q
  {
    if q == [] then []
    else if q[0] == id then q[1..]
    else [q[0]] + Without(q[1..], id)
  }

  /** Drops a waiter that stopped waiting and lets the queue move. */
  function Remove(s: State, id: nat): State
    requires WellFormed(s)
  {
    if id in s.queue then Pump(Drop(s, id)) else s
  }

  function Drop(s: State, id: nat): (t: State)
    requires WellFormed(s) && id in s.queue
    ensures |t.entries| == |s.entries| && WellFormed(t)
  {
    s.(queue := Without(s.queue, id),
       entries := s.entries[id := s.entries[id].(canceled := true)])
  }

  /** Returns a granted reservation once, at what it holds now. */
  function Release(s: State, id: nat): State
    requires WellFormed(s) && id < |s.entries|
  {
    var e := s.entries[id];
    if e.released then s else Pump(GiveBack(s, id))
  }

  function GiveBack(s: State, id: nat): State
    requires id < |s.entries|
  {
    var e := s.entries[id];
    s.(admitted := s.admitted - 1,
       parses := if e.parse then s.parses - 1 else s.parses,
       alone := if e.alone then s.alone - 1 else s.alone,
       used := Wrap(s.used - e.bytes),
       diskUsed := Wrap(s.diskUsed - e.disk),
       entries := s.entries[id := e.(released := true)])
  }

  function Adjust(s: State, id: nat, bytes: int): State
    requires WellFormed(s) && id < |s.entries|
  {
    var e := s.entries[id];
    if bytes < 0 || e.released then s
    else if bytes < e.bytes then Pump(Resize(s, id, bytes))
    else Resize(s, id, bytes)
  }

  function Resize(s: State, id: nat, bytes: int): State
    requires id < |s.entries|
  {
    s.(used := Wrap(s.used + (bytes - s.entries[id].bytes)),
       entries := s.entries[id := s.entries[id].(bytes := bytes)])
  }

  function SetAllocation(s: State, bytes: int): State
    requires WellFormed(s)
  {
    if bytes < 0 then s else Pump(s.(allocation := bytes))
  }

  /** A waiter consumes the wake-up buffered for it. */
  function TakeWake(s: State, id: nat): State
    requires id < |s.entries|
  {
    s.(entries := s.entries[id := s.entries[id].(stuck := false)])
  }

  // ----- what every step keeps -----

  /** The counters are the counts and sums over the reservations granted and
      not yet released. */
  ghost predicate Accounted(s: State) {
    && s.admitted == Sum(s.entries, One)
    && s.parses == Sum(s.entries, ParseOne)
    && s.alone == Sum(s.entries, AloneOne)
    && s.used == Wrap(Sum(s.entries, Memory))
    && s.diskUsed == Wrap(Sum(s.entries, Disk))
  }

  ghost predicate AllSane(es: seq<Entry>) {
    forall i | 0 <= i < |es| :: es[i].Sane()
  }

  /** The queue holds exactly the queued reservations, in arrival order, and
      nothing behind its head was ever granted. */
  ghost predicate Fifo(s: State) {
    && WellFormed(s)
    && (forall i, j | 0 <= i < j < |s.queue| :: s.queue[i] < s.queue[j])
    && (forall id | 0 <= id < |s.entries| :: s.entries[id].Queued() <==> id in s.queue)
    && (forall g, q | 0 <= g < |s.entries| && s.entries[g].granted && q in s.queue :: g < q)
  }

  /** Only the head was ever asked to make room. */
  ghost predicate OnlyHeadWoken(s: State) {
    forall i | 0 < i < |s.queue| && s.queue[i] < |s.entries| :: !s.entries[s.queue[i]].woken
  }

  /** A parse that runs alone is the only one held. */
  ghost predicate Excluded(s: State) {
    s.alone > 0 ==> s.parses == 1
  }

  /** What holds even while pump is at work. */
  ghost predicate Core(s: State) {
    && Fifo(s)
    && AllSane(s.entries)
    && Accounted(s) && OnlyHeadWoken(s) && Excluded(s)
    && 0 <= s.allocation <= MAX && 0 <= s.diskAllocation <= MAX
  }

  /** Somebody who can give room back is admitted, and the head has been asked
      to make room since it became head: an idle ledger has no waiters. */
  ghost predicate Attended(s: State) {
    s.queue != [] && WellFormed(s) ==> s.admitted > 0 && s.entries[s.queue[0]].woken
  }

  /** The head does not fit beside what is held. */
  ghost predicate Settled(s: State) {
    s.queue != [] && WellFormed(s) ==> Blocked(s, s.entries[s.queue[0]])
  }

  ghost predicate Inv(s: State) {
    Core(s) && Attended(s)
  }

  lemma InitInv(allocation: int, diskAllocation: int)
    requires 0 <= allocation <= MAX && 0 <= diskAllocation <= MAX
    ensures Inv(Init(allocation, diskAllocation))
  {
  }

  /** The five sums through a change of one reservation. */
  lemma Recount(es: seq<Entry>, id: nat, e: Entry)
    requires id < |es|
    ensures Sum(es[id := e], One) == Sum(es, One) - One(es[id]) + One(e)
    ensures Sum(es[id := e], ParseOne) == Sum(es, ParseOne) - ParseOne(es[id]) + ParseOne(e)
    ensures Sum(es[id := e], AloneOne) == Sum(es, AloneOne) - AloneOne(es[id]) + AloneOne(e)
    ensures Sum(es[id := e], Memory) == Sum(es, Memory) - Memory(es[id]) + Memory(e)
    ensures Sum(es[id := e], Disk) == Sum(es, Disk) - Disk(es[id]) + Disk(e)
  {
    SumUpdate(es, id, e, One);
    SumUpdate(es, id, e, ParseOne);
    SumUpdate(es, id, e, AloneOne);
    SumUpdate(es, id, e, Memory);
    SumUpdate(es, id, e, Disk);
  }
}
