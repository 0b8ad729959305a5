/** The reservation ledger as the program keeps it: counters and a queue of
    waiters, updated in place under one mutex. Each method is what runs between
    one lock and the matching unlock. */
module Ledger {
  import opened Int64
  import opened LedgerModel
  import opened LedgerProofs

  datatype Result<T> = Ok(value: T) | ArgumentInvalid

  class Waiter {
    var bytes: int
    const diskBytes: int
    const parse: bool
    const alone: bool
    var granted: bool
    var released: bool
    /** Whether the channel the grant closes is closed. */
    var ready: bool
    /** Whether the one-slot wake-up channel holds a wake-up. */
    var stuck: bool
    /** The position of this waiter in arrival order. */
    ghost const id: nat

    constructor (r: Reservation, ghost id: nat)
      ensures bytes == r.memory && diskBytes == r.disk && parse == r.parse && alone == r.alone
      ensures !granted && !released && !ready && !stuck && this.id == id
    {
      bytes, diskBytes, parse, alone := r.memory, r.disk, r.parse, r.alone;
      granted, released, ready, stuck := false, false, false, false;
      this.id := id;
    }

    ghost predicate Is(e: Entry)
      reads this
    {
      && bytes == e.bytes && diskBytes == e.disk && parse == e.parse && alone == e.alone
      && granted == e.granted && released == e.released && ready == e.granted && stuck == e.stuck
    }
  }

  class Ledger {
    var allocation: int
    var diskAllocation: int
    var admitted: int
    var parses: int
    var alone: int
    var used: int
    var diskUsed: int
    var queue: seq<Waiter>
    /** Every waiter that ever queued, in arrival order, and what the ledger is
        as a value. */
    ghost var arrivals: seq<Waiter>
    ghost var model: State

    ghost predicate Represents()
      reads this, arrivals
    {
      && WellFormed(model)
      && allocation == model.allocation && diskAllocation == model.diskAllocation
      && admitted == model.admitted && parses == model.parses && alone == model.alone
      && used == model.used && diskUsed == model.diskUsed
      && |arrivals| == |model.entries| && |queue| == |model.queue|
      && (forall i | 0 <= i < |arrivals| :: arrivals[i].id == i && arrivals[i].Is(model.entries[i]))
      && (forall i | 0 <= i < |queue| :: queue[i] == arrivals[model.queue[i]])
    }

    ghost predicate Valid()
      reads this, arrivals
    {
      Represents() && Inv(model)
    }

    constructor (allocation: int, diskAllocation: int)
      requires 0 <= allocation <= MAX && 0 <= diskAllocation <= MAX
      ensures Valid() && model == Init(allocation, diskAllocation) && arrivals == []
    {
      this.allocation, this.diskAllocation := allocation, diskAllocation;
      admitted, parses, alone, used, diskUsed := 0, 0, 0, 0, 0;
      queue, arrivals := [], [];
      model := Init(allocation, diskAllocation);
      new;
      InitInv(allocation, diskAllocation);
    }

    /** Adds a reservation to the counters and sums. */
    method Count(w: Waiter)
      modifies this`admitted, this`parses, this`alone, this`used, this`diskUsed
      ensures admitted == old(admitted) + 1
      ensures parses == old(parses) + (if w.parse then 1 else 0)
      ensures alone == old(alone) + (if w.alone then 1 else 0)
      ensures used == Wrap(old(used) + w.bytes) && diskUsed == Wrap(old(diskUsed) + w.diskBytes)
    {
      admitted := admitted + 1;
      if w.parse { parses := parses + 1; }
      if w.alone { alone := alone + 1; }
      used := Wrap(used + w.bytes);
      diskUsed := Wrap(diskUsed + w.diskBytes);
    }

    /** Takes the head off the queue and admits it. */
    method GrantHead()
      requires Represents() && queue != [] && !queue[0].granted
      modifies this, queue[0]
      ensures Represents() && model == Grant(old(model)) && arrivals == old(arrivals)
    {
      var head := queue[0];
      queue := queue[1..];
      Count(head);
      assert !head.ready;  // a channel is closed at most once
      head.granted, head.ready := true, true;
      assert head == arrivals[model.queue[0]];
      ghost var id := model.queue[0];
      model := Grant(model);
      forall i | 0 <= i < |arrivals| ensures arrivals[i].id == i && arrivals[i].Is(model.entries[i]) {
        assert i != id ==> arrivals[i] != head;
      }
    }

    /** The wake-up of a head that does not fit: a send that never blocks. */
    method WakeHead()
      requires Represents() && queue != []
      modifies this, queue[0]
      ensures Represents() && model == LedgerModel.WakeHead(old(model)) && arrivals == old(arrivals)
    {
      queue[0].stuck := true;
      model := LedgerModel.WakeHead(model);
    }

    /** One round of the loop: grants the head, or wakes it and stops. */
    method PumpOnce() returns (more: bool)
      requires Represents() && Core(model) && queue != []
      modifies this, queue[0]
      ensures Represents() && Core(model) && arrivals == old(arrivals)
      ensures more == !Blocked(old(model), old(model).entries[old(model).queue[0]])
      ensures model == if more then Grant(old(model)) else LedgerModel.WakeHead(old(model))
    {
      var blocked := HeadBlocked();
      if blocked {
        WakeCore(model);
        WakeHead();
      } else {
        HeadWaits(model);
        GrantCore(model);
        GrantHead();
      }
      more := !blocked;
    }

    /** Grants the head for as long as it is admissible, and wakes it when it is not. */
    method Pump()
      requires Represents() && Core(model)
      modifies this, arrivals
      ensures Valid() && Settled(model)
      ensures model == LedgerModel.Pump(old(model)) && arrivals == old(arrivals)
    {
      PumpInv(model);
      while |queue| > 0
        invariant Represents() && Core(model) && arrivals == old(arrivals)
        invariant LedgerModel.Pump(model) == LedgerModel.Pump(old(model))
        decreases |queue|
      {
        var more := PumpOnce();
        if !more { return; }
      }
    }

    /** pump's test on the head: the sums are checked only against something
        already admitted, and only in a dimension the head requests. */
    method HeadBlocked() returns (blocked: bool)
      requires Represents() && queue != []
      ensures blocked == Blocked(model, model.entries[model.queue[0]])
    {
      var head := queue[0];
      var memoryFits :=
        head.bytes == 0 || Wrap(used + head.bytes) <= allocation || (head.parse && parses == 0);
      if head.parse && (alone > 0 || (head.alone && parses > 0)) {
        memoryFits := false;
      }
      var diskFits := head.diskBytes == 0 || Wrap(diskUsed + head.diskBytes) <= diskAllocation;
      blocked := admitted > 0 && !(memoryFits && diskFits);
    }

    lemma HeadWaits(s: State)
      requires Core(s) && s.queue != []
      ensures !s.entries[s.queue[0]].granted
    {
      assert s.queue[0] in s.queue;
    }

    /** The queueing step of Hold, behind its argument checks. */
    method Queue(r: Reservation) returns (w: Result<Waiter>)
      requires Valid() && InRange(r.memory) && InRange(r.disk)
      modifies this, arrivals
      ensures Valid()
      ensures r.Valid() <==> w.Ok?
      ensures w.ArgumentInvalid? ==> model == old(model) && arrivals == old(arrivals)
      ensures w.Ok? ==> model == Arrive(old(model), r) && fresh(w.value) && arrivals == old(arrivals) + [w.value]
      ensures w.Ok? ==>
        && w.value.bytes == r.memory && w.value.diskBytes == r.disk
        && w.value.parse == r.parse && w.value.alone == r.alone
    {
      if r.memory < 0 || r.disk < 0 {
        return ArgumentInvalid;
      }
      if r.alone && !r.parse {
        return ArgumentInvalid;
      }
      var waiter := Enter(r);
      w := Ok(waiter);
    }

    /** Queues a fresh waiter last and lets the queue move. */
    method Enter(r: Reservation) returns (waiter: Waiter)
      requires Valid() && r.Valid()
      modifies this, arrivals
      ensures Valid() && model == Arrive(old(model), r) && fresh(waiter) && arrivals == old(arrivals) + [waiter]
      ensures waiter.bytes == r.memory && waiter.diskBytes == r.disk
      ensures waiter.parse == r.parse && waiter.alone == r.alone
    {
      EnqueueCore(model, r);
      ArrivedBytes(model, r);
      waiter := new Waiter(r, |arrivals|);
      Append(waiter, r);
      Pump();
      assert arrivals[|arrivals| - 1].Is(model.entries[|arrivals| - 1]);
    }

    method Append(waiter: Waiter, ghost r: Reservation)
      requires Represents() && waiter.id == |arrivals| && waiter.Is(LedgerModel.Queue(r))
      modifies this`queue, this`arrivals, this`model
      ensures Represents() && model == Enqueue(old(model), r) && arrivals == old(arrivals) + [waiter]
    {
      queue := queue + [waiter];
      arrivals := arrivals + [waiter];
      model := Enqueue(model, r);
    }

    /** Hold receives the buffered wake-up and reads, under the lock, whether a
        grant came first. */
    method TakeWake(w: Waiter) returns (granted: bool)
      requires Valid() && w in arrivals && w.stuck
      modifies this, arrivals
      ensures Valid() && arrivals == old(arrivals) && model == LedgerModel.TakeWake(old(model), w.id)
      ensures granted == w.granted == old(w.granted)
    {
      TakeWakeInv(model, w.id);
      w.stuck := false;
      model := LedgerModel.TakeWake(model, w.id);
      granted := w.granted;
    }

    /** Drops w from the queue and lets the queue move; nothing when w is not queued. */
    method Remove(w: Waiter)
      requires Valid() && w in arrivals
      modifies this, arrivals
      ensures Valid() && arrivals == old(arrivals) && model == LedgerModel.Remove(old(model), w.id)
    {
      for i := 0 to |queue|
        invariant forall k | 0 <= k < i :: queue[k] != w
        invariant unchanged(this) && unchanged(arrivals)
      {
        if queue[i] == w {
          DropCore(model, w.id);
          CutOut(i);
          Pump();
          return;
        }
      }
    }

    method CutOut(i: nat)
      requires Represents() && i < |queue|
      requires forall k | 0 <= k < i :: queue[k] != queue[i]
      modifies this`queue, this`model
      ensures Represents() && model == Drop(old(model), old(queue[i].id))
    {
      WithoutAt(model.queue, queue[i].id, i);
      ghost var id := queue[i].id;
      queue := queue[..i] + queue[i + 1..];
      model := Drop(model, id);
    }

    /** Hold's context ended: a waiter not yet granted leaves the queue; one that
        was is to be released by the caller. */
    method Abort(w: Waiter) returns (granted: bool)
      requires Valid() && w in arrivals
      modifies this, arrivals
      ensures Valid() && arrivals == old(arrivals) && granted == old(w.granted)
      ensures model == if granted then old(model) else LedgerModel.Remove(old(model), w.id)
    {
      granted := w.granted;
      if !granted {
        Remove(w);
      }
    }

    /** Returns one reservation exactly once, at the memory it holds now. */
    method Release(w: Waiter)
      requires Valid() && w in arrivals && w.granted
      modifies this, arrivals
      ensures Valid() && arrivals == old(arrivals) && model == LedgerModel.Release(old(model), w.id)
    {
      if w.released {
        return;
      }
      GiveBackCore(model, w.id);
      Uncount(w);
      Pump();
    }

    method Uncount(w: Waiter)
      requires Represents() && w in arrivals && !w.released
      modifies this, w
      ensures Represents() && model == GiveBack(old(model), w.id) && arrivals == old(arrivals)
    {
      w.released := true;
      Discount(w);
      model := GiveBack(model, w.id);
    }

    /** Takes a reservation out of the counters and sums. */
    method Discount(w: Waiter)
      modifies this`admitted, this`parses, this`alone, this`used, this`diskUsed
      ensures admitted == old(admitted) - 1
      ensures parses == old(parses) - (if w.parse then 1 else 0)
      ensures alone == old(alone) - (if w.alone then 1 else 0)
      ensures used == Wrap(old(used) - w.bytes) && diskUsed == Wrap(old(diskUsed) - w.diskBytes)
    {
      admitted := admitted - 1;
      if w.parse { parses := parses - 1; }
      if w.alone { alone := alone - 1; }
      used := Wrap(used - w.bytes);
      diskUsed := Wrap(diskUsed - w.diskBytes);
    }

    /** Sets a holding's memory: upward at once, downward with a pump. */
    method Adjust(w: Waiter, memoryBytes: int)
      requires Valid() && w in arrivals && w.granted && InRange(memoryBytes)
      modifies this, arrivals
      ensures Valid() && arrivals == old(arrivals)
      ensures model == LedgerModel.Adjust(old(model), w.id, memoryBytes)
    {
      if memoryBytes < 0 {
        return;
      }
      if w.released {
        return;
      }
      assert w.Is(model.entries[w.id]);
      Resized(model, w.id, memoryBytes);
      var delta := memoryBytes - w.bytes;
      Recharge(w, delta);
      if delta < 0 {
        Pump();
      }
    }

    lemma Resized(s: State, id: nat, bytes: int)
      requires Inv(s) && id < |s.entries| && s.entries[id].Held() && 0 <= bytes <= MAX
      ensures Core(Resize(s, id, bytes)) && (bytes >= s.entries[id].bytes ==> Inv(Resize(s, id, bytes)))
      ensures LedgerModel.Adjust(s, id, bytes) ==
        if bytes < s.entries[id].bytes then LedgerModel.Pump(Resize(s, id, bytes)) else Resize(s, id, bytes)
    {
      ResizeCore(s, id, bytes);
      AdjustInv(s, id, bytes);
    }

    method Recharge(w: Waiter, delta: int)
      requires Represents() && w in arrivals
      modifies this, w
      ensures Represents() && model == Resize(old(model), w.id, old(w.bytes) + delta) && arrivals == old(arrivals)
    {
      model := Resize(model, w.id, w.bytes + delta);
      w.bytes := w.bytes + delta;
      used := Wrap(used + delta);
    }

    method SetAllocation(memoryBytes: int)
      requires Valid() && InRange(memoryBytes)
      modifies this, arrivals
      ensures Valid() && arrivals == old(arrivals)
      ensures model == LedgerModel.SetAllocation(old(model), memoryBytes)
    {
      if memoryBytes < 0 {
        return;
      }
      allocation := memoryBytes;
      model := model.(allocation := memoryBytes);
      Pump();
    }

    /** Whether any reserver is queued; never true of an idle ledger. */
    method Waiting() returns (waiting: bool)
      requires Valid()
      ensures waiting <==> exists id | 0 <= id < |model.entries| :: model.entries[id].Queued()
      ensures waiting ==> admitted > 0
    {
      waiting := |queue| > 0;
      if waiting {
        assert model.queue[0] in model.queue && model.entries[model.queue[0]].Queued();
      }
    }
  }

  /** Refuses a negative allocation in either dimension; zero is a real reading. */
  method NewLedger(allocation: int, diskAllocation: int) returns (r: Result<Ledger>)
    requires InRange(allocation) && InRange(diskAllocation)
    ensures r.Ok? <==> allocation >= 0 && diskAllocation >= 0
    ensures r.Ok? ==> fresh(r.value) && r.value.Valid() && r.value.model == Init(allocation, diskAllocation)
  {
    if allocation < 0 || diskAllocation < 0 {
      return ArgumentInvalid;
    }
    var ledger := new Ledger(allocation, diskAllocation);
    r := Ok(ledger);
  }
}
