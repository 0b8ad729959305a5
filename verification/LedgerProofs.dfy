/** Every lock-protected step of the ledger keeps its invariant. */
module LedgerProofs {
  import opened Int64
  import opened LedgerModel

  /** Counts are never negative, and nothing held means nothing counted. */
  lemma {:induction false} CountBounds(es: seq<Entry>)
    requires AllSane(es)
    ensures 0 <= Sum(es, AloneOne) <= Sum(es, ParseOne) <= Sum(es, One)
    ensures 0 <= Sum(es, Memory) && 0 <= Sum(es, Disk)
    ensures Sum(es, One) == 0 ==> Sum(es, Memory) == 0 && Sum(es, Disk) == 0
  {
    if es != [] {
      CountBounds(es[..|es| - 1]);
      assert es[|es| - 1].Sane();
    }
  }

  /** Changing one reservation, as far as the queue discipline goes. */
  lemma SetEntry(s: State, id: nat, e: Entry, t: State)
    requires Fifo(s) && AllSane(s.entries) && OnlyHeadWoken(s) && id < |s.entries|
    requires t.queue == s.queue && t.entries == s.entries[id := e]
    requires e.granted == s.entries[id].granted && e.canceled == s.entries[id].canceled
    requires e.Sane() && (e.woken ==> s.entries[id].woken || (s.queue != [] && id == s.queue[0]))
    ensures Fifo(t) && AllSane(t.entries) && OnlyHeadWoken(t)
  {
  }

  /** Taking the head out of the queue by granting it. */
  lemma GrantQueue(s: State)
    requires Fifo(s) && AllSane(s.entries) && OnlyHeadWoken(s) && s.queue != []
    ensures Fifo(Grant(s)) && AllSane(Grant(s).entries) && OnlyHeadWoken(Grant(s))
  {
    var t := Grant(s);
    forall id | 0 <= id < |t.entries| ensures t.entries[id].Queued() <==> id in t.queue {
      if id in s.queue && id != s.queue[0] { assert id in t.queue; }
    }
  }

  lemma GrantCore(s: State)
    requires Core(s) && s.queue != [] && !Blocked(s, s.entries[s.queue[0]])
    ensures Core(Grant(s))
  {
    var id := s.queue[0];
    var e := s.entries[id];
    assert e.Queued() by { assert id in s.queue; }
    assert Accounted(Grant(s)) by { GrantAccounted(s); }
    assert Excluded(Grant(s)) by { CountBounds(s.entries); }
    GrantQueue(s);
  }

  lemma GrantAccounted(s: State)
    requires WellFormed(s) && Accounted(s) && s.queue != [] && s.entries[s.queue[0]].Queued()
    requires s.entries[s.queue[0]].Sane()
    ensures Accounted(Grant(s))
  {
    var id := s.queue[0];
    var e := s.entries[id];
    Recount(s.entries, id, e.(granted := true));
    WrapAdd(Sum(s.entries, Memory), e.bytes);
    WrapAdd(Sum(s.entries, Disk), e.disk);
  }

  lemma WakeCore(s: State)
    requires Core(s) && s.queue != []
    ensures Core(WakeHead(s))
  {
    var id := s.queue[0];
    var e := s.entries[id].(stuck := true, woken := true);
    Recount(s.entries, id, e);
    SetEntry(s, id, e, WakeHead(s));
  }

  lemma {:induction false} PumpInv(s: State)
    requires Core(s)
    ensures Inv(Pump(s)) && Settled(Pump(s))
    ensures var t := Pump(s); t.queue != [] ==> t.entries[t.queue[0]].stuck
    decreases |s.queue|
  {
    if s.queue != [] {
      if Blocked(s, s.entries[s.queue[0]]) {
        WakeSettles(s);
      } else {
        GrantCore(s);
        PumpInv(Grant(s));
        assert Pump(s) == Pump(Grant(s));
      }
    }
  }

  lemma WakeSettles(s: State)
    requires Core(s) && s.queue != [] && Blocked(s, s.entries[s.queue[0]])
    ensures Inv(WakeHead(s)) && Settled(WakeHead(s)) && WakeHead(s).entries[s.queue[0]].stuck
  {
    WakeCore(s);
  }

  /** Pump changes a reservation only by granting it or by waking it. */
  predicate Evolves(a: Entry, b: Entry) {
    && b == a.(granted := b.granted, stuck := b.stuck, woken := b.woken)
    && (a.granted ==> b.granted)
  }

  lemma {:induction false} PumpEvolves(s: State, id: nat)
    requires WellFormed(s) && id < |s.entries|
    ensures Evolves(s.entries[id], Pump(s).entries[id])
    ensures !s.entries[id].granted && Pump(s).entries[id].granted ==> id in s.queue
    decreases |s.queue|
  {
    if s.queue != [] && !Blocked(s, s.entries[s.queue[0]]) {
      PumpEvolves(Grant(s), id);
    }
  }

  /** A reservation holds what it asked for when it has queued. */
  lemma ArrivedBytes(s: State, r: Reservation)
    requires WellFormed(s)
    ensures |Arrive(s, r).entries| == |s.entries| + 1 && Arrive(s, r).entries[|s.entries|].bytes == r.memory
  {
    PumpEvolves(Enqueue(s, r), |s.entries|);
  }

  lemma ArriveInv(s: State, r: Reservation)
    requires Core(s) && r.Valid()
    ensures Inv(Arrive(s, r)) && Settled(Arrive(s, r))
  {
    EnqueueCore(s, r);
    PumpInv(Enqueue(s, r));
  }

  lemma EnqueueCore(s: State, r: Reservation)
    requires Core(s) && r.Valid()
    ensures Core(Enqueue(s, r))
  {
    SumAppend(s.entries, Queue(r), One);
    SumAppend(s.entries, Queue(r), ParseOne);
    SumAppend(s.entries, Queue(r), AloneOne);
    SumAppend(s.entries, Queue(r), Memory);
    SumAppend(s.entries, Queue(r), Disk);
    EnqueueQueue(s, r);
  }

  lemma EnqueueQueue(s: State, r: Reservation)
    requires Fifo(s) && AllSane(s.entries) && OnlyHeadWoken(s) && r.Valid()
    ensures Fifo(Enqueue(s, r)) && AllSane(Enqueue(s, r).entries) && OnlyHeadWoken(Enqueue(s, r))
  {
    var t := Enqueue(s, r);
    assert forall q | q in t.queue :: q in s.queue || q == |s.entries|;
    assert |s.entries| in t.queue by { assert t.queue[|s.queue|] == |s.entries|; }
    forall id | 0 <= id < |t.entries| ensures t.entries[id].Queued() <==> id in t.queue {
      if id < |s.entries| && id in s.queue { var k :| 0 <= k < |s.queue| && s.queue[k] == id; assert t.queue[k] == id; }
    }
  }

  /** Where in the queue a reservation stands, and what taking it out leaves. */
  lemma {:induction false} WithoutAt(q: seq<nat>, id: nat, k: nat)
    requires k < |q| && q[k] == id && forall i | 0 <= i < k :: q[i] != id
    ensures Without(q, id) == q[..k] + q[k + 1..]
  {
    if k > 0 {
      WithoutAt(q[1..], id, k - 1);
      assert q[..k] + q[k + 1..] == [q[0]] + (q[1..][..k - 1] + q[1..][k..]);
    }
  }

  lemma DropQueue(s: State, id: nat)
    requires Fifo(s) && AllSane(s.entries) && OnlyHeadWoken(s) && id in s.queue
    ensures Fifo(Drop(s, id)) && AllSane(Drop(s, id).entries) && OnlyHeadWoken(Drop(s, id))
  {
    var q := Drop(s, id).queue;
    var k :| 0 <= k < |s.queue| && s.queue[k] == id;
    assert s.entries[id].Queued();
    WithoutAt(s.queue, id, k);
    QueueWithout(s.queue, k, q);
    DropFifo(s, id);
    DropWoken(s, id);
  }

  lemma DropWoken(s: State, id: nat)
    requires Fifo(s) && AllSane(s.entries) && OnlyHeadWoken(s) && id in s.queue
    requires var q := Drop(s, id).queue; forall i | 0 < i < |q| :: q[i] in s.queue[1..]
    ensures AllSane(Drop(s, id).entries) && OnlyHeadWoken(Drop(s, id))
  {
    var t := Drop(s, id);
    forall i | 0 < i < |t.queue| ensures !t.entries[t.queue[i]].woken {
      var j :| 0 <= j < |s.queue[1..]| && s.queue[1..][j] == t.queue[i];
      assert s.queue[j + 1] == t.queue[i];
    }
  }

  lemma DropFifo(s: State, id: nat)
    requires Fifo(s) && id in s.queue && s.entries[id].Queued()
    requires var q := Without(s.queue, id);
             && (forall i, j | 0 <= i < j < |q| :: q[i] < q[j])
             && (forall x :: x in q <==> x in s.queue && x != id)
    ensures Fifo(Drop(s, id))
  {
    var t := Drop(s, id);
    forall x | 0 <= x < |t.entries| ensures t.entries[x].Queued() <==> x in t.queue {
      assert s.entries[x].Queued() <==> x in s.queue;
    }
    forall g, q | 0 <= g < |t.entries| && t.entries[g].granted && q in t.queue ensures g < q {
      assert s.entries[g].granted && q in s.queue;
    }
  }

  /** Taking position k out of a strictly ascending queue. */
  lemma QueueWithout(q: seq<nat>, k: nat, r: seq<nat>)
    requires k < |q| && r == q[..k] + q[k + 1..]
    requires forall i, j | 0 <= i < j < |q| :: q[i] < q[j]
    ensures forall i, j | 0 <= i < j < |r| :: r[i] < r[j]
    ensures forall x :: x in r <==> x in q && x != q[k]
    ensures forall i | 0 < i < |r| :: r[i] in q[1..]
  {
    forall x | x in q && x != q[k] ensures x in r {
      var j :| 0 <= j < |q| && q[j] == x;
      assert r[if j < k then j else j - 1] == x;
    }
    forall i | 0 < i < |r| ensures r[i] in q[1..] {
      assert r[i] == q[1..][if i < k then i - 1 else i];
    }
  }

  lemma RemoveInv(s: State, id: nat)
    requires Core(s) && id in s.queue
    ensures Inv(Remove(s, id)) && Settled(Remove(s, id))
  {
    DropCore(s, id);
    PumpInv(Drop(s, id));
  }

  lemma DropCore(s: State, id: nat)
    requires Core(s) && id in s.queue
    ensures Core(Drop(s, id))
  {
    Recount(s.entries, id, s.entries[id].(canceled := true));
    DropQueue(s, id);
  }

  lemma GiveBackCore(s: State, id: nat)
    requires Core(s) && id < |s.entries| && s.entries[id].Held()
    ensures Core(GiveBack(s, id))
  {
    var t := GiveBack(s, id);
    var e := s.entries[id].(released := true);
    assert Accounted(t) by {
      Recount(s.entries, id, e);
      WrapAdd(Sum(s.entries, Memory), -e.bytes);
      WrapAdd(Sum(s.entries, Disk), -e.disk);
    }
    assert s.entries[id].Sane();
    SetEntry(s, id, e, t);
    CountBounds(s.entries);
    CountBounds(t.entries);
  }

  lemma ReleaseInv(s: State, id: nat)
    requires Inv(s) && id < |s.entries| && s.entries[id].granted
    ensures Inv(Release(s, id)) && (Settled(s) ==> Settled(Release(s, id)))
  {
    if !s.entries[id].released {
      GiveBackCore(s, id);
      PumpInv(GiveBack(s, id));
    }
  }

  lemma ResizeAccounted(s: State, id: nat, bytes: int)
    requires Core(s) && id < |s.entries| && s.entries[id].Held() && 0 <= bytes <= MAX
    ensures Accounted(Resize(s, id, bytes))
  {
    Recount(s.entries, id, s.entries[id].(bytes := bytes));
    WrapAdd(Sum(s.entries, Memory), bytes - s.entries[id].bytes);
  }

  lemma ResizeCore(s: State, id: nat, bytes: int)
    requires Core(s) && id < |s.entries| && s.entries[id].Held() && 0 <= bytes <= MAX
    ensures Core(Resize(s, id, bytes))
  {
    assert s.entries[id].Sane();
    ResizeAccounted(s, id, bytes);
    SetEntry(s, id, s.entries[id].(bytes := bytes), Resize(s, id, bytes));
  }

  lemma AdjustInv(s: State, id: nat, bytes: int)
    requires Inv(s) && id < |s.entries| && s.entries[id].granted && bytes <= MAX
    ensures Inv(Adjust(s, id, bytes))
    ensures Settled(s) && bytes <= s.entries[id].bytes ==> Settled(Adjust(s, id, bytes))
  {
    var e := s.entries[id];
    if bytes >= 0 && !e.released {
      ResizeCore(s, id, bytes);
      if bytes < e.bytes {
        PumpInv(Resize(s, id, bytes));
      } else if bytes == e.bytes {
        assert s.entries[id := e] == s.entries && Resize(s, id, bytes) == s;
      }
    }
  }

  lemma SetAllocationInv(s: State, bytes: int)
    requires Inv(s) && bytes <= MAX
    ensures Inv(SetAllocation(s, bytes)) && (Settled(s) ==> Settled(SetAllocation(s, bytes)))
  {
    if bytes >= 0 { PumpInv(s.(allocation := bytes)); }
  }

  lemma TakeWakeCore(s: State, id: nat)
    requires Core(s) && id < |s.entries|
    ensures Core(TakeWake(s, id))
  {
    var e := s.entries[id].(stuck := false);
    assert s.entries[id].Sane();
    Recount(s.entries, id, e);
    SetEntry(s, id, e, TakeWake(s, id));
  }

  lemma TakeWakeInv(s: State, id: nat)
    requires Inv(s) && id < |s.entries|
    ensures Inv(TakeWake(s, id)) && (Settled(s) ==> Settled(TakeWake(s, id)))
  {
    TakeWakeCore(s, id);
  }
}
