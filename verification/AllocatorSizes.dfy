/** The sizes in the counter's table are the sizes asked for: what every hooked call asked is
    followed beside the run, from its events alone. */
module AllocatorSizes {
  import opened AllocatorCounter
  import opened AllocatorRuns
  import opened Options

  /** One thread's realloc: the block, the size asked for and, once libc is back, what it
      came back with. */
  datatype Asking = Asking(ptr: Address, size: nat, result: Option<Returned>)

  /** The size last asked for at each address, and the reallocs under way. */
  datatype Told = Told(sizes: map<Address, nat>, calls: map<nat, Asking>)

  function Hear(w: Told, e: Event): Told {
    match e
    case LibcAlloc(_, p, size) => w.(sizes := w.sizes[p := size])
    case CallRealloc(t, ptr, size) => w.(calls := w.calls[t := Asking(ptr, size, None)])
    case LibcRealloc(t, r) => if t in w.calls then w.(calls := w.calls[t := w.calls[t].(result := Some(r))]) else w
    case UpdateTable(t, _, _) => if t in w.calls then Settled(w, w.calls[t]) else w
    case _ => w
  }

  function Settled(w: Told, a: Asking): Told {
    match a.result
    case Some(InPlace) => w.(sizes := w.sizes[a.ptr := a.size])
    case Some(Moved(p)) => w.(sizes := w.sizes[p := a.size])
    case _ => w
  }

  function Heard(w: Told, run: seq<Event>): Told
    decreases |run|
  {
    if run == [] then w else Heard(Hear(w, run[0]), run[1..])
  }

  predicate PcAgrees(w: Told, t: nat, pc: Pc) {
    match pc
    case Got(p, size) => p in w.sizes && w.sizes[p] == size
    case Recording(p, size) => p in w.sizes && w.sizes[p] == size
    case Waiting(ptr, size) => t in w.calls && w.calls[t] == Asking(ptr, size, None)
    case InLibc(ptr, size) => t in w.calls && w.calls[t] == Asking(ptr, size, None)
    case Updating(ptr, r, size, _) => t in w.calls && w.calls[t] == Asking(ptr, size, Some(r))
    case _ => true
  }

  ghost predicate BlocksAgree(w: Told, heap: map<Address, Block>) {
    forall p | p in heap && heap[p].kind.Counted? :: p in w.sizes && heap[p].kind.size == w.sizes[p]
  }

  ghost predicate Agrees(s: System, w: Told) {
    BlocksAgree(w, s.heap) && forall t | 0 <= t < |s.pcs| :: PcAgrees(w, t, s.pcs[t])
  }

  lemma BlocksStay(s: System, w: Told, e: Event)
    requires Inv(s) && Agrees(s, w) && Enabled(s, e)
    ensures BlocksAgree(Hear(w, e), Step(s, e).heap)
  {
    if e.LockRecord? || e.UpdateTable? || e.LibcRealloc? {
      assert Placed(s.heap, s.lock, e.t, s.pcs[e.t]) && PcAgrees(w, e.t, s.pcs[e.t]);
    }
  }

  lemma PcStays(s: System, w: Told, e: Event, t: nat)
    requires Inv(s) && Agrees(s, w) && Enabled(s, e) && t < |s.pcs|
    ensures |Step(s, e).pcs| == |s.pcs| && PcAgrees(Hear(w, e), t, Step(s, e).pcs[t])
  {
    assert Placed(s.heap, s.lock, t, s.pcs[t]) && PcAgrees(w, t, s.pcs[t]);
    if e.UpdateTable? { PcUpdated(s, w, e, t); }
  }

  lemma PcUpdated(s: System, w: Told, e: Event, t: nat)
    requires Inv(s) && Agrees(s, w) && Enabled(s, e) && e.UpdateTable? && t < |s.pcs|
    ensures |Step(s, e).pcs| == |s.pcs| && PcAgrees(Hear(w, e), t, Step(s, e).pcs[t])
  {
    assert Placed(s.heap, s.lock, t, s.pcs[t]) && PcAgrees(w, t, s.pcs[t]);
    assert Placed(s.heap, s.lock, e.t, s.pcs[e.t]) && PcAgrees(w, e.t, s.pcs[e.t]);
  }

  lemma {:induction false} RunAgrees(s: System, w: Told, run: seq<Event>)
    requires Inv(s) && Agrees(s, w) && Legal(s, run)
    ensures Inv(Exec(s, run)) && Agrees(Exec(s, run), Heard(w, run))
    decreases |run|
  {
    if run != [] {
      var e := run[0];
      var next := Step(s, e);
      StepInv(s, e);
      BlocksStay(s, w, e);
      assert |next.pcs| == |s.pcs| by { if |s.pcs| > 0 { PcStays(s, w, e, 0); } }
      forall t | 0 <= t < |next.pcs| ensures PcAgrees(Hear(w, e), t, next.pcs[t]) { PcStays(s, w, e, t); }
      RunAgrees(next, Hear(w, e), run[1..]);
    }
  }

  /** In every run, with the mutex free, each entry of the table is the size last asked for
      at its address. */
  lemma SizesAsAsked(threads: nat, counting: bool, run: seq<Event>)
    requires Legal(Start(threads, counting), run)
    ensures var s, told := Exec(Start(threads, counting), run), Heard(Told(map[], map[]), run);
      s.lock.None? ==> forall p | p in s.counter.sizes :: p in told.sizes && s.counter.sizes[p] == told.sizes[p]
  {
    var start := Start(threads, counting);
    StartInv(threads, counting);
    RunAgrees(start, Told(map[], map[]), run);
    var s := Exec(start, run);
    if s.lock.None? { FreeLockTable(s); }
  }
}
