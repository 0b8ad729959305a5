/** Threads calling the hooked allocator over one C heap, interleaved anywhere the
    counter's mutex allows. A block's own record says whether the table should hold
    it; the table knows only addresses, which libc may hand out again. */
module AllocatorRuns {
  import opened AllocatorCounter
  import opened Options

  datatype Kind = Uncounted | Counted(size: nat)

  /** A block libc has handed out: the thread with it in hand, none when the program
      holds it, and the size it was counted at. */
  datatype Block = Block(owner: Option<nat>, kind: Kind)

  /** Where a thread is inside a hooked call. */
  datatype Pc =
    | Idle
    | Got(p: Address, size: nat)
    | Recording(p: Address, size: nat)
    | Freeing(p: Address)
    | Releasing(p: Address)
    | Waiting(ptr: Address, size: nat)
    | InLibc(ptr: Address, size: nat)
    | Updating(ptr: Address, result: Returned, size: nat, was: Kind)
    | Dead

  datatype System = System(
    heap: map<Address, Block>,
    pcs: seq<Pc>,
    lock: Option<nat>,
    counting: bool,
    counter: Counter)

  datatype Event =
    | LibcAlloc(t: nat, p: Address, size: nat)
    | LibcRefuses(t: nat, size: nat)
    | LoadCounting(t: nat)
    | LockRecord(t: nat)
    | CallFree(t: nat, p: Address)
    | LockForget(t: nat)
    | LibcFree(t: nat)
    | CallRealloc(t: nat, ptr: Address, size: nat)
    | Lock(t: nat)
    | LibcRealloc(t: nat, result: Returned)
    | LibcReallocFails(t: nat)
    | UpdateTable(t: nat, first: bool, second: bool)
    | DirectAlloc(p: Address)
    | DirectFree(p: Address)
    | SetCounting(on: bool)
    | ResetPeak

  predicate HeldByProgram(s: System, p: Address) {
    p in s.heap && s.heap[p].owner == None
  }

  predicate At(s: System, t: nat, pc: Pc) {
    t < |s.pcs| && s.pcs[t] == pc
  }

  /** What libc, the program and the mutex allow: libc hands out addresses it has not
      handed out already, the program passes the hooks a block it holds, and frees
      past them only blocks they did not count. */
  predicate Enabled(s: System, e: Event) {
    match e
    case LibcAlloc(t, p, _) => At(s, t, Idle) && p !in s.heap
    case LibcRefuses(t, _) => At(s, t, Idle)
    case LoadCounting(t) => t < |s.pcs| && s.pcs[t].Got?
    case LockRecord(t) => t < |s.pcs| && s.pcs[t].Recording? && s.lock.None?
    case CallFree(t, p) => At(s, t, Idle) && HeldByProgram(s, p)
    case LockForget(t) => t < |s.pcs| && s.pcs[t].Freeing? && s.lock.None?
    case LibcFree(t) => t < |s.pcs| && s.pcs[t].Releasing?
    case CallRealloc(t, ptr, _) => At(s, t, Idle) && HeldByProgram(s, ptr)
    case Lock(t) => t < |s.pcs| && s.pcs[t].Waiting? && s.lock.None?
    case LibcRealloc(t, r) =>
      && t < |s.pcs| && s.pcs[t].InLibc? && s.pcs[t].ptr in s.heap
      && (r.Null? ==> s.pcs[t].size == 0) && (r.Moved? ==> r.p !in s.heap)
    case LibcReallocFails(t) => t < |s.pcs| && s.pcs[t].InLibc? && s.pcs[t].size > 0
    case UpdateTable(t, _, _) => t < |s.pcs| && s.pcs[t].Updating?
    case DirectAlloc(p) => p !in s.heap
    case DirectFree(p) => HeldByProgram(s, p) && s.heap[p].kind == Uncounted
    case SetCounting(_) => true
    case ResetPeak => s.lock.None?
  }

  function Move(s: System, t: nat, pc: Pc): System
    requires t < |s.pcs|
  {
    s.(pcs := s.pcs[t := pc])
  }

  function Put(s: System, p: Address, b: Block): System {
    s.(heap := s.heap[p := b])
  }

  /** What one step does. */
  function Step(s: System, e: Event): System
    requires Enabled(s, e)
  {
    match e
    case LibcAlloc(t, p, size) => Put(Move(s, t, Got(p, size)), p, Block(Some(t), Uncounted))
    case LibcRefuses(t, size) => if size > 0 then Move(s, t, Dead) else s
    case LoadCounting(t) =>
      var p := s.pcs[t].p;
      if s.counting then Move(s, t, Recording(p, s.pcs[t].size))
      else Put(Move(s, t, Idle), p, Block(None, Uncounted))
    case LockRecord(t) =>
      var p, size := s.pcs[t].p, s.pcs[t].size;
      Put(Move(s, t, Idle), p, Block(None, Counted(size))).(counter := Recorded(s.counter, p, size))
    case CallFree(t, p) => Put(Move(s, t, Freeing(p)), p, Block(Some(t), s.heap[p].kind))
    case LockForget(t) =>
      var p := s.pcs[t].p;
      Put(Move(s, t, Releasing(p)), p, Block(Some(t), Uncounted)).(counter := Forgotten(s.counter, p))
    case LibcFree(t) => Move(s, t, Idle).(heap := s.heap - {s.pcs[t].p})
    case CallRealloc(t, ptr, size) => Put(Move(s, t, Waiting(ptr, size)), ptr, Block(Some(t), s.heap[ptr].kind))
    case Lock(t) => Move(s, t, InLibc(s.pcs[t].ptr, s.pcs[t].size)).(lock := Some(t))
    case LibcRealloc(t, r) => AfterLibc(s, t, r)
    case LibcReallocFails(t) => Move(s, t, Dead).(lock := None)
    case UpdateTable(t, first, second) => AfterUpdate(s, t, first, second)
    case DirectAlloc(p) => Put(s, p, Block(None, Uncounted))
    case DirectFree(p) => s.(heap := s.heap - {p})
    case SetCounting(on) => s.(counting := on)
    case ResetPeak => s.(counter := s.counter.(peak := s.counter.live))
  }

  /** libc has moved, resized or freed the block; a moved or freed block's address is
      free for anyone from here on, while its entry is still in the table. */
  function AfterLibc(s: System, t: nat, r: Returned): System
    requires Enabled(s, LibcRealloc(t, r))
  {
    var pc := Updating(s.pcs[t].ptr, r, s.pcs[t].size, s.heap[s.pcs[t].ptr].kind);
    Move(s, t, pc).(heap := LibcHeap(s.heap, t, pc.ptr, r))
  }

  function LibcHeap(heap: map<Address, Block>, t: nat, ptr: Address, r: Returned): map<Address, Block> {
    match r
    case InPlace => heap
    case Null => heap - {ptr}
    case Moved(p) => (heap - {ptr})[p := Block(Some(t), Uncounted)]
  }

  function AfterUpdate(s: System, t: nat, first: bool, second: bool): System
    requires t < |s.pcs| && s.pcs[t].Updating?
  {
    var pc := s.pcs[t];
    Move(s, t, Idle).(lock := None, heap := UpdatedHeap(s.heap, pc, first, second),
      counter := Reallocated(s.counter, pc.ptr, pc.result, pc.size, first, second))
  }

  /** The program has the block back, counted if a read that mattered saw counting on. */
  function UpdatedHeap(heap: map<Address, Block>, pc: Pc, first: bool, second: bool): map<Address, Block>
    requires pc.Updating?
  {
    match pc.result
    case Null => heap
    case InPlace => heap[pc.ptr := Block(None, if second then Counted(pc.size) else Uncounted)]
    case Moved(p) => heap[p := Block(None, if first || second then Counted(pc.size) else Uncounted)]
  }

  function Start(threads: nat, counting: bool): System {
    System(map[], seq(threads, _ => Idle), None, counting, EMPTY)
  }

  // ----- the invariant -----

  /** The table the blocks themselves ask for. */
  function Wanted(heap: map<Address, Block>): map<Address, nat> {
    map p | p in heap && heap[p].kind.Counted? :: heap[p].kind.size
  }

  /** The entry a realloc in progress has still to remove, whose block is gone. */
  function Stale(s: System): map<Address, nat> {
    if s.lock.Some? && s.lock.value < |s.pcs| then StaleOf(s.pcs[s.lock.value]) else map[]
  }

  function StaleOf(pc: Pc): map<Address, nat> {
    if pc.Updating? && !pc.result.InPlace? && pc.was.Counted? then map[pc.ptr := pc.was.size] else map[]
  }

  /** The address libc has taken back under the mutex, anyone's to be given again but
      nobody's to record. */
  function Gone(s: System): set<Address> {
    if s.lock.Some? && s.lock.value < |s.pcs| then GoneOf(s.pcs[s.lock.value]) else {}
  }

  function GoneOf(pc: Pc): set<Address> {
    if pc.Updating? && !pc.result.InPlace? then {pc.ptr} else {}
  }

  predicate Holds(heap: map<Address, Block>, p: Address, t: nat) {
    p in heap && heap[p].owner == Some(t)
  }

  /** A thread's place agrees with the blocks it has in hand and with the mutex. */
  predicate Placed(heap: map<Address, Block>, lock: Option<nat>, t: nat, pc: Pc) {
    match pc
    case Idle => lock != Some(t)
    case Dead => lock != Some(t)
    case Got(p, _) => lock != Some(t) && Holds(heap, p, t) && heap[p].kind == Uncounted
    case Recording(p, _) => lock != Some(t) && Holds(heap, p, t) && heap[p].kind == Uncounted
    case Freeing(p) => lock != Some(t) && Holds(heap, p, t)
    case Releasing(p) => lock != Some(t) && Holds(heap, p, t) && heap[p].kind == Uncounted
    case Waiting(ptr, _) => lock != Some(t) && Holds(heap, ptr, t)
    case InLibc(ptr, _) => lock == Some(t) && Holds(heap, ptr, t)
    case Updating(ptr, r, _, was) =>
      && lock == Some(t)
      && match r
         case Null => true
         case InPlace => Holds(heap, ptr, t) && heap[ptr].kind == was
         case Moved(p) => p != ptr && Holds(heap, p, t) && heap[p].kind == Uncounted
  }

  ghost predicate AllPlaced(s: System) {
    && (s.lock.Some? ==> s.lock.value < |s.pcs|)
    && forall t | 0 <= t < |s.pcs| :: Placed(s.heap, s.lock, t, s.pcs[t])
  }

  /** The table holds exactly the counted blocks' sizes, but for the one entry a
      realloc under the mutex is about to remove; its figures are exact. */
  ghost predicate Inv(s: System) {
    AllPlaced(s) && TableOk(s.heap, Stale(s), Gone(s), s.counter)
  }

  ghost predicate TableOk(heap: map<Address, Block>, stale: map<Address, nat>, gone: set<Address>, c: Counter) {
    && Wanted(heap).Keys !! gone
    && c.sizes == Wanted(heap) + stale
    && Exact(c)
  }

  // ----- every step keeps it -----

  /** Only thread t moved, and no block another thread has in hand changed. */
  ghost predicate Undisturbed(s: System, after: System, t: nat) {
    && t < |s.pcs| == |after.pcs|
    && (forall u | 0 <= u < |s.pcs| && u != t :: after.pcs[u] == s.pcs[u])
    && (forall u | 0 <= u < |s.pcs| && u != t :: s.lock == Some(u) <==> after.lock == Some(u))
    && (after.lock.Some? ==> after.lock.value < |s.pcs|)
    && forall p | p in s.heap && s.heap[p].owner != None && s.heap[p].owner != Some(t) ::
         p in after.heap && after.heap[p] == s.heap[p]
  }

  lemma PlacedStill(s: System, after: System, t: nat)
    requires AllPlaced(s) && Undisturbed(s, after, t)
    requires Placed(after.heap, after.lock, t, after.pcs[t])
    ensures AllPlaced(after)
  {
    forall u | 0 <= u < |after.pcs| ensures Placed(after.heap, after.lock, u, after.pcs[u]) {
      if u != t { assert Placed(s.heap, s.lock, u, s.pcs[u]); }
    }
  }

  /** A step that leaves the table, the counted blocks and the stale entry alone. */
  lemma TableStill(s: System, after: System)
    requires Inv(s) && AllPlaced(after)
    requires after.counter.sizes == s.counter.sizes && Exact(after.counter)
    requires Wanted(after.heap) == Wanted(s.heap) && Stale(after) == Stale(s) && Gone(after) == Gone(s)
    ensures Inv(after)
  {
  }

  lemma WantedPut(heap: map<Address, Block>, p: Address, b: Block)
    ensures Wanted(heap[p := b]) == if b.kind.Counted? then Wanted(heap)[p := b.kind.size] else Wanted(heap) - {p}
    ensures p in heap && heap[p].kind == b.kind ==> Wanted(heap[p := b]) == Wanted(heap)
    ensures (p in heap ==> heap[p].kind == Uncounted) && b.kind == Uncounted ==> Wanted(heap[p := b]) == Wanted(heap)
  {
  }

  lemma WantedWithout(heap: map<Address, Block>, p: Address)
    ensures Wanted(heap - {p}) == Wanted(heap) - {p}
    ensures p in heap && heap[p].kind == Uncounted ==> Wanted(heap - {p}) == Wanted(heap)
  {
  }

  /** With the mutex free nothing is stale, so the table is what the blocks ask for. */
  lemma FreeLockTable(s: System)
    requires Inv(s) && s.lock.None?
    ensures s.counter.sizes == Wanted(s.heap)
  {
  }

  lemma AllocStep(s: System, e: Event)
    requires Inv(s) && Enabled(s, e)
    requires e.LibcAlloc? || e.LibcRefuses? || e.LoadCounting? || e.DirectAlloc? || e.DirectFree?
    ensures Inv(Step(s, e))
  {
    var after := Step(s, e);
    match e
    case LibcAlloc(t, p, size) =>
      WantedPut(s.heap, p, Block(Some(t), Uncounted));
      PlacedStill(s, after, t);
      TableStill(s, after);
    case LibcRefuses(t, size) =>
      if size > 0 {
        PlacedStill(s, after, t);
        TableStill(s, after);
      }
    case LoadCounting(t) =>
      WantedPut(s.heap, s.pcs[t].p, Block(None, Uncounted));
      PlacedStill(s, after, t);
      TableStill(s, after);
    case DirectAlloc(p) =>
      WantedPut(s.heap, p, Block(None, Uncounted));
      HeapOnly(s, after);
      TableStill(s, after);
    case DirectFree(p) =>
      WantedWithout(s.heap, p);
      HeapOnly(s, after);
      TableStill(s, after);
    case _ =>
  }

  lemma HeapOnly(s: System, after: System)
    requires AllPlaced(s) && after.pcs == s.pcs && after.lock == s.lock
    requires forall p | p in s.heap && s.heap[p].owner != None :: p in after.heap && after.heap[p] == s.heap[p]
    ensures AllPlaced(after)
  {
    forall u | 0 <= u < |after.pcs| ensures Placed(after.heap, after.lock, u, after.pcs[u]) {
      assert Placed(s.heap, s.lock, u, s.pcs[u]);
    }
  }

  lemma RecordStep(s: System, t: nat)
    requires Inv(s) && Enabled(s, LockRecord(t))
    ensures s.pcs[t].p !in s.counter.sizes
    ensures Inv(Step(s, LockRecord(t)))
  {
    var after := Step(s, LockRecord(t));
    var p, size := s.pcs[t].p, s.pcs[t].size;
    assert Placed(s.heap, s.lock, t, s.pcs[t]);
    FreeLockTable(s);
    RecordExact(s.counter, p, size);
    WantedPut(s.heap, p, Block(None, Counted(size)));
    PlacedStill(s, after, t);
  }

  lemma FreeStep(s: System, e: Event)
    requires Inv(s) && Enabled(s, e) && (e.CallFree? || e.LockForget? || e.LibcFree?)
    ensures Inv(Step(s, e))
  {
    var after := Step(s, e);
    match e
    case CallFree(t, p) =>
      WantedPut(s.heap, p, Block(Some(t), s.heap[p].kind));
      PlacedStill(s, after, t);
      TableStill(s, after);
    case LockForget(t) =>
      var p := s.pcs[t].p;
      assert Placed(s.heap, s.lock, t, s.pcs[t]);
      FreeLockTable(s);
      ForgetExact(s.counter, p);
      WantedPut(s.heap, p, Block(Some(t), Uncounted));
      PlacedStill(s, after, t);
      assert after.counter.sizes == Wanted(s.heap) - {p};
    case LibcFree(t) =>
      WantedWithout(s.heap, s.pcs[t].p);
      PlacedStill(s, after, t);
      TableStill(s, after);
    case _ =>
  }

  lemma ReallocStep(s: System, e: Event)
    requires Inv(s) && Enabled(s, e) && (e.CallRealloc? || e.Lock? || e.LibcReallocFails?)
    ensures Inv(Step(s, e))
  {
    var after := Step(s, e);
    match e
    case CallRealloc(t, p, size) =>
      WantedPut(s.heap, p, Block(Some(t), s.heap[p].kind));
      PlacedStill(s, after, t);
      TableStill(s, after);
    case Lock(t) =>
      PlacedStill(s, after, t);
      TableStill(s, after);
    case LibcReallocFails(t) =>
      PlacedStill(s, after, t);
      TableStill(s, after);
    case _ =>
  }

  lemma LibcReallocStep(s: System, t: nat, r: Returned)
    requires Inv(s) && Enabled(s, LibcRealloc(t, r))
    ensures Inv(Step(s, LibcRealloc(t, r)))
  {
    assert Placed(s.heap, s.lock, t, s.pcs[t]);
    PlacedStill(s, AfterLibc(s, t, r), t);
    LibcTable(s.heap, t, s.pcs[t].ptr, s.pcs[t].size, r, s.counter);
  }

  lemma LibcTable(heap: map<Address, Block>, t: nat, ptr: Address, size: nat, r: Returned, c: Counter)
    requires ptr in heap && (r.Moved? ==> r.p !in heap)
    requires TableOk(heap, map[], {}, c)
    ensures var pc := Updating(ptr, r, size, heap[ptr].kind);
      TableOk(LibcHeap(heap, t, ptr, r), StaleOf(pc), GoneOf(pc), c)
  {
    WantedWithout(heap, ptr);
    if r.Moved? { WantedPut(heap - {ptr}, r.p, Block(Some(t), Uncounted)); }
    if !r.InPlace? { assert Wanted(LibcHeap(heap, t, ptr, r)) == Wanted(heap) - {ptr}; }
  }

  lemma UpdateStep(s: System, t: nat, first: bool, second: bool)
    requires Inv(s) && Enabled(s, UpdateTable(t, first, second))
    ensures s.pcs[t].result.Moved? ==> s.pcs[t].result.p !in s.counter.sizes
    ensures Inv(Step(s, UpdateTable(t, first, second)))
  {
    assert Placed(s.heap, s.lock, t, s.pcs[t]);
    PlacedStill(s, AfterUpdate(s, t, first, second), t);
    UpdatedTable(s.heap, t, s.pcs[t], s.counter, first, second);
  }

  lemma UpdatedTable(heap: map<Address, Block>, t: nat, pc: Pc, c: Counter, first: bool, second: bool)
    requires pc.Updating? && Placed(heap, Some(t), t, pc)
    requires TableOk(heap, StaleOf(pc), GoneOf(pc), c)
    ensures pc.result.Moved? ==> pc.result.p !in c.sizes
    ensures TableOk(UpdatedHeap(heap, pc, first, second), map[], {},
      Reallocated(c, pc.ptr, pc.result, pc.size, first, second))
  {
    ReallocatedTable(c, pc.ptr, pc.result, pc.size, first, second);
    UpdatedSizes(heap, t, pc, c.sizes, first, second);
  }

  lemma UpdatedSizes(heap: map<Address, Block>, t: nat, pc: Pc, sizes: map<Address, nat>, first: bool, second: bool)
    requires pc.Updating? && Placed(heap, Some(t), t, pc)
    requires Wanted(heap).Keys !! GoneOf(pc) && sizes == Wanted(heap) + StaleOf(pc)
    ensures Wanted(UpdatedHeap(heap, pc, first, second)) ==
      if pc.result.Moved? && (first || second) then (sizes - {pc.ptr})[pc.result.p := pc.size]
      else if pc.result.InPlace? && second then sizes[pc.ptr := pc.size]
      else sizes - {pc.ptr}
  {
  }

  /** Every step keeps the invariant. */
  lemma StepInv(s: System, e: Event)
    requires Inv(s) && Enabled(s, e)
    ensures Inv(Step(s, e))
  {
    match e
    case LockRecord(t) => RecordStep(s, t);
    case LibcRealloc(t, r) => LibcReallocStep(s, t, r);
    case UpdateTable(t, first, second) => UpdateStep(s, t, first, second);
    case SetCounting(_) => TableStill(s, Step(s, e));
    case ResetPeak => TableStill(s, Step(s, e));
    case CallFree(_, _) => FreeStep(s, e);
    case LockForget(_) => FreeStep(s, e);
    case LibcFree(_) => FreeStep(s, e);
    case CallRealloc(_, _, _) => ReallocStep(s, e);
    case Lock(_) => ReallocStep(s, e);
    case LibcReallocFails(_) => ReallocStep(s, e);
    case _ => AllocStep(s, e);
  }

  // ----- whole runs -----

  predicate Legal(s: System, run: seq<Event>)
    decreases |run|
  {
    run == [] || (Enabled(s, run[0]) && Legal(Step(s, run[0]), run[1..]))
  }

  function Exec(s: System, run: seq<Event>): System
    requires Legal(s, run)
    decreases |run|
  {
    if run == [] then s else Exec(Step(s, run[0]), run[1..])
  }

  lemma {:induction false} RunInv(s: System, run: seq<Event>)
    requires Inv(s) && Legal(s, run)
    ensures Inv(Exec(s, run))
    decreases |run|
  {
    if run != [] {
      StepInv(s, run[0]);
      RunInv(Step(s, run[0]), run[1..]);
    }
  }

  lemma StartInv(threads: nat, counting: bool)
    ensures Inv(Start(threads, counting))
  {
  }

  /** In every run: live is the table's total, never below zero nor above the peak; and
      with the mutex free the table holds exactly the blocks that were counted when
      they were allocated or last resized and have not been freed since. */
  lemma FiguresExact(threads: nat, counting: bool, run: seq<Event>)
    requires Legal(Start(threads, counting), run)
    ensures var s := Exec(Start(threads, counting), run);
      && s.counter.live == Total(s.counter.sizes) && 0 <= s.counter.live <= s.counter.peak
      && (s.lock.None? ==> s.counter.sizes == Wanted(s.heap))
  {
    StartInv(threads, counting);
    RunInv(Start(threads, counting), run);
    var s := Exec(Start(threads, counting), run);
    if s.lock.None? { FreeLockTable(s); }
  }

  /** The addresses a step records. */
  function Records(s: System, e: Event): set<Address>
    requires Enabled(s, e)
  {
    match e
    case LockRecord(t) => {s.pcs[t].p}
    case UpdateTable(t, first, second) =>
      if s.pcs[t].result.Moved? && (first || second) then {s.pcs[t].result.p} else {}
    case _ => {}
  }

  /** In every run, no step records an address whose entry is still in the table, so
      none is overwritten and its bytes lost. A block resized in place is the only one
      recorded again, and its entry is forgotten first. */
  lemma NeverOverwrites(threads: nat, counting: bool, run: seq<Event>, e: Event)
    requires Legal(Start(threads, counting), run)
    requires Enabled(Exec(Start(threads, counting), run), e)
    ensures var s := Exec(Start(threads, counting), run); Records(s, e) !! s.counter.sizes.Keys
  {
    StartInv(threads, counting);
    RunInv(Start(threads, counting), run);
    var s := Exec(Start(threads, counting), run);
    match e
    case LockRecord(t) => RecordStep(s, t);
    case UpdateTable(t, first, second) => UpdateStep(s, t, first, second);
    case _ =>
  }

  /** The race the mutex is held across libc's realloc for: another thread can be given
      the address that realloc has just left, and its entry is still in the table. Were
      it recorded now the figures would be lost; it has to wait, and then it may be. */
  lemma AddressReused(s: System, t: nat, u: nat, size: nat)
    requires Inv(s) && t < |s.pcs| && s.pcs[t].Updating? && !s.pcs[t].result.InPlace?
    requires s.pcs[t].was.Counted? && s.pcs[t].was.size > 0
    requires At(s, u, Idle) && s.pcs[t].ptr !in s.heap && s.counting
    ensures var ptr := s.pcs[t].ptr;
      && Enabled(s, LibcAlloc(u, ptr, size))
      && var given := Step(s, LibcAlloc(u, ptr, size));
         && Enabled(given, LoadCounting(u))
         && var waiting := Step(given, LoadCounting(u));
            && ptr in waiting.counter.sizes && !Enabled(waiting, LockRecord(u))
            && !Exact(Recorded(waiting.counter, ptr, size))
            && Enabled(waiting, UpdateTable(t, true, true))
            && Enabled(Step(waiting, UpdateTable(t, true, true)), LockRecord(u))
            && Exact(Step(Step(waiting, UpdateTable(t, true, true)), LockRecord(u)).counter)
  {
    var ptr := s.pcs[t].ptr;
    assert Placed(s.heap, s.lock, t, s.pcs[t]);
    var given := Step(s, LibcAlloc(u, ptr, size));
    StepInv(s, LibcAlloc(u, ptr, size));
    var waiting := Step(given, LoadCounting(u));
    StepInv(given, LoadCounting(u));
    OverwriteLoses(waiting.counter, ptr, size);
    StepInv(waiting, UpdateTable(t, true, true));
    StepInv(Step(waiting, UpdateTable(t, true, true)), LockRecord(u));
  }

  lemma {:induction false} RunSnoc(s: System, run: seq<Event>, e: Event)
    requires Legal(s, run) && Enabled(Exec(s, run), e)
    ensures Legal(s, run + [e]) && Exec(s, run + [e]) == Step(Exec(s, run), e)
    decreases |run|
  {
    if run != [] {
      assert (run + [e])[1..] == run[1..] + [e];
      RunSnoc(Step(s, run[0]), run[1..], e);
    } else {
      assert [] + [e] == [e] && [e][1..] == [];
    }
  }

  /** One event behind a run that ends in x. */
  lemma Then(s: System, run: seq<Event>, x: System, e: Event)
    requires Legal(s, run) && Exec(s, run) == x && Enabled(x, e)
    ensures Legal(s, run + [e]) && Exec(s, run + [e]) == Step(x, e)
  {
    RunSnoc(s, run, e);
  }

  /** Thread t allocates p and reallocs it, libc moving it to q. */
  function Moving(t: nat, p: Address, q: Address, n: nat, m: nat): seq<Event> {
    [LibcAlloc(t, p, n)] + [LoadCounting(t)] + [LockRecord(t)]
    + [CallRealloc(t, p, m)] + [Lock(t)] + [LibcRealloc(t, Moved(q))]
  }

  /** In a run from the start that reallocs a block of t's, libc gives thread u the
      address the block has left: t has the mutex and u waits to record an address whose
      entry is still in the table. */
  lemma ReuseHappens(threads: nat, t: nat, u: nat, p: Address, q: Address, n: nat, m: nat, size: nat)
    requires t < threads && u < threads && t != u && p != q && n > 0
    ensures var s, run := Start(threads, true), Moving(t, p, q, n, m);
      && Legal(s, run) && Inv(Exec(s, run))
      && At(Exec(s, run), t, Updating(p, Moved(q), m, Counted(n))) && At(Exec(s, run), u, Idle)
      && Legal(s, run + [LibcAlloc(u, p, size)] + [LoadCounting(u)])
      && var x := Exec(s, run + [LibcAlloc(u, p, size)] + [LoadCounting(u)]);
      && At(x, u, Recording(p, size)) && p in x.counter.sizes && x.lock == Some(t)
  {
    var s, run := Start(threads, true), Moving(t, p, q, n, m);
    var x := MovedAway(threads, t, u, p, q, n, m);
    var y := Step(x, LibcAlloc(u, p, size));
    Then(s, run, x, LibcAlloc(u, p, size));
    Then(s, run + [LibcAlloc(u, p, size)], y, LoadCounting(u));
    StartInv(threads, true);
    RunInv(s, run);
    AddressReused(x, t, u, size);
  }

  lemma Allocated(threads: nat, t: nat, p: Address, n: nat) returns (x: System)
    requires t < threads
    ensures var s, run := Start(threads, true), [LibcAlloc(t, p, n)] + [LoadCounting(t)] + [LockRecord(t)];
      Legal(s, run) && x == Exec(s, run) && x.pcs == s.pcs
    ensures x.lock == None && x.counting && x.heap == map[p := Block(None, Counted(n))] && p in x.counter.sizes
  {
    var s := Start(threads, true);
    var r1, s1 := [LibcAlloc(t, p, n)], Step(s, LibcAlloc(t, p, n));
    assert [] + r1 == r1;
    Then(s, [], s, LibcAlloc(t, p, n));
    var r2, s2 := r1 + [LoadCounting(t)], Step(s1, LoadCounting(t));
    Then(s, r1, s1, LoadCounting(t));
    Then(s, r2, s2, LockRecord(t));
    x := Step(s2, LockRecord(t));
    assert x.pcs == s.pcs;
  }

  lemma MovedAway(threads: nat, t: nat, u: nat, p: Address, q: Address, n: nat, m: nat) returns (x: System)
    requires t < threads && u < threads && t != u && p != q && n > 0
    ensures var run := Moving(t, p, q, n, m); Legal(Start(threads, true), run) && x == Exec(Start(threads, true), run)
    ensures |x.pcs| == threads && x.pcs[t] == Updating(p, Moved(q), m, Counted(n)) && x.pcs[u] == Idle
    ensures p !in x.heap && x.counting && x.lock == Some(t) && p in x.counter.sizes
  {
    var s := Start(threads, true);
    var s3 := Allocated(threads, t, p, n);
    var r3 := [LibcAlloc(t, p, n)] + [LoadCounting(t)] + [LockRecord(t)];
    var r4, s4 := r3 + [CallRealloc(t, p, m)], Step(s3, CallRealloc(t, p, m));
    Then(s, r3, s3, CallRealloc(t, p, m));
    var r5, s5 := r4 + [Lock(t)], Step(s4, Lock(t));
    Then(s, r4, s4, Lock(t));
    Then(s, r5, s5, LibcRealloc(t, Moved(q)));
    x := Step(s5, LibcRealloc(t, Moved(q)));
  }

  /** What the counter stands at while a step runs, before and after it and, when a realloc
      has moved a counted block, in between: with both blocks in the table. */
  ghost predicate Touches(s: System, e: Event, x: int)
    requires Enabled(s, e)
  {
    || x == s.counter.live || x == Step(s, e).counter.live
    || (e.UpdateTable? && e.first && s.pcs[e.t].result.Moved? && x == s.counter.live + s.pcs[e.t].size)
  }

  /** A figure the counter stands at some time in the run. */
  ghost predicate Stands(s: System, run: seq<Event>, x: int)
    requires Legal(s, run)
    decreases |run|
  {
    if run == [] then x == s.counter.live else Touches(s, run[0], x) || Stands(Step(s, run[0]), run[1..], x)
  }

  /** One step's peak: the one before it or the highest figure it touches. */
  lemma PeakStep(s: System, e: Event)
    requires Inv(s) && Enabled(s, e) && e != ResetPeak
    ensures Step(s, e).counter.peak >= s.counter.peak
    ensures forall x | Touches(s, e, x) :: x <= Step(s, e).counter.peak
    ensures Step(s, e).counter.peak == s.counter.peak || Touches(s, e, Step(s, e).counter.peak)
  {
    StepInv(s, e);
    if e.UpdateTable? {
      UpdateStep(s, e.t, e.first, e.second);
      ReallocatedTable(s.counter, s.pcs[e.t].ptr, s.pcs[e.t].result, s.pcs[e.t].size, e.first, e.second);
    }
    if e.LockRecord? {
      RecordStep(s, e.t);
      RecordExact(s.counter, s.pcs[e.t].p, s.pcs[e.t].size);
    }
  }

  /** Between two resets the peak covers every figure the counter stands at, and is one of
      them unless it is the peak the run began with: it is exactly the highest. */
  lemma {:induction false} PeakIsHighest(s: System, run: seq<Event>)
    requires Inv(s) && Legal(s, run) && ResetPeak !in run
    ensures Exec(s, run).counter.peak >= s.counter.peak
    ensures forall x | Stands(s, run, x) :: x <= Exec(s, run).counter.peak
    ensures Exec(s, run).counter.peak == s.counter.peak || Stands(s, run, Exec(s, run).counter.peak)
    decreases |run|
  {
    if run != [] {
      var next := Step(s, run[0]);
      PeakStep(s, run[0]);
      StepInv(s, run[0]);
      assert ResetPeak !in run[1..];
      PeakIsHighest(next, run[1..]);
    }
  }

  /** From a new counter, or from a reset, the peak is the highest figure the counter has
      stood at since. */
  lemma PeakReached(threads: nat, counting: bool, before: seq<Event>, run: seq<Event>)
    requires Legal(Start(threads, counting), before)
    requires before == [] || before[|before| - 1] == ResetPeak
    requires Legal(Exec(Start(threads, counting), before), run) && ResetPeak !in run
    ensures var s := Exec(Start(threads, counting), before);
      && Stands(s, run, Exec(s, run).counter.peak)
      && forall x | Stands(s, run, x) :: x <= Exec(s, run).counter.peak
  {
    var s := Exec(Start(threads, counting), before);
    StartInv(threads, counting);
    RunInv(Start(threads, counting), before);
    assert s.counter.peak == s.counter.live by { if before != [] { PeakAtReset(Start(threads, counting), before); } }
    PeakIsHighest(s, run);
    assert Stands(s, run, s.counter.live) by { if run != [] { assert Touches(s, run[0], s.counter.live); } }
  }

  /** A reset starts the peak over from the live figure. */
  lemma {:induction false} PeakAtReset(s: System, run: seq<Event>)
    requires Legal(s, run) && run != [] && run[|run| - 1] == ResetPeak
    ensures Exec(s, run).counter.peak == Exec(s, run).counter.live
    decreases |run|
  {
    if |run| > 1 {
      PeakAtReset(Step(s, run[0]), run[1..]);
    } else {
      assert run == [ResetPeak] && run[1..] == [];
    }
  }

  /** Between two resets the peak covers the live figure at every moment. */
  lemma {:induction false} PeakCovers(s: System, run: seq<Event>, n: nat)
    requires Inv(s) && Legal(s, run) && ResetPeak !in run && n <= |run|
    ensures Legal(s, run[..n])
    ensures Stands(s, run, Exec(s, run[..n]).counter.live)
    ensures Exec(s, run).counter.peak >= Exec(s, run[..n]).counter.live
    ensures Exec(s, run).counter.peak >= s.counter.peak
  {
    LiveStands(s, run, n);
    PeakIsHighest(s, run);
  }

  lemma {:induction false} LiveStands(s: System, run: seq<Event>, n: nat)
    requires Legal(s, run) && n <= |run|
    ensures Legal(s, run[..n]) && Stands(s, run, Exec(s, run[..n]).counter.live)
    decreases |run|
  {
    if n > 0 {
      LiveStands(Step(s, run[0]), run[1..], n - 1);
      assert run[..n][1..] == run[1..][..n - 1];
    } else if run != [] {
      assert Touches(s, run[0], s.counter.live);
    }
  }

  // ----- what untracked counts -----

  /** No block came past the hooks and counting stayed on. */
  predicate AllHooked(e: Event) {
    !e.DirectAlloc? && e != SetCounting(false) && (e.UpdateTable? ==> e.first && e.second)
  }

  predicate Tracks(heap: map<Address, Block>, pc: Pc) {
    match pc
    case Freeing(p) => p in heap && heap[p].kind.Counted?
    case Waiting(ptr, _) => ptr in heap && heap[ptr].kind.Counted?
    case InLibc(ptr, _) => ptr in heap && heap[ptr].kind.Counted?
    case Updating(_, _, _, was) => was.Counted?
    case _ => true
  }

  ghost predicate AllTracked(s: System) {
    && s.counting && s.counter.untracked == 0
    && (forall p | HeldByProgram(s, p) :: s.heap[p].kind.Counted?)
    && forall t | 0 <= t < |s.pcs| :: Tracks(s.heap, s.pcs[t])
  }

  lemma TracksStep(s: System, e: Event)
    requires Inv(s) && AllTracked(s) && Enabled(s, e) && AllHooked(e)
    ensures AllTracked(Step(s, e))
  {
    var after := Step(s, e);
    ForgetsTracked(s, e);
    forall t | 0 <= t < |after.pcs| ensures Tracks(after.heap, after.pcs[t]) {
      TracksStill(s, e, t);
    }
  }

  lemma TracksStill(s: System, e: Event, t: nat)
    requires Inv(s) && AllTracked(s) && Enabled(s, e) && AllHooked(e) && t < |s.pcs|
    ensures Tracks(Step(s, e).heap, Step(s, e).pcs[t])
  {
    assert Placed(s.heap, s.lock, t, s.pcs[t]) && Tracks(s.heap, s.pcs[t]);
  }

  /** The entry a free or a realloc has to remove is there to be removed. */
  lemma ForgetsTracked(s: System, e: Event)
    requires Inv(s) && AllTracked(s) && Enabled(s, e)
    ensures Step(s, e).counter.untracked == 0
  {
    if e.LockForget? {
      assert Placed(s.heap, s.lock, e.t, s.pcs[e.t]) && Tracks(s.heap, s.pcs[e.t]);
      FreeLockTable(s);
    }
    if e.UpdateTable? {
      var pc := s.pcs[e.t];
      assert Placed(s.heap, s.lock, e.t, pc) && Tracks(s.heap, pc);
      UpdateStep(s, e.t, e.first, e.second);
      ReallocatedTable(s.counter, pc.ptr, pc.result, pc.size, e.first, e.second);
    }
  }

  /** While every allocation goes through the hooks with counting on, nothing is
      untracked and the table holds every block the program does, at its size: the
      untracked figure counts only blocks allocated past the hooks or while paused. */
  lemma {:induction false} NothingUntracked(s: System, run: seq<Event>)
    requires Inv(s) && AllTracked(s) && Legal(s, run) && forall k | 0 <= k < |run| :: AllHooked(run[k])
    ensures AllTracked(Exec(s, run)) && Inv(Exec(s, run))
    decreases |run|
  {
    if run != [] {
      StepInv(s, run[0]);
      assert AllHooked(run[0]);
      TracksStep(s, run[0]);
      NothingUntracked(Step(s, run[0]), run[1..]);
    }
  }

  // ----- while counting is paused -----

  predicate KeepsPaused(e: Event) {
    e != SetCounting(true) && (e.UpdateTable? ==> !e.first && !e.second)
  }

  ghost predicate Paused(s: System) {
    !s.counting && forall t | 0 <= t < |s.pcs| :: !s.pcs[t].Recording?
  }

  lemma PausedStep(s: System, e: Event)
    requires Paused(s) && Enabled(s, e) && KeepsPaused(e)
    ensures Paused(Step(s, e)) && Step(s, e).counter.sizes.Keys <= s.counter.sizes.Keys
  {
  }

  /** While counting is off, with no call begun before still to be recorded, the table takes
      nothing in. */
  lemma {:induction false} PausedAddsNothing(s: System, run: seq<Event>)
    requires Paused(s) && Legal(s, run) && forall k | 0 <= k < |run| :: KeepsPaused(run[k])
    ensures Exec(s, run).counter.sizes.Keys <= s.counter.sizes.Keys
    decreases |run|
  {
    if run != [] {
      assert KeepsPaused(run[0]);
      PausedStep(s, run[0]);
      PausedAddsNothing(Step(s, run[0]), run[1..]);
    }
  }
}
