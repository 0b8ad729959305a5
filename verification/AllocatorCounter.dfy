/** The counter a benchmark installs under the parser library's allocator: a table
    of requested sizes by address, the bytes it adds up to, their peak, and the
    number of frees of addresses it never saw. */
module AllocatorCounter {
  type Address = nat

  datatype Counter = Counter(sizes: map<Address, nat>, live: int, peak: int, untracked: nat)

  const EMPTY: Counter := Counter(map[], 0, 0, 0)

  /** The sizes a table holds, added up. */
  ghost function Total(m: map<Address, nat>): nat {
    if m == map[] then 0
    else
      var p :| p in m;
      m[p] + Total(m - {p})
  }

  lemma {:induction false} TotalWithout(m: map<Address, nat>, p: Address)
    requires p in m
    ensures Total(m) == m[p] + Total(m - {p})
    decreases |m|
  {
    var q :| q in m && Total(m) == m[q] + Total(m - {q});
    if p != q {
      TotalWithout(m - {q}, p);
      TotalWithout(m - {p}, q);
      assert m - {q} - {p} == m - {p} - {q};
    }
  }

  lemma TotalWith(m: map<Address, nat>, p: Address, size: nat)
    requires p !in m
    ensures Total(m[p := size]) == size + Total(m)
  {
    TotalWithout(m[p := size], p);
    assert m[p := size] - {p} == m;
  }

  /** The live figure is the table's total and the peak has reached it. */
  ghost predicate Exact(c: Counter) {
    c.live == Total(c.sizes) && c.live <= c.peak
  }

  function Recorded(c: Counter, p: Address, size: nat): Counter {
    var live := c.live + size;
    Counter(c.sizes[p := size], live, if live > c.peak then live else c.peak, c.untracked)
  }

  function Forgotten(c: Counter, p: Address): Counter {
    if p in c.sizes then c.(sizes := c.sizes - {p}, live := c.live - c.sizes[p])
    else c.(untracked := c.untracked + 1)
  }

  /** What libc's realloc came back with. */
  datatype Returned = Null | InPlace | Moved(p: Address)

  /** The table after a realloc that did not fail: a moved block is recorded before
      the old one goes, a resized one after. Each of the two reads of the counting
      switch may see either value. */
  function Reallocated(c: Counter, ptr: Address, r: Returned, size: nat, first: bool, second: bool): Counter {
    if r.Moved? && first then Forgotten(Recorded(c, r.p, size), ptr)
    else if !r.Null? && second then Recorded(Forgotten(c, ptr), if r.Moved? then r.p else ptr, size)
    else Forgotten(c, ptr)
  }

  function Higher(a: int, b: int): int { if a >= b then a else b }

  /** Recording an address the table does not hold keeps the figures exact. */
  lemma RecordExact(c: Counter, p: Address, size: nat)
    requires Exact(c) && p !in c.sizes
    ensures Exact(Recorded(c, p, size))
    ensures Recorded(c, p, size).live == c.live + size && Recorded(c, p, size).untracked == c.untracked
    ensures Recorded(c, p, size).peak == Higher(c.peak, c.live + size)
  {
    TotalWith(c.sizes, p, size);
  }

  /** Forgetting never takes live below zero. */
  lemma ForgetExact(c: Counter, p: Address)
    requires Exact(c)
    ensures Exact(Forgotten(c, p)) && 0 <= Forgotten(c, p).live <= c.live
    ensures Forgotten(c, p).peak == c.peak
  {
    if p in c.sizes { TotalWithout(c.sizes, p); }
  }

  /** Recording over an entry loses its bytes for good: why no caller may do it. */
  lemma OverwriteLoses(c: Counter, p: Address, size: nat)
    requires Exact(c) && p in c.sizes && c.sizes[p] > 0
    ensures !Exact(Recorded(c, p, size))
  {
    TotalWithout(c.sizes, p);
    TotalWithout(Recorded(c, p, size).sizes, p);
    assert Recorded(c, p, size).sizes - {p} == c.sizes - {p};
  }

  /** Whatever the switch reads, a realloc leaves the old block out of the table, and
      the new one in it with its new size just when a read that matters saw counting on. */
  lemma ReallocatedTable(c: Counter, ptr: Address, r: Returned, size: nat, first: bool, second: bool)
    requires Exact(c) && (r.Moved? ==> r.p != ptr && r.p !in c.sizes)
    ensures Exact(Reallocated(c, ptr, r, size, first, second))
    ensures Reallocated(c, ptr, r, size, first, second).peak ==
      if r.Moved? && first then Higher(c.peak, c.live + size)
      else Higher(c.peak, Reallocated(c, ptr, r, size, first, second).live)
    ensures Reallocated(c, ptr, r, size, first, second).sizes ==
      if r.Moved? && (first || second) then (c.sizes - {ptr})[r.p := size]
      else if r.InPlace? && second then c.sizes[ptr := size]
      else c.sizes - {ptr}
    ensures Reallocated(c, ptr, r, size, first, second).untracked == c.untracked + (if ptr in c.sizes then 0 else 1)
  {
    if r.Moved? && first {
      RecordExact(c, r.p, size);
      ForgetExact(Recorded(c, r.p, size), ptr);
      assert c.sizes[r.p := size] - {ptr} == (c.sizes - {ptr})[r.p := size];
    } else {
      ForgetExact(c, ptr);
      assert ptr !in c.sizes ==> c.sizes - {ptr} == c.sizes;
      assert (c.sizes - {ptr})[ptr := size] == c.sizes[ptr := size];
      if !r.Null? && second { RecordExact(Forgotten(c, ptr), if r.Moved? then r.p else ptr, size); }
    }
  }

  /** A counted move is measured holding both blocks, as the process did. */
  lemma MoveCountsBoth(c: Counter, ptr: Address, p: Address, size: nat, second: bool)
    requires Exact(c) && p !in c.sizes && ptr in c.sizes && p != ptr
    ensures Reallocated(c, ptr, Moved(p), size, true, second).peak == Higher(c.peak, c.live + size)
    ensures Reallocated(c, ptr, Moved(p), size, true, second).live == c.live - c.sizes[ptr] + size
  {
  }

  /** The counter's fields, changed in place under its mutex. */
  class NativeCounter {
    var sizes: map<Address, nat>
    var live: int
    var peak: int
    var untracked: nat

    function Value(): Counter
      reads this
    {
      Counter(sizes, live, peak, untracked)
    }

    constructor ()
      ensures Value() == EMPTY
    {
      sizes, live, peak, untracked := map[], 0, 0, 0;
    }

    method Record(p: Address, size: nat)
      modifies this
      ensures Value() == Recorded(old(Value()), p, size)
      ensures sizes == old(sizes)[p := size] && live == old(live) + size && untracked == old(untracked)
      ensures peak == Higher(old(peak), old(live) + size)
    {
      sizes := sizes[p := size];
      live := live + size;
      if live > peak { peak := live; }
    }

    method Forget(p: Address)
      modifies this
      ensures Value() == Forgotten(old(Value()), p)
      ensures sizes == old(sizes) - {p} && peak == old(peak)
      ensures live == old(live) - (if p in old(sizes) then old(sizes)[p] else 0)
      ensures untracked == old(untracked) + (if p in old(sizes) then 0 else 1)
    {
      if p !in sizes {
        untracked := untracked + 1;
        return;
      }
      live := live - sizes[p];
      sizes := sizes - {p};
    }

    /** The part of a realloc after libc's, still under the mutex. */
    method Reallocate(ptr: Address, r: Returned, size: nat, first: bool, second: bool)
      modifies this
      ensures Value() == Reallocated(old(Value()), ptr, r, size, first, second)
    {
      if r.Moved? && first {
        Record(r.p, size);
        Forget(ptr);
      } else if !r.Null? && second {
        Forget(ptr);
        Record(if r.Moved? then r.p else ptr, size);
      } else {
        Forget(ptr);
      }
    }

    method ResetPeak() returns (now: int)
      modifies this
      ensures Value() == old(Value()).(peak := old(live)) && now == live
    {
      peak := live;
      now := live;
    }
  }
}
