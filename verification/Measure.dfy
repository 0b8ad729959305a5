/** Measuring a persisted entry. The entry's own length depends on the numbers
    being measured, so the size is a fixed point found by iteration. */
module Measure {
  import opened Int64

  /** The largest number of rounds the measurement is allowed. */
  const SIZE_ITERATIONS := 8

  /** A candidate as far as its size goes: its file's size, and the length of its
      JSON entry without the digits of the ordinal and the two estimates. */
  datatype Candidate = Candidate(sizeBytes: int, fixedBytes: nat)

  datatype Entry = Entry(ordinal: nat, estimatedBytes: nat, estimatedTokens: nat)

  datatype Result<T> = Ok(value: T) | ArgumentInvalid | Overflow | Unsettled

  /** The length of n in decimal. */
  function Digits(n: nat): (d: nat)
    ensures d >= 1 && (n >= 1 ==> d <= n)
  {
    if n < 10 then 1 else 1 + Digits(n / 10)
  }

  /** The token estimate of n bytes: a third, rounded up. */
  function Tokens(n: nat): (t: nat)
    ensures n <= 3 * t <= n + 2
  {
    n / 3 + if n % 3 != 0 then 1 else 0
  }

  /** The base64 length of n bytes, refused exactly when it does not fit int64. */
  function WireEncodedBytes(n: int): (r: Result<nat>)
    ensures n < 0 <==> r.ArgumentInvalid?
    ensures n >= 0 ==> (r.Ok? <==> 4 * Tokens(n) <= MAX) && (r.Ok? ==> r.value == 4 * Tokens(n))
    ensures !r.Unsettled?
  {
    if n < 0 then ArgumentInvalid
    else
      var groups := n / 3 + if n % 3 != 0 then 1 else 0;
      if groups > MAX / 4 then Overflow else Ok(groups * 4)
  }

  function SerializedBytes(c: Candidate, e: Entry): nat {
    c.fixedBytes + Digits(e.ordinal) + Digits(e.estimatedBytes) + Digits(e.estimatedTokens)
  }

  // ----- the iteration -----

  /** The next size from x, where k is everything that does not depend on it. */
  function Next(k: nat, x: nat): nat {
    k + Digits(x) + Digits(Tokens(x))
  }

  function Iterate(k: nat, i: nat): nat {
    if i == 0 then 0 else Next(k, Iterate(k, i - 1))
  }

  lemma {:induction false} DigitsMonotone(a: nat, b: nat)
    requires a <= b
    ensures Digits(a) <= Digits(b)
    decreases b
  {
    if b >= 10 { DigitsMonotone(a / 10, b / 10); }
  }

  lemma NextMonotone(k: nat, a: nat, b: nat)
    requires a <= b
    ensures Next(k, a) <= Next(k, b)
  {
    DigitsMonotone(a, b);
    DigitsMonotone(Tokens(a), Tokens(b));
  }

  lemma {:induction false} IterateGrows(k: nat, i: nat)
    ensures Iterate(k, i) <= Iterate(k, i + 1)
  {
    if i > 0 {
      IterateGrows(k, i - 1);
      NextMonotone(k, Iterate(k, i - 1), Iterate(k, i));
    }
  }

  /** Tripling a size lengthens it by at most one digit. */
  lemma TripleDigits(a: nat, b: nat)
    requires 1 <= a && b <= 3 * a
    ensures Digits(b) <= Digits(a) + 1
  {
    DigitsMonotone(b, 10 * a);
  }

  function Power10(m: nat): nat {
    if m == 0 then 1 else 10 * Power10(m - 1)
  }

  lemma {:induction false} PowerOutgrows(m: nat)
    ensures Power10(m) > m
  {
    if m > 0 { PowerOutgrows(m - 1); }
  }

  /** What a number of digits says of a number. */
  lemma {:induction false} DigitsBound(n: nat)
    ensures n < Power10(Digits(n)) && (n > 0 ==> n >= Power10(Digits(n) - 1))
  {
    if n >= 10 { DigitsBound(n / 10); }
  }

  /** Both lengths grow only over a step longer than the two together: a power of ten
      and three times another are further apart than that. */
  lemma BothLengthsGrow(x: nat, y: nat)
    requires 2 <= x <= y && Digits(y) > Digits(x) && Digits(Tokens(y)) > Digits(Tokens(x))
    ensures y > x + Digits(x) + Digits(Tokens(x))
  {
    PowerBetween(x, y);
    PowerBetween(Tokens(x), Tokens(y));
    LengthGap(x);
    FarApart(x, y, Digits(x), Digits(Tokens(x)), Power10(Digits(x)), Power10(Digits(Tokens(x))));
  }

  /** A power of ten stands between a number and a longer one. */
  lemma PowerBetween(x: nat, y: nat)
    requires Digits(y) > Digits(x)
    ensures x < Power10(Digits(x)) <= y
  {
    AtPower(y, Digits(x));
    DigitsBound(x);
  }

  /** A number has as many digits as its token estimate, or one more. */
  lemma LengthGap(x: nat)
    requires x >= 2
    ensures var a, b := Digits(x), Digits(Tokens(x));
      && Power10(b) > b
      && ((a == b && Power10(a) == Power10(b)) || (a == b + 1 && Power10(a) == 10 * Power10(b)))
  {
    var b := Digits(Tokens(x));
    PowerOutgrows(b);
    DigitsMonotone(Tokens(x), x);
    TripleDigits(Tokens(x), x);
    assert Power10(b + 1) == 10 * Power10(b);
  }

  lemma FarApart(x: nat, y: nat, a: nat, b: nat, ta: nat, tb: nat)
    requires x < ta <= y && Tokens(x) < tb <= Tokens(y)
    requires tb > b && ((a == b && ta == tb) || (a == b + 1 && ta == 10 * tb))
    ensures y > x + a + b
  {
  }

  /** A number with more than m digits is at least the m-th power of ten. */
  lemma {:induction false} AtPower(n: nat, m: nat)
    requires Digits(n) > m >= 1
    ensures n >= Power10(m)
  {
    if m > 1 { AtPower(n / 10, m - 1); }
  }

  /** A length grows by no more than a digit over that step. */
  lemma OneDigitMore(x: nat, y: nat)
    requires 2 <= x <= y <= x + Digits(x) + Digits(Tokens(x))
    ensures Digits(y) <= Digits(x) + 1 && Digits(Tokens(y)) <= Digits(Tokens(x)) + 1
  {
    DigitsMonotone(Tokens(x), x);
    TripleDigits(x, y);
    TripleDigits(Tokens(x), Tokens(y));
  }

  /** The third size is the last, from the three as numbers. */
  lemma ThirdIsLast(k: nat, x1: nat, x2: nat, x3: nat)
    requires 2 <= x1 == k + 2 <= x2 <= x3 && x2 == Next(k, x1) && x3 == Next(k, x2)
    ensures Next(k, x3) == x3
  {
    DigitsMonotone(x1, x2);
    DigitsMonotone(Tokens(x1), Tokens(x2));
    DigitsMonotone(x2, x3);
    DigitsMonotone(Tokens(x2), Tokens(x3));
    OneDigitMore(x1, x2);
    if Digits(x2) > Digits(x1) && Digits(Tokens(x2)) > Digits(Tokens(x1)) { BothLengthsGrow(x1, x2); }
    OneDigitMore(x1, x3);
    if Digits(x3) > Digits(x1) && Digits(Tokens(x3)) > Digits(Tokens(x1)) { BothLengthsGrow(x1, x3); }
  }

  /** The sizes stop changing at the third, whatever is measured. */
  lemma SettlesInThree(k: nat)
    ensures Iterate(k, 4) == Iterate(k, 3)
  {
    assert Iterate(k, 1) == Next(k, Iterate(k, 0)) == k + 2;
    IterateGrows(k, 1);
    IterateGrows(k, 2);
    ThirdIsLast(k, Iterate(k, 1), Iterate(k, 2), Iterate(k, 3));
  }

  /** Two rounds settle it if and only if the second size is written, and its tokens
      are, with as many digits as the first. */
  lemma TwoRoundsSettle(k: nat)
    ensures Iterate(k, 2) == k + Digits(k + 2) + Digits(Tokens(k + 2))
    ensures Iterate(k, 3) == Iterate(k, 2) <==>
      var second := k + Digits(k + 2) + Digits(Tokens(k + 2));
      Digits(second) == Digits(k + 2) && Digits(Tokens(second)) == Digits(Tokens(k + 2))
  {
    var x1, x2 := Iterate(k, 1), Iterate(k, 2);
    assert x1 == Next(k, Iterate(k, 0)) == k + 2 && x2 == Next(k, x1);
    IterateGrows(k, 1);
    DigitsMonotone(x1, x2);
    DigitsMonotone(Tokens(x1), Tokens(x2));
  }

  lemma {:induction false} IterateLeast(k: nat, i: nat, x: nat)
    requires Next(k, x) <= x
    ensures Iterate(k, i) <= x
  {
    if i > 0 {
      IterateLeast(k, i - 1, x);
      NextMonotone(k, Iterate(k, i - 1), x);
    }
  }

  /** b is at most every size that the next round would not enlarge. */
  ghost predicate Least(k: nat, b: nat) {
    forall x: nat | Next(k, x) <= x :: b <= x
  }

  /** The least size the next round repeats: where the iteration ends. */
  ghost function Settled(k: nat): (x: nat)
    ensures Next(k, x) == x && Least(k, x)
  {
    Ends(k);
    var x: nat :| Next(k, x) == x && Least(k, x);
    x
  }

  lemma Ends(k: nat)
    ensures Next(k, Iterate(k, 3)) == Iterate(k, 3) && Least(k, Iterate(k, 3))
  {
    SettlesInThree(k);
    forall y: nat | Next(k, y) <= y ensures Iterate(k, 3) <= y { IterateLeast(k, 3, y); }
  }

  lemma ThirdIsSettled(k: nat)
    ensures Iterate(k, 3) == Settled(k)
  {
    Ends(k);
    IterateLeast(k, 3, Settled(k));
  }

  // ----- the measurement -----

  /** What e's size is measured to be for c, with wire source bytes charged: its own
      serialized length on top of them, and the least size that is. */
  ghost predicate Measures(c: Candidate, wire: nat, e: Entry) {
    && e.estimatedBytes == wire + SerializedBytes(c, e)
    && e.estimatedTokens == Tokens(e.estimatedBytes)
    && Least(wire + c.fixedBytes + Digits(e.ordinal), e.estimatedBytes)
  }

  /** The entry's JSON is bytes in memory, whatever numbers of 64 bits are in it. */
  predicate InMemory(c: Candidate) {
    c.fixedBytes + 3 * 19 <= MAX
  }

  lemma NineteenDigits(n: nat)
    ensures Digits(n) > 19 ==> n > MAX
  {
    if Digits(n) > 19 {
      AtPower(n, 19);
      assert Power10(10) == 10_000_000_000;
      assert Power10(19) == 10_000_000_000_000_000_000;
    }
  }

  method MeasureEntry(c: Candidate, ordinal: nat, chargeSource: bool) returns (r: Result<Entry>)
    requires InMemory(c) && ordinal <= MAX
    ensures !r.Unsettled?
    ensures chargeSource && !WireEncodedBytes(c.sizeBytes).Ok? ==>
      && r.Overflow? == WireEncodedBytes(c.sizeBytes).Overflow?
      && r.ArgumentInvalid? == WireEncodedBytes(c.sizeBytes).ArgumentInvalid?
    ensures !r.Ok? && (!chargeSource || WireEncodedBytes(c.sizeBytes).Ok?) ==> r.ArgumentInvalid?
    ensures var w := WireEncodedBytes(c.sizeBytes);
      r.Ok? <==>
        && (!chargeSource || w.Ok?)
        && Settled((if chargeSource then w.value else 0) + c.fixedBytes + Digits(ordinal)) <= MAX
    ensures r.Ok? ==> r.value.ordinal == ordinal
    ensures r.Ok? ==> Measures(c, if chargeSource then WireEncodedBytes(c.sizeBytes).value else 0, r.value)
  {
    var wire := 0;
    if chargeSource {
      match WireEncodedBytes(c.sizeBytes)
      case Ok(n) => wire := n;
      case ArgumentInvalid => return ArgumentInvalid;
      case Overflow => return Overflow;
    }
    r := Iterated(c, ordinal, wire);
  }

  /** A size of an earlier round is no larger than the one the iteration ends at. */
  lemma {:induction false} IterateUpTo(k: nat, i: nat)
    ensures Iterate(k, i) <= Settled(k)
  {
    IterateLeast(k, i, Settled(k));
  }

  lemma RepeatsFromThree(k: nat, i: nat)
    requires i == 3
    ensures Iterate(k, i + 1) == Iterate(k, i)
  {
    SettlesInThree(k);
  }

  lemma WrapSign(x: nat)
    requires x < MODULUS
    ensures (Wrap(x) >= 0 <==> x <= MAX) && (x <= MAX ==> Wrap(x) == x)
  {
  }

  /** A size the next round repeats is the one the iteration ends at. */
  lemma RepeatedIsSettled(k: nat, i: nat)
    requires Iterate(k, i + 1) == Iterate(k, i)
    ensures Iterate(k, i) == Settled(k)
  {
    IterateUpTo(k, i);
  }

  lemma SizeBelowModulus(c: Candidate, e: Entry, wire: nat)
    requires InMemory(c) && e.ordinal <= MAX && e.estimatedBytes <= MAX && e.estimatedTokens <= MAX && wire <= MAX
    ensures wire + SerializedBytes(c, e) < MODULUS
  {
    NineteenDigits(e.ordinal);
    NineteenDigits(e.estimatedBytes);
    NineteenDigits(e.estimatedTokens);
  }

  /** One round in int64: its size is the iteration's next, and comes out negative
      exactly when it does not fit. */
  method Round(c: Candidate, e: Entry, wire: nat, ghost k: nat, ghost i: nat) returns (bytes: int)
    requires InMemory(c) && e.ordinal <= MAX && e.estimatedBytes <= MAX && wire <= MAX
    requires e.estimatedTokens == Tokens(e.estimatedBytes)
    requires k == wire + c.fixedBytes + Digits(e.ordinal) && e.estimatedBytes == Iterate(k, i)
    ensures bytes == Wrap(wire + SerializedBytes(c, e))
    ensures bytes >= 0 <==> Iterate(k, i + 1) <= MAX
    ensures bytes >= 0 ==> bytes == Iterate(k, i + 1)
  {
    SizeBelowModulus(c, e, wire);
    WrapSign(wire + SerializedBytes(c, e));
    bytes := Wrap(wire + SerializedBytes(c, e));
  }

  /** The size of the i-th round, which fits and so is at most the one it ends at. */
  ghost predicate AtRound(k: nat, i: int, bytes: nat) {
    0 <= i <= 3 && bytes == Iterate(k, i) <= MAX
  }

  /** What one round makes of the size, next being what it measures in int64: negative
      when the size it would end at does not fit, the same when it has ended, and the
      next round's size otherwise. */
  lemma RoundEnds(k: nat, i: int, bytes: nat, next: int)
    requires AtRound(k, i, bytes)
    requires next >= 0 <==> Iterate(k, i + 1) <= MAX
    requires next >= 0 ==> next == Iterate(k, i + 1)
    ensures next < 0 ==> Settled(k) > MAX
    ensures next >= 0 && next == bytes ==> bytes == Settled(k)
    ensures next >= 0 && next != bytes ==> AtRound(k, i + 1, next)
  {
    IterateUpTo(k, i + 1);
    if Iterate(k, i + 1) == Iterate(k, i) { RepeatedIsSettled(k, i); }
    if i == 3 { RepeatsFromThree(k, i); }
  }

  /** One round's answer: the entry when its size has stopped changing, the refusal when
      that does not fit, or the entry to try next. */
  method TryRound(c: Candidate, e: Entry, wire: nat, ghost k: nat, ghost i: int) returns (r: Result<Entry>, next: Entry)
    requires InMemory(c) && e.ordinal <= MAX && wire <= MAX && e.estimatedTokens == Tokens(e.estimatedBytes)
    requires k == wire + c.fixedBytes + Digits(e.ordinal) && AtRound(k, i, e.estimatedBytes)
    ensures !r.Overflow?
    ensures r.Ok? ==> Settled(k) <= MAX && r.value.ordinal == e.ordinal && Measures(c, wire, r.value)
    ensures r.ArgumentInvalid? ==> Settled(k) > MAX
    ensures r.Unsettled? ==> next.ordinal == e.ordinal && next.estimatedTokens == Tokens(next.estimatedBytes)
    ensures r.Unsettled? ==> AtRound(k, i + 1, next.estimatedBytes)
  {
    next := e;
    var bytes := Round(c, e, wire, k, i);
    RoundEnds(k, i, e.estimatedBytes, bytes);
    if bytes < 0 {
      return ArgumentInvalid, e;
    }
    var tokens := Tokens(bytes);
    if e.estimatedBytes == bytes && e.estimatedTokens == tokens {
      SettledMeasures(c, wire, e, k);
      return Ok(e), e;
    }
    r, next := Unsettled, e.(estimatedBytes := bytes, estimatedTokens := tokens);
  }

  method Iterated(c: Candidate, ordinal: nat, wire: nat) returns (r: Result<Entry>)
    requires InMemory(c) && ordinal <= MAX && wire <= MAX
    ensures r.Ok? || r.ArgumentInvalid?
    ensures r.Ok? <==> Settled(wire + c.fixedBytes + Digits(ordinal)) <= MAX
    ensures r.Ok? ==> r.value.ordinal == ordinal && Measures(c, wire, r.value)
  {
    var e := Entry(ordinal, 0, 0);
    ghost var k := wire + c.fixedBytes + Digits(ordinal);
    var i := 0;
    r := Unsettled;
    while i < SIZE_ITERATIONS
      invariant e.ordinal == ordinal && e.estimatedTokens == Tokens(e.estimatedBytes)
      invariant AtRound(k, i, e.estimatedBytes) && r.Unsettled?
    {
      r, e := TryRound(c, e, wire, k, i);
      if !r.Unsettled? { return; }
      i := i + 1;
    }
  }

  lemma SettledMeasures(c: Candidate, wire: nat, e: Entry, k: nat)
    requires k == wire + c.fixedBytes + Digits(e.ordinal) && e.estimatedBytes == Settled(k)
    requires e.estimatedTokens == Tokens(e.estimatedBytes)
    ensures Measures(c, wire, e)
  {
  }

  /** A smaller ordinal never measures larger: the sizes the budget was checked
      against bound the sizes that are stored. */
  lemma SmallerOrdinalMeasuresNoLarger(c: Candidate, wire: nat, e: Entry, later: Entry)
    requires Measures(c, wire, e) && Measures(c, wire, later) && e.ordinal <= later.ordinal
    ensures e.estimatedBytes <= later.estimatedBytes && e.estimatedTokens <= later.estimatedTokens
  {
    DigitsMonotone(e.ordinal, later.ordinal);
    assert Next(wire + c.fixedBytes + Digits(e.ordinal), later.estimatedBytes) <= later.estimatedBytes;
  }

  /** Two rounds do not always settle it: an entry whose JSON is 994 bytes but for its
      estimates measures 996 and 1000 before the 1001 it ends at. */
  lemma MoreThanTwoRounds()
    ensures Iterate(994, 2) == 1000 && Iterate(994, 3) == 1001
  {
    assert Digits(99) == 2 && Digits(100) == 3 && Digits(33) == 2 && Digits(9) == 1;
    assert Digits(996) == 3 && Digits(332) == 3 && Digits(1000) == 4 && Digits(334) == 3;
    assert Iterate(994, 0) == 0 && Iterate(994, 1) == 996 && Iterate(994, 2) == 1000;
  }
}
