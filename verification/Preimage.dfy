/** How a digest's input is put together: each component framed by its length, and
    integers spelled in decimal. Strings are sequences of bytes. */
module Preimage {
  // ----- decimal integers -----

  function Digit(d: int): char
    requires 0 <= d < 10
  {
    ('0' as int + d) as char
  }

  function Digits(n: nat): (s: string)
    ensures |s| > 0
  {
    if n < 10 then [Digit(n)] else Digits(n / 10) + [Digit(n % 10)]
  }

  /** The number a run of digits spells. */
  function Spelled(s: string): int {
    if s == [] then 0 else Spelled(s[..|s| - 1]) * 10 + (s[|s| - 1] as int - '0' as int)
  }

  lemma {:induction false} SpelledDigits(n: nat)
    ensures Spelled(Digits(n)) == n
    ensures Digits(n)[0] != '-'
  {
    if n >= 10 {
      SpelledDigits(n / 10);
      assert Digits(n)[..|Digits(n)| - 1] == Digits(n / 10);
    } else {
      assert Spelled([]) == 0;
    }
  }

  /** The canonical spelling of an integer in a preimage. */
  function Decimal(n: int): string {
    if n < 0 then "-" + Digits(-n) else Digits(n)
  }

  /** No two integers are spelled alike. */
  lemma DecimalInjective(m: int, n: int)
    requires Decimal(m) == Decimal(n)
    ensures m == n
  {
    SpelledDigits(if m < 0 then -m else m);
    SpelledDigits(if n < 0 then -n else n);
    if m < 0 && n < 0 {
      assert Decimal(m)[1..] == Digits(-m) && Decimal(n)[1..] == Digits(-n);
    }
  }

  // ----- length frames -----

  /** n as k bytes, the highest first. */
  function BigEndian(n: nat, k: nat): (s: string)
    ensures |s| == k
  {
    if k == 0 then [] else BigEndian(n / 256, k - 1) + [(n % 256) as char]
  }

  function Power256(k: nat): nat {
    if k == 0 then 1 else 256 * Power256(k - 1)
  }

  /** The number that bytes are, the highest first. */
  function Read(s: string): int {
    if s == [] then 0 else Read(s[..|s| - 1]) * 256 + s[|s| - 1] as int
  }

  lemma {:induction false} ReadsBack(n: nat, k: nat)
    requires n < Power256(k)
    ensures Read(BigEndian(n, k)) == n
  {
    if k > 0 {
      ReadsBack(n / 256, k - 1);
      assert BigEndian(n, k)[..k - 1] == BigEndian(n / 256, k - 1);
    }
  }

  const LENGTH_BYTES: nat := 8
  /** One more than the longest length of 64 bits. */
  const LENGTH_LIMIT: nat := 0x1_0000_0000_0000_0000

  lemma LengthsFit(k: nat)
    requires k == LENGTH_BYTES
    ensures Power256(k) == LENGTH_LIMIT
  {
    assert Power256(k) == 256 * 256 * Power256(k - 2);
    assert Power256(k - 2) == 256 * 256 * Power256(k - 4);
    assert Power256(k - 4) == 256 * 256 * Power256(k - 6);
    assert Power256(k - 6) == 256 * 256 * Power256(k - 8);
  }

  /** What a hasher absorbs for one component. */
  function Frame(component: string): string {
    BigEndian(|component|, LENGTH_BYTES) + component
  }

  function Absorbed(components: seq<string>): string {
    if components == [] then [] else Frame(components[0]) + Absorbed(components[1..])
  }

  /** A component's length fits the 64 bits it is framed with. */
  ghost predicate Framable(components: seq<string>) {
    forall k | 0 <= k < |components| :: |components[k]| < LENGTH_LIMIT
  }

  lemma FrameCancels(a: string, x: string, b: string, y: string)
    requires |a| < LENGTH_LIMIT && |b| < LENGTH_LIMIT
    requires Frame(a) + x == Frame(b) + y
    ensures a == b && x == y
  {
    LengthsFit(LENGTH_BYTES);
    FrameCancelsAt(a, x, b, y, LENGTH_BYTES);
  }

  lemma FrameCancelsAt(a: string, x: string, b: string, y: string, width: nat)
    requires width == LENGTH_BYTES && |a| < Power256(width) && |b| < Power256(width)
    requires Frame(a) + x == Frame(b) + y
    ensures a == b && x == y
  {
    var whole := Frame(a) + x;
    assert whole[..width] == BigEndian(|a|, width);
    assert (Frame(b) + y)[..width] == BigEndian(|b|, width);
    ReadsBack(|a|, width);
    ReadsBack(|b|, width);
    assert a == whole[width..width + |a|];
    assert b == (Frame(b) + y)[width..width + |b|];
    assert x == whole[width + |a|..];
    assert y == (Frame(b) + y)[width + |b|..];
  }

  lemma SomethingAbsorbed(a: seq<string>)
    ensures a != [] ==> |Absorbed(a)| >= LENGTH_BYTES
  {
  }

  /** No arrangement of bytes forges a component boundary: what a hasher absorbs has
      one reading. */
  lemma {:induction false} AbsorbedInjective(a: seq<string>, b: seq<string>)
    requires Framable(a) && Framable(b)
    requires Absorbed(a) == Absorbed(b)
    ensures a == b
    decreases |a|
  {
    if a == [] || b == [] {
      SomethingAbsorbed(a);
      SomethingAbsorbed(b);
    } else {
      FrameCancels(a[0], Absorbed(a[1..]), b[0], Absorbed(b[1..]));
      assert Framable(a[1..]) by { assert forall k | 0 <= k < |a| - 1 :: a[1..][k] == a[k + 1]; }
      assert Framable(b[1..]) by { assert forall k | 0 <= k < |b| - 1 :: b[1..][k] == b[k + 1]; }
      AbsorbedInjective(a[1..], b[1..]);
      assert a == [a[0]] + a[1..] && b == [b[0]] + b[1..];
    }
  }

  // ----- lists of components -----

  /** An encoding whose end can be told from what follows it. */
  ghost predicate PrefixFree<T(!new)>(e: T -> seq<string>) {
    forall x, y, r, s :: e(x) + r == e(y) + s ==> x == y && r == s
  }

  function Flat<T>(e: T -> seq<string>, xs: seq<T>): seq<string> {
    if xs == [] then [] else e(xs[0]) + Flat(e, xs[1..])
  }

  /** A list is its count and then its elements. */
  function Counted<T>(e: T -> seq<string>, xs: seq<T>): seq<string> {
    [Decimal(|xs|)] + Flat(e, xs)
  }

  lemma {:induction false} FlatCancels<T(!new)>(e: T -> seq<string>, xs: seq<T>, ys: seq<T>,
                                                r: seq<string>, s: seq<string>)
    requires PrefixFree(e) && |xs| == |ys| && Flat(e, xs) + r == Flat(e, ys) + s
    ensures xs == ys && r == s
    decreases |xs|
  {
    if xs == [] {
      assert Flat(e, xs) + r == r && Flat(e, ys) + s == s;
    } else {
      var a, b := Flat(e, xs[1..]) + r, Flat(e, ys[1..]) + s;
      assert e(xs[0]) + a == Flat(e, xs) + r;
      assert e(ys[0]) + b == Flat(e, ys) + s;
      assert xs[0] == ys[0] && a == b;
      FlatCancels(e, xs[1..], ys[1..], r, s);
      assert xs == [xs[0]] + xs[1..] && ys == [ys[0]] + ys[1..];
    }
  }

  lemma HeadCancels(a: string, r: seq<string>, b: string, s: seq<string>)
    requires [a] + r == [b] + s
    ensures a == b && r == s
  {
    assert ([a] + r)[0] == a && ([b] + s)[0] == b;
    assert ([a] + r)[1..] == r && ([b] + s)[1..] == s;
  }

  /** Counting a list of prefix-free elements makes the list prefix-free. */
  lemma CountedCancels<T(!new)>(e: T -> seq<string>, xs: seq<T>, ys: seq<T>, r: seq<string>, s: seq<string>)
    requires PrefixFree(e) && Counted(e, xs) + r == Counted(e, ys) + s
    ensures xs == ys && r == s
  {
    assert [Decimal(|xs|)] + (Flat(e, xs) + r) == Counted(e, xs) + r;
    assert [Decimal(|ys|)] + (Flat(e, ys) + s) == Counted(e, ys) + s;
    HeadCancels(Decimal(|xs|), Flat(e, xs) + r, Decimal(|ys|), Flat(e, ys) + s);
    DecimalInjective(|xs|, |ys|);
    FlatCancels(e, xs, ys, r, s);
  }

  lemma {:induction false} FlatAppend<T>(e: T -> seq<string>, xs: seq<T>, x: T)
    ensures Flat(e, xs + [x]) == Flat(e, xs) + e(x)
    decreases |xs|
  {
    if xs == [] {
      assert [] + [x] == [x];
      assert Flat(e, [x]) == e(x) + Flat(e, []);
    } else {
      assert (xs + [x])[1..] == xs[1..] + [x];
      FlatAppend(e, xs[1..], x);
    }
  }
}
