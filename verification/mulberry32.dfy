/**
  The seeded random number generator: the `xmur3` string hash turns a seed
  string into a 32-bit state, and `mulberry32` turns that state into a stream
  of numbers in [0, 1).

  JavaScript's bitwise operators work on 32-bit patterns, so every word here
  is a `bv32`: `Math.imul` is the low 32 bits of the product (`*` on `bv32`),
  `>>>` is the logical shift `>>`, `+ ... | 0` is addition modulo 2^32, and
  `| 0` / `>>> 0` change only how the same 32 bits are read as a number. The
  generator's closure state is threaded explicitly: a draw takes a state and
  returns the next one.
*/
module Mulberry32 {

  import opened Wrappers

  /** A JavaScript string as `charCodeAt` sees it: UTF-16 code units. */
  type CodeUnits = seq<bv16>

  const TwoPow32: int := 0x1_0000_0000

  /** What each `mulberry32` call adds to its state. */
  const Increment: bv32 := 0x6D2B79F5

  // ---------------------------------------------------------------------
  // xmur3
  // ---------------------------------------------------------------------

  /** The hash's starting value, `1779033703 ^ str.length` (`^` reads the
      length as a 32-bit integer). */
  function HashInit(length: nat): bv32 {
    1779033703 ^ ((length % TwoPow32) as bv32)
  }

  /** `h << 13 | h >>> 19`. */
  function RotL13(h: bv32): bv32 {
    (h << 13) | (h >> 19)
  }

  /** `h >>> 13 | h << 19`, the rotation back. */
  function RotR13(h: bv32): bv32 {
    (h >> 13) | (h << 19)
  }

  /** One iteration of the `xmur3` loop: fold the code unit `c` into `h`
      (`Math.imul(h ^ c, 3432918353)`, then the rotation). */
  function Absorb(h: bv32, c: bv16): bv32 {
    RotL13((h ^ (c as bv32)) * 3432918353)
  }

  /** The loop of `xmur3`, over the code units in string order. */
  function Fold(h: bv32, s: CodeUnits): bv32
    decreases |s|
  {
    if s == [] then h else Fold(Absorb(h, s[0]), s[1..])
  }

  /** The body of the closure `xmur3` returns: two xor-shift/multiply rounds
      and a final xor-shift. */
  function Avalanche(h: bv32): bv32 {
    var h1 := (h ^ (h >> 16)) * 2246822507;
    var h2 := (h1 ^ (h1 >> 13)) * 3266489909;
    h2 ^ (h2 >> 16)
  }

  /** The first output of the closure `xmur3(str)` returns, as a 32-bit
      word. */
  function Xmur3Word(str: CodeUnits): bv32 {
    Avalanche(Fold(HashInit(|str|), str))
  }

  /** `xmur3(str)()`: the first (and only used) output of the hash, read as an
      unsigned integer by `>>> 0`. */
  function Xmur3(str: CodeUnits): (r: nat)
    ensures r < TwoPow32
    ensures r == Xmur3Word(str) as int
  {
    Xmur3Word(str) as int
  }

  // ---------------------------------------------------------------------
  // mulberry32
  // ---------------------------------------------------------------------

  /** The generator's initial state for a seed string: the first `xmur3`
      output (`a |= 0` re-reads the same bits as signed). When no seed is
      given, trianglify's `mulberry32` makes one from `Math.random()`; that
      string is `entropy`, supplied by the caller. */
  function InitialState(seed: Option<CodeUnits>, entropy: CodeUnits): (a: bv32)
    ensures a as int == Xmur3(seed.GetOr(entropy))
    ensures seed.Some? ==> a as int == Xmur3(seed.value)
    ensures seed.None? ==> a as int == Xmur3(entropy)
  {
    Xmur3Word(seed.GetOr(entropy))
  }

  /** `a = a + 0x6D2B79F5 | 0`. */
  function Step(a: bv32): bv32 {
    a + Increment
  }

  /** The 32-bit word a call computes from its (already incremented) state. */
  function Output(a: bv32): bv32 {
    var t := (a ^ (a >> 15)) * (1 | a);
    var t' := (t + (t ^ (t >> 7)) * (61 | t)) ^ t;
    t' ^ (t' >> 14)
  }

  /** An unsigned 32-bit word divided by 2^32. */
  function ToUnit(u: bv32): (r: real)
    ensures 0.0 <= r < 1.0
    ensures r * 4294967296.0 == u as int as real
  {
    (u as int) as real / 4294967296.0
  }

  /** The result of one call of the generator: the number it returns and the
      state it leaves behind. */
  datatype Draw = Draw(value: real, state: bv32)

  /** One call of the closure `mulberry32` returns: it advances the state and
      returns a value computed from the new state alone. */
  function Next(a: bv32): (d: Draw)
    ensures 0.0 <= d.value < 1.0
    ensures d.value == ToUnit(Output(d.state))
    ensures d.state == Step(a) == Advance(a, 1)
  {
    var a' := Step(a);
    Draw(ToUnit(Output(a')), a')
  }

  /** The state after `n` calls. */
  function Advance(a: bv32, n: nat): bv32
    decreases n
  {
    if n == 0 then a else Advance(Step(a), n - 1)
  }

  /** The values of the next `n` calls, in order. */
  function Stream(a: bv32, n: nat): seq<real>
    decreases n
  {
    if n == 0 then [] else [Next(a).value] + Stream(Next(a).state, n - 1)
  }

  /** A draw moved to be centred on zero and scaled: `(random() - 0.5) * spread`,
      the shape both the point grid and `sparkle` use. */
  function Centered(r: real, spread: real): real {
    (r - 0.5) * spread
  }

  // ---------------------------------------------------------------------
  // Properties
  // ---------------------------------------------------------------------

  /** Known values of the hash: `xmur3("abc")()` is 0x6add916e. */
  lemma Xmur3Abc()
    ensures Xmur3Word([0x61, 0x62, 0x63]) == 0x6add916e
  {
    var s: CodeUnits := [0x61, 0x62, 0x63];
    assert HashInit(|s|) == 0x6a09e664;
    assert Absorb(0x6a09e664, 0x61) == 0xd512a7b4;
    assert Absorb(0xd512a7b4, 0x62) == 0x7716da0f;
    assert Absorb(0x7716da0f, 0x63) == 0x03059229;
    assert Fold(0x03059229, s[3..]) == 0x03059229;
    assert Fold(0x7716da0f, s[2..]) == 0x03059229;
    assert Fold(0xd512a7b4, s[1..]) == 0x03059229;
    assert Fold(0x6a09e664, s) == 0x03059229;
    assert Avalanche(0x03059229) == 0x6add916e;
  }

  /** `xmur3("")()` is 0x09f45f69: the finaliser applied to the initial
      state alone. */
  lemma Xmur3Empty()
    ensures Xmur3Word([]) == 0x09f45f69
  {
  }

  /** A known value of the output mix: state 0xd8090b63 gives 0xe2f7cbf5. */
  lemma OutputExample()
    ensures Output(0xd8090b63) == 0xe2f7cbf5
  {
  }

  /** The loop's `h << 13 | h >>> 19` is a rotation left by 13; rotating left
      by 19 undoes it, in both orders, so the rotation loses nothing. */
  lemma RotL13Bijective(h: bv32)
    ensures RotL13(h) == h.RotateLeft(13)
    ensures RotR13(h) == h.RotateLeft(19)
    ensures RotR13(RotL13(h)) == h
    ensures RotL13(RotR13(h)) == h
  {
  }

  /** The hash loop over a concatenation is the loop over the second part
      started where the loop over the first part ended: code units are folded
      in string order. */
  lemma {:induction false} FoldAppend(h: bv32, s: CodeUnits, t: CodeUnits)
    ensures Fold(h, s + t) == Fold(Fold(h, s), t)
    decreases |s|
  {
    if s == [] {
      assert s + t == t;
    } else {
      assert (s + t)[1..] == s[1..] + t;
      FoldAppend(Absorb(h, s[0]), s[1..], t);
    }
  }

  /** `m` calls followed by `n` calls are `m + n` calls. */
  lemma {:induction false} AdvanceAdd(a: bv32, m: nat, n: nat)
    ensures Advance(Advance(a, m), n) == Advance(a, m + n)
    decreases m
  {
    if m > 0 {
      AdvanceAdd(Step(a), m - 1, n);
    }
  }

  /** The values of `m + n` calls are those of the first `m` followed by those
      of the next `n`: the stream is one sequence, never reset. */
  lemma {:induction false} StreamAppend(a: bv32, m: nat, n: nat)
    ensures Stream(a, m + n) == Stream(a, m) + Stream(Advance(a, m), n)
    decreases m
  {
    if m > 0 {
      var b := Next(a).state;
      var v := [Next(a).value];
      StreamAppend(b, m - 1, n);
      calc {
        Stream(a, m + n);
        v + Stream(b, m - 1 + n);
        v + (Stream(b, m - 1) + Stream(Advance(b, m - 1), n));
        { ConcatAssoc(v, Stream(b, m - 1), Stream(Advance(b, m - 1), n)); }
        (v + Stream(b, m - 1)) + Stream(Advance(b, m - 1), n);
        Stream(a, m) + Stream(Advance(a, m), n);
      }
    }
  }

  /** Concatenation is associative. */
  lemma ConcatAssoc(x: seq<real>, y: seq<real>, z: seq<real>)
    ensures x + (y + z) == (x + y) + z
  {
  }

  /** A stream of `n + 2` calls starts with the values of two calls and
      goes on as the stream after them. */
  lemma StreamPair(a: bv32, n: nat)
    ensures var b := Next(Next(a).state).state;
      Stream(a, n + 2) == [Next(a).value, Next(Next(a).state).value] + Stream(b, n)
  {
    assert Stream(a, n + 2) == [Next(a).value] + Stream(Next(a).state, n + 1);
  }

  /** A stream of `n` calls has `n` values, and its `k`-th value is the value
      of one call made after `k` earlier calls. */
  lemma {:induction false} StreamIndex(a: bv32, n: nat, k: nat)
    requires k < n
    ensures |Stream(a, n)| == n
    ensures Stream(a, n)[k] == Next(Advance(a, k)).value
    decreases k
  {
    StreamLength(a, n);
    if k > 0 {
      StreamIndex(Next(a).state, n - 1, k - 1);
    }
  }

  lemma {:induction false} StreamLength(a: bv32, n: nat)
    ensures |Stream(a, n)| == n
    decreases n
  {
    if n > 0 {
      StreamLength(Next(a).state, n - 1);
    }
  }

  /** Every value of a stream lies in [0, 1): it is never 1, which is tighter
      than the "[0, 1]" of the usage comment in `mulberry32.ts`. */
  lemma StreamInUnitInterval(a: bv32, n: nat)
    ensures forall k :: 0 <= k < |Stream(a, n)| ==> 0.0 <= Stream(a, n)[k] < 1.0
  {
    StreamLength(a, n);
    forall k | 0 <= k < n
      ensures 0.0 <= Stream(a, n)[k] < 1.0
    {
      StreamIndex(a, n, k);
    }
  }

  /** A given seed string fixes the whole stream, whatever the entropy source
      would have produced; two seeds with the same hash give the same stream. */
  lemma SeededStreamDeterministic(s1: CodeUnits, s2: CodeUnits, e1: CodeUnits, e2: CodeUnits, n: nat)
    requires Fold(HashInit(|s1|), s1) == Fold(HashInit(|s2|), s2)
    ensures Stream(InitialState(Some(s1), e1), n) == Stream(InitialState(Some(s2), e2), n)
  {
  }

  /** A centred draw stays within half the spread of zero, reaching the lower
      end but not the upper one; a zero spread gives exactly zero. */
  lemma CenteredBounds(r: real, spread: real)
    requires 0.0 <= r < 1.0
    requires spread >= 0.0
    ensures -spread / 2.0 <= Centered(r, spread) <= spread / 2.0
    ensures spread > 0.0 ==> Centered(r, spread) < spread / 2.0
    ensures spread == 0.0 ==> Centered(r, spread) == 0.0
  {
    MulNonneg(1.0 - r, spread);
    MulNonneg(r, spread);
    if spread > 0.0 {
      MulPos(1.0 - r, spread);
    }
  }

  lemma MulNonneg(x: real, y: real)
    requires x >= 0.0 && y >= 0.0
    ensures x * y >= 0.0
  {
  }

  lemma MulPos(x: real, y: real)
    requires x > 0.0 && y > 0.0
    ensures x * y > 0.0
  {
  }
}
