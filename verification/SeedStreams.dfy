/**
 The seeded random streams of the bombardment rig (bombardment/seed.ts): the seed of a stream is the run's
 seed XOR the FNV-1a hash of the stream's name, and mulberry32 turns it into numbers in [0, 1).

 A 32-bit word is its residue modulo 2^32; JavaScript's signed results stand for the same residues.
 */
module SeedStreams {

  const TWO32: int := 0x1_0000_0000

  type Word = x: int | 0 <= x < 0x1_0000_0000

  /** A UTF-16 code unit. */
  type Unit = x: int | 0 <= x < 0x1_0000

  // ---------------------------------------------------------------- bits

  function Pow2(n: nat): nat { if n == 0 then 1 else 2 * Pow2(n - 1) }

  lemma {:induction false} Pow2Times256(n: nat)
    ensures Pow2(n + 8) == 256 * Pow2(n)
  {
    assert Pow2(n + 4) == 2 * Pow2(n + 3) && Pow2(n + 3) == 2 * Pow2(n + 2);
    assert Pow2(n + 2) == 2 * Pow2(n + 1);
    assert Pow2(n + 8) == 2 * Pow2(n + 7) && Pow2(n + 7) == 2 * Pow2(n + 6);
    assert Pow2(n + 6) == 2 * Pow2(n + 5);
  }

  lemma {:induction false} Pow2Of32()
    ensures Pow2(32) == 0x1_0000_0000
  {
    Pow2Times256(0);
    Pow2Times256(8);
    Pow2Times256(16);
    Pow2Times256(24);
  }

  /** Bit by bit, for the lowest `n` bits. */
  function XorBits(a: nat, b: nat, n: nat): (r: nat)
    ensures r < Pow2(n)
  {
    if n == 0 then 0 else 2 * XorBits(a / 2, b / 2, n - 1) + (if a % 2 == b % 2 then 0 else 1)
  }

  function OrBits(a: nat, b: nat, n: nat): (r: nat)
    ensures r < Pow2(n)
  {
    if n == 0 then 0 else 2 * OrBits(a / 2, b / 2, n - 1) + (if a % 2 == 0 && b % 2 == 0 then 0 else 1)
  }

  function Xor(a: Word, b: Word): Word { Pow2Of32(); XorBits(a, b, 32) }

  function Or(a: Word, b: Word): Word { Pow2Of32(); OrBits(a, b, 32) }

  function Imul(a: Word, b: Word): Word { a * b % TWO32 }

  function Plus(a: Word, b: Word): Word { (a + b) % TWO32 }

  function ShiftRight(a: Word, n: nat): (r: Word)
    requires n < 32
  {
    Pow2IsPositive(n);
    QuotientIsSmaller(a, Pow2(n));
    a / Pow2(n)
  }

  lemma {:induction false} Pow2IsPositive(n: nat)
    ensures Pow2(n) >= 1
  {
    if n > 0 { Pow2IsPositive(n - 1); }
  }

  lemma {:induction false} QuotientIsSmaller(a: nat, d: int)
    requires d >= 1
    ensures 0 <= a / d <= a
  {
  }

  lemma {:induction false} XorBitsUndo(a: nat, x: nat, n: nat)
    requires a < Pow2(n)
    ensures XorBits(XorBits(a, x, n), x, n) == a
  {
    if n > 0 {
      var r := XorBits(a / 2, x / 2, n - 1);
      XorBitsUndo(a / 2, x / 2, n - 1);
      assert XorBits(a, x, n) / 2 == r;
    }
  }

  lemma {:induction false} XorBitsCommute(a: nat, b: nat, n: nat)
    ensures XorBits(a, b, n) == XorBits(b, a, n)
  {
    if n > 0 { XorBitsCommute(a / 2, b / 2, n - 1); }
  }

  /** XOR with a word merges no two words. */
  lemma {:induction false} XorIsInjective(a: Word, b: Word, x: Word)
    ensures Xor(a, x) == Xor(b, x) <==> a == b
    ensures Xor(x, a) == Xor(x, b) <==> a == b
  {
    hide XorBits;
    Pow2Of32();
    XorBitsUndo(a, x, 32);
    XorBitsUndo(b, x, 32);
    XorBitsCommute(a, x, 32);
    XorBitsCommute(b, x, 32);
  }

  // ---------------------------------------------------------------- odd factors

  /** A multiple of an odd number that is a multiple of 2^32 is one because the other factor is. */
  lemma {:induction false} OddFactorDropsOut(p: int, q: int, k: int, d: int, j: int)
    requires p * q == 1 + k * TWO32 && d * p == j * TWO32
    ensures d == TWO32 * (j * q - d * k)
  {
  }

  lemma {:induction false} SmallMultiple(d: int, m: int)
    requires d == TWO32 * m && -TWO32 < d < TWO32
    ensures d == 0
  {
  }

  lemma {:induction false} SameResidue(a: int, b: int) returns (j: int)
    requires a % TWO32 == b % TWO32
    ensures a - b == j * TWO32
  {
    j := a / TWO32 - b / TWO32;
  }

  // ---------------------------------------------------------------- FNV-1a

  const OFFSET: Word := 0x811c9dc5
  const PRIME: Word := 0x01000193

  function Step(h: Word, c: Unit): Word { Imul(Xor(h, c), PRIME) }

  function HashFrom(h: Word, name: seq<Unit>): Word
    decreases |name|
  {
    if name == [] then h else HashFrom(Step(h, name[0]), name[1..])
  }

  function Fnv1a(name: seq<Unit>): Word { HashFrom(OFFSET, name) }

  /** The prime times 0x359c449b is 1 modulo 2^32. */
  lemma {:induction false} TimesPrimeIsInjective(a: Word, b: Word)
    requires Imul(a, PRIME) == Imul(b, PRIME)
    ensures a == b
  {
    var j := SameResidue(a * PRIME, b * PRIME);
    var q := 0x359c449b;
    var k := PRIME * q / TWO32;
    OddFactorDropsOut(PRIME, q, k, a - b, j);
    SmallMultiple(a - b, j * q - (a - b) * k);
  }

  /** The step loses nothing: neither two running hashes nor two code units are ever merged. */
  lemma {:induction false} StepIsInjective(h: Word, g: Word, c: Unit, d: Unit)
    ensures Step(h, c) == Step(g, c) <==> h == g
    ensures Step(h, c) == Step(h, d) <==> c == d
  {
    hide Xor, Imul;
    if Step(h, c) == Step(g, c) { TimesPrimeIsInjective(Xor(h, c), Xor(g, c)); }
    if Step(h, c) == Step(h, d) { TimesPrimeIsInjective(Xor(h, c), Xor(h, d)); }
    XorIsInjective(h, g, c);
    XorIsInjective(c, d, h);
  }

  lemma {:induction false} SuffixKeepsDifference(h: Word, g: Word, suffix: seq<Unit>)
    requires h != g
    ensures HashFrom(h, suffix) != HashFrom(g, suffix)
    decreases |suffix|
  {
    hide Step;
    if suffix != [] {
      StepIsInjective(h, g, suffix[0], suffix[0]);
      SuffixKeepsDifference(Step(h, suffix[0]), Step(g, suffix[0]), suffix[1..]);
    }
  }

  lemma {:induction false} HashAppend(h: Word, a: seq<Unit>, b: seq<Unit>)
    ensures HashFrom(h, a + b) == HashFrom(HashFrom(h, a), b)
    decreases |a|
  {
    hide Step;
    if a == [] {
      assert a + b == b;
    } else {
      assert (a + b)[1..] == a[1..] + b;
      HashAppend(Step(h, a[0]), a[1..], b);
    }
  }

  /** Names that end alike have the same hash exactly when what comes before has. */
  lemma {:induction false} CommonSuffixDecidesNothing(a: seq<Unit>, b: seq<Unit>, suffix: seq<Unit>)
    ensures Fnv1a(a + suffix) == Fnv1a(b + suffix) <==> Fnv1a(a) == Fnv1a(b)
  {
    hide Step;
    HashAppend(OFFSET, a, suffix);
    HashAppend(OFFSET, b, suffix);
    if Fnv1a(a) != Fnv1a(b) { SuffixKeepsDifference(Fnv1a(a), Fnv1a(b), suffix); }
  }

  predicate DifferOnlyAt(a: seq<Unit>, b: seq<Unit>, k: nat) {
    |a| == |b| && k < |a| && a[k] != b[k] && forall i :: 0 <= i < |a| && i != k ==> a[i] == b[i]
  }

  lemma {:induction false} OneThen(h: Word, c: Unit, rest: seq<Unit>)
    ensures HashFrom(h, [c] + rest) == HashFrom(Step(h, c), rest)
  {
  }

  lemma {:induction false} OneUnitChangesHash(a: seq<Unit>, b: seq<Unit>, k: nat)
    requires DifferOnlyAt(a, b, k)
    ensures Fnv1a(a) != Fnv1a(b)
  {
    hide Step, HashFrom;
    var pre, suf := a[..k], a[k + 1..];
    assert b[..k] == pre && b[k + 1..] == suf;
    assert a == pre + ([a[k]] + suf) && b == pre + ([b[k]] + suf);
    HashAppend(OFFSET, pre, [a[k]] + suf);
    HashAppend(OFFSET, pre, [b[k]] + suf);
    var h := HashFrom(OFFSET, pre);
    OneThen(h, a[k], suf);
    OneThen(h, b[k], suf);
    StepIsInjective(h, h, a[k], b[k]);
    SuffixKeepsDifference(Step(h, a[k]), Step(h, b[k]), suf);
  }

  // ---------------------------------------------------------------- stream seeds

  function StreamSeed(seed: Word, name: seq<Unit>): Word { Xor(seed, Fnv1a(name)) }

  /** Under every seed, two names get the same stream exactly when their hashes collide. */
  lemma {:induction false} StreamsMeetIffHashesDo(seed: Word, a: seq<Unit>, b: seq<Unit>)
    ensures StreamSeed(seed, a) == StreamSeed(seed, b) <==> Fnv1a(a) == Fnv1a(b)
  {
    hide Fnv1a, Xor;
    XorIsInjective(Fnv1a(a), Fnv1a(b), seed);
  }

  /** Two names of one length that differ in a single code unit never share a stream. */
  lemma {:induction false} OneUnitChangesStream(seed: Word, a: seq<Unit>, b: seq<Unit>, k: nat)
    requires DifferOnlyAt(a, b, k)
    ensures StreamSeed(seed, a) != StreamSeed(seed, b)
  {
    hide StreamSeed;
    OneUnitChangesHash(a, b, k);
    StreamsMeetIffHashesDo(seed, a, b);
  }

  // ---------------------------------------------------------------- a collision

  lemma {:induction false} XorWithZero(a: nat, n: nat)
    requires a < Pow2(n)
    ensures XorBits(a, 0, n) == a
  {
    if n > 0 { XorWithZero(a / 2, n - 1); }
  }

  /** The word with the `k` lowest bits of `lo` under the bits of `hi`. */
  function Above(hi: nat, lo: nat, k: nat): nat { if k == 0 then hi else 2 * Above(hi, lo / 2, k - 1) + lo % 2 }

  lemma {:induction false} XorOfNextBit(x: nat, y: nat, p: nat, q: nat, n: nat)
    requires p < 2 && q < 2
    ensures XorBits(2 * x + p, 2 * y + q, n + 1) == 2 * XorBits(x, y, n) + (if p == q then 0 else 1)
  {
    assert (2 * x + p) / 2 == x && (2 * y + q) / 2 == y;
  }

  lemma {:induction false} XorByPartsStep(a: nat, b: nat, p: nat, c: nat, d: nat, q: nat, k: nat, n: nat)
    requires p < 2 && q < 2
    requires XorBits(Above(a, b, k), Above(c, d, k), k + n) == Above(XorBits(a, c, n), XorBits(b, d, k), k)
    ensures XorBits(Above(a, 2 * b + p, k + 1), Above(c, 2 * d + q, k + 1), k + 1 + n)
      == Above(XorBits(a, c, n), XorBits(2 * b + p, 2 * d + q, k + 1), k + 1)
  {
    hide XorBits, Above;
    AboveNextBit(a, b, p, k + 1);
    AboveNextBit(c, d, q, k + 1);
    XorOfNextBit(Above(a, b, k), Above(c, d, k), p, q, k + n);
    XorOfNextBit(b, d, p, q, k);
    AboveNextBit(XorBits(a, c, n), XorBits(b, d, k), if p == q then 0 else 1, k + 1);
  }

  /** XOR works on the two parts of its operands separately. */
  lemma {:induction false} XorByParts(a: nat, b: nat, c: nat, d: nat, k: nat, n: nat)
    ensures XorBits(Above(a, b, k), Above(c, d, k), k + n) == Above(XorBits(a, c, n), XorBits(b, d, k), k)
  {
    if k > 0 {
      hide XorBits, Above;
      XorByParts(a, b / 2, c, d / 2, k - 1, n);
      XorByPartsStep(a, b / 2, b % 2, c, d / 2, d % 2, k - 1, n);
      assert 2 * (b / 2) + b % 2 == b && 2 * (d / 2) + d % 2 == d;
    }
  }

  lemma {:induction false} AboveNextBit(hi: nat, lo: nat, p: nat, k: nat)
    requires k > 0 && p < 2
    ensures Above(hi, 2 * lo + p, k) == 2 * Above(hi, lo, k - 1) + p
  {
    assert (2 * lo + p) / 2 == lo;
  }

  lemma {:induction false} DoubleProduct(a: nat, b: nat)
    ensures a * (2 * b) == 2 * (a * b)
  {
  }

  lemma {:induction false} AboveIs(hi: nat, lo: nat, k: nat)
    requires lo < Pow2(k)
    ensures Above(hi, lo, k) == hi * Pow2(k) + lo
  {
    if k > 0 {
      AboveIs(hi, lo / 2, k - 1);
      DoubleProduct(hi, Pow2(k - 1));
    }
  }

  function XorUnit(a: Unit, b: Unit): Unit { Pow2Of16(); XorBits(a, b, 16) }

  lemma {:induction false} Pow2Of16()
    ensures Pow2(16) == 0x1_0000
  {
    Pow2Times256(0);
    Pow2Times256(8);
  }

  lemma {:induction false} LowerHalf(hi: Unit, lo: Unit)
    ensures Above(hi, lo, 16) == hi * 0x1_0000 + lo
  {
    Pow2Of16();
    AboveIs(hi, lo, 16);
  }

  /** A code unit meets only the lower half of a word, and can turn it into any other. */
  lemma {:induction false} XorOnHalf(hi: Unit, lo: Unit, low: Unit)
    ensures Xor(hi * 0x1_0000 + lo, XorUnit(lo, low)) == hi * 0x1_0000 + low
  {
    hide XorBits, Above;
    var c := XorUnit(lo, low);
    Pow2Of16();
    LowerHalf(hi, lo);
    LowerHalf(0, c);
    LowerHalf(hi, low);
    XorByParts(hi, lo, 0, c, 16, 16);
    XorWithZero(hi, 16);
    XorBitsCommute(lo, low, 16);
    XorBitsCommute(lo, c, 16);
    XorBitsUndo(low, lo, 16);
  }

  lemma {:induction false} StepOnHalf(hi: Unit, lo: Unit, low: Unit, next: Word)
    requires (hi * 0x1_0000 + low) * PRIME % TWO32 == next
    ensures Step(hi * 0x1_0000 + lo, XorUnit(lo, low)) == next
  {
    hide Xor, XorUnit;
    XorOnHalf(hi, lo, low);
  }

  /** U+9DC5 U+3042, and U+3F3A U+A72F. */
  function OneName(): seq<Unit> { [XorUnit(0x9dc5, 0), XorUnit(0, 0x3042)] }
  function OtherName(): seq<Unit> { [XorUnit(0x9dc5, 0xa2ff), XorUnit(0x976d, 0x3042)] }

  lemma {:induction false} BothHashes()
    ensures Fnv1a(OneName()) == Fnv1a(OtherName()) && OneName() != OtherName()
  {
    hide Step, Fnv1a, XorUnit;
    var a, b := XorUnit(0x9dc5, 0), XorUnit(0x9dc5, 0xa2ff);
    StepOnHalf(0x811c, 0x9dc5, 0, 0x3f14_0000);
    StepOnHalf(0x811c, 0x9dc5, 0xa2ff, 0x3f14_976d);
    StepOnHalf(0x3f14, 0, 0x3042, 0x8ec7_f7e6);
    StepOnHalf(0x3f14, 0x976d, 0x3042, 0x8ec7_f7e6);
    HashOfTwo(a, XorUnit(0, 0x3042));
    HashOfTwo(b, XorUnit(0x976d, 0x3042));
    assert Step(OFFSET, a) != Step(OFFSET, b);
    assert OneName()[0] == a && OtherName()[0] == b;
  }

  lemma {:induction false} HashOfTwo(c: Unit, d: Unit)
    ensures Fnv1a([c, d]) == Step(Step(OFFSET, c), d)
  {
    hide Step;
    assert [c, d][1..] == [d];
    OneThen(Step(OFFSET, c), d, []);
    assert [d] + [] == [d];
  }

  /** Streams are documented never to collide. These two names of two code units get the same one under
      every seed, so one differing unit, as in `OneUnitChangesStream`, is as far as the promise goes. */
  lemma {:induction false} SomeStreamsCollide(seed: Word)
    ensures OneName() != OtherName() && |OneName()| == |OtherName()|
    ensures StreamSeed(seed, OneName()) == StreamSeed(seed, OtherName())
  {
    hide Step, Xor, Fnv1a, XorUnit;
    BothHashes();
  }

  // ---------------------------------------------------------------- mulberry32

  const INCREMENT: Word := 0x6d2b79f5

  /** The state after so many calls. */
  function StateAfter(seed: Word, calls: nat): Word {
    if calls == 0 then seed else Plus(StateAfter(seed, calls - 1), INCREMENT)
  }

  /** The mixing of one state into one output word. */
  function Mix(state: Word): Word {
    var t := Imul(Xor(state, ShiftRight(state, 15)), Or(state, 1));
    var u := Xor(t, Plus(t, Imul(Xor(t, ShiftRight(t, 7)), Or(t, 61))));
    Xor(u, ShiftRight(u, 14))
  }

  function Output(state: Word): real { Mix(state) as real / 4294967296.0 }

  lemma {:induction false} StateIsLinear(seed: Word, calls: nat)
    ensures StateAfter(seed, calls) == (seed + calls * INCREMENT) % TWO32
  {
    if calls > 0 {
      StateIsLinear(seed, calls - 1);
      AddUnderModulus(seed + (calls - 1) * INCREMENT, INCREMENT);
      assert seed + (calls - 1) * INCREMENT + INCREMENT == seed + calls * INCREMENT;
    }
  }

  lemma {:induction false} AddUnderModulus(a: int, b: int)
    ensures (a % TWO32 + b) % TWO32 == (a + b) % TWO32
  {
  }

  /** A stream is back at a state exactly after a multiple of 2^32 calls: the increment is odd (times
      0xdc58aa5d it is 1 modulo 2^32), so every state comes up once in a cycle. */
  lemma {:induction false} StatesRepeatEvery2To32(seed: Word, i: nat, j: nat)
    ensures StateAfter(seed, i) == StateAfter(seed, j) <==> i % TWO32 == j % TWO32
  {
    StateIsLinear(seed, i);
    StateIsLinear(seed, j);
    if StateAfter(seed, i) == StateAfter(seed, j) {
      var m := SameResidue(seed + i * INCREMENT, seed + j * INCREMENT);
      var q := 0xdc58aa5d;
      var k := INCREMENT * q / TWO32;
      OddFactorDropsOut(INCREMENT, q, k, i - j, m);
      MultipleApart(i, j, m * q - (i - j) * k);
    }
    if i % TWO32 == j % TWO32 {
      var m := SameResidue(i, j);
      MultipleApart(seed + i * INCREMENT, seed + j * INCREMENT, m * INCREMENT);
    }
  }

  lemma {:induction false} MultipleApart(a: int, b: int, m: int)
    requires a - b == TWO32 * m
    ensures a % TWO32 == b % TWO32
  {
  }

  /** All streams run through one and the same cycle: any stream, from some call on, repeats any other from
      its start. So distinct seeds keep two streams apart at each call, not for good. */
  lemma {:induction false} EveryStreamCatchesUp(a: Word, b: Word) returns (lag: nat)
    ensures forall n: nat :: StateAfter(a, lag + n) == StateAfter(b, n)
  {
    var q := 0xdc58aa5d;
    lag := (b - a) * q % TWO32;
    forall n: nat ensures StateAfter(a, lag + n) == StateAfter(b, n) {
      CatchesUp(a, b, lag, n);
    }
  }

  lemma {:induction false} CatchesUp(a: Word, b: Word, lag: nat, n: nat)
    requires lag == (b - a) * 0xdc58aa5d % TWO32
    ensures StateAfter(a, lag + n) == StateAfter(b, n)
  {
    var q := 0xdc58aa5d;
    var d := b - a;
    var k := INCREMENT * q / TWO32;
    var m := d * q / TWO32;
    assert INCREMENT * q == 1 + k * TWO32;
    assert lag == d * q - m * TWO32;
    assert lag * INCREMENT == d * (INCREMENT * q) - TWO32 * (m * INCREMENT);
    assert d * (1 + k * TWO32) == d + TWO32 * (d * k);
    StateIsLinear(a, lag + n);
    StateIsLinear(b, n);
    assert (lag + n) * INCREMENT == lag * INCREMENT + n * INCREMENT;
    MultipleApart(a + (lag + n) * INCREMENT, b + n * INCREMENT, d * k - m * INCREMENT);
  }

  lemma {:induction false} SeedsKeepStreamsApart(a: Word, b: Word, n: nat)
    ensures StateAfter(a, n) == StateAfter(b, n) <==> a == b
  {
    hide Plus;
    if n > 0 {
      SeedsKeepStreamsApart(a, b, n - 1);
      PlusIsInjective(StateAfter(a, n - 1), StateAfter(b, n - 1), INCREMENT);
    }
  }

  lemma {:induction false} PlusIsInjective(a: Word, b: Word, c: Word)
    ensures Plus(a, c) == Plus(b, c) <==> a == b
  {
  }

  lemma {:induction false} OutputInUnitInterval(state: Word)
    ensures 0.0 <= Output(state) < 1.0
  {
  }

  // ---------------------------------------------------------------- the closure and the loop

  class Rng {
    ghost const seed: Word
    ghost var calls: nat
    var state: Word

    ghost predicate Valid()
      reads this
    {
      state == StateAfter(seed, calls)
    }

    constructor (seed: Word)
      ensures Valid() && this.seed == seed && calls == 0
    {
      this.seed := seed;
      calls := 0;
      state := seed;
    }

    /** One call of the closure. */
    method Next() returns (r: real)
      requires Valid()
      modifies this
      ensures Valid() && calls == old(calls) + 1
      ensures state == (seed + calls * INCREMENT) % TWO32
      ensures r == Output(state) && 0.0 <= r < 1.0
    {
      hide Mix;
      state := Plus(state, INCREMENT);
      calls := calls + 1;
      StateIsLinear(seed, calls);
      OutputInUnitInterval(state);
      r := Output(state);
    }

    /** `rngInt`: one of the first `max` numbers. */
    method NextInt(max: nat) returns (i: int)
      requires Valid() && max > 0
      modifies this
      ensures Valid() && calls == old(calls) + 1
      ensures 0 <= i < max && i == Scaled(Output(state), max)
    {
      hide Output, Scaled;
      var r := Next();
      ScaledIsBelow(r, max);
      i := Scaled(r, max);
    }
  }

  function Scaled(r: real, max: nat): int { (r * max as real).Floor }

  lemma {:induction false} ScaledIsBelow(r: real, max: nat)
    requires 0.0 <= r < 1.0 && max > 0
    ensures 0 <= Scaled(r, max) < max
  {
  }

  method Fnv(name: seq<Unit>) returns (h: Word)
    ensures h == Fnv1a(name)
  {
    hide Step;
    h := OFFSET;
    for i := 0 to |name|
      invariant HashFrom(h, name[i..]) == Fnv1a(name)
    {
      assert name[i..][1..] == name[i + 1..];
      h := Step(h, name[i]);
    }
  }

  /** The stream of a name under the run's seed. */
  method CreateRng(seed: Word, name: seq<Unit>) returns (rng: Rng)
    ensures fresh(rng) && rng.Valid() && rng.calls == 0 && rng.seed == StreamSeed(seed, name)
  {
    var h := Fnv(name);
    rng := new Rng(Xor(seed, h));
  }
}
