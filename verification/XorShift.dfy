/** The xorshift64* generator on 64-bit words. */
module XorShift {

  const ZERO_SEED_FALLBACK: bv64 := 0x9E3779B97F4A7C15

  function Seeded(seed: bv64): (state: bv64)
    ensures state != 0
  {
    if seed == 0 then ZERO_SEED_FALLBACK else seed
  }

  function ShiftRight12(x: bv64): bv64 { x ^ (x >> 12) }
  function ShiftLeft25(x: bv64): bv64 { x ^ (x << 25) }
  function ShiftRight27(x: bv64): bv64 { x ^ (x >> 27) }

  /** The state after one draw. */
  function Next(x: bv64): bv64 {
    ShiftRight27(ShiftLeft25(ShiftRight12(x)))
  }

  /** The word drawn when the state becomes `x`: a wrapping product. */
  function Scramble(x: bv64): bv64 {
    x * 0x2545F4914F6CDD1D
  }

  function Output(state: bv64): bv64 {
    Scramble(Next(state))
  }

  function UndoRight12(y: bv64): bv64 {
    y ^ (y >> 12) ^ (y >> 24) ^ (y >> 36) ^ (y >> 48) ^ (y >> 60)
  }

  function UndoLeft25(y: bv64): bv64 {
    y ^ (y << 25) ^ (y << 50)
  }

  function UndoRight27(y: bv64): bv64 {
    y ^ (y >> 27) ^ (y >> 54)
  }

  /** The only state whose successor is `y`. */
  function Previous(y: bv64): bv64 {
    UndoRight12(UndoLeft25(UndoRight27(y)))
  }

  // Each stage and its inverse cancel as word expressions; the second lemma of a pair only substitutes.

  lemma Right12Cancels(x: bv64)
    ensures UndoRight12(x ^ (x >> 12)) == x
    ensures ShiftRight12(x ^ (x >> 12) ^ (x >> 24) ^ (x >> 36) ^ (x >> 48) ^ (x >> 60)) == x
  {
  }

  lemma Right12Bijective(x: bv64)
    ensures UndoRight12(ShiftRight12(x)) == x && ShiftRight12(UndoRight12(x)) == x
  {
    Right12Cancels(x);
  }

  lemma Left25Cancels(x: bv64)
    ensures UndoLeft25(x ^ (x << 25)) == x
    ensures ShiftLeft25(x ^ (x << 25) ^ (x << 50)) == x
  {
  }

  lemma Left25Bijective(x: bv64)
    ensures UndoLeft25(ShiftLeft25(x)) == x && ShiftLeft25(UndoLeft25(x)) == x
  {
    Left25Cancels(x);
  }

  lemma Right27Cancels(x: bv64)
    ensures UndoRight27(x ^ (x >> 27)) == x
    ensures ShiftRight27(x ^ (x >> 27) ^ (x >> 54)) == x
  {
  }

  lemma Right27Bijective(x: bv64)
    ensures UndoRight27(ShiftRight27(x)) == x && ShiftRight27(UndoRight27(x)) == x
  {
    Right27Cancels(x);
  }

  /** The state map is a bijection on all 64-bit words, and it fixes 0. */
  lemma NextBijective(x: bv64)
    ensures Previous(Next(x)) == x && Next(Previous(x)) == x
    ensures Next(x) == 0 <==> x == 0
  {
    Right12Bijective(x);
    Left25Bijective(ShiftRight12(x));
    Right27Bijective(ShiftLeft25(ShiftRight12(x)));
    Right27Bijective(x);
    Left25Bijective(UndoRight27(x));
    Right12Bijective(UndoLeft25(UndoRight27(x)));
    assert Next(0) == 0;
    assert Previous(0) == 0;
  }

  /** Multiplication by the inverse of the multiplier modulo 2^64. */
  function Unscramble(y: bv64): bv64 {
    y * 0x59071D96D81ECD35
  }

  lemma ScrambleCancels(x: bv64)
    ensures Unscramble(x * 0x2545F4914F6CDD1D) == x && Scramble(x * 0x59071D96D81ECD35) == x
  {
  }

  /** Multiplying by the odd constant is a bijection modulo 2^64. */
  lemma ScrambleBijective(x: bv64)
    ensures Unscramble(Scramble(x)) == x && Scramble(Unscramble(x)) == x
  {
    ScrambleCancels(x);
  }

  lemma ScrambleInjective(x: bv64, y: bv64)
    requires Scramble(x) == Scramble(y)
    ensures x == y
  {
    ScrambleBijective(x);
    ScrambleBijective(y);
  }

  lemma ScrambleZero(x: bv64)
    ensures Scramble(x) == 0 <==> x == 0
  {
    assert Scramble(0) == 0;
    if Scramble(x) == 0 {
      ScrambleInjective(x, 0);
    }
  }

  lemma DrawNotZero(state: bv64)
    ensures state != 0 ==> Next(state) != 0 && Output(state) != 0
  {
    NextBijective(state);
    ScrambleZero(Next(state));
  }

  /** The state after `n` draws. */
  function StateAfter(state: bv64, n: nat): bv64 {
    if n == 0 then state else Next(StateAfter(state, n - 1))
  }

  /** The `n`-th word drawn, counting from 0. */
  function Draw(state: bv64, n: nat): bv64 {
    Output(StateAfter(state, n))
  }

  lemma {:induction false} StateAfterSum(state: bv64, m: nat, n: nat)
    ensures StateAfter(StateAfter(state, m), n) == StateAfter(state, m + n)
  {
    if n > 0 {
      StateAfterSum(state, m, n - 1);
    }
  }

  /** Whatever the seed, no state and no drawn word is ever 0. */
  lemma {:induction false} NeverZero(seed: bv64, n: nat)
    ensures StateAfter(Seeded(seed), n) != 0 && Draw(Seeded(seed), n) != 0
  {
    if n > 0 {
      NeverZero(seed, n - 1);
      DrawNotZero(StateAfter(Seeded(seed), n - 1));
    }
    DrawNotZero(StateAfter(Seeded(seed), n));
  }

  /** The first words drawn from seed 1, and the state that seed 0 stands for. */
  lemma KnownDraws()
    ensures StateAfter(Seeded(1), 1) == 0x2000001 && Draw(Seeded(1), 0) == 0x47E4CE4B896CDD1D
    ensures Draw(Seeded(1), 1) == 0xABCFA6A8E079651D
    ensures Seeded(0) == 0x9E3779B97F4A7C15
  {
    assert StateAfter(1, 0) == 1;
    assert StateAfter(1, 1) == Next(1) == 0x2000001;
  }

  lemma NextInjective(x: bv64, y: bv64)
    requires Next(x) == Next(y)
    ensures x == y
  {
    NextBijective(x);
    NextBijective(y);
  }

  /** Two generators that agree on one drawn word agree on the state, and on all later words. */
  lemma {:induction false} AgreeForever(s: bv64, i: nat, t: bv64, j: nat, n: nat)
    requires Draw(s, i) == Draw(t, j)
    ensures StateAfter(s, i + n) == StateAfter(t, j + n) && Draw(s, i + n) == Draw(t, j + n)
  {
    ScrambleInjective(Next(StateAfter(s, i)), Next(StateAfter(t, j)));
    NextInjective(StateAfter(s, i), StateAfter(t, j));
    StateAfterSum(s, i, n);
    StateAfterSum(t, j, n);
  }

  /** The three stages in their order, on plain words. */
  lemma NextBits(x: bv64, a: bv64, b: bv64)
    requires ShiftRight12(x) == a && ShiftLeft25(a) == b
    ensures Next(x) == b ^ (b >> 27)
    ensures a == x ^ (x >> 12) && b == a ^ (a << 25)
  {
    NextIs(x, a, b);
  }

  lemma NextIs(x: bv64, a: bv64, b: bv64)
    requires ShiftRight12(x) == a && ShiftLeft25(a) == b
    ensures Next(x) == ShiftRight27(b)
  {
    hide ShiftRight12, ShiftLeft25, ShiftRight27;
  }

  /** The word drawn is the wrapping product of the new state. */
  lemma OutputBits(x: bv64)
    ensures Output(x) == Next(x) * 0x2545F4914F6CDD1D
  {
    hide Next;
  }

  class XorShift64 {
    var state: bv64

    constructor (seed: bv64)
      ensures state == StateAfter(Seeded(seed), 0)
    {
      state := Seeded(seed);
    }

    method NextU64() returns (word: bv64)
      modifies this
      ensures word == Output(old(state)) && state == Next(old(state))
      ensures old(state) != 0 ==> state != 0 && word != 0
    {
      var x := state;
      x := ShiftRight12(x);
      x := ShiftLeft25(x);
      x := ShiftRight27(x);
      state := x;
      word := Scramble(x);
      DrawNotZero(old(state));
    }
  }
}
