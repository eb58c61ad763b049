/**
 * `generatePRNG`: a seeded generator whose state is captured by a closure
 * and replaced on every draw. Each draw takes two xor128 steps and turns the
 * two words they produce into a fraction in [0, 1).
 */
module Prng {
  import opened Xorshift
  import opened Fraction

  const TwoTo31: int := 0x8000_0000
  const TwoTo32: int := 0x1_0000_0000

  /** `0 | n` on an integer: ECMAScript's ToInt32, the signed 32-bit value
      congruent to `n` modulo 2^32. */
  function ToInt32(n: int): (r: int)
    ensures -TwoTo31 <= r < TwoTo31
    ensures (n - r) % TwoTo32 == 0
  {
    var m := n % TwoTo32;
    if m < TwoTo31 then m else m - TwoTo32
  }

  /** `Math.abs` on an integer. */
  function Abs(n: int): (r: nat)
    ensures r == n || r == -n
  {
    if n < 0 then -n else n
  }

  /** The value stored in slot 2: `0 | Math.abs(0 | seed)`. */
  function SeedSlot(seed: int): (r: int)
    ensures -TwoTo31 <= r < TwoTo31
  {
    ToInt32(Abs(ToInt32(seed)))
  }

  /** The 32-bit pattern of a signed or unsigned integer. */
  function ToWord(n: int): (w: Word)
  {
    (n % TwoTo32) as Word
  }

  /** The state of a fresh generator: the bootstrap state after one step,
      with its third slot replaced by the seed slot. */
  function InitialState(seed: int): (s: State)
    ensures s.x == After(Bootstrap, 1).x && s.y == After(Bootstrap, 1).y
    ensures s.w == After(Bootstrap, 1).w
  {
    Step(Bootstrap).next.(z := ToWord(SeedSlot(seed)))
  }

  /** The seed slot holds the seed for every seed in [0, 2^31), and is
      negative only when the seed is -2^31 modulo 2^32, where `Math.abs`
      overflows back to -2^31: so "positive" fails for 0 and for -2^31. */
  lemma SeedSlotValues(seed: int)
    ensures 0 <= seed < TwoTo31 ==> SeedSlot(seed) == seed
    ensures SeedSlot(seed) < 0 <==> seed % TwoTo32 == TwoTo31
    ensures SeedSlot(seed) < 0 ==> SeedSlot(seed) == -TwoTo31
    ensures SeedSlot(seed) == 0 <==> seed % TwoTo32 == 0
  {
  }

  /** For a seed in [0, 2^31) slot 2 of the fresh state is the seed itself. */
  lemma InitialSlotIsSeed(seed: int)
    requires 0 <= seed < TwoTo31
    ensures InitialState(seed).z == seed as Word
  {
    SeedSlotValues(seed);
  }

  /** A seed and its negation give the same slot, hence the same generator. */
  lemma SeedSignIgnored(seed: int)
    ensures SeedSlot(-seed) == SeedSlot(seed)
    ensures InitialState(-seed) == InitialState(seed)
  {
    var m := seed % TwoTo32;
    assert -seed == (-(seed / TwoTo32) - 1) * TwoTo32 + (TwoTo32 - m);
    if m == 0 {
      assert (-seed) % TwoTo32 == 0;
    } else {
      assert (-seed) % TwoTo32 == TwoTo32 - m;
    }
  }

  // ---------------------------------------------------------------------
  // Draws

  /** The fraction one draw returns from state `s`: the words of the next
      two steps, reduced. */
  function DrawValue(s: State): (v: real)
    ensures 0.0 <= v < 1.0
  {
    var first := Step(s);
    ToFraction(first.word, Step(first.next).word)
  }

  /** The generator's state after `n` draws: two steps per draw. */
  function StateAt(seed: int, n: nat): State
  {
    After(InitialState(seed), 2 * n)
  }

  /** The first `n` values a generator built from `seed` returns. */
  function Stream(seed: int, n: nat): (values: seq<real>)
    ensures |values| == n
    ensures forall i :: 0 <= i < n ==> 0.0 <= values[i] < 1.0
  {
    if n == 0 then [] else Stream(seed, n - 1) + [DrawValue(StateAt(seed, n - 1))]
  }

  /** Draw `i` reduces exactly the words of steps `2i` and `2i + 1`: draws
      consume the xor128 output in order, two words each, none skipped or
      reused. */
  lemma {:induction false} DrawsUseConsecutiveWordPairs(seed: int, n: nat, i: nat)
    requires i < n
    ensures var out := Outputs(InitialState(seed), 2 * n);
            Stream(seed, n)[i] == ToFraction(out[2 * i], out[2 * i + 1])
  {
    var s := InitialState(seed);
    var t := After(s, 2 * i);
    var out := Outputs(s, 2 * n);
    assert out[2 * i] == Step(t).word && out[2 * i + 1] == Step(Step(t).next).word by {
      OutputsPrefix(s, 2 * i + 2, 2 * n);
      assert Outputs(s, 2 * i + 2)[..2 * i + 1] == Outputs(s, 2 * i + 1);
    }
    assert Stream(seed, n)[i] == DrawValue(t) by {
      StreamAt(seed, n, i);
    }
  }

  /** Element `i` of the stream is the draw from the state after `i` draws. */
  lemma {:induction false} StreamAt(seed: int, n: nat, i: nat)
    requires i < n
    ensures Stream(seed, n)[i] == DrawValue(StateAt(seed, i))
  {
    if i < n - 1 {
      StreamAt(seed, n - 1, i);
    }
  }

  /** Drawing more values only extends what was drawn before. */
  lemma {:induction false} StreamPrefix(seed: int, m: nat, n: nat)
    requires m <= n
    ensures Stream(seed, m) == Stream(seed, n)[..m]
    decreases n
  {
    if m < n {
      StreamPrefix(seed, m, n - 1);
      assert Stream(seed, n)[..n - 1] == Stream(seed, n - 1);
    }
  }

  /** A seed and its negation yield the same values. */
  lemma {:induction false} StreamIgnoresSeedSign(seed: int, n: nat)
    ensures Stream(-seed, n) == Stream(seed, n)
  {
    if n > 0 {
      StreamIgnoresSeedSign(seed, n - 1);
      SeedSignIgnored(seed);
      assert StateAt(-seed, n - 1) == StateAt(seed, n - 1);
    }
  }

  /**
   * The closure `myPseudoRandomNumberGenerator` and the `vec` it captures.
   * The ghost fields record the seed and how many values have been drawn,
   * which together determine `vec`.
   */
  class Generator {
    var vec: State
    ghost const seed: int
    ghost var draws: nat

    ghost predicate Valid()
      reads this
    {
      vec == StateAt(seed, draws)
    }

    constructor (seed: int)
      ensures Valid() && this.seed == seed && draws == 0
      ensures vec == InitialState(seed)
    {
      var bootstrap := Step(Bootstrap);
      vec := bootstrap.next.(z := ToWord(SeedSlot(seed)));
      this.seed := seed;
      draws := 0;
    }

    /** One draw: two steps, and the reduced pair of their words. */
    method Next() returns (value: real)
      requires Valid()
      modifies this
      ensures Valid() && draws == old(draws) + 1
      ensures vec == After(old(vec), 2)
      ensures value == DrawValue(old(vec)) && 0.0 <= value < 1.0
    {
      var first := Step(vec);
      var second := Step(first.next);
      value := ToFraction(first.word, second.word);
      vec := second.next;
      draws := draws + 1;
      AfterAdd(InitialState(seed), 2 * old(draws), 2);
    }
  }

  /** Appends draw `i` to the first `i` values of a stream. */
  function Append(seed: int, i: nat, values: seq<real>, v: real): (more: seq<real>)
    requires values == Stream(seed, i) && v == DrawValue(StateAt(seed, i))
    ensures more == Stream(seed, i + 1)
  {
    values + [v]
  }

  /** Draws `n` values from a fresh generator. */
  method DrawMany(seed: int, n: nat) returns (values: seq<real>)
    ensures values == Stream(seed, n)
  {
    var g := new Generator(seed);
    values := [];
    var i := 0;
    while i < n
      invariant g.Valid() && g.seed == seed && g.draws == i <= n
      invariant values == Stream(seed, i)
    {
      var v := g.Next();
      values := Append(seed, i, values, v);
      i := i + 1;
    }
  }

  /** Two generators built from seeds `a` and `b`, drawn from alternately:
      each returns its own stream, undisturbed by the other, so two
      generators from the same seed yield the same values. */
  method TwoGenerators(a: int, b: int, n: nat) returns (fromA: seq<real>, fromB: seq<real>)
    ensures fromA == Stream(a, n) && fromB == Stream(b, n)
    ensures a == b ==> fromA == fromB
  {
    var ga := new Generator(a);
    var gb := new Generator(b);
    fromA, fromB := [], [];
    var i := 0;
    while i < n
      invariant i <= n && ga != gb
      invariant ga.Valid() && ga.seed == a && ga.draws == i
      invariant gb.Valid() && gb.seed == b && gb.draws == i
      invariant fromA == Stream(a, i) && fromB == Stream(b, i)
    {
      var x := ga.Next();
      var y := gb.Next();
      fromA, fromB := Append(a, i, fromA, x), Append(b, i, fromB, y);
      i := i + 1;
    }
  }

  // ---------------------------------------------------------------------
  // `getIpsumParagraph`: the lorem-ipsum library with this generator as its
  // only source of randomness.

  /** The library call with its fixed options (one plain paragraph of 3 to
      10 sentences of 5 to 20 words, suffix "\n\n"), as a function of the
      random source it reads: value `i` is the `i`-th draw. */
  type Lorem = (nat -> real) -> string

  /** The values a generator built with state `s` would return, in order. */
  function RandomSource(s: State): nat -> real
  {
    (i: nat) => DrawValue(After(s, 2 * i))
  }

  /** `getIpsumParagraph(seed)`: the library reading the generator built
      from `seed`. Since the generator sees the seed only through the seed
      slot, `seed` and `-seed` give the same paragraph. */
  function IpsumParagraph(seed: int, lorem: Lorem): (text: string)
    ensures text == lorem(RandomSource(InitialState(-seed)))
  {
    SeedSignIgnored(seed);
    lorem(RandomSource(InitialState(seed)))
  }

  /** The library reads exactly the generator's stream. */
  lemma RandomSourceIsStream(seed: int, n: nat, i: nat)
    requires i < n
    ensures RandomSource(InitialState(seed))(i) == Stream(seed, n)[i]
  {
    StreamAt(seed, n, i);
  }
}
