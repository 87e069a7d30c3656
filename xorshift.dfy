/**
 * The 64-bit XorShift backend of the random number generator: Marsaglia's
 * xorshift recurrence ("Xorshift RNGs", 2003) with the shift triple
 * (13, 7, 17) on a single unsigned 64-bit state word.
 *
 * The recurrence is the pure function Step; the generator is the class
 * XorShift, whose NextU64 advances its state word in place.  Around them:
 * explicit inverses of the three sub-steps (so Step is a bijection that maps
 * zero to zero and nonzero to nonzero), the n-fold iterate of Step, and the
 * sequence of the first n outputs of a generator seeded with a given word.
 */
module XorShiftBackend {

  /** The Rust `u64`: shifts zero-fill and drop the bits shifted out. */
  type Word = bv64

  // ---------------------------------------------------------------------
  // The recurrence
  // ---------------------------------------------------------------------

  /** The sub-step `x ^= x << k`. */
  function ShlXor(x: Word, k: nat): Word
    requires 0 < k < 64
  {
    x ^ (x << k)
  }

  /** The sub-step `x ^= x >> k` (logical shift: the high bits are zero-filled). */
  function ShrXor(x: Word, k: nat): Word
    requires 0 < k < 64
  {
    x ^ (x >> k)
  }

  /** One advance of the generator: the three sub-steps 13 left, 7 right, 17 left, in this order. */
  function Step(x: Word): Word
  {
    ShlXor(ShrXor(ShlXor(x, 13), 7), 17)
  }

  // ---------------------------------------------------------------------
  // Inverses of the sub-steps, and so of Step
  // ---------------------------------------------------------------------

  /** Undoes `x ^= x << 13`: xor in every multiple of 13 below 64. */
  function UndoShlXor13(y: Word): Word
  {
    y ^ (y << 13) ^ (y << 26) ^ (y << 39) ^ (y << 52)
  }

  /** Undoes `x ^= x >> 7`: xor in every multiple of 7 below 64. */
  function UndoShrXor7(y: Word): Word
  {
    y ^ (y >> 7) ^ (y >> 14) ^ (y >> 21) ^ (y >> 28) ^ (y >> 35) ^ (y >> 42) ^ (y >> 49) ^ (y >> 56) ^ (y >> 63)
  }

  /** Undoes `x ^= x << 17`: xor in every multiple of 17 below 64. */
  function UndoShlXor17(y: Word): Word
  {
    y ^ (y << 17) ^ (y << 34) ^ (y << 51)
  }

  // Each round trip below writes the inner function's body out in full, so
  // that the solver can normalise one explicit xor-shift expression.

  lemma ShlXor13AfterUndo(y: Word)
    ensures ShlXor(UndoShlXor13(y), 13) == y
  {
    assert ShlXor(y ^ (y << 13) ^ (y << 26) ^ (y << 39) ^ (y << 52), 13) == y;
  }

  lemma UndoShlXor13AfterShlXor(x: Word)
    ensures UndoShlXor13(ShlXor(x, 13)) == x
  {
    assert UndoShlXor13(x ^ (x << 13)) == x;
  }

  lemma ShrXor7AfterUndo(y: Word)
    ensures ShrXor(UndoShrXor7(y), 7) == y
  {
    assert ShrXor(y ^ (y >> 7) ^ (y >> 14) ^ (y >> 21) ^ (y >> 28) ^ (y >> 35) ^ (y >> 42) ^ (y >> 49) ^ (y >> 56) ^ (y >> 63), 7) == y;
  }

  lemma UndoShrXor7AfterShrXor(x: Word)
    ensures UndoShrXor7(ShrXor(x, 7)) == x
  {
    assert UndoShrXor7(x ^ (x >> 7)) == x;
  }

  lemma ShlXor17AfterUndo(y: Word)
    ensures ShlXor(UndoShlXor17(y), 17) == y
  {
    assert ShlXor(y ^ (y << 17) ^ (y << 34) ^ (y << 51), 17) == y;
  }

  lemma UndoShlXor17AfterShlXor(x: Word)
    ensures UndoShlXor17(ShlXor(x, 17)) == x
  {
    assert UndoShlXor17(x ^ (x << 17)) == x;
  }

  /** The predecessor of a state: the sub-steps undone in reverse order. */
  function StepInverse(y: Word): (x: Word)
    ensures Step(x) == y
  {
    var c := UndoShlXor17(y);
    var b := UndoShrXor7(c);
    ShlXor17AfterUndo(y);
    ShrXor7AfterUndo(c);
    ShlXor13AfterUndo(b);
    UndoShlXor13(b)
  }

  /** StepInverse is also a left inverse, so Step is a bijection on 64-bit words. */
  lemma StepInverseAfterStep(x: Word)
    ensures StepInverse(Step(x)) == x
  {
    var a := ShlXor(x, 13);
    var b := ShrXor(a, 7);
    UndoShlXor17AfterShlXor(b);
    UndoShrXor7AfterShrXor(a);
    UndoShlXor13AfterShlXor(x);
  }

  /** Distinct states advance to distinct states. */
  lemma StepInjective(x: Word, y: Word)
    requires Step(x) == Step(y)
    ensures x == y
  {
    StepInverseAfterStep(x);
    StepInverseAfterStep(y);
  }

  /** Zero is a fixed point, and it is the only state that advances to zero. */
  lemma StepZeroIff(x: Word)
    ensures Step(x) == 0 <==> x == 0
  {
    // The solver settles this directly from the bit-vector definition of Step.
  }

  /** Every nonzero state has a nonzero predecessor: Step permutes the nonzero words. */
  lemma StepOntoNonzero(y: Word)
    requires y != 0
    ensures exists x :: x != 0 && Step(x) == y
  {
    var x := StepInverse(y);
    assert x != 0 && Step(x) == y;
  }

  // ---------------------------------------------------------------------
  // Fixtures: the first advance from two seeds
  // ---------------------------------------------------------------------

  /** A state of 1 advances to 0x40822041 (1082269761). */
  lemma StepFromOne()
    ensures Step(1) == 0x4082_2041
  {
    assert ShlXor(1, 13) == 0x2001;
    assert ShrXor(0x2001, 7) == 0x2041;
    assert ShlXor(0x2041, 17) == 0x4082_2041;
  }

  /** A generator built with seed 987654321 returns 1056805612344039456 from its first draw. */
  lemma StepFromDocumentationSeed()
    ensures Step(987654321) == 0x0EAA_871A_F067_D820
  {
    assert ShlXor(987654321, 13) == 0x075B_F7C8_48B1;
    assert ShrXor(0x075B_F7C8_48B1, 7) == 0x0755_4027_D820;
    assert ShlXor(0x0755_4027_D820, 17) == 0x0EAA_871A_F067_D820;
  }

  // ---------------------------------------------------------------------
  // Iterating the recurrence
  // ---------------------------------------------------------------------

  /** The state after n advances from x. */
  function Iterate(x: Word, n: nat): (r: Word)
    ensures r == 0 <==> x == 0
  {
    if n == 0 then x
    else
      var prev := Iterate(x, n - 1);
      StepZeroIff(prev);
      Step(prev)
  }

  /** The first n outputs of a generator whose state starts at `seed`. */
  function Outputs(seed: Word, n: nat): (r: seq<Word>)
    ensures |r| == n
    ensures forall i :: 0 <= i < n ==> r[i] == Iterate(seed, i + 1)
  {
    if n == 0 then [] else Outputs(seed, n - 1) + [Iterate(seed, n)]
  }

  /** Advancing n + 1 times is advancing once, then n times. */
  lemma {:induction false} IterateFromStep(x: Word, n: nat)
    ensures Iterate(x, n + 1) == Iterate(Step(x), n)
  {
    if n > 0 {
      IterateFromStep(x, n - 1);
    }
  }

  /** Distinct starting states stay distinct after any number of advances. */
  lemma {:induction false} IterateInjective(x: Word, y: Word, n: nat)
    requires Iterate(x, n) == Iterate(y, n)
    ensures x == y
  {
    if n > 0 {
      StepInverseAfterStep(Iterate(x, n - 1));
      StepInverseAfterStep(Iterate(y, n - 1));
      IterateInjective(x, y, n - 1);
    }
  }

  /** Drawing fewer values yields a prefix of drawing more: the sequence is reproducible. */
  lemma OutputsPrefix(seed: Word, m: nat, n: nat)
    requires m <= n
    ensures Outputs(seed, m) == Outputs(seed, n)[..m]
  {
  }

  /**
   * The state always equals the last value produced, so the outputs after the
   * first are those of a generator seeded with the first output.
   */
  lemma {:induction false} OutputsContinue(seed: Word, n: nat)
    ensures Outputs(seed, n + 1) == [Step(seed)] + Outputs(Step(seed), n)
  {
    if n == 0 {
      assert Iterate(seed, 1) == Step(Iterate(seed, 0));
    } else {
      OutputsContinue(seed, n - 1);
      IterateFromStep(seed, n);
      calc {
        Outputs(seed, n + 1);
        Outputs(seed, n) + [Iterate(seed, n + 1)];
        ([Step(seed)] + Outputs(Step(seed), n - 1)) + [Iterate(Step(seed), n)];
        [Step(seed)] + (Outputs(Step(seed), n - 1) + [Iterate(Step(seed), n)]);
        [Step(seed)] + Outputs(Step(seed), n);
      }
    }
  }

  /** Generators with different seeds differ at every position of their output. */
  lemma DistinctSeedsDiverge(s: Word, t: Word, n: nat, i: nat)
    requires s != t
    requires i < n
    ensures Outputs(s, n)[i] != Outputs(t, n)[i]
  {
    if Iterate(s, i + 1) == Iterate(t, i + 1) {
      IterateInjective(s, t, i + 1);
    }
  }

  // ---------------------------------------------------------------------
  // The generator
  // ---------------------------------------------------------------------

  /** A generator owning one state word, advanced in place by NextU64. */
  class XorShift {
    var state: Word

    // public view: the seed it was built with and every value it has returned
    ghost var Seed: Word
    ghost var Produced: seq<Word>

    /** The state is never zero and is the seed advanced once per value returned. */
    ghost predicate Valid()
      reads this
    {
      && state != 0
      && Seed != 0
      && Produced == Outputs(Seed, |Produced|)
      && state == Iterate(Seed, |Produced|)
    }

    /** A zero seed is a contract violation (the source panics); otherwise the state is the seed. */
    constructor (seed: Word)
      requires seed != 0
      ensures Valid()
      ensures state == seed && Seed == seed && Produced == []
    {
      state := seed;
      Seed := seed;
      Produced := [];
    }

    /** Advances the state once and returns the new state. */
    method NextU64() returns (r: Word)
      requires Valid()
      modifies this
      ensures Valid()
      ensures r == Step(old(state)) && state == r
      ensures Seed == old(Seed) && Produced == old(Produced) + [r]
    {
      var x := state;
      x := ShlXor(x, 13);  // x ^= x << 13
      x := ShrXor(x, 7);   // x ^= x >> 7
      x := ShlXor(x, 17);  // x ^= x << 17
      StepZeroIff(state);
      state := x;
      r := x;
      Produced := Produced + [x];
    }
  }

  /**
   * A caller that builds one generator from each of two seeds and draws n
   * values from both, alternating: each instance owns its state, each
   * produces exactly the sequence its seed determines, equal seeds give
   * equal sequences and different seeds differ at every position.
   */
  method DrawInterleaved(s: Word, t: Word, n: nat) returns (xs: seq<Word>, ys: seq<Word>)
    requires s != 0 && t != 0
    ensures xs == Outputs(s, n) && ys == Outputs(t, n)
    ensures s == t ==> xs == ys
    ensures s != t ==> forall i :: 0 <= i < n ==> xs[i] != ys[i]
  {
    var g := new XorShift(s);
    var h := new XorShift(t);
    xs, ys := [], [];
    while |xs| < n
      invariant g != h
      invariant g.Valid() && g.Seed == s && g.Produced == xs
      invariant h.Valid() && h.Seed == t && h.Produced == ys
      invariant |xs| == |ys| <= n
    {
      var x := g.NextU64();
      var y := h.NextU64();
      xs, ys := xs + [x], ys + [y];
    }
    forall i | 0 <= i < n && s != t
      ensures xs[i] != ys[i]
    {
      DistinctSeedsDiverge(s, t, n, i);
    }
  }
}
