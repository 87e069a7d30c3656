# XorShift backend, modelled in Dafny

This project models the 64-bit XorShift random number backend of the `alea`
crate. It uses Marsaglia's xorshift recurrence with the shift triple
(13, 7, 17), from G. Marsaglia, "Xorshift RNGs", Journal of Statistical
Software 8(14), 2003.

Everything is in one module, `XorShiftBackend` (`xorshift.dfy`):

- `Word` is the Rust `u64`, written as Dafny's `bv64`. Shifts fill with zeros and drop the bits shifted out, and xor is bitwise, as in Rust.
- `ShlXor(x, k)` and `ShrXor(x, k)` are the in-place sub-steps `x ^= x << k` and `x ^= x >> k`. `Step` applies them with 13 (left), 7 (right) and 17 (left), in that order.
- The class `XorShift` is the generator. Its field `state` is the state word. Its constructor requires a nonzero seed, because the source panics on a zero seed. `NextU64` applies the three sub-steps in place, stores the result as the new state and returns it. Two ghost fields give the public view: `Seed`, the seed it was built with, and `Produced`, every value returned so far. `Valid()` says that the state is never zero and equals the seed advanced once per value returned.
- `UndoShlXor13`, `UndoShrXor7` and `UndoShlXor17` undo the sub-steps by xoring in every shift by a multiple of the shift amount. `StepInverse` combines them. Together they show that `Step` is a bijection on 64-bit words that maps zero to zero. It therefore permutes the nonzero words.
- `Iterate(x, n)` is the state after `n` advances. `Outputs(seed, n)` is the first `n` values returned by a generator built from `seed`.
- `DrawInterleaved` is a caller. It builds two generators and draws from them alternately. It shows that the instances do not interfere, that equal seeds give equal sequences, and that different seeds give different values at every position.

The source makes no promise about different seeds. Because `Step` is injective, the model proves that two different seeds give different values at every position (`DistinctSeedsDiverge`).

## Model

| member | source | states |
|---|---|---|
| XorShiftBackend.ShlXor | src/backend/xorshift.rs:55-57 | the left sub-step `x ^= x << k` on a 64-bit word: the shift fills with zeros and drops the bits shifted out (a definition; its inverses are in the rows below) |
| XorShiftBackend.ShrXor | src/backend/xorshift.rs:56 | the right sub-step `x ^= x >> k` with a logical, zero-filling shift (a definition; its inverse is in the rows below) |
| XorShiftBackend.Step | src/backend/xorshift.rs:54-57 | the advance `next_u64` computes: `x ^= x << 13`, `x ^= x >> 7`, `x ^= x << 17`, in that order, on a 64-bit word (a definition; its properties are in the rows below) |
| XorShiftBackend.XorShift.Valid | src/backend/xorshift.rs:44-47 | the generator invariant: the state is never zero, and it is the seed advanced once per value returned, the last of which it equals (a definition; the constructor and NextU64 establish and keep it) |
| XorShiftBackend.ShlXor13AfterUndo | src/backend/xorshift.rs:55 | undoing `x ^= x << 13` and then redoing it gives back the original word (right inverse) |
| XorShiftBackend.UndoShlXor13AfterShlXor | src/backend/xorshift.rs:55 | `x ^= x << 13` is undone exactly by UndoShlXor13, so this sub-step is injective |
| XorShiftBackend.ShrXor7AfterUndo | src/backend/xorshift.rs:56 | undoing the logical `x ^= x >> 7` and then redoing it gives back the original word |
| XorShiftBackend.UndoShrXor7AfterShrXor | src/backend/xorshift.rs:56 | the logical `x ^= x >> 7` is undone exactly by UndoShrXor7, so this sub-step is injective |
| XorShiftBackend.ShlXor17AfterUndo | src/backend/xorshift.rs:57 | undoing `x ^= x << 17` and then redoing it gives back the original word |
| XorShiftBackend.UndoShlXor17AfterShlXor | src/backend/xorshift.rs:57 | `x ^= x << 17` is undone exactly by UndoShlXor17, so this sub-step is injective |
| XorShiftBackend.StepInverse | src/backend/xorshift.rs:54-57 | every word has a predecessor under the 13/7/17 advance: advancing StepInverse(y) gives y |
| XorShiftBackend.StepInverseAfterStep | src/backend/xorshift.rs:54-57 | StepInverse also undoes an advance, so the advance is a bijection on 64-bit words |
| XorShiftBackend.StepInjective | src/backend/xorshift.rs:54-57 | two states that advance to the same state are equal |
| XorShiftBackend.StepZeroIff | src/backend/xorshift.rs:44-47 | an advance gives zero exactly when the state was zero: zero is a fixed point, and a nonzero state never becomes zero |
| XorShiftBackend.StepOntoNonzero | src/backend/xorshift.rs:9 | every nonzero word is the advance of some nonzero word, so the advance permutes the 2^64-1 nonzero states (the part of the period claim that can be proved) |
| XorShiftBackend.StepFromOne | src/backend/xorshift.rs:55-57 | a state of 1 advances to 0x40822041 (1082269761) |
| XorShiftBackend.StepFromDocumentationSeed | src/backend/xorshift.rs:45-60 | `XorShift::new(987654321)` returns 0x0EAA871AF067D820 (1056805612344039456) from its first `next_u64` |
| XorShiftBackend.Iterate | src/backend/xorshift.rs:53-60 | after any number of advances the state is zero exactly when the starting state was zero |
| XorShiftBackend.Outputs | src/backend/xorshift.rs:53-60 | the first n values of a generator are n values, and the i-th is its seed advanced i + 1 times |
| XorShiftBackend.IterateFromStep | src/backend/xorshift.rs:53-60 | advancing n + 1 times is advancing once and then n times |
| XorShiftBackend.IterateInjective | src/backend/xorshift.rs:9 | two starting states that agree after n advances are equal, so a sequence never merges into another one |
| XorShiftBackend.OutputsPrefix | src/backend/xorshift.rs:53-60 | drawing m values gives a prefix of drawing n >= m values from the same seed: the sequence is reproducible |
| XorShiftBackend.OutputsContinue | src/backend/xorshift.rs:58-59 | the stored state is the last value returned, so the values after the first are those of a generator seeded with the first value |
| XorShiftBackend.DistinctSeedsDiverge | src/backend/xorshift.rs:45-60 | generators built from different seeds return different values at every position |
| XorShiftBackend.XorShift.constructor | src/backend/xorshift.rs:45-48 | a zero seed is refused (the source panics); otherwise the state is exactly the seed, nothing has been produced yet, and the invariant holds |
| XorShiftBackend.XorShift.NextU64 | src/backend/xorshift.rs:53-60 | the new state is the old state after `x ^= x << 13`, `x ^= x >> 7`, `x ^= x << 17` in that order; the value returned equals the new state; the state stays nonzero; the value is appended to the produced sequence |
| XorShiftBackend.DrawInterleaved | src/backend/xorshift.rs:45-60 | two generators used alternately each return exactly the sequence their own seed determines; equal seeds give equal sequences, different seeds differ at every position |

## Left out

- The `RandomBackend` trait (`super::RandomBackend`, src/backend/xorshift.rs:28) is not part of this model. Its file is not part of this model, and a Dafny trait is not used here. `XorShift.NextU64` has the signature of its single operation, `next_u64`.
- The `Rng` facade of the documentation example (bounded integers, floats, shuffles) is not part of this model.
- The panic on a zero seed is modelled as the constructor's precondition `seed != 0`. The panic message "Seed value cannot be zero." is not modelled.
- The exact period 2^64-1 is not proved. That would need the orbit length over 2^64 states. The model proves the tractable parts: the advance is a bijection, it keeps nonzero states nonzero, and it permutes the nonzero words (`StepOntoNonzero`).
- The claims about statistical quality and speed are not modelled. They are not functional behaviour.
- Thread safety and seeding from entropy are not modelled. They do not appear in the code, and an instance is owned by one caller.
- `ShlXor` and `ShrXor` take the shift amount as a parameter that must be between 1 and 63. The source only uses 13, 7 and 17, so no Rust shift overflow can occur.
