/** Random number generation. The bit generators themselves (PCG64DXSM and
    Philox) are outside the model: a bit generator is a value naming its
    algorithm and seed, and the numbers drawn from it are given as functions
    of that value and of the position of the draw. */
module Generators {

  /** The seed argument of a NumPy bit generator. */
  datatype SeedArg = NoSeed | IntSeed(i: int) | SeedSequence(entropy: seq<int>)

  datatype BitGenerator = Pcg64Dxsm(seed: SeedArg) | Philox(seed: SeedArg)

  /** What `default_generator` accepts: a ready bit generator or a seed. */
  datatype GeneratorArg = FromBitGenerator(bitGenerator: BitGenerator) | FromSeed(seed: SeedArg)

  /** A 64-bit output word of a bit generator. */
  type Word64 = w: nat | w < 0x1_0000_0000_0000_0000

  /** The `i`-th 64-bit word a fresh generator on the given bit generator produces. */
  type WordStream = (BitGenerator, nat) -> Word64

  /** The `i`-th standard normal deviate a fresh generator on the given bit generator produces. */
  type NormalStream = (BitGenerator, nat) -> real

  /** `default_bit_generator`. */
  function DefaultBitGenerator(seed: SeedArg): BitGenerator {
    Pcg64Dxsm(seed)
  }

  /** `default_generator`: a bit generator is used as it is, anything else
      seeds the default bit generator. */
  function DefaultGenerator(arg: GeneratorArg): (g: BitGenerator)
    ensures arg.FromBitGenerator? ==> g == arg.bitGenerator
    ensures arg.FromSeed? ==> g == Pcg64Dxsm(arg.seed)
  {
    match arg
    case FromBitGenerator(b) => b
    case FromSeed(s) => DefaultBitGenerator(s)
  }

  /** `conditional_negate` on a number. */
  function ConditionalNegate(r: real, condition: bool): real {
    if condition then -r else r
  }

  /** `conditional_negate` on an array, as a value. */
  function ConditionalNegateAll(rs: seq<real>, condition: bool): (ys: seq<real>)
    ensures |ys| == |rs|
    ensures forall i :: 0 <= i < |rs| ==> ys[i] == ConditionalNegate(rs[i], condition)
  {
    seq(|rs|, i requires 0 <= i < |rs| => ConditionalNegate(rs[i], condition))
  }

  /** Negation undoes itself. */
  lemma NegateTwice(r: real, condition: bool)
    ensures ConditionalNegate(ConditionalNegate(r, condition), condition) == r
  {
  }

  lemma NegateAllTwice(rs: seq<real>, condition: bool)
    ensures ConditionalNegateAll(ConditionalNegateAll(rs, condition), condition) == rs
    ensures !condition ==> ConditionalNegateAll(rs, condition) == rs
  {
  }

  /** `conditional_negate` on an array, which it negates in place. */
  method ConditionalNegateInPlace(randoms: array<real>, condition: bool)
    modifies randoms
    ensures randoms[..] == ConditionalNegateAll(old(randoms[..]), condition)
  {
    if condition {
      var i := 0;
      while i < randoms.Length
        invariant 0 <= i <= randoms.Length
        invariant forall j :: 0 <= j < i ==> randoms[j] == -old(randoms[j])
        invariant forall j :: i <= j < randoms.Length ==> randoms[j] == old(randoms[j])
      {
        randoms[i] := -randoms[i];
        i := i + 1;
      }
    }
  }

  /** `DefaultNormal(seed, antithetic).random()`. */
  function NormalRandom(z: NormalStream, seed: GeneratorArg, antithetic: bool): real {
    ConditionalNegate(z(DefaultGenerator(seed), 0), antithetic)
  }

  /** `DefaultNormal(seed, antithetic).randoms(out)` for an `out` of `n` elements. */
  function NormalRandoms(z: NormalStream, seed: GeneratorArg, antithetic: bool, n: nat): (rs: seq<real>)
    ensures |rs| == n
    ensures forall i :: 0 <= i < n ==> rs[i] == ConditionalNegate(z(DefaultGenerator(seed), i), antithetic)
  {
    ConditionalNegateAll(seq(n, i requires 0 <= i < n => z(DefaultGenerator(seed), i)), antithetic)
  }

  /** For one seed, the antithetic deviates are the negated plain ones. */
  lemma AntitheticNegates(z: NormalStream, seed: GeneratorArg, n: nat)
    ensures NormalRandom(z, seed, true) == -NormalRandom(z, seed, false)
    ensures forall i :: 0 <= i < n ==>
              NormalRandoms(z, seed, true, n)[i] == -NormalRandoms(z, seed, false, n)[i]
  {
  }

  /** The exclusive upper bound of `DefaultGenerator.next`. */
  const NextBound: nat := 0x8000_0000_0000_0000

  /** `Generator.integers(high)` on one 64-bit word: the high part of the
      product of the word with `high` (NumPy's multiply-shift reduction,
      which never rejects a word when `high` is a power of two). */
  function BoundedInteger(word: Word64, high: nat): (r: nat)
    requires high > 0
    ensures r < high
  {
    (word * high) / 0x1_0000_0000_0000_0000
  }

  /** `DefaultGenerator(seed)`'s `i`-th call of `next`. */
  function Next(words: WordStream, seed: GeneratorArg, i: nat): (r: nat)
    ensures r < NextBound
  {
    BoundedInteger(words(DefaultGenerator(seed), i), NextBound)
  }
}
