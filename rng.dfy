/**
 * The random source of the engine: a std::mt19937 seen from outside.
 *
 * The state of a Mersenne Twister is determined by the seed material it was
 * built from and by the distribution calls made on it since.  A state is
 * identified here by its seed and the number of those calls; one call may
 * consume several raw 32-bit outputs, and each engine in this code serves a
 * fixed pattern of calls, so the count fixes the state.  What a
 * distribution returns in a given state is not modelled; it is passed in as a
 * function of the state (`Engine -> real` for a uniform real distribution on
 * [0,1), `(Engine, nat) -> nat` for a uniform integer distribution on [0, hi]).
 */
module Rng {
  /** Seed material: the engine's built-in default, or a seed sequence built from random-device output. */
  datatype Seed = DefaultSeed | SeedSequence(deviceData: seq<nat>)

  /** An engine state: the seed it was built from and the number of distribution calls made on it since. */
  datatype Engine = Engine(seed: Seed, drawn: nat) {
    /** The state after `k` more distribution calls. */
    function Advance(k: nat): Engine {
      Engine(seed, drawn + k)
    }
  }

  /** A default-constructed std::mt19937 (seeded with its built-in constant 5489). */
  function DefaultEngine(): Engine {
    Engine(DefaultSeed, 0)
  }

  /** A std::mt19937 built from a std::seed_seq over random-device output. */
  function SeededEngine(deviceData: seq<nat>): Engine {
    Engine(SeedSequence(deviceData), 0)
  }

  /** The `count` values that successive calls of distribution `dist` return, starting in state `e`. */
  function Draws<T>(dist: Engine -> T, e: Engine, count: nat): (s: seq<T>)
    ensures |s| == count
    ensures forall i :: 0 <= i < count ==> s[i] == dist(e.Advance(i))
  {
    seq(count, (i: nat) => dist(e.Advance(i)))
  }

  /** `uniform` behaves as std::uniform_real_distribution(0, 1): every value lies in [0,1). */
  ghost predicate IsUnitInterval(uniform: Engine -> real) {
    forall e :: 0.0 <= uniform(e) < 1.0
  }

  /** `uniformIndex` behaves as std::uniform_int_distribution(0, hi): every value lies in [0, hi]. */
  ghost predicate IsIndexDistribution(uniformIndex: (Engine, nat) -> nat) {
    forall e, hi :: uniformIndex(e, hi) <= hi
  }
}
