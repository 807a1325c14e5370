/**
 * The generation engine.  The generator, the evaluator, the individuals'
 * crossover and the integer distribution are passed in as functions; the
 * random-device output that seeds each crossover batch and the elapsed time
 * seen at each iteration are inputs indexed by generation; the visitor is a
 * ghost log of the callbacks it receives.  Evaluations run one after the
 * other, each result kept at the index of its own individual.
 */
module Solving {
  import opened Rng
  import opened Scoring
  import opened Population
  import opened Config

  /** A visitor callback and its arguments. */
  datatype Event<I> =
    | AtStart(best: Scored<I>)
    | AtIteration(best: Scored<I>, generation: nat, elapsedS: real)
    | AtEnd(best: Scored<I>, generation: nat, totalS: real)

  /** Pairs every individual with its own evaluation, index for index. */
  function ScoreAll<I>(evaluate: I -> real, xs: seq<I>): seq<Scored<I>> {
    seq(|xs|, i requires 0 <= i < |xs| => Scored(xs[i], evaluate(xs[i])))
  }

  /** The individuals of a population, in order. */
  function Individuals<I>(s: seq<Scored<I>>): (r: seq<I>)
    ensures |r| == |s|
  {
    if s == [] then [] else Individuals(s[..|s| - 1]) + [s[|s| - 1].individual]
  }

  /** Entry k of the individuals is the individual of entry k. */
  lemma {:induction false} IndividualsIndex<I>(s: seq<Scored<I>>, k: nat)
    requires k < |s|
    ensures Individuals(s)[k] == s[k].individual
    decreases |s|
  {
    if k < |s| - 1 {
      IndividualsIndex(s[..|s| - 1], k);
    }
  }

  /** The generation built from `current`: its elite prefix, into which the fresh entries and then the crossover children are inserted in turn. */
  function NextGeneration<I>(current: seq<Scored<I>>, eliteSize: nat, newcomers: seq<Scored<I>>, children: seq<Scored<I>>): seq<Scored<I>>
    requires eliteSize <= |current|
  {
    InsertAll(current[..eliteSize], newcomers + children)
  }

  /** The new generation is ordered and holds the elite block, the fresh block and the crossover block. */
  lemma NextGenerationShape<I>(current: seq<Scored<I>>, eliteSize: nat, newcomers: seq<Scored<I>>, children: seq<Scored<I>>)
    requires Sorted(current) && eliteSize <= |current|
    ensures Sorted(NextGeneration(current, eliteSize, newcomers, children))
    ensures |NextGeneration(current, eliteSize, newcomers, children)| == eliteSize + |newcomers| + |children|
    ensures multiset(NextGeneration(current, eliteSize, newcomers, children))
         == multiset(current[..eliteSize]) + multiset(newcomers) + multiset(children)
  {
    assert Sorted(current[..eliteSize]);
    InsertAllSorted(current[..eliteSize], newcomers + children);
    InsertAllMultiset(current[..eliteSize], newcomers + children);
  }

  /** The elite entries of the current population are copied, unchanged, into the new generation. */
  lemma EliteBlockSurvives<I>(current: seq<Scored<I>>, eliteSize: nat, newcomers: seq<Scored<I>>, children: seq<Scored<I>>)
    requires Sorted(current) && eliteSize <= |current|
    ensures forall i :: 0 <= i < eliteSize ==> current[i] in NextGeneration(current, eliteSize, newcomers, children)
  {
    var next := NextGeneration(current, eliteSize, newcomers, children);
    NextGenerationShape(current, eliteSize, newcomers, children);
    assert multiset(current[..eliteSize]) <= multiset(next);
    forall i | 0 <= i < eliteSize
      ensures current[i] in next
    {
      assert current[..eliteSize][i] == current[i];
      assert current[i] in multiset(current[..eliteSize]);
      assert current[i] in multiset(next);
    }
  }

  /** With at least one elite entry the best objective never gets worse from one generation to the next. */
  lemma BestNeverWorsens<I>(current: seq<Scored<I>>, eliteSize: nat, newcomers: seq<Scored<I>>, children: seq<Scored<I>>)
    requires Sorted(current) && 1 <= eliteSize <= |current|
    ensures |NextGeneration(current, eliteSize, newcomers, children)| > 0
    ensures NextGeneration(current, eliteSize, newcomers, children)[0].objvalue <= current[0].objvalue
  {
    var next := NextGeneration(current, eliteSize, newcomers, children);
    NextGenerationShape(current, eliteSize, newcomers, children);
    assert current[0] in multiset(current[..eliteSize]);
    FirstIsBest(next, current[0]);
  }

  /** Every entry's objective value is the evaluator's value of its own individual. */
  ghost predicate AllEvaluated<I>(evaluate: I -> real, s: seq<Scored<I>>) {
    forall k :: 0 <= k < |s| ==> s[k].objvalue == evaluate(s[k].individual)
  }

  /** Inserting evaluated entries into an evaluated population leaves every entry evaluated. */
  lemma InsertAllEvaluated<I>(evaluate: I -> real, s: seq<Scored<I>>, xs: seq<Scored<I>>)
    requires AllEvaluated(evaluate, s) && AllEvaluated(evaluate, xs)
    ensures AllEvaluated(evaluate, InsertAll(s, xs))
  {
    var r := InsertAll(s, xs);
    InsertAllMultiset(s, xs);
    forall k | 0 <= k < |r|
      ensures r[k].objvalue == evaluate(r[k].individual)
    {
      assert r[k] in multiset(r);
      if r[k] in multiset(s) {
        var i :| 0 <= i < |s| && s[i] == r[k];
      } else {
        assert r[k] in multiset(xs);
        var i :| 0 <= i < |xs| && xs[i] == r[k];
      }
    }
  }

  /** Scoring fresh entries and children with the evaluator keeps the whole generation evaluated. */
  lemma NextGenerationEvaluated<I>(evaluate: I -> real, current: seq<Scored<I>>, eliteSize: nat, newcomers: seq<I>, children: seq<I>)
    requires eliteSize <= |current| && AllEvaluated(evaluate, current)
    ensures AllEvaluated(evaluate, NextGeneration(current, eliteSize, ScoreAll(evaluate, newcomers), ScoreAll(evaluate, children)))
  {
    var elite := current[..eliteSize];
    assert AllEvaluated(evaluate, elite) by {
      forall k | 0 <= k < |elite|
        ensures elite[k].objvalue == evaluate(elite[k].individual)
      {
        assert elite[k] == current[k];
      }
    }
    var scored := ScoreAll(evaluate, newcomers) + ScoreAll(evaluate, children);
    assert AllEvaluated(evaluate, scored) by {
      forall k | 0 <= k < |scored|
        ensures scored[k].objvalue == evaluate(scored[k].individual)
      {
        if k >= |newcomers| {
          assert scored[k] == ScoreAll(evaluate, children)[k - |newcomers|];
        }
      }
    }
    InsertAllEvaluated(evaluate, elite, scored);
  }

  /** The best objective never rises from one generation to the next. */
  ghost predicate NonIncreasing<I>(history: seq<Scored<I>>) {
    forall g :: 0 <= g < |history| - 1 ==> history[g + 1].objvalue <= history[g].objvalue
  }

  /** generations_no_improv after the run in `history` (history[g] = best entry after g generations). */
  ghost function StallCount<I>(history: seq<Scored<I>>): nat
    decreases |history|
  {
    if |history| <= 1 then 0
    else if history[|history| - 1].objvalue < history[|history| - 2].objvalue then 0
    else StallCount(history[..|history| - 1]) + 1
  }

  /** The counter never exceeds the number of generations run. */
  lemma {:induction false} StallCountBound<I>(history: seq<Scored<I>>)
    requires |history| >= 1
    ensures StallCount(history) <= |history| - 1
    decreases |history|
  {
    if |history| > 1 {
      StallCountBound(history[..|history| - 1]);
    }
  }

  /** Under a constant evaluator every generation ties: the counter equals the number of generations run. */
  lemma {:induction false} ConstantObjectivesStall<I>(history: seq<Scored<I>>)
    requires |history| >= 1
    requires forall i :: 0 <= i < |history| ==> history[i].objvalue == history[0].objvalue
    ensures StallCount(history) == |history| - 1
    decreases |history|
  {
    if |history| > 1 {
      ConstantObjectivesStall(history[..|history| - 1]);
    }
  }

  /** In a non-increasing history, the stalled generations all share the last best value. */
  lemma {:induction false} StalledGenerationsTie<I>(history: seq<Scored<I>>)
    requires |history| >= 1
    requires NonIncreasing(history)
    ensures StallCount(history) <= |history| - 1
    ensures forall i :: |history| - 1 - StallCount(history) <= i < |history| ==>
      history[i].objvalue == history[|history| - 1].objvalue
    decreases |history|
  {
    if |history| > 1 {
      var front := history[..|history| - 1];
      StalledGenerationsTie(front);
    }
  }

  /** The at_iteration callbacks of a run whose bests are `history`: after generation g, when g > 0 and g is a multiple of `freq`. */
  ghost function IterationEvents<I>(history: seq<Scored<I>>, clock: nat -> real, freq: nat): seq<Event<I>>
    requires freq > 0 || |history| <= 2
    decreases |history|
  {
    if |history| <= 1 then []
    else
      var g := |history| - 2;
      IterationEvents(history[..|history| - 1], clock, freq)
        + (if g > 0 && g % freq == 0 then [AtIteration(history[|history| - 1], g, clock(g))] else [])
  }

  /** The generation an event reports (at_start reports none). */
  function GenerationOf<I>(ev: Event<I>): nat {
    match ev
    case AtStart(_) => 0
    case AtIteration(_, g, _) => g
    case AtEnd(_, g, _) => g
  }

  /** `ev` is the at_iteration call for a positive multiple of `freq` below the final count, with that generation's best entry and elapsed time. */
  ghost predicate IsIterationEvent<I>(ev: Event<I>, history: seq<Scored<I>>, clock: nat -> real, freq: nat) {
    && ev.AtIteration?
    && 0 < ev.generation < |history| - 1
    && freq > 0 && ev.generation % freq == 0
    && ev == AtIteration(history[ev.generation + 1], ev.generation, clock(ev.generation))
  }

  /** Every at_iteration call is for a positive multiple of `freq` below the final count, carries that generation's best entry and elapsed time, and the calls come in increasing order. */
  lemma {:induction false} IterationEventsAreMultiples<I>(history: seq<Scored<I>>, clock: nat -> real, freq: nat)
    requires freq > 0
    ensures forall k :: 0 <= k < |IterationEvents(history, clock, freq)| ==>
      IsIterationEvent(IterationEvents(history, clock, freq)[k], history, clock, freq)
    ensures forall k, l :: 0 <= k < l < |IterationEvents(history, clock, freq)| ==>
      GenerationOf(IterationEvents(history, clock, freq)[k]) < GenerationOf(IterationEvents(history, clock, freq)[l])
    decreases |history|
  {
    if |history| > 1 {
      var front := history[..|history| - 1];
      IterationEventsAreMultiples(front, clock, freq);
      var g := |history| - 2;
      var evs := IterationEvents(history, clock, freq);
      var pre := IterationEvents(front, clock, freq);
      assert evs == pre + (if g > 0 && g % freq == 0 then [AtIteration(history[g + 1], g, clock(g))] else []);
      forall k | 0 <= k < |evs|
        ensures IsIterationEvent(evs[k], history, clock, freq)
      {
        if k < |pre| {
          assert evs[k] == pre[k];
          assert IsIterationEvent(pre[k], front, clock, freq);
          assert front[pre[k].generation + 1] == history[pre[k].generation + 1];
        }
      }
      forall k, l | 0 <= k < l < |evs|
        ensures GenerationOf(evs[k]) < GenerationOf(evs[l])
      {
        assert k < |pre|;
        assert evs[k] == pre[k];
        assert IsIterationEvent(pre[k], front, clock, freq);
        if l < |pre| {
          assert evs[l] == pre[l];
        }
      }
    }
  }

  /** Every positive multiple of `freq` below the final count gets its at_iteration call. */
  lemma {:induction false} IterationEventsCoverMultiples<I>(history: seq<Scored<I>>, clock: nat -> real, freq: nat, g: nat)
    requires freq > 0 && 0 < g < |history| - 1 && g % freq == 0
    ensures AtIteration(history[g + 1], g, clock(g)) in IterationEvents(history, clock, freq)
    decreases |history|
  {
    var front := history[..|history| - 1];
    var last := |history| - 2;
    var evs := IterationEvents(history, clock, freq);
    var pre := IterationEvents(front, clock, freq);
    assert evs == pre + (if last > 0 && last % freq == 0 then [AtIteration(history[last + 1], last, clock(last))] else []);
    if g < last {
      IterationEventsCoverMultiples(front, clock, freq, g);
      assert front[g + 1] == history[g + 1];
    }
  }

  /** Appending the best entry of one more generation: how the counter and the callbacks extend, and that earlier prefixes keep their counts. */
  lemma HistoryGrows<I>(history: seq<Scored<I>>, x: Scored<I>, clock: nat -> real, freq: nat)
    requires |history| >= 1
    requires freq > 0 || |history| <= 1
    ensures StallCount(history + [x])
         == if x.objvalue < history[|history| - 1].objvalue then 0 else StallCount(history) + 1
    ensures forall g :: 1 <= g <= |history| ==> StallCount((history + [x])[..g]) == StallCount(history[..g])
    ensures IterationEvents(history + [x], clock, freq)
         == IterationEvents(history, clock, freq)
          + (if |history| - 1 > 0 && (|history| - 1) % freq == 0 then [AtIteration(x, |history| - 1, clock(|history| - 1))] else [])
    ensures NonIncreasing(history) && x.objvalue <= history[|history| - 1].objvalue ==> NonIncreasing(history + [x])
  {
    var longer := history + [x];
    assert longer[..|longer| - 1] == history;
    forall g | 1 <= g <= |history|
      ensures StallCount(longer[..g]) == StallCount(history[..g])
    {
      assert longer[..g] == history[..g];
    }
  }

  /** The at_iteration call, if any, made after the generation that appends `x` to `history`. */
  ghost function IterationCall<I>(history: seq<Scored<I>>, x: Scored<I>, clock: nat -> real, freq: nat): seq<Event<I>>
    requires |history| >= 1
    requires freq > 0 || |history| <= 1
  {
    var g := |history| - 1;
    if g > 0 && g % freq == 0 then [AtIteration(x, g, clock(g))] else []
  }

  /** A log holding the calls of `history` extended by the next call holds the calls of the longer history. */
  lemma LoggedStep<I>(history: seq<Scored<I>>, x: Scored<I>, clock: nat -> real, freq: nat, log0: seq<Event<I>>, log: seq<Event<I>>)
    requires |history| >= 1
    requires freq > 0 || |history| <= 1
    requires log == log0 + IterationEvents(history, clock, freq)
    ensures log + IterationCall(history, x, clock, freq) == log0 + IterationEvents(history + [x], clock, freq)
  {
    HistoryGrows(history, x, clock, freq);
    assert log + IterationCall(history, x, clock, freq)
        == log0 + (IterationEvents(history, clock, freq) + IterationCall(history, x, clock, freq));
  }

  class Solver<I> {
    const params: Params
    /** The individual that the generator returns on its k-th call. */
    const generate: nat -> I
    /** The evaluator's objective function (lower is better). */
    const evaluate: I -> real
    /** biased_crossover_with: parent, other parent, bias and engine give the child and the advanced engine. */
    const crossover: (I, I, real, Engine) -> (I, Engine)
    /** uniform_int_distribution(0, hi) drawn in an engine state. */
    const uniformIndex: (Engine, nat) -> nat
    const eliteSize: nat
    const newIndividualsSize: nat
    /** The population, ascending by objective value. */
    var population: seq<Scored<I>>
    /** How many individuals the generator has produced so far. */
    var generated: nat
    /** The visitor callbacks made so far. */
    ghost var log: seq<Event<I>>

    ghost predicate Valid()
      reads this
    {
      && SizesCastable(params)
      && eliteSize == EliteSize(params)
      && newIndividualsSize == NewIndividualsSize(params)
      && IsIndexDistribution(uniformIndex)
      && Sorted(population)
      && AllEvaluated(evaluate, population)
    }

    /** The constructor derives the elite and newcomers block sizes and starts with an empty population. */
    constructor (params: Params, generate: nat -> I, evaluate: I -> real,
                 crossover: (I, I, real, Engine) -> (I, Engine), uniformIndex: (Engine, nat) -> nat)
      requires SizesCastable(params) && IsIndexDistribution(uniformIndex)
      ensures Valid()
      ensures this.params == params && this.generate == generate && this.evaluate == evaluate
      ensures this.crossover == crossover && this.uniformIndex == uniformIndex
      ensures eliteSize == EliteSize(params) && newIndividualsSize == NewIndividualsSize(params)
      ensures population == [] && generated == 0 && log == []
    {
      this.params := params;
      this.generate := generate;
      this.evaluate := evaluate;
      this.crossover := crossover;
      this.uniformIndex := uniformIndex;
      eliteSize := EliteSize(params);
      newIndividualsSize := NewIndividualsSize(params);
      population := [];
      generated := 0;
      log := [];
    }

    /** The blocks fit in the population, and crossover has an elite pool whenever it has slots to fill. */
    ghost predicate Feasible() {
      eliteSize + newIndividualsSize <= params.populationSize
      && (eliteSize + newIndividualsSize < params.populationSize ==> eliteSize >= 1)
    }

    /** non_elite_size: the number of crossover slots. */
    function NonEliteSize(): nat
      requires eliteSize + newIndividualsSize <= params.populationSize
    {
      params.populationSize - eliteSize - newIndividualsSize
    }

    /** The individuals returned by `count` generator calls, starting with call number `start`. */
    function Fresh(start: nat, count: nat): seq<I> {
      seq(count, (i: nat) => generate(start + i))
    }

    /** The first parent's index: a draw from [0, elite_size - 1]. */
    function ElitePick(mt: Engine): (i: nat)
      requires IsIndexDistribution(uniformIndex) && eliteSize >= 1
      ensures i < eliteSize
    {
      uniformIndex(mt, eliteSize - 1)
    }

    /** The second parent's index: elite_size plus a draw from [0, non_elite_size - 1]. */
    function MiddlePick(mt: Engine): (j: nat)
      requires IsIndexDistribution(uniformIndex) && Feasible() && NonEliteSize() >= 1
      ensures eliteSize <= j < params.populationSize - newIndividualsSize
    {
      eliteSize + uniformIndex(mt, NonEliteSize() - 1)
    }

    /** One crossover slot: an elite parent, then a middle parent, drawn from the population's `parents`, then the crossover itself. */
    function Mate(parents: seq<I>, mt: Engine): (I, Engine)
      requires IsIndexDistribution(uniformIndex) && Feasible() && NonEliteSize() >= 1
      requires |parents| == params.populationSize
    {
      var e := ElitePick(mt);
      var m := MiddlePick(mt.Advance(1));
      crossover(parents[e], parents[m], params.crossoverEliteBias, mt.Advance(2))
    }

    /** The first `count` crossover children bred from the population's `parents`, and the engine state after them. */
    function Offspring(parents: seq<I>, mt: Engine, count: nat): (r: (seq<I>, Engine))
      requires IsIndexDistribution(uniformIndex) && Feasible() && count <= NonEliteSize()
      requires |parents| == params.populationSize
      ensures |r.0| == count
    {
      if count == 0 then ([], mt)
      else
        var before := Offspring(parents, mt, count - 1);
        var bred := Mate(parents, before.1);
        (before.0 + [bred.0], bred.1)
    }

    /**
     * One generation evolved from `current`: the newcomers are generator calls
     * `start` onwards, and the children are bred with an engine seeded from
     * `deviceData`.
     */
    ghost function Evolve(current: seq<Scored<I>>, start: nat, deviceData: seq<nat>): (r: seq<Scored<I>>)
      requires IsIndexDistribution(uniformIndex) && Feasible()
      requires |current| == params.populationSize
      ensures |r| == params.populationSize
    {
      NextGeneration(current, eliteSize,
        ScoreAll(evaluate, Fresh(start, newIndividualsSize)),
        ScoreAll(evaluate, Offspring(Individuals(current), SeededEngine(deviceData), NonEliteSize()).0))
    }

    /** A full, sorted population in which every entry carries its own evaluation. */
    ghost predicate WellFormed(p: seq<Scored<I>>) {
      Sorted(p) && |p| == params.populationSize && AllEvaluated(evaluate, p)
    }

    /** Evolving a well-formed population gives a well-formed population. */
    lemma EvolveWellFormed(current: seq<Scored<I>>, start: nat, deviceData: seq<nat>)
      requires IsIndexDistribution(uniformIndex) && Feasible()
      requires WellFormed(current)
      ensures WellFormed(Evolve(current, start, deviceData))
    {
      var newcomers := Fresh(start, newIndividualsSize);
      var children := Offspring(Individuals(current), SeededEngine(deviceData), NonEliteSize()).0;
      NextGenerationShape(current, eliteSize, ScoreAll(evaluate, newcomers), ScoreAll(evaluate, children));
      NextGenerationEvaluated(evaluate, current, eliteSize, newcomers, children);
    }

    /** The generator call at which generation g's newcomers begin, when the run's first call is `start`. */
    function BatchStart(start: nat, g: nat): nat {
      start + g * newIndividualsSize
    }

    /** Each generation's newcomers begin where the previous generation's ended. */
    lemma BatchStartNext(start: nat, g: nat)
      ensures BatchStart(start, g + 1) == BatchStart(start, g) + newIndividualsSize
    {
    }

    /**
     * The populations of a run of solve's main loop over `n` generations from
     * `pop0`: each one after the first is the evolution of the one before,
     * generation g taking its newcomers from generator call BatchStart(start, g)
     * on and its crossover seed from `deviceData(g)`.
     */
    ghost function Run(pop0: seq<Scored<I>>, start: nat, deviceData: nat -> seq<nat>, n: nat): (r: seq<seq<Scored<I>>>)
      requires WellFormed(pop0)
      requires n > 0 ==> IsIndexDistribution(uniformIndex) && Feasible()
      ensures |r| == n + 1 && r[0] == pop0
      ensures forall g :: 0 <= g < |r| ==> |r[g]| == params.populationSize
      decreases n
    {
      if n == 0 then [pop0]
      else
        var before := Run(pop0, start, deviceData, n - 1);
        before + [Evolve(before[n - 1], BatchStart(start, n - 1), deviceData(n - 1))]
    }

    /** Every population of a run from a well-formed population is well-formed. */
    lemma {:induction false} RunWellFormed(pop0: seq<Scored<I>>, start: nat, deviceData: nat -> seq<nat>, n: nat)
      requires WellFormed(pop0)
      requires n > 0 ==> IsIndexDistribution(uniformIndex) && Feasible()
      ensures forall g :: 0 <= g <= n ==> WellFormed(Run(pop0, start, deviceData, n)[g])
      decreases n
    {
      if n > 0 {
        var before := Run(pop0, start, deviceData, n - 1);
        RunWellFormed(pop0, start, deviceData, n - 1);
        EvolveWellFormed(before[n - 1], BatchStart(start, n - 1), deviceData(n - 1));
        assert Run(pop0, start, deviceData, n) == before + [Evolve(before[n - 1], BatchStart(start, n - 1), deviceData(n - 1))];
      }
    }

    /** A run one generation longer keeps every population of the shorter run. */
    lemma RunPrefix(pop0: seq<Scored<I>>, start: nat, deviceData: nat -> seq<nat>, n: nat, g: nat)
      requires WellFormed(pop0) && g < n
      requires IsIndexDistribution(uniformIndex) && Feasible()
      ensures Run(pop0, start, deviceData, n)[g] == Run(pop0, start, deviceData, n - 1)[g]
    {
    }

    /** The last population of a run is the evolution of the one before it. */
    lemma RunLast(pop0: seq<Scored<I>>, start: nat, deviceData: nat -> seq<nat>, g: nat)
      requires WellFormed(pop0)
      requires IsIndexDistribution(uniformIndex) && Feasible()
      ensures Run(pop0, start, deviceData, g + 1)[g + 1]
           == Evolve(Run(pop0, start, deviceData, g + 1)[g], BatchStart(start, g), deviceData(g))
    {
      var before := Run(pop0, start, deviceData, g);
      assert Run(pop0, start, deviceData, g + 1) == before + [Evolve(before[g], BatchStart(start, g), deviceData(g))];
    }

    /** RunLast, for a run whose length is written `n`. */
    lemma RunLastAt(pop0: seq<Scored<I>>, start: nat, deviceData: nat -> seq<nat>, n: nat, g: nat)
      requires WellFormed(pop0) && g + 1 == n
      requires IsIndexDistribution(uniformIndex) && Feasible()
      ensures Run(pop0, start, deviceData, n)[g + 1]
           == Evolve(Run(pop0, start, deviceData, n)[g], BatchStart(start, g), deviceData(g))
    {
      RunLast(pop0, start, deviceData, g);
    }

    /** In a run, population g + 1 is the evolution of population g, for every generation g. */
    lemma {:induction false} RunSteps(pop0: seq<Scored<I>>, start: nat, deviceData: nat -> seq<nat>, n: nat, g: nat)
      requires WellFormed(pop0) && g < n
      requires IsIndexDistribution(uniformIndex) && Feasible()
      ensures Run(pop0, start, deviceData, n)[g + 1]
           == Evolve(Run(pop0, start, deviceData, n)[g], BatchStart(start, g), deviceData(g))
      decreases n
    {
      if g + 1 == n {
        RunLastAt(pop0, start, deviceData, n, g);
      } else {
        RunSteps(pop0, start, deviceData, n - 1, g);
        RunPrefix(pop0, start, deviceData, n, g);
        RunPrefix(pop0, start, deviceData, n, g + 1);
      }
    }

    /**
     * The evaluation fan-out of add_new_individuals and do_crossover, run one
     * after the other: evaluation i belongs to individual i.
     */
    method EvaluateAll(individuals: seq<I>) returns (evaluations: seq<real>)
      ensures |evaluations| == |individuals|
      ensures forall k :: 0 <= k < |individuals| ==> evaluations[k] == evaluate(individuals[k])
    {
      evaluations := [];
      var i := 0;
      while i < |individuals|
        invariant 0 <= i <= |individuals|
        invariant |evaluations| == i
        invariant forall k :: 0 <= k < i ==> evaluations[k] == evaluate(individuals[k])
      {
        evaluations := evaluations + [evaluate(individuals[i])];
        i := i + 1;
      }
    }

    /** The joining loop: inserts individual i with evaluation i, for i in order. */
    method InsertScored(pop: seq<Scored<I>>, individuals: seq<I>, evaluations: seq<real>) returns (r: seq<Scored<I>>)
      requires |evaluations| == |individuals|
      requires forall k :: 0 <= k < |individuals| ==> evaluations[k] == evaluate(individuals[k])
      ensures r == InsertAll(pop, ScoreAll(evaluate, individuals))
    {
      ghost var scored := ScoreAll(evaluate, individuals);
      r := pop;
      var i := 0;
      while i < |individuals|
        invariant 0 <= i <= |individuals|
        invariant r == InsertAll(pop, scored[..i])
      {
        InsertAllStep(pop, scored, i);
        r := Insert(r, Scored(individuals[i], evaluations[i]));
        i := i + 1;
      }
      assert scored[..|individuals|] == scored;
    }

    /** add_new_individuals: generates `howMany` individuals, scores each one, and inserts them in order. */
    method AddNewIndividuals(pop: seq<Scored<I>>, howMany: nat) returns (r: seq<Scored<I>>)
      requires Sorted(pop)
      modifies this`generated
      ensures generated == old(generated) + howMany
      ensures r == InsertAll(pop, ScoreAll(evaluate, Fresh(old(generated), howMany)))
      ensures Sorted(r) && |r| == |pop| + howMany
    {
      var individuals: seq<I> := [];
      var i := 0;
      while i < howMany
        invariant 0 <= i <= howMany
        invariant generated == old(generated) + i
        invariant individuals == Fresh(old(generated), i)
      {
        individuals := individuals + [generate(generated)];
        generated := generated + 1;
        i := i + 1;
      }
      var evaluations := EvaluateAll(individuals);
      r := InsertScored(pop, individuals, evaluations);
      InsertAllSorted(pop, ScoreAll(evaluate, individuals));
    }

    /** One slot of do_crossover's breeding loop: an elite parent, then a middle parent, then their child. */
    method BreedOne(mt: Engine) returns (child: I, next: Engine)
      requires Valid() && Feasible() && |population| == params.populationSize
      requires NonEliteSize() >= 1
      ensures (child, next) == Mate(Individuals(population), mt)
    {
      var nonEliteSize := params.populationSize - eliteSize - newIndividualsSize;
      var e := uniformIndex(mt, eliteSize - 1);
      assert e == ElitePick(mt);
      var mt1 := mt.Advance(1);
      var m := uniformIndex(mt1, nonEliteSize - 1);
      assert eliteSize + m == MiddlePick(mt.Advance(1));
      var mt2 := mt1.Advance(1);
      IndividualsIndex(population, e);
      IndividualsIndex(population, eliteSize + m);
      var bred := crossover(population[e].individual, population[eliteSize + m].individual, params.crossoverEliteBias, mt2);
      child, next := bred.0, bred.1;
    }

    /** The breeding loop of do_crossover: one child per crossover slot, each slot drawing on the engine where the last one left it. */
    method Breed(start: Engine) returns (individuals: seq<I>)
      requires Valid() && Feasible() && |population| == params.populationSize
      ensures individuals == Offspring(Individuals(population), start, NonEliteSize()).0
    {
      var nonEliteSize := params.populationSize - eliteSize - newIndividualsSize;
      ghost var parents := Individuals(population);
      var mt := start;
      individuals := [];
      var i := 0;
      while i < nonEliteSize
        invariant 0 <= i <= nonEliteSize
        invariant individuals == Offspring(parents, start, i).0
        invariant mt == Offspring(parents, start, i).1
      {
        var child;
        child, mt := BreedOne(mt);
        individuals := individuals + [child];
        i := i + 1;
      }
    }

    /** do_crossover: breeds non_elite_size children from the current population and inserts them into `newGeneration`. */
    method DoCrossover(newGeneration: seq<Scored<I>>, deviceData: seq<nat>) returns (r: seq<Scored<I>>)
      requires Valid() && Feasible() && |population| == params.populationSize
      requires Sorted(newGeneration) && |newGeneration| == eliteSize + newIndividualsSize
      ensures r == InsertAll(newGeneration, ScoreAll(evaluate, Offspring(Individuals(population), SeededEngine(deviceData), NonEliteSize()).0))
      ensures Sorted(r) && |r| == params.populationSize
    {
      var individuals := Breed(SeededEngine(deviceData));
      var evaluations := EvaluateAll(individuals);
      r := InsertScored(newGeneration, individuals, evaluations);
      InsertAllSorted(newGeneration, ScoreAll(evaluate, individuals));
    }

    /** evolve_new_generation: the elite prefix, then new individuals, then crossover children. */
    method EvolveNewGeneration(deviceData: seq<nat>) returns (newGeneration: seq<Scored<I>>)
      requires Valid() && Feasible() && |population| == params.populationSize
      modifies this`generated
      ensures generated == old(generated) + newIndividualsSize
      ensures newGeneration == NextGeneration(population, eliteSize,
        ScoreAll(evaluate, Fresh(old(generated), newIndividualsSize)),
        ScoreAll(evaluate, Offspring(Individuals(population), SeededEngine(deviceData), NonEliteSize()).0))
      ensures Sorted(newGeneration) && |newGeneration| == params.populationSize
      ensures eliteSize >= 1 ==> newGeneration[0].objvalue <= population[0].objvalue
    {
      if eliteSize >= 1 {
        BestNeverWorsens(population, eliteSize,
          ScoreAll(evaluate, Fresh(generated, newIndividualsSize)),
          ScoreAll(evaluate, Offspring(Individuals(population), SeededEngine(deviceData), NonEliteSize()).0));
      }
      newGeneration := population[..eliteSize];
      newGeneration := AddNewIndividuals(newGeneration, newIndividualsSize);
      newGeneration := DoCrossover(newGeneration, deviceData);
      InsertAllAppend(population[..eliteSize],
        ScoreAll(evaluate, Fresh(old(generated), newIndividualsSize)),
        ScoreAll(evaluate, Offspring(Individuals(population), SeededEngine(deviceData), NonEliteSize()).0));
    }

    /**
     * The body of solve's main loop after the timeout check: evolves the next
     * generation, reports whether its best entry strictly improves on the
     * current one, and makes it the population.
     */
    method ReplaceGeneration(deviceData: seq<nat>) returns (improved: bool)
      requires Valid() && Feasible() && |population| == params.populationSize && 1 <= params.populationSize
      modifies this`population, this`generated
      ensures Valid() && |population| == params.populationSize
      ensures generated == old(generated) + newIndividualsSize
      ensures population == Evolve(old(population), old(generated), deviceData)
      ensures improved <==> population[0].objvalue < old(population)[0].objvalue
      ensures eliteSize >= 1 ==> population[0].objvalue <= old(population)[0].objvalue
    {
      var newGeneration := EvolveNewGeneration(deviceData);
      NextGenerationEvaluated(evaluate, population, eliteSize,
        Fresh(old(generated), newIndividualsSize),
        Offspring(Individuals(population), SeededEngine(deviceData), NonEliteSize()).0);
      improved := newGeneration[0].objvalue < population[0].objvalue;
      population := newGeneration;
    }

    /**
     * The population side of solve's main loop after `generation`
     * generations, for a loop entered with population `pop0` and `start`
     * generator calls made: `populations` is the run from `pop0`, ending in
     * `current`, and `calls` generator calls have been made, one per newcomer
     * since.
     */
    ghost predicate EvolvingFrom(generation: nat, populations: seq<seq<Scored<I>>>, current: seq<Scored<I>>, calls: nat,
                                 deviceData: nat -> seq<nat>, start: nat, pop0: seq<Scored<I>>)
    {
      && WellFormed(pop0)
      && (generation > 0 ==> IsIndexDistribution(uniformIndex) && Feasible())
      && populations == Run(pop0, start, deviceData, generation)
      && current == populations[generation]
      && calls == BatchStart(start, generation)
    }

    /** Evolving the current population once more extends the run by that generation. */
    lemma EvolvingStep(generation: nat, populations: seq<seq<Scored<I>>>, current: seq<Scored<I>>, calls: nat,
                       deviceData: nat -> seq<nat>, start: nat, pop0: seq<Scored<I>>)
      requires EvolvingFrom(generation, populations, current, calls, deviceData, start, pop0)
      requires IsIndexDistribution(uniformIndex) && Feasible()
      ensures WellFormed(current)
      ensures EvolvingFrom(generation + 1, populations + [Evolve(current, calls, deviceData(generation))],
                           Evolve(current, calls, deviceData(generation)), calls + newIndividualsSize, deviceData, start, pop0)
    {
      BatchStartNext(start, generation);
      RunWellFormed(pop0, start, deviceData, generation);
      var next := Evolve(current, calls, deviceData(generation));
      assert Run(pop0, start, deviceData, generation + 1) == populations + [next];
      assert (populations + [next])[generation + 1] == next;
    }

    /**
     * The bookkeeping side of solve's main loop after `generation`
     * generations: `history` holds the best entry of each population, the
     * counter `noImprov` is the history's stall count, and no earlier stop
     * test fired.
     */
    ghost predicate Tracked(generation: nat, noImprov: nat, history: seq<Scored<I>>, populations: seq<seq<Scored<I>>>,
                            clock: nat -> real)
    {
      && |populations| == |history| == generation + 1 <= params.maxGenerations + 1
      && (forall g :: 0 <= g < |history| ==> |populations[g]| >= 1 && history[g] == populations[g][0])
      && noImprov == StallCount(history)
      && (forall g :: 0 <= g < generation ==> clock(g) <= params.timeoutS as real)
      && (forall g :: 1 <= g <= generation ==> StallCount(history[..g]) < params.maxGenerationsNoImprovement)
      && (eliteSize >= 1 ==> NonIncreasing(history))
    }

    /** One more generation that passed the stop tests keeps the bookkeeping, with the counter reset exactly on a strict improvement. */
    lemma TrackedStep(generation: nat, noImprov: nat, history: seq<Scored<I>>, populations: seq<seq<Scored<I>>>,
                      clock: nat -> real, next: seq<Scored<I>>, improved: bool)
      requires Tracked(generation, noImprov, history, populations, clock)
      requires generation < params.maxGenerations && noImprov < params.maxGenerationsNoImprovement
      requires clock(generation) <= params.timeoutS as real
      requires |next| >= 1
      requires improved <==> next[0].objvalue < history[generation].objvalue
      requires eliteSize >= 1 ==> next[0].objvalue <= history[generation].objvalue
      ensures Tracked(generation + 1, if improved then 0 else noImprov + 1, history + [next[0]], populations + [next], clock)
    {
      var longer := history + [next[0]];
      var run := populations + [next];
      HistoryGrows(history, next[0], clock, 1);
      assert longer[..generation + 1] == history;
      forall g | 0 <= g < |longer|
        ensures |run[g]| >= 1 && longer[g] == run[g][0]
      {
        if g < |history| {
          assert run[g] == populations[g];
        }
      }
    }

    /**
     * What holds at the head of solve's main loop after `generation`
     * generations, for a loop entered with population `pop0`, log `log0` and
     * `start` generator calls made: the population and bookkeeping sides
     * above, and the log holds the at_iteration calls made since.
     */
    ghost predicate Running(generation: nat, noImprov: nat, history: seq<Scored<I>>, populations: seq<seq<Scored<I>>>,
                            clock: nat -> real, deviceData: nat -> seq<nat>,
                            start: nat, pop0: seq<Scored<I>>, log0: seq<Event<I>>)
      reads this
    {
      && Valid() && 1 <= params.populationSize
      && EvolvingFrom(generation, populations, population, generated, deviceData, start, pop0)
      && Tracked(generation, noImprov, history, populations, clock)
      && (params.visitorFreqIterations > 0 || params.maxGenerations <= 1)
      && log == log0 + IterationEvents(history, clock, params.visitorFreqIterations)
    }

    /**
     * One pass of solve's main loop once the stop tests have failed: evolves
     * the next generation, updates the stall counter and calls at_iteration
     * when the generation number is a positive multiple of the frequency.
     */
    method RunGeneration(generation: nat, noImprov: nat, ghost history: seq<Scored<I>>, ghost populations: seq<seq<Scored<I>>>,
                         clock: nat -> real, deviceData: nat -> seq<nat>,
                         ghost start: nat, ghost pop0: seq<Scored<I>>, ghost log0: seq<Event<I>>)
      returns (nextNoImprov: nat, ghost nextHistory: seq<Scored<I>>, ghost nextPopulations: seq<seq<Scored<I>>>)
      requires Running(generation, noImprov, history, populations, clock, deviceData, start, pop0, log0)
      requires generation < params.maxGenerations && noImprov < params.maxGenerationsNoImprovement
      requires clock(generation) <= params.timeoutS as real
      requires Feasible()
      modifies this`population, this`generated, this`log
      ensures Running(generation + 1, nextNoImprov, nextHistory, nextPopulations, clock, deviceData, start, pop0, log0)
      ensures nextHistory == history + [population[0]] && nextPopulations == populations + [population]
    {
      EvolvingStep(generation, populations, population, generated, deviceData, start, pop0);
      var improved := ReplaceGeneration(deviceData(generation));
      TrackedStep(generation, noImprov, history, populations, clock, population, improved);
      LoggedStep(history, population[0], clock, params.visitorFreqIterations, log0, log);
      nextNoImprov := if improved then 0 else noImprov + 1;
      nextHistory := history + [population[0]];
      nextPopulations := populations + [population];
      if generation > 0 && generation % params.visitorFreqIterations == 0 {
        log := log + [AtIteration(population[0], generation, clock(generation))];
      } else {
        assert log == log + IterationCall(history, population[0], clock, params.visitorFreqIterations);
      }
    }

    /** What the loop state says once solve's main loop stops, in the terms of the loop's outcome. */
    lemma RunningFacts(generation: nat, noImprov: nat, history: seq<Scored<I>>, populations: seq<seq<Scored<I>>>,
                       clock: nat -> real, deviceData: nat -> seq<nat>, start: nat, pop0: seq<Scored<I>>, log0: seq<Event<I>>)
      requires Running(generation, noImprov, history, populations, clock, deviceData, start, pop0, log0)
      ensures Valid() && |population| == params.populationSize
      ensures generation == |history| - 1 <= params.maxGenerations
      ensures generation > 0 ==> Feasible()
      ensures |populations| == |history| && populations[0] == pop0 && population == populations[generation]
      ensures populations == Run(populations[0], start, deviceData, |history| - 1)
      ensures forall g :: 0 <= g < |history| ==> history[g] == populations[g][0]
      ensures history[0] == pop0[0] && history[|history| - 1] == population[0]
      ensures generated == start + (|history| - 1) * newIndividualsSize
      ensures noImprov == StallCount(history)
      ensures forall g :: 0 <= g < |history| - 1 ==> clock(g) <= params.timeoutS as real
      ensures forall g :: 1 <= g < |history| ==> StallCount(history[..g]) < params.maxGenerationsNoImprovement
      ensures eliteSize >= 1 ==> NonIncreasing(history)
      ensures log == log0 + IterationEvents(history, clock, params.visitorFreqIterations)
      ensures AllEvaluated(evaluate, history)
    {
      assert populations[0] == pop0;
      assert |history| - 1 == generation;
      RunWellFormed(pop0, start, deviceData, generation);
      forall g | 0 <= g < |history|
        ensures history[g].objvalue == evaluate(history[g].individual)
      {
        assert WellFormed(populations[g]);
      }
    }

    /**
     * solve's main loop: evolves generations while the generation and stall
     * limits allow and the elapsed time `clock(generation)` has not passed the
     * timeout, calling at_iteration every `visitorFreqIterations` generations
     * after the first.  It stops in a loop state `Running` that one of the
     * three stop tests ends.
     */
    method MainLoop(clock: nat -> real, deviceData: nat -> seq<nat>)
      returns (generation: nat, ghost history: seq<Scored<I>>, ghost populations: seq<seq<Scored<I>>>)
      requires Valid() && |population| == params.populationSize && 1 <= params.populationSize
      requires params.maxGenerations > 0 && params.maxGenerationsNoImprovement > 0 ==> Feasible()
      requires params.visitorFreqIterations > 0 || params.maxGenerations <= 1
      modifies this`population, this`generated, this`log
      ensures Running(generation, StallCount(history), history, populations, clock, deviceData, old(generated), old(population), old(log))
      ensures || generation == params.maxGenerations
              || StallCount(history) >= params.maxGenerationsNoImprovement
              || clock(generation) > params.timeoutS as real
    {
      generation := 0;
      var generationsNoImprov: nat := 0;
      history := [population[0]];
      populations := [population];
      ghost var start, pop0, log0 := generated, population, log;

      while generation < params.maxGenerations && generationsNoImprov < params.maxGenerationsNoImprovement
        invariant Running(generation, generationsNoImprov, history, populations, clock, deviceData, start, pop0, log0)
        decreases params.maxGenerations - generation
      {
        var elapsed := clock(generation);
        if elapsed > params.timeoutS as real {
          break;
        }
        generationsNoImprov, history, populations :=
          RunGeneration(generation, generationsNoImprov, history, populations, clock, deviceData, start, pop0, log0);
        generation := generation + 1;
      }
    }

    /**
     * solve's main loop, seen from outside: the ghost `populations` holds the
     * population after each generation (populations[0]: the one the loop
     * starts from), each one after the first the evolution of the one before
     * (`Run`), and `history` holds their best entries.
     */
    method RunGenerations(clock: nat -> real, deviceData: nat -> seq<nat>, ghost start: nat)
      returns (generation: nat, ghost history: seq<Scored<I>>, ghost populations: seq<seq<Scored<I>>>)
      requires Valid() && |population| == params.populationSize && 1 <= params.populationSize && start == generated
      requires params.maxGenerations > 0 && params.maxGenerationsNoImprovement > 0 ==> Feasible()
      requires params.visitorFreqIterations > 0 || params.maxGenerations <= 1
      modifies this`population, this`generated, this`log
      ensures Valid() && |population| == params.populationSize
      ensures generation == |history| - 1 <= params.maxGenerations
      ensures generation > 0 ==> Feasible()
      ensures |populations| == |history| && populations[0] == old(population) && population == populations[generation]
      ensures populations == Run(populations[0], start, deviceData, |history| - 1)
      ensures forall g :: 0 <= g < |history| ==> history[g] == populations[g][0]
      ensures history[0] == old(population)[0] && history[|history| - 1] == population[0]
      ensures generated == start + (|history| - 1) * newIndividualsSize
      ensures forall g :: 0 <= g < |history| - 1 ==> clock(g) <= params.timeoutS as real
      ensures forall g :: 1 <= g < |history| ==> StallCount(history[..g]) < params.maxGenerationsNoImprovement
      ensures || generation == params.maxGenerations
              || StallCount(history) >= params.maxGenerationsNoImprovement
              || clock(generation) > params.timeoutS as real
      ensures eliteSize >= 1 ==> NonIncreasing(history)
      ensures log == old(log) + IterationEvents(history, clock, params.visitorFreqIterations)
      ensures AllEvaluated(evaluate, history)
    {
      ghost var pop0, log0 := population, log;
      generation, history, populations := MainLoop(clock, deviceData);
      RunningFacts(generation, StallCount(history), history, populations, clock, deviceData, start, pop0, log0);
    }

    /** The opening of solve: the initial population, population_size fresh individuals scored and inserted in order, then at_start. */
    method Begin()
      requires Valid() && population == [] && 1 <= params.populationSize
      modifies this`population, this`generated, this`log
      ensures Valid() && |population| == params.populationSize
      ensures population == InsertAll([], ScoreAll(evaluate, Fresh(old(generated), params.populationSize)))
      ensures generated == old(generated) + params.populationSize
      ensures log == old(log) + [AtStart(population[0])]
    {
      population := AddNewIndividuals(population, params.populationSize);
      InsertAllEvaluated(evaluate, [], ScoreAll(evaluate, Fresh(old(generated), params.populationSize)));
      log := log + [AtStart(population[0])];
    }

    /**
     * solve: builds and scores the initial population, calls at_start, runs
     * the main loop, calls at_end with the generation count and the total
     * time `totalS`, and returns the best entry.  The ghost `populations`
     * holds the population after each generation (populations[0]: the
     * initial one) and `history` their best entries.
     */
    method Solve(clock: nat -> real, deviceData: nat -> seq<nat>, totalS: real)
      returns (best: Scored<I>, ghost history: seq<Scored<I>>, ghost populations: seq<seq<Scored<I>>>)
      requires Valid() && population == []
      requires 1 <= params.populationSize
      requires params.maxGenerations > 0 && params.maxGenerationsNoImprovement > 0 ==> Feasible()
      requires params.visitorFreqIterations > 0 || params.maxGenerations <= 1
      modifies this`population, this`generated, this`log
      ensures Valid() && |population| == params.populationSize
      ensures best == population[0] && best.objvalue == evaluate(best.individual)
      ensures forall i :: 0 <= i < |population| ==> best.objvalue <= population[i].objvalue
      ensures 1 <= |history| <= params.maxGenerations + 1
      ensures |history| > 1 ==> Feasible()
      ensures |populations| == |history| && WellFormed(populations[0])
      ensures populations[0] == InsertAll([], ScoreAll(evaluate, Fresh(old(generated), params.populationSize)))
      ensures populations == Run(populations[0], old(generated) + params.populationSize, deviceData, |history| - 1)
      ensures population == populations[|populations| - 1]
      ensures forall g :: 0 <= g < |history| ==> history[g] == populations[g][0]
      ensures history[0] == populations[0][0] && history[|history| - 1] == best
      ensures generated == old(generated) + params.populationSize + (|history| - 1) * newIndividualsSize
      ensures forall g :: 0 <= g < |history| - 1 ==> clock(g) <= params.timeoutS as real
      ensures forall g :: 1 <= g < |history| ==> StallCount(history[..g]) < params.maxGenerationsNoImprovement
      ensures || |history| - 1 == params.maxGenerations
              || StallCount(history) >= params.maxGenerationsNoImprovement
              || clock(|history| - 1) > params.timeoutS as real
      ensures eliteSize >= 1 ==> NonIncreasing(history)
      ensures log == old(log) + [AtStart(history[0])]
                   + IterationEvents(history, clock, params.visitorFreqIterations)
                   + [AtEnd(best, |history| - 1, totalS)]
      ensures AllEvaluated(evaluate, history)
    {
      Begin();
      var generation;
      generation, history, populations := RunGenerations(clock, deviceData, old(generated) + params.populationSize);
      log := log + [AtEnd(population[0], generation, totalS)];
      best := population[0];
    }
  }

  /**
   * A run whose bests all share one objective value, and which stopped on the
   * generation or stall limit without any earlier stall stop, ran exactly the
   * stall limit's number of generations when that limit is the tighter one.
   */
  lemma StallLimitReached<I>(history: seq<Scored<I>>, maxGenerations: nat, maxNoImprov: nat)
    requires |history| >= 1
    requires forall i :: 0 <= i < |history| ==> history[i].objvalue == history[0].objvalue
    requires 1 <= maxNoImprov <= maxGenerations
    requires forall g :: 1 <= g < |history| ==> StallCount(history[..g]) < maxNoImprov
    requires |history| - 1 == maxGenerations || StallCount(history) >= maxNoImprov
    ensures |history| - 1 == maxNoImprov
  {
    ConstantObjectivesStall(history);
    if |history| > 1 {
      var front := history[..|history| - 1];
      ConstantObjectivesStall(front);
    }
  }

  /**
   * With an evaluator that gives every individual the same objective value
   * and a clock that never passes the timeout, solve stops on the stall
   * limit: it runs exactly max_generations_no_improvement generations
   * whenever that limit is the tighter one, and returns an entry scored
   * with that value.
   */
  method ConstantObjectiveStallsOut<I>(params: Params, generate: nat -> I, value: real,
                                       crossover: (I, I, real, Engine) -> (I, Engine), uniformIndex: (Engine, nat) -> nat,
                                       clock: nat -> real, deviceData: nat -> seq<nat>, totalS: real)
    returns (best: Scored<I>, ghost generations: nat)
    requires BlocksFit(params) && IsIndexDistribution(uniformIndex)
    requires EliteSize(params) + NewIndividualsSize(params) < params.populationSize ==> EliteSize(params) >= 1
    requires 1 <= params.populationSize && params.visitorFreqIterations > 0
    requires 1 <= params.maxGenerationsNoImprovement <= params.maxGenerations
    requires forall g :: clock(g) <= params.timeoutS as real
    ensures best.objvalue == value
    ensures generations == params.maxGenerationsNoImprovement
  {
    var solver := new Solver(params, generate, (_: I) => value, crossover, uniformIndex);
    ghost var history, populations;
    best, history, populations := solver.Solve(clock, deviceData, totalS);
    generations := |history| - 1;
    forall g | 0 <= g < |history|
      ensures history[g].objvalue == value
    {
      assert history[g].objvalue == solver.evaluate(history[g].individual);
    }
    StallLimitReached(history, params.maxGenerations, params.maxGenerationsNoImprovement);
  }
}
