# A verified model of a biased random-key genetic algorithm engine

This project models the core of a small biased random-key genetic algorithm
(BRKGA) engine written in C++, together with its travelling-salesman example.

- **Generation engine** (`Solving` in `solver.dfy`). The population is kept
  ascending by objective value, as a `std::multiset` keeps it. Each
  generation is built from three blocks:
  - the current elite prefix;
  - freshly generated individuals;
  - crossover children, each bred from an elite parent and a middle parent
    drawn from the current population.

  `solve` runs generations until one of three limits is reached: the
  generation limit, the limit on generations without improvement, or the
  timeout. The visitor's callbacks are recorded in a ghost log.
- **Ordering record** (`individual_with_obj_value.dfy`). An individual paired
  with its objective value, compared by the value only. The population
  (`population.dfy`) is a sorted sequence. An entry is inserted after every
  equal entry, which is where `std::multiset::insert` puts it.
- **Two chromosome encodings and their biased crossover.**
  - Random keys in [0,1) (`random_vector_individual.dfy`).
  - Pairs of positions read as transpositions
    (`transposition_vector_individual.dfy`).
- **Default generators** (`default_*_generator.dfy`). They fix each
  chromosome's shape and value range. They also expose the constructors'
  shadowed seeding (see Findings).
- **Configuration** (`params.dfy`). The eight-field `Params` record, its
  fluent builder with defaults, and the block sizes the solver derives.
- **Travelling-salesman example.**
  - The graph and its lower-triangular instance reader (`graph.dfy`).
  - The identity permutation, swaps and the cyclic tour cost (`tour.dfy`).
  - The two evaluators: sort by key (`random_vector_evaluator.dfy`), and
    successive swaps applied to the identity
    (`transposition_vector_evaluator.dfy`).

Several inputs of the C++ code are passed in as parameters:

- The Mersenne Twister's state is modelled as its seed material and the
  number of distribution calls made on it (`rng.dfy`). One call may consume
  several raw outputs; the model counts calls.
- What a distribution returns in a given state is passed in as a function.
- The random-device output, the elapsed time at each iteration and the
  total running time are passed in too.
- The generator, the evaluator and the crossover are passed in as functions.

`build()` validates nothing: `Config.OverfullSharesAreBuilt` builds the
overfull example, and the solver's methods carry the missing checks as
preconditions.

## Model

| member | source | states |
|---|---|---|
| Scoring.LessIgnoresIndividual | src/IndividualWithObjValue.h:25 | `a < b` holds exactly when a's objective is below b's. Swapping the individuals does not change the answer. |
| Scoring.LessIsStrictWeakOrder | src/IndividualWithObjValue.h:25 | The comparison is irreflexive, asymmetric and transitive, and equivalence is transitive. So it is a strict weak order, as `std::multiset` requires. |
| Scoring.EquivalentIffEqualObjective | src/IndividualWithObjValue.h:25 | Two entries are equivalent (neither is less) exactly when their objective values are equal. |
| Population.UpperBoundSplits | src/Solver.h:166 | In an ascending population the insertion position has every entry with objective at most x's value before it, and only larger ones after it. |
| Population.InsertIndexing | src/Solver.h:166 | After an insertion, x sits at the upper bound. Earlier entries keep their places, and later ones move one place right. |
| Population.InsertSorted | src/Solver.h:166 | Inserting into an ascending population keeps it ascending. |
| Population.InsertMultiset | src/Solver.h:166 | An insertion adds exactly x and loses nothing: size + 1, multiset plus {x}. |
| Population.InsertStable | src/Solver.h:166 | An entry with the same objective value as x stays ahead of x, at its old index. |
| Population.InsertProperties | src/Solver.h:47 | Insertion behaves as `std::multiset::insert`: the result is sorted, one larger, holds exactly the old entries plus x, and x goes after its equals. |
| Population.InsertAllSorted | src/Solver.h:165-167 | Inserting a batch in order into an ascending population keeps it ascending. |
| Population.InsertAllMultiset | src/Solver.h:165-167 | Inserting a batch in order gives exactly the old entries and the batch, nothing lost and nothing invented. |
| Population.InsertAllStep | src/Solver.h:165-167 | Inserting i + 1 entries is inserting i entries, then entry i. |
| Population.FirstIsBest | src/Solver.h:141 | The first entry of a population that holds x has objective at most x's. |
| RandomKey.RandomVectorIndividual.BiasedCrossoverWith | src/RandomVectorIndividual.h:45-66 | The parents must have equal lengths and the bias must lie in [0,1]. One coin is drawn per position, in index order, and the engine advances by the chromosome's length. Position i comes from the other parent exactly when coin i is at least the bias. |
| RandomKey.KeyCrossoverInherits | src/RandomVectorIndividual.h:55-63 | The child has the parents' length. Each key is the same-index key of the parent its coin selects. Where the parents agree, the child agrees. |
| RandomKey.ZeroBiasCopiesOther | src/RandomVectorIndividual.h:59 | With bias 0 and coins in [0,1), the child is the other parent. |
| RandomKey.FullBiasCopiesThis | src/RandomVectorIndividual.h:59 | With bias 1 and coins in [0,1), the child is this parent. |
| Transposition.TranspositionVectorIndividual.BiasedCrossoverWith | src/TranspositionVectorIndividual.h:50-72 | The parents must have equal even lengths and the bias must lie in [0,1]. One coin is drawn per pair, in order, and the engine advances by half the length. The child is the coin-selected pairwise merge. It has even length, so it passes the constructor's check (line 35). |
| Transposition.PairsStayTogether | src/TranspositionVectorIndividual.h:60-68 | Both entries of pair k come from the other parent when coin k is at least the bias, and otherwise both come from this parent. |
| Transposition.PairCrossoverInRange | src/TranspositionVectorIndividual.h:55-67 | The child has the parents' length. If every entry of both parents is below n, so is every entry of the child. |
| RandomKeyGenerator.DefaultRandomVectorGenerator.constructor | src/DefaultRandomVectorGenerator.h:41-48 | As written, the constructor stores the length. The member engine keeps its default-constructed state, whatever the random device returns. |
| RandomKeyGenerator.DefaultRandomVectorGenerator.Seeded | src/DefaultRandomVectorGenerator.h:41-48 | As intended, the member engine is seeded from the random-device data. |
| RandomKeyGenerator.DefaultRandomVectorGenerator.Generate | src/DefaultRandomVectorGenerator.h:53-62 | The chromosome is the `length` successive draws from the member engine, one per position, in order. The member engine advances by exactly `length`. |
| RandomKeyGenerator.GeneratedKeysInUnitInterval | src/DefaultRandomVectorGenerator.h:54-59 | A generated chromosome has `length` keys, each in [0,1). |
| RandomKeyGenerator.FirstChromosomeAsWritten | src/DefaultRandomVectorGenerator.h:47 | With the constructor as written, two generators built from any two device outputs produce the same first chromosome. |
| RandomKeyGenerator.FirstChromosomeSeeded | src/DefaultRandomVectorGenerator.h:41-48 | With the seeded constructor, the first chromosome is the draws of the engine seeded by the device data. |
| TranspositionGenerator.DefaultTranspositionVectorGenerator.constructor | src/DefaultTranspositionVectorGenerator.h:42-49 | As written, the constructor stores the item count. The member engine keeps its default-constructed state. |
| TranspositionGenerator.DefaultTranspositionVectorGenerator.Seeded | src/DefaultTranspositionVectorGenerator.h:42-49 | As intended, the member engine is seeded from the random-device data. |
| TranspositionGenerator.DefaultTranspositionVectorGenerator.Generate | src/DefaultTranspositionVectorGenerator.h:54-63 | The chromosome is the 2(nitems-1) successive draws of the integer distribution on [0, nitems-1], and the member engine advances by exactly that many. This needs nitems >= 1 (no unsigned wrap) and 2(nitems-1) < 2^31 (the loop counter is a signed int). |
| TranspositionGenerator.GeneratedEntriesInRange | src/DefaultTranspositionVectorGenerator.h:55-60 | A generated chromosome has 2(nitems-1) entries, an even number, each below nitems. |
| TranspositionGenerator.FirstChromosomeAsWritten | src/DefaultTranspositionVectorGenerator.h:48 | With the constructor as written, the first chromosome does not depend on the device data. |
| TranspositionGenerator.FirstChromosomeSeeded | src/DefaultTranspositionVectorGenerator.h:42-49 | With the seeded constructor, the first chromosome is the draws of the engine seeded by the device data. |
| Config.ParamsBuilder.constructor | src/ParamsBuilder.h:30-33 | A fresh builder builds the defaults: 250, 0.2, 0.1, 0.7, UINT32_MAX three times, then 1000. |
| Config.ParamsBuilder.WithPopulationSize | src/ParamsBuilder.h:35 | Sets the population size, keeps the other seven fields, and returns the same builder. |
| Config.ParamsBuilder.WithEliteShare | src/ParamsBuilder.h:36 | Sets the elite share, keeps the other seven fields, and returns the same builder. |
| Config.ParamsBuilder.WithReplaceShare | src/ParamsBuilder.h:37 | Sets the replace share, keeps the other seven fields, and returns the same builder. |
| Config.ParamsBuilder.WithCrossoverEliteBias | src/ParamsBuilder.h:38 | Sets the crossover bias, keeps the other seven fields, and returns the same builder. |
| Config.ParamsBuilder.WithMaxGenerations | src/ParamsBuilder.h:39 | Sets the generation limit, keeps the other seven fields, and returns the same builder. |
| Config.ParamsBuilder.WithMaxGenerationsNoImprovement | src/ParamsBuilder.h:40 | Sets the stall limit, keeps the other seven fields, and returns the same builder. |
| Config.ParamsBuilder.WithTimeoutS | src/ParamsBuilder.h:41 | Sets the timeout, keeps the other seven fields, and returns the same builder. |
| Config.ParamsBuilder.WithVisitorFreqIterations | src/ParamsBuilder.h:42 | Sets the visitor frequency, keeps the other seven fields, and returns the same builder. |
| Config.DriverParams | examples/tsp/main.cpp:22 | The driver's chain builds the defaults, except a 60 s timeout and a visit every iteration. |
| Config.LastWriteWins | src/ParamsBuilder.h:35-43 | In a chain of setters, the last write to a field wins and unrelated fields keep their values. |
| Config.CrossoverSize | src/Solver.h:181 | When the blocks fit, the elite, new and crossover sizes add up to the population size. |
| Config.ShareSizeAtMostPopulation | src/Solver.h:90-91 | A share in [0,1] gives a block no larger than the population. |
| Config.DefaultSizes | src/Solver.h:90-91 | The defaults give 50 elite entries, 25 new individuals and 175 crossover children. |
| Config.OverfullSharesAreBuilt | src/ParamsBuilder.h:43 | `build` validates nothing: shares 0.9 and 0.3 on 100 entries are built, and their blocks exceed the population. |
| Solving.NextGenerationShape | src/Solver.h:229-249 | The new generation is ascending. Its size is elite + new + crossover, and it holds exactly the elite prefix, the fresh entries and the children. |
| Solving.EliteBlockSurvives | src/Solver.h:232-236 | Every one of the current population's first elite_size entries is in the new generation, unchanged. |
| Solving.BestNeverWorsens | src/Solver.h:236 | With elite_size >= 1, the new generation's best objective is at most the current best. |
| Solving.StallCountBound | src/Solver.h:122-123 | The no-improvement counter never exceeds the number of generations run. |
| Solving.ConstantObjectivesStall | src/Solver.h:122-123 | If the best objective never changes, the counter equals the number of generations run. |
| Solving.StalledGenerationsTie | src/Solver.h:122-123 | In a non-increasing run, the last `counter + 1` generations all share the final best value. |
| Solving.HistoryGrows | src/Solver.h:122-131 | One more generation resets the counter on a strict improvement and otherwise adds one. It adds an at_iteration event exactly when the pre-increment generation is positive and a multiple of the frequency. |
| Solving.IterationEventsAreMultiples | src/Solver.h:129 | Every at_iteration call is for a positive multiple of the frequency below the final count. It carries that generation's best entry and elapsed time, and the calls come in increasing generation order. |
| Solving.IterationEventsCoverMultiples | src/Solver.h:129 | Every positive multiple of the frequency below the final count gets its at_iteration call. |
| Solving.InsertAllEvaluated | src/Solver.h:165-167 | Inserting entries that carry their own evaluations into such a population keeps every entry's objective value equal to the evaluator's value of its individual. |
| Solving.NextGenerationEvaluated | src/Solver.h:229-249 | A generation built from an evaluated population, scored fresh individuals and scored children has every objective value equal to the evaluator's value of its individual. |
| Solving.LoggedStep | src/Solver.h:129 | A log holding the at_iteration calls of a run, extended by the call (if any) after the next generation, holds the calls of the longer run. |
| Solving.Solver.BatchStartNext | src/Solver.h:155-157 | Generation g + 1's newcomers start new_individuals_size generator calls after generation g's. |
| Solving.Solver.EvolveWellFormed | src/Solver.h:229-249 | Evolving a full, ascending, evaluated population gives a full, ascending, evaluated population. |
| Solving.Solver.RunWellFormed | src/Solver.h:104-126 | Every population of a run from a full, ascending, evaluated population is again full, ascending and evaluated: population_size entries after initialisation and after every generation. |
| Solving.Solver.RunSteps | src/Solver.h:118-126 | In a run, population g + 1 is the evolution of population g, with generation g's newcomers and device data, for every g. |
| Solving.Solver.EvolvingStep | src/Solver.h:118-126 | Evolving the current population with the next generator calls extends the run by one population. The generator count moves on by new_individuals_size. |
| Solving.Solver.TrackedStep | src/Solver.h:122-123 | After one more generation that passed the stop tests, the counter is 0 on a strict improvement and one more otherwise, and it is again the history's stall count. The best never rises when elite_size >= 1, and the history keeps the bests of the populations. |
| Solving.Solver.RunGeneration | src/Solver.h:118-131 | One pass of the loop body keeps the loop's state: the population is the evolution of the old one, and the run and history each gain one entry. The counter follows the stall rule, and the log gains the at_iteration call when it is due. |
| Solving.Solver.RunningFacts | src/Solver.h:110-132 | When the loop stops, its state gives the run, the history of bests (each scored with its own evaluation), the generator count, the stall count, the earlier stop tests and the log in the terms `RunGenerations` states. |
| Solving.Solver.MainLoop | src/Solver.h:110-132 | The loop runs while the generation and stall limits allow and the elapsed time has not passed the timeout, and it stops only when one of these three tests fires. |
| Solving.Solver.constructor | src/Solver.h:88-91 | Stores the parameters and functions, derives elite_size and new_individuals_size as truncated products, and starts with an empty population. |
| Solving.Solver.ElitePick | src/Solver.h:189-201 | The first parent's index lies in [0, elite_size). |
| Solving.Solver.MiddlePick | src/Solver.h:190-204 | The second parent's index lies in [elite_size, population_size - new_individuals_size). |
| Solving.Solver.Offspring | src/Solver.h:197-208 | Breeding `count` slots gives exactly `count` children. |
| Solving.Solver.EvaluateAll | src/Solver.h:160-213 | Evaluation k is the evaluator's value of individual k, for every k. |
| Solving.Solver.InsertScored | src/Solver.h:165-221 | The joining loop inserts individual i with evaluation i, in order. |
| Solving.Solver.AddNewIndividuals | src/Solver.h:148-170 | Makes exactly how_many generator calls, each inserted with its own evaluation. The population stays ascending and grows by exactly how_many. |
| Solving.Solver.BreedOne | src/Solver.h:198-207 | One slot draws an elite index, then a middle index on the advanced engine, then breeds the child of those two parents of the current population. |
| Solving.Solver.Breed | src/Solver.h:197-208 | For each of the non_elite_size slots, the loop draws an elite index, then a middle index, then breeds their child. |
| Solving.Solver.DoCrossover | src/Solver.h:175-224 | Inserts the non_elite_size children bred from the current population, using an engine seeded from the device data. The result is ascending and holds exactly population_size entries. |
| Solving.Solver.EvolveNewGeneration | src/Solver.h:229-249 | The result is the elite prefix, then the fresh block, then the crossover block. It is ascending and has population_size entries. With elite_size >= 1 its best is no worse. |
| Solving.Solver.ReplaceGeneration | src/Solver.h:118-126 | The population becomes exactly the evolution of the old one: the old elite prefix, then the scored fresh individuals from generator call `generated` on, then the scored children bred with an engine seeded from this generation's device data. Every entry keeps its own evaluation. The generator is called new_individuals_size times. `improved` holds exactly when the new best is strictly lower. With elite_size >= 1 the best never rises. |
| Solving.Solver.RunGenerations | src/Solver.h:110-132 | The ghost `populations` is the sequence of populations the loop passes through. populations[0] is the starting population, each next one is the evolution of the one before with generation g's newcomers and device data, and the final population is the last entry. history[g] is populations[g]'s best, and the generator has been called new_individuals_size times per generation. The loop stops for one of three reasons: the generation limit, the stall limit, or the elapsed time passing the timeout. The loop condition held at every earlier iteration. The best is non-increasing when elite_size >= 1, and every best carries its own evaluation. The log gains exactly the at_iteration calls. |
| Solving.Solver.Begin | src/Solver.h:103-108 | The initial population is population_size generator calls, each inserted with its own evaluation, and at_start receives its first entry. |
| Solving.Solver.Solve | src/Solver.h:97-142 | `solve` builds and scores the initial population from population_size generator calls. populations[0] is that population, and every later population is the evolution of the one before. history[g] is the best of populations[g], and the final generator count is stated. The run stops under the three stop rules. It returns the population's minimum. Every recorded best, the returned one included, carries the evaluator's value of its own individual. The log is at_start, then the at_iteration calls, then at_end with the generation count. |
| Solving.StallLimitReached | src/Solver.h:110-123 | A run whose bests all tie and which stopped on the generation or stall limit, with no earlier stall stop, ran exactly max_generations_no_improvement generations when that limit is at most max_generations. |
| Solving.ConstantObjectiveStallsOut | src/Solver.h:110-132 | With an evaluator that gives every individual the same value and a clock that never passes the timeout, `solve` runs exactly max_generations_no_improvement generations whenever that is at most max_generations. The best it returns has that value. |
| TspGraph.Graph.NumNodes | examples/tsp/Graph.h:45 | The node count is the number of rows, and every row has that length. |
| TspGraph.Graph.GetDistance | examples/tsp/Graph.cpp:11-15 | Both nodes must be in the graph. The result is the stored distance. |
| TspGraph.FromMatrix | examples/tsp/Graph.h:30-33 | Only a square matrix is accepted, and it is stored unchanged. |
| TspGraph.ReadLowerTriangular | examples/tsp/Graph.cpp:17-63 | A missing node count or a count of 0 fails. Too few distance tokens fails at the first missing one. Otherwise the result is the n×n matrix filled from the lower triangle. |
| TspGraph.CountCheckPasses | examples/tsp/Graph.cpp:59-62 | After the loops the number of distances read is n(n+1)/2, so the count check (in exact arithmetic) never fails. |
| TspGraph.CountCheckAsWrittenRejectsCompleteRead | examples/tsp/Graph.cpp:59 | In 32-bit arithmetic the check rejects a complete read of 65536 nodes. |
| TspGraph.LowerTriangleSymmetric | examples/tsp/Graph.cpp:53-54 | The matrix read is symmetric. |
| TspGraph.LowerTriangleEntry | examples/tsp/Graph.cpp:44-56 | For j <= i, distance (i, j) is token number i(i+1)/2 + j, counting row by row. |
| TspGraph.TrailingTokensIgnored | examples/tsp/Graph.cpp:44-62 | Tokens after the first n(n+1)/2 do not change the matrix. |
| Tour.Iota | examples/tsp/RandomVectorEvaluator.cpp:11 | `std::iota`: entry i is i, for n entries. |
| Tour.IotaArray | examples/tsp/RandomVectorEvaluator.cpp:10-11 | A fresh vector holding 0 .. n-1. |
| Tour.SwapPermutes | examples/tsp/TranspositionVectorEvaluator.cpp:14 | `std::swap` exchanges the two entries, changes no other entry and preserves the multiset. A pair (x, x) changes nothing. |
| Tour.TourCostRotation | examples/tsp/RandomVectorEvaluator.cpp:14-18 | Rotating a closed tour by one place (starting it at its second node) keeps its cost. |
| Tour.TourCostRotationBy | examples/tsp/RandomVectorEvaluator.cpp:14-18 | Rotating a closed tour by any k places keeps its cost, so the cost does not depend on which node the tour starts from. |
| Tour.CyclicCost | examples/tsp/RandomVectorEvaluator.cpp:14-18 | The cost loop returns the sum over consecutive edges plus the edge from the last node back to the first. |
| Tour.ExampleTourCost | examples/tsp/RandomVectorEvaluator.cpp:14-18 | On a four-node instance, tour 0, 3, 2, 1 costs 3 + 6 + 4 + 1 = 14. |
| RandomKeyTsp.SortByKey | examples/tsp/RandomVectorEvaluator.cpp:12 | The node indices end up rearranged, not changed, and in non-decreasing key order. |
| RandomKeyTsp.InsertByKey | examples/tsp/RandomVectorEvaluator.cpp:12 | One step of the sort: entries 0 .. i end up in key order, and the multiset is kept. |
| RandomKeyTsp.RandomVectorEvaluator.Evaluate | examples/tsp/RandomVectorEvaluator.cpp:9-21 | Needs at least one node and a key per node. The tour is a permutation of the nodes in non-decreasing key order, and the result is its cyclic cost. |
| RandomKeyTsp.DistinctKeysDetermineTour | examples/tsp/RandomVectorEvaluator.cpp:12 | With pairwise distinct keys, only one permutation is in key order. So the decoded tour does not depend on the sort used. |
| RandomKeyTsp.ExampleDecoding | examples/tsp/RandomVectorEvaluator.cpp:12 | Keys 0.1, 0.4, 0.3, 0.2 decode to 0, 3, 2, 1. |
| TranspositionTsp.ApplySwapsPermutes | examples/tsp/TranspositionVectorEvaluator.cpp:13-15 | Any number of swaps keeps the multiset of entries. |
| TranspositionTsp.SwapDecodeIsPermutation | examples/tsp/TranspositionVectorEvaluator.cpp:10-15 | Whatever the chromosome, the decoding is a permutation of 0 .. n-1. |
| TranspositionTsp.ApplySwapsPrefix | examples/tsp/TranspositionVectorEvaluator.cpp:13 | Only the first k pairs are read: two chromosomes that agree on them decode alike. |
| TranspositionTsp.EveryTourEncodable | src/TranspositionVectorIndividual.h:14-20 | Every permutation of n nodes is the decoding of some chromosome of n-1 pairs with entries below n. |
| TranspositionTsp.ExampleDecoding | examples/tsp/TranspositionVectorEvaluator.cpp:13-15 | With n = 3, the pairs (0,1), (1,2) turn 0 1 2 into 1 2 0. |
| TranspositionTsp.ApplyPairs | examples/tsp/TranspositionVectorEvaluator.cpp:13-15 | The swap loop leaves the array as pairs 0 .. k-1 applied in order. |
| TranspositionTsp.TranspositionVectorEvaluator.Evaluate | examples/tsp/TranspositionVectorEvaluator.cpp:9-24 | Needs n >= 1, n-1 pairs, and every entry used below n. The tour is the swap decoding, a permutation of the nodes, and the result is its cyclic cost. |

## Left out

- Input and output: the file stream, console messages and `_Exit`. The reader takes the node count (None when it cannot be read as an unsigned number) and the distance tokens, and returns a failure where the code exits. `DefaultSolverVisitor.h` is not part of this model. Its callbacks are a ghost event log.
- Threads: `std::async` evaluation runs one evaluation after another, and evaluation i stays with individual i.
- Randomness internals: `std::random_device`, `std::seed_seq` and the Mersenne Twister's output are inputs. An engine is identified by its seed material and its count of distribution calls. What a distribution returns is an injected function, assumed to stay in range (`IsUnitInterval`, `IsIndexDistribution`).
- Clock: the elapsed time seen at generation g is `clock(g)`, and the total time passed to at_end is an input.
- Floating point: objective values, keys, shares and distances are reals. Truncation of share × size is `Floor`, defined when the product lies in [0, 2^32) (`SizesCastable`). Rounding of float sums is not modelled.
- `examples/tsp/main.cpp` (argument handling and wiring) is not part of this model, apart from its builder chain (`Config.DriverParams`). The evaluator headers only declare the evaluators.
- Solving.Solver.RunGenerations: the shape of `solve`'s loop follows the code. The loop body after the timeout test is the helper method `RunGeneration`, which calls `ReplaceGeneration`. Below them are `EvolveNewGeneration`, `DoCrossover`, `Breed`, `EvaluateAll` and `InsertScored`. The loop's state is the ghost predicate `Running`.
- Solving.Solver.Solve: requires `visitor_freq_iterations > 0` whenever more than one generation can run. The code's modulo by zero at the second generation is not modelled.
- Solving.Solver.Solve: requires `population_size >= 1` (as do `MainLoop` and `Begin`). With population_size 0 the code dereferences `population.begin()` of an empty multiset at src/Solver.h:108, which is undefined behaviour and is not modelled.
- Solving.Solver.Solve: requires `Feasible()` (the blocks fit, and there is an elite parent whenever crossover has slots) whenever the loop can run. Without it the code has undefined behaviour, which is not modelled. With elite_size 0, `uniform_int_distribution<uint32_t>(0, elite_size - 1)` (src/Solver.h:189) wraps to the range [0, UINT32_MAX], and `std::advance` at src/Solver.h:201 can move past `population.end()`. When elite_size + new_individuals_size exceeds the population size, `non_elite_size` (src/Solver.h:181) wraps to a huge count, and the advance at src/Solver.h:204 goes past the end too.
- RandomKeyTsp.SortByKey: the body is an insertion sort standing in for `std::sort`. The contract promises only what `std::sort` promises: a permutation in key order.
- RandomKeyTsp.RandomVectorEvaluator.Evaluate: requires at least one node, because `permutation.size() - 1` underflows on an empty graph. The tour is a ghost output.
- TranspositionTsp.TranspositionVectorEvaluator.Evaluate: requires 2(n-1) <= UINT32_MAX, so the unsigned wrap of the loop bound for graphs above 2^31 nodes is not modelled. The tour is a ghost output.
- TspGraph.Graph.NumNodes: returns the row count as a nat. The truncation of `size()` to 32 bits for more than 2^32 rows is not modelled.
- TspGraph.ReadLowerTriangular: counts `nread` exactly and uses the corrected count check (see Findings). Only the tokens up to the first one missing are modelled, not stream states such as a malformed number.
- TranspositionGenerator.DefaultTranspositionVectorGenerator.Generate: requires 1 <= nitems and 2(nitems-1) < 2^31. The code's wrap for 0 items and its signed loop counter beyond that are not modelled.
- Individuals are immutable datatypes. `component` is `Component`, a plain index into the chromosome with an in-bounds precondition where the code asserts nothing.

## Findings

| source | as written | input that shows it | evidently intended | confidence | as-written member | corrected member |
|---|---|---|---|---|---|---|
| src/DefaultRandomVectorGenerator.h:47 | The constructor seeds a local engine that shadows the member, so the member keeps its default seed. | Any two random-device outputs: both generators produce the same first chromosome, the default engine's draws. | The member engine is seeded from the random device. | not executed; follows from the scoping rules | RandomKeyGenerator.FirstChromosomeAsWritten | RandomKeyGenerator.FirstChromosomeSeeded |
| src/DefaultTranspositionVectorGenerator.h:48 | The same shadowing: the member engine keeps its default seed. | Any two random-device outputs: identical first chromosomes. | The member engine is seeded from the random device. | not executed; follows from the scoping rules | TranspositionGenerator.FirstChromosomeAsWritten | TranspositionGenerator.FirstChromosomeSeeded |
| examples/tsp/Graph.cpp:59 | The expected count n(n+1)/2 is computed in 32-bit unsigned arithmetic, where n(n+1) wraps around. | n = 65536 with all 2147516416 distances present: the expected count becomes 32768, and the complete read is rejected. | The check compares against the true n(n+1)/2, which the loops always reach. | not executed; needs a 65536-node instance | TspGraph.CountCheckAsWrittenRejectsCompleteRead | TspGraph.CountCheckPasses |
