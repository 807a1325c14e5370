/**
 * Configuration: the Params record, its fluent builder, and the block sizes
 * the solver derives from it.  Floating-point shares are modelled as reals.
 */
module Config {
  import opened Basics

  /** Params: eight fields, fixed once built. */
  datatype Params = Params(
    populationSize: uint32,
    eliteShare: real,
    replaceShare: real,
    crossoverEliteBias: real,
    maxGenerations: uint32,
    maxGenerationsNoImprovement: uint32,
    timeoutS: uint32,
    visitorFreqIterations: uint32)

  /** The values a fresh builder holds. */
  function DefaultParams(): Params {
    Params(250, 0.2, 0.1, 0.7, UINT32_MAX, UINT32_MAX, UINT32_MAX, 1000)
  }

  /** ParamsBuilder: every setter assigns one field and returns the builder itself. */
  class ParamsBuilder {
    var populationSize: uint32
    var eliteShare: real
    var replaceShare: real
    var crossoverEliteBias: real
    var maxGenerations: uint32
    var maxGenerationsNoImprovement: uint32
    var timeoutS: uint32
    var visitorFreqIterations: uint32

    constructor ()
      ensures Build() == DefaultParams()
    {
      populationSize, eliteShare, replaceShare, crossoverEliteBias := 250, 0.2, 0.1, 0.7;
      maxGenerations, maxGenerationsNoImprovement, timeoutS := UINT32_MAX, UINT32_MAX, UINT32_MAX;
      visitorFreqIterations := 1000;
    }

    /** build: the builder's eight fields in Params order; nothing is validated. */
    function Build(): Params
      reads this
    {
      Params(populationSize, eliteShare, replaceShare, crossoverEliteBias,
             maxGenerations, maxGenerationsNoImprovement, timeoutS, visitorFreqIterations)
    }

    method WithPopulationSize(v: uint32) returns (self: ParamsBuilder)
      modifies this
      ensures self == this && Build() == old(Build()).(populationSize := v)
    {
      populationSize := v;
      self := this;
    }

    method WithEliteShare(v: real) returns (self: ParamsBuilder)
      modifies this
      ensures self == this && Build() == old(Build()).(eliteShare := v)
    {
      eliteShare := v;
      self := this;
    }

    method WithReplaceShare(v: real) returns (self: ParamsBuilder)
      modifies this
      ensures self == this && Build() == old(Build()).(replaceShare := v)
    {
      replaceShare := v;
      self := this;
    }

    method WithCrossoverEliteBias(v: real) returns (self: ParamsBuilder)
      modifies this
      ensures self == this && Build() == old(Build()).(crossoverEliteBias := v)
    {
      crossoverEliteBias := v;
      self := this;
    }

    method WithMaxGenerations(v: uint32) returns (self: ParamsBuilder)
      modifies this
      ensures self == this && Build() == old(Build()).(maxGenerations := v)
    {
      maxGenerations := v;
      self := this;
    }

    method WithMaxGenerationsNoImprovement(v: uint32) returns (self: ParamsBuilder)
      modifies this
      ensures self == this && Build() == old(Build()).(maxGenerationsNoImprovement := v)
    {
      maxGenerationsNoImprovement := v;
      self := this;
    }

    method WithTimeoutS(v: uint32) returns (self: ParamsBuilder)
      modifies this
      ensures self == this && Build() == old(Build()).(timeoutS := v)
    {
      timeoutS := v;
      self := this;
    }

    method WithVisitorFreqIterations(v: uint32) returns (self: ParamsBuilder)
      modifies this
      ensures self == this && Build() == old(Build()).(visitorFreqIterations := v)
    {
      visitorFreqIterations := v;
      self := this;
    }
  }

  /** The chain the travelling-salesman driver uses: defaults except a 60 s timeout and a visit every iteration. */
  method DriverParams() returns (p: Params)
    ensures p == Params(250, 0.2, 0.1, 0.7, UINT32_MAX, UINT32_MAX, 60, 1)
  {
    var b := new ParamsBuilder();
    b := b.WithTimeoutS(60);
    b := b.WithVisitorFreqIterations(1);
    p := b.Build();
  }

  /** Chained setters compose: the last write to a field wins and the other fields keep their values. */
  method LastWriteWins(first: uint32, second: uint32, share: real) returns (p: Params)
    ensures p == DefaultParams().(populationSize := second, eliteShare := share)
  {
    var b := new ParamsBuilder();
    b := b.WithPopulationSize(first);
    b := b.WithEliteShare(share);
    b := b.WithPopulationSize(second);
    p := b.Build();
  }

  /** The float-to-uint32 casts that compute the block sizes are defined: each product lies in [0, 2^32). */
  ghost predicate SizesCastable(p: Params) {
    && 0.0 <= p.eliteShare && p.populationSize as real * p.eliteShare < 0x1_0000_0000 as real
    && 0.0 <= p.replaceShare && p.populationSize as real * p.replaceShare < 0x1_0000_0000 as real
  }

  /** elite_size: the population size times the elite share, truncated. */
  function EliteSize(p: Params): nat
    requires SizesCastable(p)
  {
    (p.populationSize as real * p.eliteShare).Floor
  }

  /** new_individuals_size: the population size times the replace share, truncated. */
  function NewIndividualsSize(p: Params): nat
    requires SizesCastable(p)
  {
    (p.populationSize as real * p.replaceShare).Floor
  }

  /** The derived sizes leave room for the crossover block (the unsigned subtraction does not wrap). */
  ghost predicate BlocksFit(p: Params) {
    SizesCastable(p) && EliteSize(p) + NewIndividualsSize(p) <= p.populationSize
  }

  /** Number of crossover children per generation; the three blocks partition the population. */
  function CrossoverSize(p: Params): (c: nat)
    requires BlocksFit(p)
    ensures EliteSize(p) + NewIndividualsSize(p) + c == p.populationSize
  {
    p.populationSize - EliteSize(p) - NewIndividualsSize(p)
  }

  /** A share in [0,1] never yields more entries than the population holds. */
  lemma ShareSizeAtMostPopulation(p: Params)
    requires SizesCastable(p) && p.eliteShare <= 1.0 && p.replaceShare <= 1.0
    ensures EliteSize(p) <= p.populationSize
    ensures NewIndividualsSize(p) <= p.populationSize
  {
    var n := p.populationSize as real;
    assert n * p.eliteShare <= n * 1.0;
    assert n * p.replaceShare <= n * 1.0;
  }

  /** The defaults give 50 elite entries, 25 new individuals and 175 crossover children. */
  lemma DefaultSizes()
    ensures SizesCastable(DefaultParams()) && BlocksFit(DefaultParams())
    ensures EliteSize(DefaultParams()) == 50
    ensures NewIndividualsSize(DefaultParams()) == 25
    ensures CrossoverSize(DefaultParams()) == 175
  {
    assert 250.0 * 0.2 == 50.0;
    assert 250.0 * 0.1 == 25.0;
  }

  /**
   * Nothing rejects shares that overfill the population: a builder given
   * elite share 0.9 and replace share 0.3 on 100 entries builds them, and
   * the derived blocks then exceed the population.
   */
  method OverfullSharesAreBuilt() returns (p: Params)
    ensures p.populationSize == 100 && p.eliteShare == 0.9 && p.replaceShare == 0.3
    ensures SizesCastable(p) && EliteSize(p) + NewIndividualsSize(p) > p.populationSize
  {
    var b := new ParamsBuilder();
    b := b.WithPopulationSize(100);
    b := b.WithEliteShare(0.9);
    b := b.WithReplaceShare(0.3);
    p := b.Build();
    assert 100.0 * 0.9 == 90.0 && 100.0 * 0.3 == 30.0;
  }
}
