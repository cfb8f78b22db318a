/** pydigree/simulation/architecture.py: the genetic architecture of a trait.
    Each QuantitativeGeneticEffect maps the genotype at one locus to a value
    (0, (1+k)a or 2a by the number of minor alleles) and gives its mean and
    variance components under Hardy-Weinberg proportions; an Architecture
    sums its effects, calibrates environmental noise to a heritability and
    thresholds dichotomous traits.

    Numbers are exact reals: floating-point rounding is not modelled. The
    chromosome set an effect refers to is represented by the minor allele
    frequency vectors of its chromosomes (`Some([])` is an empty list,
    `None` is no list at all). */
module Simulation {
  import opened Common

  datatype ArchError =
    | InvalidTraitType            // __init__: neither 'quantitative' nor 'dichotomous'
    | NotDichotomous              // set_liability_threshold on a quantitative trait
    | UnboundEffect               // add_effect given an effect: `eff` is never bound
    | BadGenotype                 // genotype with a minor allele count outside 0..2
    | ChromosomesNotSpecified     // alpha / variances with a falsy chromosome set
    | NotSubscriptable            // indexing a chromosome set that is None
    | IndexOutOfRange             // chromosome or marker index outside its list
    | MissingHeritability         // environmental_variance with h2 None
    | DivisionByZero              // environmental_variance with h2 == 0
    | MissingThreshold            // dichotomous prediction without a threshold

  /** A (chromosome index, marker index) pair; Python indexing, so either may
      be negative. */
  datatype Locus = Locus(chrom: int, marker: int)

  datatype TraitType = Quantitative | Dichotomous

  function TraitTypeName(t: TraitType): string {
    match t
    case Quantitative => "quantitative"
    case Dichotomous => "dichotomous"
  }

  /** The trait types __init__ accepts. */
  function ParseTraitType(s: string): (r: Option<TraitType>)
    ensures r.Some? <==> s == "quantitative" || s == "dichotomous"
  {
    if s == "quantitative" then Some(Quantitative)
    else if s == "dichotomous" then Some(Dichotomous)
    else None
  }

  /** Parsing a trait type inverts its name, and only names parse. */
  lemma TraitTypeRoundTrip(t: TraitType, s: string)
    ensures ParseTraitType(TraitTypeName(t)) == Some(t)
    ensures ParseTraitType(s) == Some(t) ==> TraitTypeName(t) == s
  {
  }

  /** `not chromosomes`: None or an empty list. */
  predicate Falsy(chromosomes: Option<seq<seq<real>>>) {
    chromosomes.None? || chromosomes.value == []
  }

  /** `chromosomes[chridx].frequencies[locidx]`, with the TypeError of
      indexing None and the IndexErrors of either index. */
  function Lookup(chromosomes: Option<seq<seq<real>>>, locus: Locus): (r: Result<real, ArchError>)
    ensures chromosomes.None? ==> r == Err(NotSubscriptable)
    ensures chromosomes.Some? && PyIndex(locus.chrom, |chromosomes.value|).None? ==> r == Err(IndexOutOfRange)
    ensures r.Ok? <==>
              && chromosomes.Some?
              && PyIndex(locus.chrom, |chromosomes.value|).Some?
              && PyIndex(locus.marker, |chromosomes.value[PyIndex(locus.chrom, |chromosomes.value|).value]|).Some?
    ensures chromosomes.Some? && PyIndex(locus.chrom, |chromosomes.value|).Some?
            && PyIndex(locus.marker, |chromosomes.value[PyIndex(locus.chrom, |chromosomes.value|).value]|).None?
            ==> r == Err(IndexOutOfRange)
    ensures r.Ok? ==>
              var i := PyIndex(locus.chrom, |chromosomes.value|).value;
              r.value == chromosomes.value[i][PyIndex(locus.marker, |chromosomes.value[i]|).value]
  {
    match chromosomes
    case None => Err(NotSubscriptable)
    case Some(cs) =>
      match PyIndex(locus.chrom, |cs|)
      case None => Err(IndexOutOfRange)
      case Some(i) =>
        match PyIndex(locus.marker, |cs[i]|)
        case None => Err(IndexOutOfRange)
        case Some(j) => Ok(cs[i][j])
  }

  /** `gt.count(v)`: how many entries of gt equal v. */
  function CountOf(gt: seq<int>, v: int): (r: nat)
    ensures r == multiset(gt)[v]
  {
    if gt == [] then 0
    else
      assert gt == [gt[0]] + gt[1..];
      (if gt[0] == v then 1 else 0) + CountOf(gt[1..], v)
  }

  /** Hardy-Weinberg probability of carrying n copies of the minor allele
      when its frequency is p. */
  function HweProb(p: real, n: nat): real
    requires n <= 2
  {
    if n == 0 then (1.0 - p) * (1.0 - p)
    else if n == 1 then 2.0 * p * (1.0 - p)
    else p * p
  }

  /** The effect at one locus: value a per minor allele, dominance k. */
  datatype QuantitativeGeneticEffect = QuantitativeGeneticEffect(
    locus: Locus, a: real, k: real, chromosomes: Option<seq<seq<real>>>)
  {
    /** The value of a genotype with n minor alleles, n in 0..2: the points
        0, (1+k)a and 2a of the diagram in the class comment. */
    function ValueOf(n: nat): real
      requires n <= 2
    {
      if n == 0 then 0.0 else if n == 1 then a * (1.0 + k) else 2.0 * a
    }

    /** genotypic_value: the value for the genotype's count of allele code 2;
        any other count raises ValueError. */
    function GenotypicValue(gt: seq<int>): (r: Result<real, ArchError>)
      ensures r.Err? <==> multiset(gt)[2] > 2
      ensures r.Err? ==> r.error == BadGenotype
      ensures r.Ok? ==> r.value == ValueOf(multiset(gt)[2])
    {
      var n := CountOf(gt, 2);
      if n <= 2 then Ok(ValueOf(n)) else Err(BadGenotype)
    }

    /** The minor allele frequency of the effect's locus. */
    function Maf(): Result<real, ArchError> {
      Lookup(chromosomes, locus)
    }

    /** expected_genotypic_value: the mean genotypic value under
        Hardy-Weinberg proportions. It indexes the chromosome set without
        first testing it. */
    function ExpectedGenotypicValue(): (r: Result<real, ArchError>)
      ensures r.Err? <==> Maf().Err?
      ensures r.Err? ==> r == Maf()
    {
      match Maf()
      case Err(e) => Err(e)
      case Ok(maf) =>
        var majorHomozygote := (1.0 - maf) * (1.0 - maf) * 0.0;
        var heterozygote := 2.0 * maf * (1.0 - maf) * a * (1.0 + k);
        var minorHomozygote := maf * maf * 2.0 * a;
        Ok(0.0 + majorHomozygote + heterozygote + minorHomozygote)
    }

    /** alpha: the average effect of an allelic substitution. */
    function Alpha(): (r: Result<real, ArchError>)
      ensures Falsy(chromosomes) ==> r == Err(ChromosomesNotSpecified)
      ensures !Falsy(chromosomes) ==> (r.Err? <==> Maf().Err?) && (r.Err? ==> r == Maf())
    {
      if Falsy(chromosomes) then Err(ChromosomesNotSpecified)
      else
        match Maf()
        case Err(e) => Err(e)
        case Ok(maf) =>
          var majfreq := 1.0 - maf;
          Ok(a * (1.0 + k * (majfreq - (1.0 - majfreq))))
    }

    /** locus_additive_variance: 2pq alpha^2. */
    function LocusAdditiveVariance(): (r: Result<real, ArchError>)
      ensures Falsy(chromosomes) ==> r == Err(ChromosomesNotSpecified)
      ensures !Falsy(chromosomes) ==> (r.Err? <==> Maf().Err?) && (r.Err? ==> r == Maf())
    {
      if Falsy(chromosomes) then Err(ChromosomesNotSpecified)
      else
        match Maf()
        case Err(e) => Err(e)
        case Ok(maf) =>
          var majfreq := 1.0 - maf;
          var alpha := Alpha().value;
          Ok(2.0 * majfreq * (1.0 - majfreq) * (alpha * alpha))
    }

    /** locus_dominance_variance: (2pqak)^2. */
    function LocusDominanceVariance(): (r: Result<real, ArchError>)
      ensures Falsy(chromosomes) ==> r == Err(ChromosomesNotSpecified)
      ensures !Falsy(chromosomes) ==> (r.Err? <==> Maf().Err?) && (r.Err? ==> r == Maf())
    {
      if Falsy(chromosomes) then Err(ChromosomesNotSpecified)
      else
        match Maf()
        case Err(e) => Err(e)
        case Ok(maf) =>
          var majfreq := 1.0 - maf;
          var d := 2.0 * majfreq * (1.0 - majfreq) * a * k;
          Ok(d * d)
    }

    /** Reference definitions: mean and variance of the genotypic value over
        the three genotype classes in Hardy-Weinberg proportions. */
    function HweMean(p: real): real {
      HweProb(p, 0) * ValueOf(0) + HweProb(p, 1) * ValueOf(1) + HweProb(p, 2) * ValueOf(2)
    }

    function HweVariance(p: real): real {
      var mu := HweMean(p);
      HweProb(p, 0) * (ValueOf(0) - mu) * (ValueOf(0) - mu)
      + HweProb(p, 1) * (ValueOf(1) - mu) * (ValueOf(1) - mu)
      + HweProb(p, 2) * (ValueOf(2) - mu) * (ValueOf(2) - mu)
    }

    /** Covariance of the minor allele count and the genotypic value. */
    function HweCovariance(p: real): real {
      var mu := HweMean(p);
      HweProb(p, 0) * (0.0 - 2.0 * p) * (ValueOf(0) - mu)
      + HweProb(p, 1) * (1.0 - 2.0 * p) * (ValueOf(1) - mu)
      + HweProb(p, 2) * (2.0 - 2.0 * p) * (ValueOf(2) - mu)
    }
  }

  /** The three genotype probabilities sum to one, and the mean allele count
      is 2p with variance 2pq. */
  lemma HweMoments(p: real)
    ensures HweProb(p, 0) + HweProb(p, 1) + HweProb(p, 2) == 1.0
    ensures HweProb(p, 1) * 1.0 + HweProb(p, 2) * 2.0 == 2.0 * p
    ensures HweProb(p, 0) * (0.0 - 2.0 * p) * (0.0 - 2.0 * p)
            + HweProb(p, 1) * (1.0 - 2.0 * p) * (1.0 - 2.0 * p)
            + HweProb(p, 2) * (2.0 - 2.0 * p) * (2.0 - 2.0 * p) == 2.0 * p * (1.0 - p)
  {
  }

  /** expected_genotypic_value is the Hardy-Weinberg mean of the genotypic
      value; without dominance it is 2pa. */
  lemma ExpectedValueIsHweMean(e: QuantitativeGeneticEffect)
    requires e.Maf().Ok?
    ensures e.ExpectedGenotypicValue() == Ok(e.HweMean(e.Maf().value))
    ensures e.k == 0.0 ==> e.ExpectedGenotypicValue() == Ok(2.0 * e.Maf().value * e.a)
  {
    var p, a, k := e.Maf().value, e.a, e.k;
    var het := 2.0 * p * (1.0 - p);
    assert e.ExpectedGenotypicValue().value == het * (a * (1.0 + k)) + (p * p) * (2.0 * a);
    assert e.HweMean(p) == het * (a * (1.0 + k)) + (p * p) * (2.0 * a);
    assert het * (a * (1.0 + k)) + (p * p) * (2.0 * a) == 2.0 * p * a + het * (a * k);
    if k == 0.0 {
      assert het * (a * k) == 0.0;
      assert 2.0 * p * a == 2.0 * e.Maf().value * e.a;
    }
  }

  /** Products and squares of reals keep their signs. */
  lemma MulNonNegative(x: real, y: real)
    requires x >= 0.0 && y >= 0.0
    ensures x * y >= 0.0
  {
  }

  lemma SquareNonNegative(x: real)
    ensures x * x >= 0.0
  {
    if x >= 0.0 {
      MulNonNegative(x, x);
    } else {
      MulNonNegative(-x, -x);
    }
  }

  /** Without dominance the average effect is a and the dominance variance
      vanishes. */
  lemma NoDominance(e: QuantitativeGeneticEffect)
    requires e.k == 0.0
    ensures e.Alpha().Ok? ==> e.Alpha().value == e.a
    ensures e.LocusDominanceVariance().Ok? ==> e.LocusDominanceVariance().value == 0.0
  {
  }

  /** Both variance components are non-negative for a frequency in [0, 1]
      and vanish when the locus is fixed. */
  lemma VariancesNonNegative(e: QuantitativeGeneticEffect)
    requires e.LocusAdditiveVariance().Ok?
    requires 0.0 <= e.Maf().value <= 1.0
    ensures e.LocusAdditiveVariance().value >= 0.0
    ensures e.LocusDominanceVariance().value >= 0.0
    ensures e.Maf().value == 0.0 || e.Maf().value == 1.0 ==>
              e.LocusAdditiveVariance().value == 0.0 && e.LocusDominanceVariance().value == 0.0
  {
    var p := e.Maf().value;
    var alpha := e.Alpha().value;
    var q := 1.0 - p;
    MulNonNegative(p, q);
    SquareNonNegative(alpha);
    MulNonNegative(2.0 * (q * p), alpha * alpha);
    SquareNonNegative(2.0 * q * (1.0 - q) * e.a * e.k);
    assert e.LocusAdditiveVariance().value == 2.0 * (q * (1.0 - q)) * (alpha * alpha);
  }

  /** The average effect is the regression slope of the genotypic value on
      the minor allele count: their covariance is 2pq alpha. */
  lemma AlphaIsRegressionSlope(e: QuantitativeGeneticEffect)
    requires e.Alpha().Ok?
    ensures e.HweCovariance(e.Maf().value) == 2.0 * e.Maf().value * (1.0 - e.Maf().value) * e.Alpha().value
  {
  }

  /** The additive and dominance variances partition the genotypic variance
      under Hardy-Weinberg proportions: V_G = V_A + V_D. */
  lemma VarianceDecomposition(e: QuantitativeGeneticEffect)
    requires e.LocusAdditiveVariance().Ok?
    ensures e.LocusAdditiveVariance().value + e.LocusDominanceVariance().value == e.HweVariance(e.Maf().value)
  {
  }

  /** Python's sum over a generator of per-effect values: the first effect
      that raises stops the sum with its error; otherwise the values add up
      left to right from 0. */
  function SumOf(es: seq<QuantitativeGeneticEffect>, f: QuantitativeGeneticEffect -> Result<real, ArchError>)
    : (r: Result<real, ArchError>)
    ensures r.Ok? <==> forall i :: 0 <= i < |es| ==> f(es[i]).Ok?
    ensures r.Err? ==> exists i :: 0 <= i < |es| && f(es[i]) == r && forall j :: 0 <= j < i ==> f(es[j]).Ok?
    decreases |es|
  {
    if es == [] then Ok(0.0)
    else
      var init := es[..|es| - 1];
      assert forall i :: 0 <= i < |init| ==> init[i] == es[i];
      match SumOf(init, f)
      case Err(err) => Err(err)
      case Ok(s) =>
        match f(es[|es| - 1])
        case Err(err) => Err(err)
        case Ok(v) => Ok(s + v)
  }

  /** Appending an effect adds its value to the sum (or its error, when
      the earlier ones raise none). */
  lemma SumOfAppend(es: seq<QuantitativeGeneticEffect>, e: QuantitativeGeneticEffect,
                    f: QuantitativeGeneticEffect -> Result<real, ArchError>)
    ensures SumOf(es + [e], f) ==
              if SumOf(es, f).Err? then SumOf(es, f)
              else if f(e).Err? then f(e)
              else Ok(SumOf(es, f).value + f(e).value)
  {
    assert (es + [e])[..|es + [e]| - 1] == es;
  }

  function ExpectedOf(e: QuantitativeGeneticEffect): Result<real, ArchError> { e.ExpectedGenotypicValue() }
  function AdditiveOf(e: QuantitativeGeneticEffect): Result<real, ArchError> { e.LocusAdditiveVariance() }

  /** Python truthiness of the optional heritability: None and 0 are false. */
  predicate Truthy(h2: Option<real>) {
    h2.Some? && h2.value != 0.0
  }

  class Architecture {
    var name: string
    var chromosomes: Option<seq<seq<real>>>
    var effects: seq<QuantitativeGeneticEffect>
    var h2: Option<real>
    var traittype: TraitType
    var liabilityThreshold: Option<real>

    constructor (name: string, traittype: TraitType, h2: Option<real>, chromosomes: Option<seq<seq<real>>>)
      ensures this.name == name && this.traittype == traittype
      ensures this.h2 == h2 && this.chromosomes == chromosomes
      ensures effects == [] && liabilityThreshold == None
    {
      this.name := name;
      this.chromosomes := chromosomes;
      effects := [];
      this.h2 := h2;
      this.traittype := traittype;
      liabilityThreshold := None;
    }

    /** __init__ with the trait type as given: a trait type other than
        'quantitative' or 'dichotomous' raises ValueError. */
    static method Create(name: string, traittype: string, h2: Option<real>, chromosomes: Option<seq<seq<real>>>)
      returns (r: Result<Architecture, ArchError>)
      ensures r.Err? <==> traittype != "quantitative" && traittype != "dichotomous"
      ensures r.Err? ==> r.error == InvalidTraitType
      ensures r.Ok? ==> && fresh(r.value)
                        && TraitTypeName(r.value.traittype) == traittype
                        && r.value.name == name && r.value.h2 == h2 && r.value.chromosomes == chromosomes
                        && r.value.effects == [] && r.value.liabilityThreshold == None
    {
      match ParseTraitType(traittype)
      case None =>
        return Err(InvalidTraitType);
      case Some(t) =>
        TraitTypeRoundTrip(t, traittype);
        var arch := new Architecture(name, t, h2, chromosomes);
        return Ok(arch);
    }

    /** set_liability_threshold: only a dichotomous trait takes one. */
    method SetLiabilityThreshold(threshold: real) returns (r: Outcome<ArchError>)
      modifies this`liabilityThreshold
      ensures traittype != Dichotomous ==> r == Fail(NotDichotomous) && liabilityThreshold == old(liabilityThreshold)
      ensures traittype == Dichotomous ==> r == Pass && liabilityThreshold == Some(threshold)
    {
      if traittype != Dichotomous {
        return Fail(NotDichotomous);
      }
      liabilityThreshold := Some(threshold);
      return Pass;
    }

    /** add_effect: with no effect object given, appends a new effect on the
        locus that shares the architecture's chromosome set; given one, the
        source appends a name it never bound and raises. */
    method AddEffect(locus: Locus, a: real, k: real, effect: Option<QuantitativeGeneticEffect>)
      returns (r: Outcome<ArchError>)
      modifies this`effects
      ensures effect.Some? ==> r == Fail(UnboundEffect) && effects == old(effects)
      ensures effect.None? ==>
                r == Pass && effects == old(effects) + [QuantitativeGeneticEffect(locus, a, k, chromosomes)]
    {
      if effect.Some? {
        return Fail(UnboundEffect);
      }
      var eff := QuantitativeGeneticEffect(locus, a, k, chromosomes);
      effects := effects + [eff];
      return Pass;
    }

    /** add_effect as evidently intended: a given effect object is appended
        as it is, in place of one built from locus, a and k. */
    method AddEffectCorrected(locus: Locus, a: real, k: real, effect: Option<QuantitativeGeneticEffect>)
      returns (r: Outcome<ArchError>)
      modifies this`effects
      ensures r == Pass
      ensures effect.Some? ==> effects == old(effects) + [effect.value]
      ensures effect.None? ==> effects == old(effects) + [QuantitativeGeneticEffect(locus, a, k, chromosomes)]
    {
      var eff := if effect.Some? then effect.value else QuantitativeGeneticEffect(locus, a, k, chromosomes);
      effects := effects + [eff];
      return Pass;
    }

    /** expected_genotypic_value: the sum of the effects' expected values. */
    function ExpectedGenotypicValue(): (r: Result<real, ArchError>)
      reads this
      ensures r.Ok? <==> forall i :: 0 <= i < |effects| ==> effects[i].Maf().Ok?
    {
      SumOf(effects, ExpectedOf)
    }

    /** additive_genetic_variance: the sum of the locus additive variances. */
    function AdditiveGeneticVariance(): (r: Result<real, ArchError>)
      reads this
      ensures r.Ok? <==> forall i :: 0 <= i < |effects| ==> effects[i].LocusAdditiveVariance().Ok?
    {
      SumOf(effects, AdditiveOf)
    }

    /** environmental_variance: V_a/h2 - V_a, the variance that makes V_a
        the fraction h2 of the phenotypic variance. */
    function EnvironmentalVariance(): (r: Result<real, ArchError>)
      reads this
      ensures h2.None? ==> r == Err(MissingHeritability)
      ensures h2.Some? && AdditiveGeneticVariance().Err? ==> r == AdditiveGeneticVariance()
      ensures h2.Some? && AdditiveGeneticVariance().Ok? ==> (r == Err(DivisionByZero) <==> h2.value == 0.0)
      ensures r.Ok? <==> h2.Some? && h2.value != 0.0 && AdditiveGeneticVariance().Ok?
    {
      match h2
      case None => Err(MissingHeritability)
      case Some(h) =>
        match AdditiveGeneticVariance()
        case Err(e) => Err(e)
        case Ok(add) =>
          if h == 0.0 then Err(DivisionByZero) else Ok(add / h - add)
    }

    /** The sum of the effects' genotypic values for an individual. */
    function GeneticValue(genotypes: Locus -> seq<int>): (r: Result<real, ArchError>)
      reads this
      ensures r.Ok? <==> forall i :: 0 <= i < |effects| ==> multiset(genotypes(effects[i].locus))[2] <= 2
    {
      SumOf(effects, (e: QuantitativeGeneticEffect) => e.GenotypicValue(genotypes(e.locus)))
    }

    /** predict_phenotype: the genetic value, plus a normal draw with the
        environmental variance when h2 is truthy, thresholded for a
        dichotomous trait. `genotypes` is the individual's get_genotype and
        `normal(v)` the draw of np.random.normal with variance v. */
    function PredictPhenotype(genotypes: Locus -> seq<int>, normal: real -> real): (r: Result<real, ArchError>)
      reads this
      ensures GeneticValue(genotypes).Err? ==> r == GeneticValue(genotypes)
      ensures traittype == Dichotomous && liabilityThreshold.None? ==> r.Err?
      ensures traittype == Dichotomous && r.Ok? ==> r.value == 0.0 || r.value == 1.0
    {
      match GeneticValue(genotypes)
      case Err(e) => Err(e)
      case Ok(g) =>
        var withNoise :=
          if Truthy(h2) then
            match EnvironmentalVariance()
            case Err(e) => Err(e)
            case Ok(ve) => Ok(g + normal(ve))
          else Ok(g);
        match withNoise
        case Err(e) => Err(e)
        case Ok(liability) =>
          if traittype == Dichotomous then
            match liabilityThreshold
            case None => Err(MissingThreshold)
            case Some(t) => Ok(if liability >= t then 1.0 else 0.0)
          else Ok(liability)
    }
  }

  /** With heritability h2 and additive variance V_a (both non-zero), the
      environmental variance gives back h2 = V_a / (V_a + V_e). */
  lemma HeritabilityRoundTrip(arch: Architecture)
    requires arch.EnvironmentalVariance().Ok?
    requires arch.AdditiveGeneticVariance().value != 0.0
    ensures var va := arch.AdditiveGeneticVariance().value;
      va / (va + arch.EnvironmentalVariance().value) == arch.h2.value
  {
    var va := arch.AdditiveGeneticVariance().value;
    var h := arch.h2.value;
    var ve := arch.EnvironmentalVariance().value;
    assert ve == va / h - va;
    assert va + ve == va / h;
  }

  /** Without a truthy h2 no noise is drawn: the prediction does not depend
      on the normal draw. With one, a quantitative trait's prediction is the
      genetic value plus the draw. */
  lemma NoiseOnlyWithHeritability(arch: Architecture, genotypes: Locus -> seq<int>, n1: real -> real, n2: real -> real)
    ensures !Truthy(arch.h2) ==> arch.PredictPhenotype(genotypes, n1) == arch.PredictPhenotype(genotypes, n2)
    ensures && Truthy(arch.h2) && arch.traittype == Quantitative
            && arch.GeneticValue(genotypes).Ok? && arch.EnvironmentalVariance().Ok? ==>
              arch.PredictPhenotype(genotypes, n1)
              == Ok(arch.GeneticValue(genotypes).value + n1(arch.EnvironmentalVariance().value))
  {
  }

  /** A dichotomous prediction is 1 exactly when the liability reaches the
      threshold; a quantitative one is the liability itself. */
  lemma ThresholdDichotomises(arch: Architecture, genotypes: Locus -> seq<int>, normal: real -> real)
    requires arch.GeneticValue(genotypes).Ok? && !Truthy(arch.h2)
    ensures arch.traittype == Quantitative ==> arch.PredictPhenotype(genotypes, normal) == arch.GeneticValue(genotypes)
    ensures arch.traittype == Dichotomous && arch.liabilityThreshold.None? ==>
              arch.PredictPhenotype(genotypes, normal) == Err(MissingThreshold)
    ensures arch.traittype == Dichotomous && arch.liabilityThreshold.Some? ==>
              arch.PredictPhenotype(genotypes, normal)
              == Ok(if arch.GeneticValue(genotypes).value >= arch.liabilityThreshold.value then 1.0 else 0.0)
  {
  }

  /** With a truthy h2 the noise comes before the threshold: a dichotomous
      prediction is 1 exactly when the genetic value plus the normal draw at
      the environmental variance reaches the threshold, and an error from
      the environmental variance is raised before the threshold is looked at. */
  lemma ThresholdAfterNoise(arch: Architecture, genotypes: Locus -> seq<int>, normal: real -> real)
    requires arch.GeneticValue(genotypes).Ok? && Truthy(arch.h2)
    ensures arch.EnvironmentalVariance().Err? ==> arch.PredictPhenotype(genotypes, normal) == arch.EnvironmentalVariance()
    ensures && arch.traittype == Dichotomous && arch.liabilityThreshold.Some?
            && arch.EnvironmentalVariance().Ok? ==>
              arch.PredictPhenotype(genotypes, normal)
              == Ok(if arch.GeneticValue(genotypes).value + normal(arch.EnvironmentalVariance().value)
                       >= arch.liabilityThreshold.value
                    then 1.0 else 0.0)
  {
  }

  /** With a single effect, the genetic value is that effect's genotypic
      value. */
  lemma SingleEffectGeneticValue(arch: Architecture, genotypes: Locus -> seq<int>)
    requires |arch.effects| == 1
    ensures arch.GeneticValue(genotypes) == arch.effects[0].GenotypicValue(genotypes(arch.effects[0].locus))
  {
    var f := (e: QuantitativeGeneticEffect) => e.GenotypicValue(genotypes(e.locus));
    assert arch.effects == [] + [arch.effects[0]];
    SumOfAppend([], arch.effects[0], f);
  }

  /** The architecture of the scenario below: a dichotomous trait with no
      heritability, threshold 0.5 and one effect a = 1, k = 0. */
  method ScenarioArchitecture(locus: Locus) returns (arch: Architecture)
    ensures arch.traittype == Dichotomous && arch.h2 == None && arch.liabilityThreshold == Some(0.5)
    ensures arch.effects == [QuantitativeGeneticEffect(locus, 1.0, 0.0, None)]
  {
    var created := Architecture.Create("trait", "dichotomous", None, None);
    arch := created.value;
    var thresholdSet := arch.SetLiabilityThreshold(0.5);
    var added := arch.AddEffect(locus, 1.0, 0.0, None);
  }

  /** A dichotomous trait with one effect a = 1, k = 0, no heritability and
      threshold 0.5: one minor allele predicts 1, none predicts 0. */
  method ThresholdScenario(locus: Locus) returns (carrier: Result<real, ArchError>, noncarrier: Result<real, ArchError>)
    ensures carrier == Ok(1.0)
    ensures noncarrier == Ok(0.0)
  {
    var arch := ScenarioArchitecture(locus);
    var one: Locus -> seq<int> := _ => [1, 2];
    var zero: Locus -> seq<int> := _ => [1, 1];
    var normal: real -> real := _ => 0.0;
    assert multiset(one(locus))[2] == 1;
    assert multiset(zero(locus))[2] == 0;
    SingleEffectGeneticValue(arch, one);
    SingleEffectGeneticValue(arch, zero);
    ThresholdDichotomises(arch, one, normal);
    ThresholdDichotomises(arch, zero, normal);
    carrier := arch.PredictPhenotype(one, normal);
    noncarrier := arch.PredictPhenotype(zero, normal);
  }

  /** Handing add_effect a ready-made effect, as written: the call raises and
      the architecture keeps no effect. */
  method AsWrittenGivenEffectIsLost(locus: Locus) returns (added: Outcome<ArchError>, neffects: nat)
    ensures added == Fail(UnboundEffect)
    ensures neffects == 0
  {
    var arch := new Architecture("trait", Quantitative, None, None);
    var given := QuantitativeGeneticEffect(locus, 1.0, 0.5, None);
    added := arch.AddEffect(locus, 0.0, 0.0, Some(given));
    neffects := |arch.effects|;
  }

  /** The same call with the corrected add_effect: the given effect, with
      its own a and k, becomes the architecture's one effect. */
  method CorrectedGivenEffectIsAppended(locus: Locus) returns (added: Outcome<ArchError>, effects: seq<QuantitativeGeneticEffect>)
    ensures added == Pass
    ensures effects == [QuantitativeGeneticEffect(locus, 1.0, 0.5, None)]
  {
    var arch := new Architecture("trait", Quantitative, None, None);
    var given := QuantitativeGeneticEffect(locus, 1.0, 0.5, None);
    added := arch.AddEffectCorrected(locus, 0.0, 0.0, Some(given));
    effects := arch.effects;
  }
}
