# pydigree simulation core in Dafny

This project models the simulation core of pydigree, a Python library for pedigree and population genetics simulation. It covers three parts.

- **Recombination** (`recombination.dfy`, module `Recombination`). `recombine` and `_recombine_haldane` build one gamete from two parental chromatids. They walk a sorted genetic map, switch parents at every crossover, and find each boundary with `bisect_left`. The loop is modelled as an imperative method over arrays. It is proved equal to a specification function, `Haldane`. Lemmas show that this function follows an alternating crossover schedule that partitions the map.
- **Chromosome template** (`chromosome.dfy`, module `Chromosomes`). The `Chromosome` class holds parallel marker columns: genetic map, physical map, labels and minor-allele frequencies. It also has the frequency guard that runs before founder chromosomes are drawn.
- **Genetic architecture** (`architecture.dfy`, module `Simulation`). `QuantitativeGeneticEffect` gives the genotypic value, the Hardy–Weinberg mean, the average effect α, and the additive and dominance variances. `Architecture` sums the effects, derives the environmental variance from the heritability, and predicts phenotypes, thresholding them for dichotomous traits.

`common.dfy` (module `Common`) holds the shared `Option`, `Result` and `Outcome` types and Python's negative-index rule.

Every random draw is an input:
- `coin` is the first `randint(0, 2)`; true means 1.
- `draws` are the exponential increments of the crossover position.
- `normal` is the Gaussian draw.
- `genotypes` is the individual's `get_genotype`.

Arithmetic is on exact reals.

## Model

| member | source | states |
|---|---|---|
| Common.PyIndex | pydigree/chromosome.py:62 | Python indexing: an index is valid iff it lies in [-len, len), and a valid index reads position i or i + len |
| Recombination.Chromatid.EmptyLike | pydigree/recombination.py:39 | empty_like gives a fresh container of the same class, dtype and length, with every allele missing |
| Recombination.Chromatid.CopySpan | pydigree/recombination.py:61-67 | copy_span: positions [start, stop) take the source's alleles, every other position keeps its own, and stop None means the end |
| Recombination.LowerBound | pydigree/recombination.py:65-66 | the lower-bound index stays within [lo, hi] |
| Recombination.LowerBoundIsFirst | pydigree/recombination.py:65-66 | every map entry in [lo, r) is below x, and the entry at r (if any) is at least x |
| Recombination.LowerBoundUnique | pydigree/recombination.py:65-66 | any index meeting the three bisect_left conditions is the lower bound, so the binary search and the reference definition agree |
| Recombination.BisectLeft | pydigree/recombination.py:65-66 | binary search returns nextidx with last ≤ nextidx ≤ nmark, map[j] < pos below it and map[j] ≥ pos from it to nmark |
| Recombination.Haldane | pydigree/recombination.py:39-72 | the gamete has one allele per map position |
| Recombination.Schedule | pydigree/recombination.py:46-70 | the copied spans partition [last, nmark) in order, alternate parents starting with the flipped one, end at bisect_left boundaries of their crossover positions, and (with positive increments) have strictly increasing positions that stay within the map except for the last |
| Recombination.GameteFollowsSchedule | pydigree/recombination.py:48-70 | each position inside span j of the schedule carries the allele of span j's parent |
| Recombination.HaldaneFollowsSchedule | pydigree/recombination.py:46-70 | every output position lies in exactly one copied span and holds that span's parent allele, so each index is written once |
| Recombination.HaldaneTakesParentAlleles | pydigree/recombination.py:50-67 | every output position holds chr1[i] or chr2[i], never a third value |
| Recombination.FirstDrawPastMapCopiesParent | pydigree/recombination.py:57-62 | a first crossover past map[-1] yields one parent in full: chr1 when the coin is 0, chr2 when it is 1 |
| Recombination.RecombineHaldane | pydigree/recombination.py:23-72 | an empty map fails at map[-1]; then three ValueError cases in source order (chr1 not Alleles, mixed types, different dtypes); otherwise a fresh Alleles container of chr1's dtype whose alleles are the Haldane gamete |
| Recombination.Recombine | pydigree/recombination.py:9-21 | a one-position map returns chr1 or chr2 itself (no copy) by the coin; otherwise the result of the Haldane loop |
| Chromosomes.FrequencyValue | pydigree/chromosome.py:65-68 | None becomes -1, a convertible value is kept, and an inconvertible one is the only failure (ValueError) |
| Chromosomes.NumpyAppend | pydigree/chromosome.py:70 | np.append returns a fresh array holding the old values followed by the new one, leaving the argument alone |
| Chromosomes.AnyNegative | pydigree/chromosome.py:80 | true iff some frequency is negative |
| Chromosomes.Chromosome.constructor | pydigree/chromosome.py:29-44 | a new chromosome has empty genetic map, physical map, labels and frequency vector, and typecode 'B' |
| Chromosomes.Chromosome.NMark | pydigree/chromosome.py:58-59 | nmark is the length of the genetic map |
| Chromosomes.Chromosome.Size | pydigree/chromosome.py:61-62 | size is last minus first map position, and fails exactly when the map is empty |
| Chromosomes.Chromosome.AddGenotype | pydigree/chromosome.py:64-72 | as written: an inconvertible frequency fails with nothing changed; otherwise map position, bp and label are appended one each, earlier entries kept, while the frequency vector keeps its old array and contents |
| Chromosomes.Chromosome.AddGenotypeCorrected | pydigree/chromosome.py:64-72 | with np.append's result kept, all four columns grow by one and stay aligned with nmark |
| Chromosomes.Chromosome.SetFrequency | pydigree/chromosome.py:74-76 | overwrites only the addressed entry (negative indices allowed), and an out-of-range index fails with the vector unchanged |
| Chromosomes.Chromosome.FounderGuard | pydigree/chromosome.py:78-81 | founder sampling passes iff no frequency is negative, and otherwise raises ValueError |
| Chromosomes.AsWrittenGuardMissesUnspecified | pydigree/chromosome.py:70 | after one add_genotype with no frequency, nmark is 1 but the vector is empty, so the guard passes and set_frequency(0) raises |
| Chromosomes.CorrectedGuardCatchesUnspecified | pydigree/chromosome.py:70 | with the correction the -1 is recorded, the guard rejects it, and once it is set the guard passes |
| Simulation.ParseTraitType | pydigree/simulation/architecture.py:107-110 | exactly 'quantitative' and 'dichotomous' are accepted |
| Simulation.TraitTypeRoundTrip | pydigree/simulation/architecture.py:107-110 | parsing a trait type's name gives it back, and only that name parses to it |
| Simulation.Lookup | pydigree/simulation/architecture.py:38-39 | chromosomes[chridx].frequencies[locidx]: None is not subscriptable, either index may be negative, either index out of range raises IndexError, and a success is the entry at the Python-normalised chromosome and marker positions |
| Simulation.CountOf | pydigree/simulation/architecture.py:26 | gt.count(2) is the multiplicity of 2 in the genotype |
| Simulation.QuantitativeGeneticEffect.GenotypicValue | pydigree/simulation/architecture.py:24-34 | the value for the count N of allele 2 (0, a(1+k), 2a), and ValueError exactly when N > 2 |
| Simulation.QuantitativeGeneticEffect.ExpectedGenotypicValue | pydigree/simulation/architecture.py:36-46 | fails exactly when the frequency lookup fails (no falsy guard) |
| Simulation.QuantitativeGeneticEffect.Alpha | pydigree/simulation/architecture.py:48-56 | raises ValueError when chromosomes is falsy, otherwise fails exactly when the lookup fails |
| Simulation.QuantitativeGeneticEffect.LocusAdditiveVariance | pydigree/simulation/architecture.py:58-67 | raises ValueError when chromosomes is falsy, otherwise fails exactly when the lookup fails |
| Simulation.QuantitativeGeneticEffect.LocusDominanceVariance | pydigree/simulation/architecture.py:69-77 | raises ValueError when chromosomes is falsy, otherwise fails exactly when the lookup fails |
| Simulation.HweMoments | pydigree/simulation/architecture.py:41-44 | the Hardy–Weinberg genotype frequencies sum to 1, and the minor allele count has mean 2p and variance 2pq |
| Simulation.ExpectedValueIsHweMean | pydigree/simulation/architecture.py:36-46 | the expected genotypic value is the Hardy–Weinberg mean of the three genotype values, and 2pa without dominance |
| Simulation.NoDominance | pydigree/simulation/architecture.py:48-77 | with k = 0, α = a and the dominance variance is 0 |
| Simulation.VariancesNonNegative | pydigree/simulation/architecture.py:58-77 | for a frequency in [0, 1] both variances are ≥ 0, and both are 0 at frequency 0 or 1 |
| Simulation.AlphaIsRegressionSlope | pydigree/simulation/architecture.py:48-56 | α is the average effect of substitution: the covariance of allele count and genotypic value is 2pqα |
| Simulation.VarianceDecomposition | pydigree/simulation/architecture.py:58-77 | additive plus dominance variance equals the genotypic variance under Hardy–Weinberg proportions |
| Simulation.SumOf | pydigree/simulation/architecture.py:146-152 | a generator sum succeeds iff every term does, and otherwise raises the first failing term's error |
| Simulation.SumOfAppend | pydigree/simulation/architecture.py:144-152 | appending an effect adds its term to the sum, unless an earlier term or the new one fails |
| Simulation.Architecture.constructor | pydigree/simulation/architecture.py:102-111 | a new architecture has its arguments, no effects and no threshold |
| Simulation.Architecture.Create | pydigree/simulation/architecture.py:102-111 | __init__ raises ValueError exactly for a trait type other than 'quantitative' or 'dichotomous'; otherwise a fresh architecture of that type |
| Simulation.Architecture.SetLiabilityThreshold | pydigree/simulation/architecture.py:118-122 | only a dichotomous trait takes a threshold; otherwise it raises with the threshold unchanged |
| Simulation.Architecture.AddEffect | pydigree/simulation/architecture.py:124-144 | as written: with no effect given, exactly one effect on the locus, sharing the architecture's chromosomes, is appended at the end; with one given the call raises and nothing is appended |
| Simulation.Architecture.AddEffectCorrected | pydigree/simulation/architecture.py:124-144 | a given effect is appended as it is, and otherwise a new one as above |
| Simulation.Architecture.ExpectedGenotypicValue | pydigree/simulation/architecture.py:146-148 | the sum over effects succeeds iff every effect's frequency lookup does |
| Simulation.Architecture.AdditiveGeneticVariance | pydigree/simulation/architecture.py:150-152 | the sum over effects succeeds iff every locus additive variance does |
| Simulation.Architecture.EnvironmentalVariance | pydigree/simulation/architecture.py:154-162 | raises when h2 is None, passes on the additive variance's error, and divides by zero exactly when h2 is 0; it succeeds exactly when h2 is non-zero and the additive variance exists |
| Simulation.HeritabilityRoundTrip | pydigree/simulation/architecture.py:159-162 | V_a / (V_a + V_e) = h2 whenever V_a ≠ 0 and the environmental variance exists |
| Simulation.Architecture.GeneticValue | pydigree/simulation/architecture.py:166-167 | the sum of genotypic values succeeds iff every effect's genotype has at most two copies of allele 2 |
| Simulation.Architecture.PredictPhenotype | pydigree/simulation/architecture.py:165-177 | a genotype error is raised first; a dichotomous trait yields 0 or 1 and always fails without a threshold; its value with and without noise is stated by ThresholdDichotomises, ThresholdAfterNoise and NoiseOnlyWithHeritability |
| Simulation.NoiseOnlyWithHeritability | pydigree/simulation/architecture.py:169-171 | with h2 None or 0 the prediction does not depend on the normal draw; with a truthy h2 a quantitative prediction is genetic value plus the draw at the environmental variance |
| Simulation.ThresholdAfterNoise | pydigree/simulation/architecture.py:169-176 | with a truthy h2 an environmental-variance error is raised before the threshold check, and a dichotomous prediction is 1 iff genetic value plus the normal draw reaches the threshold, else 0 |
| Simulation.ThresholdDichotomises | pydigree/simulation/architecture.py:173-177 | without noise a quantitative trait returns the genetic value, and a dichotomous one returns 1 when that value reaches the threshold and 0 below it, failing when none is set |
| Simulation.SingleEffectGeneticValue | pydigree/simulation/architecture.py:166-167 | with one effect the genetic value is that effect's genotypic value |
| Simulation.ScenarioArchitecture | pydigree/simulation/architecture.py:102-144 | constructing a dichotomous trait, setting threshold 0.5 and adding one effect gives exactly that state |
| Simulation.ThresholdScenario | pydigree/simulation/architecture.py:165-177 | a dichotomous trait with a = 1, k = 0, no h2 and threshold 0.5 predicts 1 for one minor allele and 0 for none |
| Simulation.AsWrittenGivenEffectIsLost | pydigree/simulation/architecture.py:139-144 | add_effect with a ready-made effect raises and leaves no effect |
| Simulation.CorrectedGivenEffectIsAppended | pydigree/simulation/architecture.py:139-144 | the corrected add_effect appends the given effect unchanged |

## Left out

- Random draws: `randint`, `exponential` and `normal` are inputs (`coin`, `draws`, `normal`). Their distributions are not modelled. `np.sqrt` of the environmental variance is folded into `normal`, which takes the variance.
- Recombination.RecombineHaldane: requires the parents and the map to have equal lengths. The source never checks: a container shorter than the map would be indexed past its end, while one longer than the map is handled by the source (the final copy_span with stop None copies through the container's end) and is not covered by the model. It also requires the map to be sorted, which the source assumes without checking. Finally it requires `draws` to pass the end of the map; the source's infinite random stream always does with probability one.
- Recombination.Recombine: carries the same three requirements. The equal-length requirement also binds its one-marker path, which in the source never touches the containers and returns a parent of any length.
- Recombination.Chromatid.EmptyLike: `pydigree.genotypes` is not part of this model. empty_like is taken to fill the container with the missing code 0. copy_span is taken to copy by position.
- Containers are single allele vectors. `LabelledAlleles` and other classes are only tags that fail the type check.
- Floating point: every value is an exact real. Rounding, NaN and infinity are not modelled.
- Simulation.Architecture.EnvironmentalVariance: h2 = 0 is modelled as the ZeroDivisionError of Python floats. With NumPy scalar frequencies the source would instead produce inf or nan.
- Simulation.Architecture.PredictPhenotype: a negative environmental variance is passed to `normal` as it is. NumPy's behaviour for the square root of a negative number is not modelled.
- An effect's chromosome set is a value holding the chromosomes' frequency vectors. The sharing of one list object between an architecture and its effects (aliasing) is not modelled.
- `Architecture.from_file` is file I/O and is not modelled. So are `pydigree/io.py`, the command-line scripts and the benchmark driver.
- `linkeq_chrom` and `choice_with_probs` come from the C extension and are not modelled. Only the frequency guard before them is modelled.
- The `bits=True` branch of `linkageequilibrium_chromosome` depends on `bitarray` byte packing and is not modelled.
- `__str__`, `__iter__` and `_iinfo` are formatting and iteration helpers and are not modelled.
- Chromosomes.FrequencyValue: `float()` failures are one error. The source catches only TypeError and re-raises it as ValueError, while an unparsable string raises ValueError directly. Both are ValueError before any column changes.

## Findings

| source | as written | input that shows it | evidently intended | confidence | as-written member | corrected member |
|---|---|---|---|---|---|---|
| pydigree/chromosome.py:70 | `np.append(self.frequencies, frequency)` discards the new array, so `frequencies` never grows | `add_genotype(None, 0.0)` on a new chromosome: nmark() is 1, frequencies is empty, the negative-frequency guard passes, and `set_frequency(0, 0.3)` raises IndexError | `self.frequencies = np.append(self.frequencies, frequency)`, keeping one frequency per marker | high (not executed) | Chromosomes.AsWrittenGuardMissesUnspecified | Chromosomes.CorrectedGuardCatchesUnspecified |
| pydigree/simulation/architecture.py:139-144 | `eff` is bound only when `effect is None`, so passing an effect raises UnboundLocalError | `add_effect(locus, effect=QuantitativeGeneticEffect(locus, 1, 0.5))`: the call raises and no effect is added | append the given effect when one is supplied | high (not executed) | Simulation.AsWrittenGivenEffectIsLost | Simulation.CorrectedGivenEffectIsAppended |
