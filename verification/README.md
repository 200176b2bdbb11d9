# kaleidoscope in Dafny

This project models the core of kaleidoscope, a Monte Carlo toolkit by
Brockmann Consult. kaleidoscope produces realizations of measurement errors
for chunked geophysical datasets, and it collects the uncertainty of an
ensemble of such realizations. The model covers the following parts:

- **Codec**: the CF codec that turns stored values into physical values and
  back. It covers the fill value, the valid range, the scale factor and the
  add-offset.
- **Randomize**: the randomize algorithm. It covers the block seeds, the
  effective uncertainty, the coverage and relative rules, the normal,
  lognormal and chlorophyll samplers, clipping, and the fall-back to the
  original value.
- **Generators**: the random number helpers, meaning `conditional_negate`,
  the antithetic normal deviate and the default generator.
- **ScatterOp**: the scatter operator. It covers the per-variable seed
  offsets, the UUID name, the three randomization branches and the skip
  rule.
- **Algorithm**: the block-algorithm contract. It covers the no-data
  sentinel per type, the overlap defaults, the rank check with its cast, and
  the scheme of dask task names.
- **Filter**: the lateral filters. It covers the per-dimension sigma, sizes
  and modes, and the NaN-preserving normalisation.
- **CollectOp** and **DerandOp**: the collect and derandomize operators. They
  cover the mean squared error, the spread, the naming of uncertainty
  variables and the order of attribute edits.
- **Callbacks**: the scheduler callbacks. They cover the node filters, the
  first-write-wins timer, per-name aggregation and the throttling of
  progress messages.
- **Reader**, **Writer**, **Parser** and **Processor**: the reader and
  writer configurations, the engine choice, chunk sizes and the encoding
  dictionary. They also cover the `IntType` bounds and the chunk precedence
  of the processor.
- **Runner** and **ExitCodes**: the mapping from exceptions to exit codes and
  the dask scheduler settings.
- **Period**: the year ranges used by the validation plots.

Numbers are `Floats.Float`, which is either a real or one of +inf, -inf and
NaN. NaN stands for missing data. Arithmetic on finite values is exact, and
the special values follow IEEE 754. The elementary functions `exp`, `log` and
`sqrt`, the normal deviates, the 64-bit words of the bit generators and the
filter kernels are function-valued parameters. Each is constrained only by
the few laws the proofs need, which are `Randomize.Lawful`,
`Randomize.ExactSqrt`, `Stats.SqrtLike` and `Filter.ShapePreserving`. Dask arrays are modelled one block at a time,
as flattened sequences. A dataset holds its variable names in iteration
order and a map of variables. Attribute and configuration values are
`Values.Value`: JSON values plus the NumPy float arrays that `actual_range`
holds.

Three behaviours of the code shape the model:

- **Seeds.** The root seed of a variable is derived as follows:
  - a name-based UUID (`uuid5`) of "{variable}-{file stem}";
  - plus the selector offset;
  - then 4 words drawn from Philox.

  The seed of a block puts the block coordinates in front of this root seed.
- **Antithetic sampling.** `ScatterOp` passes its global antithetic flag to
  `Randomize`, and selectors 2k-1 and 2k share a seed offset. As a result
  the two selectors of such a pair give identical realizations
  (`ScatterOp.AntitheticPairsCoincide` and `ScatterOp.AntitheticRunsCoincide`).
  For one seed, the plain and antithetic realizations mirror each other
  around the value (`Randomize.AntitheticMirror`).
- **Codec bounds.** Decoding masks only raw values strictly outside the valid
  range, so the bounds themselves also round-trip (`Codec.EncodeDecodeValue`).

Two further consequences of the code are stated as lemmas:

- A `MemoryError` exits with the keyboard-interrupt code 130, and code 131 is
  never returned (`Runner.CodesAreDeclared`).
- `_node_name` cuts a task name at its first "-". Every algorithm's task name
  is "kaleidoscope-{name}", so the timer adds up all algorithms under the one
  name "kaleidoscope" (`Callbacks.AlgorithmNodesShareOneName`).

## Model

| member | source | states |
|---|---|---|
| Codec.NumberAttr | kaleidoscope/algorithms/codec.py:21-25 | `a.get(key, None)` is present exactly when the key holds a non-None value, and is that number |
| Codec.ParamsOf | kaleidoscope/algorithms/codec.py:16-41 | the helpers read exactly `add_offset`, `scale_factor`, `_FillValue`, `valid_min`, `valid_max`; without any of them no parameter is set |
| Codec.DecodedType | kaleidoscope/algorithms/codec.py:18 | decoding yields single precision iff the input is single, and double otherwise |
| Codec.DecodeValue | kaleidoscope/algorithms/codec.py:91-111 | no parameters: identity; a raw value equal to the fill value or outside the valid range (compared unscaled) is missing; other finite values become x*scale+offset; missing stays missing |
| Codec.EncodeValue | kaleidoscope/algorithms/codec.py:167-187 | no parameters: identity; a missing input becomes the fill value (or stays missing); results are never below valid_min and, for a consistent range, never above valid_max; in-range values become (x-offset)/scale |
| Codec.Decode | kaleidoscope/algorithms/codec.py:70-111 | decoding a block is decoding each element, shape preserved |
| Codec.Encode | kaleidoscope/algorithms/codec.py:146-187 | encoding a block is encoding each element, shape preserved |
| Codec.EncodeDecodeValue | kaleidoscope/algorithms/codec.py:101-110 | a valid raw value survives decode then encode (inverse direction of the round trip) |
| Codec.EncodeDecodeFill | kaleidoscope/algorithms/codec.py:101-102 | the fill value decodes to missing and encodes back to the fill value |
| Codec.DecodeEncodeValue | kaleidoscope/algorithms/codec.py:176-186 | a physical value whose stored value is valid and not the fill value survives encode then decode |
| Codec.EncodeDecodeBlock | kaleidoscope/algorithms/codec.py:101-110 | round trip of a whole block of valid values and fill values |
| Codec.IdentityWithoutAttributes | kaleidoscope/algorithms/codec.py:91-98 | with none of the five attributes both directions return the input |
| Codec.InvertedRangeEncodesToMin | kaleidoscope/algorithms/codec.py:181-184 | valid_max is applied before valid_min, so with valid_min > valid_max every non-missing value encodes to valid_min |
| Floats.Clip | kaleidoscope/algorithms/randomize.py:100-101 | `np.clip` keeps NaN, never exceeds the upper bound, and lands inside a consistent [lo, hi] |
| Randomize.DistOf | kaleidoscope/algorithms/randomize.py:91-99 | the three distribution names are recognised exactly, anything else is unknown |
| Randomize.BlockSeed | kaleidoscope/algorithms/randomize.py:106-108 | the block seed is the block coordinates followed by the root seed: length is the sum, prefix the block id |
| Randomize.BlockSeedsDistinct | kaleidoscope/algorithms/randomize.py:106-108 | blocks at distinct positions of one array get distinct seeds |
| Randomize.Draws | kaleidoscope/algorithms/randomize.py:139-140 | one deviate per element of the block |
| Randomize.Sample | kaleidoscope/algorithms/randomize.py:91-99 | an unrecognised distribution returns x unchanged |
| Randomize.EffectiveUncertainty | kaleidoscope/algorithms/randomize.py:81-90 | u is data[1] with two inputs and sqrt(rmsd^2 - bias^2) with three; it is then divided by the coverage and, if relative, multiplied by x |
| Randomize.RmsdBiasInQuadrature | kaleidoscope/algorithms/randomize.py:81-89 | with an RMSD and a bias (bias^2 <= rmsd^2), the uncertainty times the coverage and the bias add up in quadrature to the RMSD, and the uncertainty is non-negative |
| Randomize.Finish | kaleidoscope/algorithms/randomize.py:100-102 | the result is finite or the original value; finite x gives a finite result; with consistent clip bounds the result is x or inside [lo, hi] |
| Randomize.RandomizeBlock | kaleidoscope/algorithms/randomize.py:62-102 | shape preserved; never introduces missing data (non-finite outputs are the original value); clipped outputs lie in [lo, hi] unless they fell back to x |
| Randomize.UnknownDistributionIsNoOp | kaleidoscope/algorithms/randomize.py:98-102 | an unknown distribution without clipping returns the values unchanged |
| Randomize.NormalPerturbation | kaleidoscope/algorithms/randomize.py:133-140 | normal errors on finite inputs are exactly x + u*z with z the (conditionally negated) deviate of the element |
| Randomize.AntitheticMirror | kaleidoscope/algorithms/randomize.py:133-140 | for one seed the plain and antithetic normal realizations average to x |
| Randomize.ZeroUncertaintyIsIdentity | kaleidoscope/algorithms/randomize.py:118-140 | a zero uncertainty leaves a positive value unchanged under all three distributions |
| Randomize.ChlorophyllZero | kaleidoscope/algorithms/randomize.py:118-120 | the chlorophyll conversion maps a zero log10 uncertainty to a zero absolute one |
| Randomize.LognormalZero | kaleidoscope/algorithms/randomize.py:128-130 | the lognormal sampler with zero uncertainty returns x |
| Randomize.MissingUncertaintyPropagates | kaleidoscope/algorithms/randomize.py:118-140 | a missing uncertainty makes every known sampler's value missing (before the fall-back) |
| Randomize.DegenerateUncertaintyFallsBack | kaleidoscope/algorithms/randomize.py:85-102 | where rmsd^2 < bias^2 the uncertainty is NaN and the element keeps its original value |
| Randomize.NegativeVarianceIsNaN | kaleidoscope/algorithms/randomize.py:85 | sqrt(rmsd^2 - bias^2) is NaN when the bias dominates |
| Randomize.ElementwiseLocality | kaleidoscope/algorithms/randomize.py:79-102 | an output element depends only on the inputs at the same position (no effect on neighbours) |
| Generators.DefaultGenerator | kaleidoscope/generators.py:31-42 | a bit generator is used as it is; any other seed is wrapped in PCG64DXSM |
| Generators.ConditionalNegateAll | kaleidoscope/generators.py:45-60 | the array keeps its length and each element is negated exactly when the condition holds |
| Generators.NegateTwice | kaleidoscope/generators.py:55-60 | negating twice under the same condition restores the number |
| Generators.NegateAllTwice | kaleidoscope/generators.py:55-60 | negating an array twice restores it; a false condition changes nothing |
| Generators.ConditionalNegateInPlace | kaleidoscope/generators.py:55-57 | the in-place negation leaves the array equal to the value-level negation of its old contents |
| Generators.NormalRandoms | kaleidoscope/generators.py:125-127 | `randoms` fills n elements with the generator's deviates, negated when antithetic |
| Generators.AntitheticNegates | kaleidoscope/generators.py:122-127 | for the same seed, antithetic draws are the exact negation of plain draws |
| Generators.BoundedInteger | kaleidoscope/generators.py:77-78 | `integers(high)` on one word is below high |
| Generators.Next | kaleidoscope/generators.py:77-78 | `DefaultGenerator.next` returns an integer in [0, 2^63) |
| ScatterOp.BranchOf | kaleidoscope/operators/scatterop.py:100-151 | "total" takes priority over "uncertainty", and without both the rmsd/bias form is used |
| ScatterOp.UuidName | kaleidoscope/operators/scatterop.py:198-205 | the UUID name is "{variable}-{file stem}" |
| ScatterOp.UuidNamesDistinct | kaleidoscope/operators/scatterop.py:198-205 | distinct variables of one file get distinct UUID names |
| ScatterOp.SeedOffset | kaleidoscope/operators/scatterop.py:190-194 | the offset is the selector, or with antithetic sampling (selector+1)//2, so 2k-1 <= selector <= 2k |
| ScatterOp.SharedSeedOffsets | kaleidoscope/operators/scatterop.py:190-194 | with antithetic sampling two selectors share an offset iff they are equal or form a pair 2k-1, 2k; without it iff equal |
| ScatterOp.SameOffsetIsPair | kaleidoscope/operators/scatterop.py:190-194 | with antithetic sampling equal offsets come only from equal selectors or a pair 2k-1, 2k |
| ScatterOp.PairSharesOffset | kaleidoscope/operators/scatterop.py:190-194 | an odd selector and its successor share an offset |
| ScatterOp.SeedOf | kaleidoscope/operators/scatterop.py:176-196 | the seed has n words, each the i-th `next` of a Philox generator seeded with the UUID integer plus the offset, each in [0, 2^63) |
| ScatterOp.VariableSeed | kaleidoscope/operators/scatterop.py:176-196 | a variable's root seed has the default length 4 |
| ScatterOp.AntitheticPairsShareSeed | kaleidoscope/operators/scatterop.py:190-196 | under antithetic sampling selectors 2k-1 and 2k give a variable the same root seed |
| ScatterOp.SeedValue | kaleidoscope/operators/scatterop.py:166-167 | the recorded seed attribute lists the seed words in order |
| ScatterOp.ConstantVariable | kaleidoscope/operators/scatterop.py:117-128 | a scalar uncertainty becomes a constant array of x's shape, dims and coords, without attributes |
| ScatterOp.ConstantDecodesToItself | kaleidoscope/operators/scatterop.py:117-131 | decoding the constant uncertainty returns the constant |
| ScatterOp.Fetch | kaleidoscope/operators/scatterop.py:144-145 | `target[name]` succeeds iff the variable exists, otherwise a missing-variable error |
| ScatterOp.AddDifferences | kaleidoscope/operators/scatterop.py:102-106 | the "total" loop keeps the block length |
| ScatterOp.UnperturbedTotalIsIdentity | kaleidoscope/operators/scatterop.py:102-106 | when no reference has been perturbed, the "total" branch returns the decoded value itself |
| ScatterOp.Realized | kaleidoscope/operators/scatterop.py:153-167 | the new values are stored with x's encoding, dims and coords; an existing actual_range becomes their range; the seed attribute is added exactly when there is a seed; every other attribute of x is kept |
| ScatterOp.RandomizeVariable | kaleidoscope/operators/scatterop.py:83-167 | shape, dims and coords kept; the seed attribute is added exactly outside the "total" branch; actual_range is present iff it was, and for an unencoded variable it is the range of the stored data; other attributes kept; a constant uncertainty never fails |
| ScatterOp.UnknownDistributionKeepsData | kaleidoscope/operators/scatterop.py:129-167 | an unknown distribution without clipping leaves an unencoded variable's data as it was, and its actual_range becomes the range of that data |
| ScatterOp.AntitheticPairsCoincide | kaleidoscope/operators/scatterop.py:110-116 | under antithetic sampling selectors 2k-1 and 2k randomize a variable identically |
| ScatterOp.RunVars | kaleidoscope/operators/scatterop.py:62-67 | variables not configured, and all variables for selector 0, are copied unchanged; the variable set and order are kept |
| ScatterOp.Run | kaleidoscope/operators/scatterop.py:47-70 | unconfigured variables are unchanged; selector 0 returns the source variables; the software name and version attributes are set and other attributes kept |
| ScatterOp.AntitheticRunsCoincide | kaleidoscope/operators/scatterop.py:62-67 | under antithetic sampling selectors 2k-1 and 2k (k >= 1) scatter a dataset identically |
| Algorithm.Nan | kaleidoscope/interface/algorithm.py:70-83 | signed integer types use their minimum plus one (the negated maximum), all other types NaN |
| Algorithm.SignedRanges | kaleidoscope/interface/algorithm.py:70-83 | the signed integer types have the two's-complement ranges of 8, 16, 32 and 64 bits, which fix the sentinels |
| Algorithm.TaskName | kaleidoscope/interface/algorithm.py:85-88 | task names are "kaleidoscope-{name}" |
| Algorithm.NewOverlapAlgorithm | kaleidoscope/interface/algorithm.py:231-265 | boundary None becomes the type's sentinel, an explicit boundary is kept; arrays are aligned and re-chunking is not allowed |
| Algorithm.DefaultOverlapAlgorithm | kaleidoscope/interface/algorithm.py:234-265 | defaults are m = n = 2, overlap 0, the sentinel boundary, trim, align and no re-chunking |
| Algorithm.ComputeBlockTyped | kaleidoscope/interface/algorithm.py:171-176 | succeeds iff the computed rank is n, then casts every element keeping the shape; otherwise the assertion error names both ranks |
| Filter.Sigma | kaleidoscope/algorithms/filter.py:40-47 | sigma is fwhm/2.35482 on "lat*"/"lon*" dimensions and 0 elsewhere |
| Filter.Sizes | kaleidoscope/algorithms/filter.py:89-92 | the kernel size is `size` on lateral dimensions and 1 elsewhere |
| Filter.Modes | kaleidoscope/algorithms/filter.py:48-50 | mode "wrap" exactly on "lon*" dimensions |
| Filter.ParamsFor | kaleidoscope/algorithms/filter.py:40-50 | Gaussian gets sigma and per-dimension modes, Median sizes and one mode, Uniform sizes and per-dimension modes |
| Filter.Weights | kaleidoscope/algorithms/filter.py:53 | the weights are 0 at missing positions and 1 elsewhere |
| Filter.Apply | kaleidoscope/algorithms/filter.py:51-56 | missing positions stay missing; elsewhere the result is the filtered zero-filled data over the filtered weights |
| Filter.IdentityKernelKeepsData | kaleidoscope/algorithms/filter.py:51-56 | a kernel that changes nothing returns the data |
| Filter.NormalizedKernelWithoutGaps | kaleidoscope/algorithms/filter.py:51-56 | without missing data and with a normalised kernel the result is the kernel applied to the data |
| Filter.NonLateralDimensionsAreUntouched | kaleidoscope/algorithms/filter.py:40-50 | non-lateral dimensions get sigma 0, size 1 and constant mode |
| Stats.CountValid | kaleidoscope/operators/collectop.py:57 | the count of valid elements is zero iff all are missing |
| Stats.CountFinite | kaleidoscope/operators/collectop.py:56 | the count of finite elements is zero iff none is finite |
| Stats.ReplaceNaN | kaleidoscope/operators/collectop.py:57 | the NaN-skipping sum treats a missing element as zero and keeps every other element |
| Stats.NanMean | kaleidoscope/operators/collectop.py:57 | `nanmean` of nothing valid is missing |
| Stats.NanVar | kaleidoscope/operators/derandop.py:86 | `nanvar` of nothing valid is missing |
| Stats.NanMeanOfNonNegative | kaleidoscope/operators/collectop.py:57 | the mean of non-negative values is non-negative or infinite |
| Stats.NanMeanOfFinite | kaleidoscope/operators/collectop.py:57 | without missing values `nanmean` is the real mean |
| Stats.NanVarOfFiniteOrMissing | kaleidoscope/operators/derandop.py:86 | the variance is missing iff nothing is valid, otherwise a non-negative number |
| Stats.NanVarOfFinite | kaleidoscope/operators/derandop.py:86 | without missing values `nanvar` is the population variance |
| Stats.NanMin | kaleidoscope/operators/collectop.py:145 | `nanmin` is missing iff every element is; otherwise it is an element, and no valid element is below it |
| Stats.NanMax | kaleidoscope/operators/collectop.py:146 | `nanmax` is missing iff every element is; otherwise it is an element, and no valid element is above it |
| Stats.NanMinAtMostNanMax | kaleidoscope/operators/collectop.py:143-149 | the minimum and maximum are missing together and the minimum never exceeds the maximum |
| CollectOp.Errors | kaleidoscope/operators/collectop.py:47-49 | the errors are members 1.. minus member 0, element by element |
| CollectOp.MseMissingIffNoFiniteError | kaleidoscope/operators/collectop.py:53-59 | the MSE is missing iff no error is finite, and is otherwise non-negative or infinite |
| CollectOp.MseOfFiniteErrors | kaleidoscope/operators/collectop.py:53-59 | for finite errors the MSE is the mean of the squared errors |
| CollectOp.MseField | kaleidoscope/operators/collectop.py:53-59 | the MSE is taken element by element along the ensemble axis |
| CollectOp.Std | kaleidoscope/operators/collectop.py:31-50 | the uncertainty is sqrt of the MSE, or of the MSE filtered with a Gaussian of fwhm 4 |
| CollectOp.StdMissingExactlyWithoutFiniteErrors | kaleidoscope/operators/collectop.py:46-59 | the unfiltered uncertainty is missing iff no realization has a finite error, and non-negative elsewhere |
| CollectOp.SqrtOfMse | kaleidoscope/operators/collectop.py:46-59 | the square root keeps the missing-iff-no-finite-error rule |
| CollectOp.FilteredStdKeepsGaps | kaleidoscope/operators/collectop.py:46-50 | the filtered uncertainty keeps the gaps of the MSE |
| CollectOp.UncName | kaleidoscope/operators/collectop.py:128-130 | the name is the configured one or "{v}_unc", with "_filtered" appended for the filtered variant |
| CollectOp.UncNamesDiffer | kaleidoscope/operators/collectop.py:128-130 | the filtered and unfiltered names never coincide |
| CollectOp.UncertaintyAttrs | kaleidoscope/operators/collectop.py:136-159 | configured attributes win and popped ones are removed; otherwise an inherited actual_range becomes the range of the uncertainty, the title gets the "standard uncertainty of " prefix, the filtered variant gets its comment, the coordinates attribute splits back into x's coordinates, and every other attribute of x is kept; nothing else appears |
| CollectOp.UncertaintyRangeIsNonNegative | kaleidoscope/operators/collectop.py:142-149 | the actual_range of an unfiltered uncertainty starts at a missing, infinite or non-negative value |
| CollectOp.StandardNameOfUncertainty | kaleidoscope/operators/collectop.py:155-159 | a kept standard name gets " standard_error" appended; a configured one is taken as configured |
| CollectOp.UncertaintyAttrsNumeric | kaleidoscope/operators/collectop.py:136-159 | the rewritten attributes keep the codec attributes numeric |
| CollectOp.UncertaintyStd | kaleidoscope/operators/collectop.py:134 | the uncertainty in physical units has the shape of one member |
| CollectOp.UncertaintyData | kaleidoscope/operators/collectop.py:134-137 | the encoded uncertainty has the shape of one member |
| CollectOp.AddUncertainty | kaleidoscope/operators/collectop.py:117-159 | an existing variable or coordinate of that name leaves the target unchanged; otherwise exactly that variable is appended |
| CollectOp.Candidates | kaleidoscope/operators/collectop.py:109-130 | every configured variable contributes its name, and its filtered name when "filter" is set |
| CollectOp.AddUncertainties | kaleidoscope/operators/collectop.py:112-114 | one loop step adds the uncertainty, and the filtered one when "filter" is set, keeping all existing variables |
| CollectOp.RunVars | kaleidoscope/operators/collectop.py:109-114 | the loop keeps coordinates, attributes and every existing variable |
| CollectOp.RunVarsAddsUncertainties | kaleidoscope/operators/collectop.py:109-114 | after the loop every configured variable has its uncertainty, and its filtered one when configured |
| CollectOp.RunVarsAddsOnlyCandidates | kaleidoscope/operators/collectop.py:109-114 | the loop adds nothing but uncertainty names of configured variables |
| CollectOp.Run | kaleidoscope/operators/collectop.py:100-115 | the result is the first member plus exactly the configured uncertainty variables |
| AttrEdits.UncBaseName | kaleidoscope/operators/collectop.py:128 | the configured name, or "{v}_unc" |
| AttrEdits.CoordinateAttr | kaleidoscope/operators/collectop.py:62-65 | with coordinates, the attribute is a string that splits at blanks back into the coordinate names; without coordinates nothing changes; other attributes are untouched |
| AttrEdits.AppendToAttr | kaleidoscope/operators/collectop.py:68-72 | a present string attribute gets the suffix appended; nothing else changes |
| AttrEdits.PrependToAttr | kaleidoscope/operators/collectop.py:75-79 | a present title gets the prefix; nothing else changes |
| AttrEdits.RangeAttr | kaleidoscope/operators/collectop.py:143-149 | a two-element array: both ends missing iff the data is all missing, otherwise the ends are elements of the data and bound every valid element from below and above |
| AttrEdits.SetRange | kaleidoscope/operators/derandop.py:97-104 | an existing actual_range is replaced by the range of the data, no attribute is added or removed, and the others are untouched |
| AttrEdits.PopThenUpdate | kaleidoscope/operators/collectop.py:157-159 | removals happen before the update, so configured attributes win and popped ones stay only if reconfigured |
| Datasets.Put | kaleidoscope/operators/collectop.py:136-141 | assigning a variable replaces it in place or appends its name |
| Datasets.Decoded | kaleidoscope/operators/derandop.py:23-34 | `_decode` decodes every element with the parameters read from the variable's attributes |
| Datasets.Column | kaleidoscope/operators/derandop.py:86 | the values along the ensemble axis at one position, one per member |
| Datasets.DecodedMembers | kaleidoscope/operators/collectop.py:47-49 | every member is decoded with the attributes of the variable |
| Datasets.FirstMember | kaleidoscope/operators/collectop.py:108 | `isel(i=0)` keeps names, coordinates and attributes and takes member 0 of every variable |
| DerandOp.Spread | kaleidoscope/operators/derandop.py:78-86 | the uncertainty is the nanstd over members 1.. of the decoded data, element by element |
| DerandOp.SpreadMissingIffNoValidRealization | kaleidoscope/operators/derandop.py:86 | the spread is missing iff no realization is valid, and non-negative elsewhere |
| DerandOp.SpreadOfFiniteRealizations | kaleidoscope/operators/derandop.py:86 | for finite realizations the spread is the square root of their population variance |
| DerandOp.UncertaintyAttrs | kaleidoscope/operators/derandop.py:94-107 | configured attributes other than standard_name and actual_range win and popped ones are removed; other attributes of x are kept; actual_range is present iff configured or inherited and not popped, and its value is the range of the spread; a standard name is present iff configured or inherited and not popped, and an inherited one gets " standard_error" appended |
| DerandOp.ConfiguredStandardNameGetsSuffix | kaleidoscope/operators/derandop.py:94-107 | the suffix is appended after the update, so a configured standard name also gets " standard_error" |
| DerandOp.UncertaintyAttrsNumeric | kaleidoscope/operators/derandop.py:94-107 | the rewritten attributes keep the codec attributes numeric, so `_encode` can read them |
| DerandOp.AddUncertainty | kaleidoscope/operators/derandop.py:82-96 | an existing name is skipped; otherwise exactly the encoded spread with rewritten attributes is added |
| DerandOp.RunVars | kaleidoscope/operators/derandop.py:79-84 | the loop keeps coordinates, attributes and every existing variable |
| DerandOp.RunVarsAddsUncertainties | kaleidoscope/operators/derandop.py:79-84 | after the loop every configured variable has its uncertainty variable |
| DerandOp.Run | kaleidoscope/operators/derandop.py:69-108 | the result is the first member plus the uncertainty of every configured variable |
| Callbacks.Accept | kaleidoscope/callbacks.py:33-54 | AcceptAll always, RejectAll never, AcceptAlgorithmsOnly iff key[0] starts with "kaleidoscope" |
| Callbacks.AlgorithmKeys | kaleidoscope/callbacks.py:33-38 | algorithm task keys are accepted; string keys never are (key[0] is one character) |
| Callbacks.Gate | kaleidoscope/callbacks.py:76-84 | the hook runs exactly for accepted keys |
| Callbacks.DefaultFilterRunsNoHook | kaleidoscope/callbacks.py:63-84 | with the default RejectAll filter no hook runs |
| Callbacks.Start | kaleidoscope/callbacks.py:157-164 | start records the time only for a key not yet started |
| Callbacks.Stop | kaleidoscope/callbacks.py:166-173 | stop records the time only for a key not yet stopped, appending it to the iteration order |
| Callbacks.FirstWriteWins | kaleidoscope/callbacks.py:157-173 | a second start or stop of a key is a no-op |
| Callbacks.ProcessTime | kaleidoscope/callbacks.py:175-184 | stopped - started when both are recorded, NaN otherwise |
| Callbacks.StartThenStop | kaleidoscope/callbacks.py:157-184 | a key started at a and stopped at b took b - a, whatever later calls say |
| Callbacks.NodeName | kaleidoscope/callbacks.py:186-189 | the name up to the first "-"; without one, find's -1 drops the last character |
| Callbacks.AlgorithmNodesShareOneName | kaleidoscope/callbacks.py:186-189 | every algorithm task name has node name "kaleidoscope" |
| Callbacks.AddTime | kaleidoscope/callbacks.py:151-154 | adding a time keeps one entry per name and adds the name |
| Callbacks.TimeOfAddTime | kaleidoscope/callbacks.py:151-154 | the added name's entry is the old total plus secs (or secs), other names unchanged |
| Callbacks.Accumulate | kaleidoscope/callbacks.py:146-154 | the accumulation has one entry per name |
| Callbacks.AccumulateSumsPerName | kaleidoscope/callbacks.py:146-154 | every name's total is the sum of the times of its accepted stopped keys |
| Callbacks.AccumulateFailsOnUnindexableKeys | kaleidoscope/callbacks.py:147-149 | the loop fails exactly on a key that cannot be indexed by the filter or `_node_name` |
| Callbacks.Insert | kaleidoscope/callbacks.py:155 | insertion adds exactly one entry |
| Callbacks.SortByTime | kaleidoscope/callbacks.py:155 | the sort is a permutation |
| Callbacks.InsertDescending | kaleidoscope/callbacks.py:155 | inserting a non-NaN total into a descending list keeps it descending |
| Callbacks.SortByTimeDescending | kaleidoscope/callbacks.py:155 | without NaN totals the result is in descending order of time |
| Callbacks.AmassedTimes | kaleidoscope/callbacks.py:139-155 | the amassed times are a permutation of the per-name totals |
| Callbacks.FloorDiv | kaleidoscope/callbacks.py:222 | Python's `//`, flooring also for a negative divisor |
| Callbacks.ComputationStatus | kaleidoscope/callbacks.py:218-237 | a report is the pair (finished, finished + ready + waiting + running) |
| Callbacks.StatusIsThrottled | kaleidoscope/callbacks.py:218-227 | no report below 10 tasks per message; otherwise a report iff all are finished or the finished count is a multiple of k//n |
| Callbacks.MultipleIff | kaleidoscope/callbacks.py:222-224 | `finished % k == 0` holds exactly when the finished count is a multiple of k |
| Callbacks.NegativeCountReportsNothing | kaleidoscope/callbacks.py:222-224 | a negative message count never reports |
| Engines.AutoEngine | kaleidoscope/writer.py:140-146 | `_auto_engine`, the same in the reader and the writer: ".zarr" gives zarr; a path with neither suffix keeps the configured engine |
| Engines.ZarrExactly | kaleidoscope/reader.py:129-135 | in reader and writer alike, zarr is chosen exactly for ".zarr" paths and unsuffixed paths configured for zarr; ".nc" keeps the engine unless it is zarr, then h5netcdf |
| Engines.OnlyTheStringTrue | kaleidoscope/writer.py:164-176 | only the string "true" switches an option on, not JSON true or "True" |
| Writer.Configure | kaleidoscope/writer.py:74-85 | every option is set and comes from the defaults or the config; the chunks merge fails iff a chunks argument meets a non-dictionary |
| Writer.ConfigurePrecedence | kaleidoscope/writer.py:74-85 | engine argument over config over defaults; a chunks argument updates the configured dictionary per dimension |
| Writer.DefaultWriter | kaleidoscope/writer.py:74-80 | the defaults are no chunks, h5netcdf, zlib on at level 1, shuffle on |
| Writer.ChunkSize | kaleidoscope/writer.py:121-134 | a non-int configured size fails the assertion; an unconfigured dimension keeps the stored chunk size |
| Writer.ChunkSizeInRange | kaleidoscope/writer.py:128-132 | -1 gives the full length, 0 the stored chunk size, and sizes from -1 to the length stay within 1..length |
| Writer.FullOfEmptyDimension | kaleidoscope/writer.py:128-131 | -1 on an empty dimension falls through to the stored chunk size |
| Writer.ChunkSizes | kaleidoscope/writer.py:120-134 | one entry per dimension, each the dimension's chunk size; fails iff some dimension fails |
| Writer.EncodeCompress | kaleidoscope/writer.py:178-197 | dtype always; "chunks" for zarr and "chunksizes" otherwise, only when non-empty; zlib, complevel and shuffle only for netCDF |
| Writer.Encode | kaleidoscope/writer.py:109-138 | exactly the non-scalar, non-coordinate variables get an encoding, built from their chunk sizes |
| Writer.EncodeFailsOnNonIntChunks | kaleidoscope/writer.py:121-127 | encoding fails iff an encoded variable has a configured non-int chunk size |
| Reader.Configure | kaleidoscope/reader.py:86-98 | every option is set, from the defaults or the config |
| Reader.ConfigOverridesDefaults | kaleidoscope/reader.py:86-98 | a configured key wins over its default, and no config keeps the defaults |
| Reader.FlagFollowsConfig | kaleidoscope/reader.py:147-180 | a flag is on iff configured as "true", or unconfigured and on by default |
| Reader.DefaultReader | kaleidoscope/reader.py:86-96 | by default decode_cf, decode_coords and concat_characters are on, the rest off, engine h5netcdf, no chunks |
| Parser.Convert | kaleidoscope/parser.py:200-207 | a non-integer is a ValueError; an integer is returned unchanged iff within the bounds, otherwise a TypeError |
| Parser.ConvertFormatted | kaleidoscope/parser.py:202-207 | a formatted integer converts to itself iff within bounds |
| Parser.BoundsAreInclusive | kaleidoscope/parser.py:203-206 | both bounds are inclusive and absent bounds do not constrain |
| Parser.ChunkSizeOptions | kaleidoscope/parser.py:71-81 | the chunk-size options accept -1 and 0 and reject -2 |
| Processor.Overlay | kaleidoscope/processor.py:115-116 | one dimension's entry is set and the other entries kept |
| Processor.Resolve | kaleidoscope/processor.py:114-122 | a missing chunks key is a KeyError and a non-dictionary chunks value exactly an AttributeError; other keys kept; the chunks stay a dictionary; the engine is replaced only by a non-empty argument |
| Processor.ChunkPrecedence | kaleidoscope/processor.py:114-120 | lat/lon chunk sizes: the explicit argument, else the product type's entry, else the "_" entry |
| Processor.FallbackEntryIsRequired | kaleidoscope/processor.py:115 | a missing "_" entry is a KeyError even when the product type has its own entry |
| Processor.ReaderConfig | kaleidoscope/processor.py:106-123 | the reader's chunks stay a dictionary |
| Processor.WriterConfig | kaleidoscope/processor.py:125-144 | the writer's chunks stay a dictionary |
| Processor.ReaderAndWriterAgree | kaleidoscope/processor.py:114-141 | reader and writer resolve chunks by identical rules |
| Runner.Positive | kaleidoscope/runner.py:129 | `code > 0` is defined exactly for numbers and compares their value |
| Runner.ExitCodeTable | kaleidoscope/runner.py:96-136 | the codes as numbers: success 0; ArgumentError 128, AssertionError 129, KeyboardInterrupt and MemoryError 130, OSError 132, RuntimeError 133, SystemError 134, SystemExit with a positive code 135 (0 otherwise), other Exceptions 255; a non-numeric SystemExit code and non-Exceptions escape |
| Runner.SuccessExactly | kaleidoscope/runner.py:128-138 | success iff no exception or a SystemExit with a code <= 0 |
| Runner.CodesAreDeclared | kaleidoscope/runner.py:96-136 | every code is declared; MemoryError maps to the keyboard-interrupt code and 131 never occurs |
| Runner.EscapesExactly | kaleidoscope/runner.py:128-136 | only non-Exception exceptions and a SystemExit with a non-numeric code escape |
| Runner.StackTracesNeedTrue | kaleidoscope/runner.py:179-183 | only a parsed namespace with stack_traces exactly True prints traces |
| Runner.InitDask | kaleidoscope/runner.py:141-155 | profiling forces synchronous mode; a scheduler only for the two known modes; workers only in multithreading and only for ints |
| Runner.ProfilingIsSynchronous | kaleidoscope/runner.py:146-150 | with profiling the scheduler is synchronous and workers are ignored |
| Runner.WorkersInMultithreading | kaleidoscope/runner.py:151-154 | multithreading uses threads and applies only integer worker counts |
| ExitCodes.CodesAreDistinct | kaleidoscope/interface/exitcodes.py:14-61 | failure codes are distinct, nonzero, consecutive from 128, and the last is 255 |
| Period.NewPeriod | kaleidoscope/val/period.py:21-22 | the end year defaults to the begin year |
| Period.Text | kaleidoscope/val/period.py:43-47 | the text starts with the begin year, and has room for both years around the separator when they differ |
| Period.TextReadsBack | kaleidoscope/val/period.py:43-47 | the text is the single year iff end = beg; both years parse back from it |
| Period.Display | kaleidoscope/val/period.py:59-61 | the separator is " - " and both years parse back |
| Period.Lim | kaleidoscope/val/period.py:57 | the limits bound exactly the covered years, with an exclusive end |
| Period.SliceBounds | kaleidoscope/val/period.py:32-34 | the slice runs from "{beg}-01-01" to "{end}-12-31" |
| Strings.Find | kaleidoscope/callbacks.py:189 | `str.find` gives the first position of the character, or -1 exactly when it is absent |
| Strings.PrefixUpTo | kaleidoscope/callbacks.py:189 | Python slicing `s[:k]`, where a negative k counts from the end and is clamped |
| Strings.Split | kaleidoscope/operators/collectop.py:64-65 | `s.split(c)` yields at least one piece and no piece holds c |
| Strings.SplitJoin | kaleidoscope/operators/collectop.py:64-65 | splitting at c undoes `c.join(parts)` for parts without c, so the joined text determines every part |
| Strings.IntToString | kaleidoscope/val/period.py:43-47 | the decimal text of an integer is non-empty and starts with '-' exactly for negatives |
| Strings.FormattingIsInjective | kaleidoscope/val/period.py:43-47 | distinct integers have distinct decimal texts |
| Strings.ParseFormattedInt | kaleidoscope/parser.py:202 | `int(f"{i}")` gives i back |

## Left out

- Dask scheduling, `map_blocks`, `map_overlap`, halo fill, trimming and re-chunking are a foreign library. Only the per-block contract is modelled, and the block coordinates are a parameter.
- Bit generators (PCG64DXSM, Philox), `uuid.uuid5` and NumPy's `standard_normal` are foreign and not verifiable. They appear as function parameters: word streams, normal streams and the UUID integer.
- IEEE rounding, signed zeros and single versus double precision are not modelled; arithmetic on finite values is exact.
- NumPy's conversion of NaN to an unsigned integer type is left as an opaque `NaNOf` sentinel.
- `exp`, `log`, `sqrt` and the filter kernels (dask_image) are abstract functions constrained only by the laws the proofs use.
- File I/O is not modelled: `Reader._open`, `Writer.write`, the JSON configuration resources, logging and the progress bar. Configurations are parameters.
- The debug statistics of the operators (min, max, mean and standard deviation in the log) are not modelled. The eager computation of `actual_range` is modelled only through its value.
- ScatterOp.RandomizeVariable: for a variable with codec attributes the contract fixes `actual_range` only as a two-element array. `ScatterOp.Realized` states that it is the range of the values before encoding, which the contract of `RandomizeVariable` does not name.
- `Runner._run_processor` (callback registration and the processor run) and `_init_dask`'s temporary-directory setting are left out. So are `Parser` argument wiring, `FileType`/`DirType` and the argparse help and version actions.
- Exception subclasses (`FileNotFoundError`, `RecursionError`, ...) are represented by the class whose handler catches them.
- Callbacks.SchedulerState: the dask state dictionary is reduced to its four task lists, so a missing list (a `KeyError`) is not modelled.
- Callbacks.ComputationStatus: requires `n != 0`; with `n == 0` Python raises `ZeroDivisionError`, which the model does not represent.
- Callbacks.SortByTime: the order is proved only for totals without NaN. Stability for equal totals is not stated.
- Writer.Encode: requires the configured chunks to be a dictionary. With another value Python fails inside `_encode`: a list, number or None in `dim in self._chunks` or `self._chunks[dim]` raises a `TypeError`, and a string makes a substring test that raises a `TypeError` or, when no dimension matches, no error at all. None of these outcomes is modelled.
- Processor.Resolve: requires the chunks key to differ from the engine key, which holds for both callers.
- Processor.ChunkPrecedence: assumes the product type is not "lat". For "lat", the second lookup in Python reads the chunk size just written.
- Parser.Convert: `int()` accepts surrounding whitespace, underscores between digits and non-ASCII Unicode decimal digits. The model accepts only an optional sign followed by ASCII digits.
- CollectOp.UncertaintyAttrs and DerandOp.UncertaintyAttrs: `standard_name` and `title` are assumed to be strings (`TextAttrs`), as the f-strings of the source expect.
- ScatterOp.AddDifferences: the "total" loop is stated only to keep the length and to be the identity for unperturbed references. Its general value is not stated.
- Codec.Encode: the cast to the storage type at the end of `compute_block_typed` is not applied. For an integer storage type that cast truncates toward zero, and NaN without a fill value becomes an arbitrary integer. `Reader._open` casts every variable to single precision, so the operators always encode to a floating-point type, and the model treats that type as exact.
- Codec.DecodeEncodeValue: the round trip is exact because no storage cast is modelled. With integer storage it would hold only within one quantization step (the scale factor). The pipeline does not hit that case, for the reason given for Codec.Encode.
- ScatterOp.AddDifferences and ScatterOp.RandomizeVariable: return `ShapeMismatch` when a reference, uncertainty, RMSD or bias block differs in length from the value block. Dask broadcasts compatible shapes and raises its own error otherwise; broadcasting is not modelled.
- Values.Truthy: the truth value of a NumPy array with more than one element raises a `ValueError` in Python. The model folds this into false, because such arrays occur only as attribute values, whose truth value the code never takes.
- AttrEdits.CoordinateAttr: the read-back of the coordinates attribute is stated for coordinate names without blanks (`Unblanked`). A name with a blank would split into several pieces.
