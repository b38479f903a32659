# Circuit-training RPE generator — Dafny model

This project models `Generator.generate_training` of the circuit-training
generator. Given a number of stations (8 to 15) and a difficulty (0 to 3), it
produces one RPE (rate of perceived exertion, 4 to 10) per station, in four
stages:

1. **Validation.** A difficulty outside 0..3 is rejected first, then a
   station count outside 8..15. Both are `ValueError`s in the source and
   `Failure(InvalidDifficulty)` / `Failure(InvalidStationCount)` here.
2. **Tier apportionment** (`Apportionment`). The stations are split across
   three intensity tiers (low, core, high) by the largest-remainder (Hamilton)
   method. Each difficulty has its own shares, modelled exactly in hundredths:
   (75,25,0), (40,55,5), (15,65,20) and (0,60,40). Each tier first gets the
   floor of `n * share`. The leftover (0 to 2 stations) goes one at a time to
   the tiers with the largest fractional remainders. Ties are broken by a
   shuffle followed by a stable descending sort.
3. **Sampling** (`Sampling`). Each tier draws its count of values, with
   replacement, from its list: low [4,5], core [6,7,8], high [9,10]. The
   draws are concatenated in tier order and shuffled.
4. **Mean targeting** (`HillClimb`). The target mean is 5.1, 6.1, 7.1 or 8.1.
   While the mean is more than 0.25 from the target, the loop lowers a random
   value above 4 by one or raises a random value below 10 by one. With
   `T = 51 + 10 * d` (the target in tenths), the test `|mean - target| > 0.25`
   is the integer test `|20 * sum - 2 * T * n| > 5 * n`.
   The contracts of `WithinTolerance` and `Offset` prove that the integer
   tests agree with the source's tests over the reals.

Randomness (`random.shuffle`, `np.random.choice`) is modelled as
nondeterministic choice in module `Randomness`. Every property below holds for
every outcome of every random call. The working list `training_rpe` is a
`seq<int>` that is reassigned. The numpy `training_array` is an `array<int>`
that `HillClimb.Step` updates in place.

Modelling decisions:
- Fractions are exact hundredths, so a floor is `n * share / 100` and a
  remainder is `n * share % 100`. For `n` in 8..15, the non-integer products
  lie at least 0.05 from an integer, so the source's float floors are the
  exact ones.
- Some remainders tie exactly but differ in the last float bit. At difficulty
  1 with 8 stations, core's remainder is `0.40000000000000036` and high's is
  `0.4`. The model treats such ties as ties and allows both orders. The
  source's deterministic order is one of the outcomes the model covers.
- The mean is never exactly equal to the target while it lies outside the
  window. So the source's `elif current_average < target_average` branch is
  always taken when the first test fails, and `Step` models it as `else`.
- `GenerateTraining` returns the final array's contents as a sequence,
  rather than the numpy array object.
- `counts` is a record with one field per tier (`TierCounts`), not a string-keyed
  dictionary. `TierCounts.Increment` models `counts[t] += 1`.

## Model

| member | source | states |
|---|---|---|
| `Generator.GenerateTraining` | generator.py:31-137 | An invalid difficulty gives `InvalidDifficulty`, checked before the station count. A valid difficulty with an invalid count gives `InvalidStationCount`. Valid arguments always succeed with exactly `n` values, each in 4..10, whose mean is within 0.25 of the target. The tier counts used are a Hamilton apportionment, and the sampled list has that many values per tier. The result is tied to that sampled list. If the sample's mean is already in the window, the result is the sample itself. If the mean is above the target, every value is at most the sampled one and the final mean is still above the target. Below the target is the mirror case. The loop stops at the first in-window sum: starting above the window, one more unit on the final sum would be outside it, and starting below, one unit less would be. So the final sum is the largest in-window sum not above the sampled one, or in the mirror case the smallest not below it. |
| `Rules.Share` | generator.py:33-38 | The per-difficulty tier shares in hundredths. At difficulty 0 only the high tier has a zero share; at difficulty 3 only the low tier does. |
| `Rules.SharesAreFractions` | generator.py:33-38 | The three shares of each difficulty add up to 100 hundredths, a whole. |
| `Rules.TierValues` | generator.py:86-90 | Each tier's value list is non-empty and lies within 4..10. |
| `Rules.TargetTenths` | generator.py:109-111 | Each target lies strictly between 4 and 10, the lowest and highest RPE. |
| `Rules.TargetMean` | generator.py:109-111 | The table 5.1, 6.1, 7.1, 8.1 equals `(51 + 10 * d) / 10`. |
| `Apportionment.BaseCount` | generator.py:49-56 | `math.floor(n * share)`: the largest whole count not above the tier's ideal count `n * share`. |
| `Apportionment.Excess` | generator.py:61-63 | The tier's remainder `n * share - floor`, in hundredths: less than one station, and floor plus remainder gives back the ideal count exactly. |
| `Apportionment.Missing` | generator.py:58-59 | `missing_count` equals the sum of the three remainders divided by 100, and lies in 0..2. So `excesses[i]` is always in bounds. |
| `Apportionment.Remainders` | generator.py:65-69 | The `excesses` list holds each tier exactly once, each paired with its own remainder. |
| `Apportionment.IsHamilton` | generator.py:49-83 | The reference definition of a largest-remainder outcome. Any outcome that meets it keeps the quota rule: each count is less than one station away from `n * share`. With no leftover it is exactly the floors. |
| `Apportionment.InsertDesc` | generator.py:72 | Inserting into a list sorted by descending remainder keeps it sorted and adds exactly that entry. |
| `Apportionment.SortDesc` | generator.py:72 | The descending sort returns a list ordered by remainder, largest first, that is a permutation of its input. |
| `Apportionment.SortedReorderingRanks` | generator.py:65-72 | Shuffling and sorting the three (tier, remainder) pairs gives one entry per tier, each with its own remainder. |
| `Apportionment.TierCounts.Increment` | generator.py:83 | `counts[t] += 1` raises tier `t` by one and leaves the other tiers unchanged. |
| `Apportionment.Apportion` | generator.py:49-83 | For every shuffle outcome, the counts are a Hamilton apportionment. They sum to `n`. Each is the floor or the floor plus one. Only a tier with a positive remainder gets the extra one. A tier that gets it never has a smaller remainder than one that does not. |
| `Apportionment.HamiltonFromRanking` | generator.py:74-83 | Giving one extra station to each of the first `missing` tiers of a ranking yields a Hamilton apportionment. |
| `Apportionment.RankedCountsSum` | generator.py:58-59 | The floors plus the handed-out leftover sum exactly to `n`. |
| `Apportionment.RankedCountsNearFloor` | generator.py:80-83 | Every tier ends at its floor or one above. A tier gets the extra station only if its remainder is positive. |
| `Apportionment.RankedCountsLargestFirst` | generator.py:71-83 | Extra stations go to the tiers with the largest remainders. |
| `Apportionment.TwelveAtEasiest` | generator.py:49-83 | With 12 stations at difficulty 0, the counts are always (9, 3, 0), whatever the tie-break. |
| `Apportionment.ZeroShareGetsNothing` | generator.py:49-83 | A tier with a zero share gets no station: no high values at difficulty 0 and no low values at difficulty 3. |
| `Apportionment.TieBreakOnlyOnTies` | generator.py:71-72 | Two outcomes of the random tie-break can differ on a tier only when another tier has exactly the same remainder. |
| `Sampling.TierCount` | generator.py:86-90 | The number of sampled values in tier `t`'s list `rpe_ranges[t]`. Every value of that list is counted, so the count is at least how often each such value occurs. |
| `Sampling.DrawnFromTier` | generator.py:96-101 | Values drawn from tier `t`'s list all count towards `t` and towards no other tier. |
| `Sampling.TierCountsCoverList` | generator.py:86-90 | Every value in 4..10 belongs to exactly one tier, so the three tier counts of a list add up to its length. |
| `Sampling.Sample` | generator.py:86-103 | The sampled list has `counts.Total()` values. Exactly `counts.Get(t)` of them come from tier `t`, so all lie in 4..10. This holds after the shuffle too. |
| `Randomness.Shuffle` | generator.py:103 | A shuffle returns a permutation of its input. |
| `Randomness.ChooseMany` | generator.py:99 | `np.random.choice(values, size=count)` returns `count` draws, each from `values`. |
| `Randomness.ChooseOne` | generator.py:119 | `np.random.choice(indices)` returns one of the given indices. |
| `HillClimb.WithinTolerance` | generator.py:113 | The loop's exit test on the integer sum holds exactly when `-0.25 <= mean - target <= 0.25` over the reals, that is, when `abs(current_average - target_average) > tolerance` is false. |
| `HillClimb.Offset` | generator.py:115-123 | The scaled offset is positive exactly when `current_average > target_average`, and negative exactly when `current_average < target_average`. |
| `HillClimb.CanLower` | generator.py:117 | `training_array > 4`: lowering an accepted in-range value keeps it in 4..10, and an in-range value it rejects is 4. |
| `HillClimb.CanRaise` | generator.py:125 | `training_array < 10`: raising an accepted in-range value keeps it in 4..10, and an in-range value it rejects is 10. |
| `HillClimb.SumUpdate` | generator.py:121 | Changing one position changes the sum by exactly the difference. |
| `HillClimb.SumAtMost` | generator.py:117 | Proof helper for `LowerableExists`, not a model of the line: a list whose values are all at most `c` sums to at most `c * length`. |
| `HillClimb.SumAtLeast` | generator.py:125 | Proof helper for `RaisableExists`, not a model of the line: a list whose values are all at least `c` sums to at least `c * length`. |
| `HillClimb.Where` | generator.py:117 | `np.where(cond)[0]` lists exactly the positions whose value satisfies `cond`, in increasing order. |
| `HillClimb.LowerableExists` | generator.py:115-119 | When the mean is above target (at least 5.1), some value is above 4, so the index list for a decrement is never empty. |
| `HillClimb.RaisableExists` | generator.py:123-127 | When the mean is below target (at most 8.1), some value is below 10, so the index list for an increment is never empty. |
| `HillClimb.StepDoesNotOvershoot` | generator.py:113-132 | Outside the window, one step moves the mean by at most 1/8. The step stays on the same side of the target, and the scaled distance shrinks by exactly 10. |
| `HillClimb.Step` | generator.py:115-132 | One pass of the loop body changes exactly one position, by exactly -1 when the mean is above target and +1 when it is below. All values stay in 4..10. The scaled distance to the target shrinks by 10, without changing side. |
| `HillClimb.Climb` | generator.py:105-132 | The loop terminates. On exit every value is in 4..10 and the mean is within 0.25 of the target. An input already in the window is left unchanged. Starting above the target no value rises and the mean stays above the target. Starting below it no value falls and the mean stays below. The loop stops at the first in-window total: one unit further back towards the starting side would leave the window again. |

## Left out

- `Generator.__init__` (generator.py:20-29): it reads the exercise catalog from
  a JSON file. That is file I/O, and `generate_training` never uses the catalog.
- `Exercise` and `Training` (generator.py:6-16): plain records that
  `generate_training` does not use.
- main_gui.py, main_cli.py and main.py: a tkinter front end, an interactive
  console front end and a statistics script over float means. They only call
  the generator and are not part of this model.
- Category quotas and the assignment of catalog exercises to scores: no such
  code exists in generator.py, which returns the score array only.
- The probability distributions of `random.shuffle` and `np.random.choice`:
  they are modelled as nondeterministic choice, so nothing is stated about
  likelihoods.
- Floating point: the model uses exact hundredths and an exact integer
  tolerance test. The reasons the source's floats give the same outcomes are
  stated above.
- `SortDesc`: the descending sort is stable, but no stability
  lemma is proved. The shuffle beforehand is an arbitrary permutation, so
  stability does not change which orders are possible.
