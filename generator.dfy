/**
 `Generator.generate_training`: validate the arguments, apportion the stations
 across the intensity tiers, sample an RPE per station, then nudge the values
 until their mean is within tolerance of the difficulty's target. The result
 is the list of per-station RPE values.
 */
module Generator {
  import opened Rules
  import opened Apportionment
  import opened Sampling
  import opened HillClimb

  /**
   An out-of-range difficulty is reported first, then an out-of-range station
   count; both before any random choice. Otherwise the result has one RPE per
   station, each in 4..10, with mean within 0.25 of the target. The ghost
   outputs expose the tier counts and the sampled list the loop started from:
   the result is that list itself when its mean is already close enough, and
   otherwise that list with values only lowered (mean above target) or only
   raised (mean below target), ending on the same side of the target at the
   first total inside the window.
   */
  method GenerateTraining(numberOfExercises: int, difficulty: int)
    returns (r: Result<seq<int>>, ghost counts: TierCounts, ghost sampled: seq<int>)
    ensures !ValidDifficulty(difficulty) ==> r == Failure(InvalidDifficulty)
    ensures ValidDifficulty(difficulty) && !ValidStations(numberOfExercises) ==>
              r == Failure(InvalidStationCount)
    ensures ValidDifficulty(difficulty) && ValidStations(numberOfExercises) ==>
              r.Ok? &&
              |r.value| == numberOfExercises &&
              (forall k :: 0 <= k < |r.value| ==> InRpeRange(r.value[k])) &&
              WithinTolerance(Sum(r.value), numberOfExercises, difficulty)
    ensures r.Ok? ==>
              IsHamilton(numberOfExercises, difficulty, counts) &&
              |sampled| == numberOfExercises &&
              (forall t: Tier :: TierCount(multiset(sampled), t) == counts.Get(t))
    ensures r.Ok? && WithinTolerance(Sum(sampled), numberOfExercises, difficulty) ==>
              r.value == sampled
    ensures r.Ok? && Offset(Sum(sampled), numberOfExercises, difficulty) > 0 ==>
              (forall k :: 0 <= k < numberOfExercises ==> r.value[k] <= sampled[k]) &&
              Offset(Sum(r.value), numberOfExercises, difficulty) > 0
    ensures r.Ok? && Offset(Sum(sampled), numberOfExercises, difficulty) < 0 ==>
              (forall k :: 0 <= k < numberOfExercises ==> r.value[k] >= sampled[k]) &&
              Offset(Sum(r.value), numberOfExercises, difficulty) < 0
    ensures r.Ok? ==> StopsAtFirst(Sum(sampled), Sum(r.value), numberOfExercises, difficulty)
  {
    counts, sampled := TierCounts(0, 0, 0), [];
    if !ValidDifficulty(difficulty) {
      return Failure(InvalidDifficulty), counts, sampled;
    }
    if !ValidStations(numberOfExercises) {
      return Failure(InvalidStationCount), counts, sampled;
    }
    var n: nat := numberOfExercises;
    var tierCounts := Apportion(n, difficulty);
    counts := tierCounts;
    var trainingRpe := Sample(tierCounts);
    sampled := trainingRpe;
    var trainingArray := new int[|trainingRpe|](i requires 0 <= i < |trainingRpe| => trainingRpe[i]);
    assert trainingArray[..] == trainingRpe;
    Climb(trainingArray, difficulty);
    r := Ok(trainingArray[..]);
  }
}
