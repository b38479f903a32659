/**
 Fixed tables of the circuit-training generator: the difficulty levels, the
 three intensity tiers with their RPE (rate of perceived exertion) value sets,
 the per-difficulty tier shares and the per-difficulty target mean.
 */
module Rules {

  /** A difficulty level, 0 (easy) to 3 (extreme). */
  type Difficulty = d: int | 0 <= d <= 3

  /** Number of stations the generator accepts. */
  const MinStations: int := 8
  const MaxStations: int := 15

  predicate ValidDifficulty(d: int) { 0 <= d <= 3 }
  predicate ValidStations(n: int) { MinStations <= n <= MaxStations }

  /** The three intensity tiers a station's RPE is drawn from. */
  datatype Tier = Low | Core | High

  /** Lowest and highest RPE the generator ever produces. */
  const MinRpe: int := 4
  const MaxRpe: int := 10

  predicate InRpeRange(v: int) { MinRpe <= v <= MaxRpe }

  /** RPE values a tier draws from: low [4, 5], core [6, 7, 8], high [9, 10]. */
  function TierValues(t: Tier): (vs: seq<int>)
    ensures |vs| > 0
    ensures forall v :: v in vs ==> InRpeRange(v)
  {
    match t
    case Low => [4, 5]
    case Core => [6, 7, 8]
    case High => [9, 10]
  }

  /**
   Share of the stations a tier should get at difficulty `d`, in hundredths:
   (75, 25, 0), (40, 55, 5), (15, 65, 20), (0, 60, 40).
   */
  function Share(d: Difficulty, t: Tier): (s: nat)
    ensures s <= 75
    ensures d == 0 ==> (t == High <==> s == 0)
    ensures d == 3 ==> (t == Low <==> s == 0)
  {
    match t
    case Low => [75, 40, 15, 0][d]
    case Core => [25, 55, 65, 60][d]
    case High => [0, 5, 20, 40][d]
  }

  /** The three shares of a difficulty are fractions of the whole: they add up to 100 hundredths. */
  lemma SharesAreFractions(d: Difficulty)
    ensures Share(d, Low) + Share(d, Core) + Share(d, High) == 100
  {
  }

  /** Target mean RPE at difficulty `d`, in tenths: 5.1, 6.1, 7.1, 8.1. */
  function TargetTenths(d: Difficulty): (t: int)
    ensures 10 * MinRpe < t < 10 * MaxRpe
  {
    51 + 10 * d
  }

  /** The same target as a real number, as the generator's table writes it. */
  function TargetMean(d: Difficulty): (m: real)
    ensures m == TargetTenths(d) as real / 10.0
  {
    [5.1, 6.1, 7.1, 8.1][d]
  }

  /** Allowed distance of the mean from the target. */
  const Tolerance: real := 0.25

  /** The two invalid-argument errors, in the order they are checked. */
  datatype GenerationError = InvalidDifficulty | InvalidStationCount

  datatype Result<T> = Ok(value: T) | Failure(error: GenerationError)
}
