/**
 Largest-remainder (Hamilton) apportionment of the stations across the three
 intensity tiers. Shares are exact hundredths, so `n * share` is the tier's
 ideal count times 100: its floor is `n * share / 100` and its fractional
 remainder, in hundredths of a station, is `n * share % 100`.
 */
module Apportionment {
  import opened Rules
  import Randomness

  /** `math.floor(n * share)`: the largest count not above the tier's ideal count. */
  function BaseCount(n: nat, d: Difficulty, t: Tier): (b: nat)
    ensures 100 * b <= n * Share(d, t) < 100 * (b + 1)
  {
    n * Share(d, t) / 100
  }

  /**
   `n * share - math.floor(n * share)`, in hundredths: what the floor leaves
   of the ideal count, always less than one station.
   */
  function Excess(n: nat, d: Difficulty, t: Tier): (e: nat)
    ensures e < 100
    ensures 100 * BaseCount(n, d, t) + e == n * Share(d, t)
  {
    n * Share(d, t) % 100
  }

  function BaseTotal(n: nat, d: Difficulty): nat
  {
    BaseCount(n, d, Low) + BaseCount(n, d, Core) + BaseCount(n, d, High)
  }

  function ExcessTotal(n: nat, d: Difficulty): nat
  {
    Excess(n, d, Low) + Excess(n, d, Core) + Excess(n, d, High)
  }

  /**
   `missing_count`, the stations left over once every tier has its floor. It
   is exactly the sum of the three remainders and lies between 0 and 2, so
   the loop that hands it out never reads past the third ranked tier.
   */
  function Missing(n: nat, d: Difficulty): (m: int)
    ensures 100 * m == ExcessTotal(n, d)
    ensures 0 <= m <= 2
  {
    var a, b, c := Share(d, Low), Share(d, Core), Share(d, High);
    SharesAreFractions(d);
    assert n * a + n * b + n * c == n * 100 by {
      assert n * a + n * b + n * c == n * (a + b + c);
    }
    n - BaseTotal(n, d)
  }

  /** A tier with its remainder: one entry of the list that is ranked. */
  datatype Remainder = Remainder(tier: Tier, excess: nat)

  ghost predicate SortedDesc(s: seq<Remainder>)
  {
    forall i, j :: 0 <= i < j < |s| ==> s[i].excess >= s[j].excess
  }

  /** Inserts `x` before the first entry whose remainder is not larger. */
  function InsertDesc(x: Remainder, s: seq<Remainder>): (r: seq<Remainder>)
    requires SortedDesc(s)
    ensures |r| == |s| + 1
    ensures SortedDesc(r)
    ensures multiset(r) == multiset(s) + multiset{x}
    ensures r[0] == x || (|s| > 0 && r[0] == s[0])
  {
    if s == [] || s[0].excess <= x.excess then
      var r := [x] + s;
      assert forall j :: 1 <= j < |r| ==> r[j] == s[j - 1];
      r
    else
      assert s == [s[0]] + s[1..];
      var rest := InsertDesc(x, s[1..]);
      var r := [s[0]] + rest;
      assert forall j :: 1 <= j < |r| ==> r[j] == rest[j - 1];
      assert forall j :: 1 <= j < |r| ==> r[0].excess >= r[j].excess;
      r
  }

  /**
   `list.sort(key=excess, reverse=True)`: the entries ordered by remainder,
   largest first. Entries with equal remainders keep their relative order.
   */
  function SortDesc(s: seq<Remainder>): (r: seq<Remainder>)
    ensures SortedDesc(r)
    ensures multiset(r) == multiset(s)
  {
    if s == [] then []
    else
      assert s == [s[0]] + s[1..];
      InsertDesc(s[0], SortDesc(s[1..]))
  }

  /** The `excesses` list: each tier once, with its own remainder, in the order low, core, high. */
  function Remainders(n: nat, d: Difficulty): (r: seq<Remainder>)
    ensures OnePerTier(r)
    ensures forall k :: 0 <= k < |r| ==> r[k].excess == Excess(n, d, r[k].tier)
  {
    [Remainder(Low, Excess(n, d, Low)),
     Remainder(Core, Excess(n, d, Core)),
     Remainder(High, Excess(n, d, High))]
  }

  /** Three entries, one per tier. */
  ghost predicate OnePerTier(r: seq<Remainder>)
  {
    |r| == 3 && r[0].tier != r[1].tier && r[0].tier != r[2].tier && r[1].tier != r[2].tier
  }

  /**
   A ranking of the three tiers: each tier exactly once, each with its own
   remainder, largest remainder first.
   */
  ghost predicate IsRanking(n: nat, d: Difficulty, e: seq<Remainder>)
  {
    OnePerTier(e) &&
    (forall k :: 0 <= k < 3 ==> e[k] in Remainders(n, d)) &&
    e[0].excess >= e[1].excess >= e[2].excess
  }

  /** A sorted reordering of one entry per tier is again one entry per tier, each from the original list. */
  lemma SortedReorderingRanks(r: seq<Remainder>, e: seq<Remainder>)
    requires OnePerTier(r)
    requires multiset(e) == multiset(r)
    ensures OnePerTier(e)
    ensures forall k :: 0 <= k < 3 ==> e[k] in r
  {
    var m := multiset{r[0], r[1], r[2]};
    assert multiset(r) == m by { assert r == [r[0], r[1], r[2]]; }
    assert |e| == 3 by { assert |multiset(e)| == |m|; }
    assert multiset(e) == multiset{e[0], e[1], e[2]} by { assert e == [e[0], e[1], e[2]]; }
    forall k | 0 <= k < 3
      ensures e[k] in r
    {
      assert e[k] in multiset(e);
      assert e[k] in multiset(r);
    }
  }

  /** The source's `counts` dictionary: a station count for each tier. */
  datatype TierCounts = TierCounts(low: nat, core: nat, high: nat)
  {
    function Get(t: Tier): nat
    {
      match t
      case Low => low
      case Core => core
      case High => high
    }

    /** `counts[t] += 1` */
    function Increment(t: Tier): (c: TierCounts)
      ensures c.Get(t) == Get(t) + 1
      ensures forall u :: u != t ==> c.Get(u) == Get(u)
    {
      match t
      case Low => this.(low := low + 1)
      case Core => this.(core := core + 1)
      case High => this.(high := high + 1)
    }

    function Total(): nat
    {
      low + core + high
    }
  }

  /**
   The outcome of Hamilton apportionment of `n` stations at difficulty `d`:
   the counts add up to `n`; each tier gets its floor or one more; only a
   tier with a positive remainder gets one more; and a tier that gets one
   more never has a smaller remainder than a tier that does not. Such counts
   keep the quota rule: each is less than one station from its ideal count;
   and with no leftover they are exactly the floors.
   */
  ghost predicate IsHamilton(n: nat, d: Difficulty, counts: TierCounts): (b: bool)
    ensures b ==> forall t: Tier ::
                    100 * counts.Get(t) - 100 < n * Share(d, t) < 100 * counts.Get(t) + 100
    ensures b && Missing(n, d) == 0 ==>
              counts == TierCounts(BaseCount(n, d, Low), BaseCount(n, d, Core), BaseCount(n, d, High))
  {
    counts.Total() == n &&
    (forall t: Tier :: counts.Get(t) == BaseCount(n, d, t) ||
                       (counts.Get(t) == BaseCount(n, d, t) + 1 && Excess(n, d, t) > 0)) &&
    (forall t: Tier, u: Tier ::
       counts.Get(t) > BaseCount(n, d, t) && counts.Get(u) == BaseCount(n, d, u) ==>
       Excess(n, d, t) >= Excess(n, d, u))
  }

  /**
   The tier apportionment of `generate_training`: floors, remainders, a
   shuffle followed by a descending sort of the remainders, then one extra
   station for each of the first `Missing` ranked tiers.
   */
  method Apportion(n: nat, d: Difficulty) returns (counts: TierCounts)
    ensures IsHamilton(n, d, counts)
  {
    var missing := Missing(n, d);
    var shuffled := Randomness.Shuffle(Remainders(n, d));
    var excesses := SortDesc(shuffled);
    SortedReorderingRanks(Remainders(n, d), excesses);
    counts := TierCounts(BaseCount(n, d, Low), BaseCount(n, d, Core), BaseCount(n, d, High));
    for i := 0 to missing
      invariant HandedOut(n, d, excesses, counts, i)
    {
      counts := counts.Increment(excesses[i].tier);
    }
    HamiltonFromRanking(n, d, excesses, counts);
  }

  /** Sums over the three tiers do not depend on the order they are listed in. */
  lemma SumOverTiers(a: Tier, b: Tier, c: Tier, f: Tier -> int)
    requires a != b && a != c && b != c
    ensures f(a) + f(b) + f(c) == f(Low) + f(Core) + f(High)
  {
  }

  /** Where tier `t` sits in a list of one entry per tier. */
  function PositionOf(e: seq<Remainder>, t: Tier): (k: nat)
    requires OnePerTier(e)
    ensures k < 3 && e[k].tier == t
  {
    if e[0].tier == t then 0 else if e[1].tier == t then 1 else 2
  }

  /** `counts` holds the floors plus one station for each of the first `i` ranked tiers. */
  ghost predicate HandedOut(n: nat, d: Difficulty, e: seq<Remainder>, counts: TierCounts, i: int)
    requires |e| == 3
  {
    counts.Get(e[0].tier) == BaseCount(n, d, e[0].tier) + (if 0 < i then 1 else 0) &&
    counts.Get(e[1].tier) == BaseCount(n, d, e[1].tier) + (if 1 < i then 1 else 0) &&
    counts.Get(e[2].tier) == BaseCount(n, d, e[2].tier) + (if 2 < i then 1 else 0)
  }

  /** The counts handed out from ranking `e`: the floor, plus one for each of the first `Missing` ranked tiers. */
  ghost predicate CountsFromRanking(n: nat, d: Difficulty, e: seq<Remainder>, counts: TierCounts)
    requires |e| == 3
  {
    forall k :: 0 <= k < 3 ==>
      counts.Get(e[k].tier) == BaseCount(n, d, e[k].tier) + (if k < Missing(n, d) then 1 else 0)
  }

  /** Handing one station to each of the first `Missing` tiers of a ranking is Hamilton apportionment. */
  lemma HamiltonFromRanking(n: nat, d: Difficulty, e: seq<Remainder>, counts: TierCounts)
    requires IsRanking(n, d, e)
    requires HandedOut(n, d, e, counts, Missing(n, d))
    ensures IsHamilton(n, d, counts)
  {
    HandedOutAll(n, d, e, counts);
    RankingExcesses(n, d, e);
    RankedCountsSum(n, d, e, counts);
    RankedCountsNearFloor(n, d, e, counts);
    RankedCountsLargestFirst(n, d, e, counts);
  }

  lemma HandedOutAll(n: nat, d: Difficulty, e: seq<Remainder>, counts: TierCounts)
    requires |e| == 3
    requires HandedOut(n, d, e, counts, Missing(n, d))
    ensures CountsFromRanking(n, d, e, counts)
  {
  }

  lemma RankingExcesses(n: nat, d: Difficulty, e: seq<Remainder>)
    requires IsRanking(n, d, e)
    ensures forall k :: 0 <= k < 3 ==> e[k].excess == Excess(n, d, e[k].tier)
    ensures e[0].excess + e[1].excess + e[2].excess == ExcessTotal(n, d)
  {
    forall k | 0 <= k < 3
      ensures e[k].excess == Excess(n, d, e[k].tier)
    {
      assert e[k] in Remainders(n, d);
    }
    SumOverTiers(e[0].tier, e[1].tier, e[2].tier, t => Excess(n, d, t));
  }

  lemma RankedCountsSum(n: nat, d: Difficulty, e: seq<Remainder>, counts: TierCounts)
    requires IsRanking(n, d, e)
    requires CountsFromRanking(n, d, e, counts)
    ensures counts.Total() == n
  {
    SumOverTiers(e[0].tier, e[1].tier, e[2].tier, t => counts.Get(t));
    SumOverTiers(e[0].tier, e[1].tier, e[2].tier, t => BaseCount(n, d, t));
  }

  lemma RankedCountsNearFloor(n: nat, d: Difficulty, e: seq<Remainder>, counts: TierCounts)
    requires IsRanking(n, d, e)
    requires CountsFromRanking(n, d, e, counts)
    requires forall k :: 0 <= k < 3 ==> e[k].excess == Excess(n, d, e[k].tier)
    requires e[0].excess + e[1].excess + e[2].excess == ExcessTotal(n, d)
    ensures forall t: Tier :: counts.Get(t) == BaseCount(n, d, t) ||
                              (counts.Get(t) == BaseCount(n, d, t) + 1 && Excess(n, d, t) > 0)
  {
    forall t: Tier
      ensures counts.Get(t) == BaseCount(n, d, t) ||
              (counts.Get(t) == BaseCount(n, d, t) + 1 && Excess(n, d, t) > 0)
    {
      var k := PositionOf(e, t);
      if k < Missing(n, d) {
        // a zero remainder ranked within the first Missing would leave the
        // remainders summing to less than 100 * Missing
        assert e[k].excess > 0;
      }
    }
  }

  lemma RankedCountsLargestFirst(n: nat, d: Difficulty, e: seq<Remainder>, counts: TierCounts)
    requires IsRanking(n, d, e)
    requires CountsFromRanking(n, d, e, counts)
    requires forall k :: 0 <= k < 3 ==> e[k].excess == Excess(n, d, e[k].tier)
    ensures forall t: Tier, u: Tier ::
       counts.Get(t) > BaseCount(n, d, t) && counts.Get(u) == BaseCount(n, d, u) ==>
       Excess(n, d, t) >= Excess(n, d, u)
  {
    forall t: Tier, u: Tier | counts.Get(t) > BaseCount(n, d, t) && counts.Get(u) == BaseCount(n, d, u)
      ensures Excess(n, d, t) >= Excess(n, d, u)
    {
      var k, j := PositionOf(e, t), PositionOf(e, u);
      assert k < Missing(n, d) <= j;
    }
  }

  /** With no fractional remainders the tie-break is irrelevant: 12 stations at difficulty 0 are always 9 low, 3 core, 0 high. */
  lemma TwelveAtEasiest(counts: TierCounts)
    requires IsHamilton(12, 0, counts)
    ensures counts == TierCounts(9, 3, 0)
  {
    assert BaseCount(12, 0, Low) == 9 && BaseCount(12, 0, Core) == 3 && BaseCount(12, 0, High) == 0;
    assert Missing(12, 0) == 0;
  }

  /** A tier whose share is zero never receives a station: no high tier at difficulty 0, no low tier at difficulty 3. */
  lemma ZeroShareGetsNothing(n: nat, d: Difficulty, counts: TierCounts, t: Tier)
    requires IsHamilton(n, d, counts)
    requires Share(d, t) == 0
    ensures counts.Get(t) == 0
  {
    assert BaseCount(n, d, t) == 0 && Excess(n, d, t) == 0;
  }

  /**
   The random tie-break only decides between tiers with equal remainders:
   two Hamilton outcomes that differ on a tier differ on another tier with the
   same remainder.
   */
  lemma TieBreakOnlyOnTies(n: nat, d: Difficulty, c1: TierCounts, c2: TierCounts, t: Tier)
    requires IsHamilton(n, d, c1) && IsHamilton(n, d, c2)
    requires c1.Get(t) != c2.Get(t)
    ensures exists u: Tier :: u != t && c1.Get(u) != c2.Get(u) && Excess(n, d, u) == Excess(n, d, t)
  {
    var u: Tier;
    if c1.Get(t) > c2.Get(t) {
      // c1 gives t its extra station; c2 must give its extra one to some other tier
      u := OtherGain(n, d, c1, c2, t);
    } else {
      u := OtherGain(n, d, c2, c1, t);
    }
    assert u != t && c1.Get(u) != c2.Get(u) && Excess(n, d, u) == Excess(n, d, t);
  }

  lemma OtherGain(n: nat, d: Difficulty, c1: TierCounts, c2: TierCounts, t: Tier) returns (u: Tier)
    requires IsHamilton(n, d, c1) && IsHamilton(n, d, c2)
    requires c1.Get(t) > c2.Get(t)
    ensures u != t && c2.Get(u) > c1.Get(u)
    ensures Excess(n, d, u) == Excess(n, d, t)
  {
    var others := if t == Low then [Core, High] else if t == Core then [Low, High] else [Low, Core];
    if c2.Get(others[0]) > c1.Get(others[0]) {
      u := others[0];
    } else {
      u := others[1];
    }
  }
}
