/**
 Drawing the initial RPE list: `count` values with replacement from each
 tier's value list, concatenated in tier order and shuffled.
 */
module Sampling {
  import opened Rules
  import opened Apportionment
  import Randomness

  /**
   How many entries of `m` lie in tier `t`'s value list `TierValues(t)`:
   every value of that list is counted, so the count is zero only when none
   of them occurs. `OneValueOneTier` shows that the three lists are disjoint,
   so this sorts every RPE value into exactly one tier.
   */
  function TierCount(m: multiset<int>, t: Tier): (c: nat)
    ensures forall v {:trigger v in TierValues(t)} :: v in TierValues(t) ==> m[v] <= c
  {
    match t
    case Low => m[4] + m[5]
    case Core => m[6] + m[7] + m[8]
    case High => m[9] + m[10]
  }

  /** Tier counts add up over a union. */
  lemma TierCountAdds(a: multiset<int>, b: multiset<int>)
    ensures forall u: Tier :: TierCount(a + b, u) == TierCount(a, u) + TierCount(b, u)
  {
    forall u: Tier
      ensures TierCount(a + b, u) == TierCount(a, u) + TierCount(b, u)
    {
      match u
      case Low =>
      case Core =>
      case High =>
    }
  }

  /** A value from tier `t`'s list counts towards `t` and towards no other tier. */
  lemma OneValueOneTier(v: int, t: Tier)
    requires v in TierValues(t)
    ensures forall u: Tier :: TierCount(multiset{v}, u) == if u == t then 1 else 0
  {
    match t
    case Low => assert v == 4 || v == 5;
    case Core => assert v == 6 || v == 7 || v == 8;
    case High => assert v == 9 || v == 10;
  }

  /** Draws from one tier all count towards that tier and towards no other. */
  lemma {:induction false} DrawnFromTier(drawn: seq<int>, t: Tier)
    requires forall k :: 0 <= k < |drawn| ==> drawn[k] in TierValues(t)
    ensures forall u: Tier :: TierCount(multiset(drawn), u) == if u == t then |drawn| else 0
  {
    if drawn != [] {
      var rest := drawn[1..];
      assert drawn == [drawn[0]] + rest;
      DrawnFromTier(rest, t);
      OneValueOneTier(drawn[0], t);
      assert multiset(drawn) == multiset{drawn[0]} + multiset(rest);
      TierCountAdds(multiset{drawn[0]}, multiset(rest));
    }
  }

  /** A list of in-range values is split by the three tier counts without loss. */
  lemma {:induction false} TierCountsCoverList(s: seq<int>)
    requires forall k :: 0 <= k < |s| ==> InRpeRange(s[k])
    ensures TierCount(multiset(s), Low) + TierCount(multiset(s), Core) + TierCount(multiset(s), High) == |s|
  {
    if s != [] {
      var rest := s[1..];
      assert s == [s[0]] + rest;
      TierCountsCoverList(rest);
      assert multiset(s) == multiset{s[0]} + multiset(rest);
      TierCountAdds(multiset{s[0]}, multiset(rest));
    }
  }

  /**
   The sampling stage of `generate_training`: for each tier with a positive
   count, in the order low, core, high, `count` draws from its value list;
   then the whole list is shuffled. Exactly `counts.Get(t)` of the values come
   from tier `t`, so there are `counts.Total()` of them, all in 4..10.
   */
  method Sample(counts: TierCounts) returns (trainingRpe: seq<int>)
    ensures |trainingRpe| == counts.Total()
    ensures forall t: Tier :: TierCount(multiset(trainingRpe), t) == counts.Get(t)
    ensures forall k :: 0 <= k < |trainingRpe| ==> InRpeRange(trainingRpe[k])
  {
    var drawn: seq<int> := [];
    var order := [Low, Core, High];
    for j := 0 to 3
      invariant forall t: Tier ::
        TierCount(multiset(drawn), t) == if t in order[..j] then counts.Get(t) else 0
      invariant forall k :: 0 <= k < |drawn| ==> InRpeRange(drawn[k])
    {
      var t := order[j];
      assert forall u: Tier :: u in order[..j + 1] <==> u in order[..j] || u == t by {
        assert order[..j + 1] == order[..j] + [t];
      }
      assert t !in order[..j];
      var count := counts.Get(t);
      if count > 0 {
        var generated := Randomness.ChooseMany(TierValues(t), count);
        DrawnFromTier(generated, t);
        TierCountAdds(multiset(drawn), multiset(generated));
        drawn := drawn + generated;
      }
    }
    assert order[..3] == order;
    trainingRpe := Randomness.Shuffle(drawn);
    forall k | 0 <= k < |trainingRpe|
      ensures InRpeRange(trainingRpe[k])
    {
      assert trainingRpe[k] in multiset(drawn);
    }
    TierCountsCoverList(trainingRpe);
  }
}
