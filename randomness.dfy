/**
 The random primitives the generator calls, as nondeterministic choice: every
 outcome the library could produce is allowed, and nothing is assumed about
 probabilities. Whatever is proved about a caller holds for every choice.
 */
module Randomness {

  /** `random.shuffle`: some reordering of `s`. */
  method Shuffle<T(==)>(s: seq<T>) returns (r: seq<T>)
    ensures multiset(r) == multiset(s)
  {
    r :| multiset(r) == multiset(s);
  }

  /** `np.random.choice(values, size=size, replace=True)`: `size` draws from the list `values`. */
  method ChooseMany(values: seq<int>, size: nat) returns (drawn: seq<int>)
    requires |values| > 0
    ensures |drawn| == size
    ensures forall k :: 0 <= k < size ==> drawn[k] in values
  {
    var first := values[0];
    var uniform := seq(size, _ => first);
    assert |uniform| == size && forall k :: 0 <= k < size ==> uniform[k] in values;
    drawn :| |drawn| == size && forall k :: 0 <= k < size ==> drawn[k] in values;
  }

  /** `np.random.choice(indices)`: one element of a non-empty list of indices. */
  method ChooseOne(indices: seq<nat>) returns (k: nat)
    requires |indices| > 0
    ensures k in indices
  {
    assert indices[0] in indices;
    k :| k in indices;
  }
}
