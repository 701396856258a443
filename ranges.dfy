/**
 * The `range(from, to)` helper of the day view: `Array.from(Array(to), (_, i) => from + i)`.
 * Its length is `to`, not `to - from`; `Array(to)` throws a RangeError unless `to`
 * is a valid array length, an integer in [0, 2^32).
 */
module Ranges {

  /** One more than the largest JavaScript array length. */
  const ArrayLengthLimit: int := 0x1_0000_0000

  /** The value of a call that may throw JavaScript's RangeError. */
  datatype Outcome<T> = Ok(value: T) | RangeError

  /** `range(from, to)`: `to` consecutive integers starting at `from`. */
  function Range(from: int, to: int): (r: Outcome<seq<int>>)
    ensures r.Ok? <==> 0 <= to < ArrayLengthLimit
    ensures r.Ok? ==> |r.value| == to
    ensures r.Ok? ==> forall k :: 0 <= k < to ==> r.value[k] == from + k
  {
    if to < 0 || to >= ArrayLengthLimit then RangeError else Ok(seq(to, k => from + k))
  }

  /** The range holds exactly the integers of [from, from + to). */
  lemma RangeMembers(from: int, to: nat, x: int)
    requires to < ArrayLengthLimit
    ensures x in Range(from, to).value <==> from <= x < from + to
  {
    var s := Range(from, to).value;
    if from <= x < from + to {
      assert s[x - from] == x;
    }
  }
}
