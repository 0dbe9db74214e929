/** The id rule shared by the challenge and flashcard services: a new item gets one
    more than the largest id present, or 1 when there is none. */
module Numbering {

  /** Python's `max(ids, default=0)`. */
  function MaxOrZero(ids: seq<int>): (m: int)
    ensures ids == [] ==> m == 0
    ensures ids != [] ==> m in ids
    ensures forall k :: 0 <= k < |ids| ==> ids[k] <= m
  {
    if ids == [] then 0
    else if |ids| == 1 then ids[0]
    else
      var m := MaxOrZero(ids[1..]);
      if ids[0] >= m then ids[0] else m
  }

  /** `max(ids, default=0) + 1`: larger than every id present, so never one of them. */
  function NextId(ids: seq<int>): (r: int)
    ensures forall k :: 0 <= k < |ids| ==> ids[k] < r
    ensures r !in ids
    ensures ids == [] ==> r == 1
    ensures ids != [] ==> r - 1 in ids
  {
    MaxOrZero(ids) + 1
  }
}
