/** The sequence aggregates the kernel relies on: `Min`, `Max` and `Any`
    over a non-empty (for Min/Max) list, as the standard query operators
    compute them, each specified by what its result means rather than by
    how it is folded. */
module Aggregates {

  /** The least element of a non-empty sequence. */
  function MinOf(xs: seq<real>): (m: real)
    requires |xs| > 0
    ensures forall i :: 0 <= i < |xs| ==> m <= xs[i]
    ensures exists i :: 0 <= i < |xs| && m == xs[i]
  {
    if |xs| == 1 then xs[0]
    else
      var rest := MinOf(xs[1..]);
      assert forall i :: 1 <= i < |xs| ==> xs[i] == xs[1..][i - 1];
      if xs[0] <= rest then xs[0] else rest
  }

  /** The greatest element of a non-empty sequence. */
  function MaxOf(xs: seq<real>): (m: real)
    requires |xs| > 0
    ensures forall i :: 0 <= i < |xs| ==> xs[i] <= m
    ensures exists i :: 0 <= i < |xs| && m == xs[i]
  {
    if |xs| == 1 then xs[0]
    else
      var rest := MaxOf(xs[1..]);
      assert forall i :: 1 <= i < |xs| ==> xs[i] == xs[1..][i - 1];
      if rest <= xs[0] then xs[0] else rest
  }

  /** Short-circuiting disjunction over a sequence; false when it is empty. */
  function Any(bs: seq<bool>): (r: bool)
    ensures r <==> exists i :: 0 <= i < |bs| && bs[i]
  {
    if |bs| == 0 then false
    else
      assert forall i :: 1 <= i < |bs| ==> bs[i] == bs[1..][i - 1];
      bs[0] || Any(bs[1..])
  }
}
