/** Counting arguments for why the event loop reaches the horizon T: with
    every delay at least `step` long, each philosopher can have only a bounded
    number of events processed before T, and the sum of what is left of those
    bounds shrinks with every such event. */
module Horizon {

  /** How far `count` steps of length `step` reach from time 0. */
  function Reach(count: nat, step: real): real
  {
    if count == 0 then 0.0 else Reach(count - 1, step) + step
  }

  /** Reaching by whole steps is multiplying. */
  lemma {:induction false} ReachIsProduct(count: nat, step: real)
    ensures Reach(count, step) == count as real * step
  {
    if count > 0 {
      ReachIsProduct(count - 1, step);
    }
  }

  /** Enough steps of length `step` to reach the horizon T. */
  function Budget(T: real, step: real): (k: nat)
    requires 0.0 < step
    ensures T <= Reach(k, step)
  {
    if T <= 0.0 then 0
    else
      var q := T / step;
      assert q * step == T;
      var k := q.Floor + 1;
      assert q < k as real;
      assert q * step < k as real * step;
      ReachIsProduct(k, step);
      k
  }

  /** Sum over philosophers of how many more events each may still have
      processed before the horizon, when philosopher j has had `handled[j]`
      of its `bound`. */
  function Slack(handled: seq<nat>, bound: nat): nat
    requires forall j :: 0 <= j < |handled| ==> handled[j] <= bound
  {
    if handled == [] then 0 else bound - handled[0] + Slack(handled[1..], bound)
  }

  /** Counting one more processed event for philosopher i uses up exactly one
      unit of slack. */
  lemma {:induction false} SlackStep(handled: seq<nat>, bound: nat, i: nat)
    requires forall j :: 0 <= j < |handled| ==> handled[j] <= bound
    requires i < |handled| && handled[i] < bound
    ensures Slack(handled[i := handled[i] + 1], bound) == Slack(handled, bound) - 1
  {
    var h' := handled[i := handled[i] + 1];
    if i > 0 {
      assert h'[1..] == handled[1..][i - 1 := handled[i] + 1];
      SlackStep(handled[1..], bound, i - 1);
    } else {
      assert h'[1..] == handled[1..];
    }
  }

  /** An event at `time`, at least `count` whole steps after time 0 and
      before the horizon, still has budget left: fewer than `bound` steps
      were taken. */
  lemma {:induction false} BelowHorizon(count: nat, step: real, time: real, T: real, bound: nat)
    requires 0.0 < step && T <= Reach(bound, step)
    requires Reach(count, step) <= time < T
    ensures count < bound
  {
    ReachIsProduct(count, step);
    ReachIsProduct(bound, step);
  }
}
