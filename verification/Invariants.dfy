/** When a property holds all along a run. */
module Invariants {
  lemma {:induction false} StaysGood(good: seq<bool>, harmless: seq<bool>, n: nat)
    requires |good| == |harmless| + 1 && good[0] && n <= |harmless|
    requires forall k :: 0 <= k < |harmless| && good[k] ==> (good[k + 1] <==> harmless[k])
    requires forall k :: 0 <= k < n ==> harmless[k]
    ensures good[n]
    decreases n
  {
    if n > 0 { StaysGood(good, harmless, n - 1); }
  }

  /** If a good state is followed by a good one exactly when the call is harmless, then all are, if all calls are. */
  lemma GoodWhileHarmless(good: seq<bool>, harmless: seq<bool>)
    requires |good| == |harmless| + 1 && good[0]
    requires forall k :: 0 <= k < |harmless| && good[k] ==> (good[k + 1] <==> harmless[k])
    ensures (forall k :: 0 <= k < |good| ==> good[k]) <==> (forall k :: 0 <= k < |harmless| ==> harmless[k])
  {
    if forall k :: 0 <= k < |harmless| ==> harmless[k] {
      forall k | 0 <= k < |good| ensures good[k] { StaysGood(good, harmless, k); }
    }
    if forall k :: 0 <= k < |good| ==> good[k] {
      forall k | 0 <= k < |harmless| ensures harmless[k] { assert good[k] && good[k + 1]; }
    }
  }
}
