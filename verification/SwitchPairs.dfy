/** The switches a disable window makes: false is off, true is on again. */
module SwitchPairs {

  /** The switches so far, then k times off and on. */
  function ThenPairs(t: seq<bool>, k: nat): (r: seq<bool>)
    ensures |r| == |t| + 2 * k
  {
    if k == 0 then t else ThenPairs(t, k - 1) + [false, true]
  }

  lemma {:induction false} PairsAdd(t: seq<bool>, j: nat, k: nat)
    ensures ThenPairs(ThenPairs(t, j), k) == ThenPairs(t, j + k)
  {
    if k > 0 { PairsAdd(t, j, k - 1); }
  }

  lemma FewPairs(t: seq<bool>)
    ensures ThenPairs(t, 0) == t && ThenPairs(t, 1) == t + [false, true]
  {
  }

  function One(b: bool): nat {
    if b then 1 else 0
  }
}
