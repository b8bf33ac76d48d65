/** Instance label maps: boxes are numbered from 1 in order, each writes its
    number where its mask covers, and the last writer wins. */
module LabelMaps {

  /** The label a pixel ends up with when writer k (1-based) writes exactly
      if flags[k - 1] holds: the last such k, or 0 when none writes. */
  function LastTrue(flags: seq<bool>): (k: nat)
    ensures k <= |flags|
    ensures k > 0 ==> flags[k - 1]
  {
    if |flags| == 0 then 0
    else if flags[|flags| - 1] then |flags|
    else LastTrue(flags[..|flags| - 1])
  }

  /** A pixel holds k > 0 exactly when writer k covers it and no later
      writer does, and holds 0 exactly when no writer covers it. */
  lemma {:induction false} LastTrueIsLastWriter(flags: seq<bool>, k: nat)
    ensures LastTrue(flags) == k <==>
      if k == 0 then forall j :: 0 <= j < |flags| ==> !flags[j]
      else k <= |flags| && flags[k - 1] && forall j :: k <= j < |flags| ==> !flags[j]
  {
    if |flags| > 0 {
      var n := |flags|;
      var prefix := flags[..n - 1];
      LastTrueIsLastWriter(prefix, k);
      if !flags[n - 1] {
        assert forall j :: 0 <= j < n - 1 ==> prefix[j] == flags[j];
      }
    }
  }
}
