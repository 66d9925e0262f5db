/** Sublists: what a filter leaves, and in which order. */
module Picking {

  /** `kept` are the elements of `all` that are wanted, every one of them and in their
      order; `idx` tells where they stood. */
  ghost predicate Picks<T>(all: seq<T>, kept: seq<T>, idx: seq<nat>, wanted: seq<bool>) {
    && |wanted| == |all| && |idx| == |kept|
    && (forall i :: 0 <= i < |idx| ==> idx[i] < |all| && kept[i] == all[idx[i]])
    && (forall i, j :: 0 <= i < j < |idx| ==> idx[i] < idx[j])
    && (forall k :: 0 <= k < |all| ==> (k in idx <==> wanted[k]))
  }

  /** One element more. */
  lemma PickNext<T>(all: seq<T>, kept: seq<T>, idx: seq<nat>, wanted: seq<bool>, x: T, want: bool)
    requires Picks(all, kept, idx, wanted)
    ensures if want then Picks(all + [x], kept + [x], idx + [|all|], wanted + [true])
            else Picks(all + [x], kept, idx, wanted + [false])
  {
    var n := |all|;
    assert forall k :: 0 <= k < n ==> (all + [x])[k] == all[k] && (wanted + [want])[k] == wanted[k];
    assert forall i :: 0 <= i < |idx| ==> idx[i] in idx;
    if want {
      var more := idx + [n];
      assert more[|idx|] == n;
      assert forall k :: k in more <==> k in idx || k == n;
    }
  }
}
