/** Small facts about positions in sequences, shared by the inventory and the tokenizer. */
module Sequences {

  /** `pos` is a strictly increasing list of valid indices into a sequence of length `n`. */
  ghost predicate IncreasingIndices(pos: seq<nat>, n: nat) {
    && (forall k :: 0 <= k < |pos| ==> pos[k] < n)
    && (forall k, l :: 0 <= k < l < |pos| ==> pos[k] < pos[l])
  }

  /** `part` occurs in `s` starting at index `i`. */
  ghost predicate OccursAt(part: string, s: string, i: int) {
    0 <= i && i + |part| <= |s| && s[i..i + |part|] == part
  }

  /** `s` ends with `suffix`. */
  ghost predicate EndsWith(s: string, suffix: string) {
    |suffix| <= |s| && s[|s| - |suffix|..] == suffix
  }

  /** The indices `j` with `keep[j]`, in increasing order. */
  ghost function Selected(keep: seq<bool>): (idx: seq<nat>)
    ensures |idx| <= |keep|
    decreases |keep|
  {
    if keep == [] then []
    else
      var n := |keep| - 1;
      Selected(keep[..n]) + if keep[n] then [n] else []
  }

  /** `Selected` lists exactly the kept indices, each once, in increasing order. */
  lemma {:induction false} SelectedExactly(keep: seq<bool>)
    ensures IncreasingIndices(Selected(keep), |keep|)
    ensures forall j :: 0 <= j < |keep| ==> (j in Selected(keep) <==> keep[j])
    decreases |keep|
  {
    if keep != [] {
      var n := |keep| - 1;
      SelectedExactly(keep[..n]);
      assert forall j :: 0 <= j < n ==> keep[..n][j] == keep[j];
    }
  }

  /** The elements of `xs` whose flag in `keep` is set, in order. */
  ghost function Kept<T>(xs: seq<T>, keep: seq<bool>): seq<T>
    requires |keep| == |xs|
    decreases |xs|
  {
    if xs == [] then []
    else
      var n := |xs| - 1;
      Kept(xs[..n], keep[..n]) + if keep[n] then [xs[n]] else []
  }

  /** The `k`-th kept element is the element at the `k`-th selected index. */
  lemma {:induction false} KeptAtSelected<T>(xs: seq<T>, keep: seq<bool>)
    requires |keep| == |xs|
    ensures |Kept(xs, keep)| == |Selected(keep)|
    ensures forall k :: 0 <= k < |Selected(keep)| ==>
      Selected(keep)[k] < |xs| && Kept(xs, keep)[k] == xs[Selected(keep)[k]]
    decreases |xs|
  {
    if xs != [] {
      var n := |xs| - 1;
      KeptAtSelected(xs[..n], keep[..n]);
      var p := Selected(keep[..n]);
      var before := Kept(xs[..n], keep[..n]);
      forall k | 0 <= k < |p| ensures p[k] < n && before[k] == xs[p[k]] {
        assert xs[..n][p[k]] == xs[p[k]];
      }
    }
  }
}
