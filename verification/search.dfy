/**
 Binary search over an ascending sequence, in the shape of Rust's
 `slice::binary_search`: the result is tagged, either the index of an
 element equal to the key, or the insertion point at which the key would
 keep the sequence sorted.
 */
module Search {

  datatype SearchResult = Found(index: nat) | NotFound(insertion: nat)

  /** Non-decreasing order, the precondition of `binary_search`. */
  ghost predicate Ascending(a: seq<nat>)
  {
    forall i, j :: 0 <= i <= j < |a| ==> a[i] <= a[j]
  }

  /** Strictly increasing order: no two entries are equal. */
  ghost predicate StrictlyAscending(a: seq<nat>)
  {
    forall i, j :: 0 <= i < j < |a| ==> a[i] < a[j]
  }

  method BinarySearch(a: seq<nat>, key: nat) returns (r: SearchResult)
    requires Ascending(a)
    ensures r.Found? ==> r.index < |a| && a[r.index] == key
    ensures r.NotFound? ==> r.insertion <= |a|
    ensures r.NotFound? ==> forall j :: 0 <= j < r.insertion ==> a[j] < key
    ensures r.NotFound? ==> forall j :: r.insertion <= j < |a| ==> key < a[j]
  {
    var lo, hi := 0, |a|;
    while lo < hi
      invariant 0 <= lo <= hi <= |a|
      invariant forall j :: 0 <= j < lo ==> a[j] < key
      invariant forall j :: hi <= j < |a| ==> key < a[j]
      decreases hi - lo
    {
      var mid := lo + (hi - lo) / 2;
      if a[mid] < key {
        lo := mid + 1;
      } else if key < a[mid] {
        hi := mid;
      } else {
        return Found(mid);
      }
    }
    return NotFound(lo);
  }

  /**
   The reference answer of the "insertion point minus one" rule: the greatest
   index whose entry does not exceed v. Defined by scanning from the end.
   */
  function LastAtMost(a: seq<nat>, v: nat): (i: nat)
    requires |a| > 0 && a[0] <= v
    ensures i < |a| && a[i] <= v
    ensures forall j :: i < j < |a| ==> v < a[j]
  {
    if a[|a| - 1] <= v then |a| - 1 else LastAtMost(a[..|a| - 1], v)
  }

  /**
   In a strictly ascending sequence, the index whose entry is at most v and
   whose successors all exceed v is exactly LastAtMost.
   */
  lemma LastAtMostCharacterised(a: seq<nat>, v: nat, i: nat)
    requires StrictlyAscending(a)
    requires |a| > 0 && a[0] <= v
    requires i < |a| && a[i] <= v
    requires i + 1 == |a| || v < a[i + 1]
    ensures LastAtMost(a, v) == i
  {
  }
}
