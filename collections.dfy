/**
 * Linear searches and filters over sequences, shared by the ledger and the
 * two registries: "the first entry that matches" and "every entry that does
 * not match, in order".
 */
module Collections {
  import opened Wrappers

  /** Index of the first element satisfying `p`, or None. */
  function FirstIndex<T>(s: seq<T>, p: T -> bool): (r: Option<nat>)
    ensures r.Some? ==> r.value < |s| && p(s[r.value])
    ensures r.Some? ==> forall j :: 0 <= j < r.value ==> !p(s[j])
    ensures r.None? <==> forall j :: 0 <= j < |s| ==> !p(s[j])
  {
    if |s| == 0 then None
    else if p(s[0]) then Some(0)
    else
      match FirstIndex(s[1..], p)
      case None => None
      case Some(i) => Some(i + 1)
  }

  /** An element satisfying `p` with none before it is the one `FirstIndex` finds. */
  lemma FirstIndexIs<T>(s: seq<T>, p: T -> bool, i: nat)
    requires i < |s| && p(s[i])
    requires forall j :: 0 <= j < i ==> !p(s[j])
    ensures FirstIndex(s, p) == Some(i)
  {
  }

  /** The linear scan the managers run: the index of the first element satisfying `p`. */
  method FindFirst<T>(s: seq<T>, p: T -> bool) returns (r: Option<nat>)
    ensures r == FirstIndex(s, p)
  {
    var i := 0;
    while i < |s|
      invariant 0 <= i <= |s|
      invariant forall j :: 0 <= j < i ==> !p(s[j])
    {
      if p(s[i]) {
        return Some(i);
      }
      i := i + 1;
    }
    return None;
  }

  /** The elements of `s` that satisfy `keep`, in their original order. */
  function Filter<T>(s: seq<T>, keep: T -> bool): (r: seq<T>)
    ensures |r| <= |s|
    ensures forall x :: x in r ==> x in s && keep(x)
    ensures forall x :: x in s && keep(x) ==> x in r
  {
    if |s| == 0 then []
    else if keep(s[0]) then [s[0]] + Filter(s[1..], keep)
    else Filter(s[1..], keep)
  }

  /** Filtering keeps every element exactly when its length is unchanged. */
  lemma FilterKeepsAllIff<T>(s: seq<T>, keep: T -> bool)
    ensures |Filter(s, keep)| == |s| <==> forall j :: 0 <= j < |s| ==> keep(s[j])
    ensures (forall j :: 0 <= j < |s| ==> keep(s[j])) ==> Filter(s, keep) == s
  {
    if forall j :: 0 <= j < |s| ==> keep(s[j]) {
      FilterAllKept(s, keep);
    } else {
      var j :| 0 <= j < |s| && !keep(s[j]);
      FilterDropsOne(s, keep, j);
    }
  }

  /** When every element is kept, filtering is the identity. */
  lemma {:induction false} FilterAllKept<T>(s: seq<T>, keep: T -> bool)
    requires forall j :: 0 <= j < |s| ==> keep(s[j])
    ensures Filter(s, keep) == s
  {
    if |s| > 0 {
      assert forall j :: 0 <= j < |s| - 1 ==> s[1..][j] == s[j + 1];
      FilterAllKept(s[1..], keep);
      assert s == [s[0]] + s[1..];
    }
  }

  /** An element that is not kept makes the filtered sequence shorter. */
  lemma {:induction false} FilterDropsOne<T>(s: seq<T>, keep: T -> bool, j: nat)
    requires j < |s| && !keep(s[j])
    ensures |Filter(s, keep)| < |s|
  {
    if j > 0 {
      assert s[1..][j - 1] == s[j];
      FilterDropsOne(s[1..], keep, j - 1);
    }
  }
}
