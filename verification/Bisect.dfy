/** The standard library's binary search, shared by the index, the chain and the ring. */
module Bisect {
  function Search(keys: seq<int>, x: int, lo: nat, hi: nat): (i: nat)
    requires lo <= hi <= |keys|
    ensures lo <= i <= hi
    decreases hi - lo
  {
    if lo < hi then
      var mid := Middle(lo, hi);
      if x < keys[mid] then Search(keys, x, lo, mid) else Search(keys, x, mid + 1, hi)
    else
      lo
  }

  /** bisect.bisect_right: after any entry equal to x. */
  function BisectRight(keys: seq<int>, x: int): (i: nat)
    ensures i <= |keys|
  {
    Search(keys, x, 0, |keys|)
  }

  function Middle(lo: nat, hi: nat): (mid: nat)
    requires lo < hi
    ensures lo <= mid < hi
  {
    (lo + hi) / 2
  }

  predicate Sorted(keys: seq<int>) {
    forall i, j :: 0 <= i < j < |keys| ==> keys[i] <= keys[j]
  }

  lemma {:induction false} SearchBoundary(keys: seq<int>, x: int, lo: nat, hi: nat)
    requires lo <= hi <= |keys|
    requires lo > 0 ==> keys[lo - 1] <= x
    requires hi < |keys| ==> x < keys[hi]
    ensures var i := Search(keys, x, lo, hi);
            && (i > 0 ==> keys[i - 1] <= x)
            && (i < |keys| ==> x < keys[i])
    decreases hi - lo
  {
    hide Middle;
    if lo < hi {
      var mid := Middle(lo, hi);
      if x < keys[mid] {
        SearchBoundary(keys, x, lo, mid);
      } else {
        SearchBoundary(keys, x, mid + 1, hi);
      }
    }
  }

  /** Even over unsorted keys, the search stops where a key at most x meets a greater one. */
  lemma Boundary(keys: seq<int>, x: int)
    ensures var i := BisectRight(keys, x);
            && (i > 0 ==> keys[i - 1] <= x)
            && (i < |keys| ==> x < keys[i])
  {
    SearchBoundary(keys, x, 0, |keys|);
  }

  /** Over sorted keys, it separates the keys at most x from the greater ones. */
  lemma Floor(keys: seq<int>, x: int)
    requires Sorted(keys)
    ensures var i := BisectRight(keys, x);
            && (forall j :: 0 <= j < i ==> keys[j] <= x)
            && (forall j :: i <= j < |keys| ==> x < keys[j])
  {
    Boundary(keys, x);
  }
}
