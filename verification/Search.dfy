/** sort.Search of the Go standard library, on a sequence and a predicate on its elements. */
module Search {

  /** The index sort.Search stops at, for any predicate at all: the element there satisfies it
      and the one before does not. */
  function BinarySearch(s: seq<nat>, p: nat -> bool, i: nat, j: nat): (r: nat)
    requires i <= j <= |s|
    requires 0 < i ==> !p(s[i - 1])
    requires j < |s| ==> p(s[j])
    ensures i <= r <= j
    ensures 0 < r ==> !p(s[r - 1])
    ensures r < |s| ==> p(s[r])
    decreases j - i
  {
    if i == j then i
    else
      var h := (i + j) / 2;
      if !p(s[h]) then BinarySearch(s, p, h + 1, j) else BinarySearch(s, p, i, h)
  }

  method SortSearch(s: seq<nat>, p: nat -> bool) returns (r: nat)
    ensures r == BinarySearch(s, p, 0, |s|)
  {
    var i, j := 0, |s|;
    while i < j
      invariant i <= j <= |s|
      invariant (0 < i ==> !p(s[i - 1])) && (j < |s| ==> p(s[j]))
      invariant BinarySearch(s, p, 0, |s|) == BinarySearch(s, p, i, j)
    {
      var h := (i + j) / 2;
      if !p(s[h]) {
        i := h + 1;
      } else {
        j := h;
      }
    }
    r := i;
  }

  predicate Ascending(s: seq<nat>) {
    forall i, j :: 0 <= i < j < |s| ==> s[i] < s[j]
  }

  function Between(lo: nat, hi: nat): nat -> bool {
    x => lo < x <= hi
  }

  /** The search for an anchor uses a predicate that is false, then true, then false again. It can
      miss, but an index it does return is the least element above `lo`. */
  lemma BetweenFindsFirst(s: seq<nat>, lo: nat, hi: nat)
    requires Ascending(s)
    ensures var r := BinarySearch(s, Between(lo, hi), 0, |s|);
            r < |s| ==> lo < s[r] <= hi && forall k :: 0 <= k < |s| ==> (s[k] <= lo <==> k < r)
  {
    var r := BinarySearch(s, Between(lo, hi), 0, |s|);
    if 0 < r < |s| {
      assert !Between(lo, hi)(s[r - 1]) && s[r - 1] < s[r];
    }
  }

  /** It does miss: chunk 1 is wanted and lies in the sequence, yet the search runs off the end. */
  lemma BetweenMisses()
    ensures Ascending([1, 5, 6]) && Between(0, 1)(1)
    ensures BinarySearch([1, 5, 6], Between(0, 1), 0, 3) == 3
  {
    var s, p := [1, 5, 6], Between(0, 1);
    assert !p(s[1]) && !p(s[2]);
    calc {
      BinarySearch(s, p, 0, 3);
      BinarySearch(s, p, 2, 3);
      BinarySearch(s, p, 3, 3);
      3;
    }
  }
}
