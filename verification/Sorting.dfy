/** The contract of Go's sort.Sort, met by an insertion sort over an integer rank. */
module Sorting {

  ghost predicate SortedBy<T>(s: seq<T>, rank: T -> int) {
    forall i, j :: 0 <= i < j < |s| ==> rank(s[i]) <= rank(s[j])
  }

  function Splice<T>(s: seq<T>, i: nat, x: T): (r: seq<T>)
    requires i <= |s|
    ensures |r| == |s| + 1
    ensures forall k :: 0 <= k < |r| ==> r[k] == if k < i then s[k] else if k == i then x else s[k - 1]
    ensures multiset(r) == multiset(s) + multiset{x}
  {
    assert s == s[..i] + s[i..];
    s[..i] + [x] + s[i..]
  }

  method Insert<T>(s: seq<T>, rank: T -> int, x: T) returns (r: seq<T>)
    requires SortedBy(s, rank)
    ensures SortedBy(r, rank) && multiset(r) == multiset(s) + multiset{x}
  {
    var i := |s|;
    while 0 < i && rank(x) < rank(s[i - 1])
      invariant 0 <= i <= |s|
      invariant forall k :: i <= k < |s| ==> rank(x) < rank(s[k])
    {
      i := i - 1;
    }
    r := Splice(s, i, x);
  }

  method Sort<T>(s: seq<T>, rank: T -> int) returns (r: seq<T>)
    ensures SortedBy(r, rank) && multiset(r) == multiset(s)
  {
    r := [];
    for i := 0 to |s|
      invariant SortedBy(r, rank) && multiset(r) == multiset(s[..i])
    {
      r := Insert(r, rank, s[i]);
      assert s[..i + 1] == s[..i] + [s[i]];
    }
    assert s[..|s|] == s;
  }
}
