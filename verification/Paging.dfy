/** Pages of a remote listing: `per_page=100`, an order by stamp, and an offset. */
module Paging {
  import opened Types

  const PER_PAGE: nat := 100

  function Slice<T>(s: seq<T>, off: nat): seq<T> {
    if off >= |s| then []
    else if off + PER_PAGE >= |s| then s[off..]
    else s[off..off + PER_PAGE]
  }

  /** `s` enumerates `which`, each element once. */
  ghost predicate Lists<T(!new)>(s: seq<T>, which: set<T>) {
    && (forall r :: r in s <==> r in which)
    && (forall i, j :: 0 <= i < j < |s| ==> s[i] != s[j])
  }

  ghost predicate Sorted<T>(s: seq<T>, stamp: T -> Time) {
    forall i, j :: 0 <= i < j < |s| ==> stamp(s[i]) <= stamp(s[j])
  }

  /** The greatest stamp on a page that is not empty. */
  function Newest<T>(data: seq<T>, stamp: T -> Time): (t: Time)
    requires data != []
    ensures exists r :: r in data && stamp(r) == t
    ensures forall r :: r in data ==> stamp(r) <= t
  {
    if |data| == 1 then stamp(data[0])
    else
      var rest := Newest(data[..|data| - 1], stamp);
      var last := stamp(data[|data| - 1]);
      if last > rest then last else rest
  }

  lemma {:induction false} DistinctCount<T>(s: seq<T>, within: set<T>)
    requires forall i, j :: 0 <= i < j < |s| ==> s[i] != s[j]
    requires forall x :: x in s ==> x in within
    ensures |s| <= |within|
  {
    if s != [] {
      var x := s[|s| - 1];
      assert x in s;
      assert forall y :: y in s[..|s| - 1] ==> y in s && y != x;
      DistinctCount(s[..|s| - 1], within - {x});
    }
  }

  lemma PastTheFront<T>(all: seq<T>, n: nat, x: T) returns (i: nat)
    requires n <= |all| && x in all && x !in all[..n]
    ensures n <= i < |all| && all[i] == x
  {
    assert all == all[..n] + all[n..];
    assert x in all[n..];
    var j :| 0 <= j < |all| - n && all[n..][j] == x;
    i := n + j;
  }

  /** What the first page of a sorted listing says about the records not on it:
      there are none if the page is short, and none older than the page's newest. */
  lemma FirstSliceIsAWindow<T(!new)>(all: seq<T>, which: set<T>, stamp: T -> Time)
    requires Lists(all, which) && Sorted(all, stamp)
    ensures var data := Slice(all, 0);
            && |data| <= PER_PAGE
            && (forall r :: r in data ==> r in which)
            && (|data| < PER_PAGE ==> data == all)
            && (data != [] ==> forall r :: r in which && r !in data ==> stamp(r) >= Newest(data, stamp))
  {
    var data := Slice(all, 0);
    assert data == all[..|data|];
    forall r | r in data ensures r in which {
      assert r in all;
    }
    if data != [] {
      var newest := Newest(data, stamp);
      var d :| d in data && stamp(d) == newest;
      var j :| 0 <= j < |data| && data[j] == d;
      forall r | r in which && r !in data ensures stamp(r) >= newest {
        var i := PastTheFront(all, |data|, r);
      }
    }
  }
}
