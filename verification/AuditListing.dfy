/**
 * The enumeration of the delete audit as arithmetic (pcomirror/ingest.py, the
 * `enumerate` phase of `delete_audit_step`): which prefix of the remote listing a
 * persisted cursor and offset stand for, whether the endpoint honours
 * `where[created_at][gte]` or silently ignores it.
 */
module AuditListing {
  import opened Types
  import opened Paging

  datatype Phase = Enumerate | Confirm | Restore

  datatype Mode = Keyset | ByOffset

  /** The persisted state of a round (`audit_round:<name>` in mirror_meta). */
  datatype Round = Round(phase: Phase, mode: Mode, cursor: Option<Time>, offset: nat, tombstoned: nat, restored: nat)

  datatype Listed = Listed(id: Id, createdAt: Time)

  datatype Query = Query(gte: Option<Time>, offset: nat)

  function QueryOf(st: Round): Query {
    if st.mode.Keyset? then Query(st.cursor, st.offset) else Query(None, st.offset)
  }

  /** What the code makes of a page: the next state, and whether it is a fallback to
      offsets because the page came from behind the cursor. */
  predicate FallsBack(st: Round, data: seq<Listed>) {
    data != [] && st.mode.Keyset? && st.cursor.Some? && data[|data| - 1].createdAt < st.cursor.value
  }

  function Advance(st: Round, data: seq<Listed>): Round {
    if data == [] then st
    else
      var newest := data[|data| - 1].createdAt;
      if FallsBack(st, data) then st.(mode := ByOffset, cursor := None, offset := 0)
      else if st.mode.ByOffset? then st.(offset := st.offset + |data|)
      else if |data| == PER_PAGE && st.cursor == Some(newest) then st.(offset := st.offset + |data|)
      else st.(cursor := Some(newest), offset := 0)
  }

  /** The remote collection in its stable `created_at` order. */
  datatype Listing = Listing(ord: seq<Listed>, honours: bool)

  ghost predicate InOrder(l: Listing) {
    && (forall i, j :: 0 <= i < j < |l.ord| ==> l.ord[i].createdAt <= l.ord[j].createdAt)
    && (forall i, j :: 0 <= i < j < |l.ord| ==> l.ord[i].id != l.ord[j].id)
  }

  function FirstAtOrAfter(ord: seq<Listed>, t: Time): nat {
    if ord == [] || ord[0].createdAt >= t then 0 else 1 + FirstAtOrAfter(ord[1..], t)
  }

  lemma {:induction false} FirstAtOrAfterSplits(ord: seq<Listed>, t: Time)
    requires forall i, j :: 0 <= i < j < |ord| ==> ord[i].createdAt <= ord[j].createdAt
    ensures FirstAtOrAfter(ord, t) <= |ord|
    ensures forall i :: 0 <= i < |ord| ==> (i < FirstAtOrAfter(ord, t) <==> ord[i].createdAt < t)
  {
    if ord != [] && ord[0].createdAt < t {
      FirstAtOrAfterSplits(ord[1..], t);
      forall i | 0 <= i < |ord| ensures i < FirstAtOrAfter(ord, t) <==> ord[i].createdAt < t {
        assert i > 0 ==> ord[1..][i - 1] == ord[i];
      }
    }
  }

  /** Where the endpoint starts counting offsets for this query. */
  function Base(l: Listing, gte: Option<Time>): nat {
    if l.honours && gte.Some? then FirstAtOrAfter(l.ord, gte.value) else 0
  }

  function ListPage(l: Listing, q: Query): seq<Listed> {
    Slice(l.ord, Base(l, q.gte) + q.offset)
  }

  /** Everything before this position of the listing has been collected. */
  function Frontier(l: Listing, st: Round): nat {
    var q := QueryOf(st);
    Base(l, q.gte) + q.offset
  }

  /** The ids of the first `n` listed records. */
  function Prefix(l: Listing, n: nat): set<Id> {
    set i | 0 <= i < |l.ord| && i < n :: l.ord[i].id
  }

  function AllIds(l: Listing): set<Id> {
    set i | 0 <= i < |l.ord| :: l.ord[i].id
  }

  function PageIds(data: seq<Listed>): set<Id> {
    set i | 0 <= i < |data| :: data[i].id
  }

  /** A page is a stretch of the listing starting at the frontier, and a short page
      reaches the end of it. */
  lemma PageIsContiguous(l: Listing, st: Round)
    requires InOrder(l)
    ensures var data, from := ListPage(l, QueryOf(st)), Frontier(l, st);
            && |data| <= PER_PAGE
            && (data != [] ==> from + |data| <= |l.ord|)
            && (forall i :: 0 <= i < |data| ==> data[i] == l.ord[from + i])
            && (|data| < PER_PAGE ==> from + |data| >= |l.ord|)
  {
  }

  /** The frontier never outruns what has been read. */
  lemma FrontierFollowsThePage(l: Listing, st: Round)
    requires InOrder(l)
    ensures var data := ListPage(l, QueryOf(st));
            && Frontier(l, Advance(st, data)) <= Frontier(l, st) + |data|
            && (l.honours ==> !FallsBack(st, data))
  {
    var data, from := ListPage(l, QueryOf(st)), Frontier(l, st);
    PageIsContiguous(l, st);
    if data != [] {
      var last := from + |data| - 1;
      assert data[|data| - 1] == l.ord[last];
      FirstAtOrAfterSplits(l.ord, l.ord[last].createdAt);
      if st.cursor.Some? {
        FirstAtOrAfterSplits(l.ord, st.cursor.value);
      }
    }
  }

  lemma PrefixGrows(l: Listing, from: nat, data: seq<Listed>)
    requires from + |data| <= |l.ord| || data == []
    requires forall i :: 0 <= i < |data| ==> data[i] == l.ord[from + i]
    ensures Prefix(l, from + |data|) == Prefix(l, from) + PageIds(data)
  {
    forall i | from <= i < from + |data| && i < |l.ord| ensures l.ord[i].id in PageIds(data) {
      assert data[i - from] == l.ord[i];
    }
  }

  /** A page extends the collected prefix as far as the next state says, whether or
      not the filter is honoured, and a last page completes it. */
  lemma PageExtendsThePrefix(l: Listing, st: Round)
    requires InOrder(l)
    ensures var data := ListPage(l, QueryOf(st));
            var ids := Prefix(l, Frontier(l, st)) + PageIds(data);
            && |data| <= PER_PAGE
            && PageIds(data) <= AllIds(l)
            && Prefix(l, Frontier(l, Advance(st, data))) <= ids
            && (|data| < PER_PAGE && !FallsBack(st, data) ==> ids == AllIds(l))
            && (l.honours ==> !FallsBack(st, data))
  {
    PageIsContiguous(l, st);
    FrontierFollowsThePage(l, st);
    PrefixGrows(l, Frontier(l, st), ListPage(l, QueryOf(st)));
  }

  // ----- the measure ---------------------------------------------------------------

  function PastCursor(l: Listing, cursor: Option<Time>): set<int> {
    set i | 0 <= i < |l.ord| && (cursor.Some? ==> l.ord[i].createdAt > cursor.value)
  }

  function ModeLeft(st: Round): nat {
    if st.mode.Keyset? then 1 else 0
  }

  function RecordsLeft(l: Listing, st: Round): nat {
    if st.cursor.None? then |l.ord| + 1 else |PastCursor(l, st.cursor)|
  }

  function OffsetLeft(l: Listing, st: Round): nat {
    if st.offset >= |l.ord| then 0 else |l.ord| - st.offset
  }

  /** Lexicographic in the mode, the records past the cursor and the offset. */
  predicate Less(l: Listing, a: Round, b: Round) {
    || ModeLeft(a) < ModeLeft(b)
    || (ModeLeft(a) == ModeLeft(b) && RecordsLeft(l, a) < RecordsLeft(l, b))
    || (ModeLeft(a) == ModeLeft(b) && RecordsLeft(l, a) == RecordsLeft(l, b) && OffsetLeft(l, a) < OffsetLeft(l, b))
  }

  lemma IntsBelow(s: set<int>, n: nat)
    requires forall i :: i in s ==> 0 <= i < n
    ensures |s| <= n
  {
    if n == 0 {
      forall i ensures i !in s {
      }
      assert s == {};
    } else {
      IntsBelow(s - {n - 1}, n - 1);
    }
  }

  /** Every page that is not the last one makes progress: the enumeration ends. */
  lemma PageMakesProgress(l: Listing, st: Round)
    requires InOrder(l)
    ensures var data := ListPage(l, QueryOf(st));
            FallsBack(st, data) || |data| == PER_PAGE ==> Less(l, Advance(st, data), st)
  {
    var data := ListPage(l, QueryOf(st));
    var from, st' := Frontier(l, st), Advance(st, data);
    if |data| == PER_PAGE && !FallsBack(st, data) {
      var last := from + |data| - 1;
      assert data[|data| - 1] == l.ord[last];
      if st.mode.Keyset? && st'.cursor != st.cursor {
        var newest := l.ord[last].createdAt;
        IntsBelow(PastCursor(l, Some(newest)), |l.ord|);
        if st.cursor.Some? {
          ProperSubsetIsSmaller(PastCursor(l, Some(newest)), PastCursor(l, st.cursor), last);
        }
      } else if st.mode.Keyset? && st.cursor == Some(data[|data| - 1].createdAt) {
        assert st' == st.(offset := st.offset + PER_PAGE);
      }
    }
  }

  /** The measure as one number. */
  function EnumerationLeft(l: Listing, st: Round): nat {
    Digits(if st.mode.Keyset? then |l.ord| + 2 + RecordsLeft(l, st) else RecordsLeft(l, st), OffsetLeft(l, st), |l.ord| + 1)
  }

  function Digits(high: nat, low: nat, base: nat): nat {
    high * base + low
  }

  function LongestEnumeration(l: Listing): nat {
    Digits(2 * |l.ord| + 3, |l.ord|, |l.ord| + 1)
  }

  lemma RecordsLeftIsBounded(l: Listing, st: Round)
    ensures RecordsLeft(l, st) <= |l.ord| + 1
  {
    IntsBelow(PastCursor(l, st.cursor), |l.ord|);
  }

  lemma DigitsCompare(high: nat, low: nat, high': nat, low': nat, base: nat)
    requires low < base && low' < base
    ensures high < high' ==> Digits(high, low, base) < Digits(high', low', base)
    ensures high <= high' && low <= low' ==> Digits(high, low, base) <= Digits(high', low', base)
  {
    if high < high' {
      Times(high + 1, high', base);
      assert (high + 1) * base == high * base + base;
    } else if high == high' {
      assert high * base == high' * base;
    }
  }

  lemma Times(a: nat, b: nat, c: nat)
    requires a <= b
    ensures a * c <= b * c
  {
  }

  lemma LeftIsBounded(l: Listing, st: Round)
    ensures EnumerationLeft(l, st) <= LongestEnumeration(l)
  {
    hide Digits;
    RecordsLeftIsBounded(l, st);
    DigitsCompare(if st.mode.Keyset? then |l.ord| + 2 + RecordsLeft(l, st) else RecordsLeft(l, st), OffsetLeft(l, st),
                  2 * |l.ord| + 3, |l.ord|, |l.ord| + 1);
  }

  lemma LessIsLower(l: Listing, a: Round, b: Round)
    requires Less(l, a, b)
    ensures EnumerationLeft(l, a) < EnumerationLeft(l, b)
  {
    RecordsLeftIsBounded(l, a);
    var x := if a.mode.Keyset? then |l.ord| + 2 + RecordsLeft(l, a) else RecordsLeft(l, a);
    var y := if b.mode.Keyset? then |l.ord| + 2 + RecordsLeft(l, b) else RecordsLeft(l, b);
    if x < y {
      hide Digits;
      DigitsCompare(x, OffsetLeft(l, a), y, OffsetLeft(l, b), |l.ord| + 1);
    } else {
      assert x == y;
    }
  }
}
