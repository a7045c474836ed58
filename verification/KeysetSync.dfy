/**
 * The keyset walks (pcomirror/ingest.py): the resumable backfill, the drain of a
 * saturated second and the incremental sweep, over a remote that is free to order
 * equal stamps differently on every request.
 */
module KeysetSync {
  import opened Types
  import opened Rows
  import opened Stores
  import opened Writer
  import opened Paging

  /**
   * One collection as Planning Center serves it. `order(k, lo)` is how the `k`-th
   * request sees everything stamped at or after `lo`; `second(t)` is the one order
   * in which the drain of second `t` sees that second; `included(k)` rides along
   * with the answer to the `k`-th request, which may fail, inside a drain or outside.
   */
  datatype Remote = Remote(
    records: set<Resource>,
    order: (nat, Option<Time>) -> seq<Resource>,
    second: Time -> seq<Resource>,
    included: nat -> seq<Resource>,
    fails: nat -> bool,
    drainFails: nat -> bool)

  function Stamp(r: Resource): Time {
    if r.payload.updatedAt.Some? then r.payload.updatedAt.value else 0
  }

  predicate AtOrAfter(r: Resource, lo: Option<Time>) {
    lo.Some? ==> Stamp(r) >= lo.value
  }

  function Matching(records: set<Resource>, lo: Option<Time>): set<Resource> {
    set r | r in records && AtOrAfter(r, lo)
  }

  function InSecond(records: set<Resource>, t: Time): set<Resource> {
    set r | r in records && Stamp(r) == t
  }

  /** The remote answers `where[updated_at][gte]` and `order=updated_at` truthfully. */
  ghost predicate Faithful(remote: Remote) {
    && (forall r :: r in remote.records ==> TimedRecord(r))
    && (forall k, lo :: Lists(remote.order(k, lo), Matching(remote.records, lo)) && Sorted(remote.order(k, lo), Stamp))
    && (forall t :: Lists(remote.second(t), InSecond(remote.records, t)))
  }

  /** Of the requests from number `from` to before number `to`, those that drain a
      second were answered. */
  ghost predicate DrainsAnswered(remote: Remote, from: nat, to: nat) {
    forall k :: from <= k < to ==> !remote.drainFails(k)
  }

  ghost predicate PagesAnswered(remote: Remote, from: nat, to: nat) {
    forall k :: from <= k < to ==> !remote.fails(k)
  }

  function Page(remote: Remote, k: nat, lo: Option<Time>): seq<Resource> {
    Slice(remote.order(k, lo), 0)
  }

  /** What a keyset page says about the records that are not on it. */
  lemma PageIsAWindow(remote: Remote, k: nat, lo: Option<Time>)
    requires Faithful(remote)
    ensures var data := Page(remote, k, lo);
            && |data| <= PER_PAGE
            && (forall r :: r in data ==> r in Matching(remote.records, lo))
            && (|data| < PER_PAGE ==> forall r :: r in Matching(remote.records, lo) ==> r in data)
            && (data != [] ==> forall r :: r in Matching(remote.records, lo) && r !in data ==> Stamp(r) >= Newest(data, Stamp))
  {
    FirstSliceIsAWindow(remote.order(k, lo), Matching(remote.records, lo), Stamp);
  }

  // ----- what a cursor promises -------------------------------------------------

  /** Every record the walk owes that is stamped below the cursor has arrived. */
  ghost predicate SettledBelow(records: set<Resource>, start: Option<Time>, cursor: Option<Time>, s: Store, s': Store) {
    forall r :: r in records && AtOrAfter(r, start) && cursor.Some? && Stamp(r) < cursor.value ==> Settled(s, s', r)
  }

  ghost predicate SettledFrom(records: set<Resource>, start: Option<Time>, s: Store, s': Store) {
    forall r :: r in records && AtOrAfter(r, start) ==> Settled(s, s', r)
  }

  ghost predicate CoveredBelow(records: set<Resource>, cursor: Option<Time>, s: Store) {
    forall r :: r in records && cursor.Some? && Stamp(r) < cursor.value ==> Covered(s, r)
  }

  ghost predicate CoveredAll(records: set<Resource>, s: Store) {
    forall r :: r in records ==> Covered(s, r)
  }

  /** Nothing is stamped past the cursor: the next walk asks for its last second only. */
  ghost predicate NoneBeyond(records: set<Resource>, cursor: Option<Time>) {
    forall r :: r in records ==> cursor.Some? && Stamp(r) <= cursor.value
  }

  lemma EmptyPageIsTheEnd(remote: Remote, k: nat, lo: Option<Time>)
    requires Faithful(remote) && Page(remote, k, lo) == []
    ensures NoneBeyond(remote.records, lo)
  {
    PageIsAWindow(remote, k, lo);
    forall r | r in remote.records ensures lo.Some? && Stamp(r) <= lo.value {
      assert r !in Matching(remote.records, lo);
    }
  }

  lemma ShortPageIsTheEnd(remote: Remote, k: nat, lo: Option<Time>)
    requires Faithful(remote) && Page(remote, k, lo) != [] && |Page(remote, k, lo)| < PER_PAGE
    ensures NoneBeyond(remote.records, Some(Newest(Page(remote, k, lo), Stamp)))
  {
    var data := Page(remote, k, lo);
    PageIsAWindow(remote, k, lo);
    var newest := Newest(data, Stamp);
    var top :| top in data && Stamp(top) == newest;
    forall r | r in remote.records ensures Stamp(r) <= newest {
      assert if r in Matching(remote.records, lo) then r in data else top in Matching(remote.records, lo);
    }
  }

  ghost predicate Sound(s: Store) {
    Stamped(s) && CoherentStore(s)
  }

  /** A routed keyset page settles its records and everything below its newest stamp. */
  lemma PageAdvances(remote: Remote, k: nat, lo: Option<Time>, start: Option<Time>, s: Store, before: Store)
    requires Faithful(remote) && Sound(s) && Sound(before) && Enriches(s, before)
    requires Page(remote, k, lo) != []
    requires NotBefore(lo, start)
    requires SettledBelow(remote.records, start, lo, s, before)
    ensures var data := Page(remote, k, lo);
            var after := RouteAll(before, remote.included(k) + data);
            && Sound(after) && Enriches(before, after) && Enriches(s, after)
            && SettledBelow(remote.records, start, Some(Newest(data, Stamp)), s, after)
            && (|data| < PER_PAGE ==> SettledFrom(remote.records, start, s, after))
            && SettledBelow(remote.records, start, lo, s, after)
  {
    hide Enriches, Settled, RouteAll, Page;
    var data := Page(remote, k, lo);
    var items := remote.included(k) + data;
    var after := RouteAll(before, items);
    RoutingCovers(before, items);
    EnrichesTransitive(s, before, after);
    EnrichesItself(s);
    EnrichesItself(after);
    PageIsAWindow(remote, k, lo);
    forall r | r in remote.records && AtOrAfter(r, start) && (r in data || (lo.Some? && Stamp(r) < lo.value))
      ensures Settled(s, after, r)
    {
      if r in data {
        assert r in items;
        RoutingSettles(before, items, r);
        SettledSurvives(s, before, after, after, r);
      } else {
        SettledSurvives(s, s, before, after, r);
      }
    }
    forall r | r in remote.records && AtOrAfter(r, start) && Stamp(r) < Newest(data, Stamp)
      ensures r in data || (lo.Some? && Stamp(r) < lo.value)
    {
      assert r in data || r !in Matching(remote.records, lo);
    }
  }

  // ----- draining a second ---------------------------------------------------------

  /** What rode along with these requests -- except for a drain's that failed -- has its rows. */
  ghost predicate Carried(remote: Remote, from: nat, to: int, s: Store) {
    forall j, r :: from <= j < to && !remote.drainFails(j) && r in remote.included(j) ==> Held(s, r)
  }

  lemma CarriedSurvives(remote: Remote, from: nat, to: nat, s: Store, s': Store)
    requires Sound(s) && Sound(s') && Enriches(s, s') && Carried(remote, from, to, s)
    ensures Carried(remote, from, to, s')
  {
    forall j, r | from <= j < to && !remote.drainFails(j) && r in remote.included(j) ensures Held(s', r) {
      HoldingSurvivesRouting(s, s', r);
    }
  }

  lemma EnrichesOn(a: Store, b: Store, c: Store)
    requires Sound(a) && Sound(b) && Sound(c) && Enriches(a, b) && Enriches(b, c)
    ensures Enriches(a, c)
  {
    EnrichesTransitive(a, b, c);
  }

  lemma CarriedOn(remote: Remote, from: nat, mid: nat, to: nat, s: Store, s': Store)
    requires Sound(s) && Sound(s') && Enriches(s, s')
    requires Carried(remote, from, mid, s) && Carried(remote, mid, to, s')
    ensures Carried(remote, from, to, s') && Carried(remote, from, mid, s')
  {
    CarriedSurvives(remote, from, mid, s, s');
  }

  lemma APageCarries(remote: Remote, k: nat, data: seq<Resource>, s: Store)
    requires Sound(s)
    ensures Carried(remote, k, k + 1, RouteAll(s, remote.included(k) + data))
  {
    RoutingHolds(s, remote.included(k) + data);
  }

  lemma {:induction false} DrainReadsWhatRodeAlong(remote: Remote, t: Time, k: nat, off: nat, j: nat, r: Resource)
    requires off <= |remote.second(t)| && k <= j < Drain(remote, t, k, off).next
    requires !remote.drainFails(j) && r in remote.included(j)
    ensures r in Drain(remote, t, k, off).items
    decreases |remote.second(t)| - off
  {
    if j > k {
      DrainReadsWhatRodeAlong(remote, t, k + 1, off + PER_PAGE, j, r);
    }
  }

  lemma ADrainCarries(remote: Remote, t: Time, k: nat, s: Store)
    requires Sound(s)
    ensures Carried(remote, k, Drain(remote, t, k, 0).next, RouteAll(s, Drain(remote, t, k, 0).items))
  {
    var d := Drain(remote, t, k, 0);
    RoutingHolds(s, d.items);
    hide Drain, Held, RouteAll;
    forall j, r | k <= j < d.next && !remote.drainFails(j) && r in remote.included(j) ensures Held(RouteAll(s, d.items), r) {
      DrainReadsWhatRodeAlong(remote, t, k, 0, j, r);
    }
  }

  // ----- what the boundary ids are ---------------------------------------------------

  /** This id is that of a record in the cursor's own second that has arrived. */
  ghost predicate IsBoundary(records: set<Resource>, cursor: Option<Time>, s: Store, id: Id) {
    exists r :: r in records && r.id == id && cursor == Some(Stamp(r)) && Covered(s, r)
  }

  ghost predicate BoundaryHolds(records: set<Resource>, cursor: Option<Time>, seen: set<Id>, s: Store) {
    forall id :: id in seen ==> IsBoundary(records, cursor, s, id)
  }

  lemma NoBoundary(records: set<Resource>, cursor: Option<Time>, s: Store)
    ensures BoundaryHolds(records, cursor, {}, s)
  {
  }

  lemma ThePageIsTheBoundary(remote: Remote, k: nat, lo: Option<Time>, s: Store)
    requires Faithful(remote) && Sound(s) && Page(remote, k, lo) != []
    ensures var data := Page(remote, k, lo);
            var newest := Newest(data, Stamp);
            BoundaryHolds(remote.records, Some(newest), set d | d in data && Stamp(d) == newest :: d.id,
                          RouteAll(s, remote.included(k) + data))
  {
    var data, items := Page(remote, k, lo), remote.included(k) + Page(remote, k, lo);
    var newest := Newest(data, Stamp);
    PageIsAWindow(remote, k, lo);
    RoutingCovers(s, items);
    hide Newest, Page;
    forall d | d in data && Stamp(d) == newest ensures IsBoundary(remote.records, Some(newest), RouteAll(s, items), d.id) {
      assert d in items;
    }
  }

  // ----- what a page may cost -------------------------------------------------------

  ghost predicate AtMostPerSecond(records: set<Resource>, m: nat) {
    forall t :: |InSecond(records, t)| <= m
  }

  /** The requests one page may lead to: itself, and if a second can fill a page, the
      drain of that second. */
  function PageCost(m: nat): nat {
    if m < PER_PAGE then 1 else 2 + m / PER_PAGE
  }

  ghost predicate WithinPages(remote: Remote, from: nat, to: nat, pages: nat) {
    forall m: nat :: AtMostPerSecond(remote.records, m) ==> to <= from + pages * PageCost(m)
  }

  lemma OnePageMore(remote: Remote, from: nat, k: nat, to: nat, pages: nat)
    requires WithinPages(remote, from, k, pages) && WithinPages(remote, k, to, 1)
    ensures WithinPages(remote, from, to, pages + 1)
  {
    forall m: nat | AtMostPerSecond(remote.records, m) ensures to <= from + (pages + 1) * PageCost(m) {
      assert (pages + 1) * PageCost(m) == pages * PageCost(m) + PageCost(m);
    }
  }

  lemma FewerPagesCostLess(remote: Remote, from: nat, to: nat, pages: nat, maxPages: Option<nat>)
    requires WithinPages(remote, from, to, pages)
    ensures maxPages.Some? && pages <= maxPages.value ==> WithinPages(remote, from, to, maxPages.value)
  {
    if maxPages.Some? && pages <= maxPages.value {
      var most := maxPages.value;
      forall m: nat | AtMostPerSecond(remote.records, m) ensures to <= from + most * PageCost(m) {
        assert most * PageCost(m) == pages * PageCost(m) + (most - pages) * PageCost(m);
      }
    }
  }

  lemma APageAlone(remote: Remote, k: nat)
    ensures WithinPages(remote, k, k, 0) && WithinPages(remote, k, k + 1, 1)
  {
  }

  lemma {:induction false} DrainCost(remote: Remote, t: Time, k: nat, off: nat)
    requires off <= |remote.second(t)|
    ensures Drain(remote, t, k, off).next <= k + 1 + (|remote.second(t)| - off) / PER_PAGE
    decreases |remote.second(t)| - off
  {
    if !remote.drainFails(k) && |Slice(remote.second(t), off)| == PER_PAGE {
      DrainCost(remote, t, k + 1, off + PER_PAGE);
    }
  }

  /** A page that is drained lies in one second, so that second is at least as long. */
  lemma APageAndItsDrain(remote: Remote, k: nat, t: Time)
    requires Faithful(remote)
    requires |Page(remote, k, Some(t))| == PER_PAGE && Newest(Page(remote, k, Some(t)), Stamp) == t
    ensures WithinPages(remote, k, Drain(remote, t, k + 1, 0).next, 1)
  {
    ItsSecondIsLong(remote, k, t);
    DrainCost(remote, t, k + 1, 0);
    hide Drain, Faithful, Page;
    var n := |remote.second(t)|;
    forall m: nat | AtMostPerSecond(remote.records, m) ensures Drain(remote, t, k + 1, 0).next <= k + PageCost(m) {
      assert n <= |InSecond(remote.records, t)| <= m;
      Quotients(n, m);
    }
  }

  lemma Quotients(n: nat, m: nat)
    requires n <= m
    ensures n / PER_PAGE <= m / PER_PAGE
  {
  }

  lemma ItsSecondIsLong(remote: Remote, k: nat, t: Time)
    requires Faithful(remote)
    requires |Page(remote, k, Some(t))| == PER_PAGE && Newest(Page(remote, k, Some(t)), Stamp) == t
    ensures PER_PAGE <= |InSecond(remote.records, t)| && |remote.second(t)| <= |InSecond(remote.records, t)|
  {
    var data := Page(remote, k, Some(t));
    PageIsAWindow(remote, k, Some(t));
    SecondsAndPagesAreDistinct(remote, k, t);
    hide Page, Newest, Faithful;
    forall x | x in data ensures x in InSecond(remote.records, t) {
      assert x in Matching(remote.records, Some(t)) && Stamp(x) <= t;
    }
    DistinctCount(remote.second(t), InSecond(remote.records, t));
    DistinctCount(data, InSecond(remote.records, t));
  }

  lemma SecondsAndPagesAreDistinct(remote: Remote, k: nat, t: Time)
    requires Faithful(remote)
    ensures forall i, j :: 0 <= i < j < |Page(remote, k, Some(t))| ==> Page(remote, k, Some(t))[i] != Page(remote, k, Some(t))[j]
    ensures Lists(remote.second(t), InSecond(remote.records, t))
  {
    var data, all := Page(remote, k, Some(t)), remote.order(k, Some(t));
    assert Lists(all, Matching(remote.records, Some(t)));
    assert data == all[..|data|];
    forall i, j | 0 <= i < j < |data| ensures data[i] != data[j] {
      assert data[i] == all[i] && data[j] == all[j];
    }
  }

  lemma NothingCarried(remote: Remote, k: nat, s: Store)
    ensures Carried(remote, k, k, s)
  {
  }

  lemma CarriedButTheLast(remote: Remote, from: nat, to: nat, s: Store)
    requires Carried(remote, from, to, s)
    ensures Carried(remote, from, to - 1, s)
  {
  }

  /** What a drain comes to: the items it routes, how many records of the second it has
      read, and the number of the request after its last. */
  datatype Drained = Drained(items: seq<Resource>, reach: nat, next: nat)

  /** The drain of second `t` from offset `off` and request `k` on. It ends at a short
      page, or at an error body, which reads as one. */
  function Drain(remote: Remote, t: Time, k: nat, off: nat): (d: Drained)
    requires off <= |remote.second(t)|
    ensures off <= d.reach <= |remote.second(t)| && k < d.next
    decreases |remote.second(t)| - off
  {
    var data := Slice(remote.second(t), off);
    if remote.drainFails(k) then Drained([], off, k + 1)
    else if |data| < PER_PAGE then Drained(remote.included(k) + data, |remote.second(t)|, k + 1)
    else Prepend(remote.included(k) + data, Drain(remote, t, k + 1, off + PER_PAGE))
  }

  function Prepend(items: seq<Resource>, d: Drained): Drained {
    d.(items := items + d.items)
  }

  ghost predicate RodeAlong(remote: Remote, from: nat, to: nat, r: Resource) {
    exists k :: from <= k < to && r in remote.included(k)
  }

  /** These items are the records from `off` to the drain's reach, and what rode along. */
  ghost predicate Reads(remote: Remote, all: seq<Resource>, k: nat, off: nat, d: Drained)
    requires off <= d.reach <= |all|
  {
    && (forall i :: off <= i < d.reach ==> all[i] in d.items)
    && (forall r :: r in d.items ==> r in all[off..d.reach] || RodeAlong(remote, k, d.next, r))
  }

  lemma ReadsOnePageMore(remote: Remote, all: seq<Resource>, k: nat, off: nat, end: nat, rest: Drained)
    requires off <= end <= rest.reach <= |all| && k < rest.next && Reads(remote, all, k + 1, end, rest)
    ensures Reads(remote, all, k, off, Prepend(remote.included(k) + all[off..end], rest))
  {
    var d := Prepend(remote.included(k) + all[off..end], rest);
    forall i | off <= i < d.reach ensures all[i] in d.items {
      assert i < end ==> all[i] == all[off..end][i - off];
    }
    assert all[off..d.reach] == all[off..end] + all[end..d.reach];
    forall r | r in d.items ensures r in all[off..d.reach] || RodeAlong(remote, k, d.next, r) {
      assert r in remote.included(k) || r in all[off..end] || r in rest.items;
    }
  }

  lemma {:induction false} DrainReads(remote: Remote, t: Time, k: nat, off: nat)
    requires off <= |remote.second(t)|
    ensures Reads(remote, remote.second(t), k, off, Drain(remote, t, k, off))
    decreases |remote.second(t)| - off
  {
    var all, data := remote.second(t), Slice(remote.second(t), off);
    if !remote.drainFails(k) {
      assert data == all[off..off + |data|];
      if |data| == PER_PAGE {
        DrainReads(remote, t, k + 1, off + PER_PAGE);
        ReadsOnePageMore(remote, all, k, off, off + PER_PAGE, Drain(remote, t, k + 1, off + PER_PAGE));
        hide Reads;
      } else {
        var none := Drained([], |all|, k + 1);
        ReadsOnePageMore(remote, all, k, off, |all|, none);
        assert Prepend(remote.included(k) + data, none).items == remote.included(k) + data;
        hide Reads;
      }
    }
  }

  lemma {:induction false} DrainStopsShort(remote: Remote, t: Time, k: nat, off: nat)
    requires off <= |remote.second(t)|
    ensures var d := Drain(remote, t, k, off); d.reach < |remote.second(t)| ==> remote.drainFails(d.next - 1)
    decreases |remote.second(t)| - off
  {
    if !remote.drainFails(k) && |Slice(remote.second(t), off)| == PER_PAGE {
      DrainStopsShort(remote, t, k + 1, off + PER_PAGE);
    }
  }

  /** A drain routes exactly the records it reached and what rode along with them, and it
      reaches all of the second exactly when all of its requests were answered. */
  lemma DrainReadsUpToItsReach(remote: Remote, t: Time, k: nat, off: nat)
    requires off <= |remote.second(t)|
    ensures var all, d := remote.second(t), Drain(remote, t, k, off);
            && Reads(remote, all, k, off, d)
            && (d.reach < |all| ==> remote.drainFails(d.next - 1))
            && (DrainsAnswered(remote, k, d.next) ==> d.reach == |all|)
  {
    DrainReads(remote, t, k, off);
    DrainStopsShort(remote, t, k, off);
    hide Reads, Drain;
  }

  /** The records a drain of second `t` leaves out. */
  function Unread(remote: Remote, t: Time, k: nat): seq<Resource> {
    remote.second(t)[Drain(remote, t, k, 0).reach..]
  }

  lemma NothingUnreadWhenAnswered(remote: Remote, t: Time, k: nat)
    requires DrainsAnswered(remote, k, Drain(remote, t, k, 0).next)
    ensures Unread(remote, t, k) == []
  {
    DrainReadsUpToItsReach(remote, t, k, 0);
  }

  lemma ReadIsSettled(remote: Remote, t: Time, k: nat, s: Store, i: nat)
    requires Faithful(remote) && Sound(s) && i < Drain(remote, t, k, 0).reach
    ensures Settled(s, RouteAll(s, Drain(remote, t, k, 0).items), remote.second(t)[i])
  {
    DrainReadsUpToItsReach(remote, t, k, 0);
    assert Lists(remote.second(t), InSecond(remote.records, t)) && remote.second(t)[i] in remote.second(t);
    RoutingSettles(s, Drain(remote, t, k, 0).items, remote.second(t)[i]);
  }

  lemma AnsweredDrainsSettle(remote: Remote, t: Time, k: nat, s: Store)
    requires Faithful(remote) && Sound(s) && DrainsAnswered(remote, k, Drain(remote, t, k, 0).next)
    ensures var s' := RouteAll(s, Drain(remote, t, k, 0).items);
            forall r :: r in InSecond(remote.records, t) ==> Settled(s, s', r)
  {
    DrainReadsUpToItsReach(remote, t, k, 0);
    var all := remote.second(t);
    forall r | r in InSecond(remote.records, t) ensures Settled(s, RouteAll(s, Drain(remote, t, k, 0).items), r) {
      assert Lists(all, InSecond(remote.records, t));
      var i :| 0 <= i < |all| && all[i] == r;
      ReadIsSettled(remote, t, k, s, i);
    }
  }

  /** After a drain of second `t` the cursor may pass `t` exactly when what the drain did
      not read -- nothing, if its requests were answered -- is covered all the same:
      because the mirror had it already, or because it rode along. */
  lemma PastASecond(remote: Remote, t: Time, k: nat, s: Store)
    requires Faithful(remote) && Sound(s) && CoveredBelow(remote.records, Some(t), s)
    ensures var d := Drain(remote, t, k, 0);
            CoveredBelow(remote.records, Some(t + 1), RouteAll(s, d.items)) <==>
              forall r :: r in Unread(remote, t, k) ==> Supplied(s, d.items, r)
    ensures var d := Drain(remote, t, k, 0);
            DrainsAnswered(remote, k, d.next) ==> Unread(remote, t, k) == [] && CoveredBelow(remote.records, Some(t + 1), RouteAll(s, d.items))
  {
    var all, d := remote.second(t), Drain(remote, t, k, 0);
    if DrainsAnswered(remote, k, d.next) {
      NothingUnreadWhenAnswered(remote, t, k);
    }
    var s' := RouteAll(s, d.items);
    assert Lists(all, InSecond(remote.records, t));
    RoutingCovers(s, d.items);
    forall r | r in Unread(remote, t, k) ensures r in remote.records && Stamp(r) == t && (Covered(s', r) <==> Supplied(s, d.items, r)) {
      assert r in all;
      CoveredExactlyIfSupplied(s, d.items, r);
    }
    forall r | r in remote.records && Stamp(r) < t + 1 ensures Covered(s', r) || r in Unread(remote, t, k) {
      if Stamp(r) < t {
        CoverageSurvives(s, s', r);
      } else {
        assert r in InSecond(remote.records, t);
        var i :| 0 <= i < |all| && all[i] == r;
        if i < d.reach {
          ReadIsSettled(remote, t, k, s, i);
        } else {
          assert all[d.reach..][i - d.reach] == r;
        }
      }
    }
  }

  /** Remote edits may land between two units of the walk as long as none of them
      is stamped below the persisted cursor, or the mirror has what they bring. */
  lemma EditsAtOrAfterTheCursor(records: set<Resource>, edited: set<Resource>, cursor: Option<Time>, s: Store)
    requires CoveredBelow(records, cursor, s)
    ensures CoveredBelow(edited, cursor, s) <==>
            forall r :: r in edited - records && !AtOrAfter(r, cursor) ==> Covered(s, r)
  {
  }

  // ----- termination measures ---------------------------------------------------

  function After(records: set<Resource>, t: Time): set<Resource> {
    set r | r in records && Stamp(r) > t
  }

  /** How much is ahead of the cursor; moving the cursor over a record lowers it. */
  function Ahead(records: set<Resource>, cursor: Option<Time>): nat {
    if cursor.None? then 2 * |records| + 1
    else |Matching(records, cursor)| + |After(records, cursor.value)|
  }

  function Unseen(records: set<Resource>, cursor: Option<Time>, seen: set<Id>): nat {
    if cursor.None? then 0
    else |set r | r in InSecond(records, cursor.value) && r.id !in seen|
  }

  /** The walk from here has strictly less to do. */
  ghost predicate Nearer(records: set<Resource>, c0: Option<Time>, s0: set<Id>, c: Option<Time>, s: set<Id>) {
    || Ahead(records, c) < Ahead(records, c0)
    || (Ahead(records, c) == Ahead(records, c0) && Unseen(records, c, s) < Unseen(records, c0, s0))
  }

  lemma NearerStill(records: set<Resource>, c0: Option<Time>, s0: set<Id>, c1: Option<Time>, s1: set<Id>, c2: Option<Time>, s2: set<Id>)
    requires (c0 == c1 && s0 == s1) || Nearer(records, c0, s0, c1, s1)
    ensures Nearer(records, c1, s1, c2, s2) ==> Nearer(records, c0, s0, c2, s2)
  {
  }

  lemma NearerIsLess(records: set<Resource>, c1: Option<Time>, s1: set<Id>, c2: Option<Time>, s2: set<Id>)
    requires Nearer(records, c1, s1, c2, s2)
    ensures Ahead(records, c2) < Ahead(records, c1) || (Ahead(records, c2) == Ahead(records, c1) && Unseen(records, c2, s2) < Unseen(records, c1, s1))
  {
  }

  /** Moving to the stamp of a record past the cursor is progress. */
  lemma CursorMoves(records: set<Resource>, cursor: Option<Time>, r: Resource)
    requires r in records && AtOrAfter(r, cursor) && cursor != Some(Stamp(r))
    ensures Ahead(records, Some(Stamp(r))) < Ahead(records, cursor)
  {
    var t := Stamp(r);
    SubsetIsNoLarger(Matching(records, Some(t)), records);
    SubsetIsNoLarger(After(records, t), records);
    if cursor.Some? {
      SubsetIsNoLarger(Matching(records, Some(t)), Matching(records, cursor));
      ProperSubsetIsSmaller(After(records, t), After(records, cursor.value), r);
    }
  }

  /** Moving past a second that holds a record is progress too. */
  lemma SecondPasses(records: set<Resource>, t: Time, r: Resource)
    requires r in records && Stamp(r) == t
    ensures Ahead(records, Some(t + 1)) < Ahead(records, Some(t))
  {
    ProperSubsetIsSmaller(Matching(records, Some(t + 1)), Matching(records, Some(t)), r);
    SubsetIsNoLarger(After(records, t + 1), After(records, t));
  }

  lemma BoundaryBecomesSeen(records: set<Resource>, t: Time, seen: set<Id>, seen': set<Id>, r: Resource)
    requires r in InSecond(records, t) && r.id !in seen
    requires forall x :: x in InSecond(records, t) ==> x.id in seen'
    ensures Unseen(records, Some(t), seen') < Unseen(records, Some(t), seen)
  {
    ProperSubsetIsSmaller((set x | x in InSecond(records, t) && x.id !in seen'),
                          (set x | x in InSecond(records, t) && x.id !in seen), r);
  }

  // ----- one page of the sweep, and all of it ----------------------------------------

  /** What one page of the sweep comes to: what it routes, the next cursor, the number of
      the next request, and whether it was the last. A failed page reads as an empty one. */
  datatype PageOutcome = PageOutcome(items: seq<Resource>, cursor: Option<Time>, next: nat, done: bool)

  function SweptPage(remote: Remote, k: nat, cursor: Option<Time>): PageOutcome {
    var data := Page(remote, k, cursor);
    if remote.fails(k) || data == [] then PageOutcome([], cursor, k + 1, true)
    else
      var newest := Newest(data, Stamp);
      if cursor == Some(newest) && |data| == PER_PAGE then
        var d := Drain(remote, newest, k + 1, 0);
        PageOutcome(remote.included(k) + data + d.items, Some(newest + 1), d.next, false)
      else PageOutcome(remote.included(k) + data, Some(newest), k + 1, |data| < PER_PAGE)
  }

  lemma APageIsProgress(remote: Remote, k: nat, cursor: Option<Time>)
    requires Faithful(remote)
    ensures var p := SweptPage(remote, k, cursor); !p.done ==> Ahead(remote.records, p.cursor) < Ahead(remote.records, cursor)
  {
    PageIsAWindow(remote, k, cursor);
    var data := Page(remote, k, cursor);
    if !SweptPage(remote, k, cursor).done {
      var newest := Newest(data, Stamp);
      var top :| top in data && Stamp(top) == newest;
      if cursor == Some(newest) {
        SecondPasses(remote.records, newest, top);
      } else {
        CursorMoves(remote.records, cursor, top);
      }
    }
  }

  datatype Swept = Swept(items: seq<Resource>, cursor: Option<Time>, next: nat)

  /** A whole sweep from request `k` and this cursor on. */
  ghost function Sweep(remote: Remote, k: nat, cursor: Option<Time>): Swept
    requires Faithful(remote)
    decreases Ahead(remote.records, cursor)
  {
    var p := SweptPage(remote, k, cursor);
    APageIsProgress(remote, k, cursor);
    if p.done then Swept(p.items, p.cursor, p.next) else Behind(p.items, Sweep(remote, p.next, p.cursor))
  }

  ghost function Behind(items: seq<Resource>, w: Swept): Swept {
    w.(items := items + w.items)
  }

  lemma BehindTwice(a: seq<Resource>, b: seq<Resource>, w: Swept)
    ensures Behind(a + b, w) == Behind(a, Behind(b, w))
  {
    assert a + b + w.items == a + (b + w.items);
  }

  // ----- a record that a failed drain loses -------------------------------------------

  function Twin(t: Time, id: Id): Resource {
    Resource(Some(Person), id, Payload(Some(t), {}, None, ""))
  }

  /** `n` people that were all edited in second `t`, listed by id. */
  function Twins(t: Time, n: nat): seq<Resource> {
    seq(n, i requires 0 <= i < n => Twin(t, i))
  }

  /** A remote that holds just them, and answers everything but its second request. */
  function BusySecond(t: Time, n: nat): Remote {
    Remote(set r | r in Twins(t, n) :: r,
           (k: nat, lo: Option<Time>) => if lo.Some? && lo.value > t then [] else Twins(t, n),
           u => if u == t then Twins(t, n) else [],
           k => [],
           k => false,
           k => k == 1)
  }

  lemma BusySecondIsFaithful(t: Time, n: nat)
    ensures Faithful(BusySecond(t, n))
  {
    var remote := BusySecond(t, n);
    forall k: nat, lo: Option<Time> ensures Lists(remote.order(k, lo), Matching(remote.records, lo)) && Sorted(remote.order(k, lo), Stamp) {
      assert lo.Some? && lo.value > t ==> Matching(remote.records, lo) == {};
      assert !(lo.Some? && lo.value > t) ==> Matching(remote.records, lo) == remote.records;
    }
    forall u ensures Lists(remote.second(u), InSecond(remote.records, u)) {
      assert if u == t then InSecond(remote.records, u) == remote.records else InSecond(remote.records, u) == {};
    }
  }

  /** A sweep of the empty mirror from second `t` leaves the watermark past it and this
      record of it unwritten, so that no later sweep asks for it. */
  ghost predicate LostBySweeping(remote: Remote, t: Time, lost: Resource)
    requires Faithful(remote)
  {
    var w := Sweep(remote, 0, Some(t));
    lost in remote.records && w.cursor == Some(t + 1) && !AtOrAfter(lost, w.cursor) && !Covered(RouteAll(map[], w.items), lost)
  }

  /** More than a page of records share second `t`, the watermark stands at it, and one
      request fails: the first page of the drain. The sweep loses the last record. */
  lemma AFailedDrainLosesARecord(t: Time, n: nat)
    requires n > PER_PAGE
    ensures var remote := BusySecond(t, n);
            && Faithful(remote) && (forall k :: remote.fails(k) || remote.drainFails(k) ==> k == 1)
            && LostBySweeping(remote, t, Twin(t, n - 1))
  {
    BusySecondIsFaithful(t, n);
    FirstPageOfTwins(t, n);
    TwinsAreAlike(t, n);
    LostIfUnread(BusySecond(t, n), t, Twin(t, n - 1), Twins(t, n)[..PER_PAGE]);
  }

  lemma LostIfUnread(remote: Remote, t: Time, lost: Resource, data: seq<Resource>)
    requires Faithful(remote) && lost in remote.records && Stamp(lost) == t
    requires SweptPage(remote, 0, Some(t)) == PageOutcome(data, Some(t + 1), 2, false)
    requires SweptPage(remote, 2, Some(t + 1)) == PageOutcome([], Some(t + 1), 3, true)
    requires forall r :: r in data ==> !About(r, KeyOf(lost))
    ensures LostBySweeping(remote, t, lost)
  {
    assert TimedRecord(lost);
    NothingIsInvented(map[], data, KeyOf(lost));
    hide Faithful, SweptPage, Sweep, RouteAll;
    SweepUnfolds(remote, 0, Some(t));
    SweepUnfolds(remote, 2, Some(t + 1));
    assert data + ([] + []) == data;
  }

  lemma FirstPageOfTwins(t: Time, n: nat)
    requires n > PER_PAGE
    ensures SweptPage(BusySecond(t, n), 0, Some(t)) == PageOutcome(Twins(t, n)[..PER_PAGE], Some(t + 1), 2, false)
    ensures SweptPage(BusySecond(t, n), 2, Some(t + 1)) == PageOutcome([], Some(t + 1), 3, true)
  {
    TwinsAreAlike(t, n);
    TwinsAnswer(t, n);
    hide Newest, Drain, Twins, BusySecond, Page, SweptPage;
    ASaturatedPage(BusySecond(t, n), 0, t, Twins(t, n)[..PER_PAGE]);
    EmptyPageEnds(BusySecond(t, n), 2, Some(t + 1));
  }

  lemma ASaturatedPage(remote: Remote, k: nat, t: Time, data: seq<Resource>)
    requires Page(remote, k, Some(t)) == data && |data| == PER_PAGE && Newest(data, Stamp) == t
    requires !remote.fails(k) && remote.included(k) == [] && Drain(remote, t, k + 1, 0) == Drained([], 0, k + 2)
    ensures SweptPage(remote, k, Some(t)) == PageOutcome(data, Some(t + 1), k + 2, false)
  {
    hide Newest, Page, Drain;
    assert [] + data + [] == data;
  }

  lemma TwinsAnswer(t: Time, n: nat)
    requires n > PER_PAGE
    ensures var remote := BusySecond(t, n);
            && Page(remote, 0, Some(t)) == Twins(t, n)[..PER_PAGE] && Page(remote, 2, Some(t + 1)) == []
            && remote.included(0) == [] && !remote.fails(0) && Drain(remote, t, 1, 0) == Drained([], 0, 2)
  {
  }

  lemma TwinsAreAlike(t: Time, n: nat)
    requires n > PER_PAGE
    ensures Newest(Twins(t, n)[..PER_PAGE], Stamp) == t && Twin(t, n - 1) in Twins(t, n)
    ensures forall r :: r in Twins(t, n)[..PER_PAGE] ==> r.id < PER_PAGE
  {
    var data := Twins(t, n)[..PER_PAGE];
    forall r | r in data ensures Stamp(r) == t {
    }
    var newest := Newest(data, Stamp);
    var top :| top in data && Stamp(top) == newest;
    assert Twins(t, n)[n - 1] == Twin(t, n - 1);
  }

  // ----- the walks --------------------------------------------------------------

  datatype Outcome = Finished | Paused | Raised

  class Ingestor {
    const writer: CanonicalWriter
    var backfillCursor: Option<Time>
    var backfillSeen: set<Id>
    var backfilled: bool
    var watermark: Option<Time>
    var requests: nat

    constructor (writer: CanonicalWriter)
      ensures this.writer == writer && backfillCursor.None? && backfillSeen == {} && !backfilled
      ensures watermark.None? && requests == 0
    {
      this.writer := writer;
      backfillCursor, backfillSeen, backfilled, watermark, requests := None, {}, false, None, 0;
    }

    /** Pages through one second by offset. An error body reads as an empty page. */
    method DrainSecond(remote: Remote, t: Time, seen: set<Id>) returns (seen': set<Id>)
      requires Faithful(remote) && Sound(writer.rows)
      modifies writer, `requests
      ensures Sound(writer.rows) && Enriches(old(writer.rows), writer.rows)
      ensures var d := Drain(remote, t, old(requests), 0);
              && writer.rows == RouteAll(old(writer.rows), d.items) && requests == d.next
              && seen' == seen + Ids(remote.second(t)[..d.reach])
    {
      hide Faithful, RouteAll, Ids, Sound, Drain, Prepend;
      ghost var s, k0, items := writer.rows, requests, [];
      RoutingNothing(s);
      NoIds(remote.second(t));
      seen' := seen;
      var off := 0;
      PrependNothing(Drain(remote, t, k0, 0));
      while true
        invariant off <= |remote.second(t)| && k0 <= requests
        invariant writer.rows == RouteAll(s, items)
        invariant Drain(remote, t, k0, 0) == Prepend(items, Drain(remote, t, requests, off))
        invariant seen' == seen + Ids(remote.second(t)[..off])
        decreases |remote.second(t)| - off
      {
        var k := requests;
        requests := requests + 1;
        var data := if remote.drainFails(k) then [] else Slice(remote.second(t), off);
        var included := if remote.drainFails(k) then [] else remote.included(k);
        var _ := writer.RoutePage(data, included);
        RouteAppend(s, items, included + data);
        DrainUnfolds(remote, t, k, off, items);
        items := items + (included + data);
        IdsGrow(remote.second(t), off, data);
        seen' := seen' + Ids(data);
        if |data| < PER_PAGE {
          break;
        }
        off := off + PER_PAGE;
      }
      DrainIsSound(s, items);
    }

    /** Backfills one collection, at most `maxPages` upstream pages of it per call. */
    method Backfill(remote: Remote, maxPages: Option<nat>) returns (outcome: Outcome)
      requires Faithful(remote) && Sound(writer.rows)
      modifies writer, this
      ensures Sound(writer.rows) && Enriches(old(writer.rows), writer.rows) && requests >= old(requests)
      ensures backfilled == (old(backfilled) || outcome.Finished?) && (!outcome.Finished? ==> watermark == old(watermark))
      ensures outcome.Paused? ==> maxPages.Some?
      ensures outcome.Finished? ==> watermark == backfillCursor && NoneBeyond(remote.records, backfillCursor)
      ensures outcome.Raised? ==> requests > old(requests) && remote.fails(requests - 1)
      ensures old(CoveredBelow(remote.records, backfillCursor, writer.rows)) && DrainsAnswered(remote, old(requests), requests) ==>
                && CoveredBelow(remote.records, backfillCursor, writer.rows)
                && (outcome.Finished? ==> CoveredAll(remote.records, writer.rows))
      ensures outcome.Paused? && maxPages.value > 0 ==>
                Nearer(remote.records, old(backfillCursor), old(backfillSeen), backfillCursor, backfillSeen)
      // A unit is bounded: its pages and their drains, and it pauses for no other reason.
      ensures maxPages.Some? ==> WithinPages(remote, old(requests), requests, maxPages.value)
      ensures outcome.Paused? ==> requests >= old(requests) + maxPages.value
      // The boundary ids stand for records of the cursor's second that have arrived.
      ensures old(BoundaryHolds(remote.records, backfillCursor, backfillSeen, writer.rows)) && !outcome.Finished? ==>
                BoundaryHolds(remote.records, backfillCursor, backfillSeen, writer.rows)
      ensures Carried(remote, old(requests), requests - 1, writer.rows)
      ensures outcome.Finished? ==> requests > old(requests)
      ensures outcome.Paused? || (outcome.Finished? && Page(remote, requests - 1, backfillCursor) != []) ==>
                Carried(remote, old(requests), requests, writer.rows)
    {
      hide Faithful, CoveredBelow, CoveredAll, NoneBeyond, Page, RouteAll, Ahead, Unseen, Settled, WithinPages, Carried, Enriches, Sound, BoundaryHolds, Nearer;
      NothingCarried(remote, requests, writer.rows);
      EnrichesItself(writer.rows);
      APageAlone(remote, requests);
      var cursor, seen := backfillCursor, backfillSeen;
      var pages: nat := 0;
      ghost var from, whole := requests, CoveredBelow(remote.records, backfillCursor, writer.rows);
      while true
        invariant Sound(writer.rows) && Enriches(old(writer.rows), writer.rows) && from <= requests
        invariant whole && DrainsAnswered(remote, from, requests) ==> CoveredBelow(remote.records, cursor, writer.rows)
        invariant cursor == backfillCursor && seen == backfillSeen && backfilled == old(backfilled) && watermark == old(watermark)
        invariant old(BoundaryHolds(remote.records, backfillCursor, backfillSeen, writer.rows)) ==>
            BoundaryHolds(remote.records, cursor, seen, writer.rows)
        invariant WithinPages(remote, from, requests, pages) && from + pages <= requests && (maxPages.Some? ==> pages <= maxPages.value)
        invariant Carried(remote, from, requests, writer.rows)
        invariant if pages == 0 then cursor == old(backfillCursor) && seen == old(backfillSeen)
                  else Nearer(remote.records, old(backfillCursor), old(backfillSeen), cursor, seen)
        decreases Ahead(remote.records, cursor), Unseen(remote.records, cursor, seen)
      {
        if maxPages.Some? && pages >= maxPages.value {
          CarriedButTheLast(remote, from, requests, writer.rows);
          return Paused;
        }
        var k := requests;
        APageAlone(remote, k);
        OnePageMore(remote, from, k, k + 1, pages);
        requests := requests + 1;
        pages := pages + 1;
        FewerPagesCostLess(remote, from, requests, pages, maxPages);
        if remote.fails(k) {
          return Raised;
        }
        var data := Page(remote, k, cursor);
        if data == [] {
          EmptyPageIsTheEnd(remote, k, cursor);
          EmptyPageEndsTheWalk(remote, k, cursor, writer.rows);
          break;
        }
        ghost var before := writer.rows;
        var done;
        cursor, seen, done := Absorb(remote, k, data, cursor, seen, whole && DrainsAnswered(remote, from, k));
        EnrichesOn(old(writer.rows), before, writer.rows);
        OnePageMore(remote, from, k, requests, pages - 1);
        CarriedOn(remote, from, k, requests, before, writer.rows);
        if done {
          CarriedButTheLast(remote, from, requests, writer.rows);
          break;
        }
        NearerStill(remote.records, old(backfillCursor), old(backfillSeen), backfillCursor, backfillSeen, cursor, seen);
        NearerIsLess(remote.records, backfillCursor, backfillSeen, cursor, seen);
        backfillCursor, backfillSeen := cursor, seen;
      }
      FewerPagesCostLess(remote, from, requests, pages, maxPages);
      backfilled, backfillCursor, watermark := true, cursor, cursor;
      return Finished;
    }

    /** One page of the backfill: where the cursor and the boundary ids stand after it. */
    method Absorb(remote: Remote, k: nat, data: seq<Resource>, cursor: Option<Time>, seen: set<Id>, ghost clean: bool)
      returns (cursor': Option<Time>, seen': set<Id>, done: bool)
      requires Faithful(remote) && Sound(writer.rows)
      requires data == Page(remote, k, cursor) && data != [] && requests == k + 1
      requires clean ==> CoveredBelow(remote.records, cursor, writer.rows)
      modifies writer, `requests
      ensures WithinPages(remote, k, requests, 1) && Carried(remote, k, requests, writer.rows)
      ensures !done ==> BoundaryHolds(remote.records, cursor', seen', writer.rows)
      ensures Sound(writer.rows) && Enriches(old(writer.rows), writer.rows) && old(requests) <= requests
      ensures clean && DrainsAnswered(remote, old(requests), requests) ==> CoveredBelow(remote.records, cursor', writer.rows)
      ensures clean && DrainsAnswered(remote, old(requests), requests) && done ==> CoveredAll(remote.records, writer.rows)
      // It is the last exactly if it is short and brought nothing that was not seen.
      ensures done <==> |data| < PER_PAGE && forall d :: d in data ==> d.id in seen
      ensures done ==> NoneBeyond(remote.records, cursor')
      ensures !done ==> Nearer(remote.records, cursor, seen, cursor', seen')
    {
      hide Faithful, DrainsAnswered, Enriches, CoveredBelow, CoveredAll, NoneBeyond, Page, RouteAll, Ahead, Unseen, Settled, WithinPages, Carried, BoundaryHolds;
      PageIsAWindow(remote, k, cursor);
      ghost var before := writer.rows;
      var _ := writer.RoutePage(data, remote.included(k));
      CoverPage(remote, k, cursor, before, clean);
      APageCarries(remote, k, data, before);
      ThePageIsTheBoundary(remote, k, cursor, before);
      APageAlone(remote, k);
      var newest := Newest(data, Stamp);
      ghost var top :| top in data && Stamp(top) == newest;
      done := false;
      if cursor == Some(newest) && |data| == PER_PAGE {
        ghost var mid := writer.rows;
        APageAndItsDrain(remote, k, newest);
        ADrainCarries(remote, newest, requests, mid);
        seen' := DrainSecond(remote, newest, seen);
        EnrichesTransitive(before, mid, writer.rows);
        CarriedOn(remote, k, k + 1, requests, mid, writer.rows);
        if clean && DrainsAnswered(remote, old(requests), requests) {
          AnsweredDrainsSettle(remote, newest, old(requests), mid);
          CoverSecond(remote, newest, mid, writer.rows);
        }
        SecondPasses(remote.records, newest, top);
        cursor', seen' := Some(newest + 1), {};
        NoBoundary(remote.records, cursor', writer.rows);
      } else if (forall d :: d in data ==> d.id in seen) && |data| < PER_PAGE {
        cursor', seen', done := Some(newest), seen, true;
        ShortPageIsTheEnd(remote, k, cursor);
      } else {
        cursor', seen' := Some(newest), set d | d in data && Stamp(d) == newest :: d.id;
        if cursor == Some(newest) {
          ghost var unseen :| unseen in data && unseen.id !in seen;
          BoundaryBecomesSeen(remote.records, newest, seen, seen', unseen);
        } else {
          CursorMoves(remote.records, cursor, top);
        }
      }
    }

    /** Collects everything stamped at or after the watermark. A failed page reads
        as an empty one and ends the sweep. */
    method IncrementalSweep(remote: Remote)
      requires Faithful(remote) && Sound(writer.rows)
      modifies writer, this
      ensures Sound(writer.rows) && Enriches(old(writer.rows), writer.rows)
      ensures var w := Sweep(remote, old(requests), old(watermark));
              writer.rows == RouteAll(old(writer.rows), w.items) && watermark == w.cursor && requests == w.next
      ensures DrainsAnswered(remote, old(requests), requests) ==>
                SettledBelow(remote.records, old(watermark), watermark, old(writer.rows), writer.rows)
      ensures DrainsAnswered(remote, old(requests), requests) && PagesAnswered(remote, old(requests), requests) ==>
                SettledFrom(remote.records, old(watermark), old(writer.rows), writer.rows)
      ensures NotBefore(watermark, old(watermark)) && requests >= old(requests)
      ensures PagesAnswered(remote, old(requests), requests) ==> NoneBeyond(remote.records, watermark)
      ensures backfillCursor == old(backfillCursor) && backfillSeen == old(backfillSeen) && backfilled == old(backfilled)
      ensures Carried(remote, old(requests), requests - 1, writer.rows)
      ensures requests > old(requests)
      ensures !remote.fails(requests - 1) && Page(remote, requests - 1, watermark) != [] ==>
                Carried(remote, old(requests), requests, writer.rows)
    {
      hide Faithful, SettledBelow, SettledFrom, NoneBeyond, RouteAll, Ahead, Settled, Sweep, SweptPage, Carried, Page, Enriches;
      var cursor := watermark;
      NothingCarried(remote, requests, writer.rows);
      EnrichesItself(writer.rows);
      ghost var from, items := requests, [];
      RoutingNothing(writer.rows);
      NothingOwedYet(remote.records, watermark, writer.rows);
      assert Behind([], Sweep(remote, from, watermark)) == Sweep(remote, from, watermark);
      while true
        invariant Sound(writer.rows) && Enriches(old(writer.rows), writer.rows)
        invariant NotBefore(cursor, old(watermark)) && from <= requests
        invariant Carried(remote, from, requests, writer.rows)
        invariant writer.rows == RouteAll(old(writer.rows), items)
        invariant Sweep(remote, from, old(watermark)) == Behind(items, Sweep(remote, requests, cursor))
        invariant DrainsAnswered(remote, from, requests) ==>
            SettledBelow(remote.records, old(watermark), cursor, old(writer.rows), writer.rows)
        invariant backfillCursor == old(backfillCursor) && backfillSeen == old(backfillSeen) && backfilled == old(backfilled)
        decreases Ahead(remote.records, cursor)
      {
        var k := requests;
        requests := requests + 1;
        var data := if remote.fails(k) then [] else Page(remote, k, cursor);
        SweepUnfolds(remote, k, cursor);
        ghost var p := SweptPage(remote, k, cursor);
        BehindTwice(items, p.items, if p.done then Swept([], p.cursor, p.next) else Sweep(remote, p.next, p.cursor));
        if data == [] {
          EmptyPageEnds(remote, k, cursor);
          assert items + p.items == items;
          if !remote.fails(k) {
            EmptyPageIsTheEnd(remote, k, cursor);
          }
          if DrainsAnswered(remote, from, requests) && !remote.fails(k) {
            EmptyPageEndsTheSweep(remote, k, cursor, old(watermark), old(writer.rows), writer.rows);
          }
          break;
        }
        var done;
        RouteAppend(old(writer.rows), items, p.items);
        ghost var before := writer.rows;
        cursor, done := Collect(remote, k, data, cursor, old(watermark), old(writer.rows), DrainsAnswered(remote, from, k));
        items := items + p.items;
        CarriedOn(remote, from, k, requests, before, writer.rows);
        if done {
          CarriedButTheLast(remote, from, requests, writer.rows);
          break;
        }
        watermark := cursor;
      }
      assert items + [] == items;
      watermark := cursor;
    }

    /** One page of the sweep. `start` and `s` are where the sweep began, and `clean` says
        that its drains were answered so far. */
    method Collect(remote: Remote, k: nat, data: seq<Resource>, cursor: Option<Time>,
                   ghost start: Option<Time>, ghost s: Store, ghost clean: bool)
      returns (cursor': Option<Time>, done: bool)
      requires Faithful(remote) && Sound(writer.rows) && Sound(s) && Enriches(s, writer.rows)
      requires requests == k + 1 && !remote.fails(k)
      requires data == Page(remote, k, cursor) && data != [] && NotBefore(cursor, start)
      requires clean ==> SettledBelow(remote.records, start, cursor, s, writer.rows)
      modifies writer, `requests
      ensures Sound(writer.rows) && Enriches(s, writer.rows) && Enriches(old(writer.rows), writer.rows)
      ensures NotBefore(cursor', start) && old(requests) <= requests && Carried(remote, k, requests, writer.rows)
      ensures var p := SweptPage(remote, k, cursor);
              writer.rows == RouteAll(old(writer.rows), p.items) && cursor' == p.cursor && done == p.done && requests == p.next
      ensures clean && DrainsAnswered(remote, old(requests), requests) ==> SettledBelow(remote.records, start, cursor', s, writer.rows)
      ensures clean && DrainsAnswered(remote, old(requests), requests) && done ==> SettledFrom(remote.records, start, s, writer.rows)
      ensures done ==> NoneBeyond(remote.records, cursor')
      ensures !done ==> Ahead(remote.records, cursor') < Ahead(remote.records, cursor)
    {
      hide Faithful, DrainsAnswered, Enriches, SettledBelow, SettledFrom, NoneBeyond, RouteAll, Ahead, Settled, Page, Carried;
      PageIsAWindow(remote, k, cursor);
      APageIsProgress(remote, k, cursor);
      ghost var before := writer.rows;
      var _ := writer.RoutePage(data, remote.included(k));
      SettlePage(remote, k, cursor, start, s, before, clean);
      APageCarries(remote, k, data, before);
      if |data| < PER_PAGE {
        ShortPageIsTheEnd(remote, k, cursor);
      }
      var newest := Newest(data, Stamp);
      done := false;
      if cursor == Some(newest) && |data| == PER_PAGE {
        ghost var mid, d := writer.rows, Drain(remote, newest, requests, 0);
        ADrainCarries(remote, newest, requests, mid);
        var _ := DrainSecond(remote, newest, {});
        EnrichesTransitive(before, mid, writer.rows);
        CarriedOn(remote, k, k + 1, requests, mid, writer.rows);
        RouteAppend(before, remote.included(k) + data, d.items);
        EnrichesTransitive(s, mid, writer.rows);
        if clean && DrainsAnswered(remote, old(requests), requests) {
          AnsweredDrainsSettle(remote, newest, old(requests), mid);
          SettleSecond(remote, newest, start, s, mid, writer.rows);
        }
        cursor' := Some(newest + 1);
      } else if (forall d :: d in data ==> cursor == Some(Stamp(d))) && |data| < PER_PAGE {
        cursor', done := cursor, true;
      } else {
        cursor' := Some(newest);
        if |data| < PER_PAGE {
          done := true;
        }
      }
    }

    /** The scheduler's way of backfilling: units of `unit` pages until it is done or a
        unit raises. */
    method BackfillInUnits(remote: Remote, unit: nat) returns (outcome: Outcome)
      requires Faithful(remote) && Sound(writer.rows) && unit > 0
      modifies writer, this
      ensures Sound(writer.rows) && Enriches(old(writer.rows), writer.rows) && requests >= old(requests)
      ensures if outcome.Raised? then requests > old(requests) && remote.fails(requests - 1)
              else outcome.Finished? && backfilled && watermark == backfillCursor && NoneBeyond(remote.records, watermark)
      ensures old(CoveredBelow(remote.records, backfillCursor, writer.rows)) && DrainsAnswered(remote, old(requests), requests) ==>
                && CoveredBelow(remote.records, backfillCursor, writer.rows)
                && (outcome.Finished? ==> CoveredAll(remote.records, writer.rows))
    {
      hide Faithful, CoveredBelow, CoveredAll, NoneBeyond, Ahead, Unseen;
      ghost var whole := CoveredBelow(remote.records, backfillCursor, writer.rows);
      outcome := Paused;
      while outcome.Paused?
        invariant Sound(writer.rows) && Enriches(old(writer.rows), writer.rows) && requests >= old(requests)
        invariant if outcome.Raised? then requests > old(requests) && remote.fails(requests - 1)
                  else outcome.Finished? ==> backfilled && watermark == backfillCursor && NoneBeyond(remote.records, watermark)
        invariant whole && DrainsAnswered(remote, old(requests), requests) ==>
            && CoveredBelow(remote.records, backfillCursor, writer.rows)
            && (outcome.Finished? ==> CoveredAll(remote.records, writer.rows))
        decreases outcome.Paused?, Ahead(remote.records, backfillCursor), Unseen(remote.records, backfillCursor, backfillSeen)
      {
        ghost var before := writer.rows;
        outcome := Backfill(remote, Some(unit));
        EnrichesTransitive(old(writer.rows), before, writer.rows);
      }
    }

    /** The same while the collection is being edited: before each unit the remote
        becomes whatever `edit` makes of it, as long as what is new is stamped at or
        after the persisted cursor. */
    method BackfillWhileEdited(remote: Remote, edit: (Remote, Option<Time>) -> Remote, unit: nat, rounds: nat)
      returns (remote': Remote, outcome: Outcome)
      requires Faithful(remote) && Sound(writer.rows) && EditsKeepAhead(edit)
      modifies writer, this
      ensures Faithful(remote') && Sound(writer.rows) && requests >= old(requests)
      ensures old(CoveredBelow(remote.records, backfillCursor, writer.rows)) && DrainsAnswered(remote, old(requests), requests) ==>
                && CoveredBelow(remote'.records, backfillCursor, writer.rows)
                && (outcome.Finished? ==> CoveredAll(remote'.records, writer.rows))
    {
      ghost var whole := CoveredBelow(remote.records, backfillCursor, writer.rows);
      remote', outcome := remote, Paused;
      for i := 0 to rounds
        invariant Faithful(remote') && Sound(writer.rows) && requests >= old(requests)
        invariant forall k :: remote'.drainFails(k) == remote.drainFails(k)
        invariant whole && DrainsAnswered(remote, old(requests), requests) ==>
            && CoveredBelow(remote'.records, backfillCursor, writer.rows)
            && (outcome.Finished? ==> CoveredAll(remote'.records, writer.rows))
      {
        if outcome.Finished? {
          return;
        }
        ghost var was := remote'.records;
        remote' := edit(remote', backfillCursor);
        if whole && DrainsAnswered(remote, old(requests), requests) {
          EditsAtOrAfterTheCursor(was, remote'.records, backfillCursor, writer.rows);
        }
        outcome := Backfill(remote', Some(unit));
      }
    }
  }

  predicate NotBefore(cursor: Option<Time>, start: Option<Time>) {
    start.Some? ==> cursor.Some? && cursor.value >= start.value
  }

  ghost predicate EditsKeepAhead(edit: (Remote, Option<Time>) -> Remote) {
    forall remote, cursor :: Faithful(remote) ==>
      && Faithful(edit(remote, cursor))
      && (forall k :: edit(remote, cursor).drainFails(k) == remote.drainFails(k))
      && forall r :: r in edit(remote, cursor).records - remote.records ==> AtOrAfter(r, cursor)
  }

  lemma RoutingNothing(s: Store)
    ensures RouteAll(s, []) == s
  {
  }

  lemma DrainIsSound(s: Store, items: seq<Resource>)
    requires Sound(s)
    ensures Sound(RouteAll(s, items)) && Enriches(s, RouteAll(s, items))
  {
    RoutingCovers(s, items);
  }

  function Ids(data: seq<Resource>): set<Id> {
    set d | d in data :: d.id
  }

  lemma NoIds(all: seq<Resource>)
    ensures Ids(all[..0]) == {}
  {
  }

  lemma IdsGrow(all: seq<Resource>, off: nat, data: seq<Resource>)
    requires off + |data| <= |all| && data == all[off..off + |data|]
    ensures Ids(all[..off + |data|]) == Ids(all[..off]) + Ids(data)
  {
    assert all[..off + |data|] == all[..off] + data;
  }

  lemma PrependNothing(d: Drained)
    ensures Prepend([], d) == d
  {
  }

  /** One more request of a drain that has routed `items` so far. */
  lemma DrainUnfolds(remote: Remote, t: Time, k: nat, off: nat, items: seq<Resource>)
    requires off <= |remote.second(t)|
    ensures var data := if remote.drainFails(k) then [] else Slice(remote.second(t), off);
            var included := if remote.drainFails(k) then [] else remote.included(k);
            var d := Prepend(items, Drain(remote, t, k, off));
            if |data| == PER_PAGE
            then off + PER_PAGE <= |remote.second(t)| && d == Prepend(items + (included + data), Drain(remote, t, k + 1, off + PER_PAGE))
            else d.items == items + (included + data) && d.next == k + 1 && d.reach == off + |data|
  {
    if |Slice(remote.second(t), off)| == PER_PAGE && !remote.drainFails(k) {
      PrependTwice(items, remote.included(k) + Slice(remote.second(t), off), Drain(remote, t, k + 1, off + PER_PAGE));
    }
  }

  lemma PrependTwice(a: seq<Resource>, b: seq<Resource>, d: Drained)
    ensures Prepend(a + b, d) == Prepend(a, Prepend(b, d))
  {
    assert a + b + d.items == a + (b + d.items);
  }

  lemma SweepUnfolds(remote: Remote, k: nat, cursor: Option<Time>)
    requires Faithful(remote)
    ensures var p := SweptPage(remote, k, cursor);
            Sweep(remote, k, cursor) == Behind(p.items, if p.done then Swept([], p.cursor, p.next) else Sweep(remote, p.next, p.cursor))
  {
    var p := SweptPage(remote, k, cursor);
    assert p.items + [] == p.items;
  }

  lemma NothingOwedYet(records: set<Resource>, start: Option<Time>, s: Store)
    ensures SettledBelow(records, start, start, s, s)
  {
  }

  lemma EmptyPageEnds(remote: Remote, k: nat, cursor: Option<Time>)
    requires remote.fails(k) || Page(remote, k, cursor) == []
    ensures SweptPage(remote, k, cursor) == PageOutcome([], cursor, k + 1, true)
  {
  }

  lemma SettlePage(remote: Remote, k: nat, lo: Option<Time>, start: Option<Time>, s: Store, before: Store, clean: bool)
    requires Faithful(remote) && Sound(s) && Sound(before) && Enriches(s, before)
    requires Page(remote, k, lo) != [] && NotBefore(lo, start)
    requires clean ==> SettledBelow(remote.records, start, lo, s, before)
    ensures var data := Page(remote, k, lo);
            var after := RouteAll(before, remote.included(k) + data);
            && Sound(after) && Enriches(before, after) && Enriches(s, after)
            && (clean ==> SettledBelow(remote.records, start, lo, s, after))
            && (clean ==> SettledBelow(remote.records, start, Some(Newest(data, Stamp)), s, after))
            && (clean && |data| < PER_PAGE ==> SettledFrom(remote.records, start, s, after))
  {
    if clean {
      PageAdvances(remote, k, lo, start, s, before);
    } else {
      RoutingCovers(before, remote.included(k) + Page(remote, k, lo));
      EnrichesTransitive(s, before, RouteAll(before, remote.included(k) + Page(remote, k, lo)));
    }
  }

  lemma SettleSecond(remote: Remote, t: Time, start: Option<Time>, s: Store, mid: Store, s': Store)
    requires Faithful(remote) && Sound(s) && Sound(mid) && Sound(s') && Enriches(s, mid) && Enriches(mid, s')
    requires SettledBelow(remote.records, start, Some(t), s, mid)
    requires forall r :: r in InSecond(remote.records, t) ==> Settled(mid, s', r)
    ensures SettledBelow(remote.records, start, Some(t + 1), s, s')
  {
    forall r | r in remote.records && AtOrAfter(r, start) && Stamp(r) < t + 1 ensures Settled(s, s', r) {
      if Stamp(r) < t {
        SettledSurvives(s, s, mid, s', r);
      } else {
        assert r in InSecond(remote.records, t);
        SettledSurvives(s, mid, s', s', r);
      }
    }
  }

  lemma EmptyPageEndsTheSweep(remote: Remote, k: nat, lo: Option<Time>, start: Option<Time>, s: Store, s': Store)
    requires Faithful(remote) && Page(remote, k, lo) == []
    requires SettledBelow(remote.records, start, lo, s, s')
    ensures SettledFrom(remote.records, start, s, s')
  {
    PageIsAWindow(remote, k, lo);
    forall r | r in remote.records && AtOrAfter(r, start) ensures Settled(s, s', r) {
      assert r !in Matching(remote.records, lo);
    }
  }

  lemma CoverPage(remote: Remote, k: nat, lo: Option<Time>, s: Store, clean: bool)
    requires Faithful(remote) && Sound(s) && Page(remote, k, lo) != []
    requires clean ==> CoveredBelow(remote.records, lo, s)
    ensures var data := Page(remote, k, lo);
            var after := RouteAll(s, remote.included(k) + data);
            && Sound(after) && Enriches(s, after)
            && (clean ==> CoveredBelow(remote.records, lo, after))
            && (clean ==> CoveredBelow(remote.records, Some(Newest(data, Stamp)), after))
            && (clean && |data| < PER_PAGE ==> CoveredAll(remote.records, after))
  {
    var data := Page(remote, k, lo);
    var items := remote.included(k) + data;
    var after := RouteAll(s, items);
    RoutingCovers(s, items);
    PageIsAWindow(remote, k, lo);
    forall r | clean && r in remote.records && (r in data || !AtOrAfter(r, lo)) ensures Covered(after, r) {
      if r in data {
        assert r in items;
      } else {
        CoverageSurvives(s, after, r);
      }
    }
    forall r | r in remote.records && Stamp(r) < Newest(data, Stamp) ensures r in data || !AtOrAfter(r, lo) {
      assert r in data || r !in Matching(remote.records, lo);
    }
  }

  lemma EmptyPageEndsTheWalk(remote: Remote, k: nat, lo: Option<Time>, s: Store)
    requires Faithful(remote) && Page(remote, k, lo) == []
    ensures CoveredBelow(remote.records, lo, s) ==> CoveredAll(remote.records, s)
  {
    PageIsAWindow(remote, k, lo);
    forall r | r in remote.records && CoveredBelow(remote.records, lo, s) ensures Covered(s, r) {
      assert r !in Matching(remote.records, lo);
    }
  }

  lemma CoverSecond(remote: Remote, t: Time, s: Store, s': Store)
    requires Faithful(remote) && Sound(s) && Sound(s') && Enriches(s, s')
    requires CoveredBelow(remote.records, Some(t), s)
    requires forall r :: r in InSecond(remote.records, t) ==> Settled(s, s', r)
    ensures CoveredBelow(remote.records, Some(t + 1), s')
  {
    forall r | r in remote.records && Stamp(r) < t ensures Covered(s', r) {
      CoverageSurvives(s, s', r);
    }
    forall r | r in remote.records && Stamp(r) == t ensures Covered(s', r) {
      assert r in InSecond(remote.records, t);
    }
  }
}
