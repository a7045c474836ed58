/**
 * One row of a mirrored table and the four statements that may change it
 * (pcomirror/writer.py). Deliveries reach a row duplicated and out of order, so
 * the results here quantify over every order and every duplication.
 */
module Rows {
  import opened Types

  /** What a write carries: the record's stamp, its relationship keys, its owner
      and everything else it says. */
  datatype Payload = Payload(updatedAt: Option<Time>, rels: set<string>, owner: Option<Id>, body: string)

  datatype Reason = Merged | Destroyed | AuditAbsent | Absent | OwnerDeleted

  /** `mergedInto`, `reason`, `tombstone` and `deletedAt` are the row's bookkeeping columns. */
  datatype Row = Row(
    raw: Payload,
    deletedAt: Option<Time>,
    tombstone: Option<Time>,
    reason: Option<Reason>,
    mergedInto: Option<Id>)
  {
    predicate Live() {
      deletedAt.None?
    }

    /** The three tombstone columns are set together and cleared together. */
    predicate Coherent() {
      && (deletedAt.Some? <==> tombstone.Some?)
      && (deletedAt.Some? <==> reason.Some?)
    }
  }

  /** Reasons that mean the record is gone rather than folded into another one. */
  predicate Gone(reason: Reason) {
    reason.Destroyed? || reason.AuditAbsent? || reason.Absent?
  }

  function NewRow(p: Payload): Row {
    Row(p, None, None, None, None)
  }

  /** Which of two payloads the row keeps: the newer, and at an equal (or an
      incomparable) stamp the one that does not lose a relationship, then the one
      with strictly more of them. */
  function Kept(held: Payload, incoming: Payload): Payload {
    if Later(incoming.updatedAt, held.updatedAt) then incoming
    else if Later(held.updatedAt, incoming.updatedAt) then held
    else if held.rels <= incoming.rels then incoming
    else if |incoming.rels| > |held.rels| then incoming
    else held
  }

  /** A strictly newer payload digs a row up, unless a merge buried it. */
  predicate Revives(row: Row, p: Payload) {
    && row.deletedAt.Some?
    && row.reason.Some? && row.reason != Some(Merged)
    && Later(p.updatedAt, row.tombstone)
  }

  function UpsertRow(row: Row, p: Payload): Row {
    var kept := Kept(row.raw, p);
    if Revives(row, p)
    then Row(kept, None, None, None, row.mergedInto)
    else row.(raw := kept)
  }

  /** Timestamp-less resources: a buried row keeps everything. */
  function UpsertUntimedRow(row: Row, p: Payload): Row {
    if row.Live() then row.(raw := p) else row
  }

  /** The guard of the tombstone statement. */
  predicate BurialAccepted(row: Row, uat: Option<Time>, reason: Reason) {
    || reason.Merged?
    || row.deletedAt.Some?
    || row.raw.updatedAt.None?
    || Coalesce(uat, row.raw.updatedAt).value >= row.raw.updatedAt.value
  }

  function BuryRow(row: Row, uat: Option<Time>, reason: Reason, mergedInto: Option<Id>, now: Time): Row {
    if BurialAccepted(row, uat, reason)
    then Row(row.raw, Some(now),
             Coalesce(Coalesce(uat, row.raw.updatedAt), Some(now)),
             Some(reason), Coalesce(mergedInto, row.mergedInto))
    else row
  }

  /** The owner of a live row went away. */
  function OrphanRow(row: Row, now: Time): Row {
    Row(row.raw, Some(now), Coalesce(row.raw.updatedAt, Some(now)), Some(OwnerDeleted), row.mergedInto)
  }

  /** The owner of an orphaned row came back. */
  function AdoptRow(row: Row): Row {
    row.(deletedAt := None, tombstone := None, reason := None)
  }

  lemma RowsStayCoherent(row: Row, p: Payload, uat: Option<Time>, reason: Reason, into: Option<Id>, now: Time)
    requires row.Coherent()
    ensures UpsertRow(row, p).Coherent() && UpsertUntimedRow(row, p).Coherent()
    ensures BuryRow(row, uat, reason, into, now).Coherent()
    ensures OrphanRow(row, now).Coherent() && AdoptRow(row).Coherent()
  {
  }

  // ----- how complete a payload is -------------------------------------------

  /** `a` is older than `b`, or as old and names fewer relationships. */
  predicate Poorer(a: Payload, b: Payload) {
    || Later(b.updatedAt, a.updatedAt)
    || (a.updatedAt == b.updatedAt && |a.rels| < |b.rels|)
  }

  /** No upsert makes a stamped row poorer than it was, or poorer than the write. */
  lemma UpsertNeverImpoverishes(row: Row, p: Payload)
    requires row.raw.updatedAt.Some? && p.updatedAt.Some?
    ensures var r := UpsertRow(row, p).raw;
            && (r == row.raw || r == p)
            && !Poorer(r, row.raw) && !Poorer(r, p)
  {
    if row.raw.rels <= p.rels {
      SubsetIsNoLarger(row.raw.rels, p.rels);
    }
  }

  /** A child buried with its owner keeps its own stamp: the copy the mirror already had
      does not dig it up, and any newer one does. */
  lemma AnOrphanRevivesOnNews(row: Row, now: Time, p: Payload)
    requires row.Live() && row.raw.updatedAt.Some?
    ensures UpsertRow(OrphanRow(row, now), p).Live() <==> Later(p.updatedAt, row.raw.updatedAt)
  {
  }

  /** At the stamp the row has, a write that brings no more relationships than it holds
      loses none of them: it may replace the payload only by a superset. */
  lemma NothingIsLostAtTheSameStamp(row: Row, p: Payload)
    requires row.raw.updatedAt.Some? && p.updatedAt == row.raw.updatedAt && |p.rels| <= |row.raw.rels|
    ensures UpsertRow(row, p).raw.rels == row.raw.rels
  {
    if row.raw.rels <= p.rels {
      assert p.rels == row.raw.rels + (p.rels - row.raw.rels);
    }
  }

  // ----- what a burial leaves ---------------------------------------------------------

  /** Buried under its own stamp, for a reason a write may overrule. */
  predicate ComesBackOnNews(row: Row) {
    !row.Live() && row.Coherent() && row.reason != Some(Merged) && (row.raw.updatedAt.Some? ==> row.tombstone == row.raw.updatedAt)
  }

  lemma BuriedUnderItsOwnStamp(reason: Reason)
    requires !reason.Merged?
    ensures forall row: Row, now ::
              ComesBackOnNews(BuryRow(row, None, reason, None, now)) && BuryRow(row, None, reason, None, now).raw == row.raw
  {
  }

  /** Such a row is revived by exactly the writes newer than what it holds. */
  lemma NewsRevives(row: Row, p: Payload)
    requires ComesBackOnNews(row) && row.raw.updatedAt.Some?
    ensures UpsertRow(row, p).Live() <==> Later(p.updatedAt, row.raw.updatedAt)
  {
  }

  /** A tombstone for a live row is refused exactly if it is no merge and its own stamp is
      older than the row's; and once taken it yields to exactly the writes newer than the
      stamp it came with -- the row's own without one, the time of burial without either --
      unless it is a merge. */
  lemma ABurialYieldsToNews(row: Row, uat: Option<Time>, reason: Reason, into: Option<Id>, now: Time, p: Payload)
    requires row.Live()
    ensures var buried := BuryRow(row, uat, reason, into, now);
            && (buried.Live() <==> reason != Merged && Later(row.raw.updatedAt, uat))
            && (buried.Live() ==> buried == row)
            && (!buried.Live() ==> buried.deletedAt == Some(now) && buried.reason == Some(reason) && buried.raw == row.raw)
            && (!buried.Live() ==>
                  (UpsertRow(buried, p).Live() <==>
                     reason != Merged && p.updatedAt.Some?
                     && p.updatedAt.value > (if uat.Some? then uat.value else if row.raw.updatedAt.Some? then row.raw.updatedAt.value else now)))
  {
  }

  /** Who a row was merged into is never forgotten, only replaced by a later merge --
      or dropped with a record fetched whole. */
  lemma TheSurvivorIsRemembered(row: Row, p: Payload, uat: Option<Time>, reason: Reason, into: Option<Id>, now: Time)
    ensures UpsertRow(row, p).mergedInto == UpsertUntimedRow(row, p).mergedInto == row.mergedInto
    ensures OrphanRow(row, now).mergedInto == AdoptRow(row).mergedInto == row.mergedInto
    ensures BuryRow(row, uat, reason, into, now).mergedInto == row.mergedInto
            || (into.Some? && BuryRow(row, uat, reason, into, now).mergedInto == into)
    ensures BuryRow(row, None, Merged, into, now).mergedInto == (if into.Some? then into else row.mergedInto)
  {
  }

  // ----- resources without a stamp ----------------------------------------------------

  function UntimedRun(row: Row, writes: seq<Payload>): Row {
    if writes == [] then row else UpsertUntimedRow(UntimedRun(row, writes[..|writes| - 1]), writes[|writes| - 1])
  }

  /** Whatever is written, in whatever order: a buried row stays as it is to the letter, and
      a live one stays live and holds the last payload. */
  lemma {:induction false} TheLastUntimedWriteStays(row: Row, writes: seq<Payload>)
    ensures !row.Live() ==> UntimedRun(row, writes) == row
    ensures row.Live() && writes != [] ==> UntimedRun(row, writes) == row.(raw := writes[|writes| - 1])
  {
    if writes != [] {
      TheLastUntimedWriteStays(row, writes[..|writes| - 1]);
    }
  }

  // ----- at-least-once, unordered delivery -----------------------------------

  datatype Event =
    | Write(p: Payload)
    | Burial(stamp: Time, reason: Reason, at: Time)

  function Apply(row: Row, e: Event): Row {
    match e
    case Write(p) => UpsertRow(row, p)
    case Burial(stamp, reason, at) => BuryRow(row, Some(stamp), reason, None, at)
  }

  function Run(row: Row, s: seq<Event>): Row {
    if s == [] then row else Apply(Run(row, s[..|s| - 1]), s[|s| - 1])
  }

  lemma {:induction false} RunAppend(row: Row, s: seq<Event>, t: seq<Event>)
    ensures Run(row, s + t) == Run(Run(row, s), t)
  {
    if t == [] {
      assert s + t == s;
    } else {
      assert (s + t)[..|s + t| - 1] == s + t[..|t| - 1];
      RunAppend(row, s, t[..|t| - 1]);
    }
  }

  /** Writes are stamped; burials are the kind a `destroyed` event or an absence makes. */
  ghost predicate Timed(events: set<Event>) {
    forall e :: e in events ==> if e.Write? then e.p.updatedAt.Some? else !e.reason.Merged?
  }

  /** Every event arrives at least once, in some order, nothing else arrives. */
  ghost predicate Delivers(s: seq<Event>, events: set<Event>) {
    forall e :: e in s <==> e in events
  }

  ghost predicate Offered(row: Row, events: set<Event>, p: Payload) {
    p == row.raw || Write(p) in events
  }

  /** Live, stamped, never buried. */
  predicate Pristine(row: Row) {
    row.Live() && row.Coherent() && row.raw.updatedAt.Some?
  }

  ghost predicate RunState(row: Row, s: seq<Event>) {
    var r := Run(row, s);
    && r.Coherent()
    && r.raw.updatedAt.Some?
    && r.reason != Some(Merged)
    && (r.raw == row.raw || Write(r.raw) in s)
    && !Poorer(r.raw, row.raw)
    && (forall p :: Write(p) in s ==> !Poorer(r.raw, p))
    && (r.tombstone.Some? ==> exists b :: b in s && b.Burial? && b.stamp == r.tombstone.value)
  }

  lemma {:induction false} RunKeepsState(row: Row, s: seq<Event>, events: set<Event>)
    requires Pristine(row) && Timed(events)
    requires forall e :: e in s ==> e in events
    ensures RunState(row, s)
  {
    if s != [] {
      var t, e := s[..|s| - 1], s[|s| - 1];
      assert s == t + [e];
      RunKeepsState(row, t, events);
      assert e in s && e in events;
      var before, after := Run(row, t), Run(row, s);
      if e.Write? {
        UpsertNeverImpoverishes(before, e.p);
        forall p | Write(p) in s ensures !Poorer(after.raw, p) {
          if Write(p) in t {
            assert !Poorer(before.raw, p);
          }
        }
        if after.tombstone.Some? {
          var b :| b in t && b.Burial? && b.stamp == before.tombstone.value;
          assert b in s;
        }
      } else {
        assert after.raw == before.raw;
        if after.tombstone.Some? {
          if BurialAccepted(before, Some(e.stamp), e.reason) {
            assert e in s && e.stamp == after.tombstone.value;
          }
        }
      }
    }
  }

  /** Whatever the order and the duplication, the row ends holding one of the
      offered payloads, and none of them is more complete: its (stamp, number of
      relationships) is the lexicographic maximum. */
  lemma EveryOrderKeepsTheRichest(row: Row, events: set<Event>, s: seq<Event>)
    requires Pristine(row) && Timed(events) && Delivers(s, events)
    ensures Offered(row, events, Run(row, s).raw)
    ensures forall p :: Offered(row, events, p) ==> !Poorer(Run(row, s).raw, p)
  {
    RunKeepsState(row, s, events);
  }

  /** No write here is newer than the row or has more relationships. */
  ghost predicate Thin(row: Row, s: seq<Event>) {
    forall e :: e in s && e.Write? ==>
      e.p.updatedAt.Some? && !Later(e.p.updatedAt, row.raw.updatedAt) && |e.p.rels| <= |row.raw.rels|
  }

  /** Over any delivery of such writes, among any burials, the row loses no relationship
      and no stamp: thin copies of what it holds never wear it down. */
  lemma {:induction false} ThinCopiesTakeNothing(row: Row, s: seq<Event>)
    requires row.raw.updatedAt.Some? && Thin(row, s)
    ensures Run(row, s).raw.updatedAt == row.raw.updatedAt && Run(row, s).raw.rels == row.raw.rels
  {
    if s != [] {
      var front, e := s[..|s| - 1], s[|s| - 1];
      assert e in s && s == front + [e];
      ThinCopiesTakeNothing(row, front);
      var before := Run(row, front);
      if e.Write? {
        if e.p.updatedAt == before.raw.updatedAt {
          NothingIsLostAtTheSameStamp(before, e.p);
        }
      }
    }
  }

  predicate NewerThan(p: Payload, t: Time) {
    Later(p.updatedAt, Some(t))
  }

  /** Some offered payload is newer than every burial. */
  ghost predicate OutlivesEveryBurial(row: Row, events: set<Event>) {
    exists p :: Offered(row, events, p)
      && forall b :: b in events && b.Burial? ==> NewerThan(p, b.stamp)
  }

  /** No delivered payload is newer than any burial. */
  ghost predicate NoWriteCanRevive(events: set<Event>) {
    forall w, b :: w in events && w.Write? && b in events && b.Burial? ==> !NewerThan(w.p, b.stamp)
  }

  lemma {:induction false} OutlivingEndsLive(row: Row, events: set<Event>, s: seq<Event>, p: Payload)
    requires Pristine(row) && Timed(events)
    requires forall e :: e in s ==> e in events
    requires forall b :: b in events && b.Burial? ==> NewerThan(p, b.stamp)
    requires p == row.raw || Write(p) in s
    ensures Run(row, s).Live()
  {
    if s != [] {
      var t, e := s[..|s| - 1], s[|s| - 1];
      assert s == t + [e];
      RunKeepsState(row, t, events);
      var before := Run(row, t);
      assert e in s;
      if p == row.raw || Write(p) in t {
        OutlivingEndsLive(row, events, t, p);
        assert !Poorer(before.raw, p);
      } else {
        assert e == Write(p);
        if before.tombstone.Some? {
          var b :| b in t && b.Burial? && b.stamp == before.tombstone.value;
          assert b in s;
        }
      }
    }
  }

  lemma {:induction false} UnrevivableEndsBuried(row: Row, events: set<Event>, s: seq<Event>)
    requires Pristine(row) && Timed(events)
    requires forall e :: e in s ==> e in events
    requires NoWriteCanRevive(events)
    requires exists b :: b in s && b.Burial? && !NewerThan(row.raw, b.stamp)
    ensures !Run(row, s).Live()
  {
    var t, e := s[..|s| - 1], s[|s| - 1];
    assert s == t + [e];
    RunKeepsState(row, t, events);
    var before := Run(row, t);
    assert e in s;
    if exists b :: b in t && b.Burial? && !NewerThan(row.raw, b.stamp) {
      UnrevivableEndsBuried(row, events, t);
      if e.Write? {
        var b :| b in t && b.Burial? && b.stamp == before.tombstone.value;
        assert b in s;
      }
    } else {
      assert e.Burial? && !NewerThan(row.raw, e.stamp);
      if before.raw != row.raw {
        assert Write(before.raw) in s;
      }
    }
  }

  /** With every burial stamped `t`, the row ends buried exactly when nothing
      offered is newer than `t` -- in every order, with every duplication. */
  lemma OneStampDecides(row: Row, events: set<Event>, s: seq<Event>, t: Time)
    requires Pristine(row) && Timed(events) && Delivers(s, events)
    requires exists b :: b in events && b.Burial?
    requires forall b :: b in events && b.Burial? ==> b.stamp == t
    ensures !Run(row, s).Live() <==> forall p :: Offered(row, events, p) ==> !NewerThan(p, t)
    ensures !Run(row, s).Live() <==> !NewerThan(Run(row, s).raw, t)
  {
    RunKeepsState(row, s, events);
    if p :| Offered(row, events, p) && NewerThan(p, t) {
      OutlivingEndsLive(row, events, s, p);
    } else {
      assert Offered(row, events, row.raw);
      forall w | w in events && w.Write? ensures !NewerThan(w.p, t) {
        assert Offered(row, events, w.p);
      }
      var b :| b in events && b.Burial?;
      assert b in s;
      UnrevivableEndsBuried(row, events, s);
    }
  }

  // ----- several stamps: when does the order matter? -------------------------

  ghost predicate OrderCannotMatter(row: Row, events: set<Event>) {
    forall s, s' :: Delivers(s, events) && Delivers(s', events) ==>
      (Run(row, s).Live() <==> Run(row, s').Live())
  }

  lemma SomeDelivery(events: set<Event>) returns (s: seq<Event>)
    ensures Delivers(s, events)
  {
    if events == {} {
      s := [];
    } else {
      var e :| e in events;
      var rest := SomeDelivery(events - {e});
      s := rest + [e];
    }
  }

  lemma {:induction false} WritesKeepALiveRowLive(row: Row, s: seq<Event>)
    requires row.Live()
    requires forall e :: e in s ==> e.Write?
    ensures Run(row, s).Live()
  {
    if s != [] {
      assert s[|s| - 1] in s;
      WritesKeepALiveRowLive(row, s[..|s| - 1]);
    }
  }

  lemma {:induction false} BurialsKeepABuriedRowBuried(row: Row, s: seq<Event>)
    requires !row.Live()
    requires forall e :: e in s ==> e.Burial?
    ensures !Run(row, s).Live()
  {
    if s != [] {
      assert s[|s| - 1] in s;
      BurialsKeepABuriedRowBuried(row, s[..|s| - 1]);
    }
  }

  lemma {:induction false} BurialsKeepThePayload(row: Row, s: seq<Event>)
    requires forall e :: e in s ==> e.Burial?
    ensures Run(row, s).raw == row.raw
  {
    if s != [] {
      assert s[|s| - 1] in s;
      BurialsKeepThePayload(row, s[..|s| - 1]);
    }
  }

  /** Writes first, burials after: the row ends buried when some burial covers it. */
  lemma AnOrderThatBuries(row: Row, events: set<Event>) returns (s: seq<Event>)
    requires Pristine(row) && Timed(events) && !OutlivesEveryBurial(row, events)
    ensures Delivers(s, events) && !Run(row, s).Live()
  {
    var writes := SomeDelivery(set e | e in events && e.Write?);
    var burials := SomeDelivery(set e | e in events && e.Burial?);
    RunKeepsState(row, writes, events);
    WritesKeepALiveRowLive(row, writes);
    var mid := Run(row, writes);
    assert Offered(row, events, mid.raw);
    var b :| b in events && b.Burial? && !NewerThan(mid.raw, b.stamp);
    RunAppend(row, writes, [b]);
    assert Run(mid, [b]) == Apply(mid, b) by { assert [b][..0] == []; }
    RunAppend(row, writes + [b], burials);
    BurialsKeepABuriedRowBuried(Run(row, writes + [b]), burials);
    s := writes + [b] + burials;
  }

  /** Burials first, the oldest of them last, then the writes: the row ends live
      when some write is newer than that oldest burial. */
  lemma AnOrderThatRevives(row: Row, events: set<Event>) returns (s: seq<Event>)
    requires Pristine(row) && Timed(events)
    requires !OutlivesEveryBurial(row, events) && !NoWriteCanRevive(events)
    ensures Delivers(s, events) && Run(row, s).Live()
  {
    var writes := SomeDelivery(set e | e in events && e.Write?);
    var burials := SomeDelivery(set e | e in events && e.Burial?);
    var w, first :| w in events && w.Write? && first in events && first.Burial? && NewerThan(w.p, first.stamp);
    assert Offered(row, events, row.raw);
    var b :| b in events && b.Burial? && !NewerThan(row.raw, b.stamp);
    var s1, s2, s3 := burials, burials + [b], burials + [b] + [first];
    BurialsKeepThePayload(row, s1);
    RunKeepsState(row, s1, events);
    RunAppend(row, s1, [b]);
    assert Run(Run(row, s1), [b]) == Apply(Run(row, s1), b) by { assert [b][..0] == []; }
    assert !Run(row, s2).Live();
    RunAppend(row, s2, [first]);
    assert Run(Run(row, s2), [first]) == Apply(Run(row, s2), first) by { assert [first][..0] == []; }
    var r3 := Run(row, s3);
    RunKeepsState(row, s3, events);
    assert r3.tombstone == Some(first.stamp);
    assert w in writes;
    var i :| 0 <= i < |writes| && writes[i] == w;
    assert writes == writes[..i] + [w] + writes[i + 1..];
    assert forall e :: e in writes ==> e.Write?;
    WritesLeaveTheStamp(r3, writes[..i]);
    RunAppend(r3, writes[..i], [w]);
    assert Run(Run(r3, writes[..i]), [w]) == Apply(Run(r3, writes[..i]), w) by { assert [w][..0] == []; }
    RunAppend(r3, writes[..i] + [w], writes[i + 1..]);
    WritesKeepALiveRowLive(Run(r3, writes[..i] + [w]), writes[i + 1..]);
    RunAppend(row, s3, writes);
    s := s3 + writes;
  }

  lemma {:induction false} WritesLeaveTheStamp(row: Row, s: seq<Event>)
    requires row.Coherent() && row.reason.Some? && row.reason != Some(Merged)
    requires forall e :: e in s ==> e.Write?
    ensures var r := Run(row, s);
            r.Live() || (r.Coherent() && r.tombstone == row.tombstone && r.reason == row.reason)
  {
    if s != [] {
      assert s[|s| - 1] in s;
      WritesLeaveTheStamp(row, s[..|s| - 1]);
    }
  }

  /** A buried row accepts an older stamp, so with several burials the outcome can
      depend on the order. It does not in exactly two cases: something offered is
      newer than every burial, or no write is newer than any burial. */
  lemma OrderMattersExactlyBetweenStamps(row: Row, events: set<Event>)
    requires Pristine(row) && Timed(events)
    ensures OrderCannotMatter(row, events) <==>
            OutlivesEveryBurial(row, events) || NoWriteCanRevive(events)
  {
    if OutlivesEveryBurial(row, events) {
      var p :| Offered(row, events, p) && forall b :: b in events && b.Burial? ==> NewerThan(p, b.stamp);
      forall s | Delivers(s, events) ensures Run(row, s).Live() {
        OutlivingEndsLive(row, events, s, p);
      }
    } else if NoWriteCanRevive(events) {
      assert Offered(row, events, row.raw);
      var b :| b in events && b.Burial? && !NewerThan(row.raw, b.stamp);
      forall s | Delivers(s, events) ensures !Run(row, s).Live() {
        assert b in s;
        UnrevivableEndsBuried(row, events, s);
      }
    } else {
      var s := AnOrderThatBuries(row, events);
      var s' := AnOrderThatRevives(row, events);
    }
  }

  /** The stamp of a buried row is not monotone: the same three deliveries end
      live in one order and buried in another. */
  lemma StampsAreNotMonotone()
    ensures var row := NewRow(Payload(Some(1), {}, None, ""));
            var early := Burial(3, Destroyed, 9);
            var late := Burial(5, Destroyed, 9);
            var edit := Write(Payload(Some(4), {}, None, ""));
            && Run(row, [late, early, edit]).Live()
            && !Run(row, [edit, early, late]).Live()
  {
    var row := NewRow(Payload(Some(1), {}, None, ""));
    var early := Burial(3, Destroyed, 9);
    var late := Burial(5, Destroyed, 9);
    var edit := Write(Payload(Some(4), {}, None, ""));
    assert [late, early, edit][..2] == [late, early];
    assert [late, early][..1] == [late];
    assert [late][..0] == [];
    assert [edit, early, late][..2] == [edit, early];
    assert [edit, early][..1] == [edit];
    assert [edit][..0] == [];
    assert Run(row, [edit]) == NewRow(edit.p);
    assert Run(row, [edit, early]) == NewRow(edit.p);
  }

  /** A merged row cannot be revived by any write -- until a later tombstone relabels it:
      from then on a write newer than that tombstone revives it. */
  lemma ALaterTombstoneRelabelsAMerge(row: Row, uat: Option<Time>, reason: Reason, into: Option<Id>, now: Time, p: Payload)
    requires row.Coherent() && row.reason == Some(Merged)
    ensures !UpsertRow(row, p).Live()
    ensures var again := BuryRow(row, uat, reason, into, now);
            UpsertRow(again, p).Live() <==> !reason.Merged? && Later(p.updatedAt, again.tombstone)
  {
  }
}
