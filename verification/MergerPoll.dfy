/**
 * Merges (pcomirror/ingest.py `merger_poll`, pcomirror/webhooks.py `_handle_merge`):
 * the poll and the webhook both learn of them, and an append-only log of merger ids
 * decides which of the two applies one.
 */
module MergerPoll {
  import opened Types
  import opened Rows
  import opened Paging

  /** A merger names itself, or -- in a webhook without an id -- is filed under a name
      made from the two people. */
  datatype MergerId = Named(id: Id) | Unnamed(keep: Option<Id>, gone: Option<Id>)

  datatype Merger = Merger(id: Id, createdAt: Time, keep: Id, gone: Id)

  /** A webhook's payload; any part of it may be missing. */
  datatype Delivery = Delivery(id: Option<Id>, keep: Option<Id>, gone: Option<Id>)

  function CreatedAt(m: Merger): Time {
    m.createdAt
  }

  /** The tombstone and the hydration a merge brings about. */
  datatype Effect = Effect(id: MergerId, keep: Option<Id>, gone: Option<Id>)

  function NameOf(d: Delivery): MergerId {
    if d.id.Some? then Named(d.id.value) else Unnamed(d.keep, d.gone)
  }

  function Buried(rows: map<Id, Row>, gone: Option<Id>, keep: Option<Id>, now: Time): map<Id, Row> {
    if gone.Some? && gone.value in rows
    then rows[gone.value := BuryRow(rows[gone.value], None, Merged, keep, now)]
    else rows
  }

  // ----- once, over any interleaving -------------------------------------------------

  /** The log of recorded ids, and the effects that ran, oldest first. */
  datatype Ledger = Ledger(recorded: set<MergerId>, effects: seq<Effect>)

  /** A poll or a webhook handling one merge; `dies` before recording it. */
  datatype Handling = Handling(effect: Effect, dies: bool)

  function Handle(l: Ledger, h: Handling): Ledger {
    if h.effect.id in l.recorded then l
    else Ledger(if h.dies then l.recorded else l.recorded + {h.effect.id}, l.effects + [h.effect])
  }

  function HandleAll(l: Ledger, hs: seq<Handling>): Ledger {
    if hs == [] then l else Handle(HandleAll(l, hs[..|hs| - 1]), hs[|hs| - 1])
  }

  function Runs(effects: seq<Effect>, id: MergerId): nat {
    if effects == [] then 0
    else Runs(effects[..|effects| - 1], id) + (if effects[|effects| - 1].id == id then 1 else 0)
  }

  /** Handlings of `id` that died before any handling of it survived. */
  function DeathsFirst(hs: seq<Handling>, id: MergerId): nat {
    if hs == [] || (hs[0].effect.id == id && !hs[0].dies) then 0
    else (if hs[0].effect.id == id then 1 else 0) + DeathsFirst(hs[1..], id)
  }

  function HandlingOf(m: Merger): Handling {
    Handling(Effect(Named(m.id), Some(m.keep), Some(m.gone)), false)
  }

  /** A page of the poll, as handlings. */
  function Handlings(data: seq<Merger>): seq<Handling> {
    seq(|data|, i requires 0 <= i < |data| => HandlingOf(data[i]))
  }

  function Names(data: seq<Merger>): set<MergerId> {
    set m | m in data :: Named(m.id)
  }

  lemma {:induction false} HandleAppend(l: Ledger, a: seq<Handling>, b: seq<Handling>)
    ensures HandleAll(l, a + b) == HandleAll(HandleAll(l, a), b)
  {
    if b == [] {
      assert a + b == a;
    } else {
      assert (a + b)[..|a + b| - 1] == a + b[..|b| - 1];
      HandleAppend(l, a, b[..|b| - 1]);
    }
  }

  predicate Survives(hs: seq<Handling>, id: MergerId) {
    exists h :: h in hs && h.effect.id == id && !h.dies
  }

  lemma {:induction false} HandleFirst(l: Ledger, hs: seq<Handling>)
    requires hs != []
    ensures HandleAll(l, hs) == HandleAll(Handle(l, hs[0]), hs[1..])
  {
    if |hs| == 1 {
      assert hs[..0] == [] && hs[1..] == [];
    } else {
      HandleFirst(l, hs[..|hs| - 1]);
      assert hs[..|hs| - 1][1..] == hs[1..][..|hs| - 2];
    }
  }

  /** A merge's effects run once, plus once for every time the process died between
      running and recording them -- whatever the interleaving of polls, deliveries and
      redeliveries that carry its id. */
  lemma {:induction false} EffectsRunOnce(l: Ledger, hs: seq<Handling>, id: MergerId)
    ensures var l' := HandleAll(l, hs);
            && (id in l'.recorded <==> id in l.recorded || Survives(hs, id))
            && Runs(l'.effects, id) == Runs(l.effects, id) +
                 (if id in l.recorded then 0 else DeathsFirst(hs, id) + (if Survives(hs, id) then 1 else 0))
    decreases |hs|
  {
    if hs != [] {
      hide HandleAll;
      var h, l1 := hs[0], Handle(l, hs[0]);
      HandleFirst(l, hs);
      assert hs == [h] + hs[1..];
      assert l1.effects != l.effects ==> l1.effects[..|l1.effects| - 1] == l.effects;
      EffectsRunOnce(l1, hs[1..], id);
    }
  }

  lemma TwoHandlings(l: Ledger, g: Handling, h: Handling)
    ensures HandleAll(l, [g, h]) == Handle(Handle(l, g), h)
  {
    assert [g, h][..1] == [g] && [g][..0] == [];
    assert HandleAll(l, [g]) == Handle(HandleAll(l, []), g);
  }

  /** Without the id the webhook files the same merge under another name, and its
      effects run again. Whichever of the two comes first, on any ledger that knows
      nothing of the merge, it runs once exactly when the id is carried. */
  lemma OnlyTheIdIdentifies(l: Ledger, m: Merger, d: Delivery)
    requires d.keep == Some(m.keep) && d.gone == Some(m.gone) && (d.id.Some? ==> d.id.value == m.id)
    requires Named(m.id) !in l.recorded && NameOf(d) !in l.recorded
    ensures var poll := Handling(Effect(Named(m.id), Some(m.keep), Some(m.gone)), false);
            var hook := Handling(Effect(NameOf(d), d.keep, d.gone), false);
            && (|HandleAll(l, [poll, hook]).effects| == |l.effects| + 1 <==> d.id.Some?)
            && (|HandleAll(l, [hook, poll]).effects| == |l.effects| + 1 <==> d.id.Some?)
  {
    var poll := Handling(Effect(Named(m.id), Some(m.keep), Some(m.gone)), false);
    var hook := Handling(Effect(NameOf(d), d.keep, d.gone), false);
    TwoHandlings(l, poll, hook);
    TwoHandlings(l, hook, poll);
  }

  /** Two webhooks without ids are taken for the same merge exactly if they are about the same
      two people; on a ledger that knows neither, both run otherwise. */
  lemma UnnamedMergesAreTheirPeople(l: Ledger, d: Delivery, e: Delivery)
    requires d.id.None? && e.id.None? && NameOf(d) !in l.recorded && NameOf(e) !in l.recorded
    ensures |HandleAll(l, [Handling(Effect(NameOf(d), d.keep, d.gone), false), Handling(Effect(NameOf(e), e.keep, e.gone), false)]).effects|
            == |l.effects| + if d.keep == e.keep && d.gone == e.gone then 1 else 2
  {
    TwoHandlings(l, Handling(Effect(NameOf(d), d.keep, d.gone), false), Handling(Effect(NameOf(e), e.keep, e.gone), false));
  }

  /** Applying a merge again after a crash changes nothing but the time of burial. */
  lemma MergingTwiceIsMergingOnce(rows: map<Id, Row>, gone: Id, keep: Id, t: Time, t': Time)
    requires gone in rows
    ensures var once := Buried(rows, Some(gone), Some(keep), t);
            var twice := Buried(once, Some(gone), Some(keep), t');
            && twice.Keys == once.Keys
            && (forall id :: id in once && id != gone ==> twice[id] == once[id])
            && twice[gone].(deletedAt := once[gone].deletedAt, tombstone := once[gone].tombstone) == once[gone]
            && once[gone].reason == Some(Merged) && once[gone].mergedInto == Some(keep)
  {
  }

  // ----- the tables -------------------------------------------------------------------

  /** The rows after these tombstones, oldest first. */
  function BuriedAll(rows: map<Id, Row>, effects: seq<Effect>, now: Time): map<Id, Row> {
    if effects == [] then rows
    else
      var e := effects[|effects| - 1];
      Buried(BuriedAll(rows, effects[..|effects| - 1], now), e.gone, e.keep, now)
  }

  /** The people the effects queue for hydration. */
  function Keepers(effects: seq<Effect>): set<Id> {
    set e | e in effects && e.keep.Some? :: e.keep.value
  }

  /** The tables, rewritten by exactly the effects that ran since. */
  ghost predicate TablesFollow(rows0: map<Id, Row>, hydrations0: set<Id>, effects0: seq<Effect>,
                               rows: map<Id, Row>, hydrations: set<Id>, effects: seq<Effect>, now: Time) {
    && effects0 <= effects
    && rows == BuriedAll(rows0, effects[|effects0|..], now)
    && hydrations == hydrations0 + Keepers(effects[|effects0|..])
  }

  lemma TablesFollowThemselves(rows: map<Id, Row>, hydrations: set<Id>, effects: seq<Effect>, now: Time)
    ensures TablesFollow(rows, hydrations, effects, rows, hydrations, effects, now)
  {
    assert effects[|effects|..] == [];
  }

  lemma {:induction false} BuryMore(rows: map<Id, Row>, a: seq<Effect>, b: seq<Effect>, now: Time)
    ensures BuriedAll(rows, a + b, now) == BuriedAll(BuriedAll(rows, a, now), b, now)
    ensures Keepers(a + b) == Keepers(a) + Keepers(b)
  {
    if b == [] {
      assert a + b == a;
    } else {
      assert (a + b)[..|a + b| - 1] == a + b[..|b| - 1];
      BuryMore(rows, a, b[..|b| - 1], now);
    }
  }

  lemma TablesFollowOn(rows0: map<Id, Row>, hydrations0: set<Id>, effects0: seq<Effect>,
                       rows1: map<Id, Row>, hydrations1: set<Id>, effects1: seq<Effect>,
                       rows: map<Id, Row>, hydrations: set<Id>, effects: seq<Effect>, now: Time)
    requires TablesFollow(rows0, hydrations0, effects0, rows1, hydrations1, effects1, now)
    requires TablesFollow(rows1, hydrations1, effects1, rows, hydrations, effects, now)
    ensures TablesFollow(rows0, hydrations0, effects0, rows, hydrations, effects, now)
  {
    assert effects[|effects0|..] == effects1[|effects0|..] + effects[|effects1|..];
    BuryMore(rows0, effects1[|effects0|..], effects[|effects1|..], now);
  }

  lemma OneEffect(rows0: map<Id, Row>, hydrations0: set<Id>, effects0: seq<Effect>, e: Effect, now: Time)
    ensures TablesFollow(rows0, hydrations0, effects0, Buried(rows0, e.gone, e.keep, now),
                         if e.keep.Some? then hydrations0 + {e.keep.value} else hydrations0, effects0 + [e], now)
  {
    assert (effects0 + [e])[|effects0|..] == [e] && [e][..0] == [];
    assert BuriedAll(rows0, [e], now) == Buried(BuriedAll(rows0, [], now), e.gone, e.keep, now);
  }

  predicate IsMerged(rows: map<Id, Row>, id: Id) {
    id in rows && !rows[id].Live() && rows[id].reason == Some(Merged)
  }

  /** The survivor is queued, and the removed person, if the mirror holds one, is buried as merged. */
  predicate IsApplied(m: Merger, rows: map<Id, Row>, hydrations: set<Id>) {
    m.keep in hydrations && (m.gone in rows ==> IsMerged(rows, m.gone))
  }

  /** Exactly the people the effects remove are buried; every other row is as it was. */
  lemma {:induction false} EffectsBury(rows: map<Id, Row>, effects: seq<Effect>, now: Time, id: Id)
    requires id in rows
    ensures var rows' := BuriedAll(rows, effects, now);
            && rows'.Keys == rows.Keys
            && (if exists e :: e in effects && e.gone == Some(id) then IsMerged(rows', id) else rows'[id] == rows[id])
  {
    if effects != [] {
      var front, last := effects[..|effects| - 1], effects[|effects| - 1];
      EffectsBury(rows, front, now, id);
      assert forall e :: e in effects <==> e in front || e == last;
    }
  }

  lemma {:induction false} RowsAreKept(rows: map<Id, Row>, effects: seq<Effect>, now: Time)
    ensures BuriedAll(rows, effects, now).Keys == rows.Keys
  {
    if effects != [] {
      RowsAreKept(rows, effects[..|effects| - 1], now);
    }
  }

  /** An id that was not recorded and is now, is there with its effect. */
  lemma {:induction false} NewlyRecordedRan(l: Ledger, hs: seq<Handling>, id: MergerId)
    requires id in HandleAll(l, hs).recorded && id !in l.recorded
    ensures l.effects <= HandleAll(l, hs).effects
    ensures exists h :: h in hs && h.effect.id == id && h.effect in HandleAll(l, hs).effects[|l.effects|..]
  {
    EffectsGrow(l, hs);
    if hs != [] {
      var front, last := hs[..|hs| - 1], hs[|hs| - 1];
      EffectsGrow(l, front);
      var l1, l2 := HandleAll(l, front), HandleAll(l, hs);
      if id in l1.recorded {
        NewlyRecordedRan(l, front, id);
        var h :| h in front && h.effect.id == id && h.effect in l1.effects[|l.effects|..];
        assert l1.effects[|l.effects|..] <= l2.effects[|l.effects|..];
        assert h in hs;
      } else {
        assert last in hs && l2.effects[|l.effects|..][|l1.effects| - |l.effects|] == last.effect;
      }
    }
  }

  lemma {:induction false} EffectsGrow(l: Ledger, hs: seq<Handling>)
    ensures l.effects <= HandleAll(l, hs).effects
  {
    if hs != [] {
      EffectsGrow(l, hs[..|hs| - 1]);
    }
  }

  /** Handlings of merges of the collection. */
  ghost predicate AllFrom(mergers: set<Merger>, hs: seq<Handling>) {
    forall h :: h in hs ==> exists m :: m in mergers && h == HandlingOf(m)
  }

  lemma NoneYet(mergers: set<Merger>)
    ensures AllFrom(mergers, [])
  {
  }

  lemma MoreFrom(mergers: set<Merger>, hs: seq<Handling>, data: seq<Merger>)
    requires AllFrom(mergers, hs) && forall m :: m in data ==> m in mergers
    ensures AllFrom(mergers, hs + Handlings(data))
  {
    forall h | h in Handlings(data) ensures exists m :: m in mergers && h == HandlingOf(m) {
      var i :| 0 <= i < |data| && h == Handlings(data)[i];
      assert data[i] in mergers;
    }
  }

  /** Each merge that was not recorded before and is now shows in the tables. */
  ghost predicate NewOnesApplied(mergers: set<Merger>, recorded0: set<MergerId>, recorded: set<MergerId>,
                                 rows: map<Id, Row>, hydrations: set<Id>) {
    forall m :: m in mergers && Named(m.id) in recorded - recorded0 ==> IsApplied(m, rows, hydrations)
  }

  lemma RecordedIsApplied(l: Ledger, hs: seq<Handling>, mergers: set<Merger>, l': Ledger, rows0: map<Id, Row>, hydrations0: set<Id>,
                          rows: map<Id, Row>, hydrations: set<Id>, now: Time)
    requires AllFrom(mergers, hs) && l' == HandleAll(l, hs)
    requires forall m, n :: m in mergers && n in mergers && m.id == n.id ==> m == n
    requires TablesFollow(rows0, hydrations0, l.effects, rows, hydrations, l'.effects, now)
    ensures NewOnesApplied(mergers, l.recorded, l'.recorded, rows, hydrations)
  {
    var since := l'.effects[|l.effects|..];
    RowsAreKept(rows0, since, now);
    forall m | m in mergers && Named(m.id) in l'.recorded - l.recorded ensures IsApplied(m, rows, hydrations) {
      NewlyRecordedRan(l, hs, Named(m.id));
      var h :| h in hs && h.effect.id == Named(m.id) && h.effect in since;
      assert h == HandlingOf(m);
      if m.gone in rows {
        EffectsBury(rows0, since, now, m.gone);
      }
    }
  }

  // ----- the poll ---------------------------------------------------------------------

  /** `/person_mergers`: every request may order equal stamps differently, and may fail. */
  datatype Remote = Remote(mergers: set<Merger>, order: (nat, Option<Time>) -> seq<Merger>, fails: nat -> bool)

  function Matching(mergers: set<Merger>, lo: Option<Time>): set<Merger> {
    set m | m in mergers && (lo.Some? ==> m.createdAt >= lo.value)
  }

  ghost predicate Faithful(remote: Remote) {
    && (forall m, n :: m in remote.mergers && n in remote.mergers && m.id == n.id ==> m == n)
    && forall k, lo :: Lists(remote.order(k, lo), Matching(remote.mergers, lo)) && Sorted(remote.order(k, lo), CreatedAt)
  }

  function InSecond(mergers: set<Merger>, t: Time): set<Merger> {
    set m | m in mergers && m.createdAt == t
  }

  /** Fewer merges than a page holds share any one second. */
  ghost predicate NoSecondFillsAPage(mergers: set<Merger>) {
    forall t :: |InSecond(mergers, t)| < PER_PAGE
  }

  function Unrecorded(mergers: set<Merger>, recorded: set<MergerId>): set<Merger> {
    set m | m in mergers && Named(m.id) !in recorded
  }

  function After(mergers: set<Merger>, lo: Option<Time>): set<Merger> {
    set m | m in mergers && (lo.Some? ==> m.createdAt > lo.value)
  }

  function PastWatermark(mergers: set<Merger>, wm: Option<Time>): nat {
    if wm.None? then |mergers| + 1 else |After(mergers, wm)|
  }

  /** Every merge stamped from `lo` up to, not including, the watermark is recorded. */
  ghost predicate RecordedBelow(mergers: set<Merger>, lo: Option<Time>, wm: Option<Time>, recorded: set<MergerId>) {
    forall m :: m in Matching(mergers, lo) && wm.Some? && m.createdAt < wm.value ==> Named(m.id) in recorded
  }

  ghost predicate RecordedFrom(mergers: set<Merger>, lo: Option<Time>, recorded: set<MergerId>) {
    forall m :: m in Matching(mergers, lo) ==> Named(m.id) in recorded
  }

  function MaxStamp(wm: Option<Time>, t: Time): Option<Time> {
    if wm.Some? && wm.value >= t then wm else Some(t)
  }

  predicate NotBefore(wm: Option<Time>, lo: Option<Time>) {
    lo.Some? ==> wm.Some? && wm.value >= lo.value
  }

  /** A full page all in one second would be a hundred merges in that second. */
  lemma AFullPageSpansSeconds(remote: Remote, k: nat, t: Time)
    requires Faithful(remote) && NoSecondFillsAPage(remote.mergers)
    ensures var data := Slice(remote.order(k, Some(t)), 0);
            |data| == PER_PAGE ==> Newest(data, CreatedAt) > t
  {
    var all, data := remote.order(k, Some(t)), Slice(remote.order(k, Some(t)), 0);
    FirstSliceIsAWindow(all, Matching(remote.mergers, Some(t)), CreatedAt);
    assert Lists(all, Matching(remote.mergers, Some(t)));
    if |data| == PER_PAGE && Newest(data, CreatedAt) <= t {
      assert forall i :: 0 <= i < |data| ==> all[i] == data[i];
      assert forall m :: m in data ==> CreatedAt(m) <= t;
      DistinctCount(data, InSecond(remote.mergers, t));
    }
  }

  lemma NoMergerYet(l: Ledger, data: seq<Merger>)
    ensures HandleAll(l, Handlings(data[..0])) == l && Names(data[..0]) == {}
  {
  }

  lemma OneMoreMerger(l: Ledger, wm: Option<Time>, data: seq<Merger>, i: nat)
    requires i < |data|
    ensures HandleAll(l, Handlings(data[..i + 1])) == Handle(HandleAll(l, Handlings(data[..i])), HandlingOf(data[i]))
    ensures Names(data[..i + 1]) == Names(data[..i]) + {Named(data[i].id)}
    ensures MaxStamp(wm, Newest(data[..i + 1], CreatedAt)) ==
            MaxStamp(if i == 0 then wm else MaxStamp(wm, Newest(data[..i], CreatedAt)), data[i].createdAt)
  {
    assert data[..i + 1] == data[..i] + [data[i]];
    assert data[..i + 1][..i] == data[..i];
    assert Handlings(data[..i + 1])[..i] == Handlings(data[..i]);
  }

  /** The next poll asks for the last second again and for nothing older. */
  ghost predicate NoneAfter(mergers: set<Merger>, wm: Option<Time>) {
    forall m :: m in mergers ==> wm.Some? && m.createdAt <= wm.value
  }

  lemma AnEmptyPageIsTheEnd(mergers: set<Merger>, wm: Option<Time>)
    requires Matching(mergers, wm) == {}
    ensures NoneAfter(mergers, wm)
  {
    forall m | m in mergers ensures wm.Some? && m.createdAt <= wm.value {
      assert m !in Matching(mergers, wm);
    }
  }

  lemma AShortPageIsTheEnd(mergers: set<Merger>, before: Option<Time>, data: seq<Merger>)
    requires data != [] && forall m :: m in Matching(mergers, before) ==> m in data
    ensures NoneAfter(mergers, MaxStamp(before, Newest(data, CreatedAt)))
  {
    forall m | m in mergers ensures m.createdAt <= MaxStamp(before, Newest(data, CreatedAt)).value {
      if m in Matching(mergers, before) {
        assert CreatedAt(m) <= Newest(data, CreatedAt);
      }
    }
  }

  lemma NothingPastTheWatermark(mergers: set<Merger>, lo: Option<Time>, wm: Option<Time>, recorded: set<MergerId>)
    requires RecordedBelow(mergers, lo, wm, recorded) && Matching(mergers, wm) == {}
    ensures RecordedFrom(mergers, lo, recorded)
  {
    forall m | m in Matching(mergers, lo) ensures Named(m.id) in recorded {
      assert m !in Matching(mergers, wm);
    }
  }

  class MergerSync {
    var rows: map<Id, Row>
    var recorded: set<MergerId>
    var hydrations: set<Id>
    var watermark: Option<Time>
    var requests: nat
    ghost var effects: seq<Effect>

    constructor (rows: map<Id, Row>)
      ensures this.rows == rows && recorded == {} && hydrations == {} && watermark.None? && effects == [] && requests == 0
    {
      this.rows, recorded, hydrations, watermark, requests := rows, {}, {}, None, 0;
      effects := [];
    }

    ghost function State(): Ledger
      reads this
    {
      Ledger(recorded, effects)
    }

    /** The body the poll and the webhook share: tombstone, hydrate, and record last. */
    method ApplyMerge(id: MergerId, keep: Option<Id>, gone: Option<Id>, now: Time) returns (applied: bool)
      modifies `rows, `recorded, `hydrations, `effects
      ensures applied == (id !in old(recorded))
      ensures State() == Handle(old(State()), Handling(Effect(id, keep, gone), false))
      ensures rows == if applied then Buried(old(rows), gone, keep, now) else old(rows)
      ensures hydrations == if applied && keep.Some? then old(hydrations) + {keep.value} else old(hydrations)
      ensures TablesFollow(old(rows), old(hydrations), old(effects), rows, hydrations, effects, now)
    {
      hide BuriedAll, Keepers;
      TablesFollowThemselves(rows, hydrations, effects, now);
      OneEffect(rows, hydrations, effects, Effect(id, keep, gone), now);
      if id in recorded {
        return false;
      }
      if gone.Some? && gone.value in rows {
        rows := rows[gone.value := BuryRow(rows[gone.value], None, Merged, keep, now)];
      }
      if keep.Some? {
        hydrations := hydrations + {keep.value};
      }
      effects := effects + [Effect(id, keep, gone)];
      recorded := recorded + {id};
      return true;
    }

    method HandleMerge(d: Delivery, now: Time)
      modifies `rows, `recorded, `hydrations, `effects
      ensures State() == Handle(old(State()), Handling(Effect(NameOf(d), d.keep, d.gone), false))
      ensures NameOf(d) in recorded
      ensures TablesFollow(old(rows), old(hydrations), old(effects), rows, hydrations, effects, now)
    {
      var _ := ApplyMerge(NameOf(d), d.keep, d.gone, now);
    }

    /** One page of the poll. */
    method ApplyPage(data: seq<Merger>, now: Time) returns (wm: Option<Time>, newly: nat)
      requires data != []
      modifies `rows, `recorded, `hydrations, `effects
      ensures State() == HandleAll(old(State()), Handlings(data))
      ensures recorded == old(recorded) + Names(data)
      ensures wm == MaxStamp(old(watermark), Newest(data, CreatedAt))
      ensures newly == 0 <==> Names(data) <= old(recorded)
      ensures TablesFollow(old(rows), old(hydrations), old(effects), rows, hydrations, effects, now)
    {
      hide HandleAll, Handlings, Names, Newest, MaxStamp, Buried, TablesFollow;
      wm, newly := watermark, 0;
      TablesFollowThemselves(rows, hydrations, effects, now);
      NoMergerYet(State(), data);
      for i := 0 to |data|
        invariant State() == HandleAll(old(State()), Handlings(data[..i]))
        invariant recorded == old(recorded) + Names(data[..i])
        invariant wm == if i == 0 then old(watermark) else MaxStamp(old(watermark), Newest(data[..i], CreatedAt))
        invariant newly == 0 <==> Names(data[..i]) <= old(recorded)
        invariant TablesFollow(old(rows), old(hydrations), old(effects), rows, hydrations, effects, now)
      {
        ghost var rows1, hydrations1, effects1 := rows, hydrations, effects;
        var m := data[i];
        OneMoreMerger(old(State()), old(watermark), data, i);
        wm := MaxStamp(wm, m.createdAt);
        var applied := ApplyMerge(Named(m.id), Some(m.keep), Some(m.gone), now);
        TablesFollowOn(old(rows), old(hydrations), old(effects), rows1, hydrations1, effects1, rows, hydrations, effects, now);
        if applied {
          newly := newly + 1;
        }
      }
      assert data[..|data|] == data;
    }

    /**
     * Tails the collection from the watermark. It always ends; what it records it has
     * applied; and if every request it makes is answered and no second fills a page, it
     * has recorded every merge at or after the watermark.
     */
    method Poll(remote: Remote, now: Time) returns (ghost hs: seq<Handling>)
      requires Faithful(remote)
      modifies this
      ensures State() == HandleAll(old(State()), hs)
      ensures old(recorded) <= recorded && NotBefore(watermark, old(watermark))
      ensures RecordedBelow(remote.mergers, old(watermark), watermark, recorded)
      ensures old(requests) < requests
      ensures (forall k :: old(requests) <= k < requests ==> !remote.fails(k)) && NoSecondFillsAPage(remote.mergers) ==>
                RecordedFrom(remote.mergers, old(watermark), recorded) && NoneAfter(remote.mergers, watermark)
      ensures TablesFollow(old(rows), old(hydrations), old(effects), rows, hydrations, effects, now)
      ensures NewOnesApplied(remote.mergers, old(recorded), recorded, rows, hydrations)
    {
      hide Newest, Sorted, Unrecorded, PastWatermark, NoSecondFillsAPage, TablesFollow, NewOnesApplied, AllFrom, NoneAfter, RecordedFrom;
      hs := [];
      TablesFollowThemselves(rows, hydrations, effects, now);
      NoneYet(remote.mergers);
      while true
        invariant State() == HandleAll(old(State()), hs)
        invariant old(recorded) <= recorded && NotBefore(watermark, old(watermark))
        invariant RecordedBelow(remote.mergers, old(watermark), watermark, recorded)
        invariant old(requests) <= requests
        invariant TablesFollow(old(rows), old(hydrations), old(effects), rows, hydrations, effects, now)
        invariant AllFrom(remote.mergers, hs)
        decreases |Unrecorded(remote.mergers, recorded)| + PastWatermark(remote.mergers, watermark)
      {
        var k := requests;
        requests := requests + 1;
        var data := if remote.fails(k) then [] else Slice(remote.order(k, watermark), 0);
        ghost var all := Matching(remote.mergers, watermark);
        FirstSliceIsAWindow(remote.order(k, watermark), all, CreatedAt);
        if data == [] {
          if !remote.fails(k) {
            AnEmptyPageIsTheEnd(remote.mergers, watermark);
            NothingPastTheWatermark(remote.mergers, old(watermark), watermark, recorded);
          }
          break;
        }
        var before := watermark;
        ghost var recorded0 := recorded;
        var wm, newlyApplied;
        ghost var rows1, hydrations1, effects1 := rows, hydrations, effects;
        wm, newlyApplied := ApplyPage(data, now);
        TablesFollowOn(old(rows), old(hydrations), old(effects), rows1, hydrations1, effects1, rows, hydrations, effects, now);
        HandleAppend(old(State()), hs, Handlings(data));
        MoreFrom(remote.mergers, hs, data);
        hs := hs + Handlings(data);
        PageIsRecorded(remote.mergers, old(watermark), before, data, recorded0, recorded);
        watermark := wm;
        if |data| < PER_PAGE {
          AShortPageIsTheEnd(remote.mergers, before, data);
        }
        if |data| < PER_PAGE || (newlyApplied == 0 && wm == before) {
          if |data| == PER_PAGE && NoSecondFillsAPage(remote.mergers) {
            AFullPageSpansSeconds(remote, k, wm.value);
          }
          break;
        }
        PageIsProgress(remote.mergers, before, data, recorded0, recorded);
      }
      RecordedIsApplied(old(State()), hs, remote.mergers, State(), old(rows), old(hydrations), rows, hydrations, now);
    }
  }

  /** What a routed page adds to what is recorded. */
  lemma PageIsRecorded(mergers: set<Merger>, lo: Option<Time>, before: Option<Time>, data: seq<Merger>,
                       recorded: set<MergerId>, recorded': set<MergerId>)
    requires data != [] && NotBefore(before, lo) && recorded <= recorded'
    requires RecordedBelow(mergers, lo, before, recorded)
    requires forall m :: m in data ==> m in Matching(mergers, before) && Named(m.id) in recorded'
    requires forall m :: m in Matching(mergers, before) && m !in data ==> m.createdAt >= Newest(data, CreatedAt)
    ensures var wm := MaxStamp(before, Newest(data, CreatedAt));
            NotBefore(wm, lo) && RecordedBelow(mergers, lo, wm, recorded')
    ensures (forall m :: m in Matching(mergers, before) ==> m in data) ==> RecordedFrom(mergers, lo, recorded')
  {
    forall m | m in Matching(mergers, lo) && m !in Matching(mergers, before) ensures Named(m.id) in recorded' {
      assert before.Some? && m.createdAt < before.value;
    }
  }

  /** A page that taught something, or moved the watermark, is progress. */
  lemma PageIsProgress(mergers: set<Merger>, before: Option<Time>, data: seq<Merger>,
                       recorded: set<MergerId>, recorded': set<MergerId>)
    requires data != [] && recorded <= recorded'
    requires forall m :: m in data ==> m in Matching(mergers, before) && Named(m.id) in recorded'
    requires var wm := MaxStamp(before, Newest(data, CreatedAt));
             wm != before || exists m :: m in data && Named(m.id) !in recorded
    ensures var wm := MaxStamp(before, Newest(data, CreatedAt));
            |Unrecorded(mergers, recorded')| + PastWatermark(mergers, wm)
            < |Unrecorded(mergers, recorded)| + PastWatermark(mergers, before)
  {
    var wm := MaxStamp(before, Newest(data, CreatedAt));
    SubsetIsNoLarger(Unrecorded(mergers, recorded'), Unrecorded(mergers, recorded));
    if before.Some? {
      SubsetIsNoLarger(After(mergers, wm), After(mergers, before));
    } else {
      SubsetIsNoLarger(After(mergers, wm), mergers);
    }
    if wm != before {
      if before.Some? {
        var top :| top in data && CreatedAt(top) == Newest(data, CreatedAt);
        ProperSubsetIsSmaller(After(mergers, wm), After(mergers, before), top);
      }
    } else {
      var m :| m in data && Named(m.id) !in recorded;
      ProperSubsetIsSmaller(Unrecorded(mergers, recorded'), Unrecorded(mergers, recorded), m);
    }
  }
}
