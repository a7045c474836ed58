/**
 * The verdict on a comparison and the promise it makes (`classify` and
 * `_sweep_converges` of pcomirror/divergence/rules.py, `_store_facts` of
 * pcomirror/divergence/__init__.py): `staleness` says the sweep will fix it.
 */
module Staleness {
  import opened Types
  import opened Rows
  import opened Stores
  import opened Writer
  import opened KeysetSync
  import opened Divergence

  datatype Verdict = Match | Stale | Divergent

  datatype Held = HeldLive | HeldTombstoned | HeldAbsent

  /** What the mirror's own tables hold for a record only one side returned. */
  datatype Fact = Fact(held: Held, tombstone: Option<Time>, watermark: Option<Time>)

  function UpdatedAt(d: Doc): Option<Time> {
    if "updated_at" in d.attributes && d.attributes["updated_at"].At? then Some(d.attributes["updated_at"].time) else None
  }

  function RowKey(key: RecordKey): Key
    requires key.kind.Mirrored?
  {
    Key(key.kind.table, key.id)
  }

  function FactAbout(rows: Store, watermarks: map<Table, Time>, key: RecordKey): Fact
    requires key.kind.Mirrored?
  {
    var k := RowKey(key);
    Fact(if k !in rows then HeldAbsent else if rows[k].Live() then HeldLive else HeldTombstoned,
         if k in rows then rows[k].tombstone else None,
         if k.table in watermarks then Some(watermarks[k.table]) else None)
  }

  /** The records only `side` returned whose absence from the other means something. */
  function Unexplained(mirror: Body, pco: Body, side: Side): set<RecordKey> {
    set k | k in Index(mirror).Keys + Index(pco).Keys && OneSided(mirror, pco, side, k) && !Windowed(mirror, pco, side, k)
  }

  /** Asks the store about every unexplained record of a mirrored type. */
  method StoreFacts(rows: Store, watermarks: map<Table, Time>, mirror: Body, pco: Body)
    returns (facts: map<RecordKey, Fact>)
    ensures forall k :: k in facts <==>
              k in Unexplained(mirror, pco, Mirror) + Unexplained(mirror, pco, Pco) && k.kind.Mirrored?
    ensures forall k :: k in facts ==> facts[k] == FactAbout(rows, watermarks, k)
  {
    facts := map[];
    var all := Unexplained(mirror, pco, Mirror) + Unexplained(mirror, pco, Pco);
    var todo := all;
    while todo != {}
      invariant todo <= all
      invariant forall k :: k in facts <==> k in all && k !in todo && k.kind.Mirrored?
      invariant forall k :: k in facts ==> facts[k] == FactAbout(rows, watermarks, k)
      decreases todo
    {
      var key :| key in todo;
      todo := todo - {key};
      if key.kind.Mirrored? {
        facts := facts[key := FactAbout(rows, watermarks, key)];
      }
    }
  }

  predicate SweepConverges(fact: Option<Fact>, upstream: Option<Time>) {
    if fact.None? then true
    else if fact.value.held.HeldLive? then false
    else if upstream.None? then false
    else if fact.value.watermark.Some? && upstream.value < fact.value.watermark.value then false
    else if fact.value.held.HeldTombstoned? then
      fact.value.tombstone.None? || upstream.value > fact.value.tombstone.value
    else true
  }

  /** The first document carries a later `updated_at` than the second. */
  ghost predicate IsNewer(a: Doc, b: Doc) {
    && "updated_at" in a.attributes && a.attributes["updated_at"].At?
    && "updated_at" in b.attributes && b.attributes["updated_at"].At?
    && a.attributes["updated_at"].time > b.attributes["updated_at"].time
  }

  predicate NewerUpstream(mirror: Body, pco: Body, key: RecordKey) {
    key in Index(mirror) && key in Index(pco) && Later(UpdatedAt(Index(pco)[key]), UpdatedAt(Index(mirror)[key]))
  }

  predicate MirrorIsBehind(mirror: Body, pco: Body) {
    exists k :: k in Index(mirror) && NewerUpstream(mirror, pco, k)
  }

  predicate OnlyAbsencesTheSweepWillFill(differences: seq<Difference>, mirror: Body, pco: Body, store: map<RecordKey, Fact>) {
    && Unexplained(mirror, pco, Pco) != {}
    && Unexplained(mirror, pco, Mirror) == {}
    && (forall d :: d in differences ==> AboutPresence(d))
    && (forall k :: k in Unexplained(mirror, pco, Pco) ==>
          SweepConverges(if k in store then Some(store[k]) else None, UpdatedAt(Index(pco)[k])))
  }

  method Classify(differences: seq<Difference>, mirror: Body, pco: Body, store: map<RecordKey, Fact>)
    returns (verdict: Verdict)
    ensures verdict.Match? <==> differences == []
    ensures verdict.Stale? ==> MirrorIsBehind(mirror, pco) || OnlyAbsencesTheSweepWillFill(differences, mirror, pco, store)
    ensures differences != [] && (exists k :: k in Index(mirror) && k in Index(pco) && IsNewer(Index(pco)[k], Index(mirror)[k])) ==> verdict.Stale?
    ensures differences != [] && OnlyAbsencesTheSweepWillFill(differences, mirror, pco, store) ==> verdict.Stale?
  {
    if differences == [] {
      return Match;
    }
    var mine := Resources(mirror);
    var theirs := Resources(pco);
    var todo := mine.Keys * theirs.Keys;
    while todo != {}
      invariant todo <= mine.Keys * theirs.Keys
      invariant forall k :: k in mine && k in theirs && k !in todo ==> !NewerUpstream(mirror, pco, k)
      decreases todo
    {
      var key :| key in todo;
      todo := todo - {key};
      if Later(UpdatedAt(theirs[key]), UpdatedAt(mine[key])) {
        return Stale;
      }
    }
    var onlyTheirs := Unexplained(mirror, pco, Pco);
    var onlyMine := Unexplained(mirror, pco, Mirror);
    if onlyTheirs != {} && onlyMine == {} {
      if forall d :: d in differences ==> AboutPresence(d) {
        if forall k :: k in onlyTheirs ==>
             SweepConverges(if k in store then Some(store[k]) else None, UpdatedAt(theirs[k]))
        {
          return Stale;
        }
      }
    }
    return Divergent;
  }

  /** The remote being swept still has this record, at the version just seen or a later one. */
  ghost predicate StillUpstream(records: set<Resource>, key: RecordKey, seen: Option<Time>, r: Resource)
    requires key.kind.Mirrored?
  {
    && r in records && TimedRecord(r) && KeyOf(r) == RowKey(key)
    && seen.Some? && r.payload.updatedAt.value >= seen.value
  }

  /** Live in `rows'` exactly if no merge had buried it in `rows`. */
  predicate LiveUnlessMerged(rows: Store, rows': Store, k: Key) {
    LiveAt(rows', k) <==> !(k in rows && rows[k].reason == Some(Merged))
  }

  /**
   * What `staleness` promises and when it keeps it. Take the facts of a store and a
   * watermark, a record they say will converge, and what a sweep from that
   * watermark does; the record ends live in the mirror exactly when no merge had
   * buried it -- the one reason the rule does not look at.
   */
  lemma ConvergesUnlessMerged(rows: Store, rows': Store, watermarks: map<Table, Time>, records: set<Resource>,
                              key: RecordKey, seen: Option<Time>, r: Resource)
    requires Sound(rows) && Sound(rows') && Enriches(rows, rows')
    requires key.kind.Mirrored? && StillUpstream(records, key, seen, r)
    requires SweepConverges(Some(FactAbout(rows, watermarks, key)), seen)
    requires SettledFrom(records, WatermarkOf(watermarks, key.kind.table), rows, rows')
    ensures RowKey(key) in rows' && !Poorer(rows'[RowKey(key)].raw, r.payload)
    ensures LiveUnlessMerged(rows, rows', RowKey(key))
  {
    var k := RowKey(key);
    assert AtOrAfter(r, WatermarkOf(watermarks, key.kind.table));
    assert Settled(rows, rows', r);
    if k in rows && rows[k].reason != Some(Merged) {
      assert !rows[k].Live() && Revives(rows[k], r.payload);
    }
  }

  function WatermarkOf(watermarks: map<Table, Time>, t: Table): Option<Time> {
    if t in watermarks then Some(watermarks[t]) else None
  }

  /** A record the facts say will not converge is, when the timestamp filter is to
      blame, one the sweep from that watermark never even asks for. */
  lemma BehindTheWatermarkIsNeverAsked(watermarks: map<Table, Time>, rows: Store, key: RecordKey, records: set<Resource>, r: Resource)
    requires key.kind.Mirrored? && TimedRecord(r) && KeyOf(r) == RowKey(key)
    requires FactAbout(rows, watermarks, key).held.HeldAbsent?
    ensures SweepConverges(Some(FactAbout(rows, watermarks, key)), r.payload.updatedAt) <==>
            r in Matching({r} + records, WatermarkOf(watermarks, key.kind.table))
  {
  }

  /** Without facts about a record the rule takes its absence for lag: then a report is stale
      whenever it is about presence alone and only the mirror lacks something. */
  lemma WithoutFactsAbsenceIsLag(differences: seq<Difference>, mirror: Body, pco: Body)
    ensures OnlyAbsencesTheSweepWillFill(differences, mirror, pco, map[]) <==>
              && (forall d :: d in differences ==> AboutPresence(d))
              && Unexplained(mirror, pco, Pco) != {} && Unexplained(mirror, pco, Mirror) == {}
  {
  }

  /** What only the mirror returned is never lag: unless Planning Center's page had a next one
      and the record is the mirror's own page's, it rules the verdict out. */
  lemma ExtrasAreNotLag(differences: seq<Difference>, mirror: Body, pco: Body, store: map<RecordKey, Fact>, k: RecordKey)
    requires OnlyAbsencesTheSweepWillFill(differences, mirror, pco, store)
    requires k in Index(mirror) && k !in Index(pco)
    ensures pco.more && exists d :: d in mirror.data && d.key == k
  {
    hide Index;
    assert OneSided(mirror, pco, Mirror, k);
    assert k !in Unexplained(mirror, pco, Mirror);
    assert k in Index(mirror).Keys + Index(pco).Keys;
  }

  /** The rule is exact: of a record Planning Center has with this stamp it says that the
      sweep will bring it back just if the mirror does not hold it live, the sweep's filter
      asks for it, and the write that brings it would revive the row -- a merge set aside. */
  lemma ConvergesExactly(rows: Store, watermarks: map<Table, Time>, key: RecordKey, r: Resource)
    requires key.kind.Mirrored? && TimedRecord(r) && KeyOf(r) == RowKey(key) && CoherentStore(rows)
    ensures var k := RowKey(key);
            SweepConverges(Some(FactAbout(rows, watermarks, key)), r.payload.updatedAt) <==>
              && !LiveAt(rows, k)
              && AtOrAfter(r, WatermarkOf(watermarks, key.kind.table))
              && (k in rows ==> UpsertRow(rows[k].(reason := Some(Destroyed)), r.payload).Live())
  {
  }

  lemma ThePromiseIsKept(rows: Store, rows': Store, watermarks: map<Table, Time>, records: set<Resource>,
                         differences: seq<Difference>, mirror: Body, pco: Body, facts: map<RecordKey, Fact>, k: RecordKey)
    requires Sound(rows) && Sound(rows') && Enriches(rows, rows')
    requires k in Unexplained(mirror, pco, Pco) && k.kind.Mirrored? && k in facts && facts[k] == FactAbout(rows, watermarks, k)
    requires OnlyAbsencesTheSweepWillFill(differences, mirror, pco, facts)
    requires UpdatedAt(Index(pco)[k]).Some? ==> exists r :: StillUpstream(records, k, UpdatedAt(Index(pco)[k]), r)
    requires SettledFrom(records, WatermarkOf(watermarks, k.kind.table), rows, rows')
    ensures LiveUnlessMerged(rows, rows', RowKey(k))
  {
    hide Sound, Enriches, SettledFrom, StillUpstream;
    var seen := UpdatedAt(Index(pco)[k]);
    assert SweepConverges(Some(facts[k]), seen);
    var r :| StillUpstream(records, k, seen, r);
    ConvergesUnlessMerged(rows, rows', watermarks, records, k, seen, r);
  }

  lemma NobodyIsBehind(mirror: Body, pco: Body)
    ensures (forall k :: k in Index(mirror) && k in Index(pco) ==> !IsNewer(Index(pco)[k], Index(mirror)[k])) ==>
              !MirrorIsBehind(mirror, pco)
  {
    hide Index;
  }

  /**
   * One check and the sweep of one table after it, end to end: the page is compared, the
   * store is asked, the verdict is given, and the sweep runs over a remote that still
   * holds what Planning Center just returned of that table. What the page returned of
   * other tables, and the watermarks of those, are free.
   */
  method CheckThenSweep(ingestor: Ingestor, remote: Remote, table: Table, others: map<Table, Time>, mirror: Body, pco: Body,
                        mirrorStatus: int, pcoStatus: int)
    returns (verdict: Verdict)
    requires Sound(ingestor.writer.rows) && Faithful(remote)
    requires forall k :: k in Unexplained(mirror, pco, Pco) && k.kind == Mirrored(table) && UpdatedAt(Index(pco)[k]).Some? ==>
               exists r :: StillUpstream(remote.records, k, UpdatedAt(Index(pco)[k]), r)
    requires forall k :: k in Index(mirror) && k in Index(pco) ==> !IsNewer(Index(pco)[k], Index(mirror)[k])
    modifies ingestor, ingestor.writer
    ensures verdict.Stale?
            && DrainsAnswered(remote, old(ingestor.requests), ingestor.requests)
            && PagesAnswered(remote, old(ingestor.requests), ingestor.requests) ==>
              forall k :: k in Unexplained(mirror, pco, Pco) && k.kind == Mirrored(table) ==>
                LiveUnlessMerged(old(ingestor.writer.rows), ingestor.writer.rows, RowKey(k))
  {
    hide Sound, Faithful, Enriches, SettledFrom, SettledBelow, Index, DrainsAnswered, PagesAnswered, RouteAll, Sweep, IsNewer,
      Carried, Page, MirrorIsBehind, OnlyAbsencesTheSweepWillFill, LiveUnlessMerged;
    NobodyIsBehind(mirror, pco);
    var differences := Compare(mirror, pco, mirrorStatus, pcoStatus);
    var watermarks := if ingestor.watermark.Some? then others[table := ingestor.watermark.value] else others - {table};
    var facts := StoreFacts(ingestor.writer.rows, watermarks, mirror, pco);
    verdict := Classify(differences, mirror, pco, facts);
    ghost var before, from := ingestor.writer.rows, ingestor.requests;
    ingestor.IncrementalSweep(remote);
    if verdict.Stale? && DrainsAnswered(remote, from, ingestor.requests) && PagesAnswered(remote, from, ingestor.requests) {
      forall k | k in Unexplained(mirror, pco, Pco) && k.kind == Mirrored(table)
        ensures LiveUnlessMerged(before, ingestor.writer.rows, RowKey(k))
      {
        ThePromiseIsKept(before, ingestor.writer.rows, watermarks, remote.records, differences, mirror, pco, facts, k);
      }
    }
  }
}
