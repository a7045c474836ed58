/**
 * What a round of the delete audit may have done and must leave behind: the values its
 * statements work on, the invariants they keep, and the outcome those add up to
 * (pcomirror/ingest.py, `delete_audit_step`).
 */
module AuditRound {
  import opened Types
  import opened Rows
  import opened Paging
  import opened AuditListing

  const AUDIT_RESTORE_LIMIT: nat := 500

  /** One upstream request, as it goes on the wire. */
  datatype Request = List(query: Query) | Get(id: Id)

  /** What a GET of one record answers; `Empty` is a success that carries no record. */
  datatype Answer = NotFound | Found(payload: Payload) | Empty | Failed

  /**
   * Everything the audit cannot see the inside of, by number of the request or of
   * the statement: what a listing and a GET answer, what other threads do to the
   * table between two statements, and what time it is. A listing that fails reads
   * as an empty page.
   */
  datatype Service = Service(
    list: (nat, Query) -> seq<Listed>,
    get: (nat, Id) -> Answer,
    others: (nat, map<Id, Row>) -> map<Id, Row>,
    now: nat -> Time)

  function Clock(service: Service, k: nat): Time {
    service.now(k)
  }

  function Reply(service: Service, k: nat, id: Id): Answer {
    service.get(k, id)
  }

  function ListReply(service: Service, k: nat, q: Query): seq<Listed> {
    service.list(k, q)
  }

  function Others(service: Service, k: nat, rows: map<Id, Row>): map<Id, Row> {
    service.others(k, rows)
  }

  /** What survives a crash: the table, the scratch sets and the round. */
  datatype Disk = Disk(rows: map<Id, Row>, candidate: set<Id>, known: set<Id>, live: set<Id>, round: Option<Round>)

  // ----- the audit's own statements ---------------------------------------------------

  /** What one statement of the audit does to the table; `heard` is the number of the
      request whose answer it heeds. */
  datatype Write =
    | NoWrite
    | Bury(id: Id, heard: nat)
    | Affirm(id: Id, payload: Payload, heard: nat)
    | Fill(id: Id, payload: Payload, heard: nat)

  function Written(rows: map<Id, Row>, write: Write, now: Time): map<Id, Row> {
    match write
    case NoWrite => rows
    case Bury(id, _) => if id in rows then rows[id := BuryRow(rows[id], None, AuditAbsent, None, now)] else rows
    case Affirm(id, p, _) => rows[id := NewRow(p)]
    case Fill(id, p, _) => rows[id := NewRow(p)]
  }

  lemma WritingNothing(rows: map<Id, Row>, now: Time)
    ensures Written(rows, NoWrite, now) == rows
  {
  }

  /** The table after the statements of this trail from number `from` on, other threads
      writing before each of them. */
  function Replay(service: Service, rows: map<Id, Row>, trail: seq<Write>, from: nat): map<Id, Row>
    requires from <= |trail|
  {
    if |trail| == from then rows
    else
      var n := |trail|;
      Written(Others(service, n, Replay(service, rows, trail[..n - 1], from)), trail[n - 1], Clock(service, n))
  }

  /** The request a statement names was really made, and answered what it heeds. */
  predicate Justified(service: Service, log: seq<Request>, asked: nat, write: Write) {
    match write
    case NoWrite => true
    case Bury(id, k) => asked <= k < |log| && log[k] == Get(id) && Reply(service, k, id).NotFound?
    case Affirm(id, p, k) => asked <= k < |log| && log[k] == Get(id) && Reply(service, k, id) == Found(p)
    case Fill(id, p, k) => asked <= k < |log| && log[k] == Get(id) && Reply(service, k, id) == Found(p)
  }

  function Buried(trail: seq<Write>, from: nat): set<Id> {
    set i | from <= i < |trail| && trail[i].Bury? :: trail[i].id
  }

  function Filled(trail: seq<Write>, from: nat): set<Id> {
    set i | from <= i < |trail| && trail[i].Fill? :: trail[i].id
  }

  /** The rows written, those of them whose count a crash may have lost -- its scratch row
      is gone, the counter not saved -- and those written but then found otherwise. */
  datatype Tally = Tally(made: set<Id>, unsaved: set<Id>, undone: set<Id>)

  const NoTally := Tally({}, {}, {})

  /** The round so far: the rows it started from, how many statements and requests there
      were by then, the ids the enumeration collected, and what was buried and restored. */
  datatype History = History(rows0: map<Id, Row>, since: nat, asked: nat, enumerated: set<Id>, burials: Tally, fills: Tally)

  function Noted(h: History, write: Write): History {
    match write
    case Bury(id, _) => h.(burials := h.burials.(made := h.burials.made + {id}))
    case Fill(id, _, _) => h.(fills := h.fills.(made := h.fills.made + {id}))
    case _ => h
  }

  /** The history does not lie. The table is what the snapshot was, rewritten by nothing
      but other threads and the logged statements; each of these names the request that
      justifies it. */
  ghost predicate Vouched(service: Service, log: seq<Request>, trail: seq<Write>, rows: map<Id, Row>, h: History) {
    && h.since <= |trail| && h.asked <= |log|
    && rows == Replay(service, h.rows0, trail, h.since)
    && (forall i :: h.since <= i < |trail| ==> Justified(service, log, h.asked, trail[i]))
    && h.burials.made == Buried(trail, h.since)
    && h.fills.made == Filled(trail, h.since)
  }

  lemma ANewRoundIsVouched(service: Service, log: seq<Request>, trail: seq<Write>, rows: map<Id, Row>)
    ensures Vouched(service, log, trail, rows, History(rows, |trail|, |log|, {}, NoTally, NoTally))
  {
  }

  /** One more statement. */
  lemma CommittingIsVouched(service: Service, log: seq<Request>, trail: seq<Write>, rows: map<Id, Row>, h: History, write: Write)
    requires Vouched(service, log, trail, rows, h) && Justified(service, log, h.asked, write)
    ensures var n := |trail| + 1;
            Vouched(service, log, trail + [write], Written(Others(service, n, rows), write, Clock(service, n)), Noted(h, write))
  {
    var trail' := trail + [write];
    assert trail'[..|trail|] == trail;
    forall i | h.since <= i < |trail'| ensures Justified(service, log, h.asked, trail'[i]) {
      assert i < |trail| ==> trail'[i] == trail[i];
    }
    BuriedGrows(trail, h.since, write);
  }

  lemma BuriedGrows(trail: seq<Write>, from: nat, write: Write)
    requires from <= |trail|
    ensures Buried(trail + [write], from) == Buried(trail, from) + if write.Bury? then {write.id} else {}
    ensures Filled(trail + [write], from) == Filled(trail, from) + if write.Fill? then {write.id} else {}
  {
    var trail' := trail + [write];
    assert trail'[|trail|] == write;
    forall i | from <= i < |trail| ensures trail'[i] == trail[i] {
    }
  }

  /** One more request. */
  lemma RequestingIsVouched(service: Service, log: seq<Request>, trail: seq<Write>, rows: map<Id, Row>, h: History, r: Request)
    requires Vouched(service, log, trail, rows, h)
    ensures Vouched(service, log + [r], trail, rows, h)
  {
    forall i | h.since <= i < |trail| ensures Justified(service, log + [r], h.asked, trail[i]) {
      assert Justified(service, log, h.asked, trail[i]);
    }
  }

  // ----- safety: in every run -------------------------------------------------------

  function LiveIds(rows: map<Id, Row>): set<Id> {
    set id | id in rows && rows[id].Live()
  }

  predicate IsLeast(ids: set<Id>, id: Id) {
    id in ids && forall other :: other in ids ==> id <= other
  }

  lemma LeastIsIn(ids: set<Id>, id: Id)
    requires IsLeast(ids, id)
    ensures id in ids
  {
  }

  /** A saved counter against what was written: what is neither pending nor lost nor undone. */
  predicate Counted(n: nat, t: Tally, pending: set<Id>) {
    && t.unsaved + t.undone <= t.made - pending && t.unsaved !! t.undone
    && n + |t.unsaved| + |t.undone| == |t.made - pending|
  }

  /** Only a row that was live at the snapshot and never enumerated is buried, and the
      counters miss exactly what a crash lost and what was undone. */
  ghost predicate Safe(d: Disk, h: History) {
    && h.burials.made <= LiveIds(h.rows0) - h.enumerated
    && (d.round.Some? ==> SafeRound(d, h, d.round.value))
  }

  ghost predicate SafeRound(d: Disk, h: History, st: Round) {
    && d.candidate <= LiveIds(h.rows0)
    && match st.phase
       case Enumerate =>
         && h.burials == NoTally && h.fills == NoTally && st.tombstoned == 0 && st.restored == 0
         && d.candidate * h.enumerated <= d.live
       case Confirm =>
         && d.candidate * h.enumerated == {} && Counted(st.tombstoned, h.burials, d.candidate)
         && h.fills == NoTally && st.restored == 0
       case Restore =>
         && d.candidate == {} && Counted(st.tombstoned, h.burials, {})
         && Counted(st.restored, h.fills, d.live) && Underway(d.live, h.fills.made, st.restored)
         && st.restored <= AUDIT_RESTORE_LIMIT
  }

  /** Of the gaps that are filled only the one a crash interrupted still has its scratch
      row, and it is the next one's turn. */
  predicate Underway(live: set<Id>, made: set<Id>, restored: nat) {
    && (forall id :: id in live * made ==> IsLeast(live, id))
    && (live * made != {} ==> restored < AUDIT_RESTORE_LIMIT)
  }

  /** The same round, further on: what it wrote stays written, what a crash lost stays lost. */
  ghost predicate Continues(h: History, h': History) {
    && h'.rows0 == h.rows0 && h'.since == h.since && h'.asked == h.asked && h.enumerated <= h'.enumerated
    && h.burials.made <= h'.burials.made && h.burials.unsaved <= h'.burials.unsaved
    && h.fills.made <= h'.fills.made && h.fills.unsaved <= h'.fills.unsaved
  }

  lemma ContinuesItself(h: History)
    ensures Continues(h, h)
  {
  }

  /** A scratch row is dropped, and then its count is saved. */
  lemma DroppedContinues(h: History, pid: Id, counts: bool)
    ensures var dropped := h.(burials := Dropped(h.burials, pid, counts));
            && Continues(h, dropped)
            && (pid !in h.burials.unsaved ==> Continues(h, dropped.(burials := Saved(dropped.burials, pid))))
    ensures var dropped := h.(fills := Dropped(h.fills, pid, counts));
            && Continues(h, dropped)
            && (pid !in h.fills.unsaved ==> Continues(h, dropped.(fills := Saved(dropped.fills, pid))))
  {
  }

  /** Both: what every statement keeps, whatever other threads do and whatever fails. */
  ghost predicate Trusted(service: Service, log: seq<Request>, trail: seq<Write>, d: Disk, h: History) {
    Safe(d, h) && Vouched(service, log, trail, d.rows, h)
  }

  /** In every run, whatever other threads write and whatever fails: each tombstone this
      round wrote is a statement on a record that was live at the snapshot, was never
      enumerated, and whose own GET was made in this round and heard a 404. */
  lemma NoBurialWithoutEvidence(service: Service, log: seq<Request>, trail: seq<Write>, d: Disk, h: History, i: nat)
    requires Trusted(service, log, trail, d, h)
    requires h.since <= i < |trail| && trail[i].Bury?
    ensures trail[i].id in LiveIds(h.rows0) - h.enumerated
    ensures exists k :: h.asked <= k < |log| && log[k] == Get(trail[i].id) && Reply(service, k, trail[i].id).NotFound?
  {
    assert trail[i].id in Buried(trail, h.since);
    assert Justified(service, log, h.asked, trail[i]);
  }

  ghost predicate LeaveAlone(service: Service, id: Id) {
    forall k, rows :: var rows' := Others(service, k, rows);
      (id in rows' <==> id in rows) && (id in rows ==> rows'[id] == rows[id])
  }

  /** So a row no other thread touches, live at the snapshot and buried now, has been
      answered 404 itself and was never listed. */
  lemma BuriedRowsWereAnswered(service: Service, log: seq<Request>, trail: seq<Write>, d: Disk, h: History, id: Id)
    requires Trusted(service, log, trail, d, h) && LeaveAlone(service, id)
    requires id in h.rows0 && h.rows0[id].Live() && id in d.rows && !d.rows[id].Live()
    ensures id !in h.enumerated
    ensures exists k :: h.asked <= k < |log| && log[k] == Get(id) && Reply(service, k, id).NotFound?
  {
    UnburiedRowsStayLive(service, h.rows0, trail, h.since, id);
    var i :| h.since <= i < |trail| && trail[i].Bury? && trail[i].id == id;
    NoBurialWithoutEvidence(service, log, trail, d, h, i);
  }

  lemma {:induction false} UnburiedRowsStayLive(service: Service, rows: map<Id, Row>, trail: seq<Write>, from: nat, id: Id)
    requires from <= |trail| && LeaveAlone(service, id) && id in rows && rows[id].Live()
    ensures id in Replay(service, rows, trail, from)
    ensures id !in Buried(trail, from) ==> Replay(service, rows, trail, from)[id].Live()
  {
    if |trail| > from {
      var front, write := trail[..|trail| - 1], trail[|trail| - 1];
      UnburiedRowsStayLive(service, rows, front, from, id);
      assert trail == front + [write];
      BuriedGrows(front, from, write);
      OneStatementBuriesItsOwn(service, |trail|, Replay(service, rows, front, from), write, id);
      hide Written, LeaveAlone, Buried, Filled;
    }
  }

  lemma OneStatementBuriesItsOwn(service: Service, n: nat, rows: map<Id, Row>, write: Write, id: Id)
    requires LeaveAlone(service, id) && id in rows
    ensures var rows' := Written(Others(service, n, rows), write, Clock(service, n));
            id in rows' && (rows[id].Live() && !(write.Bury? && write.id == id) ==> rows'[id].Live())
  {
    hide BuryRow;
  }

  /** Nothing pending, a counter is exact exactly if no count was lost and none undone. */
  lemma CountersAreExactUnlessLost(n: nat, t: Tally)
    requires Counted(n, t, {})
    ensures n <= |t.made|
    ensures n == |t.made| <==> t.unsaved == {} && t.undone == {}
  {
    assert t.made - {} == t.made;
  }

  // ----- how the counters keep up -------------------------------------------------------

  /** The scratch row of `pid` goes; its count is not saved yet. */
  function Dropped(t: Tally, pid: Id, counts: bool): Tally {
    if counts then t.(unsaved := t.unsaved + {pid})
    else if pid in t.made then t.(undone := t.undone + {pid}) else t
  }

  function Saved(t: Tally, pid: Id): Tally {
    t.(unsaved := t.unsaved - {pid})
  }

  lemma DroppingKeepsCount(n: nat, t: Tally, pending: set<Id>, pid: Id, counts: bool)
    requires Counted(n, t, pending) && pid in pending && (counts ==> pid in t.made)
    ensures Counted(n, Dropped(t, pid, counts), pending - {pid})
    ensures counts ==> pid in Dropped(t, pid, counts).unsaved
  {
    if pid in t.made {
      assert t.made - (pending - {pid}) == (t.made - pending) + {pid};
      if counts {
        assert |t.unsaved + {pid}| == |t.unsaved| + 1;
      } else {
        assert |t.undone + {pid}| == |t.undone| + 1;
      }
    } else {
      assert t.made - (pending - {pid}) == t.made - pending;
    }
  }

  lemma SavingKeepsCount(n: nat, t: Tally, pending: set<Id>, pid: Id)
    requires Counted(n, t, pending) && pid in t.unsaved
    ensures Counted(n + 1, Saved(t, pid), pending)
  {
    assert |t.unsaved - {pid}| == |t.unsaved| - 1;
  }

  lemma MakingKeepsCount(n: nat, t: Tally, pending: set<Id>, pid: Id)
    requires Counted(n, t, pending) && pid in pending
    ensures Counted(n, t.(made := t.made + {pid}), pending)
  {
    assert t.made + {pid} - pending == t.made - pending;
  }

  // ----- what the answers make of the table ---------------------------------------------

  /** This request asked for the record, and heard that it is there or that it is not. */
  predicate Told(service: Service, log: seq<Request>, k: nat, id: Id) {
    k < |log| && log[k] == Get(id) && (Reply(service, k, id).Found? || Reply(service, k, id).NotFound?)
  }

  ghost predicate ToldSince(service: Service, log: seq<Request>, from: nat, id: Id) {
    exists k :: from <= k < |log| && Told(service, log, k, id)
  }

  predicate LastAsked(log: seq<Request>, k: nat)
    requires k < |log|
  {
    forall j :: k < j < |log| ==> log[j] != log[k]
  }

  /** The row is this payload and nothing else: no tombstone, and no trace of one. */
  predicate IsRecord(rows: map<Id, Row>, id: Id, p: Payload) {
    id in rows && rows[id].raw == p && rows[id].Live() && rows[id].Coherent() && rows[id].mergedInto.None?
  }

  predicate SameAt(rows0: map<Id, Row>, rows: map<Id, Row>, id: Id) {
    (id in rows <==> id in rows0) && (id in rows ==> rows[id] == rows0[id])
  }

  /** The requests from number `from` on were heeded: a row nothing was heard about is as it
      was, and a record that was sent is held as it was sent last. */
  ghost predicate Heeded(service: Service, log: seq<Request>, from: nat, rows0: map<Id, Row>, rows: map<Id, Row>) {
    && (forall id :: !ToldSince(service, log, from, id) ==> SameAt(rows0, rows, id))
    && (forall k :: from <= k < |log| && log[k].Get? && LastAsked(log, k) && Reply(service, k, log[k].id).Found? ==>
          IsRecord(rows, log[k].id, Reply(service, k, log[k].id).payload))
  }

  lemma NothingToHeed(service: Service, log: seq<Request>, from: nat, rows: map<Id, Row>)
    requires forall k :: from <= k < |log| ==> log[k].List?
    ensures Heeded(service, log, from, rows, rows)
  {
  }

  lemma HeededOn(service: Service, log1: seq<Request>, log2: seq<Request>, from: nat,
                 rows0: map<Id, Row>, rows1: map<Id, Row>, rows2: map<Id, Row>)
    requires from <= |log1| && log1 <= log2
    requires Heeded(service, log1, from, rows0, rows1) && Heeded(service, log2, |log1|, rows1, rows2)
    ensures Heeded(service, log2, from, rows0, rows2)
  {
    forall id | !ToldSince(service, log2, from, id) ensures SameAt(rows0, rows2, id) {
      assert !ToldSince(service, log1, from, id) by {
        if ToldSince(service, log1, from, id) {
          var k :| from <= k < |log1| && Told(service, log1, k, id);
          assert Told(service, log2, k, id);
        }
      }
      assert !ToldSince(service, log2, |log1|, id);
    }
    forall k | from <= k < |log1| && log2[k].Get? && LastAsked(log2, k) && Reply(service, k, log2[k].id).Found?
      ensures IsRecord(rows2, log2[k].id, Reply(service, k, log2[k].id).payload)
    {
      assert log1[k] == log2[k];
      assert LastAsked(log1, k) by {
        forall j | k < j < |log1| ensures log1[j] != log1[k] {
          assert log2[j] == log1[j];
        }
      }
      assert !ToldSince(service, log2, |log1|, log2[k].id);
      assert SameAt(rows1, rows2, log2[k].id);
    }
  }

  /** One answer and the statement it calls for. */
  lemma OneAnswerHeeded(service: Service, log: seq<Request>, pid: Id, write: Write, rows0: map<Id, Row>, now: Time)
    requires log != [] && log[|log| - 1] == Get(pid)
    requires match Reply(service, |log| - 1, pid)
             case Found(p) => (write.Affirm? || write.Fill?) && write.id == pid && write.payload == p
             case NotFound => write.NoWrite? || (write.Bury? && write.id == pid)
             case _ => write.NoWrite?
    ensures Heeded(service, log, |log| - 1, rows0, Written(rows0, write, now))
  {
    var k := |log| - 1;
    forall id | !ToldSince(service, log, k, id) ensures SameAt(rows0, Written(rows0, write, now), id) {
      if id == pid && !write.NoWrite? {
        assert Told(service, log, k, id);
      }
    }
  }

  /** A row the audit buried comes back on news of its record. */
  lemma AuditBurialsComeBack(rows: map<Id, Row>, id: Id, heard: nat, now: Time)
    requires id in rows
    ensures ComesBackOnNews(Written(rows, Bury(id, heard), now)[id])
  {
  }

  // ----- which death loses a count ------------------------------------------------------

  function Fewer(a: nat, b: nat): nat {
    if a <= b then a else b
  }

  /** A process: the statements committed so far and how many more it will commit. */
  datatype Process = Process(trail: seq<Write>, power: nat)

  /** It committed statements on end, and died only of having no more. */
  predicate Ran(alive: bool, p0: Process, p: Process) {
    p0.trail <= p.trail && |p.trail| + p.power == |p0.trail| + p0.power && (alive || p.power == 0)
  }

  /** And none of them touched the table. */
  predicate Idle(alive: bool, p0: Process, p: Process) {
    Ran(alive, p0, p) && forall i :: |p0.trail| <= i < |p.trail| ==> p.trail[i].NoWrite?
  }

  lemma NothingIsIdle(p: Process)
    ensures Idle(true, p, p)
  {
  }

  lemma IdleAgain(alive: bool, p0: Process, p1: Process, p2: Process)
    requires Idle(true, p0, p1) && Idle(alive, p1, p2)
    ensures Idle(alive, p0, p2)
  {
    forall i | |p0.trail| <= i < |p1.trail| ensures p2.trail[i] == p1.trail[i] {
    }
  }

  /** The statements one record takes: what its answer calls for, the removal of its scratch
      row, and the save. */
  function Script(write: Write): seq<Write> {
    if write.NoWrite? then [NoWrite, NoWrite] else [write, NoWrite, NoWrite]
  }

  /** As many of these statements as the process has left. */
  predicate Follows(script: seq<Write>, p0: Process, p: Process) {
    var n := Fewer(p0.power, |script|);
    p == Process(p0.trail + script[..n], p0.power - n)
  }

  lemma NothingFollows(script: seq<Write>, p: Process)
    requires p.power == 0
    ensures Follows(script, p, p)
  {
  }

  lemma FollowsOn(write: Write, p0: Process, p1: Process, p2: Process)
    requires Follows(if write.NoWrite? then [] else [write], p0, p1)
    requires Follows([NoWrite, NoWrite], p1, p2)
    ensures Follows(Script(write), p0, p2)
  {
  }

  /** The last statements since `from` are the writing of a row and the removal of its
      scratch row: its count is not saved. */
  predicate CutShort(trail: seq<Write>, from: nat) {
    from + 2 <= |trail| && trail[|trail| - 1].NoWrite?
  }

  function CutBurial(trail: seq<Write>, from: nat): set<Id> {
    if CutShort(trail, from) && trail[|trail| - 2].Bury? then {trail[|trail| - 2].id} else {}
  }

  function CutFill(trail: seq<Write>, from: nat): set<Id> {
    if CutShort(trail, from) && trail[|trail| - 2].Fill? then {trail[|trail| - 2].id} else {}
  }

  /** The last two statements since `from`, if there are two, left the table alone. */
  predicate Quiet(trail: seq<Write>, from: nat) {
    && (from + 1 <= |trail| ==> trail[|trail| - 1].NoWrite?)
    && (from + 2 <= |trail| ==> trail[|trail| - 2].NoWrite?)
  }

  /** The rows whose counts were lost. */
  datatype Loss = Loss(burials: set<Id>, fills: set<Id>)

  const NoLoss := Loss({}, {})

  function LossOf(h: History): Loss {
    Loss(h.burials.unsaved, h.fills.unsaved)
  }

  /** From `p0` to `p` exactly those counts were lost -- at most one -- whose statements the
      death of the process cut short. */
  predicate Accounts(alive: bool, p0: Process, lost0: Loss, p: Process, lost: Loss) {
    && Ran(alive, p0, p) && (alive ==> Quiet(p.trail, |p0.trail|))
    && CutBurial(p.trail, |p0.trail|) !! lost0.burials && CutFill(p.trail, |p0.trail|) !! lost0.fills
    && lost.burials == lost0.burials + CutBurial(p.trail, |p0.trail|)
    && lost.fills == lost0.fills + CutFill(p.trail, |p0.trail|)
  }

  lemma IdleLosesNothing(alive: bool, p0: Process, p: Process, lost: Loss)
    requires Idle(alive, p0, p)
    ensures Accounts(alive, p0, lost, p, lost)
  {
  }

  lemma SurvivorsLoseNothing(p0: Process, lost0: Loss, p: Process, lost: Loss)
    requires Accounts(true, p0, lost0, p, lost)
    ensures lost == lost0
  {
  }

  lemma AccountsAddUp(alive: bool, p0: Process, lost0: Loss, p1: Process, lost1: Loss, p2: Process, lost2: Loss)
    requires Accounts(true, p0, lost0, p1, lost1) && Accounts(alive, p1, lost1, p2, lost2)
    ensures Accounts(alive, p0, lost0, p2, lost2)
  {
    SurvivorsLoseNothing(p0, lost0, p1, lost1);
    var n := |p2.trail|;
    assert n > |p1.trail| > 0 ==> p2.trail[|p1.trail| - 1] == p1.trail[|p1.trail| - 1];
    assert n == |p1.trail| ==> p2.trail == p1.trail;
  }

  /** One record loses its count exactly if the process has statements left for the writing
      and for the removal, and none for the save. */
  lemma ScriptAccounts(write: Write, p0: Process, lost0: Loss, p: Process, lost: Loss)
    requires Follows(Script(write), p0, p)
    requires write.Bury? ==> write.id !in lost0.burials
    requires write.Fill? ==> write.id !in lost0.fills
    requires lost.burials == lost0.burials + if write.Bury? && p0.power == 2 then {write.id} else {}
    requires lost.fills == lost0.fills + if write.Fill? && p0.power == 2 then {write.id} else {}
    ensures Accounts(p0.power >= |Script(write)|, p0, lost0, p, lost)
  {
  }

  /** The tally after `n` of the two statements that end a record. */
  function Handled(t: Tally, pid: Id, counts: bool, n: nat): Tally {
    if n == 0 then t else if n == 1 || !counts then Dropped(t, pid, counts) else Saved(Dropped(t, pid, counts), pid)
  }

  lemma HandledOnce(t: Tally, pid: Id, counts: bool, n: nat)
    requires pid !in t.unsaved && n <= 2
    ensures Handled(t, pid, counts, n).unsaved == t.unsaved + if counts && n == 1 then {pid} else {}
    ensures Handled(t, pid, counts, n).made == t.made
    ensures counts || pid !in t.made ==> Handled(t, pid, counts, n).undone == t.undone
  {
  }

  lemma PendingIsNotLost(service: Service, log: seq<Request>, trail: seq<Write>, d: Disk, h: History, pid: Id)
    requires Trusted(service, log, trail, d, h) && d.round.Some?
    ensures d.round.value.phase.Confirm? && pid in d.candidate ==> pid !in h.burials.unsaved
    ensures d.round.value.phase.Restore? && pid in d.live ==> pid !in h.fills.unsaved
  {
  }

  /** No row is written and still in the scratch set, and no count is missing. */
  predicate Clean(d: Disk, h: History) {
    && h.burials.made !! d.candidate && h.burials.unsaved == h.burials.undone == {}
    && h.fills.made !! d.live && h.fills.unsaved == h.fills.undone == {}
  }

  lemma ConfirmedIsClean(d: Disk, h: History, d': Disk, h': History, pid: Id, write: Write, power: nat)
    requires Clean(d, h) && pid in d.candidate && !write.Fill? && (write.Bury? ==> write.id == pid)
    requires h' == Confirmed(h, pid, write, power) && power >= |Script(write)|
    requires d'.candidate == d.candidate - {pid} && d'.live == d.live
    ensures Clean(d', h')
  {
    HandledOnce(Noted(h, write).burials, pid, write.Bury?, 2);
    hide Handled;
  }

  lemma RestoredIsClean(d: Disk, h: History, d': Disk, h': History, pid: Id, write: Write, power: nat)
    requires Clean(d, h) && pid in d.live && (write.NoWrite? || write.Fill?) && (write.Fill? ==> write.id == pid)
    requires h' == Restored(h, pid, write, power) && power >= |Script(write)|
    requires d'.live == d.live - {pid} && d'.candidate == d.candidate
    ensures Clean(d', h')
  {
    HandledOnce(Noted(h, write).fills, pid, write.Fill?, 2);
    hide Handled;
  }

  /** The history after as many of a candidate's statements as the process had left. */
  function Confirmed(h: History, pid: Id, write: Write, power: nat): History {
    var heeded := if write.NoWrite? then 0 else 1;
    if power < heeded then h
    else Noted(h, write).(burials := Handled(Noted(h, write).burials, pid, write.Bury?, Fewer(power - heeded, 2)))
  }

  /** And after a gap's. */
  function Restored(h: History, pid: Id, write: Write, power: nat): History {
    var heeded := if write.NoWrite? then 0 else 1;
    if power < heeded then h
    else Noted(h, write).(fills := Handled(Noted(h, write).fills, pid, write.Fill?, Fewer(power - heeded, 2)))
  }

  lemma ConfirmAccounts(h: History, h': History, pid: Id, write: Write, p0: Process, p: Process)
    requires Follows(Script(write), p0, p) && pid !in h.burials.unsaved && !write.Fill? && (write.Bury? ==> write.id == pid)
    requires h' == Confirmed(h, pid, write, p0.power)
    ensures h'.burials.unsaved == h.burials.unsaved + if write.Bury? && p0.power == 2 then {pid} else {}
    ensures h'.fills == h.fills
    ensures Accounts(p0.power >= |Script(write)|, p0, LossOf(h), p, LossOf(h'))
  {
    if p0.power >= if write.NoWrite? then 0 else 1 {
      HandledOnce(Noted(h, write).burials, pid, write.Bury?, Fewer(p0.power - if write.NoWrite? then 0 else 1, 2));
    }
    hide Handled, Follows, Accounts;
    ScriptAccounts(write, p0, LossOf(h), p, LossOf(h'));
  }

  lemma RestoreAccounts(h: History, h': History, pid: Id, write: Write, p0: Process, p: Process)
    requires Follows(Script(write), p0, p) && pid !in h.fills.unsaved && (write.NoWrite? || (write.Fill? && write.id == pid))
    requires h' == Restored(h, pid, write, p0.power)
    ensures h'.fills.unsaved == h.fills.unsaved + if write.Fill? && p0.power == 2 then {pid} else {}
    ensures h'.burials == h.burials
    ensures Accounts(p0.power >= |Script(write)|, p0, LossOf(h), p, LossOf(h'))
  {
    if p0.power >= if write.NoWrite? then 0 else 1 {
      HandledOnce(Noted(h, write).fills, pid, write.Fill?, Fewer(p0.power - if write.NoWrite? then 0 else 1, 2));
    }
    hide Handled, Follows, Accounts;
    ScriptAccounts(write, p0, LossOf(h), p, LossOf(h'));
  }

  lemma EnumeratingIsUncounted(service: Service, log: seq<Request>, trail: seq<Write>, d: Disk, h: History)
    requires Trusted(service, log, trail, d, h) && d.round.Some? && d.round.value.phase.Enumerate?
    ensures h.burials == h.fills == NoTally
  {
  }

  /** The enumeration writes no row. */
  lemma EnumeratingIsClean(service: Service, log: seq<Request>, trail: seq<Write>, d: Disk, h: History)
    requires Trusted(service, log, trail, d, h) && d.round.Some?
    requires d.round.value.phase.Enumerate? || (h.burials == h.fills == NoTally)
    ensures Clean(d, h)
  {
  }

  lemma CleanAsBefore(d: Disk, h: History, d': Disk)
    requires Clean(d, h) && d'.candidate <= d.candidate && d'.live <= d.live
    ensures Clean(d', h)
  {
  }

  /** Then the counters are exact: what any round not cut short reports, whatever the
      requests answered and other threads wrote. */
  lemma CleanCountersAreExact(d: Disk, h: History, tombstoned: nat, restored: nat)
    requires Clean(d, h) && Counted(tombstoned, h.burials, {}) && Counted(restored, h.fills, {})
    ensures tombstoned == |h.burials.made| && restored == |h.fills.made|
  {
    CountersAreExactUnlessLost(tombstoned, h.burials);
    CountersAreExactUnlessLost(restored, h.fills);
  }

  // ----- safety, statement by statement -------------------------------------------------

  /** A statement that may be written now: a burial of a candidate, or the restoring of the
      next gap. */
  predicate Due(d: Disk, write: Write) {
    match write
    case Bury(id, _) => d.round.Some? && d.round.value.phase.Confirm? && id in d.candidate
    case Fill(id, _, _) =>
      d.round.Some? && d.round.value.phase.Restore? && IsLeast(d.live, id) && d.round.value.restored < AUDIT_RESTORE_LIMIT
    case _ => true
  }

  lemma CommittingIsSafe(d: Disk, h: History, write: Write, rows: map<Id, Row>)
    requires Safe(d, h) && Due(d, write)
    ensures Safe(d.(rows := rows), Noted(h, write))
  {
    if d.round.Some? {
      match write
      case Bury(id, _) =>
        MakingKeepsCount(d.round.value.tombstoned, h.burials, d.candidate, id);
        assert id !in d.candidate * h.enumerated;
      case Fill(id, _, _) =>
        MakingKeepsCount(d.round.value.restored, h.fills, d.live, id);
      case _ =>
    }
  }

  /** The scratch sets and the bookkeeping may change as long as that stays safe. */
  lemma StillTrusted(service: Service, log: seq<Request>, trail: seq<Write>, d: Disk, h: History, d': Disk, h': History)
    requires Trusted(service, log, trail, d, h) && Safe(d', h') && d'.rows == d.rows
    requires h'.rows0 == h.rows0 && h'.since == h.since && h'.asked == h.asked
    requires h'.burials.made == h.burials.made && h'.fills.made == h.fills.made
    ensures Trusted(service, log, trail, d', h')
  {
  }

  lemma SafeOf(service: Service, log: seq<Request>, trail: seq<Write>, d: Disk, h: History)
    requires Trusted(service, log, trail, d, h)
    ensures Safe(d, h) && h.asked <= |log|
  {
  }

  /** Without a round the scratch sets may be anything. */
  lemma NoRoundYet(service: Service, w: World, log: seq<Request>, trail: seq<Write>, d: Disk, h: History, d': Disk)
    requires Trusted(service, log, trail, d, h) && d.round.None? && d'.round.None?
    ensures OnTrack(w, d, h)
    ensures d'.rows == d.rows ==> Trusted(service, log, trail, d', h) && Rank(w, d') == Rank(w, d)
  {
  }

  lemma ScratchIsFree(service: Service, log: seq<Request>, trail: seq<Write>, d: Disk, h: History)
    requires Trusted(service, log, trail, d, h) && d.round.None?
    ensures Trusted(service, log, trail, d.(candidate := {}, known := {}, live := {}), h)
  {
  }

  lemma ASnapshotIsTrusted(service: Service, log: seq<Request>, trail: seq<Write>, d: Disk, h: History)
    requires d.round.None? && h == History(d.rows, |trail|, |log|, {}, NoTally, NoTally)
    ensures Trusted(service, log, trail, d, h)
  {
    ANewRoundIsVouched(service, log, trail, d.rows);
  }

  lemma DroppedCandidateIsTrusted(service: Service, w: World, log: seq<Request>, trail: seq<Write>, d: Disk, h: History,
                                  st: Round, pid: Id, counts: bool)
    requires Trusted(service, log, trail, d, h) && d.round == Some(st) && st.phase.Confirm? && pid in d.candidate
    requires counts ==> pid in h.burials.made
    ensures Trusted(service, log, trail, d.(candidate := d.candidate - {pid}), h.(burials := Dropped(h.burials, pid, counts)))
    ensures pid !in h.burials.unsaved && (counts ==> pid in Dropped(h.burials, pid, counts).unsaved)
  {
    DroppingACandidateIsSafe(d, h, st, pid, counts);
    StillTrusted(service, log, trail, d, h, d.(candidate := d.candidate - {pid}), h.(burials := Dropped(h.burials, pid, counts)));
  }

  lemma SavedBurialIsTrusted(service: Service, log: seq<Request>, trail: seq<Write>, d: Disk, h: History, st: Round, pid: Id)
    requires Trusted(service, log, trail, d, h) && d.round == Some(st) && st.phase.Confirm? && pid in h.burials.unsaved
    ensures Trusted(service, log, trail, d.(round := Some(st.(tombstoned := st.tombstoned + 1))), h.(burials := Saved(h.burials, pid)))
  {
    SavingABurialIsSafe(d, h, st, pid);
    StillTrusted(service, log, trail, d, h, d.(round := Some(st.(tombstoned := st.tombstoned + 1))), h.(burials := Saved(h.burials, pid)));
  }

  lemma DroppedLiveIdIsTrusted(service: Service, log: seq<Request>, trail: seq<Write>, d: Disk, h: History,
                               st: Round, pid: Id, counts: bool)
    requires Trusted(service, log, trail, d, h) && d.round == Some(st) && st.phase.Restore? && IsLeast(d.live, pid)
    requires counts ==> pid in h.fills.made
    ensures Trusted(service, log, trail, d.(live := d.live - {pid}), h.(fills := Dropped(h.fills, pid, counts)))
    ensures pid in d.live && pid !in h.fills.unsaved && (counts ==> pid in Dropped(h.fills, pid, counts).unsaved)
    ensures (d.live - {pid}) * Dropped(h.fills, pid, counts).made == {}
  {
    DroppingALiveIdIsSafe(d, h, st, pid, counts);
    StillTrusted(service, log, trail, d, h, d.(live := d.live - {pid}), h.(fills := Dropped(h.fills, pid, counts)));
  }

  lemma SavedFillIsTrusted(service: Service, log: seq<Request>, trail: seq<Write>, d: Disk, h: History, st: Round, pid: Id)
    requires Trusted(service, log, trail, d, h) && d.round == Some(st) && st.phase.Restore? && st.restored < AUDIT_RESTORE_LIMIT
    requires pid in h.fills.unsaved && d.live * h.fills.made == {}
    ensures Trusted(service, log, trail, d.(round := Some(st.(restored := st.restored + 1))), h.(fills := Saved(h.fills, pid)))
  {
    SavingAFillIsSafe(d, h, st, pid);
    StillTrusted(service, log, trail, d, h, d.(round := Some(st.(restored := st.restored + 1))), h.(fills := Saved(h.fills, pid)));
  }

  /** Both statements of the settling: remove the listed from the candidates, then the known
      from the listed. */
  lemma SettlingIsTrusted(service: Service, w: World, log: seq<Request>, trail: seq<Write>, d: Disk, h: History, st: Round)
    requires Trusted(service, log, trail, d, h) && d.round == Some(st) && st.phase.Enumerate?
    ensures Trusted(service, log, trail, d.(candidate := d.candidate - d.live), h)
    ensures d.candidate * d.live == {} ==>
              d.candidate * h.enumerated == {} && Trusted(service, log, trail, d.(live := d.live - d.known), h)
    ensures EnumeratePhase(w, d, h, st) ==>
              EnumeratePhase(w, d.(candidate := d.candidate - d.live), h, st) && EnumeratePhase(w, d.(live := d.live - d.known), h, st)
  {
    SettlingIsSafe(d, h);
    StillTrusted(service, log, trail, d, h, d.(candidate := d.candidate - d.live), h);
    if d.candidate * d.live == {} {
      StillTrusted(service, log, trail, d, h, d.(live := d.live - d.known), h);
    }
    if EnumeratePhase(w, d, h, st) {
      SettlingStaysOnTrack(w, d, h, st);
    }
  }

  lemma OpeningIsTrusted(service: Service, w: World, log: seq<Request>, trail: seq<Write>, d: Disk, h: History, d0: Disk, st: Round)
    requires Trusted(service, log, trail, d, h) && d.round.None? && d0.round.None?
    requires st.phase.Enumerate? && st.cursor.None? && st.offset == 0 && st.tombstoned == 0 && st.restored == 0
    requires d.candidate == LiveIds(h.rows0) && h.enumerated == {} && h.burials == NoTally && h.fills == NoTally
    ensures Trusted(service, log, trail, d.(round := Some(st)), h)
    ensures d.rows == d0.rows == h.rows0 && d.known == d.rows.Keys && d.live == {} ==>
              OnTrack(w, d.(round := Some(st)), h) && Rank(w, d.(round := Some(st))) < Rank(w, d0)
  {
    var d' := d.(round := Some(st));
    ARoundStartsSafely(d', h, st);
    StillTrusted(service, log, trail, d, h, d', h);
    if d.rows == d0.rows == h.rows0 && d.known == d.rows.Keys && d.live == {} {
      ARoundStartsOnTrack(w, d', h, st);
      StartingIsProgress(w, d0, d', st);
    }
  }

  lemma CollectingIsTrusted(service: Service, w: World, log: seq<Request>, trail: seq<Write>, d: Disk, h: History, st: Round, id: Id)
    requires Trusted(service, log, trail, d, h) && d.round == Some(st) && st.phase.Enumerate?
    ensures Trusted(service, log, trail, d.(live := d.live + {id}), h.(enumerated := h.enumerated + {id}))
    ensures EnumeratePhase(w, d, h, st) && id in w.remote ==>
              EnumeratePhase(w, d.(live := d.live + {id}), h.(enumerated := h.enumerated + {id}), st)
  {
    CollectingIsSafe(d, h, id);
    StillTrusted(service, log, trail, d, h, d.(live := d.live + {id}), h.(enumerated := h.enumerated + {id}));
    if EnumeratePhase(w, d, h, st) && id in w.remote {
      CollectingStaysOnTrack(w, d, h, st, id);
    }
  }

  /** The settled round is saved in the confirm phase; until then nothing has changed. */
  lemma SettledIsTrusted(service: Service, w: World, log: seq<Request>, trail: seq<Write>, d0: Disk, d: Disk, h: History, st: Round, st': Round)
    requires Trusted(service, log, trail, d, h) && d0.round == d.round == Some(st) && st.phase.Enumerate?
    requires st'.phase.Confirm? && st'.tombstoned == st.tombstoned && st'.restored == st.restored
    ensures d.candidate * h.enumerated == {} ==> Trusted(service, log, trail, d.(round := Some(st')), h)
    ensures EnumeratePhase(w, d, h, st) && d0.rows == d.rows ==>
              && OnTrack(w, d, h) && Rank(w, d) == Rank(w, d0)
              && (h.enumerated == w.remote.Keys && d.candidate * h.enumerated == {} && d.live * d.known == {} ==>
                    OnTrack(w, d.(round := Some(st')), h) && Rank(w, d.(round := Some(st'))) < Rank(w, d0))
  {
    var d' := d.(round := Some(st'));
    if d.candidate * h.enumerated == {} {
      SettledIsSafe(d, h, st, st');
      StillTrusted(service, log, trail, d, h, d', h);
    }
    if EnumeratePhase(w, d, h, st) && d0.rows == d.rows {
      CollectingCostsNothing(w, d0, d, h, st);
      if h.enumerated == w.remote.Keys && d.candidate * h.enumerated == {} && d.live * d.known == {} {
        SettledIsOnTrack(service, w, log, trail, d0, d, h, st, st');
      }
    }
  }

  /** The next page's state is saved; until then nothing has changed. */
  lemma TurningIsTrusted(service: Service, w: World, log: seq<Request>, trail: seq<Write>, d: Disk, h: History, d0: Disk, st: Round, st': Round)
    requires Trusted(service, log, trail, d, h) && d0.round == d.round == Some(st) && st.phase.Enumerate?
    requires st'.phase.Enumerate? && st'.tombstoned == st.tombstoned && st'.restored == st.restored
    ensures Trusted(service, log, trail, d.(round := Some(st')), h)
    ensures d == d0 && EnumeratePhase(w, d, h, st) ==>
              && OnTrack(w, d, h)
              && (EnumeratePhase(w, d, h, st') && Less(w.listing, st', st) ==>
                    OnTrack(w, d.(round := Some(st')), h) && Rank(w, d.(round := Some(st'))) < Rank(w, d0))
  {
    var d' := d.(round := Some(st'));
    TurningIsSafe(d, h, st, st');
    StillTrusted(service, log, trail, d, h, d', h);
    if d == d0 && EnumeratePhase(w, d, h, st') && Less(w.listing, st', st) {
      TurningIsProgress(w, d0, st, st');
      EnumeratingElsewhere(w, d, d', h, st');
    }
  }

  lemma TheEndIsTrusted(service: Service, log: seq<Request>, trail: seq<Write>, d: Disk, h: History, st: Round)
    requires Trusted(service, log, trail, d, h) && d.round == Some(st) && st.phase.Restore?
    requires d.live == {} || st.restored >= AUDIT_RESTORE_LIMIT
    ensures Counted(st.tombstoned, h.burials, {}) && Counted(st.restored, h.fills, {}) && st.restored <= AUDIT_RESTORE_LIMIT
    ensures Trusted(service, log, trail, d.(candidate := {}, known := {}, live := {}), h)
  {
    TheEndIsClean(d, h, st);
    StillTrusted(service, log, trail, d, h, d.(candidate := {}, known := {}, live := {}), h);
  }

  lemma RoundIsOver(service: Service, log: seq<Request>, trail: seq<Write>, d: Disk, h: History)
    requires Trusted(service, log, trail, d, h)
    ensures Trusted(service, log, trail, d.(round := None), h)
  {
    BetweenRoundsIsSafe(d, h, d.(round := None));
  }

  lemma ARoundStartsSafely(d: Disk, h: History, st: Round)
    requires d.round == Some(st) && st.phase.Enumerate? && st.tombstoned == 0 && st.restored == 0
    requires d.candidate <= LiveIds(h.rows0) && h.enumerated == {} && h.burials == NoTally && h.fills == NoTally
    ensures Safe(d, h)
  {
  }

  lemma BetweenRoundsIsSafe(d: Disk, h: History, d': Disk)
    requires Safe(d, h) && d'.round.None?
    ensures Safe(d', h)
  {
  }

  lemma CollectingIsSafe(d: Disk, h: History, id: Id)
    requires Safe(d, h) && d.round.Some? && d.round.value.phase.Enumerate?
    ensures Safe(d.(live := d.live + {id}), h.(enumerated := h.enumerated + {id}))
  {
  }

  lemma TurningIsSafe(d: Disk, h: History, st: Round, st': Round)
    requires Safe(d, h) && d.round == Some(st) && st.phase.Enumerate?
    requires st'.phase.Enumerate? && st'.tombstoned == st.tombstoned && st'.restored == st.restored
    ensures Safe(d.(round := Some(st')), h)
  {
  }

  /** Each statement of the settling keeps the invariants, so a crash between them
      only means that it is done again. */
  lemma SettlingIsSafe(d: Disk, h: History)
    requires Safe(d, h) && d.round.Some? && d.round.value.phase.Enumerate?
    ensures Safe(d.(candidate := d.candidate - d.live), h)
    ensures d.candidate * d.live == {} ==> d.candidate * h.enumerated == {} && Safe(d.(live := d.live - d.known), h)
  {
  }

  lemma SettledIsSafe(d: Disk, h: History, st: Round, st': Round)
    requires Safe(d, h) && d.round == Some(st) && st.phase.Enumerate? && d.candidate * h.enumerated == {}
    requires st'.phase.Confirm? && st'.tombstoned == st.tombstoned && st'.restored == st.restored
    ensures Safe(d.(round := Some(st')), h)
  {
  }

  lemma DroppingACandidateIsSafe(d: Disk, h: History, st: Round, pid: Id, counts: bool)
    requires Safe(d, h) && d.round == Some(st) && st.phase.Confirm? && pid in d.candidate
    requires counts ==> pid in h.burials.made
    ensures Safe(d.(candidate := d.candidate - {pid}), h.(burials := Dropped(h.burials, pid, counts)))
  {
    DroppingKeepsCount(st.tombstoned, h.burials, d.candidate, pid, counts);
  }

  lemma SavingABurialIsSafe(d: Disk, h: History, st: Round, pid: Id)
    requires Safe(d, h) && d.round == Some(st) && st.phase.Confirm? && pid in h.burials.unsaved
    ensures Safe(d.(round := Some(st.(tombstoned := st.tombstoned + 1))), h.(burials := Saved(h.burials, pid)))
  {
    SavingKeepsCount(st.tombstoned, h.burials, d.candidate, pid);
  }

  lemma ConfirmedIsSafe(d: Disk, h: History, st: Round)
    requires Safe(d, h) && d.round == Some(st) && st.phase.Confirm? && d.candidate == {}
    ensures Safe(d.(round := Some(st.(phase := Restore))), h)
  {
  }

  lemma DroppingALiveIdIsSafe(d: Disk, h: History, st: Round, pid: Id, counts: bool)
    requires Safe(d, h) && d.round == Some(st) && st.phase.Restore? && IsLeast(d.live, pid)
    requires counts ==> pid in h.fills.made
    ensures Safe(d.(live := d.live - {pid}), h.(fills := Dropped(h.fills, pid, counts)))
    ensures (d.live - {pid}) * h.fills.made == {}
  {
    DroppingKeepsCount(st.restored, h.fills, d.live, pid, counts);
    OnlyTheLeastIsUnderway(d.live, h.fills.made, st.restored, pid);
  }

  lemma OnlyTheLeastIsUnderway(live: set<Id>, made: set<Id>, restored: nat, pid: Id)
    requires Underway(live, made, restored) && IsLeast(live, pid)
    ensures (live - {pid}) * made == {}
  {
    forall id | id in live && id in made ensures id == pid {
      assert id in live * made;
    }
  }

  lemma SavingAFillIsSafe(d: Disk, h: History, st: Round, pid: Id)
    requires Safe(d, h) && d.round == Some(st) && st.phase.Restore? && st.restored < AUDIT_RESTORE_LIMIT
    requires pid in h.fills.unsaved && d.live * h.fills.made == {}
    ensures Safe(d.(round := Some(st.(restored := st.restored + 1))), h.(fills := Saved(h.fills, pid)))
  {
    SavingKeepsCount(st.restored, h.fills, d.live, pid);
  }

  /** Nothing is underway when the round ends. */
  lemma TheEndIsClean(d: Disk, h: History, st: Round)
    requires Safe(d, h) && d.round == Some(st) && st.phase.Restore?
    requires d.live == {} || st.restored >= AUDIT_RESTORE_LIMIT
    ensures d.live * h.fills.made == {} && Counted(st.tombstoned, h.burials, {}) && Counted(st.restored, h.fills, {})
    ensures st.restored <= AUDIT_RESTORE_LIMIT
    ensures Safe(d.(candidate := {}, known := {}, live := {}), h)
  {
    NothingIsUnderway(d.live, h.fills.made, st.restored);
    assert h.fills.made - {} == h.fills.made;
  }

  lemma NothingIsUnderway(live: set<Id>, made: set<Id>, restored: nat)
    requires Underway(live, made, restored) && (live == {} || restored >= AUDIT_RESTORE_LIMIT)
    ensures live * made == {} && made - live == made
  {
    assert forall id :: id in live && id in made ==> id in live * made;
  }

  // ----- exactness: on a remote that does not change ----------------------------------

  datatype World = World(listing: Listing, remote: map<Id, Payload>)

  ghost predicate NobodyElseWrites(service: Service) {
    forall k, rows :: Others(service, k, rows) == rows
  }

  /** The collection does not change, every request is answered truthfully, and
      nobody else writes the table. */
  ghost predicate Unchanging(service: Service, w: World) {
    && InOrder(w.listing) && AllIds(w.listing) == w.remote.Keys
    && (forall k, q :: ListReply(service, k, q) == ListPage(w.listing, q))
    && (forall k, id :: Reply(service, k, id) == if id in w.remote then Found(w.remote[id]) else NotFound)
    && NobodyElseWrites(service)
  }

  predicate Says(w: World, id: Id, p: Payload) {
    id in w.remote && w.remote[id] == p
  }

  lemma AnswersTruthfully(service: Service, w: World, k: nat, id: Id)
    requires Unchanging(service, w)
    ensures Reply(service, k, id) == if id in w.remote then Found(w.remote[id]) else NotFound
  {
  }

  lemma ListsTruthfully(service: Service, w: World, k: nat, q: Query)
    requires Unchanging(service, w)
    ensures ListReply(service, k, q) == ListPage(w.listing, q) && InOrder(w.listing) && AllIds(w.listing) == w.remote.Keys
    ensures |ListPage(w.listing, q)| <= PER_PAGE
  {
  }

  lemma UnchangingIsQuiet(service: Service, w: World)
    requires Unchanging(service, w)
    ensures NobodyElseWrites(service)
  {
  }

  /** Equal up to the time of burial -- which a row without a stamp also carries in
      its tombstone. */
  predicate SameRow(a: Row, b: Row) {
    && a.raw == b.raw && a.Live() == b.Live() && a.reason == b.reason && a.mergedInto == b.mergedInto
    && (a.raw.updatedAt.Some? ==> a.tombstone == b.tombstone)
  }

  predicate SameRows(a: map<Id, Row>, b: map<Id, Row>) {
    a.Keys == b.Keys && forall id :: id in a ==> SameRow(a[id], b[id])
  }

  lemma SameRowsEitherWay(a: map<Id, Row>, b: map<Id, Row>, c: map<Id, Row>)
    requires SameRows(a, c) && SameRows(b, c)
    ensures SameRows(a, b)
  {
  }

  /** What an audit makes of a row it holds. */
  function AuditedRow(row: Row, id: Id, w: World): Row {
    if row.Live() && id !in w.remote then BuryRow(row, None, AuditAbsent, None, 0) else row
  }

  /** The closed form of a completed audit: ghosts buried, gaps filled. */
  function Audited(rows: map<Id, Row>, w: World): map<Id, Row> {
    map id | id in rows.Keys + w.remote.Keys ::
      if id in rows then AuditedRow(rows[id], id, w) else NewRow(w.remote[id])
  }

  /** The ids Planning Center has and the mirror has no row for. */
  function Missing(rows: map<Id, Row>, w: World): set<Id> {
    w.remote.Keys - rows.Keys
  }

  /** The live rows Planning Center no longer has. */
  function Ghosts(rows: map<Id, Row>, w: World): set<Id> {
    LiveIds(rows) - w.remote.Keys
  }

  ghost predicate EnumeratePhase(w: World, d: Disk, h: History, st: Round) {
    && d.rows == h.rows0 && d.known == d.rows.Keys
    && Ghosts(d.rows, w) <= d.candidate
    && h.enumerated <= w.remote.Keys
    && Prefix(w.listing, Frontier(w.listing, st)) <= h.enumerated
    && d.live <= h.enumerated <= d.live + d.known
  }

  ghost predicate ConfirmPhase(w: World, d: Disk, h: History) {
    && h.enumerated == w.remote.Keys
    && d.live == Missing(h.rows0, w)
    && d.rows.Keys == h.rows0.Keys
    && Ghosts(h.rows0, w) <= h.burials.made + d.candidate && h.burials.undone == {}
    && (forall id :: id in d.rows ==>
          if id in d.candidate
          then SameRow(d.rows[id], h.rows0[id]) || SameRow(d.rows[id], AuditedRow(h.rows0[id], id, w))
          else SameRow(d.rows[id], AuditedRow(h.rows0[id], id, w)))
  }

  /** Every row held at the start is as the audit leaves it, and every other row is
      one of the gaps, filled. */
  ghost predicate PartlyRestored(w: World, rows: map<Id, Row>, rows0: map<Id, Row>, filled: set<Id>) {
    && filled <= Missing(rows0, w) && rows.Keys == rows0.Keys + filled
    && (forall id :: id in rows0 ==> SameRow(rows[id], AuditedRow(rows0[id], id, w)))
    && (forall id :: id in filled ==> rows[id] == NewRow(w.remote[id]))
  }

  ghost predicate RestorePhase(w: World, d: Disk, h: History, st: Round) {
    && h.enumerated == w.remote.Keys
    && PartlyRestored(w, d.rows, h.rows0, h.fills.made)
    && Ghosts(h.rows0, w) <= h.burials.made && h.burials.undone == {} && h.fills.undone == {}
    && d.live <= Missing(h.rows0, w)
    && (Missing(h.rows0, w) <= h.fills.made + d.live || (st.restored >= AUDIT_RESTORE_LIMIT && d.live == {}))
  }

  ghost predicate OnTrack(w: World, d: Disk, h: History) {
    d.round.Some? ==>
      match d.round.value.phase
      case Enumerate => EnumeratePhase(w, d, h, d.round.value)
      case Confirm => ConfirmPhase(w, d, h)
      case Restore => RestorePhase(w, d, h, d.round.value)
  }

  lemma ARoundStartsOnTrack(w: World, d: Disk, h: History, st: Round)
    requires st.phase.Enumerate? && st.cursor.None? && st.offset == 0 && d.round == Some(st)
    requires d == Disk(d.rows, LiveIds(d.rows), d.rows.Keys, {}, d.round) && h.rows0 == d.rows && h.enumerated == {}
    ensures OnTrack(w, d, h)
  {
    assert Prefix(w.listing, 0) == {};
  }

  lemma CollectingStaysOnTrack(w: World, d: Disk, h: History, st: Round, id: Id)
    requires EnumeratePhase(w, d, h, st) && id in w.remote.Keys
    ensures EnumeratePhase(w, d.(live := d.live + {id}), h.(enumerated := h.enumerated + {id}), st)
  {
  }

  lemma NoPageIds(data: seq<Listed>)
    ensures PageIds(data[..0]) == {}
  {
  }

  lemma FrontierIsCollected(w: World, d: Disk, h: History, st: Round)
    requires d.round == Some(st) && st.phase.Enumerate? && OnTrack(w, d, h)
    ensures EnumeratePhase(w, d, h, st)
    ensures Prefix(w.listing, Frontier(w.listing, st)) <= h.enumerated <= w.remote.Keys
  {
  }

  /** The phase does not look at the round it is in. */
  lemma EnumeratingElsewhere(w: World, d: Disk, d': Disk, h: History, st: Round)
    requires EnumeratePhase(w, d, h, st) && d' == d.(round := Some(st)) && st.phase.Enumerate?
    ensures OnTrack(w, d', h)
  {
  }

  lemma ConfirmingIsOnTrack(w: World, d: Disk, h: History, st: Round)
    requires d.round == Some(st) && st.phase.Confirm?
    ensures OnTrack(w, d, h) <==> ConfirmPhase(w, d, h)
  {
  }

  lemma RestoringIsOnTrack(w: World, d: Disk, h: History, st: Round)
    requires d.round == Some(st) && st.phase.Restore?
    ensures OnTrack(w, d, h) <==> RestorePhase(w, d, h, st)
  {
  }

  predicate LastPage(st: Round, data: seq<Listed>) {
    !FallsBack(st, data) && |data| < PER_PAGE
  }

  /** After a whole page: on track and closer where the round is about to stand, or -- on
      the last page -- everything is enumerated. */
  ghost predicate PageRead(w: World, d: Disk, h: History, st: Round, data: seq<Listed>) {
    if LastPage(st, data)
    then h.enumerated == w.remote.Keys
    else EnumeratePhase(w, d, h, Advance(st, data)) && Less(w.listing, Advance(st, data), st)
  }

  lemma AfterAPage(w: World, d: Disk, h: History, h0: History, st: Round)
    requires InOrder(w.listing) && AllIds(w.listing) == w.remote.Keys && EnumeratePhase(w, d, h, st)
    requires Prefix(w.listing, Frontier(w.listing, st)) <= h0.enumerated <= w.remote.Keys
    requires h.enumerated == h0.enumerated + PageIds(ListPage(w.listing, QueryOf(st)))
    ensures PageRead(w, d, h, st, ListPage(w.listing, QueryOf(st)))
  {
    PageExtendsThePrefix(w.listing, st);
    PageMakesProgress(w.listing, st);
  }

  lemma PageIdsAreListed(w: World, st: Round, i: nat)
    requires InOrder(w.listing) && AllIds(w.listing) == w.remote.Keys && i < |ListPage(w.listing, QueryOf(st))|
    ensures ListPage(w.listing, QueryOf(st))[i].id in w.remote.Keys
  {
    PageIsContiguous(w.listing, st);
    var data := ListPage(w.listing, QueryOf(st));
    assert data[i] == w.listing.ord[Frontier(w.listing, st) + i];
  }

  lemma PageIdsGrow(data: seq<Listed>, i: nat)
    requires i < |data|
    ensures PageIds(data[..i + 1]) == PageIds(data[..i]) + {data[i].id}
  {
    assert data[..i + 1] == data[..i] + [data[i]];
  }

  lemma SettlingStaysOnTrack(w: World, d: Disk, h: History, st: Round)
    requires EnumeratePhase(w, d, h, st)
    ensures EnumeratePhase(w, d.(candidate := d.candidate - d.live), h, st)
    ensures EnumeratePhase(w, d.(live := d.live - d.known), h, st)
  {
  }

  /** The set arithmetic turns a complete enumeration into the confirm phase. */
  lemma Settles(w: World, d: Disk, h: History, st: Round, st': Round)
    requires Safe(d, h) && d.round == Some(st) && st.phase.Enumerate? && st'.phase.Confirm?
    requires EnumeratePhase(w, d, h, st) && h.enumerated == w.remote.Keys
    requires d.candidate * h.enumerated == {} && d.live * d.known == {}
    ensures ConfirmPhase(w, d.(round := Some(st')), h)
  {
    forall id | id in d.rows && id !in d.candidate ensures AuditedRow(h.rows0[id], id, w) == h.rows0[id] {
      assert id !in Ghosts(d.rows, w);
    }
  }

  lemma BuriedOnceOrTwice(row0: Row, row: Row, now: Time)
    requires row0.Live()
    requires SameRow(row, row0) || SameRow(row, BuryRow(row0, None, AuditAbsent, None, 0))
    ensures SameRow(BuryRow(row, None, AuditAbsent, None, now), BuryRow(row0, None, AuditAbsent, None, 0))
  {
  }

  ghost predicate IsAudited(w: World, rows: map<Id, Row>, h: History, id: Id) {
    id in rows && id in h.rows0 && SameRow(rows[id], AuditedRow(h.rows0[id], id, w))
  }

  /** A candidate's own 404, heard once or -- after a crash -- again. */
  lemma BuryingStaysOnTrack(w: World, d: Disk, h: History, st: Round, write: Write, now: Time)
    requires Safe(d, h) && d.round == Some(st) && st.phase.Confirm? && ConfirmPhase(w, d, h)
    requires write.Bury? && write.id in d.candidate
    ensures ConfirmPhase(w, d.(rows := Written(d.rows, write, now)), Noted(h, write))
    ensures IsAudited(w, Written(d.rows, write, now), Noted(h, write), write.id)
  {
    assert write.id !in d.candidate * h.enumerated && write.id in LiveIds(h.rows0);
    BuriedOnceOrTwice(h.rows0[write.id], d.rows[write.id], now);
  }

  lemma CandidatesAreGone(w: World, d: Disk, h: History, st: Round, pid: Id)
    requires Safe(d, h) && d.round == Some(st) && st.phase.Confirm? && OnTrack(w, d, h) && pid in d.candidate
    ensures ConfirmPhase(w, d, h) && pid !in w.remote
  {
    assert pid !in d.candidate * h.enumerated;
  }

  lemma DroppingACandidateStaysOnTrack(w: World, d: Disk, h: History, pid: Id)
    requires ConfirmPhase(w, d, h) && IsAudited(w, d.rows, h, pid) && pid in h.burials.made
    ensures ConfirmPhase(w, d.(candidate := d.candidate - {pid}), h.(burials := Dropped(h.burials, pid, true)))
  {
  }

  lemma SavingABurialStaysOnTrack(w: World, d: Disk, h: History, pid: Id, st: Round)
    requires ConfirmPhase(w, d, h)
    ensures ConfirmPhase(w, d.(round := Some(st)), h.(burials := Saved(h.burials, pid)))
  {
  }

  lemma ConfirmsEverything(w: World, d: Disk, h: History, st: Round)
    requires Safe(d, h) && d.round == Some(st) && st.phase.Confirm? && ConfirmPhase(w, d, h) && d.candidate == {}
    ensures RestorePhase(w, d.(round := Some(st.(phase := Restore))), h, st.(phase := Restore))
  {
    hide PartlyRestored, SameRow, AuditedRow, LiveIds, Counted, Underway;
    NothingFilledYet(w, d.rows, h.rows0, d.candidate);
  }

  lemma NothingFilledYet(w: World, rows: map<Id, Row>, rows0: map<Id, Row>, candidate: set<Id>)
    requires rows.Keys == rows0.Keys
    requires forall id :: id in rows && id !in candidate ==> SameRow(rows[id], AuditedRow(rows0[id], id, w))
    ensures candidate == {} ==> PartlyRestored(w, rows, rows0, {})
  {
    hide SameRow, AuditedRow;
  }

  lemma GapsAreListed(w: World, d: Disk, h: History, st: Round, pid: Id)
    requires d.round == Some(st) && st.phase.Restore? && OnTrack(w, d, h) && pid in d.live
    ensures RestorePhase(w, d, h, st) && pid in w.remote
  {
    assert pid in Missing(h.rows0, w);
  }

  lemma FillingStaysOnTrack(w: World, d: Disk, h: History, st: Round, write: Write, now: Time)
    requires RestorePhase(w, d, h, st) && write.Fill? && write.id in d.live && Says(w, write.id, write.payload)
    ensures RestorePhase(w, d.(rows := Written(d.rows, write, now)), Noted(h, write), st)
    ensures write.id in Noted(h, write).fills.made
  {
    assert write.id in Missing(h.rows0, w);
    hide SameRow, AuditedRow, LiveIds;
  }

  lemma DroppingALiveIdStaysOnTrack(w: World, d: Disk, h: History, st: Round, pid: Id)
    requires RestorePhase(w, d, h, st) && pid in d.live && pid in h.fills.made
    ensures RestorePhase(w, d.(live := d.live - {pid}), h.(fills := Dropped(h.fills, pid, true)), st)
  {
    hide PartlyRestored;
  }

  lemma SavingAFillStaysOnTrack(w: World, d: Disk, h: History, st: Round, pid: Id)
    requires RestorePhase(w, d, h, st)
    ensures var st' := st.(restored := st.restored + 1);
            RestorePhase(w, d.(round := Some(st')), h.(fills := Saved(h.fills, pid)), st')
  {
    hide PartlyRestored;
  }

  lemma DroppingTheScratchSetsStaysOnTrack(w: World, d: Disk, h: History, st: Round)
    requires RestorePhase(w, d, h, st) && (d.live == {} || st.restored >= AUDIT_RESTORE_LIMIT)
    ensures RestorePhase(w, d.(candidate := {}, known := {}, live := {}), h, st)
  {
    hide PartlyRestored;
  }

  // ----- the outcome -------------------------------------------------------------------

  /** What a completed round leaves behind: the ghosts and no others buried, the rows it
      says it filled, filled -- all that were missing if at most the limit were. */
  ghost predicate Completed(w: World, rows: map<Id, Row>, h: History) {
    && h.burials.made == Ghosts(h.rows0, w) && h.burials.undone == {} && h.fills.undone == {}
    && PartlyRestored(w, rows, h.rows0, h.fills.made)
    && (|Missing(h.rows0, w)| <= AUDIT_RESTORE_LIMIT ==> h.fills.made == Missing(h.rows0, w))
  }

  /** What the counters then say: the ghosts, and the gaps up to the limit, each but for
      the counts that crashes lost. */
  ghost predicate Tells(w: World, h: History, tombstoned: nat, restored: nat) {
    && tombstoned + |h.burials.unsaved| == |Ghosts(h.rows0, w)|
    && restored + |h.fills.unsaved| == |h.fills.made|
    && |h.fills.unsaved| <= |Missing(h.rows0, w)|
    && restored == Fewer(|Missing(h.rows0, w)| - |h.fills.unsaved|, AUDIT_RESTORE_LIMIT)
  }

  /** The counters say how many ghosts and, up to the limit, how many gaps there were. */
  ghost predicate CountsAll(w: World, rows0: map<Id, Row>, tombstoned: nat, restored: nat) {
    tombstoned == |Ghosts(rows0, w)| && restored == Fewer(|Missing(rows0, w)|, 500)
  }

  /** They say it but for so many burials and so many restores. */
  ghost predicate CountsAllBut(w: World, rows0: map<Id, Row>, tombstoned: nat, restored: nat, burials: nat, fills: nat) {
    && tombstoned + burials == |Ghosts(rows0, w)|
    && fills <= |Missing(rows0, w)| && restored == Fewer(|Missing(rows0, w)| - fills, AUDIT_RESTORE_LIMIT)
  }

  /** Both counters are exact if and only if no call was cut short -- or, for the restores,
      there was more to restore than an audit may. */
  lemma CountsAllUnlessCut(w: World, rows0: map<Id, Row>, tombstoned: nat, restored: nat, burials: nat, fills: nat)
    requires CountsAllBut(w, rows0, tombstoned, restored, burials, fills)
    ensures CountsAll(w, rows0, tombstoned, restored) <==>
              burials == 0 && (fills == 0 || fills + AUDIT_RESTORE_LIMIT <= |Missing(rows0, w)|)
  {
  }

  lemma TellsAll(w: World, h: History, tombstoned: nat, restored: nat)
    requires Tells(w, h, tombstoned, restored)
    ensures LossOf(h) == NoLoss ==> CountsAll(w, h.rows0, tombstoned, restored)
  {
  }

  lemma TellsAllBut(w: World, h: History, tombstoned: nat, restored: nat)
    requires Tells(w, h, tombstoned, restored)
    ensures CountsAllBut(w, h.rows0, tombstoned, restored, |h.burials.unsaved|, |h.fills.unsaved|)
  {
  }

  lemma EveryGhostWasBuried(w: World, d: Disk, h: History, st: Round)
    requires Safe(d, h) && d.round == Some(st) && st.phase.Restore? && RestorePhase(w, d, h, st)
    ensures h.burials.made == Ghosts(h.rows0, w)
  {
    hide PartlyRestored;
  }

  lemma FilledOnlyGaps(w: World, d: Disk, h: History, st: Round)
    requires RestorePhase(w, d, h, st) && (d.live == {} || st.restored >= AUDIT_RESTORE_LIMIT)
    ensures h.fills.made <= Missing(h.rows0, w) && h.fills.undone == {} && h.burials.undone == {}
    ensures st.restored >= AUDIT_RESTORE_LIMIT || h.fills.made == Missing(h.rows0, w)
    ensures PartlyRestored(w, d.rows, h.rows0, h.fills.made)
  {
    hide SameRow, AuditedRow, Ghosts;
  }

  lemma WhatIsFilled(missing: set<Id>, t: Tally, restored: nat)
    requires t.made <= missing && t.undone == {} && Counted(restored, t, {}) && restored <= AUDIT_RESTORE_LIMIT
    requires restored >= AUDIT_RESTORE_LIMIT || t.made == missing
    ensures restored + |t.unsaved| == |t.made| <= |missing|
    ensures restored == Fewer(|missing| - |t.unsaved|, AUDIT_RESTORE_LIMIT)
    ensures |missing| <= AUDIT_RESTORE_LIMIT ==> t.made == missing
  {
    assert t.made - {} == t.made;
    SubsetIsNoLarger(t.made, missing);
    if t.made != missing {
      var x :| x in missing && x !in t.made;
      ProperSubsetIsSmaller(t.made, missing, x);
    }
  }

  lemma RoundIsComplete(w: World, d: Disk, h: History, st: Round)
    requires Safe(d, h) && d.round == Some(st) && st.phase.Restore? && RestorePhase(w, d, h, st)
    requires d.live == {} || st.restored >= AUDIT_RESTORE_LIMIT
    ensures Completed(w, d.rows, h) && Tells(w, h, st.tombstoned, st.restored)
  {
    hide Safe, SafeRound, RestorePhase, Ghosts, Missing, PartlyRestored;
    EveryGhostWasBuried(w, d, h, st);
    FilledOnlyGaps(w, d, h, st);
    TheEndIsClean(d, h, st);
    WhatIsFilled(Missing(h.rows0, w), h.fills, st.restored);
    assert h.burials.made - {} == h.burials.made;
  }

  /** No live row is left that the remote lacks; and if all gaps are filled the rows are
      those of the closed form. */
  lemma CompletedMeansAudited(w: World, rows: map<Id, Row>, h: History)
    requires Completed(w, rows, h)
    ensures LiveIds(rows) <= w.remote.Keys
    ensures h.fills.made == Missing(h.rows0, w) ==> SameRows(rows, Audited(h.rows0, w))
    ensures |Missing(rows, w)| == |Missing(h.rows0, w)| - |h.fills.made|
  {
    hide SameRows, PartlyRestored, LiveIds, Ghosts, Missing, Audited;
    NoGhostIsLeft(w, rows, h.rows0, h.fills.made);
    WhatIsStillMissing(w, rows, h.rows0, h.fills.made);
    if h.fills.made == Missing(h.rows0, w) {
      AllFilledIsAudited(w, rows, h);
    }
  }

  /** A ghost that turns up again after all comes back with the first write that is newer
      than what the mirror held of it. */
  lemma GhostsComeBack(w: World, rows: map<Id, Row>, h: History, id: Id, p: Payload)
    requires Completed(w, rows, h) && id in Ghosts(h.rows0, w) && h.rows0[id].raw.updatedAt.Some?
    ensures id in rows && !rows[id].Live() && rows[id].raw == h.rows0[id].raw
    ensures UpsertRow(rows[id], p).Live() <==> Later(p.updatedAt, h.rows0[id].raw.updatedAt)
  {
    assert SameRow(rows[id], AuditedRow(h.rows0[id], id, w));
  }

  lemma WhatIsStillMissing(w: World, rows: map<Id, Row>, rows0: map<Id, Row>, filled: set<Id>)
    requires PartlyRestored(w, rows, rows0, filled)
    ensures |Missing(rows, w)| == |Missing(rows0, w)| - |filled|
  {
    GapsFilled(w.remote.Keys, rows0.Keys, rows.Keys, filled);
  }

  lemma GapsFilled(remote: set<Id>, keys0: set<Id>, keys: set<Id>, filled: set<Id>)
    requires filled <= remote - keys0 && keys == keys0 + filled
    ensures |remote - keys| == |remote - keys0| - |filled|
  {
    assert remote - keys0 == (remote - keys) + filled;
  }

  lemma NoGhostIsLeft(w: World, rows: map<Id, Row>, rows0: map<Id, Row>, filled: set<Id>)
    requires PartlyRestored(w, rows, rows0, filled)
    ensures LiveIds(rows) <= w.remote.Keys
  {
    forall id | id in LiveIds(rows) ensures id in w.remote.Keys {
      if id in rows0 {
        assert SameRow(rows[id], AuditedRow(rows0[id], id, w));
      } else {
        assert id in filled;
      }
    }
  }

  /** The closed form at the end of a completed round, if at most the limit was missing. */
  lemma CompletedIsClosed(w: World, rows: map<Id, Row>, h: History)
    requires Completed(w, rows, h)
    ensures LiveIds(rows) <= w.remote.Keys
    ensures |Missing(h.rows0, w)| <= AUDIT_RESTORE_LIMIT ==> SameRows(rows, Audited(h.rows0, w))
  {
    CompletedMeansAudited(w, rows, h);
  }

  lemma AllFilledIsAudited(w: World, rows: map<Id, Row>, h: History)
    requires Completed(w, rows, h) && h.fills.made == Missing(h.rows0, w)
    ensures SameRows(rows, Audited(h.rows0, w))
  {
    hide LiveIds, AuditedRow;
    assert rows.Keys == h.rows0.Keys + w.remote.Keys;
  }

  /** Auditing is idempotent: on the rows an audit leaves there is nothing to do. */
  lemma AuditingTwiceIsOnce(rows: map<Id, Row>, w: World)
    ensures Audited(Audited(rows, w), w) == Audited(rows, w)
    ensures Missing(Audited(rows, w), w) == {} && LiveIds(Audited(rows, w)) <= w.remote.Keys
  {
    var once := Audited(rows, w);
    assert forall id :: id in once ==> AuditedRow(once[id], id, w) == once[id];
  }

  // ----- progress -------------------------------------------------------------------

  /** How much is left to do. A call that survives lowers it; one that dies does not
      raise it. */
  function Rank(w: World, d: Disk): nat {
    var base := 2 + |w.remote| + |d.rows|;
    if d.round.None? then base + LongestEnumeration(w.listing) + 1
    else
      match d.round.value.phase
      case Enumerate => base + EnumerationLeft(w.listing, d.round.value)
      case Confirm => 1 + |w.remote| + |d.candidate|
      case Restore => |d.live|
  }

  lemma StartingIsProgress(w: World, d: Disk, d': Disk, st: Round)
    requires d.round.None? && d'.round == Some(st) && st.phase.Enumerate? && d'.rows == d.rows
    ensures Rank(w, d') < Rank(w, d)
  {
    LeftIsBounded(w.listing, st);
  }

  lemma TurningIsProgress(w: World, d: Disk, st: Round, st': Round)
    requires d.round == Some(st) && st.phase.Enumerate? && st'.phase.Enumerate? && Less(w.listing, st', st)
    ensures Rank(w, d.(round := Some(st'))) < Rank(w, d)
  {
    LessIsLower(w.listing, st', st);
  }

  lemma CollectingCostsNothing(w: World, d: Disk, d': Disk, h: History, st: Round)
    requires d.round == d'.round == Some(st) && st.phase.Enumerate? && EnumeratePhase(w, d', h, st) && d'.rows == d.rows
    ensures Rank(w, d') == Rank(w, d) && OnTrack(w, d', h)
  {
  }

  lemma ConfirmRank(w: World, d: Disk, d': Disk)
    requires d.round.Some? && d'.round.Some? && d.round.value.phase.Confirm? && d'.round.value.phase.Confirm?
    requires d'.candidate <= d.candidate
    ensures Rank(w, d') <= Rank(w, d) && (d'.candidate < d.candidate ==> Rank(w, d') < Rank(w, d))
  {
    SmallerSets(d'.candidate, d.candidate);
  }

  lemma RestoreRank(w: World, d: Disk, d': Disk)
    requires d.round.Some? && d'.round.Some? && d.round.value.phase.Restore? && d'.round.value.phase.Restore?
    requires d'.live <= d.live
    ensures Rank(w, d') <= Rank(w, d) && (d'.live < d.live ==> Rank(w, d') < Rank(w, d))
  {
    SmallerSets(d'.live, d.live);
  }

  lemma SmallerSets(a: set<Id>, b: set<Id>)
    requires a <= b
    ensures |a| <= |b| && (a < b ==> |a| < |b|)
  {
    SubsetIsNoLarger(a, b);
    if a < b {
      var x :| x in b && x !in a;
      ProperSubsetIsSmaller(a, b, x);
    }
  }

  lemma SettledIsOnTrack(service: Service, w: World, log: seq<Request>, trail: seq<Write>, d0: Disk, d: Disk, h: History, st: Round, st': Round)
    requires Trusted(service, log, trail, d, h) && d0.round == d.round == Some(st) && st.phase.Enumerate? && st'.phase.Confirm?
    requires Trusted(service, log, trail, d.(round := Some(st')), h)
    requires EnumeratePhase(w, d, h, st) && h.enumerated == w.remote.Keys && d0.rows == d.rows
    requires d.candidate * h.enumerated == {} && d.live * d.known == {}
    ensures OnTrack(w, d.(round := Some(st')), h) && Rank(w, d.(round := Some(st'))) < Rank(w, d0)
  {
    Settles(w, d, h, st, st');
    SettlingIsProgress(w, d0, h, d.(round := Some(st')), st');
  }

  lemma SettlingIsProgress(w: World, d: Disk, h: History, d': Disk, st: Round)
    requires d.round.Some? && d.round.value.phase.Enumerate? && d'.round == Some(st) && st.phase.Confirm?
    requires Safe(d', h) && d'.rows == d.rows && ConfirmPhase(w, d', h)
    ensures Rank(w, d') < Rank(w, d)
  {
    assert d'.candidate <= d'.rows.Keys;
    SubsetIsNoLarger(d'.candidate, d'.rows.Keys);
    assert |d'.rows.Keys| == |d'.rows|;
  }

  lemma ConfirmingIsProgress(w: World, d: Disk, h: History, d': Disk, st: Round)
    requires d.round.Some? && d.round.value.phase.Confirm? && d'.round == Some(st) && st.phase.Restore?
    requires RestorePhase(w, d', h, st)
    ensures Rank(w, d') < Rank(w, d)
  {
    assert d'.live <= w.remote.Keys;
    SubsetIsNoLarger(d'.live, w.remote.Keys);
    assert |w.remote.Keys| == |w.remote|;
  }

  /** `ORDER BY CAST(pco_id AS INTEGER) LIMIT 1`. */
  function Least(ids: set<Id>): (id: Id)
    requires ids != {}
    ensures IsLeast(ids, id)
  {
    SomeIdIsLeast(ids);
    var id :| IsLeast(ids, id);
    id
  }

  lemma {:induction false} SomeIdIsLeast(ids: set<Id>)
    requires ids != {}
    ensures exists id :: IsLeast(ids, id)
  {
    var x :| x in ids;
    if forall other :: other in ids ==> x <= other {
      assert IsLeast(ids, x);
    } else {
      var z :| z in ids && z < x;
      assert z in ids - {x};
      SomeIdIsLeast(ids - {x});
      var y :| IsLeast(ids - {x}, y);
      assert forall other :: other in ids ==> other == x || other in ids - {x};
      assert y <= z && IsLeast(ids, y);
    }
  }
}
