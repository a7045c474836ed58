/**
 * The delete audit (pcomirror/ingest.py, `delete_audit_step` and `delete_audit`):
 * a round that is persisted statement by statement, sliced into calls of a bounded
 * number of requests, and that may die between any two statements. Module AuditRound
 * says what each statement keeps and what a round adds up to.
 */
module DeleteAudit {
  import opened Types
  import opened Rows
  import opened Paging
  import opened AuditListing
  import opened AuditRound

  datatype Outcome = Died | More(tombstoned: nat, restored: nat) | Done(tombstoned: nat, restored: nat)

  /** What a candidate's own GET, request number `heard`, makes the audit write. */
  function Heed(pid: Id, answer: Answer, heard: nat): Write {
    match answer
    case NotFound => Bury(pid, heard)
    case Found(p) => Affirm(pid, p, heard)
    case _ => NoWrite
  }

  /** And what a missing record's own GET makes it write. */
  function HeedGap(pid: Id, answer: Answer, heard: nat): Write {
    match answer
    case Found(p) => Fill(pid, p, heard)
    case _ => NoWrite
  }

  function Tombstoned(st: Round, counts: bool): Round {
    st.(tombstoned := st.tombstoned + if counts then 1 else 0)
  }

  function Refilled(st: Round, counts: bool): Round {
    st.(restored := st.restored + if counts then 1 else 0)
  }

  /** A process that could commit `before` more statements committed at most `n`, or died
      of having fewer. */
  predicate Spends(alive: bool, before: nat, after: nat, n: nat) {
    if alive then after <= before <= after + n else before < n
  }

  lemma AnAnswerIsHeeded(service: Service, log: seq<Request>, pid: Id, write: Write, rows0: map<Id, Row>, now: Time)
    requires log != [] && log[|log| - 1] == Get(pid)
    requires write == Heed(pid, Reply(service, |log| - 1, pid), |log| - 1) || write == HeedGap(pid, Reply(service, |log| - 1, pid), |log| - 1)
    ensures Heeded(service, log, |log| - 1, rows0, Written(rows0, write, now))
    ensures Reply(service, |log| - 1, pid).Found? ==>
              IsRecord(Written(rows0, write, now), pid, Reply(service, |log| - 1, pid).payload)
  {
    OneAnswerHeeded(service, log, pid, write, rows0, now);
  }

  lemma FollowingSpends(write: Write, p0: Process, p: Process)
    requires Follows(Script(write), p0, p)
    ensures Spends(p0.power >= |Script(write)|, p0.power, p.power, 3)
  {
  }

  /** As many statements as a call of this budget may need on a remote that does not change. */
  function StatementsFor(budget: nat): nat {
    10 + 103 * budget
  }

  /** The state a round begins in. */
  function Opening(supportsCreatedAtFilter: bool): Round {
    Round(Enumerate, if supportsCreatedAtFilter then Keyset else ByOffset, None, 0, 0, 0)
  }

  /** Where a page leaves the round: in the confirm phase after the last one. */
  predicate Turned(round: Option<Round>, last: bool) {
    round.Some? && !round.value.phase.Restore? && (round.value.phase.Confirm? <==> last)
  }

  class Auditor {
    const supportsCreatedAtFilter: bool
    /** What the database holds. */
    var disk: Disk
    /** The requests made and the statements committed so far. */
    var log: seq<Request>
    var trail: seq<Write>
    /** How many more statements this process will commit before it dies. */
    var power: nat
    ghost var history: History

    ghost function State(): Process
      reads this
    {
      Process(trail, power)
    }

    constructor (rows: map<Id, Row>, supportsCreatedAtFilter: bool)
      ensures disk == Disk(rows, {}, {}, {}, None) && log == [] && trail == []
      ensures forall service :: Trusted(service, log, trail, disk, history)
      ensures this.supportsCreatedAtFilter == supportsCreatedAtFilter
    {
      this.supportsCreatedAtFilter := supportsCreatedAtFilter;
      disk := Disk(rows, {}, {}, {}, None);
      log, trail, power := [], [], 0;
      history := History(rows, 0, 0, {}, NoTally, NoTally);
    }

    /** The door every persisted statement goes through: the process may be dead, and
        other threads may have written since the last one. */
    method Commit(service: Service, write: Write) returns (alive: bool)
      requires Trusted(service, log, trail, disk, history)
      requires Justified(service, log, history.asked, write) && Due(disk, write)
      modifies `disk, `trail, `power, `history
      ensures Trusted(service, log, trail, disk, history)
      ensures alive <==> old(power) > 0
      ensures disk == old(disk).(rows := disk.rows)
      ensures !alive ==> disk == old(disk) && trail == old(trail) && power == old(power) && history == old(history)
      ensures alive ==> power == old(power) - 1 && trail == old(trail) + [write] && history == Noted(old(history), write)
      ensures alive ==> disk.rows == Written(Others(service, |trail|, old(disk.rows)), write, Clock(service, |trail|))
      ensures alive && NobodyElseWrites(service) ==> disk.rows == Written(old(disk.rows), write, Clock(service, |trail|))
    {
      if power == 0 {
        return false;
      }
      CommittingIsVouched(service, log, trail, disk.rows, history, write);
      CommittingIsSafe(disk, history, write, Written(Others(service, |trail| + 1, disk.rows), write, Clock(service, |trail| + 1)));
      power, trail := power - 1, trail + [write];
      disk := disk.(rows := Written(Others(service, |trail|, disk.rows), write, Clock(service, |trail|)));
      history := Noted(history, write);
      return true;
    }

    /** A statement that leaves the table alone. */
    method CommitOnly(service: Service) returns (alive: bool)
      requires Trusted(service, log, trail, disk, history)
      modifies `disk, `trail, `power
      ensures Trusted(service, log, trail, disk, history)
      ensures alive <==> old(power) > 0
      ensures Idle(alive, old(State()), State())
      ensures disk == old(disk).(rows := disk.rows)
      ensures !alive ==> disk == old(disk) && trail == old(trail) && power == old(power)
      ensures alive ==> power == old(power) - 1 && trail == old(trail) + [NoWrite]
      ensures NobodyElseWrites(service) ==> disk.rows == old(disk.rows)
    {
      if power == 0 {
        return false;
      }
      CommittingIsVouched(service, log, trail, disk.rows, history, NoWrite);
      CommittingIsSafe(disk, history, NoWrite, Others(service, |trail| + 1, disk.rows));
      power, trail := power - 1, trail + [NoWrite];
      disk := disk.(rows := Others(service, |trail|, disk.rows));
      return true;
    }

    /** One GET of one record. */
    method Ask(service: Service, pid: Id) returns (answer: Answer)
      requires Trusted(service, log, trail, disk, history)
      modifies `log
      ensures Trusted(service, log, trail, disk, history)
      ensures log == old(log) + [Get(pid)] && answer == Reply(service, |log| - 1, pid) && history.asked <= |log| - 1
    {
      RequestingIsVouched(service, log, trail, disk.rows, history, Get(pid));
      log := log + [Get(pid)];
      answer := Reply(service, |log| - 1, pid);
    }

    /** One page of the enumeration. */
    method AskPage(service: Service, query: Query) returns (data: seq<Listed>)
      requires Trusted(service, log, trail, disk, history)
      modifies `log
      ensures Trusted(service, log, trail, disk, history)
      ensures log == old(log) + [List(query)] && data == ListReply(service, |log| - 1, query)
    {
      RequestingIsVouched(service, log, trail, disk.rows, history, List(query));
      log := log + [List(query)];
      data := ListReply(service, |log| - 1, query);
    }

    method StartRound(service: Service, ghost w: World) returns (alive: bool)
      requires Trusted(service, log, trail, disk, history) && disk.round.None?
      modifies `disk, `trail, `power, `history
      ensures Trusted(service, log, trail, disk, history)
      ensures NobodyElseWrites(service) ==> disk.rows == old(disk.rows)
      ensures !alive ==> disk.round.None?
      ensures alive ==> disk.round == Some(Opening(supportsCreatedAtFilter))
      ensures alive ==> history == History(history.rows0, history.since, |log|, {}, NoTally, NoTally)
      ensures Spends(alive, old(power), power, 5) && Idle(alive, old(State()), State())
      ensures Unchanging(service, w) ==>
                && disk.rows == old(disk.rows) && OnTrack(w, disk, history) && Rank(w, disk) <= old(Rank(w, disk))
                && (alive ==> history.rows0 == old(disk.rows) && Rank(w, disk) < old(Rank(w, disk)))
    {
      ghost var d0, p0 := disk, State();
      hide Safe, Trusted, OnTrack, Unchanging, Rank, NobodyElseWrites, Idle;
      if Unchanging(service, w) {
        UnchangingIsQuiet(service, w);
      }
      alive := CommitOnly(service);
      ghost var p := State();
      if alive {
        alive := Snapshot(service);
        IdleAgain(alive, p0, p, State());
      }
      p := State();
      if alive {
        alive := CommitOnly(service);
        IdleAgain(alive, p0, p, State());
      }
      NoRoundYet(service, w, log, trail, disk, history, d0);
      if !alive {
        return;
      }
      NoRoundYet(service, w, log, trail, disk, history, disk.(known := disk.rows.Keys));
      disk := disk.(known := disk.rows.Keys);
      p := State();
      alive := CommitOnly(service);
      IdleAgain(alive, p0, p, State());
      NoRoundYet(service, w, log, trail, disk, history, d0);
      if alive {
        ghost var d, st := disk, Opening(supportsCreatedAtFilter);
        disk := disk.(round := Some(Opening(supportsCreatedAtFilter)));
        OpeningIsTrusted(service, w, log, trail, d, history, d0, st);
      }
    }

    /** The scratch sets are emptied, and the candidates taken before the enumeration begins. */
    method Snapshot(service: Service) returns (alive: bool)
      requires Trusted(service, log, trail, disk, history) && disk.round.None?
      modifies `disk, `trail, `power, `history
      ensures Trusted(service, log, trail, disk, history)
      ensures disk.round.None? && (alive ==> disk == Disk(disk.rows, LiveIds(disk.rows), {}, {}, None))
      ensures alive ==> history == History(disk.rows, |trail|, |log|, {}, NoTally, NoTally)
      ensures Spends(alive, old(power), power, 2) && (!alive ==> power == 0) && Idle(alive, old(State()), State())
      ensures NobodyElseWrites(service) ==> disk.rows == old(disk.rows)
    {
      hide Safe, Trusted, NobodyElseWrites, Idle;
      ghost var p0 := State();
      alive := EmptyScratch(service);
      if alive {
        ghost var p := State();
        alive := CommitOnly(service);
        IdleAgain(alive, p0, p, State());
      }
      if !alive {
        return;
      }
      disk := disk.(candidate := LiveIds(disk.rows));
      history := History(disk.rows, |trail|, |log|, {}, NoTally, NoTally);
      ASnapshotIsTrusted(service, log, trail, disk, history);
    }

    method EmptyScratch(service: Service) returns (alive: bool)
      requires Trusted(service, log, trail, disk, history) && disk.round.None?
      modifies `disk, `trail, `power
      ensures Trusted(service, log, trail, disk, history)
      ensures (alive <==> old(power) > 0) && old(power) == if alive then power + 1 else power
      ensures Idle(alive, old(State()), State())
      ensures disk == if alive then Disk(disk.rows, {}, {}, {}, None) else old(disk)
      ensures NobodyElseWrites(service) ==> disk.rows == old(disk.rows)
    {
      hide Safe, Trusted, NobodyElseWrites, Idle;
      alive := CommitOnly(service);
      if alive {
        ScratchIsFree(service, log, trail, disk, history);
        disk := disk.(candidate := {}, known := {}, live := {});
      }
    }

    /** One request of the enumeration, and what it leads to. */
    method EnumeratePage(service: Service, st: Round, ghost w: World) returns (alive: bool)
      requires Trusted(service, log, trail, disk, history) && disk.round == Some(st) && st.phase.Enumerate?
      modifies this
      ensures Trusted(service, log, trail, disk, history)
      ensures NobodyElseWrites(service) ==> disk.rows == old(disk.rows)
      ensures history == old(history).(enumerated := history.enumerated) && Continues(old(history), history)
      ensures log == old(log) + [List(QueryOf(st))]
      ensures if alive then Turned(disk.round, LastPage(st, ListReply(service, |log| - 1, QueryOf(st)))) else disk.round == Some(st)
      ensures Spends(alive, old(power), power, |ListReply(service, |log| - 1, QueryOf(st))| + 3) && Idle(alive, old(State()), State())
      ensures Unchanging(service, w) && old(OnTrack(w, disk, history)) ==>
                && OnTrack(w, disk, history) && Rank(w, disk) <= old(Rank(w, disk))
                && (alive ==> Rank(w, disk) < old(Rank(w, disk)))
    {
      hide Safe, Trusted, Unchanging, EnumeratePhase, ConfirmPhase, RestorePhase, PageRead, Rank, LastPage, Idle, NobodyElseWrites;
      ghost var good := Unchanging(service, w) && OnTrack(w, disk, history);
      ghost var h0, p0 := history, State();
      var data := AskPage(service, QueryOf(st));
      if good {
        ListsTruthfully(service, w, |log| - 1, QueryOf(st));
        FrontierIsCollected(w, disk, history, st);
      }
      ghost var d0 := disk;
      alive := CollectPage(service, st, data, w);
      if good {
        CollectingCostsNothing(w, d0, disk, history, st);
      }
      if alive {
        if good {
          AfterAPage(w, disk, history, h0, st);
        }
        ghost var p := State();
        alive := TurnPage(service, st, data, w);
        IdleAgain(alive, p0, p, State());
      }
    }

    /** What the page leads to: a fallback or a step of the cursor, or the end of the
        enumeration. */
    method TurnPage(service: Service, st: Round, data: seq<Listed>, ghost w: World) returns (alive: bool)
      requires Trusted(service, log, trail, disk, history) && disk.round == Some(st) && st.phase.Enumerate?
      modifies `disk, `trail, `power
      ensures Trusted(service, log, trail, disk, history)
      ensures NobodyElseWrites(service) ==> disk.rows == old(disk.rows)
      ensures if alive then Turned(disk.round, LastPage(st, data)) else disk.round == Some(st)
      ensures Spends(alive, old(power), power, 3) && Idle(alive, old(State()), State())
      ensures Unchanging(service, w) && old(EnumeratePhase(w, disk, history, st) && PageRead(w, disk, history, st, data)) ==>
                && OnTrack(w, disk, history) && Rank(w, disk) <= old(Rank(w, disk))
                && (alive ==> Rank(w, disk) < old(Rank(w, disk)))
    {
      hide Safe, Trusted, Unchanging, EnumeratePhase, Rank, LastPage, NobodyElseWrites, Idle;
      if LastPage(st, data) {
        alive := FinishEnumeration(service, st, Advance(st, data), w);
        return;
      }
      if Unchanging(service, w) {
        UnchangingIsQuiet(service, w);
      }
      ghost var d0 := disk;
      alive := CommitOnly(service);
      TurningIsTrusted(service, w, log, trail, disk, history, d0, st, Advance(st, data));
      if alive {
        disk := disk.(round := Some(Advance(st, data)));
      }
    }

    /** `INSERT OR IGNORE` of every id on the page, one statement each. */
    method CollectPage(service: Service, st: Round, data: seq<Listed>, ghost w: World) returns (alive: bool)
      requires Trusted(service, log, trail, disk, history) && disk.round == Some(st) && st.phase.Enumerate?
      modifies `disk, `trail, `power, `history
      ensures Trusted(service, log, trail, disk, history)
      ensures NobodyElseWrites(service) ==> disk.rows == old(disk.rows)
      ensures history == old(history).(enumerated := history.enumerated) && Continues(old(history), history)
      ensures disk == old(disk).(rows := disk.rows, live := disk.live) && (alive ==> disk.live == old(disk.live) + PageIds(data))
      ensures alive ==> history == old(history).(enumerated := old(history).enumerated + PageIds(data))
      ensures Spends(alive, old(power), power, |data|) && Idle(alive, old(State()), State())
      ensures Unchanging(service, w) && old(EnumeratePhase(w, disk, history, st)) && data == ListPage(w.listing, QueryOf(st)) ==>
                disk.rows == old(disk.rows) && EnumeratePhase(w, disk, history, st)
    {
      hide Safe, Trusted, Unchanging, EnumeratePhase, PageIds, Idle, NobodyElseWrites;
      ghost var good := Unchanging(service, w) && EnumeratePhase(w, disk, history, st) && data == ListPage(w.listing, QueryOf(st));
      if good {
        ListsTruthfully(service, w, 0, QueryOf(st));
      }
      NoPageIds(data);
      NothingIsIdle(State());
      for i := 0 to |data|
        invariant Trusted(service, log, trail, disk, history) && power == old(power) - i && Idle(true, old(State()), State())
        invariant disk == old(disk).(rows := disk.rows, live := old(disk.live) + PageIds(data[..i]))
        invariant history == old(history).(enumerated := old(history).enumerated + PageIds(data[..i]))
        invariant NobodyElseWrites(service) ==> disk.rows == old(disk.rows)
        invariant good ==> disk.rows == old(disk.rows) && EnumeratePhase(w, disk, history, st)
      {
        if good {
          PageIdsAreListed(w, st, i);
        }
        ghost var p := State();
        alive := CollectOne(service, st, data[i].id, w);
        IdleAgain(alive, old(State()), p, State());
        if !alive {
          return;
        }
        PageIdsGrow(data, i);
      }
      assert data[..|data|] == data;
      alive := true;
    }

    method CollectOne(service: Service, st: Round, id: Id, ghost w: World) returns (alive: bool)
      requires Trusted(service, log, trail, disk, history) && disk.round == Some(st) && st.phase.Enumerate?
      modifies `disk, `trail, `power, `history
      ensures Trusted(service, log, trail, disk, history)
      ensures NobodyElseWrites(service) ==> disk.rows == old(disk.rows)
      ensures disk == old(disk).(rows := disk.rows, live := old(disk).live + if alive then {id} else {})
      ensures history == if alive then old(history).(enumerated := old(history).enumerated + {id}) else old(history)
      ensures (alive <==> old(power) > 0) && (alive ==> power == old(power) - 1) && Idle(alive, old(State()), State())
      ensures Unchanging(service, w) && old(EnumeratePhase(w, disk, history, st)) && id in w.remote ==>
                disk.rows == old(disk.rows) && EnumeratePhase(w, disk, history, st)
    {
      hide Safe, Trusted, Unchanging, EnumeratePhase, NobodyElseWrites, Idle;
      if Unchanging(service, w) {
        UnchangingIsQuiet(service, w);
      }
      alive := CommitOnly(service);
      ghost var d, h := disk, history;
      if alive {
        disk := disk.(live := disk.live + {id});
        history := history.(enumerated := history.enumerated + {id});
        CollectingIsTrusted(service, w, log, trail, d, h, st, id);
      }
    }

    /** The page was the last one: settle the scratch sets, then save the confirm phase. */
    method FinishEnumeration(service: Service, st: Round, advanced: Round, ghost w: World) returns (alive: bool)
      requires Trusted(service, log, trail, disk, history) && disk.round == Some(st) && st.phase.Enumerate?
      requires advanced.tombstoned == st.tombstoned && advanced.restored == st.restored
      modifies `disk, `trail, `power
      ensures Trusted(service, log, trail, disk, history)
      ensures NobodyElseWrites(service) ==> disk.rows == old(disk.rows)
      ensures disk.round == Some(if alive then advanced.(phase := Confirm) else st)
      ensures Spends(alive, old(power), power, 3) && Idle(alive, old(State()), State())
      ensures Unchanging(service, w) && old(EnumeratePhase(w, disk, history, st)) && history.enumerated == w.remote.Keys ==>
                && OnTrack(w, disk, history) && Rank(w, disk) <= old(Rank(w, disk))
                && (alive ==> Rank(w, disk) < old(Rank(w, disk)))
    {
      hide Safe, Trusted, Unchanging, OnTrack, EnumeratePhase, ConfirmPhase, NobodyElseWrites, Rank, Idle;
      if Unchanging(service, w) {
        UnchangingIsQuiet(service, w);
      }
      ghost var d0, p0 := disk, State();
      alive := Settle(service, st, w);
      if alive {
        ghost var p := State();
        alive := CommitOnly(service);
        IdleAgain(alive, p0, p, State());
      }
      SettledIsTrusted(service, w, log, trail, d0, disk, history, st, advanced.(phase := Confirm));
      if alive {
        disk := disk.(round := Some(advanced.(phase := Confirm)));
      }
    }

    /** The set arithmetic that ends the enumeration, as its two statements. */
    method Settle(service: Service, st: Round, ghost w: World) returns (alive: bool)
      requires Trusted(service, log, trail, disk, history) && disk.round == Some(st) && st.phase.Enumerate?
      modifies `disk, `trail, `power
      ensures Trusted(service, log, trail, disk, history)
      ensures alive ==> disk.candidate == old(disk.candidate - disk.live) && disk.live == old(disk.live - disk.known) && disk.candidate * history.enumerated == {}
      ensures disk == old(disk).(rows := disk.rows, candidate := disk.candidate, live := disk.live)
      ensures Spends(alive, old(power), power, 2) && Idle(alive, old(State()), State())
      ensures NobodyElseWrites(service) ==> disk.rows == old(disk.rows)
      ensures NobodyElseWrites(service) && old(EnumeratePhase(w, disk, history, st)) ==> EnumeratePhase(w, disk, history, st)
    {
      hide Safe, Trusted, EnumeratePhase, NobodyElseWrites, Idle;
      ghost var p0 := State();
      alive := CommitOnly(service);
      if !alive {
        return;
      }
      SettlingIsTrusted(service, w, log, trail, disk, history, st);
      disk := disk.(candidate := disk.candidate - disk.live);
      ghost var p := State();
      alive := CommitOnly(service);
      IdleAgain(alive, p0, p, State());
      if !alive {
        return;
      }
      SettlingIsTrusted(service, w, log, trail, disk, history, st);
      assert disk.candidate * disk.live == {};
      disk := disk.(live := disk.live - disk.known);
    }

    method EnumerateSome(service: Service, until: nat, ghost w: World) returns (alive: bool)
      requires Trusted(service, log, trail, disk, history) && disk.round.Some? && disk.round.value.phase.Enumerate? && |log| <= until
      modifies this
      ensures Trusted(service, log, trail, disk, history) && Continues(old(history), history)
      ensures history == old(history).(enumerated := history.enumerated) && Idle(alive, old(State()), State())
      ensures old(log) <= log && |log| <= until && (forall k :: |old(log)| <= k < |log| ==> log[k].List?)
      ensures NobodyElseWrites(service) ==> disk.rows == old(disk.rows)
      ensures disk.round.Some? && !disk.round.value.phase.Restore?
      ensures alive && disk.round.value.phase.Enumerate? ==> |log| == until
      ensures Unchanging(service, w) && old(OnTrack(w, disk, history)) ==>
                && OnTrack(w, disk, history) && Rank(w, disk) <= old(Rank(w, disk))
                && (alive && |old(log)| < until ==> Rank(w, disk) < old(Rank(w, disk)))
                && Spends(alive, old(power), power, 103 * (|log| - |old(log)|))
    {
      hide Safe, Trusted, Unchanging, OnTrack, Rank, LastPage, Idle, NobodyElseWrites;
      ghost var good := Unchanging(service, w) && OnTrack(w, disk, history);
      alive := true;
      NothingIsIdle(State());
      while |log| < until && disk.round.value.phase.Enumerate?
        invariant Trusted(service, log, trail, disk, history) && Continues(old(history), history)
        invariant history == old(history).(enumerated := history.enumerated) && Idle(true, old(State()), State())
        invariant old(log) <= log && |log| <= until && alive && (forall k :: |old(log)| <= k < |log| ==> log[k].List?)
        invariant NobodyElseWrites(service) ==> disk.rows == old(disk.rows)
        invariant disk.round.Some? && !disk.round.value.phase.Restore? && (|log| == |old(log)| ==> disk.round == old(disk.round))
        invariant good ==>
            && OnTrack(w, disk, history) && Rank(w, disk) <= old(Rank(w, disk))
            && (|log| > |old(log)| ==> Rank(w, disk) < old(Rank(w, disk)))
            && Spends(alive, old(power), power, 103 * (|log| - |old(log)|))
      {
        if good {
          ListsTruthfully(service, w, |log|, QueryOf(disk.round.value));
        }
        ghost var p := State();
        alive := EnumeratePage(service, disk.round.value, w);
        IdleAgain(alive, old(State()), p, State());
        if !alive {
          return;
        }
      }
    }

    /** One candidate: its own GET, and what that leads to. */
    method ConfirmOne(service: Service, st: Round, pid: Id, ghost w: World) returns (alive: bool, write: Write)
      requires Trusted(service, log, trail, disk, history) && disk.round == Some(st) && st.phase.Confirm? && pid in disk.candidate
      modifies `disk, `log, `trail, `power, `history
      ensures Trusted(service, log, trail, disk, history) && Continues(old(history), history)
      ensures log == old(log) + [Get(pid)] && disk == old(disk).(rows := disk.rows, candidate := disk.candidate, round := disk.round)
      ensures Accounts(alive, old(State()), LossOf(old(history)), State(), LossOf(history)) && history.fills == old(history).fills
      ensures alive && Clean(old(disk), old(history)) ==> Clean(disk, history)
      ensures write == Heed(pid, Reply(service, |log| - 1, pid), |log| - 1)
      ensures (alive <==> old(power) >= |Script(write)|) && Spends(alive, old(power), power, 3)
      ensures Follows(Script(write), old(State()), State())
      ensures if alive then disk.round == Some(Tombstoned(st, write.Bury?)) && disk.candidate == old(disk.candidate) - {pid}
              else disk.round == Some(st) && disk.candidate <= old(disk.candidate)
      ensures history.burials.unsaved == old(history).burials.unsaved + (if write.Bury? && old(power) == 2 then {pid} else {})
      ensures alive && NobodyElseWrites(service) ==> disk.rows == Written(old(disk.rows), write, Clock(service, |old(trail)| + 1))
      ensures alive && NobodyElseWrites(service) && Reply(service, |log| - 1, pid).Found? ==>
                IsRecord(disk.rows, pid, Reply(service, |log| - 1, pid).payload)
      ensures alive && NobodyElseWrites(service) ==> Heeded(service, log, |old(log)|, old(disk.rows), disk.rows)
      ensures Unchanging(service, w) && old(OnTrack(w, disk, history)) ==> OnTrack(w, disk, history)
    {
      hide Safe, Trusted, OnTrack, Unchanging, ConfirmPhase, IsAudited, NobodyElseWrites, Written, Follows, Script, Accounts, Clean, Heeded, IsRecord;
      ghost var rows0, trail0 := disk.rows, |trail|;
      ghost var good := Unchanging(service, w) && OnTrack(w, disk, history);
      var answer := Ask(service, pid);
      write := Heed(pid, answer, |log| - 1);
      if good {
        SafeOf(service, log, trail, disk, history);
        CandidatesAreGone(w, disk, history, st, pid);
        AnswersTruthfully(service, w, |log| - 1, pid);
        ConfirmingIsOnTrack(w, disk, history, st);
      }
      alive := ConfirmHeard(service, st, pid, write, w);
      AnAnswerIsHeeded(service, log, pid, write, rows0, Clock(service, trail0 + 1));
      if good {
        ConfirmingIsOnTrack(w, disk, history, disk.round.value);
      }
    }

    /** The statements the answer leads to. */
    method ConfirmHeard(service: Service, st: Round, pid: Id, write: Write, ghost w: World) returns (alive: bool)
      requires Trusted(service, log, trail, disk, history) && disk.round == Some(st) && st.phase.Confirm? && pid in disk.candidate
      requires !write.Fill? && (write.Bury? ==> write.id == pid) && Justified(service, log, history.asked, write)
      modifies `disk, `trail, `power, `history
      ensures Trusted(service, log, trail, disk, history) && Continues(old(history), history)
      ensures disk == old(disk).(rows := disk.rows, candidate := disk.candidate, round := disk.round)
      ensures (alive <==> old(power) >= |Script(write)|) && Follows(Script(write), old(State()), State())
      ensures Accounts(alive, old(State()), LossOf(old(history)), State(), LossOf(history)) && Spends(alive, old(power), power, 3)
      ensures history.burials.unsaved == old(history).burials.unsaved + (if write.Bury? && old(power) == 2 then {pid} else {})
      ensures history.fills == old(history).fills && (alive && Clean(old(disk), old(history)) ==> Clean(disk, history))
      ensures if alive then disk.round == Some(Tombstoned(st, write.Bury?)) && disk.candidate == old(disk.candidate) - {pid}
              else disk.round == Some(st) && disk.candidate <= old(disk.candidate)
      ensures alive && NobodyElseWrites(service) ==> disk.rows == Written(old(disk.rows), write, Clock(service, |old(trail)| + 1))
      ensures Unchanging(service, w) && old(ConfirmPhase(w, disk, history)) && write.Bury? ==> ConfirmPhase(w, disk, history)
    {
      hide Safe, Trusted, Unchanging, ConfirmPhase, IsAudited, NobodyElseWrites, Written, Noted, Handled, Follows, Accounts, Clean;
      PendingIsNotLost(service, log, trail, disk, history, pid);
      ghost var d0, h0, p0 := disk, history, State();
      alive := HeedAnswer(service, st, pid, write, w);
      ghost var p1 := State();
      if alive {
        alive := DropCandidate(service, st, pid, write.Bury?, w);
      } else {
        NothingFollows([NoWrite, NoWrite], p1);
      }
      FollowsOn(write, p0, p1, State());
      ConfirmAccounts(h0, history, pid, write, p0, State());
      FollowingSpends(write, p0, State());
      if alive && Clean(d0, h0) {
        ConfirmedIsClean(d0, h0, disk, history, pid, write, p0.power);
      }
    }

    /** The statement the answer calls for, if it calls for one. */
    method HeedAnswer(service: Service, st: Round, pid: Id, write: Write, ghost w: World) returns (alive: bool)
      requires Trusted(service, log, trail, disk, history) && disk.round == Some(st) && st.phase.Confirm? && pid in disk.candidate
      requires !write.Fill? && (write.Bury? ==> write.id == pid) && Justified(service, log, history.asked, write)
      modifies `disk, `trail, `power, `history
      ensures Trusted(service, log, trail, disk, history) && Continues(old(history), history)
      ensures disk == old(disk).(rows := disk.rows)
      ensures alive <==> old(power) >= if write.NoWrite? then 0 else 1
      ensures alive ==> power == old(power) - if write.NoWrite? then 0 else 1
      ensures !alive ==> power == old(power)
      ensures Follows(if write.NoWrite? then [] else [write], old(State()), State())
      ensures history == if alive then Noted(old(history), write) else old(history)
      ensures alive && write.Bury? ==> pid in history.burials.made
      ensures alive && NobodyElseWrites(service) ==> disk.rows == Written(old(disk.rows), write, Clock(service, |old(trail)| + 1))
      ensures Unchanging(service, w) && old(ConfirmPhase(w, disk, history)) && write.Bury? ==>
                ConfirmPhase(w, disk, history) && (alive ==> IsAudited(w, disk.rows, history, pid))
    {
      hide Written, Safe, Trusted, Unchanging, ConfirmPhase, IsAudited, NobodyElseWrites;
      alive := true;
      WritingNothing(disk.rows, Clock(service, |trail| + 1));
      if !write.NoWrite? {
        ghost var d, h := disk, history;
        if Unchanging(service, w) && ConfirmPhase(w, d, h) && write.Bury? {
          UnchangingIsQuiet(service, w);
          SafeOf(service, log, trail, d, h);
          BuryingStaysOnTrack(w, d, h, st, write, Clock(service, |trail| + 1));
        }
        alive := Commit(service, write);
      }
    }

    /** The removal of the scratch row and the save, as two statements. */
    method DropCandidate(service: Service, st: Round, pid: Id, counts: bool, ghost w: World) returns (alive: bool)
      requires Trusted(service, log, trail, disk, history) && disk.round == Some(st) && st.phase.Confirm? && pid in disk.candidate
      requires counts ==> pid in history.burials.made
      modifies `disk, `trail, `power, `history
      ensures Trusted(service, log, trail, disk, history) && Continues(old(history), history)
      ensures (alive <==> old(power) >= 2) && Follows([NoWrite, NoWrite], old(State()), State())
      ensures history == old(history).(burials := Handled(old(history).burials, pid, counts, Fewer(old(power), 2)))
      ensures if alive then disk.round == Some(Tombstoned(st, counts)) && disk.candidate == old(disk.candidate) - {pid}
              else disk.round == Some(st) && disk.candidate <= old(disk.candidate)
      ensures disk == old(disk).(rows := disk.rows, candidate := disk.candidate, round := disk.round)
      ensures NobodyElseWrites(service) ==> disk.rows == old(disk.rows)
      ensures Unchanging(service, w) && old(ConfirmPhase(w, disk, history) && IsAudited(w, disk.rows, history, pid)) && counts ==>
                ConfirmPhase(w, disk, history)
    {
      hide Trusted, Unchanging, ConfirmPhase, IsAudited, NobodyElseWrites, Continues, Dropped, Saved;
      ghost var h := history;
      ContinuesItself(h);
      alive := RemoveCandidate(service, st, pid, counts, w);
      if alive {
        DroppedContinues(h, pid, counts);
        alive := SaveConfirmed(service, st, pid, counts, w);
      }
    }

    method RemoveCandidate(service: Service, st: Round, pid: Id, counts: bool, ghost w: World) returns (alive: bool)
      requires Trusted(service, log, trail, disk, history) && disk.round == Some(st) && st.phase.Confirm? && pid in disk.candidate
      requires counts ==> pid in history.burials.made
      modifies `disk, `trail, `power, `history
      ensures Trusted(service, log, trail, disk, history)
      ensures (alive <==> old(power) >= 1) && Follows([NoWrite], old(State()), State())
      ensures disk == old(disk).(rows := disk.rows, candidate := old(disk).candidate - if alive then {pid} else {})
      ensures history == if alive then old(history).(burials := Dropped(old(history).burials, pid, counts)) else old(history)
      ensures pid !in old(history).burials.unsaved && (alive && counts ==> pid in history.burials.unsaved)
      ensures NobodyElseWrites(service) ==> disk.rows == old(disk.rows)
      ensures Unchanging(service, w) && old(ConfirmPhase(w, disk, history) && IsAudited(w, disk.rows, history, pid)) && counts ==>
                ConfirmPhase(w, disk, history)
    {
      hide Trusted, Unchanging, ConfirmPhase, IsAudited, NobodyElseWrites, Dropped;
      ghost var good := Unchanging(service, w) && ConfirmPhase(w, disk, history) && IsAudited(w, disk.rows, history, pid) && counts;
      if good {
        UnchangingIsQuiet(service, w);
      }
      alive := CommitOnly(service);
      ghost var d, h := disk, history;
      DroppedCandidateIsTrusted(service, w, log, trail, d, h, st, pid, counts);
      if alive {
        disk := disk.(candidate := disk.candidate - {pid});
        history := history.(burials := Dropped(history.burials, pid, counts));
        if good {
          DroppingACandidateStaysOnTrack(w, d, h, pid);
        }
      }
    }

    method SaveConfirmed(service: Service, st: Round, pid: Id, counts: bool, ghost w: World) returns (alive: bool)
      requires Trusted(service, log, trail, disk, history) && disk.round == Some(st) && st.phase.Confirm?
      requires counts ==> pid in history.burials.unsaved
      modifies `disk, `trail, `power, `history
      ensures Trusted(service, log, trail, disk, history)
      ensures (alive <==> old(power) >= 1) && Follows([NoWrite], old(State()), State())
      ensures disk == old(disk).(rows := disk.rows, round := Some(if alive then Tombstoned(st, counts) else st))
      ensures history == if alive && counts then old(history).(burials := Saved(old(history).burials, pid)) else old(history)
      ensures NobodyElseWrites(service) ==> disk.rows == old(disk.rows)
      ensures Unchanging(service, w) && old(ConfirmPhase(w, disk, history)) ==> ConfirmPhase(w, disk, history)
    {
      hide Trusted, Unchanging, ConfirmPhase, NobodyElseWrites, Saved;
      if Unchanging(service, w) {
        UnchangingIsQuiet(service, w);
      }
      alive := CommitOnly(service);
      ghost var d, h := disk, history;
      if alive {
        disk := disk.(round := Some(Tombstoned(st, counts)));
        if counts {
          history := history.(burials := Saved(history.burials, pid));
          SavedBurialIsTrusted(service, log, trail, d, h, st, pid);
          if ConfirmPhase(w, d, h) {
            SavingABurialStaysOnTrack(w, d, h, pid, Tombstoned(st, true));
          }
        } else {
          assert disk == d;
        }
      }
    }

    method ConfirmSome(service: Service, until: nat, ghost w: World) returns (alive: bool)
      requires Trusted(service, log, trail, disk, history) && disk.round.Some? && disk.round.value.phase.Confirm? && |log| <= until
      modifies `disk, `log, `trail, `power, `history
      ensures Trusted(service, log, trail, disk, history) && Continues(old(history), history)
      ensures old(log) <= log && |log| <= until
      ensures disk.round.Some? && !disk.round.value.phase.Enumerate?
      ensures alive && disk.round.value.phase.Confirm? ==> |log| == until
      ensures Spends(alive, old(power), power, 3 * (|log| - |old(log)|) + 1)
      ensures Accounts(alive, old(State()), LossOf(old(history)), State(), LossOf(history)) && history.fills == old(history).fills
      ensures alive && Clean(old(disk), old(history)) ==> Clean(disk, history)
      ensures alive && NobodyElseWrites(service) ==> Heeded(service, log, |old(log)|, old(disk.rows), disk.rows)
      ensures Unchanging(service, w) && old(OnTrack(w, disk, history)) ==>
                && OnTrack(w, disk, history) && Rank(w, disk) <= old(Rank(w, disk))
                && (alive && |old(log)| < until ==> Rank(w, disk) < old(Rank(w, disk)))
    {
      hide Safe, Trusted, Unchanging, OnTrack, Rank, NobodyElseWrites, Written, Heed, Idle, Accounts, Clean, Follows, Heeded, IsRecord;
      ghost var good := Unchanging(service, w) && OnTrack(w, disk, history);
      alive := true;
      NothingToHeed(service, log, |log|, disk.rows);
      NothingIsIdle(State());
      IdleLosesNothing(true, State(), State(), LossOf(history));
      while |log| < until && disk.candidate != {}
        invariant Trusted(service, log, trail, disk, history) && Continues(old(history), history)
        invariant old(log) <= log && |log| <= until && disk.round.Some? && disk.round.value.phase.Confirm? && alive
        invariant Spends(alive, old(power), power, 3 * (|log| - |old(log)|))
        invariant Accounts(true, old(State()), LossOf(old(history)), State(), LossOf(history)) && history.fills == old(history).fills
        invariant NobodyElseWrites(service) ==> Heeded(service, log, |old(log)|, old(disk.rows), disk.rows)
        invariant Clean(old(disk), old(history)) ==> Clean(disk, history)
        invariant good ==>
            && OnTrack(w, disk, history) && Rank(w, disk) <= old(Rank(w, disk))
            && (|log| > |old(log)| ==> Rank(w, disk) < old(Rank(w, disk)))
        decreases until - |log|
      {
        ghost var d, p, lost, asked := disk, State(), LossOf(history), log;
        var heeded;
        alive, heeded := ConfirmOne(service, disk.round.value, Least(disk.candidate), w);
        ConfirmRank(w, d, disk);
        if alive && NobodyElseWrites(service) {
          HeededOn(service, asked, log, |old(log)|, old(disk.rows), d.rows, disk.rows);
        }
        AccountsAddUp(alive, old(State()), LossOf(old(history)), p, lost, State(), LossOf(history));
        if !alive {
          return;
        }
      }
      if |log| < until {
        ghost var d, p := disk, State();
        alive := FinishConfirm(service, disk.round.value, w);
        if Clean(d, history) {
          CleanAsBefore(d, history, disk);
        }
        IdleLosesNothing(alive, p, State(), LossOf(history));
        AccountsAddUp(alive, old(State()), LossOf(old(history)), p, LossOf(history), State(), LossOf(history));
      }
    }

    /** No candidate is left: the restore phase begins. */
    method FinishConfirm(service: Service, st: Round, ghost w: World) returns (alive: bool)
      requires Trusted(service, log, trail, disk, history) && disk.round == Some(st) && st.phase.Confirm? && disk.candidate == {}
      modifies `disk, `trail, `power
      ensures Trusted(service, log, trail, disk, history)
      ensures NobodyElseWrites(service) ==> disk.rows == old(disk.rows)
      ensures disk == old(disk).(rows := disk.rows, round := Some(if alive then st.(phase := Restore) else st))
      ensures Spends(alive, old(power), power, 1) && Idle(alive, old(State()), State())
      ensures Unchanging(service, w) && old(OnTrack(w, disk, history)) ==>
                && OnTrack(w, disk, history) && Rank(w, disk) <= old(Rank(w, disk))
                && (alive ==> Rank(w, disk) < old(Rank(w, disk)))
    {
      hide Rank, Safe, Trusted, Unchanging, ConfirmPhase, RestorePhase, NobodyElseWrites, Idle;
      ghost var good := Unchanging(service, w) && OnTrack(w, disk, history);
      ghost var d0 := disk;
      if good {
        UnchangingIsQuiet(service, w);
      }
      alive := CommitOnly(service);
      if alive {
        ghost var d := disk;
        disk := disk.(round := Some(st.(phase := Restore)));
        SafeOf(service, log, trail, d, history);
        ConfirmedIsSafe(d, history, st);
        StillTrusted(service, log, trail, d, history, disk, history);
        if good {
          ConfirmsEverything(w, d, history, st);
          ConfirmingIsProgress(w, d0, history, disk, st.(phase := Restore));
        }
      }
    }

    /** One gap: its own GET, the record if there is one, and the removal of the scratch row. */
    method RestoreOne(service: Service, st: Round, pid: Id, ghost w: World) returns (alive: bool, write: Write)
      requires Trusted(service, log, trail, disk, history) && disk.round == Some(st) && st.phase.Restore? && IsLeast(disk.live, pid)
      requires st.restored < AUDIT_RESTORE_LIMIT
      modifies `disk, `log, `trail, `power, `history
      ensures Trusted(service, log, trail, disk, history) && Continues(old(history), history)
      ensures log == old(log) + [Get(pid)] && disk == old(disk).(rows := disk.rows, live := disk.live, round := disk.round)
      ensures Accounts(alive, old(State()), LossOf(old(history)), State(), LossOf(history)) && history.burials == old(history).burials
      ensures alive && Clean(old(disk), old(history)) ==> Clean(disk, history)
      ensures write == HeedGap(pid, Reply(service, |log| - 1, pid), |log| - 1)
      ensures (alive <==> old(power) >= |Script(write)|) && Spends(alive, old(power), power, 3)
      ensures Follows(Script(write), old(State()), State())
      ensures if alive then disk.round == Some(Refilled(st, write.Fill?)) && disk.live == old(disk.live) - {pid}
              else disk.round == Some(st) && disk.live <= old(disk.live)
      ensures history.fills.unsaved == old(history).fills.unsaved + (if write.Fill? && old(power) == 2 then {pid} else {})
      ensures alive && NobodyElseWrites(service) ==> disk.rows == Written(old(disk.rows), write, Clock(service, |old(trail)| + 1))
      ensures alive && NobodyElseWrites(service) && Reply(service, |log| - 1, pid).Found? ==>
                IsRecord(disk.rows, pid, Reply(service, |log| - 1, pid).payload)
      ensures alive && NobodyElseWrites(service) ==> Heeded(service, log, |old(log)|, old(disk.rows), disk.rows)
      ensures Unchanging(service, w) && old(OnTrack(w, disk, history)) ==> OnTrack(w, disk, history)
    {
      hide Safe, Trusted, OnTrack, Unchanging, RestorePhase, NobodyElseWrites, Written, Follows, Script, Accounts, Clean, IsLeast, Heeded, IsRecord;
      ghost var rows0, trail0 := disk.rows, |trail|;
      ghost var good := Unchanging(service, w) && OnTrack(w, disk, history);
      var answer := Ask(service, pid);
      write := HeedGap(pid, answer, |log| - 1);
      LeastIsIn(disk.live, pid);
      if good {
        GapsAreListed(w, disk, history, st, pid);
        AnswersTruthfully(service, w, |log| - 1, pid);
        RestoringIsOnTrack(w, disk, history, st);
      }
      alive := RestoreHeard(service, st, pid, write, w);
      AnAnswerIsHeeded(service, log, pid, write, rows0, Clock(service, trail0 + 1));
      if good {
        RestoringIsOnTrack(w, disk, history, disk.round.value);
      }
    }

    /** The statements the answer leads to. */
    method RestoreHeard(service: Service, st: Round, pid: Id, write: Write, ghost w: World) returns (alive: bool)
      requires Trusted(service, log, trail, disk, history) && disk.round == Some(st) && st.phase.Restore? && IsLeast(disk.live, pid)
      requires st.restored < AUDIT_RESTORE_LIMIT
      requires write.NoWrite? || (write.Fill? && write.id == pid && Justified(service, log, history.asked, write))
      modifies `disk, `trail, `power, `history
      ensures Trusted(service, log, trail, disk, history) && Continues(old(history), history)
      ensures disk == old(disk).(rows := disk.rows, live := disk.live, round := disk.round)
      ensures (alive <==> old(power) >= |Script(write)|) && Follows(Script(write), old(State()), State())
      ensures Accounts(alive, old(State()), LossOf(old(history)), State(), LossOf(history)) && Spends(alive, old(power), power, 3)
      ensures history.fills.unsaved == old(history).fills.unsaved + (if write.Fill? && old(power) == 2 then {pid} else {})
      ensures history.burials == old(history).burials && (alive && Clean(old(disk), old(history)) ==> Clean(disk, history))
      ensures if alive then disk.round == Some(Refilled(st, write.Fill?)) && disk.live == old(disk.live) - {pid}
              else disk.round == Some(st) && disk.live <= old(disk.live)
      ensures alive && NobodyElseWrites(service) ==> disk.rows == Written(old(disk.rows), write, Clock(service, |old(trail)| + 1))
      ensures Unchanging(service, w) && old(RestorePhase(w, disk, history, st)) && write.Fill? && Says(w, pid, write.payload) ==>
                RestorePhase(w, disk, history, disk.round.value)
    {
      hide Safe, Trusted, Unchanging, RestorePhase, NobodyElseWrites, Written, Noted, Handled, Follows, Accounts, Clean, IsLeast;
      LeastIsIn(disk.live, pid);
      PendingIsNotLost(service, log, trail, disk, history, pid);
      ghost var d0, h0, p0 := disk, history, State();
      alive := FillGap(service, st, pid, write, w);
      ghost var p1 := State();
      if alive {
        alive := DropLiveId(service, st, pid, write.Fill?, w);
      } else {
        NothingFollows([NoWrite, NoWrite], p1);
      }
      FollowsOn(write, p0, p1, State());
      RestoreAccounts(h0, history, pid, write, p0, State());
      FollowingSpends(write, p0, State());
      if alive && Clean(d0, h0) {
        RestoredIsClean(d0, h0, disk, history, pid, write, p0.power);
      }
    }

    /** The statement the answer calls for, if it calls for one. */
    method FillGap(service: Service, st: Round, pid: Id, write: Write, ghost w: World) returns (alive: bool)
      requires Trusted(service, log, trail, disk, history) && disk.round == Some(st) && st.phase.Restore? && IsLeast(disk.live, pid)
      requires st.restored < AUDIT_RESTORE_LIMIT
      requires write.NoWrite? || (write.Fill? && write.id == pid && Justified(service, log, history.asked, write))
      modifies `disk, `trail, `power, `history
      ensures Trusted(service, log, trail, disk, history) && Continues(old(history), history)
      ensures disk == old(disk).(rows := disk.rows)
      ensures alive <==> old(power) >= if write.NoWrite? then 0 else 1
      ensures alive ==> power == old(power) - if write.NoWrite? then 0 else 1
      ensures !alive ==> power == old(power)
      ensures Follows(if write.NoWrite? then [] else [write], old(State()), State())
      ensures history == if alive then Noted(old(history), write) else old(history)
      ensures alive && write.Fill? ==> pid in history.fills.made
      ensures alive && NobodyElseWrites(service) ==> disk.rows == Written(old(disk.rows), write, Clock(service, |old(trail)| + 1))
      ensures Unchanging(service, w) && old(RestorePhase(w, disk, history, st)) && write.Fill? && Says(w, pid, write.payload) ==>
                RestorePhase(w, disk, history, st)
    {
      hide Written, Safe, Trusted, Unchanging, RestorePhase, NobodyElseWrites;
      alive := true;
      WritingNothing(disk.rows, Clock(service, |trail| + 1));
      if !write.NoWrite? {
        ghost var d, h := disk, history;
        if Unchanging(service, w) && RestorePhase(w, d, h, st) && Says(w, pid, write.payload) {
          UnchangingIsQuiet(service, w);
          FillingStaysOnTrack(w, d, h, st, write, Clock(service, |trail| + 1));
        }
        alive := Commit(service, write);
      }
    }

    /** The removal of the scratch row and the save, as two statements. */
    method DropLiveId(service: Service, st: Round, pid: Id, counts: bool, ghost w: World) returns (alive: bool)
      requires Trusted(service, log, trail, disk, history) && disk.round == Some(st) && st.phase.Restore? && IsLeast(disk.live, pid)
      requires st.restored < AUDIT_RESTORE_LIMIT && (counts ==> pid in history.fills.made)
      modifies `disk, `trail, `power, `history
      ensures Trusted(service, log, trail, disk, history) && Continues(old(history), history)
      ensures (alive <==> old(power) >= 2) && Follows([NoWrite, NoWrite], old(State()), State())
      ensures history == old(history).(fills := Handled(old(history).fills, pid, counts, Fewer(old(power), 2)))
      ensures if alive then disk.round == Some(Refilled(st, counts)) && disk.live == old(disk.live) - {pid}
              else disk.round == Some(st) && disk.live <= old(disk.live)
      ensures disk == old(disk).(rows := disk.rows, live := disk.live, round := disk.round)
      ensures NobodyElseWrites(service) ==> disk.rows == old(disk.rows)
      ensures Unchanging(service, w) && old(RestorePhase(w, disk, history, st)) && counts ==>
                RestorePhase(w, disk, history, disk.round.value)
    {
      hide Trusted, Unchanging, RestorePhase, NobodyElseWrites, Continues, Dropped, Saved;
      ghost var h := history;
      ContinuesItself(h);
      alive := RemoveLiveId(service, st, pid, counts, w);
      if alive {
        DroppedContinues(h, pid, counts);
        alive := SaveRestored(service, st, pid, counts, w);
      }
    }

    method RemoveLiveId(service: Service, st: Round, pid: Id, counts: bool, ghost w: World) returns (alive: bool)
      requires Trusted(service, log, trail, disk, history) && disk.round == Some(st) && st.phase.Restore? && IsLeast(disk.live, pid)
      requires counts ==> pid in history.fills.made
      modifies `disk, `trail, `power, `history
      ensures Trusted(service, log, trail, disk, history)
      ensures (alive <==> old(power) >= 1) && Follows([NoWrite], old(State()), State())
      ensures disk == old(disk).(rows := disk.rows, live := old(disk).live - if alive then {pid} else {})
      ensures history == if alive then old(history).(fills := Dropped(old(history).fills, pid, counts)) else old(history)
      ensures pid !in old(history).fills.unsaved && (alive && counts ==> pid in history.fills.unsaved)
      ensures alive ==> disk.live * history.fills.made == {}
      ensures NobodyElseWrites(service) ==> disk.rows == old(disk.rows)
      ensures Unchanging(service, w) && old(RestorePhase(w, disk, history, st)) && counts ==> RestorePhase(w, disk, history, st)
    {
      hide Trusted, Unchanging, RestorePhase, NobodyElseWrites, Dropped, IsLeast;
      ghost var good := Unchanging(service, w) && RestorePhase(w, disk, history, st) && counts;
      if good {
        UnchangingIsQuiet(service, w);
      }
      alive := CommitOnly(service);
      ghost var d, h := disk, history;
      DroppedLiveIdIsTrusted(service, log, trail, d, h, st, pid, counts);
      if alive {
        disk := disk.(live := disk.live - {pid});
        history := history.(fills := Dropped(history.fills, pid, counts));
        if good {
          DroppingALiveIdStaysOnTrack(w, d, h, st, pid);
        }
      }
    }

    method SaveRestored(service: Service, st: Round, pid: Id, counts: bool, ghost w: World) returns (alive: bool)
      requires Trusted(service, log, trail, disk, history) && disk.round == Some(st) && st.phase.Restore?
      requires st.restored < AUDIT_RESTORE_LIMIT && disk.live * history.fills.made == {} && (counts ==> pid in history.fills.unsaved)
      modifies `disk, `trail, `power, `history
      ensures Trusted(service, log, trail, disk, history)
      ensures (alive <==> old(power) >= 1) && Follows([NoWrite], old(State()), State())
      ensures disk == old(disk).(rows := disk.rows, round := Some(if alive then Refilled(st, counts) else st))
      ensures history == if alive && counts then old(history).(fills := Saved(old(history).fills, pid)) else old(history)
      ensures NobodyElseWrites(service) ==> disk.rows == old(disk.rows)
      ensures Unchanging(service, w) && old(RestorePhase(w, disk, history, st)) ==> RestorePhase(w, disk, history, disk.round.value)
    {
      hide Trusted, Unchanging, RestorePhase, NobodyElseWrites, Saved;
      if Unchanging(service, w) {
        UnchangingIsQuiet(service, w);
      }
      alive := CommitOnly(service);
      ghost var d, h := disk, history;
      if alive {
        disk := disk.(round := Some(Refilled(st, counts)));
        if counts {
          history := history.(fills := Saved(history.fills, pid));
          SavedFillIsTrusted(service, log, trail, d, h, st, pid);
          if RestorePhase(w, d, h, st) {
            SavingAFillStaysOnTrack(w, d, h, st, pid);
          }
        } else {
          assert disk == d;
        }
      }
    }

    /** The round is over: its scratch sets, the request it answers and its state go. */
    method FinishRound(service: Service, st: Round, ghost w: World) returns (alive: bool)
      requires Trusted(service, log, trail, disk, history) && disk.round == Some(st) && st.phase.Restore?
      requires disk.live == {} || st.restored >= AUDIT_RESTORE_LIMIT
      modifies `disk, `trail, `power
      ensures Trusted(service, log, trail, disk, history)
      ensures NobodyElseWrites(service) ==> disk.rows == old(disk.rows)
      ensures disk.round == if alive then None else Some(st)
      ensures Counted(st.tombstoned, history.burials, {}) && Counted(st.restored, history.fills, {}) && st.restored <= AUDIT_RESTORE_LIMIT
      ensures Spends(alive, old(power), power, 4) && Idle(alive, old(State()), State())
      ensures alive && Clean(old(disk), history) ==> Clean(disk, history)
      ensures Unchanging(service, w) && old(OnTrack(w, disk, history)) ==>
                && OnTrack(w, disk, history) && (!alive ==> disk.live <= old(disk.live))
                && (alive ==> Completed(w, disk.rows, history) && Tells(w, history, st.tombstoned, st.restored))
    {
      hide Safe, Trusted, Unchanging, OnTrack, RestorePhase, Completed, Tells, Counted, NobodyElseWrites, Idle, Clean;
      ghost var good := Unchanging(service, w) && OnTrack(w, disk, history);
      ghost var d0, p0 := disk, State();
      TheEndIsTrusted(service, log, trail, disk, history, st);
      if good {
        UnchangingIsQuiet(service, w);
        RestoringIsOnTrack(w, disk, history, st);
        SafeOf(service, log, trail, disk, history);
        RoundIsComplete(w, disk, history, st);
        DroppingTheScratchSetsStaysOnTrack(w, disk, history, st);
      }
      alive := DropScratch(service, st);
      if !alive {
        return;
      }
      if good {
        RestoringIsOnTrack(w, disk, history, st);
      }
      ghost var p := State();
      alive := Conclude(service, st);
      IdleAgain(alive, p0, p, State());
      if alive && Clean(d0, history) {
        CleanAsBefore(d0, history, disk);
      }
      if alive {
        NoRoundYet(service, w, log, trail, disk, history, disk);
      }
    }

    method DropScratch(service: Service, st: Round) returns (alive: bool)
      requires Trusted(service, log, trail, disk, history) && disk.round == Some(st) && st.phase.Restore?
      requires disk.live == {} || st.restored >= AUDIT_RESTORE_LIMIT
      modifies `disk, `trail, `power
      ensures Trusted(service, log, trail, disk, history)
      ensures (alive <==> old(power) > 0) && old(power) == if alive then power + 1 else power
      ensures Idle(alive, old(State()), State())
      ensures disk == if alive then Disk(disk.rows, {}, {}, {}, Some(st)) else old(disk)
      ensures NobodyElseWrites(service) ==> disk.rows == old(disk.rows)
    {
      hide Safe, Trusted, NobodyElseWrites, Idle;
      alive := CommitOnly(service);
      if alive {
        TheEndIsTrusted(service, log, trail, disk, history, st);
        disk := disk.(candidate := {}, known := {}, live := {});
      }
    }

    /** The completion is recorded, the request that asked for the audit and its state go. */
    method Conclude(service: Service, st: Round) returns (alive: bool)
      requires Trusted(service, log, trail, disk, history) && disk.round == Some(st)
      modifies `disk, `trail, `power
      ensures Trusted(service, log, trail, disk, history)
      ensures disk == old(disk).(rows := disk.rows, round := if alive then None else Some(st))
      ensures Spends(alive, old(power), power, 3) && Idle(alive, old(State()), State())
      ensures NobodyElseWrites(service) ==> disk.rows == old(disk.rows)
    {
      hide Safe, Trusted, NobodyElseWrites, Idle;
      NothingIsIdle(State());
      for i := 0 to 3
        invariant Trusted(service, log, trail, disk, history) && disk == old(disk).(rows := disk.rows) && power == old(power) - i
        invariant Idle(true, old(State()), State())
        invariant NobodyElseWrites(service) ==> disk.rows == old(disk.rows)
      {
        ghost var p := State();
        alive := CommitOnly(service);
        IdleAgain(alive, old(State()), p, State());
        if !alive {
          return;
        }
      }
      RoundIsOver(service, log, trail, disk, history);
      disk := disk.(round := None);
      alive := true;
    }

    method RestoreSome(service: Service, until: nat, ghost w: World) returns (outcome: Outcome)
      requires Trusted(service, log, trail, disk, history) && disk.round.Some? && disk.round.value.phase.Restore? && |log| <= until
      modifies this
      ensures Trusted(service, log, trail, disk, history) && Continues(old(history), history)
      ensures old(log) <= log && |log| <= until
      ensures if outcome.Done? then disk.round.None? else disk.round.Some?
      ensures outcome.More? ==> disk.round.Some? && outcome == More(disk.round.value.tombstoned, disk.round.value.restored)
      ensures outcome.Done? ==>
                && Counted(outcome.tombstoned, history.burials, {}) && Counted(outcome.restored, history.fills, {})
                && outcome.restored <= AUDIT_RESTORE_LIMIT
      ensures Spends(!outcome.Died?, old(power), power, 3 * (|log| - |old(log)|) + 4) && (outcome.More? ==> |log| == until)
      ensures Accounts(!outcome.Died?, old(State()), LossOf(old(history)), State(), LossOf(history))
      ensures !outcome.Died? && Clean(old(disk), old(history)) ==> Clean(disk, history)
      ensures !outcome.Died? && NobodyElseWrites(service) ==> Heeded(service, log, |old(log)|, old(disk.rows), disk.rows)
      ensures Unchanging(service, w) && old(OnTrack(w, disk, history)) ==>
                && OnTrack(w, disk, history)
                && (outcome.Done? ==> Completed(w, disk.rows, history) && Tells(w, history, outcome.tombstoned, outcome.restored))
                && (!outcome.Done? ==> Rank(w, disk) <= old(Rank(w, disk)))
                && (outcome.More? && |old(log)| < until ==> Rank(w, disk) < old(Rank(w, disk)))
    {
      hide Safe, Trusted, Unchanging, OnTrack, Completed, Tells, Counted, Rank, NobodyElseWrites, Written, HeedGap, Idle, Accounts, Clean, Follows, Heeded, IsRecord;
      ghost var good := Unchanging(service, w) && OnTrack(w, disk, history);
      var alive := true;
      NothingToHeed(service, log, |log|, disk.rows);
      NothingIsIdle(State());
      IdleLosesNothing(true, State(), State(), LossOf(history));
      while |log| < until && disk.live != {} && disk.round.value.restored < AUDIT_RESTORE_LIMIT
        invariant Trusted(service, log, trail, disk, history) && Continues(old(history), history)
        invariant old(log) <= log && |log| <= until && disk.round.Some? && disk.round.value.phase.Restore?
        invariant Spends(true, old(power), power, 3 * (|log| - |old(log)|))
        invariant Accounts(true, old(State()), LossOf(old(history)), State(), LossOf(history))
        invariant NobodyElseWrites(service) ==> Heeded(service, log, |old(log)|, old(disk.rows), disk.rows)
        invariant Clean(old(disk), old(history)) ==> Clean(disk, history)
        invariant good ==>
            && OnTrack(w, disk, history) && Rank(w, disk) <= old(Rank(w, disk))
            && (|log| > |old(log)| ==> Rank(w, disk) < old(Rank(w, disk)))
        decreases until - |log|
      {
        ghost var d, p, lost, asked := disk, State(), LossOf(history), log;
        var heeded;
        alive, heeded := RestoreOne(service, disk.round.value, Least(disk.live), w);
        RestoreRank(w, d, disk);
        if alive && NobodyElseWrites(service) {
          HeededOn(service, asked, log, |old(log)|, old(disk.rows), d.rows, disk.rows);
        }
        AccountsAddUp(alive, old(State()), LossOf(old(history)), p, lost, State(), LossOf(history));
        if !alive {
          return Died;
        }
      }
      var st := disk.round.value;
      if |log| < until {
        ghost var d, p := disk, State();
        alive := FinishRound(service, st, w);
        IdleLosesNothing(alive, p, State(), LossOf(history));
        AccountsAddUp(alive, old(State()), LossOf(old(history)), p, LossOf(history), State(), LossOf(history));
        if good && !alive {
          RestoreRank(w, d, disk);
        }
        return if alive then Done(st.tombstoned, st.restored) else Died;
      }
      return More(st.tombstoned, st.restored);
    }

    /** The rows the audit in progress -- or the next one -- is about. */
    ghost function Origin(): map<Id, Row>
      reads this
    {
      if disk.round.None? then disk.rows else history.rows0
    }

    /** The counts the audit in progress has lost so far. */
    ghost function LostSoFar(): Loss
      reads this
    {
      if disk.round.None? then NoLoss else LossOf(history)
    }

    /**
     * One bounded unit of the audit, resumed from wherever the last one stopped or
     * died. It makes at most `budget` requests, and loses a count exactly if it dies
     * between the removal of a scratch row and the save.
     */
    method DeleteAuditStep(service: Service, budget: nat, ghost w: World) returns (outcome: Outcome)
      requires Trusted(service, log, trail, disk, history)
      modifies this
      ensures Trusted(service, log, trail, disk, history)
      ensures old(log) <= log && |log| <= |old(log)| + budget && (outcome.More? ==> |log| == |old(log)| + budget)
      ensures old(disk.round).Some? ==> Continues(old(history), history) && (outcome.Done? || disk.round.Some?)
      ensures outcome.Done? ==>
                && disk.round.None?
                && Counted(outcome.tombstoned, history.burials, {}) && Counted(outcome.restored, history.fills, {})
                && outcome.restored <= AUDIT_RESTORE_LIMIT
      ensures outcome.More? ==> disk.round.Some? && outcome == More(disk.round.value.tombstoned, disk.round.value.restored)
      ensures Accounts(!outcome.Died?, old(State()), old(LostSoFar()), State(), if outcome.Done? then LossOf(history) else LostSoFar())
      ensures !outcome.Died? && old(disk.round.None? || Clean(disk, history)) ==>
                Clean(disk, history) && (outcome.Done? ==> outcome.tombstoned == |history.burials.made| && outcome.restored == |history.fills.made|)
      ensures !outcome.Died? && NobodyElseWrites(service) ==> Heeded(service, log, |old(log)|, old(disk.rows), disk.rows)
      ensures Unchanging(service, w) && old(OnTrack(w, disk, history)) ==>
                && OnTrack(w, disk, history)
                && (if outcome.Done? then history.rows0 == old(Origin()) else Origin() == old(Origin()))
                && (outcome.Done? ==> Completed(w, disk.rows, history) && Tells(w, history, outcome.tombstoned, outcome.restored))
                && (!outcome.Done? ==> Rank(w, disk) <= old(Rank(w, disk)))
                && (outcome.More? && budget > 0 ==> Rank(w, disk) < old(Rank(w, disk)))
                && (outcome.Died? ==> old(power) < StatementsFor(budget))
    {
      hide Safe, Trusted, Unchanging, OnTrack, Completed, Tells, Counted, Rank, Accounts, Idle, Clean, Heeded, NobodyElseWrites;
      var until := |log| + budget;
      ghost var p0, lost := State(), LostSoFar();
      if disk.round.None? {
        var alive := StartRound(service, w);
        IdleLosesNothing(alive, p0, State(), lost);
        if !alive {
          return Died;
        }
        EnumeratingIsClean(service, log, trail, disk, history);
      } else {
        NothingIsIdle(p0);
        IdleLosesNothing(true, p0, p0, lost);
      }
      ghost var p := State();
      outcome := ResumeRound(service, until, w);
      AccountsAddUp(!outcome.Died?, p0, lost, p, lost, State(), LossOf(history));
      if outcome.Done? && Clean(disk, history) {
        CleanCountersAreExact(disk, history, outcome.tombstoned, outcome.restored);
      }
    }

    /** The phases of the round, one after the other, until the requests are spent. */
    method ResumeRound(service: Service, until: nat, ghost w: World) returns (outcome: Outcome)
      requires Trusted(service, log, trail, disk, history) && disk.round.Some? && |log| <= until
      modifies this
      ensures Trusted(service, log, trail, disk, history) && Continues(old(history), history)
      ensures old(log) <= log && |log| <= until && (outcome.More? ==> |log| == until)
      ensures if outcome.Done? then disk.round.None? else disk.round.Some?
      ensures outcome.More? ==> disk.round.Some? && outcome == More(disk.round.value.tombstoned, disk.round.value.restored)
      ensures outcome.Done? ==>
                && Counted(outcome.tombstoned, history.burials, {}) && Counted(outcome.restored, history.fills, {})
                && outcome.restored <= AUDIT_RESTORE_LIMIT
      ensures Accounts(!outcome.Died?, old(State()), LossOf(old(history)), State(), LossOf(history))
      ensures !outcome.Died? && Clean(old(disk), old(history)) ==> Clean(disk, history)
      ensures !outcome.Died? && NobodyElseWrites(service) ==> Heeded(service, log, |old(log)|, old(disk.rows), disk.rows)
      ensures Unchanging(service, w) && old(OnTrack(w, disk, history)) ==>
                && OnTrack(w, disk, history)
                && (outcome.Done? ==> Completed(w, disk.rows, history) && Tells(w, history, outcome.tombstoned, outcome.restored))
                && (!outcome.Done? ==> Rank(w, disk) <= old(Rank(w, disk)))
                && (outcome.More? && |old(log)| < until ==> Rank(w, disk) < old(Rank(w, disk)))
                && (outcome.Died? ==> old(power) < 5 + 103 * (until - |old(log)|))
    {
      hide Safe, Trusted, Unchanging, OnTrack, Completed, Tells, Counted, Rank, Accounts, Idle, Clean, Heeded, NobodyElseWrites;
      ghost var p0, h0, asked, rows0 := State(), history, log, disk.rows;
      var alive := EnumerateIfDue(service, until, w);
      if !alive {
        return Died;
      }
      ghost var p, lost, asked1, rows1 := State(), LossOf(history), log, disk.rows;
      if disk.round.value.phase.Confirm? {
        alive := ConfirmSome(service, until, w);
        if alive && NobodyElseWrites(service) {
          HeededOn(service, asked1, log, |asked|, rows0, rows1, disk.rows);
        }
        AccountsAddUp(alive, p0, LossOf(h0), p, lost, State(), LossOf(history));
        if !alive {
          return Died;
        }
      }
      p, lost, asked1, rows1 := State(), LossOf(history), log, disk.rows;
      if disk.round.value.phase.Restore? {
        outcome := RestoreSome(service, until, w);
        if !outcome.Died? && NobodyElseWrites(service) {
          HeededOn(service, asked1, log, |asked|, rows0, rows1, disk.rows);
        }
        AccountsAddUp(!outcome.Died?, p0, LossOf(h0), p, lost, State(), LossOf(history));
        return;
      }
      return More(disk.round.value.tombstoned, disk.round.value.restored);
    }

    /** The enumeration, if that is where the round stands. */
    method EnumerateIfDue(service: Service, until: nat, ghost w: World) returns (alive: bool)
      requires Trusted(service, log, trail, disk, history) && disk.round.Some? && |log| <= until
      modifies this
      ensures Trusted(service, log, trail, disk, history) && Continues(old(history), history)
      ensures old(log) <= log && |log| <= until
      ensures disk.round.Some? && (alive && disk.round.value.phase.Enumerate? ==> |log| == until)
      ensures Accounts(alive, old(State()), LossOf(old(history)), State(), LossOf(history))
      ensures alive && Clean(old(disk), old(history)) ==> Clean(disk, history)
      ensures alive && NobodyElseWrites(service) ==> Heeded(service, log, |old(log)|, old(disk.rows), disk.rows)
      ensures Unchanging(service, w) && old(OnTrack(w, disk, history)) ==>
                && OnTrack(w, disk, history) && Rank(w, disk) <= old(Rank(w, disk))
                && (alive && |log| > |old(log)| ==> Rank(w, disk) < old(Rank(w, disk)))
                && Spends(alive, old(power), power, 103 * (|log| - |old(log)|))
    {
      hide Safe, Trusted, Unchanging, OnTrack, Rank, Accounts, Idle, Clean, Heeded, NobodyElseWrites;
      alive := true;
      ghost var p0, h0 := State(), history;
      ContinuesItself(h0);
      NothingIsIdle(p0);
      if disk.round.value.phase.Enumerate? {
        EnumeratingIsUncounted(service, log, trail, disk, history);
        alive := EnumerateSome(service, until, w);
        EnumeratingIsClean(service, log, trail, disk, history);
      }
      NothingToHeed(service, log, |old(log)|, disk.rows);
      IdleLosesNothing(alive, p0, State(), LossOf(h0));
    }

    /** Run to completion, as the command line does. */
    method DeleteAudit(service: Service, ghost w: World) returns (outcome: Outcome)
      requires Trusted(service, log, trail, disk, history)
      requires Unchanging(service, w) && OnTrack(w, disk, history)
      modifies this
      ensures Trusted(service, log, trail, disk, history) && OnTrack(w, disk, history)
      ensures outcome.Done? || outcome.Died?
      ensures outcome.Done? ==>
                && disk.round.None? && history.rows0 == old(Origin()) && Completed(w, disk.rows, history)
                && Tells(w, history, outcome.tombstoned, outcome.restored)
      ensures outcome.Died? ==> Origin() == old(Origin()) && Rank(w, disk) <= old(Rank(w, disk))
      ensures Accounts(outcome.Done?, old(State()), old(LostSoFar()), State(), if outcome.Done? then LossOf(history) else LostSoFar())
      ensures outcome.Done? && old(LostSoFar()) == NoLoss ==> CountsAll(w, old(Origin()), outcome.tombstoned, outcome.restored)
    {
      hide Safe, Trusted, Unchanging, OnTrack, Completed, Tells, Counted, Rank, Accounts, Idle, Clean, CountsAll;
      outcome := More(0, 0);
      ghost var p0, lost0 := State(), LostSoFar();
      NothingIsIdle(p0);
      IdleLosesNothing(true, p0, p0, lost0);
      while outcome.More?
        invariant Trusted(service, log, trail, disk, history) && OnTrack(w, disk, history)
        invariant if outcome.Done?
                  then && disk.round.None? && history.rows0 == old(Origin()) && Completed(w, disk.rows, history)
                       && Tells(w, history, outcome.tombstoned, outcome.restored)
                  else Origin() == old(Origin()) && Rank(w, disk) <= old(Rank(w, disk))
        invariant Accounts(!outcome.Died?, p0, lost0, State(), if outcome.Done? then LossOf(history) else LostSoFar())
        decreases outcome.More?, Rank(w, disk)
      {
        ghost var p, lost := State(), LostSoFar();
        outcome := DeleteAuditStep(service, 10_000, w);
        AccountsAddUp(!outcome.Died?, p0, lost0, p, lost, State(), if outcome.Done? then LossOf(history) else LostSoFar());
      }
      if outcome.Done? {
        SurvivorsLoseNothing(p0, lost0, State(), LossOf(history));
        TellsAll(w, history, outcome.tombstoned, outcome.restored);
      }
    }

    /** The way of a scheduler that lives: units of a few requests until the round is done. */
    method AuditInUnits(service: Service, unit: nat, ghost w: World) returns (outcome: Outcome)
      requires Trusted(service, log, trail, disk, history) && unit > 0
      requires Unchanging(service, w) && OnTrack(w, disk, history)
      modifies this
      ensures Trusted(service, log, trail, disk, history)
      ensures outcome.Done? && disk.round.None? && history.rows0 == old(Origin()) && Completed(w, disk.rows, history)
      ensures Tells(w, history, outcome.tombstoned, outcome.restored) && LossOf(history) == old(LostSoFar())
      ensures old(LostSoFar()) == NoLoss ==> CountsAll(w, old(Origin()), outcome.tombstoned, outcome.restored)
      ensures old(disk.round).Some? ==> Continues(old(history), history)
    {
      hide Safe, Trusted, Unchanging, OnTrack, Completed, Tells, Counted, Rank, StatementsFor, Accounts, Clean, CountsAll;
      outcome := More(0, 0);
      ghost var resumed := disk.round.Some?;
      while !outcome.Done?
        invariant Trusted(service, log, trail, disk, history) && OnTrack(w, disk, history)
        invariant if outcome.Done?
                  then && disk.round.None? && history.rows0 == old(Origin()) && Completed(w, disk.rows, history)
                       && Tells(w, history, outcome.tombstoned, outcome.restored) && LossOf(history) == old(LostSoFar())
                  else Origin() == old(Origin()) && LostSoFar() == old(LostSoFar())
        invariant resumed ==> (outcome.Done? || disk.round.Some?) && Continues(old(history), history)
        decreases !outcome.Done?, Rank(w, disk)
      {
        power := StatementsFor(unit);
        ghost var p := State();
        outcome := DeleteAuditStep(service, unit, w);
        SurvivorsLoseNothing(p, old(LostSoFar()), State(), if outcome.Done? then LossOf(history) else LostSoFar());
      }
      TellsAll(w, history, outcome.tombstoned, outcome.restored);
    }

    /**
     * Any division of the work into calls: the `i`-th call may make `plan[i].0`
     * requests and dies after `plan[i].1` statements. Once a call reports `Done`,
     * the rows are those of an uninterrupted audit, the counters are short of the
     * calls that a death cut between the removal of a scratch row and the save, and
     * a plan with more calls that live through their budget than there is to do gets
     * there.
     */
    method AuditInSlices(service: Service, plan: seq<(nat, nat)>, ghost w: World) returns (outcome: Outcome, ghost calls: seq<Call>)
      requires Trusted(service, log, trail, disk, history) && disk.round.None? && Unchanging(service, w)
      modifies this
      ensures Trusted(service, log, trail, disk, history)
      ensures Survivors(plan) > old(Rank(w, disk)) ==> outcome.Done?
      ensures outcome.Done? ==> history.rows0 == old(disk.rows) && Completed(w, disk.rows, history)
      ensures outcome.Done? ==> LiveIds(disk.rows) <= w.remote.Keys
      ensures outcome.Done? && |Missing(old(disk.rows), w)| <= AUDIT_RESTORE_LIMIT ==> SameRows(disk.rows, Audited(old(disk.rows), w))
      ensures Calls(plan, calls, old(trail), trail)
      ensures outcome.Done? ==> CountsAllBut(w, old(disk.rows), outcome.tombstoned, outcome.restored, BurialsCut(calls), FillsCut(calls))
      ensures outcome.Done? ==>
                (CountsAll(w, old(disk.rows), outcome.tombstoned, outcome.restored) <==>
                   BurialsCut(calls) == 0 && (FillsCut(calls) == 0 || FillsCut(calls) + AUDIT_RESTORE_LIMIT <= |Missing(old(disk.rows), w)|))
    {
      hide Safe, Trusted, Unchanging, EnumeratePhase, ConfirmPhase, RestorePhase, Completed, Tells, Counted, Rank, Survivors, SameRows,
        LiveIds, Missing, Accounts, Clean, Calls, CountsAll, CountsAllBut, BurialsCut, FillsCut;
      outcome, calls := More(0, 0), [];
      NoSurvivors(plan);
      NoCalls(plan, trail);
      for i := 0 to |plan|
        invariant Trusted(service, log, trail, disk, history) && OnTrack(w, disk, history) && !outcome.Done?
        invariant Origin() == old(disk.rows) && Survivors(plan[..i]) + Rank(w, disk) <= old(Rank(w, disk))
        invariant Calls(plan, calls, old(trail), trail) && |calls| == i
        invariant |LostSoFar().burials| == BurialsCut(calls) && |LostSoFar().fills| == FillsCut(calls)
      {
        power := plan[i].1;
        ghost var p, lost := State(), LostSoFar();
        outcome := DeleteAuditStep(service, plan[i].0, w);
        ACallMore(plan, calls, old(trail), Call(p, State()), !outcome.Died?, lost, if outcome.Done? then LossOf(history) else LostSoFar());
        calls := calls + [Call(p, State())];
        if outcome.Done? {
          CompletedIsClosed(w, disk.rows, history);
          TellsAllBut(w, history, outcome.tombstoned, outcome.restored);
          CountsAllUnlessCut(w, history.rows0, outcome.tombstoned, outcome.restored, BurialsCut(calls), FillsCut(calls));
          return;
        }
        OneMoreCall(plan, i);
      }
      assert plan[..|plan|] == plan;
    }
  }

  /** Two audits of the same rows -- each sliced and crashed in its own way, over services
      that only agree on the remote -- end alike. */
  method TwoAuditsAgree(rows: map<Id, Row>, supports: bool, one: Service, onePlan: seq<(nat, nat)>,
                        other: Service, otherPlan: seq<(nat, nat)>, ghost w: World)
    returns (a: map<Id, Row>, b: map<Id, Row>, finished: bool)
    requires Unchanging(one, w) && Unchanging(other, w)
    ensures finished && |Missing(rows, w)| <= AUDIT_RESTORE_LIMIT ==> SameRows(a, b)
    ensures Survivors(onePlan) > Rank(w, Disk(rows, {}, {}, {}, None)) && Survivors(otherPlan) > Rank(w, Disk(rows, {}, {}, {}, None)) ==>
              finished
  {
    hide Unchanging, SameRows, Audited, Missing, Survivors;
    var first := new Auditor(rows, supports);
    ghost var calls;
    var outcome, otherOutcome;
    outcome, calls := first.AuditInSlices(one, onePlan, w);
    var second := new Auditor(rows, supports);
    otherOutcome, calls := second.AuditInSlices(other, otherPlan, w);
    finished := outcome.Done? && otherOutcome.Done?;
    a, b := first.disk.rows, second.disk.rows;
    if finished && |Missing(rows, w)| <= AUDIT_RESTORE_LIMIT {
      SameRowsEitherWay(a, b, Audited(rows, w));
    }
  }

  // ----- a crash that loses a count -------------------------------------------------------

  /** A remote that holds these records and answers everything. */
  function Holding(w: World): Service {
    Service((k, q) => ListPage(w.listing, q), (k, id) => if id in w.remote then Found(w.remote[id]) else NotFound,
            (k, rows) => rows, k => 0)
  }

  lemma HoldingIsUnchanging(w: World)
    requires InOrder(w.listing) && AllIds(w.listing) == w.remote.Keys
    ensures Unchanging(Holding(w), w)
  {
  }

  lemma AShortListingIsOnePage(l: Listing, st: Round)
    requires |l.ord| < PER_PAGE && st.cursor.None?
    ensures LastPage(st, ListPage(l, QueryOf(st)))
  {
  }

  /** A round over a listing of a single page, up to its confirm phase. */
  method EnumerateOnePage(auditor: Auditor, service: Service, ghost w: World)
    requires Trusted(service, auditor.log, auditor.trail, auditor.disk, auditor.history) && auditor.disk.round.None?
    requires Unchanging(service, w) && |w.listing.ord| < PER_PAGE
    modifies auditor
    ensures Trusted(service, auditor.log, auditor.trail, auditor.disk, auditor.history)
    ensures auditor.disk.round.Some? && auditor.disk.round.value.phase.Confirm? && OnTrack(w, auditor.disk, auditor.history)
    ensures auditor.history.rows0 == old(auditor.disk).rows && auditor.history.burials == auditor.history.fills == NoTally
  {
    hide Unchanging, Trusted, OnTrack, Rank, LastPage, ListPage, QueryOf;
    NoRoundYet(service, w, auditor.log, auditor.trail, auditor.disk, auditor.history, auditor.disk);
    auditor.power := StatementsFor(1);
    var alive := auditor.StartRound(service, w);
    var st := auditor.disk.round.value;
    ListsTruthfully(service, w, |auditor.log|, QueryOf(st));
    AShortListingIsOnePage(w.listing, st);
    alive := auditor.EnumeratePage(service, st, w);
  }

  /** One live row the remote has no more; the process dies after the removal of its scratch
      row, before the save. The audit ends with that row buried and none counted. */
  method ACrashLosesABurial() returns (auditor: Auditor, outcome: Outcome)
    ensures outcome.Done? && outcome.tombstoned == 0 && auditor.history.burials.made == {1}
  {
    hide Unchanging, Trusted, OnTrack, Completed, Tells, Rank, Counted, Written, NobodyElseWrites, Accounts, Clean, CountsAll, Idle,
      Follows, Least;
    var rows, w := map[1 := NewRow(Payload(Some(0), {}, None, ""))], World(Listing([], true), map[]);
    assert AllIds(w.listing) == {} == w.remote.Keys;
    HoldingIsUnchanging(w);
    auditor := new Auditor(rows, true);
    EnumerateOnePage(auditor, Holding(w), w);
    GhostsAreCandidates(w, auditor.disk, auditor.history, auditor.disk.round.value);
    AnswersTruthfully(Holding(w), w, |auditor.log|, 1);
    auditor.power := 2;
    var alive, write := auditor.ConfirmOne(Holding(w), auditor.disk.round.value, 1, w);
    outcome := auditor.AuditInUnits(Holding(w), 8, w);
    ABurialIsNotCounted(w, auditor.disk.rows, auditor.history, outcome.tombstoned, outcome.restored);
  }

  /** One record the mirror lacks; the process dies after the removal of its scratch row,
      before the save. The audit ends with that record stored and none counted. */
  method ACrashLosesARestore() returns (auditor: Auditor, outcome: Outcome)
    ensures outcome.Done? && outcome.restored == 0 && auditor.history.fills.made == {1}
  {
    hide Unchanging, Trusted, OnTrack, Completed, Tells, Rank, Counted, Written, NobodyElseWrites, Accounts, Clean, CountsAll, Idle,
      Follows, Least;
    var w := World(Listing([Listed(1, 0)], true), map[1 := Payload(Some(0), {}, None, "")]);
    assert w.listing.ord[0].id == 1 && AllIds(w.listing) == {1} == w.remote.Keys;
    HoldingIsUnchanging(w);
    auditor := new Auditor(map[], true);
    EnumerateOnePage(auditor, Holding(w), w);
    NobodyIsACandidate(Holding(w), auditor.log, auditor.trail, auditor.disk, auditor.history, auditor.disk.round.value);
    auditor.power := 1;
    var alive := auditor.FinishConfirm(Holding(w), auditor.disk.round.value, w);
    TheGapIsNext(w, auditor.disk, auditor.history, auditor.disk.round.value);
    AnswersTruthfully(Holding(w), w, |auditor.log|, 1);
    auditor.power := 2;
    var write;
    alive, write := auditor.RestoreOne(Holding(w), auditor.disk.round.value, 1, w);
    outcome := auditor.AuditInUnits(Holding(w), 8, w);
    ARestoreIsNotCounted(w, auditor.disk.rows, auditor.history, outcome.tombstoned, outcome.restored);
  }

  lemma GhostsAreCandidates(w: World, d: Disk, h: History, st: Round)
    requires d.round == Some(st) && st.phase.Confirm? && OnTrack(w, d, h) && h.burials == NoTally
    ensures Ghosts(h.rows0, w) <= d.candidate
  {
  }

  lemma ABurialIsNotCounted(w: World, rows: map<Id, Row>, h: History, tombstoned: nat, restored: nat)
    requires Completed(w, rows, h) && Tells(w, h, tombstoned, restored)
    requires Ghosts(h.rows0, w) == {1} && 1 in h.burials.unsaved
    ensures tombstoned == 0 && h.burials.made == {1}
  {
    SubsetIsNoLarger({1}, h.burials.unsaved);
  }

  lemma NobodyIsACandidate(service: Service, log: seq<Request>, trail: seq<Write>, d: Disk, h: History, st: Round)
    requires Trusted(service, log, trail, d, h) && d.round == Some(st) && st.phase.Confirm? && h.rows0 == map[]
    ensures d.candidate == {} && st.restored == 0
  {
    SafeOf(service, log, trail, d, h);
  }

  lemma TheGapIsNext(w: World, d: Disk, h: History, st: Round)
    requires d.round == Some(st) && st.phase.Restore? && OnTrack(w, d, h) && h.fills == NoTally && st.restored == 0
    requires h.rows0 == map[] && w.remote.Keys == {1}
    ensures IsLeast(d.live, 1)
  {
    assert Missing(h.rows0, w) == {1};
  }

  lemma ARestoreIsNotCounted(w: World, rows: map<Id, Row>, h: History, tombstoned: nat, restored: nat)
    requires Completed(w, rows, h) && Tells(w, h, tombstoned, restored)
    requires h.rows0 == map[] && w.remote.Keys == {1} && 1 in h.fills.unsaved
    ensures restored == 0 && h.fills.made == {1}
  {
    assert Missing(h.rows0, w) == {1};
    SubsetIsNoLarger({1}, h.fills.unsaved);
  }

  // ----- plans ------------------------------------------------------------------------------

  /** The calls of a plan that may make a request and live through their budget. */
  function Survivors(plan: seq<(nat, nat)>): nat {
    if plan == [] then 0
    else
      var call := plan[|plan| - 1];
      Survivors(plan[..|plan| - 1]) + if call.0 > 0 && call.1 >= StatementsFor(call.0) then 1 else 0
  }

  lemma NoSurvivors(plan: seq<(nat, nat)>)
    ensures Survivors(plan[..0]) == 0
  {
  }

  lemma OneMoreCall(plan: seq<(nat, nat)>, i: nat)
    requires i < |plan|
    ensures Survivors(plan[..i + 1]) ==
            Survivors(plan[..i]) + if plan[i].0 > 0 && plan[i].1 >= StatementsFor(plan[i].0) then 1 else 0
  {
    assert plan[..i + 1][..i] == plan[..i];
  }

  /** What a process was when a call began, and when it ended. */
  datatype Call = Call(before: Process, after: Process)

  /** One call after the other, each with the statements the plan gives it. Only one that
      used them all was cut short. */
  predicate Calls(plan: seq<(nat, nat)>, calls: seq<Call>, trail0: seq<Write>, trail: seq<Write>) {
    && |calls| <= |plan| && trail == (if calls == [] then trail0 else calls[|calls| - 1].after.trail)
    && (forall i :: 0 <= i < |calls| ==> IsCall(plan, calls, trail0, i))
  }

  predicate IsCall(plan: seq<(nat, nat)>, calls: seq<Call>, trail0: seq<Write>, i: nat)
    requires i < |calls| <= |plan|
  {
    && calls[i].before == Process(if i == 0 then trail0 else calls[i - 1].after.trail, plan[i].1)
    && Ran(CutBy(calls[i]) == NoLoss, calls[i].before, calls[i].after)
  }

  /** The count a call lost, if it was cut between the removal of a scratch row and the save. */
  function CutBy(call: Call): Loss {
    Loss(CutBurial(call.after.trail, |call.before.trail|), CutFill(call.after.trail, |call.before.trail|))
  }

  /** How many calls were cut so. */
  function BurialsCut(calls: seq<Call>): nat {
    if calls == [] then 0
    else BurialsCut(calls[..|calls| - 1]) + if CutBy(calls[|calls| - 1]).burials != {} then 1 else 0
  }

  function FillsCut(calls: seq<Call>): nat {
    if calls == [] then 0
    else FillsCut(calls[..|calls| - 1]) + if CutBy(calls[|calls| - 1]).fills != {} then 1 else 0
  }

  lemma NoCalls(plan: seq<(nat, nat)>, trail: seq<Write>)
    ensures Calls(plan, [], trail, trail) && BurialsCut([]) == FillsCut([]) == 0
  {
  }

  /** A call adds to the lost counts what it cut, and that is new. */
  lemma ACallMore(plan: seq<(nat, nat)>, calls: seq<Call>, trail0: seq<Write>, call: Call, alive: bool, lost: Loss, lost': Loss)
    requires Calls(plan, calls, trail0, call.before.trail) && |calls| < |plan| && call.before.power == plan[|calls|].1
    requires Accounts(alive, call.before, lost, call.after, lost')
    requires |lost.burials| == BurialsCut(calls) && |lost.fills| == FillsCut(calls)
    ensures Calls(plan, calls + [call], trail0, call.after.trail)
    ensures |lost'.burials| == BurialsCut(calls + [call]) && |lost'.fills| == FillsCut(calls + [call])
  {
    hide Accounts, Ran, CutBy;
    var calls' := calls + [call];
    assert calls'[..|calls|] == calls;
    ItsCutIsNew(call, alive, lost, lost');
    forall i | 0 <= i < |calls'|
      ensures IsCall(plan, calls', trail0, i)
    {
      if i < |calls| {
        assert IsCall(plan, calls, trail0, i);
      }
    }
  }

  lemma ItsCutIsNew(call: Call, alive: bool, lost: Loss, lost': Loss)
    requires Accounts(alive, call.before, lost, call.after, lost')
    ensures Ran(CutBy(call) == NoLoss, call.before, call.after)
    ensures |lost'.burials| == |lost.burials| + if CutBy(call).burials != {} then 1 else 0
    ensures |lost'.fills| == |lost.fills| + if CutBy(call).fills != {} then 1 else 0
  {
    AtMostOneIsCut(call);
    hide CutBurial, CutFill;
  }

  lemma AtMostOneIsCut(call: Call)
    ensures |CutBy(call).burials| == if CutBy(call).burials != {} then 1 else 0
    ensures |CutBy(call).fills| == if CutBy(call).fills != {} then 1 else 0
    ensures Quiet(call.after.trail, |call.before.trail|) ==> CutBy(call) == NoLoss
  {
  }
}
