/**
 * The transport that refuses every write except the one it has been armed for
 * (tools/mutation_guard.py), driven by an arbitrary sequence of calls.
 */
module MutationGuard {
  import opened Types

  datatype Operation = Create | Patch | AddChild | Delete

  function Limit(op: Operation): nat {
    match op
    case Create => 1
    case Patch => 4
    case AddChild => 4
    case Delete => 1
  }

  const SENTINEL_PREFIX := "ZZPCOMIRRORTEST-"

  predicate CarriesSentinel(surname: string) {
    |SENTINEL_PREFIX| <= |surname| && surname[..|SENTINEL_PREFIX|] == SENTINEL_PREFIX
  }

  const FORBIDDEN_ATTRIBUTES := {"people_permissions", "site_administrator", "accounting_administrator",
                                 "login_identifier", "medical_notes", "avatar"}

  function ChildType(collection: string): Option<string> {
    if collection == "emails" then Some("Email")
    else if collection == "phone_numbers" then Some("PhoneNumber")
    else if collection == "addresses" then Some("Address")
    else None
  }

  /** The segments of the path below the API's root; `plain` says it is written without
      empty segments. */
  datatype Path = Path(segments: seq<string>, plain: bool)

  /** A request body as the guard reads it: no body, an unreadable one, or a resource
      whose attributes are a readable object or not. */
  datatype Body =
    | NoBody
    | Unreadable
    | OddAttributes
    | Document(kind: string, id: string, attributes: map<string, string>, relationships: bool)

  datatype Verb = Get | Post | PatchVerb | DeleteVerb | Other

  datatype Request = Request(verb: Verb, path: Path, body: Body)

  function Surname(attributes: map<string, string>): string {
    if "last_name" in attributes then attributes["last_name"] else ""
  }

  predicate SharedCheck(b: Body)
    requires b.Document?
  {
    b.attributes.Keys !! FORBIDDEN_ATTRIBUTES && !b.relationships
  }

  datatype Guard = Guard(armed: Option<Operation>, createdId: Option<string>, counts: map<Operation, nat>)

  function Count(g: Guard, op: Operation): nat {
    if op in g.counts then g.counts[op] else 0
  }

  predicate MayCreate(g: Guard, r: Request) {
    && g.armed == Some(Create)
    && r.path == Path(["people"], true)
    && Count(g, Create) < Limit(Create)
    && r.body.Document? && r.body.kind == "Person"
    && CarriesSentinel(Surname(r.body.attributes)) && SharedCheck(r.body)
  }

  /** A created id must be set, and non-empty, to be addressed. */
  predicate Created(g: Guard) {
    g.createdId.Some? && g.createdId.value != ""
  }

  predicate MayAddChild(g: Guard, r: Request) {
    && g.armed == Some(AddChild) && Created(g)
    && |r.path.segments| == 3 && r.path.segments[..2] == ["people", g.createdId.value]
    && ChildType(r.path.segments[2]).Some?
    && r.body.Document? && Some(r.body.kind) == ChildType(r.path.segments[2]) && SharedCheck(r.body)
  }

  predicate MayTarget(g: Guard, op: Operation, r: Request) {
    && g.armed == Some(op) && Created(g)
    && r.path == Path(["people", g.createdId.value], true)
    && Count(g, op) < Limit(op)
  }

  predicate MayPatch(g: Guard, r: Request) {
    && MayTarget(g, Patch, r)
    && r.body.Document? && r.body.kind == "Person" && r.body.id == g.createdId.value
    && ("last_name" in r.body.attributes ==> CarriesSentinel(r.body.attributes["last_name"]))
    && SharedCheck(r.body)
  }

  /** The write a request is let through as, if it is. */
  function Admits(g: Guard, r: Request): Option<Operation> {
    match r.verb
    case Post =>
      if |r.path.segments| == 3 then (if MayAddChild(g, r) then Some(AddChild) else None)
      else if MayCreate(g, r) then Some(Create) else None
    case PatchVerb => if MayPatch(g, r) then Some(Patch) else None
    case DeleteVerb => if MayTarget(g, Delete, r) then Some(Delete) else None
    case _ => None
  }

  function Spent(g: Guard, op: Operation): Guard {
    g.(counts := g.counts[op := Count(g, op) + 1], armed := None)
  }

  function Armed(g: Guard, op: Operation): Guard {
    if Count(g, op) >= Limit(op) then g else g.(armed := Some(op))
  }

  class MutationGuard {
    var armed: Option<Operation>
    var createdId: Option<string>
    var counts: map<Operation, nat>

    constructor ()
      ensures State() == Guard(None, None, map[])
    {
      armed, createdId, counts := None, None, map[];
    }

    ghost function State(): Guard
      reads this
    {
      Guard(armed, createdId, counts)
    }

    method Arm(op: Operation) returns (refused: bool)
      modifies this
      ensures State() == Armed(old(State()), op)
      ensures refused <==> Count(old(State()), op) >= Limit(op)
    {
      var used := if op in counts then counts[op] else 0;
      if used >= Limit(op) {
        return true;
      }
      armed := Some(op);
      return false;
    }

    method Spend(op: Operation)
      modifies this
      ensures State() == Spent(old(State()), op)
    {
      counts := counts[op := (if op in counts then counts[op] else 0) + 1];
      armed := None;
    }

    /** Checks, spends, and only then forwards: the arming is gone even if the inner
        transport fails. `forwarded` says whether the inner transport is reached. */
    method Send(r: Request) returns (forwarded: bool)
      modifies this
      ensures forwarded <==> r.verb.Get? || Admits(old(State()), r).Some?
      ensures State() == match Admits(old(State()), r) case Some(op) => Spent(old(State()), op) case None => old(State())
    {
      var g := Guard(armed, createdId, counts);
      match r.verb {
        case Get =>
          return true;
        case Post =>
          if |r.path.segments| == 3 {
            if !MayAddChild(g, r) {
              return false;
            }
            Spend(AddChild);
            return true;
          }
          if !MayCreate(g, r) {
            return false;
          }
          Spend(Create);
          return true;
        case PatchVerb =>
          if !MayPatch(g, r) {
            return false;
          }
          Spend(Patch);
          return true;
        case DeleteVerb =>
          if !MayTarget(g, Delete, r) {
            return false;
          }
          Spend(Delete);
          return true;
        case Other =>
          return false;
      }
    }
  }

  // ----- whole runs -------------------------------------------------------------------

  /** What the driver does: arm, send, or note the id the create was answered with.
      `reaches` says whether a forwarded write is applied remotely, `answer` under what id. */
  datatype Call =
    | DoArm(op: Operation)
    | DoSend(request: Request, reaches: bool, answer: string)
    | NoteCreated(id: string)

  /** The run so far: the guard, how often each operation was armed and forwarded, and
      the surnames on the remote side. */
  datatype Run = Run(guard: Guard, armings: map<Operation, nat>, forwarded: map<Operation, nat>,
                     surnames: map<string, string>, made: set<string>)

  function Tally(m: map<Operation, nat>, op: Operation): nat {
    if op in m then m[op] else 0
  }

  function Applied(run: Run, op: Operation, r: Request, answer: string): Run {
    match op
    case Create =>
      if r.body.Document?
      then run.(surnames := run.surnames[answer := Surname(r.body.attributes)], made := run.made + {answer})
      else run
    case Patch =>
      if r.body.Document? && "last_name" in r.body.attributes && |r.path.segments| == 2
      then run.(surnames := run.surnames[r.path.segments[1] := r.body.attributes["last_name"]])
      else run
    case AddChild => run
    case Delete =>
      if |r.path.segments| == 2 then run.(surnames := run.surnames - {r.path.segments[1]}) else run
  }

  function Step(run: Run, c: Call): Run {
    match c
    case DoArm(op) =>
      var g := Armed(run.guard, op);
      if Count(run.guard, op) >= Limit(op) then run
      else run.(guard := g, armings := run.armings[op := Tally(run.armings, op) + 1])
    case NoteCreated(id) => run.(guard := run.guard.(createdId := Some(id)))
    case DoSend(r, reaches, answer) =>
      match Admits(run.guard, r)
      case None => run
      case Some(op) =>
        var next := run.(guard := Spent(run.guard, op),
                         forwarded := run.forwarded[op := Tally(run.forwarded, op) + 1]);
        if reaches then Applied(next, op, r, answer) else next
  }

  function Steps(run: Run, calls: seq<Call>): Run {
    if calls == [] then run else Step(Steps(run, calls[..|calls| - 1]), calls[|calls| - 1])
  }

  function Start(surnames: map<string, string>): Run {
    Run(Guard(None, None, map[]), map[], map[], surnames, {})
  }

  /** The remote gives a new person an id nobody had. */
  ghost predicate FreshIds(surnames: map<string, string>, calls: seq<Call>) {
    forall c :: c in calls && c.DoSend? ==> c.answer !in surnames
  }

  /** The driver only notes ids a create was answered with. */
  ghost predicate HonestDriver(surnames: map<string, string>, calls: seq<Call>) {
    forall i :: 0 <= i < |calls| && calls[i].NoteCreated? ==> calls[i].id in Steps(Start(surnames), calls[..i]).made
  }

  /** Every forwarded write was counted, stayed within its limit and had an arming of its own. */
  ghost predicate Counted(run: Run) {
    && (forall op :: Tally(run.forwarded, op) == Count(run.guard, op) <= Limit(op))
    && (forall op :: Tally(run.forwarded, op) + (if run.guard.armed == Some(op) then 1 else 0) <= Tally(run.armings, op))
    && (run.guard.armed.Some? ==> Count(run.guard, run.guard.armed.value) < Limit(run.guard.armed.value))
  }

  /** Only people made here were touched, and they carry the sentinel. */
  ghost predicate Confined(run: Run, surnames: map<string, string>) {
    && (run.guard.createdId.Some? ==> run.guard.createdId.value in run.made)
    && run.made !! surnames.Keys
    && (forall id :: id in run.surnames && id !in surnames ==> CarriesSentinel(run.surnames[id]))
    && (forall id :: id in surnames ==> id in run.surnames && run.surnames[id] == surnames[id])
  }

  ghost predicate Guarded(run: Run, surnames: map<string, string>) {
    Counted(run) && Confined(run, surnames)
  }

  lemma AdmittedWhenArmed(g: Guard, r: Request, op: Operation)
    requires Admits(g, r) == Some(op)
    ensures g.armed == Some(op)
    ensures op.Create? ==> r.body.Document? && CarriesSentinel(Surname(r.body.attributes))
    ensures op.Patch? ==> r.body.Document? && ("last_name" in r.body.attributes ==> CarriesSentinel(r.body.attributes["last_name"]))
    ensures op.Patch? || op.Delete? ==> g.createdId.Some? && |r.path.segments| == 2 && r.path.segments[1] == g.createdId.value
  {
    hide CarriesSentinel, SharedCheck, Surname, ChildType;
  }

  lemma AnArmedWriteIsCounted(run: Run, run': Run, op: Operation)
    requires Counted(run) && run.guard.armed == Some(op)
    requires run'.guard.armed.None? && run'.armings == run.armings
    requires run'.guard.counts == Spent(run.guard, op).counts
    requires run'.forwarded == run.forwarded[op := Tally(run.forwarded, op) + 1]
    ensures Counted(run')
  {
    hide Limit;
    assert Tally(run.forwarded, op) == Count(run.guard, op) < Limit(op);
    forall o ensures Tally(run'.forwarded, o) == Count(run'.guard, o) <= Limit(o) {
      assert Tally(run.forwarded, o) == Count(run.guard, o) <= Limit(o);
    }
  }

  lemma AnArmingIsCounted(run: Run, op: Operation)
    requires Counted(run)
    ensures Counted(Step(run, DoArm(op)))
  {
    hide Limit;
    var run' := Step(run, DoArm(op));
    forall o ensures Tally(run'.forwarded, o) == Count(run'.guard, o) <= Limit(o) {
      assert Tally(run.forwarded, o) == Count(run.guard, o) <= Limit(o);
    }
  }

  lemma AStepStaysCounted(run: Run, c: Call)
    requires Counted(run)
    ensures Counted(Step(run, c))
  {
    hide Admits, CarriesSentinel, Surname, Limit;
    if c.DoArm? {
      AnArmingIsCounted(run, c.op);
    } else if c.DoSend? && Admits(run.guard, c.request).Some? {
      var op := Admits(run.guard, c.request).value;
      AdmittedWhenArmed(run.guard, c.request, op);
      AnArmedWriteIsCounted(run, Step(run, c), op);
    }
  }

  lemma AStepStaysConfined(run: Run, c: Call, surnames: map<string, string>)
    requires Confined(run, surnames)
    requires c.DoSend? ==> c.answer !in surnames
    requires c.NoteCreated? ==> c.id in run.made
    ensures Confined(Step(run, c), surnames)
  {
    hide Admits, CarriesSentinel, Surname, Count, Limit, Tally;
    if c.DoSend? && Admits(run.guard, c.request).Some? {
      AdmittedWhenArmed(run.guard, c.request, Admits(run.guard, c.request).value);
    }
  }

  /**
   * Whatever is armed, sent, refused, lost or noted, in any order and for as long: at
   * most one create, four patches, four child additions and one delete reach the inner
   * transport, each spends an arming of its own, every person that existed before keeps
   * its surname, and every person made here carries the sentinel.
   */
  lemma {:induction false} EveryRunIsGuarded(surnames: map<string, string>, calls: seq<Call>)
    requires FreshIds(surnames, calls) && HonestDriver(surnames, calls)
    ensures Guarded(Steps(Start(surnames), calls), surnames)
  {
    if calls != [] {
      var front, last := calls[..|calls| - 1], calls[|calls| - 1];
      forall i | 0 <= i < |front| ensures front[..i] == calls[..i] && front[i] == calls[i] {
      }
      assert last in calls && forall c :: c in front ==> c in calls;
      EveryRunIsGuarded(surnames, front);
      AStepStaysCounted(Steps(Start(surnames), front), last);
      AStepStaysConfined(Steps(Start(surnames), front), last, surnames);
    }
  }

  /** A targeted write that gets through addresses the created person and no other, and
      never says anything privileged. */
  lemma TargetedWritesAddressTheCreated(g: Guard, r: Request)
    requires Admits(g, r).Some? && !Admits(g, r).value.Create?
    ensures Created(g) && |r.path.segments| >= 2 && r.path.segments[..2] == ["people", g.createdId.value]
    ensures r.body.Document? && !Admits(g, r).value.Delete? ==> r.body.attributes.Keys !! FORBIDDEN_ATTRIBUTES && !r.body.relationships
    ensures r.verb.PatchVerb? ==> r.body.Document? && r.body.id == g.createdId.value
  {
  }

  // ----- what is admitted, said once more ------------------------------------------------

  /** How many of each may be made. */
  function Allowed(op: Operation): nat {
    if op.Create? || op.Delete? then 1 else 4
  }

  ghost predicate Marked(surname: string) {
    exists rest :: surname == "ZZPCOMIRRORTEST-" + rest
  }

  /** Nothing privileged, nothing sensitive, and no tie to another record. */
  ghost predicate Harmless(b: Body)
    requires b.Document?
  {
    && !b.relationships
    && "people_permissions" !in b.attributes && "site_administrator" !in b.attributes
    && "accounting_administrator" !in b.attributes && "login_identifier" !in b.attributes
    && "medical_notes" !in b.attributes && "avatar" !in b.attributes
  }

  /** The request such a write is, about the person with this id. */
  ghost predicate Proper(op: Operation, id: string, r: Request) {
    match op
    case Create =>
      && r.verb.Post? && r.path == Path(["people"], true)
      && r.body.Document? && r.body.kind == "Person" && Harmless(r.body)
      && "last_name" in r.body.attributes && Marked(r.body.attributes["last_name"])
    case AddChild =>
      && r.verb.Post? && r.body.Document? && Harmless(r.body)
      && ((r.path.segments == ["people", id, "emails"] && r.body.kind == "Email")
          || (r.path.segments == ["people", id, "phone_numbers"] && r.body.kind == "PhoneNumber")
          || (r.path.segments == ["people", id, "addresses"] && r.body.kind == "Address"))
    case Patch =>
      && r.verb.PatchVerb? && r.path == Path(["people", id], true)
      && r.body.Document? && r.body.kind == "Person" && r.body.id == id && Harmless(r.body)
      && ("last_name" in r.body.attributes ==> Marked(r.body.attributes["last_name"]))
    case Delete => r.verb.DeleteVerb? && r.path == Path(["people", id], true)
  }

  lemma MarkedIsCarried(surname: string)
    ensures Marked(surname) <==> CarriesSentinel(surname)
  {
    if CarriesSentinel(surname) {
      assert surname == "ZZPCOMIRRORTEST-" + surname[|SENTINEL_PREFIX|..];
    }
  }

  lemma HarmlessIsShared(b: Body)
    requires b.Document?
    ensures Harmless(b) <==> SharedCheck(b)
  {
    assert "people_permissions" in FORBIDDEN_ATTRIBUTES && "site_administrator" in FORBIDDEN_ATTRIBUTES;
    assert "accounting_administrator" in FORBIDDEN_ATTRIBUTES && "login_identifier" in FORBIDDEN_ATTRIBUTES;
    assert "medical_notes" in FORBIDDEN_ATTRIBUTES && "avatar" in FORBIDDEN_ATTRIBUTES;
    if Harmless(b) {
      forall name | name in b.attributes.Keys ensures name !in FORBIDDEN_ATTRIBUTES {
      }
    }
  }

  /** A request gets through as a write exactly if that is armed, is not used up -- of the
      children only the arming is counted -- and the request is a proper one, about the
      created person if there has to be one. */
  lemma ProperWritesGetThrough(g: Guard, op: Operation, r: Request)
    ensures Admits(g, r) == Some(op) <==>
              && g.armed == Some(op) && (op.AddChild? || Count(g, op) < Allowed(op)) && (op.Create? || Created(g))
              && Proper(op, if g.createdId.Some? then g.createdId.value else "", r)
    ensures Armed(g, op).armed == if Count(g, op) < Allowed(op) then Some(op) else g.armed
  {
    if r.body.Document? {
      HarmlessIsShared(r.body);
      if "last_name" in r.body.attributes {
        MarkedIsCarried(r.body.attributes["last_name"]);
      }
    }
    hide CarriesSentinel, Marked, SharedCheck, Harmless;
    assert !CarriesSentinel("");
  }
}
