/**
 * All mirrored tables at once, what each statement of the canonical writer does to
 * them (pcomirror/writer.py), and the cascade from an owner to the rows it owns
 * (pcomirror/registry.py).
 */
module Stores {
  import opened Types
  import opened Rows

  datatype Table =
    | Person | Email | PhoneNumber | SocialProfile | Address | FieldDatum | Note
    | Household | HouseholdMembership | PcoList | ListResult | Form | FormSubmission
    | FieldDefinition | Campus | MaritalStatus | NamePrefix | NameSuffix | InactiveReason

  /** Whether the resource carries `updated_at`. */
  predicate Timestamped(t: Table) {
    !(t.HouseholdMembership? || t.FieldDefinition? || t.Campus? || t.MaritalStatus?
      || t.NamePrefix? || t.NameSuffix? || t.InactiveReason?)
  }

  /** Ownership, not reference: the table whose rows this table's rows cannot outlive. */
  function OwnerTable(t: Table): Option<Table> {
    match t
    case Email | PhoneNumber | SocialProfile | Address | FieldDatum | Note => Some(Person)
    case HouseholdMembership => Some(Household)
    case ListResult => Some(PcoList)
    case FormSubmission => Some(Form)
    case _ => None
  }

  function OwnedChildren(t: Table): (children: seq<Table>)
    ensures forall c :: c in children <==> OwnerTable(c) == Some(t)
  {
    match t
    case Person => [Email, PhoneNumber, SocialProfile, Address, FieldDatum, Note]
    case Household => [HouseholdMembership]
    case PcoList => [ListResult]
    case Form => [FormSubmission]
    case _ => []
  }

  datatype Key = Key(table: Table, id: Id)

  type Store = map<Key, Row>

  predicate LiveAt(s: Store, k: Key) {
    k in s && s[k].Live()
  }

  /** The row that owns this one, as its payload names it. */
  function OwnerOf(child: Key, row: Row): Option<Key> {
    if OwnerTable(child.table).Some? && row.raw.owner.Some?
    then Some(Key(OwnerTable(child.table).value, row.raw.owner.value))
    else None
  }

  predicate Owns(owner: Key, child: Key, row: Row) {
    OwnerOf(child, row) == Some(owner)
  }

  // ----- the statements, as functions of the whole store ---------------------

  function InsertOrUpdate(s: Store, k: Key, p: Payload): Store {
    s[k := if k in s then UpsertRow(s[k], p) else NewRow(p)]
  }

  /** The cascade's statement, once for each of these child tables. */
  function CascadeTo(s: Store, children: seq<Table>, owner: Key, now: Time): Store {
    map k | k in s ::
      if k.table in children && Owns(owner, k, s[k]) && s[k].Live() then OrphanRow(s[k], now) else s[k]
  }

  function Cascade(s: Store, owner: Key, now: Time): Store {
    CascadeTo(s, OwnedChildren(owner.table), owner, now)
  }

  /** The revival's statement, once for each of these child tables. */
  function UncascadeTo(s: Store, children: seq<Table>, owner: Key): Store {
    map k | k in s ::
      if k.table in children && LiveAt(s, owner) && Owns(owner, k, s[k]) && s[k].reason == Some(OwnerDeleted)
      then AdoptRow(s[k]) else s[k]
  }

  function Uncascade(s: Store, owner: Key): Store {
    UncascadeTo(s, OwnedChildren(owner.table), owner)
  }

  lemma CascadeOneMore(s: Store, children: seq<Table>, i: nat, owner: Key, now: Time)
    requires i < |children| && OwnerTable(children[i]) == Some(owner.table)
    ensures CascadeTo(s, children[..i + 1], owner, now) ==
            CascadeTo(CascadeTo(s, children[..i], owner, now), [children[i]], owner, now)
  {
    assert children[..i + 1] == children[..i] + [children[i]];
  }

  lemma UncascadeOneMore(s: Store, children: seq<Table>, i: nat, owner: Key)
    requires i < |children| && OwnerTable(children[i]) == Some(owner.table) && OwnerTable(owner.table).None?
    ensures UncascadeTo(s, children[..i + 1], owner) ==
            UncascadeTo(UncascadeTo(s, children[..i], owner), [children[i]], owner)
  {
    assert children[..i + 1] == children[..i] + [children[i]];
    var t := UncascadeTo(s, children[..i], owner);
    assert LiveAt(t, owner) == LiveAt(s, owner);
  }

  lemma OrphansOf(s: Store, t: Store, child: Table, owner: Key, now: Time)
    requires OwnerTable(child) == Some(owner.table)
    requires t.Keys == s.Keys
    requires forall k :: k in s ==>
               t[k] == if k.table == child && s[k].raw.owner == Some(owner.id) && s[k].Live() then OrphanRow(s[k], now) else s[k]
    ensures t == CascadeTo(s, [child], owner, now)
  {
    hide OwnerTable, OrphanRow;
  }

  lemma AdoptedBy(s: Store, t: Store, child: Table, owner: Key)
    requires OwnerTable(child) == Some(owner.table)
    requires t.Keys == s.Keys
    requires forall k :: k in s ==>
               t[k] == if k.table == child && s[k].raw.owner == Some(owner.id) && s[k].reason == Some(OwnerDeleted) && LiveAt(s, owner)
                       then AdoptRow(s[k]) else s[k]
    ensures t == UncascadeTo(s, [child], owner)
  {
    hide OwnerTable, AdoptRow, LiveAt;
  }

  function Upsert(s: Store, k: Key, p: Payload): Store {
    Uncascade(InsertOrUpdate(s, k, p), k)
  }

  function UpsertUntimed(s: Store, k: Key, p: Payload): Store {
    s[k := if k in s then UpsertUntimedRow(s[k], p) else NewRow(p)]
  }

  function ConfirmLive(s: Store, k: Key, p: Payload): Store {
    Uncascade(s[k := NewRow(p)], k)
  }

  function Tombstone(s: Store, k: Key, uat: Option<Time>, reason: Reason, into: Option<Id>, now: Time): Store {
    var buried := if k in s then s[k := BuryRow(s[k], uat, reason, into, now)] else s;
    if Gone(reason) then Cascade(buried, k, now) else buried
  }

  /** The tombstone of an owner takes its live children along exactly if the reason says that
      it is gone -- whether there is such a row, and whether the guard accepted or not -- and
      each of them, buried under its own stamp, comes back on news of its own. A merge takes
      nobody along. */
  lemma GoneTakesItsChildren(s: Store, k: Key, uat: Option<Time>, reason: Reason, into: Option<Id>, now: Time)
    ensures var s' := Tombstone(s, k, uat, reason, into, now);
            && s'.Keys == s.Keys
            && (forall c :: c in s && c != k && (!Owns(k, c, s[c]) || !s[c].Live()) ==> s'[c] == s[c])
            && (forall c :: c in s && c != k && Owns(k, c, s[c]) && s[c].Live() ==>
                  if reason == Destroyed || reason == AuditAbsent || reason == Absent
                  then ComesBackOnNews(s'[c]) && s'[c].raw == s[c].raw && s'[c].reason == Some(OwnerDeleted)
                  else s'[c] == s[c])
  {
  }

  /** Whose records go when it goes. */
  function Belongings(owner: Table): set<Table> {
    if owner == Person then {Email, PhoneNumber, SocialProfile, Address, FieldDatum, Note}
    else if owner == Household then {HouseholdMembership}
    else if owner == PcoList then {ListResult}
    else if owner == Form then {FormSubmission}
    else {}
  }

  /** Nothing outlives its owner: after the record is gone no row that belonged to it is live,
      and of the rows that did not none is touched. */
  lemma NothingOutlivesItsOwner(s: Store, k: Key, uat: Option<Time>, reason: Reason, into: Option<Id>, now: Time, c: Key)
    requires c in s && c != k && (reason == Destroyed || reason == AuditAbsent || reason == Absent)
    ensures var s' := Tombstone(s, k, uat, reason, into, now);
            if c.table in Belongings(k.table) && s[c].raw.owner == Some(k.id) then !LiveAt(s', c) else s'[c] == s[c]
  {
    GoneTakesItsChildren(s, k, uat, reason, into, now);
  }

  /** A JSON:API resource; `None` is a type the mirror holds no table for. */
  datatype Resource = Resource(table: Option<Table>, id: Id, payload: Payload)

  /** A partial representation of a timestamped record is not a record. */
  predicate Routable(r: Resource) {
    r.table.Some? && (Timestamped(r.table.value) ==> r.payload.updatedAt.Some?)
  }

  function KeyOf(r: Resource): Key
    requires r.table.Some?
  {
    Key(r.table.value, r.id)
  }

  function Route(s: Store, r: Resource): Store {
    if !Routable(r) then s
    else if Timestamped(r.table.value) then Upsert(s, KeyOf(r), r.payload)
    else UpsertUntimed(s, KeyOf(r), r.payload)
  }

  function RouteAll(s: Store, items: seq<Resource>): Store {
    if items == [] then s else Route(RouteAll(s, items[..|items| - 1]), items[|items| - 1])
  }

  /** A record that has to carry `updated_at` and does not is a part of one and is left out; a
      resource that never carries it is stored all the same. */
  lemma PartsAreLeftOut(s: Store, r: Resource)
    requires r.table.Some? && r.payload.updatedAt.None?
    ensures match r.table.value
            case Person | Email | PhoneNumber | SocialProfile | Address | FieldDatum | Note
               | Household | PcoList | ListResult | Form | FormSubmission => Route(s, r) == s
            case HouseholdMembership | FieldDefinition | Campus | MaritalStatus | NamePrefix | NameSuffix | InactiveReason =>
              KeyOf(r) in Route(s, r) && (KeyOf(r) in s && !LiveAt(s, KeyOf(r)) ==> Route(s, r) == s)
  {
  }

  lemma {:induction false} RouteAppend(s: Store, a: seq<Resource>, b: seq<Resource>)
    ensures RouteAll(s, a + b) == RouteAll(RouteAll(s, a), b)
  {
    if b == [] {
      assert a + b == a;
    } else {
      assert (a + b)[..|a + b| - 1] == a + b[..|b| - 1];
      RouteAppend(s, a, b[..|b| - 1]);
    }
  }

  // ----- routing: nothing gets poorer, nothing gets buried ---------------------

  /** Every row of a timestamped table carries a stamp. */
  ghost predicate Stamped(s: Store) {
    forall k :: k in s && Timestamped(k.table) ==> s[k].raw.updatedAt.Some?
  }

  ghost predicate CoherentStore(s: Store) {
    forall k :: k in s ==> s[k].Coherent()
  }

  /** The mirror holds this record at least as complete as it was sent. */
  predicate Covered(s: Store, r: Resource) {
    r.table.Some? && KeyOf(r) in s && !Poorer(s[KeyOf(r)].raw, r.payload)
  }

  ghost predicate RowEnriches(t: Table, a: Row, b: Row) {
    && (a.Live() ==> b.Live())
    && (Timestamped(t) ==> !Poorer(b.raw, a.raw))
    && (!a.Live() && a.reason == Some(Merged) ==> !b.Live())
    && (b.Live() || (b.tombstone == a.tombstone && b.reason == a.reason))
  }

  /** From `s` to `s'` no row vanished, was buried or lost completeness, new rows are
      live, what stays buried keeps its tombstone, and a merge's tombstone stays. */
  ghost predicate Enriches(s: Store, s': Store) {
    && (forall k :: k in s ==> k in s' && RowEnriches(k.table, s[k], s'[k]))
    && (forall k :: k in s' && k !in s ==> s'[k].Live())
  }

  lemma EnrichesItself(s: Store)
    ensures Enriches(s, s)
  {
  }

  lemma EnrichesTransitive(a: Store, b: Store, c: Store)
    requires Stamped(a) && Stamped(b) && Stamped(c)
    requires Enriches(a, b) && Enriches(b, c)
    ensures Enriches(a, c)
  {
  }

  lemma WritingEnriches(s: Store, k: Key, row: Row)
    requires CoherentStore(s) && row.Coherent()
    requires if k in s then RowEnriches(k.table, s[k], row) else row.Live()
    ensures Enriches(s, s[k := row]) && Enriches(s, Uncascade(s[k := row], k))
  {
    hide OwnerTable, Timestamped;
  }

  lemma RouteEnriches(s: Store, r: Resource)
    requires Stamped(s) && CoherentStore(s)
    ensures Stamped(Route(s, r)) && CoherentStore(Route(s, r)) && Enriches(s, Route(s, r))
    ensures Routable(r) && Timestamped(r.table.value) ==> Covered(Route(s, r), r)
  {
    if Routable(r) {
      var k, p := KeyOf(r), r.payload;
      if Timestamped(k.table) {
        if k in s {
          UpsertNeverImpoverishes(s[k], p);
        }
        WritingEnriches(s, k, if k in s then UpsertRow(s[k], p) else NewRow(p));
      } else {
        WritingEnriches(s, k, if k in s then UpsertUntimedRow(s[k], p) else NewRow(p));
      }
    }
  }

  lemma CoverageSurvives(s: Store, s': Store, r: Resource)
    requires Stamped(s) && Stamped(s') && Enriches(s, s')
    requires r.table.Some? && Timestamped(r.table.value) && Covered(s, r)
    ensures Covered(s', r)
  {
  }

  /** After a page has been routed, each stamped record on it is held at least as
      complete as it was sent, and no row got poorer or was buried. */
  lemma {:induction false} RoutingCovers(s: Store, items: seq<Resource>)
    requires Stamped(s) && CoherentStore(s)
    ensures var s' := RouteAll(s, items);
            && Stamped(s') && CoherentStore(s') && Enriches(s, s')
            && forall r :: r in items && TimedRecord(r) ==> Covered(s', r)
  {
    if items != [] {
      var front, last := items[..|items| - 1], items[|items| - 1];
      var mid, s' := RouteAll(s, front), RouteAll(s, items);
      RoutingCovers(s, front);
      RouteEnriches(mid, last);
      EnrichesTransitive(s, mid, s');
      forall r | r in items && TimedRecord(r) ensures Covered(s', r) {
        if r in front {
          CoverageSurvives(mid, s', r);
        }
      }
    }
  }

  /** Routing this record would leave its row live. */
  predicate WouldLive(s: Store, r: Resource) {
    r.table.Some? && (KeyOf(r) in s && !s[KeyOf(r)].Live() ==> Revives(s[KeyOf(r)], r.payload))
  }

  /** Between `s` and `s'` this record arrived: it is held as complete as it was
      sent, and it is live if the mirror of `s` would have let it live. */
  ghost predicate Settled(s: Store, s': Store, r: Resource) {
    Covered(s', r) && (WouldLive(s, r) ==> LiveAt(s', KeyOf(r)))
  }

  predicate TimedRecord(r: Resource) {
    Routable(r) && Timestamped(r.table.value)
  }

  /** The mirror has a row for this record, at least as complete as it was sent. */
  predicate Held(s: Store, r: Resource) {
    Routable(r) ==> KeyOf(r) in s && (TimedRecord(r) ==> Covered(s, r))
  }

  lemma HoldingSurvivesRouting(s: Store, s': Store, r: Resource)
    requires Stamped(s) && Stamped(s') && Enriches(s, s') && Held(s, r)
    ensures Held(s', r)
  {
    if TimedRecord(r) {
      CoverageSurvives(s, s', r);
    }
  }

  /** After a batch every record on it has its row, with a stamp or without, as primary data
      or as a sideload. */
  lemma {:induction false} RoutingHolds(s: Store, items: seq<Resource>)
    requires Stamped(s) && CoherentStore(s)
    ensures forall r :: r in items ==> Held(RouteAll(s, items), r)
  {
    if items != [] {
      var front, last := items[..|items| - 1], items[|items| - 1];
      var mid := RouteAll(s, front);
      RoutingCovers(s, front);
      RouteEnriches(mid, last);
      RoutingHolds(s, front);
      ItselfIsThere(mid, last);
      hide Enriches, Stamped, CoherentStore, Held, Route, Routable;
      forall r | r in items ensures Held(RouteAll(s, items), r) {
        if r in front {
          HoldingSurvivesRouting(mid, RouteAll(s, items), r);
        }
      }
    }
  }

  lemma ItselfIsThere(s: Store, r: Resource)
    requires Stamped(s) && CoherentStore(s)
    ensures Held(Route(s, r), r)
  {
    RouteEnriches(s, r);
  }

  lemma SettledSurvives(a: Store, b: Store, c: Store, d: Store, r: Resource)
    requires Stamped(a) && Stamped(b) && Stamped(c) && Stamped(d)
    requires Enriches(a, b) && Enriches(c, d) && TimedRecord(r)
    requires Settled(b, c, r)
    ensures Settled(a, d, r)
  {
    CoverageSurvives(c, d, r);
  }

  /** Routing a batch settles every stamped record on it, wherever it stands. */
  lemma {:induction false} RoutingSettles(s: Store, items: seq<Resource>, r: Resource)
    requires Stamped(s) && CoherentStore(s)
    requires r in items && TimedRecord(r)
    ensures Settled(s, RouteAll(s, items), r)
  {
    var front, last := items[..|items| - 1], items[|items| - 1];
    var mid, s' := RouteAll(s, front), RouteAll(s, items);
    RoutingCovers(s, front);
    RoutingCovers(s, items);
    RouteEnriches(mid, last);
    if r in front {
      RoutingSettles(s, front, r);
    }
  }

  // ----- routing: the primary copy stays ----------------------------------------

  /** Neither newer than `b` nor with a relationship `b` lacks. */
  predicate NoRicher(a: Payload, b: Payload) {
    && a.updatedAt.Some? && b.updatedAt.Some? && a.updatedAt.value <= b.updatedAt.value
    && a.rels <= b.rels
  }

  predicate About(r: Resource, k: Key) {
    Routable(r) && KeyOf(r) == k
  }

  lemma RoutingOneRow(s: Store, r: Resource, k: Key)
    requires Timestamped(k.table)
    ensures About(r, k) ==> k in Route(s, r) && Route(s, r)[k].raw == if k in s then Kept(s[k].raw, r.payload) else r.payload
    ensures !About(r, k) ==> (k in Route(s, r) <==> k in s) && (k in s ==> Route(s, r)[k].raw == s[k].raw)
  {
  }

  /** What a row holds after a page is what it held before or what the page said of it. */
  lemma {:induction false} NothingIsInvented(s: Store, items: seq<Resource>, k: Key)
    requires Timestamped(k.table)
    ensures var s' := RouteAll(s, items);
            k in s' ==> (k in s && s'[k].raw == s[k].raw) || exists r :: r in items && About(r, k) && s'[k].raw == r.payload
  {
    if items != [] {
      var front, last := items[..|items| - 1], items[|items| - 1];
      hide Route;
      NothingIsInvented(s, front, k);
      RoutingOneRow(RouteAll(s, front), last, k);
    }
  }

  lemma AnotherRowStays(s: Store, r: Resource, k: Key)
    requires !Timestamped(k.table) && !About(r, k) && (k in s ==> s[k].Live())
    ensures k in Route(s, r) <==> k in s
    ensures k in s ==> Route(s, r)[k].Live() && Route(s, r)[k].raw == s[k].raw
  {
    hide OwnerTable;
  }

  lemma ItsOwnRowFollows(s: Store, r: Resource, k: Key)
    requires !Timestamped(k.table) && About(r, k) && (k in s ==> s[k].Live())
    ensures LiveAt(Route(s, r), k) && Route(s, r)[k].raw == r.payload
  {
  }

  lemma {:induction false} UnburiedStaysUnburied(s: Store, items: seq<Resource>, k: Key)
    requires !Timestamped(k.table) && (k in s ==> s[k].Live())
    ensures k in RouteAll(s, items) ==> RouteAll(s, items)[k].Live()
  {
    if items != [] {
      var front, last := items[..|items| - 1], items[|items| - 1];
      hide Route, Timestamped;
      UnburiedStaysUnburied(s, front, k);
      if About(last, k) {
        ItsOwnRowFollows(RouteAll(s, front), last, k);
      } else {
        AnotherRowStays(RouteAll(s, front), last, k);
      }
    }
  }

  /** Without a stamp the last copy on a page is the one that stays, in a row that is new
      or live. */
  lemma {:induction false} TheLastUntimedCopyStays(s: Store, items: seq<Resource>, i: nat, k: Key)
    requires i < |items| && About(items[i], k) && !Timestamped(k.table) && (k in s ==> s[k].Live())
    requires forall j :: i < j < |items| ==> !About(items[j], k)
    ensures LiveAt(RouteAll(s, items), k) && RouteAll(s, items)[k].raw == items[i].payload
  {
    var front, last := items[..|items| - 1], items[|items| - 1];
    hide Route, Timestamped, About;
    UnburiedStaysUnburied(s, front, k);
    if i == |items| - 1 {
      ItsOwnRowFollows(RouteAll(s, front), last, k);
    } else {
      TheLastUntimedCopyStays(s, front, i, k);
      AnotherRowStays(RouteAll(s, front), last, k);
    }
  }

  /** The mirror holds this record as complete as it is, or the batch says it is. */
  ghost predicate Supplied(s: Store, items: seq<Resource>, r: Resource) {
    Covered(s, r) || (r.table.Some? && exists x :: x in items && About(x, KeyOf(r)) && !Poorer(x.payload, r.payload))
  }

  /** Routing a batch covers exactly what was covered before and what the batch brings. */
  lemma CoveredExactlyIfSupplied(s: Store, items: seq<Resource>, r: Resource)
    requires Stamped(s) && CoherentStore(s) && TimedRecord(r)
    ensures Covered(RouteAll(s, items), r) <==> Supplied(s, items, r)
  {
    hide RouteAll, Enriches;
    var k := KeyOf(r);
    RoutingCovers(s, items);
    NothingIsInvented(s, items, k);
    if Covered(s, r) {
      CoverageSurvives(s, RouteAll(s, items), r);
    }
    if x :| x in items && About(x, k) && !Poorer(x.payload, r.payload) {
      assert TimedRecord(x) && Covered(RouteAll(s, items), x);
    }
  }

  /** Why `included` goes first: a record's last copy on a page is the one that stays,
      word for word, as long as no copy before it -- and not the row -- is richer. */
  lemma {:induction false} TheLastCopyStays(s: Store, items: seq<Resource>, i: nat)
    requires i < |items| && TimedRecord(items[i])
    requires var k := KeyOf(items[i]);
             && (k in s ==> NoRicher(s[k].raw, items[i].payload))
             && (forall j :: 0 <= j < i && About(items[j], k) ==> NoRicher(items[j].payload, items[i].payload))
             && (forall j :: i < j < |items| ==> !About(items[j], k))
    ensures KeyOf(items[i]) in RouteAll(s, items) && RouteAll(s, items)[KeyOf(items[i])].raw == items[i].payload
  {
    var k, front, last := KeyOf(items[i]), items[..|items| - 1], items[|items| - 1];
    RoutingOneRow(RouteAll(s, front), last, k);
    hide Route;
    if i == |items| - 1 {
      NothingIsInvented(s, front, k);
    } else {
      TheLastCopyStays(s, front, i);
    }
  }

  // ----- cascade and revival ---------------------------------------------------

  /** No row is buried because its owner died while that owner is live. */
  ghost predicate NoStrandedChild(s: Store) {
    forall c :: c in s && s[c].reason == Some(OwnerDeleted) && OwnerOf(c, s[c]).Some? ==>
      !LiveAt(s, OwnerOf(c, s[c]).value)
  }

  datatype Op =
    | DoUpsert(k: Key, p: Payload)
    | DoConfirm(k: Key, p: Payload)
    | DoBury(k: Key, uat: Option<Time>, reason: Reason, into: Option<Id>, now: Time)

  function Step(s: Store, op: Op): Store {
    match op
    case DoUpsert(k, p) => if Timestamped(k.table) then Upsert(s, k, p) else UpsertUntimed(s, k, p)
    case DoConfirm(k, p) => ConfirmLive(s, k, p)
    case DoBury(k, uat, reason, into, now) => Tombstone(s, k, uat, reason, into, now)
  }

  /** Side conditions a caller can check: a child keeps the owner it has, `owner_deleted`
      is the cascade's own reason, and a burial's stamp is absent or not older than the row. */
  predicate OwnerFixed(s: Store, op: Op) {
    op.DoBury? || op.k !in s || op.p.owner == s[op.k].raw.owner
  }

  predicate BurialTakes(s: Store, op: Op) {
    op.DoBury? && Gone(op.reason) && op.k in s ==> BurialAccepted(s[op.k], op.uat, op.reason)
  }

  predicate Ordinary(op: Op) {
    op.DoBury? ==> !op.reason.OwnerDeleted?
  }

  /** Writing an owner's row and then reviving its children strands none of them. */
  lemma RevivingStrandsNobody(s: Store, k: Key, row: Row)
    requires CoherentStore(s) && NoStrandedChild(s) && row.Coherent()
    requires k in s ==> row.raw.owner == s[k].raw.owner
    requires row.reason == Some(OwnerDeleted) ==> k in s && s[k].reason == row.reason
    ensures CoherentStore(Uncascade(s[k := row], k)) && NoStrandedChild(Uncascade(s[k := row], k))
  {
    var s' := Uncascade(s[k := row], k);
    forall c | c in s' && s'[c].reason == Some(OwnerDeleted) && OwnerOf(c, s'[c]).Some?
      ensures !LiveAt(s', OwnerOf(c, s'[c]).value)
    {
      assert OwnerOf(c, s[c]) == OwnerOf(c, s'[c]) && s[c].reason == Some(OwnerDeleted);
    }
  }

  /** A burial that takes leaves its row dead, so its children may be too. */
  lemma BuryingStrandsNobody(s: Store, k: Key, uat: Option<Time>, reason: Reason, into: Option<Id>, now: Time)
    requires CoherentStore(s) && NoStrandedChild(s) && !reason.OwnerDeleted?
    requires Gone(reason) && k in s ==> BurialAccepted(s[k], uat, reason)
    ensures CoherentStore(Tombstone(s, k, uat, reason, into, now)) && NoStrandedChild(Tombstone(s, k, uat, reason, into, now))
  {
    var s' := Tombstone(s, k, uat, reason, into, now);
    forall c | c in s' && s'[c].reason == Some(OwnerDeleted) && OwnerOf(c, s'[c]).Some?
      ensures !LiveAt(s', OwnerOf(c, s'[c]).value)
    {
      var o := OwnerOf(c, s'[c]).value;
      assert OwnerOf(c, s[c]) == Some(o);
      if s[c].reason == Some(OwnerDeleted) {
        assert !LiveAt(s, o);
      }
    }
  }

  lemma StepStrandsNobody(s: Store, op: Op)
    requires CoherentStore(s) && NoStrandedChild(s)
    requires OwnerFixed(s, op) && BurialTakes(s, op) && Ordinary(op)
    ensures CoherentStore(Step(s, op)) && NoStrandedChild(Step(s, op))
  {
    match op
    case DoUpsert(k, p) =>
      if Timestamped(k.table) {
        RevivingStrandsNobody(s, k, if k in s then UpsertRow(s[k], p) else NewRow(p));
      } else {
        var row := if k in s then UpsertUntimedRow(s[k], p) else NewRow(p);
        RevivingStrandsNobody(s, k, row);
        assert Uncascade(s[k := row], k) == s[k := row];
      }
    case DoConfirm(k, p) => RevivingStrandsNobody(s, k, NewRow(p));
    case DoBury(k, uat, reason, into, now) => BuryingStrandsNobody(s, k, uat, reason, into, now);
  }

  function Steps(s: Store, ops: seq<Op>): Store
    decreases |ops|
  {
    if ops == [] then s else Steps(Step(s, ops[0]), ops[1..])
  }

  ghost predicate WellBehaved(s: Store, ops: seq<Op>)
    decreases |ops|
  {
    ops != [] ==>
      && OwnerFixed(s, ops[0]) && BurialTakes(s, ops[0]) && Ordinary(ops[0])
      && WellBehaved(Step(s, ops[0]), ops[1..])
  }

  /** No run of writer operations leaves an `owner_deleted` child under a live owner. */
  lemma {:induction false} NoRunStrandsAChild(s: Store, ops: seq<Op>)
    requires CoherentStore(s) && NoStrandedChild(s) && WellBehaved(s, ops)
    ensures CoherentStore(Steps(s, ops)) && NoStrandedChild(Steps(s, ops))
    decreases |ops|
  {
    if ops != [] {
      StepStrandsNobody(s, ops[0]);
      NoRunStrandsAChild(Step(s, ops[0]), ops[1..]);
    }
  }

  ghost predicate HasLiveChild(s: Store, o: Key) {
    exists c :: c in s && Owns(o, c, s[c]) && s[c].Live()
  }

  /** The cascade runs even when the guard refused the burial itself: a burial
      strands children exactly when it is refused and live children remain. */
  lemma RefusedBurialStrands(s: Store, k: Key, uat: Option<Time>, reason: Reason, into: Option<Id>, now: Time)
    requires CoherentStore(s) && NoStrandedChild(s) && Gone(reason)
    ensures NoStrandedChild(Tombstone(s, k, uat, reason, into, now)) <==>
            (k in s && !BurialAccepted(s[k], uat, reason) ==> !HasLiveChild(s, k))
  {
    var s' := Tombstone(s, k, uat, reason, into, now);
    if k in s && !BurialAccepted(s[k], uat, reason) {
      assert s'[k] == s[k] && LiveAt(s', k);
      if HasLiveChild(s, k) {
        var c :| c in s && Owns(k, c, s[c]) && s[c].Live();
        assert c in s' && s'[c].reason == Some(OwnerDeleted) && OwnerOf(c, s'[c]) == Some(k);
      }
    } else {
      StepStrandsNobody(s, DoBury(k, uat, reason, into, now));
    }
  }

  /** Burying an owner and then confirming it live gives back the store as it was,
      but for the owner's own row: exactly the children that were live are live again. */
  lemma BuryThenConfirm(s: Store, k: Key, uat: Option<Time>, reason: Reason, into: Option<Id>, now: Time, p: Payload)
    requires CoherentStore(s) && NoStrandedChild(s) && LiveAt(s, k)
    requires Gone(reason) && BurialAccepted(s[k], uat, reason)
    ensures ConfirmLive(Tombstone(s, k, uat, reason, into, now), k, p) == s[k := NewRow(p)]
  {
    BuryThenRestore(s, k, uat, reason, into, now, NewRow(p));
  }

  /** The same for a later write: it restores the children exactly when it is
      strictly newer than the burial, and otherwise leaves all of them buried. */
  lemma BuryThenUpsert(s: Store, k: Key, uat: Option<Time>, reason: Reason, into: Option<Id>, now: Time, p: Payload)
    requires CoherentStore(s) && NoStrandedChild(s) && LiveAt(s, k)
    requires Gone(reason) && BurialAccepted(s[k], uat, reason)
    ensures var t := Tombstone(s, k, uat, reason, into, now);
            var s' := Upsert(t, k, p);
            var kept := Kept(s[k].raw, p);
            if Later(p.updatedAt, t[k].tombstone)
            then s' == s[k := Row(kept, None, None, None, t[k].mergedInto)]
            else s' == t[k := t[k].(raw := kept)]
                 && forall c :: c in s && Owns(k, c, s[c]) ==> !s'[c].Live()
  {
    var t := Tombstone(s, k, uat, reason, into, now);
    if Later(p.updatedAt, t[k].tombstone) {
      BuryThenRestore(s, k, uat, reason, into, now, UpsertRow(t[k], p));
    }
  }

  lemma BuryThenRestore(s: Store, k: Key, uat: Option<Time>, reason: Reason, into: Option<Id>, now: Time, row: Row)
    requires CoherentStore(s) && NoStrandedChild(s) && LiveAt(s, k)
    requires Gone(reason) && BurialAccepted(s[k], uat, reason) && row.Live()
    ensures Uncascade(Tombstone(s, k, uat, reason, into, now)[k := row], k) == s[k := row]
  {
    var t := Tombstone(s, k, uat, reason, into, now)[k := row];
    var s' := Uncascade(t, k);
    forall c | c in s ensures s'[c] == s[k := row][c] {
      if c != k && Owns(k, c, s[c]) && !s[c].Live() {
        assert s[c].reason != Some(OwnerDeleted);
      }
    }
  }
}
