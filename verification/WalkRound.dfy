/**
 * Collections Planning Center serves one parent at a time (pcomirror/ingest.py,
 * `walk_round_step`, `walk_parent` and `_walk_one`): a round of walks taken a bounded
 * step at a time, oldest-walked parent first.
 */
module WalkRound {
  import opened Types
  import opened Rows
  import opened Stores
  import opened Writer
  import opened Paging

  datatype Status = Ok | NotFound | Error

  /** What each parent's collection lists, how each page of it and the parent itself
      answer, and the clock, read once per statement that stores a time. */
  datatype Service = Service(
    children: Id -> seq<Resource>,
    collection: (Id, nat) -> Status,
    itself: Id -> Status,
    now: nat -> Time)

  /** What paging through one parent's collection from `off` comes to: the first answer
      that is not a page, or `Ok` at the short page. */
  function WalkAnswer(service: Service, p: Id, off: nat): Status
    decreases if off < |service.children(p)| then |service.children(p)| - off else 0
  {
    if !service.collection(p, off).Ok? then service.collection(p, off)
    else if |Slice(service.children(p), off)| < PER_PAGE then Ok
    else WalkAnswer(service, p, off + PER_PAGE)
  }

  /** How many children it has routed by then. */
  function WalkReach(service: Service, p: Id, off: nat): (n: nat)
    requires off <= |service.children(p)|
    ensures off <= n <= |service.children(p)|
    ensures WalkAnswer(service, p, off).Ok? ==> n == |service.children(p)|
    decreases |service.children(p)| - off
  {
    if !service.collection(p, off).Ok? then off
    else if |Slice(service.children(p), off)| < PER_PAGE then |service.children(p)|
    else WalkReach(service, p, off + PER_PAGE)
  }

  /** What fetching one parent's children leaves, whatever it comes to. */
  function Fetched(s: Store, service: Service, p: Id): Store {
    RouteAll(s, service.children(p)[..WalkReach(service, p, 0)])
  }

  ghost predicate ListsOnly(service: Service, child: Table) {
    forall p, r :: r in service.children(p) ==> r.table == Some(child)
  }

  ghost predicate ClockMovesForward(service: Service) {
    forall i, j :: i <= j ==> service.now(i) <= service.now(j)
  }

  function ChildIds(items: seq<Resource>): set<Id> {
    set r | r in items :: r.id
  }

  predicate Stale(s: Store, child: Table, parent: Id, seen: set<Id>, k: Key) {
    k in s && k.table == child && s[k].raw.owner == Some(parent) && s[k].Live() && k.id !in seen
  }

  /** Every live child of this parent the remote did not return, tombstoned. */
  function Pruned(s: Store, child: Table, parent: Id, seen: set<Id>, now: Time): Store {
    map k | k in s :: if Stale(s, child, parent, seen, k) then BuryRow(s[k], None, Destroyed, None, now) else s[k]
  }

  /** The remote's answer is the whole truth about this parent's live children. */
  ghost predicate NoUnlistedChild(s: Store, child: Table, parent: Id, listed: set<Id>) {
    forall k :: k in s && k.table == child && s[k].raw.owner == Some(parent) && s[k].Live() ==> k.id in listed
  }

  ghost predicate SameElsewhere(s: Store, s': Store, child: Table) {
    forall k: Key :: k.table != child ==> (k in s <==> k in s') && (k in s ==> s'[k] == s[k])
  }

  lemma PruningLeavesOnlyTheSeen(s: Store, child: Table, parent: Id, seen: set<Id>, now: Time, k: Key)
    requires k in s && k.table == child && s[k].raw.owner == Some(parent)
    ensures var s' := Pruned(s, child, parent, seen, now);
            s'[k].Live() <==> s[k].Live() && k.id in seen
  {
  }

  /** Writing children leaves every row of another table alone. */
  lemma {:induction false} ChildWritesStayInTheirTable(s: Store, items: seq<Resource>, child: Table, k: Key)
    requires OwnerTable(child).Some? && k.table != child
    requires forall r :: r in items ==> r.table == Some(child)
    ensures k in RouteAll(s, items) <==> k in s
    ensures k in s ==> RouteAll(s, items)[k] == s[k]
  {
    if items != [] {
      ChildWritesStayInTheirTable(s, items[..|items| - 1], child, k);
      assert items[|items| - 1] in items;
    }
  }

  // ----- what walks leave behind ------------------------------------------------------

  /** What walking one parent makes of the tables. */
  function WalkedOne(s: Store, service: Service, child: Table, parent: Table, p: Id, now: Time): Store {
    match WalkAnswer(service, p, 0)
    case Ok => Pruned(RouteAll(s, service.children(p)), child, p, ChildIds(service.children(p)), now)
    case Error => Fetched(s, service, p)
    case NotFound =>
      if service.itself(p).NotFound?
      then Tombstone(Fetched(s, service, p), Key(parent, p), None, AuditAbsent, None, now)
      else Fetched(s, service, p)
  }

  /** What walking these parents in turn makes of them; each walk reads the clock twice. */
  function WalkedEach(s: Store, service: Service, child: Table, parent: Table, picked: seq<Id>, tick: nat): Store {
    if picked == [] then s
    else
      var front, p := picked[..|picked| - 1], picked[|picked| - 1];
      WalkedOne(WalkedEach(s, service, child, parent, front, tick), service, child, parent, p, service.now(tick + 2 * |front| + 1))
  }

  /** How many of these walks do not fail. */
  function Reached(service: Service, picked: seq<Id>): nat {
    if picked == [] then 0
    else Reached(service, picked[..|picked| - 1]) + if WalkAnswer(service, picked[|picked| - 1], 0).Error? then 0 else 1
  }

  lemma {:induction false} NobodyReached(service: Service, picked: seq<Id>)
    ensures Reached(service, picked) <= |picked|
    ensures Reached(service, picked) == 0 <==> forall p :: p in picked ==> WalkAnswer(service, p, 0).Error?
  {
    if picked != [] {
      var front, last := picked[..|picked| - 1], picked[|picked| - 1];
      NobodyReached(service, front);
      assert picked == front + [last];
      if Reached(service, front) != 0 {
        var p :| p in front && !WalkAnswer(service, p, 0).Error?;
        assert p in picked;
      } else if !WalkAnswer(service, last, 0).Error? {
        assert last in picked;
      }
    }
  }

  /** And of the record of what was walked when: a walk that failed leaves no mark. */
  function StampedEach(walkedAt: map<Id, Time>, service: Service, picked: seq<Id>, tick: nat): map<Id, Time> {
    if picked == [] then walkedAt
    else
      var front, p := picked[..|picked| - 1], picked[|picked| - 1];
      var before := StampedEach(walkedAt, service, front, tick);
      if WalkAnswer(service, p, 0).Error? then before else before[p := service.now(tick + 2 * |picked|)]
  }

  /** The collection names the parent of each child, and lists no child under two. */
  ghost predicate ListsItsOwn(service: Service) {
    && (forall p: Id, r :: r in service.children(p) ==> r.payload.owner == Some(p))
    && (forall p: Id, q: Id, r, r' :: r in service.children(p) && r' in service.children(q) && r.id == r'.id ==> p == q)
  }

  /** No row is ahead of what is listed about its record: it is held under the same parent,
      or older. */
  ghost predicate NotAhead(s: Store, service: Service, child: Table) {
    forall p: Id, r :: r in service.children(p) && Timestamped(child) && Key(child, r.id) in s ==>
      s[Key(child, r.id)].raw.owner == Some(p) || Later(r.payload.updatedAt, s[Key(child, r.id)].raw.updatedAt)
  }

  ghost predicate Fits(s: Store, service: Service, child: Table) {
    Stamped(s) && CoherentStore(s) && NotAhead(s, service, child)
  }

  /** The mirror of one parent's collection: no live child the remote did not list, and
      every child it did. */
  ghost predicate Mirrors(s: Store, service: Service, child: Table, p: Id) {
    && NoUnlistedChild(s, child, p, ChildIds(service.children(p)))
    && forall r :: r in service.children(p) ==> Held(s, r)
  }

  /** One parent's mirror stays what it was. */
  ghost predicate KeepsMirrors(s: Store, s': Store, service: Service, child: Table) {
    forall p: Id :: Mirrors(s, service, child, p) ==> Mirrors(s', service, child, p)
  }

  lemma RoutingAChildIsOneRow(s: Store, r: Resource, child: Table)
    requires r.table == Some(child) && OwnerTable(child).Some?
    ensures !Routable(r) ==> Route(s, r) == s
    ensures Routable(r) ==>
              var k := KeyOf(r);
              Route(s, r) == s[k := if k !in s then NewRow(r.payload)
                                    else if Timestamped(child) then UpsertRow(s[k], r.payload) else UpsertUntimedRow(s[k], r.payload)]
  {
    if Routable(r) && Timestamped(child) {
      assert OwnedChildren(child) == [];
    }
  }

  /** Routing a child of `q` keeps the mirror of every parent, its own or another's. */
  lemma RoutingAChildFits(s: Store, service: Service, child: Table, q: Id, r: Resource)
    requires Fits(s, service, child) && ListsItsOwn(service) && r in service.children(q)
    requires r.table == Some(child) && OwnerTable(child).Some?
    ensures Fits(Route(s, r), service, child) && KeepsMirrors(s, Route(s, r), service, child)
    ensures Held(Route(s, r), r)
  {
    RouteEnriches(s, r);
    RoutingAChildIsOneRow(s, r, child);
    hide Route;
    if Routable(r) {
      forall p | Mirrors(s, service, child, p) ensures Mirrors(Route(s, r), service, child, p) {
        ItsMirrorIsKept(s, service, child, q, r, p);
      }
    }
  }

  lemma ItsMirrorIsKept(s: Store, service: Service, child: Table, q: Id, r: Resource, p: Id)
    requires Fits(s, service, child) && ListsItsOwn(service) && r in service.children(q) && Routable(r)
    requires r.table == Some(child) && OwnerTable(child).Some? && Mirrors(s, service, child, p)
    ensures Mirrors(Route(s, r), service, child, p)
  {
    forall c | c in service.children(p) ensures Held(Route(s, r), c) {
      HoldingSurvives(s, service, child, r, c);
    }
    NothingUnlistedArrives(s, service, child, q, r, p);
    hide Route, Held, NoUnlistedChild, Fits, ListsItsOwn;
  }

  lemma NothingUnlistedArrives(s: Store, service: Service, child: Table, q: Id, r: Resource, p: Id)
    requires NotAhead(s, service, child) && ListsItsOwn(service) && r in service.children(q) && Routable(r)
    requires r.table == Some(child) && OwnerTable(child).Some? && NoUnlistedChild(s, child, p, ChildIds(service.children(p)))
    ensures NoUnlistedChild(Route(s, r), child, p, ChildIds(service.children(p)))
  {
    RoutingAChildIsOneRow(s, r, child);
    hide Route;
  }

  /** Nothing but burials. */
  ghost predicate OnlyBuries(s: Store, s': Store) {
    && s'.Keys == s.Keys
    && forall k :: k in s ==>
         s'[k].raw == s[k].raw && (s'[k].Live() ==> s[k].Live()) && (s[k].Coherent() ==> s'[k].Coherent())
  }

  lemma BuryingKeepsMirrors(s: Store, s': Store, service: Service, child: Table)
    requires Fits(s, service, child) && OnlyBuries(s, s')
    ensures Fits(s', service, child) && KeepsMirrors(s, s', service, child)
  {
    forall p | Mirrors(s, service, child, p) ensures Mirrors(s', service, child, p) {
    }
  }

  lemma PruningOnlyBuries(s: Store, child: Table, p: Id, seen: set<Id>, now: Time)
    ensures OnlyBuries(s, Pruned(s, child, p, seen, now))
    ensures NoUnlistedChild(Pruned(s, child, p, seen, now), child, p, seen)
  {
  }

  lemma TombstonesOnlyBury(s: Store, k: Key, reason: Reason, now: Time)
    ensures OnlyBuries(s, Tombstone(s, k, None, reason, None, now))
  {
  }

  lemma {:induction false} RoutingChildrenFits(s: Store, service: Service, child: Table, q: Id, items: seq<Resource>)
    requires Fits(s, service, child) && ListsItsOwn(service) && ListsOnly(service, child) && OwnerTable(child).Some?
    requires forall r :: r in items ==> r in service.children(q)
    ensures Fits(RouteAll(s, items), service, child) && KeepsMirrors(s, RouteAll(s, items), service, child)
    ensures forall r :: r in items ==> Held(RouteAll(s, items), r)
  {
    if items != [] {
      var front, last := items[..|items| - 1], items[|items| - 1];
      hide Route, Fits, Mirrors, Held;
      assert last in items;
      RoutingChildrenFits(s, service, child, q, front);
      RoutingAChildFits(RouteAll(s, front), service, child, q, last);
      forall r | r in items ensures Held(RouteAll(s, items), r) {
        if r in front {
          HoldingSurvives(RouteAll(s, front), service, child, last, r);
        }
      }
    }
  }

  lemma HoldingSurvives(s: Store, service: Service, child: Table, r: Resource, c: Resource)
    requires Fits(s, service, child) && Held(s, c)
    ensures Held(Route(s, r), c)
  {
    RouteEnriches(s, r);
    if TimedRecord(c) {
      CoverageSurvives(s, Route(s, r), c);
    }
  }

  /** A walk keeps every other parent's mirror, and one answered to its end makes its own. */
  lemma WalkingOneMirrors(s: Store, service: Service, child: Table, parent: Table, p: Id, now: Time)
    requires Fits(s, service, child) && ListsItsOwn(service) && ListsOnly(service, child) && OwnerTable(child).Some?
    ensures var s' := WalkedOne(s, service, child, parent, p, now);
            && Fits(s', service, child) && KeepsMirrors(s, s', service, child)
            && (WalkAnswer(service, p, 0).Ok? ==> Mirrors(s', service, child, p))
  {
    hide Fits, RouteAll, Tombstone, OnlyBuries, Held;
    var all := service.children(p);
    var items := all[..WalkReach(service, p, 0)];
    var s1 := RouteAll(s, items);
    RoutingChildrenFits(s, service, child, p, items);
    match WalkAnswer(service, p, 0)
    case Ok =>
      assert items == all;
      PruningOnlyBuries(s1, child, p, ChildIds(all), now);
      BuryingKeepsMirrors(s1, Pruned(s1, child, p, ChildIds(all), now), service, child);
      BuryingKeepsHeld(s1, Pruned(s1, child, p, ChildIds(all), now), all);
    case Error =>
    case NotFound =>
      TombstonesOnlyBury(s1, Key(parent, p), AuditAbsent, now);
      BuryingKeepsMirrors(s1, Tombstone(s1, Key(parent, p), None, AuditAbsent, None, now), service, child);
  }

  lemma BuryingKeepsHeld(s: Store, s': Store, items: seq<Resource>)
    requires OnlyBuries(s, s') && forall r :: r in items ==> Held(s, r)
    ensures forall r :: r in items ==> Held(s', r)
  {
    forall r | r in items ensures Held(s', r) {
    }
  }

  /** Walks of several parents: all they reach to the end are mirrored, and those that were
      mirrored still are. */
  ghost predicate Walks(s: Store, s': Store, service: Service, child: Table, picked: seq<Id>) {
    && Fits(s', service, child) && KeepsMirrors(s, s', service, child)
    && forall p :: p in picked && WalkAnswer(service, p, 0).Ok? ==> Mirrors(s', service, child, p)
  }

  lemma NoWalks(s: Store, service: Service, child: Table)
    requires Fits(s, service, child)
    ensures Walks(s, s, service, child, [])
  {
  }

  lemma OneWalkMore(s: Store, mid: Store, service: Service, child: Table, parent: Table, front: seq<Id>, last: Id, now: Time)
    requires ListsItsOwn(service) && ListsOnly(service, child) && OwnerTable(child).Some?
    requires Walks(s, mid, service, child, front)
    ensures Walks(s, WalkedOne(mid, service, child, parent, last, now), service, child, front + [last])
  {
    hide Fits, Mirrors, WalkAnswer, WalkedOne;
    WalkingOneMirrors(mid, service, child, parent, last, now);
  }

  lemma {:induction false} WalkingMirrors(s: Store, service: Service, child: Table, parent: Table, picked: seq<Id>, tick: nat)
    requires Fits(s, service, child) && ListsItsOwn(service) && ListsOnly(service, child) && OwnerTable(child).Some?
    ensures Walks(s, WalkedEach(s, service, child, parent, picked, tick), service, child, picked)
    decreases |picked|
  {
    hide Fits, WalkedOne, Walks, ListsOnly, ListsItsOwn;
    if picked == [] {
      NoWalks(s, service, child);
    } else {
      var front, last := picked[..|picked| - 1], picked[|picked| - 1];
      var mid := WalkedEach(s, service, child, parent, front, tick);
      WalkingMirrors(s, service, child, parent, front, tick);
      OneWalkMore(s, mid, service, child, parent, front, last, service.now(tick + 2 * |front| + 1));
      assert picked == front + [last];
    }
  }

  // ----- what walks bury --------------------------------------------------------------

  /** From `s` to `s'` every row that ends buried comes back on news, but for those that
      were buried otherwise before and still are. */
  ghost predicate BuriesForNews(s: Store, s': Store) {
    forall k :: k in s' && !s'[k].Live() ==>
      ComesBackOnNews(s'[k])
      || (k in s && !s[k].Live() && !ComesBackOnNews(s[k]) && s'[k].tombstone == s[k].tombstone && s'[k].reason == s[k].reason)
  }

  ghost predicate Kempt(s: Store) {
    Stamped(s) && CoherentStore(s)
  }

  lemma BuriesForNewsTwice(a: Store, b: Store, c: Store)
    requires BuriesForNews(a, b) && BuriesForNews(b, c)
    ensures BuriesForNews(a, c)
  {
    hide ComesBackOnNews;
  }

  lemma BuriesNobody(s: Store)
    requires Kempt(s)
    ensures BuriesForNews(s, s)
  {
  }

  lemma RoutingBuriesForNews(s: Store, r: Resource, child: Table)
    requires Kempt(s) && r.table == Some(child) && OwnerTable(child).Some?
    ensures Kempt(Route(s, r)) && BuriesForNews(s, Route(s, r))
  {
    RouteEnriches(s, r);
    RoutingAChildIsOneRow(s, r, child);
    hide Route;
  }

  lemma {:induction false} RoutingAllBuriesForNews(s: Store, items: seq<Resource>, child: Table)
    requires Kempt(s) && OwnerTable(child).Some? && forall r :: r in items ==> r.table == Some(child)
    ensures Kempt(RouteAll(s, items)) && BuriesForNews(s, RouteAll(s, items))
  {
    if items == [] {
      BuriesNobody(s);
    } else {
      var front, last := items[..|items| - 1], items[|items| - 1];
      hide Kempt, Route, BuriesForNews;
      assert last in items;
      RoutingAllBuriesForNews(s, front, child);
      RoutingBuriesForNews(RouteAll(s, front), last, child);
      BuriesForNewsTwice(s, RouteAll(s, front), RouteAll(s, items));
    }
  }

  lemma AChildHasNoChildren(s: Store, k: Key, now: Time)
    requires k in s && OwnerTable(k.table).Some?
    ensures Tombstone(s, k, None, Destroyed, None, now) == s[k := BuryRow(s[k], None, Destroyed, None, now)]
  {
    hide BuryRow;
  }

  /** A child that is no longer listed comes back on news of it. */
  lemma PrunedChildrenComeBack(s: Store, child: Table, p: Id, seen: set<Id>, now: Time)
    requires Kempt(s)
    ensures var s' := Pruned(s, child, p, seen, now);
            && Kempt(s') && BuriesForNews(s, s')
            && forall k :: k in s && Stale(s, child, p, seen, k) ==> ComesBackOnNews(s'[k])
  {
    BuriedUnderItsOwnStamp(Destroyed);
    hide BuryRow;
  }

  /** A parent that is gone takes its children along, and all of them come back on news. */
  lemma GoneParentsComeBack(s: Store, k: Key, now: Time)
    requires Kempt(s)
    ensures var s' := Tombstone(s, k, None, AuditAbsent, None, now);
            && Kempt(s') && BuriesForNews(s, s') && !LiveAt(s', k)
            && forall c :: c in s && c != k && Owns(k, c, s[c]) ==> !s'[c].Live()
  {
    GoneTakesItsChildren(s, k, None, AuditAbsent, None, now);
    hide OwnerTable;
  }

  lemma WalkingOneBuriesForNews(s: Store, service: Service, child: Table, parent: Table, p: Id, now: Time)
    requires Kempt(s) && ListsOnly(service, child) && OwnerTable(child).Some?
    ensures var s' := WalkedOne(s, service, child, parent, p, now);
            && Kempt(s') && BuriesForNews(s, s')
            && (WalkAnswer(service, p, 0).NotFound? && service.itself(p).NotFound? ==>
                  && !LiveAt(s', Key(parent, p))
                  && forall c :: c in s' && c != Key(parent, p) && Owns(Key(parent, p), c, s'[c]) ==> !s'[c].Live())
  {
    hide Kempt, RouteAll, Tombstone, BuriesForNews, Pruned, Owns;
    var s1 := Fetched(s, service, p);
    RoutingAllBuriesForNews(s, service.children(p)[..WalkReach(service, p, 0)], child);
    match WalkAnswer(service, p, 0)
    case Ok =>
      assert service.children(p)[..WalkReach(service, p, 0)] == service.children(p);
      PrunedChildrenComeBack(s1, child, p, ChildIds(service.children(p)), now);
      BuriesForNewsTwice(s, s1, Pruned(s1, child, p, ChildIds(service.children(p)), now));
    case Error =>
    case NotFound =>
      GoneParentsComeBack(s1, Key(parent, p), now);
      BuriesForNewsTwice(s, s1, Tombstone(s1, Key(parent, p), None, AuditAbsent, None, now));
      OwnershipStays(s1, Key(parent, p), now);
  }

  lemma OwnershipStays(s: Store, k: Key, now: Time)
    ensures var s' := Tombstone(s, k, None, AuditAbsent, None, now);
            s'.Keys == s.Keys && forall c :: c in s ==> (Owns(k, c, s'[c]) <==> Owns(k, c, s[c]))
  {
  }

  lemma {:induction false} WalkingBuriesForNews(s: Store, service: Service, child: Table, parent: Table, picked: seq<Id>, tick: nat)
    requires Kempt(s) && ListsOnly(service, child) && OwnerTable(child).Some?
    ensures var s' := WalkedEach(s, service, child, parent, picked, tick);
            Kempt(s') && BuriesForNews(s, s')
    decreases |picked|
  {
    hide Kempt, WalkedOne, BuriesForNews, ListsOnly;
    if picked == [] {
      BuriesNobody(s);
    } else {
      var front, last := picked[..|picked| - 1], picked[|picked| - 1];
      var mid := WalkedEach(s, service, child, parent, front, tick);
      WalkingBuriesForNews(s, service, child, parent, front, tick);
      WalkingOneBuriesForNews(mid, service, child, parent, last, service.now(tick + 2 * |front| + 1));
      BuriesForNewsTwice(s, mid, WalkedEach(s, service, child, parent, picked, tick));
    }
  }

  /** Whatever was walked at `from` or later, and answered to its end, is mirrored. */
  ghost predicate Tidy(s: Store, service: Service, child: Table, walkedAt: map<Id, Time>, from: Time) {
    forall p :: p in walkedAt && walkedAt[p] >= from && WalkAnswer(service, p, 0).Ok? ==> Mirrors(s, service, child, p)
  }

  lemma {:induction false} OnlyPickedAreStamped(walkedAt: map<Id, Time>, service: Service, picked: seq<Id>, tick: nat, p: Id)
    requires p !in picked || WalkAnswer(service, p, 0).Error?
    ensures var after := StampedEach(walkedAt, service, picked, tick);
            (p in after <==> p in walkedAt) && (p in walkedAt ==> after[p] == walkedAt[p])
  {
    if picked != [] {
      OnlyPickedAreStamped(walkedAt, service, picked[..|picked| - 1], tick, p);
    }
  }

  lemma WalkingTidies(s: Store, service: Service, child: Table, parent: Table, walkedAt: map<Id, Time>, picked: seq<Id>, tick: nat, from: Time)
    requires ListsOnly(service, child) && OwnerTable(child).Some?
    ensures var s' := WalkedEach(s, service, child, parent, picked, tick);
            ListsItsOwn(service) && Fits(s, service, child) && Tidy(s, service, child, walkedAt, from) ==>
              Fits(s', service, child) && Tidy(s', service, child, StampedEach(walkedAt, service, picked, tick), from)
  {
    hide Fits, Mirrors, ListsOnly, ListsItsOwn, WalkAnswer, WalkedEach, StampedEach;
    var s', after := WalkedEach(s, service, child, parent, picked, tick), StampedEach(walkedAt, service, picked, tick);
    if !(ListsItsOwn(service) && Fits(s, service, child) && Tidy(s, service, child, walkedAt, from)) {
      return;
    }
    WalkingMirrors(s, service, child, parent, picked, tick);
    assert Walks(s, s', service, child, picked);
    forall p | p in after && after[p] >= from && WalkAnswer(service, p, 0).Ok? ensures Mirrors(s', service, child, p) {
      if p !in picked {
        OnlyPickedAreStamped(walkedAt, service, picked, tick, p);
      }
    }
  }

  /** Every live parent but these is mirrored, if its collection answers to the end. */
  ghost predicate AllMirrored(s: Store, service: Service, child: Table, parent: Table, but: set<Id>) {
    forall p :: p in LiveParents(s, parent) - but && WalkAnswer(service, p, 0).Ok? ==> Mirrors(s, service, child, p)
  }

  /** What is not due any more is mirrored. */
  lemma NothingDueIsMirrored(s: Store, service: Service, child: Table, parent: Table, walkedAt: map<Id, Time>, started: Time)
    ensures Tidy(s, service, child, walkedAt, started) ==>
              AllMirrored(s, service, child, parent, Due(LiveParents(s, parent), walkedAt, started))
  {
    hide LiveParents, Mirrors, WalkAnswer;
  }

  lemma FewerExceptions(s: Store, service: Service, child: Table, parent: Table, but: set<Id>, more: set<Id>)
    requires AllMirrored(s, service, child, parent, but)
    ensures but <= more ==> AllMirrored(s, service, child, parent, more)
  {
    hide LiveParents, Mirrors, WalkAnswer;
  }

  lemma OneParentMore(s: Store, walkedAt: map<Id, Time>, service: Service, child: Table, parent: Table, picked: seq<Id>, i: nat, tick: nat)
    requires i < |picked|
    ensures WalkedEach(s, service, child, parent, picked[..i + 1], tick) ==
            WalkedOne(WalkedEach(s, service, child, parent, picked[..i], tick), service, child, parent, picked[i], service.now(tick + 2 * i + 1))
    ensures var before := StampedEach(walkedAt, service, picked[..i], tick);
            StampedEach(walkedAt, service, picked[..i + 1], tick) ==
            if WalkAnswer(service, picked[i], 0).Error? then before else before[picked[i] := service.now(tick + 2 * (i + 1))]
    ensures Reached(service, picked[..i + 1]) == Reached(service, picked[..i]) + if WalkAnswer(service, picked[i], 0).Error? then 0 else 1
  {
    hide WalkedOne, WalkAnswer;
    assert picked[..i + 1][..i] == picked[..i];
  }

  lemma NothingWalked(s: Store, service: Service, child: Table, parent: Table, walkedAt: map<Id, Time>, tick: nat)
    ensures WalkedEach(s, service, child, parent, [], tick) == s && StampedEach(walkedAt, service, [], tick) == walkedAt
    ensures Reached(service, []) == 0
  {
  }

  /** Why no row may be ahead: a buried row whose payload is newer than its tombstone, listed
      now under another parent with a stamp between the two, is revived as it was held --
      under the parent it was pruned from. */
  lemma ARowAheadComesBack() returns (s: Store, service: Service, r: Resource, p: Id, q: Id)
    ensures Stamped(s) && CoherentStore(s) && ListsItsOwn(service) && r in service.children(q)
    ensures Mirrors(s, service, ListResult, p) && !Mirrors(Route(s, r), service, ListResult, p)
  {
    p, q := 10, 20;
    r := Resource(Some(ListResult), 1, Payload(Some(7), {}, Some(q), ""));
    var held := Row(Payload(Some(10), {}, Some(p), ""), Some(5), Some(5), Some(Destroyed), None);
    s := map[KeyOf(r) := held];
    service := ListsOne(20, r);
    ItListsItsOwn(20, r);
    assert UpsertRow(held, r.payload) == Row(held.raw, None, None, None, None);
    assert ChildIds(service.children(p)) == {};
    hide Route, UpsertRow, ListsOne, ListsItsOwn;
    RevivedAsHeld(s, r, held, p, service);
  }

  /** A remote whose only listed child is this one. */
  function ListsOne(q: Id, r: Resource): Service {
    Service(id => if id == q then [r] else [], (id, off) => Ok, id => Ok, n => n)
  }

  lemma ItListsItsOwn(q: Id, r: Resource)
    requires r.payload.owner == Some(q)
    ensures ListsItsOwn(ListsOne(q, r)) && r in ListsOne(q, r).children(q)
    ensures forall p :: p != q ==> ListsOne(q, r).children(p) == []
  {
  }

  lemma RevivedAsHeld(s: Store, r: Resource, held: Row, p: Id, service: Service)
    requires r.table == Some(ListResult) && Routable(r) && s == map[KeyOf(r) := held] && held.raw.owner == Some(p)
    requires UpsertRow(held, r.payload) == Row(held.raw, None, None, None, None) && ChildIds(service.children(p)) == {}
    ensures !Mirrors(Route(s, r), service, ListResult, p)
  {
    RoutingAChildIsOneRow(s, r, ListResult);
    hide Route, UpsertRow;
    ALiveRowIsUnlisted(Route(s, r), service, KeyOf(r), p);
  }

  lemma ALiveRowIsUnlisted(s: Store, service: Service, k: Key, p: Id)
    requires k in s && s[k].Live() && s[k].raw.owner == Some(p) && k.id !in ChildIds(service.children(p))
    ensures !Mirrors(s, service, k.table, p)
  {
  }

  // ----- which parents are due --------------------------------------------------------

  function LiveParents(s: Store, parent: Table): set<Id> {
    set k | k in s && k.table == parent && s[k].Live() :: k.id
  }

  /** Walked no later than never, or before the round began. */
  function Due(live: set<Id>, walkedAt: map<Id, Time>, started: Time): set<Id> {
    set p | p in live && (p in walkedAt ==> walkedAt[p] < started)
  }

  /** Never walked first, then the longest ago, then by id. */
  predicate Before(walkedAt: map<Id, Time>, p: Id, q: Id) {
    if p !in walkedAt then q in walkedAt || p <= q
    else q in walkedAt && (walkedAt[p] < walkedAt[q] || (walkedAt[p] == walkedAt[q] && p <= q))
  }

  predicate IsFirst(ids: set<Id>, walkedAt: map<Id, Time>, p: Id) {
    p in ids && forall q :: q in ids ==> Before(walkedAt, p, q)
  }

  lemma {:induction false} SomeParentIsFirst(ids: set<Id>, walkedAt: map<Id, Time>)
    requires ids != {}
    ensures exists p :: IsFirst(ids, walkedAt, p)
  {
    var x :| x in ids;
    if forall q :: q in ids ==> Before(walkedAt, x, q) {
      assert IsFirst(ids, walkedAt, x);
    } else {
      assert Before(walkedAt, x, x);
      var z :| z in ids && !Before(walkedAt, x, z);
      assert z in ids - {x};
      SomeParentIsFirst(ids - {x}, walkedAt);
      var y :| IsFirst(ids - {x}, walkedAt, y);
      assert IsFirst(ids, walkedAt, y);
    }
  }

  function FirstOf(ids: set<Id>, walkedAt: map<Id, Time>): (p: Id)
    requires ids != {}
    ensures IsFirst(ids, walkedAt, p)
  {
    SomeParentIsFirst(ids, walkedAt);
    var p :| IsFirst(ids, walkedAt, p);
    p
  }

  /** As many of the due as the budget allows, each once, and before all others. */
  ghost predicate IsPicked(picked: seq<Id>, due: set<Id>, walkedAt: map<Id, Time>, budget: nat) {
    && (forall p :: p in picked ==> p in due)
    && |picked| == (if |due| <= budget then |due| else budget)
    && (forall i, j :: 0 <= i < j < |picked| ==> picked[i] != picked[j])
    && (forall p, q :: p in picked && q in due && q !in picked ==>
          && (q !in walkedAt ==> p !in walkedAt)
          && (p in walkedAt && q in walkedAt ==> walkedAt[p] <= walkedAt[q]))
  }

  lemma ThesePicked(picked: seq<Id>, rest: set<Id>, due: set<Id>, walkedAt: map<Id, Time>, budget: nat)
    requires rest <= due && (forall p :: p in picked <==> p in due - rest)
    requires |picked| == (if |due| <= budget then |due| else budget)
    requires forall i, j :: 0 <= i < j < |picked| ==> picked[i] != picked[j]
    requires forall p, q :: p in picked && q in rest ==> Before(walkedAt, p, q)
    ensures IsPicked(picked, due, walkedAt, budget)
  {
  }

  method PickDue(due: set<Id>, walkedAt: map<Id, Time>, budget: nat) returns (picked: seq<Id>, rest: set<Id>)
    ensures rest <= due && (forall p :: p in picked <==> p in due - rest)
    ensures |picked| == (if |due| <= budget then |due| else budget)
    ensures forall i, j :: 0 <= i < j < |picked| ==> picked[i] != picked[j]
    ensures forall p, q :: p in picked && q in rest ==> Before(walkedAt, p, q)
  {
    picked, rest := [], due;
    while |picked| < budget && rest != {}
      invariant rest <= due && (forall p :: p in picked <==> p in due - rest)
      invariant |picked| + |rest| == |due| && |picked| <= budget
      invariant forall i, j :: 0 <= i < j < |picked| ==> picked[i] != picked[j]
      invariant forall p, q :: p in picked && q in rest ==> Before(walkedAt, p, q)
      decreases |rest|
    {
      var p := FirstOf(rest, walkedAt);
      assert |rest - {p}| == |rest| - 1 && p !in picked;
      picked, rest := picked + [p], rest - {p};
    }
  }

  // ----- progress of a round ------------------------------------------------------------

  lemma {:induction false} Distinct<T>(s: seq<T>) returns (elements: set<T>)
    requires forall i, j :: 0 <= i < j < |s| ==> s[i] != s[j]
    ensures (forall x :: x in elements <==> x in s) && |elements| == |s|
  {
    if s == [] {
      elements := {};
    } else {
      var front := Distinct(s[..|s| - 1]);
      elements := front + {s[|s| - 1]};
    }
  }

  /** Failing parents can hold at most `|failing|` of the `budget` places in a step. */
  lemma AStepWalksTheRest(due: set<Id>, rest: set<Id>, picked: seq<Id>, failing: set<Id>, budget: nat)
    requires rest <= due && (forall p :: p in picked <==> p in due - rest)
    requires |picked| == (if |due| <= budget then |due| else budget)
    requires forall i, j :: 0 <= i < j < |picked| ==> picked[i] != picked[j]
    requires |failing| < budget
    ensures Fewer(rest - failing, due - failing, budget - |failing|)
  {
    var taken := Distinct(picked);
    assert taken == due - rest;
    assert due == taken + rest;
    assert |due| == |taken| + |rest|;
    if |due| <= budget {
      assert |rest| == 0;
      SubsetIsNoLarger(rest - failing, rest);
    } else {
      var good := taken - failing;
      assert due - failing == good + (rest - failing);
      assert |due - failing| == |good| + |rest - failing|;
      SubsetIsNoLarger(taken * failing, failing);
      assert taken == good + (taken * failing);
      assert |taken| == |good| + |taken * failing|;
    }
  }

  datatype Round = Round(started: Time, walked: nat)

  datatype WalkOutcome = Walked(n: nat) | ParentGone | WalkFailed

  datatype StepOutcome = RoundDone | RoundContinues | StepFailed

  class Walker {
    const writer: CanonicalWriter
    const child: Table
    const parent: Table
    var walkedAt: map<Id, Time>
    var round: Option<Round>
    var completedAt: Option<Time>
    var ticks: nat

    constructor (writer: CanonicalWriter, child: Table, parent: Table)
      requires OwnerTable(child) == Some(parent)
      ensures this.writer == writer && this.child == child && this.parent == parent
      ensures walkedAt == map[] && round.None? && completedAt.None? && ticks == 0
    {
      this.writer, this.child, this.parent := writer, child, parent;
      walkedAt, round, completedAt, ticks := map[], None, None, 0;
    }

    ghost predicate Valid()
      reads this
    {
      OwnerTable(child) == Some(parent)
    }

    /** Pages through one parent's collection, up to the first page that is not answered. */
    method FetchChildren(service: Service, p: Id) returns (answer: Status, seen: set<Id>)
      requires Valid() && ListsOnly(service, child)
      modifies writer
      ensures SameElsewhere(old(writer.rows), writer.rows, child)
      ensures answer == WalkAnswer(service, p, 0) && writer.rows == Fetched(old(writer.rows), service, p)
      ensures answer.Ok? ==> writer.rows == RouteAll(old(writer.rows), service.children(p)) && seen == ChildIds(service.children(p))
    {
      hide RouteAll, ChildIds, SameElsewhere;
      ghost var s0 := writer.rows;
      var all := service.children(p);
      var off := 0;
      seen := {};
      NothingRouted(s0, all);
      while true
        invariant off <= |all|
        invariant writer.rows == RouteAll(s0, all[..off]) && seen == ChildIds(all[..off])
        invariant WalkAnswer(service, p, 0) == WalkAnswer(service, p, off) && WalkReach(service, p, 0) == WalkReach(service, p, off)
        decreases |all| - off
      {
        OtherTablesAreUntouched(s0, all, off, child);
        answer := service.collection(p, off);
        if !answer.Ok? {
          return;
        }
        var data := Slice(all, off);
        OneMorePage(s0, all, off);
        var _ := writer.RoutePage(data, []);
        seen := seen + ChildIds(data);
        if |data| < PER_PAGE {
          OtherTablesAreUntouched(s0, all, |all|, child);
          assert all[..|all|] == all;
          return;
        }
        off := off + PER_PAGE;
      }
    }

    /** Everything one parent has, then a tombstone for whatever it no longer has. */
    method WalkOne(service: Service, p: Id) returns (outcome: WalkOutcome)
      requires Valid() && ListsOnly(service, child)
      modifies writer, `ticks
      ensures ticks == old(ticks) + 1
      ensures writer.rows == WalkedOne(old(writer.rows), service, child, parent, p, service.now(ticks))
      ensures match WalkAnswer(service, p, 0)
              case Ok => outcome == Walked(|ChildIds(service.children(p))|)
              case Error => outcome.WalkFailed?
              case NotFound => outcome.ParentGone?
      ensures !outcome.ParentGone? ==> SameElsewhere(old(writer.rows), writer.rows, child)
      ensures old(Kempt(writer.rows)) ==> Kempt(writer.rows) && BuriesForNews(old(writer.rows), writer.rows)
    {
      hide Kempt, BuriesForNews, RouteAll, Tombstone, ChildIds;
      if Kempt(writer.rows) {
        WalkingOneBuriesForNews(writer.rows, service, child, parent, p, service.now(ticks + 1));
      }
      ticks := ticks + 1;
      var answer, seen := FetchChildren(service, p);
      match answer {
        case NotFound =>
          TombstoneIfAbsent(service, p);
          outcome := ParentGone;
        case Error =>
          outcome := WalkFailed;
        case Ok =>
          PruneStale(p, seen, service.now(ticks));
          outcome := Walked(|seen|);
      }
    }

    method PruneStale(p: Id, seen: set<Id>, now: Time)
      requires Valid()
      modifies writer
      ensures writer.rows == Pruned(old(writer.rows), child, p, seen, now)
      // What it buries comes back on news.
      ensures old(Kempt(writer.rows)) ==> BuriesForNews(old(writer.rows), writer.rows)
    {
      hide Kempt, BuriesForNews, Tombstone, BuryRow;
      if Kempt(writer.rows) {
        PrunedChildrenComeBack(writer.rows, child, p, seen, now);
      }
      ghost var s := writer.rows;
      var stale := set k | k in writer.rows && Stale(writer.rows, child, p, seen, k);
      var todo := stale;
      while todo != {}
        invariant todo <= stale
        invariant writer.rows.Keys == s.Keys
        invariant forall k :: k in s ==>
            writer.rows[k] == if k in stale - todo then BuryRow(s[k], None, Destroyed, None, now) else s[k]
        decreases todo
      {
        var k :| k in todo;
        todo := todo - {k};
        AChildHasNoChildren(writer.rows, k, now);
        writer.Tombstone(k, None, Destroyed, None, now);
      }
    }

    /** Buries the parent only once it has itself answered 404. */
    method TombstoneIfAbsent(service: Service, p: Id)
      modifies writer
      ensures if service.itself(p).NotFound?
              then writer.rows == Tombstone(old(writer.rows), Key(parent, p), None, AuditAbsent, None, service.now(ticks))
              else writer.rows == old(writer.rows)
    {
      if service.itself(p).NotFound? {
        writer.Tombstone(Key(parent, p), None, AuditAbsent, None, service.now(ticks));
      }
    }

    /** Walks one parent and records that it was walked. */
    method WalkParent(service: Service, p: Id) returns (outcome: WalkOutcome)
      requires Valid() && ListsOnly(service, child)
      modifies writer, `ticks, `walkedAt
      ensures ticks == old(ticks) + 2
      ensures writer.rows == WalkedOne(old(writer.rows), service, child, parent, p, service.now(old(ticks) + 1))
      ensures walkedAt == if outcome.WalkFailed? then old(walkedAt) else old(walkedAt)[p := service.now(ticks)]
      ensures old(Kempt(writer.rows)) ==> Kempt(writer.rows) && BuriesForNews(old(writer.rows), writer.rows)
      ensures outcome.Walked? <==> WalkAnswer(service, p, 0).Ok?
      ensures outcome.WalkFailed? <==> WalkAnswer(service, p, 0).Error?
      ensures !WalkAnswer(service, p, 0).NotFound? ==>
                LiveParents(writer.rows, parent) == old(LiveParents(writer.rows, parent))
      ensures outcome.Walked? ==> NoUnlistedChild(writer.rows, child, p, ChildIds(service.children(p)))
    {
      hide Kempt, BuriesForNews;
      outcome := WalkOne(service, p);
      ticks := ticks + 1;
      if !outcome.WalkFailed? {
        walkedAt := walkedAt[p := service.now(ticks)];
      }
    }

    /** Walks these parents in turn; a failing one stays un-walked. */
    method WalkEach(service: Service, picked: seq<Id>, ghost failing: set<Id>) returns (walked: nat, failed: nat)
      requires Valid() && ListsOnly(service, child)
      modifies writer, `ticks, `walkedAt
      ensures walked == Reached(service, picked) && walked + failed == |picked| && ticks == old(ticks) + 2 * |picked|
      ensures writer.rows == WalkedEach(old(writer.rows), service, child, parent, picked, old(ticks))
      ensures walkedAt == StampedEach(old(walkedAt), service, picked, old(ticks))
      ensures Steady(service, failing) && ClockMovesForward(service) ==>
                && LiveParents(writer.rows, parent) == old(LiveParents(writer.rows, parent))
                && Rewalked(old(walkedAt), walkedAt, picked, failing, service.now(old(ticks)))
    {
      hide WalkedOne, WalkedEach, StampedEach, Reached, WalkAnswer, LiveParents, ListsOnly, NoUnlistedChild, ChildIds, Rewalked, ClockMovesForward;
      walked, failed := 0, 0;
      NothingWalked(writer.rows, service, child, parent, walkedAt, ticks);
      assert picked[..0] == [];
      for i := 0 to |picked|
        invariant walked == Reached(service, picked[..i]) && walked + failed == i && ticks == old(ticks) + 2 * i
        invariant writer.rows == WalkedEach(old(writer.rows), service, child, parent, picked[..i], old(ticks))
        invariant walkedAt == StampedEach(old(walkedAt), service, picked[..i], old(ticks))
        invariant Steady(service, failing) ==> LiveParents(writer.rows, parent) == old(LiveParents(writer.rows, parent))
      {
        var outcome := WalkParent(service, picked[i]);
        if outcome.WalkFailed? {
          failed := failed + 1;
        } else {
          walked := walked + 1;
        }
        OneParentMore(old(writer.rows), old(walkedAt), service, child, parent, picked, i, old(ticks));
      }
      assert picked[..|picked|] == picked;
      StampingRewalks(old(walkedAt), service, picked, failing, old(ticks));
    }

    /** When the round in progress began, or would begin now. */
    ghost function StartsAt(service: Service): Time
      reads this
    {
      if round.Some? then round.value.started else service.now(ticks + 1)
    }

    /** How often the clock was read when the step begins to walk. */
    ghost function FirstTick(): nat
      reads this
    {
      if round.Some? then ticks else ticks + 1
    }

    /** One bounded unit of a round; a round is complete when nothing is due. */
    method WalkRoundStep(service: Service, budget: nat, ghost failing: set<Id>) returns (outcome: StepOutcome, picked: seq<Id>)
      requires Valid() && ListsOnly(service, child)
      modifies writer, `ticks, `walkedAt, `round, `completedAt
      ensures ticks >= old(ticks)
      // It walks the first of the parents that are due.
      ensures IsPicked(picked, old(Due(LiveParents(writer.rows, parent), walkedAt, StartsAt(service))), old(walkedAt), budget)
      ensures writer.rows == WalkedEach(old(writer.rows), service, child, parent, picked, old(FirstTick()))
      ensures walkedAt == StampedEach(old(walkedAt), service, picked, old(FirstTick()))
      // What a round is for: the parents it has walked are mirrored, at its end all of them.
      ensures ListsItsOwn(service) && old(Fits(writer.rows, service, child) && Tidy(writer.rows, service, child, walkedAt, StartsAt(service))) ==>
                && Fits(writer.rows, service, child) && Tidy(writer.rows, service, child, walkedAt, old(StartsAt(service)))
                && (outcome.RoundDone? && budget > 0 ==> AllMirrored(writer.rows, service, child, parent, {}))
      // What it buries comes back on news.
      ensures old(Kempt(writer.rows)) ==> Kempt(writer.rows) && BuriesForNews(old(writer.rows), writer.rows)
      ensures outcome.RoundDone? ==> round.None? && completedAt == Some(service.now(ticks)) && writer.rows == old(writer.rows) && walkedAt == old(walkedAt)
      ensures !outcome.RoundDone? ==> round.Some? && completedAt == old(completedAt)
      ensures !outcome.RoundDone? ==> round.value.started == old(StartsAt(service)) && (old(round).None? ==> ticks > old(ticks))
      // The count goes up by the walks that did not fail; a step none of whose walks got through is an error.
      ensures !outcome.RoundDone? ==>
                round.value.walked == Reached(service, picked) + if old(round).Some? then old(round).value.walked else 0
      ensures outcome.StepFailed? <==> picked != [] && forall p :: p in picked ==> WalkAnswer(service, p, 0).Error?
      // Recorded complete exactly when every live parent was walked since the round began
      // -- or when the step had nothing to spend.
      ensures outcome.RoundDone? <==> old(Due(LiveParents(writer.rows, parent), walkedAt, StartsAt(service))) == {} || budget == 0
      ensures Steady(service, failing) && ClockMovesForward(service) ==>
                LiveParents(writer.rows, parent) == old(LiveParents(writer.rows, parent))
      ensures Steady(service, failing) && ClockMovesForward(service) && |failing| < budget
              && (old(round).Some? ==> old(StartsAt(service)) <= service.now(old(ticks))) && !outcome.RoundDone? ==>
                && old(StartsAt(service)) <= service.now(ticks)
                && Fewer(Due(LiveParents(writer.rows, parent), walkedAt, old(StartsAt(service))) - failing,
                         old(Due(LiveParents(writer.rows, parent), walkedAt, StartsAt(service))) - failing,
                         budget - |failing|)
    {
      hide Due, Fewer, LiveParents, Steady, Rewalked, ListsOnly, ListsItsOwn, Before, IsPicked, Fits, Tidy, AllMirrored, WalkedEach, StampedEach,
        Kempt, BuriesForNews, Reached, WalkAnswer;
      ghost var s0 := writer.rows;
      if round.None? {
        ticks := ticks + 1;
        round := Some(Round(service.now(ticks), 0));
      }
      var started := round.value.started;
      var due := Due(LiveParents(writer.rows, parent), walkedAt, started);
      var rest;
      picked, rest := PickDue(due, walkedAt, budget);
      ThesePicked(picked, rest, due, walkedAt, budget);
      if picked == [] {
        NothingWalked(writer.rows, service, child, parent, walkedAt, ticks);
        NothingDueIsMirrored(writer.rows, service, child, parent, walkedAt, started);
        if Kempt(s0) {
          BuriesNobody(s0);
        }
        ticks := ticks + 1;
        completedAt, round := Some(service.now(ticks)), None;
        outcome := RoundDone;
        return;
      }
      ghost var live, walkedBefore, ticksBefore := LiveParents(writer.rows, parent), walkedAt, ticks;
      var walked, failed := WalkEach(service, picked, failing);
      round := Some(round.value.(walked := round.value.walked + walked));
      WalkingTidies(s0, service, child, parent, walkedBefore, picked, ticksBefore, started);
      if Kempt(s0) {
        WalkingBuriesForNews(s0, service, child, parent, picked, ticksBefore);
      }
      AStepIsProgress(live, walkedBefore, walkedAt, started, picked, rest, failing, service.now(ticksBefore), budget);
      NobodyReached(service, picked);
      outcome := if failed == |picked| then StepFailed else RoundContinues;
    }

    /**
     * Steps of a round in which the parents do not change and those in `failing` --
     * fewer than the budget -- fail for ever. `(n - f) / (budget - f)` steps, rounded
     * up, walk all the others.
     */
    method WalkSteps(service: Service, budget: nat, steps: nat, ghost failing: set<Id>) returns (done: bool)
      requires Valid() && ListsOnly(service, child) && round.None?
      requires Steady(service, failing) && ClockMovesForward(service)
      requires |failing| < budget && failing <= LiveParents(writer.rows, parent)
      modifies writer, `ticks, `walkedAt, `round, `completedAt
      ensures LiveParents(writer.rows, parent) == old(LiveParents(writer.rows, parent))
      ensures var n, f := |LiveParents(writer.rows, parent)|, |failing|;
              steps * (budget - f) >= n - f ==>
                && Due(LiveParents(writer.rows, parent), walkedAt, service.now(old(ticks) + 1)) <= failing
                && (ListsItsOwn(service) && old(Fits(writer.rows, service, child) && Tidy(writer.rows, service, child, walkedAt, StartsAt(service))) ==>
                      AllMirrored(writer.rows, service, child, parent, failing))
    {
      hide Fewer, Due, Steady, ClockMovesForward, ListsOnly, ListsItsOwn, LiveParents, Fits, Tidy, AllMirrored, WalkedEach, StampedEach, IsPicked,
        Kempt, BuriesForNews, Reached, WalkAnswer;
      ghost var tidy := ListsItsOwn(service) && Fits(writer.rows, service, child) && Tidy(writer.rows, service, child, walkedAt, StartsAt(service));
      ghost var live, started := LiveParents(writer.rows, parent), service.now(ticks + 1);
      ghost var owed := Due(live, walkedAt, started) - failing;
      done := false;
      var i := 0;
      NothingDoneYet(live, walkedAt, started, failing, owed, budget - |failing|);
      while i < steps && !done
        invariant 0 <= i <= steps
        invariant LiveParents(writer.rows, parent) == live
        invariant !done ==> if i == 0 then round.None? && ticks == old(ticks) else round.Some? && round.value.started == started <= service.now(ticks)
        invariant done ==> Due(live, walkedAt, started) == {}
        invariant tidy ==> Fits(writer.rows, service, child) && Tidy(writer.rows, service, child, walkedAt, started)
        invariant !done ==> Fewer(Due(live, walkedAt, started) - failing, owed, i * (budget - |failing|))
      {
        ghost var before := Due(live, walkedAt, started) - failing;
        var outcome, picked := WalkRoundStep(service, budget, failing);
        done := outcome.RoundDone?;
        if !done {
          OneMoreStep(before, owed, Due(live, walkedAt, started) - failing, i, budget - |failing|);
        }
        i := i + 1;
      }
      EnoughSteps(live, Due(live, walkedAt, started), failing, owed, steps, budget - |failing|, done);
      if tidy {
        NothingDueIsMirrored(writer.rows, service, child, parent, walkedAt, started);
        FewerExceptions(writer.rows, service, child, parent, Due(live, walkedAt, started), failing);
      }
    }
  }

  lemma NothingDoneYet(live: set<Id>, walkedAt: map<Id, Time>, started: Time, failing: set<Id>, owed: set<Id>, gain: nat)
    requires failing <= live && owed == Due(live, walkedAt, started) - failing
    ensures |owed| <= |live| - |failing|
    ensures Fewer(Due(live, walkedAt, started) - failing, owed, 0 * gain)
  {
    SubsetIsNoLarger(owed, live - failing);
    CountWithout(live, failing);
  }

  lemma EnoughSteps(live: set<Id>, due: set<Id>, failing: set<Id>, owed: set<Id>, steps: nat, gain: nat, done: bool)
    requires |owed| <= |live| - |failing|
    requires if done then due == {} else Fewer(due - failing, owed, steps * gain)
    ensures steps * gain >= |live| - |failing| ==> due <= failing
  {
    if steps * gain >= |live| - |failing| && !done {
      forall p | p in due ensures p in failing {
        assert p !in due - failing;
      }
    }
  }

  /** Walking a parent in `failing` always ends in an error, on its first page or on a
      later one; walking any other always reaches its last page. */
  ghost predicate Steady(service: Service, failing: set<Id>) {
    forall p :: if p in failing then WalkAnswer(service, p, 0).Error? else WalkAnswer(service, p, 0).Ok?
  }

  /** Of these parents the ones that do not fail were walked at `t` or later, and no
      other parent's record changed. */
  ghost predicate Rewalked(before: map<Id, Time>, after: map<Id, Time>, picked: seq<Id>, failing: set<Id>, t: Time) {
    forall p ::
      if p in picked && p !in failing then p in after && after[p] >= t
      else (p in after <==> p in before) && (p in before ==> after[p] == before[p])
  }

  /** At least `gain` fewer, or none at all. */
  ghost predicate Fewer(after: set<Id>, before: set<Id>, gain: int) {
    |after| == 0 || |after| + gain <= |before|
  }

  lemma OnlyTheRestIsDue(live: set<Id>, before: map<Id, Time>, after: map<Id, Time>, started: Time,
                         picked: seq<Id>, rest: set<Id>, failing: set<Id>, t: Time)
    requires rest <= Due(live, before, started)
    requires forall p :: p in picked <==> p in Due(live, before, started) - rest
    requires Rewalked(before, after, picked, failing, t) && started <= t
    ensures Due(live, after, started) - failing == rest - failing
  {
  }

  lemma AStepIsProgress(live: set<Id>, before: map<Id, Time>, after: map<Id, Time>, started: Time, picked: seq<Id>,
                        rest: set<Id>, failing: set<Id>, t: Time, budget: nat)
    requires var due := Due(live, before, started);
             && rest <= due && (forall p :: p in picked <==> p in due - rest)
             && |picked| == (if |due| <= budget then |due| else budget)
    requires forall i, j :: 0 <= i < j < |picked| ==> picked[i] != picked[j]
    ensures |failing| < budget && Rewalked(before, after, picked, failing, t) && started <= t ==>
              Fewer(Due(live, after, started) - failing, Due(live, before, started) - failing, budget - |failing|)
  {
    hide Due, Rewalked, Fewer;
    if |failing| < budget && Rewalked(before, after, picked, failing, t) && started <= t {
      AStepWalksTheRest(Due(live, before, started), rest, picked, failing, budget);
      OnlyTheRestIsDue(live, before, after, started, picked, rest, failing, t);
    }
  }

  lemma {:induction false} StampingRewalks(walkedAt: map<Id, Time>, service: Service, picked: seq<Id>, failing: set<Id>, tick: nat)
    ensures Steady(service, failing) && ClockMovesForward(service) ==>
              Rewalked(walkedAt, StampedEach(walkedAt, service, picked, tick), picked, failing, service.now(tick))
  {
    hide WalkAnswer;
    if picked != [] && Steady(service, failing) && ClockMovesForward(service) {
      StampingRewalks(walkedAt, service, picked[..|picked| - 1], failing, tick);
      assert forall p :: p in picked ==> p in picked[..|picked| - 1] || p == picked[|picked| - 1];
    }
  }

  lemma OneMoreStep(before: set<Id>, owed: set<Id>, after: set<Id>, i: nat, gain: nat)
    requires Fewer(before, owed, i * gain) && Fewer(after, before, gain)
    ensures Fewer(after, owed, (i + 1) * gain)
  {
    assert (i + 1) * gain == i * gain + gain;
  }

  lemma CountWithout(live: set<Id>, failing: set<Id>)
    requires failing <= live
    ensures |live - failing| == |live| - |failing|
  {
    assert live == (live - failing) + failing;
  }


  lemma NothingRouted(s: Store, all: seq<Resource>)
    ensures RouteAll(s, all[..0]) == s && ChildIds(all[..0]) == {}
  {
  }

  lemma OneMorePage(s: Store, all: seq<Resource>, off: nat)
    requires off <= |all|
    ensures var data := Slice(all, off);
            var end := off + |data|;
            && end <= |all| && (|data| < PER_PAGE ==> end == |all| && all[..end] == all)
            && RouteAll(s, all[..end]) == RouteAll(RouteAll(s, all[..off]), [] + data)
            && ChildIds(all[..end]) == ChildIds(all[..off]) + ChildIds(data)
  {
    var data := Slice(all, off);
    assert [] + data == data;
    assert all[..off + |data|] == all[..off] + data;
    RouteAppend(s, all[..off], data);
  }

  lemma OtherTablesAreUntouched(s: Store, all: seq<Resource>, off: nat, child: Table)
    requires OwnerTable(child).Some? && off <= |all|
    requires forall r :: r in all ==> r.table == Some(child)
    ensures SameElsewhere(s, RouteAll(s, all[..off]), child)
  {
    forall k: Key | k.table != child
      ensures (k in RouteAll(s, all[..off]) <==> k in s) && (k in s ==> RouteAll(s, all[..off])[k] == s[k])
    {
      ChildWritesStayInTheirTable(s, all[..off], child, k);
    }
  }
}
