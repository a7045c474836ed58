/**
 * What counts as the mirror disagreeing with Planning Center
 * (pcomirror/divergence/rules.py): the comparison of one page served both ways, the
 * page window, and the verdict that promises what the sweep will do.
 */
module Divergence {
  import opened Types
  import opened Rows
  import opened Stores
  import opened KeysetSync

  const MAX_DIFFERENCES: nat := 40

  datatype Kind = Mirrored(table: Table) | Unmirrored(name: string)

  datatype RecordKey = RecordKey(kind: Kind, id: Id)

  datatype Value = Text(text: string) | At(time: Time)

  /** A resource in a response. A relationship is `None` when it carries no `data`;
      the ids of one are compared order-insensitively. */
  datatype Doc = Doc(key: RecordKey, attributes: map<string, Value>, relationships: map<string, Option<multiset<Id>>>)

  /** A response; `more` is a `next` cursor in `meta` or in `links`. */
  datatype Body = Body(data: seq<Doc>, included: seq<Doc>, meta: map<string, int>, more: bool)

  datatype Side = Mirror | Pco

  datatype Difference =
    | StatusDiffers(mirror: int, pco: int)
    | SameRecordsOtherOrder
    | OneSideOnly(onlyMirror: seq<Id>, onlyPco: seq<Id>)
    | PastTheEdge(mirrorCount: nat, pcoCount: nat)
    | MetaOmitted(metaKey: string)
    | CountDiffers(metaKey: string)
    | AttributeDiffers(key: RecordKey, name: string)
    | RelationshipDiffers(key: RecordKey, name: string)
    | ResourceMissing(key: RecordKey, returnedBy: Side, inData: bool)

  predicate Ignored(metaKey: string) {
    metaKey in {"mirror", "can_search_by", "can_filter", "parent", "next", "prev"}
  }

  function DataKeys(b: Body): set<RecordKey> {
    set d | d in b.data :: d.key
  }

  function DataIds(b: Body): seq<Id> {
    seq(|b.data|, i requires 0 <= i < |b.data| => b.data[i].key.id)
  }

  /** Everything a document carries: of two copies in `data` the last one, and a
      sideload only where nothing with its key came before. */
  function DataIndex(data: seq<Doc>): map<RecordKey, Doc> {
    if data == [] then map[]
    else var last := data[|data| - 1]; DataIndex(data[..|data| - 1])[last.key := last]
  }

  function WithSideloads(held: map<RecordKey, Doc>, included: seq<Doc>): map<RecordKey, Doc> {
    if included == [] then held
    else
      var front := WithSideloads(held, included[..|included| - 1]);
      var last := included[|included| - 1];
      if last.key in front then front else front[last.key := last]
  }

  function Index(b: Body): map<RecordKey, Doc> {
    WithSideloads(DataIndex(b.data), b.included)
  }

  /** `docs[i]` is the last of its key. */
  predicate LastOfItsKey(docs: seq<Doc>, i: nat)
    requires i < |docs|
  {
    forall j :: i < j < |docs| ==> docs[j].key != docs[i].key
  }

  predicate FirstOfItsKey(docs: seq<Doc>, i: nat)
    requires i < |docs|
  {
    forall j :: 0 <= j < i ==> docs[j].key != docs[i].key
  }

  /** What an index of a document is: for a key in `data` its last copy there, so that no
      sideload overrides it; for any other key its first sideload; and nothing else. */
  ghost predicate IsIndexOf(held: map<RecordKey, Doc>, data: seq<Doc>, included: seq<Doc>) {
    && (forall i :: 0 <= i < |data| && LastOfItsKey(data, i) ==> data[i].key in held && held[data[i].key] == data[i])
    && (forall i :: 0 <= i < |included| && FirstOfItsKey(included, i) && (forall d :: d in data ==> d.key != included[i].key) ==>
          included[i].key in held && held[included[i].key] == included[i])
    && (forall k :: k in held ==> (held[k] in data || held[k] in included) && held[k].key == k)
    && (forall d :: d in data || d in included ==> d.key in held)
  }

  lemma {:induction false} DataIndexIsTheLast(data: seq<Doc>)
    ensures IsIndexOf(DataIndex(data), data, [])
  {
    if data != [] {
      var front, last := data[..|data| - 1], data[|data| - 1];
      DataIndexIsTheLast(front);
      forall i | 0 <= i < |data| && LastOfItsKey(data, i)
        ensures data[i].key in DataIndex(data) && DataIndex(data)[data[i].key] == data[i]
      {
        if i < |front| {
          assert data[|data| - 1].key != data[i].key;
          assert LastOfItsKey(front, i);
        }
      }
    }
  }

  /** One sideload more, after the others. */
  lemma OneSideloadMore(held: map<RecordKey, Doc>, data: seq<Doc>, front: seq<Doc>, last: Doc)
    requires IsIndexOf(held, data, front)
    ensures IsIndexOf(if last.key in held then held else held[last.key := last], data, front + [last])
  {
    var after, included := if last.key in held then held else held[last.key := last], front + [last];
    forall i | 0 <= i < |included| && FirstOfItsKey(included, i) && (forall d :: d in data ==> d.key != included[i].key)
      ensures included[i].key in after && after[included[i].key] == included[i]
    {
      if i < |front| {
        assert included[i] == front[i];
        assert FirstOfItsKey(front, i) by {
          forall j | 0 <= j < i ensures front[j].key != front[i].key {
            assert included[j].key != included[i].key;
          }
        }
      } else if last.key in held {
        ItCameBefore(held, data, front, last);
      }
    }
  }

  lemma ItCameBefore(held: map<RecordKey, Doc>, data: seq<Doc>, front: seq<Doc>, last: Doc)
    requires IsIndexOf(held, data, front) && last.key in held && forall d :: d in data ==> d.key != last.key
    ensures !FirstOfItsKey(front + [last], |front|)
  {
    var j :| 0 <= j < |front| && front[j] == held[last.key];
    assert (front + [last])[j].key == last.key;
  }

  lemma {:induction false} SideloadsComeSecond(data: seq<Doc>, included: seq<Doc>)
    ensures IsIndexOf(WithSideloads(DataIndex(data), included), data, included)
  {
    hide IsIndexOf;
    if included == [] {
      DataIndexIsTheLast(data);
    } else {
      var front, last := included[..|included| - 1], included[|included| - 1];
      SideloadsComeSecond(data, front);
      OneSideloadMore(WithSideloads(DataIndex(data), front), data, front, last);
      assert included == front + [last];
    }
  }

  method Resources(b: Body) returns (out: map<RecordKey, Doc>)
    ensures out == Index(b)
    ensures IsIndexOf(out, b.data, b.included)
  {
    hide IsIndexOf;
    SideloadsComeSecond(b.data, b.included);
    out := map[];
    for i := 0 to |b.data|
      invariant out == DataIndex(b.data[..i])
    {
      out := out[b.data[i].key := b.data[i]];
      assert b.data[..i + 1][..i] == b.data[..i];
    }
    assert b.data[..|b.data|] == b.data;
    for i := 0 to |b.included|
      invariant out == WithSideloads(DataIndex(b.data), b.included[..i])
    {
      if b.included[i].key !in out {
        out := out[b.included[i].key := b.included[i]];
      }
      assert b.included[..i + 1][..i] == b.included[..i];
    }
    assert b.included[..|b.included|] == b.included;
  }

  // ----- one-sided records and the window -----------------------------------------

  /** A record only `side` returned says nothing when the other side had pages left. */
  predicate Windowed(mirror: Body, pco: Body, side: Side, key: RecordKey) {
    match side
    case Mirror => pco.more && key in DataKeys(mirror)
    case Pco => mirror.more && key in DataKeys(pco)
  }

  predicate OneSided(mirror: Body, pco: Body, side: Side, key: RecordKey) {
    match side
    case Mirror => key in Index(mirror) && key !in Index(pco)
    case Pco => key in Index(pco) && key !in Index(mirror)
  }

  // ----- the reference definition of a difference -----------------------------------

  predicate StatusesAgree(mirror: int, pco: int) {
    mirror == pco || (mirror == 410 && pco == 404)
  }

  function Only(these: seq<Id>, those: seq<Id>): seq<Id> {
    if these == [] then []
    else
      var front, last := Only(these[..|these| - 1], those), these[|these| - 1];
      if last in those then front else front + [last]
  }

  function SaidOnly(these: seq<Id>, those: seq<Id>, windowed: bool): seq<Id> {
    if windowed then [] else Only(these, those)
  }

  /** The one statement about page membership a comparison may make. */
  ghost predicate MembershipDiffers(d: Difference, mirror: Body, pco: Body) {
    var mine, theirs := DataIds(mirror), DataIds(pco);
    var onlyMine, onlyTheirs := Only(mine, theirs), Only(theirs, mine);
    match d
    case SameRecordsOtherOrder => mine != theirs && onlyMine == [] && onlyTheirs == []
    case OneSideOnly(m, p) =>
      && m == SaidOnly(mine, theirs, pco.more) && p == SaidOnly(theirs, mine, mirror.more)
      && !(m == [] && p == [])
    case PastTheEdge(m, p) =>
      && m == (if pco.more then |onlyMine| else 0) && p == (if mirror.more then |onlyTheirs| else 0)
      && !(m == 0 && p == 0)
    case _ => false
  }

  predicate AttributeDisagrees(mine: Doc, theirs: Doc, name: string) {
    || (name in mine.attributes && name !in theirs.attributes)
    || (name !in mine.attributes && name in theirs.attributes)
    || (name in mine.attributes && name in theirs.attributes && mine.attributes[name] != theirs.attributes[name])
  }

  function Related(d: Doc, name: string): Option<multiset<Id>> {
    if name in d.relationships then d.relationships[name] else None
  }

  /** Planning Center's relationships must never be lost; an extra one is ordinary. */
  predicate RelationshipDisagrees(mine: Doc, theirs: Doc, name: string) {
    name in theirs.relationships && theirs.relationships[name].Some? && Related(mine, name) != theirs.relationships[name]
  }

  /** `d` is a way these two responses disagree that is not a documented decision. */
  ghost predicate Differs(d: Difference, mirror: Body, pco: Body, mirrorStatus: int, pcoStatus: int) {
    match d
    case StatusDiffers(m, p) => m == mirrorStatus && p == pcoStatus && !StatusesAgree(m, p)
    case SameRecordsOtherOrder => MembershipDiffers(d, mirror, pco)
    case OneSideOnly(_, _) => MembershipDiffers(d, mirror, pco)
    case PastTheEdge(_, _) => MembershipDiffers(d, mirror, pco)
    case MetaOmitted(k) => k in pco.meta && !Ignored(k) && k !in mirror.meta
    case CountDiffers(k) =>
      k in {"total_count", "count"} && k in pco.meta && k in mirror.meta && mirror.meta[k] != pco.meta[k]
    case AttributeDiffers(k, name) =>
      k in Index(mirror) && k in Index(pco) && AttributeDisagrees(Index(mirror)[k], Index(pco)[k], name)
    case RelationshipDiffers(k, name) =>
      k in Index(mirror) && k in Index(pco) && RelationshipDisagrees(Index(mirror)[k], Index(pco)[k], name)
    case ResourceMissing(k, side, inData) =>
      && OneSided(mirror, pco, side, k) && !Windowed(mirror, pco, side, k)
      && inData == (k in (if side.Mirror? then DataKeys(mirror) else DataKeys(pco)))
  }

  /** Nothing reported is invented, at most `MAX_DIFFERENCES` are reported, and a
      report below that ceiling is complete for the differences `done` selects. */
  ghost predicate Reports(found: seq<Difference>, mirror: Body, pco: Body, mirrorStatus: int, pcoStatus: int,
                          done: Difference -> bool) {
    && |found| <= MAX_DIFFERENCES
    && (forall d :: d in found ==> Differs(d, mirror, pco, mirrorStatus, pcoStatus))
    && (|found| < MAX_DIFFERENCES ==>
          forall d :: Differs(d, mirror, pco, mirrorStatus, pcoStatus) && done(d) ==> d in found)
  }

  function Note(found: seq<Difference>, d: Difference): seq<Difference> {
    if |found| < MAX_DIFFERENCES then found + [d] else found
  }

  method OnlyIn(these: seq<Id>, those: seq<Id>) returns (only: seq<Id>)
    ensures only == Only(these, those)
  {
    only := [];
    for i := 0 to |these|
      invariant only == Only(these[..i], those)
    {
      if these[i] !in those {
        only := only + [these[i]];
      }
      assert these[..i + 1][..i] == these[..i];
    }
    assert these[..|these|] == these;
  }

  lemma NothingOnlyHere(these: seq<Id>, those: seq<Id>, x: Id)
    ensures x in Only(these, those) <==> x in these && x !in those
  {
    if these != [] {
      assert these == these[..|these| - 1] + [these[|these| - 1]];
      NothingOnlyHere(these[..|these| - 1], those, x);
    }
  }

  /** The ids only one side has are listed as often as that side returned them. */
  lemma {:induction false} OnlyKeepsEveryCopy(these: seq<Id>, those: seq<Id>, x: Id)
    ensures multiset(Only(these, those))[x] == if x in those then 0 else multiset(these)[x]
  {
    if these != [] {
      OnlyKeepsEveryCopy(these[..|these| - 1], those, x);
      assert these == these[..|these| - 1] + [these[|these| - 1]];
    }
  }

  method ComparePage(mirror: Body, pco: Body, found0: seq<Difference>, ghost ms: int, ghost ps: int)
    returns (found: seq<Difference>)
    requires Reports(found0, mirror, pco, ms, ps, (d: Difference) => d.StatusDiffers?)
    ensures Reports(found, mirror, pco, ms, ps,
                    (d: Difference) => d.StatusDiffers? || d.SameRecordsOtherOrder? || d.OneSideOnly? || d.PastTheEdge?)
  {
    hide Windowed, OneSided, DataKeys, Index, AttributeDisagrees, RelationshipDisagrees, StatusesAgree, Ignored;
    found := found0;
    var mine, theirs := DataIds(mirror), DataIds(pco);
    if mine != theirs {
      var onlyMine := OnlyIn(mine, theirs);
      var onlyTheirs := OnlyIn(theirs, mine);
      if onlyMine == [] && onlyTheirs == [] {
        found := Note(found, SameRecordsOtherOrder);
      } else {
        var saidMine := if pco.more then [] else onlyMine;
        var saidTheirs := if mirror.more then [] else onlyTheirs;
        if saidMine != [] || saidTheirs != [] {
          found := Note(found, OneSideOnly(saidMine, saidTheirs));
        }
        var pastMine := |onlyMine| - |saidMine|;
        var pastTheirs := |onlyTheirs| - |saidTheirs|;
        if pastMine != 0 || pastTheirs != 0 {
          found := Note(found, PastTheEdge(pastMine, pastTheirs));
        }
      }
    } else {
      NothingOnly(mine, mine);
    }
  }

  lemma NothingOnly(these: seq<Id>, those: seq<Id>)
    requires forall x :: x in these ==> x in those
    ensures Only(these, those) == []
  {
    if Only(these, those) != [] {
      NothingOnlyHere(these, those, Only(these, those)[0]);
    }
  }

  method CompareMeta(mirror: Body, pco: Body, found0: seq<Difference>, ghost ms: int, ghost ps: int)
    returns (found: seq<Difference>)
    requires Reports(found0, mirror, pco, ms, ps,
                     (d: Difference) => d.StatusDiffers? || d.SameRecordsOtherOrder? || d.OneSideOnly? || d.PastTheEdge?)
    ensures Reports(found, mirror, pco, ms, ps,
                    (d: Difference) => !d.AttributeDiffers? && !d.RelationshipDiffers? && !d.ResourceMissing?)
  {
    found := found0;
    var todo := set k | k in pco.meta && !Ignored(k);
    ghost var all := todo;
    while todo != {}
      invariant todo <= all
      invariant Reports(found, mirror, pco, ms, ps,
                        (d: Difference) => d.StatusDiffers? || d.SameRecordsOtherOrder? || d.OneSideOnly? || d.PastTheEdge?
                                           || ((d.MetaOmitted? || d.CountDiffers?) && d.metaKey !in todo))
      decreases todo
    {
      var k :| k in todo;
      todo := todo - {k};
      if k !in mirror.meta {
        found := Note(found, MetaOmitted(k));
      } else if k in {"total_count", "count"} && mirror.meta[k] != pco.meta[k] {
        found := Note(found, CountDiffers(k));
      }
    }
  }

  /** The differences inside one record both sides returned, at most `budget` of them. */
  method CompareResource(key: RecordKey, mine: Doc, theirs: Doc, budget: nat) returns (out: seq<Difference>)
    ensures |out| <= budget
    ensures forall d :: d in out ==> InsideDiffers(d, key, mine, theirs)
    ensures |out| < budget ==> forall d :: InsideDiffers(d, key, mine, theirs) ==> d in out
  {
    out := [];
    if budget == 0 {
      return;
    }
    var todo := mine.attributes.Keys + theirs.attributes.Keys;
    while todo != {}
      invariant |out| <= budget
      invariant forall d :: d in out ==> InsideDiffers(d, key, mine, theirs)
      invariant forall d :: InsideDiffers(d, key, mine, theirs) && d.AttributeDiffers? && d.name !in todo ==> d in out
      decreases todo
    {
      if |out| >= budget {
        return;
      }
      var name :| name in todo;
      todo := todo - {name};
      if name !in mine.attributes || name !in theirs.attributes || mine.attributes[name] != theirs.attributes[name] {
        out := out + [AttributeDiffers(key, name)];
      }
    }
    var rels := theirs.relationships.Keys;
    while rels != {}
      invariant rels <= theirs.relationships.Keys
      invariant |out| <= budget
      invariant forall d :: d in out ==> InsideDiffers(d, key, mine, theirs)
      invariant forall d :: InsideDiffers(d, key, mine, theirs) && d.AttributeDiffers? ==> d in out
      invariant forall d :: InsideDiffers(d, key, mine, theirs) && d.RelationshipDiffers? && d.name !in rels ==> d in out
      decreases rels
    {
      if |out| >= budget {
        return;
      }
      var name :| name in rels;
      rels := rels - {name};
      var theirIds, myIds := Related(theirs, name), Related(mine, name);
      if theirIds.Some? {
        if myIds.None? {
          out := out + [RelationshipDiffers(key, name)];
        } else if myIds != theirIds {
          out := out + [RelationshipDiffers(key, name)];
        }
      }
    }
  }

  ghost predicate InsideDiffers(d: Difference, key: RecordKey, mine: Doc, theirs: Doc) {
    match d
    case AttributeDiffers(k, name) => k == key && AttributeDisagrees(mine, theirs, name)
    case RelationshipDiffers(k, name) => k == key && RelationshipDisagrees(mine, theirs, name)
    case _ => false
  }

  method CompareShared(mirror: Body, pco: Body, found0: seq<Difference>, ghost ms: int, ghost ps: int)
    returns (found: seq<Difference>)
    requires Reports(found0, mirror, pco, ms, ps,
                     (d: Difference) => !d.AttributeDiffers? && !d.RelationshipDiffers? && !d.ResourceMissing?)
    ensures Reports(found, mirror, pco, ms, ps, (d: Difference) => !d.ResourceMissing?)
  {
    hide IsIndexOf, Index, MembershipDiffers, Ignored, StatusesAgree, DataKeys, Windowed, OneSided;
    found := found0;
    var mine := Resources(mirror);
    var theirs := Resources(pco);
    var todo := mine.Keys * theirs.Keys;
    while todo != {}
      invariant todo <= mine.Keys * theirs.Keys
      invariant Reports(found, mirror, pco, ms, ps,
                        (d: Difference) => !d.ResourceMissing?
                                           && (d.AttributeDiffers? || d.RelationshipDiffers? ==> d.key !in todo))
      decreases todo
    {
      var key :| key in todo;
      todo := todo - {key};
      var inside := CompareResource(key, mine[key], theirs[key], MAX_DIFFERENCES - |found|);
      found := found + inside;
    }
  }

  /** One row per record only one side carries, except past the far side's page edge. */
  method RollCall(mirror: Body, pco: Body, side: Side, found0: seq<Difference>, ghost ms: int, ghost ps: int,
                  ghost done: Difference -> bool)
    returns (found: seq<Difference>)
    requires Reports(found0, mirror, pco, ms, ps, done)
    ensures Reports(found, mirror, pco, ms, ps,
                    (d: Difference) => done(d) || (d.ResourceMissing? && d.returnedBy == side))
  {
    hide Windowed, DataKeys, Index, IsIndexOf, AttributeDisagrees, RelationshipDisagrees, MembershipDiffers, StatusesAgree, Ignored;
    found := found0;
    var mine := Resources(mirror);
    var theirs := Resources(pco);
    var data := if side.Mirror? then DataKeys(mirror) else DataKeys(pco);
    var todo := if side.Mirror? then mine.Keys - theirs.Keys else theirs.Keys - mine.Keys;
    while todo != {}
      invariant forall k :: k in todo ==> OneSided(mirror, pco, side, k)
      invariant Reports(found, mirror, pco, ms, ps,
                        (d: Difference) => done(d) || (d.ResourceMissing? && d.returnedBy == side && d.key !in todo))
      decreases todo
    {
      var key :| key in todo;
      todo := todo - {key};
      if !Windowed(mirror, pco, side, key) {
        found := Note(found, ResourceMissing(key, side, key in data));
      }
    }
  }

  /** Every way these two disagree that is not a documented decision, up to the ceiling. */
  method Compare(mirror: Body, pco: Body, mirrorStatus: int, pcoStatus: int) returns (found: seq<Difference>)
    ensures |found| <= 40
    ensures Reports(found, mirror, pco, mirrorStatus, pcoStatus, (d: Difference) => true)
  {
    found := [];
    if mirrorStatus != pcoStatus && !(mirrorStatus == 410 && pcoStatus == 404) {
      found := Note(found, StatusDiffers(mirrorStatus, pcoStatus));
    }
    found := ComparePage(mirror, pco, found, mirrorStatus, pcoStatus);
    found := CompareMeta(mirror, pco, found, mirrorStatus, pcoStatus);
    found := CompareShared(mirror, pco, found, mirrorStatus, pcoStatus);
    ghost var done := (d: Difference) => !d.ResourceMissing?;
    found := RollCall(mirror, pco, Pco, found, mirrorStatus, pcoStatus, done);
    ghost var done' := (d: Difference) => done(d) || (d.ResourceMissing? && d.returnedBy == Pco);
    found := RollCall(mirror, pco, Mirror, found, mirrorStatus, pcoStatus, done');
  }

  /** What a match says, read off the two documents alone. A record the mirror has
      tombstoned answers 410 where Planning Center answers 404. */
  ghost predicate Agree(mirror: Body, pco: Body, ms: int, ps: int) {
    var mine, theirs := Index(mirror), Index(pco);
    && (ms == ps || (ms == 410 && ps == 404))
    && DataIds(mirror) == DataIds(pco)
    && (forall k :: k in pco.meta && k !in ["mirror", "can_search_by", "can_filter", "parent", "next", "prev"] ==> k in mirror.meta)
    && (forall k :: k in {"total_count", "count"} && k in pco.meta && k in mirror.meta ==> mirror.meta[k] == pco.meta[k])
    && (forall k :: k in mine && k in theirs ==>
          && mine[k].attributes == theirs[k].attributes
          && forall name :: name in theirs[k].relationships && theirs[k].relationships[name].Some? ==>
               name in mine[k].relationships && mine[k].relationships[name] == theirs[k].relationships[name])
    && (forall k :: k in mine && k !in theirs ==> pco.more && exists d :: d in mirror.data && d.key == k)
    && (forall k :: k in theirs && k !in mine ==> mirror.more && exists d :: d in pco.data && d.key == k)
  }

  /** A comparison is silent exactly when the documents agree: the ceiling never
      turns a disagreement into a match, and a page edge never hides a difference
      between what both sides did return. */
  lemma SilentMeansAgreement(found: seq<Difference>, mirror: Body, pco: Body, ms: int, ps: int)
    requires Reports(found, mirror, pco, ms, ps, (d: Difference) => true)
    ensures found == [] <==> Agree(mirror, pco, ms, ps)
  {
    if found == [] {
      SilenceIsAgreement(mirror, pco, ms, ps);
    } else {
      assert Differs(found[0], mirror, pco, ms, ps);
      NothingOnly(DataIds(pco), DataIds(pco));
    }
  }

  /** Below the ceiling a report that is about presence alone -- about which records are there,
      in what order and how many -- says that the statuses agree and that every record both
      sides returned is the same on both, and the other way round. */
  lemma PresenceAloneMeansTheRestAgrees(found: seq<Difference>, mirror: Body, pco: Body, ms: int, ps: int)
    requires Reports(found, mirror, pco, ms, ps, (d: Difference) => true) && |found| < 40
    ensures (forall d :: d in found ==> AboutPresence(d)) <==>
            && (ms == ps || (ms == 410 && ps == 404))
            && forall k :: k in Index(mirror) && k in Index(pco) ==> AlikeOnBoth(Index(mirror)[k], Index(pco)[k])
  {
    var mine, theirs := Index(mirror), Index(pco);
    if forall d :: d in found ==> AboutPresence(d) {
      assert !Differs(StatusDiffers(ms, ps), mirror, pco, ms, ps);
      forall k | k in mine && k in theirs ensures AlikeOnBoth(mine[k], theirs[k]) {
        forall name ensures !AttributeDisagrees(mine[k], theirs[k], name) && !RelationshipDisagrees(mine[k], theirs[k], name) {
          assert !Differs(AttributeDiffers(k, name), mirror, pco, ms, ps);
          assert !Differs(RelationshipDiffers(k, name), mirror, pco, ms, ps);
        }
        AlikeInside(mine[k], theirs[k]);
      }
    } else {
      var d :| d in found && !AboutPresence(d);
      assert Differs(d, mirror, pco, ms, ps);
      hide Index;
    }
  }

  /** A difference about which records are there, rather than about what one says. */
  predicate AboutPresence(d: Difference) {
    !(d.StatusDiffers? || d.AttributeDiffers? || d.RelationshipDiffers?)
  }

  /** The same attributes, and no relationship lost. */
  ghost predicate AlikeOnBoth(mine: Doc, theirs: Doc) {
    && mine.attributes == theirs.attributes
    && forall name :: name in theirs.relationships && theirs.relationships[name].Some? ==>
         name in mine.relationships && mine.relationships[name] == theirs.relationships[name]
  }

  lemma AlikeInside(mine: Doc, theirs: Doc)
    requires forall name :: !AttributeDisagrees(mine, theirs, name) && !RelationshipDisagrees(mine, theirs, name)
    ensures mine.attributes == theirs.attributes
    ensures forall name :: name in theirs.relationships && theirs.relationships[name].Some? ==>
              Related(mine, name) == Related(theirs, name)
  {
    forall name ensures name in mine.attributes <==> name in theirs.attributes {
      assert !AttributeDisagrees(mine, theirs, name);
    }
    forall name | name in mine.attributes ensures mine.attributes[name] == theirs.attributes[name] {
      assert !AttributeDisagrees(mine, theirs, name);
    }
    forall name | name in theirs.relationships && theirs.relationships[name].Some?
      ensures Related(mine, name) == Related(theirs, name)
    {
      assert !RelationshipDisagrees(mine, theirs, name);
    }
  }

  lemma SilenceIsAgreement(mirror: Body, pco: Body, ms: int, ps: int)
    requires forall d :: !Differs(d, mirror, pco, ms, ps)
    ensures Agree(mirror, pco, ms, ps)
  {
    var mine, theirs := Index(mirror), Index(pco);
    assert !Differs(StatusDiffers(ms, ps), mirror, pco, ms, ps);
    forall k | k in pco.meta ensures (!Ignored(k) ==> k in mirror.meta)
                                     && (k in {"total_count", "count"} && k in mirror.meta ==> mirror.meta[k] == pco.meta[k])
    {
      assert !Differs(MetaOmitted(k), mirror, pco, ms, ps);
      assert !Differs(CountDiffers(k), mirror, pco, ms, ps);
    }
    forall k | k in mine && k in theirs
      ensures mine[k].attributes == theirs[k].attributes
      ensures forall name :: name in theirs[k].relationships && theirs[k].relationships[name].Some? ==>
                Related(mine[k], name) == Related(theirs[k], name)
    {
      forall name ensures !AttributeDisagrees(mine[k], theirs[k], name) && !RelationshipDisagrees(mine[k], theirs[k], name) {
        assert !Differs(AttributeDiffers(k, name), mirror, pco, ms, ps);
        assert !Differs(RelationshipDiffers(k, name), mirror, pco, ms, ps);
      }
      AlikeInside(mine[k], theirs[k]);
    }
    forall k | k in mine && k !in theirs ensures Windowed(mirror, pco, Mirror, k) {
      assert !Differs(ResourceMissing(k, Mirror, k in DataKeys(mirror)), mirror, pco, ms, ps);
    }
    forall k | k in theirs && k !in mine ensures Windowed(mirror, pco, Pco, k) {
      assert !Differs(ResourceMissing(k, Pco, k in DataKeys(pco)), mirror, pco, ms, ps);
    }
    var m, p := DataIds(mirror), DataIds(pco);
    var said := OneSideOnly(SaidOnly(m, p, pco.more), SaidOnly(p, m, mirror.more));
    var past := PastTheEdge(if pco.more then |Only(m, p)| else 0, if mirror.more then |Only(p, m)| else 0);
    assert !Differs(SameRecordsOtherOrder, mirror, pco, ms, ps);
    assert !Differs(said, mirror, pco, ms, ps);
    assert !Differs(past, mirror, pco, ms, ps);
  }

  // ----- the page window ------------------------------------------------------------

  /** `b` is the page of `full` that starts at `off` and holds up to `per` records. */
  ghost predicate Serves(b: Body, full: seq<Doc>, off: nat, per: nat) {
    && off <= |full|
    && b.data == full[off..if off + per <= |full| then off + per else |full|]
    && b.more == (off + per < |full|)
  }

  predicate Holds(full: seq<Doc>, key: RecordKey) {
    exists i :: 0 <= i < |full| && full[i].key == key
  }

  lemma IndexHoldsData(b: Body, key: RecordKey)
    ensures key in DataKeys(b) ==> key in Index(b)
  {
    if key in DataKeys(b) {
      DataIndexKeys(b.data, key);
      SideloadsAdd(DataIndex(b.data), b.included, key);
    }
  }

  lemma DataIndexKeys(data: seq<Doc>, key: RecordKey)
    ensures key in DataIndex(data) <==> exists d :: d in data && d.key == key
  {
    if data != [] {
      assert data == data[..|data| - 1] + [data[|data| - 1]];
      DataIndexKeys(data[..|data| - 1], key);
    }
  }

  lemma SideloadsAdd(held: map<RecordKey, Doc>, included: seq<Doc>, key: RecordKey)
    requires key in held
    ensures key in WithSideloads(held, included)
  {
  }

  /** From the first page on, a record named as missing from `data` is missing: it
      is nowhere in the other side's full result, however many pages that has. */
  lemma FirstPageAccusationsHold(mirror: Body, pco: Body, ms: int, ps: int, mine: seq<Doc>, theirs: seq<Doc>, per: nat, d: Difference)
    requires Serves(mirror, mine, 0, per) && Serves(pco, theirs, 0, per)
    requires Differs(d, mirror, pco, ms, ps)
    ensures d.ResourceMissing? && d.inData ==> !Holds(if d.returnedBy.Mirror? then theirs else mine, d.key)
    ensures d.OneSideOnly? ==> forall x :: x in d.onlyMirror ==> !exists t :: t in theirs && t.key.id == x
    ensures d.OneSideOnly? ==> forall x :: x in d.onlyPco ==> !exists m :: m in mine && m.key.id == x
  {
    if d.ResourceMissing? && d.inData {
      var other, full := (if d.returnedBy.Mirror? then pco else mirror), (if d.returnedBy.Mirror? then theirs else mine);
      assert !other.more && other.data == full;
      IndexHoldsData(other, d.key);
      assert forall i :: 0 <= i < |full| ==> full[i].key in DataKeys(other);
    } else if d.OneSideOnly? {
      OnlyIdsAreAbsent(mirror, pco, d.onlyMirror, theirs);
      OnlyIdsAreAbsent(pco, mirror, d.onlyPco, mine);
    }
  }

  lemma OnlyIdsAreAbsent(b: Body, other: Body, said: seq<Id>, full: seq<Doc>)
    requires said == SaidOnly(DataIds(b), DataIds(other), other.more)
    requires !other.more ==> other.data == full
    ensures forall x :: x in said ==> !exists t :: t in full && t.key.id == x
  {
    forall x, t | x in said && t in full ensures t.key.id != x {
      NothingOnlyHere(DataIds(b), DataIds(other), x);
      var i :| 0 <= i < |full| && full[i] == t;
      assert DataIds(other)[i] == t.key.id;
    }
  }

  ghost predicate Ordered(full: seq<Doc>, rank: RecordKey -> int) {
    forall i, j :: 0 <= i < j < |full| ==> rank(full[i].key) < rank(full[j].key)
  }

  /** Dropping records from an ordered result only moves the others forward. */
  lemma {:induction false} SubsetPositions(mine: seq<Doc>, theirs: seq<Doc>, rank: RecordKey -> int, i: nat) returns (j: nat)
    requires Ordered(mine, rank) && Ordered(theirs, rank)
    requires forall d :: d in mine ==> Holds(theirs, d.key)
    requires i < |mine|
    ensures i <= j < |theirs| && theirs[j].key == mine[i].key
  {
    assert mine[i] in mine;
    j :| 0 <= j < |theirs| && theirs[j].key == mine[i].key;
    if i > 0 {
      var j' := SubsetPositions(mine, theirs, rank, i - 1);
      assert rank(theirs[j'].key) < rank(theirs[j].key);
      assert j' < j;
    }
  }

  /** A page that ends the theirs holds every record the mirror's page shows. */
  lemma TheLastPageHoldsThem(mirror: Body, pco: Body, mine: seq<Doc>, theirs: seq<Doc>,
                             rank: RecordKey -> int, off: nat, per: nat, m: Doc)
    requires Serves(mirror, mine, off, per) && Serves(pco, theirs, off, per) && !pco.more
    requires Ordered(mine, rank) && Ordered(theirs, rank)
    requires forall d :: d in mine ==> Holds(theirs, d.key)
    requires m in mirror.data
    ensures m.key in DataKeys(pco) && m.key.id in DataIds(pco)
  {
    var i :| 0 <= i < |mirror.data| && mirror.data[i] == m;
    var j := SubsetPositions(mine, theirs, rank, off + i);
    assert pco.data[j - off].key == m.key;
    assert DataIds(pco)[j - off] == m.key.id;
  }

  /** If the mirror only ever misses records -- its result is a subset of Planning
      Center's, in the same order -- then on every page, not just the first, it is
      never accused of returning one that Planning Center did not. */
  lemma ASubsetIsNeverAccused(mirror: Body, pco: Body, ms: int, ps: int, mine: seq<Doc>, theirs: seq<Doc>,
                              rank: RecordKey -> int, off: nat, per: nat, d: Difference)
    requires Serves(mirror, mine, off, per) && Serves(pco, theirs, off, per)
    requires Ordered(mine, rank) && Ordered(theirs, rank)
    requires forall m :: m in mine ==> Holds(theirs, m.key)
    requires Differs(d, mirror, pco, ms, ps)
    ensures !(d.ResourceMissing? && d.returnedBy.Mirror? && d.inData)
    ensures d.OneSideOnly? ==> d.onlyMirror == []
  {
    hide Serves, Holds, Ordered;
    if !pco.more {
      forall m | m in mirror.data ensures m.key in DataKeys(pco) && m.key.id in DataIds(pco) {
        TheLastPageHoldsThem(mirror, pco, mine, theirs, rank, off, per, m);
      }
      if d.ResourceMissing? && d.returnedBy.Mirror? && d.inData {
        IndexHoldsData(pco, d.key);
      }
      forall x | x in DataIds(mirror) ensures x in DataIds(pco) {
        var i :| 0 <= i < |DataIds(mirror)| && DataIds(mirror)[i] == x;
        assert mirror.data[i] in mirror.data;
      }
      NothingOnly(DataIds(mirror), DataIds(pco));
    }
  }

  lemma WhatTheRestLacks(page: Body, other: seq<Doc>, off: nat, key: RecordKey)
    requires off <= |other| && page.data == other[off..] && key !in Index(page)
    ensures !Holds(other, key) <==> !Holds(other[..off], key)
  {
    IndexHoldsData(page, key);
    forall i | off <= i < |other| ensures other[i].key != key {
      assert page.data[i - off].key in DataKeys(page);
    }
    if i :| 0 <= i < |other| && other[i].key == key {
      assert other[..off][i].key == key;
    }
  }

  /** Past the first page an accusation is right exactly when the other side does not
      return that record on an earlier page. */
  lemma AnAccusationIsRightUnlessEarlier(mirror: Body, pco: Body, ms: int, ps: int, mine: seq<Doc>, theirs: seq<Doc>,
                                         off: nat, per: nat, d: Difference)
    requires Serves(mirror, mine, off, per) && Serves(pco, theirs, off, per)
    requires Differs(d, mirror, pco, ms, ps) && d.ResourceMissing? && d.inData
    ensures var other := if d.returnedBy.Mirror? then theirs else mine;
            !Holds(other, d.key) <==> !Holds(other[..off], d.key)
  {
    hide Holds, Index;
    var page, other := (if d.returnedBy.Mirror? then pco else mirror), (if d.returnedBy.Mirror? then theirs else mine);
    WhatTheRestLacks(page, other, off, d.key);
  }

  /** One comparison of two results, each cut to its page at this offset: what it names
      as missing from the other side is nowhere in the other side's full result. */
  ghost predicate AccusesRightly(mirror: Body, pco: Body, ms: int, ps: int, mine: seq<Doc>, theirs: seq<Doc>,
                                 off: nat, per: nat, d: Difference) {
    Serves(mirror, mine, off, per) && Serves(pco, theirs, off, per) && Differs(d, mirror, pco, ms, ps)
    && d.ResourceMissing? && d.inData ==>
      !Holds(if d.returnedBy.Mirror? then theirs else mine, d.key)
  }

  /** At every offset but the first there are results for which it accuses wrongly: let
      the mirror lack the first record, so that all others stand one place earlier. */
  lemma LaterPagesMisplaceRecords(off: nat, per: nat) returns (mirror: Body, pco: Body, mine: seq<Doc>, theirs: seq<Doc>, d: Difference)
    requires off > 0 && per > 0
    ensures !AccusesRightly(mirror, pco, 200, 200, mine, theirs, off, per, d)
    ensures mine == theirs[1..] && forall i, j :: 0 <= i < j < |theirs| ==> theirs[i].key != theirs[j].key
  {
    theirs := seq(off + 1, i requires 0 <= i <= off => Doc(RecordKey(Mirrored(Person), i), map[], map[]));
    mine := theirs[1..];
    var b := theirs[off];
    mirror, pco := Body([], [], map[], false), Body([b], [], map[], false);
    assert mirror.data == mine[off..off] && pco.data == theirs[off..off + 1];
    assert DataIndex(pco.data) == map[b.key := b] by { assert pco.data[..0] == []; }
    d := ResourceMissing(b.key, Pco, true);
    assert b in pco.data && mine[off - 1].key == b.key;
    assert Differs(d, mirror, pco, 200, 200);
  }

  /** So reading an absence off two pages is sound, for all results, exactly when they
      are first pages. */
  lemma OnlyFirstPagesAreSound(off: nat, per: nat)
    requires per > 0
    ensures (forall mirror, pco, ms, ps, mine, theirs, d :: AccusesRightly(mirror, pco, ms, ps, mine, theirs, off, per, d)) <==> off == 0
  {
    if off == 0 {
      forall mirror, pco, ms, ps, mine, theirs, d ensures AccusesRightly(mirror, pco, ms, ps, mine, theirs, off, per, d) {
        if Serves(mirror, mine, 0, per) && Serves(pco, theirs, 0, per) && Differs(d, mirror, pco, ms, ps) {
          FirstPageAccusationsHold(mirror, pco, ms, ps, mine, theirs, per, d);
        }
      }
    } else {
      var mirror, pco, mine, theirs, d := LaterPagesMisplaceRecords(off, per);
    }
  }
}
