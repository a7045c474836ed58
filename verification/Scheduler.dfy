/**
 * The cold lane (pcomirror/scheduler.py, `run_cold_once`): one bounded unit of bulk work
 * per tick, backfills first, then audits and walks off one rotating ring, with a
 * backoff after a failure.
 */
module Scheduler {
  import opened Types

  const COLD_RETRY_S: real := 300.0

  /** `_cold_ring_last` and `_cold_retry_at`. */
  datatype Lane = Lane(last: Option<string>, retryAt: map<string, real>)

  /** What one tick finds: the backfills still owed, the ring of due audits and walks,
      the clock before and after the unit, and how the unit went. */
  datatype Tick = Tick(pending: seq<string>, ring: seq<string>, now: real, after: real, ok: bool)

  predicate Ready(lane: Lane, key: string, now: real) {
    key in lane.retryAt ==> now >= lane.retryAt[key]
  }

  function IndexOf(ring: seq<string>, key: string): (i: nat)
    requires key in ring
    ensures i < |ring| && ring[i] == key && key !in ring[..i]
  {
    if ring[0] == key then 0 else 1 + IndexOf(ring[1..], key)
  }

  /** The ring, starting just past the unit that ran last. */
  function Rotated(ring: seq<string>, last: Option<string>): seq<string> {
    if last.Some? && last.value in ring
    then var i := IndexOf(ring, last.value) + 1; ring[i..] + ring[..i]
    else ring
  }

  /** The first of these keys that is ready. */
  function FirstReady(lane: Lane, keys: seq<string>, now: real): Option<string> {
    if keys == [] then None
    else if Ready(lane, keys[0], now) then Some(keys[0])
    else FirstReady(lane, keys[1..], now)
  }

  function Ran(lane: Lane, t: Tick): Option<string> {
    var backfill := FirstReady(lane, t.pending, t.now);
    if backfill.Some? then backfill else FirstReady(lane, Rotated(t.ring, lane.last), t.now)
  }

  function Outcome(lane: Lane, key: string, ok: bool, after: real): Lane {
    lane.(retryAt := if ok then lane.retryAt - {key} else lane.retryAt[key := after + COLD_RETRY_S])
  }

  function Step(lane: Lane, t: Tick): Lane {
    var key := Ran(lane, t);
    if key.None? then lane
    else
      var next := Outcome(lane, key.value, t.ok, t.after);
      if FirstReady(lane, t.pending, t.now).Some? then next else next.(last := key)
  }

  function Lanes(lane: Lane, ticks: seq<Tick>, i: nat): Lane
    requires i <= |ticks|
  {
    if i == 0 then lane else Step(Lanes(lane, ticks, i - 1), ticks[i - 1])
  }

  function RanAt(lane: Lane, ticks: seq<Tick>, i: nat): Option<string>
    requires i < |ticks|
  {
    Ran(Lanes(lane, ticks, i), ticks[i])
  }

  class ColdLane {
    var ringLast: Option<string>
    var retryAt: map<string, real>

    constructor ()
      ensures State() == Lane(None, map[])
    {
      ringLast, retryAt := None, map[];
    }

    ghost function State(): Lane
      reads this
    {
      Lane(ringLast, retryAt)
    }

    method RunColdOnce(t: Tick) returns (ran: Option<string>)
      modifies this
      ensures State() == Step(old(State()), t)
      ensures ran == Ran(old(State()), t)
    {
      ghost var lane := State();
      for i := 0 to |t.pending|
        invariant State() == lane
        invariant FirstReady(lane, t.pending, t.now) == FirstReady(lane, t.pending[i..], t.now)
      {
        var key := t.pending[i];
        if ColdReady(key, t.now) {
          ColdOutcome(key, t.ok, t.after);
          return Some(key);
        }
      }
      var ring := if ringLast.Some? && ringLast.value in t.ring then RotateBy(t.ring, ringLast.value) else t.ring;
      for i := 0 to |ring|
        invariant State() == lane
        invariant FirstReady(lane, ring, t.now) == FirstReady(lane, ring[i..], t.now)
      {
        var key := ring[i];
        if ColdReady(key, t.now) {
          ColdOutcome(key, t.ok, t.after);
          ringLast := Some(key);
          return Some(key);
        }
      }
      return None;
    }

    static function RotateBy(ring: seq<string>, key: string): seq<string>
      requires key in ring
    {
      var i := IndexOf(ring, key) + 1;
      ring[i..] + ring[..i]
    }

    predicate ColdReady(key: string, now: real)
      reads this
    {
      now >= (if key in retryAt then retryAt[key] else now)
    }

    method ColdOutcome(key: string, ok: bool, after: real)
      modifies `retryAt
      ensures State() == Outcome(old(State()), key, ok, after)
    {
      if ok {
        retryAt := retryAt - {key};
      } else {
        retryAt := retryAt[key := after + COLD_RETRY_S];
      }
    }
  }

  // ----- fairness ---------------------------------------------------------------------

  ghost predicate Distinct(ring: seq<string>) {
    forall i, j :: 0 <= i < j < |ring| ==> ring[i] != ring[j]
  }

  /** Nothing to backfill, and always the same ring of due units. */
  ghost predicate UnchangingRing(ticks: seq<Tick>, ring: seq<string>) {
    forall t :: t in ticks ==> t.pending == [] && t.ring == ring
  }

  lemma RotationKeepsTheRing(ring: seq<string>, last: Option<string>)
    requires Distinct(ring)
    ensures var r := Rotated(ring, last);
            && |r| == |ring| && Distinct(r)
            && forall k :: k in r <==> k in ring
  {
    if last.Some? && last.value in ring {
      var i := IndexOf(ring, last.value) + 1;
      assert ring == ring[..i] + ring[i..];
    }
  }

  /** Running the `j`-th unit of the revolution starts the next one just past it. */
  lemma NextRevolution(ring: seq<string>, last: Option<string>, j: nat)
    requires Distinct(ring) && j < |ring|
    ensures |Rotated(ring, last)| == |ring|
    ensures var r := Rotated(ring, last); Rotated(ring, Some(r[j])) == r[j + 1..] + r[..j + 1]
  {
    RotationKeepsTheRing(ring, last);
    var r, n := Rotated(ring, last), |ring|;
    var i := if last.Some? && last.value in ring then IndexOf(ring, last.value) + 1 else 0;
    assert r == ring[i..] + ring[..i];
    var at := RotationsCompose(ring, i, j);
    assert r[j] in ring && IndexOf(ring, r[j]) == at;
  }

  lemma RotationsCompose<T>(s: seq<T>, i: nat, j: nat) returns (at: nat)
    requires i <= |s| && j < |s|
    ensures var r := s[i..] + s[..i];
            at < |s| && s[at] == r[j] && s[at + 1..] + s[..at + 1] == r[j + 1..] + r[..j + 1]
  {
    var r := s[i..] + s[..i];
    if i + j < |s| {
      at := i + j;
      assert r[j + 1..] == s[at + 1..] + s[..i];
      assert r[..j + 1] == s[i..at + 1];
      assert s[..at + 1] == s[..i] + s[i..at + 1];
    } else {
      at := i + j - |s|;
      assert r[j + 1..] == s[at + 1..i];
      assert r[..j + 1] == s[i..] + s[..at + 1];
      assert s[at + 1..] == s[at + 1..i] + s[i..];
    }
  }

  lemma FirstReadyIsNoLater(lane: Lane, keys: seq<string>, now: real, unit: nat) returns (j: nat)
    requires unit < |keys| && Ready(lane, keys[unit], now)
    ensures j <= unit && FirstReady(lane, keys, now) == Some(keys[j])
    ensures forall k :: 0 <= k < j ==> !Ready(lane, keys[k], now)
  {
    if Ready(lane, keys[0], now) {
      j := 0;
    } else {
      var j' := FirstReadyIsNoLater(lane, keys[1..], now, unit - 1);
      j := j' + 1;
    }
  }

  // Rings change from tick to tick: an audit leaves its ring in the tick that completes
  // it. What does not change is the order in which resources are declared.

  function Place(units: seq<string>, key: string): int {
    if key in units then IndexOf(units, key) else -1
  }

  /** The ring is made of some of these units, in their order. */
  ghost predicate Within(ring: seq<string>, units: seq<string>) {
    && (forall i :: 0 <= i < |ring| ==> ring[i] in units)
    && (forall i, j :: 0 <= i < j < |ring| ==> Place(units, ring[i]) < Place(units, ring[j]))
  }

  /** How many places it is from place `from` to place `to` of `n`, going round. */
  function Ahead(n: nat, from: int, to: int): int {
    if to > from then to - from else to - from + n
  }

  /** The place a revolution starts behind: in front of all if the last unit dropped out. */
  function StartOf(units: seq<string>, ring: seq<string>, last: Option<string>): int {
    if last.Some? && last.value in ring then Place(units, last.value) else -1
  }

  function Wait(units: seq<string>, ring: seq<string>, last: Option<string>, unit: string): int {
    Ahead(|units|, StartOf(units, ring, last), Place(units, unit))
  }

  /** How many units of the ring stand before the start of the revolution. */
  function Passed(ring: seq<string>, last: Option<string>): (k: nat)
    ensures k <= |ring| && Rotated(ring, last) == ring[k..] + ring[..k]
  {
    if last.Some? && last.value in ring then IndexOf(ring, last.value) + 1 else 0
  }

  function Behind(units: seq<string>, ring: seq<string>, k: nat): int
    requires k <= |ring|
  {
    if k == 0 then -1 else Place(units, ring[k - 1])
  }

  lemma PlacesGoRound(units: seq<string>, ring: seq<string>, k: nat, x: nat, y: nat)
    requires Within(ring, units) && k <= |ring| && x < |ring| && y < |ring|
    requires if x >= k then y > x || y < k else x < y < k
    ensures Ahead(|units|, Behind(units, ring, k), Place(units, ring[x])) < Ahead(|units|, Behind(units, ring, k), Place(units, ring[y]))
  {
    Ordered(units, ring, x, y);
    if k > 0 {
      Ordered(units, ring, x, k - 1);
      Ordered(units, ring, y, k - 1);
    }
  }

  lemma Ordered(units: seq<string>, ring: seq<string>, x: nat, y: nat)
    requires Within(ring, units) && x < |ring| && y < |ring|
    ensures 0 <= Place(units, ring[x]) < |units| && 0 <= Place(units, ring[y]) < |units|
    ensures x < y <==> Place(units, ring[x]) < Place(units, ring[y])
    ensures y < x <==> Place(units, ring[y]) < Place(units, ring[x])
  {
  }

  lemma RotatedInOrder(units: seq<string>, ring: seq<string>, last: Option<string>, i: nat, j: nat)
    requires Within(ring, units) && i < j < |ring|
    ensures |Rotated(ring, last)| == |ring|
    ensures Wait(units, ring, last, Rotated(ring, last)[i]) < Wait(units, ring, last, Rotated(ring, last)[j])
  {
    var k := Passed(ring, last);
    assert Behind(units, ring, k) == StartOf(units, ring, last);
    hide Place, Within, Passed, Rotated, StartOf, Behind, Ahead;
    PlacesGoRound(units, ring, k, if i < |ring| - k then k + i else i - (|ring| - k),
                                  if j < |ring| - k then k + j else j - (|ring| - k));
  }

  lemma RotationFollowsThePlaces(units: seq<string>, ring: seq<string>, last: Option<string>)
    requires Within(ring, units)
    ensures var r := Rotated(ring, last);
            && |r| == |ring| && (forall k :: k in r <==> k in ring)
            && forall i, j :: 0 <= i < j < |r| ==> Wait(units, ring, last, r[i]) < Wait(units, ring, last, r[j])
  {
    var r := Rotated(ring, last);
    if last.Some? && last.value in ring {
      var k := IndexOf(ring, last.value) + 1;
      assert ring == ring[..k] + ring[k..];
    }
    hide Wait, Rotated, Within;
    forall i, j | 0 <= i < j < |r| ensures Wait(units, ring, last, r[i]) < Wait(units, ring, last, r[j]) {
      RotatedInOrder(units, ring, last, i, j);
    }
  }

  /** A unit that is due and ready but not run is nearer to its turn afterwards, by at
      least one of the places there are. */
  lemma ATickBringsAReadyUnitNearer(lane: Lane, t: Tick, units: seq<string>, unit: string)
    requires Within(t.ring, units) && unit in t.ring && t.pending == [] && Ready(lane, unit, t.now)
    requires Ran(lane, t) != Some(unit)
    ensures var ran := Step(lane, t).last;
            && ran.Some? && ran.value in t.ring
            && 1 <= Ahead(|units|, Place(units, ran.value), Place(units, unit)) < Wait(units, t.ring, lane.last, unit) <= |units|
  {
    RotationFollowsThePlaces(units, t.ring, lane.last);
    var r := Rotated(t.ring, lane.last);
    var at := IndexOf(r, unit);
    var j := FirstReadyIsNoLater(lane, r, t.now, at);
    assert Wait(units, t.ring, lane.last, r[j]) < Wait(units, t.ring, lane.last, unit);
    assert r[j] in t.ring;
  }

  ghost predicate StaysReady(lane: Lane, ticks: seq<Tick>, unit: string) {
    forall i :: 0 <= i < |ticks| ==> Ready(Lanes(lane, ticks, i), unit, ticks[i].now)
  }

  lemma AtTick(lane: Lane, ticks: seq<Tick>, ring: seq<string>, unit: string, i: nat)
    requires UnchangingRing(ticks, ring) && StaysReady(lane, ticks, unit) && i < |ticks|
    ensures ticks[i].pending == [] && ticks[i].ring == ring
    ensures Ready(Lanes(lane, ticks, i), unit, ticks[i].now)
    ensures Lanes(lane, ticks, i + 1) == Step(Lanes(lane, ticks, i), ticks[i])
  {
    hide Step, Ready;
    assert ticks[i] in ticks;
  }

  /** An empty backfill list and a ready unit in front: that unit runs and is remembered. */
  lemma TheFrontRuns(lane: Lane, t: Tick, ring: seq<string>)
    requires t.pending == [] && t.ring == ring && |Rotated(ring, lane.last)| > 0
    requires Ready(lane, Rotated(ring, lane.last)[0], t.now)
    ensures Ran(lane, t) == Some(Rotated(ring, lane.last)[0]) && Step(lane, t).last == Ran(lane, t)
  {
    hide Rotated;
  }

  /** Every tick's ring is some of these units in their order, with this one among them,
      and there is nothing to backfill. */
  ghost predicate AlwaysDue(ticks: seq<Tick>, units: seq<string>, unit: string) {
    forall i :: 0 <= i < |ticks| ==> ticks[i].pending == [] && Within(ticks[i].ring, units) && unit in ticks[i].ring
  }

  /** The unit that ran last is no longer in the ring, so the revolution restarts. */
  predicate DroppedOut(lane: Lane, t: Tick) {
    lane.last.Some? && lane.last.value !in t.ring
  }

  /** How often that happened after the first of these ticks. */
  function Restarts(lane: Lane, ticks: seq<Tick>, i: nat): nat
    requires i <= |ticks|
  {
    if i <= 1 then 0
    else Restarts(lane, ticks, i - 1) + if DroppedOut(Lanes(lane, ticks, i - 1), ticks[i - 1]) then 1 else 0
  }

  lemma DueAt(lane: Lane, ticks: seq<Tick>, units: seq<string>, unit: string, i: nat)
    requires AlwaysDue(ticks, units, unit) && StaysReady(lane, ticks, unit) && i < |ticks|
    ensures ticks[i].pending == [] && Within(ticks[i].ring, units) && unit in ticks[i].ring
    ensures Ready(Lanes(lane, ticks, i), unit, ticks[i].now)
    ensures Lanes(lane, ticks, i + 1) == Step(Lanes(lane, ticks, i), ticks[i])
  {
    hide Step, Ready, Within;
  }

  /** Waiting ticks and places still to go never exceed a revolution for every restart. */
  lemma {:induction false} WaitsAtMostItsTurns(lane: Lane, ticks: seq<Tick>, units: seq<string>, unit: string, i: nat)
    requires AlwaysDue(ticks, units, unit) && StaysReady(lane, ticks, unit)
    requires i < |ticks| && forall k :: 0 <= k <= i ==> RanAt(lane, ticks, k) != Some(unit)
    ensures i + Wait(units, ticks[i].ring, Lanes(lane, ticks, i).last, unit) <= |units| * (1 + Restarts(lane, ticks, i + 1))
    ensures Wait(units, ticks[i].ring, Lanes(lane, ticks, i).last, unit) >= 2
  {
    hide Step, Ran, Ready, AlwaysDue, StaysReady, Within, Rotated, Lanes;
    var here := Lanes(lane, ticks, i);
    DueAt(lane, ticks, units, unit, i);
    assert RanAt(lane, ticks, i) != Some(unit);
    ATickBringsAReadyUnitNearer(here, ticks[i], units, unit);
    if i > 0 {
      WaitsAtMostItsTurns(lane, ticks, units, unit, i - 1);
      DueAt(lane, ticks, units, unit, i - 1);
      assert RanAt(lane, ticks, i - 1) != Some(unit);
      ATickBringsAReadyUnitNearer(Lanes(lane, ticks, i - 1), ticks[i - 1], units, unit);
      OneRevolutionMore(|units|, Restarts(lane, ticks, i));
    }
  }

  lemma OneRevolutionMore(n: nat, restarts: nat)
    ensures n * (1 + (restarts + 1)) == n * (1 + restarts) + n
  {
  }

  /** However the rings change: of `n` units, one that stays due and ready runs within
      `n` ticks, and for every time the last-run unit dropped out within `n` more. */
  lemma EveryReadyUnitRunsBetweenRestarts(lane: Lane, ticks: seq<Tick>, units: seq<string>, unit: string, n: nat)
    requires AlwaysDue(ticks, units, unit) && StaysReady(lane, ticks, unit)
    requires 0 < n <= |ticks| && n >= |units| * (1 + Restarts(lane, ticks, n))
    ensures exists i :: 0 <= i < n && RanAt(lane, ticks, i) == Some(unit)
  {
    hide AlwaysDue, StaysReady, Lanes, Within, Wait, Restarts, RanAt;
    if forall k :: 0 <= k < n ==> RanAt(lane, ticks, k) != Some(unit) {
      WaitsAtMostItsTurns(lane, ticks, units, unit, n - 1);
    }
  }

  /** As long as the last-run unit is still in the ring, that is a single revolution. */
  lemma NoRestartIsOneRevolution(lane: Lane, ticks: seq<Tick>, units: seq<string>, unit: string)
    requires AlwaysDue(ticks, units, unit) && StaysReady(lane, ticks, unit) && |ticks| >= |units| > 0
    requires forall i :: 0 < i < |units| ==> !DroppedOut(Lanes(lane, ticks, i), ticks[i])
    ensures exists i :: 0 <= i < |units| && RanAt(lane, ticks, i) == Some(unit)
  {
    hide AlwaysDue, StaysReady, Lanes, DroppedOut, Restarts, RanAt;
    NeverRestarts(lane, ticks, |units|);
    EveryReadyUnitRunsBetweenRestarts(lane, ticks, units, unit, |units|);
  }

  lemma {:induction false} NeverRestarts(lane: Lane, ticks: seq<Tick>, i: nat)
    requires i <= |ticks| && forall j :: 0 < j < i ==> !DroppedOut(Lanes(lane, ticks, j), ticks[j])
    ensures Restarts(lane, ticks, i) == 0
  {
    hide Lanes, DroppedOut;
    if i > 1 {
      NeverRestarts(lane, ticks, i - 1);
    }
  }

  /** Over an unchanging ring of `n` units, one that stays ready runs within any `n`
      consecutive ticks, wherever the rotation stands and whatever the others do. */
  lemma EveryReadyUnitRuns(lane: Lane, ticks: seq<Tick>, ring: seq<string>, unit: string)
    requires Distinct(ring) && unit in ring && UnchangingRing(ticks, ring) && StaysReady(lane, ticks, unit)
    requires |ticks| >= |ring|
    ensures exists i :: 0 <= i < |ring| && RanAt(lane, ticks, i) == Some(unit)
  {
    forall i | 0 <= i < |ring| ensures Place(ring, ring[i]) == i {
    }
    forall i | 0 <= i < |ticks| ensures ticks[i].pending == [] && ticks[i].ring == ring {
      assert ticks[i] in ticks;
    }
    forall i | 0 < i < |ticks| ensures !DroppedOut(Lanes(lane, ticks, i), ticks[i]) {
      RingUnitsStay(lane, ticks, ring, unit, i);
    }
    NoRestartIsOneRevolution(lane, ticks, ring, unit);
  }

  lemma RingUnitsStay(lane: Lane, ticks: seq<Tick>, ring: seq<string>, unit: string, i: nat)
    requires unit in ring && UnchangingRing(ticks, ring) && StaysReady(lane, ticks, unit) && 0 < i < |ticks|
    requires Distinct(ring)
    ensures !DroppedOut(Lanes(lane, ticks, i), ticks[i])
  {
    hide Step, Ran, Ready, StaysReady, UnchangingRing, Lanes, Rotated, Distinct;
    AtTick(lane, ticks, ring, unit, i - 1);
    AtTick(lane, ticks, ring, unit, i);
    TheLastIsOfTheRing(Lanes(lane, ticks, i - 1), ticks[i - 1], unit);
  }

  lemma TheLastIsOfTheRing(lane: Lane, t: Tick, unit: string)
    requires t.pending == [] && unit in t.ring && Ready(lane, unit, t.now) && Distinct(t.ring)
    ensures Step(lane, t).last.Some? && Step(lane, t).last.value in t.ring
  {
    RotationKeepsTheRing(t.ring, lane.last);
    var r := Rotated(t.ring, lane.last);
    var j := FirstReadyIsNoLater(lane, r, t.now, IndexOf(r, unit));
    assert r[j] in r;
  }

  /** If every unit stays ready, `n` consecutive ticks run each of them exactly once,
      in the order of the revolution. */
  lemma {:induction false} AllReadyIsOneRevolution(lane: Lane, ticks: seq<Tick>, ring: seq<string>, i: nat)
    requires Distinct(ring) && UnchangingRing(ticks, ring) && i < |ring| == |ticks|
    requires forall unit :: unit in ring ==> StaysReady(lane, ticks, unit)
    ensures |Rotated(ring, lane.last)| == |ring|
    ensures RanAt(lane, ticks, i) == Some(Rotated(ring, lane.last)[i])
  {
    hide Step, Ran, Ready, Rotated, Lanes, StaysReady, UnchangingRing, Distinct;
    var r0 := Rotated(ring, lane.last);
    RotationKeepsTheRing(ring, lane.last);
    var here := Lanes(lane, ticks, i);
    var r := Rotated(ring, here.last);
    RotationKeepsTheRing(ring, here.last);
    assert r[0] in r && StaysReady(lane, ticks, r[0]);
    AtTick(lane, ticks, ring, r[0], i);
    assert r[0] == r0[i] by {
      RevolutionSoFar(lane, ticks, ring, i);
    }
    TheFrontRuns(here, ticks[i], ring);
  }

  lemma {:induction false} RevolutionSoFar(lane: Lane, ticks: seq<Tick>, ring: seq<string>, i: nat)
    requires Distinct(ring) && UnchangingRing(ticks, ring) && i < |ring| == |ticks|
    requires forall unit :: unit in ring ==> StaysReady(lane, ticks, unit)
    ensures |Rotated(ring, lane.last)| == |ring|
    ensures Rotated(ring, Lanes(lane, ticks, i).last) == Rotated(ring, lane.last)[i..] + Rotated(ring, lane.last)[..i]
  {
    hide Step, Ran, Ready, Rotated, StaysReady, UnchangingRing, Distinct;
    var r0 := Rotated(ring, lane.last);
    RotationKeepsTheRing(ring, lane.last);
    if i > 0 {
      RevolutionSoFar(lane, ticks, ring, i - 1);
      var before := Lanes(lane, ticks, i - 1);
      var r := Rotated(ring, before.last);
      RotationKeepsTheRing(ring, before.last);
      assert r[0] in r && StaysReady(lane, ticks, r[0]);
      AtTick(lane, ticks, ring, r[0], i - 1);
      TheFrontRuns(before, ticks[i - 1], ring);
      NextRevolution(ring, before.last, 0);
      OneFurther(r0, r, i);
    }
  }

  lemma OneFurther<T>(r0: seq<T>, r: seq<T>, i: nat)
    requires 0 < i < |r0| && r == r0[i - 1..] + r0[..i - 1]
    ensures r[1..] + r[..1] == r0[i..] + r0[..i]
  {
    assert r[1..] == r0[i..] + r0[..i - 1];
    assert r[..1] == [r0[i - 1]];
    assert r0[..i] == r0[..i - 1] + [r0[i - 1]];
  }

  /** The restarts do starve. With two units taking turns at being due, each drops out in
      the tick after it ran, the revolution restarts, and the unit behind them never runs. */
  lemma {:induction false} AChurningRingStarves(n: nat)
    ensures var ticks := Churn(n);
            forall i :: 0 <= i < n ==>
              && "walk" in ticks[i].ring && Ready(Lanes(Lane(None, map[]), ticks, i), "walk", ticks[i].now)
              && RanAt(Lane(None, map[]), ticks, i) != Some("walk")
              && (i > 0 ==> DroppedOut(Lanes(Lane(None, map[]), ticks, i), ticks[i]))
  {
    var ticks := Churn(n);
    forall i | 0 <= i < n
      ensures && "walk" in ticks[i].ring && Ready(Lanes(Lane(None, map[]), ticks, i), "walk", ticks[i].now)
              && RanAt(Lane(None, map[]), ticks, i) != Some("walk")
              && (i > 0 ==> DroppedOut(Lanes(Lane(None, map[]), ticks, i), ticks[i]))
    {
      ChurnState(n, i);
    }
  }

  function ChurnTick(even: bool): Tick {
    Tick([], [if even then "auditA" else "auditB", "walk"], 0.0, 0.0, true)
  }

  function Churn(n: nat): seq<Tick> {
    seq(n, i => ChurnTick(i % 2 == 0))
  }

  /** A tick runs the front of the ring when the last unit has dropped out of it. */
  lemma ChurnStep(lane: Lane, even: bool)
    requires lane.retryAt == map[] && (lane.last == None || lane.last == Some(if even then "auditB" else "auditA"))
    ensures Ran(lane, ChurnTick(even)) == Some(if even then "auditA" else "auditB")
    ensures Step(lane, ChurnTick(even)) == Lane(Some(if even then "auditA" else "auditB"), map[])
  {
    var t := ChurnTick(even);
    assert Rotated(t.ring, lane.last) == t.ring;
  }

  lemma {:induction false} ChurnState(n: nat, i: nat)
    requires i <= n
    ensures var lane := Lanes(Lane(None, map[]), Churn(n), i);
            && lane.retryAt == map[]
            && (lane.last == None || lane.last == Some(if i % 2 == 0 then "auditB" else "auditA"))
            && (i > 0 ==> lane.last.Some?)
            && (i < n ==> Ran(lane, Churn(n)[i]) == Some(if i % 2 == 0 then "auditA" else "auditB"))
  {
    hide Step, Ran, ChurnTick;
    if i > 0 {
      ChurnState(n, i - 1);
      ChurnStep(Lanes(Lane(None, map[]), Churn(n), i - 1), (i - 1) % 2 == 0);
    }
    if i < n {
      ChurnStep(Lanes(Lane(None, map[]), Churn(n), i), i % 2 == 0);
    }
  }

  // ----- backfills --------------------------------------------------------------------

  /** A backfill that is ready goes before the ring, the first of them, and leaves the ring
      where it stood; the ring has its turn only when no backfill is ready. */
  lemma BackfillsGoFirst(lane: Lane, t: Tick, i: nat)
    requires i < |t.pending| && Ready(lane, t.pending[i], t.now)
    requires forall j :: 0 <= j < i ==> !Ready(lane, t.pending[j], t.now)
    ensures Ran(lane, t) == Some(t.pending[i]) && Step(lane, t).last == lane.last
  {
    FirstReadyIs(lane, t.pending, t.now, i);
  }

  lemma {:induction false} FirstReadyIs(lane: Lane, keys: seq<string>, now: real, i: nat)
    requires i < |keys| && Ready(lane, keys[i], now)
    requires forall j :: 0 <= j < i ==> !Ready(lane, keys[j], now)
    ensures FirstReady(lane, keys, now) == Some(keys[i])
  {
    if i > 0 {
      FirstReadyIs(lane, keys[1..], now, i - 1);
    }
  }

  // ----- backoff ----------------------------------------------------------------------

  /** The last of the first `k` ticks that ran this unit, if any did. */
  ghost predicate LastRan(lane: Lane, ticks: seq<Tick>, unit: string, i: nat, k: nat) {
    && i < k <= |ticks| && RanAt(lane, ticks, i) == Some(unit)
    && forall m :: i < m < k ==> RanAt(lane, ticks, m) != Some(unit)
  }

  lemma {:induction false} NeverRanHasNoBackoff(lane: Lane, ticks: seq<Tick>, unit: string, k: nat)
    requires k <= |ticks| && unit !in lane.retryAt && forall m :: 0 <= m < k ==> RanAt(lane, ticks, m) != Some(unit)
    ensures unit !in Lanes(lane, ticks, k).retryAt
  {
    if k > 0 {
      NeverRanHasNoBackoff(lane, ticks, unit, k - 1);
      assert RanAt(lane, ticks, k - 1) != Some(unit);
    }
  }

  lemma {:induction false} SuccessHasNoBackoff(lane: Lane, ticks: seq<Tick>, unit: string, i: nat, k: nat)
    requires LastRan(lane, ticks, unit, i, k) && ticks[i].ok
    ensures unit !in Lanes(lane, ticks, k).retryAt
  {
    if k > i + 1 {
      SuccessHasNoBackoff(lane, ticks, unit, i, k - 1);
      assert RanAt(lane, ticks, k - 1) != Some(unit);
    }
  }

  /** In any run from a fresh lane a unit is held back by its own last failure and by
      nothing else: five minutes from when that failed, and not after a success. */
  lemma OnlyItsOwnFailureHoldsItBack(ticks: seq<Tick>, unit: string, k: nat, now: real)
    requires k <= |ticks|
    ensures var lane := Lane(None, map[]);
            Ready(Lanes(lane, ticks, k), unit, now) <==>
              forall i: nat :: LastRan(lane, ticks, unit, i, k) && !ticks[i].ok ==> now >= ticks[i].after + 300.0
  {
    var lane := Lane(None, map[]);
    hide Lanes, Ran;
    if i: nat :| LastRan(lane, ticks, unit, i, k) {
      if ticks[i].ok {
        SuccessHasNoBackoff(lane, ticks, unit, i, k);
      } else {
        RetryTimeStands(lane, ticks, unit, i, k);
      }
      assert forall j: nat :: LastRan(lane, ticks, unit, j, k) ==> j == i;
    } else {
      SomeLastRun(lane, ticks, unit, k);
      NeverRanHasNoBackoff(lane, ticks, unit, k);
    }
  }

  lemma {:induction false} SomeLastRun(lane: Lane, ticks: seq<Tick>, unit: string, k: nat)
    requires k <= |ticks| && forall i: nat :: !LastRan(lane, ticks, unit, i, k)
    ensures forall m :: 0 <= m < k ==> RanAt(lane, ticks, m) != Some(unit)
  {
    hide RanAt;
    if k > 0 {
      assert RanAt(lane, ticks, k - 1) != Some(unit) by {
        assert !LastRan(lane, ticks, unit, k - 1, k);
      }
      var front := k - 1;
      forall i: nat ensures !LastRan(lane, ticks, unit, i, front) {
        assert !LastRan(lane, ticks, unit, i, k);
      }
      SomeLastRun(lane, ticks, unit, front);
    }
  }

  lemma {:induction false} RetryTimeStands(lane: Lane, ticks: seq<Tick>, unit: string, i: nat, k: nat)
    requires i < k <= |ticks| && RanAt(lane, ticks, i) == Some(unit) && !ticks[i].ok
    requires forall m :: i < m < k ==> RanAt(lane, ticks, m) != Some(unit)
    ensures var retryAt := Lanes(lane, ticks, k).retryAt;
            unit in retryAt && retryAt[unit] == ticks[i].after + COLD_RETRY_S
  {
    if k > i + 1 {
      RetryTimeStands(lane, ticks, unit, i, k - 1);
      assert RanAt(lane, ticks, k - 1) != Some(unit);
    }
  }

  /** A unit that failed is not run again before its backoff is over: in any run of the
      lane, whatever the rings and the backfills do meanwhile. */
  lemma NoRetryBeforeTheBackoff(lane: Lane, ticks: seq<Tick>, unit: string, i: nat, k: nat)
    requires i < k < |ticks| && RanAt(lane, ticks, i) == Some(unit) && !ticks[i].ok
    requires RanAt(lane, ticks, k) == Some(unit) && forall m :: i < m < k ==> RanAt(lane, ticks, m) != Some(unit)
    ensures ticks[k].now >= ticks[i].after + COLD_RETRY_S
  {
    RetryTimeStands(lane, ticks, unit, i, k);
    var there := Lanes(lane, ticks, k);
    OnlyReadyUnitsRun(there, ticks[k].pending, ticks[k].now);
    OnlyReadyUnitsRun(there, Rotated(ticks[k].ring, there.last), ticks[k].now);
  }

  lemma OnlyReadyUnitsRun(lane: Lane, keys: seq<string>, now: real)
    ensures var key := FirstReady(lane, keys, now); key.Some? ==> Ready(lane, key.value, now)
  {
  }
}
