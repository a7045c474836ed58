/**
 * The shared token bucket (pcomirror/ratelimit.py): a foreground reserve, a rate that
 * follows Planning Center's headers, and pauses. Time is a real number of seconds on
 * a monotone clock; each section under the limiter's lock is one step.
 */
module RateLimiter {
  import opened Types

  const FOREGROUND_RESERVE: real := 0.5

  datatype Bucket = Bucket(rate: real, capacity: real, tokens: real, last: real, pauseUntil: real) {
    predicate Valid() {
      rate > 0.0 && capacity >= 1.0 && tokens >= 0.0
    }
  }

  function Min(a: real, b: real): real {
    if a <= b then a else b
  }

  function Max(a: real, b: real): real {
    if a >= b then a else b
  }

  function Refilled(b: Bucket, now: real): (r: Bucket)
    ensures r.tokens <= r.capacity
    ensures r.rate == b.rate && r.capacity == b.capacity && r.pauseUntil == b.pauseUntil && r.last == now
  {
    b.(tokens := Min(b.capacity, b.tokens + (now - b.last) * b.rate), last := now)
  }

  function Floor(b: Bucket, deferrable: bool): real {
    if deferrable then b.capacity * FOREGROUND_RESERVE else 0.0
  }

  /** Tested after a refill at `now`. */
  predicate Grants(b: Bucket, floor: real, now: real) {
    b.tokens >= 1.0 + floor && now >= b.pauseUntil
  }

  function PauseFor(retryAfter: Option<real>): real {
    if retryAfter.Some? && retryAfter.value != 0.0 then retryAfter.value else 20.0
  }

  /** What the headers of a response do; a limit or a period that is not positive is ignored. */
  function Retargeted(b: Bucket, util: real, limit: real, period: real, count: real, now: real): Bucket {
    if limit > 0.0 && period > 0.0 then
      b.(rate := limit / period * util,
         capacity := Max(1.0, limit / period),
         pauseUntil := if count >= 0.9 * limit then now + period else b.pauseUntil)
    else b
  }

  // ----- traces: any interleaving of callers ----------------------------------------

  datatype Event =
    | Attempt(now: real, floor: real)
    | Response(now: real, limit: real, period: real, count: real)
    | TooMany(now: real, retryAfter: Option<real>)

  function Step(b: Bucket, util: real, e: Event): Bucket {
    match e
    case Attempt(now, floor) =>
      var r := Refilled(b, now);
      if Grants(r, floor, now) then r.(tokens := r.tokens - 1.0) else r
    case Response(now, limit, period, count) => Retargeted(b, util, limit, period, count, now)
    case TooMany(now, retryAfter) => b.(tokens := 0.0, pauseUntil := now + PauseFor(retryAfter))
  }

  function GrantedBy(b: Bucket, e: Event): nat {
    if e.Attempt? && Grants(Refilled(b, e.now), e.floor, e.now) then 1 else 0
  }

  function Granted(b: Bucket, util: real, s: seq<Event>): nat
    decreases |s|
  {
    if s == [] then 0 else GrantedBy(b, s[0]) + Granted(Step(b, util, s[0]), util, s[1..])
  }

  /** A monotone clock, and nobody asks for a negative reserve. */
  ghost predicate Timely(s: seq<Event>, from: real, to: real) {
    && (forall e :: e in s ==> from <= e.now <= to && (e.Attempt? ==> e.floor >= 0.0))
    && (forall i, j :: 0 <= i < j < |s| ==> s[i].now <= s[j].now)
  }

  /** Every response seen here states the same limit and period. */
  ghost predicate Steady(s: seq<Event>, limit: real, period: real) {
    forall e :: e in s && e.Response? ==> e.limit == limit && e.period == period
  }

  ghost predicate InForce(b: Bucket, util: real, limit: real, period: real) {
    && limit > 0.0 && period > 0.0 && limit / period >= 1.0
    && b.rate == limit / period * util && b.capacity == limit / period
  }

  /** What flows into the bucket between two instants. */
  function Flow(rate: real, from: real, to: real): real {
    rate * (to - from)
  }

  lemma FlowAdds(rate: real, a: real, b: real, c: real)
    requires rate >= 0.0 && a <= b <= c
    ensures Flow(rate, a, b) + Flow(rate, b, c) == Flow(rate, a, c)
    ensures 0.0 <= Flow(rate, a, b) <= Flow(rate, a, c) && 0.0 <= Flow(rate, b, c) <= Flow(rate, a, c)
  {
    Monotone(rate, 0.0, b - a);
    Monotone(rate, 0.0, c - b);
  }

  lemma StrictlyMonotone(r: real, a: real, b: real)
    requires r > 0.0 && a < b
    ensures r * a < r * b
  {
  }

  lemma Monotone(r: real, a: real, b: real)
    requires r >= 0.0 && a <= b
    ensures r * a <= r * b
  {
  }

  /** One step: a grant is paid for by what the bucket held or what flowed in. */
  lemma StepIsBacked(b: Bucket, util: real, e: Event, limit: real, period: real)
    requires b.Valid() && InForce(b, util, limit, period) && b.last <= e.now
    requires e.Response? ==> e.limit == limit && e.period == period
    requires e.Attempt? ==> e.floor >= 0.0
    ensures var b' := Step(b, util, e);
            && b'.Valid() && InForce(b', util, limit, period) && b'.rate == b.rate && b'.capacity == b.capacity
            && b'.last == (if e.Attempt? then e.now else b.last)
            && GrantedBy(b, e) as real + b'.tokens <= b.tokens + Flow(b.rate, b.last, b'.last)
            && (e.Attempt? ==> GrantedBy(b, e) as real + b'.tokens <= b.capacity)
  {
    Monotone(b.rate, 0.0, e.now - b.last);
  }

  lemma TailIsTimely(s: seq<Event>, from: real, to: real, limit: real, period: real)
    requires s != [] && Timely(s, from, to) && Steady(s, limit, period)
    ensures from <= s[0].now <= to
    ensures Timely(s[1..], s[0].now, to) && Timely(s[1..], from, to) && Steady(s[1..], limit, period)
  {
    assert s[0] in s;
    assert forall x :: x in s[1..] ==> x in s;
    forall x | x in s[1..] ensures s[0].now <= x.now {
      var i :| 0 <= i < |s| - 1 && s[1..][i] == x;
      assert s[i + 1] == x;
    }
  }

  /** What can be granted by `to` is what the bucket holds and what flows in until then. */
  lemma {:induction false} GrantsAreBacked(b: Bucket, util: real, s: seq<Event>, limit: real, period: real, to: real)
    requires b.Valid() && InForce(b, util, limit, period) && Steady(s, limit, period)
    requires Timely(s, b.last, to) && b.last <= to
    ensures Granted(b, util, s) as real <= b.tokens + Flow(b.rate, b.last, to)
    decreases |s|
  {
    hide InForce, Step, GrantedBy, Flow;
    FlowAdds(b.rate, b.last, b.last, to);
    if s != [] {
      var b' := Step(b, util, s[0]);
      TailIsTimely(s, b.last, to, limit, period);
      assert s[0] in s;
      StepIsBacked(b, util, s[0], limit, period);
      GrantsAreBacked(b', util, s[1..], limit, period, to);
      FlowAdds(b.rate, b.last, b'.last, to);
    }
  }

  /** Whatever the bucket holds when the window opens, its first refill cuts it to
      its capacity. */
  lemma {:induction false} GrantsFromAnyBucket(b: Bucket, util: real, s: seq<Event>, limit: real, period: real, from: real, to: real)
    requires b.Valid() && InForce(b, util, limit, period) && Steady(s, limit, period)
    requires Timely(s, from, to) && b.last <= from <= to
    ensures Granted(b, util, s) as real <= b.capacity + Flow(b.rate, from, to)
    decreases |s|
  {
    hide InForce, Step, Flow, Refilled, Grants;
    FlowAdds(b.rate, from, from, to);
    if s != [] {
      var b' := Step(b, util, s[0]);
      TailIsTimely(s, from, to, limit, period);
      assert s[0] in s;
      StepIsBacked(b, util, s[0], limit, period);
      if s[0].Attempt? {
        GrantsAreBacked(b', util, s[1..], limit, period, to);
        FlowAdds(b.rate, from, s[0].now, to);
      } else {
        GrantsFromAnyBucket(b', util, s[1..], limit, period, from, to);
      }
    }
  }

  lemma OnePeriodOfFlow(limit: real, period: real, util: real, from: real)
    requires limit > 0.0 && period > 0.0
    ensures Flow(limit / period * util, from, from + period) == util * limit
  {
    var q := limit / period;
    assert q * period == limit;
    assert q * util * period == util * (q * period);
  }

  lemma FlowAndBurstFit(limit: real, period: real, util: real)
    requires limit > 0.0 && period > 0.0 && util + 1.0 / period <= 1.0
    ensures util * limit + limit / period <= limit
  {
    var q, p := limit / period, 1.0 / period;
    assert q * period == limit && p * period == 1.0;
    assert limit * p == q * (period * p);
    Monotone(limit, util + p, 1.0);
    assert limit * (util + p) == util * limit + limit * p;
  }

  /** No window one period long sees more grants than the remote's limit, however
      foreground and background callers interleave. */
  lemma NoWindowExceedsTheLimit(b: Bucket, util: real, s: seq<Event>, limit: real, period: real, from: real)
    requires b.Valid() && InForce(b, util, limit, period) && Steady(s, limit, period)
    requires Timely(s, from, from + period) && b.last <= from
    ensures Granted(b, util, s) as real <= util * limit + limit / period
    ensures util + 1.0 / period <= 1.0 ==> Granted(b, util, s) as real <= limit
  {
    hide Granted, Timely, Steady;
    GrantsFromAnyBucket(b, util, s, limit, period, from, from + period);
    OnePeriodOfFlow(limit, period, util, from);
    if util + 1.0 / period <= 1.0 {
      FlowAndBurstFit(limit, period, util);
    }
  }

  /** A grant leaves at least the reserve it was asked to leave -- half the capacity,
      as long as the capacity is the one the reserve was computed from. */
  lemma DeferrableGrantsKeepTheReserve(b: Bucket, util: real, now: real)
    requires GrantedBy(b, Attempt(now, Floor(b, true))) == 1
    ensures Step(b, util, Attempt(now, Floor(b, true))).tokens >= b.capacity * FOREGROUND_RESERVE
  {
  }

  /** If this bucket grants an attempt with half of `c0` in reserve, half of its own
      capacity stays. */
  predicate GrantLeavesHalf(b: Bucket, util: real, c0: real, now: real) {
    var attempt := Attempt(now, c0 * FOREGROUND_RESERVE);
    GrantedBy(b, attempt) == 1 ==> Step(b, util, attempt).tokens >= b.capacity * FOREGROUND_RESERVE
  }

  /** Every grant to a background caller that computed its reserve from capacity `c0`
      leaves half of the capacity `c` then in force. */
  ghost predicate KeepsTheReserve(util: real, c0: real, c: real) {
    forall b: Bucket, now ::
      b.Valid() && b.capacity == c ==> GrantLeavesHalf(b, util, c0, now)
  }

  /** The reserve is computed once, before waiting. It is kept exactly when no response
      raised the capacity meanwhile, or the new one is too small to grant at all. */
  lemma TheReserveIsKeptUnlessRaised(util: real, c0: real, c: real)
    requires c0 >= 1.0 && c >= 1.0
    ensures KeepsTheReserve(util, c0, c) <==> c <= c0 || c < 1.0 + c0 * FOREGROUND_RESERVE
  {
    if c > c0 && c >= 1.0 + c0 * FOREGROUND_RESERVE {
      var b := Bucket(1.0, c, 1.0 + c0 * FOREGROUND_RESERVE, 0.0, 0.0);
      var attempt := Attempt(0.0, c0 * FOREGROUND_RESERVE);
      assert !GrantLeavesHalf(b, util, c0, 0.0);
      assert GrantedBy(b, attempt) == 1 && Step(b, util, attempt).tokens == c0 * FOREGROUND_RESERVE;
    }
  }

  /** A run that reaches such a grant: a response raises the capacity while a background
      caller waits, and its grant dips below half of the new capacity. */
  lemma AStaleReserveDips()
    ensures var b := Bucket(4.0, 4.0, 0.0, 0.0, 0.0);
            var raised := Step(b, 0.8, Response(0.0, 400.0, 20.0, 0.0));
            var attempt := Attempt(0.1875, Floor(b, true));
            && GrantedBy(raised, attempt) == 1
            && Step(raised, 0.8, attempt).tokens < Floor(raised, true)
  {
    var b := Bucket(4.0, 4.0, 0.0, 0.0, 0.0);
    assert Step(b, 0.8, Response(0.0, 400.0, 20.0, 0.0)) == Bucket(16.0, 20.0, 0.0, 0.0, 0.0);
  }

  /** A response may shorten a pause: after a 429 it still holds as long exactly when
      the response does not restart it, or restarts it for later. */
  lemma PauseSurvivesAResponse(b: Bucket, util: real, retryAfter: Option<real>, t: real,
                               limit: real, period: real, count: real, now: real)
    requires limit > 0.0 && period > 0.0
    ensures var paused := Step(b, util, TooMany(t, retryAfter));
            var after := Step(paused, util, Response(now, limit, period, count));
            after.pauseUntil >= paused.pauseUntil <==>
              count < 0.9 * limit || now + period >= t + PauseFor(retryAfter)
  {
  }

  // ----- what a pause and a reserve mean ------------------------------------------------

  /** Attempts only, all of them before `until`. */
  ghost predicate AttemptsBefore(s: seq<Event>, until: real) {
    forall e :: e in s ==> e.Attempt? && e.now < until
  }

  lemma {:induction false} PausedGrantsNothing(b: Bucket, util: real, s: seq<Event>)
    requires AttemptsBefore(s, b.pauseUntil)
    ensures Granted(b, util, s) == 0
    decreases |s|
  {
    if s != [] {
      assert s[0] in s;
      assert forall e :: e in s[1..] ==> e in s;
      PausedGrantsNothing(Step(b, util, s[0]), util, s[1..]);
    }
  }

  /** After a 429 nobody is granted anything for the seconds it asked for -- for twenty if it
      did not say, or said none -- however many callers try, until a response re-targets
      the bucket; and all that is granted later has flowed in since. */
  lemma ATooManyPausesEverybody(b: Bucket, util: real, retryAfter: Option<real>, now: real, s: seq<Event>)
    requires retryAfter.Some? ==> retryAfter.value >= 0.0
    ensures var seconds := if retryAfter.Some? && retryAfter.value > 0.0 then retryAfter.value else 20.0;
            AttemptsBefore(s, now + seconds) ==> Granted(Step(b, util, TooMany(now, retryAfter)), util, s) == 0
    ensures Step(b, util, TooMany(now, retryAfter)).tokens == 0.0
  {
    var paused := Step(b, util, TooMany(now, retryAfter));
    if AttemptsBefore(s, paused.pauseUntil) {
      PausedGrantsNothing(paused, util, s);
    }
  }

  /** A response that says nine tenths of the limit are used up pauses everybody for its
      period; one below that pauses nobody who was not paused. */
  lemma ANearLimitPausesEverybody(b: Bucket, util: real, limit: real, period: real, count: real, now: real, s: seq<Event>)
    requires limit > 0.0 && period > 0.0
    ensures var after := Step(b, util, Response(now, limit, period, count));
            && (10.0 * count >= 9.0 * limit && AttemptsBefore(s, now + period) ==> Granted(after, util, s) == 0)
            && (10.0 * count < 9.0 * limit ==> after.pauseUntil == b.pauseUntil)
  {
    var after := Step(b, util, Response(now, limit, period, count));
    if AttemptsBefore(s, after.pauseUntil) {
      PausedGrantsNothing(after, util, s);
    }
  }

  /** A response puts the limit it states in force, whatever the bucket was like before, and
      touches neither the tokens nor the clock mark; without a positive limit and period it
      changes nothing. */
  lemma AResponseIsInForce(b: Bucket, util: real, limit: real, period: real, count: real, now: real)
    ensures var after := Step(b, util, Response(now, limit, period, count));
            if limit > 0.0 && period > 0.0
            then && (limit / period >= 1.0 ==> InForce(after, util, limit, period))
                 && after.capacity >= 1.0 && after.tokens == b.tokens && after.last == b.last
            else after == b
  {
  }

  /** Somebody waiting in the foreground needs one token and no pause, whatever the
      background was told to leave; in the background half the capacity on top. */
  lemma WhatAnAttemptNeeds(b: Bucket, now: real)
    ensures GrantedBy(b, Attempt(now, Floor(b, false))) == 1 <==> Refilled(b, now).tokens >= 1.0 && now >= b.pauseUntil
    ensures GrantedBy(b, Attempt(now, Floor(b, true))) == 1 <==> 2.0 * Refilled(b, now).tokens >= 2.0 + b.capacity && now >= b.pauseUntil
  {
  }

  // ----- a lone caller ----------------------------------------------------------------

  /** The bucket after these events. */
  function After(b: Bucket, util: real, s: seq<Event>): Bucket
    decreases |s|
  {
    if s == [] then b else After(Step(b, util, s[0]), util, s[1..])
  }

  lemma {:induction false} OneEventMore(b: Bucket, util: real, s: seq<Event>, e: Event)
    ensures After(b, util, s + [e]) == Step(After(b, util, s), util, e)
    ensures Granted(b, util, s + [e]) == Granted(b, util, s) + GrantedBy(After(b, util, s), e)
    decreases |s|
  {
    hide Step, GrantedBy;
    if s == [] {
      assert [e][1..] == [];
    } else {
      assert (s + [e])[1..] == s[1..] + [e];
      OneEventMore(Step(b, util, s[0]), util, s[1..], e);
    }
  }

  /** From `b` to `b'` nothing happened but these attempts with one reserve, one after the
      other; `grants` of them took a token. */
  ghost predicate Attempted(b: Bucket, util: real, s: seq<Event>, floor: real, from: real, to: real, b': Bucket, grants: nat) {
    && Timely(s, from, to) && (forall e :: e in s ==> e.Attempt? && e.floor == floor)
    && b' == After(b, util, s) && grants == Granted(b, util, s)
  }

  lemma NothingAttempted(b: Bucket, util: real, floor: real, from: real, to: real)
    ensures Attempted(b, util, [], floor, from, to, b, 0)
  {
  }

  lemma OneAttemptMore(b: Bucket, util: real, s: seq<Event>, floor: real, from: real, now: real, b1: Bucket, b2: Bucket)
    requires Attempted(b, util, s, floor, from, now, b1, 0) && floor >= 0.0 && from <= now
    requires b2 == Step(b1, util, Attempt(now, floor))
    ensures Attempted(b, util, s + [Attempt(now, floor)], floor, from, now, b2, GrantedBy(b1, Attempt(now, floor)))
  {
    OneEventMore(b, util, s, Attempt(now, floor));
  }

  lemma TimePasses(b: Bucket, util: real, s: seq<Event>, floor: real, from: real, to: real, to': real, b': Bucket, grants: nat)
    requires Attempted(b, util, s, floor, from, to, b', grants) && to <= to'
    ensures Attempted(b, util, s, floor, from, to', b', grants)
  {
  }

  /** How long the code sleeps when it was not granted. */
  function WaitFor(b: Bucket, floor: real, now: real): real
    requires b.rate > 0.0
  {
    var wait := Max(0.005, Min(0.25, (1.0 + floor - b.tokens) / b.rate));
    var pause := b.pauseUntil - now;
    if pause > 0.0 then Min(pause, 0.25) else wait
  }

  /** Seconds until the bucket holds what is asked for, if nobody else draws on it. */
  function Need(b: Bucket, floor: real): (seconds: real)
    requires b.rate > 0.0
    ensures seconds >= 0.0
  {
    Max(0.0, (1.0 + floor - b.tokens) / b.rate)
  }

  lemma SleepingPaysTheNeed(b: Bucket, floor: real, wait: real)
    requires b.Valid() && wait >= 0.0 && 1.0 + floor <= b.capacity
    ensures Need(Refilled(b, b.last + wait), floor) <= Max(0.0, Need(b, floor) - wait)
  {
    var d, d' := 1.0 + floor - b.tokens, 1.0 + floor - Refilled(b, b.last + wait).tokens;
    var q := d / b.rate;
    assert q * b.rate == d;
    assert d - wait * b.rate == (q - wait) * b.rate;
    if d' > 0.0 {
      assert d' <= (q - wait) * b.rate;
      DivideBoth(d', q - wait, b.rate);
    } else {
      DivideBoth(d', 0.0, b.rate);
    }
  }

  lemma DivideBoth(x: real, y: real, r: real)
    requires r > 0.0 && x <= y * r
    ensures x / r <= y
  {
    assert (x / r) * r == x;
    if x / r > y {
      StrictlyMonotone(r, y, x / r);
    }
  }

  /** A bound on how many more sleeps of at least five milliseconds fit. */
  function Sleeps(seconds: real): nat {
    if seconds <= 0.0 then 0 else 1 + (200.0 * seconds).Floor
  }

  /** A bound on how many more sleeps a pause takes. */
  function PauseSleeps(seconds: real): nat {
    if seconds <= 0.0 then 0 else 1 + (4.0 * seconds).Floor
  }

  lemma ASleepCounts(seconds: real, wait: real)
    requires seconds > 0.0 && wait >= 0.005
    ensures Sleeps(seconds - wait) < Sleeps(seconds)
  {
  }

  lemma SleepsAreMonotone(a: real, b: real)
    requires a <= Max(0.0, b)
    ensures Sleeps(a) <= Sleeps(b)
  {
  }

  /** What one refused turn of the waiting loop brings: a paused caller sleeps the
      pause away, an unpaused one sleeps at least five milliseconds and no more than
      that beyond its need. */
  lemma ATurnIsProgress(b: Bucket, floor: real, now: real)
    requires b.Valid() && b.last == now && !Grants(b, floor, now)
    ensures var wait := WaitFor(b, floor, now);
            && 0.0 < wait <= 0.25
            && (b.pauseUntil > now ==> PauseSleeps(b.pauseUntil - (now + wait)) < PauseSleeps(b.pauseUntil - now))
            && (b.pauseUntil <= now ==>
                  && PauseSleeps(b.pauseUntil - now) == PauseSleeps(b.pauseUntil - (now + wait)) == 0
                  && Need(b, floor) > 0.0 && wait >= 0.005 && (wait <= Need(b, floor) || wait == 0.005))
  {
    var d := 1.0 + floor - b.tokens;
    if b.pauseUntil <= now {
      assert d / b.rate * b.rate == d;
      if d / b.rate <= 0.0 {
        Monotone(b.rate, d / b.rate, 0.0);
        assert false;
      }
    }
  }

  class Clock {
    var now: real

    constructor (now: real)
      ensures this.now == now
    {
      this.now := now;
    }

    /** An exact sleep. */
    method Sleep(seconds: real)
      requires seconds >= 0.0
      modifies this
      ensures now == old(now) + seconds
    {
      now := now + seconds;
    }
  }

  /** How an `acquire` ends; `StillWaiting` is one that has not ended yet. */
  datatype Ending = Granted | Refused | StillWaiting

  /** How many turns of its loop a lone caller without a deadline may sleep through. */
  function TurnsNeeded(b: Bucket, deferrable: bool, now: real): nat
    requires b.rate > 0.0
  {
    PauseSleeps(b.pauseUntil - now) + Sleeps(Need(Refilled(b, now), Floor(b, deferrable)))
  }

  class Limiter {
    const util: real
    var rate: real
    var capacity: real
    var tokens: real
    var last: real
    var pauseUntil: real

    ghost function State(): Bucket
      reads this
    {
      Bucket(rate, capacity, tokens, last, pauseUntil)
    }

    constructor (targetRps: real, util: real, now: real)
      ensures this.util == util && State().Valid() && last == now && pauseUntil == 0.0
      ensures tokens == capacity == Max(1.0, targetRps) && rate == Max(0.1, targetRps)
    {
      this.util := util;
      rate, capacity, tokens := Max(0.1, targetRps), Max(1.0, targetRps), Max(1.0, targetRps);
      last, pauseUntil := now, 0.0;
    }

    method Refill(now: real)
      requires State().Valid() && last <= now
      modifies this
      ensures State() == Refilled(old(State()), now) && State().Valid()
    {
      Monotone(rate, 0.0, now - last);
      assert (now - last) * rate == rate * (now - last) >= rate * 0.0 == 0.0;
      tokens := Min(capacity, tokens + (now - last) * rate);
      last := now;
    }

    /** One turn of the waiting loop, under the lock. */
    method Attempt(floor: real, now: real) returns (granted: bool, wait: real)
      requires State().Valid() && last <= now && floor >= 0.0
      modifies this
      ensures State() == Step(old(State()), util, Event.Attempt(now, floor)) && State().Valid()
      ensures granted == (GrantedBy(old(State()), Event.Attempt(now, floor)) == 1)
      ensures granted ==> tokens >= floor && now >= pauseUntil && 1.0 + floor <= capacity
      ensures !granted ==> State() == Refilled(old(State()), now) && !Grants(State(), floor, now)
      ensures !granted ==> wait == WaitFor(State(), floor, now)
    {
      Refill(now);
      if tokens >= 1.0 + floor && now >= pauseUntil {
        tokens := tokens - 1.0;
        return true, 0.0;
      }
      wait := Max(0.005, Min(0.25, (1.0 + floor - tokens) / rate));
      var pause := pauseUntil - now;
      if pause > 0.0 {
        wait := Min(pause, 0.25);
      }
      return false, wait;
    }

    method OnResponse(limit: real, period: real, count: real, now: real)
      requires State().Valid() && util > 0.0
      modifies this
      ensures State() == Step(old(State()), util, Response(now, limit, period, count)) && State().Valid()
    {
      if limit > 0.0 && period > 0.0 {
        PositiveRate(limit, period, util);
        rate := limit / period * util;
        capacity := Max(1.0, limit / period);
        if count >= 0.9 * limit {
          pauseUntil := now + period;
        }
      }
    }

    method On429(retryAfter: Option<real>, now: real)
      requires State().Valid()
      modifies this
      ensures State() == Step(old(State()), util, TooMany(now, retryAfter)) && State().Valid()
    {
      tokens := 0.0;
      pauseUntil := now + PauseFor(retryAfter);
    }

    /**
     * Takes one token, waiting for it, when nobody else draws on the bucket and no
     * response re-targets it meanwhile, observed for `turns` turns of its loop if it
     * has no deadline. Then it is granted within the time the deficit takes plus five
     * milliseconds, by a turn that can be told beforehand, if what it asks for fits the
     * capacity at all; if not, it waits for ever. With `maxWait` it ends by its deadline.
     */
    method Acquire(clock: Clock, deferrable: bool, maxWait: Option<real>, turns: nat) returns (end: Ending, ghost attempts: seq<Event>)
      requires State().Valid() && last <= clock.now
      requires maxWait.Some? ==> maxWait.value >= 0.0
      modifies this, clock
      ensures State().Valid() && last <= clock.now
      ensures rate == old(rate) && capacity == old(capacity) && pauseUntil == old(pauseUntil)
      // Nothing happens to the bucket but its own attempts, and one of them takes a token if it is granted, none if not.
      ensures Attempted(old(State()), util, attempts, old(Floor(State(), deferrable)), old(clock.now), clock.now, State(), if end.Granted? then 1 else 0)
      ensures end.Granted? ==>
                && tokens >= Floor(State(), deferrable) && clock.now >= pauseUntil
                && 1.0 + Floor(State(), deferrable) <= capacity
      ensures if maxWait.Some? then !end.StillWaiting? else !end.Refused?
      ensures maxWait.Some? ==> clock.now <= old(clock.now) + maxWait.value
      // Refused only when the bucket still does not grant and one more sleep would pass the deadline.
      ensures end.Refused? ==>
                && last == clock.now && !Grants(State(), Floor(State(), deferrable), clock.now)
                && clock.now + WaitFor(State(), Floor(State(), deferrable), clock.now) > old(clock.now) + maxWait.value
      ensures maxWait.None? && 1.0 + Floor(State(), deferrable) <= capacity && turns > old(TurnsNeeded(State(), deferrable, clock.now)) ==>
                end.Granted?
      ensures maxWait.None? && end.Granted? && old(pauseUntil <= clock.now) ==>
                clock.now <= old(clock.now) + old(Need(Refilled(State(), clock.now), Floor(State(), deferrable))) + 0.005
    {
      hide Refilled, Need, WaitFor, Sleeps, PauseSleeps, Grants, Attempted;
      var floor := if deferrable then capacity * FOREGROUND_RESERVE else 0.0;
      var deadline := if maxWait.Some? then clock.now + maxWait.value else 0.0;
      ghost var start, need0 := clock.now, Need(Refilled(State(), clock.now), floor);
      ghost var need, b0 := need0, State();
      attempts := [];
      NothingAttempted(b0, util, floor, start, start);
      var turn := 0;
      while maxWait.Some? || turn < turns
        invariant State().Valid() && last <= clock.now && start <= clock.now
        invariant rate == old(rate) && capacity == old(capacity) && pauseUntil == old(pauseUntil)
        invariant Attempted(b0, util, attempts, floor, start, clock.now, State(), 0)
        invariant maxWait.Some? ==> clock.now <= deadline
        invariant maxWait.None? ==> turn <= turns
        invariant need == Need(Refilled(State(), clock.now), floor)
        invariant maxWait.None? && 1.0 + floor <= capacity ==>
            turn + PauseSleeps(pauseUntil - clock.now) + Sleeps(need) <= PauseSleeps(pauseUntil - start) + Sleeps(need0)
        invariant maxWait.None? && 1.0 + floor <= capacity && pauseUntil <= start ==>
            clock.now - start <= need0 + 0.005 && (need > 0.0 ==> clock.now - start + need <= need0)
        decreases if maxWait.Some? then 0 else turns - turn,
                  PauseSleeps(pauseUntil - clock.now), Sleeps(if maxWait.Some? then deadline - clock.now else need)
      {
        var wait;
        var granted;
        ghost var b1 := State();
        granted, wait := Attempt(floor, clock.now);
        OneAttemptMore(b0, util, attempts, floor, start, clock.now, b1, State());
        attempts := attempts + [Event.Attempt(clock.now, floor)];
        if granted {
          end := Granted;
          return;
        }
        if maxWait.Some? && clock.now + wait > deadline {
          end := Refused;
          return;
        }
        ATurnIsProgress(State(), floor, clock.now);
        if 1.0 + floor <= capacity {
          SleepingPaysTheNeed(State(), floor, wait);
          SleepsAreMonotone(Need(Refilled(State(), clock.now + wait), floor), need);
        }
        if pauseUntil <= clock.now {
          if maxWait.Some? {
            ASleepCounts(deadline - clock.now, wait);
          } else {
            ASleepCounts(need, wait);
            if 1.0 + floor <= capacity {
              SleepsAreMonotone(Need(Refilled(State(), clock.now + wait), floor), need - wait);
            }
          }
        }
        TimePasses(b0, util, attempts, floor, start, clock.now, clock.now + wait, State(), 0);
        clock.Sleep(wait);
        need := Need(Refilled(State(), clock.now), floor);
        turn := turn + 1;
      }
      end := StillWaiting;
    }
  }

  lemma PositiveRate(limit: real, period: real, util: real)
    requires limit > 0.0 && period > 0.0 && util > 0.0
    ensures limit / period * util > 0.0
  {
    var q := limit / period;
    assert q * period == limit;
    if q <= 0.0 {
      Monotone(period, q, 0.0);
    }
    StrictlyMonotone(util, 0.0, q);
  }

  /** The threshold: background work is ever granted only by a bucket of capacity at
      least two, however long it waits. */
  lemma BackgroundNeedsACapacityOfTwo(b: Bucket)
    requires b.rate > 0.0
    ensures b.capacity >= 2.0 <==> exists now :: Refilled(b, now).tokens >= 1.0 + Floor(b, true)
  {
    if b.capacity >= 2.0 {
      var now := b.last + (b.capacity - b.tokens) / b.rate;
      assert (b.capacity - b.tokens) / b.rate * b.rate == b.capacity - b.tokens;
      assert Refilled(b, now).tokens == b.capacity;
    }
  }
}
