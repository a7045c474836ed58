/**
 * The allowance of the divergence checker (pcomirror/divergence/__init__.py): checks
 * per minute, spent from a bucket that is refilled by the time that really passed.
 */
module ShadowChecker {
  import opened RateLimiter

  /** `60.0 / max(1, per_minute or 1)`: the head start that is worth one token. */
  function HeadStart(perMinute: nat): real {
    60.0 / (if perMinute == 0 then 1 else perMinute) as real
  }

  function PerSecond(perMinute: nat): real {
    perMinute as real / 60.0
  }

  class Checker {
    var tokens: real
    var lastRefill: real
    ghost var born: real
    ghost var checks: nat

    /** With a constant rate since construction, everything spent or held flowed in
        since then, but for one token. */
    ghost predicate Paid(perMinute: nat)
      reads this
    {
      && 0.0 <= tokens
      && checks as real + tokens <= 1.0 + Flow(PerSecond(perMinute), born, lastRefill)
    }

    constructor (now: real, perMinute: nat)
      ensures tokens == 0.0 && lastRefill == now - HeadStart(perMinute) && born == now && checks == 0
      ensures perMinute > 0 ==> Paid(perMinute)
    {
      tokens, lastRefill := 0.0, now - 60.0 / (if perMinute == 0 then 1 else perMinute) as real;
      born, checks := now, 0;
      if perMinute > 0 {
        HeadStartIsOneToken(perMinute, now);
      }
    }

    /** How many checks this pass may make. */
    method Allowance(now: real, perMinute: nat) returns (n: nat)
      requires lastRefill <= now && tokens >= 0.0
      modifies `tokens, `lastRefill
      ensures perMinute == 0 ==> n == 0 && tokens == old(tokens) && lastRefill == old(lastRefill)
      ensures perMinute > 0 ==>
                && lastRefill == now
                && tokens == Min(perMinute as real, old(tokens) + Flow(PerSecond(perMinute), old(lastRefill), now))
                && n as real <= tokens < n as real + 1.0
      ensures tokens >= 0.0
    {
      if perMinute == 0 {
        return 0;
      }
      PerMinuteFlow(perMinute, lastRefill, now);
      tokens := Min(perMinute as real, tokens + (now - lastRefill) * perMinute as real / 60.0);
      lastRefill := now;
      n := tokens.Floor;
    }

    method Spend(n: nat)
      modifies `tokens
      ensures tokens == Max(0.0, old(tokens) - n as real)
    {
      tokens := Max(0.0, tokens - n as real);
    }

    /** One pass over what is due. In the first `T` seconds at a constant rate of `r`
        a minute, at most `1 + r * T / 60` checks are made. */
    method RunOnce(now: real, perMinute: nat, due: nat) returns (checked: nat)
      requires Paid(perMinute) && lastRefill <= now && born <= now
      modifies this
      ensures Paid(perMinute) && lastRefill <= now && born == old(born)
      ensures checked <= due && checks == old(checks) + checked
      ensures checks as real <= 1.0 + Flow(PerSecond(perMinute), born, now)
      ensures if perMinute > 0 then checked == due || tokens < 1.0 else checked == 0
    {
      FlowSplits(PerSecond(perMinute), born, lastRefill, now);
      var budget := Allowance(now, perMinute);
      checked := if due <= budget then due else budget;
      checks := checks + checked;
      Spend(checked);
    }
  }

  lemma FlowSplits(rate: real, a: real, b: real, c: real)
    requires rate >= 0.0 && b <= c
    ensures Flow(rate, a, b) + Flow(rate, b, c) == Flow(rate, a, c) && Flow(rate, b, c) >= 0.0
  {
    Monotone(rate, 0.0, c - b);
  }

  lemma HeadStartIsOneToken(perMinute: nat, now: real)
    requires perMinute > 0
    ensures Flow(PerSecond(perMinute), now - HeadStart(perMinute), now) == 1.0
    ensures Flow(PerSecond(perMinute), now, now - HeadStart(perMinute)) == -1.0
  {
    var r, h := perMinute as real, HeadStart(perMinute);
    assert h * r == 60.0;
    assert PerSecond(perMinute) * h == 1.0;
  }

  lemma PerMinuteFlow(perMinute: nat, from: real, to: real)
    requires from <= to
    ensures (to - from) * perMinute as real / 60.0 == Flow(PerSecond(perMinute), from, to) >= 0.0
  {
    Monotone(PerSecond(perMinute), 0.0, to - from);
  }

  /** Switching the rate on after construction hands out `rate / max(1, then)` checks at
      once: more than the promised one exactly when the rate has at least doubled --
      from a checker that was off, whenever it is two a minute or more. */
  lemma FirstPassMayBurst(thenPerMinute: nat, perMinute: nat, now: real)
    requires perMinute > 0
    ensures var held := Min(perMinute as real, Flow(PerSecond(perMinute), now - HeadStart(thenPerMinute), now));
            held.Floor > 1 <==> perMinute >= 2 * (if thenPerMinute == 0 then 1 else thenPerMinute)
  {
    var c := if thenPerMinute == 0 then 1 else thenPerMinute;
    var h, r := HeadStart(thenPerMinute), perMinute as real;
    assert h * c as real == 60.0;
    var flow := Flow(PerSecond(perMinute), now - h, now);
    assert flow * c as real == r by {
      assert r / 60.0 * h * c as real == r / 60.0 * (h * c as real);
    }
    if flow >= 2.0 {
      Monotone(c as real, 2.0, flow);
    } else {
      StrictlyMonotone(c as real, flow, 2.0);
    }
  }
}
