/**
 * The retry loop of the HTTP client (pcomirror/pcoclient.py, `request`). What a
 * transport answers is given by number of the send; the limiter may refuse a turn.
 */
module PcoClient {
  import opened Types

  /** One send: an exception, or a response with a status. */
  datatype Sent = Threw | Answered(status: int)

  datatype Result = Returned(status: int, attempts: nat) | Raised | Busy

  predicate ServerError(status: int) {
    status in {500, 502, 503, 504}
  }

  /** The only sends that may be followed by another: for a GET a lost answer, a
      limiter's refusal or a gateway's failure; for a write a refusal alone. */
  predicate MayResend(get: bool, sent: Sent) {
    match sent
    case Threw => get
    case Answered(status) => status == 429 || (get && ServerError(status))
  }

  /** The sends of one call, in order, and how the call ends. */
  ghost predicate Explains(get: bool, maxAttempts: nat, transport: nat -> Sent, busy: nat -> bool,
                           sends: seq<Sent>, result: Result) {
    && |sends| <= maxAttempts
    && (forall i :: 0 <= i < |sends| ==> sends[i] == transport(i) && !busy(i))
    && (forall i :: 0 <= i < |sends| - 1 ==> MayResend(get, sends[i]))
    && match result
       case Busy => |sends| < maxAttempts && busy(|sends|) && (sends != [] ==> MayResend(get, sends[|sends| - 1]))
       case Raised =>
         sends != [] && sends[|sends| - 1].Threw? && (get ==> |sends| == maxAttempts)
       case Returned(status, attempts) =>
         && sends != [] && sends[|sends| - 1] == Answered(status) && attempts == |sends|
         && (!MayResend(get, sends[|sends| - 1]) || |sends| == maxAttempts)
  }

  method Request(get: bool, maxAttempts: nat, transport: nat -> Sent, busy: nat -> bool)
    returns (result: Result, sends: seq<Sent>, slept: nat)
    requires maxAttempts >= 1
    ensures Explains(get, maxAttempts, transport, busy, sends, result)
    ensures slept == Slept(get, maxAttempts, sends) <= 60 * maxAttempts
  {
    hide Slept, Backoff, Power2, ServerError;
    NothingSent(get, maxAttempts);
    sends, slept := [], 0;
    var status := 0;
    for attempt := 0 to maxAttempts
      invariant |sends| == attempt && slept == Slept(get, maxAttempts, sends) <= 60 * attempt
      invariant forall i :: 0 <= i < attempt ==> sends[i] == transport(i) && !busy(i) && MayResend(get, sends[i])
      invariant attempt > 0 ==> sends[attempt - 1] == Answered(status) || (sends[attempt - 1].Threw? && attempt < maxAttempts)
    {
      if busy(attempt) {
        return Busy, sends, slept;
      }
      var sent := transport(attempt);
      OneMoreSend(get, maxAttempts, sends, sent);
      sends := sends + [sent];
      match sent {
        case Threw =>
          var last := !get || attempt == maxAttempts - 1;
          if last {
            return Raised, sends, slept;
          }
          slept := slept + Backoff(attempt, 30);
        case Answered(code) =>
          status := code;
          if code == 429 {
            slept := slept + Backoff(attempt, 60);
          } else if ServerError(code) {
            if !get {
              return Returned(code, attempt + 1), sends, slept;
            }
            slept := slept + Backoff(attempt, 30);
          } else {
            return Returned(code, attempt + 1), sends, slept;
          }
      }
    }
    return Returned(status, maxAttempts), sends, slept;
  }

  function Power2(n: nat): nat {
    if n == 0 then 1 else 2 * Power2(n - 1)
  }

  /** `min(cap, 2 ** attempt)` seconds. */
  function Backoff(attempt: nat, cap: nat): (seconds: nat)
    ensures seconds <= cap
  {
    if Power2(attempt) < cap then Power2(attempt) else cap
  }

  /** The pause after the `i`-th send: none after an answer that is returned or an
      exception that is raised. */
  function Pause(get: bool, maxAttempts: nat, i: nat, sent: Sent): nat {
    match sent
    case Threw => if get && i + 1 != maxAttempts then Backoff(i, 30) else 0
    case Answered(status) =>
      if status == 429 then Backoff(i, 60) else if get && ServerError(status) then Backoff(i, 30) else 0
  }

  function Slept(get: bool, maxAttempts: nat, sends: seq<Sent>): nat {
    if sends == [] then 0
    else Slept(get, maxAttempts, sends[..|sends| - 1]) + Pause(get, maxAttempts, |sends| - 1, sends[|sends| - 1])
  }

  lemma NothingSent(get: bool, maxAttempts: nat)
    ensures Slept(get, maxAttempts, []) == 0
  {
  }

  lemma OneMoreSend(get: bool, maxAttempts: nat, sends: seq<Sent>, sent: Sent)
    ensures Slept(get, maxAttempts, sends + [sent]) == Slept(get, maxAttempts, sends) + Pause(get, maxAttempts, |sends|, sent)
  {
    assert (sends + [sent])[..|sends|] == sends;
  }

  /** Who sends again: a reader after a lost answer, a refusal or a failing gateway; a writer
      after a refusal alone. */
  lemma SendsAgainExactlyAfter(get: bool, sent: Sent)
    ensures MayResend(get, sent) <==>
            || sent == Answered(429)
            || (get && (sent.Threw? || sent.status == 500 || sent.status == 502 || sent.status == 503 || sent.status == 504))
  {
  }

  /** The pauses double from one second on, up to a minute after a refusal and half a minute
      after a failure, and nothing is waited for after an answer that is handed on. */
  lemma PausesDouble(get: bool, maxAttempts: nat, i: nat, sent: Sent)
    ensures var cap := if sent == Answered(429) then 60 else 30;
            MayResend(get, sent) && (sent.Threw? ==> i + 2 < maxAttempts) ==>
              && (1 < maxAttempts ==> Pause(get, maxAttempts, 0, sent) == 1)
              && Pause(get, maxAttempts, i + 1, sent) == Fewer(cap, 2 * Pause(get, maxAttempts, i, sent))
    ensures !MayResend(get, sent) || (sent.Threw? && i + 1 == maxAttempts) ==> Pause(get, maxAttempts, i, sent) == 0
  {
  }

  function Fewer(a: nat, b: nat): nat {
    if a <= b then a else b
  }

  /** Which of the sends reached something that applied the write. */
  function Applied(sends: seq<Sent>, applies: nat -> bool): nat {
    if sends == [] then 0
    else Applied(sends[..|sends| - 1], applies) + (if applies(|sends| - 1) then 1 else 0)
  }

  lemma {:induction false} RefusedSendsApplyNothing(sends: seq<Sent>, applies: nat -> bool)
    requires forall i :: 0 <= i < |sends| ==> !applies(i)
    ensures Applied(sends, applies) == 0
  {
    if sends != [] {
      RefusedSendsApplyNothing(sends[..|sends| - 1], applies);
    }
  }

  /** If a 429 means the request was not applied, then whatever the transport does, one
      call applies a write at most once -- every send but the last was refused. */
  lemma WritesAreAppliedAtMostOnce(maxAttempts: nat, transport: nat -> Sent, busy: nat -> bool,
                                   sends: seq<Sent>, result: Result, applies: nat -> bool)
    requires Explains(false, maxAttempts, transport, busy, sends, result)
    requires forall i :: transport(i) == Answered(429) ==> !applies(i)
    ensures forall i :: 0 <= i < |sends| - 1 ==> sends[i] == Answered(429)
    ensures Applied(sends, applies) <= 1
    ensures Applied(sends, applies) == 1 ==> sends[|sends| - 1] != Answered(429)
  {
    if sends != [] {
      forall i | 0 <= i < |sends| - 1 ensures sends[i] == Answered(429) && !applies(i) {
        assert MayResend(false, sends[i]);
      }
      RefusedSendsApplyNothing(sends[..|sends| - 1], applies);
    }
  }

  /** The loop is as eager as it may be: with the limiter granting every turn, a call
      ends early only on an answer it must not repeat. */
  lemma StopsOnlyWhenItMust(get: bool, maxAttempts: nat, transport: nat -> Sent, busy: nat -> bool,
                            sends: seq<Sent>, result: Result)
    requires maxAttempts >= 1 && Explains(get, maxAttempts, transport, busy, sends, result)
    requires forall i :: !busy(i)
    ensures |sends| == maxAttempts <==> forall i :: 0 <= i < maxAttempts - 1 ==> MayResend(get, transport(i))
  {
    if |sends| < maxAttempts {
      assert !MayResend(get, transport(|sends| - 1));
    } else {
      assert forall i :: 0 <= i < maxAttempts - 1 ==> sends[i] == transport(i);
    }
  }
}
