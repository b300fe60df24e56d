/** Retry policy: backoff, the decision after an attempt, and readiness (axiom-queue/retry.py). */
module Retry {
  import opened Wrappers
  import opened Text
  import opened Stamp
  import opened Jobs

  const MAX_DELAY_SECONDS := 300

  /** `2**attempts` no longer converts to a float from here on. */
  const FLOAT_OVERFLOW := 1024

  datatype RetryError = AttemptsBelowOne | Overflow

  function Pow2(n: nat): (r: int)
    ensures r >= 1
  {
    if n == 0 then 1 else 2 * Pow2(n - 1)
  }

  /** Whole seconds of backoff after this many attempts, without jitter. */
  function ComputeBackoff(attempts: int): Result<int, RetryError> {
    if attempts < 1 then Err(AttemptsBelowOne)
    else if attempts >= FLOAT_OVERFLOW then Err(Overflow)
    else Ok(Min(Pow2(attempts), MAX_DELAY_SECONDS))
  }

  lemma {:induction false} Pow2Monotone(a: nat, b: nat)
    requires a <= b
    ensures Pow2(a) <= Pow2(b)
    decreases b
  {
    if a < b {
      Pow2Monotone(a, b - 1);
    }
  }

  /** The delay is 2 seconds after the first attempt and doubles with each one up to 300. */
  lemma BackoffDoubles(n: int)
    ensures ComputeBackoff(n).Ok? <==> 1 <= n < 1024
    ensures n < 1 ==> ComputeBackoff(n) == Err(AttemptsBelowOne)
    ensures ComputeBackoff(1) == Ok(2)
    ensures 1 <= n < 1023 ==> ComputeBackoff(n + 1) == Ok(Min(2 * ComputeBackoff(n).value, 300))
  {
    assert Pow2(1) == 2 * Pow2(0) == 2;
    if 1 <= n < 1023 {
      assert Pow2(n + 1) == 2 * Pow2(n);
    }
  }

  /** Delays never shrink from one attempt to the next and sit at the cap from the ninth on. */
  lemma BackoffMonotone(a: int, b: int)
    requires 1 <= a <= b < FLOAT_OVERFLOW
    ensures ComputeBackoff(a).value <= ComputeBackoff(b).value
    ensures ComputeBackoff(b).value == MAX_DELAY_SECONDS <==> b >= 9
    ensures 2 <= ComputeBackoff(a).value
  {
    Pow2Monotone(a, b);
    Pow2Monotone(1, a);
    assert Pow2(8) == 256 && Pow2(9) == 512;
    if b >= 9 {
      Pow2Monotone(9, b);
    } else {
      Pow2Monotone(b, 8);
    }
  }

  datatype RetryDecision = RetryDecision(nextStatus: Status, nextAttemptAt: Option<string>, delaySeconds: int)

  const AFTER_SUCCESS := RetryDecision(Succeeded, None, 0)
  const TO_DEAD := RetryDecision(Dead, None, 0)

  /** The decision after an ordinary failure, when the clock shows `at`. */
  function DecideAfterFailure(attempts: int, maxAttempts: int, at: int): Result<RetryDecision, RetryError> {
    if attempts >= maxAttempts then
      Ok(TO_DEAD)
    else
      match ComputeBackoff(attempts)
      case Err(e) => Err(e)
      case Ok(delay) =>
        if InRange(at + Micros(delay))
        then Ok(RetryDecision(Failed, Some(NowIso(at + Micros(delay))), delay))
        else Err(Overflow)
  }

  /**
   A failure ends the job exactly when no attempt is left, and otherwise plans the next one for min(2^n, 300) seconds
   later, unless that is past the float range or the last year.
   */
  lemma DecisionExactly(n: int, maxAttempts: int, at: int)
    requires 1 <= n
    ensures var decision := DecideAfterFailure(n, maxAttempts, at);
      var delay := Min(Pow2(n), 300);
      && (decision.Ok? && decision.value.nextStatus == Dead <==> n >= maxAttempts)
      && (n >= maxAttempts ==> decision.value.nextAttemptAt == None && decision.value.delaySeconds == 0)
      && (decision == Err(Overflow) <==> n < maxAttempts && (n >= 1024 || !InRange(at + 1_000_000 * delay)))
      && (decision.Ok? && n < maxAttempts ==>
            && decision.value.nextStatus == Failed && decision.value.delaySeconds == delay
            && decision.value.nextAttemptAt.Some?
            && Parse(decision.value.nextAttemptAt.value).Some?
            && SecondsOf(decision.value.nextAttemptAt.value) == at / 1_000_000 + delay)
  {
    hide NowIso;
    hide Parse;
    hide SecondsOf;
    hide Pow2;
    var later := at + 1_000_000 * Min(Pow2(n), 300);
    if InRange(later) {
      NowIsoParses(later);
    }
  }

  /** No scheduled time means ready; otherwise the stamps are compared as text. */
  predicate IsReadyToRetry(nextAttemptAt: Option<string>, now: string) {
    match nextAttemptAt
    case None => true
    case Some(next) => StrLe(next, now)
  }

  /** A retry with no scheduled time is ready, and one with a readable time is from that second on. */
  lemma ReadyExactly(next: string, now: string)
    requires Parse(next).Some? && Parse(now).Some?
    ensures IsReadyToRetry(None, now)
    ensures IsReadyToRetry(Some(next), now) <==> SecondsOf(next) <= SecondsOf(now)
  {
    StringOrderIsTimeOrder(next, now);
  }

  /** What a ready retry says about real time: less than one second of the delay can be missing. */
  lemma ReadyMeansWaited(decided: int, delay: nat, now: int)
    requires InRange(decided + Micros(delay)) && InRange(now)
    requires IsReadyToRetry(Some(NowIso(decided + Micros(delay))), NowIso(now))
    ensures now - decided > Micros(delay - 1)
  {
    hide NowIso;
    NowIsoOrder(decided + Micros(delay), now);
  }

  /** And a retry whose delay has passed in full is ready. */
  lemma WaitedMeansReady(decided: int, delay: nat, now: int)
    requires InRange(decided + Micros(delay)) && InRange(now) && now - decided >= Micros(delay)
    ensures IsReadyToRetry(Some(NowIso(decided + Micros(delay))), NowIso(now))
  {
    hide NowIso;
    NowIsoOrder(decided + Micros(delay), now);
  }

  /** The clock going on never makes a ready job unready. */
  lemma ReadyStaysReady(next: Option<string>, a: int, b: int)
    requires InRange(a) && InRange(b) && a <= b
    requires IsReadyToRetry(next, NowIso(a))
    ensures IsReadyToRetry(next, NowIso(b))
  {
    hide NowIso;
    NowIsoOrder(a, b);
    if next.Some? && next.value != NowIso(a) && NowIso(a) != NowIso(b) {
      StrLtTransitive(next.value, NowIso(a), NowIso(b));
    }
  }
}
