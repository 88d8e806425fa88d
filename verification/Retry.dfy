/** Retrying one request with capped exponential backoff. */
module Retry {
  import opened Common

  // A time.Duration: nanoseconds in 64 bits.
  newtype Duration = d: int | -0x8000_0000_0000_0000 <= d < 0x8000_0000_0000_0000

  const FIVE_MINUTES := 300_000_000_000

  function Pow2(n: nat): nat {
    if n == 0 then 1 else 2 * Pow2(n - 1)
  }

  // The delay before attempt n + 2, doubled each time and capped.
  function Backoff(base: int, attempt: nat): int {
    if base <= 0 then 0 else Min(base * Pow2(attempt), FIVE_MINUTES)
  }

  lemma {:induction false} BackoffCapped(base: nat, i: nat, attempt: nat)
    requires i < attempt && base * Pow2(i) >= FIVE_MINUTES / 2
    ensures base * Pow2(attempt) >= FIVE_MINUTES
  {
    assert base * Pow2(attempt) == 2 * (base * Pow2(attempt - 1)) by {
      assert Pow2(attempt) == 2 * Pow2(attempt - 1);
    }
    if i < attempt - 1 { BackoffCapped(base, i, attempt - 1); }
  }

  // The loop stops doubling before it could pass the cap; the verifier checks
  // that no delay on the way leaves the 64 bits of a duration.
  method BackoffDelay(base: Duration, attempt: nat) returns (delay: Duration)
    ensures delay as int == Backoff(base as int, attempt)
  {
    if base <= 0 { return 0; }
    delay := base;
    for i := 0 to attempt
      invariant delay as int == base as int * Pow2(i)
    {
      if delay >= (FIVE_MINUTES / 2) as Duration {
        BackoffCapped(base as int, i, attempt);
        return FIVE_MINUTES as Duration;
      }
      delay := delay * 2;
    }
    if delay > FIVE_MINUTES as Duration { return FIVE_MINUTES as Duration; }
  }

  datatype Error = Challenge | RateLimited(retryAfter: int) | Other(message: string)

  predicate Retryable(e: Error) {
    e.Challenge? || e.RateLimited?
  }

  datatype Answer<+T> = Granted(value: T) | Refused(error: Error)

  // The server's answer to each attempt, numbered over the whole run, and
  // whether the caller gives up while waiting so long for it. Both are
  // arbitrary.
  datatype Server<!T> = Server(answer: nat -> Answer<T>, cancelled: (nat, int) -> bool)

  datatype Policy = Policy(retries: nat, backoff: Duration)

  function DelayAfter(e: Error, p: Policy, attempt: nat): int {
    var delay := Backoff(p.backoff as int, attempt);
    if e.RateLimited? then Max(e.retryAfter, delay) else delay
  }

  const CANCELLED := Other("context cancelled")

  // The answer of one request whose next attempt is attempt number n of the
  // run, and the number of the first attempt that was not used.
  function Request<T>(s: Server<T>, p: Policy, n: nat, attempt: nat): (r: (Answer<T>, nat))
    requires attempt <= p.retries
    ensures n < r.1 <= n + p.retries + 1 - attempt
    ensures r.0.Granted? ==> r.0 == s.answer(r.1 - 1)
    decreases p.retries - attempt
  {
    var a := s.answer(n);
    if a.Granted? || attempt >= p.retries || !Retryable(a.error) then (a, n + 1)
    else
      var delay := DelayAfter(a.error, p, attempt);
      if delay > 0 && s.cancelled(n + 1, delay) then (Refused(CANCELLED), n + 1)
      else Request(s, p, n + 1, attempt + 1)
  }

  // A retryable answer is final only when every attempt was refused that way.
  lemma {:induction false} GivesUpOnlyWhenSpent<T>(s: Server<T>, p: Policy, n: nat, attempt: nat)
    requires attempt <= p.retries
    ensures var (a, next) := Request(s, p, n, attempt);
            a.Refused? && Retryable(a.error) ==>
              next == n + p.retries + 1 - attempt
              && forall i {:trigger s.answer(i)} :: n <= i < next ==>
                   s.answer(i).Refused? && Retryable(s.answer(i).error)
    decreases p.retries - attempt
  {
    var a := s.answer(n);
    if a.Refused? && attempt < p.retries && Retryable(a.error)
       && !(DelayAfter(a.error, p, attempt) > 0 && s.cancelled(n + 1, DelayAfter(a.error, p, attempt))) {
      GivesUpOnlyWhenSpent(s, p, n + 1, attempt + 1);
    }
  }

  // How long to wait before the next attempt: the base doubled each time, five
  // minutes at most, but no less than a rate limit asks for.
  function Wait(error: Error, base: int, attempt: nat): int {
    var backoff := if base <= 0 then 0 else Min(base * Pow2(attempt), 300_000_000_000);
    if error.RateLimited? then Max(error.retryAfter, backoff) else backoff
  }

  // Attempt i was refused for now, and the caller waited for the next.
  predicate TriesAgain<T>(s: Server<T>, p: Policy, n: nat, i: nat) {
    var a := s.answer(n + i);
    && a.Refused? && (a.error.Challenge? || a.error.RateLimited?) && i < p.retries
    && var wait := Wait(a.error, p.backoff as int, i); !(wait > 0 && s.cancelled(n + i + 1, wait))
  }

  // The request ended with attempt i: answered, refused for good or too often,
  // or given up in the wait after it.
  ghost predicate EndsWith<T>(s: Server<T>, p: Policy, n: nat, i: nat, answer: Answer<T>) {
    var a := s.answer(n + i);
    if a.Granted? || a.error.Other? || i == p.retries then answer == a
    else
      var wait := Wait(a.error, p.backoff as int, i);
      i < p.retries && wait > 0 && s.cancelled(n + i + 1, wait) && answer == Refused(Other("context cancelled"))
  }

  lemma {:induction false} RetryFrom<T>(s: Server<T>, p: Policy, n: nat, attempt: nat)
    requires attempt <= p.retries
    ensures var (answer, next) := Request(s, p, n + attempt, attempt); var last := next - n - 1;
            && attempt <= last <= p.retries && EndsWith(s, p, n, last, answer)
            && forall i {:trigger TriesAgain(s, p, n, i)} :: attempt <= i < last ==> TriesAgain(s, p, n, i)
    decreases p.retries - attempt
  {
    if TriesAgain(s, p, n, attempt) { RetryFrom(s, p, n, attempt + 1); }
  }

  // A request is tried until an attempt ends it, and each before asked for
  // another.
  lemma RetryMeaning<T>(s: Server<T>, p: Policy, n: nat)
    ensures var (answer, next) := Request(s, p, n, 0); var last := next - n - 1;
            && 0 <= last <= p.retries && EndsWith(s, p, n, last, answer)
            && forall i {:trigger TriesAgain(s, p, n, i)} :: 0 <= i < last ==> TriesAgain(s, p, n, i)
  {
    RetryFrom(s, p, n, 0);
  }

  // The unbounded attempt loop, with its early returns.
  method RequestWithRetry<T>(s: Server<T>, p: Policy, n: nat) returns (answer: Answer<T>, next: nat)
    ensures (answer, next) == Request(s, p, n, 0)
  {
    var attempt := 0;
    next := n;
    while true
      invariant attempt <= p.retries && next == n + attempt && Request(s, p, n, 0) == Request(s, p, next, attempt)
      decreases p.retries - attempt
    {
      answer := s.answer(next);
      next := next + 1;
      if answer.Granted? || attempt >= p.retries || !Retryable(answer.error) { return; }
      var backoff := BackoffDelay(p.backoff, attempt);
      var delay := backoff as int;
      if answer.error.RateLimited? && answer.error.retryAfter > delay { delay := answer.error.retryAfter; }
      if delay > 0 && s.cancelled(next, delay) { return Refused(CANCELLED), next; }
      attempt := attempt + 1;
    }
  }
}
