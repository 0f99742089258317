/** The GitHub client's retry loop: two separate budgets, and clamped waits.  Durations are
    nanoseconds in a signed 64-bit word, as Go's time.Duration. */
module RetryClient {
  import opened Wrappers

  const SECOND := 1_000_000_000
  const MAX_RETRIES := 6
  const MAX_RETRY_WAIT := 300_000_000_000
  const MAX_RATE_LIMIT_WAITS := 4
  const MAX_RATE_LIMIT_WAIT := 3_900_000_000_000
  const SECONDARY_FLOOR := 60_000_000_000

  const MAX_INT64 := 0x7FFF_FFFF_FFFF_FFFF
  const MIN_INT64 := -0x8000_0000_0000_0000

  function Seconds(n: int): int {
    n * 1_000_000_000
  }

  predicate IsInt64(n: int) {
    MIN_INT64 <= n <= MAX_INT64
  }

  /** Two's-complement wrap-around to 64 bits. */
  function Wrap(n: int): (w: int)
    ensures IsInt64(w)
  {
    if IsInt64(n) then n else LowWord(n)
  }

  /** The low 64 bits, read as a signed number. */
  function LowWord(n: int): (w: int)
    ensures IsInt64(w)
  {
    var m := n % 0x1_0000_0000_0000_0000;
    if m > MAX_INT64 then m - 0x1_0000_0000_0000_0000 else m
  }

  /** Time.Sub saturates instead of wrapping. */
  function Saturate(n: int): (w: int)
    ensures IsInt64(w)
  {
    if n > MAX_INT64 then MAX_INT64 else if n < MIN_INT64 then MIN_INT64 else n
  }

  /** A header: absent (or empty), text that is not a 64-bit decimal, or its value. */
  datatype Header = Missing | Unreadable | Value(n: int)

  /** noneRemaining: X-RateLimit-Remaining is exactly "0". */
  datatype Headers = Headers(retryAfter: Header, noneRemaining: bool, reset: Header) {
    predicate Valid() {
      && (retryAfter.Value? ==> IsInt64(retryAfter.n))
      && (reset.Value? ==> IsInt64(reset.n))
    }
  }

  /** Seconds between the internal time origin and the Unix epoch (time.Unix adds them, wrapping). */
  const UNIX_TO_INTERNAL := 62_135_596_800

  /** How long from `now` (nanoseconds since the Unix epoch) until one second past the reset
      instant: the instant wraps, the added second and the difference saturate. */
  function UntilReset(epoch: int, now: int): (d: int)
    ensures IsInt64(d)
  {
    var internal := Wrap(epoch + UNIX_TO_INTERNAL);
    var cushioned := if internal == MAX_INT64 then MAX_INT64 else internal + 1;
    Saturate(Seconds(cushioned - UNIX_TO_INTERNAL) - now)
  }

  function Clamp(wait: int): (c: int)
    ensures SECOND <= c <= MAX_RATE_LIMIT_WAIT
    ensures SECOND <= wait <= MAX_RATE_LIMIT_WAIT ==> c == wait
  {
    if wait < SECOND then SECOND else if wait > MAX_RATE_LIMIT_WAIT then MAX_RATE_LIMIT_WAIT else wait
  }

  /** Retry-After is followed: it is a non-negative number of seconds whose length in
      nanoseconds is positive once it has wrapped. */
  predicate RetryAfterUsed(h: Headers) {
    h.retryAfter.Value? && h.retryAfter.n >= 0 && Wrap(Seconds(h.retryAfter.n)) > 0
  }

  /** What a rate-limited response makes the client wait: Retry-After, else the reset, else
      a second when a header said the limit is over, else the polite floor. */
  function LimitedWait(h: Headers, now: int): (wait: int)
    ensures SECOND <= wait <= MAX_RATE_LIMIT_WAIT
  {
    if RetryAfterUsed(h) then Clamp(Wrap(Seconds(h.retryAfter.n)))
    else if h.reset.Value? then Clamp(UntilReset(h.reset.n, now))
    else if h.retryAfter.Value? && h.retryAfter.n >= 0 then SECOND
    else SECONDARY_FLOOR
  }

  method RateLimitWait(h: Headers, now: int) returns (wait: int)
    requires h.Valid()
    ensures SECOND <= wait <= MAX_RATE_LIMIT_WAIT
    ensures wait == LimitedWait(h, now)
  {
    wait := 0;
    var hadHeader := false;
    if h.retryAfter.Value? && h.retryAfter.n >= 0 {
      wait := Wrap(Seconds(h.retryAfter.n));
      hadHeader := true;
    }
    if wait <= 0 {
      if h.reset.Value? {
        wait := UntilReset(h.reset.n, now);
        hadHeader := true;
      }
    }
    if wait <= 0 {
      wait := if hadHeader then SECOND else SECONDARY_FLOOR;
    }
    if wait < SECOND {
      wait := SECOND;
    }
    if wait > MAX_RATE_LIMIT_WAIT {
      wait := MAX_RATE_LIMIT_WAIT;
    }
  }

  /** Exactly when a positive Retry-After is honoured, whatever the other headers say: the
      client waits what the server asked for, held to the ceiling, if and only if its length
      fits a Duration, or wraps to at least the ceiling, or wraps to nothing positive while a
      reset at least a ceiling away stands in for it. */
  lemma RetryAfterHonoured(h: Headers, now: int)
    requires h.Valid() && h.retryAfter.Value? && h.retryAfter.n > 0
    ensures var asked := Seconds(h.retryAfter.n);
            LimitedWait(h, now) == Clamp(asked) <==>
            || asked <= MAX_INT64
            || Wrap(asked) >= MAX_RATE_LIMIT_WAIT
            || (Wrap(asked) <= 0 && h.reset.Value? && UntilReset(h.reset.n, now) >= MAX_RATE_LIMIT_WAIT)
  {
    assert Seconds(h.retryAfter.n) >= SECOND;
  }

  /** A Retry-After of 292 years and some overflows to a negative Duration.  With no readable
      X-RateLimit-Reset, or with one at most a second ahead, the wait is then one second
      where the ceiling was meant. */
  lemma HugeRetryAfterRetriesAtOnce(none: bool, reset: Header, now: int)
    requires reset.Value? ==> UntilReset(reset.n, now) <= SECOND
    ensures LimitedWait(Headers(Value(9_223_372_037), none, reset), now) == SECOND
    ensures Clamp(Seconds(9_223_372_037)) == MAX_RATE_LIMIT_WAIT
  {
    assert Wrap(Seconds(9_223_372_037)) == Seconds(9_223_372_037) - 0x1_0000_0000_0000_0000;
  }

  /** Exactly when the reset is honoured once it is what decides: the client waits until one
      second past the reset, held to the bounds, if and only if the reset instant survives
      being stored, that is, lies no more than a 64-bit count of seconds past the origin. */
  lemma ResetHonoured(h: Headers, now: int)
    requires h.Valid() && !RetryAfterUsed(h) && h.reset.Value? && IsInt64(now)
    ensures LimitedWait(h, now) == Clamp(Seconds(h.reset.n + 1) - now) <==> h.reset.n <= MAX_INT64 - UNIX_TO_INTERNAL
  {
  }

  /** The farthest reset there is wraps into the far past: one second where the ceiling was meant. */
  lemma FarResetRetriesAtOnce(none: bool, now: int)
    requires IsInt64(now)
    ensures LimitedWait(Headers(Missing, none, Value(MAX_INT64)), now) == SECOND
    ensures Clamp(Seconds(MAX_INT64 + 1) - now) == MAX_RATE_LIMIT_WAIT
  {
  }

  /** What the headers ask for, counted in unbounded numbers: a positive Retry-After, else the
      reset, else a prompt retry or the polite floor; held to the bounds. */
  function MeantWait(h: Headers, now: int): (wait: int)
    ensures SECOND <= wait <= MAX_RATE_LIMIT_WAIT
  {
    if h.retryAfter.Value? && h.retryAfter.n > 0 then Clamp(Seconds(h.retryAfter.n))
    else if h.reset.Value? then Clamp(Seconds(h.reset.n + 1) - now)
    else if h.retryAfter.Value? && h.retryAfter.n == 0 then SECOND
    else SECONDARY_FLOOR
  }

  /** Exactly when the client waits what the headers ask for, over all headers.  A positive
      Retry-After must fit a Duration or wrap to at least the ceiling, or wrap to nothing
      positive with a storable reset a ceiling away; without one, the reset must be storable. */
  lemma WaitIsMeantIff(h: Headers, now: int)
    requires h.Valid() && IsInt64(now)
    ensures var asked := if h.retryAfter.Value? then Seconds(h.retryAfter.n) else 0;
            LimitedWait(h, now) == MeantWait(h, now) <==>
            if asked > 0 then
              || asked <= MAX_INT64
              || Wrap(asked) >= MAX_RATE_LIMIT_WAIT
              || (Wrap(asked) <= 0 && h.reset.Value? && h.reset.n <= MAX_INT64 - UNIX_TO_INTERNAL &&
                  Seconds(h.reset.n + 1) - now >= MAX_RATE_LIMIT_WAIT)
            else h.reset.Value? ==> h.reset.n <= MAX_INT64 - UNIX_TO_INTERNAL
  {
    if h.retryAfter.Value? && h.retryAfter.n > 0 {
      RetryAfterHonoured(h, now);
      if h.reset.Value? {
        UntilResetAtCeiling(h.reset.n, now);
      }
    } else if h.reset.Value? {
      ResetHonoured(h, now);
    }
  }

  /** A reset keeps the client waiting a ceiling or more exactly when it is storable and that far off. */
  lemma UntilResetAtCeiling(epoch: int, now: int)
    requires IsInt64(epoch) && IsInt64(now)
    ensures UntilReset(epoch, now) >= MAX_RATE_LIMIT_WAIT <==>
            epoch <= MAX_INT64 - UNIX_TO_INTERNAL && Seconds(epoch + 1) - now >= MAX_RATE_LIMIT_WAIT
  {
  }

  // ---------- the loop ----------

  datatype Reply =
    | TransportError
    | RedirectRefused
    | ReadError
    | Response(status: int, headers: Headers)

  predicate IsRateLimited(status: int, h: Headers) {
    status == 429 || (status == 403 && (!h.retryAfter.Missing? || h.noneRemaining))
  }

  datatype Kind = Success | Limited | Retryable | Permanent

  function KindOf(r: Reply): Kind {
    match r
    case TransportError => Retryable
    case RedirectRefused => Permanent
    case ReadError => Retryable
    case Response(status, h) =>
      if status == 200 then Success
      else if IsRateLimited(status, h) then Limited
      else if status >= 500 then Retryable
      else Permanent
  }

  /** How many of the first n are of kind k. */
  function Count(kind: nat -> Kind, k: Kind, n: nat): (c: nat)
    ensures c <= n
  {
    if n == 0 then 0 else Count(kind, k, n - 1) + if kind(n - 1) == k then 1 else 0
  }

  /** Only failures that are retried, when the two counts add up. */
  lemma {:induction false} CountsAddUp(kind: nat -> Kind, n: nat)
    ensures Count(kind, Limited, n) + Count(kind, Retryable, n) <= n
    ensures n > 0 && Count(kind, Limited, n) + Count(kind, Retryable, n) == n ==>
              && Count(kind, Limited, n - 1) + Count(kind, Retryable, n - 1) == n - 1
              && (kind(n - 1).Limited? || kind(n - 1).Retryable?)
  {
    if n > 0 {
      CountsAddUp(kind, n - 1);
    }
  }

  function Pow2(n: nat): (p: nat)
    ensures p >= 1
  {
    if n == 0 then 1 else 2 * Pow2(n - 1)
  }

  /** ghBaseRetryWait << attempt, capped; a shift out of the word counts as too long. */
  function BackoffWait(attempt: nat): int {
    var wait := Wrap(Seconds(Pow2(attempt)));
    if wait > MAX_RETRY_WAIT || wait <= 0 then MAX_RETRY_WAIT else wait
  }

  lemma BackoffDoubles(attempt: nat)
    requires attempt < MAX_RETRIES
    ensures BackoffWait(attempt) == Seconds(Pow2(attempt))
  {
    assert Pow2(0) == 1 && Pow2(1) == 2 && Pow2(2) == 4 && Pow2(3) == 8 && Pow2(4) == 16 && Pow2(5) == 32;
  }

  datatype Outcome = Body | GaveUp | StillLimited | Refused | Cancelled

  /** The first n replies keep the loop going: each is a failure to retry or a rate limit, and
      neither budget is used up. */
  predicate GoesOn(kind: nat -> Kind, n: nat) {
    && Count(kind, Limited, n) + Count(kind, Retryable, n) == n
    && Count(kind, Retryable, n) < MAX_RETRIES
    && Count(kind, Limited, n) <= MAX_RATE_LIMIT_WAITS
  }

  ghost predicate ValidReplies(reply: nat -> Reply) {
    forall i: nat :: reply(i).Response? ==> reply(i).headers.Valid()
  }

  /** The wait a reply causes that keeps the loop going, after `errors` earlier failures. */
  function WaitFor(r: Reply, errors: nat, now: int): int {
    match KindOf(r)
    case Limited => LimitedWait(r.headers, now)
    case Retryable => BackoffWait(errors)
    case _ => 0
  }

  function Kinds(reply: nat -> Reply): nat -> Kind {
    (i: nat) => KindOf(reply(i))
  }

  function Waits(reply: nat -> Reply, now: nat -> int): nat -> int {
    (i: nat) => WaitFor(reply(i), Count(Kinds(reply), Retryable, i), now(i))
  }

  function Sum(wait: nat -> int, n: nat): int {
    if n == 0 then 0 else Sum(wait, n - 1) + wait(n - 1)
  }

  /** The error backoff before the n-th retry, in all. */
  function Backoffs(n: nat): int {
    if n == 0 then 0 else Backoffs(n - 1) + Seconds(Pow2(n - 1))
  }

  /** That many waits at the rate-limit ceiling. */
  function Ceilings(n: nat): int {
    if n == 0 then 0 else Ceilings(n - 1) + MAX_RATE_LIMIT_WAIT
  }

  lemma OneWaitBounded(r: Reply, errors: nat, limits: nat, now: int)
    requires errors < MAX_RETRIES
    ensures KindOf(r).Retryable? ==> WaitFor(r, errors, now) == Backoffs(errors + 1) - Backoffs(errors)
    ensures KindOf(r).Limited? ==> 0 <= WaitFor(r, errors, now) <= Ceilings(limits + 1) - Ceilings(limits)
  {
    if KindOf(r).Retryable? {
      BackoffDoubles(errors);
    }
  }

  /** The i-th wait fits the two budgets: spent(e) is what e retries take, allowed(l) the most
      l rate limits may. */
  predicate FitsAt(kind: nat -> Kind, wait: nat -> int, spent: nat -> int, allowed: nat -> int, i: nat) {
    var errors, limits := Count(kind, Retryable, i), Count(kind, Limited, i);
    errors < MAX_RETRIES ==>
      && (kind(i).Retryable? ==> wait(i) == spent(errors + 1) - spent(errors))
      && (kind(i).Limited? ==> 0 <= wait(i) <= allowed(limits + 1) - allowed(limits))
  }

  ghost predicate EachFits(kind: nat -> Kind, wait: nat -> int, spent: nat -> int, allowed: nat -> int) {
    forall i: nat :: FitsAt(kind, wait, spent, allowed, i)
  }

  /** The first n waits: what the retries among them spent, and at most what the limits allow. */
  predicate Bounded(kind: nat -> Kind, wait: nat -> int, spent: nat -> int, allowed: nat -> int, n: nat) {
    0 <= Sum(wait, n) - (spent(Count(kind, Retryable, n)) - spent(0)) <= allowed(Count(kind, Limited, n)) - allowed(0)
  }

  lemma OneMoreWait(kind: nat -> Kind, wait: nat -> int, spent: nat -> int, allowed: nat -> int, n: nat)
    requires Bounded(kind, wait, spent, allowed, n) && FitsAt(kind, wait, spent, allowed, n)
    requires Count(kind, Retryable, n) < MAX_RETRIES && (kind(n).Limited? || kind(n).Retryable?)
    ensures Bounded(kind, wait, spent, allowed, n + 1)
  {
    if kind(n).Retryable? {
      assert Count(kind, Retryable, n + 1) == Count(kind, Retryable, n) + 1;
      assert Count(kind, Limited, n + 1) == Count(kind, Limited, n);
    } else {
      assert Count(kind, Retryable, n + 1) == Count(kind, Retryable, n);
      assert Count(kind, Limited, n + 1) == Count(kind, Limited, n) + 1;
    }
  }

  /** Error waits add up to what was spent; rate-limit waits are bounded one by one. */
  lemma {:induction false} WaitsBounded(kind: nat -> Kind, wait: nat -> int, spent: nat -> int, allowed: nat -> int,
                                        n: nat)
    requires GoesOn(kind, n) && EachFits(kind, wait, spent, allowed)
    ensures Bounded(kind, wait, spent, allowed, n)
  {
    if n > 0 {
      CountsAddUp(kind, n);
      WaitsBounded(kind, wait, spent, allowed, n - 1);
      assert FitsAt(kind, wait, spent, allowed, n - 1);
      OneMoreWait(kind, wait, spent, allowed, n - 1);
    }
  }

  lemma BudgetsBounded(errors: nat, limits: nat)
    requires errors < MAX_RETRIES && limits <= MAX_RATE_LIMIT_WAITS
    ensures 0 <= Backoffs(errors) <= 31 * SECOND && Ceilings(limits) <= MAX_RATE_LIMIT_WAITS * MAX_RATE_LIMIT_WAIT
  {
    assert Pow2(0) == 1 && Pow2(1) == 2 && Pow2(2) == 4 && Pow2(3) == 8 && Pow2(4) == 16;
    assert Backoffs(0) == 0 && Backoffs(1) == SECOND && Backoffs(2) == 3 * SECOND && Backoffs(3) == 7 * SECOND;
    assert Backoffs(4) == 15 * SECOND && Backoffs(5) == 31 * SECOND;
    assert Ceilings(1) == MAX_RATE_LIMIT_WAIT && Ceilings(2) == 2 * MAX_RATE_LIMIT_WAIT;
    assert Ceilings(3) == 3 * MAX_RATE_LIMIT_WAIT && Ceilings(4) == 4 * MAX_RATE_LIMIT_WAIT;
  }

  ghost predicate WithinBudgets(kind: nat -> Kind, wait: nat -> int) {
    EachFits(kind, wait, Backoffs, Ceilings)
  }

  /** At most ten requests, and at most 31 seconds of error backoff plus four rate-limit
      ceilings of waiting. */
  lemma GoesOnBounded(kind: nat -> Kind, wait: nat -> int, n: nat)
    requires GoesOn(kind, n) && WithinBudgets(kind, wait)
    ensures n < MAX_RETRIES + MAX_RATE_LIMIT_WAITS
    ensures 0 <= Sum(wait, n) <= 31 * SECOND + MAX_RATE_LIMIT_WAITS * MAX_RATE_LIMIT_WAIT
  {
    WaitsBounded(kind, wait, Backoffs, Ceilings, n);
    BudgetsBounded(Count(kind, Retryable, n), Count(kind, Limited, n));
  }

  /** However the server answers, and whatever its headers say. */
  lemma RepliesBounded(reply: nat -> Reply, now: nat -> int)
    ensures WithinBudgets(Kinds(reply), Waits(reply, now))
  {
    var kind, wait := Kinds(reply), Waits(reply, now);
    forall i: nat
      ensures FitsAt(kind, wait, Backoffs, Ceilings, i)
    {
      if Count(kind, Retryable, i) < MAX_RETRIES {
        OneWaitBounded(reply(i), Count(kind, Retryable, i), Count(kind, Limited, i), now(i));
      }
    }
  }

  /** How the loop ends: all replies before the last kept it going, each with its wait; the last
      is a success, a refusal or the one over a budget, or the wait after it was cut short. */
  predicate Ends(kind: nat -> Kind, wait: nat -> int, cancelAt: Option<nat>, outcome: Outcome, last: nat, waited: int) {
    && GoesOn(kind, last) && waited == Sum(wait, last) && (cancelAt.Some? ==> last <= cancelAt.value)
    && (outcome.Body? <==> kind(last).Success?)
    && (outcome.Refused? <==> kind(last).Permanent?)
    && (outcome.GaveUp? <==> Count(kind, Retryable, last + 1) == MAX_RETRIES)
    && (outcome.StillLimited? <==> Count(kind, Limited, last + 1) == MAX_RATE_LIMIT_WAITS + 1)
    && (outcome.Cancelled? <==> cancelAt == Some(last) && GoesOn(kind, last + 1))
  }

  /** Before request n: what was counted and waited so far. */
  predicate Standing(kind: nat -> Kind, wait: nat -> int, cancelAt: Option<nat>,
                     n: nat, errors: nat, limits: nat, waited: int) {
    && GoesOn(kind, n) && errors == Count(kind, Retryable, n) && limits == Count(kind, Limited, n)
    && waited == Sum(wait, n) && (cancelAt.Some? ==> n <= cancelAt.value)
  }

  /** Each way the loop can go on from there. */
  lemma Answered(kind: nat -> Kind, wait: nat -> int, cancelAt: Option<nat>, n: nat, errors: nat, limits: nat,
                 waited: int)
    requires Standing(kind, wait, cancelAt, n, errors, limits, waited)
    ensures match kind(n)
            case Success => Ends(kind, wait, cancelAt, Body, n, waited)
            case Permanent => Ends(kind, wait, cancelAt, Refused, n, waited)
            case Limited =>
              if limits + 1 > MAX_RATE_LIMIT_WAITS then Ends(kind, wait, cancelAt, StillLimited, n, waited)
              else if cancelAt == Some(n) then Ends(kind, wait, cancelAt, Cancelled, n, waited)
              else Standing(kind, wait, cancelAt, n + 1, errors, limits + 1, waited + wait(n))
            case Retryable =>
              if errors + 1 >= MAX_RETRIES then Ends(kind, wait, cancelAt, GaveUp, n, waited)
              else if cancelAt == Some(n) then Ends(kind, wait, cancelAt, Cancelled, n, waited)
              else Standing(kind, wait, cancelAt, n + 1, errors + 1, limits, waited + wait(n))
  {
  }

  /** kind and wait say how the i-th reply is taken and how long it makes the client wait. */
  predicate AnswersAt(reply: nat -> Reply, now: nat -> int, kind: nat -> Kind, wait: nat -> int, i: nat) {
    && kind(i) == KindOf(reply(i)) && wait(i) == WaitFor(reply(i), Count(kind, Retryable, i), now(i))
    && (reply(i).Response? ==> reply(i).headers.Valid())
  }

  ghost predicate Answers(reply: nat -> Reply, now: nat -> int, kind: nat -> Kind, wait: nat -> int) {
    forall i: nat :: AnswersAt(reply, now, kind, wait, i)
  }

  lemma RepliesAnswer(reply: nat -> Reply, now: nat -> int)
    requires ValidReplies(reply)
    ensures Answers(reply, now, Kinds(reply), Waits(reply, now))
  {
    forall i: nat
      ensures AnswersAt(reply, now, Kinds(reply), Waits(reply, now), i)
    {
    }
  }

  lemma Classified(reply: nat -> Reply, now: nat -> int, kind: nat -> Kind, wait: nat -> int, i: nat)
    requires Answers(reply, now, kind, wait)
    ensures kind(i) == KindOf(reply(i))
  {
    assert AnswersAt(reply, now, kind, wait, i);
  }

  /** The pause after the i-th reply. */
  method NextWait(reply: nat -> Reply, now: nat -> int, i: nat, errors: nat, ghost kind: nat -> Kind,
                  ghost wait: nat -> int)
    returns (pause: int)
    requires Answers(reply, now, kind, wait) && errors == Count(kind, Retryable, i)
    requires kind(i).Limited? || kind(i).Retryable?
    ensures pause == wait(i)
  {
    assert AnswersAt(reply, now, kind, wait, i);
    var r := reply(i);
    if KindOf(r).Limited? {
      pause := RateLimitWait(r.headers, now(i));
    } else {
      pause := BackoffWait(errors);
    }
  }

  /** The loop of `do`. */
  method Loop(reply: nat -> Reply, now: nat -> int, cancelAt: Option<nat>, ghost kind: nat -> Kind,
              ghost wait: nat -> int)
    returns (outcome: Outcome, last: nat, waited: int)
    requires Answers(reply, now, kind, wait) && WithinBudgets(kind, wait)
    ensures last < MAX_RETRIES + MAX_RATE_LIMIT_WAITS
    ensures 0 <= waited <= 31 * SECOND + MAX_RATE_LIMIT_WAITS * MAX_RATE_LIMIT_WAIT
    ensures Ends(kind, wait, cancelAt, outcome, last, waited)
  {
    var errAttempts, rlWaits := 0, 0;
    last, waited := 0, 0;
    while true
      invariant Standing(kind, wait, cancelAt, last, errAttempts, rlWaits, waited)
      decreases MAX_RETRIES + MAX_RATE_LIMIT_WAITS - last
    {
      GoesOnBounded(kind, wait, last);
      Classified(reply, now, kind, wait, last);
      Answered(kind, wait, cancelAt, last, errAttempts, rlWaits, waited);
      var r, failures := reply(last), errAttempts;
      match KindOf(r) {
        case Success =>
          return Body, last, waited;
        case Permanent =>
          return Refused, last, waited;
        case Limited =>
          rlWaits := rlWaits + 1;
          if rlWaits > MAX_RATE_LIMIT_WAITS {
            return StillLimited, last, waited;
          }
        case Retryable =>
          errAttempts := errAttempts + 1;
          if errAttempts >= MAX_RETRIES {
            return GaveUp, last, waited;
          }
      }
      if cancelAt == Some(last) {
        return Cancelled, last, waited;
      }
      var pause := NextWait(reply, now, last, failures, kind, wait);
      waited := waited + pause;
      last := last + 1;
    }
  }

  // ---------- the replies themselves ----------

  /** Over a rate limit: a 429, or a 403 that carries a Retry-After or says nothing remains. */
  predicate Throttled(r: Reply) {
    r.Response? &&
    (r.status == 429 || (r.status == 403 && (r.headers.retryAfter != Missing || r.headers.noneRemaining)))
  }

  /** Nothing came back, or a server error did. */
  predicate Broken(r: Reply) {
    r == TransportError || r == ReadError || (r.Response? && r.status >= 500)
  }

  function Throttles(reply: nat -> Reply): nat -> bool {
    (i: nat) => Throttled(reply(i))
  }

  function Breaks(reply: nat -> Reply): nat -> bool {
    (i: nat) => Broken(reply(i))
  }

  lemma KindsMean(r: Reply)
    ensures KindOf(r).Success? <==> r.Response? && r.status == 200
    ensures KindOf(r).Limited? <==> Throttled(r)
    ensures KindOf(r).Retryable? <==> Broken(r)
  {
  }

  lemma {:induction false} CountsMean(reply: nat -> Reply, n: nat)
    ensures Count(Kinds(reply), Limited, n) == CountTrue(Throttles(reply), n)
    ensures Count(Kinds(reply), Retryable, n) == CountTrue(Breaks(reply), n)
  {
    if n > 0 {
      CountsMean(reply, n - 1);
      KindsMean(reply(n - 1));
    }
  }

  /** The i-th reply makes the client wait what its headers come to if it is throttled, and a
      second doubled for each broken reply before it if it is broken. */
  predicate WaitsAsReplied(reply: nat -> Reply, now: nat -> int, i: nat) {
    var pause := Waits(reply, now)(i);
    && (Throttled(reply(i)) ==> pause == LimitedWait(reply(i).headers, now(i)))
    && (Broken(reply(i)) && CountTrue(Breaks(reply), i) < MAX_RETRIES ==>
          pause == Seconds(Pow2(CountTrue(Breaks(reply), i))))
  }

  /** How the loop ends, told by the replies: all before the last were throttled or broken; the
      last is a 200, or neither of these, or the fifth throttled or sixth broken one, or the
      client was cancelled waiting after it. */
  ghost predicate EndsAsReplied(reply: nat -> Reply, cancelAt: Option<nat>, outcome: Outcome, last: nat) {
    var throttles, breaks := CountTrue(Throttles(reply), last), CountTrue(Breaks(reply), last);
    && (forall i: nat :: i < last ==> Throttled(reply(i)) || Broken(reply(i)))
    && throttles <= 4 && breaks <= 5
    && (outcome.StillLimited? <==> Throttled(reply(last)) && throttles == 4)
    && (outcome.GaveUp? <==> Broken(reply(last)) && breaks == 5)
    && (outcome.Cancelled? <==>
          cancelAt == Some(last) &&
          ((Throttled(reply(last)) && throttles < 4) || (Broken(reply(last)) && breaks < 5)))
  }

  lemma {:induction false} EarlierKinds(kind: nat -> Kind, n: nat, i: nat)
    requires Count(kind, Limited, n) + Count(kind, Retryable, n) == n && i < n
    ensures kind(i).Limited? || kind(i).Retryable?
  {
    CountsAddUp(kind, n);
    if i < n - 1 {
      EarlierKinds(kind, n - 1, i);
    }
  }

  lemma EndsMeans(reply: nat -> Reply, wait: nat -> int, cancelAt: Option<nat>, outcome: Outcome, last: nat,
                  waited: int)
    requires Ends(Kinds(reply), wait, cancelAt, outcome, last, waited)
    ensures EndsAsReplied(reply, cancelAt, outcome, last)
  {
    CountsMean(reply, last);
    CountsMean(reply, last + 1);
    KindsMean(reply(last));
    forall i: nat | i < last
      ensures Throttled(reply(i)) || Broken(reply(i))
    {
      EarlierKinds(Kinds(reply), last, i);
      KindsMean(reply(i));
    }
  }

  lemma WaitsMean(reply: nat -> Reply, now: nat -> int, i: nat)
    ensures WaitsAsReplied(reply, now, i)
  {
    KindsMean(reply(i));
    CountsMean(reply, i);
    if CountTrue(Breaks(reply), i) < MAX_RETRIES {
      BackoffDoubles(CountTrue(Breaks(reply), i));
    }
  }

  /** `do`.  reply gives the answer to each request and now the clock when it arrives; the
      context is cancelled in the wait after request cancelAt, if any.  last is the request it
      ends at, counted from zero: there were last + 1. */
  method Do(reply: nat -> Reply, now: nat -> int, cancelAt: Option<nat>)
    returns (outcome: Outcome, last: nat, waited: int)
    requires ValidReplies(reply)
    ensures last < MAX_RETRIES + MAX_RATE_LIMIT_WAITS
    ensures 0 <= waited <= 31 * SECOND + MAX_RATE_LIMIT_WAITS * MAX_RATE_LIMIT_WAIT
    ensures Ends(Kinds(reply), Waits(reply, now), cancelAt, outcome, last, waited)
    ensures EndsAsReplied(reply, cancelAt, outcome, last) && waited == Sum(Waits(reply, now), last)
    ensures forall i: nat :: WaitsAsReplied(reply, now, i)
    ensures outcome.Body? <==> reply(last).Response? && reply(last).status == 200
    ensures outcome.Refused? <==>
            match reply(last)
            case TransportError => false
            case ReadError => false
            case RedirectRefused => true
            case Response(status, h) =>
              status < 500 && status != 200 && status != 429 &&
              !(status == 403 && (h.retryAfter != Missing || h.noneRemaining))
  {
    RepliesBounded(reply, now);
    RepliesAnswer(reply, now);
    outcome, last, waited := Loop(reply, now, cancelAt, Kinds(reply), Waits(reply, now));
    EndsMeans(reply, Waits(reply, now), cancelAt, outcome, last, waited);
    KindsMean(reply(last));
    forall i: nat {
      WaitsMean(reply, now, i);
    }
  }
}
