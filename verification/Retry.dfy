/** The transport retry engine (`llm/retry.py`, `llm/contracts.py`). Delays are reals; what the operation does on each
    attempt and what the random source yields are arbitrary functions. */
module Retry {
  import opened Common

  datatype Classification = Retryable | RateLimit | FatalAuth | FatalCapability | FatalRequest | ContextLimit | Unknown

  /** What the random source yields. */
  type Fraction = x: real | 0.0 <= x < 1.0

  datatype Policy = Policy(
    maxAttempts: int, initialDelay: real, maxDelay: real, multiplier: real, jitter: bool, retryOn: seq<int>)

  /** What the policy's own validator accepts. */
  predicate Valid(p: Policy) {
    p.maxAttempts >= 1 && 0.0 <= p.initialDelay <= p.maxDelay && p.multiplier >= 1.0
  }

  datatype Kind = ProviderError | RetryExhausted | AuthError | CapabilityError | ContextLimitError | RequestError

  /** A provider's own error carries its kind, classification and records; any other exception has perhaps a status
      code, and `guess` is what the reading of its name and message yields. */
  datatype Failure =
    | Typed(kind: Kind, classification: Classification, ownRecords: seq<Record>, timedOut: bool)
    | Plain(status: Option<int>, guess: Classification, timedOut: bool)

  datatype Outcome = Succeeded(response: string) | Failed(failure: Failure)

  datatype Record = Record(attempt: int, classification: Classification, delay: real)

  datatype Final =
    | Returned(response: string, records: seq<Record>)
    | Raised(kind: Kind, classification: Classification, records: seq<Record>)

  /** `classify_error`. */
  function Classify(p: Policy, f: Failure): Classification {
    match f
    case Typed(_, c, _, _) => c
    case Plain(None, guess, _) => guess
    case Plain(Some(code), guess, _) =>
      if code == 401 || code == 403 then FatalAuth
      else if code == 429 then RateLimit
      else if code in p.retryOn then Retryable
      else if code == 400 then FatalRequest
      else if code == 413 then ContextLimit
      else guess
  }

  predicate CanRetry(c: Classification) { c.Retryable? || c.RateLimit? }

  /** `_raise_final`. */
  function RaiseFinal(f: Failure, c: Classification, records: seq<Record>): Final {
    match f
    case Typed(kind, own, ownRecords, _) =>
      if records != [] && ownRecords == [] then Raised(ProviderError, own, records) else Raised(kind, own, ownRecords)
    case Plain(_, _, _) =>
      Raised(match c
             case Retryable => RetryExhausted
             case RateLimit => RetryExhausted
             case FatalAuth => AuthError
             case FatalCapability => CapabilityError
             case ContextLimit => ContextLimitError
             case FatalRequest => RequestError
             case Unknown => ProviderError,
             c, records)
  }

  /** What the last attempt makes of the call. */
  function Conclude(p: Policy, last: Outcome, records: seq<Record>): Final {
    match last
    case Succeeded(response) => Returned(response, records)
    case Failed(f) => RaiseFinal(f, Classify(p, f), records)
  }

  /** What a status code means: 401 and 403 are fatal for the credentials, 429 is a rate limit, the policy's own list is
      retryable, then 400 is a bad request and 413 too long a context; anything else is read off name and message. A
      provider's own error speaks for itself. */
  lemma StatusMeans(p: Policy, code: int, guess: Classification, timedOut: bool)
    ensures var c := Classify(p, Plain(Some(code), guess, timedOut));
            && (code in {401, 403} ==> c == FatalAuth)
            && (code == 429 ==> c == RateLimit)
            && (code !in {401, 403, 429} && code in p.retryOn ==> c == Retryable)
            && (code == 400 && code !in p.retryOn ==> c == FatalRequest)
            && (code == 413 && code !in p.retryOn ==> c == ContextLimit)
            && (code !in {400, 401, 403, 413, 429} && code !in p.retryOn ==> c == guess)
    ensures Classify(p, Plain(None, guess, timedOut)) == guess
    ensures forall kind, c, records :: Classify(p, Typed(kind, c, records, timedOut)) == c
  {
  }

  /** Every kind a plain failure can end in. */
  lemma FinalKinds(status: Option<int>, guess: Classification, timedOut: bool, records: seq<Record>)
    ensures var f := Plain(status, guess, timedOut);
            && RaiseFinal(f, Retryable, records) == Raised(RetryExhausted, Retryable, records)
            && RaiseFinal(f, RateLimit, records) == Raised(RetryExhausted, RateLimit, records)
            && RaiseFinal(f, FatalAuth, records) == Raised(AuthError, FatalAuth, records)
            && RaiseFinal(f, FatalCapability, records) == Raised(CapabilityError, FatalCapability, records)
            && RaiseFinal(f, ContextLimit, records) == Raised(ContextLimitError, ContextLimit, records)
            && RaiseFinal(f, FatalRequest, records) == Raised(RequestError, FatalRequest, records)
            && RaiseFinal(f, Unknown, records) == Raised(ProviderError, Unknown, records)
  {
  }

  // ---- Delays ----

  function Pow(x: real, n: nat): real { if n == 0 then 1.0 else x * Pow(x, n - 1) }

  /** The delay before jitter. */
  function Backoff(p: Policy, attempt: nat): real
    requires attempt >= 1
  {
    var d := p.initialDelay * Pow(p.multiplier, attempt - 1);
    if d <= p.maxDelay then d else p.maxDelay
  }

  function Delay(p: Policy, attempt: nat, random: Fraction): real
    requires attempt >= 1
  {
    var d := Backoff(p, attempt);
    if p.jitter && d > 0.0 then d * (0.5 + random) else d
  }

  lemma {:induction false} PowGrows(x: real, i: nat, j: nat)
    requires x >= 1.0 && i <= j
    ensures 1.0 <= Pow(x, i) <= Pow(x, j)
  {
    if i < j {
      PowGrows(x, i, j - 1);
      assert x * Pow(x, j - 1) >= 1.0 * Pow(x, j - 1);
    } else if i > 0 {
      PowGrows(x, i - 1, i - 1);
      assert x * Pow(x, i - 1) >= 1.0 * Pow(x, i - 1);
    }
  }

  /** Delays before jitter start at the initial one, never decrease and never exceed the cap. */
  lemma BackoffGrows(p: Policy, i: nat, j: nat)
    requires Valid(p) && 1 <= i <= j
    ensures Backoff(p, 1) == p.initialDelay
    ensures 0.0 <= Backoff(p, i) <= Backoff(p, j) <= p.maxDelay
  {
    PowGrows(p.multiplier, i - 1, j - 1);
    var a, b := Pow(p.multiplier, i - 1), Pow(p.multiplier, j - 1);
    assert p.initialDelay * (b - a) >= 0.0;
    assert p.initialDelay * a >= 0.0;
  }

  /** Each delay before jitter is the one before times the multiplier, up to the cap. */
  lemma BackoffStep(p: Policy, n: nat)
    requires Valid(p) && n >= 1
    ensures Backoff(p, n + 1) ==
            if Backoff(p, n) * p.multiplier <= p.maxDelay then Backoff(p, n) * p.multiplier else p.maxDelay
  {
    var power, d := Pow(p.multiplier, n - 1), p.initialDelay * Pow(p.multiplier, n - 1);
    PowGrows(p.multiplier, 0, n - 1);
    Product(p.initialDelay, power);
    assert p.initialDelay * (p.multiplier * power) == d * p.multiplier;
    Product(d, p.multiplier - 1.0);
    assert d * p.multiplier == d * (p.multiplier - 1.0) + d;
    if d > p.maxDelay {
      Product(p.maxDelay, p.multiplier - 1.0);
      assert p.maxDelay * p.multiplier == p.maxDelay * (p.multiplier - 1.0) + p.maxDelay;
    }
  }

  /** Jitter scales a delay by something between a half and one and a half; without it nothing changes. */
  lemma JitterScales(p: Policy, n: nat, random: Fraction)
    requires Valid(p) && n >= 1
    ensures !p.jitter ==> Delay(p, n, random) == Backoff(p, n)
    ensures p.jitter ==> 0.5 * Backoff(p, n) <= Delay(p, n, random) <= 1.5 * Backoff(p, n)
    ensures p.jitter ==> Delay(p, n, random) == Backoff(p, n) * 0.5 + Backoff(p, n) * random
  {
    BackoffGrows(p, n, n);
    var d := Backoff(p, n);
    Product(d, random);
    Product(d, 1.0 - random);
    assert d * (0.5 + random) == d * 0.5 + d * random;
    assert d * (1.0 - random) == d - d * random;
  }

  lemma Product(x: real, y: real)
    requires x >= 0.0 && y >= 0.0
    ensures x * y >= 0.0
  {
  }

  lemma DelayBounded(p: Policy, attempt: nat, random: Fraction)
    requires Valid(p) && attempt >= 1
    ensures 0.0 <= Delay(p, attempt, random) <= 1.5 * p.maxDelay
    ensures !p.jitter ==> Delay(p, attempt, random) <= p.maxDelay
  {
    BackoffGrows(p, attempt, attempt);
    var d := Backoff(p, attempt);
    Product(d, 1.0 - random);
    Product(d, 0.5 + random);
    assert d * (0.5 + random) + d * (1.0 - random) == d * 1.5;
  }

  // ---- The loop ----

  /** Attempt `n` is the last: it succeeded, hit the caller's deadline, cannot be retried, or exhausts the policy. */
  predicate Stops(p: Policy, hasDeadline: bool, outcomes: nat -> Outcome, n: nat) {
    || outcomes(n).Succeeded?
    || (hasDeadline && outcomes(n).failure.timedOut)
    || !CanRetry(Classify(p, outcomes(n).failure))
    || n >= p.maxAttempts
  }

  /** Spelled out: an attempt is not the last iff it failed retryably, within the policy, and no deadline made its
      timeout final. */
  lemma GoesOnIff(p: Policy, hasDeadline: bool, outcomes: nat -> Outcome, n: nat)
    ensures !Stops(p, hasDeadline, outcomes, n) <==>
            && outcomes(n).Failed? && n < p.maxAttempts
            && (Classify(p, outcomes(n).failure) == Retryable || Classify(p, outcomes(n).failure) == RateLimit)
            && !(hasDeadline && outcomes(n).failure.timedOut)
  {
  }

  function Slept(records: seq<Record>): real {
    if records == [] then 0.0 else Slept(records[..|records| - 1]) + records[|records| - 1].delay
  }

  /** One and a half times the largest delay, `n` times over. */
  function Span(p: Policy, n: nat): real { if n == 0 then 0.0 else Span(p, n - 1) + 1.5 * p.maxDelay }

  lemma {:induction false} SpanGrows(p: Policy, i: nat, j: nat)
    requires Valid(p) && i <= j
    ensures 0.0 <= Span(p, i) <= Span(p, j)
  {
    if i < j {
      SpanGrows(p, i, j - 1);
    } else if i > 0 {
      SpanGrows(p, i - 1, i - 1);
    }
  }

  lemma {:induction false} SpanIs(p: Policy, n: nat)
    ensures Span(p, n) == 1.5 * p.maxDelay * n as real
  {
    if n > 0 {
      SpanIs(p, n - 1);
      assert n as real == (n - 1) as real + 1.0;
      assert 1.5 * p.maxDelay * ((n - 1) as real + 1.0) == 1.5 * p.maxDelay * (n - 1) as real + 1.5 * p.maxDelay;
    }
  }

  /** The record written after attempt `n`. */
  function RecordOf(p: Policy, outcomes: nat -> Outcome, random: nat -> Fraction, n: nat): Record
    requires n >= 1 && outcomes(n).Failed?
  {
    Record(n, Classify(p, outcomes(n).failure), Delay(p, n, random(n)))
  }

  /** The records are those of attempts 1, 2, ... in order. */
  ghost predicate Logged(p: Policy, outcomes: nat -> Outcome, random: nat -> Fraction, records: seq<Record>) {
    records != [] ==>
      var n := |records|;
      && Logged(p, outcomes, random, records[..n - 1])
      && outcomes(n).Failed? && records[n - 1] == RecordOf(p, outcomes, random, n)
  }

  /** Record `i` is that of attempt `i + 1`, numbered so and with that attempt's delay. */
  lemma {:induction false} LoggedAt(p: Policy, outcomes: nat -> Outcome, random: nat -> Fraction,
                                    records: seq<Record>, i: nat)
    requires Logged(p, outcomes, random, records) && i < |records|
    ensures outcomes(i + 1).Failed? && records[i] == RecordOf(p, outcomes, random, i + 1)
  {
    if i < |records| - 1 {
      LoggedAt(p, outcomes, random, records[..|records| - 1], i);
    }
  }

  /** Record the failed attempt and sleep. */
  method Pause(p: Policy, outcomes: nat -> Outcome, random: nat -> Fraction, attempt: nat, records: seq<Record>,
               slept: real)
    returns (logged: seq<Record>, total: real)
    requires Valid(p)
    requires attempt == |records| + 1 && outcomes(attempt).Failed? && Logged(p, outcomes, random, records)
    requires slept == Slept(records) && 0.0 <= slept <= Span(p, attempt - 1)
    ensures |logged| == attempt && Logged(p, outcomes, random, logged)
    ensures total == Slept(logged) && 0.0 <= total <= Span(p, attempt)
  {
    var record := RecordOf(p, outcomes, random, attempt);
    DelayBounded(p, attempt, random(attempt));
    LoggedAppend(p, outcomes, random, records);
    SleptAppend(records, record);
    logged := records + [record];
    total := slept + record.delay;
  }

  lemma LoggedAppend(p: Policy, outcomes: nat -> Outcome, random: nat -> Fraction, records: seq<Record>)
    requires Logged(p, outcomes, random, records) && outcomes(|records| + 1).Failed?
    ensures Logged(p, outcomes, random, records + [RecordOf(p, outcomes, random, |records| + 1)])
  {
    var logged := records + [RecordOf(p, outcomes, random, |records| + 1)];
    assert logged[..|records|] == records;
  }

  lemma SleptAppend(records: seq<Record>, r: Record)
    ensures Slept(records + [r]) == Slept(records) + r.delay
  {
    assert (records + [r])[..|records|] == records;
  }

  /** `_with_retry`: the operation runs up to and including the first attempt that must be the last; the attempts before
      it are recorded in order, each followed by its delay; the outcome of the last one decides the result. The raise
      after the loop is never reached. */
  method WithRetry(p: Policy, hasDeadline: bool, outcomes: nat -> Outcome, random: nat -> Fraction)
    returns (final: Final, calls: nat, records: seq<Record>, slept: real)
    requires Valid(p)
    ensures 1 <= calls <= p.maxAttempts
    ensures Stops(p, hasDeadline, outcomes, calls)
    ensures forall n :: 1 <= n < calls ==> !Stops(p, hasDeadline, outcomes, n)
    ensures |records| == calls - 1 && Logged(p, outcomes, random, records)
    ensures slept == Slept(records) && 0.0 <= slept <= 1.5 * p.maxDelay * (p.maxAttempts - 1) as real
    ensures final == Conclude(p, outcomes(calls), records)
  {
    final, calls, records, slept := Attempts(p, hasDeadline, outcomes, random);
    WithinSpan(p, calls - 1, p.maxAttempts - 1, slept);
  }

  lemma WithinSpan(p: Policy, i: nat, j: nat, slept: real)
    requires Valid(p) && i <= j && slept <= Span(p, i)
    ensures slept <= 1.5 * p.maxDelay * j as real
  {
    SpanGrows(p, i, j);
    SpanIs(p, j);
  }

  /** The loop. */
  method Attempts(p: Policy, hasDeadline: bool, outcomes: nat -> Outcome, random: nat -> Fraction)
    returns (final: Final, calls: nat, records: seq<Record>, slept: real)
    requires Valid(p)
    ensures 1 <= calls <= p.maxAttempts
    ensures Stops(p, hasDeadline, outcomes, calls)
    ensures forall n :: 1 <= n < calls ==> !Stops(p, hasDeadline, outcomes, n)
    ensures |records| == calls - 1 && Logged(p, outcomes, random, records)
    ensures slept == Slept(records) && 0.0 <= slept <= Span(p, calls - 1)
    ensures final == Conclude(p, outcomes(calls), records)
  {
    records, slept := [], 0.0;
    for attempt := 1 to p.maxAttempts + 1
      invariant |records| == attempt - 1 && Logged(p, outcomes, random, records)
      invariant forall n :: 1 <= n < attempt ==> !Stops(p, hasDeadline, outcomes, n)
      invariant slept == Slept(records) && 0.0 <= slept <= Span(p, attempt - 1)
    {
      calls := attempt;
      match outcomes(attempt)
      case Succeeded(response) =>
        return Returned(response, records), calls, records, slept;
      case Failed(f) =>
        var c := Classify(p, f);
        if hasDeadline && f.timedOut {
          return RaiseFinal(f, c, records), calls, records, slept;
        }
        if CanRetry(c) && attempt < p.maxAttempts {
          records, slept := Pause(p, outcomes, random, attempt, records, slept);
          continue;
        }
        return RaiseFinal(f, c, records), calls, records, slept;
    }
    assert Stops(p, hasDeadline, outcomes, p.maxAttempts);
    assert false;
  }

  /** A caller's deadline makes a timeout final on whichever attempt it comes: no call is made after attempt `n`, only
      attempts before it are recorded and slept after, and if none of those ended the call it ends at `n` with that
      timeout. */
  method TimeoutIsFinal(p: Policy, outcomes: nat -> Outcome, random: nat -> Fraction, n: nat)
    returns (final: Final, calls: nat, records: seq<Record>, slept: real)
    requires Valid(p) && n >= 1 && outcomes(n).Failed? && outcomes(n).failure.timedOut
    ensures 1 <= calls <= n && |records| == calls - 1 && Logged(p, outcomes, random, records) && slept == Slept(records)
    ensures calls == n <==> n <= p.maxAttempts && forall m :: 1 <= m < n ==> !Stops(p, true, outcomes, m)
    ensures calls == n ==> final == RaiseFinal(outcomes(n).failure, Classify(p, outcomes(n).failure), records)
  {
    final, calls, records, slept := WithRetry(p, true, outcomes, random);
    assert Stops(p, true, outcomes, n);
  }

  /** A plain failure ends in "retries exhausted" iff its classification could be retried, and always carries every
      record. */
  lemma PlainKind(f: Failure, c: Classification, records: seq<Record>)
    requires f.Plain?
    ensures RaiseFinal(f, c, records).kind == RetryExhausted <==> CanRetry(c)
    ensures RaiseFinal(f, c, records).records == records && RaiseFinal(f, c, records).classification == c
  {
  }

  /** A typed error keeps its kind unless records have to be added to it; then only the base kind and the
      classification are left. */
  lemma TypedKindLostIff(f: Failure, c: Classification, records: seq<Record>)
    requires f.Typed?
    ensures RaiseFinal(f, c, records).classification == f.classification
    ensures RaiseFinal(f, c, records).kind != f.kind <==>
            records != [] && f.ownRecords == [] && f.kind != ProviderError
  {
  }
}
