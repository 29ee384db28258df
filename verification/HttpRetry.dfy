/** The retry loop around one HTTP request: which outcomes are repeated, how often, and how long the
    pauses are. */
module HttpRetry {

  /** What the client does when asked once; `OtherError` is any other error of the HTTP library. */
  datatype Outcome = Timeout | Disconnected | OtherError | Response(status: int, body: string)

  datatype Result =
    | Payload(body: string)
    | TimeoutError
    | ConnectionError
    | RateLimitError
    | ServerError(status: int)
    | ClientError(status: int)
    | UnknownError
    | BadSleep

  /** Timeouts, lost connections, 429 (section 4 of RFC 6585) and 5xx (section 15.6 of RFC 9110);
      the code repeats every status from 500 up. */
  predicate Retriable(o: Outcome) {
    o.Timeout? || o.Disconnected? || (o.Response? && (o.status == 429 || o.status >= 500))
  }

  /** The answer when the loop stops at this outcome. */
  function Verdict(o: Outcome): Result {
    match o
    case Timeout => TimeoutError
    case Disconnected => ConnectionError
    case OtherError => ConnectionError
    case Response(status, body) =>
      if 200 <= status < 300 then Payload(body)
      else if status == 429 then RateLimitError
      else if status >= 500 then ServerError(status)
      else ClientError(status)
  }

  function Pow2(n: nat): (p: nat)
    ensures p >= 1
  {
    if n == 0 then 1 else 2 * Pow2(n - 1)
  }

  /** The largest jitter: `max(1, base // 4)`, with Python's floor division. */
  function MaxJitter(base: int): (j: int)
    ensures j >= 1
  {
    if base < 8 then 1 else base / 4
  }

  /** What the call will meet: the outcome of each request and the jitter drawn before the next. */
  datatype Script = Script(outcomes: seq<Outcome>, jitters: seq<nat>)

  function OutcomeAt(s: Script, i: nat): Outcome {
    if i < |s.outcomes| then s.outcomes[i] else OtherError
  }

  function JitterAt(s: Script, base: int, i: nat): (j: int)
    ensures 0 <= j <= MaxJitter(base)
  {
    if i < |s.jitters| && s.jitters[i] <= MaxJitter(base) then s.jitters[i] else 0
  }

  function Pause(s: Script, base: int, i: nat): int {
    base * Pow2(i) + JitterAt(s, base, i)
  }

  /** The pauses before requests 1 to `n`. */
  function Slept(s: Script, base: int, n: nat): int {
    if n == 0 then 0 else Slept(s, base, n - 1) + Pause(s, base, n - 1)
  }

  /** An explicit argument is clamped; the environment's value is not. */
  function Retries(argument: Setting, environment: int): (r: int)
    ensures argument.Given? ==> r >= 0
  {
    match argument
    case Given(v) => if v < 0 then 0 else v
    case Omitted => environment
  }

  function Base(argument: Setting, environment: int): (b: int)
    ensures argument.Given? ==> b >= 1
  {
    match argument
    case Given(v) => if v < 1 then 1 else v
    case Omitted => environment
  }

  datatype Setting = Omitted | Given(value: int)

  /** Request `i` is made, and the loop goes on after it. */
  predicate Continues(s: Script, base: int, i: nat) {
    Retriable(OutcomeAt(s, i)) && Pause(s, base, i) >= 0
  }

  /** Request number `n` is the last one: everything before it was repeated, and it is not. */
  ghost predicate StopsAt(s: Script, maxRetries: int, base: int, n: nat) {
    && n <= maxRetries
    && (forall i :: 0 <= i < n ==> Continues(s, base, i))
    && (n == maxRetries || !Continues(s, base, n))
  }

  /** The answer of a loop that stops at request `n`: the outcome's own, unless the pause before
      another attempt was refused. */
  function Answer(s: Script, maxRetries: int, n: nat): Result {
    var o := OutcomeAt(s, n);
    if Retriable(o) && n < maxRetries then BadSleep else Verdict(o)
  }

  /** The loop, over the number of retries and the base pause that the call settled on. */
  method Attempt(s: Script, maxRetries: int, base: int) returns (result: Result, requests: nat, slept: int)
    ensures maxRetries < 0 ==> result == UnknownError && requests == 0 && slept == 0
    ensures maxRetries >= 0 ==>
      && 1 <= requests <= maxRetries + 1
      && StopsAt(s, maxRetries, base, requests - 1)
      && result == Answer(s, maxRetries, requests - 1)
      && slept == Slept(s, base, requests - 1)
  {
    requests, slept := 0, 0;
    var attempt := 0;
    while attempt < maxRetries + 1
      invariant 0 <= attempt && (maxRetries >= 0 ==> attempt <= maxRetries) && (maxRetries < 0 ==> attempt == 0)
      invariant requests == attempt && slept == Slept(s, base, attempt)
      invariant forall i :: 0 <= i < attempt ==> Continues(s, base, i)
      decreases maxRetries + 1 - attempt
    {
      var o := OutcomeAt(s, attempt);
      requests := requests + 1;
      match o {
        case Timeout =>
          if attempt >= maxRetries { return TimeoutError, requests, slept; }
        case Disconnected =>
          if attempt >= maxRetries { return ConnectionError, requests, slept; }
        case OtherError =>
          return ConnectionError, requests, slept;
        case Response(status, body) =>
          if 200 <= status < 300 { return Payload(body), requests, slept; }
          if status == 429 {
            if attempt >= maxRetries { return RateLimitError, requests, slept; }
          } else if status >= 500 {
            if attempt >= maxRetries { return ServerError(status), requests, slept; }
          } else {
            return ClientError(status), requests, slept;
          }
      }
      var pause := base * Pow2(attempt) + JitterAt(s, base, attempt);
      if pause < 0 { return BadSleep, requests, slept; }
      slept := slept + pause;
      attempt := attempt + 1;
    }
    result := UnknownError;
  }

  method RequestJson(s: Script, retries: Setting, envRetries: int, base: Setting, envBase: int)
    returns (result: Result, requests: nat, slept: int)
    ensures result == UnknownError <==> retries.Omitted? && envRetries < 0
    ensures var r, b := Retries(retries, envRetries), Base(base, envBase);
      if r < 0 then requests == 0 && slept == 0
      else (&& 1 <= requests <= r + 1 && StopsAt(s, r, b, requests - 1)
            && result == Answer(s, r, requests - 1) && slept == Slept(s, b, requests - 1))
  {
    var maxRetries := if retries.Omitted? then envRetries else if retries.value < 0 then 0 else retries.value;
    var baseMs := if base.Omitted? then envBase else if base.value < 1 then 1 else base.value;
    result, requests, slept := Attempt(s, maxRetries, baseMs);
  }

  // ---------------------------------------------------------------- what the loop promises

  /** The last request is determined by the script: no two positions qualify. */
  lemma StopIsUnique(s: Script, maxRetries: int, base: int, m: nat, n: nat)
    requires StopsAt(s, maxRetries, base, m) && StopsAt(s, maxRetries, base, n)
    ensures m == n
  {
    assert m < n ==> Continues(s, base, m);
    assert n < m ==> Continues(s, base, n);
  }

  /** With a base of at least 1 every pause is positive, so only the outcomes decide: the answer is
      that of the first outcome that is not retriable, or of the last one allowed. */
  lemma OnlyOutcomesDecide(s: Script, maxRetries: int, base: int, n: nat)
    requires base >= 1
    ensures StopsAt(s, maxRetries, base, n)
      <==> && n <= maxRetries
           && (forall i :: 0 <= i < n ==> Retriable(OutcomeAt(s, i)))
           && (n == maxRetries || !Retriable(OutcomeAt(s, n)))
    ensures StopsAt(s, maxRetries, base, n) ==> Answer(s, maxRetries, n) == Verdict(OutcomeAt(s, n))
  {
    forall i: nat ensures Continues(s, base, i) <==> Retriable(OutcomeAt(s, i)) {
      PauseIsPositive(s, base, i);
    }
  }

  lemma PauseIsPositive(s: Script, base: int, i: nat)
    requires base >= 1
    ensures Pause(s, base, i) >= 1
  {
    Product(base, Pow2(i));
  }

  lemma Product(x: int, y: int)
    requires x >= 1 && y >= 1
    ensures x * y >= 1
  {
  }

  lemma DoubleMinusOne(base: int, p: int)
    ensures base * (p - 1) + base * p == base * (2 * p - 1)
  {
  }

  lemma OneMoreJitter(n: nat, j: int)
    requires n >= 1
    ensures (n - 1) * j + j == n * j
  {
  }

  /** Main result: the pauses of `n` retries add up to at most base * (2^n - 1) plus `n` jitters,
      and to at least base * (2^n - 1). */
  lemma {:induction false} SleepIsBounded(s: Script, base: int, n: nat)
    ensures base * (Pow2(n) - 1) <= Slept(s, base, n) <= base * (Pow2(n) - 1) + n * MaxJitter(base)
  {
    if n > 0 {
      SleepIsBounded(s, base, n - 1);
      DoubleMinusOne(base, Pow2(n - 1));
      OneMoreJitter(n, MaxJitter(base));
    }
  }

  /** The bound is for the whole call too: it grows with the number of retries. */
  lemma {:induction false} BoundGrows(base: int, m: nat, n: nat)
    requires base >= 1 && m <= n
    ensures base * (Pow2(m) - 1) + m * MaxJitter(base) <= base * (Pow2(n) - 1) + n * MaxJitter(base)
    decreases n - m
  {
    if m < n {
      BoundGrows(base, m + 1, n);
      DoubleMinusOne(base, Pow2(m));
      OneMoreJitter(m + 1, MaxJitter(base));
      Product(base, Pow2(m));
    }
  }

  /** Main result: whatever happens, a call with `r >= 0` retries sleeps at most
      base * (2^r - 1) + r * max(1, base / 4) milliseconds. */
  lemma CallSleepsAtMost(s: Script, maxRetries: nat, base: int, n: nat)
    requires base >= 1 && StopsAt(s, maxRetries, base, n)
    ensures Slept(s, base, n) <= base * (Pow2(maxRetries) - 1) + maxRetries * MaxJitter(base)
  {
    SleepIsBounded(s, base, n);
    BoundGrows(base, n, maxRetries);
  }

  /** A negative base can only come from the environment. Then the call repeats nothing, except once
      when the base is -1 and the first jitter is 1: the next pause would be negative, which is refused. */
  lemma NegativeBaseRefusesToRetry(s: Script, base: int, i: nat)
    requires base < 0
    ensures Continues(s, base, i) <==> Retriable(OutcomeAt(s, i)) && i == 0 && base == -1 && JitterAt(s, base, 0) == 1
  {
    if i > 0 {
      assert base * Pow2(i) == 2 * (base * Pow2(i - 1)) by { Regroup(base, Pow2(i - 1)); }
      NegativeProduct(base, Pow2(i - 1));
    }
  }

  lemma Regroup(x: int, y: int)
    ensures x * (2 * y) == 2 * (x * y)
  {
  }

  lemma NegativeProduct(x: int, y: int)
    requires x <= -1 && y >= 1
    ensures x * y <= -1
  {
  }
}
