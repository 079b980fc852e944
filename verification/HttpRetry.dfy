/** One platform call with backoff on transient failures. */
module HttpRetry {
  import opened Wrappers
  import opened HttpErrors

  /** A `retry-after` header: missing, present but no usable number, or seconds. */
  datatype RetryAfterHeader = NoHeader | Unusable | Seconds(value: real)

  /** A body as read: its text, the complaint of the JSON parser if it has one,
      and the seconds its `retry_after` field asks for; or over the byte cap; or
      cut off by the transport. */
  datatype Body =
    | Text(text: string, complaint: Option<string>, retryAfter: Option<real>)
    | TooLong
    | Broken(text: string, errorCode: string)

  datatype Response = Response(
    status: nat, retryAfter: RetryAfterHeader, budgetSpent: bool, resetMs: Option<real>, body: Body)

  datatype Exchange = Unreachable(text: string, errorCode: string) | Answered(response: Response)

  datatype Outcome = Ok(status: nat, text: string) | Fails(failure: Failure)

  datatype Config = Config(
    maxAttempts: int, baseDelayMs: real, maxDelayMs: real,
    rejectRedirects: bool, throttleOnSpentBudget: bool, maxBytes: nat)

  // ---------- One attempt ----------

  predicate Spent(config: Config, r: Response) {
    config.throttleOnSpentBudget && r.budgetSpent
  }

  predicate RefusedRedirect(config: Config, r: Response) {
    config.rejectRedirects && 300 <= r.status < 400
  }

  predicate Throttled(config: Config, r: Response) {
    r.status == 429 || (r.status == 403 && (Spent(config, r) || !r.retryAfter.NoHeader?))
  }

  function RoundMs(seconds: real): real {
    (seconds * 1000.0 + 0.5).Floor as real
  }

  function ParseRetryAfterMs(r: Response): Option<real>
    requires r.body.Text?
  {
    if r.retryAfter.Seconds? && r.retryAfter.value >= 0.0 then Some(RoundMs(r.retryAfter.value))
    else if r.body.retryAfter.Some? && r.body.retryAfter.value >= 0.0 then Some(RoundMs(r.body.retryAfter.value))
    else None
  }

  /** The whole number of milliseconds nearest to a number of seconds, halves up. */
  ghost function NearestMs(seconds: real): (ms: real)
    ensures ms == ms.Floor as real && ms - 0.5 <= seconds * 1000.0 < ms + 0.5
  {
    RoundMs(seconds)
  }

  /** The wait a throttling answer asks for: its header wins, a body that says so
      is the fallback, and neither asks for a negative one. */
  ghost predicate Asks(r: Response, wait: Option<real>)
    requires r.body.Text?
  {
    if r.retryAfter.Seconds? && r.retryAfter.value >= 0.0 then wait == Some(NearestMs(r.retryAfter.value))
    else if r.body.retryAfter.Some? && r.body.retryAfter.value >= 0.0 then wait == Some(NearestMs(r.body.retryAfter.value))
    else wait.None?
  }

  lemma WaitsAreInMilliseconds(r: Response)
    requires r.body.Text?
    ensures Asks(r, ParseRetryAfterMs(r))
  {
  }

  /** What an exchange amounts to, independently of which attempt it answers:
      an answer, a failure thrown, a throttle, or a server error. */
  datatype Reading = Good(status: nat, text: string) | Raises(failure: Failure) | Throttle(retryAfterMs: Option<real>) | ServerError(failure: Failure)

  function ReadingOf(config: Config, x: Exchange): Reading {
    match x
    case Unreachable(text, errorCode) => Raises(TransportError(text, errorCode))
    case Answered(r) =>
      if config.rejectRedirects && 300 <= r.status < 400 then Raises(RedirectRefused)
      else
        match r.body
        case TooLong => Raises(OverCap(config.maxBytes))
        case Broken(text, errorCode) => Raises(TransportError(text, errorCode))
        case Text(text, complaint, _) =>
          if r.status == 401 then Raises(AuthError)
          else if Throttled(config, r) then
            (if Spent(config, r) then Raises(RateLimitError(r.resetMs, false)) else Throttle(ParseRetryAfterMs(r)))
          else if r.status == 403 then Raises(PermissionError)
          else if r.status >= 500 then ServerError(HttpError(r.status, text))
          else if r.status >= 400 then Raises(HttpError(r.status, text))
          else if text != "" && complaint.Some? then Raises(SyntaxError(complaint.value))
          else Good(r.status, text)
  }

  /** The platform decided: no other attempt is made. */
  predicate Decisive(config: Config, x: Exchange) {
    match ReadingOf(config, x)
    case Good(_, _) => true
    case Raises(failure) => !IsNetworkError(failure)
    case _ => false
  }

  /** What the call ends with when `x` answers its last attempt. */
  function Final(config: Config, x: Exchange): Outcome {
    match ReadingOf(config, x)
    case Good(status, text) => Ok(status, text)
    case Throttle(retryAfterMs) => Fails(RateLimitError(retryAfterMs, true))
    case ServerError(failure) => Fails(failure)
    case Raises(failure) => Fails(if IsNetworkError(failure) then NetworkError(Some(failure)) else failure)
  }

  /** The time the platform asked for before another attempt, if it did. */
  function AskedWait(config: Config, x: Exchange): Option<real> {
    match ReadingOf(config, x)
    case Throttle(retryAfterMs) => retryAfterMs
    case _ => None
  }

  // ---------- Backoff ----------

  function Pow2(n: nat): real {
    if n == 0 then 1.0 else 2.0 * Pow2(n - 1)
  }

  function Capped(config: Config, attempt: nat): real {
    var grown := config.baseDelayMs * Pow2(attempt);
    if grown <= config.maxDelayMs then grown else config.maxDelayMs
  }

  /** Backoff with up to half again as much jitter. */
  function CalculateBackoffMs(config: Config, attempt: nat, random: real): (ms: real)
    requires 0.0 <= random < 1.0
    ensures config.maxDelayMs >= 0.0 ==> ms <= 1.5 * config.maxDelayMs
    ensures config.baseDelayMs >= 0.0 && config.maxDelayMs >= 0.0 ==> Capped(config, attempt) <= ms <= 1.5 * Capped(config, attempt)
  {
    hide Capped;
    CappedBounds(config, attempt);
    JitterBounds(Capped(config, attempt), random);
    Jittered(Capped(config, attempt), random)
  }

  function Jittered(ms: real, random: real): real {
    ms + random * ms * 0.5
  }

  /** The delay doubles from the base on until it meets the cap, plus up to half of itself. */
  lemma {:induction false} BackoffDoubles(config: Config, attempt: nat, random: real)
    requires 0.0 <= random < 1.0 && 0.0 <= config.baseDelayMs <= config.maxDelayMs
    ensures Capped(config, 0) == config.baseDelayMs
    ensures Capped(config, attempt + 1) ==
      if 2.0 * Capped(config, attempt) <= config.maxDelayMs then 2.0 * Capped(config, attempt) else config.maxDelayMs
    ensures CalculateBackoffMs(config, attempt, random) == Capped(config, attempt) * (1.0 + random / 2.0)
  {
    Pow2Positive(attempt);
    NotNegative(config.baseDelayMs, Pow2(attempt));
    assert config.baseDelayMs * Pow2(attempt + 1) == 2.0 * (config.baseDelayMs * Pow2(attempt));
  }

  lemma {:induction false} Pow2Positive(n: nat)
    ensures Pow2(n) >= 1.0
  {
    if n > 0 {
      Pow2Positive(n - 1);
    }
  }

  lemma CappedBounds(config: Config, attempt: nat)
    ensures Capped(config, attempt) <= config.maxDelayMs
    ensures config.baseDelayMs >= 0.0 && config.maxDelayMs >= 0.0 ==> Capped(config, attempt) >= 0.0
  {
    Pow2Positive(attempt);
    if config.baseDelayMs >= 0.0 {
      NotNegative(config.baseDelayMs, Pow2(attempt));
    }
  }

  lemma JitterBounds(ms: real, random: real)
    requires 0.0 <= random < 1.0
    ensures ms >= 0.0 ==> ms <= Jittered(ms, random) <= 1.5 * ms
    ensures ms < 0.0 ==> Jittered(ms, random) < 0.0
  {
    if ms >= 0.0 {
      Scaled(random, ms);
    } else {
      Scaled(random, -ms);
      assert random * ms == -(random * -ms);
    }
  }

  lemma NotNegative(x: real, y: real)
    requires x >= 0.0 && y >= 0.0
    ensures x * y >= 0.0
  {
  }

  lemma Scaled(f: real, x: real)
    requires 0.0 <= f <= 1.0 && x >= 0.0
    ensures 0.0 <= f * x <= x
  {
    assert (1.0 - f) * x >= 0.0;
  }

  function Total(waits: seq<real>): real {
    if waits == [] then 0.0 else Total(waits[..|waits| - 1]) + waits[|waits| - 1]
  }

  // ---------- The loop ----------

  /** The first attempts all failed in a transient way. */
  predicate AllTransient(config: Config, script: nat -> Exchange, n: nat) {
    forall i | 0 <= i < n :: !Decisive(config, script(i))
  }

  /** The wait after each attempt: what the platform asked for, else the computed backoff. */
  predicate Waited(config: Config, script: nat -> Exchange, random: nat -> real, waits: seq<real>) {
    forall i | 0 <= i < |waits| :: 0.0 <= random(i) < 1.0 &&
      waits[i] == (if AskedWait(config, script(i)).Some? then AskedWait(config, script(i)).value
                   else CalculateBackoffMs(config, i, random(i)))
  }

  /** Attempt after attempt, `script(i)` being what the i-th request meets: the
      outcome is that of the first decisive attempt, or of the last one allowed.
      One request an attempt, one wait between two. */
  method ExecuteRequest(config: Config, script: nat -> Exchange, random: nat -> real)
    returns (outcome: Outcome, requests: nat, waits: seq<real>)
    requires forall i :: 0.0 <= random(i) < 1.0
    ensures config.maxAttempts <= 0 ==> requests == 0 && waits == [] && outcome == Fails(NetworkError(None))
    ensures config.maxAttempts > 0 ==>
      && 0 < requests <= config.maxAttempts && |waits| == requests - 1
      && AllTransient(config, script, requests - 1)
      && (Decisive(config, script(requests - 1)) || requests == config.maxAttempts)
      && outcome == Final(config, script(requests - 1))
    ensures Waited(config, script, random, waits)
  {
    hide CalculateBackoffMs; hide Throttled; hide Spent; hide RoundMs; hide ParseRetryAfterMs; hide IsNetworkError;
    var lastError: Option<Failure> := None;
    waits := [];
    requests := 0;
    while requests < config.maxAttempts
      invariant requests == 0 || requests <= config.maxAttempts
      invariant AllTransient(config, script, requests) && (requests == 0 ==> lastError.None?)
      invariant |waits| == if requests < config.maxAttempts || requests == 0 then requests else requests - 1
      invariant Waited(config, script, random, waits)
      invariant requests > 0 && requests == config.maxAttempts ==>
        lastError.Some? && Final(config, script(requests - 1)) == Fails(lastError.value)
    {
      var attempt := requests;
      requests := requests + 1;
      var reading := ReadResponse(config, script(attempt));
      match reading {
        case Good(status, text) =>
          outcome := Ok(status, text);
          return;
        case Raises(failure) =>
          if !IsNetworkError(failure) {
            outcome := Fails(failure);
            return;
          }
          lastError := Some(NetworkError(Some(failure)));
        case Throttle(retryAfterMs) =>
          if attempt == config.maxAttempts - 1 {
            // thrown inside the guarded block, which lets it through
            DecisionsAreNotNetworkErrors(RateLimitError(retryAfterMs, true));
            assert !IsNetworkError(RateLimitError(retryAfterMs, true));
            outcome := Fails(RateLimitError(retryAfterMs, true));
            return;
          }
        case ServerError(failure) => lastError := Some(failure);
      }
      if attempt < config.maxAttempts - 1 {
        var wait := if reading.Throttle? && reading.retryAfterMs.Some? then reading.retryAfterMs.value
                    else CalculateBackoffMs(config, attempt, random(attempt));
        waits := waits + [wait];
      }
    }
    outcome := Fails(if lastError.Some? then lastError.value else NetworkError(None));
  }

  /** One response, branch by branch. Each outcome has its own exact condition,
      none of which looks at the order of the branches. */
  method ReadResponse(config: Config, x: Exchange) returns (reading: Reading)
    ensures reading == ReadingOf(config, x)
    ensures x.Answered? && x.response.body.Text? && !RefusedRedirect(config, x.response) ==>
      var r := x.response;
      && (reading == Raises(AuthError) <==> r.status == 401)
      && (reading == Raises(PermissionError) <==> r.status == 403 && !Spent(config, r) && r.retryAfter.NoHeader?)
      && (reading.Raises? && reading.failure.RateLimitError? <==> r.status in {403, 429} && Spent(config, r))
      && (reading.Throttle? <==>
            !Spent(config, r) && (r.status == 429 || (r.status == 403 && !r.retryAfter.NoHeader?)))
      && (reading.ServerError? <==> r.status >= 500)
      && (reading.Raises? && reading.failure.HttpError? <==> 400 <= r.status < 500 && r.status !in {401, 403, 429})
      && (reading.Raises? && reading.failure.SyntaxError? <==> r.status < 400 && r.body.text != "" && r.body.complaint.Some?)
      && (reading.Good? <==> r.status < 400 && (r.body.text == "" || r.body.complaint.None?))
      // and what each carries
      && (reading.Throttle? ==> Asks(r, reading.retryAfterMs))
      && (reading.ServerError? ==> reading.failure == HttpError(r.status, r.body.text))
      && (reading.Good? ==> reading == Good(r.status, r.body.text))
      && (reading.Raises? && reading.failure.RateLimitError? ==> reading.failure == RateLimitError(r.resetMs, false))
      && (reading.Raises? && reading.failure.HttpError? ==> reading.failure == HttpError(r.status, r.body.text))
      && (reading.Raises? && reading.failure.SyntaxError? ==> Some(reading.failure.complaint) == r.body.complaint)
    ensures x.Unreachable? ==> reading == Raises(TransportError(x.text, x.errorCode))
    ensures x.Answered? && RefusedRedirect(config, x.response) ==> reading == Raises(RedirectRefused)
    ensures x.Answered? && !RefusedRedirect(config, x.response) && x.response.body.TooLong? ==>
      reading == Raises(OverCap(config.maxBytes))
    ensures x.Answered? && !RefusedRedirect(config, x.response) && x.response.body.Broken? ==>
      reading == Raises(TransportError(x.response.body.text, x.response.body.errorCode))
  {
    hide RoundMs; hide NearestMs; hide Asks;
    if x.Answered? && x.response.body.Text? {
      WaitsAreInMilliseconds(x.response);
    }

    if x.Unreachable? {
      return Raises(TransportError(x.text, x.errorCode));
    }
    var r := x.response;
    if config.rejectRedirects && r.status >= 300 && r.status < 400 {
      return Raises(RedirectRefused);
    }
    if r.body.TooLong? {
      return Raises(OverCap(config.maxBytes));
    }
    if r.body.Broken? {
      return Raises(TransportError(r.body.text, r.body.errorCode));
    }
    if r.status == 401 {
      return Raises(AuthError);
    }
    var spentBudget := config.throttleOnSpentBudget && r.budgetSpent;
    var throttled := r.status == 429 || (r.status == 403 && (spentBudget || r.retryAfter != NoHeader));
    if r.status == 403 && !throttled {
      return Raises(PermissionError);
    }
    if throttled && spentBudget {
      return Raises(RateLimitError(r.resetMs, false));
    }
    if throttled {
      return Throttle(ParseRetryAfterMs(r));
    }
    if r.status >= 400 {
      return if r.status < 500 then Raises(HttpError(r.status, r.body.text)) else ServerError(HttpError(r.status, r.body.text));
    }
    return if r.body.text != "" && r.body.complaint.Some? then Raises(SyntaxError(r.body.complaint.value))
           else Good(r.status, r.body.text);
  }

  // ---------- What a call can cost ----------

  /** `n` waits of `ms` each. */
  function Times(ms: real, n: nat): real {
    ms * n as real
  }

  lemma OneMore(ms: real, n: nat)
    ensures Times(ms, n + 1) == Times(ms, n) + ms
  {
    assert (n + 1) as real == n as real + 1.0;
  }

  lemma {:induction false} More(ms: real, a: nat, b: nat)
    requires ms >= 0.0 && a <= b
    ensures Times(ms, a) <= Times(ms, b)
  {
    hide Times;
    if a < b {
      More(ms, a, b - 1);
      OneMore(ms, b - 1);
    }
  }

  lemma {:induction false} WaitsAddUp(config: Config, script: nat -> Exchange, random: nat -> real, waits: seq<real>)
    requires Waited(config, script, random, waits) && config.maxDelayMs >= 0.0
    requires forall i | 0 <= i < |waits| :: AskedWait(config, script(i)).None?
    ensures Total(waits) <= Times(1.5 * config.maxDelayMs, |waits|)
  {
    hide AskedWait; hide Times; hide CalculateBackoffMs;
    if waits == [] {
      assert Times(1.5 * config.maxDelayMs, 0) == 0.0 by { NoTime(1.5 * config.maxDelayMs); }
    } else {
      var n := |waits| - 1;
      WaitsAddUp(config, script, random, waits[..n]);
      assert waits[n] == CalculateBackoffMs(config, n, random(n));
      OneMore(1.5 * config.maxDelayMs, n);
    }
  }

  lemma NoTime(ms: real)
    ensures Times(ms, 0) == 0.0
  {
  }

  /** Without a platform asking for time, the waits of a call add up to at most
      one and a half times the cap for each allowed attempt but the last. */
  lemma TotalWaitIsBounded(config: Config, script: nat -> Exchange, random: nat -> real, waits: seq<real>)
    requires Waited(config, script, random, waits) && config.maxDelayMs >= 0.0 && |waits| < config.maxAttempts
    requires forall i | 0 <= i < |waits| :: AskedWait(config, script(i)).None?
    ensures Total(waits) <= Times(1.5 * config.maxDelayMs, config.maxAttempts - 1)
  {
    hide Waited; hide Total; hide AskedWait; hide Times;
    WaitsAddUp(config, script, random, waits);
    More(1.5 * config.maxDelayMs, |waits|, config.maxAttempts - 1);
  }

  // ---------- Decisions taken for transport failures ----------

  /** A refusal other than an authentication, permission or rate-limit one is
      final exactly when what it quotes of the body holds no transport hint. */
  lemma RefusalIsFinalIff(config: Config, r: Response)
    requires 400 <= r.status < 500 && r.status !in {401, 403, 429} && r.body.Text?
    ensures var refusal := HttpError(r.status, r.body.text);
      && (Decisive(config, Answered(r)) <==> !Hinted(Snippet(r.body.text)))
      && Final(config, Answered(r)) == Fails(if Hinted(Snippet(r.body.text)) then NetworkError(Some(refusal)) else refusal)
  {
    hide Snippet; hide Hinted; hide IsNetworkError;
    HttpErrorIsNetworkErrorIff(r.status, r.body.text);
  }

  /** A missing object whose page mentions the network is asked for again, and
      reported as a network failure. */
  lemma MissingIsRetried(config: Config) returns (r: Response)
    ensures r.status == 404 && r.body == Text("Network not found", None, None)
    ensures !Decisive(config, Answered(r))
    ensures Final(config, Answered(r)) == Fails(NetworkError(Some(HttpError(404, "Network not found"))))
  {
    hide Snippet; hide Hinted; hide ReadingOf; hide Final; hide Decisive;
    r := Response(404, NoHeader, false, None, Text("Network not found", None, None));
    RefusalIsFinalIff(config, r);
    QuotedWhole();
    MentionsTheNetwork("Network not found", "network not found");
  }

  lemma MentionsTheNetwork(s: string, t: string)
    requires |s| == |t| >= 7 && LowerCase(s) == t && t[..7] == "network"
    ensures Hinted(s)
  {
    var hint := NETWORK_ERROR_HINTS[11];
    assert t[0..0 + |hint|] == t[..7] == hint;
    assert At(LowerCase(s), hint, 0);
    assert hint in NETWORK_ERROR_HINTS && Contains(LowerCase(s), hint);
  }

  lemma QuotedWhole()
    ensures Snippet("Network not found") == "Network not found"
  {
  }

  /** Authentication, permission and spent-budget answers are final whatever their body says. */
  lemma CredentialsAreNeverRetried(config: Config, r: Response)
    requires r.body.Text? && (r.status == 401 || (r.status == 403 && r.retryAfter.NoHeader?) || (Throttled(config, r) && Spent(config, r)))
    ensures Decisive(config, Answered(r)) && Final(config, Answered(r)).Fails?
    ensures Final(config, Answered(r)).failure ==
      if r.status == 401 then AuthError else if Spent(config, r) then RateLimitError(r.resetMs, false) else PermissionError
  {
    hide IsNetworkError;
    DecisionsAreNotNetworkErrors(AuthError);
    DecisionsAreNotNetworkErrors(PermissionError);
    DecisionsAreNotNetworkErrors(RateLimitError(r.resetMs, false));
  }

  /** So are refused redirects and bodies over the cap. */
  lemma PolicyIsNeverRetried(config: Config, r: Response)
    requires RefusedRedirect(config, r) || r.body.TooLong?
    ensures Decisive(config, Answered(r))
    ensures Final(config, Answered(r)) ==
      Fails(if RefusedRedirect(config, r) then RedirectRefused else OverCap(config.maxBytes))
  {
    hide IsNetworkError;
    DecisionsAreNotNetworkErrors(RedirectRefused);
    DecisionsAreNotNetworkErrors(OverCap(config.maxBytes));
  }
}
