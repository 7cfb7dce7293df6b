/**
 * `LLMClient` of src/paperreader_cli/llm_client.py: the constructor's clamps,
 * the rate-slot scheduler that spaces requests by `1 / qps` seconds, and the
 * retry loop of `chat` that classifies what the SDK call did.
 *
 * Time is exact: seconds as `real` (no floating-point rounding). The SDK call
 * `chat.completions.create` is the oracle `sdk`, giving the outcome of the
 * attempt with each index; the monotonic clock is the oracle `clock`, giving
 * the reading taken when the attempt with each index asks for a rate slot.
 * Sleeping is not modelled beyond the durations the client would sleep.
 */
module LlmClient {
  import opened Wrappers
  import opened Text
  import PyValue

  datatype ChatResult = ChatResult(content: string, totalTokens: int)

  /** What one SDK call did. `Reply.content` is `None` for a null message;
      `Reply.usage` is the reported `total_tokens`, `None` when the usage
      record or its field is missing or null. */
  datatype SdkOutcome =
    | Reply(content: Option<string>, usage: Option<int>)
    | AuthenticationFailed
    | RateLimited
    | ConnectionFailed
    | ApiFailed(message: string)
    | OtherFailure(message: string)

  /** The outcomes the loop retries: `RateLimitError`, `APIConnectionError`
      and any other `APIError`. */
  predicate Transient(o: SdkOutcome) {
    o.RateLimited? || o.ConnectionFailed? || o.ApiFailed?
  }

  const AuthMessage := "Authentication failed. Check API key."
  const EmptyReplyMessage := "Empty response from model"
  const RateLimitMessage := "Rate limit reached after retries. Retry later."
  const ConnectionMessage := "Connection failed after retries. Check base_url/network."
  const UnknownMessage := "LLM request failed for unknown reason."

  function UnexpectedMessage(detail: string): string {
    "Unexpected LLM error: " + detail
  }

  function ApiMessage(detail: string): string {
    "LLM API error after retries: " + detail
  }

  /** `max(lo, x)` on seconds. */
  function AtLeastReal(lo: real, x: real): (r: real)
    ensures r >= lo && r >= x
    ensures r == lo || r == x
  {
    if x < lo then lo else x
  }

  /** The token count of a reply: `int(usage.total_tokens or 0)`. */
  function TokensOf(usage: Option<int>): int {
    match usage
    case Some(t) => t
    case None => 0
  }

  /** What an attempt whose outcome is not retried ends `chat` with: the
      stripped content of a non-empty reply, otherwise an error. An empty or
      null reply raises inside the `try` block and is caught by the generic
      handler, so it is reported as an unexpected error and not retried. */
  function Settle(o: SdkOutcome): Result<ChatResult>
    requires !Transient(o)
  {
    match o
    case Reply(content, usage) =>
      if content.Some? && content.value != "" then Ok(ChatResult(Strip(content.value), TokensOf(usage)))
      else Err(UnexpectedMessage(EmptyReplyMessage))
    case AuthenticationFailed => Err(AuthMessage)
    case OtherFailure(m) => Err(UnexpectedMessage(m))
  }

  /** The error raised once the attempts are used up, chosen by the kind of the
      last error: rate limit, then connection, then any other API error. */
  function FinalError(lastError: Option<SdkOutcome>): (r: Result<ChatResult>)
    ensures r.Err?
  {
    match lastError
    case Some(RateLimited) => Err(RateLimitMessage)
    case Some(ConnectionFailed) => Err(ConnectionMessage)
    case Some(ApiFailed(m)) => Err(ApiMessage(m))
    case _ => Err(UnknownMessage)
  }

  function Pow2(n: nat): (r: nat)
    ensures r >= 1
  {
    if n == 0 then 1 else 2 * Pow2(n - 1)
  }

  /** The pause after a failed attempt with index `a`: `min(8, 0.8 * 2^a)`. */
  function Backoff(a: nat): (r: real)
    ensures 0.8 <= r <= 8.0
  {
    var grow := 0.8 * (Pow2(a) as real);
    if grow < 8.0 then grow else 8.0
  }

  /** How a run of `chat` ends: its result, the number of SDK calls made (each
      after one rate slot) and the backoff pauses slept between them. */
  datatype ChatRun = ChatRun(result: Result<ChatResult>, attempts: nat, backoffs: seq<real>)

  /** The attempts from index `a` on, when attempts `0 .. maxRetries` are
      allowed. */
  function Attempts(sdk: nat -> SdkOutcome, maxRetries: nat, a: nat): ChatRun
    requires a <= maxRetries
    decreases maxRetries - a
  {
    var o := sdk(a);
    if !Transient(o) then ChatRun(Settle(o), 1, [])
    else if a >= maxRetries then ChatRun(FinalError(Some(o)), 1, [])
    else
      var rest := Attempts(sdk, maxRetries, a + 1);
      ChatRun(rest.result, rest.attempts + 1, [Backoff(a)] + rest.backoffs)
  }

  /** A run of `chat` with `maxRetries` retries. */
  function Run(sdk: nat -> SdkOutcome, maxRetries: nat): ChatRun {
    Attempts(sdk, maxRetries, 0)
  }

  /** At least one and at most `maxRetries + 1 - a` attempts are made; there is
      one pause between consecutive attempts and none after the last, and the
      pause after attempt `a + i` is `Backoff(a + i)`. */
  lemma {:induction false} AttemptsShape(sdk: nat -> SdkOutcome, maxRetries: nat, a: nat)
    requires a <= maxRetries
    ensures var run := Attempts(sdk, maxRetries, a);
      && 1 <= run.attempts <= maxRetries + 1 - a
      && |run.backoffs| == run.attempts - 1
      && (forall i :: 0 <= i < |run.backoffs| ==> run.backoffs[i] == Backoff(a + i))
    decreases maxRetries - a
  {
    var o := sdk(a);
    if Transient(o) && a < maxRetries {
      AttemptsShape(sdk, maxRetries, a + 1);
      var rest := Attempts(sdk, maxRetries, a + 1);
      forall i | 0 <= i < |rest.backoffs| + 1
        ensures ([Backoff(a)] + rest.backoffs)[i] == Backoff(a + i)
      {
        if i > 0 {
          assert ([Backoff(a)] + rest.backoffs)[i] == rest.backoffs[i - 1];
        }
      }
    }
  }

  /** The first attempt whose outcome is not retried decides the result, after
      exactly that many attempts: an authentication error, an empty reply or an
      unexpected exception ends `chat` at once. */
  lemma {:induction false} SettledAt(sdk: nat -> SdkOutcome, maxRetries: nat, a: nat, k: nat)
    requires a <= k <= maxRetries
    requires forall j :: a <= j < k ==> Transient(sdk(j))
    requires !Transient(sdk(k))
    ensures Attempts(sdk, maxRetries, a).result == Settle(sdk(k))
    ensures Attempts(sdk, maxRetries, a).attempts == k - a + 1
    decreases k - a
  {
    if a < k {
      SettledAt(sdk, maxRetries, a + 1, k);
    }
  }

  /** When every allowed attempt fails transiently, exactly `maxRetries + 1`
      attempts are made and the error is chosen by the last one's kind. */
  lemma {:induction false} AllTransient(sdk: nat -> SdkOutcome, maxRetries: nat, a: nat)
    requires a <= maxRetries
    requires forall j :: a <= j <= maxRetries ==> Transient(sdk(j))
    ensures Attempts(sdk, maxRetries, a).result == FinalError(Some(sdk(maxRetries)))
    ensures Attempts(sdk, maxRetries, a).attempts == maxRetries - a + 1
    decreases maxRetries - a
  {
    if a < maxRetries {
      AllTransient(sdk, maxRetries, a + 1);
    }
  }

  /** The time a rate slot is granted: `max(now, last + interval)`. */
  function SlotAt(last: real, interval: real, now: real): (t: real)
    ensures t >= now && t >= last + interval
    ensures t == now || t == last + interval
  {
    AtLeastReal(now, last + interval)
  }

  /** The slots granted, in order, to requests that read the clock at `nows`,
      starting from a last grant at `last`. */
  function Slots(last: real, interval: real, nows: seq<real>): (r: seq<real>)
    ensures |r| == |nows|
    decreases |nows|
  {
    if nows == [] then []
    else
      var t := SlotAt(last, interval, nows[0]);
      [t] + Slots(t, interval, nows[1..])
  }

  /** Each slot comes at least `interval` after the one before it. */
  lemma {:induction false} SlotsAdjacent(last: real, interval: real, nows: seq<real>, k: nat)
    requires k + 1 < |nows|
    ensures Slots(last, interval, nows)[k + 1] >= Slots(last, interval, nows)[k] + interval
    decreases |nows|
  {
    var t := SlotAt(last, interval, nows[0]);
    var rest := Slots(t, interval, nows[1..]);
    assert Slots(last, interval, nows) == [t] + rest;
    if k > 0 {
      SlotsAdjacent(t, interval, nows[1..], k - 1);
    }
  }

  /** Slots are granted at least `interval` apart: slot `j` comes at least
      `j - i` intervals after slot `i`, and the first comes at least one interval
      after the previous grant. */
  lemma {:induction false} SlotsSpaced(last: real, interval: real, nows: seq<real>, i: nat, j: nat)
    requires i <= j < |nows|
    ensures Slots(last, interval, nows)[0] >= last + interval
    ensures Slots(last, interval, nows)[j] >= Slots(last, interval, nows)[i] + ((j - i) as real) * interval
    decreases j
  {
    var s := Slots(last, interval, nows);
    assert s[0] == SlotAt(last, interval, nows[0]);
    if j == i {
      assert ((j - i) as real) * interval == 0.0;
    } else {
      SlotsSpaced(last, interval, nows, i, j - 1);
      SlotsAdjacent(last, interval, nows, j - 1);
      assert ((j - 1 - i) as real) * interval + interval == ((j - i) as real) * interval;
    }
  }

  /** The clock readings of the first `n` attempts. */
  function Readings(clock: nat -> real, n: nat): (r: seq<real>)
    ensures |r| == n
    ensures forall k :: 0 <= k < n ==> r[k] == clock(k)
  {
    seq(n, k requires 0 <= k < n => clock(k))
  }

  class Client {
    const model: string
    const requestTimeout: int
    const maxRetries: nat
    const rateLimitQps: real
    const minInterval: real
    var lastCallAt: real

    /** `LLMClient.__init__`: the timeout is at least 10 seconds, the retry
        count at least 0, the rate at least 0.1 requests per second, and the
        spacing between requests is its inverse. No slot was granted yet. */
    constructor (model: string, requestTimeout: int, maxRetries: int, rateLimitQps: real)
      ensures this.model == model
      ensures this.requestTimeout == PyValue.AtLeast(10, requestTimeout)
      ensures this.maxRetries == PyValue.AtLeast(0, maxRetries)
      ensures this.rateLimitQps == AtLeastReal(0.1, rateLimitQps)
      ensures this.minInterval == 1.0 / this.rateLimitQps
      ensures 0.0 < this.minInterval <= 10.0
      ensures lastCallAt == 0.0
    {
      this.model := model;
      this.requestTimeout := PyValue.AtLeast(10, requestTimeout);
      this.maxRetries := PyValue.AtLeast(0, maxRetries);
      var qps := AtLeastReal(0.1, rateLimitQps);
      this.rateLimitQps := qps;
      this.minInterval := 1.0 / qps;
      lastCallAt := 0.0;
    }

    /** `_acquire_rate_slot` with the clock reading `now`: the slot is
        `max(now, last + interval)`, it becomes the last grant, and the caller
        sleeps until it (never a negative time). */
    method AcquireRateSlot(now: real) returns (sleepFor: real)
      modifies this`lastCallAt
      ensures lastCallAt == SlotAt(old(lastCallAt), minInterval, now)
      ensures sleepFor == lastCallAt - now && sleepFor >= 0.0
    {
      var scheduledAt := AtLeastReal(now, lastCallAt + minInterval);
      lastCallAt := scheduledAt;
      sleepFor := AtLeastReal(0.0, scheduledAt - now);
    }

    /**
     * `chat`: up to `maxRetries + 1` attempts, each after one rate slot. The
     * result, the number of attempts and the pauses slept between them are
     * those of `Run`; the slots granted are those the scheduler gives for the
     * clock readings of the attempts made.
     */
    method Chat(sdk: nat -> SdkOutcome, clock: nat -> real)
      returns (r: Result<ChatResult>, ghost attempts: nat, ghost backoffs: seq<real>, ghost slots: seq<real>)
      modifies this`lastCallAt
      ensures r == Run(sdk, maxRetries).result
      ensures attempts == Run(sdk, maxRetries).attempts
      ensures backoffs == Run(sdk, maxRetries).backoffs
      ensures slots == Slots(old(lastCallAt), minInterval, Readings(clock, attempts))
      ensures lastCallAt == slots[|slots| - 1]
    {
      ghost var total := Run(sdk, maxRetries);
      ghost var start := lastCallAt;
      var lastError: Option<SdkOutcome> := None;
      attempts, backoffs, slots := 0, [], [];
      var attempt := 0;
      while attempt <= maxRetries
        invariant attempt <= maxRetries + 1 && attempts == attempt
        invariant attempt <= maxRetries ==>
          var rest := Attempts(sdk, maxRetries, attempt);
          total.result == rest.result && total.attempts == attempt + rest.attempts
          && total.backoffs == backoffs + rest.backoffs
        invariant attempt == maxRetries + 1 ==>
          total == ChatRun(FinalError(lastError), attempts, backoffs)
        invariant slots == Slots(start, minInterval, Readings(clock, attempt))
        invariant attempt > 0 ==> lastCallAt == slots[attempt - 1]
        invariant attempt == 0 ==> lastCallAt == start
        decreases maxRetries + 1 - attempt
      {
        var sleepFor := AcquireRateSlot(clock(attempt));
        SlotsSnoc(start, minInterval, Readings(clock, attempt), clock(attempt), lastCallAt);
        assert Readings(clock, attempt + 1) == Readings(clock, attempt) + [clock(attempt)];
        slots := slots + [lastCallAt];
        attempts := attempts + 1;
        var outcome := sdk(attempt);
        if !Transient(outcome) {
          r := Settle(outcome);
          assert backoffs + [] == backoffs;
          return;
        }
        lastError := Some(outcome);
        if attempt >= maxRetries {
          assert backoffs + [] == backoffs;
          break;
        }
        var backoffSeconds := Backoff(attempt);
        ghost var rest := Attempts(sdk, maxRetries, attempt + 1);
        ConcatAssoc(backoffs, [backoffSeconds], rest.backoffs);
        backoffs := backoffs + [backoffSeconds];
        attempt := attempt + 1;
      }
      r := FinalError(lastError);
    }
  }

  /** Granting one more slot extends the sequence of slots by that grant. */
  lemma {:induction false} SlotsSnoc(last: real, interval: real, nows: seq<real>, now: real, granted: real)
    requires granted == SlotAt(if nows == [] then last else Slots(last, interval, nows)[|nows| - 1], interval, now)
    ensures Slots(last, interval, nows + [now]) == Slots(last, interval, nows) + [granted]
    decreases |nows|
  {
    if nows == [] {
      assert [now][1..] == [];
    } else {
      var t := SlotAt(last, interval, nows[0]);
      assert (nows + [now])[1..] == nows[1..] + [now];
      if |nows| > 1 {
        assert Slots(last, interval, nows)[|nows| - 1] == Slots(t, interval, nows[1..])[|nows| - 2];
      }
      SlotsSnoc(t, interval, nows[1..], now, granted);
      ConcatAssoc([t], Slots(t, interval, nows[1..]), [granted]);
    }
  }
}
