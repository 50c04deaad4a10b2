/** The retry loop of `http_client_execute` in src/infra/http_client.c. */
module HttpRetry {
  import opened Bytes

  const CAP_MS := 10000.0

  /** What one transfer leaves behind; `status` is 0 when no status line arrived. */
  datatype Reply = Reply(transferred: bool, status: int) {
    predicate Success() { transferred && 200 <= status < 300 }
  }

  predicate IsRetryable(status: int) { status >= 500 || status == 429 }

  predicate ShouldRetry(reply: Reply, attempt: int, maxRetries: int) {
    maxRetries > 0 && attempt < maxRetries && IsRetryable(reply.status)
  }

  function Retries(maxRetries: int): nat { if maxRetries > 0 then maxRetries else 0 }

  function Min(a: real, b: real): real { if a <= b then a else b }

  /** The wait before attempt `k`, in milliseconds. */
  function Delay(base: real, k: nat): real { Min(Doubled(base, k), CAP_MS) }

  function Doubled(base: real, k: nat): real { base * Pow2(k) as real }

  /** The argument of `usleep`: whole microseconds. */
  function Micros(delay: real): int { (delay * 1000.0).Floor }

  // ---- The loop ----

  /** A client, its two retry settings and every `usleep` it has asked for. */
  class HttpClient {
    const maxRetries: int
    const retryBaseDelayMs: real
    var slept: seq<int>

    constructor (maxRetries: int, retryBaseDelayMs: real)
      ensures this.maxRetries == maxRetries && this.retryBaseDelayMs == retryBaseDelayMs && slept == []
    {
      this.maxRetries := maxRetries;
      this.retryBaseDelayMs := retryBaseDelayMs;
      slept := [];
    }

    method ExponentialBackoff(attempt: nat)
      modifies this
      ensures slept == old(slept) + [Micros(Delay(retryBaseDelayMs, attempt))]
    {
      var delayMs := retryBaseDelayMs * Pow2(attempt) as real;
      if delayMs > CAP_MS {
        delayMs := CAP_MS;
      }
      slept := slept + [(delayMs * 1000.0).Floor];
    }

    /** `server(i)` answers attempt `i`; the exponent of the shift stays below the width of `int`. */
    method Execute(server: nat -> Reply) returns (response: Reply, attempts: nat, rc: int)
      requires maxRetries <= 30 && retryBaseDelayMs >= 0.0
      modifies this
      ensures LastAttempt(server, maxRetries, attempts)
      ensures response == server(attempts - 1)
      ensures rc == if response.transferred && 200 <= response.status < 300 then 0 else -1
      ensures slept == old(slept) + Sleeps(retryBaseDelayMs, attempts)
      ensures 1 <= attempts <= (if maxRetries > 0 then maxRetries else 0) + 1
      ensures forall i | 0 <= i < attempts - 1 :: server(i).status == 429 || server(i).status >= 500
      ensures attempts <= maxRetries ==> !(response.status == 429 || response.status >= 500)
    {
      var attempt := 0;
      while true
        invariant 0 <= attempt <= Retries(maxRetries)
        invariant forall i | 0 <= i < attempt :: IsRetryable(server(i).status)
        invariant slept == old(slept) + if attempt == 0 then [] else Sleeps(retryBaseDelayMs, attempt)
        decreases Retries(maxRetries) - attempt
      {
        if attempt > 0 {
          ExponentialBackoff(attempt);
        }
        response := server(attempt);
        if ShouldRetry(response, attempt, maxRetries) {
          attempt := attempt + 1;
          continue;
        }
        break;
      }
      attempts := attempt + 1;
      rc := if response.Success() then 0 else -1;
    }
  }

  /** Every earlier reply was retryable; the last one was not, or no retry was left. */
  predicate LastAttempt(server: nat -> Reply, maxRetries: int, n: nat) {
    && 1 <= n <= Retries(maxRetries) + 1
    && (forall i | 0 <= i < n - 1 :: IsRetryable(server(i).status))
    && (IsRetryable(server(n - 1).status) ==> n == Retries(maxRetries) + 1)
  }

  /** The sleeps of a run of `n` attempts: one before each attempt but the first. */
  function Sleeps(base: real, n: nat): seq<int>
    requires n >= 1
  {
    if n == 1 then [] else Sleeps(base, n - 1) + [Micros(Delay(base, n - 1))]
  }

  /** The wait starts from the base and doubles with every attempt. */
  lemma {:induction false} DoubledSteps(base: real, k: nat)
    ensures Doubled(base, 0) == base && Doubled(base, k + 1) == 2.0 * Doubled(base, k)
  {
    var p := Pow2(k) as real;
    assert base * (2.0 * p) == 2.0 * (base * p);
  }

  lemma {:induction false} MicrosOfMin(ms: real)
    ensures Micros(Min(ms, CAP_MS)) == if ms > 10000.0 then 10_000_000 else (ms * 1000.0).Floor
  {
    if ms > 10000.0 {
      assert 10000.0 * 1000.0 == 10_000_000.0;
      assert (10_000_000.0).Floor == 10_000_000;
    }
  }

  lemma {:induction false} SleepAt(base: real, n: nat, k: nat)
    requires 1 <= k < n
    ensures |Sleeps(base, n)| == n - 1 && Sleeps(base, n)[k - 1] == Micros(Delay(base, k))
    decreases n
  {
    hide Micros, Delay;
    SleepCount(base, n - 1);
    if k < n - 1 {
      SleepAt(base, n - 1, k);
    }
  }

  /** Before attempt k the client sleeps the doubled wait in milliseconds, or 10 seconds if that is less. */
  lemma {:induction false} SleepBefore(base: real, n: nat, k: nat)
    requires 1 <= k < n
    ensures |Sleeps(base, n)| == n - 1
    ensures var ms := Doubled(base, k);
            Sleeps(base, n)[k - 1] == if ms > 10000.0 then 10_000_000 else (ms * 1000.0).Floor
  {
    SleepAt(base, n, k);
    hide Micros, Doubled, Sleeps;
    MicrosOfMin(Doubled(base, k));
  }

  lemma {:induction false} SleepCount(base: real, n: nat)
    requires n >= 1
    ensures |Sleeps(base, n)| == n - 1
  {
    hide Micros, Delay;
    if n > 1 {
      SleepCount(base, n - 1);
    }
  }

  // ---- How many attempts ----

  lemma {:induction false} AttemptsAreDetermined(server: nat -> Reply, maxRetries: int, m: nat, n: nat)
    requires LastAttempt(server, maxRetries, m) && LastAttempt(server, maxRetries, n)
    ensures m == n
  {
    var lastOfM, lastOfN := server(m - 1).status, server(n - 1).status;
    assert m < n ==> IsRetryable(lastOfM);
    assert n < m ==> IsRetryable(lastOfN);
  }

  /** Which attempt, if any, a caller can rely on: the call succeeds iff some attempt in reach succeeds. */
  lemma {:induction false} SucceedsIff(server: nat -> Reply, maxRetries: int, n: nat)
    requires LastAttempt(server, maxRetries, n)
    ensures server(n - 1).Success() <==>
            exists k: nat :: k <= Retries(maxRetries) && server(k).Success() &&
                             forall i | 0 <= i < k :: IsRetryable(server(i).status)
  {
    if server(n - 1).Success() {
      var k := n - 1;
      assert k <= Retries(maxRetries) && server(k).Success();
    }
    forall k: nat | k <= Retries(maxRetries) && server(k).Success() &&
                    forall i | 0 <= i < k :: IsRetryable(server(i).status)
      ensures server(n - 1).Success()
    {
      assert !IsRetryable(server(k).status);
      AttemptsAreDetermined(server, maxRetries, k + 1, n);
    }
  }

  // ---- How long the waits are ----

  /** All waits of `n` attempts in milliseconds, before truncation to microseconds. */
  function TotalWait(base: real, n: nat): real
    requires n >= 1
  {
    if n == 1 then 0.0 else TotalWait(base, n - 1) + Delay(base, n - 1)
  }

  function Sum(s: seq<int>): int { if s == [] then 0 else Sum(s[..|s| - 1]) + s[|s| - 1] }

  /** The sleeps requested add up to the millisecond total, less one microsecond a retry at most. */
  lemma {:induction false} SleptIsTotalWait(base: real, n: nat)
    requires n >= 1 && base >= 0.0
    ensures |Sleeps(base, n)| == n - 1
    ensures TotalWait(base, n) * 1000.0 - (n - 1) as real <= Sum(Sleeps(base, n)) as real <= TotalWait(base, n) * 1000.0
  {
    if n > 1 {
      SleptIsTotalWait(base, n - 1);
      var s, d := Sleeps(base, n), Delay(base, n - 1);
      assert s[..|s| - 1] == Sleeps(base, n - 1);
      assert (d * 1000.0) - 1.0 <= Micros(d) as real <= d * 1000.0;
    }
  }

  /** `n` attempts whose waits double from `2 * base` up to attempt `m` and are 10 s from then on. */
  function ClosedTotal(base: real, n: nat, m: nat): real { base * (Pow2(m) as real - 2.0) + CAP_MS * (n - m) as real }

  /** Attempt `m` is the first that waits the full cap, or there is none. */
  predicate CapStartsAt(base: real, n: nat, m: nat) {
    && 1 <= m <= n
    && (m < n ==> Doubled(base, m) > CAP_MS)
    && (m > 1 ==> Doubled(base, m - 1) <= CAP_MS)
  }

  /** A closed form of the total wait. */
  lemma {:induction false} TotalWaitClosed(base: real, n: nat) returns (m: nat)
    requires n >= 1 && base >= 0.0
    ensures CapStartsAt(base, n, m) && TotalWait(base, n) == ClosedTotal(base, n, m)
  {
    if n == 1 {
      m := 1;
      assert Pow2(1) == 2;
    } else {
      hide ClosedTotal, Doubled;
      var k := n - 1;
      m := TotalWaitClosed(base, k);
      if m == k && Doubled(base, k) <= CAP_MS {
        StillDoubling(base, k);
        m := n;
      } else {
        DelaysGrow(base, m, k);
        Capped(base, k, m);
      }
    }
  }

  lemma {:induction false} StillDoubling(base: real, k: nat)
    ensures ClosedTotal(base, k + 1, k + 1) == ClosedTotal(base, k, k) + Doubled(base, k)
  {
    var q := Pow2(k) as real;
    assert base * (2.0 * q - 2.0) == base * (q - 2.0) + base * q;
  }

  lemma {:induction false} Capped(base: real, k: nat, m: nat)
    ensures ClosedTotal(base, k + 1, m) == ClosedTotal(base, k, m) + CAP_MS
  {
    assert CAP_MS * (k + 1 - m) as real == CAP_MS * (k - m) as real + CAP_MS;
  }

  lemma {:induction false} DelaysGrow(base: real, j: nat, k: nat)
    requires base >= 0.0 && j <= k
    ensures Doubled(base, j) <= Doubled(base, k)
    decreases k - j
  {
    if j < k {
      DelaysGrow(base, j, k - 1);
      var p := Pow2(k - 1) as real;
      assert base * (2.0 * p) == base * p + base * p;
    }
  }
}
