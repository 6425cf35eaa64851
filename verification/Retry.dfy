/** Retrying a vendor request: which answers are retried, for how long, and what happens to
    the bodies of the answers that are not returned. */
module Retry {
  import opened Int64

  /** An HTTP response; its body counts how often it was closed. */
  class Response {
    const status: int
    var closes: nat

    constructor (status: int)
      ensures this.status == status && closes == 0
    {
      this.status, closes := status, 0;
    }

    method Close()
      modifies this
      ensures closes == old(closes) + 1
    {
      closes := closes + 1;
    }
  }

  /** What one attempt gave: a response, an error, or both. */
  datatype Attempt = Attempt(resp: Response?, failed: bool)

  /** Server errors, 408 and 429 are retried; no other status is. */
  predicate RetryableStatus(status: int) {
    500 <= status <= 599 || status == 408 || status == 429
  }

  predicate Retryable(a: Attempt)
    requires a.failed || a.resp != null
  {
    a.failed || RetryableStatus(a.resp.status)
  }

  predicate ClosesBody(a: Attempt) {
    a.resp != null && RetryableStatus(a.resp.status)
  }

  // ---- the backoff ----

  datatype RetryConfig = RetryConfig(maxAttempts: int, baseDelay: int, maxDelay: int)

  /** The bound on the delay after an attempt, computed with wrapping 64-bit operations and
      then clamped. */
  function UpperBound(cfg: RetryConfig, attempt: nat): int
    requires attempt >= 1
  {
    var upper := Wrap(cfg.baseDelay * ShiftOne(attempt - 1));
    if upper > cfg.maxDelay || upper <= 0 then cfg.maxDelay else upper
  }

  /** The bound as it is meant. */
  function IdealBound(cfg: RetryConfig, attempt: nat): int
    requires attempt >= 1
  {
    var ideal := cfg.baseDelay * Pow2(attempt - 1);
    if ideal < cfg.maxDelay then ideal else cfg.maxDelay
  }

  /** Whatever wrapped, the bound can be handed to the random generator. */
  lemma BoundIsPositive(cfg: RetryConfig, attempt: nat)
    requires attempt >= 1 && cfg.maxDelay >= 1
    ensures 1 <= UpperBound(cfg, attempt) <= cfg.maxDelay
  {
  }

  lemma Distributes(a: int, b: int, c: int)
    ensures a * (b - c) == a * b - a * c
  {
  }

  lemma Associates(a: int, b: int, c: int)
    ensures (a * b) * c == a * (b * c)
  {
  }

  lemma Orders(a: nat, x: int, y: int)
    ensures x <= y ==> a * x <= a * y
  {
  }

  /** A wrapped product with a power of two is a multiple of that power. */
  lemma WrappedIsMultiple(base: int, k: nat) returns (q: int)
    requires k <= 63
    ensures Wrap(base * ShiftOne(k)) == Pow2(k) * q
  {
    Pow2Of63();
    Pow2Adds(k, 64 - k);
    var p, rest := Pow2(k), Pow2(64 - k);
    var s := (p + TWO63) / TWO64;
    var unit := 1 - rest * s;
    assert ShiftOne(k) == p * unit by {
      Associates(p, rest, s);
      Distributes(p, 1, rest * s);
    }
    var x := base * ShiftOne(k);
    assert x == p * (base * unit) by {
      Associates(base, p, unit);
      Associates(p, base, unit);
    }
    var t := (x + TWO63) / TWO64;
    q := base * unit - rest * t;
    assert Wrap(x) == x - TWO64 * t;
    Associates(p, rest, t);
    Distributes(p, base * unit, rest * t);
  }

  lemma PositiveMultiple(p: nat, q: int)
    ensures p * q > 0 ==> p * q >= p
  {
    Orders(p, q, 0);
    Orders(p, 1, q);
  }

  /** For one attempt, the computed bound is the intended one exactly when the product of
      base and power fits 64 bits, or its residue modulo 2^64 is 0 or not below the maximum. */
  lemma BoundIsIdealExactly(cfg: RetryConfig, attempt: nat)
    requires attempt >= 1 && cfg.baseDelay >= 1 && 1 <= cfg.maxDelay < TWO63
    ensures var product := cfg.baseDelay * Pow2(attempt - 1);
      UpperBound(cfg, attempt) == IdealBound(cfg, attempt)
      <==> product < TWO63 || product % TWO64 == 0 || product % TWO64 >= cfg.maxDelay
  {
    ShiftedProductTells(cfg.baseDelay, attempt - 1);
    if cfg.baseDelay * Pow2(attempt - 1) < TWO63 {
      ProductFits(cfg, attempt);
    }
  }

  lemma ProductFits(cfg: RetryConfig, attempt: nat)
    requires attempt >= 1 && cfg.baseDelay >= 1 && cfg.baseDelay * Pow2(attempt - 1) < TWO63
    ensures Wrap(cfg.baseDelay * ShiftOne(attempt - 1)) == cfg.baseDelay * Pow2(attempt - 1) >= 1
  {
    Orders(cfg.baseDelay, 1, Pow2(attempt - 1));
    ShiftedProductFits(cfg.baseDelay, attempt - 1, cfg.baseDelay * Pow2(attempt - 1));
  }

  /** When base and maximum multiply to less than 2^63, as the defaults do, the bound is
      min(maxDelay, baseDelay * 2^(attempt-1)) for every attempt. */
  lemma BoundIsIdeal(cfg: RetryConfig, attempt: nat)
    requires attempt >= 1 && cfg.baseDelay >= 1 && cfg.maxDelay >= 1
    requires cfg.baseDelay * cfg.maxDelay < TWO63
    ensures UpperBound(cfg, attempt) == IdealBound(cfg, attempt)
  {
    var k := attempt - 1;
    var p := Pow2(k);
    assert cfg.maxDelay <= cfg.baseDelay * cfg.maxDelay;
    if cfg.baseDelay * p < TWO63 {
      ProductFits(cfg, attempt);
    } else {
      Orders(cfg.baseDelay, p, cfg.maxDelay);
      assert p > cfg.maxDelay;
      Orders(p, 1, cfg.baseDelay);
      if k <= 63 {
        var q := WrappedIsMultiple(cfg.baseDelay, k);
        PositiveMultiple(p, q);
      }
    }
  }

  /** The bound never decreases from one attempt to the next. */
  lemma BoundNeverDecreases(cfg: RetryConfig, attempt: nat)
    requires attempt >= 1 && cfg.baseDelay >= 1 && cfg.maxDelay >= 1
    requires cfg.baseDelay * cfg.maxDelay < TWO63
    ensures UpperBound(cfg, attempt) <= UpperBound(cfg, attempt + 1)
  {
    BoundIsIdeal(cfg, attempt);
    BoundIsIdeal(cfg, attempt + 1);
    var p := Pow2(attempt - 1);
    assert Pow2(attempt) == 2 * p;
    Associates(cfg.baseDelay, 2, p);
    Associates(2, cfg.baseDelay, p);
    Orders(cfg.baseDelay, 0, p);
  }

  /** Without the bound on the product a large base wraps to a tiny delay. */
  lemma LargeBaseWraps()
    ensures var cfg := RetryConfig(5, TWO63 / 2 + 1, TWO63 / 2);
      UpperBound(cfg, 3) == 4 && IdealBound(cfg, 3) == TWO63 / 2
  {
    assert Pow2(2) == 4 && ShiftOne(2) == 4;
  }

  // ---- the loop ----

  datatype RetryResult = Answer(attempt: Attempt) | Cancelled

  function Attempts(cfg: RetryConfig): nat {
    if cfg.maxAttempts < 1 then 1 else cfg.maxAttempts
  }

  ghost predicate WellBehaved(script: seq<Attempt>, n: nat) {
    && n <= |script|
    && (forall a | a in script :: a.failed || a.resp != null)
    && (forall i, j | 0 <= i < j < |script| && script[i].resp != null :: script[i].resp != script[j].resp)
  }

  /** From attempt `k` of `n` on: how many attempts are made in all, and with what result.
      `before` and `during` say whether the context is done before an attempt and during
      the wait after it. */
  function RetryFrom(script: seq<Attempt>, n: nat, before: nat -> bool, during: nat -> bool, k: nat): (nat, RetryResult)
    requires 1 <= k <= n <= |script| && forall a | a in script :: a.failed || a.resp != null
    decreases n - k
  {
    if before(k) then (k - 1, Cancelled)
    else if !Retryable(script[k - 1]) || k == n then (k, Answer(script[k - 1]))
    else if during(k) then (k, Cancelled)
    else RetryFrom(script, n, before, during, k + 1)
  }

  /** rand.Int64N: a number below `n`, which must be positive; any of them can be drawn. */
  method Int64N(n: int, draw: nat) returns (r: nat)
    requires n > 0
    ensures r < n && (draw < n ==> r == draw)
    ensures r == draw % n
  {
    r := draw % n;
  }

  /** Each delay is what was drawn below the bound of its attempt. */
  ghost predicate Drawn(cfg: RetryConfig, draws: nat -> nat, delays: seq<int>) {
    cfg.maxDelay >= 1
    && forall i | 0 <= i < |delays| :: delays[i] == DrawnBelow(UpperBound(cfg, i + 1), draws(i + 1))
  }

  function DrawnBelow(n: int, draw: nat): (r: int)
    ensures n > 0 ==> 0 <= r < n
    ensures draw < n ==> r == draw
  {
    if n > 0 then draw % n else 0
  }

  /** The wait after an attempt: a random time below the clamped bound. */
  method Backoff(cfg: RetryConfig, attempt: nat, draws: nat -> nat, delays: seq<int>) returns (longer: seq<int>)
    requires cfg.maxDelay >= 1 && attempt == |delays| + 1 && Drawn(cfg, draws, delays)
    ensures |longer| == attempt && delays <= longer && Drawn(cfg, draws, longer)
  {
    BoundIsPositive(cfg, attempt);
    var upper := Wrap(cfg.baseDelay * ShiftOne(attempt - 1));
    if upper > cfg.maxDelay || upper <= 0 {
      upper := cfg.maxDelay;
    }
    var delay := Int64N(upper, draws(attempt));
    longer := delays + [delay];
  }

  /** So each delay is below its bound, and any delay below it can be drawn. */
  lemma DelaysAreJittered(cfg: RetryConfig, draws: nat -> nat, delays: seq<int>, i: nat)
    requires Drawn(cfg, draws, delays) && i < |delays|
    ensures 0 <= delays[i] < UpperBound(cfg, i + 1)
    ensures draws(i + 1) < UpperBound(cfg, i + 1) ==> delays[i] == draws(i + 1)
  {
    BoundIsPositive(cfg, i + 1);
  }

  ghost function Closes(script: seq<Attempt>): seq<int>
    reads set a | a in script && a.resp != null :: a.resp
  {
    seq(|script|, i requires 0 <= i < |script| reads set a | a in script && a.resp != null :: a.resp =>
      if script[i].resp == null then 0 else script[i].resp.closes)
  }

  /** Of the first `calls` attempts the retried ones have been closed once more than `was`
      says, and no other. */
  ghost predicate ClosedUpTo(script: seq<Attempt>, was: seq<int>, calls: nat)
    reads set a | a in script && a.resp != null :: a.resp
  {
    && |was| == |script|
    && forall i | 0 <= i < |script| && script[i].resp != null ::
         script[i].resp.closes == was[i] + if i < calls && ClosesBody(script[i]) then 1 else 0
  }

  /** The end of attempt `k`: a response that is not the answer is closed. */
  method CloseRetried(script: seq<Attempt>, k: nat, ghost was: seq<int>)
    requires k < |script| && WellBehaved(script, |script|) && ClosedUpTo(script, was, k)
    modifies set a | a in script && a.resp != null :: a.resp
    ensures ClosedUpTo(script, was, k + 1)
  {
    var a := script[k];
    if a.resp != null && RetryableStatus(a.resp.status) {
      a.resp.Close();
    }
  }

  /** Runs the attempts of `script` in order. Every response with a retried status is closed
      exactly once, the last one included, and no other body is touched. */
  method DoWithRetry(cfg: RetryConfig, script: seq<Attempt>, before: nat -> bool, during: nat -> bool,
                     draws: nat -> nat)
    returns (r: RetryResult, calls: nat, delays: seq<int>)
    requires cfg.maxDelay >= 1 && WellBehaved(script, Attempts(cfg))
    modifies set a | a in script && a.resp != null :: a.resp
    ensures var n := if cfg.maxAttempts >= 1 then cfg.maxAttempts else 1;
      calls <= n && (calls, r) == RetryFrom(script, n, before, during, 1)
    ensures forall i | 0 <= i < |script| && script[i].resp != null ::
      var status := script[i].resp.status;
      script[i].resp.closes == old(script[i].resp.closes)
        + if i < calls && (500 <= status <= 599 || status == 408 || status == 429) then 1 else 0
    ensures Drawn(cfg, draws, delays) && calls - 1 <= |delays| <= calls
  {
    ResultExactly(script, Attempts(cfg), before, during, 1);
    r, calls, delays := RunAttempts(cfg, script, before, during, draws, Closes(script));
  }

  method RunAttempts(cfg: RetryConfig, script: seq<Attempt>, before: nat -> bool, during: nat -> bool,
                     draws: nat -> nat, ghost was: seq<int>)
    returns (r: RetryResult, calls: nat, delays: seq<int>)
    requires cfg.maxDelay >= 1 && WellBehaved(script, Attempts(cfg)) && ClosedUpTo(script, was, 0)
    modifies set a | a in script && a.resp != null :: a.resp
    ensures (calls, r) == RetryFrom(script, Attempts(cfg), before, during, 1)
    ensures ClosedUpTo(script, was, calls)
    ensures Drawn(cfg, draws, delays) && calls - 1 <= |delays| <= calls
  {
    var n := if cfg.maxAttempts < 1 then 1 else cfg.maxAttempts;
    var attempt := 1;
    calls, delays := 0, [];
    while attempt <= n
      invariant 1 <= attempt <= n && calls == attempt - 1 == |delays|
      invariant RetryFrom(script, n, before, during, 1) == RetryFrom(script, n, before, during, attempt)
      invariant ClosedUpTo(script, was, calls)
      invariant Drawn(cfg, draws, delays)
      decreases n - attempt
    {
      if before(attempt) {
        return Cancelled, calls, delays;
      }
      var a := script[attempt - 1];
      calls := attempt;
      if !Retryable(a) {
        return Answer(a), calls, delays;
      }
      CloseRetried(script, attempt - 1, was);
      if attempt == n {
        return Answer(a), calls, delays;
      }
      delays := Backoff(cfg, attempt, draws, delays);
      if during(attempt) {
        return Cancelled, calls, delays;
      }
      attempt := attempt + 1;
    }
    assert false;
  }

  /** An attempt that settles the matter: it came back without an error, and its status is
      neither a server error nor 408 nor 429. */
  predicate Settles(a: Attempt)
    requires a.failed || a.resp != null
  {
    !a.failed && (a.resp.status < 500 || 599 < a.resp.status) && a.resp.status != 408 && a.resp.status != 429
  }

  /** With a context that is never done, the result is the first answer that is not to be
      retried, among the first max(1, maxAttempts), or else the last of those; exactly the
      attempts up to it are made. */
  lemma UncancelledResult(script: seq<Attempt>, n: nat, before: nat -> bool, during: nat -> bool, k: nat)
    requires 1 <= k <= n && WellBehaved(script, n)
    requires forall i :: !before(i) && !during(i)
    ensures var (calls, r) := RetryFrom(script, n, before, during, k);
      && k <= calls <= n && r == Answer(script[calls - 1])
      && (forall i | k - 1 <= i < calls - 1 :: !Settles(script[i]))
      && (calls == n || Settles(script[calls - 1]))
  {
    ResultExactly(script, n, before, during, k);
    var calls := RetryFrom(script, n, before, during, k).0;
    forall i | k - 1 <= i < calls - 1
      ensures !Settles(script[i])
    {
      assert GoesOn(script, before, during, i + 1);
    }
  }

  /** Attempt `i` did not end the run: the context was not done, and the answer is retried. */
  predicate GoesOn(script: seq<Attempt>, before: nat -> bool, during: nat -> bool, i: nat)
    requires 1 <= i <= |script| && (script[i - 1].failed || script[i - 1].resp != null)
  {
    !before(i) && !Settles(script[i - 1]) && !during(i)
  }

  /** Whatever the context does: no attempt before the last made settles the matter, and the
      context was done neither before one nor in the wait after one. Then the run ends with an
      answer, because that settles it or is the n-th, or because the context is done, before
      the next attempt or in the wait. */
  lemma {:induction false} ResultExactly(script: seq<Attempt>, n: nat, before: nat -> bool, during: nat -> bool, k: nat)
    requires 1 <= k <= n && WellBehaved(script, n)
    ensures var (calls, r) := RetryFrom(script, n, before, during, k);
      && k - 1 <= calls <= n
      && (forall i | k <= i < calls :: GoesOn(script, before, during, i))
      && match r
         case Answer(a) =>
           calls >= k && !before(calls) && a == script[calls - 1] && (Settles(a) || calls == n)
         case Cancelled =>
           || (calls < n && before(calls + 1) && (calls >= k ==> GoesOn(script, before, during, calls)))
           || (k <= calls < n && !before(calls) && !Settles(script[calls - 1]) && during(calls))
    decreases n - k
  {
    assert script[k - 1] in script;
    assert Retryable(script[k - 1]) == !Settles(script[k - 1]);
    if !before(k) && Retryable(script[k - 1]) && k < n && !during(k) {
      ResultExactly(script, n, before, during, k + 1);
      assert GoesOn(script, before, during, k);
    }
  }
}
