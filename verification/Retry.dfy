/**
 * The retry interceptor: invoke, and while the error is a retryable status, wait and invoke again, up to a maximum.
 */
module Retry {
  import opened Powers
  import opened Backoff

  /** What an invocation returns; only an error carrying a status code can be retried. */
  datatype Outcome = Ok | Status(code: nat) | OtherError | ContextError

  datatype Config = Config(retryMax: int, backoff: int, codes: seq<nat>)

  /**
   * The environment of one call: attempt `j` returns `outcomes(j)`, `cut(j)` is whether the context ended its
   * backoff.
   */
  datatype Env = Env(outcomes: nat -> Outcome, cut: nat -> bool, random: nat -> nat)

  predicate IsRetryable(code: nat, codes: seq<nat>) {
    code in codes
  }

  /**
   * What the interceptor promises: it invokes until an outcome is final, the retries are used up, or the context
   * ends a backoff, and reports that outcome or the context's error.
   */
  ghost predicate Specified(cfg: Config, env: Env, calls: nat, result: Outcome) {
    && calls >= 1
    && calls - 1 <= cfg.retryMax
    && (forall j: nat :: j < calls - 1 ==>
        env.outcomes(j).Status? && env.outcomes(j).code in cfg.codes && !env.cut(j))
    && (if env.outcomes(calls - 1).Status? && env.outcomes(calls - 1).code in cfg.codes && calls - 1 < cfg.retryMax
        then env.cut(calls - 1) && result == ContextError
        else result == env.outcomes(calls - 1))
  }

  function Sum(waits: seq<int>): int {
    if waits == [] then 0 else Sum(waits[..|waits| - 1]) + waits[|waits| - 1]
  }

  /** These are the waits of the first backoffs. */
  ghost predicate AreWaits(cfg: Config, env: Env, waits: seq<int>) {
    forall j :: 0 <= j < |waits| ==> waits[j] == Duration(j, cfg.backoff, env.random(j))
  }

  lemma {:induction false} SumIsTotal(cfg: Config, env: Env, waits: seq<int>)
    requires AreWaits(cfg, env, waits)
    ensures Sum(waits) == Total(cfg.backoff, env.random, |waits|)
  {
    if waits != [] {
      SumIsTotal(cfg, env, waits[..|waits| - 1]);
    }
  }

  /** All the waits of a call together take no longer than this. */
  predicate WithinBudget(cfg: Config, waits: seq<int>) {
    cfg.backoff > 0 && cfg.retryMax > 0 ==> Sum(waits) <= Scale(cfg.backoff, cfg.retryMax) - cfg.backoff
  }

  /**
   * All the waits of a call together: never longer than the exact backoffs, and at least half of each of them if
   * the last of these fits in 64 bits.
   */
  lemma WaitsBounded(cfg: Config, env: Env, waits: seq<int>)
    requires cfg.backoff <= MAX_INT64 && AreWaits(cfg, env, waits) && |waits| <= cfg.retryMax
    ensures WithinBudget(cfg, waits)
    ensures cfg.backoff > 0 && waits != [] && Scale(cfg.backoff, |waits| - 1) <= MAX_INT64 ==>
              LeastTotal(cfg.backoff, |waits|) <= Sum(waits)
  {
    SumIsTotal(cfg, env, waits);
    if cfg.backoff > 0 {
      TotalAtMost(cfg.backoff, env.random, |waits|);
      ScaleGrows(cfg.backoff, |waits|, cfg.retryMax);
    }
    if cfg.backoff > 0 && waits != [] && Scale(cfg.backoff, |waits| - 1) <= MAX_INT64 {
      TotalAtLeast(cfg.backoff, env.random, |waits|);
    }
  }

  /** The wait before the next attempt, after those before the earlier ones. */
  method NextWait(cfg: Config, env: Env, before: seq<int>) returns (waits: seq<int>)
    requires cfg.backoff <= MAX_INT64 && AreWaits(cfg, env, before) && |before| < cfg.retryMax
    ensures |waits| == |before| + 1 && AreWaits(cfg, env, waits) && WithinBudget(cfg, waits)
  {
    var attempt := |before|;
    var wait := BackoffDuration(attempt, cfg.backoff, env.random(attempt));
    waits := before + [wait];
    WaitsBounded(cfg, env, waits);
  }

  /** `range n` runs from 0 up to `n`, so not at all for a negative `n`; the bound here is computed in int64. */
  method Retry(cfg: Config, env: Env) returns (calls: nat, result: Outcome, waits: seq<int>)
    requires -TWO_63 <= cfg.retryMax <= MAX_INT64 && cfg.backoff <= MAX_INT64
    ensures cfg.retryMax <= 0 ==> calls == 1 && result == env.outcomes(0)
    ensures 0 < cfg.retryMax < MAX_INT64 ==> Specified(cfg, env, calls, result)
    // At the largest int the bound overflows: nothing is invoked and success is reported.
    ensures calls >= 1 <==> cfg.retryMax < MAX_INT64
    ensures cfg.retryMax == MAX_INT64 ==> calls == 0 && result == Ok
    // A wait follows every call but the last, and the last one too if the context ended it.
    ensures |waits| == if calls == 0 then 0
                       else if result == ContextError && env.outcomes(calls - 1).Status? then calls
                       else calls - 1
    ensures AreWaits(cfg, env, waits)
    ensures WithinBudget(cfg, waits)
  {
    calls, waits := 0, [];
    if cfg.retryMax <= 0 {
      return 1, env.outcomes(0), [];
    }
    WrapNext(cfg.retryMax);
    hide Wrap64;
    var lastErr := Ok;
    var attempts := Wrap64(cfg.retryMax + 1);
    var attempt := 0;
    WaitsBounded(cfg, env, waits);
    hide AreWaits, WithinBudget;
    while attempt < attempts
      invariant 0 <= attempt && (if attempts > 0 then attempt <= cfg.retryMax else attempt == 0)
      invariant calls == attempt == |waits|
      invariant forall j: nat :: j < attempt ==>
                  env.outcomes(j).Status? && env.outcomes(j).code in cfg.codes && !env.cut(j)
      invariant attempt == 0 ==> lastErr == Ok
      invariant AreWaits(cfg, env, waits)
      invariant WithinBudget(cfg, waits)
      decreases attempts - attempt
    {
      lastErr := env.outcomes(attempt);
      calls := calls + 1;
      if lastErr == Ok {
        return calls, Ok, waits;
      }
      if !lastErr.Status? || !IsRetryable(lastErr.code, cfg.codes) {
        return calls, lastErr, waits;
      }
      if attempt >= cfg.retryMax {
        break;
      }
      waits := NextWait(cfg, env, waits);
      if env.cut(attempt) {
        return calls, ContextError, waits;
      }
      attempt := attempt + 1;
    }
    return calls, lastErr, waits;
  }

  /** The index of the first outcome that ends the call: final, or the last one allowed. */
  function FirstFinal(cfg: Config, env: Env, from: nat): (i: nat)
    requires from <= cfg.retryMax
    ensures from <= i <= cfg.retryMax
    ensures forall j: nat :: from <= j < i ==> env.outcomes(j).Status? && env.outcomes(j).code in cfg.codes
    ensures i < cfg.retryMax ==> !env.outcomes(i).Status? || env.outcomes(i).code !in cfg.codes
    decreases cfg.retryMax - from
  {
    var o := env.outcomes(from);
    if from < cfg.retryMax && o.Status? && IsRetryable(o.code, cfg.codes) then FirstFinal(cfg, env, from + 1) else from
  }

  /**
   * Without cancellation the number of calls and the result are fixed: up to the first final outcome, which is
   * returned.
   */
  lemma Uncancelled(cfg: Config, env: Env, calls: nat, result: Outcome)
    requires cfg.retryMax > 0 && forall j: nat :: !env.cut(j)
    ensures Specified(cfg, env, calls, result)
       <==> calls == FirstFinal(cfg, env, 0) + 1 && result == env.outcomes(FirstFinal(cfg, env, 0))
  {
  }

  /**
   * A cancellation in the backoff after attempt `j`, the first one, returns the context's error after `j + 1`
   * calls.
   */
  lemma CancelledAt(cfg: Config, env: Env, j: nat, calls: nat, result: Outcome)
    requires cfg.retryMax > 0 && j < FirstFinal(cfg, env, 0) && env.cut(j) && forall i: nat :: i < j ==> !env.cut(i)
    ensures Specified(cfg, env, calls, result) <==> calls == j + 1 && result == ContextError
  {
  }
}
