/**
 * The health-watch goroutine: open a watch stream, log what it reports until it ends, wait, and reconnect.  The wait
 * doubles while watches fail to start, up to a cap, and starts over when one opens.
 */
module HealthWatch {
  import opened Powers

  const INITIAL_BACKOFF := 500_000_000
  const MAX_BACKOFF := 30_000_000_000

  function Min(a: int, b: int): int { if a <= b then a else b }

  /**
   * What the environment does to one pass of the loop: whether the context was already cancelled when the watch
   * call started, whether the call opened a stream and how many messages it brought, whether the context was
   * cancelled when the error was looked at, and whether the sleep ran to its end (a select may still choose the
   * timer after a cancellation).
   */
  datatype Attempt = Attempt(startDone: bool, connected: bool, messages: nat, errDone: bool, slept: bool)

  /** A cancelled context stays cancelled. */
  ghost predicate Possible(script: seq<Attempt>) {
    forall i :: 0 <= i < |script| && script[i].startDone ==> script[i].errDone
  }

  /** The latest pass at or before `i` whose stream opened (and so ended), or 0 if there is none. */
  function LastOpened(script: seq<Attempt>, i: nat): (r: nat)
    requires i < |script|
    ensures r <= i
    ensures script[r].connected || r == 0
    ensures forall j :: r < j <= i ==> !script[j].connected
  {
    if script[i].connected || i == 0 then i else LastOpened(script, i - 1)
  }

  function Wait(script: seq<Attempt>, i: nat): int
    requires i < |script|
  {
    Min(INITIAL_BACKOFF * Pow2(i - LastOpened(script, i)), MAX_BACKOFF)
  }

  /** The messages logged are those of the streams of the first `n` passes, each once and in order. */
  ghost predicate LoggedExactly(script: seq<Attempt>, n: nat, log: seq<(nat, nat)>)
    requires n <= |script|
  {
    && (forall k :: 0 <= k < |log| ==>
        log[k].0 < n && script[log[k].0].connected && log[k].1 < script[log[k].0].messages)
    && (forall k, l :: 0 <= k < l < |log| ==> log[k].0 < log[l].0 || (log[k].0 == log[l].0 && log[k].1 < log[l].1))
    && (forall i, j :: 0 <= i < n && script[i].connected && 0 <= j < script[i].messages ==> (i, j) in log)
  }

  /** Doubling and capping step by step is capping the power. */
  lemma DoublingCaps(n: nat)
    ensures Min(Min(INITIAL_BACKOFF * Pow2(n), MAX_BACKOFF) * 2, MAX_BACKOFF) ==
        Min(INITIAL_BACKOFF * Pow2(n + 1), MAX_BACKOFF)
  {
  }

  lemma NothingLogged(script: seq<Attempt>, pass: nat, log: seq<(nat, nat)>)
    requires pass < |script| && !script[pass].connected && LoggedExactly(script, pass, log)
    ensures LoggedExactly(script, pass + 1, log)
  {
  }

  /** The inner loop: log every message of the stream until it ends. */
  method LogStream(script: seq<Attempt>, pass: nat, before: seq<(nat, nat)>) returns (log: seq<(nat, nat)>)
    requires pass < |script| && script[pass].connected && LoggedExactly(script, pass, before)
    ensures LoggedExactly(script, pass + 1, log)
  {
    log := before;
    var received := 0;
    while received < script[pass].messages
      invariant received <= script[pass].messages && |log| == |before| + received
      invariant forall k :: 0 <= k < |before| ==> log[k] == before[k]
      invariant forall k :: |before| <= k < |log| ==> log[k] == (pass, k - |before|)
    {
      log := log + [(pass, received)];
      received := received + 1;
    }
    forall i, j | 0 <= i < pass + 1 && script[i].connected && 0 <= j < script[i].messages ensures (i, j) in log {
      if i < pass {
        var k :| 0 <= k < |before| && before[k] == (i, j);
        assert log[k] == (i, j);
      } else {
        assert log[|before| + j] == (i, j);
      }
    }
  }

  /** The goroutine over the passes the environment gives it; it is still running if it outlives them. */
  method WatchLoop(script: seq<Attempt>) returns (calls: nat, sleeps: seq<int>, log: seq<(nat, nat)>)
    requires Possible(script)
    // It goes on until cancellation is seen, after a failed watch and after a stream alike.
    ensures calls <= |script| && forall i :: 0 <= i < calls - 1 ==> !script[i].errDone && script[i].slept
    ensures calls < |script| ==> calls > 0 && (script[calls - 1].errDone || !script[calls - 1].slept)
    // Every pass sleeps, for the capped power since the last stream, unless cancellation was seen first.
    ensures |sleeps| == if calls > 0 && script[calls - 1].errDone then calls - 1 else calls
    ensures forall i :: 0 <= i < |sleeps| ==> sleeps[i] == Wait(script, i)
    // A watch call that starts after cancellation is the last one.
    ensures forall i :: 0 <= i < calls && script[i].startDone ==> i == calls - 1
    ensures LoggedExactly(script, calls, log)
  {
    var backoff := INITIAL_BACKOFF;
    calls, sleeps, log := 0, [], [];
    assert LoggedExactly(script, 0, log);
    hide LoggedExactly;
    while calls < |script|
      invariant calls <= |script| && |sleeps| == calls
      invariant forall i :: 0 <= i < calls ==> !script[i].errDone && script[i].slept
      invariant forall i :: 0 <= i < calls ==> sleeps[i] == Wait(script, i)
      invariant backoff == if calls == 0 then INITIAL_BACKOFF else Min(2 * Wait(script, calls - 1), MAX_BACKOFF)
      invariant LoggedExactly(script, calls, log)
    {
      ghost var i := calls;
      var a := script[calls];
      calls := calls + 1;
      if !a.connected {
        NothingLogged(script, i, log);
        if a.errDone {
          return;
        }
        assert backoff == Wait(script, i) by {
          if i > 0 { DoublingCaps(i - 1 - LastOpened(script, i - 1)); }
        }
        sleeps := sleeps + [backoff];
        if !a.slept {
          return;
        }
        backoff := Min(backoff * 2, MAX_BACKOFF);
        continue;
      }
      backoff := INITIAL_BACKOFF;
      log := LogStream(script, calls - 1, log);
      if a.errDone {
        return;
      }
      sleeps := sleeps + [backoff];
      if !a.slept {
        return;
      }
      backoff := Min(backoff * 2, MAX_BACKOFF);
    }
  }

  /** If every watch opens, every wait is the initial one; while none does, waits double to the cap and stay there. */
  lemma WaitShape(script: seq<Attempt>, i: nat)
    requires i < |script|
    ensures 500_000_000 <= Wait(script, i) <= 30_000_000_000
    ensures i == 0 || script[i].connected ==> Wait(script, i) == 500_000_000
    ensures i + 1 < |script| && !script[i + 1].connected ==>
        Wait(script, i + 1) == if Wait(script, i) <= 15_000_000_000 then 2 * Wait(script, i) else 30_000_000_000
    ensures i - LastOpened(script, i) >= 6 <==> Wait(script, i) == 30_000_000_000
  {
    var n := i - LastOpened(script, i);
    DoublingCaps(n);
    assert Pow2(5) == 32 && Pow2(6) == 64 by { assert Pow2(3) == 8; }
    if n >= 6 {
      Pow2Grows(6, n);
    } else {
      Pow2Grows(n, 5);
    }
  }
}
