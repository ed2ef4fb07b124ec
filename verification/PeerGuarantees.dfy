/**
 * What a run of the evicting limiter guarantees each peer: a bound on admissions in every window, independence
 * from other peers, and exactly which slots survive the ticks.
 */
module PeerGuarantees {
  import opened Wrappers
  import opened TokenBucket
  import opened PeerTable

  // ----- Windows -----

  function AdmittedFor(key: string, es: seq<Event>, answers: seq<Option<bool>>): nat
    requires |es| == |answers|
  {
    if es == [] then 0
    else
      var admitted := es[0].Request? && es[0].key == key && answers[0] == Some(true);
      (if admitted then 1 else 0) + AdmittedFor(key, es[1..], answers[1..])
  }

  /**
   * `g` is what the peer may still be granted.  It covers what its bucket is worth, and enough of it has built up
   * since the peer was last seen to pay for the full bucket an eviction would hand out.
   */
  ghost predicate Covered(cfg: Config, t: Table, key: string, now: int, gain: real, g: real) {
    && Worth(cfg, t, key, now) <= g
    && (key in t ==> Min(cfg.limit.burst as real, Refill(gain, now - t[key].lastSeen)) <= g)
  }

  lemma CoveredLater(cfg: Config, t: Table, key: string, now: int, later: int, gain: real, g: real)
    requires Pays(cfg, 0, gain) && SoundTable(cfg, t, now) && now <= later && Covered(cfg, t, key, now, gain, g)
    ensures Covered(cfg, t, key, later, gain, g + Refill(gain, later - now))
  {
    WorthLater(cfg, t, key, now, later);
    RefillScales(cfg.limit.rps, gain, later - now);
    RefillGrows(gain, 0, later - now);
    if key in t {
      RefillAdds(gain, now - t[key].lastSeen, later - now);
      assert now - t[key].lastSeen + (later - now) == later - t[key].lastSeen;
    }
  }

  lemma CoveredStep(cfg: Config, t: Table, key: string, e: Event, gain: real, g: real)
    requires Pays(cfg, 0, gain) && SoundTable(cfg, t, e.at) && Covered(cfg, t, key, e.at, gain, g)
    ensures var (a, t') := Step(cfg, true, t, e);
            Covered(cfg, t', key, e.at, gain, g - if e.Request? && e.key == key && a == Some(true) then 1.0 else 0.0)
  {
    StepSound(cfg, true, t, e.at, e);
    var t' := Step(cfg, true, t, e).1;
    WorthLater(cfg, t', key, e.at, e.at);
    if e.Request? {
      assert Refill(gain, 0) == 0.0;
    } else if key in t && key !in t' {
      RefillGrows(gain, cfg.ttl + 1, e.at - t[key].lastSeen);
    }
  }

  lemma {:induction false} WindowFrom(cfg: Config, t: Table, key: string, now: int, es: seq<Event>, gain: real, g: real)
    requires Pays(cfg, 0, gain) && SoundTable(cfg, t, now) && Timed(now, es) && Covered(cfg, t, key, now, gain, g)
    ensures AdmittedFor(key, es, Run(cfg, true, t, es).0) as real <= g + Refill(gain, EndTime(now, es) - now)
    decreases |es|
  {
    hide SoundTable, Step, Refill, Worth;
    if es == [] {
      WorthLater(cfg, t, key, now, now);
      RefillAdds(gain, 0, 0);
    } else {
      var e := es[0];
      var (a, t') := Step(cfg, true, t, e);
      var g' := g + Refill(gain, e.at - now);
      CoveredLater(cfg, t, key, now, e.at, gain, g);
      SoundLater(cfg, t, now, e.at);
      CoveredStep(cfg, t, key, e, gain, g');
      StepSound(cfg, true, t, now, e);
      var spent := if e.Request? && e.key == key && a == Some(true) then 1.0 else 0.0;
      WindowFrom(cfg, t', key, e.at, es[1..], gain, g' - spent);
      RefillAdds(gain, e.at - now, EndTime(e.at, es[1..]) - e.at);
      assert e.at - now + (EndTime(e.at, es[1..]) - e.at) == EndTime(now, es) - now;
    }
  }

  lemma TimedSplit(now: int, es: seq<Event>, fs: seq<Event>)
    requires Timed(now, es + fs)
    ensures Timed(now, es) && Timed(EndTime(now, es), fs) && EndTime(now, es + fs) == EndTime(EndTime(now, es), fs)
    ensures now <= EndTime(now, es)
    decreases |es|
  {
    if es == [] {
      assert es + fs == fs;
    } else {
      assert (es + fs)[1..] == es[1..] + fs;
      TimedSplit(es[0].at, es[1..], fs);
    }
  }

  lemma RunSound(cfg: Config, evict: bool, t: Table, now: int, es: seq<Event>)
    requires cfg.limit.rps > 0.0 && SoundTable(cfg, t, now) && Timed(now, es)
    ensures SoundTable(cfg, Run(cfg, evict, t, es).1, EndTime(now, es))
    decreases |es|
  {
    if es != [] {
      StepSound(cfg, evict, t, now, es[0]);
      RunSound(cfg, evict, Step(cfg, evict, t, es[0]).1, es[0].at, es[1..]);
    }
  }

  /** The answers to a window are those of a run that starts from the table the window found. */
  lemma WindowRun(cfg: Config, before: seq<Event>, window: seq<Event>, after: seq<Event>)
    ensures var t := Run(cfg, true, map[], before).1;
            Run(cfg, true, map[], before + (window + after)).0[|before|..|before| + |window|] ==
                Run(cfg, true, t, window).0
  {
    RunAppend(cfg, true, map[], before, window + after);
    var (a, t) := Run(cfg, true, map[], before);
    RunAppend(cfg, true, t, window, after);
    var (b, u) := Run(cfg, true, t, window);
    var c := Run(cfg, true, u, after).0;
    assert (a + (b + c))[|before|..|before| + |window|] == b;
  }

  lemma EndIsLast(now: int, es: seq<Event>)
    requires es != []
    ensures EndTime(now, es) == es[|es| - 1].at
    decreases |es|
  {
    if |es| > 1 {
      EndIsLast(es[0].at, es[1..]);
    }
  }

  /** Admissions of one peer in a window that follows any run, for any `gain` that pays. */
  lemma WindowAfter(cfg: Config, now: int, before: seq<Event>, window: seq<Event>, key: string, gain: real)
    requires Timed(now, before) && Timed(EndTime(now, before), window) && window != [] && Pays(cfg, 0, gain)
    ensures AdmittedFor(key, window, Run(cfg, true, Run(cfg, true, map[], before).1, window).0) as real
         <= cfg.limit.burst as real + Refill(gain, window[|window| - 1].at - window[0].at)
  {
    RunSound(cfg, true, map[], now, before);
    var t := Run(cfg, true, map[], before).1;
    var first := window[0].at;
    assert SoundTable(cfg, t, first);
    WorthLater(cfg, t, key, first, first);
    EndIsLast(first, window);
    WindowFrom(cfg, t, key, first, window, gain, cfg.limit.burst as real);
  }

  lemma WindowAtGain(cfg: Config, now: int, es: seq<Event>, i: nat, j: nat, key: string, gain: real)
    requires Timed(now, es) && i < j <= |es| && Pays(cfg, 0, gain)
    ensures AdmittedFor(key, es[i..j], Run(cfg, true, map[], es).0[i..j]) as real
         <= cfg.limit.burst as real + Refill(gain, es[j - 1].at - es[i].at)
  {
    var before, window, after := es[..i], es[i..j], es[j..];
    assert es == before + (window + after);
    assert Timed(now, before) && Timed(EndTime(now, before), window) by {
      TimedSplit(now, before, window + after);
      TimedSplit(EndTime(now, before), window, after);
    }
    WindowAfter(cfg, now, before, window, key, gain);
    WindowRun(cfg, before, window, after);
    assert window[0] == es[i] && window[|window| - 1] == es[j - 1];
  }

  /**
   * In every window a peer is granted at most `burst` plus the refill at `rps + burst / (ttl + 1ns)`; the second term
   * of that rate disappears when an idle bucket refills in that time.
   */
  lemma WindowBound(cfg: Config, now: int, es: seq<Event>, i: nat, j: nat, key: string)
    requires Timed(now, es) && i < j <= |es|
    requires cfg.limit.rps > 0.0 && cfg.limit.burst >= 0 && cfg.ttl > 0
    ensures var granted := AdmittedFor(key, es[i..j], Run(cfg, true, map[], es).0[i..j]) as real;
            var length := es[j - 1].at - es[i].at;
            && granted <= cfg.limit.burst as real + Refill(cfg.limit.rps + ForgetRate(cfg, 0), length)
            && (IdleRefills(cfg, 0) ==> granted <= cfg.limit.burst as real + Refill(cfg.limit.rps, length))
  {
    ForgetRatePays(cfg, 0);
    WindowAtGain(cfg, now, es, i, j, key, cfg.limit.rps + ForgetRate(cfg, 0));
    if IdleRefills(cfg, 0) {
      WindowAtGain(cfg, now, es, i, j, key, cfg.limit.rps);
    }
  }

  // ----- Isolation -----

  /** The events that can matter to one peer: its own requests, and the ticks. */
  function Concerning(key: string, es: seq<Event>): seq<Event> {
    if es == [] then []
    else (if es[0].Tick? || es[0].key == key then [es[0]] else []) + Concerning(key, es[1..])
  }

  /** The answers to those events. */
  function AnswersTo(key: string, es: seq<Event>, answers: seq<Option<bool>>): seq<Option<bool>>
    requires |es| == |answers|
  {
    if es == [] then []
    else (if es[0].Tick? || es[0].key == key then [answers[0]] else []) + AnswersTo(key, es[1..], answers[1..])
  }

  ghost predicate SameSlot(t: Table, u: Table, key: string) {
    (key in t <==> key in u) && (key in t ==> t[key] == u[key])
  }

  lemma {:induction false} IsolatedFrom(cfg: Config, evict: bool, t: Table, u: Table, key: string, es: seq<Event>)
    requires SameSlot(t, u, key)
    ensures AnswersTo(key, es, Run(cfg, evict, t, es).0) == Run(cfg, evict, u, Concerning(key, es)).0
    decreases |es|
  {
    if es != [] {
      var (a, t') := Step(cfg, evict, t, es[0]);
      var rest := Concerning(key, es[1..]);
      if es[0].Tick? || es[0].key == key {
        var (b, u') := Step(cfg, evict, u, es[0]);
        assert a == b && SameSlot(t', u', key);
        assert ([es[0]] + rest)[1..] == rest;
        IsolatedFrom(cfg, evict, t', u', key, es[1..]);
      } else {
        assert Concerning(key, es) == rest;
        IsolatedFrom(cfg, evict, t', u, key, es[1..]);
      }
    }
  }

  /** A peer gets the answers it would get if no other peer existed. */
  lemma Isolated(cfg: Config, evict: bool, key: string, es: seq<Event>)
    ensures AnswersTo(key, es, Run(cfg, evict, map[], es).0) == Run(cfg, evict, map[], Concerning(key, es)).0
  {
    IsolatedFrom(cfg, evict, map[], map[], key, es);
  }

  // ----- Reclamation -----

  function LastRequest(key: string, es: seq<Event>): Option<int> {
    if es == [] then None
    else
      var e := es[|es| - 1];
      if e.Request? && e.key == key then Some(e.at) else LastRequest(key, es[..|es| - 1])
  }

  function LastTick(es: seq<Event>): Option<int> {
    if es == [] then None
    else
      var e := es[|es| - 1];
      if e.Tick? then Some(e.at) else LastTick(es[..|es| - 1])
  }

  /**
   * Exactly which peers are in the table after a run: those whose last request is no older than the TTL at the last
   * tick; and their slot carries the time of that request.
   */
  ghost predicate Survives(cfg: Config, key: string, es: seq<Event>) {
    && LastRequest(key, es).Some?
    && (LastTick(es).Some? ==> LastTick(es).value - LastRequest(key, es).value <= cfg.ttl)
  }

  lemma {:induction false} TableExact(cfg: Config, now: int, es: seq<Event>, key: string)
    requires Timed(now, es) && cfg.limit.rps > 0.0 && cfg.ttl > 0
    ensures var t := Run(cfg, true, map[], es).1;
            && (key in t <==> Survives(cfg, key, es))
            && (key in t ==> Some(t[key].lastSeen) == LastRequest(key, es))
    ensures LastRequest(key, es).Some? ==> LastRequest(key, es).value <= EndTime(now, es)
    ensures LastTick(es).Some? ==> LastTick(es).value <= EndTime(now, es)
    decreases |es|
  {
    if es != [] {
      var n := |es| - 1;
      var e := es[n];
      assert es == es[..n] + [e];
      TimedSplit(now, es[..n], [e]);
      EndIsLast(now, es);
      TableExact(cfg, now, es[..n], key);
      RunAppend(cfg, true, map[], es[..n], [e]);
      var t := Run(cfg, true, map[], es[..n]).1;
      var t' := Step(cfg, true, t, e).1;
      assert Run(cfg, true, t', []) == ([], t') && [e][1..] == [];
      assert Run(cfg, true, map[], es).1 == t';
    }
  }

  /** Ticks every `ttl / 2` since the limiter was created or last ticked, and no event later than a tick that is due. */
  ghost predicate Punctual(cfg: Config, now: int, ticked: int, es: seq<Event>)
    decreases |es|
  {
    es == [] ||
    (&& now <= es[0].at <= ticked + cfg.ttl / 2
     && (es[0].Tick? ==> es[0].at == ticked + cfg.ttl / 2)
     && Punctual(cfg, es[0].at, if es[0].Tick? then es[0].at else ticked, es[1..]))
  }

  function Ticked(ticked: int, es: seq<Event>): int {
    match LastTick(es) case Some(at) => at case None => ticked
  }

  lemma PunctualTimed(cfg: Config, now: int, ticked: int, es: seq<Event>)
    requires Punctual(cfg, now, ticked, es)
    ensures Timed(now, es)
    decreases |es|
  {
    if es != [] {
      PunctualTimed(cfg, es[0].at, if es[0].Tick? then es[0].at else ticked, es[1..]);
    }
  }

  lemma LastRequestSince(now: int, es: seq<Event>, key: string)
    requires Timed(now, es)
    ensures LastRequest(key, es).Some? ==> now <= LastRequest(key, es).value
    decreases |es|
  {
    if es != [] {
      var n := |es| - 1;
      assert es == es[..n] + [es[n]];
      TimedSplit(now, es[..n], [es[n]]);
      LastRequestSince(now, es[..n], key);
    }
  }

  /**
   * Memory is reclaimed within one and a half TTLs and never early: at any time before the next tick is due, a slot
   * still present was used within `ttl + ttl/2`, and a peer seen within `ttl` still has its slot.
   */
  lemma Reclaimed(cfg: Config, created: int, es: seq<Event>, now: int, key: string)
    requires cfg.limit.rps > 0.0 && cfg.ttl >= 2 && Punctual(cfg, created, created, es)
    requires EndTime(created, es) <= now <= Ticked(created, es) + cfg.ttl / 2
    ensures var t := Run(cfg, true, map[], es).1;
            && (key in t ==>
                Some(t[key].lastSeen) == LastRequest(key, es) && t[key].lastSeen >= now - (cfg.ttl + cfg.ttl / 2))
            && (LastRequest(key, es).Some? && LastRequest(key, es).value >= now - cfg.ttl ==> key in t)
  {
    PunctualTimed(cfg, created, created, es);
    TableExact(cfg, created, es, key);
    LastRequestSince(created, es, key);
  }
}
