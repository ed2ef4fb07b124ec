/**
 * The bound on a peer's admissions in a window, when lookup and use are separate steps: it holds at a gain that fills
 * a bucket in what is left of the TTL after the longest permitted delay.
 */
module InterleavedWindow {
  import opened Wrappers
  import opened TokenBucket
  import opened InterleavedLimiter
  import opened InterleavedInvisible
  import P = PeerTable

  /** The peer an event admits a request of, if it does. */
  function Grant(cfg: P.Config, s: State, e: Event): Option<string> {
    if e.Use? && e.req in s.calls && UseBucket(cfg, s, e.at, e.req).0 then Some(s.calls[e.req].key) else None
  }

  /** The peers admitted in a run of the evicting limiter, event by event. */
  function Grants(cfg: P.Config, s: State, es: seq<Event>): (gs: seq<Option<string>>)
    ensures |gs| == |es|
    ensures forall i :: 0 <= i < |es| ==> (gs[i].Some? <==> Run(cfg, true, s, es).0[i] == Some(true))
    decreases |es|
  {
    if es == [] then [] else [Grant(cfg, s, es[0])] + Grants(cfg, Step(cfg, true, s, es[0]).1, es[1..])
  }

  function CountOf(key: string, gs: seq<Option<string>>): nat {
    if gs == [] then 0 else (if gs[0] == Some(key) then 1 else 0) + CountOf(key, gs[1..])
  }

  /**
   * `g` is what the peer may still be granted.  It covers what its bucket is worth, and enough of it has built up
   * since the bucket was last used to pay for the full one an eviction would hand out.
   */
  ghost predicate Covered(cfg: P.Config, s: State, key: string, now: int, gain: real, g: real) {
    && Worth(cfg, s, key, now) <= g
    && (key in s.table ==>
        Min(cfg.limit.burst as real, Refill(gain, now - s.buckets[s.table[key].id].last)) <= g)
  }

  lemma CoveredLater(cfg: P.Config, delay: int, s: State, key: string, now: int, later: int, gain: real, g: real)
    requires P.Pays(cfg, delay, gain) && Inv(cfg, delay, s, now) && now <= later && Covered(cfg, s, key, now, gain, g)
    ensures Covered(cfg, s, key, later, gain, g + Refill(gain, later - now))
  {
    RefillScales(cfg.limit.rps, gain, later - now);
    RefillGrows(gain, 0, later - now);
    if key in s.table {
      var b := s.buckets[s.table[key].id];
      LevelAdvances(cfg.limit, b, now, later);
      RefillAdds(gain, now - b.last, later - now);
      assert now - b.last + (later - now) == later - b.last;
    }
  }

  lemma CoveredLookUp(cfg: P.Config, delay: int, s: State, key: string, at: int, req: nat, peer: string, gain: real,
      g: real)
    requires P.Pays(cfg, delay, gain) && Inv(cfg, delay, s, at) && Covered(cfg, s, key, at, gain, g)
    ensures Covered(cfg, LookUp(cfg, s, at, req, peer), key, at, gain, g)
  {
    assert Refill(gain, 0) == 0.0;
  }

  lemma CoveredUse(cfg: P.Config, delay: int, s: State, key: string, at: int, req: nat, gain: real, g: real)
    requires P.Pays(cfg, delay, gain) && Inv(cfg, delay, s, at) && Covered(cfg, s, key, at, gain, g) && req in s.calls
    ensures var (ok, s') := UseBucket(cfg, s, at, req);
            Covered(cfg, s', key, at, gain, g - if ok && s.calls[req].key == key then 1.0 else 0.0)
  {
    var c := s.calls[req];
    assert s.table[c.key].id == c.id;
    TakeSound(cfg.limit, s.buckets[c.id], at);
    assert Refill(gain, 0) == 0.0;
    if key in s.table && key != c.key {
      assert s.table[key].id != c.id;
    }
  }

  lemma CoveredTick(cfg: P.Config, delay: int, s: State, key: string, at: int, gain: real, g: real)
    requires P.Pays(cfg, delay, gain) && Inv(cfg, delay, s, at) && Covered(cfg, s, key, at, gain, g)
    ensures Covered(cfg, Cleanup(s, cfg.ttl, at), key, at, gain, g)
  {
    if key in s.table && s.table[key].lastSeen < at - cfg.ttl {
      RefillGrows(gain, cfg.ttl + 1 - delay, at - s.buckets[s.table[key].id].last);
    }
  }

  /** What the peer is granted in a step is taken off what it may still be granted. */
  lemma CoveredStep(cfg: P.Config, delay: int, s: State, key: string, e: Event, gain: real, g: real)
    requires P.Pays(cfg, delay, gain) && Inv(cfg, delay, s, e.at) && Covered(cfg, s, key, e.at, gain, g)
    ensures Covered(cfg, Step(cfg, true, s, e).1, key, e.at, gain,
        g - if Grant(cfg, s, e) == Some(key) then 1.0 else 0.0)
  {
    hide Inv, Covered, P.Pays;
    match e
    case Lookup(at, req, peer) => CoveredLookUp(cfg, delay, s, key, at, req, peer, gain, g);
    case Use(at, req) => if req in s.calls { CoveredUse(cfg, delay, s, key, at, req, gain, g); }
    case Tick(at) => CoveredTick(cfg, delay, s, key, at, gain, g);
  }

  function EndTime(now: int, es: seq<Event>): int {
    if es == [] then now else es[|es| - 1].at
  }

  lemma NothingOwed(cfg: P.Config, delay: int, s: State, key: string, now: int, gain: real, g: real)
    requires P.Pays(cfg, delay, gain) && Inv(cfg, delay, s, now) && Covered(cfg, s, key, now, gain, g)
    ensures g >= 0.0
  {
    if key in s.table {
      SoundLevel(cfg.limit, s.buckets[s.table[key].id], now);
    }
  }

  lemma {:induction false} WindowFrom(cfg: P.Config, delay: int, s: State, key: string, now: int, es: seq<Event>,
      gain: real, g: real)
    requires P.Pays(cfg, delay, gain) && 0 <= delay <= cfg.ttl
    requires Inv(cfg, delay, s, now) && Legal(delay, Held(s), now, es) && Covered(cfg, s, key, now, gain, g)
    ensures CountOf(key, Grants(cfg, s, es)) as real <= g + Refill(gain, EndTime(now, es) - now)
    decreases |es|
  {
    hide Inv, Covered, Step, Grant, Refill, Held, HeldAfter;
    if es == [] {
      NothingOwed(cfg, delay, s, key, now, gain, g);
      RefillAdds(gain, 0, 0);
    } else {
      var e := es[0];
      var s' := Step(cfg, true, s, e).1;
      var g' := g + Refill(gain, e.at - now);
      CoveredLater(cfg, delay, s, key, now, e.at, gain, g);
      InvLater(cfg, delay, s, now, e.at);
      CoveredStep(cfg, delay, s, key, e, gain, g');
      StepInv(cfg, delay, true, s, now, e);
      HeldStep(cfg, true, s, e);
      var spent := if Grant(cfg, s, e) == Some(key) then 1.0 else 0.0;
      WindowFrom(cfg, delay, s', key, e.at, es[1..], gain, g' - spent);
      RefillAdds(gain, e.at - now, EndTime(e.at, es[1..]) - e.at);
      assert e.at - now + (EndTime(e.at, es[1..]) - e.at) == EndTime(now, es) - now;
    }
  }

  /** The state a window finds is sound, what follows is legal from there, and has the grants of the whole run. */
  lemma {:induction false} StateAt(cfg: P.Config, delay: int, s: State, now: int, es: seq<Event>, i: nat)
      returns (mid: State)
    requires cfg.limit.rps > 0.0 && 0 <= delay <= cfg.ttl && i < |es|
    requires Inv(cfg, delay, s, now) && Legal(delay, Held(s), now, es)
    ensures Inv(cfg, delay, mid, es[i].at) && Legal(delay, Held(mid), es[i].at, es[i..])
    ensures Grants(cfg, mid, es[i..]) == Grants(cfg, s, es)[i..]
    decreases i
  {
    hide Inv, Step, Grant, Held, HeldAfter;
    if i == 0 {
      mid := s;
      InvLater(cfg, delay, s, now, es[0].at);
    } else {
      StepInv(cfg, delay, true, s, now, es[0]);
      HeldStep(cfg, true, s, es[0]);
      mid := StateAt(cfg, delay, Step(cfg, true, s, es[0]).1, es[0].at, es[1..], i - 1);
      assert es[1..][i - 1..] == es[i..];
    }
  }

  lemma {:induction false} Prefix(cfg: P.Config, delay: int, s: State, now: int, es: seq<Event>, n: nat)
    requires n <= |es| && Legal(delay, Held(s), now, es)
    ensures Legal(delay, Held(s), now, es[..n]) && Grants(cfg, s, es[..n]) == Grants(cfg, s, es)[..n]
    decreases n
  {
    hide Step, Grant, Held, HeldAfter;
    if n > 0 {
      HeldStep(cfg, true, s, es[0]);
      Prefix(cfg, delay, Step(cfg, true, s, es[0]).1, es[0].at, es[1..], n - 1);
      assert es[..n][1..] == es[1..][..n - 1];
    }
  }

  /** Before a window opens no peer can be owed more than a full bucket. */
  lemma CoveredByBurst(cfg: P.Config, delay: int, s: State, key: string, now: int, gain: real)
    requires P.Pays(cfg, delay, gain) && Inv(cfg, delay, s, now)
    ensures Covered(cfg, s, key, now, gain, cfg.limit.burst as real)
  {
  }

  /** Admissions of one peer in a window that starts now. */
  lemma WindowAhead(cfg: P.Config, delay: int, s: State, es: seq<Event>, n: nat, key: string, gain: real)
    requires 0 < n <= |es| && P.Pays(cfg, delay, gain) && 0 <= delay <= cfg.ttl
    requires Inv(cfg, delay, s, es[0].at) && Legal(delay, Held(s), es[0].at, es)
    ensures CountOf(key, Grants(cfg, s, es)[..n]) as real
         <= cfg.limit.burst as real + Refill(gain, es[n - 1].at - es[0].at)
  {
    hide Inv, Grants, Refill, Held, Legal, Covered, CountOf;
    var at := es[0].at;
    Prefix(cfg, delay, s, at, es, n);
    CoveredByBurst(cfg, delay, s, key, at, gain);
    WindowFrom(cfg, delay, s, key, at, es[..n], gain, cfg.limit.burst as real);
  }

  /** Admissions of one peer in any window of any legal interleaving, for any `gain` that pays. */
  lemma WindowAtGain(cfg: P.Config, delay: int, now: int, es: seq<Event>, i: nat, j: nat, key: string, gain: real)
    requires 0 <= delay <= cfg.ttl && Legal(delay, map[], now, es) && i < j <= |es| && P.Pays(cfg, delay, gain)
    ensures CountOf(key, Grants(cfg, EMPTY, es)[i..j]) as real
         <= cfg.limit.burst as real + Refill(gain, es[j - 1].at - es[i].at)
  {
    hide Grants, Refill, Legal, CountOf, Inv, Held;
    EmptyInv(cfg, delay, now);
    var mid := StateAt(cfg, delay, EMPTY, now, es, i);
    WindowAhead(cfg, delay, mid, es[i..], j - i, key, gain);
    assert Grants(cfg, EMPTY, es)[i..][..j - i] == Grants(cfg, EMPTY, es)[i..j];
  }

  /**
   * In every window of every interleaving a peer is granted at most `burst` plus the refill at
   * `rps + burst / (ttl + 1ns - delay)`; the second term disappears when a bucket refills in that time.
   */
  lemma WindowBound(cfg: P.Config, delay: int, now: int, es: seq<Event>, i: nat, j: nat, key: string)
    requires cfg.limit.rps > 0.0 && cfg.limit.burst >= 0 && 0 <= delay <= cfg.ttl
    requires Legal(delay, map[], now, es) && i < j <= |es|
    ensures var granted := CountOf(key, Grants(cfg, EMPTY, es)[i..j]) as real;
            var length := es[j - 1].at - es[i].at;
            && granted <= cfg.limit.burst as real + Refill(cfg.limit.rps + P.ForgetRate(cfg, delay), length)
            && (P.IdleRefills(cfg, delay) ==> granted <= cfg.limit.burst as real + Refill(cfg.limit.rps, length))
  {
    P.ForgetRatePays(cfg, delay);
    WindowAtGain(cfg, delay, now, es, i, j, key, cfg.limit.rps + P.ForgetRate(cfg, delay));
    if P.IdleRefills(cfg, delay) {
      WindowAtGain(cfg, delay, now, es, i, j, key, cfg.limit.rps);
    }
  }

  // ----- The delay is what the bound depends on -----

  /** Some rate bounds every peer's admissions in every window of every legal interleaving. */
  ghost predicate Bounded(cfg: P.Config, delay: int, gain: real) {
    forall now, es: seq<Event>, i, j, key :: Legal(delay, map[], now, es) && 0 <= i < j <= |es| ==>
      CountOf(key, Grants(cfg, EMPTY, es)[i..j]) as real
        <= cfg.limit.burst as real + Refill(gain, es[j - 1].at - es[i].at)
  }

  /** Every event happens at one instant, and only one peer looks up. */
  ghost predicate AtOnce(es: seq<Event>, at: int) {
    forall i :: 0 <= i < |es| ==> es[i].at == at && (es[i].Lookup? ==> es[i].key == "peer")
  }

  lemma LookupsAtOnce(i: nat, n: nat, at: int)
    requires i <= n
    ensures AtOnce(Lookups(i, n, at), at) && AtOnce(Uses(i, n, at), at)
    decreases n - i
  {
    if i < n {
      LookupsAtOnce(i + 1, n, at);
    }
  }

  /** With one peer only, its grants are all there are. */
  lemma {:induction false} OnlyPeer(cfg: P.Config, s: State, es: seq<Event>)
    requires forall r :: r in s.calls ==> s.calls[r].key == "peer"
    requires forall i :: 0 <= i < |es| && es[i].Lookup? ==> es[i].key == "peer"
    ensures CountOf("peer", Grants(cfg, s, es)) == Granted(cfg, true, s, es)
    decreases |es|
  {
    if es != [] {
      OnlyPeer(cfg, Step(cfg, true, s, es[0]).1, es[1..]);
    }
  }

  lemma StaleShape(cfg: P.Config)
    requires cfg.limit.burst > 0
    ensures var es := Stale(cfg);
            && |es| > 2 && es[0] == Lookup(0, 0, "peer") && es[1].Tick? && AtOnce(es[2..], Late(cfg))
            && es[2].at == es[|es| - 1].at
            && forall i :: 0 <= i < |es| && es[i].Lookup? ==> es[i].key == "peer"
  {
    var es, n: nat := Stale(cfg), cfg.limit.burst;
    LookupsAtOnce(0, n, Late(cfg));
    var tail := es[2..];
    assert tail == [Use(Late(cfg), 0)] + Second(cfg);
    assert AtOnce(tail, Late(cfg));
    assert forall i :: 2 <= i < |es| ==> es[i] == tail[i - 2];
  }

  lemma NoGrantsYet(cfg: P.Config, s: State, es: seq<Event>, key: string)
    requires |es| >= 2 && !es[0].Use? && !es[1].Use?
    ensures CountOf(key, Grants(cfg, s, es)) == CountOf(key, Grants(cfg, s, es)[2..])
  {
    hide Step;
    var gs := Grants(cfg, s, es);
    var more := Grants(cfg, Step(cfg, true, s, es[0]).1, es[1..]);
    assert gs == [None] + more && more[0] == None;
    assert gs[1..] == more && gs[2..] == more[1..];
  }

  /** The stale use and the full burst after it are all granted at one instant. */
  lemma StaleWindow(cfg: P.Config, delay: int)
    requires cfg.limit.rps > 0.0 && 0 < cfg.ttl < delay && cfg.limit.burst > 0
    ensures var es := Stale(cfg);
            && |es| > 2 && es[2].at == es[|es| - 1].at && Legal(delay, map[], 0, es)
            && CountOf("peer", Grants(cfg, EMPTY, es)[2..|es|]) == cfg.limit.burst + 1
  {
    hide Stale, Legal, Grants, CountOf, AtOnce, Granted;
    var es := Stale(cfg);
    StaleShape(cfg);
    StaleLegal(cfg, delay);
    StaleIsSeen(cfg, delay);
    OnlyPeer(cfg, EMPTY, es);
    NoGrantsYet(cfg, EMPTY, es, "peer");
    assert Grants(cfg, EMPTY, es)[2..|es|] == Grants(cfg, EMPTY, es)[2..];
  }

  /** No rate is high enough once a use may come later than the TTL, and some rate is if it may not. */
  lemma BoundedIff(cfg: P.Config, delay: int)
    requires cfg.limit.rps > 0.0 && cfg.limit.burst > 0 && cfg.ttl > 0 && delay >= 0
    ensures (exists gain :: Bounded(cfg, delay, gain)) <==> delay <= cfg.ttl
  {
    if delay <= cfg.ttl {
      var gain := cfg.limit.rps + P.ForgetRate(cfg, delay);
      P.ForgetRatePays(cfg, delay);
      forall now, es: seq<Event>, i, j, key | Legal(delay, map[], now, es) && 0 <= i < j <= |es|
        ensures CountOf(key, Grants(cfg, EMPTY, es)[i..j]) as real
             <= cfg.limit.burst as real + Refill(gain, es[j - 1].at - es[i].at)
      {
        WindowAtGain(cfg, delay, now, es, i, j, key, gain);
      }
      assert Bounded(cfg, delay, gain);
    } else {
      StaleWindow(cfg, delay);
      var es := Stale(cfg);
      forall gain ensures !Bounded(cfg, delay, gain) {
        assert Refill(gain, 0) == 0.0;
        assert CountOf("peer", Grants(cfg, EMPTY, es)[2..|es|]) as real > cfg.limit.burst as real;
      }
    }
  }
}
