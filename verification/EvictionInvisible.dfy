/**
 * Evicting idle peers is an optimisation: it never changes an answer exactly when a bucket left alone for longer
 * than the TTL is full again.
 */
module EvictionInvisible {
  import opened Wrappers
  import opened TokenBucket
  import opened PeerTable

  /** In every timed run, from an empty table, evicting answers as never evicting does. */
  ghost predicate Invisible(cfg: Config) {
    forall now, es :: Timed(now, es) ==> Run(cfg, true, map[], es).0 == Run(cfg, false, map[], es).0
  }

  /** The evicting table and the one that keeps everything are worth the same to every peer. */
  ghost predicate Agrees(cfg: Config, t: Table, all: Table, now: int) {
    && SoundTable(cfg, t, now)
    && SoundTable(cfg, all, now)
    && (forall k :: k in t ==> k in all && t[k].lastSeen == all[k].lastSeen)
    && (forall k :: Worth(cfg, t, k, now) == Worth(cfg, all, k, now))
  }

  lemma AgreesLater(cfg: Config, t: Table, all: Table, now: int, later: int)
    requires cfg.limit.rps > 0.0 && now <= later && Agrees(cfg, t, all, now)
    ensures Agrees(cfg, t, all, later)
  {
    forall k ensures Worth(cfg, t, k, later) == Worth(cfg, all, k, later) {
      WorthLater(cfg, t, k, now, later);
      WorthLater(cfg, all, k, now, later);
    }
  }

  lemma IdleIsFull(cfg: Config, s: Slot, now: int)
    requires cfg.limit.rps > 0.0 && Sound(cfg.limit, s.bucket, now) && s.bucket.last <= s.lastSeen < now - cfg.ttl
    requires IdleRefills(cfg, 0)
    ensures Level(cfg.limit, s.bucket, now) == cfg.limit.burst as real
  {
    RefillGrows(cfg.limit.rps, cfg.ttl + 1, now - s.bucket.last);
    RefillGrows(cfg.limit.rps, 0, now - s.bucket.last);
  }

  lemma StepAgrees(cfg: Config, t: Table, all: Table, e: Event)
    requires cfg.limit.rps > 0.0 && IdleRefills(cfg, 0)
    requires Agrees(cfg, t, all, e.at)
    ensures Step(cfg, true, t, e).0 == Step(cfg, false, all, e).0
    ensures Agrees(cfg, Step(cfg, true, t, e).1, Step(cfg, false, all, e).1, e.at)
  {
    StepSound(cfg, true, t, e.at, e);
    StepSound(cfg, false, all, e.at, e);
    match e
    case Request(now, key) =>
      assert Worth(cfg, t, key, now) == Level(cfg.limit, Touch(cfg, t, key, now)[key].bucket, now);
      assert Worth(cfg, all, key, now) == Level(cfg.limit, Touch(cfg, all, key, now)[key].bucket, now);
    case Tick(now) =>
      var t' := Sweep(t, cfg.ttl, now);
      forall k ensures Worth(cfg, t', k, now) == Worth(cfg, all, k, now) {
        assert Worth(cfg, t, k, now) == Worth(cfg, all, k, now);
        if k in t && k !in t' {
          IdleIsFull(cfg, t[k], now);
        }
      }
  }

  lemma {:induction false} RunsAgree(cfg: Config, t: Table, all: Table, now: int, es: seq<Event>)
    requires cfg.limit.rps > 0.0 && IdleRefills(cfg, 0)
    requires Timed(now, es) && Agrees(cfg, t, all, now)
    ensures Run(cfg, true, t, es).0 == Run(cfg, false, all, es).0
    decreases |es|
  {
    if es != [] {
      AgreesLater(cfg, t, all, now, es[0].at);
      StepAgrees(cfg, t, all, es[0]);
      RunsAgree(cfg, Step(cfg, true, t, es[0]).1, Step(cfg, false, all, es[0]).1, es[0].at, es[1..]);
    }
  }

  lemma {:induction false} OffRunsAgree(cfg: Config, t: Table, all: Table, es: seq<Event>)
    requires cfg.limit.rps <= 0.0
    ensures Run(cfg, true, t, es).0 == Run(cfg, false, all, es).0
    decreases |es|
  {
    if es != [] {
      OffRunsAgree(cfg, Step(cfg, true, t, es[0]).1, Step(cfg, false, all, es[0]).1, es[1..]);
    }
  }

  // ----- The other direction: a limiter whose idle buckets do not refill in time is caught by one schedule -----

  function Burst(n: nat, at: int, key: string): seq<Event> {
    seq(n, i => Request(at, key))
  }

  lemma AdmittedAppend(a: seq<Option<bool>>, b: seq<Option<bool>>)
    ensures Admitted(a + b) == Admitted(a) + Admitted(b)
  {
    if a == [] {
      assert a + b == b;
    } else {
      assert (a + b)[1..] == a[1..] + b;
    }
  }

  /** Simultaneous requests of one peer are admitted while its bucket lasts, each taking one token. */
  lemma {:induction false} BurstDrains(cfg: Config, evict: bool, t: Table, key: string, at: int, n: nat)
    requires cfg.limit.rps > 0.0 && SoundTable(cfg, t, at)
    ensures var (answers, end) := Run(cfg, evict, t, Burst(n, at, key));
            && SoundTable(cfg, end, at)
            && (n > 0 ==> key in end && end[key].lastSeen == at)
            && Worth(cfg, end, key, at) == Worth(cfg, t, key, at) - Admitted(answers) as real
            && (n as real <= Worth(cfg, t, key, at) ==> Admitted(answers) == n)
    decreases n
  {
    if n > 0 {
      var es := Burst(n, at, key);
      assert es[1..] == Burst(n - 1, at, key);
      StepSound(cfg, evict, t, at, es[0]);
      BurstDrains(cfg, evict, Step(cfg, evict, t, es[0]).1, key, at, n - 1);
      assert Worth(cfg, t, key, at) == Level(cfg.limit, Touch(cfg, t, key, at)[key].bucket, at);
      if n == 1 {
        assert es[1..] == [];
      }
    }
  }

  lemma TimedBurst(n: nat, at: int, key: string)
    ensures Timed(at, Burst(n, at, key)) && EndTime(at, Burst(n, at, key)) == at
  {
    if n > 0 {
      assert Burst(n, at, key)[1..] == Burst(n - 1, at, key);
      TimedBurst(n - 1, at, key);
    }
  }

  lemma TickAlone(cfg: Config, evict: bool, t: Table, at: int)
    ensures Run(cfg, evict, t, [Tick(at)]) == ([None], if evict then Sweep(t, cfg.ttl, at) else t)
  {
    var t' := Step(cfg, evict, t, Tick(at)).1;
    var none: Option<bool> := None;
    assert [Tick(at)][1..] == [];
    assert Run(cfg, evict, t', []) == ([], t');
    assert [none] + [] == [none];
  }

  lemma ThreeParts(cfg: Config, evict: bool, t: Table, es: seq<Event>, fs: seq<Event>, gs: seq<Event>)
    ensures var (a, t1) := Run(cfg, evict, t, es);
            var (b, t2) := Run(cfg, evict, t1, fs);
            Admitted(Run(cfg, evict, t, es + fs + gs).0) ==
                Admitted(a) + Admitted(b) + Admitted(Run(cfg, evict, t2, gs).0)
  {
    RunAppend(cfg, evict, t, es, fs);
    RunAppend(cfg, evict, t, es + fs, gs);
    AdmittedAppend(Run(cfg, evict, t, es).0, Run(cfg, evict, Run(cfg, evict, t, es).1, fs).0);
    AdmittedAppend(Run(cfg, evict, t, es + fs).0, Run(cfg, evict, Run(cfg, evict, t, es + fs).1, gs).0);
  }

  /** Drain a peer at time 0, sweep just after its TTL, and let it send a full burst again. */
  function Schedule(cfg: Config): seq<Event>
    requires cfg.limit.burst > 0
  {
    Burst(cfg.limit.burst, 0, "peer") + [Tick(cfg.ttl + 1)] + Burst(cfg.limit.burst, cfg.ttl + 1, "peer")
  }

  lemma ScheduleTimed(cfg: Config)
    requires cfg.ttl > 0 && cfg.limit.burst > 0
    ensures Timed(0, Schedule(cfg))
  {
    var n: nat, late := cfg.limit.burst, cfg.ttl + 1;
    TimedBurst(n, 0, "peer");
    TimedBurst(n, late, "peer");
    TimedAppend(0, Burst(n, 0, "peer"), [Tick(late)]);
    TimedAppend(0, Burst(n, 0, "peer") + [Tick(late)], Burst(n, late, "peer"));
  }

  /** Evicting, the swept peer gets a second full burst. */
  lemma EvictingAdmitsAll(cfg: Config)
    requires cfg.limit.rps > 0.0 && cfg.limit.burst > 0
    ensures Admitted(Run(cfg, true, map[], Schedule(cfg)).0) == 2 * cfg.limit.burst
  {
    var n: nat, late := cfg.limit.burst, cfg.ttl + 1;
    BurstDrains(cfg, true, map[], "peer", 0, n);
    var drained := Run(cfg, true, map[], Burst(n, 0, "peer")).1;
    TickAlone(cfg, true, drained, late);
    BurstDrains(cfg, true, Sweep(drained, cfg.ttl, late), "peer", late, n);
    ThreeParts(cfg, true, map[], Burst(n, 0, "peer"), [Tick(late)], Burst(n, late, "peer"));
  }

  /** Never evicting, only what has refilled since is there to take. */
  lemma KeepingRefusesSome(cfg: Config)
    requires cfg.limit.rps > 0.0 && cfg.ttl > 0 && cfg.limit.burst > 0 && !IdleRefills(cfg, 0)
    ensures Admitted(Run(cfg, false, map[], Schedule(cfg)).0) < 2 * cfg.limit.burst
  {
    var n: nat, late := cfg.limit.burst, cfg.ttl + 1;
    BurstDrains(cfg, false, map[], "peer", 0, n);
    var drained := Run(cfg, false, map[], Burst(n, 0, "peer")).1;
    WorthLater(cfg, drained, "peer", 0, late);
    TickAlone(cfg, false, drained, late);
    BurstDrains(cfg, false, drained, "peer", late, n);
    WorthLater(cfg, Run(cfg, false, drained, Burst(n, late, "peer")).1, "peer", late, late);
    ThreeParts(cfg, false, map[], Burst(n, 0, "peer"), [Tick(late)], Burst(n, late, "peer"));
  }

  lemma SlowRefillIsSeen(cfg: Config)
    requires cfg.limit.rps > 0.0 && cfg.ttl > 0 && !IdleRefills(cfg, 0)
    ensures !Invisible(cfg)
  {
    RefillGrows(cfg.limit.rps, 0, cfg.ttl + 1);
    ScheduleTimed(cfg);
    EvictingAdmitsAll(cfg);
    KeepingRefusesSome(cfg);
  }

  /** The eviction is invisible exactly when limiting is off or an idle bucket refills within the TTL. */
  lemma InvisibleIff(cfg: Config)
    requires cfg.ttl > 0
    ensures Invisible(cfg) <==> cfg.limit.rps <= 0.0 || IdleRefills(cfg, 0)
  {
    if cfg.limit.rps <= 0.0 {
      forall now, es | Timed(now, es) ensures Run(cfg, true, map[], es).0 == Run(cfg, false, map[], es).0 {
        OffRunsAgree(cfg, map[], map[], es);
      }
    } else if IdleRefills(cfg, 0) {
      forall now, es | Timed(now, es) ensures Run(cfg, true, map[], es).0 == Run(cfg, false, map[], es).0 {
        RunsAgree(cfg, map[], map[], now, es);
      }
    } else {
      SlowRefillIsSeen(cfg);
    }
  }
}
