/**
 * The table of per-peer buckets as a value, its three operations, and whole runs of timed events over it.
 */
module PeerTable {
  import opened Wrappers
  import opened TokenBucket

  /** The parameters a memory rate limiter is created with; `ttl` is in nanoseconds. */
  datatype Config = Config(limit: Limit, ttl: int)

  datatype Slot = Slot(bucket: Bucket, lastSeen: int)

  type Table = map<string, Slot>

  /** The tokens a peer could spend now; a peer without a slot would get a full bucket. */
  function Worth(cfg: Config, t: Table, key: string, now: int): real {
    if key in t then Level(cfg.limit, t[key].bucket, now) else cfg.limit.burst as real
  }

  /** What `getLimiter` leaves in the table: the peer's slot exists and was seen now. */
  function Touch(cfg: Config, t: Table, key: string, now: int): Table {
    t[key := Slot(if key in t then t[key].bucket else Fresh(cfg.limit, now), now)]
  }

  /** One `Allow` for a peer; a rate of zero or less switches limiting off. */
  function Allow(cfg: Config, t: Table, key: string, now: int): (bool, Table) {
    if cfg.limit.rps <= 0.0 then
      (true, t)
    else
      var touched := Touch(cfg, t, key, now);
      var (ok, b) := Take(cfg.limit, touched[key].bucket, now);
      (ok, touched[key := Slot(b, now)])
  }

  /** One `cleanup`: drop every slot last seen before `now - ttl`. */
  function Sweep(t: Table, ttl: int, now: int): Table {
    map k | k in t && t[k].lastSeen >= now - ttl :: t[k]
  }

  datatype Event = Request(at: int, key: string) | Tick(at: int)

  /** With `evict` false this is the reference limiter that never evicts: ticks do nothing to it. */
  function Step(cfg: Config, evict: bool, t: Table, e: Event): (Option<bool>, Table) {
    match e
    case Request(now, key) => var (ok, t') := Allow(cfg, t, key, now); (Some(ok), t')
    case Tick(now) => (None, if evict then Sweep(t, cfg.ttl, now) else t)
  }

  /** The answers, one for each event (`None` for a tick), and the final table. */
  function Run(cfg: Config, evict: bool, t: Table, es: seq<Event>): (r: (seq<Option<bool>>, Table))
    ensures |r.0| == |es|
    decreases |es|
  {
    if es == [] then ([], t)
    else
      var (a, t') := Step(cfg, evict, t, es[0]);
      var (rest, end) := Run(cfg, evict, t', es[1..]);
      ([a] + rest, end)
  }

  /** A rate of zero or less admits every request, keeps no table, and answers nothing else. */
  lemma {:induction false} DisabledAdmitsAll(cfg: Config, evict: bool, es: seq<Event>)
    requires cfg.limit.rps <= 0.0
    ensures var (answers, end) := Run(cfg, evict, map[], es);
            && end == map[]
            && forall i :: 0 <= i < |es| ==> answers[i] == if es[i].Request? then Some(true) else None
    decreases |es|
  {
    if es != [] {
      assert Step(cfg, evict, map[], es[0]).1 == map[];
      DisabledAdmitsAll(cfg, evict, es[1..]);
    }
  }

  /** With a positive rate a request is admitted exactly if its peer is worth a whole token, at first its burst. */
  lemma AdmittedIff(cfg: Config, t: Table, key: string, now: int)
    requires cfg.limit.rps > 0.0
    ensures Allow(cfg, t, key, now).0 <==> Worth(cfg, t, key, now) >= 1.0
    ensures key !in t ==> (Allow(cfg, t, key, now).0 <==> cfg.limit.burst >= 1)
  {
    assert Refill(cfg.limit.rps, 0) == 0.0;
  }

  /** How many requests were admitted. */
  function Admitted(answers: seq<Option<bool>>): nat {
    if answers == [] then 0 else (if answers[0] == Some(true) then 1 else 0) + Admitted(answers[1..])
  }

  /**
   * A bucket last used `delay` after its slot was last seen is full again by the time the slot can be swept; the slot
   * goes when it is older than the TTL.
   */
  ghost predicate IdleRefills(cfg: Config, delay: int) {
    Refill(cfg.limit.rps, cfg.ttl + 1 - delay) >= cfg.limit.burst as real
  }

  /** `gain` pays for both ways a peer gets tokens: refilling, and being forgotten. */
  ghost predicate Pays(cfg: Config, delay: int, gain: real) {
    && gain >= cfg.limit.rps > 0.0
    && cfg.limit.burst >= 0
    && Refill(gain, cfg.ttl + 1 - delay) >= cfg.limit.burst as real
  }

  /** One full bucket for each stretch of time an unused bucket is sure to be kept, in tokens a second. */
  function ForgetRate(cfg: Config, delay: int): real
    requires delay <= cfg.ttl
  {
    cfg.limit.burst as real * NANOS_PER_SECOND / (cfg.ttl + 1 - delay) as real
  }

  lemma ForgetRatePays(cfg: Config, delay: int)
    requires cfg.limit.rps > 0.0 && cfg.limit.burst >= 0 && delay <= cfg.ttl
    ensures Pays(cfg, delay, cfg.limit.rps + ForgetRate(cfg, delay))
  {
    var kept, n := (cfg.ttl + 1 - delay) as real, cfg.limit.burst as real * NANOS_PER_SECOND;
    assert (cfg.limit.rps + ForgetRate(cfg, delay)) * kept == cfg.limit.rps * kept + (n / kept) * kept;
    assert (n / kept) * kept == n;
    assert n / kept >= 0.0;
    assert cfg.limit.rps * kept >= 0.0;
  }

  /** Event times never go backwards, starting from `now`. */
  ghost predicate Timed(now: int, es: seq<Event>)
    decreases |es|
  {
    es == [] || (now <= es[0].at && Timed(es[0].at, es[1..]))
  }

  function EndTime(now: int, es: seq<Event>): int
    decreases |es|
  {
    if es == [] then now else EndTime(es[0].at, es[1..])
  }

  ghost predicate SoundTable(cfg: Config, t: Table, now: int) {
    forall k :: k in t ==> Sound(cfg.limit, t[k].bucket, now) && t[k].bucket.last <= t[k].lastSeen <= now
  }

  lemma SoundLater(cfg: Config, t: Table, now: int, later: int)
    requires SoundTable(cfg, t, now) && now <= later
    ensures SoundTable(cfg, t, later)
  {
  }

  lemma WorthLater(cfg: Config, t: Table, key: string, now: int, later: int)
    requires cfg.limit.rps > 0.0 && SoundTable(cfg, t, now) && now <= later
    ensures Worth(cfg, t, key, later) ==
        Min(cfg.limit.burst as real, Worth(cfg, t, key, now) + Refill(cfg.limit.rps, later - now))
    ensures Min(0.0, cfg.limit.burst as real) <= Worth(cfg, t, key, now) <= Worth(cfg, t, key, later)
    ensures Worth(cfg, t, key, later) <= cfg.limit.burst as real
  {
    RefillGrows(cfg.limit.rps, 0, later - now);
    if key in t {
      LevelAdvances(cfg.limit, t[key].bucket, now, later);
      SoundLevel(cfg.limit, t[key].bucket, now);
    }
  }

  lemma StepSound(cfg: Config, evict: bool, t: Table, now: int, e: Event)
    requires cfg.limit.rps > 0.0 && SoundTable(cfg, t, now) && now <= e.at
    ensures SoundTable(cfg, Step(cfg, evict, t, e).1, e.at)
    ensures e.Request? || !evict ==>
              forall k :: Worth(cfg, Step(cfg, evict, t, e).1, k, e.at) == Worth(cfg, t, k, e.at) -
                (if e.Request? && e.key == k && Step(cfg, evict, t, e).0 == Some(true) then 1.0 else 0.0)
  {
    if e.Request? {
      TakeSound(cfg.limit, Touch(cfg, t, e.key, e.at)[e.key].bucket, e.at);
      SoundLevel(cfg.limit, Fresh(cfg.limit, e.at), e.at);
    }
  }

  lemma {:induction false} RunAppend(cfg: Config, evict: bool, t: Table, es: seq<Event>, fs: seq<Event>)
    ensures var (a, mid) := Run(cfg, evict, t, es);
            var (b, end) := Run(cfg, evict, mid, fs);
            Run(cfg, evict, t, es + fs) == (a + b, end)
    decreases |es|
  {
    if es == [] {
      assert es + fs == fs;
      assert Run(cfg, evict, t, es).0 + Run(cfg, evict, t, fs).0 == Run(cfg, evict, t, fs).0;
    } else {
      var (a, t') := Step(cfg, evict, t, es[0]);
      RunAppend(cfg, evict, t', es[1..], fs);
      assert (es + fs)[1..] == es[1..] + fs;
      var (rest, mid) := Run(cfg, evict, t', es[1..]);
      assert [a] + (rest + Run(cfg, evict, mid, fs).0) == ([a] + rest) + Run(cfg, evict, mid, fs).0;
    }
  }

  lemma TimedAppend(now: int, es: seq<Event>, fs: seq<Event>)
    requires Timed(now, es) && Timed(EndTime(now, es), fs)
    ensures Timed(now, es + fs) && EndTime(now, es + fs) == EndTime(EndTime(now, es), fs)
    decreases |es|
  {
    if es == [] {
      assert es + fs == fs;
    } else {
      assert (es + fs)[1..] == es[1..] + fs;
      TimedAppend(es[0].at, es[1..], fs);
    }
  }
}
