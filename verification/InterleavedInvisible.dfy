/**
 * Eviction when lookup and use are separate steps: it stays invisible exactly when a bucket refills in what is left
 * of the TTL after the longest permitted delay.
 */
module InterleavedInvisible {
  import opened Wrappers
  import opened TokenBucket
  import opened InterleavedLimiter
  import P = PeerTable

  ghost predicate Invisible(cfg: P.Config, delay: int) {
    forall now, es :: Legal(delay, map[], now, es) ==> Run(cfg, true, EMPTY, es).0 == Run(cfg, false, EMPTY, es).0
  }

  function Worth(cfg: P.Config, s: State, key: string, now: int): real {
    if key in s.table then Level(cfg.limit, s.buckets[s.table[key].id], now) else cfg.limit.burst as real
  }

  /** Every peer's bucket is worth the same in both runs. */
  ghost predicate SameWorth(cfg: P.Config, s: State, all: State, now: int) {
    forall k :: Worth(cfg, s, k, now) == Worth(cfg, all, k, now)
  }

  /** Both runs have the same requests between lookup and use. */
  ghost predicate SameCalls(s: State, all: State) {
    && (forall r :: r in s.calls <==> r in all.calls)
    && (forall r :: r in s.calls ==> s.calls[r].key == all.calls[r].key && s.calls[r].since == all.calls[r].since)
  }

  ghost predicate Agrees(cfg: P.Config, s: State, all: State, now: int) {
    SameWorth(cfg, s, all, now) && SameCalls(s, all)
  }

  lemma WorthLater(cfg: P.Config, delay: int, s: State, key: string, now: int, later: int)
    requires cfg.limit.rps > 0.0 && Inv(cfg, delay, s, now) && now <= later
    ensures Worth(cfg, s, key, later) ==
        Min(cfg.limit.burst as real, Worth(cfg, s, key, now) + Refill(cfg.limit.rps, later - now))
    ensures Min(0.0, cfg.limit.burst as real) <= Worth(cfg, s, key, now)
  {
    RefillGrows(cfg.limit.rps, 0, later - now);
    if key in s.table {
      LevelAdvances(cfg.limit, s.buckets[s.table[key].id], now, later);
      SoundLevel(cfg.limit, s.buckets[s.table[key].id], now);
    }
  }

  lemma WorthLookUp(cfg: P.Config, s: State, at: int, req: nat, key: string, k: string)
    requires cfg.limit.rps > 0.0
    ensures Worth(cfg, LookUp(cfg, s, at, req, key), k, at) == Worth(cfg, s, k, at)
  {
  }

  lemma WorthUse(cfg: P.Config, delay: int, s: State, at: int, req: nat, k: string)
    requires cfg.limit.rps > 0.0 && Inv(cfg, delay, s, at) && req in s.calls
    ensures var (ok, s') := UseBucket(cfg, s, at, req);
            && ok == (Worth(cfg, s, s.calls[req].key, at) >= 1.0)
            && Worth(cfg, s', k, at) == Worth(cfg, s, k, at) - if ok && s.calls[req].key == k then 1.0 else 0.0
  {
    var c := s.calls[req];
    assert s.table[c.key].id == c.id;
    TakeSound(cfg.limit, s.buckets[c.id], at);
    if k in s.table && k != c.key {
      assert s.table[k].id != c.id;
    }
  }

  lemma WorthCleanup(cfg: P.Config, delay: int, s: State, at: int, k: string)
    requires cfg.limit.rps > 0.0 && P.IdleRefills(cfg, delay) && Inv(cfg, delay, s, at)
    ensures Worth(cfg, Cleanup(s, cfg.ttl, at), k, at) == Worth(cfg, s, k, at)
  {
    if k in s.table && s.table[k].lastSeen < at - cfg.ttl {
      var b := s.buckets[s.table[k].id];
      assert Sound(cfg.limit, b, at);
      RefillGrows(cfg.limit.rps, cfg.ttl + 1 - delay, at - b.last);
      RefillGrows(cfg.limit.rps, 0, at - b.last);
    }
  }

  lemma AgreesLater(cfg: P.Config, delay: int, s: State, all: State, now: int, later: int)
    requires cfg.limit.rps > 0.0 && now <= later
    requires Inv(cfg, delay, s, now) && Inv(cfg, delay, all, now) && Agrees(cfg, s, all, now)
    ensures Agrees(cfg, s, all, later)
  {
    forall k ensures Worth(cfg, s, k, later) == Worth(cfg, all, k, later) {
      WorthLater(cfg, delay, s, k, now, later);
      WorthLater(cfg, delay, all, k, now, later);
    }
  }

  lemma LookUpSameCalls(cfg: P.Config, s: State, all: State, at: int, req: nat, key: string)
    requires SameCalls(s, all)
    ensures SameCalls(LookUp(cfg, s, at, req, key), LookUp(cfg, all, at, req, key))
  {
  }

  lemma LookUpSameWorth(cfg: P.Config, s: State, all: State, at: int, req: nat, key: string)
    requires cfg.limit.rps > 0.0 && SameWorth(cfg, s, all, at)
    ensures SameWorth(cfg, LookUp(cfg, s, at, req, key), LookUp(cfg, all, at, req, key), at)
  {
    var s', all' := LookUp(cfg, s, at, req, key), LookUp(cfg, all, at, req, key);
    forall k ensures Worth(cfg, s', k, at) == Worth(cfg, all', k, at) {
      WorthLookUp(cfg, s, at, req, key, k);
      WorthLookUp(cfg, all, at, req, key, k);
    }
  }

  lemma UseAgrees(cfg: P.Config, delay: int, s: State, all: State, at: int, req: nat)
    requires cfg.limit.rps > 0.0 && req in s.calls && req in all.calls
    requires Inv(cfg, delay, s, at) && Inv(cfg, delay, all, at) && Agrees(cfg, s, all, at)
    ensures UseBucket(cfg, s, at, req).0 == UseBucket(cfg, all, at, req).0
    ensures Agrees(cfg, UseBucket(cfg, s, at, req).1, UseBucket(cfg, all, at, req).1, at)
  {
    var s', all' := UseBucket(cfg, s, at, req).1, UseBucket(cfg, all, at, req).1;
    WorthUse(cfg, delay, s, at, req, s.calls[req].key);
    WorthUse(cfg, delay, all, at, req, s.calls[req].key);
    forall k ensures Worth(cfg, s', k, at) == Worth(cfg, all', k, at) {
      WorthUse(cfg, delay, s, at, req, k);
      WorthUse(cfg, delay, all, at, req, k);
    }
  }

  lemma TickAgrees(cfg: P.Config, delay: int, s: State, all: State, at: int)
    requires cfg.limit.rps > 0.0 && P.IdleRefills(cfg, delay)
    requires Inv(cfg, delay, s, at) && Agrees(cfg, s, all, at)
    ensures Agrees(cfg, Cleanup(s, cfg.ttl, at), all, at)
  {
    var s' := Cleanup(s, cfg.ttl, at);
    forall k ensures Worth(cfg, s', k, at) == Worth(cfg, all, k, at) {
      WorthCleanup(cfg, delay, s, at, k);
    }
  }

  lemma StepAgrees(cfg: P.Config, delay: int, s: State, all: State, e: Event)
    requires cfg.limit.rps > 0.0 && P.IdleRefills(cfg, delay)
    requires Inv(cfg, delay, s, e.at) && Inv(cfg, delay, all, e.at) && Agrees(cfg, s, all, e.at)
    ensures Step(cfg, true, s, e).0 == Step(cfg, false, all, e).0
    ensures Agrees(cfg, Step(cfg, true, s, e).1, Step(cfg, false, all, e).1, e.at)
  {
    match e
    case Lookup(at, req, key) =>
      LookUpSameCalls(cfg, s, all, at, req, key);
      LookUpSameWorth(cfg, s, all, at, req, key);
    case Use(at, req) => if req in s.calls { UseAgrees(cfg, delay, s, all, at, req); }
    case Tick(at) => TickAgrees(cfg, delay, s, all, at);
  }

  lemma StepAgreesLater(cfg: P.Config, delay: int, s: State, all: State, now: int, e: Event)
    requires cfg.limit.rps > 0.0 && P.IdleRefills(cfg, delay) && now <= e.at
    requires Inv(cfg, delay, s, now) && Inv(cfg, delay, all, now) && Agrees(cfg, s, all, now)
    ensures Step(cfg, true, s, e).0 == Step(cfg, false, all, e).0
    ensures Agrees(cfg, Step(cfg, true, s, e).1, Step(cfg, false, all, e).1, e.at)
  {
    hide Inv, Agrees, Step;
    AgreesLater(cfg, delay, s, all, now, e.at);
    InvLater(cfg, delay, s, now, e.at);
    InvLater(cfg, delay, all, now, e.at);
    StepAgrees(cfg, delay, s, all, e);
  }

  /** What two runs share before every step. */
  ghost predicate Related(cfg: P.Config, delay: int, s: State, all: State, now: int) {
    Inv(cfg, delay, s, now) && Inv(cfg, delay, all, now) && Agrees(cfg, s, all, now) && Held(s) == Held(all)
  }

  lemma StepRelated(cfg: P.Config, delay: int, s: State, all: State, now: int, e: Event)
    requires cfg.limit.rps > 0.0 && 0 <= delay <= cfg.ttl && P.IdleRefills(cfg, delay)
    requires Related(cfg, delay, s, all, now) && Possible(delay, Held(s), now, e)
    ensures Step(cfg, true, s, e).0 == Step(cfg, false, all, e).0
    ensures Related(cfg, delay, Step(cfg, true, s, e).1, Step(cfg, false, all, e).1, e.at)
    ensures Held(Step(cfg, true, s, e).1) == HeldAfter(Held(s), e)
  {
    hide Inv, Agrees, Step;
    StepAgreesLater(cfg, delay, s, all, now, e);
    StepInv(cfg, delay, true, s, now, e);
    StepInv(cfg, delay, false, all, now, e);
    HeldStep(cfg, true, s, e);
    HeldStep(cfg, false, all, e);
  }

  lemma {:induction false} RunsAgree(cfg: P.Config, delay: int, s: State, all: State, now: int, es: seq<Event>)
    requires cfg.limit.rps > 0.0 && 0 <= delay <= cfg.ttl && P.IdleRefills(cfg, delay)
    requires Related(cfg, delay, s, all, now) && Legal(delay, Held(s), now, es)
    ensures Run(cfg, true, s, es).0 == Run(cfg, false, all, es).0
    decreases |es|
  {
    hide Related;
    if es != [] {
      var e := es[0];
      StepRelated(cfg, delay, s, all, now, e);
      RunsAgree(cfg, delay, Step(cfg, true, s, e).1, Step(cfg, false, all, e).1, e.at, es[1..]);
    }
  }

  // ----- The other direction: too little time to refill is caught by one schedule -----

  function Granted(cfg: P.Config, evict: bool, s: State, es: seq<Event>): nat {
    P.Admitted(Run(cfg, evict, s, es).0)
  }

  lemma GrantedStep(cfg: P.Config, evict: bool, s: State, e: Event, es: seq<Event>)
    ensures var (a, s') := Step(cfg, evict, s, e);
            Granted(cfg, evict, s, [e] + es) == (if a == Some(true) then 1 else 0) + Granted(cfg, evict, s', es)
  {
  }

  /** Requests `i` to `n` of one peer look up, one after the other, at one instant. */
  function Lookups(i: nat, n: nat, at: int): seq<Event>
    requires i <= n
    decreases n - i
  {
    if i == n then [] else [Lookup(at, i, "peer")] + Lookups(i + 1, n, at)
  }

  function Uses(i: nat, n: nat, at: int): seq<Event>
    requires i <= n
    decreases n - i
  {
    if i == n then [] else [Use(at, i)] + Uses(i + 1, n, at)
  }

  /** Exactly the requests `i` to `n` of the peer hold a bucket, all looked up at `since`. */
  ghost predicate Waiting(s: State, i: nat, n: nat, since: int) {
    && (forall r :: r in s.calls <==> i <= r < n)
    && (forall r :: r in s.calls ==> s.calls[r].key == "peer" && s.calls[r].since == since)
  }

  /** The peer has a slot, seen at `seen`, in a sound state. */
  ghost predicate Seen(cfg: P.Config, delay: int, s: State, now: int, seen: int) {
    Inv(cfg, delay, s, now) && "peer" in s.table && s.table["peer"].lastSeen == seen
  }

  lemma LookUpNext(cfg: P.Config, delay: int, s: State, i: nat, at: int)
    requires cfg.limit.rps > 0.0 && delay >= 0 && Inv(cfg, delay, s, at) && Waiting(s, 0, i, at)
    ensures var s' := LookUp(cfg, s, at, i, "peer");
            Seen(cfg, delay, s', at, at) && Waiting(s', 0, i + 1, at) &&
                Worth(cfg, s', "peer", at) == Worth(cfg, s, "peer", at)
  {
    var s' := LookUp(cfg, s, at, i, "peer");
    assert Waiting(s', 0, i + 1, at);
    assert Worth(cfg, s', "peer", at) == Worth(cfg, s, "peer", at) by { WorthLookUp(cfg, s, at, i, "peer", "peer"); }
    assert Inv(cfg, delay, s', at) by { LookUpInv(cfg, delay, s, at, i, "peer"); }
  }

  lemma {:induction false} LookupsRun(cfg: P.Config, delay: int, evict: bool, s: State, i: nat, n: nat, at: int,
      rest: seq<Event>)
    returns (s': State)
    requires cfg.limit.rps > 0.0 && delay >= 0 && i < n && Inv(cfg, delay, s, at) && Waiting(s, 0, i, at)
    ensures Seen(cfg, delay, s', at, at) && Waiting(s', 0, n, at) &&
        Worth(cfg, s', "peer", at) == Worth(cfg, s, "peer", at)
    ensures Granted(cfg, evict, s, Lookups(i, n, at) + rest) == Granted(cfg, evict, s', rest)
    decreases n - i
  {
    hide Inv, Worth, Granted;
    var e, es := Lookup(at, i, "peer"), Lookups(i + 1, n, at) + rest;
    assert Lookups(i, n, at) + rest == [e] + es;
    GrantedStep(cfg, evict, s, e, es);
    LookUpNext(cfg, delay, s, i, at);
    s' := LookUp(cfg, s, at, i, "peer");
    if i + 1 < n {
      s' := LookupsRun(cfg, delay, evict, s', i + 1, n, at, rest);
    } else {
      assert es == rest;
    }
  }

  lemma UseNext(cfg: P.Config, delay: int, s: State, i: nat, n: nat, since: int, at: int)
    requires cfg.limit.rps > 0.0 && i < n && at - since <= delay && Inv(cfg, delay, s, at) && Waiting(s, i, n, since)
    ensures i in s.calls
    ensures var (ok, s') := UseBucket(cfg, s, at, i);
            && Inv(cfg, delay, s', at) && Waiting(s', i + 1, n, since) && s'.table == s.table
            && ok == (Worth(cfg, s, "peer", at) >= 1.0)
            && Worth(cfg, s', "peer", at) == Worth(cfg, s, "peer", at) - if ok then 1.0 else 0.0
  {
    UseInv(cfg, delay, s, at, i);
    WorthUse(cfg, delay, s, at, i, "peer");
  }

  lemma FirstUse(cfg: P.Config, evict: bool, s: State, i: nat, n: nat, at: int, rest: seq<Event>)
    requires i < n && i in s.calls
    ensures var (ok, next) := UseBucket(cfg, s, at, i);
            Granted(cfg, evict, s, Uses(i, n, at) + rest) ==
            (if ok then 1 else 0) + Granted(cfg, evict, next, Uses(i + 1, n, at) + rest)
  {
    var e, es := Use(at, i), Uses(i + 1, n, at) + rest;
    assert Uses(i, n, at) + rest == [e] + es;
    GrantedStep(cfg, evict, s, e, es);
  }

  lemma {:induction false} UsesRun(cfg: P.Config, delay: int, evict: bool, s: State, i: nat, n: nat, since: int,
      at: int, rest: seq<Event>)
    returns (s': State, granted: nat)
    requires cfg.limit.rps > 0.0 && i <= n && at - since <= delay && Inv(cfg, delay, s, at) && Waiting(s, i, n, since)
    ensures Inv(cfg, delay, s', at) && Waiting(s', n, n, since) && s'.table == s.table
    ensures Worth(cfg, s', "peer", at) == Worth(cfg, s, "peer", at) - granted as real
    ensures (n - i) as real <= Worth(cfg, s, "peer", at) ==> granted == n - i
    ensures Granted(cfg, evict, s, Uses(i, n, at) + rest) == granted + Granted(cfg, evict, s', rest)
    decreases n - i
  {
    hide Inv, UseBucket, Worth, Granted;
    if i == n {
      s', granted := s, 0;
      assert Uses(i, n, at) + rest == rest;
    } else {
      UseNext(cfg, delay, s, i, n, since, at);
      var (ok, next) := UseBucket(cfg, s, at, i);
      s', granted := UsesRun(cfg, delay, evict, next, i + 1, n, since, at, rest);
      granted := granted + if ok then 1 else 0;
      FirstUse(cfg, evict, s, i, n, at, rest);
    }
  }

  /** The first instant at which a slot seen at 0 is swept. */
  function Late(cfg: P.Config): int { cfg.ttl + 1 }

  /** A full burst of requests, just after that sweep. */
  function Second(cfg: P.Config): seq<Event>
    requires cfg.limit.burst > 0
  {
    Lookups(0, cfg.limit.burst, Late(cfg)) + (Uses(0, cfg.limit.burst, Late(cfg)) + [])
  }

  /** Drain a peer as late as permitted, sweep just after its TTL, and let it send a full burst again. */
  function Schedule(cfg: P.Config, delay: int): seq<Event>
    requires cfg.limit.burst > 0
  {
    Lookups(0, cfg.limit.burst, 0) + (Uses(0, cfg.limit.burst, delay) + ([Tick(Late(cfg))] + Second(cfg)))
  }

  /** Every request has its bucket, which is full: nothing has been used yet. */
  lemma AllLookedUp(cfg: P.Config, delay: int, evict: bool, n: nat, rest: seq<Event>) returns (s: State)
    requires cfg.limit.rps > 0.0 && 0 <= delay && n == cfg.limit.burst && n > 0
    ensures Seen(cfg, delay, s, delay, 0) && Waiting(s, 0, n, 0) && Worth(cfg, s, "peer", delay) == n as real
    ensures Granted(cfg, evict, EMPTY, Lookups(0, n, 0) + rest) == Granted(cfg, evict, s, rest)
  {
    s := LookupsRun(cfg, delay, evict, EMPTY, 0, n, 0, rest);
    InvLater(cfg, delay, s, 0, delay);
    WorthLater(cfg, delay, s, "peer", 0, delay);
    RefillGrows(cfg.limit.rps, 0, delay);
  }

  /** Every request was granted, so the bucket is empty. */
  lemma AllUsed(cfg: P.Config, delay: int, evict: bool, n: nat, rest: seq<Event>) returns (s: State)
    requires cfg.limit.rps > 0.0 && 0 <= delay && n == cfg.limit.burst && n > 0
    ensures Seen(cfg, delay, s, delay, 0) && Waiting(s, 0, 0, Late(cfg)) && Worth(cfg, s, "peer", delay) == 0.0
    ensures Granted(cfg, evict, EMPTY, Lookups(0, n, 0) + (Uses(0, n, delay) + rest)) ==
        n + Granted(cfg, evict, s, rest)
  {
    var s0 := AllLookedUp(cfg, delay, evict, n, Uses(0, n, delay) + rest);
    var granted;
    s, granted := UsesRun(cfg, delay, evict, s0, 0, n, 0, delay, rest);
  }

  /** The drained state at the time of the tick, and what it is worth by then. */
  lemma FirstRound(cfg: P.Config, delay: int, evict: bool) returns (s: State)
    requires cfg.limit.rps > 0.0 && 0 <= delay <= cfg.ttl && cfg.limit.burst > 0
    ensures Seen(cfg, delay, s, Late(cfg), 0) && Waiting(s, 0, 0, Late(cfg))
    ensures Worth(cfg, s, "peer", Late(cfg)) == Min(cfg.limit.burst as real, Refill(cfg.limit.rps, Late(cfg) - delay))
    ensures Granted(cfg, evict, EMPTY, Schedule(cfg, delay))
         == cfg.limit.burst + Granted(cfg, evict, s, [Tick(Late(cfg))] + Second(cfg))
  {
    s := AllUsed(cfg, delay, evict, cfg.limit.burst, [Tick(Late(cfg))] + Second(cfg));
    InvLater(cfg, delay, s, delay, Late(cfg));
    WorthLater(cfg, delay, s, "peer", delay, Late(cfg));
  }

  lemma SecondRound(cfg: P.Config, delay: int, evict: bool, s: State)
    requires cfg.limit.rps > 0.0 && delay >= 0 && cfg.limit.burst > 0
    requires Inv(cfg, delay, s, Late(cfg)) && Waiting(s, 0, 0, Late(cfg))
    ensures Granted(cfg, evict, s, Second(cfg)) as real <= Worth(cfg, s, "peer", Late(cfg))
    ensures Worth(cfg, s, "peer", Late(cfg)) == cfg.limit.burst as real ==>
        Granted(cfg, evict, s, Second(cfg)) == cfg.limit.burst
  {
    hide Inv, Worth;
    var n: nat, at := cfg.limit.burst, Late(cfg);
    var s' := LookupsRun(cfg, delay, evict, s, 0, n, at, Uses(0, n, at) + []);
    var s'', granted := UsesRun(cfg, delay, evict, s', 0, n, at, at, []);
    WorthLater(cfg, delay, s'', "peer", at, at);
    assert Granted(cfg, evict, s'', []) == 0;
  }

  /** Evicting, the swept peer gets a second full burst. */
  lemma EvictingGrantsAll(cfg: P.Config, delay: int)
    requires cfg.limit.rps > 0.0 && 0 <= delay <= cfg.ttl && cfg.limit.burst > 0
    ensures Granted(cfg, true, EMPTY, Schedule(cfg, delay)) == 2 * cfg.limit.burst
  {
    var s := FirstRound(cfg, delay, true);
    CleanupInv(cfg, delay, s, Late(cfg));
    GrantedStep(cfg, true, s, Tick(Late(cfg)), Second(cfg));
    SecondRound(cfg, delay, true, Cleanup(s, cfg.ttl, Late(cfg)));
  }

  /** Never evicting, only what has refilled since is there to take. */
  lemma KeepingGrantsLess(cfg: P.Config, delay: int)
    requires cfg.limit.rps > 0.0 && 0 <= delay <= cfg.ttl && cfg.limit.burst > 0 && !P.IdleRefills(cfg, delay)
    ensures Granted(cfg, false, EMPTY, Schedule(cfg, delay)) < 2 * cfg.limit.burst
  {
    hide Inv, Worth, Granted, Schedule, Second, Refill;
    var s := FirstRound(cfg, delay, false);
    GrantedStep(cfg, false, s, Tick(Late(cfg)), Second(cfg));
    SecondRound(cfg, delay, false, s);
  }

  function Range(i: nat, n: nat, at: int): (held: map<nat, int>)
    ensures forall r :: r in held <==> i <= r < n
    ensures forall r :: r in held ==> held[r] == at
  {
    if n <= i then map[] else Range(i, n - 1, at)[n - 1 := at]
  }

  lemma LegalStep(delay: int, held: map<nat, int>, now: int, e: Event, held': map<nat, int>, es: seq<Event>)
    requires Possible(delay, held, now, e) && held' == HeldAfter(held, e) && Legal(delay, held', e.at, es)
    ensures Legal(delay, held, now, [e] + es)
  {
  }

  lemma LegalLookups(delay: int, i: nat, n: nat, now: int, at: int, rest: seq<Event>)
    requires delay >= 0 && i <= n && now <= at && Legal(delay, Range(0, n, at), at, rest) && (i < n || now == at)
    ensures Legal(delay, Range(0, i, at), now, Lookups(i, n, at) + rest)
    decreases n - i
  {
    hide Range, Legal;
    if i == n {
      assert Lookups(i, n, at) + rest == rest;
    } else {
      LegalLookups(delay, i + 1, n, at, at, rest);
      var e, es := Lookup(at, i, "peer"), Lookups(i + 1, n, at) + rest;
      assert Lookups(i, n, at) + rest == [e] + es;
      LegalStep(delay, Range(0, i, at), now, e, Range(0, i + 1, at), es);
    }
  }

  lemma LegalUses(delay: int, i: nat, n: nat, since: int, now: int, at: int, rest: seq<Event>)
    requires i <= n && since <= now <= at <= since + delay && Legal(delay, map[], at, rest) && (i < n || now == at)
    ensures Legal(delay, Range(i, n, since), now, Uses(i, n, at) + rest)
    decreases n - i
  {
    hide Range, Legal;
    if i == n {
      assert Uses(i, n, at) + rest == rest && Range(i, n, since) == map[];
    } else {
      LegalUses(delay, i + 1, n, since, at, at, rest);
      var e, es := Use(at, i), Uses(i + 1, n, at) + rest;
      assert Uses(i, n, at) + rest == [e] + es;
      LegalStep(delay, Range(i, n, since), now, e, Range(i + 1, n, since), es);
    }
  }

  lemma SecondLegal(cfg: P.Config, delay: int)
    requires delay >= 0 && cfg.limit.burst > 0
    ensures Legal(delay, map[], Late(cfg), Second(cfg))
  {
    var n: nat, at := cfg.limit.burst, Late(cfg);
    var none: seq<Event> := [];
    assert Range(0, 0, at) == map[] && Legal(delay, map[], at, none);
    LegalUses(delay, 0, n, at, at, at, []);
    LegalLookups(delay, 0, n, at, at, Uses(0, n, at) + []);
  }

  lemma ScheduleLegal(cfg: P.Config, delay: int)
    requires 0 <= delay <= cfg.ttl && cfg.limit.burst > 0
    ensures Legal(delay, map[], 0, Schedule(cfg, delay))
  {
    var n: nat := cfg.limit.burst;
    SecondLegal(cfg, delay);
    var tail := [Tick(Late(cfg))] + Second(cfg);
    assert tail[1..] == Second(cfg) && Legal(delay, map[], delay, tail);
    assert Range(0, 0, 0) == map[];
    LegalUses(delay, 0, n, 0, 0, delay, tail);
    LegalLookups(delay, 0, n, 0, 0, Uses(0, n, delay) + tail);
  }

  // ----- Beyond the TTL: a bucket that is evicted before its use is granted on top of the next one -----

  /** Look up, be swept, use all the same, and follow with a full burst. */
  function Stale(cfg: P.Config): seq<Event>
    requires cfg.limit.burst > 0
  {
    [Lookup(0, 0, "peer")] + ([Tick(Late(cfg))] + ([Use(Late(cfg), 0)] + Second(cfg)))
  }

  lemma StaleLegal(cfg: P.Config, delay: int)
    requires 0 < cfg.ttl < delay && cfg.limit.burst > 0
    ensures Legal(delay, map[], 0, Stale(cfg))
  {
    hide Legal, Second;
    var at := Late(cfg);
    SecondLegal(cfg, delay);
    LegalStep(delay, map[0 := 0], at, Use(at, 0), map[], Second(cfg));
    LegalStep(delay, map[0 := 0], 0, Tick(at), map[0 := 0], [Use(at, 0)] + Second(cfg));
    LegalStep(delay, map[], 0, Lookup(0, 0, "peer"), map[0 := 0], [Tick(at)] + ([Use(at, 0)] + Second(cfg)));
  }

  /** The state after the stale use: the bucket has one token less, and is in the table unless it was evicted. */
  function AfterUse(cfg: P.Config, evict: bool): State {
    var table := if evict then map[] else map["peer" := Entry(0, 0)];
    State([Bucket(cfg.limit.burst as real - 1.0, Late(cfg))], table, map[])
  }

  lemma StaleUse(cfg: P.Config, evict: bool)
    requires cfg.limit.rps > 0.0 && cfg.ttl > 0 && cfg.limit.burst > 0
    ensures Granted(cfg, evict, EMPTY, Stale(cfg)) == 1 + Granted(cfg, evict, AfterUse(cfg, evict), Second(cfg))
  {
    var at := Late(cfg);
    var s1 := State([Fresh(cfg.limit, 0)], map["peer" := Entry(0, 0)], map[0 := Call("peer", 0, 0)]);
    var s2 := State(s1.buckets, if evict then map[] else s1.table, s1.calls);
    assert EMPTY.buckets + [Fresh(cfg.limit, 0)] == s1.buckets;
    assert Step(cfg, evict, EMPTY, Lookup(0, 0, "peer")) == (None, s1);
    assert Step(cfg, evict, s1, Tick(at)) == (None, s2);
    RefillGrows(cfg.limit.rps, 0, at);
    assert s2.calls - {0} == map[] && Level(cfg.limit, s2.buckets[0], at) == cfg.limit.burst as real;
    assert s2.buckets[0 := AfterUse(cfg, evict).buckets[0]] == AfterUse(cfg, evict).buckets;
    assert Step(cfg, evict, s2, Use(at, 0)) == (Some(true), AfterUse(cfg, evict));
    hide Step, Granted;
    GrantedStep(cfg, evict, EMPTY, Lookup(0, 0, "peer"), [Tick(at)] + ([Use(at, 0)] + Second(cfg)));
    GrantedStep(cfg, evict, s1, Tick(at), [Use(at, 0)] + Second(cfg));
    GrantedStep(cfg, evict, s2, Use(at, 0), Second(cfg));
  }

  lemma AfterUseInv(cfg: P.Config, delay: int, evict: bool)
    requires cfg.limit.rps > 0.0 && 0 < cfg.ttl < delay && cfg.limit.burst > 0
    ensures var s := AfterUse(cfg, evict);
            && Inv(cfg, delay, s, Late(cfg)) && Waiting(s, 0, 0, Late(cfg))
            && Worth(cfg, s, "peer", Late(cfg)) == cfg.limit.burst as real - if evict then 0.0 else 1.0
  {
    assert Refill(cfg.limit.rps, 0) == 0.0;
  }

  lemma StaleIsSeen(cfg: P.Config, delay: int)
    requires cfg.limit.rps > 0.0 && 0 < cfg.ttl < delay && cfg.limit.burst > 0
    ensures Granted(cfg, true, EMPTY, Stale(cfg)) == cfg.limit.burst + 1
    ensures Granted(cfg, false, EMPTY, Stale(cfg)) <= cfg.limit.burst
    ensures !Invisible(cfg, delay)
  {
    hide Inv, Worth, AfterUse, Second;
    StaleUse(cfg, true);
    AfterUseInv(cfg, delay, true);
    SecondRound(cfg, delay, true, AfterUse(cfg, true));
    StaleUse(cfg, false);
    AfterUseInv(cfg, delay, false);
    SecondRound(cfg, delay, false, AfterUse(cfg, false));
    StaleLegal(cfg, delay);
  }

  /** A bucket without room for a token never admits, so nothing tells the two runs apart. */
  lemma {:induction false} BurstlessRunsAgree(cfg: P.Config, s: State, all: State, es: seq<Event>)
    requires cfg.limit.burst <= 0 && s.calls.Keys == all.calls.Keys
    ensures Run(cfg, true, s, es).0 == Run(cfg, false, all, es).0
    decreases |es|
  {
    if es != [] {
      var (a, s') := Step(cfg, true, s, es[0]);
      var (b, all') := Step(cfg, false, all, es[0]);
      assert a == b && s'.calls.Keys == all'.calls.Keys;
      BurstlessRunsAgree(cfg, s', all', es[1..]);
    }
  }

  /**
   * Whatever the longest delay, eviction is invisible exactly when nothing is ever admitted, or the delay is within
   * the TTL and a bucket refills in what is left of it.
   */
  lemma InvisibleIff(cfg: P.Config, delay: int)
    requires cfg.limit.rps > 0.0 && cfg.ttl > 0 && delay >= 0
    ensures Invisible(cfg, delay) <==> cfg.limit.burst <= 0 || (delay <= cfg.ttl && P.IdleRefills(cfg, delay))
  {
    if cfg.limit.burst <= 0 {
      forall now, es | Legal(delay, map[], now, es)
          ensures Run(cfg, true, EMPTY, es).0 == Run(cfg, false, EMPTY, es).0
      {
        BurstlessRunsAgree(cfg, EMPTY, EMPTY, es);
      }
    } else if delay > cfg.ttl {
      StaleIsSeen(cfg, delay);
    } else if P.IdleRefills(cfg, delay) {
      forall now, es | Legal(delay, map[], now, es)
          ensures Run(cfg, true, EMPTY, es).0 == Run(cfg, false, EMPTY, es).0
      {
        EmptyInv(cfg, delay, now);
        assert Related(cfg, delay, EMPTY, EMPTY, now);
        RunsAgree(cfg, delay, EMPTY, EMPTY, now, es);
      }
    } else {
      EvictingGrantsAll(cfg, delay);
      KeepingGrantsLess(cfg, delay);
      ScheduleLegal(cfg, delay);
    }
  }
}
