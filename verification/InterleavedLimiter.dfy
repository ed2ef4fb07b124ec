/**
 * `Allow` takes the table lock only to look its peer's bucket up; it uses the bucket afterwards.  Here lookup and
 * use are separate steps, so other lookups, uses and ticks fall between them.  `delay` bounds the time from a
 * request's lookup to its use.
 */
module InterleavedLimiter {
  import opened Wrappers
  import opened TokenBucket
  import P = PeerTable

  datatype Entry = Entry(id: nat, lastSeen: int)

  /** A request that has looked its bucket up and not yet used it. */
  datatype Call = Call(key: string, id: nat, since: int)

  /** `buckets` is the heap: a bucket stays there while a request holds it, evicted or not. */
  datatype RawState = State(buckets: seq<Bucket>, table: map<string, Entry>, calls: map<nat, Call>)

  type State = s: RawState |
    && (forall k :: k in s.table ==> s.table[k].id < |s.buckets|)
    && (forall r :: r in s.calls ==> s.calls[r].id < |s.buckets|)
    witness State([], map[], map[])

  const EMPTY: State := State([], map[], map[])

  datatype Event = Lookup(at: int, req: nat, key: string) | Use(at: int, req: nat) | Tick(at: int)

  function LookUp(cfg: P.Config, s: State, now: int, req: nat, key: string): State {
    if key in s.table then
      var id := s.table[key].id;
      State(s.buckets, s.table[key := Entry(id, now)], s.calls[req := Call(key, id, now)])
    else
      var id := |s.buckets|;
      State(s.buckets + [Fresh(cfg.limit, now)], s.table[key := Entry(id, now)], s.calls[req := Call(key, id, now)])
  }

  function UseBucket(cfg: P.Config, s: State, now: int, req: nat): (bool, State)
    requires req in s.calls
  {
    var id := s.calls[req].id;
    var (ok, b) := Take(cfg.limit, s.buckets[id], now);
    (ok, State(s.buckets[id := b], s.table, s.calls - {req}))
  }

  function Cleanup(s: State, ttl: int, now: int): State {
    State(s.buckets, map k | k in s.table && s.table[k].lastSeen >= now - ttl :: s.table[k], s.calls)
  }

  /** With `evict` false, ticks do nothing; a use that answers no lookup is not a step. */
  function Step(cfg: P.Config, evict: bool, s: State, e: Event): (Option<bool>, State) {
    match e
    case Lookup(now, req, key) => (None, LookUp(cfg, s, now, req, key))
    case Use(now, req) =>
      if req in s.calls then var (ok, s') := UseBucket(cfg, s, now, req); (Some(ok), s') else (None, s)
    case Tick(now) => (None, if evict then Cleanup(s, cfg.ttl, now) else s)
  }

  function Run(cfg: P.Config, evict: bool, s: State, es: seq<Event>): (r: (seq<Option<bool>>, State))
    ensures |r.0| == |es|
    decreases |es|
  {
    if es == [] then ([], s)
    else
      var (a, s') := Step(cfg, evict, s, es[0]);
      var (rest, end) := Run(cfg, evict, s', es[1..]);
      ([a] + rest, end)
  }

  /** The lookup times of the requests still holding a bucket. */
  function Held(s: State): map<nat, int> {
    map r | r in s.calls :: s.calls[r].since
  }

  function HeldAfter(held: map<nat, int>, e: Event): map<nat, int> {
    match e
    case Lookup(now, req, _) => held[req := now]
    case Use(_, req) => held - {req}
    case Tick(_) => held
  }

  /** An event can happen next: time has not gone back, nobody is overdue, and it answers a lookup if it is a use. */
  ghost predicate Possible(delay: int, held: map<nat, int>, now: int, e: Event) {
    && now <= e.at
    && (forall r :: r in held ==> e.at - held[r] <= delay)
    && (e.Lookup? ==> e.req !in held)
    && (e.Use? ==> e.req in held)
  }

  ghost predicate Legal(delay: int, held: map<nat, int>, now: int, es: seq<Event>)
    decreases |es|
  {
    es == [] || (Possible(delay, held, now, es[0]) && Legal(delay, HeldAfter(held, es[0]), es[0].at, es[1..]))
  }

  // ----- One bucket per peer -----

  /** All requests of a peer hold one and the same bucket, the one in the table if there is one. */
  ghost predicate SingleBucket(s: State) {
    && (forall q, r :: q in s.calls && r in s.calls && s.calls[q].key == s.calls[r].key ==>
        s.calls[q].id == s.calls[r].id)
    && (forall r :: r in s.calls && s.calls[r].key in s.table ==> s.table[s.calls[r].key].id == s.calls[r].id)
  }

  ghost predicate AlwaysSingle(cfg: P.Config, delay: int) {
    forall now, es :: Legal(delay, map[], now, es) ==> SingleBucket(Run(cfg, true, EMPTY, es).1)
  }

  ghost predicate SoundHeap(cfg: P.Config, buckets: seq<Bucket>, now: int) {
    forall i :: 0 <= i < |buckets| ==> Sound(cfg.limit, buckets[i], now)
  }

  ghost predicate Distinct(s: State) {
    forall j, k :: j in s.table && k in s.table && j != k ==> s.table[j].id != s.table[k].id
  }

  /** No bucket in the table was used later than `delay` after its entry was last seen. */
  ghost predicate UsedSoon(delay: int, s: State, now: int) {
    forall k :: k in s.table ==>
      s.buckets[s.table[k].id].last <= s.table[k].lastSeen + delay && s.table[k].lastSeen <= now
  }

  /** A bucket someone holds is still the one in the table. */
  ghost predicate HeldLive(s: State) {
    forall r :: r in s.calls ==>
      && s.calls[r].key in s.table
      && s.table[s.calls[r].key].id == s.calls[r].id
      && s.calls[r].since <= s.table[s.calls[r].key].lastSeen
  }

  ghost predicate Inv(cfg: P.Config, delay: int, s: State, now: int) {
    SoundHeap(cfg, s.buckets, now) && Distinct(s) && UsedSoon(delay, s, now) && HeldLive(s)
  }

  lemma EmptyInv(cfg: P.Config, delay: int, now: int)
    ensures Inv(cfg, delay, EMPTY, now) && Held(EMPTY) == map[]
  {
  }

  lemma HeldStep(cfg: P.Config, evict: bool, s: State, e: Event)
    ensures Held(Step(cfg, evict, s, e).1) == HeldAfter(Held(s), e)
  {
  }

  lemma InvLater(cfg: P.Config, delay: int, s: State, now: int, later: int)
    requires Inv(cfg, delay, s, now) && now <= later
    ensures Inv(cfg, delay, s, later)
  {
  }

  lemma LookUpKnown(cfg: P.Config, delay: int, s: State, at: int, req: nat, key: string)
    requires key in s.table && Inv(cfg, delay, s, at)
    ensures Inv(cfg, delay, LookUp(cfg, s, at, req, key), at)
  {
  }

  lemma LookUpNew(cfg: P.Config, delay: int, s: State, at: int, req: nat, key: string)
    requires key !in s.table && delay >= 0 && Inv(cfg, delay, s, at)
    ensures Inv(cfg, delay, LookUp(cfg, s, at, req, key), at)
  {
    var s' := LookUp(cfg, s, at, req, key);
    assert SoundHeap(cfg, s'.buckets, at) by {
      assert Sound(cfg.limit, Fresh(cfg.limit, at), at);
    }
    assert HeldLive(s');
  }

  lemma LookUpInv(cfg: P.Config, delay: int, s: State, at: int, req: nat, key: string)
    requires delay >= 0 && Inv(cfg, delay, s, at)
    ensures Inv(cfg, delay, LookUp(cfg, s, at, req, key), at)
  {
    if key in s.table {
      LookUpKnown(cfg, delay, s, at, req, key);
    } else {
      LookUpNew(cfg, delay, s, at, req, key);
    }
  }

  lemma UseInv(cfg: P.Config, delay: int, s: State, at: int, req: nat)
    requires cfg.limit.rps > 0.0 && Inv(cfg, delay, s, at) && req in s.calls && at - s.calls[req].since <= delay
    ensures Inv(cfg, delay, UseBucket(cfg, s, at, req).1, at)
  {
    var c := s.calls[req];
    var s' := UseBucket(cfg, s, at, req).1;
    TakeSound(cfg.limit, s.buckets[c.id], at);
    forall i | 0 <= i < |s'.buckets| ensures Sound(cfg.limit, s'.buckets[i], at) {
      assert Sound(cfg.limit, s.buckets[i], at);
    }
    forall k | k in s'.table ensures s'.buckets[s'.table[k].id].last <= s'.table[k].lastSeen + delay {
      if k != c.key {
        assert s.table[k].id != s.table[c.key].id;
      }
    }
  }

  lemma CleanupInv(cfg: P.Config, delay: int, s: State, at: int)
    requires delay <= cfg.ttl && Inv(cfg, delay, s, at)
    requires forall r :: r in s.calls ==> at - s.calls[r].since <= delay
    ensures Inv(cfg, delay, Cleanup(s, cfg.ttl, at), at)
  {
  }

  lemma StepInv(cfg: P.Config, delay: int, evict: bool, s: State, now: int, e: Event)
    requires cfg.limit.rps > 0.0 && 0 <= delay <= cfg.ttl
    requires Inv(cfg, delay, s, now) && Possible(delay, Held(s), now, e)
    ensures Inv(cfg, delay, Step(cfg, evict, s, e).1, e.at)
  {
    InvLater(cfg, delay, s, now, e.at);
    match e
    case Lookup(at, req, key) => LookUpInv(cfg, delay, s, at, req, key);
    case Use(at, req) =>
      assert Held(s)[req] == s.calls[req].since;
      UseInv(cfg, delay, s, at, req);
    case Tick(at) =>
      if evict {
        forall r | r in s.calls ensures at - s.calls[r].since <= delay {
          assert Held(s)[r] == s.calls[r].since;
        }
        CleanupInv(cfg, delay, s, at);
      }
  }

  lemma {:induction false} RunInv(cfg: P.Config, delay: int, evict: bool, s: State, now: int, es: seq<Event>)
    requires cfg.limit.rps > 0.0 && 0 <= delay <= cfg.ttl
    requires Inv(cfg, delay, s, now) && Legal(delay, Held(s), now, es)
    ensures SingleBucket(Run(cfg, evict, s, es).1) && HeldLive(Run(cfg, evict, s, es).1)
    decreases |es|
  {
    hide Step;
    if es != [] {
      StepInv(cfg, delay, evict, s, now, es[0]);
      HeldStep(cfg, evict, s, es[0]);
      RunInv(cfg, delay, evict, Step(cfg, evict, s, es[0]).1, es[0].at, es[1..]);
    }
  }

  /** An overdue request holds its bucket across the bucket's eviction, while a second request gets a new one. */
  function Overdue(cfg: P.Config): seq<Event> {
    [Lookup(0, 0, "peer"), Tick(cfg.ttl + 1), Lookup(cfg.ttl + 1, 1, "peer")]
  }

  lemma OverdueLegal(cfg: P.Config, delay: int)
    requires cfg.ttl > 0 && delay > cfg.ttl
    ensures Legal(delay, map[], 0, Overdue(cfg))
  {
    var es := Overdue(cfg);
    assert es[1..][1..] == [es[2]] && es[1..][1..][1..] == [];
    assert Legal(delay, map[0 := 0], cfg.ttl + 1, [es[2]]);
  }

  lemma OverdueSplits(cfg: P.Config)
    requires cfg.ttl > 0
    ensures !SingleBucket(Run(cfg, true, EMPTY, Overdue(cfg)).1)
  {
    var es := Overdue(cfg);
    assert es[1..][1..] == [es[2]] && es[1..][1..][1..] == [];
    var s1 := Step(cfg, true, EMPTY, es[0]).1;
    var s2 := Step(cfg, true, s1, es[1]).1;
    var s3 := Step(cfg, true, s2, es[2]).1;
    assert Run(cfg, true, s2, [es[2]]).1 == s3;
    assert s3.calls[0] == Call("peer", 0, 0) && s3.calls[1] == Call("peer", 1, cfg.ttl + 1);
  }

  /** No peer ever has two buckets in use exactly when requests use their bucket within the TTL. */
  lemma AlwaysSingleIff(cfg: P.Config, delay: int)
    requires cfg.limit.rps > 0.0 && cfg.ttl > 0 && delay >= 0
    ensures AlwaysSingle(cfg, delay) <==> delay <= cfg.ttl
  {
    if delay <= cfg.ttl {
      forall now, es | Legal(delay, map[], now, es) ensures SingleBucket(Run(cfg, true, EMPTY, es).1) {
        EmptyInv(cfg, delay, now);
        RunInv(cfg, delay, true, EMPTY, now, es);
      }
    } else {
      OverdueLegal(cfg, delay);
      OverdueSplits(cfg);
    }
  }

  // ----- The atomic limiter as a special case -----

  /** The table of PeerTable that a state stands for. */
  function Flat(s: State): P.Table {
    map k | k in s.table :: P.Slot(s.buckets[s.table[k].id], s.table[k].lastSeen)
  }

  lemma FlatLookUp(cfg: P.Config, s: State, now: int, req: nat, key: string)
    requires Distinct(s)
    ensures Flat(LookUp(cfg, s, now, req, key)) == P.Touch(cfg, Flat(s), key, now)
    ensures Distinct(LookUp(cfg, s, now, req, key))
  {
  }

  lemma FlatUse(cfg: P.Config, s: State, now: int, req: nat)
    requires Distinct(s) && req in s.calls && s.calls[req].key in s.table
    requires s.table[s.calls[req].key].id == s.calls[req].id
    ensures var key := s.calls[req].key;
            var (ok, s') := UseBucket(cfg, s, now, req);
            var (ok', b) := Take(cfg.limit, Flat(s)[key].bucket, now);
            ok == ok' && Flat(s') == Flat(s)[key := P.Slot(b, Flat(s)[key].lastSeen)]
  {
  }

  /** A lookup followed at once by its use is one atomic `Allow`, and leaves no call behind. */
  lemma AtomicAllow(cfg: P.Config, s: State, now: int, req: nat, key: string)
    requires cfg.limit.rps > 0.0 && Distinct(s) && req !in s.calls
    ensures var looked := LookUp(cfg, s, now, req, key);
            var (ok, used) := UseBucket(cfg, looked, now, req);
            (ok, Flat(used)) == P.Allow(cfg, Flat(s), key, now) && used.calls == s.calls && used.table == looked.table
  {
    FlatLookUp(cfg, s, now, req, key);
    var looked := LookUp(cfg, s, now, req, key);
    assert looked.calls[req] == Call(key, looked.table[key].id, now);
    assert looked.calls - {req} == s.calls;
    FlatUse(cfg, looked, now, req);
    hide Distinct, Take, Flat;
  }

  lemma AtomicCleanup(s: State, ttl: int, now: int)
    ensures Flat(Cleanup(s, ttl, now)) == P.Sweep(Flat(s), ttl, now)
  {
  }
}
