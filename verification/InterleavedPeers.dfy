/**
 * What a peer can rely on when lookup and use are separate steps, however late the use: the answers it gets do not
 * depend on other peers, and the ticks leave exactly the slots they should.
 */
module InterleavedPeers {
  import opened Wrappers
  import opened TokenBucket
  import opened InterleavedLimiter
  import P = PeerTable
  import G = PeerGuarantees

  // ----- Isolation -----

  /** The event is a tick, a lookup of the peer, or a use by a request in `mine`, those that hold its buckets. */
  predicate Concerns(key: string, mine: set<nat>, e: Event) {
    match e
    case Lookup(_, _, peer) => peer == key
    case Use(_, req) => req in mine
    case Tick(_) => true
  }

  function MineAfter(key: string, mine: set<nat>, e: Event): set<nat> {
    match e
    case Lookup(_, req, peer) => if peer == key then mine + {req} else mine
    case Use(_, req) => mine - {req}
    case Tick(_) => mine
  }

  function Concerning(key: string, mine: set<nat>, es: seq<Event>): seq<Event>
    decreases |es|
  {
    if es == [] then []
    else
      var rest := Concerning(key, MineAfter(key, mine, es[0]), es[1..]);
      if Concerns(key, mine, es[0]) then [es[0]] + rest else rest
  }

  /** The answers to those events. */
  function AnswersTo(key: string, mine: set<nat>, es: seq<Event>, answers: seq<Option<bool>>): seq<Option<bool>>
    requires |es| == |answers|
    decreases |es|
  {
    if es == [] then []
    else
      var rest := AnswersTo(key, MineAfter(key, mine, es[0]), es[1..], answers[1..]);
      if Concerns(key, mine, es[0]) then [answers[0]] + rest else rest
  }

  function Mine(s: State, key: string): set<nat> {
    set r | r in s.calls && s.calls[r].key == key
  }

  /** `ids` takes buckets of one heap to equal ones of another. */
  ghost predicate Copied(ids: map<nat, nat>, bs: seq<Bucket>, cs: seq<Bucket>) {
    && (forall i :: i in ids ==> i < |bs| && ids[i] < |cs| && cs[ids[i]] == bs[i])
    && (forall i, j :: i in ids && j in ids && ids[i] == ids[j] ==> i == j)
  }

  type Entries = map<string, Entry>

  type Calls = map<nat, Call>

  /** No bucket of another peer is among them. */
  ghost predicate Foreign(ids: map<nat, nat>, table: Entries, calls: Calls, key: string) {
    && (forall r :: r in calls && calls[r].key != key ==> calls[r].id !in ids)
    && (forall k :: k in table && k != key ==> table[k].id !in ids)
  }

  ghost predicate SameSlot(ids: map<nat, nat>, table: Entries, table': Entries, key: string) {
    && (key in table <==> key in table')
    && (key in table ==>
        && table[key].id in ids
        && table'[key] == Entry(ids[table[key].id], table[key].lastSeen))
  }

  ghost predicate SameHolders(ids: map<nat, nat>, calls: Calls, calls': Calls, key: string) {
    && (forall r :: r in calls' <==> r in calls && calls[r].key == key)
    && (forall r :: r in calls' ==>
        && calls[r].id in ids
        && calls'[r] == Call(key, ids[calls[r].id], calls[r].since))
  }

  /** The runs are in the same state as far as the peer is concerned. */
  ghost predicate Alike(ids: map<nat, nat>, s: State, u: State, key: string) {
    && Copied(ids, s.buckets, u.buckets) && Foreign(ids, s.table, s.calls, key)
    && SameSlot(ids, s.table, u.table, key) && SameHolders(ids, s.calls, u.calls, key)
  }

  lemma CopyUpdated(ids: map<nat, nat>, bs: seq<Bucket>, cs: seq<Bucket>, i: nat, b: Bucket)
    requires Copied(ids, bs, cs) && i in ids
    ensures Copied(ids, bs[i := b], cs[ids[i] := b])
  {
  }

  lemma CopyKept(ids: map<nat, nat>, bs: seq<Bucket>, cs: seq<Bucket>, i: nat, b: Bucket)
    requires Copied(ids, bs, cs) && i !in ids && i < |bs|
    ensures Copied(ids, bs[i := b], cs)
  {
  }

  lemma CopyAdded(ids: map<nat, nat>, bs: seq<Bucket>, cs: seq<Bucket>, b: Bucket)
    requires Copied(ids, bs, cs)
    ensures |bs| !in ids && Copied(ids, bs + [b], cs) && Copied(ids[|bs| := |cs|], bs + [b], cs + [b])
  {
  }

  /** A request of the peer takes a bucket the runs share. */
  lemma MineTaken(ids: map<nat, nat>, table: Entries, table': Entries, calls: Calls, calls': Calls, key: string,
      id: nat, at: int, req: nat)
    requires Foreign(ids, table, calls, key) && SameSlot(ids, table, table', key)
    requires SameHolders(ids, calls, calls', key) && id in ids && req !in calls
    ensures Foreign(ids, table[key := Entry(id, at)], calls[req := Call(key, id, at)], key)
    ensures SameSlot(ids, table[key := Entry(id, at)], table'[key := Entry(ids[id], at)], key)
    ensures SameHolders(ids, calls[req := Call(key, id, at)], calls'[req := Call(key, ids[id], at)], key)
  {
  }

  /** A request of another peer takes a bucket they do not share. */
  lemma OtherTaken(ids: map<nat, nat>, table: Entries, table': Entries, calls: Calls, calls': Calls, key: string,
      peer: string, id: nat, at: int, req: nat)
    requires Foreign(ids, table, calls, key) && SameSlot(ids, table, table', key)
    requires SameHolders(ids, calls, calls', key) && id !in ids && req !in calls && peer != key
    ensures Foreign(ids, table[peer := Entry(id, at)], calls[req := Call(peer, id, at)], key)
    ensures SameSlot(ids, table[peer := Entry(id, at)], table', key)
    ensures SameHolders(ids, calls[req := Call(peer, id, at)], calls', key)
  {
  }

  /** A bucket nobody holds can be added to those that are shared. */
  lemma IdAdded(ids: map<nat, nat>, table: Entries, table': Entries, calls: Calls, calls': Calls, key: string,
      id: nat, id': nat)
    requires Foreign(ids, table, calls, key) && SameSlot(ids, table, table', key)
    requires SameHolders(ids, calls, calls', key) && id !in ids
    requires (forall k :: k in table ==> table[k].id != id) && (forall r :: r in calls ==> calls[r].id != id)
    ensures Foreign(ids[id := id'], table, calls, key) && SameSlot(ids[id := id'], table, table', key)
    ensures SameHolders(ids[id := id'], calls, calls', key)
  {
  }

  lemma CallGone(ids: map<nat, nat>, table: Entries, calls: Calls, calls': Calls, key: string, req: nat)
    requires Foreign(ids, table, calls, key) && SameHolders(ids, calls, calls', key) && req in calls
    ensures Foreign(ids, table, calls - {req}, key)
    ensures SameHolders(ids, calls - {req}, if calls[req].key == key then calls' - {req} else calls', key)
  {
  }

  lemma LookUpKnown(cfg: P.Config, ids: map<nat, nat>, s: State, u: State, key: string, at: int, req: nat)
    requires Alike(ids, s, u, key) && key in s.table && req !in s.calls
    ensures Alike(ids, LookUp(cfg, s, at, req, key), LookUp(cfg, u, at, req, key), key)
  {
    var id := s.table[key].id;
    assert id in ids && key in u.table && u.table[key].id == ids[id];
    hide Copied, Foreign, SameSlot, SameHolders;
    MineTaken(ids, s.table, u.table, s.calls, u.calls, key, id, at, req);
  }

  lemma LookUpNew(cfg: P.Config, ids: map<nat, nat>, s: State, u: State, key: string, at: int, req: nat)
    requires Alike(ids, s, u, key) && key !in s.table && req !in s.calls
    ensures Alike(ids[|s.buckets| := |u.buckets|], LookUp(cfg, s, at, req, key), LookUp(cfg, u, at, req, key), key)
  {
    assert key !in u.table;
    hide Copied, Foreign, SameSlot, SameHolders;
    var id, id' := |s.buckets|, |u.buckets|;
    CopyAdded(ids, s.buckets, u.buckets, Fresh(cfg.limit, at));
    IdAdded(ids, s.table, u.table, s.calls, u.calls, key, id, id');
    MineTaken(ids[id := id'], s.table, u.table, s.calls, u.calls, key, id, at, req);
  }

  lemma LookUpOther(cfg: P.Config, ids: map<nat, nat>, s: State, u: State, key: string, at: int, req: nat,
      peer: string)
    requires Alike(ids, s, u, key) && peer != key && req !in s.calls
    ensures Alike(ids, LookUp(cfg, s, at, req, peer), u, key)
  {
    assert peer in s.table ==> s.table[peer].id !in ids;
    hide Copied, Foreign, SameSlot, SameHolders;
    CopyAdded(ids, s.buckets, u.buckets, Fresh(cfg.limit, at));
    var id := if peer in s.table then s.table[peer].id else |s.buckets|;
    OtherTaken(ids, s.table, u.table, s.calls, u.calls, key, peer, id, at, req);
  }

  lemma UseMine(cfg: P.Config, ids: map<nat, nat>, s: State, u: State, key: string, at: int, req: nat)
    requires Alike(ids, s, u, key) && req in Mine(s, key)
    ensures req in u.calls && UseBucket(cfg, s, at, req).0 == UseBucket(cfg, u, at, req).0
    ensures Alike(ids, UseBucket(cfg, s, at, req).1, UseBucket(cfg, u, at, req).1, key)
  {
    var i := s.calls[req].id;
    assert i in ids && u.calls[req].id == ids[i];
    assert u.buckets[ids[i]] == s.buckets[i];
    hide Copied, Foreign, SameSlot, SameHolders, Take;
    CallGone(ids, s.table, s.calls, u.calls, key, req);
    CopyUpdated(ids, s.buckets, u.buckets, i, Take(cfg.limit, s.buckets[i], at).1);
  }

  lemma TickMine(ids: map<nat, nat>, s: State, u: State, key: string, ttl: int, at: int)
    requires Alike(ids, s, u, key)
    ensures Alike(ids, Cleanup(s, ttl, at), Cleanup(u, ttl, at), key)
  {
    hide Copied;
  }

  /** A step that concerns the peer is the same step in both runs; a lookup may add a bucket. */
  lemma MineAlike(cfg: P.Config, evict: bool, ids: map<nat, nat>, s: State, u: State, key: string, e: Event)
      returns (ids': map<nat, nat>)
    requires Alike(ids, s, u, key) && Concerns(key, Mine(s, key), e)
    requires e.Lookup? ==> e.req !in s.calls
    ensures Alike(ids', Step(cfg, evict, s, e).1, Step(cfg, evict, u, e).1, key)
    ensures Step(cfg, evict, s, e).0 == Step(cfg, evict, u, e).0
  {
    ids' := ids;
    match e
    case Lookup(at, req, _) =>
      if key in s.table {
        LookUpKnown(cfg, ids, s, u, key, at, req);
      } else {
        ids' := ids[|s.buckets| := |u.buckets|];
        LookUpNew(cfg, ids, s, u, key, at, req);
      }
    case Use(at, req) => UseMine(cfg, ids, s, u, key, at, req);
    case Tick(at) => TickMine(ids, s, u, key, cfg.ttl, at);
  }

  lemma UseOther(cfg: P.Config, ids: map<nat, nat>, s: State, u: State, key: string, at: int, req: nat)
    requires Alike(ids, s, u, key) && req in s.calls && s.calls[req].key != key
    ensures Alike(ids, UseBucket(cfg, s, at, req).1, u, key)
  {
    var i := s.calls[req].id;
    assert i !in ids;
    hide Copied, Foreign, SameSlot, SameHolders, Take;
    CallGone(ids, s.table, s.calls, u.calls, key, req);
    CopyKept(ids, s.buckets, u.buckets, i, Take(cfg.limit, s.buckets[i], at).1);
  }

  /** Any other step leaves all of the peer's alone. */
  lemma OthersAlike(cfg: P.Config, evict: bool, ids: map<nat, nat>, s: State, u: State, key: string, e: Event)
    requires Alike(ids, s, u, key) && !Concerns(key, Mine(s, key), e)
    requires e.Lookup? ==> e.req !in s.calls
    ensures Alike(ids, Step(cfg, evict, s, e).1, u, key)
  {
    match e
    case Lookup(at, req, peer) => LookUpOther(cfg, ids, s, u, key, at, req, peer);
    case Use(at, req) => if req in s.calls { UseOther(cfg, ids, s, u, key, at, req); }
  }

  lemma MineStep(cfg: P.Config, evict: bool, s: State, key: string, e: Event)
    requires e.Lookup? ==> e.req !in s.calls
    ensures Mine(Step(cfg, evict, s, e).1, key) == MineAfter(key, Mine(s, key), e)
  {
  }

  lemma FirstLegal(delay: int, s: State, now: int, es: seq<Event>)
    requires es != [] && Legal(delay, Held(s), now, es)
    ensures es[0].Lookup? ==> es[0].req !in s.calls
    ensures Legal(delay, HeldAfter(Held(s), es[0]), es[0].at, es[1..])
  {
  }

  lemma RunPrepend(cfg: P.Config, evict: bool, u: State, e: Event, es: seq<Event>)
    ensures var (a, u') := Step(cfg, evict, u, e);
            Run(cfg, evict, u, [e] + es).0 == [a] + Run(cfg, evict, u', es).0
  {
    assert ([e] + es)[1..] == es;
  }

  /** The answers agree if those after the first event do, and that one's where it concerns the peer. */
  lemma AnswersAgree(cfg: P.Config, evict: bool, s: State, u: State, key: string, mine: set<nat>, es: seq<Event>)
    requires es != []
    requires var (a, s') := Step(cfg, evict, s, es[0]);
             var (b, u') := if Concerns(key, mine, es[0]) then Step(cfg, evict, u, es[0]) else (a, u);
             var mine' := MineAfter(key, mine, es[0]);
             a == b && AnswersTo(key, mine', es[1..], Run(cfg, evict, s', es[1..]).0)
                    == Run(cfg, evict, u', Concerning(key, mine', es[1..])).0
    ensures AnswersTo(key, mine, es, Run(cfg, evict, s, es).0) == Run(cfg, evict, u, Concerning(key, mine, es)).0
  {
    hide Step, Concerns, MineAfter;
    var s' := Step(cfg, evict, s, es[0]).1;
    assert Run(cfg, evict, s, es).0[1..] == Run(cfg, evict, s', es[1..]).0;
    if Concerns(key, mine, es[0]) {
      RunPrepend(cfg, evict, u, es[0], Concerning(key, MineAfter(key, mine, es[0]), es[1..]));
    }
  }

  lemma NoAnswers(cfg: P.Config, evict: bool, s: State, u: State, key: string, mine: set<nat>)
    ensures AnswersTo(key, mine, [], Run(cfg, evict, s, []).0) == Run(cfg, evict, u, Concerning(key, mine, [])).0
  {
  }

  lemma {:induction false} IsolatedFrom(cfg: P.Config, delay: int, evict: bool, ids: map<nat, nat>, s: State, u: State,
      key: string, now: int, es: seq<Event>)
    requires Alike(ids, s, u, key) && Legal(delay, Held(s), now, es)
    ensures AnswersTo(key, Mine(s, key), es, Run(cfg, evict, s, es).0)
         == Run(cfg, evict, u, Concerning(key, Mine(s, key), es)).0
    decreases |es|
  {
    hide Step, Alike, Held, HeldAfter, Mine, MineAfter, Concerns, Legal, AnswersTo, Concerning, Run;
    if es == [] {
      NoAnswers(cfg, evict, s, u, key, Mine(s, key));
    } else {
      var e := es[0];
      var s' := Step(cfg, evict, s, e).1;
      FirstLegal(delay, s, now, es);
      HeldStep(cfg, evict, s, e);
      MineStep(cfg, evict, s, key, e);
      if Concerns(key, Mine(s, key), e) {
        var ids' := MineAlike(cfg, evict, ids, s, u, key, e);
        IsolatedFrom(cfg, delay, evict, ids', s', Step(cfg, evict, u, e).1, key, e.at, es[1..]);
      } else {
        OthersAlike(cfg, evict, ids, s, u, key, e);
        IsolatedFrom(cfg, delay, evict, ids, s', u, key, e.at, es[1..]);
      }
      AnswersAgree(cfg, evict, s, u, key, Mine(s, key), es);
    }
  }

  /** A peer's uses get the answers they would get if no other peer existed, in every legal interleaving. */
  lemma Isolated(cfg: P.Config, delay: int, evict: bool, key: string, now: int, es: seq<Event>)
    requires Legal(delay, map[], now, es)
    ensures AnswersTo(key, {}, es, Run(cfg, evict, EMPTY, es).0) == Run(cfg, evict, EMPTY, Concerning(key, {}, es)).0
  {
    assert Held(EMPTY) == map[] && Mine(EMPTY, key) == {};
    IsolatedFrom(cfg, delay, evict, map[], EMPTY, EMPTY, key, now, es);
  }

  // ----- Reclamation -----

  /** Only lookups and ticks decide which slots there are; these are their events in the atomic limiter. */
  function Touches(es: seq<Event>): seq<P.Event>
    decreases |es|
  {
    if es == [] then []
    else
      match es[0]
      case Lookup(at, _, key) => [P.Request(at, key)] + Touches(es[1..])
      case Use(_, _) => Touches(es[1..])
      case Tick(at) => [P.Tick(at)] + Touches(es[1..])
  }

  /** The same peers have slots, seen at the same times. */
  ghost predicate SameSeen(s: State, t: P.Table) {
    && (forall k :: k in s.table <==> k in t)
    && (forall k :: k in s.table ==> s.table[k].lastSeen == t[k].lastSeen)
  }

  lemma {:induction false} SeenAlike(cfg: P.Config, evict: bool, s: State, t: P.Table, es: seq<Event>)
    requires cfg.limit.rps > 0.0 && SameSeen(s, t)
    ensures SameSeen(Run(cfg, evict, s, es).1, P.Run(cfg, evict, t, Touches(es)).1)
    decreases |es|
  {
    if es != [] {
      var s' := Step(cfg, evict, s, es[0]).1;
      match es[0] {
        case Use(_, _) =>
          SeenAlike(cfg, evict, s', t, es[1..]);
        case Lookup(at, _, key) =>
          var e := P.Request(at, key);
          assert ([e] + Touches(es[1..]))[1..] == Touches(es[1..]);
          SeenAlike(cfg, evict, s', P.Step(cfg, evict, t, e).1, es[1..]);
        case Tick(at) =>
          var e := P.Tick(at);
          assert ([e] + Touches(es[1..]))[1..] == Touches(es[1..]);
          SeenAlike(cfg, evict, s', P.Step(cfg, evict, t, e).1, es[1..]);
      }
    }
  }

  lemma {:induction false} TouchesTimed(delay: int, held: map<nat, int>, now: int, start: int, es: seq<Event>)
    requires Legal(delay, held, now, es) && start <= now
    ensures P.Timed(start, Touches(es))
    decreases |es|
  {
    if es != [] {
      var held' := HeldAfter(held, es[0]);
      match es[0] {
        case Use(at, _) =>
          TouchesTimed(delay, held', at, start, es[1..]);
        case _ =>
          TouchesTimed(delay, held', es[0].at, es[0].at, es[1..]);
          var rest := Touches(es[1..]);
          assert Touches(es)[1..] == rest;
      }
    }
  }

  /**
   * After any legal interleaving a peer has a slot exactly if its last lookup was no older than the TTL at the last
   * tick, and the slot carries the time of that lookup, whoever still holds a bucket.
   */
  lemma TableExact(cfg: P.Config, delay: int, now: int, es: seq<Event>, key: string)
    requires Legal(delay, map[], now, es) && cfg.limit.rps > 0.0 && cfg.ttl > 0
    ensures var s := Run(cfg, true, EMPTY, es).1;
            && (key in s.table <==> G.Survives(cfg, key, Touches(es)))
            && (key in s.table ==> Some(s.table[key].lastSeen) == G.LastRequest(key, Touches(es)))
  {
    SeenAlike(cfg, true, EMPTY, map[], es);
    TouchesTimed(delay, map[], now, now, es);
    G.TableExact(cfg, now, Touches(es), key);
  }

  /**
   * With punctual ticks a slot still present was looked up within `ttl + ttl/2`, and a peer that looked up within
   * `ttl` still has its slot.
   */
  lemma Reclaimed(cfg: P.Config, created: int, es: seq<Event>, now: int, key: string)
    requires cfg.limit.rps > 0.0 && cfg.ttl >= 2 && G.Punctual(cfg, created, created, Touches(es))
    requires P.EndTime(created, Touches(es)) <= now <= G.Ticked(created, Touches(es)) + cfg.ttl / 2
    ensures var s := Run(cfg, true, EMPTY, es).1;
            var seen := G.LastRequest(key, Touches(es));
            && (key in s.table ==>
                Some(s.table[key].lastSeen) == seen && s.table[key].lastSeen >= now - (cfg.ttl + cfg.ttl / 2))
            && (seen.Some? && seen.value >= now - cfg.ttl ==> key in s.table)
  {
    SeenAlike(cfg, true, EMPTY, map[], es);
    G.Reclaimed(cfg, created, Touches(es), now, key);
  }
}
