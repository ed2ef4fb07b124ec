/**
 * The memory rate limiter as the objects it is built from, each method proved against the table operations of
 * PeerTable.  `now` stands for the clock reading a method makes.
 */
module MemoryRateLimiter {
  import W = Wrappers
  import opened TokenBucket
  import P = PeerTable

  /** One peer's token bucket, updated in place. */
  class Limiter {
    const limit: Limit
    var tokens: real
    var last: int

    constructor (limit: Limit, now: int)
      ensures this.limit == limit && Value() == Fresh(limit, now)
    {
      this.limit := limit;
      tokens, last := limit.burst as real, now;
    }

    function Value(): Bucket
      reads this
    {
      Bucket(tokens, last)
    }

    method Allow(now: int) returns (ok: bool)
      modifies this
      ensures (ok, Value()) == Take(limit, old(Value()), now)
    {
      var elapsed := if now < last then 0 else now - last;
      var available := tokens + Refill(limit.rps, elapsed);
      if available > limit.burst as real {
        available := limit.burst as real;
      }
      ok := available >= 1.0;
      if ok {
        tokens, last := available - 1.0, now;
      }
    }
  }

  class Entry {
    const limiter: Limiter
    var lastSeen: int

    constructor (limiter: Limiter, lastSeen: int)
      ensures this.limiter == limiter && this.lastSeen == lastSeen
    {
      this.limiter, this.lastSeen := limiter, lastSeen;
    }
  }

  /** The peers' entries; the map is replaced on insertion and deletion, the entries are shared and updated in place. */
  class PeerLimiters {
    const limit: Limit
    var limiters: map<string, Entry>

    ghost function Entries(): set<Entry>
      reads this
    {
      set k | k in limiters :: limiters[k]
    }

    ghost function Buckets(): set<Limiter>
      reads this
    {
      set k | k in limiters :: limiters[k].limiter
    }

    /** Peers share neither entry nor bucket, and every bucket has this limiter's parameters. */
    ghost predicate Valid()
      reads this
    {
      && (forall k :: k in limiters ==> limiters[k].limiter.limit == limit)
      && (forall j, k :: j in limiters && k in limiters && j != k ==>
            limiters[j].limiter != limiters[k].limiter)
    }

    ghost function Table(): P.Table
      reads this, Entries(), Buckets()
    {
      map k | k in limiters :: P.Slot(limiters[k].limiter.Value(), limiters[k].lastSeen)
    }

    constructor (limit: Limit)
      ensures Valid() && this.limit == limit && limiters == map[] && Table() == map[]
    {
      this.limit := limit;
      limiters := map[];
    }

    method GetLimiter(cfg: P.Config, key: string, now: int) returns (l: Limiter)
      requires Valid() && cfg.limit == limit
      modifies this, Entries()
      ensures Valid() && key in limiters && limiters[key].limiter == l && limiters[key].lastSeen == now
      ensures key in old(limiters) ==> limiters == old(limiters)
      ensures key !in old(limiters) ==>
          fresh(limiters[key]) && fresh(l) && limiters == old(limiters)[key := limiters[key]]
      ensures Table() == P.Touch(cfg, old(Table()), key, now)
    {
      if key in limiters {
        var known := limiters[key];
        known.lastSeen := now;
        l := known.limiter;
        assert forall k :: k in limiters && k != key ==> limiters[k] != known;
        return;
      }
      l := new Limiter(limit, now);
      var entry := new Entry(l, now);
      limiters := limiters[key := entry];
    }

    /** Using one peer's bucket changes that peer's slot only. */
    twostate lemma OneBucketUsed(key: string)
      requires old(Valid()) && key in old(limiters) && unchanged(this) && unchanged(Entries())
      requires unchanged(Buckets() - {limiters[key].limiter})
      ensures Table() == old(Table())[key := P.Slot(limiters[key].limiter.Value(), limiters[key].lastSeen)]
    {
    }

    method Cleanup(ttl: int, now: int)
      requires Valid()
      modifies this
      ensures Valid() && Entries() <= old(Entries()) && Buckets() <= old(Buckets())
      ensures Table() == P.Sweep(old(Table()), ttl, now)
    {
      var cutoff := now - ttl;
      var keys := limiters.Keys;
      while keys != {}
        invariant forall k :: k in keys ==> k in limiters
        invariant forall k :: k in limiters ==> k in old(limiters) && limiters[k] == old(limiters)[k]
        invariant forall k :: k in limiters && k !in keys ==> limiters[k].lastSeen >= cutoff
        invariant forall k :: k in old(limiters) && k !in limiters ==> old(limiters)[k].lastSeen < cutoff
        decreases keys
      {
        var key :| key in keys;
        keys := keys - {key};
        if limiters[key].lastSeen < cutoff {
          limiters := limiters - {key};
        }
      }
    }
  }

  /**
   * What happens, in the order of the table lock, once the cleanup goroutine runs: some caller's request, or what the
   * goroutine's select receives.
   */
  datatype Signal = Requested(at: int, key: string) | Ticked(at: int) | Stopped

  /** The events up to the one that ends the goroutine. */
  function EventsBeforeStop(signals: seq<Signal>): seq<P.Event> {
    if signals == [] then []
    else
      match signals[0]
      case Requested(at, key) => [P.Request(at, key)] + EventsBeforeStop(signals[1..])
      case Ticked(at) => [P.Tick(at)] + EventsBeforeStop(signals[1..])
      case Stopped => []
  }

  /** What happens after that. */
  function AfterStop(signals: seq<Signal>): seq<Signal> {
    if signals == [] then [] else if signals[0].Stopped? then signals[1..] else AfterStop(signals[1..])
  }

  /** The requests alone: without the goroutine nothing receives a tick. */
  function Requests(signals: seq<Signal>): seq<P.Event> {
    if signals == [] then []
    else if signals[0].Requested? then [P.Request(signals[0].at, signals[0].key)] + Requests(signals[1..])
    else Requests(signals[1..])
  }

  /** Signal by signal: up to the first stop each one that is not the stop is an event, and what follows it is left. */
  lemma {:induction false} EventsAre(a: seq<Signal>, b: seq<Signal>)
    requires Stopped !in a
    ensures var es := EventsBeforeStop(a + [Stopped] + b);
            && |es| == |a| && EventsBeforeStop(a) == es
            && forall i :: 0 <= i < |a| ==>
                 es[i] == if a[i].Requested? then P.Request(a[i].at, a[i].key) else P.Tick(a[i].at)
    ensures AfterStop(a + [Stopped] + b) == b && AfterStop(a) == []
  {
    var all := a + [Stopped] + b;
    if a == [] {
      assert all[1..] == b;
    } else {
      assert all[1..] == a[1..] + [Stopped] + b;
      EventsAre(a[1..], b);
    }
  }

  /** A request is one event more, anything else none. */
  lemma {:induction false} RequestsAre(signals: seq<Signal>, s: Signal)
    ensures Requests([]) == []
    ensures Requests(signals + [s]) == Requests(signals) + if s.Requested? then [P.Request(s.at, s.key)] else []
  {
    if signals != [] {
      assert (signals + [s])[1..] == signals[1..] + [s];
      RequestsAre(signals[1..], s);
    } else {
      assert (signals + [s])[1..] == [];
    }
  }

  lemma {:induction false} OnlyRequests(signals: seq<Signal>)
    ensures forall i :: 0 <= i < |Requests(signals)| ==> Requests(signals)[i].Request?
  {
    if signals != [] {
      OnlyRequests(signals[1..]);
    }
  }

  lemma NextAnswer(cfg: P.Config, t: P.Table, e: P.Event, rest: seq<P.Event>, answers: seq<W.Option<bool>>)
    ensures var (a, t') := P.Step(cfg, true, t, e);
            var (more, end) := P.Run(cfg, true, t', rest);
            var (all, end') := P.Run(cfg, true, t, [e] + rest);
            answers + all == answers + [a] + more && end == end'
  {
    assert ([e] + rest)[1..] == rest;
  }

  /** Ten minutes. */
  const DEFAULT_TTL := 600_000_000_000

  class MemoryRateLimiter {
    const cfg: P.Config
    const limiters: PeerLimiters
    /** The cleanup goroutine was started. */
    const cleaning: bool

    ghost predicate Valid()
      reads this, limiters
    {
      limiters.limit == cfg.limit && limiters.Valid()
    }

    ghost function Table(): P.Table
      reads limiters, limiters.Entries(), limiters.Buckets()
    {
      limiters.Table()
    }

    constructor (rps: real, burst: int, ttl: int)
      ensures Valid() && Table() == map[] && fresh(limiters) && limiters.limiters == map[]
      ensures cfg.limit == Limit(rps, burst)
      ensures cfg.ttl > 0 && (ttl > 0 ==> cfg.ttl == ttl) && (ttl <= 0 ==> cfg.ttl == 600_000_000_000)
      // Only a limiter that fills its table needs, and gets, a cleanup goroutine.
      ensures cleaning <==> rps > 0.0
    {
      var kept := ttl;
      if ttl <= 0 {
        kept := DEFAULT_TTL;
      }
      cfg := P.Config(Limit(rps, burst), kept);
      limiters := new PeerLimiters(Limit(rps, burst));
      cleaning := rps > 0.0;
    }

    method Allow(key: string, now: int) returns (ok: bool)
      requires Valid()
      modifies limiters, limiters.Entries(), limiters.Buckets()
      ensures Valid()
      ensures forall k :: k in limiters.limiters ==>
                (k in old(limiters.limiters) && limiters.limiters[k] == old(limiters.limiters)[k])
                || (fresh(limiters.limiters[k]) && fresh(limiters.limiters[k].limiter))
      ensures (ok, Table()) == P.Allow(cfg, old(Table()), key, now)
      ensures cfg.limit.rps <= 0.0 ==> ok && Table() == old(Table())
    {
      hide P.Touch, Take;
      if cfg.limit.rps <= 0.0 {
        return true;
      }
      var l := limiters.GetLimiter(cfg, key, now);
      hide PeerLimiters.Table;
      label Looked:
      ok := l.Allow(now);
      limiters.OneBucketUsed@Looked(key);
    }

    /**
     * The cleanup goroutine, sweeping on every tick until its select receives the stop, while callers' requests are
     * answered in between: together they are a run of the table.
     */
    method RunCleanupLoop(signals: seq<Signal>) returns (answers: seq<W.Option<bool>>, ended: bool)
      requires Valid() && cleaning
      modifies limiters, limiters.Entries(), limiters.Buckets()
      ensures Valid() && (ended <==> Stopped in signals)
      ensures forall e :: e in limiters.Entries() ==> e in old(limiters.Entries()) || fresh(e)
      ensures forall b :: b in limiters.Buckets() ==> b in old(limiters.Buckets()) || fresh(b)
      ensures (answers, Table()) == P.Run(cfg, true, old(Table()), EventsBeforeStop(signals))
    {
      hide P.Allow, P.Sweep, PeerLimiters.Table;
      var i := 0;
      answers, ended := [], false;
      assert signals[0..] == signals;
      ghost var (whole, end) := P.Run(cfg, true, Table(), EventsBeforeStop(signals));
      while i < |signals|
        invariant 0 <= i <= |signals| && Valid() && !ended && Stopped !in signals[..i]
        invariant forall e :: e in limiters.Entries() ==> e in old(limiters.Entries()) || fresh(e)
        invariant forall b :: b in limiters.Buckets() ==> b in old(limiters.Buckets()) || fresh(b)
        invariant var (more, end') := P.Run(cfg, true, Table(), EventsBeforeStop(signals[i..]));
                  answers + more == whole && end' == end
        decreases |signals| - i
      {
        ghost var rest := EventsBeforeStop(signals[i + 1..]);
        assert signals[i..][1..] == signals[i + 1..];
        match signals[i] {
          case Stopped =>
            assert EventsBeforeStop(signals[i..]) == [] && answers == whole;
            return answers, true;
          case Ticked(at) =>
            NextAnswer(cfg, Table(), P.Tick(at), rest, answers);
            limiters.Cleanup(cfg.ttl, at);
            answers := answers + [W.None];
          case Requested(at, key) =>
            NextAnswer(cfg, Table(), P.Request(at, key), rest, answers);
            var ok := Allow(key, at);
            answers := answers + [W.Some(ok)];
        }
        i := i + 1;
      }
      assert signals[..i] == signals && signals[i..] == [];
      assert answers == whole;
    }

    /** Callers' requests once there is no cleanup goroutine. */
    method Serve(signals: seq<Signal>) returns (answers: seq<W.Option<bool>>)
      requires Valid()
      modifies limiters, limiters.Entries(), limiters.Buckets()
      ensures Valid()
      ensures (answers, Table()) == P.Run(cfg, true, old(Table()), Requests(signals))
    {
      hide P.Allow, PeerLimiters.Table;
      var i := 0;
      answers := [];
      assert signals[0..] == signals;
      ghost var (whole, end) := P.Run(cfg, true, Table(), Requests(signals));
      while i < |signals|
        invariant 0 <= i <= |signals| && Valid()
        invariant forall e :: e in limiters.Entries() ==> e in old(limiters.Entries()) || fresh(e)
        invariant forall b :: b in limiters.Buckets() ==> b in old(limiters.Buckets()) || fresh(b)
        invariant var (more, end') := P.Run(cfg, true, Table(), Requests(signals[i..]));
                  answers + more == whole && end' == end
      {
        assert signals[i..][1..] == signals[i + 1..];
        if signals[i].Requested? {
          ghost var t, e := Table(), P.Request(signals[i].at, signals[i].key);
          NextAnswer(cfg, t, e, Requests(signals[i + 1..]), answers);
          var ok := Allow(signals[i].key, signals[i].at);
          assert P.Step(cfg, true, t, e) == (W.Some(ok), Table());
          hide P.Step;
          answers := answers + [W.Some(ok)];
        }
        i := i + 1;
      }
      assert signals[i..] == [];
      assert answers == whole;
    }
  }

  /**
   * A limiter from its creation on: with a cleanup goroutine until that is stopped, without one afterwards or if the
   * rate is not positive, its answers and its table are those of a run from the empty table.
   */
  method Drive(rps: real, burst: int, ttl: int, signals: seq<Signal>)
    returns (m: MemoryRateLimiter, answers: seq<W.Option<bool>>)
    ensures m.Valid() && m.cfg.limit == Limit(rps, burst) && m.cfg.ttl > 0
    ensures var es := if rps > 0.0 then EventsBeforeStop(signals) + Requests(AfterStop(signals)) else Requests(signals);
            (answers, m.Table()) == P.Run(m.cfg, true, map[], es)
    // Without limiting, that is one admission for each request.
    ensures rps <= 0.0 ==> m.Table() == map[] && |answers| == |Requests(signals)|
    ensures rps <= 0.0 ==> forall i :: 0 <= i < |answers| ==> answers[i] == W.Some(true)
  {
    m := new MemoryRateLimiter(rps, burst, ttl);
    if !m.cleaning {
      answers := m.Serve(signals);
      OnlyRequests(signals);
      P.DisabledAdmitsAll(m.cfg, true, Requests(signals));
      return;
    }
    var first, _ := m.RunCleanupLoop(signals);
    var second := m.Serve(AfterStop(signals));
    P.RunAppend(m.cfg, true, map[], EventsBeforeStop(signals), Requests(AfterStop(signals)));
    answers := first + second;
  }
}
