/**
 * The shared interceptor configuration as far as it owns a rate limiter: options replace the limiter and stop the
 * one they replace, so that its cleanup goroutine ends.
 */
module LimiterConfig {

  /** A memory limiter has a `Stop` and, for a positive rate, a cleanup goroutine; another limiter may have a `Stop`. */
  datatype Kind = Memory(rps: real, burst: int, ttl: int) | Stoppable | Plain

  class RateLimiter {
    const kind: Kind
    var stopped: bool
    var closes: nat

    constructor (kind: Kind)
      ensures this.kind == kind && !stopped && closes == 0
    {
      this.kind, stopped, closes := kind, false, 0;
    }

    /** The stop channel of a memory limiter is closed at most once, when it is first stopped. */
    predicate Sane()
      reads this
    {
      closes == if kind.Memory? && stopped then 1 else 0
    }

    predicate LoopAlive()
      reads this
    {
      kind.Memory? && kind.rps > 0.0 && !stopped
    }

    method Stop()
      requires !kind.Plain? && Sane()
      modifies this
      ensures stopped && Sane()
    {
      if kind.Memory? && !stopped {
        closes := closes + 1;
      }
      stopped := true;
    }
  }

  /** The options that write the limiter, and the others, which do not. */
  datatype Option = WithRateLimiter(l: RateLimiter?) | WithRateLimit(rps: real, burst: int) | OtherOption

  const TEN_MINUTES := 600_000_000_000

  method StopPreviousLimiter(l: RateLimiter?)
    requires l != null ==> l.Sane()
    modifies l
    ensures l != null ==> l.Sane() && (l.stopped <==> old(l.stopped) || !l.kind.Plain?)
  {
    if l != null && !l.kind.Plain? {
      l.Stop();
    }
  }

  /** The limiters the caller passes to `Configure`. */
  ghost function Given(opts: seq<Option>): set<RateLimiter> {
    set i | 0 <= i < |opts| && opts[i].WithRateLimiter? && opts[i].l != null :: opts[i].l
  }

  /** The option wrote this value; `WithRateLimit` makes a new memory limiter. */
  predicate Wrote(o: Option, l: RateLimiter?) {
    match o
    case WithRateLimiter(given) => l == given
    case WithRateLimit(rps, burst) => l != null && l.kind == Memory(rps, burst, TEN_MINUTES)
    case OtherOption => false
  }

  /** The values written by `opts`, in order. */
  predicate WroteAll(opts: seq<Option>, ls: seq<RateLimiter?>) {
    if opts == [] then ls == []
    else if opts[|opts| - 1].OtherOption? then WroteAll(opts[..|opts| - 1], ls)
    else ls != [] && Wrote(opts[|opts| - 1], ls[|ls| - 1]) && WroteAll(opts[..|opts| - 1], ls[..|ls| - 1])
  }

  lemma WroteNext(opts: seq<Option>, i: nat, before: seq<RateLimiter?>, after: seq<RateLimiter?>)
    requires i < |opts| && WroteAll(opts[..i], before)
    requires if opts[i].OtherOption? then after == before
             else after != [] && after == before + [after[|after| - 1]] && Wrote(opts[i], after[|after| - 1])
    ensures WroteAll(opts[..i + 1], after)
  {
    assert opts[..i + 1][..i] == opts[..i];
  }

  lemma WroteAppend(a: seq<Option>, b: seq<Option>, x: seq<RateLimiter?>, y: seq<RateLimiter?>)
    requires WroteAll(a, x) && WroteAll(b, y)
    ensures WroteAll(a + b, x + y)
  {
    if b == [] {
      assert a + b == a && x + y == x;
    } else {
      var n := |b| - 1;
      assert (a + b)[..|a| + n] == a + b[..n];
      if b[n].OtherOption? {
        WroteAppend(a, b[..n], x, y);
      } else {
        WroteAppend(a, b[..n], x, y[..|y| - 1]);
        assert (x + y)[..|x + y| - 1] == x + y[..|y| - 1];
      }
    }
  }

  /** Some option writes the limiter. */
  ghost predicate Writes(opts: seq<Option>) {
    exists k :: 0 <= k < |opts| && !opts[k].OtherOption?
  }

  ghost predicate GivenAt(opts: seq<Option>, l: RateLimiter, i: int) {
    0 <= i < |opts| && opts[i] == WithRateLimiter(l)
  }

  /** `opts` leave `l` in place: it was current and nothing wrote, or it was given and nothing wrote after that. */
  ghost predicate LeavesCurrent(opts: seq<Option>, current: RateLimiter?, l: RateLimiter) {
    || (l == current && !Writes(opts))
    || exists i :: GivenAt(opts, l, i) && !Writes(opts[i + 1..])
  }

  /** `opts` write over `l`: it was current and something wrote, or it was given and something wrote after that. */
  ghost predicate Overwrites(opts: seq<Option>, current: RateLimiter?, l: RateLimiter) {
    || (l == current && Writes(opts))
    || exists i :: GivenAt(opts, l, i) && Writes(opts[i + 1..])
  }

  lemma WritesFrom(opts: seq<Option>, i: nat)
    requires i <= |opts|
    ensures Writes(opts[i..]) <==> exists k :: i <= k < |opts| && !opts[k].OtherOption?
  {
    if k :| i <= k < |opts| && !opts[k].OtherOption? {
      assert opts[i..][k - i] == opts[k];
    }
  }

  /** Both, in the order of the list: `l` was there before the option at `k`, which writes. */
  lemma OverwritesIff(opts: seq<Option>, current: RateLimiter?, l: RateLimiter)
    ensures Overwrites(opts, current, l) <==>
        exists k :: 0 <= k < |opts| && !opts[k].OtherOption? &&
          (l == current || exists i :: 0 <= i < k && opts[i] == WithRateLimiter(l))
  {
    forall i, k | 0 <= i < k < |opts| && opts[i] == WithRateLimiter(l) && !opts[k].OtherOption?
      ensures Overwrites(opts, current, l)
    {
      assert GivenAt(opts, l, i) && !opts[i + 1..][k - i - 1].OtherOption?;
    }
    forall i | GivenAt(opts, l, i) && Writes(opts[i + 1..])
      ensures exists k :: i < k < |opts| && !opts[k].OtherOption?
    {
      var k :| 0 <= k < |opts[i + 1..]| && !opts[i + 1..][k].OtherOption?;
      assert !opts[i + 1 + k].OtherOption?;
    }
  }

  lemma LeavesCurrentIff(opts: seq<Option>, current: RateLimiter?, l: RateLimiter)
    ensures LeavesCurrent(opts, current, l) <==>
        || (l == current && forall k :: 0 <= k < |opts| ==> opts[k].OtherOption?)
        || exists i :: 0 <= i < |opts| && opts[i] == WithRateLimiter(l) &&
             forall k :: i < k < |opts| ==> opts[k].OtherOption?
  {
    forall i | GivenAt(opts, l, i)
      ensures Writes(opts[i + 1..]) <==> exists k :: i < k < |opts| && !opts[k].OtherOption?
    {
      WritesFrom(opts, i + 1);
    }
    forall i | 0 <= i < |opts| && opts[i] == WithRateLimiter(l) ensures GivenAt(opts, l, i) {
    }
  }

  lemma WritesAppend(a: seq<Option>, b: seq<Option>)
    ensures Writes(a + b) <==> Writes(a) || Writes(b)
  {
    if k :| 0 <= k < |a| && !a[k].OtherOption? {
      assert !(a + b)[k].OtherOption?;
    }
    if k :| 0 <= k < |b| && !b[k].OtherOption? {
      assert !(a + b)[|a| + k].OtherOption?;
    }
  }

  /** Whether a later write follows position `i`, in a list cut in two. */
  lemma WritesAfter(a: seq<Option>, b: seq<Option>, i: nat)
    requires i < |a| + |b|
    ensures Writes((a + b)[i + 1..]) <==>
        if i < |a| then Writes(a[i + 1..]) || Writes(b) else Writes(b[i - |a| + 1..])
  {
    if i < |a| {
      assert (a + b)[i + 1..] == a[i + 1..] + b;
      WritesAppend(a[i + 1..], b);
    } else {
      assert (a + b)[i + 1..] == b[i - |a| + 1..];
    }
  }

  /** Applying one list after another is applying both as one, whatever was current in between. */
  lemma OneAfterAnother(a: seq<Option>, b: seq<Option>, current: RateLimiter?, between: RateLimiter?, l: RateLimiter)
    requires l == between <==> LeavesCurrent(a, current, l)
    ensures LeavesCurrent(a + b, current, l) <==> LeavesCurrent(b, between, l)
    ensures Overwrites(a + b, current, l) <==> Overwrites(a, current, l) || Overwrites(b, between, l)
  {
    hide Writes;
    WritesAppend(a, b);
    forall i | GivenAt(a, l, i)
      ensures GivenAt(a + b, l, i) && (Writes((a + b)[i + 1..]) <==> Writes(a[i + 1..]) || Writes(b))
    {
      WritesAfter(a, b, i);
    }
    forall i | GivenAt(b, l, i)
      ensures GivenAt(a + b, l, |a| + i) && (Writes((a + b)[|a| + i + 1..]) <==> Writes(b[i + 1..]))
    {
      WritesAfter(a, b, |a| + i);
    }
    forall i | GivenAt(a + b, l, i) ensures if i < |a| then GivenAt(a, l, i) else GivenAt(b, l, i - |a|) {
    }
  }

  lemma NotGiven(opts: seq<Option>, current: RateLimiter?, l: RateLimiter)
    requires l !in Given(opts) && l != current
    ensures !LeavesCurrent(opts, current, l) && !Overwrites(opts, current, l)
  {
  }

  lemma OneMore(opts: seq<Option>, n: nat, current: RateLimiter?, between: RateLimiter?, l: RateLimiter)
    requires n < |opts| && (l == between <==> LeavesCurrent(opts[..n], current, l))
    ensures LeavesCurrent(opts[..n + 1], current, l) <==>
        if opts[n].OtherOption? then l == between else opts[n] == WithRateLimiter(l)
    ensures Overwrites(opts[..n + 1], current, l) <==>
        Overwrites(opts[..n], current, l) || (l == between && !opts[n].OtherOption?)
  {
    var o := [opts[n]];
    assert opts[..n + 1] == opts[..n] + o;
    OneAfterAnother(opts[..n], o, current, between, l);
    assert Writes(o) <==> !opts[n].OtherOption? by { assert o[0] == opts[n]; }
    assert !Writes(o[1..]);
    assert GivenAt(o, l, 0) <==> opts[n] == WithRateLimiter(l);
  }

  class Config {
    var rateLimiter: RateLimiter?
    /** Every value options wrote to the field, the current one last. */
    ghost var history: seq<RateLimiter?>

    /** The limiters ever installed. */
    ghost function Installed(): set<RateLimiter>
      reads this
    {
      set i | 0 <= i < |history| && history[i] != null :: history[i]
    }

    ghost predicate Valid()
      reads this, Installed()
    {
      && rateLimiter == (if history == [] then null else history[|history| - 1])
      && (forall l :: l in Installed() ==> l.Sane())
      && (forall i :: 0 <= i < |history| - 1 && history[i] != null && !history[i].kind.Plain? ==> history[i].stopped)
    }

    constructor ()
      ensures Valid() && history == []
    {
      rateLimiter, history := null, [];
    }

    method Apply(o: Option)
      requires Valid() && (o.WithRateLimiter? && o.l != null ==> o.l.Sane())
      modifies this, rateLimiter
      ensures Valid()
      ensures if o.OtherOption? then history == old(history) && rateLimiter == old(rateLimiter)
              else history == old(history) + [rateLimiter] && Wrote(o, rateLimiter)
      ensures o.WithRateLimit? ==>
                fresh(rateLimiter) && !rateLimiter.stopped &&
                rateLimiter.kind == Memory(o.rps, o.burst, 600_000_000_000)
      ensures forall l :: l in Installed() ==> l in old(Installed()) || l == rateLimiter
      ensures old(rateLimiter) != null ==>
                old(rateLimiter).Sane() &&
                (old(rateLimiter).stopped <==>
                    old(rateLimiter.stopped) || (!o.OtherOption? && !old(rateLimiter).kind.Plain?))
    {
      match o
      case OtherOption =>
      case WithRateLimiter(l) =>
        StopPreviousLimiter(rateLimiter);
        rateLimiter := l;
        history := history + [l];
      case WithRateLimit(rps, burst) =>
        StopPreviousLimiter(rateLimiter);
        var l := new RateLimiter(Memory(rps, burst, TEN_MINUTES));
        rateLimiter := l;
        history := history + [l];
    }

    /** Of the limiters in `was`, exactly those are stopped that were or were written over, and one may be current. */
    ghost predicate Accounted(opts: seq<Option>, first: RateLimiter?, was: map<RateLimiter, bool>)
      reads this, was.Keys
    {
      forall l :: l in was ==>
        && l.Sane()
        && (l.stopped <==> was[l] || (!l.kind.Plain? && Overwrites(opts, first, l)))
        && (l == rateLimiter <==> LeavesCurrent(opts, first, l))
    }

    lemma NothingApplied(was: map<RateLimiter, bool>)
      requires forall l :: l in was ==> l.Sane() && l.stopped == was[l]
      ensures Accounted([], rateLimiter, was)
    {
    }

    /** The next option of a list, with what is known of the ones before carried on. */
    method ApplyNext(opts: seq<Option>, i: nat, ghost written: seq<RateLimiter?>, ghost first: RateLimiter?,
        ghost was: map<RateLimiter, bool>) returns (ghost more: seq<RateLimiter?>)
      requires i < |opts| && Valid() && (opts[i].WithRateLimiter? && opts[i].l != null ==> opts[i].l.Sane())
      requires WroteAll(opts[..i], written) && Accounted(opts[..i], first, was)
      modifies this, rateLimiter
      ensures Valid() && Accounted(opts[..i + 1], first, was)
      ensures WroteAll(opts[..i + 1], more)
      ensures if opts[i].OtherOption? then more == written && history == old(history)
              else more == written + [rateLimiter] && history == old(history) + [rateLimiter]
      ensures match opts[i]
              case OtherOption =>
                && rateLimiter == old(rateLimiter)
                && (rateLimiter != null ==> rateLimiter.stopped == old(rateLimiter.stopped))
              case WithRateLimiter(l) => rateLimiter == l
              case WithRateLimit(_, _) => fresh(rateLimiter) && !rateLimiter.stopped
      ensures forall l :: l in Installed() ==> l in old(Installed()) || l == rateLimiter
    {
      hide WroteAll, Writes, LeavesCurrent, Overwrites;
      Apply(opts[i]);
      forall l | l in was
        ensures LeavesCurrent(opts[..i + 1], first, l) <==>
            if opts[i].OtherOption? then l == old(rateLimiter) else opts[i] == WithRateLimiter(l)
        ensures Overwrites(opts[..i + 1], first, l) <==>
            Overwrites(opts[..i], first, l) || (l == old(rateLimiter) && !opts[i].OtherOption?)
      {
        OneMore(opts, i, first, old(rateLimiter), l);
      }
      more := if opts[i].OtherOption? then written else written + [rateLimiter];
      WroteNext(opts, i, written, more);
    }

    method Configure(opts: seq<Option>) returns (ghost written: seq<RateLimiter?>)
      requires Valid() && (forall l :: l in Given(opts) ==> l.Sane())
      modifies this, rateLimiter, Given(opts)
      ensures Valid()
      ensures history == old(history) + written && WroteAll(opts, written)
      // A limiter that existed before is stopped exactly if it was already, or if something wrote over it.
      ensures forall l :: l in old(Installed()) + Given(opts) ==>
                && l.Sane()
                && (l.stopped <==> old(l.stopped) || (!l.kind.Plain? && Overwrites(opts, old(rateLimiter), l)))
                && (l == rateLimiter <==> LeavesCurrent(opts, old(rateLimiter), l))
      // Any other that is installed was made on the way, and is not stopped while it is current.
      ensures forall l :: l in Installed() ==> l in old(Installed()) + Given(opts) || fresh(l)
      ensures rateLimiter == null || rateLimiter == old(rateLimiter) || rateLimiter in Given(opts) ||
          (fresh(rateLimiter) && !rateLimiter.stopped)
    {
      ghost var first, was := rateLimiter, map l | l in Installed() + Given(opts) :: l.stopped;
      NothingApplied(was);
      written := [];
      assert opts[..0] == [];
      hide WroteAll, Wrote, Accounted, Writes, LeavesCurrent, Overwrites;
      var i := 0;
      while i < |opts|
        invariant 0 <= i <= |opts| && Valid()
        invariant history == old(history) + written && WroteAll(opts[..i], written)
        invariant rateLimiter == null || rateLimiter == first || rateLimiter in Given(opts) ||
            (fresh(rateLimiter) && !rateLimiter.stopped)
        invariant forall l :: l in Installed() ==> l in was || fresh(l)
        invariant Accounted(opts[..i], first, was)
        invariant forall l :: l in Given(opts) ==> l.Sane()
      {
        written := ApplyNext(opts, i, written, first, was);
        i := i + 1;
      }
      assert opts[..i] == opts;
    }

    /** `Configure` after other options were applied from the start. */
    method ConfigureNext(ghost earlier: seq<Option>, opts: seq<Option>, ghost was: map<RateLimiter, bool>)
      requires Valid() && WroteAll(earlier, history) && Accounted(earlier, null, was)
      requires Given(opts) <= was.Keys
      modifies this, rateLimiter, Given(opts)
      ensures Valid() && WroteAll(earlier + opts, history) && Accounted(earlier + opts, null, was)
      ensures rateLimiter == null || rateLimiter == old(rateLimiter) || rateLimiter in Given(opts) || fresh(rateLimiter)
      ensures forall l :: l in Installed() ==> l in old(Installed()) + Given(opts) || fresh(l)
    {
      hide Overwrites, LeavesCurrent, WroteAll;
      ghost var written := Configure(opts);
      WroteAppend(earlier, opts, old(history), written);
      forall l | l in was && l !in old(Installed()) + Given(opts)
        ensures !LeavesCurrent(opts, old(rateLimiter), l) && !Overwrites(opts, old(rateLimiter), l)
      {
        NotGiven(opts, old(rateLimiter), l);
      }
      forall l | l in was
        ensures Overwrites(earlier + opts, null, l) <==>
            Overwrites(earlier, null, l) || Overwrites(opts, old(rateLimiter), l)
        ensures LeavesCurrent(earlier + opts, null, l) <==> LeavesCurrent(opts, old(rateLimiter), l)
      {
        OneAfterAnother(earlier, opts, null, old(rateLimiter), l);
      }
    }
  }

  /** The options of several `Configure` calls, in order. */
  function Flat(calls: seq<seq<Option>>): seq<Option> {
    if calls == [] then [] else Flat(calls[..|calls| - 1]) + calls[|calls| - 1]
  }

  lemma FlatCall(calls: seq<seq<Option>>, n: nat)
    requires n < |calls|
    ensures Flat(calls[..n + 1]) == Flat(calls[..n]) + calls[n]
  {
    assert calls[..n + 1][..n] == calls[..n];
  }

  /** The limiters the caller passes to any of the calls. */
  ghost function GivenIn(calls: seq<seq<Option>>): set<RateLimiter> {
    set n, i | 0 <= n < |calls| && 0 <= i < |calls[n]| && calls[n][i].WithRateLimiter? && calls[n][i].l != null ::
      calls[n][i].l
  }

  /**
   * Any sequence of `Configure` calls, however it mixes options.  Every stoppable limiter that was ever installed and
   * is not the current one is stopped, so of all the installed limiters, those `WithRateLimit` made among them, only
   * the current one can have its cleanup goroutine alive, and no stop channel was closed twice.
   */
  method ConfigureAll(calls: seq<seq<Option>>) returns (c: Config)
    requires forall l :: l in GivenIn(calls) ==> l.Sane()
    modifies GivenIn(calls)
    ensures fresh(c) && c.Valid() && WroteAll(Flat(calls), c.history)
    ensures forall l :: l in c.Installed() && l != c.rateLimiter && !l.kind.Plain? ==> l.stopped
    ensures forall l :: l in c.Installed() && l.LoopAlive() ==> l == c.rateLimiter
    ensures forall l :: l in c.Installed() ==> l.closes <= 1
    ensures forall l :: l in c.Installed() ==> l in GivenIn(calls) || fresh(l)
    // The limiters the caller gave: which are stopped, and which is current.
    ensures forall l :: l in GivenIn(calls) ==>
              && (l.stopped <==> old(l.stopped) || (!l.kind.Plain? && Overwrites(Flat(calls), null, l)))
              && (l == c.rateLimiter <==> LeavesCurrent(Flat(calls), null, l))
  {
    ghost var was := map l | l in GivenIn(calls) :: l.stopped;
    c := new Config();
    c.NothingApplied(was);
    var i := 0;
    assert calls[..0] == [];
    while i < |calls|
      invariant 0 <= i <= |calls| && fresh(c) && c.Valid()
      invariant WroteAll(Flat(calls[..i]), c.history)
      invariant c.rateLimiter == null || c.rateLimiter in was || fresh(c.rateLimiter)
      invariant forall l :: l in c.Installed() ==> l in was || fresh(l)
      invariant c.Accounted(Flat(calls[..i]), null, was)
    {
      FlatCall(calls, i);
      assert Given(calls[i]) <= GivenIn(calls);
      c.ConfigureNext(Flat(calls[..i]), calls[i], was);
      i := i + 1;
    }
    assert calls[..i] == calls;
    hide Overwrites, LeavesCurrent, WroteAll, Flat;
  }

  /** A limiter that is configured while it is current is stopped as its own predecessor, and stays current. */
  method Reinstalled(c: Config, l: RateLimiter)
    requires c.Valid() && c.rateLimiter == l && !l.kind.Plain? && !l.stopped
    modifies c, l
    ensures c.Valid() && c.rateLimiter == l && l.stopped && !l.LoopAlive()
  {
    var opts := [WithRateLimiter(l)];
    assert GivenAt(opts, l, 0) && Given(opts) == {l};
    ghost var _ := c.Configure(opts);
  }
}
