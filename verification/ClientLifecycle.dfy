/**
 * Connecting and closing a client that watches its server's health.  Each region the client's mutex protects is one
 * atomic step, so any number of `Connect` and `Close` calls interleave at those steps.  `Connect` gives the mutex up
 * between storing its connection and storing its watcher's cancel function; `starting` holds the calls in that gap.
 */
module ClientLifecycle {
  import opened Wrappers

  /** A health-watch goroutine: the connection it was given (nil if there was none), and whether it was cancelled. */
  datatype Watcher = Watcher(conn: Option<nat>, cancelled: bool)

  /** Connections and watchers are numbered as they are made; `closes` counts the `Close` calls each connection got. */
  datatype RawState = State(
    conn: Option<nat>,
    healthCancel: Option<nat>,
    closes: seq<nat>,
    watchers: seq<Watcher>,
    starting: set<nat>)

  type State = s: RawState |
    && (s.conn.Some? ==> s.conn.value < |s.closes|)
    && (s.healthCancel.Some? ==> s.healthCancel.value < |s.watchers|)
    witness State(None, None, [], [], {})

  const NEW: State := State(None, None, [], [], {})

  datatype Event = Connect(call: nat, dialled: bool) | StartWatch(call: nat) | Close

  datatype ConnectResult = Connected | AlreadyConnected | DialFailed

  function ConnectStep(watch: bool, s: State, call: nat, dialled: bool): (ConnectResult, State) {
    if s.conn.Some? then (AlreadyConnected, s)
    else if !dialled then (DialFailed, s)
    else
      var starting := s.starting + if watch then {call} else {};
      (Connected, s.(conn := Some(|s.closes|), closes := s.closes + [0], starting := starting))
  }

  /** `startHealthWatch`: store the cancel function, whatever is stored there, and watch the current connection. */
  function StartWatchStep(s: State, call: nat): State {
    State(s.conn, Some(|s.watchers|), s.closes, s.watchers + [Watcher(s.conn, false)], s.starting - {call})
  }

  function CloseOne(closes: seq<nat>, c: Option<nat>): seq<nat>
    requires c.Some? ==> c.value < |closes|
  {
    if c.Some? then closes[c.value := closes[c.value] + 1] else closes
  }

  function CancelOne(watchers: seq<Watcher>, w: Option<nat>): seq<Watcher>
    requires w.Some? ==> w.value < |watchers|
  {
    if w.Some? then watchers[w.value := watchers[w.value].(cancelled := true)] else watchers
  }

  function CloseStep(s: State): State {
    State(None, None, CloseOne(s.closes, s.conn), CancelOne(s.watchers, s.healthCancel), s.starting)
  }

  function Step(watch: bool, s: State, e: Event): State {
    match e
    case Connect(call, dialled) => ConnectStep(watch, s, call, dialled).1
    case StartWatch(call) => if call in s.starting then StartWatchStep(s, call) else s
    case Close => CloseStep(s)
  }

  function Run(watch: bool, s: State, es: seq<Event>): State
    decreases |es|
  {
    if es == [] then s else Run(watch, Step(watch, s, es[0]), es[1..])
  }

  /** A call starts its watch once, after it connected and before it can be made again. */
  ghost predicate Legal(watch: bool, s: State, es: seq<Event>)
    decreases |es|
  {
    es == [] ||
    (&& (es[0].Connect? ==> es[0].call !in s.starting)
     && (es[0].StartWatch? ==> es[0].call in s.starting)
     && Legal(watch, Step(watch, s, es[0]), es[1..]))
  }

  // ----- Connections -----

  /** Every connection ever dialled is either the current one, and open, or has been closed exactly once. */
  ghost predicate Conserved(s: State) {
    forall c :: 0 <= c < |s.closes| ==> s.closes[c] == if s.conn == Some(c) then 0 else 1
  }

  lemma {:induction false} ConservedFrom(watch: bool, s: State, es: seq<Event>)
    requires Conserved(s)
    ensures Conserved(Run(watch, s, es))
    decreases |es|
  {
    if es != [] {
      ConservedFrom(watch, Step(watch, s, es[0]), es[1..]);
    }
  }

  function Dials(watch: bool, s: State, es: seq<Event>): nat
    decreases |es|
  {
    if es == [] then 0
    else
      var dialled := es[0].Connect? && ConnectStep(watch, s, es[0].call, es[0].dialled).0.Connected?;
      (if dialled then 1 else 0) + Dials(watch, Step(watch, s, es[0]), es[1..])
  }

  lemma {:induction false} DialsCounted(watch: bool, s: State, es: seq<Event>)
    ensures |Run(watch, s, es).closes| == |s.closes| + Dials(watch, s, es)
    decreases |es|
  {
    if es != [] {
      DialsCounted(watch, Step(watch, s, es[0]), es[1..]);
    }
  }

  /** However calls interleave, no connection is overwritten, lost, or closed twice. */
  lemma ConnectionsConserved(watch: bool, es: seq<Event>)
    ensures Conserved(Run(watch, NEW, es)) && |Run(watch, NEW, es).closes| == Dials(watch, NEW, es)
  {
    ConservedFrom(watch, NEW, es);
    DialsCounted(watch, NEW, es);
  }

  // ----- What the calls return, and what they leave behind -----

  /** The client is connected after these events: some dial succeeded and no `Close` came after it. */
  ghost predicate OpenAfter(es: seq<Event>) {
    exists i :: 0 <= i < |es| && es[i].Connect? && es[i].dialled && forall j :: i < j < |es| ==> !es[j].Close?
  }

  lemma {:induction false} RunAppend(watch: bool, s: State, es: seq<Event>, e: Event)
    ensures Run(watch, s, es + [e]) == Step(watch, Run(watch, s, es), e)
    decreases |es|
  {
    hide Step;
    if es == [] {
      assert es + [e] == [e] && [e][1..] == [];
    } else {
      assert (es + [e])[1..] == es[1..] + [e];
      RunAppend(watch, Step(watch, s, es[0]), es[1..], e);
    }
  }

  lemma OpenAppend(es: seq<Event>, e: Event)
    ensures OpenAfter(es + [e]) <==> (e.Connect? && e.dialled) || (OpenAfter(es) && !e.Close?)
  {
    var all := es + [e];
    if e.Connect? && e.dialled {
      assert all[|es|] == e;
    }
    if OpenAfter(es) && !e.Close? {
      var i :| 0 <= i < |es| && es[i].Connect? && es[i].dialled && forall j :: i < j < |es| ==> !es[j].Close?;
      assert all[i] == es[i];
    }
    if OpenAfter(all) {
      var i :| 0 <= i < |all| && all[i].Connect? && all[i].dialled && forall j :: i < j < |all| ==> !all[j].Close?;
      if i < |es| {
        assert es[i] == all[i] && !all[|es|].Close?;
        assert forall j :: i < j < |es| ==> es[j] == all[j];
      }
    }
  }

  /** The client holds a connection exactly if some dial succeeded after the last `Close`. */
  lemma {:induction false} ConnectedIff(watch: bool, es: seq<Event>)
    ensures Run(watch, NEW, es).conn.Some? <==> OpenAfter(es)
    decreases |es|
  {
    if es != [] {
      var n := |es| - 1;
      assert es == es[..n] + [es[n]];
      ConnectedIff(watch, es[..n]);
      RunAppend(watch, NEW, es[..n], es[n]);
      OpenAppend(es[..n], es[n]);
    }
  }

  /** So what a `Connect` returns, after any events, depends on those events and on its own dial only. */
  lemma ConnectReturns(watch: bool, es: seq<Event>, call: nat, dialled: bool)
    ensures ConnectStep(watch, Run(watch, NEW, es), call, dialled).0 ==
        if OpenAfter(es) then AlreadyConnected else if dialled then Connected else DialFailed
    ensures OpenAfter(es) || !dialled ==> Run(watch, NEW, es + [Connect(call, dialled)]) == Run(watch, NEW, es)
  {
    ConnectedIff(watch, es);
    RunAppend(watch, NEW, es, Connect(call, dialled));
  }

  /** A `Close` cancels the watcher whose cancel function is kept, with or without a connection, and no other. */
  lemma CloseCancels(watch: bool, es: seq<Event>)
    ensures var s, s' := Run(watch, NEW, es), Run(watch, NEW, es + [Close]);
            && s'.conn == None && s'.healthCancel == None && s'.starting == s.starting
            && |s'.watchers| == |s.watchers|
            && forall w :: 0 <= w < |s.watchers| ==>
                 && s'.watchers[w].conn == s.watchers[w].conn
                 && (s'.watchers[w].cancelled <==> s.watchers[w].cancelled || s.healthCancel == Some(w))
  {
    RunAppend(watch, NEW, es, Close);
  }

  /** With a health watch configured, every connection dialled has had a watch started, or is about to. */
  lemma {:induction false} WatchesCounted(s: State, es: seq<Event>)
    requires Legal(true, s, es)
    ensures var end := Run(true, s, es);
            |end.watchers| + |end.starting| == |s.watchers| + |s.starting| + Dials(true, s, es)
    decreases |es|
  {
    if es != [] {
      WatchesCounted(Step(true, s, es[0]), es[1..]);
    }
  }

  /** Without one there is never a watch. */
  lemma {:induction false} NoWatch(s: State, es: seq<Event>)
    requires s.watchers == [] && s.starting == {}
    ensures Run(false, s, es).watchers == [] && Run(false, s, es).starting == {}
    decreases |es|
  {
    if es != [] {
      NoWatch(Step(false, s, es[0]), es[1..]);
    }
  }

  // ----- Watchers -----

  ghost predicate Alive(s: State, w: int) {
    0 <= w < |s.watchers| && !s.watchers[w].cancelled
  }

  /** At most one watcher is alive, and it watches the current connection; so none is once the client is closed. */
  ghost predicate Owned(s: State) {
    && (forall v, w :: Alive(s, v) && Alive(s, w) ==> v == w)
    && (forall w :: Alive(s, w) ==> s.conn.Some? && s.watchers[w].conn == s.conn)
  }

  ghost predicate AlwaysOwned(s: State, es: seq<Event>)
    decreases |es|
  {
    Owned(s) && (es == [] || AlwaysOwned(Step(true, s, es[0]), es[1..]))
  }

  /** Some `Close` ran while a `Connect` had unlocked and not yet started its watch. */
  ghost predicate ClosedInGap(s: State, es: seq<Event>)
    decreases |es|
  {
    es != [] && ((es[0].Close? && s.starting != {}) || ClosedInGap(Step(true, s, es[0]), es[1..]))
  }

  /** The client can still cancel whatever is alive. */
  ghost predicate Tracked(s: State) {
    forall w :: Alive(s, w) ==> s.healthCancel == Some(w)
  }

  /** The watches that may still be started without breaking ownership. */
  ghost function Room(s: State): nat {
    if s.conn.Some? && !exists w :: Alive(s, w) then 1 else 0
  }

  ghost predicate Orderly(s: State) {
    Owned(s) && Tracked(s) && |s.starting| <= Room(s)
  }

  ghost predicate Doomed(s: State) {
    Owned(s) && Tracked(s) && |s.starting| > Room(s)
  }

  lemma OrderlyStep(s: State, e: Event)
    requires Orderly(s) && (e.Close? ==> s.starting == {}) && (e.Connect? ==> e.call !in s.starting)
    ensures Orderly(Step(true, s, e))
  {
    var s' := Step(true, s, e);
    match e
    case Connect(call, dialled) =>
      if s.conn.None? && dialled {
        assert s.starting == {} && s'.starting == {call};
        assert forall w :: Alive(s', w) ==> Alive(s, w);
      }
    case StartWatch(call) =>
      if call in s.starting {
        assert forall w :: Alive(s', w) ==> w == |s.watchers| || Alive(s, w);
        assert Alive(s', |s.watchers|);
        assert |s'.starting| == 0;
      }
    case Close =>
      assert forall w :: Alive(s', w) ==> Alive(s, w) && s.healthCancel != Some(w);
  }

  lemma {:induction false} OrderlyRun(s: State, es: seq<Event>)
    requires Orderly(s) && Legal(true, s, es) && !ClosedInGap(s, es)
    ensures AlwaysOwned(s, es)
    decreases |es|
  {
    if es != [] {
      OrderlyStep(s, es[0]);
      OrderlyRun(Step(true, s, es[0]), es[1..]);
    }
  }

  /** Once there are more watches to start than room for them, ownership is lost at the latest when they are. */
  lemma DoomedStep(s: State, e: Event)
    requires Doomed(s) && (e.Connect? ==> e.call !in s.starting) && (e.StartWatch? ==> e.call in s.starting)
    ensures Doomed(Step(true, s, e)) || !Owned(Step(true, s, e))
  {
    var s' := Step(true, s, e);
    match e
    case Connect(call, dialled) =>
      if s.conn.None? && dialled {
        assert |s'.starting| == |s.starting| + 1;
        assert forall w :: Alive(s', w) ==> Alive(s, w);
      }
    case StartWatch(call) =>
      assert Alive(s', |s.watchers|);
      assert forall w :: Alive(s, w) ==> Alive(s', w);
      assert forall w :: Alive(s', w) ==> w == |s.watchers| || Alive(s, w);
      assert |s'.starting| == |s.starting| - 1;
    case Close =>
      assert forall w :: Alive(s', w) ==> Alive(s, w) && s.healthCancel != Some(w);
  }

  lemma {:induction false} DoomedRun(s: State, es: seq<Event>)
    requires Doomed(s) && Legal(true, s, es) && Run(true, s, es).starting == {}
    ensures !AlwaysOwned(s, es)
    decreases |es|
  {
    if es != [] {
      DoomedStep(s, es[0]);
      if Doomed(Step(true, s, es[0])) {
        DoomedRun(Step(true, s, es[0]), es[1..]);
      }
    }
  }

  lemma {:induction false} GapRun(s: State, es: seq<Event>)
    requires Orderly(s) && Legal(true, s, es) && ClosedInGap(s, es) && Run(true, s, es).starting == {}
    ensures !AlwaysOwned(s, es)
    decreases |es|
  {
    var s' := Step(true, s, es[0]);
    if es[0].Close? && s.starting != {} {
      assert forall w :: Alive(s', w) ==> Alive(s, w) && s.healthCancel != Some(w);
      assert |s'.starting| > 0;
      assert Doomed(s');
      DoomedRun(s', es[1..]);
    } else {
      OrderlyStep(s, es[0]);
      GapRun(s', es[1..]);
    }
  }

  /**
   * In every interleaving, complete or not, in which no `Close` falls into the gap, the watcher is owned
   * throughout.
   */
  lemma WatcherOwned(es: seq<Event>)
    requires Legal(true, NEW, es) && !ClosedInGap(NEW, es)
    ensures AlwaysOwned(NEW, es)
  {
    OrderlyRun(NEW, es);
  }

  /** And once every call has returned, that is the only way it can have been. */
  lemma WatcherOwnedIff(es: seq<Event>)
    requires Legal(true, NEW, es) && Run(true, NEW, es).starting == {}
    ensures AlwaysOwned(NEW, es) <==> !ClosedInGap(NEW, es)
  {
    if ClosedInGap(NEW, es) {
      GapRun(NEW, es);
    } else {
      OrderlyRun(NEW, es);
    }
  }

  /** A watcher the client has lost track of is never cancelled again. */
  lemma {:induction false} LostForever(s: State, es: seq<Event>, w: nat)
    requires Alive(s, w) && s.healthCancel != Some(w)
    ensures Alive(Run(true, s, es), w) && Run(true, s, es).healthCancel != Some(w)
    decreases |es|
  {
    if es != [] {
      LostForever(Step(true, s, es[0]), es[1..], w);
    }
  }

  lemma FiveSteps(es: seq<Event>, ss: seq<State>)
    requires |es| == 5 && |ss| == 6
    requires forall i :: 0 <= i < 5 ==> Step(true, ss[i], es[i]) == ss[i + 1]
    requires forall i :: 0 <= i < 5 ==> (es[i].Connect? ==> es[i].call !in ss[i].starting)
    requires forall i :: 0 <= i < 5 ==> (es[i].StartWatch? ==> es[i].call in ss[i].starting)
    ensures Run(true, ss[0], es) == ss[5] && Legal(true, ss[0], es)
  {
    hide Step;
    assert Run(true, ss[5], es[5..]) == ss[5] && Legal(true, ss[5], es[5..]);
    assert Run(true, ss[4], es[4..]) == ss[5] && Legal(true, ss[4], es[4..]) by { assert es[4..][1..] == es[5..]; }
    assert Run(true, ss[3], es[3..]) == ss[5] && Legal(true, ss[3], es[3..]) by { assert es[3..][1..] == es[4..]; }
    assert Run(true, ss[2], es[2..]) == ss[5] && Legal(true, ss[2], es[2..]) by { assert es[2..][1..] == es[3..]; }
    assert Run(true, ss[1], es[1..]) == ss[5] && Legal(true, ss[1], es[1..]) by { assert es[1..][1..] == es[2..]; }
  }

  /**
   * One interleaving that loses a watcher for good: a `Close` in the gap, a second `Connect`, and then both calls
   * start a watch on the second call's connection.  Nothing that happens afterwards cancels the first of the two.
   */
  lemma CloseInGapLeaks(later: seq<Event>)
    ensures var es := [Connect(0, true), Close, Connect(1, true), StartWatch(0), StartWatch(1)];
            var s := Run(true, NEW, es);
            && Legal(true, NEW, es) && s.starting == {} && s.conn == Some(1)
            && s.watchers == [Watcher(Some(1), false), Watcher(Some(1), false)]
            && Alive(Run(true, s, later), 0)
  {
    hide Run, Legal;
    var es := [Connect(0, true), Close, Connect(1, true), StartWatch(0), StartWatch(1)];
    var w := Watcher(Some(1), false);
    var s1 := State(Some(0), None, [0], [], {0});
    var s2 := State(None, None, [1], [], {0});
    var s3 := State(Some(1), None, [1, 0], [], {0, 1});
    var s4 := State(Some(1), Some(0), [1, 0], [w], {1});
    var s5 := State(Some(1), Some(1), [1, 0], [w, w], {});
    assert Step(true, NEW, es[0]) == s1 && Step(true, s1, es[1]) == s2 && Step(true, s2, es[2]) == s3;
    assert Step(true, s3, es[3]) == s4 && Step(true, s4, es[4]) == s5;
    hide Step;
    FiveSteps(es, [NEW, s1, s2, s3, s4, s5]);
    LostForever(s5, later, 0);
  }

  // ----- The client object -----

  /** A dialled connection; `Close` may be called on it any number of times. */
  class ClientConn {
    ghost const id: nat
    var closes: nat

    constructor (ghost id: nat)
      ensures this.id == id && closes == 0
    {
      this.id := id;
      closes := 0;
    }

    method Close()
      modifies this
      ensures closes == old(closes) + 1
    {
      closes := closes + 1;
    }
  }

  /** A watch goroutine's context, cancelled through its cancel function. */
  class WatchContext {
    ghost const id: nat
    const conn: ClientConn?
    var cancelled: bool

    constructor (ghost id: nat, conn: ClientConn?)
      ensures this.id == id && this.conn == conn && !cancelled
    {
      this.id := id;
      this.conn, cancelled := conn, false;
    }

    method Cancel()
      modifies this
      ensures cancelled
    {
      cancelled := true;
    }
  }

  class Client {
    const healthWatch: bool
    var conn: ClientConn?
    var healthCancel: WatchContext?
    ghost var dialled: seq<ClientConn>
    ghost var watches: seq<WatchContext>
    ghost var starting: set<nat>

    /** Connections and watches are distinct objects, numbered in the order they were made. */
    ghost predicate Valid()
      reads this
    {
      && (forall i :: 0 <= i < |dialled| ==> dialled[i].id == i)
      && (forall i :: 0 <= i < |watches| ==> watches[i].id == i)
      && (forall i :: 0 <= i < |watches| && watches[i].conn != null ==> watches[i].conn in dialled)
      && (conn != null ==> conn in dialled)
      && (healthCancel != null ==> healthCancel in watches)
    }

    static ghost function ClosesOf(cs: seq<ClientConn>): seq<nat>
      reads cs
    {
      seq(|cs|, i requires 0 <= i < |cs| reads cs => cs[i].closes)
    }

    static ghost function WatchersOf(ws: seq<WatchContext>): seq<Watcher>
      reads ws
    {
      seq(|ws|, i requires 0 <= i < |ws| reads ws =>
        Watcher(if ws[i].conn == null then None else Some(ws[i].conn.id), ws[i].cancelled))
    }

    ghost function View(): (s: State)
      requires Valid()
      reads this, dialled, watches
    {
      State(if conn == null then None else Some(conn.id),
            if healthCancel == null then None else Some(healthCancel.id),
            ClosesOf(dialled), WatchersOf(watches), starting)
    }

    constructor (healthWatch: bool)
      ensures Valid() && this.healthWatch == healthWatch && View() == NEW
      ensures conn == null && healthCancel == null
    {
      this.healthWatch := healthWatch;
      conn, healthCancel, dialled, watches, starting := null, null, [], [], {};
    }

    /** `Connect` up to the point where it unlocks; `dialOk` is whether the dial succeeds. */
    method ConnectLocked(call: nat, dialOk: bool) returns (r: ConnectResult)
      requires Valid()
      modifies this
      ensures Valid() && |old(dialled)| <= |dialled| && dialled[..|old(dialled)|] == old(dialled) &&
          watches == old(watches)
      ensures healthCancel == old(healthCancel)
      ensures r == if old(conn) != null then AlreadyConnected else if dialOk then Connected else DialFailed
      ensures if r.Connected? then fresh(conn) else conn == old(conn)
      ensures (r, View()) == ConnectStep(healthWatch, old(View()), call, dialOk)
    {
      if conn != null {
        return AlreadyConnected;
      }
      if !dialOk {
        return DialFailed;
      }
      var c := new ClientConn(|dialled|);
      conn := c;
      dialled := dialled + [c];
      if healthWatch {
        starting := starting + {call};
      }
      assert starting == old(starting) + if healthWatch then {call} else {};
      assert ClosesOf(dialled) == old(ClosesOf(dialled)) + [0];
      assert WatchersOf(watches) == old(WatchersOf(watches));
      r := Connected;
    }

    /** The locked part of `startHealthWatch`. */
    method StartHealthWatch(call: nat)
      requires Valid()
      modifies this
      ensures Valid() && dialled == old(dialled)
      ensures conn == old(conn) && fresh(healthCancel) && healthCancel.conn == conn && !healthCancel.cancelled
      ensures View() == StartWatchStep(old(View()), call)
    {
      var ctx := new WatchContext(|watches|, conn);
      healthCancel := ctx;
      watches := watches + [ctx];
      starting := starting - {call};
      assert ClosesOf(dialled) == old(ClosesOf(dialled));
      assert WatchersOf(watches) ==
          old(WatchersOf(watches)) + [Watcher(if conn == null then None else Some(conn.id), false)];
    }

    method CancelHealth()
      requires Valid()
      modifies this`healthCancel, healthCancel
      ensures healthCancel == null && (old(healthCancel) != null ==> old(healthCancel).cancelled)
      ensures WatchersOf(watches) == CancelOne(old(WatchersOf(watches)), old(View()).healthCancel)
    {
      if healthCancel != null {
        healthCancel.Cancel();
        healthCancel := null;
      }
    }

    method CloseConn()
      requires Valid()
      modifies this`conn, conn
      ensures conn == null && (old(conn) != null ==> old(conn).closes == old(conn.closes) + 1)
      ensures ClosesOf(dialled) == CloseOne(old(ClosesOf(dialled)), old(View()).conn)
    {
      if conn != null {
        conn.Close();
        conn := null;
      }
    }

    method Close()
      requires Valid()
      modifies this, healthCancel, conn
      ensures Valid() && dialled == old(dialled) && watches == old(watches)
      ensures conn == null && healthCancel == null
      ensures old(healthCancel) != null ==> old(healthCancel).cancelled
      ensures old(conn) != null ==> old(conn).closes == old(conn.closes) + 1
      ensures View() == CloseStep(old(View()))
    {
      CancelHealth();
      CloseConn();
    }
  }

  lemma {:induction false} LegalPrefix(watch: bool, s: State, es: seq<Event>, n: nat)
    requires n < |es| && Legal(watch, s, es)
    ensures Run(watch, s, es[..n + 1]) == Step(watch, Run(watch, s, es[..n]), es[n])
    ensures es[n].StartWatch? ==> es[n].call in Run(watch, s, es[..n]).starting
    decreases n
  {
    hide Step;
    var s' := Step(watch, s, es[0]);
    assert es[..n + 1][1..] == es[1..][..n];
    if n > 0 {
      assert es[..n][1..] == es[1..][..n - 1];
      LegalPrefix(watch, s', es[1..], n - 1);
    }
  }

  /**
   * A client object taken through the lock regions of any interleaving of calls ends as the run says; so every
   * connection it dialled is the one it holds, and open, or was closed exactly once.
   */
  method Drive(watch: bool, es: seq<Event>) returns (c: Client)
    requires Legal(watch, NEW, es)
    ensures fresh(c) && c.Valid() && c.View() == Run(watch, NEW, es)
    ensures forall i :: 0 <= i < |c.dialled| ==> c.dialled[i].closes == if c.dialled[i] == c.conn then 0 else 1
  {
    hide Legal, ConnectStep, StartWatchStep, CloseStep;
    c := new Client(watch);
    var i := 0;
    assert es[..0] == [];
    while i < |es|
      invariant 0 <= i <= |es| && fresh(c) && c.Valid() && c.healthWatch == watch
      invariant c.conn == null || fresh(c.conn)
      invariant c.healthCancel == null || fresh(c.healthCancel)
      invariant c.View() == Run(watch, NEW, es[..i])
    {
      LegalPrefix(watch, NEW, es, i);
      match es[i] {
        case Connect(call, dialled) => var _ := c.ConnectLocked(call, dialled);
        case StartWatch(call) => c.StartHealthWatch(call);
        case Close => c.Close();
      }
      i := i + 1;
    }
    assert es[..i] == es;
    ConnectionsConserved(watch, es);
    forall k | 0 <= k < |c.dialled| ensures c.dialled[k].closes == if c.dialled[k] == c.conn then 0 else 1 {
      assert c.View().closes[k] == c.dialled[k].closes;
    }
  }
}
