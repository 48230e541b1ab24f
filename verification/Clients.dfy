/** Client bookkeeping of the daemon: exit intents and the default-mode
    lifecycle (internal/daemon/server.go). */
module Clients {

  datatype Client = Client(name: string, exiting: bool, subscribed: bool)
  type Table = map<nat, Client>

  const TUI := "openkanban-tui"
  const ID_SPACE := 0x1_0000

  // ---- Exit intents ----

  function Peers(m: Table, id: nat): set<nat> {
    set k | k in m && k != id
  }

  /** What PrepareExit reports: the peers that have not called it themselves. */
  function ActivePeers(m: Table, id: nat): set<nat> {
    set k | k in Peers(m, id) && !m[k].exiting
  }

  function TuiPeers(m: Table, id: nat): set<nat> {
    set k | k in Peers(m, id) && m[k].name == TUI
  }

  function WithExiting(m: Table, id: nat, exiting: bool): Table {
    if id in m then m[id := m[id].(exiting := exiting)] else m
  }

  datatype ExitEvent = Join(id: nat, name: string) | Leave(id: nat) | Prepare(id: nat) | Cancel(id: nat)

  function ExitStep(m: Table, e: ExitEvent): Table {
    match e
    case Join(id, name) => m[id := Client(name, false, false)]
    case Leave(id) => map k | k in m && k != id :: m[k]
    case Prepare(id) => WithExiting(m, id, true)
    case Cancel(id) => WithExiting(m, id, false)
  }

  function Trace(m: Table, es: seq<ExitEvent>, n: nat): Table
    requires n <= |es|
  {
    if n == 0 then m else ExitStep(Trace(m, es, n - 1), es[n - 1])
  }

  /** What the call es[i] reports. */
  function Seen(m: Table, es: seq<ExitEvent>, i: nat): nat
    requires i < |es| && es[i].Prepare?
  {
    |ActivePeers(Trace(m, es, i + 1), es[i].id)|
  }

  predicate Distinct(order: seq<nat>) {
    forall i, j :: 0 <= i < j < |order| ==> order[i] != order[j]
  }

  /** order lists every client that is still active in m. */
  ghost predicate ListsActive(m: Table, order: seq<nat>) {
    Distinct(order) && forall id :: id in order <==> id in m && !m[id].exiting
  }

  function Members(order: seq<nat>): (ms: set<nat>)
    ensures forall x :: x in ms <==> x in order
    ensures Distinct(order) ==> |ms| == |order|
  {
    if order == [] then {}
    else
      assert order == order[..|order| - 1] + [order[|order| - 1]];
      Members(order[..|order| - 1]) + {order[|order| - 1]}
  }

  /** The clients of order call PrepareExit one after the other. */
  function Calls(order: seq<nat>): (es: seq<ExitEvent>)
    ensures |es| == |order| && forall i :: 0 <= i < |es| ==> es[i] == Prepare(order[i])
  {
    seq(|order|, i requires 0 <= i < |order| => Prepare(order[i]))
  }

  lemma {:induction false} CallsMark(m: Table, order: seq<nat>, k: nat)
    requires k <= |order|
    ensures var m' := Trace(m, Calls(order), k);
            && m'.Keys == m.Keys
            && forall id :: id in m ==> (m'[id].exiting <==> m[id].exiting || id in order[..k])
  {
    if k > 0 {
      CallsMark(m, order, k - 1);
      assert order[..k] == order[..k - 1] + [order[k - 1]];
    }
  }

  /** Once the first k have called, the k-th one's active peers are the others. */
  lemma PeersAreLater(m: Table, t: Table, order: seq<nat>, k: nat)
    requires ListsActive(m, order) && 1 <= k <= |order| && t.Keys == m.Keys
    requires forall id :: id in m ==> (t[id].exiting <==> m[id].exiting || id in order[..k])
    ensures ActivePeers(t, order[k - 1]) == Members(order[k..])
  {
    var caller, later := order[k - 1], order[k..];
    assert order == order[..k] + later;
    forall id ensures id in ActivePeers(t, caller) <==> id in later {
      if id in later {
        assert id in order && id != caller && id !in order[..k];
      }
    }
  }

  /** When all n active clients call once and nothing else happens, the k-th call
      in lock order sees n - k active peers; so exactly the last one sees none. */
  lemma KthCallSees(m: Table, order: seq<nat>, k: nat)
    requires ListsActive(m, order) && 1 <= k <= |order|
    ensures Seen(m, Calls(order), k - 1) == |order| - k
  {
    CallsMark(m, order, k);
    hide Trace, Calls, ActivePeers, Members, ListsActive;
    PeersAreLater(m, Trace(m, Calls(order), k), order, k);
    LaterDistinct(m, order, k);
  }

  lemma LaterDistinct(m: Table, order: seq<nat>, k: nat)
    requires ListsActive(m, order) && k <= |order|
    ensures Distinct(order[k..])
  {
  }

  /** A client stays active until it calls or leaves. */
  lemma {:induction false} StaysActive(m: Table, es: seq<ExitEvent>, b: nat, n: nat)
    requires n <= |es| && b in m && !m[b].exiting
    requires forall k :: 0 <= k < n ==> es[k] != Prepare(b) && es[k] != Leave(b)
    ensures b in Trace(m, es, n) && !Trace(m, es, n)[b].exiting
  {
    if n > 0 {
      StaysActive(m, es, b, n - 1);
    }
  }

  /** A client that joins, or takes its call back, counts as an active peer of
      everybody else until it calls or leaves. */
  lemma ActiveFromJoinOrCancel(m: Table, es: seq<ExitEvent>, i: nat, n: nat, other: nat)
    requires i < n <= |es| && other != es[i].id
    requires es[i].Join? || (es[i].Cancel? && es[i].id in Trace(m, es, i))
    requires forall k :: i < k < n ==> es[k] != Prepare(es[i].id) && es[k] != Leave(es[i].id)
    ensures es[i].id in ActivePeers(Trace(m, es, n), other)
  {
    ActiveFrom(m, es, i, n);
  }

  lemma {:induction false} ActiveFrom(m: Table, es: seq<ExitEvent>, i: nat, n: nat)
    requires i < n <= |es|
    requires es[i].Join? || (es[i].Cancel? && es[i].id in Trace(m, es, i))
    requires forall k :: i < k < n ==> es[k] != Prepare(es[i].id) && es[k] != Leave(es[i].id)
    ensures es[i].id in Trace(m, es, n) && !Trace(m, es, n)[es[i].id].exiting
  {
    if n > i + 1 {
      ActiveFrom(m, es, i, n - 1);
    }
  }

  /** A client that called is nobody's active peer until it takes the call back or joins
      anew; one that left is gone until it joins anew. */
  lemma {:induction false} InactiveFromPrepareOrLeave(m: Table, es: seq<ExitEvent>, i: nat, n: nat, other: nat)
    requires i < n <= |es| && (es[i].Prepare? || es[i].Leave?)
    requires forall k :: i < k < n ==> es[k] != Cancel(es[i].id) && !(es[k].Join? && es[k].id == es[i].id)
    ensures es[i].id !in ActivePeers(Trace(m, es, n), other)
    ensures es[i].Leave? ==> es[i].id !in Trace(m, es, n)
  {
    if n > i + 1 {
      InactiveFromPrepareOrLeave(m, es, i, n - 1, es[i].id + 1);
    }
  }

  /** Two clients that are active, and each call once while connected, never both
      see no active peer, whatever joins, leaves and cancels surround the calls. */
  lemma NeverBothLast(m: Table, es: seq<ExitEvent>, a: nat, b: nat, i: nat, j: nat)
    requires a != b && a in m && b in m && !m[a].exiting && !m[b].exiting
    requires i < j < |es| && es[i] == Prepare(a) && es[j] == Prepare(b)
    requires forall k :: 0 <= k < j ==> es[k] != Prepare(b) && es[k] != Leave(b)
    ensures Seen(m, es, i) >= 1
    ensures !(Seen(m, es, i) == 0 && Seen(m, es, j) == 0)
  {
    StaysActive(m, es, b, i + 1);
    assert b in ActivePeers(Trace(m, es, i + 1), a);
  }

  // ---- Default-mode lifecycle ----

  /** awaitSessionDrain: not running, polling, or leaving with its pending flag
      not yet cleared. */
  datatype Watcher = Off | Polling | Leaving

  datatype Life = Life(persistent: bool, clients: nat, live: nat, everConnected: bool,
                       shutdown: bool, drainPending: bool, watcher: Watcher)

  datatype LifeEvent = Connect | Disconnect | Poll | Clear | SessionStarts | SessionEnds | OtherShutdown

  predicate LifeEnabled(s: Life, e: LifeEvent) {
    match e
    case Disconnect => s.clients > 0
    case Poll => s.watcher == Polling
    case Clear => s.watcher == Leaving
    case SessionEnds => s.live > 0
    case _ => true
  }

  function AfterLastDisconnect(s: Life): Life {
    if s.persistent then s
    else if s.live > 0 then
      if s.drainPending then s else s.(drainPending := true, watcher := Polling)
    else s.(shutdown := true)
  }

  function LifeStep(s: Life, e: LifeEvent): Life
    requires LifeEnabled(s, e)
  {
    match e
    case Connect => s.(clients := s.clients + 1, everConnected := true)
    case Disconnect =>
      var s' := s.(clients := s.clients - 1);
      if s'.clients == 0 then AfterLastDisconnect(s') else s'
    case Poll =>
      if s.shutdown then s.(watcher := Leaving)
      else if s.live > 0 then s
      else if s.clients == 0 then s.(shutdown := true, watcher := Leaving)
      else s.(watcher := Leaving)
    case Clear => s.(drainPending := false, watcher := Off)
    case SessionStarts => s.(live := s.live + 1)
    case SessionEnds => s.(live := s.live - 1)
    case OtherShutdown => s.(shutdown := true)
  }

  function Start(persistent: bool): Life {
    Life(persistent, 0, 0, false, false, false, Off)
  }

  /** The last client leaves live sessions behind just while the watcher is on its
      way out. */
  predicate SlipsThrough(s: Life, e: LifeEvent) {
    e == Disconnect && s.clients == 1 && s.live > 0 && s.watcher == Leaving && !s.shutdown && !s.persistent
  }

  predicate LifeRun(ss: seq<Life>, es: seq<LifeEvent>, persistent: bool) {
    && |ss| == |es| + 1 && ss[0] == Start(persistent)
    && forall i :: 0 <= i < |es| ==> LifeEnabled(ss[i], es[i]) && ss[i + 1] == LifeStep(ss[i], es[i])
  }

  /** A daemon that nobody uses any more has somebody who will end it. */
  predicate Watched(s: Life) {
    !s.persistent && s.everConnected && s.clients == 0 && !s.shutdown ==> s.watcher == Polling
  }

  predicate LifeInv(s: Life) {
    (s.drainPending <==> s.watcher != Off) && Watched(s)
  }

  lemma {:induction false} RunIsWatched(ss: seq<Life>, es: seq<LifeEvent>, persistent: bool, n: nat)
    requires LifeRun(ss, es, persistent) && n <= |es|
    requires forall i :: 0 <= i < n ==> !SlipsThrough(ss[i], es[i])
    ensures LifeInv(ss[n]) && ss[n].persistent == persistent
  {
    if n > 0 {
      RunIsWatched(ss, es, persistent, n - 1);
      assert ss[n] == LifeStep(ss[n - 1], es[n - 1]);
    }
  }

  /** In every reachable default-mode state without clients and without shutdown
      exactly the polling watcher is pending, and its first poll that finds no
      session initiates shutdown; provided no last disconnect slipped between a
      watcher's look at the client count and the clearing of its flag. */
  lemma LifecycleEnds(ss: seq<Life>, es: seq<LifeEvent>, n: nat)
    requires LifeRun(ss, es, false) && n <= |es|
    requires forall i :: 0 <= i < n ==> !SlipsThrough(ss[i], es[i])
    requires ss[n].everConnected && ss[n].clients == 0 && !ss[n].shutdown
    ensures ss[n].drainPending && ss[n].watcher == Polling
    ensures LifeStep(ss[n], Poll).shutdown <==> ss[n].live == 0
  {
    RunIsWatched(ss, es, false, n);
  }

  /** That proviso is exact: in any state where a disconnect slips through,
      clearing the flag leaves live sessions without clients and without watcher. */
  lemma SlippingLosesTheWatcher(s: Life)
    requires LifeInv(s) && s.everConnected && LifeEnabled(s, Disconnect) && SlipsThrough(s, Disconnect)
    ensures var s' := LifeStep(s, Disconnect);
            LifeEnabled(s', Clear) && !Watched(s') && !Watched(LifeStep(s', Clear)) && LifeStep(s', Clear).live > 0
  {
  }

  lemma {:induction false} PendingMeansWatcher(ss: seq<Life>, es: seq<LifeEvent>, persistent: bool, n: nat)
    requires LifeRun(ss, es, persistent) && n <= |es|
    ensures ss[n].drainPending <==> ss[n].watcher != Off
    ensures ss[n].clients > 0 ==> ss[n].everConnected
    ensures ss[n].persistent == persistent
  {
    if n > 0 {
      PendingMeansWatcher(ss, es, persistent, n - 1);
      assert ss[n] == LifeStep(ss[n - 1], es[n - 1]);
    }
  }

  // ---- When the daemon ends ----

  lemma {:induction false} PersistentIsUnwatched(ss: seq<Life>, es: seq<LifeEvent>, persistent: bool, n: nat)
    requires LifeRun(ss, es, persistent) && n <= |es|
    ensures ss[n].persistent == persistent && (persistent ==> ss[n].watcher == Off)
  {
    if n > 0 {
      PersistentIsUnwatched(ss, es, persistent, n - 1);
      assert ss[n] == LifeStep(ss[n - 1], es[n - 1]);
    }
  }

  /** In any run, a step begins a shutdown exactly when somebody asks for it, or when
      the last client leaves or the watcher looks and a daemon that is not persistent
      has neither client nor live session left. */
  lemma ShutsDownIff(ss: seq<Life>, es: seq<LifeEvent>, persistent: bool, i: nat)
    requires LifeRun(ss, es, persistent) && i < |es| && !ss[i].shutdown
    ensures ss[i + 1].shutdown <==>
              || es[i] == OtherShutdown
              || (es[i] in {Disconnect, Poll} && !persistent && ss[i + 1].clients == 0 && ss[i + 1].live == 0)
  {
    PersistentIsUnwatched(ss, es, persistent, i);
    assert ss[i + 1] == LifeStep(ss[i], es[i]);
  }

  /** How often e is among the first n events. */
  function Count(es: seq<LifeEvent>, n: nat, e: LifeEvent): nat
    requires n <= |es|
  {
    if n == 0 then 0 else Count(es, n - 1, e) + if es[n - 1] == e then 1 else 0
  }

  /** The counts are those of the run: clients come and go one at a time, sessions
      too, a shutdown is never taken back, and a persistent daemon ends only when
      somebody asks for it. */
  lemma {:induction false} RunAddsUp(ss: seq<Life>, es: seq<LifeEvent>, persistent: bool, n: nat)
    requires LifeRun(ss, es, persistent) && n <= |es|
    ensures ss[n].clients == Count(es, n, Connect) - Count(es, n, Disconnect)
    ensures ss[n].live == Count(es, n, SessionStarts) - Count(es, n, SessionEnds)
    ensures ss[n].everConnected <==> Count(es, n, Connect) > 0
    ensures Count(es, n, OtherShutdown) > 0 ==> ss[n].shutdown
    ensures persistent && ss[n].shutdown ==> Count(es, n, OtherShutdown) > 0
  {
    if n > 0 {
      RunAddsUp(ss, es, persistent, n - 1);
      PersistentIsUnwatched(ss, es, persistent, n - 1);
      assert ss[n] == LifeStep(ss[n - 1], es[n - 1]);
    }
  }

  /** Over whole runs: the daemon is watched in every state up to the n-th if and only
      if no disconnect before it slipped through. */
  lemma WatchedIffNoSlip(ss: seq<Life>, es: seq<LifeEvent>, n: nat)
    requires LifeRun(ss, es, false) && n <= |es|
    ensures (forall k :: 0 <= k <= n ==> Watched(ss[k])) <==> (forall i :: 0 <= i < n ==> !SlipsThrough(ss[i], es[i]))
  {
    if forall i :: 0 <= i < n ==> !SlipsThrough(ss[i], es[i]) {
      forall k | 0 <= k <= n ensures Watched(ss[k]) {
        RunIsWatched(ss, es, false, k);
      }
    } else {
      var i :| 0 <= i < n && SlipsThrough(ss[i], es[i]);
      PendingMeansWatcher(ss, es, false, i);
      assert ss[i + 1] == LifeStep(ss[i], es[i]);
      assert !Watched(ss[i + 1]);
    }
  }

  /** And such a state is reachable. */
  lemma SlippingIsReachable() returns (ss: seq<Life>, es: seq<LifeEvent>)
    ensures LifeRun(ss, es, false) && SlipsThrough(ss[|es|], Disconnect)
  {
    ss, es := [Start(false)], [];
    ss, es := Extend(ss, es, Connect);
    ss, es := Extend(ss, es, SessionStarts);
    ss, es := Extend(ss, es, Disconnect);
    ss, es := Extend(ss, es, Connect);
    ss, es := Extend(ss, es, SessionEnds);
    ss, es := Extend(ss, es, Poll);
    ss, es := Extend(ss, es, SessionStarts);
  }

  lemma Extend(ss: seq<Life>, es: seq<LifeEvent>, e: LifeEvent) returns (ss': seq<Life>, es': seq<LifeEvent>)
    requires LifeRun(ss, es, false) && LifeEnabled(ss[|es|], e)
    ensures LifeRun(ss', es', false) && ss' == ss + [LifeStep(ss[|es|], e)] && es' == es + [e]
  {
    hide LifeEnabled, LifeStep;
    ss', es' := ss + [LifeStep(ss[|es|], e)], es + [e];
  }

  // ---- The server's mutex-guarded bodies ----

  class Server {
    var clients: Table
    var nextClientID: nat
    const persistent: bool
    var live: nat            // sessions registered
    var everConnected: bool
    var shutdown: bool
    var drainPending: bool
    ghost var watcher: Watcher

    /** Only a daemon that is not persistent is ever watched. */
    ghost predicate Valid()
      reads this
    {
      persistent ==> watcher == Off
    }

    ghost function State(): Life
      reads this
    {
      Life.Life(persistent, |clients|, live, everConnected, shutdown, drainPending, watcher)
    }

    constructor (persistent: bool)
      ensures Valid() && this.persistent == persistent
      ensures State() == Start(persistent) && clients == map[] && nextClientID == 0
    {
      this.persistent := persistent;
      clients, nextClientID, live := map[], 0, 0;
      everConnected, shutdown, drainPending, watcher := false, false, false, Off;
    }

    /** The id counter is 16 bits wide. When it comes round to an id in use, the new
        client takes that client's place in the table and none is added. */
    method RegisterClient() returns (id: nat)
      modifies this`clients, this`nextClientID, this`everConnected
      ensures id == (old(nextClientID) + 1) % ID_SPACE == nextClientID
      ensures clients == old(clients)[id := Client("", false, false)]
      ensures State() == if id in old(clients) then old(State()).(everConnected := true)
                         else LifeStep(old(State()), Connect)
    {
      nextClientID := (nextClientID + 1) % ID_SPACE;
      id := nextClientID;
      clients := clients[id := Client("", false, false)];
      everConnected := true;
    }

    method HandleHello(id: nat, name: string) returns (count: nat)
      requires id in clients
      modifies this`clients
      ensures clients == old(clients)[id := old(clients)[id].(name := name)] && count == |clients|
      ensures State() == old(State())
    {
      clients := clients[id := clients[id].(name := name)];
      count := |clients|;
    }

    method HandleSubscribe(id: nat)
      requires id in clients
      modifies this`clients
      ensures clients == old(clients)[id := old(clients)[id].(subscribed := true)]
      ensures State() == old(State())
    {
      clients := clients[id := clients[id].(subscribed := true)];
    }

    /** Flags the caller and counts its peers in one critical section. */
    method HandlePrepareExit(id: nat) returns (total: nat, otherTUIs: nat, otherActive: nat)
      requires id in clients
      modifies this`clients
      ensures clients == WithExiting(old(clients), id, true) && total == |clients|
      ensures clients[id] == old(clients)[id].(exiting := true)
      ensures otherTUIs == |set k | k in clients && k != id && clients[k].name == "openkanban-tui"|
      ensures otherActive == |set k | k in clients && k != id && !clients[k].exiting|
      ensures State() == old(State())
    {
      clients := clients[id := clients[id].(exiting := true)];
      total, otherTUIs, otherActive := |clients|, 0, 0;
      var rest := clients.Keys;
      ghost var tuis: set<nat>, active: set<nat> := {}, {};
      while rest != {}
        invariant rest <= clients.Keys
        invariant tuis == (set k | k in TuiPeers(clients, id) && k !in rest) && otherTUIs == |tuis|
        invariant active == (set k | k in ActivePeers(clients, id) && k !in rest) && otherActive == |active|
      {
        var k :| k in rest;
        rest := rest - {k};
        if k == id {
          continue;
        }
        if clients[k].name == TUI {
          otherTUIs, tuis := otherTUIs + 1, tuis + {k};
        }
        if !clients[k].exiting {
          otherActive, active := otherActive + 1, active + {k};
        }
      }
      assert tuis == set k | k in clients && k != id && clients[k].name == "openkanban-tui";
      assert active == set k | k in clients && k != id && !clients[k].exiting;
    }

    method HandleCancelExit(id: nat)
      requires id in clients
      modifies this`clients
      ensures clients == WithExiting(old(clients), id, false)
      ensures clients[id] == old(clients)[id].(exiting := false)
      ensures forall k :: k in clients && k != id ==> id in ActivePeers(clients, k)
      ensures State() == old(State())
    {
      clients := clients[id := clients[id].(exiting := false)];
    }

    method InitiateShutdown()
      modifies this`shutdown
      ensures shutdown
    {
      shutdown := true;
    }

    /** The end of a connection: unregister, and look after the daemon if it was
        the last one. It ends the daemon exactly when that is not persistent and
        has neither client nor live session left; left with sessions it is watched. */
    method Disconnect(id: nat)
      requires id in clients && Valid()
      modifies this`clients, this`shutdown, this`drainPending, this`watcher
      ensures Valid()
      ensures clients == map k | k in old(clients) && k != id :: old(clients)[k]
      ensures |clients| == |old(clients)| - 1
      ensures shutdown <==> old(shutdown) || (!persistent && |clients| == 0 && live == 0)
      ensures drainPending <==> old(drainPending) || (!persistent && |clients| == 0 && live > 0)
      ensures watcher == if drainPending && !old(drainPending) then Polling else old(watcher)
      ensures State() == LifeStep(old(State()), LifeEvent.Disconnect)
    {
      ghost var before := clients.Keys;
      clients := map k | k in clients && k != id :: clients[k];
      assert clients.Keys == before - {id};
      if |clients| == 0 {
        HandleLastClientDisconnect();
      }
    }

    method HandleLastClientDisconnect()
      requires Valid()
      modifies this`shutdown, this`drainPending, this`watcher
      ensures Valid()
      ensures shutdown <==> old(shutdown) || (!persistent && live == 0)
      ensures drainPending <==> old(drainPending) || (!persistent && live > 0)
      ensures watcher == if drainPending && !old(drainPending) then Polling else old(watcher)
      ensures State() == AfterLastDisconnect(old(State()))
    {
      if persistent {
        return;
      }
      if live > 0 {
        var start := !drainPending;
        if start {
          drainPending := true;
          watcher := Polling;
        }
        return;
      }
      InitiateShutdown();
    }

    /** One wakeup of awaitSessionDrain. It ends the daemon exactly when neither
        client nor live session is left, and watches on while sessions live. */
    method DrainTick()
      requires watcher == Polling && Valid()
      modifies this`shutdown, this`watcher
      ensures Valid()
      ensures shutdown <==> old(shutdown) || (!persistent && |clients| == 0 && live == 0)
      ensures watcher == if old(shutdown) || live == 0 then Leaving else Polling
      ensures State() == LifeStep(old(State()), Poll)
    {
      if shutdown {
        watcher := Leaving;
        return;
      }
      if live > 0 {
        return;
      }
      if |clients| == 0 {
        InitiateShutdown();
      }
      watcher := Leaving;
    }

    /** Its deferred exit. */
    method DrainExit()
      requires watcher == Leaving && Valid()
      modifies this`drainPending, this`watcher
      ensures Valid() && !drainPending && watcher == Off
      ensures State() == LifeStep(old(State()), Clear)
    {
      drainPending := false;
      watcher := Off;
    }
  }
}
