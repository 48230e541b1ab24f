/** The client-side view of a session (internal/daemonclient/paneview.go): attach,
    detach, read-loop exit and the polls that wait on the detach channel. */
module PaneView {
  import opened Wrappers

  datatype State = Detached | Unattached | Attached

  /** Channels and connections are numbered in order of creation. closed counts the
      closes of each detach channel; polls are the armed polls by the channel they
      hold; loops are the read loops still running by connection; releasing are the
      connections a finished detach or loop exit is about to close. */
  datatype View = View(
    state: State,
    conn: Option<nat>,
    ch: nat,
    chans: nat,
    closed: multiset<nat>,
    conns: nat,
    open: set<nat>,
    loops: set<nat>,
    releasing: set<nat>,
    dialing: nat,
    polls: multiset<nat>)

  datatype Event =
    | Begin                 // attach passes its first check
    | Fail                  // its dial or handshake fails
    | Finish                // it installs its connection and starts the read loop
    | Detach
    | LoopExit(conn: nat)
    | CloseConn(conn: nat)
    | Arm                   // readNextMsg
    | PollEnds(ch: nat)
    | Refresh(running: bool)

  function Fresh(running: bool): View {
    View(if running then Unattached else Detached, None, 0, 1, multiset{}, 0, {}, {}, {}, 0, multiset{})
  }

  predicate Enabled(v: View, e: Event) {
    match e
    case Begin => v.state != Attached
    case Fail => v.dialing > 0
    case Finish => v.dialing > 0
    case LoopExit(c) => c in v.loops
    case CloseConn(c) => c in v.releasing
    case PollEnds(k) => k in v.polls
    case _ => true
  }

  /** What detach and the owner's handleAttachExit do under the lock. */
  function LetGo(v: View): View {
    v.(conn := None, state := Unattached, closed := v.closed + multiset{v.ch}, ch := v.chans, chans := v.chans + 1)
  }

  function Next(v: View, e: Event): View
    requires Enabled(v, e)
  {
    match e
    case Begin => v.(dialing := v.dialing + 1)
    case Fail => v.(dialing := v.dialing - 1)
    case Finish =>
      var c := v.conns;
      var w := v.(state := Attached, conn := Some(c), conns := c + 1, dialing := v.dialing - 1,
                  open := v.open + {c}, loops := v.loops + {c});
      if v.ch in v.closed then w.(ch := v.chans, chans := v.chans + 1) else w
    case Detach =>
      if v.conn.None? then v else LetGo(v).(releasing := v.releasing + {v.conn.value})
    case LoopExit(c) =>
      (if v.conn == Some(c) then LetGo(v) else v).(loops := v.loops - {c}, releasing := v.releasing + {c})
    case CloseConn(c) => v.(open := v.open - {c}, releasing := v.releasing - {c})
    case Arm => if v.state == Attached then v.(polls := v.polls + multiset{v.ch}) else v
    case PollEnds(k) => v.(polls := v.polls[k := v.polls[k] - 1])
    case Refresh(running) => if v.state == Detached && running then v.(state := Unattached) else v
  }

  /** A poll cannot sleep for good: its channel is closed, or it is the channel the
      attached pane will close when it lets go. */
  predicate Wakeable(v: View, k: nat) {
    k in v.closed || (k == v.ch && v.state == Attached)
  }

  /** The numbers in use have been given out. */
  ghost predicate InRange(v: View) {
    && v.ch < v.chans
    && (v.conn.Some? ==> v.conn.value < v.conns)
    && (forall k :: k in v.closed ==> k < v.chans)
  }

  ghost predicate Inv(v: View) {
    && v.chans == v.ch + 1
    && (forall k :: v.closed[k] == if 0 <= k < v.ch then 1 else 0)
    && (v.state == Attached <==> v.conn.Some?)
    && (forall k <- v.polls :: Wakeable(v, k))
    && (forall c :: c in v.open ==> c in v.loops || c in v.releasing)
    && (forall c :: c in v.loops || c in v.open || c in v.releasing ==> c < v.conns)
    && (v.conn.Some? ==> v.conn.value in v.loops && v.conn.value in v.open && v.conn.value !in v.releasing)
    && (forall c :: c in v.loops && c in v.releasing ==> v.conn != Some(c))
  }

  lemma StepKeepsInv(v: View, e: Event)
    requires Inv(v) && Enabled(v, e)
    ensures Inv(Next(v, e))
  {
    var w := Next(v, e);
    forall k <- w.polls ensures Wakeable(w, k) {
      assert k in v.polls || (e == Arm && v.state == Attached && k == v.ch);
      assert k in v.polls ==> Wakeable(v, k);
    }
  }

  lemma InvGives(v: View)
    requires Inv(v)
    ensures InRange(v) && v.ch !in v.closed
    ensures forall c :: c in v.loops || c in v.releasing ==> c < v.conns
    ensures v.conn.Some? <==> v.state == Attached
  {
    assert v.closed[v.ch] == 0;
  }

  lemma FinishKeepsChannel(v: View)
    requires Inv(v) && v.dialing > 0
    ensures v.ch !in v.closed && Inv(Next(v, Finish)) && Next(v, Finish).ch == v.ch
  {
    StepKeepsInv(v, Finish);
    assert v.closed[v.ch] == 0;
  }

  /** vs is the run of es from a new view. */
  ghost predicate Run(vs: seq<View>, es: seq<Event>) {
    && |vs| == |es| + 1
    && (exists running :: vs[0] == Fresh(running))
    && forall i :: 0 <= i < |es| ==> Enabled(vs[i], es[i]) && vs[i + 1] == Next(vs[i], es[i])
  }

  lemma {:induction false} RunKeepsInv(vs: seq<View>, es: seq<Event>, n: nat)
    requires Run(vs, es) && n < |vs|
    ensures Inv(vs[n])
    decreases n
  {
    if n > 0 {
      RunKeepsInv(vs, es, n - 1);
      StepKeepsInv(vs[n - 1], es[n - 1]);
    }
  }

  /** In every reachable state the detach channel is open, none was closed twice,
      the state is Attached exactly when a connection is installed, and no armed
      poll can sleep for good; so attach never has a closed channel to replace. */
  lemma NoPollParks(vs: seq<View>, es: seq<Event>, n: nat)
    requires Run(vs, es) && n < |vs|
    ensures vs[n].ch !in vs[n].closed
    ensures forall k :: vs[n].closed[k] <= 1
    ensures vs[n].state == Attached <==> vs[n].conn.Some?
    ensures forall k <- vs[n].polls :: k in vs[n].closed || (k == vs[n].ch && vs[n].state == Attached)
    ensures n < |es| && es[n] == Finish ==> vs[n + 1].ch == vs[n].ch
  {
    RunKeepsInv(vs, es, n);
    var v := vs[n];
    assert v.closed[v.ch] == 0;
    forall k <- v.polls ensures k in v.closed || (k == v.ch && v.state == Attached) {
      assert Wakeable(v, k);
    }
  }

  // ---- What a run amounts to ----

  /** How often e is among the events from m to n. */
  function Count(es: seq<Event>, m: nat, n: nat, e: Event): nat
    requires m <= n <= |es|
    decreases n
  {
    if n == m then 0 else Count(es, m, n - 1, e) + if es[n - 1] == e then 1 else 0
  }

  /** How many polls the first n events armed on channel k. */
  function Armed(vs: seq<View>, es: seq<Event>, n: nat, k: nat): nat
    requires n <= |es| < |vs|
  {
    if n == 0 then 0
    else Armed(vs, es, n - 1, k) +
         if es[n - 1] == Arm && vs[n - 1].state == Attached && vs[n - 1].ch == k then 1 else 0
  }

  lemma RunStep(vs: seq<View>, es: seq<Event>, i: nat)
    requires Run(vs, es) && i < |es|
    ensures Enabled(vs[i], es[i]) && vs[i + 1] == Next(vs[i], es[i])
  {
  }

  lemma StepCounts(v: View, e: Event, k: nat)
    requires Enabled(v, e)
    ensures Next(v, e).conns == v.conns + if e == Finish then 1 else 0
    ensures Next(v, e).dialing == v.dialing + if e == Begin then 1 else if e in {Fail, Finish} then -1 else 0
    ensures Next(v, e).polls[k] == v.polls[k] +
            if e == Arm && v.state == Attached && v.ch == k then 1 else if e == PollEnds(k) then -1 else 0
  {
  }

  /** The polls are those armed while attached, each on the channel of that moment, and
      not yet over; the attaches under way are those begun and neither failed nor
      finished. */
  lemma {:induction false} RunAddsUp(vs: seq<View>, es: seq<Event>, n: nat, k: nat)
    requires Run(vs, es) && n < |vs|
    ensures vs[n].polls[k] == Armed(vs, es, n, k) - Count(es, 0, n, PollEnds(k))
    ensures vs[n].dialing == Count(es, 0, n, Begin) - Count(es, 0, n, Fail) - Count(es, 0, n, Finish)
    ensures vs[n].conns == Count(es, 0, n, Finish)
  {
    if n > 0 {
      RunAddsUp(vs, es, n - 1, k);
      RunStep(vs, es, n - 1);
      hide Run, Next, Enabled;
      StepCounts(vs[n - 1], es[n - 1], k);
    }
  }

  lemma StepMovesConns(v: View, e: Event, c: nat)
    requires Enabled(v, e)
    ensures var w := Next(v, e);
            && (c < v.conns ==> (c in w.loops <==> c in v.loops && e != LoopExit(c)))
            && (c < v.conns ==> (c in w.open <==> c in v.open && e != CloseConn(c)))
            && (c in v.releasing && e != CloseConn(c) ==> c in w.releasing)
            && (e == LoopExit(c) || (e == Detach && v.conn == Some(c)) ==> c in w.releasing)
            && (e == Finish ==> v.conns in w.loops && v.conns in w.open && w.conn == Some(v.conns))
            && w.conns >= v.conns && (e == Finish ==> w.conns > v.conns)
  {
  }

  /** The connection that the attach at i installs has its loop running until that
      exits, and is open until it is closed. */
  lemma {:induction false} ConnLife(vs: seq<View>, es: seq<Event>, i: nat, n: nat)
    requires Run(vs, es) && i < n < |vs| && es[i] == Finish
    ensures vs[i].conns < vs[n].conns
    ensures vs[i].conns in vs[n].loops <==> Count(es, i + 1, n, LoopExit(vs[i].conns)) == 0
    ensures vs[i].conns in vs[n].open <==> Count(es, i + 1, n, CloseConn(vs[i].conns)) == 0
  {
    RunStep(vs, es, n - 1);
    hide Run, Next, Enabled;
    StepMovesConns(vs[n - 1], es[n - 1], vs[i].conns);
    if n > i + 1 {
      ConnLife(vs, es, i, n - 1);
    }
  }

  /** A detach, and a loop that exits, owe their connection a close until it comes. */
  lemma {:induction false} LetGoMeansClose(vs: seq<View>, es: seq<Event>, i: nat, n: nat, c: nat)
    requires Run(vs, es) && i < n < |vs|
    requires es[i] == LoopExit(c) || (es[i] == Detach && vs[i].conn == Some(c))
    requires Count(es, i + 1, n, CloseConn(c)) == 0
    ensures c in vs[n].releasing
  {
    RunStep(vs, es, n - 1);
    hide Run, Next, Enabled;
    StepMovesConns(vs[n - 1], es[n - 1], c);
    if n > i + 1 {
      LetGoMeansClose(vs, es, i, n - 1, c);
    }
  }

  predicate AllWoken(v: View) {
    forall k :: k in v.polls ==> k in v.closed
  }

  /** Every poll armed before a detach has woken or is about to. */
  lemma DetachWakesAll(vs: seq<View>, es: seq<Event>, n: nat)
    requires Run(vs, es) && n < |es| && es[n] == Detach
    ensures AllWoken(vs[n + 1])
  {
    RunKeepsInv(vs, es, n);
    RunKeepsInv(vs, es, n + 1);
    var w := vs[n + 1];
    assert forall k :: k in w.polls ==> Wakeable(w, k);
  }

  /** Once every read loop has returned and the closes under way are done, no
      connection is left open. */
  lemma NoConnLeaks(vs: seq<View>, es: seq<Event>, n: nat)
    requires Run(vs, es) && n < |vs|
    requires vs[n].loops == {} && vs[n].releasing == {}
    ensures vs[n].open == {} && vs[n].conn == None && vs[n].state != Attached
  {
    RunKeepsInv(vs, es, n);
  }

  /** Events that may end the attach over connection c. */
  predicate Ends(e: Event, c: nat) {
    e == Detach || e == LoopExit(c) || e == Finish
  }

  /** An attach survives everything else, in particular the exit of any loop left
      over from an earlier attach: the pane keeps its connection, which stays open
      with its own loop running, and its detach channel. */
  lemma {:induction false} StaleLoopsAreHarmless(vs: seq<View>, es: seq<Event>, c: nat, m: nat, n: nat)
    requires Run(vs, es) && m <= n < |vs|
    requires vs[m].conn == Some(c)
    requires forall i :: m <= i < n ==> !Ends(es[i], c)
    ensures vs[n].conn == Some(c) && vs[n].state == Attached && vs[n].ch == vs[m].ch
    ensures c in vs[n].open && c in vs[n].loops
    decreases n
  {
    RunKeepsInv(vs, es, n);
    if m < n {
      StaleLoopsAreHarmless(vs, es, c, m, n - 1);
    }
  }

  // ---- The view ----

  /** A channel used only to be closed. */
  class Chan {
    var closed: bool

    constructor ()
      ensures !closed
    {
      closed := false;
    }

    method Close()
      requires !closed
      modifies this
      ensures closed
    {
      closed := true;
    }
  }

  class Conn {
    var open: bool

    constructor ()
      ensures open
    {
      open := true;
    }

    method Close()
      modifies this
      ensures !open
    {
      open := false;
    }
  }

  ghost predicate AllDistinct<T>(s: seq<T>) {
    forall i, j :: 0 <= i < j < |s| ==> s[i] != s[j]
  }

  datatype Begun = Proceed | AlreadyAttached | NoSession

  class PaneView {
    const sessionID: string
    var state: State        // guarded by p.mu
    var attachConn: Conn?   // guarded by p.mu
    var detachCh: Chan      // guarded by p.mu
    ghost var conns: seq<Conn> // every connection installed so far
    ghost var view: View

    /** The fields are those of the modelled view. */
    ghost predicate Linked()
      reads this, detachCh, attachConn
    {
      && InRange(view)
      && |conns| == view.conns && AllDistinct(conns)
      && state == view.state
      && (detachCh.closed <==> view.ch in view.closed)
      && (attachConn == null <==> view.conn.None?)
      && (attachConn != null ==> attachConn == conns[view.conn.value] && attachConn.open)
    }

    ghost predicate Valid()
      reads this, detachCh, attachConn
    {
      Inv(view) && Linked()
    }

    constructor (sessionID: string, running: bool)
      ensures Valid() && view == Fresh(running) && this.sessionID == sessionID
    {
      var ch := new Chan();
      this.sessionID := sessionID;
      state := if running then Unattached else Detached;
      attachConn, detachCh := null, ch;
      conns, view := [], Fresh(running);
    }

    method BeginAttach() returns (r: Begun)
      requires Valid()
      modifies this`view
      ensures Valid()
      ensures r == if state == Attached then AlreadyAttached else if sessionID == "" then NoSession else Proceed
      ensures view == if r == Proceed then Next(old(view), Begin) else old(view)
    {
      if state == Attached {
        return AlreadyAttached;
      }
      if sessionID == "" {
        return NoSession;
      }
      view := Next(view, Begin);
      return Proceed;
    }

    /** attach's last critical section, for the connection it dialled: replaces a
        closed detach channel, which in a reachable state there never is. */
    method FinishAttach(conn: Conn)
      requires Linked() && view.dialing > 0 && conn.open && conn !in conns
      modifies this`state, this`attachConn, this`detachCh, this`conns, this`view
      ensures Linked() && view == Next(old(view), Finish)
      ensures conns == old(conns) + [conn] && attachConn == conn && state == Attached
      ensures !detachCh.closed && (old(Inv(view)) ==> Valid() && detachCh == old(detachCh))
    {
      hide Inv;
      if Inv(view) {
        FinishKeepsChannel(view);
        InvGives(Next(view, Finish));
      }
      state, attachConn := Attached, conn;
      conns := conns + [conn];
      if detachCh.closed {
        detachCh := new Chan();
      }
      view := Next(view, Finish);
    }

    /** Clears the connection, marks the pane unattached, closes the channel and
        swaps in a fresh one. */
    method Release()
      requires Linked() && attachConn != null && view.ch !in view.closed
      modifies this`state, this`attachConn, this`detachCh, this`view, detachCh
      ensures Linked() && view == LetGo(old(view)) && attachConn == null && state == Unattached
      ensures old(detachCh).closed && fresh(detachCh)
    {
      attachConn, state := null, Unattached;
      detachCh.Close();
      detachCh := new Chan();
      view := LetGo(view);
    }

    /** detach up to the unlock; the caller then closes the connection. */
    method DetachUnderLock() returns (conn: Conn?)
      requires Valid()
      modifies this`state, this`attachConn, this`detachCh, this`view, detachCh
      ensures Valid() && view == Next(old(view), Event.Detach)
      ensures conn == old(attachConn)
      ensures attachConn == null && (conn != null ==> state == Unattached)
      ensures conn != null ==> old(detachCh).closed && fresh(detachCh)
      ensures conn == null ==> state == old(state) && detachCh == old(detachCh)
    {
      conn := attachConn;
      if conn == null {
        return;
      }
      StepKeepsInv(view, Event.Detach);
      InvGives(view);
      hide Inv;
      ghost var before := view;
      Release();
      view := Next(before, Event.Detach);
    }

    /** handleAttachExit up to the unlock, for the loop of connection number c;
        owned says whether that was still the installed one. */
    method HandleAttachExit(ownConn: Conn, ghost c: nat) returns (owned: bool)
      requires Valid() && c in view.loops && c < |conns| && conns[c] == ownConn
      modifies this`state, this`attachConn, this`detachCh, this`view, detachCh
      ensures Valid() && view == Next(old(view), LoopExit(c))
      ensures owned <==> old(attachConn) == ownConn
      ensures owned ==> attachConn == null && state == Unattached && old(detachCh).closed && fresh(detachCh)
      ensures !owned ==> attachConn == old(attachConn) && state == old(state) && detachCh == old(detachCh)
    {
      StepKeepsInv(view, LoopExit(c));
      InvGives(view);
      hide Inv;
      ghost var before := view;
      owned := attachConn == ownConn;
      assert owned <==> view.conn == Some(c);
      if owned {
        Release();
      }
      view := Next(before, LoopExit(c));
    }

    /** The close after the unlock. */
    method CloseOwn(conn: Conn, ghost c: nat)
      requires Valid() && c in view.releasing && c < |conns| && conns[c] == conn
      modifies this`view, conn
      ensures Valid() && view == Next(old(view), CloseConn(c)) && !conn.open
    {
      StepKeepsInv(view, CloseConn(c));
      InvGives(view);
      InvGives(Next(view, CloseConn(c)));
      hide Inv;
      conn.Close();
      view := Next(view, CloseConn(c));
    }

    /** Arms a poll only while attached, on the channel current at that moment. */
    method ReadNextMsg() returns (poll: Option<Chan>)
      requires Valid()
      modifies this`view
      ensures Valid() && view == Next(old(view), Arm)
      ensures poll == if state == Attached then Some(detachCh) else None
    {
      StepKeepsInv(view, Arm);
      InvGives(view);
      InvGives(Next(view, Arm));
      hide Inv;
      poll := if state == Attached then Some(detachCh) else None;
      view := Next(view, Arm);
    }

    method RefreshInfo(running: bool)
      requires Valid()
      modifies this`state, this`view
      ensures Valid() && view == Next(old(view), Refresh(running))
      ensures state == if old(state) == Detached && running then Unattached else old(state)
    {
      StepKeepsInv(view, Refresh(running));
      InvGives(view);
      InvGives(Next(view, Refresh(running)));
      hide Inv;
      if state == Detached && running {
        state := Unattached;
      }
      view := Next(view, Refresh(running));
    }
  }
}
