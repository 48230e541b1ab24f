/** The request handlers themselves (internal/daemon/server.go), with every other
    actor free to run between two of their steps. Each atomic action is matched
    by one step of the session step system. */
module Daemon {
  import opened Registry
  import opened Sessions
  import opened Wrappers

  lemma StepAt(ws: seq<World>, es: seq<Event>, k: nat)
    requires Run(ws, es) && k < |es|
    ensures Enabled(ws[k], es[k]) && ws[k + 1] == Next(ws[k], es[k])
  {
    hide Enabled, Next;
  }

  lemma RunLength(ws: seq<World>, es: seq<Event>)
    requires Run(ws, es)
    ensures |ws| == |es| + 1
  {
  }

  lemma {:induction false} DeadGrows(ws: seq<World>, es: seq<Event>, i: nat, j: nat)
    requires Run(ws, es) && i <= j <= |es|
    ensures ws[i].dead <= ws[j].dead && (ws[i].shutdown ==> ws[j].shutdown)
    decreases j
  {
    hide *;
    RunLength(ws, es);
    if i < j {
      DeadGrows(ws, es, i, j - 1);
      StepAt(ws, es, j - 1);
      StepKeepsDead(ws[j - 1], es[j - 1]);
    }
  }

  lemma StepKeepsDead(w: World, e: Event)
    requires Enabled(w, e)
    ensures w.dead <= Next(w, e).dead && (w.shutdown ==> Next(w, e).shutdown)
  {
    hide Matches, Unowned;
  }

  // What was so in some state of a run after the n-th.

  ghost predicate WasFound(ws: seq<World>, n: nat, id: string, found: Option<Session>) {
    exists k :: n < k < |ws| && Lookup(ws[k].reg, id) == found
  }

  ghost predicate WasMatched(ws: seq<World>, n: nat, ticket: string, matches: set<Session>) {
    exists k :: n < k < |ws| && Matches(ws[k].reg, ticket) == matches
  }

  ghost predicate WasGone(ws: seq<World>, n: nat, s: Session) {
    exists k :: n < k < |ws| && !Registered(ws[k].reg, s)
  }

  lemma FoundStays(ws: seq<World>, ws': seq<World>, n: nat, id: string, found: Option<Session>)
    requires ws <= ws' && WasFound(ws, n, id, found)
    ensures WasFound(ws', n, id, found)
  {
    var k :| n < k < |ws| && Lookup(ws[k].reg, id) == found;
    assert ws'[k] == ws[k];
  }

  lemma MatchedStays(ws: seq<World>, ws': seq<World>, n: nat, ticket: string, matches: set<Session>)
    requires ws <= ws' && WasMatched(ws, n, ticket, matches)
    ensures WasMatched(ws', n, ticket, matches)
  {
    hide Matches;
    var k :| n < k < |ws| && Matches(ws[k].reg, ticket) == matches;
    assert ws'[k] == ws[k];
  }

  lemma GoneStays(ws: seq<World>, ws': seq<World>, n: nat, s: Session)
    requires ws <= ws' && WasGone(ws, n, s)
    ensures WasGone(ws', n, s)
  {
    hide Registered;
    var k :| n < k < |ws| && !Registered(ws[k].reg, s);
    assert ws'[k] == ws[k];
  }

  lemma AllGoneStay(ws: seq<World>, ws': seq<World>, n: nat, ss: set<Session>)
    requires ws <= ws' && forall s :: s in ss ==> WasGone(ws, n, s)
    ensures forall s :: s in ss ==> WasGone(ws', n, s)
  {
    hide WasGone;
    forall s | s in ss ensures WasGone(ws', n, s) {
      GoneStays(ws, ws', n, s);
    }
  }

  class Daemon {
    const reg: SessionRegistry
    var shutdown: bool
    /** The next session number; session ids are never reused. */
    var nextSession: nat
    ghost var ws: seq<World>
    ghost var es: seq<Event>

    ghost function Now(): World
      reads this
    {
      if ws == [] then INIT else ws[|ws| - 1]
    }

    /** The run so far ends in the registry and the flag as they are. */
    ghost predicate Valid()
      reads this, reg, reg.v
    {
      && Run(ws, es)
      && Now().reg == reg.Map() && Now().shutdown == shutdown
      && forall s :: s in Now().forked ==> |s.id| < nextSession
    }

    ghost predicate At(o: nat, op: Op)
      reads this
    {
      o in Now().ops && Now().ops[o] == op
    }

    /** Nothing of the run up to here was rewritten. */
    twostate predicate Continues()
      reads this
    {
      old(ws) <= ws && old(es) <= es
    }

    /** Who has died stays dead, and the flag stays up. */
    twostate lemma DeadStays()
      requires old(Valid()) && Valid() && Continues()
      ensures old(Now().dead) <= Now().dead && (old(shutdown) ==> shutdown)
    {
      DeadGrows(ws, es, |old(es)|, |es|);
    }

    constructor ()
      ensures Valid() && fresh(reg) && fresh(reg.v) && es == [] && !shutdown
    {
      var r := new SessionRegistry();
      reg := r;
      shutdown, nextSession := false, 0;
      ws, es := [INIT], [];
    }

    /** Records that the step e was taken. */
    ghost method Did(e: Event)
      requires Run(ws, es) && Enabled(Now(), e)
      modifies this`ws, this`es
      ensures Run(ws, es) && Continues()
      ensures Now() == Next(old(Now()), e) && es == old(es) + [e] && ws == old(ws) + [Now()]
    {
      ws, es := Extend(ws, es, e);
    }

    /** Actor o moves on its own; the registry and the flag stay. */
    ghost method Moves(o: nat, pick: Session)
      requires Valid() && CanAdvance(Now(), o, pick)
      requires var e := Outcome(Now(), Now().ops[o], pick);
               e.reg == Now().reg && e.forked == Now().forked
      modifies this`ws, this`es
      ensures Valid() && Continues() && At(o, old(Outcome(Now(), Now().ops[o], pick).op))
    {
      hide Run, Outcome;
      Did(Advance(o, pick));
    }

    /** Other actors take any number of steps; actor o does not move. */
    method Yield(ghost o: nat, ghost op: Op)
      requires Valid() && At(o, op)
      modifies this, reg
      ensures Valid() && Continues() && At(o, op)
    {
    }

    lemma RegistryIsKeyed()
      requires Valid()
      ensures Keyed(reg.Map())
    {
      RunKeepsInv(ws, es, |es|);
    }

    // ---- Atomic actions ----

    /** A request arrives; others may run before it is looked at. */
    method Begin(ghost o: nat, ghost request: Op)
      requires Valid() && o !in Now().ops && (request.SpawnEntered? || request.KillEntered? || request.TicketEntered?)
      modifies this, reg
      ensures Valid() && Continues() && At(o, request)
      ensures |es| > |old(es)| && es[|old(es)|] == Enter(o, request)
    {
      hide Run;
      Did(Enter(o, request));
      Yield(o, request);
    }

    method Gate(ghost o: nat, ticket: string) returns (open: bool)
      requires Valid() && At(o, SpawnEntered(ticket))
      modifies this`ws, this`es
      ensures Valid() && Continues() && open == (!old(shutdown) && ticket != "")
      ensures At(o, if open then SpawnGated(ticket) else SpawnDone(ticket, None))
    {
      hide Run;
      open := !shutdown && ticket != "";
      Moves(o, Session(0, "", ""));
    }

    method LookUp(ghost o: nat, ticket: string) returns (existing: Option<Session>)
      requires Valid() && At(o, SpawnGated(ticket)) && ticket != ""
      modifies this`ws, this`es
      ensures Valid() && Continues()
      ensures At(o, if existing.Some? then SpawnDone(ticket, existing) else SpawnMissed(ticket))
    {
      hide Run;
      RegistryIsKeyed();
      existing := reg.FindByTicket(ticket);
      Moves(o, if existing.Some? then existing.value else Session(0, "", ""));
    }

    /** NewSession: forks a child, or fails. */
    method Fork(ghost o: nat, ticket: string, startFails: bool) returns (sess: Option<Session>)
      requires Valid() && At(o, SpawnMissed(ticket))
      modifies this`ws, this`es, this`nextSession
      ensures Valid() && Continues() && sess.None? == startFails
      ensures At(o, if startFails then SpawnDone(ticket, None) else SpawnForked(sess.value))
      ensures sess.Some? ==> sess.value.ticketID == ticket
    {
      hide Run;
      if startFails {
        Did(ForkFails(o));
        return None;
      }
      var s := Session(nextSession, seq(nextSession, _ => 'x'), ticket);
      nextSession := nextSession + 1;
      Did(Advance(o, s));
      return Some(s);
    }

    method StoreIfNoTicket(ghost o: nat, sess: Session) returns (winner: Session, stored: bool)
      requires Valid() && At(o, SpawnForked(sess)) && sess.ticketID != ""
      modifies this`ws, this`es, reg
      ensures Valid() && Continues()
      ensures At(o, if stored then SpawnStored(sess) else SpawnLost(sess, winner))
    {
      hide Run;
      RegistryIsKeyed();
      winner, stored := reg.StoreIfNoTicket(sess.ticketID, sess.id, sess);
      Did(Advance(o, winner));
    }

    method Recheck(ghost o: nat, sess: Session) returns (raced: bool)
      requires Valid() && At(o, SpawnStored(sess))
      modifies this`ws, this`es
      ensures Valid() && Continues() && raced == old(shutdown)
      ensures At(o, if raced then SpawnRaced(sess) else SpawnDone(sess.ticketID, Some(sess)))
    {
      hide Run;
      raced := shutdown;
      Moves(o, sess);
    }

    method DeleteIf(ghost o: nat, sess: Session)
      requires Valid() && At(o, SpawnRaced(sess))
      modifies this`ws, this`es, reg
      ensures Valid() && Continues() && At(o, SpawnUndone(sess))
      ensures !Registered(reg.Map(), sess) && |es| > |old(es)|
    {
      hide Run;
      var _ := reg.DeleteIf(sess.id, sess);
      Did(Advance(o, sess));
    }

    // ---- Handlers ----

    /** Idempotent per ticket: answers with the live owner, or with a new session
        that became the owner. It refuses when the shutdown has begun before it, and
        only for a shutdown, the empty ticket or a child that does not start. */
    method HandleSpawn(ghost o: nat, ticket: string, startFails: bool) returns (reply: Option<Session>)
      requires Valid() && o !in Now().ops
      modifies this, reg
      ensures Valid() && Continues() && At(o, SpawnDone(ticket, reply))
      ensures ticket == "" || old(shutdown) ==> reply.None?
      ensures reply.None? ==> ticket == "" || startFails || shutdown
      ensures reply.Some? ==> exists k :: |old(es)| < k <= |es| && Owns(ws[k].reg, ticket, reply.value)
    {
      hide Run, Outcome, Next, Enabled, Valid, At;
      Begin(o, SpawnEntered(ticket));
      DeadStays();
      reply := Spawn(o, ticket, startFails);
      if reply.Some? {
        OwnedWhenAnswered(o, ticket, |old(es)|, reply.value);
      }
    }

    lemma OwnedWhenAnswered(o: nat, ticket: string, begin: nat, s: Session)
      requires Valid() && begin < |es| && es[begin] == Enter(o, SpawnEntered(ticket))
      requires At(o, SpawnDone(ticket, Some(s)))
      ensures exists k :: begin < k <= |es| && Owns(ws[k].reg, ticket, s)
    {
      AnswerOwnedDuringCall(ws, es, o, ticket, begin, |es|, s);
    }

    method Spawn(ghost o: nat, ticket: string, startFails: bool) returns (reply: Option<Session>)
      requires Valid() && At(o, SpawnEntered(ticket))
      modifies this, reg
      ensures Valid() && Continues() && At(o, SpawnDone(ticket, reply))
      ensures ticket == "" || old(shutdown) ==> reply.None?
      ensures reply.None? ==> ticket == "" || startFails || shutdown
    {
      hide Run, Outcome, Next, Enabled, Valid, At;
      var open := Gate(o, ticket);
      if !open {
        return None;
      }
      Yield(o, SpawnGated(ticket));
      var existing := LookUp(o, ticket);
      if existing.Some? {
        return existing;
      }
      Yield(o, SpawnMissed(ticket));
      var built := Fork(o, ticket, startFails);
      if built.None? {
        return None;
      }
      Yield(o, SpawnForked(built.value));
      reply := Settle(o, built.value);
    }

    /** Registers a freshly forked session, or gives it up. */
    method Settle(ghost o: nat, sess: Session) returns (reply: Option<Session>)
      requires Valid() && At(o, SpawnForked(sess)) && sess.ticketID != ""
      modifies this, reg
      ensures Valid() && Continues() && At(o, SpawnDone(sess.ticketID, reply))
      ensures reply == Some(sess) || sess in Now().dead
      ensures reply.None? ==> WasGone(ws, |old(es)|, sess) && shutdown
    {
      hide Run, Outcome, Next, Enabled, Valid, At, WasGone;
      var winner, stored := StoreIfNoTicket(o, sess);
      if !stored {
        Yield(o, SpawnLost(sess, winner));
        Kill(o, SpawnLost(sess, winner), sess);
        return Some(winner);
      }
      Yield(o, SpawnStored(sess));
      var raced := Recheck(o, sess);
      label Rechecked:
      if raced {
        Yield(o, SpawnRaced(sess));
        DeleteIf(o, sess);
        GoneNow(|old(es)|, sess);
        ghost var before := ws;
        Yield(o, SpawnUndone(sess));
        Kill(o, SpawnUndone(sess), sess);
        GoneStays(before, ws, |old(es)|, sess);
        DeadStays@Rechecked();
        return None;
      }
      return Some(sess);
    }

    /** Terminates the session that the actor owes. */
    method Kill(ghost o: nat, ghost op: Op, sess: Session)
      requires Valid() && At(o, op) && (op == SpawnUndone(sess) || (op.SpawnLost? && op.sess == sess))
      modifies this`ws, this`es
      ensures Valid() && Continues()
      ensures At(o, SpawnDone(sess.ticketID, if op.SpawnLost? then Some(op.winner) else None))
      ensures sess in Now().dead
    {
      hide Run;
      Did(Advance(o, sess));
    }

    /** Removes by id whatever was found under it, then kills it; with nothing found
        it does nothing. It is over when the kill it started has ended. */
    method HandleKill(ghost o: nat, id: string) returns (found: Option<Session>)
      requires Valid() && o !in Now().ops
      modifies this, reg
      ensures Valid() && Continues() && At(o, Finished)
      ensures WasFound(ws, |old(es)|, id, found)
      ensures found.Some? ==> found.value in Now().dead && WasGone(ws, |old(es)|, found.value)
    {
      hide Run, Outcome, Next, Enabled, Valid, At, WasGone, WasFound;
      Begin(o, KillEntered(id));
      found := Find(o, id);
      FoundNow(|old(es)|, id);
      ghost var seen := ws;
      if found.Some? {
        Yield(o, KillFound(found.value));
        Unregister(o, found.value);
        GoneNow(|old(es)|, found.value);
        ghost var later := ws;
        Yield(o, Doomed({found.value}));
        KillAll(o, {found.value});
        GoneStays(later, ws, |old(es)|, found.value);
      }
      FoundStays(seen, ws, |old(es)|, id, found);
    }

    lemma FoundNow(n: nat, id: string)
      requires Valid() && n < |es|
      ensures WasFound(ws, n, id, Lookup(reg.Map(), id))
    {
      assert Lookup(ws[|es|].reg, id) == Lookup(reg.Map(), id);
    }

    lemma GoneNow(n: nat, s: Session)
      requires Valid() && n < |es| && !Registered(reg.Map(), s)
      ensures WasGone(ws, n, s)
    {
      assert !Registered(ws[|es|].reg, s);
    }

    lemma MatchedNow(n: nat, ticket: string)
      requires Valid() && n < |es|
      ensures WasMatched(ws, n, ticket, Matches(reg.Map(), ticket))
    {
      assert Matches(ws[|es|].reg, ticket) == Matches(reg.Map(), ticket);
    }

    method Find(ghost o: nat, id: string) returns (sess: Option<Session>)
      requires Valid() && At(o, KillEntered(id))
      modifies this`ws, this`es
      ensures Valid() && Continues()
      ensures At(o, if sess.Some? then KillFound(sess.value) else Finished)
      ensures sess.Some? ==> sess.value.id == id
      ensures sess == if id in reg.Map() then Some(reg.Map()[id]) else None
    {
      hide Run;
      RegistryIsKeyed();
      sess := reg.Get(id);
      Moves(o, Session(0, "", ""));
    }

    method Unregister(ghost o: nat, sess: Session)
      requires Valid() && At(o, KillFound(sess))
      modifies this`ws, this`es, reg
      ensures Valid() && Continues() && At(o, Doomed({sess})) && !Registered(reg.Map(), sess)
    {
      hide Run;
      reg.Delete(sess.id);
      Did(Advance(o, sess));
    }

    /** Kills the sessions one by one while others run. */
    method KillAll(ghost o: nat, doomed: set<Session>)
      requires Valid() && At(o, Doomed(doomed))
      modifies this, reg
      ensures Valid() && Continues() && At(o, Finished) && doomed <= Now().dead
    {
      hide Run, Outcome, Next, Enabled, Valid, At;
      var rest := doomed;
      while rest != {}
        invariant Valid() && Continues() && At(o, Doomed(rest))
        invariant rest <= doomed && doomed - rest <= Now().dead
      {
        var s :| s in rest;
        label Before:
        KillOne(o, s, rest);
        rest := rest - {s};
        DeadStays@Before();
        label Killed:
        Yield(o, Doomed(rest));
        DeadStays@Killed();
      }
      label Done:
      Finish(o);
      DeadStays@Done();
    }

    method KillOne(ghost o: nat, s: Session, ghost rest: set<Session>)
      requires Valid() && At(o, Doomed(rest)) && s in rest
      modifies this`ws, this`es
      ensures Valid() && Continues() && At(o, Doomed(rest - {s})) && s in Now().dead
    {
      hide Run;
      Did(Advance(o, s));
    }

    method Finish(ghost o: nat)
      requires Valid() && At(o, Doomed({}))
      modifies this`ws, this`es
      ensures Valid() && Continues() && At(o, Finished)
    {
      hide Run;
      Moves(o, Session(0, "", ""));
    }

    /** Unregisters every session of the ticket, then kills them; answers whether
        there was one. */
    method HandleTicketDone(ghost o: nat, ticket: string) returns (killed: bool, matches: set<Session>)
      requires Valid() && o !in Now().ops
      modifies this, reg
      ensures Valid() && Continues() && At(o, Finished)
      ensures killed <==> matches != {}
      ensures if ticket == "" then matches == {} else WasMatched(ws, |old(es)|, ticket, matches)
      ensures matches <= Now().dead
      ensures forall m :: m in matches ==> WasGone(ws, |old(es)|, m)
    {
      hide Run, Outcome, Next, Enabled, Valid, At, WasGone, WasMatched, Matches;
      Begin(o, TicketEntered(ticket));
      if ticket == "" {
        IgnoreEmptyTicket(o);
        return false, {};
      }
      matches := Match(o, ticket);
      MatchedNow(|old(es)|, ticket);
      ghost var seen := ws;
      var left := matches;
      while left != {}
        invariant Valid() && Continues() && left <= matches && At(o, TicketMatched(left, matches))
        invariant seen <= ws && |es| > |old(es)|
        invariant forall m :: m in matches - left ==> WasGone(ws, |old(es)|, m)
      {
        var m :| m in left;
        ghost var before := ws;
        Yield(o, TicketMatched(left, matches));
        UnregisterMatch(o, m, left, matches);
        GoneNow(|old(es)|, m);
        AllGoneStay(before, ws, |old(es)|, matches - left);
        left := left - {m};
      }
      ghost var before := ws;
      MatchesAreDoomed(o, matches);
      KillAll(o, matches);
      AllGoneStay(before, ws, |old(es)|, matches);
      MatchedStays(seen, ws, |old(es)|, ticket, matches);
      return matches != {}, matches;
    }

    ghost method IgnoreEmptyTicket(o: nat)
      requires Valid() && At(o, TicketEntered(""))
      modifies this`ws, this`es
      ensures Valid() && Continues() && At(o, Finished)
    {
      hide Run;
      Moves(o, Session(0, "", ""));
    }

    method Match(ghost o: nat, ticket: string) returns (matches: set<Session>)
      requires Valid() && At(o, TicketEntered(ticket)) && ticket != ""
      modifies this`ws, this`es
      ensures Valid() && Continues() && At(o, TicketMatched(matches, matches))
      ensures matches == Matches(old(reg.Map()), ticket) && reg.Map() == old(reg.Map())
      ensures forall s :: s in matches <==> Owns(old(reg.Map()), ticket, s)
    {
      hide Run;
      RegistryIsKeyed();
      var snap := reg.v.m;
      matches := set id | id in snap && snap[id].ticketID == ticket :: snap[id];
      Moves(o, Session(0, "", ""));
    }

    method UnregisterMatch(ghost o: nat, m: Session, ghost left: set<Session>, ghost matches: set<Session>)
      requires Valid() && At(o, TicketMatched(left, matches)) && m in left
      modifies this`ws, this`es, reg
      ensures Valid() && Continues() && At(o, TicketMatched(left - {m}, matches)) && !Registered(reg.Map(), m)
    {
      hide Run;
      var _ := reg.DeleteIf(m.id, m);
      Did(Advance(o, m));
    }

    ghost method MatchesAreDoomed(o: nat, matches: set<Session>)
      requires Valid() && At(o, TicketMatched({}, matches))
      modifies this`ws, this`es
      ensures Valid() && Continues() && At(o, Doomed(matches))
    {
      hide Run;
      Moves(o, Session(0, "", ""));
    }

    lemma NotEmpty()
      requires Valid()
      ensures ws != []
    {
    }

    method InitiateShutdown(ghost o: nat)
      requires Valid() && At(o, Finished)
      modifies this`shutdown, this`ws, this`es
      ensures Valid() && Continues() && shutdown && At(o, Finished)
      ensures ws == old(ws) + [Next(old(Now()), Event.InitiateShutdown)] && old(ws) != []
    {
      hide Run;
      assert ws != [] by { NotEmpty(); }
      shutdown := true;
      Did(Event.InitiateShutdown);
    }

    /** Drains the registry once shutdown has begun, and kills what it held. */
    method CleanUp(ghost o: nat)
      requires Valid() && shutdown && o !in Now().ops
      modifies this, reg
      ensures Valid() && Continues() && At(o, Finished)
      ensures old(reg.Map()).Values <= Now().dead
    {
      var live := Drain(o);
      hide Run, Outcome, Next, Enabled;
      Yield(o, Doomed(live));
      KillAll(o, live);
    }

    method Drain(ghost o: nat) returns (live: set<Session>)
      requires Valid() && shutdown && o !in Now().ops
      modifies this`ws, this`es, reg
      ensures Valid() && Continues() && At(o, Doomed(live)) && live == old(reg.Map()).Values
      ensures reg.Map() == map[] && Now().cleaned && Now().unflagged == old(Now().unflagged)
    {
      hide Run;
      live := reg.Drain();
      Did(Cleanup(o));
    }

    /** Kills what is registered, answers how many, and only then begins shutdown;
        sessions stored meanwhile are left to the cleanup. */
    method HandleShutdown(ghost o: nat) returns (killed: nat)
      requires Valid() && o !in Now().ops
      modifies this, reg
      ensures Valid() && Continues() && At(o, Finished) && shutdown
      ensures killed == |old(reg.Map()).Values|
      ensures |ws| > 1 && ws[|ws| - 1] == Next(ws[|ws| - 2], Event.InitiateShutdown)
      ensures old(reg.Map()).Values <= ws[|ws| - 2].dead
    {
      hide Run, Outcome, Enabled, Valid, At;
      var live := DrainForShutdown(o);
      killed := |live|;
      KillAll(o, live);
      InitiateShutdown(o);
    }

    method DrainForShutdown(ghost o: nat) returns (live: set<Session>)
      requires Valid() && o !in Now().ops
      modifies this`ws, this`es, reg
      ensures Valid() && Continues() && At(o, Doomed(live)) && live == old(reg.Map()).Values
    {
      hide Run;
      live := reg.Drain();
      Did(ShutdownRequest(o));
    }
  }
}
