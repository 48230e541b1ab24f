/** The accept-error exit (internal/daemon/server.go:549-551) drains without setting
    the shutdown flag: exactly when such a drain can leave an orphan. No connection
    handler is left by then, so no new spawn is entered; a spawn may still be under
    way whose handler was given up at its deadline. */
module Orphans {
  import opened Registry
  import opened Sessions
  import opened Wrappers

  /** A spawn that has yet to store its session. */
  predicate BeforeStore(op: Op) {
    op.SpawnEntered? || op.SpawnGated? || op.SpawnMissed? || op.SpawnForked?
  }

  /** One that can still store a living session. */
  predicate Hazard(w: World, op: Op) {
    match op
    case SpawnEntered(t) => t != ""
    case SpawnForked(s) => s !in w.dead
    case _ => BeforeStore(op)
  }

  predicate SpawnEnters(e: Event) {
    e.Enter? && e.request.SpawnEntered?
  }

  predicate NoSpawnFrom(es: seq<Event>, d: nat) {
    forall i :: d <= i < |es| ==> !SpawnEnters(es[i])
  }

  // ---- Harmless drains ----

  predicate Contained(w: World) {
    && (forall id :: id in w.reg ==> w.reg[id] in w.dead)
    && (forall p :: p in w.ops ==> !Hazard(w, w.ops[p]))
  }

  predicate Emptied(w: World) {
    w.reg == map[] && forall p :: p in w.ops ==> !BeforeStore(w.ops[p])
  }

  lemma ContainedStays(w: World, e: Event)
    requires Contained(w) && Enabled(w, e) && !SpawnEnters(e)
    ensures Contained(Next(w, e))
  {
    hide Matches, Unowned;
    match e
    case Advance(o, pick) =>
      ContainedOutcome(w, o, pick);
      hide Outcome, Contained;
      ContainedIf(w, Next(w, e), o);
    case Enter(o, _) => ContainedIf(w, Next(w, e), o);
    case ForkFails(_) => assert false;
    case ShutdownRequest(o) => ContainedIf(w, Next(w, e), o);
    case Cleanup(o) => ContainedIf(w, Next(w, e), o);
    case AcceptFailed(o) => ContainedIf(w, Next(w, e), o);
    case _ => ContainedRest(w, Next(w, e));
  }

  lemma ContainedOutcome(w: World, o: nat, pick: Session)
    requires Contained(w) && o in w.ops
    ensures var e := Outcome(w, w.ops[o], pick);
            && w.dead <= e.dead && (forall id :: id in e.reg ==> e.reg[id] in e.dead)
            && !Hazard(w.(dead := e.dead), e.op)
  {
    hide Unowned, Matches;
    assert !Hazard(w, w.ops[o]);
  }

  lemma ContainedIf(w: World, w': World, o: nat)
    requires Contained(w) && SameExcept(w, w', o) && w.dead <= w'.dead
    requires !Hazard(w', w'.ops[o]) && forall id :: id in w'.reg ==> w'.reg[id] in w'.dead
    ensures Contained(w')
  {
    forall p | p in w'.ops ensures !Hazard(w', w'.ops[p]) {
      if p != o {
        assert p in w.ops && !Hazard(w, w.ops[p]);
      }
    }
  }

  lemma ContainedRest(w: World, w': World)
    requires Contained(w) && w'.ops == w.ops && w.dead <= w'.dead
    requires forall id :: id in w'.reg ==> id in w.reg && w'.reg[id] == w.reg[id]
    ensures Contained(w')
  {
    forall p | p in w'.ops ensures !Hazard(w', w'.ops[p]) {
      assert !Hazard(w, w.ops[p]);
    }
  }

  lemma EmptiedStays(w: World, e: Event)
    requires Emptied(w) && Enabled(w, e) && !SpawnEnters(e)
    ensures Emptied(Next(w, e))
  {
    hide Unowned, Matches;
  }

  /** After a drain that found no hazard, nothing alive is ever registered again and
      nothing forked outlives the actors; if no spawn at all had yet to store, the
      registry stays empty. */
  lemma {:induction false} HarmlessDrain(ws: seq<World>, es: seq<Event>, d: nat, n: nat)
    requires Run(ws, es) && d < n <= |es| && es[d].AcceptFailed? && NoSpawnFrom(es[..n], d)
    requires forall p :: p in ws[d].ops ==> !Hazard(ws[d], ws[d].ops[p])
    ensures Contained(ws[n])
    ensures Quiet(ws[n]) ==> ws[n].forked <= ws[n].dead
    ensures (forall p :: p in ws[d].ops ==> !BeforeStore(ws[d].ops[p])) ==> Emptied(ws[n])
    decreases n
  {
    if n > d + 1 {
      assert es[..n - 1] == es[..n][..n - 1];
      HarmlessDrain(ws, es, d, n - 1);
      assert !SpawnEnters(es[..n][n - 1]);
      hide Contained, Emptied, Quiet, Enabled, Next;
      ContainedStays(ws[n - 1], es[n - 1]);
      if Emptied(ws[n - 1]) {
        EmptiedStays(ws[n - 1], es[n - 1]);
      }
    }
    QuietIsDead(ws, es, n);
  }

  lemma QuietIsDead(ws: seq<World>, es: seq<Event>, n: nat)
    requires Run(ws, es) && n <= |es|
    ensures Contained(ws[n]) && Quiet(ws[n]) ==> ws[n].forked <= ws[n].dead
  {
    RunKeepsInv(ws, es, n);
    forall s | s in ws[n].forked ensures Accounted(ws[n], s) {
    }
  }

  // ---- Harmful drains ----

  /** A forked session that is not stored yet belongs to its spawn alone. */
  lemma {:induction false} ForkIsExclusive(ws: seq<World>, es: seq<Event>, n: nat, p: nat, s: Session)
    requires Run(ws, es) && n <= |es|
    requires p in ws[n].ops && ws[n].ops[p] == SpawnForked(s)
    ensures !Registered(ws[n].reg, s) && Untouched(ws[n], p, s)
    decreases n
  {
    if n > 0 {
      var w, e := ws[n - 1], es[n - 1];
      RunKeepsInv(ws, es, n - 1);
      assert Enabled(w, e) && ws[n] == Next(w, e);
      if p in w.ops && w.ops[p] == SpawnForked(s) {
        ForkIsExclusive(ws, es, n - 1, p, s);
      }
      hide *;
      ExclusiveStep(w, e, p, s);
    }
  }

  lemma ExclusiveStep(w: World, e: Event, p: nat, s: Session)
    requires Inv(w) && Enabled(w, e)
    requires p in w.ops && w.ops[p] == SpawnForked(s) ==> !Registered(w.reg, s) && Untouched(w, p, s)
    requires p in Next(w, e).ops && Next(w, e).ops[p] == SpawnForked(s)
    ensures !Registered(Next(w, e).reg, s) && Untouched(Next(w, e), p, s)
  {
    hide Inv, Next, Enabled, Untouched, Registered;
    if p in w.ops && w.ops[p] == SpawnForked(s) {
      StaysExclusive(w, e, p, s);
    } else {
      FreshIsExclusive(w, e, p, s);
    }
  }

  /** No other actor has s in hand. */
  ghost predicate Untouched(w: World, p: nat, s: Session) {
    forall q :: q in w.ops && q != p ==> !Mentions(w.ops[q], s)
  }

  lemma FreshIsExclusive(w: World, e: Event, p: nat, s: Session)
    requires Inv(w) && Enabled(w, e)
    requires p in Next(w, e).ops && Next(w, e).ops[p] == SpawnForked(s) && !(p in w.ops && w.ops[p] == SpawnForked(s))
    ensures !Registered(Next(w, e).reg, s) && Untouched(Next(w, e), p, s)
  {
    assert e.Advance? && e.o == p && FreshSession(w, s);
    FreshIsUntouched(w, p, s);
  }

  lemma FreshIsUntouched(w: World, p: nat, s: Session)
    requires Inv(w) && FreshSession(w, s)
    ensures s !in w.forked && !Registered(w.reg, s) && Untouched(w, p, s)
  {
    forall q | q in w.ops && q != p ensures !Mentions(w.ops[q], s) {
      assert OpShape(w, w.ops[q]);
    }
  }

  /** An actor without s in hand cannot lay hands on it while it is unregistered. */
  lemma OutcomeLeavesOut(w: World, op: Op, pick: Session, s: Session)
    requires Keyed(w.reg) && s in w.forked && !Registered(w.reg, s) && !Mentions(op, s)
    requires op.SpawnMissed? ==> FreshSession(w, pick)
    requires op.TicketMatched? ==> op.left <= op.matches
    ensures !Registered(Outcome(w, op, pick).reg, s) && !Mentions(Outcome(w, op, pick).op, s)
  {
    hide Unowned;
    match op
    case SpawnForked(t) => assert Mentions(op, t);
    case _ =>
  }

  lemma StaysExclusive(w: World, e: Event, p: nat, s: Session)
    requires Inv(w) && Enabled(w, e) && p in w.ops && w.ops[p] == SpawnForked(s)
    requires !Registered(w.reg, s) && Untouched(w, p, s)
    requires p in Next(w, e).ops && Next(w, e).ops[p] == SpawnForked(s)
    ensures !Registered(Next(w, e).reg, s) && Untouched(Next(w, e), p, s)
  {
    assert s in w.forked by {
      assert OpShape(w, w.ops[p]) && Mentions(w.ops[p], s);
    }
    match e
    case Advance(o, pick) =>
      if o != p {
        assert OpShape(w, w.ops[o]);
        hide Inv, Outcome;
        OutcomeLeavesOut(w, w.ops[o], pick, s);
      }
    case _ => hide Inv;
  }

  /** An actor that has nothing left to do. */
  predicate Settled(op: Op) {
    op.SpawnDone? || op.Finished?
  }

  function Stage(op: Op): nat {
    match op
    case SpawnEntered(_) => 9
    case SpawnGated(_) => 8
    case SpawnMissed(_) => 7
    case SpawnForked(_) => 6
    case SpawnStored(_) => 5
    case SpawnRaced(_) => 4
    case SpawnUndone(_) => 3
    case SpawnLost(_, _) => 3
    case KillEntered(_) => 5
    case KillFound(_) => 4
    case TicketEntered(_) => 5
    case TicketMatched(_, _) => 4
    case Doomed(_) => 3
    case _ => 0
  }

  function Left(op: Op): nat {
    match op
    case TicketMatched(left, _) => |left|
    case Doomed(pending) => |pending|
    case _ => 0
  }

  /** Actor o moved, and s came to no harm by it. */
  ghost predicate Spares(w: World, w': World, o: nat, s: Session) {
    && o in w.ops && o in w'.ops && IsSpawn(w'.ops[o]) == IsSpawn(w.ops[o]) && !Mentions(w'.ops[o], s)
    && w'.ops.Keys == w.ops.Keys && (forall q :: q in w.ops && q != o ==> w'.ops[q] == w.ops[q])
    && w'.shutdown == w.shutdown && w'.forked == w.forked
    && (s in w'.dead ==> s in w.dead)
    && (Registered(w.reg, s) ==> Registered(w'.reg, s))
    && (w.reg == map[] && !IsSpawn(w.ops[o]) ==> w'.reg == map[])
  }

  ghost predicate Nearer(op: Op, op': Op) {
    Stage(op') < Stage(op) || (Stage(op') == Stage(op) && Left(op') < Left(op))
  }

  lemma SpawnOutcome(w: World, op: Op, pick: Session, s: Session)
    requires IsSpawn(op) && !op.SpawnMissed? && !Settled(op) && !Mentions(op, s)
    requires Keyed(w.reg) && IdsUnique(w) && (forall t :: Mentions(op, t) ==> t in w.forked)
    requires Registered(w.reg, s) ==> s in w.forked
    ensures var e := Outcome(w, op, pick);
            && IsSpawn(e.op) && !Mentions(e.op, s) && Nearer(op, e.op)
            && e.forked == w.forked && (s in e.dead ==> s in w.dead)
            && (Registered(w.reg, s) ==> Registered(e.reg, s))
  {
    hide Unowned;
    match op
    case SpawnForked(t) => assert Mentions(op, t);
    case SpawnLost(t, _) => assert Mentions(op, t);
    case SpawnRaced(t) => assert Mentions(op, t);
    case SpawnUndone(t) => assert Mentions(op, t);
    case _ =>
  }

  lemma OtherOutcome(w: World, op: Op, pick: Session, s: Session)
    requires !IsSpawn(op) && !Settled(op) && !Mentions(op, s) && w.reg == map[]
    requires op.TicketMatched? ==> op.left <= op.matches && (op.left == {} || pick in op.left)
    requires op.Doomed? ==> op.pending == {} || pick in op.pending
    ensures var e := Outcome(w, op, pick);
            && !IsSpawn(e.op) && !Mentions(e.op, s) && Nearer(op, e.op)
            && e.forked == w.forked && (s in e.dead ==> s in w.dead) && e.reg == map[]
  {
    match op
    case TicketEntered(t) => assert Matches(w.reg, t) == {};
    case _ =>
  }

  /** The move that brings o nearer to its end; a spawn that has not forked yet
      fails to. */
  lemma MoveOn(w: World, o: nat, s: Session) returns (e: Event)
    requires Inv(w) && o in w.ops && !Settled(w.ops[o]) && !Mentions(w.ops[o], s)
    requires IsSpawn(w.ops[o]) || w.reg == map[]
    ensures Enabled(w, e) && !SpawnEnters(e) && Spares(w, Next(w, e), o, s)
    ensures Nearer(w.ops[o], Next(w, e).ops[o])
  {
    var op := w.ops[o];
    assert OpShape(w, op) && Keyed(w.reg);
    hide Owns, Unowned, Inv, OpShape, Keyed;
    if op.SpawnMissed? {
      e := ForkFails(o);
    } else {
      var pick := Pick(w, op);
      if IsSpawn(op) {
        SpawnOutcome(w, op, pick, s);
      } else {
        OtherOutcome(w, op, pick, s);
      }
      hide Outcome, Mentions, Nearer;
      e := Advance(o, pick);
    }
  }

  lemma Pick(w: World, op: Op) returns (pick: Session)
    requires Keyed(w.reg)
    ensures op.SpawnGated? ==> Owns(w.reg, op.ticket, pick) || Unowned(w.reg, op.ticket)
    ensures op.SpawnForked? ==> Owns(w.reg, op.sess.ticketID, pick) || Unowned(w.reg, op.sess.ticketID)
    ensures op.TicketMatched? && op.left != {} ==> pick in op.left
    ensures op.Doomed? && op.pending != {} ==> pick in op.pending
  {
    pick := Session(0, "", "");
    match op
    case SpawnGated(t) => pick := Owner(w.reg, t);
    case SpawnForked(s) => pick := Owner(w.reg, s.ticketID);
    case TicketMatched(left, _) => if left != {} { pick :| pick in left; }
    case Doomed(pending) => if pending != {} { pick :| pick in pending; }
    case _ =>
  }

  lemma Owner(m: Reg, t: string) returns (pick: Session)
    requires Keyed(m)
    ensures Owns(m, t, pick) || Unowned(m, t)
  {
    pick := Session(0, "", "");
    if !Unowned(m, t) {
      var id :| id in m && m[id].ticketID == t;
      pick := m[id];
    }
  }

  lemma SparesOnwards(a: World, b: World, c: World, o: nat, s: Session)
    requires Spares(a, b, o, s) && Spares(b, c, o, s)
    ensures Spares(a, c, o, s)
  {
    hide Mentions, IsSpawn;
  }

  /** The run goes on to ws', es', and no new spawn is entered. */
  ghost predicate GoesOn(ws: seq<World>, es: seq<Event>, ws': seq<World>, es': seq<Event>) {
    && Run(ws', es') && |ws'| == |es'| + 1
    && ws <= ws' && es <= es' && NoSpawnFrom(es', |es|)
  }

  lemma GoesOnOnwards(ws: seq<World>, es: seq<Event>, ws1: seq<World>, es1: seq<Event>,
                      ws': seq<World>, es': seq<Event>)
    requires GoesOn(ws, es, ws1, es1) && GoesOn(ws1, es1, ws', es')
    ensures GoesOn(ws, es, ws', es')
  {
    hide Run, SpawnEnters;
    forall i | |es| <= i < |es'| ensures !SpawnEnters(es'[i]) {
      if i < |es1| {
        assert es'[i] == es1[i];
      }
    }
  }

  lemma OneStep(ws: seq<World>, es: seq<Event>, e: Event) returns (ws': seq<World>, es': seq<Event>)
    requires Run(ws, es) && |ws| == |es| + 1 && Enabled(ws[|es|], e) && !SpawnEnters(e)
    ensures GoesOn(ws, es, ws', es') && |ws'| == |es'| + 1 && es' == es + [e] && ws'[|es'|] == Next(ws[|es|], e)
  {
    hide Run, Enabled, Next, SpawnEnters;
    ws', es' := Extend(ws, es, e);
    assert es'[|es|] == e;
  }

  lemma SparesGives(w: World, w': World, o: nat, s: Session)
    requires Spares(w, w', o, s)
    ensures o in w.ops && o in w'.ops && !Mentions(w'.ops[o], s)
    ensures IsSpawn(w'.ops[o]) == IsSpawn(w.ops[o]) && (w.reg == map[] && !IsSpawn(w.ops[o]) ==> w'.reg == map[])
  {
  }

  lemma GoesOnRuns(ws: seq<World>, es: seq<Event>, ws': seq<World>, es': seq<Event>)
    requires GoesOn(ws, es, ws', es')
    ensures Run(ws', es') && |ws'| == |es'| + 1
  {
  }

  /** Actor o goes on alone until it has nothing left to do. */
  lemma RunDown(ws: seq<World>, es: seq<Event>, o: nat, s: Session) returns (ws': seq<World>, es': seq<Event>)
    requires Run(ws, es) && |ws| == |es| + 1
    requires o in ws[|es|].ops && !Mentions(ws[|es|].ops[o], s) && !Settled(ws[|es|].ops[o])
    requires IsSpawn(ws[|es|].ops[o]) || ws[|es|].reg == map[]
    ensures GoesOn(ws, es, ws', es') && |ws'| == |es'| + 1 && o in ws'[|es'|].ops
    ensures Spares(ws[|es|], ws'[|es'|], o, s) && Settled(ws'[|es'|].ops[o])
    decreases Stage(ws[|es|].ops[o]), Left(ws[|es|].ops[o])
  {
    var w := ws[|es|];
    RunKeepsInv(ws, es, |es|);
    var e := MoveOn(w, o, s);
    SparesGives(w, Next(w, e), o, s);
    hide *;
    ws', es' := OneStep(ws, es, e);
    GoesOnRuns(ws, es, ws', es');
    var w1 := ws'[|es'|];
    if !Settled(w1.ops[o]) {
      var ws1, es1 := ws', es';
      ws', es' := RunDown(ws1, es1, o, s);
      GoesOnRuns(ws1, es1, ws', es');
      SparesOnwards(w, w1, ws'[|es'|], o, s);
      GoesOnOnwards(ws, es, ws1, es1, ws', es');
    }
  }

  function Busy(w: World, spawns: bool, p: nat): set<nat> {
    set o | o in w.ops && o != p && !Settled(w.ops[o]) && IsSpawn(w.ops[o]) == spawns
  }

  /** Actors of one kind other than p moved, and s came to no harm by it. */
  ghost predicate Led(w: World, w': World, spawns: bool, p: nat, s: Session) {
    && w'.ops.Keys == w.ops.Keys && Untouched(w', p, s)
    && (forall q :: q in w.ops ==> IsSpawn(w'.ops[q]) == IsSpawn(w.ops[q]))
    && (forall q :: q in w.ops && (q == p || IsSpawn(w.ops[q]) != spawns) ==> w'.ops[q] == w.ops[q])
    && w'.shutdown == w.shutdown && w'.forked == w.forked
    && (s in w'.dead ==> s in w.dead)
    && (Registered(w.reg, s) ==> Registered(w'.reg, s))
    && (w.reg == map[] && !spawns ==> w'.reg == map[])
  }

  lemma RunAllDown(ws: seq<World>, es: seq<Event>, spawns: bool, p: nat, s: Session)
    returns (ws': seq<World>, es': seq<Event>)
    requires Run(ws, es) && |ws| == |es| + 1 && Untouched(ws[|es|], p, s)
    requires spawns || ws[|es|].reg == map[]
    ensures GoesOn(ws, es, ws', es') && |ws'| == |es'| + 1
    ensures Led(ws[|es|], ws'[|es'|], spawns, p, s) && Busy(ws'[|es'|], spawns, p) == {}
    decreases |Busy(ws[|es|], spawns, p)|
  {
    hide Run, Mentions, Settled, IsSpawn, NoSpawnFrom, Registered;
    ws', es' := ws, es;
    var w := ws[|es|];
    if Busy(w, spawns, p) != {} {
      var o :| o in Busy(w, spawns, p);
      var ws1, es1 := RunDown(ws, es, o, s);
      var w1 := ws1[|es1|];
      SparesLeads(w, w1, spawns, p, s, o);
      ws', es' := RunAllDown(ws1, es1, spawns, p, s);
      LedOnwards(w, w1, ws'[|es'|], spawns, p, s);
      GoesOnOnwards(ws, es, ws1, es1, ws', es');
    } else {
      GoesNowhere(ws, es);
    }
  }

  lemma GoesNowhere(ws: seq<World>, es: seq<Event>)
    requires Run(ws, es) && |ws| == |es| + 1
    ensures GoesOn(ws, es, ws, es)
  {
  }

  lemma SparesLeads(w: World, w': World, spawns: bool, p: nat, s: Session, o: nat)
    requires Untouched(w, p, s) && o in Busy(w, spawns, p)
    requires Spares(w, w', o, s) && Settled(w'.ops[o])
    ensures Led(w, w', spawns, p, s) && Busy(w', spawns, p) == Busy(w, spawns, p) - {o}
  {
    hide Mentions, IsSpawn, Settled, Registered;
  }

  lemma LedOnwards(a: World, b: World, c: World, spawns: bool, p: nat, s: Session)
    requires Led(a, b, spawns, p, s) && Led(b, c, spawns, p, s)
    ensures Led(a, c, spawns, p, s)
  {
    hide Mentions, IsSpawn, Untouched;
  }

  /** A session that actor p may fork, or has forked and not lost. */
  ghost predicate CanStore(w: World, p: nat, s: Session) {
    && p in w.ops && Hazard(w, w.ops[p]) && s !in w.dead
    && (if w.ops[p].SpawnForked? then w.ops[p].sess == s
        else FreshSession(w, s) && s.ticketID == TicketOf(w.ops[p]))
  }

  /** What w' has over w when p alone moved and stored s. */
  ghost predicate Stored(w: World, w': World, p: nat, s: Session) {
    && p in w.ops && w'.ops == w.ops[p := SpawnDone(TicketOf(w.ops[p]), Some(s))]
    && w'.shutdown == w.shutdown
    && Registered(w'.reg, s) && s !in w'.dead && s in w'.forked
  }

  /** With an empty registry and the flag down, a spawn goes through. */
  lemma SpawnGoesThrough(ws: seq<World>, es: seq<Event>, p: nat, s: Session)
    returns (ws': seq<World>, es': seq<Event>)
    requires Run(ws, es) && |ws| == |es| + 1
    requires ws[|es|].reg == map[] && !ws[|es|].shutdown && CanStore(ws[|es|], p, s)
    ensures GoesOn(ws, es, ws', es') && |ws'| == |es'| + 1 && Stored(ws[|es|], ws'[|es'|], p, s)
    decreases Stage(ws[|es|].ops[p])
  {
    var w := ws[|es|];
    RunKeepsInv(ws, es, |es|);
    SpawnOne(w, p, s);
    hide Run, Enabled, Next, Inv, FreshSession;
    var ws1, es1 := OneStep(ws, es, Advance(p, s));
    GoesOnRuns(ws, es, ws1, es1);
    if w.ops[p].SpawnForked? {
      SpawnTwo(ws1[|es1|], p, s);
      ws', es' := OneStep(ws1, es1, Advance(p, s));
    } else {
      ws', es' := SpawnGoesThrough(ws1, es1, p, s);
    }
    GoesOnOnwards(ws, es, ws1, es1, ws', es');
  }

  lemma SpawnOne(w: World, p: nat, s: Session)
    requires Inv(w) && w.reg == map[] && !w.shutdown && CanStore(w, p, s)
    ensures Enabled(w, Advance(p, s))
    ensures var w' := Next(w, Advance(p, s));
            if w.ops[p].SpawnForked? then
              && w'.ops == w.ops[p := SpawnStored(s)] && !w'.shutdown
              && s !in w'.dead && Registered(w'.reg, s) && s in w'.forked
            else
              && w'.reg == map[] && !w'.shutdown && CanStore(w', p, s) && Stage(w'.ops[p]) < Stage(w.ops[p])
              && TicketOf(w'.ops[p]) == TicketOf(w.ops[p]) && w'.ops == w.ops[p := w'.ops[p]]
  {
    assert OpShape(w, w.ops[p]);
    assert w.ops[p].SpawnForked? ==> Mentions(w.ops[p], s);
  }

  lemma SpawnTwo(w: World, p: nat, s: Session)
    requires p in w.ops && w.ops[p] == SpawnStored(s) && !w.shutdown
    ensures Enabled(w, Advance(p, s))
    ensures Next(w, Advance(p, s)) == w.At(p, SpawnDone(s.ticketID, Some(s)))
  {
  }

  ghost function Longest(ss: set<Session>): (n: nat)
    ensures forall s :: s in ss ==> |s.id| <= n
  {
    if ss == {} then 0
    else
      var s: Session :| s in ss;
      var n := Longest(ss - {s});
      if |s.id| > n then |s.id| else n
  }

  /** A session as the next fork would make it. */
  lemma Unforked(w: World, ticket: string) returns (s: Session)
    ensures FreshSession(w, s) && s !in w.dead && s.ticketID == ticket
  {
    s := Session(0, seq(Longest(w.forked + w.dead) + 1, _ => 'x'), ticket);
    assert forall t :: t in w.forked + w.dead ==> |t.id| < |s.id|;
  }

  /** The drain leaves s to p alone. */
  lemma DrainLeaves(ws: seq<World>, es: seq<Event>, o: nat, p: nat, s: Session)
    requires Run(ws, es) && |ws| == |es| + 1 && o !in ws[|es|].ops && CanStore(ws[|es|], p, s)
    ensures var w' := Next(ws[|es|], AcceptFailed(o));
            Enabled(ws[|es|], AcceptFailed(o)) && Untouched(w', p, s) && CanStore(w', p, s)
  {
    var w := ws[|es|];
    if w.ops[p].SpawnForked? {
      ForkIsExclusive(ws, es, |es|, p, s);
    } else {
      RunKeepsInv(ws, es, |es|);
      FreshIsUntouched(w, p, s);
    }
    RunKeepsInv(ws, es, |es|);
    assert s !in w.reg.Values;
  }

  /** From any reachable state with the flag down and such a spawn under way, the
      drain goes on to a state in which all is at rest and that spawn has answered
      with a session that is registered and alive. */
  lemma HazardOrphans(ws: seq<World>, es: seq<Event>, o: nat, p: nat)
    returns (ws': seq<World>, es': seq<Event>, s: Session)
    requires Run(ws, es) && |ws| == |es| + 1
    requires o !in ws[|es|].ops && !ws[|es|].shutdown
    requires p in ws[|es|].ops && Hazard(ws[|es|], ws[|es|].ops[p])
    ensures GoesOn(ws, es, ws', es') && |ws'| == |es'| + 1 && es + [AcceptFailed(o)] <= es'
    ensures var w := ws'[|es'|];
            && Quiet(w) && Registered(w.reg, s) && s in w.forked && s !in w.dead
            && p in w.ops && w.ops[p] == SpawnDone(TicketOf(ws[|es|].ops[p]), Some(s))
  {
    var w := ws[|es|];
    if w.ops[p].SpawnForked? {
      s := w.ops[p].sess;
    } else {
      s := Unforked(w, TicketOf(w.ops[p]));
    }
    DrainLeaves(ws, es, o, p, s);
    assert !SpawnEnters(AcceptFailed(o)) && IsSpawn(w.ops[p]);
    var ws1, es1 := OneStep(ws, es, AcceptFailed(o));
    GoesOnRuns(ws, es, ws1, es1);
    hide GoesOn, Run, Hazard, Untouched, CanStore, Registered, Quiet;
    ws', es' := AfterDrain(ws1, es1, p, s);
    GoesOnOnwards(ws, es, ws1, es1, ws', es');
    Prefixes(ws1, es1, ws', es');
  }

  lemma Prefixes(ws: seq<World>, es: seq<Event>, ws': seq<World>, es': seq<Event>)
    requires GoesOn(ws, es, ws', es')
    ensures es <= es'
  {
  }

  /** First the actors that are no spawns, then p, then the other spawns. */
  lemma AfterDrain(ws: seq<World>, es: seq<Event>, p: nat, s: Session)
    returns (ws': seq<World>, es': seq<Event>)
    requires Run(ws, es) && |ws| == |es| + 1
    requires ws[|es|].reg == map[] && !ws[|es|].shutdown
    requires CanStore(ws[|es|], p, s) && Untouched(ws[|es|], p, s) && IsSpawn(ws[|es|].ops[p])
    ensures GoesOn(ws, es, ws', es') && |ws'| == |es'| + 1
    ensures var w := ws'[|es'|];
            && Quiet(w) && Registered(w.reg, s) && s in w.forked && s !in w.dead
            && p in w.ops && w.ops[p] == SpawnDone(TicketOf(ws[|es|].ops[p]), Some(s))
  {
    hide GoesOn, Run;
    var ws1, es1 := RunAllDown(ws, es, false, p, s);
    GoesOnRuns(ws, es, ws1, es1);
    LedCanStore(ws[|es|], ws1[|es1|], p, s);
    hide CanStore;
    var ws2, es2 := SpawnGoesThrough(ws1, es1, p, s);
    GoesOnRuns(ws1, es1, ws2, es2);
    StoredLeaves(ws1[|es1|], ws2[|es2|], p, s);
    ws', es' := RunAllDown(ws2, es2, true, p, s);
    GoesOnOnwards(ws, es, ws1, es1, ws2, es2);
    GoesOnOnwards(ws, es, ws2, es2, ws', es');
    AllAtRest(ws1[|es1|], ws2[|es2|], ws'[|es'|], p, s);
  }

  lemma LedCanStore(w: World, w': World, p: nat, s: Session)
    requires Led(w, w', false, p, s) && CanStore(w, p, s)
    ensures CanStore(w', p, s)
  {
    hide Untouched, Mentions, IsSpawn;
  }

  lemma StoredLeaves(w: World, w': World, p: nat, s: Session)
    requires Stored(w, w', p, s) && Untouched(w, p, s)
    ensures Untouched(w', p, s)
  {
    hide Mentions;
  }

  lemma AllAtRest(w: World, w1: World, w': World, p: nat, s: Session)
    requires Busy(w, false, p) == {} && Stored(w, w1, p, s) && IsSpawn(w.ops[p])
    requires Led(w1, w', true, p, s) && Busy(w', true, p) == {}
    ensures Quiet(w') && Registered(w'.reg, s) && s in w'.forked && s !in w'.dead
    ensures p in w'.ops && w'.ops[p] == SpawnDone(TicketOf(w.ops[p]), Some(s))
  {
    hide Mentions, Untouched, Registered;
    forall q | q in w'.ops ensures Settled(w'.ops[q]) {
      if q != p {
        assert q !in Busy(w', true, p) && q !in Busy(w, false, p);
      }
    }
  }

  // ---- Exactly when ----

  /** The drain goes on to a state in which all is at rest and s, forked at some
      time, is still alive. */
  ghost predicate Orphaned(ws: seq<World>, es: seq<Event>, o: nat, ws': seq<World>, es': seq<Event>, s: Session) {
    && GoesOn(ws, es, ws', es') && es + [AcceptFailed(o)] <= es'
    && Quiet(ws'[|es'|]) && s in ws'[|es'|].forked && s !in ws'[|es'|].dead
  }

  ghost predicate CanOrphan(ws: seq<World>, es: seq<Event>, o: nat) {
    exists ws', es', s :: Orphaned(ws, es, o, ws', es', s)
  }

  ghost predicate HazardPending(w: World) {
    exists p :: p in w.ops && Hazard(w, w.ops[p])
  }

  lemma {:induction false} FlagHolds(ws: seq<World>, es: seq<Event>, d: nat, n: nat)
    requires Run(ws, es) && d < n <= |es| && es[d].AcceptFailed?
    requires ws[d].shutdown && !ws[d].unflagged
    ensures ws[n].shutdown && ws[n].cleaned && !ws[n].unflagged
    decreases n
  {
    if n > d + 1 {
      FlagHolds(ws, es, d, n - 1);
    }
  }

  lemma OrphanNeedsHazard(ws: seq<World>, es: seq<Event>, o: nat, ws': seq<World>, es': seq<Event>, s: Session)
    requires Run(ws, es) && |ws| == |es| + 1 && !ws[|es|].unflagged && Orphaned(ws, es, o, ws', es', s)
    ensures !ws[|es|].shutdown && HazardPending(ws[|es|])
  {
    var d := |es|;
    assert es'[d] == (es + [AcceptFailed(o)])[d] && ws'[d] == ws[d] && es'[..|es'|] == es';
    if ws[d].shutdown {
      FlagHolds(ws', es', d, |es'|);
      NoOrphanSurvivesShutdown(ws', es', |es'|);
    } else if !HazardPending(ws[d]) {
      HarmlessDrain(ws', es', d, |es'|);
    }
  }

  /** The first drain of the accept-error exit can leave an orphan if and only if the
      flag is down and a spawn is under way that can still store a living session. */
  lemma OrphanIffHazard(ws: seq<World>, es: seq<Event>, o: nat)
    requires Run(ws, es) && |ws| == |es| + 1 && !ws[|es|].unflagged && o !in ws[|es|].ops
    ensures CanOrphan(ws, es, o) <==> !ws[|es|].shutdown && HazardPending(ws[|es|])
  {
    hide Run, Orphaned, Hazard;
    if CanOrphan(ws, es, o) {
      var ws', es', s :| Orphaned(ws, es, o, ws', es', s);
      OrphanNeedsHazard(ws, es, o, ws', es', s);
    }
    if !ws[|es|].shutdown && HazardPending(ws[|es|]) {
      var p :| p in ws[|es|].ops && Hazard(ws[|es|], ws[|es|].ops[p]);
      var ws', es', s := HazardOrphans(ws, es, o, p);
      QuietOrphan(ws, es, o, ws', es', s);
    }
  }

  lemma QuietOrphan(ws: seq<World>, es: seq<Event>, o: nat, ws': seq<World>, es': seq<Event>, s: Session)
    requires GoesOn(ws, es, ws', es') && |ws'| == |es'| + 1 && es + [AcceptFailed(o)] <= es'
    requires Quiet(ws'[|es'|]) && s in ws'[|es'|].forked && s !in ws'[|es'|].dead
    ensures Orphaned(ws, es, o, ws', es', s)
  {
  }
}
