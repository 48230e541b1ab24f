/** The session lifecycle of the daemon (internal/daemon/server.go) as a step
    system: every request is several steps, and any other actor may run between
    two of them. */
module Sessions {
  import opened Registry
  import opened Wrappers

  /** Where a request handler, a kill or a drain stands. */
  datatype Op =
    | SpawnEntered(ticket: string)
    | SpawnGated(ticket: string)                     // shutdown had not begun
    | SpawnMissed(ticket: string)                    // the ticket had no session
    | SpawnForked(sess: Session)
    | SpawnLost(sess: Session, winner: Session)      // another spawn stored first
    | SpawnStored(sess: Session)
    | SpawnRaced(sess: Session)                      // shutdown began meanwhile
    | SpawnUndone(sess: Session)                     // unregistered, not yet killed
    | SpawnDone(ticket: string, reply: Option<Session>)
    | KillEntered(id: string)
    | KillFound(sess: Session)
    | TicketEntered(ticket: string)
    | TicketMatched(left: set<Session>, matches: set<Session>)
    | Doomed(pending: set<Session>)                  // being killed one by one
    | Finished

  datatype World = World(
    reg: Reg,
    forked: set<Session>,
    dead: set<Session>,       // exited or killed
    shutdown: bool,
    cleaned: bool,            // cleanup has drained the registry
    unflagged: bool,          // some cleanup drained without the shutdown flag
    ops: map<nat, Op>)
  {
    function At(o: nat, op: Op): World {
      this.(ops := ops[o := op])
    }
  }

  const INIT := World(map[], {}, {}, false, false, false, map[])

  /** One step of one actor. `pick` resolves the choices the scheduler makes. */
  datatype Event =
    | Enter(o: nat, request: Op)
    | Advance(o: nat, pick: Session)
    | ForkFails(o: nat)
    | Exit(sess: Session)            // the child ends by itself
    | Reap(sess: Session)            // the exit watcher unregisters it
    | InitiateShutdown
    | ShutdownRequest(o: nat)        // handleShutdown drains, then kills
    | Cleanup(o: nat)
    | AcceptFailed(o: nat)           // the accept-error exit drains without the flag

  predicate FreshSession(w: World, s: Session) {
    forall t :: t in w.forked ==> t.id != s.id
  }

  function Matches(m: Reg, ticket: string): set<Session> {
    set id | id in m && m[id].ticketID == ticket :: m[id]
  }

  predicate CanAdvance(w: World, o: nat, pick: Session) {
    o in w.ops && match w.ops[o]
      case SpawnGated(t) => Owns(w.reg, t, pick) || Unowned(w.reg, t)
      case SpawnMissed(t) => FreshSession(w, pick) && pick.ticketID == t
      case SpawnForked(s) => Owns(w.reg, s.ticketID, pick) || Unowned(w.reg, s.ticketID)
      case TicketMatched(left, _) => left == {} || pick in left
      case Doomed(pending) => pending == {} || pick in pending
      case SpawnDone(_, _) => false
      case Finished => false
      case _ => true
  }

  predicate Enabled(w: World, e: Event) {
    match e
    case Enter(o, r) => o !in w.ops && (r.SpawnEntered? || r.KillEntered? || r.TicketEntered?)
    case Advance(o, pick) => CanAdvance(w, o, pick)
    case ForkFails(o) => o in w.ops && w.ops[o].SpawnMissed?
    case Exit(s) => s in w.forked
    case Reap(s) => s in w.dead
    case InitiateShutdown => true
    case ShutdownRequest(o) => o !in w.ops
    case Cleanup(o) => o !in w.ops && w.shutdown
    case AcceptFailed(o) => o !in w.ops
  }

  /** What one step of an actor does: its next position and the shared state. */
  datatype Effect = Effect(op: Op, reg: Reg, forked: set<Session>, dead: set<Session>)

  function Outcome(w: World, op: Op, pick: Session): Effect {
    var idle := Effect(op, w.reg, w.forked, w.dead);
    match op
    case SpawnEntered(t) =>
      idle.(op := if w.shutdown || t == "" then SpawnDone(t, None) else SpawnGated(t))
    case SpawnGated(t) =>
      idle.(op := if Unowned(w.reg, t) then SpawnMissed(t) else SpawnDone(t, Some(pick)))
    case SpawnMissed(t) =>
      idle.(op := SpawnForked(pick), forked := w.forked + {pick})
    case SpawnForked(s) =>
      if Unowned(w.reg, s.ticketID) then idle.(op := SpawnStored(s), reg := w.reg[s.id := s])
      else idle.(op := SpawnLost(s, pick))
    case SpawnLost(s, winner) =>
      idle.(op := SpawnDone(s.ticketID, Some(winner)), dead := w.dead + {s})
    case SpawnStored(s) =>
      idle.(op := if w.shutdown then SpawnRaced(s) else SpawnDone(s.ticketID, Some(s)))
    case SpawnRaced(s) =>
      idle.(op := SpawnUndone(s), reg := WithoutExactly(w.reg, s.id, s))
    case SpawnUndone(s) =>
      idle.(op := SpawnDone(s.ticketID, None), dead := w.dead + {s})
    case KillEntered(id) =>
      idle.(op := if id in w.reg then KillFound(w.reg[id]) else Finished)
    case KillFound(s) =>
      idle.(op := Doomed({s}), reg := Without(w.reg, s.id))
    case TicketEntered(t) =>
      idle.(op := if t == "" then Finished else TicketMatched(Matches(w.reg, t), Matches(w.reg, t)))
    case TicketMatched(left, matches) =>
      if left == {} then idle.(op := Doomed(matches))
      else idle.(op := TicketMatched(left - {pick}, matches), reg := WithoutExactly(w.reg, pick.id, pick))
    case Doomed(pending) =>
      if pending == {} then idle.(op := Finished)
      else idle.(op := Doomed(pending - {pick}), dead := w.dead + {pick})
    case _ => idle
  }

  function Advanced(w: World, o: nat, pick: Session): World
    requires CanAdvance(w, o, pick)
  {
    var e := Outcome(w, w.ops[o], pick);
    w.At(o, e.op).(reg := e.reg, forked := e.forked, dead := e.dead)
  }

  function Next(w: World, e: Event): World
    requires Enabled(w, e)
  {
    match e
    case Enter(o, r) => w.At(o, r)
    case Advance(o, pick) => Advanced(w, o, pick)
    case ForkFails(o) => w.At(o, SpawnDone(w.ops[o].ticket, None))
    case Exit(s) => w.(dead := w.dead + {s})
    case Reap(s) => w.(reg := WithoutExactly(w.reg, s.id, s))
    case InitiateShutdown => w.(shutdown := true)
    case ShutdownRequest(o) => w.At(o, Doomed(w.reg.Values)).(reg := map[])
    case Cleanup(o) => w.At(o, Doomed(w.reg.Values)).(reg := map[], cleaned := true)
    case AcceptFailed(o) =>
      w.At(o, Doomed(w.reg.Values)).(reg := map[], cleaned := true, unflagged := w.unflagged || !w.shutdown)
  }

  /** A run: ws[i + 1] follows ws[i] by es[i]. */
  predicate Run(ws: seq<World>, es: seq<Event>) {
    && |ws| == |es| + 1 && ws[0] == INIT
    && forall i :: 0 <= i < |es| ==> Enabled(ws[i], es[i]) && ws[i + 1] == Next(ws[i], es[i])
  }

  // ---- What every step keeps ----

  /** The sessions an actor still has to kill. */
  function Owed(op: Op): set<Session> {
    match op
    case SpawnForked(s) => {s}
    case SpawnLost(s, _) => {s}
    case SpawnRaced(s) => {s}
    case SpawnUndone(s) => {s}
    case KillFound(s) => {s}
    case TicketMatched(_, matches) => matches
    case Doomed(pending) => pending
    case _ => {}
  }

  predicate Mentions(op: Op, s: Session) {
    s in Owed(op) || op == SpawnStored(s)
  }

  ghost predicate Accounted(w: World, s: Session) {
    s in w.dead || Registered(w.reg, s) || exists o :: o in w.ops && s in Owed(w.ops[o])
  }

  /** An actor that has stored s and has yet to see the shutdown flag or act on it. */
  ghost predicate StillChecking(w: World, s: Session) {
    exists o :: o in w.ops && Checking(w.ops[o], s)
  }

  predicate Checking(op: Op, s: Session) {
    op == SpawnStored(s) || op == SpawnRaced(s)
  }

  ghost predicate OneSessionPerTicket(m: Reg) {
    forall a, b :: a in m && b in m && m[a].ticketID == m[b].ticketID ==> a == b
  }

  ghost predicate IdsUnique(w: World) {
    forall s, t :: s in w.forked && t in w.forked && s.id == t.id ==> s == t
  }

  ghost predicate Shape(w: World) {
    && Keyed(w.reg) && OneSessionPerTicket(w.reg) && IdsUnique(w)
    && (forall id :: id in w.reg ==> w.reg[id] in w.forked)
    && (forall o :: o in w.ops ==> OpShape(w, w.ops[o]))
  }

  ghost predicate AllAccounted(w: World) {
    forall s :: s in w.forked ==> Accounted(w, s)
  }

  /** After a flagged cleanup only sessions of spawns that will still look at the
      flag can be registered. */
  ghost predicate CleanedUp(w: World) {
    w.cleaned && !w.unflagged ==> w.shutdown && forall s :: Registered(w.reg, s) ==> StillChecking(w, s)
  }

  ghost predicate Inv(w: World) {
    Shape(w) && AllAccounted(w) && CleanedUp(w)
  }

  ghost predicate SameExcept(w: World, w': World, o: nat) {
    o in w'.ops && forall p :: p != o ==> (p in w.ops <==> p in w'.ops) && (p in w.ops ==> w.ops[p] == w'.ops[p])
  }

  /** A step accounts for every session if its actor takes over each session that
      leaves the registry, is forked, or was owed by the actor before. */
  lemma KeepsAccounted(w: World, w': World, o: nat)
    requires AllAccounted(w) && SameExcept(w, w', o) && w.dead <= w'.dead
    requires forall s :: s in w'.forked && s !in w.forked ==> s in Owed(w'.ops[o])
    requires forall s :: Registered(w.reg, s) && !Registered(w'.reg, s) ==> s in w'.dead || s in Owed(w'.ops[o])
    requires o in w.ops ==> forall s :: s in Owed(w.ops[o]) ==>
      s in w'.dead || s in Owed(w'.ops[o]) || Registered(w'.reg, s)
    ensures AllAccounted(w')
  {
    hide Owed, Registered;
    forall s | s in w'.forked ensures Accounted(w', s) {
      if s in w.forked && s !in w.dead && !Registered(w.reg, s) {
        var p :| p in w.ops && s in Owed(w.ops[p]);
        assert p != o ==> p in w'.ops;
      }
    }
  }

  lemma KeepsCleanedUp(w: World, w': World, o: nat)
    requires CleanedUp(w) && SameExcept(w, w', o)
    requires w'.cleaned == w.cleaned && w'.unflagged == w.unflagged && w'.shutdown == w.shutdown
    requires w.cleaned && !w.unflagged ==> forall s :: Registered(w'.reg, s) ==>
               Checking(w'.ops[o], s) || (Registered(w.reg, s) && !(o in w.ops && Checking(w.ops[o], s)))
    ensures CleanedUp(w')
  {
    hide Checking, Registered;
    if w'.cleaned && !w'.unflagged {
      forall s | Registered(w'.reg, s) ensures StillChecking(w', s) {
        if !Checking(w'.ops[o], s) {
          var p :| p in w.ops && Checking(w.ops[p], s);
          assert p in w'.ops;
        }
      }
    }
  }

  /** How a step may change the registry: unregister, or register a session
      whose ticket has no owner. */
  ghost predicate RegStep(m: Reg, m': Reg) {
    || (forall id :: id in m' ==> id in m && m'[id] == m[id])
    || (exists s: Session :: m' == m[s.id := s] && Unowned(m, s.ticketID))
  }

  lemma RegStepKeeps(m: Reg, m': Reg)
    requires Keyed(m) && OneSessionPerTicket(m) && RegStep(m, m')
    ensures Keyed(m') && OneSessionPerTicket(m')
  {
  }

  ghost predicate OpShape(w: World, op: Op) {
    && (forall s :: Mentions(op, s) ==> s in w.forked)
    && (op.TicketMatched? ==> op.left <= op.matches)
  }

  predicate Resolves(w: World, op: Op, pick: Session) {
    match op
    case SpawnMissed(t) => FreshSession(w, pick)
    case TicketMatched(left, _) => left == {} || pick in left
    case Doomed(pending) => pending == {} || pick in pending
    case _ => true
  }

  lemma StepRegisters(w: World, op: Op, pick: Session)
    requires Keyed(w.reg) && (forall id :: id in w.reg ==> w.reg[id] in w.forked) && IdsUnique(w)
    requires OpShape(w, op) && Resolves(w, op, pick)
    ensures var e := Outcome(w, op, pick);
            && RegStep(w.reg, e.reg) && w.dead <= e.dead && w.forked <= e.forked
            && (forall id :: id in e.reg ==> e.reg[id] in e.forked)
  {
    hide Matches, Unowned;
    match op
    case SpawnForked(s) => assert Mentions(op, s);
    case KillFound(s) => assert Mentions(op, s);
    case _ =>
  }

  lemma StepOwes(w: World, op: Op, pick: Session)
    requires Keyed(w.reg) && (forall id :: id in w.reg ==> w.reg[id] in w.forked) && IdsUnique(w)
    requires OpShape(w, op) && Resolves(w, op, pick)
    ensures var e := Outcome(w, op, pick);
            && (forall s :: s in e.forked && s !in w.forked ==> s in Owed(e.op) && s == pick && op.SpawnMissed?)
            && (forall s :: Registered(w.reg, s) && !Registered(e.reg, s) ==> s in e.dead || s in Owed(e.op))
            && (forall s :: s in Owed(op) ==> s in e.dead || s in Owed(e.op) || Registered(e.reg, s))
  {
    hide Matches, Unowned;
    match op
    case SpawnForked(s) => assert Mentions(op, s);
    case KillFound(s) => assert Mentions(op, s);
    case TicketMatched(left, matches) =>
    case _ =>
  }

  /** One step changes the registry in an allowed way, keeps what its actor says
      consistent, and leaves no session without somebody who answers for it. */
  lemma StepIsSafe(w: World, op: Op, pick: Session)
    requires Keyed(w.reg) && (forall id :: id in w.reg ==> w.reg[id] in w.forked) && IdsUnique(w)
    requires OpShape(w, op) && Resolves(w, op, pick)
    ensures var e := Outcome(w, op, pick);
            && RegStep(w.reg, e.reg) && w.dead <= e.dead && w.forked <= e.forked
            && (forall id :: id in e.reg ==> e.reg[id] in e.forked)
            && (forall s :: s in e.forked && s !in w.forked ==> s in Owed(e.op) && s == pick && op.SpawnMissed?)
            && (forall s :: Registered(w.reg, s) && !Registered(e.reg, s) ==> s in e.dead || s in Owed(e.op))
            && (forall s :: s in Owed(op) ==> s in e.dead || s in Owed(e.op) || Registered(e.reg, s))
  {
    hide Keyed, IdsUnique, OpShape, Resolves, Outcome, RegStep, Owed, Registered;
    StepRegisters(w, op, pick);
    StepOwes(w, op, pick);
  }

  lemma StepKeepsOpShape(w: World, op: Op, pick: Session)
    requires Keyed(w.reg) && (forall id :: id in w.reg ==> w.reg[id] in w.forked)
    requires OpShape(w, op) && Resolves(w, op, pick)
    ensures var e := Outcome(w, op, pick); OpShape(w.(forked := e.forked), e.op)
  {
    hide Unowned;
    match op
    case SpawnForked(s) => assert Mentions(op, s);
    case SpawnLost(s, _) => assert Mentions(op, s);
    case SpawnStored(s) => assert Mentions(op, s);
    case SpawnRaced(s) => assert Mentions(op, s);
    case TicketMatched(_, matches) => assert forall s :: s in matches ==> Mentions(op, s);
    case Doomed(pending) => assert forall s :: s in pending ==> Mentions(op, s);
    case _ =>
  }

  lemma AdvanceKeepsShape(w: World, o: nat, pick: Session)
    requires Inv(w) && CanAdvance(w, o, pick)
    ensures Shape(Advanced(w, o, pick)) && AllAccounted(Advanced(w, o, pick))
  {
    hide OneSessionPerTicket, RegStep, Outcome, Owed, Mentions, CleanedUp, AllAccounted;
    var w', op := Advanced(w, o, pick), w.ops[o];
    StepIsSafe(w, op, pick);
    StepKeepsOpShape(w, op, pick);
    RegStepKeeps(w.reg, w'.reg);
    KeepsAccounted(w, w', o);
    forall p | p in w'.ops ensures OpShape(w', w'.ops[p]) {
      if p != o {
        assert OpShape(w, w.ops[p]);
      }
    }
  }

  /** Only a spawn's own checks end its watch over the session it stored. */
  lemma StepKeepsChecking(w: World, op: Op, pick: Session)
    requires w.cleaned && !w.unflagged ==> w.shutdown
    ensures var e := Outcome(w, op, pick);
            w.cleaned && !w.unflagged ==> forall s :: Registered(e.reg, s) ==>
              Checking(e.op, s) || (Registered(w.reg, s) && !Checking(op, s))
  {
    hide Matches, Unowned;
  }

  lemma AdvanceKeepsCleanedUp(w: World, o: nat, pick: Session)
    requires Inv(w) && CanAdvance(w, o, pick)
    ensures CleanedUp(Advanced(w, o, pick))
  {
    hide Shape, AllAccounted, CleanedUp, Outcome, Checking;
    FlagIsUp(w);
    StepKeepsChecking(w, w.ops[o], pick);
    KeepsCleanedUp(w, Advanced(w, o, pick), o);
  }

  lemma FlagIsUp(w: World)
    requires CleanedUp(w)
    ensures w.cleaned && !w.unflagged ==> w.shutdown
  {
  }

  lemma EventKeepsInv(w: World, e: Event)
    requires Inv(w) && Enabled(w, e)
    ensures Inv(Next(w, e))
  {
    var w' := Next(w, e);
    match e
    case Advance(o, pick) =>
      AdvanceKeepsShape(w, o, pick);
      AdvanceKeepsCleanedUp(w, o, pick);
    case Enter(o, _) => KeepsAccounted(w, w', o); KeepsCleanedUp(w, w', o);
    case ForkFails(o) => KeepsAccounted(w, w', o); KeepsCleanedUp(w, w', o);
    case ShutdownRequest(o) => DrainKeepsInv(w, w', o);
    case Cleanup(o) => DrainKeepsInv(w, w', o);
    case AcceptFailed(o) => DrainKeepsInv(w, w', o);
    case Exit(s) => SameOpsKeepInv(w, w');
    case Reap(s) => SameOpsKeepInv(w, w');
    case InitiateShutdown => SameOpsKeepInv(w, w');
  }

  lemma DrainKeepsInv(w: World, w': World, o: nat)
    requires Inv(w) && o !in w.ops && w'.ops == w.ops[o := Doomed(w.reg.Values)] && w'.reg == map[]
    requires w'.forked == w.forked && w'.dead == w.dead && w'.shutdown == w.shutdown
    requires w'.cleaned && !w'.unflagged ==> w'.shutdown
    ensures Inv(w')
  {
    hide AllAccounted;
    forall p | p in w'.ops ensures OpShape(w', w'.ops[p]) {
      if p != o {
        assert OpShape(w, w.ops[p]);
      }
    }
    KeepsAccounted(w, w', o);
  }

  lemma SameOpsKeepInv(w: World, w': World)
    requires Inv(w) && w'.ops == w.ops && w'.forked == w.forked && w.dead <= w'.dead
    requires w'.cleaned == w.cleaned && w'.unflagged == w.unflagged && (w.shutdown ==> w'.shutdown)
    requires forall id :: id in w'.reg ==> id in w.reg && w.reg[id] == w'.reg[id]
    requires forall s :: Registered(w.reg, s) && !Registered(w'.reg, s) ==> s in w'.dead
    ensures Inv(w')
  {
    forall s | s in w'.forked ensures Accounted(w', s) {
      assert Accounted(w, s);
    }
    if w'.cleaned && !w'.unflagged {
      forall s | Registered(w'.reg, s) ensures StillChecking(w', s) {
        assert StillChecking(w, s);
      }
    }
  }

  lemma {:induction false} RunKeepsInv(ws: seq<World>, es: seq<Event>, n: nat)
    requires Run(ws, es) && n <= |es|
    ensures Inv(ws[n])
  {
    if n > 0 {
      RunKeepsInv(ws, es, n - 1);
      EventKeepsInv(ws[n - 1], es[n - 1]);
    }
  }

  // ---- Main results ----

  /** No handler, kill or drain is still in flight. */
  predicate Quiet(w: World) {
    forall o :: o in w.ops ==> w.ops[o].SpawnDone? || w.ops[o].Finished?
  }

  /** In any interleaving, once a cleanup drained after the flag was set and no
      handler is in flight, the registry is empty and every session ever forked
      has exited or been killed. */
  lemma NoOrphanSurvivesShutdown(ws: seq<World>, es: seq<Event>, n: nat)
    requires Run(ws, es) && n <= |es|
    requires ws[n].cleaned && !ws[n].unflagged && Quiet(ws[n])
    ensures ws[n].reg == map[] && ws[n].forked <= ws[n].dead
  {
    RunKeepsInv(ws, es, n);
    var w := ws[n];
    assert w.reg == map[] by {
      assert forall id :: id in w.reg ==> Registered(w.reg, w.reg[id]);
    }
    forall s | s in w.forked ensures s in w.dead {
      assert Accounted(w, s);
    }
  }

  /** In every reachable state the sessions registered have distinct tickets. */
  lemma TicketsAreUnique(ws: seq<World>, es: seq<Event>, n: nat, a: Session, b: Session)
    requires Run(ws, es) && n <= |es|
    requires Registered(ws[n].reg, a) && Registered(ws[n].reg, b) && a.ticketID == b.ticketID
    ensures a == b
  {
    RunKeepsInv(ws, es, n);
  }

  /** The session that a spawn will answer with, once that is settled. */
  predicate Answers(op: Op, s: Session) {
    op == SpawnStored(s) || (op.SpawnLost? && op.winner == s) || (op.SpawnDone? && op.reply == Some(s))
  }

  function TicketOf(op: Op): string {
    match op
    case SpawnEntered(t) => t
    case SpawnGated(t) => t
    case SpawnMissed(t) => t
    case SpawnForked(s) => s.ticketID
    case SpawnLost(s, _) => s.ticketID
    case SpawnStored(s) => s.ticketID
    case SpawnRaced(s) => s.ticketID
    case SpawnUndone(s) => s.ticketID
    case SpawnDone(t, _) => t
    case _ => ""
  }

  predicate IsSpawn(op: Op) {
    op.SpawnEntered? || op.SpawnGated? || op.SpawnMissed? || op.SpawnForked? || op.SpawnLost? ||
    op.SpawnStored? || op.SpawnRaced? || op.SpawnUndone? || op.SpawnDone?
  }

  /** A step settles an answer only on a session that owns the ticket just then. */
  lemma AnswerIsOwner(w: World, e: Event, o: nat, s: Session)
    requires Enabled(w, e) && o in w.ops && IsSpawn(w.ops[o])
    ensures var w' := Next(w, e);
            && o in w'.ops && IsSpawn(w'.ops[o]) && TicketOf(w'.ops[o]) == TicketOf(w.ops[o])
            && (Answers(w'.ops[o], s) ==>
                  Answers(w.ops[o], s) || Owns(w.reg, TicketOf(w.ops[o]), s) || Owns(w'.reg, TicketOf(w.ops[o]), s))
  {
    hide Matches, Unowned, Without, WithoutExactly, Outcome, IsSpawn, TicketOf, Answers, Owns;
    if e.Advance? && e.o == o {
      OwnAnswer(w, w.ops[o], e.pick, s);
    } else if e == ForkFails(o) {
      RefusalAnswersNobody(w.ops[o], s);
    }
  }

  lemma RefusalAnswersNobody(op: Op, s: Session)
    requires op.SpawnMissed?
    ensures var done := SpawnDone(op.ticket, None); IsSpawn(done) && TicketOf(done) == TicketOf(op) && !Answers(done, s)
  {
  }

  lemma OwnAnswer(w: World, op: Op, pick: Session, s: Session)
    requires IsSpawn(op)
    requires op.SpawnGated? ==> Owns(w.reg, op.ticket, pick) || Unowned(w.reg, op.ticket)
    requires op.SpawnMissed? ==> pick.ticketID == op.ticket
    requires op.SpawnForked? ==> Owns(w.reg, op.sess.ticketID, pick) || Unowned(w.reg, op.sess.ticketID)
    ensures var e := Outcome(w, op, pick);
            && IsSpawn(e.op) && TicketOf(e.op) == TicketOf(op)
            && (Answers(e.op, s) ==>
                  Answers(op, s) || Owns(w.reg, TicketOf(op), s) || Owns(e.reg, TicketOf(op), s))
  {
    hide Matches, Unowned, Without, WithoutExactly;
  }

  /** Every successful spawn names a session that was the registered owner of its
      ticket at some instant between the request and the reply. */
  lemma {:induction false} AnswerOwnedDuringCall(ws: seq<World>, es: seq<Event>, o: nat, ticket: string,
                                                 i: nat, j: nat, s: Session)
    requires Run(ws, es) && i < j <= |es|
    requires es[i] == Enter(o, SpawnEntered(ticket))
    ensures o in ws[j].ops && IsSpawn(ws[j].ops[o]) && TicketOf(ws[j].ops[o]) == ticket
    ensures Answers(ws[j].ops[o], s) ==> exists k :: i < k <= j && Owns(ws[k].reg, ticket, s)
  {
    hide Owns;
    if j > i + 1 {
      AnswerOwnedDuringCall(ws, es, o, ticket, i, j - 1, s);
      AnswerIsOwner(ws[j - 1], es[j - 1], o, s);
    }
  }

  /** A world reached by draining without the flag: the accept-error exit while a
      spawn is between its gate and its store. */
  lemma AcceptErrorCanOrphan(s: Session) returns (ws: seq<World>, es: seq<Event>)
    requires s.ticketID != ""
    ensures Run(ws, es)
    ensures var w := ws[|es|]; w.cleaned && Quiet(w) && Registered(w.reg, s) && s !in w.dead
  {
    ws, es := [INIT], [];
    ws, es := Extend(ws, es, Enter(0, SpawnEntered(s.ticketID)));
    ws, es := Extend(ws, es, Advance(0, s));
    ws, es := Extend(ws, es, AcceptFailed(1));
    ws, es := Extend(ws, es, Advance(1, s));
    ws, es := Extend(ws, es, Advance(0, s));
    ws, es := Extend(ws, es, Advance(0, s));
    ws, es := Extend(ws, es, Advance(0, s));
    ws, es := Extend(ws, es, Advance(0, s));
  }

  lemma Extend(ws: seq<World>, es: seq<Event>, e: Event) returns (ws': seq<World>, es': seq<Event>)
    requires Run(ws, es) && Enabled(ws[|es|], e)
    ensures Run(ws', es') && ws' == ws + [Next(ws[|es|], e)] && es' == es + [e]
  {
    hide Enabled, Next;
    ws', es' := ws + [Next(ws[|es|], e)], es + [e];
  }
}
