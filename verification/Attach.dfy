/** Attach, takeover and detach of one session (internal/daemon/session.go): a step
    system over every attacher ever created, and the class whose critical sections
    are its steps. */
module Attach {
  import opened Wrappers

  /** One attachedClient: whether Unsubscribe is still set, whether DetachCh is
      closed, and how often its pane subscription has been cancelled. */
  datatype Attacher = Attacher(client: nat, unsubscribe: bool, closed: bool, cancels: nat)

  /** held: attachers whose Unsubscribe a running Detach has captured but not yet
      called. Subscriptions are numbered like attachers; live are those the pane
      still serves. */
  datatype RawSlot = Slot(attached: Option<nat>, made: seq<Attacher>, held: set<nat>, live: set<nat>)
  type Slot = s: RawSlot | s.attached.Some? ==> s.attached.value < |s.made| witness Slot(None, [], {}, {})

  const EMPTY: Slot := Slot(None, [], {}, {})

  datatype Event =
    | Attach(client: nat, takeover: bool)
    | DetachLocked(ac: nat)               // Detach up to the unlock
    | DetachRest(ac: nat, captured: bool) // what Detach does after the unlock
    | FanOutExit(ac: nat)                 // the pane exited

  predicate Enabled(s: Slot, e: Event) {
    match e
    case Attach(_, _) => true
    case DetachLocked(k) => k < |s.made|
    case DetachRest(k, captured) => k < |s.made| && (captured ==> k in s.held)
    case FanOutExit(k) => k < |s.made|
  }

  function Close(s: Slot, k: nat): Slot
    requires k < |s.made|
  {
    s.(made := s.made[k := s.made[k].(closed := true)])
  }

  function Cancel(s: Slot, k: nat): Slot
    requires k < |s.made|
  {
    s.(made := s.made[k := s.made[k].(cancels := s.made[k].cancels + 1)], live := s.live - {k})
  }

  function Forget(s: Slot, k: nat): Slot
    requires k < |s.made|
  {
    s.(made := s.made[k := s.made[k].(unsubscribe := false)])
  }

  /** Takeover's first half: shut the attacher out and free the slot. */
  function Displaced(s: Slot, k: nat): Slot
    requires k < |s.made|
  {
    var shut := Close(s, k);
    (if s.made[k].unsubscribe then Forget(Cancel(shut, k), k) else shut).(attached := None)
  }

  function NewAttacher(client: nat): Attacher {
    Attacher(client, true, false, 0)
  }

  function Installed(s: Slot, client: nat): Slot {
    var k := |s.made|;
    Slot(Some(k), s.made + [NewAttacher(client)], s.held, s.live + {k})
  }

  /** An attach that is let in gives its client a fresh attacher, the current one and
      served; one that is not leaves everything alone. */
  lemma AttachInstalls(s: Slot, client: nat, takeover: bool)
    ensures var t, k := Next(s, Attach(client, takeover)), |s.made|;
            if s.attached.None? || takeover then
              && t.attached == Some(k) && |t.made| == k + 1 && k in t.live
              && t.made[k].client == client && t.made[k].unsubscribe && !t.made[k].closed && t.made[k].cancels == 0
              && (forall j :: 0 <= j < k ==> t.made[j].client == s.made[j].client)
              && (forall j :: 0 <= j < k && s.attached != Some(j) ==>
                    t.made[j] == s.made[j] && (j in t.live <==> j in s.live))
            else t == s
  {
  }

  function Next(s: Slot, e: Event): Slot
    requires Enabled(s, e)
  {
    match e
    case Attach(client, takeover) =>
      if s.attached.None? then Installed(s, client)
      else if takeover then Installed(Displaced(s, s.attached.value), client)
      else s
    case DetachLocked(k) =>
      var freed := if s.attached == Some(k) then s.(attached := None) else s;
      Forget(freed, k).(held := if s.made[k].unsubscribe then s.held + {k} else s.held)
    case DetachRest(k, captured) =>
      if captured then Cancel(Close(s, k), k).(held := s.held - {k}) else Close(s, k)
    case FanOutExit(k) => Close(s, k)
  }

  // ---- What every step keeps ----

  /** Attacher k is in one of three phases: it owns the slot, a Detach holds its
      cancellation, or it is cancelled for good. */
  predicate Accounted(s: Slot, k: nat)
    requires k < |s.made|
  {
    var a := s.made[k];
    && (a.unsubscribe <==> s.attached == Some(k))
    && !(a.unsubscribe && k in s.held)
    && (k in s.live <==> a.cancels == 0)
    && (k in s.live <==> a.unsubscribe || k in s.held)
    && a.cancels <= 1
    && (k !in s.live ==> a.closed)
  }

  ghost predicate Inv(s: Slot) {
    && (forall k :: k in s.held || k in s.live ==> k < |s.made|)
    && (forall k :: 0 <= k < |s.made| ==> Accounted(s, k))
  }

  lemma StepKeepsInv(s: Slot, e: Event)
    requires Inv(s) && Enabled(s, e)
    ensures Inv(Next(s, e))
    ensures |s.made| <= |Next(s, e).made|
  {
    var t := Next(s, e);
    forall k | 0 <= k < |t.made| ensures Accounted(t, k) {
      if k < |s.made| {
        assert Accounted(s, k);
      }
    }
  }

  /** ss is the run of es from the empty slot. */
  ghost predicate Run(ss: seq<Slot>, es: seq<Event>) {
    && |ss| == |es| + 1
    && ss[0] == EMPTY
    && forall i :: 0 <= i < |es| ==> Enabled(ss[i], es[i]) && ss[i + 1] == Next(ss[i], es[i])
  }

  lemma {:induction false} RunKeepsInv(ss: seq<Slot>, es: seq<Event>, n: nat)
    requires Run(ss, es) && n < |ss|
    ensures Inv(ss[n])
    decreases n
  {
    if n > 0 {
      RunKeepsInv(ss, es, n - 1);
      StepKeepsInv(ss[n - 1], es[n - 1]);
    }
  }

  function Holders(s: Slot): set<nat> {
    set k | 0 <= k < |s.made| && s.made[k].unsubscribe
  }

  lemma InvMeansOneOwner(s: Slot)
    requires Inv(s)
    ensures Holders(s) == if s.attached.Some? then {s.attached.value} else {}
    ensures s.held == {} ==> s.live == Holders(s)
    ensures forall k :: 0 <= k < |s.made| ==> s.made[k].cancels <= 1
    ensures forall k :: 0 <= k < |s.made| && k !in Holders(s) + s.held ==> s.made[k].closed && s.made[k].cancels == 1
  {
    forall k | 0 <= k < |s.made|
      ensures k in Holders(s) <==> s.attached == Some(k)
      ensures s.held == {} ==> (k in s.live <==> k in Holders(s))
      ensures s.made[k].cancels <= 1
      ensures k !in Holders(s) + s.held ==> s.made[k].closed && s.made[k].cancels == 1
    {
      assert Accounted(s, k);
    }
  }

  /** In every reachable state the attachers with Unsubscribe set are exactly the
      current one; no subscription was cancelled twice; and once no Detach is
      between its two halves, the pane serves the current attacher alone and every
      earlier one has been told to leave. */
  lemma OneOwner(ss: seq<Slot>, es: seq<Event>, n: nat)
    requires Run(ss, es) && n < |ss|
    ensures Holders(ss[n]) == if ss[n].attached.Some? then {ss[n].attached.value} else {}
    ensures forall k :: 0 <= k < |ss[n].made| ==> ss[n].made[k].cancels <= 1
    ensures ss[n].held == {} ==> ss[n].live == Holders(ss[n])
    ensures forall k :: 0 <= k < |ss[n].made| && k !in Holders(ss[n]) + ss[n].held ==>
      ss[n].made[k].closed && ss[n].made[k].cancels == 1
  {
    RunKeepsInv(ss, es, n);
    InvMeansOneOwner(ss[n]);
  }

  /** Events that may take the slot from attacher j. */
  predicate Evicts(e: Event, j: nat) {
    e == DetachLocked(j) || (e.Attach? && e.takeover)
  }

  /** An attacher keeps the slot and its subscription through every other event:
      refused attaches, and the late detaches and pane-exit notices of anybody
      else, leave even its record alone. */
  lemma {:induction false} OwnerStays(ss: seq<Slot>, es: seq<Event>, j: nat, m: nat, n: nat)
    requires Run(ss, es) && m <= n < |ss|
    requires ss[m].attached == Some(j)
    requires forall i :: m <= i < n ==> !Evicts(es[i], j)
    ensures j < |ss[m].made| && j < |ss[n].made|
    ensures ss[n].attached == Some(j) && j in ss[n].live
    ensures (forall i :: m <= i < n ==> es[i] != FanOutExit(j) && es[i] != DetachRest(j, false)) ==>
      ss[n].made[j] == ss[m].made[j]
    decreases n
  {
    RunKeepsInv(ss, es, m);
    RunKeepsInv(ss, es, n);
    assert Accounted(ss[m], j);
    if m < n {
      OwnerStays(ss, es, j, m, n - 1);
      RunKeepsInv(ss, es, n - 1);
      assert Accounted(ss[n - 1], j);
      var e := es[n - 1];
      assert e.DetachRest? && e.captured ==> e.ac != j;
    }
    assert Accounted(ss[n], j);
  }

  /** A takeover ends the displaced attacher at once, and its own Detach, whenever
      its two halves come, is then without effect. */
  lemma DisplacedDetachIsVoid(s: Slot, client: nat)
    requires Inv(s) && s.attached.Some?
    ensures var k, t := s.attached.value, Next(s, Attach(client, true));
            && t.attached == Some(|s.made|)
            && t.made[k].closed && t.made[k].cancels == 1 && k !in t.live
            && Next(t, DetachLocked(k)) == t
            && Next(t, DetachRest(k, false)) == t
            && !Enabled(t, DetachRest(k, true))
  {
    assert Accounted(s, s.attached.value);
    var k, t := s.attached.value, Next(s, Attach(client, true));
    assert t.made[k := t.made[k]] == t.made;
  }

  /** In every reachable state the same holds of any attacher that is neither the
      current one nor between the halves of a detach: however it was put out, and
      whenever its detach comes, that detach is without effect. */
  lemma LateDetachIsVoid(ss: seq<Slot>, es: seq<Event>, n: nat, k: nat)
    requires Run(ss, es) && n < |ss|
    requires k < |ss[n].made| && ss[n].attached != Some(k) && k !in ss[n].held
    ensures Next(ss[n], DetachLocked(k)) == ss[n]
    ensures Next(ss[n], DetachRest(k, false)) == ss[n]
    ensures !Enabled(ss[n], DetachRest(k, true))
  {
    RunKeepsInv(ss, es, n);
    assert Accounted(ss[n], k);
    assert ss[n].made[k := ss[n].made[k]] == ss[n].made;
  }

  // ---- The session ----

  /** The pane: its size and the subscriptions it serves. */
  class Pane {
    var cols: nat
    var rows: nat
    var live: set<nat>
    var next: nat

    constructor (cols: nat, rows: nat)
      ensures live == {} && next == 0
    {
      this.cols, this.rows, live, next := cols, rows, {}, 0;
    }

    method Subscribe() returns (sub: nat)
      modifies this`live, this`next
      ensures sub == old(next) && next == sub + 1 && live == old(live) + {sub}
    {
      sub := next;
      live, next := live + {sub}, next + 1;
    }

    /** Closes the subscription's channel; a second time would close it twice. */
    method Unsubscribe(sub: nat)
      requires sub in live
      modifies this`live
      ensures live == old(live) - {sub}
    {
      live := live - {sub};
    }
  }

  class AttachedClient {
    const client: nat
    var unsubscribe: Option<nat> // guarded by the session's attachMu
    var detachDone: bool         // DetachOnce has run
    var detachClosed: bool
    ghost var cancels: nat

    constructor (client: nat, sub: nat)
      ensures this.client == client && unsubscribe == Some(sub)
      ensures !detachDone && !detachClosed && cancels == 0
    {
      this.client, unsubscribe, detachDone, detachClosed, cancels := client, Some(sub), false, false, 0;
    }

    ghost function Record(): Attacher
      reads this
    {
      Attacher(client, unsubscribe.Some?, detachClosed, cancels)
    }

    /** DetachOnce.Do(close). */
    method CloseDetach()
      requires detachDone == detachClosed
      modifies this`detachDone, this`detachClosed
      ensures detachDone && detachClosed
    {
      if !detachDone {
        detachDone, detachClosed := true, true;
      }
    }
  }

  /** The attach side of a session. */
  class AttachSession {
    const pane: Pane
    var attached: AttachedClient? // guarded by attachMu
    var viewers: set<nat>
    ghost var created: seq<AttachedClient>
    ghost var slot: Slot

    ghost predicate Valid()
      reads this, pane, created
    {
      Inv(slot) && Linked()
    }

    /** The objects are those of the modelled slot. */
    ghost predicate Linked()
      reads this, pane, created
    {
      && |created| == |slot.made| == pane.next
      && slot.live == pane.live
      && (forall i, j :: 0 <= i < j < |created| ==> created[i] != created[j])
      && (forall i :: 0 <= i < |created| ==> Matches(created[i], i))
      && (attached == null <==> slot.attached.None?)
      && (attached != null ==> attached == created[slot.attached.value])
    }

    ghost predicate Matches(ac: AttachedClient, i: nat)
      requires i < |slot.made|
      reads this, ac
    {
      && ac.Record() == slot.made[i]
      && ac.detachDone == ac.detachClosed
      && (ac.unsubscribe.Some? ==> ac.unsubscribe.value == i)
    }

    constructor (pane: Pane)
      requires pane.live == {} && pane.next == 0
      ensures Valid() && slot == EMPTY && viewers == {} && this.pane == pane
    {
      this.pane, attached, viewers, created, slot := pane, null, {}, [], EMPTY;
    }

    /** Refuses when occupied, unless told to take over; the snapshot describes the
        grid as it was before the resize. */
    method AttemptAttach(client: nat, cols: nat, rows: nat, takeover: bool)
      returns (snapshot: (nat, nat), ac: AttachedClient?)
      requires Valid()
      modifies this`attached, this`created, this`slot, pane, created
      ensures Valid() && slot == Next(old(slot), Attach(client, takeover))
      ensures ac == null <==> old(attached) != null && !takeover
      ensures ac == null ==> created == old(created) && pane.cols == old(pane.cols) && pane.rows == old(pane.rows)
      ensures attached == if ac != null then ac else old(attached)
      ensures ac != null ==> fresh(ac) && created == old(created) + [ac] && ac.Record() == NewAttacher(client)
      ensures ac != null ==> snapshot == (old(pane.cols), old(pane.rows))
      ensures ac != null ==> (pane.cols, pane.rows) == if cols > 0 && rows > 0 then (cols, rows) else snapshot
    {
      snapshot, ac := (0, 0), null;
      StepKeepsInv(slot, Attach(client, takeover));
      if attached != null {
        if !takeover {
          return;
        }
        Displace();
      }
      hide Inv;
      snapshot, ac := Install(client, cols, rows);
    }

    /** Snapshot, subscribe, install, resize. */
    method Install(client: nat, cols: nat, rows: nat) returns (snapshot: (nat, nat), ac: AttachedClient)
      requires Linked() && attached == null
      modifies this`attached, this`created, this`slot, pane
      ensures Linked() && slot == Installed(old(slot), client)
      ensures fresh(ac) && attached == ac && created == old(created) + [ac] && ac.Record() == NewAttacher(client)
      ensures snapshot == (old(pane.cols), old(pane.rows))
      ensures (pane.cols, pane.rows) == if cols > 0 && rows > 0 then (cols, rows) else snapshot
    {
      snapshot := (pane.cols, pane.rows);
      var sub := pane.Subscribe();
      ac := new AttachedClient(client, sub);
      attached := ac;
      created, slot := created + [ac], Installed(slot, client);
      if cols > 0 && rows > 0 {
        pane.cols, pane.rows := cols, rows;
      }
    }

    /** Shuts the current attacher out and frees the slot. */
    method Displace()
      requires Valid() && attached != null
      modifies this`attached, this`slot, pane`live, attached
      ensures Linked() && attached == null && slot == Displaced(old(slot), old(slot.attached.value))
    {
      ghost var k := slot.attached.value;
      assert Accounted(slot, k) && Matches(created[k], k);
      hide Inv, Accounted;
      var prior := attached;
      prior.CloseDetach();
      if prior.unsubscribe.Some? {
        pane.Unsubscribe(prior.unsubscribe.value);
        prior.cancels := prior.cancels + 1;
        prior.unsubscribe := None;
      }
      attached := null;
      slot := Displaced(slot, k);
    }

    /** The locked half of Detach. */
    method DetachUnderLock(ac: AttachedClient, ghost k: nat) returns (unsub: Option<nat>)
      requires Valid() && k < |created| && created[k] == ac
      modifies this`attached, this`slot, ac`unsubscribe
      ensures Valid() && slot == Next(old(slot), DetachLocked(k))
      ensures unsub == if old(slot.made[k].unsubscribe) then Some(k) else None
      ensures attached == if old(attached) == ac then null else old(attached)
    {
      assert Matches(created[k], k);
      StepKeepsInv(slot, DetachLocked(k));
      if attached == ac {
        attached := null;
      }
      unsub := ac.unsubscribe;
      ac.unsubscribe := None;
      slot := Next(slot, DetachLocked(k));
    }

    /** The rest of Detach, after any number of other steps. */
    method DetachAfterUnlock(ac: AttachedClient, unsub: Option<nat>, ghost k: nat)
      requires Valid() && k < |created| && created[k] == ac
      requires unsub.Some? ==> unsub.value == k && k in slot.held
      modifies this`slot, pane`live, ac
      ensures Valid() && slot == Next(old(slot), DetachRest(k, unsub.Some?))
    {
      assert Matches(created[k], k) && Accounted(slot, k);
      StepKeepsInv(slot, DetachRest(k, unsub.Some?));
      ac.CloseDetach();
      if unsub.Some? {
        pane.Unsubscribe(unsub.value);
        ac.cancels := ac.cancels + 1;
      }
      slot := Next(slot, DetachRest(k, unsub.Some?));
    }

    /** Reports how many clients view the session now, and whether this call
        changed that. */
    method SetViewing(client: nat, viewing: bool) returns (count: nat, changed: bool)
      modifies this`viewers
      ensures viewers == if viewing then old(viewers) + {client} else old(viewers) - {client}
      ensures count == |viewers| && (changed <==> viewers != old(viewers))
      ensures changed ==> count == if viewing then |old(viewers)| + 1 else |old(viewers)| - 1
    {
      changed := false;
      if viewing && client !in viewers {
        viewers, changed := viewers + {client}, true;
      } else if !viewing && client in viewers {
        viewers, changed := viewers - {client}, true;
      }
      count := |viewers|;
    }
  }
}
