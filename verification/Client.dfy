/** The client object's critical sections (internal/daemonclient/client.go), each
    matched by one step of the pairing model. */
module Client {
  import opened Rpc
  import opened Wrappers

  /** A reply channel with one slot. */
  class Chan {
    var slot: Option<Item>

    constructor ()
      ensures slot == None
    {
      slot := None;
    }

    /** A non-blocking send: a full channel drops the item. */
    method Offer(item: Item)
      modifies this
      ensures slot == if old(slot).None? then Some(item) else old(slot)
    {
      if slot.None? {
        slot := Some(item);
      }
    }
  }

  class Client {
    var pending: Chan?       // guarded by pendingMu
    var closed: bool
    var current: Chan?       // the channel of the call under rpcMu
    var loaded: Chan?        // the channel the read loop last loaded
    ghost var link: Link

    ghost predicate Valid()
      reads this, current
    {
      && Numbered(link)
      && closed == link.closed
      && (link.phase != NoCall <==> current != null)
      && (current != null ==> current.slot == link.buf)
      && (pending != null <==> link.slot.Some?)
      && (pending != null ==> pending == current)
      && (link.reader.Delivering? && link.phase != NoCall ==> (Aiming(link) <==> loaded == current))
      && (link.reader.Delivering? ==> (loaded == null <==> link.reader.slot.None?))
    }

    constructor ()
      ensures Valid() && link == INIT
    {
      pending, current, loaded, closed := null, null, null, false;
      link := INIT;
    }

    /** Start of a round trip: a fresh channel becomes the pending one. */
    method Install()
      requires Valid() && link.phase == NoCall
      modifies this
      ensures Valid() && link == Step(old(link), Begin)
      ensures fresh(current) && current.slot == None && pending == current
    {
      StepKeepsNumbered(link, Begin);
      hide Unclaimed;
      var ch := new Chan();
      current, pending := ch, ch;
      link := Step(link, Begin);
    }

    /** The read loop picks up the pending channel, if there is one. */
    method LoadPending()
      requires Valid() && link.reader.Holding?
      modifies this`loaded, this`link
      ensures Valid() && link == Step(old(link), Load) && loaded == pending
    {
      StepKeepsNumbered(link, Load);
      hide Unclaimed;
      loaded := pending;
      link := Step(link, Load);
    }

    /** Hands the reply to the loaded channel; an older call's channel is not the
        current one, so what is sent there is never read. */
    method DeliverResp(reply: nat)
      requires Valid() && link.reader.Delivering? && link.reader.reply == reply
      modifies this`link, loaded
      ensures Valid() && link == Step(old(link), Deliver)
      ensures loaded != null ==>
        loaded.slot == if old(loaded.slot).None? then Some(Answer(reply)) else old(loaded.slot)
    {
      StepKeepsNumbered(link, Deliver);
      hide Unclaimed;
      if loaded != null {
        loaded.Offer(Answer(reply));
      }
      link := Step(link, Deliver);
    }

    /** Marks the client closed and wakes the waiting call; runs once. */
    method SignalDisconnect()
      requires Valid()
      modifies this`closed, this`pending, this`link, pending
      ensures Valid()
      ensures link == if old(closed) then old(link) else Step(old(link), Disconnect)
      ensures closed && (!old(closed) ==> pending == null)
      ensures !old(closed) && old(pending) != null ==>
        old(pending).slot == if old(pending.slot).None? then Some(Severed) else old(pending.slot)
    {
      if closed {
        return;
      }
      StepKeepsNumbered(link, Disconnect);
      hide Unclaimed;
      closed := true;
      if pending != null {
        pending.Offer(Severed);
        pending := null;
      }
      link := Step(link, Disconnect);
    }

    /** The pending case of the final select. */
    method TakeReply() returns (r: Result)
      requires Valid() && Enabled(link, Take)
      modifies this`pending, this`current, this`link
      ensures Valid() && link == Step(old(link), Take) && link.results == old(link.results) + [r]
      ensures match old(link.buf).value case Answer(call) => r == Got(call) case Severed => r == Unavailable
    {
      StepKeepsNumbered(link, Take);
      hide Unclaimed;
      r := Handle(current.slot.value);
      pending, current := null, null;
      link := Step(link, Take);
    }

    /** The two other cases, when they fire. */
    method GiveUpOn(reason: Reason)
      requires Valid() && Enabled(link, GiveUp(reason))
      modifies this`link
      ensures Valid() && link == Step(old(link), GiveUp(reason))
    {
      StepKeepsNumbered(link, GiveUp(reason));
      hide Unclaimed;
      link := Step(link, GiveUp(reason));
    }

    /** Their inner select, after any other steps: a reply that is there by now is
        returned, otherwise the case's own error. */
    method LookAgain(reason: Reason) returns (r: Result)
      requires Valid() && link.phase == GivingUp(reason)
      modifies this`pending, this`current, this`link
      ensures Valid() && link == Step(old(link), Recheck) && link.results == old(link.results) + [r]
      ensures match old(link.buf)
              case Some(Answer(call)) => r == Got(call)
              case Some(Severed) => r == Unavailable
              case None => r == if reason == Cancelled then ContextError else Unavailable
    {
      StepKeepsNumbered(link, Recheck);
      hide Unclaimed;
      if current.slot.Some? {
        r := Handle(current.slot.value);
      } else if reason == Cancelled {
        r := ContextError;
      } else {
        r := Unavailable;
      }
      pending, current := null, null;
      link := Step(link, Recheck);
    }

    /** The read loop and the daemon take any number of steps; the call stays where
        it is, and keeps a reply it has. */
    method Yield()
      requires Valid() && Waiting(link)
      modifies this, current
      ensures Valid() && link.phase == old(link.phase) && link.results == old(link.results)
      ensures current == old(current) && (old(link.buf).Some? ==> link.buf == old(link.buf))
    {
    }

    /** The whole final select; givesUp says which other case fires, if one does. A
        reply in the channel when it starts is returned in any case. */
    method Await(givesUp: Option<Reason>) returns (r: Result)
      requires Valid() && Enabled(link, if givesUp.Some? then GiveUp(givesUp.value) else Take)
      modifies this, current
      ensures Valid() && link.phase == NoCall && link.results == old(link.results) + [r]
      ensures Answered(old(link)) ==> r == Got(old(link.buf).value.call)
    {
      if givesUp.None? {
        r := TakeReply();
      } else {
        GiveUpOn(givesUp.value);
        Yield();
        r := LookAgain(givesUp.value);
      }
    }
  }
}
