/** The control connection's calls (internal/daemonclient/client.go): replies
    carry no request id, so pairing rests on order alone. */
module Rpc {
  import opened Wrappers

  /** Frames to the client: the daemon's reply to a call, or a pushed event. */
  datatype Frame = Resp(call: nat) | Push

  /** What a call's one-slot reply channel can hold. */
  datatype Item = Answer(call: nat) | Severed

  /** What a call returns: some call's reply, or one of its three errors. */
  datatype Result = Got(call: nat) | Unavailable | ContextError | WriteError

  datatype Reason = Cancelled | Closed

  /** GivingUp: the final select took the case of that reason, and the channel has
      yet to be looked at once more. */
  datatype Phase = NoCall | Installed | Sent | GivingUp(reason: Reason)

  /** The read loop: waiting for a frame, holding a reply, or about to send one
      into the channel it loaded (named by its call). */
  datatype Reader = Idle | Holding(reply: nat) | Delivering(reply: nat, slot: Option<nat>)

  datatype Link = Link(
    issued: nat,             // calls begun so far; the current one is issued - 1
    phase: Phase,
    slot: Option<nat>,       // the pending channel
    buf: Option<Item>,       // the current call's channel
    toDaemon: seq<nat>,
    toClient: seq<Frame>,
    reader: Reader,
    closed: bool,
    results: seq<Result>)

  /** The number of the call that began last. */
  function Last(l: Link): nat {
    if l.issued == 0 then 0 else l.issued - 1
  }

  const INIT := Link(0, NoCall, None, None, [], [], Idle, false, [])

  datatype Event =
    | Begin | Write | WriteFails
    | Serve | Emit                                  // the daemon
    | Read | Load | Deliver | Disconnect            // the read loop
    | Take | GiveUp(reason: Reason) | Recheck       // the final select

  predicate Enabled(l: Link, e: Event) {
    match e
    case Begin => l.phase == NoCall
    case Write => l.phase == Installed && !l.closed
    case WriteFails => l.phase == Installed
    case Serve => l.toDaemon != []
    case Emit => true
    case Read => l.reader == Idle && !l.closed && l.toClient != []
    case Load => l.reader.Holding?
    case Deliver => l.reader.Delivering?
    case Disconnect => !l.closed
    case Take => l.phase == Sent && l.buf.Some?
    case GiveUp(reason) => l.phase == Sent && (reason == Closed ==> l.closed)
    case Recheck => l.phase.GivingUp?
  }

  function Handle(item: Item): Result {
    match item case Answer(k) => Got(k) case Severed => Unavailable
  }

  function Verdict(reason: Reason): Result {
    match reason case Cancelled => ContextError case Closed => Unavailable
  }

  function Ended(l: Link, r: Result): Link {
    l.(phase := NoCall, slot := None, buf := None, results := l.results + [r])
  }

  function Severing(l: Link): Link {
    l.(closed := true, slot := None, buf := if l.slot.Some? && l.buf.None? then Some(Severed) else l.buf)
  }

  function Step(l: Link, e: Event): Link
    requires Enabled(l, e)
  {
    match e
    case Begin => l.(issued := l.issued + 1, phase := Installed, slot := Some(l.issued), buf := None)
    case Write => l.(phase := Sent, toDaemon := l.toDaemon + [Last(l)])
    case WriteFails => Ended(if l.closed then l else Severing(l), WriteError)
    case Serve => l.(toDaemon := l.toDaemon[1..], toClient := l.toClient + [Resp(l.toDaemon[0])])
    case Emit => l.(toClient := l.toClient + [Push])
    case Read =>
      var f := l.toClient[0];
      l.(toClient := l.toClient[1..], reader := if f.Resp? then Holding(f.call) else Idle)
    case Load => l.(reader := Delivering(l.reader.reply, l.slot))
    case Deliver =>
      var current := l.phase != NoCall && l.reader.slot == Some(Last(l));
      l.(reader := Idle, buf := if current && l.buf.None? then Some(Answer(l.reader.reply)) else l.buf)
    case Disconnect => Severing(l)
    case Take => Ended(l, Handle(l.buf.value))
    case GiveUp(reason) => l.(phase := GivingUp(reason))
    case Recheck => Ended(l, if l.buf.Some? then Handle(l.buf.value) else Verdict(l.phase.reason))
  }

  /** What a call that ends returns: the reply in its channel, the disconnect's error if
      that came first, and without either the error of the case that ended it. */
  lemma CallsEnd(l: Link, e: Event)
    requires Enabled(l, e)
    ensures Step(l, e).results ==
      if e == WriteFails then l.results + [WriteError]
      else if e != Take && e != Recheck then l.results
      else l.results + [match l.buf
                        case Some(Answer(call)) => Got(call)
                        case Some(Severed) => Unavailable
                        case None => if l.phase.reason == Cancelled then ContextError else Unavailable]
  {
  }

  predicate Run(ls: seq<Link>, es: seq<Event>) {
    && |ls| == |es| + 1 && ls[0] == INIT
    && forall i :: 0 <= i < |es| ==> Enabled(ls[i], es[i]) && ls[i + 1] == Step(ls[i], es[i])
  }

  // ---- Pairing ----

  function Replies(fs: seq<Frame>): seq<nat> {
    if fs == [] then []
    else Replies(fs[..|fs| - 1]) + (if fs[|fs| - 1].Resp? then [fs[|fs| - 1].call] else [])
  }

  function Held(r: Reader): seq<nat> {
    if r.Holding? then [r.reply] else []
  }

  /** Calls whose request or reply is under way and whose reply has not been assigned
      to a channel. */
  function Unclaimed(l: Link): seq<nat> {
    Held(l.reader) + Replies(l.toClient) + l.toDaemon
  }

  predicate AllGot(rs: seq<Result>) {
    forall k :: 0 <= k < |rs| ==> rs[k].Got?
  }

  /** The call has been written and waits for its reply. */
  predicate Waiting(l: Link) {
    l.phase == Sent || l.phase.GivingUp?
  }

  /** The read loop is about to send into the current call's channel. */
  predicate Aiming(l: Link) {
    l.phase != NoCall && l.reader.Delivering? && l.reader.slot == Some(Last(l))
  }

  predicate Answered(l: Link) {
    l.buf.Some? && l.buf.value.Answer?
  }

  /** Only the current call's reply can still reach the current call. */
  predicate Paired(l: Link) {
    && (Unclaimed(l) == [] || (Waiting(l) && Unclaimed(l) == [Last(l)]))
    && (Aiming(l) ==> Waiting(l) && l.reader.reply == Last(l) && Unclaimed(l) == [])
    && (Answered(l) ==> Waiting(l) && l.buf.value.call == Last(l) && Unclaimed(l) == [] && !Aiming(l))
  }

  /** The k-th call got its own reply or none. */
  predicate Right(rs: seq<Result>, k: nat)
    requires k < |rs|
  {
    rs[k].Got? ==> rs[k] == Got(k)
  }

  /** Every call begun has a result but the current one, and nothing refers to a call
      that has not begun. */
  predicate Numbered(l: Link) {
    && |l.results| + (if l.phase == NoCall then 0 else 1) == l.issued
    && (l.slot.Some? ==> l.phase != NoCall && l.slot.value == Last(l))
    && (l.reader.Delivering? && l.reader.slot.Some? ==> l.reader.slot.value < l.issued)
    && (forall k :: k in Unclaimed(l) ==> k < l.issued)
  }

  lemma {:induction false} RepliesHead(fs: seq<Frame>)
    requires fs != []
    ensures Replies(fs) == (if fs[0].Resp? then [fs[0].call] else []) + Replies(fs[1..])
  {
    if |fs| > 1 {
      var front := fs[..|fs| - 1];
      RepliesHead(front);
      assert front[1..] == fs[1..][..|fs| - 2];
    }
  }

  lemma RepliesSnoc(fs: seq<Frame>, f: Frame)
    ensures Replies(fs + [f]) == Replies(fs) + (if f.Resp? then [f.call] else [])
  {
    assert (fs + [f])[..|fs|] == fs;
  }

  lemma TransitKeepsUnclaimed(l: Link, e: Event)
    requires Enabled(l, e) && (e == Serve || e == Emit || e == Read)
    ensures Unclaimed(Step(l, e)) == Unclaimed(l)
  {
    hide Replies;
    match e
    case Serve =>
      RepliesSnoc(l.toClient, Resp(l.toDaemon[0]));
      assert l.toDaemon == [l.toDaemon[0]] + l.toDaemon[1..];
      Regroup(Held(l.reader), Replies(l.toClient), [l.toDaemon[0]], l.toDaemon[1..]);
    case Emit => RepliesSnoc(l.toClient, Push);
    case Read =>
      RepliesHead(l.toClient);
      assert [] + Replies(l.toClient) == Replies(l.toClient);
  }

  lemma Regroup(a: seq<nat>, b: seq<nat>, c: seq<nat>, d: seq<nat>)
    ensures a + (b + c) + d == a + b + (c + d)
  {
  }

  lemma LoadClaims(l: Link)
    requires Enabled(l, Load)
    ensures var u := Unclaimed(l);
            u != [] && u[0] == l.reader.reply && Unclaimed(Step(l, Load)) == u[1..]
    ensures forall k :: k in Unclaimed(Step(l, Load)) ==> k in Unclaimed(l)
  {
    hide Replies;
    assert Unclaimed(l) == [l.reader.reply] + (Replies(l.toClient) + l.toDaemon);
    assert [] + Replies(l.toClient) == Replies(l.toClient);
  }

  /** Steps other than these leave what is unclaimed alone. */
  lemma OthersKeepUnclaimed(l: Link, e: Event)
    requires Enabled(l, e) && e != Load && e != Write
    ensures Unclaimed(Step(l, e)) == Unclaimed(l)
  {
    hide Replies;
    if e == Serve || e == Emit || e == Read {
      TransitKeepsUnclaimed(l, e);
    }
  }

  lemma WriteAddsLast(l: Link)
    requires Enabled(l, Write)
    ensures Unclaimed(Step(l, Write)) == Unclaimed(l) + [Last(l)]
  {
    hide Replies;
    assert Step(l, Write).toDaemon == l.toDaemon + [Last(l)];
  }

  lemma StepKeepsNumbered(l: Link, e: Event)
    requires Numbered(l) && Enabled(l, e)
    ensures Numbered(Step(l, e))
  {
    hide Unclaimed;
    match e
    case Load => LoadClaims(l);
    case Write => WriteAddsLast(l);
    case _ => OthersKeepUnclaimed(l, e);
  }

  lemma {:induction false} RunIsNumbered(ls: seq<Link>, es: seq<Event>, n: nat)
    requires Run(ls, es) && n <= |es|
    ensures Numbered(ls[n])
  {
    if n > 0 {
      RunIsNumbered(ls, es, n - 1);
      StepKeepsNumbered(ls[n - 1], es[n - 1]);
    }
  }

  predicate Ends(e: Event) {
    e == Take || e == Recheck || e == WriteFails
  }

  lemma StepKeepsPaired(l: Link, e: Event)
    requires Paired(l) && Numbered(l) && Enabled(l, e) && !Ends(e)
    requires e == Begin ==> Unclaimed(l) == []
    ensures Paired(Step(l, e))
  {
    hide Unclaimed;
    match e
    case Load => LoadClaims(l);
    case Write => WriteAddsLast(l);
    case _ => OthersKeepUnclaimed(l, e);
  }

  lemma EndIsRight(l: Link, e: Event)
    requires Paired(l) && Numbered(l) && Enabled(l, e) && Ends(e)
    ensures |Step(l, e).results| == |l.results| + 1 && Right(Step(l, e).results, |l.results|)
    ensures Step(l, e).results[|l.results|].Got? ==> Unclaimed(l) == [] && Paired(Step(l, e))
  {
    hide Unclaimed;
    OthersKeepUnclaimed(l, e);
  }

  // ---- One call ----

  /** A call that begins with nothing unclaimed gets its own reply or none, whatever
      pushes, timeouts and disconnects fall, and whatever became of the calls
      before it. */
  lemma {:induction false} CallIsPaired(ls: seq<Link>, es: seq<Event>, i: nat, n: nat)
    requires Run(ls, es) && i < n <= |es| && es[i] == Begin && Unclaimed(ls[i]) == []
    ensures var c := |ls[i].results|;
            if |ls[n].results| == c then ls[n].phase != NoCall && Paired(ls[n])
            else |ls[n].results| > c && Right(ls[n].results, c)
    decreases n
  {
    hide Unclaimed;
    RunIsNumbered(ls, es, n - 1);
    var l, e := ls[n - 1], es[n - 1];
    if n == i + 1 {
      OthersKeepUnclaimed(l, e);
    } else {
      CallIsPaired(ls, es, i, n - 1);
      if |l.results| == |ls[i].results| {
        if Ends(e) {
          EndIsRight(l, e);
        } else {
          StepKeepsPaired(l, e);
        }
      }
    }
  }

  /** While every call so far got its reply, nothing is left over for the next. */
  predicate Inv(l: Link) {
    && Numbered(l)
    && (forall k :: 0 <= k < |l.results| && AllGot(l.results[..k]) ==> Right(l.results, k))
    && (AllGot(l.results) ==> Paired(l))
  }

  lemma StepKeepsInv(l: Link, e: Event)
    requires Inv(l) && Enabled(l, e)
    ensures Inv(Step(l, e))
  {
    hide Unclaimed, Paired, Right;
    StepKeepsNumbered(l, e);
    if Ends(e) {
      var rs, rs' := l.results, Step(l, e).results;
      assert rs'[..|rs|] == rs;
      assert AllGot(rs') ==> AllGot(rs) by {
        assert AllGot(rs') ==> forall k :: 0 <= k < |rs| ==> rs'[k].Got?;
      }
      if AllGot(rs) {
        EndIsRight(l, e);
      }
      forall k | 0 <= k < |rs'| && AllGot(rs'[..k]) ensures Right(rs', k) {
        if k < |rs| {
          assert rs'[..k] == rs[..k];
          SameRight(rs, rs', k);
        }
      }
    } else if AllGot(l.results) {
      NothingAtBegin(l);
      StepKeepsPaired(l, e);
    }
  }

  lemma SameRight(rs: seq<Result>, rs': seq<Result>, k: nat)
    requires k < |rs| <= |rs'| && rs'[k] == rs[k]
    ensures Right(rs', k) <==> Right(rs, k)
  {
  }

  lemma NothingAtBegin(l: Link)
    requires Paired(l)
    ensures l.phase == NoCall ==> Unclaimed(l) == []
  {
  }

  /** The k-th call receives the k-th reply or none, as long as no earlier call went
      without its reply. */
  lemma {:induction false} RepliesArePaired(ls: seq<Link>, es: seq<Event>, n: nat)
    requires Run(ls, es) && n <= |es|
    ensures Inv(ls[n])
    ensures forall k :: 0 <= k < |ls[n].results| && AllGot(ls[n].results[..k]) ==> Right(ls[n].results, k)
  {
    if n > 0 {
      RepliesArePaired(ls, es, n - 1);
      StepKeepsInv(ls[n - 1], es[n - 1]);
    }
  }

  /** A reply in the channel of a call that was written is what that call returns,
      whichever case of the select fires and whatever happens until then. */
  lemma {:induction false} BufferedReplyWins(ls: seq<Link>, es: seq<Event>, m: nat, n: nat, k: nat)
    requires Run(ls, es) && m <= n <= |es|
    requires Waiting(ls[m]) && ls[m].buf == Some(Answer(k))
    ensures var c := |ls[m].results|;
            if |ls[n].results| == c then Waiting(ls[n]) && ls[n].buf == Some(Answer(k))
            else |ls[n].results| > c && ls[n].results[c] == Got(k)
    decreases n
  {
    if m < n {
      BufferedReplyWins(ls, es, m, n - 1, k);
    }
  }

  // ---- Exactly when a call can get another call's reply ----

  /** Some continuation begins a call now and gives it the reply of another. */
  ghost predicate CanMispair(ls: seq<Link>, es: seq<Event>)
    requires |ls| == |es| + 1
  {
    exists ls', es' :: Mispairs(ls, es, ls', es')
  }

  ghost predicate Mispairs(ls: seq<Link>, es: seq<Event>, ls': seq<Link>, es': seq<Event>)
    requires |ls| == |es| + 1
  {
    && Run(ls', es') && ls <= ls' && es + [Begin] <= es'
    && var c := |ls[|es|].results|;
       c < |ls'[|es'|].results| && !Right(ls'[|es'|].results, c)
  }

  /** On a closed link a call can only fail to be written. */
  lemma {:induction false} ClosedCallFails(ls: seq<Link>, es: seq<Event>, i: nat, n: nat)
    requires Run(ls, es) && i < n <= |es| && es[i] == Begin && ls[i].closed
    ensures var c := |ls[i].results|;
            && ls[n].closed
            && if |ls[n].results| == c then ls[n].phase == Installed
               else |ls[n].results| > c && ls[n].results[c] == WriteError
    decreases n
  {
    if n > i + 1 {
      ClosedCallFails(ls, es, i, n - 1);
    }
  }

  lemma MispairNeedsLeftover(ls: seq<Link>, es: seq<Event>, ls': seq<Link>, es': seq<Event>)
    requires Run(ls, es) && |ls| == |es| + 1 && Mispairs(ls, es, ls', es')
    ensures !ls[|es|].closed && Unclaimed(ls[|es|]) != []
  {
    hide Unclaimed;
    assert es'[|es|] == (es + [Begin])[|es|] && ls'[|es|] == ls[|es|];
    if ls[|es|].closed {
      ClosedCallFails(ls', es', |es|, |es'|);
    } else if Unclaimed(ls[|es|]) == [] {
      CallIsPaired(ls', es', |es|, |es'|);
    }
  }

  lemma Extend(ls: seq<Link>, es: seq<Event>, e: Event) returns (ls': seq<Link>, es': seq<Event>)
    requires Run(ls, es) && Enabled(ls[|es|], e)
    ensures Run(ls', es') && ls' == ls + [Step(ls[|es|], e)] && es' == es + [e]
  {
    hide Enabled, Step;
    ls', es' := ls + [Step(ls[|es|], e)], es + [e];
  }

  /** The current call waits on an open link for a reply that is not its own. */
  predicate Exposed(l: Link, c: nat, k: nat) {
    && l.phase == Sent && !l.closed && l.buf == None && l.slot == Some(c) && Last(l) == c
    && |l.results| == c && !Aiming(l)
    && Unclaimed(l) != [] && Unclaimed(l)[0] == k
  }

  /** Serving, reading and delivering bring that reply to the call. */
  lemma Fetch(ls: seq<Link>, es: seq<Event>, c: nat, k: nat) returns (ls': seq<Link>, es': seq<Event>)
    requires Run(ls, es) && |ls| == |es| + 1 && Exposed(ls[|es|], c, k)
    ensures Run(ls', es') && |ls'| == |es'| + 1 && ls <= ls' && es <= es'
    ensures |ls'[|es'|].results| == c + 1 && ls'[|es'|].results[c] == Got(k)
    decreases |ls[|es|].toDaemon|, |ls[|es|].toClient|, if ls[|es|].reader == Idle then 0 else 1
  {
    var l := ls[|es|];
    hide Run;
    if l.reader.Holding? {
      assert Unclaimed(l) == [l.reader.reply] + (Replies(l.toClient) + l.toDaemon);
      hide Replies;
      ls', es' := Extend(ls, es, Load);
      ls', es' := Extend(ls', es', Deliver);
      ls', es' := Extend(ls', es', Take);
    } else {
      var e := if l.reader.Delivering? then Deliver else if l.toClient != [] then Read else Serve;
      ExposedMoves(l, c, k, e);
      hide Unclaimed, Exposed;
      var ls1, es1 := Extend(ls, es, e);
      ls', es' := Fetch(ls1, es1, c, k);
    }
  }

  lemma ExposedMoves(l: Link, c: nat, k: nat, e: Event)
    requires Exposed(l, c, k) && !l.reader.Holding?
    requires e == if l.reader.Delivering? then Deliver else if l.toClient != [] then Read else Serve
    ensures Enabled(l, e) && Exposed(Step(l, e), c, k)
  {
    assert Unclaimed(l) == [] + Replies(l.toClient) + l.toDaemon;
    if l.toClient == [] {
      assert Replies(l.toClient) == [] && Unclaimed(l) == l.toDaemon;
    }
    hide Unclaimed;
    OthersKeepUnclaimed(l, e);
  }

  /** From a reachable state in which a call may begin, that call can receive another
      call's reply if and only if the link is open and a reply, or a request still to
      be answered, of an abandoned call is unclaimed. */
  lemma MispairIff(ls: seq<Link>, es: seq<Event>)
    requires Run(ls, es) && |ls| == |es| + 1 && ls[|es|].phase == NoCall
    ensures CanMispair(ls, es) <==> !ls[|es|].closed && Unclaimed(ls[|es|]) != []
  {
    hide Unclaimed;
    if CanMispair(ls, es) {
      var ls', es' :| Mispairs(ls, es, ls', es');
      MispairNeedsLeftover(ls, es, ls', es');
    }
    var l := ls[|es|];
    if !l.closed && Unclaimed(l) != [] {
      RunIsNumbered(ls, es, |es|);
      var c, k := |l.results|, Unclaimed(l)[0];
      assert k in Unclaimed(l);
      var ls1, es1 := Extend(ls, es, Begin);
      OthersKeepUnclaimed(l, Begin);
      WriteAddsLast(ls1[|es1|]);
      var ls2, es2 := Extend(ls1, es1, Write);
      hide Run, Step, Enabled;
      var ls', es' := Fetch(ls2, es2, c, k);
      assert Mispairs(ls, es, ls', es');
    }
  }

  /** Such a run: the call before gave up, and its late reply reached the next. */
  lemma LateReplyReachesNextCall() returns (ls: seq<Link>, es: seq<Event>)
    ensures Run(ls, es) && ls[|es|].results == [ContextError, Got(0)]
  {
    ls, es := [INIT], [];
    ls, es := Extend(ls, es, Begin);
    ls, es := Extend(ls, es, Write);
    ls, es := Extend(ls, es, GiveUp(Cancelled));
    ls, es := Extend(ls, es, Recheck);
    ls, es := Extend(ls, es, Begin);
    ls, es := Extend(ls, es, Write);
    ls, es := Extend(ls, es, Serve);
    ls, es := Extend(ls, es, Read);
    ls, es := Extend(ls, es, Load);
    ls, es := Extend(ls, es, Deliver);
    ls, es := Extend(ls, es, Take);
  }
}
