/** Coalesced rendering within one attach (internal/daemonclient/paneview.go): the
    read loop applies output and signals, the UI consumes the signal and renders. */
module Render {
  import opened Wrappers

  datatype Msg = Output | Other

  /** The read loop between applying a frame, winning the swap and emitting. */
  datatype Producer = Idle | Applied | Won

  /** applied counts the frames written to the emulator, shown how many the last
      View reflected; inFlight is the message a poll has taken but Update has not
      seen, due says that a View follows the last Update. */
  datatype State = State(
    applied: nat,
    shown: nat,
    pending: bool,
    queue: seq<Msg>,
    producer: Producer,
    inFlight: Option<Msg>,
    due: bool)

  const CAPACITY := 64

  datatype Event = Apply | Swap | Emit | EmitOther | Take | Update | View

  predicate Enabled(s: State, e: Event) {
    match e
    case Apply => s.producer == Idle
    case Swap => s.producer == Applied
    case Emit => s.producer == Won
    case Take => s.inFlight == None && s.queue != []
    case Update => s.inFlight.Some? && !s.due
    case _ => true
  }

  /** A non-blocking send: a full queue drops the message. */
  function Offer(queue: seq<Msg>, m: Msg): seq<Msg> {
    if |queue| < CAPACITY then queue + [m] else queue
  }

  function Next(s: State, e: Event): State
    requires Enabled(s, e)
  {
    match e
    case Apply => s.(applied := s.applied + 1, producer := Applied)
    case Swap => s.(pending := true, producer := if s.pending then Idle else Won)
    case Emit => s.(queue := Offer(s.queue, Output), producer := Idle)
    case EmitOther => s.(queue := Offer(s.queue, Other))
    case Take => s.(inFlight := Some(s.queue[0]), queue := s.queue[1..])
    case Update =>
      s.(pending := if s.inFlight.value == Output then false else s.pending, inFlight := None, due := true)
    case View => s.(shown := s.applied, due := false)
  }

  function Count(queue: seq<Msg>, m: Msg): nat {
    if queue == [] then 0 else (if queue[0] == m then 1 else 0) + Count(queue[1..], m)
  }

  lemma {:induction false} CountAppend(queue: seq<Msg>, last: Msg, m: Msg)
    ensures Count(queue + [last], m) == Count(queue, m) + if last == m then 1 else 0
  {
    if queue != [] {
      CountAppend(queue[1..], last, m);
      assert (queue + [last])[1..] == queue[1..] + [last];
    }
  }

  lemma {:induction false} CountsAddUp(queue: seq<Msg>)
    ensures Count(queue, Output) + Count(queue, Other) == |queue|
  {
    if queue != [] {
      CountsAddUp(queue[1..]);
    }
  }

  /** Output signals queued, taken but not consumed, or about to be queued. */
  function Signals(s: State): nat {
    Count(s.queue, Output)
    + (if s.inFlight == Some(Output) then 1 else 0)
    + (if s.producer == Won then 1 else 0)
  }

  /** Something will make the UI render. */
  predicate RenderComing(s: State) {
    Count(s.queue, Output) > 0 || s.inFlight == Some(Output) || s.due || s.producer != Idle
  }

  /** An attach begins: the flag is reset; messages of an earlier attach may still
      be queued or on their way. */
  predicate Begins(s: State) {
    !s.pending && s.producer == Idle && s.applied == s.shown && |s.queue| <= CAPACITY
  }

  /** stale is the number of signals left over from the earlier attach. An Update
      may clear the flag between a swap and its emit, but its View comes. */
  predicate Inv(s: State, stale: nat) {
    && |s.queue| <= CAPACITY
    && (s.pending ==> Signals(s) > 0)
    && Signals(s) <= stale + (if s.pending then 1 else 0)
    && s.shown <= s.applied
    && (s.shown < s.applied ==> RenderComing(s))
    && (s.producer == Won && !s.pending ==> s.due || s.shown == s.applied)
  }

  predicate Drops(s: State, e: Event) {
    e == Emit && |s.queue| >= CAPACITY
  }

  /** A drop that leaves the flag set for nobody. */
  predicate Mutes(s: State, e: Event) {
    Drops(s, e) && s.pending && Signals(s) == 1
  }

  lemma StepKeepsInv(s: State, e: Event, stale: nat)
    requires Inv(s, stale) && Enabled(s, e) && !Mutes(s, e)
    ensures Inv(Next(s, e), stale)
  {
    if e == Emit {
      CountAppend(s.queue, Output, Output);
    } else if e == EmitOther {
      CountAppend(s.queue, Other, Output);
    }
  }

  ghost predicate Run(ss: seq<State>, es: seq<Event>) {
    && |ss| == |es| + 1
    && Begins(ss[0])
    && forall i :: 0 <= i < |es| ==> Enabled(ss[i], es[i]) && ss[i + 1] == Next(ss[i], es[i])
  }

  /** No step before n muted the attach. */
  ghost predicate NeverMuted(ss: seq<State>, es: seq<Event>, n: nat)
    requires Run(ss, es) && n < |ss|
  {
    forall i :: 0 <= i < n ==> !Mutes(ss[i], es[i])
  }

  lemma {:induction false} RunKeepsInv(ss: seq<State>, es: seq<Event>, n: nat)
    requires Run(ss, es) && n < |ss| && NeverMuted(ss, es, n)
    ensures Inv(ss[n], Signals(ss[0]))
    decreases n
  {
    if n > 0 {
      RunKeepsInv(ss, es, n - 1);
      StepKeepsInv(ss[n - 1], es[n - 1], Signals(ss[0]));
    }
  }

  /** As long as no drop mutes the attach, output the last View did not show implies
      that a signal is queued, or being consumed with its View to come, or about
      to be sent; and all the bursts together keep at most one signal outstanding
      beyond those the attach began with. */
  lemma NothingIsLost(ss: seq<State>, es: seq<Event>, n: nat)
    requires Run(ss, es) && n < |ss| && NeverMuted(ss, es, n)
    ensures ss[n].shown < ss[n].applied ==>
      Output in ss[n].queue || ss[n].inFlight == Some(Output) || ss[n].due || ss[n].producer != Idle
    ensures Signals(ss[n]) <= Signals(ss[0]) + 1
  {
    RunKeepsInv(ss, es, n);
    CountIsMembership(ss[n].queue);
  }

  lemma {:induction false} CountIsMembership(queue: seq<Msg>)
    ensures Count(queue, Output) > 0 <==> Output in queue
  {
    if queue != [] {
      CountIsMembership(queue[1..]);
    }
  }

  /** Output alone never fills the queue: no signal is dropped while the other
      messages and the left-over signals stay below its capacity. */
  lemma {:induction false} OutputNeverFillsTheQueue(ss: seq<State>, es: seq<Event>, n: nat)
    requires Run(ss, es) && n < |ss|
    requires forall i :: 0 <= i < n ==> Count(ss[i].queue, Other) + Signals(ss[0]) < CAPACITY
    ensures forall i :: 0 <= i < n ==> !Drops(ss[i], es[i])
    ensures NeverMuted(ss, es, n)
    decreases n
  {
    if n > 0 {
      OutputNeverFillsTheQueue(ss, es, n - 1);
      RunKeepsInv(ss, es, n - 1);
      CountsAddUp(ss[n - 1].queue);
    }
  }

  // ---- What a dropped signal costs ----

  predicate Silenced(s: State) {
    s.pending && Signals(s) == 0
  }

  lemma SilenceStays(s: State, e: Event)
    requires Enabled(s, e) && Silenced(s)
    ensures Silenced(Next(s, e))
  {
    if e == EmitOther {
      CountAppend(s.queue, Other, Output);
    }
  }

  /** From a silenced state on, no output of this attach is ever signalled. */
  lemma {:induction false} SilenceLasts(ss: seq<State>, es: seq<Event>, m: nat, n: nat)
    requires Run(ss, es) && m <= n < |ss| && Silenced(ss[m])
    ensures Silenced(ss[n])
    decreases n
  {
    if m < n {
      SilenceLasts(ss, es, m, n - 1);
      assert Enabled(ss[n - 1], es[n - 1]) && ss[n] == Next(ss[n - 1], es[n - 1]);
      SilenceStays(ss[n - 1], es[n - 1]);
    }
  }

  /** An attach is silenced exactly when some step before muted it: a drop with the
      flag set and no other signal outstanding. Every other drop is harmless. */
  lemma SilencedIffMuted(ss: seq<State>, es: seq<Event>, n: nat)
    requires Run(ss, es) && n < |ss|
    ensures Silenced(ss[n]) <==> !NeverMuted(ss, es, n)
  {
    if NeverMuted(ss, es, n) {
      RunKeepsInv(ss, es, n);
    } else {
      var i :| 0 <= i < n && Mutes(ss[i], es[i]);
      assert Silenced(ss[i + 1]);
      SilenceLasts(ss, es, i + 1, n);
    }
  }

  /** The queue an attach begins with can be full of other messages, and then its
      first output is lost that way. */
  lemma FullQueueSilences(queue: seq<Msg>)
    requires |queue| == CAPACITY && Count(queue, Output) == 0
    ensures var s0 := State(0, 0, false, queue, Idle, None, false);
            var s1 := Next(s0, Apply);
            var s3 := Next(Next(s1, Swap), Emit);
            Begins(s0) && Silenced(s3) && s3.shown < s3.applied && !RenderComing(s3)
  {
  }

  // ---- The view's fields ----

  class PaneView {
    const render: nat -> string   // the emulator's picture after that many frames
    var dirty: bool               // guarded by p.mu, as are cachedView and frames
    var cachedView: string
    var frames: nat
    var renderSignalPending: bool // atomic
    var teaMsgs: seq<Msg>
    ghost var state: State

    ghost predicate Valid()
      reads this
    {
      && frames == state.applied
      && renderSignalPending == state.pending
      && teaMsgs == state.queue
      && (!dirty && cachedView != "" ==> cachedView == render(frames))
    }

    constructor (render: nat -> string, queue: seq<Msg>)
      ensures Valid() && state == State(0, 0, false, queue, Idle, None, false)
    {
      this.render := render;
      dirty, cachedView, frames := true, "", 0;
      renderSignalPending, teaMsgs := false, queue;
      state := State(0, 0, false, queue, Idle, None, false);
    }

    method ApplyOutput()
      requires Valid() && Enabled(state, Apply)
      modifies this
      ensures Valid() && state == Next(old(state), Apply)
    {
      frames, dirty, cachedView := frames + 1, true, "";
      state := Next(state, Apply);
    }

    /** signalRender's swap; the caller emits exactly when it wins. */
    method SwapPending() returns (won: bool)
      requires Valid() && Enabled(state, Swap)
      modifies this`renderSignalPending, this`state
      ensures Valid() && state == Next(old(state), Swap) && (won <==> Enabled(state, Emit))
      ensures renderSignalPending && (won <==> !old(renderSignalPending))
    {
      won := !renderSignalPending;
      renderSignalPending := true;
      state := Next(state, Swap);
    }

    /** emitTeaMsg with the output signal. */
    method EmitOutput()
      requires Valid() && Enabled(state, Emit)
      modifies this`teaMsgs, this`state
      ensures Valid() && state == Next(old(state), Emit)
      ensures teaMsgs == if |old(teaMsgs)| < 64 then old(teaMsgs) + [Output] else old(teaMsgs)
    {
      if |teaMsgs| < CAPACITY {
        teaMsgs := teaMsgs + [Output];
      }
      state := Next(state, Emit);
    }

    /** emitTeaMsg with any other message. */
    method EmitMsg()
      requires Valid()
      modifies this`teaMsgs, this`state
      ensures Valid() && state == Next(old(state), EmitOther)
      ensures teaMsgs == if |old(teaMsgs)| < 64 then old(teaMsgs) + [Other] else old(teaMsgs)
    {
      if |teaMsgs| < CAPACITY {
        teaMsgs := teaMsgs + [Other];
      }
      state := Next(state, EmitOther);
    }

    method Poll() returns (msg: Msg)
      requires Valid() && Enabled(state, Take)
      modifies this`teaMsgs, this`state
      ensures Valid() && state == Next(old(state), Take) && state.inFlight == Some(msg)
      ensures old(teaMsgs) == [msg] + teaMsgs
    {
      msg := teaMsgs[0];
      teaMsgs := teaMsgs[1..];
      state := Next(state, Take);
    }

    /** Update clears the flag before the View that follows it. */
    method HandleMsg(msg: Msg)
      requires Valid() && Enabled(state, Update) && state.inFlight == Some(msg)
      modifies this`renderSignalPending, this`state
      ensures Valid() && state == Next(old(state), Update)
      ensures renderSignalPending <==> old(renderSignalPending) && msg != Output
      ensures state.due && state.inFlight == None
    {
      if msg == Output {
        renderSignalPending := false;
      }
      state := Next(state, Update);
    }

    /** Always the picture of everything applied, cached or not. */
    method Show() returns (picture: string)
      requires Valid()
      modifies this`dirty, this`cachedView, this`state
      ensures Valid() && state == Next(old(state), View)
      ensures picture == render(frames) && state.shown == frames && !state.due
    {
      state := Next(state, View);
      if !dirty && cachedView != "" {
        return cachedView;
      }
      cachedView, dirty := render(frames), false;
      return cachedView;
    }
  }
}
