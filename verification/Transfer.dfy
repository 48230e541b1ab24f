/** Frames over a connection: the codec's reads and writes, the snapshot sender
    and the attach client's counting loop. */
module Transfer {
  import opened Wire
  import opened Wrappers

  /** One direction of a connection. `room` is how many more bytes the writer's
      side accepts before its writes fail. */
  class Pipe {
    var data: seq<byte>
    var room: nat
    var closed: bool

    constructor (data: seq<byte>, room: nat)
      ensures this.data == data && this.room == room && !closed
    {
      this.data, this.room, closed := data, room, false;
    }

    method Close()
      modifies this`closed
      ensures closed
    {
      closed := true;
    }

    method Write(s: seq<byte>) returns (ok: bool)
      requires !closed
      modifies this`data, this`room
      ensures ok == (|s| <= old(room))
      ensures data == old(data) + (if ok then s else s[..old(room)])
      ensures room == if ok then old(room) - |s| else 0
    {
      ok := |s| <= room;
      data := data + (if ok then s else s[..room]);
      room := if ok then room - |s| else 0;
    }

    /** io.ReadFull: n bytes, or the reason why there are fewer. */
    method ReadFull(n: nat) returns (s: seq<byte>, error: Option<ReadError>)
      requires n > 0 && !closed
      modifies this`data
      ensures |old(data)| >= n ==> error.None? && s == old(data)[..n] && data == old(data)[n..]
      ensures |old(data)| < n ==>
        error == Some(if old(data) == [] then Eof else UnexpectedEof) && s == old(data) && data == []
    {
      if |data| >= n {
        s, error := data[..n], None;
        data := data[n..];
      } else {
        s, error := data, Some(if data == [] then Eof else UnexpectedEof);
        data := [];
      }
    }
  }

  /** Writes a frame, or refuses one that is too large. A write that fails leaves
      a proper prefix of the frame on the wire. */
  method WriteFrame(w: Pipe, typ: byte, payload: seq<byte>) returns (ok: bool)
    requires !w.closed
    modifies w`data, w`room
    ensures !Fits(Frame(typ, payload)) ==> !ok && w.data == old(w.data) && w.room == old(w.room)
    ensures Fits(Frame(typ, payload)) ==>
              var e := Encode(Frame(typ, payload));
              && ok == (|e| <= old(w.room))
              && w.data == old(w.data) + (if ok then e else e[..old(w.room)])
              && w.room == if ok then old(w.room) - |e| else 0
  {
    var total := |payload| + 1;
    if total > MAX_FRAME_SIZE {
      return false;
    }
    ghost var e := Encode(Frame(typ, payload));
    var hdr := PutUint32(total) + [typ];
    assert e == hdr + payload;
    ok := w.Write(hdr);
    if !ok {
      assert hdr[..old(w.room)] == e[..old(w.room)];
      return;
    }
    if |payload| > 0 {
      ok := w.Write(payload);
      assert !ok ==> hdr + payload[..old(w.room) - 5] == e[..old(w.room)];
    }
  }

  method ReadFrame(r: Pipe) returns (res: ReadResult)
    requires !r.closed
    modifies r`data
    ensures res == ReadOne(old(r.data)) && r.data == res.rest
  {
    var hdr, error := r.ReadFull(4);
    if error.Some? {
      return Failed(error.value, r.data);
    }
    var length := Uint32(hdr);
    if length == 0 {
      return Failed(ZeroLength, r.data);
    }
    if length > MAX_FRAME_SIZE {
      return Failed(FrameTooLarge, r.data);
    }
    var body;
    body, error := r.ReadFull(length);
    if error.Some? {
      return Failed(error.value, r.data);
    }
    return Ok(Frame(body[0], body[1..]), r.data);
  }

  // ---- Snapshot transfer ----

  /** data cut into output frames of at most 64 KiB. */
  function Chunks(data: seq<byte>): (fs: seq<Frame>)
    ensures forall f :: f in fs ==> Fits(f)
  {
    if data == [] then []
    else if |data| <= SNAPSHOT_CHUNK then [Frame(TYPE_PTY_OUTPUT, data)]
    else [Frame(TYPE_PTY_OUTPUT, data[..SNAPSHOT_CHUNK])] + Chunks(data[SNAPSHOT_CHUNK..])
  }

  lemma {:induction false} EncodeAllSnoc(fs: seq<Frame>, f: Frame)
    requires (forall g :: g in fs ==> Fits(g)) && Fits(f)
    ensures EncodeAll(fs + [f]) == EncodeAll(fs) + Encode(f)
  {
    if fs == [] {
      assert [f][1..] == [] && Encode(f) + [] == Encode(f);
    } else {
      assert (fs + [f])[1..] == fs[1..] + [f];
      EncodeAllSnoc(fs[1..], f);
    }
  }

  lemma ChunksStep(data: seq<byte>)
    requires data != []
    ensures var n := if |data| < SNAPSHOT_CHUNK then |data| else SNAPSHOT_CHUNK;
            EncodeAll(Chunks(data)) == Encode(Frame(TYPE_PTY_OUTPUT, data[..n])) + EncodeAll(Chunks(data[n..]))
  {
    hide Encode, EncodeAll;
    var n := if |data| < SNAPSHOT_CHUNK then |data| else SNAPSHOT_CHUNK;
    var head := Frame(TYPE_PTY_OUTPUT, data[..n]);
    ChunksHead(data);
    EncodeAllHead(Chunks(data));
    assert ([head] + Chunks(data[n..]))[1..] == Chunks(data[n..]);
  }

  lemma ChunksHead(data: seq<byte>)
    requires data != []
    ensures var n := if |data| < SNAPSHOT_CHUNK then |data| else SNAPSHOT_CHUNK;
            Chunks(data) == [Frame(TYPE_PTY_OUTPUT, data[..n])] + Chunks(data[n..])
  {
    if |data| <= SNAPSHOT_CHUNK {
      assert data[..|data|] == data && data[|data|..] == [];
    }
  }

  /** The bytes still to be sent from offset off. */
  ghost function Unsent(data: seq<byte>, off: nat): seq<byte>
    requires off <= |data|
  {
    EncodeAll(Chunks(data[off..]))
  }

  function ChunkEnd(data: seq<byte>, off: nat): (end: nat)
    requires off < |data|
    ensures off < end <= |data|
  {
    if off + SNAPSHOT_CHUNK > |data| then |data| else off + SNAPSHOT_CHUNK
  }

  lemma UnsentStep(data: seq<byte>, off: nat)
    requires off < |data|
    ensures var end := ChunkEnd(data, off);
            Fits(Frame(TYPE_PTY_OUTPUT, data[off..end]))
            && Unsent(data, off) == Encode(Frame(TYPE_PTY_OUTPUT, data[off..end])) + Unsent(data, end)
  {
    hide EncodeAll, Encode;
    var rest, end := data[off..], ChunkEnd(data, off);
    ChunksStep(rest);
    assert rest[..end - off] == data[off..end] && rest[end - off..] == data[end..];
  }

  /** Sends the snapshot; after a failed write the peer has a proper prefix. */
  method WriteSnapshotChunks(conn: Pipe, data: seq<byte>) returns (ok: bool)
    requires !conn.closed
    modifies conn`data, conn`room
    ensures var all := EncodeAll(Chunks(data));
            && ok == (|all| <= old(conn.room))
            && conn.data == old(conn.data) + (if ok then all else all[..old(conn.room)])
            && conn.room == if ok then old(conn.room) - |all| else 0
  {
    hide Encode, EncodeAll, Chunks;
    assert data[0..] == data;
    if data == [] {
      NothingToSend();
      return true;
    }
    var off := 0;
    ghost var sent: seq<byte> := [];
    while off < |data|
      invariant 0 <= off <= |data|
      invariant Unsent(data, 0) == sent + Unsent(data, off)
      invariant |sent| <= old(conn.room)
      invariant conn.data == old(conn.data) + sent && conn.room == old(conn.room) - |sent|
    {
      hide Unsent;
      var end := off + SNAPSHOT_CHUNK;
      if end > |data| {
        end := |data|;
      }
      UnsentStep(data, off);
      ghost var e := Encode(Frame(TYPE_PTY_OUTPUT, data[off..end]));
      ok := WriteFrame(conn, TYPE_PTY_OUTPUT, data[off..end]);
      Resent(old(conn.data), sent, e, Unsent(data, end), old(conn.room));
      if !ok {
        return;
      }
      sent := sent + e;
      off := end;
    }
    assert data[|data|..] == [];
    NothingToSend();
    ok := true;
  }

  lemma NothingToSend()
    ensures EncodeAll(Chunks([])) == []
  {
  }

  lemma Regroup(sent: seq<byte>, e: seq<byte>, rest: seq<byte>, room: nat)
    requires |sent| <= room
    ensures sent + (e + rest) == sent + e + rest
    ensures |e| > room - |sent| ==> (sent + (e + rest))[..room] == sent + e[..room - |sent|]
  {
  }

  lemma Resent(before: seq<byte>, sent: seq<byte>, e: seq<byte>, rest: seq<byte>, room: nat)
    requires |sent| <= room
    ensures sent + (e + rest) == sent + e + rest
    ensures before + sent + e == before + (sent + e)
    ensures |e| > room - |sent| ==> before + sent + e[..room - |sent|] == before + (sent + (e + rest))[..room]
  {
    Regroup(sent, e, rest, room);
  }

  datatype Received =
    | Complete(applied: seq<byte>, overshot: bool)
    | Broken(applied: seq<byte>, error: ReadError)
    | WrongType(applied: seq<byte>, typ: byte)

  /** What the counting loop makes of a stream, and what it leaves unread. */
  function Receive(s: seq<byte>, remaining: int, applied: seq<byte>): (Received, seq<byte>)
    decreases |s|
  {
    if remaining <= 0 then (Complete(applied, remaining < 0), s)
    else
      match ReadOne(s)
      case Failed(e, rest) => (Broken(applied, e), rest)
      case Ok(f, rest) =>
        if f.typ != TYPE_PTY_OUTPUT then (WrongType(applied, f.typ), rest)
        else Receive(rest, remaining - |f.payload|, applied + f.payload)
  }

  /** Frames as they may arrive: the chunks, with empty keepalive frames anywhere
      before the last of them. */
  predicate Carries(fs: seq<Frame>, data: seq<byte>) {
    && (forall f :: f in fs ==> Fits(f) && f.typ == TYPE_PTY_OUTPUT)
    && Payloads(fs) == data && (fs != [] ==> fs[|fs| - 1].payload != [])
  }

  function Payloads(fs: seq<Frame>): seq<byte> {
    if fs == [] then [] else fs[0].payload + Payloads(fs[1..])
  }

  lemma {:induction false} PayloadsNonEmpty(fs: seq<Frame>)
    requires fs != [] && fs[|fs| - 1].payload != []
    ensures |Payloads(fs)| > 0
  {
    if |fs| > 1 {
      PayloadsNonEmpty(fs[1..]);
    }
  }

  lemma Associates(a: seq<byte>, b: seq<byte>, c: seq<byte>)
    ensures a + b + c == a + (b + c)
  {
  }

  lemma EncodeAllHead(fs: seq<Frame>)
    requires fs != [] && forall f :: f in fs ==> Fits(f)
    ensures EncodeAll(fs) == Encode(fs[0]) + EncodeAll(fs[1..])
  {
  }

  lemma {:induction false} ChunksCarry(data: seq<byte>)
    ensures Carries(Chunks(data), data)
    ensures forall i :: 0 <= i < |Chunks(data)| ==>
      var n := |Chunks(data)[i].payload|;
      0 < n <= SNAPSHOT_CHUNK && (i < |Chunks(data)| - 1 ==> n == SNAPSHOT_CHUNK)
  {
    if |data| > SNAPSHOT_CHUNK {
      ChunksCarry(data[SNAPSHOT_CHUNK..]);
      assert data == data[..SNAPSHOT_CHUNK] + data[SNAPSHOT_CHUNK..];
      assert Chunks(data)[1..] == Chunks(data[SNAPSHOT_CHUNK..]);
    } else if data != [] {
      assert [Frame(TYPE_PTY_OUTPUT, data)][1..] == [];
    }
  }

  // ---- What an answer means ----

  predicate Outputs(fs: seq<Frame>) {
    forall f :: f in fs ==> Fits(f) && f.typ == TYPE_PTY_OUTPUT
  }

  /** All of fs are wanted: before the last of them less than size had arrived. */
  predicate Wanted(fs: seq<Frame>, size: int) {
    Outputs(fs) && (fs != [] ==> |Payloads(fs[..|fs| - 1])| < size)
  }

  /** An answer told by frames: of the stream s the output frames fs came first and
      their payloads were applied; then enough had arrived, or the next read
      failed, or it brought a frame of another type. */
  ghost predicate Explains(fs: seq<Frame>, s: seq<byte>, size: int, res: Received, rest: seq<byte>) {
    && Wanted(fs, size) && res.applied == Payloads(fs)
    && match res
       case Complete(applied, overshot) =>
         |applied| >= size && (overshot <==> |applied| > size) && s == EncodeAll(fs) + rest
       case Broken(applied, error) =>
         |applied| < size && exists tail :: s == EncodeAll(fs) + tail && ReadOne(tail) == Failed(error, rest)
       case WrongType(applied, typ) =>
         |applied| < size && typ != TYPE_PTY_OUTPUT &&
           exists p :: Fits(Frame(typ, p)) && s == EncodeAll(fs) + (Encode(Frame(typ, p)) + rest)
  }

  lemma {:induction false} PayloadsConcat(a: seq<Frame>, b: seq<Frame>)
    ensures Payloads(a + b) == Payloads(a) + Payloads(b)
  {
    if a == [] {
      assert a + b == b;
    } else {
      assert (a + b)[1..] == a[1..] + b;
      PayloadsConcat(a[1..], b);
      Associates(a[0].payload, Payloads(a[1..]), Payloads(b));
    }
  }

  lemma PayloadsSnoc(fs: seq<Frame>, f: Frame)
    ensures Payloads(fs + [f]) == Payloads(fs) + f.payload
    ensures (fs + [f])[..|fs|] == fs
  {
    PayloadsConcat(fs, [f]);
    assert [f][1..] == [];
  }

  /** One turn of the counting loop, for an output frame. */
  lemma ReceiveOne(f: Frame, tail: seq<byte>, remaining: int, applied: seq<byte>)
    requires Fits(f) && f.typ == TYPE_PTY_OUTPUT && 0 < remaining
    ensures Receive(Encode(f) + tail, remaining, applied) == Receive(tail, remaining - |f.payload|, applied + f.payload)
  {
    hide Encode, ReadOne;
    ReadIffEncoded(Encode(f) + tail, f, tail);
  }

  lemma NoFrames(size: int, s: seq<byte>)
    ensures Wanted([], size) && Payloads([]) == [] && EncodeAll([]) + s == s
  {
  }

  lemma WantedTail(fs: seq<Frame>, size: int)
    requires Wanted(fs, size) && fs != []
    ensures 0 < size && Outputs(fs) && Fits(fs[0]) && fs[0].typ == TYPE_PTY_OUTPUT
    ensures Wanted(fs[1..], size - |fs[0].payload|) && Payloads(fs) == fs[0].payload + Payloads(fs[1..])
  {
    if |fs| > 1 {
      var most := fs[..|fs| - 1];
      assert most[0] == fs[0] && most[1..] == fs[1..][..|fs| - 2];
    }
  }

  lemma {:induction false} ReceiveWanted(fs: seq<Frame>, tail: seq<byte>, size: int, applied: seq<byte>)
    requires Wanted(fs, size)
    ensures Receive(EncodeAll(fs) + tail, size, applied) ==
            Receive(tail, size - |Payloads(fs)|, applied + Payloads(fs))
  {
    hide *;
    if fs == [] {
      NoFrames(size, tail);
      assert applied + [] == applied;
    } else {
      var first, rest := fs[0], fs[1..];
      WantedTail(fs, size);
      var p, ps, after := first.payload, Payloads(rest), EncodeAll(rest) + tail;
      assert EncodeAll(fs) + tail == Encode(first) + after by {
        EncodeAllHead(fs);
        Associates(Encode(first), EncodeAll(rest), tail);
      }
      ReceiveOne(first, after, size, applied);
      ReceiveWanted(rest, tail, size - |p|, applied + p);
      Associates(applied, p, ps);
      assert size - |p| - |ps| == size - |p + ps|;
    }
  }

  /** The explanation fixes the answer: it is the specified receiver's. */
  lemma ExplainedIsReceived(fs: seq<Frame>, s: seq<byte>, size: int, res: Received, rest: seq<byte>)
    requires Explains(fs, s, size, res, rest)
    ensures Receive(s, size, []) == (res, rest)
  {
    hide Encode, EncodeAll, ReadOne, Payloads;
    assert [] + Payloads(fs) == Payloads(fs);
    match res
    case Complete(applied, overshot) =>
      ReceiveWanted(fs, rest, size, []);
    case Broken(applied, error) =>
      var tail :| s == EncodeAll(fs) + tail && ReadOne(tail) == Failed(error, rest);
      ReceiveWanted(fs, tail, size, []);
    case WrongType(applied, typ) =>
      var p :| Fits(Frame(typ, p)) && s == EncodeAll(fs) + (Encode(Frame(typ, p)) + rest);
      ReceiveWanted(fs, Encode(Frame(typ, p)) + rest, size, []);
      ReadIffEncoded(Encode(Frame(typ, p)) + rest, Frame(typ, p), rest);
  }

  /** The attach client: applies output frames until `size` bytes have arrived. On
      any error it closes the connection. */
  method ReceiveSnapshot(conn: Pipe, size: int) returns (res: Received, ghost fs: seq<Frame>)
    requires !conn.closed
    modifies conn`data, conn`closed
    ensures Explains(fs, old(conn.data), size, res, conn.data)
    ensures conn.closed <==> !res.Complete?
    ensures (res, conn.data) == Receive(old(conn.data), size, [])
  {
    hide Encode, EncodeAll, ReadOne, Receive, Payloads;
    var remaining, applied, overshot := size, [], size < 0;
    fs := [];
    NoFrames(size, conn.data);
    while remaining > 0
      invariant !conn.closed
      invariant Wanted(fs, size) && applied == Payloads(fs)
      invariant old(conn.data) == EncodeAll(fs) + conn.data
      invariant if remaining > 0 then remaining == size - |applied| else |applied| >= size
      invariant overshot <==> |applied| > size
      decreases |conn.data|, remaining
    {
      ghost var s := conn.data;
      var r := ReadFrame(conn);
      if r.Failed? {
        conn.Close();
        ExplainedIsReceived(fs, old(conn.data), size, Broken(applied, r.error), r.rest);
        return Broken(applied, r.error), fs;
      }
      ReadIffEncoded(s, r.frame, r.rest);
      if r.frame.typ != TYPE_PTY_OUTPUT {
        conn.Close();
        assert r.frame == Frame(r.frame.typ, r.frame.payload);
        ExplainedIsReceived(fs, old(conn.data), size, WrongType(applied, r.frame.typ), r.rest);
        return WrongType(applied, r.frame.typ), fs;
      }
      OneMore(fs, r.frame, size, r.rest);
      fs := fs + [r.frame];
      if |r.frame.payload| == 0 {
        assert applied + [] == applied;
        continue;
      }
      applied := applied + r.frame.payload;
      remaining := remaining - |r.frame.payload|;
      if remaining < 0 {
        overshot := true;
        remaining := 0;
      }
    }
    ExplainedIsReceived(fs, old(conn.data), size, Complete(applied, overshot), conn.data);
    return Complete(applied, overshot), fs;
  }

  lemma OneMore(fs: seq<Frame>, f: Frame, size: int, rest: seq<byte>)
    requires Wanted(fs, size) && |Payloads(fs)| < size && Fits(f) && f.typ == TYPE_PTY_OUTPUT
    ensures Wanted(fs + [f], size) && Payloads(fs + [f]) == Payloads(fs) + f.payload
    ensures EncodeAll(fs + [f]) + rest == EncodeAll(fs) + (Encode(f) + rest)
  {
    hide Encode, EncodeAll;
    PayloadsSnoc(fs, f);
    EncodeAllSnoc(fs, f);
    Associates(EncodeAll(fs), Encode(f), rest);
  }

  /** The counting loop applies exactly the announced bytes in order, without
      overshoot, and leaves everything that follows unread. */
  lemma ReceivesExactly(fs: seq<Frame>, data: seq<byte>, live: seq<byte>)
    requires Carries(fs, data)
    ensures Receive(EncodeAll(fs) + live, |data|, []) == (Complete(data, false), live)
  {
    hide EncodeAll, Receive;
    if fs != [] {
      var n := |fs| - 1;
      assert fs == fs[..n] + [fs[n]];
      PayloadsSnoc(fs[..n], fs[n]);
    }
    ExplainedIsReceived(fs, EncodeAll(fs) + live, |data|, Complete(data, false), live);
  }

  /** What precedes the last data of a snapshot is less than all of it. */
  lemma PrefixIsLess(fs: seq<Frame>, data: seq<byte>, n: nat)
    requires Carries(fs, data) && n < |fs|
    ensures |Payloads(fs[..n])| < |data| && Wanted(fs[..n], |data|)
  {
    PayloadsNonEmpty(fs[n..]);
    assert fs == fs[..n] + fs[n..];
    PayloadsConcat(fs[..n], fs[n..]);
    if n > 0 {
      assert fs[..n] == fs[..n - 1] + [fs[n - 1]];
      PayloadsSnoc(fs[..n - 1], fs[n - 1]);
    }
  }

  /** A snapshot whose stream breaks off is never taken for a whole one: after k
      bytes of its frames exactly the whole ones are applied and the error of the
      broken read is the answer. */
  lemma CutShort(fs: seq<Frame>, data: seq<byte>, k: nat)
    requires Carries(fs, data) && k < |EncodeAll(fs)|
    ensures Receive(EncodeAll(fs)[..k], |data|, []) ==
            (Broken(Payloads(fs[..Whole(fs, k)]),
                    if Beyond(fs, k) == 0 || Beyond(fs, k) == 4 then Eof else UnexpectedEof), [])
  {
    hide Encode, EncodeAll, Receive, Whole, Beyond, Payloads, ReadOne;
    var n, beyond := Whole(fs, k), Beyond(fs, k);
    WholeIsMaximal(fs, k);
    assert fs[..|fs|] == fs;
    PrefixIsLess(fs, data, n);
    CutInside(fs, k);
    BrokenFrame(fs[n], beyond);
    var res := Broken(Payloads(fs[..n]), if beyond == 0 || beyond == 4 then Eof else UnexpectedEof);
    ExplainedIsReceived(fs[..n], EncodeAll(fs)[..k], |data|, res, []);
  }

  lemma {:induction false} CutInside(fs: seq<Frame>, k: nat)
    requires (forall f :: f in fs ==> Fits(f)) && k < |EncodeAll(fs)|
    requires Whole(fs, k) < |fs| && Beyond(fs, k) < |Encode(fs[Whole(fs, k)])|
    ensures EncodeAll(fs)[..k] == EncodeAll(fs[..Whole(fs, k)]) + Encode(fs[Whole(fs, k)])[..Beyond(fs, k)]
  {
    hide Encode;
    var first, rest := Encode(fs[0]), fs[1..];
    if k < |first| {
      assert fs[..0] == [];
    } else {
      var n := Whole(fs, k);
      CutInside(rest, k - |first|);
      assert fs[..n][0] == fs[0] && fs[..n][1..] == rest[..n - 1];
      assert EncodeAll(fs)[..k] == first + EncodeAll(rest)[..k - |first|];
    }
  }

  /** A frame of another type before the snapshot is complete ends the attach, with
      exactly what came before it applied and the frame consumed. */
  lemma ForeignFrame(fs: seq<Frame>, f: Frame, size: int, live: seq<byte>)
    requires Outputs(fs) && |Payloads(fs)| < size && Fits(f) && f.typ != TYPE_PTY_OUTPUT
    ensures Receive(EncodeAll(fs) + (Encode(f) + live), size, []) == (WrongType(Payloads(fs), f.typ), live)
  {
    hide Encode, EncodeAll, Receive, Payloads;
    if fs != [] {
      var n := |fs| - 1;
      assert fs == fs[..n] + [fs[n]];
      PayloadsSnoc(fs[..n], fs[n]);
    }
    assert f == Frame(f.typ, f.payload);
    ExplainedIsReceived(fs, EncodeAll(fs) + (Encode(f) + live), size, WrongType(Payloads(fs), f.typ), live);
  }

  /** Sender and receiver together: a snapshot that the connection takes arrives
      whole, with the live frames still to be read. If it does not fit, exactly its
      whole frames are applied and the attach fails. */
  method TransferSnapshot(conn: Pipe, snapshot: seq<byte>, live: seq<byte>) returns (res: Received)
    requires conn.data == [] && !conn.closed
    modifies conn
    ensures var fs, room := Chunks(snapshot), old(conn.room);
            if room >= |EncodeAll(fs)| then
              res == Complete(snapshot, false) && !conn.closed &&
                conn.data == if room >= |EncodeAll(fs)| + |live| then live else live[..room - |EncodeAll(fs)|]
            else
              res.Broken? && res.applied == Payloads(fs[..Whole(fs, room)]) && conn.closed
  {
    hide Chunks, EncodeAll, Receive, Carries, Whole, Beyond, Payloads, Explains;
    var sent := WriteSnapshotChunks(conn, snapshot);
    ChunksCarry(snapshot);
    ghost var fs, all := Chunks(snapshot), EncodeAll(Chunks(snapshot));
    if sent {
      assert conn.data == all;
      var wrote := conn.Write(live);
      assert wrote ==> conn.data == all + live;
      ReceivesExactly(fs, snapshot, if wrote then live else live[..old(conn.room) - |all|]);
    } else {
      assert conn.data == all[..old(conn.room)];
      CutShort(fs, snapshot, old(conn.room));
    }
    res, fs := ReceiveSnapshot(conn, |snapshot|);
  }
}
