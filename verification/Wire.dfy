/** Length-prefixed framing (internal/daemon/protocol.go), snapshot chunking
    (internal/daemon/attach.go) and the client's counting loop
    (internal/daemonclient/paneview.go). */
module Wire {
  import opened Wrappers

  newtype byte = b: int | 0 <= b < 0x100

  const MAX_FRAME_SIZE: nat := 0x10_0000
  const SNAPSHOT_CHUNK: nat := 0x1_0000

  const TYPE_PTY_OUTPUT: byte := 0x10

  datatype Frame = Frame(typ: byte, payload: seq<byte>)

  datatype ReadError = Eof | UnexpectedEof | ZeroLength | FrameTooLarge

  datatype ReadResult = Ok(frame: Frame, rest: seq<byte>) | Failed(error: ReadError, rest: seq<byte>)

  // ---- Big-endian numbers ----

  function PutUint16(n: nat): (s: seq<byte>)
    requires n < 0x1_0000
    ensures |s| == 2
  {
    [(n / 0x100) as byte, (n % 0x100) as byte]
  }

  function Uint16(s: seq<byte>): (n: nat)
    requires |s| == 2
    ensures n < 0x1_0000 && PutUint16(n) == s
  {
    s[0] as nat * 0x100 + s[1] as nat
  }

  function PutUint32(n: nat): (s: seq<byte>)
    requires n < 0x1_0000_0000
    ensures |s| == 4
  {
    PutUint16(n / 0x1_0000) + PutUint16(n % 0x1_0000)
  }

  function Uint32(s: seq<byte>): (n: nat)
    requires |s| == 4
    ensures n < 0x1_0000_0000 && PutUint32(n) == s
  {
    Uint16(s[..2]) * 0x1_0000 + Uint16(s[2..])
  }

  lemma Uint16Inverse(n: nat)
    requires n < 0x1_0000
    ensures Uint16(PutUint16(n)) == n
  {
  }

  lemma Uint32Inverse(n: nat)
    requires n < 0x1_0000_0000
    ensures Uint32(PutUint32(n)) == n
  {
    var s := PutUint32(n);
    assert s[..2] == PutUint16(n / 0x1_0000) && s[2..] == PutUint16(n % 0x1_0000);
    Uint16Inverse(n / 0x1_0000);
    Uint16Inverse(n % 0x1_0000);
  }

  // ---- Frames ----

  predicate Fits(f: Frame) {
    1 + |f.payload| <= MAX_FRAME_SIZE
  }

  /** The wire form of one frame. */
  function Encode(f: Frame): (s: seq<byte>)
    requires Fits(f)
    ensures |s| == 5 + |f.payload|
  {
    PutUint32(1 + |f.payload|) + [f.typ] + f.payload
  }

  /** On the wire a frame is the length of all that follows, the high byte first, then
      the type, then the payload. */
  lemma FrameLayout(f: Frame)
    requires Fits(f)
    ensures var s := Encode(f);
            && s[0] as nat * 0x100_0000 + s[1] as nat * 0x1_0000 + s[2] as nat * 0x100 + s[3] as nat == 1 + |f.payload|
            && s[4] == f.typ && s[5..] == f.payload
  {
    var n := 1 + |f.payload|;
    assert Encode(f)[..4] == PutUint32(n);
  }

  function EncodeAll(fs: seq<Frame>): seq<byte>
    requires forall f :: f in fs ==> Fits(f)
  {
    if fs == [] then [] else Encode(fs[0]) + EncodeAll(fs[1..])
  }

  /** One read from a stream that ends after s. A header that is followed by
      nothing at all reads as a plain end of file. */
  function ReadOne(s: seq<byte>): (r: ReadResult)
    ensures r.Ok? ==> |r.rest| < |s|
  {
    if |s| < 4 then Failed(if s == [] then Eof else UnexpectedEof, [])
    else
      var length := Uint32(s[..4]);
      var body := s[4..];
      if length == 0 then Failed(ZeroLength, body)
      else if length > MAX_FRAME_SIZE then Failed(FrameTooLarge, body)
      else if |body| < length then Failed(if body == [] then Eof else UnexpectedEof, [])
      else Ok(Frame(body[0], body[1..length]), body[length..])
  }

  /** Reads frames until the first error. */
  function ReadAll(s: seq<byte>): (seq<Frame>, ReadError)
    decreases |s|
  {
    match ReadOne(s)
    case Failed(e, _) => ([], e)
    case Ok(f, rest) => var (fs, e) := ReadAll(rest); ([f] + fs, e)
  }

  lemma ReadsEncoded(f: Frame, rest: seq<byte>)
    requires Fits(f)
    ensures ReadOne(Encode(f) + rest) == Ok(f, rest)
  {
    var s, n := Encode(f) + rest, 1 + |f.payload|;
    Uint32Inverse(n);
    assert s[..4] == PutUint32(n);
    hide Uint32;
    assert s[4..] == [f.typ] + f.payload + rest;
    assert s[4..][1..n] == f.payload && s[4..][n..] == rest;
  }

  lemma ReadWasEncoded(s: seq<byte>, f: Frame, rest: seq<byte>)
    requires ReadOne(s) == Ok(f, rest)
    ensures Fits(f) && s == Encode(f) + rest
  {
    var n := Uint32(s[..4]);
    assert 1 + |f.payload| == n;
    assert PutUint32(n) == s[..4];
    hide Uint32, ReadOne;
    assert s == s[..4] + ([s[4]] + s[4..][1..n] + s[4..][n..]);
  }

  /** A read yields exactly the frame whose encoding the stream starts with. */
  lemma ReadIffEncoded(s: seq<byte>, f: Frame, rest: seq<byte>)
    ensures ReadOne(s) == Ok(f, rest) <==> Fits(f) && s == Encode(f) + rest
  {
    hide ReadOne, Encode;
    if Fits(f) && s == Encode(f) + rest {
      ReadsEncoded(f, rest);
    }
    if ReadOne(s) == Ok(f, rest) {
      ReadWasEncoded(s, f, rest);
    }
  }

  /** No frame with a declared length of 0 or above the maximum is accepted. */
  lemma DeclaredLength(s: seq<byte>)
    requires |s| >= 4
    ensures Uint32(s[..4]) > MAX_FRAME_SIZE <==> ReadOne(s) == Failed(FrameTooLarge, s[4..])
    ensures Uint32(s[..4]) == 0 <==> ReadOne(s) == Failed(ZeroLength, s[4..])
  {
  }

  lemma {:induction false} RoundTrip(fs: seq<Frame>)
    requires forall f :: f in fs ==> Fits(f)
    ensures ReadAll(EncodeAll(fs)) == (fs, Eof)
  {
    if fs != [] {
      ReadIffEncoded(EncodeAll(fs), fs[0], EncodeAll(fs[1..]));
      RoundTrip(fs[1..]);
      assert fs == [fs[0]] + fs[1..];
    }
  }

  /** How many of the frames lie wholly within the first k bytes. */
  function Whole(fs: seq<Frame>, k: nat): (n: nat)
    requires forall f :: f in fs ==> Fits(f)
    ensures n <= |fs|
  {
    if fs == [] || k < |Encode(fs[0])| then 0 else 1 + Whole(fs[1..], k - |Encode(fs[0])|)
  }

  /** Bytes of the k that come after the last whole frame. */
  function Beyond(fs: seq<Frame>, k: nat): nat
    requires forall f :: f in fs ==> Fits(f)
  {
    if fs == [] || k < |Encode(fs[0])| then k else Beyond(fs[1..], k - |Encode(fs[0])|)
  }

  lemma {:induction false} WholeIsMaximal(fs: seq<Frame>, k: nat)
    requires (forall f :: f in fs ==> Fits(f)) && k <= |EncodeAll(fs)|
    ensures var n := Whole(fs, k);
            && |EncodeAll(fs[..n])| + Beyond(fs, k) == k
            && (n < |fs| ==> Beyond(fs, k) < |Encode(fs[n])|) && (n == |fs| ==> Beyond(fs, k) == 0)
  {
    if fs != [] && k >= |Encode(fs[0])| {
      var n := Whole(fs, k);
      WholeIsMaximal(fs[1..], k - |Encode(fs[0])|);
      assert fs[..n][0] == fs[0] && fs[..n][1..] == fs[1..][..n - 1];
    } else {
      assert fs[..0] == [];
    }
  }

  /** A stream that breaks off after k bytes yields exactly its complete frames
      and then an error: a plain EOF at a frame boundary or right after a bare
      header, an unexpected EOF anywhere else. */
  lemma {:induction false} PrefixReadsWholeFrames(fs: seq<Frame>, k: nat)
    requires (forall f :: f in fs ==> Fits(f)) && k <= |EncodeAll(fs)|
    ensures ReadAll(EncodeAll(fs)[..k]) ==
            (fs[..Whole(fs, k)], if Beyond(fs, k) == 0 || Beyond(fs, k) == 4 then Eof else UnexpectedEof)
  {
    hide Encode, ReadOne;
    var s := EncodeAll(fs)[..k];
    if fs == [] {
      assert fs[..0] == [] && s == [];
      NothingToRead();
    } else {
      var first, rest := Encode(fs[0]), fs[1..];
      if k >= |first| {
        assert s == first + EncodeAll(rest)[..k - |first|];
        ReadIffEncoded(s, fs[0], EncodeAll(rest)[..k - |first|]);
        PrefixReadsWholeFrames(rest, k - |first|);
        assert [fs[0]] + rest[..Whole(rest, k - |first|)] == fs[..Whole(fs, k)];
      } else {
        BrokenFrame(fs[0], k);
        assert s == first[..k];
        assert fs[..0] == [];
      }
    }
  }

  lemma NothingToRead()
    ensures ReadAll([]) == ([], Eof)
  {
  }

  lemma BrokenFrame(f: Frame, k: nat)
    requires Fits(f) && k < |Encode(f)|
    ensures ReadOne(Encode(f)[..k]) == Failed(if k == 0 || k == 4 then Eof else UnexpectedEof, [])
  {
    var s := Encode(f)[..k];
    if k >= 4 {
      assert s[..4] == PutUint32(1 + |f.payload|);
      Uint32Inverse(1 + |f.payload|);
    }
  }

  // ---- Resize payloads ----

  datatype Resize = Resize(cols: nat, rows: nat, clientID: nat)

  predicate Uint16s(r: Resize) {
    r.cols < 0x1_0000 && r.rows < 0x1_0000 && r.clientID < 0x1_0000
  }

  function EncodeResize(r: Resize): (s: seq<byte>)
    requires Uint16s(r)
    ensures |s| == 6
  {
    PutUint16(r.cols) + PutUint16(r.rows) + PutUint16(r.clientID)
  }

  /** Columns, rows and client id in this order, each with the high byte first. */
  lemma ResizeLayout(r: Resize)
    requires Uint16s(r)
    ensures var s := EncodeResize(r);
            && s[0] as nat * 0x100 + s[1] as nat == r.cols
            && s[2] as nat * 0x100 + s[3] as nat == r.rows
            && s[4] as nat * 0x100 + s[5] as nat == r.clientID
  {
    assert EncodeResize(r)[2..4] == PutUint16(r.rows);
  }

  /** None stands for the invalid-resize error. */
  function DecodeResize(s: seq<byte>): Option<Resize> {
    if |s| != 6 then None else Some(Resize(Uint16(s[..2]), Uint16(s[2..4]), Uint16(s[4..])))
  }

  /** Decoding accepts exactly the encodings, and inverts them. */
  lemma ResizeInverse(s: seq<byte>, r: Resize)
    ensures DecodeResize(s) == Some(r) <==> Uint16s(r) && s == EncodeResize(r)
  {
    if Uint16s(r) {
      var e := EncodeResize(r);
      assert e[..2] == PutUint16(r.cols) && e[2..4] == PutUint16(r.rows) && e[4..] == PutUint16(r.clientID);
      Uint16Inverse(r.cols);
      Uint16Inverse(r.rows);
      Uint16Inverse(r.clientID);
    }
    if |s| == 6 {
      assert s == s[..2] + s[2..4] + s[4..];
    }
  }
}
