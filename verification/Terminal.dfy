/** A reference terminal for the control functions that the daemon emits:
    RIS, ED, CUP and SGR (ECMA-48 sections 8.3.105, 8.3.39, 8.3.21 and 8.3.117),
    extended colours (ITU-T T.416 section 13.1.8), private modes 1049, 1000,
    1006 and 25, OSC 2, CR, LF, and printing with a pending wrap.
    `cw` gives the number of columns a character occupies. */
module Terminal {
  import opened Decimal
  import opened Glyphs

  const BEL := '\U{07}'

  type Row = seq<Glyph>

  datatype Mode = Ground | Escape | Csi(buf: string) | Osc(text: string)

  datatype Term = Term(
    w: nat, h: nat,
    grid: seq<Row>,        // the screen on display
    primary: seq<Row>,     // the primary screen, while the alternate one is on display
    row: nat, col: nat,
    wrap: bool,            // a character was printed in the last column
    pen: Style,
    title: string,
    visible: bool, clicks: bool, sgrMouse: bool, alt: bool,
    history: seq<Row>,     // rows that scrolled off the top of the primary screen
    mode: Mode)
  {
    predicate Valid() {
      && w > 0 && h > 0
      && |grid| == h && (forall i :: 0 <= i < h ==> |grid[i]| == w)
      && row < h && col < w
    }
  }

  function BlankRow(w: nat): (r: Row)
    ensures |r| == w
  {
    seq(w, _ => BLANK)
  }

  function BlankGrid(w: nat, h: nat): (g: seq<Row>)
    ensures |g| == h
  {
    seq(h, _ => BlankRow(w))
  }

  function Fresh(w: nat, h: nat): Term {
    Term(w, h, BlankGrid(w, h), [], 0, 0, false, PLAIN, "", true, false, false, false, [], Ground)
  }

  // ---- SGR ----

  function BasicColor(n: nat): (c: Color)
    requires n < 16
  {
    Basic(n)
  }

  /** An 8-bit channel v of a 24-bit colour reports the 16-bit value 257 * v. */
  function Widen(v: nat): Word {
    257 * (v % 0x100)
  }

  function SetColor(pen: Style, isFG: bool, c: Color): Style {
    if isFG then pen.(fg := c) else pen.(bg := c)
  }

  /** Applies SGR parameters from left to right. */
  function Sgr(ps: seq<nat>, pen: Style): Style {
    if ps == [] then pen
    else
      var n := ps[0];
      if (n == 38 || n == 48) && |ps| >= 3 && ps[1] == 5 then
        Sgr(ps[3..], SetColor(pen, n == 38, Indexed(ps[2] % 0x100)))
      else if (n == 38 || n == 48) && |ps| >= 5 && ps[1] == 2 then
        Sgr(ps[5..], SetColor(pen, n == 38, TrueColor(Widen(ps[2]), Widen(ps[3]), Widen(ps[4]), 0xFFFF)))
      else
        Sgr(ps[1..], SgrOne(n, pen))
  }

  function SgrOne(n: nat, pen: Style): Style {
    if n == 0 then PLAIN
    else if n == 1 then pen.(bold := true)
    else if n == 3 then pen.(italic := true)
    else if n == 4 then pen.(underline := true)
    else if n == 5 then pen.(blink := true)
    else if n == 7 then pen.(reverse := true)
    else if 30 <= n < 38 then pen.(fg := BasicColor(n - 30))
    else if n == 39 then pen.(fg := Default)
    else if 40 <= n < 48 then pen.(bg := BasicColor(n - 40))
    else if n == 49 then pen.(bg := Default)
    else if 90 <= n < 98 then pen.(fg := BasicColor(n - 82))
    else if 100 <= n < 108 then pen.(bg := BasicColor(n - 92))
    else pen
  }

  // ---- Cursor and printing ----

  /** LF: down one row; on the last row the screen scrolls, and the primary
      screen's top row moves into the history. */
  function LineFeed(t: Term): (r: Term)
    requires t.Valid()
    ensures r.Valid()
  {
    if t.row + 1 < t.h then t.(row := t.row + 1)
    else t.(grid := t.grid[1..] + [BlankRow(t.w)],
            history := if t.alt then t.history else t.history + [t.grid[0]])
  }

  /** Writes a character of d columns at the cursor, which must have room for it. */
  function Place(t: Term, c: char, d: nat): (r: Term)
    requires t.Valid() && 1 <= d <= 2 && t.col + d <= t.w
    ensures r.Valid()
  {
    var line := t.grid[t.row][t.col := Glyph(c, t.pen, d)];
    var line' := if d == 2 then line[t.col + 1 := CONT] else line;
    var full := t.col + d == t.w;
    t.(grid := t.grid[t.row := line'],
       col := if full then t.w - 1 else t.col + d,
       wrap := full)
  }

  function Print(cw: char -> nat, t: Term, c: char): (r: Term)
    requires t.Valid()
    ensures r.Valid()
  {
    var d := cw(c);
    var t' := if t.wrap || t.col + d > t.w then LineFeed(t.(col := 0, wrap := false)) else t;
    if 1 <= d <= 2 && t'.col + d <= t'.w then Place(t', c, d) else t'
  }

  // ---- Control sequences ----

  function Clamp(n: nat, size: nat): (r: nat)
    requires size > 0
    ensures r < size
  {
    if n == 0 then 0 else if n > size then size - 1 else n - 1
  }

  function Cup(t: Term, ps: seq<nat>): (r: Term)
    requires t.Valid() && ps != []
    ensures r.Valid()
  {
    t.(row := Clamp(ps[0], t.h), col := if |ps| > 1 then Clamp(ps[1], t.w) else 0, wrap := false)
  }

  function SetMode(t: Term, n: nat, on: bool): (r: Term)
    requires t.Valid()
    ensures r.Valid()
  {
    if n == 25 then t.(visible := on)
    else if n == 1000 then t.(clicks := on)
    else if n == 1006 then t.(sgrMouse := on)
    else if n == 1049 && on && !t.alt then
      t.(alt := true, primary := t.grid, grid := BlankGrid(t.w, t.h))
    else if n == 1049 && !on && t.alt && |t.primary| == t.h && forall i :: 0 <= i < t.h ==> |t.primary[i]| == t.w then
      t.(alt := false, grid := t.primary, primary := [])
    else t
  }

  /** Executes CSI buf final. */
  function Execute(t: Term, buf: string, final: char): (r: Term)
    requires t.Valid()
    ensures r.Valid()
  {
    if buf != "" && buf[0] == '?' then
      if ParamString(buf[1..]) && (final == 'h' || final == 'l')
      then SetMode(t, Nums(buf[1..])[0], final == 'h') else t
    else if !ParamString(buf) then t
    else if final == 'm' then t.(pen := Sgr(Nums(buf), t.pen))
    else if final == 'H' then Cup(t, Nums(buf))
    else if final == 'J' && Nums(buf)[0] == 2 then t.(grid := BlankGrid(t.w, t.h))
    else t
  }

  /** RIS resets the screen, the modes and the pen; the history and the window
      title stay. */
  function Reset(t: Term): (r: Term)
    requires t.Valid()
    ensures r.Valid()
  {
    Fresh(t.w, t.h).(title := t.title, history := t.history)
  }

  /** C0, DEL and C1: never printed. */
  predicate Control(c: char) {
    c < ' ' || '\U{7F}' <= c < '\U{A0}'
  }

  function GroundStep(cw: char -> nat, t: Term, c: char): (r: Term)
    requires t.Valid()
    ensures r.Valid()
  {
    if c == ESC then t.(mode := Escape)
    else if c == '\r' then t.(col := 0, wrap := false)
    else if c == '\n' then LineFeed(t)
    else if Control(c) then t
    else Print(cw, t, c)
  }

  function EscapeStep(t: Term, c: char): (r: Term)
    requires t.Valid()
    ensures r.Valid()
  {
    if c == '[' then t.(mode := Csi(""))
    else if c == ']' then t.(mode := Osc(""))
    else if c == 'c' then Reset(t)
    else t.(mode := Ground)
  }

  function OscStep(t: Term, text: string, c: char): (r: Term)
    requires t.Valid()
    ensures r.Valid()
  {
    if c == BEL then
      var t' := t.(mode := Ground);
      if |text| >= 2 && text[..2] == "2;" then t'.(title := text[2..]) else t'
    else if c == ESC then t.(mode := Escape)
    else t.(mode := Osc(text + [c]))
  }

  /** Consumes one character. */
  function Step(cw: char -> nat, t: Term, c: char): (r: Term)
    requires t.Valid()
    ensures r.Valid()
  {
    match t.mode
    case Ground => GroundStep(cw, t, c)
    case Escape => EscapeStep(t, c)
    case Csi(buf) =>
      if '@' <= c <= '~' then Execute(t.(mode := Ground), buf, c) else t.(mode := Csi(buf + [c]))
    case Osc(text) => OscStep(t, text, c)
  }

  function Feed(cw: char -> nat, t: Term, s: string): (r: Term)
    requires t.Valid()
    ensures r.Valid()
    decreases |s|
  {
    if s == "" then t else Feed(cw, Step(cw, t, s[0]), s[1..])
  }

  lemma {:induction false} FeedConcat(cw: char -> nat, t: Term, a: string, b: string)
    requires t.Valid()
    ensures Feed(cw, t, a + b) == Feed(cw, Feed(cw, t, a), b)
    decreases |a|
  {
    if a == "" {
      assert a + b == b;
    } else {
      assert (a + b)[0] == a[0] && (a + b)[1..] == a[1..] + b;
      FeedConcat(cw, Step(cw, t, a[0]), a[1..], b);
    }
  }

  lemma FeedOne(cw: char -> nat, t: Term, c: char)
    requires t.Valid()
    ensures Feed(cw, t, [c]) == Step(cw, t, c)
  {
    assert [c][1..] == "";
  }

  lemma FeedSnoc(cw: char -> nat, t: Term, s: string, c: char)
    requires t.Valid()
    ensures Feed(cw, t, s + [c]) == Step(cw, Feed(cw, t, s), c)
  {
    FeedConcat(cw, t, s, [c]);
    FeedOne(cw, Feed(cw, t, s), c);
  }

  /** Parameter characters accumulate until the final character. */
  lemma {:induction false} FeedCsiBody(cw: char -> nat, t: Term, buf: string, s: string)
    requires t.Valid() && t.mode == Csi(buf)
    requires forall i :: 0 <= i < |s| ==> s[i] < '@'
    ensures Feed(cw, t, s) == t.(mode := Csi(buf + s))
    decreases |s|
  {
    if s == "" {
      assert buf + s == buf;
    } else {
      FeedCsiBody(cw, t.(mode := Csi(buf + [s[0]])), buf + [s[0]], s[1..]);
      assert buf + [s[0]] + s[1..] == buf + s;
    }
  }

  lemma FeedIntro(cw: char -> nat, t: Term)
    requires t.Valid() && t.mode == Ground
    ensures Feed(cw, t, CSI) == t.(mode := Csi(""))
  {
    assert CSI == [ESC] + ['['];
    FeedOne(cw, t, ESC);
    FeedSnoc(cw, t, [ESC], '[');
  }

  lemma StepFinal(cw: char -> nat, t: Term, buf: string, final: char)
    requires t.Valid() && t.mode == Ground && '@' <= final <= '~'
    ensures Step(cw, t.(mode := Csi(buf)), final) == Execute(t, buf, final)
  {
    hide Execute;
    assert t.(mode := Csi(buf)).(mode := Ground) == t;
  }

  /** A complete control sequence takes effect at its final character. */
  lemma FeedCsi(cw: char -> nat, t: Term, body: string, final: char)
    requires t.Valid() && t.mode == Ground
    requires forall i :: 0 <= i < |body| ==> body[i] < '@'
    requires '@' <= final <= '~'
    ensures Feed(cw, t, CSI + body + [final]) == Execute(t, body, final)
  {
    hide Feed, Step, Execute;
    FeedIntro(cw, t);
    FeedConcat(cw, t, CSI, body);
    FeedCsiBody(cw, t.(mode := Csi("")), "", body);
    assert "" + body == body;
    FeedSnoc(cw, t, CSI + body, final);
    StepFinal(cw, t, body, final);
  }
}
