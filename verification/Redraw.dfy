/** The redraw serializer (internal/daemon/redraw.go): a screen and its
    scrollback compiled into terminal output. */
module Redraw {
  import opened Decimal
  import opened Glyphs
  import opened Terminal
  import opened StyleReplay
  import opened Wrappers

  /** What the serializer reads from the source emulator and its pane. */
  datatype Screen = Screen(
    w: int, h: int,
    cells: seq<Row>,
    cx: int, cy: int,
    title: string,
    cursorVisible: bool, mouseEnabled: bool, altScreen: bool)
  {
    predicate Sized() {
      w > 0 && h > 0 ==> |cells| == h && forall i :: 0 <= i < h ==> |cells[i]| == w
    }
  }

  function Seen(c: char): char {
    if c == NUL then ' ' else c
  }

  // ---- Specification of the emitted text ----

  function ItoaText(n: int): string {
    if n <= 0 then "0" else Dec(n)
  }

  function CupText(row: int, col: int): string {
    CSI + ItoaText(row) + ";" + ItoaText(col) + "H"
  }

  /** The batching loop after some cells: text written, open batch, style of the
      last cell, and whether no cell was seen yet. */
  datatype Scan = Scan(out: string, batch: string, current: Glyph, first: bool)

  /** The text so far with the open batch's style and characters, unterminated. */
  function Pending(s: Scan): string {
    if s.batch == "" then s.out else s.out + GlyphANSI(s.current.style) + s.batch
  }

  function Flush(s: Scan): Scan {
    if s.batch == "" then s else s.(out := Pending(s) + RESET, batch := "")
  }

  function ScanCell(s: Scan, g: Glyph): Scan {
    if g.width == 0 then s
    else
      var s' := if !s.first && !SameStyle(g, s.current) then Flush(s) else s;
      s'.(batch := s'.batch + [Seen(g.ch)], current := g, first := false)
  }

  /** The loop's state after n cells, when it started with b already written. */
  function ScanRow(b: string, row: Row, n: nat): Scan
    requires n <= |row|
  {
    if n == 0 then Scan(b, "", CONT, true) else ScanCell(ScanRow(b, row, n - 1), row[n - 1])
  }

  function RowText(row: Row): string {
    Flush(ScanRow("", row, |row|)).out
  }

  function RowsText(cells: seq<Row>, n: nat): string
    requires n <= |cells|
  {
    if n == 0 then "" else RowsText(cells, n - 1) + CupText(n, 1) + RowText(cells[n - 1])
  }

  function ModesText(s: Screen): string {
    (if s.altScreen then CSI + "?1049h" else "") +
    (if s.mouseEnabled then CSI + "?1000h" + CSI + "?1006h" else "")
  }

  function TitleText(title: string): string {
    if title == "" then "" else [ESC] + "]2;" + title + [BEL]
  }

  function Prologue(s: Screen): string {
    [ESC] + "c" + CSI + "2J" + CSI + "H" + ModesText(s) + TitleText(s.title)
  }

  function Epilogue(s: Screen): string {
    CupText((if s.cy < 0 then 0 else s.cy) + 1, (if s.cx < 0 then 0 else s.cx) + 1) +
    (if s.cursorVisible then "" else CSI + "?25l")
  }

  function RedrawText(s: Screen): string
    requires s.Sized()
  {
    if s.w <= 0 || s.h <= 0 then "" else Prologue(s) + RowsText(s.cells, s.h) + Epilogue(s)
  }

  function ScrollbackText(rows: seq<Row>, n: nat): string
    requires n <= |rows|
  {
    if n == 0 then "" else ScrollbackText(rows, n - 1) + RowText(rows[n - 1]) + "\r\n" + RESET
  }

  /** The snapshot that an attaching client receives. */
  function SnapshotText(rows: seq<Row>, s: Screen): string
    requires s.Sized()
  {
    ScrollbackText(rows, |rows|) + RedrawText(s)
  }

  // ---- The loops ----

  /** Fills an 11-byte buffer from the right; longer numerals would overrun it. */
  method Itoa(n: int) returns (s: string)
    requires n < 100_000_000_000
    ensures s == ItoaText(n) && (n <= 0 ==> s == "0")
  {
    if n <= 0 {
      return "0";
    }
    var buf := new char[11](_ => '0');
    var i, m := buf.Length, n;
    while m > 0
      invariant 0 <= m && 0 <= i <= 11
      invariant m < Power10(i)
      invariant Dec(n) == (if m == 0 then "" else Dec(m)) + buf[i..]
    {
      i := i - 1;
      buf[i] := Digit(m % 10);
      assert buf[i..] == [Digit(m % 10)] + buf[i + 1..];
      if m >= 10 {
        DecSnoc(m);
      }
      m := m / 10;
    }
    s := buf[i..];
  }

  function Power10(n: nat): nat {
    if n == 0 then 1 else 10 * Power10(n - 1)
  }

  method WriteCUP(b: string, row: int, col: int) returns (b': string)
    requires row < 100_000_000_000 && col < 100_000_000_000
    ensures b' == b + CupText(row, col)
  {
    var r := Itoa(row);
    var c := Itoa(col);
    b' := b + CSI;
    b' := b' + r;
    b' := b' + ";";
    b' := b' + c;
    b' := b' + "H";
  }

  lemma {:induction false} ScanAppends(b: string, row: Row, n: nat)
    requires n <= |row|
    ensures ScanRow(b, row, n) == ScanRow("", row, n).(out := b + ScanRow("", row, n).out)
  {
    if n == 0 {
      assert b + "" == b;
    } else {
      ScanAppends(b, row, n - 1);
      FlushAppends(b, ScanRow("", row, n - 1));
    }
  }

  lemma FlushAppends(b: string, s: Scan)
    ensures Flush(s.(out := b + s.out)) == Flush(s).(out := b + Flush(s).out)
  {
    hide GlyphANSI;
    if s.batch != "" {
      Prepend(b, s.out, GlyphANSI(s.current.style), s.batch, RESET);
    }
  }

  lemma Prepend(b: string, x: string, y: string, z: string, w: string)
    ensures b + (x + y + z + w) == b + x + y + z + w
  {
    assert b + (x + y + z + w) == b + (x + y + z) + w;
    assert b + (x + y + z) == b + (x + y) + z;
    assert b + (x + y) == b + x + y;
  }

  method FlushRun(b: string, batch: string, current: Glyph) returns (b': string, batch': string)
    ensures batch' == ""
    ensures b' == if batch == "" then b else b + GlyphANSI(current.style) + batch + RESET
  {
    if batch == "" {
      return b, batch;
    }
    b' := b;
    var sgr := GlyphANSI(current.style);
    if sgr != "" {
      b' := b' + sgr;
    }
    b' := b' + batch;
    b' := b' + RESET;
    batch' := "";
  }

  /** Appends one row, opening a new SGR run at each style boundary. The same
      loop serves the live grid and the scrollback rows. */
  method WriteGlyphRow(b: string, row: Row) returns (b': string)
    ensures b' == b + RowText(row)
  {
    hide GlyphANSI;
    b' := b;
    var current, batch, firstCell := CONT, "", true;
    for col := 0 to |row|
      invariant ScanRow(b, row, col) == Scan(b', batch, current, firstCell)
    {
      var g := row[col];
      if g.width == 0 {
        continue;
      }
      var ch := g.ch;
      if ch == NUL {
        ch := ' ';
      }
      if !firstCell && !SameStyle(g, current) {
        b', batch := FlushRun(b', batch, current);
      }
      current := g;
      firstCell := false;
      batch := batch + [ch];
    }
    ScanAppends(b, row, |row|);
    FlushAppends(b, ScanRow("", row, |row|));
    b', batch := FlushRun(b', batch, current);
  }

  method SerializeScrollback(rows: seq<Row>) returns (b: string)
    ensures b == ScrollbackText(rows, |rows|)
  {
    b := "";
    for i := 0 to |rows|
      invariant b == ScrollbackText(rows, i)
    {
      b := WriteGlyphRow(b, rows[i]);
      b := b + "\r\n";
      b := b + RESET;
    }
  }

  method WritePrologue(s: Screen) returns (b: string)
    ensures b == Prologue(s)
  {
    b := [ESC] + "c";
    b := b + CSI + "2J";
    b := b + CSI + "H";
    var modes := "";
    if s.altScreen {
      modes := modes + CSI + "?1049h";
    }
    if s.mouseEnabled {
      modes := modes + (CSI + "?1000h" + CSI + "?1006h");
    }
    b := b + modes;
    if s.title != "" {
      b := b + ([ESC] + "]2;" + s.title + [BEL]);
    }
  }

  /** vt is None when the pane has no emulator yet. */
  method SerializeRedraw(vt: Option<Screen>) returns (b: string)
    requires vt.Some? ==>
      vt.value.Sized() && vt.value.h < 99_999_999_999 && vt.value.cx < 99_999_999_999 && vt.value.cy < 99_999_999_999
    ensures b == if vt.None? then "" else RedrawText(vt.value)
    ensures vt.None? || vt.value.w <= 0 || vt.value.h <= 0 ==> b == ""
  {
    hide Prologue, CupText, RowText;
    if vt.None? || vt.value.w <= 0 || vt.value.h <= 0 {
      return "";
    }
    var s := vt.value;
    var prologue := WritePrologue(s);
    b := prologue;
    for row := 0 to s.h
      invariant b == prologue + RowsText(s.cells, row)
    {
      b := WriteCUP(b, row + 1, 1);
      b := WriteGlyphRow(b, s.cells[row]);
    }
    var cx, cy := s.cx, s.cy;
    if cx < 0 {
      cx := 0;
    }
    if cy < 0 {
      cy := 0;
    }
    b := WriteCUP(b, cy + 1, cx + 1);
    if !s.cursorVisible {
      b := b + CSI + "?25l";
    }
  }

  /** buildSnapshotForPane: history first, then the live screen. */
  method BuildSnapshot(vt: Option<Screen>, rows: seq<Row>) returns (out: string)
    requires vt.Some? ==>
      vt.value.Sized() && vt.value.h < 99_999_999_999 && vt.value.cx < 99_999_999_999 && vt.value.cy < 99_999_999_999
    ensures out == if vt.None? then "" else SnapshotText(rows, vt.value)
  {
    if vt.None? {
      return "";
    }
    var sb := SerializeScrollback(rows);
    var redraw := SerializeRedraw(vt);
    if |sb| == 0 {
      return redraw;
    }
    out := sb + redraw;
  }
}
