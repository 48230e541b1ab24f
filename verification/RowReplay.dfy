/** Feeding one serialized row to the reference terminal paints that row. */
module RowReplay {
  import opened Glyphs
  import opened Terminal
  import opened StyleReplay
  import opened Redraw

  /** Wide glyphs and their continuation cells alternate correctly, and every
      glyph occupies as many columns as its character does. NUL is a space. */
  predicate WellFormedRow(cw: char -> nat, row: Row) {
    forall i :: 0 <= i < |row| ==> WellFormedCell(cw, row, i)
  }

  predicate WellFormedCell(cw: char -> nat, row: Row, i: nat)
    requires i < |row|
  {
    var g := row[i];
    var ch := if g.ch == NUL then ' ' else g.ch;
    if g.width == 0 then i > 0 && row[i - 1].width == 2
    else
      && !Control(ch) && g.width == cw(ch) <= 2
      && (i + 1 < |row| ==> (row[i + 1].width == 0 <==> g.width == 2))
      && (i + 1 == |row| ==> g.width == 1)
  }

  /** A cell as the terminal shows it; one that was never written to is blank. */
  function Shown(g: Glyph): Glyph {
    if g.width == 0 then CONT else Glyph(if g.ch == NUL then ' ' else g.ch, RereadStyle(g.style), g.width)
  }

  function ShownRow(row: Row): (r: Row)
    ensures |r| == |row|
  {
    seq(|row|, i requires 0 <= i < |row| => Shown(row[i]))
  }

  /** The first k shown cells of row, then blanks up to width w. */
  function Laid(row: Row, k: nat, w: nat): (r: Row)
    requires k <= |row| <= w
    ensures |r| == w
  {
    ShownRow(row)[..k] + BlankRow(w - k)
  }

  /** Column after the glyphs that start in the first n cells. */
  function Adv(row: Row, n: nat): nat
    requires n <= |row|
  {
    if n < |row| && row[n].width == 0 then n + 1 else n
  }

  predicate ReadyFor(t: Term, row: Row) {
    && t.Valid() && t.mode == Ground && t.col == 0 && !t.wrap && |row| <= t.w
    && t.grid[t.row] == BlankRow(t.w)
  }

  /** t with k columns of row painted on the cursor's line and the pen at pen. */
  function Painted(t: Term, row: Row, k: nat, pen: Style): (r: Term)
    requires ReadyFor(t, row) && k <= |row|
    ensures r.Valid()
  {
    t.(grid := t.grid[t.row := Laid(row, k, t.w)], pen := pen,
       col := if k < t.w then k else t.w - 1, wrap := k == t.w)
  }

  lemma NothingPainted(t: Term, row: Row)
    requires ReadyFor(t, row)
    ensures Painted(t, row, 0, t.pen) == t
  {
    assert Laid(row, 0, t.w) == BlankRow(t.w);
  }

  /** Writing the glyph at column k into the laid line lays it up to the next column. */
  lemma LayGlyph(cw: char -> nat, row: Row, k: nat, w: nat)
    requires WellFormedRow(cw, row) && k < |row| <= w && row[k].width != 0
    ensures 1 <= row[k].width <= 2 && k + row[k].width <= |row|
    ensures var line := Laid(row, k, w)[k := Glyph(Seen(row[k].ch), RereadStyle(row[k].style), row[k].width)];
            Laid(row, k + row[k].width, w) == if row[k].width == 2 then line[k + 1 := CONT] else line
  {
    hide StyleReplay.RereadStyle;
    assert WellFormedCell(cw, row, k);
    var g := row[k];
    var line := Laid(row, k, w)[k := Shown(g)];
    if g.width == 2 {
      assert Shown(row[k + 1]) == CONT;
      assert line[k + 1 := CONT] == Laid(row, k + 2, w);
    } else {
      assert line == Laid(row, k + 1, w);
    }
  }

  lemma StepPlaces(cw: char -> nat, t: Term, c: char)
    requires t.Valid() && t.mode == Ground && !Control(c) && !t.wrap
    requires 1 <= cw(c) <= 2 && t.col + cw(c) <= t.w
    ensures Step(cw, t, c) == Place(t, c, cw(c))
  {
  }

  lemma PlacePaints(t: Term, row: Row, k: nat, pen: Style, c: char, d: nat)
    requires ReadyFor(t, row) && k < |row| && 1 <= d <= 2 && k + d <= |row|
    requires var line := Laid(row, k, t.w)[k := Glyph(c, pen, d)];
             Laid(row, k + d, t.w) == if d == 2 then line[k + 1 := CONT] else line
    ensures Place(Painted(t, row, k, pen), c, d) == Painted(t, row, k + d, pen)
  {
    hide Laid;
    var p := Painted(t, row, k, pen);
    assert p.grid[t.row] == Laid(row, k, t.w);
    var line' := Laid(row, k + d, t.w);
    assert p.grid[t.row := line'] == t.grid[t.row := line'];
  }

  /** Printing the glyph at column k extends the painted part by its width. */
  lemma PrintGlyph(cw: char -> nat, t: Term, row: Row, k: nat)
    requires ReadyFor(t, row) && WellFormedRow(cw, row) && k < |row| && row[k].width != 0
    ensures var pen := RereadStyle(row[k].style);
            k + row[k].width <= |row|
            && Step(cw, Painted(t, row, k, pen), Seen(row[k].ch)) == Painted(t, row, k + row[k].width, pen)
  {
    hide Step, Place, Laid, StyleReplay.RereadStyle;
    assert WellFormedCell(cw, row, k);
    LayGlyph(cw, row, k, t.w);
    var pen := RereadStyle(row[k].style);
    StepPlaces(cw, Painted(t, row, k, pen), Seen(row[k].ch));
    PlacePaints(t, row, k, pen, Seen(row[k].ch), row[k].width);
  }

  lemma AdvStep(cw: char -> nat, row: Row, n: nat)
    requires WellFormedRow(cw, row) && 0 < n <= |row|
    ensures row[n - 1].width == 0 ==> n >= 2 && Adv(row, n - 1) == Adv(row, n)
    ensures row[n - 1].width != 0 ==> Adv(row, n - 1) == n - 1 && Adv(row, n) == n - 1 + row[n - 1].width
  {
    assert WellFormedCell(cw, row, n - 1);
    if n < |row| {
      assert WellFormedCell(cw, row, n);
    }
    if n >= 2 {
      assert WellFormedCell(cw, row, n - 2);
    }
  }

  /** Resetting the pen and opening a new run from any pen. */
  lemma FeedRestyle(cw: char -> nat, t: Term, s: Style)
    requires t.Valid() && t.mode == Ground
    ensures Feed(cw, t, RESET + GlyphANSI(s)) == t.(pen := RereadStyle(s))
  {
    FeedConcat(cw, t, RESET, GlyphANSI(s));
    FeedReset(cw, t);
    FeedStyle(cw, t.(pen := PLAIN), s);
  }

  /** What the loop writes between the open batch and a new glyph. */
  function Opening(s: Scan, g: Glyph): string {
    if s.first then GlyphANSI(g.style)
    else if s.current.style == g.style then ""
    else RESET + GlyphANSI(g.style)
  }

  /** How one cell changes the unterminated text. */
  lemma PendingStep(s: Scan, g: Glyph)
    requires g.width != 0 && (s.batch == "" <==> s.first)
    ensures var s' := ScanCell(s, g);
            && s'.batch != "" && !s'.first && s'.current == g
            && Pending(s') == Pending(s) + Opening(s, g) + [Seen(g.ch)]
  {
    hide GlyphANSI;
    var run, ch := GlyphANSI(g.style), [Seen(g.ch)];
    if s.first {
      assert "" + ch == ch;
    } else if s.current.style == g.style {
      assert s.out + run + (s.batch + ch) == s.out + run + s.batch + "" + ch;
    } else {
      assert "" + ch == ch;
      assert Pending(s) + RESET + run + ch == Pending(s) + (RESET + run) + ch;
    }
  }

  lemma FeedOpening(cw: char -> nat, t: Term, s: Scan, g: Glyph)
    requires t.Valid() && t.mode == Ground
    requires t.pen == if s.first then PLAIN else RereadStyle(s.current.style)
    ensures Feed(cw, t, Opening(s, g)) == t.(pen := RereadStyle(g.style))
  {
    hide Feed, GlyphANSI, StyleReplay.RereadStyle;
    if s.first {
      FeedStyle(cw, t, g.style);
    } else if s.current.style == g.style {
      FeedNothing(cw, t);
    } else {
      FeedRestyle(cw, t, g.style);
    }
  }

  lemma {:induction false} ScanShape(cw: char -> nat, row: Row, n: nat)
    requires WellFormedRow(cw, row) && n <= |row|
    ensures var s := ScanRow("", row, n); (s.batch == "" <==> s.first) && (s.first <==> n == 0)
  {
    if n > 0 {
      ScanShape(cw, row, n - 1);
      AdvStep(cw, row, n);
    }
  }

  function PenAfter(row: Row, n: nat): Style
    requires n <= |row|
  {
    if n == 0 then PLAIN else RereadStyle(ScanRow("", row, n).current.style)
  }

  /** Feeding the unterminated text of n cells paints exactly their columns. */
  lemma {:induction false} PendingPaints(cw: char -> nat, t: Term, row: Row, n: nat)
    requires ReadyFor(t, row) && WellFormedRow(cw, row) && t.pen == PLAIN && n <= |row|
    ensures Adv(row, n) <= |row|
    ensures Feed(cw, t, Pending(ScanRow("", row, n))) == Painted(t, row, Adv(row, n), PenAfter(row, n))
  {
    hide Feed, Step, Painted, ScanRow, Pending;
    if n == 0 {
      if |row| > 0 {
        assert WellFormedCell(cw, row, 0);
      }
      NothingPainted(t, row);
      PendingStart(row);
      FeedNothing(cw, t);
    } else {
      PendingPaints(cw, t, row, n - 1);
      if row[n - 1].width == 0 {
        ScanSkips(row, n);
      }
      AdvStep(cw, row, n);
      if row[n - 1].width != 0 {
        PendingPaintsGlyph(cw, t, row, n);
      }
    }
  }

  lemma PendingPaintsGlyph(cw: char -> nat, t: Term, row: Row, n: nat)
    requires ReadyFor(t, row) && WellFormedRow(cw, row) && t.pen == PLAIN && 0 < n <= |row|
    requires row[n - 1].width != 0 && Adv(row, n - 1) == n - 1 && Adv(row, n) == n - 1 + row[n - 1].width
    requires Feed(cw, t, Pending(ScanRow("", row, n - 1))) == Painted(t, row, n - 1, PenAfter(row, n - 1))
    ensures Adv(row, n) <= |row|
    ensures Feed(cw, t, Pending(ScanRow("", row, n))) == Painted(t, row, Adv(row, n), PenAfter(row, n))
  {
    hide Feed, Step, Painted, GlyphANSI, Pending, ScanRow, ScanCell, PenAfter,
      Opening, WellFormedRow, StyleReplay.RereadStyle;
    var s, g := ScanRow("", row, n - 1), row[n - 1];
    var pen, oldPen := RereadStyle(g.style), PenAfter(row, n - 1);
    var before := Painted(t, row, n - 1, oldPen);
    ScanShape(cw, row, n - 1);
    ScanUnfold(row, n);
    PendingStep(s, g);
    PaintedPen(t, row, n - 1, oldPen, pen);
    FeedOpening(cw, before, s, g);
    FeedConcat(cw, t, Pending(s), Opening(s, g));
    FeedSnoc(cw, t, Pending(s) + Opening(s, g), Seen(g.ch));
    PrintGlyph(cw, t, row, n - 1);
  }

  lemma PendingStart(row: Row)
    ensures Pending(ScanRow("", row, 0)) == ""
  {
  }

  lemma ScanSkips(row: Row, n: nat)
    requires 0 < n <= |row| && row[n - 1].width == 0
    ensures ScanRow("", row, n) == ScanRow("", row, n - 1)
  {
  }

  lemma ScanUnfold(row: Row, n: nat)
    requires 0 < n <= |row| && row[n - 1].width != 0
    ensures ScanRow("", row, n) == ScanCell(ScanRow("", row, n - 1), row[n - 1])
    ensures PenAfter(row, n - 1) == if n == 1 then PLAIN else RereadStyle(ScanRow("", row, n - 1).current.style)
    ensures PenAfter(row, n) == RereadStyle(row[n - 1].style)
  {
  }

  lemma FeedNothing(cw: char -> nat, t: Term)
    requires t.Valid()
    ensures Feed(cw, t, "") == t
  {
  }

  lemma PaintedPen(t: Term, row: Row, k: nat, pen: Style, pen': Style)
    requires ReadyFor(t, row) && k <= |row|
    ensures Painted(t, row, k, pen).mode == Ground && Painted(t, row, k, pen).pen == pen
    ensures Painted(t, row, k, pen).(pen := pen') == Painted(t, row, k, pen')
  {
  }

  /** A whole row: its cells in order, nothing else on the screen changed, the
      pen plain again, and no wrap even when the row fills the line. */
  lemma RowPaints(cw: char -> nat, t: Term, row: Row)
    requires ReadyFor(t, row) && WellFormedRow(cw, row) && t.pen == PLAIN
    ensures Feed(cw, t, RowText(row)) == Painted(t, row, |row|, PLAIN)
  {
    hide Feed, GlyphANSI, Painted;
    var s := ScanRow("", row, |row|);
    PendingPaints(cw, t, row, |row|);
    ScanShape(cw, row, |row|);
    if |row| > 0 {
      FeedConcat(cw, t, Pending(s), RESET);
      var pen := PenAfter(row, |row|);
      PaintedPen(t, row, |row|, pen, PLAIN);
      FeedReset(cw, Painted(t, row, |row|, pen));
    }
  }
}
