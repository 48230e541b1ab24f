/** Replaying the scrollback: which rows end up in the history, and which are
    still on the screen. */
module ScrollbackReplay {
  import opened Glyphs
  import opened Terminal
  import opened StyleReplay
  import opened Redraw
  import opened RowReplay

  predicate FittingRows(cw: char -> nat, rows: seq<Row>, w: nat) {
    forall i :: 0 <= i < |rows| ==> |rows[i]| <= w && WellFormedRow(cw, rows[i])
  }

  /** The rows as a w-column terminal shows them, padded with blanks. */
  function Lines(rows: seq<Row>, w: nat): (ls: seq<Row>)
    requires forall i :: 0 <= i < |rows| ==> |rows[i]| <= w
    ensures |ls| == |rows|
    ensures forall i :: 0 <= i < |rows| ==> |ls[i]| == w && ls[i] == Laid(rows[i], |rows[i]|, w)
  {
    seq(|rows|, i requires 0 <= i < |rows| => Laid(rows[i], |rows[i]|, w))
  }

  /** How many of k rows leave the top of an h-row screen. */
  function Lost(k: nat, h: nat): (n: nat)
    requires h > 0
    ensures n <= k
  {
    if k > h - 1 then k - (h - 1) else 0
  }

  predicate Empty(t: Term) {
    && t.Valid() && t.mode == Ground && t.pen == PLAIN && !t.alt
    && t.row == 0 && t.col == 0 && !t.wrap && t.grid == BlankGrid(t.w, t.h)
  }

  /** t after the rows were written one per line and scrolled. */
  function Scrolled(t: Term, rows: seq<Row>): (r: Term)
    requires Empty(t) && forall i :: 0 <= i < |rows| ==> |rows[i]| <= t.w
    ensures r.Valid()
  {
    var k, lines := |rows|, Lines(rows, t.w);
    var n := Lost(k, t.h);
    t.(grid := lines[n..] + BlankGrid(t.w, t.h - (k - n)), row := k - n, history := t.history + lines[..n])
  }

  lemma FeedNewline(cw: char -> nat, t: Term)
    requires t.Valid() && t.mode == Ground
    ensures Feed(cw, t, "\r\n") == LineFeed(t.(col := 0, wrap := false))
  {
    assert "\r\n" == ['\r'] + ['\n'];
    FeedOne(cw, t, '\r');
    FeedSnoc(cw, t, ['\r'], '\n');
  }

  /** The screen holding one more line than Scrolled shows, cursor still on that line. */
  function Grown(t: Term, rows: seq<Row>, row: Row): Term
    requires Empty(t) && |row| <= t.w
    requires forall i :: 0 <= i < |rows| ==> |rows[i]| <= t.w
  {
    var s := Scrolled(t, rows);
    s.(grid := s.grid[s.row := Laid(row, |row|, t.w)])
  }

  lemma GrownGrid(t: Term, rows: seq<Row>, row: Row)
    requires Empty(t) && |row| <= t.w
    requires forall i :: 0 <= i < |rows| ==> |rows[i]| <= t.w
    ensures var n := Lost(|rows|, t.h);
            Lines(rows + [row], t.w) == Lines(rows, t.w) + [Laid(row, |row|, t.w)]
            && Grown(t, rows, row).grid == Lines(rows + [row], t.w)[n..] + BlankGrid(t.w, t.h - (|rows| - n) - 1)
  {
    hide Laid;
    var n, lines := Lost(|rows|, t.h), Lines(rows, t.w);
    assert Lines(rows + [row], t.w) == lines + [Laid(row, |row|, t.w)];
    assert Lines(rows + [row], t.w)[n..] == lines[n..] + [Laid(row, |row|, t.w)];
  }

  lemma NewlineScrolls(t: Term, rows: seq<Row>, row: Row)
    requires Empty(t) && |row| <= t.w
    requires forall i :: 0 <= i < |rows| ==> |rows[i]| <= t.w
    ensures Grown(t, rows, row).Valid()
    ensures LineFeed(Grown(t, rows, row)) == Scrolled(t, rows + [row])
  {
    hide Laid, Lines;
    GrownGrid(t, rows, row);
    var n, lines, lines' := Lost(|rows|, t.h), Lines(rows, t.w), Lines(rows + [row], t.w);
    var p := Grown(t, rows, row);
    if p.row + 1 < t.h {
      assert lines[..0] == lines'[..0];
    } else {
      assert p.grid == lines'[n..] + [];
      assert p.grid[1..] == lines'[n + 1..];
      assert BlankGrid(t.w, 1) == [BlankRow(t.w)];
      assert lines'[..n + 1] == lines[..n] + [lines'[n]];
    }
  }

  lemma ScrollOneRow(cw: char -> nat, t: Term, rows: seq<Row>, row: Row)
    requires Empty(t) && |row| <= t.w && WellFormedRow(cw, row)
    requires forall i :: 0 <= i < |rows| ==> |rows[i]| <= t.w
    ensures Feed(cw, Scrolled(t, rows), RowText(row) + "\r\n" + RESET) == Scrolled(t, rows + [row])
  {
    hide Feed, RowText, LineFeed, WellFormedRow;
    var s := Scrolled(t, rows);
    assert s.grid[s.row] == BlankRow(t.w);
    RowPaints(cw, s, row);
    var painted := Painted(s, row, |row|, PLAIN);
    FeedConcat(cw, s, RowText(row), "\r\n");
    FeedNewline(cw, painted);
    NewlineScrolls(t, rows, row);
    assert painted.(col := 0, wrap := false) == Grown(t, rows, row);
    FeedConcat(cw, s, RowText(row) + "\r\n", RESET);
    var r := Scrolled(t, rows + [row]);
    FeedReset(cw, r);
    assert r.(pen := PLAIN) == r;
  }

  /** Writing n rows onto an empty screen pushes exactly the first Lost(n, h) of
      them into the history, in order and styled, and never wraps. */
  lemma {:induction false} RowsScroll(cw: char -> nat, t: Term, rows: seq<Row>, n: nat)
    requires Empty(t) && FittingRows(cw, rows, t.w) && n <= |rows|
    ensures Feed(cw, t, ScrollbackText(rows, n)) == Scrolled(t, rows[..n])
  {
    if n == 0 {
      FeedNothing(cw, t);
      NothingScrolled(t);
      assert rows[..0] == [];
    } else {
      RowsScroll(cw, t, rows, n - 1);
      ScrollNext(cw, t, rows, n);
    }
  }

  lemma ScrollNext(cw: char -> nat, t: Term, rows: seq<Row>, n: nat)
    requires Empty(t) && FittingRows(cw, rows, t.w) && 0 < n <= |rows|
    requires Feed(cw, t, ScrollbackText(rows, n - 1)) == Scrolled(t, rows[..n - 1])
    ensures Feed(cw, t, ScrollbackText(rows, n)) == Scrolled(t, rows[..n])
  {
    hide Feed, Scrolled, ScrollbackText, RowText, WellFormedRow;
    assert t.Valid() && WellFormedRow(cw, rows[n - 1]) && |rows[n - 1]| <= t.w;
    var before := rows[..n - 1];
    assert forall i :: 0 <= i < |before| ==> |before[i]| <= t.w;
    assert rows[..n] == before + [rows[n - 1]];
    hide *;
    ScrollOneRow(cw, t, before, rows[n - 1]);
    ScrollbackStep(rows, n);
    FeedConcat(cw, t, ScrollbackText(rows, n - 1), RowText(rows[n - 1]) + "\r\n" + RESET);
  }

  lemma ScrollbackStep(rows: seq<Row>, n: nat)
    requires 0 < n <= |rows|
    ensures ScrollbackText(rows, n) == ScrollbackText(rows, n - 1) + (RowText(rows[n - 1]) + "\r\n" + RESET)
  {
    hide RowText;
    Prepend(ScrollbackText(rows, n - 1), RowText(rows[n - 1]), "\r\n", RESET, "");
  }

  lemma NothingScrolled(t: Term)
    requires Empty(t)
    ensures Scrolled(t, []) == t
  {
    assert t.history + [] == t.history;
  }
}
