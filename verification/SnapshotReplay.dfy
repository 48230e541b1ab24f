/** What an attaching client ends up with after replaying a snapshot. */
module SnapshotReplay {
  import opened Glyphs
  import opened Terminal
  import opened StyleReplay
  import opened Redraw
  import opened RowReplay
  import opened ScrollbackReplay
  import opened ScreenReplay

  /** A fresh terminal that replays history and redraw shows the screen, and its
      history holds exactly the first Lost(k, h) rows: the redraw's RIS erases
      the last h - 1 rows of history before they scroll off. */
  lemma SnapshotReplayed(cw: char -> nat, rows: seq<Row>, s: Screen)
    requires WellFormed(cw, s) && FittingRows(cw, rows, s.w)
    ensures var lines := Lines(rows, s.w);
            Feed(cw, Fresh(s.w, s.h), SnapshotText(rows, s)) ==
            Showing(Fresh(s.w, s.h), s).(history := lines[..Lost(|rows|, s.h)])
  {
    hide Feed, RedrawText, ScrollbackText, Lines;
    var t := Fresh(s.w, s.h);
    RowsScroll(cw, t, rows, |rows|);
    assert rows[..|rows|] == rows;
    FeedConcat(cw, t, ScrollbackText(rows, |rows|), RedrawText(s));
    RedrawReplay(cw, Scrolled(t, rows), s);
    var kept := Lines(rows, s.w)[..Lost(|rows|, s.h)];
    assert [] + kept == kept;
  }

  /** The client recovers the whole history exactly when there is none or the
      screen has a single row. */
  lemma HistoryCompleteIff(cw: char -> nat, rows: seq<Row>, s: Screen)
    requires WellFormed(cw, s) && FittingRows(cw, rows, s.w)
    ensures Feed(cw, Fresh(s.w, s.h), SnapshotText(rows, s)).history == Lines(rows, s.w)
            <==> rows == [] || s.h == 1
  {
    hide Feed, SnapshotText, WellFormedRow, Showing;
    SnapshotReplayed(cw, rows, s);
    var lines := Lines(rows, s.w);
    assert lines[..|lines|] == lines;
  }

  predicate SameLook(g: Glyph, shown: Glyph) {
    && shown.width == g.width
    && (g.width != 0 ==> shown.ch == (if g.ch == NUL then ' ' else g.ch) && shown.style == g.style)
  }

  predicate FaithfulScreen(s: Screen)
    requires s.w > 0 && s.h > 0 && s.Sized()
  {
    forall r, c :: 0 <= r < s.h && 0 <= c < s.w && s.cells[r][c].width != 0 ==> FaithfulStyle(s.cells[r][c].style)
  }

  /** Every cell of the replayed screen looks like its source exactly when the
      source uses no basic colour above 15 and only opaque 8-bit RGB. */
  lemma LooksSameIff(cw: char -> nat, t: Term, s: Screen)
    requires t.Valid() && t.mode == Ground && t.w == s.w && t.h == s.h && WellFormed(cw, s)
    ensures var g := Feed(cw, t, RedrawText(s)).grid;
            && |g| == s.h && (forall r :: 0 <= r < s.h ==> |g[r]| == s.w)
            && ((forall r, c :: 0 <= r < s.h && 0 <= c < s.w ==>
               SameLook(s.cells[r][c], g[r][c])) <==> FaithfulScreen(s))
  {
    hide Feed, RedrawText, WellFormedRow, StyleReplay.Faithful, Reread;
    RedrawReplay(cw, t, s);
    var g := Feed(cw, t, RedrawText(s)).grid;
    forall r, c | 0 <= r < s.h && 0 <= c < s.w
      ensures SameLook(s.cells[r][c], g[r][c]) <==> (s.cells[r][c].width != 0 ==> FaithfulStyle(s.cells[r][c].style))
    {
      RereadIsIdentityIff(s.cells[r][c].style.fg);
      RereadIsIdentityIff(s.cells[r][c].style.bg);
      assert g[r][c] == Shown(s.cells[r][c]);
    }
  }
}
