/** Replaying a redraw stream rebuilds the screen it was made from. */
module ScreenReplay {
  import opened Decimal
  import opened Glyphs
  import opened Terminal
  import opened StyleReplay
  import opened Redraw
  import opened RowReplay

  /** Rows fill the width, the cursor is on the screen, and the title can be
      carried by an OSC string. */
  predicate WellFormed(cw: char -> nat, s: Screen) {
    && s.w > 0 && s.h > 0 && s.Sized() && s.cx < s.w && s.cy < s.h
    && (forall i :: 0 <= i < s.h ==> WellFormedRow(cw, s.cells[i]))
    && (forall i :: 0 <= i < |s.title| ==> s.title[i] != BEL && s.title[i] != ESC)
  }

  function ShownGrid(cells: seq<Row>): (g: seq<Row>)
    ensures |g| == |cells|
    ensures forall i :: 0 <= i < |cells| ==> g[i] == ShownRow(cells[i])
  {
    seq(|cells|, i requires 0 <= i < |cells| => ShownRow(cells[i]))
  }

  function Pos(n: int): nat {
    if n < 0 then 0 else n
  }

  /** The terminal that shows s; only its history and, for an untitled screen,
      its title come from t. */
  function Showing(t: Term, s: Screen): Term
    requires s.w > 0 && s.h > 0
  {
    Term(s.w, s.h, ShownGrid(s.cells), if s.altScreen then BlankGrid(s.w, s.h) else [],
         Pos(s.cy), Pos(s.cx), false, PLAIN, if s.title == "" then t.title else s.title,
         s.cursorVisible, s.mouseEnabled, s.mouseEnabled, s.altScreen, t.history, Ground)
  }

  lemma FeedReinit(cw: char -> nat, t: Term)
    requires t.Valid() && t.mode == Ground
    ensures Feed(cw, t, [ESC] + "c") == Reset(t)
  {
    FeedOne(cw, t, ESC);
    FeedSnoc(cw, t, [ESC], 'c');
    assert [ESC] + "c" == [ESC] + ['c'];
  }

  lemma FeedClear(cw: char -> nat, t: Term)
    requires t.Valid() && t.mode == Ground
    ensures Feed(cw, t, CSI + "2J") == t.(grid := BlankGrid(t.w, t.h))
  {
    assert Csv([2]) == Dec(2) == "2";
    FeedNumbers(cw, t, [2], 'J');
    assert CSI + "2J" == CSI + "2" + ['J'];
  }

  lemma FeedHome(cw: char -> nat, t: Term)
    requires t.Valid() && t.mode == Ground
    ensures Feed(cw, t, CSI + "H") == t.(row := 0, col := 0, wrap := false)
  {
    FeedCsi(cw, t, "", 'H');
    assert CSI + "H" == CSI + "" + ['H'];
  }

  /** CUP row;col with 1-based coordinates on the screen. */
  lemma FeedCup(cw: char -> nat, t: Term, row: nat, col: nat)
    requires t.Valid() && t.mode == Ground && row < t.h && col < t.w
    ensures Feed(cw, t, CupText(row + 1, col + 1)) == t.(row := row, col := col, wrap := false)
  {
    hide Feed, Csv, Dec, Nums;
    var ns := [row + 1, col + 1];
    CsvOfOne(row + 1);
    CsvSnoc([row + 1], col + 1);
    assert [row + 1] + [col + 1] == ns;
    FeedNumbers(cw, t, ns, 'H');
    CupIsCsi(row + 1, col + 1);
    assert Execute(t, Csv(ns), 'H') == Cup(t, ns) by { ExecuteCup(t, ns); }
  }

  lemma CupIsCsi(row: nat, col: nat)
    requires row > 0 && col > 0
    ensures CupText(row, col) == CSI + (Dec(row) + ";" + Dec(col)) + ['H']
  {
    hide Dec;
    Prepend(CSI, Dec(row), ";", Dec(col), ['H']);
    assert CSI + (Dec(row) + ";" + Dec(col) + ['H']) == CSI + (Dec(row) + ";" + Dec(col)) + ['H'];
  }

  lemma ExecuteCup(t: Term, ns: seq<nat>)
    requires t.Valid() && ns != [] && ParamString(Csv(ns)) && Nums(Csv(ns)) == ns
    requires Csv(ns) == "" || Csv(ns)[0] != '?'
    ensures Execute(t, Csv(ns), 'H') == Cup(t, ns)
  {
  }

  lemma FeedMode(cw: char -> nat, t: Term, n: nat, digits: string, final: char)
    requires t.Valid() && t.mode == Ground && digits == Dec(n) && (final == 'h' || final == 'l')
    ensures Feed(cw, t, CSI + ("?" + digits) + [final]) == SetMode(t, n, final == 'h')
  {
    hide Dec, SetMode;
    NumsOfOne(n);
    ParamsAreBelowAt(Dec(n));
    var body := "?" + Dec(n);
    assert body[1..] == Dec(n);
    FeedCsi(cw, t, body, final);
  }

  lemma ModeDigits()
    ensures Dec(25) == "25" && Dec(1000) == "1000" && Dec(1006) == "1006" && Dec(1049) == "1049"
  {
    assert Dec(100) == "100";
    assert Dec(104) == "104";
  }

  lemma FeedOn(cw: char -> nat, t: Term, n: nat, digits: string)
    requires t.Valid() && t.mode == Ground && digits == Dec(n)
    ensures Feed(cw, t, CSI + "?" + digits + "h") == SetMode(t, n, true)
  {
    FeedMode(cw, t, n, digits, 'h');
    assert CSI + "?" + digits + "h" == CSI + ("?" + digits) + ['h'];
  }

  lemma FeedModes(cw: char -> nat, t: Term, s: Screen)
    requires t.Valid() && t.mode == Ground && !t.alt && !t.clicks && !t.sgrMouse && t.grid == BlankGrid(t.w, t.h)
    requires t.primary == []
    ensures Feed(cw, t, ModesText(s)) ==
            t.(alt := s.altScreen, primary := if s.altScreen then BlankGrid(t.w, t.h) else [],
               clicks := s.mouseEnabled, sgrMouse := s.mouseEnabled)
  {
    hide Feed, Dec;
    ModeDigits();
    var a := if s.altScreen then CSI + "?1049h" else "";
    var m := if s.mouseEnabled then CSI + "?1000h" + CSI + "?1006h" else "";
    FeedConcat(cw, t, a, m);
    FeedNothing(cw, t);
    if s.altScreen {
      FeedOn(cw, t, 1049, "1049");
      assert CSI + "?" + "1049" + "h" == CSI + "?1049h";
    }
    var t1 := t.(alt := s.altScreen, primary := if s.altScreen then BlankGrid(t.w, t.h) else []);
    assert Feed(cw, t, a) == t1;
    if s.mouseEnabled {
      FeedMouse(cw, t1);
    } else {
      FeedNothing(cw, t1);
    }
  }

  lemma FeedMouse(cw: char -> nat, t: Term)
    requires t.Valid() && t.mode == Ground
    ensures Feed(cw, t, CSI + "?1000h" + CSI + "?1006h") == t.(clicks := true, sgrMouse := true)
  {
    hide Feed, Dec;
    ModeDigits();
    FeedOn(cw, t, 1000, "1000");
    assert CSI + "?" + "1000" + "h" == CSI + "?1000h";
    FeedOn(cw, t.(clicks := true), 1006, "1006");
    assert CSI + "?" + "1006" + "h" == CSI + "?1006h";
    FeedConcat(cw, t, CSI + "?1000h", CSI + "?1006h");
    assert CSI + "?1000h" + CSI + "?1006h" == CSI + "?1000h" + (CSI + "?1006h");
  }

  lemma {:induction false} FeedOscBody(cw: char -> nat, t: Term, text: string, s: string)
    requires t.Valid() && t.mode == Osc(text)
    requires forall i :: 0 <= i < |s| ==> s[i] != BEL && s[i] != ESC
    ensures Feed(cw, t, s) == t.(mode := Osc(text + s))
    decreases |s|
  {
    if s == "" {
      assert text + s == text;
    } else {
      FeedOscBody(cw, t.(mode := Osc(text + [s[0]])), text + [s[0]], s[1..]);
      assert text + [s[0]] + s[1..] == text + s;
    }
  }

  lemma FeedOscOpen(cw: char -> nat, t: Term)
    requires t.Valid() && t.mode == Ground
    ensures Feed(cw, t, [ESC] + "]") == t.(mode := Osc(""))
  {
    hide Feed;
    assert [ESC] + "]" == [ESC] + [']'];
    FeedOne(cw, t, ESC);
    FeedSnoc(cw, t, [ESC], ']');
  }

  lemma OscSetsTitle(cw: char -> nat, t: Term, title: string)
    requires t.Valid() && t.mode == Ground
    ensures Step(cw, t.(mode := Osc("2;" + title)), BEL) == t.(title := title)
  {
    var body := "2;" + title;
    assert body[..2] == "2;" && body[2..] == title;
  }

  lemma FeedTitle(cw: char -> nat, t: Term, title: string)
    requires t.Valid() && t.mode == Ground
    requires forall i :: 0 <= i < |title| ==> title[i] != BEL && title[i] != ESC
    ensures Feed(cw, t, TitleText(title)) == t.(title := if title == "" then t.title else title)
  {
    hide Feed, Step;
    FeedNothing(cw, t);
    if title != "" {
      var intro := [ESC] + "]";
      FeedOscOpen(cw, t);
      OscSetsTitle(cw, t, title);
      var body := "2;" + title;
      FeedOscBody(cw, t.(mode := Osc("")), "", body);
      assert "" + body == body;
      FeedConcat(cw, t, intro, body);
      FeedSnoc(cw, t, intro + body, BEL);
      assert TitleText(title) == intro + body + [BEL] by { TitleSplit(title); }
    }
  }

  lemma TitleSplit(title: string)
    requires title != ""
    ensures TitleText(title) == [ESC] + "]" + ("2;" + title) + [BEL]
  {
    assert "]2;" == "]" + "2;";
    assert [ESC] + "]2;" == [ESC] + "]" + "2;";
    assert [ESC] + "]" + "2;" + title == [ESC] + "]" + ("2;" + title);
  }

  // ---- The whole stream ----

  lemma FeedPrologue(cw: char -> nat, t: Term, s: Screen)
    requires t.Valid() && t.mode == Ground && t.w == s.w && t.h == s.h && WellFormed(cw, s)
    ensures Feed(cw, t, Prologue(s)) == Shot(t, s, 0)
  {
    hide Feed, Step, WellFormedRow, ModesText, TitleText, BlankGrid;
    var reinit, clear, home := [ESC] + "c", CSI + "2J", CSI + "H";
    FeedReinit(cw, t);
    FeedConcat(cw, t, reinit, clear);
    FeedClear(cw, Reset(t));
    FeedConcat(cw, t, reinit + clear, home);
    FeedHome(cw, Reset(t));
    FeedConcat(cw, t, reinit + clear + home, ModesText(s));
    FeedModes(cw, Reset(t), s);
    FeedConcat(cw, t, reinit + clear + home + ModesText(s), TitleText(s.title));
    var t1 := Feed(cw, Reset(t), ModesText(s));
    FeedTitle(cw, t1, s.title);
    assert Prologue(s) == reinit + clear + home + ModesText(s) + TitleText(s.title) by { PrologueSplit(s); }
    ShotStart(t, s);
  }

  lemma PrologueSplit(s: Screen)
    ensures Prologue(s) == ([ESC] + "c") + (CSI + "2J") + (CSI + "H") + ModesText(s) + TitleText(s.title)
  {
    hide ModesText, TitleText;
    var r := [ESC] + "c";
    assert r + CSI + "2J" == r + (CSI + "2J");
    assert r + (CSI + "2J") + CSI + "H" == r + (CSI + "2J") + (CSI + "H");
  }

  /** The terminal after the prologue and the first n rows of s. */
  function Shot(t: Term, s: Screen, n: nat): Term
    requires s.w > 0 && s.h > 0 && s.Sized() && n <= s.h && t.Valid()
  {
    Term(t.w, t.h, ShownGrid(s.cells)[..n] + BlankGrid(t.w, Pos(s.h - n)),
      if s.altScreen then BlankGrid(t.w, t.h) else [],
         if n == 0 then 0 else n - 1, if n == 0 then 0 else t.w - 1, n > 0, PLAIN,
         if s.title == "" then t.title else s.title,
         true, s.mouseEnabled, s.mouseEnabled, s.altScreen, t.history, Ground)
  }

  lemma ShotStart(t: Term, s: Screen)
    requires s.w > 0 && s.h > 0 && s.Sized() && t.Valid()
    ensures ShownGrid(s.cells)[..0] + BlankGrid(t.w, Pos(s.h)) == BlankGrid(t.w, s.h)
  {
  }

  lemma ShotValid(t: Term, s: Screen, n: nat)
    requires s.w > 0 && s.h > 0 && s.Sized() && n <= s.h && t.Valid() && t.w == s.w && t.h == s.h
    ensures Shot(t, s, n).Valid()
  {
  }

  lemma ShotLine(t: Term, s: Screen, n: nat)
    requires s.w > 0 && s.h > 0 && s.Sized() && 0 < n <= s.h && t.Valid() && t.w == s.w && t.h == s.h
    ensures var p := Shot(t, s, n - 1);
            p.Valid() && p.grid[n - 1] == BlankRow(t.w)
            && p.grid[n - 1 := ShownRow(s.cells[n - 1])] == Shot(t, s, n).grid
  {
    ShotValid(t, s, n - 1);
    hide ShownRow, BlankRow;
    var g := ShownGrid(s.cells);
    assert g[..n] == g[..n - 1] + [g[n - 1]];
  }

  lemma FeedRow(cw: char -> nat, t: Term, s: Screen, n: nat)
    requires WellFormed(cw, s) && 0 < n <= s.h && t.Valid() && t.w == s.w && t.h == s.h
    ensures Shot(t, s, n - 1).Valid()
    ensures Feed(cw, Shot(t, s, n - 1), CupText(n, 1) + RowText(s.cells[n - 1])) == Shot(t, s, n)
  {
    hide Feed, WellFormedRow, RowText, CupText, ShownRow, ShownGrid;
    var p, row := Shot(t, s, n - 1), s.cells[n - 1];
    ShotLine(t, s, n);
    FeedConcat(cw, p, CupText(n, 1), RowText(row));
    FeedCup(cw, p, n - 1, 0);
    var q := p.(row := n - 1, col := 0, wrap := false);
    RowPaints(cw, q, row);
    assert Laid(row, t.w, t.w) == ShownRow(row) by { LaidFull(row); }
  }

  lemma LaidFull(row: Row)
    ensures Laid(row, |row|, |row|) == ShownRow(row)
  {
  }

  lemma {:induction false} FeedRows(cw: char -> nat, t: Term, s: Screen, n: nat)
    requires WellFormed(cw, s) && n <= s.h && t.Valid() && t.w == s.w && t.h == s.h
    ensures Shot(t, s, 0).Valid()
    ensures Feed(cw, Shot(t, s, 0), RowsText(s.cells, n)) == Shot(t, s, n)
  {
    hide Feed, WellFormedRow, CupText, RowText, Shot;
    ShotValid(t, s, 0);
    if n == 0 {
      FeedNothing(cw, Shot(t, s, 0));
    } else {
      FeedRows(cw, t, s, n - 1);
      FeedRow(cw, t, s, n);
      var last := CupText(n, 1) + RowText(s.cells[n - 1]);
      FeedConcat(cw, Shot(t, s, 0), RowsText(s.cells, n - 1), last);
      assert RowsText(s.cells, n) == RowsText(s.cells, n - 1) + last;
    }
  }

  lemma FeedEpilogue(cw: char -> nat, t: Term, s: Screen)
    requires t.Valid() && t.mode == Ground && t.visible && Pos(s.cx) < t.w && Pos(s.cy) < t.h
    ensures Feed(cw, t, Epilogue(s)) ==
      t.(row := Pos(s.cy), col := Pos(s.cx), wrap := false, visible := s.cursorVisible)
  {
    hide Feed, CupText, Dec;
    var cup := CupText(Pos(s.cy) + 1, Pos(s.cx) + 1);
    FeedCup(cw, t, Pos(s.cy), Pos(s.cx));
    var t1 := t.(row := Pos(s.cy), col := Pos(s.cx), wrap := false);
    if s.cursorVisible {
      assert Epilogue(s) == cup + "" == cup;
    } else {
      ModeDigits();
      var off := CSI + "?25l";
      FeedConcat(cw, t, cup, off);
      FeedMode(cw, t1, 25, "25", 'l');
      assert CSI + ("?" + "25") + ['l'] == off;
    }
  }

  /** Replaying the redraw stream on any terminal of the screen's size, in any
      state between sequences, shows the screen: grid, styles, cursor, title and
      modes. The history is untouched. */
  lemma RedrawReplay(cw: char -> nat, t: Term, s: Screen)
    requires t.Valid() && t.mode == Ground && t.w == s.w && t.h == s.h && WellFormed(cw, s)
    ensures Feed(cw, t, RedrawText(s)) == Showing(t, s)
  {
    hide Feed, Prologue, Epilogue, RowsText, WellFormedRow;
    FeedPrologue(cw, t, s);
    FeedConcat(cw, t, Prologue(s), RowsText(s.cells, s.h));
    FeedRows(cw, t, s, s.h);
    FeedConcat(cw, t, Prologue(s) + RowsText(s.cells, s.h), Epilogue(s));
    ShotValid(t, s, s.h);
    FeedEpilogue(cw, Shot(t, s, s.h), s);
    var g := ShownGrid(s.cells);
    assert g[..s.h] + BlankGrid(t.w, Pos(0)) == g;
  }
}
