/** Terminal cells and their SGR encoding (internal/terminal/glyph.go). */
module Glyphs {
  import opened Decimal

  const ESC := '\U{1B}'
  const NUL := '\0'
  const CSI: string := [ESC, '[']

  type Byte = n: nat | n < 0x100
  type Word = n: nat | n < 0x1_0000

  /** The concrete colour types a cell can hold. TrueColor carries the 16-bit
      channels that the colour's RGBA method reports. */
  datatype Color =
    | Default
    | Basic(idx: Byte)
    | Indexed(idx: Byte)
    | TrueColor(r: Word, g: Word, b: Word, a: Word)

  datatype Style = Style(
    bold: bool, italic: bool, underline: bool, reverse: bool, blink: bool,
    fg: Color, bg: Color)

  datatype Glyph = Glyph(ch: char, style: Style, width: nat)

  const PLAIN := Style(false, false, false, false, false, Default, Default)
  const BLANK := Glyph(' ', PLAIN, 1)
  /** The right half of a wide glyph. */
  const CONT := Glyph(NUL, PLAIN, 0)

  /** Field by field, as the batching loop compares two cells. */
  predicate SameStyle(a: Glyph, b: Glyph)
    ensures SameStyle(a, b) <==> a.style == b.style
  {
    a.style.bold == b.style.bold &&
    a.style.italic == b.style.italic &&
    a.style.underline == b.style.underline &&
    a.style.reverse == b.style.reverse &&
    a.style.blink == b.style.blink &&
    a.style.fg == b.style.fg &&
    a.style.bg == b.style.bg
  }

  function BasicColorSGR(idx: Byte, isFG: bool): string {
    if idx < 8 then Dec((if isFG then 30 else 40) + idx)
    else if idx < 16 then Dec((if isFG then 90 else 100) + (idx - 8))
    else Dec(if isFG then 38 else 48) + ";5;" + Dec(idx)
  }

  function ColorANSI(c: Color, isFG: bool): string {
    match c
    case Default => ""
    case Basic(idx) => BasicColorSGR(idx, isFG)
    case Indexed(idx) => Dec(if isFG then 38 else 48) + ";5;" + Dec(idx)
    case TrueColor(r, g, b, _) =>
      Dec(if isFG then 38 else 48) + ";2;" + Dec(r / 0x100) + ";" + Dec(g / 0x100) + ";" + Dec(b / 0x100)
  }

  function Join(parts: seq<string>): string {
    if parts == [] then ""
    else if |parts| == 1 then parts[0]
    else Join(parts[..|parts| - 1]) + ";" + parts[|parts| - 1]
  }

  function Optional(present: bool, part: string): seq<string> {
    if present then [part] else []
  }

  function Parts(s: Style): seq<string> {
    Optional(ColorANSI(s.fg, true) != "", ColorANSI(s.fg, true)) +
    Optional(ColorANSI(s.bg, false) != "", ColorANSI(s.bg, false)) +
    Optional(s.bold, "1") +
    Optional(s.italic, "3") +
    Optional(s.underline, "4") +
    Optional(s.reverse, "7") +
    Optional(s.blink, "5")
  }

  function GlyphANSI(s: Style): string {
    if Parts(s) == [] then "" else CSI + Join(Parts(s)) + "m"
  }

  // ---- The same encoding as a list of numbers ----

  function ColorParams(c: Color, isFG: bool): seq<nat> {
    var base: nat := if isFG then 0 else 10;
    match c
    case Default => []
    case Basic(idx) =>
      if idx < 8 then [30 + base + idx]
      else if idx < 16 then [82 + base + idx]
      else [38 + base, 5, idx]
    case Indexed(idx) => [38 + base, 5, idx]
    case TrueColor(r, g, b, _) => [38 + base, 2, r / 0x100, g / 0x100, b / 0x100]
  }

  function NumIf(present: bool, n: nat): seq<nat> {
    if present then [n] else []
  }

  function StyleParams(s: Style): seq<nat> {
    ColorParams(s.fg, true) + ColorParams(s.bg, false) +
    NumIf(s.bold, 1) + NumIf(s.italic, 3) + NumIf(s.underline, 4) + NumIf(s.reverse, 7) + NumIf(s.blink, 5)
  }

  lemma CsvOfThree(a: nat, b: nat, c: nat)
    ensures Csv([a, b, c]) == Dec(a) + ";" + Dec(b) + ";" + Dec(c)
  {
    CsvSnoc([a], b);
    CsvSnoc([a, b], c);
    assert [a, b] + [c] == [a, b, c];
  }

  lemma Regroup(s: string, a: string, b: string, c: string)
    ensures s + (a + b + c) == s + a + b + c
  {
  }

  lemma TripleText(base: nat, kind: nat, x: nat, infix: string)
    requires infix == ";" + Dec(kind) + ";"
    ensures Dec(base) + infix + Dec(x) == Csv([base, kind, x])
  {
    CsvOfThree(base, kind, x);
    Regroup(Dec(base), ";", Dec(kind), ";");
  }

  lemma PaletteText(base: nat, idx: nat)
    ensures Dec(base) + ";5;" + Dec(idx) == Csv([base, 5, idx])
  {
    assert Dec(5) == "5";
    TripleText(base, 5, idx, ";5;");
  }

  lemma TrueColorText(base: nat, r: nat, g: nat, b: nat)
    ensures Dec(base) + ";2;" + Dec(r) + ";" + Dec(g) + ";" + Dec(b) == Csv([base, 2, r, g, b])
  {
    assert Dec(2) == "2";
    TripleText(base, 2, r, ";2;");
    CsvSnoc([base, 2, r], g);
    assert [base, 2, r] + [g] == [base, 2, r, g];
    CsvSnoc([base, 2, r, g], b);
    assert [base, 2, r, g] + [b] == [base, 2, r, g, b];
  }

  lemma ColorText(c: Color, isFG: bool)
    ensures ColorANSI(c, isFG) == Csv(ColorParams(c, isFG))
    ensures ColorANSI(c, isFG) == "" <==> ColorParams(c, isFG) == []
  {
    CsvAlphabet(ColorParams(c, isFG));
    var base := if isFG then 38 else 48;
    match c
    case Default =>
    case Basic(idx) =>
      if idx < 8 {
        CsvOfOne((if isFG then 30 else 40) + idx);
      } else if idx < 16 {
        CsvOfOne((if isFG then 90 else 100) + (idx - 8));
      } else {
        PaletteText(base, idx);
      }
    case Indexed(idx) => PaletteText(base, idx);
    case TrueColor(r, g, b, _) => TrueColorText(base, r / 0x100, g / 0x100, b / 0x100);
  }

  /** Appending one optional part to a joined list appends its numbers. */
  lemma JoinSnoc(parts: seq<string>, ns: seq<nat>, part: string, more: seq<nat>)
    requires Join(parts) == Csv(ns) && (parts == [] <==> ns == [])
    requires part == Csv(more) && (part == "" <==> more == [])
    ensures var longer := parts + Optional(part != "", part);
            Join(longer) == Csv(ns + more) && (longer == [] <==> ns + more == [])
  {
    if more == [] {
      assert ns + more == ns;
      assert parts + [] == parts;
    } else if ns == [] {
      assert ns + more == more;
      assert parts + [part] == [part];
    } else {
      CsvConcat(ns, more);
      assert (parts + [part])[..|parts|] == parts;
    }
  }

  lemma JoinFlag(parts: seq<string>, ns: seq<nat>, present: bool, n: nat, part: string)
    requires Join(parts) == Csv(ns) && (parts == [] <==> ns == [])
    requires part == Dec(n)
    ensures Join(parts + Optional(present, part)) == Csv(ns + NumIf(present, n))
    ensures parts + Optional(present, part) == [] <==> ns + NumIf(present, n) == []
  {
    if present {
      CsvOfOne(n);
      JoinSnoc(parts, ns, part, [n]);
    } else {
      assert parts + [] == parts && ns + [] == ns;
    }
  }

  lemma ColorsText(s: Style)
    ensures var fg, bg := ColorANSI(s.fg, true), ColorANSI(s.bg, false);
            var parts := Optional(fg != "", fg) + Optional(bg != "", bg);
            var ns := ColorParams(s.fg, true) + ColorParams(s.bg, false);
            Join(parts) == Csv(ns) && (parts == [] <==> ns == [])
  {
    var fg, fgNums := ColorANSI(s.fg, true), ColorParams(s.fg, true);
    ColorText(s.fg, true);
    ColorText(s.bg, false);
    JoinSnoc([], [], fg, fgNums);
    var p1 := Optional(fg != "", fg);
    assert [] + p1 == p1 && [] + fgNums == fgNums;
    JoinSnoc(p1, fgNums, ColorANSI(s.bg, false), ColorParams(s.bg, false));
  }

  lemma DigitsText()
    ensures Dec(1) == "1" && Dec(3) == "3" && Dec(4) == "4" && Dec(5) == "5" && Dec(7) == "7"
  {
  }

  /** The text of a style is the CSI form of its parameter numbers. */
  lemma StyleText(s: Style)
    ensures GlyphANSI(s) == if StyleParams(s) == [] then "" else CSI + Csv(StyleParams(s)) + "m"
  {
    hide Join, Csv, Optional, NumIf, ColorANSI, ColorParams, Dec;
    DigitsText();
    ColorsText(s);
    var fg, bg := ColorANSI(s.fg, true), ColorANSI(s.bg, false);
    var p0, n0 := Optional(fg != "", fg) + Optional(bg != "", bg), ColorParams(s.fg, true) + ColorParams(s.bg, false);
    JoinFlag(p0, n0, s.bold, 1, "1");
    var p1, n1 := p0 + Optional(s.bold, "1"), n0 + NumIf(s.bold, 1);
    JoinFlag(p1, n1, s.italic, 3, "3");
    var p2, n2 := p1 + Optional(s.italic, "3"), n1 + NumIf(s.italic, 3);
    JoinFlag(p2, n2, s.underline, 4, "4");
    var p3, n3 := p2 + Optional(s.underline, "4"), n2 + NumIf(s.underline, 4);
    JoinFlag(p3, n3, s.reverse, 7, "7");
    var p4, n4 := p3 + Optional(s.reverse, "7"), n3 + NumIf(s.reverse, 7);
    JoinFlag(p4, n4, s.blink, 5, "5");
  }
}
