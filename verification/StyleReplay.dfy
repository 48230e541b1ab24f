/** A style survives the trip through its SGR sequence exactly when its colours
    are ones that the encoding distinguishes. */
module StyleReplay {
  import opened Decimal
  import opened Glyphs
  import opened Terminal

  /** BasicColor below 16, any indexed colour, and opaque 8-bit RGB. */
  predicate Faithful(c: Color) {
    match c
    case Default => true
    case Basic(idx) => idx < 16
    case Indexed(_) => true
    case TrueColor(r, g, b, a) => r % 257 == 0 && g % 257 == 0 && b % 257 == 0 && a == 0xFFFF
  }

  predicate FaithfulStyle(s: Style) {
    Faithful(s.fg) && Faithful(s.bg)
  }

  /** The colour a terminal holds after reading the encoding of c. */
  function Reread(c: Color): Color {
    match c
    case Default => Default
    case Basic(idx) => if idx < 16 then c else Indexed(idx)
    case Indexed(_) => c
    case TrueColor(r, g, b, _) => TrueColor(Widen(r / 0x100), Widen(g / 0x100), Widen(b / 0x100), 0xFFFF)
  }

  lemma RereadIsIdentityIff(c: Color)
    ensures Reread(c) == c <==> Faithful(c)
  {
    if c.TrueColor? {
      Channel(c.r);
      Channel(c.g);
      Channel(c.b);
    }
  }

  lemma Channel(v: Word)
    ensures Widen(v / 0x100) == v <==> v % 257 == 0
  {
    var q := v / 257;
    assert v == 257 * q + v % 257;
    if v % 257 == 0 {
      assert v / 0x100 == q;
    }
  }

  /** Reading one encoded colour before the parameters in rest. */
  lemma ReadColor(c: Color, isFG: bool, rest: seq<nat>, pen: Style)
    requires (if isFG then pen.fg else pen.bg) == Default
    ensures Sgr(ColorParams(c, isFG) + rest, pen) == Sgr(rest, SetColor(pen, isFG, Reread(c)))
  {
    var ps := ColorParams(c, isFG) + rest;
    match c
    case Default => assert ps == rest;
    case Basic(idx) =>
      if idx < 16 {
        assert ps[1..] == rest;
      } else {
        assert ps[3..] == rest;
      }
    case Indexed(idx) => assert ps[3..] == rest;
    case TrueColor(r, g, b, a) => assert ps[5..] == rest;
  }

  lemma ReadFlag(present: bool, n: nat, rest: seq<nat>, pen: Style)
    requires n < 38
    ensures Sgr(NumIf(present, n) + rest, pen) == Sgr(rest, if present then SgrOne(n, pen) else pen)
  {
    var ps := NumIf(present, n) + rest;
    if present {
      assert ps[1..] == rest;
    } else {
      assert ps == rest;
    }
  }

  /** The style a plain pen has after reading the encoding of s. */
  function RereadStyle(s: Style): Style {
    s.(fg := Reread(s.fg), bg := Reread(s.bg))
  }

  lemma ReadStyle(s: Style)
    ensures Sgr(StyleParams(s), PLAIN) == RereadStyle(s)
  {
    hide Sgr, StyleParams;
    var r7 := NumIf(s.blink, 5) + [];
    var r6 := NumIf(s.reverse, 7) + r7;
    var r5 := NumIf(s.underline, 4) + r6;
    var r4 := NumIf(s.italic, 3) + r5;
    var r3 := NumIf(s.bold, 1) + r4;
    var r2 := ColorParams(s.bg, false) + r3;
    var r1 := ColorParams(s.fg, true) + r2;
    assert StyleParams(s) == r1 by { Regrouped(s); }
    ReadColor(s.fg, true, r2, PLAIN);
    var p1 := PLAIN.(fg := Reread(s.fg));
    ReadColor(s.bg, false, r3, p1);
    var p2 := p1.(bg := Reread(s.bg));
    ReadFlag(s.bold, 1, r4, p2);
    var p3 := p2.(bold := s.bold);
    ReadFlag(s.italic, 3, r5, p3);
    var p4 := p3.(italic := s.italic);
    ReadFlag(s.underline, 4, r6, p4);
    var p5 := p4.(underline := s.underline);
    ReadFlag(s.reverse, 7, r7, p5);
    var p6 := p5.(reverse := s.reverse);
    ReadFlag(s.blink, 5, [], p6);
    assert Sgr([], p6.(blink := s.blink)) == p6.(blink := s.blink) by { ReadNothing(p6.(blink := s.blink)); }
  }

  lemma ReadNothing(pen: Style)
    ensures Sgr([], pen) == pen
  {
  }

  lemma Regrouped(s: Style)
    ensures StyleParams(s) ==
            ColorParams(s.fg, true) + (ColorParams(s.bg, false) + (NumIf(s.bold, 1) + (NumIf(s.italic, 3) +
            (NumIf(s.underline, 4) + (NumIf(s.reverse, 7) + (NumIf(s.blink, 5) + []))))))
  {
    RegroupSeven(ColorParams(s.fg, true), ColorParams(s.bg, false), NumIf(s.bold, 1), NumIf(s.italic, 3),
                 NumIf(s.underline, 4), NumIf(s.reverse, 7), NumIf(s.blink, 5));
  }

  lemma RegroupSeven(a: seq<nat>, b: seq<nat>, c: seq<nat>, d: seq<nat>, e: seq<nat>, f: seq<nat>, g: seq<nat>)
    ensures a + b + c + d + e + f + g == a + (b + (c + (d + (e + (f + (g + []))))))
  {
    assert g + [] == g;
    assert a + b + c + d + e + f + g == a + b + c + d + e + (f + g);
    assert a + b + c + d + e + (f + g) == a + b + c + d + (e + (f + g));
    assert a + b + c + d + (e + (f + g)) == a + b + c + (d + (e + (f + g)));
    assert a + b + c + (d + (e + (f + g))) == a + b + (c + (d + (e + (f + g))));
    assert a + b + (c + (d + (e + (f + g)))) == a + (b + (c + (d + (e + (f + g)))));
  }

  lemma ParamsAreBelowAt(s: string)
    requires ParamString(s)
    ensures forall i :: 0 <= i < |s| ==> s[i] < '@'
  {
    forall i | 0 <= i < |s| ensures s[i] < '@' {
      assert ParamChar(s[i]);
    }
  }

  /** Replaying a numeric control sequence hands its numbers to the terminal. */
  lemma FeedNumbers(cw: char -> nat, t: Term, ns: seq<nat>, final: char)
    requires t.Valid() && t.mode == Ground && ns != []
    requires '@' <= final <= '~'
    ensures ParamString(Csv(ns)) && Nums(Csv(ns)) == ns && (Csv(ns) == "" || Csv(ns)[0] != '?')
    ensures Feed(cw, t, CSI + Csv(ns) + [final]) == Execute(t, Csv(ns), final)
  {
    NumsOfCsv(ns);
    ParamsAreBelowAt(Csv(ns));
    assert Csv(ns) != "" ==> ParamChar(Csv(ns)[0]);
    FeedCsi(cw, t, Csv(ns), final);
  }

  /** A plain pen that reads the SGR text of a style takes on that style. */
  lemma FeedStyle(cw: char -> nat, t: Term, s: Style)
    requires t.Valid() && t.mode == Ground && t.pen == PLAIN
    ensures Feed(cw, t, GlyphANSI(s)) == t.(pen := RereadStyle(s))
  {
    StyleText(s);
    ReadStyle(s);
    var ns := StyleParams(s);
    if ns == [] {
      ReadNothing(PLAIN);
      assert GlyphANSI(s) == "";
      assert Feed(cw, t, "") == t;
    } else {
      FeedNumbers(cw, t, ns, 'm');
    }
  }

  const RESET: string := CSI + "0m"

  lemma FeedReset(cw: char -> nat, t: Term)
    requires t.Valid() && t.mode == Ground
    ensures Feed(cw, t, RESET) == t.(pen := PLAIN)
  {
    assert Csv([0]) == Dec(0) == "0";
    FeedNumbers(cw, t, [0], 'm');
    assert RESET == CSI + "0" + ['m'];
    assert Sgr([0], t.pen) == Sgr([], PLAIN) == PLAIN;
  }

  /** The encoding loses nothing exactly for the faithful styles. */
  lemma StyleSurvivesIff(cw: char -> nat, t: Term, s: Style)
    requires t.Valid() && t.mode == Ground && t.pen == PLAIN
    ensures Feed(cw, t, GlyphANSI(s)).pen == s <==> FaithfulStyle(s)
  {
    FeedStyle(cw, t, s);
    RereadIsIdentityIff(s.fg);
    RereadIsIdentityIff(s.bg);
  }
}
