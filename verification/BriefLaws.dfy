/** The laws of the managed block: when an upsert settles, and what it keeps. */
module BriefLaws {
  import opened Text
  import opened Template
  import opened Brief
  import opened Wrappers

  // ---- Counting end markers ----

  function Ends(s: string): nat {
    if s == "" then 0 else (if At(s, 0, End()) then 1 else 0) + Ends(s[1..])
  }

  lemma {:induction false} EndsAtLeast(a: string, b: string)
    ensures Ends(a + b) >= Ends(a) + Ends(b)
  {
    hide End;
    if a == "" {
      assert a + b == b;
    } else {
      assert (a + b)[1..] == a[1..] + b;
      assert At(a, 0, End()) ==> (a + b)[..|End()|] == a[..|End()|];
      EndsAtLeast(a[1..], b);
    }
  }

  /** No end marker begins in a and ends in b. */
  ghost predicate Parts(a: string, b: string) {
    forall j: nat :: j < |a| && j + |End()| > |a| ==> !At(a + b, j, End())
  }

  lemma {:induction false} EndsAddUp(a: string, b: string)
    requires Parts(a, b)
    ensures Ends(a + b) == Ends(a) + Ends(b)
  {
    hide End;
    if a == "" {
      assert a + b == b;
    } else {
      var s, t := a + b, a[1..] + b;
      assert s[1..] == t;
      forall j: nat | j < |a[1..]| && j + |End()| > |a[1..]| ensures !At(t, j, End()) {
        assert !At(s, j + 1, End());
        assert j + |End()| <= |t| ==> t[j..j + |End()|] == s[j + 1..j + 1 + |End()|];
      }
      EndsAddUp(a[1..], b);
      if |a| >= |End()| {
        assert s[..|End()|] == a[..|End()|];
      } else {
        assert !At(s, 0, End());
      }
    }
  }

  lemma {:induction false} NoEnds(s: string)
    ensures Ends(s) == 0 <==> !Contains(s, End())
  {
    hide End;
    if s == "" {
      EndHolds();
    } else {
      NoEnds(s[1..]);
      if At(s, 0, End()) {
        ContainsHere(s, End(), 0);
      } else {
        ContainsShifts(s, End());
      }
    }
  }

  lemma ContainsHere(s: string, sub: string, i: nat)
    requires At(s, i, sub)
    ensures Contains(s, sub)
  {
  }

  lemma ContainsShifts(s: string, sub: string)
    requires s != "" && !At(s, 0, sub)
    ensures Contains(s, sub) <==> Contains(s[1..], sub)
  {
    var t := s[1..];
    forall i: nat ensures At(t, i, sub) <==> At(s, i + 1, sub) {
      assert i + 1 + |sub| <= |s| ==> t[i..i + |sub|] == s[i + 1..i + 1 + |sub|];
    }
    if Contains(s, sub) {
      var i :| 0 <= i <= |s| && At(s, i, sub);
      assert At(t, i - 1, sub);
    }
    if Contains(t, sub) {
      var i :| 0 <= i <= |t| && At(t, i, sub);
      assert At(s, i + 1, sub);
    }
  }

  /** Nothing straddles the front of an end marker, or of a start marker. */
  lemma PartsBefore(a: string, b: string)
    requires b != "" && b[0] == '<'
    ensures Parts(a, b)
  {
    EndHolds();
    hide End;
    forall j: nat | j < |a| && j + |End()| > |a| ensures !At(a + b, j, End()) {
      DiffersAt(a + b, j, End(), |a| - j);
    }
  }

  lemma PartsAfter(a: string, b: string)
    requires |End()| <= |a| && a[|a| - |End()|..] == End()
    ensures Parts(a, b)
  {
    EndHolds();
    hide End;
    var e := |a| - |End()|;
    forall j: nat | j < |a| && j + |End()| > |a| ensures !At(a + b, j, End()) {
      assert (a + b)[j] == a[e..][j - e];
      DiffersAt(a + b, j, End(), 0);
    }
  }

  /** A match begins with a start marker and ends with its first end marker. */
  lemma MatchShape(s: string)
    requires Matches(s)
    ensures var (i, e) := FirstMatch(s).value;
            var t := s[i..e - |End()|];
            && s[i..e] == t + End()
            && s == s[..i] + (t + End()) + s[e..]
            && t != "" && t[0] == '<'
            && !Contains(s[..i], Start()) && !Contains(t, End())
  {
    StartHolds();
    hide Start, End, Contains, FirstMatch;
    var (i, e) := FirstMatch(s).value;
    FirstMatchIs(s, i, e);
    OnlyEnd(s, i, e);
    assert s[i] == s[i..i + |Start()|][0];
    NotBefore(s, Start(), i);
    Cut(s, i, e - |End()|, e);
  }

  lemma Cut(s: string, i: nat, d: nat, e: nat)
    requires i <= d <= e <= |s|
    ensures s[i..e] == s[i..d] + s[d..e]
    ensures s == s[..i] + s[i..e] + s[e..]
  {
  }

  /** Text that begins with a start marker, and has no end marker after it. */
  lemma NoEndAfter(t: string)
    requires |t| >= |Start()| && t[..|Start()|] == Start()
    requires forall j: nat :: |Start()| <= j && j + |End()| <= |t| ==> !At(t, j, End())
    ensures !Contains(t, End())
  {
    MarkersHold();
    hide Start, End, Contains;
    forall j: nat | j < |t| ensures !At(t, j, End()) {
      if j < |Start()| {
        assert t[j] == Start()[j] && t[FORK] == Start()[FORK];
        DiffersAt(t, j, End(), if j == 0 then FORK else 0);
      }
    }
    NowhereMeansNot(t, End());
  }

  lemma OnlyEnd(s: string, i: nat, e: nat)
    requires FirstMatch(s) == Some((i, e))
    ensures !Contains(s[i..e - |End()|], End())
  {
    FirstMatchIs(s, i, e);
    EndHolds();
    hide Start, End, Contains, FirstMatch;
    var t := s[i..e - |End()|];
    SubSlice(s, i, e - |End()|, 0, |Start()|);
    forall j: nat | |Start()| <= j && j + |End()| <= |t| ensures !At(t, j, End()) {
      assert !At(s, i + j, End());
      AtInside(s, End(), t, i, i + j);
    }
    NoEndAfter(t);
  }

  lemma NowhereMeansNot(s: string, sub: string)
    requires sub != "" && forall j: nat :: j < |s| ==> !At(s, j, sub)
    ensures !Contains(s, sub)
  {
  }

  lemma NotBefore(s: string, sub: string, i: nat)
    requires i <= |s| && sub != "" && forall j: nat :: j < i ==> !At(s, j, sub)
    ensures !Contains(s[..i], sub)
  {
    forall j: nat ensures !At(s[..i], j, sub) {
      if j + |sub| <= i {
        assert !At(s, j, sub);
        AtInside(s, sub, s[..i], 0, j);
      }
    }
  }

  lemma EndsAround(p: string, t: string, r: string)
    requires t != "" && t[0] == '<' && !Contains(t, End())
    ensures Ends(p + (t + End()) + r) == Ends(p) + 1 + Ends(r)
  {
    EndHolds();
    hide Start, End, Contains, Ends;
    var m := t + End();
    Regroup(p, m, r);
    PartsBefore(p, m + r);
    EndsAddUp(p, m + r);
    PartsAfter(m, r);
    EndsAddUp(m, r);
    PartsBefore(t, End());
    EndsAddUp(t, End());
    NoEnds(t);
    OneEnd();
  }

  lemma MatchEnds(s: string)
    requires Matches(s)
    ensures var (i, e) := FirstMatch(s).value;
            Ends(s) == Ends(s[..i]) + 1 + Ends(s[e..])
  {
    MatchShape(s);
    hide Start, End, Contains, FirstMatch, Ends;
    var (i, e) := FirstMatch(s).value;
    EndsAround(s[..i], s[i..e - |End()|], s[e..]);
  }

  lemma OneEnd()
    ensures Ends(End()) == 1
  {
    EndHolds();
    hide End;
    var t := End()[1..];
    forall j: nat | j < |t| ensures !At(t, j, End()) {
    }
    NowhereMeansNot(t, End());
    NoEnds(t);
    assert At(End(), 0, End());
  }

  /** A block has one end marker more than the text it carries. */
  lemma BlockEnds(text: string)
    ensures Ends(Block(text)) >= Ends(text) + 1
  {
    BlockParts(text);
    OneEnd();
    hide Start, End, Middle, Ends;
    EndsAtLeast(Start() + Middle(), text + ("\n" + End()));
    EndsAtLeast(text, "\n" + End());
    EndsAtLeast("\n", End());
  }

  // ---- When a replacement changes nothing ----

  /** No match is replaced by a text with an end marker of its own. */
  predicate AllClean(wide: char -> bool, s: string, desc: string)
    decreases |s|
  {
    var f := FirstMatch(s);
    f.None? ||
    var (i, e) := f.value;
    !Contains(Expand(wide, desc, s[i..e]), End()) && AllClean(wide, s[e..], desc)
  }

  /** Every match is the block that would replace it. */
  predicate AllFixed(wide: char -> bool, s: string, desc: string)
    decreases |s|
  {
    var f := FirstMatch(s);
    f.None? ||
    var (i, e) := f.value;
    s[i..e] == Block(Expand(wide, desc, s[i..e])) && AllFixed(wide, s[e..], desc)
  }

  lemma ReplaceFirst(wide: char -> bool, s: string, desc: string)
    requires Matches(s)
    ensures var (i, e) := FirstMatch(s).value;
            ReplaceAll(wide, s, desc) == s[..i] + Block(Expand(wide, desc, s[i..e])) + ReplaceAll(wide, s[e..], desc)
  {
    hide Block, Expand, FirstMatch;
    var (i, e) := FirstMatch(s).value;
    ExpandBlock(wide, desc, s[i..e]);
  }

  lemma {:induction false} ReplacingNeverLosesEnds(wide: char -> bool, s: string, desc: string)
    ensures Ends(ReplaceAll(wide, s, desc)) >= Ends(s)
    ensures !AllClean(wide, s, desc) ==> Ends(ReplaceAll(wide, s, desc)) > Ends(s)
    decreases |s|
  {
    if Matches(s) {
      hide Start, End, FirstMatch, Ends, Block, Expand, Contains;
      ReplaceFirst(wide, s, desc);
      MatchEnds(s);
      var (i, e) := FirstMatch(s).value;
      var text, rest := Expand(wide, desc, s[i..e]), ReplaceAll(wide, s[e..], desc);
      ReplacingNeverLosesEnds(wide, s[e..], desc);
      EndsAtLeast(s[..i] + Block(text), rest);
      EndsAtLeast(s[..i], Block(text));
      BlockEnds(text);
      NoEnds(text);
    }
  }

  lemma MatchOfTail(s: string, i: nat, e: nat)
    requires FirstMatch(s) == Some((i, e))
    ensures FirstMatch(s[i..]) == Some((0, e - i))
  {
    FirstMatchIs(s, i, e);
    hide Start, End, FirstMatch;
    var t := s[i..];
    AtShifts(s, i, 0, Start());
    AtShifts(s, i, e - |End()| - i, End());
    forall j: nat | |Start()| <= j < e - |End()| - i ensures !At(t, j, End()) {
      AtShifts(s, i, j, End());
    }
    FirstMatchIs(t, 0, e - i);
  }

  lemma AtShifts(s: string, i: nat, j: nat, sub: string)
    requires i <= |s|
    ensures At(s[i..], j, sub) <==> At(s, i + j, sub)
  {
    if i + j + |sub| <= |s| {
      assert s[i..][j..j + |sub|] == s[i + j..i + j + |sub|];
    }
  }

  lemma {:induction false} CleanAndUnchanged(wide: char -> bool, s: string, desc: string)
    requires AllClean(wide, s, desc) && ReplaceAll(wide, s, desc) == s
    ensures AllFixed(wide, s, desc)
    decreases |s|
  {
    if Matches(s) {
      hide Start, End, FirstMatch, Block, Expand, Contains, ReplaceAll;
      ReplaceFirst(wide, s, desc);
      var (i, e) := FirstMatch(s).value;
      var text, rest := Expand(wide, desc, s[i..e]), ReplaceAll(wide, s[e..], desc);
      TailIs(s, i, Block(text), rest);
      MatchOfTail(s, i, e);
      BlockThenRest(text, rest);
      SplitTail(s, i, e, Block(text), rest);
      CleanAndUnchanged(wide, s[e..], desc);
    }
  }

  lemma TailIs(s: string, i: nat, b: string, rest: string)
    requires i <= |s| && s == s[..i] + b + rest
    ensures s[i..] == b + rest
  {
    assert s == s[..i] + (b + rest);
  }

  lemma SplitTail(s: string, i: nat, e: nat, b: string, rest: string)
    requires i <= e <= |s| && s[i..] == b + rest && |b| == e - i
    ensures s[i..e] == b && s[e..] == rest
  {
    assert s[i..e] == s[i..][..e - i];
    assert s[e..] == s[i..][e - i..];
  }

  lemma BlockThenRest(text: string, rest: string)
    requires !Contains(text, End())
    ensures FirstMatch(Block(text) + rest) == Some((0, |Block(text)|))
  {
    StartHolds();
    hide Start, End, Block, Contains, FirstMatch;
    NothingContains(Start());
    FirstMatchOfBlock("", text, rest);
    assert "" + Block(text) + rest == Block(text) + rest;
  }

  lemma NothingContains(sub: string)
    requires sub != ""
    ensures !Contains("", sub)
  {
  }

  lemma {:induction false} FixedIsUnchanged(wide: char -> bool, s: string, desc: string)
    requires AllFixed(wide, s, desc)
    ensures ReplaceAll(wide, s, desc) == s
    decreases |s|
  {
    if Matches(s) {
      hide FirstMatch, Block, Expand, ReplaceAll;
      ReplaceFirst(wide, s, desc);
      var (i, e) := FirstMatch(s).value;
      FixedIsUnchanged(wide, s[e..], desc);
      Cut(s, i, i, e);
    }
  }

  /** An upsert leaves a text alone if and only if the text has a match and each of
      its matches is already the block that would replace it. */
  lemma UnchangedIff(wide: char -> bool, s: string, desc: string)
    ensures Upsert(wide, s, desc) == s <==> Matches(s) && AllFixed(wide, s, desc)
  {
    hide AllFixed, AllClean, ReplaceAll, FirstMatch;
    if Matches(s) {
      ReplacingNeverLosesEnds(wide, s, desc);
      if ReplaceAll(wide, s, desc) == s {
        CleanAndUnchanged(wide, s, desc);
      }
      if AllFixed(wide, s, desc) {
        FixedIsUnchanged(wide, s, desc);
      }
    } else {
      assert |Upsert(wide, s, desc)| > |s|;
    }
  }

  // ---- A block at the end ----

  lemma BlockMatches(p: string, text: string, rest: string)
    ensures Matches(p + Block(text) + rest)
  {
    var s := p + Block(text) + rest;
    Layout(p, text, rest);
    hide Start, End, Middle, Block, IndexFrom;
    assert At(s, |p|, Start());
    assert At(s, |p| + |Block(text)| - |End()|, End());
  }

  /** What follows the last match. */
  function AfterMatches(s: string): string
    decreases |s|
  {
    var f := FirstMatch(s);
    if f.None? then s else AfterMatches(s[f.value.1..])
  }

  predicate EndsLine(s: string) {
    s == "" || s[|s| - 1] == '\n'
  }

  /** The part before a block that ends its line lends nothing to an end marker. */
  lemma NoEndBefore(h: string, text: string, rest: string, j: nat)
    requires EndsLine(h) && !Contains(text, End()) && !At(h, j, End())
    requires j < |h| + |Block(text)| - |End()|
    ensures !At(h + Block(text) + rest, j, End())
  {
    EndHolds();
    hide Start, End, Middle, Contains, Block;
    var s := h + Block(text) + rest;
    assert s[..|h|] == h;
    if j + |End()| <= |h| {
      AtInside(s, End(), h, 0, j);
    } else if j < |h| {
      assert s[|h| - 1] == '\n';
      DiffersAt(s, j, End(), |h| - 1 - j);
    } else {
      EndOfBlock(h, text, rest, j);
    }
  }

  lemma BlockEndsAt(h: string, text: string, rest: string)
    ensures var s, e := h + Block(text) + rest, |h| + |Block(text)|;
            && s[..|h|] == h
            && |End()| < |Block(text)| && e <= |s|
            && At(s, e - |End()|, End())
  {
    Layout(h, text, rest);
    hide Start, End, Middle, Block;
  }

  /** A start marker before the block, with no end marker after it. */
  ghost predicate OpenAt(h: string, i: nat) {
    && At(h, i, Start())
    && (forall j: nat :: j < i ==> !At(h, j, Start()))
    && (forall j: nat :: i + |Start()| <= j ==> !At(h, j, End()))
  }

  /** Such a marker swallows the block. */
  lemma OpenMarkerSwallows(h: string, text: string, rest: string, i: nat)
    requires EndsLine(h) && OpenAt(h, i) && !Contains(text, End())
    ensures FirstMatch(h + Block(text) + rest) == Some((i, |h| + |Block(text)|))
  {
    BlockEndsAt(h, text, rest);
    hide Start, End, Contains, FirstMatch, Block, At, EndsLine;
    var s := h + Block(text) + rest;
    var e := |h| + |Block(text)|;
    InsideFits(h, i);
    AtInside(s, Start(), h, 0, i);
    forall j: nat | j < i ensures !At(s, j, Start()) {
      assert !At(h, j, Start());
      AtInside(s, Start(), h, 0, j);
    }
    forall j: nat | i + |Start()| <= j < e - |End()| ensures !At(s, j, End()) {
      assert !At(h, j, End());
      NoEndBefore(h, text, rest, j);
    }
    MatchFits(h, text, i);
    FirstMatchIs(s, i, e);
  }

  lemma InsideFits(h: string, i: nat)
    requires At(h, i, Start())
    ensures i + |Start()| <= |h|
  {
  }

  lemma MatchFits(h: string, text: string, i: nat)
    requires i + |Start()| <= |h|
    ensures i + |Start()| + |End()| <= |h| + |Block(text)|
  {
    hide Start, End, Middle;
  }

  lemma BlockCancels(a: string, b: string)
    requires Block(a) == Block(b)
    ensures a == b
  {
    BlockParts(a);
    BlockParts(b);
    hide Start, End, Middle, Block;
    Cancels(Start() + Middle(), a, b, "\n" + End());
  }

  lemma Cancels(x: string, a: string, b: string, y: string)
    requires x + (a + y) == x + (b + y)
    ensures a == b
  {
    assert a == (x + (a + y))[|x|..|x| + |a|];
    assert b == (x + (b + y))[|x|..|x| + |b|];
  }

  /** A fixed match was made without referring to what it replaced, and carries no
      end marker of its own. */
  lemma FixedMatch(wide: char -> bool, s: string, desc: string)
    requires Matches(s) && ReplaceAll(wide, s, desc) == s
    ensures var (i, e) := FirstMatch(s).value;
            && s[i..e] == Block(Expand(wide, desc, ""))
            && !UsesMatch(wide, desc)
            && !Contains(Expand(wide, desc, ""), End())
  {
    hide Start, End, Middle, Block, Contains, Expand, UsesMatch, FirstMatch, Ends, ReplaceAll;
    ReplacingNeverLosesEnds(wide, s, desc);
    CleanAndUnchanged(wide, s, desc);
    var (i, e) := FirstMatch(s).value;
    var m := s[i..e];
    MatchShape(s);
    if UsesMatch(wide, desc) {
      ExpandWithMatch(wide, desc, m);
      EndOf(s[i..e - |End()|]);
      ContainsWithin(Expand(wide, desc, m), m, End());
    }
    ExpandWithoutMatch(wide, desc, m, "");
  }

  lemma EndOf(t: string)
    ensures Contains(t + End(), End())
  {
    hide End;
    assert At(t + End(), |t|, End());
  }

  lemma ContainsWithin(s: string, m: string, sub: string)
    requires Contains(s, m) && Contains(m, sub)
    ensures Contains(s, sub)
  {
    var i :| 0 <= i <= |s| && At(s, i, m);
    ContainsPadded(s[..i], m, s[i + |m|..], sub);
    assert s == s[..i] + m + s[i + |m|..];
  }

  // ---- When a second upsert settles ----

  /** The description expands to the same text for every match, without an end
      marker. */
  predicate Clean(wide: char -> bool, desc: string) {
    !Contains(Expand(wide, desc, End()), End())
  }

  lemma CleanIff(wide: char -> bool, desc: string)
    ensures Clean(wide, desc) <==> !UsesMatch(wide, desc) && !Contains(Expand(wide, desc, ""), End())
  {
    hide End, Expand, UsesMatch;
    if UsesMatch(wide, desc) {
      ExpandWithMatch(wide, desc, End());
    } else {
      ExpandWithoutMatch(wide, desc, End(), "");
    }
  }

  lemma {:induction false} CleanForAll(wide: char -> bool, s: string, desc: string)
    requires Clean(wide, desc)
    ensures AllClean(wide, s, desc)
    decreases |s|
  {
    hide End, Expand, UsesMatch, FirstMatch, Clean, Contains;
    if Matches(s) {
      var (i, e) := FirstMatch(s).value;
      CleanIff(wide, desc);
      ExpandWithoutMatch(wide, desc, s[i..e], "");
      CleanForAll(wide, s[e..], desc);
    }
  }

  /** Replacing what was replaced gives what replacing once with the later
      description gives. */
  lemma {:induction false} ReplaceReplaced(wide: char -> bool, s: string, first: string, later: string)
    requires AllClean(wide, s, first) && !UsesMatch(wide, later)
    ensures ReplaceAll(wide, ReplaceAll(wide, s, first), later) == ReplaceAll(wide, s, later)
    decreases |s|
  {
    hide Start, End, Middle, Block, Contains, Expand, UsesMatch, FirstMatch, ReplaceAll;
    if Matches(s) {
      var (i, e) := FirstMatch(s).value;
      MatchShape(s);
      ReplaceFirst(wide, s, first);
      ReplaceFirst(wide, s, later);
      var text, rest := Expand(wide, first, s[i..e]), ReplaceAll(wide, s[e..], first);
      var t := s[..i] + Block(text) + rest;
      FirstMatchOfBlock(s[..i], text, rest);
      ReplaceFirst(wide, t, later);
      BlockInside(s[..i], text, rest);
      ExpandWithoutMatch(wide, later, s[i..e], Block(text));
      ReplaceReplaced(wide, s[e..], first, later);
    } else {
      NoMatchNoChange(wide, s, first);
    }
  }

  lemma NoMatchNoChange(wide: char -> bool, s: string, desc: string)
    requires !Matches(s)
    ensures ReplaceAll(wide, s, desc) == s
  {
  }

  lemma BlockInside(p: string, text: string, rest: string)
    ensures var t := p + Block(text) + rest;
            t[..|p|] == p && t[|p|..|p| + |Block(text)|] == Block(text) && t[|p| + |Block(text)|..] == rest
  {
    hide Block;
  }

  /** In a text with a match, a second upsert changes nothing if and only if the
      description is clean. */
  lemma MatchedSettlesIff(wide: char -> bool, s: string, desc: string)
    requires Matches(s)
    ensures var t := Upsert(wide, s, desc); Upsert(wide, t, desc) == t <==> Clean(wide, desc)
  {
    hide Start, End, Middle, Block, Contains, Expand, UsesMatch, FirstMatch, ReplaceAll, Clean;
    var t := ReplaceAll(wide, s, desc);
    var (i, e) := FirstMatch(s).value;
    ReplaceFirst(wide, s, desc);
    BlockMatches(s[..i], Expand(wide, desc, s[i..e]), ReplaceAll(wide, s[e..], desc));
    CleanIff(wide, desc);
    if Clean(wide, desc) {
      CleanForAll(wide, s, desc);
      ReplaceReplaced(wide, s, desc, desc);
    }
    if ReplaceAll(wide, t, desc) == t {
      FixedMatch(wide, t, desc);
    }
  }

  /** What appending needs of a description: no end marker, and nothing to expand. */
  predicate Appendable(wide: char -> bool, desc: string) {
    !Contains(desc, End()) && Inert(wide, desc)
  }

  lemma AppendableIsFixed(wide: char -> bool, h: string, desc: string)
    requires !Contains(h, Start()) && Appendable(wide, desc)
    ensures AllFixed(wide, h + Block(desc) + "\n", desc)
  {
    FirstMatchOfBlock(h, desc, "\n");
    BlockInside(h, desc, "\n");
    InertExpandsToItself(wide, desc, Block(desc));
    hide Start, End, Middle, Block, Contains, Expand, UsesMatch, FirstMatch;
    NoMatchInNewline();
  }

  lemma NoMatchInNewline()
    ensures !Matches("\n")
  {
    StartHolds();
    hide Start, End;
    forall j: nat ensures !At("\n", j, Start()) {
      DiffersAt("\n", j, Start(), 0);
    }
  }

  lemma FixedIsAppendable(wide: char -> bool, h: string, desc: string)
    requires EndsLine(h) && !Matches(h) && AllFixed(wide, h + Block(desc) + "\n", desc)
    ensures !Contains(h, Start()) && Appendable(wide, desc)
  {
    var t := h + Block(desc) + "\n";
    BlockMatches(h, desc, "\n");
    FixedIsUnchanged(wide, t, desc);
    FixedMatch(wide, t, desc);
    NoEndInDescription(wide, desc);
    ExpandWithoutMatch(wide, desc, "", "");
    var text := Expand(wide, desc, "");
    ShorterBlock(text, desc);
    if Contains(h, Start()) {
      var i := FirstStart(h);
      OpenMarkerSwallows(h, desc, "\n", i);
      hide *;
      assert false;
    }
    FirstMatchOfBlock(h, desc, "\n");
    BlockInside(h, desc, "\n");
    BlockCancels(text, desc);
  }

  lemma ShorterBlock(a: string, b: string)
    requires |a| <= |b|
    ensures |Block(a)| <= |Block(b)|
  {
    hide Start, End, Middle;
  }

  lemma NoEndInDescription(wide: char -> bool, desc: string)
    requires !Contains(Expand(wide, desc, ""), End())
    ensures !Contains(desc, End())
  {
    EndHolds();
    hide End, Expand;
    if Contains(desc, End()) {
      var i :| 0 <= i <= |desc| && At(desc, i, End());
      assert '$' !in End();
      ExpandKeeps(wide, desc, "", End(), i);
    }
  }

  lemma FirstStart(h: string) returns (i: nat)
    requires !Matches(h) && Contains(h, Start())
    ensures OpenAt(h, i)
  {
    hide Start, End;
    var r := Index(h, Start());
    assert r.Some?;
    i := r.value;
  }

  lemma MatchStays(h: string, rest: string, i: nat, e: nat)
    requires FirstMatch(h) == Some((i, e))
    ensures FirstMatch(h + rest) == Some((i, e))
  {
    FirstMatchIs(h, i, e);
    EndHolds();
    hide Start, End, FirstMatch;
    var s := h + rest;
    assert s[..|h|] == h;
    AtInside(s, Start(), h, 0, i);
    AtInside(s, End(), h, 0, e - |End()|);
    forall j: nat | j < i ensures !At(s, j, Start()) {
      AtInside(s, Start(), h, 0, j);
    }
    forall j: nat | i + |Start()| <= j < e - |End()| ensures !At(s, j, End()) {
      AtInside(s, End(), h, 0, j);
    }
    FirstMatchIs(s, i, e);
  }

  /** A text with a block appended is fixed if and only if it was, no start marker
      is left open in it, and the description is appendable. */
  lemma {:induction false} AppendedIsFixedIff(wide: char -> bool, h: string, desc: string)
    requires EndsLine(h)
    ensures AllFixed(wide, h + Block(desc) + "\n", desc) <==>
      AllFixed(wide, h, desc) && !Contains(AfterMatches(h), Start()) && Appendable(wide, desc)
    decreases |h|
  {
    hide Start, End, Middle, Block, Contains, Expand, FirstMatch, Appendable;
    var tail := Block(desc) + "\n";
    Regroup(h, Block(desc), "\n");
    if Matches(h) {
      var (i, e) := FirstMatch(h).value;
      StartHolds();
      MatchStays(h, tail, i, e);
      var t := h + tail;
      assert t[i..e] == h[i..e] && t[e..] == h[e..] + tail;
      Regroup(h[e..], Block(desc), "\n");
      AppendedIsFixedIff(wide, h[e..], desc);
    } else {
      if !Contains(h, Start()) && Appendable(wide, desc) {
        AppendableIsFixed(wide, h, desc);
      }
      if AllFixed(wide, h + Block(desc) + "\n", desc) {
        FixedIsAppendable(wide, h, desc);
      }
    }
  }

  // ---- The laws of Upsert ----

  /** Upserting desc into s settles at once. The guards are what a caller can look
      at: which branch is taken, and the two texts. */
  predicate Settles(wide: char -> bool, s: string, desc: string) {
    if Matches(s) then Clean(wide, desc) else !Contains(s, Start()) && Appendable(wide, desc)
  }

  lemma AppendedNewlines(s: string, sep: string, sub: string, j: nat)
    requires sub != "" && Free(sub, '\n') && forall k :: 0 <= k < |sep| ==> sep[k] == '\n'
    ensures At(s + sep, j, sub) <==> At(s, j, sub)
  {
    var t := s + sep;
    assert t[..|s|] == s;
    if j + |sub| <= |s| {
      AtInside(t, sub, s, 0, j);
    } else {
      DiffersAt(t, j, sub, if j < |s| then |s| - j else 0);
    }
  }

  /** The separator ends the line and brings no marker. */
  lemma SeparatorIsHarmless(s: string)
    requires !Matches(s)
    ensures var h := s + Separator(s);
            EndsLine(h) && !Matches(h) && (Contains(h, Start()) <==> Contains(s, Start()))
  {
    MarkersHold();
    hide Start, End, FirstMatch;
    var sep := Separator(s);
    var h := s + sep;
    assert sep == "" && s != "" ==> s[|s| - 2..][1] == s[|s| - 1];
    assert sep == "\n" ==> s[|s| - 1..][0] == s[|s| - 1];
    forall j: nat ensures At(h, j, Start()) <==> At(s, j, Start()) {
      AppendedNewlines(s, sep, Start(), j);
    }
    forall j: nat ensures At(h, j, End()) <==> At(s, j, End()) {
      AppendedNewlines(s, sep, End(), j);
    }
    SameMarkers(s, h);
  }

  lemma SameMarkers(s: string, h: string)
    requires forall j: nat :: At(h, j, Start()) <==> At(s, j, Start())
    requires forall j: nat :: At(h, j, End()) <==> At(s, j, End())
    ensures Contains(h, Start()) <==> Contains(s, Start())
    ensures Matches(h) ==> Matches(s)
  {
    hide Start, End, FirstMatch;
    if Contains(h, Start()) {
      var i :| 0 <= i <= |h| && At(h, i, Start());
      assert At(s, i, Start());
    }
    if Contains(s, Start()) {
      var i :| 0 <= i <= |s| && At(s, i, Start());
      assert At(h, i, Start());
    }
    if Matches(h) {
      var (i, e) := FirstMatch(h).value;
      FirstMatchIs(h, i, e);
      assert At(s, i, Start()) && At(s, e - |End()|, End());
      FirstMatchIs(s, i, e);
    }
  }

  lemma UnmatchedSettlesIff(wide: char -> bool, s: string, desc: string)
    requires !Matches(s)
    ensures var t := Upsert(wide, s, desc); Upsert(wide, t, desc) == t <==> Settles(wide, s, desc)
  {
    hide Start, End, Middle, Block, Contains, Expand, FirstMatch, ReplaceAll, Appendable, EndsLine, Separator;
    var h := s + Separator(s);
    SeparatorIsHarmless(s);
    BlockMatches(h, desc, "\n");
    UnchangedIff(wide, h + Block(desc) + "\n", desc);
    AppendedIsFixedIff(wide, h, desc);
  }

  /** Upserting twice equals upserting once, exactly when Settles holds. */
  lemma TwiceIsOnceIff(wide: char -> bool, s: string, desc: string)
    ensures var t := Upsert(wide, s, desc); Upsert(wide, t, desc) == t <==> Settles(wide, s, desc)
  {
    hide Upsert, FirstMatch, Clean, Contains, Appendable;
    if Matches(s) {
      MatchedSettlesIff(wide, s, desc);
    } else {
      UnmatchedSettlesIff(wide, s, desc);
    }
  }

  /** For a description without dollar signs and end marker, all that matters is
      that no start marker is left open. */
  lemma PlainDescriptionSettlesIff(wide: char -> bool, s: string, desc: string)
    requires '$' !in desc && !Contains(desc, End())
    ensures Settles(wide, s, desc) <==> Matches(s) || !Contains(s, Start())
  {
    NoDollarIsInert(wide, desc);
    InertExpandsToItself(wide, desc, End());
    hide Start, End, Contains, Expand, FirstMatch;
  }

  /** A later description overrides an earlier one. */
  lemma LaterOverridesEarlier(wide: char -> bool, s: string, first: string, later: string)
    requires if Matches(s) then AllClean(wide, s, first) && !UsesMatch(wide, later)
             else !Contains(s, Start()) && !Contains(first, End()) && Inert(wide, later)
    ensures Upsert(wide, Upsert(wide, s, first), later) == Upsert(wide, s, later)
  {
    hide Start, End, Middle, Block, Contains, Expand, UsesMatch, FirstMatch, ReplaceAll, Separator, EndsLine;
    if Matches(s) {
      var (i, e) := FirstMatch(s).value;
      ReplaceFirst(wide, s, first);
      BlockMatches(s[..i], Expand(wide, first, s[i..e]), ReplaceAll(wide, s[e..], first));
      ReplaceReplaced(wide, s, first, later);
    } else {
      var h := s + Separator(s);
      SeparatorIsHarmless(s);
      FirstMatchOfBlock(h, first, "\n");
      var t := h + Block(first) + "\n";
      ReplaceFirst(wide, t, later);
      BlockInside(h, first, "\n");
      InertExpandsToItself(wide, later, Block(first));
      NoMatchInNewline();
      NoMatchNoChange(wide, "\n", later);
    }
  }

  /** The texts between the matches. */
  function Outside(s: string): seq<string>
    decreases |s|
  {
    var f := FirstMatch(s);
    if f.None? then [s] else [s[..f.value.0]] + Outside(s[f.value.1..])
  }

  /** Replacing keeps every text outside the matches, and none of what it writes
      becomes a match with it. */
  lemma NewlineSuffix(s: string)
    ensures HasSuffix(s, "\n") <==> |s| >= 1 && s[|s| - 1] == '\n'
    ensures HasSuffix(s, "\n\n") <==> |s| >= 2 && s[|s| - 1] == '\n' && s[|s| - 2] == '\n'
  {
    if |s| >= 2 {
      var two := s[|s| - 2..];
      assert two[0] == s[|s| - 2] && two[1] == s[|s| - 1];
    }
  }

  /** An appended block begins the file or follows an empty line, and no more line
      ends are added than that takes. */
  lemma SeparatorLaw(s: string, sep: string)
    ensures s != "" ==> HasSuffix(s + Separator(s), "\n\n")
    ensures All(Separator(s), c => c == '\n')
    ensures s == "" || HasSuffix(s + sep, "\n\n") ==> |Separator(s)| <= |sep|
  {
    NewlineSuffix(s);
    NewlineSuffix(s + Separator(s));
    NewlineSuffix(s + sep);
    hide HasSuffix;
  }

  lemma {:induction false} ReplaceKeepsOutside(wide: char -> bool, s: string, desc: string)
    requires AllClean(wide, s, desc)
    ensures Outside(ReplaceAll(wide, s, desc)) == Outside(s)
    decreases |s|
  {
    hide Start, End, Middle, Block, Contains, Expand, FirstMatch, ReplaceAll;
    if Matches(s) {
      var (i, e) := FirstMatch(s).value;
      MatchShape(s);
      ReplaceFirst(wide, s, desc);
      var text, rest := Expand(wide, desc, s[i..e]), ReplaceAll(wide, s[e..], desc);
      FirstMatchOfBlock(s[..i], text, rest);
      BlockInside(s[..i], text, rest);
      ReplaceKeepsOutside(wide, s[e..], desc);
    } else {
      NoMatchNoChange(wide, s, desc);
    }
  }

  /** An upsert that settles keeps every byte outside the matches; one that appends
      keeps them all and only ends the last line. */
  lemma UpsertKeepsOutside(wide: char -> bool, s: string, desc: string)
    requires Settles(wide, s, desc)
    ensures Matches(s) ==> Outside(Upsert(wide, s, desc)) == Outside(s)
    ensures !Matches(s) ==> Outside(Upsert(wide, s, desc)) == [s + Separator(s), "\n"]
  {
    hide Start, End, Middle, Block, Contains, Expand, FirstMatch, ReplaceAll, Separator, EndsLine, Clean;
    if Matches(s) {
      CleanForAll(wide, s, desc);
      ReplaceKeepsOutside(wide, s, desc);
    } else {
      var h := s + Separator(s);
      SeparatorIsHarmless(s);
      FirstMatchOfBlock(h, desc, "\n");
      BlockInside(h, desc, "\n");
      NoMatchInNewline();
    }
  }

  /** A new brief is left alone by an upsert of its own description exactly when the
      description is appendable and its heading holds no markers at odds with it. */
  lemma InitialSettlesIff(wide: char -> bool, title: string, desc: string)
    ensures Upsert(wide, Initial(title, desc), desc) == Initial(title, desc) <==>
      AllFixed(wide, Heading(title), desc) && !Contains(AfterMatches(Heading(title)), Start()) && Appendable(wide, desc)
  {
    var h := Heading(title);
    assert EndsLine(h);
    hide Start, End, Middle, Block, Contains, Expand, FirstMatch, ReplaceAll, Appendable, Heading, EndsLine;
    BlockMatches(h, desc, "\n");
    UnchangedIff(wide, h + Block(desc) + "\n", desc);
    AppendedIsFixedIff(wide, h, desc);
  }

  /** With an ordinary title that leaves the description. */
  lemma OrdinaryTitleSettlesIff(wide: char -> bool, title: string, desc: string)
    requires !Contains(Heading(title), Start())
    ensures Upsert(wide, Initial(title, desc), desc) == Initial(title, desc) <==> Appendable(wide, desc)
  {
    InitialSettlesIff(wide, title, desc);
    NoStartNoMatch(Heading(title));
  }

  lemma NoStartNoMatch(s: string)
    requires !Contains(s, Start())
    ensures !Matches(s)
  {
    hide Start, End;
    var r := Index(s, Start());
    assert r.Some? ==> At(s, r.value, Start());
  }

  // ---- Descriptions that do not settle ----

  /** A dollar sign can be lost: the second upsert reads "$5" as a reference. */
  lemma PriceIsLost(wide: char -> bool, s: string)
    requires !Contains(s, Start())
    ensures !Settles(wide, s, "costs $5")
  {
    NoStartNoMatch(s);
    hide Start, End;
    var d := "costs $5";
    ExpandPlain(wide, "costs ", "$5", "");
    assert d == "costs " + "$5";
    FiveIsNothing(wide);
  }

  lemma FiveIsNothing(wide: char -> bool)
    ensures Expand(wide, "$5", "") == ""
  {
    var r := Reference(wide, "5");
    assert WordLen(wide, "5") == 1 by {
      assert WordLen(wide, "") == 0;
      assert "5"[1..] == "";
    }
    assert "$5"[1..] == "5" && "$5"[2..] == "";
    assert "5"[..1] == "5";
  }
}
