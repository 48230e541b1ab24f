/** The managed block of a ticket's brief (internal/agent/brief.go). */
module Brief {
  import opened Text
  import opened Template
  import opened Wrappers

  function Start(): string { "<!-- openkanban:card-notes start -->" }
  function End(): string { "<!-- openkanban:card-notes end -->" }
  function Middle(): string { "\n## Notes (from openkanban card)\n\n" }

  /** The block carrying some text. */
  function Block(text: string): string {
    Start() + Middle() + text + "\n" + End()
  }

  /** Where the pattern first matches: from the first start marker to the first end
      marker after it. */
  function FirstMatch(s: string): (r: Option<(nat, nat)>)
    ensures r.Some? ==> r.value.0 + |Start()| + |End()| <= r.value.1 <= |s|
  {
    var i := Index(s, Start());
    if i.None? then None
    else
      var j := IndexFrom(s, End(), i.value + |Start()|);
      if j.None? then None else Some((i.value, j.value + |End()|))
  }

  /** A match from i to e: the first start marker, and the first end marker after. */
  ghost predicate MatchAt(s: string, i: nat, e: nat) {
    && i + |Start()| + |End()| <= e <= |s|
    && At(s, i, Start()) && At(s, e - |End()|, End())
    && (forall j: nat :: j < i ==> !At(s, j, Start()))
    && (forall j: nat :: i + |Start()| <= j < e - |End()| ==> !At(s, j, End()))
  }

  lemma FirstMatchIs(s: string, i: nat, e: nat)
    ensures FirstMatch(s) == Some((i, e)) <==> MatchAt(s, i, e)
  {
    hide Start, End, IndexFrom;
    if MatchAt(s, i, e) {
      IndexIs(s, Start(), 0, i);
      IndexIs(s, End(), i + |Start()|, e - |End()|);
    }
  }

  lemma IndexIs(s: string, sub: string, from: nat, i: nat)
    requires from <= i && from <= |s| && At(s, i, sub)
    requires forall j :: from <= j < i ==> !At(s, j, sub)
    ensures IndexFrom(s, sub, from) == Some(i)
  {
    hide IndexFrom;
    var r := IndexFrom(s, sub, from);
    assert r.Some?;
  }

  predicate Matches(s: string) {
    FirstMatch(s).Some?
  }

  /** ReplaceAllString with the block as its template. */
  function ReplaceAll(wide: char -> bool, s: string, desc: string): string
    decreases |s|
  {
    var f := FirstMatch(s);
    if f.None? then s
    else
      var (i, e) := f.value;
      s[..i] + Expand(wide, Block(desc), s[i..e]) + ReplaceAll(wide, s[e..], desc)
  }

  function Separator(existing: string): string {
    if HasSuffix(existing, "\n\n") then ""
    else if HasSuffix(existing, "\n") then "\n"
    else if existing == "" then ""
    else "\n\n"
  }

  function Upsert(wide: char -> bool, existing: string, desc: string): string {
    if Matches(existing) then ReplaceAll(wide, existing, desc)
    else existing + Separator(existing) + Block(desc) + "\n"
  }

  function Heading(title: string): string {
    if TrimSpace(title) == "" then "" else "# " + TrimSpace(title) + "\n\n"
  }

  function Initial(title: string, desc: string): string {
    Heading(title) + Block(desc) + "\n"
  }

  // ---- The markers ----

  predicate Free(s: string, c: char) {
    forall k :: 0 <= k < |s| ==> s[k] != c
  }

  /** An opening bracket stands at the front and nowhere else. */
  predicate Opens(s: string) {
    |s| > 0 && s[0] == '<' && forall k :: 0 < k < |s| ==> s[k] != '<'
  }

  const FORK := 27 // where the markers begin to differ

  /** What the proofs use of the markers. */
  predicate Markers() {
    && Opens(Start()) && Opens(End())
    && Free(Start(), '\n') && Free(End(), '\n')
    && Free(Start(), '$') && Free(End(), '$') && Free(Middle(), '$')
    && Free(Middle(), '<') && |Middle()| > 0 && Middle()[0] == '\n'
    && FORK < |End()| < |Start()| && Start()[FORK] != End()[FORK]
  }

  lemma StartHolds()
    ensures Opens(Start()) && Free(Start(), '\n') && Free(Start(), '$')
  {
  }

  lemma EndHolds()
    ensures Opens(End()) && Free(End(), '\n') && Free(End(), '$')
  {
  }

  lemma MiddleHolds()
    ensures Free(Middle(), '$') && Free(Middle(), '<') && |Middle()| > 0 && Middle()[0] == '\n'
  {
  }

  lemma MarkersDiffer()
    ensures FORK < |End()| < |Start()| && Start()[FORK] != End()[FORK]
  {
  }

  lemma MarkersHold()
    ensures Markers()
  {
    hide Start, End, Middle, Opens, Free;
    StartHolds();
    EndHolds();
    MiddleHolds();
    MarkersDiffer();
  }

  lemma DiffersAt(s: string, j: nat, sub: string, k: nat)
    requires k < |sub| && (j + k < |s| ==> s[j + k] != sub[k])
    ensures !At(s, j, sub)
  {
    assert j + |sub| <= |s| ==> s[j..j + |sub|][k] == s[j + k];
  }

  lemma AtInside(s: string, sub: string, t: string, b: nat, j: nat)
    requires b <= j && j + |sub| <= b + |t| <= |s| && s[b..b + |t|] == t
    ensures At(s, j, sub) <==> At(t, j - b, sub)
  {
    SubSlice(s, b, b + |t|, j - b, j - b + |sub|);
  }

  /** Expanding the block expands the description alone. */
  lemma ExpandBlock(wide: char -> bool, desc: string, m: string)
    ensures Expand(wide, Block(desc), m) == Block(Expand(wide, desc, m))
  {
    MarkersHold();
    hide Start, End, Middle, Expand;
    var pre, post := Start() + Middle(), "\n" + End();
    BlockParts(desc);
    FreeSum(Start(), Middle(), '$');
    FreeSum("\n", End(), '$');
    ExpandPlain(wide, pre, desc + post, m);
    ExpandLine(wide, desc, post, m);
    BlockParts(Expand(wide, desc, m));
  }

  lemma FreeSum(a: string, b: string, c: char)
    requires Free(a, c) && Free(b, c)
    ensures c !in a + b && Free(a + b, c)
  {
    assert forall k :: 0 <= k < |a + b| ==> (a + b)[k] != c;
  }

  lemma BlockParts(text: string)
    ensures Block(text) == (Start() + Middle()) + (text + ("\n" + End()))
  {
    hide Start, End, Middle;
  }

  // ---- Where a block matches ----

  /** The pieces of a block inside a text, by position. */
  lemma Layout(p: string, text: string, rest: string)
    ensures var s, a := p + Block(text) + rest, |p| + |Start()|;
            var b := a + |Middle()|;
            var c := b + |text|;
            && |p| + |Block(text)| == c + 1 + |End()| <= |s|
            && s[..|p|] == p
            && s[|p|..a] == Start()
            && s[a..b] == Middle()
            && s[b..c] == text
            && s[c] == '\n'
            && s[c + 1..c + 1 + |End()|] == End()
            && s[|p|..|p| + |Block(text)|] == Block(text)
            && s[|p| + |Block(text)|..] == rest
  {
    hide Start, End, Middle;
  }

  /** The only end marker of a block that carries none is its own. */
  lemma EndOfBlock(p: string, text: string, rest: string, j: nat)
    requires !Contains(text, End())
    requires |p| <= j < |p| + |Block(text)| - |End()|
    ensures !At(p + Block(text) + rest, j, End())
  {
    MarkersHold();
    Layout(p, text, rest);
    hide Start, End, Middle, Contains, Block;
    var s := p + Block(text) + rest;
    var a := |p| + |Start()|;
    var b := a + |Middle()|;
    var c := b + |text|;
    if j < a {
      assert s[j] == s[|p|..a][j - |p|];
      assert s[|p| + FORK] == s[|p|..a][FORK];
      DiffersAt(s, j, End(), if j == |p| then FORK else 0);
    } else if j < b {
      assert s[j] == s[a..b][j - a];
      DiffersAt(s, j, End(), 0);
    } else if j + |End()| <= c {
      AtInside(s, End(), text, b, j);
      Absent(text, End(), j - b);
    } else {
      DiffersAt(s, j, End(), c - j);
    }
  }

  lemma Absent(s: string, sub: string, i: nat)
    requires !Contains(s, sub)
    ensures !At(s, i, sub)
  {
  }

  /** Text without a start marker, followed by one, has its first one there. */
  lemma StartAfter(p: string, s: string, j: nat)
    requires !Contains(p, Start()) && j < |p| < |s| && s[..|p|] == p && s[|p|] == '<'
    ensures !At(s, j, Start())
  {
    MarkersHold();
    hide Start, Contains;
    if j + |Start()| <= |p| {
      AtInside(s, Start(), p, 0, j);
      Absent(p, Start(), j);
    } else {
      DiffersAt(s, j, Start(), |p| - j);
    }
  }

  lemma FirstMatchOfBlock(p: string, text: string, rest: string)
    requires !Contains(p, Start()) && !Contains(text, End())
    ensures FirstMatch(p + Block(text) + rest) == Some((|p|, |p| + |Block(text)|))
  {
    MarkersHold();
    Layout(p, text, rest);
    hide Start, End, Middle, Contains, FirstMatch, Block;
    var s := p + Block(text) + rest;
    assert s[|p|] == s[|p|..|p| + |Start()|][0];
    forall j: nat | j < |p| ensures !At(s, j, Start()) {
      StartAfter(p, s, j);
    }
    var e := |p| + |Block(text)| - |End()|;
    forall j: nat | |p| + |Start()| <= j < e ensures !At(s, j, End()) {
      EndOfBlock(p, text, rest, j);
    }
    FirstMatchIs(s, |p|, e + |End()|);
  }
}
