/** Go's replacement templates (regexp.Regexp.Expand) for a pattern without groups:
    $0 stands for the whole match, $$ for a dollar sign, and any other reference for
    nothing; a dollar sign that begins no reference stays. */
module Template {
  import opened Text

  /** A letter, digit or underscore; wide decides for the characters past ASCII. */
  predicate IsWord(wide: char -> bool, c: char) {
    || 'a' <= c <= 'z' || 'A' <= c <= 'Z' || '0' <= c <= '9' || c == '_'
    || (c >= '\U{80}' && wide(c))
  }

  function WordLen(wide: char -> bool, s: string): (n: nat)
    ensures n <= |s|
    ensures forall k :: 0 <= k < n ==> IsWord(wide, s[k])
    ensures n < |s| ==> !IsWord(wide, s[n])
  {
    if s == "" || !IsWord(wide, s[0]) then 0 else 1 + WordLen(wide, s[1..])
  }

  /** What follows a dollar sign: a name, perhaps in braces, and its length with
      them; no name when malformed. */
  function Reference(wide: char -> bool, s: string): (r: (string, nat))
    ensures r.1 <= |s| && (r.1 == 0 <==> r.0 == "")
    ensures forall k :: 0 <= k < r.1 ==> s[k] != '<'
  {
    if s != "" && s[0] == '{' then
      var w := WordLen(wide, s[1..]);
      if w == 0 || w + 1 >= |s| || s[w + 1] != '}' then ("", 0) else (s[1..w + 1], w + 2)
    else
      var w := WordLen(wide, s);
      (s[..w], w)
  }

  /** What the template begins with, and how much of it that takes. */
  datatype Piece = Literal(c: char) | Match | Nothing

  function First(wide: char -> bool, t: string): (r: (Piece, nat))
    requires t != ""
    ensures 1 <= r.1 <= |t|
    ensures t[0] != '$' ==> r == (Literal(t[0]), 1)
    ensures forall k :: 0 < k < r.1 ==> t[k] != '<'
  {
    if t[0] != '$' then (Literal(t[0]), 1)
    else if |t| > 1 && t[1] == '$' then (Literal('$'), 2)
    else
      var ref := Reference(wide, t[1..]);
      assert forall k :: 0 < k <= ref.1 ==> t[k] == t[1..][k - 1];
      if ref.0 == "" then (Literal('$'), 1) else (if ref.0 == "0" then Match else Nothing, 1 + ref.1)
  }

  function Render(p: Piece, m: string): string {
    match p case Literal(c) => [c] case Match => m case Nothing => ""
  }

  function Expand(wide: char -> bool, t: string, m: string): string
    decreases |t|
  {
    if t == "" then ""
    else
      var first := First(wide, t);
      Render(first.0, m) + Expand(wide, t[first.1..], m)
  }

  predicate Word(wide: char -> bool, w: string) {
    w != "" && All(w, c => IsWord(wide, c))
  }

  /** The name ends where w does. */
  predicate Stops(wide: char -> bool, t: string) {
    t == "" || !IsWord(wide, t[0])
  }

  lemma {:induction false} WordLenOf(wide: char -> bool, w: string, t: string)
    requires All(w, c => IsWord(wide, c)) && Stops(wide, t)
    ensures WordLen(wide, w + t) == |w|
  {
    if w == "" {
      assert w + t == t;
    } else {
      assert (w + t)[1..] == w[1..] + t;
      WordLenOf(wide, w[1..], t);
    }
  }

  lemma ExpandDollar(wide: char -> bool, rest: string, m: string)
    requires rest == "" || rest[0] != '$'
    ensures var (name, n) := Reference(wide, rest);
            Expand(wide, "$" + rest, m) ==
              if name == "" then "$" + Expand(wide, rest, m)
              else (if name == "0" then m else "") + Expand(wide, rest[n..], m)
  {
    var t := "$" + rest;
    assert t[1..] == rest;
    hide Reference;
    var n := Reference(wide, rest).1;
    assert t[1 + n..] == rest[n..];
  }

  lemma PlainName(wide: char -> bool, w: string, t: string)
    requires Word(wide, w) && Stops(wide, t)
    ensures Reference(wide, w + t) == (w, |w|)
  {
    WordLenOf(wide, w, t);
    assert (w + t)[..|w|] == w && (w + t)[0] == w[0];
  }

  lemma BracedName(wide: char -> bool, w: string, t: string)
    requires Word(wide, w)
    ensures Reference(wide, "{" + w + "}" + t) == (w, |w| + 2)
  {
    var s := "{" + w + "}" + t;
    assert s[1..] == w + ("}" + t) && s[1..|w| + 1] == w;
    WordLenOf(wide, w, "}" + t);
  }

  /** No name begins without a word character, and none ends outside its braces. */
  lemma NoName(wide: char -> bool, w: string, t: string)
    requires All(w, c => IsWord(wide, c)) && Stops(wide, t) && (w == "" || t == "" || t[0] != '}')
    ensures Reference(wide, "{" + w + t) == ("", 0)
    ensures w == "" && (t == "" || t[0] != '{') ==> Reference(wide, t) == ("", 0)
  {
    var s := "{" + w + t;
    assert s[1..] == w + t;
    WordLenOf(wide, w, t);
  }

  /** What each form of reference expands to: a doubled dollar sign to one, the name 0
      to the match, any other name to nothing, with braces or without. */
  lemma References(wide: char -> bool, w: string, t: string, m: string)
    ensures Expand(wide, "$$" + t, m) == "$" + Expand(wide, t, m)
    ensures Word(wide, w) && Stops(wide, t) ==>
      Expand(wide, "$" + (w + t), m) == (if w == "0" then m else "") + Expand(wide, t, m)
    ensures Word(wide, w) ==>
      Expand(wide, "$" + ("{" + w + "}" + t), m) == (if w == "0" then m else "") + Expand(wide, t, m)
  {
    assert ("$$" + t)[2..] == t;
    if Word(wide, w) {
      hide Expand, Reference;
      assert w[0] != '$';
      if Stops(wide, t) {
        PlainName(wide, w, t);
        ExpandDollar(wide, w + t, m);
        assert (w + t)[|w|..] == t;
      }
      BracedName(wide, w, t);
      ExpandDollar(wide, "{" + w + "}" + t, m);
      assert ("{" + w + "}" + t)[|w| + 2..] == t;
    }
  }

  /** A dollar sign that begins no reference stays. */
  lemma BareDollar(wide: char -> bool, w: string, t: string, m: string)
    requires All(w, c => IsWord(wide, c)) && Stops(wide, t) && (w == "" || t == "" || t[0] != '}')
    ensures Expand(wide, "$" + ("{" + w + t), m) == "$" + Expand(wide, "{" + w + t, m)
    ensures w == "" && (t == "" || t[0] !in "{$") ==> Expand(wide, "$" + t, m) == "$" + Expand(wide, t, m)
  {
    hide Expand, Reference;
    NoName(wide, w, t);
    ExpandDollar(wide, "{" + w + t, m);
    if w == "" && (t == "" || t[0] !in "{$") {
      ExpandDollar(wide, t, m);
    }
  }

  /** The template refers to the match. */
  predicate UsesMatch(wide: char -> bool, t: string)
    decreases |t|
  {
    t != "" &&
    var first := First(wide, t);
    first.0 == Match || UsesMatch(wide, t[first.1..])
  }

  lemma ContainsPadded(a: string, s: string, b: string, sub: string)
    requires Contains(s, sub)
    ensures Contains(a + s + b, sub)
  {
    var i :| 0 <= i <= |s| && At(s, i, sub);
    var t := a + s + b;
    assert t[|a| + i..|a| + i + |sub|] == s[i..i + |sub|];
    assert At(t, |a| + i, sub);
  }

  lemma ContainsTail(a: string, s: string, sub: string)
    requires Contains(s, sub)
    ensures Contains(a + s, sub)
  {
    ContainsPadded(a, s, "", sub);
    assert a + s + "" == a + s;
  }

  lemma {:induction false} ExpandPlain(wide: char -> bool, p: string, t: string, m: string)
    requires '$' !in p
    ensures Expand(wide, p + t, m) == p + Expand(wide, t, m)
  {
    hide First;
    if p == "" {
      assert p + t == t;
    } else {
      var c := p[0];
      assert c in p;
      assert (p + t)[1..] == p[1..] + t && (p + t)[0] == c;
      ExpandPlain(wide, p[1..], t, m);
      assert Expand(wide, p + t, m) == [c] + Expand(wide, p[1..] + t, m);
      Regroup([c], p[1..], Expand(wide, t, m));
      assert [c] + p[1..] == p;
    }
  }

  lemma {:induction false} WordLenStops(wide: char -> bool, s: string, post: string)
    requires post != "" && !IsWord(wide, post[0])
    ensures WordLen(wide, s + post) == WordLen(wide, s)
  {
    if s == "" {
      assert s + post == post;
    } else {
      assert (s + post)[1..] == s[1..] + post;
      WordLenStops(wide, s[1..], post);
    }
  }

  lemma ReferenceStops(wide: char -> bool, s: string, post: string)
    requires post != "" && post[0] == '\n'
    ensures Reference(wide, s + post) == Reference(wide, s)
  {
    var all := s + post;
    if s != "" && s[0] == '{' {
      assert all[1..] == s[1..] + post;
      WordLenStops(wide, s[1..], post);
      var w := WordLen(wide, s[1..]);
      assert w + 1 < |s| ==> all[1..w + 1] == s[1..w + 1];
    } else {
      WordLenStops(wide, s, post);
      var w := WordLen(wide, s);
      assert all[..w] == s[..w];
    }
  }

  lemma FirstStops(wide: char -> bool, t: string, post: string)
    requires t != "" && post != "" && post[0] == '\n'
    ensures First(wide, t + post) == First(wide, t)
  {
    hide Reference;
    assert (t + post)[1..] == t[1..] + post;
    ReferenceStops(wide, t[1..], post);
  }

  /** No reference runs over the end of a line. */
  lemma {:induction false} ExpandLine(wide: char -> bool, t: string, post: string, m: string)
    requires post != "" && post[0] == '\n' && '$' !in post
    ensures Expand(wide, t + post, m) == Expand(wide, t, m) + post
    decreases |t|
  {
    hide First;
    if t == "" {
      assert t + post == post + "";
      ExpandPlain(wide, post, "", m);
      assert post + "" == "" + post;
    } else {
      FirstStops(wide, t, post);
      var first := First(wide, t);
      assert (t + post)[first.1..] == t[first.1..] + post;
      ExpandLine(wide, t[first.1..], post, m);
      Regroup(Render(first.0, m), Expand(wide, t[first.1..], m), post);
    }
  }

  lemma Regroup(a: string, b: string, c: string)
    ensures (a + b) + c == a + (b + c)
  {
  }

  /** Expansion keeps what holds no dollar sign and cannot begin in a reference. */
  lemma {:induction false} ExpandKeeps(wide: char -> bool, t: string, m: string, sub: string, i: nat)
    requires sub != "" && sub[0] == '<' && '$' !in sub && At(t, i, sub)
    ensures Contains(Expand(wide, t, m), sub)
    decreases |t|
  {
    hide First;
    if i == 0 {
      assert t == sub + t[|sub|..];
      ExpandPlain(wide, sub, t[|sub|..], m);
      assert At(Expand(wide, t, m), 0, sub);
    } else {
      var first := First(wide, t);
      assert t[i..i + |sub|][0] == t[i];
      var rest := t[first.1..];
      assert rest[i - first.1..i - first.1 + |sub|] == t[i..i + |sub|];
      ExpandKeeps(wide, rest, m, sub, i - first.1);
      ContainsTail(Render(first.0, m), Expand(wide, rest, m), sub);
    }
  }

  lemma {:induction false} ExpandWithoutMatch(wide: char -> bool, t: string, m: string, other: string)
    requires !UsesMatch(wide, t)
    ensures Expand(wide, t, m) == Expand(wide, t, other) && |Expand(wide, t, m)| <= |t|
    decreases |t|
  {
    hide First;
    if t != "" {
      ExpandWithoutMatch(wide, t[First(wide, t).1..], m, other);
    }
  }

  lemma {:induction false} ExpandEmptyShrinks(wide: char -> bool, t: string)
    ensures |Expand(wide, t, "")| <= |t|
    decreases |t|
  {
    hide First;
    if t != "" {
      ExpandEmptyShrinks(wide, t[First(wide, t).1..]);
    }
  }

  lemma {:induction false} ExpandWithMatch(wide: char -> bool, t: string, m: string)
    requires UsesMatch(wide, t)
    ensures Contains(Expand(wide, t, m), m)
    ensures |Expand(wide, t, "")| < |t|
    decreases |t|
  {
    hide First;
    var first := First(wide, t);
    var rest := t[first.1..];
    ExpandEmptyShrinks(wide, rest);
    if first.0 == Match {
      assert At(Expand(wide, t, m), 0, m);
    } else {
      ExpandWithMatch(wide, rest, m);
      ContainsTail(Render(first.0, m), Expand(wide, rest, m), m);
    }
  }

  /** Every dollar sign of the template stands for itself. */
  predicate Inert(wide: char -> bool, t: string) {
    Expand(wide, t, "") == t
  }

  lemma InertExpandsToItself(wide: char -> bool, t: string, m: string)
    requires Inert(wide, t)
    ensures !UsesMatch(wide, t) && Expand(wide, t, m) == t
  {
    hide Expand, UsesMatch;
    if UsesMatch(wide, t) {
      ExpandWithMatch(wide, t, "");
    }
    ExpandWithoutMatch(wide, t, m, "");
  }

  lemma NoDollarIsInert(wide: char -> bool, t: string)
    requires '$' !in t
    ensures Inert(wide, t)
  {
    ExpandPlain(wide, t, "", "");
    assert t + "" == t;
  }
}
