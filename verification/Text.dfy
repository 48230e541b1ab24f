/** Searching and trimming text, as the Go standard library does it. */
module Text {
  import opened Wrappers

  predicate At(s: string, i: nat, sub: string) {
    i + |sub| <= |s| && s[i..i + |sub|] == sub
  }

  /** The first position at or after from where sub occurs. */
  function IndexFrom(s: string, sub: string, from: nat): (r: Option<nat>)
    requires from <= |s|
    ensures r.Some? ==> from <= r.value && At(s, r.value, sub) && forall j :: from <= j < r.value ==> !At(s, j, sub)
    ensures r.None? ==> forall j :: from <= j ==> !At(s, j, sub)
    decreases |s| - from
  {
    if At(s, from, sub) then Some(from)
    else if from == |s| then None
    else IndexFrom(s, sub, from + 1)
  }

  function Index(s: string, sub: string): (r: Option<nat>)
    ensures r.Some? ==> At(s, r.value, sub) && forall j :: 0 <= j < r.value ==> !At(s, j, sub)
    ensures r.None? ==> forall j :: 0 <= j ==> !At(s, j, sub)
  {
    IndexFrom(s, sub, 0)
  }

  predicate HasPrefix(s: string, prefix: string) {
    At(s, 0, prefix)
  }

  predicate Contains(s: string, sub: string) {
    exists i :: 0 <= i <= |s| && At(s, i, sub)
  }

  predicate HasSuffix(s: string, suffix: string) {
    |suffix| <= |s| && s[|s| - |suffix|..] == suffix
  }

  lemma SubSlice(s: string, b: nat, c: nat, x: nat, y: nat)
    requires b <= c <= |s| && x <= y <= c - b
    ensures s[b..c][x..y] == s[b + x..b + y]
  {
    var l, r := s[b..c][x..y], s[b + x..b + y];
    forall k | 0 <= k < y - x ensures l[k] == r[k] {
      assert l[k] == s[b..c][x + k];
      assert s[b..c][x + k] == s[b + (x + k)];
    }
  }

  // ---- Trimming ----

  predicate All(s: string, p: char -> bool) {
    forall i :: 0 <= i < |s| ==> p(s[i])
  }

  function TrimLeft(s: string, p: char -> bool): string {
    if s != "" && p(s[0]) then TrimLeft(s[1..], p) else s
  }

  function TrimRight(s: string, p: char -> bool): string {
    if s != "" && p(s[|s| - 1]) then TrimRight(s[..|s| - 1], p) else s
  }

  function Trim(s: string, p: char -> bool): string {
    TrimRight(TrimLeft(s, p), p)
  }

  /** Nothing left to trim. */
  predicate Trimmed(s: string, p: char -> bool) {
    s != "" ==> !p(s[0]) && !p(s[|s| - 1])
  }

  lemma {:induction false} TrimLeftOf(a: string, m: string, p: char -> bool)
    requires All(a, p) && (m != "" ==> !p(m[0]))
    ensures TrimLeft(a + m, p) == m
  {
    if a == "" {
      assert a + m == m;
    } else {
      assert (a + m)[1..] == a[1..] + m;
      TrimLeftOf(a[1..], m, p);
    }
  }

  lemma {:induction false} TrimRightOf(m: string, b: string, p: char -> bool)
    requires All(b, p) && (m != "" ==> !p(m[|m| - 1]))
    ensures TrimRight(m + b, p) == m
  {
    if b == "" {
      assert m + b == m;
    } else {
      var s := m + b;
      assert s[..|s| - 1] == m + b[..|b| - 1];
      TrimRightOf(m, b[..|b| - 1], p);
    }
  }

  lemma {:induction false} TrimLeftSplits(s: string, p: char -> bool) returns (a: string)
    ensures All(a, p) && s == a + TrimLeft(s, p)
    ensures TrimLeft(s, p) != "" ==> !p(TrimLeft(s, p)[0])
  {
    a := "";
    if s != "" && p(s[0]) {
      var rest := TrimLeftSplits(s[1..], p);
      a := [s[0]] + rest;
      assert s == [s[0]] + s[1..];
    }
  }

  lemma {:induction false} TrimRightSplits(s: string, p: char -> bool) returns (b: string)
    ensures All(b, p) && s == TrimRight(s, p) + b
    ensures TrimRight(s, p) != "" ==> !p(TrimRight(s, p)[|TrimRight(s, p)| - 1])
  {
    b := "";
    if s != "" && p(s[|s| - 1]) {
      var rest := TrimRightSplits(s[..|s| - 1], p);
      b := rest + [s[|s| - 1]];
      assert s == s[..|s| - 1] + [s[|s| - 1]];
    }
  }

  /** What is trimmed off is padding, and what is left begins and ends without. */
  lemma TrimSplits(s: string, p: char -> bool) returns (a: string, b: string)
    ensures All(a, p) && All(b, p) && Trimmed(Trim(s, p), p)
    ensures s == a + Trim(s, p) + b
  {
    hide TrimLeft, TrimRight;
    a := TrimLeftSplits(s, p);
    var rest := TrimLeft(s, p);
    b := TrimRightSplits(rest, p);
    var m := Trim(s, p);
    assert rest == m + b;
    assert s == a + m + b;
    if m != "" {
      assert rest[0] == m[0];
    }
  }

  /** Padding around a trimmed text is exactly what Trim removes. */
  lemma TrimOfPadded(a: string, m: string, b: string, p: char -> bool)
    requires All(a, p) && All(b, p) && Trimmed(m, p)
    ensures Trim(a + m + b, p) == m
  {
    hide TrimLeft, TrimRight;
    if m == "" {
      assert a + m + b == (a + b) + "";
      TrimLeftOf(a + b, "", p);
      TrimRightOf("", "", p);
      assert m + "" == m;
    } else {
      assert a + m + b == a + (m + b);
      TrimLeftOf(a, m + b, p);
      TrimRightOf(m, b, p);
    }
  }

  lemma TrimIdempotent(s: string, p: char -> bool)
    ensures Trim(Trim(s, p), p) == Trim(s, p)
  {
    var a, b := TrimSplits(s, p);
    var m := Trim(s, p);
    TrimOfPadded("", m, "", p);
    assert "" + m + "" == m;
  }

  /** Trimming the right first and padding again changes nothing for Trim. */
  lemma TrimSurvivesRewriting(s: string, p: char -> bool, left: string, right: string)
    requires All(left, p) && All(right, p)
    ensures Trim(left + TrimRight(s, p) + right, p) == Trim(s, p)
  {
    hide TrimLeft, TrimRight;
    var b := TrimRightSplits(s, p);
    var t := TrimRight(s, p);
    var a := TrimLeftSplits(t, p);
    var m := TrimLeft(t, p);
    if m != "" {
      assert t[|t| - 1] == m[|m| - 1];
    }
    assert s == a + m + b;
    TrimOfPadded(a, m, b, p);
    TrimOfPadded(left + a, m, right, p);
    assert left + t + right == (left + a) + m + right;
  }

  /** strings.TrimSpace: Unicode's White_Space property. */
  predicate IsSpace(c: char) {
    || '\U{0009}' <= c <= '\U{000d}' || c == ' ' || c == '\U{0085}' || c == '\U{00a0}' || c == '\U{1680}'
    || '\U{2000}' <= c <= '\U{200a}' || c == '\U{2028}' ||
      c == '\U{2029}' || c == '\U{202f}' || c == '\U{205f}' || c == '\U{3000}'
  }

  function TrimSpace(s: string): string {
    Trim(s, IsSpace)
  }
}
