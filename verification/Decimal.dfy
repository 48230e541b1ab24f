/** Decimal numerals and ';'-separated parameter lists, the alphabet of the
    control sequences that the serializer writes and the terminal reads. */
module Decimal {

  function Digit(d: nat): (c: char)
    requires d < 10
    ensures '0' <= c <= '9'
    ensures c as int - '0' as int == d
  {
    ('0' as int + d) as char
  }

  /** The decimal numeral of n, without leading zeros. */
  function Dec(n: nat): (s: string)
    ensures |s| >= 1
    ensures forall i :: 0 <= i < |s| ==> '0' <= s[i] <= '9'
  {
    if n < 10 then [Digit(n)] else Dec(n / 10) + [Digit(n % 10)]
  }

  /** Joins numerals with ';'. */
  function Csv(ns: seq<nat>): string {
    if ns == [] then ""
    else if |ns| == 1 then Dec(ns[0])
    else Csv(ns[..|ns| - 1]) + ";" + Dec(ns[|ns| - 1])
  }

  predicate ParamChar(c: char) {
    '0' <= c <= '9' || c == ';'
  }

  predicate ParamString(s: string) {
    forall i :: 0 <= i < |s| ==> ParamChar(s[i])
  }

  /** How a terminal reads a parameter string: an absent number is 0. */
  function Nums(s: string): (ns: seq<nat>)
    requires ParamString(s)
    ensures |ns| >= 1
  {
    if s == "" then [0]
    else
      var front, c := Nums(s[..|s| - 1]), s[|s| - 1];
      if c == ';' then front + [0]
      else
        assert ParamChar(c);
        var last: nat := 10 * front[|front| - 1] + (c as int - '0' as int);
        front[..|front| - 1] + [last]
  }

  lemma CsvAlphabet(ns: seq<nat>)
    ensures ParamString(Csv(ns))
    ensures ns != [] ==> Csv(ns) != ""
  {
    if |ns| > 1 {
      CsvAlphabet(ns[..|ns| - 1]);
    }
  }

  lemma NumsOfDigit(s: string, d: nat)
    requires ParamString(s) && d < 10
    ensures ParamString(s + [Digit(d)])
    ensures var ns := Nums(s);
            Nums(s + [Digit(d)]) == ns[..|ns| - 1] + [10 * ns[|ns| - 1] + d]
  {
    var t := s + [Digit(d)];
    assert t[..|t| - 1] == s && t[|t| - 1] == Digit(d);
  }

  lemma DecOne(n: nat)
    requires n < 10
    ensures Dec(n) == [Digit(n)]
  {
  }

  lemma DecSnoc(n: nat)
    requires n >= 10
    ensures Dec(n) == Dec(n / 10) + [Digit(n % 10)]
  {
  }

  lemma {:induction false} NumsOfDec(front: string, n: nat)
    requires ParamString(front)
    requires Nums(front)[|Nums(front)| - 1] == 0
    ensures ParamString(front + Dec(n))
    ensures Nums(front + Dec(n)) == Nums(front)[..|Nums(front)| - 1] + [n]
  {
    hide *;
    if n < 10 {
      assert Dec(n) == [Digit(n)] by { DecOne(n); }
      NumsOfDigit(front, n);
    } else {
      var shorter := front + Dec(n / 10);
      NumsOfDec(front, n / 10);
      NumsOfDigit(shorter, n % 10);
      DecSnoc(n);
      assert front + Dec(n) == shorter + [Digit(n % 10)];
      assert 10 * (n / 10) + n % 10 == n;
    }
  }

  lemma NumsOfNothing()
    ensures ParamString("") && Nums("") == [0]
  {
  }

  lemma NumsOfOne(n: nat)
    ensures ParamString(Dec(n)) && Nums(Dec(n)) == [n]
  {
    NumsOfNothing();
    hide *;
    assert "" + Dec(n) == Dec(n);
    NumsOfDec("", n);
    assert [0][..0] + [n] == [n];
  }

  lemma NumsOfSeparated(s: string, n: nat)
    requires ParamString(s)
    ensures ParamString(s + ";" + Dec(n))
    ensures Nums(s + ";" + Dec(n)) == Nums(s) + [n]
  {
    var front := s + ";";
    assert front[..|front| - 1] == s;
    NumsOfDec(front, n);
    assert front + Dec(n) == s + ";" + Dec(n);
  }

  lemma CsvOfOne(n: nat)
    ensures Csv([n]) == Dec(n)
  {
  }

  lemma CsvSnoc(front: seq<nat>, last: nat)
    requires front != []
    ensures Csv(front + [last]) == Csv(front) + ";" + Dec(last)
  {
    var ns := front + [last];
    assert ns[..|ns| - 1] == front;
  }

  /** Reading back a parameter list returns the numbers that were written. */
  lemma {:induction false} NumsOfCsv(ns: seq<nat>)
    requires ns != []
    ensures ParamString(Csv(ns))
    ensures Nums(Csv(ns)) == ns
  {
    CsvAlphabet(ns);
    var front, last := ns[..|ns| - 1], ns[|ns| - 1];
    assert ns == front + [last];
    if front == [] {
      CsvOfOne(last);
      assert ns == [last];
      NumsOfOne(last);
    } else {
      NumsOfCsv(front);
      CsvSnoc(front, last);
      NumsOfSeparated(Csv(front), last);
    }
  }

  lemma {:induction false} CsvConcat(a: seq<nat>, b: seq<nat>)
    requires a != [] && b != []
    ensures Csv(a + b) == Csv(a) + ";" + Csv(b)
  {
    hide Csv;
    var front, last := b[..|b| - 1], b[|b| - 1];
    if front == [] {
      assert b == [last];
      CsvOfOne(last);
      CsvSnoc(a, last);
    } else {
      assert a + b == a + front + [last] && b == front + [last];
      CsvConcat(a, front);
      CsvSnoc(a + front, last);
      CsvSnoc(front, last);
      Associates(Csv(a) + ";", Csv(front), ";", Dec(last));
    }
  }

  lemma Associates(a: string, b: string, c: string, d: string)
    ensures a + b + c + d == a + (b + c + d)
  {
  }
}
