/** Texts that are printed from the back and parsed from the front, and decimal numbers. */
module Text {
  import opened Wrappers

  datatype Text = End | T(head: char, tail: Text)

  function Length(t: Text): nat {
    match t
    case End => 0
    case T(_, tail) => 1 + Length(tail)
  }

  /** The string `s` in front of `rest`. */
  function Put(s: string, rest: Text): Text {
    if s == "" then rest else T(s[0], Put(s[1..], rest))
  }

  lemma {:induction false} PutConcat(a: string, b: string, rest: Text)
    ensures Put(a + b, rest) == Put(a, Put(b, rest))
  {
    if a == "" {
      assert a + b == b;
    } else {
      assert (a + b)[1..] == a[1..] + b;
      PutConcat(a[1..], b, rest);
    }
  }

  /** The longest prefix of characters that satisfy `p`, and what follows it. */
  function Span(p: char -> bool, t: Text): (r: (string, Text))
    ensures Length(r.1) <= Length(t)
    ensures forall c :: c in r.0 ==> p(c)
  {
    if t.End? || !p(t.head) then ("", t)
    else
      var (s, rest) := Span(p, t.tail);
      ([t.head] + s, rest)
  }

  lemma {:induction false} SpanOfPut(p: char -> bool, s: string, rest: Text)
    requires forall c :: c in s ==> p(c)
    requires rest.T? ==> !p(rest.head)
    ensures Span(p, Put(s, rest)) == (s, rest)
  {
    if s != "" {
      SpanOfPut(p, s[1..], rest);
      assert [s[0]] + s[1..] == s;
    }
  }

  // --- decimal numbers, as Python's str() prints integers ---

  predicate IsDigit(c: char) {
    '0' <= c <= '9'
  }

  predicate AllDigits(s: string) {
    forall c :: c in s ==> IsDigit(c)
  }

  function Digit(d: nat): char
    requires d < 10
  {
    '0' + d as char
  }

  function NatText(n: nat): (s: string)
    ensures s != "" && AllDigits(s)
  {
    if n < 10 then [Digit(n)] else NatText(n / 10) + [Digit(n % 10)]
  }

  function IntText(n: int): (s: string)
    ensures s != "" && (IsDigit(s[0]) || s[0] == '-') && forall c :: c in s ==> IsDigit(c) || c == '-'
  {
    if n < 0 then "-" + NatText(-n) else NatText(n)
  }

  function NatValue(s: string): nat
    requires AllDigits(s)
  {
    if s == "" then 0
    else
      assert s[|s| - 1] in s;
      10 * NatValue(s[..|s| - 1]) + (s[|s| - 1] as int - '0' as int)
  }

  function IntValue(s: string): Option<int> {
    if s == "" then None
    else if s[0] == '-' then
      if s[1..] != "" && AllDigits(s[1..]) then Some(0 - (NatValue(s[1..]) as int)) else None
    else if AllDigits(s) then Some(NatValue(s))
    else None
  }

  /** The text of a number is that of its tens followed by its last digit. */
  lemma Decimal(n: nat, d: nat)
    requires d < 10
    ensures NatText(10 * n + d) == (if n == 0 then "" else NatText(n)) + ["0123456789"[d]]
    ensures IntText(-1 - n) == "-" + NatText(n + 1) && IntText(n) == NatText(n)
  {
    assert Digit(d) == "0123456789"[d];
    assert (10 * n + d) / 10 == n && (10 * n + d) % 10 == d;
    if n == 0 { assert "" + ["0123456789"[d]] == ["0123456789"[d]]; }
  }

  lemma {:induction false} NatRoundTrip(n: nat)
    ensures NatValue(NatText(n)) == n
  {
    var s := NatText(n);
    if n < 10 {
      assert s[..|s| - 1] == "";
    } else {
      NatRoundTrip(n / 10);
      assert s[..|s| - 1] == NatText(n / 10);
    }
  }

  lemma IntRoundTrip(n: int)
    ensures IntValue(IntText(n)) == Some(n)
  {
    if n < 0 {
      NatRoundTrip(-n);
      assert IntText(n)[1..] == NatText(-n);
    } else {
      NatRoundTrip(n);
      assert NatText(n)[0] in NatText(n);
    }
  }
}
