/** Operations on strings that the programs take from Python. */
module Strings {
  import opened Prelude

  /** `s.replace(c, into)` for a single character. */
  function ReplaceChar(s: string, c: char, into: string): string {
    if s == "" then "" else (if s[0] == c then into else [s[0]]) + ReplaceChar(s[1..], c, into)
  }

  lemma Reassociate(a: string, b: string, c: string)
    ensures a + b + c == a + (b + c)
  {
  }

  lemma {:induction false} ReplaceCharConcat(a: string, b: string, c: char, into: string)
    ensures ReplaceChar(a + b, c, into) == ReplaceChar(a, c, into) + ReplaceChar(b, c, into)
  {
    if a == "" {
      assert a + b == b;
    } else {
      ReplaceCharConcat(a[1..], b, c, into);
      assert (a + b)[1..] == a[1..] + b;
      Reassociate(if a[0] == c then into else [a[0]], ReplaceChar(a[1..], c, into), ReplaceChar(b, c, into));
    }
  }

  /** White space, as `\s` in a pattern and `strip` understand it. */
  predicate IsSpace(c: char) {
    || '\t' <= c <= '\r'
    || '\U{1C}' <= c <= ' '
    || c in {'\U{85}', '\U{A0}', '\U{1680}', '\U{2028}', '\U{2029}', '\U{202F}', '\U{205F}', '\U{3000}'}
    || '\U{2000}' <= c <= '\U{200A}'
  }

  /** The white space characters, one by one. */
  lemma IsSpaceExactly(c: char)
    ensures IsSpace(c) <==> c in SPACES
  {
  }

  const SPACES: set<char> := {
    '\t', '\n', '\U{0B}', '\U{0C}', '\r', '\U{1C}', '\U{1D}', '\U{1E}', '\U{1F}', ' ',
    '\U{85}', '\U{A0}', '\U{1680}', '\U{2000}', '\U{2001}', '\U{2002}', '\U{2003}', '\U{2004}',
    '\U{2005}', '\U{2006}', '\U{2007}', '\U{2008}', '\U{2009}', '\U{200A}', '\U{2028}', '\U{2029}',
    '\U{202F}', '\U{205F}', '\U{3000}'}

  /** The decimal digits of a number. */
  function Digits(n: nat): string {
    (if n < 10 then "" else Digits(n / 10)) + ["0123456789"[n % 10]]
  }

  /** The number that decimal digits stand for, if they are digits. */
  function Number(s: string): Option<nat> {
    if s == "" then Some(0)
    else
      var n := |s| - 1;
      match Number(s[..n])
      case Some(tens) => if '0' <= s[n] <= '9' then Some(10 * tens + (s[n] - '0') as nat) else None
      case None => None
  }

  /** Digits are read back as the number, and do not begin with a zero. */
  lemma {:induction false} DigitsRead(n: nat)
    ensures Digits(n) != "" && Number(Digits(n)) == Some(n)
    ensures n > 0 ==> Digits(n)[0] != '0'
  {
    var s := Digits(n);
    var last := "0123456789"[n % 10];
    DigitIs(n % 10);
    if n < 10 {
      assert s == [last] && s[..0] == "";
    } else {
      DigitsRead(n / 10);
      assert s[..|s| - 1] == Digits(n / 10) && s[|s| - 1] == last;
    }
  }

  lemma DigitIs(d: nat)
    requires d < 10
    ensures "0123456789"[d] == '0' + d as char
  {
  }
}
