// The text of numbers, as Rust prints them, and the fact that a
// printed number can be read back from the front of a longer text.
module Text {

  predicate IsDigit(c: char) {
    '0' <= c <= '9'
  }

  predicate AllDigits(s: string) {
    forall i | 0 <= i < |s| :: IsDigit(s[i])
  }

  function DigitChar(d: nat): (c: char)
    requires d < 10
    ensures IsDigit(c) && c as int - '0' as int == d
  {
    ('0' as int + d) as char
  }

  function NatText(n: nat): (s: string)
    ensures |s| > 0 && AllDigits(s)
  {
    if n < 10 then [DigitChar(n)] else NatText(n / 10) + [DigitChar(n % 10)]
  }

  function IntText(i: int): (r: string)
    ensures r != "" && (r[0] == '-' <==> i < 0)
  {
    if i < 0 then "-" + NatText(-i) else NatText(i)
  }

  // The number a run of digits denotes.
  function Value(s: string): (r: nat)
    requires AllDigits(s)
  {
    if s == "" then 0 else 10 * Value(s[..|s| - 1]) + (s[|s| - 1] as int - '0' as int)
  }

  lemma {:induction false} ValueOfNatText(n: nat)
    ensures Value(NatText(n)) == n
  {
    if n >= 10 {
      ValueOfNatText(n / 10);
      assert NatText(n)[..|NatText(n)| - 1] == NatText(n / 10);
    } else {
      assert NatText(n)[..0] == "";
    }
  }

  // Without leading zeros, the sign in front.
  lemma {:induction false} NoLeadingZero(n: nat)
    ensures NatText(n)[0] == '0' <==> n == 0
    ensures |NatText(n)| == 1 <==> n < 10
  {
    if n >= 10 {
      NoLeadingZero(n / 10);
    }
  }

  // What may follow a number without extending it.
  predicate EndsNumber(rest: string) {
    rest == "" || !IsDigit(rest[0])
  }

  lemma {:induction false} DigitRunIsMaximal(a: string, b: string, x: string, y: string)
    requires AllDigits(a) && AllDigits(b) && EndsNumber(x) && EndsNumber(y)
    requires a + x == b + y
    ensures a == b && x == y
  {
    var t := a + x;
    assert forall i | 0 <= i < |b| :: t[i] == b[i];
    assert forall i | 0 <= i < |a| :: t[i] == a[i];
    assert x != "" ==> t[|a|] == x[0];
    assert y != "" ==> t[|b|] == y[0];
    assert |a| == |b|;
    assert a == (a + x)[..|a|] && b == (b + y)[..|b|];
    assert x == (a + x)[|a|..] && y == (b + y)[|b|..];
  }

  // A number in front of anything that cannot extend it is read back unambiguously.
  lemma NatTextReadsBack(n: nat, m: nat, x: string, y: string)
    requires EndsNumber(x) && EndsNumber(y)
    requires NatText(n) + x == NatText(m) + y
    ensures n == m && x == y
  {
    DigitRunIsMaximal(NatText(n), NatText(m), x, y);
    ValueOfNatText(n);
    ValueOfNatText(m);
  }

  lemma SignReadsBack(neg: bool, neg': bool, a: string, b: string, x: string, y: string)
    requires AllDigits(a) && AllDigits(b) && a != "" && b != ""
    requires (if neg then "-" + a else a) + x == (if neg' then "-" + b else b) + y
    ensures neg == neg' && a + x == b + y
  {
    var s := if neg then "-" + a else a;
    var t := if neg' then "-" + b else b;
    assert (s + x)[0] == s[0] && (t + y)[0] == t[0];
    if neg {
      assert (s + x)[1..] == a + x && (t + y)[1..] == b + y;
    }
  }

  lemma IntTextReadsBack(i: int, j: int, x: string, y: string)
    requires EndsNumber(x) && EndsNumber(y)
    requires IntText(i) + x == IntText(j) + y
    ensures i == j && x == y
  {
    var n: nat, m: nat := if i < 0 then -i else i, if j < 0 then -j else j;
    SignReadsBack(i < 0, j < 0, NatText(n), NatText(m), x, y);
    NatTextReadsBack(n, m, x, y);
  }

  function HexDigit(d: nat): (c: char)
    requires d < 16
    ensures c != '|'
  {
    if d < 10 then ('0' as int + d) as char else ('a' as int + d - 10) as char
  }

  lemma Cancel(p: string, x: string, y: string)
    requires p + x == p + y
    ensures x == y
  {
    assert x == (p + x)[|p|..] && y == (p + y)[|p|..];
  }

  lemma CancelEqualLengths(p: string, q: string, x: string, y: string)
    requires |p| == |q| && p + x == q + y
    ensures p == q && x == y
  {
    assert p == (p + x)[..|p|] && q == (q + y)[..|q|];
    assert x == (p + x)[|p|..] && y == (q + y)[|q|..];
  }
}
