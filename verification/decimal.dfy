/** Machine integers, and decimal numbers as the tools print and read them: no leading zero on
    printing, any run of digits on reading. */
module Decimal {
  import opened Prelude

  const MAX_INT: int := 0x7FFF_FFFF_FFFF_FFFF

  const WORD: int := 0x1_0000_0000_0000_0000

  /** Two's-complement wrap-around of a 64-bit sum. */
  function Wrap(n: int): (w: int)
    ensures -MAX_INT - 1 <= w <= MAX_INT
    ensures -MAX_INT - 1 <= n <= MAX_INT ==> w == n
  {
    (n + MAX_INT + 1) % WORD - MAX_INT - 1
  }

  lemma WrapTwice(n: int, m: int)
    ensures Wrap(Wrap(n) + m) == Wrap(n + m)
  {
    var a := n + MAX_INT + 1;
    assert a == a / WORD * WORD + a % WORD;
  }

  /** Wrapped sums agree exactly when what they differ by wraps to nothing. */
  lemma WrapSplit(n: int, m: int)
    ensures Wrap(n + m) == Wrap(n) <==> Wrap(m) == 0
  {
    hide Wrap;
    WrapTwice(m, n);
    WrapTwice(n + m, -n);
    WrapTwice(n, -n);
  }

  predicate IsDigit(c: char) { '0' <= c <= '9' }

  predicate AllDigits(s: string) { forall i :: 0 <= i < |s| ==> IsDigit(s[i]) }

  function DigitChar(d: nat): (c: char)
    requires d < 10
    ensures IsDigit(c)
  {
    '0' + d as char
  }

  function DigitValue(c: char): (d: nat)
    requires IsDigit(c)
    ensures d < 10
  {
    (c - '0') as nat
  }

  function PrintNat(n: nat): (s: string)
    ensures s != "" && AllDigits(s)
  {
    if n < 10 then [DigitChar(n)] else PrintNat(n / 10) + [DigitChar(n % 10)]
  }

  function PrintInt(n: int): string {
    if n < 0 then "-" + PrintNat(-n) else PrintNat(n)
  }

  function Value(s: string): nat
    requires AllDigits(s)
  {
    if s == "" then 0 else Value(s[..|s| - 1]) * 10 + DigitValue(s[|s| - 1])
  }

  lemma {:induction false} PrintThenRead(n: nat)
    ensures Value(PrintNat(n)) == n
  {
    if n >= 10 {
      PrintThenRead(n / 10);
      var s := PrintNat(n);
      assert s[..|s| - 1] == PrintNat(n / 10);
    } else {
      assert PrintNat(n)[..0] == "";
    }
  }

  /** A machine integer from a run of digits, refused when empty, not all digits, or too large. */
  function Read(s: string): (n: Option<nat>)
    ensures n.Some? ==> n.value <= MAX_INT
  {
    if s == "" || !AllDigits(s) || Value(s) > MAX_INT then None else Some(Value(s))
  }

  /** A counter attribute: digits, and spelled exactly as the number prints. */
  function ReadCanonical(s: string): Option<nat> {
    match Read(s)
    case None => None
    case Some(n) => if PrintNat(n) == s then Some(n) else None
  }

  lemma ReadPrinted(n: nat)
    requires n <= MAX_INT
    ensures Read(PrintNat(n)) == Some(n) && ReadCanonical(PrintNat(n)) == Some(n)
  {
    PrintThenRead(n);
  }

  /** The digits `s` starts with. */
  function Leading(s: string): (k: nat)
    ensures k <= |s|
    ensures AllDigits(s[..k])
    ensures k < |s| ==> !IsDigit(s[k])
  {
    if s == "" || !IsDigit(s[0]) then 0 else
    var k := 1 + Leading(s[1..]);
    assert s[..k] == [s[0]] + s[1..][..k - 1];
    k
  }

  lemma {:induction false} LeadingOf(digits: string, rest: string)
    requires AllDigits(digits) && (rest == "" || !IsDigit(rest[0]))
    ensures Leading(digits + rest) == |digits|
  {
    if digits == "" {
      assert digits + rest == rest;
    } else {
      LeadingOf(digits[1..], rest);
      assert (digits + rest)[1..] == digits[1..] + rest;
    }
  }

  /** A number and the text after the separator that follows it. */
  function ReadField(s: string, separator: char): (r: Option<(nat, string)>)
    ensures r.Some? ==> r.value.0 <= MAX_INT
  {
    var k := Leading(s);
    match Read(s[..k])
    case None => None
    case Some(n) => if k < |s| && s[k] == separator then Some((n, s[k + 1..])) else None
  }

  lemma ReadPrintedField(n: nat, separator: char, rest: string)
    requires n <= MAX_INT && !IsDigit(separator)
    ensures ReadField(PrintNat(n) + [separator] + rest, separator) == Some((n, rest))
  {
    var digits := PrintNat(n);
    var s := digits + ([separator] + rest);
    assert s == digits + [separator] + rest;
    LeadingOf(digits, [separator] + rest);
    assert s[..|digits|] == digits && s[|digits| + 1..] == rest;
    ReadPrinted(n);
  }
}
