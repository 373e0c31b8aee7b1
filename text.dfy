/** The string primitives the page relies on: `String.prototype.trim`,
    the decimal rendering of an integer inside a template literal, and
    `padStart(2, '0')`. */
module Text {

  // ---------------------------------------------------------------------
  // trim()
  // ---------------------------------------------------------------------

  /** The characters `trim()` strips: ECMAScript's WhiteSpace (tab, vertical
      tab, form feed, space, no-break space, byte order mark and every
      space separator of category Zs) and LineTerminator (line feed,
      carriage return, line and paragraph separators). */
  const BlankChars: set<char> := {
    '\t', '\n', '\U{000B}', '\U{000C}', '\r', ' ', '\U{00A0}', '\U{1680}',
    '\U{2028}', '\U{2029}', '\U{202F}', '\U{205F}', '\U{3000}', '\U{FEFF}'
  }

  predicate IsBlank(c: char) {
    c in BlankChars || '\U{2000}' <= c <= '\U{200A}'
  }

  predicate AllBlank(s: string) {
    forall k :: 0 <= k < |s| ==> IsBlank(s[k])
  }

  /** How many blank characters open `s`: all of them are blank, and the
      next one, if any, is not. */
  function LeadingBlanks(s: string): (n: nat)
    ensures n <= |s|
    ensures forall k :: 0 <= k < n ==> IsBlank(s[k])
    ensures n < |s| ==> !IsBlank(s[n])
  {
    if s != [] && IsBlank(s[0]) then 1 + LeadingBlanks(s[1..]) else 0
  }

  /** Where the trailing blank characters of `s` begin: all from there on
      are blank, and the one before, if any, is not. */
  function TrailingStart(s: string): (m: nat)
    ensures m <= |s|
    ensures forall k :: m <= k < |s| ==> IsBlank(s[k])
    ensures m > 0 ==> !IsBlank(s[m - 1])
  {
    if s != [] && IsBlank(s[|s| - 1]) then TrailingStart(s[..|s| - 1]) else |s|
  }

  /** `s.trim()`: the slice of `s` between its leading and its trailing
      blanks. It is empty exactly when `s` is all blank; otherwise it starts
      and ends with a non-blank character. */
  function Trim(s: string): (r: string)
    ensures LeadingBlanks(s) + |r| <= |s|
    ensures r == s[LeadingBlanks(s)..LeadingBlanks(s) + |r|]
    ensures r != [] ==> LeadingBlanks(s) + |r| == TrailingStart(s)
    ensures r != [] ==> !IsBlank(r[0]) && !IsBlank(r[|r| - 1])
    ensures r == [] <==> AllBlank(s)
  {
    var i, j := LeadingBlanks(s), TrailingStart(s);
    if j <= i then
      assert AllBlank(s);
      []
    else
      assert !IsBlank(s[i]);
      s[i..j]
  }

  /** Trimming twice is trimming once. */
  lemma TrimIdempotent(s: string)
    ensures Trim(Trim(s)) == Trim(s)
  {
    var t := Trim(s);
    if t != [] {
      TrimOfSolid(t);
    }
  }

  /** A string that neither starts nor ends blank is left as it is. */
  lemma TrimOfSolid(t: string)
    requires t != [] && !IsBlank(t[0]) && !IsBlank(t[|t| - 1])
    ensures Trim(t) == t
  {
  }

  // ---------------------------------------------------------------------
  // Decimal rendering of integers
  // ---------------------------------------------------------------------

  predicate IsDigit(c: char) {
    '0' <= c <= '9'
  }

  predicate IsDigits(s: string) {
    forall k :: 0 <= k < |s| ==> IsDigit(s[k])
  }

  function DigitChar(d: nat): (c: char)
    requires d < 10
    ensures IsDigit(c) && (c as int) - ('0' as int) == d
  {
    (('0' as int) + d) as char
  }

  /** The decimal digits of `n` as JavaScript writes a non-negative integer:
      at least one digit, and no leading zero unless `n` is 0. */
  function Decimal(n: nat): (r: string)
    ensures |r| >= 1 && IsDigits(r)
    ensures r[0] == '0' <==> n == 0
    ensures n < 10 <==> |r| == 1
    decreases n
  {
    if n < 10 then [DigitChar(n)] else Decimal(n / 10) + [DigitChar(n % 10)]
  }

  /** The value of a string of decimal digits, leading zeros allowed (the
      reading `parseInt` gives such a string). */
  function DigitsValue(s: string): nat
    requires IsDigits(s)
  {
    if s == [] then 0
    else 10 * DigitsValue(s[..|s| - 1]) + ((s[|s| - 1] as int) - ('0' as int))
  }

  /** Reading back the digits of `n` gives `n`. */
  lemma {:induction false} DecimalRoundTrip(n: nat)
    ensures DigitsValue(Decimal(n)) == n
    decreases n
  {
    if n >= 10 {
      var r := Decimal(n);
      assert r[..|r| - 1] == Decimal(n / 10);
      DecimalRoundTrip(n / 10);
    }
  }

  /** A leading zero does not change the value of a digit string. */
  lemma {:induction false} LeadingZero(s: string)
    requires IsDigits(s)
    ensures IsDigits(['0'] + s) && DigitsValue(['0'] + s) == DigitsValue(s)
    decreases |s|
  {
    if s != [] {
      var z := ['0'] + s;
      assert z[..|z| - 1] == ['0'] + s[..|s| - 1];
      LeadingZero(s[..|s| - 1]);
    }
  }

  /** `n.toString()` for an integer `n`: a minus sign before the digits of
      its magnitude when it is negative. */
  function IntToString(n: int): (r: string)
    ensures |r| >= 1
    ensures n >= 0 ==> IsDigits(r) && DigitsValue(r) == n
    ensures n < 0 ==> r[0] == '-' && IsDigits(r[1..]) && DigitsValue(r[1..]) == -n
  {
    if n < 0 then
      DecimalRoundTrip(-n);
      var r := "-" + Decimal(-n);
      assert r[1..] == Decimal(-n);
      r
    else
      DecimalRoundTrip(n);
      Decimal(n)
  }

  /** `s.padStart(2, '0')`: zeros in front until the length is at least 2. */
  function PadStart2(s: string): (r: string)
    ensures |r| == if |s| >= 2 then |s| else 2
    ensures r[|r| - |s|..] == s
    ensures forall k :: 0 <= k < |r| - |s| ==> r[k] == '0'
  {
    if |s| >= 2 then s else if |s| == 1 then ['0'] + s else "00"
  }

  /** A number below 100 padded to two places is exactly two digits, and
      reading them back gives the number. */
  lemma TwoDigits(n: nat)
    requires n < 100
    ensures |PadStart2(Decimal(n))| == 2 && IsDigits(PadStart2(Decimal(n)))
    ensures DigitsValue(PadStart2(Decimal(n))) == n
  {
    DecimalRoundTrip(n);
    if n < 10 {
      LeadingZero(Decimal(n));
      assert PadStart2(Decimal(n)) == ['0'] + Decimal(n);
    } else {
      assert |Decimal(n / 10)| == 1;
    }
  }
}
