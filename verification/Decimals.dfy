/** `atoi` and `sprintf("%d")` on 32-bit integers. */
module Decimals {

  predicate IsInt(n: int) {
    -0x8000_0000 <= n < 0x8000_0000
  }

  /** The 32-bit value with the same low bits. */
  function ToInt(n: int): (r: int)
    ensures IsInt(r) && (IsInt(n) ==> r == n)
  {
    (n + 0x8000_0000) % 0x1_0000_0000 - 0x8000_0000
  }

  /** `strtol` stops at the bounds of a 64-bit `long`. */
  function Clamp(n: int): int {
    if n > 0x7FFF_FFFF_FFFF_FFFF then 0x7FFF_FFFF_FFFF_FFFF
    else if n < -0x8000_0000_0000_0000 then -0x8000_0000_0000_0000
    else n
  }

  // ---- Reading --------------------------------------------------------------------------------

  predicate IsDigit(c: char) {
    '0' <= c <= '9'
  }

  predicate IsSpace(c: char) {
    c == ' ' || '\t' <= c <= '\r'
  }

  predicate IsSign(c: char) {
    c == '-' || c == '+'
  }

  function SkipSpace(s: string): string {
    if s != [] && IsSpace(s[0]) then SkipSpace(s[1..]) else s
  }

  /** The digits at the head of s, read behind the value of the digits before. */
  function ReadDigits(s: string, value: nat): nat {
    if s == [] || !IsDigit(s[0]) then value else ReadDigits(s[1..], 10 * value + (s[0] - '0') as int)
  }

  function ReadSigned(s: string): int {
    if s == [] then 0
    else if s[0] == '-' then 0 - ReadDigits(s[1..], 0)
    else if s[0] == '+' then ReadDigits(s[1..], 0)
    else ReadDigits(s, 0)
  }

  /** The number at the head of a text, before it is cut to an `int`. */
  function ReadNumber(s: string): int {
    ReadSigned(SkipSpace(s))
  }

  function Atoi(s: string): (n: int)
    ensures IsInt(n)
  {
    ToInt(Clamp(ReadNumber(s)))
  }

  // ---- What is behind a complete number does not matter ----------------------------------------

  /** The digits at the head of s end before s does. */
  predicate DigitsEnd(s: string) {
    s != [] && (IsDigit(s[0]) ==> DigitsEnd(s[1..]))
  }

  /** A text without leading white space, without its sign. */
  function Unsigned(u: string): string {
    if u != [] && IsSign(u[0]) then u[1..] else u
  }

  /** The text decides its number by itself: something that is no white space, no sign at the head of
      the rest and no digit behind it, comes before the end. */
  predicate Complete(s: string) {
    var t := SkipSpace(s);
    t != [] && DigitsEnd(Unsigned(t))
  }

  lemma {:induction false} SkipSpaceAppend(s: string, t: string)
    ensures SkipSpace(s + t) == if SkipSpace(s) == [] then SkipSpace(t) else SkipSpace(s) + t
  {
    if s == [] {
      assert s + t == t;
    } else if IsSpace(s[0]) {
      assert (s + t)[1..] == s[1..] + t;
      SkipSpaceAppend(s[1..], t);
    } else {
    }
  }

  lemma {:induction false} DigitsAppend(s: string, t: string, value: nat)
    requires DigitsEnd(s)
    ensures ReadDigits(s + t, value) == ReadDigits(s, value)
  {
    if IsDigit(s[0]) {
      assert (s + t)[1..] == s[1..] + t;
      DigitsAppend(s[1..], t, 10 * value + (s[0] - '0') as int);
    } else {
    }
  }

  /** Digits that run to the end go on with the digits behind. */
  lemma {:induction false} DigitsGoOn(s: string, t: string, value: nat)
    requires !DigitsEnd(s)
    ensures ReadDigits(s + t, value) == ReadDigits(t, ReadDigits(s, value))
  {
    if s == [] {
      assert s + t == t;
    } else {
      assert (s + t)[1..] == s[1..] + t;
      DigitsGoOn(s[1..], t, 10 * value + (s[0] - '0') as int);
    }
  }

  lemma {:induction false} ReadDigitsGrows(s: string, value: nat)
    ensures ReadDigits(s, value) >= value
  {
    if s == [] || !IsDigit(s[0]) {
    } else {
      ReadDigitsGrows(s[1..], 10 * value + (s[0] - '0') as int);
    }
  }

  lemma OneMore(t: string, value: nat)
    requires t != [] && t[0] == '1'
    ensures ReadDigits(t, value) > value
  {
    ReadDigitsGrows(t[1..], 10 * value + 1);
  }

  /** Appending anything to a text leaves its number as it is if and only if the text is complete. */
  lemma CompleteIff(s: string)
    ensures (forall t :: ReadNumber(s + t) == ReadNumber(s)) <==> Complete(s)
  {
    var u := SkipSpace(s);
    forall t: string
      ensures Complete(s) ==> ReadNumber(s + t) == ReadNumber(s)
      ensures !Complete(s) && t == "1" ==> ReadNumber(s + t) != ReadNumber(s)
    {
      SkipSpaceAppend(s, t);
      if u != [] {
        var digits := Unsigned(u);
        assert (u + t)[1..] == u[1..] + t;
        if Complete(s) {
          DigitsAppend(digits, t, 0);
        } else if t == "1" {
          DigitsGoOn(digits, t, 0);
          OneMore(t, ReadDigits(digits, 0));
        }
      } else if t == "1" {
        OneMore(t, 0);
      }
    }
    if !Complete(s) {
      assert ReadNumber(s + "1") != ReadNumber(s);
    }
  }

  function DigitOf(d: nat): (c: char)
    requires d < 10
    ensures IsDigit(c) && (c - '0') as int == d
  {
    '0' + d as char
  }

  // ---- What becomes of a text that is not complete --------------------------------------------

  function WithSign(s: string, n: nat): int {
    var u := SkipSpace(s);
    if u != [] && u[0] == '-' then 0 - n else n
  }

  /** The digits read so far. */
  function Magnitude(s: string): nat {
    ReadDigits(Unsigned(SkipSpace(s)), 0)
  }

  lemma NumberParts(s: string)
    ensures ReadNumber(s) == WithSign(s, Magnitude(s))
  {
  }

  lemma UnsignedAppend(u: string, t: string)
    requires u != []
    ensures (u + t)[0] == u[0] && Unsigned(u + t) == Unsigned(u) + t
  {
    assert (u + t)[1..] == u[1..] + t;
  }

  /** The digits behind it go on with its number. */
  lemma Continued(s: string, t: string)
    requires !Complete(s) && (SkipSpace(s) == [] ==> t != [] && IsDigit(t[0]))
    ensures ReadNumber(s + t) == WithSign(s, ReadDigits(t, Magnitude(s)))
  {
    var u := SkipSpace(s);
    SkipSpaceAppend(s, t);
    NumberParts(s + t);
    if u == [] {
      assert SkipSpace(t) == t && Unsigned(t) == t;
    } else {
      UnsignedAppend(u, t);
      DigitsGoOn(Unsigned(u), t, 0);
    }
  }

  /** One more digit. */
  lemma OneDigit(s: string, d: nat, rest: string)
    requires !Complete(s) && d < 10 && (rest == [] || !IsDigit(rest[0]))
    ensures ReadNumber(s + [DigitOf(d)] + rest) == WithSign(s, 10 * Magnitude(s) + d)
  {
    var t := [DigitOf(d)] + rest;
    assert s + [DigitOf(d)] + rest == s + t && t[1..] == rest;
    Continued(s, t);
  }

  /** A line that is not blank, with its line feed, is complete; a blank one is not. */
  lemma {:induction false} LineComplete(line: string)
    ensures Complete(line + "\n") <==> exists k :: 0 <= k < |line| && !IsSpace(line[k])
  {
    if line == [] {
      assert line + "\n" == "\n" && "\n"[1..] == [];
    } else if IsSpace(line[0]) {
      assert (line + "\n")[1..] == line[1..] + "\n";
      LineComplete(line[1..]);
      if k :| 0 <= k < |line| && !IsSpace(line[k]) {
        assert !IsSpace(line[1..][k - 1]);
      }
    } else {
      var s := line + "\n";
      LineFeedEnds(s);
      LineFeedEnds(s[1..]);
    }
  }

  lemma {:induction false} LineFeedEnds(s: string)
    requires s != [] && s[|s| - 1] == '\n'
    ensures DigitsEnd(s)
  {
    if IsDigit(s[0]) {
      LineFeedEnds(s[1..]);
    } else {
    }
  }

  // ---- Writing ------------------------------------------------------------------------------------

  function Digits(n: nat): (s: string)
    ensures s != [] && forall k :: 0 <= k < |s| ==> IsDigit(s[k])
  {
    if n < 10 then [DigitOf(n)] else Digits(n / 10) + [DigitOf(n % 10)]
  }

  function Decimal(n: int): string {
    if n < 0 then "-" + Digits(-n) else Digits(n)
  }

  lemma {:induction false} AllDigits(s: string)
    requires forall k :: 0 <= k < |s| ==> IsDigit(s[k])
    ensures !DigitsEnd(s)
  {
    if s == [] {
    } else {
      AllDigits(s[1..]);
    }
  }

  /** Reading back the digits that were written. */
  lemma {:induction false} DigitsRoundTrip(n: nat)
    ensures ReadDigits(Digits(n), 0) == n
  {
    if n < 10 {
      assert Digits(n)[1..] == [];
    } else {
      var front, last := Digits(n / 10), [DigitOf(n % 10)];
      DigitsRoundTrip(n / 10);
      AllDigits(front);
      DigitsGoOn(front, last, 0);
      assert last[1..] == [];
    }
  }

  lemma ReadsDigits(n: nat, rest: string)
    ensures ReadDigits(Digits(n) + (['\0'] + rest), 0) == n
  {
    DigitsRoundTrip(n);
    AllDigits(Digits(n));
    DigitsGoOn(Digits(n), ['\0'] + rest, 0);
  }

  lemma ReadsDecimal(n: int, rest: string)
    ensures ReadNumber(Decimal(n) + ['\0'] + rest) == n
  {
    var digits := Digits(if n < 0 then -n else n);
    var s := Decimal(n) + ['\0'] + rest;
    ReadsDigits(if n < 0 then -n else n, rest);
    assert IsDigit(digits[0]);
    if n < 0 {
      assert s[0] == '-' && s[1..] == digits + (['\0'] + rest);
    } else {
      assert s == digits + (['\0'] + rest);
    }
  }

  /** Round trip: what `%d` prints, with its terminator and whatever is behind it, is read back. */
  lemma DecimalRoundTrip(n: int, rest: string)
    requires IsInt(n)
    ensures Atoi(Decimal(n) + ['\0'] + rest) == n
  {
    ReadsDecimal(n, rest);
  }

  /** A number divided by ten k times. */
  function WithoutLast(n: nat, k: nat): nat {
    if k == 0 then n else WithoutLast(n / 10, k - 1)
  }

  /** The k-th character from the right is the remainder by ten of the number without its last k digits, and
      there is no zero in front. */
  lemma {:induction false} DigitAt(n: nat, k: nat)
    requires k < |Digits(n)|
    ensures (Digits(n)[|Digits(n)| - 1 - k] - '0') as int == WithoutLast(n, k) % 10
    ensures n > 0 ==> WithoutLast(n, k) > 0
  {
    if k == 0 {
    } else {
      assert n >= 10;
      DigitAt(n / 10, k - 1);
    }
  }

  predicate IsBlank(s: string) {
    forall k :: 0 <= k < |s| ==> s[k] == ' ' || 9 <= s[k] as int <= 13
  }

  lemma {:induction false} SkipsBlanks(blanks: string, s: string)
    requires IsBlank(blanks) && (s == [] || !(s[0] == ' ' || 9 <= s[0] as int <= 13))
    ensures SkipSpace(blanks + s) == s
  {
    if blanks == [] {
      assert blanks + s == s;
    } else {
      assert (blanks + s)[1..] == blanks[1..] + s;
      SkipsBlanks(blanks[1..], s);
    }
  }

  lemma ReadsUpTo(n: nat, rest: string)
    requires rest == [] || !('0' <= rest[0] <= '9')
    ensures ReadDigits(Digits(n) + rest, 0) == n
  {
    DigitsRoundTrip(n);
    AllDigits(Digits(n));
    DigitsGoOn(Digits(n), rest, 0);
  }

  lemma ReadsSign(sign: string, n: nat, rest: string)
    requires sign == "" || sign == "+" || sign == "-"
    requires rest == [] || !('0' <= rest[0] <= '9')
    ensures ReadSigned(sign + (Digits(n) + rest)) == if sign == "-" then 0 - n else n
    ensures var s := sign + (Digits(n) + rest); s != [] && !IsSpace(s[0])
  {
    var digits := Digits(n) + rest;
    var s := sign + digits;
    ReadsUpTo(n, rest);
    if sign == "" {
      assert s == digits;
      assert digits[0] == Digits(n)[0] && IsDigit(digits[0]);
    } else {
      assert s[1..] == digits && s[0] == sign[0];
    }
  }

  lemma Regroup(a: string, b: string, c: string, d: string)
    ensures a + b + c + d == a + (b + (c + d))
  {
  }

  /** What is read: blanks are skipped, one sign counts, and the digits end at the first other character. */
  lemma ReadsForm(blanks: string, sign: string, n: nat, rest: string)
    requires IsBlank(blanks) && (sign == "" || sign == "+" || sign == "-")
    requires rest == [] || !('0' <= rest[0] <= '9')
    ensures ReadNumber(blanks + sign + Digits(n) + rest) == if sign == "-" then 0 - n else n
  {
    var s := sign + (Digits(n) + rest);
    ReadsSign(sign, n, rest);
    SkipsBlanks(blanks, s);
    Regroup(blanks, sign, Digits(n), rest);
  }

  /** Without a digit there nothing is read. */
  lemma ReadsNothing(blanks: string, sign: string, rest: string)
    requires IsBlank(blanks) && (sign == "" || sign == "+" || sign == "-")
    requires rest == [] || !('0' <= rest[0] <= '9')
    requires sign == "" && rest != [] ==> !IsBlank(rest[..1]) && rest[0] != '+' && rest[0] != '-'
    ensures ReadNumber(blanks + sign + rest) == 0
  {
    var s := sign + rest;
    SkipsBlanks(blanks, s);
    assert blanks + sign + rest == blanks + s;
    if sign == "" {
      assert s == rest;
    } else {
      assert s[1..] == rest;
    }
  }

  lemma {:induction false} DigitsShort(n: nat, k: nat, bound: nat)
    requires n < bound && k >= 1 && bound == Power10(k)
    ensures |Digits(n)| <= k
  {
    if n < 10 {
    } else {
      assert k > 1;
      DigitsShort(n / 10, k - 1, Power10(k - 1));
    }
  }

  function Power10(k: nat): nat {
    if k == 0 then 1 else 10 * Power10(k - 1)
  }

  /** Different numbers are printed differently. */
  lemma DecimalInjective(m: int, n: int)
    requires IsInt(m) && IsInt(n) && Decimal(m) == Decimal(n)
    ensures m == n
  {
    DecimalRoundTrip(m, []);
    DecimalRoundTrip(n, []);
  }

  /** Eleven characters are enough. */
  lemma DecimalShort(n: int)
    requires IsInt(n)
    ensures |Decimal(n)| <= 11
  {
    assert Power10(10) == 10000000000;
    DigitsShort(if n < 0 then -n else n, 10, 10000000000);
  }
}
