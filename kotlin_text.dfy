/** The parts of Kotlin's standard library on the JVM that the settings screen and the
    capture service lean on: `String.trim()`, `String.toInt()`, `String.toLong()`,
    `Int.toString()` and `String.toLowerCase()`. A failed parse (Java's
    NumberFormatException) is `None`. */
module KotlinText {

  datatype Option<T> = None | Some(value: T)

  const INT_MIN: int := -0x8000_0000
  const INT_MAX: int := 0x7fff_ffff
  const LONG_MIN: int := -0x8000_0000_0000_0000
  const LONG_MAX: int := 0x7fff_ffff_ffff_ffff

  // ---------------------------------------------------------------- trim()

  /** `Char.isWhitespace()` on the JVM: `Character.isWhitespace` (tab, line feed, vertical
      tab, form feed, carriage return, the four information separators and the space
      separators other than the no-break ones) or `Character.isSpaceChar` (every space,
      line and paragraph separator, no-break spaces included). */
  predicate IsWhitespace(c: char) {
    var n := c as int;
    (0x09 <= n <= 0x0D) || (0x1C <= n <= 0x20) || n == 0xA0 || n == 0x1680 ||
    (0x2000 <= n <= 0x200A) || n == 0x2028 || n == 0x2029 || n == 0x202F ||
    n == 0x205F || n == 0x3000
  }

  /** Number of whitespace characters that open `s`. */
  function LeadingWhitespace(s: string): (n: nat)
    ensures n <= |s|
    ensures forall i :: 0 <= i < n ==> IsWhitespace(s[i])
    ensures n == |s| || !IsWhitespace(s[n])
  {
    if s != [] && IsWhitespace(s[0]) then 1 + LeadingWhitespace(s[1..]) else 0
  }

  /** Number of whitespace characters that close `s`. */
  function TrailingWhitespace(s: string): (n: nat)
    ensures n <= |s|
    ensures forall i :: |s| - n <= i < |s| ==> IsWhitespace(s[i])
    ensures n == |s| || !IsWhitespace(s[|s| - 1 - n])
  {
    if s != [] && IsWhitespace(s[|s| - 1]) then 1 + TrailingWhitespace(s[..|s| - 1]) else 0
  }

  /** `String.trim()`: the string without its leading and trailing whitespace. */
  function Trim(s: string): (r: string)
    ensures |r| <= |s|
    ensures r == [] || (!IsWhitespace(r[0]) && !IsWhitespace(r[|r| - 1]))
    ensures LeadingWhitespace(s) + |r| <= |s|
    ensures r == s[LeadingWhitespace(s)..LeadingWhitespace(s) + |r|]
    ensures forall i :: LeadingWhitespace(s) + |r| <= i < |s| ==> IsWhitespace(s[i])
  {
    var a := LeadingWhitespace(s);
    var rest := s[a..];
    var b := TrailingWhitespace(rest);
    assert forall i :: a + |rest| - b <= i < |s| ==> s[i] == rest[i - a];
    rest[..|rest| - b]
  }

  predicate AllWhitespace(s: string) {
    forall i :: 0 <= i < |s| ==> IsWhitespace(s[i])
  }

  /** Trimming removes exactly the padding: whatever stands between whitespace-only
      padding and does not itself start or end with whitespace comes back unchanged. */
  lemma TrimPadded(pre: string, t: string, post: string)
    requires AllWhitespace(pre) && AllWhitespace(post)
    requires t == [] || (!IsWhitespace(t[0]) && !IsWhitespace(t[|t| - 1]))
    ensures Trim(pre + t + post) == t
  {
    if t == [] {
      assert pre + t + post == pre + post;
      TrimBlank(pre, post);
    } else {
      TrimAroundText(pre, t, post);
    }
  }

  /** A string made of whitespace only trims to the empty string. */
  lemma {:induction false} TrimBlank(pre: string, post: string)
    requires AllWhitespace(pre) && AllWhitespace(post)
    ensures Trim(pre + post) == []
  {
    var s := pre + post;
    LeadingOfPadded(pre, post);
    assert post == post + [];
    LeadingOfPadded(post, []);
    assert LeadingWhitespace(s) == |s|;
    assert Trim(s) == s[|s|..][..0];
  }

  lemma {:induction false} TrimAroundText(pre: string, t: string, post: string)
    requires AllWhitespace(pre) && AllWhitespace(post)
    requires t != [] && !IsWhitespace(t[0]) && !IsWhitespace(t[|t| - 1])
    ensures Trim(pre + t + post) == t
  {
    var s := pre + t + post;
    var rest := t + post;
    assert LeadingWhitespace(s) == |pre| by {
      assert s == pre + rest;
      LeadingOfPadded(pre, rest);
      assert rest[0] == t[0];
    }
    assert TrailingWhitespace(rest) == |post| by {
      TrailingOfPadded(t, post);
      assert t == t[..|t| - 1] + [t[|t| - 1]];
    }
    assert s[|pre|..] == rest;
    assert Trim(s) == rest[..|t|];
    assert rest[..|t|] == t;
  }

  /** Whitespace in front of a string adds exactly its own length to the leading count. */
  lemma {:induction false} LeadingOfPadded(pre: string, rest: string)
    requires AllWhitespace(pre)
    ensures LeadingWhitespace(pre + rest) == |pre| + LeadingWhitespace(rest)
  {
    if pre == [] {
      assert pre + rest == rest;
    } else {
      assert (pre + rest)[1..] == pre[1..] + rest;
      LeadingOfPadded(pre[1..], rest);
    }
  }

  /** Whitespace after a string adds exactly its own length to the trailing count. */
  lemma {:induction false} TrailingOfPadded(rest: string, post: string)
    requires AllWhitespace(post)
    ensures TrailingWhitespace(rest + post) == |post| + TrailingWhitespace(rest)
  {
    if post == [] {
      assert rest + post == rest;
    } else {
      var p := post[..|post| - 1];
      assert (rest + post)[..|rest + post| - 1] == rest + p;
      TrailingOfPadded(rest, p);
    }
  }

  /** `trim()` is idempotent. */
  lemma TrimIdempotent(s: string)
    ensures Trim(Trim(s)) == Trim(s)
  {
    var t := Trim(s);
    assert [] + t + [] == t;
    TrimPadded([], t, []);
  }

  // ---------------------------------------------------------- toInt / toLong

  predicate IsDigit(c: char) {
    '0' <= c <= '9'
  }

  predicate AllDigits(s: string) {
    forall i :: 0 <= i < |s| ==> IsDigit(s[i])
  }

  function DigitValue(c: char): (d: nat)
    requires IsDigit(c)
    ensures d < 10
  {
    c as int - '0' as int
  }

  /** The value of a run of decimal digits, read most significant first. */
  function DigitsValue(s: string): nat
    requires AllDigits(s)
  {
    if s == [] then 0 else 10 * DigitsValue(s[..|s| - 1]) + DigitValue(s[|s| - 1])
  }

  /** The syntax of `Integer.parseInt` and `Long.parseLong` in radix 10 without the range
      check: an optional `-` or `+`, then at least one decimal digit, nothing else. */
  function ParseDecimal(s: string): Option<int> {
    if s == [] then None
    else if s[0] == '-' || s[0] == '+' then
      if |s| > 1 && AllDigits(s[1..]) then
        Some(if s[0] == '-' then 0 - DigitsValue(s[1..]) else DigitsValue(s[1..]))
      else None
    else if AllDigits(s) then Some(DigitsValue(s))
    else None
  }

  /** A parse that also fails when the value lies outside `lo..hi`, the overflow case of
      Java's parser. */
  function ParseInRange(s: string, lo: int, hi: int): (r: Option<int>)
    ensures r.Some? ==> lo <= r.value <= hi && ParseDecimal(s) == r
    ensures ParseDecimal(s).Some? && lo <= ParseDecimal(s).value <= hi ==> r.Some?
  {
    match ParseDecimal(s)
    case Some(v) => if lo <= v <= hi then Some(v) else None
    case None => None
  }

  /** `String.toInt()`: `None` stands for NumberFormatException. */
  function ToInt(s: string): (r: Option<int>)
    ensures r.Some? ==> INT_MIN <= r.value <= INT_MAX
  {
    ParseInRange(s, INT_MIN, INT_MAX)
  }

  /** `String.toLong()`: `None` stands for NumberFormatException. */
  function ToLong(s: string): (r: Option<int>)
    ensures r.Some? ==> LONG_MIN <= r.value <= LONG_MAX
  {
    ParseInRange(s, LONG_MIN, LONG_MAX)
  }

  /** A character other than a digit anywhere after the first position, or a first
      character that is neither a digit nor a sign, makes the parse fail. */
  lemma ParseRejectsNonDigit(s: string, k: nat)
    requires k < |s| && !IsDigit(s[k])
    requires k > 0 || (s[0] != '-' && s[0] != '+')
    ensures ParseDecimal(s) == None
  {
    if s[0] == '-' || s[0] == '+' {
      assert s[1..][k - 1] == s[k];
    }
  }

  // ------------------------------------------------------------ Int.toString()

  /** `Int.toString()` of a non-negative value: its decimal digits, with no leading zero. */
  function NatToString(n: nat): (r: string)
    ensures r != [] && AllDigits(r)
    ensures DigitsValue(r) == n
    ensures r[0] == '0' ==> n == 0 && r == "0"
  {
    var d := ['0' + ((n % 10) as char)];
    if n < 10 then d
    else
      var h := NatToString(n / 10);
      assert (h + d)[..|h + d| - 1] == h;
      h + d
  }

  /** `toInt()` reads back what `Int.toString()` wrote, for every non-negative Int. */
  lemma NatToStringToInt(n: nat)
    requires n <= INT_MAX
    ensures ToInt(NatToString(n)) == Some(n)
  {
    assert NatToString(n)[0] != '-' && NatToString(n)[0] != '+';
  }

  /** The value of an optional sign followed by digits. */
  function SignedValue(sign: string, digits: string): int
    requires AllDigits(digits)
  {
    if sign == "-" then 0 - DigitsValue(digits) else DigitsValue(digits)
  }

  /** An optional sign and a run of digits parse to their signed value (before the range
      check). */
  lemma ParseSigned(sign: string, digits: string)
    requires sign == "" || sign == "-" || sign == "+"
    requires digits != [] && AllDigits(digits)
    ensures ParseDecimal(sign + digits) == Some(SignedValue(sign, digits))
  {
    if sign == "" {
      assert sign + digits == digits;
      assert IsDigit(digits[0]);
    } else {
      assert (sign + digits)[1..] == digits;
    }
  }

  /** An optional sign and a run of digits, padded with any whitespace, trims to the sign
      and the digits, which parse to their signed value (before the range check). */
  lemma TrimmedNumber(pre: string, sign: string, digits: string, post: string)
    requires AllWhitespace(pre) && AllWhitespace(post)
    requires sign == "" || sign == "-" || sign == "+"
    requires digits != [] && AllDigits(digits)
    ensures Trim(pre + sign + digits + post) == sign + digits
    ensures ParseDecimal(Trim(pre + sign + digits + post)) == Some(SignedValue(sign, digits))
  {
    var t := sign + digits;
    assert !IsWhitespace(t[|t| - 1]) by {
      assert t[|t| - 1] == digits[|digits| - 1];
    }
    assert !IsWhitespace(t[0]) by {
      assert t[0] == if sign == "" then digits[0] else sign[0];
    }
    assert pre + sign + digits + post == pre + t + post;
    TrimPadded(pre, t, post);
    ParseSigned(sign, digits);
  }

  /** A digit string has no whitespace to trim. */
  lemma TrimDigits(s: string)
    requires AllDigits(s)
    ensures Trim(s) == s
  {
    assert [] + s + [] == s;
    if s != [] {
      assert IsDigit(s[0]) && IsDigit(s[|s| - 1]);
    }
    TrimPadded([], s, []);
  }

  // ------------------------------------------------------------ toLowerCase()

  function LowerChar(c: char): char {
    if 'A' <= c <= 'Z' then (c as int - 'A' as int + 'a' as int) as char else c
  }

  predicate IsUpper(c: char) {
    'A' <= c <= 'Z'
  }

  /** `String.toLowerCase()`, on the ASCII letters: the result has no upper-case letter
      left, each upper-case letter becomes the letter 32 code points further on, and
      every other character is kept in its place. */
  function Lower(s: string): (r: string)
    ensures |r| == |s|
    ensures forall i :: 0 <= i < |r| ==> !IsUpper(r[i])
    ensures forall i :: 0 <= i < |s| && IsUpper(s[i]) ==> r[i] as int == s[i] as int + 32
    ensures forall i :: 0 <= i < |s| && !IsUpper(s[i]) ==> r[i] == s[i]
  {
    seq(|s|, i requires 0 <= i < |s| => LowerChar(s[i]))
  }

  /** Lower-casing twice is lower-casing once. */
  lemma LowerIdempotent(s: string)
    ensures Lower(Lower(s)) == Lower(s)
  {
    var r := Lower(s);
    assert forall i :: 0 <= i < |r| ==> Lower(r)[i] == r[i];
  }

}
