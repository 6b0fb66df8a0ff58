/**
 The string operations of Go's `strings` and `strconv` packages that the program relies on.
 Case mapping is ASCII; white space is the full set of Go's `unicode.IsSpace`.
 */
module Text {

  function LowerChar(c: char): char {
    if 'A' <= c <= 'Z' then ((c as int) + 32) as char else c
  }

  /** strings.ToLower */
  function Lower(s: string): (r: string)
    ensures |r| == |s|
    ensures forall i :: 0 <= i < |s| ==> r[i] == LowerChar(s[i])
  {
    seq(|s|, i requires 0 <= i < |s| => LowerChar(s[i]))
  }

  lemma LowerIdempotent(s: string)
    ensures Lower(Lower(s)) == Lower(s)
  {
  }

  /** unicode.IsSpace */
  predicate IsSpace(c: char) {
    var n := c as int;
    || 9 <= n <= 13 || n == 32 || n == 0x85 || n == 0xA0 || n == 0x1680
    || 0x2000 <= n <= 0x200a || n == 0x2028 || n == 0x2029 || n == 0x202f || n == 0x205f || n == 0x3000
  }

  function TrimLeft(s: string, drop: char -> bool): (r: string)
    ensures |r| <= |s|
    ensures r != "" ==> !drop(r[0])
  {
    if s != "" && drop(s[0]) then TrimLeft(s[1..], drop) else s
  }

  function TrimRight(s: string, drop: char -> bool): (r: string)
    ensures |r| <= |s|
    ensures r != "" ==> r[0] == s[0] && !drop(r[|r| - 1])
  {
    if s != "" && drop(s[|s| - 1]) then TrimRight(s[..|s| - 1], drop) else s
  }

  /** strings.TrimFunc */
  function Trim(s: string, drop: char -> bool): string {
    TrimRight(TrimLeft(s, drop), drop)
  }

  /** Trim leaves alone exactly the strings that start and end with a kept character. */
  lemma TrimFixpoint(s: string, drop: char -> bool)
    ensures Trim(s, drop) == s <==> s == "" || (!drop(s[0]) && !drop(s[|s| - 1]))
  {
  }

  lemma TrimIdempotent(s: string, drop: char -> bool)
    ensures Trim(Trim(s, drop), drop) == Trim(s, drop)
  {
    TrimFixpoint(Trim(s, drop), drop);
  }

  /** strings.TrimSpace */
  function TrimSpace(s: string): string {
    Trim(s, IsSpace)
  }

  function WordLength(s: string): (n: nat)
    ensures n <= |s|
    ensures s != "" && !IsSpace(s[0]) ==> 0 < n
  {
    if s == "" || IsSpace(s[0]) then 0 else 1 + WordLength(s[1..])
  }

  /** strings.Fields */
  function Fields(s: string): seq<string>
    decreases |s|
  {
    var t := TrimLeft(s, IsSpace);
    if t == "" then [] else
      var n := WordLength(t);
      [t[..n]] + Fields(t[n..])
  }

  /** strings.IndexByte from position i on; the length of s when there is none. */
  function IndexFrom(s: string, c: char, i: nat): (j: nat)
    requires i <= |s|
    ensures i <= j <= |s|
    ensures j < |s| ==> s[j] == c
    ensures forall k :: i <= k < j ==> s[k] != c
    decreases |s| - i
  {
    if i == |s| || s[i] == c then i else IndexFrom(s, c, i + 1)
  }

  /** strings.Contains */
  predicate Contains(s: string, part: string) {
    exists i :: 0 <= i <= |s| && part <= s[i..]
  }

  // ---------- decimal numerals ----------

  function DigitChar(d: nat): (c: char)
    requires d < 10
    ensures '0' <= c <= '9'
  {
    (('0' as int) + d) as char
  }

  predicate IsDigit(c: char) {
    '0' <= c <= '9'
  }

  function NatToString(n: nat): (r: string)
    ensures r != ""
    ensures forall i :: 0 <= i < |r| ==> IsDigit(r[i])
  {
    if n < 10 then [DigitChar(n)] else NatToString(n / 10) + [DigitChar(n % 10)]
  }

  /** strconv.Itoa and the `%d` verb */
  function IntToString(n: int): (r: string)
    ensures r != ""
    ensures forall i :: 0 <= i < |r| ==> IsDigit(r[i]) || r[i] == '-'
  {
    if n < 0 then "-" + NatToString(-n) else NatToString(n)
  }

  lemma {:induction false} NatToStringInjective(a: nat, b: nat)
    requires NatToString(a) == NatToString(b)
    ensures a == b
  {
    var s, t := NatToString(a), NatToString(b);
    assert s[|s| - 1] == DigitChar(a % 10);
    assert t[|t| - 1] == DigitChar(b % 10);
    assert DigitChar(a % 10) as int == DigitChar(b % 10) as int;
    if a < 10 || b < 10 {
      assert |s| == |t|;
    } else {
      assert NatToString(a / 10) == s[..|s| - 1];
      assert NatToString(b / 10) == t[..|t| - 1];
      NatToStringInjective(a / 10, b / 10);
    }
  }

  /** Two numbers with the same numeral are the same number. */
  lemma IntToStringInjective(a: int, b: int)
    requires IntToString(a) == IntToString(b)
    ensures a == b
  {
    var s, t := IntToString(a), IntToString(b);
    assert s[0] == '-' <==> a < 0;
    assert t[0] == '-' <==> b < 0;
    if a < 0 {
      assert NatToString(-a) == s[1..];
      assert NatToString(-b) == t[1..];
      NatToStringInjective(-a, -b);
    } else {
      NatToStringInjective(a, b);
    }
  }

  /** The number that decimal digits stand for. */
  function NatOf(digits: string): int {
    if digits == "" then 0 else 10 * NatOf(digits[..|digits| - 1]) + (digits[|digits| - 1] as int - '0' as int)
  }

  function IntOf(numeral: string): int {
    if numeral != "" && numeral[0] == '-' then -NatOf(numeral[1..]) else NatOf(numeral)
  }

  lemma {:induction false} NatToStringReads(n: nat)
    ensures NatOf(NatToString(n)) == n
  {
    if n >= 10 {
      NatToStringReads(n / 10);
      assert NatToString(n)[..|NatToString(n)| - 1] == NatToString(n / 10);
    }
  }

  lemma IntToStringReads(n: int)
    ensures IntOf(IntToString(n)) == n
  {
    if n < 0 {
      NatToStringReads(-n);
      assert IntToString(n)[1..] == NatToString(-n);
    } else {
      NatToStringReads(n);
    }
  }
}
