/** The few C library text routines that the lock code leans on: "%d" printing, atoi, strstr, and
    the C-string view of a buffer. */
module CText {

  predicate IsDigit(c: char) {
    '0' <= c <= '9'
  }

  /** isspace in the C locale. */
  predicate IsSpace(c: char) {
    c == ' ' || c == '\t' || c == '\n' || c == '\r' || c == '\U{0b}' || c == '\U{0c}'
  }

  function DigitChar(d: nat): (c: char)
    requires d < 10
    ensures IsDigit(c)
  {
    '0' + d as char
  }

  function DigitValue(c: char): (d: nat)
    requires IsDigit(c)
    ensures d < 10
  {
    c as int - '0' as int
  }

  /** "%u": decimal digits, most significant first. */
  function Decimal(n: nat): (s: string)
    ensures s != "" && forall i | 0 <= i < |s| :: IsDigit(s[i])
  {
    if n < 10 then [DigitChar(n)] else Decimal(n / 10) + [DigitChar(n % 10)]
  }

  /** "%d". */
  function SignedDecimal(i: int): (s: string)
    ensures s != ""
  {
    if i < 0 then "-" + Decimal(-i) else Decimal(i)
  }

  function SkipSpace(s: string): string {
    if s != "" && IsSpace(s[0]) then SkipSpace(s[1..]) else s
  }

  function ReadDigits(s: string, sofar: nat): nat {
    if s != "" && IsDigit(s[0]) then ReadDigits(s[1..], 10 * sofar + DigitValue(s[0])) else sofar
  }

  /** atoi and atol: blanks, an optional sign, then digits up to the first other character. */
  function Atoi(s: string): int {
    var t := SkipSpace(s);
    if t != "" && t[0] == '-' then 0 - ReadDigits(t[1..], 0)
    else if t != "" && t[0] == '+' then ReadDigits(t[1..], 0)
    else ReadDigits(t, 0)
  }

  predicate StopsDigits(s: string) {
    s == "" || !IsDigit(s[0])
  }

  lemma {:induction false} ReadDigitsOfDecimal(n: nat, rest: string)
    ensures ReadDigits(Decimal(n) + rest, 0) == ReadDigits(rest, n)
    decreases n
  {
    if n < 10 {
      assert (Decimal(n) + rest)[1..] == rest;
    } else {
      var d := [DigitChar(n % 10)];
      assert Decimal(n) + rest == Decimal(n / 10) + (d + rest);
      ReadDigitsOfDecimal(n / 10, d + rest);
      assert (d + rest)[1..] == rest;
    }
  }

  /** Reading a printed number back, whatever non-digit follows it. */
  lemma AtoiOfDecimal(i: int, rest: string)
    requires StopsDigits(rest)
    ensures Atoi(SignedDecimal(i) + rest) == i
  {
    var s := SignedDecimal(i) + rest;
    if i < 0 {
      assert s == "-" + (Decimal(-i) + rest);
      assert SkipSpace(s) == s && s[1..] == Decimal(-i) + rest;
      ReadDigitsOfDecimal(-i, rest);
    } else {
      assert s[0] == Decimal(i)[0] && IsDigit(s[0]) && !IsSpace(s[0]);
      assert SkipSpace(s) == s;
      ReadDigitsOfDecimal(i, rest);
    }
  }

  lemma {:induction false} ReadDigitsStopsAtDot(s: string, t: string, u: string, sofar: nat)
    ensures ReadDigits(s + "." + t, sofar) == ReadDigits(s + "." + u, sofar)
    decreases |s|
  {
    var st, su := s + "." + t, s + "." + u;
    if s != "" && IsDigit(s[0]) {
      assert st[1..] == s[1..] + "." + t && su[1..] == s[1..] + "." + u;
      ReadDigitsStopsAtDot(s[1..], t, u, 10 * sofar + DigitValue(s[0]));
    } else {
      assert st[0] == su[0] == (s + ".")[0];
    }
  }

  /** What follows a dot never changes what atoi reads. */
  lemma {:induction false} AtoiStopsAtDot(s: string, t: string, u: string)
    ensures Atoi(s + "." + t) == Atoi(s + "." + u)
    decreases |s|
  {
    var st, su := s + "." + t, s + "." + u;
    if s == "" {
      assert st == "." + t && su == "." + u;
      assert SkipSpace(st) == st && SkipSpace(su) == su;
    } else if IsSpace(s[0]) {
      assert st[1..] == s[1..] + "." + t && su[1..] == s[1..] + "." + u;
      AtoiStopsAtDot(s[1..], t, u);
    } else {
      assert st[0] == su[0] == s[0];
      assert st[1..] == s[1..] + "." + t && su[1..] == s[1..] + "." + u;
      ReadDigitsStopsAtDot(s, t, u, 0);
      ReadDigitsStopsAtDot(s[1..], t, u, 0);
    }
  }

  /** Blanks before a number do not count, a plus sign neither, and text without digits is zero. */
  lemma AtoiOfOtherText(n: nat, rest: string)
    requires StopsDigits(rest)
    ensures Atoi("+" + (Decimal(n) + rest)) == n && Atoi(" " + (Decimal(n) + rest)) == n
    ensures Atoi("x" + rest) == 0 && Atoi("") == 0
  {
    var s := Decimal(n) + rest;
    assert ("+" + s)[1..] == s && (" " + s)[1..] == s;
    assert IsDigit(s[0]) && SkipSpace(s) == s;
    ReadDigitsOfDecimal(n, rest);
  }

  // ---------------------------------------------------------------------------------------------
  // strstr and strncmp
  // ---------------------------------------------------------------------------------------------

  predicate OccursAt(s: string, pattern: string, i: nat) {
    i + |pattern| <= |s| && s[i..i + |pattern|] == pattern
  }

  ghost predicate Contains(s: string, pattern: string) {
    exists i: nat :: OccursAt(s, pattern, i)
  }

  datatype Position = Absent | At(index: nat)

  function FindFrom(s: string, pattern: string, i: nat): (p: Position)
    ensures p.At? ==> i <= p.index && OccursAt(s, pattern, p.index)
    decreases |s| - i
  {
    if i + |pattern| > |s| then Absent
    else if OccursAt(s, pattern, i) then At(i)
    else FindFrom(s, pattern, i + 1)
  }

  /** strstr: the first occurrence. */
  function Find(s: string, pattern: string): (p: Position)
    ensures p.At? ==> OccursAt(s, pattern, p.index)
  {
    FindFrom(s, pattern, 0)
  }

  lemma {:induction false} FindFromIsFirst(s: string, pattern: string, i: nat)
    ensures match FindFrom(s, pattern, i)
            case At(k) => forall j: nat | i <= j < k :: !OccursAt(s, pattern, j)
            case Absent => forall j: nat | i <= j :: !OccursAt(s, pattern, j)
    decreases |s| - i
  {
    if i + |pattern| <= |s| && !OccursAt(s, pattern, i) {
      FindFromIsFirst(s, pattern, i + 1);
    }
  }

  /** strncmp(s, prefix, strlen(prefix)) == 0. */
  predicate HasPrefix(s: string, prefix: string) {
    prefix <= s
  }
}
