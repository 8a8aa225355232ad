/** The string tests and conversions the registry's path and file names are made of. */
module Text {
  import opened Common

  predicate IsDigit(c: char) { '0' <= c <= '9' }

  predicate IsHexLower(c: char) { IsDigit(c) || 'a' <= c <= 'f' }

  predicate IsHex(c: char) { IsHexLower(c) || 'A' <= c <= 'F' }

  predicate AllDigits(s: string) { forall c <- s :: IsDigit(c) }

  predicate AllHexLower(s: string) { forall c <- s :: IsHexLower(c) }

  predicate AllHex(s: string) { forall c <- s :: IsHex(c) }

  predicate EndsWith(s: string, suffix: string) {
    |suffix| <= |s| && s[|s| - |suffix|..] == suffix
  }

  /** `[1-9][0-9]*` */
  predicate IsPositiveDecimal(s: string) {
    s != "" && AllDigits(s) && s[0] != '0'
  }

  /** `0x` and exactly `n` lower-case hex digits. */
  predicate IsHexWord(s: string, n: nat) {
    |s| == n + 2 && s[..2] == "0x" && AllHexLower(s[2..])
  }

  /** `0x` and exactly `n` hex digits of either case. */
  predicate IsAnyHexWord(s: string, n: nat) {
    |s| == n + 2 && s[..2] == "0x" && AllHex(s[2..])
  }

  function LowerChar(c: char): char {
    if 'A' <= c <= 'Z' then (c as int - 'A' as int + 'a' as int) as char else c
  }

  function Lower(s: string): (r: string)
    ensures |r| == |s|
    ensures forall i | 0 <= i < |s| :: r[i] == LowerChar(s[i])
  {
    seq(|s|, i requires 0 <= i < |s| => LowerChar(s[i]))
  }

  lemma LowerHexWord(s: string, n: nat)
    requires IsAnyHexWord(s, n)
    ensures IsHexWord(Lower(s), n)
  {
    assert s[0] == '0' && s[1] == 'x';
    assert Lower(s)[..2] == "0x";
    forall c <- Lower(s)[2..] ensures IsHexLower(c) {
      var i :| 2 <= i < |s| && Lower(s)[i] == c;
      assert s[i] in s[2..];
    }
  }

  lemma LowerOfHexWord(s: string, n: nat)
    requires IsHexWord(s, n)
    ensures Lower(s) == s
  {
    forall i | 0 <= i < |s| ensures Lower(s)[i] == s[i] {
      if i < 2 {
        assert s[..2][i] == "0x"[i];
      } else {
        assert s[i] in s[2..];
      }
    }
  }

  function DigitChar(d: nat): char
    requires d < 10
  {
    (d + '0' as int) as char
  }

  /** A non-negative integer as JavaScript prints it. */
  function Digits(n: nat): string {
    if n < 10 then [DigitChar(n)] else Digits(n / 10) + [DigitChar(n % 10)]
  }

  function Value(s: string): nat
    requires AllDigits(s)
  {
    if s == "" then 0
    else
      assert s[|s| - 1] in s;
      10 * Value(s[..|s| - 1]) + (s[|s| - 1] as int - '0' as int)
  }

  lemma {:induction false} DigitsRoundTrip(n: nat)
    ensures AllDigits(Digits(n)) && Value(Digits(n)) == n
    ensures n > 0 ==> IsPositiveDecimal(Digits(n))
  {
    if n >= 10 {
      DigitsRoundTrip(n / 10);
      assert Digits(n)[..|Digits(n)| - 1] == Digits(n / 10);
    } else {
      assert Digits(n)[..0] == "";
    }
  }

  /** The index just past the last `c`, or 0. */
  function AfterLast(s: string, c: char): (k: nat)
    ensures k <= |s|
    ensures c !in s[k..]
    ensures k == 0 || s[k - 1] == c
  {
    if s == "" then 0
    else if s[|s| - 1] == c then |s|
    else AfterLast(s[..|s| - 1], c)
  }
}
