/** Strings as the services build and compare them: ASCII lower-casing, and decimal numerals. */
module Text {

  function LowerChar(c: char): char {
    if 'A' <= c <= 'Z' then (c as int + 32) as char else c
  }

  function UpperChar(c: char): char {
    if 'a' <= c <= 'z' then (c as int - 32) as char else c
  }

  function Upper(s: string): string {
    seq(|s|, i requires 0 <= i < |s| => UpperChar(s[i]))
  }

  /** `LOWER(...)` in SQLite and `toLowerCase()` in JavaScript, which agree on ASCII. */
  function Lower(s: string): string {
    seq(|s|, i requires 0 <= i < |s| => LowerChar(s[i]))
  }

  lemma LowerIdempotent(s: string)
    ensures Lower(Lower(s)) == Lower(s)
  {
    forall i | 0 <= i < |s|
      ensures Lower(Lower(s))[i] == Lower(s)[i]
    {
      assert LowerChar(LowerChar(s[i])) == LowerChar(s[i]);
    }
  }

  /** The same character, or the two cases of one ASCII letter. */
  predicate SameLetter(c: char, c': char) {
    || c == c'
    || ('A' <= c <= 'Z' && c' as int == c as int + 32)
    || ('A' <= c' <= 'Z' && c as int == c' as int + 32)
  }

  /** Equal but for the case of ASCII letters. */
  predicate SameIgnoringCase(s: string, t: string) {
    |s| == |t| && forall i :: 0 <= i < |s| ==> SameLetter(s[i], t[i])
  }

  lemma LettersFold(c: char, c': char)
    ensures LowerChar(c) == LowerChar(c') <==> SameLetter(c, c')
    ensures UpperChar(c) == UpperChar(c') <==> SameLetter(c, c')
  {
  }

  /** Lower-casing identifies exactly the strings that differ in case alone, and leaves no capital. */
  lemma LowerIgnoresCase(s: string, t: string)
    ensures Lower(s) == Lower(t) <==> SameIgnoringCase(s, t)
    ensures SameIgnoringCase(Lower(s), s) && forall i :: 0 <= i < |s| ==> !('A' <= Lower(s)[i] <= 'Z')
  {
    if Lower(s) == Lower(t) {
      assert |s| == |Lower(s)| == |Lower(t)| == |t|;
      forall i | 0 <= i < |s|
        ensures SameLetter(s[i], t[i])
      {
        assert LowerChar(s[i]) == Lower(s)[i] == Lower(t)[i] == LowerChar(t[i]);
        LettersFold(s[i], t[i]);
      }
    }
    if SameIgnoringCase(s, t) {
      forall i | 0 <= i < |s|
        ensures Lower(s)[i] == Lower(t)[i]
      {
        LettersFold(s[i], t[i]);
      }
      assert Lower(s) == Lower(t);
    }
  }

  lemma UpperIgnoresCase(s: string, t: string)
    ensures Upper(s) == Upper(t) <==> SameIgnoringCase(s, t)
  {
    if Upper(s) == Upper(t) {
      assert |s| == |Upper(s)| == |Upper(t)| == |t|;
      forall i | 0 <= i < |s|
        ensures SameLetter(s[i], t[i])
      {
        assert UpperChar(s[i]) == Upper(s)[i] == Upper(t)[i] == UpperChar(t[i]);
        LettersFold(s[i], t[i]);
      }
    }
    if SameIgnoringCase(s, t) {
      forall i | 0 <= i < |s|
        ensures Upper(s)[i] == Upper(t)[i]
      {
        LettersFold(s[i], t[i]);
      }
      assert Upper(s) == Upper(t);
    }
  }

  predicate IsDigit(c: char) {
    '0' <= c <= '9'
  }

  predicate AllDigits(s: string) {
    forall i :: 0 <= i < |s| ==> IsDigit(s[i])
  }

  function Digits(n: nat): string {
    if n < 10 then [('0' as int + n) as char]
    else Digits(n / 10) + [('0' as int + n % 10) as char]
  }

  function DigitsValue(s: string): nat
    requires AllDigits(s)
  {
    if |s| == 0 then 0
    else 10 * DigitsValue(s[..|s| - 1]) + (s[|s| - 1] as int - '0' as int)
  }

  lemma {:induction false} DigitsRoundTrip(n: nat)
    ensures |Digits(n)| > 0 && AllDigits(Digits(n)) && DigitsValue(Digits(n)) == n
  {
    if n < 10 {
      assert Digits(n)[..0] == [];
    } else {
      DigitsRoundTrip(n / 10);
      assert Digits(n)[..|Digits(n)| - 1] == Digits(n / 10);
    }
  }

  function IntText(n: int): string {
    if n < 0 then "-" + Digits(-n) else Digits(n)
  }

  lemma {:induction false} IntTextInjective(m: int, n: int)
    requires IntText(m) == IntText(n)
    ensures m == n
  {
    DigitsRoundTrip(if m < 0 then -m else m);
    DigitsRoundTrip(if n < 0 then -n else n);
    assert IntText(m)[0] == '-' <==> m < 0;
    assert IntText(n)[0] == '-' <==> n < 0;
    if m < 0 {
      assert IntText(m)[1..] == Digits(-m) && IntText(n)[1..] == Digits(-n);
    }
  }

  predicate ColonFree(s: string) {
    ':' !in s
  }

  lemma IntTextColonFree(n: int)
    ensures ColonFree(IntText(n))
  {
    DigitsRoundTrip(if n < 0 then -n else n);
  }
}
