/** The two string operations the core relies on: JavaScript's decimal `toString` of a
    non-negative integer (the OTP code) and `String.prototype.replace` with a string
    pattern and an empty replacement (stripping "Bearer "). */
module Text {

  predicate IsDigit(c: char) {
    '0' <= c <= '9'
  }

  predicate AllDigits(s: string) {
    forall i :: 0 <= i < |s| ==> IsDigit(s[i])
  }

  function DigitChar(d: nat): (c: char)
    requires d < 10
    ensures IsDigit(c)
  {
    ('0' as int + d) as char
  }

  function DigitValue(c: char): (d: nat)
    requires IsDigit(c)
    ensures d < 10
  {
    c as int - '0' as int
  }

  /** `n.toString()` for a non-negative integer: its decimal digits, most significant
      first, with no leading zero. */
  function DecimalString(n: nat): (s: string)
    ensures |s| >= 1 && AllDigits(s)
    ensures n < 10 <==> |s| == 1
  {
    if n < 10 then [DigitChar(n)] else DecimalString(n / 10) + [DigitChar(n % 10)]
  }

  /** The value of a string of decimal digits. */
  function ParseDecimal(s: string): (n: nat)
    requires AllDigits(s)
  {
    if s == [] then 0 else 10 * ParseDecimal(s[..|s| - 1]) + DigitValue(s[|s| - 1])
  }

  /** Reading back a rendered number gives the number. */
  lemma {:induction false} ParseDecimalString(n: nat)
    ensures ParseDecimal(DecimalString(n)) == n
  {
    if n >= 10 {
      var prefix := DecimalString(n / 10);
      var s := prefix + [DigitChar(n % 10)];
      assert s[..|s| - 1] == prefix;
      ParseDecimalString(n / 10);
    }
  }

  /** Every number from 1000 to 9999 renders as exactly four digits. */
  lemma FourDigitString(n: nat)
    requires 1000 <= n <= 9999
    ensures |DecimalString(n)| == 4
  {
    var a := n / 10;
    var b := a / 10;
    var c := b / 10;
    assert 100 <= a <= 999 && 10 <= b <= 99 && 1 <= c <= 9;
    assert |DecimalString(c)| == 1;
    assert |DecimalString(b)| == 2;
    assert |DecimalString(a)| == 3;
  }

  /** `pat` occurs in `s` starting at index `i`. */
  predicate OccursAt(s: string, pat: string, i: nat) {
    i + |pat| <= |s| && s[i..i + |pat|] == pat
  }

  /** `s.replace(pat, "")` with a string pattern: the first occurrence of `pat` is
      removed, and `s` is returned unchanged when there is none. */
  function RemoveFirst(s: string, pat: string): (r: string)
    decreases |s|
  {
    if |s| < |pat| then s
    else if s[..|pat|] == pat then s[|pat|..]
    else [s[0]] + RemoveFirst(s[1..], pat)
  }

  /** Removing the first occurrence, stated by its index: when `pat` occurs at `i` and
      nowhere before, the result is `s` with exactly the characters `i .. i+|pat|` cut out. */
  lemma {:induction false} RemoveFirstAt(s: string, pat: string, i: nat)
    requires OccursAt(s, pat, i)
    requires forall j :: 0 <= j < i ==> !OccursAt(s, pat, j)
    ensures RemoveFirst(s, pat) == s[..i] + s[i + |pat|..]
  {
    if i == 0 {
      assert s[..|pat|] == pat;
    } else {
      assert !OccursAt(s, pat, 0);
      var t := s[1..];
      assert t[i - 1..i - 1 + |pat|] == s[i..i + |pat|];
      forall j | 0 <= j < i - 1
        ensures !OccursAt(t, pat, j)
      {
        assert !OccursAt(s, pat, j + 1);
        assert t[j..j + |pat|] == s[j + 1..j + 1 + |pat|];
      }
      RemoveFirstAt(t, pat, i - 1);
      assert [s[0]] + t[..i - 1] == s[..i];
      assert t[i - 1 + |pat|..] == s[i + |pat|..];
      calc {
        RemoveFirst(s, pat);
        [s[0]] + RemoveFirst(t, pat);
        [s[0]] + (t[..i - 1] + t[i - 1 + |pat|..]);
        ([s[0]] + t[..i - 1]) + t[i - 1 + |pat|..];
      }
    }
  }

  /** With no occurrence of `pat`, the string is returned unchanged. */
  lemma {:induction false} RemoveFirstAbsent(s: string, pat: string)
    requires |pat| > 0
    requires forall j :: 0 <= j <= |s| ==> !OccursAt(s, pat, j)
    ensures RemoveFirst(s, pat) == s
    decreases |s|
  {
    if |s| >= |pat| {
      assert !OccursAt(s, pat, 0);
      assert s[..|pat|] != pat;
      var t := s[1..];
      forall j | 0 <= j <= |t|
        ensures !OccursAt(t, pat, j)
      {
        assert !OccursAt(s, pat, j + 1);
        if j + |pat| <= |t| {
          assert t[j..j + |pat|] == s[j + 1..j + 1 + |pat|];
        }
      }
      RemoveFirstAbsent(t, pat);
      assert [s[0]] + t == s;
    }
  }
}
