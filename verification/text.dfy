/** The string handling the pipeline relies on: prefix/suffix tests, Python's
    `str.replace`, `str.strip`/`rstrip` of one character, and the `int()` and
    `float()` conversions applied to plain decimal text. */
module Text {
  import opened Wrappers

  predicate StartsWith(s: string, prefix: string) {
    prefix <= s
  }

  predicate EndsWith(s: string, suffix: string) {
    |suffix| <= |s| && s[|s| - |suffix|..] == suffix
  }

  // ---------------------------------------------------------------------------
  // Removing and replacing

  /** `s.replace(c, "")`: every occurrence of `c` dropped, the rest kept in order. */
  function Without(s: string, c: char): (r: string)
    ensures c !in r
    ensures |r| <= |s|
    ensures forall x :: x in r <==> x in s && x != c
    ensures c !in s ==> r == s
  {
    if |s| == 0 then ""
    else (if s[0] == c then "" else [s[0]]) + Without(s[1..], c)
  }

  /** Removing a character distributes over concatenation, so text assembled page by
      page can be stripped page by page. */
  lemma {:induction false} WithoutAppend(a: string, b: string, c: char)
    ensures Without(a + b, c) == Without(a, c) + Without(b, c)
    decreases |a|
  {
    if |a| == 0 {
      assert a + b == b;
    } else {
      var head := if a[0] == c then "" else [a[0]];
      calc {
        Without(a + b, c);
        { assert (a + b)[0] == a[0]; }
        head + Without((a + b)[1..], c);
        { assert (a + b)[1..] == a[1..] + b; }
        head + Without(a[1..] + b, c);
        { WithoutAppend(a[1..], b, c); }
        head + (Without(a[1..], c) + Without(b, c));
        (head + Without(a[1..], c)) + Without(b, c);
        Without(a, c) + Without(b, c);
      }
    }
  }

  /** Removing a character twice is removing it once. */
  lemma WithoutIdempotent(s: string, c: char)
    ensures Without(Without(s, c), c) == Without(s, c)
  {
  }

  /** Python's `s.replace(pat, rep)`: occurrences found left to right, never
      overlapping, each replaced. */
  function ReplaceAll(s: string, pat: string, rep: string): (r: string)
    requires |pat| > 0
    decreases |s|
  {
    if |s| < |pat| then s
    else if s[..|pat|] == pat then rep + ReplaceAll(s[|pat|..], pat, rep)
    else [s[0]] + ReplaceAll(s[1..], pat, rep)
  }

  /** Replacement leaves alone a head of `s` in which the pattern cannot start. */
  lemma {:induction false} ReplaceKeepsHead(s: string, pat: string, rep: string, n: nat)
    requires |pat| > 0 && n <= |s|
    requires forall i :: 0 <= i < n ==> s[i] != pat[0]
    ensures n <= |ReplaceAll(s, pat, rep)| && ReplaceAll(s, pat, rep)[..n] == s[..n]
    decreases n
  {
    if n > 0 && |s| >= |pat| {
      assert s[..|pat|] != pat by {
        assert s[..|pat|][0] == s[0];
      }
      ReplaceKeepsHead(s[1..], pat, rep, n - 1);
      assert ReplaceAll(s, pat, rep) == [s[0]] + ReplaceAll(s[1..], pat, rep);
      assert s[..n] == [s[0]] + s[1..][..n - 1];
    }
  }

  /** `pat` occurs in `s` starting at index `i`. */
  predicate OccursAt(s: string, pat: string, i: int) {
    0 <= i <= |s| - |pat| && s[i..i + |pat|] == pat
  }

  ghost predicate Contains(s: string, pat: string) {
    exists i :: OccursAt(s, pat, i)
  }

  /** A string without the pattern comes back unchanged. */
  lemma {:induction false} ReplaceAbsent(s: string, pat: string, rep: string)
    requires |pat| > 0
    requires !Contains(s, pat)
    ensures ReplaceAll(s, pat, rep) == s
    decreases |s|
  {
    if |s| >= |pat| {
      assert OccursAt(s, pat, 0) <==> s[..|pat|] == pat;
      assert forall i :: OccursAt(s[1..], pat, i) ==> OccursAt(s, pat, i + 1) by {
        forall i | OccursAt(s[1..], pat, i) ensures OccursAt(s, pat, i + 1) {
          assert s[1..][i..i + |pat|] == s[i + 1..i + 1 + |pat|];
        }
      }
      ReplaceAbsent(s[1..], pat, rep);
    }
  }

  /** Replacing a pattern by a longer one lengthens every string that contains it;
      so a replaced key never equals the key it came from. */
  lemma {:induction false} ReplaceLengthens(s: string, pat: string, rep: string)
    requires |pat| > 0 && |rep| > |pat|
    ensures |ReplaceAll(s, pat, rep)| >= |s|
    ensures Contains(s, pat) ==> |ReplaceAll(s, pat, rep)| > |s|
    decreases |s|
  {
    if |s| < |pat| {
      assert forall i :: !OccursAt(s, pat, i);
    } else if s[..|pat|] == pat {
      ReplaceLengthens(s[|pat|..], pat, rep);
    } else {
      ReplaceLengthens(s[1..], pat, rep);
      assert !OccursAt(s, pat, 0);
      assert forall i :: OccursAt(s, pat, i) && i != 0 ==> OccursAt(s[1..], pat, i - 1) by {
        forall i | OccursAt(s, pat, i) && i != 0 ensures OccursAt(s[1..], pat, i - 1) {
          assert s[1..][i - 1..i - 1 + |pat|] == s[i..i + |pat|];
        }
      }
    }
  }

  /** `s.rstrip(c)`: trailing copies of `c` removed. */
  function RStrip(s: string, c: char): (r: string)
    ensures r <= s
    ensures |r| == 0 || r[|r| - 1] != c
    ensures forall i :: |r| <= i < |s| ==> s[i] == c
    decreases |s|
  {
    if |s| > 0 && s[|s| - 1] == c then RStrip(s[..|s| - 1], c) else s
  }

  /** `s.lstrip(c)`: leading copies of `c` removed. */
  function LStrip(s: string, c: char): (r: string)
    ensures |r| <= |s| && r == s[|s| - |r|..]
    ensures |r| == 0 || r[0] != c
    ensures forall i :: 0 <= i < |s| - |r| ==> s[i] == c
    decreases |s|
  {
    if |s| > 0 && s[0] == c then LStrip(s[1..], c) else s
  }

  /** `r` is the slice of `s` from `k` on, with only copies of `c` around it. */
  predicate Trimmed(s: string, c: char, r: string, k: int) {
    && 0 <= k <= |s| - |r| && r == s[k..k + |r|]
    && (forall i :: 0 <= i < k ==> s[i] == c)
    && (forall i :: k + |r| <= i < |s| ==> s[i] == c)
  }

  /** `s.strip(c)`: both ends. */
  function Strip(s: string, c: char): (r: string)
    ensures |r| == 0 || (r[0] != c && r[|r| - 1] != c)
    ensures exists k :: Trimmed(s, c, r, k)
  {
    StripTrims(s, c);
    RStrip(LStrip(s, c), c)
  }

  /** Stripping both ends keeps a slice of the input. */
  lemma StripTrims(s: string, c: char)
    ensures Trimmed(s, c, RStrip(LStrip(s, c), c), |s| - |LStrip(s, c)|)
  {
    var left := LStrip(s, c);
    TrimmedOf(s, c, left, RStrip(left, c));
  }

  /** A prefix of a suffix, with only `c` cut off on either side, is trimmed. */
  lemma TrimmedOf(s: string, c: char, left: string, r: string)
    requires |left| <= |s| && left == s[|s| - |left|..]
    requires forall i :: 0 <= i < |s| - |left| ==> s[i] == c
    requires r <= left
    requires forall i :: |r| <= i < |left| ==> left[i] == c
    ensures Trimmed(s, c, r, |s| - |left|)
  {
    var k := |s| - |left|;
    assert r == s[k..k + |r|] by {
      assert r == left[..|r|];
    }
    forall i | k + |r| <= i < |s|
      ensures s[i] == c
    {
      assert s[i] == left[i - k];
    }
  }

  // ---------------------------------------------------------------------------
  // Decimal numbers

  predicate IsDigit(ch: char) {
    '0' <= ch <= '9'
  }

  predicate AllDigits(s: string) {
    forall i :: 0 <= i < |s| ==> IsDigit(s[i])
  }

  function DigitValue(ch: char): nat
    requires IsDigit(ch)
  {
    ch as int - '0' as int
  }

  function DigitChar(d: nat): (ch: char)
    requires d < 10
    ensures IsDigit(ch) && DigitValue(ch) == d
  {
    ('0' as int + d) as char
  }

  /** The value of a run of decimal digits, most significant first. */
  function DigitsValue(s: string): nat
    requires AllDigits(s)
    decreases |s|
  {
    if |s| == 0 then 0 else 10 * DigitsValue(s[..|s| - 1]) + DigitValue(s[|s| - 1])
  }

  function Pow10(n: nat): (r: nat)
    ensures r >= 1
  {
    if n == 0 then 1 else 10 * Pow10(n - 1)
  }

  /** `int(s)` for a string of one or more decimal digits. */
  function ParseNat(s: string): (r: Option<nat>)
    ensures r.Some? <==> |s| > 0 && AllDigits(s)
  {
    if |s| > 0 && AllDigits(s) then Some(DigitsValue(s)) else None
  }

  /** A sign followed by one or more digits. */
  predicate SignedDigits(s: string) {
    |s| > 1 && (s[0] == '-' || s[0] == '+') && AllDigits(s[1..])
  }

  /** `int(s)` for an optionally signed run of decimal digits: anything else is
      refused. */
  function ParseInt(s: string): (r: Option<int>)
    ensures r.Some? <==> (|s| > 0 && AllDigits(s)) || SignedDigits(s)
    ensures (|s| > 0 && AllDigits(s)) ==> r == Some(DigitsValue(s))
    ensures SignedDigits(s) && s[0] == '-' ==> r == Some(-(DigitsValue(s[1..]) as int))
    ensures SignedDigits(s) && s[0] == '+' ==> r == Some(DigitsValue(s[1..]) as int)
  {
    if |s| > 0 && (s[0] == '-' || s[0] == '+') then
      match ParseNat(s[1..])
      case Some(n) => var v: int := if s[0] == '-' then 0 - n as int else n; Some(v)
      case None => None
    else
      match ParseNat(s)
      case Some(n) => Some(n)
      case None => None
  }

  function IndexOf(s: string, c: char): (r: Option<nat>)
    ensures r.Some? ==> r.value < |s| && s[r.value] == c && c !in s[..r.value]
    ensures r.None? ==> c !in s
  {
    if |s| == 0 then None
    else if s[0] == c then Some(0)
    else match IndexOf(s[1..], c)
      case Some(i) => assert s[..i + 1] == [s[0]] + s[1..][..i]; Some(i + 1)
      case None => None
  }

  /** Digits on both sides of a point at `k`, and at least one digit in all. */
  predicate PointAt(s: string, k: int) {
    0 <= k < |s| && s[k] == '.' && |s| > 1 && AllDigits(s[..k]) && AllDigits(s[k + 1..])
  }

  /** Unsigned decimal text: a nonempty digit run, or digits around one point. */
  predicate DecimalText(s: string) {
    (|s| > 0 && AllDigits(s)) || exists k :: 0 <= k < |s| && PointAt(s, k)
  }

  /** The value of digits around a point: the whole part plus the fraction. */
  function PointValue(s: string, k: int): real
    requires PointAt(s, k)
  {
    DigitsValue(s[..k]) as real + DigitsValue(s[k + 1..]) as real / Pow10(|s| - k - 1) as real
  }

  /** `float(s)` for unsigned decimal text: digits with at most one point and at
      least one digit (`"12"`, `"0.5"`, `".5"`, `"5."`). */
  function ParseUnsignedDecimal(s: string): (r: Option<real>)
    ensures r.Some? <==> DecimalText(s)
    ensures (|s| > 0 && AllDigits(s)) ==> r == Some(DigitsValue(s) as real)
    ensures forall k :: PointAt(s, k) ==> r == Some(PointValue(s, k))
    ensures r.Some? ==> r.value >= 0.0
  {
    PointIsFirst(s);
    match IndexOf(s, '.')
    case None =>
      (match ParseNat(s) case Some(n) => Some(n as real) case None => None)
    case Some(k) =>
      var whole, frac := s[..k], s[k + 1..];
      assert !AllDigits(s) by {
        assert !IsDigit(s[k]);
      }
      if AllDigits(whole) && AllDigits(frac) && |whole| + |frac| > 0 then
        assert PointAt(s, k);
        Some(DigitsValue(whole) as real + DigitsValue(frac) as real / Pow10(|frac|) as real)
      else
        assert !PointAt(s, k);
        None
  }

  /** A point in digit text is its first point, and digit text has none. */
  lemma PointIsFirst(s: string)
    ensures |s| > 0 && AllDigits(s) ==> IndexOf(s, '.').None?
    ensures forall k :: PointAt(s, k) ==> IndexOf(s, '.') == Some(k)
  {
    if |s| > 0 && AllDigits(s) {
      assert '.' !in s by {
        forall i | 0 <= i < |s| ensures s[i] != '.' {
          assert IsDigit(s[i]);
        }
      }
    }
    forall k | PointAt(s, k) ensures IndexOf(s, '.') == Some(k) {
      var r := IndexOf(s, '.');
      assert r.Some? by {
        assert s[k] == '.';
      }
    }
  }

  /** `float(s)` for optionally signed decimal text: the sign applies to the
      unsigned value after it. */
  function ParseDecimal(s: string): (r: Option<real>)
    ensures r.Some? <==> DecimalText(s) || (|s| > 0 && (s[0] == '-' || s[0] == '+') && DecimalText(s[1..]))
    ensures (|s| > 0 && AllDigits(s)) ==> r == Some(DigitsValue(s) as real)
    ensures forall k :: PointAt(s, k) ==> r == Some(PointValue(s, k))
    ensures r.Some? && s[0] == '-' ==> r.value == -ParseUnsignedDecimal(s[1..]).value
    ensures r.Some? && s[0] == '+' ==> r.value == ParseUnsignedDecimal(s[1..]).value
  {
    if |s| > 0 && (s[0] == '-' || s[0] == '+') then
      match ParseUnsignedDecimal(s[1..])
      case Some(x) => Some(if s[0] == '-' then -x else x)
      case None => None
    else ParseUnsignedDecimal(s)
  }

  /** Python's `int(x)` of a float: rounds toward zero, unlike Dafny's `Floor`. */
  function Truncate(x: real): (r: int)
    ensures x >= 0.0 ==> r as real <= x < r as real + 1.0
    ensures x < 0.0 ==> r as real - 1.0 < x <= r as real
  {
    if x >= 0.0 then x.Floor else -((-x).Floor)
  }

  /** Decimal text for a natural number; the inverse of `ParseNat`. */
  function ShowNat(n: nat): (r: string)
    ensures |r| > 0 && AllDigits(r)
  {
    if n < 10 then [DigitChar(n)] else ShowNat(n / 10) + [DigitChar(n % 10)]
  }

  /** Decimal text for an integer, with a minus sign when negative. */
  function ShowInt(n: int): (r: string)
    ensures |r| > 0
  {
    if n < 0 then "-" + ShowNat(-n) else ShowNat(n)
  }

  lemma {:induction false} DigitsOfShowNat(n: nat)
    ensures DigitsValue(ShowNat(n)) == n
  {
    if n >= 10 {
      var s := ShowNat(n);
      assert s[..|s| - 1] == ShowNat(n / 10);
      DigitsOfShowNat(n / 10);
    }
  }

  /** Reading back printed decimal text yields the number printed. */
  lemma ParseShowNat(n: nat)
    ensures ParseNat(ShowNat(n)) == Some(n)
  {
    DigitsOfShowNat(n);
  }

  lemma ParseShowInt(n: int)
    ensures ParseInt(ShowInt(n)) == Some(n)
  {
    if n < 0 {
      assert ShowInt(n)[1..] == ShowNat(-n);
      assert IsDigit(ShowNat(-n)[0]);
      ParseShowNat(-n);
    } else {
      assert IsDigit(ShowNat(n)[0]);
      ParseShowNat(n);
    }
  }

  /** `int(float(s))` of printed integer text gives the integer back. */
  lemma TruncateParseDecimalShowInt(n: int)
    ensures ParseDecimal(ShowInt(n)).Some?
    ensures Truncate(ParseDecimal(ShowInt(n)).value) == n
  {
    var s := ShowInt(n);
    if n < 0 {
      assert s[1..] == ShowNat(-n);
      assert IsDigit(ShowNat(-n)[0]);
      assert '.' !in ShowNat(-n);
      DigitsOfShowNat(-n);
    } else {
      assert IsDigit(s[0]);
      DigitsOfShowNat(n);
    }
  }
}
