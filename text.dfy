/**
 * The string operations the modelled code applies to table fields: `int()` and
 * `str()` on integers, `strptime`/`strftime` with the format '%Y-%m-%d',
 * `s.split('/')[-1]` and the substring test `p in s`.
 */
module Text {
  import opened Wrappers
  import opened Dates

  predicate IsDigit(c: char) {
    '0' <= c <= '9'
  }

  predicate AllDigits(s: string) {
    forall i :: 0 <= i < |s| ==> IsDigit(s[i])
  }

  function DigitValue(c: char): (n: int)
    requires IsDigit(c)
    ensures 0 <= n <= 9
  {
    c as int - '0' as int
  }

  function DigitChar(n: int): (c: char)
    requires 0 <= n <= 9
    ensures IsDigit(c) && DigitValue(c) == n
  {
    ('0' as int + n) as char
  }

  /** The number a non-empty run of ASCII digits denotes, most significant first. */
  function DigitsValue(s: string): nat
    requires AllDigits(s)
    decreases |s|
  {
    if |s| == 0 then 0 else DigitsValue(s[..|s| - 1]) * 10 + DigitValue(s[|s| - 1])
  }

  /** `str(n)` for a natural number: decimal digits without leading zeros. */
  function NatToString(n: nat): (s: string)
    ensures |s| > 0 && AllDigits(s)
    decreases n
  {
    if n < 10 then [DigitChar(n)] else NatToString(n / 10) + [DigitChar(n % 10)]
  }

  /** `str(n)` for any integer. */
  function IntToString(n: int): (s: string)
    ensures |s| > 0
  {
    if n < 0 then "-" + NatToString(-n) else NatToString(n)
  }

  /**
   * `int(s)`: an optional sign followed by one or more ASCII digits; any other
   * text raises `ValueError` (here `None`).
   */
  function ParseInt(s: string): (r: Option<int>)
    ensures r.Some? ==> |s| > 0
  {
    if |s| > 0 && (s[0] == '-' || s[0] == '+') then
      var body := s[1..];
      if |body| > 0 && AllDigits(body) then
        var v: int := DigitsValue(body);
        Some(if s[0] == '-' then -v else v)
      else
        None
    else if |s| > 0 && AllDigits(s) then
      Some(DigitsValue(s))
    else
      None
  }

  lemma {:induction false} NatToStringRoundTrip(n: nat)
    ensures DigitsValue(NatToString(n)) == n
    decreases n
  {
    var s := NatToString(n);
    if n >= 10 {
      NatToStringRoundTrip(n / 10);
      assert s[..|s| - 1] == NatToString(n / 10);
    }
  }

  /** `int(str(n)) == n`: counts written with `str` are read back unchanged. */
  lemma IntToStringRoundTrip(n: int)
    ensures ParseInt(IntToString(n)) == Some(n)
  {
    if n < 0 {
      NatToStringRoundTrip(-n);
      assert IntToString(n)[1..] == NatToString(-n);
    } else {
      NatToStringRoundTrip(n);
      assert IntToString(n)[0] != '-' && IntToString(n)[0] != '+';
    }
  }

  /** `s.split('/')[-1]`: the text after the last '/', or all of `s` when it has none. */
  function LastSegment(s: string): string
    decreases |s|
  {
    if |s| == 0 then ""
    else if s[|s| - 1] == '/' then ""
    else LastSegment(s[..|s| - 1]) + [s[|s| - 1]]
  }

  /** The last segment is a suffix of `s` without '/', preceded by a '/' unless it is all of `s`. */
  lemma {:induction false} LastSegmentIsSuffix(s: string)
    ensures var r := LastSegment(s);
      |r| <= |s| && s[|s| - |r|..] == r && '/' !in r && (|r| < |s| ==> s[|s| - |r| - 1] == '/')
    decreases |s|
  {
    if |s| > 0 && s[|s| - 1] != '/' {
      var prev := LastSegment(s[..|s| - 1]);
      LastSegmentIsSuffix(s[..|s| - 1]);
      assert s[|s| - |prev| - 1..] == s[..|s| - 1][|s| - 1 - |prev|..] + [s[|s| - 1]];
      assert |prev| < |s| - 1 ==> s[|s| - |prev| - 2] == s[..|s| - 1][|s| - 1 - |prev| - 1];
    }
  }

  /** Python's `p in s` on strings: `p` occurs in `s` at some position. */
  predicate IsSubstring(p: string, s: string)
    decreases |s|
  {
    p <= s || (|s| > 0 && IsSubstring(p, s[1..]))
  }

  /** `p` is the slice of `s` that starts at position `k`. */
  predicate OccursAt(p: string, s: string, k: nat) {
    k + |p| <= |s| && s[k..k + |p|] == p
  }

  lemma {:induction false} SubstringAt(p: string, s: string, k: nat)
    requires OccursAt(p, s, k)
    ensures IsSubstring(p, s)
    decreases k
  {
    if k > 0 {
      assert s[1..][k - 1..k - 1 + |p|] == p;
      SubstringAt(p, s[1..], k - 1);
    } else {
      assert s[..|p|] == p;
    }
  }

  /** `p in s` holds exactly when `p` is the slice of `s` at some position. */
  lemma {:induction false} SubstringIsSomeSlice(p: string, s: string)
    ensures IsSubstring(p, s) <==> exists k: nat :: OccursAt(p, s, k)
    decreases |s|
  {
    if exists k: nat :: OccursAt(p, s, k) {
      var k: nat :| OccursAt(p, s, k);
      SubstringAt(p, s, k);
    }
    if IsSubstring(p, s) {
      if p <= s {
        assert OccursAt(p, s, 0);
      } else {
        SubstringIsSomeSlice(p, s[1..]);
        var k: nat :| OccursAt(p, s[1..], k);
        assert s[k + 1..k + 1 + |p|] == s[1..][k..k + |p|];
        assert OccursAt(p, s, k + 1);
      }
    }
  }

  /** A Python `datetime.date`: a valid date with a year from 1 to 9999. */
  predicate PyDate(d: Date) {
    ValidDate(d) && 1 <= d.year <= 9999
  }

  /** CPython's `%m` pattern `1[0-2]|0[1-9]|[1-9]`: the month and the characters it takes. */
  function MatchMonth(s: string): (r: Option<(int, nat)>)
    ensures r.Some? ==> 1 <= r.value.0 <= 12 && 1 <= r.value.1 <= 2 && r.value.1 <= |s|
  {
    if |s| >= 2 && s[0] == '1' && '0' <= s[1] <= '2' then Some((10 + DigitValue(s[1]), 2))
    else if |s| >= 2 && s[0] == '0' && '1' <= s[1] <= '9' then Some((DigitValue(s[1]), 2))
    else if |s| >= 1 && '1' <= s[0] <= '9' then Some((DigitValue(s[0]), 1))
    else None
  }

  /** CPython's `%d` pattern `3[01]|[12]\d|0[1-9]|[1-9]| [1-9]`: the first alternative that matches. */
  function MatchDay(s: string): (r: Option<(int, nat)>)
    ensures r.Some? ==> 1 <= r.value.0 <= 31 && 1 <= r.value.1 <= 2 && r.value.1 <= |s|
  {
    if |s| >= 2 && s[0] == '3' && '0' <= s[1] <= '1' then Some((30 + DigitValue(s[1]), 2))
    else if |s| >= 2 && '1' <= s[0] <= '2' && IsDigit(s[1]) then Some((10 * DigitValue(s[0]) + DigitValue(s[1]), 2))
    else if |s| >= 2 && s[0] == '0' && '1' <= s[1] <= '9' then Some((DigitValue(s[1]), 2))
    else if |s| >= 1 && '1' <= s[0] <= '9' then Some((DigitValue(s[0]), 1))
    else if |s| >= 2 && s[0] == ' ' && '1' <= s[1] <= '9' then Some((DigitValue(s[1]), 2))
    else None
  }

  /**
   * `datetime.strptime(s, '%Y-%m-%d').date()`: four digits, '-', a month, '-', a day
   * and nothing after it, naming a real date of year 1 or later; anything else
   * raises `ValueError` (here `None`).
   */
  function ParseIsoDate(s: string): (r: Option<Date>)
    ensures r.Some? ==> PyDate(r.value)
  {
    if |s| < 5 || !AllDigits(s[..4]) || s[4] != '-' then None
    else
      FourDigitsValue(s[..4]);
      var year := DigitsValue(s[..4]);
      match MatchMonth(s[5..])
      case None => None
      case Some((month, used)) =>
        var rest := s[5 + used..];
        if |rest| == 0 || rest[0] != '-' then None
        else
          match MatchDay(rest[1..])
          case None => None
          case Some((day, dayUsed)) =>
            if dayUsed != |rest| - 1 then None            // unconverted data remains
            else if year == 0 || day > DaysInMonth(year, month) then None
            else Some(Date(year, month, day))
  }

  function TwoDigits(n: int): (s: string)
    requires 0 <= n <= 99
    ensures |s| == 2 && AllDigits(s) && DigitValue(s[0]) * 10 + DigitValue(s[1]) == n
  {
    [DigitChar(n / 10), DigitChar(n % 10)]
  }

  /** `d.strftime('%Y-%m-%d')`: zero-padded year, month and day. */
  function FormatIsoDate(d: Date): (s: string)
    requires PyDate(d)
    ensures |s| == 10 && s[4] == '-' && s[7] == '-'
  {
    TwoDigits(d.year / 100) + TwoDigits(d.year % 100) + "-" + TwoDigits(d.month) + "-" + TwoDigits(d.day)
  }

  lemma FourDigitsValue(s: string)
    requires |s| == 4 && AllDigits(s)
    ensures DigitsValue(s) ==
      (DigitValue(s[0]) * 10 + DigitValue(s[1])) * 100 + DigitValue(s[2]) * 10 + DigitValue(s[3])
  {
    assert s[..3][..2] == s[..2] && s[..2][..1] == s[..1] && s[..1][..0] == [];
    assert DigitsValue(s[..1]) == DigitValue(s[0]);
    assert DigitsValue(s[..2]) == DigitValue(s[0]) * 10 + DigitValue(s[1]);
    assert DigitsValue(s[..3]) == DigitsValue(s[..2]) * 10 + DigitValue(s[2]);
    assert DigitsValue(s) == DigitsValue(s[..3]) * 10 + DigitValue(s[3]);
  }

  /** The first four characters of a formatted date are the year's digits. */
  lemma FormattedYear(d: Date)
    requires PyDate(d)
    ensures AllDigits(FormatIsoDate(d)[..4]) && DigitsValue(FormatIsoDate(d)[..4]) == d.year
  {
    var s := FormatIsoDate(d);
    assert s[..4] == TwoDigits(d.year / 100) + TwoDigits(d.year % 100);
    FourDigitsValue(s[..4]);
  }

  /** `%m` reads the two zero-padded month digits back. */
  lemma FormattedMonth(d: Date)
    requires PyDate(d)
    ensures MatchMonth(FormatIsoDate(d)[5..]) == Some((d.month, 2))
  {
    var s := FormatIsoDate(d);
    assert s[5..][..2] == TwoDigits(d.month);
  }

  /** `%d` reads the two zero-padded day digits back, and they end the text. */
  lemma FormattedDay(d: Date)
    requires PyDate(d)
    ensures FormatIsoDate(d)[8..] == TwoDigits(d.day)
    ensures MatchDay(FormatIsoDate(d)[8..]) == Some((d.day, 2))
  {
    var s := FormatIsoDate(d);
    assert s[8..] == TwoDigits(d.day);
  }

  /** Dates written with `strftime('%Y-%m-%d')` are read back unchanged by `strptime`. */
  lemma IsoDateRoundTrip(d: Date)
    requires PyDate(d)
    ensures ParseIsoDate(FormatIsoDate(d)) == Some(d)
  {
    var s := FormatIsoDate(d);
    FormattedYear(d);
    FormattedMonth(d);
    FormattedDay(d);
    assert s[5 + 2..][1..] == s[8..];
  }
}
