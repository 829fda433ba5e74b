/**
 * The display-date column of `process_data`: a local wall-clock reading
 * rendered with `strftime('%d/%m/%Y %H:%M')`, and its inverse.
 */
module DisplayDate {
  import opened Wrappers

  /** pandas timestamps lie between the years 1677 and 2262, so `%Y` always has four digits. */
  type Year = y: int | 1000 <= y <= 9999 witness 2000
  type Month = m: int | 1 <= m <= 12 witness 1
  type DayOfMonth = d: int | 1 <= d <= 31 witness 1
  type Hour = h: int | 0 <= h < 24
  type Minute = m: int | 0 <= m < 60

  /** The São Paulo wall-clock reading of a timestamp. */
  datatype DateTime = DateTime(year: Year, month: Month, day: DayOfMonth, hour: Hour, minute: Minute)

  function DigitChar(d: int): char
    requires 0 <= d < 10
  {
    ('0' as int + d) as char
  }

  function DigitValue(c: char): Option<int> {
    if '0' <= c <= '9' then Some(c as int - '0' as int) else None
  }

  lemma DigitRoundTrip(d: int)
    requires 0 <= d < 10
    ensures DigitValue(DigitChar(d)) == Some(d)
  {
  }

  /** `n` zero-padded to `width` digits. */
  function Padded(n: nat, width: nat): (s: string)
    requires n < Pow10(width)
    ensures |s| == width
    ensures forall i :: 0 <= i < width ==> '0' <= s[i] <= '9'
  {
    if width == 0 then "" else Padded(n / 10, width - 1) + [DigitChar(n % 10)]
  }

  function Pow10(k: nat): (p: nat)
    ensures p >= 1
  {
    if k == 0 then 1 else 10 * Pow10(k - 1)
  }

  /** The number a string of decimal digits spells, when it is one. */
  function ParseDigits(s: string): Option<nat> {
    if s == [] then Some(0)
    else
      match (ParseDigits(s[..|s| - 1]), DigitValue(s[|s| - 1]))
      case (Some(high), Some(d)) => Some(10 * high + d)
      case _ => None
  }

  lemma {:induction false} PaddedRoundTrip(n: nat, width: nat)
    requires n < Pow10(width)
    ensures ParseDigits(Padded(n, width)) == Some(n)
  {
    if width > 0 {
      var s := Padded(n, width);
      assert s[..|s| - 1] == Padded(n / 10, width - 1);
      PaddedRoundTrip(n / 10, width - 1);
      DigitRoundTrip(n % 10);
    }
  }

  lemma {:induction false} ParsedPadded(s: string, n: nat)
    requires ParseDigits(s) == Some(n)
    ensures n < Pow10(|s|) && Padded(n, |s|) == s
  {
    if s != [] {
      var init, last := s[..|s| - 1], s[|s| - 1];
      var high := ParseDigits(init).value;
      var d := DigitValue(last).value;
      assert n == 10 * high + d && 0 <= d < 10;
      ParsedPadded(init, high);
      ShiftDigit(high, d, |init|);
      assert Padded(n, |s|) == Padded(high, |init|) + [DigitChar(d)];
      assert DigitChar(d) == last;
      assert s == init + [last];
    }
  }

  /** Appending digit d to a number below 10^k gives one below 10^(k+1),
      from which division by ten recovers both parts. */
  lemma ShiftDigit(high: nat, d: int, k: nat)
    requires high < Pow10(k) && 0 <= d < 10
    ensures 10 * high + d < Pow10(k + 1)
    ensures (10 * high + d) / 10 == high && (10 * high + d) % 10 == d
  {
  }

  /** `%d/%m/%Y %H:%M`. */
  function Format(t: DateTime): (s: string)
    ensures |s| == 16
    ensures s[2] == '/' && s[5] == '/' && s[10] == ' ' && s[13] == ':'
  {
    Padded(t.day, 2) + "/" + Padded(t.month, 2) + "/" + Padded(t.year, 4) + " "
      + Padded(t.hour, 2) + ":" + Padded(t.minute, 2)
  }

  /** Reads a `DD/MM/YYYY HH:MM` string back into a wall-clock reading. */
  function Parse(s: string): Option<DateTime> {
    if |s| != 16 || s[2] != '/' || s[5] != '/' || s[10] != ' ' || s[13] != ':' then None
    else
      match (ParseDigits(s[0..2]), ParseDigits(s[3..5]), ParseDigits(s[6..10]),
             ParseDigits(s[11..13]), ParseDigits(s[14..16]))
      case (Some(d), Some(mo), Some(y), Some(h), Some(mi)) =>
        if 1000 <= y <= 9999 && 1 <= mo <= 12 && 1 <= d <= 31 && h < 24 && mi < 60
        then Some(DateTime(y, mo, d, h, mi))
        else None
      case _ => None
  }

  /** Every display date reads back as the reading it came from. */
  lemma FormatRoundTrip(t: DateTime)
    ensures Parse(Format(t)) == Some(t)
  {
    var s := Format(t);
    assert s[0..2] == Padded(t.day, 2);
    assert s[3..5] == Padded(t.month, 2);
    assert s[6..10] == Padded(t.year, 4);
    assert s[11..13] == Padded(t.hour, 2);
    assert s[14..16] == Padded(t.minute, 2);
    PaddedRoundTrip(t.day, 2);
    PaddedRoundTrip(t.month, 2);
    PaddedRoundTrip(t.year, 4);
    PaddedRoundTrip(t.hour, 2);
    PaddedRoundTrip(t.minute, 2);
  }

  /** A string that parses is the display date of what it parses to. */
  lemma ParseRoundTrip(s: string)
    requires Parse(s).Some?
    ensures Format(Parse(s).value) == s
  {
    var t := Parse(s).value;
    var dd, mm, yyyy, hh, mi := s[0..2], s[3..5], s[6..10], s[11..13], s[14..16];
    assert ParseDigits(dd) == Some(t.day as nat) && ParseDigits(mm) == Some(t.month as nat)
        && ParseDigits(yyyy) == Some(t.year as nat) && ParseDigits(hh) == Some(t.hour as nat)
        && ParseDigits(mi) == Some(t.minute as nat);
    ParsedPadded(dd, t.day);
    ParsedPadded(mm, t.month);
    ParsedPadded(yyyy, t.year);
    ParsedPadded(hh, t.hour);
    ParsedPadded(mi, t.minute);
    assert Format(t) == dd + "/" + mm + "/" + yyyy + " " + hh + ":" + mi;
    SplitDisplay(s);
  }

  lemma SplitDisplay(s: string)
    requires |s| == 16 && s[2] == '/' && s[5] == '/' && s[10] == ' ' && s[13] == ':'
    ensures s == s[0..2] + "/" + s[3..5] + "/" + s[6..10] + " " + s[11..13] + ":" + s[14..16]
  {
    var r := s[0..2] + "/" + s[3..5] + "/" + s[6..10] + " " + s[11..13] + ":" + s[14..16];
    assert |r| == 16;
    forall i | 0 <= i < 16 ensures r[i] == s[i] {
    }
  }
}
