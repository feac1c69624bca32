/** The two `strftime` layouts the sensor generator writes,
    `%Y-%m-%dT%H:%M:%S` followed by a fixed suffix ("Z" or "+05:30"), and a
    parser for the same layout that is its exact inverse. */
module IsoFormat {
  import opened Wrappers
  import opened Calendar

  /** Length of the `%Y-%m-%dT%H:%M:%S` part. */
  const StampLength := 19

  predicate IsDigit(c: char) {
    '0' <= c <= '9'
  }

  function DigitChar(n: int): (c: char)
    requires 0 <= n <= 9
    ensures IsDigit(c) && DigitValue(c) == n
  {
    ('0' as int + n) as char
  }

  function DigitValue(c: char): int
    requires IsDigit(c)
  {
    c as int - '0' as int
  }

  /** `%m`, `%d`, `%H`, `%M`, `%S`: two digits, zero padded. */
  function Pad2(n: int): (s: string)
    requires 0 <= n <= 99
    ensures |s| == 2 && IsDigit(s[0]) && IsDigit(s[1])
    ensures DigitValue(s[0]) * 10 + DigitValue(s[1]) == n
  {
    [DigitChar(n / 10), DigitChar(n % 10)]
  }

  /** `%Y` for the years 1000 to 9999 that the generator reaches; smaller
      years are zero padded here. */
  function Pad4(n: int): (s: string)
    requires 0 <= n <= 9999
    ensures |s| == 4 && forall i :: 0 <= i < 4 ==> IsDigit(s[i])
    ensures Number4(s) == n
  {
    var s := Pad2(n / 100) + Pad2(n % 100);
    assert s[0..2] == Pad2(n / 100) && s[2..4] == Pad2(n % 100);
    s
  }

  function Number2(s: string): int
    requires |s| == 2 && IsDigit(s[0]) && IsDigit(s[1])
  {
    DigitValue(s[0]) * 10 + DigitValue(s[1])
  }

  function Number4(s: string): int
    requires |s| == 4 && forall i :: 0 <= i < 4 ==> IsDigit(s[i])
  {
    Number2(s[0..2]) * 100 + Number2(s[2..4])
  }

  /** `t.strftime("%Y-%m-%dT%H:%M:%S" + suffix)`. */
  function Format(t: DateTime, suffix: string): (s: string)
    requires ValidDateTime(t)
    ensures |s| == StampLength + |suffix| && s[StampLength..] == suffix
  {
    Pad4(t.date.year) + "-" + Pad2(t.date.month) + "-" + Pad2(t.date.day)
      + "T" + Pad2(t.hour) + ":" + Pad2(t.minute) + ":" + Pad2(t.second) + suffix
  }

  predicate IsSeparatorPosition(i: int) {
    i == 4 || i == 7 || i == 10 || i == 13 || i == 16
  }

  /** `s` has the layout: digits, the five separators, then the suffix. */
  predicate WellFormed(s: string, suffix: string) {
    && |s| == StampLength + |suffix|
    && s[4] == '-' && s[7] == '-' && s[10] == 'T' && s[13] == ':' && s[16] == ':'
    && (forall i :: 0 <= i < StampLength && !IsSeparatorPosition(i) ==> IsDigit(s[i]))
    && s[StampLength..] == suffix
  }

  /** Reads back a string of the layout above; `None` when the layout is
      wrong or the fields do not name a valid date and time. */
  function Parse(s: string, suffix: string): Option<DateTime> {
    if !WellFormed(s, suffix) then None
    else
      var t := DateTime(Date(Number4(s[0..4]), Number2(s[5..7]), Number2(s[8..10])),
                        Number2(s[11..13]), Number2(s[14..16]), Number2(s[17..19]));
      if ValidDateTime(t) then Some(t) else None
  }

  /** Parsing undoes formatting. */
  lemma ParseFormat(t: DateTime, suffix: string)
    requires ValidDateTime(t)
    ensures Parse(Format(t, suffix), suffix) == Some(t)
  {
    var s := Format(t, suffix);
    var y, mo, d := Pad4(t.date.year), Pad2(t.date.month), Pad2(t.date.day);
    var h, mi, se := Pad2(t.hour), Pad2(t.minute), Pad2(t.second);
    assert s == y + "-" + mo + "-" + d + "T" + h + ":" + mi + ":" + se + suffix;
    assert s[0..4] == y && s[5..7] == mo && s[8..10] == d;
    assert s[11..13] == h && s[14..16] == mi && s[17..19] == se;
    assert WellFormed(s, suffix);
  }

  lemma Pad2Number2(x: string)
    requires |x| == 2 && IsDigit(x[0]) && IsDigit(x[1])
    ensures 0 <= Number2(x) <= 99 && Pad2(Number2(x)) == x
  {
  }

  lemma Pad4Number4(x: string)
    requires |x| == 4 && forall i :: 0 <= i < 4 ==> IsDigit(x[i])
    ensures 0 <= Number4(x) <= 9999 && Pad4(Number4(x)) == x
  {
    var hi, lo := x[0..2], x[2..4];
    assert IsDigit(hi[0]) && IsDigit(hi[1]) && IsDigit(lo[0]) && IsDigit(lo[1]);
    Pad2Number2(hi);
    Pad2Number2(lo);
    var n := Number4(x);
    assert n == Number2(hi) * 100 + Number2(lo);
    assert n / 100 == Number2(hi) && n % 100 == Number2(lo);
    assert x == hi + lo;
  }

  /** Every string the parser accepts is the formatting of what it returns,
      so formatting is a bijection between valid date-times and well-formed
      strings. */
  lemma FormatParse(s: string, suffix: string)
    requires Parse(s, suffix).Some?
    ensures ValidDateTime(Parse(s, suffix).value)
    ensures Format(Parse(s, suffix).value, suffix) == s
  {
    var y, mo, d := s[0..4], s[5..7], s[8..10];
    var h, mi, se := s[11..13], s[14..16], s[17..19];
    assert forall i :: 0 <= i < 4 ==> IsDigit(y[i]) by {
      forall i | 0 <= i < 4 ensures IsDigit(y[i]) { assert y[i] == s[i]; }
    }
    assert IsDigit(mo[0]) && IsDigit(mo[1]) && IsDigit(d[0]) && IsDigit(d[1]);
    assert IsDigit(h[0]) && IsDigit(h[1]) && IsDigit(mi[0]) && IsDigit(mi[1]);
    assert IsDigit(se[0]) && IsDigit(se[1]);
    Pad4Number4(y);
    Pad2Number2(mo);
    Pad2Number2(d);
    Pad2Number2(h);
    Pad2Number2(mi);
    Pad2Number2(se);
    assert s == y + "-" + mo + "-" + d + "T" + h + ":" + mi + ":" + se + s[StampLength..];
  }
}
