/**
 * The `yyyyMMdd` text form of dates that `datetime.strptime(date, '%Y%m%d')`
 * reads and `strftime('%Y%m%d')` writes, and the string order that the
 * query engine uses when it compares such texts.
 */
module DateFormat {
  import opened Wrappers
  import opened Calendar

  predicate IsDigit(c: char) {
    '0' <= c <= '9'
  }

  predicate AllDigits(s: string) {
    forall i :: 0 <= i < |s| ==> IsDigit(s[i])
  }

  /** Eight ASCII digits: the only shape of `date` argument this model accepts. */
  predicate IsDateString(s: string) {
    |s| == 8 && AllDigits(s)
  }

  function DigitChar(n: int): char
    requires 0 <= n < 10
  {
    ('0' as int + n) as char
  }

  function DigitValue(c: char): int
    requires IsDigit(c)
  {
    c as int - '0' as int
  }

  function Pow10(n: nat): nat {
    if n == 0 then 1 else 10 * Pow10(n - 1)
  }

  /** The `width` low-order decimal digits of `n`, zero padded, most significant first. */
  function Digits(n: nat, width: nat): (s: string)
    ensures |s| == width && AllDigits(s)
  {
    if width == 0 then [] else Digits(n / 10, width - 1) + [DigitChar(n % 10)]
  }

  /** The number a string of decimal digits denotes. */
  function Value(s: string): nat
    requires AllDigits(s)
  {
    if s == [] then 0 else 10 * Value(s[..|s| - 1]) + DigitValue(s[|s| - 1])
  }

  /** Reading back a zero-padded number that fits its width gives the number. */
  lemma {:induction false} ValueOfDigits(n: nat, width: nat)
    requires n < Pow10(width)
    ensures Value(Digits(n, width)) == n
  {
    if width > 0 {
      var s := Digits(n, width);
      assert s[..width - 1] == Digits(n / 10, width - 1);
      ValueOfDigits(n / 10, width - 1);
    }
  }

  /** Writing back the number a digit string denotes, at the same width, gives the string. */
  lemma {:induction false} DigitsOfValue(s: string)
    requires AllDigits(s)
    ensures Value(s) < Pow10(|s|)
    ensures Digits(Value(s), |s|) == s
  {
    if s != [] {
      var init := s[..|s| - 1];
      DigitsOfValue(init);
      assert Value(s) / 10 == Value(init);
      assert s == init + [s[|s| - 1]];
    }
  }

  /** `date.strftime('%Y%m%d')` for a representable date, years zero padded to four digits. */
  function Format(d: Date): (s: string)
    requires InRange(d)
    ensures IsDateString(s)
  {
    Digits(d.year, 4) + Digits(d.month, 2) + Digits(d.day, 2)
  }

  /**
   * `datetime.strptime(s, '%Y%m%d')` on eight digits: the first four are the
   * year, the next two the month and the last two the day, and `None` stands
   * for the ValueError raised when they name no representable date.
   */
  function Parse(s: string): (r: Option<Date>)
    requires IsDateString(s)
    ensures r.Some? ==> InRange(r.value)
  {
    var d := Date(Value(s[..4]), Value(s[4..6]), Value(s[6..]));
    if InRange(d) then Some(d) else None
  }

  /** Every representable date survives formatting and parsing. */
  lemma ParseFormat(d: Date)
    requires InRange(d)
    ensures Parse(Format(d)) == Some(d)
  {
    var s := Format(d);
    assert Pow10(2) == 100 && Pow10(4) == 10000;
    assert s[..4] == Digits(d.year, 4);
    assert s[4..6] == Digits(d.month, 2);
    assert s[6..] == Digits(d.day, 2);
    ValueOfDigits(d.year, 4);
    ValueOfDigits(d.month, 2);
    ValueOfDigits(d.day, 2);
    assert Date(Value(s[..4]), Value(s[4..6]), Value(s[6..])) == d;
  }

  /** A date string that parses is exactly the formatted form of the date it denotes. */
  lemma FormatParse(s: string)
    requires IsDateString(s) && Parse(s).Some?
    ensures Format(Parse(s).value) == s
  {
    DigitsOfValue(s[..4]);
    DigitsOfValue(s[4..6]);
    DigitsOfValue(s[6..]);
    assert s == s[..4] + s[4..6] + s[6..];
  }

  /**
   * The query engine's `a < b` on strings: code point order, which is also
   * the byte order of their UTF-8 encodings, with a proper prefix smaller.
   */
  predicate LexLess(a: string, b: string) {
    |b| > 0 && (|a| == 0 || a[0] < b[0] || (a[0] == b[0] && LexLess(a[1..], b[1..])))
  }

  /** The query engine's `a <= b` on strings. */
  predicate LexAtMost(a: string, b: string) {
    a == b || LexLess(a, b)
  }

  /** Behind equal-length heads, the order of two strings is decided by the heads first. */
  lemma {:induction false} LexAppend(x1: string, y1: string, x2: string, y2: string)
    requires |x1| == |x2|
    ensures LexLess(x1 + y1, x2 + y2) <==> LexLess(x1, x2) || (x1 == x2 && LexLess(y1, y2))
  {
    if |x1| == 0 {
      assert x1 + y1 == y1 && x2 + y2 == y2;
    } else {
      assert (x1 + y1)[1..] == x1[1..] + y1;
      assert (x2 + y2)[1..] == x2[1..] + y2;
      LexAppend(x1[1..], y1, x2[1..], y2);
      assert x1 == x2 <==> x1[0] == x2[0] && x1[1..] == x2[1..] by {
        if x1[0] == x2[0] && x1[1..] == x2[1..] {
          assert x1 == [x1[0]] + x1[1..] && x2 == [x2[0]] + x2[1..];
        }
      }
    }
  }

  /** Zero-padded numbers of one width compare as strings as they compare as numbers. */
  lemma {:induction false} LexDigits(a: nat, b: nat, width: nat)
    requires a < Pow10(width) && b < Pow10(width)
    ensures LexLess(Digits(a, width), Digits(b, width)) <==> a < b
  {
    if width > 0 {
      var ha, hb := Digits(a / 10, width - 1), Digits(b / 10, width - 1);
      var ca, cb := DigitChar(a % 10), DigitChar(b % 10);
      LexAppend(ha, [ca], hb, [cb]);
      LexDigits(a / 10, b / 10, width - 1);
      ValueOfDigits(a / 10, width - 1);
      ValueOfDigits(b / 10, width - 1);
      assert ha == hb <==> a / 10 == b / 10;
      assert LexLess([ca], [cb]) <==> a % 10 < b % 10;
    }
  }

  /** Formatted dates compare as strings exactly as the dates compare in time. */
  lemma FormatOrder(a: Date, b: Date)
    requires InRange(a) && InRange(b)
    ensures LexLess(Format(a), Format(b)) <==> Ordinal(a) < Ordinal(b)
  {
    var ya, yb := Digits(a.year, 4), Digits(b.year, 4);
    var ma, mb := Digits(a.month, 2), Digits(b.month, 2);
    var da, db := Digits(a.day, 2), Digits(b.day, 2);
    assert Format(a) == ya + (ma + da) && Format(b) == yb + (mb + db);
    LexAppend(ya, ma + da, yb, mb + db);
    LexAppend(ma, da, mb, db);
    assert Pow10(2) == 100 && Pow10(4) == 10000;
    LexDigits(a.year, b.year, 4);
    LexDigits(a.month, b.month, 2);
    LexDigits(a.day, b.day, 2);
    ValueOfDigits(a.year, 4);
    ValueOfDigits(b.year, 4);
    ValueOfDigits(a.month, 2);
    ValueOfDigits(b.month, 2);
    assert ya == yb <==> a.year == b.year;
    assert ma == mb <==> a.month == b.month;
    OrdinalOrder(a, b);
  }

  /** Formatted dates are equal as strings exactly when they are the same day. */
  lemma FormatInjective(a: Date, b: Date)
    requires InRange(a) && InRange(b)
    ensures Format(a) == Format(b) <==> Ordinal(a) == Ordinal(b)
  {
    ParseFormat(a);
    ParseFormat(b);
    OrdinalOrder(a, b);
  }
}
