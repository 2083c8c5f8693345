/**
 * The textual formats the batch identifiers are built from: `Long.toString`,
 * the `yyyyMMddHHmmss` date-time pattern, and the decimal readers that invert them.
 */
module Text {

  predicate IsDigit(c: char) {
    '0' <= c <= '9'
  }

  predicate AllDigits(s: string) {
    forall i :: 0 <= i < |s| ==> IsDigit(s[i])
  }

  function DigitChar(d: nat): (c: char)
    requires d < 10
    ensures IsDigit(c) && c as int - '0' as int == d
  {
    (d + '0' as int) as char
  }

  function DigitValue(c: char): (d: nat)
    requires IsDigit(c)
    ensures d < 10 && DigitChar(d) == c
  {
    c as int - '0' as int
  }

  /** The decimal digits of `n`, most significant first, without leading zeros. */
  function NatToDecimal(n: nat): (s: string)
    ensures |s| >= 1 && AllDigits(s)
    decreases n
  {
    if n < 10 then [DigitChar(n)] else NatToDecimal(n / 10) + [DigitChar(n % 10)]
  }

  /** The number a string of decimal digits denotes; leading zeros are allowed. */
  function DecimalValue(s: string): nat
    requires AllDigits(s)
  {
    if s == [] then 0 else DecimalValue(s[..|s| - 1]) * 10 + DigitValue(s[|s| - 1])
  }

  lemma {:induction false} DecimalRoundTrip(n: nat)
    ensures DecimalValue(NatToDecimal(n)) == n
  {
    if n >= 10 {
      var s := NatToDecimal(n);
      assert s[..|s| - 1] == NatToDecimal(n / 10);
      DecimalRoundTrip(n / 10);
    }
  }

  function Pow10(k: nat): (p: nat)
    ensures p >= 1
  {
    if k == 0 then 1 else 10 * Pow10(k - 1)
  }

  lemma {:induction false} DecimalLength(n: nat, k: nat)
    requires k >= 1 && n < Pow10(k)
    ensures |NatToDecimal(n)| <= k
  {
    if n >= 10 {
      assert k >= 2;
      DecimalLength(n / 10, k - 1);
    }
  }

  /** `Long.toString(n)`: a leading minus sign for negative values, then the digits. */
  function LongToString(n: int): (s: string)
    ensures |s| >= 1 && '_' !in s
    ensures n >= 0 <==> IsDigit(s[0])
  {
    if n < 0 then "-" + NatToDecimal(-n) else NatToDecimal(n)
  }

  /** `Long.parseLong`, on the strings `LongToString` produces. */
  function ParseLong(s: string): int
    requires |s| >= 1
    requires if s[0] == '-' then AllDigits(s[1..]) else AllDigits(s)
  {
    if s[0] == '-' then 0 - DecimalValue(s[1..]) else DecimalValue(s)
  }

  lemma LongRoundTrip(n: int)
    ensures ParseLong(LongToString(n)) == n
  {
    if n < 0 {
      assert LongToString(n)[1..] == NatToDecimal(-n);
      DecimalRoundTrip(-n);
    } else {
      DecimalRoundTrip(n);
    }
  }

  lemma LongToStringInjective(a: int, b: int)
    requires LongToString(a) == LongToString(b)
    ensures a == b
  {
    LongRoundTrip(a);
    LongRoundTrip(b);
  }

  /** A string of `m` zero digits. */
  function Zeros(m: nat): (s: string)
    ensures |s| == m && AllDigits(s)
  {
    if m == 0 then [] else Zeros(m - 1) + "0"
  }

  lemma {:induction false} LeadingZeros(m: nat, s: string)
    requires AllDigits(s)
    ensures DecimalValue(Zeros(m) + s) == DecimalValue(s)
  {
    if s == [] {
      assert Zeros(m) + s == Zeros(m);
      ZerosValue(m);
    } else {
      var t := Zeros(m) + s;
      assert t[..|t| - 1] == Zeros(m) + s[..|s| - 1];
      LeadingZeros(m, s[..|s| - 1]);
    }
  }

  lemma {:induction false} ZerosValue(m: nat)
    ensures DecimalValue(Zeros(m)) == 0
  {
    if m > 0 {
      assert Zeros(m)[..m - 1] == Zeros(m - 1);
      ZerosValue(m - 1);
    }
  }

  /** A number left-padded with zeros to `width` digits: one field of a `DateTimeFormatter` pattern. */
  function Pad(n: nat, width: nat): string
  {
    var d := NatToDecimal(n);
    if |d| >= width then d else Zeros(width - |d|) + d
  }

  lemma PadFits(n: nat, width: nat)
    requires width >= 1 && n < Pow10(width)
    ensures |Pad(n, width)| == width && AllDigits(Pad(n, width))
    ensures DecimalValue(Pad(n, width)) == n
  {
    var d := NatToDecimal(n);
    DecimalLength(n, width);
    DecimalRoundTrip(n);
    if |d| < width {
      var z := Zeros(width - |d|);
      assert Pad(n, width) == z + d;
      AllDigitsAppend(z, d);
      LeadingZeros(width - |d|, d);
    } else {
      assert Pad(n, width) == d;
    }
  }

  lemma AllDigitsAppend(a: string, b: string)
    requires AllDigits(a) && AllDigits(b)
    ensures AllDigits(a + b)
  {
    forall i | 0 <= i < |a + b| ensures IsDigit((a + b)[i]) {
      if i < |a| {
        assert (a + b)[i] == a[i];
      } else {
        assert (a + b)[i] == b[i - |a|];
      }
    }
  }

  /** The fields of a `java.time.LocalDateTime` that the `yyyyMMddHHmmss` pattern prints. */
  datatype DateTime = DateTime(year: nat, month: nat, day: nat, hour: nat, minute: nat, second: nat)

  /** Field ranges of a date-time in the years the four-digit `yyyy` field prints as is. */
  predicate ValidDateTime(t: DateTime) {
    1 <= t.year <= 9999 && 1 <= t.month <= 12 && 1 <= t.day <= 31
    && t.hour < 24 && t.minute < 60 && t.second < 60
  }

  /** `t.format(DateTimeFormatter.ofPattern("yyyyMMddHHmmss"))`. */
  function FormatTimestamp(t: DateTime): (s: string)
    requires ValidDateTime(t)
    ensures |s| == 14 && AllDigits(s)
  {
    FieldsFit(t);
    var date := Pad(t.year, 4) + Pad(t.month, 2) + Pad(t.day, 2);
    var time := Pad(t.hour, 2) + Pad(t.minute, 2) + Pad(t.second, 2);
    AllDigitsJoin(Pad(t.year, 4), Pad(t.month, 2), Pad(t.day, 2));
    AllDigitsJoin(Pad(t.hour, 2), Pad(t.minute, 2), Pad(t.second, 2));
    AllDigitsAppend(date, time);
    date + time
  }

  lemma Pow10Values()
    ensures Pow10(2) == 100 && Pow10(4) == 10000
  {
    assert Pow10(1) == 10;
    assert Pow10(3) == 1000;
  }

  /** Every field of a valid date-time fits its width in the pattern. */
  lemma FieldsFit(t: DateTime)
    requires ValidDateTime(t)
    ensures |Pad(t.year, 4)| == 4 && AllDigits(Pad(t.year, 4)) && DecimalValue(Pad(t.year, 4)) == t.year
    ensures |Pad(t.month, 2)| == 2 && AllDigits(Pad(t.month, 2)) && DecimalValue(Pad(t.month, 2)) == t.month
    ensures |Pad(t.day, 2)| == 2 && AllDigits(Pad(t.day, 2)) && DecimalValue(Pad(t.day, 2)) == t.day
    ensures |Pad(t.hour, 2)| == 2 && AllDigits(Pad(t.hour, 2)) && DecimalValue(Pad(t.hour, 2)) == t.hour
    ensures |Pad(t.minute, 2)| == 2 && AllDigits(Pad(t.minute, 2)) && DecimalValue(Pad(t.minute, 2)) == t.minute
    ensures |Pad(t.second, 2)| == 2 && AllDigits(Pad(t.second, 2)) && DecimalValue(Pad(t.second, 2)) == t.second
  {
    Pow10Values();
    PadFits(t.year, 4);
    PadFits(t.month, 2);
    PadFits(t.day, 2);
    PadFits(t.hour, 2);
    PadFits(t.minute, 2);
    PadFits(t.second, 2);
  }

  lemma AllDigitsJoin(a: string, b: string, c: string)
    requires AllDigits(a) && AllDigits(b) && AllDigits(c)
    ensures AllDigits(a + b + c)
  {
    AllDigitsAppend(a, b);
    AllDigitsAppend(a + b, c);
  }

  /** `a + b + c` splits back into its three parts. */
  lemma SplitThree(a: string, b: string, c: string)
    ensures (a + b + c)[..|a|] == a
    ensures (a + b + c)[|a|..|a| + |b|] == b
    ensures (a + b + c)[|a| + |b|..] == c
  {
  }

  /** Reads a `yyyyMMddHHmmss` timestamp back into its fields. */
  function ParseTimestamp(s: string): DateTime
    requires |s| == 14 && AllDigits(s)
  {
    DateTime(DecimalValue(s[0..4]), DecimalValue(s[4..6]), DecimalValue(s[6..8]),
             DecimalValue(s[8..10]), DecimalValue(s[10..12]), DecimalValue(s[12..14]))
  }

  lemma TimestampRoundTrip(t: DateTime)
    requires ValidDateTime(t)
    ensures ParseTimestamp(FormatTimestamp(t)) == t
  {
    FieldsFit(t);
    var y, mo, d := Pad(t.year, 4), Pad(t.month, 2), Pad(t.day, 2);
    var h, mi, se := Pad(t.hour, 2), Pad(t.minute, 2), Pad(t.second, 2);
    var date, time := y + mo + d, h + mi + se;
    var s := FormatTimestamp(t);
    assert s == date + time;
    assert s[..8] == date && s[8..] == time;
    SplitThree(y, mo, d);
    SplitThree(h, mi, se);
    assert s[0..4] == date[..4] == y;
    assert s[4..6] == date[4..6] == mo;
    assert s[6..8] == date[6..] == d;
    assert s[8..10] == time[..2] == h;
    assert s[10..12] == time[2..4] == mi;
    assert s[12..14] == time[4..] == se;
  }

  /** Two strings that are each free of `sep`, joined by `sep`, split back uniquely. */
  lemma SplitAtSeparator(x: string, y: string, x': string, y': string, sep: char)
    requires sep !in x && sep !in x'
    requires x + [sep] + y == x' + [sep] + y'
    ensures x == x' && y == y'
  {
    var s := x + [sep] + y;
    FirstSeparator(x, y, sep);
    FirstSeparator(x', y', sep);
    assert |x| == |x'|;
    assert x == s[..|x|] == x';
    assert y == s[|x| + 1..] == y';
  }

  /** In `x + [sep] + y` with `sep` not in `x`, the first `sep` is at index `|x|`. */
  lemma FirstSeparator(x: string, y: string, sep: char)
    requires sep !in x
    ensures (x + [sep] + y)[|x|] == sep
    ensures forall i :: 0 <= i < |x| ==> (x + [sep] + y)[i] != sep
  {
    forall i | 0 <= i < |x| ensures (x + [sep] + y)[i] != sep {
      assert (x + [sep] + y)[i] == x[i];
    }
  }
}
