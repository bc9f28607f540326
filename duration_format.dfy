/**
 * The duration label of the picker: `TTDHelper.formattedStrigFrom` turns a whole
 * number of seconds into "MM:SS". Minutes are taken modulo 60, so hours are
 * dropped, and both fields are printed with the C format "%02d".
 * Swift's `/` and `%` truncate toward zero; Dafny's are Euclidean, so the
 * truncating forms are written out here.
 */
module DurationFormat {
  import opened Wrappers

  /** Swift's `a / b` for a positive divisor: the quotient rounded toward zero. */
  function TruncDiv(a: int, b: int): (q: int)
    requires b > 0
    ensures a >= 0 ==> 0 <= q && q * b <= a < q * b + b
    ensures a < 0 ==> q <= 0 && q * b - b < a <= q * b
  {
    var n := if a >= 0 then a else -a;
    EuclideanQuotient(n, b);
    if a >= 0 then n / b else -(n / b)
  }

  /** For a natural dividend, Dafny's quotient is the truncating one, from either side. */
  lemma EuclideanQuotient(n: int, b: int)
    requires n >= 0 && b > 0
    ensures 0 <= n / b && (n / b) * b <= n < (n / b) * b + b
    ensures -(n / b) * b == -((n / b) * b)
  {
  }

  /** Swift's `a % b` for a positive divisor: the remainder takes the sign of `a`. */
  function TruncRem(a: int, b: int): (r: int)
    requires b > 0
    ensures a == b * TruncDiv(a, b) + r
    ensures -b < r < b
    ensures a >= 0 ==> r >= 0
    ensures a <= 0 ==> r <= 0
  {
    var n := if a >= 0 then a else -a;
    assert n == b * (n / b) + n % b;
    if a >= 0 then a % b
    else
      assert a == b * -(n / b) - n % b;
      -((-a) % b)
  }

  /** `seconds`: what is left of the duration after its whole minutes. */
  function Seconds(interval: int): (s: int)
    ensures interval == 60 * TruncDiv(interval, 60) + s
    ensures -60 < s < 60
  {
    TruncRem(interval, 60)
  }

  /** `minutes`: the whole minutes left after the whole hours. */
  function Minutes(interval: int): (m: int)
    ensures TruncDiv(interval, 60) == 60 * TruncDiv(TruncDiv(interval, 60), 60) + m
    ensures -60 < m < 60
  {
    TruncRem(TruncDiv(interval, 60), 60)
  }

  /** Decimal digits of a natural number, most significant first, no leading zeros. */
  function Digits(n: nat): (s: string)
    ensures 1 <= |s|
    ensures forall i :: 0 <= i < |s| ==> '0' <= s[i] <= '9'
    ensures n < 10 ==> |s| == 1
    ensures 10 <= n < 100 ==> |s| == 2
  {
    if n < 10 then [DigitChar(n)] else Digits(n / 10) + [DigitChar(n % 10)]
  }

  function DigitChar(d: nat): (c: char)
    requires d < 10
    ensures '0' <= c <= '9' && DigitValue(c) == d
  {
    ('0' as int + d) as char
  }

  function DigitValue(c: char): int {
    c as int - '0' as int
  }

  /** The C conversion "%02d": a minus sign for a negative value, and zeros
      after the sign until the field is two characters wide. */
  function Pad2(v: int): (s: string)
    ensures 2 <= |s|
    ensures s[0] == '-' <==> v < 0
    ensures v >= 0 ==> forall i :: 0 <= i < |s| ==> '0' <= s[i] <= '9'
    ensures v < 0 ==> forall i :: 1 <= i < |s| ==> '0' <= s[i] <= '9'
    ensures -100 < v < 100 ==> |s| <= 3
    ensures 0 <= v < 100 ==> |s| == 2 && DigitValue(s[0]) * 10 + DigitValue(s[1]) == v
  {
    if v < 0 then "-" + Digits(-v)
    else if v < 10 then "0" + Digits(v)
    else if v < 100 then
      assert Digits(v) == [DigitChar(v / 10), DigitChar(v % 10)];
      Digits(v)
    else Digits(v)
  }

  /** The label shown for a duration of `interval` whole seconds. */
  function FormattedStringFrom(interval: int): (s: string)
    ensures interval >= 0 ==> |s| == 5 && s[2] == ':'
    ensures interval >= 0 ==> forall i :: i in {0, 1, 3, 4} ==> '0' <= s[i] <= '9'
    ensures interval >= 0 ==>
      DigitValue(s[0]) * 10 + DigitValue(s[1]) == Minutes(interval) &&
      DigitValue(s[3]) * 10 + DigitValue(s[4]) == Seconds(interval)
  {
    Pad2(Minutes(interval)) + ":" + Pad2(Seconds(interval))
  }

  /** Both fields are in [0, 59] for a non-negative duration, in [-59, 0] for a negative one. */
  lemma FieldBounds(interval: int)
    ensures interval >= 0 ==> 0 <= Minutes(interval) <= 59 && 0 <= Seconds(interval) <= 59
    ensures interval < 0 ==> -59 <= Minutes(interval) <= 0 && -59 <= Seconds(interval) <= 0
  {
  }

  /** Hours are discarded: the two fields together give the remainder by 3600,
      with the truncating remainder's sign. */
  lemma HoursDiscarded(interval: int)
    ensures Minutes(interval) * 60 + Seconds(interval) == TruncRem(interval, 3600)
    ensures interval >= 0 ==> Minutes(interval) * 60 + Seconds(interval) == interval % 3600
  {
  }

  /** One hour formats as "00:00". */
  lemma OneHourWrapsToZero()
    ensures FormattedStringFrom(3600) == "00:00"
  {
    assert Minutes(3600) == 0 && Seconds(3600) == 0;
  }

  // ---- reading a label back ----

  function ParseDigits(s: string): int {
    if |s| == 0 then 0 else ParseDigits(s[..|s| - 1]) * 10 + DigitValue(s[|s| - 1])
  }

  /** Reads a field printed by "%02d": an optional minus sign, then digits. */
  function ParseField(s: string): int {
    if |s| > 0 && s[0] == '-' then -ParseDigits(s[1..]) else ParseDigits(s)
  }

  function IndexOfColon(s: string): (r: Option<nat>)
    ensures r.Some? ==> r.value < |s| && s[r.value] == ':'
    ensures r.Some? ==> forall j :: 0 <= j < r.value ==> s[j] != ':'
    ensures r.None? ==> forall j :: 0 <= j < |s| ==> s[j] != ':'
  {
    if |s| == 0 then None
    else if s[0] == ':' then Some(0)
    else match IndexOfColon(s[1..])
      case None => None
      case Some(k) => Some(k + 1)
  }

  /** Splits a label at its first ':' and reads the minutes and seconds on either side. */
  function ParseDuration(s: string): Option<(int, int)> {
    match IndexOfColon(s)
    case None => None
    case Some(k) => Some((ParseField(s[..k]), ParseField(s[k + 1..])))
  }

  lemma {:induction false} ParseDigitsOfDigits(n: nat)
    ensures ParseDigits(Digits(n)) == n
  {
    if n >= 10 {
      var d := Digits(n);
      assert d[..|d| - 1] == Digits(n / 10);
      ParseDigitsOfDigits(n / 10);
    }
  }

  lemma {:induction false} ParseFieldOfPad2(v: int)
    ensures ParseField(Pad2(v)) == v
  {
    if v < 0 {
      assert Pad2(v)[1..] == Digits(-v);
      ParseDigitsOfDigits(-v);
    } else if v < 10 {
      var s := Pad2(v);
      assert s[..|s| - 1] == "0";
      assert ParseDigits("0") == 0 by { assert "0"[..0] == ""; }
    } else {
      ParseDigitsOfDigits(v);
    }
  }

  /** Round trip: reading the digits on each side of ':' gives back the minutes
      and the seconds, for every duration including negative ones. */
  lemma {:induction false} ParseFormatted(interval: int)
    ensures ParseDuration(FormattedStringFrom(interval)) == Some((Minutes(interval), Seconds(interval)))
  {
    var m := Pad2(Minutes(interval));
    var sec := Pad2(Seconds(interval));
    var s := FormattedStringFrom(interval);
    assert s == m + ":" + sec;
    assert forall j :: 0 <= j < |m| ==> s[j] == m[j] && s[j] != ':';
    assert s[|m|] == ':';
    assert IndexOfColon(s) == Some(|m|);
    assert s[..|m|] == m;
    assert s[|m| + 1..] == sec;
    ParseFieldOfPad2(Minutes(interval));
    ParseFieldOfPad2(Seconds(interval));
  }
}
