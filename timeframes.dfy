/**
 * Timeframe tokens of the tracker: a leading run of decimal digits followed by
 * one unit letter out of `s m h d M Y`.  The match is anchored at the start of
 * the token only, so whatever follows the unit letter is ignored.
 */
module Timeframes {
  import opened Wrappers

  datatype Unit = Second | Minute | Hour | Day | Month | Year

  /** A parsed token: the magnitude and the unit. */
  datatype Timeframe = Timeframe(value: nat, unit: Unit)

  datatype TimeframeError = InvalidTimeframeFormat(token: string)

  /** The unit letters accepted by the pattern. */
  const UnitLetters: string := "smhdMY"

  function Letter(u: Unit): char
  {
    match u
    case Second => 's'
    case Minute => 'm'
    case Hour => 'h'
    case Day => 'd'
    case Month => 'M'
    case Year => 'Y'
  }

  /** The long unit name handed to the forecasting service. */
  function UnitName(u: Unit): (n: string)
    ensures n in ["seconds", "minutes", "hours", "days", "months", "years"]
  {
    match u
    case Second => "seconds"
    case Minute => "minutes"
    case Hour => "hours"
    case Day => "days"
    case Month => "months"
    case Year => "years"
  }

  /** The exchange's interval unit: the very letter that was parsed. */
  function ExchangeUnit(u: Unit): (e: string)
    ensures e == [Letter(u)]
  {
    match u
    case Second => "s"
    case Minute => "m"
    case Hour => "h"
    case Day => "d"
    case Month => "M"
    case Year => "Y"
  }

  function UnitOfLetter(c: char): (u: Option<Unit>)
    ensures u.Some? <==> c in UnitLetters
    ensures u.Some? ==> Letter(u.value) == c
  {
    if c == 's' then Some(Second)
    else if c == 'm' then Some(Minute)
    else if c == 'h' then Some(Hour)
    else if c == 'd' then Some(Day)
    else if c == 'M' then Some(Month)
    else if c == 'Y' then Some(Year)
    else None
  }

  /** Distinct units reach the forecasting service under distinct names. */
  lemma UnitNameInjective(u: Unit, v: Unit)
    requires UnitName(u) == UnitName(v)
    ensures u == v
  {
  }

  lemma LetterInjective(u: Unit, v: Unit)
    requires Letter(u) == Letter(v)
    ensures u == v
  {
  }

  predicate IsDigit(c: char)
  {
    '0' <= c <= '9'
  }

  predicate AllDigits(s: string)
  {
    forall i :: 0 <= i < |s| ==> IsDigit(s[i])
  }

  function DigitValue(c: char): (d: nat)
    requires IsDigit(c)
    ensures d < 10
  {
    (c as int) - ('0' as int)
  }

  function DigitChar(d: nat): (c: char)
    requires d < 10
    ensures IsDigit(c) && DigitValue(c) == d
  {
    (('0' as int) + d) as char
  }

  /** The value of a run of decimal digits, most significant first. */
  function DecimalValue(ds: string): nat
    requires AllDigits(ds)
  {
    if ds == [] then 0
    else DecimalValue(ds[..|ds| - 1]) * 10 + DigitValue(ds[|ds| - 1])
  }

  /** Decimal rendering of a natural number, without leading zeros. */
  function NatToString(n: nat): (s: string)
    decreases n
  {
    if n < 10 then [DigitChar(n)]
    else NatToString(n / 10) + [DigitChar(n % 10)]
  }

  /** Length of the longest prefix of `s` made of digits. */
  function LeadingDigits(s: string): (n: nat)
    ensures n <= |s|
    ensures forall i :: 0 <= i < n ==> IsDigit(s[i])
    ensures n < |s| ==> !IsDigit(s[n])
  {
    if |s| > 0 && IsDigit(s[0]) then 1 + LeadingDigits(s[1..]) else 0
  }

  /** The tokens the anchored pattern `(\d+)([smhdMY])` matches. */
  ghost predicate Accepts(token: string)
  {
    exists k :: 1 <= k < |token| && AllDigits(token[..k]) && token[k] in UnitLetters
  }

  /**
   * Parse a timeframe token.  The digit run is greedy, the unit letter must
   * follow it immediately, and the rest of the token is not looked at.
   */
  function ParseTimeframe(token: string): (r: Result<Timeframe, TimeframeError>)
    ensures r.Ok? <==> Accepts(token)
    ensures r.Err? ==> r.error == InvalidTimeframeFormat(token)
    ensures forall k :: 1 <= k < |token| && AllDigits(token[..k]) && token[k] in UnitLetters ==>
              r.Ok? && r.value.value == DecimalValue(token[..k]) && Letter(r.value.unit) == token[k]
  {
    var n := LeadingDigits(token);
    if 1 <= n < |token| && UnitOfLetter(token[n]).Some? then
      Ok(Timeframe(DecimalValue(token[..n]), UnitOfLetter(token[n]).value))
    else
      Err(InvalidTimeframeFormat(token))
  }

  /**
   * The exchange interval: the decimal magnitude followed by the unit letter.
   * The result is canonical: digits without superfluous leading zero
   * denoting the magnitude, then the unit's letter.
   */
  function FormatInterval(tf: Timeframe): (s: string)
    ensures CanonicalToken(s)
    ensures DecimalValue(s[..|s| - 1]) == tf.value
    ensures s[|s| - 1] == Letter(tf.unit)
  {
    NatToStringDigits(tf.value);
    NatToStringCanonical(tf.value);
    var ds := NatToString(tf.value);
    assert (ds + ExchangeUnit(tf.unit))[..|ds|] == ds;
    ds + ExchangeUnit(tf.unit)
  }

  function GetBinanceInterval(token: string): (r: Result<string, TimeframeError>)
    ensures r.Ok? <==> Accepts(token)
  {
    match ParseTimeframe(token)
    case Ok(tf) => Ok(FormatInterval(tf))
    case Err(e) => Err(e)
  }

  // ---------------------------------------------------------------------
  // Properties of parsing and formatting

  lemma {:induction false} NatToStringDigits(n: nat)
    ensures |NatToString(n)| >= 1
    ensures AllDigits(NatToString(n))
    ensures DecimalValue(NatToString(n)) == n
    decreases n
  {
    if n >= 10 {
      NatToStringDigits(n / 10);
      var s := NatToString(n / 10) + [DigitChar(n % 10)];
      assert s[..|s| - 1] == NatToString(n / 10);
    }
  }

  /** A run of digits with no superfluous leading zero. */
  predicate CanonicalDigits(ds: string)
  {
    |ds| >= 1 && AllDigits(ds) && (ds[0] != '0' || |ds| == 1)
  }

  lemma {:induction false} NatToStringCanonical(n: nat)
    ensures CanonicalDigits(NatToString(n))
    decreases n
  {
    NatToStringDigits(n);
    if n >= 10 {
      NatToStringCanonical(n / 10);
      NatToStringDigits(n / 10);
      var pre := NatToString(n / 10);
      assert NatToString(n)[0] == pre[0];
      assert pre[0] != '0' by {
        if n / 10 >= 10 {
          assert |pre| >= 2;
        }
      }
    }
  }

  lemma {:induction false} LeadingNonZeroIsPositive(ds: string)
    requires |ds| >= 1 && AllDigits(ds) && ds[0] != '0'
    ensures DecimalValue(ds) >= 1
    decreases |ds|
  {
    if |ds| > 1 {
      LeadingNonZeroIsPositive(ds[..|ds| - 1]);
    }
  }

  lemma {:induction false} CanonicalDigitsRoundTrip(ds: string)
    requires CanonicalDigits(ds)
    ensures NatToString(DecimalValue(ds)) == ds
    decreases |ds|
  {
    if |ds| > 1 {
      var pre := ds[..|ds| - 1];
      assert CanonicalDigits(pre);
      LeadingNonZeroIsPositive(pre);
      CanonicalDigitsRoundTrip(pre);
      assert ds == pre + [ds[|ds| - 1]];
    }
  }

  /** Formatting a parsed timeframe and parsing it again gives it back. */
  lemma ParseFormatRoundTrip(tf: Timeframe)
    ensures ParseTimeframe(FormatInterval(tf)) == Ok(tf)
  {
    var ds := NatToString(tf.value);
    NatToStringDigits(tf.value);
    var token := FormatInterval(tf);
    assert token == ds + [Letter(tf.unit)];
    assert token[..|ds|] == ds;
    assert token[|ds|] == Letter(tf.unit);
    var r := ParseTimeframe(token);
    assert r.Ok? && r.value.value == tf.value && Letter(r.value.unit) == Letter(tf.unit);
    LetterInjective(r.value.unit, tf.unit);
  }

  /** A canonical token: digits without leading zero followed by one unit letter. */
  predicate CanonicalToken(token: string)
  {
    |token| >= 2 && CanonicalDigits(token[..|token| - 1]) && token[|token| - 1] in UnitLetters
  }

  /** A canonical token comes back from `GetBinanceInterval` unchanged. */
  lemma CanonicalIntervalRoundTrip(token: string)
    requires CanonicalToken(token)
    ensures GetBinanceInterval(token) == Ok(token)
  {
    var k := |token| - 1;
    var ds := token[..k];
    var r := ParseTimeframe(token);
    assert r.Ok? && r.value.value == DecimalValue(ds) && Letter(r.value.unit) == token[k];
    CanonicalDigitsRoundTrip(ds);
    assert token == ds + [token[k]];
  }

  /** Characters after the unit letter do not change the parse. */
  lemma ParseIgnoresSuffix(token: string, suffix: string)
    requires Accepts(token)
    ensures ParseTimeframe(token + suffix) == ParseTimeframe(token)
  {
    var k :| 1 <= k < |token| && AllDigits(token[..k]) && token[k] in UnitLetters;
    var t := token + suffix;
    assert t[..k] == token[..k] && t[k] == token[k];
    var r, r' := ParseTimeframe(token), ParseTimeframe(t);
    assert r.Ok? && r'.Ok?;
    LetterInjective(r.value.unit, r'.value.unit);
  }

  /** Parsing yields the letter's unit, its long name and that same letter for the exchange. */
  lemma ParsedUnitNames(token: string)
    requires Accepts(token)
    ensures var tf := ParseTimeframe(token).value;
            var c := token[LeadingDigits(token)];
            && ExchangeUnit(tf.unit) == [c]
            && UnitName(tf.unit) == (if c == 's' then "seconds" else if c == 'm' then "minutes"
                                     else if c == 'h' then "hours" else if c == 'd' then "days"
                                     else if c == 'M' then "months" else "years")
  {
  }

  lemma ZeroMagnitudeAccepted()
    ensures ParseTimeframe("0m") == Ok(Timeframe(0, Minute))
  {
    assert "0m"[..1] == "0";
  }

  lemma LowercaseYearRejected()
    ensures ParseTimeframe("1y").Err?
  {
    assert LeadingDigits("1y") == 1;
  }

  lemma FifteenMinutesRoundTrip()
    ensures GetBinanceInterval("15m") == Ok("15m")
  {
    assert CanonicalToken("15m") by {
      assert "15m"[..2] == "15";
    }
    CanonicalIntervalRoundTrip("15m");
  }

  lemma TrailingCharactersIgnored()
    ensures ParseTimeframe("5mx") == Ok(Timeframe(5, Minute))
  {
    assert "5mx"[..1] == "5";
  }
}
