/** `formatTimestamp` (utils/time.ts): a time as `MM:SS.mmm`. The input is the
    time already rounded to whole milliseconds; negative times (and NaN, which
    has no counterpart here) give the fixed string "00:00.000". */
module Time {
  import opened Types
  import opened Decimal

  const Sentinel: string := "00:00.000"

  datatype Clock = Clock(minutes: nat, seconds: nat, millis: nat)

  /** Minutes, seconds within the minute and milliseconds within the second. */
  function Decompose(total: nat): (c: Clock)
    ensures c.millis < 1000 && c.seconds < 60
    ensures c.minutes * 60000 + c.seconds * 1000 + c.millis == total
  {
    var ms := total % 1000;
    var totalSeconds := total / 1000;
    Clock(totalSeconds / 60, totalSeconds % 60, ms)
  }

  /** The three fields, each `String(n).padStart(width, '0')`. */
  function ClockText(c: Clock): string
  {
    PadStart(NatToString(c.minutes), 2, '0') + ":" + PadStart(NatToString(c.seconds), 2, '0')
      + "." + PadStart(NatToString(c.millis), 3, '0')
  }

  function FormatTimestamp(totalMs: int): string
  {
    if totalMs < 0 then Sentinel else ClockText(Decompose(totalMs))
  }

  /** Reads `M+<colon>SS<dot>mmm` back into milliseconds. With ':' and '.' it
      reads what FormatTimestamp writes. */
  function ParseStamp(s: string, colon: char, dot: char): Option<nat>
  {
    if |s| < 7 || s[|s| - 7] != colon || s[|s| - 4] != dot then None
    else
      var mm, ss, ms := s[..|s| - 7], s[|s| - 6..|s| - 4], s[|s| - 3..];
      if |mm| >= 1 && AllDigits(mm) && AllDigits(ss) && AllDigits(ms)
      then Some(Value(mm) * 60000 + Value(ss) * 1000 + Value(ms))
      else None
  }

  function ParseTimestamp(s: string): Option<nat>
  {
    ParseStamp(s, ':', '.')
  }

  predicate IsStampChar(c: char) {
    IsDigit(c) || c == ':' || c == '.'
  }

  /** Where the fields sit in `m:ss.mmm` once each field has its width. */
  lemma StampSlices(m: string, sec: string, ms: string)
    requires |sec| == 2 && |ms| == 3
    ensures var s := m + ":" + sec + "." + ms;
      && |s| == |m| + 7 && s[|s| - 7] == ':' && s[|s| - 4] == '.'
      && s[..|s| - 7] == m && s[|s| - 6..|s| - 4] == sec && s[|s| - 3..] == ms
  {
  }

  /** A string laid out as `m:ss.mmm` with digit fields reads back as the
      milliseconds those fields denote. */
  lemma ParseLaidOut(s: string, c: Clock)
    requires |s| >= 9 && s[|s| - 7] == ':' && s[|s| - 4] == '.'
    requires AllDigits(s[..|s| - 7]) && Value(s[..|s| - 7]) == c.minutes
    requires AllDigits(s[|s| - 6..|s| - 4]) && Value(s[|s| - 6..|s| - 4]) == c.seconds
    requires AllDigits(s[|s| - 3..]) && Value(s[|s| - 3..]) == c.millis
    ensures ParseTimestamp(s) == Some(c.minutes * 60000 + c.seconds * 1000 + c.millis)
  {
  }

  /** Three digit fields of widths at least 2, exactly 2 and exactly 3, put
      together as `m:ss.mmm`, have that layout and read back as the clock they
      denote. */
  lemma FieldsLayout(m: string, sec: string, ms: string, c: Clock)
    requires |m| >= 2 && |sec| == 2 && |ms| == 3
    requires AllDigits(m) && AllDigits(sec) && AllDigits(ms)
    requires Value(m) == c.minutes && Value(sec) == c.seconds && Value(ms) == c.millis
    ensures var s := m + ":" + sec + "." + ms;
      && |s| == |m| + 7 && s[|s| - 7] == ':' && s[|s| - 4] == '.'
      && s[..|s| - 7] == m && s[|s| - 6..|s| - 4] == sec && s[|s| - 3..] == ms
      && ParseTimestamp(s) == Some(c.minutes * 60000 + c.seconds * 1000 + c.millis)
  {
    StampSlices(m, sec, ms);
    ParseLaidOut(m + ":" + sec + "." + ms, c);
  }

  /** The layout of the text of a clock whose seconds and milliseconds are
      in range. */
  lemma ClockTextLayout(c: Clock)
    requires c.millis < 1000 && c.seconds < 60
    ensures var s := ClockText(c);
      && |s| >= 9 && s[|s| - 7] == ':' && s[|s| - 4] == '.'
      && |s[..|s| - 7]| >= 2 && AllDigits(s[..|s| - 7]) && Value(s[..|s| - 7]) == c.minutes
      && AllDigits(s[|s| - 6..|s| - 4]) && Value(s[|s| - 6..|s| - 4]) == c.seconds
      && AllDigits(s[|s| - 3..]) && Value(s[|s| - 3..]) == c.millis
      && (|s| == 9 <==> c.minutes < 100)
    ensures ParseTimestamp(ClockText(c)) == Some(c.minutes * 60000 + c.seconds * 1000 + c.millis)
  {
    var m := PadStart(NatToString(c.minutes), 2, '0');
    var sec := PadStart(NatToString(c.seconds), 2, '0');
    var ms := PadStart(NatToString(c.millis), 3, '0');
    PaddedValue(c.minutes, 2);
    PaddedValue(c.seconds, 2);
    PaddedValue(c.millis, 3);
    SmallPowers();
    PaddedLength(c.minutes, 2);
    PaddedLength(c.seconds, 2);
    PaddedLength(c.millis, 3);
    assert ClockText(c) == m + ":" + sec + "." + ms;
    FieldsLayout(m, sec, ms, c);
  }

  /** The layout of a formatted non-negative time: at least two minute digits
      (all of them, never truncated), a colon, exactly two second digits, a
      period and exactly three millisecond digits, each field reading back as
      its part of the decomposition; nine characters exactly when the minutes
      are below 100. */
  lemma FormatLayout(t: nat)
    ensures var s := FormatTimestamp(t); var c := Decompose(t);
      && |s| >= 9 && s[|s| - 7] == ':' && s[|s| - 4] == '.'
      && |s[..|s| - 7]| >= 2 && AllDigits(s[..|s| - 7]) && Value(s[..|s| - 7]) == c.minutes
      && AllDigits(s[|s| - 6..|s| - 4]) && Value(s[|s| - 6..|s| - 4]) == c.seconds
      && AllDigits(s[|s| - 3..]) && Value(s[|s| - 3..]) == c.millis
      && (|s| == 9 <==> c.minutes < 100)
  {
    ClockTextLayout(Decompose(t));
  }

  /** A negative time is written as the fixed string, which is also how time 0
      is written. */
  lemma NegativeAsZero(t: int)
    requires t < 0
    ensures FormatTimestamp(t) == Sentinel == FormatTimestamp(0)
  {
    var c := Decompose(0);
    assert c == Clock(0, 0, 0);
    assert NatToString(0) == "0";
    assert PadStart("0", 2, '0') == "00";
    assert PadStart("0", 3, '0') == "000";
  }

  /** Every character of a string laid out as `m:ss.mmm` with digit fields
      is a digit, ':' or '.'. */
  lemma LaidOutChars(s: string)
    requires |s| >= 7 && s[|s| - 7] == ':' && s[|s| - 4] == '.'
    requires AllDigits(s[..|s| - 7]) && AllDigits(s[|s| - 6..|s| - 4]) && AllDigits(s[|s| - 3..])
    ensures forall i :: 0 <= i < |s| ==> IsStampChar(s[i])
  {
    forall i | 0 <= i < |s| ensures IsStampChar(s[i]) {
      if i < |s| - 7 {
        assert s[i] == s[..|s| - 7][i];
      } else if |s| - 6 <= i < |s| - 4 {
        assert s[i] == s[|s| - 6..|s| - 4][i - (|s| - 6)];
      } else if |s| - 3 <= i {
        assert s[i] == s[|s| - 3..][i - (|s| - 3)];
      }
    }
  }

  /** Every character of a formatted time is a digit, ':' or '.'. */
  lemma FormatChars(t: int)
    ensures forall i :: 0 <= i < |FormatTimestamp(t)| ==> IsStampChar(FormatTimestamp(t)[i])
  {
    var n := if t < 0 then 0 else t;
    if t < 0 {
      NegativeAsZero(t);
    }
    FormatLayout(n);
    LaidOutChars(FormatTimestamp(n));
  }

  lemma ParseFormatNat(n: nat)
    ensures ParseTimestamp(FormatTimestamp(n)) == Some(n)
  {
    ClockTextLayout(Decompose(n));
  }

  /** Reading a formatted time back gives the time; negative times read back
      as 0, the value of the fixed string. */
  lemma ParseFormat(t: int)
    ensures ParseTimestamp(FormatTimestamp(t)) == Some(if t < 0 then 0 else t)
  {
    if t < 0 {
      NegativeAsZero(t);
      ParseFormatNat(0);
    } else {
      ParseFormatNat(t);
    }
  }

  /** Distinct non-negative times are formatted differently. */
  lemma FormatInjective(a: nat, b: nat)
    requires FormatTimestamp(a) == FormatTimestamp(b)
    ensures a == b
  {
    ParseFormat(a);
    ParseFormat(b);
  }
}
