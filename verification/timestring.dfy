/** `models.TimeString`: a time of day kept as the text it was read from,
    and `models.ParseDuration`. */
module TimeStrings {
  import opened Wrappers
  import opened GoInt
  import opened GoStrings
  import opened Clock

  /** The struct holds one string. Its zero value holds the empty string,
      which is not a clock, so a TimeString need not be valid. */
  datatype TimeString = TimeString(value: string)

  const Zero: TimeString := TimeString("")

  /** `ts.String()`. */
  function String(ts: TimeString): string {
    ts.value
  }

  /** `ts.Time()`: the stored text parsed with layout `15:04:05.000`. On
      failure Go returns the zero `time.Time`, whose clock reads midnight. */
  function Time(ts: TimeString): (r: Checked<TimeOfDay>)
    ensures r.ok <==> ParseClock(ts.value).Some?
    ensures r.ok ==> ParseClock(ts.value) == Some(r.value)
    ensures !r.ok ==> r.value == 0
    ensures ts == Zero ==> !r.ok
  {
    match ParseClock(ts.value)
    case Some(t) => Checked(t, true)
    case None => Checked(0, false)
  }

  /** `ts.MustTime()`: `Time` with the error dropped. */
  function MustTime(ts: TimeString): (t: TimeOfDay)
    ensures Time(ts).ok ==> Some(t) == ParseClock(ts.value)
    ensures ParseClock(ts.value).None? ==> t == 0
  {
    Time(ts).value
  }

  /** `NewTimeString(s)`: keeps `s` itself, not a re-formatted copy, once it
      parses; otherwise the zero value and an error. */
  function NewTimeString(s: string): (r: Checked<TimeString>)
    ensures r.ok <==> ParseClock(s).Some?
    ensures r.ok ==> String(r.value) == s && Time(r.value).ok
    ensures !r.ok ==> r.value == Zero
  {
    if ParseClock(s).Some? then Checked(TimeString(s), true) else Checked(Zero, false)
  }

  /** `NewTimeStringFromTime(t)`: the clock formatted with `15:04:05.000`.
      Reading it back gives the same time of day. */
  function NewTimeStringFromTime(t: TimeOfDay): (ts: TimeString)
    ensures Time(ts) == Checked(t, true)
    ensures Canonical(String(ts))
  {
    ParseFormat(t);
    TimeString(FormatClock(t))
  }

  /** The text-decoding step of `ts.UnmarshalJSON`: the receiver is replaced
      only by a string that parses as a clock. */
  function UnmarshalJSON(ts: TimeString, s: string): (r: Checked<TimeString>)
    ensures r.ok <==> ParseClock(s).Some?
    ensures r.ok ==> String(r.value) == s
    ensures !r.ok ==> r.value == ts
  {
    var parsed := NewTimeString(s);
    if parsed.ok then Checked(parsed.value, true) else Checked(ts, false)
  }

  /** `ParseDuration(s)` in nanoseconds: exactly three colon-separated
      fields, each read by `strconv.Atoi` with its error ignored. Go's int64
      products and sums wrap; wrapping the exact sum once gives the same
      value as wrapping each step. */
  function ParseDuration(s: string): (r: Checked<int>)
    ensures r.ok <==> Count(s, ':') == 2
    ensures !r.ok ==> r.value == 0
    ensures InRange(r.value)
  {
    var parts := Split(s, ':');
    if |parts| != 3 then Checked(0, false)
    else
      var h := Atoi(parts[0]).value;
      var m := Atoi(parts[1]).value;
      var sec := Atoi(parts[2]).value;
      Checked(Wrap(h * 3600 * NsPerSecond + m * 60 * NsPerSecond + sec * NsPerSecond), true)
  }

  /** An example of fields that are not integers counting as zero. */
  lemma EmptyDurationFields()
    ensures ParseDuration("::") == Checked(0, true)
  {
    assert Split("::", ':') == ["", "", ""] by {
      SplitJoin(["", "", ""], ':');
      assert Join(["", "", ""], ':') == "::";
    }
  }

  /** A field that is not an integer counts as `0`, wherever it stands, as
      long as it is at most 20 characters long (a longer field may start
      with a digit run above 2^64-1, which overflows first and counts as an
      int64 bound). */
  lemma NonIntegerFieldsCountAsZero(hs: string, ms: string, ss: string)
    requires ':' !in hs && ':' !in ms && ':' !in ss
    ensures !IsDecimal(hs) && |hs| <= 20 ==>
      ParseDuration(hs + ":" + ms + ":" + ss) == ParseDuration("0:" + ms + ":" + ss)
    ensures !IsDecimal(ms) && |ms| <= 20 ==>
      ParseDuration(hs + ":" + ms + ":" + ss) == ParseDuration(hs + ":0:" + ss)
    ensures !IsDecimal(ss) && |ss| <= 20 ==>
      ParseDuration(hs + ":" + ms + ":" + ss) == ParseDuration(hs + ":" + ms + ":0")
  {
    AtoiShortDigits("0");
    if !IsDecimal(hs) && |hs| <= 20 {
      AtoiNonDecimal(hs);
      SameReadings(hs, ms, ss, "0", ms, ss);
      assert "0:" + ms + ":" + ss == "0" + ":" + ms + ":" + ss;
    }
    if !IsDecimal(ms) && |ms| <= 20 {
      AtoiNonDecimal(ms);
      SameReadings(hs, ms, ss, hs, "0", ss);
      assert hs + ":0:" + ss == hs + ":" + "0" + ":" + ss;
    }
    if !IsDecimal(ss) && |ss| <= 20 {
      AtoiNonDecimal(ss);
      SameReadings(hs, ms, ss, hs, ms, "0");
      assert hs + ":" + ms + ":0" == hs + ":" + ms + ":" + "0";
    }
  }

  /** Fields that `Atoi` reads as the same numbers give the same duration. */
  lemma SameReadings(hs: string, ms: string, ss: string, hs': string, ms': string, ss': string)
    requires ':' !in hs && ':' !in ms && ':' !in ss
    requires ':' !in hs' && ':' !in ms' && ':' !in ss'
    requires Atoi(hs).value == Atoi(hs').value && Atoi(ms).value == Atoi(ms').value
    requires Atoi(ss).value == Atoi(ss').value
    ensures ParseDuration(hs + ":" + ms + ":" + ss) == ParseDuration(hs' + ":" + ms' + ":" + ss')
  {
    DurationOfThree(hs, ms, ss);
    DurationOfThree(hs', ms', ss');
  }

  /** Three colon-free fields joined by colons are read one by one. */
  lemma DurationOfThree(hs: string, ms: string, ss: string)
    requires ':' !in hs && ':' !in ms && ':' !in ss
    ensures ParseDuration(hs + ":" + ms + ":" + ss)
         == Checked(Wrap(Atoi(hs).value * 3600 * NsPerSecond + Atoi(ms).value * 60 * NsPerSecond
                         + Atoi(ss).value * NsPerSecond), true)
  {
    ColonJoin(hs + ":" + ms + ":" + ss, hs, ms, ss);
  }

  /** A text `HH:MM:SS` that the config validation accepts is the duration
      its clock fields denote. */
  lemma DurationOfClock(s: string)
    requires ParseSecondsLayout(s).Some? && !ParseSecondsLayout(s).value.fraction
    ensures var c := ParseSecondsLayout(s).value;
      ParseDuration(s) == Checked((c.hour * 3600 + c.minute * 60 + c.second) * NsPerSecond, true)
  {
    var c := ParseSecondsLayout(s).value;
    var w := HourField(s).value.1;
    var hs, ms, ss := s[..w], s[w + 1..w + 3], s[w + 4..];
    ClockSplit(s);
    ClockPieces(s);
    assert ss == s[w + 4..w + 6];
    AtoiShortDigits(hs);
    AtoiShortDigits(ms);
    AtoiShortDigits(ss);
    DurationOfFields(s, hs, ms, ss, c.hour, c.minute, c.second);
  }

  /** How `Split` cuts a clock that `ParseSecondsLayout` accepts: at the
      two colons. */
  lemma ClockSplit(s: string)
    requires ParseSecondsLayout(s).Some?
    ensures var w := HourField(s).value.1;
      |s| >= w + 6 && Split(s, ':') == [s[..w], s[w + 1..w + 3], s[w + 4..]]
  {
    var w := HourField(s).value.1;
    ClockColons(s);
    ColonCut(s, w);
    ColonJoin(s, s[..w], s[w + 1..w + 3], s[w + 4..]);
  }

  /** The only colons of such a clock are the two after the hour and the
      minutes. */
  lemma ClockColons(s: string)
    requires ParseSecondsLayout(s).Some?
    ensures var w := HourField(s).value.1;
      && |s| >= w + 6 && s[w] == ':' && s[w + 3] == ':'
      && ':' !in s[..w] && ':' !in s[w + 1..w + 3] && ':' !in s[w + 4..]
  {
    var c := ParseSecondsLayout(s).value;
    var w := HourField(s).value.1;
    ClockPieces(s);
    DigitsHaveNoColon(s[..w]);
    DigitsHaveNoColon(s[w + 1..w + 3]);
    if c.fraction {
      FractionPiece(s);
    } else {
      assert s[w + 4..] == s[w + 4..w + 6];
      DigitsHaveNoColon(s[w + 4..w + 6]);
    }
  }

  /** A text with colons at `w` and `w + 3` is its three pieces around
      them, joined by colons. */
  lemma ColonCut(s: string, w: nat)
    requires w + 4 <= |s| && s[w] == ':' && s[w + 3] == ':'
    ensures s == s[..w] + [':'] + s[w + 1..w + 3] + [':'] + s[w + 4..]
  {
    var r := s[..w] + [':'] + s[w + 1..w + 3] + [':'] + s[w + 4..];
    assert |r| == |s|;
    forall i | 0 <= i < |s| ensures r[i] == s[i] {
      if i < w {
      } else if i == w {
      } else if i < w + 3 {
        assert r[i] == s[w + 1..w + 3][i - w - 1];
      } else if i == w + 3 {
      } else {
        assert r[i] == s[w + 4..][i - w - 4];
      }
    }
  }

  lemma DigitsHaveNoColon(d: string)
    requires AllDigits(d)
    ensures ':' !in d
  {
  }

  /** Three colon-free fields joined by colons split back into themselves. */
  lemma ColonJoin(s: string, hs: string, ms: string, ss: string)
    requires ':' !in hs && ':' !in ms && ':' !in ss
    requires s == hs + [':'] + ms + [':'] + ss
    ensures Split(s, ':') == [hs, ms, ss]
  {
    Join3(hs, ms, ss, ':');
    SplitJoin([hs, ms, ss], ':');
  }

  /** `ParseDuration` on a text that splits into three fields whose `Atoi`
      values are below 100 reads them as hours, minutes and seconds. */
  lemma DurationOfFields(s: string, hs: string, ms: string, ss: string, h: int, m: int, sec: int)
    requires Split(s, ':') == [hs, ms, ss]
    requires Atoi(hs).value == h && Atoi(ms).value == m && Atoi(ss).value == sec
    requires 0 <= h < 100 && 0 <= m < 100 && 0 <= sec < 100
    ensures ParseDuration(s) == Checked((h * 3600 + m * 60 + sec) * NsPerSecond, true)
  {
    ShortDuration(h, m, sec);
  }

  /** Fields of at most two digits make a duration far inside int64. */
  lemma ShortDuration(h: int, m: int, sec: int)
    requires 0 <= h < 100 && 0 <= m < 100 && 0 <= sec < 100
    ensures Wrap(h * 3600 * NsPerSecond + m * 60 * NsPerSecond + sec * NsPerSecond)
            == (h * 3600 + m * 60 + sec) * NsPerSecond
  {
    var total := (h * 3600 + m * 60 + sec) * NsPerSecond;
    assert h * 3600 * NsPerSecond + m * 60 * NsPerSecond + sec * NsPerSecond == total;
    assert 0 <= total < 1_000_000 * NsPerSecond;
  }

  /** Where the hour, minute and second digits of a `15:04:05` clock sit. */
  lemma ClockPieces(s: string)
    requires ParseSecondsLayout(s).Some?
    ensures var c := ParseSecondsLayout(s).value;
      var w := HourField(s).value.1;
      && |s| >= w + 6 && s[w] == ':' && s[w + 3] == ':'
      && (!c.fraction ==> |s| == w + 6)
      && AllDigits(s[..w]) && DecimalValue(s[..w]) == c.hour
      && AllDigits(s[w + 1..w + 3]) && DecimalValue(s[w + 1..w + 3]) == c.minute
      && AllDigits(s[w + 4..w + 6]) && DecimalValue(s[w + 4..w + 6]) == c.second
  {
    var w := HourField(s).value.1;
    var rest := s[w..];
    assert rest[1] == s[w + 1] && rest[2] == s[w + 2] && rest[4] == s[w + 4] && rest[5] == s[w + 5];
    TwoDigitsValue(s[w + 1..w + 3]);
    TwoDigitsValue(s[w + 4..w + 6]);
    if w == 2 {
      TwoDigitsValue(s[..2]);
    } else {
      assert s[..1] == [s[0]];
      assert DecimalValue(s[..1]) == DecimalValue([]) * 10 + DigitValue(s[0]);
    }
  }

  lemma TwoDigitsValue(d: string)
    requires |d| == 2 && IsDigit(d[0]) && IsDigit(d[1])
    ensures AllDigits(d) && DecimalValue(d) == Two(d[0], d[1])
  {
    assert d[..1] == [d[0]];
    assert DecimalValue(d[..1]) == DecimalValue([]) * 10 + DigitValue(d[0]);
  }

  /** A seconds field with a fractional part, which the validation lets
      through, is not an integer: `ParseDuration` drops it to zero. */
  lemma DurationDropsFractionalSeconds(s: string)
    requires ParseSecondsLayout(s).Some? && ParseSecondsLayout(s).value.fraction
    ensures var c := ParseSecondsLayout(s).value;
      ParseDuration(s) == Checked((c.hour * 3600 + c.minute * 60) * NsPerSecond, true)
  {
    var c := ParseSecondsLayout(s).value;
    var w := HourField(s).value.1;
    var hs, ms, ss := s[..w], s[w + 1..w + 3], s[w + 4..];
    ClockSplit(s);
    ClockPieces(s);
    FractionPiece(s);
    AtoiShortDigits(hs);
    AtoiShortDigits(ms);
    AtoiFraction(ss);
    DurationOfFields(s, hs, ms, ss, c.hour, c.minute, 0);
  }

  /** The seconds field of a clock with a fraction: two digits, the
      separator, digits, and no colon. */
  lemma FractionPiece(s: string)
    requires ParseSecondsLayout(s).Some? && ParseSecondsLayout(s).value.fraction
    ensures var w := HourField(s).value.1;
      var ss := s[w + 4..];
      && |ss| >= 3 && IsDigit(ss[0]) && IsDigit(ss[1]) && IsFracSep(ss[2]) && ':' !in ss
  {
    var w := HourField(s).value.1;
    var tail := s[w..][6..];
    var ss := s[w + 4..];
    assert ss == s[w + 4..w + 6] + tail;
    assert AllDigits(tail[1..]) && IsFracSep(tail[0]);
    assert ss[2] == tail[0];
    forall i | 0 <= i < |ss| ensures ss[i] != ':' {
      if i >= 3 { assert ss[i] == tail[1..][i - 3]; }
    }
  }

  /** Two digits followed by a separator are not an integer to `Atoi`. */
  lemma AtoiFraction(ss: string)
    requires |ss| >= 3 && IsDigit(ss[0]) && IsDigit(ss[1]) && IsFracSep(ss[2])
    ensures Atoi(ss) == Checked(0, false)
  {
    assert !(ss[0] == '+' || ss[0] == '-');
    var a := DigitValue(ss[0]);
    assert ScanUint(ss, 0) == ScanUint(ss[1..], a);
    assert ss[1..][0] == ss[1] && ss[1..][1..] == ss[2..];
    assert ScanUint(ss[1..], a) == ScanUint(ss[2..], a * 10 + DigitValue(ss[1]));
    assert ss[2..][0] == ss[2] && !IsDigit(ss[2]);
    assert ScanUint(ss[2..], a * 10 + DigitValue(ss[1])) == SyntaxError;
  }
}
