/** Time of day as Go's `time` package parses and formats it with the
    layouts the program uses: `15:04:05.000`, `[15:04:05.000]` and
    `15:04:05`. A time of day is a count of milliseconds since midnight; the
    date Go attaches to a parsed clock (1 January of year 0) is not kept. */
module Clock {
  import opened Wrappers
  import opened GoInt

  const MsPerSecond: int := 1000
  const MsPerMinute: int := 60_000
  const MsPerHour: int := 3_600_000
  const MsPerDay: int := 86_400_000
  const NsPerMs: int := 1_000_000
  const NsPerSecond: int := 1_000_000_000
  const NsPerDay: int := 86_400_000_000_000

  type TimeOfDay = t: int | 0 <= t < MsPerDay

  /** The value of two decimal digits. */
  function Two(a: char, b: char): (n: nat)
    requires IsDigit(a) && IsDigit(b)
    ensures n < 100
  {
    DigitValue(a) * 10 + DigitValue(b)
  }

  /** Go's hour field (layout `15`): one digit, or two when a second digit
      follows. The result is the value and the number of characters read. */
  function HourField(s: string): (r: Option<(nat, nat)>)
    ensures r.Some? ==> r.value.1 in {1, 2} && r.value.1 <= |s| && r.value.0 < 100
  {
    if |s| == 0 || !IsDigit(s[0]) then None
    else if |s| >= 2 && IsDigit(s[1]) then Some((Two(s[0], s[1]), 2))
    else Some((DigitValue(s[0]), 1))
  }

  /** The `:04:05` part: a colon, two-digit minutes, a colon, two-digit
      seconds, each below 60. */
  function MinSec(rest: string): (r: Option<(nat, nat)>)
    ensures r.Some? ==> |rest| >= 6 && r.value.0 < 60 && r.value.1 < 60
  {
    if |rest| >= 6 && rest[0] == ':' && IsDigit(rest[1]) && IsDigit(rest[2])
       && rest[3] == ':' && IsDigit(rest[4]) && IsDigit(rest[5])
       && Two(rest[1], rest[2]) < 60 && Two(rest[4], rest[5]) < 60
    then Some((Two(rest[1], rest[2]), Two(rest[4], rest[5])))
    else None
  }

  /** Go accepts a comma as well as a period before fractional seconds. */
  predicate IsFracSep(c: char) {
    c == '.' || c == ','
  }

  /** The three characters after the separator in layout `.000`, read the
      way Go's `time` package reads them: an optional sign followed by
      digits, negative values refused. So `+12` is 12 ms and `-00` is 0. */
  function FracMillis(f: string): (r: Option<nat>)
    requires |f| == 3
    ensures r.Some? ==> r.value < 1000
    ensures AllDigits(f) ==> r == Some(DigitValue(f[0]) * 100 + Two(f[1], f[2]))
  {
    if IsDigit(f[0]) && IsDigit(f[1]) && IsDigit(f[2]) then
      Some(DigitValue(f[0]) * 100 + Two(f[1], f[2]))
    else if f[0] == '+' && IsDigit(f[1]) && IsDigit(f[2]) then Some(Two(f[1], f[2]))
    else if f[0] == '-' && f[1] == '0' && f[2] == '0' then Some(0)
    else None
  }

  /** Go's `time.Parse("15:04:05.000", s)`, reduced to the time of day. */
  function ParseClock(s: string): (r: Option<TimeOfDay>)
    ensures r.Some? ==> |s| in {11, 12} && IsFracSep(s[|s| - 4])
  {
    match HourField(s)
    case None => None
    case Some((h, w)) =>
      var rest := s[w..];
      match MinSec(rest)
      case None => None
      case Some((m, sec)) =>
        if h < 24 && |rest| == 10 && IsFracSep(rest[6]) && FracMillis(rest[7..]).Some? then
          Some(h * MsPerHour + m * MsPerMinute + sec * MsPerSecond + FracMillis(rest[7..]).value)
        else None
  }

  /** Go's `time.Parse("[15:04:05.000]", s)`: the clock in square brackets. */
  function ParseStamp(s: string): (r: Option<TimeOfDay>)
    ensures r.Some? ==> |s| >= 2 && s[0] == '[' && s[|s| - 1] == ']'
    ensures r.Some? <==> |s| >= 2 && s[0] == '[' && s[|s| - 1] == ']' && ParseClock(s[1..|s| - 1]).Some?
  {
    if |s| >= 2 && s[0] == '[' && s[|s| - 1] == ']' then ParseClock(s[1..|s| - 1]) else None
  }

  /** A clock read with layout `15:04:05`. */
  datatype SecondsClock = SecondsClock(hour: nat, minute: nat, second: nat, fraction: bool)

  /** Go's `time.Parse("15:04:05", s)`. After the seconds Go also accepts a
      period or comma followed by one or more digits, although the layout
      has no fractional part. */
  function ParseSecondsLayout(s: string): (r: Option<SecondsClock>)
    ensures r.Some? ==> r.value.hour < 24 && r.value.minute < 60 && r.value.second < 60
  {
    match HourField(s)
    case None => None
    case Some((h, w)) =>
      var rest := s[w..];
      match MinSec(rest)
      case None => None
      case Some((m, sec)) =>
        var tail := rest[6..];
        if h >= 24 then None
        else if tail == "" then Some(SecondsClock(h, m, sec, false))
        else if |tail| >= 2 && IsFracSep(tail[0]) && AllDigits(tail[1..]) then
          Some(SecondsClock(h, m, sec, true))
        else None
  }

  function Pad2(n: nat): (s: string)
    requires n < 100
    ensures |s| == 2 && IsDigit(s[0]) && IsDigit(s[1]) && Two(s[0], s[1]) == n
  {
    [DigitChar(n / 10), DigitChar(n % 10)]
  }

  function Pad3(n: nat): (s: string)
    requires n < 1000
    ensures |s| == 3 && AllDigits(s) && DigitValue(s[0]) * 100 + Two(s[1], s[2]) == n
  {
    [DigitChar(n / 100), DigitChar(n / 10 % 10), DigitChar(n % 10)]
  }

  /** Go's `t.Format("15:04:05.000")`: zero-padded fields, period separator. */
  function FormatClock(t: TimeOfDay): (s: string)
    ensures |s| == 12
  {
    Pad2(t / MsPerHour) + ":" + Pad2(t / MsPerMinute % 60) + ":"
      + Pad2(t / MsPerSecond % 60) + "." + Pad3(t % MsPerSecond)
  }

  /** The form `FormatClock` produces: `HH:MM:SS.mmm`, all digits. */
  predicate Canonical(s: string) {
    && |s| == 12 && IsDigit(s[0]) && IsDigit(s[1]) && s[2] == ':'
    && IsDigit(s[3]) && IsDigit(s[4]) && s[5] == ':' && IsDigit(s[6]) && IsDigit(s[7])
    && s[8] == '.' && IsDigit(s[9]) && IsDigit(s[10]) && IsDigit(s[11])
  }

  lemma Decompose(t: TimeOfDay)
    ensures t / MsPerHour < 24
    ensures t == t / MsPerHour * MsPerHour + t / MsPerMinute % 60 * MsPerMinute
                 + t / MsPerSecond % 60 * MsPerSecond + t % MsPerSecond
  {
  }

  /** Parsing undoes formatting. */
  lemma ParseFormat(t: TimeOfDay)
    ensures Canonical(FormatClock(t))
    ensures ParseClock(FormatClock(t)) == Some(t)
  {
    Decompose(t);
    ParseFields(FormatClock(t), t / MsPerHour, t / MsPerMinute % 60, t / MsPerSecond % 60, t % MsPerSecond);
  }

  /** Zero-padded fields joined as `FormatClock` joins them parse back to
      the time they denote. */
  lemma ParseFields(s: string, h: nat, m: nat, sec: nat, ms: nat)
    requires h < 24 && m < 60 && sec < 60 && ms < 1000
    requires s == Pad2(h) + ":" + Pad2(m) + ":" + Pad2(sec) + "." + Pad3(ms)
    ensures Canonical(s)
    ensures ParseClock(s) == Some(h * MsPerHour + m * MsPerMinute + sec * MsPerSecond + ms)
  {
    var rest := s[2..];
    assert s[..2] == Pad2(h);
    assert HourField(s) == Some((h, 2));
    assert rest[1..3] == s[3..5] == Pad2(m);
    assert rest[4..6] == s[6..8] == Pad2(sec);
    assert rest[7..] == s[9..] == Pad3(ms);
    assert MinSec(rest) == Some((m, sec));
  }

  /** Formatting undoes parsing on canonical text. */
  lemma FormatParse(s: string)
    requires Canonical(s) && ParseClock(s).Some?
    ensures FormatClock(ParseClock(s).value) == s
  {
    var t := ParseClock(s).value;
    CanonicalFields(s, t);
    FormatFields(s, t);
  }

  /** A canonical clock with in-range fields is what `FormatClock` makes of
      the time those fields denote. */
  lemma FormatFields(s: string, t: TimeOfDay)
    requires Canonical(s)
    requires Two(s[0], s[1]) < 24 && Two(s[3], s[4]) < 60 && Two(s[6], s[7]) < 60
    requires t == Two(s[0], s[1]) * MsPerHour + Two(s[3], s[4]) * MsPerMinute
                + Two(s[6], s[7]) * MsPerSecond + DigitValue(s[9]) * 100 + Two(s[10], s[11])
    ensures FormatClock(t) == s
  {
    var h := Two(s[0], s[1]);
    var m := Two(s[3], s[4]);
    var sec := Two(s[6], s[7]);
    var ms := DigitValue(s[9]) * 100 + Two(s[10], s[11]);
    ComposeFields(h, m, sec, ms);
    PaddedFields(s);
  }

  /** Each field of a canonical clock is the zero-padded text of its own
      value. */
  lemma PaddedFields(s: string)
    requires Canonical(s)
    requires Two(s[0], s[1]) < 24 && Two(s[3], s[4]) < 60 && Two(s[6], s[7]) < 60
    ensures s == Pad2(Two(s[0], s[1])) + ":" + Pad2(Two(s[3], s[4])) + ":" + Pad2(Two(s[6], s[7]))
                 + "." + Pad3(DigitValue(s[9]) * 100 + Two(s[10], s[11]))
  {
    Pad2Inverse(s[0], s[1]);
    Pad2Inverse(s[3], s[4]);
    Pad2Inverse(s[6], s[7]);
    Pad3Inverse(s[9], s[10], s[11]);
    assert s == [s[0], s[1]] + ":" + [s[3], s[4]] + ":" + [s[6], s[7]] + "." + [s[9], s[10], s[11]];
  }

  lemma Pad2Inverse(a: char, b: char)
    requires IsDigit(a) && IsDigit(b)
    ensures Pad2(Two(a, b)) == [a, b]
  {
    var p := Pad2(Two(a, b));
    SameTwo(p[0], p[1], a, b);
  }

  lemma Pad3Inverse(a: char, b: char, c: char)
    requires IsDigit(a) && IsDigit(b) && IsDigit(c)
    ensures Pad3(DigitValue(a) * 100 + Two(b, c)) == [a, b, c]
  {
    var p := Pad3(DigitValue(a) * 100 + Two(b, c));
    assert DigitValue(p[0]) == DigitValue(a);
    SameDigit(p[0], a);
    SameTwo(p[1], p[2], b, c);
  }

  /** The fields of a canonical clock and the time they parse to. */
  lemma CanonicalFields(s: string, t: TimeOfDay)
    requires Canonical(s) && ParseClock(s) == Some(t)
    ensures Two(s[0], s[1]) < 24 && Two(s[3], s[4]) < 60 && Two(s[6], s[7]) < 60
    ensures t == Two(s[0], s[1]) * MsPerHour + Two(s[3], s[4]) * MsPerMinute
                + Two(s[6], s[7]) * MsPerSecond + DigitValue(s[9]) * 100 + Two(s[10], s[11])
  {
    assert s[2..][7..] == s[9..];
  }

  /** Clock fields within their ranges are recovered by `FormatClock`'s
      divisions. */
  lemma ComposeFields(h: nat, m: nat, sec: nat, ms: nat)
    requires h < 24 && m < 60 && sec < 60 && ms < 1000
    ensures var t := h * MsPerHour + m * MsPerMinute + sec * MsPerSecond + ms;
      t / MsPerHour == h && t / MsPerMinute % 60 == m && t / MsPerSecond % 60 == sec && t % MsPerSecond == ms
  {
    var t := h * MsPerHour + m * MsPerMinute + sec * MsPerSecond + ms;
    var seconds := h * 3600 + m * 60 + sec;
    var minutes := h * 60 + m;
    assert t == seconds * 1000 + ms;
    DivBy1000(seconds, ms);
    assert seconds == minutes * 60 + sec;
    DivBy60(minutes, sec);
    assert t == minutes * 60_000 + (sec * 1000 + ms);
    DivBy60000(minutes, sec * 1000 + ms);
    DivBy60(h, m);
    assert t == h * 3_600_000 + (m * 60_000 + sec * 1000 + ms);
    DivBy3600000(h, m * 60_000 + sec * 1000 + ms);
  }

  // Quotient and remainder by the clock's fixed divisors.

  lemma DivBy60(q: int, r: int)
    requires 0 <= r < 60
    ensures (q * 60 + r) / 60 == q && (q * 60 + r) % 60 == r
  {
  }

  lemma DivBy1000(q: int, r: int)
    requires 0 <= r < 1000
    ensures (q * 1000 + r) / 1000 == q && (q * 1000 + r) % 1000 == r
  {
  }

  lemma DivBy60000(q: int, r: int)
    requires 0 <= r < 60_000
    ensures (q * 60_000 + r) / 60_000 == q
  {
  }

  lemma DivBy3600000(q: int, r: int)
    requires 0 <= r < 3_600_000
    ensures (q * 3_600_000 + r) / 3_600_000 == q
  {
  }

  lemma SameDigit(a: char, b: char)
    requires IsDigit(a) && IsDigit(b) && DigitValue(a) == DigitValue(b)
    ensures a == b
  {
  }

  lemma SameTwo(a: char, b: char, c: char, d: char)
    requires IsDigit(a) && IsDigit(b) && IsDigit(c) && IsDigit(d)
    requires Two(a, b) == Two(c, d)
    ensures a == c && b == d
  {
  }
}
