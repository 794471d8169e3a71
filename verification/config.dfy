/** `config.Config`: the race parameters, their construction from options
    and their validation. Decoding the JSON file is not modelled: an option
    is any function from the configuration so far to a new one or an
    error. */
module Configs {
  import opened Wrappers
  import opened GoInt
  import opened Clock
  import opened TimeStrings

  datatype Config = Config(
    laps: int,
    lapLen: int,
    penaltyLen: int,
    firingLines: int,
    start: TimeString,
    startDelta: string)

  /** Go's zero `Config{}`, where `New` starts. */
  const ZeroConfig: Config := Config(0, 0, 0, 0, Zero, "")

  /** The validator's verdict: `required` asks the integer and string
      fields for a non-zero value and `timeformat` asks `StartDelta` to parse
      with layout `15:04:05`. Nothing bounds the integers from below.
      `Start` is a struct, and a validator built by `validator.New()` does
      not apply `required` to a struct field; `TimeString`'s one field is
      unexported and carries no tag, so any `Start`, the zero one included,
      passes. */
  predicate Valid(c: Config) {
    && c.laps != 0 && c.lapLen != 0 && c.penaltyLen != 0 && c.firingLines != 0
    && c.startDelta != "" && ParseSecondsLayout(c.startDelta).Some?
  }

  /** Validation never looks at `Start`: a configuration with the zero
      start time is accepted exactly when the same one with any other start
      is. */
  lemma StartNotRequired(c: Config, start: TimeString)
    ensures Valid(c.(start := Zero)) <==> Valid(c.(start := start))
  {
  }

  /** `config.Option`: Go's `func(*Config) error`. */
  type ConfigOption = Config -> Result<Config, string>

  datatype ConfigError = OptionFailed(cause: string) | ValidationFailed

  /** Applies the options in order, stopping at the first that fails. */
  function ApplyOptions(c: Config, opts: seq<ConfigOption>): Result<Config, string>
    decreases |opts|
  {
    if |opts| == 0 then Ok(c)
    else
      match opts[0](c)
      case Err(e) => Err(e)
      case Ok(next) => ApplyOptions(next, opts[1..])
  }

  /** `config.New(opts...)`. */
  function New(opts: seq<ConfigOption>): (r: Result<Config, ConfigError>)
    ensures r.Ok? <==> ApplyOptions(ZeroConfig, opts).Ok? && Valid(ApplyOptions(ZeroConfig, opts).value)
    ensures r.Ok? ==> r.value == ApplyOptions(ZeroConfig, opts).value && Valid(r.value)
    ensures ApplyOptions(ZeroConfig, opts).Err? ==> r == Err(OptionFailed(ApplyOptions(ZeroConfig, opts).error))
  {
    match ApplyOptions(ZeroConfig, opts)
    case Err(e) => Err(OptionFailed(e))
    case Ok(c) => if Valid(c) then Ok(c) else Err(ValidationFailed)
  }

  /** Options after the first failing one are never applied: `New` reports
      that option's error whatever follows it. */
  lemma NewStopsAtFirstFailure(opts: seq<ConfigOption>, i: nat, rest: seq<ConfigOption>)
    requires i < |opts|
    requires ApplyOptions(ZeroConfig, opts[..i]).Ok?
    requires opts[i](ApplyOptions(ZeroConfig, opts[..i]).value).Err?
    ensures New(opts[..i + 1] + rest)
         == Err(OptionFailed(opts[i](ApplyOptions(ZeroConfig, opts[..i]).value).error))
  {
    FirstFailureStops(ZeroConfig, opts, i, rest);
  }

  lemma {:induction false} FirstFailureStops(c: Config, opts: seq<ConfigOption>, i: nat, rest: seq<ConfigOption>)
    requires i < |opts|
    requires ApplyOptions(c, opts[..i]).Ok? && opts[i](ApplyOptions(c, opts[..i]).value).Err?
    ensures ApplyOptions(c, opts[..i + 1] + rest) == Err(opts[i](ApplyOptions(c, opts[..i]).value).error)
    decreases i
  {
    var s := opts[..i + 1] + rest;
    if i > 0 {
      assert opts[..i][0] == opts[0] && s[0] == opts[0];
      var next := opts[0](c).value;
      assert opts[..i][1..] == opts[1..][..i - 1];
      FirstFailureStops(next, opts[1..], i - 1, rest);
      assert s[1..] == opts[1..][..i] + rest;
    } else {
      assert s[0] == opts[0];
    }
  }

  /** `GetStartDeltaDuration`: the parsed start delta in nanoseconds, with
      the parse error swallowed. */
  function GetStartDeltaDuration(c: Config): (d: int)
    ensures ParseDuration(c.startDelta).ok ==> d == ParseDuration(c.startDelta).value
    ensures !ParseDuration(c.startDelta).ok ==> d == 0
    ensures InRange(d)
  {
    ParseDuration(c.startDelta).value
  }

  /** For a validated configuration whose delta has no fractional seconds,
      the delta is exactly the clock it was validated as. */
  lemma ValidDeltaIsItsClock(c: Config)
    requires Valid(c) && !ParseSecondsLayout(c.startDelta).value.fraction
    ensures var k := ParseSecondsLayout(c.startDelta).value;
      GetStartDeltaDuration(c) == (k.hour * 3600 + k.minute * 60 + k.second) * NsPerSecond
  {
    DurationOfClock(c.startDelta);
  }
}
