/** Facts about single dispatches through the registry: which fields no
    handler writes, which flags only ever go one way, and the state
    properties every handler keeps. */
module ProcessorFacts {
  import opened Wrappers
  import opened GoInt
  import opened Clock
  import opened TimeStrings
  import opened Competitors
  import opened EventModel
  import opened Configs
  import H = Handlers
  import opened Processors

  /** The event kinds whose handler may write field `f`. */
  function Writers(f: Field): set<int> {
    match f
    case Registered => {1}
    case StartTime => {1}
    case StartedAt => {2}
    case OnStartLine => {3, 4}
    case CurrentLap => {4, 10}
    case OnFiringRange => {5, 7}
    case FiringRangeNum => {5}
    case Shots => {6}
    case Hits => {6}
    case OnPenaltyLap => {8, 9}
    case PenaltyEnterTime => {8}
    case LastEventTime => {10}
    case Finished => {10}
    case CantContinue => {11}
    case _ => {}
  }

  /** Every footprint in the registry is covered by `Writers`. `Writers` is
      `Footprint` read field by field, so this only checks that the two
      tables agree; the fact it serves is `OnlyWritersWrite`. */
  lemma FootprintWriters(k: int, f: Field)
    requires k in Registry() && f in Footprint(Registry()[k])
    ensures k in Writers(f)
  {
    RegistryKind(k);
    FootprintOwned(Registry()[k], f);
  }

  /** The kind each handler is registered under. */
  function KindOf(h: Handler): int {
    match h
    case Register => 1
    case SetStartTime => 2
    case SetOnStartLine => 3
    case Start => 4
    case SetOnFiringRange => 5
    case Hit => 6
    case LeftFiringRange => 7
    case EnterPenaltyLaps => 8
    case LeftPenaltyLaps => 9
    case EndMainLap => 10
    case CantContinue => 11
    case Disqualify => 32
    case Finish => 33
  }

  lemma RegistryKind(k: int)
    requires k in Registry()
    ensures KindOf(Registry()[k]) == k
  {
  }

  lemma FootprintOwned(h: Handler, f: Field)
    requires f in Footprint(h)
    ensures KindOf(h) in Writers(f)
  {
  }

  /** A dispatch leaves alone every field its kind is not a writer of. */
  lemma OnlyWritersWrite(p: Processor, c: Competitor, e: Event, f: Field)
    requires e.kind in Registry()
    ensures e.kind !in Writers(f) ==> Agree(c, ProcessEvent(p, c, e).value.comp, f)
  {
    if e.kind !in Writers(f) && f in Footprint(Registry()[e.kind]) {
      FootprintWriters(e.kind, f);
    }
  }

  /** No handler writes `ID`, `LapTimes`, `PenaltyTime` or `Disqualified`. */
  lemma UnwrittenFields(p: Processor, c: Competitor, e: Event)
    requires e.kind in Registry()
    ensures var d := ProcessEvent(p, c, e).value.comp;
      && d.id == c.id && d.lapTimes == c.lapTimes
      && d.penaltyTime == c.penaltyTime && d.disqualified == c.disqualified
  {
    OnlyWritersWrite(p, c, e, Id);
    OnlyWritersWrite(p, c, e, LapTimes);
    OnlyWritersWrite(p, c, e, PenaltyTime);
    OnlyWritersWrite(p, c, e, Disqualified);
  }

  /** `OnPenaltyLap` changes only under kinds 8 and 9, `PenaltyEnterTime`
      only under kind 8. */
  lemma PenaltyFieldsOwners(p: Processor, c: Competitor, e: Event)
    requires e.kind in Registry()
    ensures var d := ProcessEvent(p, c, e).value.comp;
      && (e.kind != 8 && e.kind != 9 ==> d.onPenaltyLap == c.onPenaltyLap)
      && (e.kind != 8 ==> d.penaltyEnterTime == c.penaltyEnterTime)
  {
    OnlyWritersWrite(p, c, e, OnPenaltyLap);
    OnlyWritersWrite(p, c, e, PenaltyEnterTime);
  }

  /** `Finished` and `CantContinue` are only ever set, never cleared. */
  lemma TerminalFlagsStay(p: Processor, c: Competitor, e: Event)
    requires e.kind in Registry()
    ensures var d := ProcessEvent(p, c, e).value.comp;
      (c.finished ==> d.finished) && (c.cantContinue ==> d.cantContinue)
  {
    OnlyWritersWrite(p, c, e, Finished);
    OnlyWritersWrite(p, c, e, Field.CantContinue);
    if e.kind == 10 {
      ProcessAs(p, c, e, Handler.EndMainLap);
    }
    if e.kind == 11 {
      ProcessAs(p, c, e, Handler.CantContinue);
    }
  }

  /** A registered kind runs the handler it is registered with. */
  lemma ProcessAs(p: Processor, c: Competitor, e: Event, h: Handler)
    requires e.kind in Registry() && Registry()[e.kind] == h
    ensures ProcessEvent(p, c, e) == Some(Apply(h, p.config, c, e))
  {
  }

  /** Shots and hits only move together. */
  lemma ShotsMatchHitsKept(p: Processor, c: Competitor, e: Event)
    requires e.kind in Registry() && c.shots == c.hits
    ensures ProcessEvent(p, c, e).value.comp.shots == ProcessEvent(p, c, e).value.comp.hits
  {
    OnlyWritersWrite(p, c, e, Shots);
    OnlyWritersWrite(p, c, e, Hits);
    if e.kind == 6 {
      ProcessAs(p, c, e, Handler.Hit);
    }
  }

  /** A competitor whose last event time does not parse. */
  predicate Untimed(c: Competitor) {
    ParseClock(c.lastEventTime.value).None?
  }

  /** Only `endMainLap` writes `LastEventTime`, and only after checking that
      it already parses; so an untimed, unfinished competitor stays untimed
      and unfinished, and its kind-10 events fail. */
  lemma UntimedStaysUnfinished(p: Processor, c: Competitor, e: Event)
    requires e.kind in Registry() && Untimed(c) && !c.finished
    ensures var s := ProcessEvent(p, c, e).value;
      Untimed(s.comp) && !s.comp.finished && (e.kind == 10 ==> s.result.err.Some?)
  {
    OnlyWritersWrite(p, c, e, LastEventTime);
    OnlyWritersWrite(p, c, e, Finished);
    if e.kind == 10 {
      ProcessAs(p, c, e, Handler.EndMainLap);
    }
  }

  /** A fresh competitor is untimed, unfinished and has equal shots and
      hits. */
  lemma FreshIsUntimed(id: int)
    ensures Untimed(Fresh(id)) && !Fresh(id).finished && Fresh(id).shots == Fresh(id).hits
  {
    assert Time(Zero).ok == false;
  }

  /** Kinds 32 and 33 return the zero result and change nothing. */
  lemma DisqualifyAndFinishInert(p: Processor, c: Competitor, e: Event)
    requires e.kind == 32 || e.kind == 33
    ensures ProcessEvent(p, c, e) == Some(H.Step(c, Nothing))
  {
  }

  /** Kind 34, which `cantContinue` emits, has no handler. */
  lemma NotifyHasNoHandler(p: Processor, c: Competitor, e: Event)
    requires e.kind == 34
    ensures ProcessEvent(p, c, e).None?
  {
  }

  /** The start `register` assigns (see `Handlers.Register`) is
      `Start + (ID - 1) * StartDelta` on a 24-hour clock, exactly, whenever
      the delta is whole seconds and the product fits in an int64. */
  lemma ScheduledExact(start: TimeOfDay, seconds: int, id: int)
    requires InRange(id - 1) && InRange(seconds * NsPerSecond * (id - 1))
    ensures H.ScheduledStart(start, seconds * NsPerSecond, id)
         == (start + seconds * MsPerSecond * (id - 1)) % MsPerDay
  {
    var m := seconds * (id - 1);
    assert seconds * NsPerSecond * (id - 1) == m * NsPerSecond;
    assert seconds * MsPerSecond * (id - 1) == m * MsPerSecond;
    assert H.StartOffset(seconds * NsPerSecond, id) == m * NsPerSecond;
    var x := start + m * MsPerSecond;
    assert start * NsPerMs + m * NsPerSecond == x * NsPerMs;
    ScaleMod(x);
  }

  /** Reducing nanoseconds modulo a day and truncating to milliseconds is
      reducing the milliseconds modulo a day. */
  lemma ScaleMod(x: int)
    ensures x * NsPerMs % NsPerDay / NsPerMs == x % MsPerDay
  {
    var q := x / MsPerDay;
    var r := x % MsPerDay;
    assert x * NsPerMs == q * NsPerDay + r * NsPerMs;
    assert 0 <= r * NsPerMs < NsPerDay;
  }
}

/** A worked case of the start draw. */
module StartDrawExample {
  import opened Wrappers
  import opened GoInt
  import opened Clock
  import opened TimeStrings
  import opened Competitors
  import opened EventModel
  import opened Configs
  import opened ProcessorFacts
  import H = Handlers

  /** With the race opening at 10:00:00.000 and a 30-second interval, the
      competitor with bib 3 is scheduled for 10:01:00.000. */
  lemma ThirdBibStartsAMinuteLater(cfg: Config, e: Event)
    requires cfg.start == TimeString("10:00:00.000") && cfg.startDelta == "00:00:30"
    ensures H.Register(cfg, Fresh(3), e).comp.startTime == TimeString("10:01:00.000")
  {
    var st := H.Register(cfg, Fresh(3), e).comp.startTime;
    OpeningParses();
    ThirtySeconds();
    var start, id := Time(cfg.start).value, Fresh(3).id;
    assert start == 36_000_000 && id == 3;
    ScheduledExact(start, 30, id);
    WithinDay(start + 30 * MsPerSecond * (id - 1));
    assert Time(st) == Checked(36_060_000, true);
    FormatParse(st.value);
    OneMinutePastTen();
  }

  lemma OneMinutePastTen()
    ensures FormatClock(36_060_000) == "10:01:00.000"
  {
  }

  lemma WithinDay(x: int)
    requires 0 <= x < MsPerDay
    ensures x % MsPerDay == x
  {
  }

  lemma OpeningParses()
    ensures Time(TimeString("10:00:00.000")) == Checked(36_000_000, true)
  {
    assert FormatClock(36_000_000) == "10:00:00.000";
    ParseFormat(36_000_000);
  }

  lemma ThirtySeconds()
    ensures ParseDuration("00:00:30") == Checked(30 * NsPerSecond, true)
  {
    assert HourField("00:00:30") == Some((0, 2));
    assert ParseSecondsLayout("00:00:30") == Some(SecondsClock(0, 0, 30, false));
    DurationOfClock("00:00:30");
  }
}
