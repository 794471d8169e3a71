/** The thirteen event handlers of `processor.Processor`. Go's handlers
    mutate the `*Competitor` they are given; here each is a pure function
    from the configuration, the competitor's state and the event to the new
    state and the result. */
module Handlers {
  import opened Wrappers
  import opened GoInt
  import opened Clock
  import opened TimeStrings
  import opened Competitors
  import opened EventModel
  import opened Configs

  /** A competitor's new state together with the handler's result. */
  datatype Step = Step(comp: Competitor, result: EventResult)

  /** The scheduled start `register` computes: `start` plus `delta`
      nanoseconds times `id - 1`, multiplied in int64, added on a 24-hour
      clock and truncated to milliseconds when formatted. */
  function ScheduledStart(start: TimeOfDay, delta: int, id: int): TimeOfDay {
    var at := start * NsPerMs + StartOffset(delta, id);
    at % NsPerDay / NsPerMs
  }

  /** `GetStartDeltaDuration() * time.Duration(comp.ID-1)` in int64. */
  function StartOffset(delta: int, id: int): int {
    Wrap(delta * Wrap(id - 1))
  }

  /** Kind 1. `Registered` is set before `config.Start` is read, so it is
      set on the error path too. */
  function Register(cfg: Config, c: Competitor, e: Event): (r: Step)
    ensures r.comp.registered
    ensures r.result.err.None? <==> Time(cfg.start).ok
    ensures !Time(cfg.start).ok ==>
      r.comp == c.(registered := true) && r.result == Failure(StartNotParsable)
    ensures Time(cfg.start).ok ==>
      && Time(r.comp.startTime)
         == Checked(ScheduledStart(Time(cfg.start).value, GetStartDeltaDuration(cfg), c.id), true)
      && Canonical(String(r.comp.startTime))
      && r.result == EventResult(None, Narration.Registered(e.timeStamp, c.id), None)
    ensures AgreeOutside(c, r.comp, {Field.Registered, Field.StartTime})
  {
    var registered := c.(registered := true);
    var start := Time(cfg.start);
    if !start.ok then Step(registered, Failure(StartNotParsable))
    else
      var at := ScheduledStart(start.value, GetStartDeltaDuration(cfg), registered.id);
      var st := NewTimeStringFromTime(at);
      KeepsAllBut2(c, true, st);
      Step(registered.(startTime := st),
           EventResult(None, Narration.Registered(e.timeStamp, registered.id), None))
  }

  /** Kind 2. The drawn start time comes from the extra parameter and is
      stored re-formatted. */
  function SetStartTime(cfg: Config, c: Competitor, e: Event): (r: Step)
    ensures r.result.err.None? <==> ParseClock(e.extraParam).Some?
    ensures ParseClock(e.extraParam).None? ==> r.comp == c && r.result == Failure(BadStartTime(c.id))
    ensures ParseClock(e.extraParam).Some? ==>
      && Time(r.comp.startedAt) == Checked(ParseClock(e.extraParam).value, true)
      && Canonical(String(r.comp.startedAt))
      && r.result == EventResult(None, StartDrawn(e.timeStamp, c.id, e.extraParam), None)
    ensures AgreeOutside(c, r.comp, {Field.StartedAt})
  {
    match ParseClock(e.extraParam)
    case None => Step(c, Failure(BadStartTime(c.id)))
    case Some(t) =>
      var st := NewTimeStringFromTime(t);
      KeepsAllBut1(c, st);
      Step(c.(startedAt := st),
           EventResult(None, StartDrawn(e.timeStamp, c.id, e.extraParam), None))
  }

  /** Kind 3. */
  function SetOnStartLine(cfg: Config, c: Competitor, e: Event): (r: Step)
    ensures r.comp.onStartLine
    ensures r.result == EventResult(None, AtStartLine(e.timeStamp, c.id), None)
    ensures AgreeOutside(c, r.comp, {Field.OnStartLine})
  {
    Step(c.(onStartLine := true), EventResult(None, AtStartLine(e.timeStamp, c.id), None))
  }

  /** Kind 4. Starting requires being on the start line; a start leaves the
      line and begins lap 1. */
  function Start(cfg: Config, c: Competitor, e: Event): (r: Step)
    ensures r.result.err.Some? <==> !c.onStartLine
    ensures !c.onStartLine ==> r.comp == c && r.result == Failure(NotOnStartLine(c.id))
    ensures c.onStartLine ==>
      && !r.comp.onStartLine && r.comp.currentLap == 1
      && r.result == EventResult(None, HasStarted(c.id), None)
    ensures AgreeOutside(c, r.comp, {Field.OnStartLine, Field.CurrentLap})
  {
    if !c.onStartLine then Step(c, Failure(NotOnStartLine(c.id)))
    else Step(c.(onStartLine := false, currentLap := 1), EventResult(None, HasStarted(c.id), None))
  }

  /** Kind 5. `OnFiringRange` is set before the range number is parsed, so
      it is set on the error path too; any integer is accepted as a range
      number. */
  function SetOnFiringRange(cfg: Config, c: Competitor, e: Event): (r: Step)
    ensures r.comp.onFiringRange
    ensures r.result.err.None? <==> Atoi(e.extraParam).ok
    ensures !Atoi(e.extraParam).ok ==>
      r.comp == c.(onFiringRange := true) && r.result == Failure(BadFiringRange)
    ensures Atoi(e.extraParam).ok ==>
      && r.comp.firingRangeNum == Atoi(e.extraParam).value
      && r.result == EventResult(None, AtFiringRange(c.id, Atoi(e.extraParam).value), None)
    ensures AgreeOutside(c, r.comp, {Field.OnFiringRange, Field.FiringRangeNum})
  {
    var onRange := c.(onFiringRange := true);
    var n := Atoi(e.extraParam);
    if !n.ok then Step(onRange, Failure(BadFiringRange))
    else Step(onRange.(firingRangeNum := n.value), EventResult(None, AtFiringRange(c.id, n.value), None))
  }

  /** Kind 6. A hit requires being on a firing range and counts one shot and
      one hit. */
  function Hit(cfg: Config, c: Competitor, e: Event): (r: Step)
    ensures r.result.err.Some? <==> !c.onFiringRange
    ensures !c.onFiringRange ==> r.comp == c && r.result == Failure(NotOnFiringRange(c.id))
    ensures c.onFiringRange ==>
      && r.comp.shots == Inc(c.shots) && r.comp.hits == Inc(c.hits)
      && r.result == EventResult(None, TargetHit(e.extraParam, c.id), None)
    ensures c.shots == c.hits ==> r.comp.shots == r.comp.hits
    ensures AgreeOutside(c, r.comp, {Field.Shots, Field.Hits})
  {
    if !c.onFiringRange then Step(c, Failure(NotOnFiringRange(c.id)))
    else
      Step(c.(shots := Inc(c.shots), hits := Inc(c.hits)),
           EventResult(None, TargetHit(e.extraParam, c.id), None))
  }

  /** Kind 7. */
  function LeftFiringRange(cfg: Config, c: Competitor, e: Event): (r: Step)
    ensures !r.comp.onFiringRange
    ensures r.result == EventResult(None, LeftRange(c.id), None)
    ensures AgreeOutside(c, r.comp, {Field.OnFiringRange})
  {
    Step(c.(onFiringRange := false), EventResult(None, LeftRange(c.id), None))
  }

  /** Kind 8. The entry time is the event's own time stamp. */
  function EnterPenaltyLaps(cfg: Config, c: Competitor, e: Event): (r: Step)
    ensures r.comp.onPenaltyLap
    ensures Time(r.comp.penaltyEnterTime) == Checked(e.timeStamp, true)
    ensures Canonical(String(r.comp.penaltyEnterTime))
    ensures r.result == EventResult(None, EnteredPenalty(c.id), None)
    ensures AgreeOutside(c, r.comp, {Field.OnPenaltyLap, Field.PenaltyEnterTime})
  {
    Step(c.(onPenaltyLap := true, penaltyEnterTime := NewTimeStringFromTime(e.timeStamp)),
         EventResult(None, EnteredPenalty(c.id), None))
  }

  /** Kind 9. The penalty time is not accumulated. */
  function LeftPenaltyLaps(cfg: Config, c: Competitor, e: Event): (r: Step)
    ensures !r.comp.onPenaltyLap
    ensures r.result == EventResult(None, LeftPenalty(c.id), None)
    ensures AgreeOutside(c, r.comp, {Field.OnPenaltyLap})
  {
    Step(c.(onPenaltyLap := false), EventResult(None, LeftPenalty(c.id), None))
  }

  /** Kind 10. Refused unless `LastEventTime` already parses; otherwise the
      lap count goes up and the event's time becomes the last event time.
      Passing the configured number of laps finishes the race and emits a
      kind-33 event. No lap time is recorded. */
  function EndMainLap(cfg: Config, c: Competitor, e: Event): (r: Step)
    ensures r.result.err.None? <==> Time(c.lastEventTime).ok
    ensures !Time(c.lastEventTime).ok ==> r.comp == c && r.result == Failure(BadLastEventTime)
    ensures Time(c.lastEventTime).ok ==>
      && r.comp.currentLap == Inc(c.currentLap)
      && Time(r.comp.lastEventTime) == Checked(e.timeStamp, true)
      && Canonical(String(r.comp.lastEventTime))
      && (InRange(c.currentLap) ==> r.result.msg == EndedLap(c.id, c.currentLap))
      && (r.comp.finished <==> c.finished || r.comp.currentLap > cfg.laps)
      && (r.result.outgoing.Some? <==> r.comp.currentLap > cfg.laps)
      && (r.result.outgoing.Some? ==> r.result.outgoing.value == Event(33, "", e.timeStamp, e.target))
    ensures AgreeOutside(c, r.comp, {Field.CurrentLap, Field.LastEventTime, Field.Finished})
  {
    if !Time(c.lastEventTime).ok then Step(c, Failure(BadLastEventTime))
    else
      var lap := Inc(c.currentLap);
      var last := NewTimeStringFromTime(e.timeStamp);
      var done := c.finished || lap > cfg.laps;
      KeepsAllBut3(c, lap, last, done);
      var lapped := c.(currentLap := lap, lastEventTime := last, finished := done);
      var msg := EndedLap(c.id, PreviousLap(c.currentLap));
      if lap > cfg.laps then
        Step(lapped, EventResult(None, msg, Some(Event(33, "", e.timeStamp, e.target))))
      else Step(lapped, EventResult(None, msg, None))
  }

  /** Go's `CurrentLap-1` evaluated after `CurrentLap++`: the old lap
      number whenever that was an int64. */
  function PreviousLap(x: int): (r: int)
    ensures InRange(x) ==> r == x
  {
    Wrap(Inc(x) - 1)
  }

  /** Kind 11. Always emits a kind-34 event carrying the same reason. */
  function CantContinue(cfg: Config, c: Competitor, e: Event): (r: Step)
    ensures r.comp.cantContinue
    ensures r.result == EventResult(None, CannotContinue(c.id, e.extraParam),
                                    Some(Event(34, e.extraParam, e.timeStamp, e.target)))
    ensures AgreeOutside(c, r.comp, {Field.CantContinue})
  {
    Step(c.(cantContinue := true),
         EventResult(None, CannotContinue(c.id, e.extraParam), Some(Event(34, e.extraParam, e.timeStamp, e.target))))
  }

  /** Kind 32: returns the zero result and changes nothing. */
  function Disqualify(cfg: Config, c: Competitor, e: Event): (r: Step)
    ensures r.comp == c && r.result == Nothing
  {
    Step(c, Nothing)
  }

  /** Kind 33: returns the zero result and changes nothing. */
  function Finish(cfg: Config, c: Competitor, e: Event): (r: Step)
    ensures r.comp == c && r.result == Nothing
  {
    Step(c, Nothing)
  }

  // The frames of the three handlers that store a formatted time, stated
  // apart from the formatting so that they are checked on plain values.

  lemma KeepsAllBut1(c: Competitor, startedAt: TimeString)
    ensures AgreeOutside(c, c.(startedAt := startedAt), {Field.StartedAt})
  {
  }

  lemma KeepsAllBut2(c: Competitor, registered: bool, startTime: TimeString)
    ensures AgreeOutside(c, c.(registered := registered, startTime := startTime),
                         {Field.Registered, Field.StartTime})
  {
  }

  lemma KeepsAllBut3(c: Competitor, lap: int, last: TimeString, finished: bool)
    ensures AgreeOutside(c, c.(currentLap := lap, lastEventTime := last, finished := finished),
                         {Field.CurrentLap, Field.LastEventTime, Field.Finished})
  {
  }
}
