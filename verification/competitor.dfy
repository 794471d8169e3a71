/** `models.Competitor`: the per-competitor race state the handlers
    transform. */
module Competitors {
  import opened TimeStrings

  /** Go's `int` fields are kept as mathematical integers; the handlers
      apply int64 wrap-around where they change them. */
  datatype Competitor = Competitor(
    id: int,
    startTime: TimeString,
    startedAt: TimeString,
    disqualified: bool,
    finished: bool,
    registered: bool,
    onStartLine: bool,
    currentLap: int,
    onFiringRange: bool,
    firingRangeNum: int,
    shots: int,
    hits: int,
    onPenaltyLap: bool,
    penaltyEnterTime: TimeString,
    penaltyTime: TimeString,
    lastEventTime: TimeString,
    lapTimes: seq<TimeString>,
    cantContinue: bool)

  /** The Go zero value with its ID set: what a competitor looks like
      before any event about it. */
  function Fresh(id: int): (c: Competitor)
    ensures c.id == id
  {
    Competitor(id, Zero, Zero, false, false, false, false, 0, false, 0, 0, 0,
               false, Zero, Zero, Zero, [], false)
  }

  /** Names of the record's fields, for stating which of them a transition
      may change. */
  datatype Field =
    | Id | StartTime | StartedAt | Disqualified | Finished | Registered
    | OnStartLine | CurrentLap | OnFiringRange | FiringRangeNum | Shots | Hits
    | OnPenaltyLap | PenaltyEnterTime | PenaltyTime | LastEventTime | LapTimes
    | CantContinue

  /** `c` and `d` hold the same value in field `f`. */
  predicate Agree(c: Competitor, d: Competitor, f: Field) {
    match f
    case Id => c.id == d.id
    case StartTime => c.startTime == d.startTime
    case StartedAt => c.startedAt == d.startedAt
    case Disqualified => c.disqualified == d.disqualified
    case Finished => c.finished == d.finished
    case Registered => c.registered == d.registered
    case OnStartLine => c.onStartLine == d.onStartLine
    case CurrentLap => c.currentLap == d.currentLap
    case OnFiringRange => c.onFiringRange == d.onFiringRange
    case FiringRangeNum => c.firingRangeNum == d.firingRangeNum
    case Shots => c.shots == d.shots
    case Hits => c.hits == d.hits
    case OnPenaltyLap => c.onPenaltyLap == d.onPenaltyLap
    case PenaltyEnterTime => c.penaltyEnterTime == d.penaltyEnterTime
    case PenaltyTime => c.penaltyTime == d.penaltyTime
    case LastEventTime => c.lastEventTime == d.lastEventTime
    case LapTimes => c.lapTimes == d.lapTimes
    case CantContinue => c.cantContinue == d.cantContinue
  }

  /** `d` differs from `c` at most in the fields of `fs`. */
  predicate AgreeOutside(c: Competitor, d: Competitor, fs: set<Field>) {
    forall f: Field :: f !in fs ==> Agree(c, d, f)
  }
}
