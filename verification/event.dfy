/** `models.Event`, `models.EventResult` and `models.EventDefinition`. */
module EventModel {
  import opened Wrappers
  import opened Clock

  /** One occurrence in the race. `kind` is Go's `Event.ID`, the key the
      handler registry dispatches on; `target` identifies the competitor the
      event is about (Go holds a `*Competitor` there). */
  datatype Event = Event(kind: int, extraParam: string, timeStamp: TimeOfDay, target: int)

  /** A row of the event-definition catalogue. */
  datatype EventDefinition = EventDefinition(id: int, extraParams: string, comment: string)

  /** Why a handler refused an event. */
  datatype HandlerError =
    | StartNotParsable           // `config.Start` is not a clock
    | BadStartTime(competitor: int)
    | NotOnStartLine(competitor: int)
    | BadFiringRange
    | NotOnFiringRange(competitor: int)
    | BadLastEventTime

  /** The narration line a handler returns, before `fmt.Sprintf` renders
      it. `Silent` is the empty message. */
  datatype Narration =
    | Silent
    | Registered(at: TimeOfDay, competitor: int)
    | StartDrawn(at: TimeOfDay, competitor: int, drawn: string)
    | AtStartLine(at: TimeOfDay, competitor: int)
    | HasStarted(competitor: int)
    | AtFiringRange(competitor: int, range: int)
    | TargetHit(target: string, competitor: int)
    | LeftRange(competitor: int)
    | EnteredPenalty(competitor: int)
    | LeftPenalty(competitor: int)
    | EndedLap(competitor: int, lap: int)
    | CannotContinue(competitor: int, reason: string)

  /** What a handler returns: an error, a message and an optional event to
      be dispatched next. */
  datatype EventResult = EventResult(err: Option<HandlerError>, msg: Narration, outgoing: Option<Event>)

  /** Go's zero `EventResult{}`. */
  const Nothing: EventResult := EventResult(None, Silent, None)

  /** An error result as every handler builds it: only `Err` is set. */
  function Failure(e: HandlerError): EventResult {
    EventResult(Some(e), Silent, None)
  }
}
