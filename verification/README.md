# Biathlon race replay — a Dafny model

This project models the core of a biathlon competition prototype written in Go.
A race is a log of time-stamped events. Each event has a kind (1 = registered,
2 = start drawn, 4 = started, 6 = target hit, 10 = main lap ended, 11 = cannot
continue, and so on) and names a competitor. The processor keeps one record per
competitor and holds a fixed registry from event kind to handler. Each handler
updates the record and returns a result: an error, a message and an optional
*derived* event. The controller replays the input events in order. It logs
every message, and it drains each chain of derived events before it reads the
next input event.

The model is functional. Every handler is a pure function from
`(Config, Competitor, Event)` to a new competitor record and an `EventResult`.
`ProcessEvent` dispatches through the registry. The replay is a fold
(`Controller.Replay`) together with a loop-shaped method
(`Controller.ProcessCompetition`) proved equal to it. The supporting value
types are modelled concretely:
- time of day in milliseconds, with Go's `15:04:05.000` parse and format;
- `TimeString`;
- `ParseDuration`, with `strconv.Atoi` and int64 wrap-around;
- the configuration record with its option loop and validation;
- the line-level readers of the event log and the event-definition catalogue.

Modules, one per source component:

| module | file | models |
|---|---|---|
| `Wrappers` | wrappers.dfy | `Option`, `Result`, Go's `(value, error)` pair |
| `GoInt` | goint.dfy | int64 wrap-around, `strconv.Atoi`, `strconv.Itoa` |
| `GoStrings` | gostrings.dfy | `strings.Split`, `Join`, `TrimSpace` |
| `Clock` | clock.dfy | `time.Parse` / `Format` with the layouts used, as milliseconds of the day |
| `TimeStrings` | timestring.dfy | `models.TimeString`, `ParseDuration` |
| `Competitors` | competitor.dfy | `models.Competitor`, field names for frame conditions |
| `EventModel` | event.dfy | `models.Event`, `EventResult`, `EventDefinition` |
| `Configs` | config.dfy | `config.Config`, `New`, validation, `GetStartDeltaDuration` |
| `Handlers` | handlers.dfy | the thirteen handlers |
| `Processors` | processor.dfy | `initHandlers`, `ProcessEvent` |
| `ProcessorFacts`, `StartDrawExample` | processor_facts.dfy | per-dispatch invariants; a worked start draw |
| `EventLog` | eventlog.dfy | `parseEventLine`, `ParseEvents`, `ParseEventDefinitions` over lines |
| `Controller` | controller.dfy | `NewCompetitionController`, its options, `ProcessCompetition` |

Where the Go code does not do what it appears to intend, the model follows the code:
- `parseEventLine` builds a `models.Event` literal with fields `ExtraParams` and `Competitors` that `models.Event` does not have. The `models.Competitor` literal inside it also has two type mismatches: `uint(competitorID)` goes into the `int` field `ID`, and the `string` from `t.Format` goes into the `TimeString` field `StartTime`. So the file does not compile as written. It also never sets `TimeStamp`. The model returns the tuple the line denotes: kind, extra parameter, time stamp and competitor id.
- A kind-11 event always derives a kind-34 event. Kind 34 has no handler, so Go calls a nil function and panics. The model makes that an explicit stop of the replay (`Halt.UnhandledKind(34)`), not a silent skip.
- `Start` is tagged `validate:"required"`, but a validator built with `validator.New()` does not apply `required` to a struct field, so a configuration without a start time is accepted (`Configs.StartNotRequired`). Every `register` event then takes its error path.
- The `timeformat` validation uses layout `15:04:05`. Go also accepts a fractional-seconds tail there (`00:00:30.5`). `ParseDuration` then reads the seconds field as 0 (`TimeStrings.DurationDropsFractionalSeconds`).

## Model

| member | source | states |
|---|---|---|
| Processors.Registry | internal/processor/processor.go:25-41 | the registry's domain is exactly kinds 1..11, 32 and 33; kind 34 is not in it |
| Processors.Apply | internal/processor/processor.go:26-40 | each handler writes only the fields of its own footprint; every other field is unchanged |
| Processors.ProcessEvent | internal/processor/processor.go:43-45 | a handler runs iff the kind is registered; an error result has an empty message and no derived event; only kinds 10 and 11 derive an event, of kind 33 or 34 respectively, with the trigger's time stamp and competitor (and reason, for 11) |
| Handlers.Register | internal/processor/processor.go:47-61 | `Registered` is set even when `Start` does not parse; the error occurs iff `Start` does not parse; on success the start time reads back as Start + delta × (ID−1) on a 24-hour clock and nothing but those two fields changes |
| Handlers.SetStartTime | internal/processor/processor.go:63-75 | fails iff the extra parameter is not a `15:04:05.000` clock, and then changes nothing; otherwise `StartedAt` reads back as that clock |
| Handlers.SetOnStartLine | internal/processor/processor.go:77-82 | sets `OnStartLine` and nothing else |
| Handlers.Start | internal/processor/processor.go:84-106 | fails iff the competitor is not on the start line, changing nothing; otherwise leaves the line and sets lap 1 |
| Handlers.SetOnFiringRange | internal/processor/processor.go:108-121 | `OnFiringRange` is set even on the error path; fails iff `Atoi` rejects the range number; any int64, including 0 and negatives, is stored |
| Handlers.Hit | internal/processor/processor.go:123-138 | fails iff not on a firing range, changing nothing; otherwise `Shots` and `Hits` each go up by one (int64), so equal counts stay equal |
| Handlers.LeftFiringRange | internal/processor/processor.go:140-145 | clears `OnFiringRange` and nothing else |
| Handlers.EnterPenaltyLaps | internal/processor/processor.go:147-153 | sets `OnPenaltyLap`; `PenaltyEnterTime` is a canonical `15:04:05.000` text that reads back as the event's time stamp |
| Handlers.LeftPenaltyLaps | internal/processor/processor.go:155-164 | clears `OnPenaltyLap`; the penalty time is not accumulated |
| Handlers.EndMainLap | internal/processor/processor.go:166-195 | fails iff `LastEventTime` does not parse, changing nothing; otherwise the lap goes up by one, `LastEventTime` is a canonical `15:04:05.000` text that reads back as the event time, and `Finished` is set and exactly one kind-33 event is derived iff the new lap exceeds `Laps` |
| Handlers.CantContinue | internal/processor/processor.go:197-209 | sets `CantContinue`; always derives one kind-34 event with the same reason, time stamp and competitor |
| Handlers.Disqualify | internal/processor/processor.go:211-213 | returns the zero result and changes nothing |
| Handlers.Finish | internal/processor/processor.go:215-217 | returns the zero result and changes nothing |
| ProcessorFacts.FootprintWriters | internal/processor/processor.go:26-40 | the per-field table of writing kinds agrees with the per-handler footprints (a consistency check between two tables; `ProcessorFacts.OnlyWritersWrite` is the property it serves) |
| ProcessorFacts.OnlyWritersWrite | internal/processor/processor.go:47-217 | a dispatch of a kind that does not own a field leaves that field unchanged |
| ProcessorFacts.UnwrittenFields | internal/models/competitor.go:3-22 | no handler changes `ID`, `LapTimes`, `PenaltyTime` or `Disqualified` |
| ProcessorFacts.PenaltyFieldsOwners | internal/processor/processor.go:147-164 | `OnPenaltyLap` changes only under kinds 8 and 9; `PenaltyEnterTime` changes only under kind 8 |
| ProcessorFacts.TerminalFlagsStay | internal/processor/processor.go:166-209 | `Finished` and `CantContinue` are never cleared |
| ProcessorFacts.ProcessAs | internal/processor/processor.go:43-45 | a registered kind runs exactly the handler it is registered with |
| ProcessorFacts.ShotsMatchHitsKept | internal/processor/processor.go:123-138 | every dispatch keeps `Shots == Hits` |
| ProcessorFacts.UntimedStaysUnfinished | internal/processor/processor.go:166-181 | a competitor whose `LastEventTime` does not parse keeps it unparsable and stays unfinished under every dispatch, and its kind-10 events fail |
| ProcessorFacts.FreshIsUntimed | internal/models/competitor.go:3-22 | the zero competitor is untimed, unfinished and has equal shots and hits |
| ProcessorFacts.DisqualifyAndFinishInert | internal/processor/processor.go:211-217 | kinds 32 and 33 leave the record as it was and return the zero result |
| ProcessorFacts.NotifyHasNoHandler | internal/processor/processor.go:26-44 | kind 34 has no handler |
| ProcessorFacts.ScheduledExact | internal/processor/processor.go:55-56 | when the start delta is whole seconds and the product fits in an int64, the scheduled start is exactly (Start + seconds × 1000 × (ID−1)) mod one day |
| StartDrawExample.ThirdBibStartsAMinuteLater | internal/processor/processor.go:47-56 | with start `10:00:00.000` and delta `00:00:30`, competitor 3 is scheduled at `10:01:00.000` |
| Controller.ProcessCompetition | internal/controller/controller.go:52-61 | the nested dispatch-and-drain loop computes the same records, log and stop as the fold `Replay`; without a processor it stops at once iff there are events |
| Controller.DispatchLog | internal/controller/controller.go:54-59 | per input event: an unhandled kind stops the replay and logs nothing; otherwise exactly the event's message is logged, errors included (as the empty message), earlier lines are kept, kind 11 stops on kind 34, and only kind 10 adds a second, derived line of kind 33 |
| Controller.DispatchFrame | internal/controller/controller.go:57 | derived events are dispatched against the input event's competitor; no other record changes |
| Controller.GiveUpDerives | internal/processor/processor.go:197-209 | a kind-11 dispatch always derives a kind-34 event |
| Controller.DispatchHalt | internal/controller/controller.go:54-59 | a dispatch lets the replay go on iff its kind is registered and is not 11, and names the missing kind otherwise |
| Controller.ReplayStaysHalted | internal/controller/controller.go:53-60 | once the replay has stopped, later events change nothing |
| Controller.ReplayKeepsLog | internal/controller/controller.go:55-58 | the log only grows; earlier lines are never altered |
| Controller.ReplayCompletes | internal/controller/controller.go:53-60 | the replay runs to the end iff every event's kind is registered and is not 11, whatever errors the handlers return; otherwise it stops with the missing kind of the first event that does not |
| Controller.ReplayInputs | internal/controller/controller.go:53-60 | the log's input lines are exactly the input events in order when the replay completes, and a prefix of them when it stops |
| Controller.ReplayNested | internal/controller/controller.go:56-59 | every derived line comes straight after the kind-10 input line that derived it: cascades have length at most one |
| Controller.DispatchSound | internal/controller/controller.go:54-59 | a dispatch against records that only handlers have written keeps them balanced, untimed and unfinished, and logs at most one line |
| Controller.ReplaySound | internal/controller/controller.go:53-60 | from such records, no competitor ever finishes or gets `Shots != Hits`, and no derived line is ever logged |
| Controller.NobodyFinishes | internal/controller/controller.go:53-60 | replayed from the zero state, no competitor finishes, whatever the events |
| Controller.ConfigureFails | internal/controller/controller.go:24-29 | the option loop fails iff some option fails, and then with the error of the first failing one |
| Controller.ConfigureProcessor | internal/controller/controller.go:34-39 | on success the processor is the one the last `WithProcessor` gave, and there is none without one |
| Controller.ConfigureEvents | internal/controller/controller.go:41-50 | on success the events are those the last `WithEventsFile` read, and there are none without one |
| Controller.NewControllerNil | internal/controller/controller.go:22-32 | the constructor returns nil iff some events file does not parse; otherwise the log starts empty |
| TimeStrings.Time | internal/models/timeString.go:46-48 | succeeds iff the stored text parses as `15:04:05.000`; on failure yields midnight; the zero value fails |
| TimeStrings.MustTime | internal/models/timeString.go:50-53 | the parsed time, or midnight when the text does not parse |
| TimeStrings.NewTimeString | internal/models/timeString.go:17-23 | succeeds iff the text parses; on success `String` returns the text verbatim; on failure the zero value |
| TimeStrings.NewTimeStringFromTime | internal/models/timeString.go:38-40 | the formatted clock always reads back as the same time of day |
| TimeStrings.UnmarshalJSON | internal/models/timeString.go:24-37 | the receiver is replaced iff the decoded string parses, and then by that exact string; otherwise it is unchanged |
| TimeStrings.ParseDuration | internal/models/timeString.go:55-68 | errors (with value 0) iff the text does not split into exactly three `:` fields; the value is always an int64 |
| TimeStrings.NonIntegerFieldsCountAsZero | internal/models/timeString.go:61-67 | a field that is not an integer and has at most 20 characters gives the same duration as `0` in its place, in each of the three positions |
| TimeStrings.EmptyDurationFields | internal/models/timeString.go:61-67 | an example: three empty fields, `"::"`, make a zero duration without error |
| TimeStrings.DurationOfClock | internal/models/timeString.go:55-68 | a validated `HH:MM:SS` delta is h·3600 + m·60 + s seconds |
| TimeStrings.DurationDropsFractionalSeconds | internal/models/timeString.go:61-63 | a validated delta with fractional seconds loses its whole seconds field |
| Clock.ParseFormat | internal/models/timeString.go:38-48 | parsing a formatted clock gives back the time of day |
| Clock.FormatParse | internal/models/timeString.go:38-40 | formatting the time of a canonical `HH:MM:SS.mmm` text gives the text back |
| Configs.New | internal/config/config.go:24-36 | a config is returned iff every option succeeds and the result validates; a failing option's error is reported |
| Configs.StartNotRequired | internal/config/config.go:18 | validation accepts the zero `Start` exactly when it accepts the same configuration with any other `Start` |
| Configs.NewStopsAtFirstFailure | internal/config/config.go:26-30 | options after the first failing one are never applied |
| Configs.GetStartDeltaDuration | internal/config/config.go:71-74 | the parsed delta, or 0 when it does not parse |
| Configs.ValidDeltaIsItsClock | internal/config/config.go:58-69 | a validated delta without a fraction is the duration its clock fields denote |
| GoInt.AtoiNonDecimal | internal/models/timeString.go:61-67 | `Atoi` reads any non-integer text of at most 20 characters as 0 with an error |
| GoInt.AtoiItoa | internal/events/events.go:110-118 | `Atoi` reads back every int64 that `Itoa` writes |
| GoStrings.JoinSplit | internal/events/events.go:120-123 | joining the pieces of a split gives the text back |
| GoStrings.SplitJoin | internal/events/events.go:120-123 | splitting separator-free pieces joined by the separator gives the pieces back |
| GoStrings.TrimSpaceInfix | internal/events/events.go:77 | `TrimSpace` removes exactly a white-space prefix and suffix |
| GoStrings.TrimSpaceEmpty | internal/events/events.go:77-80 | a line trims to empty iff it is all white space |
| EventLog.ParseEventLine | internal/events/events.go:98-130 | fewer than three single-space fields is an error; otherwise the fields are checked in order, time then kind then competitor, and the first that does not read names the error; an accepted line's time stamp, kind and competitor are the values read from fields 1-3, and its extra parameter re-splits into the fields after the third |
| EventLog.ParseFormattedLine | internal/events/events.go:98-130 | every event with int64 numbers is read back from its line, whatever spaces its extra parameter holds |
| EventLog.Classify | internal/events/events.go:76-85 | a line is blank iff it trims to empty; otherwise the trimmed line is parsed |
| EventLog.Collect | internal/events/events.go:75-88 | succeeds iff no line is rejected, with the accepted events in order; otherwise names the first rejected line |
| EventLog.FirstRejectedLine | internal/events/events.go:82-85 | the error's 1-based line number, blank lines counted, is the first rejected line, with its cause |
| EventLog.ParseEventsOk | internal/events/events.go:64-95 | the events parse iff every line is blank or a valid event |
| EventLog.ParseFormattedLog | internal/events/events.go:64-95 | a log written from well-formed events parses back to those events |
| EventLog.ReadRow | internal/events/events.go:30-54 | blank rows and rows with fewer than three `\|` parts are skipped; a bad id is an error; otherwise the trimmed fields are the definition |
| EventLog.Catalogue | internal/events/events.go:29-55 | succeeds iff no row has a bad id; otherwise the error is the first bad row's; every definition is stored under its own id |
| EventLog.HeaderIgnored | internal/events/events.go:25-27 | the first line is discarded whatever it holds |
| EventLog.LastDefinitionWins | internal/events/events.go:50-54 | a later row with the same id overwrites an earlier one |
| EventLog.UndefinedAbsent | internal/events/events.go:50-54 | an id no row defines is absent from the catalogue |
| EventLog.ReadFormattedRow | internal/events/events.go:35-54 | a definition with int64 id and trimmed, bar-free fields is read back from its row |

## Left out

- Rendering of messages with `fmt.Sprintf`. A message is the structured `Narration` value that would be rendered. The empty message is `Silent`.
- Error texts and error wrapping. An error is a `HandlerError` tag, a `LineError`, or a flag.
- File opening, `bufio.Scanner` and scanner errors. The events file and the definitions file are given as their lines.
- JSON decoding of the configuration (`parse`, `FromFile`) and of `TimeString`. A config option is any function from configuration to configuration or error. `TimeStrings.UnmarshalJSON` models only the step after the string has been decoded.
- The go-playground validator. `Configs.Valid` states its verdict: `required` means non-zero for the integer and string fields, and `timeformat` means the delta parses with layout `15:04:05`. `required` on the struct field `Start` is not enforced by a validator built with `validator.New()`, so `Valid` does not constrain `Start` (`Configs.StartNotRequired`).
- The date part of Go's `time.Time`, and time zones. A time of day is milliseconds since midnight. Go's add-then-format on the year-0 date wraps past midnight like the model's `% MsPerDay`.
- `StartDrawExample.ThirdBibStartsAMinuteLater`: a worked example, not a general law.
- The `Competitor` pointer in an event. The controller keeps the pointed-to records in a map keyed by competitor id, and an absent id is `Competitors.Fresh(id)`: the zero record with `ID` set to that id. The replay starts from an empty map. Go's controller struct holds no such map; its `competitorsInfo` field is never used, and it is left out.
- `GetOutputLog` and `GetResultTable`, which are empty stubs.
- The commented-out behaviour: late-start disqualification, penalty-time accumulation and lap-time recording. It is not modelled, because it does not run.
- `cmd/service/main.go` (process wiring, printing, `panic` on errors). It is not part of this model.
- A panic. Go panics when it calls a nil handler or a nil processor. The model stops the replay with a `Halt` value instead.
- Controller.ConfigureFails: stated for any reader of the events file, not only `EventLog.ParseEvents`. `Controller.NewControllerNil` applies it to `EventLog.ParseEvents`.
- Controller.ConfigureProcessor: likewise stated for any reader.
- Controller.ConfigureEvents: likewise stated for any reader.
- TimeStrings.NonIntegerFieldsCountAsZero: stated only for fields of at most 20 characters. A longer field may start with a digit run whose value exceeds 2^64−1. `Atoi` then reports the overflow before it reaches the bad character, and the field counts as an int64 bound, not 0. The definition computes this, but no lemma states it.
- TimeStrings.ParseDuration: the h·3600 + m·60 + s formula is proved only for fields below 100 (`TimeStrings.DurationOfClock`, `TimeStrings.DurationOfFields`). For larger fields the contract gives only the int64 range, though the definition computes the wrapped sum.
- Handlers.EndMainLap: the lap number in the message is stated only when the old lap is an int64. The definition computes Go's wrapped `CurrentLap-1` in every case.
- `EventLog.FormatEventLine`, `EventLog.FormatRow`, `GoInt.Itoa`: these writers do not exist in the program. They serve only to state the round trips of the readers.
- The `Comment` field of `models.Event`. No code path sets or reads it.
