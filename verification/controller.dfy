/** `controller.CompetitionController`: the options that build it and the
    replay loop that feeds every event, and every event derived from it,
    through the processor. */
module Controller {
  import opened Wrappers
  import opened Competitors
  import opened EventModel
  import opened Processors
  import opened ProcessorFacts
  import EventLog

  /** One line of the output log: the message, together with the event it
      answers and whether that event was derived rather than read from the
      input. Go keeps only the message. */
  datatype Entry = Entry(event: Event, derived: bool, msg: Narration)

  /** Why a replay stopped early. Go panics when it calls a nil handler (a
      kind outside the registry) or a nil processor. */
  datatype Halt = UnhandledKind(kind: int) | NoProcessor

  /** The state of a replay: the competitor records the events point to,
      keyed by id (an absent id is at its zero value), the log so far, and
      whether the replay has stopped. */
  datatype Run = Run(table: map<int, Competitor>, log: seq<Entry>, halt: Option<Halt>)

  /** The record competitor `id` points to. */
  function Lookup(table: map<int, Competitor>, id: int): Competitor {
    if id in table then table[id] else Fresh(id)
  }

  /** Only kinds 10 and 11 derive an event, and what they derive derives
      nothing; this bounds the length of a cascade. */
  function Rank(e: Event): nat {
    if e.kind == 10 || e.kind == 11 then 1 else 0
  }

  /** One turn of `ProcessCompetition`'s outer loop: dispatch `e` against
      competitor `key`, log the message, and keep dispatching the derived
      event against the same competitor while there is one. */
  function Dispatch(p: Processor, r: Run, key: int, e: Event, derived: bool): Run
    requires r.halt.None?
    decreases Rank(e)
  {
    match ProcessEvent(p, Lookup(r.table, key), e)
    case None => r.(halt := Some(UnhandledKind(e.kind)))
    case Some(s) =>
      var next := Run(r.table[key := s.comp], r.log + [Entry(e, derived, s.result.msg)], None);
      match s.result.outgoing
      case None => next
      case Some(d) => Dispatch(p, next, key, d, true)
  }

  /** `ProcessCompetition` over `events`, as a fold: each input event is
      dispatched against its own competitor, and nothing runs after a
      stop. */
  function Replay(p: Processor, r: Run, events: seq<Event>): Run
    decreases |events|
  {
    if |events| == 0 then r
    else
      var before := Replay(p, r, events[..|events| - 1]);
      var e := events[|events| - 1];
      if before.halt.Some? then before else Dispatch(p, before, e.target, e, false)
  }

  /** An input event that leaves the replay running: it has a handler and is
      not a kind 11, whose derived kind 34 has none. */
  predicate Completes(e: Event) {
    e.kind in Registry() && e.kind != 11
  }

  /** The kind a replay stops on when it dispatches `e` and does not go on. */
  function HaltKind(e: Event): int {
    if e.kind in Registry() then 34 else e.kind
  }

  /** `x` is the kind-33 event derived from `e`, logged as derived. */
  predicate Follows(x: Entry, e: Event) {
    x.derived && x.event.kind == 33 && x.event.timeStamp == e.timeStamp && x.event.target == e.target
  }

  /** The input events of a log, in order. */
  function Inputs(log: seq<Entry>): seq<Event> {
    if |log| == 0 then []
    else
      var last := log[|log| - 1];
      Inputs(log[..|log| - 1]) + (if last.derived then [] else [last.event])
  }

  predicate IsPrefix<T(==)>(a: seq<T>, b: seq<T>) {
    |a| <= |b| && a == b[..|a|]
  }

  /** From position `from` on, every derived entry comes straight after the
      input entry of kind 10 that derived it: cascades have length at most
      one and sit right behind their trigger. */
  predicate Nested(log: seq<Entry>, from: int) {
    forall j :: 0 <= from <= j < |log| && log[j].derived ==>
      && from < j && !log[j - 1].derived && log[j - 1].event.kind == 10
      && Follows(log[j], log[j - 1].event)
  }

  // ---------------------------------------------------------------------
  // One dispatch

  /** Kind 11 always derives a kind-34 event. */
  lemma GiveUpDerives(p: Processor, c: Competitor, e: Event)
    requires e.kind == 11
    ensures ProcessEvent(p, c, e).Some?
    ensures var res := ProcessEvent(p, c, e).value.result;
      res.outgoing.Some? && res.outgoing.value.kind == 34
  {
    ProcessAs(p, c, e, Handler.CantContinue);
  }

  /** A dispatch touches only the competitor it is made against; the
      derived events run against the input event's competitor. */
  lemma {:induction false} DispatchFrame(p: Processor, r: Run, key: int, e: Event, derived: bool)
    requires r.halt.None?
    ensures forall k :: k != key ==> Lookup(Dispatch(p, r, key, e, derived).table, k) == Lookup(r.table, k)
    decreases Rank(e)
  {
    var res := ProcessEvent(p, Lookup(r.table, key), e);
    if res.Some? {
      var s := res.value;
      var next := Run(r.table[key := s.comp], r.log + [Entry(e, derived, s.result.msg)], None);
      if s.result.outgoing.Some? {
        DispatchFrame(p, next, key, s.result.outgoing.value, true);
      }
    }
  }

  /** What one input event adds to the log. An unhandled kind stops the
      replay and logs nothing. Otherwise the event's message is logged
      whatever the result's error (an error logs the empty message), a kind
      11 stops the replay on its derived kind 34, and only a kind 10 can
      add a second, derived line. */
  lemma {:induction false} DispatchLog(p: Processor, r: Run, key: int, e: Event, derived: bool)
    requires r.halt.None?
    ensures var r' := Dispatch(p, r, key, e, derived);
      && (e.kind !in Registry() ==> r' == r.(halt := Some(UnhandledKind(e.kind))))
      && (e.kind in Registry() ==>
           var res := ProcessEvent(p, Lookup(r.table, key), e).value.result;
           && |r.log| < |r'.log| && r'.log[..|r.log|] == r.log
           && r'.log[|r.log|] == Entry(e, derived, res.msg)
           && (res.err.Some? ==> res.msg == Silent)
           && (r'.halt.Some? <==> e.kind == 11)
           && (e.kind == 11 ==> r'.halt == Some(UnhandledKind(34)))
           && (|r'.log| == |r.log| + 1
               || (e.kind == 10 && |r'.log| == |r.log| + 2 && Follows(r'.log[|r.log| + 1], e))))
    decreases Rank(e)
  {
    var res := ProcessEvent(p, Lookup(r.table, key), e);
    if res.Some? {
      var s := res.value;
      var next := Run(r.table[key := s.comp], r.log + [Entry(e, derived, s.result.msg)], None);
      if e.kind == 11 {
        GiveUpDerives(p, Lookup(r.table, key), e);
      }
      if s.result.outgoing.Some? {
        var d := s.result.outgoing.value;
        DispatchLog(p, next, key, d, true);
        if d.kind == 33 {
          DisqualifyAndFinishInert(p, Lookup(next.table, key), d);
        }
      }
    }
  }

  // ---------------------------------------------------------------------
  // The whole replay

  /** Once a replay has stopped, later events change nothing. */
  lemma {:induction false} ReplayStaysHalted(p: Processor, r: Run, events: seq<Event>, i: int)
    requires 0 <= i <= |events| && Replay(p, r, events[..i]).halt.Some?
    ensures Replay(p, r, events) == Replay(p, r, events[..i])
    decreases |events|
  {
    if i < |events| {
      var init := events[..|events| - 1];
      assert init[..i] == events[..i];
      ReplayStaysHalted(p, r, init, i);
    } else {
      assert events[..i] == events;
    }
  }

  /** The log only grows: earlier lines are never altered. */
  lemma {:induction false} ReplayKeepsLog(p: Processor, r: Run, events: seq<Event>)
    requires r.halt.None?
    ensures IsPrefix(r.log, Replay(p, r, events).log)
    decreases |events|
  {
    if |events| > 0 {
      var init := events[..|events| - 1];
      var e := events[|events| - 1];
      var before := Replay(p, r, init);
      ReplayKeepsLog(p, r, init);
      if before.halt.None? {
        DispatchLog(p, before, e.target, e, false);
      }
    }
  }

  /** The index of the first input event that does not complete, or the
      number of events when all do. */
  function FirstStop(events: seq<Event>): (i: nat)
    ensures i <= |events|
    ensures forall j :: 0 <= j < i ==> Completes(events[j])
    ensures i < |events| ==> !Completes(events[i])
  {
    if |events| == 0 then 0
    else if !Completes(events[0]) then 0
    else 1 + FirstStop(events[1..])
  }

  /** Appending an event moves the first stop only if there was none. */
  lemma FirstStopSnoc(events: seq<Event>)
    requires |events| > 0
    ensures var n := |events|; var f := FirstStop(events[..n - 1]);
      && (f < n - 1 ==> FirstStop(events) == f)
      && (f == n - 1 ==> FirstStop(events) == if Completes(events[n - 1]) then n else n - 1)
  {
    var n := |events|;
    var init := events[..n - 1];
    assert forall j :: 0 <= j < n - 1 ==> init[j] == events[j];
  }

  /** Whether one dispatch lets the replay go on, and the kind it stops on
      if not. */
  lemma DispatchHalt(p: Processor, r: Run, key: int, e: Event, derived: bool)
    requires r.halt.None?
    ensures var r' := Dispatch(p, r, key, e, derived);
      && (r'.halt.None? <==> Completes(e))
      && (r'.halt.Some? ==> r'.halt == Some(UnhandledKind(HaltKind(e))))
  {
    DispatchLog(p, r, key, e, derived);
  }

  /** A replay runs to the end exactly when every input event completes;
      otherwise it stops on the first one that does not, with the kind
      that had no handler. */
  lemma {:induction false} ReplayCompletes(p: Processor, r: Run, events: seq<Event>)
    requires r.halt.None?
    ensures var r' := Replay(p, r, events);
      && (r'.halt.None? <==> forall i :: 0 <= i < |events| ==> Completes(events[i]))
      && (r'.halt.Some? ==> r'.halt == Some(UnhandledKind(HaltKind(events[FirstStop(events)]))))
  {
    ReplayStops(p, r, events);
  }

  lemma {:induction false} ReplayStops(p: Processor, r: Run, events: seq<Event>)
    requires r.halt.None?
    ensures var r' := Replay(p, r, events);
      && (r'.halt.None? <==> FirstStop(events) == |events|)
      && (r'.halt.Some? ==>
            FirstStop(events) < |events| && r'.halt == Some(UnhandledKind(HaltKind(events[FirstStop(events)]))))
    decreases |events|
  {
    if |events| > 0 {
      var n := |events|;
      var init := events[..n - 1];
      var e := events[n - 1];
      var before := Replay(p, r, init);
      ReplayStops(p, r, init);
      FirstStopSnoc(events);
      if before.halt.Some? {
        assert init[FirstStop(init)] == events[FirstStop(init)];
      } else {
        DispatchHalt(p, before, e.target, e, false);
      }
    }
  }

  /** The input lines of the log are the input events, in order: all of
      them when the replay completes, a prefix of them when it stops. */
  lemma {:induction false} ReplayInputs(p: Processor, r: Run, events: seq<Event>)
    requires r.halt.None?
    ensures var r' := Replay(p, r, events);
      && (r'.halt.None? ==> Inputs(r'.log) == Inputs(r.log) + events)
      && IsPrefix(Inputs(r'.log), Inputs(r.log) + events)
    decreases |events|
  {
    if |events| > 0 {
      var n := |events|;
      var init := events[..n - 1];
      var e := events[n - 1];
      var before := Replay(p, r, init);
      ReplayInputs(p, r, init);
      assert events == init + [e];
      if before.halt.None? {
        DispatchInputs(p, before, e.target, e);
        var after := Dispatch(p, before, e.target, e, false);
        InputsStep(Inputs(r.log), init, e, Inputs(after.log), after.halt.None?);
      } else {
        PrefixGrows(Inputs(before.log), Inputs(r.log) + init, e);
      }
    }
  }

  /** One input dispatch adds its event to the inputs of the log, unless it
      stops on an unhandled kind before logging it. */
  lemma DispatchInputs(p: Processor, r: Run, key: int, e: Event)
    requires r.halt.None?
    ensures var r' := Dispatch(p, r, key, e, false);
      && (r'.halt.None? ==> Inputs(r'.log) == Inputs(r.log) + [e])
      && IsPrefix(Inputs(r'.log), Inputs(r.log) + [e])
  {
    DispatchLog(p, r, key, e, false);
    var r' := Dispatch(p, r, key, e, false);
    if e.kind in Registry() {
      InputsOfDispatch(r.log, r'.log, e);
    }
  }

  lemma PrefixGrows(a: seq<Event>, b: seq<Event>, e: Event)
    requires IsPrefix(a, b)
    ensures IsPrefix(a, b + [e])
  {
    assert (b + [e])[..|a|] == b[..|a|];
  }

  lemma InputsStep(base: seq<Event>, init: seq<Event>, e: Event, after: seq<Event>, done: bool)
    requires IsPrefix(after, base + init + [e]) && (done ==> after == base + init + [e])
    ensures done ==> after == base + (init + [e])
    ensures IsPrefix(after, base + (init + [e]))
  {
    assert base + init + [e] == base + (init + [e]);
  }

  /** The lines a dispatch adds hold exactly one input line, the
      dispatched event's. */
  lemma InputsOfDispatch(log: seq<Entry>, log': seq<Entry>, e: Event)
    requires |log| < |log'| && log'[..|log|] == log
    requires log'[|log|].event == e && !log'[|log|].derived
    requires |log'| == |log| + 1 || (|log'| == |log| + 2 && log'[|log| + 1].derived)
    ensures Inputs(log') == Inputs(log) + [e]
  {
    var once := log'[..|log| + 1];
    assert once[..|log|] == log;
    if |log'| == |log| + 2 {
      assert log'[..|log'| - 1] == once;
    } else {
      assert log' == once;
    }
  }

  /** Every derived line of a replay sits right behind the kind-10 input
      line that derived it. */
  lemma {:induction false} ReplayNested(p: Processor, r: Run, events: seq<Event>)
    requires r.halt.None?
    ensures Nested(Replay(p, r, events).log, |r.log|)
    decreases |events|
  {
    if |events| > 0 {
      var init := events[..|events| - 1];
      var e := events[|events| - 1];
      var before := Replay(p, r, init);
      ReplayNested(p, r, init);
      ReplayKeepsLog(p, r, init);
      if before.halt.None? {
        DispatchLog(p, before, e.target, e, false);
        var after := Dispatch(p, before, e.target, e, false);
        NestedExtends(before.log, after.log, |r.log|, e);
      }
    }
  }

  lemma NestedExtends(log: seq<Entry>, log': seq<Entry>, from: int, e: Event)
    requires 0 <= from <= |log| && Nested(log, from)
    requires |log'| >= |log| && log'[..|log|] == log
    requires |log'| > |log| ==> !log'[|log|].derived && log'[|log|].event == e
    requires |log'| <= |log| + 1 || (e.kind == 10 && |log'| == |log| + 2 && Follows(log'[|log| + 1], e))
    ensures Nested(log', from)
  {
    forall j | 0 <= from <= j < |log'| && log'[j].derived
      ensures from < j && !log'[j - 1].derived && log'[j - 1].event.kind == 10
      ensures Follows(log'[j], log'[j - 1].event)
    {
      if j < |log| {
        assert log'[j] == log[j] && log'[j - 1] == log[j - 1];
      }
    }
  }

  // ---------------------------------------------------------------------
  // The zero state

  /** What holds of every competitor record that only the handlers have
      written, starting from its zero value. */
  predicate Sound(c: Competitor) {
    c.shots == c.hits && Untimed(c) && !c.finished
  }

  predicate SoundTable(t: map<int, Competitor>) {
    forall k :: k in t ==> Sound(t[k])
  }

  /** A dispatch against a sound competitor keeps it sound and logs no
      derived line: its kind 10 fails, so nothing derives a kind 33. */
  lemma DispatchSound(p: Processor, r: Run, key: int, e: Event, derived: bool)
    requires r.halt.None? && SoundTable(r.table)
    ensures var r' := Dispatch(p, r, key, e, derived);
      && SoundTable(r'.table)
      && |r'.log| <= |r.log| + 1
  {
    var c := Lookup(r.table, key);
    FreshIsUntimed(key);
    var res := ProcessEvent(p, c, e);
    if res.Some? {
      var s := res.value;
      ShotsMatchHitsKept(p, c, e);
      UntimedStaysUnfinished(p, c, e);
      var next := Run(r.table[key := s.comp], r.log + [Entry(e, derived, s.result.msg)], None);
      assert SoundTable(next.table);
      if s.result.outgoing.Some? {
        var d := s.result.outgoing.value;
        assert e.kind == 11 && d.kind == 34;
        NotifyHasNoHandler(p, Lookup(next.table, key), d);
      }
    }
  }

  /** Replayed from sound records, no competitor ever finishes or loses the
      `Shots == Hits` balance, and no derived line is ever logged. */
  lemma {:induction false} ReplaySound(p: Processor, r: Run, events: seq<Event>)
    requires r.halt.None? && SoundTable(r.table)
    ensures var r' := Replay(p, r, events);
      && SoundTable(r'.table)
      && forall j :: |r.log| <= j < |r'.log| ==> !r'.log[j].derived
    decreases |events|
  {
    if |events| > 0 {
      var init := events[..|events| - 1];
      var e := events[|events| - 1];
      var before := Replay(p, r, init);
      ReplaySound(p, r, init);
      ReplayKeepsLog(p, r, init);
      if before.halt.None? {
        DispatchSound(p, before, e.target, e, false);
        DispatchLog(p, before, e.target, e, false);
        var after := Dispatch(p, before, e.target, e, false);
        assert forall j :: |r.log| <= j < |before.log| ==> after.log[j] == before.log[j];
      }
    }
  }

  /** A replay from the zero state: no competitor finishes, whatever the
      events. */
  lemma NobodyFinishes(p: Processor, events: seq<Event>, id: int)
    ensures var r' := Replay(p, Run(map[], [], None), events);
      !Lookup(r'.table, id).finished && Lookup(r'.table, id).shots == Lookup(r'.table, id).hits
  {
    ReplaySound(p, Run(map[], [], None), events);
    FreshIsUntimed(id);
  }

  // ---------------------------------------------------------------------
  // The controller

  /** `CompetitionController`. `competitors` holds the records the events
      point to; `outLogs` the log. */
  datatype CompetitionController = CompetitionController(
    events: seq<Event>,
    proc: Option<Processor>,
    competitors: map<int, Competitor>,
    outLogs: seq<Entry>)

  /** The options `NewCompetitionController` takes. The events file is
      given as its lines. */
  datatype ControllerOption = WithProcessor(p: Processor) | WithEventsFile(lines: seq<string>)

  /** How `WithEventsFile` reads its lines. The option loop is stated for
      any reader; `NewCompetitionController` uses `EventLog.ParseEvents`. */
  type Reader = seq<string> -> Result<seq<Event>, EventLog.ParseError>

  /** The only option that can fail: an events file that does not read. */
  predicate Fails(read: Reader, o: ControllerOption) {
    o.WithEventsFile? && read(o.lines).Err?
  }

  function ApplyOption(read: Reader, c: CompetitionController, o: ControllerOption)
    : Result<CompetitionController, EventLog.ParseError>
  {
    match o
    case WithProcessor(p) => Ok(c.(proc := Some(p)))
    case WithEventsFile(lines) =>
      match read(lines)
      case Err(err) => Err(err)
      case Ok(es) => Ok(c.(events := es))
  }

  /** The option loop: options run in order on the zero controller, and the
      first that fails ends it. */
  function Configure(read: Reader, opts: seq<ControllerOption>): Result<CompetitionController, EventLog.ParseError>
    decreases |opts|
  {
    if |opts| == 0 then Ok(CompetitionController([], None, map[], []))
    else
      var before := Configure(read, opts[..|opts| - 1]);
      if before.Err? then before else ApplyOption(read, before.value, opts[|opts| - 1])
  }

  /** `NewCompetitionController(opts...)`: nil when an option fails,
      otherwise the configured controller with an empty log. */
  function NewCompetitionController(opts: seq<ControllerOption>): Option<CompetitionController> {
    var c := Configure(EventLog.ParseEvents, opts);
    if c.Err? then None else Some(c.value.(outLogs := []))
  }

  /** The index of the first failing option, or the number of options when
      none fails. */
  function FirstFailure(read: Reader, opts: seq<ControllerOption>): (i: nat)
    ensures i <= |opts|
    ensures forall j :: 0 <= j < i ==> !Fails(read, opts[j])
    ensures i < |opts| ==> Fails(read, opts[i])
  {
    if |opts| == 0 then 0
    else if Fails(read, opts[0]) then 0
    else 1 + FirstFailure(read, opts[1..])
  }

  /** The option loop fails exactly when some option fails, and then with
      the error of the first failing one: later options are not applied. */
  lemma ConfigureFails(read: Reader, opts: seq<ControllerOption>)
    ensures Configure(read, opts).Err? <==> exists i :: 0 <= i < |opts| && Fails(read, opts[i])
    ensures Configure(read, opts).Err? ==>
      Configure(read, opts).error == read(opts[FirstFailure(read, opts)].lines).error
  {
    ConfigureStops(read, opts);
  }

  lemma {:induction false} ConfigureStops(read: Reader, opts: seq<ControllerOption>)
    ensures Configure(read, opts).Err? <==> FirstFailure(read, opts) < |opts|
    ensures Configure(read, opts).Err? ==>
      Configure(read, opts).error == read(opts[FirstFailure(read, opts)].lines).error
    decreases |opts|
  {
    if |opts| > 0 {
      var n := |opts|;
      var init := opts[..n - 1];
      ConfigureStops(read, init);
      assert forall j :: 0 <= j < n - 1 ==> init[j] == opts[j];
      if Configure(read, init).Err? {
        assert init[FirstFailure(read, init)] == opts[FirstFailure(read, init)];
      }
    }
  }

  /** On success the processor is the one the last `WithProcessor` gave,
      and there is none without one; the records start empty. */
  lemma {:induction false} ConfigureProcessor(read: Reader, opts: seq<ControllerOption>)
    requires Configure(read, opts).Ok?
    ensures var c := Configure(read, opts).value;
      && c.competitors == map[]
      && (forall i :: (0 <= i < |opts| && opts[i].WithProcessor?
                        && forall j :: i < j < |opts| ==> !opts[j].WithProcessor?)
            ==> c.proc == Some(opts[i].p))
      && ((forall i :: 0 <= i < |opts| ==> !opts[i].WithProcessor?) ==> c.proc.None?)
    decreases |opts|
  {
    if |opts| > 0 {
      var n := |opts|;
      var init := opts[..n - 1];
      ConfigureProcessor(read, init);
      assert forall i :: 0 <= i < n - 1 ==> init[i] == opts[i];
    }
  }

  /** On success the events are those the last `WithEventsFile` read, and
      there are none without one. */
  lemma {:induction false} ConfigureEvents(read: Reader, opts: seq<ControllerOption>)
    requires Configure(read, opts).Ok?
    ensures var c := Configure(read, opts).value;
      && (forall i :: (0 <= i < |opts| && opts[i].WithEventsFile?
                        && forall j :: i < j < |opts| ==> !opts[j].WithEventsFile?)
            ==> read(opts[i].lines) == Ok(c.events))
      && ((forall i :: 0 <= i < |opts| ==> !opts[i].WithEventsFile?) ==> c.events == [])
    decreases |opts|
  {
    if |opts| > 0 {
      var n := |opts|;
      var init := opts[..n - 1];
      ConfigureEvents(read, init);
      assert forall i :: 0 <= i < n - 1 ==> init[i] == opts[i];
    }
  }

  /** `NewCompetitionController` returns nil exactly when one of the events
      files does not parse; otherwise its log is empty. */
  lemma NewControllerNil(opts: seq<ControllerOption>)
    ensures NewCompetitionController(opts).None?
        <==> exists i :: 0 <= i < |opts| && Fails(EventLog.ParseEvents, opts[i])
    ensures NewCompetitionController(opts).Some? ==> NewCompetitionController(opts).value.outLogs == []
  {
    ConfigureFails(EventLog.ParseEvents, opts);
  }

  /** `ProcessCompetition`: for each input event, dispatch it against its
      competitor and log the message; then, while the result carries a
      derived event, dispatch that against the same competitor and log
      again. A nil handler or a nil processor stops the loop where Go
      would panic. The loop agrees with `Replay`. */
  method ProcessCompetition(ctl: CompetitionController) returns (out: CompetitionController, halt: Option<Halt>)
    ensures ctl.proc.Some? ==>
      var r := Replay(ctl.proc.value, Run(ctl.competitors, ctl.outLogs, None), ctl.events);
      out == ctl.(competitors := r.table, outLogs := r.log) && halt == r.halt
    ensures ctl.proc.None? ==>
      out == ctl && (halt.None? <==> ctl.events == []) && (halt.Some? ==> halt.value == NoProcessor)
  {
    if ctl.proc.None? {
      return ctl, if ctl.events == [] then None else Some(NoProcessor);
    }
    var p := ctl.proc.value;
    var start := Run(ctl.competitors, ctl.outLogs, None);
    var table, log := ctl.competitors, ctl.outLogs;
    var i := 0;
    while i < |ctl.events|
      invariant 0 <= i <= |ctl.events|
      invariant Replay(p, start, ctl.events[..i]) == Run(table, log, None)
    {
      var event := ctl.events[i];
      var key := event.target;
      assert ctl.events[..i + 1][..i] == ctl.events[..i];
      ghost var goal := Dispatch(p, Run(table, log, None), key, event, false);
      assert Replay(p, start, ctl.events[..i + 1]) == goal;
      var first := ProcessEvent(p, Lookup(table, key), event);
      if first.None? {
        ReplayStaysHalted(p, start, ctl.events, i + 1);
        return ctl.(competitors := table, outLogs := log), Some(UnhandledKind(event.kind));
      }
      table, log := table[key := first.value.comp], log + [Entry(event, false, first.value.result.msg)];
      var result := first.value.result;
      while result.outgoing.Some?
        invariant result.outgoing.Some? ==> goal == Dispatch(p, Run(table, log, None), key, result.outgoing.value, true)
        invariant result.outgoing.None? ==> goal == Run(table, log, None)
        decreases if result.outgoing.Some? then 1 + Rank(result.outgoing.value) else 0
      {
        var derived := result.outgoing.value;
        var next := ProcessEvent(p, Lookup(table, key), derived);
        if next.None? {
          ReplayStaysHalted(p, start, ctl.events, i + 1);
          return ctl.(competitors := table, outLogs := log), Some(UnhandledKind(derived.kind));
        }
        table, log := table[key := next.value.comp], log + [Entry(derived, true, next.value.result.msg)];
        result := next.value.result;
      }
      i := i + 1;
    }
    assert ctl.events[..i] == ctl.events;
    return ctl.(competitors := table, outLogs := log), None;
  }
}
