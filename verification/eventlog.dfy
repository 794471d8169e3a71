/** `events.ParseEvents`, `events.parseEventLine` and
    `events.ParseEventDefinitions`, taken over the lines of a file. */
module EventLog {
  import opened Wrappers
  import opened GoInt
  import opened GoStrings
  import opened Clock
  import opened EventModel

  /** Why `parseEventLine` rejected a line. */
  datatype LineError =
    | TooFewFields          // fewer than three space-separated fields
    | BadTime               // the first field is not `[15:04:05.000]`
    | BadKind               // the second field is not an integer
    | BadCompetitor         // the third field is not an integer

  /** `ParseEvents`' error: the 1-based number of the line, blank lines
      counted, and what was wrong with it. */
  datatype ParseError = ParseError(line: nat, cause: LineError)

  /** `parseEventLine`: fields are separated by single spaces; everything
      after the third field, spaces included, is the extra parameter. The
      result is the tuple the line denotes: kind, extra parameter, time and
      competitor number. */
  function ParseEventLine(line: string): (r: Result<Event, LineError>)
    ensures var parts := Split(line, ' ');
      && (|parts| < 3 ==> r == Err(TooFewFields))
      && (r.Ok? <==> |parts| >= 3 && ParseStamp(parts[0]).Some?
                       && Atoi(parts[1]).ok && Atoi(parts[2]).ok)
      && (r.Ok? ==> Split(r.value.extraParam, ' ') == (if |parts| == 3 then [""] else parts[3..]))
    ensures var parts := Split(line, ' ');
      r.Ok? ==>
        && ParseStamp(parts[0]) == Some(r.value.timeStamp)
        && r.value.kind == Atoi(parts[1]).value
        && r.value.target == Atoi(parts[2]).value
    ensures var parts := Split(line, ' ');
      && (|parts| >= 3 && ParseStamp(parts[0]).None? ==> r == Err(BadTime))
      && (|parts| >= 3 && ParseStamp(parts[0]).Some? && !Atoi(parts[1]).ok ==> r == Err(BadKind))
      && ((|parts| >= 3 && ParseStamp(parts[0]).Some? && Atoi(parts[1]).ok && !Atoi(parts[2]).ok)
          ==> r == Err(BadCompetitor))
  {
    var parts := Split(line, ' ');
    if |parts| < 3 then Err(TooFewFields)
    else
      match ParseStamp(parts[0])
      case None => Err(BadTime)
      case Some(t) =>
        var kind := Atoi(parts[1]);
        if !kind.ok then Err(BadKind)
        else
          var competitor := Atoi(parts[2]);
          if !competitor.ok then Err(BadCompetitor)
          else
            var extra := if |parts| > 3 then Join(parts[3..], ' ') else "";
            ExtraSplits(parts);
            Ok(Event(kind.value, extra, t, competitor.value))
  }

  /** Re-splitting the rejoined tail gives the tail back. */
  lemma ExtraSplits(parts: seq<string>)
    requires |parts| >= 3
    requires forall i :: 0 <= i < |parts| ==> ' ' !in parts[i]
    ensures Split(if |parts| > 3 then Join(parts[3..], ' ') else "", ' ')
         == (if |parts| == 3 then [""] else parts[3..])
  {
    if |parts| > 3 {
      SplitJoin(parts[3..], ' ');
    }
  }

  /** The line a log would hold for `e`. */
  function FormatEventLine(e: Event): string {
    "[" + FormatClock(e.timeStamp) + "] " + Itoa(e.kind) + " " + Itoa(e.target)
      + (if e.extraParam == "" then "" else " " + e.extraParam)
  }

  /** Every event whose numbers fit in an int is read back from its line,
      whatever spaces its extra parameter holds. */
  lemma ParseFormattedLine(e: Event)
    requires InRange(e.kind) && InRange(e.target)
    ensures ParseEventLine(FormatEventLine(e)) == Ok(e)
  {
    var stamp := "[" + FormatClock(e.timeStamp) + "]";
    var parts := Split(FormatEventLine(e), ' ');
    FormattedFields(e);
    assert stamp[1..|stamp| - 1] == FormatClock(e.timeStamp);
    ParseFormat(e.timeStamp);
    assert ParseStamp(parts[0]) == Some(e.timeStamp);
    AtoiItoa(e.kind);
    AtoiItoa(e.target);
    if e.extraParam != "" {
      JoinSplit(e.extraParam, ' ');
    }
  }

  /** How a formatted line splits into fields. */
  lemma FormattedFields(e: Event)
    ensures var parts := Split(FormatEventLine(e), ' ');
      && |parts| >= 3
      && parts[0] == "[" + FormatClock(e.timeStamp) + "]"
      && parts[1] == Itoa(e.kind) && parts[2] == Itoa(e.target)
      && (e.extraParam == "" ==> |parts| == 3)
      && (e.extraParam != "" ==> |parts| > 3 && parts[3..] == Split(e.extraParam, ' '))
  {
    var stamp := "[" + FormatClock(e.timeStamp) + "]";
    var kind, target := Itoa(e.kind), Itoa(e.target);
    SpaceFreeStamp(e.timeStamp);
    SpaceFreeNumber(e.kind);
    SpaceFreeNumber(e.target);
    var rest := if e.extraParam == "" then target else target + [' '] + e.extraParam;
    assert FormatEventLine(e) == stamp + [' '] + (kind + [' '] + rest);
    SplitAfterPiece(stamp, kind + [' '] + rest, ' ');
    SplitAfterPiece(kind, rest, ' ');
    if e.extraParam == "" {
      SplitSepFree(target, ' ');
    } else {
      SplitAfterPiece(target, e.extraParam, ' ');
      assert ([stamp] + ([kind] + ([target] + Split(e.extraParam, ' '))))[3..] == Split(e.extraParam, ' ');
    }
  }

  lemma SpaceFreeStamp(t: TimeOfDay)
    ensures ' ' !in "[" + FormatClock(t) + "]"
  {
    ParseFormat(t);
    var s := "[" + FormatClock(t) + "]";
    forall i | 0 <= i < |s| ensures s[i] != ' ' {
      if 0 < i < |s| - 1 {
        assert s[i] == FormatClock(t)[i - 1];
      }
    }
  }

  lemma SpaceFreeNumber(n: int)
    ensures ' ' !in Itoa(n)
  {
    var s := Itoa(n);
    var d := Digits(if n < 0 then -n else n);
    forall i | 0 <= i < |s| ensures s[i] != ' ' {
      if n < 0 && i > 0 {
        assert s[i] == d[i - 1];
      }
    }
  }

  /** What one turn of `ParseEvents`' loop makes of a line. */
  datatype LineOutcome = Blank | Parsed(event: Event) | Rejected(cause: LineError)

  /** A line is trimmed; blank lines are skipped, the rest go to
      `parseEventLine`. */
  function Classify(line: string): (o: LineOutcome)
    ensures o.Blank? <==> TrimSpace(line) == ""
    ensures o.Parsed? ==> ParseEventLine(TrimSpace(line)) == Ok(o.event)
    ensures o.Rejected? ==> ParseEventLine(TrimSpace(line)) == Err(o.cause)
  {
    var trimmed := TrimSpace(line);
    if trimmed == "" then Blank
    else
      match ParseEventLine(trimmed)
      case Ok(e) => Parsed(e)
      case Err(cause) => Rejected(cause)
  }

  /** The outcome of every line, in file order. */
  function Outcomes(lines: seq<string>): (os: seq<LineOutcome>)
    ensures |os| == |lines|
  {
    if |lines| == 0 then [] else Outcomes(lines[..|lines| - 1]) + [Classify(lines[|lines| - 1])]
  }

  lemma {:induction false} OutcomeAt(lines: seq<string>, i: int)
    requires 0 <= i < |lines|
    ensures Outcomes(lines)[i] == Classify(lines[i])
    decreases |lines|
  {
    if i < |lines| - 1 {
      OutcomeAt(lines[..|lines| - 1], i);
    }
  }

  /** The events of the parsed lines, in order. */
  function Accepted(os: seq<LineOutcome>): seq<Event> {
    if |os| == 0 then []
    else
      var before := Accepted(os[..|os| - 1]);
      match os[|os| - 1]
      case Parsed(e) => before + [e]
      case _ => before
  }

  /** The loop of `ParseEvents` over the line outcomes: events are
      collected in order, and the first rejected line aborts with its
      1-based number. */
  function Collect(os: seq<LineOutcome>): (r: Result<seq<Event>, ParseError>)
    ensures r.Ok? <==> forall i :: 0 <= i < |os| ==> !os[i].Rejected?
    ensures r.Ok? ==> r.value == Accepted(os)
    ensures r.Err? ==>
      && 1 <= r.error.line <= |os|
      && os[r.error.line - 1] == Rejected(r.error.cause)
      && forall i :: 0 <= i < r.error.line - 1 ==> !os[i].Rejected?
    decreases |os|
  {
    if |os| == 0 then Ok([])
    else
      var n := |os|;
      var init := os[..n - 1];
      assert forall i :: 0 <= i < n - 1 ==> init[i] == os[i];
      var earlier := Collect(init);
      if earlier.Err? then earlier
      else
        match os[n - 1]
        case Blank => earlier
        case Rejected(cause) => Err(ParseError(n, cause))
        case Parsed(e) => Ok(earlier.value + [e])
  }

  /** `events.ParseEvents` on the lines of a file. */
  function ParseEvents(lines: seq<string>): Result<seq<Event>, ParseError> {
    Collect(Outcomes(lines))
  }

  /** The error `ParseEvents` reports names the first line that is neither
      blank nor a valid event, by its 1-based number, and says why. */
  lemma FirstRejectedLine(lines: seq<string>)
    requires ParseEvents(lines).Err?
    ensures var n := ParseEvents(lines).error.line;
      && 1 <= n <= |lines|
      && Classify(lines[n - 1]) == Rejected(ParseEvents(lines).error.cause)
      && forall i :: 0 <= i < n - 1 ==> !Classify(lines[i]).Rejected?
  {
    var n := ParseEvents(lines).error.line;
    OutcomeAt(lines, n - 1);
    forall i | 0 <= i < n - 1
      ensures !Classify(lines[i]).Rejected?
    {
      OutcomeAt(lines, i);
    }
  }

  /** `ParseEvents` succeeds exactly when every line is blank or a valid
      event. */
  lemma ParseEventsOk(lines: seq<string>)
    ensures ParseEvents(lines).Ok? <==> forall i :: 0 <= i < |lines| ==> !Classify(lines[i]).Rejected?
  {
    forall i | 0 <= i < |lines| {
      OutcomeAt(lines, i);
    }
  }

  /** The log of a sequence of events parses back to those events. */
  lemma ParseFormattedLog(events: seq<Event>)
    requires forall i :: 0 <= i < |events| ==> WellFormed(events[i])
    ensures ParseEvents(FormatLog(events)) == Ok(events)
  {
    var lines := FormatLog(events);
    var os := Outcomes(lines);
    forall i | 0 <= i < |events|
      ensures os[i] == Parsed(events[i])
    {
      OutcomeAt(lines, i);
      FormattedClassify(events[i]);
    }
    AcceptedAll(os, events);
  }

  lemma FormattedClassify(e: Event)
    requires WellFormed(e)
    ensures Classify(FormatEventLine(e)) == Parsed(e)
  {
    ParseFormattedLine(e);
    TrimmedIsTrim(FormatEventLine(e));
  }

  /** Outcomes that are all parsed events collect to those events. */
  lemma {:induction false} AcceptedAll(os: seq<LineOutcome>, events: seq<Event>)
    requires |os| == |events|
    requires forall i :: 0 <= i < |os| ==> os[i] == Parsed(events[i])
    ensures Collect(os) == Ok(events)
    decreases |os|
  {
    if |os| > 0 {
      var n := |os|;
      AcceptedAll(os[..n - 1], events[..n - 1]);
      assert events[..n - 1] + [events[n - 1]] == events;
    }
  }

  /** An event the log can carry unchanged: its numbers are int64 and its
      extra parameter does not end in white space. */
  predicate WellFormed(e: Event) {
    InRange(e.kind) && InRange(e.target)
    && (e.extraParam == "" || !IsSpace(e.extraParam[|e.extraParam| - 1]))
  }

  /** One formatted line per event. */
  function FormatLog(events: seq<Event>): seq<string> {
    seq(|events|, i requires 0 <= i < |events| => FormatEventLine(events[i]))
  }

  // ---------------------------------------------------------------------
  // The event-definition catalogue: `id | extra params | comment` rows.

  /** What one turn of `ParseEventDefinitions`' loop makes of a row. */
  datatype RowOutcome = Skipped | Defines(def: EventDefinition) | BadId(text: string)

  /** A blank row, or one with fewer than three `|`-separated parts, is
      skipped; otherwise the trimmed first part must be an integer, and the
      trimmed second and third parts are the extra parameters and the
      comment. Parts after the third are ignored. */
  function ReadRow(line: string): (o: RowOutcome)
    ensures var parts := Split(line, '|');
      && (o.Skipped? <==> TrimSpace(line) == "" || |parts| < 3)
      && (o.BadId? ==> o.text == TrimSpace(parts[0]) && !Atoi(o.text).ok)
      && (o.Defines? ==>
            && Atoi(TrimSpace(parts[0])) == Checked(o.def.id, true)
            && o.def.extraParams == TrimSpace(parts[1])
            && o.def.comment == TrimSpace(parts[2]))
  {
    if TrimSpace(line) == "" then Skipped
    else
      var parts := Split(line, '|');
      if |parts| < 3 then Skipped
      else
        var idText := TrimSpace(parts[0]);
        var id := Atoi(idText);
        if !id.ok then BadId(idText)
        else Defines(EventDefinition(id.value, TrimSpace(parts[1]), TrimSpace(parts[2])))
  }

  /** The outcome of every row, in file order. */
  function RowOutcomes(rows: seq<string>): (os: seq<RowOutcome>)
    ensures |os| == |rows|
  {
    if |rows| == 0 then [] else RowOutcomes(rows[..|rows| - 1]) + [ReadRow(rows[|rows| - 1])]
  }

  lemma {:induction false} RowAt(rows: seq<string>, i: int)
    requires 0 <= i < |rows|
    ensures RowOutcomes(rows)[i] == ReadRow(rows[i])
    decreases |rows|
  {
    if i < |rows| - 1 {
      RowAt(rows[..|rows| - 1], i);
    }
  }

  /** Does outcome `o` define id `k`? */
  predicate DefinesId(o: RowOutcome, k: int) {
    o.Defines? && o.def.id == k
  }

  /** The loop of `ParseEventDefinitions` over the row outcomes: each
      definition is stored under its id, and the first bad id aborts with
      that row's text. */
  function Catalogue(os: seq<RowOutcome>): (r: Result<map<int, EventDefinition>, string>)
    ensures r.Ok? <==> forall i :: 0 <= i < |os| ==> !os[i].BadId?
    ensures r.Err? ==> exists i :: 0 <= i < |os| && os[i] == BadId(r.error)
                                   && forall j :: 0 <= j < i ==> !os[j].BadId?
    ensures r.Ok? ==> forall k :: k in r.value ==> r.value[k].id == k
    decreases |os|
  {
    if |os| == 0 then Ok(map[])
    else
      var n := |os|;
      var init := os[..n - 1];
      assert forall i :: 0 <= i < n - 1 ==> init[i] == os[i];
      var earlier := Catalogue(init);
      if earlier.Err? then earlier
      else
        match os[n - 1]
        case Skipped => earlier
        case BadId(text) => Err(text)
        case Defines(d) => Ok(earlier.value[d.id := d])
  }

  /** `events.ParseEventDefinitions` on the lines of a file: the first line
      is a header and is discarded unread. */
  function ParseEventDefinitions(lines: seq<string>): Result<map<int, EventDefinition>, string> {
    if |lines| == 0 then Ok(map[]) else Catalogue(RowOutcomes(lines[1..]))
  }

  /** The header line's content does not matter. */
  lemma HeaderIgnored(h1: string, h2: string, rows: seq<string>)
    ensures ParseEventDefinitions([h1] + rows) == ParseEventDefinitions([h2] + rows)
  {
    assert ([h1] + rows)[1..] == rows == ([h2] + rows)[1..];
  }

  /** A defined id holds the last row that defines it. */
  lemma {:induction false} LastDefinitionWins(os: seq<RowOutcome>, i: int)
    requires Catalogue(os).Ok?
    requires 0 <= i < |os| && os[i].Defines?
    requires forall j :: i < j < |os| ==> !DefinesId(os[j], os[i].def.id)
    ensures os[i].def.id in Catalogue(os).value
    ensures Catalogue(os).value[os[i].def.id] == os[i].def
    decreases |os|
  {
    var n := |os|;
    var init := os[..n - 1];
    assert forall j :: 0 <= j < n - 1 ==> init[j] == os[j];
    if i < n - 1 {
      LastDefinitionWins(init, i);
    }
  }

  /** An id no row defines is absent. */
  lemma {:induction false} UndefinedAbsent(os: seq<RowOutcome>, k: int)
    requires Catalogue(os).Ok?
    requires forall j :: 0 <= j < |os| ==> !DefinesId(os[j], k)
    ensures k !in Catalogue(os).value
    decreases |os|
  {
    if |os| > 0 {
      var n := |os|;
      var init := os[..n - 1];
      assert forall j :: 0 <= j < n - 1 ==> init[j] == os[j];
      UndefinedAbsent(init, k);
    }
  }

  /** The row a catalogue would hold for `d`. */
  function FormatRow(d: EventDefinition): string {
    Itoa(d.id) + "|" + d.extraParams + "|" + d.comment
  }

  /** A definition whose id is an int64 and whose text fields are already
      trimmed and free of `|` is read back from its row. */
  lemma ReadFormattedRow(d: EventDefinition)
    requires InRange(d.id)
    requires Trimmed(d.extraParams) && '|' !in d.extraParams
    requires Trimmed(d.comment) && '|' !in d.comment
    ensures ReadRow(FormatRow(d)) == Defines(d)
  {
    RowFields(d);
    NumberReadsBack(d.id);
    RowNotBlank(d);
    ReadThreeParts(FormatRow(d), Itoa(d.id), d);
  }

  lemma NumberReadsBack(n: int)
    requires InRange(n)
    ensures Atoi(TrimSpace(Itoa(n))) == Checked(n, true)
  {
    TrimNumber(n);
    AtoiItoa(n);
  }

  /** A non-blank row that splits into a number's text and two trimmed
      fields is read as the definition they make up. */
  lemma ReadThreeParts(line: string, idText: string, d: EventDefinition)
    requires TrimSpace(line) != ""
    requires Split(line, '|') == [idText, d.extraParams, d.comment]
    requires Atoi(TrimSpace(idText)) == Checked(d.id, true)
    requires Trimmed(d.extraParams) && Trimmed(d.comment)
    ensures ReadRow(line) == Defines(d)
  {
    TrimmedIsTrim(d.extraParams);
    TrimmedIsTrim(d.comment);
  }

  lemma RowNotBlank(d: EventDefinition)
    ensures TrimSpace(FormatRow(d)) != ""
  {
    assert FormatRow(d)[0] == Itoa(d.id)[0];
    assert !AllSpace(FormatRow(d));
    TrimSpaceEmpty(FormatRow(d));
  }

  lemma RowFields(d: EventDefinition)
    requires '|' !in d.extraParams && '|' !in d.comment
    ensures Split(FormatRow(d), '|') == [Itoa(d.id), d.extraParams, d.comment]
  {
    var id := Itoa(d.id);
    NumberHasNoBar(d.id);
    assert FormatRow(d) == id + ['|'] + (d.extraParams + ['|'] + d.comment);
    SplitAfterPiece(id, d.extraParams + ['|'] + d.comment, '|');
    SplitAfterPiece(d.extraParams, d.comment, '|');
    SplitSepFree(d.comment, '|');
  }

  lemma NumberHasNoBar(n: int)
    ensures '|' !in Itoa(n)
  {
    var s := Itoa(n);
    var d := Digits(if n < 0 then -n else n);
    forall i | 0 <= i < |s| ensures s[i] != '|' {
      if n < 0 && i > 0 {
        assert s[i] == d[i - 1];
      }
    }
  }

  lemma TrimNumber(n: int)
    ensures TrimSpace(Itoa(n)) == Itoa(n)
  {
    var s := Itoa(n);
    var d := Digits(if n < 0 then -n else n);
    assert s[|s| - 1] == d[|d| - 1];
    TrimmedIsTrim(s);
  }
}
