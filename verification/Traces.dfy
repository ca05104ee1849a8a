/** Trace files: the events a run writes, and the reading of a run back from them. */
module Traces {
  import opened Text
  import opened TextLines
  import opened StepReferences
  import opened RunRecords
  import opened Policies

  const TRACE_VERSION := 1

  datatype Header = Header(
    version: nat,
    runId: string,
    script: Script,
    policy: Policy,
    workspaceDigest: Option<string>,
    coverage: Option<Coverage>)

  /** One line of a trace file. `Other` is any line whose type the reader does not know. */
  datatype Event =
    | RunStartEvent(header: Header)
    | PolicyDecisionEvent(decision: PolicyDecision)
    | RiskSignalEvent(signal: RiskSignal)
    | EvidenceEvent(item: EvidenceItem)
    | ArtifactEvent(artifact: Artifact)
    | StepEvent(step: StepRecord)
    | RunEndEvent(status: RunStatus, startedAt: Option<Time>, finishedAt: Option<Time>)
    | OtherEvent(kind: string)

  /******* The file *******/

  /** How an event is written as JSON, and what a line is read as; nothing when it is no JSON, or no event. */
  datatype Codec = Codec(encode: Event -> string, decode: string -> Option<Event>)

  function Concat(texts: seq<string>): string {
    if texts == [] then "" else texts[0] + Concat(texts[1..])
  }

  function TextOrNothing(t: Option<string>): string {
    if t.Some? then t.value else ""
  }

  /** The texts a step brings into its line: its arguments, its error and the preview of its output. */
  function TextsOfStep(step: StepRecord): string {
    Concat(StringsOfArgs(step.args)) + TextOrNothing(step.error) + TextOrNothing(step.outputPreview)
  }

  function TextsOfScript(script: Script): string {
    Concat(seq(|script.steps|, i requires 0 <= i < |script.steps| => Concat(StringsOfArgs(script.steps[i].args))))
  }

  /** Texts of an event that its writer does not choose. */
  function TextsOf(event: Event): string {
    match event
    case RunStartEvent(header) => TextsOfScript(header.script)
    case StepEvent(step) => TextsOfStep(step)
    case _ => ""
  }

  /**
    What the JSON writer and reader do with an event. The writer emits an object, escapes control
    characters and nothing above ASCII; the reader undoes it, and refuses it when it is cut short.
   */
  ghost predicate WellWritten(c: Codec, event: Event) {
    var text := c.encode(event);
    && text != "" && text[0] == '{'
    && (forall i :: 0 <= i < |text| ==> text[i] >= ' ')
    && (forall x :: x in TextsOf(event) && !IsAscii(x) ==> x in text)
    && c.decode(text) == Some(event)
    && (forall n :: 0 <= n < |text| ==> c.decode(text[..n]) == None)
  }

  ghost predicate AllWellWritten(c: Codec, events: seq<Event>) {
    forall e :: e in events ==> WellWritten(c, e)
  }

  /** The content of the file after the events have been written. */
  function FileText(c: Codec, events: seq<Event>): string {
    if events == [] then "" else c.encode(events[0]) + "\n" + FileText(c, events[1..])
  }

  lemma {:induction false} FileTextAppend(c: Codec, events: seq<Event>, event: Event)
    ensures FileText(c, events + [event]) == FileText(c, events) + (c.encode(event) + "\n")
  {
    if events == [] {
      assert [event][1..] == [];
      assert c.encode(event) + "\n" + "" == "" + (c.encode(event) + "\n");
      assert [] + [event] == [event];
    } else {
      assert (events + [event])[1..] == events[1..] + [event];
      FileTextAppend(c, events[1..], event);
      Associates(c.encode(events[0]) + "\n", FileText(c, events[1..]), c.encode(event) + "\n");
    }
  }

  class TraceWriter {
    const codec: Codec
    var text: string
    ghost var events: seq<Event>

    ghost predicate Valid()
      reads this
    {
      text == FileText(codec, events)
    }

    constructor (codec: Codec)
      ensures Valid() && this.codec == codec && events == []
    {
      this.codec, text, events := codec, "", [];
    }

    method Write(event: Event)
      requires Valid()
      modifies this
      ensures Valid() && events == old(events) + [event]
    {
      FileTextAppend(codec, events, event);
      text := text + (codec.encode(event) + "\n");
      events := events + [event];
    }
  }

  /** The events on the lines that are not blank; nothing when one of these lines is no JSON. */
  function DecodeLines(c: Codec, lines: seq<string>): Option<seq<Event>> {
    if lines == [] then Some([])
    else if Strip(lines[0]) == "" then DecodeLines(c, lines[1..])
    else
      var event, rest := c.decode(lines[0]), DecodeLines(c, lines[1..]);
      if event.Some? && rest.Some? then Some([event.value] + rest.value) else None
  }

  /** The event is written on one line, as lines are told apart by the reader. */
  predicate IsOneLine(c: Codec, event: Event) {
    OneLine(c.encode(event))
  }

  predicate AllOneLine(c: Codec, events: seq<Event>) {
    forall e :: e in events ==> IsOneLine(c, e)
  }

  lemma FirstLineRead(c: Codec, event: Event, rest: string)
    requires WellWritten(c, event)
    ensures DecodeLines(c, Lines(c.encode(event) + "\n" + rest)) ==
            if !IsOneLine(c, event) then None
            else
              var others := DecodeLines(c, Lines(rest));
              if others.Some? then Some([event] + others.value) else None
  {
    hide Lines, LineEnd, Strip;
    var text := c.encode(event);
    var s := text + "\n" + rest;
    StripKeepsStart(text);
    if IsOneLine(c, event) {
      LinesOfLine(text, rest);
      assert ([text] + Lines(rest))[1..] == Lines(rest);
    } else {
      var i :| 0 <= i < |text| && IsBreak(text[i]);
      LineEndAtMost(s, i);
      var n := LineEnd(s);
      LinesStep(s);
      assert s[..n] == text[..n];
      assert n > 0 by {
        assert s[0] == '{';
      }
      StripKeepsStart(text[..n]);
    }
  }

  lemma FirstAndRest(c: Codec, events: seq<Event>)
    ensures events == [] ==> AllOneLine(c, events)
    ensures events != [] ==> events == [events[0]] + events[1..]
    ensures events != [] ==> (AllOneLine(c, events) <==> IsOneLine(c, events[0]) && AllOneLine(c, events[1..]))
    ensures events != [] && AllWellWritten(c, events) ==> WellWritten(c, events[0]) && AllWellWritten(c, events[1..])
  {
    hide IsOneLine, WellWritten;
    if events == [] {
    } else {
      assert events == [events[0]] + events[1..];
    }
  }

  lemma NothingDecoded(c: Codec, lines: seq<string>)
    ensures DecodeLines(c, lines[..0]) == Some([]) && DecodeLines(c, []) == Some([])
  {
  }

  /** A written file reads back as its events if each of them is on one line, and otherwise not at all. */
  lemma {:induction false} FileReadsBack(c: Codec, events: seq<Event>)
    requires AllWellWritten(c, events)
    ensures DecodeLines(c, Lines(FileText(c, events))) == if AllOneLine(c, events) then Some(events) else None
  {
    hide Lines, WellWritten, IsOneLine, AllOneLine, DecodeLines;
    FirstAndRest(c, events);
    if events == [] {
      NoLines();
      NothingDecoded(c, []);
    } else {
      FileReadsBack(c, events[1..]);
      FirstLineRead(c, events[0], FileText(c, events[1..]));
    }
  }

  /** The only characters that can break a written event are three separators above ASCII. */
  lemma OneLineIff(c: Codec, event: Event)
    requires WellWritten(c, event)
    ensures IsOneLine(c, event) <==>
            '\U{85}' !in c.encode(event) && '\U{2028}' !in c.encode(event) && '\U{2029}' !in c.encode(event)
  {
    var text := c.encode(event);
    forall i | 0 <= i < |text| ensures IsBreak(text[i]) <==> text[i] in ['\U{85}', '\U{2028}', '\U{2029}'] {
      assert text[i] >= ' ';
    }
  }

  /******* A codec for any given events *******/

  /** The characters above ASCII, in order. */
  function AboveAscii(s: string): (r: string)
    ensures forall x :: x in r <==> x in s && !IsAscii(x)
  {
    if s == "" then ""
    else
      assert s == [s[0]] + s[1..];
      (if IsAscii(s[0]) then "" else [s[0]]) + AboveAscii(s[1..])
  }

  /** A line for the `k`-th event: its number, and its texts as far as they are above ASCII. */
  function NumberedLine(k: nat, event: Event): string {
    "{" + NatToString(k) + "," + AboveAscii(TextsOf(event)) + "}"
  }

  function IndexOf(events: seq<Event>, event: Event): (k: nat)
    ensures event in events ==> k < |events| && events[k] == event
  {
    if events == [] || events[0] == event then 0
    else
      assert events == [events[0]] + events[1..];
      1 + IndexOf(events[1..], event)
  }

  /** The event, from the `k`-th on, whose line this is. */
  function Search(events: seq<Event>, k: nat, line: string): (r: Option<Event>)
    requires k <= |events|
    ensures r.Some? ==> exists j :: k <= j < |events| && line == NumberedLine(j, events[j]) && r == Some(events[j])
    ensures r.None? ==> forall j :: k <= j < |events| ==> line != NumberedLine(j, events[j])
    decreases |events| - k
  {
    if k == |events| then None
    else if line == NumberedLine(k, events[k]) then Some(events[k])
    else Search(events, k + 1, line)
  }

  function NumberingCodec(events: seq<Event>): Codec {
    Codec(event => NumberedLine(IndexOf(events, event), event), line => Search(events, 0, line))
  }

  /** Digits end where the comma stands. */
  lemma FirstComma(digits: string, rest: string, line: string)
    requires AllDigits(digits) && rest != "" && rest[0] == ',' && line == "{" + digits + rest
    ensures 1 + |digits| < |line| && line[1 + |digits|] == ',' && line[1..][..|digits|] == digits
    ensures forall i :: 1 <= i < 1 + |digits| ==> line[i] != ','
  {
    forall i | 1 <= i < 1 + |digits| ensures line[i] != ',' {
      assert line[i] == digits[i - 1];
    }
  }

  /** The number of a line can be read off it. */
  lemma NumbersDiffer(j: nat, k: nat, e: Event, f: Event)
    requires NumberedLine(j, e) == NumberedLine(k, f)
    ensures j == k
  {
    hide AboveAscii, NatToString, TextsOf;
    var line := NumberedLine(j, e);
    var a, b := NatToString(j), NatToString(k);
    FirstComma(a, "," + AboveAscii(TextsOf(e)) + "}", line);
    FirstComma(b, "," + AboveAscii(TextsOf(f)) + "}", line);
    assert |a| == |b|;
    assert a == line[1..][..|a|] == b;
    NatToStringInjective(j, k);
  }

  /** A closing brace stands at the end of a line, and nowhere else. */
  lemma BraceAtEnd(k: nat, event: Event)
    ensures var line := NumberedLine(k, event);
            && |line| > 1 && line[0] == '{' && line[|line| - 1] == '}'
            && (forall i :: 0 <= i < |line| - 1 ==> line[i] != '}')
            && (forall i :: 0 <= i < |line| ==> line[i] >= ' ')
            && (forall x :: x in AboveAscii(TextsOf(event)) ==> x in line)
  {
    hide AboveAscii, NatToString, TextsOf;
    var digits, texts := NatToString(k), AboveAscii(TextsOf(event));
    var line := NumberedLine(k, event);
    assert line == ("{" + digits + ",") + (texts + "}");
    var n := 2 + |digits|;
    forall i | 0 <= i < |line| ensures line[i] >= ' ' && (i < |line| - 1 ==> line[i] != '}') {
      if 1 <= i < n - 1 {
        assert line[i] == digits[i - 1];
      } else if n <= i < |line| - 1 {
        assert line[i] == texts[i - n] && texts[i - n] in texts;
      }
    }
    forall x | x in texts ensures x in line {
      var i :| 0 <= i < |texts| && texts[i] == x;
      assert line[n + i] == x;
    }
  }

  lemma NoLineCutShort(events: seq<Event>, line: string, n: nat)
    requires n < |line| && forall i :: 0 <= i < |line| - 1 ==> line[i] != '}'
    ensures Search(events, 0, line[..n]) == None
  {
    hide NumberedLine, TextsOf, AboveAscii;
    forall j | 0 <= j < |events| ensures line[..n] != NumberedLine(j, events[j]) {
      BraceAtEnd(j, events[j]);
      if n > 0 {
        assert line[..n][n - 1] == line[n - 1];
      }
    }
  }

  /** For any events there is a codec that writes all of them as JSON is written here, so what is assumed of
      the codec of a trace can be met. */
  lemma NumberingCodecWritesWell(events: seq<Event>)
    ensures AllWellWritten(NumberingCodec(events), events)
  {
    hide NumberedLine, TextsOf, AboveAscii;
    var c := NumberingCodec(events);
    forall e | e in events ensures WellWritten(c, e) {
      var k := IndexOf(events, e);
      var line := c.encode(e);
      assert line == NumberedLine(k, e);
      BraceAtEnd(k, e);
      var found := Search(events, 0, line);
      if found.Some? {
        var j :| 0 <= j < |events| && line == NumberedLine(j, events[j]) && found == Some(events[j]);
        NumbersDiffer(j, k, events[j], e);
      }
      forall n | 0 <= n < |line| ensures c.decode(line[..n]) == None {
        NoLineCutShort(events, line, n);
      }
    }
  }

  lemma CharactersOfLine(k: nat, event: Event)
    ensures forall x :: !IsAscii(x) ==> (x in NumberedLine(k, event) <==> x in TextsOf(event))
  {
    hide AboveAscii, NatToString, TextsOf;
    var digits, texts := NatToString(k), AboveAscii(TextsOf(event));
    var line := NumberedLine(k, event);
    forall i | 0 <= i < |line| ensures IsAscii(line[i]) || line[i] in texts {
      if 1 <= i < 1 + |digits| {
        assert line[i] == digits[i - 1];
      } else if 2 + |digits| <= i < |line| - 1 {
        assert line[i] == texts[i - 2 - |digits|];
      }
    }
    BraceAtEnd(k, event);
  }

  /** With it an event is on one line exactly when its texts hold no separator. */
  lemma NumberedOnOneLineIff(events: seq<Event>, event: Event)
    requires event in events
    ensures IsOneLine(NumberingCodec(events), event) <==>
            '\U{85}' !in TextsOf(event) && '\U{2028}' !in TextsOf(event) && '\U{2029}' !in TextsOf(event)
  {
    hide NumberedLine, TextsOf, AboveAscii, WellWritten, IsOneLine;
    var c, k := NumberingCodec(events), IndexOf(events, event);
    NumberingCodecWritesWell(events);
    OneLineIff(c, event);
    CharactersOfLine(k, event);
    assert c.encode(event) == NumberedLine(k, event);
  }

  /******* Reading a run *******/

  /** How far the reader has got. */
  datatype Loading = NothingYet | Loaded(header: Header, run: AgentRun) | EventBeforeStart | NotJson

  function StartedRun(header: Header): AgentRun {
    AgentRun(header.runId, header.script.task.id, header.script.agent, header.script.model, Running,
             None, None, header.coverage, [], [], [], [], [], [])
  }

  function Either<T>(first: Option<T>, second: Option<T>): Option<T> {
    if first.Some? then first else second
  }

  function LoadEvent(state: Loading, event: Event): Loading {
    if state.EventBeforeStart? || state.NotJson? then state
    else if event.RunStartEvent? then Loaded(event.header, StartedRun(event.header))
    else if state.NothingYet? then EventBeforeStart
    else
      var run := state.run;
      Loaded(state.header,
        match event
        case StepEvent(step) => run.(steps := run.steps + [step])
        case PolicyDecisionEvent(d) => run.(policyDecisions := run.policyDecisions + [d])
        case RiskSignalEvent(signal) => run.(riskSignals := run.riskSignals + [signal])
        case EvidenceEvent(item) => run.(evidence := run.evidence + [item])
        case ArtifactEvent(artifact) => run.(artifacts := run.artifacts + [artifact])
        case RunEndEvent(status, startedAt, finishedAt) =>
          run.(status := status, startedAt := Either(startedAt, run.startedAt),
               finishedAt := Either(finishedAt, run.finishedAt))
        case _ => run)
  }

  function LoadOnto(state: Loading, events: seq<Event>): Loading {
    if events == [] then state
    else LoadEvent(LoadOnto(state, events[..|events| - 1]), events[|events| - 1])
  }

  lemma {:induction false} LoadAppended(state: Loading, a: seq<Event>, b: seq<Event>)
    ensures LoadOnto(state, a + b) == LoadOnto(LoadOnto(state, a), b)
  {
    if b == [] {
      assert a + b == a;
    } else {
      assert (a + b)[..|a + b| - 1] == a + b[..|b| - 1];
      LoadAppended(state, a, b[..|b| - 1]);
    }
  }

  /** Events are refused exactly when there are none or they do not begin with `run_start`. */
  lemma {:induction false} EventsRefusedIff(events: seq<Event>)
    ensures LoadOnto(NothingYet, events).Loaded? <==> events != [] && events[0].RunStartEvent?
    ensures events == [] <==> LoadOnto(NothingYet, events).NothingYet?
    ensures !LoadOnto(NothingYet, events).NotJson?
  {
    if events == [] {
    } else {
      EventsRefusedIff(events[..|events| - 1]);
    }
  }

  /** A later run_start begins the run afresh: only the events after the last one count. */
  lemma LastStartCounts(a: seq<Event>, header: Header, b: seq<Event>)
    requires a == [] || a[0].RunStartEvent?
    ensures LoadOnto(NothingYet, a + [RunStartEvent(header)] + b) == LoadOnto(NothingYet, [RunStartEvent(header)] + b)
  {
    var start := RunStartEvent(header);
    EventsRefusedIff(a);
    LoadAppended(NothingYet, a + [start], b);
    LoadAppended(NothingYet, a, [start]);
    LoadAppended(NothingYet, [start], b);
    assert [start][..0] == [];
  }

  /** An event of unknown type changes nothing, and a run_end without times keeps those there are. */
  lemma UnknownIsIgnored(state: Loading, kind: string, status: RunStatus)
    requires state.Loaded?
    ensures LoadOnto(state, [OtherEvent(kind)]) == state
    ensures LoadOnto(state, [RunEndEvent(status, None, None)]) == state.(run := state.run.(status := status))
  {
    assert [OtherEvent(kind)][..0] == [] && [RunEndEvent(status, None, None)][..0] == [];
  }

  /** All lines are parsed before the first event is looked at. */
  function LoadText(c: Codec, text: string): Loading {
    match DecodeLines(c, Lines(text))
    case None => NotJson
    case Some(events) => LoadOnto(NothingYet, events)
  }

  /** A trace is refused exactly when a line that is not blank is no JSON, or its events are refused. */
  lemma RefusedIff(c: Codec, text: string)
    ensures var events := DecodeLines(c, Lines(text));
            && (LoadText(c, text).NotJson? <==> events.None?)
            && (LoadText(c, text).Loaded? <==> events.Some? && events.value != [] && events.value[0].RunStartEvent?)
  {
    hide Lines, LoadOnto;
    if DecodeLines(c, Lines(text)).Some? {
      EventsRefusedIff(DecodeLines(c, Lines(text)).value);
    }
  }

  /** Exactly when a written file loads at all: every event is on one line, and the first is `run_start`. */
  lemma WrittenLoadsIff(c: Codec, events: seq<Event>)
    requires AllWellWritten(c, events)
    ensures AllOneLine(c, events) ==> LoadText(c, FileText(c, events)) == LoadOnto(NothingYet, events)
    ensures !AllOneLine(c, events) ==> LoadText(c, FileText(c, events)) == NotJson
  {
    hide Lines, FileText, WellWritten, AllOneLine, LoadOnto;
    FileReadsBack(c, events);
  }

  lemma {:induction false} DecodeAppend(c: Codec, lines: seq<string>, line: string)
    ensures var before := DecodeLines(c, lines);
            DecodeLines(c, lines + [line]) ==
            if Strip(line) == "" then before
            else if before.Some? && c.decode(line).Some? then Some(before.value + [c.decode(line).value])
            else None
  {
    hide Strip;
    if lines == [] {
      assert [] + [line] == [line] && [line][1..] == [];
      assert DecodeLines(c, []) == Some([]);
      if c.decode(line).Some? {
        assert [c.decode(line).value] + [] == [] + [c.decode(line).value];
      }
    } else {
      assert (lines + [line])[1..] == lines[1..] + [line];
      DecodeAppend(c, lines[1..], line);
      var first, rest := c.decode(lines[0]), DecodeLines(c, lines[1..]);
      if first.Some? && rest.Some? && c.decode(line).Some? {
        Associates([first.value], rest.value, [c.decode(line).value]);
      }
    }
  }

  lemma DecodeOneMore(c: Codec, lines: seq<string>, i: nat)
    requires i < |lines|
    ensures var before, after := DecodeLines(c, lines[..i]), DecodeLines(c, lines[..i + 1]);
            var event := c.decode(lines[i]);
            after == if Strip(lines[i]) == "" then before
                     else if before.Some? && event.Some? then Some(before.value + [event.value])
                     else None
  {
    hide Strip;
    assert lines[..i + 1] == lines[..i] + [lines[i]];
    DecodeAppend(c, lines[..i], lines[i]);
  }

  lemma {:induction false} NotJsonStays(c: Codec, lines: seq<string>, i: nat)
    requires i <= |lines| && DecodeLines(c, lines[..i]).None?
    ensures DecodeLines(c, lines).None?
    decreases |lines| - i
  {
    hide DecodeLines, Strip;
    if i == |lines| {
      assert lines[..i] == lines;
    } else {
      DecodeOneMore(c, lines, i);
      NotJsonStays(c, lines, i + 1);
    }
  }

  method ParseLines(c: Codec, lines: seq<string>) returns (events: Option<seq<Event>>)
    ensures events == DecodeLines(c, lines)
  {
    hide DecodeLines, Strip;
    var found: seq<Event> := [];
    NothingDecoded(c, lines);
    for i := 0 to |lines|
      invariant DecodeLines(c, lines[..i]) == Some(found)
    {
      DecodeOneMore(c, lines, i);
      if Strip(lines[i]) != "" {
        var event := c.decode(lines[i]);
        if event.None? {
          NotJsonStays(c, lines, i + 1);
          return None;
        }
        found := found + [event.value];
      }
    }
    assert lines[..|lines|] == lines;
    return Some(found);
  }

  lemma StaysRefused(events: seq<Event>, i: nat)
    requires i <= |events| && LoadOnto(NothingYet, events[..i]).EventBeforeStart?
    ensures LoadOnto(NothingYet, events) == EventBeforeStart
    decreases |events| - i
  {
    EventsRefusedIff(events);
    if i == |events| {
      assert events[..i] == events;
    } else {
      assert events[..i + 1][..i] == events[..i];
      StaysRefused(events, i + 1);
    }
  }

  method LoadEvents(events: seq<Event>) returns (result: Loading)
    ensures result == LoadOnto(NothingYet, events)
    ensures result.Loaded? <==> events != [] && events[0].RunStartEvent?
  {
    var header: Option<Header> := None;
    var run: Option<AgentRun> := None;
    for i := 0 to |events|
      invariant header.Some? == run.Some?
      invariant LoadOnto(NothingYet, events[..i]) ==
                if run.Some? then Loaded(header.value, run.value) else NothingYet
    {
      assert events[..i + 1][..i] == events[..i];
      var event := events[i];
      if event.RunStartEvent? {
        header := Some(event.header);
        run := Some(StartedRun(event.header));
      } else if run.None? {
        StaysRefused(events, i + 1);
        return EventBeforeStart;
      } else {
        var r := run.value;
        match event {
          case StepEvent(step) => r := r.(steps := r.steps + [step]);
          case PolicyDecisionEvent(d) => r := r.(policyDecisions := r.policyDecisions + [d]);
          case RiskSignalEvent(signal) => r := r.(riskSignals := r.riskSignals + [signal]);
          case EvidenceEvent(item) => r := r.(evidence := r.evidence + [item]);
          case ArtifactEvent(artifact) => r := r.(artifacts := r.artifacts + [artifact]);
          case RunEndEvent(status, startedAt, finishedAt) =>
            r := r.(status := status);
            if startedAt.Some? { r := r.(startedAt := startedAt); }
            if finishedAt.Some? { r := r.(finishedAt := finishedAt); }
          case _ =>
        }
        run := Some(r);
      }
    }
    assert events[..|events|] == events;
    EventsRefusedIff(events);
    if run.None? {
      return NothingYet;
    }
    return Loaded(header.value, run.value);
  }

  method LoadTrace(c: Codec, text: string) returns (result: Loading)
    ensures result == LoadText(c, text)
  {
    hide DecodeLines, LoadOnto;
    var events := ParseLines(c, Lines(text));
    if events.None? {
      return NotJson;
    }
    result := LoadEvents(events.value);
  }
}
