/** The incremental event-stream reader: chunks of text in, events out.

    Decoded text comes in chunks cut anywhere.  The reader follows the event-stream format of section
    9.2.6 of the WHATWG HTML Living Standard with deviations that are kept here: an event that is
    unfinished when the stream ends is still delivered, a last line without a line feed is dropped,
    and an event name survives a blank line that ends no event. */
module Sse {
  /** One call of `onEvent`; its third argument is a function of `data`. */
  datatype Event = Event(name: string, data: string)

  /** The reader's variables, and the calls made so far. */
  datatype State = State(name: string, lines: seq<string>, events: seq<Event>)

  const LF: char := '\n'
  const CR: char := '\r'
  const COLON: char := ':'
  const DEFAULT_NAME := "message"
  const EVENT_FIELD := "event:"
  const DATA_FIELD := "data:"

  // ---- Text ----

  /** White space and line terminators, as `trim` removes them. */
  predicate IsSpace(c: char) {
    var n := c as int;
    || 9 <= n <= 13 || n == 0x20 || n == 0xA0 || n == 0x1680 || 0x2000 <= n <= 0x200A
    || n == 0x2028 || n == 0x2029 || n == 0x202F || n == 0x205F || n == 0x3000 || n == 0xFEFF
  }

  function TrimStart(s: string): (t: string)
    ensures |t| <= |s| && t == s[|s| - |t|..]
    ensures t != [] ==> !IsSpace(t[0])
  {
    if s != [] && IsSpace(s[0]) then TrimStart(s[1..]) else s
  }

  function TrimEnd(s: string): (t: string)
    ensures |t| <= |s| && t == s[..|t|]
    ensures t != [] ==> !IsSpace(t[|t| - 1])
  {
    if s != [] && IsSpace(s[|s| - 1]) then TrimEnd(s[..|s| - 1]) else s
  }

  function Trim(s: string): string {
    TrimEnd(TrimStart(s))
  }

  /** Position of the first line feed, or the length when there is none. */
  function FirstLF(s: string): (i: nat)
    ensures i <= |s| && LF !in s[..i]
    ensures i < |s| ==> s[i] == LF
    ensures LF !in s <==> i == |s|
  {
    if s == [] || s[0] == LF then 0 else FirstLF(s[1..]) + 1
  }

  function Join(lines: seq<string>): string {
    if lines == [] then []
    else if |lines| == 1 then lines[0]
    else lines[0] + [LF] + Join(lines[1..])
  }

  function StartsWith(s: string, prefix: string): bool {
    |prefix| <= |s| && s[..|prefix|] == prefix
  }

  function StripCR(line: string): string {
    if line != [] && line[|line| - 1] == CR then line[..|line| - 1] else line
  }

  // ---- The specification: a fold over the complete lines ----

  /** What one line means. */
  datatype Field = Blank | Ignored | Name(name: string) | Data(data: string)

  function Classify(raw: string): Field {
    var line := StripCR(raw);
    if line == [] then Blank
    else if StartsWith(line, ":") then Ignored
    else if StartsWith(line, EVENT_FIELD) then
      var name := Trim(line[|EVENT_FIELD|..]);
      Name(if name == [] then DEFAULT_NAME else name)
    else if StartsWith(line, DATA_FIELD) then
      var data := line[|DATA_FIELD|..];
      Data(if StartsWith(data, " ") then data[1..] else data)
    else Ignored
  }

  /** What the fold over the lines depends on: the name of events without one, and what a line means. */
  datatype Rules = Rules(defaultName: string, read: string -> Field)

  function EventStream(): Rules {
    Rules(DEFAULT_NAME, Classify)
  }

  function Initial(r: Rules): State {
    State(r.defaultName, [], [])
  }

  function Flush(r: Rules, st: State): State {
    if st.lines == [] then st
    else State(r.defaultName, [], st.events + [Event(st.name, Join(st.lines))])
  }

  function OnField(r: Rules, st: State, field: Field): State {
    match field
    case Blank => Flush(r, st)
    case Ignored => st
    case Name(name) => st.(name := name)
    case Data(data) => st.(lines := st.lines + [data])
  }

  function OnLine(r: Rules, st: State, raw: string): State {
    OnField(r, st, r.read(raw))
  }

  /** All complete lines of the text, one after the other; a rest without a line feed is left out. */
  function OnText(r: Rules, st: State, text: string): State
    decreases |text|
  {
    var i := FirstLF(text);
    if i == |text| then st else OnText(r, OnLine(r, st, text[..i]), text[i + 1..])
  }

  function ParseWith(r: Rules, text: string): seq<Event> {
    Flush(r, OnText(r, Initial(r), text)).events
  }

  /** The events of a whole stream, parsed in one go. */
  function Parse(text: string): seq<Event> {
    ParseWith(EventStream(), text)
  }

  function Concat(chunks: seq<string>): string {
    if chunks == [] then [] else chunks[0] + Concat(chunks[1..])
  }

  // ---- The reader ----

  method ReadField(raw: string) returns (field: Field)
    ensures field == Classify(raw)
  {
    var line := StripCR(raw);
    if line == [] { return Blank; }
    if StartsWith(line, ":") { return Ignored; }
    if StartsWith(line, EVENT_FIELD) {
      var name := Trim(line[|EVENT_FIELD|..]);
      return Name(if name == [] then DEFAULT_NAME else name);
    }
    if StartsWith(line, DATA_FIELD) {
      var data := line[|DATA_FIELD|..];
      return Data(if StartsWith(data, " ") then data[1..] else data);
    }
    return Ignored;
  }

  class Reader {
    const rules: Rules
    var buffer: string
    var eventName: string
    var dataLines: seq<string>
    var events: seq<Event>

    constructor ()
      ensures Valid() && buffer == [] && Value() == Initial(rules)
    {
      rules := EventStream();
      buffer, eventName, dataLines, events := [], DEFAULT_NAME, [], [];
    }

    ghost predicate Valid() { rules == EventStream() }

    function Value(): State
      reads this
    {
      State(eventName, dataLines, events)
    }

    method FlushEvent()
      modifies this`eventName, this`dataLines, this`events
      ensures Value() == Flush(rules, old(Value()))
    {
      if dataLines == [] { return; }
      events := events + [Event(eventName, Join(dataLines))];
      eventName, dataLines := rules.defaultName, [];
    }

    method HandleLine(raw: string)
      requires Valid()
      modifies this`eventName, this`dataLines, this`events
      ensures Value() == OnLine(rules, old(Value()), raw)
    {
      var field := ReadField(raw);
      match field {
        case Blank => FlushEvent();
        case Ignored =>
        case Name(name) => eventName := name;
        case Data(data) => dataLines := dataLines + [data];
      }
    }

    /** Take the complete lines out of the buffer.  Whatever comes after it, the rest of the parse is
        what it would have been. */
    method Feed(chunk: string, ghost later: string)
      requires Valid()
      modifies this
      ensures LF !in buffer
      ensures OnText(rules, Value(), buffer + later) == OnText(rules, old(Value()), old(buffer) + chunk + later)
    {
      buffer := buffer + chunk;
      while true
        invariant OnText(rules, Value(), buffer + later) == OnText(rules, old(Value()), old(buffer) + chunk + later)
        decreases |buffer|
      {
        var lineBreak := FirstLF(buffer);
        if lineBreak == |buffer| { break; }
        TakeLine(rules, Value(), buffer, later);
        HandleLine(buffer[..lineBreak]);
        buffer := buffer[lineBreak + 1..];
      }
    }

    /** However the text is cut into chunks, the calls are those of the one-shot parse. */
    method StreamSse(chunks: seq<string>)
      requires Valid() && buffer == [] && Value() == Initial(rules)
      modifies this
      ensures events == Parse(Concat(chunks))
    {
      var n := 0;
      assert buffer + Concat(chunks[n..]) == Concat(chunks);
      while n < |chunks|
        invariant 0 <= n <= |chunks|
        invariant LF !in buffer
        invariant OnText(rules, Value(), buffer + Concat(chunks[n..])) == OnText(rules, Initial(rules), Concat(chunks))
      {
        assert buffer + Concat(chunks[n..]) == buffer + chunks[n] + Concat(chunks[n + 1..]);
        Feed(chunks[n], Concat(chunks[n + 1..]));
        n := n + 1;
      }
      assert buffer + Concat(chunks[n..]) == buffer;
      FlushEvent();
    }
  }

  /** The first line of the buffer is the first line of everything still to come. */
  lemma TakeLine(r: Rules, st: State, buffer: string, rest: string)
    requires LF in buffer
    ensures var i := FirstLF(buffer);
            OnText(r, st, buffer + rest) == OnText(r, OnLine(r, st, buffer[..i]), buffer[i + 1..] + rest)
  {
    var i := FirstLF(buffer);
    FirstLFOfPrefix(buffer, rest);
    assert (buffer + rest)[..i] == buffer[..i];
    assert (buffer + rest)[i + 1..] == buffer[i + 1..] + rest;
  }

  lemma {:induction false} FirstLFOfPrefix(buffer: string, rest: string)
    requires LF in buffer
    ensures FirstLF(buffer + rest) == FirstLF(buffer) < |buffer|
  {
    if buffer[0] != LF {
      FirstLFOfPrefix(buffer[1..], rest);
      assert (buffer + rest)[1..] == buffer[1..] + rest;
    }
  }

  // ---- Printing and parsing ----

  /** The lines of a text; there is always at least one. */
  function Split(s: string): (lines: seq<string>)
    ensures lines != []
    ensures NoLF(lines)
    decreases |s|
  {
    var i := FirstLF(s);
    if i == |s| then [s] else [s[..i]] + Split(s[i + 1..])
  }

  predicate NoLF(lines: seq<string>) {
    forall i :: 0 <= i < |lines| ==> LF !in lines[i]
  }

  /** Lines, each with its line feed. */
  function Text(lines: seq<string>): string {
    if lines == [] then [] else lines[0] + [LF] + Text(lines[1..])
  }

  function NameLine(name: string): string { EVENT_FIELD + " " + name }

  function DataLines(prefix: string, lines: seq<string>): (r: seq<string>)
    ensures |r| == |lines|
  {
    if lines == [] then [] else [prefix + lines[0]] + DataLines(prefix, lines[1..])
  }

  /** One event as a server writes it: its name, a line for each line of its data, a blank line. */
  function EventLines(e: Event): seq<string> {
    [NameLine(e.name)] + DataLines(DATA_FIELD + " ", Split(e.data)) + [[]]
  }

  function AllLines(eventLines: Event -> seq<string>, events: seq<Event>): seq<string> {
    if events == [] then [] else eventLines(events[0]) + AllLines(eventLines, events[1..])
  }

  function Print(events: seq<Event>): string {
    Text(AllLines(EventLines, events))
  }

  /** The reader's fold on lines that have been read. */
  function OnFields(r: Rules, st: State, fields: seq<Field>): State
    decreases |fields|
  {
    if fields == [] then st else OnFields(r, OnField(r, st, fields[0]), fields[1..])
  }

  function Fields(r: Rules, lines: seq<string>): seq<Field> {
    if lines == [] then [] else [r.read(lines[0])] + Fields(r, lines[1..])
  }

  lemma {:induction false} FirstLFAfter(line: string, rest: string)
    requires LF !in line
    ensures FirstLF(line + [LF] + rest) == |line|
  {
    if line != [] {
      FirstLFAfter(line[1..], rest);
      assert (line + [LF] + rest)[1..] == line[1..] + [LF] + rest;
    }
  }

  /** Reading a text of whole lines is reading the lines. */
  lemma {:induction false} TextIsFields(r: Rules, st: State, lines: seq<string>)
    requires NoLF(lines)
    ensures OnText(r, st, Text(lines)) == OnFields(r, st, Fields(r, lines))
    decreases |lines|
  {
    if lines != [] {
      var line, rest := lines[0], Text(lines[1..]);
      var text := line + [LF] + rest;
      FirstLFAfter(line, rest);
      assert text[..|line|] == line && text[|line| + 1..] == rest;
      TextIsFields(r, OnLine(r, st, line), lines[1..]);
      assert OnFields(r, st, Fields(r, lines)) == OnFields(r, OnLine(r, st, line), Fields(r, lines[1..]));
    }
  }

  lemma {:induction false} OnFieldsSplit(r: Rules, st: State, a: seq<Field>, b: seq<Field>)
    ensures OnFields(r, st, a + b) == OnFields(r, OnFields(r, st, a), b)
    decreases |a|
  {
    if a == [] {
      assert a + b == b;
    } else {
      assert (a + b)[1..] == a[1..] + b;
      OnFieldsSplit(r, OnField(r, st, a[0]), a[1..], b);
    }
  }

  lemma JoinFirst(line: string, rest: seq<string>)
    requires rest != []
    ensures Join([line] + rest) == line + [LF] + Join(rest)
  {
    assert ([line] + rest)[1..] == rest;
  }

  lemma {:induction false} JoinSplit(s: string)
    ensures Join(Split(s)) == s
    decreases |s|
  {
    var i := FirstLF(s);
    if i < |s| {
      var rest := s[i + 1..];
      JoinSplit(rest);
      assert Split(s) == [s[..i]] + Split(rest);
      JoinFirst(s[..i], Split(rest));
      CutAt(s, i);
    }
  }

  lemma CutAt(s: string, i: nat)
    requires i < |s| && s[i] == LF
    ensures s[..i] + [LF] + s[i + 1..] == s
  {
  }

  function Map<A, B>(f: A -> B, xs: seq<A>): seq<B> {
    if xs == [] then [] else [f(xs[0])] + Map(f, xs[1..])
  }

  lemma {:induction false} MapAt<A, B>(f: A -> B, xs: seq<A>)
    ensures |Map(f, xs)| == |xs|
    ensures forall i :: 0 <= i < |xs| ==> Map(f, xs)[i] == f(xs[i])
    decreases |xs|
  {
    if xs != [] {
      MapAt(f, xs[1..]);
      forall i | 0 <= i < |xs| ensures Map(f, xs)[i] == f(xs[i]) {
        if i > 0 { assert xs[i] == xs[1..][i - 1]; }
      }
    }
  }

  function StripAll(lines: seq<string>): seq<string> {
    Map(StripCR, lines)
  }

  lemma StripCRAfter(prefix: string, line: string)
    requires prefix != [] && prefix[|prefix| - 1] != CR
    ensures StripCR(prefix + line) == prefix + StripCR(line)
  {
  }

  lemma DataLineMeans(data: string)
    ensures Classify(DATA_FIELD + " " + data) == Data(StripCR(data))
  {
    StripCRAfter(DATA_FIELD + " ", data);
    var read, value := StripCR(DATA_FIELD + " " + data), StripCR(data);
    assert read == DATA_FIELD + " " + value;
    assert read[0] == 'd';
    assert read[..|DATA_FIELD|] == DATA_FIELD && read[|DATA_FIELD|..] == " " + value;
    assert (" " + value)[..1] == " " && (" " + value)[1..] == value;
    assert read[..1][0] == 'd' && read[..|EVENT_FIELD|][0] == 'd';
  }

  ghost predicate PrintableName(name: string) {
    name != [] && Trim(name) == name && LF !in name
  }

  lemma TrimmedName(name: string)
    requires name != [] && Trim(name) == name
    ensures !IsSpace(name[|name| - 1])
    ensures Trim([' '] + name) == name
  {
    assert |TrimStart(name)| == |name|;
    assert ([' '] + name)[1..] == name;
  }

  lemma NameLineMeans(name: string)
    requires PrintableName(name)
    ensures Classify(NameLine(name)) == Name(name)
  {
    TrimmedName(name);
    EventLineMeans([' '] + name);
    assert NameLine(name) == EVENT_FIELD + ([' '] + name);
  }

  function ToData(line: string): Field {
    Data(StripCR(line))
  }

  /** The lines of the data as they are read back: without their final carriage returns. */
  function DataFields(lines: seq<string>): seq<Field> {
    Map(ToData, lines)
  }

  function EventFields(e: Event): seq<Field> {
    [Name(e.name)] + DataFields(Split(e.data)) + [Blank]
  }

  function AllFields(eventFields: Event -> seq<Field>, events: seq<Event>): seq<Field> {
    if events == [] then [] else eventFields(events[0]) + AllFields(eventFields, events[1..])
  }

  lemma {:induction false} FieldsSplit(r: Rules, a: seq<string>, b: seq<string>)
    ensures Fields(r, a + b) == Fields(r, a) + Fields(r, b)
    decreases |a|
  {
    if a == [] {
      assert a + b == b;
    } else {
      assert (a + b)[1..] == a[1..] + b;
      FieldsSplit(r, a[1..], b);
    }
  }

  lemma {:induction false} DataLinesMean(r: Rules, prefix: string, lines: seq<string>)
    requires forall data :: r.read(prefix + data) == Data(StripCR(data))
    ensures Fields(r, DataLines(prefix, lines)) == DataFields(lines)
    decreases |lines|
  {
    if lines != [] {
      DataLinesMean(r, prefix, lines[1..]);
      assert DataLines(prefix, lines)[1..] == DataLines(prefix, lines[1..]);
    }
  }

  lemma OneField(r: Rules, line: string)
    ensures Fields(r, [line]) == [r.read(line)]
  {
    assert [line][1..] == [];
  }

  /** A name line, the data lines and a blank line are read as the fields of one event. */
  lemma LinesMean(r: Rules, nameLine: string, prefix: string, e: Event)
    requires r.read(nameLine) == Name(e.name) && r.read([]) == Blank
    requires forall data :: r.read(prefix + data) == Data(StripCR(data))
    ensures Fields(r, [nameLine] + DataLines(prefix, Split(e.data)) + [[]]) == EventFields(e)
  {
    var data := DataLines(prefix, Split(e.data));
    FieldsSplit(r, [nameLine] + data, [[]]);
    FieldsSplit(r, [nameLine], data);
    DataLinesMean(r, prefix, Split(e.data));
    OneField(r, nameLine);
    OneField(r, []);
  }

  lemma EventLinesMean(e: Event)
    requires PrintableName(e.name)
    ensures Fields(EventStream(), EventLines(e)) == EventFields(e)
  {
    NameLineMeans(e.name);
    forall data ensures Classify(DATA_FIELD + " " + data) == Data(StripCR(data)) { DataLineMeans(data); }
    LinesMean(EventStream(), NameLine(e.name), DATA_FIELD + " ", e);
  }

  lemma {:induction false} DataLinesHaveNoLF(prefix: string, lines: seq<string>)
    requires NoLF(lines) && LF !in prefix
    ensures NoLF(DataLines(prefix, lines))
    decreases |lines|
  {
    if lines != [] { DataLinesHaveNoLF(prefix, lines[1..]); }
  }

  lemma EventLinesHaveNoLF(e: Event)
    requires PrintableName(e.name)
    ensures NoLF(EventLines(e))
  {
    DataLinesHaveNoLF(DATA_FIELD + " ", Split(e.data));
  }

  ghost predicate PrintableNames(events: seq<Event>) {
    forall i :: 0 <= i < |events| ==> PrintableName(events[i].name)
  }

  lemma {:induction false} AllLinesHaveNoLF(eventLines: Event -> seq<string>, events: seq<Event>)
    requires forall i :: 0 <= i < |events| ==> NoLF(eventLines(events[i]))
    ensures NoLF(AllLines(eventLines, events))
    decreases |events|
  {
    if events != [] { AllLinesHaveNoLF(eventLines, events[1..]); }
  }

  lemma {:induction false} AllLinesMean(
    r: Rules, eventLines: Event -> seq<string>, eventFields: Event -> seq<Field>, events: seq<Event>)
    requires forall i :: 0 <= i < |events| ==> Fields(r, eventLines(events[i])) == eventFields(events[i])
    ensures Fields(r, AllLines(eventLines, events)) == AllFields(eventFields, events)
    decreases |events|
  {
    if events != [] {
      AllLinesMean(r, eventLines, eventFields, events[1..]);
      FieldsSplit(r, eventLines(events[0]), AllLines(eventLines, events[1..]));
    }
  }

  lemma OnFirstField(r: Rules, st: State, field: Field, rest: seq<Field>)
    ensures OnFields(r, st, [field] + rest) == OnFields(r, OnField(r, st, field), rest)
  {
    assert ([field] + rest)[1..] == rest;
  }

  lemma Regroup<A>(a: seq<A>, b: seq<A>, c: seq<A>)
    ensures a + (b + c) == a + b + c
  {
  }

  /** Fields that only add lines of data. */
  lemma {:induction false} LinesRead(r: Rules, st: State, toData: string -> Field, strip: string -> string, lines: seq<string>)
    requires forall i :: 0 <= i < |lines| ==> toData(lines[i]) == Data(strip(lines[i]))
    ensures OnFields(r, st, Map(toData, lines)) == st.(lines := st.lines + Map(strip, lines))
    decreases |lines|
  {
    if lines == [] {
      assert st.lines + Map(strip, lines) == st.lines;
    } else {
      OnFirstField(r, st, toData(lines[0]), Map(toData, lines[1..]));
      LinesRead(r, st.(lines := st.lines + [strip(lines[0])]), toData, strip, lines[1..]);
      Regroup(st.lines, [strip(lines[0])], Map(strip, lines[1..]));
    }
  }

  /** What parsing makes of a printed event: carriage returns at line ends are lost, nothing else. */
  function Stripped(e: Event): Event {
    Event(e.name, Join(StripAll(Split(e.data))))
  }

  function AllStripped(events: seq<Event>): seq<Event> {
    Map(Stripped, events)
  }

  /** Between two events. */
  function Between(r: Rules, events: seq<Event>): State {
    State(r.defaultName, [], events)
  }

  /** The fields make one event of their own, whatever came before. */
  ghost predicate ReadAs(r: Rules, fields: seq<Field>, e: Event) {
    forall done :: OnFields(r, Between(r, done), fields) == Between(r, done + [e])
  }

  lemma EventRead(r: Rules, e: Event)
    ensures ReadAs(r, EventFields(e), Stripped(e))
  {
    forall done ensures OnFields(r, Between(r, done), EventFields(e)) == Between(r, done + [Stripped(e)]) {
      var data, named := DataFields(Split(e.data)), Between(r, done).(name := e.name);
      OnFieldsSplit(r, Between(r, done), [Name(e.name)] + data, [Blank]);
      OnFieldsSplit(r, Between(r, done), [Name(e.name)], data);
      OnOneField(r, Between(r, done), Name(e.name));
      LinesRead(r, named, ToData, StripCR, Split(e.data));
      assert named.lines + StripAll(Split(e.data)) == StripAll(Split(e.data));
      OnOneField(r, named.(lines := StripAll(Split(e.data))), Blank);
    }
  }

  lemma OnOneField(r: Rules, st: State, field: Field)
    ensures OnFields(r, st, [field]) == OnField(r, st, field)
  {
    assert [field][1..] == [];
  }

  lemma {:induction false} EventsRead(
    r: Rules, eventFields: Event -> seq<Field>, readBack: Event -> Event, done: seq<Event>, events: seq<Event>)
    requires forall i :: 0 <= i < |events| ==> ReadAs(r, eventFields(events[i]), readBack(events[i]))
    ensures OnFields(r, Between(r, done), AllFields(eventFields, events)) == Between(r, done + Map(readBack, events))
    decreases |events|
  {
    if events == [] {
      assert done + Map(readBack, events) == done;
    } else {
      OnFieldsSplit(r, Between(r, done), eventFields(events[0]), AllFields(eventFields, events[1..]));
      assert OnFields(r, Between(r, done), eventFields(events[0])) == Between(r, done + [readBack(events[0])]) by {
        assert ReadAs(r, eventFields(events[0]), readBack(events[0]));
      }
      EventsRead(r, eventFields, readBack, done + [readBack(events[0])], events[1..]);
      Regroup(done, [readBack(events[0])], Map(readBack, events[1..]));
    }
  }

  lemma LinesParse(
    r: Rules, eventLines: Event -> seq<string>, eventFields: Event -> seq<Field>, readBack: Event -> Event, events: seq<Event>)
    requires forall i :: 0 <= i < |events| ==> NoLF(eventLines(events[i]))
    requires forall i :: 0 <= i < |events| ==> Fields(r, eventLines(events[i])) == eventFields(events[i])
    requires forall i :: 0 <= i < |events| ==> ReadAs(r, eventFields(events[i]), readBack(events[i]))
    ensures ParseWith(r, Text(AllLines(eventLines, events))) == Map(readBack, events)
  {
    AllLinesMean(r, eventLines, eventFields, events);
    AllLinesHaveNoLF(eventLines, events);
    TextIsFields(r, Initial(r), AllLines(eventLines, events));
    EventsRead(r, eventFields, readBack, [], events);
    assert [] + Map(readBack, events) == Map(readBack, events);
  }

  lemma ParsePrinted(events: seq<Event>)
    requires PrintableNames(events)
    ensures Parse(Print(events)) == AllStripped(events)
  {
    forall i | 0 <= i < |events|
      ensures NoLF(EventLines(events[i])) && Fields(EventStream(), EventLines(events[i])) == EventFields(events[i])
      ensures ReadAs(EventStream(), EventFields(events[i]), Stripped(events[i]))
    {
      EventLinesHaveNoLF(events[i]);
      EventLinesMean(events[i]);
      EventRead(EventStream(), events[i]);
    }
    LinesParse(EventStream(), EventLines, EventFields, Stripped, events);
  }

  // ---- Exactly which events survive printing and parsing ----

  /** No line of the data ends in a carriage return. */
  ghost predicate PrintableData(data: string) {
    forall i :: 0 <= i < |Split(data)| ==> StripCR(Split(data)[i]) == Split(data)[i]
  }

  lemma {:induction false} StrippingShortens(lines: seq<string>)
    ensures |Join(StripAll(lines))| <= |Join(lines)|
    ensures |Join(StripAll(lines))| == |Join(lines)| ==> StripAll(lines) == lines
    decreases |lines|
  {
    MapAt(StripCR, lines);
    if |lines| > 1 {
      StrippingShortens(lines[1..]);
      MapAt(StripCR, lines[1..]);
      JoinFirst(lines[0], lines[1..]);
      JoinFirst(StripCR(lines[0]), StripAll(lines[1..]));
      assert [lines[0]] + lines[1..] == lines;
      assert [StripCR(lines[0])] + StripAll(lines[1..]) == StripAll(lines);
    }
  }

  /** An event's data survives exactly when it is printable. */
  lemma DataSurvivesExactly(e: Event)
    ensures Stripped(e) == e <==> PrintableData(e.data)
  {
    var lines := Split(e.data);
    JoinSplit(e.data);
    StrippingShortens(lines);
    MapAt(StripCR, lines);
    if PrintableData(e.data) { assert StripAll(lines) == lines; }
  }

  lemma TrimmedIsTrimmed(s: string)
    ensures Trim(Trim(s)) == Trim(s)
    ensures LF !in s ==> LF !in Trim(s)
  {
    var t, u := Trim(s), TrimStart(s);
    if t != [] { assert t[0] == u[0]; }
    assert TrimStart(t) == t;
  }

  lemma DefaultNameIsPrintable()
    ensures PrintableName(DEFAULT_NAME)
  {
    var m := DEFAULT_NAME;
    assert |m| == 7 && m[0] == 'm' && m[6] == 'e';
    assert m[1] == 'e' && m[2] == 's' && m[3] == 's' && m[4] == 'a' && m[5] == 'g';
    PlainNameIsPrintable(m);
  }

  lemma PlainNameIsPrintable(s: string)
    requires s != [] && !IsSpace(s[0]) && !IsSpace(s[|s| - 1]) && LF !in s
    ensures PrintableName(s)
  {
  }

  lemma NameReadIsPrintable(s: string)
    requires LF !in s
    ensures PrintableName(if Trim(s) == [] then DEFAULT_NAME else Trim(s))
  {
    DefaultNameIsPrintable();
    TrimmedIsTrimmed(s);
  }

  lemma StrippedRest(raw: string, n: nat)
    requires LF !in raw && n <= |StripCR(raw)|
    ensures LF !in StripCR(raw)[n..]
  {
  }

  lemma NamesReadArePrintable(raw: string)
    requires LF !in raw && Classify(raw).Name?
    ensures PrintableName(Classify(raw).name)
  {
    StrippedRest(raw, |EVENT_FIELD|);
    NameReadIsPrintable(StripCR(raw)[|EVENT_FIELD|..]);
  }

  /** Every name that rules can yield has property `p`. */
  ghost predicate YieldsOnly(r: Rules, p: string -> bool) {
    && p(r.defaultName)
    && forall raw :: LF !in raw && r.read(raw).Name? ==> p(r.read(raw).name)
  }

  ghost predicate HasOnly(st: State, p: string -> bool) {
    p(st.name) && forall i :: 0 <= i < |st.events| ==> p(st.events[i].name)
  }

  lemma LineKeepsNames(r: Rules, p: string -> bool, st: State, raw: string)
    requires YieldsOnly(r, p) && HasOnly(st, p) && LF !in raw
    ensures HasOnly(OnLine(r, st, raw), p)
  {
  }

  lemma {:induction false} TextKeepsNames(r: Rules, p: string -> bool, st: State, text: string)
    requires YieldsOnly(r, p) && HasOnly(st, p)
    ensures HasOnly(OnText(r, st, text), p)
    decreases |text|
  {
    var i := FirstLF(text);
    if i < |text| {
      LineKeepsNames(r, p, st, text[..i]);
      TextKeepsNames(r, p, OnLine(r, st, text[..i]), text[i + 1..]);
    }
  }

  lemma NamesReadHave(p: string -> bool, raw: string)
    requires forall name :: PrintableName(name) ==> p(name)
    requires LF !in raw && Classify(raw).Name?
    ensures p(Classify(raw).name)
  {
    NamesReadArePrintable(raw);
  }

  lemma EventStreamYieldsPrintableNames(p: string -> bool)
    requires forall name :: PrintableName(name) ==> p(name)
    ensures YieldsOnly(EventStream(), p)
  {
    DefaultNameIsPrintable();
    forall raw | LF !in raw && Classify(raw).Name? ensures p(Classify(raw).name) {
      NamesReadHave(p, raw);
    }
  }

  lemma ParsedNamesAre(r: Rules, p: string -> bool, text: string)
    requires YieldsOnly(r, p)
    ensures forall i :: 0 <= i < |ParseWith(r, text)| ==> p(ParseWith(r, text)[i].name)
  {
    TextKeepsNames(r, p, Initial(r), text);
  }

  lemma ParsedNamesArePrintable(text: string)
    ensures PrintableNames(Parse(text))
  {
    var p := name => PrintableName(name);
    EventStreamYieldsPrintableNames(p);
    ParsedNamesAre(EventStream(), p, text);
    assert forall i :: 0 <= i < |Parse(text)| ==> p(Parse(text)[i].name);
  }

  ghost predicate Printable(e: Event) {
    PrintableName(e.name) && PrintableData(e.data)
  }

  lemma AllDataSurvivesExactly(events: seq<Event>)
    ensures AllStripped(events) == events
            <==> forall i :: 0 <= i < |events| ==> PrintableData(events[i].data)
  {
    MapAt(Stripped, events);
    forall i | 0 <= i < |events| ensures AllStripped(events)[i] == events[i] <==> PrintableData(events[i].data) {
      DataSurvivesExactly(events[i]);
    }
  }

  /** Printing and parsing returns the events, leading spaces in their data included, exactly when
      every name is non-empty, trimmed and on one line and no line of data ends in a carriage return. */
  lemma RoundTripExactly(events: seq<Event>)
    ensures Parse(Print(events)) == events <==> forall i :: 0 <= i < |events| ==> Printable(events[i])
  {
    ParsedNamesArePrintable(Print(events));
    if PrintableNames(events) {
      ParsePrinted(events);
      AllDataSurvivesExactly(events);
    } else {
      var i :| 0 <= i < |events| && !PrintableName(events[i].name);
      assert !Printable(events[i]);
    }
  }

  // ---- What every possible line means ----

  lemma StripAfterColon(field: string, value: string)
    requires field != [] && field[|field| - 1] == COLON
    ensures StripCR(field + value) == field + StripCR(value)
  {
    StripCRAfter(field, value);
  }

  lemma BlankLineMeans(line: string)
    ensures Classify(line) == Blank <==> line == [] || line == [CR]
  {
  }

  lemma {:induction false} TrimStartRemovesSpace(s: string)
    ensures forall i :: 0 <= i < |s| - |TrimStart(s)| ==> IsSpace(s[i])
    decreases |s|
  {
    if s != [] && IsSpace(s[0]) {
      TrimStartRemovesSpace(s[1..]);
      forall i | 0 <= i < |s| - |TrimStart(s)| ensures IsSpace(s[i]) {
        if i > 0 { assert s[i] == s[1..][i - 1]; }
      }
    }
  }

  lemma {:induction false} TrimEndRemovesSpace(s: string)
    ensures forall i :: |TrimEnd(s)| <= i < |s| ==> IsSpace(s[i])
    decreases |s|
  {
    if s != [] && IsSpace(s[|s| - 1]) {
      TrimEndRemovesSpace(s[..|s| - 1]);
    }
  }

  /** Trimming cuts one piece out of the text.  What it cuts off is white space (`TrimStartRemovesSpace`,
      `TailIsSpace`), and all of it (`TrimmedEnds`). */
  lemma TrimIsAPiece(s: string)
    ensures var from := |s| - |TrimStart(s)|; Trim(s) == s[from..from + |Trim(s)|]
  {
    SliceOfRest(s, |s| - |TrimStart(s)|, |Trim(s)|);
  }

  lemma TailIsSpace(s: string)
    ensures forall i :: |s| - |TrimStart(s)| + |Trim(s)| <= i < |s| ==> IsSpace(s[i])
  {
    var t := TrimStart(s);
    TrimEndRemovesSpace(t);
    forall i | |s| - |t| + |Trim(s)| <= i < |s| ensures IsSpace(s[i]) {
      assert s[i] == t[i - (|s| - |t|)];
    }
  }

  lemma TrimmedEnds(s: string)
    requires Trim(s) != []
    ensures !IsSpace(Trim(s)[0]) && !IsSpace(Trim(s)[|Trim(s)| - 1])
  {
    assert Trim(s)[0] == TrimStart(s)[0];
  }

  lemma SliceOfRest(s: string, k: nat, n: nat)
    requires k + n <= |s|
    ensures s[k..][..n] == s[k..k + n]
  {
  }

  lemma TrimStartSkips(c: char, s: string)
    requires IsSpace(c)
    ensures TrimStart([c] + s) == TrimStart(s)
  {
    assert ([c] + s)[1..] == s;
  }

  lemma TrimStartStops(c: char, s: string)
    requires !IsSpace(c)
    ensures TrimStart([c] + s) == [c] + s
  {
  }

  /** White space at the end does not matter to the start. */
  lemma {:induction false} TrimStartBefore(s: string, c: char)
    requires IsSpace(c)
    ensures TrimStart(s + [c]) == if TrimStart(s) == [] then [] else TrimStart(s) + [c]
    decreases |s|
  {
    if s == [] {
      TrimStartSkips(c, []);
      assert s + [c] == [c] + [];
    } else {
      var first, rest := s[0], s[1..];
      assert s == [first] + rest && s + [c] == [first] + (rest + [c]);
      if IsSpace(first) {
        TrimStartSkips(first, rest);
        TrimStartSkips(first, rest + [c]);
        TrimStartBefore(rest, c);
      } else {
        TrimStartStops(first, rest);
        TrimStartStops(first, rest + [c]);
      }
    }
  }

  lemma TrimEndSkips(s: string, c: char)
    requires IsSpace(c)
    ensures TrimEnd(s + [c]) == TrimEnd(s)
  {
    assert (s + [c])[..|s|] == s;
  }

  lemma TrimBefore(s: string, c: char)
    requires IsSpace(c)
    ensures Trim(s + [c]) == Trim(s)
  {
    TrimStartBefore(s, c);
    if TrimStart(s) != [] { TrimEndSkips(TrimStart(s), c); }
  }

  lemma TrimDropsCR(s: string)
    ensures Trim(StripCR(s)) == Trim(s)
  {
    if s != [] && s[|s| - 1] == CR {
      var t := s[..|s| - 1];
      assert s == t + [CR] && StripCR(s) == t;
      TrimBefore(t, CR);
    }
  }

  /** An `event:` line names the event by its trimmed rest, "message" when nothing is left. */
  lemma EventLineMeans(value: string)
    ensures Classify(EVENT_FIELD + value) == Name(if Trim(value) == [] then "message" else Trim(value))
  {
    StripAfterColon(EVENT_FIELD, value);
    TrimDropsCR(value);
    var read := EVENT_FIELD + StripCR(value);
    assert read[0] == 'e' && read[..1][0] == 'e';
    assert read[..|EVENT_FIELD|] == EVENT_FIELD && read[|EVENT_FIELD|..] == StripCR(value);
  }

  /** Without the space after `data:` all the text is kept. */
  lemma UnspacedDataLineMeans(data: string)
    requires !StartsWith(data, " ")
    ensures Classify(DATA_FIELD + data) == Data(StripCR(data))
  {
    StripAfterColon(DATA_FIELD, data);
    var read := DATA_FIELD + StripCR(data);
    assert read[0] == 'd' && read[..1][0] == 'd';
    assert |read| >= |EVENT_FIELD| ==> read[..|EVENT_FIELD|][0] == 'd';
    assert read[..|DATA_FIELD|] == DATA_FIELD && read[|DATA_FIELD|..] == StripCR(data);
    assert StripCR(data) != [] ==> StripCR(data)[..1] == data[..1];
  }

  lemma StripKeepsField(line: string, field: string)
    requires field != [] && field[|field| - 1] == COLON
    ensures StartsWith(StripCR(line), field) <==> StartsWith(line, field)
  {
    if StartsWith(line, field) {
      assert line[|field| - 1] == line[..|field|][|field| - 1] == COLON;
      assert StripCR(line)[..|field|] == line[..|field|];
    }
    assert |StripCR(line)| >= |field| ==> StripCR(line)[..|field|] == line[..|field|];
  }

  /** Comments and every other line that is neither blank nor one of the two fields are ignored. */
  lemma OtherLineMeans(line: string)
    requires line != [] && line != [CR]
    requires !StartsWith(line, EVENT_FIELD) && !StartsWith(line, DATA_FIELD)
    ensures Classify(line) == Ignored
  {
    StripKeepsField(line, EVENT_FIELD);
    StripKeepsField(line, DATA_FIELD);
  }

  lemma OnlyDataLinesAreData(line: string)
    requires !StartsWith(line, DATA_FIELD)
    ensures !Classify(line).Data?
  {
    StripKeepsField(line, DATA_FIELD);
  }

  lemma ReturnAtTheEndMeansNothing(line: string)
    requires line == [] || line[|line| - 1] != CR
    ensures Classify(line + [CR]) == Classify(line)
  {
    assert (line + [CR])[..|line|] == line;
  }

  // ---- Lines in their place: what every stream shares ----

  lemma LineThen(r: Rules, st: State, line: string, rest: string)
    requires LF !in line
    ensures OnText(r, st, line + [LF] + rest) == OnText(r, OnLine(r, st, line), rest)
  {
    var text := line + [LF] + rest;
    FirstLFAfter(line, rest);
    assert text[..|line|] == line && text[|line| + 1..] == rest;
  }

  /** The state after some whole lines. */
  function After(r: Rules, lines: seq<string>): State {
    OnFields(r, Initial(r), Fields(r, lines))
  }

  lemma {:induction false} LinesThen(r: Rules, st: State, lines: seq<string>, rest: string)
    requires NoLF(lines)
    ensures OnText(r, st, Text(lines) + rest) == OnText(r, OnFields(r, st, Fields(r, lines)), rest)
    decreases |lines|
  {
    if lines == [] {
      assert Text(lines) + rest == rest;
    } else {
      var line, more := lines[0], Text(lines[1..]);
      assert Text(lines) + rest == line + [LF] + (more + rest);
      LineThen(r, st, line, more + rest);
      LinesThen(r, OnLine(r, st, line), lines[1..], rest);
      assert OnFields(r, st, Fields(r, lines)) == OnFields(r, OnLine(r, st, line), Fields(r, lines[1..]));
    }
  }

  /** Parsing goes on after the whole lines `a` and one more line. */
  lemma ParseFromLine(r: Rules, a: seq<string>, line: string, rest: string)
    requires NoLF(a) && LF !in line
    ensures ParseWith(r, Text(a) + (line + [LF] + rest)) == Flush(r, OnText(r, OnLine(r, After(r, a), line), rest)).events
  {
    LinesThen(r, Initial(r), a, line + [LF] + rest);
    LineThen(r, After(r, a), line, rest);
  }

  lemma ParseFrom(r: Rules, a: seq<string>, rest: string)
    requires NoLF(a)
    ensures ParseWith(r, Text(a) + rest) == Flush(r, OnText(r, After(r, a), rest)).events
  {
    LinesThen(r, Initial(r), a, rest);
  }

  /** Lines that mean the same can stand for each other anywhere in a stream. */
  lemma LinesInterchange(a: seq<string>, line: string, other: string, rest: string)
    requires NoLF(a) && LF !in line && LF !in other && Classify(line) == Classify(other)
    ensures Parse(Text(a) + (line + [LF] + rest)) == Parse(Text(a) + (other + [LF] + rest))
  {
    ParseFromLine(EventStream(), a, line, rest);
    ParseFromLine(EventStream(), a, other, rest);
  }

  /** Anywhere in a stream a comment, as servers send to keep a connection open, or a line of an unknown field
      changes nothing. */
  lemma OtherLinesAreInvisible(a: seq<string>, line: string, rest: string)
    requires NoLF(a) && LF !in line && line != [] && line != [CR]
    requires !StartsWith(line, "event:") && !StartsWith(line, "data:")
    ensures Parse(Text(a) + (line + [LF] + rest)) == Parse(Text(a) + rest)
  {
    OtherLineMeans(line);
    ParseFromLine(EventStream(), a, line, rest);
    ParseFrom(EventStream(), a, rest);
  }

  lemma CommentsAreInvisible(a: seq<string>, comment: string, rest: string)
    requires NoLF(a) && LF !in comment
    ensures Parse(Text(a) + (":" + comment + [LF] + rest)) == Parse(Text(a) + rest)
  {
    var line := ":" + comment;
    assert line[0] == ':';
    assert !StartsWith(line, "event:") by { if |line| >= 6 { assert line[..6][0] == ':'; } }
    assert !StartsWith(line, "data:") by { if |line| >= 5 { assert line[..5][0] == ':'; } }
    OtherLinesAreInvisible(a, line, rest);
  }

  /** One space after `data:` is optional. */
  lemma TheSpaceIsOptional(a: seq<string>, data: string, rest: string)
    requires NoLF(a) && LF !in data && !StartsWith(data, " ")
    ensures Parse(Text(a) + (DATA_FIELD + data + [LF] + rest)) == Parse(Text(a) + (DATA_FIELD + " " + data + [LF] + rest))
  {
    UnspacedDataLineMeans(data);
    DataLineMeans(data);
    LinesInterchange(a, DATA_FIELD + data, DATA_FIELD + " " + data, rest);
  }

  /** An `event:` line with nothing or only white space behind it names the event "message". */
  lemma AnEmptyNameIsMessage(a: seq<string>, value: string, rest: string)
    requires NoLF(a) && LF !in value && Trim(value) == []
    ensures Parse(Text(a) + (EVENT_FIELD + value + [LF] + rest)) == Parse(Text(a) + (EVENT_FIELD + "message" + [LF] + rest))
  {
    EventLineMeans(value);
    EventLineMeans(DEFAULT_NAME);
    DefaultNameIsPrintable();
    LinesInterchange(a, EVENT_FIELD + value, EVENT_FIELD + DEFAULT_NAME, rest);
  }

  /** Lines may end in CR LF as well. */
  lemma LinesMayEndInCRLF(a: seq<string>, line: string, rest: string)
    requires NoLF(a) && LF !in line && (line == [] || line[|line| - 1] != CR)
    ensures Parse(Text(a) + (line + [CR] + [LF] + rest)) == Parse(Text(a) + (line + [LF] + rest))
  {
    ReturnAtTheEndMeansNothing(line);
    LinesInterchange(a, line + [CR], line, rest);
  }

  /** What is unfinished at the end of the stream is delivered as if a blank line came. */
  lemma TheLastEventIsDelivered(a: seq<string>)
    requires NoLF(a)
    ensures Parse(Text(a)) == Parse(Text(a) + [LF])
  {
    var r := EventStream();
    BlankLineMeans([]);
    ParseFromLine(r, a, [], []);
    assert [] + [LF] + [] == [LF];
    ParseFrom(r, a, []);
    assert Text(a) + [] == Text(a);
    assert OnLine(r, After(r, a), []) == Flush(r, After(r, a));
  }

  /** A last line without a line feed is dropped. */
  lemma AnUnfinishedLineIsDropped(a: seq<string>, line: string)
    requires NoLF(a) && LF !in line
    ensures Parse(Text(a) + line) == Parse(Text(a))
  {
    ParseFrom(EventStream(), a, line);
    ParseFrom(EventStream(), a, []);
    assert Text(a) + [] == Text(a);
  }

  lemma {:induction false} NoDataYet(r: Rules, st: State, lines: seq<string>)
    requires st.lines == [] && forall i :: 0 <= i < |lines| ==> !r.read(lines[i]).Data?
    ensures OnFields(r, st, Fields(r, lines)).lines == []
    decreases |lines|
  {
    if lines != [] {
      NoDataYet(r, OnLine(r, st, lines[0]), lines[1..]);
      assert OnFields(r, st, Fields(r, lines)) == OnFields(r, OnLine(r, st, lines[0]), Fields(r, lines[1..]));
    }
  }

  lemma AfterMore(r: Rules, a: seq<string>, b: seq<string>)
    ensures After(r, a + b) == OnFields(r, After(r, a), Fields(r, b))
  {
    FieldsSplit(r, a, b);
    OnFieldsSplit(r, Initial(r), Fields(r, a), Fields(r, b));
  }

  /** A blank line with no data since the start or the blank line before changes nothing: in particular a
      name survives it. */
  lemma AnIdleBlankLineIsInvisible(a: seq<string>, between: seq<string>, rest: string)
    requires NoLF(a) && NoLF(between) && (a != [] ==> a[|a| - 1] == [])
    requires forall i :: 0 <= i < |between| ==> !StartsWith(between[i], "data:")
    ensures Parse(Text(a + between) + ([LF] + rest)) == Parse(Text(a + between) + rest)
  {
    var r := EventStream();
    forall i | 0 <= i < |between| ensures !r.read(between[i]).Data? { OnlyDataLinesAreData(between[i]); }
    assert r.read([]) == Blank by { BlankLineMeans([]); }
    IdleBlankLine(r, a, between, rest);
  }

  lemma IdleBlankLine(r: Rules, a: seq<string>, between: seq<string>, rest: string)
    requires NoLF(a + between) && r.read([]) == Blank && (a != [] ==> a[|a| - 1] == [])
    requires forall i :: 0 <= i < |between| ==> !r.read(between[i]).Data?
    ensures ParseWith(r, Text(a + between) + ([LF] + rest)) == ParseWith(r, Text(a + between) + rest)
  {
    assert After(r, a + between).lines == [] by {
      AfterABlankLine(r, a);
      AfterMore(r, a, between);
      NoDataYet(r, After(r, a), between);
    }
    ParseFrom(r, a + between, rest);
    ParseFromLine(r, a + between, [], rest);
    assert [] + [LF] + rest == [LF] + rest;
  }

  lemma AfterABlankLine(r: Rules, a: seq<string>)
    requires r.read([]) == Blank && (a != [] ==> a[|a| - 1] == [])
    ensures After(r, a).lines == []
  {
    if a != [] {
      var before := a[..|a| - 1];
      assert a == before + [[]];
      AfterMore(r, before, [[]]);
      OneField(r, []);
      OnOneField(r, After(r, before), Blank);
    }
  }

  /** The name is "message" at the start of the stream. */
  lemma TheFirstNameIsMessage(rest: string)
    ensures Parse(EVENT_FIELD + "message" + [LF] + rest) == Parse(rest)
  {
    NamedMessage([], rest);
    assert Text([]) + (EVENT_FIELD + DEFAULT_NAME + [LF] + rest) == EVENT_FIELD + DEFAULT_NAME + [LF] + rest;
    assert Text([]) + rest == rest;
  }

  /** Naming an event "message" where it would have that name anyway. */
  lemma NamedMessage(a: seq<string>, rest: string)
    requires NoLF(a) && After(EventStream(), a).name == DEFAULT_NAME
    ensures Parse(Text(a) + (EVENT_FIELD + DEFAULT_NAME + [LF] + rest)) == Parse(Text(a) + rest)
  {
    EventLineMeans(DEFAULT_NAME);
    DefaultNameIsPrintable();
    ParseFromLine(EventStream(), a, EVENT_FIELD + DEFAULT_NAME, rest);
    ParseFrom(EventStream(), a, rest);
  }

  /** The name is "message" again after every delivery. */
  lemma TheNextNameIsMessage(a: seq<string>, data: string, rest: string)
    requires NoLF(a) && LF !in data
    ensures var lines := a + [DATA_FIELD + data, []];
            Parse(Text(lines) + (EVENT_FIELD + "message" + [LF] + rest)) == Parse(Text(lines) + rest)
  {
    var r, last := EventStream(), [DATA_FIELD + data, []];
    assert NoLF(a + last);
    if StartsWith(data, " ") {
      assert DATA_FIELD + data == DATA_FIELD + " " + data[1..];
      DataLineMeans(data[1..]);
    } else {
      UnspacedDataLineMeans(data);
    }
    Delivered(r, a, DATA_FIELD + data);
    NamedMessage(a + last, rest);
  }

  lemma Delivered(r: Rules, a: seq<string>, line: string)
    requires r.read(line).Data? && r.read([]) == Blank
    ensures After(r, a + [line, []]).name == r.defaultName
  {
    AfterMore(r, a, [line, []]);
    assert [line, []][1..] == [[]];
    OneField(r, []);
    var st := After(r, a);
    assert Fields(r, [line, []]) == [r.read(line)] + [Blank];
    OnFirstField(r, st, r.read(line), [Blank]);
    OnOneField(r, OnField(r, st, r.read(line)), Blank);
  }
}
