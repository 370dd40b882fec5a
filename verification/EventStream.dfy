/**
 Server-sent events: the printer of the agent's HTTP stream and the line parser
 of the gateway client, in the event stream format of sections 9.2.5 and 9.2.6
 of the WHATWG HTML Living Standard. An event is its type and the JSON text of
 its envelope.
 */
module EventStream {
  import opened Prelude
  import opened Text

  datatype Event = Event(kind: string, data: string)

  /** The scanner gives up on a line that does not fit, with its newline, in a buffer of this many bytes. */
  const LINE_LIMIT: nat := 1024 * 1024

  // -------------------------------------------------- printing

  function EventLine(e: Event): string {
    "event: " + e.kind
  }

  function DataLine(e: Event): string {
    "data: " + e.data
  }

  /** "event: %s\ndata: %s\n\n". */
  function Print(e: Event): string {
    EventLine(e) + "\n" + (DataLine(e) + "\n" + ("" + "\n"))
  }

  function PrintAll(es: seq<Event>): string {
    if es == [] then "" else Print(es[0]) + PrintAll(es[1..])
  }

  /** `httpStreamWriter`. */
  class StreamWriter {
    var out: string
    ghost var events: seq<Event>

    ghost predicate Valid()
      reads this
    {
      out == PrintAll(events)
    }

    constructor ()
      ensures Valid() && events == []
    {
      out, events := "", [];
    }

    /** `WriteEvent`: a nil event, or one that does not marshal, writes nothing. */
    method WriteEvent(event: Option<Event>)
      requires Valid()
      modifies this
      ensures Valid()
      ensures events == old(events) + if event.Some? then [event.value] else []
      ensures old(out) <= out
    {
      if event.Some? {
        PrintSnoc(events, event.value);
        out := out + Print(event.value);
        events := events + [event.value];
      }
    }

    /** `Close`: one last status event, whose envelope says completed. */
    method Close(envelope: string)
      requires Valid()
      modifies this
      ensures Valid() && events == old(events) + [Event("task/status", envelope)]
    {
      WriteEvent(Some(Event("task/status", envelope)));
    }
  }

  lemma Associate(a: string, b: string, c: string)
    ensures a + (b + c) == (a + b) + c
  {
  }

  lemma {:induction false} PrintSnoc(es: seq<Event>, e: Event)
    ensures PrintAll(es + [e]) == PrintAll(es) + Print(e)
  {
    if es == [] {
      assert es + [e] == [e];
    } else {
      PrintSnoc(es[1..], e);
      assert (es + [e])[1..] == es[1..] + [e];
      Associate(Print(es[0]), PrintAll(es[1..]), Print(e));
    }
  }

  // -------------------------------------------------- parsing

  /** The first newline, or the length if there is none. */
  function NewlineAt(s: string): (n: nat)
    ensures n <= |s| && (n < |s| ==> s[n] == '\n') && '\n' !in s[..n]
  {
    if s == "" then 0 else if s[0] == '\n' then 0 else
    assert s[..1 + NewlineAt(s[1..])] == [s[0]] + s[1..][..NewlineAt(s[1..])];
    1 + NewlineAt(s[1..])
  }

  /** Line tokens lose one trailing carriage return. */
  function DropCR(line: string): string {
    if line != "" && line[|line| - 1] == '\r' then line[..|line| - 1] else line
  }

  function Join(lines: seq<string>): string {
    if lines == [] then "" else if |lines| == 1 then lines[0] else lines[0] + "\n" + Join(lines[1..])
  }

  /** What a blank line, or the end of the stream, emits for the data lines held. */
  function Flush(held: seq<string>): seq<string> {
    if held == [] then [] else Payload(Join(held))
  }

  function Payload(text: string): seq<string> {
    var data := Trim(text);
    if data == "" || data == "[DONE]" then [] else [data]
  }

  /** What a line emits. */
  function Emits(line: string, held: seq<string>): seq<string> {
    if line == "" then Flush(held) else []
  }

  /** The data lines held after a line. */
  function Holds(line: string, held: seq<string>): seq<string> {
    if line == "" then [] else if HasPrefix(line, "data:") then held + [line[5..]] else held
  }

  /** The payloads of a stream, given the data lines held so far. */
  function Parse(s: string, held: seq<string>): seq<string>
    decreases |s|
  {
    var n := NewlineAt(s);
    if s == "" || ByteLen(s[..n]) >= LINE_LIMIT then Flush(held)
    else
      var line := DropCR(s[..n]);
      Emits(line, held) + Parse(if n < |s| then s[n + 1..] else "", Holds(line, held))
  }

  /** The stream after its first line. */
  function AfterLine(s: string): (rest: string)
    ensures s != "" ==> |rest| < |s|
  {
    if NewlineAt(s) < |s| then s[NewlineAt(s) + 1..] else ""
  }

  lemma ParseStep(s: string, held: seq<string>)
    requires s != "" && ByteLen(s[..NewlineAt(s)]) < LINE_LIMIT
    ensures var line := DropCR(s[..NewlineAt(s)]);
            Parse(s, held) == Emits(line, held) + Parse(AfterLine(s), Holds(line, held))
  {
  }

  lemma ParseEnd(s: string, held: seq<string>)
    requires s == "" || ByteLen(s[..NewlineAt(s)]) >= LINE_LIMIT
    ensures Parse(s, held) == Flush(held)
  {
  }

  /** The line is read and acted on. */
  method ReadLine(s: string, held: seq<string>) returns (emitted: seq<string>, holds: seq<string>)
    requires s != "" && ByteLen(s[..NewlineAt(s)]) < LINE_LIMIT
    ensures Parse(s, held) == emitted + Parse(AfterLine(s), holds)
  {
    ParseStep(s, held);
    var line := DropCR(s[..NewlineAt(s)]);
    emitted, holds := [], held;
    if line == "" {
      emitted := Flush(held);
      holds := [];
    } else if HasPrefix(line, "data:") {
      holds := held + [line[5..]];
    }
  }

  /** The scan loop of `InvokeAgentStream`, on a stream whose context is not cancelled. */
  method ReadStream(s: string) returns (payloads: seq<string>)
    ensures payloads == Parse(s, [])
  {
    payloads := [];
    var held: seq<string>, rest := [], s;
    ghost var todo := Parse(s, []);
    while rest != "" && ByteLen(rest[..NewlineAt(rest)]) < LINE_LIMIT
      invariant todo == Parse(rest, held)
      invariant payloads + todo == Parse(s, [])
      decreases |rest|
    {
      var emitted;
      emitted, held := ReadLine(rest, held);
      rest := AfterLine(rest);
      assert todo == emitted + Parse(rest, held);
      todo := Parse(rest, held);
      payloads := payloads + emitted;
    }
    ParseEnd(rest, held);
    payloads := payloads + Flush(held);
  }

  // -------------------------------------------------- one line at a time

  predicate OneLine(s: string) {
    '\n' !in s
  }

  lemma {:induction false} NewlineAfter(line: string, rest: string)
    requires OneLine(line)
    ensures NewlineAt(line + "\n" + rest) == |line|
  {
    var s := line + "\n" + rest;
    if line != "" {
      NewlineAfter(line[1..], rest);
      assert s[1..] == line[1..] + "\n" + rest;
    }
  }

  lemma ParseLine(line: string, rest: string, held: seq<string>)
    requires OneLine(line) && ByteLen(line) < LINE_LIMIT
    ensures Parse(line + "\n" + rest, held) == Emits(DropCR(line), held) + Parse(rest, Holds(DropCR(line), held))
  {
    var s := line + "\n" + rest;
    NewlineAfter(line, rest);
    assert s[..|line|] == line && s[|line| + 1..] == rest;
  }

  lemma ParseLongLine(line: string, rest: string, held: seq<string>)
    requires OneLine(line) && ByteLen(line) >= LINE_LIMIT
    ensures Parse(line + "\n" + rest, held) == Flush(held)
  {
    NewlineAfter(line, rest);
    assert (line + "\n" + rest)[..|line|] == line;
  }

  // -------------------------------------------------- whole lines

  /** The lines of a text; there is always one. */
  function Lines(s: string): seq<string>
    decreases |s|
  {
    var n := NewlineAt(s);
    if n == |s| then [s] else [s[..n]] + Lines(s[n + 1..])
  }

  /** Lines as they are printed, each with its newline. */
  function Unlines(lines: seq<string>): string {
    if lines == [] then "" else lines[0] + "\n" + Unlines(lines[1..])
  }

  ghost predicate AreLines(lines: seq<string>) {
    forall i :: 0 <= i < |lines| ==> OneLine(lines[i])
  }

  lemma {:induction false} LinesMeaning(s: string)
    ensures AreLines(Lines(s)) && Unlines(Lines(s)) == s + "\n"
    decreases |s|
  {
    var n := NewlineAt(s);
    if n < |s| {
      LinesMeaning(s[n + 1..]);
      assert s == s[..n] + "\n" + s[n + 1..];
    }
  }

  lemma OneLineAlone(s: string)
    requires OneLine(s)
    ensures Lines(s) == [s]
  {
  }

  /** What reading lines leaves: the payloads emitted, the data lines held, and whether a line was too long to go on. */
  datatype Reader = Reader(out: seq<string>, held: seq<string>, stopped: bool)

  function Feed(lines: seq<string>, held: seq<string>): Reader {
    if lines == [] then Reader([], held, false)
    else if ByteLen(lines[0]) >= LINE_LIMIT then Reader(Flush(held), [], true)
    else
      var line := DropCR(lines[0]);
      var r := Feed(lines[1..], Holds(line, held));
      r.(out := Emits(line, held) + r.out)
  }

  /** What a reader has emitted, followed by what the rest of the stream gives it. */
  function Then(r: Reader, rest: string): seq<string> {
    r.out + if r.stopped then [] else Parse(rest, r.held)
  }

  lemma {:induction false} ParseFeed(lines: seq<string>, rest: string, held: seq<string>)
    requires AreLines(lines)
    ensures Parse(Unlines(lines) + rest, held) == Then(Feed(lines, held), rest)
  {
    if lines == [] {
      assert Unlines(lines) + rest == rest;
    } else {
      var line, more := lines[0], Unlines(lines[1..]) + rest;
      UnlinesShape(lines, rest);
      if ByteLen(line) >= LINE_LIMIT {
        ParseLongLine(line, more, held);
      } else {
        ParseLine(line, more, held);
        ThenStep(lines, held, rest);
        ParseFeed(lines[1..], rest, Holds(DropCR(line), held));
      }
    }
  }

  lemma UnlinesShape(lines: seq<string>, rest: string)
    requires lines != []
    ensures Unlines(lines) + rest == lines[0] + "\n" + (Unlines(lines[1..]) + rest)
  {
  }

  lemma ThenStep(lines: seq<string>, held: seq<string>, rest: string)
    requires lines != [] && ByteLen(lines[0]) < LINE_LIMIT
    ensures var line := DropCR(lines[0]);
            Then(Feed(lines, held), rest) == Emits(line, held) + Then(Feed(lines[1..], Holds(line, held)), rest)
  {
  }

  // -------------------------------------------------- one event

  /** What the event line, and whatever lines the type adds to it, leave. */
  function AfterType(kind: string): Reader {
    Feed(Lines("event: " + kind), [])
  }

  /** The data as the data line holds it. */
  function DataText(e: Event): string {
    DropCR(" " + e.data)
  }

  /** Some line of the printed event does not fit the scanner's buffer. */
  predicate Stops(e: Event) {
    AfterType(e.kind).stopped || ByteLen(DataLine(e)) >= LINE_LIMIT
  }

  /** What the client receives of a printed event. */
  function EventOut(e: Event): seq<string> {
    var r := AfterType(e.kind);
    r.out +
    if r.stopped then []
    else if ByteLen(DataLine(e)) >= LINE_LIMIT then Flush(r.held)
    else Flush(r.held + [DataText(e)])
  }

  lemma DataLineHolds(e: Event, held: seq<string>)
    ensures var line := DropCR(DataLine(e));
            Emits(line, held) == [] && Holds(line, held) == held + [DataText(e)]
  {
    var line, d := DropCR(DataLine(e)), " " + e.data;
    assert DataLine(e) == "data:" + d;
    if line != DataLine(e) {
      assert DataLine(e)[|DataLine(e)| - 1] == '\r';
    }
    assert line == "data:" + DropCR(d);
    assert line[5..] == DropCR(d);
  }

  /** The data line and the blank line after it. */
  lemma ParseDataAndBlank(e: Event, rest: string, held: seq<string>)
    requires OneLine(e.data)
    ensures Parse(DataLine(e) + "\n" + ("" + "\n" + rest), held) ==
            if ByteLen(DataLine(e)) >= LINE_LIMIT then Flush(held)
            else Flush(held + [DataText(e)]) + Parse(rest, [])
  {
    if ByteLen(DataLine(e)) >= LINE_LIMIT {
      ParseLongLine(DataLine(e), "" + "\n" + rest, held);
    } else {
      ParseLine(DataLine(e), "" + "\n" + rest, held);
      DataLineHolds(e, held);
      ParseLine("", rest, held + [DataText(e)]);
    }
  }

  /** Parsing a printed event gives what it delivers and goes on, unless a line was too long. */
  lemma ParsePrinted(e: Event, rest: string)
    requires OneLine(e.data)
    ensures Parse(Print(e) + rest, []) == EventOut(e) + if Stops(e) then [] else Parse(rest, [])
  {
    var afterEvent := DataLine(e) + "\n" + ("" + "\n" + rest);
    PrintShape(e, rest);
    LinesMeaning(EventLine(e));
    ParseFeed(Lines(EventLine(e)), afterEvent, []);
    ParseDataAndBlank(e, rest, AfterType(e.kind).held);
    AfterTypeThen(e, afterEvent, if ByteLen(DataLine(e)) >= LINE_LIMIT then [] else Parse(rest, []));
  }

  lemma PrintShape(e: Event, rest: string)
    ensures Print(e) + rest == EventLine(e) + "\n" + (DataLine(e) + "\n" + ("" + "\n" + rest))
  {
  }

  lemma AfterTypeThen(e: Event, afterEvent: string, after: seq<string>)
    requires ByteLen(DataLine(e)) >= LINE_LIMIT ==> after == []
    requires Parse(afterEvent, AfterType(e.kind).held) ==
             (if ByteLen(DataLine(e)) >= LINE_LIMIT then Flush(AfterType(e.kind).held)
              else Flush(AfterType(e.kind).held + [DataText(e)])) + after
    ensures Then(AfterType(e.kind), afterEvent) == EventOut(e) + if Stops(e) then [] else after
  {
  }

  // -------------------------------------------------- what an event delivers

  /** A text the client can receive. */
  predicate Proper(data: string) {
    Trimmed(data) && data != "" && data != "[DONE]"
  }

  ghost predicate AllProper(texts: seq<string>) {
    forall i :: 0 <= i < |texts| ==> Proper(texts[i])
  }

  lemma FlushIsProper(held: seq<string>)
    ensures AllProper(Flush(held)) && |Flush(held)| <= 1
  {
    TrimFixpoint(Join(held));
  }

  lemma {:induction false} FeedIsProper(lines: seq<string>, held: seq<string>)
    ensures AllProper(Feed(lines, held).out)
  {
    FlushIsProper(held);
    if lines != [] && ByteLen(lines[0]) < LINE_LIMIT {
      FeedIsProper(lines[1..], Holds(DropCR(lines[0]), held));
    }
  }

  lemma EventOutIsProper(e: Event)
    ensures AllProper(EventOut(e))
  {
    var r := AfterType(e.kind);
    FeedIsProper(Lines("event: " + e.kind), []);
    FlushIsProper(r.held);
    FlushIsProper(r.held + [DataText(e)]);
  }

  lemma {:induction false} JoinSnoc(lines: seq<string>, last: string)
    ensures Join(lines + [last]) == if lines == [] then last else Join(lines) + "\n" + last
  {
    if |lines| == 1 {
      assert (lines + [last])[1..] == [last];
    } else if lines != [] {
      JoinSnoc(lines[1..], last);
      assert (lines + [last])[1..] == lines[1..] + [last];
    }
  }

  /** Trimming in front of a text that starts with no space takes what is blank before it, and only that. */
  lemma {:induction false} TrimLeftBefore(blank: string, s: string)
    requires s != "" && !IsSpace(s[0])
    ensures TrimLeft(blank) == "" ==> TrimLeft(blank + s) == s
    ensures TrimLeft(blank) != "" ==> TrimLeft(blank + s) == TrimLeft(blank) + s
  {
    if blank == "" {
      assert blank + s == s;
    } else {
      assert (blank + s)[1..] == blank[1..] + s;
      if IsSpace(blank[0]) {
        TrimLeftBefore(blank[1..], s);
      }
    }
  }

  lemma {:induction false} TrimLeftOver(h: string, gap: string)
    requires forall c :: c in gap ==> IsSpace(c)
    ensures TrimLeft(h + gap) == "" <==> TrimLeft(h) == ""
    ensures TrimLeft(h) != "" ==> TrimLeft(h + gap) == TrimLeft(h) + gap
  {
    if h == "" {
      assert h + gap == gap;
      AllBlank(gap);
    } else {
      assert (h + gap)[1..] == h[1..] + gap;
      if IsSpace(h[0]) {
        TrimLeftOver(h[1..], gap);
      }
    }
  }

  lemma {:induction false} AllBlank(s: string)
    requires forall c :: c in s ==> IsSpace(c)
    ensures TrimLeft(s) == ""
  {
    if s != "" {
      AllBlank(s[1..]);
    }
  }

  /** A text trims to nothing exactly when trimming its front leaves nothing. */
  lemma BlankFront(s: string)
    ensures Trim(s) == "" <==> TrimLeft(s) == ""
  {
    TrimLeftStartsClean(s);
    TrimRightEndsClean(TrimLeft(s));
    if TrimLeft(s) != "" && Trim(s) == "" {
      TrimRightKeepsFirst(TrimLeft(s));
    }
  }

  lemma {:induction false} TrimRightKeepsFirst(s: string)
    requires s != "" && !IsSpace(s[0])
    ensures TrimRight(s) != ""
  {
    if IsSpace(s[|s| - 1]) {
      TrimRightKeepsFirst(s[..|s| - 1]);
    }
  }

  /** Data after held lines: alone if they are blank, otherwise behind a newline that stays. */
  lemma TrimBehind(h: string, data: string)
    requires Proper(data)
    ensures var joined := h + "\n" + (" " + data);
            if Trim(h) == "" then Trim(joined) == data else Trim(joined) != "" && '\n' in Trim(joined)
  {
    var gap := "\n" + " ";
    var joined := h + "\n" + (" " + data);
    assert joined == (h + gap) + data;
    BlankFront(h);
    TrimLeftOver(h, gap);
    TrimLeftBefore(h + gap, data);
    var left := TrimLeft(joined);
    assert left[|left| - 1] == data[|data| - 1];
    assert Trim(joined) == left;
    if TrimLeft(h) != "" {
      assert left[|TrimLeft(h)|] == '\n';
    }
  }

  /** A type whose own lines fit the buffer, emit nothing, and leave held only what joins to blank text. */
  predicate QuietType(kind: string) {
    var r := AfterType(kind);
    !r.stopped && r.out == [] && Trim(Join(r.held)) == ""
  }

  /** Held lines and proper data give one payload, the data itself exactly when the lines are blank. */
  lemma FlushOfData(held: seq<string>, e: Event)
    requires Proper(e.data) && OneLine(e.data)
    ensures |Flush(held + [DataText(e)])| == 1
    ensures Flush(held + [DataText(e)]) == [e.data] <==> Trim(Join(held)) == ""
  {
    DataTextOfProper(e);
    JoinSnoc(held, DataText(e));
    if held == [] {
      PayloadSpaced(e.data);
      assert Trim(Join(held)) == "";
    } else {
      PayloadBehind(Join(held), e.data);
    }
  }

  lemma DataTextOfProper(e: Event)
    requires Proper(e.data)
    ensures DataText(e) == " " + e.data
  {
  }

  lemma PayloadSpaced(data: string)
    requires Proper(data)
    ensures Payload(" " + data) == [data]
  {
    assert (" " + data)[1..] == data;
    assert TrimLeft(" " + data) == TrimLeft(data);
    TrimFixpoint(data);
  }

  lemma PayloadBehind(h: string, data: string)
    requires Proper(data) && OneLine(data)
    ensures var payload := Payload(h + "\n" + (" " + data));
            |payload| == 1 && (payload == [data] <==> Trim(h) == "")
  {
    TrimBehind(h, data);
    assert !('\n' in "[DONE]");
  }

  /** Proper data whose lines fit gives at least one payload, and exactly itself if and only if its type is quiet. */
  lemma EventOutMeaning(e: Event)
    requires Proper(e.data) && OneLine(e.data) && !Stops(e)
    ensures |EventOut(e)| >= 1
    ensures EventOut(e) == [e.data] <==> QuietType(e.kind)
  {
    FlushOfData(AfterType(e.kind).held, e);
  }

  // -------------------------------------------------- whole streams

  /** What the client receives of a list of events, up to the first line that is too long. */
  function Received(es: seq<Event>): seq<string> {
    if es == [] then [] else EventOut(es[0]) + if Stops(es[0]) then [] else Received(es[1..])
  }

  ghost predicate AllOneLine(es: seq<Event>) {
    forall i :: 0 <= i < |es| ==> OneLine(es[i].data)
  }

  ghost predicate AllFit(es: seq<Event>) {
    forall i :: 0 <= i < |es| ==> !Stops(es[i])
  }

  /** Parsing any printed list of events yields exactly what they deliver, and then the rest of the stream. */
  lemma {:induction false} ParseOfPrint(es: seq<Event>, rest: string)
    requires AllOneLine(es)
    ensures Parse(PrintAll(es) + rest, []) == Received(es) + if AllFit(es) then Parse(rest, []) else []
  {
    if es == [] {
      assert PrintAll(es) + rest == rest;
    } else {
      Associate(Print(es[0]), PrintAll(es[1..]), rest);
      ParsePrinted(es[0], PrintAll(es[1..]) + rest);
      ParseOfPrint(es[1..], rest);
      ReceivedSplits(es, Parse(rest, []));
    }
  }

  lemma ReceivedSplits(es: seq<Event>, after: seq<string>)
    requires es != []
    ensures Received(es) + (if AllFit(es) then after else []) ==
            EventOut(es[0]) + if Stops(es[0]) then [] else Received(es[1..]) + if AllFit(es[1..]) then after else []
  {
    FitSplits(es);
  }

  lemma FitSplits(es: seq<Event>)
    requires es != []
    ensures AllFit(es) <==> !Stops(es[0]) && AllFit(es[1..])
  {
    if !Stops(es[0]) && AllFit(es[1..]) {
      forall i | 0 <= i < |es| ensures !Stops(es[i]) {
        assert i > 0 ==> es[i] == es[1..][i - 1];
      }
    }
  }

  function Texts(es: seq<Event>): seq<string> {
    seq(|es|, i requires 0 <= i < |es| => es[i].data)
  }

  /** An event whose data comes back as it was, whatever follows. */
  predicate Survives(e: Event) {
    QuietType(e.kind) && ByteLen(DataLine(e)) < LINE_LIMIT && Proper(e.data)
  }

  ghost predicate AllSurvive(es: seq<Event>) {
    forall i :: 0 <= i < |es| ==> Survives(es[i])
  }

  lemma {:induction false} ReceivedIsProper(es: seq<Event>)
    ensures AllProper(Received(es))
  {
    if es != [] {
      EventOutIsProper(es[0]);
      ReceivedIsProper(es[1..]);
    }
  }

  lemma {:induction false} ReceivedIsLong(es: seq<Event>)
    requires AllOneLine(es) && AllFit(es) && AllProper(Texts(es))
    ensures |Received(es)| >= |es|
  {
    if es != [] {
      SplitTexts(es);
      EventOutMeaning(es[0]);
      ReceivedIsLong(es[1..]);
    }
  }

  lemma SplitTexts(es: seq<Event>)
    requires es != []
    ensures Texts(es) == [es[0].data] + Texts(es[1..])
    ensures AllProper(Texts(es)) ==> Proper(es[0].data) && AllProper(Texts(es[1..]))
  {
    if AllProper(Texts(es)) {
      assert Texts(es)[0] == es[0].data;
      assert forall i :: 0 <= i < |es| - 1 ==> Texts(es[1..])[i] == Texts(es)[i + 1];
    }
  }

  /**
   Where all lines fit, what is received is the texts exactly when every event survives: no event can make up
   for another.
   */
  lemma {:induction false} ReceivedAll(es: seq<Event>)
    requires AllOneLine(es) && AllFit(es)
    ensures Received(es) == Texts(es) <==> AllSurvive(es)
  {
    if es != [] {
      var first, rest := es[0], es[1..];
      ReceivedAll(rest);
      SplitTexts(es);
      if AllSurvive(es) {
        EventOutMeaning(first);
        assert AllSurvive(rest);
      } else if Received(es) == Texts(es) {
        FirstComesAlone(es);
        SurvivesSplits(es);
      }
    }
  }

  lemma FirstComesAlone(es: seq<Event>)
    requires es != [] && AllOneLine(es) && AllFit(es) && Received(es) == Texts(es)
    ensures Survives(es[0]) && Received(es[1..]) == Texts(es[1..])
  {
    SplitTexts(es);
    ReceivedIsProper(es);
    EventOutMeaning(es[0]);
    ReceivedIsLong(es[1..]);
    SameSplit(EventOut(es[0]), Received(es[1..]), es[0].data, Texts(es[1..]));
  }

  lemma SameSplit(a: seq<string>, b: seq<string>, first: string, rest: seq<string>)
    requires a + b == [first] + rest && |a| >= 1 && |b| >= |rest|
    ensures a == [first] && b == rest
  {
    assert |a + b| == 1 + |rest|;
    assert (a + b)[0] == first && (a + b)[1..] == b && ([first] + rest)[1..] == rest;
  }

  lemma SurvivesSplits(es: seq<Event>)
    requires es != []
    ensures AllSurvive(es) <==> Survives(es[0]) && AllSurvive(es[1..])
  {
    if Survives(es[0]) && AllSurvive(es[1..]) {
      forall i | 0 <= i < |es| ensures Survives(es[i]) {
        assert i > 0 ==> es[i] == es[1..][i - 1];
      }
    }
  }

  /**
   A complete stream whose lines fit is read back as the JSON texts, in order, if and only if every event
   survives.
   */
  lemma StreamRoundTrips(es: seq<Event>)
    requires AllOneLine(es) && AllFit(es)
    ensures Parse(PrintAll(es), []) == Texts(es) <==> AllSurvive(es)
  {
    ParseOfPrint(es, "");
    assert PrintAll(es) + "" == PrintAll(es);
    ReceivedAll(es);
  }

  /** The events come back as they were and leave whatever follows them untouched. */
  ghost predicate Transparent(es: seq<Event>) {
    forall rest: string {:trigger Followed(es, rest)} :: Followed(es, rest) == Texts(es) + Parse(rest, [])
  }

  /** What the client receives of the events and whatever follows them. */
  function Followed(es: seq<Event>, rest: string): seq<string> {
    Parse(PrintAll(es) + rest, [])
  }

  /** Without any bound on the lines: events are transparent to the stream if and only if every one survives. */
  lemma TransparentIffAllSurvive(es: seq<Event>)
    requires AllOneLine(es)
    ensures Transparent(es) <==> AllSurvive(es)
  {
    if AllSurvive(es) {
      SurvivorsAreTransparent(es);
    }
    if Transparent(es) {
      SimpleEventSurvives();
      TransparentMeansSurvival(es, Event("a", "{}"));
    }
  }

  lemma SurvivorsAreTransparent(es: seq<Event>)
    requires AllOneLine(es) && AllSurvive(es)
    ensures Transparent(es)
  {
    assert AllFit(es);
    ReceivedAll(es);
    forall rest: string ensures Followed(es, rest) == Texts(es) + Parse(rest, []) {
      ParseOfPrint(es, rest);
    }
  }

  /** With a probe behind them, transparent events cannot have stopped the reader. */
  lemma TransparentMeansSurvival(es: seq<Event>, probe: Event)
    requires AllOneLine(es) && Transparent(es) && OneLine(probe.data) && Survives(probe)
    ensures AllSurvive(es)
  {
    ParseNothing();
    ReceivedBefore(es, "", []);
    ProbeIsRead(probe);
    ReceivedBefore(es, Print(probe) + "", [probe.data]);
    NothingMissing(Received(es), Texts(es), AllFit(es), probe.data);
    ReceivedAlone(es);
  }

  lemma ReceivedBefore(es: seq<Event>, rest: string, payloads: seq<string>)
    requires AllOneLine(es) && Transparent(es) && Parse(rest, []) == payloads
    ensures Received(es) + (if AllFit(es) then payloads else []) == Texts(es) + payloads
  {
    ParseOfPrint(es, rest);
    assert Followed(es, rest) == Texts(es) + payloads;
  }

  lemma ParseNothing()
    ensures Parse("", []) == []
  {
    ParseEnd("", []);
  }

  lemma ProbeIsRead(probe: Event)
    requires OneLine(probe.data) && Survives(probe)
    ensures Parse(Print(probe) + "", []) == [probe.data]
  {
    ParsePrinted(probe, "");
    EventOutMeaning(probe);
    ParseNothing();
  }

  lemma NothingMissing(a: seq<string>, b: seq<string>, fit: bool, last: string)
    requires a + (if fit then [] else []) == b + []
    requires a + (if fit then [last] else []) == b + [last]
    ensures fit && a == b
  {
    assert |a| == |b|;
    assert a + [] == a && b + [] == b;
  }

  lemma ReceivedAlone(es: seq<Event>)
    requires AllOneLine(es) && AllFit(es) && Received(es) == Texts(es)
    ensures AllSurvive(es)
  {
    ReceivedAll(es);
  }

  lemma SimpleEventSurvives()
    ensures Survives(Event("a", "{}")) && OneLine("{}")
  {
    ShortEventsSurvive(Event("a", "{}"));
  }

  lemma ShortEventsSurvive(e: Event)
    requires OneLine(e.kind) && |e.kind| < 50 && JsonObjectLine(e.data) && |e.data| < 50
    ensures Survives(e)
  {
    ByteLenBound("event: " + e.kind);
    ByteLenBound(DataLine(e));
    OneLineTypesAreQuiet(e.kind);
    JsonIsProper(e.data);
  }

  /** No line is a data line. */
  ghost predicate NoDataLine(lines: seq<string>) {
    forall i :: 0 <= i < |lines| ==> !HasPrefix(lines[i], "data:")
  }

  lemma {:induction false} FeedWithoutData(lines: seq<string>)
    requires NoDataLine(lines)
    ensures Feed(lines, []).out == [] && Feed(lines, []).held == []
    ensures Feed(lines, []).stopped <==> !LinesFit(lines)
  {
    if lines != [] {
      DropCRPrefix(lines[0], "data:");
      FeedWithoutData(lines[1..]);
      LinesFitSplits(lines);
    }
  }

  /** Every line fits the scanner's buffer. */
  ghost predicate LinesFit(lines: seq<string>) {
    forall i :: 0 <= i < |lines| ==> ByteLen(lines[i]) < LINE_LIMIT
  }

  lemma LinesFitSplits(lines: seq<string>)
    requires lines != []
    ensures LinesFit(lines) <==> ByteLen(lines[0]) < LINE_LIMIT && LinesFit(lines[1..])
  {
    if ByteLen(lines[0]) < LINE_LIMIT && LinesFit(lines[1..]) {
      forall i | 0 <= i < |lines| ensures ByteLen(lines[i]) < LINE_LIMIT {
        assert i > 0 ==> lines[i] == lines[1..][i - 1];
      }
    }
  }

  lemma DropCRPrefix(line: string, p: string)
    ensures HasPrefix(DropCR(line), p) ==> HasPrefix(line, p)
  {
  }

  /** A type of any number of lines, none of them a data line, is quiet if and only if its lines fit. */
  lemma TypesWithoutDataLinesAreQuiet(kind: string)
    requires NoDataLine(Lines("event: " + kind))
    ensures QuietType(kind) <==> LinesFit(Lines("event: " + kind))
  {
    FeedWithoutData(Lines("event: " + kind));
  }

  /** So is a type on one line. */
  lemma OneLineTypesAreQuiet(kind: string)
    requires OneLine(kind)
    ensures QuietType(kind) <==> ByteLen("event: " + kind) < LINE_LIMIT
  {
    var line := "event: " + kind;
    assert line[0] == 'e';
    OneLineAlone(line);
    assert Lines(line)[0] == line;
    TypesWithoutDataLinesAreQuiet(kind);
  }

  /** The text of a JSON object on one line. */
  predicate JsonObjectLine(s: string) {
    |s| >= 2 && s[0] == '{' && s[|s| - 1] == '}' && OneLine(s)
  }

  lemma JsonIsProper(s: string)
    requires JsonObjectLine(s)
    ensures Proper(s)
  {
    assert "[DONE]"[0] == '[';
  }

  /** Events with JSON object envelopes, within the line limit, all come back if and only if their types are quiet. */
  lemma JsonEventsRoundTrip(es: seq<Event>)
    requires AllFit(es) && forall i :: 0 <= i < |es| ==> JsonObjectLine(es[i].data)
    ensures Parse(PrintAll(es), []) == Texts(es) <==> forall i :: 0 <= i < |es| ==> QuietType(es[i].kind)
  {
    StreamRoundTrips(es);
    forall i | 0 <= i < |es| ensures Proper(es[i].data) {
      JsonIsProper(es[i].data);
    }
  }

  lemma {:induction false} ByteLenBound(s: string)
    ensures ByteLen(s) <= 4 * |s|
  {
    if s != "" {
      ByteLenBound(s[1..]);
    }
  }

  lemma ParseShortLine(line: string, rest: string, held: seq<string>)
    requires OneLine(line) && |line| < 100
    ensures Parse(line + "\n" + rest, held) == Emits(DropCR(line), held) + Parse(rest, Holds(DropCR(line), held))
  {
    ByteLenBound(line);
    ParseLine(line, rest, held);
  }

  /** The printed data line of an empty object and the blank line after it. */
  const OBJECT_AND_BLANK: string := "data: {}" + "\n" + ("" + "\n" + "")

  lemma ParseObjectAndBlank(held: seq<string>)
    ensures Parse(OBJECT_AND_BLANK, held) == Flush(held + [" {}"])
  {
    ParseShortLine("data: {}", "" + "\n" + "", held);
    assert DropCR("data: {}") == "data: {}" && "data: {}"[5..] == " {}";
    ParseShortLine("", "", held + [" {}"]);
  }

  lemma ParseInjected(smuggled: string, rest: string)
    requires OneLine(smuggled) && 0 < |smuggled| < 50 && Trimmed(smuggled)
    ensures Parse("data:" + smuggled + "\n" + rest, []) == Parse(rest, [smuggled])
  {
    var injected := "data:" + smuggled;
    ParseShortLine(injected, rest, []);
    assert DropCR(injected) == injected && injected[5..] == smuggled;
    assert [] + [smuggled] == [smuggled];
  }

  lemma ParseAfterType(rest: string)
    ensures Parse("event: a" + "\n" + rest, []) == Parse(rest, [])
  {
    ParseShortLine("event: a", rest, []);
    assert DropCR("event: a") == "event: a" && !HasPrefix("event: a", "data:") by {
      assert "event: a"[0] == 'e';
    }
  }

  /** A newline in the type can smuggle in a data line: the payload is then no longer the JSON text. */
  lemma NewlineInTypeBreaksTheStream(smuggled: string)
    requires OneLine(smuggled) && 0 < |smuggled| < 50 && Trimmed(smuggled)
    ensures Parse(Print(Event("a\ndata:" + smuggled, "{}")), []) == [smuggled + "\n" + " {}"]
  {
    ParseAfterType("data:" + smuggled + "\n" + OBJECT_AND_BLANK);
    ParseInjected(smuggled, OBJECT_AND_BLANK);
    ParseObjectAndBlank([smuggled]);
    SmuggledPayload(smuggled);
    assert [smuggled] + [" {}"] == [smuggled, " {}"];
    InjectedShape(smuggled);
  }

  lemma InjectedShape(smuggled: string)
    ensures Print(Event("a\ndata:" + smuggled, "{}")) == "event: a" + "\n"
                                                         + ("data:" + smuggled + "\n" + OBJECT_AND_BLANK)
  {
  }

  lemma SmuggledPayload(smuggled: string)
    requires OneLine(smuggled) && smuggled != "" && Trimmed(smuggled)
    ensures Flush([smuggled, " {}"]) == [smuggled + "\n" + " {}"]
  {
    var joined := smuggled + "\n" + " {}";
    assert [smuggled, " {}"][1..] == [" {}"];
    assert Join([" {}"]) == " {}";
    assert joined[0] == smuggled[0] && joined[|joined| - 1] == '}';
    TrimFixpoint(joined);
    assert joined[|smuggled|] == '\n';
  }
}
