/**
 The two ends of the event stream, spelled out: the bytes the printer puts on
 the wire, and what the parser does with each kind of line.
 */
module EventStreamLaws {
  import opened Prelude
  import opened Text
  import opened EventStream

  /** An event is three lines: its type, its data and an empty one. */
  lemma EventsAreThreeLines(e: Event)
    ensures Print(e) == "event: " + e.kind + "\n" + "data: " + e.data + "\n\n"
  {
    assert "\n\n" == "\n" + "\n";
  }

  /** Events follow one another directly. */
  lemma {:induction false} EventsFollow(es: seq<Event>, more: seq<Event>)
    ensures PrintAll([]) == "" && PrintAll(es + more) == PrintAll(es) + PrintAll(more)
  {
    if es == [] {
      assert es + more == more;
    } else {
      EventsFollow(es[1..], more);
      assert (es + more)[1..] == es[1..] + more;
      Associate(Print(es[0]), PrintAll(es[1..]), PrintAll(more));
    }
  }

  /** The bytes a line may have, its newline aside: fewer than 1048576. */
  predicate Fits(line: string) {
    ByteLen(line) < 1048576
  }

  /** A data line is held, without its field name and without a carriage return at its end. */
  lemma DataLinesAreHeld(text: string, rest: string, held: seq<string>)
    requires OneLine(text) && Fits("data:" + text)
    requires text == "" || text[|text| - 1] != '\r'
    ensures Parse("data:" + text + "\n" + rest, held) == Parse(rest, held + [text])
  {
    var line := "data:" + text;
    ParseLine(line, rest, held);
    assert DropCR(line) == line && line[5..] == text;
  }

  /** So is one that ends in a carriage return. */
  lemma CarriageReturnsAreDropped(line: string, rest: string, held: seq<string>)
    requires OneLine(line) && Fits(line + "\r") && (line == "" || line[|line| - 1] != '\r')
    ensures Parse(line + "\r" + "\n" + rest, held) == Emits(line, held) + Parse(rest, Holds(line, held))
  {
    ParseLine(line + "\r", rest, held);
    assert (line + "\r")[..|line|] == line;
  }

  /**
   An empty line sends on what is held, the lines joined by newlines and trimmed, unless that is empty or the
   end mark.
   */
  lemma EmptyLinesSend(rest: string, held: seq<string>)
    ensures Parse("\n" + rest, held) == Sent(held) + Parse(rest, [])
  {
    ParseLine("", rest, held);
    assert "" + "\n" + rest == "\n" + rest;
    SentIsFlush(held);
  }

  /** What sending the held lines sends. */
  function Sent(held: seq<string>): seq<string> {
    var text := Trim(Joined(held));
    if text == "" || text == "[DONE]" then [] else [text]
  }

  /** Lines with a newline between each and the next. */
  function Joined(lines: seq<string>): string {
    if lines == [] then ""
    else if |lines| == 1 then lines[0]
    else Joined(lines[..|lines| - 1]) + "\n" + lines[|lines| - 1]
  }

  lemma {:induction false} JoinedIsJoin(lines: seq<string>)
    ensures Join(lines) == Joined(lines)
  {
    if |lines| > 1 {
      var n := |lines| - 1;
      JoinedIsJoin(lines[..n]);
      JoinSnoc(lines[..n], lines[n]);
      assert lines == lines[..n] + [lines[n]];
    }
  }

  lemma SentIsFlush(held: seq<string>)
    ensures Flush(held) == Sent(held)
  {
    JoinedIsJoin(held);
    if held == [] {
      assert Trim("") == "";
    }
  }

  /** A line of any other field is passed over. */
  lemma OtherLinesAreIgnored(line: string, rest: string, held: seq<string>)
    requires OneLine(line) && Fits(line) && DropCR(line) != "" && !HasPrefix(DropCR(line), "data:")
    ensures Parse(line + "\n" + rest, held) == Parse(rest, held)
  {
    ParseLine(line, rest, held);
  }

  /** The end of the stream sends on what is held. */
  lemma TheEndSends(held: seq<string>)
    ensures Parse("", held) == Sent(held)
  {
    ParseEnd("", held);
    SentIsFlush(held);
  }

  /** A line that does not fit ends the stream there. */
  lemma LongLinesEndTheStream(line: string, rest: string, held: seq<string>)
    requires OneLine(line) && !Fits(line)
    ensures Parse(line + "\n" + rest, held) == Sent(held)
  {
    ParseLongLine(line, rest, held);
    SentIsFlush(held);
  }

  /** A last line without a newline counts as a line. */
  lemma LastLinesCount(line: string, held: seq<string>)
    requires OneLine(line) && line != "" && Fits(line)
    ensures Parse(line, held) == Parse(line + "\n" + "", held)
  {
    ParseLine(line, "", held);
    assert NewlineAt(line) == |line| && line[..|line|] == line;
    ParseStep(line, held);
  }
}
