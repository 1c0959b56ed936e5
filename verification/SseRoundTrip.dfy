/** Which frames can be written as server-sent events and read back: exactly those a decoder can produce. */
module SseRoundTrip {
  import opened Foundations
  import opened Sse

  // ----- printing -----

  /** The lines of a text; an empty text is one empty line. */
  function Lines(s: string): (lines: seq<string>)
    ensures |lines| > 0
    decreases |s|
  {
    var n := Newline(s);
    if n == |s| then [s] else [s[..n]] + Lines(s[n + 1..])
  }

  function PrintLine(line: string): string {
    DATA + " " + line + "\n"
  }

  function PrintData(lines: seq<string>): string {
    if lines == [] then "" else PrintLine(lines[0]) + PrintData(lines[1..])
  }

  function PrintEvent(event: Option<string>): string {
    if event.Some? then EVENT + " " + event.value + "\n" else ""
  }

  function Print(f: SseFrame): string {
    PrintEvent(f.event) + PrintData(Lines(f.data)) + "\n"
  }

  function PrintAll(frames: seq<SseFrame>): string {
    if frames == [] then "" else Print(frames[0]) + PrintAll(frames[1..])
  }

  /** A line of data as the decoder can deliver it. */
  predicate PlainLine(line: string) {
    '\n' !in line && (line != [] ==> line[|line| - 1] != '\r')
  }

  predicate PlainEvent(event: Option<string>) {
    event.Some? ==> '\n' !in event.value && Trim(event.value) == event.value
  }

  predicate PlainLines(lines: seq<string>) {
    forall i :: 0 <= i < |lines| ==> PlainLine(lines[i])
  }

  /** The event is trimmed and on one line, and no line of data ends in a carriage return. */
  predicate Printable(f: SseFrame) {
    PlainEvent(f.event) && PlainLines(Lines(f.data))
  }

  // ----- reading one line -----

  lemma DrainLine(p: Pending, line: string, rest: string)
    requires '\n' !in line
    ensures var step := TakeLine(p, line + "\n");
            Drain(p, line + "\n" + rest) == After(step.out, Drain(step.pending, rest))
  {
    var text := line + "\n" + rest;
    NewlineAt(line);
    NewlineConcat(line + "\n", rest);
    assert text[..|line| + 1] == line + "\n" && text[|line| + 1..] == rest;
  }

  lemma StripPlain(line: string)
    requires line == [] || !IsLineEnd(line[|line| - 1])
    ensures StripLineEnd(line + "\n") == line
  {
    assert (line + "\n")[..|line|] == line;
  }

  lemma {:induction false} TrimPadded(e: string)
    ensures Trim(" " + e) == Trim(e)
  {
    assert (" " + e)[1..] == e;
  }

  lemma ReadEvent(p: Pending, e: string, rest: string)
    requires '\n' !in e && Trim(e) == e
    ensures Drain(p, PrintEvent(Some(e)) + rest) == Drain(p.(event := Some(e)), rest)
  {
    DrainLine(p, EVENT + " " + e, rest);
    TakeEventLine(p, e);
    AfterNothing(Drain(p.(event := Some(e)), rest));
  }

  lemma TakeDataLine(p: Pending, line: string)
    requires PlainLine(line)
    ensures TakeLine(p, DATA + " " + line + "\n") == Step(p.(data := p.data + [line]), [])
  {
    var whole := DATA + " " + line;
    LastOf(DATA + " ", line);
    StripPlain(whole);
    assert whole[|DATA|..] == " " + line && (" " + line)[1..] == line;
    assert !(EVENT <= whole) by {
      assert whole[0] == 'd';
    }
  }

  lemma TakeEventLine(p: Pending, e: string)
    requires '\n' !in e && Trim(e) == e
    ensures TakeLine(p, EVENT + " " + e + "\n") == Step(p.(event := Some(e)), [])
  {
    var line := EVENT + " " + e;
    TrimmedHasNoLineEnd(e);
    LastOf(EVENT + " ", e);
    StripPlain(line);
    assert line[|EVENT|..] == " " + e;
    TrimPadded(e);
  }

  lemma ReadDataLine(p: Pending, line: string, rest: string)
    requires PlainLine(line)
    ensures Drain(p, PrintLine(line) + rest) == Drain(p.(data := p.data + [line]), rest)
  {
    DrainLine(p, DATA + " " + line, rest);
    TakeDataLine(p, line);
    AfterNothing(Drain(p.(data := p.data + [line]), rest));
  }

  lemma LastOf(a: string, b: string)
    requires a != []
    ensures (a + b)[|a + b| - 1] == if b == [] then a[|a| - 1] else b[|b| - 1]
  {}

  lemma ReadFirstLine(p: Pending, lines: seq<string>, rest: string)
    requires lines != [] && PlainLine(lines[0])
    ensures Drain(p, PrintData(lines) + rest)
            == Drain(p.(data := p.data + [lines[0]]), PrintData(lines[1..]) + rest)
  {
    Regroup(PrintLine(lines[0]), PrintData(lines[1..]), rest);
    ReadDataLine(p, lines[0], PrintData(lines[1..]) + rest);
  }

  lemma {:induction false} ReadData(p: Pending, lines: seq<string>, rest: string)
    requires PlainLines(lines)
    ensures Drain(p, PrintData(lines) + rest) == Drain(p.(data := p.data + lines), rest)
    decreases |lines|
  {
    if lines == [] {
      assert PrintData(lines) + rest == rest && p.data + lines == p.data;
    } else {
      var q := p.(data := p.data + [lines[0]]);
      assert q.(data := q.data + lines[1..]) == p.(data := p.data + lines) by {
        assert p.data + [lines[0]] + lines[1..] == p.data + lines;
      }
      ReadFirstLine(p, lines, rest);
      ReadData(q, lines[1..], rest);
    }
  }

  lemma Regroup(a: string, b: string, c: string)
    ensures (a + b) + c == a + (b + c)
  {}

  lemma {:induction false} JoinLines(s: string)
    ensures Join(Lines(s)) == s
    decreases |s|
  {
    var n := Newline(s);
    if n < |s| {
      JoinLines(s[n + 1..]);
      assert Lines(s)[1..] == Lines(s[n + 1..]);
      assert s == s[..n] + "\n" + s[n + 1..];
    }
  }

  lemma ReadHeader(event: Option<string>, rest: string)
    requires PlainEvent(event)
    ensures Drain(NONE_PENDING, PrintEvent(event) + rest) == Drain(Pending(event, []), rest)
  {
    if event.Some? {
      ReadEvent(NONE_PENDING, event.value, rest);
    } else {
      assert PrintEvent(event) + rest == rest;
    }
  }

  lemma ReadBlank(p: Pending, rest: string)
    requires IsPending(p)
    ensures Drain(p, "\n" + rest) == After([Frame(p)], Drain(NONE_PENDING, rest))
  {
    DrainLine(p, "", rest);
    assert "" + "\n" == "\n";
    StripPlain("");
  }

  /** A printed frame is read back, and reading goes on with what follows it. */
  lemma ReadFrame(f: SseFrame, rest: string)
    requires Printable(f)
    ensures Drain(NONE_PENDING, Print(f) + rest) == After([f], Drain(NONE_PENDING, rest))
  {
    var lines := Lines(f.data);
    var event, data, tail := PrintEvent(f.event), PrintData(lines), "\n" + rest;
    assert Print(f) + rest == event + (data + tail) by {
      Regroup(event + data, "\n", rest);
      Regroup(event, data, tail);
    }
    ReadHeader(f.event, data + tail);
    ReadData(Pending(f.event, []), lines, tail);
    assert [] + lines == lines;
    ReadBlank(Pending(f.event, lines), rest);
    JoinLines(f.data);
  }

  lemma {:induction false} ReadAll(frames: seq<SseFrame>)
    requires forall i :: 0 <= i < |frames| ==> Printable(frames[i])
    ensures Drain(NONE_PENDING, PrintAll(frames)) == Result(FRESH, frames)
  {
    if frames != [] {
      ReadFrame(frames[0], PrintAll(frames[1..]));
      ReadAll(frames[1..]);
      assert [frames[0]] + frames[1..] == frames;
    }
  }

  // ----- what the decoder can produce -----

  ghost predicate PlainPending(p: Pending) {
    PlainEvent(p.event) && PlainLines(p.data)
  }

  lemma {:induction false} TrimStartFacts(s: string)
    ensures |TrimStart(s)| <= |s| && TrimStart(s) == s[|s| - |TrimStart(s)|..]
    ensures TrimStart(s) != [] ==> !IsWhite(TrimStart(s)[0])
  {
    if s != [] && IsWhite(s[0]) {
      TrimStartFacts(s[1..]);
    }
  }

  lemma TrimFacts(s: string)
    ensures Trim(Trim(s)) == Trim(s)
    ensures forall c :: c in Trim(s) ==> c in s
  {
    var t := TrimStart(s);
    TrimStartFacts(s);
    TrimEndLast(t);
    assert Trim(s) <= t;
    if Trim(s) != [] {
      assert Trim(s)[0] == t[0];
    }
    assert TrimStart(Trim(s)) == Trim(s);
  }

  lemma {:induction false} StripFacts(s: string)
    ensures StripLineEnd(s) <= s
    ensures StripLineEnd(s) != [] ==> !IsLineEnd(StripLineEnd(s)[|StripLineEnd(s)| - 1])
  {
    if s != [] && IsLineEnd(s[|s| - 1]) {
      StripFacts(s[..|s| - 1]);
    }
  }

  lemma StrippedLineIsPlain(line: string)
    requires '\n' !in line
    ensures PlainLine(StripLineEnd(line + "\n"))
  {
    assert (line + "\n")[..|line|] == line;
    StripFacts(line);
  }

  lemma FieldIsPlain(p: Pending, line: string)
    requires PlainPending(p) && PlainLine(line)
    ensures PlainPending(Field(p, line))
  {
    if EVENT <= line {
      TrimFacts(line[|EVENT|..]);
    } else if DATA <= line {
      var v := line[|DATA|..];
      assert v != [] ==> v[|v| - 1] == line[|line| - 1];
      assert PlainLine(v) && (v != [] ==> PlainLine(v[1..]));
    }
  }

  lemma {:induction false} LinesJoin(lines: seq<string>)
    requires lines != [] && PlainLines(lines)
    ensures Lines(Join(lines)) == lines
  {
    if |lines| == 1 {
      NewlineNone(lines[0]);
    } else {
      var head, tail := lines[0], Join(lines[1..]);
      LinesJoin(lines[1..]);
      var s := head + "\n" + tail;
      NewlineAt(head);
      NewlineConcat(head + "\n", tail);
      assert s[..|head|] == head && s[|head| + 1..] == tail;
      assert [head] + lines[1..] == lines;
    }
  }

  lemma FrameIsPrintable(p: Pending)
    requires PlainPending(p)
    ensures Printable(Frame(p))
  {
    if p.data != [] {
      LinesJoin(p.data);
    }
  }

  /** Every frame that the decoder hands out is printable. */
  lemma {:induction false} DecodedArePrintable(p: Pending, text: string)
    requires PlainPending(p)
    ensures forall f :: f in Drain(p, text).out ==> Printable(f)
    decreases |text|
  {
    var n := Newline(text);
    if n < |text| {
      assert text[..n + 1] == text[..n] + "\n";
      StrippedLineIsPlain(text[..n]);
      var line := StripLineEnd(text[..n + 1]);
      if line == [] {
        FrameIsPrintable(p);
      } else {
        FieldIsPlain(p, line);
      }
      DecodedArePrintable(TakeLine(p, text[..n + 1]).pending, text[n + 1..]);
    }
  }

  /** Round trip, and exactly when it holds: a list of frames, printed and decoded under any chunking, comes
      back if and only if every frame of it is printable; and printable frames leave nothing behind. */
  lemma {:induction false} SseRoundTripIff(frames: seq<SseFrame>, chunks: seq<string>)
    requires Flatten(chunks) == PrintAll(frames)
    ensures PushAll(FRESH, chunks).out == frames <==> forall i :: 0 <= i < |frames| ==> Printable(frames[i])
    ensures (forall i :: 0 <= i < |frames| ==> Printable(frames[i])) ==> PushAll(FRESH, chunks).state == FRESH
  {
    SseChunkInvariance(FRESH, chunks);
    assert "" + PrintAll(frames) == PrintAll(frames);
    DecodedArePrintable(NONE_PENDING, PrintAll(frames));
    if forall i :: 0 <= i < |frames| ==> Printable(frames[i]) {
      ReadAll(frames);
    }
  }
}
