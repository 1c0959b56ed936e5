/** What each kind of line does to the event decoder, and what it makes of a text that stops in the middle. */
module SseLines {
  import opened Foundations
  import opened Sse
  import opened SseRoundTrip

  /** A line without its end. */
  predicate Bare(line: string) {
    '\n' !in line && (line != [] ==> line[|line| - 1] != '\r')
  }

  /** One line pushed between frames' lines. */
  function PushLine(p: Pending, line: string): Result {
    Push(State("", p), line + "\n")
  }

  lemma AnyLine(p: Pending, line: string)
    requires '\n' !in line
    ensures PushLine(p, line) == var step := TakeLine(p, line + "\n"); Result(State("", step.pending), step.out)
  {
    DrainLine(p, line, "");
    assert line + "\n" + "" == line + "\n" == "" + (line + "\n");
    var step := TakeLine(p, line + "\n");
    assert step.out + [] == step.out;
    assert Drain(step.pending, "") == Result(State("", step.pending), []);
  }

  lemma OneLine(p: Pending, line: string)
    requires Bare(line)
    ensures PushLine(p, line) == var step := TakeLine(p, line); Result(State("", step.pending), step.out)
    ensures StripLineEnd(line) == line
  {
    AnyLine(p, line);
    StripPlain(line);
  }

  /** A blank line ends the pending frame: its event, and its data lines joined by line feeds. Between frames it does
      nothing. */
  lemma {:induction false} BlankLine(p: Pending)
    ensures PushLine(p, "") == if p == NONE_PENDING then Result(FRESH, [])
                               else Result(FRESH, [SseFrame(p.event, Join(p.data))])
  {
    OneLine(p, "");
  }

  /** A data line adds what follows the colon, less one space if there is one. */
  lemma {:induction false} DataLine(p: Pending, raw: string)
    requires Bare(raw)
    ensures PushLine(p, "data:" + raw) ==
              Result(State("", p.(data := p.data + [if raw != [] && raw[0] == ' ' then raw[1..] else raw])), [])
  {
    var line := "data:" + raw;
    LastOf("data:", raw);
    OneLine(p, line);
    assert line[|DATA|..] == raw && DATA <= line;
    assert line[0] == 'd';
  }

  /** An event line names the event, trimmed; a later one replaces it. */
  lemma {:induction false} EventLine(p: Pending, e: string)
    requires Bare(e)
    ensures PushLine(p, "event:" + e) == Result(State("", p.(event := Some(Trim(e)))), [])
  {
    var line := "event:" + e;
    LastOf("event:", e);
    OneLine(p, line);
    assert line[|EVENT|..] == e && EVENT <= line;
  }

  /** Comments, identifiers, retry hints and every other kind of line change nothing. */
  lemma {:induction false} IgnoredLine(p: Pending, line: string)
    requires Bare(line) && line != [] && !("event:" <= line) && !("data:" <= line)
    ensures PushLine(p, line) == Result(State("", p), [])
  {
    OneLine(p, line);
  }

  /** A carriage return before the line feed makes no difference. */
  lemma {:induction false} CarriageReturn(p: Pending, line: string)
    requires '\n' !in line
    ensures PushLine(p, line + "\r") == PushLine(p, line)
  {
    AnyLine(p, line);
    AnyLine(p, line + "\r");
    assert (line + "\n")[..|line|] == line;
    assert (line + "\r" + "\n")[..|line| + 1] == line + "\r" && (line + "\r")[..|line|] == line;
    assert StripLineEnd(line + "\r" + "\n") == StripLineEnd(line + "\r") == StripLineEnd(line);
  }

  // ----- trimming -----

  ghost predicate AllWhite(s: string) {
    forall i :: 0 <= i < |s| ==> IsWhite(s[i])
  }

  lemma {:induction false} TrimStartCuts(s: string) returns (front: string)
    ensures s == front + TrimStart(s) && AllWhite(front)
    ensures TrimStart(s) != [] ==> !IsWhite(TrimStart(s)[0])
  {
    front := [];
    if s != [] && IsWhite(s[0]) {
      front := TrimStartCuts(s[1..]);
      assert s == [s[0]] + s[1..] == ([s[0]] + front) + TrimStart(s);
      front := [s[0]] + front;
    }
  }

  lemma {:induction false} TrimEndCuts(s: string)
    ensures TrimEnd(s) <= s && AllWhite(s[|TrimEnd(s)|..])
  {
    TrimEndLast(s);
    if s != [] && IsWhite(s[|s| - 1]) {
      var init := s[..|s| - 1];
      TrimEndCuts(init);
      TrimEndLast(init);
      assert s[|TrimEnd(init)|..] == init[|TrimEnd(init)|..] + [s[|s| - 1]];
    }
  }

  /** Trimming takes white space off both ends, all of it and nothing else. */
  lemma {:induction false} TrimCuts(s: string) returns (front: string, back: string)
    ensures s == front + Trim(s) + back && AllWhite(front) && AllWhite(back)
    ensures Trim(s) != [] ==> !IsWhite(Trim(s)[0]) && !IsWhite(Trim(s)[|Trim(s)| - 1])
    ensures IsWhite(' ') && IsWhite('\t') && IsWhite('\r') && IsWhite('\n')
    ensures forall c :: '!' <= c <= '~' ==> !IsWhite(c)
  {
    front := TrimStartCuts(s);
    TrimEndCuts(TrimStart(s));
    TrimEndLast(TrimStart(s));
    back := TrimStart(s)[|Trim(s)|..];
    assert TrimStart(s) == Trim(s) + back;
    assert front + (Trim(s) + back) == front + Trim(s) + back;
  }

  // ----- the end of the stream -----

  /** A stream that ends in the middle hands out the pending frame if there is one. Otherwise its unfinished line is a
      frame without an event: what follows "data:", or else all of it, trimmed; blank text is no frame. */
  lemma {:induction false} FinishCases(s: State)
    ensures s.pending != NONE_PENDING ==>
              FinishState(s) == Result(State(s.buf, NONE_PENDING), [SseFrame(s.pending.event, Join(s.pending.data))])
    ensures s.pending == NONE_PENDING && AllWhite(s.buf) ==> FinishState(s) == Result(FRESH, [])
  {
    TrimmedHasNoLineEnd(s.buf);
    if AllWhite(s.buf) {
      WhiteTrimsAway(s.buf);
    }
  }

  lemma {:induction false} WhiteTrimsAway(s: string)
    requires AllWhite(s)
    ensures Trim(s) == ""
  {
    if s != [] {
      WhiteTrimsAway(s[1..]);
    }
  }

  /** The unfinished line, when no frame is pending. `text` is what is left of it after trimming. */
  lemma {:induction false} FinishUnfinished(buf: string, text: string)
    requires Trim(buf) == text && text != []
    ensures FinishState(State(buf, NONE_PENDING)) ==
              Result(FRESH, [SseFrame(None, if "data:" <= text then Trim(text[5..]) else text)])
  {
    TrimmedHasNoLineEnd(buf);
    assert StripLineEnd(text) == text;
  }
}
