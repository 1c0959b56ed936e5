/** Incremental decoding of server-sent events (crates/tailfin-wire/src/lib.rs), on text that has already
    been turned into characters. */
module Sse {
  import opened Foundations

  datatype SseFrame = SseFrame(event: Option<string>, data: string)

  /** The event and data lines of the frame being collected. */
  datatype Pending = Pending(event: Option<string>, data: seq<string>)

  const NONE_PENDING := Pending(None, [])

  // ----- strings -----

  /** The characters that Unicode calls white space. */
  predicate IsWhite(c: char) {
    var n := c as int;
    9 <= n <= 13 || n == 0x20 || n == 0x85 || n == 0xa0 || n == 0x1680 || 0x2000 <= n <= 0x200a
    || n == 0x2028 || n == 0x2029 || n == 0x202f || n == 0x205f || n == 0x3000
  }

  function TrimStart(s: string): string {
    if s != [] && IsWhite(s[0]) then TrimStart(s[1..]) else s
  }

  function TrimEnd(s: string): string {
    if s != [] && IsWhite(s[|s| - 1]) then TrimEnd(s[..|s| - 1]) else s
  }

  function Trim(s: string): string {
    TrimEnd(TrimStart(s))
  }

  predicate IsLineEnd(c: char) { c == '\n' || c == '\r' }

  /** Drops every line feed and carriage return at the end. */
  function StripLineEnd(s: string): string {
    if s != [] && IsLineEnd(s[|s| - 1]) then StripLineEnd(s[..|s| - 1]) else s
  }

  function Join(lines: seq<string>): string {
    if lines == [] then "" else if |lines| == 1 then lines[0] else lines[0] + "\n" + Join(lines[1..])
  }

  /** Where the first line feed is, or the length if there is none. */
  function Newline(s: string): (n: nat)
    ensures n <= |s| && '\n' !in s[..n] && (n < |s| ==> s[n] == '\n')
  {
    if s == [] || s[0] == '\n' then 0
    else
      var n := 1 + Newline(s[1..]);
      assert s[..n] == [s[0]] + s[1..][..n - 1];
      n
  }

  const EVENT := "event:"
  const DATA := "data:"

  // ----- one line -----

  function Frame(p: Pending): SseFrame {
    SseFrame(p.event, Join(p.data))
  }

  function IsPending(p: Pending): bool {
    p.data != [] || p.event.Some?
  }

  /** What a complete line, with its line end stripped, adds to the pending frame. */
  function Field(p: Pending, line: string): Pending {
    if EVENT <= line then p.(event := Some(Trim(line[|EVENT|..])))
    else if DATA <= line then
      var v := line[|DATA|..];
      p.(data := p.data + [if v != [] && v[0] == ' ' then v[1..] else v])
    else p
  }

  datatype State = State(buf: string, pending: Pending)

  datatype Step = Step(pending: Pending, out: seq<SseFrame>)

  /** A blank line closes the pending frame; any other line adds to it or is ignored. */
  function TakeLine(p: Pending, line: string): Step {
    var l := StripLineEnd(line);
    if l == [] then
      if IsPending(p) then Step(NONE_PENDING, [Frame(p)]) else Step(p, [])
    else Step(Field(p, l), [])
  }

  // ----- the whole stream -----

  datatype Result = Result(state: State, out: seq<SseFrame>)

  function After(before: seq<SseFrame>, r: Result): Result {
    Result(r.state, before + r.out)
  }

  /** Takes the complete lines off the front of the text, one by one. */
  function Drain(p: Pending, text: string): Result
    decreases |text|
  {
    var n := Newline(text);
    if n == |text| then Result(State(text, p), [])
    else
      var step := TakeLine(p, text[..n + 1]);
      After(step.out, Drain(step.pending, text[n + 1..]))
  }

  function Push(s: State, chunk: string): Result {
    Drain(s.pending, s.buf + chunk)
  }

  function PushAll(s: State, chunks: seq<string>): Result
    decreases |chunks|
  {
    if chunks == [] then Result(s, [])
    else
      var r := Push(s, chunks[0]);
      After(r.out, PushAll(r.state, chunks[1..]))
  }

  function Flatten(chunks: seq<string>): string {
    if chunks == [] then "" else chunks[0] + Flatten(chunks[1..])
  }

  const FRESH := State("", NONE_PENDING)

  // ----- the decoder -----

  class SseDecoder {
    var buf: string
    var event: Option<string>
    var data: seq<string>

    ghost function View(): State
      reads this
    {
      State(buf, Pending(event, data))
    }

    constructor ()
      ensures View() == FRESH
    {
      buf, event, data := "", None, [];
    }

    /** Takes a chunk of text and hands out the frames that are complete by now. */
    method Push(chunk: string) returns (out: seq<SseFrame>)
      modifies this
      ensures Result(View(), out) == Drain(old(View()).pending, old(buf) + chunk)
    {
      buf := buf + chunk;
      out := [];
      ghost var whole := Drain(Pending(event, data), buf);
      AfterNothing(whole);
      var nl := Newline(buf);
      while nl < |buf|
        invariant nl == Newline(buf)
        invariant whole == After(out, Drain(Pending(event, data), buf))
        decreases |buf|
      {
        ghost var step := TakeLine(Pending(event, data), buf[..nl + 1]);
        AfterAfter(out, step.out, Drain(step.pending, buf[nl + 1..]));
        var frames := Take(buf[..nl + 1]);
        out := out + frames;
        buf := buf[nl + 1..];
        nl := Newline(buf);
      }
    }

    /** Handles one complete line. */
    method Take(raw: string) returns (out: seq<SseFrame>)
      modifies this`event, this`data
      ensures Step(Pending(event, data), out) == TakeLine(old(Pending(event, data)), raw)
    {
      var line := StripLineEnd(raw);
      out := [];
      if line == [] {
        if data != [] || event.Some? {
          out := [SseFrame(event, Join(data))];
          event, data := None, [];
        }
      } else if EVENT <= line {
        event := Some(Trim(line[|EVENT|..]));
      } else if DATA <= line {
        var v := line[|DATA|..];
        data := data + [if v != [] && v[0] == ' ' then v[1..] else v];
      }
    }

    /** Hands out a frame that the stream ended in the middle of. */
    method Finish() returns (out: seq<SseFrame>)
      modifies this
      ensures Result(View(), out) == FinishState(old(View()))
    {
      out := [];
      if data != [] || event.Some? {
        out := out + [SseFrame(event, Join(data))];
        event, data := None, [];
      } else {
        var leftover := StripLineEnd(Trim(buf));
        buf := "";
        if leftover == [] {
          return;
        }
        if DATA <= leftover {
          out := out + [SseFrame(None, Trim(leftover[|DATA|..]))];
        } else {
          out := out + [SseFrame(None, leftover)];
        }
      }
    }
  }

  function FinishState(s: State): Result {
    if IsPending(s.pending) then Result(s.(pending := NONE_PENDING), [Frame(s.pending)])
    else
      var leftover := StripLineEnd(Trim(s.buf));
      Result(s.(buf := ""),
             if leftover == [] then []
             else if DATA <= leftover then [SseFrame(None, Trim(leftover[|DATA|..]))]
             else [SseFrame(None, leftover)])
  }

  lemma AfterNothing(r: Result)
    ensures After([], r) == r
  {}

  lemma AfterAfter(a: seq<SseFrame>, b: seq<SseFrame>, r: Result)
    ensures After(a, After(b, r)) == After(a + b, r)
  {
    assert a + (b + r.out) == (a + b) + r.out;
  }

  // ----- chunks do not matter -----

  lemma {:induction false} NewlineConcat(a: string, b: string)
    ensures Newline(a) < |a| ==> Newline(a + b) == Newline(a)
    ensures Newline(a) == |a| ==> Newline(a + b) == |a| + Newline(b)
  {
    if a == [] {
      assert a + b == b;
    } else if a[0] != '\n' {
      assert (a + b)[1..] == a[1..] + b;
      NewlineConcat(a[1..], b);
    }
  }

  /** A drain can be resumed with the text it left over. */
  lemma {:induction false} DrainResumes(p: Pending, a: string, b: string)
    ensures Newline(Drain(p, a).state.buf) == |Drain(p, a).state.buf|
    ensures Drain(p, a + b)
            == After(Drain(p, a).out, Drain(Drain(p, a).state.pending, Drain(p, a).state.buf + b))
    decreases |a|
  {
    var n := Newline(a);
    NewlineConcat(a, b);
    if n == |a| {
      AfterNothing(Drain(p, a + b));
    } else {
      var step := TakeLine(p, a[..n + 1]);
      assert (a + b)[..n + 1] == a[..n + 1] && (a + b)[n + 1..] == a[n + 1..] + b;
      DrainResumes(step.pending, a[n + 1..], b);
      var r := Drain(step.pending, a[n + 1..]);
      AfterAfter(step.out, r.out, Drain(r.state.pending, r.state.buf + b));
    }
  }

  /** Chunk invariance: every way of cutting a text into chunks gives the same frames and leaves the
      decoder in the same state as the whole text at once. */
  lemma {:induction false} SseChunkInvariance(s: State, chunks: seq<string>)
    requires '\n' !in s.buf
    ensures PushAll(s, chunks) == Push(s, Flatten(chunks))
    decreases |chunks|
  {
    if chunks == [] {
      assert s.buf + Flatten(chunks) == s.buf;
    } else {
      var a, b := s.buf + chunks[0], Flatten(chunks[1..]);
      var r := Push(s, chunks[0]);
      assert s.buf + Flatten(chunks) == a + b;
      DrainResumes(s.pending, a, b);
      NoNewlineLeft(s.pending, a);
      SseChunkInvariance(r.state, chunks[1..]);
    }
  }

  lemma NoNewlineLeft(p: Pending, text: string)
    ensures '\n' !in Drain(p, text).state.buf
  {
    DrainResumes(p, text, "");
    var buf := Drain(p, text).state.buf;
    assert buf[..|buf|] == buf;
  }

  // ----- the end of the stream -----

  /** Finishing hands out what one more line feed would, exactly when the unfinished line is blank: blank but
      for carriage returns if a frame is pending, blank but for white space if none is. */
  lemma {:induction false} FinishIsNewline(s: State)
    requires '\n' !in s.buf
    ensures FinishState(s).out == Push(s, "\n").out <==>
            if IsPending(s.pending) then StripLineEnd(s.buf) == [] else Trim(s.buf) == []
    ensures s.buf == "" ==> FinishState(s) == Push(s, "\n")
  {
    var text := s.buf + "\n";
    NewlineAt(s.buf);
    assert text[..|s.buf| + 1] == text && text[|s.buf| + 1..] == "";
    var step := TakeLine(s.pending, text);
    assert Drain(step.pending, "") == Result(State("", step.pending), []);
    assert Push(s, "\n") == Result(State("", step.pending), step.out + []);
    assert StripLineEnd(text) == StripLineEnd(s.buf) by {
      assert text[..|text| - 1] == s.buf;
    }
    TrimmedHasNoLineEnd(s.buf);
    assert StripLineEnd(Trim(s.buf)) == Trim(s.buf);
  }

  lemma {:induction false} NewlineAt(s: string)
    requires '\n' !in s
    ensures Newline(s + "\n") == |s|
  {
    NewlineConcat(s, "\n");
    NewlineNone(s);
  }

  lemma NewlineNone(s: string)
    requires '\n' !in s
    ensures Newline(s) == |s|
  {}

  lemma {:induction false} TrimEndLast(s: string)
    ensures TrimEnd(s) <= s
    ensures TrimEnd(s) != [] ==> !IsWhite(TrimEnd(s)[|TrimEnd(s)| - 1])
  {
    if s != [] && IsWhite(s[|s| - 1]) {
      TrimEndLast(s[..|s| - 1]);
    }
  }

  lemma TrimmedHasNoLineEnd(s: string)
    ensures Trim(s) != [] ==> !IsLineEnd(Trim(s)[|Trim(s)| - 1])
  {
    TrimEndLast(TrimStart(s));
  }
}
