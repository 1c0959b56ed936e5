/** Usage metering over decoded frames, for each provider dialect (crates/tailfin-wire/src/lib.rs).
    Parsing JSON text is a parameter: any function from text to an optional value. */
module Meter {
  import opened Foundations
  import opened Pricing
  import opened Sse

  datatype Json =
    | Null
    | Bool(value: bool)
    | Number(asU64: Option<nat>)
    | Str(text: string)
    | Array(items: seq<Json>)
    | Object(fields: map<string, Json>)

  type Parser = string -> Option<Json>

  datatype Dialect = AnthropicMessages | OpenAiChat | OpenAiResponses

  function Get(v: Json, key: string): Option<Json> {
    if v.Object? && key in v.fields then Some(v.fields[key]) else None
  }

  /** A member of a member, and so on. */
  function Pointer(v: Json, path: seq<string>): Option<Json> {
    if path == [] then Some(v)
    else
      var next := Get(v, path[0]);
      if next.Some? then Pointer(next.value, path[1..]) else None
  }

  function AsU64(v: Option<Json>): Option<nat> {
    if v.Some? && v.value.Number? then v.value.asU64 else None
  }

  function Or0(n: Option<nat>): nat {
    if n.Some? then n.value else 0
  }

  function Count(v: Json, key: string): nat {
    Or0(AsU64(Get(v, key)))
  }

  function CountAt(v: Json, path: seq<string>): nat {
    Or0(AsU64(Pointer(v, path)))
  }

  function TypeOf(v: Json): Option<string> {
    var t := Get(v, "type");
    if t.Some? && t.value.Str? then Some(t.value.text) else None
  }

  /** The event name, or the type inside the value when the frame has no event line. */
  function Kind(frame: SseFrame, v: Json): Option<string> {
    if frame.event.Some? then frame.event else TypeOf(v)
  }

  function NonNull(v: Option<Json>): Option<Json> {
    if v.Some? && v.value.Null? then None else v
  }

  // ----- one frame -----

  datatype Reading = Reading(usage: Usage, terminal: bool)

  const NO_READING := Reading(ZERO_USAGE, false)

  /** Output counts are cumulative, so a positive one replaces what was there; prompt-side counts arrive once
      per message start and add up. */
  function TakeAnthropic(u: Usage, v: Json, delta: bool): Usage {
    var m5 := AsU64(Pointer(v, ["cache_creation", "ephemeral_5m_input_tokens"]));
    var m1 := AsU64(Pointer(v, ["cache_creation", "ephemeral_1h_input_tokens"]));
    var flat := m5.None? && m1.None?;
    var prompt :=
      if delta then u
      else u.(input := u.input + Count(v, "input_tokens"),
              cacheRead := u.cacheRead + Count(v, "cache_read_input_tokens"),
              cacheWrite5m := u.cacheWrite5m + (if flat then Count(v, "cache_creation_input_tokens") else Or0(m5)),
              cacheWrite1h := u.cacheWrite1h + (if flat then 0 else Or0(m1)));
    var out := Count(v, "output_tokens");
    var thinking := AsU64(Pointer(v, ["output_tokens_details", "thinking_tokens"]));
    prompt.(output := if out > 0 then out else prompt.output,
            reasoning := if thinking.Some? then thinking.value else prompt.reasoning)
  }

  /** A usage object with prompt tokens that include the cached ones; it replaces the counters it covers. */
  function TakeTotals(u: Usage, v: Json, prompt: string, output: string): Usage {
    var cached := CountAt(v, [prompt + "_details", "cached_tokens"]);
    u.(input := Max(0, Count(v, prompt) - cached), cacheRead := cached, output := Count(v, output),
       reasoning := CountAt(v, [output + "_details", "reasoning_tokens"]))
  }

  function ObserveAnthropic(m: Reading, frame: SseFrame, v: Json): Reading {
    var kind := Kind(frame, v);
    if kind == Some("message_start") then
      var u := Pointer(v, ["message", "usage"]);
      if u.Some? then m.(usage := TakeAnthropic(m.usage, u.value, false)) else m
    else if kind == Some("message_delta") then
      var u := Get(v, "usage");
      if u.Some? then Reading(TakeAnthropic(m.usage, u.value, true), true) else m
    else m
  }

  function ObserveChat(m: Reading, v: Json): Reading {
    var u := NonNull(Get(v, "usage"));
    if u.Some? then Reading(TakeTotals(m.usage, u.value, "prompt_tokens", "completion_tokens"), true) else m
  }

  /** Usage under `response`, or at the top; an explicit null counts as none. */
  function ResponseUsage(v: Json): Option<Json> {
    var nested := Pointer(v, ["response", "usage"]);
    NonNull(if nested.Some? then nested else Get(v, "usage"))
  }

  function ObserveResponses(m: Reading, frame: SseFrame, v: Json): Reading {
    var kind := Kind(frame, v);
    if kind == Some("response.completed") then
      var u := ResponseUsage(v);
      if u.Some? then Reading(TakeTotals(m.usage, u.value, "input_tokens", "output_tokens"), true) else m
    else if kind == Some("response.failed") || kind == Some("response.incomplete") then
      var u := ResponseUsage(v);
      if u.Some? then m.(usage := TakeTotals(m.usage, u.value, "input_tokens", "output_tokens")) else m
    else if Get(v, "object") == Some(Str("response")) then
      var u := NonNull(Get(v, "usage"));
      if u.Some? then Reading(TakeTotals(m.usage, u.value, "input_tokens", "output_tokens"), true) else m
    else m
  }

  /** Frames that are not JSON, and the end marker, change nothing. */
  function Observe(m: Reading, frame: SseFrame, dialect: Dialect, parse: Parser): Reading {
    if frame.data == "[DONE]" || parse(frame.data).None? then m
    else
      var v := parse(frame.data).value;
      match dialect
      case AnthropicMessages => ObserveAnthropic(m, frame, v)
      case OpenAiChat => ObserveChat(m, v)
      case OpenAiResponses => ObserveResponses(m, frame, v)
  }

  function ObserveAll(m: Reading, frames: seq<SseFrame>, dialect: Dialect, parse: Parser): Reading
    decreases |frames|
  {
    if frames == [] then m
    else Observe(ObserveAll(m, frames[..|frames| - 1], dialect, parse), frames[|frames| - 1], dialect, parse)
  }

  lemma {:induction false} ObserveConcat(m: Reading, a: seq<SseFrame>, b: seq<SseFrame>, dialect: Dialect,
                                         parse: Parser)
    ensures ObserveAll(m, a + b, dialect, parse) == ObserveAll(ObserveAll(m, a, dialect, parse), b, dialect, parse)
    decreases |b|
  {
    if b == [] {
      assert a + b == a;
    } else {
      assert (a + b)[..|a + b| - 1] == a + b[..|b| - 1];
      ObserveConcat(m, a, b[..|b| - 1], dialect, parse);
    }
  }

  // ----- what a stream of frames adds up to -----

  /** The usage object of an Anthropic message start, if the frame is one. */
  function StartUsage(frame: SseFrame, parse: Parser): Option<Json> {
    if frame.data == "[DONE]" || parse(frame.data).None? then None
    else
      var v := parse(frame.data).value;
      if Kind(frame, v) == Some("message_start") then Pointer(v, ["message", "usage"]) else None
  }

  function DeltaUsage(frame: SseFrame, parse: Parser): Option<Json> {
    if frame.data == "[DONE]" || parse(frame.data).None? then None
    else
      var v := parse(frame.data).value;
      if Kind(frame, v) == Some("message_delta") then Get(v, "usage") else None
  }

  /** The usage object that the chat and responses dialects take from a frame, if any. */
  function TakenUsage(frame: SseFrame, dialect: Dialect, parse: Parser): Option<Json> {
    if frame.data == "[DONE]" || parse(frame.data).None? then None
    else
      var v := parse(frame.data).value;
      if dialect == OpenAiChat then NonNull(Get(v, "usage"))
      else
        var kind := Kind(frame, v);
        if kind in {Some("response.completed"), Some("response.failed"), Some("response.incomplete")}
        then ResponseUsage(v)
        else if Get(v, "object") == Some(Str("response")) then NonNull(Get(v, "usage"))
        else None
  }

  /** A response that failed or was cut short; its usage counts but does not complete the stream. */
  predicate IsCutShort(frame: SseFrame, parse: Parser) {
    parse(frame.data).Some?
    && Kind(frame, parse(frame.data).value) in {Some("response.failed"), Some("response.incomplete")}
  }

  /** The frame carries the provider's final usage. */
  predicate IsTerminal(frame: SseFrame, dialect: Dialect, parse: Parser) {
    match dialect
    case AnthropicMessages => DeltaUsage(frame, parse).Some?
    case OpenAiChat => TakenUsage(frame, dialect, parse).Some?
    case OpenAiResponses => TakenUsage(frame, dialect, parse).Some? && !IsCutShort(frame, parse)
  }

  lemma ObserveTerminal(m: Reading, frame: SseFrame, dialect: Dialect, parse: Parser)
    ensures Observe(m, frame, dialect, parse).terminal <==> m.terminal || IsTerminal(frame, dialect, parse)
  {}

  /** A stream counts as complete exactly when one of its frames was terminal. */
  lemma {:induction false} CompleteIffTerminal(frames: seq<SseFrame>, dialect: Dialect, parse: Parser)
    ensures ObserveAll(NO_READING, frames, dialect, parse).terminal <==>
            exists i :: 0 <= i < |frames| && IsTerminal(frames[i], dialect, parse)
  {
    if frames != [] {
      var init, last := frames[..|frames| - 1], frames[|frames| - 1];
      CompleteIffTerminal(init, dialect, parse);
      ObserveTerminal(ObserveAll(NO_READING, init, dialect, parse), last, dialect, parse);
      assert frames == init + [last];
      assert forall i :: 0 <= i < |init| ==> init[i] == frames[i];
    }
  }

  lemma ObserveTaken(m: Reading, frame: SseFrame, dialect: Dialect, parse: Parser)
    requires dialect != AnthropicMessages && m.usage.cacheWrite5m == 0 == m.usage.cacheWrite1h
    ensures Observe(m, frame, dialect, parse).usage
            == if TakenUsage(frame, dialect, parse).Some? then Observe(NO_READING, frame, dialect, parse).usage
               else m.usage
  {}

  /** In the OpenAI dialects the last frame that reports usage decides; nothing accumulates. */
  lemma {:induction false} LastReportWins(frames: seq<SseFrame>, k: nat, dialect: Dialect, parse: Parser)
    requires dialect != AnthropicMessages && k < |frames|
    requires TakenUsage(frames[k], dialect, parse).Some?
    requires forall i :: k < i < |frames| ==> TakenUsage(frames[i], dialect, parse).None?
    ensures ObserveAll(NO_READING, frames, dialect, parse).usage == Observe(NO_READING, frames[k], dialect, parse).usage
    decreases |frames|
  {
    var init, last := frames[..|frames| - 1], frames[|frames| - 1];
    NoCacheWrites(init, dialect, parse);
    ObserveTaken(ObserveAll(NO_READING, init, dialect, parse), last, dialect, parse);
    if k < |init| {
      LastReportWins(init, k, dialect, parse);
    }
  }

  lemma {:induction false} NoCacheWrites(frames: seq<SseFrame>, dialect: Dialect, parse: Parser)
    requires dialect != AnthropicMessages
    ensures var u := ObserveAll(NO_READING, frames, dialect, parse).usage; u.cacheWrite5m == 0 == u.cacheWrite1h
  {
    if frames != [] {
      NoCacheWrites(frames[..|frames| - 1], dialect, parse);
    }
  }

  /** The `n`-th of the frames is the last that reports usage, and `v` is what it reports. */
  ghost predicate LastReport(frames: seq<SseFrame>, n: nat, v: Json, dialect: Dialect, parse: Parser) {
    && n < |frames| && TakenUsage(frames[n], dialect, parse) == Some(v)
    && forall i :: n < i < |frames| ==> TakenUsage(frames[i], dialect, parse).None?
  }

  /** What the chat dialect records: the counters of the last report, with the cached tokens, which the prompt count
      includes, taken out of the input. */
  lemma {:induction false} ChatTotals(frames: seq<SseFrame>, n: nat, v: Json, parse: Parser)
    requires LastReport(frames, n, v, OpenAiChat, parse)
    ensures var u := ObserveAll(NO_READING, frames, OpenAiChat, parse).usage;
            var cached := CountAt(v, ["prompt_tokens_details", "cached_tokens"]);
            && u.cacheRead == cached
            && u.input + u.cacheRead == Max(Count(v, "prompt_tokens"), cached)
            && u.output == Count(v, "completion_tokens")
            && u.reasoning == CountAt(v, ["completion_tokens_details", "reasoning_tokens"])
            && u.cacheWrite5m == 0 == u.cacheWrite1h
  {
    assert "prompt_tokens" + "_details" == "prompt_tokens_details";
    assert "completion_tokens" + "_details" == "completion_tokens_details";
    LastReportWins(frames, n, OpenAiChat, parse);
  }

  /** What the responses dialect records, from the counters of its own names. */
  lemma {:induction false} ResponsesTotals(frames: seq<SseFrame>, n: nat, v: Json, parse: Parser)
    requires LastReport(frames, n, v, OpenAiResponses, parse)
    ensures var u := ObserveAll(NO_READING, frames, OpenAiResponses, parse).usage;
            var cached := CountAt(v, ["input_tokens_details", "cached_tokens"]);
            && u.cacheRead == cached
            && u.input + u.cacheRead == Max(Count(v, "input_tokens"), cached)
            && u.output == Count(v, "output_tokens")
            && u.reasoning == CountAt(v, ["output_tokens_details", "reasoning_tokens"])
            && u.cacheWrite5m == 0 == u.cacheWrite1h
  {
    assert "input_tokens" + "_details" == "input_tokens_details";
    assert "output_tokens" + "_details" == "output_tokens_details";
    LastReportWins(frames, n, OpenAiResponses, parse);
  }

  /** Frames that report nothing leave nothing recorded. */
  lemma {:induction false} NoReportNoUsage(frames: seq<SseFrame>, dialect: Dialect, parse: Parser)
    requires dialect != AnthropicMessages
    requires forall i :: 0 <= i < |frames| ==> TakenUsage(frames[i], dialect, parse).None?
    ensures ObserveAll(NO_READING, frames, dialect, parse) == NO_READING
  {
    if frames != [] {
      var init := frames[..|frames| - 1];
      NoReportNoUsage(init, dialect, parse);
      ObserveTaken(NO_READING, frames[|frames| - 1], dialect, parse);
    }
  }

  /** A count is the number found under its name, or zero where there is none: no such member, no object to look in, or
      something that is not a whole number. */
  lemma {:induction false} CountsRead(fields: map<string, Json>, key: string, outer: string, v: Json)
    ensures key !in fields ==> Count(Object(fields), key) == 0
    ensures !v.Object? ==> Count(v, key) == 0 == CountAt(v, [outer, key])
    ensures Count(Object(fields[key := v]), key) == if v.Number? && v.asU64.Some? then v.asU64.value else 0
    ensures CountAt(Object(fields[outer := v]), [outer, key]) == Count(v, key)
    ensures outer !in fields ==> CountAt(Object(fields), [outer, key]) == 0
  {
    assert [outer, key][1..] == [key] && [key][1..] == [];
    assert Pointer(Object(fields[outer := v]), [outer, key]) == Pointer(v, [key]) == Get(v, key);
  }

  /** The kind of a frame is its event line; the type inside the value only stands in for a missing one. */
  lemma {:induction false} KindsRead(data: string, e: string, fields: map<string, Json>, t: string)
    ensures Kind(SseFrame(Some(e), data), Object(fields)) == Some(e)
    ensures Kind(SseFrame(None, data), Object(fields["type" := Str(t)])) == Some(t)
    ensures "type" !in fields ==> Kind(SseFrame(None, data), Object(fields)) == None
  {}

  /** The end marker and what is not JSON change nothing, in every dialect. */
  lemma {:induction false} SkippedFrames(m: Reading, frame: SseFrame, dialect: Dialect, parse: Parser)
    ensures frame.data == "[DONE]" || parse(frame.data).None? ==> Observe(m, frame, dialect, parse) == m
  {}

  /** Where each OpenAI dialect finds its usage object. Chat: at the top, unless it is null. Responses: under
      `response`, else at the top, when the response ended one way or another, and at the top of a response that was
      not streamed; a null under `response` counts as none even if there is one at the top. Only completion is
      terminal there. */
  lemma {:induction false} WhereUsageIs(frame: SseFrame, v: Json, u: Json, inner: map<string, Json>,
                                        outer: map<string, Json>, parse: Parser)
    requires frame.data != "[DONE]" && parse(frame.data) == Some(v) && !u.Null?
    ensures v == Object(outer["usage" := u]) ==> TakenUsage(frame, OpenAiChat, parse) == Some(u)
    ensures v == Object(outer["usage" := Null]) || (v == Object(outer) && "usage" !in outer) ==>
              TakenUsage(frame, OpenAiChat, parse) == None
    ensures frame.event in {Some("response.completed"), Some("response.failed"), Some("response.incomplete")} ==>
              && (v == Object(outer["response" := Object(inner["usage" := u])]) ==>
                    TakenUsage(frame, OpenAiResponses, parse) == Some(u))
              && (v == Object(outer["response" := Object(inner["usage" := Null])]) ==>
                    TakenUsage(frame, OpenAiResponses, parse) == None)
              && (v == Object(outer["usage" := u]) && "response" !in outer ==>
                    TakenUsage(frame, OpenAiResponses, parse) == Some(u))
    ensures frame.event == Some("other") && v == Object(outer["usage" := u]["object" := Str("response")]) ==>
              TakenUsage(frame, OpenAiResponses, parse) == Some(u) && IsTerminal(frame, OpenAiResponses, parse)
    ensures TakenUsage(frame, OpenAiResponses, parse) == Some(u) ==>
              && (frame.event == Some("response.completed") ==> IsTerminal(frame, OpenAiResponses, parse))
              && (frame.event in {Some("response.failed"), Some("response.incomplete")} ==>
                    !IsTerminal(frame, OpenAiResponses, parse))
  {
    UsageUnderResponse(outer, inner, u);
    UsageUnderResponse(outer, inner, Null);
    if "response" !in outer {
      UsageAtTop(outer, u);
    }
  }

  /** Where the Anthropic dialect finds its usage objects: inside the message when it starts, at the top when it is
      updated, and nowhere else. */
  lemma {:induction false} WhereAnthropicUsageIs(frame: SseFrame, v: Json, u: Json, inner: map<string, Json>,
                                                 outer: map<string, Json>, parse: Parser)
    requires frame.data != "[DONE]" && parse(frame.data) == Some(v)
    ensures frame.event == Some("message_start") && v == Object(outer["message" := Object(inner["usage" := u])]) ==>
              StartUsage(frame, parse) == Some(u) && DeltaUsage(frame, parse) == None
    ensures frame.event == Some("message_delta") && v == Object(outer["usage" := u]) ==>
              StartUsage(frame, parse) == None && DeltaUsage(frame, parse) == Some(u)
    ensures frame.event == Some("content_block_delta") ==>
              StartUsage(frame, parse) == None == DeltaUsage(frame, parse)
  {
    var path := ["message", "usage"];
    assert path[1..] == ["usage"] && path[1..][1..] == [];
    assert Pointer(Object(outer["message" := Object(inner["usage" := u])]), path)
        == Pointer(Object(inner["usage" := u]), ["usage"]) == Some(u);
  }

  lemma UsageUnderResponse(outer: map<string, Json>, inner: map<string, Json>, u: Json)
    ensures ResponseUsage(Object(outer["response" := Object(inner["usage" := u])])) == if u.Null? then None else Some(u)
  {
    var v := Object(outer["response" := Object(inner["usage" := u])]);
    var path := ["response", "usage"];
    assert path[1..] == ["usage"] && path[1..][1..] == [];
    assert Pointer(v, path) == Pointer(Object(inner["usage" := u]), ["usage"]) == Some(u);
  }

  lemma UsageAtTop(outer: map<string, Json>, u: Json)
    requires "response" !in outer
    ensures ResponseUsage(Object(outer["usage" := u])) == if u.Null? then None else Some(u)
  {
    assert Pointer(Object(outer["usage" := u]), ["response", "usage"]) == None;
  }

  /** The counters that a message start reports for the prompt side. Cache writes are split by lifetime if the
      split is given, and otherwise all count as five-minute writes. */
  datatype Prompt = Prompt(input: nat, cacheRead: nat, cacheWrite5m: nat, cacheWrite1h: nat)

  function PromptOf(v: Json): Prompt {
    var m5 := AsU64(Pointer(v, ["cache_creation", "ephemeral_5m_input_tokens"]));
    var m1 := AsU64(Pointer(v, ["cache_creation", "ephemeral_1h_input_tokens"]));
    var written := if m5.None? && m1.None? then (Count(v, "cache_creation_input_tokens"), 0) else (Or0(m5), Or0(m1));
    Prompt(Count(v, "input_tokens"), Count(v, "cache_read_input_tokens"), written.0, written.1)
  }

  /** The sum of one prompt-side counter over all message starts. */
  function StartSum(frames: seq<SseFrame>, parse: Parser, counter: Prompt -> nat): nat {
    if frames == [] then 0
    else
      var u := StartUsage(frames[|frames| - 1], parse);
      StartSum(frames[..|frames| - 1], parse, counter) + if u.Some? then counter(PromptOf(u.value)) else 0
  }

  /** The usage object of a start or a delta. */
  function ReportedUsage(frame: SseFrame, parse: Parser): Option<Json> {
    var start := StartUsage(frame, parse);
    if start.Some? then start else DeltaUsage(frame, parse)
  }

  /** The last positive output count that any start or delta reported. */
  function LastOutput(frames: seq<SseFrame>, parse: Parser): nat {
    if frames == [] then 0
    else
      var u := ReportedUsage(frames[|frames| - 1], parse);
      var n := if u.Some? then Count(u.value, "output_tokens") else 0;
      if n > 0 then n else LastOutput(frames[..|frames| - 1], parse)
  }

  /** The last thinking count that any start or delta reported, zero included. */
  function LastThinking(frames: seq<SseFrame>, parse: Parser): nat {
    if frames == [] then 0
    else
      var u := ReportedUsage(frames[|frames| - 1], parse);
      var n := if u.Some? then AsU64(Pointer(u.value, ["output_tokens_details", "thinking_tokens"])) else None;
      if n.Some? then n.value else LastThinking(frames[..|frames| - 1], parse)
  }

  lemma AnthropicPrompt(m: Reading, frame: SseFrame, parse: Parser)
    ensures var after := Observe(m, frame, AnthropicMessages, parse).usage;
            var u := StartUsage(frame, parse);
            var p := if u.Some? then PromptOf(u.value) else Prompt(0, 0, 0, 0);
            && after.input == m.usage.input + p.input && after.cacheRead == m.usage.cacheRead + p.cacheRead
            && after.cacheWrite5m == m.usage.cacheWrite5m + p.cacheWrite5m
            && after.cacheWrite1h == m.usage.cacheWrite1h + p.cacheWrite1h
  {}

  lemma AnthropicOutput(m: Reading, frame: SseFrame, parse: Parser)
    ensures var after := Observe(m, frame, AnthropicMessages, parse).usage;
            var u := ReportedUsage(frame, parse);
            var n := if u.Some? then Count(u.value, "output_tokens") else 0;
            var k := if u.Some? then AsU64(Pointer(u.value, ["output_tokens_details", "thinking_tokens"])) else None;
            && after.output == (if n > 0 then n else m.usage.output)
            && after.reasoning == (if k.Some? then k.value else m.usage.reasoning)
  {}

  /** In the Anthropic dialect every prompt-side counter adds up over message starts, while output is the last
      positive count reported and thinking the last count reported, never sums. */
  lemma {:induction false} AnthropicTotals(frames: seq<SseFrame>, parse: Parser)
    ensures ObserveAll(NO_READING, frames, AnthropicMessages, parse).usage
            == Usage(input := StartSum(frames, parse, (p: Prompt) => p.input),
                     output := LastOutput(frames, parse),
                     cacheWrite5m := StartSum(frames, parse, (p: Prompt) => p.cacheWrite5m),
                     cacheWrite1h := StartSum(frames, parse, (p: Prompt) => p.cacheWrite1h),
                     cacheRead := StartSum(frames, parse, (p: Prompt) => p.cacheRead),
                     reasoning := LastThinking(frames, parse))
  {
    if frames != [] {
      var init := frames[..|frames| - 1];
      AnthropicTotals(init, parse);
      AnthropicPrompt(ObserveAll(NO_READING, init, AnthropicMessages, parse), frames[|frames| - 1], parse);
      AnthropicOutput(ObserveAll(NO_READING, init, AnthropicMessages, parse), frames[|frames| - 1], parse);
    }
  }

  // ----- the meter task -----

  class UsageMeter {
    const dialect: Dialect
    var usage: Usage
    var sawTerminal: bool

    ghost function View(): Reading
      reads this
    {
      Reading(usage, sawTerminal)
    }

    constructor (dialect: Dialect)
      ensures View() == NO_READING && this.dialect == dialect
    {
      this.dialect, usage, sawTerminal := dialect, ZERO_USAGE, false;
    }

    method ObserveFrames(frames: seq<SseFrame>, parse: Parser)
      modifies this
      ensures View() == ObserveAll(old(View()), frames, dialect, parse)
    {
      for i := 0 to |frames|
        invariant View() == ObserveAll(old(View()), frames[..i], dialect, parse)
      {
        assert frames[..i + 1][..i] == frames[..i];
        var m := Observe(Reading(usage, sawTerminal), frames[i], dialect, parse);
        usage, sawTerminal := m.usage, m.terminal;
      }
      assert frames[..|frames|] == frames;
    }
  }

  /** What a meter says of a list of frames; without a known dialect it says nothing. */
  function FramesReading(frames: seq<SseFrame>, dialect: Option<Dialect>, parse: Parser): Reading {
    if dialect.Some? then ObserveAll(NO_READING, frames, dialect.value, parse) else NO_READING
  }

  /** What the whole body says: decoded at once, finished, and metered. */
  function BodyReading(body: string, dialect: Option<Dialect>, parse: Parser): Reading {
    var r := Push(FRESH, body);
    FramesReading(r.out + FinishState(r.state).out, dialect, parse)
  }

  /** What the meter records from the chunks it received, decoded one by one. */
  function ChunkReading(chunks: seq<string>, dialect: Option<Dialect>, parse: Parser): Reading {
    var r := PushAll(FRESH, chunks);
    FramesReading(r.out + FinishState(r.state).out, dialect, parse)
  }

  /** However a body is cut into chunks, the meter records what the whole of it says. */
  lemma ReadingIgnoresChunks(chunks: seq<string>, dialect: Option<Dialect>, parse: Parser)
    ensures ChunkReading(chunks, dialect, parse) == BodyReading(Flatten(chunks), dialect, parse)
  {
    SseChunkInvariance(FRESH, chunks);
  }

  /** The decode-and-observe loop of the meter task. Without a dialect the chunks are taken and dropped. */
  method MeterChunks(chunks: seq<string>, dialect: Option<Dialect>, parse: Parser) returns (m: Reading)
    ensures m == ChunkReading(chunks, dialect, parse)
    ensures m == BodyReading(Flatten(chunks), dialect, parse)
    ensures dialect.None? ==> m == Reading(ZERO_USAGE, false)
  {
    ReadingIgnoresChunks(chunks, dialect, parse);
    if dialect.None? {
      return NO_READING;
    }
    m := MeterKnown(chunks, dialect.value, parse);
  }

  method MeterKnown(chunks: seq<string>, dialect: Dialect, parse: Parser) returns (m: Reading)
    ensures m == ChunkReading(chunks, Some(dialect), parse)
  {
    var decoder := new SseDecoder();
    var meter := new UsageMeter(dialect);
    ghost var seen: seq<SseFrame> := [];
    for i := 0 to |chunks|
      invariant fresh(decoder) && fresh(meter) && meter.dialect == dialect
      invariant Result(decoder.View(), seen) == PushAll(FRESH, chunks[..i])
      invariant meter.View() == ObserveAll(NO_READING, seen, dialect, parse)
    {
      PushAllLast(FRESH, chunks[..i], chunks[i]);
      assert chunks[..i + 1] == chunks[..i] + [chunks[i]];
      var frames := decoder.Push(chunks[i]);
      meter.ObserveFrames(frames, parse);
      ObserveConcat(NO_READING, seen, frames, dialect, parse);
      seen := seen + frames;
    }
    assert chunks[..|chunks|] == chunks;
    var tail := decoder.Finish();
    meter.ObserveFrames(tail, parse);
    ObserveConcat(NO_READING, seen, tail, dialect, parse);
    m := Reading(meter.usage, meter.sawTerminal);
  }

  lemma {:induction false} PushAllLast(s: State, chunks: seq<string>, last: string)
    ensures PushAll(s, chunks + [last])
            == After(PushAll(s, chunks).out, Push(PushAll(s, chunks).state, last))
    decreases |chunks|
  {
    if chunks == [] {
      assert [last][1..] == [] && chunks + [last] == [last];
      var r := Push(s, last);
      assert PushAll(s, [last]) == After(r.out, Result(r.state, []));
      assert r.out + [] == r.out && [] + r.out == r.out;
    } else {
      var r := Push(s, chunks[0]);
      assert (chunks + [last])[1..] == chunks[1..] + [last];
      PushAllLast(r.state, chunks[1..], last);
      var rest := PushAll(r.state, chunks[1..]);
      AfterAfter(r.out, rest.out, Push(rest.state, last));
    }
  }
}
