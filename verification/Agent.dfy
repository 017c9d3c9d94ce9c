/** The agent loop: call the model, run the tools it asked for, repeat. */
module Agent {
  import opened Options
  import opened Messages
  import opened Window
  import opened Sequences

  const MAX_TOOL_ITERATIONS: nat := 15

  datatype StreamEvent =
    | Text(text: string)
    | Call(call: ToolCall)
    | Error(error: string)
    | Ignored  // a tool_call event without a call, or any other event type

  datatype StreamOutcome = NotOpened(error: string) | Opened(events: seq<StreamEvent>)

  datatype ToolOutcome = NotFound | Output(output: string) | Failed(error: string)

  /** The world outside the loop. Its answers may depend on the whole working list, which grows
      with every step, so any model and any tools are covered. */
  datatype Env = Env(
    stream: seq<Message> -> StreamOutcome,
    tool: (seq<Message>, ToolCall) -> ToolOutcome,
    quote: string -> string)

  /** Events sent to the client. */
  datatype Event =
    | TextEvent(content: string)
    | ToolUseEvent(name: string, status: string, error: string)
    | ErrorEvent(error: string)
    | DoneEvent
  {
    predicate Terminal() { ErrorEvent? || DoneEvent? }
  }

  datatype RunError = NoError | StreamFailed(error: string) | ModelFailed(error: string)

  // ----- What one stream yields -----

  /** The first error of a stream, if any; nothing after it is read. */
  function ReadError(events: seq<StreamEvent>): Option<string> {
    if events == [] then None
    else if events[0].Error? then Some(events[0].error)
    else ReadError(events[1..])
  }

  /** `text` followed by the stream's text. */
  function ReadText(events: seq<StreamEvent>, text: string): string {
    if events == [] || events[0].Error? then text
    else ReadText(events[1..], if events[0].Text? then text + events[0].text else text)
  }

  /** `calls` followed by the stream's calls. */
  function ReadCalls(events: seq<StreamEvent>, calls: seq<ToolCall>): seq<ToolCall> {
    if events == [] || events[0].Error? then calls
    else ReadCalls(events[1..], if events[0].Call? then calls + [events[0].call] else calls)
  }

  lemma {:induction false} ReadTextAppend(events: seq<StreamEvent>, before: string, text: string)
    ensures ReadText(events, before + text) == before + ReadText(events, text)
    decreases |events|
  {
    if events != [] && !events[0].Error? {
      if events[0].Text? {
        Associative(before, text, events[0].text);
        ReadTextAppend(events[1..], before, text + events[0].text);
      } else {
        ReadTextAppend(events[1..], before, text);
      }
    }
  }

  predicate NoErrorIn(events: seq<StreamEvent>) {
    forall e :: e in events ==> !e.Error?
  }

  /** As long as no error came, each further event adds its text or its call at the end, or nothing. */
  lemma {:induction false} OneMoreEvent(events: seq<StreamEvent>, e: StreamEvent, text: string, calls: seq<ToolCall>)
    requires NoErrorIn(events)
    ensures ReadText(events, text) + (if e.Text? then e.text else "") == ReadText(events + [e], text)
    ensures ReadCalls(events, calls) + (if e.Call? then [e.call] else []) == ReadCalls(events + [e], calls)
    ensures ReadError(events + [e]) == if e.Error? then Some(e.error) else None
    ensures ReadText([], text) == text && ReadCalls([], calls) == calls
    decreases |events|
  {
    if events == [] {
      assert events + [e] == [e] && [e][1..] == [];
    } else {
      assert events[0] in events && (events + [e])[1..] == events[1..] + [e];
      OneMoreEvent(events[1..], e,
                   if events[0].Text? then text + events[0].text else text,
                   if events[0].Call? then calls + [events[0].call] else calls);
    }
  }

  /** Nothing after the first error is read. */
  lemma {:induction false} NothingAfterError(events: seq<StreamEvent>, error: string, rest: seq<StreamEvent>, text: string, calls: seq<ToolCall>)
    requires NoErrorIn(events)
    ensures ReadText(events + [Error(error)] + rest, text) == ReadText(events, text)
    ensures ReadCalls(events + [Error(error)] + rest, calls) == ReadCalls(events, calls)
    ensures ReadError(events + [Error(error)] + rest) == Some(error)
    decreases |events|
  {
    var all := events + [Error(error)] + rest;
    if events == [] {
      assert all[0] == Error(error);
    } else {
      assert events[0] in events && all[0] == events[0] && all[1..] == events[1..] + [Error(error)] + rest;
      NothingAfterError(events[1..], error, rest,
                        if events[0].Text? then text + events[0].text else text,
                        if events[0].Call? then calls + [events[0].call] else calls);
    }
  }

  /** The text the client has been sent. */
  function TextOf(events: seq<Event>): string {
    if events == [] then ""
    else
      var e := events[|events| - 1];
      TextOf(events[..|events| - 1]) + if e.TextEvent? then e.content else ""
  }

  /** The text the assistant messages carry. */
  function ContentOf(ms: seq<Message>): string {
    if ms == [] then ""
    else
      var m := ms[|ms| - 1];
      ContentOf(ms[..|ms| - 1]) + if m.Assistant? then m.content else ""
  }

  /** No terminal event was sent yet. */
  predicate Running(events: seq<Event>) {
    events == [] || (!events[|events| - 1].Terminal() && Running(events[..|events| - 1]))
  }

  /** Exactly one terminal event was sent, and it was the last. */
  predicate Ended(events: seq<Event>, last: Event) {
    && last.Terminal()
    && events != []
    && events[|events| - 1] == last
    && Running(events[..|events| - 1])
  }

  lemma {:induction false} Send(events: seq<Event>, e: Event)
    ensures TextOf(events + [e]) == TextOf(events) + if e.TextEvent? then e.content else ""
    ensures Running(events + [e]) <==> Running(events) && !e.Terminal()
    ensures Running(events) && e.Terminal() ==> Ended(events + [e], e)
  {
    assert (events + [e])[..|events|] == events;
  }

  lemma {:induction false} ContentOfSnoc(ms: seq<Message>, m: Message)
    ensures ContentOf(ms + [m]) == ContentOf(ms) + if m.Assistant? then m.content else ""
  {
    assert (ms + [m])[..|ms|] == ms;
  }

  lemma {:induction false} ContentOfResults(ms: seq<Message>, results: seq<Message>)
    requires forall r :: r in results ==> r.ToolResult?
    ensures ContentOf(ms + results) == ContentOf(ms)
    decreases |results|
  {
    if results == [] {
      assert ms + results == ms;
    } else {
      var front, r := results[..|results| - 1], results[|results| - 1];
      assert results == front + [r] && r in results;
      Associative(ms, front, [r]);
      ContentOfResults(ms, front);
      ContentOfSnoc(ms + front, r);
    }
  }

  // ----- What one round of tool calls yields -----

  function ResultOf(env: Env, before: seq<Message>, call: ToolCall): Message {
    match env.tool(before, call)
    case NotFound => ToolResult(call.id, "tool " + env.quote(call.name) + " not found", true)
    case Output(output) => ToolResult(call.id, output, false)
    case Failed(error) => ToolResult(call.id, error, true)
  }

  /** The result tells the model what the tool answered. */
  ghost predicate ToolSays(env: Env, outcome: ToolOutcome, call: ToolCall, result: Message) {
    && result.ToolResult? && result.id == call.id
    && match outcome
       case Output(output) => result.content == output && !result.isError
       case Failed(error) => result.content == error && result.isError
       case NotFound => result.content == "tool " + env.quote(call.name) + " not found" && result.isError
  }

  /** The events tell the client how the tool call went, after what it was told before. */
  ghost predicate ClientTold(outcome: ToolOutcome, call: ToolCall, already: seq<Event>, sent: seq<Event>) {
    match outcome
    case NotFound => sent == already + [ToolUseEvent(call.name, "error", "tool not found")]
    case Output(_) => sent == already + [ToolUseEvent(call.name, "running", "")] + [ToolUseEvent(call.name, "done", "")]
    case Failed(error) => sent == already + [ToolUseEvent(call.name, "running", "")] + [ToolUseEvent(call.name, "error", error)]
  }

  /** One result per call, in call order, each computed with the results before it in view. */
  function ResultsOf(env: Env, before: seq<Message>, calls: seq<ToolCall>): (results: seq<Message>)
    ensures Answers(results, calls)
  {
    if calls == [] then []
    else
      var front := ResultsOf(env, before, calls[..|calls| - 1]);
      front + [ResultOf(env, before + front, calls[|calls| - 1])]
  }

  lemma {:induction false} ResultsAt(env: Env, before: seq<Message>, calls: seq<ToolCall>, j: nat)
    requires j < |calls|
    ensures
      var results := ResultsOf(env, before, calls);
      ToolSays(env, env.tool(before + results[..j], calls[j]), calls[j], results[j])
    decreases |calls|
  {
    var front := calls[..|calls| - 1];
    var results := ResultsOf(env, before, calls);
    if j < |front| {
      ResultsAt(env, before, front, j);
      assert results[..j] == ResultsOf(env, before, front)[..j];
    } else {
      assert results[..j] == ResultsOf(env, before, front);
    }
  }

  /** Reads a stream to its end or to its first error, forwarding the text. */
  method ReadStream(events: seq<StreamEvent>, prefill: string, soFar: string, already: seq<Event>)
    returns (iterText: string, fullText: string, toolCalls: seq<ToolCall>, sent: seq<Event>, failure: Option<string>)
    requires Running(already) && soFar == TextOf(already)
    ensures iterText == ReadText(events, prefill)
    ensures toolCalls == ReadCalls(events, [])
    ensures fullText == TextOf(sent) == ReadText(events, soFar)
    ensures failure == ReadError(events)
    ensures failure.None? ==> Running(sent)
    ensures failure.Some? ==> Ended(sent, ErrorEvent(failure.value))
    ensures already <= sent
  {
    iterText, fullText, toolCalls, sent, failure := prefill, soFar, [], already, None;
    for i := 0 to |events|
      invariant ReadText(events, prefill) == ReadText(events[i..], iterText)
      invariant ReadCalls(events, []) == ReadCalls(events[i..], toolCalls)
      invariant ReadError(events) == ReadError(events[i..])
      invariant ReadText(events, soFar) == ReadText(events[i..], fullText)
      invariant fullText == TextOf(sent)
      invariant Running(sent) && failure == None && already <= sent
    {
      assert events[i..][1..] == events[i + 1..];
      match events[i] {
        case Text(text) =>
          Send(sent, TextEvent(text));
          iterText := iterText + text;
          fullText := fullText + text;
          sent := sent + [TextEvent(text)];
        case Call(call) =>
          toolCalls := toolCalls + [call];
        case Error(error) =>
          Send(sent, ErrorEvent(error));
          sent := sent + [ErrorEvent(error)];
          failure := Some(error);
          return;
        case Ignored =>
      }
    }
  }

  /** What the client has been told after one tool call. */
  function Report(sent: seq<Event>, call: ToolCall, outcome: ToolOutcome): seq<Event> {
    match outcome
    case NotFound => sent + [ToolUseEvent(call.name, "error", "tool not found")]
    case Output(_) => sent + [ToolUseEvent(call.name, "running", "")] + [ToolUseEvent(call.name, "done", "")]
    case Failed(error) => sent + [ToolUseEvent(call.name, "running", "")] + [ToolUseEvent(call.name, "error", error)]
  }

  function ReportAll(env: Env, before: seq<Message>, calls: seq<ToolCall>, already: seq<Event>): seq<Event> {
    if calls == [] then already
    else
      var front, call := calls[..|calls| - 1], calls[|calls| - 1];
      Report(ReportAll(env, before, front, already), call, env.tool(before + ResultsOf(env, before, front), call))
  }

  /** Runs the tools, one after the other, and reports each to the client. */
  method RunTools(env: Env, before: seq<Message>, toolCalls: seq<ToolCall>, already: seq<Event>)
    returns (results: seq<Message>, sent: seq<Event>)
    ensures results == ResultsOf(env, before, toolCalls)
    ensures sent == ReportAll(env, before, toolCalls, already) && already <= sent
    ensures forall j :: 0 <= j < |toolCalls| ==>
              ToolSays(env, env.tool(before + results[..j], toolCalls[j]), toolCalls[j], results[j])
  {
    results, sent := [], already;
    for i := 0 to |toolCalls|
      invariant results == ResultsOf(env, before, toolCalls[..i])
      invariant sent == ReportAll(env, before, toolCalls[..i], already) && already <= sent
    {
      assert toolCalls[..i + 1][..i] == toolCalls[..i];
      var result;
      result, sent := RunTool(env, before + results, toolCalls[i], sent);
      results := results + [result];
    }
    assert toolCalls[..|toolCalls|] == toolCalls;
    forall j | 0 <= j < |toolCalls|
      ensures ToolSays(env, env.tool(before + results[..j], toolCalls[j]), toolCalls[j], results[j])
    {
      ResultsAt(env, before, toolCalls, j);
    }
  }

  method RunTool(env: Env, working: seq<Message>, tc: ToolCall, already: seq<Event>) returns (result: Message, sent: seq<Event>)
    ensures result == ResultOf(env, working, tc) && ToolSays(env, env.tool(working, tc), tc, result)
    ensures sent == Report(already, tc, env.tool(working, tc)) && ClientTold(env.tool(working, tc), tc, already, sent)
  {
    var outcome := env.tool(working, tc);
    if outcome.NotFound? {
      result := ToolResult(tc.id, "tool " + env.quote(tc.name) + " not found", true);
      sent := already + [ToolUseEvent(tc.name, "error", "tool not found")];
      return;
    }
    sent := already + [ToolUseEvent(tc.name, "running", "")];
    var isError := outcome.Failed?;
    var content := if isError then outcome.error else outcome.output;
    result := ToolResult(tc.id, content, isError);
    var status, errMsg := "done", "";
    if isError {
      status, errMsg := "error", content;
    }
    sent := sent + [ToolUseEvent(tc.name, status, errMsg)];
  }

  lemma {:induction false} ReportRunning(sent: seq<Event>, call: ToolCall, outcome: ToolOutcome)
    ensures TextOf(Report(sent, call, outcome)) == TextOf(sent)
    ensures Running(sent) ==> Running(Report(sent, call, outcome))
  {
    match outcome
    case NotFound => Send(sent, ToolUseEvent(call.name, "error", "tool not found"));
    case Output(_) =>
      Send(sent, ToolUseEvent(call.name, "running", ""));
      Send(sent + [ToolUseEvent(call.name, "running", "")], ToolUseEvent(call.name, "done", ""));
    case Failed(error) =>
      Send(sent, ToolUseEvent(call.name, "running", ""));
      Send(sent + [ToolUseEvent(call.name, "running", "")], ToolUseEvent(call.name, "error", error));
  }

  /** Tool reports carry no text and end nothing. */
  lemma {:induction false} ReportsRunning(env: Env, before: seq<Message>, calls: seq<ToolCall>, already: seq<Event>)
    ensures TextOf(ReportAll(env, before, calls, already)) == TextOf(already)
    ensures Running(already) ==> Running(ReportAll(env, before, calls, already))
    decreases |calls|
  {
    if calls != [] {
      var front, call := calls[..|calls| - 1], calls[|calls| - 1];
      ReportsRunning(env, before, front, already);
      ReportRunning(ReportAll(env, before, front, already), call, env.tool(before + ResultsOf(env, before, front), call));
    }
  }

  // ----- What a run adds to the conversation -----

  /** The prefill is emitted before anything else, on the first iteration only. */
  function Prefill(i: nat, prefill: string): string {
    if i == 0 then prefill else ""
  }

  /** A stream that ended without an error and asked for at least one tool. */
  predicate IsToolTurn(env: Env, before: seq<Message>) {
    var s := env.stream(before);
    s.Opened? && ReadError(s.events) == None && ReadCalls(s.events, []) != []
  }

  function TurnOf(env: Env, before: seq<Message>, prefill: string): seq<Message>
    requires IsToolTurn(env, before)
  {
    var events := env.stream(before).events;
    var turn := Assistant(ReadText(events, prefill), ReadCalls(events, []));
    [turn] + ResultsOf(env, before + [turn], turn.calls)
  }

  /** The messages added by the first `k` iterations, as long as they all are tool turns. */
  function AfterTurns(env: Env, history: seq<Message>, prefill: string, k: nat): seq<Message>
  {
    if k == 0 then []
    else
      var prev := AfterTurns(env, history, prefill, k - 1);
      prev + if IsToolTurn(env, history + prev) then TurnOf(env, history + prev, Prefill(k - 1, prefill)) else []
  }

  /** The text of the iteration that ends a run. */
  function FinalText(env: Env, history: seq<Message>, prefill: string, k: nat): string
    requires env.stream(history + AfterTurns(env, history, prefill, k)).Opened?
  {
    var events := env.stream(history + AfterTurns(env, history, prefill, k)).events;
    ReadText(events, Prefill(k, prefill))
  }

  /** Tool turns, then at most one text turn, and nothing else. */
  predicate OutputShape(ms: seq<Message>) {
    && Log(ms)
    && (forall i :: 0 <= i < |ms| ==> !ms[i].User?)
    && (forall i :: 0 <= i < |ms| - 1 ==> Calls(ms[i]) != [] || ms[i].ToolResult?)
  }

  /** Tool turns only. */
  predicate ToolTurnsOnly(ms: seq<Message>) {
    && OutputShape(ms)
    && (ms != [] ==> ms[|ms| - 1].ToolResult?)
  }

  lemma {:induction false} LogAppend(a: seq<Message>, b: seq<Message>)
    requires Log(a) && Log(b)
    ensures Log(a + b)
    decreases |a|
  {
    if a == [] {
      assert a + b == b;
    } else {
      LogAppend(Rest(a), b);
      LogAppendStep(a, b);
    }
  }

  lemma {:induction false} LogAppendStep(a: seq<Message>, b: seq<Message>)
    requires Log(a) && a != [] && Log(Rest(a) + b)
    ensures Log(a + b)
  {
    var c := a + b;
    assert c[0] == a[0];
    assert Results(c) == Results(a);
    assert Rest(c) == Rest(a) + b;
  }

  lemma {:induction false} TurnLog(m: Message, results: seq<Message>)
    requires m.Assistant? && m.calls != [] && Answers(results, m.calls)
    ensures ToolTurnsOnly([m] + results)
  {
    var ms := [m] + results;
    assert Results(ms) == results;
    assert Rest(ms) == [];
  }

  lemma {:induction false} ToolTurnsAppend(a: seq<Message>, b: seq<Message>)
    requires ToolTurnsOnly(a) && OutputShape(b)
    ensures OutputShape(a + b)
    ensures ToolTurnsOnly(b) ==> ToolTurnsOnly(a + b)
  {
    hide Log;
    LogAppend(a, b);
  }

  lemma {:induction false} FinalTurn(content: string)
    requires content != ""
    ensures OutputShape([Assistant(content, [])])
  {
    var ms := [Assistant(content, [])];
    assert Results(ms) == [];
    assert Rest(ms) == [];
  }

  lemma {:induction false} TurnParts(env: Env, before: seq<Message>, prefill: string) returns (m: Message, results: seq<Message>)
    requires IsToolTurn(env, before)
    ensures TurnOf(env, before, prefill) == [m] + results
    ensures m.Assistant? && m.calls != [] && Answers(results, m.calls)
    ensures results == ResultsOf(env, before + [m], m.calls)
  {
    var events := env.stream(before).events;
    m := Assistant(ReadText(events, prefill), ReadCalls(events, []));
    results := ResultsOf(env, before + [m], m.calls);
  }

  lemma {:induction false} AfterTurnsShape(env: Env, history: seq<Message>, prefill: string, k: nat)
    ensures ToolTurnsOnly(AfterTurns(env, history, prefill, k))
  {
    if k == 0 {
      assert Log([]);
    } else {
      var prev := AfterTurns(env, history, prefill, k - 1);
      AfterTurnsShape(env, history, prefill, k - 1);
      if IsToolTurn(env, history + prev) {
        var m, results := TurnParts(env, history + prev, Prefill(k - 1, prefill));
        TurnLog(m, results);
        ToolTurnsAppend(prev, [m] + results);
      } else {
        assert prev + [] == prev;
      }
    }
  }

  lemma {:induction false} TurnContent(prev: seq<Message>, m: Message, results: seq<Message>)
    requires m.Assistant? && forall r :: r in results ==> r.ToolResult?
    ensures ContentOf(prev + ([m] + results)) == ContentOf(prev) + m.content
  {
    Associative(prev, [m], results);
    ContentOfResults(prev + [m], results);
    ContentOfSnoc(prev, m);
  }

  lemma {:induction false} AfterTurnsNext(env: Env, history: seq<Message>, prefill: string, i: nat, newMessages: seq<Message>)
    requires newMessages == AfterTurns(env, history, prefill, i)
    requires IsToolTurn(env, history + newMessages)
    ensures AfterTurns(env, history, prefill, i + 1) == newMessages + TurnOf(env, history + newMessages, Prefill(i, prefill))
  {
  }

  /** The working lists a run has sent to the model: each is the history followed by the whole tool
      turns of the iterations before it. */
  ghost predicate Requested(env: Env, history: seq<Message>, prefill: string, requests: seq<seq<Message>>) {
    requests == [] ||
    (var k := |requests| - 1;
     && requests[k] == history + AfterTurns(env, history, prefill, k)
     && (k > 0 ==> IsToolTurn(env, requests[k - 1]))
     && Requested(env, history, prefill, requests[..k]))
  }

  lemma {:induction false} RequestAt(env: Env, history: seq<Message>, prefill: string, requests: seq<seq<Message>>, i: nat)
    requires Requested(env, history, prefill, requests) && i < |requests|
    ensures requests[i] == history + AfterTurns(env, history, prefill, i)
    ensures i < |requests| - 1 ==> IsToolTurn(env, requests[i])
    decreases |requests|
  {
    if i < |requests| - 1 {
      RequestAt(env, history, prefill, requests[..|requests| - 1], i);
    }
  }

  function WithFinal(newMessages: seq<Message>, final: string): seq<Message> {
    if final == "" then newMessages else newMessages + [Assistant(final, [])]
  }

  /** How a run that made `k + 1` requests came to an end, and what it then returned. */
  ghost predicate Returned(env: Env, history: seq<Message>, prefill: string, k: nat,
                           text: string, newMessages: seq<Message>, err: RunError) {
    var done := AfterTurns(env, history, prefill, k);
    var last := env.stream(history + done);
    if last.NotOpened? then
      err == StreamFailed(last.error) && text == "" && newMessages == []
    else if ReadError(last.events).Some? then
      err == ModelFailed(ReadError(last.events).value) && newMessages == done
    else if ReadCalls(last.events, []) == [] then
      var final := FinalText(env, history, prefill, k);
      err == NoError && newMessages == WithFinal(done, final)
    else
      k == MAX_TOOL_ITERATIONS - 1 && err == NoError && newMessages == AfterTurns(env, history, prefill, k + 1)
  }

  /** The client sees the prefill as text of the first iteration; no other text precedes it. */
  method EmitPrefill(fullText: string, events: seq<Event>, pre: string) returns (fullText': string, events': seq<Event>)
    requires fullText == TextOf(events) && Running(events)
    requires pre != "" ==> fullText == ""
    ensures fullText' == TextOf(events') == fullText + pre && Running(events')
    ensures events' == if pre == "" then events else events + [TextEvent(pre)]
  {
    fullText', events' := fullText, events;
    if pre != "" {
      fullText' := pre;
      Send(events, TextEvent(pre));
      events' := events + [TextEvent(pre)];
    }
  }

  // ----- What the tool results of a run contain -----

  /** Message `j` answers a call of the turn that message `i` opens. */
  predicate AnswersCallOf(ms: seq<Message>, i: int, j: int) {
    && 0 <= i < j < |ms| && ms[i].Assistant? && j - i - 1 < |ms[i].calls|
    && forall l :: i < l <= j ==> ms[l].ToolResult?
  }

  ghost predicate HeardAt(env: Env, history: seq<Message>, ms: seq<Message>, j: int)
    requires 0 <= j < |ms|
  {
    exists i :: AnswersCallOf(ms, i, j)
      && ToolSays(env, env.tool(history + ms[..j], ms[i].calls[j - i - 1]), ms[i].calls[j - i - 1], ms[j])
  }

  /** Every tool result holds what the tool answered to its call, asked with everything before it in view. */
  ghost predicate ToolsHeard(env: Env, history: seq<Message>, ms: seq<Message>) {
    forall j :: 0 <= j < |ms| && ms[j].ToolResult? ==> HeardAt(env, history, ms, j)
  }

  lemma {:induction false} HeardBefore(env: Env, history: seq<Message>, prev: seq<Message>, more: seq<Message>, j: int)
    requires 0 <= j < |prev| && HeardAt(env, history, prev, j)
    ensures HeardAt(env, history, prev + more, j)
  {
    hide ToolSays;
    var i :| AnswersCallOf(prev, i, j)
             && ToolSays(env, env.tool(history + prev[..j], prev[i].calls[j - i - 1]), prev[i].calls[j - i - 1], prev[j]);
    assert (prev + more)[..j] == prev[..j];
    assert AnswersCallOf(prev + more, i, j);
  }

  lemma {:induction false} HeardInTurn(env: Env, history: seq<Message>, prev: seq<Message>, m: Message, results: seq<Message>, j: int)
    requires m.Assistant? && results == ResultsOf(env, (history + prev) + [m], m.calls) && 0 <= j < |results|
    ensures HeardAt(env, history, prev + ([m] + results), |prev| + 1 + j)
  {
    hide ToolSays, ResultsOf;
    var ms, at := prev + ([m] + results), |prev| + 1 + j;
    AnswerIds(m.calls, results);
    ResultsAt(env, (history + prev) + [m], m.calls, j);
    assert history + ms[..at] == ((history + prev) + [m]) + results[..j];
    assert ms[at] == results[j] && ms[|prev|] == m;
    assert AnswersCallOf(ms, |prev|, at);
  }

  lemma {:induction false} TurnHeard(env: Env, history: seq<Message>, prev: seq<Message>, m: Message, results: seq<Message>)
    requires ToolsHeard(env, history, prev)
    requires m.Assistant? && results == ResultsOf(env, (history + prev) + [m], m.calls)
    ensures ToolsHeard(env, history, prev + ([m] + results))
  {
    hide HeardAt, ResultsOf;
    var ms := prev + ([m] + results);
    forall j | 0 <= j < |ms| && ms[j].ToolResult?
      ensures HeardAt(env, history, ms, j)
    {
      if j < |prev| {
        HeardBefore(env, history, prev, [m] + results, j);
      } else {
        assert j != |prev|;
        HeardInTurn(env, history, prev, m, results, j - |prev| - 1);
      }
    }
  }

  lemma {:induction false} AfterTurnsHeard(env: Env, history: seq<Message>, prefill: string, k: nat)
    ensures ToolsHeard(env, history, AfterTurns(env, history, prefill, k))
  {
    hide ToolsHeard, ResultsOf, IsToolTurn;
    if k == 0 {
      NothingHeard(env, history);
    } else {
      var prev := AfterTurns(env, history, prefill, k - 1);
      AfterTurnsHeard(env, history, prefill, k - 1);
      if IsToolTurn(env, history + prev) {
        var m, results := TurnParts(env, history + prev, Prefill(k - 1, prefill));
        TurnHeard(env, history, prev, m, results);
      } else {
        assert prev + [] == prev;
      }
    }
  }

  lemma NothingHeard(env: Env, history: seq<Message>)
    ensures ToolsHeard(env, history, [])
  {
  }

  lemma {:induction false} FinalHeard(env: Env, history: seq<Message>, ms: seq<Message>, final: string)
    requires ToolsHeard(env, history, ms)
    ensures ToolsHeard(env, history, WithFinal(ms, final))
  {
    hide HeardAt;
    forall j | 0 <= j < |ms| && ms[j].ToolResult?
      ensures HeardAt(env, history, WithFinal(ms, final), j)
    {
      HeardBefore(env, history, ms, [Assistant(final, [])], j);
    }
  }

  // ----- A whole run -----

  /** What a run has so far: the text, the messages it added, the events sent and the lists the model
      was asked with. */
  datatype Progress = Progress(text: string, newMessages: seq<Message>, events: seq<Event>, requests: seq<seq<Message>>)

  /** The state of a run before its iteration `i`, while everything so far was a tool turn. */
  ghost predicate Underway(env: Env, history: seq<Message>, prefill: string, i: nat, p: Progress) {
    && |p.requests| == i
    && Requested(env, history, prefill, p.requests)
    && (i > 0 ==> IsToolTurn(env, p.requests[i - 1]))
    && p.newMessages == AfterTurns(env, history, prefill, i)
    && p.text == TextOf(p.events) == ContentOf(p.newMessages)
    && Running(p.events)
  }

  /** What every return from a run promises. */
  ghost predicate Promised(env: Env, history: seq<Message>, prefill: string, p: Progress, err: RunError) {
    && 1 <= |p.requests| <= MAX_TOOL_ITERATIONS
    && Requested(env, history, prefill, p.requests)
    && Returned(env, history, prefill, |p.requests| - 1, p.text, p.newMessages, err)
    && OutputShape(p.newMessages)
    && ToolsHeard(env, history, p.newMessages)
    && match err
       case NoError => p.text == TextOf(p.events) == ContentOf(p.newMessages) && Ended(p.events, DoneEvent)
       case ModelFailed(e) => p.text == TextOf(p.events) && Ended(p.events, ErrorEvent(e))
       case StreamFailed(_) => Running(p.events)
  }

  lemma {:induction false} Begin(env: Env, history: seq<Message>, prefill: string)
    ensures Underway(env, history, prefill, 0, Progress("", [], [], []))
  {
  }

  /** The model is asked once more. */
  function Asked(history: seq<Message>, p: Progress): seq<seq<Message>> {
    p.requests + [history + p.newMessages]
  }

  lemma {:induction false} Request(env: Env, history: seq<Message>, prefill: string, i: nat, p: Progress)
    requires Underway(env, history, prefill, i, p)
    ensures Requested(env, history, prefill, Asked(history, p))
    ensures |Asked(history, p)| == i + 1 && Asked(history, p)[i] == history + p.newMessages
  {
    hide AfterTurns, IsToolTurn, TextOf, ContentOf, Running;
    assert Asked(history, p)[..i] == p.requests;
  }

  /** Opening the stream failed: nothing is returned, and the client is told nothing more. */
  lemma {:induction false} NotOpenedEnds(env: Env, history: seq<Message>, prefill: string, i: nat, p: Progress)
    requires Underway(env, history, prefill, i, p) && i < MAX_TOOL_ITERATIONS
    requires env.stream(history + p.newMessages).NotOpened?
    ensures Promised(env, history, prefill, Progress("", [], p.events, Asked(history, p)),
                     StreamFailed(env.stream(history + p.newMessages).error))
  {
    hide AfterTurns, IsToolTurn, TextOf, ContentOf, Running, Requested, Asked;
    Request(env, history, prefill, i, p);
    NothingHeard(env, history);
    assert OutputShape([]);
  }

  /** The stream broke off: the turns before it are returned. */
  lemma {:induction false} ErrorEnds(env: Env, history: seq<Message>, prefill: string, i: nat, p: Progress,
                                     sent: seq<Event>, error: string)
    requires Underway(env, history, prefill, i, p) && i < MAX_TOOL_ITERATIONS
    requires env.stream(history + p.newMessages).Opened?
    requires ReadError(env.stream(history + p.newMessages).events) == Some(error)
    requires Ended(sent, ErrorEvent(error))
    ensures Promised(env, history, prefill, Progress(TextOf(sent), p.newMessages, sent, Asked(history, p)), ModelFailed(error))
  {
    hide AfterTurns, IsToolTurn, TextOf, ContentOf, Running, Requested, Asked, ReadError, OutputShape, ToolsHeard;
    Request(env, history, prefill, i, p);
    AfterTurnsShape(env, history, prefill, i);
    AfterTurnsHeard(env, history, prefill, i);
  }

  lemma {:induction false} FinalShape(newMessages: seq<Message>, final: string)
    requires ToolTurnsOnly(newMessages)
    ensures OutputShape(WithFinal(newMessages, final))
    ensures ContentOf(WithFinal(newMessages, final)) == ContentOf(newMessages) + final
  {
    if final != "" {
      FinalTurn(final);
      ToolTurnsAppend(newMessages, [Assistant(final, [])]);
      ContentOfSnoc(newMessages, Assistant(final, []));
    }
  }

  /** The model asked for no more tools: its text, if any, is the last turn. */
  lemma {:induction false} TextEnds(env: Env, history: seq<Message>, prefill: string, i: nat, p: Progress,
                                    sent: seq<Event>, final: string)
    requires Underway(env, history, prefill, i, p) && i < MAX_TOOL_ITERATIONS
    requires Running(sent)
    requires env.stream(history + p.newMessages).Opened?
    requires ReadError(env.stream(history + p.newMessages).events) == None
    requires ReadCalls(env.stream(history + p.newMessages).events, []) == []
    requires final == FinalText(env, history, prefill, i)
    requires TextOf(sent) == p.text + final
    ensures Promised(env, history, prefill,
                     Progress(TextOf(sent), WithFinal(p.newMessages, final), sent + [DoneEvent], Asked(history, p)), NoError)
  {
    hide AfterTurns, IsToolTurn, ReadText, ReadCalls, ReadError, OutputShape, Requested, TextOf, ContentOf, Running, Asked, WithFinal, ToolsHeard;
    Request(env, history, prefill, i, p);
    AfterTurnsShape(env, history, prefill, i);
    AfterTurnsHeard(env, history, prefill, i);
    FinalHeard(env, history, p.newMessages, final);
    Send(sent, DoneEvent);
    FinalShape(p.newMessages, final);
  }

  /** All iterations were tool turns. */
  lemma {:induction false} LimitEnds(env: Env, history: seq<Message>, prefill: string, p: Progress)
    requires Underway(env, history, prefill, MAX_TOOL_ITERATIONS, p)
    ensures Promised(env, history, prefill, p.(events := p.events + [DoneEvent]), NoError)
  {
    hide TextOf, ContentOf, Running, AfterTurns, ToolsHeard;
    Send(p.events, DoneEvent);
    AfterTurnsShape(env, history, prefill, MAX_TOOL_ITERATIONS);
    AfterTurnsHeard(env, history, prefill, MAX_TOOL_ITERATIONS);
  }

  /** The model asked for tools: the iteration adds one tool turn. */
  lemma {:induction false} NextTurn(env: Env, history: seq<Message>, prefill: string, i: nat, p: Progress,
                                    m: Message, results: seq<Message>, sent: seq<Event>, reported: seq<Event>)
    requires Underway(env, history, prefill, i, p)
    requires IsToolTurn(env, history + p.newMessages) && m.Assistant?
    requires [m] + results == TurnOf(env, history + p.newMessages, Prefill(i, prefill))
    requires forall r :: r in results ==> r.ToolResult?
    requires Running(sent) && TextOf(sent) == p.text + m.content
    requires reported == ReportAll(env, history + p.newMessages + [m], m.calls, sent)
    ensures Underway(env, history, prefill, i + 1,
                     Progress(TextOf(sent), p.newMessages + ([m] + results), reported, Asked(history, p)))
  {
    hide AfterTurns, IsToolTurn, TurnOf, ReportAll, TextOf, ContentOf, Running, Requested, Asked;
    Request(env, history, prefill, i, p);
    ReportsRunning(env, history + p.newMessages + [m], m.calls, sent);
    TurnContent(p.newMessages, m, results);
    AfterTurnsNext(env, history, prefill, i, p.newMessages);
  }

  /** The calls of a turn: their message, their results and the reports to the client. */
  method RunTurn(env: Env, history: seq<Message>, prefill: string, i: nat, p: Progress, messages: seq<Message>,
                 iterText: string, toolCalls: seq<ToolCall>, fullText: string, sent: seq<Event>)
    returns (p': Progress, messages': seq<Message>)
    requires Underway(env, history, prefill, i, p) && messages == history + p.newMessages
    requires env.stream(messages).Opened? && ReadError(env.stream(messages).events) == None
    requires iterText == ReadText(env.stream(messages).events, Prefill(i, prefill))
    requires toolCalls == ReadCalls(env.stream(messages).events, []) && toolCalls != []
    requires Running(sent) && fullText == TextOf(sent) == p.text + iterText
    ensures Underway(env, history, prefill, i + 1, p') && messages' == history + p'.newMessages
    ensures sent <= p'.events
  {
    hide Underway, AfterTurns, ReportAll, ReadText, ReadCalls, ReadError, TextOf, Running;
    var assistantMsg := Assistant(iterText, toolCalls);
    var results, events := RunTools(env, messages + [assistantMsg], toolCalls, sent);
    var turn := [assistantMsg] + results;
    AnswerIds(toolCalls, results);
    NextTurn(env, history, prefill, i, p, assistantMsg, results, sent, events);
    Associative(history, p.newMessages, turn);
    p' := Progress(fullText, p.newMessages + turn, events, p.requests + [messages]);
    messages' := messages + turn;
  }

  /** One iteration: the stream, and then an end or one more tool turn. */
  method Iterate(env: Env, history: seq<Message>, prefill: string, i: nat, p: Progress, messages: seq<Message>)
    returns (p': Progress, messages': seq<Message>, err: RunError, ended: bool)
    requires Underway(env, history, prefill, i, p) && i < MAX_TOOL_ITERATIONS && messages == history + p.newMessages
    ensures ended ==> Promised(env, history, prefill, p', err)
    ensures !ended ==> Underway(env, history, prefill, i + 1, p') && messages' == history + p'.newMessages
    ensures p.events <= p'.events
    ensures i == 0 && p.events == [] && prefill != "" && env.stream(history).Opened? ==> Greeted(p'.events, prefill)
  {
    hide Promised, AfterTurns, Requested, ReadText, ReadCalls, ReadError, TextOf, ContentOf, Running, Ended;
    messages', err, ended := messages, NoError, true;
    NoTextYet(env, history, prefill, i, p);
    assert history + [] == history;
    var ch := env.stream(messages);
    if ch.NotOpened? {
      NotOpenedEnds(env, history, prefill, i, p);
      p', err := Progress("", [], p.events, p.requests + [messages]), StreamFailed(ch.error);
      return;
    }

    var pre := Prefill(i, prefill);
    var fullText, events := EmitPrefill(p.text, p.events, pre);
    var iterText, toolCalls, sent, failure;
    iterText, fullText, toolCalls, sent, failure := ReadStream(ch.events, pre, fullText, events);
    ReadTextAppend(ch.events, p.text, pre);
    if failure.Some? {
      ErrorEnds(env, history, prefill, i, p, sent, failure.value);
      p', err := Progress(fullText, p.newMessages, sent, p.requests + [messages]), ModelFailed(failure.value);
      return;
    }

    if |toolCalls| > 0 {
      p', messages' := RunTurn(env, history, prefill, i, p, messages, iterText, toolCalls, fullText, sent);
      ended := false;
      return;
    }

    TextEnds(env, history, prefill, i, p, sent, iterText);
    var newMessages := p.newMessages;
    if iterText != "" {
      newMessages := newMessages + [Assistant(iterText, [])];
    }
    p' := Progress(fullText, newMessages, sent + [DoneEvent], p.requests + [messages]);
  }

  /** The client was greeted with the prefill before anything else. */
  predicate Greeted(events: seq<Event>, prefill: string) {
    events != [] && events[0] == TextEvent(prefill)
  }

  /** Before the first iteration nothing was sent. */
  lemma {:induction false} NoTextYet(env: Env, history: seq<Message>, prefill: string, i: nat, p: Progress)
    requires Underway(env, history, prefill, i, p)
    ensures Prefill(i, prefill) != "" ==> p.text == ""
    ensures i == 0 ==> |p.requests| == 0 && p.newMessages == []
  {
  }

  // ----- What a run does, request by request -----

  /** The stream opened and asked for tools: the message it makes is added, and then what each tool answers
      to its call, asked with everything before it. */
  ghost predicate TurnAdds(env: Env, before: seq<Message>, pre: string, after: seq<Message>) {
    && env.stream(before).Opened? && ReadError(env.stream(before).events) == None
    && var events := env.stream(before).events;
       var m := Assistant(ReadText(events, pre), ReadCalls(events, []));
       && m.calls != []
       && exists results :: Answered(env, before + [m], m.calls, results) && after == before + [m] + results
  }

  ghost predicate Answered(env: Env, before: seq<Message>, calls: seq<ToolCall>, results: seq<Message>) {
    && |results| == |calls|
    && forall j :: 0 <= j < |calls| ==> ToolSays(env, env.tool(before + results[..j], calls[j]), calls[j], results[j])
  }

  /** The model is asked with the history first, and after each turn with that turn added; only the first
      turn has the prefill before its text. */
  ghost predicate AsksOn(env: Env, history: seq<Message>, prefill: string, requests: seq<seq<Message>>) {
    && requests != [] && requests[0] == history
    && forall k :: 0 <= k < |requests| - 1 ==> TurnAdds(env, requests[k], if k == 0 then prefill else "", requests[k + 1])
  }

  /** The last stream decides: an error is returned as such, text without calls ends the run, and a turn
      with calls does only at the fifteenth request. */
  ghost predicate EndsBy(env: Env, history: seq<Message>, prefill: string, requests: seq<seq<Message>>,
                         newMessages: seq<Message>, err: RunError)
    requires requests != []
  {
    var last, pre := requests[|requests| - 1], if |requests| == 1 then prefill else "";
    match env.stream(last)
    case NotOpened(e) => err == StreamFailed(e) && newMessages == []
    case Opened(events) =>
      if ReadError(events).Some? then err == ModelFailed(ReadError(events).value) && history + newMessages == last
      else if ReadCalls(events, []) != [] then
        |requests| == 15 && err == NoError && TurnAdds(env, last, pre, history + newMessages)
      else
        && err == NoError
        && (ReadText(events, pre) == "" ==> history + newMessages == last)
        && (ReadText(events, pre) != "" ==> history + newMessages == last + [Assistant(ReadText(events, pre), [])])
  }

  lemma {:induction false} TurnIsAdded(env: Env, before: seq<Message>, pre: string)
    requires IsToolTurn(env, before)
    ensures TurnAdds(env, before, pre, before + TurnOf(env, before, pre))
  {
    hide ToolSays, ResultsOf, ReadText, ReadCalls, ReadError;
    var events := env.stream(before).events;
    var m := Assistant(ReadText(events, pre), ReadCalls(events, []));
    var results := ResultsOf(env, before + [m], m.calls);
    AnswerIds(m.calls, results);
    forall j | 0 <= j < |m.calls|
      ensures ToolSays(env, env.tool(before + [m] + results[..j], m.calls[j]), m.calls[j], results[j])
    {
      ResultsAt(env, before + [m], m.calls, j);
    }
    Associative(before, [m], results);
    assert Answered(env, before + [m], m.calls, results);
  }

  lemma {:induction false} AskedNext(env: Env, history: seq<Message>, prefill: string, done: seq<Message>, k: nat)
    requires done == AfterTurns(env, history, prefill, k) && IsToolTurn(env, history + done)
    ensures TurnAdds(env, history + done, if k == 0 then prefill else "", history + AfterTurns(env, history, prefill, k + 1))
  {
    hide AfterTurns, TurnOf, TurnAdds, IsToolTurn;
    var pre := Prefill(k, prefill);
    TurnIsAdded(env, history + done, pre);
    AfterTurnsNext(env, history, prefill, k, done);
    Associative(history, done, TurnOf(env, history + done, pre));
  }

  lemma {:induction false} RequestsFollow(env: Env, history: seq<Message>, prefill: string, requests: seq<seq<Message>>)
    requires requests != [] && Requested(env, history, prefill, requests)
    ensures AsksOn(env, history, prefill, requests)
  {
    hide TurnAdds, Requested, IsToolTurn;
    RequestAt(env, history, prefill, requests, 0);
    assert history + [] == history;
    forall k | 0 <= k < |requests| - 1
      ensures TurnAdds(env, requests[k], if k == 0 then prefill else "", requests[k + 1])
    {
      RequestAt(env, history, prefill, requests, k);
      RequestAt(env, history, prefill, requests, k + 1);
      AskedNext(env, history, prefill, AfterTurns(env, history, prefill, k), k);
    }
  }

  lemma {:induction false} ReturnFollows(env: Env, history: seq<Message>, prefill: string, requests: seq<seq<Message>>,
                                         text: string, newMessages: seq<Message>, err: RunError)
    requires requests != [] && Requested(env, history, prefill, requests)
    requires Returned(env, history, prefill, |requests| - 1, text, newMessages, err)
    ensures EndsBy(env, history, prefill, requests, newMessages, err)
  {
    hide TurnAdds, Requested, AfterTurns, ReadText, ReadCalls, ReadError;
    var k := |requests| - 1;
    var done := AfterTurns(env, history, prefill, k);
    RequestAt(env, history, prefill, requests, k);
    if IsToolTurn(env, history + done) {
      AskedNext(env, history, prefill, done, k);
    } else if env.stream(history + done).Opened? {
      Associative(history, done, [Assistant(FinalText(env, history, prefill, k), [])]);
    }
  }

  lemma Kept(env: Env, history: seq<Message>, prefill: string, p: Progress, err: RunError)
    requires Promised(env, history, prefill, p, err)
    ensures ToolsHeard(env, history, p.newMessages) && 1 <= |p.requests| <= 15
    ensures AsksOn(env, history, prefill, p.requests)
    ensures EndsBy(env, history, prefill, p.requests, p.newMessages, err)
  {
    hide Requested, Returned, AsksOn, EndsBy, ToolsHeard, OutputShape, TextOf, ContentOf, Running, Ended;
    RequestsFollow(env, history, prefill, p.requests);
    ReturnFollows(env, history, prefill, p.requests, p.text, p.newMessages, err);
  }

  method Run(env: Env, history: seq<Message>, prefill: string)
    returns (fullText: string, newMessages: seq<Message>, err: RunError, events: seq<Event>, requests: seq<seq<Message>>)
    ensures Promised(env, history, prefill, Progress(fullText, newMessages, events, requests), err)
    ensures forall j :: 0 <= j < |newMessages| && newMessages[j].ToolResult? ==> HeardAt(env, history, newMessages, j)
    ensures 1 <= |requests| <= 15 && AsksOn(env, history, prefill, requests)
    ensures EndsBy(env, history, prefill, requests, newMessages, err)
    ensures prefill != "" && env.stream(history).Opened? ==> Greeted(events, prefill)
  {
    hide Underway, Promised, HeardAt, AsksOn, EndsBy;
    var messages := history;
    var p := Progress("", [], [], []);
    Begin(env, history, prefill);

    for i := 0 to MAX_TOOL_ITERATIONS
      invariant messages == history + p.newMessages
      invariant Underway(env, history, prefill, i, p)
      invariant i == 0 ==> p.events == []
      invariant i > 0 && prefill != "" && env.stream(history).Opened? ==> Greeted(p.events, prefill)
    {
      var ended;
      p, messages, err, ended := Iterate(env, history, prefill, i, p, messages);
      if ended {
        Kept(env, history, prefill, p, err);
        return p.text, p.newMessages, err, p.events, p.requests;
      }
    }

    LimitEnds(env, history, prefill, p);
    Kept(env, history, prefill, p.(events := p.events + [DoneEvent]), NoError);
    return p.text, p.newMessages, NoError, p.events + [DoneEvent], p.requests;
  }
}
