/** A stored conversation: each chat saves the user's message, loads the recent history, runs the
    agent on it and saves what the agent added. */
module Chat {
  import opened Messages
  import opened History
  import opened RoundTrip
  import opened Window
  import opened Agent
  import opened Sequences

  const HISTORY_LIMIT: nat := 50

  /** One chat: the user's message and the messages the run added. */
  datatype Exchange = Exchange(message: string, output: seq<Message>)

  ghost predicate AllOutputs(exchanges: seq<Exchange>) {
    forall x :: x in exchanges ==> OutputShape(x.output)
  }

  function Transcript(exchanges: seq<Exchange>): seq<Message> {
    if exchanges == [] then []
    else
      var x := exchanges[|exchanges| - 1];
      Extend(Transcript(exchanges[..|exchanges| - 1]), x.message, x.output)
  }

  function Extend(log: seq<Message>, message: string, output: seq<Message>): seq<Message> {
    (log + [User(message)]) + output
  }

  /** A log whose rows can be told apart again. */
  ghost predicate Recorded(log: seq<Message>) {
    Log(log) && Separate(log)
  }

  lemma {:induction false} OutputSeparate(ms: seq<Message>)
    requires OutputShape(ms)
    ensures Separate(ms)
  {
    forall i | 0 < i < |ms|
      ensures !MergesAt(ms, i)
    {
      if ms[i - 1].Assistant? {
        NotAfterCalls(ms, i);
      }
    }
  }

  /** In a log, a message with calls is followed by a result. */
  lemma {:induction false} NotAfterCalls(ms: seq<Message>, i: nat)
    requires Log(ms) && 0 < i < |ms| && Calls(ms[i - 1]) != []
    ensures ms[i].ToolResult?
    decreases |ms|
  {
    var k := |Calls(ms[0])|;
    assert k > 0 ==> ms[k] == Results(ms)[k - 1];
    if i <= k {
      assert ms[i] == Results(ms)[i - 1];
    } else if i > k + 1 {
      assert ms[i] == Rest(ms)[i - 1 - k] && ms[i - 1] == Rest(ms)[i - 2 - k];
      NotAfterCalls(Rest(ms), i - 1 - k);
    }
  }

  lemma {:induction false} UserLog(message: string)
    ensures Log([User(message)])
  {
    var ms := [User(message)];
    assert Results(ms) == [] && Rest(ms) == [];
  }

  lemma {:induction false} ExtendUser(log: seq<Message>, message: string)
    requires Recorded(log)
    ensures Recorded(log + [User(message)])
  {
    UserLog(message);
    LogAppend(log, [User(message)]);
    SeparateSnoc(log, User(message));
  }

  lemma {:induction false} ExtendOutput(log: seq<Message>, message: string, output: seq<Message>)
    requires Recorded(log) && OutputShape(output)
    ensures Recorded(Extend(log, message, output))
  {
    ExtendUser(log, message);
    LogAppend(log + [User(message)], output);
    OutputSeparate(output);
    SeparateParts(log + [User(message)], output);
  }

  lemma {:induction false} TranscriptRecorded(exchanges: seq<Exchange>)
    requires AllOutputs(exchanges)
    ensures Recorded(Transcript(exchanges))
  {
    if exchanges == [] {
      assert Log([]);
    } else {
      var front, x := exchanges[..|exchanges| - 1], exchanges[|exchanges| - 1];
      assert x in exchanges;
      TranscriptRecorded(front);
      ExtendOutput(Transcript(front), x.message, x.output);
    }
  }

  /** For every sequence of chats, loading all saved rows gives back the same messages, with
      `isError` cleared. */
  lemma TranscriptRoundTrip(exchanges: seq<Exchange>)
    requires AllOutputs(exchanges)
    ensures Load(SavedRows(Transcript(exchanges))) == Stored(Transcript(exchanges))
  {
    TranscriptRecorded(exchanges);
    LogPaired(Transcript(exchanges));
    SaveThenLoad(Transcript(exchanges));
  }

  /** For every sequence of chats and every limit, loading the last rows gives exactly what should
      remain of the transcript, if and only if the cut separates no two calls of a turn that share an id;
      it never does when no single turn uses a call id twice. */
  lemma TranscriptWindow(exchanges: seq<Exchange>, limit: nat)
    requires AllOutputs(exchanges)
    ensures Log(Transcript(exchanges))
    ensures
      var log := Transcript(exchanges);
      var d := CutOff(|SavedRows(log)|, limit);
      && (Load(LastRows(SavedRows(log), limit)) == Stored(Remaining(log, d)) <==> CleanCut(log, d))
      && (DistinctTurns(log) ==> CleanCut(log, d))
  {
    TranscriptRecorded(exchanges);
    LoadWindow(Transcript(exchanges), limit);
  }

  /** The user's message between two outputs matters: an output that ends in text, followed at once by
      one that opens with calls and no text, does not survive the round trip. */
  lemma OutputsAloneCanMerge(text: string, c: ToolCall, content: string)
    requires text != ""
    ensures
      var first := [Assistant(text, [])];
      var second := [Assistant("", [c]), ToolResult(c.id, content, false)];
      && OutputShape(first) && OutputShape(second)
      && Load(SavedRows(first + second)) != Stored(first + second)
  {
    var first := [Assistant(text, [])];
    var second := [Assistant("", [c])] + [ToolResult(c.id, content, false)];
    FinalTurn(text);
    TurnLog(Assistant("", [c]), [ToolResult(c.id, content, false)]);
    LogAppend(first, second);
    LogPaired(first + second);
    assert MergesAt(first + second, 1);
    SaveThenLoad(first + second);
    assert second == [Assistant("", [c]), ToolResult(c.id, content, false)];
  }

  /** Every list sent to the model during a run is paired when the history it started from is. */
  lemma RequestsPaired(env: Env, history: seq<Message>, prefill: string, requests: seq<seq<Message>>, i: nat)
    requires Paired(history)
    requires Requested(env, history, prefill, requests) && i < |requests|
    ensures Paired(requests[i])
  {
    RequestAt(env, history, prefill, requests, i);
    AfterTurnsShape(env, history, prefill, i);
    LogPaired(AfterTurns(env, history, prefill, i));
    PairedAppend(history, AfterTurns(env, history, prefill, i));
  }

  /** Only assistant messages and results are written by the save loop. */
  function SkipUsers(ms: seq<Message>): seq<Message> {
    if ms == [] then []
    else
      var m := ms[|ms| - 1];
      SkipUsers(ms[..|ms| - 1]) + if m.User? then [] else [m]
  }

  lemma {:induction false} SkipNoUsers(ms: seq<Message>)
    requires forall i :: 0 <= i < |ms| ==> !ms[i].User?
    ensures SkipUsers(ms) == ms
  {
    if ms != [] {
      SkipNoUsers(ms[..|ms| - 1]);
    }
  }

  lemma {:induction false} SkipUsersSnoc(ms: seq<Message>, i: nat)
    requires i < |ms|
    ensures SavedRows(SkipUsers(ms[..i + 1])) == SavedRows(SkipUsers(ms[..i])) + if ms[i].User? then [] else RowsOf(ms[i])
  {
    assert ms[..i + 1][..i] == ms[..i];
    if !ms[i].User? {
      SavedRowsSnoc(SkipUsers(ms[..i]), ms[i]);
    } else {
      assert SkipUsers(ms[..i]) + [] == SkipUsers(ms[..i]);
    }
  }

  /** The rows of one conversation, oldest first. */
  class Conversation {
    var rows: seq<Row>
    ghost var log: seq<Message>

    ghost predicate Valid()
      reads this
    {
      rows == SavedRows(log) && Recorded(log)
    }

    constructor ()
      ensures Valid() && rows == [] && log == []
    {
      rows, log := [], [];
      new;
      assert Log([]);
    }

    method Insert(row: Row)
      modifies this`rows
      ensures rows == old(rows) + [row]
    {
      rows := rows + [row];
    }

    /** Writes one assistant message: its text, when there is any, then one row per call. */
    method SaveAssistant(content: string, calls: seq<ToolCall>)
      modifies this`rows
      ensures rows == old(rows) + RowsOf(Assistant(content, calls))
    {
      if |calls| > 0 {
        ghost var start := rows + TextRows(content);
        if content != "" {
          Insert(AssistantRow(content));
        }
        for i := 0 to |calls|
          invariant rows == start + CallRows(calls[..i])
        {
          assert calls[..i + 1][..i] == calls[..i];
          Associative(start, CallRows(calls[..i]), [ToolCallRow(calls[i])]);
          Insert(ToolCallRow(calls[i]));
        }
        assert calls[..|calls|] == calls;
        Associative(old(rows), TextRows(content), CallRows(calls));
      } else {
        Insert(AssistantRow(content));
      }
    }

    /** The save loop. */
    method SaveMessages(newMessages: seq<Message>)
      modifies this`rows
      ensures rows == old(rows) + SavedRows(SkipUsers(newMessages))
    {
      for i := 0 to |newMessages|
        invariant rows == old(rows) + SavedRows(SkipUsers(newMessages[..i]))
      {
        SkipUsersSnoc(newMessages, i);
        ghost var m := newMessages[i];
        Associative(old(rows), SavedRows(SkipUsers(newMessages[..i])), if m.User? then [] else RowsOf(m));
        match newMessages[i] {
          case User(_) =>
          case Assistant(content, calls) =>
            SaveAssistant(content, calls);
          case ToolResult(id, content, _) =>
            Insert(ToolResultRow(id, content));
        }
      }
      assert newMessages[..|newMessages|] == newMessages;
    }

    /** One chat. Whatever the model and the tools do, every list sent to the model is paired, the
        rows stay those of a well-formed log, and the model starts from what remains of that log. */
    method Chat(env: Env, message: string, prefill: string)
      returns (history: seq<Message>, requests: seq<seq<Message>>, newMessages: seq<Message>,
               err: RunError, events: seq<Event>)
      requires Valid()
      modifies this
      ensures Valid()
      ensures log == old(log) + [User(message)] + newMessages
      ensures OutputShape(newMessages)
      ensures forall i :: 0 <= i < |requests| ==> Paired(requests[i])
      ensures 1 <= |requests| <= 15 && requests[0] == history
      ensures forall j :: 0 <= j < |newMessages| && newMessages[j].ToolResult? ==> HeardAt(env, history, newMessages, j)
      ensures AsksOn(env, history, prefill, requests) && EndsBy(env, history, prefill, requests, newMessages, err)
      ensures
        var asked := old(log) + [User(message)];
        && Log(asked)
        && (history == Stored(Remaining(asked, CutOff(|SavedRows(asked)|, 50)))
            <==> CleanCut(asked, CutOff(|SavedRows(asked)|, 50)))
    {
      Insert(UserRow(message));
      ghost var asked := log + [User(message)];
      SavedRowsSnoc(log, User(message));
      ExtendUser(log, message);

      history := LoadHistory(LastRows(rows, HISTORY_LIMIT));
      LoadWindow(asked, HISTORY_LIMIT);

      var fullText;
      fullText, newMessages, err, events, requests := Run(env, history, prefill);
      forall i | 0 <= i < |requests|
        ensures Paired(requests[i])
      {
        RequestsPaired(env, history, prefill, requests, i);
      }
      RequestAt(env, history, prefill, requests, 0);

      SaveMessages(newMessages);
      SkipNoUsers(newMessages);
      ExtendOutput(log, message, newMessages);
      SavedRowsAppend(asked, newMessages);
      log := Extend(log, message, newMessages);
    }
  }
}
