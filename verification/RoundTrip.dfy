/** Saving a conversation and loading all of it again. */
module RoundTrip {
  import opened Sequences
  import opened Messages
  import opened History

  /** No assistant message without text directly follows another assistant message: nothing in the
      rows would tell their calls apart. */
  predicate Separate(ms: seq<Message>) {
    forall i :: 0 < i < |ms| ==> !MergesAt(ms, i)
  }

  predicate MergesAt(ms: seq<Message>, i: nat)
    requires 0 < i < |ms|
  {
    ms[i].Assistant? && ms[i].content == "" && ms[i - 1].Assistant?
  }

  lemma SeparateSnoc(ms: seq<Message>, m: Message)
    ensures Separate(ms + [m]) <==> Separate(ms) && !(m.Assistant? && m.content == "" && EndsWithAssistant(ms))
  {
    var ms' := ms + [m];
    assert forall i :: 0 < i < |ms| ==> MergesAt(ms', i) == MergesAt(ms, i);
    assert ms != [] ==> MergesAt(ms', |ms|) == (m.Assistant? && m.content == "" && EndsWithAssistant(ms));
  }

  /** The messages without the results whose call does not come before them. */
  function Matched(ms: seq<Message>): seq<Message> {
    if ms == [] then []
    else
      var kept := Matched(ms[..|ms| - 1]);
      var m := ms[|ms| - 1];
      if m.ToolResult? && m.id !in CallIds(kept) then kept else kept + [m]
  }

  predicate EndsWithAssistant(ms: seq<Message>) {
    ms != [] && ms[|ms| - 1].Assistant?
  }

  lemma RebuildSnoc(rows: seq<Row>, row: Row)
    ensures Rebuild(rows + [row]) == ReadRow(Rebuild(rows), row)
  {
    assert (rows + [row])[..|rows|] == rows;
  }

  function AddCalls(ms: seq<Message>, calls: seq<ToolCall>): seq<Message>
    requires ms != [] && ms[|ms| - 1].Assistant?
  {
    ms[|ms| - 1 := ms[|ms| - 1].(calls := ms[|ms| - 1].calls + calls)]
  }

  lemma AddCallsAppend(ms: seq<Message>, a: seq<ToolCall>, b: seq<ToolCall>)
    requires EndsWithAssistant(ms)
    ensures EndsWithAssistant(AddCalls(ms, a))
    ensures AddCalls(AddCalls(ms, a), b) == AddCalls(ms, a + b)
  {
    var cs := ms[|ms| - 1].calls;
    assert (cs + a) + b == cs + (a + b);
  }

  /** The state after reading the rows of some calls that follow an assistant message. */
  function AddCallRows(st: Rebuilt, calls: seq<ToolCall>): Rebuilt
    requires EndsWithAssistant(st.msgs)
  {
    Rebuilt(AddCalls(st.msgs, calls), st.callIds + Ids(calls), st.resultIds)
  }

  lemma AddCallRowsAppend(st: Rebuilt, a: seq<ToolCall>, b: seq<ToolCall>)
    requires EndsWithAssistant(st.msgs)
    ensures EndsWithAssistant(AddCallRows(st, a).msgs)
    ensures AddCallRows(AddCallRows(st, a), b) == AddCallRows(st, a + b)
  {
    AddCallsAppend(st.msgs, a, b);
    IdsAppend(a, b);
  }

  lemma ReadCall(st: Rebuilt, c: ToolCall)
    requires EndsWithAssistant(st.msgs)
    ensures ReadRow(st, ToolCallRow(c)) == AddCallRows(st, [c])
  {
    IdsSingle(c);
  }

  /** Consecutive call rows all attach to the assistant message they follow. */
  lemma {:induction false} AttachCalls(rows: seq<Row>, calls: seq<ToolCall>)
    requires EndsWithAssistant(Rebuild(rows).msgs)
    ensures Rebuild(rows + CallRows(calls)) == AddCallRows(Rebuild(rows), calls)
    decreases |calls|
  {
    var st := Rebuild(rows);
    if calls == [] {
      assert rows + CallRows(calls) == rows;
      assert st.msgs[|st.msgs| - 1].calls + calls == st.msgs[|st.msgs| - 1].calls;
      assert AddCalls(st.msgs, calls) == st.msgs;
    } else {
      var front, c := calls[..|calls| - 1], calls[|calls| - 1];
      assert calls == front + [c];
      AttachCalls(rows, front);
      AttachOne(rows, front, c);
    }
  }

  lemma {:induction false} AttachOne(rows: seq<Row>, front: seq<ToolCall>, c: ToolCall)
    requires EndsWithAssistant(Rebuild(rows).msgs)
    requires Rebuild(rows + CallRows(front)) == AddCallRows(Rebuild(rows), front)
    ensures Rebuild(rows + CallRows(front + [c])) == AddCallRows(Rebuild(rows), front + [c])
  {
    hide Rebuild, ReadRow, CallRows, AddCallRows;
    var st := Rebuild(rows);
    CallRowsAppend(front, [c]);
    CallRowsSingle(c);
    Associative(rows, CallRows(front), [ToolCallRow(c)]);
    RebuildSnoc(rows + CallRows(front), ToolCallRow(c));
    AddCallRowsAppend(st, front, [c]);
    ReadCall(AddCallRows(st, front), c);
  }

  /** What the rows of one message do to the list rebuilt from the rows before them. */
  function ReadMessage(st: Rebuilt, m: Message): Rebuilt {
    match m
    case User(_) => st.(msgs := st.msgs + [m])
    case Assistant(content, calls) =>
      if content == "" && EndsWithAssistant(st.msgs) then
        AddCallRows(st, calls)
      else Rebuilt(st.msgs + [m], st.callIds + Ids(calls), st.resultIds)
    case ToolResult(id, _, _) =>
      if id !in st.callIds then st
      else st.(msgs := st.msgs + [m.(isError := false)], resultIds := st.resultIds + {id})
  }

  lemma AddToLast(st: Rebuilt, content: string, calls: seq<ToolCall>)
    ensures AddCallRows(st.(msgs := st.msgs + [Assistant(content, [])]), calls)
         == Rebuilt(st.msgs + [Assistant(content, calls)], st.callIds + Ids(calls), st.resultIds)
  {
    assert [] + calls == calls;
  }

  lemma {:induction false} RebuildText(rows: seq<Row>, content: string, calls: seq<ToolCall>)
    requires content != ""
    ensures Rebuild(rows + RowsOf(Assistant(content, calls))) == ReadMessage(Rebuild(rows), Assistant(content, calls))
  {
    hide Rebuild, AddCallRows;
    var text := [AssistantRow(content)];
    var st := Rebuild(rows);
    RowsOfText(content, calls);
    Associative(rows, text, CallRows(calls));
    RebuildSnoc(rows, AssistantRow(content));
    AttachCalls(rows + text, calls);
    AddToLast(st, content, calls);
  }

  lemma {:induction false} RowsOfText(content: string, calls: seq<ToolCall>)
    requires content != ""
    ensures RowsOf(Assistant(content, calls)) == [AssistantRow(content)] + CallRows(calls)
  {
    assert calls == [] ==> CallRows(calls) == [];
  }

  /** The first of some calls after a message that is not the assistant's opens a message of its own. */
  lemma {:induction false} ReadFirstCall(st: Rebuilt, c: ToolCall)
    requires !EndsWithAssistant(st.msgs)
    ensures
      var first := st.(msgs := st.msgs + [Assistant("", [])]);
      EndsWithAssistant(first.msgs) && ReadRow(st, ToolCallRow(c)) == AddCallRows(first, [c])
  {
    IdsSingle(c);
  }

  lemma {:induction false} RebuildCallsApart(rows: seq<Row>, c: ToolCall, rest: seq<ToolCall>)
    requires !EndsWithAssistant(Rebuild(rows).msgs)
    ensures Rebuild(rows + CallRows([c] + rest)) == AddCallRows(
              Rebuild(rows).(msgs := Rebuild(rows).msgs + [Assistant("", [])]), [c] + rest)
  {
    hide Rebuild, ReadRow, CallRows, AddCallRows;
    var st := Rebuild(rows);
    var first := st.(msgs := st.msgs + [Assistant("", [])]);
    CallRowsAppend([c], rest);
    CallRowsSingle(c);
    Associative(rows, [ToolCallRow(c)], CallRows(rest));
    RebuildSnoc(rows, ToolCallRow(c));
    ReadFirstCall(st, c);
    AddCallRowsAppend(first, [c], rest);
    AttachCalls(rows + [ToolCallRow(c)], rest);
  }

  lemma {:induction false} RebuildCallsOnly(rows: seq<Row>, calls: seq<ToolCall>)
    requires calls != []
    ensures Rebuild(rows + CallRows(calls)) == ReadMessage(Rebuild(rows), Assistant("", calls))
  {
    hide Rebuild, CallRows, AddCallRows;
    if EndsWithAssistant(Rebuild(rows).msgs) {
      AttachCalls(rows, calls);
    } else {
      assert calls == [calls[0]] + calls[1..];
      RebuildCallsApart(rows, calls[0], calls[1..]);
      AddToLast(Rebuild(rows), "", calls);
    }
  }

  lemma RebuildMessage(rows: seq<Row>, m: Message)
    requires !IsEmptyAssistant(m)
    ensures Rebuild(rows + RowsOf(m)) == ReadMessage(Rebuild(rows), m)
  {
    match m
    case User(content) => RebuildSnoc(rows, UserRow(content));
    case Assistant(content, calls) =>
      if content != "" {
        RebuildText(rows, content, calls);
      } else {
        assert RowsOf(m) == CallRows(calls);
        RebuildCallsOnly(rows, calls);
      }
    case ToolResult(id, content, _) => RebuildSnoc(rows, ToolResultRow(id, content));
  }

  lemma StoredSnoc(ms: seq<Message>, m: Message)
    ensures Stored(ms + [m]) == Stored(ms) + [if m.ToolResult? then m.(isError := false) else m]
  {
  }

  function RebuiltAs(ms: seq<Message>): Rebuilt {
    Rebuilt(Stored(ms), CallIds(ms), ResultIds(ms))
  }

  lemma ReadMatched(kept: seq<Message>, m: Message)
    requires m.Assistant? && m.content == "" ==> !EndsWithAssistant(kept)
    requires m.ToolResult? ==> m.id in CallIds(kept)
    ensures ReadMessage(RebuiltAs(kept), m) == RebuiltAs(kept + [m])
  {
    StoredSnoc(kept, m);
    CallIdsAppend(kept, [m]);
    CallIdsSingle(m);
  }

  lemma MatchedSnoc(ms: seq<Message>, m: Message)
    ensures Matched(ms + [m])
         == if m.ToolResult? && m.id !in CallIds(Matched(ms)) then Matched(ms) else Matched(ms) + [m]
    ensures Separate(Matched(ms + [m])) ==> Separate(Matched(ms))
  {
    assert (ms + [m])[..|ms|] == ms;
    SeparateSnoc(Matched(ms), m);
  }

  lemma {:induction false} RebuildSavedStep(ms: seq<Message>, m: Message)
    requires !IsEmptyAssistant(m)
    requires Rebuild(SavedRows(ms)) == RebuiltAs(Matched(ms))
    requires Separate(Matched(ms + [m]))
    ensures Rebuild(SavedRows(ms + [m])) == RebuiltAs(Matched(ms + [m]))
  {
    var kept := Matched(ms);
    SavedRowsSnoc(ms, m);
    MatchedSnoc(ms, m);
    RebuildMessage(SavedRows(ms), m);
    if !(m.ToolResult? && m.id !in CallIds(kept)) {
      SeparateSnoc(kept, m);
      ReadMatched(kept, m);
    }
  }

  /** Rebuilding saved messages gives back those whose results are matched. */
  lemma {:induction false} RebuildSaved(ms: seq<Message>)
    requires NoEmptyAssistant(ms)
    requires Separate(Matched(ms))
    ensures Rebuild(SavedRows(ms)) == RebuiltAs(Matched(ms))
    decreases |ms|
  {
    if ms != [] {
      var front, m := ms[..|ms| - 1], ms[|ms| - 1];
      assert ms == front + [m];
      MatchedSnoc(front, m);
      RebuildSaved(front);
      RebuildSavedStep(front, m);
    }
  }

  lemma {:induction false} KeepAllAnswered(calls: seq<ToolCall>, resultIds: set<string>)
    requires forall c :: c in calls ==> c.id in resultIds
    ensures KeepAnswered(calls, resultIds) == calls
  {
    if calls != [] {
      var front, c := calls[..|calls| - 1], calls[|calls| - 1];
      assert calls == front + [c];
      assert c in calls && forall c' :: c' in front ==> c' in calls;
      KeepAllAnswered(front, resultIds);
    }
  }

  lemma StripNothing(ms: seq<Message>, resultIds: set<string>)
    requires CallIds(ms) <= resultIds
    ensures Strip(ms, resultIds) == ms
  {
    forall i | 0 <= i < |ms|
      ensures StripMessage(ms[i], resultIds) == ms[i]
    {
      if ms[i].Assistant? {
        assert forall c :: c in ms[i].calls ==> c.id in CallIds(ms);
        KeepAllAnswered(ms[i].calls, resultIds);
      }
    }
  }

  lemma {:induction false} CleanNothing(ms: seq<Message>, keptIds: set<string>)
    requires forall m :: m in ms ==> Survives(m, keptIds)
    ensures Clean(ms, keptIds) == ms
  {
    if ms != [] {
      var front, m := ms[..|ms| - 1], ms[|ms| - 1];
      assert ms == front + [m];
      assert m in ms && forall m' :: m' in front ==> m' in ms;
      CleanNothing(front, keptIds);
    }
  }

  lemma {:induction false} MatchedOrdered(ms: seq<Message>)
    ensures Ordered(Matched(ms))
    ensures ResultIds(Matched(ms)) <= CallIds(Matched(ms))
    ensures NoEmptyAssistant(ms) ==> NoEmptyAssistant(Matched(ms))
    decreases |ms|
  {
    if ms != [] {
      var front, m := ms[..|ms| - 1], ms[|ms| - 1];
      assert ms == front + [m];
      MatchedOrdered(front);
      if !(m.ToolResult? && m.id !in CallIds(Matched(front))) {
        AppendMessage(Matched(front), m);
      }
    }
  }

  lemma StoredIds(ms: seq<Message>)
    ensures CallIds(Stored(ms)) == CallIds(ms)
    ensures ResultIds(Stored(ms)) == ResultIds(ms)
    ensures NoEmptyAssistant(ms) ==> NoEmptyAssistant(Stored(ms))
  {
    var s := Stored(ms);
    forall i | 0 <= i < |ms|
      ensures s[i].Assistant? == ms[i].Assistant? && (s[i].Assistant? ==> s[i] == ms[i])
      ensures s[i].ToolResult? == ms[i].ToolResult? && (s[i].ToolResult? ==> s[i].id == ms[i].id)
      ensures s[i] in s && ms[i] in ms
    {
    }
    assert ResultIds(ms) <= ResultIds(s) by {
      forall m | m in ms && m.ToolResult? ensures m.id in ResultIds(s) {
        var i :| 0 <= i < |ms| && ms[i] == m;
        assert s[i] in s;
      }
    }
  }

  /** Loading saved messages keeps exactly the matched ones, when every matched call is answered. */
  lemma LoadSaved(ms: seq<Message>)
    requires NoEmptyAssistant(ms)
    requires Separate(Matched(ms))
    requires CallIds(Matched(ms)) <= ResultIds(Matched(ms))
    ensures Load(SavedRows(ms)) == Stored(Matched(ms))
  {
    var kept := Matched(ms);
    RebuildSaved(ms);
    MatchedOrdered(ms);
    StoredIds(kept);
    StripNothing(Stored(kept), ResultIds(kept));
    var s := Stored(kept);
    forall m | m in s
      ensures Survives(m, CallIds(s))
    {
      assert m.ToolResult? ==> m.id in ResultIds(s);
    }
    CleanNothing(s, CallIds(s));
  }

  // ----- The exact condition -----

  lemma {:induction false} MatchedAll(ms: seq<Message>)
    requires Ordered(ms)
    ensures Matched(ms) == ms
    decreases |ms|
  {
    if ms != [] {
      var front := ms[..|ms| - 1];
      forall j | 0 <= j < |front| && front[j].ToolResult?
        ensures front[j].id in CallIds(front[..j])
      {
        assert ms[..j] == front[..j];
      }
      MatchedAll(front);
    }
  }

  lemma ReadMessageCount(st: Rebuilt, m: Message)
    ensures |ReadMessage(st, m).msgs| <= |st.msgs| + 1
    ensures m.Assistant? && m.content == "" && EndsWithAssistant(st.msgs) ==> |ReadMessage(st, m).msgs| == |st.msgs|
    ensures m.Assistant? ==> EndsWithAssistant(ReadMessage(st, m).msgs)
  {
  }

  /** Rebuilding never makes more messages than were saved, and makes fewer when two merge. */
  lemma {:induction false} RebuildCount(ms: seq<Message>)
    requires NoEmptyAssistant(ms)
    ensures |Rebuild(SavedRows(ms)).msgs| <= |ms|
    ensures !Separate(ms) ==> |Rebuild(SavedRows(ms)).msgs| < |ms|
    ensures EndsWithAssistant(ms) ==> EndsWithAssistant(Rebuild(SavedRows(ms)).msgs)
    decreases |ms|
  {
    if ms != [] {
      var front, m := ms[..|ms| - 1], ms[|ms| - 1];
      assert ms == front + [m];
      RebuildCount(front);
      SavedRowsSnoc(front, m);
      RebuildMessage(SavedRows(front), m);
      ReadMessageCount(Rebuild(SavedRows(front)), m);
      SeparateSnoc(front, m);
    }
  }

  lemma {:induction false} CleanCount(ms: seq<Message>, keptIds: set<string>)
    ensures |Clean(ms, keptIds)| <= |ms|
  {
    if ms != [] {
      CleanCount(ms[..|ms| - 1], keptIds);
    }
  }

  /** Save then load gives the same messages, `isError` cleared, exactly when no text-less assistant
      message directly follows another assistant message. */
  lemma SaveThenLoad(ms: seq<Message>)
    requires Paired(ms)
    ensures Load(SavedRows(ms)) == Stored(ms) <==> Separate(ms)
  {
    MatchedAll(ms);
    if Separate(ms) {
      LoadSaved(ms);
    } else {
      RebuildCount(ms);
      var st := Rebuild(SavedRows(ms));
      var s := Strip(st.msgs, st.resultIds);
      CleanCount(s, CallIds(s));
    }
  }
}
