/** Rebuilding the message history from saved rows, and repairing what a window cut apart. */
module History {
  import opened Messages

  datatype Rebuilt = Rebuilt(msgs: seq<Message>, callIds: set<string>, resultIds: set<string>)

  /** What reading one more row does to the messages rebuilt so far. */
  function ReadRow(st: Rebuilt, row: Row): Rebuilt {
    match row
    case UserRow(content) => st.(msgs := st.msgs + [User(content)])
    case AssistantRow(content) => st.(msgs := st.msgs + [Assistant(content, [])])
    case ToolCallRow(call) =>
      var base :=
        if st.msgs == [] || !st.msgs[|st.msgs| - 1].Assistant? then st.msgs + [Assistant("", [])] else st.msgs;
      var last := |base| - 1;
      st.(msgs := base[last := base[last].(calls := base[last].calls + [call])],
          callIds := st.callIds + {call.id})
    case ToolResultRow(id, content) =>
      if id !in st.callIds then st
      else st.(msgs := st.msgs + [ToolResult(id, content, false)], resultIds := st.resultIds + {id})
    case OtherRow => st
  }

  function Rebuild(rows: seq<Row>): Rebuilt {
    if rows == [] then Rebuilt([], {}, {})
    else ReadRow(Rebuild(rows[..|rows| - 1]), rows[|rows| - 1])
  }

  function KeepAnswered(calls: seq<ToolCall>, resultIds: set<string>): seq<ToolCall> {
    if calls == [] then []
    else
      var c := calls[|calls| - 1];
      KeepAnswered(calls[..|calls| - 1], resultIds) + if c.id in resultIds then [c] else []
  }

  function StripMessage(m: Message, resultIds: set<string>): Message {
    if m.Assistant? then m.(calls := KeepAnswered(m.calls, resultIds)) else m
  }

  function Strip(ms: seq<Message>, resultIds: set<string>): seq<Message> {
    seq(|ms|, i requires 0 <= i < |ms| => StripMessage(ms[i], resultIds))
  }

  predicate Survives(m: Message, keptIds: set<string>) {
    !IsEmptyAssistant(m) && (m.ToolResult? ==> m.id in keptIds)
  }

  function Clean(ms: seq<Message>, keptIds: set<string>): seq<Message> {
    if ms == [] then []
    else
      var m := ms[|ms| - 1];
      Clean(ms[..|ms| - 1], keptIds) + if Survives(m, keptIds) then [m] else []
  }

  function Load(rows: seq<Row>): seq<Message> {
    var st := Rebuild(rows);
    var stripped := Strip(st.msgs, st.resultIds);
    Clean(stripped, CallIds(stripped))
  }

  /** The rows the windowed query returns: the last `limit` of them, oldest first. */
  function LastRows(rows: seq<Row>, limit: nat): seq<Row> {
    if |rows| <= limit then rows else rows[|rows| - limit..]
  }

  /** Rebuild, strip and clean, each in place on a growing list. */
  method LoadHistory(rows: seq<Row>) returns (cleaned: seq<Message>)
    ensures cleaned == Load(rows)
    ensures Paired(cleaned)
  {
    var msgs, toolResultIDs := RebuildRows(rows);
    msgs := StripOrphans(msgs, toolResultIDs);
    cleaned := CleanMessages(msgs);
    LoadPairs(rows);
  }

  method RebuildRows(rows: seq<Row>) returns (msgs: seq<Message>, toolResultIDs: set<string>)
    ensures msgs == Rebuild(rows).msgs && toolResultIDs == Rebuild(rows).resultIds
  {
    msgs := [];
    toolResultIDs := {};
    var toolCallIDs: set<string> := {};

    for r := 0 to |rows|
      invariant Rebuilt(msgs, toolCallIDs, toolResultIDs) == Rebuild(rows[..r])
    {
      assert rows[..r + 1][..r] == rows[..r];
      match rows[r] {
        case UserRow(content) =>
          msgs := msgs + [User(content)];
        case AssistantRow(content) =>
          msgs := msgs + [Assistant(content, [])];
        case ToolCallRow(call) =>
          if |msgs| == 0 || !msgs[|msgs| - 1].Assistant? {
            msgs := msgs + [Assistant("", [])];
          }
          var last := msgs[|msgs| - 1];
          msgs := msgs[|msgs| - 1 := last.(calls := last.calls + [call])];
          toolCallIDs := toolCallIDs + {call.id};
        case ToolResultRow(id, content) =>
          if id in toolCallIDs {
            toolResultIDs := toolResultIDs + {id};
            msgs := msgs + [ToolResult(id, content, false)];
          }
        case OtherRow =>
      }
    }
    assert rows[..|rows|] == rows;
  }

  /** Strips the calls that were never answered, message by message. */
  method StripOrphans(rebuilt: seq<Message>, toolResultIDs: set<string>) returns (msgs: seq<Message>)
    ensures msgs == Strip(rebuilt, toolResultIDs)
  {
    msgs := rebuilt;
    for i := 0 to |msgs|
      invariant |msgs| == |rebuilt|
      invariant forall k :: 0 <= k < i ==> msgs[k] == StripMessage(rebuilt[k], toolResultIDs)
      invariant forall k :: i <= k < |msgs| ==> msgs[k] == rebuilt[k]
    {
      if !msgs[i].Assistant? || |msgs[i].calls| == 0 {
        continue;
      }
      var calls := msgs[i].calls;
      var kept: seq<ToolCall> := [];
      for c := 0 to |calls|
        invariant kept == KeepAnswered(calls[..c], toolResultIDs)
      {
        assert calls[..c + 1][..c] == calls[..c];
        if calls[c].id in toolResultIDs {
          kept := kept + [calls[c]];
        }
      }
      assert calls[..|calls|] == calls;
      msgs := msgs[i := msgs[i].(calls := kept)];
    }
  }

  method CleanMessages(msgs: seq<Message>) returns (cleaned: seq<Message>)
    ensures cleaned == Clean(msgs, CallIds(msgs))
  {
    var keptToolCallIDs: set<string> := {};
    for i := 0 to |msgs|
      invariant keptToolCallIDs == CallIds(msgs[..i])
    {
      assert msgs[..i + 1] == msgs[..i] + [msgs[i]];
      CallIdsAppend(msgs[..i], [msgs[i]]);
      CallIdsSingle(msgs[i]);
      if msgs[i].Assistant? {
        keptToolCallIDs := keptToolCallIDs + Ids(msgs[i].calls);
      }
    }
    assert msgs[..|msgs|] == msgs;

    cleaned := [];
    for i := 0 to |msgs|
      invariant cleaned == Clean(msgs[..i], keptToolCallIDs)
    {
      assert msgs[..i + 1][..i] == msgs[..i];
      if msgs[i].Assistant? && msgs[i].content == "" && |msgs[i].calls| == 0 {
        continue;
      }
      if msgs[i].ToolResult? && msgs[i].id !in keptToolCallIDs {
        continue;
      }
      cleaned := cleaned + [msgs[i]];
    }
    assert msgs[..|msgs|] == msgs;
  }

  // ----- Every history is repaired, whatever the rows were -----

  /** The bookkeeping sets always describe the rebuilt list, and only seen calls have results. */
  ghost predicate Consistent(st: Rebuilt) {
    && st.callIds == CallIds(st.msgs)
    && st.resultIds == ResultIds(st.msgs)
    && st.resultIds <= st.callIds
    && Ordered(st.msgs)
  }

  lemma {:induction false} ReplaceLast(a: seq<Message>, m: Message, m': Message)
    requires m.Assistant? && m'.Assistant? && Ordered(a + [m])
    ensures CallIds(a + [m]) == CallIds(a) + Ids(m.calls)
    ensures CallIds(a + [m']) == CallIds(a) + Ids(m'.calls)
    ensures ResultIds(a + [m']) == ResultIds(a + [m])
    ensures Ordered(a + [m'])
  {
    CallIdsAppend(a, [m]);
    CallIdsAppend(a, [m']);
    CallIdsSingle(m);
    CallIdsSingle(m');
    var ms, ms' := a + [m], a + [m'];
    forall j | 0 <= j < |ms'| && ms'[j].ToolResult?
      ensures ms'[j].id in CallIds(ms'[..j])
    {
      assert ms'[j] == ms[j] && ms'[..j] == ms[..j];
    }
  }

  lemma {:induction false} AttachCall(ms: seq<Message>, call: ToolCall)
    requires ms != [] && ms[|ms| - 1].Assistant? && Ordered(ms)
    ensures
      var last := |ms| - 1;
      var ms' := ms[last := ms[last].(calls := ms[last].calls + [call])];
      CallIds(ms') == CallIds(ms) + {call.id} && ResultIds(ms') == ResultIds(ms) && Ordered(ms')
  {
    var last := |ms| - 1;
    var m := ms[last];
    var m' := m.(calls := m.calls + [call]);
    assert ms == ms[..last] + [m] && ms[last := m'] == ms[..last] + [m'];
    ReplaceLast(ms[..last], m, m');
    IdsAppend(m.calls, [call]);
    IdsSingle(call);
  }

  lemma AppendMessage(ms: seq<Message>, m: Message)
    requires Ordered(ms)
    requires m.ToolResult? ==> m.id in CallIds(ms)
    ensures CallIds(ms + [m]) == CallIds(ms) + if m.Assistant? then Ids(m.calls) else {}
    ensures ResultIds(ms + [m]) == ResultIds(ms) + if m.ToolResult? then {m.id} else {}
    ensures Ordered(ms + [m])
  {
    CallIdsAppend(ms, [m]);
    CallIdsSingle(m);
    OrderedAppend(ms, [m]);
  }

  lemma {:induction false} ReadCallConsistent(st: Rebuilt, call: ToolCall)
    requires Consistent(st)
    ensures Consistent(ReadRow(st, ToolCallRow(call)))
  {
    hide CallIds, ResultIds, Ordered;
    if st.msgs == [] || !st.msgs[|st.msgs| - 1].Assistant? {
      AppendEmpty(st.msgs);
      AttachCall(st.msgs + [Assistant("", [])], call);
    } else {
      AttachCall(st.msgs, call);
    }
  }

  lemma {:induction false} AppendEmpty(ms: seq<Message>)
    requires Ordered(ms)
    ensures Ordered(ms + [Assistant("", [])])
    ensures CallIds(ms + [Assistant("", [])]) == CallIds(ms) && ResultIds(ms + [Assistant("", [])]) == ResultIds(ms)
  {
    hide Ordered;
    AppendMessage(ms, Assistant("", []));
  }

  lemma ReadRowConsistent(st: Rebuilt, row: Row)
    requires Consistent(st)
    ensures Consistent(ReadRow(st, row))
  {
    match row {
      case UserRow(content) => AppendMessage(st.msgs, User(content));
      case AssistantRow(content) => AppendMessage(st.msgs, Assistant(content, []));
      case ToolCallRow(call) => ReadCallConsistent(st, call);
      case ToolResultRow(id, content) =>
        if id in st.callIds {
          AppendMessage(st.msgs, ToolResult(id, content, false));
        }
      case OtherRow =>
    }
  }

  lemma {:induction false} RebuildConsistent(rows: seq<Row>)
    ensures Consistent(Rebuild(rows))
  {
    if rows != [] {
      RebuildConsistent(rows[..|rows| - 1]);
      ReadRowConsistent(Rebuild(rows[..|rows| - 1]), rows[|rows| - 1]);
    }
  }

  lemma {:induction false} KeepAnsweredIds(calls: seq<ToolCall>, resultIds: set<string>)
    ensures Ids(KeepAnswered(calls, resultIds)) == Ids(calls) * resultIds
  {
    if calls != [] {
      var front, c := calls[..|calls| - 1], calls[|calls| - 1];
      KeepAnsweredIds(front, resultIds);
      assert calls == front + [c];
      assert Ids(calls) == Ids(front) + {c.id};
      var kept := KeepAnswered(front, resultIds);
      assert Ids(kept + [c]) == Ids(kept) + {c.id};
      assert kept + [] == kept;
    }
  }

  lemma {:induction false} StripIds(ms: seq<Message>, resultIds: set<string>)
    ensures CallIds(Strip(ms, resultIds)) == CallIds(ms) * resultIds
    ensures ResultIds(Strip(ms, resultIds)) == ResultIds(ms)
    decreases |ms|
  {
    if ms != [] {
      var front, m := ms[..|ms| - 1], ms[|ms| - 1];
      StripIds(front, resultIds);
      var m' := StripMessage(m, resultIds);
      assert ms == front + [m];
      assert Strip(ms, resultIds) == Strip(front, resultIds) + [m'];
      CallIdsAppend(front, [m]);
      CallIdsAppend(Strip(front, resultIds), [m']);
      CallIdsSingle(m);
      CallIdsSingle(m');
      if m.Assistant? {
        KeepAnsweredIds(m.calls, resultIds);
      }
    }
  }

  lemma StripOrdered(ms: seq<Message>)
    requires Ordered(ms)
    ensures Ordered(Strip(ms, ResultIds(ms)))
  {
    var s := Strip(ms, ResultIds(ms));
    forall j | 0 <= j < |s| && s[j].ToolResult?
      ensures s[j].id in CallIds(s[..j])
    {
      assert ms[j] in ms;
      assert s[..j] == Strip(ms[..j], ResultIds(ms));
      StripIds(ms[..j], ResultIds(ms));
    }
  }

  /** Once calls are stripped to the answered ones, the tool-result filter has nothing to remove:
      cleaning only drops empty assistant messages, which carry no calls. */
  lemma {:induction false} CleanKeeps(ms: seq<Message>, keptIds: set<string>)
    requires Ordered(ms)
    requires ResultIds(ms) <= keptIds
    ensures CallIds(Clean(ms, keptIds)) == CallIds(ms)
    ensures ResultIds(Clean(ms, keptIds)) == ResultIds(ms)
    ensures Ordered(Clean(ms, keptIds))
    ensures NoEmptyAssistant(Clean(ms, keptIds))
    decreases |ms|
  {
    if ms != [] {
      var front, m := ms[..|ms| - 1], ms[|ms| - 1];
      assert ms == front + [m];
      CallIdsAppend(front, [m]);
      CallIdsSingle(m);
      forall j | 0 <= j < |front| && front[j].ToolResult?
        ensures front[j].id in CallIds(front[..j])
      {
        assert ms[..j] == front[..j];
      }
      CleanKeeps(front, keptIds);
      if Survives(m, keptIds) {
        AppendMessage(Clean(front, keptIds), m);
      } else {
        assert Clean(ms, keptIds) == Clean(front, keptIds);
      }
    }
  }

  /** For every row sequence whatsoever, the loaded history has equal sets of call and result ids,
      every result after its call, and no empty assistant message. */
  lemma LoadPairs(rows: seq<Row>)
    ensures Paired(Load(rows))
  {
    var st := Rebuild(rows);
    RebuildConsistent(rows);
    StripIds(st.msgs, st.resultIds);
    StripOrdered(st.msgs);
    var s := Strip(st.msgs, st.resultIds);
    CleanKeeps(s, CallIds(s));
  }

  /** The last filter is redundant: no stripped tool result ever lacks its call. */
  lemma LastFilterRemovesNothing(rows: seq<Row>, m: Message)
    requires
      var st := Rebuild(rows);
      m in Strip(st.msgs, st.resultIds) && m.ToolResult?
    ensures
      var st := Rebuild(rows);
      m.id in CallIds(Strip(st.msgs, st.resultIds)) && m in Load(rows)
  {
    var st := Rebuild(rows);
    RebuildConsistent(rows);
    StripIds(st.msgs, st.resultIds);
    var s := Strip(st.msgs, st.resultIds);
    CleanContains(s, CallIds(s), m);
  }

  lemma {:induction false} CleanContains(ms: seq<Message>, keptIds: set<string>, m: Message)
    ensures m in Clean(ms, keptIds) <==> m in ms && Survives(m, keptIds)
  {
    if ms != [] {
      CleanContains(ms[..|ms| - 1], keptIds, m);
      assert ms == ms[..|ms| - 1] + [ms[|ms| - 1]];
    }
  }
}
