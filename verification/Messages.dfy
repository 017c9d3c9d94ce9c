/** Conversation messages and the typed rows they are saved as. */
module Messages {
  import opened Sequences

  datatype ToolCall = ToolCall(id: string, name: string, input: string)

  datatype Message =
    | User(content: string)
    | Assistant(content: string, calls: seq<ToolCall>)
    | ToolResult(id: string, content: string, isError: bool)

  /** One row of conversation_messages. A null id, name or input reads back as the empty string;
      a row whose role is none of the four known ones is an `OtherRow`. */
  datatype Row =
    | UserRow(content: string)
    | AssistantRow(content: string)
    | ToolCallRow(call: ToolCall)
    | ToolResultRow(id: string, content: string)
    | OtherRow

  /** The rows one message is flattened to. */
  function RowsOf(m: Message): seq<Row> {
    match m
    case User(content) => [UserRow(content)]
    case Assistant(content, calls) =>
      if calls == [] then [AssistantRow(content)]
      else TextRows(content) + CallRows(calls)
    case ToolResult(id, content, _) => [ToolResultRow(id, content)]
  }

  function TextRows(content: string): seq<Row> {
    if content == "" then [] else [AssistantRow(content)]
  }

  function CallRows(calls: seq<ToolCall>): seq<Row> {
    if calls == [] then []
    else CallRows(calls[..|calls| - 1]) + [ToolCallRow(calls[|calls| - 1])]
  }

  function SavedRows(ms: seq<Message>): seq<Row> {
    if ms == [] then []
    else SavedRows(ms[..|ms| - 1]) + RowsOf(ms[|ms| - 1])
  }

  /** What a message looks like once it has been through the table: `isError` has no column. */
  function Stored(ms: seq<Message>): seq<Message> {
    seq(|ms|, i requires 0 <= i < |ms| =>
      if ms[i].ToolResult? then ms[i].(isError := false) else ms[i])
  }

  function Ids(calls: seq<ToolCall>): set<string> {
    set c | c in calls :: c.id
  }

  function CallIds(ms: seq<Message>): set<string> {
    set m, c | m in ms && m.Assistant? && c in m.calls :: c.id
  }

  function ResultIds(ms: seq<Message>): set<string> {
    set m | m in ms && m.ToolResult? :: m.id
  }

  /** Every result comes after a message carrying its call. */
  ghost predicate Ordered(ms: seq<Message>) {
    forall j :: 0 <= j < |ms| && ms[j].ToolResult? ==> ms[j].id in CallIds(ms[..j])
  }

  predicate IsEmptyAssistant(m: Message) {
    m.Assistant? && m.content == "" && m.calls == []
  }

  ghost predicate NoEmptyAssistant(ms: seq<Message>) {
    forall m :: m in ms ==> !IsEmptyAssistant(m)
  }

  /** The shape a provider accepts: every call has a result and vice versa, no result precedes its
      call, and no assistant message is empty. */
  ghost predicate Paired(ms: seq<Message>) {
    && CallIds(ms) == ResultIds(ms)
    && Ordered(ms)
    && NoEmptyAssistant(ms)
  }

  lemma {:induction false} CallRowsAppend(a: seq<ToolCall>, b: seq<ToolCall>)
    ensures CallRows(a + b) == CallRows(a) + CallRows(b)
    decreases |b|
  {
    if b == [] {
      assert a + b == a;
    } else {
      var b', c := b[..|b| - 1], b[|b| - 1];
      calc {
        CallRows(a + b);
        { assert (a + b)[..|a + b| - 1] == a + b'; }
        CallRows(a + b') + [ToolCallRow(c)];
        { CallRowsAppend(a, b'); }
        CallRows(a) + CallRows(b') + [ToolCallRow(c)];
        CallRows(a) + (CallRows(b') + [ToolCallRow(c)]);
      }
    }
  }

  lemma CallRowsSingle(c: ToolCall)
    ensures CallRows([c]) == [ToolCallRow(c)]
  {
    assert CallRows([c][..0]) == [];
  }

  lemma IdsAppend(a: seq<ToolCall>, b: seq<ToolCall>)
    ensures Ids(a + b) == Ids(a) + Ids(b)
  {
  }

  lemma IdsSingle(c: ToolCall)
    ensures Ids([c]) == {c.id}
  {
    assert c in [c];
  }

  lemma CallIdsAppend(a: seq<Message>, b: seq<Message>)
    ensures CallIds(a + b) == CallIds(a) + CallIds(b)
    ensures ResultIds(a + b) == ResultIds(a) + ResultIds(b)
  {
  }

  lemma CallIdsSingle(m: Message)
    ensures CallIds([m]) == if m.Assistant? then Ids(m.calls) else {}
    ensures ResultIds([m]) == if m.ToolResult? then {m.id} else {}
  {
    assert m in [m];
  }

  lemma OrderedAppend(a: seq<Message>, b: seq<Message>)
    requires Ordered(a)
    requires forall j :: 0 <= j < |b| && b[j].ToolResult? ==> b[j].id in CallIds(a) + CallIds(b[..j])
    ensures Ordered(a + b)
  {
    var c := a + b;
    forall j | 0 <= j < |c| && c[j].ToolResult?
      ensures c[j].id in CallIds(c[..j])
    {
      if j < |a| {
        assert c[..j] == a[..j];
      } else {
        assert c[..j] == a + b[..j - |a|];
        CallIdsAppend(a, b[..j - |a|]);
      }
    }
  }

  /** Pairing is kept by concatenation. */
  lemma PairedAppend(a: seq<Message>, b: seq<Message>)
    requires Paired(a) && Paired(b)
    ensures Paired(a + b)
  {
    CallIdsAppend(a, b);
    OrderedAppend(a, b);
  }

  lemma {:induction false} SavedRowsAppend(a: seq<Message>, b: seq<Message>)
    ensures SavedRows(a + b) == SavedRows(a) + SavedRows(b)
    decreases |b|
  {
    if b == [] {
      assert a + b == a;
      assert SavedRows(b) == [];
    } else {
      var b', m := b[..|b| - 1], b[|b| - 1];
      SavedRowsAppend(a, b');
      Associative(a, b', [m]);
      assert b == b' + [m];
      SavedRowsSnoc(b', m);
      SavedRowsSnoc(a + b', m);
      Associative(SavedRows(a), SavedRows(b'), RowsOf(m));
    }
  }

  lemma {:induction false} SavedRowsSnoc(ms: seq<Message>, m: Message)
    ensures SavedRows(ms + [m]) == SavedRows(ms) + RowsOf(m)
  {
    assert (ms + [m])[..|ms|] == ms;
  }

  lemma SavedRowsSingle(m: Message)
    ensures SavedRows([m]) == RowsOf(m)
  {
    assert [m][..0] == [];
  }
}
