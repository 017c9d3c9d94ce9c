/** Rebuilding the chat view: rows become messages, and an assistant's tool calls its thinking steps. */
module ChatSteps {
  import opened Options
  import opened Sequences

  datatype Row =
    | UserRow(id: string, content: string)
    | AssistantRow(id: string, content: string)
    | CallRow(id: string, name: string)
    | ResultRow(id: string)
    | OtherRow(id: string)
  {
    /** A row that starts a message of its own. */
    predicate Head() { UserRow? || AssistantRow? }
  }

  datatype Step = Step(name: string, running: bool)

  datatype ChatMessage = UserMessage(id: string, content: string) | AssistantMessage(id: string, content: string, steps: seq<Step>)

  /** The index of the most recent running step, or -1. */
  function LastRunning(steps: seq<Step>): (i: int)
    ensures -1 <= i < |steps|
    ensures i >= 0 ==> steps[i].running
    ensures forall j :: i < j < |steps| ==> !steps[j].running
  {
    if steps == [] then -1
    else if steps[|steps| - 1].running then |steps| - 1
    else LastRunning(steps[..|steps| - 1])
  }

  function CloseLast(steps: seq<Step>): seq<Step> {
    var i := LastRunning(steps);
    if i < 0 then steps else steps[i := steps[i].(running := false)]
  }

  function NextSteps(steps: seq<Step>, r: Row): seq<Step> {
    match r
    case CallRow(_, name) => steps + [Step(name, true)]
    case ResultRow(_) => CloseLast(steps)
    case _ => steps
  }

  /** The steps an assistant gets from the rows after it. */
  function StepsOf(segment: seq<Row>): seq<Step> {
    if segment == [] then []
    else NextSteps(StepsOf(segment[..|segment| - 1]), segment[|segment| - 1])
  }

  function StartOf(r: Row): ChatMessage
    requires r.Head()
  {
    match r
    case UserRow(id, content) => UserMessage(id, content)
    case AssistantRow(id, content) => AssistantMessage(id, content, [])
  }

  function AddTo(m: ChatMessage, r: Row): ChatMessage {
    if m.UserMessage? then m else m.(steps := NextSteps(m.steps, r))
  }

  /** What is shown when one more row comes. */
  function ShownNext(before: seq<ChatMessage>, r: Row): seq<ChatMessage> {
    if r.Head() then before + [StartOf(r)]
    else if before == [] then before
    else before[|before| - 1 := AddTo(before[|before| - 1], r)]
  }

  /** The messages shown after each row. */
  function Shown(rows: seq<Row>): seq<ChatMessage> {
    if rows == [] then [] else ShownNext(Shown(rows[..|rows| - 1]), rows[|rows| - 1])
  }

  /** Searches backwards for a running step and marks it done. */
  method CloseRunning(steps: seq<Step>) returns (closed: seq<Step>)
    ensures closed == CloseLast(steps)
  {
    var idx := -1;
    var k := |steps| - 1;
    while k >= 0
      invariant -1 <= k < |steps|
      invariant idx == -1 && forall j :: k < j < |steps| ==> !steps[j].running
    {
      if steps[k].running {
        idx := k;
        break;
      }
      k := k - 1;
    }
    closed := steps;
    if idx >= 0 {
      closed := steps[idx := steps[idx].(running := false)];
    }
  }

  /** What is shown, with the assistant still being added to held apart. */
  function Held(messages: seq<ChatMessage>, current: Option<ChatMessage>): seq<ChatMessage> {
    if current.Some? then messages + [current.value] else messages
  }

  /** An assistant is held apart whenever it is the last message. */
  predicate Apart(messages: seq<ChatMessage>, current: Option<ChatMessage>) {
    if current.Some? then current.value.AssistantMessage? else messages != [] ==> messages[|messages| - 1].UserMessage?
  }

  lemma {:induction false} HeldAdds(messages: seq<ChatMessage>, current: Option<ChatMessage>, r: Row)
    requires Apart(messages, current) && !r.Head()
    ensures ShownNext(Held(messages, current), r)
         == if current.Some? then Held(messages, Some(AddTo(current.value, r))) else messages
  {
    if current.Some? {
      ReplaceLast(messages, current.value, AddTo(current.value, r));
    }
  }

  /** The loop over the rows, with the assistant it is still adding to held apart. */
  method ReconstructMessages(raw: seq<Row>) returns (messages: seq<ChatMessage>)
    ensures messages == Shown(raw)
    ensures ShowsGroups(Groups(raw), messages)
  {
    hide Shown, ShownNext, CloseLast, Groups, ShowsGroups;
    ShownByRule(raw);
    messages := [];
    var current: Option<ChatMessage> := None;
    ShownNothing();
    assert raw[..0] == [];
    for i := 0 to |raw|
      invariant Apart(messages, current)
      invariant Shown(raw[..i]) == Held(messages, current)
    {
      assert raw[..i + 1] == raw[..i] + [raw[i]];
      ShownSnoc(raw[..i], raw[i]);
      messages, current := ReadRow(messages, current, raw[i]);
    }
    assert raw[..|raw|] == raw;
    if current.Some? {
      messages := messages + [current.value];
    }
  }

  lemma ShownNothing()
    ensures Shown([]) == []
  {
  }

  /** One row of the loop. */
  method ReadRow(soFar: seq<ChatMessage>, held: Option<ChatMessage>, msg: Row)
    returns (messages: seq<ChatMessage>, current: Option<ChatMessage>)
    requires Apart(soFar, held)
    ensures Apart(messages, current) && Held(messages, current) == ShownNext(Held(soFar, held), msg)
  {
    hide CloseLast;
    messages, current := soFar, held;
    match msg {
      case UserRow(id, content) =>
        if current.Some? {
          messages := messages + [current.value];
          current := None;
        }
        messages := messages + [UserMessage(id, content)];
      case AssistantRow(id, content) =>
        if current.Some? {
          messages := messages + [current.value];
        }
        current := Some(AssistantMessage(id, content, []));
      case CallRow(_, name) =>
        HeldAdds(soFar, held, msg);
        if current.Some? {
          current := Some(current.value.(steps := current.value.steps + [Step(name, true)]));
        }
      case ResultRow(_) =>
        HeldAdds(soFar, held, msg);
        if current.Some? {
          var steps := CloseRunning(current.value.steps);
          current := Some(current.value.(steps := steps));
        }
      case OtherRow(_) =>
        HeldAdds(soFar, held, msg);
    }
  }

  // ----- What is shown -----

  function HeadIds(rows: seq<Row>): seq<string> {
    if rows == [] then []
    else
      var r := rows[|rows| - 1];
      HeadIds(rows[..|rows| - 1]) + if r.Head() then [r.id] else []
  }

  /** The messages shown are the user and assistant rows, in order. */
  lemma {:induction false} ShownIds(rows: seq<Row>)
    ensures |Shown(rows)| == |HeadIds(rows)|
    ensures forall i :: 0 <= i < |Shown(rows)| ==> Shown(rows)[i].id == HeadIds(rows)[i]
  {
    if rows != [] {
      ShownIds(rows[..|rows| - 1]);
    }
  }

  predicate NoHead(segment: seq<Row>) {
    segment == [] || (!segment[|segment| - 1].Head() && NoHead(segment[..|segment| - 1]))
  }

  lemma {:induction false} ShownSnoc(rows: seq<Row>, r: Row)
    ensures Shown(rows + [r]) == ShownNext(Shown(rows), r)
  {
    assert (rows + [r])[..|rows|] == rows;
  }

  /** The message of a head row and the rows of its segment. */
  function MessageOf(head: Row, segment: seq<Row>): ChatMessage
    requires head.Head()
  {
    match head
    case UserRow(id, content) => UserMessage(id, content)
    case AssistantRow(id, content) => AssistantMessage(id, content, StepsOf(segment))
  }

  lemma {:induction false} MessageOfNext(head: Row, segment: seq<Row>)
    requires head.Head() && segment != []
    ensures MessageOf(head, segment) == AddTo(MessageOf(head, segment[..|segment| - 1]), segment[|segment| - 1])
  {
  }

  lemma {:induction false} ReplaceLast(ms: seq<ChatMessage>, a: ChatMessage, b: ChatMessage)
    ensures (ms + [a])[|ms + [a]| - 1 := b] == ms + [b]
  {
  }

  lemma {:induction false} NextReplaces(before: seq<ChatMessage>, m: ChatMessage, r: Row)
    requires !r.Head()
    ensures ShownNext(before + [m], r) == before + [AddTo(m, r)]
  {
    hide AddTo;
    ReplaceLast(before, m, AddTo(m, r));
  }

  /** Each message depends on its own segment only: the rows up to the next user or assistant row. */
  lemma {:induction false} ShownSegment(rows: seq<Row>, head: Row, segment: seq<Row>)
    requires head.Head() && NoHead(segment)
    ensures Shown((rows + [head]) + segment) == Shown(rows) + [MessageOf(head, segment)]
    decreases |segment|
  {
    hide Shown, MessageOf;
    if segment == [] {
      SegmentStarts(rows, head);
      assert (rows + [head]) + segment == rows + [head];
    } else {
      hide ShownNext, StartOf;
      var front, r := segment[..|segment| - 1], segment[|segment| - 1];
      ShownSegment(rows, head, front);
      assert segment == front + [r];
      Associative(rows + [head], front, [r]);
      ShownSnoc((rows + [head]) + front, r);
      MessageOfNext(head, segment);
      NextReplaces(Shown(rows), MessageOf(head, front), r);
    }
  }

  lemma {:induction false} SegmentStarts(rows: seq<Row>, head: Row)
    requires head.Head()
    ensures Shown(rows + [head]) == Shown(rows) + [MessageOf(head, [])]
  {
    hide Shown;
    ShownSnoc(rows, head);
  }

  /** Rows before the first user or assistant row show nothing. */
  lemma {:induction false} ShownLeading(segment: seq<Row>)
    requires NoHead(segment)
    ensures Shown(segment) == []
  {
    if segment != [] {
      ShownLeading(segment[..|segment| - 1]);
    }
  }

  /** A user or assistant row and the rows up to the next one. */
  datatype Group = Group(head: Row, segment: seq<Row>)

  predicate Sound(groups: seq<Group>) {
    forall g :: g in groups ==> g.head.Head() && NoHead(g.segment)
  }

  function Groups(rows: seq<Row>): seq<Group> {
    if rows == [] then []
    else
      var before, r := Groups(rows[..|rows| - 1]), rows[|rows| - 1];
      if r.Head() then before + [Group(r, [])]
      else if before == [] then []
      else before[..|before| - 1] + [Group(before[|before| - 1].head, before[|before| - 1].segment + [r])]
  }

  /** The rows before the first user or assistant row. */
  function Leading(rows: seq<Row>): seq<Row> {
    if rows == [] then []
    else if Groups(rows) == [] then Leading(rows[..|rows| - 1]) + [rows[|rows| - 1]]
    else Leading(rows[..|rows| - 1])
  }

  function RowsOf(groups: seq<Group>): seq<Row> {
    if groups == [] then []
    else (RowsOf(groups[..|groups| - 1]) + [groups[|groups| - 1].head]) + groups[|groups| - 1].segment
  }

  function MessagesOf(groups: seq<Group>): seq<ChatMessage>
    requires Sound(groups)
  {
    if groups == [] then []
    else MessagesOf(groups[..|groups| - 1]) + [MessageOf(groups[|groups| - 1].head, groups[|groups| - 1].segment)]
  }

  lemma {:induction false} RowsOfSnoc(groups: seq<Group>, g: Group)
    ensures RowsOf(groups + [g]) == (RowsOf(groups) + [g.head]) + g.segment
  {
    assert (groups + [g])[..|groups|] == groups;
  }

  /** Every list of rows is its leading rows and its groups. */
  lemma {:induction false} Decomposes(rows: seq<Row>)
    ensures rows == Leading(rows) + RowsOf(Groups(rows))
    ensures NoHead(Leading(rows)) && Sound(Groups(rows))
    ensures Groups(rows) == [] ==> Leading(rows) == rows
  {
    if rows != [] {
      var front, r := rows[..|rows| - 1], rows[|rows| - 1];
      assert rows == front + [r];
      Decomposes(front);
      DecomposesStep(Leading(front), Groups(front), front, r);
    }
  }

  lemma {:induction false} GroupsSnoc(front: seq<Row>, r: Row)
    ensures
      var before := Groups(front);
      Groups(front + [r])
      == if r.Head() then before + [Group(r, [])]
         else if before == [] then []
         else before[..|before| - 1] + [Group(before[|before| - 1].head, before[|before| - 1].segment + [r])]
    ensures Leading(front + [r]) == if Groups(front + [r]) == [] then Leading(front) + [r] else Leading(front)
  {
    assert (front + [r])[..|front|] == front;
  }

  lemma {:induction false} NoHeadSnoc(segment: seq<Row>, r: Row)
    ensures NoHead(segment + [r]) <==> NoHead(segment) && !r.Head()
  {
    assert (segment + [r])[..|segment|] == segment;
  }

  lemma {:induction false} DecomposesStep(leading: seq<Row>, before: seq<Group>, front: seq<Row>, r: Row)
    requires leading == Leading(front) && before == Groups(front)
    requires front == leading + RowsOf(before) && NoHead(leading) && Sound(before)
    requires before == [] ==> leading == front
    ensures front + [r] == Leading(front + [r]) + RowsOf(Groups(front + [r]))
    ensures NoHead(Leading(front + [r])) && Sound(Groups(front + [r]))
    ensures Groups(front + [r]) == [] ==> Leading(front + [r]) == front + [r]
  {
    hide RowsOf, Groups, Leading, NoHead;
    GroupsSnoc(front, r);
    if r.Head() {
      OpensGroup(leading, before, r);
    } else if before == [] {
      NoRowsOf();
      NoHeadSnoc(leading, r);
      assert (leading + [r]) + [] == leading + [r];
    } else {
      JoinsGroup(leading, before[..|before| - 1], before[|before| - 1], before, r);
    }
  }

  lemma {:induction false} OpensGroup(leading: seq<Row>, before: seq<Group>, r: Row)
    requires r.Head() && Sound(before)
    ensures (leading + RowsOf(before)) + [r] == leading + RowsOf(before + [Group(r, [])])
    ensures Sound(before + [Group(r, [])])
  {
    hide RowsOf;
    RowsOfSnoc(before, Group(r, []));
    assert (RowsOf(before) + [r]) + [] == RowsOf(before) + [r];
    Associative(leading, RowsOf(before), [r]);
  }

  lemma {:induction false} JoinsGroup(leading: seq<Row>, init: seq<Group>, last: Group, before: seq<Group>, r: Row)
    requires before == init + [last] && Sound(before) && !r.Head()
    ensures (leading + RowsOf(before)) + [r] == leading + RowsOf(init + [Group(last.head, last.segment + [r])])
    ensures Sound(init + [Group(last.head, last.segment + [r])])
  {
    hide RowsOf, NoHead;
    RowsOfSnoc(init, last);
    RowsOfSnoc(init, Group(last.head, last.segment + [r]));
    SegmentGrows(leading, RowsOf(init) + [last.head], last.segment, r);
    NoHeadSnoc(last.segment, r);
    assert last in before && forall g :: g in init ==> g in before;
  }

  lemma NoRowsOf()
    ensures RowsOf([]) == []
  {
  }

  lemma {:induction false} SegmentGrows(leading: seq<Row>, start: seq<Row>, segment: seq<Row>, r: Row)
    ensures (leading + (start + segment)) + [r] == leading + (start + (segment + [r]))
  {
  }

  lemma {:induction false} ShownOf(leading: seq<Row>, groups: seq<Group>)
    requires NoHead(leading) && Sound(groups)
    ensures Shown(leading + RowsOf(groups)) == MessagesOf(groups)
    decreases |groups|
  {
    hide Shown, MessageOf;
    if groups == [] {
      assert leading + [] == leading;
      ShownLeading(leading);
    } else {
      var init, last := groups[..|groups| - 1], groups[|groups| - 1];
      assert last in groups && forall g :: g in init ==> g in groups;
      ShownOf(leading, init);
      ShownSegment(leading + RowsOf(init), last.head, last.segment);
      Regroup(leading, RowsOf(init), [last.head], last.segment);
    }
  }

  lemma {:induction false} Regroup(a: seq<Row>, b: seq<Row>, c: seq<Row>, d: seq<Row>)
    ensures a + ((b + c) + d) == ((a + b) + c) + d
  {
  }

  /** What is shown, for every list of rows: one message per group, in order, made of its own segment only;
      the leading rows show nothing. */
  lemma {:induction false} ShownExactly(rows: seq<Row>)
    ensures rows == Leading(rows) + RowsOf(Groups(rows)) && NoHead(Leading(rows)) && Sound(Groups(rows))
    ensures Shown(rows) == MessagesOf(Groups(rows))
  {
    hide Shown, MessagesOf, RowsOf, Groups, Leading;
    Decomposes(rows);
    ShownOf(Leading(rows), Groups(rows));
  }

  // ----- Bracket matching -----

  /** How many more results than calls there are among the rows after `p` and before `hi`. */
  function Excess(segment: seq<Row>, p: nat, hi: nat): int
    requires p < hi <= |segment|
    decreases hi
  {
    if hi == p + 1 then 0 else Excess(segment, p, hi - 1) + Weight(segment[hi - 1])
  }

  function Weight(r: Row): int {
    if r.ResultRow? then 1 else if r.CallRow? then -1 else 0
  }

  /** The call at `p` is never closed: no stretch of rows right after it has more results than calls. */
  ghost predicate Unmatched(segment: seq<Row>, p: nat)
    requires p < |segment|
  {
    forall hi :: p < hi <= |segment| ==> Excess(segment, p, hi) <= 0
  }

  /** The rows of the calls, in order: the row of step `k` is `CallAt(segment)[k]`. */
  function CallAt(segment: seq<Row>): (ps: seq<nat>)
    ensures forall k :: 0 <= k < |ps| ==> ps[k] < |segment| && segment[ps[k]].CallRow?
  {
    if segment == [] then []
    else CallAt(segment[..|segment| - 1]) + if segment[|segment| - 1].CallRow? then [|segment| - 1] else []
  }

  /** How many steps from `k` on are running. */
  function RunningFrom(steps: seq<Step>, k: nat): nat {
    if |steps| <= k then 0
    else RunningFrom(steps[..|steps| - 1], k) + if steps[|steps| - 1].running then 1 else 0
  }

  lemma {:induction false} RunningFromNone(steps: seq<Step>, k: nat)
    requires forall j :: k <= j < |steps| ==> !steps[j].running
    ensures RunningFrom(steps, k) == 0
  {
    if k < |steps| {
      RunningFromNone(steps[..|steps| - 1], k);
    }
  }

  lemma {:induction false} RunningFromClose(steps: seq<Step>, i: nat, k: nat)
    requires k <= i < |steps| && steps[i].running
    ensures RunningFrom(steps[i := steps[i].(running := false)], k) == RunningFrom(steps, k) - 1
    decreases |steps|
  {
    var steps' := steps[i := steps[i].(running := false)];
    var n := |steps| - 1;
    if i < n {
      assert steps'[..n] == steps[..n][i := steps[i].(running := false)];
      RunningFromClose(steps[..n], i, k);
    } else {
      assert steps'[..n] == steps[..n];
    }
  }

  lemma {:induction false} RunningFromAppend(steps: seq<Step>, s: Step, k: nat)
    ensures RunningFrom(steps + [s], k) == RunningFrom(steps, k) + if k <= |steps| && s.running then 1 else 0
  {
    assert (steps + [s])[..|steps|] == steps;
    if |steps| <= k {
      RunningFromNone(steps, k);
    }
  }

  /** The running steps behind a step that is still running follow the calls and results. */
  lemma {:induction false} NextRunning(steps: seq<Step>, r: Row, k: nat)
    requires k < |steps| && k < |NextSteps(steps, r)| && NextSteps(steps, r)[k].running
    ensures steps[k].running
    ensures RunningFrom(NextSteps(steps, r), k + 1) == RunningFrom(steps, k + 1) - Weight(r)
  {
    match r {
      case CallRow(_, name) => RunningFromAppend(steps, Step(name, true), k + 1);
      case ResultRow(_) => RunningFromClose(steps, LastRunning(steps), k + 1);
      case _ =>
    }
  }

  /** A result closes the last running step, and only that one. */
  lemma {:induction false} NextCloses(steps: seq<Step>, r: Row, k: nat)
    requires k < |steps| && steps[k].running
    ensures k < |NextSteps(steps, r)|
    ensures NextSteps(steps, r)[k].running <==> Weight(r) - RunningFrom(steps, k + 1) as int <= 0
  {
    if r.ResultRow? {
      var i := LastRunning(steps);
      if k == i {
        RunningFromNone(steps, k + 1);
      } else {
        RunningFromClose(steps, i, k + 1);
      }
    }
  }

  lemma {:induction false} StepsCalls(segment: seq<Row>)
    ensures |CallAt(segment)| == |StepsOf(segment)|
    ensures forall k :: 0 <= k < |StepsOf(segment)| ==> StepsOf(segment)[k].name == segment[CallAt(segment)[k]].name
  {
    if segment != [] {
      StepsCalls(segment[..|segment| - 1]);
    }
  }

  lemma {:induction false} ExcessPrefix(segment: seq<Row>, r: Row, p: nat, hi: nat)
    requires p < hi <= |segment|
    ensures Excess(segment + [r], p, hi) == Excess(segment, p, hi)
    decreases hi
  {
    if p + 1 < hi {
      ExcessPrefix(segment, r, p, hi - 1);
    }
  }

  lemma {:induction false} SegmentSnoc(segment: seq<Row>, r: Row)
    ensures StepsOf(segment + [r]) == NextSteps(StepsOf(segment), r)
    ensures CallAt(segment + [r]) == CallAt(segment) + if r.CallRow? then [|segment|] else []
    ensures forall p: nat :: p < |segment| ==>
              Excess(segment + [r], p, |segment| + 1) == Excess(segment, p, |segment|) + Weight(r)
  {
    assert (segment + [r])[..|segment|] == segment;
    forall p: nat | p < |segment| {
      ExcessPrefix(segment, r, p, |segment|);
    }
  }

  /** After a running step, calls exceed results by the running steps behind it. */
  lemma {:induction false} Balance(segment: seq<Row>, k: nat)
    requires k < |StepsOf(segment)| && StepsOf(segment)[k].running
    ensures |CallAt(segment)| == |StepsOf(segment)|
    ensures Excess(segment, CallAt(segment)[k], |segment|) + RunningFrom(StepsOf(segment), k + 1) == 0
    decreases |segment|
  {
    StepsCalls(segment);
    var front, r := segment[..|segment| - 1], segment[|segment| - 1];
    assert segment == front + [r];
    SegmentSnoc(front, r);
    StepsCalls(front);
    if k < |StepsOf(front)| {
      NextRunning(StepsOf(front), r, k);
      Balance(front, k);
    } else {
      RunningFromNone(StepsOf(segment), k + 1);
    }
  }

  lemma {:induction false} UnmatchedSnoc(segment: seq<Row>, r: Row, p: nat)
    requires p < |segment|
    ensures Unmatched(segment + [r], p) <==> Unmatched(segment, p) && Excess(segment + [r], p, |segment| + 1) <= 0
  {
    var s := segment + [r];
    forall hi: nat | p < hi <= |segment| {
      ExcessPrefix(segment, r, p, hi);
    }
    if Unmatched(s, p) {
      forall hi | p < hi <= |segment| ensures Excess(segment, p, hi) <= 0 {
        assert Excess(s, p, hi) <= 0;
      }
    }
  }

  /** The step of a call is still running exactly when the call is unmatched, where each result
      closes the most recent open call. */
  lemma {:induction false} RunningAreUnmatched(segment: seq<Row>, k: nat)
    requires k < |StepsOf(segment)|
    ensures |CallAt(segment)| == |StepsOf(segment)|
    ensures StepsOf(segment)[k].running <==> Unmatched(segment, CallAt(segment)[k])
    decreases |segment|
  {
    StepsCalls(segment);
    var front, r := segment[..|segment| - 1], segment[|segment| - 1];
    assert segment == front + [r];
    SegmentSnoc(front, r);
    StepsCalls(front);
    if k < |StepsOf(front)| {
      RunningAreUnmatched(front, k);
      UnmatchedSnoc(front, r, CallAt(front)[k]);
      if StepsOf(front)[k].running {
        Balance(front, k);
        NextCloses(StepsOf(front), r, k);
      } else {
        StaysClosed(StepsOf(front), r, k);
      }
    }
  }

  lemma {:induction false} StaysClosed(steps: seq<Step>, r: Row, k: nat)
    requires k < |steps| && !steps[k].running
    ensures k < |NextSteps(steps, r)| && !NextSteps(steps, r)[k].running
  {
  }

  // ----- A message in full -----

  /** The calls of a segment, in order, and all of them. */
  ghost predicate ListsCalls(segment: seq<Row>, ps: seq<nat>) {
    && (forall k :: 0 <= k < |ps| ==> ps[k] < |segment| && segment[ps[k]].CallRow?)
    && (forall k, l :: 0 <= k < l < |ps| ==> ps[k] < ps[l])
    && (forall p: nat :: p < |segment| && segment[p].CallRow? ==> p in ps)
  }

  lemma {:induction false} CallsListed(segment: seq<Row>)
    ensures ListsCalls(segment, CallAt(segment))
  {
    if segment != [] {
      var n := |segment| - 1;
      CallsListed(segment[..n]);
      var before, ps := CallAt(segment[..n]), CallAt(segment);
      assert segment[n].CallRow? ==> ps[|before|] == n;
      forall p: nat | p < |segment| && segment[p].CallRow? ensures p in ps {
        if p < n {
          assert segment[..n][p] == segment[p];
          assert p in before;
        }
      }
    }
  }

  /** A step per call, named after it and running as long as its call is unmatched. */
  ghost predicate ShowsSteps(segment: seq<Row>, steps: seq<Step>) {
    exists ps: seq<nat> :: ListsCalls(segment, ps) && |steps| == |ps|
      && forall k :: 0 <= k < |ps| ==>
           steps[k].name == segment[ps[k]].name && (steps[k].running <==> Unmatched(segment, ps[k]))
  }

  ghost predicate ShowsGroup(g: Group, m: ChatMessage) {
    && (g.head.UserRow? ==> m == UserMessage(g.head.id, g.head.content))
    && (g.head.AssistantRow? ==>
          m.AssistantMessage? && m.id == g.head.id && m.content == g.head.content && ShowsSteps(g.segment, m.steps))
  }

  lemma {:induction false} StepsShown(segment: seq<Row>)
    ensures ShowsSteps(segment, StepsOf(segment))
  {
    hide CallAt, StepsOf, ListsCalls, Unmatched;
    CallsListed(segment);
    StepsCalls(segment);
    var ps, steps := CallAt(segment), StepsOf(segment);
    forall k | 0 <= k < |ps| ensures steps[k].running <==> Unmatched(segment, ps[k]) {
      RunningAreUnmatched(segment, k);
    }
  }

  ghost predicate ShowsGroups(groups: seq<Group>, messages: seq<ChatMessage>) {
    |messages| == |groups| && forall i :: 0 <= i < |groups| ==> ShowsGroup(groups[i], messages[i])
  }

  lemma {:induction false} GroupsShown(groups: seq<Group>)
    requires Sound(groups)
    ensures ShowsGroups(groups, MessagesOf(groups))
  {
    hide ShowsSteps, StepsOf, NoHead;
    if groups != [] {
      var init, last := groups[..|groups| - 1], groups[|groups| - 1];
      assert last in groups && forall g :: g in init ==> g in groups;
      GroupsShown(init);
      StepsShown(last.segment);
    }
  }

  /** Everything the view shows: each message has the id and the text of its own row, and an assistant a
      step per call of its segment, running exactly while the call is unmatched. */
  lemma {:induction false} ShownByRule(rows: seq<Row>)
    ensures ShowsGroups(Groups(rows), Shown(rows))
  {
    hide Shown, Groups, MessagesOf, ShowsGroups, Leading, RowsOf, Sound;
    ShownExactly(rows);
    GroupsShown(Groups(rows));
  }
}
