/** Loading only the last rows of a saved conversation. */
module Window {
  import opened Messages
  import opened History
  import opened RoundTrip
  import opened Sequences

  function Calls(m: Message): seq<ToolCall> {
    if m.Assistant? then m.calls else []
  }

  /** The rows of a message other than its call rows: none or one. */
  function OwnRows(m: Message): nat {
    if m.Assistant? && m.content == "" && m.calls != [] then 0 else 1
  }

  predicate Answers(results: seq<Message>, calls: seq<ToolCall>) {
    && |results| == |calls|
    && forall i :: 0 <= i < |calls| ==> results[i].ToolResult? && results[i].id == calls[i].id
  }

  /** The opening message's results and what follows them, for lists long enough. */
  function Results(ms: seq<Message>): seq<Message>
    requires ms != [] && 1 + |Calls(ms[0])| <= |ms|
  {
    ms[1..1 + |Calls(ms[0])|]
  }

  function Rest(ms: seq<Message>): seq<Message>
    requires ms != [] && 1 + |Calls(ms[0])| <= |ms|
  {
    ms[1 + |Calls(ms[0])|..]
  }

  /** The list without its first `n` elements. */
  function Skip<T>(s: seq<T>, n: nat): seq<T>
    requires n <= |s|
  {
    if n == 0 then s else Skip(s[1..], n - 1)
  }

  lemma {:induction false} SkipSplit<T>(s: seq<T>, n: nat)
    requires n <= |s|
    ensures s == s[..n] + Skip(s, n)
    ensures |Skip(s, n)| == |s| - n
  {
    if n == 0 {
      assert s[..0] == [];
    } else {
      SkipSplit(s[1..], n - 1);
      assert s[..n] == [s[0]] + s[1..][..n - 1];
    }
  }

  /** A well-formed log: user messages, text turns, and tool turns whose calls are answered at once,
      one result per call in call order. */
  predicate Log(ms: seq<Message>)
    decreases |ms|
  {
    ms == [] ||
    (&& !ms[0].ToolResult?
     && !IsEmptyAssistant(ms[0])
     && 1 + |Calls(ms[0])| <= |ms|
     && Answers(Results(ms), Calls(ms[0]))
     && Log(Rest(ms)))
  }

  /** A log as a list of turns: a message that is not a result, and the results that follow it. */
  datatype Turns = End | Turn(head: Message, results: seq<Message>, rest: Turns)

  function Flatten(ts: Turns): seq<Message> {
    match ts
    case End => []
    case Turn(m, results, rest) => [m] + (results + Flatten(rest))
  }

  predicate Sound(ts: Turns) {
    match ts
    case End => true
    case Turn(m, results, rest) =>
      !m.ToolResult? && !IsEmptyAssistant(m) && Answers(results, Calls(m)) && Sound(rest)
  }

  function Parse(ms: seq<Message>): Turns
    requires Log(ms)
    decreases |ms|
  {
    if ms == [] then End else Turn(ms[0], Results(ms), Parse(Rest(ms)))
  }

  lemma {:induction false} LogParts(ms: seq<Message>) returns (m: Message, results: seq<Message>, rest: seq<Message>)
    requires Log(ms) && ms != []
    ensures ms == [m] + (results + rest) && |rest| < |ms|
    ensures !m.ToolResult? && !IsEmptyAssistant(m) && Answers(results, Calls(m)) && Log(rest)
    ensures Parse(ms) == Turn(m, results, Parse(rest))
  {
    m, results, rest := ms[0], Results(ms), Rest(ms);
  }

  /** Every log splits into sound turns that give the log back. */
  lemma {:induction false} ParseLog(ms: seq<Message>)
    requires Log(ms)
    ensures Sound(Parse(ms)) && Flatten(Parse(ms)) == ms
    decreases |ms|
  {
    if ms != [] {
      var m, results, rest := LogParts(ms);
      ParseLog(rest);
    }
  }

  /** How many rows the turn of a message has: its own, its calls' and their results'. */
  function TurnRows(m: Message): nat {
    OwnRows(m) + |Calls(m)| + |Calls(m)|
  }

  /** What should be left when the first `d` rows are cut off and the cut lands in the first turn: the
      calls whose rows are left, with their results, or nothing of the turn when no call row is. */
  function LeftOfTurn(m: Message, results: seq<Message>, rest: seq<Message>, d: nat): seq<Message>
    requires |results| == |Calls(m)| && 0 < d < TurnRows(m)
  {
    var k, t := |Calls(m)|, OwnRows(m);
    if t + k <= d then rest
    else [Assistant("", Skip(Calls(m), d - t))] + (Skip(results, d - t) + rest)
  }

  /** What should be left of a log: whole turns go with their rows. */
  function LeftOf(ts: Turns, d: nat): seq<Message>
    requires Sound(ts)
  {
    match ts
    case End => []
    case Turn(m, results, rest) =>
      if d == 0 then Flatten(ts)
      else if TurnRows(m) <= d then LeftOf(rest, d - TurnRows(m))
      else LeftOfTurn(m, results, Flatten(rest), d)
  }

  function Remaining(ms: seq<Message>, d: nat): seq<Message>
    requires Log(ms)
  {
    ParseLog(ms);
    LeftOf(Parse(ms), d)
  }

  /** The cut does not separate two calls of the turn that share an id. */
  predicate CleanInTurn(m: Message, d: nat)
    requires 0 < d < TurnRows(m)
  {
    var calls, t := Calls(m), OwnRows(m);
    t + |calls| <= d || d <= t || Ids(calls[..d - t]) !! Ids(Skip(calls, d - t))
  }

  predicate CleanIn(ts: Turns, d: nat)
    requires Sound(ts)
  {
    match ts
    case End => true
    case Turn(m, results, rest) =>
      if d == 0 then true
      else if TurnRows(m) <= d then CleanIn(rest, d - TurnRows(m))
      else CleanInTurn(m, d)
  }

  predicate CleanCut(ms: seq<Message>, d: nat)
    requires Log(ms)
  {
    ParseLog(ms);
    CleanIn(Parse(ms), d)
  }

  /** The messages whose rows are the rows left after a cut in the first turn. */
  function TailOfTurn(m: Message, results: seq<Message>, rest: seq<Message>, d: nat): seq<Message>
    requires |results| == |Calls(m)| && 0 < d < TurnRows(m)
  {
    var k, t := |Calls(m)|, OwnRows(m);
    if t + k <= d then Skip(results, d - t - k) + rest
    else [Assistant("", Skip(Calls(m), d - t))] + (results + rest)
  }

  function Tail(ts: Turns, d: nat): seq<Message>
    requires Sound(ts)
  {
    match ts
    case End => []
    case Turn(m, results, rest) =>
      if d == 0 then Flatten(ts)
      else if TurnRows(m) <= d then Tail(rest, d - TurnRows(m))
      else TailOfTurn(m, results, Flatten(rest), d)
  }

  // ----- Rows of a tail -----

  lemma {:induction false} CallRowsLength(calls: seq<ToolCall>)
    ensures |CallRows(calls)| == |calls|
  {
    if calls != [] {
      CallRowsLength(calls[..|calls| - 1]);
    }
  }

  lemma {:induction false} ResultRowsLength(results: seq<Message>)
    requires forall m :: m in results ==> m.ToolResult?
    ensures |SavedRows(results)| == |results|
  {
    if results != [] {
      assert results[|results| - 1] in results;
      ResultRowsLength(results[..|results| - 1]);
    }
  }

  /** The rows of a message before its call rows. */
  function Own(m: Message): (own: seq<Row>)
    requires !m.ToolResult?
    ensures |own| == OwnRows(m)
    ensures RowsOf(m) == own + CallRows(Calls(m))
  {
    match m
    case User(content) => [UserRow(content)]
    case Assistant(content, calls) =>
      if calls == [] then [AssistantRow(content)] else TextRows(content)
  }

  lemma {:induction false} SavedRowsCons(m: Message, after: seq<Message>)
    ensures SavedRows([m] + after) == RowsOf(m) + SavedRows(after)
  {
    SavedRowsAppend([m], after);
    SavedRowsSingle(m);
  }

  /** Cutting off a message's own rows and its first `j` calls leaves the rows of its later calls. */
  lemma {:induction false} CutInCallRows(m: Message, after: seq<Message>, first: seq<ToolCall>, later: seq<ToolCall>)
    returns (lost: seq<Row>)
    requires !m.ToolResult? && Calls(m) == first + later && later != []
    ensures |lost| == OwnRows(m) + |first|
    ensures SavedRows([m] + after) == lost + SavedRows([Assistant("", later)] + after)
  {
    lost := Own(m) + CallRows(first);
    CallRowsLength(first);
    CallRowsAppend(first, later);
    SavedRowsCons(m, after);
    SavedRowsCons(Assistant("", later), after);
    assert RowsOf(Assistant("", later)) == CallRows(later);
    Associative(Own(m), CallRows(first), CallRows(later));
    Associative(lost, CallRows(later), SavedRows(after));
  }

  /** Cutting inside the results leaves the rows of the later results. */
  lemma {:induction false} CutInResultRows(m: Message, results: seq<Message>, rest: seq<Message>, first: seq<Message>, later: seq<Message>)
    returns (lost: seq<Row>)
    requires !m.ToolResult? && Answers(results, Calls(m)) && results == first + later
    ensures |lost| == OwnRows(m) + |Calls(m)| + |first|
    ensures SavedRows([m] + (results + rest)) == lost + SavedRows(later + rest)
  {
    lost := RowsOf(m) + SavedRows(first);
    CallRowsLength(Calls(m));
    assert forall r :: r in results ==> r.ToolResult?;
    assert forall r :: r in first ==> r in results;
    ResultRowsLength(first);
    Associative(first, later, rest);
    SavedRowsCons(m, results + rest);
    SavedRowsAppend(first, later + rest);
    Associative(RowsOf(m), SavedRows(first), SavedRows(later + rest));
  }

  lemma {:induction false} WholeTurnRows(m: Message, results: seq<Message>, rest: seq<Message>)
    returns (lost: seq<Row>)
    requires !m.ToolResult? && Answers(results, Calls(m))
    ensures |lost| == OwnRows(m) + |Calls(m)| + |Calls(m)|
    ensures SavedRows([m] + (results + rest)) == lost + SavedRows(rest)
  {
    assert results == results + [] && [] + rest == rest;
    lost := CutInResultRows(m, results, rest, results, []);
  }

  /** Cutting off only a message's text row leaves its calls. */
  lemma {:induction false} CutOwnRow(m: Message, after: seq<Message>) returns (lost: seq<Row>)
    requires !m.ToolResult? && Calls(m) != []
    ensures |lost| == OwnRows(m)
    ensures SavedRows([m] + after) == lost + SavedRows([Assistant("", Calls(m))] + after)
  {
    lost := Own(m);
    SavedRowsCons(m, after);
    SavedRowsCons(Assistant("", Calls(m)), after);
    assert RowsOf(Assistant("", Calls(m))) == CallRows(Calls(m));
    Associative(Own(m), CallRows(Calls(m)), SavedRows(after));
  }

  lemma NoRows()
    ensures SavedRows([]) == []
  {
  }

  /** `Tail` names the messages of exactly the rows left after the cut. */
  lemma {:induction false} TailRows(ts: Turns, d: nat) returns (lost: seq<Row>)
    requires Sound(ts) && d <= |SavedRows(Flatten(ts))|
    ensures |lost| == d
    ensures SavedRows(Flatten(ts)) == lost + SavedRows(Tail(ts, d))
  {
    hide SavedRows;
    if ts == End || d == 0 {
      NoRows();
      lost := [];
    } else if TurnRows(ts.head) <= d {
      var rest, d' := Flatten(ts.rest), d - TurnRows(ts.head);
      var turn := WholeTurnRows(ts.head, ts.results, rest);
      var inRest := TailRows(ts.rest, d');
      JoinLost(SavedRows(Flatten(ts)), turn, SavedRows(rest), inRest, SavedRows(Tail(ts.rest, d')));
      lost := turn + inRest;
    } else {
      lost := TailRowsInTurn(ts.head, ts.results, Flatten(ts.rest), d);
    }
  }

  lemma {:induction false} JoinLost(all: seq<Row>, turn: seq<Row>, rest: seq<Row>, inRest: seq<Row>, tail: seq<Row>)
    requires all == turn + rest && rest == inRest + tail
    ensures all == (turn + inRest) + tail
  {
  }

  lemma {:induction false} TailRowsInTurn(m: Message, results: seq<Message>, rest: seq<Message>, d: nat) returns (lost: seq<Row>)
    requires !m.ToolResult? && Answers(results, Calls(m)) && 0 < d < TurnRows(m)
    ensures |lost| == d
    ensures SavedRows([m] + (results + rest)) == lost + SavedRows(TailOfTurn(m, results, rest, d))
  {
    var e := d - OwnRows(m) - |Calls(m)|;
    if e == 0 {
      lost := RowsOf(m);
      CallRowsLength(Calls(m));
      SavedRowsCons(m, results + rest);
    } else if e > 0 {
      SkipSplit(results, e);
      lost := CutInResultRows(m, results, rest, results[..e], Skip(results, e));
    } else if d == OwnRows(m) {
      lost := CutOwnRow(m, results + rest);
    } else {
      var j := d - OwnRows(m);
      SkipSplit(Calls(m), j);
      lost := CutInCallRows(m, results + rest, Calls(m)[..j], Skip(Calls(m), j));
    }
  }

  // ----- What is matched in a tail -----

  /** Every result of the list has its call before it, or among the ids already seen. */
  predicate Follows(seen: set<string>, ms: seq<Message>) {
    ms == [] ||
    (var front, m := ms[..|ms| - 1], ms[|ms| - 1];
     Follows(seen, front) && (m.ToolResult? ==> m.id in seen + CallIds(front)))
  }

  lemma {:induction false} FollowsSnoc(seen: set<string>, ms: seq<Message>, m: Message)
    ensures Follows(seen, ms + [m]) <==> Follows(seen, ms) && (m.ToolResult? ==> m.id in seen + CallIds(ms))
  {
    assert (ms + [m])[..|ms|] == ms;
  }

  lemma {:induction false} FollowsAppend(seen: set<string>, a: seq<Message>, b: seq<Message>)
    requires Follows(seen, a) && Follows(seen, b)
    ensures Follows(seen, a + b)
    decreases |b|
  {
    if b == [] {
      assert a + b == a;
    } else {
      var b', m := b[..|b| - 1], b[|b| - 1];
      assert b == b' + [m];
      FollowsSnoc(seen, b', m);
      FollowsAppend(seen, a, b');
      CallIdsAppend(a, b');
      FollowsSnoc(seen, a + b', m);
      Associative(a, b', [m]);
    }
  }

  lemma {:induction false} OrderedFollows(seen: set<string>, ms: seq<Message>)
    requires Ordered(ms)
    ensures Follows(seen, ms)
    decreases |ms|
  {
    if ms != [] {
      var front := ms[..|ms| - 1];
      forall j | 0 <= j < |front| && front[j].ToolResult?
        ensures front[j].id in CallIds(front[..j])
      {
        assert ms[..j] == front[..j];
      }
      OrderedFollows(seen, front);
    }
  }

  lemma {:induction false} AnswersFollow(seen: set<string>, results: seq<Message>)
    requires forall r :: r in results ==> r.ToolResult? && r.id in seen
    ensures Follows(seen, results)
    decreases |results|
  {
    if results != [] {
      assert results[|results| - 1] in results;
      AnswersFollow(seen, results[..|results| - 1]);
    }
  }

  lemma {:induction false} MatchedAppend(a: seq<Message>, b: seq<Message>)
    requires Follows(CallIds(Matched(a)), b)
    ensures Matched(a + b) == Matched(a) + b
    decreases |b|
  {
    if b == [] {
      assert a + b == a;
    } else {
      var b', m := b[..|b| - 1], b[|b| - 1];
      MatchedAppend(a, b');
      assert b == b' + [m];
      MatchedAppendStep(a, b', m);
    }
  }

  lemma {:induction false} MatchedAppendStep(a: seq<Message>, b: seq<Message>, m: Message)
    requires Matched(a + b) == Matched(a) + b
    requires m.ToolResult? ==> m.id in CallIds(Matched(a)) + CallIds(b)
    ensures Matched(a + (b + [m])) == Matched(a) + (b + [m])
  {
    MatchedSnoc(a + b, m);
    CallIdsAppend(Matched(a), b);
    Associative(a, b, [m]);
    Associative(Matched(a), b, [m]);
  }

  /** Results whose calls are gone are dropped. */
  lemma {:induction false} MatchedNone(results: seq<Message>)
    requires forall r :: r in results ==> r.ToolResult?
    ensures Matched(results) == []
  {
    if results != [] {
      assert results[|results| - 1] in results;
      MatchedNone(results[..|results| - 1]);
    }
  }

  /** After one message, exactly the results of its own calls are kept. */
  ghost predicate KeptAfter(first: Message, results: seq<Message>, kept: seq<Message>) {
    && first.Assistant?
    && kept != [] && kept[0] == first
    && CallIds(kept) == Ids(first.calls)
    && (forall i :: 1 <= i < |kept| ==> kept[i].ToolResult?)
    && (|kept| == 1 <==> forall r :: r in results ==> r.ToolResult? && r.id !in Ids(first.calls))
  }

  lemma {:induction false} KeptAfterStep(first: Message, results: seq<Message>, kept: seq<Message>, r: Message)
    requires (forall r :: r in results ==> r.ToolResult?) && r.ToolResult?
    requires KeptAfter(first, results, kept)
    ensures forall r' :: r' in results + [r] ==> r'.ToolResult?
    ensures KeptAfter(first, results + [r], if r.id !in CallIds(kept) then kept else kept + [r])
  {
    CallIdsAppend(kept, [r]);
    CallIdsSingle(r);
    assert r in results + [r];
  }

  lemma {:induction false} MatchedFirst(first: Message)
    requires first.Assistant?
    ensures KeptAfter(first, [], Matched([first]))
  {
    assert [first][..0] == [];
    assert Matched([first]) == [first];
    CallIdsSingle(first);
  }

  lemma {:induction false} MatchedAfter(first: Message, results: seq<Message>)
    requires first.Assistant?
    requires forall r :: r in results ==> r.ToolResult?
    ensures KeptAfter(first, results, Matched([first] + results))
    decreases |results|
  {
    if results == [] {
      MatchedFirst(first);
      assert [first] + results == [first];
    } else {
      var front, r := results[..|results| - 1], results[|results| - 1];
      assert results == front + [r];
      MatchedAfter(first, front);
      MatchedAfterStep(first, front, r);
    }
  }

  lemma {:induction false} MatchedAfterStep(first: Message, front: seq<Message>, r: Message)
    requires (forall r' :: r' in front ==> r'.ToolResult?) && r.ToolResult?
    requires KeptAfter(first, front, Matched([first] + front))
    ensures KeptAfter(first, front + [r], Matched([first] + (front + [r])))
  {
    KeptAfterStep(first, front, Matched([first] + front), r);
    MatchedSnoc([first] + front, r);
    Associative([first], front, [r]);
  }

  lemma {:induction false} AnsweredIds(results: seq<Message>, calls: seq<ToolCall>)
    requires Answers(results, calls)
    ensures CallIds(results) == {} && ResultIds(results) == Ids(calls)
  {
    forall c | c in calls ensures c.id in ResultIds(results) {
      var i :| 0 <= i < |calls| && calls[i] == c;
      assert results[i] in results;
    }
    AnswerIds(calls, results);
  }

  lemma {:induction false} TurnPaired(m: Message, results: seq<Message>)
    requires !m.ToolResult? && !IsEmptyAssistant(m) && Answers(results, Calls(m))
    ensures Paired([m] + results)
  {
    CallIdsAppend([m], results);
    CallIdsSingle(m);
    AnsweredIds(results, Calls(m));
    AnswerIds(Calls(m), results);
    OrderedAppend([m], results);
  }

  /** A log is paired. */
  lemma {:induction false} LogPaired(ms: seq<Message>)
    requires Log(ms)
    ensures Paired(ms)
    decreases |ms|
  {
    if ms != [] {
      var m, results, rest := LogParts(ms);
      LogPaired(rest);
      TurnThenRest(m, results, rest);
    }
  }

  lemma {:induction false} TurnThenRest(m: Message, results: seq<Message>, rest: seq<Message>)
    requires !m.ToolResult? && !IsEmptyAssistant(m) && Answers(results, Calls(m))
    requires Paired(rest)
    ensures Paired([m] + (results + rest))
  {
    TurnPaired(m, results);
    PairedAppend([m] + results, rest);
    Associative([m], results, rest);
  }

  lemma {:induction false} TurnsPaired(ts: Turns)
    requires Sound(ts)
    ensures Paired(Flatten(ts))
  {
    if ts != End {
      TurnsPaired(ts.rest);
      TurnThenRest(ts.head, ts.results, Flatten(ts.rest));
    }
  }

  lemma {:induction false} SeparateParts(a: seq<Message>, b: seq<Message>)
    ensures Separate(a + b) ==> Separate(a) && Separate(b)
    ensures Separate(a) && Separate(b) && !(EndsWithAssistant(a) && b != [] && b[0].Assistant? && b[0].content == "")
        ==> Separate(a + b)
  {
    var c := a + b;
    assert forall i :: 0 < i < |a| ==> MergesAt(a, i) == MergesAt(c, i);
    assert forall i :: 0 < i < |b| ==> MergesAt(b, i) == MergesAt(c, |a| + i);
    if !Separate(c) {
      var i :| 0 < i < |c| && MergesAt(c, i);
      if |a| < i {
        assert MergesAt(b, i - |a|);
      }
    }
  }

  /** What loading relies on: the matched messages are distinguishable and every call is answered. */
  ghost predicate Loadable(tail: seq<Message>) {
    && NoEmptyAssistant(tail)
    && Separate(Matched(tail))
    && CallIds(Matched(tail)) <= ResultIds(Matched(tail))
  }

  /** The cut leaves only results of the first turn. */
  lemma {:induction false} MatchedInResults(results: seq<Message>, rest: seq<Message>)
    requires forall r :: r in results ==> r.ToolResult?
    requires Paired(rest) && Separate(rest)
    ensures Loadable(results + rest) && Matched(results + rest) == rest
  {
    MatchedNone(results);
    OrderedFollows({}, rest);
    assert CallIds([]) == {};
    MatchedAppend(results, rest);
    assert [] + rest == rest;
  }

  /** The cut leaves some calls of the first turn: of the results before theirs, those sharing an id
      with a call that is left are kept. */
  lemma {:induction false} MatchedAcross(cut: Message, kept: seq<Message>, a: seq<Message>, found: seq<Message>, rest: seq<Message>)
    requires cut.Assistant? && kept == Matched(a) && CallIds(kept) == Ids(cut.calls)
    requires Answers(found, cut.calls) && Ordered(rest)
    ensures Matched(a + (found + rest)) == kept + (found + rest)
  {
    AnswerIds(cut.calls, found);
    AnswersFollow(Ids(cut.calls), found);
    OrderedFollows(Ids(cut.calls), rest);
    FollowsAppend(Ids(cut.calls), found, rest);
    MatchedAppend(a, found + rest);
  }

  /** Every kept call is answered by the results that follow. */
  lemma {:induction false} AllAnswered(calls: seq<ToolCall>, kept: seq<Message>, found: seq<Message>, rest: seq<Message>)
    requires CallIds(kept) == Ids(calls) && Answers(found, calls)
    requires CallIds(rest) <= ResultIds(rest)
    ensures CallIds(kept + (found + rest)) <= ResultIds(kept + (found + rest))
  {
    AnsweredIds(found, calls);
    CallIdsAppend(kept, found + rest);
    CallIdsAppend(found, rest);
  }

  lemma {:induction false} NotEmptyAcross(cut: Message, lost: seq<Message>, found: seq<Message>, rest: seq<Message>)
    requires cut.Assistant? && cut.calls != []
    requires forall r :: r in lost + found ==> r.ToolResult?
    requires NoEmptyAssistant(rest)
    ensures NoEmptyAssistant([cut] + lost + (found + rest))
  {
    forall m | m in [cut] + lost + (found + rest)
      ensures !IsEmptyAssistant(m)
    {
      assert m == cut || m in lost + found || m in rest;
    }
  }

  lemma {:induction false} MatchedInCalls(cut: Message, lost: seq<Message>, found: seq<Message>, rest: seq<Message>)
    returns (kept: seq<Message>)
    requires cut.Assistant? && cut.calls != []
    requires forall r :: r in lost ==> r.ToolResult?
    requires Answers(found, cut.calls)
    requires Paired(rest) && Separate(rest)
    ensures Loadable([cut] + lost + (found + rest))
    ensures Matched([cut] + lost + (found + rest)) == kept + (found + rest)
    ensures kept != [] && kept[0] == cut
    ensures |kept| == 1 <==> forall r :: r in lost ==> r.id !in Ids(cut.calls)
  {
    MatchedAfter(cut, lost);
    kept := Matched([cut] + lost);
    MatchedAcross(cut, kept, [cut] + lost, found, rest);
    AllAnswered(cut.calls, kept, found, rest);
    AnswerIds(cut.calls, found);
    NotEmptyAcross(cut, lost, found, rest);
    MatchedSeparate(kept, found, rest);
  }

  lemma {:induction false} AnswerIds(calls: seq<ToolCall>, results: seq<Message>)
    requires Answers(results, calls)
    ensures forall r :: r in results ==> r.ToolResult? && r.id in Ids(calls)
  {
    forall r | r in results ensures r.ToolResult? && r.id in Ids(calls) {
      var i :| 0 <= i < |results| && results[i] == r;
      assert calls[i] in calls;
    }
  }

  lemma {:induction false} MatchedSeparate(kept: seq<Message>, found: seq<Message>, rest: seq<Message>)
    requires forall i :: 1 <= i < |kept| ==> kept[i].ToolResult?
    requires found != [] && forall r :: r in found ==> r.ToolResult?
    requires Separate(rest)
    ensures Separate(kept + (found + rest))
  {
    assert forall i :: 0 < i < |kept| ==> !MergesAt(kept, i);
    assert forall i {:trigger MergesAt(found, i)} :: 0 < i < |found| ==> found[i] in found && !MergesAt(found, i);
    assert found[|found| - 1] in found && found[0] in found;
    SeparateParts(found, rest);
    assert (found + rest)[0] == found[0];
    SeparateParts(kept, found + rest);
  }

  // ----- The window theorem -----

  /** Whether dropping the first calls of a turn drops exactly their results. */
  lemma {:induction false} LostIds(lost: seq<Message>, first: seq<ToolCall>, later: seq<ToolCall>)
    requires Answers(lost, first)
    ensures forall r :: r in lost ==> r.ToolResult?
    ensures (forall r :: r in lost ==> r.id !in Ids(later)) <==> Ids(first) !! Ids(later)
  {
    if forall r :: r in lost ==> r.id !in Ids(later) {
      forall c | c in first ensures c.id !in Ids(later) {
        var i :| 0 <= i < |first| && first[i] == c;
        assert lost[i] in lost && lost[i].id == c.id;
      }
    }
    AnswerIds(first, lost);
  }

  lemma {:induction false} AnswersSplit(results: seq<Message>, calls: seq<ToolCall>, lost: seq<Message>, found: seq<Message>,
                                        first: seq<ToolCall>, later: seq<ToolCall>)
    requires Answers(results, calls)
    requires results == lost + found && calls == first + later && |lost| == |first|
    ensures Answers(lost, first) && Answers(found, later)
  {
    forall i | 0 <= i < |later|
      ensures found[i].ToolResult? && found[i].id == later[i].id
    {
      assert results[|lost| + i] == found[i] && calls[|lost| + i] == later[i];
    }
    forall i | 0 <= i < |first|
      ensures lost[i].ToolResult? && lost[i].id == first[i].id
    {
      assert results[i] == lost[i] && calls[i] == first[i];
    }
  }

  /** What is matched of a tail, compared with what should be left of it. */
  ghost predicate KeepsExactly(tail: seq<Message>, left: seq<Message>, clean: bool) {
    && Loadable(tail)
    && (clean ==> Matched(tail) == left)
    && (!clean ==> |Matched(tail)| != |left|)
  }

  lemma {:induction false} CutParts(cut: Message, lost: seq<Message>, found: seq<Message>, rest: seq<Message>, clean: bool)
    requires cut.Assistant? && cut.calls != []
    requires forall r :: r in lost ==> r.ToolResult?
    requires Answers(found, cut.calls)
    requires Paired(rest) && Separate(rest)
    requires clean <==> forall r :: r in lost ==> r.id !in Ids(cut.calls)
    ensures KeepsExactly([cut] + lost + (found + rest), [cut] + (found + rest), clean)
  {
    var kept := MatchedInCalls(cut, lost, found, rest);
    assert |kept| == 1 ==> kept == [cut];
  }

  /** A cut between two calls of a turn. */
  lemma {:induction false} CutInCalls(results: seq<Message>, calls: seq<ToolCall>, rest: seq<Message>, j: nat, cut: Message)
    requires Answers(results, calls) && 0 < j < |calls| && cut == Assistant("", Skip(calls, j))
    requires Paired(rest) && Separate(rest)
    ensures KeepsExactly([cut] + (results + rest), [cut] + (Skip(results, j) + rest), Ids(calls[..j]) !! Ids(Skip(calls, j)))
  {
    SkipSplit(results, j);
    SkipSplit(calls, j);
    CutBetween(cut, results, calls, results[..j], Skip(results, j), calls[..j], Skip(calls, j), rest);
  }

  lemma {:induction false} CutBetween(cut: Message, results: seq<Message>, calls: seq<ToolCall>, lost: seq<Message>, found: seq<Message>,
                                      first: seq<ToolCall>, later: seq<ToolCall>, rest: seq<Message>)
    requires Answers(results, calls) && cut == Assistant("", later) && later != []
    requires results == lost + found && calls == first + later && |lost| == |first|
    requires Paired(rest) && Separate(rest)
    ensures KeepsExactly([cut] + (results + rest), [cut] + (found + rest), Ids(first) !! Ids(later))
  {
    AnswersSplit(results, calls, lost, found, first, later);
    LostIds(lost, first, later);
    CutParts(cut, lost, found, rest, Ids(first) !! Ids(later));
    Regroup(cut, results, lost, found, rest);
  }

  /** A cut between the text of a turn and its calls. */
  lemma {:induction false} CutBeforeCalls(cut: Message, results: seq<Message>, rest: seq<Message>)
    requires cut.Assistant? && cut.calls != [] && Answers(results, cut.calls)
    requires Paired(rest) && Separate(rest)
    ensures KeepsExactly([cut] + (results + rest), [cut] + (results + rest), true)
  {
    CutParts(cut, [], results, rest, true);
    assert [cut] + [] == [cut];
  }

  lemma {:induction false} Regroup(cut: Message, results: seq<Message>, lost: seq<Message>, found: seq<Message>, rest: seq<Message>)
    requires results == lost + found
    ensures [cut] + lost + (found + rest) == [cut] + (results + rest)
  {
  }

  lemma {:induction false} StoredLength(a: seq<Message>, b: seq<Message>)
    requires |a| != |b|
    ensures Stored(a) != Stored(b)
  {
  }

  lemma {:induction false} WholeKeeps(ts: Turns)
    requires Sound(ts) && Separate(Flatten(ts))
    ensures KeepsExactly(Flatten(ts), Flatten(ts), true)
  {
    TurnsPaired(ts);
    MatchedAll(Flatten(ts));
  }

  /** What a tail keeps is what should remain, exactly for a clean cut. */
  lemma {:induction false} TailKeeps(ts: Turns, d: nat)
    requires Sound(ts) && Separate(Flatten(ts))
    ensures KeepsExactly(Tail(ts, d), LeftOf(ts, d), CleanIn(ts, d))
  {
    if ts == End || d == 0 {
      WholeKeeps(ts);
    } else {
      RestSeparate(ts.head, ts.results, Flatten(ts.rest));
      if TurnRows(ts.head) <= d {
        TailKeeps(ts.rest, d - TurnRows(ts.head));
      } else {
        TurnsPaired(ts.rest);
        TurnKeeps(ts.head, ts.results, Flatten(ts.rest), d);
      }
    }
  }

  lemma {:induction false} RestSeparate(m: Message, results: seq<Message>, rest: seq<Message>)
    requires Separate([m] + (results + rest))
    ensures Separate(rest)
  {
    Associative([m], results, rest);
    SeparateParts([m] + results, rest);
  }

  lemma {:induction false} TurnKeeps(m: Message, results: seq<Message>, rest: seq<Message>, d: nat)
    requires Answers(results, Calls(m)) && Paired(rest) && Separate(rest)
    requires 0 < d < TurnRows(m)
    ensures KeepsExactly(TailOfTurn(m, results, rest, d), LeftOfTurn(m, results, rest, d), CleanInTurn(m, d))
  {
    hide Paired, Loadable, Matched, Ids;
    var e := d - OwnRows(m) - |Calls(m)|;
    if e >= 0 {
      AnswerIds(Calls(m), results);
      SkipWithin(results, e);
      MatchedInResults(Skip(results, e), rest);
    } else if d == OwnRows(m) {
      CutBeforeCalls(Assistant("", Calls(m)), results, rest);
    } else {
      CutInCalls(results, Calls(m), rest, d - OwnRows(m), Assistant("", Skip(Calls(m), d - OwnRows(m))));
    }
  }

  lemma {:induction false} SkipWithin<T>(s: seq<T>, n: nat)
    requires n <= |s|
    ensures forall x :: x in Skip(s, n) ==> x in s
  {
    if n > 0 {
      SkipWithin(s[1..], n - 1);
    }
  }

  /** For every well-formed log and every cut, loading the rows after the cut gives exactly the
      messages that should remain, if and only if the cut separates no two calls sharing an id. */
  lemma {:induction false} LoadAfterCut(ms: seq<Message>, d: nat)
    requires Log(ms) && Separate(ms) && d <= |SavedRows(ms)|
    ensures Load(SavedRows(ms)[d..]) == Stored(Remaining(ms, d)) <==> CleanCut(ms, d)
  {
    ParseLog(ms);
    var ts := Parse(ms);
    var lost := TailRows(ts, d);
    DropLost(SavedRows(ms), lost, SavedRows(Tail(ts, d)));
    TailKeeps(ts, d);
    LoadSaved(Tail(ts, d));
    if !CleanCut(ms, d) {
      StoredLength(Matched(Tail(ts, d)), LeftOf(ts, d));
    }
  }

  lemma {:induction false} DropLost<T>(all: seq<T>, lost: seq<T>, left: seq<T>)
    requires all == lost + left
    ensures all[|lost|..] == left
  {
  }

  predicate DistinctIds(calls: seq<ToolCall>) {
    forall i, j :: 0 <= i < j < |calls| ==> calls[i].id != calls[j].id
  }

  /** No turn uses a call id twice; different turns may share ids. */
  predicate DistinctTurns(ms: seq<Message>) {
    forall m :: m in ms ==> DistinctIds(Calls(m))
  }

  lemma {:induction false} DistinctIsClean(ts: Turns, d: nat)
    requires Sound(ts) && DistinctTurns(Flatten(ts))
    ensures CleanIn(ts, d)
  {
    if ts != End && d != 0 {
      var m := ts.head;
      DistinctRest(m, ts.results, Flatten(ts.rest));
      if TurnRows(m) <= d {
        DistinctIsClean(ts.rest, d - TurnRows(m));
      } else if OwnRows(m) < d < OwnRows(m) + |Calls(m)| {
        var j := d - OwnRows(m);
        SkipSplit(Calls(m), j);
        DistinctParts(Calls(m), Calls(m)[..j], Skip(Calls(m), j));
      }
    }
  }

  lemma {:induction false} DistinctRest(m: Message, results: seq<Message>, rest: seq<Message>)
    requires DistinctTurns([m] + (results + rest))
    ensures DistinctIds(Calls(m)) && DistinctTurns(rest)
  {
    var ms := [m] + (results + rest);
    assert m in ms;
    assert forall r :: r in rest ==> r in results + rest && r in ms;
  }

  lemma {:induction false} DistinctParts(calls: seq<ToolCall>, first: seq<ToolCall>, later: seq<ToolCall>)
    requires DistinctIds(calls) && calls == first + later
    ensures Ids(first) !! Ids(later)
  {
    forall c, c' | c in first && c' in later
      ensures c.id != c'.id
    {
      var i :| 0 <= i < |first| && first[i] == c;
      var j :| 0 <= j < |later| && later[j] == c';
      assert calls[i] == c && calls[|first| + j] == c';
    }
  }

  /** The condition matters: one turn that uses an id twice, cut between the two calls, does not load to
      what should remain. */
  lemma SharedIdMisloads(c: ToolCall, content: string)
    ensures
      var result := ToolResult(c.id, content, false);
      var ms := [Assistant("", [c, c]), result, result];
      && Log(ms) && Separate(ms) && !CleanCut(ms, 1)
      && 1 <= |SavedRows(ms)| && Load(SavedRows(ms)[1..]) != Stored(Remaining(ms, 1))
  {
    var result := ToolResult(c.id, content, false);
    var ms := [Assistant("", [c, c]), result, result];
    assert Results(ms) == [result, result] && Rest(ms) == [];
    assert Calls(ms[0])[..1] == [c] && Skip(Calls(ms[0]), 1) == Calls(ms[0])[1..] == [c];
    IdsSingle(c);
    assert !CleanCut(ms, 1);
    SavedRowsNotEmpty(ms);
    LoadAfterCut(ms, 1);
  }

  lemma SavedRowsNotEmpty(ms: seq<Message>)
    requires ms != [] && ms[|ms| - 1].ToolResult?
    ensures SavedRows(ms) != []
  {
  }

  /** How many rows a limit cuts off. */
  function CutOff(rows: nat, limit: nat): nat {
    if rows <= limit then 0 else rows - limit
  }

  /** Loading only the last `limit` rows gives exactly what should remain of the log, if and only if the cut
      is clean, as it always is when no turn uses an id twice. */
  lemma {:induction false} LoadWindow(ms: seq<Message>, limit: nat)
    requires Log(ms) && Separate(ms)
    ensures
      var d := CutOff(|SavedRows(ms)|, limit);
      && (Load(LastRows(SavedRows(ms), limit)) == Stored(Remaining(ms, d)) <==> CleanCut(ms, d))
      && (DistinctTurns(ms) ==> CleanCut(ms, d))
  {
    var rows := SavedRows(ms);
    var d := CutOff(|rows|, limit);
    assert LastRows(rows, limit) == rows[d..];
    ParseLog(ms);
    if DistinctTurns(ms) {
      DistinctIsClean(Parse(ms), d);
    }
    LoadAfterCut(ms, d);
  }
}
