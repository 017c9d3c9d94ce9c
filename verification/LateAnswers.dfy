/** Answers that come late: which responses of earlier requests can still be recorded, and so whose
    outcome a status can show. */
module LateAnswers {
  import opened Options
  import opened Payloads
  import opened Store
  import opened Commands
  import opened Sequences
  import opened Hub
  import P = CallProtocol

  // ----- Whose outcome a status is -----

  /** The request whose recorded outcome a status column shows; `None` while it is pending or untouched. */
  function Owner(history: seq<Entry>, chargePointId: string, column: Column): Option<nat> {
    if history == [] then None
    else
      var e := history[|history| - 1];
      if StatusSet(e, chargePointId, column) == None then Owner(history[..|history| - 1], chargePointId, column)
      else if e.Answer? then Some(e.write.request) else None
  }

  /** Some entry reset the column of the charger. */
  predicate WasReset(history: seq<Entry>, chargePointId: string, column: Column) {
    history != [] &&
    (var e := history[|history| - 1];
     (e.Reset? && StatusSet(e, chargePointId, column).Some?) || WasReset(history[..|history| - 1], chargePointId, column))
  }

  lemma {:induction false} NoOwner(initial: Option<int>, history: seq<Entry>, id: string, column: Column)
    requires Owner(history, id, column) == None && WasReset(history, id, column)
    ensures LastStatus(initial, history, id, column) == Some(STATUS_PENDING)
  {
    if StatusSet(history[|history| - 1], id, column) == None {
      NoOwner(initial, history[..|history| - 1], id, column);
    }
  }

  /** The entry that made it so: nothing after it says anything about the column. */
  lemma {:induction false} OwnerAt(history: seq<Entry>, id: string, column: Column) returns (i: nat)
    requires Owner(history, id, column).Some?
    ensures i < |history| && history[i].Answer? && history[i].write.request == Owner(history, id, column).value
    ensures StatusSet(history[i], id, column).Some?
    ensures forall j :: i < j < |history| ==> StatusSet(history[j], id, column) == None
  {
    hide StatusSet;
    if StatusSet(history[|history| - 1], id, column) == None {
      i := OwnerAt(history[..|history| - 1], id, column);
    } else {
      i := |history| - 1;
    }
  }

  lemma {:induction false} LastStatusAt(initial: Option<int>, history: seq<Entry>, id: string, column: Column, i: nat)
    requires i < |history| && StatusSet(history[i], id, column).Some?
    requires forall j :: i < j < |history| ==> StatusSet(history[j], id, column) == None
    ensures LastStatus(initial, history, id, column) == StatusSet(history[i], id, column)
  {
    hide StatusSet;
    if i < |history| - 1 {
      LastStatusAt(initial, history[..|history| - 1], id, column, i);
    }
  }

  lemma {:induction false} NeverPending(w: Write)
    ensures Outcome(w.command.action, w.command.payload, w.response) != Some(STATUS_PENDING)
  {
  }

  /** Once a column was reset, it is out of pending exactly while it has an owner, and then shows the
      outcome of a response to a call of that request, a command of that kind to that charger. */
  lemma {:induction false} OwnerShown(db: Db, steps: seq<HubStep>, id: string, column: Column) returns (w: Option<Write>)
    requires After(db, steps).Some? && id in db.chargers
    requires WasReset(After(db, steps).value.history, id, column)
    ensures
      var s := After(db, steps).value;
      && id in s.db.chargers
      && (w.Some? <==> Owner(s.history, id, column).Some?)
      && (w.Some? <==> ColumnOf(s.db.chargers[id], column) != Some(STATUS_PENDING))
      && (w.Some? ==>
            && Answer(w.value) in s.history && Correlated(s, steps, w.value)
            && Owner(s.history, id, column) == Some(w.value.request)
            && StatusSet(Answer(w.value), id, column) == ColumnOf(s.db.chargers[id], column) != None)
  {
    hide Correlated, Outcome, StatusColumn;
    TablesFollowHistory(db, steps, id, column);
    var s := After(db, steps).value;
    var initial := ColumnOf(db.chargers[id], column);
    if Owner(s.history, id, column).Some? {
      var i := OwnerAt(s.history, id, column);
      LastStatusAt(initial, s.history, id, column, i);
      WritesCorrelated(db, steps, i);
      NeverPending(s.history[i].write);
      w := Some(s.history[i].write);
      assert Answer(w.value) == s.history[i];
    } else {
      NoOwner(initial, s.history, id, column);
      w := None;
    }
  }

  lemma {:induction false} OwnerSnoc(history: seq<Entry>, e: Entry, id: string, column: Column)
    ensures Owner(history + [e], id, column)
         == if StatusSet(e, id, column) == None then Owner(history, id, column)
            else if e.Answer? then Some(e.write.request) else None
  {
    assert (history + [e])[..|history|] == history;
  }

  /** The other case is real: whenever a call has returned and is not handled yet, asking again first
      makes its outcome show as that of the newer request. */
  lemma {:induction false} LateOutcomeShows(db: Db, steps: seq<HubStep>, c: nat, n: nat) returns (steps': seq<HubStep>)
    requires After(db, steps).Some? && Enabled(After(db, steps).value, Handle(c, n))
    requires
      var s := After(db, steps).value;
      var w := WriteOf(s.conns[c], c, n);
      && w.command.identity in s.db.chargers && ResetColumn(w.command.action).Some?
      && Outcome(w.command.action, w.command.payload, w.response).Some?
    ensures After(db, steps').Some?
    ensures
      var s, s' := After(db, steps).value, After(db, steps').value;
      var w := WriteOf(s.conns[c], c, n);
      && s'.requests == s.requests + [Request(w.command, Prepared, {})]
      && Owner(s'.history, w.command.identity, ResetColumn(w.command.action).value) == Some(w.request)
      && w.request < |s.requests|
  {
    var s := After(db, steps).value;
    var w := WriteOf(s.conns[c], c, n);
    RunKeepsInv(db, steps);
    assert CallsOf(s, s.conns[c]);
    steps' := Extend(db, steps, Ask(w.command));
    var s1 := After(db, steps').value;
    assert Unhandled(s1, c, n);
    steps' := Extend(db, steps', Handle(c, n));
    OwnerSnoc(s1.history, Answer(w), w.command.identity, ResetColumn(w.command.action).value);
  }

  // ----- Which answers can still be recorded -----

  /** The request has a receiver that is still up and has not started its call. */
  predicate Awaits(s: HubState, k: nat, c: nat) {
    && k < |s.requests| && c in s.requests[k].receivers
    && c < |s.conns| && s.conns[c].live && k !in s.conns[c].origins
    && s.conns[c].identity == s.requests[k].command.identity
  }

  /** The request has a call that can return the response, or has, without it being handled yet. */
  ghost predicate Returnable(s: HubState, k: nat, c: nat, n: nat, p: Payload) {
    && c < |s.conns| && n < |s.conns[c].origins| && n < |s.conns[c].protocol.calls|
    && s.conns[c].origins[n] == k
    && P.MayReturn(s.conns[c].protocol, n, s.conns[c].live, p)
    && Unhandled(s, c, n)
  }

  /** The request is not published yet, has such a receiver, or has such a call. */
  ghost predicate CanAnswer(s: HubState, k: nat, p: Payload)
    requires k < |s.requests|
  {
    || s.requests[k].stage != Published
    || (exists c :: Awaits(s, k, c))
    || (exists c, n :: Returnable(s, k, c, n, p))
  }

  ghost predicate ProtocolsExact(s: HubState) {
    forall c :: 0 <= c < |s.conns| ==> P.PendingExact(s.conns[c].protocol)
  }

  lemma {:induction false} RunKeepsProtocols(db: Db, steps: seq<HubStep>)
    requires After(db, steps).Some?
    ensures ProtocolsExact(After(db, steps).value)
  {
    hide After;
    var s := After(db, steps).value;
    forall c | 0 <= c < |s.conns|
      ensures P.PendingExact(s.conns[c].protocol)
    {
      ProjectRun(db, steps, c);
      P.RunKeepsInv(Project(db, steps, c));
    }
  }

  /** Receivers exist. */
  ghost predicate ReceiversExist(s: HubState) {
    forall r, c :: 0 <= r < |s.requests| && c in s.requests[r].receivers ==> c < |s.conns|
  }

  lemma {:induction false} StepKeepsReceivers(s: HubState, step: HubStep)
    requires ReceiversExist(s) && Enabled(s, step)
    ensures ReceiversExist(Apply(s, step))
  {
    hide Effect;
  }

  lemma {:induction false} RunKeepsReceivers(db: Db, steps: seq<HubStep>)
    requires After(db, steps).Some?
    ensures ReceiversExist(After(db, steps).value)
  {
    hide Apply, Enabled, ReceiversExist;
    if steps == [] {
      NoReceivers(db);
    } else {
      AfterStep(db, steps);
      RunKeepsReceivers(db, steps[..|steps| - 1]);
      StepKeepsReceivers(After(db, steps[..|steps| - 1]).value, steps[|steps| - 1]);
    }
  }

  lemma NoReceivers(db: Db)
    ensures ReceiversExist(Initial(db))
  {
  }

  ghost predicate Inv(s: HubState) {
    CallsPublished(s) && WritesMatched(s) && ProtocolsExact(s) && ReceiversExist(s)
  }

  lemma {:induction false} RunKeepsAll(db: Db, steps: seq<HubStep>)
    requires After(db, steps).Some?
    ensures Inv(After(db, steps).value)
  {
    hide After;
    RunKeepsInv(db, steps);
    RunKeepsProtocols(db, steps);
    RunKeepsReceivers(db, steps);
  }

  // ----- No step makes an answer possible that was not -----

  lemma {:induction false} AwaitsBefore(s: HubState, step: HubStep, k: nat, c: nat)
    requires Enabled(s, step) && ReceiversExist(s) && k < |s.requests| && s.requests[k].stage == Published
    requires Awaits(Apply(s, step), k, c)
    ensures Awaits(s, k, c)
  {
    hide Effect;
  }

  lemma {:induction false} ReturnableBefore(s: HubState, step: HubStep, k: nat, c: nat, n: nat, p: Payload)
    requires Enabled(s, step) && CallsPublished(s) && ProtocolsExact(s) && k < |s.requests|
    requires Returnable(Apply(s, step), k, c, n, p)
    ensures Returnable(s, k, c, n, p) || Awaits(s, k, c)
  {
    hide Effect, P.MayReturn, P.Apply, P.Enabled;
    var s' := Apply(s, step);
    if c < |s.conns| {
      assert CallsOf(s, s.conns[c]);
      UnhandledBefore(s, step, c, n);
      if n < |s.conns[c].origins| {
        MayReturnEarlier(s, step, c, n, p);
      } else {
        StartedOnlyUp(s, step, c, n, p);
      }
    }
  }

  lemma {:induction false} UnhandledBefore(s: HubState, step: HubStep, c: nat, n: nat)
    requires Enabled(s, step) && Unhandled(Apply(s, step), c, n)
    ensures Unhandled(s, c, n)
  {
    hide Effect;
    forall e | e in s.history && e.Answer?
      ensures !(e.write.conn == c && e.write.call == n)
    {
      assert e in Apply(s, step).history by { StepRecords(s, step); }
    }
  }

  lemma {:induction false} MayReturnEarlier(s: HubState, step: HubStep, c: nat, n: nat, p: Payload)
    requires Enabled(s, step) && ProtocolsExact(s) && c < |s.conns| && n < |s.conns[c].protocol.calls|
    requires
      var conn := Apply(s, step).conns[c];
      n < |conn.protocol.calls| && P.MayReturn(conn.protocol, n, conn.live, p)
    ensures P.MayReturn(s.conns[c].protocol, n, s.conns[c].live, p)
  {
    hide Effect, P.MayReturn, P.Apply, P.Enabled, P.PendingExact;
    if step.Disconnect? && step.conn == c {
      P.MayReturnWhileUp(s.conns[c].protocol, n, p);
    } else if step.Progress? && step.conn == c {
      P.MayReturnBefore(s.conns[c].protocol, step.step, n, s.conns[c].live, p);
    } else if step.Forward? && step.conn == c {
      P.StartEnabled(s.conns[c].protocol, s.requests[step.request].command.action, s.requests[step.request].command.payload);
      P.MayReturnBefore(s.conns[c].protocol, ForwardedStep(s, step), n, s.conns[c].live, p);
    }
  }

  /** A call just started can only return while its connection is up. */
  lemma {:induction false} StartedOnlyUp(s: HubState, step: HubStep, c: nat, n: nat, p: Payload)
    requires Enabled(s, step) && CallsPublished(s) && c < |s.conns| && |s.conns[c].origins| <= n
    requires
      var conn := Apply(s, step).conns[c];
      && n < |conn.origins| && n < |conn.protocol.calls| && P.MayReturn(conn.protocol, n, conn.live, p)
    ensures Awaits(s, Apply(s, step).conns[c].origins[n], c)
  {
    hide Effect;
    assert CallsOf(s, s.conns[c]);
  }

  lemma {:induction false} CanAnswerBefore(s: HubState, step: HubStep, k: nat, p: Payload)
    requires Enabled(s, step) && Inv(s) && k < |s.requests|
    ensures k < |Apply(s, step).requests|
    ensures CanAnswer(Apply(s, step), k, p) ==> CanAnswer(s, k, p)
  {
    hide Effect, Awaits, Returnable, CallsPublished, WritesMatched, ProtocolsExact, ReceiversExist;
    var s' := Apply(s, step);
    StepOnRequest(s, step, k);
    if s.requests[k].stage == Published && CanAnswer(s', k, p) {
      if c :| Awaits(s', k, c) {
        AwaitsBefore(s, step, k, c);
      } else {
        var c, n :| Returnable(s', k, c, n, p);
        ReturnableBefore(s, step, k, c, n, p);
      }
    }
  }

  lemma {:induction false} HandledWasPossible(s: HubState, step: HubStep, k: nat, p: Payload)
    requires Enabled(s, step) && Inv(s) && k < |s.requests| && step.Handle?
    requires
      var w := WriteOf(s.conns[step.conn], step.conn, step.call);
      w.request == k && w.response == p
    ensures CanAnswer(s, k, p)
  {
    hide Effect, Unhandled;
    assert Returnable(s, k, step.conn, step.call, p);
  }

  /** Since the first part of a run, the response was recorded for the request. */
  ghost predicate AnsweredSince(before: seq<Entry>, history: seq<Entry>, k: nat, p: Payload) {
    exists i :: |before| <= i < |history| && history[i].Answer? && history[i].write.request == k && history[i].write.response == p
  }

  ghost predicate AnsweredBy(db: Db, steps: seq<HubStep>, more: seq<HubStep>, k: nat, p: Payload)
    requires After(db, steps).Some?
  {
    && After(db, steps + more).Some?
    && AnsweredSince(After(db, steps).value.history, After(db, steps + more).value.history, k, p)
  }

  lemma {:induction false} AfterFront(db: Db, steps: seq<HubStep>, more: seq<HubStep>, step: HubStep)
    requires After(db, steps + (more + [step])).Some?
    ensures After(db, steps + more).Some? && Enabled(After(db, steps + more).value, step)
    ensures After(db, steps + (more + [step])).value == Apply(After(db, steps + more).value, step)
  {
    hide Apply, Enabled;
    Associative(steps, more, [step]);
    assert ((steps + more) + [step])[..|steps + more|] == steps + more;
    AfterStep(db, (steps + more) + [step]);
  }

  lemma {:induction false} PossibleBefore(db: Db, steps: seq<HubStep>, more: seq<HubStep>, k: nat, p: Payload)
    requires After(db, steps).Some? && k < |After(db, steps).value.requests|
    requires After(db, steps + more).Some?
    ensures k < |After(db, steps + more).value.requests|
    ensures |After(db, steps).value.history| <= |After(db, steps + more).value.history|
    ensures CanAnswer(After(db, steps + more).value, k, p) || AnsweredBy(db, steps, more, k, p) ==> CanAnswer(After(db, steps).value, k, p)
    decreases |more|
  {
    hide After, Apply, Enabled, CanAnswer, RecordedBy, Inv, Effect;
    if more == [] {
      assert steps + more == steps;
    } else {
      var front, step := more[..|more| - 1], more[|more| - 1];
      assert more == front + [step];
      AfterFront(db, steps, front, step);
      PossibleBefore(db, steps, front, k, p);
      RunKeepsAll(db, steps + front);
      var s := After(db, steps + front).value;
      CanAnswerBefore(s, step, k, p);
      AnsweredStep(s, step, After(db, steps).value.history, k, p);
    }
  }

  lemma {:induction false} AnsweredStep(s: HubState, step: HubStep, before: seq<Entry>, k: nat, p: Payload)
    requires Enabled(s, step) && Inv(s) && k < |s.requests| && |before| <= |s.history|
    ensures |before| <= |Apply(s, step).history|
    ensures AnsweredSince(before, Apply(s, step).history, k, p) ==> AnsweredSince(before, s.history, k, p) || CanAnswer(s, k, p)
  {
    hide Apply, Enabled, CanAnswer, Inv, Effect;
    StepRecords(s, step);
    var history := Apply(s, step).history;
    if AnsweredSince(before, history, k, p) {
      var i :| |before| <= i < |history| && history[i].Answer? && history[i].write.request == k && history[i].write.response == p;
      if i < |s.history| {
        assert s.history[i] == history[i];
      } else {
        HandledWasPossible(s, step, k, p);
      }
    }
  }

  // ----- Every possible answer is recorded in some continuation -----

  lemma {:induction false} Continue(db: Db, steps: seq<HubStep>, more: seq<HubStep>, step: HubStep) returns (more': seq<HubStep>)
    requires After(db, steps + more).Some? && Enabled(After(db, steps + more).value, step)
    ensures more' == more + [step]
    ensures After(db, steps + more') == Some(Apply(After(db, steps + more).value, step))
  {
    hide Apply, Enabled;
    Associative(steps, more, [step]);
    more' := more + [step];
    var all := Extend(db, steps + more, step);
  }

  ghost predicate NoAsk(more: seq<HubStep>) {
    forall step :: step in more ==> !step.Ask?
  }

  /** Every continuation of a connection's call protocol that its being up or down allows, without new
      calls, is one of the hub. */
  lemma {:induction false} Follow(db: Db, steps: seq<HubStep>, more: seq<HubStep>, c: nat, calls: seq<P.Step>) returns (more': seq<HubStep>)
    requires After(db, steps + more).Some? && c < |After(db, steps + more).value.conns| && NoAsk(more)
    requires P.After(Project(db, steps + more, c) + calls).Some?
    requires P.AllAllowed(calls, After(db, steps + more).value.conns[c].live)
    ensures After(db, steps + more').Some? && NoAsk(more')
    ensures
      var s, s' := After(db, steps + more).value, After(db, steps + more').value;
      && Project(db, steps + more', c) == Project(db, steps + more, c) + calls
      && |s'.conns| == |s.conns| && s'.requests == s.requests && s'.history == s.history && s'.db == s.db
      && s'.conns[c] == s.conns[c].(protocol := P.After(Project(db, steps + more, c) + calls).value)
    decreases |calls|
  {
    hide After, Apply, Enabled, P.After, P.Apply, P.Enabled, P.Allowed, Effect, Unhandled;
    var run := Project(db, steps + more, c);
    if calls == [] {
      assert run + calls == run;
      ProjectRun(db, steps + more, c);
      more' := more;
    } else {
      var front, step := calls[..|calls| - 1], calls[|calls| - 1];
      assert calls == front + [step];
      Associative(run, front, [step]);
      P.AfterPrefix(run + front, step);
      more' := Follow(db, steps, more, c, front);
      more' := FollowStep(db, steps, more', c, step);
    }
  }

  lemma {:induction false} FollowStep(db: Db, steps: seq<HubStep>, more: seq<HubStep>, c: nat, step: P.Step) returns (more': seq<HubStep>)
    requires After(db, steps + more).Some? && c < |After(db, steps + more).value.conns| && NoAsk(more)
    requires
      var conn := After(db, steps + more).value.conns[c];
      !step.Start? && P.Allowed(step, conn.live) && P.Enabled(conn.protocol, step)
    ensures After(db, steps + more').Some? && NoAsk(more')
    ensures Project(db, steps + more', c) == Project(db, steps + more, c) + [step]
    ensures
      var s, s' := After(db, steps + more).value, After(db, steps + more').value;
      && |s'.conns| == |s.conns| && s'.requests == s.requests && s'.history == s.history && s'.db == s.db
      && s'.conns[c] == s.conns[c].(protocol := P.Apply(s.conns[c].protocol, step))
  {
    hide After, P.Apply, P.Enabled, Effect, Unhandled;
    more' := Continue(db, steps, more, Progress(c, step));
    Associative(steps, more, [Progress(c, step)]);
    ProjectSnoc(db, steps + more, c, Progress(c, step));
  }

  lemma {:induction false} ProjectSnoc(db: Db, steps: seq<HubStep>, c: nat, step: HubStep)
    requires After(db, steps + [step]).Some? && After(db, steps).Some?
    ensures step.Progress? && step.conn == c ==> Project(db, steps + [step], c) == Project(db, steps, c) + [step.step]
  {
    assert (steps + [step])[..|steps|] == steps;
  }

  /** The last thing recorded is the response, for the request. */
  ghost predicate EndsWith(s: HubState, k: nat, p: Payload) {
    && k < |s.requests| && s.history != []
    && var e := s.history[|s.history| - 1];
       e.Answer? && e.write.request == k && e.write.response == p && e.write.command == s.requests[k].command
  }

  /** The continuation of a run records the response, and asks for nothing. */
  ghost predicate Records(db: Db, steps: seq<HubStep>, more: seq<HubStep>, k: nat, p: Payload)
    requires After(db, steps).Some?
  {
    && After(db, steps + more).Some? && NoAsk(more)
    && |After(db, steps).value.history| < |After(db, steps + more).value.history|
    && EndsWith(After(db, steps + more).value, k, p)
  }

  /** The call returns, and its response is handled. */
  lemma {:induction false} FromCall(db: Db, steps: seq<HubStep>, more: seq<HubStep>, k: nat, c: nat, n: nat, p: Payload)
    returns (more': seq<HubStep>)
    requires After(db, steps).Some? && After(db, steps + more).Some? && NoAsk(more)
    requires |After(db, steps).value.history| <= |After(db, steps + more).value.history|
    requires Returnable(After(db, steps + more).value, k, c, n, p)
    ensures Records(db, steps, more', k, p)
  {
    hide After, Apply, P.After, P.Apply, P.MayReturn, Effect, CallsPublished, WritesMatched;
    ProjectRun(db, steps + more, c);
    var s := After(db, steps + more).value;
    var calls := P.CanReturnStill(Project(db, steps + more, c), n, s.conns[c].live, p);
    more' := Follow(db, steps, more, c, calls);
    more' := HandleIt(db, steps, more', k, c, n, p);
  }

  lemma {:induction false} HandleIt(db: Db, steps: seq<HubStep>, more: seq<HubStep>, k: nat, c: nat, n: nat, p: Payload)
    returns (more': seq<HubStep>)
    requires After(db, steps).Some? && After(db, steps + more).Some? && NoAsk(more)
    requires |After(db, steps).value.history| <= |After(db, steps + more).value.history|
    requires
      var s := After(db, steps + more).value;
      && c < |s.conns| && n < |s.conns[c].origins| && n < |s.conns[c].protocol.calls| && s.conns[c].origins[n] == k
      && s.conns[c].protocol.calls[n].phase == P.Finished(Some(p)) && Unhandled(s, c, n)
    ensures Records(db, steps, more', k, p)
  {
    hide After, Effect, Unhandled;
    var s := After(db, steps + more).value;
    RunKeepsInv(db, steps + more);
    assert CallsOf(s, s.conns[c]);
    more' := Continue(db, steps, more, Handle(c, n));
  }

  /** The receiver starts its call. */
  lemma {:induction false} FromReceiver(db: Db, steps: seq<HubStep>, more: seq<HubStep>, k: nat, c: nat, p: Payload)
    returns (more': seq<HubStep>)
    requires After(db, steps).Some? && After(db, steps + more).Some? && NoAsk(more)
    requires |After(db, steps).value.history| <= |After(db, steps + more).value.history|
    requires
      var s := After(db, steps + more).value;
      Awaits(s, k, c) && s.requests[k].stage == Published
    ensures Records(db, steps, more', k, p)
  {
    hide After, Effect, WritesMatched, Records;
    var s := After(db, steps + more).value;
    RunKeepsInv(db, steps + more);
    assert CallsOf(s, s.conns[c]);
    var n := |s.conns[c].origins|;
    NothingHandledYet(s, c, n);
    more' := Continue(db, steps, more, Forward(c, k));
    assert Returnable(After(db, steps + more').value, k, c, n, p);
    more' := FromCall(db, steps, more', k, c, n, p);
  }

  lemma {:induction false} NothingHandledYet(s: HubState, c: nat, n: nat)
    requires WritesMatched(s) && CallsPublished(s) && c < |s.conns| && n >= |s.conns[c].origins|
    ensures Unhandled(s, c, n)
  {
    forall e | e in s.history && e.Answer?
      ensures !(e.write.conn == c && e.write.call == n)
    {
      var i :| 0 <= i < |s.history| && s.history[i] == e;
      assert WriteMatched(s, s.history[i].write);
    }
  }

  /** The handler goes on and publishes, to a new connection if need be. */
  lemma {:induction false} FromHandler(db: Db, steps: seq<HubStep>, k: nat, p: Payload) returns (more: seq<HubStep>)
    requires After(db, steps).Some?
    requires var s := After(db, steps).value; k < |s.requests| && s.requests[k].stage != Published
    ensures Records(db, steps, more, k, p)
  {
    hide After, Effect, Records;
    assert steps + [] == steps;
    more := [];
    var c := |After(db, steps).value.conns|;
    var identity := After(db, steps).value.requests[k].command.identity;
    if After(db, steps + more).value.requests[k].stage == Prepared {
      more := Continue(db, steps, more, Store(k));
    }
    more := Continue(db, steps, more, Connect(identity));
    more := Continue(db, steps, more, Publish(k, {c}));
    more := FromReceiver(db, steps, more, k, c, p);
  }

  lemma {:induction false} CanRecord(db: Db, steps: seq<HubStep>, k: nat, p: Payload) returns (more: seq<HubStep>)
    requires After(db, steps).Some? && k < |After(db, steps).value.requests|
    requires CanAnswer(After(db, steps).value, k, p)
    ensures Records(db, steps, more, k, p)
  {
    hide After, Awaits, Returnable, Records;
    var s := After(db, steps).value;
    assert steps + [] == steps;
    if s.requests[k].stage != Published {
      more := FromHandler(db, steps, k, p);
    } else if c :| Awaits(s, k, c) {
      more := FromReceiver(db, steps, [], k, c, p);
    } else {
      var c, n :| Returnable(s, k, c, n, p);
      more := FromCall(db, steps, [], k, c, n, p);
    }
  }

  /** The exact condition: a response is recorded for a request in some continuation if and only if the
      request is not published yet, or waits for a receiver that is up, or has a call that can return just
      this response and is not handled yet. */
  lemma {:induction false} AnsweredExactly(db: Db, steps: seq<HubStep>, k: nat, p: Payload)
    requires After(db, steps).Some? && k < |After(db, steps).value.requests|
    ensures (exists more :: AnsweredBy(db, steps, more, k, p)) <==> CanAnswer(After(db, steps).value, k, p)
  {
    hide After, CanAnswer, AnsweredBy;
    if CanAnswer(After(db, steps).value, k, p) {
      var more := CanRecord(db, steps, k, p);
      RecordedIsAnswered(db, steps, more, k, p);
    } else {
      forall more
        ensures !AnsweredBy(db, steps, more, k, p)
      {
        if AnsweredBy(db, steps, more, k, p) {
          assert After(db, steps + more).Some? by { AnsweredRuns(db, steps, more, k, p); }
          PossibleBefore(db, steps, more, k, p);
        }
      }
    }
  }

  lemma AnsweredRuns(db: Db, steps: seq<HubStep>, more: seq<HubStep>, k: nat, p: Payload)
    requires After(db, steps).Some? && AnsweredBy(db, steps, more, k, p)
    ensures After(db, steps + more).Some?
  {
  }

  lemma {:induction false} RecordedIsAnswered(db: Db, steps: seq<HubStep>, more: seq<HubStep>, k: nat, p: Payload)
    requires After(db, steps).Some? && Records(db, steps, more, k, p)
    ensures AnsweredBy(db, steps, more, k, p)
  {
    hide After;
    var history := After(db, steps + more).value.history;
    assert history[|history| - 1].Answer?;
  }

  /** The step resets the status of this kind of command to this charger again. */
  predicate Renews(step: HubStep, command: Command) {
    step.Ask? && step.command.identity == command.identity && ResetColumn(step.command.action) == ResetColumn(command.action)
  }

  predicate SameKind(a: Command, b: Command) {
    a.identity == b.identity && ResetColumn(a.action) == ResetColumn(b.action)
  }

  lemma {:induction false} SameColumn(a: Command, b: Command)
    requires ResetColumn(b.action).Some?
    ensures StatusColumn(a.action) == ResetColumn(b.action) ==> ResetColumn(a.action) == ResetColumn(b.action)
  {
    hide StatusColumn;
    ResetsOwn(a.action);
    ResetsOwn(b.action);
  }

  lemma {:induction false} ResetsOwn(action: string)
    ensures StatusColumn(action) == Some(RemoteStartStatus) <==> action == "RemoteStartTransaction"
    ensures StatusColumn(action) == Some(RemoteStopStatus) <==> action == "RemoteStopTransaction"
  {
  }

  function ActionOf(column: Column): string {
    match column
    case GetLocalListVersionStatus => "GetLocalListVersion"
    case SendLocalListStatus => "SendLocalList"
    case UnlockConnectorStatus => "UnlockConnector"
    case ChangeAvailabilityStatus => "ChangeAvailability"
    case ClearCacheStatus => "ClearCache"
    case ChangeConfigurationStatus => "ChangeConfiguration"
    case UpdateFirmwareStatus => "UpdateFirmware"
    case GetDiagnosticsStatus => "GetDiagnostics"
    case SetChargingProfileStatus => "SetChargingProfile"
    case ClearChargingProfileStatus => "ClearChargingProfile"
    case GetCompositeScheduleStatus => "GetCompositeSchedule"
    case TriggerMessageStatus => "TriggerMessage"
    case RemoteStartStatus => "RemoteStartTransaction"
    case RemoteStopStatus => "RemoteStopTransaction"
  }

  /** Each column belongs to one action. */
  lemma {:induction false} ColumnIsOfAction(action: string, column: Column)
    requires StatusColumn(action) == Some(column)
    ensures action == ActionOf(column)
  {
  }

  // ----- Whose outcome the status of a command will show -----

  /** Later, before the command is asked for again, its status shows an earlier request's outcome. */
  ghost predicate ShowsEarlier(db: Db, steps: seq<HubStep>, command: Command, more: seq<HubStep>)
    requires After(db, steps).Some? && ResetColumn(command.action).Some?
  {
    && After(db, (steps + [Ask(command)]) + more).Some?
    && (forall step :: step in more ==> !Renews(step, command))
    && var owner := Owner(After(db, (steps + [Ask(command)]) + more).value.history, command.identity, ResetColumn(command.action).value);
       owner.Some? && owner.value < |After(db, steps).value.requests|
  }

  /** An earlier request of this kind can still be answered with an outcome. */
  ghost predicate Outstanding(s: HubState, command: Command) {
    exists k: nat, p :: CanShow(s, command, k, p)
  }

  ghost predicate CanShow(s: HubState, command: Command, k: nat, p: Payload) {
    && k < |s.requests| && SameKind(s.requests[k].command, command)
    && Outcome(s.requests[k].command.action, s.requests[k].command.payload, p).Some?
    && CanAnswer(s, k, p)
  }

  lemma {:induction false} AskReaches(db: Db, steps: seq<HubStep>, command: Command)
    requires After(db, steps).Some? && command.identity in After(db, steps).value.db.chargers
    ensures After(db, steps + [Ask(command)]).Some?
    ensures
      var s, s' := After(db, steps).value, After(db, steps + [Ask(command)]).value;
      && s'.requests == s.requests + [Request(command, Prepared, {})]
      && s'.history == s.history + [Reset(|s.requests|, command)]
  {
    hide After, Effect;
    var asked := Extend(db, steps, Ask(command));
  }

  /** Asking for a command leaves open exactly what was open for the requests before it. */
  lemma {:induction false} AskKeepsOpen(db: Db, steps: seq<HubStep>, command: Command, k: nat, p: Payload)
    requires After(db, steps).Some? && command.identity in After(db, steps).value.db.chargers
    requires k < |After(db, steps).value.requests|
    ensures After(db, steps + [Ask(command)]).Some?
    ensures
      var s, s' := After(db, steps).value, After(db, steps + [Ask(command)]).value;
      && s'.requests == s.requests + [Request(command, Prepared, {})]
      && s'.history == s.history + [Reset(|s.requests|, command)]
      && (CanAnswer(s', k, p) <==> CanAnswer(s, k, p))
  {
    hide After, Effect;
    var s := After(db, steps).value;
    var asked := Extend(db, steps, Ask(command));
    var s' := After(db, asked).value;
    forall c
      ensures Awaits(s', k, c) <==> Awaits(s, k, c)
    {
    }
    forall c, n
      ensures Returnable(s', k, c, n, p) <==> Returnable(s, k, c, n, p)
    {
      ResetHandlesNothing(s.history, Reset(|s.requests|, command), c, n);
    }
  }

  lemma {:induction false} ResetHandlesNothing(history: seq<Entry>, e: Entry, c: nat, n: nat)
    requires !e.Answer?
    ensures (forall x :: x in history + [e] && x.Answer? ==> !(x.write.conn == c && x.write.call == n))
       <==> (forall x :: x in history && x.Answer? ==> !(x.write.conn == c && x.write.call == n))
  {
    assert forall x :: x in history + [e] <==> x in history || x == e;
  }

  /** An outcome of an earlier request that the column shows was recorded after the reset. */
  lemma {:induction false} OwnerSince(before: seq<Entry>, reset: Entry, history: seq<Entry>, id: string, column: Column) returns (i: nat)
    requires |before| < |history| && history[|before|] == reset && reset.Reset? && StatusSet(reset, id, column).Some?
    requires Owner(history, id, column).Some?
    ensures |before| < i < |history| && history[i].Answer? && history[i].write.request == Owner(history, id, column).value
    ensures StatusSet(history[i], id, column).Some?
  {
    i := OwnerAt(history, id, column);
  }

  lemma {:induction false} HistoryGrows(db: Db, steps: seq<HubStep>, more: seq<HubStep>)
    requires After(db, steps).Some? && After(db, steps + more).Some?
    ensures After(db, steps).value.history <= After(db, steps + more).value.history
    decreases |more|
  {
    hide After, Apply, Enabled, RecordedBy, Effect;
    if more == [] {
      assert steps + more == steps;
    } else {
      var front, step := more[..|more| - 1], more[|more| - 1];
      assert more == front + [step];
      AfterFront(db, steps, front, step);
      HistoryGrows(db, steps, front);
      StepRecords(After(db, steps + front).value, step);
    }
  }

  lemma {:induction false} RequestsKept(db: Db, steps: seq<HubStep>, more: seq<HubStep>, k: nat)
    requires After(db, steps).Some? && After(db, steps + more).Some? && k < |After(db, steps).value.requests|
    ensures k < |After(db, steps + more).value.requests|
    ensures After(db, steps + more).value.requests[k].command == After(db, steps).value.requests[k].command
    decreases |more|
  {
    hide After, Apply, Enabled, Effect;
    if more == [] {
      assert steps + more == steps;
    } else {
      var front, step := more[..|more| - 1], more[|more| - 1];
      assert more == front + [step];
      AfterFront(db, steps, front, step);
      RequestsKept(db, steps, front, k);
      StepOnRequest(After(db, steps + front).value, step, k);
    }
  }

  lemma {:induction false} ShownWasOutstanding(db: Db, steps: seq<HubStep>, command: Command, more: seq<HubStep>)
    requires After(db, steps).Some? && command.identity in After(db, steps).value.db.chargers
    requires ResetColumn(command.action).Some? && ShowsEarlier(db, steps, command, more)
    ensures Outstanding(After(db, steps).value, command)
  {
    hide After, Apply, Enabled, CanAnswer, Owner, Outcome, StatusColumn, Effect, Inv;
    var s, asked := After(db, steps).value, steps + [Ask(command)];
    var column := ResetColumn(command.action).value;
    var history := After(db, asked + more).value.history;
    var k := Owner(history, command.identity, column).value;
    AskReaches(db, steps, command);
    HistoryGrows(db, asked, more);
    assert history[|s.history|] == Reset(|s.requests|, command);
    var i := OwnerSince(s.history, Reset(|s.requests|, command), history, command.identity, column);
    var p := history[i].write.response;
    AskKeepsOpen(db, steps, command, k, p);
    assert AnsweredSince(After(db, asked).value.history, history, k, p);
    PossibleBefore(db, asked, more, k, p);
    WritesCorrelated(db, asked + more, i);
    RequestsKept(db, asked, more, k);
    SameColumn(history[i].write.command, command);
    assert CanShow(s, command, k, p);
  }

  lemma {:induction false} OutstandingCanShow(db: Db, steps: seq<HubStep>, command: Command) returns (more: seq<HubStep>)
    requires After(db, steps).Some? && command.identity in After(db, steps).value.db.chargers
    requires ResetColumn(command.action).Some? && Outstanding(After(db, steps).value, command)
    ensures ShowsEarlier(db, steps, command, more)
  {
    hide After, Apply, Enabled, CanAnswer, Outcome, StatusColumn, Effect;
    var s, asked := After(db, steps).value, steps + [Ask(command)];
    var k: nat, p :| CanShow(s, command, k, p);
    AskKeepsOpen(db, steps, command, k, p);
    more := CanRecord(db, asked, k, p);
    var history := After(db, asked + more).value.history;
    RequestsKept(db, asked, more, k);
    var column := ResetColumn(command.action).value;
    SetsColumn(history[|history| - 1].write, command);
    assert history == history[..|history| - 1] + [history[|history| - 1]];
    OwnerSnoc(history[..|history| - 1], history[|history| - 1], command.identity, column);
  }

  lemma {:induction false} SetsColumn(w: Write, command: Command)
    requires SameKind(w.command, command) && ResetColumn(command.action).Some?
    requires Outcome(w.command.action, w.command.payload, w.response).Some?
    ensures StatusSet(Answer(w), command.identity, ResetColumn(command.action).value).Some?
  {
    hide StatusColumn, Outcome;
  }

  /** The exact condition: before it is asked for again, the status of a command can come to show the
      outcome of an earlier request if and only if, when it is asked for, an earlier request of that action
      to that charger can still be answered with an outcome. */
  lemma {:induction false} ShowsEarlierExactly(db: Db, steps: seq<HubStep>, command: Command)
    requires After(db, steps).Some? && command.identity in After(db, steps).value.db.chargers
    requires ResetColumn(command.action).Some?
    ensures (exists more :: ShowsEarlier(db, steps, command, more)) <==> Outstanding(After(db, steps).value, command)
  {
    hide After, Outstanding, ShowsEarlier;
    if Outstanding(After(db, steps).value, command) {
      var more := OutstandingCanShow(db, steps, command);
    } else {
      forall more
        ensures !ShowsEarlier(db, steps, command, more)
      {
        if ShowsEarlier(db, steps, command, more) {
          ShownWasOutstanding(db, steps, command, more);
        }
      }
    }
  }

  const SILENT := Payload(Some(""), Some(0), None, None, None, None)

  lemma {:induction false} AlwaysAnOutcome(action: string, request: Payload)
    requires ResetColumn(action).Some?
    ensures Outcome(action, request, SILENT).Some?
  {
  }

  /** The condition is met by asking twice in a row, whatever happened before. */
  lemma {:induction false} AskingTwice(db: Db, steps: seq<HubStep>, command: Command)
    requires After(db, steps).Some? && command.identity in After(db, steps).value.db.chargers
    requires ResetColumn(command.action).Some?
    ensures After(db, steps + [Ask(command)]).Some?
    ensures Outstanding(After(db, steps + [Ask(command)]).value, command)
  {
    hide After, Effect, Outcome, StatusColumn;
    AskReaches(db, steps, command);
    AlwaysAnOutcome(command.action, command.payload);
    assert CanShow(After(db, steps + [Ask(command)]).value, command, |After(db, steps).value.requests|, SILENT);
  }

  // ----- Late cancellations of a reservation -----

  /** Later an answer to an earlier request cancels the reservation of this request. */
  ghost predicate CancelledByEarlier(db: Db, steps: seq<HubStep>, command: Command, more: seq<HubStep>)
    requires After(db, steps).Some?
  {
    && After(db, (steps + [Ask(command)]) + more).Some?
    && var s, s' := After(db, steps).value, After(db, (steps + [Ask(command)]) + more).value;
       exists i :: |s.history| < i < |s'.history| && CancelsFor(s'.history[i], command, |s.requests|)
  }

  predicate CancelsFor(e: Entry, command: Command, r: nat) {
    && e.Answer? && e.write.request < r && e.write.command.identity == command.identity
    && Cancels(e.write.command.action, e.write.command.payload, e.write.response) == command.payload.reservationId
  }

  /** An earlier request to the charger can still be answered so that the reservation is cancelled. */
  ghost predicate CancellationOutstanding(s: HubState, command: Command) {
    exists k: nat, p :: CanCancel(s, command, k, p)
  }

  ghost predicate CanCancel(s: HubState, command: Command, k: nat, p: Payload) {
    && k < |s.requests| && s.requests[k].command.identity == command.identity
    && Cancels(s.requests[k].command.action, s.requests[k].command.payload, p) == command.payload.reservationId
    && CanAnswer(s, k, p)
  }

  lemma {:induction false} CancelledWasOutstanding(db: Db, steps: seq<HubStep>, command: Command, more: seq<HubStep>)
    requires After(db, steps).Some? && command.identity in After(db, steps).value.db.chargers
    requires CancelledByEarlier(db, steps, command, more)
    ensures CancellationOutstanding(After(db, steps).value, command)
  {
    hide After, Apply, Enabled, CanAnswer, Cancels, Effect, Inv;
    var s, asked := After(db, steps).value, steps + [Ask(command)];
    var history := After(db, asked + more).value.history;
    var i :| |s.history| < i < |history| && CancelsFor(history[i], command, |s.requests|);
    var k, p := history[i].write.request, history[i].write.response;
    AskKeepsOpen(db, steps, command, k, p);
    assert AnsweredSince(After(db, asked).value.history, history, k, p);
    PossibleBefore(db, asked, more, k, p);
    WritesCorrelated(db, asked + more, i);
    RequestsKept(db, asked, more, k);
    assert CanCancel(s, command, k, p);
  }

  lemma {:induction false} OutstandingCanCancel(db: Db, steps: seq<HubStep>, command: Command) returns (more: seq<HubStep>)
    requires After(db, steps).Some? && command.identity in After(db, steps).value.db.chargers
    requires CancellationOutstanding(After(db, steps).value, command)
    ensures CancelledByEarlier(db, steps, command, more)
  {
    hide After, Apply, Enabled, CanAnswer, Cancels, Effect;
    var s, asked := After(db, steps).value, steps + [Ask(command)];
    var k: nat, p :| CanCancel(s, command, k, p);
    AskKeepsOpen(db, steps, command, k, p);
    more := CanRecord(db, asked, k, p);
    var history := After(db, asked + more).value.history;
    RequestsKept(db, asked, more, k);
    assert CancelsFor(history[|history| - 1], command, |s.requests|);
  }

  /** The exact condition: after a reservation is asked for (again), an answer to an earlier request, a
      rejection or an accepted cancellation, can still cancel it if and only if such an answer is possible
      when it is asked for. */
  lemma {:induction false} CancelledByEarlierExactly(db: Db, steps: seq<HubStep>, command: Command)
    requires After(db, steps).Some? && command.identity in After(db, steps).value.db.chargers
    ensures (exists more :: CancelledByEarlier(db, steps, command, more)) <==> CancellationOutstanding(After(db, steps).value, command)
  {
    hide After, CancellationOutstanding, CancelledByEarlier;
    if CancellationOutstanding(After(db, steps).value, command) {
      var more := OutstandingCanCancel(db, steps, command);
    } else {
      forall more
        ensures !CancelledByEarlier(db, steps, command, more)
      {
        if CancelledByEarlier(db, steps, command, more) {
          CancelledWasOutstanding(db, steps, command, more);
        }
      }
    }
  }
}
