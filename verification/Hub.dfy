/** Commands to chargers: an API handler prepares the tables and publishes a command, the hub turns it
    into a concurrent call on each connection of the charger, and writes each returned response to the
    tables. */
module Hub {
  import opened Options
  import opened Payloads
  import opened Store
  import opened Commands
  import opened Sequences
  import P = CallProtocol

  /** A charge point connection, with the state of its call protocol and, for each call, the request it
      was forwarded from. */
  datatype Connection = Connection(identity: string, live: bool, protocol: P.State, origins: seq<nat>)

  datatype Command = Command(identity: string, action: string, payload: Payload)

  /** How far an API handler has got with a command. */
  datatype Stage = Prepared | Anticipated | Published

  /** The receivers are the connections whose subscriptions get the command when it is published. */
  datatype Request = Request(command: Command, stage: Stage, receivers: set<nat>)

  /** One handled response: whose, to which call of which request, and what was exchanged. */
  datatype Write = Write(conn: nat, call: nat, request: nat, command: Command, response: Payload)

  /** What has changed the tables. */
  datatype Entry =
    | Reset(request: nat, command: Command)
    | Anticipation(command: Command)
    | Answer(write: Write)

  /** Of the tables only chargers and configurations are followed here; sessions and reservations also
      change by other steps. */
  datatype HubState = HubState(
    conns: seq<Connection>, registry: map<string, nat>, requests: seq<Request>, history: seq<Entry>, db: Db)

  datatype HubStep =
    | Connect(identity: string)
    | Disconnect(conn: nat, identity: string)
    | Ask(command: Command)                  // an API handler resets the status of a command
    | Store(request: nat)                    // and stores a configuration change at once
    | Publish(request: nat, receivers: set<nat>)  // and publishes the command
    | Forward(conn: nat, request: nat)       // a subscriber starts the call
    | Progress(conn: nat, step: P.Step)      // any other step of a connection's protocol
    | Handle(conn: nat, call: nat)           // a returned call's response is written

  function Initial(db: Db): HubState {
    HubState([], map[], [], [], db)
  }

  ghost predicate Unhandled(s: HubState, conn: nat, call: nat) {
    forall e :: e in s.history && e.Answer? ==> !(e.write.conn == conn && e.write.call == call)
  }

  predicate Subscribed(s: HubState, c: nat, identity: string) {
    c < |s.conns| && s.conns[c].live && s.conns[c].identity == identity
  }

  /** Asking about an unknown charger fails before anything is changed. A published command reaches
      connections of its charger that are live then, not all of them when a subscription is not made yet
      or a message is lost, and each at most once; nobody gets it later. Nothing is written to or read from
      a connection that has ended. */
  ghost predicate Enabled(s: HubState, step: HubStep) {
    match step
    case Connect(_) => true
    case Disconnect(c, identity) => c < |s.conns| && s.conns[c].live && s.conns[c].identity == identity
    case Ask(command) => command.identity in s.db.chargers
    case Store(r) => r < |s.requests| && s.requests[r].stage == Prepared
    case Publish(r, receivers) =>
      && r < |s.requests| && s.requests[r].stage == Anticipated
      && forall c :: c in receivers ==> Subscribed(s, c, s.requests[r].command.identity)
    case Forward(c, r) =>
      && c < |s.conns| && r < |s.requests| && s.requests[r].stage == Published
      && s.conns[c].identity == s.requests[r].command.identity
      && c in s.requests[r].receivers && r !in s.conns[c].origins
    case Progress(c, step) =>
      c < |s.conns| && !step.Start? && P.Allowed(step, s.conns[c].live) && P.Enabled(s.conns[c].protocol, step)
    case Handle(c, n) =>
      && c < |s.conns| && n < |s.conns[c].protocol.calls| && n < |s.conns[c].origins|
      && s.conns[c].protocol.calls[n].phase.Finished?
      && s.conns[c].protocol.calls[n].phase.result.Some?
      && Unhandled(s, c, n)
  }

  function Advance(s: HubState, c: nat, step: P.Step, origins: seq<nat>): HubState
    requires c < |s.conns| && P.Enabled(s.conns[c].protocol, step)
  {
    s.(conns := s.conns[c := s.conns[c].(protocol := P.Apply(s.conns[c].protocol, step), origins := origins)])
  }

  function WriteOf(conn: Connection, c: nat, n: nat): Write
    requires n < |conn.protocol.calls| && n < |conn.origins|
    requires conn.protocol.calls[n].phase.Finished? && conn.protocol.calls[n].phase.result.Some?
  {
    Write(c, n, conn.origins[n], CallCommand(conn, n), conn.protocol.calls[n].phase.result.value)
  }

  /** The command a call carries. */
  function CallCommand(conn: Connection, n: nat): Command
    requires n < |conn.protocol.calls|
  {
    Command(conn.identity, conn.protocol.calls[n].action, conn.protocol.calls[n].payload)
  }

  /** What one entry does to the tables. */
  function Effect(db: Db, e: Entry): Db {
    match e
    case Reset(_, command) => ResetStatus(db, command.identity, command.action)
    case Anticipation(command) => Anticipate(db, command.identity, command.action, command.payload)
    case Answer(w) => Handled(db, w.command.identity, w.command.action, w.command.payload, w.response)
  }

  function Record(s: HubState, e: Entry): HubState {
    s.(history := s.history + [e], db := Effect(s.db, e))
  }

  ghost function Apply(s: HubState, step: HubStep): HubState
    requires Enabled(s, step)
  {
    match step
    case Connect(identity) =>
      s.(conns := s.conns + [Connection(identity, true, P.INITIAL, [])], registry := s.registry[identity := |s.conns|])
    case Disconnect(c, identity) =>
      s.(conns := s.conns[c := s.conns[c].(live := false)], registry := s.registry - {identity})
    case Ask(command) =>
      Record(s.(requests := s.requests + [Request(command, Prepared, {})]), Reset(|s.requests|, command))
    case Store(r) =>
      Record(s.(requests := s.requests[r := s.requests[r].(stage := Anticipated)]), Anticipation(s.requests[r].command))
    case Publish(r, receivers) =>
      s.(requests := s.requests[r := s.requests[r].(stage := Published, receivers := receivers)])
    case Forward(c, r) =>
      var command := s.requests[r].command;
      Advance(s, c, P.Start(command.action, command.payload), s.conns[c].origins + [r])
    case Progress(c, step) => Advance(s, c, step, s.conns[c].origins)
    case Handle(c, n) => Record(s, Answer(WriteOf(s.conns[c], c, n)))
  }

  ghost function After(db: Db, steps: seq<HubStep>): Option<HubState> {
    if steps == [] then Some(Initial(db))
    else
      var before := After(db, steps[..|steps| - 1]);
      var step := steps[|steps| - 1];
      if before.Some? && Enabled(before.value, step) then Some(Apply(before.value, step)) else None
  }

  lemma {:induction false} AfterStep(db: Db, steps: seq<HubStep>)
    requires steps != [] && After(db, steps).Some?
    ensures
      var front, step := steps[..|steps| - 1], steps[|steps| - 1];
      && After(db, front).Some? && Enabled(After(db, front).value, step)
      && After(db, steps).value == Apply(After(db, front).value, step)
  {
  }

  lemma {:induction false} Extend(db: Db, steps: seq<HubStep>, step: HubStep) returns (steps': seq<HubStep>)
    requires After(db, steps).Some? && Enabled(After(db, steps).value, step)
    ensures steps' == steps + [step]
    ensures After(db, steps') == Some(Apply(After(db, steps).value, step))
  {
    steps' := steps + [step];
    assert steps'[..|steps|] == steps;
  }

  // ----- Each connection runs the call protocol -----

  /** What is forwarded in a run, in order: the connection and the command. */
  ghost function Forwarded(db: Db, steps: seq<HubStep>): Option<(nat, Command)>
    requires steps != [] && After(db, steps).Some?
  {
    var step := steps[|steps| - 1];
    if step.Forward? then Some((step.conn, After(db, steps[..|steps| - 1]).value.requests[step.request].command)) else None
  }

  /** The protocol steps a hub run takes on connection `c`. */
  ghost function Project(db: Db, steps: seq<HubStep>, c: nat): seq<P.Step>
    requires After(db, steps).Some?
  {
    if steps == [] then []
    else
      var front, step := Project(db, steps[..|steps| - 1], c), steps[|steps| - 1];
      if step.Forward? && step.conn == c then
        var command := Forwarded(db, steps).value.1;
        front + [P.Start(command.action, command.payload)]
      else if step.Progress? && step.conn == c then front + [step.step]
      else front
  }

  lemma {:induction false} StepConns(s: HubState, step: HubStep)
    requires Enabled(s, step)
    ensures |s.conns| <= |Apply(s, step).conns|
    ensures step.Forward? || step.Progress? ==> step.conn < |s.conns|
  {
  }

  lemma {:induction false} ProjectNone(db: Db, steps: seq<HubStep>, c: nat)
    requires After(db, steps).Some? && |After(db, steps).value.conns| <= c
    ensures Project(db, steps, c) == []
  {
    hide Apply, Enabled;
    if steps != [] {
      StepConns(After(db, steps[..|steps| - 1]).value, steps[|steps| - 1]);
      ProjectNone(db, steps[..|steps| - 1], c);
    }
  }

  lemma {:induction false} ProjectRun(db: Db, steps: seq<HubStep>, c: nat)
    requires After(db, steps).Some? && c < |After(db, steps).value.conns|
    ensures P.After(Project(db, steps, c)) == Some(After(db, steps).value.conns[c].protocol)
    decreases |steps|
  {
    var front, step := steps[..|steps| - 1], steps[|steps| - 1];
    var s := After(db, front).value;
    if c < |s.conns| {
      ProjectRun(db, front, c);
      if step.Forward? && step.conn == c {
        var command := s.requests[step.request].command;
        P.AfterSnoc(Project(db, front, c), P.Start(command.action, command.payload));
      } else if step.Progress? && step.conn == c {
        P.AfterSnoc(Project(db, front, c), step.step);
      }
    } else {
      ProjectNone(db, front, c);
    }
  }

  lemma {:induction false} ProjectSteps(db: Db, steps: seq<HubStep>, c: nat, p: P.Step)
    requires After(db, steps).Some? && p in Project(db, steps, c) && !p.Start?
    ensures Progress(c, p) in steps
  {
    hide Apply, Enabled;
    var front := steps[..|steps| - 1];
    if p in Project(db, front, c) {
      ProjectSteps(db, front, c, p);
      Earlier(steps, Progress(c, p));
    } else {
      assert steps[|steps| - 1] == Progress(c, p);
    }
  }

  lemma Earlier(steps: seq<HubStep>, step: HubStep)
    requires steps != [] && step in steps[..|steps| - 1]
    ensures step in steps
  {
  }

  // ----- Every write is correlated -----

  /** Every call on a connection carries the command of the published request it came from. */
  ghost predicate CallsPublished(s: HubState) {
    forall c :: 0 <= c < |s.conns| ==> CallsOf(s, s.conns[c])
  }

  ghost predicate CallsOf(s: HubState, conn: Connection) {
    && |conn.origins| == |conn.protocol.calls|
    && forall n :: 0 <= n < |conn.origins| ==>
         && conn.origins[n] < |s.requests|
         && s.requests[conn.origins[n]].command == CallCommand(conn, n)
         && s.requests[conn.origins[n]].stage == Published
  }

  /** A write names a call that returned, and agrees with it on everything. */
  ghost predicate WriteMatched(s: HubState, w: Write) {
    && w.conn < |s.conns|
    && w.call < |s.conns[w.conn].protocol.calls| && w.call < |s.conns[w.conn].origins|
    && s.conns[w.conn].protocol.calls[w.call].phase == P.Finished(Some(w.response))
    && w.command == CallCommand(s.conns[w.conn], w.call)
    && w.request == s.conns[w.conn].origins[w.call]
  }

  ghost predicate WritesMatched(s: HubState) {
    && (forall i :: 0 <= i < |s.history| && s.history[i].Answer? ==> WriteMatched(s, s.history[i].write))
    && (forall i, j :: 0 <= i < j < |s.history| && s.history[i].Answer? && s.history[j].Answer? ==>
          s.history[i].write.conn != s.history[j].write.conn || s.history[i].write.call != s.history[j].write.call)
  }

  /** What one step may do to an existing connection. */
  lemma {:induction false} StepOnConnection(s: HubState, step: HubStep, c: nat)
    requires Enabled(s, step) && c < |s.conns|
    ensures
      var s' := Apply(s, step);
      && c < |s'.conns|
      && s'.conns[c].identity == s.conns[c].identity
      && |s.conns[c].protocol.calls| <= |s'.conns[c].protocol.calls|
      && s.conns[c].origins <= s'.conns[c].origins
      && forall n :: 0 <= n < |s.conns[c].protocol.calls| ==>
           && CallCommand(s'.conns[c], n) == CallCommand(s.conns[c], n)
           && (s.conns[c].protocol.calls[n].phase.Finished? ==>
                 s'.conns[c].protocol.calls[n].phase == s.conns[c].protocol.calls[n].phase)
  {
    if (step.Forward? || step.Progress?) && step.conn == c {
      var p := if step.Forward? then ForwardedStep(s, step) else step.step;
      forall n: nat | n < |s.conns[c].protocol.calls| {
        P.StepOnCall(s.conns[c].protocol, p, n);
      }
    }
  }

  ghost function ForwardedStep(s: HubState, step: HubStep): P.Step
    requires Enabled(s, step) && step.Forward?
  {
    var command := s.requests[step.request].command;
    P.Start(command.action, command.payload)
  }

  /** Requests keep their command, and stay published. */
  lemma {:induction false} StepOnRequest(s: HubState, step: HubStep, r: nat)
    requires Enabled(s, step) && r < |s.requests|
    ensures r < |Apply(s, step).requests|
    ensures Apply(s, step).requests[r].command == s.requests[r].command
    ensures s.requests[r].stage == Published ==> Apply(s, step).requests[r].stage == Published
  {
  }

  lemma {:induction false} StepKeepsPublished(s: HubState, step: HubStep)
    requires CallsPublished(s) && Enabled(s, step)
    ensures CallsPublished(Apply(s, step))
  {
    var s' := Apply(s, step);
    forall c | 0 <= c < |s'.conns|
      ensures CallsOf(s', s'.conns[c])
    {
      if c < |s.conns| {
        StepKeepsCalls(s, step, c);
      }
    }
  }

  lemma {:induction false} StepKeepsCalls(s: HubState, step: HubStep, c: nat)
    requires CallsPublished(s) && Enabled(s, step) && c < |s.conns|
    ensures c < |Apply(s, step).conns| && CallsOf(Apply(s, step), Apply(s, step).conns[c])
  {
    var s' := Apply(s, step);
    assert CallsOf(s, s.conns[c]);
    StepOnConnection(s, step, c);
    forall n | 0 <= n < |s'.conns[c].origins|
      ensures n < |s'.conns[c].protocol.calls| && s'.conns[c].origins[n] < |s'.requests|
      ensures s'.requests[s'.conns[c].origins[n]].command == CallCommand(s'.conns[c], n)
      ensures s'.requests[s'.conns[c].origins[n]].stage == Published
    {
      if n < |s.conns[c].origins| {
        StepOnRequest(s, step, s.conns[c].origins[n]);
      }
    }
  }

  lemma {:induction false} StepKeepsWrites(s: HubState, step: HubStep)
    requires WritesMatched(s) && Enabled(s, step)
    ensures WritesMatched(Apply(s, step))
  {
    var s' := Apply(s, step);
    forall i | 0 <= i < |s'.history| && s'.history[i].Answer?
      ensures WriteMatched(s', s'.history[i].write)
    {
      if i < |s.history| {
        assert WriteMatched(s, s.history[i].write);
        StepOnConnection(s, step, s.history[i].write.conn);
      }
    }
  }

  lemma {:induction false} RunKeepsInv(db: Db, steps: seq<HubStep>)
    requires After(db, steps).Some?
    ensures CallsPublished(After(db, steps).value) && WritesMatched(After(db, steps).value)
  {
    if steps != [] {
      var front, step := steps[..|steps| - 1], steps[|steps| - 1];
      RunKeepsInv(db, front);
      StepKeepsPublished(After(db, front).value, step);
      StepKeepsWrites(After(db, front).value, step);
    }
  }

  /** The write was made for the request whose command it carries, from a response that came in on the
      same connection under the id of the very call that carried it. */
  ghost predicate Correlated(s: HubState, steps: seq<HubStep>, w: Write) {
    && WriteMatched(s, w)
    && w.command.identity == s.conns[w.conn].identity
    && w.request < |s.requests| && s.requests[w.request].command == w.command && s.requests[w.request].stage == Published
    && Progress(w.conn, P.Inbound(P.MsgID(w.call), w.response)) in steps
  }

  /** Over every run with concurrent commands each write is correlated, and no call is written twice. */
  lemma {:induction false} WritesCorrelated(db: Db, steps: seq<HubStep>, i: nat)
    requires After(db, steps).Some? && i < |After(db, steps).value.history|
    requires After(db, steps).value.history[i].Answer?
    ensures
      var s := After(db, steps).value;
      var w := s.history[i].write;
      && Correlated(s, steps, w)
      && (forall j :: 0 <= j < |s.history| && j != i && s.history[j].Answer? ==>
            s.history[j].write.conn != w.conn || s.history[j].write.call != w.call)
  {
    RunKeepsInv(db, steps);
    var s := After(db, steps).value;
    var w := s.history[i].write;
    assert WriteMatched(s, w);
    assert CallsOf(s, s.conns[w.conn]);
    ProjectRun(db, steps, w.conn);
    P.ReturnsOwnResponse(Project(db, steps, w.conn), w.call);
    ProjectSteps(db, steps, w.conn, P.Inbound(P.MsgID(w.call), w.response));
  }

  // ----- What is left in the tables -----

  function Replay(db: Db, history: seq<Entry>): Db {
    if history == [] then db else Effect(Replay(db, history[..|history| - 1]), history[|history| - 1])
  }

  lemma {:induction false} ReplaySnoc(db: Db, history: seq<Entry>, e: Entry)
    ensures Replay(db, history + [e]) == Effect(Replay(db, history), e)
  {
    hide Effect;
    assert (history + [e])[..|history|] == history;
  }

  /** The entry a step adds to the history, if any. */
  ghost function RecordedBy(s: HubState, step: HubStep): Option<Entry>
    requires Enabled(s, step)
  {
    match step
    case Ask(command) => Some(Reset(|s.requests|, command))
    case Store(r) => Some(Anticipation(s.requests[r].command))
    case Handle(c, n) => Some(Answer(WriteOf(s.conns[c], c, n)))
    case _ => None
  }

  /** The tables change with the history, entry by entry. */
  lemma {:induction false} StepRecords(s: HubState, step: HubStep)
    requires Enabled(s, step)
    ensures
      var s', e := Apply(s, step), RecordedBy(s, step);
      if e.Some? then s'.history == s.history + [e.value] && s'.db == Effect(s.db, e.value)
      else s'.history == s.history && s'.db == s.db
  {
    hide Effect;
  }

  /** Chargers and configurations are the initial ones with every reset, anticipated change and written
      response applied in order. */
  lemma {:induction false} RunReplays(db: Db, steps: seq<HubStep>)
    requires After(db, steps).Some?
    ensures After(db, steps).value.db == Replay(db, After(db, steps).value.history)
  {
    hide Effect, Apply, Enabled, Replay;
    if steps == [] {
      NothingReplayed(db);
    } else {
      var front := steps[..|steps| - 1];
      RunReplays(db, front);
      var s := After(db, front).value;
      var step := steps[|steps| - 1];
      AfterStep(db, steps);
      StepRecords(s, step);
      if RecordedBy(s, step).Some? {
        ReplaySnoc(db, s.history, RecordedBy(s, step).value);
      }
    }
  }

  lemma {:induction false} NothingReplayed(db: Db)
    ensures Replay(db, []) == db
  {
  }

  function VersionOf(w: Write): Option<int> {
    Version(w.command.action, w.command.payload, w.response)
  }

  predicate SetsVersion(e: Entry, chargePointId: string) {
    e.Answer? && e.write.command.identity == chargePointId && VersionOf(e.write).Some?
  }

  /** The version last established for a charger. */
  function LastVersion(initial: int, history: seq<Entry>, chargePointId: string): int {
    if history == [] then initial
    else
      var e := history[|history| - 1];
      if SetsVersion(e, chargePointId) then VersionOf(e.write).value
      else LastVersion(initial, history[..|history| - 1], chargePointId)
  }

  /** What one entry says about a status column of a charger: pending, the outcome of a response, or
      nothing. */
  function StatusSet(e: Entry, chargePointId: string, column: Column): Option<int> {
    match e
    case Reset(_, command) =>
      if command.identity == chargePointId && ResetColumn(command.action) == Some(column) then Some(STATUS_PENDING) else None
    case Anticipation(_) => None
    case Answer(w) =>
      if w.command.identity == chargePointId && StatusColumn(w.command.action) == Some(column)
      then Outcome(w.command.action, w.command.payload, w.response) else None
  }

  /** The last status set in one column of a charger. */
  function LastStatus(initial: Option<int>, history: seq<Entry>, chargePointId: string, column: Column): Option<int> {
    if history == [] then initial
    else
      var set' := StatusSet(history[|history| - 1], chargePointId, column);
      if set'.Some? then set' else LastStatus(initial, history[..|history| - 1], chargePointId, column)
  }

  function ColumnOf(c: Charger, column: Column): Option<int> {
    if column in c.commandStatus then Some(c.commandStatus[column]) else None
  }

  lemma {:induction false} SetColumn(c: Charger, version: Option<int>, set': Option<Column>, status: Option<int>, column: Column)
    ensures ColumnOf(SetCharger(c, version, set', status), column)
         == if set' == Some(column) && status.Some? then status else ColumnOf(c, column)
    ensures SetCharger(c, version, set', status).localListVersion == if version.Some? then version.value else c.localListVersion
    ensures SetCharger(c, version, set', status).id == c.id
  {
  }

  lemma {:induction false} EffectOnCharger(db: Db, e: Entry, id: string, column: Column)
    requires id in db.chargers
    ensures id in Effect(db, e).chargers
    ensures Effect(db, e).chargers[id].id == db.chargers[id].id
    ensures Effect(db, e).chargers[id].localListVersion
         == if SetsVersion(e, id) then VersionOf(e.write).value else db.chargers[id].localListVersion
    ensures ColumnOf(Effect(db, e).chargers[id], column)
         == if StatusSet(e, id, column).Some? then StatusSet(e, id, column) else ColumnOf(db.chargers[id], column)
  {
    hide StatusColumn, ResetColumn, Outcome, Version, UpsertConfigurations, Configures, Cancels, SetCharger, ColumnOf;
    match e {
      case Reset(_, c) => SetColumn(db.chargers[id], None, ResetColumn(c.action), Some(STATUS_PENDING), column);
      case Anticipation(_) =>
      case Answer(w) =>
        SetColumn(db.chargers[id], VersionOf(w), StatusColumn(w.command.action),
                  Outcome(w.command.action, w.command.payload, w.response), column);
    }
  }

  lemma {:induction false} ReplayCharger(db: Db, history: seq<Entry>, id: string, column: Column)
    requires id in db.chargers
    ensures id in Replay(db, history).chargers
    ensures Replay(db, history).chargers[id].id == db.chargers[id].id
    ensures Replay(db, history).chargers[id].localListVersion == LastVersion(db.chargers[id].localListVersion, history, id)
    ensures ColumnOf(Replay(db, history).chargers[id], column) == LastStatus(ColumnOf(db.chargers[id], column), history, id, column)
  {
    if history != [] {
      var front := history[..|history| - 1];
      ReplayCharger(db, front, id, column);
      EffectOnCharger(Replay(db, front), history[|history| - 1], id, column);
    }
  }

  /** After every run, a charger's list version is that of the last response it gave that establishes
      one, and each of its command statuses is the last of resets and recorded outcomes. */
  lemma {:induction false} TablesFollowHistory(db: Db, steps: seq<HubStep>, id: string, column: Column)
    requires After(db, steps).Some? && id in db.chargers
    ensures
      var s := After(db, steps).value;
      && id in s.db.chargers
      && s.db.chargers[id].localListVersion == LastVersion(db.chargers[id].localListVersion, s.history, id)
      && ColumnOf(s.db.chargers[id], column) == LastStatus(ColumnOf(db.chargers[id], column), s.history, id, column)
  {
    RunReplays(db, steps);
    ReplayCharger(db, After(db, steps).value.history, id, column);
  }

  lemma {:induction false} LastVersionFrom(initial: int, history: seq<Entry>, id: string) returns (i: nat)
    requires LastVersion(initial, history, id) != initial
    ensures i < |history| && SetsVersion(history[i], id)
    ensures VersionOf(history[i].write) == Some(LastVersion(initial, history, id))
  {
    if SetsVersion(history[|history| - 1], id) {
      i := |history| - 1;
    } else {
      i := LastVersionFrom(initial, history[..|history| - 1], id);
    }
  }

  /** A stored list version that is not the initial one is either the version of an accepted
      SendLocalList's own request or the version a GetLocalListVersion reported, in a call to that
      charger whose response came in under the call's own id. */
  lemma {:induction false} VersionOrigin(db: Db, steps: seq<HubStep>, id: string) returns (w: Write)
    requires After(db, steps).Some? && id in db.chargers
    requires
      var s := After(db, steps).value;
      id in s.db.chargers && s.db.chargers[id].localListVersion != db.chargers[id].localListVersion
    ensures
      var s := After(db, steps).value;
      && Answer(w) in s.history && Correlated(s, steps, w) && w.command.identity == id
      && var version := Some(s.db.chargers[id].localListVersion);
         || (w.command.action == "SendLocalList" && w.response.status == Some("Accepted") && w.command.payload.listVersion == version)
         || (w.command.action == "GetLocalListVersion" && w.response.listVersion == version)
  {
    TablesFollowHistory(db, steps, id, ClearCacheStatus);
    var s := After(db, steps).value;
    var i := LastVersionFrom(db.chargers[id].localListVersion, s.history, id);
    w := s.history[i].write;
    WritesCorrelated(db, steps, i);
  }

  // ----- Configurations -----

  function LastValue(kvs: seq<KeyValue>, key: string): Option<Option<string>> {
    var kv := LastOf(kvs, key);
    if kv.Some? then Some(kv.value.value) else None
  }

  /** The value an entry establishes for a key of a charger, if any. */
  function ConfigurationSet(e: Entry, chargePointId: string, key: string): Option<Option<string>> {
    match e
    case Reset(_, _) => None
    case Anticipation(c) => if c.identity == chargePointId then LastValue(Anticipates(c.action, c.payload), key) else None
    case Answer(w) =>
      if w.command.identity == chargePointId then LastValue(Configures(w.command.action, w.command.payload, w.response), key) else None
  }

  function LastConfiguration(initial: Option<Option<string>>, history: seq<Entry>, chargePointId: string, key: string): Option<Option<string>> {
    if history == [] then initial
    else
      var set' := ConfigurationSet(history[|history| - 1], chargePointId, key);
      if set'.Some? then set' else LastConfiguration(initial, history[..|history| - 1], chargePointId, key)
  }

  function ValueOf(cs: map<(string, string), Configuration>, chargerId: string, key: string): Option<Option<string>> {
    if (chargerId, key) in cs then Some(cs[(chargerId, key)].value) else None
  }

  lemma {:induction false} UpsertedValue(cs: map<(string, string), Configuration>, chargerId: string, kvs: seq<KeyValue>,
                                         id: string, key: string)
    ensures ValueOf(UpsertConfigurations(cs, chargerId, kvs), id, key)
         == if id == chargerId && LastValue(kvs, key).Some? then LastValue(kvs, key) else ValueOf(cs, id, key)
  {
    if kvs != [] {
      UpsertedValue(cs, chargerId, kvs[..|kvs| - 1], id, key);
    }
  }

  /** Charger ids are unique. */
  ghost predicate UniqueIds(db: Db) {
    forall a, b :: a in db.chargers && b in db.chargers && db.chargers[a].id == db.chargers[b].id ==> a == b
  }

  lemma {:induction false} EffectOnValue(db: Db, e: Entry, cp: string, key: string)
    requires cp in db.chargers && UniqueIds(db)
    ensures
      var id := db.chargers[cp].id;
      ValueOf(Effect(db, e).configurations, id, key)
      == if ConfigurationSet(e, cp, key).Some? then ConfigurationSet(e, cp, key) else ValueOf(db.configurations, id, key)
    ensures UniqueIds(Effect(db, e)) && Effect(db, e).chargers.Keys == db.chargers.Keys
  {
    hide StatusColumn, Outcome, Version, Cancels, Configures, LastValue, UpsertConfigurations;
    var id := db.chargers[cp].id;
    match e {
      case Reset(_, _) =>
      case Anticipation(c) =>
        if c.identity in db.chargers {
          UpsertedValue(db.configurations, db.chargers[c.identity].id, Anticipates(c.action, c.payload), id, key);
        }
      case Answer(w) =>
        if w.command.identity in db.chargers {
          UpsertedValue(db.configurations, db.chargers[w.command.identity].id,
                        Configures(w.command.action, w.command.payload, w.response), id, key);
        }
    }
  }

  lemma {:induction false} ReplayValue(db: Db, history: seq<Entry>, cp: string, key: string)
    requires cp in db.chargers && UniqueIds(db)
    ensures
      var id := db.chargers[cp].id;
      ValueOf(Replay(db, history).configurations, id, key)
      == LastConfiguration(ValueOf(db.configurations, id, key), history, cp, key)
    ensures UniqueIds(Replay(db, history)) && Replay(db, history).chargers.Keys == db.chargers.Keys
  {
    hide ConfigurationSet, ValueOf, Effect;
    if history != [] {
      var front := history[..|history| - 1];
      ReplayValue(db, front, cp, key);
      ReplayCharger(db, front, cp, ClearCacheStatus);
      EffectOnValue(Replay(db, front), history[|history| - 1], cp, key);
    }
  }

  /** After every run the value of a configuration key is the last one asked for, reported, or accepted
      with a change; a rejected change therefore leaves the value that was asked for. */
  lemma {:induction false} ConfigurationsFollowHistory(db: Db, steps: seq<HubStep>, cp: string, key: string)
    requires After(db, steps).Some? && cp in db.chargers && UniqueIds(db)
    ensures
      var s, id := After(db, steps).value, db.chargers[cp].id;
      ValueOf(s.db.configurations, id, key) == LastConfiguration(ValueOf(db.configurations, id, key), s.history, cp, key)
  {
    RunReplays(db, steps);
    ReplayValue(db, After(db, steps).value.history, cp, key);
  }

  // ----- The registry -----

  /** The registry never holds a finished connection, and holds each under its own identity. */
  ghost predicate RegistryLive(s: HubState) {
    forall id :: id in s.registry ==>
      s.registry[id] < |s.conns| && s.conns[s.registry[id]].live && s.conns[s.registry[id]].identity == id
  }

  lemma {:induction false} StepKeepsRegistry(s: HubState, step: HubStep)
    requires RegistryLive(s) && Enabled(s, step)
    ensures RegistryLive(Apply(s, step))
  {
  }

  lemma {:induction false} RunKeepsRegistry(db: Db, steps: seq<HubStep>)
    requires After(db, steps).Some?
    ensures RegistryLive(After(db, steps).value)
  {
    if steps != [] {
      RunKeepsRegistry(db, steps[..|steps| - 1]);
      StepKeepsRegistry(After(db, steps[..|steps| - 1]).value, steps[|steps| - 1]);
    }
  }

  /** A step that registers or unregisters an identity, whichever connection it belongs to. */
  predicate Touches(step: HubStep, identity: string) {
    (step.Connect? || step.Disconnect?) && step.identity == identity
  }

  predicate Found(s: HubState, c: nat, identity: string) {
    identity in s.registry && s.registry[identity] == c
  }

  lemma {:induction false} FoundStep(s: HubState, step: HubStep, c: nat, identity: string)
    requires Enabled(s, step) && c < |s.conns| && s.conns[c].identity == identity
    ensures c < |Apply(s, step).conns| && Apply(s, step).conns[c].identity == identity
    ensures Found(Apply(s, step), c, identity) <==> Found(s, c, identity) && !Touches(step, identity)
  {
  }

  /** The exact condition for finding a connection: after it registered, no other connection of its
      identity registered and no connection of its identity unregistered. */
  lemma {:induction false} FoundExactly(db: Db, steps: seq<HubStep>, more: seq<HubStep>, identity: string)
    requires After(db, steps).Some?
    requires After(db, (steps + [Connect(identity)]) + more).Some?
    ensures
      var c := |After(db, steps).value.conns|;
      var s := After(db, (steps + [Connect(identity)]) + more).value;
      && c < |s.conns| && s.conns[c].identity == identity
      && (Found(s, c, identity) <==> forall step :: step in more ==> !Touches(step, identity))
    decreases |more|
  {
    var start := steps + [Connect(identity)];
    if more == [] {
      assert start + more == start;
      assert start[..|steps|] == steps;
    } else {
      var front, step := more[..|more| - 1], more[|more| - 1];
      assert (start + more)[..|start + more| - 1] == start + front;
      assert more == front + [step];
      FoundExactly(db, steps, front, identity);
      FoundStep(After(db, start + front).value, step, |After(db, steps).value.conns|, identity);
    }
  }

  /** An overlapping reconnect hides the live connection: the old one leaves last. */
  lemma {:induction false} ReconnectCanHide(db: Db, identity: string) returns (steps: seq<HubStep>)
    ensures After(db, steps).Some?
    ensures
      var s := After(db, steps).value;
      |s.conns| == 2 && s.conns[1] == Connection(identity, true, P.INITIAL, []) && identity !in s.registry
  {
    steps := [];
    steps := Extend(db, steps, Connect(identity));
    steps := Extend(db, steps, Connect(identity));
    steps := Extend(db, steps, Disconnect(0, identity));
  }

  // ----- The registry object -----

  /** The connections of this replica, by charge point. The rest of the hub's state is only there to
      say what the entries stand for. */
  class Registry {
    var connections: map<string, nat>
    ghost var hub: HubState

    ghost predicate Valid()
      reads this
    {
      connections == hub.registry && RegistryLive(hub)
    }

    constructor (db: Db)
      ensures Valid() && hub == Initial(db)
    {
      connections, hub := map[], Initial(db);
    }

    /** A new connection replaces whatever was registered under its identity. */
    method Register(identity: string, c: nat)
      requires Valid() && c == |hub.conns|
      modifies this
      ensures Valid() && hub == Apply(old(hub), Connect(identity))
    {
      StepKeepsRegistry(hub, Connect(identity));
      connections := connections[identity := c];
      hub := Apply(hub, Connect(identity));
    }

    /** A connection that ends takes the entry of its identity with it, whosever it is. */
    method Unregister(identity: string, ghost c: nat)
      requires Valid() && Enabled(hub, Disconnect(c, identity))
      modifies this
      ensures Valid() && hub == Apply(old(hub), Disconnect(c, identity))
    {
      StepKeepsRegistry(hub, Disconnect(c, identity));
      connections := connections - {identity};
      hub := Apply(hub, Disconnect(c, identity));
    }

    /** What is found is a live connection of that charge point. */
    method GetLocal(identity: string) returns (c: Option<nat>)
      requires Valid()
      ensures c.Some? <==> exists n :: Found(hub, n, identity)
      ensures c.Some? ==> c.value < |hub.conns| && hub.conns[c.value].live && hub.conns[c.value].identity == identity
    {
      if identity in connections {
        assert Found(hub, connections[identity], identity);
        c := Some(connections[identity]);
      } else {
        c := None;
      }
    }

    /** Every registered charge point, once, in any order; each has a live connection. */
    method ListLocal() returns (ids: seq<string>)
      requires Valid()
      ensures forall id :: id in ids <==> id in connections
      ensures forall i, j :: 0 <= i < j < |ids| ==> ids[i] != ids[j]
      ensures forall id :: id in ids ==> hub.registry[id] < |hub.conns| && hub.conns[hub.registry[id]].live
    {
      ids := [];
      var left := connections.Keys;
      while left != {}
        invariant left <= connections.Keys
        invariant forall id :: id in ids <==> id in connections && id !in left
        invariant forall i, j :: 0 <= i < j < |ids| ==> ids[i] != ids[j]
        decreases left
      {
        var id :| id in left;
        left := left - {id};
        ids := ids + [id];
      }
    }
  }
}
