/** Charging sessions, reservations and id tags, one atomic step per statement or transaction. */
module Charging {
  import opened Options
  import opened Payloads
  import opened Store
  import Commands
  import Meter

  // ----- Authorization -----

  datatype IdTagInfo = IdTagInfo(status: string, expiry: Option<int>, parentIdTag: Option<string>)

  /** The record that decides about a tag: the charger's own before the global one. */
  function WinningTag(db: Db, chargePointId: string, idTag: string): Option<Tag> {
    if chargePointId in db.chargers && (Some(db.chargers[chargePointId].id), idTag) in db.tags then
      Some(db.tags[(Some(db.chargers[chargePointId].id), idTag)])
    else if (None, idTag) in db.tags then Some(db.tags[(None, idTag)])
    else None
  }

  predicate Expired(tag: Tag, now: int) {
    tag.expiry.Some? && tag.expiry.value < now
  }

  function ValidateIdTag(db: Db, chargePointId: string, idTag: string, now: int): IdTagInfo {
    match WinningTag(db, chargePointId, idTag)
    case None => IdTagInfo("Invalid", None, None)
    case Some(tag) => IdTagInfo(if Expired(tag, now) then "Expired" else tag.status, tag.expiry, tag.parentIdTag)
  }

  // ----- Sessions -----

  datatype StartParams = StartParams(connectorId: int, idTag: string, meterStart: int, reservationId: Option<int>)

  /** How the transaction of a start ends; its error is never looked at. */
  datatype TxOutcome = Committed | FailedBeforeInsert | LostAfterInsert

  /** The row a start inserts. */
  function NewSession(id: int, chargerId: string, p: StartParams, startTime: int): Session {
    Session(id, chargerId, p.connectorId, p.idTag, p.reservationId, startTime, p.meterStart,
            None, None, 0.0, 0.0, "")
  }

  function SetConnector(connectors: map<(string, int), string>, chargerId: string, connectorId: int, status: string): map<(string, int), string> {
    if (chargerId, connectorId) in connectors then connectors[(chargerId, connectorId) := status] else connectors
  }

  /** A reservation is used only while it is still reserved. */
  function UseReserved(rs: map<(string, int), Reservation>, chargerId: string, reservationId: Option<int>): map<(string, int), Reservation> {
    if reservationId == None then rs
    else
      var k := (chargerId, reservationId.value);
      if k in rs && rs[k].status.Reserved? then rs[k := rs[k].(status := Used)] else rs
  }

  /** The start transaction. A sequence value is spent even when the row is lost. */
  function OpenSession(db: Db, chargePointId: string, p: StartParams, startTime: int, outcome: TxOutcome): Db {
    if chargePointId !in db.chargers || outcome == FailedBeforeInsert then db
    else if outcome == LostAfterInsert then db.(nextTransactionId := db.nextTransactionId + 1)
    else
      var chargerId := db.chargers[chargePointId].id;
      db.(sessions := db.sessions + [NewSession(db.nextTransactionId, chargerId, p, startTime)],
          nextTransactionId := db.nextTransactionId + 1,
          connectors := SetConnector(db.connectors, chargerId, p.connectorId, "Charging"),
          reservations := UseReserved(db.reservations, chargerId, p.reservationId))
  }

  /** A 32-bit integer column holds the value. */
  predicate Int4(n: int) {
    -0x8000_0000 <= n < 0x8000_0000
  }

  /** A numeric column with this many digits before the point holds the value. */
  predicate FitsDigits(x: real, bound: real) {
    -bound < x < bound
  }

  function EnergyKwh(meterStart: int, meterStop: int): real {
    (meterStop - meterStart) as real / 1000.0
  }

  /** Closing a session fails when a number does not fit its column. */
  predicate Closable(s: Session, meterStop: int) {
    Int4(meterStop) && FitsDigits(EnergyKwh(s.meterStart, meterStop), 1_000_000.0)
  }

  /** The row index of a transaction id, or the number of rows. */
  function FindSession(sessions: seq<Session>, id: int): (i: nat)
    ensures i <= |sessions|
    ensures i < |sessions| ==> sessions[i].transactionId == id
    ensures forall j :: 0 <= j < i ==> sessions[j].transactionId != id
  {
    if sessions == [] || sessions[0].transactionId == id then 0 else 1 + FindSession(sessions[1..], id)
  }

  function Close(s: Session, meterStop: int, endTime: int, reason: string): Session {
    s.(endTime := Some(endTime), meterStop := Some(meterStop),
       energyKwh := EnergyKwh(s.meterStart, meterStop), stopReason := reason)
  }

  /** The stop statements; nothing guards against stopping twice. */
  function StopSession(db: Db, id: int, meterStop: int, endTime: int, reason: string): Db {
    var i := FindSession(db.sessions, id);
    if i == |db.sessions| || !Closable(db.sessions[i], meterStop) then db
    else
      var s := db.sessions[i];
      db.(sessions := db.sessions[i := Close(s, meterStop, endTime, reason)],
          connectors := SetConnector(db.connectors, s.chargerId, s.connectorId, "Available"))
  }

  /** Rounding to two decimals, halves away from zero, as a numeric(10, 2) column does. */
  function Round2(x: real): real {
    if x >= 0.0 then (x * 100.0 + 0.5).Floor as real / 100.0
    else -((-x * 100.0 + 0.5).Floor as real / 100.0)
  }

  function Max(a: real, b: real): real {
    if a >= b then a else b
  }

  /** What storing the greater of two powers leaves in the column; the update fails on overflow. */
  function StoreMax(stored: real, powerKw: real): real {
    var r := Round2(Max(stored, powerKw));
    if FitsDigits(r, 100_000_000.0) then r else stored
  }

  function RaiseMaxPower(db: Db, id: int, samples: seq<Meter.Sample>): Db {
    var i := FindSession(db.sessions, id);
    var power := Meter.ActivePower(samples);
    if i == |db.sessions| || power == None || db.sessions[i].endTime.Some? then db
    else
      var s := db.sessions[i];
      db.(sessions := db.sessions[i := s.(maxPowerKw := StoreMax(s.maxPowerKw, power.value / 1000.0))])
  }

  // ----- Reservations -----

  datatype ReserveParams = ReserveParams(connectorId: int, expiry: int, idTag: string, parentIdTag: string, reservationId: int)

  predicate ValidReserve(p: ReserveParams, now: int) {
    p.connectorId >= 0 && p.expiry > now && p.idTag != "" && p.reservationId > 0
  }

  function Reserve(db: Db, chargePointId: string, p: ReserveParams, now: int): Db {
    if chargePointId !in db.chargers || !ValidReserve(p, now) then db
    else
      var parent := if p.parentIdTag == "" then None else Some(p.parentIdTag);
      db.(reservations := db.reservations[(db.chargers[chargePointId].id, p.reservationId) :=
            Reservation(p.connectorId, p.idTag, parent, p.expiry, Reserved)])
  }

  // ----- Runs -----

  /** A start whose tag was accepted and whose transaction has not run yet. */
  datatype Request = Request(chargePointId: string, params: StartParams, settled: bool)

  datatype Server = Server(db: Db, requests: seq<Request>)

  datatype Op =
    | EditTags(tags: map<(Option<string>, string), Tag>)
    | Ask(chargePointId: string, params: StartParams, now: int)   // the tag check of a start
    | Open(request: nat, startTime: int, outcome: TxOutcome)      // the transaction of a start
    | Stop(transactionId: int, meterStop: int, endTime: int, reason: string)
    | Report(transactionId: int, samples: seq<Meter.Sample>)
    | ReserveNow(chargePointId: string, reserve: ReserveParams, now: int)
    | Respond(chargePointId: string, action: string, request': Payload, response: Payload)

  function Apply(s: Server, op: Op): Server {
    match op
    case EditTags(tags) => s.(db := s.db.(tags := tags))
    case Ask(cp, p, now) =>
      if ValidateIdTag(s.db, cp, p.idTag, now).status == "Accepted"
      then s.(requests := s.requests + [Request(cp, p, false)]) else s
    case Open(r, startTime, outcome) =>
      if r < |s.requests| && !s.requests[r].settled then
        Server(OpenSession(s.db, s.requests[r].chargePointId, s.requests[r].params, startTime, outcome),
               s.requests[r := s.requests[r].(settled := true)])
      else s
    case Stop(id, meterStop, endTime, reason) => s.(db := StopSession(s.db, id, meterStop, endTime, reason))
    case Report(id, samples) => s.(db := RaiseMaxPower(s.db, id, samples))
    case ReserveNow(cp, p, now) => s.(db := Reserve(s.db, cp, p, now))
    case Respond(cp, action, request, response) => s.(db := Commands.Handled(s.db, cp, action, request, response))
  }

  function After(s: Server, ops: seq<Op>): Server {
    if ops == [] then s else Apply(After(s, ops[..|ops| - 1]), ops[|ops| - 1])
  }

  /** A server with no session yet. */
  predicate Fresh(s: Server) {
    s.requests == [] && s.db.sessions == []
  }

  // ----- Sessions in every reachable state -----

  /** Closed sessions balance: their energy is the difference of their readings. */
  predicate Balanced(s: Session) {
    s.endTime.Some? ==>
      s.meterStop.Some? && s.energyKwh * 1000.0 == (s.meterStop.value - s.meterStart) as real
  }

  /** Transaction ids increase with the rows and stay below the sequence. */
  ghost predicate Sequenced(db: Db) {
    && (forall i, j :: 0 <= i < j < |db.sessions| ==> db.sessions[i].transactionId < db.sessions[j].transactionId)
    && (forall i :: 0 <= i < |db.sessions| ==> db.sessions[i].transactionId < db.nextTransactionId)
  }

  ghost predicate Sound(db: Db) {
    Sequenced(db) && forall i :: 0 <= i < |db.sessions| ==> Balanced(db.sessions[i])
  }

  /** What a step may do to an existing session row. */
  predicate Evolves(a: Session, b: Session) {
    && b.transactionId == a.transactionId
    && b.chargerId == a.chargerId && b.connectorId == a.connectorId
    && b.idTag == a.idTag && b.reservationId == a.reservationId
    && b.startTime == a.startTime && b.meterStart == a.meterStart
    && (a.endTime.Some? ==> b.endTime.Some? && b.maxPowerKw == a.maxPowerKw)
  }

  predicate Keeps(a: Session, b: Session) {
    Evolves(a, b) && (Balanced(a) ==> Balanced(b))
  }

  lemma {:induction false} OpenKeepsRows(db: Db, cp: string, p: StartParams, startTime: int, outcome: TxOutcome, i: nat)
    requires i < |db.sessions|
    ensures i < |OpenSession(db, cp, p, startTime, outcome).sessions|
    ensures OpenSession(db, cp, p, startTime, outcome).sessions[i] == db.sessions[i]
  {
  }

  lemma {:induction false} ClosedBalances(s: Session, meterStop: int, endTime: int, reason: string)
    ensures Balanced(Close(s, meterStop, endTime, reason))
  {
  }

  lemma {:induction false} StopKeepsRows(db: Db, id: int, meterStop: int, endTime: int, reason: string, i: nat)
    requires i < |db.sessions|
    ensures
      var db' := StopSession(db, id, meterStop, endTime, reason);
      && |db'.sessions| == |db.sessions|
      && Keeps(db.sessions[i], db'.sessions[i])
      && db'.sessions[i].maxPowerKw == db.sessions[i].maxPowerKw
  {
    hide EnergyKwh, Closable, FindSession, SetConnector, Balanced;
    if FindSession(db.sessions, id) < |db.sessions| {
      ClosedBalances(db.sessions[FindSession(db.sessions, id)], meterStop, endTime, reason);
    }
  }

  lemma {:induction false} ReportKeepsRows(db: Db, id: int, samples: seq<Meter.Sample>, i: nat)
    requires i < |db.sessions|
    ensures
      var db' := RaiseMaxPower(db, id, samples);
      && |db'.sessions| == |db.sessions|
      && Keeps(db.sessions[i], db'.sessions[i])
  {
    hide StoreMax, FindSession, EnergyKwh;
  }

  lemma {:induction false} StepKeepsRows(s: Server, op: Op, i: nat)
    requires i < |s.db.sessions|
    ensures i < |Apply(s, op).db.sessions|
    ensures Keeps(s.db.sessions[i], Apply(s, op).db.sessions[i])
    ensures !op.Report? ==> Apply(s, op).db.sessions[i].maxPowerKw == s.db.sessions[i].maxPowerKw
  {
    hide Commands.SetCharger, Commands.UpsertConfigurations, Commands.CancelReserved, Commands.Version, Commands.Outcome, Commands.StatusColumn, Commands.Configures, Commands.Cancels;
    match op {
      case Open(r, startTime, outcome) =>
        if r < |s.requests| {
          OpenKeepsRows(s.db, s.requests[r].chargePointId, s.requests[r].params, startTime, outcome, i);
        }
      case Stop(id, meterStop, endTime, reason) => StopKeepsRows(s.db, id, meterStop, endTime, reason, i);
      case Report(id, samples) => ReportKeepsRows(s.db, id, samples, i);
      case _ =>
    }
  }

  /** Only a start transaction adds a row, and it adds one. */
  lemma {:induction false} StepAddsRow(s: Server, op: Op)
    ensures
      var n, n' := |s.db.sessions|, |Apply(s, op).db.sessions|;
      n' != n ==>
        && n' == n + 1
        && op.Open? && op.request < |s.requests| && !s.requests[op.request].settled
        && s.requests[op.request].chargePointId in s.db.chargers
        && Apply(s, op).db.sessions[n]
           == NewSession(s.db.nextTransactionId, s.db.chargers[s.requests[op.request].chargePointId].id,
                         s.requests[op.request].params, op.startTime)
        && Apply(s, op).db.nextTransactionId == s.db.nextTransactionId + 1
    ensures Apply(s, op).db.nextTransactionId >= s.db.nextTransactionId
  {
  }

  lemma {:induction false} StepKeepsSound(s: Server, op: Op)
    requires Sound(s.db)
    ensures Sound(Apply(s, op).db)
  {
    var s' := Apply(s, op);
    StepAddsRow(s, op);
    forall i: nat | i < |s.db.sessions|
      ensures i < |s'.db.sessions| && Keeps(s.db.sessions[i], s'.db.sessions[i])
    {
      StepKeepsRows(s, op, i);
    }
  }

  /** In every reachable state all transaction ids are distinct, and each closed session's energy
      times 1000 is its stop reading minus its start reading, however often it was stopped. */
  lemma {:induction false} ReachableSound(s: Server, ops: seq<Op>)
    requires Fresh(s)
    ensures Sound(After(s, ops).db)
  {
    if ops != [] {
      ReachableSound(s, ops[..|ops| - 1]);
      StepKeepsSound(After(s, ops[..|ops| - 1]), ops[|ops| - 1]);
    }
  }

  ghost predicate PositiveIds(db: Db) {
    forall s :: s in db.sessions ==> s.transactionId > 0
  }

  /** Some stored session has this transaction id. */
  ghost predicate Stored(db: Db, id: int) {
    exists s :: s in db.sessions && s.transactionId == id
  }

  /** Whichever way a start's transaction ends the charger is told it was accepted; but the id it is
      given, the next one, or 0 when none was drawn, is stored only when it was committed. */
  lemma {:induction false} StoredAfterOpen(db: Db, cp: string, p: StartParams, startTime: int, outcome: TxOutcome)
    ensures
      var id := if cp !in db.chargers || outcome == FailedBeforeInsert then 0 else db.nextTransactionId;
      Sequenced(db) && PositiveIds(db) ==>
        (Stored(OpenSession(db, cp, p, startTime, outcome), id) <==> outcome == Committed && cp in db.chargers)
  {
    var db' := OpenSession(db, cp, p, startTime, outcome);
    if outcome == Committed && cp in db.chargers {
      var s := NewSession(db.nextTransactionId, db.chargers[cp].id, p, startTime);
      assert db'.sessions == db.sessions + [s] && s in db'.sessions;
    }
  }

  /** A sequence that starts above zero gives positive ids only. */
  lemma {:induction false} ReachablePositive(s: Server, ops: seq<Op>)
    requires Fresh(s) && s.db.nextTransactionId > 0
    ensures PositiveIds(After(s, ops).db) && After(s, ops).db.nextTransactionId > 0
  {
    if ops != [] {
      var front, op := ops[..|ops| - 1], ops[|ops| - 1];
      ReachablePositive(s, front);
      var before, after := After(s, front), After(s, ops);
      StepAddsRow(before, op);
      forall x | x in after.db.sessions ensures x.transactionId > 0 {
        var i :| 0 <= i < |after.db.sessions| && after.db.sessions[i] == x;
        if i < |before.db.sessions| {
          StepKeepsRows(before, op, i);
          assert before.db.sessions[i] in before.db.sessions;
        }
      }
    }
  }

  /** A session row is never removed and never changes who started it, where, and with which reading;
      once closed it stays closed and its maximum power is frozen. */
  lemma {:induction false} RowsEvolve(s: Server, ops: seq<Op>, i: nat)
    requires i < |s.db.sessions|
    ensures i < |After(s, ops).db.sessions|
    ensures Evolves(s.db.sessions[i], After(s, ops).db.sessions[i])
  {
    if ops != [] {
      RowsEvolve(s, ops[..|ops| - 1], i);
      StepKeepsRows(After(s, ops[..|ops| - 1]), ops[|ops| - 1], i);
    }
  }

  // ----- Maximum power -----

  /** The powers, in kW, reported for row `i` while it was open. */
  function Reports(s: Server, ops: seq<Op>, i: nat): seq<real> {
    if ops == [] then []
    else
      var before, op := After(s, ops[..|ops| - 1]), ops[|ops| - 1];
      Reports(s, ops[..|ops| - 1], i) + ReportFor(before, op, i)
  }

  function ReportFor(s: Server, op: Op, i: nat): seq<real> {
    if i < |s.db.sessions| && s.db.sessions[i].endTime == None
       && op.Report? && op.transactionId == s.db.sessions[i].transactionId && Meter.ActivePower(op.samples).Some?
    then [Meter.ActivePower(op.samples).value / 1000.0]
    else []
  }

  /** The running maximum of the initial zero and the reports, each rounded to the column; a report
      the column cannot hold is skipped. */
  function RunningMax(reports: seq<real>): real {
    if reports == [] then 0.0 else KeepMax(RunningMax(reports[..|reports| - 1]), reports[|reports| - 1])
  }

  function KeepMax(m: real, x: real): real {
    if FitsDigits(Round2(x), 100_000_000.0) then Max(m, Round2(x)) else m
  }

  predicate InColumn(m: real) {
    Round2(m) == m && 0.0 <= m < 100_000_000.0
  }

  /** The column holds a whole number of hundredths, within half a hundredth of the value. */
  lemma {:induction false} Round2Nearest(x: real) returns (k: int)
    ensures Round2(x) == k as real / 100.0
    ensures -0.005 <= Round2(x) - x <= 0.005
  {
    if x >= 0.0 {
      k := (x * 100.0 + 0.5).Floor;
    } else {
      k := -(-x * 100.0 + 0.5).Floor;
      assert k as real / 100.0 == -((-k) as real / 100.0);
    }
  }

  lemma Round2Monotone(x: real, y: real)
    requires x <= y
    ensures Round2(x) <= Round2(y)
  {
    if x < 0.0 && y < 0.0 {
      assert (-y * 100.0 + 0.5).Floor <= (-x * 100.0 + 0.5).Floor;
    } else if x >= 0.0 {
      assert (x * 100.0 + 0.5).Floor <= (y * 100.0 + 0.5).Floor;
    }
  }

  lemma Round2Whole(k: int)
    ensures Round2(k as real / 100.0) == k as real / 100.0
  {
    var x := k as real / 100.0;
    if x >= 0.0 {
      assert (x * 100.0 + 0.5).Floor == k;
    } else {
      assert (-x * 100.0 + 0.5).Floor == -k;
    }
  }

  lemma Round2Idempotent(x: real)
    ensures Round2(Round2(x)) == Round2(x)
  {
    if x >= 0.0 {
      Round2Whole((x * 100.0 + 0.5).Floor);
    } else {
      var k := (-x * 100.0 + 0.5).Floor;
      Round2Whole(-k);
      assert (-k) as real / 100.0 == -(k as real / 100.0);
    }
  }

  /** Storing the rounded maximum is taking the maximum with the rounded value. */
  lemma StoreKeepsMax(m: real, x: real)
    requires InColumn(m)
    ensures StoreMax(m, x) == KeepMax(m, x)
    ensures InColumn(KeepMax(m, x))
  {
    Round2Idempotent(x);
    if m >= x {
      Round2Monotone(x, m);
    } else {
      Round2Monotone(m, x);
    }
  }

  lemma {:induction false} RunningMaxInColumn(reports: seq<real>)
    ensures InColumn(RunningMax(reports))
  {
    if reports == [] {
      Round2Whole(0);
    } else {
      RunningMaxInColumn(reports[..|reports| - 1]);
      StoreKeepsMax(RunningMax(reports[..|reports| - 1]), reports[|reports| - 1]);
    }
  }

  lemma {:induction false} FindUnique(db: Db, i: nat)
    requires Sequenced(db) && i < |db.sessions|
    ensures FindSession(db.sessions, db.sessions[i].transactionId) == i
  {
  }

  lemma {:induction false} ReportStep(s: Server, op: Op, i: nat)
    requires Sequenced(s.db) && i < |s.db.sessions|
    ensures i < |Apply(s, op).db.sessions|
    ensures
      var r := ReportFor(s, op, i);
      Apply(s, op).db.sessions[i].maxPowerKw
      == if r == [] then s.db.sessions[i].maxPowerKw else StoreMax(s.db.sessions[i].maxPowerKw, r[0])
  {
    hide EnergyKwh, StoreMax, UseReserved, SetConnector;
    hide Commands.SetCharger, Commands.UpsertConfigurations, Commands.CancelReserved, Commands.Version, Commands.Outcome, Commands.StatusColumn, Commands.Configures, Commands.Cancels;
    StepKeepsRows(s, op, i);
    if op.Report? {
      FindUnique(s.db, i);
    }
  }

  lemma {:induction false} RunningMaxSnoc(reports: seq<real>, more: seq<real>)
    requires |more| <= 1
    ensures RunningMax(reports + more) == if more == [] then RunningMax(reports) else KeepMax(RunningMax(reports), more[0])
  {
    if more == [] {
      assert reports + more == reports;
    } else {
      assert (reports + more)[..|reports|] == reports;
    }
  }

  lemma {:induction false} NoReportsYet(s: Server, ops: seq<Op>, i: nat)
    requires |After(s, ops).db.sessions| <= i
    ensures Reports(s, ops, i) == []
  {
    if ops != [] {
      StepAddsRow(After(s, ops[..|ops| - 1]), ops[|ops| - 1]);
      NoReportsYet(s, ops[..|ops| - 1], i);
    }
  }

  /** In every reachable state a session's maximum power is the running maximum of zero and the sums
      reported while it was open. */
  lemma {:induction false} MaxPowerIsRunningMax(s: Server, ops: seq<Op>, i: nat)
    requires Fresh(s) && i < |After(s, ops).db.sessions|
    ensures After(s, ops).db.sessions[i].maxPowerKw == RunningMax(Reports(s, ops, i))
    decreases |ops|
  {
    hide Apply, KeepMax, StoreMax, InColumn, Sequenced, Meter.ActivePower;
    var front, op := ops[..|ops| - 1], ops[|ops| - 1];
    var before := After(s, front);
    ReachableSound(s, front);
    StepAddsRow(before, op);
    var r := ReportFor(before, op, i);
    RunningMaxSnoc(Reports(s, front, i), r);
    if i < |before.db.sessions| {
      MaxPowerIsRunningMax(s, front, i);
      ReportStep(before, op, i);
      RunningMaxInColumn(Reports(s, front, i));
      if r != [] {
        StoreKeepsMax(RunningMax(Reports(s, front, i)), r[0]);
      }
    } else {
      NoReportsYet(s, front, i);
    }
  }

  function RawMax(reports: seq<real>): real {
    if reports == [] then 0.0 else Max(RawMax(reports[..|reports| - 1]), reports[|reports| - 1])
  }

  /** When the column can hold every report, the running maximum is the rounded true maximum. */
  lemma {:induction false} RunningMaxRounds(reports: seq<real>)
    requires forall x :: x in reports ==> FitsDigits(Round2(x), 100_000_000.0)
    ensures RunningMax(reports) == Round2(RawMax(reports))
  {
    if reports == [] {
      Round2Whole(0);
    } else {
      var front, x := reports[..|reports| - 1], reports[|reports| - 1];
      assert x in reports && forall y :: y in front ==> y in reports;
      RunningMaxRounds(front);
      if RawMax(front) >= x {
        Round2Monotone(x, RawMax(front));
      } else {
        Round2Monotone(RawMax(front), x);
      }
    }
  }

  // ----- The reading a session was last stopped with -----

  /** The reading of the last stop of row `i` that its columns could hold. */
  function LastStop(s: Server, ops: seq<Op>, i: nat): Option<int> {
    if ops == [] then None
    else
      var before, op := After(s, ops[..|ops| - 1]), ops[|ops| - 1];
      if i < |before.db.sessions| && op.Stop? && op.transactionId == before.db.sessions[i].transactionId
         && Closable(before.db.sessions[i], op.meterStop)
      then Some(op.meterStop)
      else LastStop(s, ops[..|ops| - 1], i)
  }

  lemma {:induction false} NotStoppedYet(s: Server, ops: seq<Op>, i: nat)
    requires |After(s, ops).db.sessions| <= i
    ensures LastStop(s, ops, i) == None
  {
    if ops != [] {
      StepAddsRow(After(s, ops[..|ops| - 1]), ops[|ops| - 1]);
      NotStoppedYet(s, ops[..|ops| - 1], i);
    }
  }

  lemma {:induction false} StopStep(s: Server, op: Op, i: nat)
    requires Sequenced(s.db) && i < |s.db.sessions|
    ensures i < |Apply(s, op).db.sessions|
    ensures
      var a, b := s.db.sessions[i], Apply(s, op).db.sessions[i];
      if op.Stop? && op.transactionId == a.transactionId && Closable(a, op.meterStop)
      then b.meterStop == Some(op.meterStop) && b.endTime == Some(op.endTime)
      else b.meterStop == a.meterStop && b.endTime == a.endTime
  {
    hide EnergyKwh, StoreMax, UseReserved, SetConnector;
    hide Commands.SetCharger, Commands.UpsertConfigurations, Commands.CancelReserved, Commands.Version, Commands.Outcome, Commands.StatusColumn, Commands.Configures, Commands.Cancels;
    StepKeepsRows(s, op, i);
    if op.Stop? {
      FindUnique(s.db, i);
    }
  }

  /** A session is closed exactly when some stop went through, with the reading of the last such stop. */
  lemma {:induction false} StoppedByLast(s: Server, ops: seq<Op>, i: nat)
    requires Fresh(s) && i < |After(s, ops).db.sessions|
    ensures After(s, ops).db.sessions[i].meterStop == LastStop(s, ops, i)
    ensures After(s, ops).db.sessions[i].endTime.Some? <==> LastStop(s, ops, i).Some?
    decreases |ops|
  {
    hide Apply, Sequenced, Closable;
    var front, op := ops[..|ops| - 1], ops[|ops| - 1];
    var before := After(s, front);
    ReachableSound(s, front);
    StepAddsRow(before, op);
    if i < |before.db.sessions| {
      StoppedByLast(s, front, i);
      StopStep(before, op, i);
    } else {
      NotStoppedYet(s, front, i);
    }
  }

  // ----- Who may start a session -----

  /** The record is accepted, and its expiry, if any, has not passed. */
  predicate Accepts(tag: Tag, now: int) {
    tag.status == "Accepted" && (tag.expiry.Some? ==> now <= tag.expiry.value)
  }

  /** The charger's own record of the tag accepts it or, when there is none, the global one does. */
  predicate Admitted(db: Db, chargePointId: string, idTag: string, now: int) {
    if chargePointId in db.chargers && (Some(db.chargers[chargePointId].id), idTag) in db.tags then
      Accepts(db.tags[(Some(db.chargers[chargePointId].id), idTag)], now)
    else (None, idTag) in db.tags && Accepts(db.tags[(None, idTag)], now)
  }

  /** The step that asked for a request. */
  function AskStep(s: Server, ops: seq<Op>, r: nat): nat {
    if ops == [] then 0
    else if r < |After(s, ops[..|ops| - 1]).requests| then AskStep(s, ops[..|ops| - 1], r)
    else |ops| - 1
  }

  /** Every request was asked by a step at which its tag was admitted. */
  lemma {:induction false} RequestAsked(s: Server, ops: seq<Op>, r: nat)
    requires Fresh(s) && r < |After(s, ops).requests|
    ensures
      var k, q := AskStep(s, ops, r), After(s, ops).requests[r];
      && k < |ops| && ops[k].Ask?
      && ops[k].chargePointId == q.chargePointId && ops[k].params == q.params
      && Admitted(After(s, ops[..k]).db, q.chargePointId, q.params.idTag, ops[k].now)
    decreases |ops|
  {
    hide OpenSession, Admitted;
    var front, op := ops[..|ops| - 1], ops[|ops| - 1];
    StepOnRequests(After(s, front), op, r);
    if r < |After(s, front).requests| {
      RequestAsked(s, front, r);
      assert front[..AskStep(s, front, r)] == ops[..AskStep(s, front, r)];
    }
  }

  /** Requests are kept and added one at a time, by a tag check that admits; a settled one stays settled,
      and only opening its session settles one. */
  lemma {:induction false} StepOnRequests(s: Server, op: Op, r: nat)
    requires r < |Apply(s, op).requests|
    ensures
      var q := Apply(s, op).requests[r];
      if r < |s.requests| then
        && q.chargePointId == s.requests[r].chargePointId && q.params == s.requests[r].params
        && (s.requests[r].settled ==> q.settled)
        && (op.Open? && op.request == r ==> q.settled)
      else
        && r == |s.requests|
        && op.Ask? && op.chargePointId == q.chargePointId && op.params == q.params
        && Admitted(s.db, q.chargePointId, q.params.idTag, op.now)
    ensures |s.requests| <= |Apply(s, op).requests|
  {
  }

  /** Different requests were asked by different steps. */
  lemma {:induction false} AskStepsDiffer(s: Server, ops: seq<Op>, r: nat, r': nat)
    requires Fresh(s) && r < r' < |After(s, ops).requests|
    ensures AskStep(s, ops, r) < AskStep(s, ops, r')
    decreases |ops|
  {
    var front, op := ops[..|ops| - 1], ops[|ops| - 1];
    StepOnRequests(After(s, front), op, r');
    if r' < |After(s, front).requests| {
      AskStepsDiffer(s, front, r, r');
    } else {
      RequestAsked(s, front, r);
    }
  }

  /** The request whose transaction added a row. */
  function RowRequest(s: Server, ops: seq<Op>, i: nat): nat {
    if ops == [] then 0
    else if i < |After(s, ops[..|ops| - 1]).db.sessions| then RowRequest(s, ops[..|ops| - 1], i)
    else if ops[|ops| - 1].Open? then ops[|ops| - 1].request
    else 0
  }

  lemma {:induction false} RowSettled(s: Server, ops: seq<Op>, i: nat)
    requires Fresh(s) && i < |After(s, ops).db.sessions|
    ensures RowRequest(s, ops, i) < |After(s, ops).requests| && After(s, ops).requests[RowRequest(s, ops, i)].settled
    decreases |ops|
  {
    hide OpenSession;
    var front, op := ops[..|ops| - 1], ops[|ops| - 1];
    StepAddsRow(After(s, front), op);
    if i < |After(s, front).db.sessions| {
      RowSettled(s, front, i);
      StepGrowsRequests(After(s, front), op);
      StepOnRequests(After(s, front), op, RowRequest(s, front, i));
    } else {
      StepGrowsRequests(After(s, front), op);
      StepOnRequests(After(s, front), op, op.request);
    }
  }

  lemma StepGrowsRequests(s: Server, op: Op)
    ensures |s.requests| <= |Apply(s, op).requests|
  {
  }

  /** No request opens two sessions. */
  lemma {:induction false} RowRequestsDiffer(s: Server, ops: seq<Op>, i: nat, j: nat)
    requires Fresh(s) && i < j < |After(s, ops).db.sessions|
    ensures RowRequest(s, ops, i) != RowRequest(s, ops, j)
    decreases |ops|
  {
    hide OpenSession;
    var front, op := ops[..|ops| - 1], ops[|ops| - 1];
    StepAddsRow(After(s, front), op);
    if j < |After(s, front).db.sessions| {
      RowRequestsDiffer(s, front, i, j);
    } else {
      RowSettled(s, front, i);
    }
  }

  lemma {:induction false} StepKeepsChargers(s: Server, op: Op, cp: string)
    ensures cp in Apply(s, op).db.chargers <==> cp in s.db.chargers
    ensures cp in s.db.chargers ==> Apply(s, op).db.chargers[cp].id == s.db.chargers[cp].id
  {
    hide Commands.UpsertConfigurations, Commands.CancelReserved, Commands.Version, Commands.Outcome, Commands.StatusColumn, Commands.Configures, Commands.Cancels;
    hide StoreMax, EnergyKwh, FindSession;
  }

  lemma {:induction false} ChargersStay(s: Server, ops: seq<Op>, cp: string)
    ensures cp in After(s, ops).db.chargers <==> cp in s.db.chargers
    ensures cp in s.db.chargers ==> After(s, ops).db.chargers[cp].id == s.db.chargers[cp].id
  {
    if ops != [] {
      ChargersStay(s, ops[..|ops| - 1], cp);
      StepKeepsChargers(After(s, ops[..|ops| - 1]), ops[|ops| - 1], cp);
    }
  }

  /** The tag check of the start that a row goes back to. */
  function StartOf(s: Server, ops: seq<Op>, i: nat): nat {
    AskStep(s, ops, RowRequest(s, ops, i))
  }

  /** Every session row in a reachable state goes back to a start request of its charger, at which the
      winning record of its tag, the charger's own before the global one, was accepted and unexpired. */
  lemma {:induction false} SessionAdmitted(s: Server, ops: seq<Op>, i: nat)
    requires Fresh(s) && i < |After(s, ops).db.sessions|
    ensures
      var k, session := StartOf(s, ops, i), After(s, ops).db.sessions[i];
      && k < |ops| && ops[k].Ask?
      && Admitted(After(s, ops[..k]).db, ops[k].chargePointId, session.idTag, ops[k].now)
      && ops[k].params.idTag == session.idTag && ops[k].params.meterStart == session.meterStart
      && ops[k].params.connectorId == session.connectorId
      && ops[k].chargePointId in s.db.chargers && s.db.chargers[ops[k].chargePointId].id == session.chargerId
    decreases |ops|
  {
    hide Admitted, OpenSession;
    RowSettled(s, ops, i);
    RequestAsked(s, ops, RowRequest(s, ops, i));
    RowParams(s, ops, i);
  }

  /** A row has the parameters of its request. */
  lemma {:induction false} RowParams(s: Server, ops: seq<Op>, i: nat)
    requires Fresh(s) && i < |After(s, ops).db.sessions|
    ensures RowRequest(s, ops, i) < |After(s, ops).requests|
    ensures
      var q, session := After(s, ops).requests[RowRequest(s, ops, i)], After(s, ops).db.sessions[i];
      && q.params.idTag == session.idTag && q.params.meterStart == session.meterStart && q.params.connectorId == session.connectorId
      && q.chargePointId in s.db.chargers && s.db.chargers[q.chargePointId].id == session.chargerId
    decreases |ops|
  {
    hide OpenSession, Admitted;
    var front, op := ops[..|ops| - 1], ops[|ops| - 1];
    var before := After(s, front);
    StepAddsRow(before, op);
    StepGrowsRequests(before, op);
    if i < |before.db.sessions| {
      RowParams(s, front, i);
      StepKeepsRows(before, op, i);
      StepOnRequests(before, op, RowRequest(s, front, i));
    } else {
      StepOnRequests(before, op, op.request);
      ChargersStay(s, front, before.requests[op.request].chargePointId);
    }
  }

  /** Different rows go back to different starts. */
  lemma {:induction false} SessionsApart(s: Server, ops: seq<Op>, i: nat, j: nat)
    requires Fresh(s) && i < j < |After(s, ops).db.sessions|
    ensures StartOf(s, ops, i) != StartOf(s, ops, j)
  {
    RowSettled(s, ops, i);
    RowSettled(s, ops, j);
    RowRequestsDiffer(s, ops, i, j);
    if RowRequest(s, ops, i) < RowRequest(s, ops, j) {
      AskStepsDiffer(s, ops, RowRequest(s, ops, i), RowRequest(s, ops, j));
    } else {
      AskStepsDiffer(s, ops, RowRequest(s, ops, j), RowRequest(s, ops, i));
    }
  }

  // ----- Reservations -----

  function StatusOf(s: Server, key: (string, int)): Option<ReservationStatus> {
    if key in s.db.reservations then Some(s.db.reservations[key].status) else None
  }

  /** The step upserts this reservation. */
  predicate Upserts(s: Server, op: Op, key: (string, int)) {
    && op.ReserveNow?
    && op.chargePointId in s.db.chargers
    && key == (s.db.chargers[op.chargePointId].id, op.reserve.reservationId)
  }

  ghost predicate NoUpsert(s: Server, ops: seq<Op>, key: (string, int)) {
    forall op :: op in ops ==> !Upserts(s, op, key)
  }

  /** How many steps of a run change the status of a reservation. */
  function StatusChanges(s: Server, ops: seq<Op>, key: (string, int)): nat {
    if ops == [] then 0
    else
      var front := ops[..|ops| - 1];
      StatusChanges(s, front, key) + if StatusOf(After(s, ops), key) != StatusOf(After(s, front), key) then 1 else 0
  }

  lemma {:induction false} StatusStep(s: Server, op: Op, key: (string, int))
    requires !Upserts(s, op, key)
    ensures
      var a, b := StatusOf(s, key), StatusOf(Apply(s, op), key);
      a == b || (a == Some(Reserved) && (b == Some(Used) || b == Some(Cancelled)))
  {
    hide Commands.SetCharger, Commands.UpsertConfigurations, Commands.Version, Commands.Outcome, Commands.StatusColumn, Commands.Configures, Commands.Cancels;
    hide StoreMax, EnergyKwh, FindSession;
  }

  /** Between two upserts a reservation's status changes at most once, from Reserved to Used or
      Cancelled, in any order of starts, rejections and cancellations: a late response undoes nothing. */
  lemma {:induction false} StatusChangesOnce(s: Server, ops: seq<Op>, key: (string, int))
    requires NoUpsert(s, ops, key)
    ensures
      var a, b := StatusOf(s, key), StatusOf(After(s, ops), key);
      && StatusChanges(s, ops, key) <= 1
      && (StatusChanges(s, ops, key) == 0 ==> a == b)
      && (StatusChanges(s, ops, key) == 1 ==> a == Some(Reserved) && (b == Some(Used) || b == Some(Cancelled)))
    decreases |ops|
  {
    if ops != [] {
      var front, op := ops[..|ops| - 1], ops[|ops| - 1];
      assert ops == front + [op];
      StatusChangesOnce(s, front, key);
      assert op in ops && !Upserts(s, op, key);
      if op.ReserveNow? {
        ChargersStay(s, front, op.chargePointId);
      }
      StatusStep(After(s, front), op, key);
    }
  }

  /** A response changes a reservation that is still reserved exactly when it cancels it, whichever request
      it answers. */
  lemma {:induction false} CancelsExactly(s: Server, cp: string, action: string, request: Payload, response: Payload, id: int)
    requires cp in s.db.chargers && StatusOf(s, (s.db.chargers[cp].id, id)) == Some(Reserved)
    ensures
      var key := (s.db.chargers[cp].id, id);
      StatusOf(Apply(s, Respond(cp, action, request, response)), key)
      == if Commands.Cancels(action, request, response) == Some(id) then Some(Cancelled) else Some(Reserved)
  {
    hide Commands.SetCharger, Commands.UpsertConfigurations, Commands.Version, Commands.Outcome, Commands.StatusColumn;
    hide Commands.Configures, Commands.Cancels;
  }

  /** So a late rejection of an earlier request for the same reservation cancels the new one. */
  lemma {:induction false} LateRejectionCancels(s: Server, cp: string, p: ReserveParams, now: int, request: Payload, response: Payload)
    requires cp in s.db.chargers && ValidReserve(p, now)
    requires request.reservationId == Some(p.reservationId) && response.status.Some? && response.status.value != "Accepted"
    ensures
      var key := (s.db.chargers[cp].id, p.reservationId);
      var s' := Apply(s, ReserveNow(cp, p, now));
      && StatusOf(s', key) == Some(Reserved)
      && StatusOf(Apply(s', Respond(cp, "ReserveNow", request, response)), key) == Some(Cancelled)
  {
    CancelsExactly(Apply(s, ReserveNow(cp, p, now)), cp, "ReserveNow", request, response, p.reservationId);
  }
}
