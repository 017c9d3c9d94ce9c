/** What a tag check answers, and what each charging statement must leave in the tables. */
module ChargingRules {
  import opened Options
  import opened Store
  import opened Charging
  import Meter

  // ----- Tag checks -----

  /** The answer is this record's: its status, or "Expired" when its expiry has passed. */
  predicate AnswersWith(tag: Tag, now: int, info: IdTagInfo) {
    && info.expiry == tag.expiry && info.parentIdTag == tag.parentIdTag
    && info.status == if tag.expiry.Some? && tag.expiry.value < now then "Expired" else tag.status
  }

  predicate HasOwn(db: Db, chargePointId: string, idTag: string) {
    chargePointId in db.chargers && (Some(db.chargers[chargePointId].id), idTag) in db.tags
  }

  /** The charger's own record decides; without one the global record; without either the tag is invalid. */
  predicate TagDecided(db: Db, chargePointId: string, idTag: string, now: int, info: IdTagInfo) {
    if HasOwn(db, chargePointId, idTag) then
      AnswersWith(db.tags[(Some(db.chargers[chargePointId].id), idTag)], now, info)
    else if (None, idTag) in db.tags then AnswersWith(db.tags[(None, idTag)], now, info)
    else info == IdTagInfo("Invalid", None, None)
  }

  lemma {:induction false} CheckedByRule(db: Db, chargePointId: string, idTag: string, now: int)
    ensures TagDecided(db, chargePointId, idTag, now, ValidateIdTag(db, chargePointId, idTag, now))
  {
  }

  /** With a record of the charger's own, no other record matters, now or after any change to them. */
  lemma {:induction false} OwnRecordStands(db: Db, tags: map<(Option<string>, string), Tag>, chargePointId: string, idTag: string, now: int)
    requires HasOwn(db, chargePointId, idTag)
    requires
      var own := (Some(db.chargers[chargePointId].id), idTag);
      own in tags && tags[own] == db.tags[own]
    ensures ValidateIdTag(db.(tags := tags), chargePointId, idTag, now) == ValidateIdTag(db, chargePointId, idTag, now)
  {
    CheckedByRule(db, chargePointId, idTag, now);
    CheckedByRule(db.(tags := tags), chargePointId, idTag, now);
  }

  /** A start's tag check adds a request if and only if the record that decides is accepted and has not
      expired. */
  lemma {:induction false} AskAddsExactly(s: Server, chargePointId: string, p: StartParams, now: int)
    ensures
      var requests := Apply(s, Ask(chargePointId, p, now)).requests;
      if Admitted(s.db, chargePointId, p.idTag, now) then requests == s.requests + [Request(chargePointId, p, false)]
      else requests == s.requests
  {
    CheckedByRule(s.db, chargePointId, p.idTag, now);
  }

  // ----- Statements -----

  /** Of the connectors only this one, if it is known, has the status. */
  predicate OnlyConnector(cs: map<(string, int), string>, cs': map<(string, int), string>, k: (string, int), status: string) {
    && cs'.Keys == cs.Keys
    && (k in cs ==> cs'[k] == status)
    && forall other :: other in cs && other != k ==> cs'[other] == cs[other]
  }

  /** Of the reservations only this one is used, if it was still reserved. */
  predicate OnlyUsed(rs: map<(string, int), Reservation>, rs': map<(string, int), Reservation>, k: (string, int)) {
    && rs'.Keys == rs.Keys
    && (k in rs ==> rs'[k] == if rs[k].status == Reserved then rs[k].(status := Used) else rs[k])
    && forall other :: other in rs && other != k ==> rs'[other] == rs[other]
  }

  /** A committed start of a known charger adds an open session with the next id, marks its connector as
      charging and uses its reservation; a lost one spends the id; any other changes nothing. */
  predicate AsStarted(db: Db, db': Db, chargePointId: string, p: StartParams, startTime: int, outcome: TxOutcome) {
    if chargePointId !in db.chargers || outcome == FailedBeforeInsert then db' == db
    else if outcome == LostAfterInsert then db' == db.(nextTransactionId := db.nextTransactionId + 1)
    else
      var id := db.chargers[chargePointId].id;
      && db'.chargers == db.chargers && db'.configurations == db.configurations && db'.tags == db.tags
      && db'.nextTransactionId == db.nextTransactionId + 1
      && db'.sessions == db.sessions + [Session(db.nextTransactionId, id, p.connectorId, p.idTag, p.reservationId,
                                                startTime, p.meterStart, None, None, 0.0, 0.0, "")]
      && OnlyConnector(db.connectors, db'.connectors, (id, p.connectorId), "Charging")
      && if p.reservationId.Some? then OnlyUsed(db.reservations, db'.reservations, (id, p.reservationId.value))
         else db'.reservations == db.reservations
  }

  /** The reading fits its 32-bit column, and the energy its six digits before the point. */
  predicate Fits(meterStart: int, meterStop: int) {
    -2147483648 <= meterStop <= 2147483647 && -1000000000 < meterStop - meterStart < 1000000000
  }

  /** Row `i` is the first of this transaction. */
  predicate FirstOf(sessions: seq<Session>, id: int, i: nat) {
    && i < |sessions| && sessions[i].transactionId == id
    && forall j :: 0 <= j < i ==> sessions[j].transactionId != id
  }

  predicate ClosedAs(s: Session, s': Session, meterStop: int, endTime: int, reason: string) {
    && s' == s.(endTime := Some(endTime), meterStop := Some(meterStop), energyKwh := s'.energyKwh, stopReason := reason)
    && s'.energyKwh * 1000.0 == (meterStop - s.meterStart) as real
  }

  /** A stop of row `i` closes it and frees its connector. */
  ghost predicate AsStopped(db: Db, db': Db, i: nat, meterStop: int, endTime: int, reason: string)
    requires i < |db.sessions|
  {
    && db' == db.(sessions := db'.sessions, connectors := db'.connectors)
    && |db'.sessions| == |db.sessions|
    && (forall j :: 0 <= j < |db.sessions| && j != i ==> db'.sessions[j] == db.sessions[j])
    && ClosedAs(db.sessions[i], db'.sessions[i], meterStop, endTime, reason)
    && OnlyConnector(db.connectors, db'.connectors, (db.sessions[i].chargerId, db.sessions[i].connectorId), "Available")
  }

  /** A stop succeeds exactly when its session is there and the numbers fit; otherwise nothing changes. */
  ghost predicate Stopped(db: Db, db': Db, id: int, meterStop: int, endTime: int, reason: string, ok: bool) {
    && (ok <==> exists i: nat :: FirstOf(db.sessions, id, i) && Fits(db.sessions[i].meterStart, meterStop))
    && (!ok ==> db' == db)
    && (forall i: nat :: ok && FirstOf(db.sessions, id, i) ==> AsStopped(db, db', i, meterStop, endTime, reason))
  }

  /** A reservation is asked for with valid parameters when its expiry is ahead and its ids are given. */
  predicate AsReserved(db: Db, db': Db, chargePointId: string, p: ReserveParams, now: int, ok: bool) {
    && (ok <==> chargePointId in db.chargers && p.connectorId >= 0 && now < p.expiry && p.idTag != "" && p.reservationId >= 1)
    && if ok then
         db' == db.(reservations := db.reservations[(db.chargers[chargePointId].id, p.reservationId) :=
                      Reservation(p.connectorId, p.idTag, if p.parentIdTag == "" then None else Some(p.parentIdTag), p.expiry, Reserved)])
       else db' == db
  }

  lemma {:induction false} StartedByRule(db: Db, chargePointId: string, p: StartParams, startTime: int, outcome: TxOutcome)
    ensures AsStarted(db, OpenSession(db, chargePointId, p, startTime, outcome), chargePointId, p, startTime, outcome)
  {
  }

  lemma {:induction false} FitsExactly(s: Session, meterStop: int)
    ensures Closable(s, meterStop) <==> Fits(s.meterStart, meterStop)
  {
  }

  lemma {:induction false} StopRule(db: Db, i: nat, meterStop: int, endTime: int, reason: string)
    requires i < |db.sessions|
    ensures
      var s := db.sessions[i];
      AsStopped(db, db.(sessions := db.sessions[i := Close(s, meterStop, endTime, reason)],
                        connectors := SetConnector(db.connectors, s.chargerId, s.connectorId, "Available")),
                i, meterStop, endTime, reason)
  {
  }

  lemma {:induction false} StoppedByRule(db: Db, id: int, meterStop: int, endTime: int, reason: string)
    ensures
      var i := FindSession(db.sessions, id);
      Stopped(db, StopSession(db, id, meterStop, endTime, reason), id, meterStop, endTime, reason,
              i < |db.sessions| && Closable(db.sessions[i], meterStop))
  {
    hide AsStopped, Closable, Close, SetConnector, Fits;
    var found := FindSession(db.sessions, id);
    forall i: nat | FirstOf(db.sessions, id, i)
      ensures i == found
    {
    }
    if found < |db.sessions| {
      assert FirstOf(db.sessions, id, found);
      FitsExactly(db.sessions[found], meterStop);
      StopRule(db, found, meterStop, endTime, reason);
    }
  }

  lemma {:induction false} ReservedByRule(db: Db, chargePointId: string, p: ReserveParams, now: int)
    ensures AsReserved(db, Reserve(db, chargePointId, p, now), chargePointId, p, now, ValidReserve(p, now) && chargePointId in db.chargers)
  {
  }

  /** A power in kW, alone in a report, is what an open session's maximum is compared with. */
  lemma {:induction false} PowerInKw(db: Db, i: nat, phase: string, kw: real)
    requires Sequenced(db) && i < |db.sessions| && db.sessions[i].endTime == None
    ensures
      var db' := RaiseMaxPower(db, db.sessions[i].transactionId, [Meter.Sample(Some(kw), "Power.Active.Import", phase, "kW")]);
      && i < |db'.sessions|
      && db'.sessions[i] == db.sessions[i].(maxPowerKw := StoreMax(db.sessions[i].maxPowerKw, kw))
  {
    hide StoreMax;
    FindUnique(db, i);
    var sample := Meter.Sample(Some(kw), "Power.Active.Import", phase, "kW");
    Meter.OneMorePower([], sample);
    assert [] + [sample] == [sample];
  }
}
