/** What each answer of a charger, and each request for a command, must leave in the tables, command by
    command and in the commands' own words. */
module AnswerRules {
  import opened Options
  import opened Payloads
  import opened Store
  import opened Commands

  /** Of two charger rows, this status and no other differs. */
  predicate OnlyStatus(c: Charger, c': Charger, column: Column, status: int) {
    && c'.id == c.id
    && column in c'.commandStatus && c'.commandStatus[column] == status
    && forall other: Column :: other != column ==>
         (other in c'.commandStatus <==> other in c.commandStatus)
         && (other in c.commandStatus ==> c'.commandStatus[other] == c.commandStatus[other])
  }

  /** A command whose response status decides: 1 for a status that counts as success, 2 for any other,
      and nothing for a response without one. */
  predicate StatusDecides(c: Charger, c': Charger, column: Column, success: set<string>, response: Payload) {
    if response.status == None then c' == c
    else
      && c'.localListVersion == c.localListVersion
      && OnlyStatus(c, c', column, if response.status.value in success then 1 else 2)
  }

  /** What the answer makes of the charger's row. */
  predicate ChargerAfter(c: Charger, c': Charger, action: string, request: Payload, response: Payload) {
    match action
    case "GetLocalListVersion" =>
      if response.listVersion == None then c' == c
      else c'.localListVersion == response.listVersion.value && OnlyStatus(c, c', GetLocalListVersionStatus, 1)
    case "SendLocalList" =>
      if response.status == Some("Accepted") then
        if request.listVersion == None then c' == c
        else c'.localListVersion == request.listVersion.value && OnlyStatus(c, c', SendLocalListStatus, 1)
      else StatusDecides(c, c', SendLocalListStatus, {}, response)
    case "UnlockConnector" => StatusDecides(c, c', UnlockConnectorStatus, {"Unlocked"}, response)
    case "ChangeAvailability" => StatusDecides(c, c', ChangeAvailabilityStatus, {"Accepted", "Scheduled"}, response)
    case "ClearCache" => StatusDecides(c, c', ClearCacheStatus, {"Accepted"}, response)
    case "ChangeConfiguration" => StatusDecides(c, c', ChangeConfigurationStatus, {"Accepted", "RebootRequired"}, response)
    case "UpdateFirmware" => c'.localListVersion == c.localListVersion && OnlyStatus(c, c', UpdateFirmwareStatus, 1)
    case "GetDiagnostics" => c'.localListVersion == c.localListVersion && OnlyStatus(c, c', GetDiagnosticsStatus, 1)
    case "SetChargingProfile" => StatusDecides(c, c', SetChargingProfileStatus, {"Accepted"}, response)
    case "ClearChargingProfile" => StatusDecides(c, c', ClearChargingProfileStatus, {"Accepted"}, response)
    case "GetCompositeSchedule" => StatusDecides(c, c', GetCompositeScheduleStatus, {"Accepted"}, response)
    case "TriggerMessage" => StatusDecides(c, c', TriggerMessageStatus, {"Accepted"}, response)
    case "RemoteStartTransaction" => StatusDecides(c, c', RemoteStartStatus, {"Accepted"}, response)
    case "RemoteStopTransaction" => StatusDecides(c, c', RemoteStopStatus, {"Accepted"}, response)
    case _ => c' == c
  }

  /** The key has the value, with a readonly flag of its own or the one it had; nothing else differs. */
  ghost predicate OnlyKey(cs: map<(string, string), Configuration>, cs': map<(string, string), Configuration>,
                          chargerId: string, key: string, value: string) {
    && (chargerId, key) in cs'
    && cs'[(chargerId, key)].value == Some(value)
    && cs'[(chargerId, key)].readonly == ((chargerId, key) in cs && cs[(chargerId, key)].readonly)
    && forall k :: k != (chargerId, key) ==> (k in cs' <==> k in cs) && (k in cs ==> cs'[k] == cs[k])
  }

  /** Entry `i` is the last one of its key. */
  predicate LastEntry(keys: seq<ConfigKey>, i: nat) {
    i < |keys| && forall j :: i < j < |keys| ==> keys[j].key != keys[i].key
  }

  predicate Mentions(keys: seq<ConfigKey>, key: string) {
    exists i :: 0 <= i < |keys| && keys[i].key == key
  }

  /** Every reported key has the value and the flag last reported; nothing else differs. */
  ghost predicate AsReported(cs: map<(string, string), Configuration>, cs': map<(string, string), Configuration>,
                             chargerId: string, keys: seq<ConfigKey>) {
    && (forall i: nat :: LastEntry(keys, i) ==>
          (chargerId, keys[i].key) in cs' && cs'[(chargerId, keys[i].key)] == Configuration(keys[i].value, keys[i].readonly))
    && (forall k: (string, string) :: k.0 != chargerId || !Mentions(keys, k.1) ==> (k in cs' <==> k in cs) && (k in cs ==> cs'[k] == cs[k]))
  }

  /** What the answer makes of the configurations. */
  ghost predicate ConfigurationsAfter(cs: map<(string, string), Configuration>, cs': map<(string, string), Configuration>,
                                      chargerId: string, action: string, request: Payload, response: Payload) {
    if action == "GetConfiguration" && response.configurationKeys.Some? then
      AsReported(cs, cs', chargerId, response.configurationKeys.value)
    else if action == "ChangeConfiguration" && request.key.Some? && request.value.Some?
            && (response.status == Some("Accepted") || response.status == Some("RebootRequired")) then
      OnlyKey(cs, cs', chargerId, request.key.value, request.value.value)
    else cs' == cs
  }

  /** The reservation is cancelled if it was still reserved; nothing else differs. */
  ghost predicate OnlyCancelled(rs: map<(string, int), Reservation>, rs': map<(string, int), Reservation>, k: (string, int)) {
    && rs'.Keys == rs.Keys
    && (k in rs ==> rs'[k] == if rs[k].status == Reserved then rs[k].(status := Cancelled) else rs[k])
    && forall other :: other in rs && other != k ==> rs'[other] == rs[other]
  }

  /** What the answer makes of the reservations: a rejected reservation and an accepted cancellation
      cancel. */
  ghost predicate ReservationsAfter(rs: map<(string, int), Reservation>, rs': map<(string, int), Reservation>,
                                    chargerId: string, action: string, request: Payload, response: Payload) {
    if request.reservationId.Some?
       && ((action == "ReserveNow" && response.status.Some? && response.status.value != "Accepted")
           || (action == "CancelReservation" && response.status == Some("Accepted")))
    then OnlyCancelled(rs, rs', (chargerId, request.reservationId.value))
    else rs' == rs
  }

  ghost predicate OtherTablesKept(db: Db, db': Db, chargePointId: string) {
    && db'.tags == db.tags && db'.connectors == db.connectors
    && db'.sessions == db.sessions && db'.nextTransactionId == db.nextTransactionId
    && db'.chargers.Keys == db.chargers.Keys
    && forall other :: other in db.chargers && other != chargePointId ==> db'.chargers[other] == db.chargers[other]
  }

  /** Everything an answer leaves in the tables. */
  ghost predicate AsAnswered(db: Db, db': Db, chargePointId: string, action: string, request: Payload, response: Payload) {
    if chargePointId !in db.chargers then db' == db
    else
      var c := db.chargers[chargePointId];
      && OtherTablesKept(db, db', chargePointId)
      && ChargerAfter(c, db'.chargers[chargePointId], action, request, response)
      && ConfigurationsAfter(db.configurations, db'.configurations, c.id, action, request, response)
      && ReservationsAfter(db.reservations, db'.reservations, c.id, action, request, response)
  }

  /** The commands whose status is set back, and to what, when they are asked for. */
  predicate ResetAfter(c: Charger, c': Charger, action: string) {
    match action
    case "GetLocalListVersion" => c'.localListVersion == c.localListVersion && OnlyStatus(c, c', GetLocalListVersionStatus, 0)
    case "SendLocalList" => c'.localListVersion == c.localListVersion && OnlyStatus(c, c', SendLocalListStatus, 0)
    case "UnlockConnector" => c'.localListVersion == c.localListVersion && OnlyStatus(c, c', UnlockConnectorStatus, 0)
    case "ChangeAvailability" => c'.localListVersion == c.localListVersion && OnlyStatus(c, c', ChangeAvailabilityStatus, 0)
    case "ClearCache" => c'.localListVersion == c.localListVersion && OnlyStatus(c, c', ClearCacheStatus, 0)
    case "ChangeConfiguration" => c'.localListVersion == c.localListVersion && OnlyStatus(c, c', ChangeConfigurationStatus, 0)
    case "UpdateFirmware" => c'.localListVersion == c.localListVersion && OnlyStatus(c, c', UpdateFirmwareStatus, 0)
    case "GetDiagnostics" => c'.localListVersion == c.localListVersion && OnlyStatus(c, c', GetDiagnosticsStatus, 0)
    case "SetChargingProfile" => c'.localListVersion == c.localListVersion && OnlyStatus(c, c', SetChargingProfileStatus, 0)
    case "ClearChargingProfile" => c'.localListVersion == c.localListVersion && OnlyStatus(c, c', ClearChargingProfileStatus, 0)
    case "GetCompositeSchedule" => c'.localListVersion == c.localListVersion && OnlyStatus(c, c', GetCompositeScheduleStatus, 0)
    case "TriggerMessage" => c'.localListVersion == c.localListVersion && OnlyStatus(c, c', TriggerMessageStatus, 0)
    case _ => c' == c
  }

  ghost predicate AsReset(db: Db, db': Db, chargePointId: string, action: string) {
    if chargePointId !in db.chargers then db' == db
    else
      && OtherTablesKept(db, db', chargePointId)
      && db'.configurations == db.configurations && db'.reservations == db.reservations
      && ResetAfter(db.chargers[chargePointId], db'.chargers[chargePointId], action)
  }

  ghost predicate AsAnticipated(db: Db, db': Db, chargePointId: string, request: Payload) {
    if chargePointId !in db.chargers || request.key == None || request.value == None then db' == db
    else
      && db'.chargers == db.chargers && OtherTablesKept(db, db', chargePointId) && db'.reservations == db.reservations
      && OnlyKey(db.configurations, db'.configurations, db.chargers[chargePointId].id, request.key.value, request.value.value)
  }

  // ----- The rules are kept -----

  lemma {:induction false} SetsOnly(c: Charger, version: Option<int>, column: Column, status: int)
    ensures OnlyStatus(c, SetCharger(c, version, Some(column), Some(status)), column, status)
    ensures SetCharger(c, version, Some(column), Some(status)).localListVersion
         == if version.Some? then version.value else c.localListVersion
  {
  }

  lemma {:induction false} SetsNothing(c: Charger, column: Option<Column>, status: Option<int>)
    requires column == None || status == None
    ensures SetCharger(c, None, column, status) == c
  {
  }

  lemma {:induction false} ChargerRule(c: Charger, action: string, request: Payload, response: Payload)
    ensures ChargerAfter(c, SetCharger(c, Version(action, request, response), StatusColumn(action), Outcome(action, request, response)),
                         action, request, response)
  {
    hide SetCharger, OnlyStatus;
    var column, status := StatusColumn(action), Outcome(action, request, response);
    if column.Some? && status.Some? {
      SetsOnly(c, Version(action, request, response), column.value, status.value);
    } else {
      SetsNothing(c, column, status);
    }
  }

  lemma {:induction false} ResetRule(c: Charger, action: string)
    ensures ResetAfter(c, SetCharger(c, None, ResetColumn(action), Some(STATUS_PENDING)), action)
  {
    hide SetCharger, OnlyStatus;
    if ResetColumn(action).Some? {
      SetsOnly(c, None, ResetColumn(action).value, STATUS_PENDING);
    } else {
      SetsNothing(c, None, Some(STATUS_PENDING));
    }
  }

  lemma {:induction false} OneKeyRule(cs: map<(string, string), Configuration>, chargerId: string, key: string, value: string)
    ensures OnlyKey(cs, UpsertConfigurations(cs, chargerId, [KeyValue(key, Some(value), None)]), chargerId, key, value)
  {
    assert [KeyValue(key, Some(value), None)][..0] == [];
    assert UpsertConfigurations(cs, chargerId, []) == cs;
  }

  lemma {:induction false} ReportRule(cs: map<(string, string), Configuration>, chargerId: string, keys: seq<ConfigKey>, kvs: seq<KeyValue>)
    requires |kvs| == |keys|
    requires forall i :: 0 <= i < |keys| ==> kvs[i] == KeyValue(keys[i].key, keys[i].value, Some(keys[i].readonly))
    ensures AsReported(cs, UpsertConfigurations(cs, chargerId, kvs), chargerId, keys)
  {
    hide AsReported, UpsertConfigurations;
    if keys == [] {
      ReportsNothing(cs, chargerId, kvs);
    } else {
      var n := |keys| - 1;
      ReportRule(cs, chargerId, keys[..n], kvs[..n]);
      UpsertLast(cs, chargerId, kvs);
      assert keys == keys[..n] + [keys[n]];
      ReportStep(cs, UpsertConfigurations(cs, chargerId, kvs[..n]), chargerId, keys[..n], keys[n], keys);
    }
  }

  lemma {:induction false} ReportsNothing(cs: map<(string, string), Configuration>, chargerId: string, kvs: seq<KeyValue>)
    requires kvs == []
    ensures AsReported(cs, UpsertConfigurations(cs, chargerId, kvs), chargerId, [])
  {
  }

  lemma {:induction false} UpsertLast(cs: map<(string, string), Configuration>, chargerId: string, kvs: seq<KeyValue>)
    requires kvs != [] && kvs[|kvs| - 1].readonly.Some?
    ensures
      var kv := kvs[|kvs| - 1];
      UpsertConfigurations(cs, chargerId, kvs)
      == UpsertConfigurations(cs, chargerId, kvs[..|kvs| - 1])[(chargerId, kv.key) := Configuration(kv.value, kv.readonly.value)]
  {
  }

  lemma {:induction false} MentionsSnoc(front: seq<ConfigKey>, last: ConfigKey, key: string)
    ensures Mentions(front + [last], key) <==> Mentions(front, key) || last.key == key
  {
    var keys := front + [last];
    assert keys[|front|] == last;
    if Mentions(front, key) {
      var i :| 0 <= i < |front| && front[i].key == key;
      assert keys[i].key == key;
    }
  }

  lemma {:induction false} LastEntrySnoc(front: seq<ConfigKey>, last: ConfigKey, i: nat)
    ensures LastEntry(front + [last], i) ==> i == |front| || (LastEntry(front, i) && front[i].key != last.key)
  {
    var keys := front + [last];
    if LastEntry(keys, i) && i < |front| {
      assert keys[|front|] == last && keys[i] == front[i];
      assert forall j :: i < j < |front| ==> keys[j] == front[j];
    }
  }

  lemma {:induction false} ReportStep(cs: map<(string, string), Configuration>, before: map<(string, string), Configuration>,
                                      chargerId: string, front: seq<ConfigKey>, last: ConfigKey, keys: seq<ConfigKey>)
    requires AsReported(cs, before, chargerId, front) && keys == front + [last]
    ensures AsReported(cs, before[(chargerId, last.key) := Configuration(last.value, last.readonly)], chargerId, keys)
  {
    hide LastEntry, Mentions;
    var after := before[(chargerId, last.key) := Configuration(last.value, last.readonly)];
    forall i: nat | LastEntry(keys, i)
      ensures i < |keys| && (chargerId, keys[i].key) in after
      ensures i < |keys| && after[(chargerId, keys[i].key)] == Configuration(keys[i].value, keys[i].readonly)
    {
      LastEntrySnoc(front, last, i);
      if i != |front| {
        InKeys(front, i);
      }
    }
    forall k: (string, string) | k.0 != chargerId || !Mentions(keys, k.1)
      ensures (k in after <==> k in cs) && (k in cs ==> after[k] == cs[k])
    {
      MentionsSnoc(front, last, k.1);
      assert k != (chargerId, last.key);
    }
  }

  lemma InKeys(keys: seq<ConfigKey>, i: nat)
    requires LastEntry(keys, i)
    ensures i < |keys|
  {
  }

  lemma {:induction false} ConfigurationRule(cs: map<(string, string), Configuration>, chargerId: string, action: string,
                                             request: Payload, response: Payload)
    ensures ConfigurationsAfter(cs, UpsertConfigurations(cs, chargerId, Configures(action, request, response)), chargerId,
                                action, request, response)
  {
    hide AsReported, OnlyKey;
    if action == "GetConfiguration" && response.configurationKeys.Some? {
      ReportRule(cs, chargerId, response.configurationKeys.value, Configures(action, request, response));
    } else if action == "ChangeConfiguration" && request.key.Some? && request.value.Some? {
      OneKeyRule(cs, chargerId, request.key.value, request.value.value);
    }
  }

  lemma {:induction false} ReservationRule(rs: map<(string, int), Reservation>, chargerId: string, action: string,
                                           request: Payload, response: Payload)
    ensures
      var cancelled := Cancels(action, request, response);
      ReservationsAfter(rs, if cancelled.Some? then CancelReserved(rs, chargerId, cancelled.value) else rs, chargerId,
                        action, request, response)
  {
  }

  /** Handling an answer keeps its rule, for every command and every answer. */
  lemma {:induction false} HandledByRule(db: Db, chargePointId: string, action: string, request: Payload, response: Payload)
    ensures AsAnswered(db, Handled(db, chargePointId, action, request, response), chargePointId, action, request, response)
  {
    hide ChargerAfter, ConfigurationsAfter, ReservationsAfter, SetCharger, UpsertConfigurations, CancelReserved;
    hide Version, StatusColumn, Outcome, Configures, Cancels;
    if chargePointId in db.chargers {
      var c := db.chargers[chargePointId];
      ChargerRule(c, action, request, response);
      ConfigurationRule(db.configurations, c.id, action, request, response);
      ReservationRule(db.reservations, c.id, action, request, response);
    }
  }

  lemma {:induction false} ResetByRule(db: Db, chargePointId: string, action: string)
    ensures AsReset(db, ResetStatus(db, chargePointId, action), chargePointId, action)
  {
    hide ResetAfter, SetCharger, ResetColumn;
    if chargePointId in db.chargers {
      ResetRule(db.chargers[chargePointId], action);
    }
  }

  lemma {:induction false} AnticipatedByRule(db: Db, chargePointId: string, request: Payload)
    ensures AsAnticipated(db, Anticipate(db, chargePointId, "ChangeConfiguration", request), chargePointId, request)
  {
    if chargePointId in db.chargers {
      var id := db.chargers[chargePointId].id;
      if request.key.Some? && request.value.Some? {
        OneKeyRule(db.configurations, id, request.key.value, request.value.value);
      } else {
        assert UpsertConfigurations(db.configurations, id, []) == db.configurations;
      }
    }
  }
}
