/** The tables as the handlers change them, statement by statement. */
module Database {
  import opened Options
  import opened Payloads
  import opened Store
  import opened Commands
  import opened AnswerRules
  import opened ChargingRules
  import C = Charging
  import Meter

  /** The column each command's API handler sets to pending. */
  method ColumnToReset(action: string) returns (column: Option<Column>)
    ensures column == ResetColumn(action)
  {
    match action {
      case "GetLocalListVersion" => column := Some(GetLocalListVersionStatus);
      case "SendLocalList" => column := Some(SendLocalListStatus);
      case "UnlockConnector" => column := Some(UnlockConnectorStatus);
      case "ChangeAvailability" => column := Some(ChangeAvailabilityStatus);
      case "ClearCache" => column := Some(ClearCacheStatus);
      case "ChangeConfiguration" => column := Some(ChangeConfigurationStatus);
      case "UpdateFirmware" => column := Some(UpdateFirmwareStatus);
      case "GetDiagnostics" => column := Some(GetDiagnosticsStatus);
      case "SetChargingProfile" => column := Some(SetChargingProfileStatus);
      case "ClearChargingProfile" => column := Some(ClearChargingProfileStatus);
      case "GetCompositeSchedule" => column := Some(GetCompositeScheduleStatus);
      case "TriggerMessage" => column := Some(TriggerMessageStatus);
      case _ => column := None;
    }
  }

  class Tables {
    var chargers: map<string, Charger>
    var configurations: map<(string, string), Configuration>
    var reservations: map<(string, int), Reservation>
    var tags: map<(Option<string>, string), Tag>
    var connectors: map<(string, int), string>
    var sessions: seq<Session>
    var nextTransactionId: int

    function View(): Db
      reads this
    {
      Db(chargers, configurations, reservations, tags, connectors, sessions, nextTransactionId)
    }

    constructor (db: Db)
      ensures View() == db
    {
      chargers, configurations, reservations := db.chargers, db.configurations, db.reservations;
      tags, connectors := db.tags, db.connectors;
      sessions, nextTransactionId := db.sessions, db.nextTransactionId;
    }

    // ----- Asking for commands -----

    /** Before publishing, each command's API handler sets the status of the command to pending. */
    method ResetStatusOf(chargePointId: string, action: string)
      modifies this`chargers
      ensures View() == ResetStatus(old(View()), chargePointId, action)
      ensures AsReset(old(View()), View(), chargePointId, action)
    {
      hide StatusColumn, ResetColumn, AsReset;
      ResetByRule(View(), chargePointId, action);
      var column := ColumnToReset(action);
      if column == None {
        Unchanged(View(), chargePointId);
      } else {
        UpdateStatus(chargePointId, column.value, STATUS_PENDING);
      }
    }

    /** A configuration change is stored at once, keeping the readonly flag. */
    method AnticipateChange(chargePointId: string, request: Payload)
      modifies this`configurations
      ensures View() == Anticipate(old(View()), chargePointId, "ChangeConfiguration", request)
      ensures AsAnticipated(old(View()), View(), chargePointId, request)
    {
      hide AsAnticipated;
      AnticipatedByRule(View(), chargePointId, request);
      if chargePointId !in chargers {
        return;
      }
      UpsertNone(configurations, chargers[chargePointId].id);
      if request.key.Some? && request.value.Some? {
        UpsertKey(chargers[chargePointId].id, request.key.value, request.value.value);
      }
    }

    method UpsertKey(chargerId: string, key: string, value: string)
      modifies this`configurations
      ensures configurations == UpsertConfigurations(old(configurations), chargerId, [KeyValue(key, Some(value), None)])
    {
      UpsertOne(configurations, chargerId, KeyValue(key, Some(value), None));
      var readonly := false;
      if (chargerId, key) in configurations {
        readonly := configurations[(chargerId, key)].readonly;
      }
      configurations := configurations[(chargerId, key) := Configuration(Some(value), readonly)];
    }

    // ----- Responses to commands -----

    method UpdateStatus(chargePointId: string, column: Column, status: int)
      modifies this`chargers
      ensures chargers == if chargePointId !in old(chargers) then old(chargers)
                          else old(chargers)[chargePointId := SetCharger(old(chargers)[chargePointId], None, Some(column), Some(status))]
    {
      if chargePointId in chargers {
        var c := chargers[chargePointId];
        chargers := chargers[chargePointId := c.(commandStatus := c.commandStatus[column := status])];
      }
    }

    method UpdateVersion(chargePointId: string, version: int, column: Column, status: int)
      modifies this`chargers
      ensures chargers == if chargePointId !in old(chargers) then old(chargers)
                          else old(chargers)[chargePointId :=
                            SetCharger(old(chargers)[chargePointId], Some(version), Some(column), Some(status))]
    {
      if chargePointId in chargers {
        var c := chargers[chargePointId];
        chargers := chargers[chargePointId := Charger(c.id, version, c.commandStatus[column := status])];
      }
    }

    /** Commands whose response status alone decides. */
    method RecordStatus(chargePointId: string, column: Column, accepting: set<string>, response: Payload)
      modifies this`chargers
      ensures chargers == if chargePointId !in old(chargers) || response.status == None then old(chargers)
                          else old(chargers)[chargePointId :=
                            SetCharger(old(chargers)[chargePointId], None, Some(column),
                                       Some(if response.status.value in accepting then STATUS_OK else STATUS_ERROR))]
    {
      if response.status == None {
        return;
      }
      var status := STATUS_OK;
      if response.status.value !in accepting {
        status := STATUS_ERROR;
      }
      UpdateStatus(chargePointId, column, status);
    }

    method CancelReservation(chargePointId: string, reservationId: int)
      modifies this`reservations
      ensures reservations == if chargePointId !in chargers then old(reservations)
                              else CancelReserved(old(reservations), chargers[chargePointId].id, reservationId)
    {
      if chargePointId in chargers {
        var k := (chargers[chargePointId].id, reservationId);
        if k in reservations && reservations[k].status.Reserved? {
          reservations := reservations[k := reservations[k].(status := Cancelled)];
        }
      }
    }

    method StoreConfigurations(chargerId: string, keys: seq<ConfigKey>)
      modifies this`configurations
      ensures configurations == UpsertConfigurations(old(configurations), chargerId,
                seq(|keys|, i requires 0 <= i < |keys| => KeyValue(keys[i].key, keys[i].value, Some(keys[i].readonly))))
    {
      ghost var entries: seq<KeyValue> :=
        seq(|keys|, i requires 0 <= i < |keys| => KeyValue(keys[i].key, keys[i].value, Some(keys[i].readonly)));
      for i := 0 to |keys|
        invariant configurations == UpsertConfigurations(old(configurations), chargerId, entries[..i])
      {
        assert entries[..i + 1][..i] == entries[..i];
        var ck := keys[i];
        configurations := configurations[(chargerId, ck.key) := Configuration(ck.value, ck.readonly)];
      }
      assert entries[..|entries|] == entries;
    }

    /** A key changed on the charger keeps its stored readonly flag. */
    method StoreChangedKey(chargePointId: string, request: Payload, ghost response: Payload)
      requires response.status.Some? && response.status.value in {"Accepted", "RebootRequired"}
      modifies this`configurations
      ensures configurations ==
        if chargePointId in chargers
        then UpsertConfigurations(old(configurations), chargers[chargePointId].id, Configures("ChangeConfiguration", request, response))
        else old(configurations)
    {
      if request.key == None || request.value == None || chargePointId !in chargers {
        return;
      }
      UpsertKey(chargers[chargePointId].id, request.key.value, request.value.value);
    }

    /** Commands whose response status alone decides, and which change nothing else. */
    method HandleStatusOnly(chargePointId: string, action: string, column: Column, accepting: set<string>,
                            request: Payload, response: Payload)
      requires StatusOnly(action) && StatusColumn(action) == Some(column) && Accepting(action) == accepting
      modifies this`chargers
      ensures View() == Handled(old(View()), chargePointId, action, request, response)
    {
      ghost var before := View();
      RecordStatus(chargePointId, column, accepting, response);
      Unchanged(before, chargePointId);
    }

    method HandleListVersion(chargePointId: string, request: Payload, response: Payload)
      modifies this`chargers
      ensures View() == Handled(old(View()), chargePointId, "GetLocalListVersion", request, response)
    {
      ghost var before := View();
      if response.listVersion.Some? {
        UpdateVersion(chargePointId, response.listVersion.value, GetLocalListVersionStatus, STATUS_OK);
      }
      Unchanged(before, chargePointId);
    }

    method HandleSendLocalList(chargePointId: string, request: Payload, response: Payload)
      modifies this`chargers
      ensures View() == Handled(old(View()), chargePointId, "SendLocalList", request, response)
    {
      Unchanged(View(), chargePointId);
      if response.status.Some? {
        if response.status.value != "Accepted" {
          UpdateStatus(chargePointId, SendLocalListStatus, STATUS_ERROR);
          return;
        }
        if request.listVersion.Some? {
          UpdateVersion(chargePointId, request.listVersion.value, SendLocalListStatus, STATUS_OK);
          return;
        }
      }
    }

    method HandleGetConfiguration(chargePointId: string, request: Payload, response: Payload)
      modifies this`configurations
      ensures View() == Handled(old(View()), chargePointId, "GetConfiguration", request, response)
    {
      Unchanged(View(), chargePointId);
      if response.configurationKeys.Some? && chargePointId in chargers {
        StoreConfigurations(chargers[chargePointId].id, response.configurationKeys.value);
      }
    }

    method HandleChangeConfiguration(chargePointId: string, request: Payload, response: Payload)
      modifies this`chargers, this`configurations
      ensures View() == Handled(old(View()), chargePointId, "ChangeConfiguration", request, response)
    {
      Unchanged(View(), chargePointId);
      if response.status.Some? {
        if response.status.value == "Accepted" || response.status.value == "RebootRequired" {
          StoreChangedKey(chargePointId, request, response);
        }
        RecordStatus(chargePointId, ChangeConfigurationStatus, {"Accepted", "RebootRequired"}, response);
      }
    }

    method HandleAnyResponse(chargePointId: string, action: string, column: Column, request: Payload, response: Payload)
      requires action == "UpdateFirmware" || action == "GetDiagnostics"
      requires StatusColumn(action) == Some(column)
      modifies this`chargers
      ensures View() == Handled(old(View()), chargePointId, action, request, response)
    {
      UpdateStatus(chargePointId, column, STATUS_OK);
    }

    method HandleReserveNow(chargePointId: string, request: Payload, response: Payload)
      modifies this`reservations
      ensures View() == Handled(old(View()), chargePointId, "ReserveNow", request, response)
    {
      Unchanged(View(), chargePointId);
      if response.status.Some? && request.reservationId.Some? && response.status.value != "Accepted" {
        CancelReservation(chargePointId, request.reservationId.value);
      }
    }

    method HandleCancelReservation(chargePointId: string, request: Payload, response: Payload)
      modifies this`reservations
      ensures View() == Handled(old(View()), chargePointId, "CancelReservation", request, response)
    {
      Unchanged(View(), chargePointId);
      if response.status.Some? && request.reservationId.Some? && response.status.value == "Accepted" {
        CancelReservation(chargePointId, request.reservationId.value);
      }
    }

    /** The response of a charger to one command, case by case. */
    method HandleResponse(chargePointId: string, action: string, request: Payload, response: Payload)
      modifies this
      ensures View() == Handled(old(View()), chargePointId, action, request, response)
      ensures AsAnswered(old(View()), View(), chargePointId, action, request, response)
    {
      hide AsAnswered;
      HandledByRule(View(), chargePointId, action, request, response);
      match action {
        case "GetLocalListVersion" => HandleListVersion(chargePointId, request, response);
        case "SendLocalList" => HandleSendLocalList(chargePointId, request, response);
        case "UnlockConnector" =>
          HandleStatusOnly(chargePointId, action, UnlockConnectorStatus, {"Unlocked"}, request, response);
        case "ChangeAvailability" =>
          HandleStatusOnly(chargePointId, action, ChangeAvailabilityStatus, {"Accepted", "Scheduled"}, request, response);
        case "ClearCache" => HandleStatusOnly(chargePointId, action, ClearCacheStatus, {"Accepted"}, request, response);
        case "GetConfiguration" => HandleGetConfiguration(chargePointId, request, response);
        case "ChangeConfiguration" => HandleChangeConfiguration(chargePointId, request, response);
        case "UpdateFirmware" => HandleAnyResponse(chargePointId, action, UpdateFirmwareStatus, request, response);
        case "GetDiagnostics" => HandleAnyResponse(chargePointId, action, GetDiagnosticsStatus, request, response);
        case "SetChargingProfile" =>
          HandleStatusOnly(chargePointId, action, SetChargingProfileStatus, {"Accepted"}, request, response);
        case "ClearChargingProfile" =>
          HandleStatusOnly(chargePointId, action, ClearChargingProfileStatus, {"Accepted"}, request, response);
        case "GetCompositeSchedule" =>
          HandleStatusOnly(chargePointId, action, GetCompositeScheduleStatus, {"Accepted"}, request, response);
        case "ReserveNow" => HandleReserveNow(chargePointId, request, response);
        case "TriggerMessage" =>
          HandleStatusOnly(chargePointId, action, TriggerMessageStatus, {"Accepted"}, request, response);
        case "CancelReservation" => HandleCancelReservation(chargePointId, request, response);
        case "RemoteStartTransaction" =>
          HandleStatusOnly(chargePointId, action, RemoteStartStatus, {"Accepted"}, request, response);
        case "RemoteStopTransaction" =>
          HandleStatusOnly(chargePointId, action, RemoteStopStatus, {"Accepted"}, request, response);
        case _ => UnknownAction(View(), chargePointId, action, request, response);
      }
    }

    // ----- Charging -----

    /** Looks the tag up, the charger's own record first, and overrides an expired one's status. */
    method ValidateIdTag(chargePointId: string, idTag: string, now: int) returns (info: C.IdTagInfo)
      ensures info == C.ValidateIdTag(View(), chargePointId, idTag, now)
      ensures TagDecided(View(), chargePointId, idTag, now, info)
    {
      CheckedByRule(View(), chargePointId, idTag, now);
      var found: Option<Tag> := None;
      if chargePointId in chargers && (Some(chargers[chargePointId].id), idTag) in tags {
        found := Some(tags[(Some(chargers[chargePointId].id), idTag)]);
      }
      if found == None && (None, idTag) in tags {
        found := Some(tags[(None, idTag)]);
      }
      if found == None {
        return C.IdTagInfo("Invalid", None, None);
      }
      var status := found.value.status;
      if found.value.expiry.Some? && found.value.expiry.value < now {
        status := "Expired";
      }
      info := C.IdTagInfo(status, found.value.expiry, found.value.parentIdTag);
    }

    method UpdateConnector(chargerId: string, connectorId: int, status: string)
      modifies this`connectors
      ensures connectors == C.SetConnector(old(connectors), chargerId, connectorId, status)
    {
      if (chargerId, connectorId) in connectors {
        connectors := connectors[(chargerId, connectorId) := status];
      }
    }

    /** The start transaction: insert the session, mark the connector, use the reservation. */
    method StartTransaction(chargePointId: string, p: C.StartParams, startTime: int, outcome: C.TxOutcome)
      returns (transactionId: int)
      modifies this
      ensures View() == C.OpenSession(old(View()), chargePointId, p, startTime, outcome)
      ensures AsStarted(old(View()), View(), chargePointId, p, startTime, outcome)
      ensures outcome == C.Committed && chargePointId in old(chargers) ==>
                |sessions| == |old(sessions)| + 1 && sessions[|sessions| - 1].transactionId == transactionId
      ensures C.Sequenced(old(View())) && C.PositiveIds(old(View())) ==>
                (C.Stored(View(), transactionId) <==> outcome == C.Committed && chargePointId in old(chargers))
    {
      hide AsStarted;
      C.StoredAfterOpen(View(), chargePointId, p, startTime, outcome);
      StartedByRule(View(), chargePointId, p, startTime, outcome);
      transactionId := 0;
      if chargePointId !in chargers || outcome == C.FailedBeforeInsert {
        return;
      }
      transactionId := nextTransactionId;
      nextTransactionId := nextTransactionId + 1;
      if outcome == C.LostAfterInsert {
        return;
      }
      var chargerId := chargers[chargePointId].id;
      sessions := sessions + [C.NewSession(transactionId, chargerId, p, startTime)];
      UpdateConnector(chargerId, p.connectorId, "Charging");
      if p.reservationId.Some? {
        var k := (chargerId, p.reservationId.value);
        if k in reservations && reservations[k].status.Reserved? {
          reservations := reservations[k := reservations[k].(status := Used)];
        }
      }
    }

    /** Closes the session of a transaction, or fails and changes nothing. */
    method StopTransaction(id: int, meterStop: int, endTime: int, reason: string) returns (ok: bool)
      modifies this
      ensures View() == C.StopSession(old(View()), id, meterStop, endTime, reason)
      ensures ok <==> C.FindSession(old(sessions), id) < |old(sessions)|
                      && C.Closable(old(sessions)[C.FindSession(old(sessions), id)], meterStop)
      ensures Stopped(old(View()), View(), id, meterStop, endTime, reason, ok)
    {
      hide Stopped, C.Closable;
      StoppedByRule(View(), id, meterStop, endTime, reason);
      var i := C.FindSession(sessions, id);
      if i == |sessions| || !C.Closable(sessions[i], meterStop) {
        return false;
      }
      var s := sessions[i];
      sessions := sessions[i := s.(endTime := Some(endTime), meterStop := Some(meterStop),
                                   energyKwh := C.EnergyKwh(s.meterStart, meterStop), stopReason := reason)];
      UpdateConnector(s.chargerId, s.connectorId, "Available");
      ok := true;
    }

    method UpdateSessionMaxPower(id: int, samples: seq<Meter.Sample>)
      modifies this`sessions
      ensures View() == C.RaiseMaxPower(old(View()), id, samples)
    {
      var powerW, found := Meter.SumPower(samples);
      if !found {
        return;
      }
      var powerKw := powerW / 1000.0;
      var i := C.FindSession(sessions, id);
      if i < |sessions| && sessions[i].endTime == None {
        var s := sessions[i];
        sessions := sessions[i := s.(maxPowerKw := C.StoreMax(s.maxPowerKw, powerKw))];
      }
    }

    method UpsertReservation(chargePointId: string, p: C.ReserveParams, now: int) returns (ok: bool)
      modifies this`reservations
      ensures View() == C.Reserve(old(View()), chargePointId, p, now)
      ensures ok <==> C.ValidReserve(p, now) && chargePointId in chargers
      ensures AsReserved(old(View()), View(), chargePointId, p, now, ok)
    {
      hide AsReserved;
      ReservedByRule(View(), chargePointId, p, now);
      ok := C.ValidReserve(p, now) && chargePointId in chargers;
      if ok {
        var parent := if p.parentIdTag == "" then None else Some(p.parentIdTag);
        reservations := reservations[(chargers[chargePointId].id, p.reservationId) :=
          Reservation(p.connectorId, p.idTag, parent, p.expiry, Reserved)];
      }
    }
  }

  predicate StatusOnly(action: string) {
    StatusColumn(action).Some? &&
    action !in {"GetLocalListVersion", "SendLocalList", "ChangeConfiguration", "UpdateFirmware", "GetDiagnostics"}
  }

  /** Rewriting a charger with what it holds changes nothing. */
  lemma Unchanged(db: Db, chargePointId: string)
    ensures chargePointId in db.chargers ==>
              && SetCharger(db.chargers[chargePointId], None, None, None) == db.chargers[chargePointId]
              && db.chargers[chargePointId := db.chargers[chargePointId]] == db.chargers
  {
  }

  lemma UpsertOne(cs: map<(string, string), Configuration>, chargerId: string, kv: KeyValue)
    ensures UpsertConfigurations(cs, chargerId, [kv]) == UpsertConfiguration(cs, chargerId, kv)
  {
    assert [kv][..0] == [];
    assert UpsertConfigurations(cs, chargerId, []) == cs;
  }

  lemma UpsertNone(cs: map<(string, string), Configuration>, chargerId: string)
    ensures UpsertConfigurations(cs, chargerId, []) == cs
  {
  }

  lemma UnknownAction(db: Db, chargePointId: string, action: string, request: Payload, response: Payload)
    requires StatusColumn(action) == None && action !in {"GetConfiguration", "ReserveNow", "CancelReservation"}
    ensures Handled(db, chargePointId, action, request, response) == db
  {
    Unchanged(db, chargePointId);
  }
}
