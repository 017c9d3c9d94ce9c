/** What the hub writes once a charger has answered a command. */
module Commands {
  import opened Options
  import opened Payloads
  import opened Store

  const STATUS_PENDING := 0
  const STATUS_OK := 1
  const STATUS_ERROR := 2

  /** A configuration key with its value and, unless the stored one is to be kept, its readonly flag. */
  datatype KeyValue = KeyValue(key: string, value: Option<string>, readonly: Option<bool>)

  /** The column that records how a command ended; the two reservation commands and GetConfiguration
      have none. */
  function StatusColumn(action: string): Option<Column> {
    match action
    case "GetLocalListVersion" => Some(GetLocalListVersionStatus)
    case "SendLocalList" => Some(SendLocalListStatus)
    case "UnlockConnector" => Some(UnlockConnectorStatus)
    case "ChangeAvailability" => Some(ChangeAvailabilityStatus)
    case "ClearCache" => Some(ClearCacheStatus)
    case "ChangeConfiguration" => Some(ChangeConfigurationStatus)
    case "UpdateFirmware" => Some(UpdateFirmwareStatus)
    case "GetDiagnostics" => Some(GetDiagnosticsStatus)
    case "SetChargingProfile" => Some(SetChargingProfileStatus)
    case "ClearChargingProfile" => Some(ClearChargingProfileStatus)
    case "GetCompositeSchedule" => Some(GetCompositeScheduleStatus)
    case "TriggerMessage" => Some(TriggerMessageStatus)
    case "RemoteStartTransaction" => Some(RemoteStartStatus)
    case "RemoteStopTransaction" => Some(RemoteStopStatus)
    case _ => None
  }

  /** The column that is set back to pending when a command is asked for; remote starts and stops leave
      theirs as it is. */
  function ResetColumn(action: string): Option<Column> {
    if action == "RemoteStartTransaction" || action == "RemoteStopTransaction" then None else StatusColumn(action)
  }

  /** The response statuses that count as success, for the commands that look at one. */
  function Accepting(action: string): set<string> {
    match action
    case "UnlockConnector" => {"Unlocked"}
    case "ChangeAvailability" => {"Accepted", "Scheduled"}
    case "ChangeConfiguration" => {"Accepted", "RebootRequired"}
    case _ => {"Accepted"}
  }

  /** The status a response leads to, or `None` when nothing is recorded. Firmware updates and
      diagnostics count any response as success, even one that cannot be decoded. */
  function Outcome(action: string, request: Payload, response: Payload): Option<int> {
    if StatusColumn(action) == None then None
    else if action == "UpdateFirmware" || action == "GetDiagnostics" then Some(STATUS_OK)
    else if action == "GetLocalListVersion" then
      if response.listVersion == None then None else Some(STATUS_OK)
    else if response.status == None then None
    else if response.status.value !in Accepting(action) then Some(STATUS_ERROR)
    else if action == "SendLocalList" && request.listVersion == None then None
    else Some(STATUS_OK)
  }

  /** The local list version a response establishes. */
  function Version(action: string, request: Payload, response: Payload): Option<int> {
    if action == "GetLocalListVersion" then response.listVersion
    else if action == "SendLocalList" && response.status == Some("Accepted") then request.listVersion
    else None
  }

  /** The reservation a response cancels. */
  function Cancels(action: string, request: Payload, response: Payload): Option<int> {
    if action == "ReserveNow" && response.status != None && response.status != Some("Accepted") then request.reservationId
    else if action == "CancelReservation" && response.status == Some("Accepted") then request.reservationId
    else None
  }

  /** The configuration keys a response establishes, in order; an entry without a readonly flag keeps
      the stored one. */
  function Configures(action: string, request: Payload, response: Payload): seq<KeyValue> {
    if action == "GetConfiguration" && response.configurationKeys.Some? then
      var ks := response.configurationKeys.value;
      seq(|ks|, i requires 0 <= i < |ks| => KeyValue(ks[i].key, ks[i].value, Some(ks[i].readonly)))
    else if action == "ChangeConfiguration"
            && response.status.Some? && response.status.value in Accepting(action)
            && request.key.Some? && request.value.Some? then
      [KeyValue(request.key.value, Some(request.value.value), None)]
    else []
  }

  /** The configuration key that asking for a change stores at once, before the charger has answered. */
  function Anticipates(action: string, request: Payload): seq<KeyValue> {
    if action == "ChangeConfiguration" && request.key.Some? && request.value.Some? then
      [KeyValue(request.key.value, Some(request.value.value), None)]
    else []
  }

  function SetCharger(c: Charger, version: Option<int>, column: Option<Column>, status: Option<int>): Charger {
    Charger(c.id,
            if version.Some? then version.value else c.localListVersion,
            if column.Some? && status.Some? then c.commandStatus[column.value := status.value] else c.commandStatus)
  }

  function UpsertConfiguration(cs: map<(string, string), Configuration>, chargerId: string, kv: KeyValue): map<(string, string), Configuration> {
    var kept := if (chargerId, kv.key) in cs then cs[(chargerId, kv.key)].readonly else false;
    cs[(chargerId, kv.key) := Configuration(kv.value, if kv.readonly.Some? then kv.readonly.value else kept)]
  }

  function UpsertConfigurations(cs: map<(string, string), Configuration>, chargerId: string, kvs: seq<KeyValue>): map<(string, string), Configuration> {
    if kvs == [] then cs
    else UpsertConfiguration(UpsertConfigurations(cs, chargerId, kvs[..|kvs| - 1]), chargerId, kvs[|kvs| - 1])
  }

  /** The last of some entries for a key. */
  function LastOf(kvs: seq<KeyValue>, key: string): (kv: Option<KeyValue>)
    ensures kv.Some? ==> kv.value in kvs && kv.value.key == key
  {
    if kvs == [] then None
    else if kvs[|kvs| - 1].key == key then Some(kvs[|kvs| - 1])
    else LastOf(kvs[..|kvs| - 1], key)
  }

  /** A reservation is cancelled only while it is still reserved. */
  function CancelReserved(rs: map<(string, int), Reservation>, chargerId: string, reservationId: int): map<(string, int), Reservation> {
    var k := (chargerId, reservationId);
    if k in rs && rs[k].status.Reserved? then rs[k := rs[k].(status := Cancelled)] else rs
  }

  /** What asking for a command changes first: its status is pending. */
  function ResetStatus(db: Db, chargePointId: string, action: string): Db {
    if chargePointId !in db.chargers then db
    else
      db.(chargers := db.chargers[chargePointId :=
            SetCharger(db.chargers[chargePointId], None, ResetColumn(action), Some(STATUS_PENDING))])
  }

  /** What asking for a command changes next. */
  function Anticipate(db: Db, chargePointId: string, action: string, request: Payload): Db {
    if chargePointId !in db.chargers then db
    else
      db.(configurations :=
            UpsertConfigurations(db.configurations, db.chargers[chargePointId].id, Anticipates(action, request)))
  }

  /** Everything a response changes, for the charger that gave it. */
  function Handled(db: Db, chargePointId: string, action: string, request: Payload, response: Payload): Db {
    if chargePointId !in db.chargers then db
    else
      var c := db.chargers[chargePointId];
      var cancelled := Cancels(action, request, response);
      db.(chargers := db.chargers[chargePointId :=
            SetCharger(c, Version(action, request, response), StatusColumn(action), Outcome(action, request, response))],
          configurations := UpsertConfigurations(db.configurations, c.id, Configures(action, request, response)),
          reservations :=
            if cancelled.Some? then CancelReserved(db.reservations, c.id, cancelled.value) else db.reservations)
  }
}
