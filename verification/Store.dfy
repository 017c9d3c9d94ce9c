/** The tables the charging and command code reads and writes. */
module Store {
  import opened Options

  /** The columns of ev_chargers that record how commands ended. */
  datatype Column =
    | GetLocalListVersionStatus
    | SendLocalListStatus
    | UnlockConnectorStatus
    | ChangeAvailabilityStatus
    | ClearCacheStatus
    | ChangeConfigurationStatus
    | UpdateFirmwareStatus
    | GetDiagnosticsStatus
    | SetChargingProfileStatus
    | ClearChargingProfileStatus
    | GetCompositeScheduleStatus
    | TriggerMessageStatus
    | RemoteStartStatus
    | RemoteStopStatus

  datatype Charger = Charger(id: string, localListVersion: int, commandStatus: map<Column, int>)

  datatype Configuration = Configuration(value: Option<string>, readonly: bool)

  datatype ReservationStatus = Reserved | Cancelled | Used

  datatype Reservation = Reservation(
    connectorId: int, idTag: string, parentIdTag: Option<string>, expiry: int, status: ReservationStatus)

  datatype Tag = Tag(status: string, expiry: Option<int>, parentIdTag: Option<string>)

  /** A session is open as long as it has no end time. */
  datatype Session = Session(
    transactionId: int, chargerId: string, connectorId: int, idTag: string, reservationId: Option<int>,
    startTime: int, meterStart: int, endTime: Option<int>, meterStop: Option<int>, energyKwh: real,
    maxPowerKw: real, stopReason: string)

  /** Chargers are keyed by their charge point id, which is unique. A tag scoped to no charger is
      global. Session rows are in insertion order; their transaction ids come from a sequence. */
  datatype Db = Db(
    chargers: map<string, Charger>,
    configurations: map<(string, string), Configuration>,
    reservations: map<(string, int), Reservation>,
    tags: map<(Option<string>, string), Tag>,
    connectors: map<(string, int), string>,
    sessions: seq<Session>,
    nextTransactionId: int)
}
