/** OCPP payloads, seen through the fields the hub decodes from them. */
module Payloads {
  import opened Options

  datatype ConfigKey = ConfigKey(key: string, readonly: bool, value: Option<string>)

  /** What decoding each field of a JSON payload gives: `None` when decoding a struct with that field
      fails, and the zero value when the field is missing. */
  datatype Payload = Payload(
    status: Option<string>,
    listVersion: Option<int>,
    reservationId: Option<int>,
    key: Option<string>,
    value: Option<string>,
    configurationKeys: Option<seq<ConfigKey>>)
}
