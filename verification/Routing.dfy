/** Inbound websocket messages: parsed, and routed to a command handler or to a waiting call. */
module Routing {
  import opened Options
  import opened Payloads
  import opened Store
  import opened Commands
  import P = CallProtocol

  const MESSAGE_TYPE_CALL := 2
  const MESSAGE_TYPE_CALL_RESULT := 3
  const MESSAGE_TYPE_CALL_ERROR := 4

  /** One element of a message array; objects are seen through the fields the hub decodes. */
  datatype Json = Number(n: int) | Text(s: string) | Object(fields: Payload) | Null | Other

  /** Decoding into an integer or a string leaves its zero value when the element is of another type. */
  function AsInt(j: Json): int {
    if j.Number? then j.n else 0
  }

  function AsString(j: Json): string {
    if j.Text? then j.s else ""
  }

  const ZERO := Payload(Some(""), Some(0), Some(0), Some(""), Some(""), Some([]))
  const UNDECODABLE := Payload(None, None, None, None, None, None)

  /** What decoding an element into a struct gives: null decodes into zero values, and anything but an
      object fails. */
  function Decoded(j: Json): Payload {
    match j
    case Object(fields) => fields
    case Null => ZERO
    case _ => UNDECODABLE
  }

  datatype Routed = Dropped | ToRouter(msgID: string, action: string, payload: Json) | ToCall(msgID: string, response: Payload)

  /** Routes one message, `None` being data that is no JSON array. A call error is handed to the
      waiting call like a result, its error code standing in for the payload. */
  method HandleMessage(cp: P.ChargePoint, message: Option<seq<Json>>) returns (routed: Routed)
    requires cp.Valid()
    modifies cp
    ensures cp.Valid()
    ensures Reaches(message, routed)
    ensures cp.View() == if routed.ToCall? then P.Apply(old(cp.View()), P.Inbound(routed.msgID, routed.response))
                         else old(cp.View())
  {
    if message == None {
      return Dropped;
    }
    var msg := message.value;
    if |msg| < 3 {
      return Dropped;
    }
    var msgType := AsInt(msg[0]);
    var msgID := AsString(msg[1]);
    if msgType == MESSAGE_TYPE_CALL {
      if |msg| < 4 {
        return Dropped;
      }
      routed := ToRouter(msgID, AsString(msg[2]), msg[3]);
    } else if msgType == MESSAGE_TYPE_CALL_RESULT || msgType == MESSAGE_TYPE_CALL_ERROR {
      cp.Accept(msgID, Decoded(msg[2]));
      routed := ToCall(msgID, Decoded(msg[2]));
    } else {
      routed := Dropped;
    }
  }

  /** Where a message goes, by its shape: OCPP-J calls have four elements, results three, and errors
      any number from three. */
  ghost predicate Reaches(message: Option<seq<Json>>, routed: Routed) {
    match routed
    case ToRouter(msgID, action, payload) =>
      && message.Some? && |message.value| >= 4 && message.value[0] == Number(2)
      && ReadsText(message.value[1], msgID) && ReadsText(message.value[2], action) && payload == message.value[3]
    case ToCall(msgID, response) =>
      && message.Some? && |message.value| >= 3 && (message.value[0] == Number(3) || message.value[0] == Number(4))
      && ReadsText(message.value[1], msgID) && ReadsResponse(message.value[2], response)
    case Dropped =>
      || message == None || |message.value| < 3
      || (message.value[0] == Number(2) && |message.value| == 3)
      || forall t :: 2 <= t <= 4 ==> message.value[0] != Number(t)
  }

  /** A text is read as it is, anything else as the empty string. */
  ghost predicate ReadsText(j: Json, s: string) {
    j == Text(s) || (!j.Text? && s == "")
  }

  /** An object is read field by field; null has every field at its zero value; in anything else no field
      can be read. */
  ghost predicate ReadsResponse(j: Json, response: Payload) {
    && (j.Object? ==> response == j.fields)
    && (j.Null? ==> response == Payload(Some(""), Some(0), Some(0), Some(""), Some(""), Some([])))
    && (j.Number? || j.Text? || j.Other? ==> response == Payload(None, None, None, None, None, None))
  }

  /** A message goes to one place only. */
  lemma RoutedOnce(message: Option<seq<Json>>, a: Routed, b: Routed)
    requires Reaches(message, a) && Reaches(message, b)
    ensures a == b
  {
    assert 2 <= 3 <= 4;
  }

  // ----- What a call error records -----

  /** The tables already hold what the entry says. */
  predicate Holds(cs: map<(string, string), Configuration>, chargerId: string, kv: KeyValue) {
    && (chargerId, kv.key) in cs
    && cs[(chargerId, kv.key)].value == kv.value
    && (kv.readonly.Some? ==> cs[(chargerId, kv.key)].readonly == kv.readonly.value)
  }

  /** The last entry for each key is there already. */
  ghost predicate AllHeld(cs: map<(string, string), Configuration>, chargerId: string, kvs: seq<KeyValue>) {
    forall key :: LastOf(kvs, key).Some? ==> Holds(cs, chargerId, LastOf(kvs, key).value)
  }

  /** What a response says is in the tables already. */
  ghost predicate AlreadyThere(db: Db, c: Charger, action: string, request: Payload, response: Payload) {
    && (Outcome(action, request, response).Some? ==>
          StatusColumn(action).Some? && StatusColumn(action).value in c.commandStatus
          && c.commandStatus[StatusColumn(action).value] == Outcome(action, request, response).value)
    && (Version(action, request, response).Some? ==> c.localListVersion == Version(action, request, response).value)
    && (Cancels(action, request, response).Some? ==>
          var k := (c.id, Cancels(action, request, response).value);
          k in db.reservations ==> !db.reservations[k].status.Reserved?)
    && AllHeld(db.configurations, c.id, Configures(action, request, response))
  }

  /** All entries carry a readonly flag, or there is one that does not. */
  predicate Uniform(kvs: seq<KeyValue>) {
    |kvs| <= 1 || forall kv :: kv in kvs ==> kv.readonly.Some?
  }

  lemma {:induction false} ConfiguresUniformly(action: string, request: Payload, response: Payload)
    ensures Uniform(Configures(action, request, response))
  {
    hide StatusColumn, Accepting;
  }

  lemma {:induction false} UpsertedAt(cs: map<(string, string), Configuration>, chargerId: string, kvs: seq<KeyValue>, id: string, key: string)
    requires Uniform(kvs)
    ensures
      var cs', kv := UpsertConfigurations(cs, chargerId, kvs), LastOf(kvs, key);
      if id == chargerId && kv.Some? then (id, key) in cs' && Holds(cs', id, kv.value)
      else ((id, key) in cs' <==> (id, key) in cs) && ((id, key) in cs ==> cs'[(id, key)] == cs[(id, key)])
  {
    if kvs != [] {
      UpsertedAt(cs, chargerId, kvs[..|kvs| - 1], id, key);
    }
  }

  lemma {:induction false} UpsertedKeeps(cs: map<(string, string), Configuration>, chargerId: string, kvs: seq<KeyValue>, key: string)
    requires Uniform(kvs) && LastOf(kvs, key).Some? && Holds(cs, chargerId, LastOf(kvs, key).value)
    ensures (chargerId, key) in UpsertConfigurations(cs, chargerId, kvs)
    ensures UpsertConfigurations(cs, chargerId, kvs)[(chargerId, key)] == cs[(chargerId, key)]
  {
    UpsertedAt(cs, chargerId, kvs, chargerId, key);
    if |kvs| == 1 {
      assert UpsertConfigurations(cs, chargerId, kvs[..0]) == cs;
    }
  }

  /** Upserting changes nothing exactly when the last entry for each key is there already. */
  lemma {:induction false} UpsertsNothing(cs: map<(string, string), Configuration>, chargerId: string, kvs: seq<KeyValue>)
    requires Uniform(kvs)
    ensures UpsertConfigurations(cs, chargerId, kvs) == cs <==> AllHeld(cs, chargerId, kvs)
  {
    hide UpsertConfigurations, LastOf, Holds;
    var cs' := UpsertConfigurations(cs, chargerId, kvs);
    forall k: (string, string)
      ensures AllHeld(cs, chargerId, kvs) ==> (k in cs' <==> k in cs) && (k in cs ==> cs'[k] == cs[k])
      ensures cs' == cs && k.0 == chargerId && LastOf(kvs, k.1).Some? ==> Holds(cs, chargerId, LastOf(kvs, k.1).value)
    {
      assert k == (k.0, k.1);
      UpsertedAt(cs, chargerId, kvs, k.0, k.1);
      if k.0 == chargerId && LastOf(kvs, k.1).Some? && AllHeld(cs, chargerId, kvs) {
        HeldKey(cs, chargerId, LastOf(kvs, k.1).value);
        UpsertedKeeps(cs, chargerId, kvs, k.1);
      }
    }
    if AllHeld(cs, chargerId, kvs) {
      assert cs' == cs;
    } else {
      var key :| LastOf(kvs, key).Some? && !Holds(cs, chargerId, LastOf(kvs, key).value);
      assert (chargerId, key).0 == chargerId && (chargerId, key).1 == key;
    }
  }

  lemma HeldKey(cs: map<(string, string), Configuration>, chargerId: string, kv: KeyValue)
    requires Holds(cs, chargerId, kv)
    ensures (chargerId, kv.key) in cs
  {
  }

  lemma {:induction false} SameCharger(c: Charger, version: Option<int>, column: Option<Column>, status: Option<int>)
    ensures SetCharger(c, version, column, status) == c
       <==> && (version.Some? ==> c.localListVersion == version.value)
            && (column.Some? && status.Some? ==> column.value in c.commandStatus && c.commandStatus[column.value] == status.value)
  {
    if column.Some? && status.Some? {
      assert c.commandStatus[column.value := status.value][column.value] == status.value;
      if column.value in c.commandStatus && c.commandStatus[column.value] == status.value {
        assert c.commandStatus[column.value := status.value] == c.commandStatus;
      }
    }
  }

  lemma {:induction false} CancelsNothing(rs: map<(string, int), Reservation>, chargerId: string, reservationId: int)
    ensures CancelReserved(rs, chargerId, reservationId) == rs
       <==> ((chargerId, reservationId) in rs ==> !rs[(chargerId, reservationId)].status.Reserved?)
  {
    var k := (chargerId, reservationId);
    if k in rs && rs[k].status.Reserved? {
      assert CancelReserved(rs, chargerId, reservationId)[k] != rs[k];
    }
  }

  lemma {:induction false} OutcomeHasColumn(action: string, request: Payload, response: Payload)
    requires Outcome(action, request, response).Some?
    ensures StatusColumn(action).Some?
  {
  }

  /** Any response leaves the tables as they are if and only if what it says is there already. A call error
      is no exception: whatever stands where its code should is decoded as a response. */
  lemma {:induction false} ChangesNothing(db: Db, chargePointId: string, action: string, request: Payload, response: Payload)
    ensures Handled(db, chargePointId, action, request, response) == db
       <==> chargePointId !in db.chargers || AlreadyThere(db, db.chargers[chargePointId], action, request, response)
  {
    hide StatusColumn, Outcome, Version, Cancels, Configures, UpsertConfigurations, AllHeld, SetCharger, CancelReserved;
    if chargePointId in db.chargers {
      var c := db.chargers[chargePointId];
      var version, column := Version(action, request, response), StatusColumn(action);
      var status, cancelled := Outcome(action, request, response), Cancels(action, request, response);
      var c' := SetCharger(c, version, column, status);
      SameCharger(c, version, column, status);
      if status.Some? {
        OutcomeHasColumn(action, request, response);
      }
      if cancelled.Some? {
        CancelsNothing(db.reservations, c.id, cancelled.value);
      }
      ConfiguresUniformly(action, request, response);
      UpsertsNothing(db.configurations, c.id, Configures(action, request, response));
      SameEntry(db.chargers, chargePointId, c');
    }
  }

  lemma SameEntry<K, V>(m: map<K, V>, k: K, v: V)
    requires k in m
    ensures m[k := v] == m <==> v == m[k]
  {
    assert m[k := v][k] == v;
    if v == m[k] {
      assert m[k := v] == m;
    }
  }

  /** With an error code that is a string only firmware updates and diagnostics uploads record anything:
      a success. */
  lemma {:induction false} StringErrorRecordsNothing(db: Db, chargePointId: string, action: string, request: Payload, code: string)
    ensures Handled(db, chargePointId, action, request, Decoded(Text(code))) == db
       <==> || chargePointId !in db.chargers
            || action !in {"UpdateFirmware", "GetDiagnostics"}
            || AlreadyOk(db.chargers[chargePointId], action)
  {
    ChangesNothing(db, chargePointId, action, request, Decoded(Text(code)));
    if chargePointId in db.chargers {
      StringSaysNothing(db, db.chargers[chargePointId], action, request);
    }
  }

  /** The command already counts as done. */
  predicate AlreadyOk(c: Charger, action: string) {
    var column := StatusColumn(action);
    column.Some? && column.value in c.commandStatus && c.commandStatus[column.value] == STATUS_OK
  }

  lemma {:induction false} StringSaysNothing(db: Db, c: Charger, action: string, request: Payload)
    ensures AlreadyThere(db, c, action, request, UNDECODABLE) <==> action !in {"UpdateFirmware", "GetDiagnostics"} || AlreadyOk(c, action)
  {
    assert Configures(action, request, UNDECODABLE) == [];
  }

  /** An error with null for a code is recorded as a refusal. */
  lemma {:induction false} NullErrorRefuses(db: Db, chargePointId: string, request: Payload)
    requires chargePointId in db.chargers
    ensures
      var db' := Handled(db, chargePointId, "ClearCache", request, Decoded(Null));
      && chargePointId in db'.chargers && ClearCacheStatus in db'.chargers[chargePointId].commandStatus
      && db'.chargers[chargePointId].commandStatus[ClearCacheStatus] == STATUS_ERROR
  {
  }

  /** An error with an object for a code can even be recorded as an acceptance. */
  lemma {:induction false} ObjectErrorAccepts(db: Db, chargePointId: string, request: Payload, fields: Payload)
    requires chargePointId in db.chargers && request.listVersion.Some? && fields.status == Some("Accepted")
    ensures
      var db' := Handled(db, chargePointId, "SendLocalList", request, Decoded(Object(fields)));
      chargePointId in db'.chargers && db'.chargers[chargePointId].localListVersion == request.listVersion.value
  {
  }
}
