/** Chargers with their connectors, current power, active sessions and today's totals: merged for a
    whole site at once, or fetched for one charger. */
module ChargerList {
  import opened Options
  import Decimal

  datatype Charger = Charger(id: string, columns: string)
  datatype Detail = Detail(status: string, errorCode: string, connectorType: string, maxPowerKw: real, lastStatusAt: Option<int>)
  datatype ConnectorRow = ConnectorRow(chargerId: string, connectorId: int, detail: Detail)
  datatype PowerRow = PowerRow(chargerId: string, connectorId: int, watts: real)
  datatype SessionRow = SessionRow(
    chargerId: string, connectorId: int, idTag: string, startTime: int, energyKwh: real, transactionId: int)
  datatype Totals = Totals(energyKwh: real, sessions: int)

  /** The tables, each in the order its query returns rows. */
  datatype Tables = Tables(
    connectors: seq<ConnectorRow>, power: seq<PowerRow>, sessions: seq<SessionRow>, today: map<string, Totals>)

  datatype ActiveSession = ActiveSession(vehicleId: Option<string>, startTime: int, energyKwh: real, transactionId: int)
  datatype ConnectorItem = ConnectorItem(id: int, detail: Detail, powerKw: real, session: Option<ActiveSession>)
  datatype Item = Item(charger: Charger, connectors: seq<ConnectorItem>, currentPowerKw: real, today: Totals)

  // ----- Keys -----

  function ConnectorKey(chargerId: string, connectorId: int): string {
    chargerId + ":" + Decimal.RenderInt(connectorId)
  }

  lemma {:induction false} NoColon(n: int, i: nat)
    requires i < |Decimal.RenderInt(n)|
    ensures Decimal.RenderInt(n)[i] != ':'
  {
    if n < 0 && i > 0 {
      assert Decimal.RenderInt(n)[i] == Decimal.Render(-n)[i - 1];
      assert Decimal.IsDigit(Decimal.Render(-n)[i - 1]);
    } else if n >= 0 {
      assert Decimal.IsDigit(Decimal.Render(n)[i]);
    }
  }

  lemma {:induction false} ShorterIdDiffers(a: string, m: int, b: string, n: int)
    requires |a| < |b|
    ensures ConnectorKey(a, m) != ConnectorKey(b, n)
  {
    var ka, kb := ConnectorKey(a, m), ConnectorKey(b, n);
    assert kb[|b|] == ':';
    if ka == kb {
      assert ka[|b|] == Decimal.RenderInt(m)[|b| - |a| - 1];
      NoColon(m, |b| - |a| - 1);
    }
  }

  /** Different connectors never share a key, for all charger ids and connector numbers. */
  lemma {:induction false} KeyInjective(a: string, m: int, b: string, n: int)
    requires ConnectorKey(a, m) == ConnectorKey(b, n)
    ensures a == b && m == n
  {
    if |a| < |b| {
      ShorterIdDiffers(a, m, b, n);
    } else if |b| < |a| {
      ShorterIdDiffers(b, n, a, m);
    } else {
      var ka, kb := ConnectorKey(a, m), ConnectorKey(b, n);
      assert ka[..|a|] == a && kb[..|b|] == b;
      assert ka[|a| + 1..] == Decimal.RenderInt(m) && kb[|b| + 1..] == Decimal.RenderInt(n);
      Decimal.RenderInjective(m, n);
    }
  }

  // ----- What each charger's item should hold, read straight off the tables -----

  function RowsFor(rows: seq<ConnectorRow>, ids: set<string>): seq<ConnectorRow> {
    if rows == [] then []
    else
      var r := rows[|rows| - 1];
      RowsFor(rows[..|rows| - 1], ids) + if r.chargerId in ids then [r] else []
  }

  /** The power of the last row of that connector, in kW. */
  function PowerAt(rows: seq<PowerRow>, chargerId: string, connectorId: int): Option<real> {
    if rows == [] then None
    else
      var r := rows[|rows| - 1];
      if r.chargerId == chargerId && r.connectorId == connectorId then Some(r.watts / 1000.0)
      else PowerAt(rows[..|rows| - 1], chargerId, connectorId)
  }

  function Active(r: SessionRow): ActiveSession {
    ActiveSession(if r.idTag == "" then None else Some(r.idTag), r.startTime, r.energyKwh, r.transactionId)
  }

  /** The active session of the last row of that connector. */
  function SessionAt(rows: seq<SessionRow>, chargerId: string, connectorId: int): Option<ActiveSession> {
    if rows == [] then None
    else
      var r := rows[|rows| - 1];
      if r.chargerId == chargerId && r.connectorId == connectorId then Some(Active(r))
      else SessionAt(rows[..|rows| - 1], chargerId, connectorId)
  }

  function ItemOf(db: Tables, r: ConnectorRow): ConnectorItem {
    var p := PowerAt(db.power, r.chargerId, r.connectorId);
    ConnectorItem(r.connectorId, r.detail, if p.Some? then p.value else 0.0, SessionAt(db.sessions, r.chargerId, r.connectorId))
  }

  function AddConnector(item: Item, c: ConnectorItem): Item {
    item.(connectors := item.connectors + [c], currentPowerKw := item.currentPowerKw + c.powerKw)
  }

  function Merge(db: Tables, item: Item, rows: seq<ConnectorRow>): Item {
    if rows == [] then item else AddConnector(Merge(db, item, rows[..|rows| - 1]), ItemOf(db, rows[|rows| - 1]))
  }

  function Bare(c: Charger): Item {
    Item(c, [], 0.0, Totals(0.0, 0))
  }

  /** The charger's own connectors, in table order, and nobody else's. */
  function Summary(db: Tables, c: Charger): Item {
    Merge(db, Bare(c), RowsFor(db.connectors, {c.id})).(today := if c.id in db.today then db.today[c.id] else Totals(0.0, 0))
  }

  // ----- What an item says about its charger -----

  predicate SamePlace(r: ConnectorRow, chargerId: string, connectorId: int) {
    r.chargerId == chargerId && r.connectorId == connectorId
  }

  ghost predicate LastPower(rows: seq<PowerRow>, j: int, r: ConnectorRow) {
    && 0 <= j < |rows| && SamePlace(r, rows[j].chargerId, rows[j].connectorId)
    && forall k :: j < k < |rows| ==> !SamePlace(r, rows[k].chargerId, rows[k].connectorId)
  }

  ghost predicate LastSession(rows: seq<SessionRow>, j: int, r: ConnectorRow) {
    && 0 <= j < |rows| && SamePlace(r, rows[j].chargerId, rows[j].connectorId)
    && forall k :: j < k < |rows| ==> !SamePlace(r, rows[k].chargerId, rows[k].connectorId)
  }

  /** The power is that of the connector's last row, in kW, and 0 without one. */
  ghost predicate ShowsPower(rows: seq<PowerRow>, r: ConnectorRow, powerKw: real) {
    && (forall j :: 0 <= j < |rows| && LastPower(rows, j, r) ==> powerKw == rows[j].watts / 1000.0)
    && ((forall j :: 0 <= j < |rows| ==> !SamePlace(r, rows[j].chargerId, rows[j].connectorId)) ==> powerKw == 0.0)
  }

  /** The session is that of the connector's last row; an empty tag names no vehicle. */
  ghost predicate ShowsSession(rows: seq<SessionRow>, r: ConnectorRow, session: Option<ActiveSession>) {
    && (forall j :: 0 <= j < |rows| && LastSession(rows, j, r) ==> session.Some? && OfRow(rows[j], session.value))
    && ((forall j :: 0 <= j < |rows| ==> !SamePlace(r, rows[j].chargerId, rows[j].connectorId)) ==> session == None)
  }

  predicate OfRow(row: SessionRow, s: ActiveSession) {
    && s.startTime == row.startTime && s.energyKwh == row.energyKwh && s.transactionId == row.transactionId
    && (s.vehicleId == None <==> row.idTag == "")
    && (s.vehicleId.Some? ==> s.vehicleId.value == row.idTag)
  }

  ghost predicate Describes(db: Tables, r: ConnectorRow, ci: ConnectorItem) {
    && ci.id == r.connectorId && ci.detail == r.detail
    && ShowsPower(db.power, r, ci.powerKw)
    && ShowsSession(db.sessions, r, ci.session)
  }

  lemma {:induction false} PowerHere(rows: seq<PowerRow>, x: PowerRow, r: ConnectorRow)
    requires SamePlace(r, x.chargerId, x.connectorId)
    ensures ShowsPower(rows + [x], r, x.watts / 1000.0)
  {
    hide SamePlace;
    assert (rows + [x])[|rows|] == x;
    forall j | LastPower(rows + [x], j, r) ensures j == |rows| {
    }
  }

  lemma {:induction false} LastPowerEarlier(rows: seq<PowerRow>, x: PowerRow, j: int, r: ConnectorRow)
    requires !SamePlace(r, x.chargerId, x.connectorId) && LastPower(rows + [x], j, r)
    ensures j < |rows| && (rows + [x])[j] == rows[j] && LastPower(rows, j, r)
  {
    hide SamePlace;
    assert (rows + [x])[|rows|] == x;
    forall k | j < k < |rows| ensures !SamePlace(r, rows[k].chargerId, rows[k].connectorId) {
      assert (rows + [x])[k] == rows[k];
    }
  }

  lemma {:induction false} PowerElsewhere(rows: seq<PowerRow>, x: PowerRow, r: ConnectorRow, got: real)
    requires !SamePlace(r, x.chargerId, x.connectorId) && ShowsPower(rows, r, got)
    ensures ShowsPower(rows + [x], r, got)
  {
    hide LastPower, SamePlace;
    var longer := rows + [x];
    forall j | 0 <= j < |longer| && LastPower(longer, j, r) ensures got == longer[j].watts / 1000.0 {
      LastPowerEarlier(rows, x, j, r);
    }
    if forall j :: 0 <= j < |longer| ==> !SamePlace(r, longer[j].chargerId, longer[j].connectorId) {
      forall j | 0 <= j < |rows| ensures !SamePlace(r, rows[j].chargerId, rows[j].connectorId) {
        assert longer[j] == rows[j];
      }
    }
  }

  lemma {:induction false} PowerShown(rows: seq<PowerRow>, r: ConnectorRow)
    ensures
      var p := PowerAt(rows, r.chargerId, r.connectorId);
      ShowsPower(rows, r, if p.Some? then p.value else 0.0)
  {
    if rows != [] {
      hide ShowsPower;
      var front, x := rows[..|rows| - 1], rows[|rows| - 1];
      assert rows == front + [x];
      PowerShown(front, r);
      if SamePlace(r, x.chargerId, x.connectorId) {
        PowerHere(front, x, r);
      } else {
        var p := PowerAt(front, r.chargerId, r.connectorId);
        PowerElsewhere(front, x, r, if p.Some? then p.value else 0.0);
      }
    }
  }

  lemma {:induction false} SessionHere(rows: seq<SessionRow>, x: SessionRow, r: ConnectorRow)
    requires SamePlace(r, x.chargerId, x.connectorId)
    ensures ShowsSession(rows + [x], r, Some(Active(x)))
  {
    hide SamePlace, OfRow, Active;
    RowActive(x);
    assert (rows + [x])[|rows|] == x;
    forall j | LastSession(rows + [x], j, r) ensures j == |rows| {
    }
  }

  lemma {:induction false} LastSessionEarlier(rows: seq<SessionRow>, x: SessionRow, j: int, r: ConnectorRow)
    requires !SamePlace(r, x.chargerId, x.connectorId) && LastSession(rows + [x], j, r)
    ensures j < |rows| && (rows + [x])[j] == rows[j] && LastSession(rows, j, r)
  {
    hide SamePlace;
    assert (rows + [x])[|rows|] == x;
    forall k | j < k < |rows| ensures !SamePlace(r, rows[k].chargerId, rows[k].connectorId) {
      assert (rows + [x])[k] == rows[k];
    }
  }

  lemma {:induction false} SessionElsewhere(rows: seq<SessionRow>, x: SessionRow, r: ConnectorRow, got: Option<ActiveSession>)
    requires !SamePlace(r, x.chargerId, x.connectorId) && ShowsSession(rows, r, got)
    ensures ShowsSession(rows + [x], r, got)
  {
    hide LastSession, SamePlace, OfRow;
    var longer := rows + [x];
    forall j | 0 <= j < |longer| && LastSession(longer, j, r) ensures got.Some? && OfRow(longer[j], got.value) {
      LastSessionEarlier(rows, x, j, r);
    }
    if forall j :: 0 <= j < |longer| ==> !SamePlace(r, longer[j].chargerId, longer[j].connectorId) {
      forall j | 0 <= j < |rows| ensures !SamePlace(r, rows[j].chargerId, rows[j].connectorId) {
        assert longer[j] == rows[j];
      }
    }
  }

  lemma RowActive(x: SessionRow)
    ensures OfRow(x, Active(x))
  {
  }

  lemma {:induction false} SessionShown(rows: seq<SessionRow>, r: ConnectorRow)
    ensures ShowsSession(rows, r, SessionAt(rows, r.chargerId, r.connectorId))
  {
    if rows != [] {
      hide ShowsSession, Active;
      var front, x := rows[..|rows| - 1], rows[|rows| - 1];
      assert rows == front + [x];
      SessionShown(front, r);
      if SamePlace(r, x.chargerId, x.connectorId) {
        SessionHere(front, x, r);
      } else {
        SessionElsewhere(front, x, r, SessionAt(front, r.chargerId, r.connectorId));
      }
    }
  }

  /** What is built for a row describes its connector. */
  lemma {:induction false} ItemDescribes(db: Tables, r: ConnectorRow)
    ensures Describes(db, r, ItemOf(db, r))
  {
    hide ShowsPower, ShowsSession, PowerAt, SessionAt;
    PowerShown(db.power, r);
    SessionShown(db.sessions, r);
  }

  /** The charger's totals of today, or none. */
  predicate ShowsToday(db: Tables, c: Charger, item: Item) {
    && item.charger == c
    && (c.id in db.today ==> item.today == db.today[c.id])
    && (c.id !in db.today ==> item.today == Totals(0.0, 0))
  }

  // ----- The batch queries -----

  method FetchConnectors(db: Tables, ids: set<string>) returns (rows: seq<ConnectorRow>)
    ensures rows == RowsFor(db.connectors, ids)
  {
    rows := [];
    for i := 0 to |db.connectors|
      invariant rows == RowsFor(db.connectors[..i], ids)
    {
      assert db.connectors[..i + 1][..i] == db.connectors[..i];
      if db.connectors[i].chargerId in ids {
        rows := rows + [db.connectors[i]];
      }
    }
    assert db.connectors[..|db.connectors|] == db.connectors;
  }

  /** A map by key agrees with a lookup by charger and connector, for the chargers asked for. */
  ghost predicate PowerKeyed(rows: seq<PowerRow>, ids: set<string>, byKey: map<string, real>) {
    forall c, n {:trigger PowerAt(rows, c, n)} :: c in ids ==>
      (if ConnectorKey(c, n) in byKey then Some(byKey[ConnectorKey(c, n)]) else None) == PowerAt(rows, c, n)
  }

  ghost predicate SessionsKeyed(rows: seq<SessionRow>, ids: set<string>, byKey: map<string, ActiveSession>) {
    forall c, n {:trigger SessionAt(rows, c, n)} :: c in ids ==>
      (if ConnectorKey(c, n) in byKey then Some(byKey[ConnectorKey(c, n)]) else None) == SessionAt(rows, c, n)
  }

  lemma {:induction false} PowerStep(rows: seq<PowerRow>, i: nat, ids: set<string>, byKey: map<string, real>, c: string, n: int)
    requires i < |rows| && c in ids && PowerKeyed(rows[..i], ids, byKey)
    ensures
      var r := rows[i];
      var byKey' := if r.chargerId in ids then byKey[ConnectorKey(r.chargerId, r.connectorId) := r.watts / 1000.0] else byKey;
      (if ConnectorKey(c, n) in byKey' then Some(byKey'[ConnectorKey(c, n)]) else None) == PowerAt(rows[..i + 1], c, n)
  {
    assert rows[..i + 1][..i] == rows[..i];
    assert PowerAt(rows[..i], c, n) == PowerAt(rows[..i], c, n);
    if ConnectorKey(c, n) == ConnectorKey(rows[i].chargerId, rows[i].connectorId) {
      KeyInjective(c, n, rows[i].chargerId, rows[i].connectorId);
    }
  }

  lemma {:induction false} PowerNext(rows: seq<PowerRow>, i: nat, ids: set<string>, byKey: map<string, real>)
    requires i < |rows| && PowerKeyed(rows[..i], ids, byKey)
    ensures
      var r := rows[i];
      PowerKeyed(rows[..i + 1], ids, if r.chargerId in ids then byKey[ConnectorKey(r.chargerId, r.connectorId) := r.watts / 1000.0] else byKey)
  {
    forall c, n | c in ids {
      PowerStep(rows, i, ids, byKey, c, n);
    }
  }

  method FetchPower(db: Tables, ids: set<string>) returns (byKey: map<string, real>)
    ensures PowerKeyed(db.power, ids, byKey)
  {
    byKey := map[];
    for i := 0 to |db.power|
      invariant PowerKeyed(db.power[..i], ids, byKey)
    {
      var r := db.power[i];
      PowerNext(db.power, i, ids, byKey);
      if r.chargerId in ids {
        byKey := byKey[ConnectorKey(r.chargerId, r.connectorId) := r.watts / 1000.0];
      }
    }
    assert db.power[..|db.power|] == db.power;
  }

  lemma {:induction false} SessionStep(rows: seq<SessionRow>, i: nat, ids: set<string>, byKey: map<string, ActiveSession>, c: string, n: int)
    requires i < |rows| && c in ids && SessionsKeyed(rows[..i], ids, byKey)
    ensures
      var r := rows[i];
      var byKey' := if r.chargerId in ids then byKey[ConnectorKey(r.chargerId, r.connectorId) := Active(r)] else byKey;
      (if ConnectorKey(c, n) in byKey' then Some(byKey'[ConnectorKey(c, n)]) else None) == SessionAt(rows[..i + 1], c, n)
  {
    assert rows[..i + 1][..i] == rows[..i];
    assert SessionAt(rows[..i], c, n) == SessionAt(rows[..i], c, n);
    if ConnectorKey(c, n) == ConnectorKey(rows[i].chargerId, rows[i].connectorId) {
      KeyInjective(c, n, rows[i].chargerId, rows[i].connectorId);
    }
  }

  lemma {:induction false} SessionsNext(rows: seq<SessionRow>, i: nat, ids: set<string>, byKey: map<string, ActiveSession>)
    requires i < |rows| && SessionsKeyed(rows[..i], ids, byKey)
    ensures
      var r := rows[i];
      SessionsKeyed(rows[..i + 1], ids, if r.chargerId in ids then byKey[ConnectorKey(r.chargerId, r.connectorId) := Active(r)] else byKey)
  {
    forall c, n | c in ids {
      SessionStep(rows, i, ids, byKey, c, n);
    }
  }

  method FetchSessions(db: Tables, ids: set<string>) returns (byKey: map<string, ActiveSession>)
    ensures SessionsKeyed(db.sessions, ids, byKey)
  {
    byKey := map[];
    for i := 0 to |db.sessions|
      invariant SessionsKeyed(db.sessions[..i], ids, byKey)
    {
      var r := db.sessions[i];
      SessionsNext(db.sessions, i, ids, byKey);
      if r.chargerId in ids {
        byKey := byKey[ConnectorKey(r.chargerId, r.connectorId) := Active(r)];
      }
    }
    assert db.sessions[..|db.sessions|] == db.sessions;
  }

  /** One connector, with its power and session looked up by key. */
  method BuildConnector(ghost db: Tables, ghost ids: set<string>, r: ConnectorRow,
                        power: map<string, real>, sessions: map<string, ActiveSession>) returns (ci: ConnectorItem)
    requires r.chargerId in ids && PowerKeyed(db.power, ids, power) && SessionsKeyed(db.sessions, ids, sessions)
    ensures ci == ItemOf(db, r)
  {
    var key := ConnectorKey(r.chargerId, r.connectorId);
    ci := ConnectorItem(r.connectorId, r.detail, 0.0, None);
    if key in power {
      ci := ci.(powerKw := power[key]);
    }
    if key in sessions {
      ci := ci.(session := Some(sessions[key]));
    }
    assert PowerAt(db.power, r.chargerId, r.connectorId) == if key in power then Some(power[key]) else None;
    assert SessionAt(db.sessions, r.chargerId, r.connectorId) == if key in sessions then Some(sessions[key]) else None;
  }

  // ----- One charger -----

  lemma {:induction false} RowsForAre(rows: seq<ConnectorRow>, ids: set<string>)
    ensures forall r :: r in RowsFor(rows, ids) ==> r.chargerId in ids && r in rows
  {
    if rows != [] {
      RowsForAre(rows[..|rows| - 1], ids);
    }
  }

  lemma {:induction false} MergeSnoc(db: Tables, item: Item, rows: seq<ConnectorRow>, r: ConnectorRow)
    ensures Merge(db, item, rows + [r]) == AddConnector(Merge(db, item, rows), ItemOf(db, r))
  {
    assert (rows + [r])[..|rows|] == rows;
  }

  lemma MergeNone(db: Tables, item: Item)
    ensures Merge(db, item, []) == item
  {
  }

  method Get(db: Tables, chargers: seq<Charger>, id: string) returns (r: Option<Item>)
    ensures r.Some? <==> exists c :: c in chargers && c.id == id
    ensures r.Some? ==> r.value.charger in chargers && r.value.charger.id == id && r.value == Summary(db, r.value.charger)
    ensures r.Some? ==> ListsRows(db, r.value, Positions(db.connectors, id)) && ShowsToday(db, r.value.charger, r.value)
  {
    r := None;
    for i := 0 to |chargers|
      invariant r == None && forall k :: 0 <= k < i ==> chargers[k].id != id
    {
      if chargers[i].id == id {
        var item := Fill(db, chargers[i]);
        SummaryLists(db, chargers[i]);
        return Some(item);
      }
    }
  }

  method Fill(db: Tables, c: Charger) returns (item: Item)
    ensures item == Summary(db, c) && item.charger == c
  {
    hide Merge, RowsFor, ItemOf, PowerKeyed, SessionsKeyed, AddConnector;
    item := Bare(c);
    var connectors := FetchConnectors(db, {c.id});
    var power := FetchPower(db, {c.id});
    var sessions := FetchSessions(db, {c.id});
    RowsForAre(db.connectors, {c.id});
    MergeNone(db, Bare(c));
    assert connectors[..0] == [];
    for k := 0 to |connectors|
      invariant item == Merge(db, Bare(c), connectors[..k])
    {
      assert connectors[..k + 1] == connectors[..k] + [connectors[k]];
      MergeSnoc(db, Bare(c), connectors[..k], connectors[k]);
      var ci := BuildConnector(db, {c.id}, connectors[k], power, sessions);
      item := AddConnector(item, ci);
    }
    assert connectors[..|connectors|] == connectors;
    MergeKeepsToday(db, Bare(c), connectors);
    if c.id in db.today {
      item := item.(today := db.today[c.id]);
    }
  }

  lemma {:induction false} MergeKeepsToday(db: Tables, item: Item, rows: seq<ConnectorRow>)
    ensures Merge(db, item, rows).today == item.today && Merge(db, item, rows).charger == item.charger
  {
    if rows != [] {
      MergeKeepsToday(db, item, rows[..|rows| - 1]);
    }
  }

  function TotalPower(cs: seq<ConnectorItem>): real {
    if cs == [] then 0.0 else TotalPower(cs[..|cs| - 1]) + cs[|cs| - 1].powerKw
  }

  /** An item lists one connector per row of its charger, in order, and its power is their total. */
  lemma {:induction false} MergedConnectors(db: Tables, c: Charger, rows: seq<ConnectorRow>)
    ensures
      var item := Merge(db, Bare(c), rows);
      && |item.connectors| == |rows|
      && (forall i :: 0 <= i < |rows| ==> item.connectors[i] == ItemOf(db, rows[i]))
      && item.currentPowerKw == TotalPower(item.connectors)
  {
    hide ItemOf;
    if rows != [] {
      MergedConnectors(db, c, rows[..|rows| - 1]);
      TotalPowerSnoc(Merge(db, Bare(c), rows[..|rows| - 1]).connectors, ItemOf(db, rows[|rows| - 1]));
    }
  }

  lemma {:induction false} TotalPowerSnoc(cs: seq<ConnectorItem>, c: ConnectorItem)
    ensures TotalPower(cs + [c]) == TotalPower(cs) + c.powerKw
  {
    assert (cs + [c])[..|cs|] == cs;
  }

  /** In `List` and `Get` alike a charger has exactly its own connectors, in table order, each with
      its own power and session, and the power total is theirs. */
  lemma SummaryHolds(db: Tables, c: Charger)
    ensures
      var item, rows := Summary(db, c), RowsFor(db.connectors, {c.id});
      && item.charger == c
      && |item.connectors| == |rows|
      && (forall i :: 0 <= i < |rows| ==> rows[i].chargerId == c.id && item.connectors[i] == ItemOf(db, rows[i]))
      && item.currentPowerKw == TotalPower(item.connectors)
  {
    var rows := RowsFor(db.connectors, {c.id});
    MergedConnectors(db, c, rows);
    MergeKeepsToday(db, Bare(c), rows);
    RowsForAre(db.connectors, {c.id});
    assert forall i :: 0 <= i < |rows| ==> rows[i] in rows;
  }

  // ----- Nothing lost, nothing shared -----

  ghost predicate DistinctIds(chargers: seq<Charger>) {
    forall i, j :: 0 <= i < j < |chargers| ==> chargers[i].id != chargers[j].id
  }

  /** Where the rows of one charger are in the table. */
  function Positions(rows: seq<ConnectorRow>, id: string): (ps: seq<nat>)
    ensures |ps| == |RowsFor(rows, {id})|
    ensures forall k :: 0 <= k < |ps| ==> ps[k] < |rows| && rows[ps[k]].chargerId == id && RowsFor(rows, {id})[k] == rows[ps[k]]
  {
    if rows == [] then []
    else Positions(rows[..|rows| - 1], id) + if rows[|rows| - 1].chargerId == id then [|rows| - 1] else []
  }

  /** Connector `k` of charger `i` is row `r` of the table. */
  predicate At(rows: seq<ConnectorRow>, chargers: seq<Charger>, i: nat, k: nat, r: nat) {
    && i < |chargers|
    && k < |Positions(rows, chargers[i].id)|
    && Positions(rows, chargers[i].id)[k] == r
  }

  lemma {:induction false} Increasing(rows: seq<ConnectorRow>, id: string, k: nat, l: nat)
    requires k < l < |Positions(rows, id)|
    ensures Positions(rows, id)[k] < Positions(rows, id)[l]
  {
    var front := rows[..|rows| - 1];
    if l < |Positions(front, id)| {
      Increasing(front, id, k, l);
    }
  }

  lemma {:induction false} PositionOf(rows: seq<ConnectorRow>, r: nat) returns (k: nat)
    requires r < |rows|
    ensures k < |Positions(rows, rows[r].chargerId)| && Positions(rows, rows[r].chargerId)[k] == r
  {
    var front := rows[..|rows| - 1];
    if r < |front| {
      k := PositionOf(front, r);
    } else {
      k := |Positions(front, rows[r].chargerId)|;
    }
  }

  /** The items list every row of the listed chargers, each in one item, at one place in it, and nothing
      else. */
  ghost predicate ListsEachOnce(db: Tables, chargers: seq<Charger>, items: seq<Item>) {
    && |items| == |chargers|
    && (forall i: nat :: i < |items| ==>
          ListsRows(db, items[i], Positions(db.connectors, chargers[i].id)) && ShowsToday(db, chargers[i], items[i]))
    && (forall r: nat :: r < |db.connectors| && Listed(chargers, db.connectors[r].chargerId) ==> Somewhere(db.connectors, chargers, r))
    && (forall i: nat, k: nat, j: nat, l: nat, r: nat ::
          At(db.connectors, chargers, i, k, r) && At(db.connectors, chargers, j, l, r) ==> i == j && k == l)
  }

  ghost predicate ListsRows(db: Tables, item: Item, ps: seq<nat>) {
    && |item.connectors| == |ps|
    && forall k :: 0 <= k < |ps| ==>
         && ps[k] < |db.connectors|
         && item.connectors[k] == ItemOf(db, db.connectors[ps[k]])
         && Describes(db, db.connectors[ps[k]], item.connectors[k])
  }

  ghost predicate Listed(chargers: seq<Charger>, id: string) {
    exists i :: 0 <= i < |chargers| && chargers[i].id == id
  }

  ghost predicate Somewhere(rows: seq<ConnectorRow>, chargers: seq<Charger>, r: nat) {
    exists i: nat, k: nat :: At(rows, chargers, i, k, r)
  }

  lemma {:induction false} AtOnce(rows: seq<ConnectorRow>, chargers: seq<Charger>, i: nat, k: nat, j: nat, l: nat, r: nat)
    requires DistinctIds(chargers) && At(rows, chargers, i, k, r) && At(rows, chargers, j, l, r)
    ensures i == j && k == l
  {
    hide Positions;
    assert chargers[i].id == rows[r].chargerId == chargers[j].id;
    if k < l {
      Increasing(rows, chargers[i].id, k, l);
    } else if l < k {
      Increasing(rows, chargers[i].id, l, k);
    }
  }

  lemma {:induction false} SummaryLists(db: Tables, c: Charger)
    ensures ListsRows(db, Summary(db, c), Positions(db.connectors, c.id)) && ShowsToday(db, c, Summary(db, c))
  {
    hide Positions, ItemOf, Describes, Merge;
    SummaryHolds(db, c);
    var ps := Positions(db.connectors, c.id);
    forall k | 0 <= k < |ps|
      ensures Describes(db, db.connectors[ps[k]], ItemOf(db, db.connectors[ps[k]]))
    {
      ItemDescribes(db, db.connectors[ps[k]]);
    }
  }

  lemma {:induction false} EachConnectorOnce(db: Tables, chargers: seq<Charger>, items: seq<Item>)
    requires DistinctIds(chargers) && |items| == |chargers|
    requires forall i :: 0 <= i < |chargers| ==> items[i] == Summary(db, chargers[i])
    ensures ListsEachOnce(db, chargers, items)
  {
    hide Positions, Summary, ItemOf, ListsRows, ShowsToday;
    forall i: nat | i < |items|
      ensures ListsRows(db, items[i], Positions(db.connectors, chargers[i].id)) && ShowsToday(db, chargers[i], items[i])
    {
      SummaryLists(db, chargers[i]);
    }
    forall r: nat | r < |db.connectors| && Listed(chargers, db.connectors[r].chargerId)
      ensures Somewhere(db.connectors, chargers, r)
    {
      var i :| 0 <= i < |chargers| && chargers[i].id == db.connectors[r].chargerId;
      var k := PositionOf(db.connectors, r);
      assert At(db.connectors, chargers, i, k, r);
    }
    forall i: nat, k: nat, j: nat, l: nat, r: nat
      | At(db.connectors, chargers, i, k, r) && At(db.connectors, chargers, j, l, r)
      ensures i == j && k == l
    {
      AtOnce(db.connectors, chargers, i, k, j, l, r);
    }
  }

  // ----- A whole site -----

  /** The rows of one charger among those of all are the rows it gets alone. */
  lemma {:induction false} RowsForOne(rows: seq<ConnectorRow>, ids: set<string>, id: string)
    requires id in ids
    ensures RowsFor(RowsFor(rows, ids), {id}) == RowsFor(rows, {id})
  {
    if rows != [] {
      var front, r := rows[..|rows| - 1], rows[|rows| - 1];
      RowsForOne(front, ids, id);
      RowsForSnoc(RowsFor(front, ids), r, {id});
      assert RowsFor(front, ids) + [] == RowsFor(front, ids);
      assert RowsFor(front, {id}) + [] == RowsFor(front, {id});
    }
  }

  lemma {:induction false} RowsForSnoc(rows: seq<ConnectorRow>, r: ConnectorRow, ids: set<string>)
    ensures RowsFor(rows + [r], ids) == RowsFor(rows, ids) + if r.chargerId in ids then [r] else []
  {
    assert (rows + [r])[..|rows|] == rows;
  }

  /** The index-based merge. The loop over the totals takes them in any order. */
  method List(db: Tables, chargers: seq<Charger>) returns (items: seq<Item>)
    requires DistinctIds(chargers)
    ensures |items| == |chargers|
    ensures forall i :: 0 <= i < |chargers| ==> items[i] == Summary(db, chargers[i])
    ensures ListsEachOnce(db, chargers, items)
  {
    var index: map<string, nat> := map[];
    items := [];
    for i := 0 to |chargers|
      invariant items == seq(i, k requires 0 <= k < i => Bare(chargers[k]))
      invariant index.Keys == set k | 0 <= k < i :: chargers[k].id
      invariant forall k :: 0 <= k < i ==> index[chargers[k].id] == k
    {
      items := items + [Bare(chargers[i])];
      index := index[chargers[i].id := i];
    }

    var ids := index.Keys;
    var connectors := FetchConnectors(db, ids);
    var power := FetchPower(db, ids);
    var sessions := FetchSessions(db, ids);
    items := MergeConnectors(db, chargers, index, items, connectors, power, sessions);
    items := MergeTotals(db, chargers, index, items);
    forall i | 0 <= i < |chargers|
      ensures items[i] == Summary(db, chargers[i])
    {
      RowsForOne(db.connectors, ids, chargers[i].id);
      MergeKeepsToday(db, Bare(chargers[i]), RowsFor(connectors, {chargers[i].id}));
    }
    EachConnectorOnce(db, chargers, items);
  }

  /** The index finds each charger at its own place. */
  ghost predicate Indexed(chargers: seq<Charger>, index: map<string, nat>) {
    && (forall i :: 0 <= i < |chargers| ==> chargers[i].id in index && index[chargers[i].id] == i)
    && (forall id :: id in index ==> index[id] < |chargers| && chargers[index[id]].id == id)
  }

  method MergeConnectors(db: Tables, chargers: seq<Charger>, index: map<string, nat>, bare: seq<Item>,
                         connectors: seq<ConnectorRow>, power: map<string, real>, sessions: map<string, ActiveSession>)
    returns (items: seq<Item>)
    requires Indexed(chargers, index) && |bare| == |chargers|
    requires forall i :: 0 <= i < |chargers| ==> bare[i] == Bare(chargers[i])
    requires PowerKeyed(db.power, index.Keys, power) && SessionsKeyed(db.sessions, index.Keys, sessions)
    ensures |items| == |chargers|
    ensures forall i :: 0 <= i < |chargers| ==> items[i] == Merge(db, Bare(chargers[i]), RowsFor(connectors, {chargers[i].id}))
  {
    items := bare;
    for k := 0 to |connectors|
      invariant |items| == |chargers|
      invariant forall i :: 0 <= i < |chargers| ==> items[i] == Merge(db, Bare(chargers[i]), RowsFor(connectors[..k], {chargers[i].id}))
    {
      var c := connectors[k];
      ghost var before := items;
      assert connectors[..k + 1] == connectors[..k] + [c];
      if c.chargerId in index {
        var idx := index[c.chargerId];
        var ci := BuildConnector(db, index.Keys, c, power, sessions);
        items := items[idx := AddConnector(items[idx], ci)];
      }
      forall i | 0 <= i < |chargers|
        ensures items[i] == Merge(db, Bare(chargers[i]), RowsFor(connectors[..k + 1], {chargers[i].id}))
      {
        RowsForSnoc(connectors[..k], c, {chargers[i].id});
        MergeSnoc(db, Bare(chargers[i]), RowsFor(connectors[..k], {chargers[i].id}), c);
        assert RowsFor(connectors[..k], {chargers[i].id}) + [] == RowsFor(connectors[..k], {chargers[i].id});
      }
    }
    assert connectors[..|connectors|] == connectors;
  }

  method MergeTotals(db: Tables, chargers: seq<Charger>, index: map<string, nat>, merged: seq<Item>) returns (items: seq<Item>)
    requires Indexed(chargers, index) && |merged| == |chargers|
    ensures |items| == |chargers|
    ensures forall i :: 0 <= i < |chargers| ==>
              items[i] == if chargers[i].id in db.today then merged[i].(today := db.today[chargers[i].id]) else merged[i]
  {
    items := merged;
    var left := db.today.Keys;
    while left != {}
      invariant left <= db.today.Keys && |items| == |chargers|
      invariant forall i :: 0 <= i < |chargers| ==>
        items[i] == if chargers[i].id in db.today.Keys - left then merged[i].(today := db.today[chargers[i].id]) else merged[i]
      decreases left
    {
      var id :| id in left;
      left := left - {id};
      if id in index {
        items := items[index[id] := items[index[id]].(today := db.today[id])];
      }
    }
  }
}
