/** Where devices are: the site, floor and room relations, and the handlers that change them. Each
    handler is one atomic step; the caller's membership of the site has been checked. */
module Placement {
  import opened Options

  datatype Device = Device(site: string, deleted: bool)
  datatype Room = Room(site: string, level: int, deleted: bool)

  datatype Db = Db(
    devices: map<string, Device>,
    floors: set<(string, int)>,
    rooms: map<string, Room>,
    siteDevices: set<(string, string)>,         // site, device
    floorDevices: set<(string, int, string)>,   // site, level, device
    roomDevices: set<(string, string)>)         // room, device

  const EMPTY := Db(map[], {}, map[], {}, {}, {})

  datatype Location = Nowhere | AtSite | OnFloor(level: int) | InRoom(room: string)

  datatype Result = Ok | Invalid | Duplicate | NotFound | DeviceNotFound | FloorNotFound | RoomNotFound

  datatype Op =
    | CreateDevice(id: string, site: string)
    | DeleteDevice(site: string, id: string)
    | CreateFloor(site: string, level: int, name: string)
    | DeleteFloor(site: string, level: int)
    | CreateRoom(id: string, site: string, level: int)
    | DeleteRoom(site: string, id: string)
    | AssignSite(site: string, device: string)
    | UnassignSite(site: string, device: string)
    | AssignFloor(site: string, level: int, device: string)
    | UnassignFloor(site: string, level: int, device: string)
    | AssignRoom(site: string, room: string, device: string)
    | UnassignRoom(site: string, room: string, device: string)  // whichever site the room is of
    | SetLocation(site: string, device: string, location: Location)

  predicate DeviceInSite(db: Db, device: string, site: string) {
    device in db.devices && db.devices[device] == Device(site, false)
  }

  predicate FloorExists(db: Db, site: string, level: int) {
    (site, level) in db.floors
  }

  predicate RoomInSite(db: Db, room: string, site: string) {
    room in db.rooms && db.rooms[room].site == site && !db.rooms[room].deleted
  }

  /** Rooms of a floor that goes away move to level 0. */
  function ResetLevel(rooms: map<string, Room>, site: string, level: int): map<string, Room> {
    map id | id in rooms ::
      if rooms[id].site == site && rooms[id].level == level && !rooms[id].deleted then rooms[id].(level := 0) else rooms[id]
  }

  function ClearSite(rows: set<(string, string)>, device: string): set<(string, string)> {
    set r | r in rows && r.1 != device
  }

  function ClearFloors(rows: set<(string, int, string)>, device: string): set<(string, int, string)> {
    set r | r in rows && r.2 != device
  }

  /** The result of a handler; anything but `Ok` is an error return. */
  function ResultOf(db: Db, op: Op): Result {
    match op
    case CreateDevice(id, site) => if site == "" then Invalid else if id in db.devices then Duplicate else Ok
    case DeleteDevice(site, id) =>
      if site == "" || id == "" then Invalid else if !DeviceInSite(db, id, site) then NotFound else Ok
    case CreateFloor(site, level, name) =>
      if site == "" || name == "" || !(-99 <= level <= 99) then Invalid
      else if FloorExists(db, site, level) then Duplicate else Ok
    case DeleteFloor(site, level) => if site == "" then Invalid else if !FloorExists(db, site, level) then NotFound else Ok
    case CreateRoom(id, site, _) => if site == "" then Invalid else if id in db.rooms then Duplicate else Ok
    case DeleteRoom(site, id) => if site == "" || id == "" then Invalid else if !RoomInSite(db, id, site) then NotFound else Ok
    case AssignSite(site, device) =>
      if site == "" || device == "" then Invalid else if !DeviceInSite(db, device, site) then DeviceNotFound else Ok
    case UnassignSite(site, device) => if site == "" || device == "" then Invalid else Ok
    case AssignFloor(site, level, device) =>
      if site == "" || device == "" then Invalid
      else if !FloorExists(db, site, level) then NotFound
      else if !DeviceInSite(db, device, site) then DeviceNotFound else Ok
    case UnassignFloor(site, level, device) => if site == "" || device == "" then Invalid else Ok
    case AssignRoom(site, room, device) =>
      if site == "" || room == "" || device == "" then Invalid
      else if !RoomInSite(db, room, site) then NotFound
      else if !DeviceInSite(db, device, site) then DeviceNotFound else Ok
    case UnassignRoom(site, room, device) => if site == "" || room == "" || device == "" then Invalid else Ok
    case SetLocation(site, device, location) =>
      if site == "" || device == "" then Invalid
      else if !DeviceInSite(db, device, site) then NotFound
      else if location.OnFloor? && !FloorExists(db, site, location.level) then FloorNotFound
      else if location.InRoom? && !RoomInSite(db, location.room, site) then RoomNotFound
      else Ok
  }

  /** The tables after a handler. Two failing deletes still have an effect: a missing floor's rooms are
      moved, and a room that is not the site's, or already deleted, loses its devices. */
  function Apply(db: Db, op: Op): Db {
    var r := ResultOf(db, op);
    if op.DeleteFloor? && r != Invalid then
      db.(rooms := ResetLevel(db.rooms, op.site, op.level),
          floorDevices := (set f | f in db.floorDevices && !(f.0 == op.site && f.1 == op.level)),
          floors := db.floors - {(op.site, op.level)})
    else if op.DeleteRoom? && r != Invalid then
      db.(roomDevices := (set x | x in db.roomDevices && x.0 != op.id),
          rooms := if r == Ok then db.rooms[op.id := db.rooms[op.id].(deleted := true)] else db.rooms)
    else if r != Ok then db
    else
      match op
      case CreateDevice(id, site) => db.(devices := db.devices[id := Device(site, false)])
      case DeleteDevice(_, id) => db.(devices := db.devices[id := db.devices[id].(deleted := true)])
      case CreateFloor(site, level, _) => db.(floors := db.floors + {(site, level)})
      case CreateRoom(id, site, level) => db.(rooms := db.rooms[id := Room(site, level, false)])
      case AssignSite(site, device) => db.(siteDevices := db.siteDevices + {(site, device)})
      case UnassignSite(site, device) => db.(siteDevices := db.siteDevices - {(site, device)})
      case AssignFloor(site, level, device) => db.(floorDevices := db.floorDevices + {(site, level, device)})
      case UnassignFloor(site, level, device) => db.(floorDevices := db.floorDevices - {(site, level, device)})
      case AssignRoom(_, room, device) => db.(roomDevices := db.roomDevices + {(room, device)})
      case UnassignRoom(_, room, device) => db.(roomDevices := db.roomDevices - {(room, device)})
      case SetLocation(site, device, location) => Place(ClearDevice(db, device), site, device, location)
      case _ => db
  }

  function ClearDevice(db: Db, device: string): Db {
    db.(siteDevices := ClearSite(db.siteDevices, device),
        floorDevices := ClearFloors(db.floorDevices, device),
        roomDevices := ClearSite(db.roomDevices, device))
  }

  function Place(db: Db, site: string, device: string, location: Location): Db {
    match location
    case Nowhere => db
    case AtSite => db.(siteDevices := db.siteDevices + {(site, device)})
    case OnFloor(level) => db.(floorDevices := db.floorDevices + {(site, level, device)})
    case InRoom(room) => db.(roomDevices := db.roomDevices + {(room, device)})
  }

  function After(ops: seq<Op>): Db {
    if ops == [] then EMPTY else Apply(After(ops[..|ops| - 1]), ops[|ops| - 1])
  }

  // ----- Referential integrity -----

  /** Each assignment names something that exists, on the device's own site. */
  ghost predicate Integral(db: Db) {
    && (forall s, d :: (s, d) in db.siteDevices ==> d in db.devices && db.devices[d].site == s)
    && (forall s, l, d :: (s, l, d) in db.floorDevices ==>
          (s, l) in db.floors && d in db.devices && db.devices[d].site == s)
    && (forall r, d :: (r, d) in db.roomDevices ==>
          r in db.rooms && !db.rooms[r].deleted && d in db.devices && db.devices[d].site == db.rooms[r].site)
  }

  lemma {:induction false} StepKeepsIntegral(db: Db, op: Op)
    requires Integral(db)
    ensures Integral(Apply(db, op))
  {
  }

  /** Every run of the placement handlers keeps referential integrity. */
  lemma {:induction false} RunKeepsIntegral(ops: seq<Op>)
    ensures Integral(After(ops))
  {
    if ops != [] {
      RunKeepsIntegral(ops[..|ops| - 1]);
      StepKeepsIntegral(After(ops[..|ops| - 1]), ops[|ops| - 1]);
    }
  }

  // ----- What a failing handler changes -----

  predicate LiveOn(room: Room, site: string, level: int) {
    room.site == site && room.level == level && !room.deleted
  }

  /** The failing handler still changes rows. */
  ghost predicate Strays(db: Db, op: Op) {
    && ResultOf(db, op) == NotFound
    && ((op.DeleteFloor? && op.level != 0 && exists id :: id in db.rooms && LiveOn(db.rooms[id], op.site, op.level))
        || (op.DeleteRoom? && exists d :: (op.id, d) in db.roomDevices))
  }

  /** Deleting a floor that does not exist changes nothing exactly when it is level 0, to which its rooms
      would move, or has no live room. */
  lemma {:induction false} DeletingMissingFloor(db: Db, site: string, level: int)
    requires Integral(db) && ResultOf(db, DeleteFloor(site, level)) == NotFound
    ensures Apply(db, DeleteFloor(site, level)) == db
       <==> level == 0 || forall id :: id in db.rooms ==> !LiveOn(db.rooms[id], site, level)
  {
    var db' := Apply(db, DeleteFloor(site, level));
    assert db'.floorDevices == db.floorDevices && db'.floors == db.floors;
    if level == 0 || forall id :: id in db.rooms ==> !LiveOn(db.rooms[id], site, level) {
      assert db'.rooms == db.rooms;
    } else {
      var id :| id in db.rooms && LiveOn(db.rooms[id], site, level);
      assert db'.rooms[id].level != db.rooms[id].level;
    }
  }

  /** Deleting a room that is not the site's, or already deleted, changes nothing exactly when it has no
      device. */
  lemma {:induction false} DeletingMissingRoom(db: Db, site: string, id: string)
    requires Integral(db) && ResultOf(db, DeleteRoom(site, id)) == NotFound
    ensures Apply(db, DeleteRoom(site, id)) == db <==> forall d :: (id, d) !in db.roomDevices
  {
    var db' := Apply(db, DeleteRoom(site, id));
    if forall d :: (id, d) !in db.roomDevices {
      forall x | x in db.roomDevices ensures x in db'.roomDevices {
        assert x == (x.0, x.1);
      }
      assert db'.roomDevices == db.roomDevices;
    } else {
      var d :| (id, d) in db.roomDevices;
      assert (id, d) !in db'.roomDevices;
    }
  }

  /** An error return of any handler leaves the tables as they were, except in exactly those two cases. */
  lemma {:induction false} ErrorsChangeNothing(db: Db, op: Op)
    requires Integral(db) && ResultOf(db, op) != Ok
    ensures Apply(db, op) == db <==> !Strays(db, op)
  {
    if op.DeleteFloor? && ResultOf(db, op) == NotFound {
      DeletingMissingFloor(db, op.site, op.level);
    } else if op.DeleteRoom? && ResultOf(db, op) == NotFound {
      DeletingMissingRoom(db, op.site, op.id);
    }
  }

  /** A room on a floor that was never created, moved by deleting that floor. */
  lemma {:induction false} MissingFloorMovesRoom(site: string, id: string)
    requires site != ""
    ensures
      var db := After([CreateRoom(id, site, 1)]);
      && ResultOf(db, DeleteFloor(site, 1)) == NotFound
      && id in db.rooms && db.rooms[id].level == 1
      && id in Apply(db, DeleteFloor(site, 1)).rooms && Apply(db, DeleteFloor(site, 1)).rooms[id].level == 0
  {
    assert [CreateRoom(id, site, 1)][..0] == [];
  }

  /** A room emptied by a failing delete for another site. */
  lemma {:induction false} ForeignDeleteEmptiesRoom(site: string, other: string, id: string, device: string)
    requires site != "" && other != "" && site != other && id != "" && device != ""
    ensures
      var db := After([CreateDevice(device, site), CreateRoom(id, site, 0), AssignRoom(site, id, device)]);
      && ResultOf(db, DeleteRoom(other, id)) == NotFound
      && (id, device) in db.roomDevices && (id, device) !in Apply(db, DeleteRoom(other, id)).roomDevices
  {
    AfterSnoc([], CreateDevice(device, site));
    AfterSnoc([CreateDevice(device, site)], CreateRoom(id, site, 0));
    AfterSnoc([CreateDevice(device, site), CreateRoom(id, site, 0)], AssignRoom(site, id, device));
    assert [] + [CreateDevice(device, site)] == [CreateDevice(device, site)];
    assert [CreateDevice(device, site)] + [CreateRoom(id, site, 0)] == [CreateDevice(device, site), CreateRoom(id, site, 0)];
    assert [CreateDevice(device, site), CreateRoom(id, site, 0)] + [AssignRoom(site, id, device)]
        == [CreateDevice(device, site), CreateRoom(id, site, 0), AssignRoom(site, id, device)];
  }

  lemma {:induction false} AfterSnoc(ops: seq<Op>, op: Op)
    ensures After(ops + [op]) == Apply(After(ops), op)
  {
    assert (ops + [op])[..|ops|] == ops;
  }

  // ----- Other sites -----

  /** The placements that belong to sites other than this one. */
  datatype Elsewhere = Elsewhere(siteDevices: set<(string, string)>, floorDevices: set<(string, int, string)>, roomDevices: set<(string, string)>)

  function ElsewhereFrom(db: Db, site: string): Elsewhere {
    Elsewhere(set r | r in db.siteDevices && r.0 != site,
              set f | f in db.floorDevices && f.0 != site,
              set x | x in db.roomDevices && x.0 in db.rooms && db.rooms[x.0].site != site)
  }

  predicate ForeignRoom(db: Db, room: string, site: string) {
    room in db.rooms && db.rooms[room].site != site
  }

  /** The handler takes devices out of a room of another site. */
  ghost predicate Trespasses(db: Db, op: Op) {
    || (op.DeleteRoom? && ResultOf(db, op) != Invalid && ForeignRoom(db, op.id, op.site)
        && exists d :: (op.id, d) in db.roomDevices)
    || (op.UnassignRoom? && ResultOf(db, op) != Invalid && ForeignRoom(db, op.room, op.site)
        && (op.room, op.device) in db.roomDevices)
  }

  /** A handler called for one site changes no placement of another, except by deleting or unassigning in
      a room of another site that holds a device. */
  lemma {:induction false} SitesIsolated(db: Db, op: Op)
    requires Integral(db)
    ensures ElsewhereFrom(Apply(db, op), op.site) == ElsewhereFrom(db, op.site) <==> !Trespasses(db, op)
  {
    OthersKeep(db, op);
    if op.DeleteRoom? {
      DeleteElsewhere(db, op.site, op.id);
    } else if op.UnassignRoom? {
      UnassignElsewhere(db, op.site, op.room, op.device);
    }
  }

  lemma {:induction false} OthersKeep(db: Db, op: Op)
    requires Integral(db)
    ensures
      var a, b := ElsewhereFrom(db, op.site), ElsewhereFrom(Apply(db, op), op.site);
      && b.siteDevices == a.siteDevices && b.floorDevices == a.floorDevices
      && (!op.DeleteRoom? && !op.UnassignRoom? ==> b.roomDevices == a.roomDevices)
  {
    var a, b := ElsewhereFrom(db, op.site), ElsewhereFrom(Apply(db, op), op.site);
    if op.SetLocation? && ResultOf(db, op) == Ok {
      ClearKeepsOthers(db, op.site, op.device);
    }
    assert a.siteDevices == b.siteDevices;
    assert a.floorDevices == b.floorDevices;
    if !op.DeleteRoom? && !op.UnassignRoom? {
      assert a.roomDevices == b.roomDevices;
    }
  }

  lemma {:induction false} ClearKeepsOthers(db: Db, site: string, device: string)
    requires Integral(db) && DeviceInSite(db, device, site)
    ensures ElsewhereFrom(ClearDevice(db, device), site) == ElsewhereFrom(db, site)
  {
    var a, b := ElsewhereFrom(db, site), ElsewhereFrom(ClearDevice(db, device), site);
    forall r | r in a.siteDevices ensures r in b.siteDevices {
      assert r == (r.0, r.1) && (r.0, r.1) in db.siteDevices;
    }
    forall f | f in a.floorDevices ensures f in b.floorDevices {
      var (s, l, d) := f;
      assert (s, l, d) in db.floorDevices && f == (s, l, d);
      assert d in db.devices && db.devices[d].site == s;
      assert f in ClearFloors(db.floorDevices, device);
    }
    forall x | x in a.roomDevices ensures x in b.roomDevices {
      assert x == (x.0, x.1) && (x.0, x.1) in db.roomDevices;
    }
  }

  lemma {:induction false} DeleteElsewhere(db: Db, site: string, id: string)
    requires Integral(db)
    ensures
      var op := DeleteRoom(site, id);
      ElsewhereFrom(Apply(db, op), site).roomDevices == ElsewhereFrom(db, site).roomDevices <==> !Trespasses(db, op)
  {
    var op := DeleteRoom(site, id);
    var before, after := ElsewhereFrom(db, site).roomDevices, ElsewhereFrom(Apply(db, op), site).roomDevices;
    if Trespasses(db, op) {
      var d :| (id, d) in db.roomDevices;
      assert (id, d) in before && (id, d) !in after;
    } else {
      forall x | x in before ensures x in after {
        assert x == (x.0, x.1);
      }
      assert before == after;
    }
  }

  lemma {:induction false} UnassignElsewhere(db: Db, site: string, room: string, device: string)
    ensures
      var op := UnassignRoom(site, room, device);
      ElsewhereFrom(Apply(db, op), site).roomDevices == ElsewhereFrom(db, site).roomDevices <==> !Trespasses(db, op)
  {
    var op := UnassignRoom(site, room, device);
    var before, after := ElsewhereFrom(db, site).roomDevices, ElsewhereFrom(Apply(db, op), site).roomDevices;
    if Trespasses(db, op) {
      assert (room, device) in before && (room, device) !in after;
    } else {
      assert before == after;
    }
  }

  // ----- Where a device is -----

  /** The placements of a device in the three relations. */
  ghost predicate Placed(db: Db, device: string, location: Location) {
    match location
    case Nowhere => false
    case AtSite => exists s :: (s, device) in db.siteDevices
    case OnFloor(l) => exists s :: (s, l, device) in db.floorDevices
    case InRoom(r) => (r, device) in db.roomDevices
  }

  /** The device is exactly there, and nowhere else. */
  ghost predicate ExactlyAt(db: Db, device: string, location: Location) {
    forall l :: Placed(db, device, l) <==> l == location && l != Nowhere
  }

  /** After `SetLocation` succeeds exactly that placement exists. */
  lemma SetLocationIsExact(db: Db, site: string, device: string, location: Location)
    requires ResultOf(db, SetLocation(site, device, location)) == Ok
    ensures ExactlyAt(Apply(db, SetLocation(site, device, location)), device, location)
  {
    var db' := Apply(db, SetLocation(site, device, location));
    forall l
      ensures Placed(db', device, l) <==> l == location && l != Nowhere
    {
      if location.AtSite? {
        assert (site, device) in db'.siteDevices;
      } else if location.OnFloor? {
        assert (site, location.level, device) in db'.floorDevices;
      }
    }
  }

  /** Other devices stay where they were. */
  lemma SetLocationLeavesOthers(db: Db, site: string, device: string, location: Location, other: string, l: Location)
    requires other != device
    ensures Placed(Apply(db, SetLocation(site, device, location)), other, l) <==> Placed(db, other, l)
  {
    var db' := Apply(db, SetLocation(site, device, location));
    assert forall s :: (s, other) in db'.siteDevices <==> (s, other) in db.siteDevices;
    assert forall s, k :: (s, k, other) in db'.floorDevices <==> (s, k, other) in db.floorDevices;
  }

  ghost predicate AtMostOnePlace(db: Db, device: string) {
    forall a, b :: Placed(db, device, a) && Placed(db, device, b) ==> a == b
  }

  /** A step that may put the device somewhere without taking it from where it was. */
  predicate PlainAssign(op: Op, device: string) {
    (op.AssignSite? || op.AssignFloor? || op.AssignRoom?) && op.device == device
  }

  lemma {:induction false} StepAddsNoPlace(db: Db, op: Op, device: string, l: Location)
    requires !PlainAssign(op, device) && !(op.SetLocation? && op.device == device)
    ensures Placed(Apply(db, op), device, l) ==> Placed(db, device, l)
  {
    var db' := Apply(db, op);
    if Placed(db', device, l) && !op.DeleteFloor? && !op.DeleteRoom? {
      if l.AtSite? {
        var s :| (s, device) in db'.siteDevices;
        assert (s, device) in db.siteDevices;
      } else if l.OnFloor? {
        var s :| (s, l.level, device) in db'.floorDevices;
        assert (s, l.level, device) in db.floorDevices;
      }
    }
  }

  lemma {:induction false} StepKeepsOnePlace(db: Db, op: Op, device: string)
    requires AtMostOnePlace(db, device) && !PlainAssign(op, device)
    ensures AtMostOnePlace(Apply(db, op), device)
  {
    if op.SetLocation? && op.device == device {
      if ResultOf(db, op) == Ok {
        SetLocationIsExact(db, op.site, device, op.location);
      }
    } else {
      forall l {
        StepAddsNoPlace(db, op, device, l);
      }
    }
  }

  function AfterFrom(db: Db, ops: seq<Op>): Db {
    if ops == [] then db else Apply(AfterFrom(db, ops[..|ops| - 1]), ops[|ops| - 1])
  }

  /** Once `SetLocation` has placed a device, it is in at most one place for as long as no plain
      assignment of it runs. */
  lemma {:induction false} OnePlaceUntilAssigned(db: Db, site: string, device: string, location: Location, ops: seq<Op>)
    requires ResultOf(db, SetLocation(site, device, location)) == Ok
    requires forall op :: op in ops ==> !PlainAssign(op, device)
    ensures AtMostOnePlace(AfterFrom(Apply(db, SetLocation(site, device, location)), ops), device)
  {
    if ops == [] {
      SetLocationIsExact(db, site, device, location);
    } else {
      var front, op := ops[..|ops| - 1], ops[|ops| - 1];
      assert op in ops && forall o :: o in front ==> o in ops;
      OnePlaceUntilAssigned(db, site, device, location, front);
      StepKeepsOnePlace(AfterFrom(Apply(db, SetLocation(site, device, location)), front), op, device);
    }
  }

  /** Where a plain assignment puts its device. */
  function Target(op: Op): Location
    requires op.AssignSite? || op.AssignFloor? || op.AssignRoom?
  {
    match op
    case AssignSite(_, _) => AtSite
    case AssignFloor(_, level, _) => OnFloor(level)
    case AssignRoom(_, room, _) => InRoom(room)
  }

  /** A plain assignment adds its place to the ones the device has: placed elsewhere, it ends up in two. */
  lemma {:induction false} AssignAddsPlace(db: Db, op: Op, device: string, l: Location)
    requires PlainAssign(op, device) && ResultOf(db, op) == Ok
    ensures Placed(Apply(db, op), device, l) <==> l == Target(op) || Placed(db, device, l)
  {
    var db' := Apply(db, op);
    match op {
      case AssignSite(site, _) =>
        assert (site, device) in db'.siteDevices;
      case AssignFloor(site, level, _) =>
        assert (site, level, device) in db'.floorDevices;
        if l.OnFloor? && Placed(db, device, l) {
          var s :| (s, l.level, device) in db.floorDevices;
          assert (s, l.level, device) in db'.floorDevices;
        }
      case AssignRoom(_, _, _) =>
    }
    if l.AtSite? && Placed(db, device, l) {
      var s :| (s, device) in db.siteDevices;
      assert (s, device) in db'.siteDevices;
    }
  }

  // ----- Reading a location -----

  /** One row of the joined query: a null where a relation has no row for the device, and otherwise
      any of its rows. */
  datatype Row = Row(isSite: bool, level: Option<int>, room: Option<string>)

  ghost predicate IsRow(db: Db, device: string, row: Row) {
    && (row.isSite <==> Placed(db, device, AtSite))
    && (if row.level.Some? then Placed(db, device, OnFloor(row.level.value)) else forall l :: !Placed(db, device, OnFloor(l)))
    && (if row.room.Some? then Placed(db, device, InRoom(row.room.value)) else forall r :: !Placed(db, device, InRoom(r)))
  }

  /** A room wins over a floor, a floor over the site. */
  function LocationOf(row: Row): Location {
    if row.room.Some? then InRoom(row.room.value)
    else if row.level.Some? then OnFloor(row.level.value)
    else if row.isSite then AtSite
    else Nowhere
  }

  /** Whatever row the query yields, the location it gives is one the device has, and `Nowhere` is
      given exactly when it has none. */
  lemma LocationIsPlaced(db: Db, device: string, row: Row)
    requires IsRow(db, device, row)
    ensures LocationOf(row) != Nowhere ==> Placed(db, device, LocationOf(row))
    ensures LocationOf(row) == Nowhere <==> forall l :: !Placed(db, device, l)
  {
    if LocationOf(row) == Nowhere {
      forall l ensures !Placed(db, device, l) {
        match l
        case OnFloor(k) => assert !Placed(db, device, OnFloor(k));
        case InRoom(r) => assert !Placed(db, device, InRoom(r));
        case _ =>
      }
    }
  }

  /** Reading a location right after setting it gives it back, whichever row is read. */
  lemma GetAfterSet(db: Db, site: string, device: string, location: Location, row: Row)
    requires ResultOf(db, SetLocation(site, device, location)) == Ok
    requires IsRow(Apply(db, SetLocation(site, device, location)), device, row)
    ensures LocationOf(row) == location
  {
    SetLocationIsExact(db, site, device, location);
    LocationIsPlaced(Apply(db, SetLocation(site, device, location)), device, row);
    assert location != Nowhere ==> Placed(Apply(db, SetLocation(site, device, location)), device, location);
  }
}
