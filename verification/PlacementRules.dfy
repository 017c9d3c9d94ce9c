/** What each placement handler answers and what it leaves behind: on the tables, statement by statement of
    what holds afterwards, and over a run, by what was created and deleted before. */
module PlacementRules {
  import opened Options
  import opened Placement

  // ----- What a handler needs -----

  ghost predicate LiveDevice(db: Db, id: string, site: string) {
    id in db.devices && db.devices[id].site == site && !db.devices[id].deleted
  }

  ghost predicate LiveRoom(db: Db, id: string, site: string) {
    id in db.rooms && db.rooms[id].site == site && !db.rooms[id].deleted
  }

  /** The arguments are refused before any table is read. */
  predicate Malformed(op: Op) {
    match op
    case CreateDevice(_, site) => site == ""
    case DeleteDevice(site, id) => site == "" || id == ""
    case CreateFloor(site, level, name) => site == "" || name == "" || level < -99 || level > 99
    case DeleteFloor(site, _) => site == ""
    case CreateRoom(_, site, _) => site == ""
    case DeleteRoom(site, id) => site == "" || id == ""
    case AssignSite(site, device) => site == "" || device == ""
    case UnassignSite(site, device) => site == "" || device == ""
    case AssignFloor(site, _, device) => site == "" || device == ""
    case UnassignFloor(site, _, device) => site == "" || device == ""
    case AssignRoom(site, room, device) => site == "" || room == "" || device == ""
    case UnassignRoom(site, room, device) => site == "" || room == "" || device == ""
    case SetLocation(site, device, _) => site == "" || device == ""
  }

  /** What a well-formed operation needs the tables to hold. */
  ghost predicate Needs(db: Db, op: Op) {
    match op
    case CreateDevice(id, _) => id !in db.devices
    case DeleteDevice(site, id) => LiveDevice(db, id, site)
    case CreateFloor(site, level, _) => (site, level) !in db.floors
    case DeleteFloor(site, level) => (site, level) in db.floors
    case CreateRoom(id, _, _) => id !in db.rooms
    case DeleteRoom(site, id) => LiveRoom(db, id, site)
    case AssignSite(site, device) => LiveDevice(db, device, site)
    case UnassignSite(_, _) => true
    case AssignFloor(site, level, device) => (site, level) in db.floors && LiveDevice(db, device, site)
    case UnassignFloor(_, _, _) => true
    case AssignRoom(site, room, device) => LiveRoom(db, room, site) && LiveDevice(db, device, site)
    case UnassignRoom(_, _, _) => true
    case SetLocation(site, device, location) =>
      && LiveDevice(db, device, site)
      && (location.OnFloor? ==> (site, location.level) in db.floors)
      && (location.InRoom? ==> LiveRoom(db, location.room, site))
  }

  ghost predicate Answered(db: Db, op: Op, r: Result) {
    && (r == Invalid <==> Malformed(op))
    && (r == Ok <==> !Malformed(op) && Needs(db, op))
  }

  lemma AnsweredByRule(db: Db, op: Op)
    ensures Answered(db, op, ResultOf(db, op))
  {
  }

  // ----- What a handler leaves behind -----

  ghost predicate SameDevicesBut(a: Db, b: Db, id: string) {
    forall d :: d != id ==> (d in b.devices <==> d in a.devices) && (d in a.devices ==> b.devices[d] == a.devices[d])
  }

  ghost predicate SameRoomsBut(a: Db, b: Db, id: string) {
    forall r :: r != id ==> (r in b.rooms <==> r in a.rooms) && (r in a.rooms ==> b.rooms[r] == a.rooms[r])
  }

  /** The floor and its assignments are gone and no other; its live rooms are on level 0 and no room changes
      otherwise. */
  ghost predicate FloorGone(a: Db, b: Db, site: string, level: int) {
    && b.devices == a.devices && b.siteDevices == a.siteDevices && b.roomDevices == a.roomDevices
    && (forall s, l :: (s, l) in b.floors <==> (s, l) in a.floors && !(s == site && l == level))
    && (forall s, l, d :: (s, l, d) in b.floorDevices <==> (s, l, d) in a.floorDevices && !(s == site && l == level))
    && (forall r :: r in b.rooms <==> r in a.rooms)
    && (forall r :: r in a.rooms ==>
          && b.rooms[r].site == a.rooms[r].site && b.rooms[r].deleted == a.rooms[r].deleted
          && b.rooms[r].level
             == if a.rooms[r].site == site && a.rooms[r].level == level && !a.rooms[r].deleted then 0 else a.rooms[r].level)
  }

  /** The room is deleted, its assignments are gone, and nothing else changed. */
  ghost predicate RoomGone(a: Db, b: Db, site: string, id: string) {
    && b == a.(rooms := b.rooms, roomDevices := b.roomDevices)
    && SameRoomsBut(a, b, id)
    && id in a.rooms && id in b.rooms && b.rooms[id].deleted && b.rooms[id].site == a.rooms[id].site
    && b.rooms[id].level == a.rooms[id].level
    && (forall r, d :: (r, d) in b.roomDevices <==> (r, d) in a.roomDevices && r != id)
  }

  ghost predicate DeviceGone(a: Db, b: Db, site: string, id: string) {
    && b == a.(devices := b.devices)
    && SameDevicesBut(a, b, id)
    && id in a.devices && id in b.devices && b.devices[id].deleted && b.devices[id].site == a.devices[id].site
  }

  /** The device has that placement and no other; other devices keep theirs. */
  ghost predicate Moved(a: Db, b: Db, site: string, device: string, location: Location) {
    && b.devices == a.devices && b.floors == a.floors && b.rooms == a.rooms
    && (forall s, d :: (s, d) in b.siteDevices <==>
          if d == device then s == site && location == AtSite else (s, d) in a.siteDevices)
    && (forall s, l, d :: (s, l, d) in b.floorDevices <==>
          if d == device then s == site && location == OnFloor(l) else (s, l, d) in a.floorDevices)
    && (forall r, d :: (r, d) in b.roomDevices <==>
          if d == device then location == InRoom(r) else (r, d) in a.roomDevices)
  }

  /** The tables after a handler that succeeded. */
  ghost predicate Done(a: Db, b: Db, op: Op) {
    match op
    case CreateDevice(id, site) =>
      b == a.(devices := b.devices) && SameDevicesBut(a, b, id) && id in b.devices
      && b.devices[id].site == site && !b.devices[id].deleted
    case DeleteDevice(site, id) => DeviceGone(a, b, site, id)
    case CreateFloor(site, level, _) =>
      b == a.(floors := b.floors) && forall s, l :: (s, l) in b.floors <==> (s, l) in a.floors || (s == site && l == level)
    case DeleteFloor(site, level) => FloorGone(a, b, site, level)
    case CreateRoom(id, site, level) =>
      b == a.(rooms := b.rooms) && SameRoomsBut(a, b, id) && id in b.rooms
      && b.rooms[id].site == site && b.rooms[id].level == level && !b.rooms[id].deleted
    case DeleteRoom(site, id) => RoomGone(a, b, site, id)
    case AssignSite(site, device) =>
      b == a.(siteDevices := b.siteDevices)
      && forall s, d :: (s, d) in b.siteDevices <==> (s, d) in a.siteDevices || (s == site && d == device)
    case UnassignSite(site, device) =>
      b == a.(siteDevices := b.siteDevices)
      && forall s, d :: (s, d) in b.siteDevices <==> (s, d) in a.siteDevices && !(s == site && d == device)
    case AssignFloor(site, level, device) =>
      b == a.(floorDevices := b.floorDevices)
      && forall s, l, d :: (s, l, d) in b.floorDevices <==>
           (s, l, d) in a.floorDevices || (s == site && l == level && d == device)
    case UnassignFloor(site, level, device) =>
      b == a.(floorDevices := b.floorDevices)
      && forall s, l, d :: (s, l, d) in b.floorDevices <==>
           (s, l, d) in a.floorDevices && !(s == site && l == level && d == device)
    case AssignRoom(_, room, device) =>
      b == a.(roomDevices := b.roomDevices)
      && forall r, d :: (r, d) in b.roomDevices <==> (r, d) in a.roomDevices || (r == room && d == device)
    case UnassignRoom(_, room, device) =>
      b == a.(roomDevices := b.roomDevices)
      && forall r, d :: (r, d) in b.roomDevices <==> (r, d) in a.roomDevices && !(r == room && d == device)
    case SetLocation(site, device, location) => Moved(a, b, site, device, location)
  }

  lemma {:induction false} DoneByRule(db: Db, op: Op)
    ensures ResultOf(db, op) == Ok ==> Done(db, Apply(db, op), op)
  {
    if ResultOf(db, op) == Ok {
      match op
      case SetLocation(site, device, location) => MovedByRule(db, site, device, location);
      case DeleteFloor(site, level) => FloorGoneByRule(db, site, level);
      case DeleteRoom(site, id) => RoomGoneByRule(db, site, id);
      case _ =>
    }
  }

  lemma {:induction false} MovedByRule(db: Db, site: string, device: string, location: Location)
    requires ResultOf(db, SetLocation(site, device, location)) == Ok
    ensures Moved(db, Apply(db, SetLocation(site, device, location)), site, device, location)
  {
  }

  lemma {:induction false} FloorGoneByRule(db: Db, site: string, level: int)
    requires ResultOf(db, DeleteFloor(site, level)) == Ok
    ensures FloorGone(db, Apply(db, DeleteFloor(site, level)), site, level)
  {
  }

  lemma {:induction false} RoomGoneByRule(db: Db, site: string, id: string)
    requires ResultOf(db, DeleteRoom(site, id)) == Ok
    ensures RoomGone(db, Apply(db, DeleteRoom(site, id)), site, id)
  {
  }

  /** A room the device is in; without any a floor it is on; without any of these its site, and nowhere
      only without a row in any relation. */
  ghost predicate Located(db: Db, device: string, location: Location) {
    && (location.InRoom? ==> (location.room, device) in db.roomDevices)
    && (!location.InRoom? ==> forall r :: (r, device) !in db.roomDevices)
    && (location.OnFloor? ==> exists s :: (s, location.level, device) in db.floorDevices)
    && (location == AtSite || location == Nowhere ==> forall s, l :: (s, l, device) !in db.floorDevices)
    && (location == AtSite ==> exists s :: (s, device) in db.siteDevices)
    && (location == Nowhere ==> forall s :: (s, device) !in db.siteDevices)
  }

  lemma {:induction false} LocatedByRule(db: Db, device: string, row: Row)
    requires IsRow(db, device, row)
    ensures Located(db, device, LocationOf(row))
  {
    if row.room == None {
      forall r ensures (r, device) !in db.roomDevices {
        assert !Placed(db, device, InRoom(r));
      }
    }
    if row.level == None {
      forall s, l ensures (s, l, device) !in db.floorDevices {
        assert !Placed(db, device, OnFloor(l));
      }
    }
    assert row.isSite <==> exists s :: (s, device) in db.siteDevices;
  }

  // ----- Over a run -----

  /** The last well-formed creation or deletion of the floor was a creation. */
  ghost predicate FloorStands(ops: seq<Op>, site: string, level: int) {
    exists i :: 0 <= i < |ops| && CreatesFloor(ops[i], site, level) && forall j :: i < j < |ops| ==> !DeletesFloor(ops[j], site, level)
  }

  predicate CreatesFloor(op: Op, site: string, level: int) {
    op.CreateFloor? && op.site == site && op.level == level && !Malformed(op)
  }

  predicate DeletesFloor(op: Op, site: string, level: int) {
    op.DeleteFloor? && op.site == site && op.level == level
  }

  /** The device was created for the site, its id unused before, and not deleted since. */
  ghost predicate DeviceStands(ops: seq<Op>, id: string, site: string) {
    exists i :: 0 <= i < |ops| && MakesDevice(ops[i], id) && ops[i].site == site
      && (forall j :: 0 <= j < i ==> !MakesDevice(ops[j], id))
      && forall j :: i < j < |ops| ==> !DropsDevice(ops[j], id, site)
  }

  predicate MakesDevice(op: Op, id: string) {
    op.CreateDevice? && op.id == id && !Malformed(op)
  }

  predicate DropsDevice(op: Op, id: string, site: string) {
    op.DeleteDevice? && op.id == id && op.site == site && !Malformed(op)
  }

  /** The room was created for the site, its id unused before, and not deleted since. */
  ghost predicate RoomStands(ops: seq<Op>, id: string, site: string) {
    exists i :: 0 <= i < |ops| && MakesRoom(ops[i], id) && ops[i].site == site
      && (forall j :: 0 <= j < i ==> !MakesRoom(ops[j], id))
      && forall j :: i < j < |ops| ==> !DropsRoom(ops[j], id, site)
  }

  predicate MakesRoom(op: Op, id: string) {
    op.CreateRoom? && op.id == id && !Malformed(op)
  }

  predicate DropsRoom(op: Op, id: string, site: string) {
    op.DeleteRoom? && op.id == id && op.site == site && !Malformed(op)
  }

  ghost predicate DeviceMade(ops: seq<Op>, id: string) {
    exists i :: 0 <= i < |ops| && MakesDevice(ops[i], id)
  }

  ghost predicate RoomMade(ops: seq<Op>, id: string) {
    exists i :: 0 <= i < |ops| && MakesRoom(ops[i], id)
  }

  /** What an operation needs of the operations before it. */
  ghost predicate NeedsBefore(ops: seq<Op>, op: Op) {
    match op
    case CreateDevice(id, _) => !DeviceMade(ops, id)
    case DeleteDevice(site, id) => DeviceStands(ops, id, site)
    case CreateFloor(site, level, _) => !FloorStands(ops, site, level)
    case DeleteFloor(site, level) => FloorStands(ops, site, level)
    case CreateRoom(id, _, _) => !RoomMade(ops, id)
    case DeleteRoom(site, id) => RoomStands(ops, id, site)
    case AssignSite(site, device) => DeviceStands(ops, device, site)
    case UnassignSite(_, _) => true
    case AssignFloor(site, level, device) => FloorStands(ops, site, level) && DeviceStands(ops, device, site)
    case UnassignFloor(_, _, _) => true
    case AssignRoom(site, room, device) => RoomStands(ops, room, site) && DeviceStands(ops, device, site)
    case UnassignRoom(_, _, _) => true
    case SetLocation(site, device, location) =>
      && DeviceStands(ops, device, site)
      && (location.OnFloor? ==> FloorStands(ops, site, location.level))
      && (location.InRoom? ==> RoomStands(ops, location.room, site))
  }

  /** Over any run, a handler succeeds exactly when it is well-formed and what it names was created before
      and not deleted since; what it creates must not be there. */
  lemma {:induction false} SucceedsExactly(ops: seq<Op>, op: Op)
    ensures ResultOf(After(ops), op) == Ok <==> !Malformed(op) && NeedsBefore(ops, op)
  {
    hide DeviceStands, RoomStands, FloorStands, DeviceMade, RoomMade, ResultOf, After, LiveDevice, LiveRoom;
    AnsweredByRule(After(ops), op);
    var db := After(ops);
    forall site, level ensures (site, level) in db.floors <==> FloorStands(ops, site, level) {
      FloorsOfRun(ops, site, level);
    }
    forall id, site ensures LiveDevice(db, id, site) <==> DeviceStands(ops, id, site) {
      DevicesOfRun(ops, id, site);
    }
    forall id ensures id in db.devices <==> DeviceMade(ops, id) {
      DevicesOfRun(ops, id, "");
    }
    forall id, site ensures LiveRoom(db, id, site) <==> RoomStands(ops, id, site) {
      RoomsOfRun(ops, id, site);
    }
    forall id ensures id in db.rooms <==> RoomMade(ops, id) {
      RoomsOfRun(ops, id, "");
    }
  }

  lemma {:induction false} FloorsOfRun(ops: seq<Op>, site: string, level: int)
    ensures (site, level) in After(ops).floors <==> FloorStands(ops, site, level)
  {
    if ops != [] {
      var n := |ops| - 1;
      FloorsOfRun(ops[..n], site, level);
      FloorStandsSnoc(ops[..n], ops[n], site, level);
      assert ops == ops[..n] + [ops[n]];
      StepFloors(After(ops[..n]), ops[n], site, level);
    }
  }

  lemma {:induction false} FloorStandsSnoc(ops: seq<Op>, op: Op, site: string, level: int)
    ensures FloorStands(ops + [op], site, level)
       <==> CreatesFloor(op, site, level) || (FloorStands(ops, site, level) && !DeletesFloor(op, site, level))
  {
    hide CreatesFloor, DeletesFloor;
    var longer := ops + [op];
    assert longer[|ops|] == op && forall i :: 0 <= i < |ops| ==> longer[i] == ops[i];
    if FloorStands(ops, site, level) && !DeletesFloor(op, site, level) {
      var i :| 0 <= i < |ops| && CreatesFloor(ops[i], site, level) && forall j :: i < j < |ops| ==> !DeletesFloor(ops[j], site, level);
      assert CreatesFloor(longer[i], site, level);
    }
  }

  lemma {:induction false} StepFloors(db: Db, op: Op, site: string, level: int)
    ensures (site, level) in Apply(db, op).floors
       <==> CreatesFloor(op, site, level) || ((site, level) in db.floors && !(DeletesFloor(op, site, level) && site != ""))
  {
  }

  lemma {:induction false} DevicesOfRun(ops: seq<Op>, id: string, site: string)
    ensures LiveDevice(After(ops), id, site) <==> DeviceStands(ops, id, site)
    ensures id in After(ops).devices <==> DeviceMade(ops, id)
  {
    if ops != [] {
      var n := |ops| - 1;
      DevicesOfRun(ops[..n], id, site);
      DeviceStandsSnoc(ops[..n], ops[n], id, site);
      assert ops == ops[..n] + [ops[n]];
      StepDevices(After(ops[..n]), ops[n], id, site);
    }
  }

  lemma {:induction false} DeviceStandsSnoc(ops: seq<Op>, op: Op, id: string, site: string)
    ensures DeviceMade(ops + [op], id) <==> DeviceMade(ops, id) || MakesDevice(op, id)
    ensures DeviceStands(ops + [op], id, site)
       <==> (MakesDevice(op, id) && op.site == site && !DeviceMade(ops, id))
            || (DeviceStands(ops, id, site) && !DropsDevice(op, id, site))
  {
    hide MakesDevice, DropsDevice;
    var longer := ops + [op];
    assert longer[|ops|] == op && forall i :: 0 <= i < |ops| ==> longer[i] == ops[i];
  }

  lemma {:induction false} StepDevices(db: Db, op: Op, id: string, site: string)
    ensures id in Apply(db, op).devices <==> id in db.devices || MakesDevice(op, id)
    ensures LiveDevice(Apply(db, op), id, site)
       <==> (MakesDevice(op, id) && op.site == site && id !in db.devices)
            || (LiveDevice(db, id, site) && !DropsDevice(op, id, site))
  {
  }

  lemma {:induction false} RoomsOfRun(ops: seq<Op>, id: string, site: string)
    ensures LiveRoom(After(ops), id, site) <==> RoomStands(ops, id, site)
    ensures id in After(ops).rooms <==> RoomMade(ops, id)
  {
    if ops != [] {
      var n := |ops| - 1;
      RoomsOfRun(ops[..n], id, site);
      RoomStandsSnoc(ops[..n], ops[n], id, site);
      assert ops == ops[..n] + [ops[n]];
      StepRooms(After(ops[..n]), ops[n], id, site);
    }
  }

  lemma {:induction false} RoomStandsSnoc(ops: seq<Op>, op: Op, id: string, site: string)
    ensures RoomMade(ops + [op], id) <==> RoomMade(ops, id) || MakesRoom(op, id)
    ensures RoomStands(ops + [op], id, site)
       <==> (MakesRoom(op, id) && op.site == site && !RoomMade(ops, id))
            || (RoomStands(ops, id, site) && !DropsRoom(op, id, site))
  {
    hide MakesRoom, DropsRoom;
    var longer := ops + [op];
    assert longer[|ops|] == op && forall i :: 0 <= i < |ops| ==> longer[i] == ops[i];
  }

  lemma {:induction false} StepRooms(db: Db, op: Op, id: string, site: string)
    ensures id in Apply(db, op).rooms <==> id in db.rooms || MakesRoom(op, id)
    ensures LiveRoom(Apply(db, op), id, site)
       <==> (MakesRoom(op, id) && op.site == site && id !in db.rooms)
            || (LiveRoom(db, id, site) && !DropsRoom(op, id, site))
  {
  }

  /** Once a floor is deleted, nothing can be assigned or moved to it and it cannot be deleted again, until it
      is created. */
  lemma {:induction false} DeletedFloorRefused(ops: seq<Op>, more: seq<Op>, site: string, level: int, device: string)
    requires forall op :: op in more ==> !CreatesFloor(op, site, level)
    ensures
      var db := After((ops + [DeleteFloor(site, level)]) + more);
      && ResultOf(db, DeleteFloor(site, level)) != Ok
      && ResultOf(db, AssignFloor(site, level, device)) != Ok
      && ResultOf(db, SetLocation(site, device, OnFloor(level))) != Ok
  {
    hide FloorStands, ResultOf, After, DeviceStands;
    var run := (ops + [DeleteFloor(site, level)]) + more;
    FloorStaysGone(ops + [DeleteFloor(site, level)], more, site, level) by {
      FloorStandsSnoc(ops, DeleteFloor(site, level), site, level);
    }
    SucceedsExactly(run, DeleteFloor(site, level));
    SucceedsExactly(run, AssignFloor(site, level, device));
    SucceedsExactly(run, SetLocation(site, device, OnFloor(level)));
  }

  lemma {:induction false} FloorStaysGone(ops: seq<Op>, more: seq<Op>, site: string, level: int)
    requires !FloorStands(ops, site, level)
    requires forall op :: op in more ==> !CreatesFloor(op, site, level)
    ensures !FloorStands(ops + more, site, level)
    decreases |more|
  {
    hide FloorStands, CreatesFloor;
    if more == [] {
      assert ops + more == ops;
    } else {
      var front, op := more[..|more| - 1], more[|more| - 1];
      assert op in more && forall o :: o in front ==> o in more;
      FloorStaysGone(ops, front, site, level);
      FloorStandsSnoc(ops + front, op, site, level);
      assert ops + more == (ops + front) + [op];
    }
  }
}
