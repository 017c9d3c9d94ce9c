/** The placement handlers, statement by statement. */
module PlacementTables {
  import opened Options
  import opened Placement
  import opened PlacementRules

  class Tables {
    var devices: map<string, Device>
    var floors: set<(string, int)>
    var rooms: map<string, Room>
    var siteDevices: set<(string, string)>
    var floorDevices: set<(string, int, string)>
    var roomDevices: set<(string, string)>

    function View(): Db
      reads this
    {
      Db(devices, floors, rooms, siteDevices, floorDevices, roomDevices)
    }

    constructor ()
      ensures View() == EMPTY && Integral(View())
    {
      devices, floors, rooms := map[], {}, map[];
      siteDevices, floorDevices, roomDevices := {}, {}, {};
    }

    /** Resets the rooms of the floor, drops its assignments, then deletes it. */
    method DeleteFloor(site: string, level: int) returns (r: Result)
      requires Integral(View())
      modifies this
      ensures View() == Apply(old(View()), Op.DeleteFloor(site, level)) && Integral(View())
      ensures r == ResultOf(old(View()), Op.DeleteFloor(site, level))
      ensures Answered(old(View()), Op.DeleteFloor(site, level), r) && (r == Ok ==> Done(old(View()), View(), Op.DeleteFloor(site, level)))
    {
      hide Answered, Done, Integral;
      StepKeepsIntegral(View(), Op.DeleteFloor(site, level));
      AnsweredByRule(View(), Op.DeleteFloor(site, level));
      DoneByRule(View(), Op.DeleteFloor(site, level));
      if site == "" {
        return Invalid;
      }
      rooms := ResetLevel(rooms, site, level);
      floorDevices := set f | f in floorDevices && !(f.0 == site && f.1 == level);
      var affected := (site, level) in floors;
      floors := floors - {(site, level)};
      r := if affected then Ok else NotFound;
    }

    /** Drops the room's assignments, then marks it deleted. */
    method DeleteRoom(site: string, id: string) returns (r: Result)
      requires Integral(View())
      modifies this
      ensures View() == Apply(old(View()), Op.DeleteRoom(site, id)) && Integral(View())
      ensures r == ResultOf(old(View()), Op.DeleteRoom(site, id))
      ensures Answered(old(View()), Op.DeleteRoom(site, id), r) && (r == Ok ==> Done(old(View()), View(), Op.DeleteRoom(site, id)))
    {
      hide Answered, Done, Integral;
      StepKeepsIntegral(View(), Op.DeleteRoom(site, id));
      AnsweredByRule(View(), Op.DeleteRoom(site, id));
      DoneByRule(View(), Op.DeleteRoom(site, id));
      if site == "" || id == "" {
        return Invalid;
      }
      roomDevices := set x | x in roomDevices && x.0 != id;
      if id !in rooms || rooms[id].site != site || rooms[id].deleted {
        return NotFound;
      }
      rooms := rooms[id := rooms[id].(deleted := true)];
      r := Ok;
    }

    /** Marks the device deleted; its assignments stay. */
    method DeleteDevice(site: string, id: string) returns (r: Result)
      requires Integral(View())
      modifies this
      ensures View() == Apply(old(View()), Op.DeleteDevice(site, id)) && Integral(View())
      ensures r == ResultOf(old(View()), Op.DeleteDevice(site, id))
      ensures Answered(old(View()), Op.DeleteDevice(site, id), r) && (r == Ok ==> Done(old(View()), View(), Op.DeleteDevice(site, id)))
    {
      hide Answered, Done, Integral;
      StepKeepsIntegral(View(), Op.DeleteDevice(site, id));
      AnsweredByRule(View(), Op.DeleteDevice(site, id));
      DoneByRule(View(), Op.DeleteDevice(site, id));
      if site == "" || id == "" {
        return Invalid;
      }
      if id !in devices || devices[id].site != site || devices[id].deleted {
        return NotFound;
      }
      devices := devices[id := devices[id].(deleted := true)];
      r := Ok;
    }

    method AssignSite(site: string, device: string) returns (r: Result)
      requires Integral(View())
      modifies this
      ensures View() == Apply(old(View()), Op.AssignSite(site, device)) && Integral(View())
      ensures r == ResultOf(old(View()), Op.AssignSite(site, device))
      ensures Answered(old(View()), Op.AssignSite(site, device), r) && (r == Ok ==> Done(old(View()), View(), Op.AssignSite(site, device)))
    {
      hide Answered, Done, Integral;
      StepKeepsIntegral(View(), Op.AssignSite(site, device));
      AnsweredByRule(View(), Op.AssignSite(site, device));
      DoneByRule(View(), Op.AssignSite(site, device));
      if site == "" || device == "" {
        return Invalid;
      }
      if !DeviceInSite(View(), device, site) {
        return DeviceNotFound;
      }
      siteDevices := siteDevices + {(site, device)};
      r := Ok;
    }

    method AssignFloor(site: string, level: int, device: string) returns (r: Result)
      requires Integral(View())
      modifies this
      ensures View() == Apply(old(View()), Op.AssignFloor(site, level, device)) && Integral(View())
      ensures r == ResultOf(old(View()), Op.AssignFloor(site, level, device))
      ensures Answered(old(View()), Op.AssignFloor(site, level, device), r) && (r == Ok ==> Done(old(View()), View(), Op.AssignFloor(site, level, device)))
    {
      hide Answered, Done, Integral;
      StepKeepsIntegral(View(), Op.AssignFloor(site, level, device));
      AnsweredByRule(View(), Op.AssignFloor(site, level, device));
      DoneByRule(View(), Op.AssignFloor(site, level, device));
      if site == "" || device == "" {
        return Invalid;
      }
      if !FloorExists(View(), site, level) {
        return NotFound;
      }
      if !DeviceInSite(View(), device, site) {
        return DeviceNotFound;
      }
      floorDevices := floorDevices + {(site, level, device)};
      r := Ok;
    }

    method AssignRoom(site: string, room: string, device: string) returns (r: Result)
      requires Integral(View())
      modifies this
      ensures View() == Apply(old(View()), Op.AssignRoom(site, room, device)) && Integral(View())
      ensures r == ResultOf(old(View()), Op.AssignRoom(site, room, device))
      ensures Answered(old(View()), Op.AssignRoom(site, room, device), r) && (r == Ok ==> Done(old(View()), View(), Op.AssignRoom(site, room, device)))
    {
      hide Answered, Done, Integral;
      StepKeepsIntegral(View(), Op.AssignRoom(site, room, device));
      AnsweredByRule(View(), Op.AssignRoom(site, room, device));
      DoneByRule(View(), Op.AssignRoom(site, room, device));
      if site == "" || room == "" || device == "" {
        return Invalid;
      }
      if !RoomInSite(View(), room, site) {
        return NotFound;
      }
      if !DeviceInSite(View(), device, site) {
        return DeviceNotFound;
      }
      roomDevices := roomDevices + {(room, device)};
      r := Ok;
    }

    method UnassignSite(site: string, device: string) returns (r: Result)
      requires Integral(View())
      modifies this
      ensures View() == Apply(old(View()), Op.UnassignSite(site, device)) && Integral(View())
      ensures r == ResultOf(old(View()), Op.UnassignSite(site, device))
      ensures Answered(old(View()), Op.UnassignSite(site, device), r) && (r == Ok ==> Done(old(View()), View(), Op.UnassignSite(site, device)))
    {
      hide Answered, Done, Integral;
      StepKeepsIntegral(View(), Op.UnassignSite(site, device));
      AnsweredByRule(View(), Op.UnassignSite(site, device));
      DoneByRule(View(), Op.UnassignSite(site, device));
      if site == "" || device == "" {
        return Invalid;
      }
      siteDevices := siteDevices - {(site, device)};
      r := Ok;
    }

    method UnassignFloor(site: string, level: int, device: string) returns (r: Result)
      requires Integral(View())
      modifies this
      ensures View() == Apply(old(View()), Op.UnassignFloor(site, level, device)) && Integral(View())
      ensures r == ResultOf(old(View()), Op.UnassignFloor(site, level, device))
      ensures Answered(old(View()), Op.UnassignFloor(site, level, device), r) && (r == Ok ==> Done(old(View()), View(), Op.UnassignFloor(site, level, device)))
    {
      hide Answered, Done, Integral;
      StepKeepsIntegral(View(), Op.UnassignFloor(site, level, device));
      AnsweredByRule(View(), Op.UnassignFloor(site, level, device));
      DoneByRule(View(), Op.UnassignFloor(site, level, device));
      if site == "" || device == "" {
        return Invalid;
      }
      floorDevices := floorDevices - {(site, level, device)};
      r := Ok;
    }

    method UnassignRoom(site: string, room: string, device: string) returns (r: Result)
      requires Integral(View())
      modifies this
      ensures View() == Apply(old(View()), Op.UnassignRoom(site, room, device)) && Integral(View())
      ensures r == ResultOf(old(View()), Op.UnassignRoom(site, room, device))
      ensures Answered(old(View()), Op.UnassignRoom(site, room, device), r) && (r == Ok ==> Done(old(View()), View(), Op.UnassignRoom(site, room, device)))
    {
      hide Answered, Done, Integral;
      StepKeepsIntegral(View(), Op.UnassignRoom(site, room, device));
      AnsweredByRule(View(), Op.UnassignRoom(site, room, device));
      DoneByRule(View(), Op.UnassignRoom(site, room, device));
      if site == "" || room == "" || device == "" {
        return Invalid;
      }
      roomDevices := roomDevices - {(room, device)};
      r := Ok;
    }

    /** Verifies the target first, then clears every assignment of the device, then inserts the new one. */
    method SetLocation(site: string, device: string, location: Location) returns (r: Result)
      requires Integral(View())
      modifies this
      ensures View() == Apply(old(View()), Op.SetLocation(site, device, location)) && Integral(View())
      ensures r == ResultOf(old(View()), Op.SetLocation(site, device, location))
      ensures Answered(old(View()), Op.SetLocation(site, device, location), r) && (r == Ok ==> Done(old(View()), View(), Op.SetLocation(site, device, location)))
      ensures r == Ok ==> ExactlyAt(View(), device, location)
    {
      hide Answered, Done, Integral;
      StepKeepsIntegral(View(), Op.SetLocation(site, device, location));
      AnsweredByRule(View(), Op.SetLocation(site, device, location));
      DoneByRule(View(), Op.SetLocation(site, device, location));
      if site == "" || device == "" {
        return Invalid;
      }
      if !DeviceInSite(View(), device, site) {
        return NotFound;
      }
      if location.OnFloor? && !FloorExists(View(), site, location.level) {
        return FloorNotFound;
      }
      if location.InRoom? && !RoomInSite(View(), location.room, site) {
        return RoomNotFound;
      }
      SetLocationIsExact(View(), site, device, location);
      siteDevices := ClearSite(siteDevices, device);
      floorDevices := ClearFloors(floorDevices, device);
      roomDevices := ClearSite(roomDevices, device);
      match location {
        case Nowhere =>
        case AtSite => siteDevices := siteDevices + {(site, device)};
        case OnFloor(level) => floorDevices := floorDevices + {(site, level, device)};
        case InRoom(room) => roomDevices := roomDevices + {(room, device)};
      }
      r := Ok;
    }

    /** Reads one row of the join, whichever the query yields first. */
    method GetLocation(site: string, device: string) returns (r: Result, location: Location)
      ensures r == if site == "" || device == "" then Invalid else if DeviceInSite(View(), device, site) then Ok else NotFound
      ensures r == Ok <==> site != "" && device != "" && LiveDevice(View(), device, site)
      ensures r == Ok ==> Located(View(), device, location)
      ensures r == Ok && location != Nowhere ==> Placed(View(), device, location)
      ensures r == Ok ==> (location == Nowhere <==> forall l :: !Placed(View(), device, l))
      ensures forall there :: r == Ok && ExactlyAt(View(), device, there) ==> location == there
    {
      location := Nowhere;
      if site == "" || device == "" {
        return Invalid, Nowhere;
      }
      if !DeviceInSite(View(), device, site) {
        return NotFound, Nowhere;
      }
      var isSite := exists s :: s in siteDevices && s.1 == device;
      var onFloors := set f | f in floorDevices && f.2 == device :: f.1;
      var inRooms := set x | x in roomDevices && x.1 == device :: x.0;
      var level: Option<int> := None;
      if l :| l in onFloors {
        level := Some(l);
      }
      var room: Option<string> := None;
      if x :| x in inRooms {
        room := Some(x);
      }
      var row := Row(isSite, level, room);
      FloorsOf(View(), device, onFloors);
      RoomsOf(View(), device, inRooms);
      assert isSite <==> Placed(View(), device, AtSite) by {
        if isSite {
          var s :| s in siteDevices && s.1 == device;
          assert (s.0, device) in View().siteDevices;
        }
      }
      LocationIsPlaced(View(), device, row);
      LocatedByRule(View(), device, row);
      location := LocationOf(row);
      r := Ok;
    }
  }

  lemma FloorsOf(db: Db, device: string, levels: set<int>)
    requires levels == set f | f in db.floorDevices && f.2 == device :: f.1
    ensures forall l :: Placed(db, device, OnFloor(l)) <==> l in levels
  {
    forall l
      ensures Placed(db, device, OnFloor(l)) <==> l in levels
    {
      if l in levels {
        var f :| f in db.floorDevices && f.2 == device && f.1 == l;
        assert (f.0, l, device) in db.floorDevices;
      }
    }
  }

  lemma RoomsOf(db: Db, device: string, rooms: set<string>)
    requires rooms == set x | x in db.roomDevices && x.1 == device :: x.0
    ensures forall r :: Placed(db, device, InRoom(r)) <==> r in rooms
  {
  }
}
