/**
  The routes and services that change reservations and rooms in place, each
  proved to be one step of the state machine and to keep its invariant.
 */
module FrontDesk {
  import opened Wrappers
  import opened Hotel
  import opened Bookings
  import RoomPlan
  import Collections

  datatype Reply = Done | ReservationMissing | RoomMissing | LineMissing

  class Desk {
    var rooms: seq<Room>
    var nextRoom: int
    var reservations: Table
    var nextId: int
    var autoAssign: bool
    ghost var overridden: set<int>

    ghost function Snapshot(): State
      reads this
    {
      State(rooms, nextRoom, reservations, nextId, autoAssign)
    }

    ghost predicate Valid()
      reads this
    {
      Safe(Snapshot(), overridden)
    }

    /** The desk moved by exactly this step, and the invariant holds again. */
    twostate predicate Stepped(x: Action)
      reads this
    {
      && Snapshot() == Apply(old(Snapshot()), x)
      && overridden == Blame(old(Snapshot()), x, old(overridden))
      && Valid()
    }

    constructor ()
      ensures Valid() && reservations == map[] && rooms == [] && overridden == {} && !autoAssign
    {
      rooms, nextRoom, reservations, nextId, autoAssign, overridden := [], 1, map[], 1, false, {};
    }

    // ---- Automatic assignment -----------------------------------------------

    ghost function WithLine(rooms: seq<Room>, table: Table, id: int, i: nat, avoid: set<int>): Table
      requires id in table && i < |table[id].lines|
    {
      var r := table[id];
      table[id := r.(lines := r.lines[i :=
        Settle(rooms, r.lines[i], OccupiedRoomIds(table, r.checkin, r.checkout, Some(id)) + avoid)])]
    }

    /** One line: it keeps its room, or gets the first free one outside `avoid`. */
    method SettleLine(id: int, i: nat, avoid: set<int>)
      requires id in reservations && i < |reservations[id].lines|
      modifies this`reservations
      ensures reservations == WithLine(rooms, old(reservations), id, i, avoid)
    {
      var r := reservations[id];
      var line := r.lines[i];
      if line.assignedRoom.None? {
        var room := FindFreeRoom(rooms, reservations, line.roomType, r.checkin, r.checkout, Some(id), avoid);
        if room.Some? {
          reservations := reservations[id := r.(lines := r.lines[i := line.(assignedRoom := room)])];
          return;
        }
      }
      assert r.lines[i := line] == r.lines;
      assert reservations[id := r] == reservations;
    }

    /** Serve the room lines in order, avoiding the rooms this call has already seen used. */
    method AssignLinesFor(id: int)
      requires id in reservations
      modifies this`reservations
      ensures var r := old(reservations)[id];
        reservations == old(reservations)[id := r.(lines :=
          AssignLines(rooms, r.lines, OccupiedRoomIds(old(reservations), r.checkin, r.checkout, Some(id))))]
    {
      var r := reservations[id];
      ghost var occupied := OccupiedRoomIds(reservations, r.checkin, r.checkout, Some(id));
      var assignedThisCall: set<int> := {};
      ghost var lines := r.lines;
      AssignLinesKeeps(rooms, r.lines, occupied);
      assert occupied + {} == occupied;
      for i := 0 to |r.lines|
        invariant Settled(rooms, r.lines, lines, i, occupied, occupied + assignedThisCall)
        invariant reservations == old(reservations)[id := r.(lines := lines)]
      {
        OneLineMore(rooms, old(reservations), reservations, id, lines, i, assignedThisCall);
        SettleNext(rooms, r.lines, lines, i, occupied, occupied + assignedThisCall);
        SettleLine(id, i, assignedThisCall);
        lines := lines[i := Settle(rooms, lines[i], occupied + assignedThisCall)];
        UseMore(occupied, assignedThisCall, lines[i]);
        var room := reservations[id].lines[i].assignedRoom;
        if room.Some? {
          assignedThisCall := assignedThisCall + {room.value};
        }
      }
      assert lines == AssignLines(rooms, r.lines, occupied);
    }

    lemma OneLineMore(rooms: seq<Room>, start: Table, table: Table, id: int, lines: seq<Line>, i: nat, avoid: set<int>)
      requires id in start && i < |lines| && table == start[id := start[id].(lines := lines)]
      ensures var r := start[id];
        var occupied := OccupiedRoomIds(start, r.checkin, r.checkout, Some(id));
        WithLine(rooms, table, id, i, avoid)
            == start[id := r.(lines := lines[i := Settle(rooms, lines[i], occupied + avoid)])]
    {
      OccupiedIgnoresSelf(start, table, id, start[id].checkin, start[id].checkout);
    }

    lemma UseMore(occupied: set<int>, used: set<int>, line: Line)
      ensures Use(occupied + used, line) == occupied + Use(used, line)
    {
    }

    /** Give each unassigned line a free room, or the reservation itself when it has no lines. */
    method AssignRoomsFor(id: int)
      requires id in reservations
      modifies this`reservations
      ensures var r := old(reservations)[id];
        reservations == old(reservations)[id :=
          AssignRooms(rooms, OccupiedRoomIds(old(reservations), r.checkin, r.checkout, Some(id)), r)]
    {
      var r := reservations[id];
      if r.lines != [] {
        AssignLinesFor(id);
      } else if r.roomType.Some? && r.roomType.value != "" && r.assignedRoom.None? {
        assert OccupiedRoomIds(reservations, r.checkin, r.checkout, Some(id)) + {}
            == OccupiedRoomIds(reservations, r.checkin, r.checkout, Some(id));
        var room := FindFreeRoom(rooms, reservations, r.roomType.value, r.checkin, r.checkout, Some(id), {});
        if room.Some? {
          reservations := reservations[id := r.(assignedRoom := room)];
        }
      }
    }

    /** Clear every assignment of the reservation, then assign again. */
    method ReassignRoomsFor(id: int)
      requires id in reservations
      modifies this`reservations
      ensures reservations == Hotel.Reassign(rooms, old(reservations), id)
    {
      var r := reservations[id];
      reservations := reservations[id := r.(assignedRoom := None)];
      for i := 0 to |r.lines|
        invariant id in reservations
        invariant reservations == old(reservations)[id := r.(assignedRoom := None, lines := reservations[id].lines)]
        invariant |reservations[id].lines| == |r.lines|
        invariant forall k :: 0 <= k < |r.lines| ==>
          reservations[id].lines[k] == if k < i then r.lines[k].(assignedRoom := None) else r.lines[k]
      {
        var lines := reservations[id].lines;
        reservations := reservations[id := reservations[id].(lines := lines[i := lines[i].(assignedRoom := None)])];
      }
      assert reservations[id].lines == Clear(r).lines;
      assert reservations == old(reservations)[id := Clear(r)];
      OccupiedIgnoresSelf(old(reservations), reservations, id, r.checkin, r.checkout);
      AssignRoomsFor(id);
    }

    // ---- Routes -------------------------------------------------------------

    /** No reservation but this one is touched. */
    twostate predicate OnlyRow(id: int)
      reads this
    {
      reservations - {id} == old(reservations) - {id}
    }

    method CreateReservation(draft: Reservation) returns (id: int)
      requires Valid()
      modifies this
      ensures Stepped(Create(draft)) && id == old(nextId) && id in reservations
      ensures id !in old(reservations) && OnlyRow(id) && SameButRooms(reservations[id], draft)
      ensures autoAssign ==> ServedInOrder(rooms, old(reservations), id, reservations[id])
      ensures !autoAssign ==> NoRooms(reservations[id])
    {
      CreateServesInOrder(Snapshot(), draft);
      StepIsSafe(Snapshot(), Create(draft), overridden);
      overridden := Blame(Snapshot(), Create(draft), overridden);
      id := nextId;
      reservations := reservations[id := Clear(draft)];
      nextId := nextId + 1;
      if autoAssign {
        OccupiedIgnoresSelf(old(reservations), reservations, id, draft.checkin, draft.checkout);
        AssignRoomsFor(id);
      }
    }

    method CreateWalkin(guest: string, today: int, checkout: int, roomId: int, ref: string, now: int) returns (id: int)
      requires Valid()
      modifies this
      ensures Stepped(Walkin(guest, today, checkout, roomId, ref, now)) && id == old(nextId)
      ensures id !in old(reservations) && id in reservations && OnlyRow(id)
      ensures var r := reservations[id];
        && r.externalRef == Some(ref) && r.channel == "01" && r.guest == guest && r.status == Manual
        && r.checkin == today && r.checkout == checkout && r.lines == [] && r.createdAt == now
        && (forall room :: room in rooms && room.id == roomId ==>
              r.roomType == Some(room.category) && r.assignedRoom == Some(roomId))
        && ((forall room :: room in rooms ==> room.id != roomId) ==> r.roomType.None? && r.assignedRoom.None?)
    {
      var x := Walkin(guest, today, checkout, roomId, ref, now);
      StepIsSafe(Snapshot(), x, overridden);
      overridden := Blame(Snapshot(), x, overridden);
      var room := RoomById(rooms, roomId);
      id := nextId;
      var category, held := None, None;
      if room.Some? {
        category, held := Some(room.value.category), Some(room.value.id);
      }
      var row := Reservation(Some(ref), "01", guest, today, checkout, category, Manual, held, [], now);
      reservations := reservations[id := row];
      nextId := nextId + 1;
    }

    /** A partial update; it fails as a whole when a required column is sent as null. */
    method UpdateReservation(x: Action) returns (updated: bool)
      requires Valid() && x.Patch?
      modifies this
      ensures Stepped(x)
      ensures updated <==>
        x.id in old(reservations) && !x.newGuest.Null? && !x.from.Null? && !x.to.Null? && !x.newStatus.Null?
      ensures OnlyRow(x.id) && (!updated ==> reservations == old(reservations))
      ensures updated ==> x.id in reservations && Patched(old(reservations)[x.id], reservations[x.id], x)
    {
      StepIsSafe(Snapshot(), x, overridden);
      overridden := Blame(Snapshot(), x, overridden);
      updated := x.id in reservations && !PatchFails(x);
      if updated {
        PatchReplacesFields(reservations[x.id], x);
        var r := reservations[x.id];
        if x.newGuest.To? { r := r.(guest := x.newGuest.value); }
        if x.from.To? { r := r.(checkin := x.from.value); }
        if x.to.To? { r := r.(checkout := x.to.value); }
        if x.roomType.Null? { r := r.(roomType := None); }
        if x.roomType.To? { r := r.(roomType := Some(x.roomType.value)); }
        if x.newStatus.To? { r := r.(status := x.newStatus.value); }
        assert r == PatchRow(reservations[x.id], x);
        reservations := reservations[x.id := r];
      }
    }

    /** The row has this status and is otherwise as before. */
    twostate predicate OnlyStatus(id: int, status: Status)
      requires id in old(reservations)
      reads this
    {
      && id in reservations && reservations[id].status == status
      && reservations[id].(status := old(reservations)[id].status) == old(reservations)[id]
    }

    /** The status form of the detail page; it can bring a cancelled reservation back. */
    method ChangeStatus(id: int, status: Status) returns (changed: bool)
      requires Valid()
      modifies this
      ensures Stepped(SetStatus(id, status))
      ensures changed == (id in old(reservations) && old(reservations)[id].status != status)
      ensures OnlyRow(id) && (id in old(reservations) ==> OnlyStatus(id, status))
    {
      StepIsSafe(Snapshot(), SetStatus(id, status), overridden);
      overridden := Blame(Snapshot(), SetStatus(id, status), overridden);
      changed := id in reservations && reservations[id].status != status;
      if changed {
        reservations := reservations[id := reservations[id].(status := status)];
      } else if id in reservations {
        assert reservations[id := reservations[id].(status := status)] == reservations;
      }
    }

    method CancelReservation(id: int) returns (found: bool)
      requires Valid()
      modifies this
      ensures Stepped(Cancel(id)) && found == (id in old(reservations))
      ensures OnlyRow(id) && (found ==> OnlyStatus(id, Cancelled))
    {
      StepIsSafe(Snapshot(), Cancel(id), overridden);
      overridden := Blame(Snapshot(), Cancel(id), overridden);
      found := id in reservations;
      if found {
        reservations := reservations[id := reservations[id].(status := Cancelled)];
      }
    }

    /** Only a cancelled reservation can be deleted. */
    method DeleteReservation(id: int) returns (deleted: bool)
      requires Valid()
      modifies this
      ensures Stepped(Delete(id)) && deleted == (id in old(reservations) && old(reservations)[id].status == Cancelled)
      ensures reservations == if deleted then old(reservations) - {id} else old(reservations)
    {
      StepIsSafe(Snapshot(), Delete(id), overridden);
      overridden := Blame(Snapshot(), Delete(id), overridden);
      deleted := id in reservations && reservations[id].status == Cancelled;
      if deleted {
        reservations := reservations - {id};
      }
    }

    method ReassignRoom(id: int) returns (found: bool)
      requires Valid()
      modifies this
      ensures Stepped(Action.Reassign(id)) && found == (id in old(reservations))
      ensures forall i, b, j :: !Clash(reservations, id, i, b, j) && !Clash(reservations, b, j, id, i)
      ensures OnlyRow(id)
      ensures found ==>
        && id in reservations && SameButRooms(reservations[id], old(reservations)[id])
        && ServedInOrder(rooms, old(reservations), id, reservations[id])
    {
      if id in reservations { ReassignServesInOrder(Snapshot(), id); }
      StepIsSafe(Snapshot(), Action.Reassign(id), overridden);
      ReassignRemovesClashes(Snapshot(), id, overridden);
      overridden := Blame(Snapshot(), Action.Reassign(id), overridden);
      found := id in reservations;
      if found {
        ReassignRoomsFor(id);
      }
    }

    /** One line with this id has the target, and all other lines are as before. */
    ghost predicate OneLineSet(before: seq<Line>, lines: seq<Line>, id: int, target: Option<int>)
      requires |before| == |lines|
    {
      exists i :: 0 <= i < |lines| && lines[i].id == id && lines[i].assignedRoom == target
        && (forall j :: 0 <= j < |lines| && j != i ==> lines[j] == before[j])
    }

    /** Set or clear a room by hand, with no availability check. */
    method AssignRoomManually(id: int, line: Option<int>, target: Option<int>) returns (reply: Reply)
      requires Valid()
      modifies this
      ensures Stepped(AssignManually(id, line, target))
      ensures reply == if id !in old(reservations) then ReservationMissing
        else if target.Some? && RoomById(rooms, target.value).None? then RoomMissing
        else if line.Some? && LineIndex(old(reservations)[id].lines, line.value).None? then LineMissing
        else Done
      ensures OnlyRow(id) && (reply != Done ==> reservations == old(reservations))
      ensures reply == Done ==>
        var before, r := old(reservations)[id], reservations[id];
        && SameButRooms(r, before)
        && (line.None? ==> r.assignedRoom == target && r.lines == before.lines)
        && (line.Some? ==>
              r.assignedRoom == before.assignedRoom && OneLineSet(before.lines, r.lines, line.value, target))
    {
      var x := AssignManually(id, line, target);
      StepIsSafe(Snapshot(), x, overridden);
      overridden := Blame(Snapshot(), x, overridden);
      if id !in reservations { return ReservationMissing; }
      if target.Some? && RoomById(rooms, target.value).None? { return RoomMissing; }
      var r := reservations[id];
      if line.Some? {
        var i := LineIndex(r.lines, line.value);
        if i.None? { return LineMissing; }
        reservations := reservations[id := r.(lines := r.lines[i.value := r.lines[i.value].(assignedRoom := target)])];
        assert reservations[id].lines[i.value].id == line.value;
      } else {
        reservations := reservations[id := r.(assignedRoom := target)];
      }
      reply := Done;
    }

    /** Delete a room; the foreign keys that point to it become null. */
    method DeleteRoom(roomId: int) returns (found: bool)
      requires Valid()
      modifies this
      ensures Stepped(Action.DeleteRoom(roomId)) && found == RoomById(old(rooms), roomId).Some?
      ensures !found ==> rooms == old(rooms) && reservations == old(reservations)
      ensures found ==> OneMore(old(rooms), rooms, RoomById(old(rooms), roomId).value)
      ensures found ==> Emptied(old(reservations), reservations, roomId)
    {
      var x := Action.DeleteRoom(roomId);
      StepIsSafe(Snapshot(), x, overridden);
      overridden := Blame(Snapshot(), x, overridden);
      found := RoomById(rooms, roomId).Some?;
      if found {
        DeleteRoomEmptiesSlots(Snapshot(), roomId);
        rooms := WithoutRoom(rooms, roomId);
        reservations := map id | id in reservations :: VacateRow(reservations[id], roomId);
        assert Snapshot() == Apply(old(Snapshot()), x);
      }
    }

    /** A new room under the next id; its place in the list is where its number sorts. */
    method AddRoom(number: string, category: string, active: bool, position: nat) returns (stored: bool)
      requires Valid()
      modifies this
      ensures Stepped(Action.AddRoom(number, category, active, position))
      ensures stored <==> forall i :: 0 <= i < |old(rooms)| ==> old(rooms)[i].number != number
      ensures !stored ==> rooms == old(rooms)
      ensures stored ==> OneMore(rooms, old(rooms), Room(old(nextRoom), number, category, active))
    {
      var x := Action.AddRoom(number, category, active, position);
      StepIsSafe(Snapshot(), x, overridden);
      overridden := Blame(Snapshot(), x, overridden);
      var row := Room(nextRoom, number, category, active);
      stored := !NumberTaken(rooms, row);
      if stored {
        InsertTakesOut(rooms, row, position);
        rooms := InsertAt(rooms, row, position);
        nextRoom := nextRoom + 1;
      }
    }

    ghost predicate NobodyElseHas(rooms: seq<Room>, id: int, number: string) {
      forall i :: 0 <= i < |rooms| && rooms[i].id != id ==> rooms[i].number != number
    }

    /** A partial update of a room; it fails as a whole. */
    method EditRoom(x: Action) returns (stored: bool)
      requires Valid() && x.EditRoom?
      modifies this
      ensures Stepped(x) && stored == !EditRefused(old(Snapshot()), x) && reservations == old(reservations)
      ensures !stored ==> rooms == old(rooms)
      ensures stored ==> RoomById(old(rooms), x.roomId).Some?
      ensures stored <==>
        var found := RoomById(old(rooms), x.roomId);
        && found.Some? && !x.newNumber.Null? && !x.newCategory.Null? && !x.newActive.Null?
        && NobodyElseHas(old(rooms), x.roomId, if x.newNumber.To? then x.newNumber.value else found.value.number)
      ensures stored ==> RoomReplaced(old(rooms), rooms, RoomById(old(rooms), x.roomId).value, x)
    {
      StepIsSafe(Snapshot(), x, overridden);
      overridden := Blame(Snapshot(), x, overridden);
      var found := RoomById(rooms, x.roomId);
      if found.None? { return false; }
      if x.newNumber.Null? || x.newCategory.Null? || x.newActive.Null? { return false; }
      var room := found.value;
      if x.newNumber.To? { room := room.(number := x.newNumber.value); }
      if x.newCategory.To? { room := room.(category := x.newCategory.value); }
      if x.newActive.To? { room := room.(active := x.newActive.value); }
      stored := !NumberTaken(rooms, room);
      if stored {
        EditReplacesOneRoom(Snapshot(), x);
        rooms := InsertAt(WithoutRoom(rooms, x.roomId), room, x.position);
      }
    }

    // ---- The room plan ------------------------------------------------------

    /** The rows of one of the two plan queries: slot 0 of each reservation, or the slots of its lines. */
    method QueryRange(from: int, to: int, lines: bool) returns (rows: seq<RoomPlan.Row>)
      ensures RoomPlan.ListsKind(reservations, rows, from, to, lines)
    {
      rows := [];
      var todo: set<int> := reservations.Keys;
      while todo != {}
        invariant todo <= reservations.Keys
        invariant forall row :: row in rows <==> exists id :: id !in todo && Matches(id, row, from, to, lines)
        decreases todo
      {
        var id := Collections.AnyOf(todo);
        var own := RowsOf(id, from, to, lines);
        rows := rows + own;
        todo := todo - {id};
      }
      forall row ensures row in rows <==> RoomPlan.KindRow(reservations, row, from, to, lines) {
        if RoomPlan.KindRow(reservations, row, from, to, lines) {
          var id, k :| RoomPlan.InRange(reservations, id, k, from, to) && (k > 0) == lines
            && row == RoomPlan.RowOf(reservations, id, k);
          assert Matches(id, row, from, to, lines);
        }
        if id :| Matches(id, row, from, to, lines) {
          var k :| RoomPlan.InRange(reservations, id, k, from, to) && (k > 0) == lines
            && row == RoomPlan.RowOf(reservations, id, k);
        }
      }
    }

    ghost predicate Matches(id: int, row: RoomPlan.Row, from: int, to: int, lines: bool)
      reads this
    {
      exists k ::
          RoomPlan.InRange(reservations, id, k, from, to) && (k > 0) == lines
              && row == RoomPlan.RowOf(reservations, id, k)
    }

    method RowsOf(id: int, from: int, to: int, lines: bool) returns (rows: seq<RoomPlan.Row>)
      requires id in reservations
      ensures forall row :: row in rows <==> Matches(id, row, from, to, lines)
    {
      rows := [];
      for k := 0 to |reservations[id].lines| + 1
        invariant forall row :: row in rows <==> (exists j ::
          0 <= j < k && RoomPlan.InRange(reservations, id, j, from, to) && (j > 0) == lines
              && row == RoomPlan.RowOf(reservations, id, j))
      {
        if RoomPlan.InRange(reservations, id, k, from, to) && (k > 0) == lines {
          rows := rows + [RoomPlan.RowOf(reservations, id, k)];
        }
      }
    }

    /**
      Every cell of the plan shows the last row on it, the rows of the reservations first, then
      those of their lines.
     */
    method ShowRoomPlan(from: int, to: int) returns (grid: RoomPlan.Grid)
      ensures exists own, lines ::
        && RoomPlan.ListsKind(reservations, own, from, to, false)
        && RoomPlan.ListsKind(reservations, lines, from, to, true)
        && RoomPlan.ListsRange(reservations, own + lines, from, to) && RoomPlan.Shows(grid, own + lines, from, to)
      ensures forall room, day ::
        var cell := RoomPlan.CellAt(grid, room, day);
        && (cell.Some? ==>
              && from <= day < to && RoomPlan.StaysIn(reservations, cell.value.0, room, day)
              && cell.value.1 == reservations[cell.value.0].guest)
        && (from <= day < to && (exists id :: RoomPlan.StaysIn(reservations, id, room, day)) ==> cell.Some?)
    {
      var own := QueryRange(from, to, false);
      var lines := QueryRange(from, to, true);
      BothKinds(own, lines, from, to);
      grid := RoomPlan.RoomPlanGrid(own, lines, from, to);
      forall room, day {
        RoomPlan.CellsAreStays(reservations, own + lines, from, to, grid, room, day);
      }
    }

    /** Who is in which room on a day. */
    method ShowOccupied(day: int) returns (occupied: map<int, string>)
      ensures forall room :: room in occupied <==> exists id :: RoomPlan.StaysIn(reservations, id, room, day)
      ensures forall room :: room in occupied ==>
        exists id :: RoomPlan.StaysIn(reservations, id, room, day) && reservations[id].guest == occupied[room]
      ensures RoomPlan.AnswersDay(reservations, occupied, day)
    {
      var own := QueryRange(day, day + 1, false);
      var lines := QueryRange(day, day + 1, true);
      BothKinds(own, lines, day, day + 1);
      RoomPlan.DayIsARange(reservations, own + lines, day);
      occupied := RoomPlan.RoomsOccupiedOnDate(own, lines);
      forall room {
        RoomPlan.NamesAreGuests(reservations, own + lines, day, occupied, room);
      }
    }

    lemma BothKinds(own: seq<RoomPlan.Row>, lines: seq<RoomPlan.Row>, from: int, to: int)
      requires RoomPlan.ListsKind(reservations, own, from, to, false)
      requires RoomPlan.ListsKind(reservations, lines, from, to, true)
      ensures RoomPlan.ListsRange(reservations, own + lines, from, to)
    {
      forall row
        ensures row in own + lines <==> RoomPlan.RangeRow(reservations, row, from, to)
      {
        if RoomPlan.RangeRow(reservations, row, from, to) {
          var id, k :| RoomPlan.InRange(reservations, id, k, from, to) && row == RoomPlan.RowOf(reservations, id, k);
          assert RoomPlan.KindRow(reservations, row, from, to, k > 0);
        }
      }
    }
  }
}
