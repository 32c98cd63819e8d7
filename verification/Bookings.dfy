/**
  The ways the application changes a reservation or a room, as steps of one
  state machine, and double-booking safety over whole runs.

  Steps that bypass the availability check and leave the reservation they touch in
  a double booking put it in a ghost set. Every double booking involves a member of
  that set, and every member is in a double booking.
 */
module Bookings {
  import opened Wrappers
  import opened Hotel
  import Matching

  datatype State = State(rooms: seq<Room>, nextRoom: int, table: Table, nextId: int, autoAssign: bool)

  /** One field of a partial update: left out, sent as null, or sent with a value. */
  datatype Edit<T> = Keep | Null | To(value: T)
  {
    function Or(current: T): T { if To? then value else current }
  }

  datatype Action =
    | Create(draft: Reservation)
    | Walkin(guest: string, today: int, checkout: int, room: int, ref: string, now: int)
    | Patch(id: int, newGuest: Edit<string>, from: Edit<int>, to: Edit<int>,
            roomType: Edit<string>, newStatus: Edit<Status>)
    | SetStatus(id: int, status: Status)
    | Cancel(id: int)
    | Delete(id: int)
    | Reassign(id: int)
    | AssignManually(id: int, line: Option<int>, target: Option<int>)
    | AddRoom(number: string, category: string, active: bool, position: nat)
    | EditRoom(roomId: int, newNumber: Edit<string>, newCategory: Edit<string>, newActive: Edit<bool>, position: nat)
    | DeleteRoom(roomId: int)
    | SetAutoAssign(on: bool)

  // ---- The steps ------------------------------------------------------------

  function CreateRow(s: State, draft: Reservation): State {
    s.(nextId := s.nextId + 1,
       table := if s.autoAssign then Place(s.rooms, s.table, s.nextId, draft) else s.table[s.nextId := Clear(draft)])
  }

  /** A walk-in takes the chosen room as it is; an unknown room leaves it without one. */
  function WalkinRow(rooms: seq<Room>, a: Action): Reservation
    requires a.Walkin?
  {
    var room := RoomById(rooms, a.room);
    Reservation(Some(a.ref), "01", a.guest, a.today, a.checkout,
                if room.Some? then Some(room.value.category) else None,
                Manual, if room.Some? then Some(a.room) else None, [], a.now)
  }

  function RoomById(rooms: seq<Room>, id: int): (found: Option<Room>)
    ensures found.Some? ==> found.value in rooms && found.value.id == id
    ensures found.None? ==> forall room :: room in rooms ==> room.id != id
  {
    if rooms == [] then None
    else if rooms[0].id == id then Some(rooms[0])
    else RoomById(rooms[1..], id)
  }

  /** Null in a column that must not be null makes the update fail as a whole. */
  predicate PatchFails(a: Action)
    requires a.Patch?
  {
    a.newGuest.Null? || a.from.Null? || a.to.Null? || a.newStatus.Null?
  }

  function PatchRow(r: Reservation, a: Action): Reservation
    requires a.Patch?
  {
    r.(guest := a.newGuest.Or(r.guest), checkin := a.from.Or(r.checkin), checkout := a.to.Or(r.checkout),
       roomType := (match a.roomType case Keep => r.roomType case Null => None case To(t) => Some(t)),
       status := a.newStatus.Or(r.status))
  }

  function LineIndex(lines: seq<Line>, id: int): (index: Option<int>)
    ensures index.Some? ==> 0 <= index.value < |lines| && lines[index.value].id == id
    ensures index.None? ==> forall i :: 0 <= i < |lines| ==> lines[i].id != id
  {
    if lines == [] then None
    else if lines[0].id == id then Some(0)
    else match LineIndex(lines[1..], id) case None => None case Some(i) => Some(i + 1)
  }

  /** The room must exist, and the line, when one is named, must belong to the reservation. */
  predicate AssignAccepted(s: State, a: Action)
    requires a.AssignManually?
  {
    && a.id in s.table
    && (a.target.Some? ==> RoomById(s.rooms, a.target.value).Some?)
    && (a.line.Some? ==> LineIndex(s.table[a.id].lines, a.line.value).Some?)
  }

  function AssignRow(r: Reservation, line: Option<int>, target: Option<int>): Reservation
    requires line.Some? ==> LineIndex(r.lines, line.value).Some?
  {
    if line.None? then r.(assignedRoom := target)
    else
      var i := LineIndex(r.lines, line.value).value;
      r.(lines := r.lines[i := r.lines[i].(assignedRoom := target)])
  }

  function WithoutRoom(rooms: seq<Room>, id: int): seq<Room> {
    if rooms == [] then []
    else (if rooms[0].id == id then [] else [rooms[0]]) + WithoutRoom(rooms[1..], id)
  }

  predicate NumberTaken(rooms: seq<Room>, row: Room) {
    exists i :: 0 <= i < |rooms| && rooms[i].number == row.number && rooms[i].id != row.id
  }

  function NewRoom(s: State, a: Action): Room
    requires a.AddRoom?
  {
    Room(s.nextRoom, a.number, a.category, a.active)
  }

  function EditedRoom(room: Room, a: Action): Room
    requires a.EditRoom?
  {
    room.(number := a.newNumber.Or(room.number), category := a.newCategory.Or(room.category),
          active := a.newActive.Or(room.active))
  }

  /** The room is missing, a required column is sent as null, or the number belongs to another room. */
  predicate EditRefused(s: State, a: Action)
    requires a.EditRoom?
  {
    var room := RoomById(s.rooms, a.roomId);
    room.None? || a.newNumber.Null? || a.newCategory.Null? || a.newActive.Null?
    || NumberTaken(s.rooms, EditedRoom(room.value, a))
  }

  /** The position is where the number sorts. */
  function InsertAt(rooms: seq<Room>, row: Room, position: nat): seq<Room> {
    var p := if position <= |rooms| then position else |rooms|;
    rooms[..p] + [row] + rooms[p..]
  }

  function Vacated(held: Option<int>, roomId: int): Option<int> {
    if held == Some(roomId) then None else held
  }

  /** Deleting a room sets every reference to it to null. */
  function VacateRow(r: Reservation, roomId: int): (v: Reservation)
    ensures |v.lines| == |r.lines|
    ensures forall k :: r.HasSlot(k) ==> v.RoomAt(k) == Vacated(r.RoomAt(k), roomId)
  {
    r.(assignedRoom := Vacated(r.assignedRoom, roomId),
       lines := seq(|r.lines|, i requires 0 <= i < |r.lines| =>
         r.lines[i].(assignedRoom := Vacated(r.lines[i].assignedRoom, roomId))))
  }

  function Apply(s: State, a: Action): State {
    match a
    case Create(draft) => CreateRow(s, draft)
    case Walkin(_, _, _, _, _, _) => s.(nextId := s.nextId + 1, table := s.table[s.nextId := WalkinRow(s.rooms, a)])
    case Patch(id, _, _, _, _, _) =>
      if id !in s.table || PatchFails(a) then s else s.(table := s.table[id := PatchRow(s.table[id], a)])
    case SetStatus(id, status) =>
      if id !in s.table then s else s.(table := s.table[id := s.table[id].(status := status)])
    case Cancel(id) =>
      if id !in s.table then s else s.(table := s.table[id := s.table[id].(status := Cancelled)])
    case Delete(id) =>
      if id in s.table && !s.table[id].Live() then s.(table := s.table - {id}) else s
    case Reassign(id) =>
      if id !in s.table then s else s.(table := Hotel.Reassign(s.rooms, s.table, id))
    case AssignManually(id, line, target) =>
      if AssignAccepted(s, a) then s.(table := s.table[id := AssignRow(s.table[id], line, target)]) else s
    case AddRoom(_, _, _, position) =>
      if NumberTaken(s.rooms, NewRoom(s, a)) then s
      else s.(rooms := InsertAt(s.rooms, NewRoom(s, a), position), nextRoom := s.nextRoom + 1)
    case EditRoom(roomId, _, _, _, position) =>
      if EditRefused(s, a) then s
      else
        var row := EditedRoom(RoomById(s.rooms, roomId).value, a);
        s.(rooms := InsertAt(WithoutRoom(s.rooms, roomId), row, position))
    case DeleteRoom(roomId) =>
      if RoomById(s.rooms, roomId).None? then s
      else s.(rooms := WithoutRoom(s.rooms, roomId), table := map id | id in s.table :: VacateRow(s.table[id], roomId))
    case SetAutoAssign(on) => s.(autoAssign := on)
  }

  // ---- Clashes and blame ----------------------------------------------------

  /** Two different live slots hold the same room on overlapping dates. */
  ghost predicate Clash(table: Table, a: int, i: int, b: int, j: int) {
    && a in table && b in table && (a, i) != (b, j)
    && table[a].HasSlot(i) && table[b].HasSlot(j)
    && table[a].Live() && table[b].Live()
    && table[a].RoomAt(i).Some? && table[a].RoomAt(i) == table[b].RoomAt(j)
    && table[a].Overlaps(table[b].checkin, table[b].checkout)
  }

  ghost predicate InClash(table: Table, id: int) {
    exists i, b, j :: Clash(table, id, i, b, j)
  }

  lemma ClashIsSymmetric(table: Table, a: int, i: int, b: int, j: int)
    requires Clash(table, a, i, b, j)
    ensures Clash(table, b, j, a, i) && InClash(table, a) && InClash(table, b)
  {
    assert Clash(table, b, j, a, i);
  }

  ghost predicate Blamed(table: Table, overridden: set<int>) {
    forall a, i, b, j :: Clash(table, a, i, b, j) ==> a in overridden || b in overridden
  }

  /** A step that may make a live row hold a room without checking it is free. */
  predicate Overrides(before: Reservation, after: Reservation) {
    !before.Live() || before.checkin != after.checkin || before.checkout != after.checkout
  }

  function BlameEdit(before: Reservation, after: Reservation, id: int, overridden: set<int>): set<int> {
    if !after.Live() then overridden - {id}
    else if Overrides(before, after) then overridden + {id}
    else overridden
  }

  /** Who may be to blame after a step: overrides join, a fresh assignment or a cancellation leaves. */
  function Suspects(s: State, a: Action, overridden: set<int>): set<int> {
    match a
    case Create(_) => overridden - {s.nextId}
    case Walkin(_, _, _, room, _, _) =>
      if RoomById(s.rooms, room).Some? then overridden + {s.nextId} else overridden - {s.nextId}
    case Patch(id, _, _, _, _, _) =>
      if id !in s.table || PatchFails(a) then overridden
      else BlameEdit(s.table[id], PatchRow(s.table[id], a), id, overridden)
    case SetStatus(id, status) =>
      if id !in s.table then overridden
      else BlameEdit(s.table[id], s.table[id].(status := status), id, overridden)
    case Cancel(id) => overridden - {id}
    case Delete(id) => if id in s.table && !s.table[id].Live() then overridden - {id} else overridden
    case Reassign(id) => overridden - {id}
    case AssignManually(id, _, target) =>
      if AssignAccepted(s, a) && target.Some? then overridden + {id} else overridden
    case AddRoom(_, _, _, _) => overridden
    case EditRoom(_, _, _, _, _) => overridden
    case DeleteRoom(_) => overridden
    case SetAutoAssign(_) => overridden
  }

  /** The ghost set after a step: the suspects that are in a double booking. */
  ghost function Blame(s: State, a: Action, overridden: set<int>): set<int> {
    set id | id in Suspects(s, a, overridden) && InClash(Apply(s, a).table, id)
  }

  ghost predicate WellFormed(s: State) {
    && Numbered(s.rooms, s.nextRoom)
    && (forall id :: id in s.table ==> id < s.nextId)
  }

  ghost predicate Safe(s: State, overridden: set<int>) {
    WellFormed(s) && Blamed(s.table, overridden) && forall id :: id in overridden ==> InClash(s.table, id)
  }

  /** The ghost set is empty exactly when nothing is double booked. */
  lemma EmptyExactlyWithoutClash(s: State, overridden: set<int>)
    requires Safe(s, overridden)
    ensures overridden == {} <==> forall a, i, b, j :: !Clash(s.table, a, i, b, j)
  {
    if a, i, b, j :| Clash(s.table, a, i, b, j) {
      assert a in overridden || b in overridden;
    } else {
      forall id ensures id !in overridden {
        assert id in overridden ==> InClash(s.table, id);
      }
    }
  }

  // ---- When a step double books ---------------------------------------------

  /**
    For the stay [from, to) slot k's room is taken by another live stay, or by another slot of
    the reservation itself.
   */
  predicate Contested(table: Table, id: int, r: Reservation, k: int, from: int, to: int)
    requires r.HasSlot(k)
  {
    r.RoomAt(k).Some? &&
    (r.RoomAt(k).value in OccupiedRoomIds(table, from, to, Some(id)) || (from < to && HeldTwice(r, k)))
  }

  predicate AnyContested(table: Table, id: int, r: Reservation, from: int, to: int) {
    exists k :: 0 <= k <= |r.lines| && Contested(table, id, r, k, from, to)
  }

  predicate HeldTwice(row: Reservation, k: int)
    requires row.HasSlot(k)
  {
    exists j :: 0 <= j <= |row.lines| && j != k && row.RoomAt(j) == row.RoomAt(k)
  }

  ghost predicate SlotClashes(table: Table, id: int, k: int) {
    exists b, j :: Clash(table, id, k, b, j)
  }

  /** Storing a row double books one of its slots exactly when the row is live and the slot's room contested. */
  lemma SlotClashesExactly(table: Table, id: int, row: Reservation, k: int)
    requires row.HasSlot(k)
    ensures SlotClashes(table[id := row], id, k)
        <==> row.Live() && Contested(table, id, row, k, row.checkin, row.checkout)
  {
    var after := table[id := row];
    if b, j :| Clash(after, id, k, b, j) {
      if b != id {
        HeldIsOccupied(table, b, j, row.checkin, row.checkout, id);
      } else {
        assert 0 <= j <= |row.lines| && j != k && row.RoomAt(j) == row.RoomAt(k);
      }
    }
    if row.Live() && Contested(table, id, row, k, row.checkin, row.checkout) {
      var room := row.RoomAt(k).value;
      if room in OccupiedRoomIds(table, row.checkin, row.checkout, Some(id)) {
        var b, j :| b in table && Blocks(table, b, row.checkin, row.checkout, Some(id)) &&
          0 <= j <= |table[b].lines| && table[b].RoomAt(j) == Some(room);
        assert Clash(after, id, k, b, j);
      } else {
        var j :| 0 <= j <= |row.lines| && j != k && row.RoomAt(j) == row.RoomAt(k);
        assert Clash(after, id, k, id, j);
      }
    }
  }

  lemma RowClashesExactly(table: Table, id: int, row: Reservation)
    ensures InClash(table[id := row], id) <==> row.Live() && AnyContested(table, id, row, row.checkin, row.checkout)
  {
    var after := table[id := row];
    if InClash(after, id) {
      var k, b, j :| Clash(after, id, k, b, j);
      assert SlotClashes(after, id, k);
      SlotClashesExactly(table, id, row, k);
    }
    if row.Live() && AnyContested(table, id, row, row.checkin, row.checkout) {
      var k :| 0 <= k <= |row.lines| && Contested(table, id, row, k, row.checkin, row.checkout);
      SlotClashesExactly(table, id, row, k);
    }
  }

  /** The slot a manual assignment sets. */
  function SlotOf(r: Reservation, line: Option<int>): (k: int)
    requires line.Some? ==> LineIndex(r.lines, line.value).Some?
    ensures r.HasSlot(k)
  {
    if line.None? then 0 else LineIndex(r.lines, line.value).value + 1
  }

  /**
    A manual assignment double books exactly when the room is occupied, or another slot of the
    reservation holds it.
   */
  lemma ManualAssignClashesExactly(s: State, x: Action)
    requires x.AssignManually? && AssignAccepted(s, x) && x.target.Some? && s.table[x.id].Live()
    ensures var r, k := s.table[x.id], SlotOf(s.table[x.id], x.line);
      SlotClashes(Apply(s, x).table, x.id, k) <==>
        (|| x.target.value in OccupiedRoomIds(s.table, r.checkin, r.checkout, Some(x.id))
         || (r.checkin < r.checkout && exists j :: r.HasSlot(j) && j != k && r.RoomAt(j) == x.target))
  {
    var r, k := s.table[x.id], SlotOf(s.table[x.id], x.line);
    var row := AssignRow(r, x.line, x.target);
    assert row.RoomAt(k) == x.target;
    assert forall j :: r.HasSlot(j) && j != k ==> row.HasSlot(j) && row.RoomAt(j) == r.RoomAt(j);
    if j :| r.HasSlot(j) && j != k && r.RoomAt(j) == x.target {
      assert 0 <= j <= |row.lines| && row.RoomAt(j) == row.RoomAt(k);
    }
    SlotClashesExactly(s.table, x.id, row, k);
  }

  /** A walk-in double books exactly when the chosen room is occupied. */
  lemma WalkinClashesExactly(s: State, x: Action)
    requires WellFormed(s) && x.Walkin? && RoomById(s.rooms, x.room).Some?
    ensures InClash(Apply(s, x).table, s.nextId) <==> x.room in OccupiedRoomIds(s.table, x.today, x.checkout, None)
  {
    var row := WalkinRow(s.rooms, x);
    RowClashesExactly(s.table, s.nextId, row);
    assert OccupiedRoomIds(s.table, x.today, x.checkout, None)
        == OccupiedRoomIds(s.table, x.today, x.checkout, Some(s.nextId));
    assert Contested(s.table, s.nextId, row, 0, x.today, x.checkout)
      <==> x.room in OccupiedRoomIds(s.table, x.today, x.checkout, None);
  }

  lemma SameRooms(table: Table, id: int, r: Reservation, row: Reservation, from: int, to: int)
    requires r.lines == row.lines && r.assignedRoom == row.assignedRoom
    ensures AnyContested(table, id, r, from, to) == AnyContested(table, id, row, from, to)
  {
    assert forall k :: r.HasSlot(k) ==> r.RoomAt(k) == row.RoomAt(k);
    assert forall k :: r.HasSlot(k) ==> HeldTwice(r, k) == HeldTwice(row, k);
    assert forall k :: r.HasSlot(k) ==> Contested(table, id, r, k, from, to) == Contested(table, id, row, k, from, to);
  }

  /** Bringing a cancelled reservation back double books exactly when a room it still holds is contested. */
  lemma UncancelClashesExactly(s: State, id: int, status: Status)
    requires id in s.table && !s.table[id].Live() && status != Cancelled
    ensures var r := s.table[id];
      InClash(Apply(s, SetStatus(id, status)).table, id) <==> AnyContested(s.table, id, r, r.checkin, r.checkout)
  {
    var r, row := s.table[id], s.table[id].(status := status);
    RowClashesExactly(s.table, id, row);
    SameRooms(s.table, id, r, row, r.checkin, r.checkout);
  }

  /** An edit of a live stay double books exactly when a room it holds is contested on the dates it then has. */
  lemma DateEditClashesExactly(s: State, x: Action)
    requires x.Patch? && x.id in s.table && !PatchFails(x) && PatchRow(s.table[x.id], x).Live()
    ensures var r := s.table[x.id];
      InClash(Apply(s, x).table, x.id) <==> AnyContested(s.table, x.id, r, x.from.Or(r.checkin), x.to.Or(r.checkout))
  {
    var r, row := s.table[x.id], PatchRow(s.table[x.id], x);
    RowClashesExactly(s.table, x.id, row);
    SameRooms(s.table, x.id, r, row, row.checkin, row.checkout);
  }

  /** Double bookings do happen: two walk-ins in the only room of a new house. */
  lemma DoubleBookingIsReachable(guest: string, today: int, checkout: int, ref: string, now: int)
    requires today < checkout
    ensures var start := State([], 1, map[], 1, false);
      var x := Walkin(guest, today, checkout, 1, ref, now);
      Safe(start, {}) && Clash(Run(start, {}, [AddRoom("1", "", true, 0), x, x]).0.table, 1, 0, 2, 0)
  {
    var start := State([], 1, map[], 1, false);
    var x := Walkin(guest, today, checkout, 1, ref, now);
    var run := [AddRoom("1", "", true, 0), x, x];
    var s1 := Apply(start, run[0]);
    assert s1.rooms == [Room(1, "1", "", true)];
    assert RoomById(s1.rooms, 1).Some?;
    var s2 := Apply(s1, x);
    var s3 := Apply(s2, x);
    assert run[1..] == [x, x] && [x, x][1..] == [x] && [x][1..] == [];
    assert s3.table[1].RoomAt(0) == s3.table[2].RoomAt(0) == Some(1);
    var o1 := Blame(start, run[0], {});
    var o2 := Blame(s1, x, o1);
    assert Run(start, {}, run) == Run(s1, o1, [x, x]) == Run(s2, o2, [x]) == Run(s3, Blame(s2, x, o2), []);
  }

  // ---- A placed row clashes with nothing ------------------------------------

  /** The rooms given to a cleared row are free for its stay, and no two of its slots share one. */
  lemma PlacedRooms(rooms: seq<Room>, occupied: set<int>, r: Reservation, k: int, l: int)
    requires DistinctRooms(rooms)
    requires r.HasSlot(k) && r.HasSlot(l) && k != l
    ensures var placed := AssignRooms(rooms, occupied, Clear(r));
      && |placed.lines| == |r.lines|
      && (placed.RoomAt(k).Some? ==> placed.RoomAt(k).value !in occupied && placed.RoomAt(k) != placed.RoomAt(l))
  {
    PlacedRoom(rooms, occupied, r, k);
    PlacedRoom(rooms, occupied, r, l);
    if r.lines != [] {
      Matching.GreedyIsMatching(rooms, Clear(r).lines, occupied);
      var chosen := Matching.Choices(AssignLines(rooms, Clear(r).lines, occupied));
      var placed := AssignRooms(rooms, occupied, Clear(r));
      assert placed.RoomAt(0).None?;
      if k > 0 && l > 0 {
        assert placed.RoomAt(k) == chosen[k - 1] && placed.RoomAt(l) == chosen[l - 1];
      }
    }
  }

  lemma PlacedRoom(rooms: seq<Room>, occupied: set<int>, r: Reservation, k: int)
    requires DistinctRooms(rooms) && r.HasSlot(k)
    ensures var placed := AssignRooms(rooms, occupied, Clear(r));
      |placed.lines| == |r.lines| && (placed.RoomAt(k).Some? ==> placed.RoomAt(k).value !in occupied)
  {
    var row := Clear(r);
    AssignLinesKeeps(rooms, row.lines, occupied);
    if row.lines == [] {
      assert k == 0;
      if row.Wanted(0).Some? { FreeRoomsUntaken(rooms, row.Wanted(0).value, occupied); }
    } else if k > 0 {
      Matching.GreedyRank(rooms, row.lines, occupied, k - 1);
      FreeRoomsUntaken(rooms, row.lines[k - 1].roomType, occupied);
    }
  }

  lemma {:induction false} FreeRoomsUntaken(rooms: seq<Room>, category: string, taken: set<int>)
    ensures forall i :: 0 <= i < |FreeRooms(rooms, category, taken)| ==> FreeRooms(rooms, category, taken)[i] !in taken
  {
    if rooms != [] {
      FreeRoomsUntaken(rooms[1..], category, taken);
    }
  }

  /** Storing a freshly assigned row under `id` leaves no clash that involves `id`. */
  lemma PlaceIsSafe(rooms: seq<Room>, table: Table, id: int, r: Reservation)
    requires DistinctRooms(rooms)
    ensures forall a, i, b, j :: Clash(Place(rooms, table, id, r), a, i, b, j) ==> a != id && b != id
  {
    var after := Place(rooms, table, id, r);
    var occupied := OccupiedRoomIds(table, r.checkin, r.checkout, Some(id));
    AssignLinesKeeps(rooms, Clear(r).lines, occupied);
    forall a, i, b, j | Clash(after, a, i, b, j)
      ensures a != id && b != id
    {
      if a == id && b == id {
        PlacedRooms(rooms, occupied, r, i, j);
        assert false;
      } else if a == id {
        HeldIsOccupied(table, b, j, r.checkin, r.checkout, id);
        PlacedRoom(rooms, occupied, r, i);
        assert false;
      } else if b == id {
        HeldIsOccupied(table, a, i, r.checkin, r.checkout, id);
        PlacedRoom(rooms, occupied, r, j);
        assert false;
      }
    }
  }

  lemma HeldIsOccupied(table: Table, b: int, j: int, from: int, to: int, id: int)
    requires b != id && b in table && table[b].HasSlot(j) && table[b].Live() && table[b].Overlaps(from, to)
    requires table[b].RoomAt(j).Some?
    ensures table[b].RoomAt(j).value in OccupiedRoomIds(table, from, to, Some(id))
  {
    assert Blocks(table, b, from, to, Some(id));
  }

  // ---- How a change to one row moves the clashes ----------------------------

  /** Clashes between other rows are the same before and after a change to row `id`. */
  lemma ClashElsewhere(before: Table, after: Table, id: int, a: int, i: int, b: int, j: int)
    requires before - {id} == after - {id} && a != id && b != id
    ensures Clash(before, a, i, b, j) <==> Clash(after, a, i, b, j)
  {
    if a in before { SameElsewhere(before, after, id, a); }
    if a in after { SameElsewhere(after, before, id, a); }
    if b in before { SameElsewhere(before, after, id, b); }
    if b in after { SameElsewhere(after, before, id, b); }
  }

  /** If no clash involves row `id` afterwards, it needs no blame and nothing new is to blame. */
  lemma NoClashAt(before: Table, after: Table, id: int, overridden: set<int>)
    requires before - {id} == after - {id}
    requires forall a, i, b, j :: Clash(after, a, i, b, j) ==> a != id && b != id
    ensures forall a, i, b, j :: Clash(after, a, i, b, j) ==> Clash(before, a, i, b, j)
    ensures Blamed(before, overridden) ==> Blamed(after, overridden - {id})
  {
    forall a, i, b, j | Clash(after, a, i, b, j)
      ensures Clash(before, a, i, b, j)
    {
      ClashElsewhere(before, after, id, a, i, b, j);
    }
  }

  /** Whatever happened to row `id`, blaming it is enough. */
  lemma BlameRow(before: Table, after: Table, id: int, overridden: set<int>)
    requires before - {id} == after - {id} && Blamed(before, overridden)
    ensures Blamed(after, overridden + {id})
  {
    forall a, i, b, j | Clash(after, a, i, b, j) && a != id && b != id
      ensures a in overridden || b in overridden
    {
      ClashElsewhere(before, after, id, a, i, b, j);
    }
  }

  /** A row changed in a way that keeps its stay, stays live and holds no new room adds no clash. */
  lemma NarrowRow(before: Table, id: int, row: Reservation)
    requires id in before && before[id].Live()
    requires before[id].checkin == row.checkin && before[id].checkout == row.checkout
    requires |before[id].lines| == |row.lines|
    requires forall k :: row.HasSlot(k) ==> row.RoomAt(k).None? || row.RoomAt(k) == before[id].RoomAt(k)
    ensures forall a, i, b, j :: Clash(before[id := row], a, i, b, j) ==> Clash(before, a, i, b, j)
  {
  }

  // ---- Steps that never add a clash -----------------------------------------

  /** The steps that check availability or only release rooms. */
  predicate Careful(a: Action) {
    match a
    case Create(_) => true
    case Cancel(_) => true
    case Delete(_) => true
    case Reassign(_) => true
    case AssignManually(_, _, target) => target.None?
    case AddRoom(_, _, _, _) => true
    case EditRoom(_, _, _, _, _) => true
    case DeleteRoom(_) => true
    case SetAutoAssign(_) => true
    case SetStatus(_, status) => status == Cancelled
    case Patch(_, _, from, to, _, newStatus) =>
      newStatus == To(Cancelled) || (from.Keep? && to.Keep? && newStatus.Keep?)
    case Walkin(_, _, _, _, _, _) => false
  }

  lemma CarefulAddsNoClash(s: State, x: Action)
    requires WellFormed(s) && Careful(x)
    ensures forall a, i, b, j :: Clash(Apply(s, x).table, a, i, b, j) ==> Clash(s.table, a, i, b, j)
    ensures Blame(s, x, {}) == {}
  {
    var after := Apply(s, x).table;
    match x
    case Create(draft) =>
      CreateIsSafe(s, draft);
      NoClashAt(s.table, after, s.nextId, {});
    case Reassign(id) =>
      if id in s.table {
        PlaceIsSafe(s.rooms, s.table, id, s.table[id]);
        NoClashAt(s.table, after, id, {});
      }
    case AssignManually(id, line, target) =>
      if AssignAccepted(s, x) {
        var r := s.table[id];
        if r.Live() {
          NarrowRow(s.table, id, AssignRow(r, line, target));
        } else {
          NoClashAt(s.table, after, id, {});
        }
      }
    case DeleteRoom(_) =>
    case Cancel(id) =>
      if id in s.table { NoClashAt(s.table, after, id, {}); }
    case Delete(id) =>
    case AddRoom(_, _, _, _) =>
    case EditRoom(_, _, _, _, _) =>
    case SetAutoAssign(_) =>
    case SetStatus(id, _) =>
      if id in s.table { NoClashAt(s.table, after, id, {}); }
    case Patch(id, _, _, _, _, _) =>
      if id in s.table && !PatchFails(x) {
        var row := PatchRow(s.table[id], x);
        if row.Live() {
          NarrowRow(s.table, id, row);
        } else {
          NoClashAt(s.table, after, id, {});
        }
      }
  }

  lemma CreateIsSafe(s: State, draft: Reservation)
    requires WellFormed(s)
    ensures CreateRow(s, draft).table - {s.nextId} == s.table - {s.nextId}
    ensures forall a, i, b, j :: Clash(CreateRow(s, draft).table, a, i, b, j) ==> a != s.nextId && b != s.nextId
  {
    if s.autoAssign {
      PlaceIsSafe(s.rooms, s.table, s.nextId, draft);
    } else {
      var row := Clear(draft);
      assert forall k :: row.HasSlot(k) ==> row.RoomAt(k).None?;
    }
  }

  /** Reassigning removes every clash the reservation was part of, so it is no longer to blame. */
  lemma ReassignRemovesClashes(s: State, id: int, overridden: set<int>)
    requires WellFormed(s)
    ensures forall i, b, j :: !Clash(Apply(s, Reassign(id)).table, id, i, b, j)
                           && !Clash(Apply(s, Reassign(id)).table, b, j, id, i)
    ensures id !in Blame(s, Reassign(id), overridden)
  {
    if id in s.table {
      PlaceIsSafe(s.rooms, s.table, id, s.table[id]);
    }
  }

  // ---- What the office steps leave in the table -------------------------------

  predicate NoRooms(r: Reservation) {
    r.assignedRoom.None? && forall i :: 0 <= i < |r.lines| ==> r.lines[i].assignedRoom.None?
  }

  /** A booking is stored as given, next to all others as they were, and served in order when that is enabled. */
  lemma CreateServesInOrder(s: State, draft: Reservation)
    requires WellFormed(s)
    ensures var after := Apply(s, Create(draft)).table;
      && s.nextId !in s.table && s.nextId in after && after - {s.nextId} == s.table
      && SameButRooms(after[s.nextId], draft)
      && (s.autoAssign ==> ServedInOrder(s.rooms, s.table, s.nextId, after[s.nextId]))
      && (!s.autoAssign ==> NoRooms(after[s.nextId]))
  {
    assert s.table - {s.nextId} == s.table;
    if s.autoAssign { PlacedIsServed(s.rooms, s.table, s.nextId, draft); }
  }

  /** A reassigned reservation is served in order against all others, which stay as they were. */
  lemma ReassignServesInOrder(s: State, id: int)
    requires id in s.table
    ensures var after := Apply(s, Reassign(id)).table;
      && id in after && after - {id} == s.table - {id}
      && SameButRooms(after[id], s.table[id]) && ServedInOrder(s.rooms, s.table, id, after[id])
  {
    PlacedIsServed(s.rooms, s.table, id, s.table[id]);
  }

  /** The fields sent are replaced, and nothing else. */
  predicate Patched(before: Reservation, r: Reservation, x: Action)
    requires x.Patch?
  {
    && r.guest == (if x.newGuest.To? then x.newGuest.value else before.guest)
    && r.checkin == (if x.from.To? then x.from.value else before.checkin)
    && r.checkout == (if x.to.To? then x.to.value else before.checkout)
    && r.status == (if x.newStatus.To? then x.newStatus.value else before.status)
    && r.roomType == (match x.roomType case Keep => before.roomType case Null => None case To(t) => Some(t))
    && r.assignedRoom == before.assignedRoom && r.lines == before.lines
    && r.externalRef == before.externalRef && r.channel == before.channel && r.createdAt == before.createdAt
  }

  lemma PatchReplacesFields(r: Reservation, x: Action)
    requires x.Patch? && !PatchFails(x)
    ensures Patched(r, PatchRow(r, x), x)
  {
  }

  /** The slots that held the room are empty, and the table is otherwise as before. */
  ghost predicate Emptied(before: Table, after: Table, roomId: int) {
    after.Keys == before.Keys && forall id :: id in after ==> RowEmptied(before[id], after[id], roomId)
  }

  ghost predicate RowEmptied(before: Reservation, r: Reservation, roomId: int) {
    && SameButRooms(r, before)
    && forall k :: before.HasSlot(k) ==>
         r.RoomAt(k) == if before.RoomAt(k) == Some(roomId) then None else before.RoomAt(k)
  }

  /** Deleting a room takes it, and it alone, out of the list, and out of every slot that held it. */
  lemma DeleteRoomEmptiesSlots(s: State, roomId: int)
    requires WellFormed(s) && RoomById(s.rooms, roomId).Some?
    ensures var next := Apply(s, DeleteRoom(roomId));
      OneMore(s.rooms, next.rooms, RoomById(s.rooms, roomId).value) && Emptied(s.table, next.table, roomId)
  {
    WithoutRoomTakesOne(s.rooms, roomId);
    var after := Apply(s, DeleteRoom(roomId)).table;
    forall id | id in after ensures RowEmptied(s.table[id], after[id], roomId) {
      VacateEmpties(s.table[id], roomId);
    }
  }

  lemma VacateEmpties(r: Reservation, roomId: int)
    ensures RowEmptied(r, VacateRow(r, roomId), roomId)
  {
  }

  /** The room has the fields sent, and stands where its number sorts among the others, which are as before. */
  ghost predicate RoomReplaced(before: seq<Room>, rooms: seq<Room>, room: Room, x: Action)
    requires x.EditRoom?
  {
    exists others, row ::
      && OneMore(before, others, room) && OneMore(rooms, others, row) && row.id == room.id
      && row.number == (if x.newNumber.To? then x.newNumber.value else room.number)
      && row.category == (if x.newCategory.To? then x.newCategory.value else room.category)
      && row.active == (if x.newActive.To? then x.newActive.value else room.active)
  }

  lemma EditReplacesOneRoom(s: State, x: Action)
    requires WellFormed(s) && x.EditRoom? && !EditRefused(s, x)
    ensures RoomReplaced(s.rooms, Apply(s, x).rooms, RoomById(s.rooms, x.roomId).value, x)
    ensures Apply(s, x).table == s.table
  {
    var room, others := RoomById(s.rooms, x.roomId).value, WithoutRoom(s.rooms, x.roomId);
    var row := EditedRoom(room, x);
    WithoutRoomTakesOne(s.rooms, x.roomId);
    InsertTakesOut(others, row, x.position);
    ReplacedBy(s.rooms, InsertAt(others, row, x.position), others, room, row, x);
  }

  lemma ReplacedBy(before: seq<Room>, rooms: seq<Room>, others: seq<Room>, room: Room, row: Room, x: Action)
    requires x.EditRoom? && row == EditedRoom(room, x) && OneMore(before, others, room) && OneMore(rooms, others, row)
    requires !x.newNumber.Null? && !x.newCategory.Null? && !x.newActive.Null?
    ensures RoomReplaced(before, rooms, room, x)
  {
    assert row.id == room.id;
  }

  /** Setting or clearing a room by hand changes the named slot alone. */
  lemma ManualAssignSetsOneSlot(s: State, x: Action)
    requires x.AssignManually? && AssignAccepted(s, x)
    ensures var before, after := s.table[x.id], Apply(s, x).table;
      && after.Keys == s.table.Keys && (forall b :: b in after && b != x.id ==> after[b] == s.table[b])
      && SameButRooms(after[x.id], before)
      && (forall k :: before.HasSlot(k) ==>
            after[x.id].RoomAt(k) == if k == SlotOf(before, x.line) then x.target else before.RoomAt(k))
      && (x.line.Some? ==> var k := SlotOf(before, x.line); k > 0 && before.lines[k - 1].id == x.line.value)
      && (x.line.None? ==> SlotOf(before, x.line) == 0)
  {
  }

  // ---- Runs -----------------------------------------------------------------

  lemma {:induction false} WithoutRoomDistinct(rooms: seq<Room>, id: int)
    requires DistinctRooms(rooms)
    ensures DistinctRooms(WithoutRoom(rooms, id))
    ensures forall room :: room in WithoutRoom(rooms, id) <==> room in rooms && room.id != id
  {
    if rooms != [] {
      Matching.DistinctTail(rooms);
      WithoutRoomDistinct(rooms[1..], id);
      var rest := WithoutRoom(rooms[1..], id);
      forall j | 0 <= j < |rest| ensures rest[j].id != rooms[0].id {
        assert rest[j] in rest;
      }
    }
  }

  lemma InsertDistinct(rooms: seq<Room>, row: Room, position: nat)
    requires DistinctRooms(rooms) && forall room :: room in rooms ==> room.id != row.id
    ensures DistinctRooms(InsertAt(rooms, row, position))
  {
    var p := if position <= |rooms| then position else |rooms|;
    var all := InsertAt(rooms, row, position);
    forall i, j | 0 <= i < j < |all| ensures all[i].id != all[j].id {
      assert i != p ==> all[i] == rooms[if i < p then i else i - 1] && all[i] in rooms;
      assert j != p ==> all[j] == rooms[if j < p then j else j - 1] && all[j] in rooms;
    }
  }

  /** `others` is `rooms` without its i-th element, in the same order. */
  predicate TakenOut(rooms: seq<Room>, others: seq<Room>, i: int) {
    0 <= i < |rooms| && others == rooms[..i] + rooms[i + 1..]
  }

  /** One room more than before, this one, and the others in the same order. */
  predicate OneMore(rooms: seq<Room>, before: seq<Room>, row: Room) {
    exists i :: 0 <= i < |rooms| && TakenOut(rooms, before, i) && rooms[i] == row
  }

  lemma InsertTakesOut(rooms: seq<Room>, row: Room, position: nat)
    ensures OneMore(InsertAt(rooms, row, position), rooms, row)
  {
    var p := if position <= |rooms| then position else |rooms|;
    var all := InsertAt(rooms, row, position);
    assert all[..p] == rooms[..p] && all[p + 1..] == rooms[p..];
    assert TakenOut(all, rooms, p) && all[p] == row;
  }

  lemma {:induction false} WithoutMissing(rooms: seq<Room>, id: int)
    requires forall i :: 0 <= i < |rooms| ==> rooms[i].id != id
    ensures WithoutRoom(rooms, id) == rooms
  {
    if rooms != [] { WithoutMissing(rooms[1..], id); }
  }

  lemma TakenOutOfTail(first: Room, rest: seq<Room>, others: seq<Room>, i: int)
    requires TakenOut(rest, others, i)
    ensures TakenOut([first] + rest, [first] + others, i + 1) && ([first] + rest)[i + 1] == rest[i]
  {
    var all := [first] + rest;
    assert all[..i + 1] == [first] + rest[..i] && all[i + 2..] == rest[i + 1..];
  }

  lemma {:induction false} WithoutRoomTakesOne(rooms: seq<Room>, id: int)
    requires DistinctRooms(rooms) && RoomById(rooms, id).Some?
    ensures OneMore(rooms, WithoutRoom(rooms, id), RoomById(rooms, id).value)
  {
    var rest := rooms[1..];
    assert rooms == [rooms[0]] + rest;
    if rooms[0].id == id {
      forall i | 0 <= i < |rest| ensures rest[i].id != id { assert rest[i] == rooms[i + 1]; }
      WithoutMissing(rest, id);
      assert rooms[..0] == [] && TakenOut(rooms, WithoutRoom(rooms, id), 0);
    } else {
      Matching.DistinctTail(rooms);
      WithoutRoomTakesOne(rest, id);
      var i :| 0 <= i < |rest| && TakenOut(rest, WithoutRoom(rest, id), i) && rest[i] == RoomById(rest, id).value;
      TakenOutOfTail(rooms[0], rest, WithoutRoom(rest, id), i);
    }
  }

  /** No two rooms share an id, and all ids are below the next one. */
  ghost predicate Numbered(rooms: seq<Room>, next: int) {
    DistinctRooms(rooms) && forall i :: 0 <= i < |rooms| ==> rooms[i].id < next
  }

  lemma InsertNumbered(rooms: seq<Room>, row: Room, position: nat, next: int)
    requires Numbered(rooms, next) && row.id < next
    requires forall room :: room in rooms ==> room.id != row.id
    ensures Numbered(InsertAt(rooms, row, position), next)
  {
    InsertDistinct(rooms, row, position);
    InsertMembers(rooms, row, position);
    var all := InsertAt(rooms, row, position);
    forall i | 0 <= i < |all| ensures all[i].id < next {
      assert all[i] in all;
    }
  }

  lemma WithoutNumbered(rooms: seq<Room>, id: int, next: int)
    requires Numbered(rooms, next)
    ensures Numbered(WithoutRoom(rooms, id), next)
  {
    WithoutRoomDistinct(rooms, id);
    var left := WithoutRoom(rooms, id);
    forall i | 0 <= i < |left| ensures left[i].id < next {
      assert left[i] in rooms;
    }
  }

  lemma EditNumbered(s: State, x: Action)
    requires Numbered(s.rooms, s.nextRoom) && x.EditRoom? && !EditRefused(s, x)
    ensures Numbered(Apply(s, x).rooms, s.nextRoom)
  {
    WithoutNumbered(s.rooms, x.roomId, s.nextRoom);
    WithoutRoomDistinct(s.rooms, x.roomId);
    var row := EditedRoom(RoomById(s.rooms, x.roomId).value, x);
    InsertNumbered(WithoutRoom(s.rooms, x.roomId), row, x.position, s.nextRoom);
  }

  lemma ApplyWellFormed(s: State, x: Action)
    requires WellFormed(s)
    ensures WellFormed(Apply(s, x))
  {
    match x
    case AddRoom(_, _, _, position) =>
      if !NumberTaken(s.rooms, NewRoom(s, x)) {
        assert Numbered(s.rooms, s.nextRoom + 1);
        InsertNumbered(s.rooms, NewRoom(s, x), position, s.nextRoom + 1);
      }
    case EditRoom(_, _, _, _, _) =>
      if !EditRefused(s, x) { EditNumbered(s, x); }
    case DeleteRoom(roomId) =>
      WithoutNumbered(s.rooms, roomId, s.nextRoom);
    case _ =>
  }

  /** Inserting adds exactly the row. */
  lemma InsertMembers(rooms: seq<Room>, row: Room, position: nat)
    ensures forall room :: room in InsertAt(rooms, row, position) <==> room == row || room in rooms
  {
    var p := if position <= |rooms| then position else |rooms|;
    assert rooms == rooms[..p] + rooms[p..];
  }

  lemma EditIsBlamed(s: State, id: int, row: Reservation, overridden: set<int>)
    requires Blamed(s.table, overridden) && id in s.table
    requires |row.lines| == |s.table[id].lines|
    requires forall k :: row.HasSlot(k) ==> row.RoomAt(k) == s.table[id].RoomAt(k)
    ensures Blamed(s.table[id := row], BlameEdit(s.table[id], row, id, overridden))
  {
    var after := s.table[id := row];
    assert after - {id} == s.table - {id};
    if !row.Live() {
      NoClashAt(s.table, after, id, overridden);
    } else if Overrides(s.table[id], row) {
      BlameRow(s.table, after, id, overridden);
    } else {
      NarrowRow(s.table, id, row);
      forall a, i, b, j | Clash(after, a, i, b, j) ensures a in overridden || b in overridden {
        assert Clash(s.table, a, i, b, j);
      }
      assert BlameEdit(s.table[id], row, id, overridden) == overridden;
    }
  }

  /** One step keeps the run-level invariant, whatever the step is. */
  lemma StepIsSafe(s: State, x: Action, overridden: set<int>)
    requires Safe(s, overridden)
    ensures Safe(Apply(s, x), Blame(s, x, overridden))
  {
    ApplyWellFormed(s, x);
    SuspectsSuffice(s, x, overridden);
    var after := Apply(s, x).table;
    forall a, i, b, j | Clash(after, a, i, b, j)
      ensures a in Blame(s, x, overridden) || b in Blame(s, x, overridden)
    {
      ClashIsSymmetric(after, a, i, b, j);
    }
  }

  lemma SuspectsSuffice(s: State, x: Action, overridden: set<int>)
    requires WellFormed(s) && Blamed(s.table, overridden)
    ensures Blamed(Apply(s, x).table, Suspects(s, x, overridden))
  {
    var after := Apply(s, x).table;
    match x
    case Create(draft) =>
      CreateIsSafe(s, draft);
      NoClashAt(s.table, after, s.nextId, overridden);
    case Walkin(_, _, _, room, _, _) =>
      assert after - {s.nextId} == s.table - {s.nextId};
      if RoomById(s.rooms, room).Some? {
        BlameRow(s.table, after, s.nextId, overridden);
      } else {
        assert forall k :: after[s.nextId].HasSlot(k) ==> after[s.nextId].RoomAt(k).None?;
        NoClashAt(s.table, after, s.nextId, overridden);
      }
    case Patch(id, _, _, _, _, _) =>
      if id in s.table && !PatchFails(x) {
        EditIsBlamed(s, id, PatchRow(s.table[id], x), overridden);
      }
    case SetStatus(id, status) =>
      if id in s.table {
        EditIsBlamed(s, id, s.table[id].(status := status), overridden);
      }
    case Cancel(id) =>
      if id in s.table { NoClashAt(s.table, after, id, overridden); }
      else { NoClashAt(s.table, after, id, overridden); }
    case Delete(id) =>
      if id in s.table && !s.table[id].Live() { NoClashAt(s.table, after, id, overridden); }
    case Reassign(id) =>
      if id in s.table { PlaceIsSafe(s.rooms, s.table, id, s.table[id]); }
      NoClashAt(s.table, after, id, overridden);
    case AssignManually(id, line, target) =>
      if AssignAccepted(s, x) && target.Some? {
        BlameRow(s.table, after, id, overridden);
      } else {
        CarefulOrRefused(s, x);
      }
    case AddRoom(_, _, _, _) =>
    case EditRoom(_, _, _, _, _) =>
    case DeleteRoom(_) =>
      CarefulAddsNoClash(s, x);
    case SetAutoAssign(_) =>
  }

  lemma CarefulOrRefused(s: State, x: Action)
    requires WellFormed(s) && x.AssignManually? && !(AssignAccepted(s, x) && x.target.Some?)
    ensures forall a, i, b, j :: Clash(Apply(s, x).table, a, i, b, j) ==> Clash(s.table, a, i, b, j)
  {
    if AssignAccepted(s, x) { CarefulAddsNoClash(s, x); }
  }

  ghost function Run(s: State, overridden: set<int>, run: seq<Action>): (State, set<int>)
    decreases |run|
  {
    if run == [] then (s, overridden)
    else Run(Apply(s, run[0]), Blame(s, run[0], overridden), run[1..])
  }

  /** In every reachable state a double booking involves a member of the ghost set, and every member is in one. */
  lemma {:induction false} RunIsSafe(s: State, overridden: set<int>, run: seq<Action>)
    requires Safe(s, overridden)
    ensures var (end, blamed) := Run(s, overridden, run); Safe(end, blamed)
    decreases |run|
  {
    if run != [] {
      StepIsSafe(s, run[0], overridden);
      RunIsSafe(Apply(s, run[0]), Blame(s, run[0], overridden), run[1..]);
    }
  }

  /** Without overrides nothing is ever double booked. */
  lemma {:induction false} CarefulRunHasNoClash(s: State, run: seq<Action>)
    requires WellFormed(s) && Blamed(s.table, {})
    requires forall k :: 0 <= k < |run| ==> Careful(run[k])
    ensures forall a, i, b, j :: !Clash(Run(s, {}, run).0.table, a, i, b, j)
    decreases |run|
  {
    if run == [] {
      assert Run(s, {}, run) == (s, {});
    } else {
      CarefulAddsNoClash(s, run[0]);
      ApplyWellFormed(s, run[0]);
      assert Run(s, {}, run) == Run(Apply(s, run[0]), {}, run[1..]);
      CarefulRunHasNoClash(Apply(s, run[0]), run[1..]);
    }
  }
}
