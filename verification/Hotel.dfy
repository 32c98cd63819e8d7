/**
  Rooms, reservations and the automatic room assignment, as functions of the
  two tables it reads (backend/app/services/room_assignment.py).

  Days are day numbers. The room table is kept in the order the database gives
  `ORDER BY room_number`, so the first row of a query is its first element.
  A reservation holds rooms in numbered slots: slot 0 is the reservation's own
  `assigned_room_id`, slot k + 1 is the one of its k-th room line.
 */
module Hotel {
  import opened Wrappers

  datatype Status = Pending | Confirmed | Cancelled | Manual

  datatype Room = Room(id: int, number: string, category: string, active: bool)

  datatype Line = Line(id: int, roomType: string, assignedRoom: Option<int>)

  datatype Reservation = Reservation(
    externalRef: Option<string>,
    channel: string,
    guest: string,
    checkin: int,
    checkout: int,
    roomType: Option<string>,
    status: Status,
    assignedRoom: Option<int>,
    lines: seq<Line>,
    createdAt: int)
  {
    predicate Live() { status != Cancelled }

    predicate Overlaps(from: int, to: int) { checkin < to && checkout > from }

    predicate Covers(day: int) { checkin <= day < checkout }

    predicate HasSlot(k: int) { 0 <= k <= |lines| }

    /** The room slot `k` holds, if any. */
    function RoomAt(k: int): Option<int>
      requires HasSlot(k)
    {
      if k == 0 then assignedRoom else lines[k - 1].assignedRoom
    }

    /** The category slot `k` asks for: with room lines present only the lines ask. */
    function Wanted(k: int): Option<string>
      requires HasSlot(k)
    {
      if k > 0 then Some(lines[k - 1].roomType)
      else if lines == [] && roomType != Some("") then roomType
      else None
    }
  }

  type Table = map<int, Reservation>

  predicate DistinctRooms(rooms: seq<Room>) {
    forall i, j :: 0 <= i < j < |rooms| ==> rooms[i].id != rooms[j].id
  }

  // ---- Queries --------------------------------------------------------------

  /** A live reservation other than `exclude` that overlaps [from, to). */
  predicate Blocks(table: Table, id: int, from: int, to: int, exclude: Option<int>) {
    id in table && exclude != Some(id) && table[id].Live() && table[id].Overlaps(from, to)
  }

  /** Rooms held, through either kind of slot, by a blocking reservation. */
  function OccupiedRoomIds(table: Table, from: int, to: int, exclude: Option<int>): set<int> {
    set id, k | id in table && Blocks(table, id, from, to, exclude) &&
                0 <= k <= |table[id].lines| && table[id].RoomAt(k).Some?
      :: table[id].RoomAt(k).value
  }

  predicate Fits(room: Room, category: string, taken: set<int>) {
    room.category == category && room.active && room.id !in taken
  }

  /** The ids of the active rooms of a category outside `taken`, in room-number order. */
  function FreeRooms(rooms: seq<Room>, category: string, taken: set<int>): seq<int> {
    if rooms == [] then []
    else (if Fits(rooms[0], category, taken) then [rooms[0].id] else []) + FreeRooms(rooms[1..], category, taken)
  }

  function First(ids: seq<int>): Option<int> {
    if ids == [] then None else Some(ids[0])
  }

  function FindFreeRoom(
    rooms: seq<Room>, table: Table, category: string, from: int, to: int,
    exclude: Option<int>, avoid: set<int>): Option<int>
  {
    First(FreeRooms(rooms, category, OccupiedRoomIds(table, from, to, exclude) + avoid))
  }

  // ---- Assignment -----------------------------------------------------------

  /** A line keeps the room it has; otherwise it gets the first free one of its category, if there is one. */
  function Settle(rooms: seq<Room>, line: Line, taken: set<int>): Line {
    if line.assignedRoom.Some? then line
    else line.(assignedRoom := First(FreeRooms(rooms, line.roomType, taken)))
  }

  function Use(taken: set<int>, line: Line): set<int> {
    if line.assignedRoom.Some? then taken + {line.assignedRoom.value} else taken
  }

  /** Serve the lines left to right; `taken` starts as the occupied rooms and grows with each room used. */
  function AssignLines(rooms: seq<Room>, lines: seq<Line>, taken: set<int>): seq<Line> {
    if lines == [] then []
    else
      var line := Settle(rooms, lines[0], taken);
      [line] + AssignLines(rooms, lines[1..], Use(taken, line))
  }

  function AssignRooms(rooms: seq<Room>, occupied: set<int>, r: Reservation): Reservation {
    if r.lines != [] then
      r.(lines := AssignLines(rooms, r.lines, occupied))
    else if r.Wanted(0).Some? && r.assignedRoom.None? then
      r.(assignedRoom := First(FreeRooms(rooms, r.Wanted(0).value, occupied)))
    else r
  }

  function ClearLines(lines: seq<Line>): (cleared: seq<Line>)
    ensures |cleared| == |lines|
    ensures forall i :: 0 <= i < |lines| ==> cleared[i] == lines[i].(assignedRoom := None)
  {
    seq(|lines|, i requires 0 <= i < |lines| => lines[i].(assignedRoom := None))
  }

  function Clear(r: Reservation): Reservation {
    r.(assignedRoom := None, lines := ClearLines(r.lines))
  }

  /** Store `r` under `id` with its rooms assigned from scratch against all other rows. */
  function Place(rooms: seq<Room>, table: Table, id: int, r: Reservation): Table {
    table[id := AssignRooms(rooms, OccupiedRoomIds(table, r.checkin, r.checkout, Some(id)), Clear(r))]
  }

  /** Clear the assignments of `id` and assign again. */
  function Reassign(rooms: seq<Room>, table: Table, id: int): Table
    requires id in table
  {
    Place(rooms, table, id, table[id])
  }

  // ---- What the queries and the assignment mean -----------------------------

  /** A free room is exactly an active room of the category that is not taken. */
  lemma {:induction false} FreeRoomsExactly(rooms: seq<Room>, category: string, taken: set<int>)
    ensures forall id :: id in FreeRooms(rooms, category, taken)
              <==> exists i :: 0 <= i < |rooms| && rooms[i].id == id && Fits(rooms[i], category, taken)
  {
    if rooms != [] {
      var rest := rooms[1..];
      FreeRoomsExactly(rest, category, taken);
      forall id
        ensures id in FreeRooms(rooms, category, taken)
          <==> exists i :: 0 <= i < |rooms| && rooms[i].id == id && Fits(rooms[i], category, taken)
      {
        if id in FreeRooms(rest, category, taken) {
          var i :| 0 <= i < |rest| && rest[i].id == id && Fits(rest[i], category, taken);
          assert rooms[i + 1] == rest[i];
        }
        if i :| 0 <= i < |rooms| && rooms[i].id == id && Fits(rooms[i], category, taken) {
          if i > 0 { assert rest[i - 1] == rooms[i]; }
        }
      }
    }
  }

  /** The room found is the first of its kind in room-number order, and none is found only if there is none. */
  lemma {:induction false} FindsFirst(rooms: seq<Room>, category: string, taken: set<int>)
    ensures var found := First(FreeRooms(rooms, category, taken));
      if found.None? then forall i :: 0 <= i < |rooms| ==> !Fits(rooms[i], category, taken)
      else (exists i :: 0 <= i < |rooms| && rooms[i].id == found.value && Fits(rooms[i], category, taken)
                        && forall j :: 0 <= j < i ==> !Fits(rooms[j], category, taken))
  {
    if rooms != [] && !Fits(rooms[0], category, taken) {
      var rest := rooms[1..];
      FindsFirst(rest, category, taken);
      var found := First(FreeRooms(rest, category, taken));
      if found.None? {
        forall i | 0 <= i < |rooms| ensures !Fits(rooms[i], category, taken) {
          if i > 0 { assert rooms[i] == rest[i - 1]; }
        }
      } else {
        var i :| 0 <= i < |rest| && rest[i].id == found.value && Fits(rest[i], category, taken)
          && forall j :: 0 <= j < i ==> !Fits(rest[j], category, taken);
        assert rooms[i + 1] == rest[i];
        forall j | 0 <= j < i + 1 ensures !Fits(rooms[j], category, taken) {
          if j > 0 { assert rooms[j] == rest[j - 1]; }
        }
      }
    }
  }

  /** A row's own contents never change which rooms it sees as occupied. */
  lemma OccupiedIgnoresSelf(table: Table, other: Table, id: int, from: int, to: int)
    requires table - {id} == other - {id}
    ensures OccupiedRoomIds(table, from, to, Some(id)) == OccupiedRoomIds(other, from, to, Some(id))
  {
    forall x | x in OccupiedRoomIds(table, from, to, Some(id))
      ensures x in OccupiedRoomIds(other, from, to, Some(id))
    {
      var i, k :| i in table && Blocks(table, i, from, to, Some(id)) &&
        0 <= k <= |table[i].lines| && table[i].RoomAt(k) == Some(x);
      SameElsewhere(table, other, id, i);
    }
    forall x | x in OccupiedRoomIds(other, from, to, Some(id))
      ensures x in OccupiedRoomIds(table, from, to, Some(id))
    {
      var i, k :| i in other && Blocks(other, i, from, to, Some(id)) &&
        0 <= k <= |other[i].lines| && other[i].RoomAt(k) == Some(x);
      SameElsewhere(other, table, id, i);
    }
  }

  lemma SameElsewhere(table: Table, other: Table, id: int, i: int)
    requires table - {id} == other - {id}
    requires i in table && i != id
    ensures i in other && other[i] == table[i]
  {
    assert i in table - {id};
    assert (table - {id})[i] == (other - {id})[i];
  }

  /** Everything about a placed row except its assignments is as given. */
  lemma {:induction false} AssignLinesKeeps(rooms: seq<Room>, lines: seq<Line>, taken: set<int>)
    ensures var out := AssignLines(rooms, lines, taken);
      |out| == |lines| &&
      forall i :: 0 <= i < |lines| ==>
        out[i].(assignedRoom := lines[i].assignedRoom) == lines[i] &&
        (lines[i].assignedRoom.Some? ==> out[i] == lines[i])
  {
    if lines != [] {
      AssignLinesKeeps(rooms, lines[1..], Use(taken, Settle(rooms, lines[0], taken)));
      var out := AssignLines(rooms, lines, taken);
      forall i | 0 <= i < |lines|
        ensures out[i].(assignedRoom := lines[i].assignedRoom) == lines[i]
        ensures lines[i].assignedRoom.Some? ==> out[i] == lines[i]
      {
        if i > 0 { assert lines[i] == lines[1..][i - 1]; }
      }
    }
  }

  /** The first `i` of `lines` are as the assignment of all of them leaves them; the rest are still to do. */
  ghost predicate Settled(rooms: seq<Room>, before: seq<Line>, lines: seq<Line>, i: nat, occupied: set<int>,
                          taken: set<int>) {
    var all := AssignLines(rooms, before, occupied);
    && i <= |before| == |lines| == |all|
    && (forall k :: 0 <= k < i ==> lines[k] == all[k])
    && (forall k :: i <= k < |lines| ==> lines[k] == before[k])
    && all[i..] == AssignLines(rooms, before[i..], taken)
  }

  lemma SettleNext(rooms: seq<Room>, before: seq<Line>, lines: seq<Line>, i: nat, occupied: set<int>, taken: set<int>)
    requires i < |before| && Settled(rooms, before, lines, i, occupied, taken)
    ensures var line := Settle(rooms, lines[i], taken);
      Settled(rooms, before, lines[i := line], i + 1, occupied, Use(taken, line))
  {
    var all, line := AssignLines(rooms, before, occupied), Settle(rooms, lines[i], taken);
    assert before[i..][0] == before[i] && before[i..][1..] == before[i + 1..];
    assert all[i..] == [line] + AssignLines(rooms, before[i + 1..], Use(taken, line));
    assert all[i] == all[i..][0] && all[i + 1..] == all[i..][1..];
  }

  /** Reassigning touches no other reservation, does not depend on where the row was before, and settles at once. */
  lemma ReassignIsLocal(rooms: seq<Room>, table: Table, other: Table, id: int)
    requires id in table && id in other
    requires table - {id} == other - {id}
    requires Clear(table[id]) == Clear(other[id])
    ensures Reassign(rooms, table, id) - {id} == table - {id}
    ensures Reassign(rooms, table, id) == Reassign(rooms, other, id)
    ensures Reassign(rooms, Reassign(rooms, table, id), id) == Reassign(rooms, table, id)
  {
    var r, after := table[id], Reassign(rooms, table, id);
    OccupiedIgnoresSelf(table, other, id, r.checkin, r.checkout);
    assert r.checkin == Clear(r).checkin && r.checkout == Clear(r).checkout;
    assert other[id].checkin == Clear(other[id]).checkin && other[id].checkout == Clear(other[id]).checkout;
    EqualByParts(after, Reassign(rooms, other, id), id, table, other);
    assert after - {id} == table - {id};
    ClearAfterAssign(rooms, OccupiedRoomIds(table, r.checkin, r.checkout, Some(id)), r);
    OccupiedIgnoresSelf(table, after, id, r.checkin, r.checkout);
  }

  lemma EqualByParts(a: Table, b: Table, id: int, table: Table, other: Table)
    requires id in a && id in b && a[id] == b[id]
    requires a == table[id := a[id]] && b == other[id := b[id]]
    requires table - {id} == other - {id}
    ensures a == b
  {
    forall i | i in a ensures i in b && b[i] == a[i] {
      if i != id { SameElsewhere(table, other, id, i); }
    }
    forall i | i in b ensures i in a {
      if i != id { SameElsewhere(other, table, id, i); }
    }
  }

  lemma ClearAfterAssign(rooms: seq<Room>, occupied: set<int>, r: Reservation)
    ensures Clear(AssignRooms(rooms, occupied, Clear(r))) == Clear(r)
  {
    AssignLinesKeeps(rooms, Clear(r).lines, occupied);
    var after := AssignRooms(rooms, occupied, Clear(r));
    assert Clear(after).lines == Clear(r).lines;
  }

  // ---- Which room a slot gets -----------------------------------------------

  /**
    Room i may be given to a slot of reservation `id`: active, of the category, not among
    `used`, and in no slot of another reservation that is not cancelled and overlaps the stay.
   */
  ghost predicate Available(rooms: seq<Room>, table: Table, id: int, category: string, from: int, to: int,
                            used: set<int>, i: int) {
    && 0 <= i < |rooms| && rooms[i].category == category && rooms[i].active && rooms[i].id !in used
    && forall b :: b in table && b != id ==> !InTheWay(table[b], from, to, rooms[i].id)
  }

  /** Not cancelled, overlapping the stay, and in the room. */
  ghost predicate InTheWay(r: Reservation, from: int, to: int, room: int) {
    r.status != Cancelled && r.checkin < to && r.checkout > from && HoldsRoom(r, room)
  }

  /** The reservation itself or one of its lines has the room. */
  ghost predicate HoldsRoom(r: Reservation, room: int) {
    r.assignedRoom == Some(room) || exists i :: 0 <= i < |r.lines| && r.lines[i].assignedRoom == Some(room)
  }

  /** The slot holds the first available room in room-number order, and none exactly when there is none. */
  ghost predicate HasFirst(rooms: seq<Room>, table: Table, id: int, category: string, from: int, to: int,
                           used: set<int>,
                     held: Option<int>)
  {
    match held
    case None => forall i :: 0 <= i < |rooms| ==> !Available(rooms, table, id, category, from, to, used, i)
    case Some(room) =>
      exists i :: Available(rooms, table, id, category, from, to, used, i) && rooms[i].id == room
        && forall j :: 0 <= j < i ==> !Available(rooms, table, id, category, from, to, used, j)
  }

  function RoomsOf(lines: seq<Line>): set<int> {
    set i | 0 <= i < |lines| && lines[i].assignedRoom.Some? :: lines[i].assignedRoom.value
  }

  /**
    The row stored under `id` has been served: without lines by its own room type, otherwise
    line by line, each line passing over the rooms of the lines before it.
   */
  ghost predicate ServedInOrder(rooms: seq<Room>, table: Table, id: int, r: Reservation) {
    if r.lines != [] then
      r.assignedRoom.None? && forall i :: 0 <= i < |r.lines| ==>
        HasFirst(rooms, table, id, r.lines[i].roomType, r.checkin, r.checkout, RoomsOf(r.lines[..i]),
            r.lines[i].assignedRoom)
    else if r.roomType.Some? && r.roomType.value != "" then
      HasFirst(rooms, table, id, r.roomType.value, r.checkin, r.checkout, {}, r.assignedRoom)
    else
      r.assignedRoom.None?
  }

  /** Everything but the rooms is as in the draft. */
  ghost predicate SameButRooms(r: Reservation, draft: Reservation) {
    && r.externalRef == draft.externalRef && r.channel == draft.channel && r.guest == draft.guest
    && r.checkin == draft.checkin && r.checkout == draft.checkout && r.roomType == draft.roomType
    && r.status == draft.status && r.createdAt == draft.createdAt && |r.lines| == |draft.lines|
    && forall i :: 0 <= i < |r.lines| ==>
         r.lines[i].id == draft.lines[i].id && r.lines[i].roomType == draft.lines[i].roomType
  }

  lemma OccupiedExactly(table: Table, id: int, from: int, to: int, room: int)
    ensures room in OccupiedRoomIds(table, from, to, Some(id)) <==>
      exists b :: b in table && b != id && InTheWay(table[b], from, to, room)
  {
    if room in OccupiedRoomIds(table, from, to, Some(id)) {
      var b, k :| b in table && Blocks(table, b, from, to, Some(id)) &&
        0 <= k <= |table[b].lines| && table[b].RoomAt(k) == Some(room);
      if k > 0 { assert table[b].lines[k - 1].assignedRoom == Some(room); }
      assert HoldsRoom(table[b], room);
    }
    if b :| b in table && b != id && InTheWay(table[b], from, to, room) {
      assert Blocks(table, b, from, to, Some(id));
      if table[b].assignedRoom == Some(room) {
        assert table[b].RoomAt(0) == Some(room);
      } else {
        var i :| 0 <= i < |table[b].lines| && table[b].lines[i].assignedRoom == Some(room);
        assert table[b].RoomAt(i + 1) == Some(room);
      }
    }
  }

  lemma FitsExactly(rooms: seq<Room>, table: Table, id: int, category: string, from: int, to: int, used: set<int>,
                    i: int)
    requires 0 <= i < |rooms|
    ensures Available(rooms, table, id, category, from, to, used, i)
      <==> Fits(rooms[i], category, OccupiedRoomIds(table, from, to, Some(id)) + used)
  {
    OccupiedExactly(table, id, from, to, rooms[i].id);
  }

  lemma FirstIsFirst(rooms: seq<Room>, table: Table, id: int, category: string, from: int, to: int, used: set<int>)
    ensures HasFirst(rooms, table, id, category, from, to, used,
                     First(FreeRooms(rooms, category, OccupiedRoomIds(table, from, to, Some(id)) + used)))
  {
    var taken := OccupiedRoomIds(table, from, to, Some(id)) + used;
    FindsFirst(rooms, category, taken);
    forall i | 0 <= i < |rooms|
      ensures Available(rooms, table, id, category, from, to, used, i) <==> Fits(rooms[i], category, taken)
    {
      FitsExactly(rooms, table, id, category, from, to, used, i);
    }
    var found := First(FreeRooms(rooms, category, taken));
    if found.Some? {
      var i :| 0 <= i < |rooms| && rooms[i].id == found.value && Fits(rooms[i], category, taken)
        && forall j :: 0 <= j < i ==> !Fits(rooms[j], category, taken);
      assert Available(rooms, table, id, category, from, to, used, i);
    }
  }

  /** Line i gets the first room free for it once the lines before it are served. */
  lemma {:induction false} LineGetsFirst(rooms: seq<Room>, lines: seq<Line>, taken: set<int>, i: nat)
    requires i < |lines| && forall k :: 0 <= k < |lines| ==> lines[k].assignedRoom.None?
    ensures var out := AssignLines(rooms, lines, taken);
      && |out| == |lines|
      && out[i].assignedRoom == First(FreeRooms(rooms, lines[i].roomType, taken + RoomsOf(out[..i])))
  {
    var first := Settle(rooms, lines[0], taken);
    var rest := AssignLines(rooms, lines[1..], Use(taken, first));
    var out := AssignLines(rooms, lines, taken);
    AssignLinesKeeps(rooms, lines, taken);
    if i == 0 {
      assert taken + RoomsOf(out[..0]) == taken;
    } else {
      LineGetsFirst(rooms, lines[1..], Use(taken, first), i - 1);
      assert out[..i] == [first] + rest[..i - 1];
      RoomsOfMore(first, rest[..i - 1]);
      assert Use(taken, first) + RoomsOf(rest[..i - 1]) == taken + RoomsOf(out[..i]);
    }
  }

  lemma RoomsOfMore(first: Line, rest: seq<Line>)
    ensures RoomsOf([first] + rest) == Use({}, first) + RoomsOf(rest)
  {
    var all := [first] + rest;
    assert forall i :: 0 <= i < |rest| ==> all[i + 1] == rest[i];
    forall x | x in Use({}, first) + RoomsOf(rest) ensures x in RoomsOf(all) {
      if x in RoomsOf(rest) {
        var i :| 0 <= i < |rest| && rest[i].assignedRoom == Some(x);
        assert all[i + 1].assignedRoom == Some(x);
      } else {
        assert all[0].assignedRoom == Some(x);
      }
    }
  }

  /** A row assigned from scratch against the other rows of a table is served in order, and otherwise as given. */
  lemma PlacedIsServed(rooms: seq<Room>, table: Table, id: int, r: Reservation)
    ensures var placed := Place(rooms, table, id, r)[id];
      ServedInOrder(rooms, table, id, placed) && SameButRooms(placed, r)
  {
    var row, occupied := Clear(r), OccupiedRoomIds(table, r.checkin, r.checkout, Some(id));
    var placed := AssignRooms(rooms, occupied, row);
    AssignLinesKeeps(rooms, row.lines, occupied);
    assert occupied + {} == occupied;
    if r.lines != [] {
      forall i | 0 <= i < |r.lines|
        ensures HasFirst(rooms, table, id, placed.lines[i].roomType, r.checkin, r.checkout, RoomsOf(placed.lines[..i]),
                         placed.lines[i].assignedRoom)
      {
        LineGetsFirst(rooms, row.lines, occupied, i);
        FirstIsFirst(rooms, table, id, r.lines[i].roomType, r.checkin, r.checkout, RoomsOf(placed.lines[..i]));
      }
    } else if r.roomType.Some? {
      FirstIsFirst(rooms, table, id, r.roomType.value, r.checkin, r.checkout, {});
    }
  }
}
