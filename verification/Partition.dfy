/**
  Interval partitioning: booked in order of arrival, the greedy assignment serves
  every slot as long as no night asks for more rooms of a category than there are.
 */
module Partition {
  import opened Wrappers
  import opened Hotel
  import opened Collections
  import Matching
  import opened Bookings

  /** The live slots that ask for `category` on the night of `day`. */
  ghost function Demand(table: Table, category: string, day: int): set<(int, int)> {
    set id, k | id in table && table[id].Live() && table[id].Covers(day) &&
                0 <= k <= |table[id].lines| && table[id].Wanted(k) == Some(category)
      :: (id, k)
  }

  /** The active rooms of a category. */
  function Capacity(rooms: seq<Room>, category: string): nat {
    |FreeRooms(rooms, category, {})|
  }

  ghost predicate WithinCapacity(s: State) {
    forall category, day :: |Demand(s.table, category, day)| <= Capacity(s.rooms, category)
  }

  /** The edit leaves the row out of the way, or leaves its stay, its wishes and its rooms as they are. */
  predicate Mild(before: Reservation, row: Reservation) {
    || !row.Live()
    || (&& before.Live() && row.checkin == before.checkin && row.checkout == before.checkout
        && row.lines == before.lines && row.assignedRoom == before.assignedRoom
        && row.Wanted(0) == before.Wanted(0))
  }

  /** A live reservation holds the room. */
  predicate Held(table: Table, room: int) {
    exists id ::
        id in table && table[id].Live() && exists k :: 0 <= k <= |table[id].lines| && table[id].RoomAt(k) == Some(room)
  }

  /**
    The steps without override. Bookings are auto-assigned and arrive in order of
    check-in; no edit takes a room, a wish or a stay away from under a live slot.
   */
  predicate Gentle(s: State, x: Action, latest: int) {
    match x
    case Create(draft) => draft.Live() ==> s.autoAssign && latest <= draft.checkin < draft.checkout
    case Walkin(_, _, _, room, _, _) => RoomById(s.rooms, room).None?
    case Patch(id, _, _, _, _, _) => id !in s.table || PatchFails(x) || Mild(s.table[id], PatchRow(s.table[id], x))
    case SetStatus(id, status) => id !in s.table || Mild(s.table[id], s.table[id].(status := status))
    case Cancel(_) => true
    case Delete(_) => true
    case Reassign(_) => true
    case AssignManually(id, line, target) =>
      !AssignAccepted(s, x) || Mild(s.table[id], AssignRow(s.table[id], line, target))
    case AddRoom(_, _, _, _) => true
    case EditRoom(roomId, _, _, _, _) =>
      || EditRefused(s, x) || !Held(s.table, roomId)
      || (var room := RoomById(s.rooms, roomId).value;
          EditedRoom(room, x).category == room.category && EditedRoom(room, x).active)
    case DeleteRoom(roomId) => !Held(s.table, roomId)
    case SetAutoAssign(_) => true
  }

  function Latest(x: Action, latest: int): int {
    if x.Create? && x.draft.Live() then x.draft.checkin else latest
  }

  /** A run of such steps. */
  predicate Orderly(s: State, run: seq<Action>, latest: int)
    decreases |run|
  {
    run == [] || (Gentle(s, run[0], latest) && Orderly(Apply(s, run[0]), run[1..], Latest(run[0], latest)))
  }

  /** Every slot that asks for a room has one. */
  ghost predicate AllPlaced(table: Table) {
    forall id, k :: id in table && table[id].Live() && table[id].HasSlot(k) && table[id].Wanted(k).Some?
      ==> table[id].RoomAt(k).Some?
  }

  predicate RoomIn(rooms: seq<Room>, id: int, category: string) {
    exists i :: 0 <= i < |rooms| && rooms[i].id == id && rooms[i].category == category && rooms[i].active
  }

  /**
    The slot has a room exactly if it asks for one: an active room of its category, for a stay
    that has begun to arrive.
   */
  predicate SlotSeated(rooms: seq<Room>, r: Reservation, k: int, latest: int)
    requires r.HasSlot(k)
  {
    && (r.Wanted(k).Some? <==> r.RoomAt(k).Some?)
    && (r.RoomAt(k).Some? ==>
          RoomIn(rooms, r.RoomAt(k).value, r.Wanted(k).value) && r.checkin < r.checkout && r.checkin <= latest)
  }

  ghost predicate Seated(rooms: seq<Room>, r: Reservation, latest: int) {
    r.Live() ==> forall k :: r.HasSlot(k) ==> SlotSeated(rooms, r, k, latest)
  }

  ghost predicate Packed(s: State, latest: int) {
    WellFormed(s) && Blamed(s.table, {}) && forall id :: id in s.table ==> Seated(s.rooms, s.table[id], latest)
  }

  /** The ids of the active rooms of a category. */
  function CategoryIds(rooms: seq<Room>, category: string): set<int> {
    if rooms == [] then {}
    else
      CategoryIds(rooms[1..], category) +
      if rooms[0].category == category && rooms[0].active then {rooms[0].id} else {}
  }

  lemma {:induction false} CategoryIdsExactly(rooms: seq<Room>, category: string, id: int)
    ensures id in CategoryIds(rooms, category) <==> RoomIn(rooms, id, category)
  {
    if rooms != [] {
      var rest := rooms[1..];
      CategoryIdsExactly(rest, category, id);
      if RoomIn(rest, id, category) {
        var i :| 0 <= i < |rest| && rest[i].id == id && rest[i].category == category && rest[i].active;
        assert rooms[i + 1] == rest[i];
      }
      if RoomIn(rooms, id, category) && !(rooms[0].id == id && rooms[0].category == category && rooms[0].active) {
        var i :| 0 <= i < |rooms| && rooms[i].id == id && rooms[i].category == category && rooms[i].active;
        assert rest[i - 1] == rooms[i];
      }
    }
  }

  lemma HeadOnlyOnce(rooms: seq<Room>, category: string)
    requires DistinctRooms(rooms) && rooms != []
    ensures !RoomIn(rooms[1..], rooms[0].id, category)
  {
    forall i | 0 <= i < |rooms[1..]| ensures rooms[1..][i].id != rooms[0].id {
      assert rooms[1..][i] == rooms[i + 1];
    }
  }

  lemma OneCategoryOnly(rooms: seq<Room>, id: int, c: string, d: string)
    requires DistinctRooms(rooms) && RoomIn(rooms, id, c) && RoomIn(rooms, id, d)
    ensures c == d
  {
    var i :| 0 <= i < |rooms| && rooms[i].id == id && rooms[i].category == c;
    var j :| 0 <= j < |rooms| && rooms[j].id == id && rooms[j].category == d;
    assert i == j;
  }

  /** Taking rooms away leaves at least the capacity minus the rooms of the category taken. */
  lemma {:induction false} FreeAfterTaking(rooms: seq<Room>, category: string, taken: set<int>)
    requires DistinctRooms(rooms)
    ensures |FreeRooms(rooms, category, taken)| + |taken * CategoryIds(rooms, category)| >= Capacity(rooms, category)
  {
    if rooms != [] {
      var rest, id := rooms[1..], rooms[0].id;
      Matching.DistinctTail(rooms);
      FreeAfterTaking(rest, category, taken);
      var ids, restIds := CategoryIds(rooms, category), CategoryIds(rest, category);
      SubsetSize(taken * restIds, taken * ids);
      if rooms[0].category == category && rooms[0].active && id in taken {
        CategoryIdsExactly(rest, category, id);
        assert taken * ids == taken * restIds + {id};
        HeadOnlyOnce(rooms, category);
      }
    }
  }

  /** The rooms of a category that block an arrival are held by slots asking for that category that night. */
  lemma BlockedByDemand(s: State, latest: int, from: int, to: int, id: int, category: string)
    requires Packed(s, latest) && latest <= from < to
    ensures |OccupiedRoomIds(s.table, from, to, Some(id)) * CategoryIds(s.rooms, category)|
         <= |Demand(s.table, category, from)|
  {
    var demand := Demand(s.table, category, from);
    var blocked := OccupiedRoomIds(s.table, from, to, Some(id)) * CategoryIds(s.rooms, category);
    var held := map slot | slot in demand :: s.table[slot.0].RoomAt(slot.1).value;
    forall x | x in blocked
      ensures exists slot :: slot in demand && held[slot] == x
    {
      var a, k :| a in s.table && Blocks(s.table, a, from, to, Some(id)) &&
        0 <= k <= |s.table[a].lines| && s.table[a].RoomAt(k) == Some(x);
      var r := s.table[a];
      assert r.HasSlot(k) && SlotSeated(s.rooms, r, k, latest);
      CategoryIdsExactly(s.rooms, category, x);
      OneCategoryOnly(s.rooms, x, r.Wanted(k).value, category);
      assert r.Covers(from);
      assert (a, k) in demand;
    }
    CoverSize(demand, blocked, held);
  }

  /** How many slots of the row ask for a category. */
  function Need(r: Reservation, category: string): nat {
    if r.lines != [] then Matching.Count(r.lines, category) else if r.Wanted(0) == Some(category) then 1 else 0
  }

  /** What a new booking adds to the demand of its first night. */
  lemma NewDemand(table: Table, id: int, r: Reservation, category: string)
    requires id !in table && r.Live() && r.checkin < r.checkout
    ensures |Demand(table[id := r], category, r.checkin)| >= |Demand(table, category, r.checkin)| + Need(r, category)
  {
    var before, after := Demand(table, category, r.checkin), Demand(table[id := r], category, r.checkin);
    var own := set k | 0 <= k <= |r.lines| && r.Wanted(k) == Some(category) :: (id, k);
    assert before + own <= after;
    assert before !! own;
    SubsetSize(before + own, after);
    if r.lines != [] {
      Matching.CountIsSize(r.lines, category);
      var positions := Matching.Asking(r.lines, category);
      forall i | i in positions ensures (id, i + 1) in own {
        assert r.Wanted(i + 1) == Some(category);
      }
      InjectiveSize(positions, own, map i | i in positions :: (id, i + 1));
    } else if r.Wanted(0) == Some(category) {
      assert (id, 0) in own;
      SubsetSize({(id, 0)}, own);
    }
  }

  /** With the booking, its first night asks for no more rooms than there are of any category it wants. */
  ghost predicate ArrivalFits(s: State, r: Reservation) {
    forall category :: Need(r, category) > 0 ==>
      |Demand(s.table[s.nextId := r], category, r.checkin)| <= Capacity(s.rooms, category)
  }

  /** There is a free room for each slot of the next arrival. */
  lemma RoomForAll(s: State, latest: int, r: Reservation, category: string)
    requires Packed(s, latest) && latest <= r.checkin < r.checkout && r.Live() && ArrivalFits(s, r)
    ensures Need(r, category)
         <= |FreeRooms(s.rooms, category, OccupiedRoomIds(s.table, r.checkin, r.checkout, Some(s.nextId)))|
  {
    if Need(r, category) > 0 {
      var occupied := OccupiedRoomIds(s.table, r.checkin, r.checkout, Some(s.nextId));
      FreeAfterTaking(s.rooms, category, occupied);
      BlockedByDemand(s, latest, r.checkin, r.checkout, s.nextId, category);
      NewDemand(s.table, s.nextId, r, category);
    }
  }

  /** When every slot is served without double booking, no night asks for more rooms of a category than there are. */
  lemma PackedIsWithinCapacity(s: State, latest: int)
    requires Packed(s, latest)
    ensures WithinCapacity(s)
  {
    forall category, day ensures |Demand(s.table, category, day)| <= Capacity(s.rooms, category) {
      var demand, ids := Demand(s.table, category, day), CategoryIds(s.rooms, category);
      forall slot | slot in demand
        ensures SlotSeated(s.rooms, s.table[slot.0], slot.1, latest) && s.table[slot.0].RoomAt(slot.1).value in ids
      {
        assert Seated(s.rooms, s.table[slot.0], latest);
        CategoryIdsExactly(s.rooms, category, s.table[slot.0].RoomAt(slot.1).value);
      }
      var held := map slot | slot in demand :: s.table[slot.0].RoomAt(slot.1).value;
      forall x, y | x in demand && y in demand && held[x] == held[y] ensures x == y {
        assert !Clash(s.table, x.0, x.1, y.0, y.1);
      }
      InjectiveSize(demand, ids, held);
      AsManyAsFree(s.rooms, category);
    }
  }

  lemma AsManyAsFree(rooms: seq<Room>, category: string)
    ensures |CategoryIds(rooms, category)| <= Capacity(rooms, category)
  {
    var free, ids := FreeRooms(rooms, category, {}), CategoryIds(rooms, category);
    FreeRoomsExactly(rooms, category, {});
    forall id | id in ids ensures id in free {
      CategoryIdsExactly(rooms, category, id);
      var i :| 0 <= i < |rooms| && rooms[i].id == id && rooms[i].category == category && rooms[i].active;
      assert Fits(rooms[i], category, {});
    }
    MembersSize(free);
    SubsetSize(ids, set id | id in free);
  }

  /** A room a stored reservation holds is free for it again once it is cleared: nobody else overlaps in it. */
  lemma OwnRoomIsFree(s: State, id: int, k: int, latest: int)
    requires Packed(s, latest) && id in s.table && s.table[id].Live() && s.table[id].HasSlot(k)
        && s.table[id].RoomAt(k).Some?
    ensures var r := s.table[id];
      SlotSeated(s.rooms, r, k, latest) &&
      r.RoomAt(k).value in FreeRooms(s.rooms, r.Wanted(k).value,
          OccupiedRoomIds(s.table, r.checkin, r.checkout, Some(id)))
  {
    var r, room := s.table[id], s.table[id].RoomAt(k).value;
    var occupied := OccupiedRoomIds(s.table, r.checkin, r.checkout, Some(id));
    assert SlotSeated(s.rooms, r, k, latest);
    if room in occupied {
      var a, j :| a in s.table && Blocks(s.table, a, r.checkin, r.checkout, Some(id)) &&
        0 <= j <= |s.table[a].lines| && s.table[a].RoomAt(j) == Some(room);
      assert Clash(s.table, id, k, a, j);
      assert false;
    }
    FreeRoomsExactly(s.rooms, r.Wanted(k).value, occupied);
    var i :| 0 <= i < |s.rooms| && s.rooms[i].id == room && s.rooms[i].category == r.Wanted(k).value
        && s.rooms[i].active;
    assert Fits(s.rooms[i], r.Wanted(k).value, occupied);
  }

  /** The rooms a reservation holds are a matching for its lines, so there are enough free ones to serve it again. */
  lemma RoomForAllAgain(s: State, id: int, latest: int, category: string)
    requires Packed(s, latest) && id in s.table && s.table[id].Live()
    ensures var r := s.table[id];
      |FreeRooms(s.rooms, category, OccupiedRoomIds(s.table, r.checkin, r.checkout, Some(id)))| >= Need(r, category)
  {
    var r := s.table[id];
    var occupied := OccupiedRoomIds(s.table, r.checkin, r.checkout, Some(id));
    if r.lines == [] {
      if r.Wanted(0) == Some(category) {
        assert r.HasSlot(0) && SlotSeated(s.rooms, r, 0, latest);
        OwnRoomIsFree(s, id, 0, latest);
      }
    } else {
      var chosen := Matching.Choices(r.lines);
      forall i | 0 <= i < |r.lines|
        ensures chosen[i].Some? && chosen[i].value in FreeRooms(s.rooms, r.lines[i].roomType, occupied)
      {
        assert r.HasSlot(i + 1) && SlotSeated(s.rooms, r, i + 1, latest);
        OwnRoomIsFree(s, id, i + 1, latest);
      }
      forall i, j | 0 <= i < j < |r.lines| ensures chosen[i] != chosen[j] {
        assert SlotSeated(s.rooms, r, i + 1, latest);
        assert !Clash(s.table, id, i + 1, id, j + 1);
      }
      Matching.CategoryBound(s.rooms, r.lines, occupied, chosen, category);
      Matching.CountIsSize(r.lines, category);
      assert Matching.Served(r.lines, chosen, {category}) == Matching.Asking(r.lines, category);
    }
  }

  lemma LineServed(rooms: seq<Room>, occupied: set<int>, r: Reservation, k: int)
    requires DistinctRooms(rooms) && 1 <= k <= |r.lines|
    requires |FreeRooms(rooms, r.lines[k - 1].roomType, occupied)| >= Need(r, r.lines[k - 1].roomType)
    ensures |AssignLines(rooms, Clear(r).lines, occupied)| == |r.lines|
    ensures var line := AssignLines(rooms, Clear(r).lines, occupied)[k - 1];
      && line.roomType == r.lines[k - 1].roomType
      && line.assignedRoom.Some? && RoomIn(rooms, line.assignedRoom.value, line.roomType)
  {
    var lines, category := Clear(r).lines, r.lines[k - 1].roomType;
    AssignLinesKeeps(rooms, lines, occupied);
    SameCount(r.lines, lines, category);
    Matching.GreedyRank(rooms, lines, occupied, k - 1);
    Matching.CountMonotone(lines, category, k - 1);
    FreeIsInCategory(rooms, category, occupied, Matching.Count(lines[..k - 1], category));
  }

  /** With enough free rooms of every category the assignment serves every slot. */
  lemma SeatedWhenEnough(rooms: seq<Room>, occupied: set<int>, r: Reservation, latest: int)
    requires DistinctRooms(rooms) && r.checkin < r.checkout && r.checkin <= latest
    requires forall category :: |FreeRooms(rooms, category, occupied)| >= Need(r, category)
    ensures Seated(rooms, AssignRooms(rooms, occupied, Clear(r)), latest)
  {
    var row := Clear(r);
    var placed := AssignRooms(rooms, occupied, row);
    AssignLinesKeeps(rooms, row.lines, occupied);
    forall k | placed.HasSlot(k) ensures SlotSeated(rooms, placed, k, latest) {
      if k > 0 {
        LineServed(rooms, occupied, r, k);
      } else if r.lines == [] && row.Wanted(0).Some? {
        assert Need(r, row.Wanted(0).value) == 1;
        FreeIsInCategory(rooms, row.Wanted(0).value, occupied, 0);
      }
    }
  }

  /** What the assignment gives out are rooms of the right category, so serving every slot seats the row. */
  lemma SeatedWhenServed(rooms: seq<Room>, occupied: set<int>, r: Reservation, latest: int)
    requires DistinctRooms(rooms) && r.checkin < r.checkout && r.checkin <= latest
    requires var placed := AssignRooms(rooms, occupied, Clear(r));
      forall k :: placed.HasSlot(k) && placed.Wanted(k).Some? ==> placed.RoomAt(k).Some?
    ensures Seated(rooms, AssignRooms(rooms, occupied, Clear(r)), latest)
  {
    var row := Clear(r);
    var placed := AssignRooms(rooms, occupied, row);
    AssignLinesKeeps(rooms, row.lines, occupied);
    forall k | placed.HasSlot(k) ensures SlotSeated(rooms, placed, k, latest) {
      if k > 0 {
        var category := row.lines[k - 1].roomType;
        assert placed.Wanted(k) == Some(category);
        Matching.GreedyRank(rooms, row.lines, occupied, k - 1);
        FreeIsInCategory(rooms, category, occupied, Matching.Count(row.lines[..k - 1], category));
      } else if r.lines == [] && row.Wanted(0).Some? {
        FreeIsInCategory(rooms, row.Wanted(0).value, occupied, 0);
      }
    }
  }

  lemma {:induction false} SameCount(lines: seq<Line>, others: seq<Line>, category: string)
    requires |lines| == |others| && forall i :: 0 <= i < |lines| ==> lines[i].roomType == others[i].roomType
    ensures Matching.Count(lines, category) == Matching.Count(others, category)
  {
    if lines != [] { SameCount(lines[..|lines| - 1], others[..|others| - 1], category); }
  }

  lemma FreeIsInCategory(rooms: seq<Room>, category: string, taken: set<int>, n: nat)
    requires n < |FreeRooms(rooms, category, taken)|
    ensures RoomIn(rooms, FreeRooms(rooms, category, taken)[n], category)
  {
    FreeRoomsExactly(rooms, category, taken);
    assert FreeRooms(rooms, category, taken)[n] in FreeRooms(rooms, category, taken);
  }

  /** Assignments do not change what a row asks for. */
  lemma SameDemand(table: Table, id: int, rooms: seq<Room>, occupied: set<int>, r: Reservation, category: string,
                   day: int)
    requires id !in table
    ensures Demand(table[id := AssignRooms(rooms, occupied, Clear(r))], category, day)
        == Demand(table[id := r], category, day)
  {
    var row := Clear(r);
    var placed := AssignRooms(rooms, occupied, row);
    AssignLinesKeeps(rooms, row.lines, occupied);
    forall k | r.HasSlot(k) ensures placed.HasSlot(k) && placed.Wanted(k) == r.Wanted(k) {
      if k > 0 { assert placed.lines[k - 1].roomType == row.lines[k - 1].roomType; }
    }
  }

  // ---- Every step keeps every slot served -------------------------------------

  lemma SeatedLater(rooms: seq<Room>, r: Reservation, latest: int, later: int)
    requires Seated(rooms, r, latest) && latest <= later
    ensures Seated(rooms, r, later)
  {
    if r.Live() {
      forall k | r.HasSlot(k) ensures SlotSeated(rooms, r, k, later) {
        assert SlotSeated(rooms, r, k, latest);
      }
    }
  }

  lemma NobodyBlamed(s: State, x: Action)
    requires WellFormed(s) && Blamed(s.table, {}) && Careful(x)
    ensures Blamed(Apply(s, x).table, {})
  {
    CarefulAddsNoClash(s, x);
  }

  lemma ArrivalSeated(s: State, latest: int, x: Action)
    requires Packed(s, latest) && x.Create? && Gentle(s, x, latest)
    requires Seated(s.rooms, Apply(s, x).table[s.nextId], Latest(x, latest))
    ensures Packed(Apply(s, x), Latest(x, latest))
  {
    var next := Apply(s, x);
    ApplyWellFormed(s, x);
    NobodyBlamed(s, x);
    forall id | id in next.table ensures Seated(next.rooms, next.table[id], Latest(x, latest)) {
      if id != s.nextId { SeatedLater(s.rooms, s.table[id], latest, Latest(x, latest)); }
    }
  }

  /** Booking an arrival that fits leaves every slot served. */
  lemma BookingIsPlaced(s: State, latest: int, x: Action)
    requires Packed(s, latest) && x.Create? && Gentle(s, x, latest) && (x.draft.Live() ==> ArrivalFits(s, x.draft))
    ensures Packed(Apply(s, x), Latest(x, latest))
  {
    var r := x.draft;
    var occupied := OccupiedRoomIds(s.table, r.checkin, r.checkout, Some(s.nextId));
    if r.Live() {
      forall category ensures |FreeRooms(s.rooms, category, occupied)| >= Need(r, category) {
        RoomForAll(s, latest, r, category);
      }
      SeatedWhenEnough(s.rooms, occupied, r, r.checkin);
    }
    ArrivalSeated(s, latest, x);
  }

  lemma CapacityMakesFit(s: State, x: Action)
    requires WellFormed(s) && x.Create? && s.autoAssign && WithinCapacity(Apply(s, x))
    ensures ArrivalFits(s, x.draft)
  {
    var r := x.draft;
    var occupied := OccupiedRoomIds(s.table, r.checkin, r.checkout, Some(s.nextId));
    forall category | Need(r, category) > 0
      ensures |Demand(s.table[s.nextId := r], category, r.checkin)| <= Capacity(s.rooms, category)
    {
      SameDemand(s.table, s.nextId, s.rooms, occupied, r, category, r.checkin);
    }
  }

  /** The next arrival is served in every slot exactly when it fits, which is when no night is then over capacity. */
  lemma ArrivalServedExactly(s: State, latest: int, x: Action)
    requires Packed(s, latest) && x.Create? && x.draft.Live() && Gentle(s, x, latest)
    ensures AllPlaced(Apply(s, x).table) <==> ArrivalFits(s, x.draft)
    ensures WithinCapacity(Apply(s, x)) <==> ArrivalFits(s, x.draft)
  {
    var r, next := x.draft, Apply(s, x);
    if ArrivalFits(s, r) {
      BookingIsPlaced(s, latest, x);
      PackedIsPlaced(next, Latest(x, latest));
      PackedIsWithinCapacity(next, Latest(x, latest));
    }
    if AllPlaced(next.table) {
      var occupied := OccupiedRoomIds(s.table, r.checkin, r.checkout, Some(s.nextId));
      assert next.table[s.nextId] == AssignRooms(s.rooms, occupied, Clear(r));
      SeatedWhenServed(s.rooms, occupied, r, r.checkin);
      ArrivalSeated(s, latest, x);
      PackedIsWithinCapacity(next, Latest(x, latest));
    }
    if WithinCapacity(next) { CapacityMakesFit(s, x); }
  }

  lemma PackedIsPlaced(s: State, latest: int)
    requires Packed(s, latest)
    ensures AllPlaced(s.table)
  {
    forall id, k | id in s.table && s.table[id].Live() && s.table[id].HasSlot(k) && s.table[id].Wanted(k).Some?
      ensures s.table[id].RoomAt(k).Some?
    {
      assert SlotSeated(s.rooms, s.table[id], k, latest);
    }
  }

  /** Reassigning serves every slot again, whoever else has arrived since. */
  lemma ReassignKeepsPlaced(s: State, latest: int, id: int)
    requires Packed(s, latest)
    ensures Packed(Apply(s, Reassign(id)), latest)
  {
    ApplyWellFormed(s, Reassign(id));
    NobodyBlamed(s, Reassign(id));
    if id in s.table && s.table[id].Live() {
      var r := s.table[id];
      var occupied := OccupiedRoomIds(s.table, r.checkin, r.checkout, Some(id));
      forall category ensures |FreeRooms(s.rooms, category, occupied)| >= Need(r, category) {
        RoomForAllAgain(s, id, latest, category);
      }
      if r.lines == [] && r.Wanted(0).None? {
        assert AssignRooms(s.rooms, occupied, Clear(r)) == Clear(r);
      } else {
        var k := if r.lines == [] then 0 else 1;
        assert r.Wanted(k).Some? && SlotSeated(s.rooms, r, k, latest);
        SeatedWhenEnough(s.rooms, occupied, r, latest);
      }
    }
  }

  lemma EditKeepsPlaced(s: State, latest: int, id: int, row: Reservation)
    requires Packed(s, latest) && id in s.table && Mild(s.table[id], row)
    ensures Packed(s.(table := s.table[id := row]), latest)
  {
    var after := s.table[id := row];
    if row.Live() {
      NarrowRow(s.table, id, row);
      forall a, i, b, j ensures !Clash(after, a, i, b, j) {
        assert !Clash(s.table, a, i, b, j);
      }
      forall k | row.HasSlot(k) ensures SlotSeated(s.rooms, row, k, latest) {
        assert SlotSeated(s.rooms, s.table[id], k, latest);
      }
    } else {
      NoClashAt(s.table, after, id, {});
    }
  }

  lemma RoomsKeepPlaced(s: State, latest: int, next: State)
    requires Packed(s, latest) && WellFormed(next) && Blamed(next.table, {}) && next.table == s.table
    requires forall room, category ::
        RoomIn(s.rooms, room, category) && Held(s.table, room) ==> RoomIn(next.rooms, room, category)
    ensures Packed(next, latest)
  {
    forall id | id in next.table && next.table[id].Live() ensures Seated(next.rooms, next.table[id], latest) {
      var r := s.table[id];
      forall k | r.HasSlot(k) ensures SlotSeated(next.rooms, r, k, latest) {
        assert SlotSeated(s.rooms, r, k, latest);
        if r.RoomAt(k).Some? {
          assert 0 <= k <= |r.lines| && r.RoomAt(k) == Some(r.RoomAt(k).value);
          assert Held(s.table, r.RoomAt(k).value);
        }
      }
    }
  }

  predicate Survives(others: seq<Room>, room: Room) {
    exists i :: 0 <= i < |others| && others[i].id == room.id && others[i].category == room.category
                && (room.active ==> others[i].active)
  }

  lemma SurvivesAs(others: seq<Room>, room: Room, other: Room)
    requires other in others && other.id == room.id && other.category == room.category && (room.active ==> other.active)
    ensures Survives(others, room)
  {
    var i :| 0 <= i < |others| && others[i] == other;
  }

  lemma StillThere(rooms: seq<Room>, others: seq<Room>, id: int, category: string)
    requires RoomIn(rooms, id, category)
    requires forall room :: room in rooms && room.id == id ==> Survives(others, room)
    ensures RoomIn(others, id, category)
  {
    var i :| 0 <= i < |rooms| && rooms[i].id == id && rooms[i].category == category && rooms[i].active;
    assert rooms[i] in rooms;
  }

  lemma AddRoomKeepsPlaced(s: State, latest: int, x: Action)
    requires Packed(s, latest) && x.AddRoom?
    ensures Packed(Apply(s, x), latest)
  {
    var next := Apply(s, x);
    ApplyWellFormed(s, x);
    InsertMembers(s.rooms, NewRoom(s, x), x.position);
    forall room, category | RoomIn(s.rooms, room, category) ensures RoomIn(next.rooms, room, category) {
      forall r | r in s.rooms && r.id == room ensures Survives(next.rooms, r) { SurvivesAs(next.rooms, r, r); }
      StillThere(s.rooms, next.rooms, room, category);
    }
    RoomsKeepPlaced(s, latest, next);
  }

  lemma EditRoomKeepsPlaced(s: State, latest: int, x: Action)
    requires Packed(s, latest) && x.EditRoom? && Gentle(s, x, latest)
    ensures Packed(Apply(s, x), latest)
  {
    var next := Apply(s, x);
    ApplyWellFormed(s, x);
    if !EditRefused(s, x) {
      var room := RoomById(s.rooms, x.roomId).value;
      WithoutRoomDistinct(s.rooms, x.roomId);
      InsertMembers(WithoutRoom(s.rooms, x.roomId), EditedRoom(room, x), x.position);
      forall id, category | RoomIn(s.rooms, id, category) && Held(s.table, id)
        ensures RoomIn(next.rooms, id, category)
      {
        OnlyOne(s.rooms, room);
        forall r | r in s.rooms && r.id == id ensures Survives(next.rooms, r) {
          SurvivesAs(next.rooms, r, if id == x.roomId then EditedRoom(room, x) else r);
        }
        StillThere(s.rooms, next.rooms, id, category);
      }
      RoomsKeepPlaced(s, latest, next);
    }
  }

  lemma OnlyOne(rooms: seq<Room>, room: Room)
    requires DistinctRooms(rooms) && room in rooms
    ensures forall other :: other in rooms && other.id == room.id ==> other == room
  {
  }

  lemma DeleteRoomKeepsPlaced(s: State, latest: int, roomId: int)
    requires Packed(s, latest) && !Held(s.table, roomId)
    ensures Packed(Apply(s, DeleteRoom(roomId)), latest)
  {
    var next := Apply(s, DeleteRoom(roomId));
    ApplyWellFormed(s, DeleteRoom(roomId));
    NobodyBlamed(s, DeleteRoom(roomId));
    if RoomById(s.rooms, roomId).Some? {
      WithoutRoomDistinct(s.rooms, roomId);
      forall id | id in next.table && next.table[id].Live() ensures Seated(next.rooms, next.table[id], latest) {
        VacatedSeated(s, latest, roomId, id);
      }
    }
  }

  lemma VacatedSeated(s: State, latest: int, roomId: int, id: int)
    requires Packed(s, latest) && !Held(s.table, roomId) && id in s.table && s.table[id].Live()
    ensures Seated(WithoutRoom(s.rooms, roomId), VacateRow(s.table[id], roomId), latest)
  {
    var r, v, left := s.table[id], VacateRow(s.table[id], roomId), WithoutRoom(s.rooms, roomId);
    WithoutRoomDistinct(s.rooms, roomId);
    forall k | v.HasSlot(k) ensures SlotSeated(left, v, k, latest) {
      assert SlotSeated(s.rooms, r, k, latest) && v.Wanted(k) == r.Wanted(k);
      assert 0 <= k <= |r.lines| && r.RoomAt(k) != Some(roomId);
      if r.RoomAt(k).Some? {
        forall room | room in s.rooms && room.id == r.RoomAt(k).value ensures Survives(left, room) {
          SurvivesAs(left, room, room);
        }
        StillThere(s.rooms, left, r.RoomAt(k).value, r.Wanted(k).value);
      }
    }
  }

  lemma WalkinKeepsPlaced(s: State, latest: int, x: Action)
    requires Packed(s, latest) && x.Walkin? && RoomById(s.rooms, x.room).None?
    ensures Packed(Apply(s, x), latest)
  {
    var after := Apply(s, x).table;
    ApplyWellFormed(s, x);
    assert after - {s.nextId} == s.table - {s.nextId};
    assert forall k ::
        after[s.nextId].HasSlot(k) ==> after[s.nextId].RoomAt(k).None? && after[s.nextId].Wanted(k).None?;
    NoClashAt(s.table, after, s.nextId, {});
  }

  lemma GentleKeepsPlaced(s: State, latest: int, x: Action)
    requires Packed(s, latest) && Gentle(s, x, latest) && (x.Create? && x.draft.Live() ==> ArrivalFits(s, x.draft))
    ensures Packed(Apply(s, x), Latest(x, latest))
  {
    match x
    case Create(_) => BookingIsPlaced(s, latest, x);
    case Walkin(_, _, _, _, _, _) => WalkinKeepsPlaced(s, latest, x);
    case Patch(id, _, _, _, _, _) =>
      if id in s.table && !PatchFails(x) { EditKeepsPlaced(s, latest, id, PatchRow(s.table[id], x)); }
    case SetStatus(id, status) =>
      if id in s.table { EditKeepsPlaced(s, latest, id, s.table[id].(status := status)); }
    case Cancel(id) =>
      if id in s.table { EditKeepsPlaced(s, latest, id, s.table[id].(status := Cancelled)); }
    case Delete(_) => NobodyBlamed(s, x);
    case Reassign(id) => ReassignKeepsPlaced(s, latest, id);
    case AssignManually(id, line, target) =>
      if AssignAccepted(s, x) { EditKeepsPlaced(s, latest, id, AssignRow(s.table[id], line, target)); }
    case AddRoom(_, _, _, _) => AddRoomKeepsPlaced(s, latest, x);
    case EditRoom(_, _, _, _, _) => EditRoomKeepsPlaced(s, latest, x);
    case DeleteRoom(roomId) => DeleteRoomKeepsPlaced(s, latest, roomId);
    case SetAutoAssign(_) =>
  }

  ghost predicate ArrivalsFit(s: State, run: seq<Action>)
    decreases |run|
  {
    run == [] ||
    (&& (run[0].Create? && run[0].draft.Live() ==> ArrivalFits(s, run[0].draft))
     && ArrivalsFit(Apply(s, run[0]), run[1..]))
  }

  /** In every state of the run every slot that asks for a room has one. */
  ghost predicate AlwaysPlaced(s: State, run: seq<Action>)
    decreases |run|
  {
    AllPlaced(s.table) && (run == [] || AlwaysPlaced(Apply(s, run[0]), run[1..]))
  }

  /** In every state of the run no night asks for more rooms of a category than there are. */
  ghost predicate AlwaysWithinCapacity(s: State, run: seq<Action>)
    decreases |run|
  {
    WithinCapacity(s) && (run == [] || AlwaysWithinCapacity(Apply(s, run[0]), run[1..]))
  }

  /**
    However long the run: every slot is always served if and only if demand is always
    within capacity, for which it is enough to look at the first night of each arrival.
   */
  lemma {:induction false} ServedExactly(s: State, run: seq<Action>, latest: int)
    requires Packed(s, latest) && Orderly(s, run, latest)
    ensures AlwaysPlaced(s, run) <==> AlwaysWithinCapacity(s, run)
    ensures AlwaysPlaced(s, run) <==> ArrivalsFit(s, run)
    decreases |run|
  {
    PackedIsPlaced(s, latest);
    PackedIsWithinCapacity(s, latest);
    if run != [] {
      var x := run[0];
      if x.Create? && x.draft.Live() { ArrivalServedExactly(s, latest, x); }
      if x.Create? && x.draft.Live() && !ArrivalFits(s, x.draft) {
        assert !AllPlaced(Apply(s, x).table) && !WithinCapacity(Apply(s, x));
      } else {
        GentleKeepsPlaced(s, latest, x);
        ServedExactly(Apply(s, x), run[1..], Latest(x, latest));
      }
    }
  }

  /** Interval partitioning: within capacity, a run leaves no slot without a room and nothing double booked. */
  lemma {:induction false} EverySlotIsServed(s: State, overridden: set<int>, run: seq<Action>, latest: int)
    requires Packed(s, latest) && Orderly(s, run, latest) && AlwaysWithinCapacity(s, run)
    ensures var end := Run(s, overridden, run).0;
      AllPlaced(end.table) && forall a, i, b, j :: !Clash(end.table, a, i, b, j)
    decreases |run|
  {
    PackedIsPlaced(s, latest);
    if run != [] {
      var x := run[0];
      assert WithinCapacity(Apply(s, x));
      if x.Create? && x.draft.Live() { ArrivalServedExactly(s, latest, x); }
      GentleKeepsPlaced(s, latest, x);
      EverySlotIsServed(Apply(s, x), Blame(s, x, overridden), run[1..], Latest(x, latest));
    }
  }

  // ---- Why edits of wishes are excluded ---------------------------------------

  function Stay(category: string, room: Option<int>): Reservation {
    Reservation(None, "", "", 0, 1, Some(category), Manual, room, [], 0)
  }

  /** One room of each of two categories, and a guest in the first. */
  function SmallHouse(): State {
    State([Room(1, "1", "A", true), Room(2, "2", "B", true)], 3, map[1 := Stay("A", Some(1))], 2, true)
  }

  lemma SmallHouseIsPacked()
    ensures Packed(SmallHouse(), 0)
  {
    var s, r := SmallHouse(), Stay("A", Some(1));
    assert s.rooms[0].id == 1 && s.rooms[0].category == "A" && s.rooms[0].active;
    assert RoomIn(s.rooms, 1, "A");
    forall k | r.HasSlot(k) ensures SlotSeated(s.rooms, r, k, 0) {
      assert k == 0;
    }
  }

  lemma SmallCapacity(rooms: seq<Room>)
    requires rooms == SmallHouse().rooms
    ensures Capacity(rooms, "A") == Capacity(rooms, "B") == 1
    ensures FreeRooms(rooms, "A", {1}) == []
  {
    assert rooms[1..] == [Room(2, "2", "B", true)] && rooms[1..][1..] == [];
    assert FreeRooms(rooms[1..], "A", {}) == FreeRooms(rooms[1..], "A", {1}) == [];
    assert FreeRooms(rooms[1..], "B", {}) == [2];
  }

  /**
    A change of the category a guest asks for keeps every slot served and every night
    within capacity, and still leaves the next arrival without a room.
   */
  lemma CategoryEditLeavesArrivalOut()
    ensures var edit := Patch(1, Keep, Keep, Keep, To("B"), Keep);
      var s := Apply(SmallHouse(), edit);
      var next := Apply(s, Create(Stay("A", None)));
      && Packed(SmallHouse(), 0) && Careful(edit)
      && AllPlaced(s.table) && WithinCapacity(next) && !AllPlaced(next.table)
  {
    var edit := Patch(1, Keep, Keep, Keep, To("B"), Keep);
    var s := Apply(SmallHouse(), edit);
    var draft := Stay("A", None);
    var next := Apply(s, Create(draft));
    SmallHouseIsPacked();
    SmallCapacity(s.rooms);
    assert s.table == map[1 := Stay("B", Some(1))];
    var occupied := OccupiedRoomIds(s.table, 0, 1, Some(2));
    OnlyRoomOne(s.table, occupied);
    assert Clear(draft) == draft;
    assert next.table == map[1 := Stay("B", Some(1)), 2 := draft];
    forall category, day ensures |Demand(next.table, category, day)| <= Capacity(s.rooms, category) {
      SmallDemand(next.table, category, day);
    }
    assert next.table[2].HasSlot(0) && next.table[2].Wanted(0).Some? && next.table[2].RoomAt(0).None?;
  }

  lemma OnlyRoomOne(table: Table, occupied: set<int>)
    requires table == map[1 := Stay("B", Some(1))] && occupied == OccupiedRoomIds(table, 0, 1, Some(2))
    ensures occupied == {1}
  {
    assert Blocks(table, 1, 0, 1, Some(2)) && table[1].RoomAt(0) == Some(1);
  }

  lemma SmallDemand(table: Table, category: string, day: int)
    requires table == map[1 := Stay("B", Some(1)), 2 := Stay("A", None)]
    ensures |Demand(table, category, day)| <= if category == "A" || category == "B" then 1 else 0
  {
    var slot := if category == "A" then (2, 0) else (1, 0);
    assert Demand(table, category, day) <= {slot};
    SubsetSize(Demand(table, category, day), {slot});
    if category != "A" && category != "B" { assert Demand(table, category, day) == {}; }
  }
}
