/**
  The per-day occupancy query and the room-by-date grid
  (backend/app/services/room_assignment.py), and how both relate to the overlap
  query the assignment uses.
 */
module RoomPlan {
  import opened Wrappers
  import opened Hotel
  import Bookings

  /** One row of the queries: who holds which room, and when. */
  datatype Row = Row(reservation: int, room: int, guest: string, checkin: int, checkout: int)
  {
    predicate Covers(day: int) { checkin <= day < checkout }
  }

  predicate IsAssigned(table: Table, id: int, k: int) {
    id in table && table[id].Live() && table[id].HasSlot(k) && table[id].RoomAt(k).Some?
  }

  function RowOf(table: Table, id: int, k: int): Row
    requires IsAssigned(table, id, k)
  {
    Row(id, table[id].RoomAt(k).value, table[id].guest, table[id].checkin, table[id].checkout)
  }

  predicate InRange(table: Table, id: int, k: int, from: int, to: int) {
    IsAssigned(table, id, k) && table[id].Overlaps(from, to)
  }

  predicate OnDay(table: Table, id: int, k: int, day: int) {
    IsAssigned(table, id, k) && table[id].Covers(day)
  }

  ghost predicate RangeRow(table: Table, row: Row, from: int, to: int) {
    exists id, k :: InRange(table, id, k, from, to) && row == RowOf(table, id, k)
  }

  ghost predicate DayRow(table: Table, row: Row, day: int) {
    exists id, k :: OnDay(table, id, k, day) && row == RowOf(table, id, k)
  }

  /** `rows` is the result, in some order, of the query for assigned live slots that overlap [from, to). */
  ghost predicate ListsRange(table: Table, rows: seq<Row>, from: int, to: int) {
    forall row :: row in rows <==> RangeRow(table, row, from, to)
  }

  /** The same for the query of one day. */
  ghost predicate ListsDay(table: Table, rows: seq<Row>, day: int) {
    forall row :: row in rows <==> DayRow(table, row, day)
  }

  // ---- The two dictionaries -------------------------------------------------

  type Grid = map<int, map<int, (int, string)>>

  function CellAt(grid: Grid, room: int, day: int): Option<(int, string)> {
    if room in grid && day in grid[room] then Some(grid[room][day]) else None
  }

  /** The last row that puts somebody in `room` on `day`. */
  function LastOn(rows: seq<Row>, room: int, day: int): Option<(int, string)> {
    if rows == [] then None
    else
      var last := rows[|rows| - 1];
      if last.room == room && last.Covers(day) then Some((last.reservation, last.guest))
      else LastOn(rows[..|rows| - 1], room, day)
  }

  function LastGuest(rows: seq<Row>, room: int): Option<string> {
    if rows == [] then None
    else if rows[|rows| - 1].room == room then Some(rows[|rows| - 1].guest)
    else LastGuest(rows[..|rows| - 1], room)
  }

  /** `occupied` maps each room of the rows to the guest of its last row. */
  ghost predicate Answers(occupied: map<int, string>, rows: seq<Row>) {
    forall room :: LastGuest(rows, room) == if room in occupied then Some(occupied[room]) else None
  }

  /** `grid` has the last row's cell for each room and day of the range, and nothing else. */
  ghost predicate Shows(grid: Grid, rows: seq<Row>, from: int, to: int) {
    forall room, day :: CellAt(grid, room, day) == if from <= day < to then LastOn(rows, room, day) else None
  }

  lemma GuestStep(rows: seq<Row>, n: nat, occupied: map<int, string>)
    requires n < |rows| && Answers(occupied, rows[..n])
    ensures Answers(occupied[rows[n].room := rows[n].guest], rows[..n + 1])
  {
    assert rows[..n + 1][..n] == rows[..n];
  }

  /** Room to guest, rows of the reservation query first, then those of the room-line query. */
  method RoomsOccupiedOnDate(reservationRows: seq<Row>, lineRows: seq<Row>) returns (occupied: map<int, string>)
    ensures Answers(occupied, reservationRows + lineRows)
  {
    occupied := map[];
    ghost var all := reservationRows + lineRows;
    for n := 0 to |reservationRows|
      invariant Answers(occupied, all[..n])
    {
      GuestStep(all, n, occupied);
      occupied := occupied[reservationRows[n].room := reservationRows[n].guest];
    }
    for n := 0 to |lineRows|
      invariant Answers(occupied, all[..|reservationRows| + n])
    {
      GuestStep(all, |reservationRows| + n, occupied);
      occupied := occupied[lineRows[n].room := lineRows[n].guest];
    }
    assert all[..|reservationRows| + |lineRows|] == all;
  }

  /** The grid over [from, to): each row is expanded day by day, later rows overwrite earlier ones. */
  method RoomPlanGrid(reservationRows: seq<Row>, lineRows: seq<Row>, from: int, to: int) returns (grid: Grid)
    ensures Shows(grid, reservationRows + lineRows, from, to)
    ensures forall room :: room in grid ==> grid[room] != map[]
  {
    grid := map[];
    var rows := reservationRows + lineRows;
    for n := 0 to |rows|
      invariant Shows(grid, rows[..n], from, to)
      invariant forall room :: room in grid ==> grid[room] != map[]
    {
      var row := rows[n];
      var day := if row.checkin >= from then row.checkin else from;
      var lastDay := if row.checkout <= to then row.checkout else to;
      ghost var first, before := day, grid;
      while day < lastDay
        invariant first <= day && if first <= lastDay then day <= lastDay else day == first
        invariant Overwritten(before, grid, row, first, day)
        invariant forall room :: room in grid ==> grid[room] != map[]
        decreases lastDay - day
      {
        var cells := if row.room in grid then grid[row.room] else map[];
        OverwriteOne(before, grid, row, first, day, cells);
        grid := grid[row.room := cells[day := (row.reservation, row.guest)]];
        assert day in grid[row.room];
        day := day + 1;
      }
      RowShown(rows, n, before, grid, from, to, first, day);
    }
    assert rows[..|rows|] == rows;
  }

  /** `grid` is `before` with the cells of `row` written for the days [first, day). */
  ghost predicate Overwritten(before: Grid, grid: Grid, row: Row, first: int, day: int) {
    forall room, d :: CellAt(grid, room, d) ==
      if room == row.room && first <= d < day then Some((row.reservation, row.guest)) else CellAt(before, room, d)
  }

  lemma RowShown(rows: seq<Row>, n: nat, before: Grid, grid: Grid, from: int, to: int, first: int, last: int)
    requires n < |rows| && Shows(before, rows[..n], from, to) && Overwritten(before, grid, rows[n], first, last)
    requires forall d :: first <= d < last <==> from <= d < to && rows[n].Covers(d)
    ensures Shows(grid, rows[..n + 1], from, to)
  {
    forall room, day
      ensures CellAt(grid, room, day) == if from <= day < to then LastOn(rows[..n + 1], room, day) else None
    {
      assert rows[..n + 1][..n] == rows[..n];
      assert CellAt(before, room, day) == if from <= day < to then LastOn(rows[..n], room, day) else None;
      assert rows[n].Covers(day) == (rows[n].checkin <= day < rows[n].checkout);
    }
  }

  lemma OverwriteOne(before: Grid, grid: Grid, row: Row, first: int, day: int, cells: map<int, (int, string)>)
    requires Overwritten(before, grid, row, first, day) && first <= day
    requires cells == if row.room in grid then grid[row.room] else map[]
    ensures Overwritten(before, grid[row.room := cells[day := (row.reservation, row.guest)]], row, first, day + 1)
  {
    var next := grid[row.room := cells[day := (row.reservation, row.guest)]];
    forall room, d
      ensures CellAt(next, room, d) ==
        if room == row.room && first <= d < day + 1 then Some((row.reservation, row.guest)) else CellAt(before, room, d)
    {
      assert CellAt(next, room, d) ==
        if room == row.room && d == day then Some((row.reservation, row.guest)) else CellAt(grid, room, d);
    }
  }

  // ---- The grid refines the per-day query -----------------------------------

  /** The rows of one day, kept in the order of the longer listing. */
  function DayRows(rows: seq<Row>, day: int): seq<Row> {
    if rows == [] then []
    else DayRows(rows[..|rows| - 1], day) + if rows[|rows| - 1].Covers(day) then [rows[|rows| - 1]] else []
  }

  lemma {:induction false} DayRowsExactly(rows: seq<Row>, day: int, row: Row)
    ensures row in DayRows(rows, day) <==> row in rows && row.Covers(day)
  {
    if rows != [] {
      DayRowsExactly(rows[..|rows| - 1], day, row);
      assert rows == rows[..|rows| - 1] + [rows[|rows| - 1]];
    }
  }

  lemma {:induction false} DayRowsConcat(a: seq<Row>, b: seq<Row>, day: int)
    ensures DayRows(a + b, day) == DayRows(a, day) + DayRows(b, day)
  {
    if b == [] {
      assert a + b == a;
    } else {
      DayRowsConcat(a, b[..|b| - 1], day);
      assert (a + b)[..|a + b| - 1] == a + b[..|b| - 1];
    }
  }

  /** Cutting a range listing down to one of its days lists exactly that day's query. */
  lemma DayOfRange(table: Table, rows: seq<Row>, from: int, to: int, day: int)
    requires ListsRange(table, rows, from, to) && from <= day < to
    ensures ListsDay(table, DayRows(rows, day), day)
  {
    forall row
      ensures row in DayRows(rows, day) <==> DayRow(table, row, day)
    {
      DayRowsExactly(rows, day, row);
      if row in rows && row.Covers(day) {
        var id, k :| InRange(table, id, k, from, to) && row == RowOf(table, id, k);
        assert OnDay(table, id, k, day);
      }
      if DayRow(table, row, day) {
        var id, k :| OnDay(table, id, k, day) && row == RowOf(table, id, k);
        assert InRange(table, id, k, from, to);
        assert RangeRow(table, row, from, to);
      }
    }
  }

  /** On every day the last row decides both answers. */
  lemma {:induction false} LastAgrees(rows: seq<Row>, room: int, day: int)
    ensures LastGuest(DayRows(rows, day), room)
      == match LastOn(rows, room, day) case None => None case Some(cell) => Some(cell.1)
  {
    if rows != [] {
      var front, last := rows[..|rows| - 1], rows[|rows| - 1];
      LastAgrees(front, room, day);
      if last.Covers(day) {
        var cut, frontCut := DayRows(rows, day), DayRows(front, day);
        assert cut == frontCut + [last];
        assert cut[..|cut| - 1] == frontCut;
      } else {
        assert DayRows(rows, day) == DayRows(front, day);
      }
    }
  }

  /**
    For every day of the range, the cells of the grid are the answer of the
    per-day query, room by room and guest by guest; outside the range there are none.
   */
  lemma GridRefinesDays(table: Table, reservationRows: seq<Row>, lineRows: seq<Row>, from: int, to: int,
                        grid: Grid, day: int, occupied: map<int, string>)
    requires ListsRange(table, reservationRows + lineRows, from, to)
    requires Shows(grid, reservationRows + lineRows, from, to)
    requires Answers(occupied, DayRows(reservationRows, day) + DayRows(lineRows, day))
    ensures from <= day < to ==> ListsDay(table, DayRows(reservationRows, day) + DayRows(lineRows, day), day)
    ensures from <= day < to ==> forall room ::
      (CellAt(grid, room, day).Some? <==> room in occupied) &&
      (room in occupied ==> CellAt(grid, room, day).value.1 == occupied[room])
    ensures !(from <= day < to) ==> forall room :: CellAt(grid, room, day).None?
  {
    DayRowsConcat(reservationRows, lineRows, day);
    if from <= day < to {
      DayOfRange(table, reservationRows + lineRows, from, to, day);
      forall room
        ensures CellAt(grid, room, day).Some? <==> room in occupied
        ensures room in occupied ==> CellAt(grid, room, day).value.1 == occupied[room]
      {
        LastAgrees(reservationRows + lineRows, room, day);
      }
    }
  }

  // ---- Row order ------------------------------------------------------------

  predicate On(row: Row, room: int, day: int) {
    row.room == room && row.Covers(day)
  }

  /** The last row is one of the rows, and there is one unless no row is on that room and day. */
  lemma {:induction false} LastIsARow(rows: seq<Row>, room: int, day: int)
    ensures LastOn(rows, room, day).None? ==> forall row :: row in rows ==> !On(row, room, day)
    ensures LastOn(rows, room, day).Some? ==>
      exists row :: row in rows && On(row, room, day) && LastOn(rows, room, day) == Some((row.reservation, row.guest))
  {
    if rows != [] {
      var front := rows[..|rows| - 1];
      LastIsARow(front, room, day);
      assert rows == front + [rows[|rows| - 1]];
    }
  }

  ghost predicate NoDoubleBooking(table: Table) {
    forall a, i, b, j :: !Bookings.Clash(table, a, i, b, j)
  }

  /** Without double bookings at most one row is on a room on a day. */
  lemma OneRowPerCell(table: Table, row: Row, other: Row, from: int, to: int, room: int, day: int)
    requires NoDoubleBooking(table)
    requires RangeRow(table, row, from, to) && RangeRow(table, other, from, to)
    requires On(row, room, day) && On(other, room, day)
    ensures row == other
  {
    var a, i :| InRange(table, a, i, from, to) && row == RowOf(table, a, i);
    var b, j :| InRange(table, b, j, from, to) && other == RowOf(table, b, j);
    assert !Bookings.Clash(table, a, i, b, j);
  }

  /** Without double bookings the grid is the same whatever order the rows come in. */
  lemma OrderDoesNotMatter(table: Table, rows: seq<Row>, other: seq<Row>, from: int, to: int, grid: Grid)
    requires NoDoubleBooking(table)
    requires ListsRange(table, rows, from, to) && ListsRange(table, other, from, to)
    ensures Shows(grid, rows, from, to) <==> Shows(grid, other, from, to)
  {
    forall room, day
      ensures LastOn(rows, room, day) == LastOn(other, room, day)
    {
      LastIsARow(rows, room, day);
      LastIsARow(other, room, day);
      if LastOn(rows, room, day).Some? && LastOn(other, room, day).Some? {
        var row :| row in rows && On(row, room, day) && LastOn(rows, room, day) == Some((row.reservation, row.guest));
        var row' :| row' in other && On(row', room, day)
            && LastOn(other, room, day) == Some((row'.reservation, row'.guest));
        OneRowPerCell(table, row, row', from, to, room, day);
      }
    }
    SameLastSameGrid(rows, other, from, to, grid);
    SameLastSameGrid(other, rows, from, to, grid);
  }

  lemma SameLastSameGrid(rows: seq<Row>, other: seq<Row>, from: int, to: int, grid: Grid)
    requires forall room, day :: LastOn(rows, room, day) == LastOn(other, room, day)
    ensures Shows(grid, rows, from, to) ==> Shows(grid, other, from, to)
  {
    if Shows(grid, rows, from, to) {
      forall room, day
        ensures CellAt(grid, room, day) == if from <= day < to then LastOn(other, room, day) else None
      {
        assert LastOn(rows, room, day) == LastOn(other, room, day);
      }
    }
  }

  // ---- When the order matters -----------------------------------------------

  lemma {:induction false} LastOnConcat(a: seq<Row>, b: seq<Row>, room: int, day: int)
    ensures LastOn(a + b, room, day)
         == if LastOn(b, room, day).Some? then LastOn(b, room, day) else LastOn(a, room, day)
    decreases |b|
  {
    if b == [] {
      assert a + b == a;
    } else {
      var front := b[..|b| - 1];
      assert (a + b)[..|a + b| - 1] == a + front;
      LastOnConcat(a, front, room, day);
    }
  }

  function Without(rows: seq<Row>, row: Row): (others: seq<Row>)
    ensures forall other :: other in others <==> other in rows && other != row
  {
    if rows == [] then []
    else
      var others := Without(rows[1..], row);
      assert forall other :: other in rows <==> other == rows[0] || other in rows[1..];
      if rows[0] == row then others else [rows[0]] + others
  }

  /** The same rows, with this one at the end. */
  function MovedLast(rows: seq<Row>, row: Row): seq<Row> { Without(rows, row) + [row] }

  lemma MovedLastDecides(rows: seq<Row>, row: Row, room: int, day: int)
    requires row in rows && On(row, room, day)
    ensures forall other :: other in MovedLast(rows, row) <==> other in rows
    ensures LastOn(MovedLast(rows, row), room, day) == Some((row.reservation, row.guest))
  {
    assert MovedLast(rows, row)[|MovedLast(rows, row)| - 1] == row;
  }

  /** On no room and day of the range are there rows of two reservations. */
  ghost predicate OneReservationPerCell(table: Table, from: int, to: int) {
    forall a, b, room, day ::
      (from <= day < to && RangeRow(table, a, from, to) && RangeRow(table, b, from, to)
       && On(a, room, day) && On(b, room, day)) ==> a.reservation == b.reservation
  }

  lemma SameReservationSameGuest(table: Table, a: Row, b: Row, from: int, to: int)
    requires RangeRow(table, a, from, to) && RangeRow(table, b, from, to) && a.reservation == b.reservation
    ensures a.guest == b.guest
  {
  }

  /** The grid is the same for every order of all rows exactly when no cell has rows of two reservations. */
  lemma AnyOrderExactly(table: Table, rows: seq<Row>, from: int, to: int, grid: Grid)
    requires ListsRange(table, rows, from, to) && Shows(grid, rows, from, to)
    ensures (forall other :: ListsRange(table, other, from, to) ==> Shows(grid, other, from, to))
      <==> OneReservationPerCell(table, from, to)
  {
    if OneReservationPerCell(table, from, to) {
      forall other | ListsRange(table, other, from, to) ensures Shows(grid, other, from, to) {
        forall room, day | from <= day < to ensures LastOn(rows, room, day) == LastOn(other, room, day) {
          SameCell(table, rows, other, from, to, room, day);
        }
      }
    } else {
      var a, b, room, day :| from <= day < to && RangeRow(table, a, from, to) && RangeRow(table, b, from, to)
        && On(a, room, day) && On(b, room, day) && a.reservation != b.reservation;
      MovedLastDecides(rows, a, room, day);
      MovedLastDecides(rows, b, room, day);
      assert ListsRange(table, MovedLast(rows, a), from, to) && ListsRange(table, MovedLast(rows, b), from, to);
      assert Shows(grid, MovedLast(rows, a), from, to) ==> CellAt(grid, room, day) == Some((a.reservation, a.guest));
      assert Shows(grid, MovedLast(rows, b), from, to) ==> CellAt(grid, room, day) == Some((b.reservation, b.guest));
    }
  }

  lemma SameCell(table: Table, rows: seq<Row>, other: seq<Row>, from: int, to: int, room: int, day: int)
    requires OneReservationPerCell(table, from, to) && from <= day < to
    requires ListsRange(table, rows, from, to) && ListsRange(table, other, from, to)
    ensures LastOn(rows, room, day) == LastOn(other, room, day)
  {
    LastIsARow(rows, room, day);
    LastIsARow(other, room, day);
    if LastOn(rows, room, day).Some? && LastOn(other, room, day).Some? {
      var a :| a in rows && On(a, room, day) && LastOn(rows, room, day) == Some((a.reservation, a.guest));
      var b :| b in other && On(b, room, day) && LastOn(other, room, day) == Some((b.reservation, b.guest));
      SameReservationSameGuest(table, a, b, from, to);
    }
  }

  // The plan lists the rows of the reservations first, then those of their lines.

  ghost predicate KindRow(table: Table, row: Row, from: int, to: int, lines: bool) {
    exists id, k :: InRange(table, id, k, from, to) && (k > 0) == lines && row == RowOf(table, id, k)
  }

  /** The result of one of the two range queries, in some order. */
  ghost predicate ListsKind(table: Table, rows: seq<Row>, from: int, to: int, lines: bool) {
    forall row :: row in rows <==> KindRow(table, row, from, to, lines)
  }

  /** The row is on the cell, and is a line's or no line's row is on it. */
  ghost predicate Decides(table: Table, row: Row, lines: bool, from: int, to: int, room: int, day: int) {
    && KindRow(table, row, from, to, lines) && On(row, room, day)
    && (lines || forall other :: KindRow(table, other, from, to, true) ==> !On(other, room, day))
  }

  /** The rows that decide a cell all belong to one reservation. */
  ghost predicate Undisputed(table: Table, from: int, to: int) {
    forall a, b, lines, room, day ::
      (from <= day < to && Decides(table, a, lines, from, to, room, day)
       && Decides(table, b, lines, from, to, room, day)) ==> a.reservation == b.reservation
  }

  lemma LastDecides(table: Table, own: seq<Row>, lines: seq<Row>, from: int, to: int, room: int, day: int)
    returns (row: Row, kind: bool)
    requires ListsKind(table, own, from, to, false) && ListsKind(table, lines, from, to, true)
    requires LastOn(own + lines, room, day).Some?
    ensures Decides(table, row, kind, from, to, room, day)
    ensures LastOn(own + lines, room, day) == Some((row.reservation, row.guest))
  {
    LastOnConcat(own, lines, room, day);
    LastIsARow(lines, room, day);
    LastIsARow(own, room, day);
    kind := LastOn(lines, room, day).Some?;
    if kind {
      row :| row in lines && On(row, room, day) && LastOn(lines, room, day) == Some((row.reservation, row.guest));
    } else {
      row :| row in own && On(row, room, day) && LastOn(own, room, day) == Some((row.reservation, row.guest));
    }
  }

  lemma SameDecision(table: Table, own: seq<Row>, lines: seq<Row>, own': seq<Row>, lines': seq<Row>,
                     from: int, to: int, room: int, day: int)
    requires Undisputed(table, from, to) && from <= day < to
    requires ListsKind(table, own, from, to, false) && ListsKind(table, lines, from, to, true)
    requires ListsKind(table, own', from, to, false) && ListsKind(table, lines', from, to, true)
    ensures LastOn(own + lines, room, day) == LastOn(own' + lines', room, day)
  {
    LastIsARow(own + lines, room, day);
    LastIsARow(own' + lines', room, day);
    assert forall row :: row in own + lines <==> row in own' + lines';
    if LastOn(own + lines, room, day).Some? {
      var a, i := LastDecides(table, own, lines, from, to, room, day);
      var b, j := LastDecides(table, own', lines', from, to, room, day);
      assert i == j;
      assert a.reservation == b.reservation;
    }
  }

  lemma MovedKindDecides(table: Table, own: seq<Row>, lines: seq<Row>, row: Row, kind: bool, from: int, to: int,
                         room: int, day: int) returns (own': seq<Row>, lines': seq<Row>)
    requires ListsKind(table, own, from, to, false) && ListsKind(table, lines, from, to, true)
    requires Decides(table, row, kind, from, to, room, day)
    ensures ListsKind(table, own', from, to, false) && ListsKind(table, lines', from, to, true)
    ensures LastOn(own' + lines', room, day) == Some((row.reservation, row.guest))
  {
    own', lines' := own, lines;
    if kind {
      MovedLastDecides(lines, row, room, day);
      lines' := MovedLast(lines, row);
    } else {
      MovedLastDecides(own, row, room, day);
      LastIsARow(lines, room, day);
      own' := MovedLast(own, row);
    }
    LastOnConcat(own', lines', room, day);
  }

  /** The plan is the same whatever order the two queries answer in, exactly when every cell is undisputed. */
  lemma PlanOrderExactly(table: Table, own: seq<Row>, lines: seq<Row>, from: int, to: int, grid: Grid)
    requires ListsKind(table, own, from, to, false) && ListsKind(table, lines, from, to, true)
    requires Shows(grid, own + lines, from, to)
    ensures Undisputed(table, from, to) <==>
      forall own', lines' :: ListsKind(table, own', from, to, false) && ListsKind(table, lines', from, to, true)
        ==> Shows(grid, own' + lines', from, to)
  {
    if Undisputed(table, from, to) {
      forall own', lines' | ListsKind(table, own', from, to, false) && ListsKind(table, lines', from, to, true)
        ensures Shows(grid, own' + lines', from, to)
      {
        forall room, day | from <= day < to
          ensures LastOn(own + lines, room, day) == LastOn(own' + lines', room, day)
        {
          SameDecision(table, own, lines, own', lines', from, to, room, day);
        }
      }
    } else {
      var a, b, kind, room, day :| from <= day < to && Decides(table, a, kind, from, to, room, day)
        && Decides(table, b, kind, from, to, room, day) && a.reservation != b.reservation;
      var own1, lines1 := MovedKindDecides(table, own, lines, a, kind, from, to, room, day);
      var own2, lines2 := MovedKindDecides(table, own, lines, b, kind, from, to, room, day);
      assert Shows(grid, own1 + lines1, from, to) ==> CellAt(grid, room, day) == Some((a.reservation, a.guest));
      assert Shows(grid, own2 + lines2, from, to) ==> CellAt(grid, room, day) == Some((b.reservation, b.guest));
    }
  }

  // ---- Range occupancy and the union of days --------------------------------

  ghost predicate OccupiedOn(table: Table, room: int, day: int) {
    exists id, k :: OnDay(table, id, k, day) && table[id].RoomAt(k) == Some(room)
  }

  ghost predicate OccupiedSomeDay(table: Table, room: int, from: int, to: int) {
    exists day :: from <= day < to && OccupiedOn(table, room, day)
  }

  /** The keys of the per-day answer are the rooms occupied that day. */
  lemma DayKeys(table: Table, rows: seq<Row>, day: int, room: int)
    requires ListsDay(table, rows, day)
    ensures LastGuest(rows, room).Some? <==> OccupiedOn(table, room, day)
  {
    GuestIffRow(rows, room);
    if OccupiedOn(table, room, day) {
      var id, k :| OnDay(table, id, k, day) && table[id].RoomAt(k) == Some(room);
      assert DayRow(table, RowOf(table, id, k), day);
    }
    if row :| row in rows && row.room == room {
      assert DayRow(table, row, day);
    }
  }

  lemma {:induction false} GuestIffRow(rows: seq<Row>, room: int)
    ensures LastGuest(rows, room).Some? <==> exists row :: row in rows && row.room == room
  {
    if rows != [] {
      var front := rows[..|rows| - 1];
      GuestIffRow(front, room);
      assert rows == front + [rows[|rows| - 1]];
    }
  }

  /** Whatever the stays, the overlap query misses no room that some day of the range shows as occupied. */
  lemma RangeContainsDays(table: Table, from: int, to: int, room: int)
    requires OccupiedSomeDay(table, room, from, to)
    ensures room in OccupiedRoomIds(table, from, to, None)
  {
    var day :| from <= day < to && OccupiedOn(table, room, day);
    var id, k :| OnDay(table, id, k, day) && table[id].RoomAt(k) == Some(room);
    assert Blocks(table, id, from, to, None);
  }

  /** A stay without a night that the overlap query still counts. */
  ghost predicate HeldByNightlessStay(table: Table, room: int, from: int, to: int) {
    exists id, k ::
        InRange(table, id, k, from, to) && table[id].RoomAt(k) == Some(room) && table[id].checkin >= table[id].checkout
  }

  /**
    The overlap query answers exactly the union of the days, unless a room is
    held only by stays without a night: then, and only then, it answers more.
   */
  lemma RangeIsUnionOfDays(table: Table, from: int, to: int, room: int)
    requires from < to
    ensures room in OccupiedRoomIds(table, from, to, None)
      <==> OccupiedSomeDay(table, room, from, to) || HeldByNightlessStay(table, room, from, to)
  {
    if room in OccupiedRoomIds(table, from, to, None) {
      var id, k :| id in table && Blocks(table, id, from, to, None) &&
        0 <= k <= |table[id].lines| && table[id].RoomAt(k) == Some(room);
      assert InRange(table, id, k, from, to);
      var day := if table[id].checkin >= from then table[id].checkin else from;
      if table[id].checkin < table[id].checkout {
        assert OnDay(table, id, k, day);
        assert OccupiedOn(table, room, day);
      }
    }
    if OccupiedSomeDay(table, room, from, to) {
      RangeContainsDays(table, from, to, room);
    }
    if HeldByNightlessStay(table, room, from, to) {
      var id, k :| InRange(table, id, k, from, to) && table[id].RoomAt(k) == Some(room);
      assert Blocks(table, id, from, to, None);
    }
  }

  /** A stay from 5 to 5 holds room 7 in the overlap query of [4, 6), and on no day. */
  lemma NightlessStayIsCounted(r: Reservation)
    requires r.Live() && r.checkin == r.checkout == 5 && r.assignedRoom == Some(7) && r.lines == []
    ensures 7 in OccupiedRoomIds(map[1 := r], 4, 6, None) && !OccupiedSomeDay(map[1 := r], 7, 4, 6)
  {
    var table := map[1 := r];
    assert Blocks(table, 1, 4, 6, None) && table[1].RoomAt(0) == Some(7);
    assert forall id, k, day :: !OnDay(table, id, k, day);
  }

  /** The dictionary is an answer of the per-day query. */
  ghost predicate AnswersDay(table: Table, occupied: map<int, string>, day: int) {
    exists rows :: ListsDay(table, rows, day) && Answers(occupied, rows)
  }

  function KeysOf(days: map<int, map<int, string>>, from: int, to: int): set<int> {
    set day, room | day in days && from <= day < to && room in days[day] :: room
  }

  /**
    The overlap query answers the union of the keys of the per-day dictionaries of
    the range, and besides them only rooms held by stays without a night.
   */
  lemma OverlapAndAnswers(table: Table, from: int, to: int, days: map<int, map<int, string>>)
    requires from < to
    requires forall day :: from <= day < to ==> day in days && AnswersDay(table, days[day], day)
    ensures KeysOf(days, from, to) <= OccupiedRoomIds(table, from, to, None)
    ensures forall room :: room in OccupiedRoomIds(table, from, to, None) <==>
      room in KeysOf(days, from, to) || HeldByNightlessStay(table, room, from, to)
  {
    forall room
      ensures room in OccupiedRoomIds(table, from, to, None) <==>
        room in KeysOf(days, from, to) || HeldByNightlessStay(table, room, from, to)
    {
      RangeIsUnionOfDays(table, from, to, room);
      forall day | from <= day < to ensures room in days[day] <==> OccupiedOn(table, room, day) {
        var rows :| ListsDay(table, rows, day) && Answers(days[day], rows);
        DayKeys(table, rows, day, room);
      }
      assert room in KeysOf(days, from, to) <==> OccupiedSomeDay(table, room, from, to);
    }
  }

  /** With only non-empty stays the overlap query is exactly that union. */
  lemma NonEmptyStaysAgree(table: Table, from: int, to: int, days: map<int, map<int, string>>)
    requires from < to
    requires forall day :: from <= day < to ==> day in days && AnswersDay(table, days[day], day)
    requires forall id :: id in table ==> table[id].checkin < table[id].checkout
    ensures OccupiedRoomIds(table, from, to, None) == KeysOf(days, from, to)
  {
    OverlapAndAnswers(table, from, to, days);
    var occupied := OccupiedRoomIds(table, from, to, None);
    forall room ensures room in occupied <==> room in KeysOf(days, from, to) {
      assert !HeldByNightlessStay(table, room, from, to);
    }
  }

  lemma Seen(table: Table, id: int, k: int, from: int, to: int, exclude: Option<int>)
    requires InRange(table, id, k, from, to) && exclude != Some(id)
    ensures table[id].RoomAt(k).value in OccupiedRoomIds(table, from, to, exclude)
  {
    assert Blocks(table, id, from, to, exclude);
  }

  /** A room found free has no cell on any day of the stay except the excluded reservation's own. */
  lemma FreeRoomHasNoCell(rooms: seq<Room>, table: Table, category: string, from: int, to: int,
                          exclude: Option<int>, avoid: set<int>, rows: seq<Row>, start: int, end: int, day: int)
    requires ListsRange(table, rows, start, end)
    requires from <= day < to
    ensures var found := FindFreeRoom(rooms, table, category, from, to, exclude, avoid);
      found.Some? && LastOn(rows, found.value, day).Some? ==> exclude == Some(LastOn(rows, found.value, day).value.0)
  {
    var taken := OccupiedRoomIds(table, from, to, exclude) + avoid;
    Bookings.FreeRoomsUntaken(rooms, category, taken);
    var found := FindFreeRoom(rooms, table, category, from, to, exclude, avoid);
    if found.Some? && LastOn(rows, found.value, day).Some? {
      LastIsARow(rows, found.value, day);
      var row :| row in rows && On(row, found.value, day)
        && LastOn(rows, found.value, day) == Some((row.reservation, row.guest));
      var id, k :| InRange(table, id, k, start, end) && row == RowOf(table, id, k);
      if exclude != Some(id) {
        Seen(table, id, k, from, to, exclude);
        assert false;
      }
    }
  }

  // ---- What a cell says -------------------------------------------------------

  /** The reservation is not cancelled, and it or one of its lines has the room on that day. */
  ghost predicate StaysIn(table: Table, id: int, room: int, day: int) {
    && id in table && table[id].status != Cancelled && table[id].checkin <= day < table[id].checkout
    && HoldsRoom(table[id], room)
  }

  lemma SlotsHold(table: Table, id: int, room: int)
    requires id in table
    ensures HoldsRoom(table[id], room) <==> exists k :: table[id].HasSlot(k) && table[id].RoomAt(k) == Some(room)
  {
    var r := table[id];
    if HoldsRoom(r, room) {
      if r.assignedRoom == Some(room) {
        assert r.HasSlot(0) && r.RoomAt(0) == Some(room);
      } else {
        var i :| 0 <= i < |r.lines| && r.lines[i].assignedRoom == Some(room);
        assert r.HasSlot(i + 1) && r.RoomAt(i + 1) == Some(room);
      }
    }
    if k :| r.HasSlot(k) && r.RoomAt(k) == Some(room) {
      if k > 0 { assert r.lines[k - 1].assignedRoom == Some(room); }
    }
  }

  /** A cell names a reservation that stays in the room that day, and its guest; and every such stay has a cell. */
  lemma CellsAreStays(table: Table, rows: seq<Row>, from: int, to: int, grid: Grid, room: int, day: int)
    requires ListsRange(table, rows, from, to) && Shows(grid, rows, from, to)
    ensures var cell := CellAt(grid, room, day);
      && (cell.Some? ==>
            from <= day < to && StaysIn(table, cell.value.0, room, day) && cell.value.1 == table[cell.value.0].guest)
      && (from <= day < to && (exists id :: StaysIn(table, id, room, day)) ==> cell.Some?)
  {
    LastIsARow(rows, room, day);
    var cell := CellAt(grid, room, day);
    if cell.Some? {
      var row :| row in rows && On(row, room, day) && LastOn(rows, room, day) == Some((row.reservation, row.guest));
      var id, k :| InRange(table, id, k, from, to) && row == RowOf(table, id, k);
      SlotsHold(table, id, room);
    }
    if from <= day < to && exists id :: StaysIn(table, id, room, day) {
      var id :| StaysIn(table, id, room, day);
      SlotsHold(table, id, room);
      var k :| table[id].HasSlot(k) && table[id].RoomAt(k) == Some(room);
      assert InRange(table, id, k, from, to);
      assert RangeRow(table, RowOf(table, id, k), from, to);
      assert On(RowOf(table, id, k), room, day);
    }
  }

  /** The per-day dictionary has a room exactly if someone stays in it that day, under the name of such a guest. */
  lemma NamesAreGuests(table: Table, rows: seq<Row>, day: int, occupied: map<int, string>, room: int)
    requires ListsDay(table, rows, day) && Answers(occupied, rows)
    ensures room in occupied <==> exists id :: StaysIn(table, id, room, day)
    ensures room in occupied ==> exists id :: StaysIn(table, id, room, day) && table[id].guest == occupied[room]
  {
    assert LastGuest(rows, room) == if room in occupied then Some(occupied[room]) else None;
    if room in occupied {
      GuestIsARow(rows, room);
      var row :| row in rows && row.room == room && LastGuest(rows, room) == Some(row.guest);
      assert DayRow(table, row, day);
      var id, k :| OnDay(table, id, k, day) && row == RowOf(table, id, k);
      SlotsHold(table, id, room);
      assert StaysIn(table, id, room, day) && table[id].guest == occupied[room];
    }
    if id :| StaysIn(table, id, room, day) {
      SlotsHold(table, id, room);
      var k :| table[id].HasSlot(k) && table[id].RoomAt(k) == Some(room);
      assert OnDay(table, id, k, day);
      assert DayRow(table, RowOf(table, id, k), day);
      GuestIffRow(rows, room);
    }
  }

  lemma {:induction false} GuestIsARow(rows: seq<Row>, room: int)
    requires LastGuest(rows, room).Some?
    ensures exists row :: row in rows && row.room == room && LastGuest(rows, room) == Some(row.guest)
  {
    var last := rows[|rows| - 1];
    if last.room == room {
      assert last in rows;
    } else {
      var front := rows[..|rows| - 1];
      GuestIsARow(front, room);
      var row :| row in front && row.room == room && LastGuest(front, room) == Some(row.guest);
      assert row in rows;
    }
  }

  /** The query of one day is the query of the range that is that day. */
  lemma DayIsARange(table: Table, rows: seq<Row>, day: int)
    requires ListsRange(table, rows, day, day + 1)
    ensures ListsDay(table, rows, day)
  {
    forall row ensures row in rows <==> DayRow(table, row, day) {
      if DayRow(table, row, day) {
        var id, k :| OnDay(table, id, k, day) && row == RowOf(table, id, k);
        assert InRange(table, id, k, day, day + 1);
      }
      if RangeRow(table, row, day, day + 1) {
        var id, k :| InRange(table, id, k, day, day + 1) && row == RowOf(table, id, k);
        assert OnDay(table, id, k, day);
      }
    }
  }
}
