/**
  Walk-in references: the day of arrival and a number that restarts every Monday
  (backend/app/routers/admin_ui.py).
 */
module Walkin {
  import opened Wrappers
  import opened Hotel
  import Bookings
  import Collections
  import FrontDesk

  // ---- The calendar -----------------------------------------------------------

  datatype Date = Date(year: int, month: int, day: int)
  {
    predicate Valid() { 1 <= year <= 9999 && 1 <= month <= 12 && 1 <= day <= DaysIn(year, month) }
  }

  predicate IsLeap(year: int) { year % 4 == 0 && (year % 100 != 0 || year % 400 == 0) }

  function DaysIn(year: int, month: int): int {
    if month == 2 then (if IsLeap(year) then 29 else 28)
    else if month == 4 || month == 6 || month == 9 || month == 11 then 30
    else 31
  }

  function DaysBeforeMonth(year: int, month: int): int
    requires 1 <= month <= 13
  {
    if month == 1 then 0 else DaysBeforeMonth(year, month - 1) + DaysIn(year, month - 1)
  }

  function DaysBeforeYear(year: int): int {
    (year - 1) * 365 + (year - 1) / 4 - (year - 1) / 100 + (year - 1) / 400
  }

  /** Day 1 is 1 January of year 1. */
  function Ordinal(d: Date): int
    requires d.Valid()
  {
    DaysBeforeYear(d.year) + DaysBeforeMonth(d.year, d.month) + d.day
  }

  /** Monday is 0. */
  function Weekday(d: Date): int
    requires d.Valid()
  {
    (Ordinal(d) + 6) % 7
  }

  function Monday(d: Date): int
    requires d.Valid()
  {
    Ordinal(d) - Weekday(d)
  }

  /** The Monday of the week a day number is in. */
  function WeekOf(day: int): int { day - (day + 6) % 7 }

  predicate Before(a: Date, b: Date) {
    a.year < b.year || (a.year == b.year && (a.month < b.month || (a.month == b.month && a.day < b.day)))
  }

  lemma {:induction false} MonthsInOrder(year: int, a: int, b: int)
    requires 1 <= a < b <= 13
    ensures DaysBeforeMonth(year, a) + DaysIn(year, a) <= DaysBeforeMonth(year, b)
    decreases b - a
  {
    if a + 1 < b { MonthsInOrder(year, a, b - 1); }
  }

  lemma YearLength(year: int)
    ensures DaysBeforeMonth(year, 13) == if IsLeap(year) then 366 else 365
    ensures DaysBeforeYear(year + 1) == DaysBeforeYear(year) + DaysBeforeMonth(year, 13)
  {
    var february := DaysIn(year, 2);
    assert DaysBeforeMonth(year, 2) == 31 && DaysBeforeMonth(year, 3) == 31 + february;
    assert DaysBeforeMonth(year, 4) == 62 + february && DaysBeforeMonth(year, 5) == 92 + february;
    assert DaysBeforeMonth(year, 6) == 123 + february && DaysBeforeMonth(year, 7) == 153 + february;
    assert DaysBeforeMonth(year, 8) == 184 + february && DaysBeforeMonth(year, 9) == 215 + february;
    assert DaysBeforeMonth(year, 10) == 245 + february && DaysBeforeMonth(year, 11) == 276 + february;
    assert DaysBeforeMonth(year, 12) == 306 + february && DaysBeforeMonth(year, 13) == 337 + february;
    Quotients(year);
  }

  lemma Quotients(year: int)
    ensures year / 4 - (year - 1) / 4 == if year % 4 == 0 then 1 else 0
    ensures year / 100 - (year - 1) / 100 == if year % 100 == 0 then 1 else 0
    ensures year / 400 - (year - 1) / 400 == if year % 400 == 0 then 1 else 0
    ensures year % 100 == 0 ==> year % 4 == 0
    ensures year % 400 == 0 ==> year % 100 == 0
  {
  }

  lemma {:induction false} YearsInOrder(a: int, b: int)
    requires a < b
    ensures DaysBeforeYear(a) + DaysBeforeMonth(a, 13) <= DaysBeforeYear(b)
    decreases b - a
  {
    YearLength(a);
    if a + 1 < b { YearsInOrder(a + 1, b); YearLength(a + 1); }
  }

  /** Day numbers follow the calendar, so a date and its day number determine each other. */
  lemma OrdinalIsChronological(a: Date, b: Date)
    requires a.Valid() && b.Valid()
    ensures Before(a, b) <==> Ordinal(a) < Ordinal(b)
    ensures a == b <==> Ordinal(a) == Ordinal(b)
  {
    if Before(a, b) { EarlierIsLess(a, b); }
    if Before(b, a) { EarlierIsLess(b, a); }
  }

  lemma EarlierIsLess(a: Date, b: Date)
    requires a.Valid() && b.Valid() && Before(a, b)
    ensures Ordinal(a) < Ordinal(b)
  {
    if a.year < b.year {
      MonthsInOrder(a.year, a.month, 13);
      YearsInOrder(a.year, b.year);
      if b.month > 1 { MonthsInOrder(b.year, 1, b.month); }
    } else if a.month < b.month {
      MonthsInOrder(a.year, a.month, b.month);
    }
  }

  // ---- The reference ----------------------------------------------------------

  function Digit(n: int): char
    requires 0 <= n < 10
  {
    '0' + n as char
  }

  function Decimal(n: nat): string {
    if n < 10 then [Digit(n)] else Decimal(n / 10) + [Digit(n % 10)]
  }

  /** At least two digits. */
  function TwoDigits(n: nat): string {
    if n < 10 then "0" + Decimal(n) else Decimal(n)
  }

  function Reference(d: Date, number: nat): string
    requires d.Valid()
  {
    TwoDigits(d.day) + TwoDigits(d.month) + TwoDigits(d.year % 100) + TwoDigits(number)
  }

  function ValueOf(digits: string): int {
    if digits == "" then 0 else ValueOf(digits[..|digits| - 1]) * 10 + (digits[|digits| - 1] as int - '0' as int)
  }

  lemma {:induction false} ReadDecimal(n: nat)
    ensures ValueOf(Decimal(n)) == n && |Decimal(n)| >= 1
    ensures 10 <= n < 100 ==> |Decimal(n)| == 2
  {
    if n >= 10 {
      ReadDecimal(n / 10);
      assert Decimal(n)[..|Decimal(n)| - 1] == Decimal(n / 10);
    } else {
      assert Decimal(n)[..0] == "" && ValueOf("") == 0;
    }
  }

  lemma ReadTwoDigits(n: nat)
    ensures ValueOf(TwoDigits(n)) == n
    ensures n < 100 ==> |TwoDigits(n)| == 2
  {
    ReadDecimal(n);
    if n < 10 {
      assert TwoDigits(n)[..1] == "0" && "0"[..0] == "";
      assert ValueOf("") == 0 && ValueOf("0") == 0;
    }
  }

  /** A reference can be read back: two digits each of day, month and year, and the number, however long. */
  lemma ReferenceReadsBack(d: Date, number: nat)
    requires d.Valid()
    ensures var ref := Reference(d, number);
      && |ref| >= 6
      && ValueOf(ref[..2]) == d.day && ValueOf(ref[2..4]) == d.month && ValueOf(ref[4..6]) == d.year % 100
      && ValueOf(ref[6..]) == number
  {
    ReadTwoDigits(d.day);
    ReadTwoDigits(d.month);
    ReadTwoDigits(d.year % 100);
    ReadTwoDigits(number);
    Pieces(TwoDigits(d.day), TwoDigits(d.month), TwoDigits(d.year % 100), TwoDigits(number));
  }

  lemma Pieces(a: string, b: string, c: string, d: string)
    requires |a| == |b| == |c| == 2
    ensures var all := a + b + c + d;
      all[..2] == a && all[2..4] == b && all[4..6] == c && all[6..] == d
  {
  }

  /** Two references are equal exactly when day, month, last two digits of the year and number are. */
  lemma SameReferenceExactly(a: Date, m: nat, b: Date, n: nat)
    requires a.Valid() && b.Valid()
    ensures Reference(a, m) == Reference(b, n)
      <==> a.day == b.day && a.month == b.month && a.year % 100 == b.year % 100 && m == n
  {
    ReferenceReadsBack(a, m);
    ReferenceReadsBack(b, n);
  }

  /** Less than a hundred years apart. */
  predicate WithinCentury(a: Date, b: Date) {
    Before(a, b.(year := b.year + 100)) && Before(b, a.(year := a.year + 100))
  }

  // ---- Counting the week ------------------------------------------------------

  predicate InWeek(r: Reservation, monday: int) { r.channel == "01" && monday <= r.checkin <= monday + 6 }

  function WeekRows(table: Table, monday: int): set<int> {
    set id | id in table && InWeek(table[id], monday)
  }

  /** The action takes a channel "01" row out of the seven days: it deletes it, or moves its check-in away. */
  predicate Leaves(s: Bookings.State, a: Bookings.Action, monday: int) {
    || (a.Delete? && a.id in s.table && !s.table[a.id].Live() && InWeek(s.table[a.id], monday))
    || (a.Patch? && a.id in s.table && !Bookings.PatchFails(a) && InWeek(s.table[a.id], monday)
        && !InWeek(Bookings.PatchRow(s.table[a.id], a), monday))
  }

  lemma PlacedKeeps(rooms: seq<Room>, table: Table, id: int, r: Reservation)
    ensures Place(rooms, table, id, r)[id].channel == r.channel && Place(rooms, table, id, r)[id].checkin == r.checkin
  {
  }

  lemma LeavingTakesOne(s: Bookings.State, a: Bookings.Action, monday: int)
    requires Leaves(s, a, monday)
    ensures a.id in WeekRows(s.table, monday)
    ensures WeekRows(Bookings.Apply(s, a).table, monday) == WeekRows(s.table, monday) - {a.id}
  {
    var after := Bookings.Apply(s, a).table;
    if a.Delete? {
      assert after == s.table - {a.id};
    } else {
      assert after == s.table[a.id := Bookings.PatchRow(s.table[a.id], a)];
    }
  }

  lemma StayingKeepsAll(s: Bookings.State, a: Bookings.Action, monday: int)
    requires Bookings.WellFormed(s) && !Leaves(s, a, monday)
    ensures WeekRows(s.table, monday) <= WeekRows(Bookings.Apply(s, a).table, monday)
  {
    var after := Bookings.Apply(s, a).table;
    forall id | id in WeekRows(s.table, monday) ensures id in WeekRows(after, monday) {
      match a
      case Create(draft) => assert id != s.nextId;
      case Walkin(_, _, _, _, _, _) => assert id != s.nextId;
      case Patch(other, _, _, _, _, _) =>
        if other == id && !Bookings.PatchFails(a) { assert InWeek(Bookings.PatchRow(s.table[id], a), monday); }
      case Reassign(other) => if other in s.table { PlacedKeeps(s.rooms, s.table, other, s.table[other]); }
      case DeleteRoom(roomId) =>
        assert after[id] == s.table[id] || after[id] == Bookings.VacateRow(s.table[id], roomId);
      case _ =>
    }
  }

  /** A week loses a row exactly when a row is deleted from it or moved out of it; then it loses that row alone. */
  lemma WeekShrinksExactly(s: Bookings.State, a: Bookings.Action, monday: int)
    requires Bookings.WellFormed(s)
    ensures var before, after := WeekRows(s.table, monday), WeekRows(Bookings.Apply(s, a).table, monday);
      && (!(before <= after) <==> Leaves(s, a, monday))
      && (Leaves(s, a, monday) ==> a.id in before && after == before - {a.id})
  {
    if Leaves(s, a, monday) {
      LeavingTakesOne(s, a, monday);
    } else {
      StayingKeepsAll(s, a, monday);
    }
  }

  /** One more than the channel "01" rows checking in between Monday and Sunday. */
  function NextNumber(table: Table, today: Date): nat
    requires today.Valid()
  {
    |WeekRows(table, Monday(today))| + 1
  }

  function NextReference(table: Table, today: Date): string
    requires today.Valid()
  {
    Reference(today, NextNumber(table, today))
  }

  /** The number is one more than the channel "01" rows checking in in the same week, Monday to Sunday. */
  lemma NumberIsOneMore(table: Table, today: Date)
    requires today.Valid()
    ensures NextNumber(table, today)
         == |set id | id in table && table[id].channel == "01"
             && WeekOf(table[id].checkin) == WeekOf(Ordinal(today))| + 1
  {
    var monday := Monday(today);
    MondayIsMonday(today);
    forall id | id in table
      ensures InWeek(table[id], monday) <==> table[id].channel == "01" && WeekOf(table[id].checkin) == monday
    {
      SevenDays(table[id].checkin, monday);
    }
    assert WeekRows(table, monday)
        == set id | id in table && table[id].channel == "01" && WeekOf(table[id].checkin) == monday;
  }

  /** 20 July 2026 is a Monday: the week of the 21st runs from the 20th to the 26th. */
  lemma KnownWeek(monday: Date, d: Date)
    requires monday.year == 2026 && monday.month == 7 && monday.day == 20
    requires d.year == 2026 && d.month == 7 && 20 <= d.day <= 26
    ensures monday.Valid() && d.Valid()
    ensures Weekday(d) == d.day - 20 && Monday(d) == Ordinal(monday)
  {
    JulyOf2026(monday);
    JulyOf2026(d);
  }

  lemma JulyOf2026(d: Date)
    requires d.year == 2026 && d.month == 7 && 1 <= d.day <= 31
    ensures d.Valid() && Ordinal(d) == 739797 + d.day
  {
    var year := d.year;
    assert DaysBeforeMonth(year, 2) == 31 && DaysBeforeMonth(year, 3) == 59 && DaysBeforeMonth(year, 4) == 90;
    assert DaysBeforeMonth(year, 5) == 120 && DaysBeforeMonth(year, 6) == 151 && DaysBeforeMonth(year, 7) == 181;
    assert DaysBeforeYear(year) == 739616;
  }

  /** The third walk-in of the week, on 21 July 2026. */
  lemma KnownReference()
    ensures Reference(Date(2026, 7, 21), 3) == "21072603"
  {
    assert TwoDigits(21) == "21" by { assert Decimal(2) == "2" && Decimal(21) == Decimal(2) + "1"; }
    assert TwoDigits(7) == "07" && TwoDigits(3) == "03";
    assert TwoDigits(26) == "26" by { assert Decimal(2) == "2" && Decimal(26) == Decimal(2) + "6"; }
    assert 2026 % 100 == 26;
  }

  // ---- Runs -------------------------------------------------------------------

  datatype Step =
    | Arrive(guest: string, today: Date, checkout: int, room: int, now: int)
    | Office(action: Bookings.Action)

  /** A walk-in's date, the Monday of its week and the number it got. */
  datatype Issued = Issued(date: Date, monday: int, number: nat)

  function ActionOf(s: Bookings.State, x: Step): Bookings.Action
    requires x.Arrive? ==> x.today.Valid()
  {
    match x
    case Arrive(guest, today, checkout, room, now) =>
      Bookings.Walkin(guest, Ordinal(today), checkout, room, NextReference(s.table, today), now)
    case Office(a) => a
  }

  /** The action takes some channel "01" row out of its Monday-Sunday week. */
  predicate LeavesItsWeek(s: Bookings.State, a: Bookings.Action) {
    (a.Delete? || a.Patch?) && a.id in s.table && Leaves(s, a, WeekOf(s.table[a.id].checkin))
  }

  /** Anything else may happen between walk-ins. */
  predicate Allowed(s: Bookings.State, x: Step) {
    if x.Arrive? then x.today.Valid() else !LeavesItsWeek(s, x.action)
  }

  predicate AllAllowed(s: Bookings.State, steps: seq<Step>)
    decreases |steps|
  {
    steps == [] || (Allowed(s, steps[0]) && AllAllowed(Bookings.Apply(s, ActionOf(s, steps[0])), steps[1..]))
  }

  /** The walk-ins of a run, in order. */
  function IssuedBy(s: Bookings.State, steps: seq<Step>): seq<Issued>
    requires AllAllowed(s, steps)
    decreases |steps|
  {
    if steps == [] then []
    else
      (if steps[0].Arrive? then [Issued(steps[0].today, Monday(steps[0].today), NextNumber(s.table, steps[0].today))]
       else [])
      + IssuedBy(Bookings.Apply(s, ActionOf(s, steps[0])), steps[1..])
  }

  /** No allowed step takes a row out of a Monday-Sunday week. */
  lemma WeekOnlyGrows(s: Bookings.State, x: Step, monday: int)
    requires Bookings.WellFormed(s) && Allowed(s, x) && monday == WeekOf(monday)
    ensures WeekRows(s.table, monday) <= WeekRows(Bookings.Apply(s, ActionOf(s, x)).table, monday)
  {
    WeekShrinksExactly(s, ActionOf(s, x), monday);
  }

  lemma ArrivalCounts(s: Bookings.State, x: Step)
    requires Bookings.WellFormed(s) && x.Arrive? && x.today.Valid()
    ensures NextNumber(s.table, x.today) == |WeekRows(Bookings.Apply(s, ActionOf(s, x)).table, Monday(x.today))|
  {
    var after := Bookings.Apply(s, ActionOf(s, x)).table;
    assert WeekRows(after, Monday(x.today)) == WeekRows(s.table, Monday(x.today)) + {s.nextId};
  }

  predicate Above(walkin: Issued, monday: int, bound: nat) {
    walkin.monday == monday ==> walkin.number > bound
  }

  predicate AllAbove(issued: seq<Issued>, monday: int, bound: nat) {
    forall i :: 0 <= i < |issued| ==> Above(issued[i], monday, bound)
  }

  /** What was counted for a week is below every number the week still gets. */
  lemma {:induction false} LaterNumbersAreLarger(s: Bookings.State, steps: seq<Step>, monday: int, bound: nat)
    requires Bookings.WellFormed(s) && AllAllowed(s, steps)
    requires bound <= |WeekRows(s.table, monday)| && monday == WeekOf(monday)
    ensures AllAbove(IssuedBy(s, steps), monday, bound)
    decreases |steps|
  {
    if steps != [] {
      var x := steps[0];
      var next := Bookings.Apply(s, ActionOf(s, x));
      WeekOnlyGrows(s, x, monday);
      Collections.SubsetSize(WeekRows(s.table, monday), WeekRows(next.table, monday));
      Bookings.ApplyWellFormed(s, ActionOf(s, x));
      LaterNumbersAreLarger(next, steps[1..], monday, bound);
    }
  }

  predicate InOrder(a: Issued, b: Issued) { a.monday == b.monday ==> a.number < b.number }

  predicate AllInOrder(issued: seq<Issued>) {
    forall i, j :: 0 <= i < j < |issued| ==> InOrder(issued[i], issued[j])
  }

  lemma FirstInOrder(first: Issued, later: seq<Issued>)
    requires AllInOrder(later) && AllAbove(later, first.monday, first.number)
    ensures AllInOrder([first] + later)
  {
    var all := [first] + later;
    forall i, j | 0 <= i < j < |all| ensures InOrder(all[i], all[j]) {
      assert all[j] == later[j - 1] && Above(later[j - 1], first.monday, first.number);
      if i > 0 { assert all[i] == later[i - 1]; }
    }
  }

  lemma MondayIsMonday(d: Date)
    requires d.Valid()
    ensures Monday(d) == WeekOf(Monday(d))
  {
    var day := Ordinal(d);
    assert (day - (day + 6) % 7 + 6) % 7 == 0;
  }

  lemma NumbersAfter(s: Bookings.State, x: Step, rest: seq<Step>)
    requires Bookings.WellFormed(s) && x.Arrive? && x.today.Valid()
    requires AllAllowed(Bookings.Apply(s, ActionOf(s, x)), rest)
    ensures AllAbove(IssuedBy(Bookings.Apply(s, ActionOf(s, x)), rest), Monday(x.today), NextNumber(s.table, x.today))
  {
    ArrivalCounts(s, x);
    MondayIsMonday(x.today);
    Bookings.ApplyWellFormed(s, ActionOf(s, x));
    LaterNumbersAreLarger(Bookings.Apply(s, ActionOf(s, x)), rest, Monday(x.today), NextNumber(s.table, x.today));
  }

  /** Within a week numbers strictly increase in the order of issue. */
  lemma {:induction false} NumbersIncrease(s: Bookings.State, steps: seq<Step>)
    requires Bookings.WellFormed(s) && AllAllowed(s, steps)
    ensures AllInOrder(IssuedBy(s, steps))
    decreases |steps|
  {
    if steps != [] {
      var x := steps[0];
      var next := Bookings.Apply(s, ActionOf(s, x));
      var later := IssuedBy(next, steps[1..]);
      Bookings.ApplyWellFormed(s, ActionOf(s, x));
      NumbersIncrease(next, steps[1..]);
      if x.Arrive? {
        NumbersAfter(s, x, steps[1..]);
        FirstInOrder(Issued(x.today, Monday(x.today), NextNumber(s.table, x.today)), later);
      } else {
        assert [] + later == later;
      }
    }
  }

  predicate Dated(walkin: Issued) { walkin.date.Valid() && walkin.monday == Monday(walkin.date) }

  lemma {:induction false} IssuedAreValid(s: Bookings.State, steps: seq<Step>)
    requires AllAllowed(s, steps)
    ensures forall i :: 0 <= i < |IssuedBy(s, steps)| ==> Dated(IssuedBy(s, steps)[i])
    decreases |steps|
  {
    if steps != [] { IssuedAreValid(Bookings.Apply(s, ActionOf(s, steps[0])), steps[1..]); }
  }

  /** All references given to walk-ins less than a hundred years apart are different. */
  lemma ReferencesAreDistinct(s: Bookings.State, steps: seq<Step>, i: nat, j: nat)
    requires Bookings.WellFormed(s) && AllAllowed(s, steps)
    requires i < j < |IssuedBy(s, steps)|
    requires WithinCentury(IssuedBy(s, steps)[i].date, IssuedBy(s, steps)[j].date)
    ensures var issued := IssuedBy(s, steps);
      && Dated(issued[i]) && Dated(issued[j])
      && Reference(issued[i].date, issued[i].number) != Reference(issued[j].date, issued[j].number)
  {
    IssuedAreValid(s, steps);
    NumbersIncrease(s, steps);
    assert InOrder(IssuedBy(s, steps)[i], IssuedBy(s, steps)[j]);
    DifferentReferences(IssuedBy(s, steps)[i], IssuedBy(s, steps)[j]);
  }

  lemma DifferentReferences(a: Issued, b: Issued)
    requires Dated(a) && Dated(b) && InOrder(a, b) && WithinCentury(a.date, b.date)
    ensures Reference(a.date, a.number) != Reference(b.date, b.number)
  {
    SameReferenceExactly(a.date, a.number, b.date, b.number);
    SameDate(a.date, b.date);
  }

  lemma SameDate(a: Date, b: Date)
    requires WithinCentury(a, b)
    ensures a.day == b.day && a.month == b.month && a.year % 100 == b.year % 100 ==> a == b
  {
  }

  /**
    Right after a walk-in, an action makes its reference come up again on the same day exactly
    when it shrinks the week.
   */
  lemma RepeatsExactly(s: Bookings.State, x: Step, a: Bookings.Action)
    requires Bookings.WellFormed(s) && x.Arrive? && x.today.Valid()
    ensures var s1 := Bookings.Apply(s, ActionOf(s, x));
      Leaves(s1, a, Monday(x.today)) <==>
        NextReference(Bookings.Apply(s1, a).table, x.today) == NextReference(s.table, x.today)
  {
    var s1 := Bookings.Apply(s, ActionOf(s, x));
    var s2 := Bookings.Apply(s1, a);
    var monday := Monday(x.today);
    Bookings.ApplyWellFormed(s, ActionOf(s, x));
    ArrivalCounts(s, x);
    WeekShrinksExactly(s1, a, monday);
    SameReferenceExactly(x.today, NextNumber(s2.table, x.today), x.today, NextNumber(s.table, x.today));
    if !Leaves(s1, a, monday) {
      Collections.SubsetSize(WeekRows(s1.table, monday), WeekRows(s2.table, monday));
    }
  }

  /** Cancel and delete the last walk-in, and the next one of the day gets its reference. */
  lemma DeletionRepeatsReference(s: Bookings.State, x: Step)
    requires Bookings.WellFormed(s) && x.Arrive? && x.today.Valid()
    ensures var s1 := Bookings.Apply(s, ActionOf(s, x));
      var s2 := Bookings.Apply(Bookings.Apply(s1, Bookings.Cancel(s.nextId)), Bookings.Delete(s.nextId));
      NextReference(s2.table, x.today) == NextReference(s.table, x.today)
  {
    var s1 := Bookings.Apply(s, ActionOf(s, x));
    var s2 := Bookings.Apply(Bookings.Apply(s1, Bookings.Cancel(s.nextId)), Bookings.Delete(s.nextId));
    assert s2.table == s.table;
  }

  /** Edit nothing but the check-in. */
  function MoveTo(id: int, day: int): Bookings.Action {
    Bookings.Patch(id, Bookings.Keep, Bookings.To(day), Bookings.Keep, Bookings.Keep, Bookings.Keep)
  }

  /** Move the last walk-in's check-in to another week, and the next one of the day gets its reference. */
  lemma MovedCheckinRepeatsReference(s: Bookings.State, x: Step, day: int)
    requires Bookings.WellFormed(s) && x.Arrive? && x.today.Valid() && WeekOf(day) != Monday(x.today)
    ensures var s1 := Bookings.Apply(s, ActionOf(s, x));
      NextReference(Bookings.Apply(s1, MoveTo(s.nextId, day)).table, x.today) == NextReference(s.table, x.today)
  {
    RepeatsExactly(s, x, MoveTo(s.nextId, day));
    MovingLeaves(s, x, day);
  }

  lemma MovingLeaves(s: Bookings.State, x: Step, day: int)
    requires Bookings.WellFormed(s) && x.Arrive? && x.today.Valid() && WeekOf(day) != Monday(x.today)
    ensures Leaves(Bookings.Apply(s, ActionOf(s, x)), MoveTo(s.nextId, day), Monday(x.today))
  {
    var monday := Monday(x.today);
    MondayIsMonday(x.today);
    SevenDays(day, monday);
    assert monday <= Ordinal(x.today) <= monday + 6;
  }

  lemma SevenDays(day: int, monday: int)
    requires monday == WeekOf(monday)
    ensures monday <= day <= monday + 6 <==> WeekOf(day) == monday
  {
    if monday <= day <= monday + 6 {
      assert (day + 6) % 7 == day - monday;
    }
  }

  /** Exactly a hundred years after the first walk-in, the second one gets its reference. */
  lemma HundredYearsRepeatReference(s: Bookings.State, x: Step)
    requires Bookings.WellFormed(s) && x.Arrive? && x.today.Valid()
    requires forall id :: id in s.table ==> s.table[id].channel != "01"
    requires x.today.(year := x.today.year + 100).Valid()
    ensures var s1 := Bookings.Apply(s, ActionOf(s, x));
      NextReference(s1.table, x.today.(year := x.today.year + 100)) == NextReference(s.table, x.today)
  {
    var later := x.today.(year := x.today.year + 100);
    var s1 := Bookings.Apply(s, ActionOf(s, x));
    CenturyIsLong(x.today);
    EmptyWeek(s.table, Monday(x.today));
    EmptyWeek(s1.table, Monday(later));
    SameYearDigits(x.today.year);
    SameReferenceExactly(x.today, 1, later, 1);
  }

  lemma SameYearDigits(year: int)
    ensures (year + 100) % 100 == year % 100
  {
  }

  lemma EmptyWeek(table: Table, monday: int)
    requires forall id :: id in table ==> table[id].channel != "01" || table[id].checkin < monday
    ensures |WeekRows(table, monday)| == 0
  {
    assert forall id :: id in table ==> !InWeek(table[id], monday);
    assert WeekRows(table, monday) == {};
  }

  lemma CenturyIsLong(d: Date)
    requires d.Valid() && d.(year := d.year + 100).Valid()
    ensures Ordinal(d) < Monday(d.(year := d.year + 100))
  {
    var later := d.(year := d.year + 100);
    var newYear := Date(d.year + 1, 1, 1);
    EarlierIsLess(d, newYear);
    YearsInOrder(d.year + 1, later.year);
    YearLength(d.year + 1);
    if later.month > 1 { MonthsInOrder(later.year, 1, later.month); }
  }

  /** The form: number the walk-in and store it with the room the clerk chose. */
  method CreateWalkinAction(desk: FrontDesk.Desk, guest: string, today: Date, checkout: int, roomId: int, now: int)
    returns (ref: string)
    requires desk.Valid() && today.Valid()
    modifies desk
    ensures desk.Valid()
    ensures ref == NextReference(old(desk.reservations), today)
    ensures old(desk.nextId) in desk.reservations && desk.reservations[old(desk.nextId)].externalRef == Some(ref)
    ensures desk.reservations - {old(desk.nextId)} == old(desk.reservations) - {old(desk.nextId)}
    ensures |WeekRows(desk.reservations, Monday(today))| == |WeekRows(old(desk.reservations), Monday(today))| + 1
  {
    ref := NextReference(desk.reservations, today);
    ghost var before := desk.reservations;
    var id := desk.CreateWalkin(guest, Ordinal(today), checkout, roomId, ref, now);
    assert WeekRows(desk.reservations, Monday(today)) == WeekRows(before, Monday(today)) + {id};
  }
}
