/**
  Whole runs of the office with e-mail arriving: reparse against live ingestion,
  what a failure leaves behind, and how many reservations a reference has.
 */
module MailRuns {
  import opened Wrappers
  import opened Hotel
  import opened Mailroom
  import Bookings

  // ---- Reparse and live ingestion ---------------------------------------------

  /** The e-mail asks for a change, and no exception prevents it. */
  ghost predicate Succeeds(s: Store, registry: seq<Parser>, mail: Email, now: int, fault: Option<Fault>) {
    Loads(fault) &&
    match Find(registry, mail)
    case Err(_) => false
    case Ok(None) => false
    case Ok(Some(parser)) => Attempt(s, parser, mail, now, fault).Ok?
  }

  /**
    Reparsing a stored e-mail changes reservations, lines and rooms exactly as live
    ingestion of that e-mail does. It resolves its entry, pointing at an existing row,
    exactly when it succeeds; otherwise it only changes the entry's reason and slug.
   */
  lemma ReparseAgreesWithLive(s: Store, entry: int, registry: seq<Parser>, now: int, fault: Option<Fault>)
    requires entry in s.entries
    ensures var next, live := Reparsed(s, entry, registry, now, fault),
        Live(s, registry, s.entries[entry].mail, now, fault);
      && next.office == live.office && next.nextLine == live.nextLine
      && entry in next.entries
      && (Succeeds(s, registry, s.entries[entry].mail, now, fault) ==>
            && next.entries == s.entries[entry := next.entries[entry]]
            && next.entries[entry].status == Resolved && next.entries[entry].resolvedTo.Some?
            && next.entries[entry].resolvedTo.value in next.office.table)
      && (!Succeeds(s, registry, s.entries[entry].mail, now, fault) ==>
            && next.office == s.office && next.nextLine == s.nextLine && next.nextEntry == s.nextEntry
            && next.entries - {entry} == s.entries - {entry}
            && next.entries[entry].(reason := s.entries[entry].reason, slug := s.entries[entry].slug)
                == s.entries[entry])
  {
    var mail := s.entries[entry].mail;
    match Find(registry, mail)
    case Err(_) =>
    case Ok(None) =>
    case Ok(Some(parser)) =>
      var wanted := ActionFor(s, parser, mail, now);
      if wanted.Ok? && wanted.value.Cancel? {
        var p := parser.parse(mail).value;
        assert IsNewest(s.office.table, p.externalRef.value, wanted.value.id);
      }
  }

  /**
    A failing e-mail leaves all reservations alone and is kept for the operator, unless a
    parser threw while being asked.
   */
  lemma LiveFailure(s: Store, registry: seq<Parser>, mail: Email, now: int, fault: Option<Fault>)
    requires s.nextEntry !in s.entries && !Succeeds(s, registry, mail, now, fault)
    ensures var next := Live(s, registry, mail, now, fault);
      && next.office == s.office && next.nextLine == s.nextLine
      && next.entries - {s.nextEntry} == s.entries
      && (s.nextEntry in next.entries <==> Loads(fault) && Find(registry, mail).Ok?)
      && (s.nextEntry in next.entries
          ==> next.entries[s.nextEntry].mail == mail && next.entries[s.nextEntry].status == Waiting)
  {
    var next := Live(s, registry, mail, now, fault);
    assert s.entries - {s.nextEntry} == s.entries;
    if s.nextEntry in next.entries {
      assert next.entries == s.entries[s.nextEntry := next.entries[s.nextEntry]];
      assert next.entries - {s.nextEntry} == s.entries;
    }
  }

  // ---- Runs -------------------------------------------------------------------

  datatype Step =
    | Office(action: Bookings.Action)
    | Mail(registry: seq<Parser>, mail: Email, now: int, fault: Option<Fault>)
    | Reparse(entry: int, registry: seq<Parser>, now: int, fault: Option<Fault>)
    | Ignore(entry: int)

  ghost function Next(s: Store, x: Step): Store {
    match x
    case Office(a) => s.(office := Bookings.Apply(s.office, a))
    case Mail(registry, mail, now, fault) => Live(s, registry, mail, now, fault)
    case Reparse(entry, registry, now, fault) => Reparsed(s, entry, registry, now, fault)
    case Ignore(entry) =>
      if entry in s.entries && s.entries[entry].status == Waiting then s.(entries := s.entries - {entry}) else s
  }

  ghost function Run(s: Store, steps: seq<Step>): Store
    decreases |steps|
  {
    if steps == [] then s else Run(Next(s, steps[0]), steps[1..])
  }

  ghost function MailAction(s: Store, registry: seq<Parser>, mail: Email, now: int,
                            fault: Option<Fault>): Option<Bookings.Action> {
    if !Loads(fault) then None
    else match Find(registry, mail)
    case Err(_) => None
    case Ok(None) => None
    case Ok(Some(parser)) =>
      match Attempt(s, parser, mail, now, fault)
      case Err(_) => None
      case Ok(a) => Some(a)
  }

  /** What a step does to rooms and reservations, as a step of the office. */
  ghost function ActionOf(s: Store, x: Step): Option<Bookings.Action> {
    match x
    case Office(a) => Some(a)
    case Mail(registry, mail, now, fault) => MailAction(s, registry, mail, now, fault)
    case Reparse(entry, registry, now, fault) =>
      if entry in s.entries then MailAction(s, registry, s.entries[entry].mail, now, fault) else None
    case Ignore(_) => None
  }

  lemma StepIsAction(s: Store, x: Step)
    ensures Next(s, x).office
         == (if ActionOf(s, x).Some? then Bookings.Apply(s.office, ActionOf(s, x).value) else s.office)
    ensures !x.Office? && ActionOf(s, x).Some? ==> ActionOf(s, x).value.Create? || ActionOf(s, x).value.Cancel?
  {
    match x
    case Office(_) =>
    case Mail(_, _, _, _) =>
    case Reparse(entry, registry, now, fault) =>
      if entry in s.entries { ReparseAgreesWithLive(s, entry, registry, now, fault); }
    case Ignore(_) =>
  }

  ghost function ActionsOf(s: Store, steps: seq<Step>): seq<Bookings.Action>
    decreases |steps|
  {
    if steps == [] then []
    else
      (if ActionOf(s, steps[0]).Some? then [ActionOf(s, steps[0]).value] else []) +
      ActionsOf(Next(s, steps[0]), steps[1..])
  }

  /** E-mail never double books: a run with ingestion and reparses is a run of the office, and as safe. */
  lemma {:induction false} MailKeepsRoomsSafe(s: Store, overridden: set<int>, steps: seq<Step>)
    requires Bookings.Safe(s.office, overridden)
    ensures var (end, blamed) := Bookings.Run(s.office, overridden, ActionsOf(s, steps));
      Run(s, steps).office == end && Bookings.Safe(end, blamed)
    decreases |steps|
  {
    Bookings.RunIsSafe(s.office, overridden, ActionsOf(s, steps));
    if steps != [] {
      var x := steps[0];
      var action := ActionOf(s, x);
      var rest := ActionsOf(Next(s, x), steps[1..]);
      StepIsAction(s, x);
      if action.Some? {
        Bookings.StepIsSafe(s.office, action.value, overridden);
        MailKeepsRoomsSafe(Next(s, x), Bookings.Blame(s.office, action.value, overridden), steps[1..]);
        assert ([action.value] + rest)[1..] == rest;
      } else {
        MailKeepsRoomsSafe(Next(s, x), overridden, steps[1..]);
        assert [] + rest == rest;
      }
    }
  }

  // ---- How many reservations a reference has ----------------------------------

  predicate Makes(a: Bookings.Action, ref: string) {
    (a.Create? && a.draft.externalRef == Some(ref)) || (a.Walkin? && a.ref == ref)
  }

  ghost predicate FromNotice(s: Store, registry: seq<Parser>, mail: Email) {
    Find(registry, mail).Ok? && Find(registry, mail).value.Some?
        && Find(registry, mail).value.value.kind.CancellationMail?
  }

  /** The step is a cancellation notice. */
  ghost predicate IsNotice(s: Store, x: Step) {
    || (x.Mail? && FromNotice(s, x.registry, x.mail))
    || (x.Reparse? && x.entry in s.entries && FromNotice(s, x.registry, s.entries[x.entry].mail))
  }

  ghost predicate Creates(s: Store, x: Step, ref: string) {
    ActionOf(s, x).Some? && Makes(ActionOf(s, x).value, ref)
  }

  /** Bookings created for the reference in a run, other than by a notice. */
  ghost function Booked(s: Store, steps: seq<Step>, ref: string): nat
    decreases |steps|
  {
    if steps == [] then 0
    else
      (if Creates(s, steps[0], ref) && !IsNotice(s, steps[0]) then 1 else 0) +
      Booked(Next(s, steps[0]), steps[1..], ref)
  }

  /** Reservations a notice had to create. */
  ghost function MadeByNotice(s: Store, steps: seq<Step>, ref: string): nat
    decreases |steps|
  {
    if steps == [] then 0
    else
      (if Creates(s, steps[0], ref) && IsNotice(s, steps[0]) then 1 else 0) +
      MadeByNotice(Next(s, steps[0]), steps[1..], ref)
  }

  predicate Deletes(x: Step) { x.Office? && x.action.Delete? }

  lemma PlaceKeepsRef(rooms: seq<Room>, table: Table, id: int, r: Reservation, ref: string)
    ensures With(Place(rooms, table, id, r), ref)
        == With(table, ref) - {id} + (if r.externalRef == Some(ref) then {id} else {})
  {
    assert AssignRooms(rooms, OccupiedRoomIds(table, r.checkin, r.checkout, Some(id)), Clear(r)).externalRef
        == r.externalRef;
  }

  lemma SetRow(table: Table, id: int, row: Reservation, ref: string)
    requires id in table && row.externalRef == table[id].externalRef
    ensures With(table[id := row], ref) == With(table, ref)
  {
  }

  /** A step of the office without deletion adds at most the row it creates. */
  lemma ActionKeepsRefs(s: Bookings.State, a: Bookings.Action, ref: string)
    requires Bookings.WellFormed(s) && !a.Delete?
    ensures With(Bookings.Apply(s, a).table, ref) == With(s.table, ref) + (if Makes(a, ref) then {s.nextId} else {})
    ensures s.nextId !in With(s.table, ref)
  {
    match a
    case Create(draft) =>
      if s.autoAssign { PlaceKeepsRef(s.rooms, s.table, s.nextId, draft, ref); }
    case Walkin(_, _, _, _, _, _) =>
    case Patch(id, _, _, _, _, _) =>
      if id in s.table && !Bookings.PatchFails(a) { SetRow(s.table, id, Bookings.PatchRow(s.table[id], a), ref); }
    case SetStatus(id, status) =>
      if id in s.table { SetRow(s.table, id, s.table[id].(status := status), ref); }
    case Cancel(id) =>
      if id in s.table { SetRow(s.table, id, s.table[id].(status := Cancelled), ref); }
    case Reassign(id) =>
      if id in s.table { PlaceKeepsRef(s.rooms, s.table, id, s.table[id], ref); }
    case AssignManually(id, line, target) =>
      if Bookings.AssignAccepted(s, a) { SetRow(s.table, id, Bookings.AssignRow(s.table[id], line, target), ref); }
    case AddRoom(_, _, _, _) =>
    case EditRoom(_, _, _, _, _) =>
    case DeleteRoom(roomId) =>
      var after := Bookings.Apply(s, a).table;
      forall id | id in s.table ensures id in after && after[id].externalRef == s.table[id].externalRef {
        assert after[id] == s.table[id] || after[id] == Bookings.VacateRow(s.table[id], roomId);
      }
      assert after.Keys == s.table.Keys;
    case SetAutoAssign(_) =>
  }

  /** A notice creates a row only for a reference nobody has. */
  lemma NoticeMakesFirst(s: Store, x: Step, ref: string)
    requires IsNotice(s, x) && Creates(s, x, ref)
    ensures With(s.office.table, ref) == {}
  {
  }

  /**
    Without deletions a reference has exactly the reservations booked for it, plus at
    most one that a cancellation notice created because there was none.
   */
  lemma {:induction false} ReferencesAreConserved(s: Store, steps: seq<Step>, ref: string)
    requires Bookings.WellFormed(s.office)
    requires forall k :: 0 <= k < |steps| ==> !Deletes(steps[k])
    ensures |With(Run(s, steps).office.table, ref)|
        == |With(s.office.table, ref)| + Booked(s, steps, ref) + MadeByNotice(s, steps, ref)
    ensures MadeByNotice(s, steps, ref) <= if With(s.office.table, ref) == {} then 1 else 0
    decreases |steps|
  {
    if steps != [] {
      var x, next := steps[0], Next(s, steps[0]);
      var action := ActionOf(s, x);
      StepIsAction(s, x);
      assert !Deletes(x);
      if action.Some? {
        ActionKeepsRefs(s.office, action.value, ref);
        Bookings.ApplyWellFormed(s.office, action.value);
      }
      ReferencesAreConserved(next, steps[1..], ref);
      if Creates(s, x, ref) {
        assert s.office.nextId in With(next.office.table, ref);
        if IsNotice(s, x) { NoticeMakesFirst(s, x, ref); }
      }
    }
  }

  // ---- Cancellation notices ---------------------------------------------------

  /** The reference a notice names, when it parses. */
  ghost predicate NoticeFor(parser: Parser, mail: Email, ref: string) {
    parser.kind.CancellationMail? && parser.parse(mail).Ok? && ref != ""
        && parser.parse(mail).value.externalRef == Some(ref)
  }

  /**
    The newest reservation is cancelled and no other is touched; with none there, one cancelled
    reservation appears.
   */
  lemma NoticeCancelsNewest(s: Store, registry: seq<Parser>, parser: Parser, mail: Email, ref: string, now: int)
    requires Find(registry, mail) == Ok(Some(parser)) && NoticeFor(parser, mail, ref)
    requires Bookings.WellFormed(s.office)
    ensures var before, after := s.office.table, Live(s, registry, mail, now, None).office.table;
      && (forall id :: IsNewest(before, ref, id) ==> after == before[id := before[id].(status := Cancelled)])
      && (With(before, ref) == {} ==>
            && after.Keys == before.Keys + {s.office.nextId} && (forall id :: id in before ==> after[id] == before[id])
            && after[s.office.nextId].status == Cancelled && With(after, ref) == {s.office.nextId})
  {
    var before, after := s.office.table, Live(s, registry, mail, now, None).office.table;
    forall id | IsNewest(before, ref, id) ensures after == before[id := before[id].(status := Cancelled)] {
      NewestIsUnique(before, ref, id);
    }
    if With(before, ref) == {} {
      assert forall id :: IsNewest(before, ref, id) ==> id in With(before, ref);
      ActionKeepsRefs(s.office, ActionFor(s, parser, mail, now).value, ref);
    }
  }

  /** A notice changes nothing exactly when the newest reservation is already cancelled. */
  lemma NoticeIsIdleExactly(s: Store, registry: seq<Parser>, parser: Parser, mail: Email, ref: string, now: int)
    requires Find(registry, mail) == Ok(Some(parser)) && NoticeFor(parser, mail, ref)
    requires Bookings.WellFormed(s.office)
    ensures Live(s, registry, mail, now, None).office == s.office
      <==> exists id :: IsNewest(s.office.table, ref, id) && s.office.table[id].status == Cancelled
  {
    var table := s.office.table;
    if Newest(table, ref).Some? {
      var id := Newest(table, ref).value;
      forall j | IsNewest(table, ref, j) ensures j == id { NewestIsUnique(table, ref, j); }
      var cancelled := table[id].(status := Cancelled);
      assert Live(s, registry, mail, now, None).office == s.office.(table := table[id := cancelled]);
      if table[id].status == Cancelled {
        assert cancelled == table[id] && table[id := cancelled] == table;
      } else {
        assert table[id := cancelled][id] != table[id];
      }
    } else {
      assert forall id :: IsNewest(table, ref, id) ==> id in With(table, ref);
      assert Live(s, registry, mail, now, None).office.nextId == s.office.nextId + 1;
    }
  }

  /** Repeating a notice changes no reservation. */
  lemma NoticeTwice(s: Store, registry: seq<Parser>, parser: Parser, mail: Email, ref: string, now: int, later: int)
    requires Find(registry, mail) == Ok(Some(parser)) && NoticeFor(parser, mail, ref)
    requires Bookings.WellFormed(s.office)
    ensures var once := Live(s, registry, mail, now, None);
      Live(once, registry, mail, later, None).office == once.office
  {
    var once := Live(s, registry, mail, now, None);
    var before, after := s.office.table, once.office.table;
    NoticeCancelsNewest(s, registry, parser, mail, ref, now);
    Bookings.ApplyWellFormed(s.office, ActionFor(s, parser, mail, now).value);
    if Newest(before, ref).Some? {
      var id := Newest(before, ref).value;
      assert forall j :: j in after && after[j].externalRef == Some(ref) ==> NotAfter(before, j, id);
      assert IsNewest(after, ref, id) && after[id].status == Cancelled;
    } else {
      var id := s.office.nextId;
      assert id in With(after, ref);
      forall j | j in after && after[j].externalRef == Some(ref) ensures NotAfter(after, j, id) {
        assert j in With(after, ref);
      }
      assert IsNewest(after, ref, id) && after[id].status == Cancelled;
    }
    NoticeIsIdleExactly(once, registry, parser, mail, ref, later);
  }

  /** What the first accepting parser makes of the e-mail is a booking. */
  predicate IsBooking(registry: seq<Parser>, mail: Email) {
    && Find(registry, mail).Ok? && Find(registry, mail).value.Some?
    && Find(registry, mail).value.value.kind.BookingMail? && Find(registry, mail).value.value.parse(mail).Ok?
  }

  /**
    Reparsing does not look at the entry's status. Doing it twice is harmless exactly
    when the e-mail is not a booking; a booking is booked again each time.
   */
  lemma SecondReparseHarmlessExactly(s: Store, entry: int, registry: seq<Parser>, now: int, later: int)
    requires entry in s.entries && Bookings.WellFormed(s.office)
    ensures var once := Reparsed(s, entry, registry, now, None);
      && entry in once.entries && once.entries[entry].mail == s.entries[entry].mail
      && (Reparsed(once, entry, registry, later, None).office == once.office
          <==> !IsBooking(registry, s.entries[entry].mail))
  {
    var mail := s.entries[entry].mail;
    var once := Reparsed(s, entry, registry, now, None);
    ReparseAgreesWithLive(s, entry, registry, now, None);
    ReparseAgreesWithLive(once, entry, registry, later, None);
    match Find(registry, mail)
    case Err(_) =>
    case Ok(None) =>
    case Ok(Some(parser)) =>
      if parser.parse(mail).Ok? {
        var p := parser.parse(mail).value;
        if parser.kind.BookingMail? {
          assert Reparsed(once, entry, registry, later, None).office.nextId == once.office.nextId + 1;
        } else if !MissingRef(p) {
          NoticeTwice(s, registry, parser, mail, p.externalRef.value, now, later);
          LiveFromOffice(once, Live(s, registry, mail, now, None), registry, mail, later);
        }
      }
  }

  /** What an e-mail does to the office depends on the office and the next line id only. */
  lemma LiveFromOffice(a: Store, b: Store, registry: seq<Parser>, mail: Email, now: int)
    requires a.office == b.office && a.nextLine == b.nextLine
    ensures Live(a, registry, mail, now, None).office == Live(b, registry, mail, now, None).office
  {
  }

  /** A booking reparsed twice is booked twice. */
  lemma ReparsedTwiceIsBookedTwice(s: Store, entry: int, registry: seq<Parser>, ref: string, now: int, later: int)
    requires entry in s.entries && Bookings.WellFormed(s.office) && IsBooking(registry, s.entries[entry].mail)
    requires Find(registry, s.entries[entry].mail).value.value.parse(s.entries[entry].mail).value.externalRef
        == Some(ref)
    ensures var once := Reparsed(s, entry, registry, now, None);
      |With(Reparsed(once, entry, registry, later, None).office.table, ref)| == |With(s.office.table, ref)| + 2
  {
    var parser := Find(registry, s.entries[entry].mail).value.value;
    var once := Reparsed(s, entry, registry, now, None);
    var first := ActionFor(s, parser, s.entries[entry].mail, now).value;
    Bookings.ApplyWellFormed(s.office, first);
    ActionKeepsRefs(s.office, first, ref);
    ActionKeepsRefs(once.office, ActionFor(once, parser, s.entries[entry].mail, later).value, ref);
  }
}
