/**
  From a fetched e-mail to committed rows (backend/app/services/email_ingest.py),
  and the operator's reparse of a stored one (backend/app/routers/admin_ui.py).

  What regular expressions and XPath extract is abstract: a parser is a function
  from the e-mail to fields or to an exception.
 */
module Mailroom {
  import opened Wrappers
  import opened Hotel
  import Bookings

  datatype Email = Email(subject: string, body: string, contentType: string)

  /** The parsers' own exception, and any other. */
  datatype Failure = ParserError(message: string) | Unexpected(message: string)

  datatype Kind = BookingMail | CancellationMail

  datatype Parsed = Parsed(externalRef: Option<string>, channel: string, guest: string, checkin: int, checkout: int,
                           roomType: Option<string>, lines: seq<string>)

  datatype Parser = Parser(slug: string, kind: Kind,
                           canParse: Email -> Result<bool, Failure>, parse: Email -> Result<Parsed, Failure>)

  datatype EntryStatus = Waiting | Resolved

  /** An e-mail kept because it could not be ingested. */
  datatype Entry = Entry(mail: Email, reason: string, slug: Option<string>,
                         status: EntryStatus, resolvedTo: Option<int>, resolvedAt: Option<int>)

  datatype Store = Store(office: Bookings.State, entries: map<int, Entry>, nextEntry: int, nextLine: int)

  // ---- The registry -----------------------------------------------------------

  /** The first parser that accepts the e-mail; asking one may throw. */
  function Find(registry: seq<Parser>, mail: Email): Result<Option<Parser>, Failure> {
    if registry == [] then Ok(None)
    else match registry[0].canParse(mail)
      case Err(f) => Err(f)
      case Ok(accepted) => if accepted then Ok(Some(registry[0])) else Find(registry[1..], mail)
  }

  ghost predicate FirstAccepting(registry: seq<Parser>, mail: Email, p: Parser, i: int) {
    && 0 <= i < |registry| && registry[i] == p && p.canParse(mail) == Ok(true)
    && forall j :: 0 <= j < i ==> registry[j].canParse(mail) == Ok(false)
  }

  /** The parser found accepts the e-mail and all parsers before it declined; none is found only if all declined. */
  lemma {:induction false} FindsFirst(registry: seq<Parser>, mail: Email)
    ensures Find(registry, mail) == Ok(None)
      <==> forall i :: 0 <= i < |registry| ==> registry[i].canParse(mail) == Ok(false)
    ensures forall p :: Find(registry, mail) == Ok(Some(p)) ==>
      exists i :: FirstAccepting(registry, mail, p, i)
  {
    if registry != [] && registry[0].canParse(mail) == Ok(true) {
      assert FirstAccepting(registry, mail, registry[0], 0);
    } else if registry != [] && registry[0].canParse(mail) == Ok(false) {
      var rest := registry[1..];
      FindsFirst(rest, mail);
      assert forall i :: 0 <= i < |rest| ==> rest[i] == registry[i + 1];
      forall p | Find(registry, mail) == Ok(Some(p))
        ensures exists i :: FirstAccepting(registry, mail, p, i)
      {
        var i :| FirstAccepting(rest, mail, p, i);
        forall j | 0 <= j < i + 1 ensures registry[j].canParse(mail) == Ok(false) {
          if j > 0 { assert registry[j] == rest[j - 1]; }
        }
        assert FirstAccepting(registry, mail, p, i + 1);
      }
    }
  }

  function Reason(f: Failure): string {
    match f
    case ParserError(message) => message
    case Unexpected(message) => "unexpected error: " + message
  }

  // ---- What an e-mail does ----------------------------------------------------

  function Draft(s: Store, p: Parsed, status: Status, now: int): Reservation {
    Reservation(p.externalRef, p.channel, p.guest, p.checkin, p.checkout, p.roomType, status, None,
                seq(|p.lines|, i requires 0 <= i < |p.lines| => Line(s.nextLine + i, p.lines[i], None)), now)
  }

  function Insert(s: Store, draft: Reservation): Store {
    s.(office := Bookings.Apply(s.office, Bookings.Create(draft)), nextLine := s.nextLine + |draft.lines|)
  }

  /** The most recently created reservation with this reference; rows created at the same time rank by id. */
  predicate IsNewest(table: Table, ref: string, id: int) {
    id in table && table[id].externalRef == Some(ref)
    && forall j :: j in table && table[j].externalRef == Some(ref) ==> NotAfter(table, j, id)
  }

  predicate NotAfter(table: Table, j: int, id: int)
    requires j in table && id in table
  {
    table[j].createdAt < table[id].createdAt || (table[j].createdAt == table[id].createdAt && id <= j)
  }

  ghost function Newest(table: Table, ref: string): (newest: Option<int>)
    ensures newest.Some? ==> IsNewest(table, ref, newest.value)
    ensures newest.None? ==> With(table, ref) == {}
  {
    NewestExists(table, With(table, ref));
    assert forall id :: Leads(table, With(table, ref), id) ==> IsNewest(table, ref, id);
    if id :| IsNewest(table, ref, id) then Some(id) else None
  }

  /** The reservations with this reference. */
  function With(table: Table, ref: string): set<int> {
    set id | id in table && table[id].externalRef == Some(ref)
  }

  ghost predicate Leads(table: Table, ids: set<int>, id: int) {
    id in table && id in ids && forall j :: j in table && j in ids ==> NotAfter(table, j, id)
  }

  lemma {:induction false} NewestExists(table: Table, ids: set<int>)
    requires ids <= table.Keys
    ensures ids != {} ==> exists id :: Leads(table, ids, id)
  {
    if x :| x in ids {
      NewestExists(table, ids - {x});
      if y :| Leads(table, ids - {x}, y) {
        if NotAfter(table, x, y) {
          assert Leads(table, ids, y);
        } else {
          forall j | j in ids ensures NotAfter(table, j, x) {
            assert j != x ==> NotAfter(table, j, y);
          }
          assert Leads(table, ids, x);
        }
      } else {
        assert ids == {x};
        assert Leads(table, ids, x);
      }
    } else {
      assert forall x :: x !in ids;
      assert ids == {};
    }
  }

  lemma NewestIsUnique(table: Table, ref: string, id: int)
    requires IsNewest(table, ref, id)
    ensures Newest(table, ref) == Some(id)
  {
    assert id in With(table, ref);
  }

  predicate MissingRef(p: Parsed) { p.externalRef.None? || p.externalRef.value == "" }

  const NO_REFERENCE := ParserError("cancellation email has no reservation reference (external_ref)")

  /** The change of the reservations the parser's answer asks for. */
  ghost function ActionFor(s: Store, parser: Parser, mail: Email, now: int): Result<Bookings.Action, Failure> {
    match parser.parse(mail)
    case Err(f) => Err(f)
    case Ok(p) =>
      if parser.kind.BookingMail? then Ok(Bookings.Create(Draft(s, p, Confirmed, now)))
      else if MissingRef(p) then Err(NO_REFERENCE)
      else match Newest(s.office.table, p.externalRef.value)
        case Some(id) => Ok(Bookings.Cancel(id))
        case None => Ok(Bookings.Create(Draft(s, p, Cancelled, now)))
  }

  ghost function Perform(s: Store, a: Bookings.Action): Store {
    if a.Create? then Insert(s, a.draft) else s.(office := Bookings.Apply(s.office, a))
  }

  /** The reservation an action is about. */
  function Target(s: Store, a: Bookings.Action): int {
    if a.Cancel? then a.id else s.office.nextId
  }

  /** A database exception while the parser profiles are loaded, or while the e-mail's rows are read and written. */
  datatype Fault = Loading(message: string) | Writing(message: string)

  predicate Loads(fault: Option<Fault>) { fault.None? || fault.value.Writing? }

  /** An exception while rows are read and written comes only after the parser's work is done. */
  ghost function Attempt(s: Store, parser: Parser, mail: Email, now: int,
                         fault: Option<Fault>): Result<Bookings.Action, Failure> {
    var wanted := ActionFor(s, parser, mail, now);
    if wanted.Ok? && fault.Some? then Err(Unexpected(fault.value.message)) else wanted
  }

  function Record(s: Store, mail: Email, reason: string, slug: Option<string>): Store {
    s.(entries := s.entries[s.nextEntry := Entry(mail, reason, slug, Waiting, None, None)],
       nextEntry := s.nextEntry + 1)
  }

  /** Live ingestion of one e-mail; without the parser profiles the poll as a whole is given up. */
  ghost function Live(s: Store, registry: seq<Parser>, mail: Email, now: int, fault: Option<Fault>): Store {
    if !Loads(fault) then s
    else match Find(registry, mail)
    case Err(_) => s
    case Ok(None) => Record(s, mail, "no matching parser", None)
    case Ok(Some(parser)) =>
      match Attempt(s, parser, mail, now, fault)
      case Err(f) => Record(s, mail, Reason(f), Some(parser.slug))
      case Ok(a) => Perform(s, a)
  }

  function Note(s: Store, entry: int, reason: string, slug: Option<string>): Store
    requires entry in s.entries
  {
    s.(entries := s.entries[entry := s.entries[entry].(reason := reason, slug := slug)])
  }

  function Resolve(s: Store, entry: int, id: int, now: int): Store
    requires entry in s.entries
  {
    var e := s.entries[entry].(status := Resolved, resolvedTo := Some(id), resolvedAt := Some(now));
    s.(entries := s.entries[entry := e])
  }

  /** The operator's reparse of a stored e-mail. */
  ghost function Reparsed(s: Store, entry: int, registry: seq<Parser>, now: int, fault: Option<Fault>): Store {
    if entry !in s.entries then s
    else if !Loads(fault) then Note(s, entry, Reason(Unexpected(fault.value.message)), None)
    else
      var mail := s.entries[entry].mail;
      match Find(registry, mail)
      case Err(f) => Note(s, entry, Reason(f), None)
      case Ok(None) => Note(s, entry, "no matching parser", None)
      case Ok(Some(parser)) =>
        match Attempt(s, parser, mail, now, fault)
        case Err(f) => Note(s, entry, Reason(f), Some(parser.slug))
        case Ok(a) => Resolve(Perform(s, a), entry, Target(s, a), now)
  }

  // ---- What is stored ---------------------------------------------------------

  /**
    One new row, with the parsed fields under their own names, served in order if that is
    enabled; all others as before.
   */
  ghost predicate StoredAs(before: Bookings.State, after: Bookings.State, p: Parsed, status: Status, now: int) {
    var id := before.nextId;
    && id !in before.table && id in after.table && after.table - {id} == before.table
    && (var r := after.table[id];
        && r.externalRef == p.externalRef && r.channel == p.channel && r.guest == p.guest
        && r.checkin == p.checkin && r.checkout == p.checkout && r.roomType == p.roomType
        && r.status == status && r.createdAt == now
        && |r.lines| == |p.lines| && (forall i :: 0 <= i < |p.lines| ==> r.lines[i].roomType == p.lines[i])
        && (before.autoAssign ==> ServedInOrder(before.rooms, before.table, id, r))
        && (!before.autoAssign ==> Bookings.NoRooms(r)))
  }

  lemma DraftIsStored(s: Store, p: Parsed, status: Status, now: int)
    requires Bookings.WellFormed(s.office)
    ensures StoredAs(s.office, Bookings.Apply(s.office, Bookings.Create(Draft(s, p, status, now))), p, status, now)
  {
    Bookings.CreateServesInOrder(s.office, Draft(s, p, status, now));
  }

  /** This row is cancelled and nothing else is changed. */
  ghost predicate CancelledOnly(before: Table, after: Table, id: int) {
    && id in before && id in after && after - {id} == before - {id}
    && after[id].status == Cancelled && after[id].(status := before[id].status) == before[id]
  }

  /**
    What the first accepting parser's answer asks for has happened: a booking is stored as
    parsed; a notice cancels the newest reservation with its reference, or is stored cancelled.
   */
  ghost predicate Ingested(before: Bookings.State, after: Bookings.State, parser: Parser, mail: Email, now: int) {
    match parser.parse(mail)
    case Err(_) => after == before
    case Ok(p) =>
      && (parser.kind.BookingMail? ==> StoredAs(before, after, p, Confirmed, now))
      && (parser.kind.CancellationMail? ==> match p.externalRef
            case None => after == before
            case Some(ref) =>
              && (ref == "" ==> after == before)
              && (ref != "" && With(before.table, ref) == {} ==> StoredAs(before, after, p, Cancelled, now))
              && (ref != "" ==> forall id ::
                  IsNewest(before.table, ref, id) ==> CancelledOnly(before.table, after.table, id)))
  }

  lemma AnswerIsIngested(s: Store, parser: Parser, mail: Email, now: int)
    requires Bookings.WellFormed(s.office)
    ensures var wanted := ActionFor(s, parser, mail, now);
      Ingested(s.office, if wanted.Ok? then Perform(s, wanted.value).office else s.office, parser, mail, now)
  {
    if parser.parse(mail).Ok? {
      var p := parser.parse(mail).value;
      DraftIsStored(s, p, Confirmed, now);
      DraftIsStored(s, p, Cancelled, now);
      if parser.kind.CancellationMail? && !MissingRef(p) {
        var ref := p.externalRef.value;
        forall id | IsNewest(s.office.table, ref, id)
          ensures CancelledOnly(s.office.table, Bookings.Apply(s.office, Bookings.Cancel(id)).table, id)
          ensures Newest(s.office.table, ref) == Some(id)
        {
          NewestIsUnique(s.office.table, ref, id);
        }
        assert forall id :: IsNewest(s.office.table, ref, id) ==> id in With(s.office.table, ref);
      }
    }
  }

  lemma FindsTheFirst(registry: seq<Parser>, mail: Email, parser: Parser, i: int)
    requires FirstAccepting(registry, mail, parser, i)
    ensures Find(registry, mail) == Ok(Some(parser))
    decreases i
  {
    if i > 0 {
      assert registry[0].canParse(mail) == Ok(false);
      assert forall j :: 0 <= j < i ==> registry[1..][j] == registry[j + 1];
      FindsTheFirst(registry[1..], mail, parser, i - 1);
    }
  }

  /** Without a database exception the first accepting parser's answer is carried out. */
  ghost predicate CarriedOut(before: Bookings.State, after: Bookings.State, registry: seq<Parser>, mail: Email,
                             now: int) {
    Bookings.WellFormed(before) ==>
      forall parser, i :: FirstAccepting(registry, mail, parser, i) ==> Ingested(before, after, parser, mail, now)
  }

  lemma LiveIsCarriedOut(s: Store, registry: seq<Parser>, mail: Email, now: int)
    ensures CarriedOut(s.office, Live(s, registry, mail, now, None).office, registry, mail, now)
  {
    if Bookings.WellFormed(s.office) {
      forall parser, i | FirstAccepting(registry, mail, parser, i)
        ensures Ingested(s.office, Live(s, registry, mail, now, None).office, parser, mail, now)
      {
        FindsTheFirst(registry, mail, parser, i);
        AnswerIsIngested(s, parser, mail, now);
      }
    }
  }

  lemma ReparseIsCarriedOut(s: Store, entry: int, registry: seq<Parser>, now: int)
    requires entry in s.entries
    ensures CarriedOut(s.office, Reparsed(s, entry, registry, now, None).office, registry, s.entries[entry].mail, now)
  {
    var mail := s.entries[entry].mail;
    if Bookings.WellFormed(s.office) {
      forall parser, i | FirstAccepting(registry, mail, parser, i)
        ensures Ingested(s.office, Reparsed(s, entry, registry, now, None).office, parser, mail, now)
      {
        FindsTheFirst(registry, mail, parser, i);
        AnswerIsIngested(s, parser, mail, now);
      }
    }
  }

  /** The reason kept with an e-mail: the parser's own words, or those of another exception marked as unexpected. */
  ghost predicate RightReason(reason: string, failure: Failure) {
    match failure
    case ParserError(message) => reason == message
    case Unexpected(message) => reason == "unexpected error: " + message
  }

  /** An e-mail no parser accepts, or one that fails, is kept as it came with the right reason and parser. */
  lemma FailureIsRecorded(s: Store, registry: seq<Parser>, mail: Email, now: int, fault: Option<Fault>)
    requires Loads(fault)
    ensures var next, id := Live(s, registry, mail, now, fault), s.nextEntry;
      && ((forall i :: 0 <= i < |registry| ==> registry[i].canParse(mail) == Ok(false)) ==>
            id in next.entries && next.entries[id] == Entry(mail, "no matching parser", None, Waiting, None, None))
      && (forall parser, i :: FirstAccepting(registry, mail, parser, i) ==>
            && (parser.parse(mail).Err? ==> KeptFor(next, id, mail, parser, parser.parse(mail).error))
            && (fault.Some? && ActionFor(s, parser, mail, now).Ok? ==>
                  KeptFor(next, id, mail, parser, Unexpected(fault.value.message)))
            && (parser.kind.CancellationMail? && parser.parse(mail).Ok? && MissingRef(parser.parse(mail).value) ==>
                  KeptFor(next, id, mail, parser,
                          ParserError("cancellation email has no reservation reference (external_ref)"))))
  {
    FindsFirst(registry, mail);
    forall parser, i | FirstAccepting(registry, mail, parser, i) ensures Find(registry, mail) == Ok(Some(parser)) {
      FindsTheFirst(registry, mail, parser, i);
    }
  }

  /** What a reparse leaves on its entry: the row it made or cancelled and when, or why it failed. */
  lemma ReparseIsRecorded(s: Store, entry: int, registry: seq<Parser>, now: int, fault: Option<Fault>)
    requires entry in s.entries
    ensures var next, mail := Reparsed(s, entry, registry, now, fault), s.entries[entry].mail;
      var kept := next.entries[entry];
      && (!Loads(fault) ==> RightReason(kept.reason, Unexpected(fault.value.message)) && kept.slug.None?)
      && (Loads(fault) && (forall i :: 0 <= i < |registry| ==> registry[i].canParse(mail) == Ok(false)) ==>
            kept.reason == "no matching parser" && kept.slug.None?)
      && (Loads(fault) ==> forall parser, i :: FirstAccepting(registry, mail, parser, i) ==>
            && (parser.parse(mail).Err? ==>
                  RightReason(kept.reason, parser.parse(mail).error) && kept.slug == Some(parser.slug))
            && (fault.Some? && ActionFor(s, parser, mail, now).Ok? ==>
                  RightReason(kept.reason, Unexpected(fault.value.message)) && kept.slug == Some(parser.slug))
            && (fault.None? && parser.kind.BookingMail? && parser.parse(mail).Ok? ==>
                  kept.resolvedTo == Some(s.office.nextId) && kept.resolvedAt == Some(now))
            && (fault.None? && parser.kind.CancellationMail? && parser.parse(mail).Ok?
                && !MissingRef(parser.parse(mail).value) ==>
                  && kept.resolvedAt == Some(now)
                  && (forall id :: IsNewest(s.office.table, parser.parse(mail).value.externalRef.value, id) ==>
                        kept.resolvedTo == Some(id))
                  && (With(s.office.table, parser.parse(mail).value.externalRef.value) == {} ==>
                        kept.resolvedTo == Some(s.office.nextId))))
  {
    var mail := s.entries[entry].mail;
    FindsFirst(registry, mail);
    forall parser, i | FirstAccepting(registry, mail, parser, i) ensures Find(registry, mail) == Ok(Some(parser)) {
      FindsTheFirst(registry, mail, parser, i);
    }
    forall ref, id | IsNewest(s.office.table, ref, id)
      ensures Newest(s.office.table, ref) == Some(id) && With(s.office.table, ref) != {}
    {
      NewestIsUnique(s.office.table, ref, id);
      assert id in With(s.office.table, ref);
    }
  }

  ghost predicate KeptFor(s: Store, id: int, mail: Email, parser: Parser, failure: Failure) {
    && id in s.entries && s.entries[id].mail == mail && s.entries[id].slug == Some(parser.slug)
    && RightReason(s.entries[id].reason, failure)
    && s.entries[id].status == Waiting && s.entries[id].resolvedTo.None? && s.entries[id].resolvedAt.None?
  }

  // ---- One database session ---------------------------------------------------

  /**
    `work` is what the session sees; `committed` is what survives a rollback. The call that
    brings `fuse` to zero throws.
   */
  class Session {
    const message: string
    var committed: Store
    var work: Store
    var fuse: int

    constructor (store: Store, fuse: int, message: string)
      ensures committed == work == store && this.fuse == fuse && this.message == message
    {
      this.message, committed, work, this.fuse := message, store, store, fuse;
    }

    /** Any round trip to the database. */
    method Touch() returns (threw: bool)
      modifies this`fuse
      ensures threw == (old(fuse) == 0) && fuse == old(fuse) - 1
    {
      threw := fuse == 0;
      fuse := fuse - 1;
    }

    method Commit()
      modifies this`committed
      ensures committed == work
    {
      committed := work;
    }

    method Rollback()
      modifies this`work
      ensures work == committed
    {
      work := committed;
    }

    /** Insert the row, then assign its rooms when that is enabled. */
    method CreateReservationFromParsed(p: Parsed, status: Status, now: int) returns (r: Result<int, Failure>)
      modifies this`work, this`fuse
      ensures r.Ok? ==>
        r.value == old(work).office.nextId && work == Insert(old(work), Draft(old(work), p, status, now))
      ensures r.Err? ==> old(fuse) >= 0 && r.error == Unexpected(message)
    {
      var lines: seq<Line> := [];
      for index := 0 to |p.lines|
        invariant lines == Draft(work, p, status, now).lines[..index]
      {
        lines := lines + [Line(work.nextLine + index, p.lines[index], None)];
      }
      var draft := Reservation(p.externalRef, p.channel, p.guest, p.checkin, p.checkout, p.roomType, status, None,
          lines, now);
      assert draft == Draft(work, p, status, now);
      var id := work.office.nextId;
      ghost var before := work;
      work := work.(office := work.office.(table := work.office.table[id := draft], nextId := id + 1));
      work := work.(nextLine := work.nextLine + |draft.lines|);
      assert Clear(draft) == draft by { assert ClearLines(draft.lines) == draft.lines; }
      var threw := Touch();
      if threw { return Err(Unexpected(message)); }
      threw := Touch();
      if threw { return Err(Unexpected(message)); }
      if work.office.autoAssign {
        threw := Touch();
        if threw { return Err(Unexpected(message)); }
        var occupied := OccupiedRoomIds(work.office.table, draft.checkin, draft.checkout, Some(id));
        assert work.office.table - {id} == before.office.table - {id};
        OccupiedIgnoresSelf(work.office.table, before.office.table, id, draft.checkin, draft.checkout);
        var row := AssignRooms(work.office.rooms, occupied, draft);
        work := work.(office := work.office.(table := work.office.table[id := row]));
        assert work.office.table == Place(before.office.rooms, before.office.table, id, draft);
      }
      r := Ok(id);
    }

    /** Cancel the newest reservation with the notice's reference, or create a cancelled one. */
    method ApplyCancellationEmail(parser: Parser, mail: Email, now: int) returns (r: Result<int, Failure>)
      requires parser.kind.CancellationMail?
      modifies this`work, this`fuse
      ensures r.Ok? ==>
        var wanted := ActionFor(old(work), parser, mail, now);
        wanted.Ok? && work == Perform(old(work), wanted.value) && r.value == Target(old(work), wanted.value)
      ensures r.Err? ==>
        || ActionFor(old(work), parser, mail, now) == Err(r.error)
        || (ActionFor(old(work), parser, mail, now).Ok? && old(fuse) >= 0 && r.error == Unexpected(message))
    {
      var answer := parser.parse(mail);
      if answer.Err? { return Err(answer.error); }
      var p := answer.value;
      if MissingRef(p) { return Err(NO_REFERENCE); }
      var threw := Touch();
      if threw { return Err(Unexpected(message)); }
      var newest := SelectNewest(p.externalRef.value);
      if newest.Some? {
        var row := work.office.table[newest.value];
        work := work.(office := work.office.(table := work.office.table[newest.value := row.(status := Cancelled)]));
        return Ok(newest.value);
      }
      r := CreateReservationFromParsed(p, Cancelled, now);
    }

    /** SELECT ... WHERE external_ref = ref ORDER BY created_at DESC, first row. */
    method SelectNewest(ref: string) returns (newest: Option<int>)
      ensures newest == Newest(work.office.table, ref)
    {
      newest := None;
      if id :| id in With(work.office.table, ref) && IsNewest(work.office.table, ref, id) {
        NewestIsUnique(work.office.table, ref, id);
        newest := Some(id);
      }
    }

    /** What the parser asks for, tried on the session. */
    method TryIngest(parser: Parser, mail: Email, now: int) returns (r: Result<int, Failure>)
      modifies this`work, this`fuse
      ensures r.Ok? ==>
        var wanted := ActionFor(old(work), parser, mail, now);
        wanted.Ok? && work == Perform(old(work), wanted.value) && r.value == Target(old(work), wanted.value)
      ensures r.Err? ==>
        || ActionFor(old(work), parser, mail, now) == Err(r.error)
        || (ActionFor(old(work), parser, mail, now).Ok? && old(fuse) >= 0 && r.error == Unexpected(message))
    {
      if parser.kind.CancellationMail? {
        r := ApplyCancellationEmail(parser, mail, now);
      } else {
        var answer := parser.parse(mail);
        if answer.Err? { return Err(answer.error); }
        r := CreateReservationFromParsed(answer.value, Confirmed, now);
      }
    }

    method RecordUnparsed(mail: Email, reason: string, slug: Option<string>)
      modifies this`work
      ensures work == Record(old(work), mail, reason, slug)
    {
      work := work.(entries := work.entries[work.nextEntry := Entry(mail, reason, slug, Waiting, None, None)]);
      work := work.(nextEntry := work.nextEntry + 1);
    }

    /** Live ingestion; `fault` is the database exception that was caught, if there was one. */
    method ProcessEmail(registry: seq<Parser>, mail: Email, now: int) returns (ghost fault: Option<Fault>)
      requires work == committed
      modifies this
      ensures committed == work == Live(old(committed), registry, mail, now, fault)
      ensures fault.Some? ==> old(fuse) >= 0 && fault.value == Writing(message)
      ensures fault.None? ==> CarriedOut(old(committed).office, committed.office, registry, mail, now)
    {
      LiveIsCarriedOut(committed, registry, mail, now);
      fault := None;
      var found := Find(registry, mail);
      if found.Err? { return; }
      if found.value.None? {
        RecordUnparsed(mail, "no matching parser", None);
        Commit();
        return;
      }
      var parser := found.value.value;
      var r := TryIngest(parser, mail, now);
      if r.Err? {
        ghost var wanted := ActionFor(old(committed), parser, mail, now);
        if wanted.Ok? { fault := Some(Writing(message)); }
        Rollback();
        RecordUnparsed(mail, Reason(r.error), Some(parser.slug));
      }
      Commit();
    }

    /** Retry with the profiles that are loaded now; every failure is kept on the entry. */
    method ReparseUnparsedEmail(entry: int, registry: seq<Parser>, now: int) returns (ghost fault: Option<Fault>)
      requires work == committed
      modifies this
      ensures committed == work == Reparsed(old(committed), entry, registry, now, fault)
      ensures fault.Some? ==> old(fuse) >= 0 && fault.value.message == message
      ensures fault.None? && entry in old(committed).entries ==>
        CarriedOut(old(committed).office, committed.office, registry, old(committed).entries[entry].mail, now)
    {
      if entry in committed.entries { ReparseIsCarriedOut(committed, entry, registry, now); }
      fault := None;
      if entry !in work.entries { return; }
      var mail := work.entries[entry].mail;
      var slug, outcome := None, Err(ParserError("no matching parser"));
      var threw := Touch();
      var found := Find(registry, mail);
      if threw {
        fault := Some(Loading(message));
        outcome := Err(Unexpected(message));
      } else if found.Err? {
        outcome := Err(found.error);
      } else if found.value.Some? {
        var parser := found.value.value;
        slug := Some(parser.slug);
        outcome := TryIngest(parser, mail, now);
        ghost var wanted := ActionFor(old(committed), parser, mail, now);
        if outcome.Err? && wanted.Ok? { fault := Some(Writing(message)); }
      }
      if outcome.Err? {
        Rollback();
        NoteFailure(entry, Reason(outcome.error), slug);
      } else {
        MarkResolved(entry, outcome.value, now);
      }
      Commit();
    }

    method NoteFailure(entry: int, reason: string, slug: Option<string>)
      requires entry in work.entries
      modifies this`work
      ensures work == Note(old(work), entry, reason, slug)
    {
      work := work.(entries := work.entries[entry := work.entries[entry].(reason := reason)]);
      work := work.(entries := work.entries[entry := work.entries[entry].(slug := slug)]);
    }

    method MarkResolved(entry: int, id: int, now: int)
      requires entry in work.entries
      modifies this`work
      ensures work == Resolve(old(work), entry, id, now)
    {
      work := work.(entries := work.entries[entry := work.entries[entry].(status := Resolved)]);
      work := work.(entries := work.entries[entry := work.entries[entry].(resolvedTo := Some(id))]);
      work := work.(entries := work.entries[entry := work.entries[entry].(resolvedAt := Some(now))]);
    }
  }
}
