/**
  The reservation receipt (backend/app/services/printing.py): one function that
  builds a text summary and a byte stream side by side.

  The layout is specified once, as a list of entries; the builder is proved to
  render it into both outputs, and the two outputs are then compared through the
  printer that executes the bytes.
 */
module Receipt {
  import opened Wrappers
  import opened Escpos
  import opened Printer

  /** Amounts are their decimal text. */
  datatype RoomEntry = RoomEntry(roomType: string, roomNumber: Option<string>, nights: Option<int>,
                                 perNight: Option<string>, total: Option<string>)

  datatype Booking = Booking(
    guest: string, channel: string, cancelled: bool, checkin: int, checkout: int,
    adults: int, children: int, rooms: seq<RoomEntry>, roomType: Option<string>, roomNumber: Option<string>,
    currency: string, total: Option<string>, externalRef: Option<string>)

  datatype Settings = Settings(font: string, fontSize: string, boldLabels: bool,
                               showNights: bool, showGuests: bool, showChannel: bool)

  /** Library formatting that is taken as given. */
  datatype Formats = Formats(upper: string -> string, iso: int -> string, integer: int -> string,
                             average: (string, int) -> string, wrap: (string, int) -> seq<string>)

  datatype Failure = UnknownFont | InvalidWidth

  const DEFAULT_SETTINGS := Settings("font_a", "normal", false, true, true, true)

  const BANNER := "*** PREKLICANO ***"

  // ---- Layout ---------------------------------------------------------------

  datatype Entry = Plain(text: string) | Pair(key: string, value: string) | Rule

  function FontOf(name: string): Option<Font> {
    if name == "font_a" then Some(FontA) else if name == "font_b" then Some(FontB) else None
  }

  function BaseSize(name: string): (size: (int, int))
    ensures 1 <= size.0 <= 8 && 1 <= size.1 <= 8
  {
    if name == "large" then (2, 2) else if name == "xlarge" then (3, 3) else (1, 1)
  }

  function Nights(b: Booking): int { if b.checkout > b.checkin then b.checkout - b.checkin else 0 }

  function Header(b: Booking, s: Settings, f: Formats): string {
    (if s.showChannel then f.upper(b.channel) + " REZERVACIJA" else "REZERVACIJA") +
    (if b.cancelled then " \U{2014} PREKLICANO" else "")
  }

  function RoomLabel(roomType: string, roomNumber: Option<string>): string {
    if roomNumber.Some? then roomType + " (Soba " + roomNumber.value + ")" else roomType
  }

  /** Wrapping never yields no line at all. */
  function Wrap(text: string, width: int, f: Formats): (lines: seq<string>)
    ensures lines != []
  {
    if f.wrap(text, width) == [] then [text] else f.wrap(text, width)
  }

  function Indented(lines: seq<string>): seq<Entry> {
    if lines == [] then [] else [Plain("  " + lines[0])] + Indented(lines[1..])
  }

  function LabelEntries(text: string, width: int, f: Formats): seq<Entry> {
    var lines := Wrap(text, width, f);
    [Plain(lines[0])] + Indented(lines[1..])
  }

  function Amount(key: string, currency: string, amount: Option<string>): seq<Entry> {
    if amount.Some? then [Pair(key, currency + " " + amount.value)] else []
  }

  function RoomEntries(room: RoomEntry, currency: string, width: int, f: Formats): seq<Entry> {
    LabelEntries(RoomLabel(room.roomType, room.roomNumber), width, f) +
    (if room.nights.Some? then [Pair("  Nights:", f.integer(room.nights.value))] else []) +
    Amount("  Per night:", currency, room.perNight) +
    Amount("  Line total:", currency, room.total)
  }

  function RoomsEntries(rooms: seq<RoomEntry>, currency: string, width: int, f: Formats): seq<Entry> {
    if rooms == [] then []
    else RoomsEntries(rooms[..|rooms| - 1], currency, width, f) + RoomEntries(rooms[|rooms| - 1], currency, width, f)
  }

  function HasLabel(b: Booking): bool { b.rooms != [] || (b.roomType.Some? && b.roomType.value != "") }

  function StayEntries(b: Booking, width: int, f: Formats): seq<Entry> {
    if b.rooms != [] then [Plain("Sobe:")] + RoomsEntries(b.rooms, b.currency, width, f)
    else if b.roomType.Some? && b.roomType.value != "" then
      [Plain("Sobe:")] + LabelEntries(RoomLabel(b.roomType.value, b.roomNumber), width, f)
    else []
  }

  function SummaryEntries(b: Booking, s: Settings, f: Formats): seq<Entry> {
    var guests, nights := "GOSTI: " + f.integer(b.adults + b.children), "NO\U{10C}I: " + f.integer(Nights(b));
    if s.showGuests && s.showNights then [Plain(guests + "  |  " + nights)]
    else if s.showGuests then [Plain(guests)]
    else if s.showNights then [Plain(nights)]
    else []
  }

  function TotalEntries(b: Booking, f: Formats): seq<Entry> {
    if b.total.None? then []
    else
      [Pair("SKUPAJ:", b.currency + " " + b.total.value)] +
      (if Nights(b) > 0 then [Pair("Povp./no\U{10D}:", b.currency + " " + f.average(b.total.value, Nights(b)))]
       else []) +
      [Rule]
  }

  function Reference(b: Booking): string {
    if b.externalRef.Some? && b.externalRef.value != "" then b.externalRef.value else "-"
  }

  function DateEntries(b: Booking, f: Formats): seq<Entry> {
    [Pair("From:", f.iso(b.checkin)), Pair("To:", f.iso(b.checkout))]
  }

  function TopEntries(b: Booking, width: int, f: Formats): seq<Entry> {
    [Pair("Gost:", b.guest)] + StayEntries(b, width, f) + DateEntries(b, f)
  }

  function BottomEntries(b: Booking, s: Settings, f: Formats): seq<Entry> {
    SummaryEntries(b, s, f) + [Rule] + TotalEntries(b, f) + [Pair("Reservation nr.:", Reference(b))]
  }

  /** The part of the receipt both outputs share, in order. */
  function Layout(b: Booking, s: Settings, width: int, f: Formats): seq<Entry> {
    TopEntries(b, width, f) + BottomEntries(b, s, f)
  }

  // ---- The two renderings ---------------------------------------------------

  function CallOf(e: Entry, width: int): Call {
    match e
    case Plain(text) => WriteLine(text)
    case Pair(key, value) => KvLine(key, value, width)
    case Rule => Divider(width, '-')
  }

  function TextOf(e: Entry, width: int): string {
    match e
    case Plain(text) => text
    case Pair(key, value) => key + " " + value
    case Rule => Repeat('-', width)
  }

  function CallsOf(entries: seq<Entry>, width: int): (calls: seq<Call>)
    ensures |calls| == |entries| && forall i :: 0 <= i < |entries| ==> calls[i] == CallOf(entries[i], width)
  {
    seq(|entries|, i requires 0 <= i < |entries| => CallOf(entries[i], width))
  }

  function TextsOf(entries: seq<Entry>, width: int): (texts: seq<string>)
    ensures |texts| == |entries| && forall i :: 0 <= i < |entries| ==> texts[i] == TextOf(entries[i], width)
  {
    seq(|entries|, i requires 0 <= i < |entries| => TextOf(entries[i], width))
  }

  function BannerCalls(base: (int, int)): seq<Call> {
    [SetTextSize(3, 3), BoldLine(BANNER), SetTextSize(base.0, base.1)]
  }

  function TitleCalls(b: Booking, s: Settings, font: Font, f: Formats): seq<Call> {
    var base := BaseSize(s.fontSize);
    [SetFont(font), SetTextSize(base.0, base.1), SetAlign(Center), BoldLine(Header(b, s, f))]
  }

  function Opening(b: Booking, s: Settings, font: Font, width: int, f: Formats): seq<Call> {
    TitleCalls(b, s, font, f) + (if b.cancelled then BannerCalls(BaseSize(s.fontSize)) else []) +
    [Divider(width, '-'), SetAlign(Left)]
  }

  function ClosingBanner(b: Booking, base: (int, int)): seq<Call> {
    if b.cancelled then [SetAlign(Center)] + BannerCalls(base) + [SetAlign(Left)] else []
  }

  function LastCalls(stamp: string): seq<Call> { [WriteLine("Printed " + stamp), Feed(3), Cut(true)] }

  function Closing(b: Booking, s: Settings, width: int, stamp: string): seq<Call> {
    [Divider(width, '-')] + ClosingBanner(b, BaseSize(s.fontSize)) + LastCalls(stamp)
  }

  function ReceiptCalls(b: Booking, s: Settings, font: Font, width: int, stamp: string, f: Formats): seq<Call> {
    Opening(b, s, font, width, f) + CallsOf(Layout(b, s, width, f), width) + Closing(b, s, width, stamp)
  }

  function BannerTexts(b: Booking): seq<string> { if b.cancelled then [BANNER] else [] }

  function ReceiptTexts(b: Booking, s: Settings, width: int, f: Formats): seq<string> {
    [Header(b, s, f)] + BannerTexts(b) + TextsOf(Layout(b, s, width, f), width) + BannerTexts(b)
  }

  /** Every line followed by a line feed. */
  function Joined(texts: seq<string>): string {
    if texts == [] then "" else texts[0] + "\n" + Joined(texts[1..])
  }

  // ---- The builder, as the source runs it -----------------------------------

  /** Since `calls0` the builder received the calls of `entries`, and `texts` holds their text lines. */
  ghost predicate Rendered(calls0: seq<Call>, calls: seq<Call>, texts: seq<string>, entries: seq<Entry>, width: int) {
    calls == calls0 + CallsOf(entries, width) && texts == TextsOf(entries, width)
  }

  lemma RenderingConcat(a: seq<Entry>, b: seq<Entry>, width: int)
    ensures CallsOf(a + b, width) == CallsOf(a, width) + CallsOf(b, width)
    ensures TextsOf(a + b, width) == TextsOf(a, width) + TextsOf(b, width)
  {
  }

  lemma RenderOne(calls0: seq<Call>, calls: seq<Call>, texts: seq<string>, entries: seq<Entry>, e: Entry, width: int)
    requires Rendered(calls0, calls, texts, entries, width)
    ensures Rendered(calls0, calls + [CallOf(e, width)], texts + [TextOf(e, width)], entries + [e], width)
  {
    RenderingConcat(entries, [e], width);
    assert CallsOf([e], width) == [CallOf(e, width)] && TextsOf([e], width) == [TextOf(e, width)];
    assert calls0 + CallsOf(entries, width) + [CallOf(e, width)]
        == calls0 + (CallsOf(entries, width) + [CallOf(e, width)]);
  }

  lemma RenderMore(calls0: seq<Call>, middle: seq<Call>, calls: seq<Call>, texts: seq<string>, more: seq<string>,
                   entries: seq<Entry>, others: seq<Entry>, width: int)
    requires Rendered(calls0, middle, texts, entries, width)
    requires Rendered(middle, calls, more, others, width)
    ensures Rendered(calls0, calls, texts + more, entries + others, width)
  {
    RenderingConcat(entries, others, width);
    assert calls0 + CallsOf(entries, width) + CallsOf(others, width)
        == calls0 + (CallsOf(entries, width) + CallsOf(others, width));
  }

  /** A room label: the first wrapped line as it is, the others indented. */
  method WriteLabel(builder: ReceiptBuilder, text: string, width: int, f: Formats) returns (textLines: seq<string>)
    requires builder.Valid()
    modifies builder
    ensures builder.Valid()
    ensures Rendered(old(builder.calls), builder.calls, textLines, LabelEntries(text, width, f), width)
  {
    var wrapped := Wrap(text, width, f);
    LabelEnds(wrapped);
    RenderOne(builder.calls, builder.calls, [], [], Plain(wrapped[0]), width);
    builder.AddLine(wrapped[0]);
    textLines := [wrapped[0]];
    for i := 1 to |wrapped|
      invariant builder.Valid()
      invariant Rendered(old(builder.calls), builder.calls, textLines, LabelSoFar(wrapped, i), width)
    {
      var cont := "  " + wrapped[i];
      LabelOneMore(wrapped, i);
      RenderOne(old(builder.calls), builder.calls, textLines, LabelSoFar(wrapped, i), Plain(cont), width);
      builder.AddLine(cont);
      textLines := textLines + [cont];
    }
  }

  ghost function LabelSoFar(wrapped: seq<string>, i: int): seq<Entry>
    requires 1 <= i <= |wrapped|
  {
    [Plain(wrapped[0])] + Indented(wrapped[1..][..i - 1])
  }

  lemma LabelEnds(wrapped: seq<string>)
    requires wrapped != []
    ensures LabelSoFar(wrapped, 1) == [] + [Plain(wrapped[0])]
    ensures LabelSoFar(wrapped, |wrapped|) == [Plain(wrapped[0])] + Indented(wrapped[1..])
  {
    assert wrapped[1..][..|wrapped| - 1] == wrapped[1..];
  }

  lemma LabelOneMore(wrapped: seq<string>, i: nat)
    requires 1 <= i < |wrapped|
    ensures LabelSoFar(wrapped, i + 1) == LabelSoFar(wrapped, i) + [Plain("  " + wrapped[i])]
  {
    IndentOneMore(wrapped[1..], i - 1);
  }

  lemma PrefixTail(lines: seq<string>, n: nat)
    requires 1 <= n <= |lines|
    ensures lines[..n][1..] == lines[1..][..n - 1] && lines[..n][0] == lines[0]
  {
  }

  lemma {:induction false} IndentOneMore(lines: seq<string>, i: nat)
    requires i < |lines|
    ensures Indented(lines[..i + 1]) == Indented(lines[..i]) + [Plain("  " + lines[i])]
  {
    if i > 0 {
      IndentOneMore(lines[1..], i - 1);
      PrefixTail(lines, i + 1);
      PrefixTail(lines, i);
    }
  }

  /** A label and its value, in both outputs. */
  method WritePair(builder: ReceiptBuilder, key: string, value: string, width: int, before: seq<string>,
                   ghost calls0: seq<Call>, ghost entries: seq<Entry>) returns (textLines: seq<string>)
    requires builder.Valid() && Rendered(calls0, builder.calls, before, entries, width)
    modifies builder
    ensures builder.Valid() && Rendered(calls0, builder.calls, textLines, entries + [Pair(key, value)], width)
  {
    RenderOne(calls0, builder.calls, before, entries, Pair(key, value), width);
    builder.AddKvLine(key, value, width);
    textLines := before + [key + " " + value];
  }

  /** One room line: its label, then what is known about it. */
  method WriteRoom(builder: ReceiptBuilder, room: RoomEntry, currency: string, width: int, f: Formats)
    returns (textLines: seq<string>)
    requires builder.Valid()
    modifies builder
    ensures builder.Valid()
    ensures Rendered(old(builder.calls), builder.calls, textLines, RoomEntries(room, currency, width, f), width)
  {
    ghost var calls0 := builder.calls;
    textLines := WriteLabel(builder, RoomLabel(room.roomType, room.roomNumber), width, f);
    ghost var entries := LabelEntries(RoomLabel(room.roomType, room.roomNumber), width, f);
    textLines := WriteKnown(builder, room, currency, width, f, textLines, calls0, entries);
  }

  /** What is known about the room: nights, price per night, total. */
  method WriteKnown(builder: ReceiptBuilder, room: RoomEntry, currency: string, width: int, f: Formats,
                    before: seq<string>, ghost calls0: seq<Call>, ghost tag: seq<Entry>)
    returns (textLines: seq<string>)
    requires builder.Valid() && Rendered(calls0, builder.calls, before, tag, width)
    requires tag == LabelEntries(RoomLabel(room.roomType, room.roomNumber), width, f)
    modifies builder
    ensures builder.Valid()
    ensures Rendered(calls0, builder.calls, textLines, RoomEntries(room, currency, width, f), width)
  {
    textLines := before;
    ghost var entries := tag;
    if room.nights.Some? {
      var nights := f.integer(room.nights.value);
      textLines := WritePair(builder, "  Nights:", nights, width, textLines, calls0, entries);
      entries := entries + [Pair("  Nights:", nights)];
    }
    if room.perNight.Some? {
      var price := currency + " " + room.perNight.value;
      textLines := WritePair(builder, "  Per night:", price, width, textLines, calls0, entries);
      entries := entries + [Pair("  Per night:", price)];
    }
    if room.total.Some? {
      var total := currency + " " + room.total.value;
      textLines := WritePair(builder, "  Line total:", total, width, textLines, calls0, entries);
      entries := entries + [Pair("  Line total:", total)];
    }
    assert entries == RoomEntries(room, currency, width, f);
  }

  ghost function RoomsSoFar(b: Booking, i: nat, width: int, f: Formats): seq<Entry>
    requires i <= |b.rooms|
  {
    [Plain("Sobe:")] + RoomsEntries(b.rooms[..i], b.currency, width, f)
  }

  lemma RoomsOneMore(b: Booking, i: nat, width: int, f: Formats)
    requires i < |b.rooms|
    ensures RoomsSoFar(b, i + 1, width, f) == RoomsSoFar(b, i, width, f) + RoomEntries(b.rooms[i], b.currency, width, f)
  {
    assert b.rooms[..i + 1][..i] == b.rooms[..i];
  }

  /** The rooms of the stay. */
  method WriteStay(builder: ReceiptBuilder, b: Booking, width: int, f: Formats) returns (textLines: seq<string>)
    requires builder.Valid()
    modifies builder
    ensures builder.Valid()
    ensures Rendered(old(builder.calls), builder.calls, textLines, StayEntries(b, width, f), width)
  {
    textLines := [];
    if b.rooms != [] {
      builder.AddLine("Sobe:");
      textLines := ["Sobe:"];
      for i := 0 to |b.rooms|
        invariant builder.Valid()
        invariant Rendered(old(builder.calls), builder.calls, textLines, RoomsSoFar(b, i, width, f), width)
      {
        ghost var middle := builder.calls;
        var more := WriteRoom(builder, b.rooms[i], b.currency, width, f);
        RenderMore(old(builder.calls), middle, builder.calls, textLines, more,
          RoomsSoFar(b, i, width, f), RoomEntries(b.rooms[i], b.currency, width, f), width);
        RoomsOneMore(b, i, width, f);
        textLines := textLines + more;
      }
      assert b.rooms[..|b.rooms|] == b.rooms;
    } else if b.roomType.Some? && b.roomType.value != "" {
      builder.AddLine("Sobe:");
      textLines := ["Sobe:"];
      ghost var middle := builder.calls;
      var more := WriteLabel(builder, RoomLabel(b.roomType.value, b.roomNumber), width, f);
      RenderMore(old(builder.calls), middle, builder.calls, textLines, more,
        [Plain("Sobe:")], LabelEntries(RoomLabel(b.roomType.value, b.roomNumber), width, f), width);
      textLines := textLines + more;
    }
  }

  /** Guests and nights, on one line, as far as the settings show them. */
  method WriteSummary(builder: ReceiptBuilder, b: Booking, s: Settings, width: int, f: Formats)
    returns (textLines: seq<string>)
    requires builder.Valid()
    modifies builder
    ensures builder.Valid()
    ensures Rendered(old(builder.calls), builder.calls, textLines, SummaryEntries(b, s, f), width)
  {
    var guests, nights := f.integer(b.adults + b.children), f.integer(Nights(b));
    textLines := [];
    var line := None;
    if s.showGuests && s.showNights {
      line := Some("GOSTI: " + guests + "  |  " + ("NO\U{10C}I: " + nights));
    } else if s.showGuests {
      line := Some("GOSTI: " + guests);
    } else if s.showNights {
      line := Some("NO\U{10C}I: " + nights);
    }
    if line.Some? {
      builder.AddLine(line.value);
      textLines := [line.value];
    }
  }

  /** The price, and the average per night when there is a night. */
  method WriteTotal(builder: ReceiptBuilder, b: Booking, width: int, f: Formats) returns (textLines: seq<string>)
    requires builder.Valid()
    modifies builder
    ensures builder.Valid()
    ensures Rendered(old(builder.calls), builder.calls, textLines, TotalEntries(b, f), width)
  {
    textLines := [];
    if b.total.Some? {
      builder.AddKvLine("SKUPAJ:", b.currency + " " + b.total.value, width);
      textLines := ["SKUPAJ:" + " " + (b.currency + " " + b.total.value)];
      ghost var entries := [Pair("SKUPAJ:", b.currency + " " + b.total.value)];
      if Nights(b) > 0 {
        var average := b.currency + " " + f.average(b.total.value, Nights(b));
        RenderOne(old(builder.calls), builder.calls, textLines, entries, Pair("Povp./no\U{10D}:", average), width);
        entries := entries + [Pair("Povp./no\U{10D}:", average)];
        builder.AddKvLine("Povp./no\U{10D}:", average, width);
        textLines := textLines + ["Povp./no\U{10D}:" + " " + average];
      }
      RenderOne(old(builder.calls), builder.calls, textLines, entries, Rule, width);
      builder.AddDivider(width, '-');
      textLines := textLines + [Repeat('-', width)];
      assert entries + [Rule] == TotalEntries(b, f);
    }
  }

  /** The large banner of a cancelled reservation. */
  method CancelledBanner(builder: ReceiptBuilder, base: (int, int))
    requires builder.Valid()
    modifies builder
    ensures builder.Valid() && builder.calls == old(builder.calls) + BannerCalls(base)
  {
    builder.TextSize(3, 3);
    builder.AddBoldLine(BANNER);
    builder.TextSize(base.0, base.1);
  }

  /** Font, size and the centred title. */
  method WriteTitle(builder: ReceiptBuilder, b: Booking, s: Settings, font: Font, f: Formats) returns (header: string)
    requires builder.Valid() && builder.calls == []
    modifies builder
    ensures builder.Valid() && builder.calls == TitleCalls(b, s, font, f)
    ensures header == Header(b, s, f)
  {
    var base := BaseSize(s.fontSize);
    builder.SelectFont(font);
    builder.TextSize(base.0, base.1);
    header := if s.showChannel then f.upper(b.channel) + " REZERVACIJA" else "REZERVACIJA";
    if b.cancelled { header := header + " \U{2014} PREKLICANO"; }
    assert header == Header(b, s, f);
    builder.AlignTo(Center);
    builder.AddBoldLine(header);
    assert builder.calls == [SetFont(font), SetTextSize(base.0, base.1), SetAlign(Center), BoldLine(header)];
  }

  /** Everything up to the first divider. */
  method WriteOpening(builder: ReceiptBuilder, b: Booking, s: Settings, font: Font, width: int, f: Formats)
    returns (textLines: seq<string>)
    requires builder.Valid() && builder.calls == []
    modifies builder
    ensures builder.Valid() && builder.calls == Opening(b, s, font, width, f)
    ensures textLines == [Header(b, s, f)] + BannerTexts(b)
  {
    var header := WriteTitle(builder, b, s, font, f);
    if b.cancelled { CancelledBanner(builder, BaseSize(s.fontSize)); }
    builder.AddDivider(width, '-');
    builder.AlignTo(Left);
    textLines := [header];
    if b.cancelled { textLines := textLines + [BANNER]; }
  }

  /** From the last divider to the cut. */
  method WriteClosing(builder: ReceiptBuilder, b: Booking, s: Settings, width: int, stamp: string)
    returns (textLines: seq<string>)
    requires builder.Valid()
    modifies builder
    ensures builder.Valid() && builder.calls == old(builder.calls) + Closing(b, s, width, stamp)
    ensures textLines == BannerTexts(b)
  {
    textLines := [];
    builder.AddDivider(width, '-');
    if b.cancelled {
      builder.AlignTo(Center);
      CancelledBanner(builder, BaseSize(s.fontSize));
      builder.AlignTo(Left);
      textLines := [BANNER];
    }
    assert builder.calls == old(builder.calls) + ([Divider(width, '-')] + ClosingBanner(b, BaseSize(s.fontSize)));
    WriteStamp(builder, stamp);
  }

  method WriteStamp(builder: ReceiptBuilder, stamp: string)
    requires builder.Valid()
    modifies builder
    ensures builder.Valid() && builder.calls == old(builder.calls) + LastCalls(stamp)
  {
    builder.AddLine("Printed " + stamp);
    builder.FeedLines(3);
    builder.CutPaper(true);
  }

  /** The whole receipt: text and bytes built side by side, or the exception the source raises. */
  method BuildReservationReceipt(b: Booking, settings: Option<Settings>, width: int, codec: Codec, stamp: string,
                                 f: Formats)
    returns (r: Result<(string, seq<Byte>), Failure>)
    ensures var s := if settings.Some? then settings.value else Settings("font_a", "normal", false, true, true, true);
      if FontOf(s.font).None? then r == Err(UnknownFont)
      else if width <= 0 && HasLabel(b) then r == Err(InvalidWidth)
      else
        var calls := ReceiptCalls(b, s, FontOf(s.font).value, width, stamp, f);
        && r == Ok((Joined(ReceiptTexts(b, s, width, f)), Build(calls, codec, s.boldLabels)))
        && RightReceipt(r.value.0, r.value.1, b, s, width, stamp, f, codec)
    ensures var font := if settings.Some? then settings.value.font else "font_a";
      var unknown := font != "font_a" && font != "font_b";
      r.Err? <==> unknown || (width <= 0 && (b.rooms != [] || (b.roomType.Some? && b.roomType.value != "")))
  {
    var s := if settings.Some? then settings.value else DEFAULT_SETTINGS;
    var builder := new ReceiptBuilder(codec, s.boldLabels);
    if FontOf(s.font).None? { return Err(UnknownFont); }
    var opening := WriteOpening(builder, b, s, FontOf(s.font).value, width, f);
    if width <= 0 && HasLabel(b) { return Err(InvalidWidth); }
    var body := WriteBody(builder, b, s, width, f);
    var closing := WriteClosing(builder, b, s, width, stamp);
    r := Ok((Joined(opening + body + closing), builder.buf));
    ReceiptIsRight(b, s, width, stamp, f, codec);
  }

  /**
    The text has the lines it should have; and if no text holds an ESC, GS or LF byte, the
    paper of the bytes shows them, and the printer is left as chosen.
   */
  ghost predicate RightReceipt(text: string, bytes: seq<Byte>, b: Booking, s: Settings, width: int, stamp: string,
                               f: Formats, codec: Codec)
    requires FontOf(s.font).Some?
  {
    && text == Joined(ReceiptSays(b, s, width, f))
    && (Clean(ReceiptCalls(b, s, FontOf(s.font).value, width, stamp, f), codec) ==>
          PaperShowsText(text, bytes, b, s, width, stamp, f, codec) && SetAsChosen(Printed(bytes), s))
  }

  lemma ReceiptIsRight(b: Booking, s: Settings, width: int, stamp: string, f: Formats, codec: Codec)
    requires FontOf(s.font).Some?
    ensures RightReceipt(Joined(ReceiptTexts(b, s, width, f)),
                         Build(ReceiptCalls(b, s, FontOf(s.font).value, width, stamp, f), codec, s.boldLabels),
                         b, s, width, stamp, f, codec)
  {
    TextSays(b, s, width, f);
    if Clean(ReceiptCalls(b, s, FontOf(s.font).value, width, stamp, f), codec) {
      ReceiptShowsItsText(b, s, FontOf(s.font).value, width, stamp, f, codec);
      ReceiptEndsAsChosen(b, s, width, stamp, f, codec);
    }
  }

  lemma ReceiptEndsAsChosen(b: Booking, s: Settings, width: int, stamp: string, f: Formats, codec: Codec)
    requires FontOf(s.font).Some? && Clean(ReceiptCalls(b, s, FontOf(s.font).value, width, stamp, f), codec)
    ensures var calls := ReceiptCalls(b, s, FontOf(s.font).value, width, stamp, f);
      SetAsChosen(Printed(Build(calls, codec, s.boldLabels)), s)
  {
    var font := FontOf(s.font).value;
    ReceiptPrints(b, s, font, width, stamp, f, codec);
    BodyStateIsAsChosen(s, PaperOf(b, s, font, width, stamp, f, codec));
  }

  lemma BodyStateIsAsChosen(s: Settings, lines: seq<PaperLine>)
    requires FontOf(s.font).Some?
    ensures SetAsChosen(Some(BodyState(s, FontOf(s.font).value, lines, [PaperCut(|lines|, true)])), s)
  {
  }

  /**
    The printer is left with the chosen font and size, bold off, at the left, and one partial
    cut behind the last line.
   */
  predicate SetAsChosen(printed: Option<State>, s: Settings) {
    && printed.Some?
    && printed.value.font == (if s.font == "font_a" then FontA else FontB)
    && printed.value.w == printed.value.h
        == (if s.fontSize == "large" then 2 else if s.fontSize == "xlarge" then 3 else 1)
    && !printed.value.bold && printed.value.align == Left && printed.value.current == []
    && printed.value.cuts == [PaperCut(|printed.value.lines|, true)]
  }

  /** The check-in and check-out dates. */
  method WriteDates(builder: ReceiptBuilder, b: Booking, width: int, f: Formats) returns (textLines: seq<string>)
    requires builder.Valid()
    modifies builder
    ensures builder.Valid()
    ensures Rendered(old(builder.calls), builder.calls, textLines, DateEntries(b, f), width)
  {
    builder.AddKvLine("From:", f.iso(b.checkin), width);
    builder.AddKvLine("To:", f.iso(b.checkout), width);
    textLines := ["From:" + " " + f.iso(b.checkin)];
    textLines := textLines + ["To:" + " " + f.iso(b.checkout)];
    assert builder.calls == old(builder.calls) + CallsOf(DateEntries(b, f), width);
  }

  /** Guest, rooms and dates. */
  method WriteTop(builder: ReceiptBuilder, b: Booking, width: int, f: Formats) returns (textLines: seq<string>)
    requires builder.Valid()
    modifies builder
    ensures builder.Valid()
    ensures Rendered(old(builder.calls), builder.calls, textLines, TopEntries(b, width, f), width)
  {
    ghost var calls0 := builder.calls;
    RenderOne(calls0, calls0, [], [], Pair("Gost:", b.guest), width);
    builder.AddKvLine("Gost:", b.guest, width);
    textLines := ["Gost:" + " " + b.guest];
    ghost var middle := builder.calls;
    assert [] + [Pair("Gost:", b.guest)] == [Pair("Gost:", b.guest)];
    var stay := WriteStay(builder, b, width, f);
    RenderMore(calls0, middle, builder.calls, textLines, stay, [Pair("Gost:", b.guest)], StayEntries(b, width, f),
        width);
    textLines, middle := textLines + stay, builder.calls;
    var dates := WriteDates(builder, b, width, f);
    RenderMore(calls0, middle, builder.calls, textLines, dates, [Pair("Gost:", b.guest)] + StayEntries(b, width, f),
               DateEntries(b, f), width);
    textLines := textLines + dates;
  }

  /** Summary, total and the reservation number. */
  method WriteBottom(builder: ReceiptBuilder, b: Booking, s: Settings, width: int, f: Formats)
    returns (textLines: seq<string>)
    requires builder.Valid()
    modifies builder
    ensures builder.Valid()
    ensures Rendered(old(builder.calls), builder.calls, textLines, BottomEntries(b, s, f), width)
  {
    ghost var calls0 := builder.calls;
    textLines := WriteSummary(builder, b, s, width, f);
    ghost var entries := SummaryEntries(b, s, f);
    RenderOne(calls0, builder.calls, textLines, entries, Rule, width);
    builder.AddDivider(width, '-');
    textLines, entries := textLines + [Repeat('-', width)], entries + [Rule];
    ghost var middle := builder.calls;
    var total := WriteTotal(builder, b, width, f);
    RenderMore(calls0, middle, builder.calls, textLines, total, entries, TotalEntries(b, f), width);
    textLines, entries := textLines + total, entries + TotalEntries(b, f);
    RenderOne(calls0, builder.calls, textLines, entries, Pair("Reservation nr.:", Reference(b)), width);
    builder.AddKvLine("Reservation nr.:", Reference(b), width);
    textLines := textLines + ["Reservation nr.:" + " " + Reference(b)];
  }

  /** From the guest's name to the reservation number. */
  method WriteBody(builder: ReceiptBuilder, b: Booking, s: Settings, width: int, f: Formats)
    returns (textLines: seq<string>)
    requires builder.Valid()
    modifies builder
    ensures builder.Valid()
    ensures Rendered(old(builder.calls), builder.calls, textLines, Layout(b, s, width, f), width)
  {
    var top := WriteTop(builder, b, width, f);
    ghost var middle := builder.calls;
    var bottom := WriteBottom(builder, b, s, width, f);
    RenderMore(old(builder.calls), middle, builder.calls, top, bottom, TopEntries(b, width, f), BottomEntries(b, s, f),
        width);
    textLines := top + bottom;
  }

  // ---- What the text says -----------------------------------------------------

  /** A label wrapped to the paper, its further lines indented; wrapping to nothing leaves the label. */
  function LabelText(tag: string, width: int, f: Formats): seq<string> {
    var wrapped := f.wrap(tag, width);
    if wrapped == [] then [tag]
    else seq(|wrapped|, i requires 0 <= i < |wrapped| => if i == 0 then wrapped[0] else "  " + wrapped[i])
  }

  function RoomText(room: RoomEntry, currency: string, width: int, f: Formats): seq<string> {
    LabelText(room.roomType + (if room.roomNumber.Some? then " (Soba " + room.roomNumber.value + ")" else ""), width,
        f) +
    (if room.nights.Some? then ["  Nights: " + f.integer(room.nights.value)] else []) +
    (if room.perNight.Some? then ["  Per night: " + currency + " " + room.perNight.value] else []) +
    (if room.total.Some? then ["  Line total: " + currency + " " + room.total.value] else [])
  }

  function RoomsText(rooms: seq<RoomEntry>, currency: string, width: int, f: Formats): seq<string> {
    if rooms == [] then [] else RoomText(rooms[0], currency, width, f) + RoomsText(rooms[1..], currency, width, f)
  }

  /** The rooms of the stay: its lines in order, or its one room type. */
  function StayText(b: Booking, width: int, f: Formats): seq<string> {
    if b.rooms != [] then ["Sobe:"] + RoomsText(b.rooms, b.currency, width, f)
    else if b.roomType.Some? && b.roomType.value != "" then
      ["Sobe:"] + RoomText(RoomEntry(b.roomType.value, b.roomNumber, None, None, None), b.currency, width, f)
    else []
  }

  /** Guests and nights, as far as the settings show them. */
  function CountsText(b: Booking, s: Settings, nights: int, f: Formats): seq<string> {
    var guests := "GOSTI: " + f.integer(b.adults + b.children);
    if s.showGuests && s.showNights then [guests + "  |  NO\U{10C}I: " + f.integer(nights)]
    else if s.showGuests then [guests]
    else if s.showNights then ["NO\U{10C}I: " + f.integer(nights)]
    else []
  }

  /** With a total: the total, the average if there is a night, and a divider. */
  function TotalText(b: Booking, width: int, nights: int, f: Formats): seq<string> {
    if b.total.None? then []
    else
      ["SKUPAJ: " + b.currency + " " + b.total.value] +
      (if nights > 0 then ["Povp./no\U{10D}: " + b.currency + " " + f.average(b.total.value, nights)] else []) +
      [Repeat('-', width)]
  }

  function TitleText(b: Booking, s: Settings, f: Formats): string {
    (if s.showChannel then f.upper(b.channel) + " " else "") + "REZERVACIJA" +
    (if b.cancelled then " \U{2014} PREKLICANO" else "")
  }

  /** Guest, rooms, and the two dates. */
  function TopText(b: Booking, width: int, f: Formats): seq<string> {
    ["Gost: " + b.guest] + StayText(b, width, f) + ["From: " + f.iso(b.checkin)] + ["To: " + f.iso(b.checkout)]
  }

  /** Guests and nights, a divider, the total, and the reservation number. */
  function BottomText(b: Booking, s: Settings, width: int, f: Formats): seq<string> {
    var nights := if b.checkout > b.checkin then b.checkout - b.checkin else 0;
    CountsText(b, s, nights, f) + [Repeat('-', width)] + TotalText(b, width, nights, f) +
    ["Reservation nr.: " + (if b.externalRef.Some? && b.externalRef.value != "" then b.externalRef.value else "-")]
  }

  /** The lines of a receipt's text, written out. */
  function ReceiptSays(b: Booking, s: Settings, width: int, f: Formats): seq<string> {
    var banner := if b.cancelled then ["*** PREKLICANO ***"] else [];
    [TitleText(b, s, f)] + banner + (TopText(b, width, f) + BottomText(b, s, width, f)) + banner
  }

  lemma {:induction false} IndentedText(lines: seq<string>, width: int)
    ensures TextsOf(Indented(lines), width) == seq(|lines|, i requires 0 <= i < |lines| => "  " + lines[i])
  {
    if lines != [] {
      IndentedText(lines[1..], width);
      RenderingConcat([Plain("  " + lines[0])], Indented(lines[1..]), width);
    }
  }

  lemma LabelSays(tag: string, width: int, f: Formats)
    ensures TextsOf(LabelEntries(tag, width, f), width) == LabelText(tag, width, f)
  {
    var lines := Wrap(tag, width, f);
    IndentedText(lines[1..], width);
    RenderingConcat([Plain(lines[0])], Indented(lines[1..]), width);
    assert TextsOf([Plain(lines[0])], width) == [lines[0]];
  }

  lemma TwoTexts(a: seq<Entry>, b: seq<Entry>, x: seq<string>, y: seq<string>, width: int)
    requires TextsOf(a, width) == x && TextsOf(b, width) == y
    ensures TextsOf(a + b, width) == x + y
  {
    RenderingConcat(a, b, width);
  }

  lemma OneText(e: Entry, text: string, width: int)
    requires TextOf(e, width) == text
    ensures TextsOf([e], width) == [text]
  {
  }

  lemma AmountSays(key: string, currency: string, amount: Option<string>, width: int)
    ensures TextsOf(Amount(key, currency, amount), width)
         == if amount.Some? then [key + " " + currency + " " + amount.value] else []
  {
    if amount.Some? {
      assert key + " " + (currency + " " + amount.value) == key + " " + currency + " " + amount.value;
      OneText(Pair(key, currency + " " + amount.value), key + " " + currency + " " + amount.value, width);
    }
  }

  lemma RoomLabelSays(room: RoomEntry, width: int, f: Formats)
    ensures TextsOf(LabelEntries(RoomLabel(room.roomType, room.roomNumber), width, f), width)
         == LabelText(room.roomType + (if room.roomNumber.Some? then " (Soba " + room.roomNumber.value + ")" else ""),
             width, f)
  {
    var number := if room.roomNumber.Some? then " (Soba " + room.roomNumber.value + ")" else "";
    assert RoomLabel(room.roomType, room.roomNumber) == room.roomType + number;
    LabelSays(room.roomType + number, width, f);
  }

  lemma NightsSay(nights: Option<int>, width: int, f: Formats)
    ensures TextsOf(if nights.Some? then [Pair("  Nights:", f.integer(nights.value))] else [], width)
         == if nights.Some? then ["  Nights: " + f.integer(nights.value)] else []
  {
    assert "  Nights:" + " " == "  Nights: ";
  }

  lemma FourTexts(a: seq<Entry>, b: seq<Entry>, c: seq<Entry>, d: seq<Entry>, width: int)
    ensures TextsOf(a + b + c + d, width)
        == TextsOf(a, width) + TextsOf(b, width) + TextsOf(c, width) + TextsOf(d, width)
  {
    RenderingConcat(a, b, width);
    RenderingConcat(a + b, c, width);
    RenderingConcat(a + b + c, d, width);
  }

  lemma RoomSays(room: RoomEntry, currency: string, width: int, f: Formats)
    ensures TextsOf(RoomEntries(room, currency, width, f), width) == RoomText(room, currency, width, f)
  {
    assert "  Per night:" + " " == "  Per night: " && "  Line total:" + " " == "  Line total: ";
    RoomLabelSays(room, width, f);
    NightsSay(room.nights, width, f);
    AmountSays("  Per night:", currency, room.perNight, width);
    AmountSays("  Line total:", currency, room.total, width);
    FourTexts(LabelEntries(RoomLabel(room.roomType, room.roomNumber), width, f),
              if room.nights.Some? then [Pair("  Nights:", f.integer(room.nights.value))] else [],
              Amount("  Per night:", currency, room.perNight), Amount("  Line total:", currency, room.total), width);
  }

  lemma {:induction false} RoomsTextConcat(a: seq<RoomEntry>, b: seq<RoomEntry>, currency: string, width: int,
                                           f: Formats)
    ensures RoomsText(a + b, currency, width, f) == RoomsText(a, currency, width, f) + RoomsText(b, currency, width, f)
  {
    if a == [] {
      assert a + b == b;
    } else {
      assert (a + b)[1..] == a[1..] + b;
      RoomsTextConcat(a[1..], b, currency, width, f);
    }
  }

  lemma OneRoomText(room: RoomEntry, currency: string, width: int, f: Formats)
    ensures RoomsText([room], currency, width, f) == RoomText(room, currency, width, f)
  {
    var lines := RoomText(room, currency, width, f);
    assert [room][1..] == [] && lines + [] == lines;
  }

  lemma {:induction false} RoomsSay(rooms: seq<RoomEntry>, currency: string, width: int, f: Formats)
    ensures TextsOf(RoomsEntries(rooms, currency, width, f), width) == RoomsText(rooms, currency, width, f)
  {
    if rooms != [] {
      var front, last := rooms[..|rooms| - 1], rooms[|rooms| - 1];
      RoomsSay(front, currency, width, f);
      RoomSays(last, currency, width, f);
      RenderingConcat(RoomsEntries(front, currency, width, f), RoomEntries(last, currency, width, f), width);
      assert rooms == front + [last];
      RoomsTextConcat(front, [last], currency, width, f);
      OneRoomText(last, currency, width, f);
    }
  }

  lemma StaySays(b: Booking, width: int, f: Formats)
    ensures TextsOf(StayEntries(b, width, f), width) == StayText(b, width, f)
  {
    OneText(Plain("Sobe:"), "Sobe:", width);
    if b.rooms != [] {
      RoomsSay(b.rooms, b.currency, width, f);
      RenderingConcat([Plain("Sobe:")], RoomsEntries(b.rooms, b.currency, width, f), width);
    } else if b.roomType.Some? && b.roomType.value != "" {
      var room := RoomEntry(b.roomType.value, b.roomNumber, None, None, None);
      RoomSays(room, b.currency, width, f);
      assert RoomEntries(room, b.currency, width, f)
          == LabelEntries(RoomLabel(room.roomType, room.roomNumber), width, f);
      RenderingConcat([Plain("Sobe:")], RoomEntries(room, b.currency, width, f), width);
    }
  }

  lemma CountsSay(b: Booking, s: Settings, width: int, f: Formats)
    ensures TextsOf(SummaryEntries(b, s, f), width) == CountsText(b, s, Nights(b), f)
  {
    var guests, nights := "GOSTI: " + f.integer(b.adults + b.children), "NO\U{10C}I: " + f.integer(Nights(b));
    assert guests + "  |  " + nights == guests + "  |  NO\U{10C}I: " + f.integer(Nights(b));
  }

  lemma TotalSays(b: Booking, width: int, f: Formats)
    ensures TextsOf(TotalEntries(b, f), width) == TotalText(b, width, Nights(b), f)
  {
    if b.total.Some? {
      var total := Amount("SKUPAJ:", b.currency, b.total);
      var average := if Nights(b) > 0 then Amount("Povp./no\U{10D}:", b.currency,
          Some(f.average(b.total.value, Nights(b)))) else [];
      AmountSays("SKUPAJ:", b.currency, b.total, width);
      AmountSays("Povp./no\U{10D}:", b.currency, Some(f.average(b.total.value, Nights(b))), width);
      assert "SKUPAJ:" + " " == "SKUPAJ: " && "Povp./no\U{10D}:" + " " == "Povp./no\U{10D}: ";
      OneText(Rule, Repeat('-', width), width);
      RenderingConcat(total, average, width);
      RenderingConcat(total + average, [Rule], width);
      assert TotalEntries(b, f) == total + average + [Rule];
    }
  }

  /** The layout both outputs are rendered from says exactly this. */
  lemma TextSays(b: Booking, s: Settings, width: int, f: Formats)
    ensures ReceiptTexts(b, s, width, f) == ReceiptSays(b, s, width, f)
  {
    TopSays(b, width, f);
    BottomSays(b, s, width, f);
    RenderingConcat(TopEntries(b, width, f), BottomEntries(b, s, f), width);
    TitleSays(b, s, f);
  }

  lemma TitleSays(b: Booking, s: Settings, f: Formats)
    ensures Header(b, s, f) == TitleText(b, s, f)
  {
    assert " REZERVACIJA" == " " + "REZERVACIJA";
  }

  lemma TopSays(b: Booking, width: int, f: Formats)
    ensures TextsOf(TopEntries(b, width, f), width) == TopText(b, width, f)
  {
    var guest, stay := [Pair("Gost:", b.guest)], StayEntries(b, width, f);
    assert "Gost:" + " " == "Gost: " && "From:" + " " == "From: " && "To:" + " " == "To: ";
    OneText(Pair("Gost:", b.guest), "Gost: " + b.guest, width);
    StaySays(b, width, f);
    RenderingConcat(guest, stay, width);
    RenderingConcat(guest + stay, DateEntries(b, f), width);
    assert TextsOf(DateEntries(b, f), width) == ["From: " + f.iso(b.checkin)] + ["To: " + f.iso(b.checkout)];
  }

  lemma BottomSays(b: Booking, s: Settings, width: int, f: Formats)
    ensures TextsOf(BottomEntries(b, s, f), width) == BottomText(b, s, width, f)
  {
    var counts, total, ref := SummaryEntries(b, s, f), TotalEntries(b, f), Pair("Reservation nr.:", Reference(b));
    assert "Reservation nr.:" + " " == "Reservation nr.: ";
    CountsSay(b, s, width, f);
    TotalSays(b, width, f);
    OneText(Rule, Repeat('-', width), width);
    OneText(ref, "Reservation nr.: " + Reference(b), width);
    RenderingConcat(counts, [Rule], width);
    RenderingConcat(counts + [Rule], total, width);
    RenderingConcat(counts + [Rule] + total, [ref], width);
  }

  // ---- What the bytes print -------------------------------------------------

  function EntryLine(p: State, e: Entry, width: int, codec: Codec, boldLabels: bool): PaperLine {
    LinesOf(p, CallOf(e, width), codec, boldLabels)[0]
  }

  function EntryLines(p: State, entries: seq<Entry>, width: int, codec: Codec,
                      boldLabels: bool): (lines: seq<PaperLine>)
    ensures |lines| == |entries|
    ensures forall i :: 0 <= i < |entries| ==> lines[i] == EntryLine(p, entries[i], width, codec, boldLabels)
  {
    seq(|entries|, i requires 0 <= i < |entries| => EntryLine(p, entries[i], width, codec, boldLabels))
  }

  lemma EntryPrints(p: State, e: Entry, width: int, codec: Codec, boldLabels: bool)
    ensures AfterCall(p, CallOf(e, width), codec, boldLabels)
         == Added(p, [EntryLine(p, e, width, codec, boldLabels)])
  {
  }

  function Added(p: State, lines: seq<PaperLine>): State { p.(lines := p.lines + lines) }

  lemma AddedTwice(p: State, a: seq<PaperLine>, b: seq<PaperLine>)
    ensures Added(Added(p, a), b) == Added(p, a + b)
  {
    assert p.lines + a + b == p.lines + (a + b);
  }

  lemma LinesStep(p: State, entries: seq<Entry>, width: int, codec: Codec, boldLabels: bool)
    requires entries != []
    ensures EntryLines(p, entries, width, codec, boldLabels)
         == [EntryLine(p, entries[0], width, codec, boldLabels)] + EntryLines(p, entries[1..], width, codec, boldLabels)
  {
    LineByLine(entries, EntryLines(p, entries, width, codec, boldLabels),
        EntryLines(p, entries[1..], width, codec, boldLabels),
               e => EntryLine(p, e, width, codec, boldLabels));
  }

  lemma LineByLine(entries: seq<Entry>, lines: seq<PaperLine>, rest: seq<PaperLine>, line: Entry -> PaperLine)
    requires entries != [] && |lines| == |entries| == |rest| + 1
    requires forall i :: 0 <= i < |lines| ==> lines[i] == line(entries[i])
    requires forall i :: 0 <= i < |rest| ==> rest[i] == line(entries[1..][i])
    ensures lines == [line(entries[0])] + rest
  {
  }

  lemma CallsStep(entries: seq<Entry>, width: int)
    requires entries != []
    ensures CallsOf(entries, width) == [CallOf(entries[0], width)] + CallsOf(entries[1..], width)
  {
  }

  /** Lines already printed do not change how the next ones look. */
  lemma SameLook(p: State, lines: seq<PaperLine>, entries: seq<Entry>, width: int, codec: Codec, boldLabels: bool)
    ensures EntryLines(p.(lines := lines), entries, width, codec, boldLabels)
        == EntryLines(p, entries, width, codec, boldLabels)
  {
    var q := p.(lines := lines);
    forall i | 0 <= i < |entries|
      ensures EntryLine(q, entries[i], width, codec, boldLabels) == EntryLine(p, entries[i], width, codec, boldLabels)
    {
      match entries[i] case Plain(_) => case Pair(_, _) => case Rule =>
    }
  }

  lemma {:induction false} BodyPrints(p: State, entries: seq<Entry>, width: int, codec: Codec, boldLabels: bool)
    ensures AfterCalls(p, CallsOf(entries, width), codec, boldLabels)
         == Added(p, EntryLines(p, entries, width, codec, boldLabels))
    decreases |entries|
  {
    if entries == [] {
      assert EntryLines(p, entries, width, codec, boldLabels) == [] && CallsOf(entries, width) == [];
      assert p.lines + [] == p.lines;
    } else {
      var first := [EntryLine(p, entries[0], width, codec, boldLabels)];
      LinesStep(p, entries, width, codec, boldLabels);
      CallsStep(entries, width);
      EntryPrints(p, entries[0], width, codec, boldLabels);
      FirstCall(p, CallOf(entries[0], width), CallsOf(entries[1..], width), codec, boldLabels);
      BodyPrints(Added(p, first), entries[1..], width, codec, boldLabels);
      SameLook(p, p.lines + first, entries[1..], width, codec, boldLabels);
      AddedTwice(p, first, EntryLines(p, entries[1..], width, codec, boldLabels));
    }
  }

  function TextLine(text: string, codec: Codec, bold: bool, size: (int, int), align: Align): PaperLine {
    PaperLine(Cells(text, codec, bold, size.0, size.1), align)
  }

  function BannerLines(b: Booking, codec: Codec): seq<PaperLine> {
    if b.cancelled then [TextLine(BANNER, codec, true, (3, 3), Center)] else []
  }

  /** The printer while it prints the body: bold off, base size, left. */
  function BodyState(s: Settings, font: Font, lines: seq<PaperLine>, cuts: seq<PaperCut>): State {
    var base := BaseSize(s.fontSize);
    State(false, base.0, base.1, Left, font, [], lines, cuts)
  }

  function HeadLines(b: Booking, s: Settings, width: int, f: Formats, codec: Codec): seq<PaperLine> {
    var base := BaseSize(s.fontSize);
    [TextLine(Header(b, s, f), codec, true, base, Center)] + BannerLines(b, codec) +
    [TextLine(Repeat('-', width), codec, false, base, Center)]
  }

  function TailLines(b: Booking, s: Settings, width: int, stamp: string, codec: Codec): seq<PaperLine> {
    var base := BaseSize(s.fontSize);
    [TextLine(Repeat('-', width), codec, false, base, Left)] + BannerLines(b, codec) +
    [TextLine("Printed " + stamp, codec, false, base, Left)] + Blank(3, Left)
  }

  function PaperOf(b: Booking, s: Settings, font: Font, width: int, stamp: string, f: Formats,
                   codec: Codec): seq<PaperLine> {
    HeadLines(b, s, width, f, codec) +
    EntryLines(BodyState(s, font, [], []), Layout(b, s, width, f), width, codec, s.boldLabels) +
    TailLines(b, s, width, stamp, codec)
  }

  lemma BannerPrints(p: State, base: (int, int), codec: Codec, bl: bool)
    requires p.w == base.0 && p.h == base.1
    ensures AfterCalls(p, BannerCalls(base), codec, bl)
         == p.(lines := p.lines + [TextLine(BANNER, codec, true, (3, 3), p.align)])
  {
    var c := BannerCalls(base);
    var p1 := AfterCall(p, c[0], codec, bl);
    var p2 := AfterCall(p1, c[1], codec, bl);
    assert c[1..][0] == c[1] && c[1..][1..] == [c[2]] && [c[2]][1..] == [];
    assert AfterCalls(p, c, codec, bl) == AfterCalls(p1, c[1..], codec, bl) == AfterCalls(p2, [c[2]], codec, bl);
    OneCall(p2, c[2], codec, bl);
  }

  lemma OneCall(p: State, c: Call, codec: Codec, bl: bool)
    ensures AfterCalls(p, [c], codec, bl) == AfterCall(p, c, codec, bl)
  {
    assert [c][1..] == [];
  }

  lemma FirstCall(p: State, c: Call, rest: seq<Call>, codec: Codec, bl: bool)
    ensures AfterCalls(p, [c] + rest, codec, bl) == AfterCalls(AfterCall(p, c, codec, bl), rest, codec, bl)
  {
    assert ([c] + rest)[1..] == rest;
  }

  lemma OpeningPrints(b: Booking, s: Settings, font: Font, width: int, f: Formats, codec: Codec)
    ensures AfterCalls(POWER_ON, Opening(b, s, font, width, f), codec, s.boldLabels)
         == BodyState(s, font, HeadLines(b, s, width, f, codec), [])
  {
    var bl, base := s.boldLabels, BaseSize(s.fontSize);
    var header := TextLine(Header(b, s, f), codec, true, base, Center);
    var banner := if b.cancelled then BannerCalls(base) else [];
    var closing := [Divider(width, '-'), SetAlign(Left)];
    var first := [SetFont(font), SetTextSize(base.0, base.1), SetAlign(Center), BoldLine(Header(b, s, f))];
    var p := State(false, base.0, base.1, Center, font, [], [header], []);
    assert AfterCalls(POWER_ON, first, codec, bl) == p by {
      assert first == [SetFont(font)]
          + ([SetTextSize(base.0, base.1)] + ([SetAlign(Center)] + [BoldLine(Header(b, s, f))]));
      FirstCall(POWER_ON, SetFont(font), first[1..], codec, bl);
      var p1 := AfterCall(POWER_ON, SetFont(font), codec, bl);
      FirstCall(p1, SetTextSize(base.0, base.1), first[1..][1..], codec, bl);
      var p2 := AfterCall(p1, SetTextSize(base.0, base.1), codec, bl);
      FirstCall(p2, SetAlign(Center), [BoldLine(Header(b, s, f))], codec, bl);
      OneCall(AfterCall(p2, SetAlign(Center), codec, bl), BoldLine(Header(b, s, f)), codec, bl);
    }
    var q := p.(lines := p.lines + BannerLines(b, codec));
    if b.cancelled { BannerPrints(p, base, codec, bl); }
    assert p.lines + [] == p.lines;
    AfterConcat(POWER_ON, first, banner, codec, bl);
    AfterConcat(POWER_ON, first + banner, closing, codec, bl);
    FirstCall(q, Divider(width, '-'), [SetAlign(Left)], codec, bl);
    OneCall(AfterCall(q, Divider(width, '-'), codec, bl), SetAlign(Left), codec, bl);
    assert closing == [Divider(width, '-')] + [SetAlign(Left)];
  }

  lemma ClosingBannerPrints(p: State, b: Booking, base: (int, int), codec: Codec, bl: bool)
    requires p.w == base.0 && p.h == base.1 && p.align == Left
    ensures AfterCalls(p, ClosingBanner(b, base), codec, bl) == Added(p, BannerLines(b, codec))
  {
    if b.cancelled {
      var center := p.(align := Center);
      FirstCall(p, SetAlign(Center), BannerCalls(base) + [SetAlign(Left)], codec, bl);
      assert ClosingBanner(b, base) == [SetAlign(Center)] + (BannerCalls(base) + [SetAlign(Left)]);
      AfterConcat(center, BannerCalls(base), [SetAlign(Left)], codec, bl);
      BannerPrints(center, base, codec, bl);
      OneCall(Added(center, BannerLines(b, codec)), SetAlign(Left), codec, bl);
    } else {
      assert p.lines + BannerLines(b, codec) == p.lines;
    }
  }

  function LastLines(p: State, stamp: string, codec: Codec): seq<PaperLine> {
    [TextLine("Printed " + stamp, codec, false, (p.w, p.h), p.align)] + Blank(3, p.align)
  }

  /** Cut right here. */
  function CutNow(p: State): State { p.(cuts := p.cuts + [PaperCut(|p.lines|, true)]) }

  lemma LastCallsPrint(p: State, stamp: string, codec: Codec, bl: bool)
    ensures AfterCalls(p, LastCalls(stamp), codec, bl) == CutNow(Added(p, LastLines(p, stamp, codec)))
  {
    var last := WriteLine("Printed " + stamp);
    var q := AfterCall(p, last, codec, bl);
    assert LastCalls(stamp) == [last] + ([Feed(3)] + [Cut(true)]);
    FirstCall(p, last, [Feed(3)] + [Cut(true)], codec, bl);
    FirstCall(q, Feed(3), [Cut(true)], codec, bl);
    OneCall(AfterCall(q, Feed(3), codec, bl), Cut(true), codec, bl);
    AddedTwice(p, [TextLine("Printed " + stamp, codec, false, (p.w, p.h), p.align)], Blank(3, p.align));
  }

  /** The last divider and, if cancelled, the banner below it. */
  function LowerLines(b: Booking, s: Settings, width: int, codec: Codec): seq<PaperLine> {
    [TextLine(Repeat('-', width), codec, false, BaseSize(s.fontSize), Left)] + BannerLines(b, codec)
  }

  lemma LowerPrints(p: State, b: Booking, s: Settings, width: int, codec: Codec)
    requires !p.bold && (p.w, p.h) == BaseSize(s.fontSize) && p.align == Left
    ensures AfterCalls(p, [Divider(width, '-')] + ClosingBanner(b, BaseSize(s.fontSize)), codec, s.boldLabels)
         == Added(p, LowerLines(b, s, width, codec))
  {
    var rule := [TextLine(Repeat('-', width), codec, false, BaseSize(s.fontSize), Left)];
    FirstCall(p, Divider(width, '-'), ClosingBanner(b, BaseSize(s.fontSize)), codec, s.boldLabels);
    assert AfterCall(p, Divider(width, '-'), codec, s.boldLabels) == Added(p, rule);
    ClosingBannerPrints(Added(p, rule), b, BaseSize(s.fontSize), codec, s.boldLabels);
    AddedTwice(p, rule, BannerLines(b, codec));
  }

  lemma ClosingPrints(p: State, b: Booking, s: Settings, width: int, stamp: string, codec: Codec)
    requires !p.bold && (p.w, p.h) == BaseSize(s.fontSize) && p.align == Left
    ensures AfterCalls(p, Closing(b, s, width, stamp), codec, s.boldLabels)
         == CutNow(Added(p, TailLines(b, s, width, stamp, codec)))
  {
    var lower := LowerLines(b, s, width, codec);
    var calls := [Divider(width, '-')] + ClosingBanner(b, BaseSize(s.fontSize));
    AfterConcat(p, calls, LastCalls(stamp), codec, s.boldLabels);
    LowerPrints(p, b, s, width, codec);
    LastCallsPrint(Added(p, lower), stamp, codec, s.boldLabels);
    AddedTwice(p, lower, LastLines(p, stamp, codec));
    TailIsLowerAndLast(p, b, s, width, stamp, codec);
  }

  lemma TailIsLowerAndLast(p: State, b: Booking, s: Settings, width: int, stamp: string, codec: Codec)
    requires (p.w, p.h) == BaseSize(s.fontSize) && p.align == Left
    ensures LowerLines(b, s, width, codec) + LastLines(p, stamp, codec) == TailLines(b, s, width, stamp, codec)
  {
  }

  lemma CallsPrint(b: Booking, s: Settings, font: Font, width: int, stamp: string, f: Formats, codec: Codec)
    ensures AfterCalls(POWER_ON, ReceiptCalls(b, s, font, width, stamp, f), codec, s.boldLabels)
         == CutNow(BodyState(s, font, PaperOf(b, s, font, width, stamp, f, codec), []))
  {
    var bl, head, tail := s.boldLabels, HeadLines(b, s, width, f, codec), TailLines(b, s, width, stamp, codec);
    var layout := Layout(b, s, width, f);
    var opening, body, closing := Opening(b, s, font, width, f), CallsOf(layout, width), Closing(b, s, width, stamp);
    var p := BodyState(s, font, head, []);
    var printed := EntryLines(p, layout, width, codec, bl);
    OpeningPrints(b, s, font, width, f, codec);
    AfterConcat(POWER_ON, opening, body, codec, bl);
    BodyPrints(p, layout, width, codec, bl);
    SameLook(p, [], layout, width, codec, bl);
    AfterConcat(POWER_ON, opening + body, closing, codec, bl);
    ClosingPrints(Added(p, printed), b, s, width, stamp, codec);
    AddedTwice(p, printed, tail);
    assert head + (printed + tail) == head + printed + tail;
  }

  lemma InRangeBoth(a: seq<Call>, b: seq<Call>)
    requires InRange(a) && InRange(b)
    ensures InRange(a + b)
  {
  }

  lemma BodyInRange(layout: seq<Entry>, width: int)
    ensures InRange(CallsOf(layout, width))
  {
    forall i | 0 <= i < |layout| ensures SizeInRange(CallsOf(layout, width)[i]) {
      assert CallsOf(layout, width)[i] == CallOf(layout[i], width);
    }
  }

  lemma ClosingInRange(b: Booking, s: Settings, width: int, stamp: string)
    ensures InRange(Closing(b, s, width, stamp))
  {
    var banner := ClosingBanner(b, BaseSize(s.fontSize));
    if b.cancelled {
      InRangeBoth([SetAlign(Center)], BannerCalls(BaseSize(s.fontSize)));
      InRangeBoth([SetAlign(Center)] + BannerCalls(BaseSize(s.fontSize)), [SetAlign(Left)]);
    }
    InRangeBoth([Divider(width, '-')], banner);
    InRangeBoth([Divider(width, '-')] + banner, LastCalls(stamp));
  }

  lemma OpeningInRange(b: Booking, s: Settings, font: Font, width: int, f: Formats)
    ensures InRange(Opening(b, s, font, width, f))
  {
    var banner := if b.cancelled then BannerCalls(BaseSize(s.fontSize)) else [];
    InRangeBoth(TitleCalls(b, s, font, f), banner);
    InRangeBoth(TitleCalls(b, s, font, f) + banner, [Divider(width, '-'), SetAlign(Left)]);
  }

  lemma ReceiptSizesInRange(b: Booking, s: Settings, font: Font, width: int, stamp: string, f: Formats)
    ensures InRange(ReceiptCalls(b, s, font, width, stamp, f))
  {
    var opening, body := Opening(b, s, font, width, f), CallsOf(Layout(b, s, width, f), width);
    OpeningInRange(b, s, font, width, f);
    BodyInRange(Layout(b, s, width, f), width);
    ClosingInRange(b, s, width, stamp);
    InRangeBoth(opening, body);
    InRangeBoth(opening + body, Closing(b, s, width, stamp));
  }

  /**
    Sent to a printer, the receipt's bytes print exactly these lines and leave the
    printer with bold off, base size, left alignment, and the paper cut last, if
    and only if no text holds an ESC, GS or LF byte.
   */
  lemma ReceiptPrints(b: Booking, s: Settings, font: Font, width: int, stamp: string, f: Formats, codec: Codec)
    ensures var lines := PaperOf(b, s, font, width, stamp, f, codec);
      Printed(Build(ReceiptCalls(b, s, font, width, stamp, f), codec, s.boldLabels))
        == Some(BodyState(s, font, lines, [PaperCut(|lines|, true)]))
      <==> Clean(ReceiptCalls(b, s, font, width, stamp, f), codec)
  {
    var lines := PaperOf(b, s, font, width, stamp, f, codec);
    ReceiptSizesInRange(b, s, font, width, stamp, f);
    PaperOfBytes(ReceiptCalls(b, s, font, width, stamp, f), codec, s.boldLabels);
    CallsPrint(b, s, font, width, stamp, f, codec);
    assert [] + [PaperCut(|lines|, true)] == [PaperCut(|lines|, true)];
  }

  /** Line feeds in a guest's name or a label add lines, but the printer is left the same way: reset, and cut last. */
  lemma ReceiptLeavesPrinterReset(b: Booking, s: Settings, font: Font, width: int, stamp: string, f: Formats,
                                  codec: Codec)
    requires Safe(ReceiptCalls(b, s, font, width, stamp, f), codec)
    ensures var printed := Printed(Build(ReceiptCalls(b, s, font, width, stamp, f), codec, s.boldLabels));
      && printed.Some?
      && printed.value == BodyState(s, font, printed.value.lines, [PaperCut(|printed.value.lines|, true)])
  {
    var calls := ReceiptCalls(b, s, font, width, stamp, f);
    ReceiptSizesInRange(b, s, font, width, stamp, f);
    FinalState(calls, codec, s.boldLabels);
    CallsPrint(b, s, font, width, stamp, f, codec);
    ResetAfter(Printed(Build(calls, codec, s.boldLabels)).value, s, font, PaperOf(b, s, font, width, stamp, f, codec));
  }

  lemma ResetAfter(p: State, s: Settings, font: Font, lines: seq<PaperLine>)
    requires Alike(p, CutNow(BodyState(s, font, lines, [])))
    ensures p == BodyState(s, font, p.lines, [PaperCut(|p.lines|, true)])
  {
    var q := CutNow(BodyState(s, font, lines, []));
    assert q.cuts == [PaperCut(|lines|, true)] && JustCut(q);
    assert p.cuts == [p.cuts[0]] && p.cuts[0] == PaperCut(|p.lines|, true);
  }

  // ---- The two outputs agree ------------------------------------------------

  function BytesOf(line: PaperLine): (bytes: seq<Byte>)
    ensures |bytes| == |line.cells|
    ensures forall i :: 0 <= i < |bytes| ==> bytes[i] == line.cells[i].b
  {
    seq(|line.cells|, i requires 0 <= i < |line.cells| => line.cells[i].b)
  }

  /** The text with the blank at position k made n blanks wide. */
  function Widened(text: string, k: nat, n: nat): string
    requires k < |text|
  {
    text[..k] + Repeat(' ', n) + text[k + 1..]
  }

  /** The text line of an entry; the blank after a label is widened until the line has `width` characters. */
  function Filled(e: Entry, width: int): string {
    var text := TextOf(e, width);
    if e.Pair? && |text| < width then Widened(text, |e.key|, width - |text| + 1) else text
  }

  ghost predicate ShowsAll(lines: seq<PaperLine>, entries: seq<Entry>, width: int, codec: Codec) {
    |lines| == |entries| &&
    forall i :: 0 <= i < |lines| ==> ShowsEntry(lines[i], entries[i], width, codec)
  }

  predicate ShowsEntry(line: PaperLine, e: Entry, width: int, codec: Codec) {
    BytesOf(line) == Encode(Filled(e, width), codec)
  }

  lemma ShowsBoth(a: seq<PaperLine>, b: seq<PaperLine>, c: seq<Entry>, d: seq<Entry>, width: int, codec: Codec)
    requires ShowsAll(a, c, width, codec) && ShowsAll(b, d, width, codec)
    ensures ShowsAll(a + b, c + d, width, codec)
  {
    forall i | 0 <= i < |a + b| ensures ShowsEntry((a + b)[i], (c + d)[i], width, codec) {
      if i < |a| {
        assert (a + b)[i] == a[i] && (c + d)[i] == c[i];
      } else {
        assert (a + b)[i] == b[i - |a|] && (c + d)[i] == d[i - |a|];
      }
    }
  }

  lemma EntryShows(p: State, e: Entry, width: int, codec: Codec, boldLabels: bool)
    ensures ShowsEntry(EntryLine(p, e, width, codec, boldLabels), e, width, codec)
  {
    match e
    case Plain(text) => TextShows(text, codec, false, (p.w, p.h), p.align);
    case Rule => TextShows(Repeat('-', width), codec, false, (p.w, p.h), p.align);
    case Pair(key, value) =>
      FilledPair(key, value, width);
      PairShows(p, key, value, width, codec, boldLabels);
  }

  lemma FilledPair(key: string, value: string, width: int)
    ensures Filled(Pair(key, value), width) == key + Repeat(' ', Gap(key, value, width)) + value
  {
    var text := key + " " + value;
    assert text[..|key|] == key && text[|key| + 1..] == value;
    assert Repeat(' ', 1) == " ";
  }

  lemma PairShows(p: State, key: string, value: string, width: int, codec: Codec, boldLabels: bool)
    ensures BytesOf(EntryLine(p, Pair(key, value), width, codec, boldLabels))
         == Encode(key + Repeat(' ', Gap(key, value, width)) + value, codec)
  {
  }

  function BannerEntries(b: Booking): seq<Entry> { if b.cancelled then [Plain(BANNER)] else [] }

  /** The lines of the text summary: title, banner, layout, banner. */
  function SummaryLines(b: Booking, s: Settings, width: int, f: Formats): seq<Entry> {
    [Plain(Header(b, s, f))] + BannerEntries(b) + Layout(b, s, width, f) + BannerEntries(b)
  }

  lemma SummaryIsText(b: Booking, s: Settings, width: int, f: Formats)
    ensures ReceiptTexts(b, s, width, f) == TextsOf(SummaryLines(b, s, width, f), width)
  {
    var head, layout, tail := [Plain(Header(b, s, f))] + BannerEntries(b), Layout(b, s, width, f), BannerEntries(b);
    RenderingConcat(head, layout, width);
    RenderingConcat(head + layout, tail, width);
    assert TextsOf(head, width) == [Header(b, s, f)] + BannerTexts(b);
    assert TextsOf(tail, width) == BannerTexts(b);
  }

  /** A paper with h title lines, a divider, n body lines, a divider, h - 1 banner lines, the stamp and three blanks. */
  ghost predicate SameContent(paper: seq<PaperLine>, entries: seq<Entry>, h: nat, n: nat, width: int, stamp: string,
                              codec: Codec)
  {
    && 1 <= h && |paper| == |entries| + 6 == 2 * h + n + 5
    && ShowsAll(paper[..h] + paper[h + 1..h + n + 1] + paper[h + n + 2..|paper| - 4], entries, width, codec)
    && BytesOf(paper[h]) == BytesOf(paper[h + n + 1]) == Encode(Repeat('-', width), codec)
    && BytesOf(paper[|paper| - 4]) == Encode("Printed " + stamp, codec)
    && (forall i :: |paper| - 3 <= i < |paper| ==> paper[i].cells == [])
  }

  /**
    The paper is the text summary, line for line and in order, with a divider before
    and after the body and the stamp, three blank lines and the cut at the end added.
   */
  lemma OutputsAgree(b: Booking, s: Settings, font: Font, width: int, stamp: string, f: Formats, codec: Codec)
    ensures SameContent(PaperOf(b, s, font, width, stamp, f, codec), SummaryLines(b, s, width, f),
                        if b.cancelled then 2 else 1, |Layout(b, s, width, f)|, width, stamp, codec)
  {
    var h, layout := if b.cancelled then 2 else 1, Layout(b, s, width, f);
    var head, tail := HeadLines(b, s, width, f, codec), TailLines(b, s, width, stamp, codec);
    var body := EntryLines(BodyState(s, font, [], []), layout, width, codec, s.boldLabels);
    HeadShows(b, s, width, f, codec);
    TailShows(b, s, width, stamp, codec);
    BodyShows(BodyState(s, font, [], []), layout, width, codec, s.boldLabels);
    Assemble(head, body, tail, [Plain(Header(b, s, f))] + BannerEntries(b), layout, BannerEntries(b), h, width, stamp,
        codec);
  }

  /** From the two results alone: the paper of the bytes shows the lines of the text. */
  ghost predicate PaperShowsText(text: string, bytes: seq<Byte>, b: Booking, s: Settings, width: int, stamp: string,
                                 f: Formats, codec: Codec)
  {
    && text == Joined(TextsOf(SummaryLines(b, s, width, f), width))
    && Printed(bytes).Some?
    && SameContent(Printed(bytes).value.lines, SummaryLines(b, s, width, f), if b.cancelled then 2 else 1,
                   |Layout(b, s, width, f)|, width, stamp, codec)
  }

  lemma ReceiptShowsItsText(b: Booking, s: Settings, font: Font, width: int, stamp: string, f: Formats, codec: Codec)
    requires Clean(ReceiptCalls(b, s, font, width, stamp, f), codec)
    ensures PaperShowsText(Joined(ReceiptTexts(b, s, width, f)),
                           Build(ReceiptCalls(b, s, font, width, stamp, f), codec, s.boldLabels),
                           b, s, width, stamp, f, codec)
  {
    SummaryIsText(b, s, width, f);
    ReceiptPrints(b, s, font, width, stamp, f, codec);
    OutputsAgree(b, s, font, width, stamp, f, codec);
  }

  lemma Assemble(head: seq<PaperLine>, body: seq<PaperLine>, tail: seq<PaperLine>,
                 first: seq<Entry>, middle: seq<Entry>, last: seq<Entry>,
                 h: nat, width: int, stamp: string, codec: Codec)
    requires 1 <= h && |head| == h + 1 && |tail| == h + 4
    requires ShowsAll(head[..h], first, width, codec) && BytesOf(head[h]) == Encode(Repeat('-', width), codec)
    requires ShowsAll(body, middle, width, codec)
    requires BytesOf(tail[0]) == Encode(Repeat('-', width), codec) && ShowsAll(tail[1..h], last, width, codec)
    requires BytesOf(tail[h]) == Encode("Printed " + stamp, codec) && forall i :: h < i < h + 4 ==> tail[i].cells == []
    ensures SameContent(head + body + tail, first + middle + last, h, |body|, width, stamp, codec)
  {
    Slices(head, body, tail, h);
    ShowsBoth(head[..h], body, first, middle, width, codec);
    ShowsBoth(head[..h] + body, tail[1..h], first + middle, last, width, codec);
  }

  lemma Slices(head: seq<PaperLine>, body: seq<PaperLine>, tail: seq<PaperLine>, h: nat)
    requires 1 <= h && |head| == h + 1 && |tail| == h + 4
    ensures var n, paper := |body|, head + body + tail;
      && |paper| == 2 * h + n + 5
      && paper[..h] + paper[h + 1..h + n + 1] + paper[h + n + 2..|paper| - 4] == head[..h] + body + tail[1..h]
      && paper[h] == head[h] && paper[h + n + 1] == tail[0]
      && (forall i :: |paper| - 4 <= i < |paper| ==> paper[i] == tail[i - n - h - 1])
  {
    var n, paper := |body|, head + body + tail;
    assert paper[..h] == head[..h];
    assert paper[h + 1..h + n + 1] == body;
    assert paper[h + n + 2..|paper| - 4] == tail[1..h];
  }

  lemma HeadShows(b: Booking, s: Settings, width: int, f: Formats, codec: Codec)
    ensures var head, h := HeadLines(b, s, width, f, codec), if b.cancelled then 2 else 1;
      && |head| == h + 1
      && ShowsAll(head[..h], [Plain(Header(b, s, f))] + BannerEntries(b), width, codec)
      && BytesOf(head[h]) == Encode(Repeat('-', width), codec)
  {
    TextShows(Header(b, s, f), codec, true, BaseSize(s.fontSize), Center);
    TextShows(BANNER, codec, true, (3, 3), Center);
    TextShows(Repeat('-', width), codec, false, BaseSize(s.fontSize), Center);
  }

  lemma TailShows(b: Booking, s: Settings, width: int, stamp: string, codec: Codec)
    ensures var tail, h := TailLines(b, s, width, stamp, codec), if b.cancelled then 2 else 1;
      && |tail| == h + 4
      && ShowsAll(tail[1..h], BannerEntries(b), width, codec)
      && BytesOf(tail[0]) == Encode(Repeat('-', width), codec)
      && BytesOf(tail[h]) == Encode("Printed " + stamp, codec)
      && (forall i :: h < i < h + 4 ==> tail[i].cells == [])
  {
    TextShows(BANNER, codec, true, (3, 3), Center);
    TextShows(Repeat('-', width), codec, false, BaseSize(s.fontSize), Left);
    TextShows("Printed " + stamp, codec, false, BaseSize(s.fontSize), Left);
  }

  lemma BodyShows(p: State, layout: seq<Entry>, width: int, codec: Codec, boldLabels: bool)
    ensures ShowsAll(EntryLines(p, layout, width, codec, boldLabels), layout, width, codec)
  {
    var lines := EntryLines(p, layout, width, codec, boldLabels);
    forall i | 0 <= i < |layout| ensures ShowsEntry(lines[i], layout[i], width, codec) {
      EntryShows(p, layout[i], width, codec, boldLabels);
    }
  }

  lemma TextShows(text: string, codec: Codec, bold: bool, size: (int, int), align: Align)
    ensures BytesOf(TextLine(text, codec, bold, size, align)) == Encode(text, codec)
  {
  }

  // ---- The cancellation banner ----------------------------------------------

  /** The code page keeps printable ASCII, as cp437 does. */
  ghost predicate KeepsAscii(codec: Codec) {
    forall c :: ' ' <= c <= '~' ==> codec(c) == c as int
  }

  ghost predicate IsBanner(line: PaperLine, codec: Codec) {
    && BytesOf(line) == Encode(BANNER, codec)
    && (forall i :: 0 <= i < |line.cells| ==> line.cells[i].bold && line.cells[i].w == line.cells[i].h == 3)
  }

  lemma TitleIsNoBanner(b: Booking, s: Settings, f: Formats, codec: Codec, size: (int, int))
    requires KeepsAscii(codec)
    ensures !IsBanner(TextLine(Header(b, s, f), codec, true, size, Center), codec)
  {
    var header := Header(b, s, f);
    var line := TextLine(header, codec, true, size, Center);
    assert header[|header| - 1] == (if b.cancelled then 'O' else 'A');
    assert BANNER[|BANNER| - 1] == '*';
    assert BytesOf(line)[|header| - 1] == codec(header[|header| - 1]);
    assert Encode(BANNER, codec)[|BANNER| - 1] == codec('*');
  }

  lemma BodyIsNoBanner(p: State, e: Entry, width: int, codec: Codec, boldLabels: bool)
    ensures !IsBanner(EntryLine(p, e, width, codec, boldLabels), codec)
  {
    var line := EntryLine(p, e, width, codec, boldLabels);
    assert BANNER != "";
    match e
    case Plain(text) => assert line.cells != [] ==> !line.cells[0].bold;
    case Rule => assert line.cells != [] ==> !line.cells[0].bold;
    case Pair(key, value) =>
      assert !line.cells[|key|].bold;
  }

  /**
    The large bold banner is printed twice, below the title and above the stamp, exactly when
    the booking is cancelled.
   */
  lemma BannerExactlyWhenCancelled(b: Booking, s: Settings, font: Font, width: int, stamp: string, f: Formats,
                                   codec: Codec)
    requires KeepsAscii(codec)
    ensures var paper := PaperOf(b, s, font, width, stamp, f, codec);
      forall i :: 0 <= i < |paper| ==>
        (IsBanner(paper[i], codec) <==> b.cancelled && (i == 1 || i == |paper| - 5))
  {
    var h, layout := if b.cancelled then 2 else 1, Layout(b, s, width, f);
    var head, tail := HeadLines(b, s, width, f, codec), TailLines(b, s, width, stamp, codec);
    var p := BodyState(s, font, [], []);
    var body := EntryLines(p, layout, width, codec, s.boldLabels);
    var paper := PaperOf(b, s, font, width, stamp, f, codec);
    assert paper == head + body + tail && |head| == h + 1 && |tail| == h + 4;
    HeadBanner(b, s, width, f, codec);
    TailBanner(b, s, width, stamp, codec);
    forall i | 0 <= i < |paper|
      ensures IsBanner(paper[i], codec) <==> b.cancelled && (i == 1 || i == |paper| - 5)
    {
      if i < h + 1 {
        assert paper[i] == head[i];
      } else if i < h + 1 + |body| {
        assert paper[i] == EntryLine(p, layout[i - h - 1], width, codec, s.boldLabels);
        BodyIsNoBanner(p, layout[i - h - 1], width, codec, s.boldLabels);
      } else {
        assert paper[i] == tail[i - h - 1 - |body|];
      }
    }
  }

  lemma HeadBanner(b: Booking, s: Settings, width: int, f: Formats, codec: Codec)
    requires KeepsAscii(codec)
    ensures var head := HeadLines(b, s, width, f, codec);
      forall i :: 0 <= i < |head| ==> (IsBanner(head[i], codec) <==> b.cancelled && i == 1)
  {
    var head := HeadLines(b, s, width, f, codec);
    TitleIsNoBanner(b, s, f, codec, BaseSize(s.fontSize));
    if b.cancelled { assert IsBanner(TextLine(BANNER, codec, true, (3, 3), Center), codec); }
    NotBold(Repeat('-', width), codec, BaseSize(s.fontSize), Center);
  }

  lemma TailBanner(b: Booking, s: Settings, width: int, stamp: string, codec: Codec)
    ensures var tail := TailLines(b, s, width, stamp, codec);
      forall i :: 0 <= i < |tail| ==> (IsBanner(tail[i], codec) <==> b.cancelled && i == 1)
  {
    var tail := TailLines(b, s, width, stamp, codec);
    if b.cancelled { assert IsBanner(TextLine(BANNER, codec, true, (3, 3), Center), codec); }
    NotBold(Repeat('-', width), codec, BaseSize(s.fontSize), Left);
    NotBold("Printed " + stamp, codec, BaseSize(s.fontSize), Left);
    NotBold("", codec, (1, 1), Left);
    forall i | |tail| - 3 <= i < |tail| ensures !IsBanner(tail[i], codec) {
      assert |BytesOf(tail[i])| == 0 && |BANNER| > 0;
    }
  }

  lemma NotBold(text: string, codec: Codec, size: (int, int), align: Align)
    ensures !IsBanner(TextLine(text, codec, false, size, align), codec)
  {
    var line := TextLine(text, codec, false, size, align);
    assert |BANNER| > 0;
    assert line.cells != [] ==> !line.cells[0].bold;
  }

  // ---- What fits the paper --------------------------------------------------

  lemma TextColumns(text: string, codec: Codec, bold: bool, size: (int, int), align: Align)
    ensures Columns(TextLine(text, codec, bold, size, align).cells) == |text| * size.0
  {
    UniformColumns(TextLine(text, codec, bold, size, align).cells, size.0);
  }

  /** A label line of a receipt spans exactly the paper if and only if it fits and the receipt is set in normal size. */
  lemma LabelLineSpansPaper(s: Settings, font: Font, key: string, value: string, width: int, codec: Codec)
    ensures var line := EntryLine(BodyState(s, font, [], []), Pair(key, value), width, codec, s.boldLabels);
      Columns(line.cells) == width <==> BaseSize(s.fontSize).0 == 1 && |key| + 1 + |value| <= width
  {
    KvLineWidth(BodyState(s, font, [], []), key, value, width, codec, s.boldLabels);
  }

  /** In the larger sizes a label line that would fit runs over the paper by a factor of two or three. */
  lemma LargeLabelLineOverruns(s: Settings, font: Font, key: string, value: string, width: int, codec: Codec)
    requires s.fontSize == "large" || s.fontSize == "xlarge"
    requires |key| + 1 + |value| <= width
    ensures var line := EntryLine(BodyState(s, font, [], []), Pair(key, value), width, codec, s.boldLabels);
      Columns(line.cells) == width * (if s.fontSize == "large" then 2 else 3) > width
  {
    KvLineWidth(BodyState(s, font, [], []), key, value, width, codec, s.boldLabels);
  }

  /** A divider spans exactly the paper in normal size, and a cancellation banner fits exactly on 54 columns or more. */
  lemma DividerAndBannerColumns(s: Settings, width: int, codec: Codec, align: Align)
    requires width >= 1
    ensures var rule := TextLine(Repeat('-', width), codec, false, BaseSize(s.fontSize), align);
      && Columns(rule.cells) == width * BaseSize(s.fontSize).0
      && (Columns(rule.cells) <= width <==> BaseSize(s.fontSize).0 == 1)
    ensures Columns(TextLine(BANNER, codec, true, (3, 3), Center).cells) == 54
  {
    TextColumns(Repeat('-', width), codec, false, BaseSize(s.fontSize), align);
    TextColumns(BANNER, codec, true, (3, 3), Center);
    if BaseSize(s.fontSize).0 > 1 { MoreThan(width, BaseSize(s.fontSize).0); }
  }

  ghost predicate AllFit(lines: seq<PaperLine>, width: int) {
    forall i :: 0 <= i < |lines| ==> Columns(lines[i].cells) <= width
  }

  /** Normal size, no text line longer than the paper is wide, and room for the banner when there is one. */
  ghost predicate FitsPaper(b: Booking, s: Settings, width: int, stamp: string, f: Formats) {
    && BaseSize(s.fontSize).0 == 1
    && |"Printed " + stamp| <= width && (b.cancelled ==> 54 <= width)
    && |Header(b, s, f)| <= width
    && forall i :: 0 <= i < |Layout(b, s, width, f)| ==> |TextOf(Layout(b, s, width, f)[i], width)| <= width
  }

  lemma EntryColumns(s: Settings, font: Font, e: Entry, width: int, codec: Codec)
    requires width >= 0
    ensures var line, text := EntryLine(BodyState(s, font, [], []), e, width, codec, s.boldLabels), TextOf(e, width);
      Columns(line.cells) == (if e.Pair? && |text| <= width then width else |text|) * BaseSize(s.fontSize).0
  {
    var base := BaseSize(s.fontSize);
    match e
    case Plain(text) => TextColumns(text, codec, false, base, Left);
    case Rule => TextColumns(Repeat('-', width), codec, false, base, Left);
    case Pair(key, value) => KvLineWidth(BodyState(s, font, [], []), key, value, width, codec, s.boldLabels);
  }

  lemma AllFitParts(a: seq<PaperLine>, b: seq<PaperLine>, width: int)
    ensures AllFit(a + b, width) <==> AllFit(a, width) && AllFit(b, width)
  {
    assert forall i :: 0 <= i < |a| ==> (a + b)[i] == a[i];
    assert forall i :: 0 <= i < |b| ==> (a + b)[|a| + i] == b[i];
  }

  lemma HeadFits(b: Booking, s: Settings, width: int, f: Formats, codec: Codec)
    requires width >= 1
    ensures AllFit(HeadLines(b, s, width, f, codec), width) <==>
      BaseSize(s.fontSize).0 == 1 && |Header(b, s, f)| <= width && (b.cancelled ==> 54 <= width)
  {
    var base, head := BaseSize(s.fontSize), HeadLines(b, s, width, f, codec);
    TextColumns(Header(b, s, f), codec, true, base, Center);
    DividerAndBannerColumns(s, width, codec, Center);
    assert head[0] == TextLine(Header(b, s, f), codec, true, base, Center);
    assert head[|head| - 1] == TextLine(Repeat('-', width), codec, false, base, Center);
    assert b.cancelled ==> head[1] == TextLine(BANNER, codec, true, (3, 3), Center);
  }

  lemma TailFits(b: Booking, s: Settings, width: int, stamp: string, codec: Codec)
    requires width >= 1
    ensures AllFit(TailLines(b, s, width, stamp, codec), width) <==>
      BaseSize(s.fontSize).0 == 1 && |"Printed " + stamp| <= width && (b.cancelled ==> 54 <= width)
  {
    var base, tail := BaseSize(s.fontSize), TailLines(b, s, width, stamp, codec);
    TextColumns("Printed " + stamp, codec, false, base, Left);
    DividerAndBannerColumns(s, width, codec, Left);
    assert tail[0] == TextLine(Repeat('-', width), codec, false, base, Left);
    assert tail[|tail| - 4] == TextLine("Printed " + stamp, codec, false, base, Left);
    assert b.cancelled ==> tail[1] == TextLine(BANNER, codec, true, (3, 3), Center);
    assert forall i :: |tail| - 3 <= i < |tail| ==> tail[i] == PaperLine([], Left) && Columns(tail[i].cells) == 0;
  }

  lemma BodyFits(s: Settings, font: Font, layout: seq<Entry>, width: int, codec: Codec)
    requires width >= 1 && BaseSize(s.fontSize).0 == 1
    ensures AllFit(EntryLines(BodyState(s, font, [], []), layout, width, codec, s.boldLabels), width) <==>
      forall i :: 0 <= i < |layout| ==> |TextOf(layout[i], width)| <= width
  {
    var lines := EntryLines(BodyState(s, font, [], []), layout, width, codec, s.boldLabels);
    forall i | 0 <= i < |layout|
      ensures Columns(lines[i].cells) <= width <==> |TextOf(layout[i], width)| <= width
    {
      EntryColumns(s, font, layout[i], width, codec);
    }
    if AllFit(lines, width) {
      forall i | 0 <= i < |layout| ensures |TextOf(layout[i], width)| <= width {
        assert Columns(lines[i].cells) <= width;
      }
    }
  }

  /**
    No line of a receipt runs over the paper if and only if it is set in normal size, every
    line of its text and the stamp fit, and a cancelled one has 54 columns for its banner.
   */
  lemma ReceiptFitsExactly(b: Booking, s: Settings, font: Font, width: int, stamp: string, f: Formats, codec: Codec)
    ensures AllFit(PaperOf(b, s, font, width, stamp, f, codec), width) <==> FitsPaper(b, s, width, stamp, f)
  {
    var layout := Layout(b, s, width, f);
    var head, tail := HeadLines(b, s, width, f, codec), TailLines(b, s, width, stamp, codec);
    var body := EntryLines(BodyState(s, font, [], []), layout, width, codec, s.boldLabels);
    AllFitParts(head, body, width);
    AllFitParts(head + body, tail, width);
    if width >= 1 {
      HeadFits(b, s, width, f, codec);
      TailFits(b, s, width, stamp, codec);
      if BaseSize(s.fontSize).0 == 1 { BodyFits(s, font, layout, width, codec); }
    } else {
      TextColumns(Header(b, s, f), codec, true, BaseSize(s.fontSize), Center);
      assert |Header(b, s, f)| >= 1 && |Header(b, s, f)| * BaseSize(s.fontSize).0 >= 1;
      assert Columns(head[0].cells) > width;
    }
  }
}
