/**
  The ESC/POS byte builder (backend/app/services/escpos_builder.py and its C# port
  client/ResaPrint.Shared/Escpos/EscposBuilder.cs), and a tokenizer that shows its
  output can be read back in one way only.

  A code page is a function from characters to bytes; a character outside it maps
  to the replacement byte.
 */
module Escpos {
  import opened Wrappers

  type Byte = b: int | 0 <= b < 256

  type Codec = char -> Byte

  const ESC: Byte := 0x1b
  const GS: Byte := 0x1d
  const LF: Byte := 0x0a

  datatype Align = Left | Center | Right

  datatype Font = FontA | FontB

  // ---- Commands -------------------------------------------------------------

  function Init(): seq<Byte> { [ESC, 0x40] }

  function AlignBytes(mode: Align): seq<Byte> {
    [ESC, 0x61, match mode case Left => 0 case Center => 1 case Right => 2]
  }

  function BoldBytes(on: bool): seq<Byte> { [ESC, 0x45, if on then 1 else 0] }

  function FontBytes(font: Font): seq<Byte> { [ESC, 0x4d, if font.FontA? then 0 else 1] }

  /** Masking with 7 keeps the remainder modulo 8, also of a negative number; the two nibbles do not overlap. */
  function SizeByte(width: int, height: int): Byte {
    (width - 1) % 8 * 16 + (height - 1) % 8
  }

  function SizeBytes(width: int, height: int): seq<Byte> { [GS, 0x21, SizeByte(width, height)] }

  function CutBytes(partial: bool): seq<Byte> { [GS, 0x56, if partial then 1 else 0] }

  function FeedBytes(n: int): seq<Byte> { seq(if n > 0 then n else 0, _ => LF) }

  function Encode(text: string, codec: Codec): (bytes: seq<Byte>)
    ensures |bytes| == |text|
    ensures forall i :: 0 <= i < |text| ==> bytes[i] == codec(text[i])
  {
    seq(|text|, i requires 0 <= i < |text| => codec(text[i]))
  }

  function EncodeLine(text: string, codec: Codec): seq<Byte> { Encode(text, codec) + [LF] }

  function Repeat(c: char, n: int): (text: string)
    ensures |text| == if n > 0 then n else 0
    ensures forall i :: 0 <= i < |text| ==> text[i] == c
  {
    seq(if n > 0 then n else 0, _ => c)
  }

  /** The blanks between a label and its value; never fewer than one. */
  function Gap(key: string, value: string, width: int): int {
    if width - |key| - |value| > 1 then width - |key| - |value| else 1
  }

  // ---- Builder calls and what they emit -------------------------------------

  datatype Call =
    | SetAlign(mode: Align)
    | SetFont(font: Font)
    | SetTextSize(w: int, h: int)
    | BoldLine(text: string)
    | WriteLine(text: string)
    | KvLine(key: string, value: string, width: int)
    | Divider(width: int, mark: char)
    | Feed(n: int)
    | Cut(partial: bool)

  function Emit(call: Call, codec: Codec, boldLabels: bool): seq<Byte> {
    match call
    case SetAlign(mode) => AlignBytes(mode)
    case SetFont(font) => FontBytes(font)
    case SetTextSize(w, h) => SizeBytes(w, h)
    case BoldLine(text) => BoldBytes(true) + EncodeLine(text, codec) + BoldBytes(false)
    case WriteLine(text) => EncodeLine(text, codec)
    case KvLine(key, value, width) =>
      if boldLabels then
        BoldBytes(true) + Encode(key, codec) + BoldBytes(false) +
        EncodeLine(Repeat(' ', Gap(key, value, width)) + value, codec)
      else
        EncodeLine(key + Repeat(' ', Gap(key, value, width)) + value, codec)
    case Divider(width, mark) => EncodeLine(Repeat(mark, width), codec)
    case Feed(n) => FeedBytes(n)
    case Cut(partial) => CutBytes(partial)
  }

  function EmitAll(calls: seq<Call>, codec: Codec, boldLabels: bool): seq<Byte> {
    if calls == [] then [] else Emit(calls[0], codec, boldLabels) + EmitAll(calls[1..], codec, boldLabels)
  }

  function Build(calls: seq<Call>, codec: Codec, boldLabels: bool): seq<Byte> {
    Init() + EmitAll(calls, codec, boldLabels)
  }

  lemma {:induction false} EmitAllConcat(a: seq<Call>, b: seq<Call>, codec: Codec, boldLabels: bool)
    ensures EmitAll(a + b, codec, boldLabels) == EmitAll(a, codec, boldLabels) + EmitAll(b, codec, boldLabels)
  {
    if a == [] {
      assert a + b == b;
    } else {
      assert (a + b)[1..] == a[1..] + b;
      EmitAllConcat(a[1..], b, codec, boldLabels);
    }
  }

  lemma BuildOneMore(calls: seq<Call>, call: Call, codec: Codec, boldLabels: bool)
    ensures Build(calls + [call], codec, boldLabels) == Build(calls, codec, boldLabels) + Emit(call, codec, boldLabels)
  {
    EmitAllConcat(calls, [call], codec, boldLabels);
    EmitOne(call, codec, boldLabels);
    Regroup(Init(), EmitAll(calls, codec, boldLabels), Emit(call, codec, boldLabels));
  }

  lemma Regroup(a: seq<Byte>, b: seq<Byte>, c: seq<Byte>)
    ensures a + (b + c) == a + b + c
  {
  }

  lemma EmitOne(call: Call, codec: Codec, boldLabels: bool)
    ensures EmitAll([call], codec, boldLabels) == Emit(call, codec, boldLabels)
  {
    var bytes := Emit(call, codec, boldLabels);
    assert [call][1..] == [] && bytes + [] == bytes;
  }

  /** The server's builder: every method appends to the buffer in place. */
  class ReceiptBuilder {
    const codec: Codec
    const boldLabels: bool
    var buf: seq<Byte>
    ghost var calls: seq<Call>

    ghost predicate Valid()
      reads this
    {
      buf == Build(calls, codec, boldLabels)
    }

    constructor (codec: Codec, boldLabels: bool)
      ensures Valid() && calls == [] && this.codec == codec && this.boldLabels == boldLabels
    {
      this.codec, this.boldLabels := codec, boldLabels;
      buf, calls := Init(), [];
    }

    /** Every builder method is this: the call's bytes go to the end of the buffer. */
    ghost method Record(call: Call, before: seq<Byte>)
      requires before == Build(calls, codec, boldLabels) && buf == before + Emit(call, codec, boldLabels)
      modifies this`calls
      ensures Valid() && calls == old(calls) + [call]
    {
      BuildOneMore(calls, call, codec, boldLabels);
      calls := calls + [call];
    }

    method AlignTo(mode: Align)
      requires Valid()
      modifies this
      ensures Valid() && calls == old(calls) + [SetAlign(mode)]
    {
      buf := buf + AlignBytes(mode);
      Record(SetAlign(mode), old(buf));
    }

    method SelectFont(font: Font)
      requires Valid()
      modifies this
      ensures Valid() && calls == old(calls) + [SetFont(font)]
    {
      buf := buf + FontBytes(font);
      Record(SetFont(font), old(buf));
    }

    method TextSize(width: int, height: int)
      requires Valid()
      modifies this
      ensures Valid() && calls == old(calls) + [SetTextSize(width, height)]
    {
      buf := buf + SizeBytes(width, height);
      Record(SetTextSize(width, height), old(buf));
    }

    method AddBoldLine(text: string)
      requires Valid()
      modifies this
      ensures Valid() && calls == old(calls) + [BoldLine(text)]
    {
      buf := buf + BoldBytes(true);
      buf := buf + EncodeLine(text, codec);
      buf := buf + BoldBytes(false);
      assert buf == old(buf) + Emit(BoldLine(text), codec, boldLabels);
      Record(BoldLine(text), old(buf));
    }

    method AddLine(text: string)
      requires Valid()
      modifies this
      ensures Valid() && calls == old(calls) + [WriteLine(text)]
    {
      buf := buf + EncodeLine(text, codec);
      Record(WriteLine(text), old(buf));
    }

    method AddKvLine(key: string, value: string, width: int)
      requires Valid()
      modifies this
      ensures Valid() && calls == old(calls) + [KvLine(key, value, width)]
    {
      var gap := Gap(key, value, width);
      if boldLabels {
        buf := buf + BoldBytes(true);
        buf := buf + Encode(key, codec);
        buf := buf + BoldBytes(false);
        buf := buf + EncodeLine(Repeat(' ', gap) + value, codec);
        assert buf == old(buf) + Emit(KvLine(key, value, width), codec, boldLabels);
      } else {
        buf := buf + EncodeLine(key + Repeat(' ', gap) + value, codec);
      }
      Record(KvLine(key, value, width), old(buf));
    }

    method AddDivider(width: int, mark: char)
      requires Valid()
      modifies this
      ensures Valid() && calls == old(calls) + [Divider(width, mark)]
    {
      buf := buf + EncodeLine(Repeat(mark, width), codec);
      Record(Divider(width, mark), old(buf));
    }

    method FeedLines(n: int)
      requires Valid()
      modifies this
      ensures Valid() && calls == old(calls) + [Feed(n)]
    {
      buf := buf + FeedBytes(n);
      Record(Feed(n), old(buf));
    }

    method CutPaper(partial: bool)
      requires Valid()
      modifies this
      ensures Valid() && calls == old(calls) + [Cut(partial)]
    {
      buf := buf + CutBytes(partial);
      Record(Cut(partial), old(buf));
    }
  }

  // ---- Reading the bytes back -----------------------------------------------

  datatype Token =
    | TInit
    | TAlign(mode: Align)
    | TBold(on: bool)
    | TFont(font: Font)
    | TSize(w: int, h: int)
    | TCut(partial: bool)
    | TLine
    | TByte(b: Byte)

  /** The one command that starts with these three bytes. */
  function Command(lead: Byte, kind: Byte, arg: Byte): Option<Token> {
    if lead == ESC then
      if kind == 0x61 && arg <= 2 then Some(TAlign(if arg == 0 then Left else if arg == 1 then Center else Right))
      else if kind == 0x45 && arg <= 1 then Some(TBold(arg == 1))
      else if kind == 0x4d && arg <= 1 then Some(TFont(if arg == 0 then FontA else FontB))
      else None
    else
      if kind == 0x21 && arg / 16 < 8 && arg % 16 < 8 then Some(TSize(arg / 16 + 1, arg % 16 + 1))
      else if kind == 0x56 && arg <= 1 then Some(TCut(arg == 1))
      else None
  }

  function Prepend(tokens: seq<Token>, rest: Option<seq<Token>>): Option<seq<Token>> {
    if rest.Some? then Some(tokens + rest.value) else None
  }

  /** Left to right, no lookahead beyond the command being read; None on bytes no builder call emits. */
  function Tokenize(bytes: seq<Byte>): Option<seq<Token>>
    decreases |bytes|
  {
    if bytes == [] then Some([])
    else if bytes[0] == LF then Prepend([TLine], Tokenize(bytes[1..]))
    else if bytes[0] != ESC && bytes[0] != GS then Prepend([TByte(bytes[0])], Tokenize(bytes[1..]))
    else if |bytes| >= 2 && bytes[0] == ESC && bytes[1] == 0x40 then Prepend([TInit], Tokenize(bytes[2..]))
    else if |bytes| >= 3 && Command(bytes[0], bytes[1], bytes[2]).Some? then
      Prepend([Command(bytes[0], bytes[1], bytes[2]).value], Tokenize(bytes[3..]))
    else None
  }

  /** What a call means, as tokens. */
  function Bytes(text: string, codec: Codec): (tokens: seq<Token>)
    ensures |tokens| == |text|
    ensures forall i :: 0 <= i < |text| ==> tokens[i] == TByte(codec(text[i]))
  {
    seq(|text|, i requires 0 <= i < |text| => TByte(codec(text[i])))
  }

  function LineEnds(n: int): (tokens: seq<Token>)
    ensures |tokens| == if n > 0 then n else 0
    ensures forall i :: 0 <= i < |tokens| ==> tokens[i] == TLine
  {
    seq(if n > 0 then n else 0, _ => TLine)
  }

  function TokensOf(call: Call, codec: Codec, boldLabels: bool): seq<Token> {
    match call
    case SetAlign(mode) => [TAlign(mode)]
    case SetFont(font) => [TFont(font)]
    case SetTextSize(w, h) => [TSize(w, h)]
    case BoldLine(text) => [TBold(true)] + Bytes(text, codec) + [TLine, TBold(false)]
    case WriteLine(text) => Bytes(text, codec) + [TLine]
    case KvLine(key, value, width) =>
      var rest := Repeat(' ', Gap(key, value, width)) + value;
      if boldLabels then [TBold(true)] + Bytes(key, codec) + [TBold(false)] + Bytes(rest, codec) + [TLine]
      else Bytes(key + rest, codec) + [TLine]
    case Divider(width, mark) => Bytes(Repeat(mark, width), codec) + [TLine]
    case Feed(n) => LineEnds(n)
    case Cut(partial) => [TCut(partial)]
  }

  function AllTokens(calls: seq<Call>, codec: Codec, boldLabels: bool): seq<Token> {
    if calls == [] then [] else TokensOf(calls[0], codec, boldLabels) + AllTokens(calls[1..], codec, boldLabels)
  }

  // ---- What the bytes say, line feeds in the text included ------------------

  /** A line feed inside a text ends a line like any other. */
  function TextTokens(text: string, codec: Codec): (tokens: seq<Token>)
    ensures |tokens| == |text|
    ensures forall i :: 0 <= i < |text| ==> tokens[i] == TextToken(codec(text[i]))
  {
    seq(|text|, i requires 0 <= i < |text| => TextToken(codec(text[i])))
  }

  function TextToken(b: Byte): Token { if b == LF then TLine else TByte(b) }

  /**
    A call as the tokenizer reads it back when its text has no ESC and no GS byte; sizes wrap
    around in their nibbles.
   */
  function ReadAs(call: Call, codec: Codec, boldLabels: bool): seq<Token> {
    match call
    case SetAlign(mode) => [TAlign(mode)]
    case SetFont(font) => [TFont(font)]
    case SetTextSize(w, h) => [TSize((w - 1) % 8 + 1, (h - 1) % 8 + 1)]
    case BoldLine(text) => [TBold(true)] + TextTokens(text, codec) + [TLine, TBold(false)]
    case WriteLine(text) => TextTokens(text, codec) + [TLine]
    case KvLine(key, value, width) =>
      var rest := Repeat(' ', Gap(key, value, width)) + value;
      if boldLabels then
        [TBold(true)] + TextTokens(key, codec) + [TBold(false)] + TextTokens(rest, codec) + [TLine]
      else
        TextTokens(key + rest, codec) + [TLine]
    case Divider(width, mark) => TextTokens(Repeat(mark, width), codec) + [TLine]
    case Feed(n) => LineEnds(n)
    case Cut(partial) => [TCut(partial)]
  }

  function AllReadAs(calls: seq<Call>, codec: Codec, boldLabels: bool): seq<Token> {
    if calls == [] then [] else ReadAs(calls[0], codec, boldLabels) + AllReadAs(calls[1..], codec, boldLabels)
  }

  // ---- Clean text -----------------------------------------------------------

  predicate Plain(b: Byte) { b != ESC && b != GS && b != LF }

  /** No byte of the text starts a command. */
  predicate SafeText(text: string, codec: Codec) {
    forall i :: 0 <= i < |text| ==> codec(text[i]) != ESC && codec(text[i]) != GS
  }

  /** The texts a call prints. */
  function TextsOf(call: Call): seq<string> {
    match call
    case BoldLine(text) => [text]
    case WriteLine(text) => [text]
    case KvLine(key, value, width) => [key, Repeat(' ', Gap(key, value, width)) + value]
    case Divider(width, mark) => [Repeat(mark, width)]
    case _ => []
  }

  predicate SafeCall(call: Call, codec: Codec) {
    forall i :: 0 <= i < |TextsOf(call)| ==> SafeText(TextsOf(call)[i], codec)
  }

  predicate Safe(calls: seq<Call>, codec: Codec) {
    forall i :: 0 <= i < |calls| ==> SafeCall(calls[i], codec)
  }

  predicate SizeInRange(call: Call) { call.SetTextSize? ==> 1 <= call.w <= 8 && 1 <= call.h <= 8 }

  predicate CleanText(text: string, codec: Codec) {
    forall i :: 0 <= i < |text| ==> Plain(codec(text[i]))
  }

  /** No text byte is a control byte of the protocol, and sizes are in the range the nibbles can hold. */
  predicate CleanCall(call: Call, codec: Codec) {
    SizeInRange(call) && forall i :: 0 <= i < |TextsOf(call)| ==> CleanText(TextsOf(call)[i], codec)
  }

  predicate Clean(calls: seq<Call>, codec: Codec) {
    forall i :: 0 <= i < |calls| ==> CleanCall(calls[i], codec)
  }

  // ---- Unique decodability --------------------------------------------------

  lemma {:induction false} ReadText(text: string, codec: Codec, rest: seq<Byte>)
    requires SafeText(text, codec)
    ensures Tokenize(Encode(text, codec) + rest) == Prepend(TextTokens(text, codec), Tokenize(rest))
  {
    var all := Encode(text, codec) + rest;
    if text == [] {
      assert all == rest;
      assert Tokenize(rest).Some? ==> TextTokens(text, codec) + Tokenize(rest).value == Tokenize(rest).value;
    } else {
      ReadText(text[1..], codec, rest);
      assert all[1..] == Encode(text[1..], codec) + rest;
      if Tokenize(rest).Some? {
        assert [TextToken(all[0])] + (TextTokens(text[1..], codec) + Tokenize(rest).value)
            == TextTokens(text, codec) + Tokenize(rest).value;
      }
    }
  }

  /** A text line, and after it the rest. */
  lemma ReadLine(text: string, codec: Codec, rest: seq<Byte>)
    requires SafeText(text, codec)
    ensures Tokenize(EncodeLine(text, codec) + rest) == Prepend(TextTokens(text, codec) + [TLine], Tokenize(rest))
  {
    ReadText(text, codec, [LF] + rest);
    assert EncodeLine(text, codec) + rest == Encode(text, codec) + ([LF] + rest);
    assert ([LF] + rest)[1..] == rest;
    if Tokenize(rest).Some? {
      assert TextTokens(text, codec) + ([TLine] + Tokenize(rest).value)
          == TextTokens(text, codec) + [TLine] + Tokenize(rest).value;
    }
  }

  lemma ReadCommand(lead: Byte, kind: Byte, arg: Byte, token: Token, rest: seq<Byte>)
    requires lead == ESC || lead == GS
    requires Command(lead, kind, arg) == Some(token)
    ensures Tokenize([lead, kind, arg] + rest) == Prepend([token], Tokenize(rest))
  {
    var all := [lead, kind, arg] + rest;
    assert all[0] == lead && all[1] == kind && all[2] == arg && all[3..] == rest;
  }

  lemma {:induction false} ReadFeed(n: int, rest: seq<Byte>)
    ensures Tokenize(FeedBytes(n) + rest) == Prepend(LineEnds(n), Tokenize(rest))
    decreases if n > 0 then n else 0
  {
    var all := FeedBytes(n) + rest;
    if n <= 0 {
      assert all == rest;
      assert Tokenize(rest).Some? ==> LineEnds(n) + Tokenize(rest).value == Tokenize(rest).value;
    } else {
      ReadFeed(n - 1, rest);
      assert all[0] == LF && all[1..] == FeedBytes(n - 1) + rest;
      if Tokenize(rest).Some? {
        assert [TLine] + (LineEnds(n - 1) + Tokenize(rest).value) == LineEnds(n) + Tokenize(rest).value;
      }
    }
  }

  lemma PrependTwice(a: seq<Token>, b: seq<Token>, rest: Option<seq<Token>>)
    ensures Prepend(a, Prepend(b, rest)) == Prepend(a + b, rest)
  {
    if rest.Some? { assert a + (b + rest.value) == a + b + rest.value; }
  }

  lemma ReadBoldLine(text: string, codec: Codec, rest: seq<Byte>)
    requires SafeText(text, codec)
    ensures Tokenize(BoldBytes(true) + EncodeLine(text, codec) + BoldBytes(false) + rest)
         == Prepend([TBold(true)] + TextTokens(text, codec) + [TLine, TBold(false)], Tokenize(rest))
  {
    var tail := BoldBytes(false) + rest;
    ReadCommand(ESC, 0x45, 0, TBold(false), rest);
    ReadLine(text, codec, tail);
    ReadCommand(ESC, 0x45, 1, TBold(true), EncodeLine(text, codec) + tail);
    assert BoldBytes(true) + EncodeLine(text, codec) + BoldBytes(false) + rest
        == BoldBytes(true) + (EncodeLine(text, codec) + tail);
    PrependTwice(TextTokens(text, codec) + [TLine], [TBold(false)], Tokenize(rest));
    PrependTwice([TBold(true)], TextTokens(text, codec) + [TLine] + [TBold(false)], Tokenize(rest));
    assert [TBold(true)] + (TextTokens(text, codec) + [TLine] + [TBold(false)])
        == [TBold(true)] + TextTokens(text, codec) + [TLine, TBold(false)];
  }

  lemma ReadBoldLabel(key: string, text: string, codec: Codec, rest: seq<Byte>)
    requires SafeText(key, codec) && SafeText(text, codec)
    ensures Tokenize(BoldBytes(true) + Encode(key, codec) + BoldBytes(false) + EncodeLine(text, codec) + rest)
         == Prepend([TBold(true)] + TextTokens(key, codec) + [TBold(false)] + TextTokens(text, codec) + [TLine],
             Tokenize(rest))
  {
    var line := EncodeLine(text, codec) + rest;
    var tail := BoldBytes(false) + line;
    ReadLine(text, codec, rest);
    ReadCommand(ESC, 0x45, 0, TBold(false), line);
    ReadText(key, codec, tail);
    ReadCommand(ESC, 0x45, 1, TBold(true), Encode(key, codec) + tail);
    assert BoldBytes(true) + Encode(key, codec) + BoldBytes(false) + EncodeLine(text, codec) + rest
        == BoldBytes(true) + (Encode(key, codec) + tail);
    var t := TextTokens(text, codec) + [TLine];
    PrependTwice([TBold(false)], t, Tokenize(rest));
    PrependTwice(TextTokens(key, codec), [TBold(false)] + t, Tokenize(rest));
    PrependTwice([TBold(true)], TextTokens(key, codec) + ([TBold(false)] + t), Tokenize(rest));
    assert [TBold(true)] + (TextTokens(key, codec) + ([TBold(false)] + t))
        == [TBold(true)] + TextTokens(key, codec) + [TBold(false)] + TextTokens(text, codec) + [TLine];
  }

  /** The nibbles always decode, and give the size back exactly when it is in range. */
  lemma SizeRoundTrip(w: int, h: int)
    ensures Command(GS, 0x21, SizeByte(w, h)) == Some(TSize((w - 1) % 8 + 1, (h - 1) % 8 + 1))
    ensures Command(GS, 0x21, SizeByte(w, h)) == Some(TSize(w, h)) <==> 1 <= w <= 8 && 1 <= h <= 8
  {
    var n := SizeByte(w, h);
    assert n / 16 == (w - 1) % 8 && n % 16 == (h - 1) % 8;
  }

  lemma ReadKvLine(key: string, value: string, width: int, codec: Codec, boldLabels: bool, rest: seq<Byte>)
    requires SafeCall(KvLine(key, value, width), codec)
    ensures Tokenize(Emit(KvLine(key, value, width), codec, boldLabels) + rest)
         == Prepend(ReadAs(KvLine(key, value, width), codec, boldLabels), Tokenize(rest))
  {
    var text := Repeat(' ', Gap(key, value, width)) + value;
    var texts := TextsOf(KvLine(key, value, width));
    assert texts[0] == key && texts[1] == text;
    if boldLabels {
      ReadBoldLabel(key, text, codec, rest);
    } else {
      assert key + Repeat(' ', Gap(key, value, width)) + value == key + text;
      ReadLine(key + text, codec, rest);
    }
  }

  lemma ReadCall(call: Call, codec: Codec, boldLabels: bool, rest: seq<Byte>)
    requires SafeCall(call, codec)
    ensures Tokenize(Emit(call, codec, boldLabels) + rest) == Prepend(ReadAs(call, codec, boldLabels), Tokenize(rest))
  {
    match call
    case SetAlign(mode) => ReadCommand(ESC, 0x61, AlignBytes(mode)[2], TAlign(mode), rest);
    case SetFont(font) => ReadCommand(ESC, 0x4d, FontBytes(font)[2], TFont(font), rest);
    case SetTextSize(w, h) =>
      SizeRoundTrip(w, h);
      ReadCommand(GS, 0x21, SizeByte(w, h), TSize((w - 1) % 8 + 1, (h - 1) % 8 + 1), rest);
    case BoldLine(text) =>
      assert TextsOf(call)[0] == text;
      ReadBoldLine(text, codec, rest);
    case WriteLine(text) =>
      assert TextsOf(call)[0] == text;
      ReadLine(text, codec, rest);
    case KvLine(key, value, width) => ReadKvLine(key, value, width, codec, boldLabels, rest);
    case Divider(width, mark) =>
      assert TextsOf(call)[0] == Repeat(mark, width);
      ReadLine(Repeat(mark, width), codec, rest);
    case Feed(n) => ReadFeed(n, rest);
    case Cut(partial) => ReadCommand(GS, 0x56, CutBytes(partial)[2], TCut(partial), rest);
  }

  lemma {:induction false} ReadAll(calls: seq<Call>, codec: Codec, boldLabels: bool)
    requires Safe(calls, codec)
    ensures Tokenize(EmitAll(calls, codec, boldLabels)) == Some(AllReadAs(calls, codec, boldLabels))
  {
    if calls != [] {
      assert SafeCall(calls[0], codec);
      ReadAll(calls[1..], codec, boldLabels);
      ReadCall(calls[0], codec, boldLabels, EmitAll(calls[1..], codec, boldLabels));
    }
  }

  /** The bytes of calls without ESC and GS in their text are read back in one way. */
  lemma ReadBuild(calls: seq<Call>, codec: Codec, boldLabels: bool)
    requires Safe(calls, codec)
    ensures Tokenize(Build(calls, codec, boldLabels)) == Some([TInit] + AllReadAs(calls, codec, boldLabels))
  {
    var bytes := Build(calls, codec, boldLabels);
    assert bytes[2..] == EmitAll(calls, codec, boldLabels);
    assert Tokenize(bytes) == Prepend([TInit], Tokenize(bytes[2..]));
    ReadAll(calls, codec, boldLabels);
  }

  lemma CleanTextIsReadExactly(text: string, codec: Codec)
    requires CleanText(text, codec)
    ensures TextTokens(text, codec) == Bytes(text, codec)
  {
    forall i | 0 <= i < |text| ensures TextTokens(text, codec)[i] == Bytes(text, codec)[i] {
      assert Plain(codec(text[i]));
    }
  }

  lemma CleanIsSafe(call: Call, codec: Codec)
    requires CleanCall(call, codec)
    ensures SafeCall(call, codec)
  {
    forall i | 0 <= i < |TextsOf(call)| ensures SafeText(TextsOf(call)[i], codec) {
      assert CleanText(TextsOf(call)[i], codec);
      forall j | 0 <= j < |TextsOf(call)[i]|
        ensures codec(TextsOf(call)[i][j]) != ESC && codec(TextsOf(call)[i][j]) != GS
      {
        assert Plain(codec(TextsOf(call)[i][j]));
      }
    }
  }

  lemma CleanCallIsReadExactly(call: Call, codec: Codec, boldLabels: bool)
    requires CleanCall(call, codec)
    ensures ReadAs(call, codec, boldLabels) == TokensOf(call, codec, boldLabels)
  {
    forall i | 0 <= i < |TextsOf(call)| ensures TextTokens(TextsOf(call)[i], codec) == Bytes(TextsOf(call)[i], codec) {
      CleanTextIsReadExactly(TextsOf(call)[i], codec);
    }
    match call
    case BoldLine(text) => assert TextsOf(call)[0] == text;
    case WriteLine(text) => assert TextsOf(call)[0] == text;
    case KvLine(key, value, width) =>
      var rest := Repeat(' ', Gap(key, value, width)) + value;
      assert TextsOf(call)[0] == key && TextsOf(call)[1] == rest;
      assert TextTokens(key + rest, codec) == TextTokens(key, codec) + TextTokens(rest, codec);
      assert Bytes(key + rest, codec) == Bytes(key, codec) + Bytes(rest, codec);
    case Divider(width, mark) => assert TextsOf(call)[0] == Repeat(mark, width);
    case _ =>
  }

  lemma {:induction false} CleanIsReadExactly(calls: seq<Call>, codec: Codec, boldLabels: bool)
    requires Clean(calls, codec)
    ensures Safe(calls, codec) && AllReadAs(calls, codec, boldLabels) == AllTokens(calls, codec, boldLabels)
  {
    forall i | 0 <= i < |calls| ensures SafeCall(calls[i], codec) { CleanIsSafe(calls[i], codec); }
    if calls != [] {
      CleanCallIsReadExactly(calls[0], codec, boldLabels);
      CleanIsReadExactly(calls[1..], codec, boldLabels);
    }
  }

  /** A token the tokenizer can produce. */
  predicate Proper(t: Token) {
    && (t.TByte? ==> Plain(t.b))
    && (t.TSize? ==> 1 <= t.w <= 8 && 1 <= t.h <= 8)
  }

  lemma {:induction false} OnlyProperTokens(bytes: seq<Byte>)
    ensures Tokenize(bytes).Some? ==> forall t :: t in Tokenize(bytes).value ==> Proper(t)
    decreases |bytes|
  {
    if bytes == [] {
    } else if bytes[0] == LF || (bytes[0] != ESC && bytes[0] != GS) {
      OnlyProperTokens(bytes[1..]);
    } else if |bytes| >= 2 && bytes[0] == ESC && bytes[1] == 0x40 {
      OnlyProperTokens(bytes[2..]);
    } else if |bytes| >= 3 {
      OnlyProperTokens(bytes[3..]);
    }
  }

  lemma UncleanText(text: string, codec: Codec)
    requires !CleanText(text, codec)
    ensures exists t :: t in Bytes(text, codec) && !Proper(t)
  {
    var i :| 0 <= i < |text| && !Plain(codec(text[i]));
    var t := Bytes(text, codec)[i];
    assert t in Bytes(text, codec) && t == TByte(codec(text[i]));
  }

  /** The tokens of a call that is not clean include one the tokenizer never produces. */
  lemma UncleanCall(call: Call, codec: Codec, boldLabels: bool)
    requires !CleanCall(call, codec)
    ensures exists t :: t in TokensOf(call, codec, boldLabels) && !Proper(t)
  {
    match call
    case SetTextSize(w, h) => assert TSize(w, h) in TokensOf(call, codec, boldLabels);
    case BoldLine(text) => UncleanText(text, codec);
    case WriteLine(text) => UncleanText(text, codec);
    case KvLine(key, value, width) =>
      var text := Repeat(' ', Gap(key, value, width)) + value;
      assert TextsOf(call) == [key, text];
      if CleanText(key, codec) { UncleanText(text, codec); } else { UncleanText(key, codec); }
      assert Bytes(key + text, codec) == Bytes(key, codec) + Bytes(text, codec);
    case Divider(width, mark) => UncleanText(Repeat(mark, width), codec);
  }

  lemma {:induction false} UncleanCalls(calls: seq<Call>, codec: Codec, boldLabels: bool)
    requires !Clean(calls, codec)
    ensures exists t :: t in AllTokens(calls, codec, boldLabels) && !Proper(t)
  {
    if CleanCall(calls[0], codec) {
      var i :| 0 <= i < |calls| && !CleanCall(calls[i], codec);
      assert calls[1..][i - 1] == calls[i];
      UncleanCalls(calls[1..], codec, boldLabels);
    } else {
      UncleanCall(calls[0], codec, boldLabels);
    }
  }

  /** Reading the built bytes gives back exactly the calls' commands and text, if and only if the calls are clean. */
  lemma DecodesExactlyWhenClean(calls: seq<Call>, codec: Codec, boldLabels: bool)
    ensures Tokenize(Build(calls, codec, boldLabels)) == Some([TInit] + AllTokens(calls, codec, boldLabels))
      <==> Clean(calls, codec)
  {
    if Clean(calls, codec) {
      CleanIsReadExactly(calls, codec, boldLabels);
      ReadBuild(calls, codec, boldLabels);
    } else {
      UncleanCalls(calls, codec, boldLabels);
      OnlyProperTokens(Build(calls, codec, boldLabels));
    }
  }
}
