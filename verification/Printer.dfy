/**
  A receipt printer that executes the tokens of an ESC/POS stream, and what each
  builder call puts on its paper.
 */
module Printer {
  import opened Wrappers
  import opened Escpos

  /** One printed character with the attributes in force. */
  datatype Cell = Cell(b: Byte, bold: bool, w: int, h: int)

  datatype PaperLine = PaperLine(cells: seq<Cell>, align: Align)

  /** A cut, and how many lines were on the paper when it was made. */
  datatype PaperCut = PaperCut(after: nat, partial: bool)

  datatype State = State(bold: bool, w: int, h: int, align: Align, font: Font,
                         current: seq<Cell>, lines: seq<PaperLine>, cuts: seq<PaperCut>)

  const POWER_ON := State(false, 1, 1, Left, FontA, [], [], [])

  function Execute(p: State, t: Token): State {
    match t
    case TInit => p.(bold := false, w := 1, h := 1, align := Left, font := FontA)
    case TAlign(mode) => p.(align := mode)
    case TBold(on) => p.(bold := on)
    case TFont(font) => p.(font := font)
    case TSize(w, h) => p.(w := w, h := h)
    case TCut(partial) => p.(cuts := p.cuts + [PaperCut(|p.lines|, partial)])
    case TLine => p.(lines := p.lines + [PaperLine(p.current, p.align)], current := [])
    case TByte(b) => p.(current := p.current + [Cell(b, p.bold, p.w, p.h)])
  }

  function Run(p: State, tokens: seq<Token>): State
    decreases |tokens|
  {
    if tokens == [] then p else Run(Execute(p, tokens[0]), tokens[1..])
  }

  lemma {:induction false} RunConcat(p: State, a: seq<Token>, b: seq<Token>)
    ensures Run(p, a + b) == Run(Run(p, a), b)
    decreases |a|
  {
    if a == [] {
      assert a + b == b;
    } else {
      assert (a + b)[1..] == a[1..] + b;
      RunConcat(Execute(p, a[0]), a[1..], b);
    }
  }

  // ---- What the calls print -------------------------------------------------

  function Cells(text: string, codec: Codec, bold: bool, w: int, h: int): (cells: seq<Cell>)
    ensures |cells| == |text|
    ensures forall i :: 0 <= i < |text| ==> cells[i] == Cell(codec(text[i]), bold, w, h)
  {
    seq(|text|, i requires 0 <= i < |text| => Cell(codec(text[i]), bold, w, h))
  }

  function Blank(n: int, align: Align): (lines: seq<PaperLine>)
    ensures |lines| == if n > 0 then n else 0
    ensures forall i :: 0 <= i < |lines| ==> lines[i] == PaperLine([], align)
  {
    seq(if n > 0 then n else 0, _ => PaperLine([], align))
  }

  /** The lines a call adds to the paper, starting at the beginning of a line with bold off. */
  function LinesOf(p: State, call: Call, codec: Codec, boldLabels: bool): seq<PaperLine> {
    match call
    case BoldLine(text) => [PaperLine(Cells(text, codec, true, p.w, p.h), p.align)]
    case WriteLine(text) => [PaperLine(Cells(text, codec, false, p.w, p.h), p.align)]
    case KvLine(key, value, width) =>
      [PaperLine(Cells(key, codec, boldLabels, p.w, p.h) +
                 Cells(Repeat(' ', Gap(key, value, width)) + value, codec, false, p.w, p.h), p.align)]
    case Divider(width, mark) => [PaperLine(Cells(Repeat(mark, width), codec, false, p.w, p.h), p.align)]
    case Feed(n) => Blank(n, p.align)
    case _ => []
  }

  function AfterCall(p: State, call: Call, codec: Codec, boldLabels: bool): State {
    match call
    case SetAlign(mode) => p.(align := mode)
    case SetFont(font) => p.(font := font)
    case SetTextSize(w, h) => p.(w := w, h := h)
    case Cut(partial) => p.(cuts := p.cuts + [PaperCut(|p.lines|, partial)])
    case _ => p.(lines := p.lines + LinesOf(p, call, codec, boldLabels))
  }

  predicate AtLineStart(p: State) { !p.bold && p.current == [] }

  lemma RunStep(p: State, t: Token, rest: seq<Token>)
    ensures Run(p, [t] + rest) == Run(Execute(p, t), rest)
  {
    assert ([t] + rest)[1..] == rest;
  }

  function Typed(p: State, cells: seq<Cell>): State { p.(current := p.current + cells) }

  lemma TypedTwice(p: State, a: seq<Cell>, b: seq<Cell>)
    ensures Typed(Typed(p, a), b) == Typed(p, a + b)
  {
    assert p.current + a + b == p.current + (a + b);
  }

  lemma BytesStep(text: string, codec: Codec)
    requires text != []
    ensures Bytes(text, codec) == [TByte(codec(text[0]))] + Bytes(text[1..], codec)
  {
  }

  lemma CellsStep(text: string, codec: Codec, bold: bool, w: int, h: int)
    requires text != []
    ensures Cells(text, codec, bold, w, h) == [Cell(codec(text[0]), bold, w, h)] + Cells(text[1..], codec, bold, w, h)
  {
  }

  lemma {:induction false} RunText(p: State, text: string, codec: Codec)
    ensures Run(p, Bytes(text, codec)) == Typed(p, Cells(text, codec, p.bold, p.w, p.h))
    decreases |text|
  {
    if text == [] {
      assert Bytes(text, codec) == [];
      assert p.current + Cells(text, codec, p.bold, p.w, p.h) == p.current;
    } else {
      BytesStep(text, codec);
      CellsStep(text, codec, p.bold, p.w, p.h);
      RunStep(p, TByte(codec(text[0])), Bytes(text[1..], codec));
      var cell := Cell(codec(text[0]), p.bold, p.w, p.h);
      RunText(Typed(p, [cell]), text[1..], codec);
      TypedTwice(p, [cell], Cells(text[1..], codec, p.bold, p.w, p.h));
    }
  }

  lemma {:induction false} RunFeed(p: State, n: int)
    requires p.current == []
    ensures Run(p, LineEnds(n)) == p.(lines := p.lines + Blank(n, p.align))
    decreases if n > 0 then n else 0
  {
    if n > 0 {
      RunFeed(Execute(p, TLine), n - 1);
      assert LineEnds(n)[1..] == LineEnds(n - 1);
      assert p.lines + Blank(n, p.align) == p.lines + [PaperLine([], p.align)] + Blank(n - 1, p.align);
    } else {
      assert p.lines + Blank(n, p.align) == p.lines;
    }
  }

  lemma RunLine(p: State, text: string, codec: Codec)
    ensures Run(p, Bytes(text, codec) + [TLine])
         == p.(lines := p.lines + [PaperLine(p.current + Cells(text, codec, p.bold, p.w, p.h), p.align)], current := [])
  {
    RunConcat(p, Bytes(text, codec), [TLine]);
    RunText(p, text, codec);
    RunOne(Run(p, Bytes(text, codec)), TLine);
  }

  lemma RunOne(p: State, t: Token)
    ensures Run(p, [t]) == Execute(p, t)
  {
    assert [t][1..] == [];
  }

  lemma RunBoldLine(p: State, text: string, codec: Codec)
    requires AtLineStart(p)
    ensures Run(p, [TBold(true)] + Bytes(text, codec) + [TLine, TBold(false)])
         == p.(lines := p.lines + [PaperLine(Cells(text, codec, true, p.w, p.h), p.align)])
  {
    var line := Bytes(text, codec) + [TLine];
    var on := Execute(p, TBold(true));
    assert [TBold(true)] + Bytes(text, codec) + [TLine, TBold(false)] == [TBold(true)] + (line + [TBold(false)]);
    RunConcat(p, [TBold(true)], line + [TBold(false)]);
    RunOne(p, TBold(true));
    RunConcat(on, line, [TBold(false)]);
    RunLine(on, text, codec);
    RunOne(Run(on, line), TBold(false));
    assert [] + Cells(text, codec, true, p.w, p.h) == Cells(text, codec, true, p.w, p.h);
  }

  lemma RunBoldLabel(p: State, key: string, text: string, codec: Codec)
    requires AtLineStart(p)
    ensures Run(p, [TBold(true)] + Bytes(key, codec) + [TBold(false)] + Bytes(text, codec) + [TLine])
         == p.(lines := p.lines + [PaperLine(Cells(key, codec, true, p.w, p.h) + Cells(text, codec, false, p.w, p.h),
             p.align)])
  {
    var line := Bytes(text, codec) + [TLine];
    var on := Execute(p, TBold(true));
    assert [TBold(true)] + Bytes(key, codec) + [TBold(false)] + Bytes(text, codec) + [TLine]
        == [TBold(true)] + (Bytes(key, codec) + ([TBold(false)] + line));
    RunConcat(p, [TBold(true)], Bytes(key, codec) + ([TBold(false)] + line));
    RunOne(p, TBold(true));
    RunConcat(on, Bytes(key, codec), [TBold(false)] + line);
    RunText(on, key, codec);
    var labelled := Run(on, Bytes(key, codec));
    RunConcat(labelled, [TBold(false)], line);
    RunOne(labelled, TBold(false));
    RunLine(Execute(labelled, TBold(false)), text, codec);
    assert [] + Cells(key, codec, true, p.w, p.h) == Cells(key, codec, true, p.w, p.h);
  }

  /** Executing a call's tokens at the start of a line does what the call says, and ends at the start of a line. */
  lemma RunCall(p: State, call: Call, codec: Codec, boldLabels: bool)
    requires AtLineStart(p)
    ensures Run(p, TokensOf(call, codec, boldLabels)) == AfterCall(p, call, codec, boldLabels)
    ensures AtLineStart(AfterCall(p, call, codec, boldLabels))
  {
    match call
    case SetAlign(mode) => RunOne(p, TAlign(mode));
    case SetFont(font) => RunOne(p, TFont(font));
    case SetTextSize(w, h) => RunOne(p, TSize(w, h));
    case BoldLine(text) => RunBoldLine(p, text, codec);
    case WriteLine(text) => RunLine(p, text, codec);
      assert [] + Cells(text, codec, false, p.w, p.h) == Cells(text, codec, false, p.w, p.h);
    case KvLine(key, value, width) =>
      var text := Repeat(' ', Gap(key, value, width)) + value;
      if boldLabels {
        RunBoldLabel(p, key, text, codec);
      } else {
        RunLine(p, key + text, codec);
        assert [] + Cells(key + text, codec, false, p.w, p.h)
            == Cells(key, codec, false, p.w, p.h) + Cells(text, codec, false, p.w, p.h);
      }
    case Divider(width, mark) => RunLine(p, Repeat(mark, width), codec);
      assert [] + Cells(Repeat(mark, width), codec, false, p.w, p.h)
          == Cells(Repeat(mark, width), codec, false, p.w, p.h);
    case Feed(n) => RunFeed(p, n);
    case Cut(partial) => RunOne(p, TCut(partial));
  }

  function AfterCalls(p: State, calls: seq<Call>, codec: Codec, boldLabels: bool): State
    decreases |calls|
  {
    if calls == [] then p else AfterCalls(AfterCall(p, calls[0], codec, boldLabels), calls[1..], codec, boldLabels)
  }

  lemma {:induction false} RunCalls(p: State, calls: seq<Call>, codec: Codec, boldLabels: bool)
    requires AtLineStart(p)
    ensures Run(p, AllTokens(calls, codec, boldLabels)) == AfterCalls(p, calls, codec, boldLabels)
    ensures AtLineStart(AfterCalls(p, calls, codec, boldLabels))
    decreases |calls|
  {
    if calls != [] {
      RunCall(p, calls[0], codec, boldLabels);
      RunConcat(p, TokensOf(calls[0], codec, boldLabels), AllTokens(calls[1..], codec, boldLabels));
      RunCalls(AfterCall(p, calls[0], codec, boldLabels), calls[1..], codec, boldLabels);
    }
  }

  lemma {:induction false} AfterConcat(p: State, a: seq<Call>, b: seq<Call>, codec: Codec, boldLabels: bool)
    ensures AfterCalls(p, a + b, codec, boldLabels)
        == AfterCalls(AfterCalls(p, a, codec, boldLabels), b, codec, boldLabels)
    decreases |a|
  {
    if a == [] {
      assert a + b == b;
    } else {
      assert (a + b)[1..] == a[1..] + b;
      AfterConcat(AfterCall(p, a[0], codec, boldLabels), a[1..], b, codec, boldLabels);
    }
  }

  /** What ends up on paper when a printer is sent these bytes. */
  function Printed(bytes: seq<Byte>): Option<State> {
    match Tokenize(bytes)
    case None => None
    case Some(tokens) => Some(Run(POWER_ON, tokens))
  }

  lemma CleanPaper(calls: seq<Call>, codec: Codec, boldLabels: bool)
    requires Clean(calls, codec)
    ensures Printed(Build(calls, codec, boldLabels)) == Some(AfterCalls(POWER_ON, calls, codec, boldLabels))
  {
    DecodesExactlyWhenClean(calls, codec, boldLabels);
    RunConcat(POWER_ON, [TInit], AllTokens(calls, codec, boldLabels));
    RunOne(POWER_ON, TInit);
    RunCalls(POWER_ON, calls, codec, boldLabels);
  }

  ghost predicate InRange(calls: seq<Call>) { forall i :: 0 <= i < |calls| ==> SizeInRange(calls[i]) }

  // ---- Paper printed through the tokenizer shows no control byte ------------

  predicate PlainCells(cells: seq<Cell>) { forall i :: 0 <= i < |cells| ==> Plain(cells[i].b) }

  predicate PlainPaper(p: State) {
    PlainCells(p.current) && forall i :: 0 <= i < |p.lines| ==> PlainCells(p.lines[i].cells)
  }

  lemma {:induction false} TokensPrintPlain(p: State, tokens: seq<Token>)
    requires PlainPaper(p) && forall t :: t in tokens ==> Proper(t)
    ensures PlainPaper(Run(p, tokens))
    decreases |tokens|
  {
    if tokens != [] {
      assert tokens[0] in tokens && forall t :: t in tokens[1..] ==> t in tokens;
      TokensPrintPlain(Execute(p, tokens[0]), tokens[1..]);
    }
  }

  lemma {:induction false} LinesGrow(p: State, calls: seq<Call>, codec: Codec, boldLabels: bool)
    ensures p.lines <= AfterCalls(p, calls, codec, boldLabels).lines
    decreases |calls|
  {
    if calls != [] { LinesGrow(AfterCall(p, calls[0], codec, boldLabels), calls[1..], codec, boldLabels); }
  }

  lemma UncleanCells(text: string, codec: Codec, bold: bool, w: int, h: int)
    requires !CleanText(text, codec)
    ensures !PlainCells(Cells(text, codec, bold, w, h))
  {
    var i :| 0 <= i < |text| && !Plain(codec(text[i]));
    assert Cells(text, codec, bold, w, h)[i].b == codec(text[i]);
  }

  lemma PlainParts(a: seq<Cell>, b: seq<Cell>)
    ensures PlainCells(a + b) <==> PlainCells(a) && PlainCells(b)
  {
    assert forall i :: 0 <= i < |a| ==> (a + b)[i] == a[i];
    assert forall i :: 0 <= i < |b| ==> (a + b)[|a| + i] == b[i];
  }

  lemma UncleanLine(p: State, call: Call, codec: Codec, boldLabels: bool)
    requires SizeInRange(call) && !CleanCall(call, codec)
    ensures var lines := LinesOf(p, call, codec, boldLabels); |lines| == 1 && !PlainCells(lines[0].cells)
  {
    var i :| 0 <= i < |TextsOf(call)| && !CleanText(TextsOf(call)[i], codec);
    match call
    case BoldLine(text) => UncleanCells(text, codec, true, p.w, p.h);
    case WriteLine(text) => UncleanCells(text, codec, false, p.w, p.h);
    case KvLine(key, value, width) =>
      var rest := Repeat(' ', Gap(key, value, width)) + value;
      PlainParts(Cells(key, codec, boldLabels, p.w, p.h), Cells(rest, codec, false, p.w, p.h));
      UncleanCells(TextsOf(call)[i], codec, i == 0 && boldLabels, p.w, p.h);
    case Divider(width, mark) => UncleanCells(Repeat(mark, width), codec, false, p.w, p.h);
  }

  lemma {:induction false} UncleanPaper(p: State, calls: seq<Call>, codec: Codec, boldLabels: bool)
    requires InRange(calls) && !Clean(calls, codec)
    ensures !PlainPaper(AfterCalls(p, calls, codec, boldLabels))
    decreases |calls|
  {
    var q := AfterCall(p, calls[0], codec, boldLabels);
    if CleanCall(calls[0], codec) {
      var i :| 0 <= i < |calls| && !CleanCall(calls[i], codec);
      assert calls[1..][i - 1] == calls[i];
      UncleanPaper(q, calls[1..], codec, boldLabels);
    } else {
      UncleanLine(p, calls[0], codec, boldLabels);
      LinesGrow(q, calls[1..], codec, boldLabels);
      assert q.lines[|p.lines|] == AfterCalls(p, calls, codec, boldLabels).lines[|p.lines|];
    }
  }

  /**
    The bytes print what the calls mean, read from the bytes alone, exactly when no text holds
    an ESC, GS or LF byte.
   */
  lemma PaperOfBytes(calls: seq<Call>, codec: Codec, boldLabels: bool)
    requires InRange(calls)
    ensures Printed(Build(calls, codec, boldLabels)) == Some(AfterCalls(POWER_ON, calls, codec, boldLabels))
      <==> Clean(calls, codec)
  {
    if Clean(calls, codec) {
      CleanPaper(calls, codec, boldLabels);
    } else {
      var bytes := Build(calls, codec, boldLabels);
      UncleanPaper(POWER_ON, calls, codec, boldLabels);
      OnlyProperTokens(bytes);
      if Tokenize(bytes).Some? { TokensPrintPlain(POWER_ON, Tokenize(bytes).value); }
    }
  }

  // ---- The printer after text with line feeds in it -------------------------

  /** Same settings, at the start of a line, with the same cuts except for where they are. */
  predicate Alike(p: State, q: State) {
    && p.bold == q.bold && p.w == q.w && p.h == q.h && p.align == q.align && p.font == q.font
    && p.current == q.current == [] && |p.cuts| == |q.cuts|
    && (forall i :: 0 <= i < |p.cuts| ==> p.cuts[i].partial == q.cuts[i].partial)
    && (JustCut(p) <==> JustCut(q)) && CutsOnPaper(p) && CutsOnPaper(q)
  }

  predicate JustCut(p: State) { p.cuts != [] && p.cuts[|p.cuts| - 1].after == |p.lines| }

  predicate CutsOnPaper(p: State) { forall i :: 0 <= i < |p.cuts| ==> p.cuts[i].after <= |p.lines| }

  predicate IsText(tokens: seq<Token>) { forall i :: 0 <= i < |tokens| ==> tokens[i].TLine? || tokens[i].TByte? }

  /** Text moves the print head and nothing else. */
  lemma {:induction false} TextOnlyPrints(p: State, tokens: seq<Token>)
    requires IsText(tokens)
    ensures var q := Run(p, tokens);
      q == p.(current := q.current, lines := q.lines) && |q.lines| >= |p.lines|
    decreases |tokens|
  {
    if tokens != [] { TextOnlyPrints(Execute(p, tokens[0]), tokens[1..]); }
  }

  lemma TextThenLine(p: State, tokens: seq<Token>)
    requires IsText(tokens)
    ensures var q := Run(p, tokens + [TLine]);
      q == p.(current := [], lines := q.lines) && |q.lines| > |p.lines|
  {
    TextOnlyPrints(p, tokens);
    RunConcat(p, tokens, [TLine]);
    RunOne(Run(p, tokens), TLine);
  }

  lemma BoldThenLine(p: State, key: seq<Token>, rest: seq<Token>)
    requires IsText(key) && IsText(rest) && !p.bold
    ensures var q := Run(p, [TBold(true)] + key + [TBold(false)] + rest + [TLine]);
      q == p.(current := [], lines := q.lines) && |q.lines| > |p.lines|
  {
    var on := Execute(p, TBold(true));
    RunOne(p, TBold(true));
    RunConcat(p, [TBold(true)], key);
    TextOnlyPrints(on, key);
    var labelled := Run(on, key);
    RunConcat(p, [TBold(true)] + key, [TBold(false)]);
    RunOne(labelled, TBold(false));
    RunConcat(p, [TBold(true)] + key + [TBold(false)], rest + [TLine]);
    assert [TBold(true)] + key + [TBold(false)] + (rest + [TLine])
        == [TBold(true)] + key + [TBold(false)] + rest + [TLine];
    TextThenLine(Execute(labelled, TBold(false)), rest);
  }

  lemma BoldLineEnds(p: State, text: seq<Token>)
    requires IsText(text) && !p.bold
    ensures var q := Run(p, [TBold(true)] + text + [TLine, TBold(false)]);
      q == p.(current := [], lines := q.lines) && |q.lines| > |p.lines|
  {
    var on := Execute(p, TBold(true));
    RunOne(p, TBold(true));
    RunConcat(p, [TBold(true)], text + [TLine]);
    TextThenLine(on, text);
    RunConcat(p, [TBold(true)] + (text + [TLine]), [TBold(false)]);
    RunOne(Run(on, text + [TLine]), TBold(false));
    assert [TBold(true)] + (text + [TLine]) + [TBold(false)] == [TBold(true)] + text + [TLine, TBold(false)];
  }

  predicate IsLineCall(call: Call) { call.BoldLine? || call.WriteLine? || call.KvLine? || call.Divider? }

  lemma LineCallEnds(p: State, call: Call, codec: Codec, boldLabels: bool)
    requires IsLineCall(call) && !p.bold
    ensures var q := Run(p, ReadAs(call, codec, boldLabels));
      q == p.(current := [], lines := q.lines) && |q.lines| > |p.lines|
  {
    match call
    case BoldLine(text) => BoldLineEnds(p, TextTokens(text, codec));
    case WriteLine(text) => TextThenLine(p, TextTokens(text, codec));
    case KvLine(key, value, width) =>
      var rest := Repeat(' ', Gap(key, value, width)) + value;
      if boldLabels {
        BoldThenLine(p, TextTokens(key, codec), TextTokens(rest, codec));
      } else {
        TextThenLine(p, TextTokens(key + rest, codec));
      }
    case Divider(width, mark) => TextThenLine(p, TextTokens(Repeat(mark, width), codec));
  }

  lemma LinesKeepAlike(p: State, q: State, p1: State, q1: State)
    requires Alike(p, q) && p1 == p.(lines := p1.lines) && q1 == q.(lines := q1.lines)
    requires |p1.lines| >= |p.lines| && |q1.lines| >= |q.lines|
    requires |p1.lines| > |p.lines| <==> |q1.lines| > |q.lines|
    ensures Alike(p1, q1)
  {
  }

  /** The token of a call that is a single command, apart from feeds and lines. */
  function CommandOf(call: Call): Option<Token> {
    match call
    case SetAlign(mode) => Some(TAlign(mode))
    case SetFont(font) => Some(TFont(font))
    case SetTextSize(w, h) => Some(TSize(w, h))
    case Cut(partial) => Some(TCut(partial))
    case _ => None
  }

  lemma CommandKeepsAlike(p: State, q: State, t: Token)
    requires Alike(p, q) && !p.bold && (t.TAlign? || t.TFont? || t.TSize? || t.TCut?)
    ensures Alike(Execute(p, t), Execute(q, t)) && !Execute(q, t).bold
  {
  }

  lemma CommandRuns(p: State, q: State, call: Call, codec: Codec, boldLabels: bool)
    requires CommandOf(call).Some? && SizeInRange(call)
    ensures Run(p, ReadAs(call, codec, boldLabels)) == Execute(p, CommandOf(call).value)
    ensures AfterCall(q, call, codec, boldLabels) == Execute(q, CommandOf(call).value)
  {
    RunOne(p, CommandOf(call).value);
  }

  lemma LinesRun(p: State, q: State, call: Call, codec: Codec, boldLabels: bool)
    requires CommandOf(call).None? && !p.bold && p.current == []
    ensures var p1, q1 := Run(p, ReadAs(call, codec, boldLabels)), AfterCall(q, call, codec, boldLabels);
      && p1 == p.(lines := p1.lines) && q1 == q.(lines := q1.lines)
      && |p1.lines| >= |p.lines| && |q1.lines| >= |q.lines|
      && (|p1.lines| > |p.lines| <==> |q1.lines| > |q.lines|)
  {
    if call.Feed? {
      RunFeed(p, call.n);
    } else {
      LineCallEnds(p, call, codec, boldLabels);
      LineCallPrintsOne(q, call, codec, boldLabels);
    }
  }

  lemma CallKeepsAlike(p: State, q: State, call: Call, codec: Codec, boldLabels: bool)
    requires Alike(p, q) && !p.bold && SizeInRange(call)
    ensures Alike(Run(p, ReadAs(call, codec, boldLabels)), AfterCall(q, call, codec, boldLabels))
    ensures !AfterCall(q, call, codec, boldLabels).bold
  {
    if CommandOf(call).Some? {
      CommandRuns(p, q, call, codec, boldLabels);
      CommandKeepsAlike(p, q, CommandOf(call).value);
    } else {
      LinesRun(p, q, call, codec, boldLabels);
      LinesKeepAlike(p, q, Run(p, ReadAs(call, codec, boldLabels)), AfterCall(q, call, codec, boldLabels));
    }
  }

  lemma LineCallPrintsOne(q: State, call: Call, codec: Codec, boldLabels: bool)
    requires IsLineCall(call)
    ensures var q1 := AfterCall(q, call, codec, boldLabels);
      q1 == q.(lines := q1.lines) && |q1.lines| == |q.lines| + 1
  {
  }

  lemma {:induction false} CallsKeepAlike(p: State, q: State, calls: seq<Call>, codec: Codec, boldLabels: bool)
    requires Alike(p, q) && !p.bold && InRange(calls)
    ensures Alike(Run(p, AllReadAs(calls, codec, boldLabels)), AfterCalls(q, calls, codec, boldLabels))
    decreases |calls|
  {
    if calls != [] {
      var tokens := ReadAs(calls[0], codec, boldLabels);
      CallKeepsAlike(p, q, calls[0], codec, boldLabels);
      RunConcat(p, tokens, AllReadAs(calls[1..], codec, boldLabels));
      CallsKeepAlike(Run(p, tokens), AfterCall(q, calls[0], codec, boldLabels), calls[1..], codec, boldLabels);
    }
  }

  /** Line feeds in the text add lines, but leave the printer as the calls do. */
  lemma FinalState(calls: seq<Call>, codec: Codec, boldLabels: bool)
    requires InRange(calls) && Safe(calls, codec)
    ensures var printed := Printed(Build(calls, codec, boldLabels));
      printed.Some? && Alike(printed.value, AfterCalls(POWER_ON, calls, codec, boldLabels))
  {
    ReadBuild(calls, codec, boldLabels);
    RunConcat(POWER_ON, [TInit], AllReadAs(calls, codec, boldLabels));
    RunOne(POWER_ON, TInit);
    CallsKeepAlike(POWER_ON, POWER_ON, calls, codec, boldLabels);
  }

  // ---- Widths ---------------------------------------------------------------

  /** How many columns of single-width characters a line takes. */
  function Columns(cells: seq<Cell>): int {
    if cells == [] then 0 else cells[0].w + Columns(cells[1..])
  }

  /** Characters of one width take that many columns each. */
  lemma {:induction false} UniformColumns(cells: seq<Cell>, w: int)
    requires forall i :: 0 <= i < |cells| ==> cells[i].w == w
    ensures Columns(cells) == |cells| * w
  {
    if cells != [] { UniformColumns(cells[1..], w); }
  }

  /**
    A label line takes the whole paper exactly at single width and when label, value and
    one blank fit. At every size it takes the paper's width, or what label, value and one
    blank need if that is more, times the width of a character.
   */
  lemma KvLineWidth(p: State, key: string, value: string, width: int, codec: Codec, boldLabels: bool)
    requires p.w >= 1
    ensures var lines, needed := LinesOf(p, KvLine(key, value, width), codec, boldLabels), |key| + 1 + |value|;
      && |lines| == 1
      && Columns(lines[0].cells) == (if needed <= width then width else needed) * p.w
      && (Columns(lines[0].cells) == width <==> p.w == 1 && needed <= width)
  {
    var cells, needed := LinesOf(p, KvLine(key, value, width), codec, boldLabels)[0].cells, |key| + 1 + |value|;
    UniformColumns(cells, p.w);
    assert |cells| == if needed <= width then width else needed;
    if p.w > 1 { MoreThan(|cells|, p.w); }
  }

  lemma MoreThan(n: int, w: int)
    requires n >= 1 && w >= 2
    ensures n * w > n
  {
  }
}
