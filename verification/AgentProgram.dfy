/**
  The Windows agent (client/ResaPrint.Agent/Worker.cs) and the C# port of the byte
  builder it renders with (client/ResaPrint.Shared/Escpos/EscposBuilder.cs).
 */
module AgentProgram {
  import opened Wrappers
  import opened Escpos
  import opened Lines
  import Printer
  import Receipt
  import Queue = PrintQueue
  import Delivery = PrintDelivery

  // ---- The C# commands --------------------------------------------------------

  function Flatten(parts: seq<seq<Byte>>): seq<Byte> {
    if parts == [] then [] else parts[0] + Flatten(parts[1..])
  }

  lemma {:induction false} FlattenSplit(parts: seq<seq<Byte>>, i: nat)
    requires i <= |parts|
    ensures Flatten(parts) == Flatten(parts[..i]) + Flatten(parts[i..])
  {
    if i > 0 {
      FlattenSplit(parts[1..], i - 1);
      assert parts[..i][1..] == parts[1..][..i - 1];
    }
  }

  lemma FlattenOneMore(parts: seq<seq<Byte>>, i: nat)
    requires i < |parts|
    ensures Flatten(parts[..i + 1]) == Flatten(parts[..i]) + parts[i]
    ensures |Flatten(parts[..i])| + |parts[i]| <= |Flatten(parts)|
  {
    FlattenSplit(parts[..i + 1], i);
    assert parts[..i + 1][..i] == parts[..i] && parts[..i + 1][i..] == [parts[i]];
    assert Flatten([parts[i]]) == parts[i];
    FlattenSplit(parts, i + 1);
  }

  /** Lengths first, then one block copy per part. */
  method Concat(parts: seq<seq<Byte>>) returns (result: array<Byte>)
    ensures fresh(result) && result[..] == Flatten(parts)
  {
    var total := 0;
    for i := 0 to |parts|
      invariant total == |Flatten(parts[..i])|
    {
      FlattenOneMore(parts, i);
      total := total + |parts[i]|;
    }
    assert parts[..|parts|] == parts;
    result := new Byte[total];
    var offset := 0;
    for i := 0 to |parts|
      invariant offset == |Flatten(parts[..i])| <= total
      invariant result[..offset] == Flatten(parts[..i])
    {
      FlattenOneMore(parts, i);
      ghost var done := result[..offset];
      forall k | 0 <= k < |parts[i]| { result[offset + k] := parts[i][k]; }
      assert result[..offset] == done && result[offset..offset + |parts[i]|] == parts[i];
      offset := offset + |parts[i]|;
      assert result[..offset] == done + parts[i];
    }
  }

  lemma FlattenFew(a: seq<Byte>, b: seq<Byte>, c: seq<Byte>)
    ensures Flatten([a, b]) == a + b && Flatten([a, b, c]) == a + b + c
  {
    assert Flatten([c]) == c + Flatten([]) == c && Flatten([b]) == b + Flatten([]) == b;
    assert [b, c][1..] == [c] && [a, b][1..] == [b] && [a, b, c][1..] == [b, c];
    assert a + (b + c) == a + b + c;
  }

  method InitCommand() returns (bytes: seq<Byte>)
    ensures bytes == Init()
  {
    FlattenFew([ESC], [0x40], []);
    var result := Concat([[ESC], [0x40]]);
    bytes := result[..];
  }

  method AlignCommand(mode: Align) returns (bytes: seq<Byte>)
    ensures bytes == AlignBytes(mode)
  {
    var code: Byte := match mode case Left => 0 case Center => 1 case Right => 2;
    FlattenFew([ESC], [0x61], [code]);
    var result := Concat([[ESC], [0x61], [code]]);
    bytes := result[..];
  }

  method BoldCommand(on: bool) returns (bytes: seq<Byte>)
    ensures bytes == BoldBytes(on)
  {
    FlattenFew([ESC], [0x45], [if on then 1 else 0]);
    var result := Concat([[ESC], [0x45], [if on then 1 else 0]]);
    bytes := result[..];
  }

  method CutCommand(partial: bool) returns (bytes: seq<Byte>)
    ensures bytes == CutBytes(partial)
  {
    FlattenFew([GS], [0x56], [if partial then 1 else 0]);
    var result := Concat([[GS], [0x56], [if partial then 1 else 0]]);
    bytes := result[..];
  }

  method LineCommand(text: string, codec: Codec) returns (bytes: seq<Byte>)
    ensures bytes == EncodeLine(text, codec)
  {
    FlattenFew(Encode(text, codec), [LF], []);
    var result := Concat([Encode(text, codec), [LF]]);
    bytes := result[..];
  }

  /**
    Byte for byte the server's builder without bold labels; a negative repeat count throws
    instead of printing nothing.
   */
  class AgentBuilder {
    const codec: Codec
    var buf: seq<Byte>
    ghost var calls: seq<Call>

    ghost predicate Valid()
      reads this
    {
      buf == Build(calls, codec, false)
    }

    constructor (codec: Codec)
      ensures Valid() && calls == [] && this.codec == codec
    {
      var start := InitCommand();
      this.codec, buf, calls := codec, start, [];
    }

    method Append(ghost call: Call, bytes: seq<Byte>)
      requires Valid() && bytes == Emit(call, codec, false)
      modifies this
      ensures Valid() && calls == old(calls) + [call]
    {
      BuildOneMore(calls, call, codec, false);
      buf, calls := buf + bytes, calls + [call];
    }

    method AlignTo(mode: Align)
      requires Valid()
      modifies this
      ensures Valid() && calls == old(calls) + [SetAlign(mode)]
    {
      var command := AlignCommand(mode);
      Append(SetAlign(mode), command);
    }

    method AddBoldLine(text: string)
      requires Valid()
      modifies this
      ensures Valid() && calls == old(calls) + [BoldLine(text)]
    {
      var on := BoldCommand(true);
      var line := LineCommand(text, codec);
      var off := BoldCommand(false);
      Append(BoldLine(text), on + line + off);
    }

    method AddLine(text: string)
      requires Valid()
      modifies this
      ensures Valid() && calls == old(calls) + [WriteLine(text)]
    {
      var line := LineCommand(text, codec);
      Append(WriteLine(text), line);
    }

    method AddKvLine(key: string, value: string, width: int)
      requires Valid()
      modifies this
      ensures Valid() && calls == old(calls) + [KvLine(key, value, width)]
    {
      var line := LineCommand(key + Repeat(' ', Gap(key, value, width)) + value, codec);
      Append(KvLine(key, value, width), line);
    }

    method AddDivider(width: int, mark: char) returns (threw: bool)
      requires Valid()
      modifies this
      ensures Valid() && threw == (width < 0)
      ensures calls == if threw then old(calls) else old(calls) + [Divider(width, mark)]
    {
      if width < 0 { return true; }
      var line := LineCommand(Repeat(mark, width), codec);
      Append(Divider(width, mark), line);
      threw := false;
    }

    method FeedLines(n: int) returns (threw: bool)
      requires Valid()
      modifies this
      ensures Valid() && threw == (n < 0)
      ensures calls == if threw then old(calls) else old(calls) + [Feed(n)]
    {
      if n < 0 { return true; }
      Append(Feed(n), FeedBytes(n));
      threw := false;
    }

    method CutPaper(partial: bool)
      requires Valid()
      modifies this
      ensures Valid() && calls == old(calls) + [Cut(partial)]
    {
      var command := CutCommand(partial);
      Append(Cut(partial), command);
    }
  }

  // ---- Rendering a job's text -------------------------------------------------

  function LineCalls(lines: seq<string>): (calls: seq<Call>)
    ensures |calls| == |lines| && forall i :: 0 <= i < |lines| ==> calls[i] == WriteLine(lines[i])
  {
    seq(|lines|, i requires 0 <= i < |lines| => WriteLine(lines[i]))
  }

  const TRAILER: seq<Call> := [Feed(3), Cut(true)]

  function Rendered(lines: seq<string>, codec: Codec): seq<Byte> { Build(LineCalls(lines) + TRAILER, codec, false) }

  /** The agent's rendering of a job. */
  method RenderJob(text: string, codec: Codec) returns (bytes: seq<Byte>)
    ensures bytes == Rendered(AgentLines(text), codec)
  {
    var builder := new AgentBuilder(codec);
    var lines := Split(text);
    ghost var trimmed := AgentLines(text);
    for i := 0 to |lines|
      invariant builder.Valid() && builder.codec == codec
      invariant builder.calls == LineCalls(trimmed[..i])
    {
      LineOneMore(trimmed, i);
      builder.AddLine(TrimEnd(lines[i]));
    }
    assert trimmed[..|lines|] == trimmed;
    var threw := builder.FeedLines(3);
    builder.CutPaper(true);
    assert builder.calls == LineCalls(trimmed) + TRAILER;
    bytes := builder.buf;
  }

  lemma LineOneMore(lines: seq<string>, i: nat)
    requires i < |lines|
    ensures LineCalls(lines[..i + 1]) == LineCalls(lines[..i]) + [WriteLine(lines[i])]
  {
  }

  /** The server's rendering of a manual job. */
  method RenderManual(text: string, codec: Codec) returns (bytes: seq<Byte>)
    ensures bytes == Rendered(ServerLines(text), codec)
  {
    var builder := new ReceiptBuilder(codec, false);
    var lines := ServerLines(text);
    for i := 0 to |lines|
      invariant builder.Valid() && builder.codec == codec && !builder.boldLabels
      invariant builder.calls == LineCalls(lines[..i])
    {
      LineOneMore(lines, i);
      builder.AddLine(lines[i]);
    }
    assert lines[..|lines|] == lines;
    builder.FeedLines(3);
    builder.CutPaper(true);
    assert builder.calls == LineCalls(lines) + TRAILER;
    bytes := builder.buf;
  }

  lemma RenderedParts(lines: seq<string>, codec: Codec)
    ensures Rendered(lines, codec) == Build(LineCalls(lines), codec, false) + EmitAll(TRAILER, codec, false)
  {
    EmitAllConcat(LineCalls(lines), TRAILER, codec, false);
  }

  lemma BlankLineIsALineFeed(lines: seq<string>, codec: Codec)
    ensures Build(LineCalls(lines + [""]), codec, false) == Build(LineCalls(lines), codec, false) + [LF]
  {
    assert LineCalls(lines + [""]) == LineCalls(lines) + [WriteLine("")];
    BuildOneMore(LineCalls(lines), WriteLine(""), codec, false);
    assert Encode("", codec) == [];
  }

  /** Both renderings of a text broken by LF or CRLF are the same bytes, save one line feed after a final line break. */
  lemma SameRendering(text: string, codec: Codec)
    requires BrokenByLineFeeds(text)
    ensures var lines := Build(LineCalls(ServerLines(text)), codec, false);
      var trailer := EmitAll(TRAILER, codec, false);
      && Rendered(ServerLines(text), codec) == lines + trailer
      && Rendered(AgentLines(text), codec) == lines + (if EndsWithLineFeed(text) then [LF] else []) + trailer
  {
    AgreeExactly(text);
    RenderedParts(ServerLines(text), codec);
    RenderedParts(AgentLines(text), codec);
    if EndsWithLineFeed(text) {
      BlankLineIsALineFeed(ServerLines(text), codec);
    } else {
      assert ServerLines(text) + [] == ServerLines(text);
      var lines := Build(LineCalls(ServerLines(text)), codec, false);
      assert lines + [] == lines;
    }
  }

  function PlainLines(lines: seq<string>, codec: Codec): (paper: seq<Printer.PaperLine>)
    ensures |paper| == |lines|
    ensures forall i :: 0 <= i < |lines| ==> paper[i] == Receipt.TextLine(lines[i], codec, false, (1, 1), Left)
  {
    seq(|lines|, i requires 0 <= i < |lines| => Receipt.TextLine(lines[i], codec, false, (1, 1), Left))
  }

  lemma PlainStep(lines: seq<string>, codec: Codec)
    requires lines != []
    ensures PlainLines(lines, codec)
        == [Receipt.TextLine(lines[0], codec, false, (1, 1), Left)] + PlainLines(lines[1..], codec)
  {
    var whole, rest := PlainLines(lines, codec), PlainLines(lines[1..], codec);
    assert whole[0] == Receipt.TextLine(lines[0], codec, false, (1, 1), Left);
    forall i | 0 <= i < |rest| ensures whole[i + 1] == rest[i] {
      assert lines[1..][i] == lines[i + 1];
    }
    Prefixed(whole, whole[0], rest);
  }

  lemma Prefixed(whole: seq<Printer.PaperLine>, first: Printer.PaperLine, rest: seq<Printer.PaperLine>)
    requires |whole| == |rest| + 1 && whole[0] == first && forall i :: 0 <= i < |rest| ==> whole[i + 1] == rest[i]
    ensures whole == [first] + rest
  {
  }

  lemma LineCallsStep(lines: seq<string>)
    requires lines != []
    ensures LineCalls(lines) == [WriteLine(lines[0])] + LineCalls(lines[1..])
  {
  }

  lemma {:induction false} LinesPrint(p: Printer.State, lines: seq<string>, codec: Codec)
    requires p.w == 1 && p.h == 1 && p.align == Left
    ensures Printer.AfterCalls(p, LineCalls(lines), codec, false) == Receipt.Added(p, PlainLines(lines, codec))
    decreases |lines|
  {
    if lines == [] {
      assert LineCalls(lines) == [] && p.lines + PlainLines(lines, codec) == p.lines;
    } else {
      var first := [Receipt.TextLine(lines[0], codec, false, (1, 1), Left)];
      PlainStep(lines, codec);
      LineCallsStep(lines);
      Receipt.FirstCall(p, WriteLine(lines[0]), LineCalls(lines[1..]), codec, false);
      LinesPrint(Receipt.Added(p, first), lines[1..], codec);
      Receipt.AddedTwice(p, first, PlainLines(lines[1..], codec));
    }
  }

  ghost predicate CleanLines(lines: seq<string>, codec: Codec) {
    forall i :: 0 <= i < |lines| ==> CleanText(lines[i], codec)
  }

  lemma CleanLineCalls(lines: seq<string>, codec: Codec)
    ensures Clean(LineCalls(lines) + TRAILER, codec) <==> CleanLines(lines, codec)
    ensures Printer.InRange(LineCalls(lines) + TRAILER)
  {
    var calls := LineCalls(lines) + TRAILER;
    forall i | 0 <= i < |lines| ensures CleanCall(calls[i], codec) <==> CleanText(lines[i], codec) {
      assert calls[i] == WriteLine(lines[i]) && TextsOf(calls[i]) == [lines[i]];
      assert TextsOf(calls[i])[0] == lines[i];
    }
    assert calls[|lines|] == Feed(3) && calls[|lines| + 1] == Cut(true);
    if Clean(calls, codec) {
      forall i | 0 <= i < |lines| ensures CleanText(lines[i], codec) {
        assert CleanCall(calls[i], codec);
      }
    }
  }

  lemma LinesOnPaper(lines: seq<string>, codec: Codec)
    ensures var paper := PlainLines(lines, codec) + Printer.Blank(3, Left);
      Printer.AfterCalls(Printer.POWER_ON, LineCalls(lines) + TRAILER, codec, false)
        == Printer.POWER_ON.(lines := paper, cuts := [Printer.PaperCut(|paper|, true)])
  {
    Printer.AfterConcat(Printer.POWER_ON, LineCalls(lines), TRAILER, codec, false);
    LinesPrint(Printer.POWER_ON, lines, codec);
    var p := Receipt.Added(Printer.POWER_ON, PlainLines(lines, codec));
    assert TRAILER == [Feed(3)] + [Cut(true)];
    Receipt.FirstCall(p, Feed(3), [Cut(true)], codec, false);
    Receipt.OneCall(Printer.AfterCall(p, Feed(3), codec, false), Cut(true), codec, false);
    var paper := PlainLines(lines, codec) + Printer.Blank(3, Left);
    assert [] + PlainLines(lines, codec) == PlainLines(lines, codec);
    assert [] + [Printer.PaperCut(|paper|, true)] == [Printer.PaperCut(|paper|, true)];
  }

  /** The bytes print these lines, this many blank ones, and one cut, and change no setting. */
  ghost predicate OnPaper(bytes: seq<Byte>, lines: seq<string>, blanks: nat, codec: Codec) {
    var paper := PlainLines(lines, codec) + Printer.Blank(blanks, Left);
    Printer.Printed(bytes) == Some(Printer.POWER_ON.(lines := paper, cuts := [Printer.PaperCut(|paper|, true)]))
  }

  /**
    A rendered job prints its lines, three blank ones and one cut, exactly when no line holds
    an ESC, GS or LF byte.
   */
  lemma RenderedPrints(lines: seq<string>, codec: Codec)
    ensures OnPaper(Rendered(lines, codec), lines, 3, codec) <==> CleanLines(lines, codec)
  {
    CleanLineCalls(lines, codec);
    Printer.PaperOfBytes(LineCalls(lines) + TRAILER, codec, false);
    LinesOnPaper(lines, codec);
  }

  lemma OneBlankMore(bytes: seq<Byte>, texts: seq<string>, codec: Codec)
    ensures OnPaper(bytes, texts + [""], 3, codec) <==> OnPaper(bytes, texts, 4, codec)
  {
    assert PlainLines(texts + [""], codec) == PlainLines(texts, codec) + [Printer.PaperLine([], Left)];
    assert PlainLines(texts + [""], codec) + Printer.Blank(3, Left)
        == PlainLines(texts, codec) + Printer.Blank(4, Left);
  }

  /** Apart from its line breaks the text is clean. */
  ghost predicate CleanButBreaks(text: string, codec: Codec) {
    forall i :: 0 <= i < |text| && text[i] != '\n' ==> Plain(codec(text[i]))
  }

  lemma {:induction false} SplitKeepsClean(text: string, codec: Codec)
    requires CleanButBreaks(text, codec)
    ensures forall k :: 0 <= k < |Split(text)| ==> CleanText(Split(text)[k], codec)
  {
    if text != "" { SplitKeepsClean(text[1..], codec); }
  }

  lemma {:induction false} JoinedIsClean(texts: seq<string>, codec: Codec)
    requires CleanLines(texts, codec)
    ensures CleanButBreaks(Receipt.Joined(texts), codec)
  {
    if texts != [] {
      var all, rest := Receipt.Joined(texts), Receipt.Joined(texts[1..]);
      assert CleanText(texts[0], codec);
      JoinedIsClean(texts[1..], codec);
      assert all == texts[0] + "\n" + rest;
      forall i | 0 <= i < |all| && all[i] != '\n' ensures Plain(codec(all[i])) {
        if i < |texts[0]| {
          assert all[i] == texts[0][i];
        } else {
          assert all[i] == rest[i - |texts[0]| - 1];
        }
      }
    }
  }

  lemma AgentLinesAreClean(texts: seq<string>, codec: Codec)
    requires CleanLines(texts, codec)
    ensures CleanLines(AgentLines(Receipt.Joined(texts)), codec)
  {
    var all := Receipt.Joined(texts);
    JoinedIsClean(texts, codec);
    SplitKeepsClean(all, codec);
    forall k | 0 <= k < |Split(all)| ensures CleanText(AgentLines(all)[k], codec) {
      TrimmedEnd(Split(all)[k]);
      assert CleanText(Split(all)[k], codec);
    }
  }

  /** Paper that came out of a printer shows no control byte, so what is on it was clean. */
  lemma PrintedLinesAreClean(bytes: seq<Byte>, texts: seq<string>, blanks: nat, codec: Codec)
    requires OnPaper(bytes, texts, blanks, codec)
    ensures CleanLines(texts, codec)
  {
    var tokens, paper := Tokenize(bytes).value, Printer.Printed(bytes).value;
    OnlyProperTokens(bytes);
    Printer.TokensPrintPlain(Printer.POWER_ON, tokens);
    forall i | 0 <= i < |texts| ensures CleanText(texts[i], codec) {
      assert paper.lines[i] == PlainLines(texts, codec)[i];
      if !CleanText(texts[i], codec) { Printer.UncleanCells(texts[i], codec, false, 1, 1); }
    }
  }

  lemma SameSizes(bytes: seq<Byte>, lines: seq<string>, texts: seq<string>, codec: Codec)
    requires OnPaper(bytes, lines, 3, codec) && OnPaper(bytes, texts, 4, codec)
    ensures |lines| == |texts| + 1 && forall i :: 0 <= i < |texts| ==> |lines[i]| == |texts[i]|
  {
    var left := PlainLines(lines, codec) + Printer.Blank(3, Left);
    var right := PlainLines(texts, codec) + Printer.Blank(4, Left);
    assert left == right && |left| == |lines| + 3 && |right| == |texts| + 4;
    forall i | 0 <= i < |texts| ensures |lines[i]| == |texts[i]| {
      assert left[i] == PlainLines(lines, codec)[i] && right[i] == PlainLines(texts, codec)[i];
    }
  }

  /**
    Every line of a text summary reaches the agent's paper unchanged and in order, then four
    blank lines and the cut, exactly when no line holds a line feed, ends with a carriage
    return or holds an ESC, GS or LF byte.
   */
  lemma SummaryReachesPaper(texts: seq<string>, codec: Codec)
    ensures OnPaper(Rendered(AgentLines(Receipt.Joined(texts)), codec), texts, 4, codec)
      <==> CleanLines(texts, codec) && forall i :: 0 <= i < |texts| ==> Survives(texts[i])
  {
    var lines := AgentLines(Receipt.Joined(texts));
    var bytes := Rendered(lines, codec);
    RenderedPrints(lines, codec);
    if CleanLines(texts, codec) && forall i :: 0 <= i < |texts| ==> Survives(texts[i]) {
      RoundTrip(texts);
      AgentLinesAreClean(texts, codec);
      OneBlankMore(bytes, texts, codec);
    }
    if OnPaper(bytes, texts, 4, codec) {
      PrintedLinesAreClean(bytes, texts, 4, codec);
      AgentLinesAreClean(texts, codec);
      SameSizes(bytes, lines, texts, codec);
      SurvivedBySize(texts);
    }
  }

  // ---- The polling loop -------------------------------------------------------

  datatype PrintJob = PrintJob(id: int, payload: string)

  /** What the printer reports, or the exception it throws. */
  datatype PrintOutcome = Reported(success: bool, error: string) | PrintThrew

  /**
    What becomes of one job: the printer's answer, whether paper came out, and whether the
    acknowledgement was answered.
   */
  datatype Outcome = Outcome(printer: PrintOutcome, onPaper: bool, answered: bool, at: int)

  datatype AckRequest = AckRequest(job: int, success: bool, error: string)

  datatype AgentStatus = AgentStatus(backendReachable: bool, lastPollAt: int, queueDepth: int,
                                     lastJobAt: int, lastJobResult: string)

  function ResultText(success: bool, error: string): string {
    if success then "printed" else "failed: " + error
  }

  predicate GoesOn(o: Outcome) { o.printer.Reported? && o.answered }

  /** How many jobs are handed to the printer: up to and including the first exception. */
  function Reached(outcomes: seq<Outcome>): (n: nat)
    ensures n <= |outcomes|
  {
    if outcomes == [] then 0 else 1 + if GoesOn(outcomes[0]) then Reached(outcomes[1..]) else 0
  }

  lemma {:induction false} ReachedIs(outcomes: seq<Outcome>, n: nat)
    requires n <= |outcomes| && forall i :: 0 <= i < n - 1 ==> GoesOn(outcomes[i])
    requires n == |outcomes| || (n > 0 && !GoesOn(outcomes[n - 1]))
    ensures Reached(outcomes) == n
  {
    if n > 1 { ReachedIs(outcomes[1..], n - 1); }
  }

  /** The acknowledgements the agent tries to send for its first n jobs. */
  function Requests(jobs: seq<PrintJob>, outcomes: seq<Outcome>, n: nat): seq<AckRequest>
    requires n <= |jobs| == |outcomes|
  {
    if n == 0 then []
    else
      var job, o := jobs[n - 1], outcomes[n - 1];
      Requests(jobs, outcomes, n - 1) +
      if o.printer.Reported? then [AckRequest(job.id, o.printer.success, o.printer.error)] else []
  }

  /** Every request says of its job what the printer said, in the order of the jobs whose print did not throw. */
  lemma {:induction false} RequestsSayOutcomes(jobs: seq<PrintJob>, outcomes: seq<Outcome>, n: nat, i: nat)
    requires i < n <= |jobs| == |outcomes| && forall j :: 0 <= j < n ==> j == n - 1 || GoesOn(outcomes[j])
    requires outcomes[i].printer.Reported?
    ensures var requests := Requests(jobs, outcomes, n);
      && i < |requests| <= n
      && requests[i].job == jobs[i].id && requests[i].success == outcomes[i].printer.success
      && requests[i].error == outcomes[i].printer.error
  {
    RequestCount(jobs, outcomes, n - 1);
    if i < n - 1 { RequestsSayOutcomes(jobs, outcomes, n - 1, i); }
  }

  lemma {:induction false} RequestCount(jobs: seq<PrintJob>, outcomes: seq<Outcome>, n: nat)
    requires n <= |jobs| == |outcomes| && forall j :: 0 <= j < n ==> GoesOn(outcomes[j])
    ensures |Requests(jobs, outcomes, n)| == n
  {
    if n > 0 { RequestCount(jobs, outcomes, n - 1); }
  }

  /** What the status endpoint reports is the last acknowledgement tried. */
  predicate ReportsLast(status: AgentStatus, tried: seq<AckRequest>) {
    tried != [] ==> status.lastJobResult == ResultText(tried[|tried| - 1].success, tried[|tried| - 1].error)
  }

  predicate SamePoll(a: AgentStatus, b: AgentStatus) {
    a.backendReachable == b.backendReachable && a.lastPollAt == b.lastPollAt && a.queueDepth == b.queueDepth
  }

  function Noted(status: AgentStatus, o: Outcome): AgentStatus {
    if o.printer.PrintThrew? then status
    else status.(lastJobAt := o.at, lastJobResult := ResultText(o.printer.success, o.printer.error))
  }

  predicate AllGoOn(outcomes: seq<Outcome>) {
    forall i :: 0 <= i < |outcomes| ==> GoesOn(outcomes[i])
  }

  class Worker {
    const gdiText: bool
    const codec: Codec
    const utf8: string -> seq<Byte>
    var status: AgentStatus
    var sent: seq<seq<Byte>>
    var requests: seq<AckRequest>

    constructor (gdiText: bool, codec: Codec, utf8: string -> seq<Byte>, status: AgentStatus)
      ensures sent == [] && requests == []
      ensures this.gdiText == gdiText && this.codec == codec && this.utf8 == utf8 && this.status == status
    {
      this.gdiText, this.codec, this.utf8, this.status := gdiText, codec, utf8, status;
      sent, requests := [], [];
    }

    function BytesFor(text: string): seq<Byte> {
      if gdiText then utf8(text) else Rendered(AgentLines(text), codec)
    }

    function BytesForAll(jobs: seq<PrintJob>): (all: seq<seq<Byte>>)
      ensures |all| == |jobs| && forall i :: 0 <= i < |jobs| ==> all[i] == BytesFor(jobs[i].payload)
    {
      seq(|jobs|, i requires 0 <= i < |jobs| => BytesFor(jobs[i].payload))
    }

    /** Print one job and acknowledge it, unless the printer throws. */
    method ProcessJob(job: PrintJob, o: Outcome) returns (threw: bool)
      modifies this
      ensures threw <==> o.printer.PrintThrew? || !o.answered
      ensures o.printer.Reported? && o.printer.success ==> status.lastJobAt == o.at && status.lastJobResult == "printed"
      ensures o.printer.Reported? && !o.printer.success ==>
        status.lastJobAt == o.at && status.lastJobResult == "failed: " + o.printer.error
      ensures sent == old(sent) + [BytesFor(job.payload)]
      ensures requests == old(requests)
          + if o.printer.Reported? then [AckRequest(job.id, o.printer.success, o.printer.error)] else []
      ensures status == Noted(old(status), o)
    {
      var bytes;
      if gdiText { bytes := utf8(job.payload); } else { bytes := RenderJob(job.payload, codec); }
      sent := sent + [bytes];
      if o.printer.PrintThrew? { return true; }
      status := status.(lastJobAt := o.at);
      status := status.(lastJobResult := ResultText(o.printer.success, o.printer.error));
      requests := requests + [AckRequest(job.id, o.printer.success, o.printer.error)];
      threw := !o.answered;
    }

    /** One poll and its batch; an exception abandons the rest of the batch. */
    method PollOnce(reply: Option<seq<PrintJob>>, outcomes: seq<Outcome>, now: int) returns (threw: bool)
      requires reply.Some? ==> |outcomes| == |reply.value|
      modifies this
      ensures reply.None? ==> threw && status == old(status) && sent == old(sent) && requests == old(requests)
      ensures reply.Some? ==> threw == !AllGoOn(outcomes)
      ensures reply.Some? ==> sent == old(sent) + BytesForAll(reply.value[..Reached(outcomes)])
      ensures reply.Some? ==> requests == old(requests) + Requests(reply.value, outcomes, Reached(outcomes))
      ensures reply.Some? ==> status.backendReachable && status.lastPollAt == now && status.queueDepth == |reply.value|
      ensures reply.Some? ==> ReportsLast(status, Requests(reply.value, outcomes, Reached(outcomes)))
    {
      if reply.None? { return true; }
      status := status.(backendReachable := true);
      status := status.(lastPollAt := now);
      status := status.(queueDepth := |reply.value|);
      threw := ProcessBatch(reply.value, outcomes);
    }

    /** The batch, job by job, until the end or the first exception. */
    method ProcessBatch(jobs: seq<PrintJob>, outcomes: seq<Outcome>) returns (threw: bool)
      requires |outcomes| == |jobs|
      modifies this
      ensures threw == !AllGoOn(outcomes)
      ensures sent == old(sent) + BytesForAll(jobs[..Reached(outcomes)])
      ensures requests == old(requests) + Requests(jobs, outcomes, Reached(outcomes))
      ensures SamePoll(old(status), status) && ReportsLast(status, Requests(jobs, outcomes, Reached(outcomes)))
    {
      threw := false;
      var i := 0;
      while i < |jobs| && !threw
        invariant i <= |jobs|
        invariant forall j :: 0 <= j < i - 1 ==> GoesOn(outcomes[j])
        invariant if threw then i > 0 && !GoesOn(outcomes[i - 1]) else i > 0 ==> GoesOn(outcomes[i - 1])
        invariant Progress(jobs, outcomes, i, old(sent), sent, old(requests), requests, old(status), status)
        decreases |jobs| - i
      {
        ProgressOneMore(jobs, outcomes, i, old(sent), sent, old(requests), requests, old(status), status);
        threw := ProcessJob(jobs[i], outcomes[i]);
        i := i + 1;
      }
      BatchEnds(outcomes, i, threw);
    }

    lemma BatchEnds(outcomes: seq<Outcome>, i: nat, threw: bool)
      requires i <= |outcomes| && (threw || i == |outcomes|)
      requires forall j :: 0 <= j < i - 1 ==> GoesOn(outcomes[j])
      requires if threw then i > 0 && !GoesOn(outcomes[i - 1]) else i > 0 ==> GoesOn(outcomes[i - 1])
      ensures Reached(outcomes) == i && threw == !AllGoOn(outcomes)
    {
      ReachedIs(outcomes, i);
    }

    ghost predicate Progress(jobs: seq<PrintJob>, outcomes: seq<Outcome>, i: nat,
                             sent0: seq<seq<Byte>>, sent1: seq<seq<Byte>>,
                             requests0: seq<AckRequest>, requests1: seq<AckRequest>,
                             status0: AgentStatus, status1: AgentStatus)
      requires i <= |jobs| == |outcomes|
    {
      && sent1 == sent0 + BytesForAll(jobs[..i])
      && requests1 == requests0 + Requests(jobs, outcomes, i)
      && SamePoll(status0, status1) && ReportsLast(status1, Requests(jobs, outcomes, i))
    }

    lemma ProgressOneMore(jobs: seq<PrintJob>, outcomes: seq<Outcome>, i: nat,
                          sent0: seq<seq<Byte>>, sent1: seq<seq<Byte>>,
                          requests0: seq<AckRequest>, requests1: seq<AckRequest>,
                          status0: AgentStatus, status1: AgentStatus)
      requires i < |jobs| == |outcomes|
      requires Progress(jobs, outcomes, i, sent0, sent1, requests0, requests1, status0, status1)
      ensures var o := outcomes[i];
        var request := if o.printer.Reported? then [AckRequest(jobs[i].id, o.printer.success, o.printer.error)] else [];
        Progress(jobs, outcomes, i + 1, sent0, sent1 + [BytesFor(jobs[i].payload)], requests0, requests1 + request,
                 status0, Noted(status1, o))
    {
      assert BytesForAll(jobs[..i + 1]) == BytesForAll(jobs[..i]) + [BytesFor(jobs[i].payload)];
    }

    /** One turn of the service loop: any exception only marks the backend as unreachable. */
    method Turn(reply: Option<seq<PrintJob>>, outcomes: seq<Outcome>, now: int)
      requires reply.Some? ==> |outcomes| == |reply.value|
      modifies this
      ensures status.backendReachable == (reply.Some? && AllGoOn(outcomes))
      ensures sent == old(sent) + if reply.Some? then BytesForAll(reply.value[..Reached(outcomes)]) else []
      ensures requests == old(requests) + if reply.Some? then Requests(reply.value, outcomes, Reached(outcomes)) else []
    {
      var threw := PollOnce(reply, outcomes, now);
      if threw {
        status := status.(backendReachable := false);
      }
    }
  }

  // ---- The loop as steps of the protocol --------------------------------------

  /** The steps agent k takes on its batch. */
  function StepsOf(k: nat, jobs: seq<PrintJob>, outcomes: seq<Outcome>): seq<Delivery.Step>
    requires |jobs| == |outcomes|
  {
    if jobs == [] then [Delivery.Finish(k)]
    else StepsOn(k, outcomes[0]) + if GoesOn(outcomes[0]) then StepsOf(k, jobs[1..], outcomes[1..]) else []
  }

  function StepsOn(k: nat, o: Outcome): seq<Delivery.Step> {
    match o.printer
    case PrintThrew => [Delivery.PrintThrows(k, o.onPaper)]
    case Reported(success, error) =>
      [Delivery.Print(k, success, o.onPaper)] +
      (if o.answered then [Delivery.AckArrives(k, Some(error), o.at), Delivery.AckReplyArrives(k)]
       else [Delivery.Abandon(k)])
  }

  /** A printer that reports success has put the job on paper. */
  predicate Honest(outcomes: seq<Outcome>) {
    forall i ::
        0 <= i < |outcomes| && outcomes[i].printer.Reported? && outcomes[i].printer.success ==> outcomes[i].onPaper
  }

  function Ids(jobs: seq<PrintJob>): (ids: seq<int>)
    ensures |ids| == |jobs| && forall i :: 0 <= i < |jobs| ==> ids[i] == jobs[i].id
  {
    seq(|jobs|, i requires 0 <= i < |jobs| => jobs[i].id)
  }

  /** The server after the acknowledgements it answered, in the order the agent sent them. */
  function AnsweredBy(s: Queue.Server, station: int, jobs: seq<PrintJob>, outcomes: seq<Outcome>): Queue.Server
    requires |jobs| == |outcomes|
    decreases |jobs|
  {
    if jobs == [] || !GoesOn(outcomes[0]) then s
    else
      var p := outcomes[0].printer;
      AnsweredBy(Queue.Ack(s, station, jobs[0].id, Delivery.StatusOf(p.success), Some(p.error), outcomes[0].at),
                 station, jobs[1..], outcomes[1..])
  }

  lemma {:induction false} RunConcat(w: Delivery.World, a: seq<Delivery.Step>, b: seq<Delivery.Step>)
    ensures Delivery.Run(w, a + b) == Delivery.Run(Delivery.Run(w, a), b)
    decreases |a|
  {
    if a == [] {
      assert a + b == b;
    } else {
      assert (a + b)[1..] == a[1..] + b;
      RunConcat(Delivery.Next(w, a[0]), a[1..], b);
    }
  }

  lemma TwoSteps(w: Delivery.World, a: Delivery.Step, b: Delivery.Step)
    ensures Delivery.Run(w, [a]) == Delivery.Next(w, a)
    ensures Delivery.Run(w, [a, b]) == Delivery.Next(Delivery.Next(w, a), b)
  {
    assert [a, b][1..] == [b] && [b][1..] == [] && [a][1..] == [];
    assert Delivery.Run(Delivery.Next(w, a), [b]) == Delivery.Run(Delivery.Next(Delivery.Next(w, a), b), []);
  }

  /** Printed and acknowledged: the job at the head of the batch is done with. */
  ghost predicate HeadDone(w: Delivery.World, v: Delivery.World, k: nat, batch: seq<int>, o: Outcome)
    requires k < |w.agents| && batch != [] && o.printer.Reported?
  {
    && v.agents == w.agents[k := w.agents[k].(phase := Delivery.Working(batch[1..]))]
    && v.ledger.prints == w.ledger.prints + multiset{batch[0]}
    && v.ledger.dropped == w.ledger.dropped
    && v.server == Queue.Ack(w.server, w.agents[k].station, batch[0], Delivery.StatusOf(o.printer.success),
                             Some(o.printer.error), o.at)
  }

  ghost predicate HeadPrinted(w: Delivery.World, v: Delivery.World, k: nat, batch: seq<int>, reported: bool)
    requires k < |w.agents| && batch != []
  {
    && v.agents == w.agents[k := w.agents[k].(phase := Delivery.Acking(batch[0], reported, batch[1..]))]
    && v.ledger.prints == w.ledger.prints + multiset{batch[0]} && v.ledger.dropped == w.ledger.dropped
    && v.server == w.server
  }

  lemma Printing(w: Delivery.World, k: nat, batch: seq<int>, reported: bool, onPaper: bool)
    requires k < |w.agents| && w.agents[k].phase == Delivery.Working(batch) && batch != []
    requires reported ==> onPaper
    ensures HeadPrinted(w, Delivery.Next(w, Delivery.Print(k, reported, onPaper)), k, batch, reported)
  {
  }

  lemma Acknowledging(w: Delivery.World, v: Delivery.World, k: nat, batch: seq<int>, o: Outcome)
    requires k < |w.agents| && batch != [] && o.printer.Reported? && HeadPrinted(w, v, k, batch, o.printer.success)
    ensures HeadDone(w, Delivery.Next(Delivery.Next(v, Delivery.AckArrives(k, Some(o.printer.error), o.at)),
                                      Delivery.AckReplyArrives(k)), k, batch, o)
  {
    var next := Delivery.Next(v, Delivery.AckArrives(k, Some(o.printer.error), o.at));
    assert next.agents == v.agents[k := v.agents[k].(phase := Delivery.Acked(batch[1..]))];
  }

  /** One job's steps, when the loop goes on: printed, acknowledged, and back to work on the rest. */
  lemma OneJobSteps(w: Delivery.World, k: nat, batch: seq<int>, o: Outcome)
    requires k < |w.agents| && w.agents[k].phase == Delivery.Working(batch) && batch != []
    requires GoesOn(o) && (o.printer.success ==> o.onPaper)
    ensures HeadDone(w, Delivery.Run(w, StepsOn(k, o)), k, batch, o)
  {
    var printing := Delivery.Print(k, o.printer.success, o.onPaper);
    Delivery.ThreeSteps(w, printing, Delivery.AckArrives(k, Some(o.printer.error), o.at), Delivery.AckReplyArrives(k));
    Printing(w, k, batch, o.printer.success, o.onPaper);
    Acknowledging(w, Delivery.Next(w, printing), k, batch, o);
  }

  lemma ThrownSteps(w: Delivery.World, k: nat, batch: seq<int>, onPaper: bool)
    requires k < |w.agents| && w.agents[k].phase == Delivery.Working(batch) && batch != []
    ensures var v := Delivery.Next(w, Delivery.PrintThrows(k, onPaper));
      && v.agents == w.agents[k := w.agents[k].(phase := Delivery.Idle)]
      && v.ledger.prints == w.ledger.prints + multiset{batch[0]}
      && v.ledger.dropped == w.ledger.dropped + multiset(batch[1..])
      && v.server == w.server
  {
  }

  lemma UnansweredSteps(w: Delivery.World, k: nat, batch: seq<int>, reported: bool, onPaper: bool)
    requires k < |w.agents| && w.agents[k].phase == Delivery.Working(batch) && batch != []
    requires reported ==> onPaper
    ensures var v := Delivery.Next(Delivery.Next(w, Delivery.Print(k, reported, onPaper)), Delivery.Abandon(k));
      && v.agents == w.agents[k := w.agents[k].(phase := Delivery.Idle)]
      && v.ledger.prints == w.ledger.prints + multiset{batch[0]}
      && v.ledger.dropped == w.ledger.dropped + multiset(batch[1..])
      && v.server == w.server
  {
    Printing(w, k, batch, reported, onPaper);
    Abandoning(w, Delivery.Next(w, Delivery.Print(k, reported, onPaper)), k, batch, reported);
  }

  lemma Abandoning(w: Delivery.World, v: Delivery.World, k: nat, batch: seq<int>, reported: bool)
    requires k < |w.agents| && batch != [] && HeadPrinted(w, v, k, batch, reported)
    ensures var end := Delivery.Next(v, Delivery.Abandon(k));
      && end.agents == w.agents[k := w.agents[k].(phase := Delivery.Idle)]
      && end.ledger.prints == w.ledger.prints + multiset{batch[0]}
      && end.ledger.dropped == w.ledger.dropped + multiset(batch[1..])
      && end.server == w.server
  {
    Delivery.GivenUpParts(v, k);
    assert Delivery.InHand(v.agents[k].phase) == batch[1..];
    assert v.agents[k := v.agents[k].(phase := Delivery.Idle)] == w.agents[k := w.agents[k].(phase := Delivery.Idle)];
  }

  /** The steps of the job at which the loop stops. */
  lemma LastJobSteps(w: Delivery.World, k: nat, batch: seq<int>, o: Outcome)
    requires k < |w.agents| && w.agents[k].phase == Delivery.Working(batch) && batch != []
    requires !GoesOn(o) && (o.printer.Reported? && o.printer.success ==> o.onPaper)
    ensures var v := Delivery.Run(w, StepsOn(k, o));
      && v.agents == w.agents[k := w.agents[k].(phase := Delivery.Idle)]
      && v.ledger.prints == w.ledger.prints + multiset{batch[0]}
      && v.ledger.dropped == w.ledger.dropped + multiset(batch[1..])
      && v.server == w.server
  {
    match o.printer
    case PrintThrew =>
      TwoSteps(w, Delivery.PrintThrows(k, o.onPaper), Delivery.Finish(k));
      ThrownSteps(w, k, batch, o.onPaper);
    case Reported(success, _) =>
      assert StepsOn(k, o) == [Delivery.Print(k, success, o.onPaper), Delivery.Abandon(k)];
      TwoSteps(w, Delivery.Print(k, success, o.onPaper), Delivery.Abandon(k));
      UnansweredSteps(w, k, batch, success, o.onPaper);
  }

  /** Agent k is done with its batch: the first n jobs printed, the others dropped. */
  ghost predicate BatchOver(w: Delivery.World, v: Delivery.World, k: nat, jobs: seq<PrintJob>, n: nat)
    requires n <= |jobs| && k < |w.agents|
  {
    && v.agents == w.agents[k := w.agents[k].(phase := Delivery.Idle)]
    && v.ledger.prints == w.ledger.prints + multiset(Ids(jobs[..n]))
    && v.ledger.dropped == w.ledger.dropped + multiset(Ids(jobs[n..]))
  }

  lemma BatchContinues(w: Delivery.World, v: Delivery.World, end: Delivery.World, k: nat, jobs: seq<PrintJob>, n: nat)
    requires 1 <= n <= |jobs| && k < |w.agents| && |v.agents| == |w.agents|
    requires v.agents == w.agents[k := v.agents[k]] && v.agents[k].station == w.agents[k].station
    requires v.ledger.prints == w.ledger.prints + multiset{jobs[0].id} && v.ledger.dropped == w.ledger.dropped
    requires BatchOver(v, end, k, jobs[1..], n - 1)
    ensures BatchOver(w, end, k, jobs, n)
  {
    assert jobs[n..] == jobs[1..][n - 1..];
    assert jobs[..n][1..] == jobs[1..][..n - 1];
    IdsFirst(jobs[..n]);
  }

  lemma BatchStops(w: Delivery.World, v: Delivery.World, k: nat, jobs: seq<PrintJob>)
    requires jobs != [] && k < |w.agents|
    requires v.agents == w.agents[k := w.agents[k].(phase := Delivery.Idle)]
    requires v.ledger.prints == w.ledger.prints + multiset{Ids(jobs)[0]}
    requires v.ledger.dropped == w.ledger.dropped + multiset(Ids(jobs)[1..])
    ensures BatchOver(w, v, k, jobs, 1)
  {
    assert Ids(jobs[..1]) == [jobs[0].id];
    assert Ids(jobs[1..]) == Ids(jobs)[1..];
  }

  /**
    The loop's steps have processed the batch: jobs reached are printed, the others dropped,
    answered reports stored.
   */
  ghost predicate LoopDone(w: Delivery.World, end: Delivery.World, k: nat, jobs: seq<PrintJob>, outcomes: seq<Outcome>)
    requires |jobs| == |outcomes| && k < |w.agents|
  {
    && BatchOver(w, end, k, jobs, Reached(outcomes))
    && end.server == AnsweredBy(w.server, w.agents[k].station, jobs, outcomes)
  }

  lemma LoopStops(w: Delivery.World, k: nat, jobs: seq<PrintJob>, outcomes: seq<Outcome>)
    requires |jobs| == |outcomes| && jobs != [] && Honest(outcomes) && !GoesOn(outcomes[0])
    requires k < |w.agents| && w.agents[k].phase == Delivery.Working(Ids(jobs))
    ensures LoopDone(w, Delivery.Run(w, StepsOf(k, jobs, outcomes)), k, jobs, outcomes)
  {
    var o := outcomes[0];
    assert StepsOf(k, jobs, outcomes) == StepsOn(k, o);
    LastJobSteps(w, k, Ids(jobs), o);
    BatchStops(w, Delivery.Run(w, StepsOn(k, o)), k, jobs);
  }

  lemma LoopGoesOn(w: Delivery.World, v: Delivery.World, end: Delivery.World, k: nat, jobs: seq<PrintJob>,
                   outcomes: seq<Outcome>)
    requires |jobs| == |outcomes| && jobs != [] && Honest(outcomes) && GoesOn(outcomes[0])
    requires k < |w.agents| && w.agents[k].phase == Delivery.Working(Ids(jobs))
    requires v == Delivery.Run(w, StepsOn(k, outcomes[0]))
    requires |v.agents| == |w.agents| && LoopDone(v, end, k, jobs[1..], outcomes[1..])
    ensures LoopDone(w, end, k, jobs, outcomes)
  {
    OneJobSteps(w, k, Ids(jobs), outcomes[0]);
    BatchContinues(w, v, end, k, jobs, Reached(outcomes));
  }

  /**
    What the polling loop does to a batch is a run of the protocol: exactly the jobs it
    handed to the printer count as printed, exactly the others as dropped, and the
    server has processed exactly the acknowledgements that were answered.
   */
  lemma {:induction false} LoopIsARun(w: Delivery.World, k: nat, jobs: seq<PrintJob>, outcomes: seq<Outcome>)
    requires |jobs| == |outcomes| && Honest(outcomes)
    requires k < |w.agents| && w.agents[k].phase == Delivery.Working(Ids(jobs))
    ensures LoopDone(w, Delivery.Run(w, StepsOf(k, jobs, outcomes)), k, jobs, outcomes)
    decreases |jobs|
  {
    if jobs == [] {
      TwoSteps(w, Delivery.Finish(k), Delivery.Finish(k));
      assert Ids(jobs[..0]) == [] && Ids(jobs[0..]) == [];
    } else if !GoesOn(outcomes[0]) {
      LoopStops(w, k, jobs, outcomes);
    } else {
      var v, rest := Delivery.Run(w, StepsOn(k, outcomes[0])), StepsOf(k, jobs[1..], outcomes[1..]);
      RunConcat(w, StepsOn(k, outcomes[0]), rest);
      assert Ids(jobs)[1..] == Ids(jobs[1..]);
      OneJobSteps(w, k, Ids(jobs), outcomes[0]);
      LoopIsARun(v, k, jobs[1..], outcomes[1..]);
      LoopGoesOn(w, v, Delivery.Run(v, rest), k, jobs, outcomes);
    }
  }

  lemma IdsFirst(jobs: seq<PrintJob>)
    requires jobs != []
    ensures multiset(Ids(jobs)) == multiset{jobs[0].id} + multiset(Ids(jobs[1..]))
  {
    assert Ids(jobs) == [jobs[0].id] + Ids(jobs[1..]);
  }
}
