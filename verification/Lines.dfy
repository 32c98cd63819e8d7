/**
  Text and its lines. The server breaks a manual job's text with `splitlines`
  (backend/app/routers/print_jobs.py); the agent breaks the same text at line feeds
  and trims carriage returns (client/ResaPrint.Agent/Worker.cs). The two agree on
  exactly one class of texts.
 */
module Lines {
  import opened Receipt

  // ---- The agent: Split at '\n', then TrimEnd('\r') ---------------------------

  function Split(text: string): (lines: seq<string>)
    ensures lines != []
  {
    if text == "" then [""]
    else
      var rest := Split(text[1..]);
      if text[0] == '\n' then [""] + rest else [[text[0]] + rest[0]] + rest[1..]
  }

  function TrimEnd(line: string): string {
    if line != "" && line[|line| - 1] == '\r' then TrimEnd(line[..|line| - 1]) else line
  }

  function Trimmed(lines: seq<string>): (trimmed: seq<string>)
    ensures |trimmed| == |lines|
    ensures forall i :: 0 <= i < |lines| ==> trimmed[i] == TrimEnd(lines[i])
  {
    seq(|lines|, i requires 0 <= i < |lines| => TrimEnd(lines[i]))
  }

  function AgentLines(text: string): seq<string> { Trimmed(Split(text)) }

  // ---- The server: str.splitlines() -------------------------------------------

  predicate IsBreak(c: char) {
    || c == '\n' || c == '\r' || c == '\U{0B}' || c == '\U{0C}'
    || '\U{1C}' <= c <= '\U{1E}' || c == '\U{85}' || c == '\U{2028}' || c == '\U{2029}'
  }

  function SplitLines(text: string): (lines: seq<string>)
    ensures lines == [] <==> text == ""
    decreases |text|
  {
    if text == "" then []
    else if |text| >= 2 && text[0] == '\r' && text[1] == '\n' then [""] + SplitLines(text[2..])
    else if IsBreak(text[0]) then [""] + SplitLines(text[1..])
    else
      var rest := SplitLines(text[1..]);
      if rest == [] then [[text[0]]] else [[text[0]] + rest[0]] + rest[1..]
  }

  function ServerLines(text: string): seq<string> {
    if SplitLines(text) == [] then [""] else SplitLines(text)
  }

  // ---- When they agree --------------------------------------------------------

  /** A break that is neither a line feed nor the carriage return in front of one. */
  predicate Stray(text: string, i: nat)
    requires i < |text|
  {
    || (text[i] == '\r' && (i + 1 < |text| ==> text[i + 1] != '\n'))
    || text[i] == '\U{0B}' || text[i] == '\U{0C}' || text[i] == '\U{1C}' || text[i] == '\U{1D}' || text[i] == '\U{1E}'
    || text[i] == '\U{85}' || text[i] == '\U{2028}' || text[i] == '\U{2029}'
  }

  lemma StrayIsABreak(text: string, i: nat)
    requires i < |text|
    ensures Stray(text, i) <==>
      && IsBreak(text[i]) && text[i] != '\n'
      && !(text[i] == '\r' && i + 1 < |text| && text[i + 1] == '\n')
  {
  }

  /** Broken by LF or CRLF only; one carriage return at the very end does no harm. */
  predicate BrokenByLineFeeds(text: string) {
    forall i :: 0 <= i < |text| && Stray(text, i) ==> i == |text| - 1 && text[i] == '\r'
  }

  predicate EndsWithLineFeed(text: string) { text != "" && text[|text| - 1] == '\n' }

  /** What the server prints, and one blank line more when the text ends with a line feed. */
  function ExpectedLines(text: string): seq<string> {
    ServerLines(text) + if EndsWithLineFeed(text) then [""] else []
  }

  lemma {:induction false} TrimFirst(c: char, line: string)
    ensures TrimEnd([c] + line) == if c == '\r' && TrimEnd(line) == "" then "" else [c] + TrimEnd(line)
    decreases |line|
  {
    var whole := [c] + line;
    if line == "" {
      assert whole[..0] == "";
      assert TrimEnd("") == "";
    } else if line[|line| - 1] == '\r' {
      assert whole[..|whole| - 1] == [c] + line[..|line| - 1];
      TrimFirst(c, line[..|line| - 1]);
    }
  }

  // How the two renderings of a text follow from those of its tail.

  lemma AgentStep(text: string)
    requires text != ""
    ensures text[0] == '\n' ==> AgentLines(text) == [""] + AgentLines(text[1..])
    ensures text[0] != '\n' ==>
      AgentLines(text) == [TrimEnd([text[0]] + Split(text[1..])[0])] + AgentLines(text[1..])[1..]
  {
    assert TrimEnd("") == "";
  }

  lemma AgentPlain(text: string)
    requires text != "" && text[0] != '\n' && text[0] != '\r'
    ensures AgentLines(text) == [[text[0]] + AgentLines(text[1..])[0]] + AgentLines(text[1..])[1..]
  {
    AgentStep(text);
    TrimFirst(text[0], Split(text[1..])[0]);
  }

  /** A carriage return in front of an empty line is trimmed. */
  lemma AgentCarriageReturn(text: string)
    requires text != "" && text[0] == '\r' && (|text| > 1 ==> text[1] == '\n')
    ensures AgentLines(text) == AgentLines(text[1..])
  {
    var rest := text[1..];
    AgentStep(text);
    assert Split(rest)[0] == "";
    TrimFirst('\r', "");
    assert TrimEnd("") == "" && AgentLines(rest)[0] == "";
    assert AgentLines(rest) == [""] + AgentLines(rest)[1..];
  }

  lemma ServerPlain(text: string)
    requires text != "" && !IsBreak(text[0])
    ensures ExpectedLines(text) == [[text[0]] + ExpectedLines(text[1..])[0]] + ExpectedLines(text[1..])[1..]
  {
    var rest := text[1..];
    if rest == "" {
      assert SplitLines(text) == [[text[0]]] && !EndsWithLineFeed(text);
      assert ExpectedLines(text) == [[text[0]]] && ExpectedLines(rest) == [""];
      assert [text[0]] + "" == [text[0]];
    } else {
      var lines := SplitLines(rest);
      var tail := if EndsWithLineFeed(text) then [""] else [];
      assert EndsWithLineFeed(rest) == EndsWithLineFeed(text);
      assert SplitLines(text) == [[text[0]] + lines[0]] + lines[1..];
      assert (lines + tail)[1..] == lines[1..] + tail;
    }
  }

  lemma ServerLineFeed(text: string)
    requires text != "" && text[0] == '\n'
    ensures ExpectedLines(text) == [""] + ExpectedLines(text[1..])
  {
    var rest := text[1..];
    assert rest != "" ==> rest[|rest| - 1] == text[|text| - 1];
    assert SplitLines(rest) == [] ==> rest == "";
  }

  lemma ServerCarriageReturn(text: string)
    requires text != "" && text[0] == '\r' && (|text| > 1 ==> text[1] == '\n')
    ensures ExpectedLines(text) == ExpectedLines(text[1..])
  {
    var rest := text[1..];
    if rest == "" {
      assert SplitLines(text) == [""] + SplitLines(rest);
    } else {
      assert rest[1..] == text[2..] && rest[|rest| - 1] == text[|text| - 1];
    }
  }

  lemma StrayInRest(text: string)
    requires BrokenByLineFeeds(text) && text != ""
    ensures BrokenByLineFeeds(text[1..])
  {
    forall i | 0 <= i < |text| - 1 && Stray(text[1..], i) ensures i == |text| - 2 && text[1..][i] == '\r' {
      assert Stray(text, i + 1);
    }
  }

  lemma {:induction false} SameLines(text: string)
    requires BrokenByLineFeeds(text)
    ensures AgentLines(text) == ExpectedLines(text)
    decreases |text|
  {
    if text == "" {
      assert TrimEnd("") == "";
    } else {
      StrayInRest(text);
      SameLines(text[1..]);
      assert Stray(text, 0) ==> |text| == 1 && text[0] == '\r';
      StrayIsABreak(text, 0);
      if text[0] == '\r' {
        AgentCarriageReturn(text);
        ServerCarriageReturn(text);
      } else if text[0] == '\n' {
        AgentStep(text);
        ServerLineFeed(text);
      } else {
        AgentPlain(text);
        ServerPlain(text);
      }
    }
  }

  // The other direction, by counting lines.

  function LineFeeds(text: string): nat {
    if text == "" then 0 else (if text[0] == '\n' then 1 else 0) + LineFeeds(text[1..])
  }

  function Strays(text: string): nat {
    if text == "" then 0 else (if Stray(text, 0) then 1 else 0) + Strays(text[1..])
  }

  predicate NoBreak(line: string) { forall i :: 0 <= i < |line| ==> !IsBreak(line[i]) }

  lemma {:induction false} AgentLineCount(text: string)
    ensures |AgentLines(text)| == LineFeeds(text) + 1
  {
    if text != "" { AgentLineCount(text[1..]); }
  }

  lemma {:induction false} ServerLineCount(text: string)
    ensures |SplitLines(text)|
         == LineFeeds(text) + Strays(text) + if text == "" || IsBreak(text[|text| - 1]) then 0 else 1
    decreases |text|
  {
    if text != "" {
      ServerLineCount(text[1..]);
      if |text| >= 2 && text[0] == '\r' && text[1] == '\n' { assert text[1..][1..] == text[2..]; }
    }
  }

  lemma {:induction false} ServerLinesWhole(text: string)
    ensures forall k :: 0 <= k < |SplitLines(text)| ==> NoBreak(SplitLines(text)[k])
    decreases |text|
  {
    if text != "" {
      ServerLinesWhole(text[1..]);
      var lines, rest := SplitLines(text), SplitLines(text[1..]);
      if |text| >= 2 && text[0] == '\r' && text[1] == '\n' {
        assert text[1..][1..] == text[2..] && lines == rest;
      } else if IsBreak(text[0]) {
        assert lines == [""] + rest;
      } else if rest == [] {
        assert lines == [[text[0]]];
      } else {
        assert lines == [[text[0]] + rest[0]] + rest[1..];
        assert NoBreak([text[0]] + rest[0]);
      }
    }
  }

  lemma {:induction false} StraysCounted(text: string, i: nat)
    requires i < |text| && Stray(text, i)
    ensures Strays(text) >= 1 + if i < |text| - 1 && Stray(text, |text| - 1) then 1 else 0
    decreases |text|
  {
    var rest := text[1..];
    if i > 0 {
      assert Stray(rest, i - 1) && (|rest| > 0 ==> Stray(rest, |rest| - 1) == Stray(text, |text| - 1));
      StraysCounted(rest, i - 1);
    } else if |text| > 1 && Stray(text, |text| - 1) {
      assert Stray(rest, |rest| - 1);
      StraysCounted(rest, |rest| - 1);
    }
  }

  /** A last character other than a carriage return or a line feed survives on the agent's last line. */
  lemma {:induction false} LastCharacterKept(text: string)
    requires text != "" && text[|text| - 1] != '\r' && text[|text| - 1] != '\n'
    ensures EndsWith(AgentLines(text)[|AgentLines(text)| - 1], text[|text| - 1])
    decreases |text|
  {
    var rest := text[1..];
    if rest == "" {
      AgentPlain(text);
      assert TrimEnd("") == "" && AgentLines("") == [""];
    } else {
      LastCharacterKept(rest);
      LastLineGrows(text, text[|text| - 1]);
    }
  }

  predicate EndsWith(line: string, c: char) { line != "" && line[|line| - 1] == c }

  lemma AgentShape(text: string)
    requires text != ""
    ensures text[0] == '\n' ==> AgentLines(text) == [""] + AgentLines(text[1..])
    ensures text[0] != '\n' ==>
      |AgentLines(text)| == |AgentLines(text[1..])| && AgentLines(text)[1..] == AgentLines(text[1..])[1..]
    ensures text[0] != '\n' && AgentLines(text[1..])[0] != ""
        ==> AgentLines(text)[0] == [text[0]] + AgentLines(text[1..])[0]
  {
    AgentStep(text);
    TrimFirst(text[0], Split(text[1..])[0]);
  }

  lemma LastLineGrows(text: string, c: char)
    requires text != "" && EndsWith(AgentLines(text[1..])[|AgentLines(text[1..])| - 1], c)
    ensures EndsWith(AgentLines(text)[|AgentLines(text)| - 1], c)
  {
    AgentShape(text);
    SameLast(AgentLines(text), AgentLines(text[1..]), text[0], c);
  }

  lemma SameLast(whole: seq<string>, lines: seq<string>, a: char, c: char)
    requires lines != [] && EndsWith(lines[|lines| - 1], c)
    requires whole == [""] + lines || (|whole| == |lines| && whole[1..] == lines[1..]
        && (lines[0] != "" ==> whole[0] == [a] + lines[0]))
    ensures EndsWith(whole[|whole| - 1], c)
  {
    if |whole| == |lines| > 1 {
      assert whole[|whole| - 1] == whole[1..][|whole| - 2] == lines[1..][|whole| - 2] == lines[|lines| - 1];
    }
  }

  lemma LastServerLine(text: string)
    requires text != "" && text[|text| - 1] != '\n'
    ensures NoBreak(ExpectedLines(text)[|ExpectedLines(text)| - 1])
  {
    ServerLinesWhole(text);
    assert ExpectedLines(text) == SplitLines(text);
  }

  lemma DifferentLines(text: string)
    requires !BrokenByLineFeeds(text)
    ensures AgentLines(text) != ExpectedLines(text)
  {
    var i :| 0 <= i < |text| && Stray(text, i) && !(i == |text| - 1 && text[i] == '\r');
    StraysCounted(text, i);
    AgentLineCount(text);
    ServerLineCount(text);
    if |AgentLines(text)| == |ExpectedLines(text)| {
      LastCharacterKept(text);
      LastServerLine(text);
    }
  }

  /**
    The agent prints the server's lines, plus one blank line after a final line feed, exactly
    for texts broken by LF or CRLF.
   */
  lemma AgreeExactly(text: string)
    ensures AgentLines(text) == ExpectedLines(text) <==> BrokenByLineFeeds(text)
  {
    if BrokenByLineFeeds(text) { SameLines(text); } else { DifferentLines(text); }
  }

  // ---- Receipts: lines joined, then split again -------------------------------

  predicate Survives(line: string) {
    (forall i :: 0 <= i < |line| ==> line[i] != '\n') && (line != "" ==> line[|line| - 1] != '\r')
  }

  lemma {:induction false} SplitFirst(line: string, rest: string)
    requires forall i :: 0 <= i < |line| ==> line[i] != '\n'
    ensures Split(line + "\n" + rest) == [line] + Split(rest)
  {
    var text := line + "\n" + rest;
    if line == "" {
      assert text[1..] == rest;
    } else {
      assert text[1..] == line[1..] + "\n" + rest;
      SplitFirst(line[1..], rest);
      assert [line[0]] + line[1..] == line;
      assert ([line[1..]] + Split(rest))[1..] == Split(rest);
    }
  }

  lemma {:induction false} TextsSurvive(texts: seq<string>)
    requires forall i :: 0 <= i < |texts| ==> Survives(texts[i])
    ensures AgentLines(Joined(texts)) == texts + [""]
  {
    assert TrimEnd("") == "";
    if texts != [] {
      assert Survives(texts[0]);
      TextsSurvive(texts[1..]);
      SplitFirst(texts[0], Joined(texts[1..]));
      assert TrimEnd(texts[0]) == texts[0];
      assert AgentLines(Joined(texts)) == [texts[0]] + AgentLines(Joined(texts[1..]));
    }
  }

  lemma {:induction false} TrimmedEnd(line: string)
    ensures TrimEnd(line) <= line && (TrimEnd(line) != "" ==> TrimEnd(line)[|TrimEnd(line)| - 1] != '\r')
  {
    if line != "" && line[|line| - 1] == '\r' { TrimmedEnd(line[..|line| - 1]); }
  }

  lemma {:induction false} SplitHasNoLineFeed(text: string)
    ensures forall k, i :: 0 <= k < |Split(text)| && 0 <= i < |Split(text)[k]| ==> Split(text)[k][i] != '\n'
  {
    if text != "" { SplitHasNoLineFeed(text[1..]); }
  }

  /**
    The agent gets back the receipt's lines and one blank line, exactly when no line holds a
    line feed or ends with a carriage return.
   */
  lemma RoundTrip(texts: seq<string>)
    ensures AgentLines(Joined(texts)) == texts + [""] <==> forall i :: 0 <= i < |texts| ==> Survives(texts[i])
  {
    if forall i :: 0 <= i < |texts| ==> Survives(texts[i]) {
      TextsSurvive(texts);
    } else {
      var i :| 0 <= i < |texts| && !Survives(texts[i]);
      var lines := Split(Joined(texts));
      SplitHasNoLineFeed(Joined(texts));
      if i < |lines| {
        TrimmedEnd(lines[i]);
        assert Survives(TrimEnd(lines[i]));
        assert AgentLines(Joined(texts))[i] == TrimEnd(lines[i]);
      }
    }
  }

  // ---- Recognising what survived by its size ----------------------------------

  lemma {:induction false} LineFeedsAdd(a: string, b: string)
    ensures LineFeeds(a + b) == LineFeeds(a) + LineFeeds(b)
  {
    if a == "" {
      assert a + b == b;
    } else {
      assert (a + b)[1..] == a[1..] + b;
      LineFeedsAdd(a[1..], b);
    }
  }

  lemma {:induction false} NoLineFeeds(text: string)
    ensures LineFeeds(text) == 0 <==> forall i :: 0 <= i < |text| ==> text[i] != '\n'
  {
    if text != "" {
      NoLineFeeds(text[1..]);
      assert forall i :: 1 <= i < |text| ==> text[i] == text[1..][i - 1];
    }
  }

  lemma {:induction false} JoinedLineFeeds(texts: seq<string>)
    ensures LineFeeds(Joined(texts)) >= |texts|
    ensures LineFeeds(Joined(texts)) == |texts| ==> forall i :: 0 <= i < |texts| ==> LineFeeds(texts[i]) == 0
  {
    if texts != [] {
      JoinedLineFeeds(texts[1..]);
      LineFeedsAdd(texts[0], "\n" + Joined(texts[1..]));
      assert texts[0] + "\n" + Joined(texts[1..]) == texts[0] + ("\n" + Joined(texts[1..]));
      assert ("\n" + Joined(texts[1..]))[1..] == Joined(texts[1..]);
      assert forall i :: 1 <= i < |texts| ==> texts[i] == texts[1..][i - 1];
    }
  }

  lemma {:induction false} SplitJoined(texts: seq<string>)
    requires forall i :: 0 <= i < |texts| ==> LineFeeds(texts[i]) == 0
    ensures Split(Joined(texts)) == texts + [""]
  {
    if texts != [] {
      NoLineFeeds(texts[0]);
      SplitFirst(texts[0], Joined(texts[1..]));
      SplitJoined(texts[1..]);
    }
  }

  /** As many lines as texts and one more, each as long as its text: then nothing was split or trimmed. */
  lemma SurvivedBySize(texts: seq<string>)
    requires var lines := AgentLines(Joined(texts));
      |lines| == |texts| + 1 && forall i :: 0 <= i < |texts| ==> |lines[i]| == |texts[i]|
    ensures forall i :: 0 <= i < |texts| ==> Survives(texts[i])
  {
    AgentLineCount(Joined(texts));
    JoinedLineFeeds(texts);
    SplitJoined(texts);
    forall i | 0 <= i < |texts| ensures Survives(texts[i]) {
      NoLineFeeds(texts[i]);
      TrimmedEnd(texts[i]);
      assert AgentLines(Joined(texts))[i] == TrimEnd(texts[i]);
      assert TrimEnd(texts[i]) == texts[i];
    }
  }
}
