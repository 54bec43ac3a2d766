/**
 The browser's reading of Velato source text: lines, comments, words. Unlike the engine's assembler it
 takes a comment after any instruction. Rendering instructions and reading them back is the identity,
 whatever comments, blanks and empty lines stand between them.
 */
module VelatoSource {
  import opened Outcomes
  import opened JavaScriptText
  import opened VelatoIr
  import opened VelatoNames
  import opened VelatoNotes
  import opened VelatoRoundTrip
  import opened StandardMidi
  import opened VelatoShowcase

  predicate IsTerminator(c: char) {
    c == '\n' || c == '\r' || c as int == 0x2028 || c as int == 0x2029
  }

  predicate Unbroken(s: string) {
    forall k :: 0 <= k < |s| ==> !IsTerminator(s[k])
  }

  function NewlineRun(s: string): (n: nat)
    ensures n <= |s| && (forall k :: 0 <= k < n ==> s[k] != '\n') && (n < |s| ==> s[n] == '\n')
  {
    if s == "" || s[0] == '\n' then 0 else 1 + NewlineRun(s[1..])
  }

  /** split(/\r?\n/) */
  function SplitSource(s: string): seq<string>
    decreases |s|
  {
    var n := NewlineRun(s);
    if n == |s| then [s]
    else
      var line := if n > 0 && s[n - 1] == '\r' then s[..n - 1] else s[..n];
      [line] + SplitSource(s[n + 1..])
  }

  /** replace(/#.*$/, ""): from the first '#' after which the line is not broken. */
  function StripComment(s: string): string {
    if s == "" then ""
    else if s[0] == '#' && Unbroken(s) then ""
    else [s[0]] + StripComment(s[1..])
  }

  /** join(" ") */
  function JoinWords(words: seq<string>): string {
    if words == [] then "" else if |words| == 1 then words[0] else words[0] + " " + JoinWords(words[1..])
  }

  datatype SourceError = UnknownOperation(name: string)

  function ParseLine(line: string): Result<Line, SourceError>
    requires line != "" && !IsSpace(line[0])
  {
    var words := Words(line);
    match OpNamed(words[0])
    case None => Err(UnknownOperation(words[0]))
    case Some(op) => Ok(Line(op, if |words| > 1 then Some(JoinWords(words[1..])) else None))
  }

  lemma TrimmedStart(s: string)
    ensures Trim(s) != "" ==> !IsSpace(Trim(s)[0])
  {
    TrimEndKeepsHead(TrimStart(s));
  }

  lemma {:induction false} TrimEndKeepsHead(s: string)
    ensures TrimEnd(s) != "" ==> s != "" && TrimEnd(s)[0] == s[0]
    decreases |s|
  {
    if s != "" && IsSpace(s[|s| - 1]) {
      TrimEndKeepsHead(s[..|s| - 1]);
    }
  }

  function ParseLines(lines: seq<string>): Result<seq<Line>, SourceError> {
    if lines == [] then Ok([])
    else
      var before :- ParseLines(lines[..|lines| - 1]);
      var line := Trim(StripComment(lines[|lines| - 1]));
      if line == "" then Ok(before)
      else
        TrimmedStart(StripComment(lines[|lines| - 1]));
        var parsed :- ParseLine(line);
        Ok(before + [parsed])
  }

  /** `parseVelatoInstructions` */
  function ParseVelatoInstructions(source: string): Result<seq<Line>, SourceError> {
    ParseLines(SplitSource(source))
  }

  // ----- rendering -----

  /** A line as an author may write it: indentation, an instruction or nothing, trailing blanks, a comment. */
  datatype Written = Written(indent: string, line: Option<Line>, trail: string, comment: string)

  function Render(w: Written): string {
    w.indent + (if w.line.Some? then RenderLine(w.line.value) else "") + w.trail + w.comment
  }

  function RenderLine(line: Line): string {
    Name(line.op) + if line.operand.Some? then " " + line.operand.value else ""
  }

  predicate Blank(s: string) {
    forall k :: 0 <= k < |s| ==> IsSpace(s[k])
  }

  /** Words joined by single blanks, no '#': the operands the parser itself produces. */
  predicate IsOperand(s: string) {
    s != "" && !IsSpace(s[0]) && '#' !in s && JoinWords(Words(s)) == s
  }

  predicate Legal(w: Written) {
    && Blank(w.indent) && Blank(w.trail) && Unbroken(w.indent) && Unbroken(w.trail)
    && (w.comment == "" || (w.comment[0] == '#' && Unbroken(w.comment)))
    && (w.line.Some? && w.line.value.operand.Some? ==> IsOperand(w.line.value.operand.value) && Unbroken(w.line.value.operand.value))
  }

  function RenderAll(ws: seq<Written>): (r: seq<string>)
    ensures |r| == |ws| && forall k :: 0 <= k < |ws| ==> r[k] == Render(ws[k])
  {
    seq(|ws|, k requires 0 <= k < |ws| => Render(ws[k]))
  }

  /** The instructions among the written lines. */
  function LinesOf(ws: seq<Written>): seq<Line> {
    if ws == [] then []
    else LinesOf(ws[..|ws| - 1]) + (if ws[|ws| - 1].line.Some? then [ws[|ws| - 1].line.value] else [])
  }

  // ----- one line -----

  lemma {:induction false} StripsComment(text: string, comment: string)
    requires '#' !in text && (comment == "" || (comment[0] == '#' && Unbroken(comment)))
    ensures StripComment(text + comment) == text
  {
    if text == "" {
      assert text + comment == comment;
    } else {
      assert text[0] in text;
      assert (text + comment)[1..] == text[1..] + comment;
      StripsComment(text[1..], comment);
    }
  }

  lemma {:induction false} SpaceRunOf(blank: string, rest: string)
    requires Blank(blank) && (rest == "" || !IsSpace(rest[0]))
    ensures SpaceRun(blank + rest) == |blank|
  {
    if blank == "" {
      assert blank + rest == rest;
    } else {
      assert (blank + rest)[1..] == blank[1..] + rest;
      SpaceRunOf(blank[1..], rest);
    }
  }

  lemma {:induction false} TrimEndOf(text: string, blank: string)
    requires Blank(blank) && (text == "" || !IsSpace(text[|text| - 1]))
    ensures TrimEnd(text + blank) == text
    decreases |blank|
  {
    if blank == "" {
      assert text + blank == text;
    } else {
      assert (text + blank)[..|text + blank| - 1] == text + blank[..|blank| - 1];
      TrimEndOf(text, blank[..|blank| - 1]);
    }
  }

  lemma Trims(indent: string, text: string, trail: string)
    requires Blank(indent) && Blank(trail)
    requires text == "" || (!IsSpace(text[0]) && !IsSpace(text[|text| - 1]))
    ensures Trim(indent + text + trail) == text
  {
    if text == "" {
      assert indent + text + trail == (indent + trail) + "";
      SpaceRunOf(indent + trail, "");
    } else {
      assert indent + text + trail == indent + (text + trail);
      SpaceRunOf(indent, text + trail);
      assert (indent + text + trail)[|indent|..] == text + trail;
      TrimEndOf(text, trail);
    }
  }

  lemma NameIsWord(op: Op)
    ensures IsWord(Name(op)) && '#' !in Name(op) && Unbroken(Name(op))
  {
    hide Name;
    NamesAreNames(op);
  }

  lemma {:induction false} JoinedEnds(words: seq<string>)
    requires words != [] && forall k :: 0 <= k < |words| ==> IsWord(words[k])
    ensures JoinWords(words) != "" && !IsSpace(JoinWords(words)[|JoinWords(words)| - 1])
  {
    if |words| > 1 {
      JoinedEnds(words[1..]);
      var s := JoinWords(words);
      var t := JoinWords(words[1..]);
      assert s[|s| - 1] == t[|t| - 1];
    }
  }

  lemma OperandEnds(s: string)
    requires IsOperand(s)
    ensures !IsSpace(s[|s| - 1])
  {
    hide JoinWords;
    WordsAreWords(s);
    assert Words(s) != [];
    JoinedEnds(Words(s));
  }

  lemma RenderedLine(line: Line)
    requires line.operand.Some? ==> IsOperand(line.operand.value)
    ensures var s := RenderLine(line);
            s != "" && !IsSpace(s[0]) && !IsSpace(s[|s| - 1]) && '#' !in s && ParseLine(s) == Ok(line)
  {
    hide Name, OpNamed, JoinWords;
    var name := Name(line.op);
    NameIsWord(line.op);
    WordAlone(name);
    OpNamedInverts(line.op, name);
    if line.operand.Some? {
      var operand := line.operand.value;
      assert RenderLine(line) == name + " " + operand;
      WordsOfJoined(name, operand);
      OperandEnds(operand);
      assert Words(operand) != [];
      assert Words(RenderLine(line))[1..] == Words(operand);
    }
  }

  /** A legally written line reads as its instruction, or as none. */
  lemma WrittenLineIsRead(w: Written)
    requires Legal(w)
    ensures Trim(StripComment(Render(w))) == if w.line.Some? then RenderLine(w.line.value) else ""
  {
    hide RenderLine, ParseLine, Trim, StripComment;
    var text := if w.line.Some? then RenderLine(w.line.value) else "";
    if w.line.Some? {
      RenderedLine(w.line.value);
    }
    BlankHasNoHash(w.indent);
    BlankHasNoHash(w.trail);
    StripsComment(w.indent + text + w.trail, w.comment);
    Trims(w.indent, text, w.trail);
  }

  lemma BlankHasNoHash(s: string)
    requires Blank(s)
    ensures '#' !in s
  {
  }

  lemma {:induction false} RenderedLinesParse(ws: seq<Written>)
    requires forall k :: 0 <= k < |ws| ==> Legal(ws[k])
    ensures ParseLines(RenderAll(ws)) == Ok(LinesOf(ws))
    decreases |ws|
  {
    hide Legal, Render, RenderLine, Trim, StripComment, ParseLine;
    if ws == [] {
      assert RenderAll(ws) == [];
    } else {
      var n := |ws| - 1;
      var w := ws[n];
      RenderedLinesParse(ws[..n]);
      var lines := RenderAll(ws);
      assert lines[..n] == RenderAll(ws[..n]) && lines[n] == Render(w);
      WrittenLineIsRead(w);
      if w.line.Some? {
        LegalOperand(w);
        RenderedLine(w.line.value);
        assert LinesOf(ws) == LinesOf(ws[..n]) + [w.line.value];
      } else {
        assert LinesOf(ws) == LinesOf(ws[..n]);
      }
    }
  }

  lemma LegalOperand(w: Written)
    requires Legal(w) && w.line.Some?
    ensures w.line.value.operand.Some? ==> IsOperand(w.line.value.operand.value)
  {
  }

  // ----- whole sources -----

  function JoinSource(lines: seq<string>): string {
    if lines == [] then "" else if |lines| == 1 then lines[0] else lines[0] + "\n" + JoinSource(lines[1..])
  }

  lemma {:induction false} NewlineRunOf(line: string, rest: string)
    requires Unbroken(line) && (rest == "" || rest[0] == '\n')
    ensures NewlineRun(line + rest) == |line|
  {
    if line == "" {
      assert line + rest == rest;
    } else {
      assert (line + rest)[1..] == line[1..] + rest;
      NewlineRunOf(line[1..], rest);
    }
  }

  lemma {:induction false} SourceLines(lines: seq<string>)
    requires lines != [] && forall k :: 0 <= k < |lines| ==> Unbroken(lines[k])
    ensures SplitSource(JoinSource(lines)) == lines
  {
    hide NewlineRun;
    if |lines| == 1 {
      NewlineRunOf(lines[0], "");
      assert lines[0] + "" == lines[0];
    } else {
      var rest := "\n" + JoinSource(lines[1..]);
      var s := JoinSource(lines);
      assert s == lines[0] + rest;
      NewlineRunOf(lines[0], rest);
      assert s[..|lines[0]|] == lines[0] && s[|lines[0]| + 1..] == JoinSource(lines[1..]);
      SourceLines(lines[1..]);
    }
  }

  lemma RenderUnbroken(w: Written)
    requires Legal(w)
    ensures Unbroken(Render(w))
  {
    hide Name;
    if w.line.Some? {
      NameIsWord(w.line.value.op);
      assert Unbroken(RenderLine(w.line.value));
    }
  }

  /** Reading what was written gives the instructions, whatever blanks, empty lines and comments surround them. */
  lemma SourceRoundTrip(ws: seq<Written>)
    requires ws != [] && forall k :: 0 <= k < |ws| ==> Legal(ws[k])
    ensures ParseVelatoInstructions(JoinSource(RenderAll(ws))) == Ok(LinesOf(ws))
  {
    hide Legal, Render, Unbroken, ParseLines;
    forall k | 0 <= k < |ws|
      ensures Unbroken(RenderAll(ws)[k])
    {
      RenderUnbroken(ws[k]);
    }
    SourceLines(RenderAll(ws));
    RenderedLinesParse(ws);
  }

  /** From source text to the engine: what the browser writes for a text, the engine compiles to the text's program or refuses. */
  lemma SourceReachesTheEngine(number: NumberReading, ws: seq<Written>, root: int, microsecondsPerBeat: int)
    requires ws != [] && forall k :: 0 <= k < |ws| ==> Legal(ws[k])
    requires FileBytes(number, LinesOf(ws), root, microsecondsPerBeat).Ok?
    ensures var parsed := ParseVelatoInstructions(JoinSource(RenderAll(ws)));
            && parsed.Ok? && FileBytes(number, parsed.value, root, microsecondsPerBeat).Ok?
            && CompileBytes(FileBytes(number, parsed.value, root, microsecondsPerBeat).value) == Expected(number, LinesOf(ws), root)
  {
    hide Legal, ParseVelatoInstructions, FileBytes, CompileBytes, Expected;
    SourceRoundTrip(ws);
    CrossLanguageRoundTrip(number, LinesOf(ws), root, microsecondsPerBeat);
  }
}
