/**
 The textual assembly of the Velato dialect: printing a program line by line, the line grammar as the
 regular expression matches it, and parsing. Number syntax is that of Python and enters as a parameter.
 */
module VelatoAssembly {
  import opened Outcomes
  import opened PythonText
  import opened VelatoIr
  import opened VelatoAnalyzer
  import opened VelatoNotes
  import opened VelatoRoundTrip
  import opened VelatoNames

  /** What float(text) gives: a finite value, an infinity or NaN, or ValueError. */
  datatype Floating = FiniteValue(f: real) | InfiniteOrNaN | NotANumber

  /** int(text), float(text) and the text of a float. */
  datatype Numbers = Numbers(readInt: string -> Option<int>, readFloat: string -> Floating, showFloat: real -> string)

  datatype LineFault = BadSyntax | UnknownOperation | BadLocalRegister | BadConstant | OperandNotAccepted

  datatype ParseError = TooManyBytes | TooManyInstructions | OnLine(number: nat, fault: LineFault) | Rejected(reason: Fault)

  const MAX_SOURCE_BYTES: nat := 128_000
  const MAX_LINES: nat := 1024

  // ----- printing -----

  function ArgText(numbers: Numbers, arg: Arg): string {
    match arg
    case NoArg => ""
    case IntArg(i) => Decimal(i)
    case FloatArg(f) => numbers.showFloat(f)
    case NonFiniteArg => "inf"
    case TextArg(s) => s
  }

  /** f"{index:03d}" */
  function Padded(k: nat): (s: string)
    ensures s != "" && AllDigits(s)
  {
    (if k < 10 then "00" else if k < 100 then "0" else "") + Digits(k)
  }

  function BareLine(numbers: Numbers, k: nat, ins: Instruction): string {
    Padded(k) + ": " + (Name(ins.op) + if ins.arg.NoArg? then "" else " " + ArgText(numbers, ins.arg))
  }

  function Comment(op: Op): string {
    "  # channel=" + Decimal(EncodingOf(op).0) + " interval=" + Decimal(EncodingOf(op).1)
  }

  function CommentedLine(numbers: Numbers, k: nat, ins: Instruction): string {
    BareLine(numbers, k, ins) + Comment(ins.op)
  }

  function BareLines(numbers: Numbers, ir: seq<Instruction>): (r: seq<string>)
    ensures |r| == |ir| && forall k :: 0 <= k < |ir| ==> r[k] == BareLine(numbers, k, ir[k])
  {
    seq(|ir|, k requires 0 <= k < |ir| => BareLine(numbers, k, ir[k]))
  }

  function CommentedLines(numbers: Numbers, ir: seq<Instruction>): (r: seq<string>)
    ensures |r| == |ir| && forall k :: 0 <= k < |ir| ==> r[k] == CommentedLine(numbers, k, ir[k])
  {
    seq(|ir|, k requires 0 <= k < |ir| => CommentedLine(numbers, k, ir[k]))
  }

  lemma {:induction false} ZerosReadAway(zeros: string, digits: string)
    requires AllDigits(zeros) && AllDigits(digits) && forall k :: 0 <= k < |zeros| ==> zeros[k] == '0'
    ensures ReadDigits(zeros + digits) == ReadDigits(digits)
    decreases |zeros| + |digits|
  {
    if digits != "" {
      assert (zeros + digits)[..|zeros + digits| - 1] == zeros + digits[..|digits| - 1];
      ZerosReadAway(zeros, digits[..|digits| - 1]);
    } else if zeros != "" {
      assert (zeros + digits)[..|zeros + digits| - 1] == zeros[..|zeros| - 1] + "";
      ZerosReadAway(zeros[..|zeros| - 1], "");
    }
  }

  lemma PaddedIs(k: nat)
    ensures ReadDigits(Padded(k)) == k && |Padded(k)| >= 3 && (k < 1000 ==> |Padded(k)| == 3)
  {
    DigitsRoundTrip(k);
    ZerosReadAway(if k < 10 then "00" else if k < 100 then "0" else "", Digits(k));
    DigitCount(k);
  }

  lemma DigitCount(k: nat)
    ensures |Digits(k)| >= 1 && (k < 10 ==> |Digits(k)| == 1) && (k >= 10 ==> |Digits(k)| >= 2)
    ensures (k < 100 ==> |Digits(k)| <= 2) && (k >= 100 ==> |Digits(k)| >= 3) && (k < 1000 ==> |Digits(k)| <= 3)
  {
    if k >= 10 {
      assert |Digits(k)| == |Digits(k / 10)| + 1;
      if k / 10 >= 10 {
        assert |Digits(k / 10)| == |Digits(k / 10 / 10)| + 1;
      }
    }
  }

  /** A printed line counts its instruction, in three digits at least, names it, and tells the place in the banks where it sits. */
  lemma PrintedLine(numbers: Numbers, k: nat, ins: Instruction) returns (index: string, bank: string, interval: string)
    ensures CommentedLine(numbers, k, ins) ==
            index + ": " + (Name(ins.op) + if ins.arg.NoArg? then "" else " " + ArgText(numbers, ins.arg)) +
            ("  # channel=" + bank + " interval=" + interval)
    ensures AllDigits(index) && ReadDigits(index) == k && |index| >= 3 && (k < 1000 ==> |index| == 3)
    ensures AllDigits(bank) && AllDigits(interval) && ReadDigits(bank) < 4 && ReadDigits(interval) < 12
    ensures OpAt(ReadDigits(bank), ReadDigits(interval)) == Some(ins.op)
  {
    hide Digits, ReadDigits, EncodingOf, Name, ArgText;
    EncodingIsInBanks(ins.op);
    PaddedIs(k);
    hide Padded;
    index, bank, interval := Padded(k), Digits(EncodingOf(ins.op).0), Digits(EncodingOf(ins.op).1);
    DigitsRoundTrip(EncodingOf(ins.op).0);
    DigitsRoundTrip(EncodingOf(ins.op).1);
  }

  method Decompile(numbers: Numbers, ir: seq<Instruction>) returns (text: string)
    ensures text == JoinLines(CommentedLines(numbers, ir))
  {
    hide CommentedLine;
    var lines: seq<string> := [];
    for index := 0 to |ir|
      invariant |lines| == index && forall k :: 0 <= k < index ==> lines[k] == CommentedLine(numbers, k, ir[k])
    {
      lines := lines + [CommentedLine(numbers, index, ir[index])];
    }
    assert lines == CommentedLines(numbers, ir);
    return JoinLines(lines);
  }

  // ----- the line grammar -----

  function NameRun(s: string): (n: nat)
    ensures n <= |s| && (forall k :: 0 <= k < n ==> NameChar(s[k])) && (n < |s| ==> !NameChar(s[n]))
  {
    if s == "" || !NameChar(s[0]) then 0 else 1 + NameRun(s[1..])
  }

  function HashFrom(s: string, i: nat): (n: nat)
    requires i <= |s|
    ensures i <= n <= |s| && (forall k :: i <= k < n ==> s[k] != '#') && (n < |s| ==> s[n] == '#')
    decreases |s| - i
  {
    if i == |s| || s[i] == '#' then i else HashFrom(s, i + 1)
  }

  /** The end of the text between i and j without the blanks before j. */
  function BackOverBlanks(s: string, i: nat, j: nat): (n: nat)
    requires i <= j <= |s|
    ensures i <= n <= j && (forall k :: n <= k < j ==> IsSpace(s[k])) && (i < n ==> !IsSpace(s[n - 1]))
  {
    if i == j || !IsSpace(s[j - 1]) then j else BackOverBlanks(s, i, j - 1)
  }

  predicate BlankBetween(s: string, i: nat, n: nat)
    requires i <= n <= |s|
  {
    forall k :: i <= k < n ==> IsSpace(s[k])
  }

  /** \s*(?:#.*)?$ from position i. */
  predicate TailMatches(s: string, i: nat)
    requires i <= |s|
  {
    exists n :: i <= n <= |s| && BlankBetween(s, i, n) && (n == |s| || s[n] == '#')
  }

  /** (?:\s+(?P<arg>[^#]+?))? taken with w blanks and an argument of length a, and the tail. */
  predicate ArgMatches(s: string, w: nat, a: nat) {
    && 1 <= w && 1 <= a && w + a <= |s|
    && (forall k | 0 <= k < w :: IsSpace(s[k]))
    && (forall k | w <= k < w + a :: s[k] != '#')
    && TailMatches(s, w + a)
  }

  /** The end of an argument that starts at n: before the comment, without trailing blanks. */
  function ArgEnd(s: string, n: nat): (e: nat)
    requires n < |s| && s[n] != '#' && !IsSpace(s[n])
    ensures n < e <= |s| && !IsSpace(s[e - 1]) && (forall k | n <= k < e :: s[k] != '#') && TailMatches(s, e)
  {
    hide IsSpace;
    var e := BackOverBlanks(s, n, HashFrom(s, n));
    assert BlankBetween(s, e, HashFrom(s, n));
    e
  }

  /**
   What follows the opcode: None when the line does not match, and otherwise the captured argument if
   any. Two or more blanks before a comment leave the last of them to be captured.
   */
  function Operand(s: string): Option<Option<string>> {
    var n := SpaceRun(s);
    if n == 0 then if s == "" || s[0] == '#' then Some(None) else None
    else if n < |s| && s[n] != '#' then Some(Some(s[n..ArgEnd(s, n)]))
    else if n >= 2 then Some(Some(s[n - 1..n]))
    else Some(None)
  }

  /** The optional group is tried first; within it most blanks first, then the shortest argument. */
  ghost predicate FirstMatch(s: string, w: nat, a: nat) {
    && ArgMatches(s, w, a)
    && (forall more: nat, a': nat | w < more :: !ArgMatches(s, more, a'))
    && (forall less: nat | less < a :: !ArgMatches(s, w, less))
  }

  /** `Operand` is the first match in the order a backtracking matcher tries them. */
  lemma OperandIsFirstMatch(s: string)
    ensures Operand(s).Some? && Operand(s).value.Some? ==>
              exists w: nat, a: nat :: FirstMatch(s, w, a) && Operand(s).value.value == s[w..w + a]
    ensures Operand(s) == Some(None) ==> TailMatches(s, 0) && forall w: nat, a: nat :: !ArgMatches(s, w, a)
    ensures Operand(s) == None ==> !TailMatches(s, 0) && forall w: nat, a: nat :: !ArgMatches(s, w, a)
  {
    var n := SpaceRun(s);
    if n > 0 && n < |s| && s[n] != '#' {
      var e := ArgEnd(s, n);
      FirstOf(s, n, e);
      assert s[n..n + (e - n)] == s[n..e];
    } else if n >= 2 {
      LastBlankIsFirst(s);
    } else {
      NoArgument(s);
    }
  }

  lemma TailAfterBlanks(s: string, i: nat, n: nat)
    requires i <= n <= |s| && (forall k | i <= k < n :: IsSpace(s[k])) && (n == |s| || s[n] == '#')
    ensures TailMatches(s, i)
  {
    assert BlankBetween(s, i, n);
  }

  /** A character that is neither blank nor '#', with no '#' before it, keeps the tail from matching. */
  lemma NoTailBefore(s: string, i: nat, j: nat)
    requires i <= j < |s| && !IsSpace(s[j]) && forall k | i <= k <= j :: s[k] != '#'
    ensures !TailMatches(s, i)
  {
    forall n | i <= n <= |s| && BlankBetween(s, i, n)
      ensures n <= j
    {
    }
  }

  /** The shortest argument after the most blanks ends on the last visible character before the tail. */
  lemma FirstOf(s: string, n: nat, e: nat)
    requires 1 <= n < e <= |s| && BlankBetween(s, 0, n) && !IsSpace(s[n]) && !IsSpace(s[e - 1])
    requires (forall k | n <= k < e :: s[k] != '#') && TailMatches(s, e)
    ensures FirstMatch(s, n, e - n)
  {
    hide TailMatches, IsSpace;
    assert n + (e - n) == e;
    forall less: nat | less < e - n
      ensures !ArgMatches(s, n, less)
    {
      NoTailBefore(s, n + less, e - 1);
    }
  }

  lemma LastBlankIsFirst(s: string)
    requires var n := SpaceRun(s); 2 <= n && (n == |s| || s[n] == '#')
    ensures SpaceRun(s) >= 2 && FirstMatch(s, SpaceRun(s) - 1, 1)
  {
    var n := SpaceRun(s);
    hide SpaceRun;
    TailAfterBlanks(s, n, n);
  }

  lemma NoArgument(s: string)
    requires var n := SpaceRun(s); n == 0 || (n == 1 && (n == |s| || s[n] == '#'))
    ensures forall w: nat, a: nat :: !ArgMatches(s, w, a)
    ensures TailMatches(s, 0) <==> SpaceRun(s) == 1 || s == "" || s[0] == '#'
  {
    var n := SpaceRun(s);
    hide SpaceRun;
    if n == 1 || s == "" || s[0] == '#' {
      TailAfterBlanks(s, 0, n);
    } else {
      NoTailBefore(s, 0, 0);
    }
  }

  // ----- parsing -----

  /** The operand of an opcode from the captured text. */
  function ParseArg(numbers: Numbers, op: Op, raw: Option<string>): Result<Arg, LineFault> {
    if op == LoadInput then
      Ok(if raw.Some? then TextArg(Strip(raw.value)) else NoArg)
    else if IsLocalOp(op) then
      if raw.None? then Ok(NoArg)
      else
        match numbers.readInt(Strip(raw.value))
        case Some(i) => Ok(IntArg(i))
        case None => Err(BadLocalRegister)
    else if op == PushConst then
      if raw.None? then Ok(NoArg)
      else
        match numbers.readFloat(Strip(raw.value))
        case FiniteValue(f) => Ok(Constant(f))
        case InfiniteOrNaN => Ok(NonFiniteArg)
        case NotANumber => Err(BadConstant)
    else if raw.Some? then Err(OperandNotAccepted)
    else Ok(NoArg)
  }

  /** int(value) when value.is_integer() */
  function Constant(f: real): Arg {
    if f.Floor as real == f then IntArg(f.Floor) else FloatArg(f)
  }

  /** Where the opcode starts: behind an optional index, its colon and the blanks after it. */
  function OpStart(line: string): (n: nat)
    ensures n <= |line|
  {
    var d := DigitRun(line);
    if 0 < d < |line| && line[d] == ':' then d + 1 + SpaceRun(line[d + 1..]) else 0
  }

  function ParseLine(numbers: Numbers, line: string): Result<Instruction, LineFault> {
    var rest := line[OpStart(line)..];
    var n := NameRun(rest);
    if n == 0 || Operand(rest[n..]).None? then Err(BadSyntax)
    else if OpNamed(rest[..n]).None? then Err(UnknownOperation)
    else
      var op := OpNamed(rest[..n]).value;
      var arg :- ParseArg(numbers, op, Operand(rest[n..]).value);
      Ok(Instruction(op, arg))
  }

  predicate Skipped(line: string) {
    line == "" || line[0] == '#'
  }

  /** The instructions of the lines, or the first error. */
  function ParseLines(numbers: Numbers, lines: seq<string>, maxLines: nat): Result<seq<Instruction>, ParseError> {
    if lines == [] then Ok([])
    else
      var ir :- ParseLines(numbers, lines[..|lines| - 1], maxLines);
      var line := Strip(lines[|lines| - 1]);
      if Skipped(line) then Ok(ir)
      else if |ir| >= maxLines then Err(TooManyInstructions)
      else
        match ParseLine(numbers, line)
        case Ok(ins) => Ok(ir + [ins])
        case Err(fault) => Err(OnLine(|lines|, fault))
  }

  function Assemble(numbers: Numbers, source: string, maxLines: nat): Result<seq<Instruction>, ParseError> {
    if EncodedLength(source) > MAX_SOURCE_BYTES then Err(TooManyBytes)
    else
      var ir :- ParseLines(numbers, SplitLines(source), maxLines);
      match Sealed(ir)
      case Ok(code) => Ok(code)
      case Err(fault) => Err(Rejected(fault))
  }

  lemma {:induction false} FirstErrorStays(numbers: Numbers, lines: seq<string>, maxLines: nat, k: nat)
    requires k <= |lines| && ParseLines(numbers, lines[..k], maxLines).Err?
    ensures ParseLines(numbers, lines, maxLines) == ParseLines(numbers, lines[..k], maxLines)
    decreases |lines|
  {
    hide ParseLine, Strip;
    if k == |lines| {
      assert lines[..k] == lines;
    } else {
      var init := lines[..|lines| - 1];
      assert init[..k] == lines[..k];
      FirstErrorStays(numbers, init, maxLines, k);
    }
  }

  method ParseAssembly(numbers: Numbers, source: string, maxLines: nat) returns (r: Result<seq<Instruction>, ParseError>)
    ensures r == Assemble(numbers, source, maxLines)
  {
    hide ParseLine, Strip, SplitLines, EncodedLength, Analyze;
    if EncodedLength(source) > MAX_SOURCE_BYTES {
      return Err(TooManyBytes);
    }
    var lines := SplitLines(source);
    var ir: seq<Instruction> := [];
    for i := 0 to |lines|
      invariant ParseLines(numbers, lines[..i], maxLines) == Ok(ir)
    {
      assert lines[..i + 1][..i] == lines[..i];
      var line := Strip(lines[i]);
      if Skipped(line) {
        continue;
      }
      FirstErrorStaysIfAny(numbers, lines, maxLines, i + 1);
      if |ir| >= maxLines {
        return Err(TooManyInstructions);
      }
      var parsed := ParseLine(numbers, line);
      if parsed.Err? {
        return Err(OnLine(i + 1, parsed.error));
      }
      ir := ir + [parsed.value];
    }
    assert lines[..|lines|] == lines;
    if ir == [] || ir[|ir| - 1].op != Halt {
      ir := ir + [HALT];
    }
    var analysis := AnalyzeIr(ir, DEFAULT_MAX_INSTRUCTIONS, DEFAULT_MAX_STACK);
    return if analysis.Ok? then Ok(ir) else Err(Rejected(analysis.error));
  }

  lemma FirstErrorStaysIfAny(numbers: Numbers, lines: seq<string>, maxLines: nat, k: nat)
    requires k <= |lines|
    ensures ParseLines(numbers, lines[..k], maxLines).Err? ==>
              ParseLines(numbers, lines, maxLines) == ParseLines(numbers, lines[..k], maxLines)
  {
    if ParseLines(numbers, lines[..k], maxLines).Err? {
      FirstErrorStays(numbers, lines, maxLines, k);
    }
  }

  // ----- one line round trip -----

  /** No white space, no comment sign. */
  predicate Plain(s: string) {
    s != "" && Spaceless(s) && '#' !in s
  }

  /** Python reads back the operand it printed; a float constant is within float's range. */
  predicate Readable(numbers: Numbers, ins: Instruction) {
    match ins.arg
    case IntArg(i) =>
      if ins.op == PushConst then numbers.readFloat(Decimal(i)) == FiniteValue(i as real)
      else numbers.readInt(Decimal(i)) == Some(i)
    case FloatArg(f) =>
      Plain(numbers.showFloat(f)) && numbers.readFloat(numbers.showFloat(f)) == FiniteValue(f) && FloatConvertible(f.Floor)
    case _ => true
  }

  predicate Good(numbers: Numbers, ins: Instruction) {
    ValidOperand(ins) && Readable(numbers, ins)
  }

  /** An integral float comes back as an integer of the same value. */
  function Normal(ins: Instruction): Instruction {
    if ins.arg.FloatArg? then Instruction(ins.op, Constant(ins.arg.f)) else ins
  }

  lemma DecimalIsPlain(i: int)
    ensures Plain(Decimal(i))
  {
    hide Digits;
  }

  predicate IsLower(s: string) {
    s != "" && forall k :: 0 <= k < |s| ==> 'a' <= s[k] <= 'z' || s[k] == '_'
  }

  lemma InputsArePlain(name: string)
    requires name in INPUTS
    ensures Plain(name)
  {
    assert IsLower(name) by {
      InputsAreLower(name);
    }
  }

  lemma InputsAreLower(name: string)
    requires name in INPUTS
    ensures IsLower(name)
  {
    if name in INPUTS[..5] {
      EarlyInputs(name);
    } else {
      LateInputs(name);
    }
  }

  lemma EarlyInputs(name: string)
    requires name in INPUTS[..5]
    ensures IsLower(name)
  {
    assert INPUTS[..5] == [INPUTS[0], INPUTS[1], INPUTS[2], INPUTS[3], INPUTS[4]];
  }

  lemma LateInputs(name: string)
    requires name in INPUTS[5..]
    ensures IsLower(name)
  {
    assert INPUTS[5..] == [INPUTS[5], INPUTS[6], INPUTS[7], INPUTS[8], INPUTS[9]];
  }

  lemma ArgIsPlain(numbers: Numbers, ins: Instruction)
    requires Good(numbers, ins) && !ins.arg.NoArg?
    ensures Plain(ArgText(numbers, ins.arg))
  {
    hide Decimal, Plain;
    match ins.arg
    case IntArg(i) => DecimalIsPlain(i);
    case FloatArg(_) =>
    case NonFiniteArg =>
    case TextArg(name) => InputsArePlain(name);
  }

  /** The text after the opcode, with a tail that is empty or a comment behind two blanks. */
  function Rest(numbers: Numbers, ins: Instruction, tail: string): string {
    (if ins.arg.NoArg? then "" else " " + ArgText(numbers, ins.arg)) + tail
  }

  predicate IsTail(tail: string) {
    tail == "" || (|tail| >= 3 && tail[..3] == "  #")
  }

  lemma OperandOf(arg: string, tail: string)
    requires Plain(arg) && IsTail(tail)
    ensures Operand(" " + arg + tail) == Some(Some(arg))
  {
    hide ArgEnd;
    var s := " " + arg + tail;
    assert s == " " + (arg + tail);
    assert IsSpace(' ');
    SpaceRunOf(" ", arg + tail);
    ArgEndOf(arg, tail);
    assert s[1..1 + |arg|] == arg;
  }

  lemma ArgEndOf(arg: string, tail: string)
    requires Plain(arg) && IsTail(tail)
    ensures var s := " " + arg + tail;
            s[1] != '#' && !IsSpace(s[1]) && ArgEnd(s, 1) == 1 + |arg|
  {
    hide BackOverBlanks, HashFrom, TailMatches;
    var s := " " + arg + tail;
    var h := if tail == "" then |s| else 1 + |arg| + 2;
    assert forall k | 1 <= k < 1 + |arg| :: s[k] == arg[k - 1];
    assert tail != "" ==> s[1 + |arg|] == tail[..3][0] && s[2 + |arg|] == tail[..3][1] && s[3 + |arg|] == tail[..3][2];
    assert HashFrom(s, 1) == h by { HashAt(s, 1, h); }
    assert !IsSpace(s[|arg|]);
  }

  lemma {:induction false} SpaceRunOf(blank: string, rest: string)
    requires Blank(blank) && (rest == "" || !IsSpace(rest[0]))
    ensures SpaceRun(blank + rest) == |blank|
  {
    if blank == "" {
      assert blank + rest == rest;
    } else {
      assert (blank + rest)[1..] == blank[1..] + rest;
      SpaceRunOf(blank[1..], rest);
    }
  }

  lemma HashAt(s: string, i: nat, n: nat)
    requires i <= n <= |s| && (forall k | i <= k < n :: s[k] != '#') && (n < |s| ==> s[n] == '#')
    ensures HashFrom(s, i) == n
  {
  }

  lemma {:induction false} NameRunOf(name: string, rest: string)
    requires (forall k :: 0 <= k < |name| ==> NameChar(name[k])) && (rest == "" || !NameChar(rest[0]))
    ensures NameRun(name + rest) == |name|
  {
    if name == "" {
      assert name + rest == rest;
    } else {
      assert (name + rest)[1..] == name[1..] + rest;
      NameRunOf(name[1..], rest);
    }
  }

  lemma OpStartOf(k: nat, body: string)
    requires body != "" && !IsSpace(body[0])
    ensures var line := Padded(k) + ": " + body;
            OpStart(line) == |Padded(k)| + 2 && line[OpStart(line)..] == body
  {
    hide Padded, DigitRun;
    var line := Padded(k) + ": " + body;
    assert line == Padded(k) + (": " + body);
    DigitRunOf(Padded(k), ": " + body);
    assert line[|Padded(k)| + 1..] == " " + body;
    SpaceRunOf(" ", body);
  }

  /** A printed line, with or without a comment, is read as its opcode and the operand text. */
  lemma LineIsRead(numbers: Numbers, k: nat, ins: Instruction, tail: string)
    requires Good(numbers, ins) && IsTail(tail)
    ensures ParseLine(numbers, BareLine(numbers, k, ins) + tail) ==
            match Operand(Rest(numbers, ins, tail))
            case None => Err(BadSyntax)
            case Some(raw) =>
              match ParseArg(numbers, ins.op, raw)
              case Ok(arg) => Ok(Instruction(ins.op, arg))
              case Err(fault) => Err(fault)
  {
    hide Name, Padded, Operand, ParseArg, NameRun, OpNamed, OpStart, ArgText, Readable, ValidOperand, Decimal;
    var rest := Rest(numbers, ins, tail);
    var body := Name(ins.op) + rest;
    NamesAreNames(ins.op);
    assert rest == "" || rest[0] == ' ';
    NameRunOf(Name(ins.op), rest);
    OpStartOf(k, body);
    assert BareLine(numbers, k, ins) + tail == Padded(k) + ": " + body;
    assert body[..|Name(ins.op)|] == Name(ins.op) && body[|Name(ins.op)|..] == rest;
    OpNamedInverts(ins.op, Name(ins.op));
  }

  lemma ArgIsRead(numbers: Numbers, ins: Instruction)
    requires Good(numbers, ins) && !ins.arg.NoArg?
    ensures ParseArg(numbers, ins.op, Some(ArgText(numbers, ins.arg))) == Ok(Normal(ins).arg)
  {
    hide Strip, Decimal, Plain;
    ArgIsPlain(numbers, ins);
    PlainIsStripped(ArgText(numbers, ins.arg));
  }

  lemma PlainIsStripped(s: string)
    requires Plain(s)
    ensures Strip(s) == s
  {
    StripKeeps(s);
  }

  /** A line with an operand is read back, with or without its comment. */
  lemma OperandLineRoundTrip(numbers: Numbers, k: nat, ins: Instruction, tail: string)
    requires Good(numbers, ins) && IsTail(tail) && !ins.arg.NoArg?
    ensures ParseLine(numbers, BareLine(numbers, k, ins) + tail) == Ok(Normal(ins))
  {
    hide ParseLine, ParseArg, ArgText, Operand, Good, BareLine;
    LineIsRead(numbers, k, ins, tail);
    ArgIsPlain(numbers, ins);
    OperandOf(ArgText(numbers, ins.arg), tail);
    ArgIsRead(numbers, ins);
  }

  lemma NoOperandIsRead(numbers: Numbers, ins: Instruction)
    requires ValidOperand(ins) && ins.arg.NoArg?
    ensures ParseArg(numbers, ins.op, None) == Ok(NoArg)
    ensures forall s: string :: ParseArg(numbers, ins.op, Some(s)) == Err(OperandNotAccepted)
  {
  }

  /** A line without operand is read back when it is bare; the comment the decompiler adds makes it an error. */
  lemma PlainLineRoundTrip(numbers: Numbers, k: nat, ins: Instruction, tail: string)
    requires Good(numbers, ins) && IsTail(tail) && ins.arg.NoArg?
    ensures ParseLine(numbers, BareLine(numbers, k, ins) + tail) == if tail == "" then Ok(ins) else Err(OperandNotAccepted)
  {
    hide ParseLine, BareLine, Name, ParseArg, ArgText, Readable;
    LineIsRead(numbers, k, ins, tail);
    NoOperandIsRead(numbers, ins);
    if tail != "" {
      assert tail[..3][0] == tail[0] && tail[..3][1] == tail[1] && tail[..3][2] == tail[2];
      assert tail == "  " + tail[2..];
      SpaceRunOf("  ", tail[2..]);
    }
  }

  // ----- whole programs -----

  predicate AllGood(numbers: Numbers, ir: seq<Instruction>) {
    forall k :: 0 <= k < |ir| ==> Good(numbers, ir[k])
  }

  function NormalAll(ir: seq<Instruction>): (r: seq<Instruction>)
    ensures |r| == |ir| && forall k :: 0 <= k < |ir| ==> r[k] == Normal(ir[k])
  {
    seq(|ir|, k requires 0 <= k < |ir| => Normal(ir[k]))
  }

  /** Not empty, no comment, no line break, no white space at its ends. */
  predicate Clean(line: string) {
    line != "" && OneLine(line) && line[0] != '#' && !IsSpace(line[0]) && !IsSpace(line[|line| - 1])
  }

  lemma BodyIsClean(numbers: Numbers, ins: Instruction)
    requires Good(numbers, ins)
    ensures var body := Name(ins.op) + if ins.arg.NoArg? then "" else " " + ArgText(numbers, ins.arg);
            body != "" && OneLine(body) && !IsSpace(body[|body| - 1])
  {
    hide Name, ArgText, Good;
    NamesAreNames(ins.op);
    if !ins.arg.NoArg? {
      ArgIsPlain(numbers, ins);
    }
  }

  lemma DigitsAreClean(s: string)
    requires AllDigits(s)
    ensures OneLine(s) && Spaceless(s) && '#' !in s
  {
  }

  lemma DelimiterIsClean()
    ensures OneLine(": ")
  {
  }

  lemma BareLineIsClean(numbers: Numbers, k: nat, ins: Instruction)
    requires Good(numbers, ins)
    ensures Clean(BareLine(numbers, k, ins))
  {
    hide Name, ArgText, Good, Padded, IsBreak;
    BodyIsClean(numbers, ins);
    DigitsAreClean(Padded(k));
    var body := Name(ins.op) + if ins.arg.NoArg? then "" else " " + ArgText(numbers, ins.arg);
    var line := BareLine(numbers, k, ins);
    assert line == Padded(k) + ": " + body;
    assert OneLine(": ") by { DelimiterIsClean(); }
    assert line[|line| - 1] == body[|body| - 1] && line[0] == Padded(k)[0];
  }

  lemma CommentIsClean(op: Op)
    ensures IsTail(Comment(op)) && OneLine(Comment(op)) && Comment(op) != "" && !IsSpace(Comment(op)[|Comment(op)| - 1])
  {
    hide Decimal, EncodingOf;
    var a, b := Decimal(EncodingOf(op).0), Decimal(EncodingOf(op).1);
    DecimalIsPlain(EncodingOf(op).0);
    DecimalIsPlain(EncodingOf(op).1);
    var c := Comment(op);
    assert c == "  # channel=" + a + " interval=" + b;
    assert c[..3] == "  #";
    assert c[|c| - 1] == b[|b| - 1];
  }

  lemma CommentedLineIsClean(numbers: Numbers, k: nat, ins: Instruction)
    requires Good(numbers, ins)
    ensures Clean(CommentedLine(numbers, k, ins))
  {
    hide BareLine, Comment, Good;
    BareLineIsClean(numbers, k, ins);
    CommentIsClean(ins.op);
    var a, b := BareLine(numbers, k, ins), Comment(ins.op);
    assert (a + b)[|a + b| - 1] == b[|b| - 1];
  }

  lemma NextLine(numbers: Numbers, lines: seq<string>, maxLines: nat, ir: seq<Instruction>)
    requires lines != [] && Clean(lines[|lines| - 1])
    requires ParseLines(numbers, lines[..|lines| - 1], maxLines) == Ok(ir) && |ir| < maxLines
    ensures ParseLines(numbers, lines, maxLines) ==
            match ParseLine(numbers, lines[|lines| - 1])
            case Ok(ins) => Ok(ir + [ins])
            case Err(fault) => Err(OnLine(|lines|, fault))
  {
    hide ParseLine, Strip;
    StripKeeps(lines[|lines| - 1]);
  }

  lemma {:induction false} BareLinesParse(numbers: Numbers, ir: seq<Instruction>, maxLines: nat)
    requires AllGood(numbers, ir) && |ir| <= maxLines
    ensures ParseLines(numbers, BareLines(numbers, ir), maxLines) == Ok(NormalAll(ir))
    decreases |ir|
  {
    hide Good, BareLine, ParseLine, Normal;
    if ir == [] {
      assert BareLines(numbers, ir) == [];
    } else {
      var n := |ir| - 1;
      BareLinesParse(numbers, ir[..n], maxLines);
      InitialBareLines(numbers, ir);
      BareLineIsClean(numbers, n, ir[n]);
      BareLineRoundTrip(numbers, n, ir[n]);
      hide ParseLines, BareLines, NormalAll;
      NextLine(numbers, BareLines(numbers, ir), maxLines, NormalAll(ir[..n]));
    }
  }

  lemma InitialBareLines(numbers: Numbers, ir: seq<Instruction>)
    requires ir != []
    ensures BareLines(numbers, ir)[..|ir| - 1] == BareLines(numbers, ir[..|ir| - 1])
    ensures NormalAll(ir) == NormalAll(ir[..|ir| - 1]) + [Normal(ir[|ir| - 1])]
  {
    hide BareLine, Normal;
  }

  lemma BareLineRoundTrip(numbers: Numbers, k: nat, ins: Instruction)
    requires Good(numbers, ins)
    ensures ParseLine(numbers, BareLine(numbers, k, ins)) == Ok(Normal(ins))
  {
    hide ParseLine, BareLine, Good;
    assert BareLine(numbers, k, ins) + "" == BareLine(numbers, k, ins);
    if ins.arg.NoArg? {
      PlainLineRoundTrip(numbers, k, ins, "");
    } else {
      OperandLineRoundTrip(numbers, k, ins, "");
    }
  }

  lemma NormalStaysValid(numbers: Numbers, ins: Instruction)
    requires Good(numbers, ins)
    ensures ValidOperand(Normal(ins)) && Normal(ins).op == ins.op
    ensures Normal(ins).arg.IntArg? && ins.arg.FloatArg? ==> Normal(ins).arg.i as real == ins.arg.f
  {
  }

  /** The program a listing stands for is accepted, unless the added HALT is one too many. */
  lemma SealedListing(numbers: Numbers, ir: seq<Instruction>)
    requires Accepted(ir, DEFAULT_MAX_INSTRUCTIONS, DEFAULT_MAX_STACK) && AllGood(numbers, ir)
    ensures Sealed(NormalAll(ir)) ==
            if |Seal(NormalAll(ir))| <= DEFAULT_MAX_INSTRUCTIONS then Ok(Seal(NormalAll(ir))) else Err(InstructionLimit)
  {
    hide ValidOperand, Normal, Analyze, AnalysisOf, FaultAt, LiveLength, Accepted, Readable;
    var code := NormalAll(ir);
    var sealed := Seal(code);
    var live := LiveLength(ir);
    AnalyzeAcceptsExactly(ir, DEFAULT_MAX_INSTRUCTIONS, DEFAULT_MAX_STACK);
    LiveEnds(ir);
    forall k | 0 <= k < |ir|
      ensures sealed[k] == Normal(ir[k]) && ValidOperand(sealed[k]) && sealed[k].op == ir[k].op
    {
      NormalStaysValid(numbers, ir[k]);
    }
    LivePrefixUnique(sealed, if HasHalt(ir) then live else |sealed|);
    SameShapeIsAccepted(ir, sealed);
  }

  /**
   Text round trip on listings without comments: parsing the printed lines gives the same program, with
   integral constants as integers and a HALT added only when the last instruction is none, whenever
   the source and the result are within their limits.
   */
  lemma TextRoundTrip(numbers: Numbers, ir: seq<Instruction>)
    requires Accepted(ir, DEFAULT_MAX_INSTRUCTIONS, DEFAULT_MAX_STACK) && AllGood(numbers, ir)
    ensures var source := JoinLines(BareLines(numbers, ir));
            Assemble(numbers, source, MAX_LINES) ==
            if EncodedLength(source) > MAX_SOURCE_BYTES then Err(TooManyBytes)
            else if |Seal(NormalAll(ir))| > 512 then Err(Rejected(InstructionLimit))
            else Ok(Seal(NormalAll(ir)))
  {
    hide Good, BareLine, Normal, Seal, Sealed, EncodedLength, ParseLines, JoinLines, SplitLines;
    forall k | 0 <= k < |ir|
      ensures Clean(BareLines(numbers, ir)[k])
    {
      BareLineIsClean(numbers, k, ir[k]);
    }
    LinesRoundTrip(BareLines(numbers, ir));
    BareLinesParse(numbers, ir, MAX_LINES);
    SealedListing(numbers, ir);
  }

  // ----- what the decompiler's own output parses to -----

  lemma InitialLines(numbers: Numbers, ir: seq<Instruction>)
    requires ir != []
    ensures CommentedLines(numbers, ir)[..|ir| - 1] == CommentedLines(numbers, ir[..|ir| - 1])
    ensures NormalAll(ir) == NormalAll(ir[..|ir| - 1]) + [Normal(ir[|ir| - 1])]
  {
    hide CommentedLine, Normal;
  }

  lemma InitialGood(numbers: Numbers, ir: seq<Instruction>)
    requires AllGood(numbers, ir) && ir != [] && AllTakeOperands(ir)
    ensures AllGood(numbers, ir[..|ir| - 1]) && AllTakeOperands(ir[..|ir| - 1])
  {
    hide Good;
  }

  lemma {:induction false} CommentedLinesParse(numbers: Numbers, ir: seq<Instruction>, maxLines: nat)
    requires AllGood(numbers, ir) && |ir| <= maxLines && AllTakeOperands(ir)
    ensures ParseLines(numbers, CommentedLines(numbers, ir), maxLines) == Ok(NormalAll(ir))
    decreases |ir|
  {
    hide ParseLine, Normal, CommentedLine, AllGood, AllTakeOperands, Clean;
    if ir == [] {
      assert CommentedLines(numbers, ir) == [];
    } else {
      var n := |ir| - 1;
      InitialGood(numbers, ir);
      CommentedLinesParse(numbers, ir[..n], maxLines);
      InitialLines(numbers, ir);
      LastLineParses(numbers, ir);
      hide ParseLines;
      NextLine(numbers, CommentedLines(numbers, ir), maxLines, NormalAll(ir[..n]));
    }
  }

  lemma LastLineParses(numbers: Numbers, ir: seq<Instruction>)
    requires AllGood(numbers, ir) && ir != [] && AllTakeOperands(ir)
    ensures var line := CommentedLines(numbers, ir)[|ir| - 1];
            Clean(line) && ParseLine(numbers, line) == Ok(Normal(ir[|ir| - 1]))
  {
    hide Good, BareLine, ParseLine, Normal, Comment;
    var n := |ir| - 1;
    CommentedLineIsClean(numbers, n, ir[n]);
    CommentIsClean(ir[n].op);
    OperandLineRoundTrip(numbers, n, ir[n], Comment(ir[n].op));
  }

  /** The first instruction without an operand makes the listing fail on its line. */
  lemma CommentedLineFails(numbers: Numbers, ir: seq<Instruction>, maxLines: nat, k: nat)
    requires AllGood(numbers, ir) && |ir| <= maxLines && k < |ir| && ir[k].arg.NoArg?
    requires forall j :: 0 <= j < k ==> !ir[j].arg.NoArg?
    ensures ParseLines(numbers, CommentedLines(numbers, ir), maxLines) == Err(OnLine(k + 1, OperandNotAccepted))
  {
    hide Good, BareLine, ParseLine, Normal, Comment, ParseLines;
    var lines := CommentedLines(numbers, ir);
    CommentedLinesParse(numbers, ir[..k], maxLines);
    assert lines[..k + 1][..k] == CommentedLines(numbers, ir[..k]);
    CommentedLineIsClean(numbers, k, ir[k]);
    CommentIsClean(ir[k].op);
    PlainLineRoundTrip(numbers, k, ir[k], Comment(ir[k].op));
    NextLine(numbers, lines[..k + 1], maxLines, NormalAll(ir[..k]));
    FirstErrorStays(numbers, lines, maxLines, k + 1);
  }

  predicate AllTakeOperands(ir: seq<Instruction>) {
    forall k :: 0 <= k < |ir| ==> !ir[k].arg.NoArg?
  }

  /** The lines of a decompiled program are the lines parse_assembly sees. */
  lemma DecompiledLines(numbers: Numbers, ir: seq<Instruction>)
    requires AllGood(numbers, ir)
    ensures SplitLines(JoinLines(CommentedLines(numbers, ir))) == CommentedLines(numbers, ir)
  {
    hide Good, CommentedLine, JoinLines, SplitLines;
    forall k | 0 <= k < |ir|
      ensures Clean(CommentedLines(numbers, ir)[k])
    {
      CommentedLineIsClean(numbers, k, ir[k]);
    }
    LinesRoundTrip(CommentedLines(numbers, ir));
  }

  /**
   The decompiler's output, comments and all, parses again exactly when it is within the byte limit,
   every instruction carries an operand and there is room for the HALT such a program lacks: two blanks before a comment are read as
   an operand by every instruction that has none.
   */
  lemma DecompiledParsesExactly(numbers: Numbers, ir: seq<Instruction>)
    requires Accepted(ir, DEFAULT_MAX_INSTRUCTIONS, DEFAULT_MAX_STACK) && AllGood(numbers, ir)
    ensures var text := JoinLines(CommentedLines(numbers, ir));
            var result := Assemble(numbers, text, MAX_LINES);
            && (result.Ok? <==> EncodedLength(text) <= 128_000 && AllTakeOperands(ir) && |ir| < 512)
            && (result.Ok? ==> result.value == NormalAll(ir) + [HALT])
  {
    hide Good, CommentedLine, Normal, Sealed, EncodedLength, ParseLines, JoinLines, SplitLines;
    DecompiledLines(numbers, ir);
    if AllTakeOperands(ir) {
      CommentedLinesParse(numbers, ir, MAX_LINES);
      SealedListing(numbers, ir);
      LastTakesOperand(numbers, ir);
    } else {
      var k := FirstWithout(ir);
      CommentedLineFails(numbers, ir, MAX_LINES, k);
    }
  }

  lemma LastTakesOperand(numbers: Numbers, ir: seq<Instruction>)
    requires ir != [] && AllGood(numbers, ir) && AllTakeOperands(ir)
    ensures Seal(NormalAll(ir)) == NormalAll(ir) + [HALT]
  {
    var last := ir[|ir| - 1];
    assert Good(numbers, last) && !last.arg.NoArg?;
  }

  function FirstWithout(ir: seq<Instruction>): (k: nat)
    requires !AllTakeOperands(ir)
    ensures k < |ir| && ir[k].arg.NoArg? && forall j :: 0 <= j < k ==> !ir[j].arg.NoArg?
  {
    if ir[0].arg.NoArg? then 0 else 1 + FirstWithout(ir[1..])
  }
}
