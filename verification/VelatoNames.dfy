/** The names of the opcodes in assembly text, and how a name is read back. */
module VelatoNames {
  import opened Outcomes
  import opened VelatoIr

  function CoreName(op: Op): string {
    match op
    case Halt => "HALT" case PushConst => "PUSH_CONST" case LoadInput => "LOAD_INPUT" case Add => "ADD"
    case Sub => "SUB" case Mul => "MUL" case Gt => "GT" case Select => "SELECT"
    case _ => ""
  }

  function StoreName(op: Op): string {
    match op
    case StoreScore => "STORE_SCORE" case StoreSeverity => "STORE_SEVERITY"
    case StoreRoute => "STORE_ROUTE" case StoreSuppress => "STORE_SUPPRESS"
    case _ => ""
  }

  function NumericName(op: Op): string {
    match op
    case Min => "MIN" case Max => "MAX" case Div => "DIV" case Mod => "MOD"
    case Neg => "NEG" case Abs => "ABS" case Clamp => "CLAMP" case Floor => "FLOOR"
    case Ceil => "CEIL" case Round => "ROUND" case Pow => "POW" case Sqrt => "SQRT"
    case _ => ""
  }

  function LogicName(op: Op): string {
    match op
    case Eq => "EQ" case Ne => "NE" case Lt => "LT" case Lte => "LTE"
    case Gte => "GTE" case And => "AND" case Or => "OR" case Xor => "XOR"
    case Not => "NOT" case IsZero => "IS_ZERO" case Between => "BETWEEN" case Sign => "SIGN"
    case _ => ""
  }

  function StateName(op: Op): string {
    match op
    case Dup => "DUP" case Swap => "SWAP" case Over => "OVER" case Drop => "DROP"
    case LoadLocal => "LOAD_LOCAL" case StoreLocal => "STORE_LOCAL" case Nop => "NOP" case StackDepth => "STACK_DEPTH"
    case LoadScore => "LOAD_SCORE" case LoadSeverity => "LOAD_SEVERITY" case LoadRoute => "LOAD_ROUTE" case LoadSuppress => "LOAD_SUPPRESS"
    case _ => ""
  }

  /** The value of an opcode's enumeration member. */
  function Name(op: Op): string {
    if CoreName(op) != "" then CoreName(op)
    else if StoreName(op) != "" then StoreName(op)
    else if NumericName(op) != "" then NumericName(op)
    else if LogicName(op) != "" then LogicName(op)
    else StateName(op)
  }

  lemma NumericAlone(op: Op)
    requires NumericName(op) != ""
    ensures Name(op) == NumericName(op)
  {
  }

  lemma LogicAlone(op: Op)
    requires LogicName(op) != ""
    ensures Name(op) == LogicName(op)
  {
    assert CoreName(op) == StoreName(op) == "";
    assert NumericName(op) == "";
  }

  lemma StateAlone(op: Op)
    requires StateName(op) != ""
    ensures Name(op) == StateName(op)
  {
    assert CoreName(op) == StoreName(op) == "";
    assert NumericName(op) == LogicName(op) == "";
  }

  // ----- reading a name: by its length, and then by the letters that tell names of one length apart -----

  function OfTwo(s: string): Op
    requires |s| == 2
  {
    match s[0]
    case 'G' => Gt case 'E' => Eq case 'N' => Ne case 'L' => Lt case _ => Or
  }

  function OfThree(s: string): Op
    requires |s| == 3
  {
    match s[0]
    case 'A' => if s[1] == 'D' then Add else if s[1] == 'B' then Abs else And
    case 'M' => if s[1] == 'U' then Mul else if s[1] == 'I' then Min else if s[1] == 'A' then Max else Mod
    case 'D' => if s[1] == 'I' then Div else Dup
    case 'N' => if s[1] == 'E' then Neg else if s[2] == 'T' then Not else Nop
    case 'S' => Sub case 'P' => Pow case 'L' => Lte case 'G' => Gte case _ => Xor
  }

  function OfFour(s: string): Op
    requires |s| == 4
  {
    match s[0]
    case 'S' => if s[1] == 'Q' then Sqrt else if s[1] == 'I' then Sign else Swap
    case 'H' => Halt case 'C' => Ceil case 'O' => Over case _ => Drop
  }

  function OfFiveToSeven(s: string): Op
    requires 5 <= |s| <= 7
  {
    match s[0]
    case 'C' => Clamp case 'F' => Floor case 'R' => Round case 'S' => Select case 'I' => IsZero case _ => Between
  }

  function OfTen(s: string): Op
    requires |s| == 10
  {
    if s[0] == 'P' then PushConst
    else
      match s[5]
      case 'I' => LoadInput case 'L' => LoadLocal case 'S' => LoadScore case _ => LoadRoute
  }

  function OfEleven(s: string): Op
    requires |s| == 11
  {
    if s[2] == 'A' then StackDepth
    else
      match s[6]
      case 'S' => StoreScore case 'R' => StoreRoute case _ => StoreLocal
  }

  /** The one opcode a text can be the name of. */
  function Spelled(s: string): Op {
    if |s| == 2 then OfTwo(s)
    else if |s| == 3 then OfThree(s)
    else if |s| == 4 then OfFour(s)
    else if 5 <= |s| <= 7 then OfFiveToSeven(s)
    else if |s| == 10 then OfTen(s)
    else if |s| == 11 then OfEleven(s)
    else if |s| == 13 then if s[6] == 'E' then LoadSeverity else LoadSuppress
    else if |s| == 14 then if s[7] == 'E' then StoreSeverity else StoreSuppress
    else Halt
  }

  /** Op(text), by value. */
  function OpNamed(text: string): Option<Op> {
    if Name(Spelled(text)) == text then Some(Spelled(text)) else None
  }

  predicate NameChar(c: char) {
    'A' <= c <= 'Z' || c == '_'
  }

  predicate IsName(s: string) {
    s != "" && forall k :: 0 <= k < |s| ==> NameChar(s[k])
  }

  /** The same, letter by letter, for the lengths that occur. */
  predicate IsShortName(s: string) {
    && 2 <= |s| <= 14 && NameChar(s[0]) && NameChar(s[1])
    && (|s| > 2 ==> NameChar(s[2])) && (|s| > 3 ==> NameChar(s[3])) && (|s| > 4 ==> NameChar(s[4]))
    && (|s| > 5 ==> NameChar(s[5])) && (|s| > 6 ==> NameChar(s[6])) && (|s| > 7 ==> NameChar(s[7]))
    && (|s| > 8 ==> NameChar(s[8])) && (|s| > 9 ==> NameChar(s[9])) && (|s| > 10 ==> NameChar(s[10]))
    && (|s| > 11 ==> NameChar(s[11])) && (|s| > 12 ==> NameChar(s[12])) && (|s| > 13 ==> NameChar(s[13]))
  }

  lemma CoreLetters(op: Op)
    requires CoreName(op) != ""
    ensures IsShortName(CoreName(op))
  {
  }

  lemma CoreSpelled(op: Op)
    requires CoreName(op) != ""
    ensures Spelled(CoreName(op)) == op
  {
  }

  lemma StoreLetters(op: Op)
    requires StoreName(op) != ""
    ensures IsShortName(StoreName(op))
  {
  }

  lemma StoreSpelled(op: Op)
    requires StoreName(op) != ""
    ensures Spelled(StoreName(op)) == op
  {
  }

  lemma NumericLetters(op: Op)
    requires NumericName(op) != ""
    ensures IsShortName(NumericName(op))
  {
  }

  lemma NumericSpelled(op: Op)
    requires NumericName(op) != ""
    ensures Spelled(NumericName(op)) == op
  {
  }

  lemma LogicLetters(op: Op)
    requires LogicName(op) != ""
    ensures IsShortName(LogicName(op))
  {
  }

  lemma LogicSpelled(op: Op)
    requires LogicName(op) != ""
    ensures Spelled(LogicName(op)) == op
  {
  }

  lemma StateLetters(op: Op)
    requires StateName(op) != ""
    ensures IsShortName(StateName(op))
  {
    hide StateName, IsShortName;
    if op in {LoadScore, LoadSeverity, LoadRoute, LoadSuppress} {
      LoadLetters(op);
    } else {
      ShuffleLetters(op);
    }
  }

  lemma LoadLetters(op: Op)
    requires op in {LoadScore, LoadSeverity, LoadRoute, LoadSuppress}
    ensures IsShortName(StateName(op))
  {
  }

  lemma ShuffleLetters(op: Op)
    requires op !in {LoadScore, LoadSeverity, LoadRoute, LoadSuppress} && StateName(op) != ""
    ensures IsShortName(StateName(op))
  {
  }

  lemma StateSpelled(op: Op)
    requires StateName(op) != ""
    ensures Spelled(StateName(op)) == op
  {
  }

  lemma EveryOpHasAName(op: Op)
    ensures CoreName(op) != "" || StoreName(op) != "" || NumericName(op) != "" || LogicName(op) != "" || StateName(op) != ""
  {
  }

  lemma NameIsSpelled(op: Op)
    ensures IsShortName(Name(op)) && Spelled(Name(op)) == op
  {
    hide CoreName, StoreName, NumericName, LogicName, StateName, Spelled, IsShortName;
    EveryOpHasAName(op);
    if CoreName(op) != "" {
      CoreLetters(op);
      CoreSpelled(op);
    } else if StoreName(op) != "" {
      StoreLetters(op);
      StoreSpelled(op);
    } else if NumericName(op) != "" {
      NumericLetters(op);
      NumericSpelled(op);
    } else if LogicName(op) != "" {
      LogicLetters(op);
      LogicSpelled(op);
    } else {
      StateLetters(op);
      StateSpelled(op);
    }
  }

  /** Every opcode is found by its name, and only by its name. */
  lemma OpNamedInverts(op: Op, text: string)
    ensures OpNamed(text) == Some(op) <==> text == Name(op)
  {
    hide Name, Spelled, IsShortName;
    NameIsSpelled(op);
  }

  lemma NamesAreNames(op: Op)
    ensures IsName(Name(op))
  {
    hide Name;
    NameIsSpelled(op);
  }
}
