/**
 The sealed instruction set of the Velato policy dialect: opcodes, operands, the
 declared stack effects, the MIDI instruction banks and operand validation.
 */
module VelatoIr {
  datatype Op =
    // bank 0: core
    | Halt | PushConst | LoadInput | Add | Sub | Mul | Gt | Select
    | StoreScore | StoreSeverity | StoreRoute | StoreSuppress
    // bank 1: numeric
    | Min | Max | Div | Mod | Neg | Abs | Clamp | Floor | Ceil | Round | Pow | Sqrt
    // bank 2: comparisons and booleans
    | Eq | Ne | Lt | Lte | Gte | And | Or | Xor | Not | IsZero | Between | Sign
    // bank 3: stack, locals, output introspection
    | Dup | Swap | Over | Drop | LoadLocal | StoreLocal | Nop | StackDepth
    | LoadScore | LoadSeverity | LoadRoute | LoadSuppress

  /** Python's `float | int | str | None`; a float is a finite real or a non-finite value. */
  datatype Arg = NoArg | IntArg(i: int) | FloatArg(f: real) | NonFiniteArg | TextArg(s: string)

  datatype Instruction = Instruction(op: Op, arg: Arg)

  const HALT: Instruction := Instruction(Halt, NoArg)

  datatype Output = AlertScore | SeverityCode | RoutingCode | Suppressed

  /** Every way the analyzer, the machine, the codecs and the builder can reject. */
  datatype Fault =
    // static analysis
    | EmptyProgram | InstructionLimit | BadOperand | StaticUnderflow(index: nat) | StackLimit
    // inputs
    | MissingInput(name: string) | NonFiniteInput(name: string)
    // a machine fault that analysis is meant to rule out
    | StackUnderflow
    // numeric faults
    | NonFinite | DivisionByZero | ModuloByZero | InvalidExponentiation | NegativeRoot
    | ClampBounds | BetweenBounds
    // codecs
    | MissingRoot | UnsupportedBank | InvalidInputRegister | InvalidLocalRegister | Unencodable
    | RootOutOfRange | BadTiming | ByteLimit | NotMidi | SysexUnsupported | NoteLimit | TooFewNotes
    // macro library
    | NoTerms | ZeroTotalWeight | UnorderedThresholds | NonPositiveScale
    | OutputsNotWritten(missing: set<Output>)

  predicate Numeric(e: Fault) {
    e in {NonFinite, DivisionByZero, ModuloByZero, InvalidExponentiation, NegativeRoot, ClampBounds, BetweenBounds}
  }

  const MAX_LOCALS := 16
  const DEFAULT_MAX_INSTRUCTIONS := 512
  const DEFAULT_MAX_STACK := 64

  const INPUTS: seq<string> := [
    "source_trust", "corroboration_count", "contradiction_count", "novelty", "entity_relevance",
    "graph_centrality", "geographic_relevance", "watchlist_match", "recency", "source_diversity"]

  /** The smallest positive integer that `float()` refuses to convert: 2^1024 - 2^970. */
  const FLOAT_OVERFLOW: int :=
    0xFFFFFFFFFFFFFC00000000000000000000000000000000000000000000000000000000000000000000000000000000000000000000000000000000000000000000000000000000000000000000000000000000000000000000000000000000000000000000000000000000000000000000000000000000000000000000000000

  predicate FloatConvertible(i: int) {
    -FLOAT_OVERFLOW < i < FLOAT_OVERFLOW
  }

  /** The declared table `STACK_EFFECTS`: how many cells an opcode pops and pushes. */
  function StackEffect(op: Op): (nat, nat) {
    match op
    case Halt => (0, 0)
    case PushConst | LoadInput => (0, 1)
    case Add | Sub | Mul | Gt => (2, 1)
    case Select => (3, 1)
    case StoreScore | StoreSeverity | StoreRoute | StoreSuppress => (1, 0)
    case Min | Max | Div | Mod => (2, 1)
    case Neg | Abs => (1, 1)
    case Clamp => (3, 1)
    case Floor | Ceil | Round => (1, 1)
    case Pow => (2, 1)
    case Sqrt => (1, 1)
    case Eq | Ne | Lt | Lte | Gte | And | Or | Xor => (2, 1)
    case Not | IsZero => (1, 1)
    case Between => (3, 1)
    case Sign => (1, 1)
    case Dup => (1, 2)
    case Swap => (2, 2)
    case Over => (2, 3)
    case Drop => (1, 0)
    case LoadLocal => (0, 1)
    case StoreLocal => (1, 0)
    case Nop => (0, 0)
    case StackDepth | LoadScore | LoadSeverity | LoadRoute | LoadSuppress => (0, 1)
  }

  function Pops(op: Op): nat { StackEffect(op).0 }

  function Pushes(op: Op): nat { StackEffect(op).1 }

  predicate IsLocalOp(op: Op) {
    op == LoadLocal || op == StoreLocal
  }

  /** `_validate_instruction`: does the operand fit the opcode? */
  predicate ValidOperand(ins: Instruction) {
    match ins.op
    case PushConst =>
      (match ins.arg
       case IntArg(i) => FloatConvertible(i)
       case FloatArg(_) => true
       case _ => false)
    case LoadInput => ins.arg.TextArg? && ins.arg.s in INPUTS
    case LoadLocal | StoreLocal => ins.arg.IntArg? && 0 <= ins.arg.i < MAX_LOCALS
    case _ => ins.arg.NoArg?
  }

  function ReadBy(ins: Instruction): set<string> {
    if ins.op == LoadInput && ins.arg.TextArg? then {ins.arg.s} else {}
  }

  function TouchedBy(ins: Instruction): set<int> {
    if IsLocalOp(ins.op) && ins.arg.IntArg? then {ins.arg.i} else {}
  }

  function WrittenBy(op: Op): set<Output> {
    match op
    case StoreScore => {AlertScore}
    case StoreSeverity => {SeverityCode}
    case StoreRoute => {RoutingCode}
    case StoreSuppress => {Suppressed}
    case _ => {}
  }

  const ALL_OUTPUTS: set<Output> := {AlertScore, SeverityCode, RoutingCode, Suppressed}

  /** The instruction banks: interval 0..11 within a bank 0..3 selects an opcode. */
  const BANKS: seq<seq<Op>> := [
    [Halt, PushConst, LoadInput, Add, Sub, Mul, Gt, Select, StoreScore, StoreSeverity, StoreRoute, StoreSuppress],
    [Min, Max, Div, Mod, Neg, Abs, Clamp, Floor, Ceil, Round, Pow, Sqrt],
    [Eq, Ne, Lt, Lte, Gte, And, Or, Xor, Not, IsZero, Between, Sign],
    [Dup, Swap, Over, Drop, LoadLocal, StoreLocal, Nop, StackDepth, LoadScore, LoadSeverity, LoadRoute, LoadSuppress]]
}
