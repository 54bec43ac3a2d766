/**
 The restricted Merzato machine: jumps, calls, a heap, sixteen registers and five resource limits.
 `Step` is the pure meaning of one step; the class runs it in place.
 */
module MerzatoVm {
  import opened Outcomes

  /** A JavaScript string: UTF-16 code units. */
  type Text = seq<nat>

  /**
   JavaScript's `MerzatoValue`, plus the register operand, which PUSH can put on the stack. A
   `number` is given by its rendering and by its integer value when that is safe.
   */
  datatype Value =
    | Big(n: int)
    | Number(rendering: Text, safe: Option<int>)
    | Str(text: Text)
    | Boolean(b: bool)
    | Null
    | Undefined
    | Reg(index: int)

  datatype Op =
    | Nop | Push | Pop | Dup | Swap | Add | Sub | Mul | Div | Mod | Not | CmpGt
    | Load | Store | HLoad | HStore | Jmp | Jz | Jnz | Call | Ret
    | ToStr | Concat | OutN | OutC | Sys | HaltOp | Unknown(name: string)

  /** The first operand is all the machine looks at; a missing one is `undefined`. */
  datatype Instruction = Instruction(op: Op, operand: Value, line: Option<int>)

  datatype Program = Program(instructions: seq<Instruction>, labels: map<Text, int>, entry: int)

  datatype Limits = Limits(maxSteps: int, maxStackDepth: int, maxCallDepth: int, maxHeapCells: int, maxStringLength: int)

  datatype Code =
    | ResourceLimit | StackUnderflow | TypeError | InvalidRegister | InvalidTarget
    | DivisionByZero | UnsupportedSyscall | UnknownOpcode

  /** What `fail` throws: the code, the program counter at that moment, and the source line if one was passed. */
  datatype Error = Error(code: Code, pc: int, line: Option<int>)

  /** What a MerzScript phrase means once its name is normalised. */
  datatype Syscall = CriticSays | PerformanceOver | NotEnabled

  /** Phrase normalisation, supplied by the caller of the model. */
  type Phrases = Value -> Syscall

  const REGISTER_COUNT := 16

  datatype State = State(
    pc: int, stack: seq<Value>, callStack: seq<int>, registers: seq<Value>, heap: map<int, Value>,
    output: Text, halted: bool)

  function Start(p: Program): State {
    State(p.entry, [], [], seq(REGISTER_COUNT, i requires 0 <= i < REGISTER_COUNT => Big(0)), map[], [], false)
  }

  // ----- rendering -----

  function Units(s: string): Text {
    seq(|s|, i requires 0 <= i < |s| => s[i] as int)
  }

  function Digits(n: nat): Text {
    if n < 10 then [48 + n] else Digits(n / 10) + [48 + n % 10]
  }

  function Decimal(n: int): Text {
    if n < 0 then [45] + Digits(-n) else Digits(n)
  }

  /** JavaScript's `String(value)`. */
  function Render(v: Value): Text {
    match v
    case Big(n) => Decimal(n)
    case Number(rendering, _) => rendering
    case Str(text) => text
    case Boolean(b) => if b then Units("true") else Units("false")
    case Null => Units("null")
    case Undefined => Units("undefined")
    case Reg(_) => Units("[object Object]")
  }

  // ----- conversions -----

  predicate AllDigits(t: Text) {
    forall k :: 0 <= k < |t| ==> 48 <= t[k] <= 57
  }

  function ReadDigits(t: Text): nat
    requires AllDigits(t)
  {
    if t == [] then 0 else ReadDigits(t[..|t| - 1]) * 10 + (t[|t| - 1] - 48)
  }

  /** `/^[+-]?\d+$/` followed by `BigInt`. */
  function ReadInteger(t: Text): Option<int> {
    var signed := t != [] && (t[0] == 43 || t[0] == 45);
    var digits := if signed then t[1..] else t;
    if digits == [] || !AllDigits(digits) then None
    else
      var magnitude: int := ReadDigits(digits);
      Some(if t[0] == 45 then -magnitude else magnitude)
  }

  function AsInteger(v: Value): Option<int> {
    match v
    case Big(n) => Some(n)
    case Number(_, safe) => safe
    case Str(text) => ReadInteger(text)
    case _ => None
  }

  /** The machine's notion of zero: the falsy values. A register object is truthy. */
  predicate IsZero(v: Value) {
    match v
    case Big(n) => n == 0
    case Number(_, safe) => safe == Some(0)
    case Str(text) => text == []
    case Boolean(b) => !b
    case Null => true
    case Undefined => true
    case Reg(_) => false
  }

  function JumpTarget(p: Program, v: Value): Option<int> {
    var target := match v
                  case Big(n) => Some(n)
                  case Number(_, safe) => safe
                  case Str(text) => if text in p.labels then Some(p.labels[text]) else None
                  case _ => None;
    if target.Some? && 0 <= target.value <= |p.instructions| then target else None
  }

  function RegisterIndex(v: Value): Option<nat> {
    if v.Reg? && 0 <= v.index < REGISTER_COUNT then Some(v.index) else None
  }

  predicate UnicodeScalar(n: int) {
    0 <= n <= 0x10FFFF && !(0xD800 <= n <= 0xDFFF)
  }

  /** `String.fromCodePoint`. */
  function FromCodePoint(n: int): Text
    requires UnicodeScalar(n)
  {
    if n < 0x1_0000 then [n]
    else [0xD800 + (n - 0x1_0000) / 0x400, 0xDC00 + (n - 0x1_0000) % 0x400]
  }

  /** BigInt division truncates toward zero. */
  function Quotient(a: int, b: int): int
    requires b != 0
  {
    var q := (if a < 0 then -a else a) / (if b < 0 then -b else b);
    if (a < 0) == (b < 0) then q else -q
  }

  /** The machine's MOD: the truncated remainder, lifted to be non-negative. */
  function Modulo(a: int, b: int): int
    requires b != 0
  {
    var r := a - b * Quotient(a, b);
    if r < 0 then r + (if b < 0 then -b else b) else r
  }

  // ----- the stack operations, with the limits they check -----

  predicate Fits(l: Limits, v: Value) {
    v.Str? ==> |v.text| <= l.maxStringLength
  }

  function Fail<T>(st: State, code: Code, line: Option<int>): Result<T, Error> {
    Err(Error(code, st.pc, line))
  }

  function PushValue(l: Limits, st: State, v: Value): Result<State, Error> {
    if |st.stack| >= l.maxStackDepth || !Fits(l, v) then Fail(st, ResourceLimit, None)
    else Ok(st.(stack := st.stack + [v]))
  }

  function PopValue(st: State): Result<(Value, State), Error> {
    if st.stack == [] then Fail(st, StackUnderflow, None)
    else Ok((st.stack[|st.stack| - 1], st.(stack := st.stack[..|st.stack| - 1])))
  }

  function PopInteger(st: State): Result<(int, State), Error> {
    var (v, st1) :- PopValue(st);
    match AsInteger(v)
    case Some(n) => Ok((n, st1))
    case None => Fail(st1, TypeError, None)
  }

  /** `binary`: both operands are popped and converted, right one first. */
  function PopIntegers(st: State): Result<(int, int, State), Error> {
    var (right, st1) :- PopInteger(st);
    var (left, st2) :- PopInteger(st1);
    Ok((left, right, st2))
  }

  function JumpTo(p: Program, st: State, operand: Value): Result<State, Error> {
    match JumpTarget(p, operand)
    case Some(target) => Ok(st.(pc := target))
    case None => Fail(st, InvalidTarget, None)
  }

  // ----- one instruction -----

  /** ADD, SUB, MUL, DIV, MOD and CMPGT. */
  function Arithmetic(l: Limits, ins: Instruction, st: State): Result<State, Error> {
    var (a, b, st1) :- PopIntegers(st);
    Combine(l, ins, a, b, st1)
  }

  function Combine(l: Limits, ins: Instruction, a: int, b: int, st: State): Result<State, Error> {
    match ins.op
    case Add => PushValue(l, st, Big(a + b))
    case Sub => PushValue(l, st, Big(a - b))
    case Mul => PushValue(l, st, Big(a * b))
    case Div => if b == 0 then Fail(st, DivisionByZero, ins.line) else PushValue(l, st, Big(Quotient(a, b)))
    case Mod => if b == 0 then Fail(st, DivisionByZero, ins.line) else PushValue(l, st, Big(Modulo(a, b)))
    case _ => PushValue(l, st, Big(if a > b then 1 else 0))
  }

  /** PUSH, POP, DUP, SWAP and NOT. */
  function StackOp(l: Limits, ins: Instruction, st: State): Result<State, Error> {
    match ins.op
    case Push => PushValue(l, st, ins.operand)
    case Pop => var (v, st1) :- PopValue(st); Ok(st1)
    case Dup => var (v, st1) :- PopValue(st); PushValue(l, st, v)
    case Swap =>
      var (right, st1) :- PopValue(st);
      var (left, st2) :- PopValue(st1);
      var st3 :- PushValue(l, st2, right);
      PushValue(l, st3, left)
    case _ => var (v, st1) :- PopValue(st); PushValue(l, st1, Big(if IsZero(v) then 1 else 0))
  }

  /** LOAD, STORE, HLOAD and HSTORE. The heap is keyed by the decimal address, hence by the address. */
  function MemoryOp(l: Limits, ins: Instruction, st: State): Result<State, Error> {
    match ins.op
    case Load =>
      (match RegisterIndex(ins.operand)
       case None => Fail(st, InvalidRegister, None)
       case Some(r) => if r < |st.registers| then PushValue(l, st, st.registers[r]) else Fail(st, InvalidRegister, None))
    case Store =>
      (match RegisterIndex(ins.operand)
       case None => Fail(st, InvalidRegister, None)
       case Some(r) =>
         var (v, st1) :- PopValue(st);
         if !Fits(l, v) then Fail(st1, ResourceLimit, None)
         else if r < |st1.registers| then Ok(st1.(registers := st1.registers[r := v]))
         else Fail(st1, InvalidRegister, None))
    case HLoad =>
      var (address, st1) :- PopInteger(st);
      PushValue(l, st1, if address in st1.heap && !st1.heap[address].Null? && !st1.heap[address].Undefined?
                        then st1.heap[address] else Big(0))
    case _ =>
      var (address, st1) :- PopInteger(st);
      var (v, st2) :- PopValue(st1);
      if !Fits(l, v) then Fail(st2, ResourceLimit, None)
      else if address !in st2.heap && |st2.heap| >= l.maxHeapCells then Fail(st2, ResourceLimit, ins.line)
      else Ok(st2.(heap := st2.heap[address := v]))
  }

  /** JMP, JZ, JNZ, CALL and RET. RET on an empty call stack goes to the end of the program. */
  function ControlOp(p: Program, l: Limits, ins: Instruction, st: State): Result<State, Error> {
    match ins.op
    case Jmp => JumpTo(p, st, ins.operand)
    case Jz => var (v, st1) :- PopValue(st); if IsZero(v) then JumpTo(p, st1, ins.operand) else Ok(st1)
    case Jnz => var (v, st1) :- PopValue(st); if !IsZero(v) then JumpTo(p, st1, ins.operand) else Ok(st1)
    case Call =>
      if |st.callStack| >= l.maxCallDepth then Fail(st, ResourceLimit, ins.line)
      else JumpTo(p, st.(callStack := st.callStack + [st.pc]), ins.operand)
    case _ =>
      if st.callStack == [] then Ok(st.(pc := |p.instructions|))
      else Ok(st.(pc := st.callStack[|st.callStack| - 1], callStack := st.callStack[..|st.callStack| - 1]))
  }

  /** TOSTR, CONCAT, OUTN, OUTC and SYS. */
  function TextOp(l: Limits, phrases: Phrases, ins: Instruction, st: State): Result<State, Error> {
    match ins.op
    case ToStr => var (v, st1) :- PopValue(st); PushValue(l, st1, Str(Render(v)))
    case Concat =>
      var (right, st1) :- PopValue(st);
      var (left, st2) :- PopValue(st1);
      PushValue(l, st2, Str(Render(left) + Render(right)))
    case OutN => var (n, st1) :- PopInteger(st); Ok(st1.(output := st1.output + Decimal(n)))
    case OutC =>
      var (n, st1) :- PopInteger(st);
      if UnicodeScalar(n) then Ok(st1.(output := st1.output + FromCodePoint(n))) else Fail(st1, TypeError, None)
    case _ =>
      match phrases(ins.operand)
      case CriticSays => var (v, st1) :- PopValue(st); Ok(st1.(output := st1.output + Render(v) + [10]))
      case PerformanceOver => Ok(st.(halted := true))
      case NotEnabled => Fail(st, UnsupportedSyscall, None)
  }

  /** `step`: fetch, advance the program counter, execute. Running off the end halts. */
  function Step(p: Program, l: Limits, phrases: Phrases, st: State): Result<State, Error> {
    if !(0 <= st.pc < |p.instructions|) then Ok(st.(halted := true))
    else
      var ins := p.instructions[st.pc];
      var st1 := st.(pc := st.pc + 1);
      match ins.op
      case Nop => Ok(st1)
      case Add | Sub | Mul | Div | Mod | CmpGt => Arithmetic(l, ins, st1)
      case Push | Pop | Dup | Swap | Not => StackOp(l, ins, st1)
      case Load | Store | HLoad | HStore => MemoryOp(l, ins, st1)
      case Jmp | Jz | Jnz | Call | Ret => ControlOp(p, l, ins, st1)
      case ToStr | Concat | OutN | OutC | Sys => TextOp(l, phrases, ins, st1)
      case HaltOp => Ok(st1.(halted := true))
      case Unknown(_) => Fail(st1, UnknownOpcode, ins.line)
  }

  // ----- whole runs -----

  /** How a run ends: the final state with the number of steps taken, or the thrown error. */
  type Ending = Result<(State, nat), Error>

  /** The run loop from a state with `steps` already taken. */
  function RunFrom(p: Program, l: Limits, phrases: Phrases, st: State, steps: nat): Ending
    decreases if l.maxSteps > steps then l.maxSteps - steps else 0
  {
    if st.halted then Ok((st, steps))
    else if steps >= l.maxSteps then Err(Error(ResourceLimit, st.pc, None))
    else
      var next :- Step(p, l, phrases, st);
      RunFrom(p, l, phrases, next, steps + 1)
  }

  function Run(p: Program, l: Limits, phrases: Phrases): Ending {
    RunFrom(p, l, phrases, Start(p), 0)
  }
}
