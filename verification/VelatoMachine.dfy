/**
 The policy machine. Values are reals; what double arithmetic does to an exact result is a
 parameter (`Arithmetic`), so every theorem here holds for every rounding and overflow
 behaviour. The machine pops and pushes by hand and never looks at the declared stack effects.
 */
module VelatoMachine {
  import opened Outcomes
  import opened VelatoIr
  import opened VelatoAnalyzer

  /**
   What the numeric platform contributes: `float(i)` for convertible integers, the double nearest
   to an exact result (None when it is not finite), `pow` (None when it raises) and `sqrt`.
   */
  datatype Arithmetic = Arithmetic(
    ofInt: int -> real,
    nearest: real -> Option<real>,
    power: (real, real) -> Option<real>,
    root: real -> real)

  /** A caller-supplied input value, after `float()`. */
  datatype InputValue = Finite(value: real) | Infinite

  type Environment = map<string, real>

  /** The observable machine state; the top of the stack is the last element. */
  datatype Core = Core(
    stack: seq<real>, locals: seq<real>, score: int, severity: int, route: int, suppressed: bool)

  datatype TraceEntry =
    | Executed(op: Op, arg: Arg, before: nat, after: nat, top: Option<real>)
    | Halted(arg: Arg, depth: nat)

  datatype Machine = Machine(core: Core, trace: seq<TraceEntry>, maxDepth: nat)

  const ZERO_LOCALS: seq<real> := [0.0, 0.0, 0.0, 0.0, 0.0, 0.0, 0.0, 0.0, 0.0, 0.0, 0.0, 0.0, 0.0, 0.0, 0.0, 0.0]

  const START: Machine := Machine(Core([], ZERO_LOCALS, 0, 0, 0, false), [], 0)

  // ----- arithmetic helpers -----

  function Truth(b: bool): real { if b then 1.0 else 0.0 }

  function Lesser(a: real, b: real): real { if b < a then b else a }

  function Greater(a: real, b: real): real { if b > a then b else a }

  /** Python's `round`: to the nearest integer, ties to the even one. */
  function RoundHalfEven(x: real): int {
    var down := x.Floor;
    var rest := x - down as real;
    if rest < 0.5 then down
    else if rest > 0.5 then down + 1
    else if down % 2 == 0 then down else down + 1
  }

  lemma RoundHalfEvenIsNearest(x: real)
    ensures var r := RoundHalfEven(x);
            && -0.5 <= x - r as real <= 0.5
            && (x - r as real == 0.5 || x - r as real == -0.5 ==> r % 2 == 0)
  {
    assert x.Floor as real <= x < x.Floor as real + 1.0;
  }

  function ClampInt(low: int, high: int, x: int): (r: int)
    requires low <= high
    ensures low <= r <= high
    ensures low <= x <= high ==> r == x
  {
    if x < low then low else if x > high then high else x
  }

  // ----- the stack -----

  function Pop(s: seq<real>): Result<(real, seq<real>), Fault> {
    if s == [] then Err(StackUnderflow) else Ok((s[|s| - 1], s[..|s| - 1]))
  }

  function PopBinary(s: seq<real>): Result<(real, real, seq<real>), Fault> {
    var (b, s1) :- Pop(s);
    var (a, s2) :- Pop(s1);
    Ok((a, b, s2))
  }

  /** The three operands of CLAMP, BETWEEN and SELECT, deepest first. */
  function PopTernary(s: seq<real>): Result<(real, real, real, seq<real>), Fault> {
    var (c, s1) :- Pop(s);
    var (a, b, s2) :- PopBinary(s1);
    Ok((a, b, c, s2))
  }

  function Push(s: seq<real>, v: Option<real>): Result<seq<real>, Fault> {
    if v.None? then Err(NonFinite) else Ok(s + [v.value])
  }

  // ----- operations, by shape -----

  function BinaryValue(ar: Arithmetic, op: Op, a: real, b: real): Option<real> {
    match op
    case Add => ar.nearest(a + b)
    case Sub => ar.nearest(a - b)
    case Mul => ar.nearest(a * b)
    case Min => Some(Lesser(a, b))
    case Max => Some(Greater(a, b))
    case Gt => Some(Truth(a > b))
    case Eq => Some(Truth(a == b))
    case Ne => Some(Truth(a != b))
    case Lt => Some(Truth(a < b))
    case Lte => Some(Truth(a <= b))
    case Gte => Some(Truth(a >= b))
    case And => Some(Truth(a != 0.0 && b != 0.0))
    case Or => Some(Truth(a != 0.0 || b != 0.0))
    case _ => Some(Truth((a != 0.0) != (b != 0.0)))
  }

  function Binary(ar: Arithmetic, op: Op, s: seq<real>): Result<seq<real>, Fault> {
    var (a, b, rest) :- PopBinary(s);
    Push(rest, BinaryValue(ar, op, a, b))
  }

  /** Python's `%`: the remainder of the floored quotient. */
  function Remainder(a: real, b: real): real
    requires b != 0.0
  {
    a - b * (a / b).Floor as real
  }

  /** DIV, MOD and POW: the partial binary operations. */
  function Partial(ar: Arithmetic, op: Op, s: seq<real>): Result<seq<real>, Fault> {
    var (a, b, rest) :- PopBinary(s);
    match op
    case Div => if b == 0.0 then Err(DivisionByZero) else Push(rest, ar.nearest(a / b))
    case Mod => if b == 0.0 then Err(ModuloByZero) else Push(rest, ar.nearest(Remainder(a, b)))
    case _ => if ar.power(a, b).None? then Err(InvalidExponentiation) else Push(rest, ar.power(a, b))
  }

  function Unary(ar: Arithmetic, op: Op, s: seq<real>): Result<seq<real>, Fault> {
    var (v, rest) :- Pop(s);
    match op
    case Neg => Push(rest, Some(-v))
    case Abs => Push(rest, Some(if v < 0.0 then -v else v))
    case Floor => Push(rest, Some(v.Floor as real))
    case Ceil => Push(rest, Some(-((-v).Floor as real)))
    case Round => Push(rest, Some(RoundHalfEven(v) as real))
    case Sqrt => if v < 0.0 then Err(NegativeRoot) else Push(rest, Some(ar.root(v)))
    case Not => Push(rest, Some(Truth(v == 0.0)))
    case IsZero => Push(rest, Some(Truth(v == 0.0)))
    case _ => Push(rest, Some(if v < 0.0 then -1.0 else if v > 0.0 then 1.0 else 0.0))
  }

  function Ternary(op: Op, s: seq<real>): Result<seq<real>, Fault> {
    var (a, b, c, rest) :- PopTernary(s);
    match op
    case Clamp => if b > c then Err(ClampBounds) else Push(rest, Some(Greater(b, Lesser(c, a))))
    case Between => if b > c then Err(BetweenBounds) else Push(rest, Some(Truth(b <= a <= c)))
    case _ => Push(rest, Some(if a != 0.0 then b else c))
  }

  function Shuffle(op: Op, s: seq<real>): Result<seq<real>, Fault> {
    match op
    case Dup => var (v, rest) :- Pop(s); Ok(rest + [v] + [v])
    case Swap => var (a, b, rest) :- PopBinary(s); Ok(rest + [b] + [a])
    case Over => var (a, b, rest) :- PopBinary(s); Ok(rest + [a] + [b] + [a])
    case _ => var (v, rest) :- Pop(s); Ok(rest)
  }

  /** The value an operation pushes without popping anything. */
  function Source(ar: Arithmetic, env: Environment, ins: Instruction, c: Core): Result<real, Fault> {
    match ins.op
    case PushConst =>
      (match ins.arg
       case IntArg(i) => if FloatConvertible(i) then Ok(ar.ofInt(i)) else Err(BadOperand)
       case FloatArg(f) => Ok(f)
       case _ => Err(BadOperand))
    case LoadInput => if ins.arg.TextArg? && ins.arg.s in env then Ok(env[ins.arg.s]) else Err(BadOperand)
    case LoadLocal => if ins.arg.IntArg? && 0 <= ins.arg.i < |c.locals| then Ok(c.locals[ins.arg.i]) else Err(BadOperand)
    case StackDepth => Ok(|c.stack| as real)
    case LoadScore => Ok(c.score as real)
    case LoadSeverity => Ok(c.severity as real)
    case LoadRoute => Ok(c.route as real)
    case _ => Ok(Truth(c.suppressed))
  }

  /** STORE_LOCAL and the four output stores. */
  function Store(ins: Instruction, c: Core): Result<Core, Fault> {
    var (v, rest) :- Pop(c.stack);
    var c' := c.(stack := rest);
    match ins.op
    case StoreScore => Ok(c'.(score := ClampInt(0, 100, RoundHalfEven(v))))
    case StoreSeverity => Ok(c'.(severity := ClampInt(0, 9, RoundHalfEven(v))))
    case StoreRoute => Ok(c'.(route := ClampInt(0, 255, RoundHalfEven(v))))
    case StoreSuppress => Ok(c'.(suppressed := v != 0.0))
    case _ =>
      if ins.arg.IntArg? && 0 <= ins.arg.i < |c.locals|
      then Ok(c'.(locals := c.locals[ins.arg.i := v]))
      else Err(BadOperand)
  }

  /** Which group of the interpreter's dispatch an opcode belongs to. */
  datatype Shape = Idle | Produces | Combines | CombinesPartially | Maps | Chooses | Shuffles | Stores

  function ShapeOf(op: Op): Shape {
    match op
    case Halt | Nop => Idle
    case PushConst | LoadInput | LoadLocal | StackDepth | LoadScore | LoadSeverity | LoadRoute | LoadSuppress => Produces
    case Add | Sub | Mul | Min | Max | Gt | Eq | Ne | Lt | Lte | Gte | And | Or | Xor => Combines
    case Div | Mod | Pow => CombinesPartially
    case Neg | Abs | Floor | Ceil | Round | Sqrt | Not | IsZero | Sign => Maps
    case Clamp | Between | Select => Chooses
    case Dup | Swap | Over | Drop => Shuffles
    case StoreScore | StoreSeverity | StoreRoute | StoreSuppress | StoreLocal => Stores
  }

  /** One non-HALT operation. */
  function Perform(ar: Arithmetic, env: Environment, ins: Instruction, c: Core): Result<Core, Fault> {
    match ShapeOf(ins.op)
    case Idle => Ok(c)
    case Produces => var v :- Source(ar, env, ins, c); Ok(c.(stack := c.stack + [v]))
    case Combines => var s :- Binary(ar, ins.op, c.stack); Ok(c.(stack := s))
    case CombinesPartially => var s :- Partial(ar, ins.op, c.stack); Ok(c.(stack := s))
    case Maps => var s :- Unary(ar, ins.op, c.stack); Ok(c.(stack := s))
    case Chooses => var s :- Ternary(ins.op, c.stack); Ok(c.(stack := s))
    case Shuffles => var s :- Shuffle(ins.op, c.stack); Ok(c.(stack := s))
    case Stores => Store(ins, c)
  }

  function Top(s: seq<real>): Option<real> {
    if s == [] then None else Some(s[|s| - 1])
  }

  /** One turn of the machine loop at position `index`, HALT included. */
  function Step(ar: Arithmetic, env: Environment, maxInstructions: int, maxStack: int,
                index: nat, ins: Instruction, m: Machine): Result<Machine, Fault>
  {
    if index + 1 > maxInstructions then Err(InstructionLimit)
    else
      var before := |m.core.stack|;
      if ins.op == Halt then
        Ok(m.(trace := m.trace + [Halted(ins.arg, before)]))
      else
        var core :- Perform(ar, env, ins, m.core);
        var after := |core.stack|;
        if after > maxStack then Err(StackLimit)
        else Ok(Machine(core, m.trace + [Executed(ins.op, ins.arg, before, after, Top(core.stack))],
                        if after > m.maxDepth then after else m.maxDepth))
  }

  /** The machine after the first k instructions. */
  function RunPrefix(ar: Arithmetic, env: Environment, maxInstructions: int, maxStack: int,
                     ir: seq<Instruction>, k: nat): Result<Machine, Fault>
    requires k <= |ir|
  {
    if k == 0 then Ok(START)
    else
      var m :- RunPrefix(ar, env, maxInstructions, maxStack, ir, k - 1);
      Step(ar, env, maxInstructions, maxStack, k - 1, ir[k - 1], m)
  }

  datatype PolicyResult = PolicyResult(
    alertScore: int, severityCode: int, routingCode: int, suppressed: bool,
    instructionsExecuted: nat, maxStackDepth: nat, trace: seq<TraceEntry>)

  function ResultOf(m: Machine, analysis: Analysis): PolicyResult {
    PolicyResult(m.core.score, m.core.severity, m.core.route, m.core.suppressed, |m.trace|,
                 if m.maxDepth > analysis.maxStackDepth then m.maxDepth else analysis.maxStackDepth, m.trace)
  }

  // ----- inputs -----

  /** Checking the input registers in their declared order. */
  function Normalize(inputs: map<string, InputValue>, names: seq<string>, k: nat): Result<Environment, Fault>
    requires k <= |names|
  {
    if k == 0 then Ok(map[])
    else
      var env :- Normalize(inputs, names, k - 1);
      var name := names[k - 1];
      if name !in inputs then Err(MissingInput(name))
      else if inputs[name].Infinite? then Err(NonFiniteInput(name))
      else Ok(env[name := inputs[name].value])
  }

  predicate TotalAndFinite(inputs: map<string, InputValue>) {
    forall name :: name in INPUTS ==> name in inputs && inputs[name].Finite?
  }

  lemma {:induction false} NormalizeAll(inputs: map<string, InputValue>, names: seq<string>, k: nat)
    requires k <= |names|
    ensures Normalize(inputs, names, k).Ok? <==> forall j :: 0 <= j < k ==> names[j] in inputs && inputs[names[j]].Finite?
    ensures Normalize(inputs, names, k).Ok? ==>
              var env := Normalize(inputs, names, k).value;
              && (forall name :: name in env <==> name in names[..k])
              && (forall name :: name in env ==> name in inputs && inputs[name] == Finite(env[name]))
  {
    if k > 0 {
      NormalizeAll(inputs, names, k - 1);
      assert names[..k] == names[..k - 1] + [names[k - 1]];
    }
  }

  // ----- the whole execution -----

  function Run(ar: Arithmetic, ir: seq<Instruction>, inputs: map<string, InputValue>,
               maxInstructions: int, maxStack: int): Result<PolicyResult, Fault>
  {
    var analysis :- Analyze(ir, maxInstructions, maxStack);
    var env :- Normalize(inputs, INPUTS, |INPUTS|);
    var m :- RunPrefix(ar, env, maxInstructions, maxStack, ir, LiveLength(ir));
    Ok(ResultOf(m, analysis))
  }

  /** `execute`: analysis, input normalisation, then the interpreter loop up to the first HALT. */
  method Execute(ar: Arithmetic, ir: seq<Instruction>, inputs: map<string, InputValue>,
                 maxInstructions: int, maxStack: int) returns (r: Result<PolicyResult, Fault>)
    ensures r == Run(ar, ir, inputs, maxInstructions, maxStack)
  {
    hide RunPrefix, ResultOf, Analyze;
    var analysis := AnalyzeIr(ir, maxInstructions, maxStack);
    if analysis.Err? {
      return Err(analysis.error);
    }
    var env: Environment := map[];
    for k := 0 to |INPUTS|
      invariant Normalize(inputs, INPUTS, k) == Ok(env)
    {
      var name := INPUTS[k];
      if name !in inputs {
        NormalizeStops(inputs, INPUTS, k + 1, |INPUTS|);
        return Err(MissingInput(name));
      }
      if inputs[name].Infinite? {
        NormalizeStops(inputs, INPUTS, k + 1, |INPUTS|);
        return Err(NonFiniteInput(name));
      }
      env := env[name := inputs[name].value];
    }
    r := Interpret(ar, env, ir, analysis.value, maxInstructions, maxStack);
  }

  predicate Usable(inputs: map<string, InputValue>, name: string) {
    name in inputs && inputs[name].Finite?
  }

  /** When normalising fails, it names the first input that is missing or not finite. */
  lemma {:induction false} NormalizeFailsAtFirst(inputs: map<string, InputValue>, names: seq<string>, k: nat) returns (j: nat)
    requires k <= |names| && Normalize(inputs, names, k).Err?
    ensures j < k && !Usable(inputs, names[j]) && forall i :: 0 <= i < j ==> Usable(inputs, names[i])
    ensures Normalize(inputs, names, k) == Err(if names[j] in inputs then NonFiniteInput(names[j]) else MissingInput(names[j]))
  {
    if Normalize(inputs, names, k - 1).Err? {
      j := NormalizeFailsAtFirst(inputs, names, k - 1);
    } else {
      j := k - 1;
      NormalizeAll(inputs, names, k - 1);
    }
  }

  lemma {:induction false} NormalizeStops(inputs: map<string, InputValue>, names: seq<string>, k: nat, n: nat)
    requires k <= n <= |names|
    requires Normalize(inputs, names, k).Err?
    ensures Normalize(inputs, names, n) == Normalize(inputs, names, k)
  {
    if k < n {
      NormalizeStops(inputs, names, k, n - 1);
    }
  }

  lemma {:induction false} RunStops(ar: Arithmetic, env: Environment, maxInstructions: int, maxStack: int,
                                    ir: seq<Instruction>, k: nat, n: nat)
    requires k <= n <= |ir|
    requires RunPrefix(ar, env, maxInstructions, maxStack, ir, k).Err?
    ensures RunPrefix(ar, env, maxInstructions, maxStack, ir, n) == RunPrefix(ar, env, maxInstructions, maxStack, ir, k)
  {
    hide Step;
    if k < n {
      RunStops(ar, env, maxInstructions, maxStack, ir, k, n - 1);
    }
  }

  /** The interpreter loop over stack, locals, outputs, trace and peak depth. */
  method Interpret(ar: Arithmetic, env: Environment, ir: seq<Instruction>, analysis: Analysis,
                   maxInstructions: int, maxStack: int) returns (r: Result<PolicyResult, Fault>)
    ensures r == match RunPrefix(ar, env, maxInstructions, maxStack, ir, LiveLength(ir))
                 case Ok(m) => Ok(ResultOf(m, analysis))
                 case Err(e) => Err(e)
  {
    hide Step, ResultOf;
    ghost var live := LiveLength(ir);
    LiveFromIsFirstHalt(ir, 0);
    var m := START;
    var index, halted := 0, false;
    while index < |ir| && !halted
      invariant index <= live
      invariant halted ==> index == live
      invariant index == live && index < |ir| ==> halted
      invariant RunPrefix(ar, env, maxInstructions, maxStack, ir, index) == Ok(m)
      decreases |ir| - index
    {
      var next := Step(ar, env, maxInstructions, maxStack, index, ir[index], m);
      assert RunPrefix(ar, env, maxInstructions, maxStack, ir, index + 1) == next;
      if next.Err? {
        RunStops(ar, env, maxInstructions, maxStack, ir, index + 1, live);
        return Err(next.error);
      }
      m := next.value;
      halted := ir[index].op == Halt;
      index := index + 1;
    }
    r := Ok(ResultOf(m, analysis));
  }
}
