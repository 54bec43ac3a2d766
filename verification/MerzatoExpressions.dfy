/**
 Expressions on the Merzato machine. The postfix code of every expression over the machine's arithmetic,
 comparison and branch instructions runs, wherever it stands in a program, to the value the expression
 has in arithmetic, or throws a division by zero exactly when it has none.
 */
module MerzatoExpressions {
  import opened Outcomes
  import opened MerzatoVm
  import opened MerzatoSafety
  import opened MerzatoLaws

  datatype Expression =
    | Num(n: int)
    | Sum(left: Expression, right: Expression)
    | Difference(left: Expression, right: Expression)
    | Product(left: Expression, right: Expression)
    | Ratio(left: Expression, right: Expression)
    | Residue(left: Expression, right: Expression)
    | Exceeds(left: Expression, right: Expression)
    | IsNothing(inner: Expression)
    | Branch(onZero: bool, test: Expression, first: Expression, second: Expression)   // JZ or JNZ to the second part

  // ----- what an expression means -----

  function Meaning(e: Expression): Option<int> {
    match e
    case Num(n) => Some(n)
    case Sum(_, _) | Difference(_, _) | Product(_, _) | Ratio(_, _) | Residue(_, _) | Exceeds(_, _) =>
      if Meaning(e.left).None? || Meaning(e.right).None? then None
      else Combined(e, Meaning(e.left).value, Meaning(e.right).value)
    case IsNothing(inner) => if Meaning(inner).None? then None else Some(if Meaning(inner).value == 0 then 1 else 0)
    case Branch(onZero, test, first, second) =>
      if Meaning(test).None? then None else if onZero == (Meaning(test).value == 0) then Meaning(second) else Meaning(first)
  }

  predicate IsBinary(e: Expression) {
    e.Sum? || e.Difference? || e.Product? || e.Ratio? || e.Residue? || e.Exceeds?
  }

  /** Division truncates toward zero; the residue is never negative. */
  function Combined(e: Expression, a: int, b: int): Option<int>
    requires IsBinary(e)
  {
    match e
    case Sum(_, _) => Some(a + b)
    case Difference(_, _) => Some(a - b)
    case Product(_, _) => Some(a * b)
    case Ratio(_, _) => if b == 0 then None else Some(if a >= 0 then a / b else -(-a / b))
    case Residue(_, _) => if b == 0 then None else Some(a % b)
    case Exceeds(_, _) => Some(if a > b then 1 else 0)
  }

  // ----- its code -----

  function OpOf(e: Expression): Op
    requires IsBinary(e)
  {
    match e
    case Sum(_, _) => Add
    case Difference(_, _) => Sub
    case Product(_, _) => Mul
    case Ratio(_, _) => Div
    case Residue(_, _) => Mod
    case Exceeds(_, _) => CmpGt
  }

  function Jump(onZero: bool): Op { if onZero then Jz else Jnz }

  function Plain(op: Op): seq<Instruction> {
    [Instruction(op, Undefined, None)]
  }

  function Given(op: Op, n: int): seq<Instruction> {
    [Instruction(op, Big(n), None)]
  }

  function Size(e: Expression): nat {
    match e
    case Num(_) => 1
    case Sum(_, _) | Difference(_, _) | Product(_, _) | Ratio(_, _) | Residue(_, _) | Exceeds(_, _) => Size(e.left) + Size(e.right) + 1
    case IsNothing(inner) => Size(inner) + 1
    case Branch(_, test, first, second) => Size(test) + 1 + Size(first) + 1 + Size(second)
  }

  /** The cells the code needs. */
  function Height(e: Expression): nat {
    match e
    case Num(_) => 1
    case Sum(_, _) | Difference(_, _) | Product(_, _) | Ratio(_, _) | Residue(_, _) | Exceeds(_, _) => Larger(Height(e.left), Height(e.right) + 1)
    case IsNothing(inner) => Height(inner)
    case Branch(_, test, first, second) => Larger(Height(test), Larger(Height(first), Height(second)))
  }

  function Larger(a: nat, b: nat): nat { if a > b then a else b }

  /** Test, a conditional jump over `first` and a jump over `second`. */
  function Branching(test: seq<Instruction>, jump: Op, first: seq<Instruction>, second: seq<Instruction>, at: nat): seq<Instruction> {
    test + Given(jump, at + |test| + 1 + |first| + 1) + first + Given(Jmp, at + |test| + 1 + |first| + 1 + |second|) + second
  }

  /** The code of an expression that stands at position `at`. */
  function Code(e: Expression, at: nat): (code: seq<Instruction>)
    ensures |code| == Size(e)
  {
    match e
    case Num(n) => Given(Push, n)
    case Sum(_, _) | Difference(_, _) | Product(_, _) | Ratio(_, _) | Residue(_, _) | Exceeds(_, _) =>
      Code(e.left, at) + Code(e.right, at + Size(e.left)) + Plain(OpOf(e))
    case IsNothing(inner) => Code(inner, at) + Plain(Not)
    case Branch(onZero, test, first, second) =>
      Branching(Code(test, at), Jump(onZero), Code(first, at + Size(test) + 1), Code(second, at + Size(test) + 1 + Size(first) + 1), at)
  }

  /** The code stands in the program at the position. */
  ghost predicate Stands(p: Program, at: nat, code: seq<Instruction>) {
    at + |code| <= |p.instructions| && forall k :: 0 <= k < |code| ==> p.instructions[at + k] == code[k]
  }

  lemma StandsApart(p: Program, at: nat, a: seq<Instruction>, b: seq<Instruction>)
    requires Stands(p, at, a + b)
    ensures Stands(p, at, a) && Stands(p, at + |a|, b)
  {
    forall k | 0 <= k < |a|
      ensures p.instructions[at + k] == a[k]
    {
      assert (a + b)[k] == a[k];
    }
    forall k | 0 <= k < |b|
      ensures p.instructions[at + |a| + k] == b[k]
    {
      var j := |a| + k;
      assert (a + b)[j] == b[k] && p.instructions[at + j] == (a + b)[j];
    }
  }

  // ----- steps -----

  /** So many turns of the run loop, as long as none throws. */
  function Steps(p: Program, l: Limits, phrases: Phrases, st: State, n: nat): Result<State, Error> {
    if n == 0 then Ok(st)
    else
      var next :- Steps(p, l, phrases, st, n - 1);
      if next.halted then Ok(next) else Step(p, l, phrases, next)
  }

  lemma {:induction false} StepsCompose(p: Program, l: Limits, phrases: Phrases, st: State, m: nat, n: nat)
    requires Steps(p, l, phrases, st, m).Ok?
    ensures Steps(p, l, phrases, st, m + n) == Steps(p, l, phrases, Steps(p, l, phrases, st, m).value, n)
  {
    hide Step;
    if n > 0 {
      StepsCompose(p, l, phrases, st, m, n - 1);
    }
  }

  lemma {:induction false} ErrorsStay(p: Program, l: Limits, phrases: Phrases, st: State, m: nat, n: nat)
    requires m <= n && Steps(p, l, phrases, st, m).Err?
    ensures Steps(p, l, phrases, st, n) == Steps(p, l, phrases, st, m)
    decreases n
  {
    hide Step;
    if m < n {
      ErrorsStay(p, l, phrases, st, m, n - 1);
    }
  }

  /** n steps take the machine to the position with the value pushed, or throw a division by zero. */
  ghost predicate Yields(p: Program, l: Limits, phrases: Phrases, st: State, n: nat, end: int, v: Option<int>) {
    match v
    case Some(x) => Steps(p, l, phrases, st, n) == Ok(With(st.(pc := end), [Big(x)]))
    case None => Steps(p, l, phrases, st, n).Err? && Steps(p, l, phrases, st, n).error.code == DivisionByZero
  }

  /** First code that yields, then code that yields on top of it. */
  lemma YieldsThen(p: Program, l: Limits, phrases: Phrases, st: State, m: nat, middle: int, a: int, n: nat, r: Result<State, Error>)
    requires Yields(p, l, phrases, st, m, middle, Some(a))
    requires Steps(p, l, phrases, With(st.(pc := middle), [Big(a)]), n) == r
    ensures Steps(p, l, phrases, st, m + n) == r
  {
    hide Step;
    StepsCompose(p, l, phrases, st, m, n);
  }

  /** A fault of the first code is the fault of the whole. */
  lemma FaultStays(p: Program, l: Limits, phrases: Phrases, st: State, m: nat, middle: int, n: nat, end: int)
    requires Yields(p, l, phrases, st, m, middle, None) && m <= n
    ensures Yields(p, l, phrases, st, n, end, None)
  {
    hide Step;
    ErrorsStay(p, l, phrases, st, m, n);
  }

  lemma OneStep(p: Program, l: Limits, phrases: Phrases, st: State)
    requires !st.halted
    ensures Steps(p, l, phrases, st, 1) == Step(p, l, phrases, st)
  {
    hide Step;
    assert Steps(p, l, phrases, st, 0) == Ok(st);
  }

  // ----- the instructions at the joints -----

  lemma PushStep(p: Program, l: Limits, phrases: Phrases, st: State, n: int)
    requires Executes(p, st, Push, Big(n)) && !st.halted && |st.stack| < l.maxStackDepth
    ensures Yields(p, l, phrases, st, 1, st.pc + 1, Some(n))
  {
    hide Step;
    PushLaw(p, l, phrases, st);
    assert With(st, []) == st;
    OneStep(p, l, phrases, st);
  }

  lemma QuotientIsTruncated(a: int, b: int)
    requires b != 0
    ensures Quotient(a, b) == if a >= 0 then a / b else -(-a / b)
  {
    var n := Magnitude(a);
    MagnitudeDivision(n, b);
    if a == 0 {
      assert n / Magnitude(b) == 0;
    }
  }

  lemma MagnitudeDivision(n: nat, b: int)
    requires b != 0
    ensures n / b == if b > 0 then n / Magnitude(b) else -(n / Magnitude(b))
  {
    if b < 0 {
      var m := -b;
      var q := n / m;
      assert n == m * q + n % m;
      assert m * q == b * -q;
      UniqueQuotient(n, b, -q, n % m);
    }
  }

  /** Euclid: there is one quotient with a remainder in range. */
  lemma UniqueQuotient(n: int, b: int, q: int, r: int)
    requires b != 0 && n == b * q + r && 0 <= r < Magnitude(b)
    ensures n / b == q && n % b == r
  {
    var d := n / b - q;
    assert b * d == r - n % b by {
      assert n == b * (n / b) + n % b;
      assert b * (n / b - q) == b * (n / b) - b * q;
    }
    SmallProduct(b, d);
  }

  lemma SmallProduct(b: int, d: int)
    requires b != 0 && -Magnitude(b) < b * d < Magnitude(b)
    ensures d == 0
  {
    ProductGrows(Magnitude(b), d, Magnitude(b) * d);
    assert b * d == Magnitude(b) * d || b * d == -(Magnitude(b) * d);
  }

  lemma ProductGrows(m: int, d: int, product: int)
    requires m >= 0 && product == m * d
    ensures (d >= 1 ==> product >= m) && (d <= -1 ==> product <= -m)
  {
    if d >= 1 {
      assert m * d == m + m * (d - 1) && m * (d - 1) >= 0;
    } else if d <= -1 {
      assert m * d == -m + m * (d + 1) && m * -(d + 1) >= 0;
    }
  }

  lemma ModuloIsResidue(a: int, b: int)
    requires b != 0
    ensures Modulo(a, b) == a % b
  {
    var k := ModuloLaws(a, b);
    UniqueQuotient(a, b, k, Modulo(a, b));
  }

  lemma CombineStep(p: Program, l: Limits, phrases: Phrases, st: State, e: Expression, a: int, b: int)
    requires IsBinary(e) && Holds(p, st.pc, OpOf(e)) && |st.stack| < l.maxStackDepth
    ensures var r := Step(p, l, phrases, With(st, [Big(a), Big(b)]));
            match Combined(e, a, b)
            case Some(v) => r == Ok(With(Passed(st), [Big(v)]))
            case None => r.Err? && r.error.code == DivisionByZero
  {
    hide Step, Quotient, Modulo;
    CombinesOn(p, l, phrases, st, OpOf(e), Big(a), Big(b), a, b);
    if b != 0 {
      QuotientIsTruncated(a, b);
      ModuloIsResidue(a, b);
    }
  }

  lemma BranchStep(p: Program, l: Limits, phrases: Phrases, st: State, n: int, target: int)
    requires 0 <= st.pc < |p.instructions| && p.instructions[st.pc].operand == Big(target) && 0 <= target <= |p.instructions|
    requires |st.stack| < l.maxStackDepth
    ensures Holds(p, st.pc, Jz) ==> Step(p, l, phrases, With(st, [Big(n)])) == Ok(if n == 0 then st.(pc := target) else Passed(st))
    ensures Holds(p, st.pc, Jnz) ==> Step(p, l, phrases, With(st, [Big(n)])) == Ok(if n == 0 then Passed(st) else st.(pc := target))
    ensures Holds(p, st.pc, Jmp) ==> Step(p, l, phrases, st) == Ok(st.(pc := target))
  {
    hide Step;
    BranchesAgree(p, l, phrases, st, Big(n), target);
    JumpLaw(p, l, phrases, st, target);
  }

  lemma NotStep(p: Program, l: Limits, phrases: Phrases, st: State, n: int)
    requires Executes(p, st, Not, Undefined) && |st.stack| < l.maxStackDepth
    ensures Step(p, l, phrases, With(st, [Big(n)])) == Ok(With(Passed(st), [Big(if n == 0 then 1 else 0)]))
  {
    hide PopValue, Arithmetic, MemoryOp, ControlOp, TextOp;
    Operands1(Passed(st), Big(n));
  }

  // ----- evaluation -----

  /** What the theorem says of one expression at one place. */
  ghost predicate Runs(p: Program, l: Limits, phrases: Phrases, st: State, e: Expression, n: nat) {
    n <= Size(e) && Yields(p, l, phrases, st, n, st.pc + Size(e), Meaning(e))
  }

  lemma BinaryRuns(p: Program, l: Limits, phrases: Phrases, st: State, e: Expression, m: nat, n: nat) returns (steps: nat)
    requires IsBinary(e) && 0 <= st.pc && !st.halted && Holds(p, st.pc + Size(e) - 1, OpOf(e)) && |st.stack| < l.maxStackDepth
    requires Runs(p, l, phrases, st, e.left, m)
    requires Meaning(e.left).Some? ==>
               Runs(p, l, phrases, With(st.(pc := st.pc + Size(e.left)), [Big(Meaning(e.left).value)]), e.right, n)
    ensures Runs(p, l, phrases, st, e, steps)
  {
    hide Step, Steps, Combined, OpOf;
    var middle, last, end := st.pc + Size(e.left), st.pc + Size(e) - 1, st.pc + Size(e);
    if Meaning(e.left).None? {
      steps := m;
      FaultStays(p, l, phrases, st, m, middle, m, end);
    } else {
      var a := Meaning(e.left).value;
      var half := With(st.(pc := middle), [Big(a)]);
      YieldsThen(p, l, phrases, st, m, middle, a, n, Steps(p, l, phrases, half, n));
      if Meaning(e.right).None? {
        steps := m + n;
      } else {
        var b := Meaning(e.right).value;
        var both := With(st.(pc := last), [Big(a), Big(b)]);
        assert With(half.(pc := last), [Big(b)]).stack == both.stack;
        steps := m + n + 1;
        StepsCompose(p, l, phrases, st, m + n, 1);
        OneStep(p, l, phrases, both);
        CombineStep(p, l, phrases, st.(pc := last), e, a, b);
      }
    }
  }

  /** The parts of a branching piece of code, where they stand. */
  lemma BranchParts(p: Program, at: nat, test: seq<Instruction>, jump: Op, first: seq<Instruction>, second: seq<Instruction>)
    requires Stands(p, at, Branching(test, jump, first, second, at))
    ensures Stands(p, at, test) && Stands(p, at + |test| + 1, first) && Stands(p, at + |test| + 1 + |first| + 1, second)
    ensures Holds(p, at + |test|, jump) && p.instructions[at + |test|].operand == Big(at + |test| + 1 + |first| + 1)
    ensures Holds(p, at + |test| + 1 + |first|, Jmp)
    ensures p.instructions[at + |test| + 1 + |first|].operand == Big(at + |test| + 1 + |first| + 1 + |second|)
    ensures at + |test| + 1 + |first| + 1 + |second| <= |p.instructions|
  {
    hide Stands;
    var j, k := Given(jump, at + |test| + 1 + |first| + 1), Given(Jmp, at + |test| + 1 + |first| + 1 + |second|);
    StandsApart(p, at, test + j + first + k, second);
    StandsApart(p, at, test + j + first, k);
    StandsApart(p, at, test + j, first);
    StandsApart(p, at, test, j);
    StandsOne(p, at + |test|, j[0]);
    StandsOne(p, at + |test| + 1 + |first|, k[0]);
    StandsEnd(p, at + |test| + 1 + |first| + 1, second);
  }

  lemma StandsOne(p: Program, at: nat, ins: Instruction)
    requires Stands(p, at, [ins])
    ensures at < |p.instructions| && p.instructions[at] == ins
  {
    assert p.instructions[at + 0] == [ins][0];
  }

  lemma StandsEnd(p: Program, at: nat, code: seq<Instruction>)
    requires Stands(p, at, code)
    ensures at + |code| <= |p.instructions|
  {
  }

  /** Test and branch: the machine is at the first or the second part, with the stack as before the test. */
  lemma TestRuns(p: Program, l: Limits, phrases: Phrases, st: State, test: Expression, jump: Op, target: int, m: nat)
    requires 0 <= st.pc && !st.halted && Holds(p, st.pc + Size(test), jump) && jump in {Jz, Jnz}
    requires p.instructions[st.pc + Size(test)].operand == Big(target) && 0 <= target <= |p.instructions| && |st.stack| < l.maxStackDepth
    requires Runs(p, l, phrases, st, test, m) && Meaning(test).Some?
    ensures Steps(p, l, phrases, st, m + 1) ==
            Ok(st.(pc := if (jump == Jz) == (Meaning(test).value == 0) then target else st.pc + Size(test) + 1))
  {
    hide Step, Steps;
    var a, here := Meaning(test).value, st.(pc := st.pc + Size(test));
    BranchStep(p, l, phrases, here, a, target);
    OneStep(p, l, phrases, With(here, [Big(a)]));
    YieldsThen(p, l, phrases, st, m, st.pc + Size(test), a, 1, Step(p, l, phrases, With(here, [Big(a)])));
  }

  /** The first part, and the jump over the second. */
  lemma FirstRuns(p: Program, l: Limits, phrases: Phrases, st: State, begin: State, before: nat, part: Expression, n: nat, end: int) returns (steps: nat)
    requires Steps(p, l, phrases, st, before) == Ok(begin) && begin == st.(pc := begin.pc) && 0 <= begin.pc
    requires Runs(p, l, phrases, begin, part, n)
    requires Holds(p, begin.pc + Size(part), Jmp) && p.instructions[begin.pc + Size(part)].operand == Big(end) && 0 <= end <= |p.instructions|
    requires |st.stack| < l.maxStackDepth && !st.halted
    ensures steps <= before + n + 1 && Yields(p, l, phrases, st, steps, end, Meaning(part))
  {
    hide Step, Steps;
    StepsCompose(p, l, phrases, st, before, n);
    if Meaning(part).None? {
      steps := before + n;
    } else {
      var v := Meaning(part).value;
      var here := With(begin.(pc := begin.pc + Size(part)), [Big(v)]);
      steps := before + n + 1;
      StepsCompose(p, l, phrases, st, before + n, 1);
      OneStep(p, l, phrases, here);
      JumpStep(p, l, phrases, here, end);
    }
  }

  lemma JumpStep(p: Program, l: Limits, phrases: Phrases, st: State, target: int)
    requires Executes(p, st, Jmp, Big(target)) && 0 <= target <= |p.instructions|
    ensures Step(p, l, phrases, st) == Ok(st.(pc := target))
  {
    hide Step;
    JumpLaw(p, l, phrases, st, target);
  }

  /** The second part. */
  lemma SecondRuns(p: Program, l: Limits, phrases: Phrases, st: State, begin: State, before: nat, part: Expression, n: nat)
    requires Steps(p, l, phrases, st, before) == Ok(begin) && begin == st.(pc := begin.pc)
    requires Runs(p, l, phrases, begin, part, n)
    ensures Yields(p, l, phrases, st, before + n, begin.pc + Size(part), Meaning(part))
  {
    hide Step, Steps;
    StepsCompose(p, l, phrases, st, before, n);
  }

  /** A branch at a position, in its parts: test, conditional jump, first part, jump, second part. */
  ghost predicate Placed(p: Program, at: nat, test: Expression, jump: Op, first: Expression, second: Expression, here: nat, there: nat, end: nat) {
    && here == at + Size(test) + 1 && there == here + Size(first) + 1 && end == there + Size(second) <= |p.instructions|
    && Stands(p, at, Code(test, at)) && Stands(p, here, Code(first, here)) && Stands(p, there, Code(second, there))
    && Holds(p, here - 1, jump) && p.instructions[here - 1].operand == Big(there)
    && Holds(p, there - 1, Jmp) && p.instructions[there - 1].operand == Big(end)
  }

  lemma BranchIsPlaced(p: Program, at: nat, test: Expression, jump: Op, first: Expression, second: Expression, here: nat, there: nat, end: nat)
    requires here == at + Size(test) + 1 && there == here + Size(first) + 1 && end == there + Size(second)
    requires Stands(p, at, Branching(Code(test, at), jump, Code(first, here), Code(second, there), at))
    ensures Placed(p, at, test, jump, first, second, here, there, end)
  {
    hide Stands, Code, Branching, Size;
    BranchParts(p, at, Code(test, at), jump, Code(first, here), Code(second, there));
  }

  /** A branch runs as the part its test selects. */
  lemma BranchRuns(p: Program, l: Limits, phrases: Phrases, st: State, test: Expression, jump: Op, first: Expression, second: Expression,
                   here: nat, there: nat, end: nat) returns (steps: nat)
    requires 0 <= st.pc && !st.halted && jump in {Jz, Jnz} && Placed(p, st.pc, test, jump, first, second, here, there, end)
    requires |st.stack| + Height(test) <= l.maxStackDepth
    requires |st.stack| + Height(first) <= l.maxStackDepth && |st.stack| + Height(second) <= l.maxStackDepth
    ensures steps <= end - st.pc && Yields(p, l, phrases, st, steps, end,
      if Meaning(test).None? then None
      else if (jump == Jz) == (Meaning(test).value == 0) then Meaning(second) else Meaning(first))
    decreases Size(test) + Size(first) + Size(second), 3
  {
    hide Step, Steps, Stands, Code, Meaning, Height, Yields, Size;
    HasHeight(test);
    var m := ExpressionRuns(p, l, phrases, st, test);
    if Meaning(test).None? {
      steps := m;
      FaultStays(p, l, phrases, st, m, here - 1, m, end);
    } else {
      TestRuns(p, l, phrases, st, test, jump, there, m);
      if (jump == Jz) == (Meaning(test).value == 0) {
        steps := SecondPart(p, l, phrases, st, there, m + 1, second);
      } else {
        steps := FirstPart(p, l, phrases, st, here, m + 1, first, end);
      }
    }
  }

  lemma FirstPart(p: Program, l: Limits, phrases: Phrases, st: State, at: nat, before: nat, part: Expression, end: int) returns (steps: nat)
    requires Steps(p, l, phrases, st, before) == Ok(st.(pc := at)) && !st.halted
    requires Stands(p, at, Code(part, at)) && |st.stack| + Height(part) <= l.maxStackDepth
    requires Holds(p, at + Size(part), Jmp) && p.instructions[at + Size(part)].operand == Big(end) && 0 <= end <= |p.instructions|
    ensures steps <= before + Size(part) + 1 && Yields(p, l, phrases, st, steps, end, Meaning(part))
    decreases Size(part), 2
  {
    hide Step, Steps, Stands, Code, Meaning, Height, Yields;
    assert Height(part) >= 1 by { HasHeight(part); }
    var n := ExpressionRuns(p, l, phrases, st.(pc := at), part);
    steps := FirstRuns(p, l, phrases, st, st.(pc := at), before, part, n, end);
  }

  lemma SecondPart(p: Program, l: Limits, phrases: Phrases, st: State, at: nat, before: nat, part: Expression) returns (steps: nat)
    requires Steps(p, l, phrases, st, before) == Ok(st.(pc := at)) && !st.halted
    requires Stands(p, at, Code(part, at)) && |st.stack| + Height(part) <= l.maxStackDepth
    ensures steps <= before + Size(part) && Yields(p, l, phrases, st, steps, at + Size(part), Meaning(part))
    decreases Size(part), 2
  {
    hide Step, Steps, Stands, Code, Meaning, Height, Yields;
    var n := ExpressionRuns(p, l, phrases, st.(pc := at), part);
    SecondRuns(p, l, phrases, st, st.(pc := at), before, part, n);
    steps := before + n;
  }

  lemma HasHeight(e: Expression)
    ensures Height(e) >= 1
  {
  }

  /**
   Wherever the code of an expression stands, and whatever lies below on the stack, the machine runs it to
   the expression's value on top, in at most as many steps as it has instructions, or to a division by
   zero exactly when the expression has no value.
   */
  lemma {:induction false} ExpressionRuns(p: Program, l: Limits, phrases: Phrases, st: State, e: Expression) returns (n: nat)
    requires 0 <= st.pc && !st.halted && Stands(p, st.pc, Code(e, st.pc)) && |st.stack| + Height(e) <= l.maxStackDepth
    ensures Runs(p, l, phrases, st, e, n)
    decreases Size(e), 1
  {
    hide Runs, Stands, Code, Height, Size;
    if e.Num? {
      n := 1;
      NumRuns(p, l, phrases, st, e);
    } else if e.Branch? {
      n := BranchingRuns(p, l, phrases, st, e);
    } else if e.IsNothing? {
      n := NothingRuns(p, l, phrases, st, e);
    } else {
      n := OperandsRun(p, l, phrases, st, e);
    }
  }

  lemma NumRuns(p: Program, l: Limits, phrases: Phrases, st: State, e: Expression)
    requires e.Num? && 0 <= st.pc && !st.halted && Stands(p, st.pc, Code(e, st.pc)) && |st.stack| + Height(e) <= l.maxStackDepth
    ensures Runs(p, l, phrases, st, e, 1)
  {
    hide Step, Steps, Stands;
    StandsOne(p, st.pc, Instruction(Push, Big(e.n), None));
    PushStep(p, l, phrases, st, e.n);
  }

  lemma BranchMeans(e: Expression)
    requires e.Branch?
    ensures Meaning(e) == if Meaning(e.test).None? then None
                          else if e.onZero == (Meaning(e.test).value == 0) then Meaning(e.second) else Meaning(e.first)
  {
  }

  lemma BranchMeasures(e: Expression)
    requires e.Branch?
    ensures Size(e) == Size(e.test) + 1 + Size(e.first) + 1 + Size(e.second)
    ensures Height(e.test) <= Height(e) && Height(e.first) <= Height(e) && Height(e.second) <= Height(e)
  {
  }

  lemma BranchIsCoded(e: Expression, at: nat, here: nat, there: nat)
    requires e.Branch? && here == at + Size(e.test) + 1 && there == here + Size(e.first) + 1
    ensures Code(e, at) == Branching(Code(e.test, at), Jump(e.onZero), Code(e.first, here), Code(e.second, there), at)
  {
    hide Branching, Size;
  }

  lemma BranchingRuns(p: Program, l: Limits, phrases: Phrases, st: State, e: Expression) returns (n: nat)
    requires e.Branch? && 0 <= st.pc && !st.halted && Stands(p, st.pc, Code(e, st.pc)) && |st.stack| + Height(e) <= l.maxStackDepth
    ensures Runs(p, l, phrases, st, e, n)
    decreases Size(e), 0
  {
    hide Yields, Stands, Branching, Code, Height, Size, Meaning, Placed;
    BranchMeans(e);
    BranchMeasures(e);
    var here := st.pc + Size(e.test) + 1;
    var there := here + Size(e.first) + 1;
    var end := there + Size(e.second);
    BranchIsCoded(e, st.pc, here, there);
    BranchIsPlaced(p, st.pc, e.test, Jump(e.onZero), e.first, e.second, here, there, end);
    n := BranchRuns(p, l, phrases, st, e.test, Jump(e.onZero), e.first, e.second, here, there, end);
  }

  lemma NothingRuns(p: Program, l: Limits, phrases: Phrases, st: State, e: Expression) returns (steps: nat)
    requires e.IsNothing? && 0 <= st.pc && !st.halted && Stands(p, st.pc, Code(e, st.pc)) && |st.stack| + Height(e) <= l.maxStackDepth
    ensures Runs(p, l, phrases, st, e, steps)
    decreases Size(e), 0
  {
    hide Step, Steps, Stands;
    var at, inner := st.pc, e.inner;
    StandsApart(p, at, Code(inner, at), Plain(Not));
    StandsOne(p, at + Size(inner), Instruction(Not, Undefined, None));
    HasHeight(inner);
    var m := ExpressionRuns(p, l, phrases, st, inner);
    var here := st.(pc := at + Size(inner));
    if Meaning(inner).None? {
      steps := m;
      FaultStays(p, l, phrases, st, m, here.pc, m, at + Size(e));
    } else {
      steps := m + 1;
      var a := Meaning(inner).value;
      NotStep(p, l, phrases, here, a);
      OneStep(p, l, phrases, With(here, [Big(a)]));
      YieldsThen(p, l, phrases, st, m, here.pc, a, 1, Step(p, l, phrases, With(here, [Big(a)])));
    }
  }

  lemma OperandsRun(p: Program, l: Limits, phrases: Phrases, st: State, e: Expression) returns (steps: nat)
    requires IsBinary(e) && 0 <= st.pc && !st.halted && Stands(p, st.pc, Code(e, st.pc)) && |st.stack| + Height(e) <= l.maxStackDepth
    ensures Runs(p, l, phrases, st, e, steps)
    decreases Size(e), 0
  {
    hide Step, Steps, Stands, Yields;
    var at := st.pc;
    var middle := at + Size(e.left);
    StandsApart(p, at, Code(e.left, at) + Code(e.right, middle), Plain(OpOf(e)));
    StandsApart(p, at, Code(e.left, at), Code(e.right, middle));
    StandsOne(p, at + Size(e) - 1, Instruction(OpOf(e), Undefined, None));
    HasHeight(e.left);
    var m := ExpressionRuns(p, l, phrases, st, e.left);
    var n := 0;
    if Meaning(e.left).Some? {
      n := ExpressionRuns(p, l, phrases, With(st.(pc := middle), [Big(Meaning(e.left).value)]), e.right);
    }
    steps := BinaryRuns(p, l, phrases, st, e, m, n);
  }

  // ----- whole programs -----

  /** The run loop takes the turns, as long as the step limit allows them and none before the last halts. */
  lemma {:induction false} RunTakesSteps(p: Program, l: Limits, phrases: Phrases, st: State, n: nat)
    requires n <= l.maxSteps && Steps(p, l, phrases, st, n).Ok?
    requires n > 0 ==> !Steps(p, l, phrases, st, n - 1).value.halted
    ensures RunFrom(p, l, phrases, st, 0) == RunFrom(p, l, phrases, Steps(p, l, phrases, st, n).value, n)
  {
    hide Step;
    if n > 0 {
      RunTakesSteps(p, l, phrases, st, n - 1);
    }
  }

  /** A program that evaluates an expression, prints it and halts. */
  function Printing(e: Expression): Program {
    Program(Code(e, 0) + Plain(OutN) + Plain(HaltOp), map[], 0)
  }

  /**
   Such a program, with room for its stack and its steps, ends with the expression's value printed as a
   number, or in a division by zero exactly when the expression has no value.
   */
  lemma ProgramPrints(e: Expression, l: Limits, phrases: Phrases)
    requires Height(e) <= l.maxStackDepth && Size(e) + 2 <= l.maxSteps
    ensures var ending := Run(Printing(e), l, phrases);
            match Meaning(e)
            case Some(v) => ending.Ok? && ReadInteger(ending.value.0.output) == Some(v) && ending.value.0.stack == []
            case None => ending.Err? && ending.error.code == DivisionByZero
  {
    hide Step, Steps, Stands, RunFrom, Meaning, Code, ReadInteger;
    var p := Printing(e);
    var start := Start(p);
    PrintingStands(e);
    var n := ExpressionRuns(p, l, phrases, start, e);
    if Meaning(e).Some? {
      var v := Meaning(e).value;
      var ready := start.(pc := Size(e));
      var text := OutNLaw(p, l, phrases, ready, Big(v), v);
      var written := Passed(ready).(output := text);
      assert ready.output + text == text;
      PhraseLaws(p, l, phrases, written, Big(v));
      EndsAt(p, l, phrases, start, n, With(ready, [Big(v)]), written, Passed(written).(halted := true));
    } else {
      RunFails(p, l, phrases, start, n);
    }
  }

  lemma PrintingStands(e: Expression)
    ensures var p := Printing(e);
            Stands(p, 0, Code(e, 0)) && Holds(p, Size(e), OutN) && Holds(p, Size(e) + 1, HaltOp)
  {
    hide Code, Size;
  }

  lemma EndsAt(p: Program, l: Limits, phrases: Phrases, start: State, n: nat, a: State, b: State, c: State)
    requires Steps(p, l, phrases, start, n) == Ok(a) && Step(p, l, phrases, a) == Ok(b) && Step(p, l, phrases, b) == Ok(c)
    requires !a.halted && !b.halted && c.halted && n + 2 <= l.maxSteps
    ensures RunFrom(p, l, phrases, start, 0) == Ok((c, n + 2))
  {
    hide Step;
    assert Steps(p, l, phrases, start, n + 1) == Ok(b) && Steps(p, l, phrases, start, n + 2) == Ok(c);
    RunTakesSteps(p, l, phrases, start, n + 2);
  }

  /** The first error of the turns is the error of the run: a halted machine takes none. */
  lemma {:induction false} RunFails(p: Program, l: Limits, phrases: Phrases, start: State, n: nat)
    requires Steps(p, l, phrases, start, n).Err? && n <= l.maxSteps
    ensures RunFrom(p, l, phrases, start, 0) == Err(Steps(p, l, phrases, start, n).error)
  {
    hide Step;
    if Steps(p, l, phrases, start, n - 1).Err? {
      RunFails(p, l, phrases, start, n - 1);
    } else {
      RunTakesSteps(p, l, phrases, start, n - 1);
    }
  }
}
