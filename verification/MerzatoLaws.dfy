/**
 What the Merzato instructions mean: each law is about the step of a program that holds the instruction
 at its program counter, and relates it to arithmetic or to the step that follows.
 */
module MerzatoLaws {
  import opened Outcomes
  import opened MerzatoVm
  import opened MerzatoSafety

  predicate Holds(p: Program, pc: int, op: Op) {
    0 <= pc < |p.instructions| && p.instructions[pc].op == op
  }

  predicate Executes(p: Program, st: State, op: Op, operand: Value) {
    Holds(p, st.pc, op) && p.instructions[st.pc].operand == operand
  }

  /** The state with operands pushed. */
  function With(st: State, operands: seq<Value>): State {
    st.(stack := st.stack + operands)
  }

  /** The state behind the instruction. */
  function Passed(st: State): State {
    st.(pc := st.pc + 1)
  }

  /** The step turns its operands into the value, goes on to the next instruction, and that is all it does. */
  ghost predicate Leaves(p: Program, l: Limits, phrases: Phrases, st: State, operands: seq<Value>, v: Value) {
    Step(p, l, phrases, With(st, operands)) == Ok(With(Passed(st), [v]))
  }

  /** The step throws, with its own source line. */
  ghost predicate Throws(p: Program, l: Limits, phrases: Phrases, st: State, code: Code)
    requires 0 <= st.pc < |p.instructions|
  {
    Step(p, l, phrases, st) == Err(Error(code, st.pc + 1, p.instructions[st.pc].line))
  }

  lemma Operands1(st: State, v: Value)
    ensures PopValue(With(st, [v])) == Ok((v, st))
  {
    assert (st.stack + [v])[..|st.stack|] == st.stack;
  }

  lemma Operands2(st: State, x: Value, y: Value)
    ensures PopValue(With(st, [x, y])) == Ok((y, With(st, [x])))
  {
    assert (st.stack + [x, y])[..|st.stack| + 1] == st.stack + [x];
  }

  // ----- arithmetic -----

  /** ADD, SUB, MUL, DIV, MOD and CMPGT on values that denote a and b. */
  lemma CombinesOn(p: Program, l: Limits, phrases: Phrases, st: State, op: Op, x: Value, y: Value, a: int, b: int)
    requires Holds(p, st.pc, op) && op in {Add, Sub, Mul, Div, Mod, CmpGt}
    requires AsInteger(x) == Some(a) && AsInteger(y) == Some(b)
    ensures Step(p, l, phrases, With(st, [x, y])) == Combine(l, p.instructions[st.pc], a, b, Passed(st))
  {
    hide PopValue, Combine, AsInteger, StackOp, MemoryOp, ControlOp, TextOp;
    Operands2(Passed(st), x, y);
    Operands1(Passed(st), x);
  }

  /** On values that denote integers ADD, SUB and MUL leave the sum, the difference and the product. */
  lemma SumLaws(p: Program, l: Limits, phrases: Phrases, st: State, x: Value, y: Value, a: int, b: int)
    requires 0 <= st.pc < |p.instructions| && |st.stack| < l.maxStackDepth
    requires AsInteger(x) == Some(a) && AsInteger(y) == Some(b)
    ensures Holds(p, st.pc, Add) ==> Leaves(p, l, phrases, st, [x, y], Big(a + b))
    ensures Holds(p, st.pc, Sub) ==> Leaves(p, l, phrases, st, [x, y], Big(a - b))
    ensures Holds(p, st.pc, Mul) ==> Leaves(p, l, phrases, st, [x, y], Big(a * b))
  {
    hide Step, AsInteger;
    if p.instructions[st.pc].op in {Add, Sub, Mul} {
      CombinesOn(p, l, phrases, st, p.instructions[st.pc].op, x, y, a, b);
    }
  }

  /** SUB behind ADD undoes it. */
  lemma SubUndoesAdd(p: Program, l: Limits, phrases: Phrases, st: State, x: Value, y: Value, a: int, b: int) returns (sum: State)
    requires Holds(p, st.pc, Add) && Holds(p, st.pc + 1, Sub) && |st.stack| < l.maxStackDepth
    requires AsInteger(x) == Some(a) && AsInteger(y) == Some(b)
    ensures Step(p, l, phrases, With(st, [x, y])) == Ok(sum)
    ensures Step(p, l, phrases, With(sum, [y])) == Ok(With(Passed(Passed(st)), [Big(a)]))
  {
    hide Step;
    SumLaws(p, l, phrases, st, x, y, a, b);
    sum := With(Passed(st), [Big(a + b)]);
    SumLaws(p, l, phrases, Passed(st), Big(a + b), y, a + b, b);
    assert With(sum, [y]).stack == With(Passed(st), [Big(a + b), y]).stack;
  }

  /** DIV leaves the quotient that leaves a smaller remainder of the dividend's sign, and throws exactly on a zero divisor. */
  lemma DivLaw(p: Program, l: Limits, phrases: Phrases, st: State, x: Value, y: Value, a: int, b: int) returns (q: int)
    requires Holds(p, st.pc, Div) && |st.stack| < l.maxStackDepth
    requires AsInteger(x) == Some(a) && AsInteger(y) == Some(b)
    ensures b == 0 ==> Throws(p, l, phrases, With(st, [x, y]), DivisionByZero)
    ensures b != 0 ==> Leaves(p, l, phrases, st, [x, y], Big(q))
    ensures b != 0 ==> Magnitude(a - b * q) < Magnitude(b) && (a >= 0 ==> a - b * q >= 0) && (a <= 0 ==> a - b * q <= 0)
  {
    hide Step, AsInteger;
    CombinesOn(p, l, phrases, st, Div, x, y, a, b);
    q := 0;
    if b != 0 {
      hide Quotient;
      q := Quotient(a, b);
      TruncatedDivision(a, b);
    }
  }

  /** MOD leaves the remainder between zero and the divisor's magnitude, and throws exactly on a zero divisor. */
  lemma ModLaw(p: Program, l: Limits, phrases: Phrases, st: State, x: Value, y: Value, a: int, b: int) returns (r: int, k: int)
    requires Holds(p, st.pc, Mod) && |st.stack| < l.maxStackDepth
    requires AsInteger(x) == Some(a) && AsInteger(y) == Some(b)
    ensures b == 0 ==> Throws(p, l, phrases, With(st, [x, y]), DivisionByZero)
    ensures b != 0 ==> Leaves(p, l, phrases, st, [x, y], Big(r))
    ensures b != 0 ==> 0 <= r < Magnitude(b) && a == b * k + r
  {
    hide Step, AsInteger;
    CombinesOn(p, l, phrases, st, Mod, x, y, a, b);
    r, k := 0, 0;
    if b != 0 {
      hide Modulo;
      k := ModuloLaws(a, b);
      r := Modulo(a, b);
    }
  }

  function Top(st: State, depth: nat): Value
    requires depth < |st.stack|
  {
    st.stack[|st.stack| - 1 - depth]
  }

  /** The right operand is popped and converted before the left one is touched: the first of the two that is missing or no integer decides the error. */
  lemma OperandFaults(p: Program, l: Limits, phrases: Phrases, st: State)
    requires 0 <= st.pc < |p.instructions| && p.instructions[st.pc].op in {Add, Sub, Mul, Div, Mod, CmpGt}
    requires |st.stack| < 2 || AsInteger(Top(st, 0)).None? || AsInteger(Top(st, 1)).None?
    ensures var missing := |st.stack| == 0 || (|st.stack| == 1 && AsInteger(Top(st, 0)).Some?);
            Step(p, l, phrases, st) == Err(Error(if missing then StackUnderflow else TypeError, st.pc + 1, None))
  {
    hide AsInteger, Combine, StackOp, MemoryOp, ControlOp, TextOp;
  }

  // ----- comparisons and branches -----

  /** CMPGT leaves 1 if the lower value is the greater one, and 0 otherwise. */
  lemma GreaterLaw(p: Program, l: Limits, phrases: Phrases, st: State, x: Value, y: Value, a: int, b: int)
    requires Holds(p, st.pc, CmpGt) && |st.stack| < l.maxStackDepth
    requires AsInteger(x) == Some(a) && AsInteger(y) == Some(b)
    ensures Leaves(p, l, phrases, st, [x, y], if a > b then Big(1) else Big(0))
  {
    hide Step, AsInteger;
    CombinesOn(p, l, phrases, st, CmpGt, x, y, a, b);
  }

  /** The values that count as zero: the integer zero, the empty text, false, null and undefined. */
  predicate CountsAsZero(v: Value) {
    (v.Big? && AsInteger(v) == Some(0)) || (v.Number? && AsInteger(v) == Some(0)) || v in {Str([]), Boolean(false), Null, Undefined}
  }

  /** NOT, JZ and JNZ agree on what zero is: NOT leaves 1, JZ jumps and JNZ does not, or the other way round. */
  lemma BranchesAgree(p: Program, l: Limits, phrases: Phrases, st: State, v: Value, target: int)
    requires 0 <= st.pc < |p.instructions| && JumpTarget(p, p.instructions[st.pc].operand) == Some(target)
    requires |st.stack| < l.maxStackDepth
    ensures Holds(p, st.pc, Not) ==> Leaves(p, l, phrases, st, [v], if CountsAsZero(v) then Big(1) else Big(0))
    ensures Holds(p, st.pc, Jz) ==>
      Step(p, l, phrases, With(st, [v])) == Ok(if CountsAsZero(v) then st.(pc := target) else Passed(st))
    ensures Holds(p, st.pc, Jnz) ==>
      Step(p, l, phrases, With(st, [v])) == Ok(if CountsAsZero(v) then Passed(st) else st.(pc := target))
  {
    hide JumpTarget, Arithmetic, MemoryOp, TextOp, PopValue;
    Operands1(Passed(st), v);
  }

  /** JMP goes to its target, a position in the program or its end. */
  lemma JumpLaw(p: Program, l: Limits, phrases: Phrases, st: State, target: int)
    requires 0 <= st.pc < |p.instructions| && JumpTarget(p, p.instructions[st.pc].operand) == Some(target)
    ensures Holds(p, st.pc, Jmp) ==> Step(p, l, phrases, st) == Ok(st.(pc := target))
    ensures 0 <= target <= |p.instructions|
  {
    hide Arithmetic, StackOp, MemoryOp, TextOp;
  }

  /**
   CALL goes to its target and RET, executed with the call stack CALL left, goes to the instruction
   after the CALL with the call stack from before it. Nothing else changes.
   */
  lemma ReturnUndoesCall(p: Program, l: Limits, phrases: Phrases, st: State, operand: Value, any: Value, later: State)
    requires Executes(p, st, Call, operand) && JumpTarget(p, operand).Some? && |st.callStack| < l.maxCallDepth
    requires later.callStack == st.callStack + [st.pc + 1] && Executes(p, later, Ret, any)
    ensures Step(p, l, phrases, st) == Ok(st.(pc := JumpTarget(p, operand).value, callStack := st.callStack + [st.pc + 1]))
    ensures Step(p, l, phrases, later) == Ok(later.(pc := st.pc + 1, callStack := st.callStack))
  {
    hide JumpTarget, Arithmetic, StackOp, MemoryOp, TextOp;
    assert later.callStack[..|later.callStack| - 1] == st.callStack;
  }

  // ----- memory -----

  /** LOAD behind STORE gives the value back; other registers, and everything else, keep theirs. */
  lemma RegistersReadBack(p: Program, l: Limits, phrases: Phrases, st: State, v: Value, i: nat, j: nat) returns (stored: State)
    requires Executes(p, st, Store, Reg(i)) && Executes(p, Passed(st), Load, Reg(j))
    requires i < REGISTER_COUNT && j < REGISTER_COUNT && |st.registers| == REGISTER_COUNT && Fits(l, v)
    requires |st.stack| < l.maxStackDepth && Fits(l, st.registers[j])
    ensures Step(p, l, phrases, With(st, [v])) == Ok(stored)
    ensures stored == Passed(st).(registers := stored.registers)
    ensures Step(p, l, phrases, stored) == Ok(With(Passed(stored), [if i == j then v else st.registers[j]]))
  {
    hide Arithmetic, StackOp, ControlOp, TextOp, PopValue;
    Operands1(Passed(st), v);
    stored := Passed(st).(registers := st.registers[i := v]);
  }

  /** What HLOAD finds at an address: 0n where nothing, null or undefined was stored. */
  function Found(heap: map<int, Value>, address: int): Value {
    if address in heap && !heap[address].Null? && !heap[address].Undefined? then heap[address] else Big(0)
  }

  lemma StoredIsFound(l: Limits, heap: map<int, Value>, at: int, v: Value, from: int)
    requires Fits(l, v) && Fits(l, Found(heap, from))
    ensures Found(heap[at := v], from) == if at == from then (if v.Null? || v.Undefined? then Big(0) else v) else Found(heap, from)
    ensures Fits(l, Found(heap[at := v], from))
  {
  }

  lemma HStoreStores(p: Program, l: Limits, phrases: Phrases, st: State, at: Value, v: Value)
    requires Holds(p, st.pc, HStore) && AsInteger(at).Some? && Fits(l, v)
    requires AsInteger(at).value in st.heap || |st.heap| < l.maxHeapCells
    ensures Step(p, l, phrases, With(st, [v, at])) == Ok(Passed(st).(heap := st.heap[AsInteger(at).value := v]))
  {
    hide AsInteger, Arithmetic, StackOp, ControlOp, TextOp, PopValue, Fits;
    Operands2(Passed(st), v, at);
    Operands1(Passed(st), v);
  }

  lemma HLoadFinds(p: Program, l: Limits, phrases: Phrases, st: State, from: Value)
    requires Holds(p, st.pc, HLoad) && AsInteger(from).Some?
    requires |st.stack| < l.maxStackDepth && Fits(l, Found(st.heap, AsInteger(from).value))
    ensures Leaves(p, l, phrases, st, [from], Found(st.heap, AsInteger(from).value))
  {
    hide AsInteger, Arithmetic, StackOp, ControlOp, TextOp, PopValue, Fits;
    Operands1(Passed(st), from);
  }

  /** HLOAD behind HSTORE gives the value back, whatever value denotes the address; other addresses keep theirs. */
  lemma HeapReadsBack(p: Program, l: Limits, phrases: Phrases, st: State, at: Value, v: Value, from: Value) returns (stored: State)
    requires Holds(p, st.pc, HStore) && Holds(p, st.pc + 1, HLoad)
    requires AsInteger(at).Some? && AsInteger(from).Some? && Fits(l, v)
    requires AsInteger(at).value in st.heap || |st.heap| < l.maxHeapCells
    requires |st.stack| < l.maxStackDepth && Fits(l, Found(st.heap, AsInteger(from).value))
    ensures Step(p, l, phrases, With(st, [v, at])) == Ok(stored)
    ensures stored == Passed(st).(heap := stored.heap)
    ensures var found := if AsInteger(at) == AsInteger(from) then (if v.Null? || v.Undefined? then Big(0) else v)
                         else Found(st.heap, AsInteger(from).value);
            Step(p, l, phrases, With(stored, [from])) == Ok(With(Passed(stored), [found]))
  {
    stored := Passed(st).(heap := st.heap[AsInteger(at).value := v]);
    StoredIsFound(l, st.heap, AsInteger(at).value, v, AsInteger(from).value);
    assert stored.stack == st.stack && stored.heap == st.heap[AsInteger(at).value := v];
    hide AsInteger, Step, Fits, Found, Holds;
    assert Holds(p, stored.pc, HLoad);
    HStoreStores(p, l, phrases, st, at, v);
    HLoadFinds(p, l, phrases, stored, from);
  }

  /** A full heap refuses a new address and takes an old one. */
  lemma FullHeapRefusesExactly(p: Program, l: Limits, phrases: Phrases, st: State, at: Value, v: Value)
    requires Holds(p, st.pc, HStore) && AsInteger(at).Some? && Fits(l, v)
    ensures var refused := AsInteger(at).value !in st.heap && |st.heap| >= l.maxHeapCells;
            if refused then Throws(p, l, phrases, With(st, [v, at]), ResourceLimit)
            else Step(p, l, phrases, With(st, [v, at])).Ok?
  {
    hide AsInteger, Arithmetic, StackOp, ControlOp, TextOp, PopValue, Fits;
    Operands2(Passed(st), v, at);
    Operands1(Passed(st), v);
  }

  // ----- the stack -----

  /** PUSH pushes its operand, whatever it is. */
  lemma PushLaw(p: Program, l: Limits, phrases: Phrases, st: State)
    requires Holds(p, st.pc, Push) && |st.stack| < l.maxStackDepth && Fits(l, p.instructions[st.pc].operand)
    ensures Leaves(p, l, phrases, st, [], p.instructions[st.pc].operand)
  {
    hide Arithmetic, MemoryOp, ControlOp, TextOp;
    assert With(st, []) == st;
  }

  /** SWAP exchanges the top two values. */
  lemma SwapLaw(p: Program, l: Limits, phrases: Phrases, st: State, a: Value, b: Value)
    requires Holds(p, st.pc, Swap) && |st.stack| + 2 <= l.maxStackDepth && Fits(l, a) && Fits(l, b)
    ensures Step(p, l, phrases, With(st, [a, b])) == Ok(With(Passed(st), [b, a]))
  {
    hide Fits, Arithmetic, MemoryOp, ControlOp, TextOp, PopValue;
    Operands2(Passed(st), a, b);
    Operands1(Passed(st), a);
    assert st.stack + [b] + [a] == st.stack + [b, a];
  }

  /** DUP pushes the top value once more, and POP behind it undoes that. */
  lemma DupLaw(p: Program, l: Limits, phrases: Phrases, st: State, v: Value)
    requires Holds(p, st.pc, Dup) && Holds(p, st.pc + 1, Pop) && |st.stack| + 1 < l.maxStackDepth && Fits(l, v)
    ensures Step(p, l, phrases, With(st, [v])) == Ok(With(Passed(st), [v, v]))
    ensures Step(p, l, phrases, With(Passed(st), [v, v])) == Ok(With(Passed(Passed(st)), [v]))
  {
    hide Fits, Arithmetic, MemoryOp, ControlOp, TextOp, PopValue;
    Operands1(Passed(st), v);
    Operands2(Passed(Passed(st)), v, v);
    assert st.stack + [v] + [v] == st.stack + [v, v];
  }

  // ----- texts and output -----

  /** CONCAT joins the two renderings, the one below first, and fails exactly when the result is too long. */
  lemma ConcatLaw(p: Program, l: Limits, phrases: Phrases, st: State, left: Value, right: Value)
    requires Holds(p, st.pc, Concat) && |st.stack| < l.maxStackDepth
    ensures var joined := Render(left) + Render(right);
            if |joined| <= l.maxStringLength then Leaves(p, l, phrases, st, [left, right], Str(joined))
            else Step(p, l, phrases, With(st, [left, right])) == Err(Error(ResourceLimit, st.pc + 1, None))
  {
    hide Render, Arithmetic, StackOp, MemoryOp, ControlOp, PopValue;
    Operands2(Passed(st), left, right);
    Operands1(Passed(st), left);
  }

  /** TOSTR leaves a text that renders as the value does, and that denotes the same integer when the value is one. */
  lemma ToStrLaw(p: Program, l: Limits, phrases: Phrases, st: State, v: Value)
    requires Holds(p, st.pc, ToStr) && |st.stack| < l.maxStackDepth && |Render(v)| <= l.maxStringLength
    ensures Leaves(p, l, phrases, st, [v], Str(Render(v)))
    ensures Render(Str(Render(v))) == Render(v) && (v.Big? ==> AsInteger(Str(Render(v))) == Some(v.n))
  {
    hide Render, Arithmetic, StackOp, MemoryOp, ControlOp, PopValue, AsInteger;
    Operands1(Passed(st), v);
    StrRenders(Render(v));
    if v.Big? {
      IntegersSurviveText(v.n);
    }
  }

  lemma StrRenders(t: Text)
    ensures Render(Str(t)) == t
  {
  }

  /** The output grew by this text. */
  ghost predicate Writes(p: Program, l: Limits, phrases: Phrases, st: State, v: Value, text: Text) {
    Step(p, l, phrases, With(st, [v])) == Ok(Passed(st).(output := st.output + text))
  }

  /** OUTN writes a text that denotes the integer. */
  lemma OutNLaw(p: Program, l: Limits, phrases: Phrases, st: State, v: Value, n: int) returns (text: Text)
    requires Holds(p, st.pc, OutN) && AsInteger(v) == Some(n)
    ensures Writes(p, l, phrases, st, v, text) && ReadInteger(text) == Some(n) && text[0] != 43
  {
    hide Decimal, ReadInteger, Arithmetic, StackOp, MemoryOp, ControlOp, PopValue;
    Operands1(Passed(st), v);
    text := Decimal(n);
    IntegersSurviveText(n);
    DecimalStarts(n);
  }

  lemma DecimalStarts(n: int)
    ensures Decimal(n) != [] && Decimal(n)[0] != 43
  {
    if n >= 0 {
      DigitsRoundTrip(n);
    }
  }

  /** OUTC writes one code unit, or a high and a low surrogate that together denote the code point; other numbers are type errors. */
  lemma OutCLaw(p: Program, l: Limits, phrases: Phrases, st: State, v: Value, n: int) returns (units: Text)
    requires Holds(p, st.pc, OutC) && AsInteger(v) == Some(n)
    ensures 0 <= n <= 0x10FFFF && !(0xD800 <= n <= 0xDFFF) ==> Writes(p, l, phrases, st, v, units) && Denotes(units, n)
    ensures !(0 <= n <= 0x10FFFF) || 0xD800 <= n <= 0xDFFF ==>
      Step(p, l, phrases, With(st, [v])) == Err(Error(TypeError, st.pc + 1, None))
  {
    hide FromCodePoint, Denotes, Arithmetic, StackOp, MemoryOp, ControlOp, PopValue, AsInteger;
    Operands1(Passed(st), v);
    units := [];
    if UnicodeScalar(n) {
      units := FromCodePoint(n);
      CodePointsSurvive(n);
    }
  }

  /** UTF-16: one unit that is no surrogate, or a surrogate pair. */
  predicate Denotes(units: Text, n: int) {
    if |units| == 1 then units[0] == n && !(0xD800 <= n <= 0xDFFF)
    else |units| == 2 && 0xD800 <= units[0] <= 0xDBFF && 0xDC00 <= units[1] <= 0xDFFF
         && 0x10000 + (units[0] - 0xD800) * 0x400 + (units[1] - 0xDC00) == n
  }

  lemma CodePointsSurvive(n: int)
    requires UnicodeScalar(n)
    ensures Denotes(FromCodePoint(n), n)
  {
  }

  /** The critic says the rendering of a value and ends the line; the performance's end and HALT stop the run. */
  lemma PhraseLaws(p: Program, l: Limits, phrases: Phrases, st: State, v: Value)
    requires 0 <= st.pc < |p.instructions|
    ensures Holds(p, st.pc, Sys) && phrases(p.instructions[st.pc].operand) == CriticSays ==>
      Writes(p, l, phrases, st, v, Render(v) + [10])
    ensures Holds(p, st.pc, Sys) && phrases(p.instructions[st.pc].operand) == PerformanceOver ==>
      Step(p, l, phrases, st) == Ok(Passed(st).(halted := true))
    ensures Holds(p, st.pc, HaltOp) ==> Step(p, l, phrases, st) == Ok(Passed(st).(halted := true))
    ensures Holds(p, st.pc, Nop) ==> Step(p, l, phrases, st) == Ok(Passed(st))
  {
    hide Render, Arithmetic, StackOp, MemoryOp, ControlOp, PopValue;
    Operands1(Passed(st), v);
    assert st.output + Render(v) + [10] == st.output + (Render(v) + [10]);
  }
}
