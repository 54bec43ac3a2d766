/**
 Safety of the Merzato machine over whole runs: an invariant of every reachable state, termination
 within the step limit, and the fact that limits only ever cut runs short.
 */
module MerzatoSafety {
  import opened Outcomes
  import opened MerzatoVm

  function AtLeastZero(n: int): nat { if n < 0 then 0 else n }

  predicate AllFit(l: Limits, values: seq<Value>) {
    forall k :: 0 <= k < |values| ==> Fits(l, values[k])
  }

  predicate HeapFits(l: Limits, heap: map<int, Value>) {
    forall a :: a in heap ==> Fits(l, heap[a])
  }

  /** The invariant of reachable states, over a program of n instructions. */
  predicate Sound(n: nat, l: Limits, st: State) {
    && 0 <= st.pc <= n
    && (forall k :: 0 <= k < |st.callStack| ==> 0 <= st.callStack[k] <= n)
    && |st.stack| <= AtLeastZero(l.maxStackDepth)
    && |st.callStack| <= AtLeastZero(l.maxCallDepth)
    && |st.heap| <= AtLeastZero(l.maxHeapCells)
    && |st.registers| == 16
    && AllFit(l, st.stack) && AllFit(l, st.registers) && HeapFits(l, st.heap)
  }

  /** A step's result keeps the invariant unless it throws. */
  predicate Keeps(n: nat, l: Limits, r: Result<State, Error>) {
    r.Ok? ==> Sound(n, l, r.value)
  }

  lemma PushKeeps(n: nat, l: Limits, st: State, v: Value)
    requires Sound(n, l, st)
    ensures Keeps(n, l, PushValue(l, st, v))
  {
  }

  lemma PopKeeps(n: nat, l: Limits, st: State)
    requires Sound(n, l, st)
    ensures PopValue(st).Ok? ==> Sound(n, l, PopValue(st).value.1) && Fits(l, PopValue(st).value.0)
    ensures PopInteger(st).Ok? ==> Sound(n, l, PopInteger(st).value.1)
  {
    hide AsInteger, Fits;
  }

  lemma ArithmeticKeeps(n: nat, l: Limits, ins: Instruction, st: State)
    requires Sound(n, l, st)
    ensures Keeps(n, l, Arithmetic(l, ins, st))
  {
    hide Sound, PopInteger, PushValue, Quotient, Modulo;
    PopKeeps(n, l, st);
    var first := PopInteger(st);
    if first.Ok? {
      PopKeeps(n, l, first.value.1);
      var second := PopInteger(first.value.1);
      if second.Ok? {
        var (b, a) := (first.value.0, second.value.0);
        PushKeeps(n, l, second.value.1, Big(a + b));
        PushKeeps(n, l, second.value.1, Big(a - b));
        PushKeeps(n, l, second.value.1, Big(a * b));
        PushKeeps(n, l, second.value.1, Big(if a > b then 1 else 0));
        if b != 0 {
          PushKeeps(n, l, second.value.1, Big(Quotient(a, b)));
          PushKeeps(n, l, second.value.1, Big(Modulo(a, b)));
        }
      }
    }
  }

  lemma StackOpKeeps(n: nat, l: Limits, ins: Instruction, st: State)
    requires Sound(n, l, st) && ins.op in {Push, Pop, Dup, Swap, Not}
    ensures Keeps(n, l, StackOp(l, ins, st))
  {
    hide Sound, PopValue, PushValue, IsZero;
    PushKeeps(n, l, st, ins.operand);
    PopKeeps(n, l, st);
    var first := PopValue(st);
    if first.Ok? {
      var (v, st1) := first.value;
      PushKeeps(n, l, st, v);
      PushKeeps(n, l, st1, Big(if IsZero(v) then 1 else 0));
      PopKeeps(n, l, st1);
      var second := PopValue(st1);
      if second.Ok? {
        PushKeeps(n, l, second.value.1, v);
        var third := PushValue(l, second.value.1, v);
        if third.Ok? {
          PushKeeps(n, l, third.value, second.value.0);
        }
      }
    }
  }

  lemma LoadStoreKeeps(n: nat, l: Limits, ins: Instruction, st: State)
    requires Sound(n, l, st) && ins.op in {Load, Store}
    ensures Keeps(n, l, MemoryOp(l, ins, st))
  {
    hide PushValue, PopInteger, PopValue, Fits;
    var r := RegisterIndex(ins.operand);
    if r.Some? {
      PushKeeps(n, l, st, st.registers[r.value]);
      PopKeeps(n, l, st);
    }
  }

  lemma HeapOpKeeps(n: nat, l: Limits, ins: Instruction, st: State)
    requires Sound(n, l, st) && ins.op in {HLoad, HStore}
    ensures Keeps(n, l, MemoryOp(l, ins, st))
  {
    hide PushValue, PopInteger, PopValue, Fits, AllFit;
    PopKeeps(n, l, st);
    var first := PopInteger(st);
    if first.Ok? {
      var (address, st1) := first.value;
      PushKeeps(n, l, st1, if address in st1.heap && !st1.heap[address].Null? && !st1.heap[address].Undefined?
                           then st1.heap[address] else Big(0));
      PopKeeps(n, l, st1);
      var second := PopValue(st1);
      if second.Ok? {
        HeapGrowth(second.value.1.heap, address, second.value.0);
      }
    }
  }

  lemma HeapGrowth(heap: map<int, Value>, address: int, v: Value)
    ensures |heap[address := v]| == if address in heap then |heap| else |heap| + 1
  {
    var more := heap[address := v];
    assert more.Keys == heap.Keys + {address};
  }

  lemma ControlKeeps(p: Program, l: Limits, ins: Instruction, st: State)
    requires Sound(|p.instructions|, l, st)
    ensures Keeps(|p.instructions|, l, ControlOp(p, l, ins, st))
  {
    hide PopValue, AllFit, HeapFits, JumpTo, IsZero;
    var n := |p.instructions|;
    PopKeeps(n, l, st);
    JumpKeeps(p, l, st, ins.operand);
    if PopValue(st).Ok? {
      JumpKeeps(p, l, PopValue(st).value.1, ins.operand);
    }
    if |st.callStack| < l.maxCallDepth {
      JumpKeeps(p, l, st.(callStack := st.callStack + [st.pc]), ins.operand);
    }
  }

  lemma JumpKeeps(p: Program, l: Limits, st: State, operand: Value)
    requires Sound(|p.instructions|, l, st)
    ensures Keeps(|p.instructions|, l, JumpTo(p, st, operand))
  {
    hide AllFit, HeapFits;
  }

  lemma TextKeeps(n: nat, l: Limits, phrases: Phrases, ins: Instruction, st: State)
    requires Sound(n, l, st)
    ensures Keeps(n, l, TextOp(l, phrases, ins, st))
  {
    if ins.op == ToStr || ins.op == Concat {
      BuiltTextKeeps(n, l, phrases, ins, st);
    } else {
      WrittenTextKeeps(n, l, phrases, ins, st);
    }
  }

  lemma BuiltTextKeeps(n: nat, l: Limits, phrases: Phrases, ins: Instruction, st: State)
    requires Sound(n, l, st) && ins.op in {ToStr, Concat}
    ensures Keeps(n, l, TextOp(l, phrases, ins, st))
  {
    hide Sound, PopValue, PushValue, Render;
    PopKeeps(n, l, st);
    var first := PopValue(st);
    if first.Ok? {
      var (v, st1) := first.value;
      PushKeeps(n, l, st1, Str(Render(v)));
      PopKeeps(n, l, st1);
      var second := PopValue(st1);
      if second.Ok? {
        PushKeeps(n, l, second.value.1, Str(Render(second.value.0) + Render(v)));
      }
    }
  }

  /** Output and halting touch nothing the invariant speaks of. */
  lemma WrittenTextKeeps(n: nat, l: Limits, phrases: Phrases, ins: Instruction, st: State)
    requires Sound(n, l, st) && ins.op !in {ToStr, Concat}
    ensures Keeps(n, l, TextOp(l, phrases, ins, st))
  {
    hide PopValue, PopInteger, Render, Decimal, FromCodePoint, AllFit, HeapFits, UnicodeScalar;
    PopKeeps(n, l, st);
  }

  /** Every step from a sound state ends in a sound state or throws. */
  lemma StepKeepsSound(p: Program, l: Limits, phrases: Phrases, st: State)
    requires Sound(|p.instructions|, l, st)
    ensures Keeps(|p.instructions|, l, Step(p, l, phrases, st))
  {
    hide Arithmetic, StackOp, MemoryOp, ControlOp, TextOp, AllFit, HeapFits;
    if 0 <= st.pc < |p.instructions| {
      var n, ins := |p.instructions|, p.instructions[st.pc];
      var st1 := st.(pc := st.pc + 1);
      match ins.op
      case Add | Sub | Mul | Div | Mod | CmpGt => ArithmeticKeeps(n, l, ins, st1);
      case Push | Pop | Dup | Swap | Not => StackOpKeeps(n, l, ins, st1);
      case Load | Store => LoadStoreKeeps(n, l, ins, st1);
      case HLoad | HStore => HeapOpKeeps(n, l, ins, st1);
      case Jmp | Jz | Jnz | Call | Ret => ControlKeeps(p, l, ins, st1);
      case ToStr | Concat | OutN | OutC | Sys => TextKeeps(n, l, phrases, ins, st1);
      case _ =>
    }
  }

  // ----- reachable states -----

  /** The state after k steps of the run loop, while it is still running. */
  function After(p: Program, l: Limits, phrases: Phrases, k: nat): Result<State, Error> {
    if k == 0 then Ok(Start(p))
    else
      var st :- After(p, l, phrases, k - 1);
      if st.halted then Ok(st) else Step(p, l, phrases, st)
  }

  /** The program counter and every return address stay in 0..n, and every limit holds, in all reachable states. */
  lemma {:induction false} ReachableIsSound(p: Program, l: Limits, phrases: Phrases, k: nat)
    requires 0 <= p.entry <= |p.instructions|
    ensures Keeps(|p.instructions|, l, After(p, l, phrases, k))
  {
    hide Step;
    if k > 0 {
      ReachableIsSound(p, l, phrases, k - 1);
      var before := After(p, l, phrases, k - 1);
      if before.Ok? {
        StepKeepsSound(p, l, phrases, before.value);
      }
    }
  }

  /** The error was thrown by one of the steps after the first `steps`. */
  ghost predicate ThrownBy(p: Program, l: Limits, phrases: Phrases, steps: nat, e: Error) {
    exists k: nat :: steps < k <= l.maxSteps && After(p, l, phrases, k) == Err(e)
  }

  /** A run that had taken `steps` steps ends in a state its steps reach, or in an error a step or a limit threw. */
  ghost predicate Ends(p: Program, l: Limits, phrases: Phrases, steps: nat, ending: Ending) {
    match ending
    case Ok((final, taken)) =>
      final.halted && steps <= taken <= AtLeastZero(l.maxSteps) && After(p, l, phrases, taken) == Ok(final)
    case Err(e) => e.code == ResourceLimit || ThrownBy(p, l, phrases, steps, e)
  }

  lemma {:induction false} RunFollowsAfter(p: Program, l: Limits, phrases: Phrases, st: State, steps: nat)
    requires After(p, l, phrases, steps) == Ok(st)
    requires steps <= AtLeastZero(l.maxSteps)
    ensures Ends(p, l, phrases, steps, RunFrom(p, l, phrases, st, steps))
    decreases if l.maxSteps > steps then l.maxSteps - steps else 0
  {
    hide Step;
    if !st.halted && steps < l.maxSteps {
      var next := Step(p, l, phrases, st);
      assert After(p, l, phrases, steps + 1) == next;
      if next.Ok? {
        RunFollowsAfter(p, l, phrases, next.value, steps + 1);
      }
    }
  }

  /**
   Every run ends within the step limit: in a halted, sound state it reached in the reported number
   of steps, or with an error that one of its steps threw or a limit caused. In particular RET on an
   empty call stack and a jump to n end the run instead of leaving the program.
   */
  lemma RunsEnd(p: Program, l: Limits, phrases: Phrases)
    requires 0 <= p.entry <= |p.instructions|
    ensures Ends(p, l, phrases, 0, Run(p, l, phrases))
    ensures Run(p, l, phrases).Ok? ==> Sound(|p.instructions|, l, Run(p, l, phrases).value.0)
  {
    hide RunFrom, Step;
    RunFollowsAfter(p, l, phrases, Start(p), 0);
    var ending := RunFrom(p, l, phrases, Start(p), 0);
    if ending.Ok? {
      ReachableIsSound(p, l, phrases, ending.value.1);
    }
  }

  // ----- limits only cut runs short -----

  predicate Within(l: Limits, m: Limits) {
    && l.maxSteps <= m.maxSteps && l.maxStackDepth <= m.maxStackDepth && l.maxCallDepth <= m.maxCallDepth
    && l.maxHeapCells <= m.maxHeapCells && l.maxStringLength <= m.maxStringLength
  }

  /** The tighter result is the looser one, or it stopped at a limit. */
  ghost predicate CutShort<T>(tight: Result<T, Error>, loose: Result<T, Error>) {
    tight == loose || (tight.Err? && tight.error.code == ResourceLimit)
  }

  lemma PushCutShort(l: Limits, m: Limits, st: State, v: Value)
    requires Within(l, m)
    ensures CutShort(PushValue(l, st, v), PushValue(m, st, v))
  {
  }

  lemma ArithmeticCutShort(l: Limits, m: Limits, ins: Instruction, st: State)
    requires Within(l, m)
    ensures CutShort(Arithmetic(l, ins, st), Arithmetic(m, ins, st))
  {
    hide PushValue, PopInteger, Quotient, Modulo;
    var operands := PopIntegers(st);
    if operands.Ok? {
      var (a, b, st1) := operands.value;
      PushCutShort(l, m, st1, Big(a + b));
      PushCutShort(l, m, st1, Big(a - b));
      PushCutShort(l, m, st1, Big(a * b));
      PushCutShort(l, m, st1, Big(if a > b then 1 else 0));
      if b != 0 {
        PushCutShort(l, m, st1, Big(Quotient(a, b)));
        PushCutShort(l, m, st1, Big(Modulo(a, b)));
      }
    }
  }

  lemma StackOpCutShort(l: Limits, m: Limits, ins: Instruction, st: State)
    requires Within(l, m)
    ensures CutShort(StackOp(l, ins, st), StackOp(m, ins, st))
  {
    hide IsZero;
  }

  lemma MemoryOpCutShort(l: Limits, m: Limits, ins: Instruction, st: State)
    requires Within(l, m)
    ensures CutShort(MemoryOp(l, ins, st), MemoryOp(m, ins, st))
  {
    hide AsInteger;
  }

  lemma TextOpCutShort(l: Limits, m: Limits, phrases: Phrases, ins: Instruction, st: State)
    requires Within(l, m)
    ensures CutShort(TextOp(l, phrases, ins, st), TextOp(m, phrases, ins, st))
  {
    hide Render, Decimal, FromCodePoint, PopInteger;
  }

  lemma StepCutShort(p: Program, l: Limits, m: Limits, phrases: Phrases, st: State)
    requires Within(l, m)
    ensures CutShort(Step(p, l, phrases, st), Step(p, m, phrases, st))
  {
    hide Arithmetic, StackOp, MemoryOp, TextOp, JumpTo, PopValue;
    if 0 <= st.pc < |p.instructions| {
      var ins := p.instructions[st.pc];
      var st1 := st.(pc := st.pc + 1);
      match ins.op
      case Add | Sub | Mul | Div | Mod | CmpGt => ArithmeticCutShort(l, m, ins, st1);
      case Push | Pop | Dup | Swap | Not => StackOpCutShort(l, m, ins, st1);
      case Load | Store | HLoad | HStore => MemoryOpCutShort(l, m, ins, st1);
      case ToStr | Concat | OutN | OutC | Sys => TextOpCutShort(l, m, phrases, ins, st1);
      case _ =>
    }
  }

  lemma {:induction false} RunFromCutShort(p: Program, l: Limits, m: Limits, phrases: Phrases, st: State, steps: nat)
    requires Within(l, m)
    ensures CutShort(RunFrom(p, l, phrases, st, steps), RunFrom(p, m, phrases, st, steps))
    decreases if l.maxSteps > steps then l.maxSteps - steps else 0
  {
    hide Step;
    if !st.halted && steps < l.maxSteps {
      StepCutShort(p, l, m, phrases, st);
      var next := Step(p, l, phrases, st);
      if next.Ok? {
        RunFromCutShort(p, l, m, phrases, next.value, steps + 1);
      }
    }
  }

  /** A run under tighter limits is the run under looser ones, state, steps and error included, or stops with RESOURCE_LIMIT. */
  lemma LimitsAreMonotone(p: Program, l: Limits, m: Limits, phrases: Phrases)
    requires Within(l, m)
    ensures CutShort(Run(p, l, phrases), Run(p, m, phrases))
  {
    hide RunFrom;
    RunFromCutShort(p, l, m, phrases, Start(p), 0);
  }

  /** Raising limits never changes a finished result, nor an error that no limit caused. */
  lemma RaisingLimitsKeepsResults(p: Program, l: Limits, m: Limits, phrases: Phrases)
    requires Within(l, m)
    requires Run(p, l, phrases).Ok? || Run(p, l, phrases).error.code != ResourceLimit
    ensures Run(p, m, phrases) == Run(p, l, phrases)
  {
    hide Run;
    LimitsAreMonotone(p, l, m, phrases);
  }

  // ----- arithmetic and conversions -----

  function Magnitude(n: int): (m: int)
    ensures m >= 0
  {
    if n < 0 then -n else n
  }

  /** Truncated division in terms of magnitudes: the remainder takes the sign of the dividend. */
  lemma TruncatedDivision(a: int, b: int)
    requires b != 0
    ensures a - b * Quotient(a, b) == if a < 0 then -(Magnitude(a) % Magnitude(b)) else Magnitude(a) % Magnitude(b)
  {
    var n, m := Magnitude(a), Magnitude(b);
    var q := n / m;
    assert n == m * q + n % m;
    assert b * Quotient(a, b) == if a < 0 then -(m * q) else m * q by {
      SignedProduct(a < 0, b, m, q);
    }
  }

  lemma SignedProduct(negative: bool, b: int, m: int, q: int)
    requires m == Magnitude(b)
    ensures b * (if negative == (b < 0) then q else -q) == if negative then -(m * q) else m * q
  {
    if b < 0 {
      assert b * q == -(m * q) && b * -q == m * q;
    } else {
      assert b * q == m * q && b * -q == -(m * q);
    }
  }

  /** MOD yields the non-negative remainder of the divisor's magnitude, congruent to the dividend. */
  lemma ModuloLaws(a: int, b: int) returns (k: int)
    requires b != 0
    ensures 0 <= Modulo(a, b) < Magnitude(b)
    ensures a == b * k + Modulo(a, b)
  {
    TruncatedDivision(a, b);
    var t := Quotient(a, b);
    var r := a - b * t;
    assert 0 <= Magnitude(a) % Magnitude(b) < Magnitude(b);
    if r >= 0 {
      k := t;
    } else if b < 0 {
      k := t + 1;
      assert b * (t + 1) == b * t + b;
    } else {
      k := t - 1;
      assert b * (t - 1) == b * t - b;
    }
  }

  lemma {:induction false} DigitsRoundTrip(n: nat)
    ensures AllDigits(Digits(n)) && Digits(n) != [] && ReadDigits(Digits(n)) == n
    decreases n
  {
    if n >= 10 {
      DigitsRoundTrip(n / 10);
      assert Digits(n)[..|Digits(n)| - 1] == Digits(n / 10);
    } else {
      assert Digits(n)[..0] == [];
    }
  }

  /** TOSTR followed by an integer conversion gives the integer back. */
  lemma IntegersSurviveText(n: int)
    ensures AsInteger(Str(Render(Big(n)))) == Some(n)
  {
    hide ReadDigits;
    if n < 0 {
      DigitsRoundTrip(-n);
      assert Decimal(n)[1..] == Digits(-n);
    } else {
      DigitsRoundTrip(n);
      assert Digits(n)[0] != 43 && Digits(n)[0] != 45;
    }
  }
}
