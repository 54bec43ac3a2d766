/**
 What static analysis guarantees about every execution: no accepted program can underflow,
 overflow the stack or meet a bad operand; the static depths and counts are exact; a run depends
 only on the declared inputs and on the code up to the first HALT.
 */
module VelatoSafety {
  import opened Outcomes
  import opened VelatoIr
  import opened VelatoAnalyzer
  import opened VelatoMachine

  predicate InRange(c: Core) {
    && |c.locals| == MAX_LOCALS
    && 0 <= c.score <= 100
    && 0 <= c.severity <= 9
    && 0 <= c.route <= 255
  }

  ghost predicate KnowsInputs(env: Environment) {
    forall name :: name in INPUTS ==> name in env
  }

  // ----- one operation -----

  /** With enough cells and a valid operand an operation changes the depth as declared, or fails numerically. */
  ghost predicate ObeysTable(ins: Instruction, c: Core, r: Result<Core, Fault>) {
    match r
    case Ok(c') => |c'.stack| == |c.stack| - Pops(ins.op) + Pushes(ins.op) && InRange(c')
    case Err(e) => Numeric(e)
  }

  lemma PerformObeysTable(ar: Arithmetic, env: Environment, ins: Instruction, c: Core)
    requires ValidOperand(ins) && KnowsInputs(env) && InRange(c)
    requires Pops(ins.op) <= |c.stack|
    ensures ObeysTable(ins, c, Perform(ar, env, ins, c))
  {
    hide Partial, Unary, Ternary, Binary, Source, Store, Shuffle, Numeric, Pops, Pushes, ValidOperand, KnowsInputs, ShapeOf;
    match ShapeOf(ins.op)
    case Idle => IdleIsNeutral(ins.op);
    case Produces => SourceSucceeds(ar, env, ins, c);
    case Combines => BinaryObeysTable(ar, ins.op, c.stack);
    case CombinesPartially => PartialObeysTable(ar, ins.op, c.stack);
    case Maps => UnaryObeysTable(ar, ins.op, c.stack);
    case Chooses => TernaryObeysTable(ins.op, c.stack);
    case Shuffles => ShuffleObeysTable(ins.op, c.stack);
    case Stores => StoreObeysTable(ins, c);
  }

  lemma SourceSucceeds(ar: Arithmetic, env: Environment, ins: Instruction, c: Core)
    requires ValidOperand(ins) && KnowsInputs(env) && InRange(c)
    requires ShapeOf(ins.op) == Produces
    ensures Source(ar, env, ins, c).Ok? && Pops(ins.op) == 0 && Pushes(ins.op) == 1
  {
  }

  lemma BinaryObeysTable(ar: Arithmetic, op: Op, s: seq<real>)
    requires ShapeOf(op) == Combines && |s| >= Pops(op)
    ensures Binary(ar, op, s).Ok? ==> |Binary(ar, op, s).value| == |s| - Pops(op) + Pushes(op)
    ensures Binary(ar, op, s).Err? ==> Numeric(Binary(ar, op, s).error)
  {
    hide BinaryValue;
  }

  lemma ShuffleObeysTable(op: Op, s: seq<real>)
    requires ShapeOf(op) == Shuffles && |s| >= Pops(op)
    ensures Shuffle(op, s).Ok? && |Shuffle(op, s).value| == |s| - Pops(op) + Pushes(op)
  {
  }

  lemma StoreObeysTable(ins: Instruction, c: Core)
    requires ShapeOf(ins.op) == Stores
    requires ValidOperand(ins) && InRange(c) && |c.stack| >= Pops(ins.op)
    ensures Store(ins, c).Ok? && InRange(Store(ins, c).value)
    ensures |Store(ins, c).value.stack| == |c.stack| - Pops(ins.op) + Pushes(ins.op)
  {
    hide RoundHalfEven;
  }

  lemma PartialObeysTable(ar: Arithmetic, op: Op, s: seq<real>)
    requires ShapeOf(op) == CombinesPartially && |s| >= Pops(op)
    ensures Partial(ar, op, s).Ok? ==> |Partial(ar, op, s).value| == |s| - Pops(op) + Pushes(op)
    ensures Partial(ar, op, s).Err? ==> Numeric(Partial(ar, op, s).error)
  {
  }

  lemma UnaryObeysTable(ar: Arithmetic, op: Op, s: seq<real>)
    requires ShapeOf(op) == Maps && |s| >= Pops(op)
    ensures Unary(ar, op, s).Ok? ==> |Unary(ar, op, s).value| == |s| - Pops(op) + Pushes(op)
    ensures Unary(ar, op, s).Err? ==> Numeric(Unary(ar, op, s).error)
  {
    hide RoundHalfEven;
  }

  lemma TernaryObeysTable(op: Op, s: seq<real>)
    requires ShapeOf(op) == Chooses && |s| >= Pops(op)
    ensures Ternary(op, s).Ok? ==> |Ternary(op, s).value| == |s| - Pops(op) + Pushes(op)
    ensures Ternary(op, s).Err? ==> Numeric(Ternary(op, s).error)
  {
  }

  // ----- whole runs: depths are exact -----

  /** A trace entry names the instruction it came from and the static depths around it. */
  ghost predicate TracedAs(entry: TraceEntry, ir: seq<Instruction>, j: nat)
    requires j < |ir|
  {
    match entry
    case Executed(op, arg, before, after, _) =>
      op == ir[j].op != Halt && arg == ir[j].arg && before == DepthAt(ir, j) && after == DepthAt(ir, j + 1)
    case Halted(arg, depth) => ir[j].op == Halt && arg == ir[j].arg && depth == DepthAt(ir, j)
  }

  ghost predicate Agrees(ir: seq<Instruction>, k: nat, m: Machine)
    requires k <= |ir|
  {
    && |m.core.stack| == DepthAt(ir, k)
    && m.maxDepth == PeakAt(ir, k)
    && InRange(m.core)
    && |m.trace| == k
    && forall j :: 0 <= j < k ==> TracedAs(m.trace[j], ir, j)
  }

  lemma StepAgrees(ar: Arithmetic, env: Environment, maxInstructions: int, maxStack: int,
                   ir: seq<Instruction>, k: nat, m: Machine)
    requires k < |ir| <= maxInstructions && SafeAt(ir, k, maxStack) && KnowsInputs(env) && Agrees(ir, k, m)
    ensures match Step(ar, env, maxInstructions, maxStack, k, ir[k], m)
            case Ok(m') => Agrees(ir, k + 1, m')
            case Err(e) => Numeric(e)
  {
    hide Perform, ValidOperand, StackEffect, Numeric, KnowsInputs;
    PerformObeysTable(ar, env, ir[k], m.core);
    IdleIsNeutral(Halt);
    assert DepthAt(ir, k + 1) == DepthAt(ir, k) - Pops(ir[k].op) + Pushes(ir[k].op);
  }

  lemma IdleIsNeutral(op: Op)
    requires ShapeOf(op) == Idle
    ensures Pops(op) == 0 && Pushes(op) == 0
  {
  }

  lemma {:induction false} DepthsAreExact(ar: Arithmetic, env: Environment, maxInstructions: int, maxStack: int,
                                          ir: seq<Instruction>, k: nat)
    requires Accepted(ir, maxInstructions, maxStack) && k <= LiveLength(ir) && KnowsInputs(env)
    ensures match RunPrefix(ar, env, maxInstructions, maxStack, ir, k)
            case Ok(m) => Agrees(ir, k, m)
            case Err(e) => Numeric(e)
  {
    hide Step, LiveLength, SafeAt, Agrees, Numeric, FaultAt, Analyze, AnalysisOf;
    if k == 0 {
      assert Agrees(ir, 0, START) by { StartAgrees(ir); }
    } else {
      AnalyzeAcceptsExactly(ir, maxInstructions, maxStack);
      DepthsAreExact(ar, env, maxInstructions, maxStack, ir, k - 1);
      var before := RunPrefix(ar, env, maxInstructions, maxStack, ir, k - 1);
      if before.Ok? {
        StepAgrees(ar, env, maxInstructions, maxStack, ir, k - 1, before.value);
      }
    }
  }

  lemma StartAgrees(ir: seq<Instruction>)
    ensures Agrees(ir, 0, START)
  {
  }

  lemma NormalizedKnowsInputs(inputs: map<string, InputValue>)
    requires TotalAndFinite(inputs)
    ensures var env := Normalize(inputs, INPUTS, |INPUTS|);
            && env.Ok? && KnowsInputs(env.value)
            && (forall name :: name in INPUTS ==> name in inputs && inputs[name] == Finite(env.value[name]))
  {
    NormalizeAll(inputs, INPUTS, |INPUTS|);
    assert INPUTS[..|INPUTS|] == INPUTS;
  }

  /**
   Soundness and exactness: an accepted program, run on total finite inputs, either completes with
   exactly the analyzed instruction count and peak depth, outputs in range and every traced depth
   equal to the static one, or fails numerically. Underflow, stack overflow, bad operands and
   missing inputs cannot happen.
   */
  lemma AnalyzerIsSound(ar: Arithmetic, ir: seq<Instruction>, inputs: map<string, InputValue>,
                        maxInstructions: int, maxStack: int)
    requires Analyze(ir, maxInstructions, maxStack).Ok?
    requires TotalAndFinite(inputs)
    ensures var analysis := Analyze(ir, maxInstructions, maxStack).value;
            match Run(ar, ir, inputs, maxInstructions, maxStack)
            case Ok(r) =>
              && r.instructionsExecuted == analysis.instructionCount
              && r.maxStackDepth == analysis.maxStackDepth
              && 0 <= r.alertScore <= 100 && 0 <= r.severityCode <= 9 && 0 <= r.routingCode <= 255
              && |r.trace| == LiveLength(ir)
              && forall j :: 0 <= j < LiveLength(ir) ==> TracedAs(r.trace[j], ir, j)
            case Err(e) => Numeric(e)
  {
    hide RunPrefix, Normalize, Numeric, TracedAs;
    AnalyzeAcceptsExactly(ir, maxInstructions, maxStack);
    NormalizedKnowsInputs(inputs);
    var env := Normalize(inputs, INPUTS, |INPUTS|).value;
    DepthsAreExact(ar, env, maxInstructions, maxStack, ir, LiveLength(ir));
  }

  // ----- non-interference -----

  ghost predicate SameOn(a: Environment, b: Environment, names: set<string>) {
    forall name :: name in names ==> (name in a <==> name in b) && (name in a ==> a[name] == b[name])
  }

  lemma PerformReadsOnly(ar: Arithmetic, a: Environment, b: Environment, ins: Instruction, c: Core)
    requires SameOn(a, b, ReadBy(ins))
    ensures Perform(ar, a, ins, c) == Perform(ar, b, ins, c)
  {
    hide Binary, Partial, Unary, Ternary, Shuffle, Store;
  }

  lemma {:induction false} PrefixReadsOnly(ar: Arithmetic, a: Environment, b: Environment,
                                           maxInstructions: int, maxStack: int, ir: seq<Instruction>, k: nat)
    requires k <= |ir| && SameOn(a, b, UsesAt(ir, k).inputs)
    ensures RunPrefix(ar, a, maxInstructions, maxStack, ir, k) == RunPrefix(ar, b, maxInstructions, maxStack, ir, k)
  {
    hide Step, ReadBy, TouchedBy, WrittenBy;
    if k > 0 {
      assert UsesAt(ir, k).inputs == UsesAt(ir, k - 1).inputs + ReadBy(ir[k - 1]);
      PrefixReadsOnly(ar, a, b, maxInstructions, maxStack, ir, k - 1);
      var before := RunPrefix(ar, a, maxInstructions, maxStack, ir, k - 1);
      if before.Ok? {
        StepReadsOnly(ar, a, b, maxInstructions, maxStack, k - 1, ir[k - 1], before.value);
      }
    }
  }

  lemma StepReadsOnly(ar: Arithmetic, a: Environment, b: Environment, maxInstructions: int, maxStack: int,
                      index: nat, ins: Instruction, m: Machine)
    requires SameOn(a, b, ReadBy(ins))
    ensures Step(ar, a, maxInstructions, maxStack, index, ins, m) == Step(ar, b, maxInstructions, maxStack, index, ins, m)
  {
    hide Perform, ReadBy;
    PerformReadsOnly(ar, a, b, ins, m.core);
  }

  /** Two total finite input maps that agree on the required inputs give the same result, trace and failure. */
  lemma InputNonInterference(ar: Arithmetic, ir: seq<Instruction>, x: map<string, InputValue>, y: map<string, InputValue>,
                             maxInstructions: int, maxStack: int)
    requires TotalAndFinite(x) && TotalAndFinite(y)
    requires Analyze(ir, maxInstructions, maxStack).Ok? ==>
               forall name :: name in Analyze(ir, maxInstructions, maxStack).value.uses.inputs && name in INPUTS ==> x[name] == y[name]
    ensures Run(ar, ir, x, maxInstructions, maxStack) == Run(ar, ir, y, maxInstructions, maxStack)
  {
    hide RunPrefix, Normalize, ResultOf;
    NormalizedKnowsInputs(x);
    NormalizedKnowsInputs(y);
    AnalyzeAcceptsExactly(ir, maxInstructions, maxStack);
    if Accepted(ir, maxInstructions, maxStack) {
      var a, b := Normalize(x, INPUTS, |INPUTS|).value, Normalize(y, INPUTS, |INPUTS|).value;
      var live := LiveLength(ir);
      RequiredAreInputs(ir, maxInstructions, maxStack, live);
      assert SameOn(a, b, UsesAt(ir, live).inputs);
      PrefixReadsOnly(ar, a, b, maxInstructions, maxStack, ir, live);
    }
  }

  lemma {:induction false} RequiredAreInputs(ir: seq<Instruction>, maxInstructions: int, maxStack: int, k: nat)
    requires Accepted(ir, maxInstructions, maxStack) && k <= LiveLength(ir)
    ensures forall name :: name in UsesAt(ir, k).inputs ==> name in INPUTS
  {
    hide LiveLength, FaultAt, AnalysisOf, StackEffect, TouchedBy, WrittenBy;
    if k > 0 {
      AnalyzeAcceptsExactly(ir, maxInstructions, maxStack);
      assert SafeAt(ir, k - 1, maxStack);
      RequiredAreInputs(ir, maxInstructions, maxStack, k - 1);
    }
  }

  // ----- outputs and registers that are never written -----

  /** Outputs and registers that are not listed are still zero, and suppression still off. */
  ghost predicate KeepsUnlisted(c: Core, uses: Uses) {
    && (AlertScore !in uses.outputs ==> c.score == 0) && (SeverityCode !in uses.outputs ==> c.severity == 0)
    && (RoutingCode !in uses.outputs ==> c.route == 0) && (Suppressed !in uses.outputs ==> !c.suppressed)
    && |c.locals| == 16 && forall i :: 0 <= i < 16 && i !in uses.locals ==> c.locals[i] == 0.0
  }

  lemma PerformWritesOnly(ar: Arithmetic, env: Environment, ins: Instruction, c: Core, uses: Uses)
    requires KeepsUnlisted(c, uses)
    ensures Perform(ar, env, ins, c).Ok? ==> KeepsUnlisted(Perform(ar, env, ins, c).value, uses.Plus(ins))
  {
    hide Store, KeepsUnlisted, WrittenBy, TouchedBy, ReadBy;
    if ShapeOf(ins.op) == Stores {
      StoreWritesOnly(ins, c, uses);
    } else {
      OthersKeepMemory(ar, env, ins, c);
      MoreUsesKeep(c, Perform(ar, env, ins, c), uses, ins);
    }
  }

  lemma StoreWritesOnly(ins: Instruction, c: Core, uses: Uses)
    requires ShapeOf(ins.op) == Stores && KeepsUnlisted(c, uses)
    ensures Store(ins, c).Ok? ==> KeepsUnlisted(Store(ins, c).value, uses.Plus(ins))
  {
    hide RoundHalfEven, ClampInt, ReadBy;
  }

  lemma OthersKeepMemory(ar: Arithmetic, env: Environment, ins: Instruction, c: Core)
    requires ShapeOf(ins.op) != Stores
    ensures Perform(ar, env, ins, c).Ok? ==> Perform(ar, env, ins, c).value == c.(stack := Perform(ar, env, ins, c).value.stack)
  {
    hide Binary, Partial, Unary, Ternary, Shuffle, Source, Store, ShapeOf;
  }

  lemma MoreUsesKeep(c: Core, r: Result<Core, Fault>, uses: Uses, ins: Instruction)
    requires KeepsUnlisted(c, uses) && (r.Ok? ==> r.value == c.(stack := r.value.stack))
    ensures r.Ok? ==> KeepsUnlisted(r.value, uses.Plus(ins))
  {
    hide WrittenBy, TouchedBy, ReadBy;
  }

  lemma StepWritesOnly(ar: Arithmetic, env: Environment, maxInstructions: int, maxStack: int,
                       index: nat, ins: Instruction, m: Machine, uses: Uses)
    requires KeepsUnlisted(m.core, uses)
    ensures var r := Step(ar, env, maxInstructions, maxStack, index, ins, m);
            r.Ok? ==> KeepsUnlisted(r.value.core, uses.Plus(ins))
  {
    hide Perform, Top, WrittenBy, TouchedBy, ReadBy, KeepsUnlisted;
    PerformWritesOnly(ar, env, ins, m.core, uses);
    MoreUsesKeep(m.core, Ok(m.core), uses, ins);
  }

  /** An output or register the analysis does not list keeps its initial value throughout. */
  lemma {:induction false} UnlistedKept(ar: Arithmetic, env: Environment, maxInstructions: int, maxStack: int,
                                        ir: seq<Instruction>, k: nat)
    requires k <= |ir|
    ensures var r := RunPrefix(ar, env, maxInstructions, maxStack, ir, k);
            r.Ok? ==> KeepsUnlisted(r.value.core, UsesAt(ir, k))
  {
    hide Step, KeepsUnlisted, WrittenBy, ReadBy, TouchedBy;
    if k == 0 {
      StartIsUnlisted();
    } else {
      UnlistedKept(ar, env, maxInstructions, maxStack, ir, k - 1);
      var before := RunPrefix(ar, env, maxInstructions, maxStack, ir, k - 1);
      if before.Ok? {
        StepWritesOnly(ar, env, maxInstructions, maxStack, k - 1, ir[k - 1], before.value, UsesAt(ir, k - 1));
      }
    }
  }

  lemma StartIsUnlisted()
    ensures KeepsUnlisted(START.core, Uses({}, {}, {}))
  {
  }

  // ----- operands and traces -----

  /** An operand is valid exactly when the machine, given the cells and the inputs, does not stumble over it; without a use for one, exactly when there is none. */
  lemma OperandsAreExact(ar: Arithmetic, env: Environment, ins: Instruction, c: Core)
    requires InRange(c) && Pops(ins.op) <= |c.stack| && env.Keys == set name | name in INPUTS
    ensures if ins.op in {PushConst, LoadInput, LoadLocal, StoreLocal}
            then ValidOperand(ins) <==> Perform(ar, env, ins, c) != Err(BadOperand)
            else ValidOperand(ins) <==> ins.arg == NoArg
  {
    if ins.op == StoreLocal {
      StoreOperands(ins, c);
    } else if ins.op in {PushConst, LoadInput, LoadLocal} {
      SourceOperands(ar, env, ins, c);
    }
  }

  lemma StoreOperands(ins: Instruction, c: Core)
    requires InRange(c) && Pops(ins.op) <= |c.stack| && ins.op == StoreLocal
    ensures ValidOperand(ins) <==> Store(ins, c) != Err(BadOperand)
  {
  }

  lemma SourceOperands(ar: Arithmetic, env: Environment, ins: Instruction, c: Core)
    requires InRange(c) && ins.op in {PushConst, LoadInput, LoadLocal} && env.Keys == set name | name in INPUTS
    ensures ValidOperand(ins) <==> Source(ar, env, ins, c) != Err(BadOperand)
  {
    hide FloatConvertible;
  }

  /** The top of the stack after instruction j, if there is one. */
  ghost predicate ShowsTop(entry: TraceEntry, after: Result<Machine, Fault>) {
    after.Ok? && (entry.Executed? ==>
      var stack := after.value.core.stack;
      entry.top == if stack == [] then None else Some(stack[|stack| - 1]))
  }

  /** Every entry of the trace shows the top cell the machine had after that instruction. */
  lemma {:induction false} TraceShowsTops(ar: Arithmetic, env: Environment, maxInstructions: int, maxStack: int, ir: seq<Instruction>, k: nat)
    requires k <= |ir| && RunPrefix(ar, env, maxInstructions, maxStack, ir, k).Ok?
    ensures var trace := RunPrefix(ar, env, maxInstructions, maxStack, ir, k).value.trace;
            |trace| == k && forall j :: 0 <= j < k ==> ShowsTop(trace[j], RunPrefix(ar, env, maxInstructions, maxStack, ir, j + 1))
  {
    hide Step, ShowsTop;
    if k > 0 {
      TraceShowsTops(ar, env, maxInstructions, maxStack, ir, k - 1);
      StepShowsTop(ar, env, maxInstructions, maxStack, k - 1, ir[k - 1], RunPrefix(ar, env, maxInstructions, maxStack, ir, k - 1).value);
    }
  }

  lemma StepShowsTop(ar: Arithmetic, env: Environment, maxInstructions: int, maxStack: int, index: nat, ins: Instruction, m: Machine)
    ensures var r := Step(ar, env, maxInstructions, maxStack, index, ins, m);
            r.Ok? ==> |r.value.trace| == |m.trace| + 1 && r.value.trace[..|m.trace|] == m.trace && ShowsTop(r.value.trace[|m.trace|], r)
  {
    hide Perform;
  }

  // ----- code after HALT -----

  lemma {:induction false} SamePrefixSameRun(ar: Arithmetic, env: Environment, maxInstructions: int, maxStack: int,
                                             a: seq<Instruction>, b: seq<Instruction>, k: nat)
    requires k <= |a| && k <= |b| && a[..k] == b[..k]
    ensures RunPrefix(ar, env, maxInstructions, maxStack, a, k) == RunPrefix(ar, env, maxInstructions, maxStack, b, k)
  {
    hide Step;
    if k > 0 {
      assert a[k - 1] == a[..k][k - 1] == b[k - 1];
      assert a[..k - 1] == a[..k][..k - 1] == b[..k - 1];
      SamePrefixSameRun(ar, env, maxInstructions, maxStack, a, b, k - 1);
    }
  }

  lemma {:induction false} SamePrefixSameFault(a: seq<Instruction>, b: seq<Instruction>, k: nat, live: nat, maxStack: int)
    requires k <= live <= |a| && live <= |b| && a[..live] == b[..live]
    ensures FirstFault(a, k, live, maxStack) == FirstFault(b, k, live, maxStack)
    decreases live - k
  {
    hide ValidOperand, StackEffect, DepthAt, PeakAt;
    if k < live {
      assert a[k] == a[..live][k] == b[k];
      SamePrefix(a, b, k, live);
      SamePrefix(a, b, k + 1, live);
      PrefixDetermines(a, b, k);
      PrefixDetermines(a, b, k + 1);
      SamePrefixSameFault(a, b, k + 1, live, maxStack);
    }
  }

  lemma SamePrefix(a: seq<Instruction>, b: seq<Instruction>, k: nat, live: nat)
    requires k <= live <= |a| && live <= |b| && a[..live] == b[..live]
    ensures a[..k] == b[..k]
  {
    assert a[..k] == a[..live][..k] == b[..k];
  }

  /** Whatever follows the first HALT, within the instruction limit, changes nothing. */
  lemma CodeAfterHaltIsInert(ar: Arithmetic, ir: seq<Instruction>, tail: seq<Instruction>, inputs: map<string, InputValue>,
                             maxInstructions: int, maxStack: int)
    requires HasHalt(ir) && |ir| <= maxInstructions && LiveLength(ir) + |tail| <= maxInstructions
    ensures Run(ar, ir[..LiveLength(ir)] + tail, inputs, maxInstructions, maxStack) == Run(ar, ir, inputs, maxInstructions, maxStack)
  {
    hide RunPrefix, Normalize, FirstFault, DepthAt, PeakAt, UsesAt, LiveFrom, UnreachableFrom;
    var live := LiveLength(ir);
    LiveFromIsFirstHalt(ir, 0);
    var other := ir[..live] + tail;
    assert other[..live] == ir[..live];
    LivePrefixUnique(other, live);
    PrefixDetermines(other, ir, live);
    SamePrefixSameFault(other, ir, 0, live, maxStack);
    forall env: Environment
      ensures RunPrefix(ar, env, maxInstructions, maxStack, other, live) == RunPrefix(ar, env, maxInstructions, maxStack, ir, live)
    {
      SamePrefixSameRun(ar, env, maxInstructions, maxStack, other, ir, live);
    }
  }
}
