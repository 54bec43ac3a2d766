/**
 The static analyzer. `Analyze` says declaratively what an analysis is (the first offending
 instruction before HALT, or the depths and sets of the live prefix); the method `AnalyzeIr`
 is the one-pass loop, proved to compute exactly that.
 */
module VelatoAnalyzer {
  import opened Outcomes
  import opened VelatoIr

  datatype Warning = Unreachable(index: nat) | NoExplicitHalt | MissingOutputs(outputs: set<Output>)

  datatype Analysis = Analysis(
    instructionCount: nat, maxStackDepth: nat, finalStackDepth: int, uses: Uses, warnings: seq<Warning>)

  // ----- the live prefix: everything up to and including the first HALT -----

  function LiveFrom(ir: seq<Instruction>, k: nat): (n: nat)
    requires k <= |ir|
    ensures k <= n <= |ir|
    decreases |ir| - k
  {
    if k == |ir| then k else if ir[k].op == Halt then k + 1 else LiveFrom(ir, k + 1)
  }

  function LiveLength(ir: seq<Instruction>): (n: nat)
    ensures n <= |ir|
  {
    LiveFrom(ir, 0)
  }

  predicate HasHalt(ir: seq<Instruction>) {
    exists k :: 0 <= k < |ir| && ir[k].op == Halt
  }

  /** The live prefix is the unique prefix whose only HALT, if any, is its last instruction. */
  lemma {:induction false} LiveFromIsFirstHalt(ir: seq<Instruction>, k: nat)
    requires k <= |ir|
    ensures var n := LiveFrom(ir, k);
            && (forall j :: k <= j < n - 1 ==> ir[j].op != Halt)
            && (n < |ir| ==> n > k && ir[n - 1].op == Halt)
            && (n > k && ir[n - 1].op != Halt ==> n == |ir|)
    decreases |ir| - k
  {
    if k < |ir| && ir[k].op != Halt {
      LiveFromIsFirstHalt(ir, k + 1);
    }
  }

  // ----- depths and sets along the live prefix -----

  function DepthAt(ir: seq<Instruction>, k: nat): int
    requires k <= |ir|
  {
    if k == 0 then 0 else DepthAt(ir, k - 1) - Pops(ir[k - 1].op) + Pushes(ir[k - 1].op)
  }

  function PeakAt(ir: seq<Instruction>, k: nat): nat
    requires k <= |ir|
  {
    if k == 0 then 0
    else
      var before := PeakAt(ir, k - 1);
      var depth := DepthAt(ir, k);
      if depth > before then depth else before
  }

  /** The peak is the largest depth reached, and it is reached. */
  lemma {:induction false} PeakIsLargestDepth(ir: seq<Instruction>, k: nat)
    requires k <= |ir|
    ensures forall j :: 0 <= j <= k ==> DepthAt(ir, j) <= PeakAt(ir, k)
    ensures exists j :: 0 <= j <= k && DepthAt(ir, j) == PeakAt(ir, k)
  {
    if k == 0 {
      assert DepthAt(ir, 0) == 0;
    } else {
      PeakIsLargestDepth(ir, k - 1);
      assert PeakAt(ir, k) == PeakAt(ir, k - 1) || PeakAt(ir, k) == DepthAt(ir, k);
    }
  }

  /** The registers a stretch of code names and the outputs it writes. */
  datatype Uses = Uses(inputs: set<string>, locals: set<int>, outputs: set<Output>) {
    function Plus(ins: Instruction): Uses {
      Uses(inputs + ReadBy(ins), locals + TouchedBy(ins), outputs + WrittenBy(ins.op))
    }
  }

  function UsesAt(ir: seq<Instruction>, k: nat): Uses
    requires k <= |ir|
  {
    if k == 0 then Uses({}, {}, {}) else UsesAt(ir, k - 1).Plus(ir[k - 1])
  }

  ghost predicate LoadsInput(ir: seq<Instruction>, k: nat, name: string)
    requires k <= |ir|
  {
    exists j :: 0 <= j < k && ir[j] == Instruction(LoadInput, TextArg(name))
  }

  ghost predicate NamesRegister(ir: seq<Instruction>, k: nat, i: int)
    requires k <= |ir|
  {
    exists j :: 0 <= j < k && ir[j].op in {LoadLocal, StoreLocal} && ir[j].arg == IntArg(i)
  }

  ghost predicate StoresOutput(ir: seq<Instruction>, k: nat, o: Output)
    requires k <= |ir|
  {
    exists j :: 0 <= j < k && ir[j].op == (match o
                                           case AlertScore => StoreScore
                                           case SeverityCode => StoreSeverity
                                           case RoutingCode => StoreRoute
                                           case Suppressed => StoreSuppress)
  }

  /** The inputs listed are those some instruction loads, the registers those one names, the outputs those one stores. */
  lemma {:induction false} UsesAreExactly(ir: seq<Instruction>, k: nat, name: string, i: int, o: Output)
    requires k <= |ir|
    ensures name in UsesAt(ir, k).inputs <==> LoadsInput(ir, k, name)
    ensures i in UsesAt(ir, k).locals <==> NamesRegister(ir, k, i)
    ensures o in UsesAt(ir, k).outputs <==> StoresOutput(ir, k, o)
  {
    hide ReadBy, TouchedBy, WrittenBy, LoadsInput, NamesRegister, StoresOutput;
    if k == 0 {
      NothingUsed(ir, name, i, o);
    } else {
      UsesAreExactly(ir, k - 1, name, i, o);
      UsesNext(ir, k - 1, name, i, o);
    }
  }

  lemma NothingUsed(ir: seq<Instruction>, name: string, i: int, o: Output)
    ensures !LoadsInput(ir, 0, name) && !NamesRegister(ir, 0, i) && !StoresOutput(ir, 0, o)
  {
  }

  lemma UsesNext(ir: seq<Instruction>, k: nat, name: string, i: int, o: Output)
    requires k < |ir|
    ensures LoadsInput(ir, k + 1, name) <==> LoadsInput(ir, k, name) || name in ReadBy(ir[k])
    ensures NamesRegister(ir, k + 1, i) <==> NamesRegister(ir, k, i) || i in TouchedBy(ir[k])
    ensures StoresOutput(ir, k + 1, o) <==> StoresOutput(ir, k, o) || o in WrittenBy(ir[k].op)
  {
    StoresNext(ir, k, o);
    hide StoresOutput, WrittenBy;
  }

  lemma StoresNext(ir: seq<Instruction>, k: nat, o: Output)
    requires k < |ir|
    ensures StoresOutput(ir, k + 1, o) <==> StoresOutput(ir, k, o) || o in WrittenBy(ir[k].op)
  {
  }

  function UnreachableFrom(live: nat, n: nat): seq<Warning> {
    if n == 0 then [] else UnreachableFrom(live, n - 1) + [Unreachable(live + n - 1)]
  }

  function WarningsOf(ir: seq<Instruction>): seq<Warning> {
    var live := LiveLength(ir);
    var unreachable := UnreachableFrom(live, |ir| - live);
    var halting := if live > 0 && ir[live - 1].op == Halt then unreachable else unreachable + [NoExplicitHalt];
    var missing := ALL_OUTPUTS - UsesAt(ir, live).outputs;
    if missing == {} then halting else halting + [MissingOutputs(missing)]
  }

  lemma {:induction false} UnreachableAre(live: nat, n: nat)
    ensures |UnreachableFrom(live, n)| == n
    ensures forall k :: 0 <= k < n ==> UnreachableFrom(live, n)[k] == Unreachable(live + k)
  {
    if n > 0 {
      UnreachableAre(live, n - 1);
    }
  }

  /**
   The warnings: one for every instruction behind the first HALT, in order, then one if there is no HALT,
   then one naming exactly the outputs no live instruction stores, if there are any.
   */
  lemma WarningsAre(ir: seq<Instruction>) returns (missing: set<Output>)
    ensures var live := LiveLength(ir);
            var warnings := WarningsOf(ir);
            var dead := |ir| - live;
            && dead <= |warnings| && (forall k :: 0 <= k < dead ==> warnings[k] == Unreachable(live + k))
            && warnings[dead..] == (if HasHalt(ir) then [] else [NoExplicitHalt]) + (if missing == {} then [] else [MissingOutputs(missing)])
            && forall o: Output :: o in missing <==> !StoresOutput(ir, live, o)
  {
    hide UsesAt, StoresOutput;
    var live := LiveLength(ir);
    missing := ALL_OUTPUTS - UsesAt(ir, live).outputs;
    UnreachableAre(live, |ir| - live);
    HaltIsLast(ir);
    forall o: Output
      ensures o in missing <==> !StoresOutput(ir, live, o)
    {
      UsesAreExactly(ir, live, "", 0, o);
      EveryOutput(o);
    }
  }

  lemma EveryOutput(o: Output)
    ensures o in ALL_OUTPUTS
  {
    match o {
      case AlertScore =>
      case SeverityCode =>
      case RoutingCode =>
      case Suppressed =>
    }
  }

  lemma HaltIsLast(ir: seq<Instruction>)
    ensures HasHalt(ir) <==> LiveLength(ir) > 0 && ir[LiveLength(ir) - 1].op == Halt
  {
    hide LiveLength;
    LiveEnds(ir);
  }

  // ----- acceptance -----

  /** What is wrong with instruction k, checked in the order the loop checks. */
  function FaultAt(ir: seq<Instruction>, k: nat, maxStack: int): Option<Fault>
    requires k < |ir|
  {
    if !ValidOperand(ir[k]) then Some(BadOperand)
    else if DepthAt(ir, k) < Pops(ir[k].op) then Some(StaticUnderflow(k))
    else if PeakAt(ir, k + 1) > maxStack then Some(StackLimit)
    else None
  }

  function FirstFault(ir: seq<Instruction>, k: nat, live: nat, maxStack: int): Option<Fault>
    requires k <= live <= |ir|
    decreases live - k
  {
    if k == live then None
    else
      var fault := FaultAt(ir, k, maxStack);
      if fault.Some? then fault else FirstFault(ir, k + 1, live, maxStack)
  }

  predicate Accepted(ir: seq<Instruction>, maxInstructions: int, maxStack: int) {
    && 0 < |ir| <= maxInstructions
    && forall k :: 0 <= k < LiveLength(ir) ==> FaultAt(ir, k, maxStack) == None
  }

  function AnalysisOf(ir: seq<Instruction>): Analysis {
    var live := LiveLength(ir);
    Analysis(live, PeakAt(ir, live), DepthAt(ir, live), UsesAt(ir, live), WarningsOf(ir))
  }

  function Analyze(ir: seq<Instruction>, maxInstructions: int, maxStack: int): Result<Analysis, Fault> {
    if ir == [] then Err(EmptyProgram)
    else if |ir| > maxInstructions then Err(InstructionLimit)
    else
      match FirstFault(ir, 0, LiveLength(ir), maxStack)
      case Some(fault) => Err(fault)
      case None => Ok(AnalysisOf(ir))
  }

  lemma {:induction false} FirstFaultIsFirst(ir: seq<Instruction>, k: nat, live: nat, maxStack: int)
    requires k <= live <= |ir|
    ensures FirstFault(ir, k, live, maxStack) == None <==>
            forall j :: k <= j < live ==> FaultAt(ir, j, maxStack) == None
    ensures FirstFault(ir, k, live, maxStack).Some? ==>
              exists j :: k <= j < live && FirstFault(ir, k, live, maxStack) == FaultAt(ir, j, maxStack)
    decreases live - k
  {
    if k < live && FaultAt(ir, k, maxStack) == None {
      FirstFaultIsFirst(ir, k + 1, live, maxStack);
    }
  }

  /** Instruction k has a good operand, enough cells below it, and stays within the stack limit. */
  predicate SafeAt(ir: seq<Instruction>, k: nat, maxStack: int)
    requires k < |ir|
  {
    && ValidOperand(ir[k])
    && Pops(ir[k].op) <= DepthAt(ir, k)
    && 0 <= DepthAt(ir, k) - Pops(ir[k].op) + Pushes(ir[k].op) <= maxStack
  }

  /** Analysis succeeds exactly on accepted programs, and what it accepts satisfies every static bound. */
  lemma AnalyzeAcceptsExactly(ir: seq<Instruction>, maxInstructions: int, maxStack: int)
    ensures Analyze(ir, maxInstructions, maxStack).Ok? <==> Accepted(ir, maxInstructions, maxStack)
    ensures Accepted(ir, maxInstructions, maxStack) ==>
              Analyze(ir, maxInstructions, maxStack) == Ok(AnalysisOf(ir))
    ensures Accepted(ir, maxInstructions, maxStack) ==>
              forall k :: 0 <= k < LiveLength(ir) ==> SafeAt(ir, k, maxStack)
  {
    FirstFaultIsFirst(ir, 0, LiveLength(ir), maxStack);
    if Accepted(ir, maxInstructions, maxStack) {
      forall k | 0 <= k < LiveLength(ir)
        ensures SafeAt(ir, k, maxStack)
      {
        assert FaultAt(ir, k, maxStack) == None;
        assert PeakAt(ir, k + 1) >= DepthAt(ir, k + 1);
      }
    }
  }

  // ----- the loop -----

  /** The local variables of the analyzer loop. */
  datatype Scan = Scan(depth: int, maxDepth: nat, uses: Uses, executed: nat, halted: bool, warnings: seq<Warning>)

  /** One turn of the loop, with its checks in order. */
  function Observe(scan: Scan, index: nat, ins: Instruction, maxStack: int): Result<Scan, Fault> {
    if scan.halted then
      Ok(scan.(warnings := scan.warnings + [Unreachable(index)]))
    else if !ValidOperand(ins) then
      Err(BadOperand)
    else if scan.depth < Pops(ins.op) then
      Err(StaticUnderflow(index))
    else
      var depth := scan.depth - Pops(ins.op) + Pushes(ins.op);
      var maxDepth := if depth > scan.maxDepth then depth else scan.maxDepth;
      if maxDepth > maxStack then Err(StackLimit)
      else Ok(Scan(depth, maxDepth, scan.uses.Plus(ins), scan.executed + 1, ins.op == Halt, scan.warnings))
  }

  /** What the loop variables must hold before instruction k. */
  ghost function ScanBefore(ir: seq<Instruction>, k: nat): Scan
    requires k <= |ir|
  {
    var live := LiveLength(ir);
    var e := if k < live then k else live;
    Scan(DepthAt(ir, e), PeakAt(ir, e), UsesAt(ir, e), e, e > 0 && ir[e - 1].op == Halt,
         UnreachableFrom(live, k - e))
  }

  lemma ObserveLive(ir: seq<Instruction>, k: nat, warnings: seq<Warning>, maxStack: int)
    requires k < |ir|
    ensures Observe(Scan(DepthAt(ir, k), PeakAt(ir, k), UsesAt(ir, k), k, false, warnings), k, ir[k], maxStack) ==
            if FaultAt(ir, k, maxStack).Some? then Err(FaultAt(ir, k, maxStack).value)
            else Ok(Scan(DepthAt(ir, k + 1), PeakAt(ir, k + 1), UsesAt(ir, k + 1), k + 1, ir[k].op == Halt, warnings))
  {
    hide StackEffect, ValidOperand, ReadBy, TouchedBy, WrittenBy;
    var ins := ir[k];
    assert DepthAt(ir, k + 1) == DepthAt(ir, k) - Pops(ins.op) + Pushes(ins.op);
    assert UsesAt(ir, k + 1) == UsesAt(ir, k).Plus(ins);
  }

  lemma LiveEnds(ir: seq<Instruction>)
    ensures var live := LiveLength(ir);
            && (forall k :: 0 <= k < live - 1 ==> ir[k].op != Halt)
            && (live < |ir| ==> live > 0 && ir[live - 1].op == Halt)
  {
    LiveFromIsFirstHalt(ir, 0);
  }

  /** While the code is live the loop holds the figures of the prefix, and from there on only the warnings grow. */
  lemma ScansAre(ir: seq<Instruction>, k: nat)
    requires k <= |ir|
    ensures var live := LiveLength(ir);
            if k <= live then
              ScanBefore(ir, k) == Scan(DepthAt(ir, k), PeakAt(ir, k), UsesAt(ir, k), k, k > 0 && ir[k - 1].op == Halt, [])
            else
              ScanBefore(ir, k) == ScanBefore(ir, live).(warnings := UnreachableFrom(live, k - live))
  {
    hide DepthAt, PeakAt, UsesAt, LiveLength;
  }

  lemma ObserveAdvances(ir: seq<Instruction>, k: nat, maxStack: int)
    requires k < |ir|
    ensures Observe(ScanBefore(ir, k), k, ir[k], maxStack) ==
            if k < LiveLength(ir) && FaultAt(ir, k, maxStack).Some? then Err(FaultAt(ir, k, maxStack).value)
            else Ok(ScanBefore(ir, k + 1))
  {
    hide Observe, FaultAt, DepthAt, PeakAt, UsesAt, LiveLength, ScanBefore;
    LiveEnds(ir);
    ScansAre(ir, k);
    ScansAre(ir, k + 1);
    if k < LiveLength(ir) {
      ObserveLive(ir, k, [], maxStack);
    } else {
      ScansAre(ir, LiveLength(ir));
      ObserveUnreachable(ScanBefore(ir, k), k, ir[k], maxStack);
    }
  }

  lemma ObserveUnreachable(scan: Scan, index: nat, ins: Instruction, maxStack: int)
    requires scan.halted
    ensures Observe(scan, index, ins, maxStack) == Ok(scan.(warnings := scan.warnings + [Unreachable(index)]))
  {
  }

  /** The analyzer loop. */
  method AnalyzeIr(ir: seq<Instruction>, maxInstructions: int, maxStack: int) returns (r: Result<Analysis, Fault>)
    ensures r == Analyze(ir, maxInstructions, maxStack)
  {
    hide StackEffect, ValidOperand, ReadBy, TouchedBy, WrittenBy, Observe;
    if ir == [] {
      return Err(EmptyProgram);
    }
    if |ir| > maxInstructions {
      return Err(InstructionLimit);
    }
    var scan := Scan(0, 0, Uses({}, {}, {}), 0, false, []);
    ghost var live := LiveLength(ir);
    for index := 0 to |ir|
      invariant scan == ScanBefore(ir, index)
      invariant FirstFault(ir, 0, live, maxStack) == FirstFault(ir, scan.executed, live, maxStack)
    {
      ObserveAdvances(ir, index, maxStack);
      var next := Observe(scan, index, ir[index], maxStack);
      if next.Err? {
        return Err(next.error);
      }
      scan := next.value;
    }
    LiveFromIsFirstHalt(ir, 0);
    var warnings := scan.warnings;
    if !scan.halted {
      warnings := warnings + [NoExplicitHalt];
    }
    var missing := ALL_OUTPUTS - scan.uses.outputs;
    if missing != {} {
      warnings := warnings + [MissingOutputs(missing)];
    }
    r := Ok(Analysis(scan.executed, scan.maxDepth, scan.depth, scan.uses, warnings));
  }

  // ----- what depends only on the live prefix -----

  lemma {:induction false} PrefixDetermines(a: seq<Instruction>, b: seq<Instruction>, k: nat)
    requires k <= |a| && k <= |b| && a[..k] == b[..k]
    ensures DepthAt(a, k) == DepthAt(b, k) && PeakAt(a, k) == PeakAt(b, k)
    ensures UsesAt(a, k) == UsesAt(b, k)
  {
    if k > 0 {
      assert a[k - 1] == a[..k][k - 1] == b[k - 1];
      assert a[..k - 1] == a[..k][..k - 1] == b[..k - 1];
      PrefixDetermines(a, b, k - 1);
    }
  }

  /** If b starts with a's live prefix and that prefix ends in HALT, the live prefixes agree. */
  lemma LivePrefixUnique(a: seq<Instruction>, n: nat)
    requires 0 < n <= |a|
    requires forall j :: 0 <= j < n - 1 ==> a[j].op != Halt
    requires a[n - 1].op == Halt || n == |a|
    ensures LiveLength(a) == n
  {
    LiveFromIsFirstHalt(a, 0);
  }
}
