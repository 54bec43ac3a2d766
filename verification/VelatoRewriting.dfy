/**
 Replacing a piece of a program. If two pieces do the same to every state the analyzer lets them meet, and
 the new one asks for no more than the old one, then in any accepted program the one can stand for the
 other: the program is still accepted, and no input tells the two apart by outputs or failure.
 */
module VelatoRewriting {
  import opened Outcomes
  import opened VelatoIr
  import opened VelatoAnalyzer
  import opened VelatoMachine
  import opened VelatoSafety
  import opened VelatoLibrary

  // ----- what a piece of code does -----

  function Do(ar: Arithmetic, env: Environment, code: seq<Instruction>, c: Core): Result<Core, Fault> {
    if code == [] then Ok(c)
    else
      match Do(ar, env, code[..|code| - 1], c)
      case Ok(d) => Perform(ar, env, code[|code| - 1], d)
      case Err(e) => Err(e)
  }

  function Then(ar: Arithmetic, env: Environment, r: Result<Core, Fault>, code: seq<Instruction>): Result<Core, Fault> {
    match r
    case Ok(c) => Do(ar, env, code, c)
    case Err(e) => Err(e)
  }

  lemma {:induction false} DoConcat(ar: Arithmetic, env: Environment, a: seq<Instruction>, b: seq<Instruction>, c: Core)
    ensures Do(ar, env, a + b, c) == Then(ar, env, Do(ar, env, a, c), b)
    decreases |b|
  {
    hide Perform;
    if b == [] {
      assert a + b == a;
    } else {
      assert (a + b)[..|a + b| - 1] == a + b[..|b| - 1];
      DoConcat(ar, env, a, b[..|b| - 1], c);
    }
  }

  // ----- the live code of a program -----

  predicate NoHalt(code: seq<Instruction>) {
    forall k :: 0 <= k < |code| ==> code[k].op != Halt
  }

  /** The instructions before the first HALT. */
  function Body(ir: seq<Instruction>): (r: seq<Instruction>)
    ensures NoHalt(r) && |r| <= |ir| && r == ir[..|r|]
    ensures LiveLength(ir) == if |r| == |ir| then |r| else |r| + 1
    ensures |r| < |ir| ==> ir[|r|].op == Halt
  {
    LiveFromIsFirstHalt(ir, 0);
    var n := LiveLength(ir);
    if n > 0 && ir[n - 1].op == Halt then ir[..n - 1] else ir[..n]
  }

  /** A piece without HALT in front only shifts the live code. */
  lemma BodyAppends(a: seq<Instruction>, b: seq<Instruction>)
    requires NoHalt(a)
    ensures Body(a + b) == a + Body(b) && LiveLength(a + b) == |a| + LiveLength(b)
  {
    hide LiveLength;
    var n := |Body(b)|;
    var ir := a + b;
    assert forall k :: 0 <= k < |a| + n ==> ir[k] == if k < |a| then a[k] else b[k - |a|];
    assert n < |b| ==> ir[|a| + n].op == Halt;
    assert |Body(ir)| == |a| + n;
    assert ir[..|a| + n] == a + b[..n];
  }

  // ----- acceptance, piece by piece -----

  /** Instruction k of a piece that starts at depth d. */
  predicate SafeIn(code: seq<Instruction>, k: nat, d: int, maxStack: int)
    requires k < |code|
  {
    && ValidOperand(code[k]) && Pops(code[k].op) <= d + DepthAt(code, k) && 0 <= d + DepthAt(code, k + 1) <= maxStack
  }

  lemma {:induction false} DepthAppends(a: seq<Instruction>, b: seq<Instruction>, k: nat)
    requires k <= |b|
    ensures DepthAt(a + b, |a|) == DepthAt(a, |a|)
    ensures DepthAt(a + b, |a| + k) == DepthAt(a, |a|) + DepthAt(b, k)
  {
    hide StackEffect;
    if k == 0 {
      assert (a + b)[..|a|] == a[..|a|];
      PrefixDetermines(a + b, a, |a|);
    } else {
      DepthAppends(a, b, k - 1);
    }
  }

  lemma SafeAppends(a: seq<Instruction>, b: seq<Instruction>, k: nat, d: int, maxStack: int)
    requires k < |b|
    ensures SafeIn(a + b, |a| + k, d, maxStack) <==> SafeIn(b, k, d + DepthAt(a, |a|), maxStack)
  {
    hide StackEffect, ValidOperand, DepthAt;
    DepthAppends(a, b, k);
    DepthAppends(a, b, k + 1);
  }

  lemma SafeStays(a: seq<Instruction>, b: seq<Instruction>, k: nat, d: int, maxStack: int)
    requires k < |a|
    ensures SafeIn(a + b, k, d, maxStack) <==> SafeIn(a, k, d, maxStack)
  {
    hide StackEffect, ValidOperand, DepthAt;
    assert (a + b)[..k] == a[..k] && (a + b)[..k + 1] == a[..k + 1] && (a + b)[k] == a[k];
    PrefixDetermines(a + b, a, k);
    PrefixDetermines(a + b, a, k + 1);
  }

  predicate AllSafe(code: seq<Instruction>, n: nat, d: int, maxStack: int)
    requires n <= |code|
  {
    forall k :: 0 <= k < n ==> SafeIn(code, k, d, maxStack)
  }

  lemma AllSafeAppends(a: seq<Instruction>, b: seq<Instruction>, n: nat, d: int, maxStack: int)
    requires n <= |b|
    ensures AllSafe(a + b, |a| + n, d, maxStack) <==>
            AllSafe(a, |a|, d, maxStack) && AllSafe(b, n, d + DepthAt(a, |a|), maxStack)
  {
    hide SafeIn, DepthAt;
    var e := d + DepthAt(a, |a|);
    forall k | 0 <= k < |a|
      ensures SafeIn(a + b, k, d, maxStack) <==> SafeIn(a, k, d, maxStack)
    {
      SafeStays(a, b, k, d, maxStack);
    }
    forall k | |a| <= k < |a| + n
      ensures SafeIn(a + b, k, d, maxStack) <==> SafeIn(b, k - |a|, e, maxStack)
    {
      SafeAppends(a, b, k - |a|, d, maxStack);
    }
    if AllSafe(a + b, |a| + n, d, maxStack) {
      forall k | 0 <= k < n
        ensures SafeIn(b, k, e, maxStack)
      {
        var at := |a| + k;
        assert SafeIn(a + b, at, d, maxStack);
        assert k == at - |a|;
      }
    }
  }

  /** The analyzer accepts a program if and only if it fits and every live instruction is safe from depth zero. */
  lemma AcceptedIsSafe(ir: seq<Instruction>, maxInstructions: int, maxStack: int)
    requires 0 <= maxStack
    ensures Accepted(ir, maxInstructions, maxStack) <==> 0 < |ir| <= maxInstructions && AllSafe(ir, LiveLength(ir), 0, maxStack)
  {
    hide ValidOperand, StackEffect, LiveLength, Analyze, AnalysisOf;
    if Accepted(ir, maxInstructions, maxStack) {
      AnalyzeAcceptsExactly(ir, maxInstructions, maxStack);
      forall k | 0 <= k < LiveLength(ir)
        ensures SafeIn(ir, k, 0, maxStack)
      {
        assert SafeAt(ir, k, maxStack);
      }
    }
    if 0 < |ir| <= maxInstructions && AllSafe(ir, LiveLength(ir), 0, maxStack) {
      forall k | 0 <= k < LiveLength(ir)
        ensures FaultAt(ir, k, maxStack) == None
      {
        SafeHasNoFault(ir, k, maxStack);
      }
    }
  }

  lemma SafeHasNoFault(ir: seq<Instruction>, k: nat, maxStack: int)
    requires k < LiveLength(ir) && 0 <= maxStack && AllSafe(ir, LiveLength(ir), 0, maxStack)
    ensures FaultAt(ir, k, maxStack) == None
  {
    hide ValidOperand, StackEffect, LiveLength, DepthAt, PeakAt;
    PeakIsLargestDepth(ir, k + 1);
    assert SafeIn(ir, k, 0, maxStack);
    var j :| 0 <= j <= k + 1 && DepthAt(ir, j) == PeakAt(ir, k + 1);
    if j > 0 {
      assert SafeIn(ir, j - 1, 0, maxStack);
    } else {
      assert DepthAt(ir, 0) == 0 by { NoDepth(ir); }
    }
  }

  lemma NoDepth(ir: seq<Instruction>)
    ensures DepthAt(ir, 0) == 0
  {
  }

  // ----- the run of an accepted program is what its body does -----

  datatype Outputs = Outputs(alertScore: int, severityCode: int, routingCode: int, suppressed: bool)

  /** What a caller sees of a run besides its length and trace: the outputs, or why it failed. */
  function Visible(r: Result<PolicyResult, Fault>): Result<Outputs, Fault> {
    match r
    case Ok(p) => Ok(Outputs(p.alertScore, p.severityCode, p.routingCode, p.suppressed))
    case Err(e) => Err(e)
  }

  function OutputsOf(r: Result<Core, Fault>): Result<Outputs, Fault> {
    match r
    case Ok(c) => Ok(Outputs(c.score, c.severity, c.route, c.suppressed))
    case Err(e) => Err(e)
  }

  function CoreOf(r: Result<Machine, Fault>): Result<Core, Fault> {
    match r
    case Ok(m) => Ok(m.core)
    case Err(e) => Err(e)
  }

  lemma {:induction false} PrefixDoes(ar: Arithmetic, env: Environment, maxInstructions: int, maxStack: int, ir: seq<Instruction>, k: nat)
    requires Accepted(ir, maxInstructions, maxStack) && KnowsInputs(env) && k <= |Body(ir)|
    ensures CoreOf(RunPrefix(ar, env, maxInstructions, maxStack, ir, k)) == Do(ar, env, ir[..k], START.core)
  {
    hide Perform, Body, LiveLength, KnowsInputs, FaultAt;
    if k > 0 {
      PrefixDoes(ar, env, maxInstructions, maxStack, ir, k - 1);
      assert ir[..k][..k - 1] == ir[..k - 1];
      DepthsAreExact(ar, env, maxInstructions, maxStack, ir, k);
    }
  }

  lemma RunDoesBody(ar: Arithmetic, ir: seq<Instruction>, inputs: map<string, InputValue>, maxInstructions: int, maxStack: int)
    requires Accepted(ir, maxInstructions, maxStack) && TotalAndFinite(inputs)
    ensures var env := Normalize(inputs, INPUTS, |INPUTS|);
            && env.Ok? && KnowsInputs(env.value)
            && Visible(Run(ar, ir, inputs, maxInstructions, maxStack)) == OutputsOf(Do(ar, env.value, Body(ir), START.core))
  {
    hide Perform, Do, Accepted, KnowsInputs, Normalize, Analyze, AnalysisOf;
    NormalizedKnowsInputs(inputs);
    AnalyzeAcceptsExactly(ir, maxInstructions, maxStack);
    var env := Normalize(inputs, INPUTS, |INPUTS|).value;
    var n := |Body(ir)|;
    PrefixDoes(ar, env, maxInstructions, maxStack, ir, n);
    if n < |ir| {
      assert Accepted(ir, maxInstructions, maxStack) && |ir| <= maxInstructions by { AcceptedFits(ir, maxInstructions, maxStack); }
      HaltKeepsCore(ar, env, maxInstructions, maxStack, ir, n);
    }
  }

  lemma AcceptedFits(ir: seq<Instruction>, maxInstructions: int, maxStack: int)
    requires Accepted(ir, maxInstructions, maxStack)
    ensures |ir| <= maxInstructions
  {
  }

  lemma HaltKeepsCore(ar: Arithmetic, env: Environment, maxInstructions: int, maxStack: int, ir: seq<Instruction>, n: nat)
    requires n < |ir| <= maxInstructions && ir[n].op == Halt
    ensures CoreOf(RunPrefix(ar, env, maxInstructions, maxStack, ir, n + 1)) == CoreOf(RunPrefix(ar, env, maxInstructions, maxStack, ir, n))
  {
    hide Perform;
  }

  /** Inputs that are missing or not finite fail alike for all accepted programs. */
  lemma BadInputsFailAlike(ar: Arithmetic, p: seq<Instruction>, q: seq<Instruction>, inputs: map<string, InputValue>, maxInstructions: int, maxStack: int)
    requires Accepted(p, maxInstructions, maxStack) && Accepted(q, maxInstructions, maxStack) && !TotalAndFinite(inputs)
    ensures Visible(Run(ar, p, inputs, maxInstructions, maxStack)) == Visible(Run(ar, q, inputs, maxInstructions, maxStack))
  {
    hide Accepted, Analyze, RunPrefix;
    AnalyzeAcceptsExactly(p, maxInstructions, maxStack);
    AnalyzeAcceptsExactly(q, maxInstructions, maxStack);
    NormalizeAll(inputs, INPUTS, |INPUTS|);
    assert INPUTS[..|INPUTS|] == INPUTS;
  }

  // ----- pieces that can stand for one another -----

  /** `before` and `after` do the same, or fail alike, in every state with at least `need` cells. */
  ghost predicate Alike(ar: Arithmetic, before: seq<Instruction>, after: seq<Instruction>, need: nat) {
    forall env, c | KnowsInputs(env) && InRange(c) && |c.stack| >= need :: Do(ar, env, before, c) == Do(ar, env, after, c)
  }

  /** The old piece needs those cells itself; the new one is no longer, has the same net effect, and stays between. */
  ghost predicate Lighter(before: seq<Instruction>, after: seq<Instruction>, need: nat) {
    && NoHalt(before) && NoHalt(after) && |after| <= |before| && DepthAt(after, |after|) == DepthAt(before, |before|)
    && (need == 0 || exists k :: 0 <= k < |before| && Pops(before[k].op) - DepthAt(before, k) >= need)
    && (forall k :: 0 <= k < |after| ==> ValidOperand(after[k]) && Pops(after[k].op) <= need + DepthAt(after, k))
    && (forall k :: 0 <= k <= |after| ==> 0 <= need + DepthAt(after, k) && DepthAt(after, k) <= PeakAt(before, |before|))
  }

  ghost predicate CanReplace(ar: Arithmetic, before: seq<Instruction>, after: seq<Instruction>, need: nat) {
    Alike(ar, before, after, need) && Lighter(before, after, need)
  }

  /** Where the old piece is safe, the new one is. */
  lemma LighterIsSafe(before: seq<Instruction>, after: seq<Instruction>, need: nat, d: nat, maxStack: int)
    requires Lighter(before, after, need) && AllSafe(before, |before|, d, maxStack) && d <= maxStack
    ensures need <= d && AllSafe(after, |after|, d, maxStack)
  {
    hide ValidOperand, StackEffect, DepthAt, PeakAt;
    if need > 0 {
      var k :| 0 <= k < |before| && Pops(before[k].op) - DepthAt(before, k) >= need;
      assert SafeIn(before, k, d, maxStack);
    }
    PeakIsLargestDepth(before, |before|);
    var j :| 0 <= j <= |before| && DepthAt(before, j) == PeakAt(before, |before|);
    if j > 0 {
      assert SafeIn(before, j - 1, d, maxStack);
    } else {
      NoDepth(before);
    }
    assert d + PeakAt(before, |before|) <= maxStack;
  }

  lemma ReplacedIsSafe(a: seq<Instruction>, before: seq<Instruction>, after: seq<Instruction>, b: seq<Instruction>, need: nat, maxStack: int)
    requires Lighter(before, after, need) && NoHalt(a) && 0 <= maxStack
    requires AllSafe(a + (before + b), |a| + |before| + LiveLength(b), 0, maxStack)
    ensures DepthAt(a, |a|) >= need
    ensures AllSafe(a + (after + b), |a| + |after| + LiveLength(b), 0, maxStack)
  {
    hide SafeIn, DepthAt, AllSafe, Lighter, LiveLength, NoHalt;
    var n, d := LiveLength(b), DepthAt(a, |a|);
    AllSafeAppends(a, before + b, |before| + n, 0, maxStack);
    assert 0 + d == d;
    assert AllSafe(before + b, |before| + n, d, maxStack) && AllSafe(a, |a|, 0, maxStack);
    AllSafeAppends(before, b, n, d, maxStack);
    EndsInBounds(a, maxStack);
    LighterIsSafe(before, after, need, d, maxStack);
    SameNet(before, after, need);
    AllSafeAppends(after, b, n, d, maxStack);
    assert AllSafe(after + b, |after| + n, d, maxStack);
    AllSafeAppends(a, after + b, |after| + n, 0, maxStack);
  }

  lemma EndsInBounds(a: seq<Instruction>, maxStack: int)
    requires AllSafe(a, |a|, 0, maxStack) && 0 <= maxStack
    ensures 0 <= DepthAt(a, |a|) <= maxStack
  {
    hide StackEffect, ValidOperand;
    if a != [] {
      assert SafeIn(a, |a| - 1, 0, maxStack);
    }
  }

  lemma SameNet(before: seq<Instruction>, after: seq<Instruction>, need: nat)
    requires Lighter(before, after, need)
    ensures DepthAt(after, |after|) == DepthAt(before, |before|) && NoHalt(before) && NoHalt(after) && |after| <= |before|
  {
  }

  lemma AcceptsSomething(ir: seq<Instruction>, maxInstructions: int, maxStack: int)
    requires Accepted(ir, maxInstructions, maxStack)
    ensures 0 <= maxStack
  {
    LiveFromIsFirstHalt(ir, 0);
    assert FaultAt(ir, 0, maxStack) == None;
  }

  /** The replacement in live code. */
  lemma LiveReplacement(ar: Arithmetic, a: seq<Instruction>, before: seq<Instruction>, after: seq<Instruction>, b: seq<Instruction>, need: nat,
                        inputs: map<string, InputValue>, maxInstructions: int, maxStack: int)
    requires CanReplace(ar, before, after, need) && NoHalt(a) && a + (after + b) != []
    requires Accepted(a + (before + b), maxInstructions, maxStack)
    ensures Accepted(a + (after + b), maxInstructions, maxStack)
    ensures Visible(Run(ar, a + (after + b), inputs, maxInstructions, maxStack)) ==
            Visible(Run(ar, a + (before + b), inputs, maxInstructions, maxStack))
  {
    hide Accepted, Run, Do, LiveLength, AllSafe, Alike, Lighter, Visible, TotalAndFinite;
    var p, q := a + (before + b), a + (after + b);
    SameNet(before, after, need);
    AcceptsSomething(p, maxInstructions, maxStack);
    AcceptedIsSafe(p, maxInstructions, maxStack);
    AcceptedIsSafe(q, maxInstructions, maxStack);
    BodyAppends(before, b);
    BodyAppends(after, b);
    BodyAppends(a, before + b);
    BodyAppends(a, after + b);
    ReplacedIsSafe(a, before, after, b, need, maxStack);
    if TotalAndFinite(inputs) {
      RunDoesBody(ar, p, inputs, maxInstructions, maxStack);
      RunDoesBody(ar, q, inputs, maxInstructions, maxStack);
      var env := Normalize(inputs, INPUTS, |INPUTS|).value;
      BodiesDoAlike(ar, env, a, before, after, b, need, maxInstructions, maxStack);
    } else {
      BadInputsFailAlike(ar, p, q, inputs, maxInstructions, maxStack);
    }
  }

  lemma BodiesDoAlike(ar: Arithmetic, env: Environment, a: seq<Instruction>, before: seq<Instruction>, after: seq<Instruction>, b: seq<Instruction>,
                      need: nat, maxInstructions: int, maxStack: int)
    requires Alike(ar, before, after, need) && NoHalt(a) && NoHalt(before) && KnowsInputs(env) && DepthAt(a, |a|) >= need
    requires Accepted(a + (before + b), maxInstructions, maxStack)
    ensures Do(ar, env, a + (before + Body(b)), START.core) == Do(ar, env, a + (after + Body(b)), START.core)
  {
    hide Accepted, Do, LiveLength, KnowsInputs, DepthAt;
    var p := a + (before + b);
    var c := Do(ar, env, a, START.core);
    DoConcat(ar, env, a, before + Body(b), START.core);
    DoConcat(ar, env, a, after + Body(b), START.core);
    if c.Ok? {
      BodyAppends(before, b);
      BodyAppends(a, before + b);
      PrefixDoes(ar, env, maxInstructions, maxStack, p, |a|);
      DepthsAreExact(ar, env, maxInstructions, maxStack, p, |a|);
      DepthAppends(a, before + b, 0);
      assert p[..|a|] == a;
      DoConcat(ar, env, before, Body(b), c.value);
      DoConcat(ar, env, after, Body(b), c.value);
      assert Do(ar, env, before, c.value) == Do(ar, env, after, c.value);
    }
  }

  /** The replacement in code that a HALT in front keeps from running. */
  lemma DeadReplacement(ar: Arithmetic, a: seq<Instruction>, x: seq<Instruction>, y: seq<Instruction>,
                        inputs: map<string, InputValue>, maxInstructions: int, maxStack: int)
    requires !NoHalt(a) && |y| <= |x| && Accepted(a + x, maxInstructions, maxStack)
    ensures Accepted(a + y, maxInstructions, maxStack)
    ensures Visible(Run(ar, a + y, inputs, maxInstructions, maxStack)) == Visible(Run(ar, a + x, inputs, maxInstructions, maxStack))
  {
    hide Run, FaultAt;
    var p, q := a + x, a + y;
    var live := LiveLength(a);
    LiveFromIsFirstHalt(a, 0);
    LivePrefixUnique(p, live);
    LivePrefixUnique(q, live);
    assert p[..live] == a[..live] == q[..live];
    forall k | 0 <= k < live
      ensures FaultAt(q, k, maxStack) == FaultAt(p, k, maxStack)
    {
      SamePrefixSameFaultAt(p, q, k, live, maxStack);
    }
    assert p[live - 1].op == Halt;
    CodeAfterHaltIsInert(ar, p, q[live..], inputs, maxInstructions, maxStack);
    assert p[..live] + q[live..] == q;
  }

  lemma SamePrefixSameFaultAt(p: seq<Instruction>, q: seq<Instruction>, k: nat, live: nat, maxStack: int)
    requires k < live <= |p| && live <= |q| && p[..live] == q[..live]
    ensures FaultAt(q, k, maxStack) == FaultAt(p, k, maxStack)
  {
    hide ValidOperand, StackEffect;
    assert p[k] == p[..live][k] == q[k];
    assert p[..k] == p[..live][..k] == q[..k] && p[..k + 1] == p[..live][..k + 1] == q[..k + 1];
    PrefixDetermines(p, q, k);
    PrefixDetermines(p, q, k + 1);
  }

  /**
   Contextual equivalence: in any program the analyzer accepts, whatever stands around it, a piece can be
   replaced by one that can stand for it. The program stays accepted, unless nothing is left of it, and for
   all inputs the outputs or the failure are the same.
   */
  lemma ReplacementIsInvisible(ar: Arithmetic, a: seq<Instruction>, before: seq<Instruction>, after: seq<Instruction>, b: seq<Instruction>, need: nat,
                               inputs: map<string, InputValue>, maxInstructions: int, maxStack: int)
    requires CanReplace(ar, before, after, need) && Analyze(a + before + b, maxInstructions, maxStack).Ok?
    ensures Analyze(a + after + b, maxInstructions, maxStack).Ok? <==> a + after + b != []
    ensures a + after + b != [] ==>
              Visible(Run(ar, a + after + b, inputs, maxInstructions, maxStack)) ==
              Visible(Run(ar, a + before + b, inputs, maxInstructions, maxStack))
  {
    hide Run, FirstFault, AnalysisOf, Accepted, Alike, Lighter, NoHalt;
    var p, q := a + before + b, a + after + b;
    assert p == a + (before + b) && q == a + (after + b);
    AnalyzeAcceptsExactly(p, maxInstructions, maxStack);
    AnalyzeAcceptsExactly(q, maxInstructions, maxStack);
    if q != [] {
      if NoHalt(a) {
        LiveReplacement(ar, a, before, after, b, need, inputs, maxInstructions, maxStack);
      } else {
        SameNet(before, after, need);
        DeadReplacement(ar, a, before + b, after + b, inputs, maxInstructions, maxStack);
      }
    }
  }
}
