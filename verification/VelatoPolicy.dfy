/**
 The standard alert policy: a complete generated program for any number of weighted terms. The
 generated code is shown to denote its specification through the real analyzer and interpreter.
 */
module VelatoPolicy {
  import opened Outcomes
  import opened VelatoIr
  import opened VelatoAnalyzer
  import opened VelatoMachine
  import opened VelatoSafety
  import opened VelatoLibrary
  import opened VelatoNotes
  import opened VelatoRoundTrip

  // ----- the builder -----

  /** `build`: seal, analyze, and optionally insist on all four outputs. */
  function Built(code: seq<Instruction>, requireOutputs: bool): Result<seq<Instruction>, Fault> {
    var analysis :- Analyze(Seal(code), DEFAULT_MAX_INSTRUCTIONS, DEFAULT_MAX_STACK);
    var missing := ALL_OUTPUTS - analysis.uses.outputs;
    if requireOutputs && missing != {} then Err(OutputsNotWritten(missing)) else Ok(Seal(code))
  }

  class PolicyBuilder {
    var instructions: seq<Instruction>

    constructor ()
      ensures instructions == []
    {
      instructions := [];
    }

    method Emit(op: Op, arg: Arg)
      modifies this
      ensures instructions == old(instructions) + [Instruction(op, arg)]
    {
      instructions := instructions + [Instruction(op, arg)];
    }

    method Extend(code: seq<Instruction>)
      modifies this
      ensures instructions == old(instructions) + code
    {
      instructions := instructions + code;
    }

    /** Rescaling the top of the stack from [lower, upper] to [0, 1]. */
    method Normalize(lower: real, upper: real, clamp: bool) returns (r: Result<(), Fault>)
      modifies this
      ensures r == if lower < upper then Ok(()) else Err(UnorderedThresholds)
      ensures instructions == old(instructions) + (if lower < upper then NormalizeCode(lower, upper, clamp) else [])
    {
      if lower >= upper {
        assert instructions + [] == instructions;
        return Err(UnorderedThresholds);
      }
      ghost var before := instructions;
      Emit(PushConst, FloatArg(lower));
      Emit(Sub, NoArg);
      Emit(PushConst, FloatArg(upper - lower));
      Emit(Div, NoArg);
      assert instructions == before + RescaleCode(lower, upper);
      if clamp {
        Emit(PushConst, IntArg(0));
        Emit(PushConst, IntArg(1));
        Emit(Clamp, NoArg);
        assert instructions == before + (RescaleCode(lower, upper) + Clamp01Code());
      }
      r := Ok(());
    }

    method Build(requireOutputs: bool) returns (r: Result<seq<Instruction>, Fault>)
      ensures r == Built(instructions, requireOutputs)
    {
      var ir := instructions;
      if ir == [] || ir[|ir| - 1].op != Halt {
        ir := ir + [HALT];
      }
      var analysis := AnalyzeIr(ir, DEFAULT_MAX_INSTRUCTIONS, DEFAULT_MAX_STACK);
      if analysis.Err? {
        return Err(analysis.error);
      }
      var missing := ALL_OUTPUTS - analysis.value.uses.outputs;
      if requireOutputs && missing != {} {
        return Err(OutputsNotWritten(missing));
      }
      r := Ok(ir);
    }
  }

  function RescaleCode(lower: real, upper: real): seq<Instruction> {
    [Instruction(PushConst, FloatArg(lower))] + [Instruction(Sub, NoArg)] +
    [Instruction(PushConst, FloatArg(upper - lower))] + [Instruction(Div, NoArg)]
  }

  function Clamp01Code(): seq<Instruction> {
    [Instruction(PushConst, IntArg(0))] + [Instruction(PushConst, IntArg(1))] + [Instruction(Clamp, NoArg)]
  }

  function NormalizeCode(lower: real, upper: real, clamp: bool): seq<Instruction> {
    if clamp then RescaleCode(lower, upper) + Clamp01Code() else RescaleCode(lower, upper)
  }

  lemma RescaleRuns(ar: Arithmetic, env: Environment, lower: real, upper: real, s: seq<real>, x: real, c: Core)
    requires Exact(ar) && lower < upper && c.stack == s + [x]
    ensures Does(ar, env, RescaleCode(lower, upper), c, c.(stack := s + [(x - lower) / (upper - lower)]), 1)
  {
    hide Exec, Does, BinaryValue;
    var w := upper - lower;
    var c1, c2 := c.(stack := s + [x] + [lower]), c.(stack := s + [x - lower]);
    var c3, c4 := c.(stack := s + [x - lower] + [w]), c.(stack := s + [(x - lower) / w]);
    var i1, i2 := [Instruction(PushConst, FloatArg(lower))], [Instruction(Sub, NoArg)];
    var i3, i4 := [Instruction(PushConst, FloatArg(w))], [Instruction(Div, NoArg)];
    PushesConstant(ar, env, FloatArg(lower), lower, c);
    ExactValues(ar, x, lower);
    Combine(ar, env, Sub, s, x, lower, c1);
    PushesConstant(ar, env, FloatArg(w), w, c2);
    Divide(ar, env, s, x - lower, w, c3);
    DoesBoth(ar, env, i1, i2, c, c1, c2, 1, 0);
    DoesBoth(ar, env, i1 + i2, i3, c, c2, c3, 1, 1);
    DoesBoth(ar, env, i1 + i2 + i3, i4, c, c3, c4, 1, 0);
  }

  /** With clamping, normalisation lands in [0, 1] and is linear inside the interval. */
  lemma NormalizeRuns(ar: Arithmetic, env: Environment, lower: real, upper: real, s: seq<real>, x: real, c: Core) returns (y: real)
    requires Exact(ar) && lower < upper && c.stack == s + [x]
    ensures Does(ar, env, NormalizeCode(lower, upper, true), c, c.(stack := s + [y]), 2)
    ensures 0.0 <= y <= 1.0
    ensures x <= lower ==> y == 0.0
    ensures x >= upper ==> y == 1.0
    ensures lower <= x <= upper ==> y * (upper - lower) == x - lower
  {
    hide Exec, Does;
    var q := (x - lower) / (upper - lower);
    y := Greater(0.0, Lesser(1.0, q));
    var c1, c2 := c.(stack := s + [q]), c.(stack := s + [q] + [0.0]);
    var c3, c4 := c.(stack := s + [q] + [0.0] + [1.0]), c.(stack := s + [y]);
    var i1, i2, i3 := [Instruction(PushConst, IntArg(0))], [Instruction(PushConst, IntArg(1))], [Instruction(Clamp, NoArg)];
    RescaleRuns(ar, env, lower, upper, s, x, c);
    PushesConstant(ar, env, IntArg(0), 0.0, c1);
    PushesConstant(ar, env, IntArg(1), 1.0, c2);
    ChooseClamped(ar, env, s, q, 0.0, 1.0, c3);
    DoesBoth(ar, env, i1, i2, c1, c2, c3, 1, 1);
    DoesBoth(ar, env, i1 + i2, i3, c1, c3, c4, 2, 0);
    DoesBoth(ar, env, RescaleCode(lower, upper), Clamp01Code(), c, c1, c4, 1, 2);
    QuotientInUnit(x - lower, upper - lower, q);
  }

  lemma QuotientInUnit(a: real, w: real, q: real)
    requires w > 0.0 && q == a / w
    ensures q * w == a
    ensures (a <= 0.0 ==> q <= 0.0) && (a >= w ==> q >= 1.0) && (0.0 <= a <= w ==> 0.0 <= q <= 1.0)
  {
    ProductSign(q, w);
    var above := q - 1.0;
    ProductSign(above, w);
    assert above * w == q * w - 1.0 * w;
    assert above * w == a - w;
  }

  // ----- weighted terms, through the builder -----

  /** `weighted_sum`: load, weigh, multiply, and from the second term on add. */
  method EmitWeightedSum(terms: seq<Term>) returns (r: Result<seq<Instruction>, Fault>)
    ensures r == WeightedSum(terms)
  {
    if terms == [] {
      return Err(NoTerms);
    }
    var builder := new PolicyBuilder();
    for index := 0 to |terms|
      invariant fresh(builder) && builder.instructions == SumCode(terms[..index])
    {
      assert terms[..index + 1][..index] == terms[..index];
      ghost var before := builder.instructions;
      builder.Emit(LoadInput, TextArg(terms[index].0));
      builder.Emit(PushConst, FloatArg(terms[index].1));
      builder.Emit(Mul, NoArg);
      assert builder.instructions == before + TermCode(terms[index]);
      if index > 0 {
        builder.Emit(Add, NoArg);
      }
    }
    assert terms[..|terms|] == terms;
    r := Ok(builder.instructions);
  }

  /** `weighted_average`: the total is summed first, and a zero total refused. */
  method EmitWeightedAverage(terms: seq<Term>) returns (r: Result<seq<Instruction>, Fault>)
    ensures r == WeightedAverage(terms)
  {
    var total := 0.0;
    for index := 0 to |terms|
      invariant total == TotalWeight(terms[..index])
    {
      assert terms[..index + 1][..index] == terms[..index];
      total := total + terms[index].1;
    }
    assert terms[..|terms|] == terms;
    if terms == [] {
      return Err(NoTerms);
    }
    if total == 0.0 {
      return Err(ZeroTotalWeight);
    }
    var sum := EmitWeightedSum(terms);
    r := Ok(sum.value + [Instruction(PushConst, FloatArg(total))] + [Instruction(Div, NoArg)]);
  }

  // ----- the standard policy -----

  function PolicyCode(terms: seq<Term>, scale: real, below: real, route: int): seq<Instruction>
    requires WeightedAverage(terms).Ok?
  {
    WeightedAverage(terms).value + TailCode(scale, below, route)
  }

  /** Everything behind the average. */
  function TailCode(scale: real, below: real, route: int): seq<Instruction> {
    ScaleCode(scale) + ScoreCode() + SeverityCode() + SuppressCode(below) + RouteCode(route)
  }

  function ScaleCode(scale: real): seq<Instruction> {
    [Instruction(PushConst, FloatArg(scale))] + [Instruction(Mul, NoArg)]
  }

  function ScoreCode(): seq<Instruction> {
    [Instruction(Dup, NoArg)] + [Instruction(StoreScore, NoArg)]
  }

  function SeverityCode(): seq<Instruction> {
    [Instruction(Dup, NoArg)] + BandsCode(DEFAULT_BANDS) + [Instruction(StoreSeverity, NoArg)]
  }

  function SuppressCode(below: real): seq<Instruction> {
    [Instruction(Dup, NoArg)] + [Instruction(PushConst, FloatArg(below))] + [Instruction(Lt, NoArg)] +
    [Instruction(StoreSuppress, NoArg)]
  }

  function RouteCode(route: int): seq<Instruction> {
    [Instruction(Drop, NoArg)] + [Instruction(PushConst, IntArg(route))] + [Instruction(StoreRoute, NoArg)]
  }

  function StandardPolicy(terms: seq<Term>, scale: real, below: real, route: int): Result<seq<Instruction>, Fault> {
    if scale <= 0.0 then Err(NonPositiveScale)
    else
      var average :- WeightedAverage(terms);
      Built(PolicyCode(terms, scale, below, route) + [HALT], true)
  }

  /** The part of `standard_alert_policy` that scales, scores and bands. */
  method EmitScores(builder: PolicyBuilder, scale: real)
    modifies builder
    ensures builder.instructions == old(builder.instructions) + ScaleCode(scale) + ScoreCode() + SeverityCode()
  {
    hide BandsCode;
    ghost var i1 := builder.instructions;
    builder.Emit(PushConst, FloatArg(scale));
    builder.Emit(Mul, NoArg);
    ghost var i2 := builder.instructions;
    assert i2 == i1 + ScaleCode(scale);
    builder.Emit(Dup, NoArg);
    builder.Emit(StoreScore, NoArg);
    ghost var i3 := builder.instructions;
    assert i3 == i2 + ScoreCode();
    builder.Emit(Dup, NoArg);
    builder.Extend(BandsCode(DEFAULT_BANDS));
    builder.Emit(StoreSeverity, NoArg);
    assert builder.instructions == i3 + SeverityCode();
  }

  /** The part of `standard_alert_policy` that tests for suppression, routes and halts. */
  method EmitDecisions(builder: PolicyBuilder, below: real, route: int)
    modifies builder
    ensures builder.instructions == old(builder.instructions) + SuppressCode(below) + RouteCode(route) + [HALT]
  {
    ghost var i1 := builder.instructions;
    builder.Emit(Dup, NoArg);
    builder.Emit(PushConst, FloatArg(below));
    builder.Emit(Lt, NoArg);
    builder.Emit(StoreSuppress, NoArg);
    ghost var i2 := builder.instructions;
    assert i2 == i1 + SuppressCode(below);
    builder.Emit(Drop, NoArg);
    builder.Emit(PushConst, IntArg(route));
    builder.Emit(StoreRoute, NoArg);
    assert builder.instructions == i2 + RouteCode(route);
    builder.Emit(Halt, NoArg);
  }

  /** `standard_alert_policy`, through the builder. */
  method StandardAlertPolicy(terms: seq<Term>, scale: real, below: real, route: int)
    returns (r: Result<seq<Instruction>, Fault>)
    ensures r == StandardPolicy(terms, scale, below, route)
  {
    hide Built, WeightedAverage, ScaleCode, ScoreCode, SeverityCode, SuppressCode, RouteCode;
    if scale <= 0.0 {
      return Err(NonPositiveScale);
    }
    var average := EmitWeightedAverage(terms);
    if average.Err? {
      return Err(average.error);
    }
    var builder := new PolicyBuilder();
    builder.Extend(average.value);
    EmitScores(builder, scale);
    EmitDecisions(builder, below, route);
    assert builder.instructions == PolicyCode(terms, scale, below, route) + [HALT];
    r := builder.Build(true);
  }

  // ----- what the policy code computes -----

  /** The weighted average of the inputs, scaled: the number every output of the policy is about. */
  function ScaledAverage(env: Environment, terms: seq<Term>, scale: real): real
    requires TermsKnown(env, terms) && TotalWeight(terms) != 0.0
  {
    SumOf(env, terms) / TotalWeight(terms) * scale
  }

  /** The outputs the policy promises for a scaled average v. */
  function Promised(c: Core, v: real, below: real, route: int): Core {
    c.(stack := [],
       score := ClampInt(0, 100, RoundHalfEven(v)),
       severity := BandOf(DEFAULT_BANDS, v),
       route := ClampInt(0, 255, route),
       suppressed := v < below)
  }

  lemma ScaleAndScore(ar: Arithmetic, env: Environment, scale: real, average: real, c: Core)
    requires Exact(ar) && c.stack == [average]
    ensures var v := average * scale;
            Does(ar, env, ScaleCode(scale) + ScoreCode(), c,
                 c.(stack := [v], score := ClampInt(0, 100, RoundHalfEven(v))), 1)
  {
    hide Exec, Does, BinaryValue, RoundHalfEven, ClampInt;
    var v := average * scale;
    var c1, c2 := c.(stack := [average] + [scale]), c.(stack := [v]);
    var c3 := c.(stack := [v] + [v]);
    var c4 := c3.(stack := [v], score := ClampInt(0, 100, RoundHalfEven(v)));
    var i1, i2 := [Instruction(PushConst, FloatArg(scale))], [Instruction(Mul, NoArg)];
    var i3, i4 := [Instruction(Dup, NoArg)], [Instruction(StoreScore, NoArg)];
    assert [] + [average] + [scale] == [average] + [scale] && [] + [v] == [v];
    PushesConstant(ar, env, FloatArg(scale), scale, c);
    ExactValues(ar, average, scale);
    Combine(ar, env, Mul, [], average, scale, c1);
    Copies(ar, env, [], v, c2);
    Stored(ar, env, StoreScore, [v], v, c3);
    DoesBoth(ar, env, i1, i2, c, c1, c2, 1, 0);
    DoesBoth(ar, env, i3, i4, c2, c3, c4, 1, 0);
    DoesBoth(ar, env, i1 + i2, i3 + i4, c, c2, c4, 1, 1);
  }

  lemma SeverityRuns(ar: Arithmetic, env: Environment, v: real, c: Core)
    requires Exact(ar) && c.stack == [v]
    ensures Does(ar, env, SeverityCode(), c, c.(severity := BandOf(DEFAULT_BANDS, v)), 4)
  {
    hide Exec, Does, BandsCode, RoundHalfEven;
    var band := BandOf(DEFAULT_BANDS, v);
    var c1, c2 := c.(stack := [v] + [v]), c.(stack := [v] + [band as real]);
    var c3 := c.(severity := band);
    var i1, i2 := [Instruction(Dup, NoArg)], [Instruction(StoreSeverity, NoArg)];
    assert [] + [v] == [v];
    Copies(ar, env, [], v, c);
    BandsRun(ar, env, DEFAULT_BANDS, [v], v, c1);
    Stored(ar, env, StoreSeverity, [v], band as real, c2);
    IntegersRound(band);
    DoesBoth(ar, env, i1, BandsCode(DEFAULT_BANDS), c, c1, c2, 1, 3);
    DoesBoth(ar, env, i1 + BandsCode(DEFAULT_BANDS), i2, c, c2, c3, 4, 0);
  }

  lemma SuppressRuns(ar: Arithmetic, env: Environment, v: real, below: real, c: Core)
    requires c.stack == [v]
    ensures Does(ar, env, SuppressCode(below), c, c.(suppressed := v < below), 2)
  {
    hide Exec, Does, BinaryValue;
    var t := Truth(v < below);
    var c1, c2 := c.(stack := [v] + [v]), c.(stack := [v] + [v] + [below]);
    var c3, c4 := c.(stack := [v] + [t]), c.(suppressed := v < below);
    var i1, i2 := [Instruction(Dup, NoArg)], [Instruction(PushConst, FloatArg(below))];
    var i3, i4 := [Instruction(Lt, NoArg)], [Instruction(StoreSuppress, NoArg)];
    assert [] + [v] == [v];
    Copies(ar, env, [], v, c);
    PushesConstant(ar, env, FloatArg(below), below, c1);
    Compares(ar, v, below);
    Combine(ar, env, Lt, [v], v, below, c2);
    Stored(ar, env, StoreSuppress, [v], t, c3);
    DoesBoth(ar, env, i1, i2, c, c1, c2, 1, 1);
    DoesBoth(ar, env, i1 + i2, i3, c, c2, c3, 2, 0);
    DoesBoth(ar, env, i1 + i2 + i3, i4, c, c3, c4, 2, 0);
  }

  lemma RouteRuns(ar: Arithmetic, env: Environment, v: real, route: int, c: Core)
    requires Exact(ar) && FloatConvertible(route) && c.stack == [v]
    ensures Does(ar, env, RouteCode(route), c, c.(stack := [], route := ClampInt(0, 255, route)), 0)
  {
    hide Exec, Does, RoundHalfEven, ClampInt, FloatConvertible;
    var c1, c2 := c.(stack := []), c.(stack := [] + [route as real]);
    var c3 := c.(stack := [], route := ClampInt(0, 255, route));
    var i1, i2, i3 := [Instruction(Drop, NoArg)], [Instruction(PushConst, IntArg(route))], [Instruction(StoreRoute, NoArg)];
    assert [] + [v] == [v];
    Drops(ar, env, [], v, c);
    PushesConstant(ar, env, IntArg(route), route as real, c1);
    Stored(ar, env, StoreRoute, [], route as real, c2);
    IntegersRound(route);
    DoesBoth(ar, env, i1, i2, c, c1, c2, 0, 1);
    DoesBoth(ar, env, i1 + i2, i3, c, c2, c3, 0, 0);
  }

  /** The whole policy body, from the initial state: the promised outputs, an empty stack, a peak of five cells. */
  lemma PolicyCodeRuns(ar: Arithmetic, env: Environment, terms: seq<Term>, scale: real, below: real, route: int)
    requires Exact(ar) && WeightedAverage(terms).Ok? && TermsKnown(env, terms) && FloatConvertible(route)
    ensures var v := ScaledAverage(env, terms, scale);
            Does(ar, env, PolicyCode(terms, scale, below, route), START.core, Promised(START.core, v, below, route), 5)
  {
    hide Exec, Does, SumCode, RoundHalfEven, ClampInt, FloatConvertible, BandsCode;
    hide ScaleCode, ScoreCode, SeverityCode, SuppressCode, RouteCode;
    var average := SumOf(env, terms) / TotalWeight(terms);
    var v := ScaledAverage(env, terms, scale);
    assert v == average * scale;
    var c0 := START.core;
    var c1 := c0.(stack := [] + [average]);
    var c2 := c0.(stack := [v], score := ClampInt(0, 100, RoundHalfEven(v)));
    var c3 := c2.(severity := BandOf(DEFAULT_BANDS, v));
    var c4 := c3.(suppressed := v < below);
    var c5 := c4.(stack := [], route := ClampInt(0, 255, route));
    assert [] + [average] == [average];
    var a, rise := WeightedAverage(terms).value, if |terms| == 1 then 2 else 3;
    AverageRuns(ar, env, terms, c0);
    ScaleAndScore(ar, env, scale, average, c1);
    SeverityRuns(ar, env, v, c2);
    SuppressRuns(ar, env, v, below, c3);
    RouteRuns(ar, env, v, route, c4);
    var p, q := ScaleCode(scale) + ScoreCode(), SeverityCode();
    DoesBoth(ar, env, a, p, c0, c1, c2, rise, 1);
    DoesBoth(ar, env, a + p, q, c0, c2, c3, rise, 4);
    DoesBoth(ar, env, a + p + q, SuppressCode(below), c0, c3, c4, 5, 2);
    DoesBoth(ar, env, a + p + q + SuppressCode(below), RouteCode(route), c0, c4, c5, 5, 0);
    assert a + ScaleCode(scale) + ScoreCode() == a + p;
    assert PolicyCode(terms, scale, below, route) == a + p + q + SuppressCode(below) + RouteCode(route);
    assert c5 == Promised(c0, v, below, route);
  }

  // ----- from fragments to whole programs -----

  predicate Plain(ins: Instruction) {
    ValidOperand(ins) && ins.op != Halt
  }

  predicate AllPlain(code: seq<Instruction>) {
    forall k :: 0 <= k < |code| ==> Plain(code[k])
  }

  /** A successful operation had the cells it needed and changed the depth as declared. */
  lemma PerformNet(ar: Arithmetic, env: Environment, ins: Instruction, c: Core)
    requires Perform(ar, env, ins, c).Ok?
    ensures Pops(ins.op) <= |c.stack|
    ensures |Perform(ar, env, ins, c).value.stack| == |c.stack| - Pops(ins.op) + Pushes(ins.op)
  {
    hide RoundHalfEven, BinaryValue, Partial, Unary, Ternary, Source, Store;
    match ShapeOf(ins.op)
    case CombinesPartially => PartialNet(ar, ins.op, c.stack);
    case Maps => UnaryNet(ar, ins.op, c.stack);
    case Chooses => TernaryNet(ins.op, c.stack);
    case Stores => StoreNet(ins, c);
    case _ =>
  }

  lemma PartialNet(ar: Arithmetic, op: Op, s: seq<real>)
    requires Partial(ar, op, s).Ok?
    ensures |s| >= 2 && |Partial(ar, op, s).value| == |s| - 1
  {
  }

  lemma UnaryNet(ar: Arithmetic, op: Op, s: seq<real>)
    requires Unary(ar, op, s).Ok?
    ensures |s| >= 1 && |Unary(ar, op, s).value| == |s|
  {
    hide RoundHalfEven;
  }

  lemma PushNet(rest: seq<real>, v: Option<real>)
    ensures Push(rest, v).Ok? ==> |Push(rest, v).value| == |rest| + 1
  {
  }

  lemma TernaryNet(op: Op, s: seq<real>)
    requires Ternary(op, s).Ok?
    ensures |s| >= 3 && |Ternary(op, s).value| == |s| - 2
  {
    hide Push, Greater, Lesser, Truth;
    var (a, b, c, rest) := PopTernary(s).value;
    PushNet(rest, Some(Greater(b, Lesser(c, a))));
    PushNet(rest, Some(Truth(b <= a <= c)));
    PushNet(rest, Some(if a != 0.0 then b else c));
  }

  lemma StoreNet(ins: Instruction, c: Core)
    requires Store(ins, c).Ok?
    ensures |c.stack| >= 1 && |Store(ins, c).value.stack| == |c.stack| - 1
  {
    hide RoundHalfEven, ClampInt;
  }

  /** A fragment that runs from the initial state is statically safe, with the depths it really reached. */
  lemma {:induction false} ExecIsStatic(ar: Arithmetic, env: Environment, code: seq<Instruction>, ir: seq<Instruction>)
    requires Exec(ar, env, code, START.core).Ok? && AllPlain(code)
    requires |code| <= |ir| && ir[..|code|] == code
    ensures var o := Exec(ar, env, code, START.core).value;
            && DepthAt(ir, |code|) == |o.core.stack| && PeakAt(ir, |code|) == o.peak
            && forall k :: 0 <= k < |code| ==> FaultAt(ir, k, o.peak) == None
    decreases |code|
  {
    hide Perform, StackEffect, ValidOperand;
    if code != [] {
      var n := |code| - 1;
      var init := code[..n];
      assert ir[..n] == ir[..|code|][..n] == init;
      ExecIsStatic(ar, env, init, ir);
      var o := Exec(ar, env, init, START.core).value;
      PerformNet(ar, env, code[n], o.core);
      assert ir[n] == ir[..|code|][n] == code[n];
      assert Plain(code[n]);
      var peak := Exec(ar, env, code, START.core).value.peak;
      forall k | 0 <= k < |code|
        ensures FaultAt(ir, k, peak) == None
      {
        if k < n {
          assert FaultAt(ir, k, o.peak) == None;
        }
      }
    }
  }

  lemma {:induction false} ExecIsRun(ar: Arithmetic, env: Environment, code: seq<Instruction>, ir: seq<Instruction>,
                                     maxInstructions: int, maxStack: int)
    requires Exec(ar, env, code, START.core).Ok? && AllPlain(code)
    requires |code| <= |ir| <= maxInstructions && ir[..|code|] == code
    requires Exec(ar, env, code, START.core).value.peak <= maxStack
    ensures var m := RunPrefix(ar, env, maxInstructions, maxStack, ir, |code|);
            m.Ok? && m.value.core == Exec(ar, env, code, START.core).value.core
    decreases |code|
  {
    hide Perform, ValidOperand;
    if code != [] {
      var n := |code| - 1;
      assert ir[..n] == ir[..|code|][..n] == code[..n];
      ExecIsRun(ar, env, code[..n], ir, maxInstructions, maxStack);
      assert ir[n] == ir[..|code|][n] == code[n];
      assert Plain(code[n]);
    }
  }

  lemma HaltIsFaultFree(ir: seq<Instruction>, n: nat, peak: nat)
    requires n < |ir| && ir[n] == HALT && PeakAt(ir, n) == peak && 0 <= DepthAt(ir, n) <= peak
    ensures FaultAt(ir, n, peak) == None
    ensures PeakAt(ir, n + 1) == peak && DepthAt(ir, n + 1) == DepthAt(ir, n)
  {
  }

  /** Code that is fault-free within its own peak can only break a stack limit. */
  lemma WithinLimit(ir: seq<Instruction>, peak: int, limit: int)
    ensures forall k :: 0 <= k < |ir| && FaultAt(ir, k, peak) == None ==> FaultAt(ir, k, limit) in {None, Some(StackLimit)}
    ensures peak <= limit ==> forall k :: 0 <= k < |ir| && FaultAt(ir, k, peak) == None ==> FaultAt(ir, k, limit) == None
  {
    hide ValidOperand, StackEffect;
  }

  lemma HaltStep(ar: Arithmetic, env: Environment, ir: seq<Instruction>, n: nat, maxInstructions: int, maxStack: int)
    requires |ir| == n + 1 <= maxInstructions && ir[n] == HALT
    requires RunPrefix(ar, env, maxInstructions, maxStack, ir, n).Ok?
    ensures var m := RunPrefix(ar, env, maxInstructions, maxStack, ir, n + 1);
            m.Ok? && m.value.core == RunPrefix(ar, env, maxInstructions, maxStack, ir, n).value.core
  {
    hide Perform;
  }

  lemma ClosedIsAccepted(ar: Arithmetic, env: Environment, code: seq<Instruction>, maxInstructions: int, maxStack: int)
    requires Exec(ar, env, code, START.core).Ok? && AllPlain(code)
    ensures var o := Exec(ar, env, code, START.core).value;
            var ir := code + [HALT];
            && LiveLength(ir) == |ir| && PeakAt(ir, |ir|) == o.peak && DepthAt(ir, |ir|) == |o.core.stack|
            && (forall k :: 0 <= k < |ir| ==> FaultAt(ir, k, maxStack) in {None, Some(StackLimit)})
            && (Accepted(ir, maxInstructions, maxStack) <==> |ir| <= maxInstructions && o.peak <= maxStack)
  {
    hide Perform, ValidOperand, StackEffect, Exec, FaultAt;
    var o := Exec(ar, env, code, START.core).value;
    var ir := code + [HALT];
    assert ir[..|code|] == code;
    forall k | 0 <= k < |code|
      ensures ir[k].op != Halt
    {
      assert Plain(code[k]);
    }
    LivePrefixUnique(ir, |ir|);
    ExecIsStatic(ar, env, code, ir);
    ExecPeakAtLeastEnds(ar, env, code, START.core);
    HaltIsFaultFree(ir, |code|, o.peak);
    WithinLimit(ir, o.peak, maxStack);
    PeakDecides(ir, |code|, maxStack);
  }

  lemma PeakDecides(ir: seq<Instruction>, k: nat, maxStack: int)
    requires k < |ir|
    ensures FaultAt(ir, k, maxStack) == None ==> PeakAt(ir, k + 1) <= maxStack
  {
  }

  /** The analysis of a closed fragment: both limits, in the order in which they are checked. */
  lemma ClosedAnalysis(ar: Arithmetic, env: Environment, code: seq<Instruction>, maxInstructions: int, maxStack: int)
    requires Exec(ar, env, code, START.core).Ok? && AllPlain(code)
    ensures var analysis := Analyze(code + [HALT], maxInstructions, maxStack);
            if |code| + 1 > maxInstructions then analysis == Err(InstructionLimit)
            else if Exec(ar, env, code, START.core).value.peak > maxStack then analysis == Err(StackLimit)
            else analysis == Ok(AnalysisOf(code + [HALT]))
  {
    hide Exec, FaultAt, AnalysisOf;
    var ir := code + [HALT];
    ClosedIsAccepted(ar, env, code, maxInstructions, maxStack);
    AnalyzeAcceptsExactly(ir, maxInstructions, maxStack);
    FirstFaultIsFirst(ir, 0, |ir|, maxStack);
  }

  /** What a caller gets when the analysis passes and the fragment ends in o. */
  ghost predicate Returns(r: Result<PolicyResult, Fault>, o: Outcome, instructions: nat) {
    && r.Ok?
    && r.value.alertScore == o.core.score && r.value.severityCode == o.core.severity
    && r.value.routingCode == o.core.route && r.value.suppressed == o.core.suppressed
    && r.value.maxStackDepth == o.peak && r.value.instructionsExecuted == instructions
  }

  /**
   Running a plain fragment closed by HALT, under any limits: with too many instructions or too deep a stack
   it is refused, and otherwise it returns what the fragment computes.
   */
  lemma ClosedFragmentRuns(ar: Arithmetic, code: seq<Instruction>, inputs: map<string, InputValue>, maxInstructions: int, maxStack: int)
    requires TotalAndFinite(inputs) && AllPlain(code)
    requires var env := Normalize(inputs, INPUTS, |INPUTS|);
             env.Ok? && Exec(ar, env.value, code, START.core).Ok?
    ensures var o := Exec(ar, Normalize(inputs, INPUTS, |INPUTS|).value, code, START.core).value;
            var r := Run(ar, code + [HALT], inputs, maxInstructions, maxStack);
            if |code| + 1 > maxInstructions then r == Err(InstructionLimit)
            else if o.peak > maxStack then r == Err(StackLimit)
            else Returns(r, o, |code| + 1)
  {
    hide Exec, Normalize, Analyze, RunPrefix, TracedAs;
    var env := Normalize(inputs, INPUTS, |INPUTS|).value;
    var ir := code + [HALT];
    assert ir[..|code|] == code;
    ClosedAnalysis(ar, env, code, maxInstructions, maxStack);
    ClosedIsAccepted(ar, env, code, maxInstructions, maxStack);
    if |ir| <= maxInstructions && Exec(ar, env, code, START.core).value.peak <= maxStack {
      ExecIsRun(ar, env, code, ir, maxInstructions, maxStack);
      HaltStep(ar, env, ir, |code|, maxInstructions, maxStack);
      AnalyzerIsSound(ar, ir, inputs, maxInstructions, maxStack);
    }
  }

  // ----- the policy code is plain, has 4n + 35 instructions, and writes every output -----

  predicate TermsNamed(terms: seq<Term>) {
    forall k :: 0 <= k < |terms| ==> terms[k].0 in INPUTS
  }

  lemma {:induction false} SumIsPlain(terms: seq<Term>)
    requires TermsNamed(terms)
    ensures AllPlain(SumCode(terms)) && |SumCode(terms)| == if terms == [] then 0 else 4 * |terms| - 1
    decreases |terms|
  {
    hide Plain, TermCode;
    if terms != [] {
      SumIsPlain(terms[..|terms| - 1]);
      TermIsPlain(terms[|terms| - 1]);
    }
  }

  lemma TermIsPlain(term: Term)
    requires term.0 in INPUTS
    ensures AllPlain(TermCode(term)) && |TermCode(term)| == 3 && Plain(Instruction(Add, NoArg))
  {
  }

  lemma TailIsPlain(scale: real, below: real, route: int)
    requires FloatConvertible(route)
    ensures var tail := TailCode(scale, below, route);
            AllPlain(tail) && |tail| == 34
  {
    hide FloatConvertible, BandsCode;
    BandsArePlain();
    assert AllPlain(SeverityCode());
    assert AllPlain(SuppressCode(below)) && AllPlain(RouteCode(route));
  }

  lemma BandsArePlain()
    ensures AllPlain(BandsCode(DEFAULT_BANDS)) && |BandsCode(DEFAULT_BANDS)| == 21
  {
    hide BandCode;
    BandIsPlain(40.0, 1);
    BandIsPlain(65.0, 1);
    BandIsPlain(85.0, 1);
  }

  lemma BandIsPlain(threshold: real, step: int)
    requires FloatConvertible(step)
    ensures AllPlain(BandCode(threshold, step)) && |BandCode(threshold, step)| == 6
  {
    hide FloatConvertible;
  }

  lemma {:induction false} WritesAccumulate(ir: seq<Instruction>, j: nat, k: nat)
    requires j < k <= |ir|
    ensures WrittenBy(ir[j].op) <= UsesAt(ir, k).outputs
  {
    hide ReadBy, TouchedBy, WrittenBy;
    if j < k - 1 {
      WritesAccumulate(ir, j, k - 1);
    }
  }

  lemma PolicyIsPlain(terms: seq<Term>, scale: real, below: real, route: int)
    requires WeightedAverage(terms).Ok? && TermsNamed(terms) && FloatConvertible(route)
    ensures var code := PolicyCode(terms, scale, below, route);
            AllPlain(code) && |code| == 4 * |terms| + 35
  {
    hide FloatConvertible, SumCode, TotalWeight, ScaleCode, ScoreCode, SeverityCode, SuppressCode, RouteCode, StackEffect;
    SumIsPlain(terms);
    TailIsPlain(scale, below, route);
    StoresInTail(scale, below, route);
  }

  lemma PolicyShape(terms: seq<Term>, scale: real, below: real, route: int)
    requires WeightedAverage(terms).Ok? && TermsNamed(terms) && FloatConvertible(route)
    ensures var code := PolicyCode(terms, scale, below, route);
            AllPlain(code) && |code| == 4 * |terms| + 35
    ensures var ir := PolicyCode(terms, scale, below, route) + [HALT];
            ALL_OUTPUTS <= UsesAt(ir, |ir|).outputs
  {
    PolicyIsPlain(terms, scale, below, route);
    hide FloatConvertible, WeightedAverage, TailCode, AllPlain, UsesAt;
    StoresInTail(scale, below, route);
    TailWritesAll(WeightedAverage(terms).value, TailCode(scale, below, route));
  }

  predicate StoresAll(tail: seq<Instruction>) {
    && |tail| == 34 && tail[3].op == StoreScore && tail[26].op == StoreSeverity
    && tail[30].op == StoreSuppress && tail[33].op == StoreRoute
  }

  lemma TailWritesAll(a: seq<Instruction>, tail: seq<Instruction>)
    requires StoresAll(tail)
    ensures ALL_OUTPUTS <= UsesAt(a + tail + [HALT], |a| + 35).outputs
  {
    hide UsesAt;
    var ir := a + tail + [HALT];
    WritesAccumulate(ir, |a| + 3, |ir|);
    WritesAccumulate(ir, |a| + 26, |ir|);
    WritesAccumulate(ir, |a| + 30, |ir|);
    WritesAccumulate(ir, |a| + 33, |ir|);
  }

  lemma StoresInTail(scale: real, below: real, route: int)
    ensures StoresAll(TailCode(scale, below, route))
  {
    hide BandsCode;
    BandsArePlain();
  }

  // ----- the theorem -----

  /** With known names, a non-zero total weight and a convertible route, the closed code is accepted exactly when 4n + 36 <= 512. */
  lemma GoodCodeBuilds(terms: seq<Term>, scale: real, below: real, route: int)
    requires WeightedAverage(terms).Ok? && TermsNamed(terms) && FloatConvertible(route)
    ensures var ir := PolicyCode(terms, scale, below, route) + [HALT];
            && |ir| == 4 * |terms| + 36 && LiveLength(ir) == |ir|
            && (Accepted(ir, DEFAULT_MAX_INSTRUCTIONS, DEFAULT_MAX_STACK) <==> 4 * |terms| + 36 <= 512)
            && (forall k :: 0 <= k < |ir| ==> FaultAt(ir, k, DEFAULT_MAX_STACK) == None)
            && Built(ir, true) == (if 4 * |terms| + 36 <= 512 then Ok(ir) else Err(InstructionLimit))
            && DepthAt(ir, |ir|) == 0
  {
    hide FloatConvertible, Perform, ScaleCode, ScoreCode, SeverityCode, SuppressCode, RouteCode, SumCode, FaultAt, StackEffect, WrittenBy, ReadBy, TouchedBy;
    ExactArithmeticExists();
    var ar :| Exact(ar);
    var env: Environment := map name | name in INPUTS :: 0.0;
    NamedAreKnown(env, terms);
    var code := PolicyCode(terms, scale, below, route);
    var ir := code + [HALT];
    PolicyShape(terms, scale, below, route);
    PolicyCodeRuns(ar, env, terms, scale, below, route);
    ClosedIsAccepted(ar, env, code, DEFAULT_MAX_INSTRUCTIONS, DEFAULT_MAX_STACK);
    ClosedIsAccepted(ar, env, code, |ir|, DEFAULT_MAX_STACK);
    AnalyzeAcceptsExactly(ir, DEFAULT_MAX_INSTRUCTIONS, DEFAULT_MAX_STACK);
    assert Seal(ir) == ir;
  }

  // ----- unknown names and routes -----

  /** The terms with every unknown name replaced by a known one. */
  function Known(terms: seq<Term>): (r: seq<Term>)
    ensures |r| == |terms|
    ensures forall k :: 0 <= k < |r| ==> r[k] == (if terms[k].0 in INPUTS then terms[k].0 else INPUTS[0], terms[k].1)
  {
    seq(|terms|, k requires 0 <= k < |terms| => (if terms[k].0 in INPUTS then terms[k].0 else INPUTS[0], terms[k].1))
  }

  predicate SameOps(a: seq<Instruction>, b: seq<Instruction>) {
    |a| == |b| && forall k :: 0 <= k < |a| ==> a[k].op == b[k].op
  }

  lemma SameOpsConcat(a: seq<Instruction>, b: seq<Instruction>, c: seq<Instruction>, d: seq<Instruction>)
    requires SameOps(a, b) && SameOps(c, d)
    ensures SameOps(a + c, b + d)
  {
  }

  lemma KnownInit(terms: seq<Term>)
    requires terms != []
    ensures Known(terms)[..|terms| - 1] == Known(terms[..|terms| - 1])
  {
  }

  lemma {:induction false} KnownWeight(terms: seq<Term>)
    ensures TotalWeight(Known(terms)) == TotalWeight(terms)
    decreases |terms|
  {
    if terms != [] {
      KnownInit(terms);
      KnownWeight(terms[..|terms| - 1]);
    }
  }

  lemma {:induction false} KnownOps(terms: seq<Term>)
    ensures SameOps(SumCode(terms), SumCode(Known(terms)))
    decreases |terms|
  {
    hide TermCode, SameOps, Known;
    if terms == [] {
      assert SumCode(terms) == SumCode(Known(terms)) == [];
      SameAsItself([]);
    } else {
      var n := |terms| - 1;
      var joint := if |terms| > 1 then [Instruction(Add, NoArg)] else [];
      KnownOps(terms[..n]);
      KnownInit(terms);
      KnownTerm(terms[n], Known(terms)[n]);
      SameAsItself(joint);
      SameOpsConcat(SumCode(terms[..n]), SumCode(Known(terms[..n])), TermCode(terms[n]), TermCode(Known(terms)[n]));
      SameOpsConcat(SumCode(terms[..n]) + TermCode(terms[n]), SumCode(Known(terms[..n])) + TermCode(Known(terms)[n]), joint, joint);
    }
  }

  lemma SameAsItself(code: seq<Instruction>)
    ensures SameOps(code, code)
  {
  }

  lemma KnownSum(terms: seq<Term>)
    ensures SameOps(SumCode(terms), SumCode(Known(terms))) && TotalWeight(Known(terms)) == TotalWeight(terms) && TermsNamed(Known(terms))
  {
    hide SumCode, TotalWeight, SameOps;
    KnownOps(terms);
    KnownWeight(terms);
  }

  lemma KnownTerm(a: Term, b: Term)
    ensures SameOps(TermCode(a), TermCode(b)) && |TermCode(a)| == 3
  {
  }

  lemma KnownPolicy(terms: seq<Term>, scale: real, below: real, route: int, good: int)
    requires WeightedAverage(terms).Ok?
    ensures WeightedAverage(Known(terms)).Ok?
    ensures SameOps(PolicyCode(terms, scale, below, route), PolicyCode(Known(terms), scale, below, good))
  {
    hide SumCode, TailCode, Known, SameOps;
    KnownSum(terms);
    var total := [Instruction(PushConst, FloatArg(TotalWeight(terms)))] + [Instruction(Div, NoArg)];
    SameAsItself(total);
    SameOpsConcat(SumCode(terms), SumCode(Known(terms)), total, total);
    KnownTail(scale, below, route, good);
    var average, other := WeightedAverage(terms).value, WeightedAverage(Known(terms)).value;
    assert average == SumCode(terms) + total && other == SumCode(Known(terms)) + total;
    SameOpsConcat(average, other, TailCode(scale, below, route), TailCode(scale, below, good));
  }

  lemma KnownTail(scale: real, below: real, route: int, good: int)
    ensures SameOps(TailCode(scale, below, route), TailCode(scale, below, good))
  {
    hide ScaleCode, ScoreCode, SeverityCode, SuppressCode, SameOps;
    var before := ScaleCode(scale) + ScoreCode() + SeverityCode() + SuppressCode(below);
    SameAsItself(before);
    assert SameOps(RouteCode(route), RouteCode(good)) by { RoutesAlike(route, good); }
    SameOpsConcat(before, before, RouteCode(route), RouteCode(good));
  }

  lemma RoutesAlike(route: int, good: int)
    ensures SameOps(RouteCode(route), RouteCode(good))
  {
  }

  /** Each term's name is the operand of some instruction. */
  lemma {:induction false} NameOccurs(terms: seq<Term>, j: nat) returns (k: nat)
    requires j < |terms|
    ensures k < |SumCode(terms)| && SumCode(terms)[k] == Instruction(LoadInput, TextArg(terms[j].0))
    decreases |terms|
  {
    var n := |terms| - 1;
    if j < n {
      k := NameOccurs(terms[..n], j);
    } else {
      k := |SumCode(terms[..n])|;
    }
  }

  lemma RouteOccurs(scale: real, below: real, route: int)
    ensures |TailCode(scale, below, route)| == 34 && TailCode(scale, below, route)[32] == Instruction(PushConst, IntArg(route))
  {
    hide BandsCode;
    BandsArePlain();
  }

  lemma BadOperandOccurs(terms: seq<Term>, scale: real, below: real, route: int) returns (k: nat)
    requires WeightedAverage(terms).Ok? && !(TermsNamed(terms) && FloatConvertible(route))
    ensures k < |PolicyCode(terms, scale, below, route)| && !ValidOperand(PolicyCode(terms, scale, below, route)[k])
  {
    hide FloatConvertible, SumCode, TailCode;
    if TermsNamed(terms) {
      RouteOccurs(scale, below, route);
      k := |WeightedAverage(terms).value| + 32;
    } else {
      var j :| 0 <= j < |terms| && terms[j].0 !in INPUTS;
      k := NameOccurs(terms, j);
    }
  }

  /** A program with the opcodes of a fault-free one can only fail on an operand. */
  lemma OnlyOperandsFail(ir: seq<Instruction>, good: seq<Instruction>, bad: nat, maxInstructions: int, maxStack: int)
    requires SameOps(ir, good) && LiveLength(good) == |good| && |ir| <= maxInstructions
    requires forall k :: 0 <= k < |good| ==> FaultAt(good, k, maxStack) == None
    requires bad < |ir| && !ValidOperand(ir[bad])
    ensures Analyze(ir, maxInstructions, maxStack) == Err(BadOperand)
  {
    hide ValidOperand, StackEffect, LiveLength;
    LiveEnds(good);
    LivePrefixUnique(ir, |ir|);
    forall k | 0 <= k < |ir|
      ensures FaultAt(ir, k, maxStack) == if ValidOperand(ir[k]) then None else Some(BadOperand)
    {
      SameOpsSameDepths(good, ir, k);
      SameOpsSameDepths(good, ir, k + 1);
      assert FaultAt(good, k, maxStack) == None;
    }
    FirstFaultIsFirst(ir, 0, |ir|, maxStack);
    assert FaultAt(ir, bad, maxStack) == Some(BadOperand);
  }

  lemma BadCodeFails(terms: seq<Term>, scale: real, below: real, route: int)
    requires WeightedAverage(terms).Ok? && !(TermsNamed(terms) && FloatConvertible(route))
    ensures Built(PolicyCode(terms, scale, below, route) + [HALT], true) ==
            if 4 * |terms| + 36 <= 512 then Err(BadOperand) else Err(InstructionLimit)
  {
    hide PolicyCode, WeightedAverage, Analyze, FaultAt, TermsNamed, FloatConvertible, ValidOperand, Known, SumCode, TotalWeight, LiveLength, DepthAt, Accepted;
    var code := PolicyCode(terms, scale, below, route);
    KnownPolicy(terms, scale, below, route, 0);
    KnownSum(terms);
    assert FloatConvertible(0) by { ZeroConverts(); }
    GoodCodeBuilds(Known(terms), scale, below, 0);
    var bad := BadOperandOccurs(terms, scale, below, route);
    var ir, good := code + [HALT], PolicyCode(Known(terms), scale, below, 0) + [HALT];
    assert Seal(ir) == ir;
    if |ir| <= DEFAULT_MAX_INSTRUCTIONS {
      OnlyOperandsFail(ir, good, bad, DEFAULT_MAX_INSTRUCTIONS, DEFAULT_MAX_STACK);
    } else {
      TooLong(ir);
    }
  }

  lemma ZeroConverts()
    ensures FloatConvertible(0)
  {
  }

  lemma TooLong(ir: seq<Instruction>)
    requires |ir| > DEFAULT_MAX_INSTRUCTIONS
    ensures Analyze(ir, DEFAULT_MAX_INSTRUCTIONS, DEFAULT_MAX_STACK) == Err(InstructionLimit)
  {
  }

  /**
   When building succeeds, for all arguments, and which error it ends in otherwise. A built policy leaves an
   empty stack.
   */
  lemma BuildsExactlyWhenItFits(terms: seq<Term>, scale: real, below: real, route: int)
    ensures var policy := StandardPolicy(terms, scale, below, route);
            if scale <= 0.0 then policy == Err(NonPositiveScale)
            else if terms == [] then policy == Err(NoTerms)
            else if TotalWeight(terms) == 0.0 then policy == Err(ZeroTotalWeight)
            else if 4 * |terms| + 36 > 512 then policy == Err(InstructionLimit)
            else if !(TermsNamed(terms) && FloatConvertible(route)) then policy == Err(BadOperand)
            else policy == Ok(PolicyCode(terms, scale, below, route) + [HALT]) && DepthAt(policy.value, |policy.value|) == 0
  {
    hide PolicyCode, Built, FloatConvertible, TermsNamed;
    if scale > 0.0 && WeightedAverage(terms).Ok? {
      if TermsNamed(terms) && FloatConvertible(route) {
        GoodCodeBuilds(terms, scale, below, route);
      } else {
        BadCodeFails(terms, scale, below, route);
      }
    }
  }

  lemma NamedAreKnown(env: Environment, terms: seq<Term>)
    requires KnowsInputs(env) && TermsNamed(terms)
    ensures TermsKnown(env, terms)
  {
  }

  /** What a run of the policy with these terms must return. */
  ghost predicate KeepsPromise(r: Result<PolicyResult, Fault>, v: real, below: real, route: int, instructions: nat) {
    && r.Ok?
    && r.value.alertScore == ClampInt(0, 100, RoundHalfEven(v))
    && r.value.severityCode == (if v >= 85.0 then 4 else if v >= 65.0 then 3 else if v >= 40.0 then 2 else 1)
    && (r.value.suppressed <==> v < below)
    && r.value.routingCode == ClampInt(0, 255, route)
    && r.value.maxStackDepth == 5
    && r.value.instructionsExecuted == instructions
  }

  /** 40, 65 and 85 part the four severities. */
  lemma StandardSeverity(v: real)
    ensures BandOf(DEFAULT_BANDS, v) == (if v >= 85.0 then 4 else if v >= 65.0 then 3 else if v >= 40.0 then 2 else 1)
  {
  }

  lemma FittingPolicyRuns(ar: Arithmetic, env: Environment, terms: seq<Term>, scale: real, below: real, route: int,
                          inputs: map<string, InputValue>)
    requires Exact(ar) && TotalAndFinite(inputs) && Normalize(inputs, INPUTS, |INPUTS|) == Ok(env) && TermsKnown(env, terms)
    requires WeightedAverage(terms).Ok? && TermsNamed(terms) && FloatConvertible(route)
    requires 4 * |terms| + 36 <= DEFAULT_MAX_INSTRUCTIONS
    ensures KeepsPromise(Run(ar, PolicyCode(terms, scale, below, route) + [HALT], inputs, DEFAULT_MAX_INSTRUCTIONS, DEFAULT_MAX_STACK),
                         ScaledAverage(env, terms, scale), below, route, 4 * |terms| + 36)
  {
    hide FloatConvertible, Exec, PolicyCode, Promised, KeepsPromise, ScaledAverage, Run, Returns;
    PolicyShape(terms, scale, below, route);
    PolicyCodeRuns(ar, env, terms, scale, below, route);
    ClosedFragmentRuns(ar, PolicyCode(terms, scale, below, route), inputs, DEFAULT_MAX_INSTRUCTIONS, DEFAULT_MAX_STACK);
    StartIsEmpty();
    PromiseIsKept(Run(ar, PolicyCode(terms, scale, below, route) + [HALT], inputs, DEFAULT_MAX_INSTRUCTIONS, DEFAULT_MAX_STACK),
                  ScaledAverage(env, terms, scale), below, route, 4 * |terms| + 36);
  }

  lemma StartIsEmpty()
    ensures START.core.stack == []
  {
  }

  lemma PromiseIsKept(r: Result<PolicyResult, Fault>, v: real, below: real, route: int, instructions: nat)
    requires Returns(r, Outcome(Promised(START.core, v, below, route), 5), instructions)
    ensures KeepsPromise(r, v, below, route, instructions)
  {
    hide RoundHalfEven, ClampInt, BandOf;
    StandardSeverity(v);
  }

  /**
   `standard_alert_policy` is correct whenever it builds: the program computes the clamped and rounded score of the scaled weighted average,
   its severity band, the suppression test and the route; it needs exactly five stack cells and
   executes 4n + 36 instructions.
   */
  lemma StandardPolicyIsCorrect(ar: Arithmetic, terms: seq<Term>, scale: real, below: real, route: int,
                                inputs: map<string, InputValue>)
    requires Exact(ar) && TotalAndFinite(inputs)
    requires StandardPolicy(terms, scale, below, route).Ok?
    ensures var policy := StandardPolicy(terms, scale, below, route).value;
            var env := Normalize(inputs, INPUTS, |INPUTS|);
            && env.Ok? && TermsKnown(env.value, terms) && TotalWeight(terms) != 0.0
            && KeepsPromise(Run(ar, policy, inputs, DEFAULT_MAX_INSTRUCTIONS, DEFAULT_MAX_STACK),
                            ScaledAverage(env.value, terms, scale), below, route, 4 * |terms| + 36)
  {
    hide FloatConvertible, PolicyCode, Built, SumCode, KeepsPromise, TotalAndFinite, TermsNamed, TermsKnown, KnowsInputs;
    NormalizedKnowsInputs(inputs);
    var env := Normalize(inputs, INPUTS, |INPUTS|).value;
    BuildsExactlyWhenItFits(terms, scale, below, route);
    NamedAreKnown(env, terms);
    FittingPolicyRuns(ar, env, terms, scale, below, route, inputs);
  }
}
