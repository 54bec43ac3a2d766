/**
 The macro library: generators of straight-line policy code, and what the generated code
 computes. Where a statement is about values it assumes exact arithmetic; the stack and limit
 statements are about the code itself.
 */
module VelatoLibrary {
  import opened Outcomes
  import opened VelatoIr
  import opened VelatoAnalyzer
  import opened VelatoMachine
  import opened VelatoSafety

  // ----- running a fragment -----

  /** The state a HALT-free fragment ends in, and the largest stack it needed on the way. */
  datatype Outcome = Outcome(core: Core, peak: nat)

  function Larger(a: int, b: int): int { if a > b then a else b }

  function Exec(ar: Arithmetic, env: Environment, code: seq<Instruction>, c: Core): Result<Outcome, Fault> {
    if code == [] then Ok(Outcome(c, |c.stack|))
    else
      var o :- Exec(ar, env, code[..|code| - 1], c);
      var c' :- Perform(ar, env, code[|code| - 1], o.core);
      Ok(Outcome(c', Larger(o.peak, |c'.stack|)))
  }

  /** Running `code` from c ends in c', with the stack never more than `rise` cells above where it began. */
  ghost predicate Does(ar: Arithmetic, env: Environment, code: seq<Instruction>, c: Core, c': Core, rise: nat) {
    Exec(ar, env, code, c) == Ok(Outcome(c', |c.stack| + rise))
  }

  /** Arithmetic without rounding: the setting in which generated code has a denotation. */
  ghost predicate Exact(ar: Arithmetic) {
    && (forall x :: ar.nearest(x) == Some(x))
    && (forall i :: ar.ofInt(i) == i as real)
  }

  lemma ProductSign(p: real, w: real)
    requires w > 0.0
    ensures (p > 0.0 <==> p * w > 0.0) && (p < 0.0 <==> p * w < 0.0)
  {
  }

  lemma IntegersRound(i: int)
    ensures RoundHalfEven(i as real) == i
  {
    assert (i as real).Floor == i;
  }

  /** There is such an arithmetic. */
  lemma ExactArithmeticExists()
    ensures exists ar :: Exact(ar)
  {
    var ar := Arithmetic(i => i as real, x => Some(x), (x, y) => None, x => x);
    assert Exact(ar);
  }

  lemma DoesOne(ar: Arithmetic, env: Environment, ins: Instruction, c: Core)
    requires Perform(ar, env, ins, c).Ok?
    ensures var c' := Perform(ar, env, ins, c).value;
            Does(ar, env, [ins], c, c', Larger(0, |c'.stack| - |c.stack|))
  {
    hide Perform;
    assert [ins][..|[ins]| - 1] == [];
    assert Exec(ar, env, [], c) == Ok(Outcome(c, |c.stack|));
  }

  /** Fragments compose: the second runs on what the first left. */
  lemma {:induction false} DoesBoth(ar: Arithmetic, env: Environment, a: seq<Instruction>, b: seq<Instruction>,
                                    c: Core, c1: Core, c2: Core, ra: nat, rb: nat)
    requires Does(ar, env, a, c, c1, ra) && Does(ar, env, b, c1, c2, rb)
    ensures Does(ar, env, a + b, c, c2, Larger(ra, |c1.stack| - |c.stack| + rb))
    decreases |b|
  {
    hide Perform;
    if b == [] {
      assert a + b == a;
      ExecPeakAtLeastEnds(ar, env, a, c);
    } else {
      var init := b[..|b| - 1];
      var o := Exec(ar, env, init, c1).value;
      ExecPeakAtLeastEnds(ar, env, init, c1);
      assert (a + b)[..|a + b| - 1] == a + init;
      DoesBoth(ar, env, a, init, c, c1, o.core, ra, o.peak - |c1.stack|);
    }
  }

  lemma {:induction false} ExecPeakAtLeastEnds(ar: Arithmetic, env: Environment, code: seq<Instruction>, c: Core)
    ensures var o := Exec(ar, env, code, c);
            o.Ok? ==> |c.stack| <= o.value.peak && |o.value.core.stack| <= o.value.peak
    decreases |code|
  {
    hide Perform;
    if code != [] {
      ExecPeakAtLeastEnds(ar, env, code[..|code| - 1], c);
    }
  }

  // ----- single operations on a known stack top -----

  lemma PushesConstant(ar: Arithmetic, env: Environment, arg: Arg, v: real, c: Core)
    requires arg == FloatArg(v) || (arg.IntArg? && FloatConvertible(arg.i) && v == ar.ofInt(arg.i))
    ensures Does(ar, env, [Instruction(PushConst, arg)], c, c.(stack := c.stack + [v]), 1)
  {
    hide Exec;
    DoesOne(ar, env, Instruction(PushConst, arg), c);
  }

  lemma PushesInput(ar: Arithmetic, env: Environment, name: string, c: Core)
    requires name in env
    ensures Does(ar, env, [Instruction(LoadInput, TextArg(name))], c, c.(stack := c.stack + [env[name]]), 1)
  {
    hide Exec;
    DoesOne(ar, env, Instruction(LoadInput, TextArg(name)), c);
  }

  lemma Combine(ar: Arithmetic, env: Environment, op: Op, s: seq<real>, a: real, b: real, c: Core)
    requires ShapeOf(op) == Combines && c.stack == s + [a] + [b]
    requires BinaryValue(ar, op, a, b).Some?
    ensures Does(ar, env, [Instruction(op, NoArg)], c, c.(stack := s + [BinaryValue(ar, op, a, b).value]), 0)
  {
    hide Exec;
    assert c.stack[..|s| + 1] == s + [a] && (s + [a])[..|s|] == s;
    DoesOne(ar, env, Instruction(op, NoArg), c);
  }

  lemma ExactValues(ar: Arithmetic, a: real, b: real)
    requires Exact(ar)
    ensures BinaryValue(ar, Add, a, b) == Some(a + b)
    ensures BinaryValue(ar, Sub, a, b) == Some(a - b)
    ensures BinaryValue(ar, Mul, a, b) == Some(a * b)
  {
    assert ar.nearest(a * b) == Some(a * b);
  }

  lemma Divide(ar: Arithmetic, env: Environment, s: seq<real>, a: real, b: real, c: Core)
    requires Exact(ar) && c.stack == s + [a] + [b] && b != 0.0
    ensures Does(ar, env, [Instruction(Div, NoArg)], c, c.(stack := s + [a / b]), 0)
  {
    hide Exec;
    assert c.stack[..|s| + 1] == s + [a] && (s + [a])[..|s|] == s;
    DoesOne(ar, env, Instruction(Div, NoArg), c);
  }

  lemma ChooseClamped(ar: Arithmetic, env: Environment, s: seq<real>, x: real, y: real, z: real, c: Core)
    requires c.stack == s + [x] + [y] + [z] && y <= z
    ensures Does(ar, env, [Instruction(Clamp, NoArg)], c, c.(stack := s + [Greater(y, Lesser(z, x))]), 0)
  {
    hide Does;
    TopThree(s, x, y, z);
    assert Perform(ar, env, Instruction(Clamp, NoArg), c) == Ok(c.(stack := s + [Greater(y, Lesser(z, x))]));
    DoesOne(ar, env, Instruction(Clamp, NoArg), c);
  }

  lemma ChooseBetween(ar: Arithmetic, env: Environment, s: seq<real>, x: real, y: real, z: real, c: Core)
    requires c.stack == s + [x] + [y] + [z] && y <= z
    ensures Does(ar, env, [Instruction(Between, NoArg)], c, c.(stack := s + [Truth(y <= x <= z)]), 0)
  {
    hide Does;
    TopThree(s, x, y, z);
    assert Perform(ar, env, Instruction(Between, NoArg), c) == Ok(c.(stack := s + [Truth(y <= x <= z)]));
    DoesOne(ar, env, Instruction(Between, NoArg), c);
  }

  lemma ChooseSelect(ar: Arithmetic, env: Environment, s: seq<real>, x: real, y: real, z: real, c: Core)
    requires c.stack == s + [x] + [y] + [z]
    ensures Does(ar, env, [Instruction(Select, NoArg)], c, c.(stack := s + [if x != 0.0 then y else z]), 0)
  {
    hide Does;
    TopThree(s, x, y, z);
    assert Perform(ar, env, Instruction(Select, NoArg), c) == Ok(c.(stack := s + [if x != 0.0 then y else z]));
    DoesOne(ar, env, Instruction(Select, NoArg), c);
  }

  lemma TopThree(s: seq<real>, x: real, y: real, z: real)
    ensures PopTernary(s + [x] + [y] + [z]) == Ok((x, y, z, s))
  {
    var stack := s + [x] + [y] + [z];
    assert stack[..|stack| - 1] == s + [x] + [y] && (s + [x] + [y])[..|s| + 1] == s + [x] && (s + [x])[..|s|] == s;
  }

  lemma Copies(ar: Arithmetic, env: Environment, s: seq<real>, a: real, c: Core)
    requires c.stack == s + [a]
    ensures Does(ar, env, [Instruction(Dup, NoArg)], c, c.(stack := s + [a] + [a]), 1)
  {
    hide Exec;
    assert c.stack[..|s|] == s;
    DoesOne(ar, env, Instruction(Dup, NoArg), c);
  }

  lemma Drops(ar: Arithmetic, env: Environment, s: seq<real>, a: real, c: Core)
    requires c.stack == s + [a]
    ensures Does(ar, env, [Instruction(Drop, NoArg)], c, c.(stack := s), 0)
  {
    hide Exec;
    assert c.stack[..|s|] == s;
    DoesOne(ar, env, Instruction(Drop, NoArg), c);
  }

  lemma Reaches(ar: Arithmetic, env: Environment, s: seq<real>, a: real, b: real, c: Core)
    requires c.stack == s + [a] + [b]
    ensures Does(ar, env, [Instruction(Over, NoArg)], c, c.(stack := s + [a] + [b] + [a]), 1)
  {
    hide Exec;
    assert c.stack[..|s| + 1] == s + [a] && (s + [a])[..|s|] == s;
    DoesOne(ar, env, Instruction(Over, NoArg), c);
  }

  lemma Swaps(ar: Arithmetic, env: Environment, s: seq<real>, a: real, b: real, c: Core)
    requires c.stack == s + [a] + [b]
    ensures Does(ar, env, [Instruction(Swap, NoArg)], c, c.(stack := s + [b] + [a]), 0)
  {
    hide Exec;
    assert c.stack[..|s| + 1] == s + [a] && (s + [a])[..|s|] == s;
    DoesOne(ar, env, Instruction(Swap, NoArg), c);
  }

  lemma Stored(ar: Arithmetic, env: Environment, op: Op, s: seq<real>, v: real, c: Core)
    requires op in {StoreScore, StoreSeverity, StoreRoute, StoreSuppress} && c.stack == s + [v]
    ensures var c' := match op
                      case StoreScore => c.(stack := s, score := ClampInt(0, 100, RoundHalfEven(v)))
                      case StoreSeverity => c.(stack := s, severity := ClampInt(0, 9, RoundHalfEven(v)))
                      case StoreRoute => c.(stack := s, route := ClampInt(0, 255, RoundHalfEven(v)))
                      case _ => c.(stack := s, suppressed := v != 0.0);
            Does(ar, env, [Instruction(op, NoArg)], c, c', 0)
  {
    hide Exec, RoundHalfEven, ClampInt;
    assert c.stack[..|s|] == s;
    DoesOne(ar, env, Instruction(op, NoArg), c);
  }

  // ----- weighted sums and averages -----

  type Term = (string, real)

  function TermCode(term: Term): seq<Instruction> {
    [Instruction(LoadInput, TextArg(term.0))] + [Instruction(PushConst, FloatArg(term.1))] + [Instruction(Mul, NoArg)]
  }

  function SumCode(terms: seq<Term>): seq<Instruction> {
    if terms == [] then []
    else
      SumCode(terms[..|terms| - 1]) + TermCode(terms[|terms| - 1]) +
      (if |terms| > 1 then [Instruction(Add, NoArg)] else [])
  }

  function WeightedSum(terms: seq<Term>): Result<seq<Instruction>, Fault> {
    if terms == [] then Err(NoTerms) else Ok(SumCode(terms))
  }

  function TotalWeight(terms: seq<Term>): real {
    if terms == [] then 0.0 else TotalWeight(terms[..|terms| - 1]) + terms[|terms| - 1].1
  }

  function WeightedAverage(terms: seq<Term>): Result<seq<Instruction>, Fault> {
    if terms == [] then Err(NoTerms)
    else if TotalWeight(terms) == 0.0 then Err(ZeroTotalWeight)
    else Ok(SumCode(terms) + [Instruction(PushConst, FloatArg(TotalWeight(terms)))] + [Instruction(Div, NoArg)])
  }

  predicate TermsKnown(env: Environment, terms: seq<Term>) {
    forall k :: 0 <= k < |terms| ==> terms[k].0 in env
  }

  /** What a weighted sum means. */
  function SumOf(env: Environment, terms: seq<Term>): real
    requires TermsKnown(env, terms)
  {
    if terms == [] then 0.0
    else SumOf(env, terms[..|terms| - 1]) + env[terms[|terms| - 1].0] * terms[|terms| - 1].1
  }

  lemma TermRuns(ar: Arithmetic, env: Environment, term: Term, c: Core)
    requires Exact(ar) && term.0 in env
    ensures Does(ar, env, TermCode(term), c, c.(stack := c.stack + [env[term.0] * term.1]), 2)
  {
    hide Exec, Does;
    var x, w := env[term.0], term.1;
    var c1 := c.(stack := c.stack + [x]);
    var c2 := c.(stack := c.stack + [x] + [w]);
    PushesInput(ar, env, term.0, c);
    PushesConstant(ar, env, FloatArg(w), w, c1);
    ExactValues(ar, x, w);
    Combine(ar, env, Mul, c.stack, x, w, c2);
    DoesBoth(ar, env, [Instruction(LoadInput, TextArg(term.0))], [Instruction(PushConst, FloatArg(w))], c, c1, c2, 1, 1);
    DoesBoth(ar, env, [Instruction(LoadInput, TextArg(term.0))] + [Instruction(PushConst, FloatArg(w))], [Instruction(Mul, NoArg)],
             c, c2, c.(stack := c.stack + [x * w]), 2, 0);
  }

  /** The generated sum pushes the weighted sum of the named inputs and touches nothing else. */
  lemma {:induction false} SumRuns(ar: Arithmetic, env: Environment, terms: seq<Term>, c: Core)
    requires Exact(ar) && terms != [] && TermsKnown(env, terms)
    ensures Does(ar, env, SumCode(terms), c, c.(stack := c.stack + [SumOf(env, terms)]), if |terms| == 1 then 2 else 3)
    decreases |terms|
  {
    hide Exec, Does, TermCode;
    var init, term := terms[..|terms| - 1], terms[|terms| - 1];
    var x := env[term.0] * term.1;
    if init == [] {
      TermRuns(ar, env, term, c);
      assert SumCode(terms) == TermCode(term);
      assert SumOf(env, terms) == x;
    } else {
      SumRuns(ar, env, init, c);
      var c1 := c.(stack := c.stack + [SumOf(env, init)]);
      var c2 := c.(stack := c.stack + [SumOf(env, init)] + [x]);
      TermRuns(ar, env, term, c1);
      ExactValues(ar, SumOf(env, init), x);
      Combine(ar, env, Add, c.stack, SumOf(env, init), x, c2);
      assert SumOf(env, terms) == SumOf(env, init) + x;
      DoesBoth(ar, env, SumCode(init), TermCode(term), c, c1, c2, if |init| == 1 then 2 else 3, 2);
      DoesBoth(ar, env, SumCode(init) + TermCode(term), [Instruction(Add, NoArg)], c, c2,
               c.(stack := c.stack + [SumOf(env, terms)]), 3, 0);
    }
  }

  lemma AverageRuns(ar: Arithmetic, env: Environment, terms: seq<Term>, c: Core)
    requires Exact(ar) && WeightedAverage(terms).Ok? && TermsKnown(env, terms)
    ensures Does(ar, env, WeightedAverage(terms).value, c,
                 c.(stack := c.stack + [SumOf(env, terms) / TotalWeight(terms)]), if |terms| == 1 then 2 else 3)
  {
    hide Exec, Does, SumCode, SumOf, TotalWeight;
    var total, sum := TotalWeight(terms), SumOf(env, terms);
    var c1 := c.(stack := c.stack + [sum]);
    var c2 := c.(stack := c.stack + [sum] + [total]);
    var rise := if |terms| == 1 then 2 else 3;
    SumRuns(ar, env, terms, c);
    PushesConstant(ar, env, FloatArg(total), total, c1);
    Divide(ar, env, c.stack, sum, total, c2);
    DoesBoth(ar, env, SumCode(terms), [Instruction(PushConst, FloatArg(total))], c, c1, c2, rise, 1);
    DoesBoth(ar, env, SumCode(terms) + [Instruction(PushConst, FloatArg(total))], [Instruction(Div, NoArg)],
             c, c2, c.(stack := c.stack + [sum / total]), rise, 0);
  }

  // ----- severity bands -----

  /** Adding `step` to the running code when the value below it reaches the threshold. */
  function BandCode(threshold: real, step: int): seq<Instruction> {
    [Instruction(Over, NoArg)] + [Instruction(PushConst, FloatArg(threshold))] + [Instruction(Gte, NoArg)] +
    [Instruction(PushConst, IntArg(step))] + [Instruction(Mul, NoArg)] + [Instruction(Add, NoArg)]
  }

  datatype Bands = Bands(mediumScore: real, highScore: real, criticalScore: real,
                         low: int, medium: int, high: int, critical: int)

  const DEFAULT_BANDS: Bands := Bands(40.0, 65.0, 85.0, 1, 2, 3, 4)

  function BandsCode(b: Bands): seq<Instruction> {
    [Instruction(PushConst, IntArg(b.low))] +
    BandCode(b.mediumScore, b.medium - b.low) +
    BandCode(b.highScore, b.high - b.medium) +
    BandCode(b.criticalScore, b.critical - b.high) +
    [Instruction(Swap, NoArg)] + [Instruction(Drop, NoArg)]
  }

  function SeverityBands(b: Bands): Result<seq<Instruction>, Fault> {
    if b.mediumScore <= b.highScore <= b.criticalScore then Ok(BandsCode(b)) else Err(UnorderedThresholds)
  }

  /** The severity a score deserves. */
  function BandOf(b: Bands, score: real): int {
    if score >= b.criticalScore then b.critical
    else if score >= b.highScore then b.high
    else if score >= b.mediumScore then b.medium
    else b.low
  }

  predicate BandsConvertible(b: Bands) {
    && FloatConvertible(b.low) && FloatConvertible(b.medium - b.low)
    && FloatConvertible(b.high - b.medium) && FloatConvertible(b.critical - b.high)
  }

  lemma BandRuns(ar: Arithmetic, env: Environment, threshold: real, step: int, s: seq<real>, x: real, code: real, c: Core)
    requires Exact(ar) && FloatConvertible(step) && c.stack == s + [x] + [code]
    ensures Does(ar, env, BandCode(threshold, step), c,
                 c.(stack := s + [x] + [code + (if x >= threshold then step as real else 0.0)]), 2)
  {
    hide Exec, Does, FloatConvertible, BinaryValue;
    var t, d := Truth(x >= threshold), step as real;
    var base := s + [x] + [code];
    var c1, c2 := c.(stack := base + [x]), c.(stack := base + [x] + [threshold]);
    var c3, c4 := c.(stack := base + [t]), c.(stack := base + [t] + [d]);
    var c5, c6 := c.(stack := s + [x] + [code] + [t * d]), c.(stack := s + [x] + [code + t * d]);
    var i1, i2, i3 := [Instruction(Over, NoArg)], [Instruction(PushConst, FloatArg(threshold))], [Instruction(Gte, NoArg)];
    var i4, i5, i6 := [Instruction(PushConst, IntArg(step))], [Instruction(Mul, NoArg)], [Instruction(Add, NoArg)];
    Reaches(ar, env, s, x, code, c);
    PushesConstant(ar, env, FloatArg(threshold), threshold, c1);
    Compares(ar, x, threshold);
    Combine(ar, env, Gte, base, x, threshold, c2);
    PushesConstant(ar, env, IntArg(step), d, c3);
    ExactValues(ar, t, d);
    Combine(ar, env, Mul, base, t, d, c4);
    ExactValues(ar, code, t * d);
    Combine(ar, env, Add, s + [x], code, t * d, c5);
    DoesBoth(ar, env, i1, i2, c, c1, c2, 1, 1);
    DoesBoth(ar, env, i1 + i2, i3, c, c2, c3, 2, 0);
    DoesBoth(ar, env, i1 + i2 + i3, i4, c, c3, c4, 2, 1);
    DoesBoth(ar, env, i1 + i2 + i3 + i4, i5, c, c4, c5, 2, 0);
    DoesBoth(ar, env, i1 + i2 + i3 + i4 + i5, i6, c, c5, c6, 2, 0);
  }

  lemma Compares(ar: Arithmetic, a: real, b: real)
    ensures BinaryValue(ar, Gte, a, b) == Some(Truth(a >= b))
    ensures BinaryValue(ar, Lte, a, b) == Some(Truth(a <= b))
    ensures BinaryValue(ar, Lt, a, b) == Some(Truth(a < b))
  {
  }

  lemma Connects(ar: Arithmetic, a: real, b: real)
    ensures BinaryValue(ar, And, a, b) == Some(Truth(a != 0.0 && b != 0.0))
    ensures BinaryValue(ar, Or, a, b) == Some(Truth(a != 0.0 || b != 0.0))
  {
  }

  /** The severity macro replaces the score on top of the stack by its band, using three cells above it. */
  lemma BandsRun(ar: Arithmetic, env: Environment, b: Bands, s: seq<real>, x: real, c: Core)
    requires Exact(ar) && SeverityBands(b).Ok? && BandsConvertible(b) && c.stack == s + [x]
    ensures Does(ar, env, SeverityBands(b).value, c, c.(stack := s + [BandOf(b, x) as real]), 3)
  {
    hide Exec, Does, FloatConvertible, BandCode;
    var v0 := b.low as real;
    var v1 := v0 + (if x >= b.mediumScore then (b.medium - b.low) as real else 0.0);
    var v2 := v1 + (if x >= b.highScore then (b.high - b.medium) as real else 0.0);
    var v3 := v2 + (if x >= b.criticalScore then (b.critical - b.high) as real else 0.0);
    assert v3 == BandOf(b, x) as real;
    var c0, c1 := c.(stack := s + [x] + [v0]), c.(stack := s + [x] + [v1]);
    var c2, c3 := c.(stack := s + [x] + [v2]), c.(stack := s + [x] + [v3]);
    var c4, c5 := c.(stack := s + [v3] + [x]), c.(stack := s + [v3]);
    var p := [Instruction(PushConst, IntArg(b.low))];
    var m1, m2 := BandCode(b.mediumScore, b.medium - b.low), BandCode(b.highScore, b.high - b.medium);
    var m3 := BandCode(b.criticalScore, b.critical - b.high);
    var w, d := [Instruction(Swap, NoArg)], [Instruction(Drop, NoArg)];
    PushesConstant(ar, env, IntArg(b.low), v0, c);
    BandRuns(ar, env, b.mediumScore, b.medium - b.low, s, x, v0, c0);
    BandRuns(ar, env, b.highScore, b.high - b.medium, s, x, v1, c1);
    BandRuns(ar, env, b.criticalScore, b.critical - b.high, s, x, v2, c2);
    Swaps(ar, env, s, x, v3, c3);
    Drops(ar, env, s + [v3], x, c4);
    DoesBoth(ar, env, p, m1, c, c0, c1, 1, 2);
    DoesBoth(ar, env, p + m1, m2, c, c1, c2, 3, 2);
    DoesBoth(ar, env, p + m1 + m2, m3, c, c2, c3, 3, 2);
    DoesBoth(ar, env, p + m1 + m2 + m3, w, c, c3, c4, 3, 0);
    DoesBoth(ar, env, p + m1 + m2 + m3 + w, d, c, c4, c5, 3, 0);
  }
}
