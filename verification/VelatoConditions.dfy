/**
 Composing conditions: the combinators that join condition fragments with AND and OR, and the
 macros that store what a condition decides. The fragments are arbitrary code with a stated effect.
 */
module VelatoConditions {
  import opened Outcomes
  import opened VelatoIr
  import opened VelatoMachine
  import opened VelatoLibrary

  /**
   From every stack, with the rest of the state as in c, the fragment pushes v, leaves everything
   else alone, and needs at most `rise` cells above the stack it found.
   */
  ghost predicate Yields(ar: Arithmetic, env: Environment, code: seq<Instruction>, c: Core, v: real, rise: nat) {
    forall s: seq<real> :: YieldsOn(ar, env, code, c, s, v, rise)
  }

  ghost predicate YieldsOn(ar: Arithmetic, env: Environment, code: seq<Instruction>, c: Core, s: seq<real>, v: real, rise: nat) {
    var o := Exec(ar, env, code, c.(stack := s));
    o.Ok? && o.value.core == c.(stack := s + [v]) && o.value.peak <= |s| + rise
  }

  /** `float(0)` and `float(1)` are exact, as on every platform. */
  ghost predicate UnitsExact(ar: Arithmetic) {
    ar.ofInt(0) == 0.0 && ar.ofInt(1) == 1.0
  }

  // ----- the generators -----

  function Join(op: Op, unit: int, conditions: seq<seq<Instruction>>): seq<Instruction> {
    if conditions == [] then [Instruction(PushConst, IntArg(unit))]
    else if |conditions| == 1 then conditions[0]
    else Join(op, unit, conditions[..|conditions| - 1]) + conditions[|conditions| - 1] + [Instruction(op, NoArg)]
  }

  method AllConditions(conditions: seq<seq<Instruction>>) returns (code: seq<Instruction>)
    ensures code == Join(And, 1, conditions)
  {
    code := JoinLoop(And, 1, conditions);
  }

  method AnyCondition(conditions: seq<seq<Instruction>>) returns (code: seq<Instruction>)
    ensures code == Join(Or, 0, conditions)
  {
    code := JoinLoop(Or, 0, conditions);
  }

  /** The loop both combinators share: append the condition, and the operator from the second one on. */
  method JoinLoop(op: Op, unit: int, conditions: seq<seq<Instruction>>) returns (code: seq<Instruction>)
    ensures code == Join(op, unit, conditions)
  {
    if conditions == [] {
      return [Instruction(PushConst, IntArg(unit))];
    }
    code := [];
    for k := 0 to |conditions|
      invariant code == if k == 0 then [] else Join(op, unit, conditions[..k])
    {
      assert conditions[..k + 1][..k] == conditions[..k];
      code := code + conditions[k];
      if k != 0 {
        code := code + [Instruction(op, NoArg)];
      }
    }
    assert conditions[..|conditions|] == conditions;
  }

  function AtLeastCode(name: string, threshold: real): seq<Instruction> {
    [Instruction(LoadInput, TextArg(name))] + [Instruction(PushConst, FloatArg(threshold))] + [Instruction(Gte, NoArg)]
  }

  function AtMostCode(name: string, threshold: real): seq<Instruction> {
    [Instruction(LoadInput, TextArg(name))] + [Instruction(PushConst, FloatArg(threshold))] + [Instruction(Lte, NoArg)]
  }

  function InputBetween(name: string, lower: real, upper: real): Result<seq<Instruction>, Fault> {
    if lower > upper then Err(UnorderedThresholds)
    else Ok([Instruction(LoadInput, TextArg(name))] + [Instruction(PushConst, FloatArg(lower))] +
            [Instruction(PushConst, FloatArg(upper))] + [Instruction(Between, NoArg)])
  }

  function RouteWhen(condition: seq<Instruction>, trueRoute: int, falseRoute: int): seq<Instruction> {
    condition + [Instruction(PushConst, IntArg(trueRoute))] + [Instruction(PushConst, IntArg(falseRoute))] +
    [Instruction(Select, NoArg)] + [Instruction(StoreRoute, NoArg)]
  }

  function SuppressWhen(condition: seq<Instruction>): seq<Instruction> {
    condition + [Instruction(StoreSuppress, NoArg)]
  }

  // ----- joined conditions -----

  /** The value a joined condition pushes: the unit, the single value, or the truth of the whole. */
  function Joined(op: Op, unit: real, values: seq<real>): real {
    if values == [] then unit
    else if |values| == 1 then values[0]
    else
      var before, last := Joined(op, unit, values[..|values| - 1]) != 0.0, values[|values| - 1] != 0.0;
      Truth(if op == And then before && last else before || last)
  }

  lemma {:induction false} AllIsConjunction(values: seq<real>)
    ensures Joined(And, 1.0, values) != 0.0 <==> forall k :: 0 <= k < |values| ==> values[k] != 0.0
    decreases |values|
  {
    if |values| > 1 {
      AllIsConjunction(values[..|values| - 1]);
    }
  }

  lemma {:induction false} AnyIsDisjunction(values: seq<real>)
    ensures Joined(Or, 0.0, values) != 0.0 <==> exists k :: 0 <= k < |values| && values[k] != 0.0
    decreases |values|
  {
    if |values| > 1 {
      var init := values[..|values| - 1];
      AnyIsDisjunction(init);
      if k :| 0 <= k < |values| && values[k] != 0.0 {
        assert k < |init| ==> init[k] != 0.0;
      }
    }
  }

  /** The exact height a one-value fragment needs on one particular stack. */
  lemma YieldsDoes(ar: Arithmetic, env: Environment, code: seq<Instruction>, c: Core, s: seq<real>, v: real, rise: nat) returns (r: nat)
    requires Yields(ar, env, code, c, v, rise)
    ensures r <= rise && Does(ar, env, code, c.(stack := s), c.(stack := s + [v]), r)
  {
    hide Perform;
    assert YieldsOn(ar, env, code, c, s, v, rise);
    ExecPeakAtLeastEnds(ar, env, code, c.(stack := s));
    r := Exec(ar, env, code, c.(stack := s)).value.peak - |s|;
  }

  lemma DoesYields(ar: Arithmetic, env: Environment, code: seq<Instruction>, c: Core, s: seq<real>, v: real, r: nat, rise: nat)
    requires r <= rise && Does(ar, env, code, c.(stack := s), c.(stack := s + [v]), r)
    ensures YieldsOn(ar, env, code, c, s, v, rise)
  {
    hide Perform;
  }

  lemma {:induction false} JoinRuns(ar: Arithmetic, env: Environment, op: Op, unit: int, conditions: seq<seq<Instruction>>,
                                    values: seq<real>, c: Core, rise: nat)
    requires op in {And, Or} && unit in {0, 1} && UnitsExact(ar)
    requires |values| == |conditions| && rise >= 1
    requires forall k :: 0 <= k < |conditions| ==> Yields(ar, env, conditions[k], c, values[k], rise)
    ensures Yields(ar, env, Join(op, unit, conditions), c, Joined(op, unit as real, values),
                   if |conditions| <= 1 then rise else rise + 1)
    decreases |conditions|
  {
    hide Exec;
    var n := |conditions| - 1;
    var code, v, more := Join(op, unit, conditions), Joined(op, unit as real, values), rise + 1;
    if conditions == [] {
      forall s: seq<real>
        ensures YieldsOn(ar, env, code, c, s, v, rise)
      {
        PushesConstant(ar, env, IntArg(unit), v, c.(stack := s));
      }
    } else if n > 0 {
      JoinRuns(ar, env, op, unit, conditions[..n], values[..n], c, rise);
      var init, a := Join(op, unit, conditions[..n]), Joined(op, unit as real, values[..n]);
      if n == 1 {
        YieldsWithMore(ar, env, init, c, a, rise, more);
      }
      forall s: seq<real>
        ensures YieldsOn(ar, env, code, c, s, v, more)
      {
        JoinStep(ar, env, op, init, conditions[n], c, s, a, values[n], rise);
      }
    }
  }

  lemma JoinStep(ar: Arithmetic, env: Environment, op: Op, init: seq<Instruction>, last: seq<Instruction>, c: Core,
                 s: seq<real>, a: real, b: real, rise: nat)
    requires op in {And, Or} && rise >= 1
    requires Yields(ar, env, init, c, a, rise + 1) && Yields(ar, env, last, c, b, rise)
    ensures YieldsOn(ar, env, init + last + [Instruction(op, NoArg)], c, s,
                     Truth(if op == And then a != 0.0 && b != 0.0 else a != 0.0 || b != 0.0), rise + 1)
  {
    hide Exec, Does, YieldsOn, Yields, BinaryValue;
    var v := Truth(if op == And then a != 0.0 && b != 0.0 else a != 0.0 || b != 0.0);
    var c0, c1, c2, c3 := c.(stack := s), c.(stack := s + [a]), c.(stack := s + [a] + [b]), c.(stack := s + [v]);
    var r1 := YieldsDoes(ar, env, init, c, s, a, rise + 1);
    var r2 := YieldsDoes(ar, env, last, c, s + [a], b, rise);
    Connects(ar, a, b);
    Combine(ar, env, op, s, a, b, c2);
    DoesBoth(ar, env, init, last, c0, c1, c2, r1, r2);
    DoesBoth(ar, env, init + last, [Instruction(op, NoArg)], c0, c2, c3, Larger(r1, 1 + r2), 0);
    DoesYields(ar, env, init + last + [Instruction(op, NoArg)], c, s, v, Larger(Larger(r1, 1 + r2), 2), rise + 1);
  }

  /** `all_conditions` of any list of one-value fragments is truthy exactly when all of them are. */
  lemma AllConditionsCompose(ar: Arithmetic, env: Environment, conditions: seq<seq<Instruction>>, values: seq<real>,
                             c: Core, rise: nat) returns (v: real)
    requires UnitsExact(ar) && |values| == |conditions| && rise >= 1
    requires forall k :: 0 <= k < |conditions| ==> Yields(ar, env, conditions[k], c, values[k], rise)
    ensures Yields(ar, env, Join(And, 1, conditions), c, v, rise + 1)
    ensures v != 0.0 <==> forall k :: 0 <= k < |values| ==> values[k] != 0.0
  {
    hide Exec;
    JoinRuns(ar, env, And, 1, conditions, values, c, rise);
    AllIsConjunction(values);
    v := Joined(And, 1.0, values);
    YieldsWithMore(ar, env, Join(And, 1, conditions), c, v, if |conditions| <= 1 then rise else rise + 1, rise + 1);
  }

  /** `any_condition` of any list of one-value fragments is truthy exactly when some of them is. */
  lemma AnyConditionComposes(ar: Arithmetic, env: Environment, conditions: seq<seq<Instruction>>, values: seq<real>,
                             c: Core, rise: nat) returns (v: real)
    requires UnitsExact(ar) && |values| == |conditions| && rise >= 1
    requires forall k :: 0 <= k < |conditions| ==> Yields(ar, env, conditions[k], c, values[k], rise)
    ensures Yields(ar, env, Join(Or, 0, conditions), c, v, rise + 1)
    ensures v != 0.0 <==> exists k :: 0 <= k < |values| && values[k] != 0.0
  {
    hide Exec;
    JoinRuns(ar, env, Or, 0, conditions, values, c, rise);
    AnyIsDisjunction(values);
    v := Joined(Or, 0.0, values);
    YieldsWithMore(ar, env, Join(Or, 0, conditions), c, v, if |conditions| <= 1 then rise else rise + 1, rise + 1);
  }

  lemma YieldsWithMore(ar: Arithmetic, env: Environment, code: seq<Instruction>, c: Core, v: real, rise: nat, more: nat)
    requires rise <= more && Yields(ar, env, code, c, v, rise)
    ensures Yields(ar, env, code, c, v, more)
  {
    hide Exec;
    forall s: seq<real>
      ensures YieldsOn(ar, env, code, c, s, v, more)
    {
      assert YieldsOn(ar, env, code, c, s, v, rise);
    }
  }

  // ----- basic conditions -----

  /** The threshold tests are one-value fragments, under any rounding. */
  lemma AtLeastYields(ar: Arithmetic, env: Environment, name: string, threshold: real, c: Core)
    requires name in env
    ensures Yields(ar, env, AtLeastCode(name, threshold), c, Truth(env[name] >= threshold), 2)
  {
    hide Exec;
    var code, v := AtLeastCode(name, threshold), Truth(env[name] >= threshold);
    forall s: seq<real>
      ensures YieldsOn(ar, env, code, c, s, v, 2)
    {
      ComparisonRuns(ar, env, Gte, name, threshold, c.(stack := s));
    }
  }

  lemma AtMostYields(ar: Arithmetic, env: Environment, name: string, threshold: real, c: Core)
    requires name in env
    ensures Yields(ar, env, AtMostCode(name, threshold), c, Truth(env[name] <= threshold), 2)
  {
    hide Exec;
    var code, v := AtMostCode(name, threshold), Truth(env[name] <= threshold);
    forall s: seq<real>
      ensures YieldsOn(ar, env, code, c, s, v, 2)
    {
      ComparisonRuns(ar, env, Lte, name, threshold, c.(stack := s));
    }
  }

  lemma ComparisonRuns(ar: Arithmetic, env: Environment, op: Op, name: string, threshold: real, c: Core)
    requires name in env && op in {Gte, Lte}
    ensures Does(ar, env,
                 [Instruction(LoadInput, TextArg(name))] + [Instruction(PushConst, FloatArg(threshold))] + [Instruction(op, NoArg)],
                 c, c.(stack := c.stack + [Truth(if op == Gte then env[name] >= threshold else env[name] <= threshold)]), 2)
  {
    hide Exec, Does, BinaryValue;
    var x := env[name];
    var c1, c2 := c.(stack := c.stack + [x]), c.(stack := c.stack + [x] + [threshold]);
    var i1, i2, i3 := [Instruction(LoadInput, TextArg(name))], [Instruction(PushConst, FloatArg(threshold))], [Instruction(op, NoArg)];
    PushesInput(ar, env, name, c);
    PushesConstant(ar, env, FloatArg(threshold), threshold, c1);
    Compares(ar, x, threshold);
    Combine(ar, env, op, c.stack, x, threshold, c2);
    DoesBoth(ar, env, i1, i2, c, c1, c2, 1, 1);
    DoesBoth(ar, env, i1 + i2, i3, c, c2, c.(stack := c.stack + [BinaryValue(ar, op, x, threshold).value]), 2, 0);
  }

  lemma BetweenYields(ar: Arithmetic, env: Environment, name: string, lower: real, upper: real, c: Core)
    requires name in env && InputBetween(name, lower, upper).Ok?
    ensures Yields(ar, env, InputBetween(name, lower, upper).value, c, Truth(lower <= env[name] <= upper), 3)
  {
    hide Exec;
    var code, v := InputBetween(name, lower, upper).value, Truth(lower <= env[name] <= upper);
    forall s: seq<real>
      ensures YieldsOn(ar, env, code, c, s, v, 3)
    {
      BetweenRuns(ar, env, name, lower, upper, c.(stack := s));
    }
  }

  lemma BetweenRuns(ar: Arithmetic, env: Environment, name: string, lower: real, upper: real, c: Core)
    requires name in env && InputBetween(name, lower, upper).Ok?
    ensures Does(ar, env, InputBetween(name, lower, upper).value, c,
                 c.(stack := c.stack + [Truth(lower <= env[name] <= upper)]), 3)
  {
    hide Exec, Does;
    var x := env[name];
    var c1, c2 := c.(stack := c.stack + [x]), c.(stack := c.stack + [x] + [lower]);
    var c3, c4 := c.(stack := c.stack + [x] + [lower] + [upper]), c.(stack := c.stack + [Truth(lower <= x <= upper)]);
    var i1, i2 := [Instruction(LoadInput, TextArg(name))], [Instruction(PushConst, FloatArg(lower))];
    var i3, i4 := [Instruction(PushConst, FloatArg(upper))], [Instruction(Between, NoArg)];
    PushesInput(ar, env, name, c);
    PushesConstant(ar, env, FloatArg(lower), lower, c1);
    PushesConstant(ar, env, FloatArg(upper), upper, c2);
    ChooseBetween(ar, env, c.stack, x, lower, upper, c3);
    DoesBoth(ar, env, i1, i2, c, c1, c2, 1, 1);
    DoesBoth(ar, env, i1 + i2, i3, c, c2, c3, 2, 1);
    DoesBoth(ar, env, i1 + i2 + i3, i4, c, c3, c4, 3, 0);
  }

  // ----- acting on a condition -----

  function RouteTail(trueRoute: int, falseRoute: int): seq<Instruction> {
    [Instruction(PushConst, IntArg(trueRoute))] + [Instruction(PushConst, IntArg(falseRoute))] +
    [Instruction(Select, NoArg)] + [Instruction(StoreRoute, NoArg)]
  }

  lemma RouteTailRuns(ar: Arithmetic, env: Environment, trueRoute: int, falseRoute: int, c: Core, s: seq<real>, v: real)
    requires Exact(ar) && FloatConvertible(trueRoute) && FloatConvertible(falseRoute) && c.stack == s + [v]
    ensures Does(ar, env, RouteTail(trueRoute, falseRoute), c,
                 c.(stack := s, route := ClampInt(0, 255, if v != 0.0 then trueRoute else falseRoute)), 2)
  {
    hide Exec, Does, RoundHalfEven, ClampInt, FloatConvertible;
    var t, f := trueRoute as real, falseRoute as real;
    var chosen := if v != 0.0 then t else f;
    var c2, c3 := c.(stack := s + [v] + [t]), c.(stack := s + [v] + [t] + [f]);
    var c4 := c.(stack := s + [chosen]);
    var c5 := c.(stack := s, route := ClampInt(0, 255, RoundHalfEven(chosen)));
    var i1, i2 := [Instruction(PushConst, IntArg(trueRoute))], [Instruction(PushConst, IntArg(falseRoute))];
    var i3, i4 := [Instruction(Select, NoArg)], [Instruction(StoreRoute, NoArg)];
    PushesConstant(ar, env, IntArg(trueRoute), t, c);
    PushesConstant(ar, env, IntArg(falseRoute), f, c2);
    ChooseSelect(ar, env, s, v, t, f, c3);
    Stored(ar, env, StoreRoute, s, chosen, c4);
    IntegersRound(trueRoute);
    IntegersRound(falseRoute);
    DoesBoth(ar, env, i1, i2, c, c2, c3, 1, 1);
    DoesBoth(ar, env, i1 + i2, i3, c, c3, c4, 2, 0);
    DoesBoth(ar, env, i1 + i2 + i3, i4, c, c4, c5, 2, 0);
  }

  /** `route_when` stores the route the condition selects and restores the stack. */
  lemma RouteWhenRuns(ar: Arithmetic, env: Environment, condition: seq<Instruction>, trueRoute: int, falseRoute: int,
                      c: Core, v: real, rise: nat)
    requires Exact(ar) && FloatConvertible(trueRoute) && FloatConvertible(falseRoute)
    requires Yields(ar, env, condition, c, v, rise)
    ensures var o := Exec(ar, env, RouteWhen(condition, trueRoute, falseRoute), c);
            && o.Ok?
            && o.value.core == c.(route := ClampInt(0, 255, if v != 0.0 then trueRoute else falseRoute))
            && o.value.peak <= |c.stack| + Larger(rise, 3)
  {
    hide RoundHalfEven, ClampInt, FloatConvertible, RouteTail;
    var s := c.stack;
    var c1 := c.(stack := s + [v]);
    var c5 := c.(route := ClampInt(0, 255, if v != 0.0 then trueRoute else falseRoute));
    assert YieldsOn(ar, env, condition, c, s, v, rise) && c.(stack := s) == c;
    ExecPeakAtLeastEnds(ar, env, condition, c);
    var r := Exec(ar, env, condition, c).value.peak - |s|;
    RouteTailRuns(ar, env, trueRoute, falseRoute, c1, s, v);
    DoesBoth(ar, env, condition, RouteTail(trueRoute, falseRoute), c, c1, c5, r, 2);
    assert RouteWhen(condition, trueRoute, falseRoute) == condition + RouteTail(trueRoute, falseRoute) by {
      RouteWhenIs(condition, trueRoute, falseRoute);
    }
  }

  lemma RouteWhenIs(condition: seq<Instruction>, trueRoute: int, falseRoute: int)
    ensures RouteWhen(condition, trueRoute, falseRoute) == condition + RouteTail(trueRoute, falseRoute)
  {
  }

  /** `suppress_when` stores the truth of the condition and restores the stack. */
  lemma SuppressWhenRuns(ar: Arithmetic, env: Environment, condition: seq<Instruction>, c: Core, v: real, rise: nat)
    requires Yields(ar, env, condition, c, v, rise)
    ensures var o := Exec(ar, env, SuppressWhen(condition), c);
            o.Ok? && o.value.core == c.(suppressed := v != 0.0) && o.value.peak <= |c.stack| + rise
  {
    var s := c.stack;
    assert YieldsOn(ar, env, condition, c, s, v, rise) && c.(stack := s) == c;
    ExecPeakAtLeastEnds(ar, env, condition, c);
    var r := Exec(ar, env, condition, c).value.peak - |s|;
    Stored(ar, env, StoreSuppress, s, v, c.(stack := s + [v]));
    DoesBoth(ar, env, condition, [Instruction(StoreSuppress, NoArg)], c, c.(stack := s + [v]), c.(suppressed := v != 0.0), r, 0);
  }
}
