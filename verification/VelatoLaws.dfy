/**
 What the machine's operations mean, as laws that relate them to one another and to arithmetic, on any
 stack and with everything below the operands and beside the stack left alone. The replacement rules of
 VelatoRules rest on them.
 */
module VelatoLaws {
  import opened Outcomes
  import opened VelatoIr
  import opened VelatoMachine
  import opened VelatoLibrary

  /** The machine with operands pushed. */
  function With(c: Core, operands: seq<real>): Core {
    c.(stack := c.stack + operands)
  }

  function Doing(ar: Arithmetic, op: Op, c: Core): Result<Core, Fault> {
    Perform(ar, map[], Instruction(op, NoArg), c)
  }

  /** The operation turned its operands into the value v, and that is all it did. */
  ghost predicate Gives(ar: Arithmetic, op: Op, c: Core, operands: seq<real>, v: real) {
    Doing(ar, op, With(c, operands)) == Ok(With(c, [v]))
  }

  /** The operation turned its operands into 1 or 0. */
  ghost predicate Tells(ar: Arithmetic, op: Op, c: Core, operands: seq<real>, b: bool) {
    Gives(ar, op, c, operands, if b then 1.0 else 0.0)
  }

  lemma Operands1(s: seq<real>, a: real)
    ensures Pop(s + [a]) == Ok((a, s))
  {
  }

  lemma Operands2(s: seq<real>, a: real, b: real)
    ensures PopBinary(s + [a, b]) == Ok((a, b, s))
  {
    assert (s + [a, b])[..|s| + 1] == s + [a];
    Operands1(s, a);
  }

  lemma Operands3(s: seq<real>, a: real, b: real, d: real)
    ensures PopTernary(s + [a, b, d]) == Ok((a, b, d, s))
  {
    assert (s + [a, b, d])[..|s| + 2] == s + [a, b];
    Operands2(s, a, b);
  }

  function Lift(c: Core, r: Result<seq<real>, Fault>): Result<Core, Fault> {
    match r
    case Ok(s) => Ok(c.(stack := s))
    case Err(e) => Err(e)
  }

  lemma MapsOn(ar: Arithmetic, op: Op, c: Core)
    requires ShapeOf(op) == Maps
    ensures Doing(ar, op, c) == Lift(c, Unary(ar, op, c.stack))
  {
    hide Unary;
  }

  lemma CombinesOn(ar: Arithmetic, op: Op, c: Core, a: real, b: real)
    requires ShapeOf(op) == Combines && BinaryValue(ar, op, a, b).Some?
    ensures Gives(ar, op, c, [a, b], BinaryValue(ar, op, a, b).value)
  {
    hide BinaryValue;
    Operands2(c.stack, a, b);
  }

  /** Whatever a binary operation gives, finite or not. */
  lemma PushesValue(ar: Arithmetic, op: Op, c: Core, a: real, b: real)
    requires ShapeOf(op) == Combines
    ensures Doing(ar, op, With(c, [a, b])) == Lift(c, Push(c.stack, BinaryValue(ar, op, a, b)))
  {
    hide BinaryValue, Push;
    Operands2(c.stack, a, b);
  }

  lemma DividesOn(ar: Arithmetic, op: Op, c: Core)
    requires ShapeOf(op) == CombinesPartially
    ensures Doing(ar, op, c) == Lift(c, Partial(ar, op, c.stack))
  {
    hide Partial;
  }

  lemma ChoosesOn(ar: Arithmetic, op: Op, c: Core)
    requires ShapeOf(op) == Chooses
    ensures Doing(ar, op, c) == Lift(c, Ternary(op, c.stack))
  {
    hide Ternary;
  }

  lemma ShufflesOn(ar: Arithmetic, op: Op, c: Core)
    requires ShapeOf(op) == Shuffles
    ensures Doing(ar, op, c) == Lift(c, Shuffle(op, c.stack))
  {
    hide Shuffle;
  }

  // ----- stack shuffling -----

  /** SWAP and OVER rearrange the top two cells and nothing else. */
  lemma SwapLaws(ar: Arithmetic, c: Core, a: real, b: real)
    ensures Doing(ar, Swap, With(c, [a, b])) == Ok(With(c, [b, a]))
    ensures Doing(ar, Over, With(c, [a, b])) == Ok(With(With(c, [a, b]), [a]))
  {
    hide Doing, Pop;
    ShufflesOn(ar, Swap, With(c, [a, b]));
    ShufflesOn(ar, Over, With(c, [a, b]));
    Operands2(c.stack, a, b);
    assert c.stack + [b] + [a] == c.stack + [b, a];
    assert c.stack + [a] + [b] == c.stack + [a, b];
  }

  /** DUP copies the top cell, and DROP takes a cell off again. */
  lemma DropLaws(ar: Arithmetic, c: Core, a: real)
    ensures Doing(ar, Dup, With(c, [a])) == Ok(With(With(c, [a]), [a]))
    ensures Doing(ar, Drop, With(c, [a])) == Ok(c)
  {
    hide Doing, PopBinary;
    ShufflesOn(ar, Dup, With(c, [a]));
    ShufflesOn(ar, Drop, With(c, [a]));
    Operands1(c.stack, a);
    assert c.(stack := c.stack) == c;
  }

  // ----- one operand -----

  /** FLOOR and CEIL bracket the value, and ROUND takes the nearest integer, ties to even. */
  lemma RoundingLaws(ar: Arithmetic, c: Core, v: real) returns (low: int, high: int, near: int)
    ensures Gives(ar, Floor, c, [v], low as real) && low as real <= v < low as real + 1.0
    ensures Gives(ar, Ceil, c, [v], high as real) && high as real - 1.0 < v <= high as real
    ensures Gives(ar, Round, c, [v], near as real) && -0.5 <= v - near as real <= 0.5
    ensures v - near as real == 0.5 || v - near as real == -0.5 ==> near % 2 == 0
  {
    hide RoundHalfEven, Doing;
    low, high, near := v.Floor, -((-v).Floor), RoundHalfEven(v);
    Operands1(c.stack, v);
    RoundHalfEvenIsNearest(v);
    MapsOn(ar, Floor, With(c, [v]));
    MapsOn(ar, Ceil, With(c, [v]));
    MapsOn(ar, Round, With(c, [v]));
  }

  /** SIGN times ABS is the value, ABS is not negative, and NEG gives the number that cancels the value. */
  lemma SignLaws(ar: Arithmetic, c: Core, v: real) returns (sign: real, size: real, opposite: real)
    ensures Gives(ar, Sign, c, [v], sign) && Gives(ar, Abs, c, [v], size) && Gives(ar, Neg, c, [v], opposite)
    ensures sign * size == v && size >= 0.0 && sign in {-1.0, 0.0, 1.0} && v + opposite == 0.0
    ensures sign == 0.0 ==> size == 0.0
  {
    hide RoundHalfEven, Doing;
    sign := if v < 0.0 then -1.0 else if v > 0.0 then 1.0 else 0.0;
    size, opposite := if v < 0.0 then -v else v, -v;
    Operands1(c.stack, v);
    MapsOn(ar, Sign, With(c, [v]));
    MapsOn(ar, Abs, With(c, [v]));
    MapsOn(ar, Neg, With(c, [v]));
  }

  /** NOT and IS_ZERO tell zero from everything else. */
  lemma ZeroLaws(ar: Arithmetic, c: Core, v: real)
    ensures Tells(ar, Not, c, [v], v == 0.0) && Tells(ar, IsZero, c, [v], v == 0.0)
  {
    hide RoundHalfEven, Doing;
    Operands1(c.stack, v);
    MapsOn(ar, Not, With(c, [v]));
    MapsOn(ar, IsZero, With(c, [v]));
  }

  // ----- two operands -----

  /** The four order comparisons in terms of one: complements and mirror images in pairs. */
  lemma ComparisonLaws(ar: Arithmetic, c: Core, a: real, b: real)
    ensures Tells(ar, Lt, c, [a, b], a < b) && Tells(ar, Gte, c, [a, b], !(a < b))
    ensures Tells(ar, Gt, c, [a, b], b < a) && Tells(ar, Lte, c, [a, b], !(b < a))
  {
    hide Gives;
    CombinesOn(ar, Lt, c, a, b);
    CombinesOn(ar, Gte, c, a, b);
    CombinesOn(ar, Gt, c, a, b);
    CombinesOn(ar, Lte, c, a, b);
  }

  /** Equality in terms of the same order. */
  lemma EqualityLaws(ar: Arithmetic, c: Core, a: real, b: real)
    ensures Tells(ar, Eq, c, [a, b], !(a < b) && !(b < a)) && Tells(ar, Ne, c, [a, b], a < b || b < a)
  {
    hide Gives;
    CombinesOn(ar, Eq, c, a, b);
    CombinesOn(ar, Ne, c, a, b);
  }

  /** AND, OR and XOR read any non-zero number as true. XOR is OR without AND, and De Morgan's laws hold. */
  lemma ConnectiveLaws(ar: Arithmetic, c: Core, a: real, b: real) returns (both: bool, some: bool)
    ensures Tells(ar, And, c, [a, b], both) && Tells(ar, Or, c, [a, b], some) && Tells(ar, Xor, c, [a, b], some && !both)
    ensures Tells(ar, Or, c, [Truth(a == 0.0), Truth(b == 0.0)], !both)
    ensures Tells(ar, And, c, [Truth(a == 0.0), Truth(b == 0.0)], !some)
    ensures both ==> a != 0.0 && b != 0.0
  {
    hide Gives;
    both, some := a != 0.0 && b != 0.0, a != 0.0 || b != 0.0;
    CombinesOn(ar, And, c, a, b);
    CombinesOn(ar, Or, c, a, b);
    CombinesOn(ar, Xor, c, a, b);
    CombinesOn(ar, Or, c, Truth(a == 0.0), Truth(b == 0.0));
    CombinesOn(ar, And, c, Truth(a == 0.0), Truth(b == 0.0));
  }

  /** MIN and MAX are the operands, in order. */
  lemma MinMaxLaws(ar: Arithmetic, c: Core, a: real, b: real) returns (low: real, high: real)
    ensures Gives(ar, Min, c, [a, b], low) && Gives(ar, Max, c, [a, b], high)
    ensures low <= high && ((low == a && high == b) || (low == b && high == a))
  {
    hide Gives;
    low, high := Lesser(a, b), Greater(a, b);
    CombinesOn(ar, Min, c, a, b);
    CombinesOn(ar, Max, c, a, b);
  }

  /** Without rounding, SUB undoes ADD and DIV undoes MUL. */
  lemma InverseLaws(ar: Arithmetic, c: Core, a: real, b: real)
    requires Exact(ar)
    ensures Gives(ar, Add, c, [a, b], a + b) && Gives(ar, Sub, c, [a + b, b], a)
    ensures Gives(ar, Mul, c, [a, b], a * b) && (b != 0.0 ==> Gives(ar, Div, c, [a * b, b], a))
  {
    hide Gives, BinaryValue;
    ExactValues(ar, a, b);
    ExactValues(ar, a + b, b);
    CombinesOn(ar, Add, c, a, b);
    CombinesOn(ar, Sub, c, a + b, b);
    CombinesOn(ar, Mul, c, a, b);
    if b != 0.0 {
      QuotientOfProduct(a, b);
      DivideGives(ar, c, a * b, b, a);
    }
  }

  lemma DivideGives(ar: Arithmetic, c: Core, a: real, b: real, x: real)
    requires Exact(ar) && b != 0.0 && x == a / b
    ensures Gives(ar, Div, c, [a, b], x)
  {
    hide Doing;
    DividesOn(ar, Div, With(c, [a, b]));
    Operands2(c.stack, a, b);
    assert ar.nearest(x) == Some(x);
  }

  /** POW raises the deeper cell to the top one, and fails exactly when that power does. */
  lemma PowLaw(ar: Arithmetic, c: Core, a: real, b: real)
    ensures ar.power(a, b).Some? ==> Gives(ar, Pow, c, [a, b], ar.power(a, b).value)
    ensures Doing(ar, Pow, With(c, [a, b])).Err? <==> ar.power(a, b).None?
    ensures ar.power(a, b).None? ==> Doing(ar, Pow, With(c, [a, b])) == Err(InvalidExponentiation)
  {
    hide Doing;
    DividesOn(ar, Pow, With(c, [a, b]));
    Operands2(c.stack, a, b);
  }

  /** SQRT takes the root of everything that is not negative. */
  lemma RootLaw(ar: Arithmetic, c: Core, v: real)
    ensures v >= 0.0 ==> Gives(ar, Sqrt, c, [v], ar.root(v))
    ensures v < 0.0 ==> Doing(ar, Sqrt, With(c, [v])) == Err(NegativeRoot)
  {
    hide RoundHalfEven, Doing;
    Operands1(c.stack, v);
    MapsOn(ar, Sqrt, With(c, [v]));
  }

  lemma QuotientOfProduct(a: real, b: real)
    requires b != 0.0
    ensures a * b / b == a
  {
  }

  /** MOD differs from the dividend by a whole multiple of the divisor and lies between 0 and the divisor, on the divisor's side. */
  lemma ModLaw(ar: Arithmetic, c: Core, a: real, b: real) returns (q: int, r: real)
    requires Exact(ar) && b != 0.0
    ensures Gives(ar, Mod, c, [a, b], r) && a == b * q as real + r
    ensures if b > 0.0 then 0.0 <= r < b else b < r <= 0.0
  {
    hide Doing;
    q := (a / b).Floor;
    r := Remainder(a, b);
    DividesOn(ar, Mod, With(c, [a, b]));
    Operands2(c.stack, a, b);
    assert Partial(ar, Mod, c.stack + [a, b]) == Ok(c.stack + [r]) by {
      hide Remainder;
      assert ar.nearest(r) == Some(r);
    }
    RemainderBounds(a, b, a / b, q);
  }

  lemma RemainderBounds(a: real, b: real, x: real, q: int)
    requires b != 0.0 && x == a / b && q == x.Floor
    ensures var r := a - b * q as real;
            if b > 0.0 then 0.0 <= r < b else b < r <= 0.0
  {
    var f := x - q as real;
    QuotientTimes(a, b, x);
    DifferenceTimes(x, q as real, b);
    FractionOf(f, b, f * b);
  }

  lemma QuotientTimes(a: real, b: real, x: real)
    requires b != 0.0 && x == a / b
    ensures x * b == a
  {
  }

  lemma DifferenceTimes(x: real, y: real, b: real)
    ensures (x - y) * b == x * b - b * y
  {
  }

  lemma FractionOf(f: real, b: real, part: real)
    requires 0.0 <= f < 1.0 && b != 0.0 && part == f * b
    ensures if b > 0.0 then 0.0 <= part < b else b < part <= 0.0
  {
    var size := if b > 0.0 then b else -b;
    ProductSign(f, size);
    var rest := 1.0 - f;
    ProductSign(rest, size);
    assert rest * size == size - f * size;
    OppositeProduct(f, b);
  }

  lemma OppositeProduct(x: real, b: real)
    ensures x * b == -(x * -b)
  {
  }

  // ----- three operands -----

  /** CLAMP gives the point of the interval nearest to the value, and fails exactly on an empty interval. */
  lemma ClampLaw(ar: Arithmetic, c: Core, v: real, low: real, high: real) returns (y: real)
    ensures low > high ==> Doing(ar, Clamp, With(c, [v, low, high])) == Err(ClampBounds)
    ensures low <= high ==> Gives(ar, Clamp, c, [v, low, high], y) && low <= y <= high
    ensures low <= high ==> (low <= v <= high ==> y == v) && (v < low ==> y == low) && (v > high ==> y == high)
  {
    hide Doing;
    y := Greater(low, Lesser(high, v));
    Operands3(c.stack, v, low, high);
    ChoosesOn(ar, Clamp, With(c, [v, low, high]));
  }

  /** BETWEEN tells whether CLAMP leaves the value alone; SELECT takes the second operand exactly when the first is true. */
  lemma ChoiceLaws(ar: Arithmetic, c: Core, v: real, low: real, high: real)
    ensures low > high ==> Doing(ar, Between, With(c, [v, low, high])) == Err(BetweenBounds)
    ensures low <= high ==> Tells(ar, Between, c, [v, low, high], Gives(ar, Clamp, c, [v, low, high], v))
    ensures Gives(ar, Select, c, [v, low, high], if v == 0.0 then high else low)
  {
    hide Doing;
    Operands3(c.stack, v, low, high);
    ChoosesOn(ar, Between, With(c, [v, low, high]));
    ChoosesOn(ar, Select, With(c, [v, low, high]));
    if low <= high {
      var y := ClampLaw(ar, c, v, low, high);
      assert With(c, [y]).stack[|c.stack|] == y && With(c, [v]).stack[|c.stack|] == v;
    }
  }

  // ----- memory -----

  lemma StoringStores(ar: Arithmetic, env: Environment, ins: Instruction, c: Core)
    requires ShapeOf(ins.op) == Stores
    ensures Perform(ar, env, ins, c) == Store(ins, c)
  {
    hide Store;
  }

  lemma LoadingPushes(ar: Arithmetic, env: Environment, ins: Instruction, c: Core)
    requires ShapeOf(ins.op) == Produces && Source(ar, env, ins, c).Ok?
    ensures Perform(ar, env, ins, c) == Ok(With(c, [Source(ar, env, ins, c).value]))
  {
    hide Source;
  }

  /** A register gives back what was stored, and storing touches no other register and nothing else. */
  lemma RegisterLaws(ar: Arithmetic, env: Environment, c: Core, v: real, i: nat, j: nat) returns (stored: Core)
    requires i < |c.locals| && j < |c.locals|
    ensures Perform(ar, env, Instruction(StoreLocal, IntArg(i)), With(c, [v])) == Ok(stored) && stored == c.(locals := c.locals[i := v])
    ensures Perform(ar, env, Instruction(LoadLocal, IntArg(j)), stored) == Ok(With(stored, [if i == j then v else c.locals[j]]))
  {
    hide Perform, FloatConvertible, RoundHalfEven, ClampInt;
    stored := c.(locals := c.locals[i := v]);
    Operands1(c.stack, v);
    StoringStores(ar, env, Instruction(StoreLocal, IntArg(i)), With(c, [v]));
    LoadingPushes(ar, env, Instruction(LoadLocal, IntArg(j)), stored);
  }

  /** Each output's LOAD and STORE. */
  predicate Reloads(load: Op, store: Op) {
    || (load == LoadScore && store == StoreScore) || (load == LoadSeverity && store == StoreSeverity)
    || (load == LoadRoute && store == StoreRoute) || (load == LoadSuppress && store == StoreSuppress)
  }

  /** Storing an output that was just loaded changes nothing. */
  lemma ReloadLaw(ar: Arithmetic, load: Op, store: Op, c: Core) returns (v: real)
    requires Reloads(load, store) && 0 <= c.score <= 100 && 0 <= c.severity <= 9 && 0 <= c.route <= 255
    ensures Doing(ar, load, c) == Ok(With(c, [v])) && Doing(ar, store, With(c, [v])) == Ok(c)
  {
    hide Perform, Store, Source;
    var loading, storing := Instruction(load, NoArg), Instruction(store, NoArg);
    v := LoadedStores(ar, loading, storing, c);
    LoadingPushes(ar, map[], loading, c);
    StoringStores(ar, map[], storing, With(c, [v]));
  }

  lemma LoadedStores(ar: Arithmetic, loading: Instruction, storing: Instruction, c: Core) returns (v: real)
    requires Reloads(loading.op, storing.op) && 0 <= c.score <= 100 && 0 <= c.severity <= 9 && 0 <= c.route <= 255
    ensures Source(ar, map[], loading, c) == Ok(v) && Store(storing, With(c, [v])) == Ok(c)
  {
    hide Store, RoundHalfEven, FloatConvertible;
    v := Source(ar, map[], loading, c).value;
    Operands1(c.stack, v);
    if loading.op == LoadSuppress {
      StoresTruth(storing, c);
    } else {
      IntegersRound(c.score);
      IntegersRound(c.severity);
      IntegersRound(c.route);
      StoresRounded(storing, c, v);
    }
  }

  lemma StoresTruth(storing: Instruction, c: Core)
    requires storing.op == StoreSuppress && Pop(c.stack + [Truth(c.suppressed)]) == Ok((Truth(c.suppressed), c.stack))
    ensures Store(storing, With(c, [Truth(c.suppressed)])) == Ok(c)
  {
    hide Pop;
    assert c.(stack := c.stack) == c;
  }

  /** A number that rounds to what the output holds is stored without a change. */
  lemma StoresRounded(storing: Instruction, c: Core, v: real)
    requires 0 <= c.score <= 100 && 0 <= c.severity <= 9 && 0 <= c.route <= 255 && Pop(c.stack + [v]) == Ok((v, c.stack))
    requires || (storing.op == StoreScore && RoundHalfEven(v) == c.score) || (storing.op == StoreSeverity && RoundHalfEven(v) == c.severity)
             || (storing.op == StoreRoute && RoundHalfEven(v) == c.route)
    ensures Store(storing, With(c, [v])) == Ok(c)
  {
    hide Pop, RoundHalfEven;
    assert c.(stack := c.stack) == c;
  }

  /** STACK_DEPTH counts the cells below it; NOP does nothing. */
  lemma DepthLaw(ar: Arithmetic, c: Core)
    ensures Gives(ar, StackDepth, c, [], |c.stack| as real)
    ensures Doing(ar, Nop, c) == Ok(c)
  {
    assert With(c, []) == c;
  }
}
