/**
 Rules by which a program may be shortened or simplified, each justified by the laws of the operations, and
 the theorem that using them, anywhere and any number of times, changes neither what a program computes nor
 how it fails.
 */
module VelatoRules {
  import opened Outcomes
  import opened VelatoIr
  import opened VelatoAnalyzer
  import opened VelatoMachine
  import opened VelatoSafety
  import opened VelatoLibrary
  import opened VelatoLaws
  import opened VelatoRewriting

  datatype Rule =
    | NoOperation                                // NOP => nothing
    | DepthDropped                               // STACK_DEPTH DROP => nothing
    | SwapTwice                                  // SWAP SWAP => nothing
    | OverDropped                                // OVER DROP => nothing
    | DupDropped                                 // DUP DROP => nothing
    | NegTwice                                   // NEG NEG => nothing
    | Reloaded(load: Op, store: Op)              // LOAD_x STORE_x => nothing
    | ZeroIsNot                                  // IS_ZERO => NOT
    | Mirrored(op: Op)                           // SWAP LT => GT and the like
    | Opposed(op: Op)                            // LT NOT => GTE and the like
    | RoundedTwice(first: Op, second: Op)        // FLOOR ROUND => FLOOR and the like
    | DeMorgan                                   // NOT SWAP NOT OR => AND NOT
    | Kept(register: int)                        // DUP STORE_LOCAL => STORE_LOCAL LOAD_LOCAL
    | ClampedTwice(low: real, high: real)        // clamping to one interval twice => once
    | ClampedBetween(low: real, high: real)      // asking whether a clamped value is in its interval => 1
    | AddedAndTaken(v: real)                     // adding and subtracting one constant => nothing
    | ModTwice(m: real)                          // the remainder by one constant twice => once
    | MultipliedAndDivided(v: real)              // multiplying and dividing by one constant => nothing
    | SquaredPower                               // the power of two => DUP MUL
    | FirstPower                                 // the power of one => nothing
    | SquareRooted                               // DUP MUL SQRT => ABS

  /** SWAP before the operation is the operation this gives. */
  function Mirror(op: Op): Op {
    match op
    case Lt => Gt case Gt => Lt case Lte => Gte case Gte => Lte case _ => op
  }

  function Opposite(op: Op): Op {
    match op
    case Lt => Gte case Gte => Lt case Gt => Lte case Lte => Gt case Eq => Ne case _ => Eq
  }

  /** The second power is the square, the first power the number, and the root of a square its magnitude. */
  ghost predicate Squares(ar: Arithmetic) {
    forall x :: ar.power(x, 2.0) == Some(x * x)
  }

  ghost predicate KeepsFirstPowers(ar: Arithmetic) {
    forall x :: ar.power(x, 1.0) == Some(x)
  }

  ghost predicate RootsSquares(ar: Arithmetic) {
    forall x: real :: ar.root(x * x) == Size(x)
  }

  function Size(x: real): real {
    if x < 0.0 then -x else x
  }

  /** When a rule may be used; the last six ask something of the arithmetic. */
  ghost predicate Applies(ar: Arithmetic, rule: Rule) {
    match rule
    case Reloaded(load, store) => Reloads(load, store)
    case Mirrored(op) => op in {Lt, Gt, Lte, Gte, Eq, Ne, Min, Max, And, Or, Xor, Add, Mul}
    case Opposed(op) => op in {Lt, Gt, Lte, Gte, Eq, Ne}
    case RoundedTwice(first, second) => first in {Floor, Ceil, Round} && second in {Floor, Ceil, Round}
    case Kept(register) => 0 <= register < MAX_LOCALS
    case ClampedTwice(low, high) => low <= high
    case ClampedBetween(low, high) => low <= high
    case AddedAndTaken(_) => Exact(ar)
    case ModTwice(m) => Exact(ar) && m != 0.0
    case MultipliedAndDivided(v) => Exact(ar) && v != 0.0
    case SquaredPower => Exact(ar) && Squares(ar)
    case FirstPower => KeepsFirstPowers(ar)
    case SquareRooted => Exact(ar) && RootsSquares(ar)
    case _ => true
  }

  function Plain(op: Op): Instruction {
    Instruction(op, NoArg)
  }

  function Constant(v: real): Instruction {
    Instruction(PushConst, FloatArg(v))
  }

  function Bounded(low: real, high: real, op: Op): seq<Instruction> {
    [Constant(low)] + [Constant(high)] + [Plain(op)]
  }

  function Before(rule: Rule): seq<Instruction> {
    match rule
    case NoOperation => [Plain(Nop)]
    case DepthDropped => [Plain(StackDepth)] + [Plain(Drop)]
    case SwapTwice => [Plain(Swap)] + [Plain(Swap)]
    case OverDropped => [Plain(Over)] + [Plain(Drop)]
    case DupDropped => [Plain(Dup)] + [Plain(Drop)]
    case NegTwice => [Plain(Neg)] + [Plain(Neg)]
    case Reloaded(load, store) => [Plain(load)] + [Plain(store)]
    case ZeroIsNot => [Plain(IsZero)]
    case Mirrored(op) => [Plain(Swap)] + [Plain(op)]
    case Opposed(op) => [Plain(op)] + [Plain(Not)]
    case RoundedTwice(first, second) => [Plain(first)] + [Plain(second)]
    case DeMorgan => [Plain(Not)] + [Plain(Swap)] + [Plain(Not)] + [Plain(Or)]
    case Kept(register) => [Plain(Dup)] + [Instruction(StoreLocal, IntArg(register))]
    case ClampedTwice(low, high) => Bounded(low, high, Clamp) + Bounded(low, high, Clamp)
    case ClampedBetween(low, high) => Bounded(low, high, Clamp) + Bounded(low, high, Between)
    case AddedAndTaken(v) => [Constant(v)] + [Plain(Add)] + [Constant(v)] + [Plain(Sub)]
    case ModTwice(m) => [Constant(m)] + [Plain(Mod)] + [Constant(m)] + [Plain(Mod)]
    case MultipliedAndDivided(v) => [Constant(v)] + [Plain(Mul)] + [Constant(v)] + [Plain(Div)]
    case SquaredPower => [Constant(2.0)] + [Plain(Pow)]
    case FirstPower => [Constant(1.0)] + [Plain(Pow)]
    case SquareRooted => [Plain(Dup)] + [Plain(Mul)] + [Plain(Sqrt)]
  }

  function After(rule: Rule): seq<Instruction> {
    match rule
    case NoOperation | DepthDropped | SwapTwice | OverDropped | DupDropped | NegTwice | Reloaded(_, _) => []
    case AddedAndTaken(_) | MultipliedAndDivided(_) | FirstPower => []
    case ZeroIsNot => [Plain(Not)]
    case Mirrored(op) => [Plain(Mirror(op))]
    case Opposed(op) => [Plain(Opposite(op))]
    case RoundedTwice(first, _) => [Plain(first)]
    case DeMorgan => [Plain(And)] + [Plain(Not)]
    case Kept(register) => [Instruction(StoreLocal, IntArg(register))] + [Instruction(LoadLocal, IntArg(register))]
    case ClampedTwice(low, high) => Bounded(low, high, Clamp)
    case ClampedBetween(_, _) => [Plain(Drop)] + [Constant(1.0)]
    case ModTwice(m) => [Constant(m)] + [Plain(Mod)]
    case SquaredPower => [Plain(Dup)] + [Plain(Mul)]
    case SquareRooted => [Plain(Abs)]
  }

  /** The cells a rule's code works on. */
  function Need(rule: Rule): nat {
    match rule
    case NoOperation | DepthDropped | Reloaded(_, _) => 0
    case SwapTwice | OverDropped | Mirrored(_) | Opposed(_) | DeMorgan => 2
    case _ => 1
  }

  // ----- short pieces of code -----

  lemma AnyEnvironment(ar: Arithmetic, env: Environment, ins: Instruction, c: Core)
    requires ins.op != LoadInput
    ensures Perform(ar, env, ins, c) == Perform(ar, map[], ins, c)
  {
    hide Perform;
    PerformReadsOnly(ar, env, map[], ins, c);
  }

  /** One more instruction behind code that ends in d. */
  lemma DoNext(ar: Arithmetic, env: Environment, code: seq<Instruction>, ins: Instruction, c: Core, d: Core)
    requires Do(ar, env, code, c) == Ok(d) && ins.op != LoadInput
    ensures Do(ar, env, code + [ins], c) == Perform(ar, map[], ins, d)
  {
    hide Perform;
    assert (code + [ins])[..|code + [ins]| - 1] == code;
    AnyEnvironment(ar, env, ins, d);
  }

  lemma DoNothing(ar: Arithmetic, env: Environment, c: Core)
    ensures Do(ar, env, [], c) == Ok(c)
  {
  }

  lemma DoOne(ar: Arithmetic, env: Environment, i: Instruction, c: Core)
    requires i.op != LoadInput
    ensures Do(ar, env, [i], c) == Perform(ar, map[], i, c)
  {
    hide Perform, Do;
    DoNothing(ar, env, c);
    DoNext(ar, env, [], i, c, c);
    assert [] + [i] == [i];
  }

  lemma DoTwo(ar: Arithmetic, env: Environment, i: Instruction, j: Instruction, c: Core, d: Core)
    requires i.op != LoadInput && j.op != LoadInput && Perform(ar, map[], i, c) == Ok(d)
    ensures Do(ar, env, [i] + [j], c) == Perform(ar, map[], j, d)
  {
    hide Perform, Do;
    DoOne(ar, env, i, c);
    DoNext(ar, env, [i], j, c, d);
  }

  lemma DoFour(ar: Arithmetic, env: Environment, i: Instruction, j: Instruction, k: Instruction, l: Instruction, c: Core, d: Core, e: Core, f: Core)
    requires i.op != LoadInput && j.op != LoadInput && k.op != LoadInput && l.op != LoadInput
    requires Perform(ar, map[], i, c) == Ok(d) && Perform(ar, map[], j, d) == Ok(e) && Perform(ar, map[], k, e) == Ok(f)
    ensures Do(ar, env, [i] + [j] + [k] + [l], c) == Perform(ar, map[], l, f)
  {
    hide Perform, Do;
    DoTwo(ar, env, i, j, c, d);
    DoNext(ar, env, [i] + [j], k, c, e);
    DoNext(ar, env, [i] + [j] + [k], l, c, f);
  }

  lemma TopOne(c: Core) returns (base: Core, a: real)
    requires |c.stack| >= 1
    ensures c == With(base, [a]) && base == c.(stack := base.stack)
  {
    base, a := c.(stack := c.stack[..|c.stack| - 1]), c.stack[|c.stack| - 1];
  }

  lemma TopTwo(c: Core) returns (base: Core, a: real, b: real)
    requires |c.stack| >= 2
    ensures c == With(base, [a, b]) && base == c.(stack := base.stack)
  {
    base := c.(stack := c.stack[..|c.stack| - 2]);
    a, b := c.stack[|c.stack| - 2], c.stack[|c.stack| - 1];
  }

  lemma PushGives(ar: Arithmetic, v: real, c: Core)
    ensures Perform(ar, map[], Constant(v), c) == Ok(With(c, [v]))
  {
  }

  // ----- the rules hold in every state -----

  /** The rule's two sides do the same from this state. */
  ghost predicate SameFrom(ar: Arithmetic, env: Environment, rule: Rule, c: Core) {
    Do(ar, env, Before(rule), c) == Do(ar, env, After(rule), c)
  }

  lemma CancelsFrom(ar: Arithmetic, env: Environment, rule: Rule, i: Op, j: Op, c: Core, d: Core)
    requires Before(rule) == [Plain(i)] + [Plain(j)] && After(rule) == [] && i != LoadInput && j != LoadInput
    requires Doing(ar, i, c) == Ok(d) && Doing(ar, j, d) == Ok(c)
    ensures SameFrom(ar, env, rule, c)
  {
    hide Perform, Do, Before, After;
    DoTwo(ar, env, Plain(i), Plain(j), c, d);
    DoNothing(ar, env, c);
  }

  lemma MergesFrom(ar: Arithmetic, env: Environment, rule: Rule, i: Op, j: Op, k: Op, c: Core, d: Core)
    requires Before(rule) == [Plain(i)] + [Plain(j)] && After(rule) == [Plain(k)] && i != LoadInput && j != LoadInput && k != LoadInput
    requires Doing(ar, i, c) == Ok(d) && Doing(ar, j, d) == Doing(ar, k, c)
    ensures SameFrom(ar, env, rule, c)
  {
    hide Perform, Do, Before, After;
    DoTwo(ar, env, Plain(i), Plain(j), c, d);
    DoOne(ar, env, Plain(k), c);
  }

  lemma ShufflesHold(ar: Arithmetic, env: Environment, rule: Rule, c: Core)
    requires rule in {SwapTwice, OverDropped} && |c.stack| >= 2
    ensures SameFrom(ar, env, rule, c)
  {
    hide Doing;
    var base, a, b := TopTwo(c);
    SwapLaws(ar, base, a, b);
    SwapLaws(ar, base, b, a);
    DropLaws(ar, c, a);
    if rule == SwapTwice {
      CancelsFrom(ar, env, rule, Swap, Swap, c, With(base, [b, a]));
    } else {
      CancelsFrom(ar, env, rule, Over, Drop, c, With(c, [a]));
    }
  }

  lemma DupDroppedHolds(ar: Arithmetic, env: Environment, c: Core)
    requires |c.stack| >= 1
    ensures SameFrom(ar, env, DupDropped, c)
  {
    hide Doing;
    var base, v := TopOne(c);
    DropLaws(ar, base, v);
    DropLaws(ar, c, v);
    CancelsFrom(ar, env, DupDropped, Dup, Drop, c, With(c, [v]));
  }

  lemma NegTwiceHolds(ar: Arithmetic, env: Environment, c: Core)
    requires |c.stack| >= 1
    ensures SameFrom(ar, env, NegTwice, c)
  {
    hide Doing;
    var base, v := TopOne(c);
    var s1, z1, w := SignLaws(ar, base, v);
    var s2, z2, u := SignLaws(ar, base, w);
    CancelsFrom(ar, env, NegTwice, Neg, Neg, c, With(base, [w]));
  }

  lemma TopsHold(ar: Arithmetic, env: Environment, rule: Rule, c: Core)
    requires rule in {DupDropped, NegTwice, ZeroIsNot} && |c.stack| >= 1
    ensures SameFrom(ar, env, rule, c)
  {
    hide SameFrom, Doing;
    if rule == DupDropped {
      DupDroppedHolds(ar, env, c);
    } else if rule == NegTwice {
      NegTwiceHolds(ar, env, c);
    } else {
      var base, v := TopOne(c);
      ZeroLaws(ar, base, v);
      ZeroIsNotFrom(ar, env, c);
    }
  }

  lemma ZeroIsNotFrom(ar: Arithmetic, env: Environment, c: Core)
    requires Doing(ar, IsZero, c) == Doing(ar, Not, c)
    ensures SameFrom(ar, env, ZeroIsNot, c)
  {
    hide Perform, Do;
    DoOne(ar, env, Plain(IsZero), c);
    DoOne(ar, env, Plain(Not), c);
  }

  lemma DroppedHold(ar: Arithmetic, env: Environment, rule: Rule, c: Core)
    requires rule in {NoOperation, DepthDropped}
    ensures SameFrom(ar, env, rule, c)
  {
    hide Perform, Doing, Do;
    DepthLaw(ar, c);
    DropLaws(ar, c, |c.stack| as real);
    assert With(c, []) == c;
    if rule == DepthDropped {
      CancelsFrom(ar, env, rule, StackDepth, Drop, c, With(c, [|c.stack| as real]));
    } else {
      NoOperationFrom(ar, env, c);
    }
  }

  lemma NoOperationFrom(ar: Arithmetic, env: Environment, c: Core)
    requires Doing(ar, Nop, c) == Ok(c)
    ensures SameFrom(ar, env, NoOperation, c)
  {
    hide Perform, Do;
    DoOne(ar, env, Plain(Nop), c);
    DoNothing(ar, env, c);
  }

  lemma ReloadHolds(ar: Arithmetic, env: Environment, load: Op, store: Op, c: Core)
    requires Applies(ar, Reloaded(load, store)) && InRange(c)
    ensures SameFrom(ar, env, Reloaded(load, store), c)
  {
    assert load != LoadInput && store != LoadInput;
    assert Before(Reloaded(load, store)) == [Plain(load)] + [Plain(store)] && After(Reloaded(load, store)) == [];
    hide Doing, Reloads, SameFrom, Before, After;
    var v := ReloadLaw(ar, load, store, c);
    CancelsFrom(ar, env, Reloaded(load, store), load, store, c, With(c, [v]));
  }

  /** What a binary operation gives, with its operands exchanged. */
  lemma MirrorGives(ar: Arithmetic, op: Op, c: Core, a: real, b: real)
    requires Applies(ar, Mirrored(op))
    ensures Doing(ar, op, With(c, [b, a])) == Doing(ar, Mirror(op), With(c, [a, b]))
  {
    hide Doing, Perform;
    if op in {Lt, Gt, Lte, Gte} {
      ComparisonLaws(ar, c, a, b);
      ComparisonLaws(ar, c, b, a);
    } else if op in {Eq, Ne} {
      EqualityLaws(ar, c, a, b);
      EqualityLaws(ar, c, b, a);
    } else if op in {Min, Max} {
      var l1, h1 := MinMaxLaws(ar, c, a, b);
      var l2, h2 := MinMaxLaws(ar, c, b, a);
    } else if op in {And, Or, Xor} {
      ConnectivesCommute(ar, op, c, a, b);
    } else {
      SumsCommute(ar, op, c, a, b);
    }
  }

  lemma ConnectivesCommute(ar: Arithmetic, op: Op, c: Core, a: real, b: real)
    requires op in {And, Or, Xor}
    ensures Doing(ar, op, With(c, [b, a])) == Doing(ar, op, With(c, [a, b]))
  {
    hide Doing, Perform;
    CombinesOn(ar, op, c, a, b);
    CombinesOn(ar, op, c, b, a);
  }

  /** Rounded or not, and finite or not, sums and products do not depend on the order of their operands. */
  lemma SumsCommute(ar: Arithmetic, op: Op, c: Core, a: real, b: real)
    requires op in {Add, Mul}
    ensures Doing(ar, op, With(c, [b, a])) == Doing(ar, op, With(c, [a, b]))
  {
    hide Doing, Push;
    PushesValue(ar, op, c, a, b);
    PushesValue(ar, op, c, b, a);
    assert a + b == b + a && a * b == b * a;
  }

  lemma MirrorHolds(ar: Arithmetic, env: Environment, op: Op, c: Core)
    requires Applies(ar, Mirrored(op)) && |c.stack| >= 2
    ensures SameFrom(ar, env, Mirrored(op), c)
  {
    hide Doing;
    var base, a, b := TopTwo(c);
    SwapLaws(ar, base, a, b);
    MirrorGives(ar, op, base, a, b);
    MergesFrom(ar, env, Mirrored(op), Swap, op, Mirror(op), c, With(base, [b, a]));
  }

  lemma OppositeTells(ar: Arithmetic, op: Op, c: Core, a: real, b: real) returns (holds: bool)
    requires Applies(ar, Opposed(op))
    ensures Tells(ar, op, c, [a, b], holds) && Tells(ar, Opposite(op), c, [a, b], !holds)
  {
    hide Tells;
    ComparisonLaws(ar, c, a, b);
    EqualityLaws(ar, c, a, b);
    holds := match op
             case Lt => a < b
             case Gte => !(a < b)
             case Gt => b < a
             case Lte => !(b < a)
             case Eq => !(a < b) && !(b < a)
             case _ => a < b || b < a;
  }

  /** NOT after a comparison that told b. */
  lemma NotOfTold(ar: Arithmetic, op: Op, opposite: Op, base: Core, a: real, b: real, holds: bool, v: real)
    requires v == Truth(holds) && Tells(ar, op, base, [a, b], holds) && Tells(ar, opposite, base, [a, b], !holds)
    ensures Doing(ar, op, With(base, [a, b])) == Ok(With(base, [v]))
    ensures Doing(ar, Not, With(base, [v])) == Doing(ar, opposite, With(base, [a, b]))
  {
    hide Doing;
    ZeroLaws(ar, base, v);
  }

  lemma OppositeHolds(ar: Arithmetic, env: Environment, op: Op, c: Core)
    requires Applies(ar, Opposed(op)) && |c.stack| >= 2
    ensures SameFrom(ar, env, Opposed(op), c)
  {
    hide Doing, Opposite, Gives, SameFrom;
    var base, a, b := TopTwo(c);
    var holds := OppositeTells(ar, op, base, a, b);
    NotOfTold(ar, op, Opposite(op), base, a, b, holds, Truth(holds));
    assert Opposite(op) in {Lt, Gt, Lte, Gte, Eq, Ne} by { OppositeCompares(op); }
    MergesFrom(ar, env, Opposed(op), op, Not, Opposite(op), c, With(base, [Truth(holds)]));
  }

  lemma OppositeCompares(op: Op)
    ensures Opposite(op) in {Lt, Gt, Lte, Gte, Eq, Ne}
  {
  }

  /** Rounding a whole number, in any way, leaves it as it is. */
  lemma WholeStays(ar: Arithmetic, second: Op, c: Core, n: int)
    requires second in {Floor, Ceil, Round}
    ensures Gives(ar, second, c, [n as real], n as real)
  {
    hide Gives;
    var low, high, near := RoundingLaws(ar, c, n as real);
    OnlyWhole(n, low);
    OnlyWhole(n, high);
    OnlyWhole(n, near);
  }

  lemma OnlyWhole(n: int, m: int)
    ensures -1.0 < n as real - m as real < 1.0 ==> n == m
  {
    assert n as real - m as real == (n - m) as real;
  }

  lemma RoundedTwiceHolds(ar: Arithmetic, env: Environment, first: Op, second: Op, c: Core)
    requires Applies(ar, RoundedTwice(first, second)) && |c.stack| >= 1
    ensures SameFrom(ar, env, RoundedTwice(first, second), c)
  {
    hide Doing;
    var base, v := TopOne(c);
    var low, high, near := RoundingLaws(ar, base, v);
    var n := if first == Floor then low else if first == Ceil then high else near;
    WholeStays(ar, second, base, n);
    MergesFrom(ar, env, RoundedTwice(first, second), first, second, first, c, With(base, [n as real]));
  }

  lemma DeMorganHolds(ar: Arithmetic, env: Environment, c: Core)
    requires |c.stack| >= 2
    ensures SameFrom(ar, env, DeMorgan, c)
  {
    hide Doing, Perform, Do;
    var base, a, b := TopTwo(c);
    var notA, notB := Truth(a == 0.0), Truth(b == 0.0);
    var both, some := ConnectiveLaws(ar, base, a, b);
    var swappedBoth, swappedSome := ConnectiveLaws(ar, base, b, a);
    ZeroLaws(ar, With(base, [a]), b);
    SwapLaws(ar, base, a, notB);
    ZeroLaws(ar, With(base, [notB]), a);
    ZeroLaws(ar, base, if both then 1.0 else 0.0);
    WithTwo(base, a, b);
    WithTwo(base, a, notB);
    WithTwo(base, notB, a);
    WithTwo(base, notB, notA);
    DeMorganFrom(ar, env, c, With(base, [a, notB]), With(base, [notB, a]), With(base, [notB, notA]), With(base, [Truth(both)]));
  }

  lemma WithTwo(c: Core, a: real, b: real)
    ensures With(With(c, [a]), [b]) == With(c, [a, b])
  {
    assert c.stack + [a] + [b] == c.stack + [a, b];
  }

  lemma DeMorganFrom(ar: Arithmetic, env: Environment, c: Core, d: Core, e: Core, f: Core, g: Core)
    requires Doing(ar, Not, c) == Ok(d) && Doing(ar, Swap, d) == Ok(e) && Doing(ar, Not, e) == Ok(f)
    requires Doing(ar, And, c) == Ok(g) && Doing(ar, Not, g) == Doing(ar, Or, f)
    ensures SameFrom(ar, env, DeMorgan, c)
  {
    hide Perform, Do;
    DoFour(ar, env, Plain(Not), Plain(Swap), Plain(Not), Plain(Or), c, d, e, f);
    DoTwo(ar, env, Plain(And), Plain(Not), c, g);
  }

  lemma KeptHolds(ar: Arithmetic, env: Environment, register: nat, c: Core)
    requires register < MAX_LOCALS && |c.stack| >= 1 && InRange(c)
    ensures SameFrom(ar, env, Kept(register), c)
  {
    hide Perform, Do;
    var base, v := TopOne(c);
    DropLaws(ar, base, v);
    var store, load := Instruction(StoreLocal, IntArg(register)), Instruction(LoadLocal, IntArg(register));
    var kept := RegisterLaws(ar, map[], c, v, register, register);
    var stored := RegisterLaws(ar, map[], base, v, register, register);
    DoTwo(ar, env, Plain(Dup), store, c, With(c, [v]));
    DoTwo(ar, env, store, load, c, stored);
    StoredAlike(ar, base, v, register, kept, stored);
  }

  lemma StoredAlike(ar: Arithmetic, base: Core, v: real, register: nat, kept: Core, stored: Core)
    requires register < |base.locals|
    requires Perform(ar, map[], Instruction(StoreLocal, IntArg(register)), With(With(base, [v]), [v])) == Ok(kept)
    requires Perform(ar, map[], Instruction(StoreLocal, IntArg(register)), With(base, [v])) == Ok(stored)
    ensures kept == With(stored, [v])
  {
    hide Perform, RoundHalfEven, ClampInt;
    var store := Instruction(StoreLocal, IntArg(register));
    StoringStores(ar, map[], store, With(With(base, [v]), [v]));
    StoringStores(ar, map[], store, With(base, [v]));
    Operands1(base.stack, v);
    Operands1(base.stack + [v], v);
  }

  /** Pushing two bounds and testing or clamping against them. */
  lemma DoBounded(ar: Arithmetic, env: Environment, code: seq<Instruction>, low: real, high: real, op: Op, c: Core, base: Core, v: real)
    requires op != LoadInput && Do(ar, env, code, c) == Ok(With(base, [v]))
    ensures Do(ar, env, code + Bounded(low, high, op), c) == Doing(ar, op, With(base, [v, low, high]))
  {
    hide Perform, Do;
    var d := With(base, [v]);
    PushGives(ar, low, d);
    PushGives(ar, high, With(d, [low]));
    DoNext(ar, env, code, Constant(low), c, d);
    DoNext(ar, env, code + [Constant(low)], Constant(high), c, With(d, [low]));
    DoNext(ar, env, code + [Constant(low)] + [Constant(high)], Plain(op), c, With(With(d, [low]), [high]));
    assert base.stack + [v] + [low] + [high] == base.stack + [v, low, high];
    assert code + Bounded(low, high, op) == code + [Constant(low)] + [Constant(high)] + [Plain(op)];
  }

  lemma ClampedTwiceHolds(ar: Arithmetic, env: Environment, low: real, high: real, c: Core)
    requires low <= high && |c.stack| >= 1
    ensures SameFrom(ar, env, ClampedTwice(low, high), c)
  {
    hide Perform, Do, Doing, Bounded;
    var base, v := TopOne(c);
    var y := ClampLaw(ar, base, v, low, high);
    var z := ClampLaw(ar, base, y, low, high);
    DoNothing(ar, env, c);
    DoBounded(ar, env, [], low, high, Clamp, c, base, v);
    assert [] + Bounded(low, high, Clamp) == Bounded(low, high, Clamp);
    DoBounded(ar, env, Bounded(low, high, Clamp), low, high, Clamp, c, base, y);
  }

  lemma ClampedBetweenHolds(ar: Arithmetic, env: Environment, low: real, high: real, c: Core)
    requires low <= high && |c.stack| >= 1
    ensures SameFrom(ar, env, ClampedBetween(low, high), c)
  {
    hide Perform, Do, Doing, Bounded;
    var base, v := TopOne(c);
    var y := ClampLaw(ar, base, v, low, high);
    var z := ClampLaw(ar, base, y, low, high);
    ChoiceLaws(ar, base, y, low, high);
    DoNothing(ar, env, c);
    DoBounded(ar, env, [], low, high, Clamp, c, base, v);
    assert [] + Bounded(low, high, Clamp) == Bounded(low, high, Clamp);
    DoBounded(ar, env, Bounded(low, high, Clamp), low, high, Between, c, base, y);
    DropThenOne(ar, env, base, v);
  }

  lemma DropThenOne(ar: Arithmetic, env: Environment, base: Core, v: real)
    ensures Do(ar, env, [Plain(Drop)] + [Constant(1.0)], With(base, [v])) == Ok(With(base, [1.0]))
  {
    hide Perform, Do, Doing;
    DropLaws(ar, base, v);
    DoesDrop(ar, base, v);
    DoTwo(ar, env, Plain(Drop), Constant(1.0), With(base, [v]), base);
    PushGives(ar, 1.0, base);
  }

  lemma DoesDrop(ar: Arithmetic, base: Core, v: real)
    requires Doing(ar, Drop, With(base, [v])) == Ok(base)
    ensures Perform(ar, map[], Plain(Drop), With(base, [v])) == Ok(base)
  {
  }

  lemma AddedAndTakenHolds(ar: Arithmetic, env: Environment, v: real, c: Core)
    requires Exact(ar) && |c.stack| >= 1
    ensures SameFrom(ar, env, AddedAndTaken(v), c)
  {
    hide Perform, Do;
    var base, a := TopOne(c);
    var sum := With(base, [a + v]);
    InverseLaws(ar, base, a, v);
    PushGives(ar, v, c);
    PushGives(ar, v, sum);
    WithTwo(base, a, v);
    WithTwo(base, a + v, v);
    DoFour(ar, env, Constant(v), Plain(Add), Constant(v), Plain(Sub), c, With(base, [a, v]), sum, With(base, [a + v, v]));
    DoNothing(ar, env, c);
  }

  lemma MultipliedAndDividedHolds(ar: Arithmetic, env: Environment, v: real, c: Core)
    requires Exact(ar) && v != 0.0 && |c.stack| >= 1
    ensures SameFrom(ar, env, MultipliedAndDivided(v), c)
  {
    hide Perform, Do;
    var base, a := TopOne(c);
    var product := With(base, [a * v]);
    InverseLaws(ar, base, a, v);
    PushGives(ar, v, c);
    PushGives(ar, v, product);
    WithTwo(base, a, v);
    WithTwo(base, a * v, v);
    DoFour(ar, env, Constant(v), Plain(Mul), Constant(v), Plain(Div), c, With(base, [a, v]), product, With(base, [a * v, v]));
    DoNothing(ar, env, c);
  }

  lemma SquaredPowerHolds(ar: Arithmetic, env: Environment, c: Core)
    requires Exact(ar) && Squares(ar) && |c.stack| >= 1
    ensures SameFrom(ar, env, SquaredPower, c)
  {
    hide Perform, Do, Exact;
    var base, a := TopOne(c);
    PushGives(ar, 2.0, c);
    WithTwo(base, a, 2.0);
    PowLaw(ar, base, a, 2.0);
    DropLaws(ar, base, a);
    WithTwo(base, a, a);
    InverseLaws(ar, base, a, a);
    DoTwo(ar, env, Constant(2.0), Plain(Pow), c, With(base, [a, 2.0]));
    DoTwo(ar, env, Plain(Dup), Plain(Mul), c, With(base, [a, a]));
  }

  lemma FirstPowerHolds(ar: Arithmetic, env: Environment, c: Core)
    requires KeepsFirstPowers(ar) && |c.stack| >= 1
    ensures SameFrom(ar, env, FirstPower, c)
  {
    hide Perform, Do;
    var base, a := TopOne(c);
    PushGives(ar, 1.0, c);
    WithTwo(base, a, 1.0);
    PowLaw(ar, base, a, 1.0);
    DoTwo(ar, env, Constant(1.0), Plain(Pow), c, With(base, [a, 1.0]));
    DoNothing(ar, env, c);
  }

  lemma DoThree(ar: Arithmetic, env: Environment, i: Instruction, j: Instruction, k: Instruction, c: Core, d: Core, e: Core)
    requires i.op != LoadInput && j.op != LoadInput && k.op != LoadInput
    requires Perform(ar, map[], i, c) == Ok(d) && Perform(ar, map[], j, d) == Ok(e)
    ensures Do(ar, env, [i] + [j] + [k], c) == Perform(ar, map[], k, e)
  {
    hide Perform, Do;
    DoTwo(ar, env, i, j, c, d);
    DoNext(ar, env, [i] + [j], k, c, e);
  }

  lemma SquareRootedHolds(ar: Arithmetic, env: Environment, c: Core)
    requires Exact(ar) && RootsSquares(ar) && |c.stack| >= 1
    ensures SameFrom(ar, env, SquareRooted, c)
  {
    hide Perform, Do, Exact;
    var base, a := TopOne(c);
    DropLaws(ar, base, a);
    WithTwo(base, a, a);
    InverseLaws(ar, base, a, a);
    RootLaw(ar, base, a * a);
    SquareIsNotNegative(a);
    AbsGives(ar, base, a);
    DoThree(ar, env, Plain(Dup), Plain(Mul), Plain(Sqrt), c, With(base, [a, a]), With(base, [a * a]));
    DoOne(ar, env, Plain(Abs), c);
  }

  lemma AbsGives(ar: Arithmetic, base: Core, a: real)
    ensures Gives(ar, Abs, base, [a], Size(a))
  {
    hide Gives;
    var sign, size, opposite := SignLaws(ar, base, a);
    SizeIs(a, sign, size);
  }

  lemma SquareIsNotNegative(a: real)
    ensures a * a >= 0.0
  {
  }

  lemma SizeIs(v: real, sign: real, size: real)
    requires sign * size == v && size >= 0.0 && sign in {-1.0, 0.0, 1.0} && (sign == 0.0 ==> size == 0.0)
    ensures size == Size(v)
  {
  }

  lemma ModTwiceHolds(ar: Arithmetic, env: Environment, m: real, c: Core)
    requires Exact(ar) && m != 0.0 && |c.stack| >= 1
    ensures SameFrom(ar, env, ModTwice(m), c)
  {
    hide Perform, Do;
    var base, a := TopOne(c);
    var q, r := ModLaw(ar, base, a, m);
    var q', r' := ModLaw(ar, base, r, m);
    SmallMultiple(m, q', r, r');
    PushGives(ar, m, c);
    PushGives(ar, m, With(base, [r]));
    WithTwo(base, a, m);
    WithTwo(base, r, m);
    DoTwo(ar, env, Constant(m), Plain(Mod), c, With(base, [a, m]));
    DoFour(ar, env, Constant(m), Plain(Mod), Constant(m), Plain(Mod), c, With(base, [a, m]), With(base, [r]), With(base, [r, m]));
  }

  /** Two remainders of one divisor that differ by a whole multiple of it are equal. */
  lemma SmallMultiple(m: real, q: int, r: real, r': real)
    requires m != 0.0 && r == m * q as real + r'
    requires if m > 0.0 then 0.0 <= r < m && 0.0 <= r' < m else m < r <= 0.0 && m < r' <= 0.0
    ensures r == r'
  {
    NoMultipleBetween(m, q as real, m * q as real, r - r');
    assert q == 0;
  }

  lemma NoMultipleBetween(m: real, x: real, product: real, d: real)
    requires m != 0.0 && product == m * x && d == product && (if m > 0.0 then -m < d < m else m < d < -m)
    ensures -1.0 < x < 1.0 && (x == 0.0 ==> d == 0.0)
  {
    var w, e := if m > 0.0 then m else -m, if m > 0.0 then d else -d;
    ScaledProduct(m, x, w, e);
    var scaled := x * w;
    assert -w < scaled < w;
    BelowOne(x, w, scaled);
    BelowOne(-x, w, -scaled);
    if x == 0.0 {
      assert product == m * 0.0;
    }
  }

  lemma ScaledProduct(m: real, x: real, w: real, e: real)
    requires w == (if m > 0.0 then m else -m) && e == (if m > 0.0 then m * x else -(m * x))
    ensures e == x * w
  {
  }

  lemma BelowOne(x: real, w: real, scaled: real)
    requires w > 0.0 && scaled == x * w && scaled < w
    ensures x < 1.0
  {
    var above := x - 1.0;
    ProductSign(above, w);
    assert above * w == x * w - w;
  }

  lemma RuleHolds(ar: Arithmetic, env: Environment, rule: Rule, c: Core)
    requires Applies(ar, rule) && InRange(c) && |c.stack| >= Need(rule)
    ensures SameFrom(ar, env, rule, c)
  {
    hide SameFrom, Exact, Squares, KeepsFirstPowers, RootsSquares;
    match rule {
      case NoOperation | DepthDropped => DroppedHold(ar, env, rule, c);
      case SwapTwice | OverDropped => ShufflesHold(ar, env, rule, c);
      case DupDropped | NegTwice | ZeroIsNot => TopsHold(ar, env, rule, c);
      case Reloaded(load, store) => ReloadHolds(ar, env, load, store, c);
      case Mirrored(op) => MirrorHolds(ar, env, op, c);
      case Opposed(op) => OppositeHolds(ar, env, op, c);
      case RoundedTwice(first, second) => RoundedTwiceHolds(ar, env, first, second, c);
      case DeMorgan => DeMorganHolds(ar, env, c);
      case Kept(register) => KeptHolds(ar, env, register, c);
      case ClampedTwice(low, high) => ClampedTwiceHolds(ar, env, low, high, c);
      case ClampedBetween(low, high) => ClampedBetweenHolds(ar, env, low, high, c);
      case AddedAndTaken(v) => AddedAndTakenHolds(ar, env, v, c);
      case ModTwice(m) => ModTwiceHolds(ar, env, m, c);
      case MultipliedAndDivided(v) => MultipliedAndDividedHolds(ar, env, v, c);
      case SquaredPower => SquaredPowerHolds(ar, env, c);
      case FirstPower => FirstPowerHolds(ar, env, c);
      case SquareRooted => SquareRootedHolds(ar, env, c);
    }
  }

  // ----- the rules never ask for more -----

  /** The depths along a piece of code. */
  predicate IsProfile(code: seq<Instruction>, ds: seq<int>) {
    && |ds| == |code| + 1 && ds[0] == 0
    && forall k :: 0 <= k < |code| ==> ds[k + 1] == ds[k] - Pops(code[k].op) + Pushes(code[k].op)
  }

  lemma {:induction false} ProfileIsDepths(code: seq<Instruction>, ds: seq<int>, k: nat)
    requires IsProfile(code, ds) && k <= |code|
    ensures DepthAt(code, k) == ds[k]
  {
    hide StackEffect;
    if k > 0 {
      ProfileIsDepths(code, ds, k - 1);
    }
  }

  /** The code runs through the depths ds and has to be given at least `need` cells. */
  ghost predicate Asks(code: seq<Instruction>, ds: seq<int>, need: nat, at: nat) {
    NoHalt(code) && IsProfile(code, ds) && at < |code| && Pops(code[at].op) - ds[at] >= need
  }

  /** The code runs through the depths es, needs no more than `need` cells and rises no further than `top`. */
  ghost predicate Fits(code: seq<Instruction>, es: seq<int>, need: nat, top: int) {
    && NoHalt(code) && IsProfile(code, es)
    && (forall k :: 0 <= k < |code| ==> ValidOperand(code[k]) && Pops(code[k].op) <= need + es[k])
    && (forall k :: 0 <= k <= |code| ==> 0 <= need + es[k] && es[k] <= top)
  }

  lemma LighterBy(before: seq<Instruction>, after: seq<Instruction>, need: nat, ds: seq<int>, es: seq<int>, at: nat, top: nat)
    requires Asks(before, ds, need, at) && top <= |before| && Fits(after, es, need, ds[top])
    requires |after| <= |before| && es[|after|] == ds[|before|]
    ensures Lighter(before, after, need)
  {
    hide StackEffect, DepthAt, PeakAt, ValidOperand;
    assert |es| == |after| + 1;
    hide IsProfile;
    ProfileIsDepths(before, ds, |before|);
    ProfileIsDepths(before, ds, at);
    ProfileIsDepths(before, ds, top);
    PeakIsLargestDepth(before, |before|);
    forall k | 0 <= k <= |after|
      ensures DepthAt(after, k) == es[k]
    {
      ProfileIsDepths(after, es, k);
    }
  }

  // ----- what the operations in the rules pop and push -----

  lemma ConnectiveEffects()
    ensures StackEffect(Not) == (1, 1) && StackEffect(Swap) == (2, 2) && StackEffect(Or) == (2, 1) && StackEffect(And) == (2, 1)
  {
  }

  lemma ShuffleEffects()
    ensures StackEffect(Swap) == (2, 2) && StackEffect(Over) == (2, 3) && StackEffect(Dup) == (1, 2) && StackEffect(Drop) == (1, 0)
  {
  }

  lemma RegisterEffects()
    ensures StackEffect(StoreLocal) == (1, 0) && StackEffect(LoadLocal) == (0, 1)
  {
  }

  lemma ConstantEffects()
    ensures StackEffect(PushConst) == (0, 1) && StackEffect(StackDepth) == (0, 1) && StackEffect(Nop) == (0, 0) && StackEffect(IsZero) == (1, 1)
  {
  }

  lemma IntervalEffects()
    ensures StackEffect(Clamp) == (3, 1) && StackEffect(Between) == (3, 1)
  {
  }

  lemma ArithmeticEffects()
    ensures StackEffect(Add) == (2, 1) && StackEffect(Sub) == (2, 1) && StackEffect(Mod) == (2, 1) && StackEffect(Neg) == (1, 1)
  {
  }

  lemma PlainIsValid(op: Op)
    requires op !in {PushConst, LoadInput, LoadLocal, StoreLocal}
    ensures ValidOperand(Plain(op))
  {
  }

  lemma ConstantIsValid(v: real)
    ensures ValidOperand(Constant(v))
  {
  }

  lemma RegisterIsValid(register: nat)
    requires register < MAX_LOCALS
    ensures ValidOperand(Instruction(StoreLocal, IntArg(register))) && ValidOperand(Instruction(LoadLocal, IntArg(register)))
  {
  }

  lemma CancelIsLighter(i: Op, j: Op, need: nat)
    requires i != Halt && j != Halt && Pops(i) == need && Pushes(i) - Pops(i) + Pushes(j) - Pops(j) == 0
    ensures Lighter([Plain(i)] + [Plain(j)], [], need)
  {
    hide StackEffect, ValidOperand, Lighter;
    var before := [Plain(i)] + [Plain(j)];
    assert before == [Plain(i), Plain(j)];
    LighterBy(before, [], need, [0, Pushes(i) - Pops(i), 0], [0], 0, 0);
  }

  lemma MergeIsLighter(i: Op, j: Op, k: Op, need: nat)
    requires i != Halt && j != Halt && k != Halt && ValidOperand(Plain(k)) && Pops(i) == need && Pops(k) <= need
    requires Pushes(k) - Pops(k) == Pushes(i) - Pops(i) + Pushes(j) - Pops(j) <= 0
    ensures Lighter([Plain(i)] + [Plain(j)], [Plain(k)], need)
  {
    hide StackEffect, ValidOperand, Lighter;
    var before, net := [Plain(i)] + [Plain(j)], Pushes(k) - Pops(k);
    assert before == [Plain(i), Plain(j)];
    LighterBy(before, [Plain(k)], need, [0, Pushes(i) - Pops(i), net], [0, net], 0, 0);
  }

  lemma OneIsLighter(i: Op, after: seq<Instruction>)
    requires (i == Nop && after == []) || (i == IsZero && after == [Plain(Not)])
    ensures Lighter([Plain(i)], after, Pops(i))
  {
    hide StackEffect, ValidOperand, Lighter;
    ConstantEffects();
    ConnectiveEffects();
    PlainIsValid(Not);
    LighterBy([Plain(i)], after, Pops(i), [0, 0], if i == Nop then [0] else [0, 0], 0, 0);
  }

  lemma DeMorganAsks()
    ensures Asks([Plain(Not), Plain(Swap), Plain(Not), Plain(Or)], [0, 0, 0, 0, -1], 2, 1)
  {
    hide StackEffect;
    ConnectiveEffects();
  }

  lemma DeMorganFits()
    ensures Fits([Plain(And), Plain(Not)], [0, -1, -1], 2, 0)
  {
    hide StackEffect, ValidOperand;
    ConnectiveEffects();
    PlainIsValid(And);
    PlainIsValid(Not);
  }

  lemma DeMorganIsLighter()
    ensures Lighter(Before(DeMorgan), After(DeMorgan), 2)
  {
    hide Asks, Fits, Lighter;
    var before, after := [Plain(Not), Plain(Swap), Plain(Not), Plain(Or)], [Plain(And), Plain(Not)];
    assert Before(DeMorgan) == before && After(DeMorgan) == after;
    DeMorganAsks();
    DeMorganFits();
    LighterBy(before, after, 2, [0, 0, 0, 0, -1], [0, -1, -1], 1, 0);
  }

  lemma KeptAsks(store: Instruction)
    requires store.op == StoreLocal
    ensures Asks([Plain(Dup), store], [0, 1, 0], 1, 0)
  {
    hide StackEffect;
    ShuffleEffects();
    RegisterEffects();
  }

  lemma KeptFits(store: Instruction, load: Instruction)
    requires store.op == StoreLocal && load.op == LoadLocal && ValidOperand(store) && ValidOperand(load)
    ensures Fits([store, load], [0, -1, 0], 1, 0)
  {
    hide StackEffect, ValidOperand;
    RegisterEffects();
  }

  lemma KeptIsLighter(register: nat)
    requires register < MAX_LOCALS
    ensures Lighter(Before(Kept(register)), After(Kept(register)), 1)
  {
    hide Asks, Fits, Lighter, ValidOperand;
    var store, load := Instruction(StoreLocal, IntArg(register)), Instruction(LoadLocal, IntArg(register));
    assert Before(Kept(register)) == [Plain(Dup), store] && After(Kept(register)) == [store, load];
    RegisterIsValid(register);
    KeptAsks(store);
    KeptFits(store, load);
    LighterBy([Plain(Dup), store], [store, load], 1, [0, 1, 0], [0, -1, 0], 0, 0);
  }

  /** Clamping to an interval and then clamping to it, or testing it, again. */
  function Bounds(low: real, high: real, op: Op): seq<Instruction> {
    [Constant(low), Constant(high), Plain(Clamp), Constant(low), Constant(high), Plain(op)]
  }

  lemma BoundsAsk(low: real, high: real, op: Op)
    requires op in {Clamp, Between}
    ensures Asks(Bounds(low, high, op), [0, 1, 2, 0, 1, 2, 0], 1, 2)
  {
    hide StackEffect;
    ConstantEffects();
    IntervalEffects();
  }

  lemma BoundFits(low: real, high: real)
    ensures Fits([Constant(low), Constant(high), Plain(Clamp)], [0, 1, 2, 0], 1, 2)
  {
    hide StackEffect, ValidOperand;
    ConstantEffects();
    IntervalEffects();
    ConstantIsValid(low);
    ConstantIsValid(high);
    PlainIsValid(Clamp);
  }

  lemma ClampedTwiceIsLighter(low: real, high: real)
    ensures Lighter(Before(ClampedTwice(low, high)), After(ClampedTwice(low, high)), 1)
  {
    hide Asks, Fits, Lighter;
    var once := [Constant(low), Constant(high), Plain(Clamp)];
    assert After(ClampedTwice(low, high)) == once && Before(ClampedTwice(low, high)) == Bounds(low, high, Clamp);
    BoundsAsk(low, high, Clamp);
    BoundFits(low, high);
    LighterBy(Bounds(low, high, Clamp), once, 1, [0, 1, 2, 0, 1, 2, 0], [0, 1, 2, 0], 2, 2);
  }

  lemma DropOneFits()
    ensures Fits([Plain(Drop), Constant(1.0)], [0, -1, 0], 1, 2)
  {
    hide StackEffect, ValidOperand;
    ConstantEffects();
    ShuffleEffects();
    PlainIsValid(Drop);
    ConstantIsValid(1.0);
  }

  lemma ClampedBetweenIsLighter(low: real, high: real)
    ensures Lighter(Before(ClampedBetween(low, high)), After(ClampedBetween(low, high)), 1)
  {
    hide Asks, Fits, Lighter;
    var after := [Plain(Drop), Constant(1.0)];
    assert Before(ClampedBetween(low, high)) == Bounds(low, high, Between) && After(ClampedBetween(low, high)) == after;
    BoundsAsk(low, high, Between);
    DropOneFits();
    LighterBy(Bounds(low, high, Between), after, 1, [0, 1, 2, 0, 1, 2, 0], [0, -1, 0], 2, 2);
  }

  /** Two binary operations with the constant. */
  lemma ConstantsAsk(v: real, i: Op, j: Op)
    requires StackEffect(i) == (2, 1) && StackEffect(j) == (2, 1) && i != Halt && j != Halt
    ensures Asks([Constant(v), Plain(i), Constant(v), Plain(j)], [0, 1, 0, 1, 0], 1, 1)
  {
    hide StackEffect;
    ConstantEffects();
  }

  lemma AddedAndTakenIsLighter(v: real)
    ensures Lighter(Before(AddedAndTaken(v)), After(AddedAndTaken(v)), 1)
  {
    hide Asks, Lighter, StackEffect;
    var before := [Constant(v), Plain(Add), Constant(v), Plain(Sub)];
    assert Before(AddedAndTaken(v)) == before && After(AddedAndTaken(v)) == [];
    ArithmeticEffects();
    ConstantsAsk(v, Add, Sub);
    LighterBy(before, [], 1, [0, 1, 0, 1, 0], [0], 1, 0);
  }

  lemma MultipliedAndDividedIsLighter(v: real)
    ensures Lighter(Before(MultipliedAndDivided(v)), After(MultipliedAndDivided(v)), 1)
  {
    hide Asks, Lighter, StackEffect;
    var before := [Constant(v), Plain(Mul), Constant(v), Plain(Div)];
    assert Before(MultipliedAndDivided(v)) == before && After(MultipliedAndDivided(v)) == [];
    PowerEffects();
    ConstantsAsk(v, Mul, Div);
    LighterBy(before, [], 1, [0, 1, 0, 1, 0], [0], 1, 0);
  }

  lemma PowerEffects()
    ensures StackEffect(Mul) == (2, 1) && StackEffect(Div) == (2, 1) && StackEffect(Pow) == (2, 1)
    ensures StackEffect(Sqrt) == (1, 1) && StackEffect(Abs) == (1, 1)
  {
  }

  lemma PowerAsks(v: real)
    ensures Asks([Constant(v), Plain(Pow)], [0, 1, 0], 1, 1)
  {
    hide StackEffect;
    ConstantEffects();
    PowerEffects();
  }

  lemma SquareFits()
    ensures Fits([Plain(Dup), Plain(Mul)], [0, 1, 0], 1, 1)
  {
    hide StackEffect, ValidOperand;
    ShuffleEffects();
    PowerEffects();
    PlainIsValid(Dup);
    PlainIsValid(Mul);
  }

  lemma SquaredPowerIsLighter()
    ensures Lighter(Before(SquaredPower), After(SquaredPower), 1)
  {
    hide Asks, Fits, Lighter;
    assert Before(SquaredPower) == [Constant(2.0), Plain(Pow)] && After(SquaredPower) == [Plain(Dup), Plain(Mul)];
    PowerAsks(2.0);
    SquareFits();
    LighterBy([Constant(2.0), Plain(Pow)], [Plain(Dup), Plain(Mul)], 1, [0, 1, 0], [0, 1, 0], 1, 1);
  }

  lemma FirstPowerIsLighter()
    ensures Lighter(Before(FirstPower), After(FirstPower), 1)
  {
    hide Asks, Lighter;
    assert Before(FirstPower) == [Constant(1.0), Plain(Pow)] && After(FirstPower) == [];
    PowerAsks(1.0);
    LighterBy([Constant(1.0), Plain(Pow)], [], 1, [0, 1, 0], [0], 1, 0);
  }

  lemma RootAsks()
    ensures Asks([Plain(Dup), Plain(Mul), Plain(Sqrt)], [0, 1, 0, 0], 1, 0)
    ensures Fits([Plain(Abs)], [0, 0], 1, 0)
  {
    hide StackEffect, ValidOperand;
    ShuffleEffects();
    PowerEffects();
    PlainIsValid(Abs);
  }

  lemma SquareRootedIsLighter()
    ensures Lighter(Before(SquareRooted), After(SquareRooted), 1)
  {
    hide Asks, Fits, Lighter;
    var before := [Plain(Dup), Plain(Mul), Plain(Sqrt)];
    assert Before(SquareRooted) == before && After(SquareRooted) == [Plain(Abs)];
    RootAsks();
    LighterBy(before, [Plain(Abs)], 1, [0, 1, 0, 0], [0, 0], 0, 0);
  }

  lemma ModFits(m: real)
    ensures Fits([Constant(m), Plain(Mod)], [0, 1, 0], 1, 1)
  {
    hide StackEffect, ValidOperand;
    ConstantEffects();
    ArithmeticEffects();
    ConstantIsValid(m);
    PlainIsValid(Mod);
  }

  lemma ModTwiceIsLighter(m: real)
    ensures Lighter(Before(ModTwice(m)), After(ModTwice(m)), 1)
  {
    hide Asks, Fits, Lighter, StackEffect;
    var before, after := [Constant(m), Plain(Mod), Constant(m), Plain(Mod)], [Constant(m), Plain(Mod)];
    assert Before(ModTwice(m)) == before && After(ModTwice(m)) == after;
    ArithmeticEffects();
    ConstantsAsk(m, Mod, Mod);
    ModFits(m);
    LighterBy(before, after, 1, [0, 1, 0, 1, 0], [0, 1, 0], 1, 1);
  }

  lemma CancellingIsLighter(rule: Rule)
    requires rule in {DepthDropped, SwapTwice, OverDropped, DupDropped, NegTwice}
    ensures Lighter(Before(rule), After(rule), Need(rule))
  {
    hide Lighter, StackEffect;
    ShuffleEffects();
    if rule == DepthDropped {
      ConstantEffects();
      CancelIsLighter(StackDepth, Drop, 0);
    } else if rule == SwapTwice {
      CancelIsLighter(Swap, Swap, 2);
    } else if rule == OverDropped {
      CancelIsLighter(Over, Drop, 2);
    } else if rule == DupDropped {
      CancelIsLighter(Dup, Drop, 1);
    } else {
      ArithmeticEffects();
      CancelIsLighter(Neg, Neg, 1);
    }
  }

  lemma MirrorEffects(op: Op)
    requires op in {Lt, Gt, Lte, Gte, Eq, Ne, Min, Max, And, Or, Xor, Add, Mul}
    ensures StackEffect(op) == (2, 1) && StackEffect(Mirror(op)) == (2, 1) && ValidOperand(Plain(Mirror(op))) && op != Halt && Mirror(op) != Halt
  {
  }

  lemma MirrorIsLighter(op: Op)
    requires op in {Lt, Gt, Lte, Gte, Eq, Ne, Min, Max, And, Or, Xor, Add, Mul}
    ensures Lighter([Plain(Swap)] + [Plain(op)], [Plain(Mirror(op))], 2)
  {
    hide Lighter, StackEffect, ValidOperand, Mirror;
    ShuffleEffects();
    MirrorEffects(op);
    MergeIsLighter(Swap, op, Mirror(op), 2);
  }

  lemma OppositeEffects(op: Op)
    requires op in {Lt, Gt, Lte, Gte, Eq, Ne}
    ensures StackEffect(op) == (2, 1) && StackEffect(Opposite(op)) == (2, 1) && ValidOperand(Plain(Opposite(op))) && op != Halt && Opposite(op) != Halt
  {
  }

  lemma OppositeIsLighter(op: Op)
    requires op in {Lt, Gt, Lte, Gte, Eq, Ne}
    ensures Lighter([Plain(op)] + [Plain(Not)], [Plain(Opposite(op))], 2)
  {
    hide Lighter, StackEffect, ValidOperand, Opposite;
    ConnectiveEffects();
    OppositeEffects(op);
    MergeIsLighter(op, Not, Opposite(op), 2);
  }

  lemma RoundingEffects(op: Op)
    requires op in {Floor, Ceil, Round}
    ensures StackEffect(op) == (1, 1) && ValidOperand(Plain(op)) && op != Halt
  {
  }

  lemma RoundedIsLighter(first: Op, second: Op)
    requires first in {Floor, Ceil, Round} && second in {Floor, Ceil, Round}
    ensures Lighter([Plain(first)] + [Plain(second)], [Plain(first)], 1)
  {
    hide Lighter, StackEffect, ValidOperand;
    RoundingEffects(first);
    RoundingEffects(second);
    MergeIsLighter(first, second, first, 1);
  }

  lemma ReloadEffects(load: Op, store: Op)
    requires Reloads(load, store)
    ensures StackEffect(load) == (0, 1) && StackEffect(store) == (1, 0) && load != Halt && store != Halt
  {
  }

  lemma ReloadIsLighter(load: Op, store: Op)
    requires Reloads(load, store)
    ensures Lighter([Plain(load)] + [Plain(store)], [], 0)
  {
    hide Lighter, StackEffect, Reloads;
    ReloadEffects(load, store);
    CancelIsLighter(load, store, 0);
  }

  lemma MergingIsLighter(ar: Arithmetic, rule: Rule)
    requires (rule.Mirrored? || rule.Opposed? || rule.RoundedTwice? || rule.Reloaded?) && Applies(ar, rule)
    ensures Lighter(Before(rule), After(rule), Need(rule))
  {
    hide Lighter, Mirror, Opposite, Reloads;
    if rule.Mirrored? {
      MirrorIsLighter(rule.op);
    } else if rule.Opposed? {
      OppositeIsLighter(rule.op);
    } else if rule.RoundedTwice? {
      RoundedIsLighter(rule.first, rule.second);
    } else {
      ReloadIsLighter(rule.load, rule.store);
    }
  }

  lemma SingleIsLighter(rule: Rule)
    requires rule in {NoOperation, ZeroIsNot}
    ensures Lighter(Before(rule), After(rule), Need(rule))
  {
    hide Lighter, StackEffect;
    ConstantEffects();
    if rule == NoOperation {
      OneIsLighter(Nop, []);
    } else {
      OneIsLighter(IsZero, [Plain(Not)]);
    }
  }

  lemma RuleIsLighter(ar: Arithmetic, rule: Rule)
    requires Applies(ar, rule)
    ensures Lighter(Before(rule), After(rule), Need(rule))
  {
    hide Lighter, Exact, Squares, KeepsFirstPowers, RootsSquares, Before, After;
    match rule {
      case NoOperation | ZeroIsNot => SingleIsLighter(rule);
      case DepthDropped | SwapTwice | OverDropped | DupDropped | NegTwice => CancellingIsLighter(rule);
      case Reloaded(_, _) | Mirrored(_) | Opposed(_) | RoundedTwice(_, _) => MergingIsLighter(ar, rule);
      case DeMorgan => DeMorganIsLighter();
      case Kept(register) => KeptIsLighter(register);
      case ClampedTwice(low, high) => ClampedTwiceIsLighter(low, high);
      case ClampedBetween(low, high) => ClampedBetweenIsLighter(low, high);
      case AddedAndTaken(v) => AddedAndTakenIsLighter(v);
      case ModTwice(m) => ModTwiceIsLighter(m);
      case MultipliedAndDivided(v) => MultipliedAndDividedIsLighter(v);
      case SquaredPower => SquaredPowerIsLighter();
      case FirstPower => FirstPowerIsLighter();
      case SquareRooted => SquareRootedIsLighter();
    }
  }

  // ----- rewriting programs -----

  lemma RuleCanReplace(ar: Arithmetic, rule: Rule)
    requires Applies(ar, rule)
    ensures CanReplace(ar, Before(rule), After(rule), Need(rule))
  {
    hide Do, Before, After, Lighter, Applies, KnowsInputs;
    RuleIsLighter(ar, rule);
    forall env, c | KnowsInputs(env) && InRange(c) && |c.stack| >= Need(rule)
      ensures Do(ar, env, Before(rule), c) == Do(ar, env, After(rule), c)
    {
      RuleHolds(ar, env, rule, c);
    }
  }

  /** One use of a rule, anywhere in the program, that leaves some of it. */
  ghost predicate Rewrites(ar: Arithmetic, p: seq<Instruction>, q: seq<Instruction>) {
    exists a, rule, b :: Applies(ar, rule) && p == a + Before(rule) + b && q == a + After(rule) + b && q != []
  }

  lemma RewriteIsInvisible(ar: Arithmetic, p: seq<Instruction>, q: seq<Instruction>, inputs: map<string, InputValue>, maxInstructions: int, maxStack: int)
    requires Rewrites(ar, p, q) && Analyze(p, maxInstructions, maxStack).Ok?
    ensures Analyze(q, maxInstructions, maxStack).Ok?
    ensures Visible(Run(ar, q, inputs, maxInstructions, maxStack)) == Visible(Run(ar, p, inputs, maxInstructions, maxStack))
  {
    hide Analyze, Run, CanReplace, Applies, Before, After;
    var a, rule, b :| Applies(ar, rule) && p == a + Before(rule) + b && q == a + After(rule) + b;
    RuleCanReplace(ar, rule);
    ReplacementIsInvisible(ar, a, Before(rule), After(rule), b, Need(rule), inputs, maxInstructions, maxStack);
  }

  /**
   However often and wherever the rules are used on a program the analyzer accepts, the result is accepted and
   gives the same outputs, or the same failure, for all inputs.
   */
  lemma {:induction false} RewritingIsInvisible(ar: Arithmetic, programs: seq<seq<Instruction>>, inputs: map<string, InputValue>,
                                                maxInstructions: int, maxStack: int)
    requires programs != [] && forall k :: 0 <= k < |programs| - 1 ==> Rewrites(ar, programs[k], programs[k + 1])
    requires Analyze(programs[0], maxInstructions, maxStack).Ok?
    ensures var last := programs[|programs| - 1];
            && Analyze(last, maxInstructions, maxStack).Ok?
            && Visible(Run(ar, last, inputs, maxInstructions, maxStack)) == Visible(Run(ar, programs[0], inputs, maxInstructions, maxStack))
    decreases |programs|
  {
    hide Analyze, Run, Rewrites;
    var n := |programs| - 1;
    if n > 0 {
      RewritingIsInvisible(ar, programs[..n], inputs, maxInstructions, maxStack);
      assert Rewrites(ar, programs[n - 1], programs[n]);
      RewriteIsInvisible(ar, programs[n - 1], programs[n], inputs, maxInstructions, maxStack);
    }
  }
}
