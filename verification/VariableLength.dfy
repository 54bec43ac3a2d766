/**
 `variableLength` of the browser-side MIDI writer, with its 32-bit shift register. On every integer it
 works on the value ToInt32 makes of it: it terminates exactly when that lies in 0..2^28 - 1, and the
 standard's decoding then gives it back.
 */
module VariableLength {
  import opened Outcomes
  import opened StandardMidi

  /** JavaScript's ToInt32, which every bitwise operator applies to its operands and its result. */
  function ToInt32(x: int): (r: int)
    ensures -0x8000_0000 <= r < 0x8000_0000
    ensures (r - x) % 0x1_0000_0000 == 0
  {
    var low := x % 0x1_0000_0000;
    if low >= 0x8000_0000 then low - 0x1_0000_0000 else low
  }

  // ----- the quantity a byte string stands for -----

  /** The standard's encoding: base-128 digits, most significant first, all but the last flagged. */
  function Flagged(v: nat): seq<Byte> {
    if v == 0 then [] else Flagged(v / 128) + [v % 128 + 128]
  }

  function Vlq(v: nat): seq<Byte> {
    Flagged(v / 128) + [v % 128]
  }

  lemma {:induction false} ReadFlagged(v: nat, tail: seq<Byte>, acc: nat, left: nat)
    requires |Flagged(v)| < left
    ensures ReadVlqFrom(Flagged(v) + tail, acc, left) ==
            ReadVlqFrom(tail, acc * Power128(|Flagged(v)|) + v, left - |Flagged(v)|)
    decreases v
  {
    if v == 0 {
      assert Flagged(v) + tail == tail;
    } else {
      var digit: Byte := v % 128 + 128;
      assert Flagged(v) + tail == Flagged(v / 128) + ([digit] + tail);
      ReadFlagged(v / 128, [digit] + tail, acc, left);
      assert ([digit] + tail)[1..] == tail;
      var n := |Flagged(v / 128)|;
      Regroup(acc, Power128(n), v);
      assert Power128(n + 1) == 128 * Power128(n);
    }
  }

  lemma Regroup(acc: nat, p: nat, v: nat)
    ensures (acc * p + v / 128) * 128 + v % 128 == acc * (128 * p) + v
  {
  }

  function Power128(n: nat): nat {
    if n == 0 then 1 else 128 * Power128(n - 1)
  }

  /** Decoding what `Vlq` writes, whatever follows it. */
  lemma VlqRoundTrip(v: nat, tail: seq<Byte>)
    requires v < VLQ_BOUND
    ensures ReadVlq(Vlq(v) + tail) == Some((v, tail))
  {
    DigitsBelowBound(v);
    var last: Byte := v % 128;
    assert Vlq(v) + tail == Flagged(v / 128) + ([last] + tail);
    ReadFlagged(v / 128, [last] + tail, 0, 4);
    assert ([last] + tail)[1..] == tail;
  }

  lemma {:induction false} FlaggedLength(v: nat, n: nat)
    requires v < Power128(n)
    ensures |Flagged(v)| <= n
    decreases n
  {
    if v > 0 {
      assert v / 128 < Power128(n - 1);
      FlaggedLength(v / 128, n - 1);
    }
  }

  lemma DigitsBelowBound(value: nat)
    requires value < VLQ_BOUND
    ensures |Flagged(value / 128)| <= 3
  {
    assert Power128(1) == 128 && Power128(2) == 16384 && Power128(3) == 2097152;
    FlaggedLength(value / 128, 3);
  }

  // ----- the shift register -----

  /** Base-256 digits, least significant first. */
  function Register(bytes: seq<Byte>): nat {
    if bytes == [] then 0 else bytes[0] + 256 * Register(bytes[1..])
  }

  lemma {:induction false} RegisterBound(bytes: seq<Byte>)
    requires 0 < |bytes| <= 4 && bytes[|bytes| - 1] < 128
    ensures Register(bytes) < 0x8000_0000
    ensures |bytes| <= 3 ==> Register(bytes) < 0x80_0000
    ensures |bytes| <= 2 ==> Register(bytes) < 0x8000
    ensures |bytes| <= 1 ==> Register(bytes) < 0x80
  {
    if |bytes| > 1 {
      RegisterBound(bytes[1..]);
    }
  }

  /** A digit string whose last byte alone is unflagged. */
  predicate Terminated(bytes: seq<Byte>) {
    && 0 < |bytes| <= 4
    && bytes[|bytes| - 1] < 128
    && forall j :: 0 <= j < |bytes| - 1 ==> bytes[j] >= 128
  }

  /** One turn of the first loop shifts the next flagged digit in front. */
  lemma ShiftIn(bytes: seq<Byte>, v: nat)
    requires Terminated(bytes) && v > 0 && |Flagged(v)| + |bytes| <= 4
    ensures var shifted := [v % 128 + 128] + bytes;
            && Terminated(shifted)
            && ToInt32(Register(bytes) * 256) + (v % 128 + 128) == Register(shifted)
            && Flagged(v) + bytes == Flagged(v / 128) + shifted
            && |Flagged(v / 128)| + |shifted| <= 4
  {
    RegisterBound(bytes);
    var shifted: seq<Byte> := [v % 128 + 128] + bytes;
    assert shifted[1..] == bytes;
  }

  /** One turn of the second loop takes the first digit off. */
  lemma ShiftOut(bytes: seq<Byte>)
    requires Terminated(bytes)
    ensures |bytes| > 0 && Register(bytes) % 256 == bytes[0]
    ensures GoesOn(Register(bytes)) <==> |bytes| > 1
    ensures |bytes| > 1 ==> Terminated(bytes[1..]) && Register(bytes) / 256 == Register(bytes[1..])
  {
  }

  /** The second loop goes on as long as bit 7 of the register is set. */
  predicate GoesOn(buffer: int) {
    buffer % 256 >= 128
  }

  /** The integers on which `variableLength` returns. */
  predicate Encodes(value: int) {
    0 <= ToInt32(value) < VLQ_BOUND
  }

  /** `variableLength`, for every integer on which it terminates. */
  method Encode(value: int) returns (output: seq<Byte>)
    requires Encodes(value)
    ensures output == Vlq(ToInt32(value))
  {
    hide Register, Flagged, ToInt32, Terminated;
    var x: nat := ToInt32(value);
    DigitsBelowBound(x);
    var v: nat := x / 128;
    var buffer: int := x % 128;
    ghost var bytes: seq<Byte> := [x % 128];
    assert Terminated(bytes) && buffer == Register(bytes) by { SingleDigit(x % 128); }
    while v != 0
      invariant Terminated(bytes) && buffer == Register(bytes) && v < VLQ_BOUND
      invariant Vlq(x) == Flagged(v) + bytes && |Flagged(v)| + |bytes| <= 4
      decreases v
    {
      ShiftIn(bytes, v);
      bytes := [v % 128 + 128] + bytes;
      buffer := ToInt32(buffer * 256) + (v % 128 + 128);
      SmallShift(v);
      v := ToInt32(v) / 128;
    }
    assert Flagged(0) == [] by { NoDigits(); }
    output := [];
    while true
      invariant Terminated(bytes) && buffer == Register(bytes)
      invariant Vlq(x) == output + bytes
      decreases |bytes|
    {
      ShiftOut(bytes);
      output := output + [buffer % 256];
      if buffer % 256 >= 128 {
        buffer := buffer / 256;
        bytes := bytes[1..];
      } else {
        assert bytes == [bytes[0]];
        break;
      }
    }
  }

  lemma SingleDigit(b: Byte)
    requires b < 128
    ensures Terminated([b]) && Register([b]) == b
  {
    assert [b][1..] == [];
  }

  lemma NoDigits()
    ensures Flagged(0) == []
  {
  }

  // ----- the two loops, turn by turn, on any integer -----

  datatype Loops =
    | Filling(buffer: int, value: int)
    | Draining(register: int, output: seq<Byte>)
    | Finished(result: seq<Byte>)

  function Begin(value: int): Loops {
    Filling(ToInt32(value) % 128, value)
  }

  /** One turn of the loop the function is in. `>>= 7` and `>>= 8` keep the sign. */
  function Turn(s: Loops): Loops {
    match s
    case Filling(buffer, value) =>
      var v := ToInt32(value) / 128;
      if v == 0 then Draining(buffer, []) else Filling(ToInt32(buffer * 256) + (v % 128 + 128), v)
    case Draining(register, output) =>
      if GoesOn(register) then Draining(register / 256, output + [register % 256]) else Finished(output + [register % 256])
    case Finished(_) => s
  }

  function Turns(s: Loops, n: nat): Loops
    decreases n
  {
    if n == 0 then s else Turns(Turn(s), n - 1)
  }

  ghost predicate Reaches(s: Loops, t: Loops) {
    exists n: nat :: Turns(s, n) == t
  }

  ghost predicate Terminates(s: Loops) {
    exists n: nat :: Turns(s, n).Finished?
  }

  lemma {:induction false} TurnsAdd(s: Loops, m: nat, n: nat)
    ensures Turns(s, m + n) == Turns(Turns(s, m), n)
    decreases m
  {
    hide Turn;
    if m > 0 {
      TurnsAdd(Turn(s), m - 1, n);
    }
  }

  lemma ReachesOn(s: Loops, t: Loops, u: Loops)
    requires Reaches(s, t) && Reaches(t, u)
    ensures Reaches(s, u)
  {
    hide Turns;
    var m: nat :| Turns(s, m) == t;
    var n: nat :| Turns(t, n) == u;
    TurnsAdd(s, m, n);
    assert Turns(s, m + n) == u;
  }

  lemma OneTurn(s: Loops)
    ensures Reaches(s, Turn(s)) && Reaches(s, s)
  {
    assert Turns(s, 0) == s;
    assert Turns(s, 1) == Turns(Turn(s), 0);
  }

  lemma {:induction false} FinishedStays(s: Loops, n: nat)
    requires s.Finished?
    ensures Turns(s, n) == s
    decreases n
  {
    if n > 0 {
      FinishedStays(s, n - 1);
    }
  }

  /** What a state reaches decides whether it terminates. */
  lemma ReachedDecides(s: Loops, t: Loops)
    requires Reaches(s, t)
    ensures Terminates(s) <==> Terminates(t)
  {
    hide Turns;
    var m: nat :| Turns(s, m) == t;
    if n: nat :| Turns(s, n).Finished? {
      TurnsAdd(s, m, n);
      TurnsAdd(s, n, m);
      FinishedStays(Turns(s, n), m);
      assert m + n == n + m;
      assert Turns(t, n).Finished?;
    }
    if n: nat :| Turns(t, n).Finished? {
      TurnsAdd(s, m, n);
      assert Turns(s, m + n).Finished?;
    }
  }

  /** The first loop as a function: what the register holds once every digit is shifted in. */
  function Fill(buffer: int, v: nat): int
    decreases v
  {
    if v == 0 then buffer else Fill(ToInt32(buffer * 256) + (v % 128 + 128), v / 128)
  }

  lemma {:induction false} FillingEnds(buffer: int, v: nat)
    requires v < 0x8000_0000
    ensures Reaches(Filling(buffer, v), Draining(Fill(buffer, v / 128), []))
    decreases v
  {
    hide Reaches, ToInt32;
    SmallShift(v);
    OneTurn(Filling(buffer, v));
    var w := v / 128;
    if w != 0 {
      var next := ToInt32(buffer * 256) + (w % 128 + 128);
      FillingEnds(next, w);
      assert Fill(buffer, w) == Fill(next, w / 128);
      ReachesOn(Filling(buffer, v), Filling(next, w), Draining(Fill(buffer, w), []));
    } else {
      assert Fill(buffer, 0) == buffer;
    }
  }

  lemma {:induction false} DrainingEnds(bytes: seq<Byte>, output: seq<Byte>)
    requires Terminated(bytes)
    ensures Reaches(Draining(Register(bytes), output), Finished(output + bytes))
    decreases |bytes|
  {
    hide Reaches, Register, Terminated;
    var s := Draining(Register(bytes), output);
    ShiftOut(bytes);
    OneTurn(s);
    if |bytes| > 1 {
      DrainingEnds(bytes[1..], output + [bytes[0]]);
      assert output + [bytes[0]] + bytes[1..] == output + bytes;
      ReachesOn(s, Turn(s), Finished(output + bytes));
    } else {
      assert bytes == [bytes[0]];
    }
  }

  /** The register never runs out of set bits 7: it is negative, and all of its bytes are flagged. */
  predicate Stuck(s: Loops) {
    && s.Draining? && -0x8000_0000 <= s.register < 0 && GoesOn(s.register)
    && GoesOn(s.register / 256) && GoesOn(s.register / 256 / 256) && GoesOn(s.register / 256 / 256 / 256)
  }

  lemma {:induction false} StuckForever(s: Loops, n: nat)
    requires Stuck(s)
    ensures !Turns(s, n).Finished?
    decreases n
  {
    if n > 0 {
      assert Stuck(Turn(s));
      StuckForever(Turn(s), n - 1);
    }
  }

  /** A negative value is shifted right for ever: it stays negative. */
  lemma {:induction false} NegativeForever(s: Loops, n: nat)
    requires s.Filling? && ToInt32(s.value) < 0
    ensures !Turns(s, n).Finished?
    decreases n
  {
    if n > 0 {
      NegativeStays(ToInt32(s.value));
      NegativeForever(Turn(s), n - 1);
    }
  }

  lemma NegativeStays(x: int)
    requires -0x8000_0000 <= x < 0
    ensures x / 128 != 0 && ToInt32(x / 128) < 0
  {
  }

  lemma FilledBeyondBound(value: nat)
    requires VLQ_BOUND <= value < 0x8000_0000
    ensures var b := Fill(value % 128, value / 128);
            && -0x8000_0000 <= b < 0 && GoesOn(b)
            && GoesOn(b / 256) && GoesOn(b / 256 / 256) && GoesOn(b / 256 / 256 / 256)
  {
    var g0, v1 := value % 128, value / 128;
    var v2 := v1 / 128;
    var v3 := v2 / 128;
    var g4 := v3 / 128;
    var b1 := g0 * 256 + (v1 % 128 + 128);
    var b2 := b1 * 256 + (v2 % 128 + 128);
    var b3 := b2 * 256 + (v3 % 128 + 128);
    var b4 := ToInt32(b3 * 256) + (g4 + 128);
    FillSteps(g0, v1, v2, v3, g4, b1, b2, b3, b4);
    TopDigitFallsOff(g0, v1 % 128 + 128, v2 % 128 + 128, v3 % 128 + 128, b3);
    NegativeDrain(v1 % 128 + 128, v2 % 128 + 128, v3 % 128 + 128, g4 + 128);
  }

  /** The fourth shift pushes the first digit out and the sign bit in. */
  lemma TopDigitFallsOff(g0: nat, f1: nat, f2: nat, f3: nat, b3: int)
    requires g0 < 128 && 128 <= f1 < 256 && 128 <= f2 < 256 && 128 <= f3 < 256
    requires b3 == ((g0 * 256 + f1) * 256 + f2) * 256 + f3
    ensures ToInt32(b3 * 256) == ((f1 * 256 + f2) * 256 + f3) * 256 - 0x1_0000_0000
  {
    assert b3 * 256 == g0 * 0x1_0000_0000 + ((f1 * 256 + f2) * 256 + f3) * 256;
  }

  lemma NegativeDrain(f1: nat, f2: nat, f3: nat, f4: nat)
    requires 128 <= f1 < 256 && 128 <= f2 < 256 && 128 <= f3 < 256 && 128 <= f4 < 256
    ensures var b := ((f1 * 256 + f2) * 256 + f3) * 256 - 0x1_0000_0000 + f4;
            && -0x8000_0000 <= b < 0 && GoesOn(b)
            && GoesOn(b / 256) && GoesOn(b / 256 / 256) && GoesOn(b / 256 / 256 / 256)
  {
    var b := ((f1 * 256 + f2) * 256 + f3) * 256 - 0x1_0000_0000 + f4;
    assert b / 256 == (f1 * 256 + f2) * 256 + f3 - 0x100_0000;
    assert b / 256 / 256 == f1 * 256 + f2 - 0x1_0000;
    assert b / 256 / 256 / 256 == f1 - 0x100;
  }

  lemma SmallShift(x: int)
    requires 0 <= x < 0x8000_0000
    ensures ToInt32(x) == x
  {
  }

  lemma FillSteps(g0: nat, v1: nat, v2: nat, v3: nat, g4: nat, b1: int, b2: int, b3: int, b4: int)
    requires v2 == v1 / 128 && v3 == v2 / 128 && g4 == v3 / 128 && 1 <= g4 < 128
    requires g0 < 128 && b1 == g0 * 256 + (v1 % 128 + 128)
    requires b2 == b1 * 256 + (v2 % 128 + 128) && b3 == b2 * 256 + (v3 % 128 + 128)
    requires b4 == ToInt32(b3 * 256) + (g4 + 128)
    ensures Fill(g0, v1) == b4
  {
    hide ToInt32;
    SmallShift(g0 * 256);
    SmallShift(b1 * 256);
    SmallShift(b2 * 256);
    assert Fill(b4, 0) == b4;
    assert g4 / 128 == 0 && g4 % 128 == g4;
    assert Fill(b3, g4) == b4;
    assert Fill(b2, v3) == b4;
    assert Fill(b1, v2) == b4;
  }

  /** The first turn looks at the value through ToInt32, as all later ones do. */
  lemma BeginsAlike(value: int)
    ensures Turn(Begin(value)) == Turn(Begin(ToInt32(value)))
  {
    Idempotent(value);
  }

  lemma Idempotent(value: int)
    ensures ToInt32(ToInt32(value)) == ToInt32(value)
  {
  }

  lemma EncodedReaches(x: nat)
    requires x < VLQ_BOUND
    ensures Reaches(Begin(x), Finished(Vlq(x)))
  {
    hide Reaches, ToInt32, Register, Terminated, Fill;
    SmallShift(x);
    FillIsRegister(x);
    VlqTerminated(x);
    FillingEnds(x % 128, x);
    DrainingEnds(Vlq(x), []);
    assert [] + Vlq(x) == Vlq(x);
    ReachesOn(Begin(x), Draining(Register(Vlq(x)), []), Finished(Vlq(x)));
  }

  lemma VlqTerminated(x: nat)
    requires x < VLQ_BOUND
    ensures Terminated(Vlq(x))
  {
    DigitsBelowBound(x);
    FlaggedAreFlagged(x / 128);
  }

  lemma {:induction false} FlaggedAreFlagged(v: nat)
    ensures forall j :: 0 <= j < |Flagged(v)| ==> Flagged(v)[j] >= 128
    decreases v
  {
    if v > 0 {
      FlaggedAreFlagged(v / 128);
    }
  }

  lemma BeyondIsStuck(x: nat)
    requires VLQ_BOUND <= x < 0x8000_0000
    ensures !Terminates(Begin(x))
  {
    hide Reaches, Turns, ToInt32, Fill;
    SmallShift(x);
    FillingEnds(x % 128, x);
    var s := Draining(Fill(x % 128, x / 128), []);
    FilledBeyondBound(x);
    forall n: nat
      ensures !Turns(s, n).Finished?
    {
      StuckForever(s, n);
    }
    ReachedDecides(Begin(x), s);
  }

  /**
   For every integer: the loops terminate if and only if ToInt32 of the value lies in 0..2^28 - 1, and
   then they return the standard's encoding of that.
   */
  lemma TerminatesExactly(value: int)
    ensures Terminates(Begin(value)) <==> Encodes(value)
    ensures Encodes(value) ==> Reaches(Begin(value), Finished(Vlq(ToInt32(value))))
  {
    hide Reaches, Terminates, Turn, ToInt32;
    var x := ToInt32(value);
    BeginsAlike(value);
    OneTurn(Begin(value));
    OneTurn(Begin(x));
    ReachedDecides(Begin(value), Turn(Begin(value)));
    ReachedDecides(Begin(x), Turn(Begin(x)));
    if x < 0 {
      NegativeNever(value);
    } else if x < VLQ_BOUND {
      EncodedReaches(x);
      FinishedTerminates(Begin(x), Vlq(x));
      LateFinish(Begin(x), Vlq(x));
      ReachesOn(Begin(value), Turn(Begin(value)), Finished(Vlq(x)));
    } else {
      BeyondIsStuck(x);
    }
  }

  lemma NegativeNever(value: int)
    requires ToInt32(value) < 0
    ensures !Terminates(Begin(value))
  {
    forall n: nat
      ensures !Turns(Begin(value), n).Finished?
    {
      NegativeForever(Begin(value), n);
    }
  }

  lemma FinishedTerminates(s: Loops, result: seq<Byte>)
    requires Reaches(s, Finished(result))
    ensures Terminates(s)
  {
  }

  /** A loop that has yet to finish finishes from its next turn on. */
  lemma LateFinish(s: Loops, result: seq<Byte>)
    requires Reaches(s, Finished(result)) && !s.Finished?
    ensures Reaches(Turn(s), Finished(result))
  {
    var n: nat :| Turns(s, n) == Finished(result);
    assert n > 0;
    assert Turns(Turn(s), n - 1) == Finished(result);
  }

  lemma FillIsRegister(value: nat)
    requires value < VLQ_BOUND
    ensures Fill(value % 128, value / 128) == Register(Vlq(value))
  {
    DigitsBelowBound(value);
    SingleDigit(value % 128);
    FillPrepends([value % 128], value / 128);
  }

  lemma {:induction false} FillPrepends(bytes: seq<Byte>, v: nat)
    requires Terminated(bytes) && |Flagged(v)| + |bytes| <= 4
    ensures Fill(Register(bytes), v) == Register(Flagged(v) + bytes)
    decreases v
  {
    hide Register, ToInt32, Terminated;
    if v == 0 {
      assert Flagged(v) + bytes == bytes;
    } else {
      ShiftIn(bytes, v);
      FillPrepends([v % 128 + 128] + bytes, v / 128);
    }
  }
}
