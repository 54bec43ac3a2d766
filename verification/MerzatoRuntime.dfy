/** The machine as the source has it: one object whose methods update its fields in place. */
module MerzatoRuntime {
  import opened Outcomes
  import opened MerzatoVm

  class RestrictedMerzatoVM {
    const program: Program
    const limits: Limits
    const phrases: Phrases
    var registers: seq<Value>
    var stack: seq<Value>
    var callStack: seq<int>
    var heap: map<int, Value>
    var pc: int
    var halted: bool
    var output: Text
    var steps: nat

    /** The abstract state; the step counter belongs to the run loop. */
    function Snapshot(): State
      reads this
    {
      State(pc, stack, callStack, registers, heap, output, halted)
    }

    /** The object did what the specification says: the new state, or the thrown error. */
    predicate Did(thrown: Option<Error>, spec: Result<State, Error>)
      reads this
    {
      match spec
      case Ok(st) => thrown == None && Snapshot() == st
      case Err(e) => thrown == Some(e)
    }

    constructor (program: Program, limits: Limits, phrases: Phrases)
      ensures this.program == program && this.limits == limits && this.phrases == phrases
      ensures Snapshot() == Start(program) && steps == 0
    {
      this.program, this.limits, this.phrases := program, limits, phrases;
      registers := seq(REGISTER_COUNT, i requires 0 <= i < REGISTER_COUNT => Big(0));
      stack, callStack, heap := [], [], map[];
      pc, halted, output, steps := program.entry, false, [], 0;
    }

    method PushOnto(v: Value) returns (thrown: Option<Error>)
      modifies this`stack
      ensures Did(thrown, PushValue(limits, old(Snapshot()), v))
    {
      if |stack| >= limits.maxStackDepth || !Fits(limits, v) {
        return Some(Error(ResourceLimit, pc, None));
      }
      stack := stack + [v];
      thrown := None;
    }

    /** `pop`: the popped value, or an underflow. */
    method PopOff() returns (thrown: Option<Error>, v: Value)
      modifies this`stack
      ensures match PopValue(old(Snapshot()))
              case Ok((top, st)) => thrown == None && v == top && Snapshot() == st
              case Err(e) => thrown == Some(e)
    {
      v := Undefined;
      if stack == [] {
        return Some(Error(StackUnderflow, pc, None)), v;
      }
      v := stack[|stack| - 1];
      stack := stack[..|stack| - 1];
      thrown := None;
    }

    method PopIntegerOff() returns (thrown: Option<Error>, n: int)
      modifies this`stack
      ensures match PopInteger(old(Snapshot()))
              case Ok((top, st)) => thrown == None && n == top && Snapshot() == st
              case Err(e) => thrown == Some(e)
    {
      n := 0;
      var v;
      thrown, v := PopOff();
      if thrown.Some? {
        return;
      }
      var converted := AsInteger(v);
      if converted.None? {
        return Some(Error(TypeError, pc, None)), n;
      }
      n := converted.value;
    }

    method Jump(operand: Value) returns (thrown: Option<Error>)
      modifies this`pc
      ensures Did(thrown, JumpTo(program, old(Snapshot()), operand))
    {
      var target := JumpTarget(program, operand);
      if target.None? {
        return Some(Error(InvalidTarget, pc, None));
      }
      pc := target.value;
      thrown := None;
    }

    /** The result of the operation, unless it is a division by zero. */
    method PushResult(ins: Instruction, a: int, b: int) returns (thrown: Option<Error>)
      requires ins.op in {Add, Sub, Mul, Div, Mod, CmpGt}
      modifies this`stack
      ensures Did(thrown, Combine(limits, ins, a, b, old(Snapshot())))
    {
      hide Quotient, Modulo, PushValue;
      if ins.op == Add {
        thrown := PushOnto(Big(a + b));
      } else if ins.op == Sub {
        thrown := PushOnto(Big(a - b));
      } else if ins.op == Mul {
        thrown := PushOnto(Big(a * b));
      } else if ins.op == CmpGt {
        thrown := PushOnto(Big(if a > b then 1 else 0));
      } else if b == 0 {
        thrown := Some(Error(DivisionByZero, pc, ins.line));
      } else {
        thrown := PushOnto(Big(if ins.op == Div then Quotient(a, b) else Modulo(a, b)));
      }
    }

    method DoArithmetic(ins: Instruction) returns (thrown: Option<Error>)
      requires ins.op in {Add, Sub, Mul, Div, Mod, CmpGt}
      modifies this`stack
      ensures Did(thrown, Arithmetic(limits, ins, old(Snapshot())))
    {
      hide Combine, PopInteger;
      var a, b;
      thrown, b := PopIntegerOff();
      if thrown.Some? { return; }
      thrown, a := PopIntegerOff();
      if thrown.Some? { return; }
      thrown := PushResult(ins, a, b);
    }

    method DoStack(ins: Instruction) returns (thrown: Option<Error>)
      requires ins.op in {Push, Pop, Dup, Swap, Not}
      modifies this`stack
      ensures Did(thrown, StackOp(limits, ins, old(Snapshot())))
    {
      if ins.op == Push {
        thrown := PushOnto(ins.operand);
      } else if ins.op == Dup {
        if stack == [] { return Some(Error(StackUnderflow, pc, None)); }
        thrown := PushOnto(stack[|stack| - 1]);
      } else {
        var v;
        thrown, v := PopOff();
        if thrown.Some? { return; }
        if ins.op == Swap {
          var left;
          thrown, left := PopOff();
          if thrown.Some? { return; }
          thrown := PushOnto(v);
          if thrown.Some? { return; }
          thrown := PushOnto(left);
        } else if ins.op == Not {
          thrown := PushOnto(Big(if IsZero(v) then 1 else 0));
        }
      }
    }

    method DoRegister(ins: Instruction) returns (thrown: Option<Error>)
      requires ins.op in {Load, Store}
      modifies this`stack, this`registers
      ensures Did(thrown, MemoryOp(limits, ins, old(Snapshot())))
    {
      hide RegisterIndex, Fits;
      var r := RegisterIndex(ins.operand);
      if r.None? { return Some(Error(InvalidRegister, pc, None)); }
      if ins.op == Load {
        if r.value >= |registers| { return Some(Error(InvalidRegister, pc, None)); }
        thrown := PushOnto(registers[r.value]);
      } else {
        var v;
        thrown, v := PopOff();
        if thrown.Some? { return; }
        if !Fits(limits, v) { return Some(Error(ResourceLimit, pc, None)); }
        if r.value >= |registers| { return Some(Error(InvalidRegister, pc, None)); }
        registers := registers[r.value := v];
      }
    }

    method DoHeap(ins: Instruction) returns (thrown: Option<Error>)
      requires ins.op in {HLoad, HStore}
      modifies this`stack, this`heap
      ensures Did(thrown, MemoryOp(limits, ins, old(Snapshot())))
    {
      hide PopInteger, Fits;
      var address;
      thrown, address := PopIntegerOff();
      if thrown.Some? { return; }
      if ins.op == HLoad {
        thrown := PushOnto(if address in heap && !heap[address].Null? && !heap[address].Undefined? then heap[address] else Big(0));
      } else {
        var v;
        thrown, v := PopOff();
        if thrown.Some? { return; }
        if !Fits(limits, v) { return Some(Error(ResourceLimit, pc, None)); }
        if address !in heap && |heap| >= limits.maxHeapCells { return Some(Error(ResourceLimit, pc, ins.line)); }
        heap := heap[address := v];
      }
    }

    method DoControl(ins: Instruction) returns (thrown: Option<Error>)
      requires ins.op in {Jmp, Jz, Jnz, Call, Ret}
      modifies this`pc, this`stack, this`callStack
      ensures Did(thrown, ControlOp(program, limits, ins, old(Snapshot())))
    {
      hide JumpTarget;
      if ins.op == Jmp {
        thrown := Jump(ins.operand);
      } else if ins.op == Jz || ins.op == Jnz {
        var v;
        thrown, v := PopOff();
        if thrown.Some? { return; }
        if IsZero(v) == (ins.op == Jz) {
          thrown := Jump(ins.operand);
        }
      } else if ins.op == Call {
        if |callStack| >= limits.maxCallDepth { return Some(Error(ResourceLimit, pc, ins.line)); }
        callStack := callStack + [pc];
        thrown := Jump(ins.operand);
      } else {
        if callStack == [] {
          pc := |program.instructions|;
        } else {
          pc := callStack[|callStack| - 1];
          callStack := callStack[..|callStack| - 1];
        }
        thrown := None;
      }
    }

    method DoRender(ins: Instruction) returns (thrown: Option<Error>)
      requires ins.op in {ToStr, Concat}
      modifies this`stack
      ensures Did(thrown, TextOp(limits, phrases, ins, old(Snapshot())))
    {
      hide Render, PushValue;
      var v;
      thrown, v := PopOff();
      if thrown.Some? { return; }
      if ins.op == ToStr {
        thrown := PushOnto(Str(Render(v)));
      } else {
        var left;
        thrown, left := PopOff();
        if thrown.Some? { return; }
        thrown := PushOnto(Str(Render(left) + Render(v)));
      }
    }

    method DoOutput(ins: Instruction) returns (thrown: Option<Error>)
      requires ins.op in {OutN, OutC}
      modifies this`stack, this`output
      ensures Did(thrown, TextOp(limits, phrases, ins, old(Snapshot())))
    {
      hide Decimal, FromCodePoint, UnicodeScalar, PopInteger;
      var n;
      thrown, n := PopIntegerOff();
      if thrown.Some? { return; }
      if ins.op == OutN {
        output := output + Decimal(n);
      } else {
        if !UnicodeScalar(n) { return Some(Error(TypeError, pc, None)); }
        output := output + FromCodePoint(n);
      }
    }

    method DoSyscall(ins: Instruction) returns (thrown: Option<Error>)
      requires ins.op == Sys
      modifies this`stack, this`output, this`halted
      ensures Did(thrown, TextOp(limits, phrases, ins, old(Snapshot())))
    {
      hide Render;
      match phrases(ins.operand) {
        case CriticSays =>
          var v;
          thrown, v := PopOff();
          if thrown.Some? { return; }
          output := output + Render(v) + [10];
        case PerformanceOver =>
          halted := true;
          thrown := None;
        case NotEnabled =>
          thrown := Some(Error(UnsupportedSyscall, pc, None));
      }
    }

    method StepOnce() returns (thrown: Option<Error>)
      modifies this`pc, this`stack, this`callStack, this`registers, this`heap, this`output, this`halted
      ensures Did(thrown, Step(program, limits, phrases, old(Snapshot())))
    {
      hide Arithmetic, StackOp, MemoryOp, ControlOp, TextOp;
      thrown := None;
      if !(0 <= pc < |program.instructions|) {
        halted := true;
        return;
      }
      var ins := program.instructions[pc];
      pc := pc + 1;
      match ins.op {
        case Nop =>
        case Add | Sub | Mul | Div | Mod | CmpGt => thrown := DoArithmetic(ins);
        case Push | Pop | Dup | Swap | Not => thrown := DoStack(ins);
        case Load | Store => thrown := DoRegister(ins);
        case HLoad | HStore => thrown := DoHeap(ins);
        case Jmp | Jz | Jnz | Call | Ret => thrown := DoControl(ins);
        case ToStr | Concat => thrown := DoRender(ins);
        case OutN | OutC => thrown := DoOutput(ins);
        case Sys => thrown := DoSyscall(ins);
        case HaltOp => halted := true;
        case Unknown(_) => thrown := Some(Error(UnknownOpcode, pc, ins.line));
      }
    }

    /** The run loop: the final state and step count, or the error of the first failing step. */
    method Run() returns (thrown: Option<Error>)
      modifies this
      ensures match RunFrom(program, limits, phrases, old(Snapshot()), old(steps))
              case Ok((st, n)) => thrown == None && Snapshot() == st && steps == n
              case Err(e) => thrown == Some(e)
    {
      hide Step;
      ghost var ending := RunFrom(program, limits, phrases, Snapshot(), steps);
      thrown := None;
      while !halted
        invariant ending == RunFrom(program, limits, phrases, Snapshot(), steps)
        invariant thrown == None
        decreases if limits.maxSteps > steps then limits.maxSteps - steps else 0
      {
        if steps >= limits.maxSteps {
          return Some(Error(ResourceLimit, pc, None));
        }
        thrown := StepOnce();
        if thrown.Some? {
          return;
        }
        steps := steps + 1;
      }
    }
  }
}
