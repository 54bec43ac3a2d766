/**
 Programs as music: the note-level encoder and decoder of the Velato engine, at the level of
 MIDI messages. A message's channel picks the instruction bank, its distance from the root note
 picks the opcode, its velocity carries the operand.
 */
module VelatoNotes {
  import opened Outcomes
  import opened VelatoIr
  import opened VelatoAnalyzer

  datatype MidiNote = MidiNote(note: int, velocity: int, channel: int)

  datatype Message =
    | NoteOn(channel: int, note: int, velocity: int, time: int)
    | NoteOff(channel: int, note: int, velocity: int, time: int)
    | Sysex
    | SetTempo(microseconds: nat, time: int)
    | EndOfTrack(time: int)
    | OtherMessage

  const MAX_NOTES := 1024
  const MAX_BYTES := 128_000

  // ----- the bank tables and their inverse -----

  /** `OP_ENCODING`: the (bank, interval) at which an opcode sits. */
  function EncodingOf(op: Op): (int, int) {
    if CoreInterval(op) >= 0 then (0, CoreInterval(op))
    else if NumericInterval(op) >= 0 then (1, NumericInterval(op))
    else if LogicInterval(op) >= 0 then (2, LogicInterval(op))
    else (3, StateInterval(op))
  }

  function CoreInterval(op: Op): int {
    match op
    case Halt => 0 case PushConst => 1 case LoadInput => 2 case Add => 3 case Sub => 4 case Mul => 5
    case Gt => 6 case Select => 7 case StoreScore => 8 case StoreSeverity => 9 case StoreRoute => 10
    case StoreSuppress => 11 case _ => -1
  }

  function NumericInterval(op: Op): int {
    match op
    case Min => 0 case Max => 1 case Div => 2 case Mod => 3 case Neg => 4 case Abs => 5
    case Clamp => 6 case Floor => 7 case Ceil => 8 case Round => 9 case Pow => 10 case Sqrt => 11 case _ => -1
  }

  function LogicInterval(op: Op): int {
    match op
    case Eq => 0 case Ne => 1 case Lt => 2 case Lte => 3 case Gte => 4 case And => 5
    case Or => 6 case Xor => 7 case Not => 8 case IsZero => 9 case Between => 10 case Sign => 11 case _ => -1
  }

  function StateInterval(op: Op): int {
    match op
    case Dup => 0 case Swap => 1 case Over => 2 case Drop => 3 case LoadLocal => 4 case StoreLocal => 5
    case Nop => 6 case StackDepth => 7 case LoadScore => 8 case LoadSeverity => 9 case LoadRoute => 10
    case LoadSuppress => 11 case _ => -1
  }

  /** The opcode at an interval of a bank; unknown banks are rejected by the caller. */
  function OpAt(bank: int, interval: int): Option<Op> {
    if 0 <= bank < |BANKS| && 0 <= interval < |BANKS[bank]| then Some(BANKS[bank][interval]) else None
  }

  /** The encoding inverts the banks: every opcode sits in exactly one place, and every place is taken. */
  lemma EncodingInvertsBanks(op: Op, bank: int, interval: int)
    ensures OpAt(bank, interval) == Some(op) <==> EncodingOf(op) == (bank, interval)
  {
    EncodingIsInBanks(op);
    if OpAt(bank, interval) == Some(op) {
      BankIsEncoded(bank, interval);
    }
  }

  lemma EncodingIsInBanks(op: Op)
    ensures 0 <= EncodingOf(op).0 < 4 && 0 <= EncodingOf(op).1 < 12
    ensures OpAt(EncodingOf(op).0, EncodingOf(op).1) == Some(op)
  {
    hide CoreInterval, NumericInterval, LogicInterval, StateInterval;
    PlaceExists(op);
    InCoreBank(op);
    InNumericBank(op);
    InLogicBank(op);
    InStateBank(op);
  }

  lemma PlaceExists(op: Op)
    ensures CoreInterval(op) >= 0 || NumericInterval(op) >= 0 || LogicInterval(op) >= 0 || StateInterval(op) >= 0
  {
  }

  lemma InCoreBank(op: Op)
    ensures CoreInterval(op) >= 0 ==> CoreInterval(op) < 12 && BANKS[0][CoreInterval(op)] == op
  {
  }

  lemma InNumericBank(op: Op)
    ensures NumericInterval(op) >= 0 ==> NumericInterval(op) < 12 && BANKS[1][NumericInterval(op)] == op
  {
  }

  lemma InLogicBank(op: Op)
    ensures LogicInterval(op) >= 0 ==> LogicInterval(op) < 12 && BANKS[2][LogicInterval(op)] == op
  {
  }

  lemma InStateBank(op: Op)
    ensures StateInterval(op) >= 0 ==> StateInterval(op) < 12 && BANKS[3][StateInterval(op)] == op
  {
  }

  lemma BankIsEncoded(bank: int, interval: int)
    requires OpAt(bank, interval).Some?
    ensures EncodingOf(OpAt(bank, interval).value) == (bank, interval)
  {
    hide EncodingOf;
    if bank == 0 { CoreBank(interval); }
    else if bank == 1 { NumericBank(interval); }
    else if bank == 2 { LogicBank(interval); }
    else { StateBank(interval); }
  }

  lemma CoreBank(i: int)
    requires 0 <= i < 12
    ensures EncodingOf(BANKS[0][i]) == (0, i)
  {
  }

  lemma NumericBank(i: int)
    requires 0 <= i < 12
    ensures EncodingOf(BANKS[1][i]) == (1, i)
  {
    hide CoreInterval;
    CoreMisses(i);
  }

  lemma LogicBank(i: int)
    requires 0 <= i < 12
    ensures EncodingOf(BANKS[2][i]) == (2, i)
  {
    hide CoreInterval, NumericInterval;
    CoreMisses(i);
    NumericMisses(i);
  }

  lemma StateBank(i: int)
    requires 0 <= i < 12
    ensures EncodingOf(BANKS[3][i]) == (3, i)
  {
    hide CoreInterval, NumericInterval, LogicInterval;
    CoreMissesState(i);
    NumericMisses(i);
    LogicMisses(i);
  }

  lemma CoreMisses(i: int)
    requires 0 <= i < 12
    ensures CoreInterval(BANKS[1][i]) == CoreInterval(BANKS[2][i]) == -1
  {
  }

  lemma CoreMissesState(i: int)
    requires 0 <= i < 12
    ensures CoreInterval(BANKS[3][i]) == -1
  {
  }

  lemma NumericMisses(i: int)
    requires 0 <= i < 12
    ensures NumericInterval(BANKS[2][i]) == NumericInterval(BANKS[3][i]) == -1
  {
  }

  lemma LogicMisses(i: int)
    requires 0 <= i < 12
    ensures LogicInterval(BANKS[3][i]) == -1
  {
  }

  // ----- decoding -----

  function DecodeOperand(op: Op, velocity: int): Result<Arg, Fault> {
    var operand := velocity - 1;
    match op
    case PushConst => Ok(IntArg(operand))
    case LoadInput => if 0 <= operand < |INPUTS| then Ok(TextArg(INPUTS[operand])) else Err(InvalidInputRegister)
    case LoadLocal | StoreLocal => if 0 <= operand < MAX_LOCALS then Ok(IntArg(operand)) else Err(InvalidLocalRegister)
    case _ => Ok(NoArg)
  }

  function DecodeNote(event: MidiNote, root: int): Result<Instruction, Fault> {
    var op := OpAt(event.channel, (event.note - root) % 12);
    if op.None? then Err(UnsupportedBank)
    else
      var arg :- DecodeOperand(op.value, event.velocity);
      Ok(Instruction(op.value, arg))
  }

  /** Decoding stops at the first HALT. */
  function Decode(events: seq<MidiNote>, root: int): Result<seq<Instruction>, Fault> {
    if events == [] then Ok([])
    else
      var ins :- DecodeNote(events[0], root);
      if ins.op == Halt then Ok([ins])
      else
        var rest :- Decode(events[1..], root);
        Ok([ins] + rest)
  }

  /** Appending the final HALT when it is missing. */
  function Seal(ir: seq<Instruction>): seq<Instruction> {
    if ir == [] || ir[|ir| - 1].op != Halt then ir + [HALT] else ir
  }

  /** A sealed program that the analyzer accepts, or the analyzer's complaint. */
  function Sealed(ir: seq<Instruction>): Result<seq<Instruction>, Fault> {
    var analysis :- Analyze(Seal(ir), DEFAULT_MAX_INSTRUCTIONS, DEFAULT_MAX_STACK);
    Ok(Seal(ir))
  }

  function Compile(notes: seq<MidiNote>): Result<seq<Instruction>, Fault> {
    if notes == [] then Err(MissingRoot)
    else
      var ir :- Decode(notes[1..], notes[0].note);
      Sealed(ir)
  }

  /** Which notes are refused, and why: by channel, and by velocity where that is the operand. */
  lemma DecodeFailsExactly(event: MidiNote, root: int)
    ensures var interval, r := (event.note - root) % 12, DecodeNote(event, root);
            && (r == Err(UnsupportedBank) <==> !(0 <= event.channel <= 3))
            && (r == Err(InvalidInputRegister) <==> event.channel == 0 && interval == 2 && !(1 <= event.velocity <= 10))
            && (r == Err(InvalidLocalRegister) <==> event.channel == 3 && interval in {4, 5} && !(1 <= event.velocity <= 16))
            && (r.Err? ==> r.error in {UnsupportedBank, InvalidInputRegister, InvalidLocalRegister})
  {
    hide EncodingOf;
    var bank, interval := event.channel, (event.note - root) % 12;
    Registers();
    EncodingInvertsBanks(LoadInput, bank, interval);
    EncodingInvertsBanks(LoadLocal, bank, interval);
    EncodingInvertsBanks(StoreLocal, bank, interval);
    BanksAreFull(bank, interval);
    hide OpAt;
  }

  lemma Registers()
    ensures EncodingOf(LoadInput) == (0, 2) && EncodingOf(LoadLocal) == (3, 4) && EncodingOf(StoreLocal) == (3, 5)
  {
  }

  lemma BanksAreFull(bank: int, interval: int)
    requires 0 <= interval < 12
    ensures OpAt(bank, interval).Some? <==> 0 <= bank <= 3
  {
  }

  /** The same channels and velocities, and the same distances from the root up to octaves. */
  ghost predicate SoundAlike(a: seq<MidiNote>, b: seq<MidiNote>) {
    |a| == |b| && forall k :: 1 <= k < |a| ==>
      && a[k].channel == b[k].channel && a[k].velocity == b[k].velocity
      && (a[k].note - a[0].note) % 12 == (b[k].note - b[0].note) % 12
  }

  lemma {:induction false} DecodesAlike(a: seq<MidiNote>, b: seq<MidiNote>, root: int, other: int)
    requires |a| == |b| && forall k :: 0 <= k < |a| ==>
               a[k].channel == b[k].channel && a[k].velocity == b[k].velocity && (a[k].note - root) % 12 == (b[k].note - other) % 12
    ensures Decode(a, root) == Decode(b, other)
  {
    hide DecodeNote;
    if a != [] {
      DecodeAlike(a[0], b[0], root, other);
      DecodesAlike(a[1..], b[1..], root, other);
    }
  }

  lemma DecodeAlike(a: MidiNote, b: MidiNote, root: int, other: int)
    requires a.channel == b.channel && a.velocity == b.velocity && (a.note - root) % 12 == (b.note - other) % 12
    ensures DecodeNote(a, root) == DecodeNote(b, other)
  {
    hide DecodeOperand, OpAt;
  }

  /** Transposing a tune, root and all, or moving any of its notes by octaves, does not change the program. */
  lemma TransposingKeepsPrograms(a: seq<MidiNote>, b: seq<MidiNote>)
    requires SoundAlike(a, b)
    ensures Compile(a) == Compile(b)
  {
    if a != [] {
      hide Decode, Sealed;
      DecodesAlike(a[1..], b[1..], a[0].note, b[0].note);
    }
  }

  method CompileNotes(notes: seq<MidiNote>) returns (r: Result<seq<Instruction>, Fault>)
    ensures r == Compile(notes)
  {
    hide DecodeNote, Analyze;
    if notes == [] {
      return Err(MissingRoot);
    }
    var root := notes[0].note;
    var ir: seq<Instruction> := [];
    var k, halted := 1, false;
    assert forall rest: seq<Instruction> :: [] + rest == rest;
    while k < |notes| && !halted
      invariant 1 <= k <= |notes|
      invariant halted ==> Decode(notes[1..], root) == Ok(ir)
      invariant !halted ==> Decode(notes[1..], root) == Prepend(ir, Decode(notes[k..], root))
    {
      var ins := DecodeNote(notes[k], root);
      assert notes[k..][1..] == notes[k + 1..];
      if ins.Err? {
        return Err(ins.error);
      }
      assert forall rest :: ir + ([ins.value] + rest) == (ir + [ins.value]) + rest;
      ir := ir + [ins.value];
      halted := ins.value.op == Halt;
      k := k + 1;
    }
    assert ir + [] == ir;
    assert Decode(notes[1..], root) == Ok(ir);
    if ir == [] || ir[|ir| - 1].op != Halt {
      ir := ir + [HALT];
    }
    var analysis := AnalyzeIr(ir, DEFAULT_MAX_INSTRUCTIONS, DEFAULT_MAX_STACK);
    if analysis.Err? {
      return Err(analysis.error);
    }
    r := Ok(ir);
  }

  function Prepend(ir: seq<Instruction>, r: Result<seq<Instruction>, Fault>): Result<seq<Instruction>, Fault> {
    if r.Err? then r else Ok(ir + r.value)
  }

  // ----- reading the messages of a file -----

  /** The notes among the messages, with the reader's limits checked message by message. */
  function Collect(messages: seq<Message>, notes: seq<MidiNote>): Result<seq<MidiNote>, Fault> {
    if messages == [] then Ok(notes)
    else
      var msg := messages[0];
      if msg.Sysex? then Err(SysexUnsupported)
      else
        var notes' := if msg.NoteOn? && msg.velocity > 0
                      then notes + [MidiNote(msg.note, msg.velocity, msg.channel)] else notes;
        if |notes'| > MAX_NOTES then Err(NoteLimit) else Collect(messages[1..], notes')
  }

  function Flatten(tracks: seq<seq<Message>>): seq<Message> {
    if tracks == [] then [] else tracks[0] + Flatten(tracks[1..])
  }

  /** The notes of a file of the given size with the given tracks. */
  function NotesOf(size: nat, tracks: seq<seq<Message>>): Result<seq<MidiNote>, Fault> {
    if size > MAX_BYTES then Err(ByteLimit)
    else
      var notes :- Collect(Flatten(tracks), []);
      if |notes| < 2 then Err(TooFewNotes) else Ok(notes)
  }

  /** `parse_midi`, given the size of the file and the messages of its tracks. */
  method ParseMidi(size: nat, tracks: seq<seq<Message>>) returns (r: Result<seq<MidiNote>, Fault>)
    ensures r == NotesOf(size, tracks)
  {
    if size > MAX_BYTES {
      return Err(ByteLimit);
    }
    var notes: seq<MidiNote> := [];
    for t := 0 to |tracks|
      invariant Collect(Flatten(tracks), []) == Collect(Flatten(tracks[t..]), notes)
    {
      var track := tracks[t];
      assert tracks[t..][1..] == tracks[t + 1..];
      assert track[0..] == track;
      for k := 0 to |track|
        invariant Collect(Flatten(tracks), []) == Collect(track[k..] + Flatten(tracks[t + 1..]), notes)
      {
        var msg := track[k];
        var after := track[k + 1..] + Flatten(tracks[t + 1..]);
        assert (track[k..] + Flatten(tracks[t + 1..]))[1..] == after;
        if msg.Sysex? {
          return Err(SysexUnsupported);
        }
        if msg.NoteOn? && msg.velocity > 0 {
          notes := notes + [MidiNote(msg.note, msg.velocity, msg.channel)];
        }
        if |notes| > MAX_NOTES {
          return Err(NoteLimit);
        }
      }
      assert track[|track|..] + Flatten(tracks[t + 1..]) == Flatten(tracks[t + 1..]);
    }
    if |notes| < 2 {
      return Err(TooFewNotes);
    }
    r := Ok(notes);
  }

  function CompileTracks(size: nat, tracks: seq<seq<Message>>): Result<seq<Instruction>, Fault> {
    var notes :- NotesOf(size, tracks);
    Compile(notes)
  }

  // ----- encoding -----

  function InputIndex(name: string, k: nat): (i: nat)
    requires k <= |INPUTS|
    ensures k <= i <= |INPUTS|
    ensures i < |INPUTS| ==> INPUTS[i] == name
    ensures i == |INPUTS| ==> name !in INPUTS[k..]
    decreases |INPUTS| - k
  {
    if k == |INPUTS| then k else if INPUTS[k] == name then k else InputIndex(name, k + 1)
  }

  function EncodeVelocity(ins: Instruction): Result<int, Fault> {
    match ins.op
    case PushConst =>
      (match ins.arg
       case IntArg(i) => if 0 <= i <= 126 then Ok(i + 1) else Err(Unencodable)
       case FloatArg(f) => if f == f.Floor as real && 0 <= f.Floor <= 126 then Ok(f.Floor + 1) else Err(Unencodable)
       case _ => Err(Unencodable))
    case LoadInput =>
      if ins.arg.TextArg? && ins.arg.s in INPUTS then Ok(InputIndex(ins.arg.s, 0) + 1) else Err(InvalidInputRegister)
    case LoadLocal | StoreLocal =>
      if ins.arg.IntArg? && 0 <= ins.arg.i < MAX_LOCALS then Ok(ins.arg.i + 1) else Err(InvalidLocalRegister)
    case _ => Ok(64)
  }

  /** The note-on and note-off of one instruction. */
  function Voice(bank: int, note: int, velocity: int, ticks: int): seq<Message> {
    [NoteOn(bank, note, velocity, 0), NoteOff(bank, note, 0, ticks)]
  }

  function Encode(ir: seq<Instruction>, root: int, ticks: int): Result<seq<Message>, Fault> {
    if ir == [] then Ok([])
    else
      var before :- Encode(ir[..|ir| - 1], root, ticks);
      var ins := ir[|ir| - 1];
      var velocity :- EncodeVelocity(ins);
      Ok(before + Voice(EncodingOf(ins.op).0, root + EncodingOf(ins.op).1, velocity, ticks))
  }

  function EncodeProgram(ir: seq<Instruction>, root: int, ticksPerBeat: int, ticks: int): Result<seq<Message>, Fault> {
    var analysis :- Analyze(ir, DEFAULT_MAX_INSTRUCTIONS, DEFAULT_MAX_STACK);
    if !(0 <= root <= 116) then Err(RootOutOfRange)
    else if ticksPerBeat <= 0 || ticks <= 0 then Err(BadTiming)
    else
      var body :- Encode(ir, root, ticks);
      Ok(Voice(0, root, 64, ticks) + body)
  }

  /** `encode_midi`, up to the list of messages on the single track. */
  method EncodeMidi(ir: seq<Instruction>, root: int, ticksPerBeat: int, ticks: int) returns (r: Result<seq<Message>, Fault>)
    ensures r == EncodeProgram(ir, root, ticksPerBeat, ticks)
  {
    hide EncodeVelocity, EncodingOf, Voice, Analyze;
    var analysis := AnalyzeIr(ir, DEFAULT_MAX_INSTRUCTIONS, DEFAULT_MAX_STACK);
    if analysis.Err? {
      return Err(analysis.error);
    }
    if !(0 <= root <= 116) {
      return Err(RootOutOfRange);
    }
    if ticksPerBeat <= 0 || ticks <= 0 {
      return Err(BadTiming);
    }
    var track := Voice(0, root, 64, ticks);
    ghost var body: seq<Message> := [];
    for k := 0 to |ir|
      invariant Encode(ir[..k], root, ticks) == Ok(body)
      invariant track == Voice(0, root, 64, ticks) + body
    {
      var ins := ir[k];
      assert ir[..k + 1][..k] == ir[..k];
      var velocity := EncodeVelocity(ins);
      if velocity.Err? {
        EncodeStops(ir, root, ticks, k + 1);
        return Err(velocity.error);
      }
      var voice := Voice(EncodingOf(ins.op).0, root + EncodingOf(ins.op).1, velocity.value, ticks);
      assert track + voice == Voice(0, root, 64, ticks) + (body + voice);
      track := track + voice;
      body := body + voice;
    }
    assert ir[..|ir|] == ir;
    r := Ok(track);
  }

  lemma {:induction false} EncodeStops(ir: seq<Instruction>, root: int, ticks: int, k: nat)
    requires k <= |ir| && Encode(ir[..k], root, ticks).Err?
    ensures Encode(ir, root, ticks) == Encode(ir[..k], root, ticks)
    decreases |ir|
  {
    hide EncodeVelocity, EncodingOf, Voice;
    if k < |ir| {
      assert ir[..|ir| - 1][..k] == ir[..k];
      EncodeStops(ir[..|ir| - 1], root, ticks, k);
    } else {
      assert ir[..k] == ir;
    }
  }
}
