/**
 Encoding a program as notes and compiling the notes again gives back the program, cut after its
 first HALT, for every admissible root note, and fails in exactly one family of cases.
 */
module VelatoRoundTrip {
  import opened Outcomes
  import opened VelatoIr
  import opened VelatoAnalyzer
  import opened VelatoNotes

  /** The instruction a note can stand for: integral constants come back as integers, stray operands are lost. */
  function Canonical(ins: Instruction): Instruction {
    match ins.op
    case PushConst => Instruction(PushConst, if ins.arg.FloatArg? then IntArg(ins.arg.f.Floor) else ins.arg)
    case LoadInput | LoadLocal | StoreLocal => ins
    case _ => Instruction(ins.op, NoArg)
  }

  function CanonicalAll(ir: seq<Instruction>): (r: seq<Instruction>)
    ensures |r| == |ir|
    ensures forall j :: 0 <= j < |ir| ==> r[j] == Canonical(ir[j])
  {
    seq(|ir|, j requires 0 <= j < |ir| => Canonical(ir[j]))
  }

  /** The program up to and including its first HALT. */
  function Cut(ir: seq<Instruction>): seq<Instruction> {
    ir[..LiveLength(ir)]
  }

  predicate Encodable(ins: Instruction) {
    EncodeVelocity(ins).Ok?
  }

  predicate AllEncodable(ir: seq<Instruction>) {
    forall k :: 0 <= k < |ir| ==> Encodable(ir[k])
  }

  function NoteOf(ins: Instruction, root: int): MidiNote
    requires Encodable(ins)
  {
    MidiNote(root + EncodingOf(ins.op).1, EncodeVelocity(ins).value, EncodingOf(ins.op).0)
  }

  function NotesFor(ir: seq<Instruction>, root: int): (r: seq<MidiNote>)
    requires AllEncodable(ir)
    ensures |r| == |ir|
    ensures forall j :: 0 <= j < |ir| ==> r[j] == NoteOf(ir[j], root)
  {
    seq(|ir|, j requires 0 <= j < |ir| => NoteOf(ir[j], root))
  }

  // ----- one instruction -----

  lemma VelocityInRange(ins: Instruction)
    requires Encodable(ins)
    ensures 1 <= EncodeVelocity(ins).value <= 127
  {
  }

  lemma OperandRoundTrip(ins: Instruction)
    requires Encodable(ins)
    ensures DecodeOperand(ins.op, EncodeVelocity(ins).value) == Ok(Canonical(ins).arg)
  {
  }

  lemma InstructionRoundTrip(ins: Instruction, root: int)
    requires Encodable(ins)
    ensures DecodeNote(NoteOf(ins, root), root) == Ok(Canonical(ins))
  {
    hide EncodeVelocity, DecodeOperand, EncodingOf, OpAt;
    EncodingIsInBanks(ins.op);
    assert (root + EncodingOf(ins.op).1 - root) % 12 == EncodingOf(ins.op).1;
    OperandRoundTrip(ins);
  }

  // ----- from messages to notes -----

  lemma {:induction false} CollectAppends(a: seq<Message>, b: seq<Message>, notes: seq<MidiNote>)
    ensures Collect(a + b, notes) == match Collect(a, notes)
                                     case Ok(more) => Collect(b, more)
                                     case Err(e) => Err(e)
  {
    if a == [] {
      assert a + b == b;
    } else {
      assert (a + b)[1..] == a[1..] + b;
      var msg := a[0];
      var notes' := if msg.NoteOn? && msg.velocity > 0
                    then notes + [MidiNote(msg.note, msg.velocity, msg.channel)] else notes;
      CollectAppends(a[1..], b, notes');
    }
  }

  lemma CollectVoice(bank: int, note: int, velocity: int, ticks: int, notes: seq<MidiNote>)
    requires velocity > 0 && |notes| <= MAX_NOTES
    ensures Collect(Voice(bank, note, velocity, ticks), notes) ==
            if |notes| < MAX_NOTES then Ok(notes + [MidiNote(note, velocity, bank)]) else Err(NoteLimit)
  {
    var on, off := NoteOn(bank, note, velocity, 0), NoteOff(bank, note, 0, ticks);
    assert [on, off][1..] == [off];
    assert [off][1..] == [];
    var more := notes + [MidiNote(note, velocity, bank)];
    if |notes| < MAX_NOTES {
      assert Collect([], more) == Ok(more);
      assert Collect([off], more) == Ok(more);
    }
  }

  lemma {:induction false} CollectEncoded(ir: seq<Instruction>, root: int, ticks: int, notes: seq<MidiNote>)
    requires |notes| <= MAX_NOTES
    ensures Encode(ir, root, ticks).Ok? <==> AllEncodable(ir)
    ensures AllEncodable(ir) ==>
              Collect(Encode(ir, root, ticks).value, notes) ==
              if |notes| + |ir| <= MAX_NOTES then Ok(notes + NotesFor(ir, root)) else Err(NoteLimit)
    decreases |ir|
  {
    hide EncodeVelocity, EncodingOf, Collect, Voice;
    if ir == [] {
      assert notes + [] == notes;
      assert Collect([], notes) == Ok(notes) by { CollectNothing(notes); }
    } else {
      var n := |ir| - 1;
      var init, ins := ir[..n], ir[n];
      CollectEncoded(init, root, ticks, notes);
      assert AllEncodable(ir) <==> AllEncodable(init) && Encodable(ins);
      if AllEncodable(ir) {
        VelocityInRange(ins);
        var bank, note, velocity := EncodingOf(ins.op).0, root + EncodingOf(ins.op).1, EncodeVelocity(ins).value;
        CollectAppends(Encode(init, root, ticks).value, Voice(bank, note, velocity, ticks), notes);
        if |notes| + n <= MAX_NOTES {
          CollectVoice(bank, note, velocity, ticks, notes + NotesFor(init, root));
          assert NotesFor(ir, root) == NotesFor(init, root) + [NoteOf(ins, root)];
          assert notes + NotesFor(ir, root) == notes + NotesFor(init, root) + [NoteOf(ins, root)];
        }
      }
    }
  }

  lemma CollectNothing(notes: seq<MidiNote>)
    ensures Collect([], notes) == Ok(notes)
  {
  }

  // ----- from notes to instructions -----

  lemma CanonicalKeepsOp(ins: Instruction)
    ensures Canonical(ins).op == ins.op
  {
  }

  lemma CanonicalFirst(ir: seq<Instruction>, k: nat, n: nat)
    requires k < n <= |ir|
    ensures CanonicalAll(ir[k..n]) == [Canonical(ir[k])] + CanonicalAll(ir[k + 1..n])
  {
    hide Canonical;
    assert ir[k..n][1..] == ir[k + 1..n];
  }

  lemma {:induction false} DecodeFrom(ir: seq<Instruction>, root: int, k: nat)
    requires k <= |ir| && AllEncodable(ir)
    ensures Decode(NotesFor(ir, root)[k..], root) == Ok(CanonicalAll(ir[k..LiveFrom(ir, k)]))
    decreases |ir| - k
  {
    hide EncodeVelocity, EncodingOf, DecodeNote, NoteOf, Canonical;
    var notes := NotesFor(ir, root);
    if k == |ir| {
      assert notes[k..] == [] && ir[k..LiveFrom(ir, k)] == [];
    } else {
      assert notes[k..][0] == NoteOf(ir[k], root) && notes[k..][1..] == notes[k + 1..];
      InstructionRoundTrip(ir[k], root);
      CanonicalKeepsOp(ir[k]);
      if ir[k].op == Halt {
        assert LiveFrom(ir, k) == k + 1;
        CanonicalFirst(ir, k, k + 1);
        assert CanonicalAll(ir[k + 1..k + 1]) == [];
        assert CanonicalAll(ir[k..LiveFrom(ir, k)]) == [Canonical(ir[k])];
      } else {
        DecodeFrom(ir, root, k + 1);
        CanonicalFirst(ir, k, LiveFrom(ir, k + 1));
      }
    }
  }

  // ----- the cut program is accepted again -----

  lemma {:induction false} SameOpsSameDepths(a: seq<Instruction>, b: seq<Instruction>, k: nat)
    requires k <= |a| && k <= |b| && forall j :: 0 <= j < k ==> a[j].op == b[j].op
    ensures DepthAt(a, k) == DepthAt(b, k) && PeakAt(a, k) == PeakAt(b, k)
  {
    hide StackEffect;
    if k > 0 {
      SameOpsSameDepths(a, b, k - 1);
    }
  }

  lemma CanonicalStaysValid(ins: Instruction)
    requires ValidOperand(ins) && Encodable(ins)
    ensures ValidOperand(Canonical(ins)) && Canonical(ins).op == ins.op
  {
  }

  /** Sealing the canonical live prefix gives an accepted program unless the added HALT is one too many. */
  lemma SealedCutIsAccepted(ir: seq<Instruction>)
    requires Accepted(ir, DEFAULT_MAX_INSTRUCTIONS, DEFAULT_MAX_STACK) && AllEncodable(ir)
    ensures Sealed(CanonicalAll(Cut(ir))) ==
            if HasHalt(ir) || |ir| < DEFAULT_MAX_INSTRUCTIONS then Ok(Seal(CanonicalAll(Cut(ir)))) else Err(InstructionLimit)
  {
    hide ValidOperand, EncodeVelocity, StackEffect, Canonical, AnalysisOf, FaultAt, LiveLength, Accepted, Sealed, HasHalt;
    var code := CanonicalAll(Cut(ir));
    AnalyzeAcceptsExactly(ir, DEFAULT_MAX_INSTRUCTIONS, DEFAULT_MAX_STACK);
    forall k | 0 <= k < LiveLength(ir)
      ensures ValidOperand(code[k]) && code[k].op == ir[k].op
    {
      assert SafeAt(ir, k, DEFAULT_MAX_STACK);
      CanonicalStaysValid(ir[k]);
    }
    SealedLiveCode(ir, code);
  }

  /** Sealing code with the opcodes of an accepted program's live part. */
  lemma SealedLiveCode(ir: seq<Instruction>, code: seq<Instruction>)
    requires Accepted(ir, DEFAULT_MAX_INSTRUCTIONS, DEFAULT_MAX_STACK) && |code| == LiveLength(ir)
    requires forall k :: 0 <= k < |code| ==> ValidOperand(code[k]) && code[k].op == ir[k].op
    ensures Sealed(code) == if HasHalt(ir) || |ir| < DEFAULT_MAX_INSTRUCTIONS then Ok(Seal(code)) else Err(InstructionLimit)
  {
    assert ir != [] && |ir| <= DEFAULT_MAX_INSTRUCTIONS;
    hide ValidOperand, Analyze, LiveLength, Accepted;
    var sealed := Seal(code);
    LiveEnds(ir);
    assert HasHalt(ir) <==> ir[|code| - 1].op == Halt;
    LivePrefixUnique(sealed, |sealed|);
    SameShapeIsAccepted(ir, sealed);
  }

  /** A program with the opcodes of an accepted one as far as both are live, and at most a HALT more, passes unless it is too long. */
  lemma SameShapeIsAccepted(ir: seq<Instruction>, sealed: seq<Instruction>)
    requires Accepted(ir, DEFAULT_MAX_INSTRUCTIONS, DEFAULT_MAX_STACK) && sealed != []
    requires var live, n := LiveLength(ir), LiveLength(sealed);
             && (n <= live || (n == |sealed| == |ir| + 1 && live == |ir| && sealed[|ir|] == HALT))
             && forall k :: 0 <= k < n && k < live ==> ValidOperand(sealed[k]) && sealed[k].op == ir[k].op
    ensures var analysis := Analyze(sealed, DEFAULT_MAX_INSTRUCTIONS, DEFAULT_MAX_STACK);
            if |sealed| <= DEFAULT_MAX_INSTRUCTIONS then analysis.Ok? else analysis == Err(InstructionLimit)
  {
    hide ValidOperand, StackEffect, FirstFault, AnalysisOf, FaultAt, LiveLength;
    forall k | 0 <= k < LiveLength(sealed)
      ensures FaultAt(sealed, k, DEFAULT_MAX_STACK) == None
    {
      if k < LiveLength(ir) {
        SealedFaultFree(ir, sealed, k);
      } else {
        SealFaultFree(ir, sealed);
      }
    }
    AnalyzeAcceptsExactly(sealed, DEFAULT_MAX_INSTRUCTIONS, DEFAULT_MAX_STACK);
  }

  lemma SealedFaultFree(ir: seq<Instruction>, sealed: seq<Instruction>, k: nat)
    requires k < |ir| && k < |sealed| && ValidOperand(sealed[k])
    requires FaultAt(ir, k, DEFAULT_MAX_STACK) == None
    requires forall j :: 0 <= j <= k ==> sealed[j].op == ir[j].op
    ensures FaultAt(sealed, k, DEFAULT_MAX_STACK) == None
  {
    hide ValidOperand, StackEffect;
    SameOpsSameDepths(ir, sealed, k);
    SameOpsSameDepths(ir, sealed, k + 1);
  }

  lemma SealFaultFree(ir: seq<Instruction>, sealed: seq<Instruction>)
    requires |sealed| == |ir| + 1 && sealed[|ir|] == HALT && 0 < |ir|
    requires forall j :: 0 <= j < |ir| ==> sealed[j].op == ir[j].op
    requires FaultAt(ir, |ir| - 1, DEFAULT_MAX_STACK) == None
    ensures FaultAt(sealed, |ir|, DEFAULT_MAX_STACK) == None
  {
    var n := |ir|;
    SameOpsSameDepths(ir, sealed, n);
    PeakIsLargestDepth(sealed, n);
    assert DepthAt(sealed, n + 1) == DepthAt(sealed, n);
    assert DepthAt(ir, n) == DepthAt(ir, n - 1) - Pops(ir[n - 1].op) + Pushes(ir[n - 1].op);
  }

  // ----- the theorem -----

  /** `encode_midi` succeeds exactly on accepted, encodable programs with an admissible root and positive timing. */
  lemma EncodesExactly(ir: seq<Instruction>, root: int, ticksPerBeat: int, ticks: int)
    ensures EncodeProgram(ir, root, ticksPerBeat, ticks).Ok? <==>
            && Accepted(ir, DEFAULT_MAX_INSTRUCTIONS, DEFAULT_MAX_STACK)
            && 0 <= root <= 116 && ticksPerBeat > 0 && ticks > 0
            && AllEncodable(ir)
  {
    hide Analyze, Accepted, Encode, EncodeVelocity;
    AnalyzeAcceptsExactly(ir, DEFAULT_MAX_INSTRUCTIONS, DEFAULT_MAX_STACK);
    CollectEncoded(ir, root, ticks, []);
  }

  /**
   The note-level round trip. The result does not depend on the root note; it is the program cut
   after its first HALT (one is appended if there was none), unless the program fills all 512
   instructions without a HALT, and then the compiler rejects its own encoding. The size is that of
   the file the messages were stored in.
   */
  lemma NoteRoundTrip(ir: seq<Instruction>, root: int, ticksPerBeat: int, ticks: int, size: nat)
    requires EncodeProgram(ir, root, ticksPerBeat, ticks).Ok?
    ensures CompileTracks(size, [EncodeProgram(ir, root, ticksPerBeat, ticks).value]) ==
            if size > MAX_BYTES then Err(ByteLimit)
            else if HasHalt(ir) || |ir| < 512 then Ok(Seal(CanonicalAll(Cut(ir)))) else Err(InstructionLimit)
  {
    hide Encode, EncodeVelocity, Analyze, Collect, Decode, Voice, Seal, Sealed;
    EncodesExactly(ir, root, ticksPerBeat, ticks);
    var messages := EncodeProgram(ir, root, ticksPerBeat, ticks).value;
    var body := Encode(ir, root, ticks).value;
    var first := MidiNote(root, 64, 0);
    assert Flatten([messages]) == messages by {
      assert [messages][1..] == [];
      assert messages + [] == messages;
    }
    CollectAppends(Voice(0, root, 64, ticks), body, []);
    CollectVoice(0, root, 64, ticks, []);
    CollectEncoded(ir, root, ticks, [first]);
    assert [] + [first] == [first];
    var notes := [first] + NotesFor(ir, root);
    assert size <= MAX_BYTES ==> NotesOf(size, [messages]) == Ok(notes);
    assert notes[1..] == NotesFor(ir, root) == NotesFor(ir, root)[0..];
    DecodeFrom(ir, root, 0);
    assert Cut(ir) == ir[0..LiveFrom(ir, 0)];
    SealedCutIsAccepted(ir);
  }

  /** Every message of an encoded program, the root's included, is a legal MIDI message. */
  lemma MessagesInRange(ir: seq<Instruction>, root: int, ticksPerBeat: int, ticks: int)
    requires EncodeProgram(ir, root, ticksPerBeat, ticks).Ok?
    ensures forall m :: m in EncodeProgram(ir, root, ticksPerBeat, ticks).value ==> LegalMessage(m)
  {
    hide Encode, Analyze;
    BodyInRange(ir, root, ticks);
  }

  lemma {:induction false} BodyInRange(ir: seq<Instruction>, root: int, ticks: int)
    requires 0 <= root <= 116 && ticks > 0 && Encode(ir, root, ticks).Ok?
    ensures forall m :: m in Encode(ir, root, ticks).value ==> LegalMessage(m)
    decreases |ir|
  {
    hide EncodeVelocity, EncodingOf;
    if ir != [] {
      BodyInRange(ir[..|ir| - 1], root, ticks);
      VelocityInRange(ir[|ir| - 1]);
      EncodingIsInBanks(ir[|ir| - 1].op);
    }
  }

  predicate LegalMessage(m: Message) {
    match m
    case NoteOn(channel, note, velocity, time) => 0 <= channel < 16 && 0 <= note <= 127 && 1 <= velocity <= 127 && time >= 0
    case NoteOff(channel, note, velocity, time) => 0 <= channel < 16 && 0 <= note <= 127 && 0 <= velocity <= 127 && time >= 0
    case _ => false
  }
}
