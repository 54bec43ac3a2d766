/**
 The browser-side MIDI writer, byte for byte, and its agreement with the Python engine: reading
 its bytes as a Standard MIDI File and compiling the notes returns the instructions it was given.
 */
module VelatoShowcase {
  import opened Outcomes
  import opened VelatoIr
  import opened VelatoAnalyzer
  import opened VelatoNames
  import opened VelatoNotes
  import opened VelatoRoundTrip
  import opened StandardMidi
  import VL = VariableLength

  /** A parsed source line: a known operation and the text after it, if any. */
  datatype Line = Line(op: Op, operand: Option<string>)

  /** JavaScript's `Number`, restricted to what the writer asks of it: the integer it yields, if it yields one. */
  type NumberReading = string -> Option<int>

  const NOTE_TICKS := 120
  const TICKS_PER_BEAT := 480

  // ----- the browser's own tables -----

  const SHOWN_INPUTS: seq<string> := [
    "source_trust", "corroboration_count", "contradiction_count", "novelty", "entity_relevance",
    "graph_centrality", "geographic_relevance", "watchlist_match", "recency", "source_diversity"]

  const SHOWN_BANKS: seq<seq<string>> := [
    ["HALT", "PUSH_CONST", "LOAD_INPUT", "ADD", "SUB", "MUL", "GT", "SELECT",
     "STORE_SCORE", "STORE_SEVERITY", "STORE_ROUTE", "STORE_SUPPRESS"],
    ["MIN", "MAX", "DIV", "MOD", "NEG", "ABS", "CLAMP", "FLOOR", "CEIL", "ROUND", "POW", "SQRT"],
    ["EQ", "NE", "LT", "LTE", "GTE", "AND", "OR", "XOR", "NOT", "IS_ZERO", "BETWEEN", "SIGN"],
    ["DUP", "SWAP", "OVER", "DROP", "LOAD_LOCAL", "STORE_LOCAL", "NOP", "STACK_DEPTH",
     "LOAD_SCORE", "LOAD_SEVERITY", "LOAD_ROUTE", "LOAD_SUPPRESS"]]

  predicate InFours(banks: seq<seq<string>>) {
    |banks| == 4 && forall b :: 0 <= b < 4 ==> |banks[b]| == 12
  }

  lemma ShownInFours()
    ensures InFours(SHOWN_BANKS) && |BANKS| == 4 && forall b :: 0 <= b < 4 ==> |BANKS[b]| == 12
  {
  }

  lemma CoreShown(i: nat)
    requires i < 12
    ensures SHOWN_BANKS[0][i] == Name(BANKS[0][i])
  {
  }

  lemma NumericShown(i: nat)
    requires i < 12
    ensures SHOWN_BANKS[1][i] == Name(BANKS[1][i])
  {
    hide Name;
    assert SHOWN_BANKS[1][i] == NumericName(BANKS[1][i]) != "";
    hide NumericName;
    NumericAlone(BANKS[1][i]);
  }

  lemma LogicShown(i: nat)
    requires i < 12
    ensures SHOWN_BANKS[2][i] == Name(BANKS[2][i])
  {
    hide Name;
    assert SHOWN_BANKS[2][i] == LogicName(BANKS[2][i]) != "";
    hide LogicName;
    LogicAlone(BANKS[2][i]);
  }

  lemma StateShown(i: nat)
    requires i < 12
    ensures SHOWN_BANKS[3][i] == Name(BANKS[3][i])
  {
    hide Name;
    assert SHOWN_BANKS[3][i] == StateName(BANKS[3][i]) != "";
    hide StateName;
    StateAlone(BANKS[3][i]);
  }

  /** The browser's tables are the engine's: at every place the name of the opcode that sits there, and the inputs in order. */
  lemma TablesAgree(bank: nat, interval: nat)
    requires bank < 4 && interval < 12
    ensures InFours(SHOWN_BANKS) && |BANKS| == 4 && |BANKS[bank]| == 12
    ensures SHOWN_BANKS[bank][interval] == Name(BANKS[bank][interval])
    ensures SHOWN_INPUTS == INPUTS
  {
    hide Name;
    ShownInFours();
    if bank == 0 { CoreShown(interval); }
    else if bank == 1 { NumericShown(interval); }
    else if bank == 2 { LogicShown(interval); }
    else { StateShown(interval); }
  }

  /** The first place, counted through the banks, that holds the name. */
  function FindPlace(banks: seq<seq<string>>, name: string, place: nat): (int, int)
    requires InFours(banks) && place <= 48
    decreases 48 - place
  {
    if place == 48 then (-1, -1)
    else if banks[place / 12][place % 12] == name then (place / 12, place % 12)
    else FindPlace(banks, name, place + 1)
  }

  lemma {:induction false} FindsPlace(banks: seq<seq<string>>, name: string, place: nat, bank: nat, interval: nat)
    requires InFours(banks) && bank < 4 && interval < 12 && banks[bank][interval] == name && place <= 12 * bank + interval
    requires forall b, i :: 0 <= b < 4 && 0 <= i < 12 && banks[b][i] == name ==> b == bank && i == interval
    ensures FindPlace(banks, name, place) == (bank, interval)
    decreases 48 - place
  {
    if place < 12 * bank + interval {
      FindsPlace(banks, name, place + 1, bank, interval);
    }
  }

  /** `OP_ENCODING` of the browser, looked up by name, which is the engine's. */
  function Place(op: Op): (r: (int, int))
    ensures r == EncodingOf(op)
  {
    OnlyPlace(op);
    FindsPlace(SHOWN_BANKS, Name(op), 0, EncodingOf(op).0, EncodingOf(op).1);
    FindPlace(SHOWN_BANKS, Name(op), 0)
  }

  lemma OnlyPlace(op: Op)
    ensures 0 <= EncodingOf(op).0 < 4 && 0 <= EncodingOf(op).1 < 12
    ensures InFours(SHOWN_BANKS) && SHOWN_BANKS[EncodingOf(op).0][EncodingOf(op).1] == Name(op)
    ensures forall b, i :: 0 <= b < 4 && 0 <= i < 12 && SHOWN_BANKS[b][i] == Name(op) ==> b == EncodingOf(op).0 && i == EncodingOf(op).1
  {
    hide EncodingOf, Name;
    EncodingIsInBanks(op);
    TablesAgree(EncodingOf(op).0, EncodingOf(op).1);
    forall b, i | 0 <= b < 4 && 0 <= i < 12 && SHOWN_BANKS[b][i] == Name(op)
      ensures b == EncodingOf(op).0 && i == EncodingOf(op).1
    {
      TablesAgree(b, i);
      NamesDiffer(BANKS[b][i], op);
      EncodingInvertsBanks(op, b, i);
    }
  }

  lemma NamesDiffer(a: Op, b: Op)
    ensures Name(a) == Name(b) ==> a == b
  {
    hide Name, OpNamed;
    OpNamedInverts(a, Name(a));
    OpNamedInverts(b, Name(a));
  }

  predicate IsShown(name: string)
    ensures IsShown(name) <==> name in INPUTS
  {
    TablesAgree(0, 0);
    name in SHOWN_INPUTS
  }

  /** `INPUTS.indexOf`. */
  function ShownIndex(name: string, k: nat): (i: nat)
    requires k <= |SHOWN_INPUTS|
    ensures k <= |INPUTS| && i == InputIndex(name, k)
    decreases |SHOWN_INPUTS| - k
  {
    TablesAgree(0, 0);
    if k == |SHOWN_INPUTS| then k else if SHOWN_INPUTS[k] == name then k else ShownIndex(name, k + 1)
  }

  function ReadNumber(number: NumberReading, operand: Option<string>): Option<int> {
    if operand.None? then None else number(operand.value)
  }

  function OperandVelocity(number: NumberReading, line: Line): Result<int, Fault> {
    match line.op
    case PushConst =>
      var v := ReadNumber(number, line.operand);
      if v.None? || v.value < 0 || v.value > 126 then Err(Unencodable) else Ok(v.value + 1)
    case LoadInput =>
      if line.operand.Some? && IsShown(line.operand.value)
      then Ok(ShownIndex(line.operand.value, 0) + 1) else Err(InvalidInputRegister)
    case LoadLocal | StoreLocal =>
      var v := ReadNumber(number, line.operand);
      if v.None? || v.value < 0 || v.value > 15 then Err(InvalidLocalRegister) else Ok(v.value + 1)
    case _ => Ok(64)
  }

  /** The engine instruction a line stands for; operands of other operations are ignored by the writer. */
  function Meaning(number: NumberReading, line: Line): Instruction {
    match line.op
    case PushConst | LoadLocal | StoreLocal =>
      var v := ReadNumber(number, line.operand);
      Instruction(line.op, if v.Some? then IntArg(v.value) else NoArg)
    case LoadInput => Instruction(LoadInput, if line.operand.Some? then TextArg(line.operand.value) else NoArg)
    case _ => Instruction(line.op, NoArg)
  }

  function Meanings(number: NumberReading, lines: seq<Line>): (r: seq<Instruction>)
    ensures |r| == |lines|
    ensures forall j :: 0 <= j < |lines| ==> r[j] == Meaning(number, lines[j])
  {
    seq(|lines|, j requires 0 <= j < |lines| => Meaning(number, lines[j]))
  }

  /** The two implementations agree on velocities, and lines mean canonical instructions. */
  lemma VelocitiesAgree(number: NumberReading, line: Line)
    ensures OperandVelocity(number, line).Ok? <==> Encodable(Meaning(number, line))
    ensures Encodable(Meaning(number, line)) ==>
              && OperandVelocity(number, line) == EncodeVelocity(Meaning(number, line))
              && Canonical(Meaning(number, line)) == Meaning(number, line)
  {
    hide OperandVelocity, EncodeVelocity, Meaning, Canonical;
    if line.op in {PushConst, LoadLocal, StoreLocal} {
      NumbersAgree(number, line);
    } else {
      NamesAgree(number, line);
    }
  }

  lemma NumbersAgree(number: NumberReading, line: Line)
    requires line.op in {PushConst, LoadLocal, StoreLocal}
    ensures OperandVelocity(number, line).Ok? <==> EncodeVelocity(Meaning(number, line)).Ok?
    ensures OperandVelocity(number, line).Ok? ==>
              && OperandVelocity(number, line) == EncodeVelocity(Meaning(number, line))
              && Canonical(Meaning(number, line)) == Meaning(number, line)
  {
    hide IsShown, ShownIndex, InputIndex;
  }

  lemma NamesAgree(number: NumberReading, line: Line)
    requires line.op !in {PushConst, LoadLocal, StoreLocal}
    ensures OperandVelocity(number, line).Ok? <==> EncodeVelocity(Meaning(number, line)).Ok?
    ensures OperandVelocity(number, line).Ok? ==>
              && OperandVelocity(number, line) == EncodeVelocity(Meaning(number, line))
              && Canonical(Meaning(number, line)) == Meaning(number, line)
  {
    hide IsShown, ShownIndex, InputIndex;
  }

  // ----- bytes -----

  /** Storing a number in a Uint8Array keeps its low eight bits. */
  function ToByte(x: int): Byte { x % 256 }

  function U16(v: int): seq<Byte> {
    [ToByte(v / 0x100), ToByte(v)]
  }

  function U32(v: int): seq<Byte> {
    [ToByte(v / 0x100_0000), ToByte(v / 0x1_0000), ToByte(v / 0x100), ToByte(v)]
  }

  /** The note-on and note-off of one line; `0x90 | bank` is `0x90 + bank` for the four banks. */
  function VoiceBytes(bank: int, note: int, velocity: int): seq<Byte> {
    [0x00, ToByte(0x90 + bank), ToByte(note), ToByte(velocity)] +
    (VL.Vlq(NOTE_TICKS) + [ToByte(0x80 + bank), ToByte(note), 0x00])
  }

  function Body(number: NumberReading, lines: seq<Line>, root: int): Result<seq<Byte>, Fault>
    decreases |lines|
  {
    if lines == [] then Ok([])
    else
      var line := lines[|lines| - 1];
      var before :- Body(number, lines[..|lines| - 1], root);
      var velocity :- OperandVelocity(number, line);
      Ok(before + VoiceBytes(Place(line.op).0, root + Place(line.op).1, velocity))
  }

  function Opening(root: int, microsecondsPerBeat: int): seq<Byte> {
    [0x00, 0xFF, 0x51, 0x03] + U32(microsecondsPerBeat)[1..] + VoiceBytes(0, root, 64)
  }

  const CLOSING: seq<Byte> := [0x00, 0xFF, 0x2F, 0x00]

  /** The header chunk (format 0, one track) followed by the track chunk. */
  function Wrap(track: seq<Byte>): (file: seq<Byte>)
    ensures |file| == 22 + |track|
  {
    MTHD + U32(6) + (U16(0) + U16(1) + U16(TICKS_PER_BEAT) + (MTRK + U32(|track|) + track))
  }

  function FileBytes(number: NumberReading, lines: seq<Line>, root: int, microsecondsPerBeat: int): Result<seq<Byte>, Fault> {
    var body :- Body(number, lines, root);
    var track := Opening(root, microsecondsPerBeat) + body + CLOSING;
    Ok(Wrap(track))
  }

  /** The tempo event and the root note pair. */
  method WriteOpening(root: int, microsecondsPerBeat: int) returns (track: seq<Byte>)
    ensures track == Opening(root, microsecondsPerBeat)
  {
    track := [0x00, 0xFF, 0x51, 0x03] + U32(microsecondsPerBeat)[1..];
    track := track + [0x00, ToByte(0x90), ToByte(root), 64];
    var delta := VL.Encode(NOTE_TICKS);
    track := track + (delta + [0x80, ToByte(root), 0x00]);
  }

  /** `encodeVelatoMidi`: the track is pushed together line by line, then wrapped in its chunks. */
  method EncodeVelatoMidi(number: NumberReading, lines: seq<Line>, root: int, microsecondsPerBeat: int)
    returns (r: Result<seq<Byte>, Fault>)
    ensures r == FileBytes(number, lines, root, microsecondsPerBeat)
  {
    hide OperandVelocity, EncodingOf, Place, Wrap, Opening;
    var delta;
    var track := WriteOpening(root, microsecondsPerBeat);
    ghost var body: seq<Byte> := [];
    for k := 0 to |lines|
      invariant Body(number, lines[..k], root) == Ok(body)
      invariant track == Opening(root, microsecondsPerBeat) + body
    {
      var line := lines[k];
      assert lines[..k + 1][..k] == lines[..k];
      var velocity := OperandVelocity(number, line);
      if velocity.Err? {
        BodyStops(number, lines, root, k + 1);
        return Err(velocity.error);
      }
      var bank, note := Place(line.op).0, root + Place(line.op).1;
      delta := VL.Encode(NOTE_TICKS);
      var on := [0x00, ToByte(0x90 + bank), ToByte(note), ToByte(velocity.value)];
      var off := delta + [ToByte(0x80 + bank), ToByte(note), 0x00];
      Behind(Opening(root, microsecondsPerBeat), body, on, off);
      track := track + on + off;
      body := body + VoiceBytes(bank, note, velocity.value);
    }
    assert lines[..|lines|] == lines;
    track := track + CLOSING;
    r := Ok(Wrap(track));
  }

  lemma Behind(opening: seq<Byte>, body: seq<Byte>, on: seq<Byte>, off: seq<Byte>)
    ensures opening + body + on + off == opening + (body + (on + off))
  {
  }

  lemma {:induction false} BodyStops(number: NumberReading, lines: seq<Line>, root: int, k: nat)
    requires k <= |lines| && Body(number, lines[..k], root).Err?
    ensures Body(number, lines, root) == Body(number, lines[..k], root)
    decreases |lines|
  {
    hide OperandVelocity, EncodingOf, Place, VoiceBytes;
    if k < |lines| {
      assert lines[..|lines| - 1][..k] == lines[..k];
      BodyStops(number, lines[..|lines| - 1], root, k);
    } else {
      assert lines[..k] == lines;
    }
  }

  // ----- reading one voice -----

  /** Once the delta byte and an explicit status byte are in place, the running status is irrelevant. */
  ghost predicate Explicit(bs: seq<Byte>) {
    |bs| >= 2 && bs[0] < 128 && bs[1] >= 128
  }

  lemma ShortVlq(bs: seq<Byte>)
    requires bs != [] && bs[0] < 128
    ensures ReadVlq(bs) == Some((bs[0] as nat, bs[1..]))
  {
  }

  lemma RunningIrrelevant(bs: seq<Byte>, a: Option<Byte>, b: Option<Byte>)
    requires Explicit(bs)
    ensures ReadTrack(bs, a) == ReadTrack(bs, b)
  {
    hide ReadMeta, ReadSysex, ReadChannel;
    ShortVlq(bs);
  }

  function Before(messages: seq<Message>, r: Option<seq<Message>>): Option<seq<Message>> {
    if r.None? then None else Some(messages + r.value)
  }

  lemma BeforeAssociates(a: seq<Message>, b: seq<Message>, r: Option<seq<Message>>)
    ensures Before(a, Before(b, r)) == Before(a + b, r)
    ensures Before([], r) == r && Before(a, None) == None
  {
    if r.Some? {
      assert a + (b + r.value) == (a + b) + r.value && [] + r.value == r.value;
    }
  }

  /** A three-byte channel message with a one-byte delta is one message, or spoils the track. */
  lemma ReadOne(delta: Byte, status: Byte, note: Byte, velocity: Byte, tail: seq<Byte>, running: Option<Byte>)
    requires delta < 128 && 0x80 <= status < 0xA0 && velocity < 128 && Explicit(tail)
    ensures ReadTrack([delta, status, note, velocity] + tail, running) ==
            if note < 128 then Before([if status < 0x90 then NoteOff(status - 0x80, note, velocity, delta)
                                       else NoteOn(status - 0x90, note, velocity, delta)], ReadTrack(tail, None))
            else None
  {
    hide ReadMeta, ReadSysex;
    var bs := [delta, status, note, velocity] + tail;
    ShortVlq(bs);
    var rest := bs[1..];
    assert rest[0] == status && rest[1..][0] == note && rest[1..][1] == velocity;
    assert rest[1..][2..] == tail;
    if note < 128 {
      RunningIrrelevant(tail, Some(status), None);
    }
  }

  lemma ReadVoice(bank: int, note: int, velocity: int, tail: seq<Byte>, running: Option<Byte>)
    requires 0 <= bank < 4 && 0 <= velocity < 128 && Explicit(tail)
    ensures ReadTrack(VoiceBytes(bank, note, velocity) + tail, running) ==
            if ToByte(note) < 128 then Before(Voice(bank, ToByte(note), velocity, NOTE_TICKS), ReadTrack(tail, None))
            else None
  {
    hide ReadTrack;
    var n := ToByte(note);
    var off: seq<Byte> := [120, 0x80 + bank, n, 0] + tail;
    assert VL.Vlq(NOTE_TICKS) == [120] by { assert VL.Flagged(0) == []; }
    assert VoiceBytes(bank, note, velocity) + tail == [0x00, 0x90 + bank, n, velocity] + off;
    ReadOne(0, 0x90 + bank, n, velocity, off, running);
    ReadOne(120, 0x80 + bank, n, 0, tail, None);
    var on, released := NoteOn(bank, n, velocity, 0), NoteOff(bank, n, 0, NOTE_TICKS);
    BeforeAssociates([on], [released], ReadTrack(tail, None));
    assert [on] + [released] == [on, released];
  }

  // ----- reading the whole body -----

  /** Every note byte of the body is a data byte of the standard. */
  predicate CleanBody(lines: seq<Line>, root: int) {
    forall k :: 0 <= k < |lines| ==> ToByte(root + EncodingOf(lines[k].op).1) < 128
  }

  lemma RootByte(root: int, interval: int)
    requires ToByte(root) < 128 && 0 <= interval < 12
    ensures ToByte(root + interval) == ToByte(root) + interval
  {
  }

  /** What the last line adds to a body, read back. */
  lemma ReadLast(number: NumberReading, line: Line, root: int, tail: seq<Byte>, done: seq<Message>)
    requires OperandVelocity(number, line).Ok? && ToByte(root) < 128 && Explicit(tail)
    ensures var bank, interval := EncodingOf(line.op).0, EncodingOf(line.op).1;
            var voice := VoiceBytes(bank, root + interval, OperandVelocity(number, line).value);
            && Explicit(voice + tail) && EncodeVelocity(Meaning(number, line)) == OperandVelocity(number, line)
            && Before(done, ReadTrack(voice + tail, None)) ==
               if ToByte(root + interval) < 128
               then Before(done + Voice(bank, ToByte(root) + interval, OperandVelocity(number, line).value, NOTE_TICKS), ReadTrack(tail, None))
               else None
  {
    hide ReadTrack, OperandVelocity, EncodeVelocity, EncodingOf, Place, VoiceBytes, Voice, Meaning, ToByte, Canonical, Before;
    var bank, interval := EncodingOf(line.op).0, EncodingOf(line.op).1;
    EncodingIsInBanks(line.op);
    VelocitiesAgree(number, line);
    VelocityInRange(Meaning(number, line));
    var velocity := OperandVelocity(number, line).value;
    VoiceIsExplicit(bank, root + interval, velocity, tail);
    ReadVoice(bank, root + interval, velocity, tail, None);
    RootByte(root, interval);
    BeforeAssociates(done, Voice(bank, ToByte(root) + interval, velocity, NOTE_TICKS), ReadTrack(tail, None));
  }

  lemma {:induction false} ReadBody(number: NumberReading, lines: seq<Line>, root: int, tail: seq<Byte>, running: Option<Byte>)
    requires Body(number, lines, root).Ok? && ToByte(root) < 128 && Explicit(tail)
    ensures AllEncodable(Meanings(number, lines))
    ensures Encode(Meanings(number, lines), ToByte(root), NOTE_TICKS).Ok?
    ensures ReadTrack(Body(number, lines, root).value + tail, running) ==
            if CleanBody(lines, root)
            then Before(Encode(Meanings(number, lines), ToByte(root), NOTE_TICKS).value, ReadTrack(tail, None))
            else None
    decreases |lines|
  {
    hide ReadTrack, OperandVelocity, EncodeVelocity, EncodingOf, Place, VoiceBytes, Voice, Meaning, ToByte, Canonical, Before;
    if lines == [] {
      assert Body(number, lines, root).value + tail == tail;
      RunningIrrelevant(tail, running, None);
      BeforeAssociates([], [], ReadTrack(tail, None));
    } else {
      var n := |lines| - 1;
      var init, line := lines[..n], lines[n];
      var voice := VoiceBytes(EncodingOf(line.op).0, root + EncodingOf(line.op).1, OperandVelocity(number, line).value);
      assert Body(number, lines, root).value + tail == Body(number, init, root).value + (voice + tail);
      ReadLast(number, line, root, tail, []);
      ReadBody(number, init, root, voice + tail, running);
      MeaningsSnoc(number, lines);
      MeaningKeepsOp(number, line);
      CleanSnoc(lines, root);
      ReadLast(number, line, root, tail, Encode(Meanings(number, init), ToByte(root), NOTE_TICKS).value);
    }
  }

  lemma CleanSnoc(lines: seq<Line>, root: int)
    requires lines != []
    ensures CleanBody(lines, root) <==>
            CleanBody(lines[..|lines| - 1], root) && ToByte(root + EncodingOf(lines[|lines| - 1].op).1) < 128
  {
    hide EncodingOf, ToByte;
  }

  lemma MeaningsSnoc(number: NumberReading, lines: seq<Line>)
    requires lines != []
    ensures var all, last := Meanings(number, lines), Meaning(number, lines[|lines| - 1]);
            && all[..|lines| - 1] == Meanings(number, lines[..|lines| - 1]) && all[|lines| - 1] == last
            && (AllEncodable(all) <==> AllEncodable(Meanings(number, lines[..|lines| - 1])) && Encodable(last))
  {
    hide Meaning, EncodeVelocity;
    assert Meanings(number, lines)[..|lines| - 1] == Meanings(number, lines[..|lines| - 1]);
  }

  lemma MeaningKeepsOp(number: NumberReading, line: Line)
    ensures Meaning(number, line).op == line.op
  {
  }

  lemma VoiceIsExplicit(bank: int, note: int, velocity: int, tail: seq<Byte>)
    requires 0 <= bank < 4
    ensures Explicit(VoiceBytes(bank, note, velocity) + tail)
  {
  }

  lemma ReadOpening(root: int, microsecondsPerBeat: int, tail: seq<Byte>)
    requires Explicit(tail)
    ensures ReadTrack(Opening(root, microsecondsPerBeat) + tail, None) ==
            if ToByte(root) < 128
            then Before([SetTempo(microsecondsPerBeat % 0x100_0000, 0)] + Voice(0, ToByte(root), 64, NOTE_TICKS), ReadTrack(tail, None)) else None
  {
    hide VoiceBytes, ToByte, ReadChannel, ReadSysex, BigEndian;
    var clock := SetTempo(microsecondsPerBeat % 0x100_0000, 0);
    var tempo := U32(microsecondsPerBeat)[1..];
    var after := VoiceBytes(0, root, 64) + tail;
    var bs := [0x00, 0xFF, 0x51, 0x03] + (tempo + after);
    assert Opening(root, microsecondsPerBeat) + tail == bs;
    ShortVlq(bs);
    assert bs[1..][1..] == [0x51, 0x03] + (tempo + after);
    U24RoundTrip(microsecondsPerBeat);
    ReadTempo(tempo, after, 0);
    VoiceIsExplicit(0, root, 64, tail);
    ReadVoice(0, root, 64, tail, None);
    assert ReadTrack(bs, None) == Before([clock], ReadTrack(after, None));
    BeforeAssociates([clock], Voice(0, ToByte(root), 64, NOTE_TICKS), ReadTrack(tail, None));
  }

  lemma U24RoundTrip(v: int)
    ensures |U32(v)[1..]| == 3 && BigEndian(U32(v)[1..]) == v % 0x100_0000
  {
    ThreeBytes(ToByte(v / 0x1_0000), ToByte(v / 0x100), ToByte(v));
    assert v / 0x1_0000 == v / 0x100 / 0x100;
  }

  lemma ThreeBytes(a: Byte, b: Byte, c: Byte)
    ensures BigEndian([a, b, c]) == a * 0x1_0000 + b * 0x100 + c
  {
    assert [a, b, c][..2] == [a, b] && [a, b][..1] == [a] && [a][..0] == [];
    assert BigEndian([a]) == a as nat;
    assert BigEndian([a, b]) == BigEndian([a]) * 256 + b;
  }

  lemma ReadTempo(tempo: seq<Byte>, after: seq<Byte>, delta: nat)
    requires |tempo| == 3
    ensures ReadMeta([0x51, 0x03] + (tempo + after), delta) == Some(Parsed(SetTempo(BigEndian(tempo), delta), after, None))
  {
    hide BigEndian;
    var bs: seq<Byte> := [0x51, 0x03] + (tempo + after);
    assert bs[1..] == [0x03] + (tempo + after);
    ShortVlq(bs[1..]);
    assert bs[1..][1..] == tempo + after;
    assert (tempo + after)[3..] == after && (tempo + after)[..3] == tempo;
  }

  lemma ReadClosing()
    ensures ReadTrack(CLOSING, None) == Some([EndOfTrack(0)])
  {
    ShortVlq(CLOSING);
    assert CLOSING[1..] == [0xFF, 0x2F, 0x00];
    assert CLOSING[1..][1..] == [0x2F, 0x00];
    assert [0x2F, 0x00][1..] == [0x00];
    ShortVlq([0x00]);
  }

  // ----- the file -----

  lemma FourBytes(a: Byte, b: Byte, c: Byte, d: Byte)
    ensures BigEndian([a, b, c, d]) == a * 0x100_0000 + b * 0x1_0000 + c * 0x100 + d
  {
    ThreeBytes(a, b, c);
    assert [a, b, c, d][..3] == [a, b, c];
  }

  lemma U32RoundTrip(v: nat)
    requires v < 0x1_0000_0000
    ensures BigEndian(U32(v)) == v
  {
    FourBytes(ToByte(v / 0x100_0000), ToByte(v / 0x1_0000), ToByte(v / 0x100), ToByte(v));
    hide BigEndian;
    assert v / 0x1_0000 == v / 0x100 / 0x100 && v / 0x100_0000 == v / 0x1_0000 / 0x100;
  }

  lemma ReadHeader(track: seq<Byte>)
    requires |track| < 0x1_0000_0000
    ensures ReadFile(Wrap(track)) == match ReadTrack(track, None)
                                     case None => None
                                     case Some(messages) => Some(MidiFile(0, TicksPerQuarter(480), [messages]))
  {
    hide ReadTrack, ReadTracks, U32, U16, BigEndian, ReadFile;
    var chunk := MTRK + U32(|track|) + track;
    WordLengths(6);
    WordLengths(TICKS_PER_BEAT);
    U32RoundTrip(6);
    OneTrack();
    HeaderIsRead(U32(6), U16(0), U16(1), U16(TICKS_PER_BEAT), chunk);
    ReadOnlyTrack(track);
  }

  lemma HeaderIsRead(length: seq<Byte>, a: seq<Byte>, b: seq<Byte>, c: seq<Byte>, rest: seq<Byte>)
    requires |length| == 4 && |a| == |b| == |c| == 2 && BigEndian(length) == 6
    ensures ReadFile(MTHD + length + (a + b + c + rest)) ==
            match ReadTracks(rest, BigEndian(b))
            case None => None
            case Some(tracks) => Some(MidiFile(BigEndian(a), ReadDivision(c[0], c[1]), tracks))
  {
    hide ReadTracks, BigEndian;
    HeaderSlices(MTHD, length, a, b, c, rest);
    var bs := MTHD + length + (a + b + c + rest);
    assert bs[12] == bs[12..14][0] && bs[13] == bs[12..14][1];
  }

  lemma HeaderSlices(id: seq<Byte>, length: seq<Byte>, a: seq<Byte>, b: seq<Byte>, c: seq<Byte>, rest: seq<Byte>)
    requires |id| == |length| == 4 && |a| == |b| == |c| == 2
    ensures var bs := id + length + (a + b + c + rest);
            bs[..4] == id && bs[4..8] == length && bs[8..10] == a && bs[10..12] == b && bs[12..14] == c && bs[14..] == rest
  {
  }

  lemma ChunkSlices(id: seq<Byte>, length: seq<Byte>, data: seq<Byte>)
    requires |id| == |length| == 4
    ensures var bs := id + length + data;
            && |bs| == 8 + |data| && bs[..4] == id && bs[4..8] == length
            && bs[8..8 + |data|] == data && bs[8 + |data|..] == []
  {
  }

  lemma OneTrack()
    ensures BigEndian([0, 1]) == 1 && BigEndian([0, 0]) == 0
  {
    assert [0 as Byte, 1][..1] == [0] && [0 as Byte, 0][..1] == [0] && [0 as Byte][..0] == [];
    assert BigEndian([0]) == 0;
  }

  lemma ReadOnlyTrack(track: seq<Byte>)
    requires |track| < 0x1_0000_0000
    ensures ReadTracks(MTRK + U32(|track|) + track, 1) == match ReadTrack(track, None)
                                                          case None => None
                                                          case Some(messages) => Some([messages])
  {
    hide ReadTrack, U32, BigEndian;
    WordLengths(|track|);
    ChunkSlices(MTRK, U32(|track|), track);
    U32RoundTrip(|track|);
    assert ReadTracks([], 0) == Some([]);
    if ReadTrack(track, None).Some? {
      assert [ReadTrack(track, None).value] + [] == [ReadTrack(track, None).value];
    }
  }

  lemma WordLengths(v: int)
    ensures |U32(v)| == 4 && |U16(v)| == 2 && |MTHD| == |MTRK| == 4
    ensures U16(1) == [0, 1] && U16(0) == [0, 0] && U16(480) == [1, 224]
  {
  }

  /** The notes of the file are readable exactly when every note byte fits in seven bits. */
  predicate Clean(lines: seq<Line>, root: int) {
    ToByte(root) < 128 && CleanBody(lines, root)
  }

  /** The tempo (its low 24 bits), the root at velocity 64, the notes of 120 ticks each, and the end of the track at once. */
  ghost function Written(number: NumberReading, lines: seq<Line>, root: int, microsecondsPerBeat: int): seq<Message>
    requires Encode(Meanings(number, lines), ToByte(root), 120).Ok?
  {
    [SetTempo(microsecondsPerBeat % 0x100_0000, 0)] + Voice(0, ToByte(root), 64, 120) +
    Encode(Meanings(number, lines), ToByte(root), 120).value + [EndOfTrack(0)]
  }

  /**
   The standard's reader sees, in the written bytes, a file of format 0 with 480 ticks a quarter note and
   one track: the tempo, exactly the messages the Python encoder emits for the same program, and the end
   of the track. The length fields are right, and a note byte above 127 is the only way to spoil the file.
   */
  lemma BytesReadBack(number: NumberReading, lines: seq<Line>, root: int, microsecondsPerBeat: int)
    requires FileBytes(number, lines, root, microsecondsPerBeat).Ok?
    requires |FileBytes(number, lines, root, microsecondsPerBeat).value| < 0x1_0000_0000
    ensures AllEncodable(Meanings(number, lines))
    ensures Encode(Meanings(number, lines), ToByte(root), NOTE_TICKS).Ok?
    ensures ReadFile(FileBytes(number, lines, root, microsecondsPerBeat).value) ==
            if Clean(lines, root) then Some(MidiFile(0, TicksPerQuarter(480), [Written(number, lines, root, microsecondsPerBeat)])) else None
  {
    hide ReadTrack, Wrap, ReadFile, OperandVelocity, EncodeVelocity, VoiceBytes, Voice, Encode, ToByte;
    var body := Body(number, lines, root).value;
    var track := Opening(root, microsecondsPerBeat) + body + CLOSING;
    assert track == Opening(root, microsecondsPerBeat) + (body + CLOSING);
    ReadHeader(track);
    BodyIsExplicit(number, lines, root);
    ReadOpening(root, microsecondsPerBeat, body + CLOSING);
    BodyEncodable(number, lines, root);
    CollectEncoded(Meanings(number, lines), ToByte(root), NOTE_TICKS, []);
    if ToByte(root) < 128 {
      ReadBody(number, lines, root, CLOSING, None);
      ReadClosing();
      if CleanBody(lines, root) {
        BeforeAssociates([SetTempo(microsecondsPerBeat % 0x100_0000, 0)] + Voice(0, ToByte(root), 64, 120),
                         Encode(Meanings(number, lines), ToByte(root), 120).value, Some([EndOfTrack(0)]));
      }
    }
  }

  lemma {:induction false} BodyIsExplicit(number: NumberReading, lines: seq<Line>, root: int)
    requires Body(number, lines, root).Ok?
    ensures Explicit(Body(number, lines, root).value + CLOSING)
    decreases |lines|
  {
    hide OperandVelocity, EncodingOf, Place, VoiceBytes;
    if lines != [] {
      var init, line := lines[..|lines| - 1], lines[|lines| - 1];
      EncodingIsInBanks(line.op);
      BodyIsExplicit(number, init, root);
      var before := Body(number, init, root).value;
      if before == [] {
        VoiceIsExplicit(EncodingOf(line.op).0, root + EncodingOf(line.op).1, OperandVelocity(number, line).value, CLOSING);
      } else {
        BodyLength(number, init, root);
      }
    }
  }

  lemma {:induction false} BodyLength(number: NumberReading, lines: seq<Line>, root: int)
    requires Body(number, lines, root).Ok?
    ensures |Body(number, lines, root).value| == 8 * |lines|
    decreases |lines|
  {
    hide OperandVelocity, EncodingOf, Place;
    if lines != [] {
      BodyLength(number, lines[..|lines| - 1], root);
      assert |VL.Vlq(NOTE_TICKS)| == 1 by { assert VL.Flagged(0) == []; }
    }
  }

  lemma {:induction false} BodyEncodable(number: NumberReading, lines: seq<Line>, root: int)
    requires Body(number, lines, root).Ok?
    ensures AllEncodable(Meanings(number, lines))
    decreases |lines|
  {
    hide OperandVelocity, EncodeVelocity, EncodingOf, Place, VoiceBytes, Meaning;
    if lines != [] {
      var n := |lines| - 1;
      BodyEncodable(number, lines[..n], root);
      VelocitiesAgree(number, lines[n]);
      assert Meanings(number, lines)[..n] == Meanings(number, lines[..n]);
      forall k | 0 <= k < |lines|
        ensures Encodable(Meanings(number, lines)[k])
      {
        if k < n {
          assert Meanings(number, lines)[k] == Meanings(number, lines[..n])[k];
        }
      }
    }
  }

  /** The engine on a file: the byte limit, the standard's reading, then the notes. */
  function CompileBytes(bytes: seq<Byte>): Result<seq<Instruction>, Fault> {
    if |bytes| > MAX_BYTES then Err(ByteLimit)
    else
      match ReadFile(bytes)
      case None => Err(NotMidi)
      case Some(file) => CompileTracks(|bytes|, file.tracks)
  }

  lemma FileLength(number: NumberReading, lines: seq<Line>, root: int, microsecondsPerBeat: int)
    requires FileBytes(number, lines, root, microsecondsPerBeat).Ok?
    ensures |FileBytes(number, lines, root, microsecondsPerBeat).value| == 8 * |lines| + 41
  {
    hide Wrap, Body;
    BodyLength(number, lines, root);
    assert |VL.Vlq(NOTE_TICKS)| == 1 by { assert VL.Flagged(0) == []; }
  }

  /** What the engine must make of the lines: their instructions, or the first of its refusals. */
  function Expected(number: NumberReading, lines: seq<Line>, root: int): Result<seq<Instruction>, Fault> {
    if 8 * |lines| + 41 > 128_000 then Err(ByteLimit)
    else if !Clean(lines, root) then Err(NotMidi)
    else if lines == [] then Err(TooFewNotes)
    else if |lines| + 1 > 1024 then Err(NoteLimit)
    else Sealed(Cut(Meanings(number, lines)))
  }

  /**
   The cross-language round trip, for every program the browser writes: the engine refuses the file for
   its size, for a note byte that is none, or for its number of notes, in this order, and otherwise
   compiles it to the written instructions cut after their first HALT and sealed.
   */
  lemma CrossLanguageRoundTrip(number: NumberReading, lines: seq<Line>, root: int, microsecondsPerBeat: int)
    requires FileBytes(number, lines, root, microsecondsPerBeat).Ok?
    ensures CompileBytes(FileBytes(number, lines, root, microsecondsPerBeat).value) == Expected(number, lines, root)
  {
    hide ReadFile, FileBytes, Encode, EncodeVelocity, Collect, Decode, Voice, Sealed, Meaning, ToByte, Clean;
    FileLength(number, lines, root, microsecondsPerBeat);
    if 8 * |lines| + 41 > MAX_BYTES {
      return;
    }
    BytesReadBack(number, lines, root, microsecondsPerBeat);
    if Clean(lines, root) {
      var ir := Meanings(number, lines);
      var r := ToByte(root);
      var first := MidiNote(r, 64, 0);
      var messages := Written(number, lines, root, microsecondsPerBeat);
      assert Flatten([messages]) == messages by {
        assert [messages][1..] == [];
        assert messages + [] == messages;
      }
      CollectWritten(ir, r, first, microsecondsPerBeat % 0x100_0000);
      if 0 < |lines| && |lines| + 1 <= MAX_NOTES {
        var notes := [first] + NotesFor(ir, r);
        assert notes[1..] == NotesFor(ir, r) == NotesFor(ir, r)[0..];
        DecodeFrom(ir, r, 0);
        assert Cut(ir) == ir[0..LiveFrom(ir, 0)];
        CanonicalMeanings(number, lines);
      }
    }
  }

  lemma CollectWritten(ir: seq<Instruction>, root: int, first: MidiNote, tempo: nat)
    requires AllEncodable(ir) && Encode(ir, root, NOTE_TICKS).Ok? && first == MidiNote(root, 64, 0)
    ensures Collect([SetTempo(tempo, 0)] + Voice(0, root, 64, NOTE_TICKS) + Encode(ir, root, NOTE_TICKS).value + [EndOfTrack(0)], []) ==
            if |ir| + 1 <= MAX_NOTES then Ok([first] + NotesFor(ir, root)) else Err(NoteLimit)
  {
    hide Collect, Encode, EncodeVelocity, Voice;
    var body := Encode(ir, root, NOTE_TICKS).value;
    var opening := [SetTempo(tempo, 0)] + Voice(0, root, 64, NOTE_TICKS);
    CollectAppends(opening + body, [EndOfTrack(0)], []);
    CollectAppends(opening, body, []);
    CollectAppends([SetTempo(tempo, 0)], Voice(0, root, 64, NOTE_TICKS), []);
    CollectMeta(SetTempo(tempo, 0), []);
    CollectVoice(0, root, 64, NOTE_TICKS, []);
    assert [] + [first] == [first];
    CollectEncoded(ir, root, NOTE_TICKS, [first]);
    if |ir| + 1 <= MAX_NOTES {
      CollectMeta(EndOfTrack(0), [first] + NotesFor(ir, root));
    }
  }

  lemma CollectMeta(message: Message, notes: seq<MidiNote>)
    requires |notes| <= MAX_NOTES && !message.Sysex? && !message.NoteOn?
    ensures Collect([message], notes) == Ok(notes)
  {
    assert [message][1..] == [];
    assert Collect([], notes) == Ok(notes);
  }

  lemma CanonicalMeanings(number: NumberReading, lines: seq<Line>)
    requires AllEncodable(Meanings(number, lines))
    ensures CanonicalAll(Cut(Meanings(number, lines))) == Cut(Meanings(number, lines))
  {
    hide EncodeVelocity, Meaning, Canonical, OperandVelocity;
    forall k | 0 <= k < |lines|
      ensures Canonical(Meanings(number, lines)[k]) == Meanings(number, lines)[k]
    {
      assert Encodable(Meanings(number, lines)[k]);
      VelocitiesAgree(number, lines[k]);
    }
  }
}
