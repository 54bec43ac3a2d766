/**
 A reader for Standard MIDI Files 1.0, written from the standard: variable-length quantities,
 MThd and MTrk chunks, running status, channel, system-exclusive and meta events. It yields the
 messages the engine compiles, and otherwise knows nothing of the programs that write such files.
 */
module StandardMidi {
  import opened Outcomes
  import opened VelatoNotes

  type Byte = x: int | 0 <= x < 256

  /** The largest variable-length quantity the standard allows, plus one. */
  const VLQ_BOUND := 0x1000_0000

  // ----- variable-length quantities -----

  /** Seven bits a byte, most significant first, bit 7 set on all but the last byte; at most `left` bytes. */
  function ReadVlqFrom(bs: seq<Byte>, acc: nat, left: nat): Option<(nat, seq<Byte>)>
    decreases left
  {
    if left == 0 || bs == [] then None
    else if bs[0] < 128 then Some((acc * 128 + bs[0], bs[1..]))
    else ReadVlqFrom(bs[1..], acc * 128 + (bs[0] - 128), left - 1)
  }

  function ReadVlq(bs: seq<Byte>): (r: Option<(nat, seq<Byte>)>)
    ensures r.Some? ==> |r.value.1| < |bs|
  {
    ReadVlqShrinks(bs, 0, 4);
    ReadVlqFrom(bs, 0, 4)
  }

  lemma {:induction false} ReadVlqShrinks(bs: seq<Byte>, acc: nat, left: nat)
    ensures ReadVlqFrom(bs, acc, left).Some? ==> |ReadVlqFrom(bs, acc, left).value.1| < |bs|
    decreases left
  {
    if left > 0 && bs != [] && bs[0] >= 128 {
      ReadVlqShrinks(bs[1..], acc * 128 + (bs[0] - 128), left - 1);
    }
  }

  // ----- events -----

  /** An event, what follows it, and the running status it leaves. */
  datatype Parsed = Parsed(message: Message, rest: seq<Byte>, running: Option<Byte>)

  /** End of track carries no data, and a tempo three bytes: the microseconds of a quarter note, most significant first. */
  function ReadMeta(bs: seq<Byte>, delta: nat): Option<Parsed> {
    if bs == [] then None
    else
      match ReadVlq(bs[1..])
      case None => None
      case Some((length, data)) =>
        if length > |data| || (bs[0] == 0x2F && length != 0) || (bs[0] == 0x51 && length != 3) then None
        else
          var message := if bs[0] == 0x2F then EndOfTrack(delta)
                         else if bs[0] == 0x51 then SetTempo(BigEndian(data[..3]), delta)
                         else OtherMessage;
          Some(Parsed(message, data[length..], None))
  }

  function ReadSysex(bs: seq<Byte>): Option<Parsed> {
    match ReadVlq(bs)
    case None => None
    case Some((length, data)) =>
      if length > |data| then None else Some(Parsed(Sysex, data[length..], None))
  }

  /** A channel message with the given status; program change and channel pressure carry one data byte, the rest two. */
  function ReadChannel(status: Byte, bs: seq<Byte>, delta: nat): Option<Parsed>
    requires 0x80 <= status < 0xF0
  {
    var kind, channel := status / 16, status % 16;
    var size := if kind == 0xC || kind == 0xD then 1 else 2;
    if |bs| < size || bs[0] >= 128 || bs[size - 1] >= 128 then None
    else
      var message := if kind == 0x8 then NoteOff(channel, bs[0], bs[1], delta)
                     else if kind == 0x9 then NoteOn(channel, bs[0], bs[1], delta)
                     else OtherMessage;
      Some(Parsed(message, bs[size..], Some(status)))
  }

  function ReadEvent(bs: seq<Byte>, running: Option<Byte>, delta: nat): Option<Parsed> {
    if bs == [] then None
    else if bs[0] == 0xFF then ReadMeta(bs[1..], delta)
    else if bs[0] == 0xF0 || bs[0] == 0xF7 then ReadSysex(bs[1..])
    else if bs[0] > 0xF0 then None
    else if bs[0] >= 0x80 then ReadChannel(bs[0], bs[1..], delta)
    else if running.Some? && 0x80 <= running.value < 0xF0 then ReadChannel(running.value, bs, delta)
    else None
  }

  lemma ReadEventNeverGrows(bs: seq<Byte>, running: Option<Byte>, delta: nat)
    ensures ReadEvent(bs, running, delta).Some? ==> |ReadEvent(bs, running, delta).value.rest| <= |bs|
  {
    hide ReadVlq;
  }

  /** The messages of a track chunk; end of track must be its last event. */
  function ReadTrack(bs: seq<Byte>, running: Option<Byte>): Option<seq<Message>>
    decreases |bs|
  {
    match ReadVlq(bs)
    case None => None
    case Some((delta, body)) =>
      ReadEventNeverGrows(body, running, delta);
      match ReadEvent(body, running, delta)
      case None => None
      case Some(Parsed(EndOfTrack(time), rest, _)) => if rest == [] then Some([EndOfTrack(time)]) else None
      case Some(Parsed(message, rest, running')) =>
        match ReadTrack(rest, running')
        case None => None
        case Some(messages) => Some([message] + messages)
  }

  // ----- chunks -----

  function BigEndian(bs: seq<Byte>): nat {
    if bs == [] then 0 else BigEndian(bs[..|bs| - 1]) * 256 + bs[|bs| - 1]
  }

  const MTHD: seq<Byte> := [0x4D, 0x54, 0x68, 0x64]
  const MTRK: seq<Byte> := [0x4D, 0x54, 0x72, 0x6B]

  /** The next `n` track chunks; chunks of an unknown kind are skipped. */
  function ReadTracks(bs: seq<Byte>, n: nat): Option<seq<seq<Message>>>
    decreases |bs|
  {
    if n == 0 then Some([])
    else if |bs| < 8 then None
    else
      var length := BigEndian(bs[4..8]);
      if |bs| < 8 + length then None
      else if bs[..4] != MTRK then ReadTracks(bs[8 + length..], n)
      else
        match ReadTrack(bs[8..8 + length], None)
        case None => None
        case Some(track) =>
          match ReadTracks(bs[8 + length..], n - 1)
          case None => None
          case Some(tracks) => Some([track] + tracks)
  }

  /** What the times of the file count. */
  datatype Division = TicksPerQuarter(ticks: nat) | FrameBased(frames: Byte, subframes: Byte)

  datatype MidiFile = MidiFile(format: nat, division: Division, tracks: seq<seq<Message>>)

  function ReadDivision(high: Byte, low: Byte): Division {
    if high < 128 then TicksPerQuarter(high * 256 + low) else FrameBased(high, low)
  }

  /** Header: length, format, number of tracks, division; then the tracks. */
  function ReadFile(bs: seq<Byte>): Option<MidiFile> {
    if |bs| < 14 || bs[..4] != MTHD then None
    else
      var length := BigEndian(bs[4..8]);
      if length < 6 || |bs| < 8 + length then None
      else
        match ReadTracks(bs[8 + length..], BigEndian(bs[10..12]))
        case None => None
        case Some(tracks) => Some(MidiFile(BigEndian(bs[8..10]), ReadDivision(bs[12], bs[13]), tracks))
  }
}
