/** The three byte formats of the audio link: audio packets, END packets and seed announcements. */
module AudioPacket {
  import opened CTypes

  type Bytes = seq<uint8>

  datatype PacketStatus = InvalidArgument | BufferTooSmall | PayloadTooLarge | InvalidFormat

  // The header is nine bytes: magic 0xA5, version 1, type 2, flags, frame count, sequence (low,
  // high), two frame lengths. A radio packet is at most 60 bytes, so 51 are left for frames.

  datatype AudioView = AudioView(sequence: uint16, flags: uint8, frames: seq<Bytes>)

  /** Little-endian reads. */
  function Read16(lo: uint8, hi: uint8): uint16 {
    lo as int + 0x100 * hi as int
  }

  function Read32(b0: uint8, b1: uint8, b2: uint8, b3: uint8): uint32 {
    b0 as int + 0x100 * b1 as int + 0x1_0000 * b2 as int + 0x100_0000 * b3 as int
  }

  /** Only the end-of-talkspurt bit may be set. */
  predicate FlagsValid(flags: uint8) {
    flags <= 1
  }

  /** The frames of a packet, back to back. */
  function Payload(frames: seq<Bytes>): Bytes
    requires 1 <= |frames| <= 2
  {
    if |frames| == 1 then frames[0] else frames[0] + frames[1]
  }

  predicate Packable(v: AudioView) {
    && FlagsValid(v.flags)
    && 1 <= |v.frames| <= 2
    && 0 < |v.frames[0]| && (|v.frames| == 2 ==> 0 < |v.frames[1]|)
    && |Payload(v.frames)| <= 51
  }

  function Header(v: AudioView): Bytes
    requires Packable(v)
  {
    [0xA5, 1, 2, v.flags, |v.frames|, v.sequence % 256, v.sequence / 256,
     |v.frames[0]|, if |v.frames| == 2 then |v.frames[1]| else 0]
  }

  function EncodeAudio(v: AudioView): Bytes
    requires Packable(v)
  {
    Header(v) + Payload(v.frames)
  }

  /** What the packer answers; the first offending frame decides. */
  function PackStatus(v: AudioView, capacity: nat): Option<PacketStatus> {
    if |v.frames| == 0 || |v.frames| > 2 || !FlagsValid(v.flags) then Some(InvalidArgument)
    else if |v.frames[0]| == 0 || |v.frames[0]| > 255 then Some(InvalidArgument)
    else if |v.frames[0]| > 51 then Some(PayloadTooLarge)
    else if |v.frames| == 2 && (|v.frames[1]| == 0 || |v.frames[1]| > 255) then Some(InvalidArgument)
    else if |v.frames| == 2 && |v.frames[1]| > 51 - |v.frames[0]| then Some(PayloadTooLarge)
    else if capacity < 9 + |Payload(v.frames)| then Some(BufferTooSmall)
    else None
  }

  /** A full-size buffer never refuses what the format allows. */
  lemma PackableExactly(v: AudioView)
    ensures PackStatus(v, 60).None? <==> Packable(v)
  {}

  function DecodeAudio(b: Bytes): Result<AudioView, PacketStatus> {
    if |b| < 9 || |b| > 60 || b[0] != 0xA5 || b[1] != 1 || b[2] != 2 || !FlagsValid(b[3]) then Err(InvalidFormat)
    else if b[4] == 0 || b[4] > 2 then Err(InvalidFormat)
    else if b[4] == 1 && b[8] != 0 then Err(InvalidFormat)
    else if b[7] == 0 || b[7] > 51 then Err(InvalidFormat)
    else if b[4] == 2 && (b[8] == 0 || b[8] > 51 - b[7]) then Err(InvalidFormat)
    else if |b| != 9 + b[7] + b[8] then Err(InvalidFormat)
    else
      Ok(AudioView(Read16(b[5], b[6]), b[3],
        if b[4] == 1 then [b[9..9 + b[7]]] else [b[9..9 + b[7]], b[9 + b[7]..9 + b[7] + b[8]]]))
  }

  /** Unpacking a packed audio packet gives back sequence, flags and frames. */
  lemma AudioRoundTrip(v: AudioView)
    requires Packable(v)
    ensures PackStatus(v, 60) == None
    ensures DecodeAudio(EncodeAudio(v)) == Ok(v) && |EncodeAudio(v)| <= 60
  {
    var b := EncodeAudio(v);
    var n := |v.frames[0]|;
    assert b[9..9 + n] == v.frames[0];
    if |v.frames| == 2 {
      assert b[9 + n..9 + n + |v.frames[1]|] == v.frames[1];
      assert v.frames == [v.frames[0], v.frames[1]];
    } else {
      assert v.frames == [v.frames[0]];
    }
  }

  /** Every accepted audio packet is canonical: packing what was unpacked gives back its bytes. */
  lemma AudioCanonical(b: Bytes)
    requires DecodeAudio(b).Ok?
    ensures Packable(DecodeAudio(b).value) && EncodeAudio(DecodeAudio(b).value) == b
  {
    var v := DecodeAudio(b).value;
    Digits16(b[5], b[6]);
    assert Payload(v.frames) == b[9..];
    assert Header(v) == b[..9];
  }

  lemma Digits16(lo: uint8, hi: uint8)
    ensures Read16(lo, hi) % 256 == lo && Read16(lo, hi) / 256 == hi
  {}

  // ---------------------------------------------------------------- END and seed announcement

  /** PTT release is the only end reason. */
  datatype TalkspurtEnd = TalkspurtEnd(session: uint16, finalSequence: uint16)

  function EncodeEnd(e: TalkspurtEnd): Bytes {
    [0xA5, 1, 3, 0, e.session % 256, e.session / 256, e.finalSequence % 256, e.finalSequence / 256, 0]
  }

  function DecodeEnd(b: Bytes): Result<TalkspurtEnd, PacketStatus> {
    if |b| != 9 || b[0] != 0xA5 || b[1] != 1 || b[2] != 3 || b[3] != 0 || b[8] != 0 then Err(InvalidFormat)
    else Ok(TalkspurtEnd(Read16(b[4], b[5]), Read16(b[6], b[7])))
  }

  datatype SeedAnnounce = SeedAnnounce(session: uint16, publicSeed: uint32)

  function EncodeSeed(s: SeedAnnounce): Bytes {
    [0xA5, 1, 4, s.session % 256, s.session / 256, s.publicSeed % 256, s.publicSeed / 0x100 % 256,
     s.publicSeed / 0x1_0000 % 256, s.publicSeed / 0x100_0000]
  }

  function DecodeSeed(b: Bytes): Result<SeedAnnounce, PacketStatus> {
    if |b| != 9 || b[0] != 0xA5 || b[1] != 1 || b[2] != 4 then Err(InvalidFormat)
    else Ok(SeedAnnounce(Read16(b[3], b[4]), Read32(b[5], b[6], b[7], b[8])))
  }

  lemma EndRoundTrip(e: TalkspurtEnd)
    ensures DecodeEnd(EncodeEnd(e)) == Ok(e) && |EncodeEnd(e)| == 9
  {}

  lemma SeedRoundTrip(s: SeedAnnounce)
    ensures DecodeSeed(EncodeSeed(s)) == Ok(s) && |EncodeSeed(s)| == 9
  {
    var n := s.publicSeed;
    assert n / 0x1_0000 == n / 0x100 / 0x100;
    assert n / 0x100_0000 == n / 0x1_0000 / 0x100;
  }

  lemma EndCanonical(b: Bytes)
    requires DecodeEnd(b).Ok?
    ensures EncodeEnd(DecodeEnd(b).value) == b
  {}

  lemma Digits(b0: uint8, b1: uint8, b2: uint8, b3: uint8)
    ensures var n := Read32(b0, b1, b2, b3);
            n % 256 == b0 && n / 0x100 % 256 == b1 && n / 0x1_0000 % 256 == b2 && n / 0x100_0000 == b3
  {
    var n := Read32(b0, b1, b2, b3);
    var q1 := b1 + 0x100 * b2 as int + 0x1_0000 * b3 as int;
    var q2 := b2 + 0x100 * b3 as int;
    QuotientIs(n, 0x100, q1);
    QuotientIs(n, 0x1_0000, q2);
    QuotientIs(n, 0x100_0000, b3);
    QuotientIs(q1, 0x100, q2);
    QuotientIs(q2, 0x100, b3);
  }

  lemma SeedCanonical(b: Bytes)
    requires DecodeSeed(b).Ok?
    ensures EncodeSeed(DecodeSeed(b).value) == b
  {
    Digits16(b[3], b[4]);
    Digits(b[5], b[6], b[7], b[8]);
  }

  /** Where the formats put their fields: constants by value, numbers little-endian, frame lengths before
      the frames. */
  lemma Layouts(v: AudioView, e: TalkspurtEnd, s: SeedAnnounce)
    requires Packable(v)
    ensures var b := EncodeAudio(v);
            && |b| == 9 + |Payload(v.frames)| && b[..3] == [0xA5, 1, 2] && b[3] == v.flags && b[4] == |v.frames|
            && b[5] as int + 256 * b[6] as int == v.sequence && b[7] == |v.frames[0]|
            && (|v.frames| == 2 ==> b[8] == |v.frames[1]|) && b[9..] == Payload(v.frames)
    ensures var b := EncodeEnd(e);
            && |b| == 9 && b[..4] == [0xA5, 1, 3, 0] && b[8] == 0
            && b[4] as int + 256 * b[5] as int == e.session && b[6] as int + 256 * b[7] as int == e.finalSequence
    ensures var b := EncodeSeed(s);
            && |b| == 9 && b[..3] == [0xA5, 1, 4] && b[3] as int + 256 * b[4] as int == s.session
            && Read32(b[5], b[6], b[7], b[8]) == s.publicSeed
  {
    SeedRoundTrip(s);
  }

  /** No byte string is accepted by two of the parsers, so the order in which a receiver tries them does
      not matter. */
  lemma FormatsAreDisjoint(b: Bytes)
    ensures !(DecodeAudio(b).Ok? && DecodeEnd(b).Ok?)
    ensures !(DecodeAudio(b).Ok? && DecodeSeed(b).Ok?)
    ensures !(DecodeEnd(b).Ok? && DecodeSeed(b).Ok?)
  {}

  // ---------------------------------------------------------------- the packer and parser

  /** Packs into `out`, which is written only on success and only up to the packet's length. */
  method PackAudio(sequence: uint16, flags: uint8, frames: seq<Bytes>, out: array<uint8>)
    returns (status: Option<PacketStatus>, length: nat)
    modifies out
    ensures status == PackStatus(AudioView(sequence, flags, frames), out.Length)
    ensures status.Some? ==> out[..] == old(out[..])
    ensures status.None? ==>
              && Packable(AudioView(sequence, flags, frames))
              && length <= out.Length && length <= 60
              && out[..length] == EncodeAudio(AudioView(sequence, flags, frames))
              && out[length..] == old(out[length..])
  {
    length := 0;
    if |frames| == 0 || |frames| > 2 || !FlagsValid(flags) {
      return Some(InvalidArgument), 0;
    }
    var payload := 0;
    var i := 0;
    while i < |frames|
      invariant 0 <= i <= |frames| && out[..] == old(out[..])
      invariant forall k | 0 <= k < i :: 0 < |frames[k]| <= 51
      invariant payload == (if i >= 1 then |frames[0]| else 0) + (if i == 2 then |frames[1]| else 0) <= 51
    {
      if |frames[i]| == 0 || |frames[i]| > 255 {
        return Some(InvalidArgument), 0;
      }
      if |frames[i]| > 51 - payload {
        return Some(PayloadTooLarge), 0;
      }
      payload := payload + |frames[i]|;
      i := i + 1;
    }
    if out.Length < 9 + payload {
      return Some(BufferTooSmall), 0;
    }
    var packet := FillPacket(sequence, flags, frames);
    length := 9 + payload;
    forall k | 0 <= k < length {
      out[k] := packet[k];
    }
    status := None;
  }

  /** memcpy of one frame. */
  method CopyFrame(packet: array<uint8>, offset: nat, frame: Bytes)
    requires offset + |frame| <= packet.Length
    modifies packet
    ensures forall k | 0 <= k < packet.Length ::
              packet[k] == if offset <= k < offset + |frame| then frame[k - offset] else old(packet[k])
  {
    forall k | 0 <= k < |frame| {
      packet[offset + k] := frame[k];
    }
  }

  /** Where frame i starts in the packet. */
  function FrameStart(frames: seq<Bytes>, i: nat): nat
    requires 1 <= |frames| <= 2 && i <= |frames|
  {
    if i == 0 then 9 else if i == 1 then 9 + |frames[0]| else 9 + |frames[0]| + |frames[1]|
  }

  /** Writes the frame lengths into the header and the frames at a running offset behind it. */
  method CopyFrames(packet: array<uint8>, frames: seq<Bytes>)
    requires packet.Length == 60 && 1 <= |frames| <= 2
    requires FrameStart(frames, |frames|) <= 60
    modifies packet
    ensures forall k | 0 <= k < 7 :: packet[k] == old(packet[k])
    ensures packet[7] == |frames[0]|
    ensures packet[8] == if |frames| == 2 then |frames[1]| else old(packet[8])
    ensures packet[9..9 + |frames[0]|] == frames[0]
    ensures |frames| == 2 ==> packet[9 + |frames[0]|..9 + |frames[0]| + |frames[1]|] == frames[1]
  {
    var offset := 9;
    var i := 0;
    while i < |frames|
      invariant 0 <= i <= |frames| && offset == FrameStart(frames, i)
      invariant forall k | 0 <= k < 7 :: packet[k] == old(packet[k])
      invariant i >= 1 ==> packet[7] == |frames[0]| && packet[9..9 + |frames[0]|] == frames[0]
      invariant i < 2 ==> packet[8] == old(packet[8])
      invariant i == 2 ==> packet[8] == |frames[1]| &&
                           packet[9 + |frames[0]|..9 + |frames[0]| + |frames[1]|] == frames[1]
    {
      packet[7 + i] := |frames[i]|;
      ghost var before := packet[..];
      CopyFrame(packet, offset, frames[i]);
      assert packet[..offset] == before[..offset];
      assert packet[offset..offset + |frames[i]|] == frames[i];
      if i == 1 {
        assert packet[9..9 + |frames[0]|] == before[9..9 + |frames[0]|];
      }
      offset := offset + |frames[i]|;
      i := i + 1;
    }
  }

  /** The 60-byte working packet: header and frames, zero beyond. */
  method FillPacket(sequence: uint16, flags: uint8, frames: seq<Bytes>) returns (packet: array<uint8>)
    requires Packable(AudioView(sequence, flags, frames))
    ensures fresh(packet) && packet.Length == 60
    ensures |EncodeAudio(AudioView(sequence, flags, frames))| == 9 + |Payload(frames)| <= 60
    ensures packet[..9 + |Payload(frames)|] == EncodeAudio(AudioView(sequence, flags, frames))
  {
    packet := new uint8[60](_ => 0);
    WriteHeader(packet, sequence, flags, |frames|);
    CopyFrames(packet, frames);
    var n := |frames[0]|;
    assert packet[..][9..9 + n] == packet[9..9 + n];
    if |frames| == 2 {
      assert packet[..][9 + n..9 + n + |frames[1]|] == packet[9 + n..9 + n + |frames[1]|];
    }
    PacketIsEncoding(packet[..], AudioView(sequence, flags, frames));
  }

  /** Everything in the header but the frame lengths. */
  method WriteHeader(packet: array<uint8>, sequence: uint16, flags: uint8, count: uint8)
    requires packet.Length == 60
    modifies packet
    ensures packet[..7] == [0xA5, 1, 2, flags, count, sequence % 256, sequence / 256]
    ensures packet[7..] == old(packet[7..])
  {
    packet[0], packet[1], packet[2] := 0xA5, 1, 2;
    packet[3] := flags;
    packet[4] := count;
    packet[5], packet[6] := sequence % 256, sequence / 256;
  }

  /** Header bytes and frames in their places make up the encoding. */
  lemma PacketIsEncoding(b: Bytes, v: AudioView)
    requires Packable(v) && |b| == 60
    requires b[0] == 0xA5 && b[1] == 1 && b[2] == 2 && b[3] == v.flags && b[4] == |v.frames|
    requires b[5] == v.sequence % 256 && b[6] == v.sequence / 256
    requires b[7] == |v.frames[0]| && b[8] == if |v.frames| == 2 then |v.frames[1]| else 0
    requires b[9..9 + |v.frames[0]|] == v.frames[0]
    requires |v.frames| == 2 ==> b[9 + |v.frames[0]|..9 + |v.frames[0]| + |v.frames[1]|] == v.frames[1]
    ensures b[..9 + |Payload(v.frames)|] == EncodeAudio(v) && |EncodeAudio(v)| == 9 + |Payload(v.frames)| <= 60
  {
    var n := 9 + |Payload(v.frames)|;
    assert b[9..n] == Payload(v.frames);
    assert b[..9] == Header(v);
    assert b[..n] == b[..9] + b[9..n];
  }

  /** Total length of the first i frames, as the header announces it. */
  function FirstLengths(packet: Bytes, i: nat): nat
    requires |packet| >= 9
  {
    (if i >= 1 then packet[7] as int else 0) + if i >= 2 then packet[8] as int else 0
  }

  /** Parses a received packet; the frames are slices of it. */
  method UnpackAudio(packet: Bytes) returns (view: Result<AudioView, PacketStatus>)
    ensures view == DecodeAudio(packet)
  {
    if |packet| < 9 || |packet| > 60 || packet[0] != 0xA5 || packet[1] != 1 || packet[2] != 2 ||
       !FlagsValid(packet[3]) {
      return Err(InvalidFormat);
    }
    var count := packet[4];
    if count == 0 || count > 2 {
      return Err(InvalidFormat);
    }
    if count == 1 && packet[8] != 0 {
      return Err(InvalidFormat);
    }
    var payload := 0;
    var i := 0;
    while i < count
      invariant 0 <= i <= count
      invariant payload == FirstLengths(packet, i) <= 51
      invariant i >= 1 ==> packet[7] != 0
      invariant i == 2 ==> packet[8] != 0
    {
      var length := packet[7 + i];
      if length == 0 || length > 51 - payload {
        return Err(InvalidFormat);
      }
      payload := payload + length;
      i := i + 1;
    }
    if |packet| != 9 + payload {
      return Err(InvalidFormat);
    }
    var frames: seq<Bytes> := [];
    var offset := 9;
    i := 0;
    while i < count
      invariant 0 <= i <= count
      invariant offset == 9 + FirstLengths(packet, i)
      invariant frames == if i == 0 then []
                          else if i == 1 then [packet[9..9 + packet[7]]]
                          else [packet[9..9 + packet[7]], packet[9 + packet[7]..9 + packet[7] + packet[8]]]
    {
      var length := packet[7 + i];
      frames := frames + [packet[offset..offset + length]];
      offset := offset + length;
      i := i + 1;
    }
    view := Ok(AudioView(Read16(packet[5], packet[6]), packet[3], frames));
  }
}
