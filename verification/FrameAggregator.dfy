/** The two-frame aggregator of the audio transmitter, between the codec and the radio's TX queue. */
module FrameAggregator {
  import opened CTypes
  import opened AudioPacket

  // ---------------------------------------------------------------- specification

  /** `queued` is everything the TX queue has accepted since the session began. */
  datatype Tx = Tx(active: bool, buffered: seq<Bytes>, sequence: uint16, session: uint16, queued: seq<Bytes>)

  const QUIET := Tx(false, [], 0, 0, [])

  datatype TxStep = TxStep(tx: Tx, ok: bool)

  /** `room` says whether the TX queue accepts the packet. */
  function SendBuffered(t: Tx, flags: uint8, room: bool): TxStep {
    if t.buffered == [] then TxStep(t, true)
    else
      var view := AudioView(t.sequence, flags, t.buffered);
      if !Packable(view) || !room then TxStep(t, false)
      else
        TxStep(t.(queued := t.queued + [EncodeAudio(view)],
                  sequence := (t.sequence + 1) % 0x1_0000, buffered := []), true)
  }

  /** The aggregator stores the frame if it can; a full buffer is sent at once. */
  predicate Stores(t: Tx, frame: Bytes) {
    t.active && 0 < |frame| <= 64 && |t.buffered| < 2
  }

  function Submit(t: Tx, frame: Bytes, room: bool): TxStep {
    if !Stores(t, frame) then TxStep(t, false)
    else
      var t' := t.(buffered := t.buffered + [frame]);
      if |t'.buffered| < 2 then TxStep(t', true) else SendBuffered(t', 0, room)
  }

  /** Queue up to `rooms`' many copies of a control packet, giving up at the first refusal. */
  function SendCopies(t: Tx, packet: Bytes, rooms: seq<bool>): TxStep
    decreases |rooms|
  {
    if rooms == [] then TxStep(t, true)
    else if !rooms[0] then TxStep(t, false)
    else SendCopies(t.(queued := t.queued + [packet]), packet, rooms[1..])
  }

  function NextSession(session: uint16): uint16 {
    if session == 0xFFFF then 1 else session + 1
  }

  /** The final sequence an END packet announces; 0xFFFF is also its "no audio" mark. */
  function FinalSequence(sequence: uint16): uint16 {
    if sequence == 0 then 0xFFFF else sequence - 1
  }

  function BeginTx(t: Tx, ready: bool, publicSeed: uint32, roleOk: bool, rooms: seq<bool>): TxStep {
    if !ready || t.active then TxStep(t, false)
    else
      var fresh' := Tx(false, [], 0, NextSession(t.session), []);
      if !roleOk then TxStep(fresh', false)
      else
        var announced := SendCopies(fresh', EncodeSeed(SeedAnnounce(fresh'.session, publicSeed)), rooms);
        TxStep(announced.tx.(active := true), true)
  }

  /** `settled` says whether the TX queue drained in time and the switch back to receiving succeeded. */
  function EndTx(t: Tx, ready: bool, room: bool, rooms: seq<bool>, settled: bool): TxStep {
    if !ready || !t.active then TxStep(t, true)
    else
      var flushed := SendBuffered(t, 0, room);
      var end := TalkspurtEnd(t.session, FinalSequence(flushed.tx.sequence));
      var ended := SendCopies(flushed.tx, EncodeEnd(end), rooms);
      TxStep(ended.tx.(active := false), flushed.ok && ended.ok && settled)
  }

  // ---------------------------------------------------------------- conservation over runs

  datatype Op =
    | Begin(ready: bool, publicSeed: uint32, roleOk: bool, announceRooms: seq<bool>)
    | Frame(frame: Bytes, room: bool)
    | End(ready': bool, flushRoom: bool, endRooms: seq<bool>, settled: bool)

  /** The transmitter and the frames it has stored since the session began. */
  datatype Talk = Talk(tx: Tx, stored: seq<Bytes>)

  function Do(k: Talk, op: Op): Talk {
    match op
    case Begin(ready, publicSeed, roleOk, rooms) =>
      Talk(BeginTx(k.tx, ready, publicSeed, roleOk, rooms).tx, if ready && !k.tx.active then [] else k.stored)
    case Frame(frame, room) =>
      Talk(Submit(k.tx, frame, room).tx, if Stores(k.tx, frame) then k.stored + [frame] else k.stored)
    case End(ready, room, rooms, settled) =>
      Talk(EndTx(k.tx, ready, room, rooms, settled).tx, k.stored)
  }

  function DoAll(k: Talk, ops: seq<Op>): Talk
    decreases |ops|
  {
    if ops == [] then k else DoAll(Do(k, ops[0]), ops[1..])
  }

  /** What a receiver gets out of the queued packets: the frames of those that parse as audio ... */
  function HeardFrames(queued: seq<Bytes>): seq<Bytes> {
    if queued == [] then []
    else
      var view := DecodeAudio(queued[|queued| - 1]);
      HeardFrames(queued[..|queued| - 1]) + if view.Ok? then view.value.frames else []
  }

  /** ... and their sequence numbers. */
  function HeardSequences(queued: seq<Bytes>): seq<uint16> {
    if queued == [] then []
    else
      var view := DecodeAudio(queued[|queued| - 1]);
      HeardSequences(queued[..|queued| - 1]) + if view.Ok? then [view.value.sequence] else []
  }

  lemma HeardAppend(queued: seq<Bytes>, packet: Bytes)
    ensures var view := DecodeAudio(packet);
            && HeardFrames(queued + [packet]) == HeardFrames(queued) + (if view.Ok? then view.value.frames else [])
            && HeardSequences(queued + [packet]) ==
               HeardSequences(queued) + (if view.Ok? then [view.value.sequence] else [])
  {
    assert (queued + [packet])[..|queued|] == queued;
  }

  ghost predicate Conserved(k: Talk) {
    && HeardFrames(k.tx.queued) + k.tx.buffered == k.stored
    && (forall i | 0 <= i < |HeardSequences(k.tx.queued)| :: HeardSequences(k.tx.queued)[i] == i % 0x1_0000)
    && k.tx.sequence == |HeardSequences(k.tx.queued)| % 0x1_0000
  }

  /** Control packets are inaudible. */
  lemma {:induction false} CopiesConserve(k: Talk, packet: Bytes, rooms: seq<bool>)
    requires Conserved(k) && DecodeAudio(packet).Err?
    ensures Conserved(Talk(SendCopies(k.tx, packet, rooms).tx, k.stored))
    ensures SendCopies(k.tx, packet, rooms).tx == k.tx.(queued := SendCopies(k.tx, packet, rooms).tx.queued)
    decreases |rooms|
  {
    if rooms != [] && rooms[0] {
      HeardAppend(k.tx.queued, packet);
      CopiesConserve(Talk(k.tx.(queued := k.tx.queued + [packet]), k.stored), packet, rooms[1..]);
    }
  }

  lemma SendConserves(k: Talk, flags: uint8, room: bool)
    requires Conserved(k)
    ensures Conserved(Talk(SendBuffered(k.tx, flags, room).tx, k.stored))
  {
    var sent := SendBuffered(k.tx, flags, room);
    if sent.ok && k.tx.buffered != [] {
      var view := AudioView(k.tx.sequence, flags, k.tx.buffered);
      AudioRoundTrip(view);
      PacketConserves(k, EncodeAudio(view), view);
    }
  }

  /** Moving the buffer into a queued packet. */
  lemma PacketConserves(k: Talk, packet: Bytes, view: AudioView)
    requires Conserved(k) && DecodeAudio(packet) == Ok(view)
    requires view.frames == k.tx.buffered && view.sequence == k.tx.sequence
    ensures Conserved(Talk(k.tx.(queued := k.tx.queued + [packet], sequence := (k.tx.sequence + 1) % 0x1_0000,
                                 buffered := []), k.stored))
  {
    HeardAppend(k.tx.queued, packet);
    ModNext(|HeardSequences(k.tx.queued)|);
    assert HeardFrames(k.tx.queued + [packet]) + [] == HeardFrames(k.tx.queued) + k.tx.buffered;
  }

  lemma ModNext(n: nat)
    ensures (n % 0x1_0000 + 1) % 0x1_0000 == (n + 1) % 0x1_0000
  {}

  lemma DoConserves(k: Talk, op: Op)
    requires Conserved(k)
    ensures Conserved(Do(k, op))
  {
    match op
    case Begin(ready, publicSeed, roleOk, rooms) =>
      if ready && !k.tx.active && roleOk {
        var fresh' := Tx(false, [], 0, NextSession(k.tx.session), []);
        CopiesConserve(Talk(fresh', []), EncodeSeed(SeedAnnounce(fresh'.session, publicSeed)), rooms);
      }
    case Frame(frame, room) =>
      if Stores(k.tx, frame) {
        var k' := Talk(k.tx.(buffered := k.tx.buffered + [frame]), k.stored + [frame]);
        assert Conserved(k');
        SendConserves(k', 0, room);
      }
    case End(ready, room, rooms, _) =>
      if ready && k.tx.active {
        SendConserves(k, 0, room);
        var flushed := SendBuffered(k.tx, 0, room).tx;
        CopiesConserve(Talk(flushed, k.stored),
                       EncodeEnd(TalkspurtEnd(k.tx.session, FinalSequence(flushed.sequence))), rooms);
      }
  }

  lemma {:induction false} DoAllConserves(k: Talk, ops: seq<Op>)
    requires Conserved(k)
    ensures Conserved(DoAll(k, ops))
    decreases |ops|
  {
    if ops != [] {
      DoConserves(k, ops[0]);
      DoAllConserves(Do(k, ops[0]), ops[1..]);
    }
  }

  /** Conservation. Over every run of session starts, frames and session ends, with packing and queueing
      failing at will: the frames a receiver unpacks from the queued packets, in order, followed by
      the frames still buffered, are exactly the frames stored since the session began, and the
      audio packets are numbered 0, 1, 2, ... modulo 2^16. */
  lemma FramesAreConserved(ops: seq<Op>)
    ensures var k := DoAll(Talk(QUIET, []), ops);
            && HeardFrames(k.tx.queued) + k.tx.buffered == k.stored
            && (forall i | 0 <= i < |HeardSequences(k.tx.queued)| ::
                  HeardSequences(k.tx.queued)[i] == i % 0x1_0000)
  {
    DoAllConserves(Talk(QUIET, []), ops);
  }

  /** What the END packet's final sequence says. It is the last packet's number, except that it claims
      "no audio" after every multiple of 65536 packets, not only after none. */
  lemma FinalSequenceMeaning(ops: seq<Op>)
    ensures var tx := DoAll(Talk(QUIET, []), ops).tx;
            var packets := |HeardSequences(tx.queued)|;
            && (FinalSequence(tx.sequence) == 0xFFFF <==> packets % 0x1_0000 == 0)
            && (packets > 0 ==> FinalSequence(tx.sequence) == HeardSequences(tx.queued)[packets - 1])
  {
    DoAllConserves(Talk(QUIET, []), ops);
    NumberBefore(|HeardSequences(DoAll(Talk(QUIET, []), ops).tx.queued)|);
  }

  lemma NumberBefore(n: nat)
    ensures FinalSequence(n % 0x1_0000) == 0xFFFF <==> n % 0x1_0000 == 0
    ensures n > 0 ==> FinalSequence(n % 0x1_0000) == (n - 1) % 0x1_0000
  {}

  // ---------------------------------------------------------------- what a talkspurt delivers

  function Repeated(packet: Bytes, n: nat): seq<Bytes> {
    if n == 0 then [] else [packet] + Repeated(packet, n - 1)
  }

  /** How many copies go out before the queue first refuses one. */
  function CopiesAccepted(rooms: seq<bool>): nat
    decreases |rooms|
  {
    if rooms == [] || !rooms[0] then 0 else 1 + CopiesAccepted(rooms[1..])
  }

  lemma {:induction false} CopiesSent(t: Tx, packet: Bytes, rooms: seq<bool>)
    ensures SendCopies(t, packet, rooms).tx == t.(queued := t.queued + Repeated(packet, CopiesAccepted(rooms)))
    ensures SendCopies(t, packet, rooms).ok <==> CopiesAccepted(rooms) == |rooms|
    decreases |rooms|
  {
    if rooms != [] && rooms[0] {
      CopiesSent(t.(queued := t.queued + [packet]), packet, rooms[1..]);
    }
  }

  /** A session start that is allowed opens an empty, active session under the next session number, which is
      never 0, and queues copies of an announcement that decodes to that number and the seed. */
  lemma BeginOutcome(t: Tx, publicSeed: uint32, rooms: seq<bool>)
    requires !t.active
    ensures var begun := BeginTx(t, true, publicSeed, true, rooms);
            var announce := EncodeSeed(SeedAnnounce(begun.tx.session, publicSeed));
            && begun.ok && begun.tx == Tx(true, [], 0, begun.tx.session, Repeated(announce, CopiesAccepted(rooms)))
            && begun.tx.session != 0 && (begun.tx.session == t.session + 1 || t.session == 0xFFFF)
            && DecodeSeed(announce) == Ok(SeedAnnounce(begun.tx.session, publicSeed))
  {
    var fresh' := Tx(false, [], 0, NextSession(t.session), []);
    var announce := SeedAnnounce(fresh'.session, publicSeed);
    CopiesSent(fresh', EncodeSeed(announce), rooms);
    SeedRoundTrip(announce);
  }

  /** What a session end queues: first the frames still buffered, if they fit a packet and there is room,
      which empties the buffer; then copies of an END that decodes to this session and the number of
      the last audio packet. */
  lemma EndOutcome(t: Tx, room: bool, rooms: seq<bool>, settled: bool)
    requires t.active
    ensures var flushed := FlushGoesOut(t, room);
            var next := if flushed then (t.sequence + 1) % 0x1_0000 else t.sequence;
            var end := TalkspurtEnd(t.session, (next + 0xFFFF) % 0x1_0000);
            var ended := EndTx(t, true, room, rooms, settled);
            && DecodeEnd(EncodeEnd(end)) == Ok(end)
            && ended.tx == Tx(false, if flushed then [] else t.buffered, next, t.session,
                              WithFlush(t, room) + Repeated(EncodeEnd(end), CopiesAccepted(rooms)))
            && (ended.ok <==> (t.buffered == [] || flushed) && CopiesAccepted(rooms) == |rooms| && settled)
  {
    var flushed := SendBuffered(t, 0, room);
    FlushOutcome(t, room);
    var end := TalkspurtEnd(t.session, FinalSequence(flushed.tx.sequence));
    LastNumber(flushed.tx.sequence);
    EndRoundTrip(end);
    CopiesSent(flushed.tx, EncodeEnd(end), rooms);
  }

  /** There is something to flush, it fits a packet, and the queue takes it. */
  predicate FlushGoesOut(t: Tx, room: bool) {
    t.buffered != [] && Packable(AudioView(t.sequence, 0, t.buffered)) && room
  }

  function WithFlush(t: Tx, room: bool): seq<Bytes> {
    if FlushGoesOut(t, room) then t.queued + [EncodeAudio(AudioView(t.sequence, 0, t.buffered))] else t.queued
  }

  lemma FlushOutcome(t: Tx, room: bool)
    ensures var sent := SendBuffered(t, 0, room);
            && sent.ok == (t.buffered == [] || FlushGoesOut(t, room)) && sent.tx.queued == WithFlush(t, room)
            && sent.tx.buffered == (if FlushGoesOut(t, room) then [] else t.buffered)
            && sent.tx.sequence == (if FlushGoesOut(t, room) then (t.sequence + 1) % 0x1_0000 else t.sequence)
            && sent.tx.active == t.active && sent.tx.session == t.session
  {}

  lemma LastNumber(sequence: uint16)
    ensures FinalSequence(sequence) == (sequence + 0xFFFF) % 0x1_0000
  {}

  /** Frames that fit the aggregator, each two of them a packet, and a last single one too. */
  predicate Pairable(frames: seq<Bytes>)
    decreases |frames|
  {
    if frames == [] then true
    else if |frames| == 1 then 0 < |frames[0]| <= 51
    else
      0 < |frames[0]| && 0 < |frames[1]| && |frames[0]| + |frames[1]| <= 51 && Pairable(frames[2..])
  }

  function WithRoom(frames: seq<Bytes>): (offers: seq<(Bytes, bool)>)
    ensures |offers| == |frames| && forall i | 0 <= i < |frames| :: offers[i] == (frames[i], true)
  {
    seq(|frames|, i requires 0 <= i < |frames| => (frames[i], true))
  }

  lemma PairTaken(t: Tx, frame: Bytes, rest: seq<Bytes>)
    requires t.active && |t.buffered| < 2 && Pairable(t.buffered + ([frame] + rest))
    ensures var step := Submit(t, frame, true);
            && step.ok && Stores(t, frame) && step.tx.active && |step.tx.buffered| < 2
            && Pairable(step.tx.buffered + rest)
  {
    var all := t.buffered + ([frame] + rest);
    assert all == (t.buffered + [frame]) + rest;
    if t.buffered == [] {
      assert all[0] == frame && t.buffered + [frame] == [frame];
    } else {
      assert all[0] == t.buffered[0] && all[1] == frame && all[2..] == rest;
      assert [] + rest == rest;
    }
  }

  /** A transmitter that keeps up: conserved, not stalled, and with frames to come that fit. */
  ghost predicate Flowing(k: Talk, coming: seq<Bytes>) {
    Conserved(k) && k.tx.active && |k.tx.buffered| < 2 && Pairable(k.tx.buffered + coming)
  }

  lemma FrameGoesThrough(k: Talk, frame: Bytes, rest: seq<Bytes>)
    requires Flowing(k, [frame] + rest)
    ensures Flowing(Talk(Submit(k.tx, frame, true).tx, k.stored + [frame]), rest)
  {
    PairTaken(k.tx, frame, rest);
    DoConserves(k, Frame(frame, true));
  }

  lemma SubmitFirst(t: Tx, frames: seq<Bytes>)
    requires frames != []
    ensures SubmitAll(t, WithRoom(frames)) == SubmitAll(Submit(t, frames[0], true).tx, WithRoom(frames[1..]))
  {
    assert WithRoom(frames)[1..] == WithRoom(frames[1..]);
  }

  /** Frames submitted one after the other, with room in the queue, all of them stored. */
  function Spoken(k: Talk, frames: seq<Bytes>): Talk
    decreases |frames|
  {
    if frames == [] then k
    else Spoken(Talk(Submit(k.tx, frames[0], true).tx, k.stored + [frames[0]]), frames[1..])
  }

  lemma {:induction false} SpokenIsSubmitted(k: Talk, frames: seq<Bytes>)
    ensures Spoken(k, frames) == Talk(SubmitAll(k.tx, WithRoom(frames)), k.stored + frames)
    decreases |frames|
  {
    if frames == [] {
      assert k.stored + frames == k.stored;
    } else {
      SubmitFirst(k.tx, frames);
      SpokenIsSubmitted(Talk(Submit(k.tx, frames[0], true).tx, k.stored + [frames[0]]), frames[1..]);
      assert k.stored + frames == (k.stored + [frames[0]]) + frames[1..];
    }
  }

  /** With room in the queue, the transmitter keeps up with every frame of a talkspurt. */
  lemma {:induction false} FramesGoThrough(k: Talk, frames: seq<Bytes>)
    requires Flowing(k, frames)
    ensures Flowing(Spoken(k, frames), [])
    decreases |frames|
  {
    if frames != [] {
      assert frames == [frames[0]] + frames[1..];
      FrameGoesThrough(k, frames[0], frames[1..]);
      FramesGoThrough(Talk(Submit(k.tx, frames[0], true).tx, k.stored + [frames[0]]), frames[1..]);
    }
  }

  /** The session end sends what is left of a talkspurt that flowed. */
  lemma LastFlush(k: Talk, rooms: seq<bool>, settled: bool)
    requires Flowing(k, [])
    ensures var ended := EndTx(k.tx, true, true, rooms, settled).tx;
            HeardFrames(ended.queued) == k.stored && ended.buffered == [] && !ended.active
  {
    assert k.tx.buffered + [] == k.tx.buffered;
    EndOutcome(k.tx, true, rooms, settled);
    DoConserves(k, End(true, true, rooms, settled));
    var ended := EndTx(k.tx, true, true, rooms, settled).tx;
    assert HeardFrames(ended.queued) + [] == HeardFrames(ended.queued);
  }

  /** A talkspurt is delivered. If the queue has room, whatever was said before, a receiver of the packets
      queued between a session's start and its end unpacks exactly the frames submitted, in order. */
  lemma TalkspurtIsDelivered(t: Tx, publicSeed: uint32, announceRooms: seq<bool>, frames: seq<Bytes>,
                             endRooms: seq<bool>, settled: bool)
    requires !t.active && Pairable(frames)
    ensures var begun := BeginTx(t, true, publicSeed, true, announceRooms).tx;
            var ended := EndTx(SubmitAll(begun, WithRoom(frames)), true, true, endRooms, settled).tx;
            HeardFrames(ended.queued) == frames && ended.buffered == [] && !ended.active
  {
    BeginOutcome(t, publicSeed, announceRooms);
    var k := Talk(BeginTx(t, true, publicSeed, true, announceRooms).tx, []);
    SessionStartConserves(t, publicSeed, announceRooms);
    assert [] + frames == frames;
    FramesGoThrough(k, frames);
    SpokenIsSubmitted(k, frames);
    LastFlush(Spoken(k, frames), endRooms, settled);
  }

  lemma SessionStartConserves(t: Tx, publicSeed: uint32, rooms: seq<bool>)
    requires !t.active
    ensures Conserved(Talk(BeginTx(t, true, publicSeed, true, rooms).tx, []))
  {
    var fresh' := Tx(false, [], 0, NextSession(t.session), []);
    CopiesConserve(Talk(fresh', []), EncodeSeed(SeedAnnounce(fresh'.session, publicSeed)), rooms);
  }

  // ---------------------------------------------------------------- the stalled transmitter

  predicate Stalled(t: Tx) {
    |t.buffered| >= 2
  }

  /** A submitted frame stalls the transmitter exactly when it fills the buffer and either the queue has
      no room or the two frames together exceed the 51 payload bytes of a packet. */
  lemma SubmitStalls(t: Tx, frame: Bytes, room: bool)
    requires !Stalled(t) && forall i | 0 <= i < |t.buffered| :: 0 < |t.buffered[i]| <= 64
    ensures Stalled(Submit(t, frame, room).tx) <==>
              Stores(t, frame) && |t.buffered| == 1 && (!room || |t.buffered[0]| + |frame| > 51)
  {}

  /** A frame leaves the transmitter as it was exactly when no talkspurt is active, the frame is empty or
      longer than 64 bytes, or the transmitter has stalled. */
  lemma SubmitRefuses(t: Tx, frame: Bytes, room: bool)
    ensures Submit(t, frame, room).tx == t <==> !t.active || |frame| == 0 || |frame| > 64 || Stalled(t)
  {
    var sent := Submit(t, frame, room).tx;
    assert sent != t || |sent.buffered| == |t.buffered|;
  }

  function SubmitAll(t: Tx, frames: seq<(Bytes, bool)>): Tx
    decreases |frames|
  {
    if frames == [] then t else SubmitAll(Submit(t, frames[0].0, frames[0].1).tx, frames[1..])
  }

  /** A stalled transmitter stays silent: every later frame of the talkspurt is refused without another
      attempt to send, even when the queue has room again. */
  lemma {:induction false} StallLastsTheTalkspurt(t: Tx, frames: seq<(Bytes, bool)>)
    requires Stalled(t)
    ensures SubmitAll(t, frames) == t
    ensures forall frame, room :: Submit(t, frame, room) == TxStep(t, false)
    decreases |frames|
  {
    if frames != [] {
      StallLastsTheTalkspurt(t, frames[1..]);
    }
  }

  /** The flush at the end of the talkspurt gets the two frames out exactly when they fit one packet and
      the queue has room; an oversized pair is never sent at all. */
  lemma FlushAfterStall(t: Tx, room: bool)
    requires |t.buffered| == 2 && forall i | 0 <= i < 2 :: 0 < |t.buffered[i]| <= 64
    ensures SendBuffered(t, 0, room).ok <==> room && |t.buffered[0]| + |t.buffered[1]| <= 51
    ensures !SendBuffered(t, 0, room).ok ==> SendBuffered(t, 0, room).tx == t
  {}

  // ---------------------------------------------------------------- the aggregator object

  class AudioAggregator {
    const frames: array<uint8>     // two slots of 64 bytes
    const lengths: array<nat>
    var frameCount: nat
    var active: bool
    var sequence: uint16
    var session: uint16
    var queued: seq<Bytes>

    ghost function Repr(): set<object> {
      {this, frames, lengths}
    }

    ghost predicate Valid()
      reads Repr()
    {
      frames.Length == 128 && lengths.Length == 2 && frameCount <= 2 &&
      forall i | 0 <= i < frameCount :: 0 < lengths[i] <= 64
    }

    function FrameAt(i: nat): Bytes
      requires i < 2 && frames.Length == 128 && lengths.Length == 2 && lengths[i] <= 64
      reads frames, lengths
    {
      frames[64 * i..64 * i + lengths[i]]
    }

    function Buffered(): seq<Bytes>
      requires Valid()
      reads Repr()
    {
      if frameCount == 0 then []
      else if frameCount == 1 then [FrameAt(0)]
      else [FrameAt(0), FrameAt(1)]
    }

    ghost function View(): Tx
      requires Valid()
      reads Repr()
    {
      Tx(active, Buffered(), sequence, session, queued)
    }

    constructor ()
      ensures Valid() && View() == QUIET && fresh(Repr())
    {
      frames := new uint8[128](_ => 0);
      lengths := new nat[2](_ => 0);
      frameCount, active, sequence, session, queued := 0, false, 0, 0, [];
    }

    method SendData(packet: Bytes, room: bool) returns (ok: bool)
      modifies this`queued
      ensures ok == room && queued == if room then old(queued) + [packet] else old(queued)
    {
      if room {
        queued := queued + [packet];
      }
      ok := room;
    }

    method Flush(flags: uint8, room: bool) returns (ok: bool)
      requires Valid()
      modifies this, lengths
      ensures Valid() && TxStep(View(), ok) == SendBuffered(old(View()), flags, room)
    {
      if frameCount == 0 {
        return true;
      }
      var packet := new uint8[60](_ => 0);
      PackableExactly(AudioView(sequence, flags, Buffered()));
      var status, length := PackAudio(sequence, flags, Buffered(), packet);
      if status.Some? {
        return false;
      }
      ok := SendData(packet[..length], room);
      if !ok {
        return false;
      }
      sequence := (sequence + 1) % 0x1_0000;
      frameCount := 0;
      lengths[0], lengths[1] := 0, 0;
    }

    method SubmitFrame(frame: Bytes, room: bool) returns (ok: bool)
      requires Valid()
      modifies Repr()
      ensures Valid() && TxStep(View(), ok) == Submit(old(View()), frame, room)
    {
      if !active || |frame| == 0 || |frame| > 64 || frameCount >= 2 {
        return false;
      }
      StoreFrame(frame);
      if frameCount < 2 {
        return true;
      }
      ok := Flush(0, room);
    }

    /** The memcpy into the next free slot. */
    method StoreFrame(frame: Bytes)
      requires Valid() && frameCount < 2 && 0 < |frame| <= 64
      modifies this`frameCount, frames, lengths
      ensures Valid() && Buffered() == old(Buffered()) + [frame]
      ensures frameCount == old(frameCount) + 1
    {
      ghost var before := frames[..];
      var slot := 64 * frameCount;
      forall i | 0 <= i < |frame| {
        frames[slot + i] := frame[i];
      }
      lengths[frameCount] := |frame|;
      assert frames[slot..slot + |frame|] == frame;
      if frameCount == 1 {
        assert frames[0..lengths[0]] == before[0..lengths[0]];
      }
      frameCount := frameCount + 1;
    }

    method SendRepeated(packet: Bytes, rooms: seq<bool>) returns (ok: bool)
      requires Valid()
      modifies this`queued
      ensures Valid() && TxStep(View(), ok) == SendCopies(old(View()), packet, rooms)
    {
      var i := 0;
      while i < |rooms|
        invariant 0 <= i <= |rooms| && Valid()
        invariant SendCopies(View(), packet, rooms[i..]) == SendCopies(old(View()), packet, rooms)
      {
        assert rooms[i..][1..] == rooms[i + 1..];
        ok := SendData(packet, rooms[i]);
        if !ok {
          return false;
        }
        i := i + 1;
      }
      ok := true;
    }

    method BeginSession(ready: bool, publicSeed: uint32, roleOk: bool, rooms: seq<bool>) returns (ok: bool)
      requires Valid()
      modifies this
      ensures Valid() && TxStep(View(), ok) == BeginTx(old(View()), ready, publicSeed, roleOk, rooms)
    {
      if !ready || active {
        return false;
      }
      frameCount, sequence, queued := 0, 0, [];
      session := (session + 1) % 0x1_0000;
      if session == 0 {
        session := 1;
      }
      if !roleOk {
        return false;
      }
      var _ := SendRepeated(EncodeSeed(SeedAnnounce(session, publicSeed)), rooms);
      active := true;
      ok := true;
    }

    method EndSession(ready: bool, room: bool, rooms: seq<bool>, settled: bool) returns (ok: bool)
      requires Valid()
      modifies this, lengths
      ensures Valid() && TxStep(View(), ok) == EndTx(old(View()), ready, room, rooms, settled)
    {
      if !ready || !active {
        return true;
      }
      ok := Flush(0, room);
      var final := if sequence == 0 then 0xFFFF else sequence - 1;
      var ended := SendRepeated(EncodeEnd(TalkspurtEnd(session, final)), rooms);
      if !ended || !settled {
        ok := false;
      }
      active := false;
    }
  }
}
