/** The complete outcome of the OTA events that OtaSafety leaves open: when a session opens and ends, what
    every refusal says, and when a receive timeout fires. */
module OtaOutcomes {
  import opened CTypes
  import opened OtaWriter
  import opened OtaBatchCache
  import opened OtaModel
  import opened OtaSafety

  // ---------------------------------------------------------------- START

  /** The packet repeats the START of the session that is open. */
  predicate Repeats(c: Client, e: Event) {
    e.StartPacket? && c.state == Receiving &&
    e.session == c.session && e.imageSize == c.imageSize && e.total == c.total
  }

  predicate SizesAgree(e: Event) {
    e.StartPacket? && 0 < e.imageSize && e.total == TotalChunks(e.imageSize)
  }

  /** The update partition exists and is large enough, and digest and flash can be set up. */
  predicate PlatformTakes(e: Event) {
    && e.StartPacket? && e.begin.partitionSize.Some? && e.imageSize <= e.begin.partitionSize.value
    && e.begin.hashSetupOk && e.begin.begin == EspOk
  }

  /** START, in full. One for another device is not answered and changes nothing. A repetition of the open
      session's START is acknowledged and changes nothing. Any other opens a session, empty from chunk
      0 and timed from now, exactly for a device in OTA mode that is idle, with agreeing sizes, on a
      platform that takes it; a platform that does not fails the session; and everything else is
      refused without a change. */
  lemma StartOutcome(c: Client, digest: Bytes -> Bytes, e: Event)
    requires Sound(c, digest) && e.StartPacket?
    ensures var r := React(c, digest, e);
            var opens := e.forUs && e.otaMode && c.state == Idle && SizesAgree(e) && PlatformTakes(e);
            var fails := e.forUs && e.otaMode && c.state == Idle && SizesAgree(e) && !PlatformTakes(e);
            && (r.responses == [] <==> !e.forUs)
            && (r.responses == [Ack(e.session, StartKind, None)] <==> e.forUs && (opens || Repeats(c, e)))
            && (opens ==> Opened(r.client, e))
            && (fails ==> r.client.state == Failed && !r.responses[0].ack)
            && (!opens && !fails ==> r.client == c)
            && (e.forUs && !e.otaMode && !Repeats(c, e) ==>
                  r.responses == [Nack(e.session, StartKind, None, ResultBusy)])
            && (e.forUs && e.otaMode && c.state != Idle && SizesAgree(e) && !Repeats(c, e) ==>
                  r.responses == [Nack(e.session, StartKind, None, ResultBusy)])
  {
    if SizesAgree(e) {
      TotalCovers(e.imageSize);
    }
  }

  /** A session as START opens it: nothing received, nothing in flash, the whole first batch missing. */
  predicate Opened(c: Client, e: Event)
    requires e.StartPacket?
  {
    && c.state == Receiving && c.session == e.session && c.imageSize == e.imageSize && c.total == e.total
    && c.sha == e.sha && c.lastTick == e.tick && c.received == 0 && c.expected == 0
    && c.cache.stored == map[] && c.writer.flash == [] && c.writer.written == 0
  }

  // ---------------------------------------------------------------- DATA refusals

  /** What the answer to DATA says. A fresh chunk is acknowledged unless flash or digest fails. Of the others,
      with the session open, a wrong length is a size error, and a number outside the image or beyond
      the batch, or an oversized payload, a sequence error. */
  lemma DataAnswers(c: Client, digest: Bytes -> Bytes, e: Event)
    requires Sound(c, digest) && e.DataPacket?
    ensures var answer := HandleData(c, e).responses[0];
            && answer == Response(answer.ack, e.session, DataKind, Some(e.sequence), answer.result)
            && (answer.ack <==> answer.result == ResultOk)
            && (|e.payload| == 0 ==> answer.result == ResultInvalidSize)
            && (0 < |e.payload| && c.state != Receiving ==> answer.result == ResultBusy)
            && (0 < |e.payload| && c.state == Receiving && e.session != c.session ==>
                  answer.result == ResultInvalidSession)
            && (0 < |e.payload| && c.state == Receiving && e.session == c.session ==>
                  RefusedForCause(c, e, answer.result))
  {
    DataPacketOutcome(c, digest, e);
    if c.state == Receiving && e.sequence < c.total {
      ChunkArithmetic(c.imageSize, e.sequence);
    }
  }

  /** The causes of sequence and size errors in an open session. */
  predicate RefusedForCause(c: Client, e: Event, result: OtaResult)
    requires e.DataPacket? && c.total == TotalChunks(c.imageSize)
  {
    !Fresh(c, e) ==>
      && (result == ResultInvalidSequence <==>
            || |e.payload| > 48 || e.sequence >= c.total
            || (|e.payload| == ChunkLength(c.imageSize, e.sequence) && c.expected + 5 <= e.sequence))
      && (result == ResultInvalidSize <==>
            |e.payload| <= 48 && e.sequence < c.total && |e.payload| != ChunkLength(c.imageSize, e.sequence))
  }

  // ---------------------------------------------------------------- END

  /** The END belongs to the open session and every chunk is committed. */
  predicate EndFits(c: Client, e: Event) {
    e.EndPacket? && c.state == Receiving && e.session == c.session && e.imageSize == c.imageSize &&
    e.total == c.total && c.expected == c.total
  }

  /** The END repeats the one that finished the session. */
  predicate EndRepeats(c: Client, e: Event) {
    e.EndPacket? && c.state == ReadyToReboot && e.session == c.session && e.imageSize == c.imageSize &&
    e.total == c.total
  }

  /** END, in full. One that fits decides the session for good: it is acknowledged and the image selected
      exactly if image, digest and platform agree, and otherwise the session has failed without a
      selection. One that does not fit, an early END in particular, leaves the session as it was. */
  lemma EndOutcome(c: Client, digest: Bytes -> Bytes, e: Event)
    requires Sound(c, digest) && e.EndPacket?
    ensures var r := React(c, digest, e);
            var good := digest(c.writer.flash) == c.sha && e.finish == FinishEnv(EspOk, true, EspOk);
            && |r.responses| == 1
            && (r.responses[0] == Ack(e.session, EndKind, None) <==> EndRepeats(c, e) || (EndFits(c, e) && good))
            && (EndFits(c, e) && good ==> r.client.state == ReadyToReboot && r.client.boot == Some(c.writer.flash))
            && (EndFits(c, e) && !good ==> r.client.state == Failed && r.client.boot == None && !r.responses[0].ack)
            && (!EndFits(c, e) ==> r.client == c)
            && (!EndFits(c, e) && !EndRepeats(c, e) ==>
                  r.responses == [Nack(e.session, EndKind, None,
                    if c.state != Receiving then ResultBusy
                    else if e.session != c.session then ResultInvalidSession
                    else ResultInvalidSize)])
  {
    FinishSound(c, digest, e.session, e.imageSize, e.total, e.finish);
    TotalCovers(c.imageSize);
  }

  // ---------------------------------------------------------------- abort

  /** An abort takes a receiving or failed session back to idle, keeping nothing but the partition's contents,
      so that any START the idle device would accept opens a session again; elsewhere it does
      nothing. */
  lemma AbortOutcome(c: Client, digest: Bytes -> Bytes, abort: EspErr, e: Event)
    requires Sound(c, digest) && e.StartPacket?
    ensures var c' := React(c, digest, AbortCall(abort)).client;
            && (c.state == Receiving || c.state == Failed ==>
                  && c' == INITIAL.(writer := CLOSED.(flash := c.writer.flash))
                  && Sound(c', digest)
                  && (e.forUs && e.otaMode && SizesAgree(e) && PlatformTakes(e) ==>
                        Opened(React(c', digest, e).client, e)))
            && (c.state != Receiving && c.state != Failed ==> c' == c)
  {
    ReactSound(c, digest, AbortCall(abort));
    StartOutcome(React(c, digest, AbortCall(abort)).client, digest, e);
  }

  // ---------------------------------------------------------------- when a timeout fires

  /** The session with a record, kept from outside, of the last instant that counts as a sign of life: the
      opening START, a fresh DATA packet, or a timeout that fired. */
  datatype Timeline = Timeline(client: Client, alive: uint32)

  function NextInstant(t: Timeline, digest: Bytes -> Bytes, e: Event): uint32 {
    match e
    case StartPacket(_, _, _, _, _, _, tick, _) =>
      if t.client.state == Idle && React(t.client, digest, e).client.state == Receiving then tick else t.alive
    case DataPacket(_, _, _, chunk) => if Fresh(t.client, e) then chunk.tick else t.alive
    case QueueEmpty(now, timeout) =>
      if t.client.state == Receiving && Elapsed(t.alive, now) >= timeout then now else t.alive
    case EndPacket(_, _, _, _) => t.alive
    case AbortCall(_) => t.alive
  }

  /** Ticks from one instant to a later one, on a counter that wraps at 2^32. */
  function Elapsed(since: uint32, now: uint32): nat {
    if now >= since then now - since else now - since + 0x1_0000_0000
  }

  function Progressed(t: Timeline, digest: Bytes -> Bytes, events: seq<Event>): Timeline
    decreases |events|
  {
    if events == [] then t
    else
      var t' := Timeline(React(t.client, digest, events[0]).client, NextInstant(t, digest, events[0]));
      Progressed(t', digest, events[1..])
  }

  predicate Timed(t: Timeline) {
    t.client.state == Receiving ==> t.client.lastTick == t.alive
  }

  lemma ElapsedIsDifference(since: uint32, now: uint32)
    ensures (now - since) % 0x1_0000_0000 == Elapsed(since, now)
  {}

  lemma EventKeepsTime(t: Timeline, digest: Bytes -> Bytes, e: Event)
    requires Sound(t.client, digest) && Timed(t)
    ensures Timed(Timeline(React(t.client, digest, e).client, NextInstant(t, digest, e)))
  {
    match e
    case StartPacket(_, _, _, _, _, _, _, _) => StartOutcome(t.client, digest, e);
    case DataPacket(_, _, _, _) => DataPacketOutcome(t.client, digest, e);
    case EndPacket(_, _, _, _) => EndOutcome(t.client, digest, e);
    case QueueEmpty(now, _) => ElapsedIsDifference(t.client.lastTick, now);
    case AbortCall(_) =>
  }

  lemma {:induction false} RunKeepsTime(t: Timeline, digest: Bytes -> Bytes, events: seq<Event>)
    requires Sound(t.client, digest) && Timed(t)
    ensures Sound(Progressed(t, digest, events).client, digest) && Timed(Progressed(t, digest, events))
    decreases |events|
  {
    if events != [] {
      EventKeepsTime(t, digest, events[0]);
      ReactSound(t.client, digest, events[0]);
      var t' := Timeline(React(t.client, digest, events[0]).client, NextInstant(t, digest, events[0]));
      RunKeepsTime(t', digest, events[1..]);
    }
  }

  /** When a timeout fires. In every run, an empty queue makes a receiving device send NACKs exactly when a
      chunk is missing and at least `timeout` ticks have passed since the opening START, the last fresh
      DATA packet or the last timeout that fired, whichever came last. Repeated, late and refused
      packets do not put it off. */
  lemma TimeoutFiresExactly(digest: Bytes -> Bytes, events: seq<Event>, now: uint32, timeout: uint32)
    ensures var t := Progressed(Timeline(INITIAL, 0), digest, events);
            var c := t.client;
            React(c, digest, QueueEmpty(now, timeout)).responses != [] <==>
              c.state == Receiving && c.expected < c.total && Elapsed(t.alive, now) >= timeout
  {
    RunKeepsTime(Timeline(INITIAL, 0), digest, events);
    var t := Progressed(Timeline(INITIAL, 0), digest, events);
    ElapsedIsDifference(t.client.lastTick, now);
    if TimedOut(t.client, now, timeout) {
      TimeoutNacksAreExact(t.client, digest, now, timeout);
    }
  }
}
