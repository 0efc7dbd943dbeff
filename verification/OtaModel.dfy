/** Value-level specification of the OTA session (ota_client) and of the packet handlers and receive
    timeout around it (ota_consumer). */
module OtaModel {
  import opened CTypes
  import opened OtaWriter
  import opened OtaBatchCache

  datatype ClientState = Idle | Receiving | Verifying | ReadyToReboot | Failed

  /** `boot` is the image the boot selector was last pointed at, if any. */
  datatype Client = Client(
    state: ClientState,
    session: uint32,
    imageSize: uint32,
    received: nat,
    total: nat,
    expected: nat,
    cache: Batch,
    sha: Bytes,
    lastTick: uint32,
    writer: Writer,
    boot: Option<Bytes>)

  const EMPTY_BATCH := Batch(0, 0, map[])

  /** The client after ota_client_init. */
  const INITIAL := Client(Idle, 0, 0, 0, 0, 0, EMPTY_BATCH, [], 0, CLOSED, None)

  function TotalChunks(imageSize: nat): nat {
    imageSize / 48 + if imageSize % 48 != 0 then 1 else 0
  }

  /** The only payload length accepted for a chunk of the image. */
  function ChunkLength(imageSize: nat, sequence: nat): nat
    requires sequence < TotalChunks(imageSize)
  {
    if sequence + 1 == TotalChunks(imageSize) then imageSize - sequence * 48 else 48
  }

  // ---------------------------------------------------------------- session operations

  datatype ClientStep = ClientStep(client: Client, err: EspErr)

  function StartSession(c: Client, session: uint32, imageSize: uint32, total: uint32, sha: Bytes,
                        tick: uint32, env: BeginEnv): ClientStep {
    if imageSize == 0 || total == 0 then ClientStep(c, InvalidArg)
    else if total != TotalChunks(imageSize) then ClientStep(c, InvalidSize)
    else if c.state != Idle then ClientStep(c, InvalidState)
    else
      var begun := Begin(c.writer, imageSize, env);
      if begun.err != EspOk then ClientStep(c.(writer := begun.writer, state := Failed), begun.err)
      else
        ClientStep(c.(state := Receiving, session := session, imageSize := imageSize, received := 0,
                      total := total, expected := 0, cache := Prepared(0, total), sha := sha,
                      lastTick := tick, writer := begun.writer), EspOk)
  }

  /** What the platform answers while one chunk is written: the clock, the flash, and the abort that
      follows a failed write. */
  datatype ChunkEnv = ChunkEnv(tick: uint32, write: WriteEnv, abort: EspErr)

  function WriteChunk(c: Client, session: uint32, sequence: uint32, data: Bytes, env: ChunkEnv): ClientStep {
    if |data| == 0 || |data| > 48 then ClientStep(c, InvalidArg)
    else if c.state != Receiving then ClientStep(c, InvalidState)
    else if session != c.session || sequence >= c.total then ClientStep(c, InvalidArg)
    else if |data| != (if sequence + 1 == c.total then c.imageSize - sequence * 48 else 48) then
      ClientStep(c, InvalidSize)
    else if sequence < c.expected then ClientStep(c, EspOk)   // an older batch, already in flash
    else TakeChunk(c, sequence, data, env)
  }

  /** Store a chunk of the current batch, and commit the batch if it is complete. */
  function TakeChunk(c: Client, sequence: uint32, data: Bytes, env: ChunkEnv): ClientStep {
    match StoreStatusOf(c.cache, sequence, data)
    case Refused(error) => ClientStep(c, error)
    case Duplicate => ClientStep(c, EspOk)
    case Stored =>
      var stored := c.(cache := Store(c.cache, sequence, data), lastTick := env.tick);
      if HasGap(stored.cache) then ClientStep(stored, EspOk) else CommitBatch(stored, env)
  }

  predicate HasGap(b: Batch) {
    exists k | b.base <= k < b.base + b.count :: k !in b.stored
  }

  function CommitBatch(c: Client, env: ChunkEnv): ClientStep
    requires !HasGap(c.cache)
  {
    var flat := Joined(c.cache.stored, c.cache.base, c.cache.base + c.cache.count);
    var written := if FlatSizes(c.cache) then Write(c.writer, flat, env.write) else WriterStep(c.writer, InvalidSize);
    if written.err != EspOk then
      ClientStep(c.(writer := Abort(written.writer, env.abort).writer, state := Failed), written.err)
    else
      var expected := c.expected + c.cache.count;
      ClientStep(c.(writer := written.writer, received := c.received + |flat|, expected := expected,
                    cache := Prepared(expected, c.total)), EspOk)
  }

  function FinishSession(c: Client, session: uint32, imageSize: uint32, total: uint32,
                         digest: Bytes -> Bytes, env: FinishEnv): ClientStep {
    if c.state != Receiving then ClientStep(c, InvalidState)
    else if session != c.session then ClientStep(c, InvalidArg)
    else if imageSize != c.imageSize || total != c.total then ClientStep(c, InvalidSize)
    else if c.received != c.imageSize || c.expected != c.total then ClientStep(c, InvalidSize)
    else
      var finished := Finish(c.writer, digest, c.sha, env);
      if finished.err != EspOk then ClientStep(c.(writer := finished.writer, state := Failed), finished.err)
      else
        ClientStep(c.(writer := finished.writer, state := ReadyToReboot,
                      boot := if finished.booted then Some(c.writer.flash) else c.boot), EspOk)
  }

  function AbortSession(c: Client, env: EspErr): ClientStep {
    if c.state != Receiving && c.state != Failed then ClientStep(c, InvalidState)
    else
      ClientStep(INITIAL.(writer := CLOSED.(flash := c.writer.flash), boot := c.boot),
                 if c.writer.active then env else EspOk)
  }

  // ---------------------------------------------------------------- packet handlers

  datatype PacketKind = StartKind | DataKind | EndKind
  datatype OtaResult =
    ResultOk | ResultBusy | ResultInvalidSize | ResultInvalidSession | ResultInvalidSequence |
    ResultWriteFailed | ResultVerifyFailed | ResultTimeout

  /** One ACK or NACK; control packets answer with None for the sequence. */
  datatype Response = Response(ack: bool, session: uint32, kind: PacketKind, sequence: Option<nat>, result: OtaResult)

  function Ack(session: uint32, kind: PacketKind, sequence: Option<nat>): Response {
    Response(true, session, kind, sequence, ResultOk)
  }

  function Nack(session: uint32, kind: PacketKind, sequence: Option<nat>, result: OtaResult): Response {
    Response(false, session, kind, sequence, result)
  }

  /** Decoded packets and the other things that happen to the consumer task, each with what the
      platform answers meanwhile. */
  datatype Event =
    | StartPacket(forUs: bool, otaMode: bool, session: uint32, imageSize: uint32, total: uint32, sha: Bytes,
                  tick: uint32, begin: BeginEnv)
    | DataPacket(session: uint32, sequence: uint32, payload: Bytes, chunk: ChunkEnv)
    | EndPacket(session: uint32, imageSize: uint32, total: uint32, finish: FinishEnv)
    | QueueEmpty(now: uint32, timeout: uint32)
    | AbortCall(abort: EspErr)

  datatype Reaction = Reaction(client: Client, responses: seq<Response>)

  function HandleStart(c: Client, e: Event): Reaction
    requires e.StartPacket?
  {
    if !e.forUs then Reaction(c, [])
    else if c.state == Receiving && e.session == c.session && e.imageSize == c.imageSize && e.total == c.total then
      Reaction(c, [Ack(e.session, StartKind, None)])
    else if !e.otaMode then Reaction(c, [Nack(e.session, StartKind, None, ResultBusy)])
    else
      var step := StartSession(c, e.session, e.imageSize, e.total, e.sha, e.tick, e.begin);
      Reaction(step.client,
        [if step.err == EspOk then Ack(e.session, StartKind, None)
         else Nack(e.session, StartKind, None, StartRefusal(step.err))])
  }

  function StartRefusal(err: EspErr): OtaResult {
    if err == InvalidSize then ResultInvalidSize else if err == InvalidState then ResultBusy else ResultWriteFailed
  }

  function HandleData(c: Client, e: Event): Reaction
    requires e.DataPacket?
  {
    var at := Some(e.sequence);
    if |e.payload| == 0 then Reaction(c, [Nack(e.session, DataKind, at, ResultInvalidSize)])
    else if c.state != Receiving then Reaction(c, [Nack(e.session, DataKind, at, ResultBusy)])
    else if e.session != c.session then Reaction(c, [Nack(e.session, DataKind, at, ResultInvalidSession)])
    else
      var step := WriteChunk(c, e.session, e.sequence, e.payload, e.chunk);
      Reaction(step.client,
        [if step.err == EspOk then Ack(e.session, DataKind, at)
         else Nack(e.session, DataKind, at, DataRefusal(step.err))])
  }

  function DataRefusal(err: EspErr): OtaResult {
    if err == InvalidState then ResultBusy
    else if err == InvalidSize then ResultInvalidSize
    else if err == InvalidArg then ResultInvalidSequence
    else ResultWriteFailed
  }

  function HandleEnd(c: Client, digest: Bytes -> Bytes, e: Event): Reaction
    requires e.EndPacket?
  {
    if c.state == ReadyToReboot && e.session == c.session && e.imageSize == c.imageSize && e.total == c.total then
      Reaction(c, [Ack(e.session, EndKind, None)])
    else if c.state != Receiving then Reaction(c, [Nack(e.session, EndKind, None, ResultBusy)])
    else if e.session != c.session then Reaction(c, [Nack(e.session, EndKind, None, ResultInvalidSession)])
    else
      var step := FinishSession(c, e.session, e.imageSize, e.total, digest, e.finish);
      Reaction(step.client,
        [if step.err == EspOk then Ack(e.session, EndKind, None)
         else Nack(e.session, EndKind, None,
                   if step.err == InvalidSize then ResultInvalidSize else ResultVerifyFailed)])
  }

  /** The batch's chunk numbers lo, lo + 1, ... not yet stored, in ascending order. */
  function MissingFrom(b: Batch, lo: nat): seq<nat>
    decreases b.base + b.count - lo
  {
    if lo >= b.base + b.count then []
    else (if lo in b.stored then [] else [lo]) + MissingFrom(b, lo + 1)
  }

  function TimeoutNacks(session: uint32, missing: seq<nat>): (nacks: seq<Response>)
    ensures |nacks| == |missing|
    ensures forall k | 0 <= k < |nacks| :: nacks[k] == Nack(session, DataKind, Some(missing[k]), ResultTimeout)
  {
    seq(|missing|, k requires 0 <= k < |missing| => Nack(session, DataKind, Some(missing[k]), ResultTimeout))
  }

  /** Ticks are an unsigned 32-bit counter, and so is their difference. */
  function TimedOut(c: Client, now: uint32, timeout: uint32): bool {
    c.state == Receiving && (now - c.lastTick) % 0x1_0000_0000 >= timeout
  }

  function HandleReceiveTimeout(c: Client, now: uint32, timeout: uint32): Reaction {
    if !TimedOut(c, now, timeout) then Reaction(c, [])
    else Reaction(c.(lastTick := now), TimeoutNacks(c.session, MissingFrom(c.cache, c.cache.base)))
  }

  function React(c: Client, digest: Bytes -> Bytes, e: Event): Reaction {
    match e
    case StartPacket(_, _, _, _, _, _, _, _) => HandleStart(c, e)
    case DataPacket(_, _, _, _) => HandleData(c, e)
    case EndPacket(_, _, _, _) => HandleEnd(c, digest, e)
    case QueueEmpty(now, timeout) => HandleReceiveTimeout(c, now, timeout)
    case AbortCall(abort) => Reaction(AbortSession(c, abort).client, [])
  }
}
