/** The OTA client and its consumer as one object: each operation is proved to take the step OtaModel
    specifies, on top of the real cache and writer objects. */
module OtaClient {
  import opened CTypes
  import opened OtaWriter
  import opened OtaBatchCache
  import opened OtaModel
  import opened OtaSafety

  class OtaDevice {
    const cache: BatchCache
    const writer: FlashWriter
    const digest: Bytes -> Bytes
    var state: ClientState
    var session: uint32
    var imageSize: uint32
    var received: uint32
    var total: uint32
    var expected: uint32
    var sha: Bytes
    var lastTick: uint32
    var boot: Option<Bytes>
    var sent: seq<Response>   // every response handed to the radio so far

    ghost function Repr(): set<object> {
      {this, writer} + cache.Repr()
    }

    ghost predicate Valid()
      reads Repr()
    {
      cache.Valid() && OtaSafety.Sound(View(), digest)
    }

    ghost function View(): Client
      reads Repr()
    {
      Client(state, session, imageSize, received, total, expected, cache.View(), sha, lastTick, writer.View(), boot)
    }

    constructor (digest: Bytes -> Bytes)
      ensures Valid() && View() == INITIAL && sent == [] && this.digest == digest && fresh(Repr())
    {
      cache := new BatchCache();
      writer := new FlashWriter();
      this.digest := digest;
      state := Idle;
      session, imageSize, received, total, expected := 0, 0, 0, 0, 0;
      sha, lastTick, boot, sent := [], 0, None, [];
    }

    method Start(newSession: uint32, size: uint32, chunks: uint32, newSha: Bytes, tick: uint32, env: BeginEnv)
      returns (err: EspErr)
      requires Valid()
      modifies Repr()
      ensures cache.Valid() && sent == old(sent)
      ensures ClientStep(View(), err) == StartSession(old(View()), newSession, size, chunks, newSha, tick, env)
    {
      if size == 0 || chunks == 0 {
        return InvalidArg;
      }
      if chunks != TotalChunks(size) {
        return InvalidSize;
      }
      if state != Idle {
        return InvalidState;
      }
      err := writer.Open(size, env);
      if err != EspOk {
        state := Failed;
        return;
      }
      session, imageSize, received, total, expected := newSession, size, 0, chunks, 0;
      sha := newSha;
      cache.Prepare(expected, total);
      lastTick := tick;
      state := Receiving;
    }

    method Chunk(inSession: uint32, sequence: uint32, data: Bytes, env: ChunkEnv) returns (err: EspErr)
      requires Valid()
      modifies Repr()
      ensures cache.Valid() && sent == old(sent)
      ensures ClientStep(View(), err) == WriteChunk(old(View()), inSession, sequence, data, env)
    {
      if |data| == 0 || |data| > 48 {
        return InvalidArg;
      }
      if state != Receiving {
        return InvalidState;
      }
      if inSession != session {
        return InvalidArg;
      }
      if sequence >= total {
        return InvalidArg;
      }
      var offset := sequence * 48;
      var expectedSize := if sequence + 1 == total then imageSize - offset else 48;
      if |data| != expectedSize {
        return InvalidSize;
      }
      if sequence < expected {
        return EspOk;
      }
      err := Take(sequence, data, env);
    }

    /** write_chunk from the store on. */
    method Take(sequence: uint32, data: Bytes, env: ChunkEnv) returns (err: EspErr)
      requires Valid() && state == Receiving && expected <= sequence < total
      requires |data| == ChunkLength(imageSize, sequence)
      modifies Repr()
      ensures cache.Valid() && sent == old(sent)
      ensures ClientStep(View(), err) == TakeChunk(old(View()), sequence, data, env)
    {
      ghost var before := View();
      var status := cache.StoreChunk(sequence, data);
      if status.Refused? {
        return status.error;
      }
      if status == Duplicate {
        return EspOk;
      }
      lastTick := env.tick;
      TakeStaysInRange(before, sequence, data);
      err := CommitIfComplete(env);
    }

    /** The tail of write_chunk after a new chunk has been stored. */
    method CommitIfComplete(env: ChunkEnv) returns (err: EspErr)
      requires cache.Valid() && state == Receiving && cache.chunkCount != 0 && FlatSizes(cache.View())
      requires !HasGap(cache.View()) ==>
                 var b := cache.View();
                 received + |Joined(b.stored, b.base, b.base + b.count)| <= imageSize
      requires expected + cache.chunkCount <= total
      modifies Repr()
      ensures cache.Valid() && sent == old(sent)
      ensures ClientStep(View(), err) == if HasGap(old(View()).cache) then ClientStep(old(View()), EspOk)
                                         else CommitBatch(old(View()), env)
    {
      GapMeansIncomplete(cache.View());
      var complete := cache.IsComplete();
      if !complete {
        return EspOk;
      }
      err := CommitNow(env);
    }

    method CommitNow(env: ChunkEnv) returns (err: EspErr)
      requires cache.Valid() && state == Receiving && cache.View().Complete() && FlatSizes(cache.View())
      requires !HasGap(cache.View())
      requires received + |Joined(cache.stored, cache.baseSequence, cache.baseSequence + cache.chunkCount)| <= imageSize
      requires expected + cache.chunkCount <= total
      modifies Repr()
      ensures cache.Valid() && sent == old(sent)
      ensures ClientStep(View(), err) == CommitBatch(old(View()), env)
    {
      var written;
      err, written := cache.Commit(writer, env.write);
      if err != EspOk {
        FailWrite(env.abort);
        return;
      }
      received := received + written;
      expected := expected + cache.chunkCount;
      cache.Prepare(expected, total);
    }

    method FailWrite(env: EspErr)
      requires cache.Valid()
      modifies this`state, writer
      ensures cache.Valid()
      ensures View() == old(View()).(writer := OtaWriter.Abort(old(writer.View()), env).writer, state := Failed)
    {
      var _ := writer.Drop(env);
      state := Failed;
    }

    /** The 32-bit counters cannot wrap, and the batch stays flat. */
    lemma TakeStaysInRange(c: Client, sequence: uint32, data: Bytes)
      requires Sound(c, digest) && c.state == Receiving
      requires c.expected <= sequence < c.total && |data| == ChunkLength(c.imageSize, sequence)
      requires StoreStatusOf(c.cache, sequence, data) == Stored
      ensures var b := Store(c.cache, sequence, data);
              && FlatSizes(b) && b.count != 0 && c.expected + b.count <= c.total
              && (!HasGap(b) ==> c.received + |Joined(b.stored, b.base, b.base + b.count)| <= c.imageSize)
    {
      StoredFits(c, digest, sequence, data);
      var b := Store(c.cache, sequence, data);
      if !HasGap(b) {
        BatchLength(c, digest, b);
      }
    }

    lemma GapMeansIncomplete(b: Batch)
      requires b.count != 0
      ensures b.Complete() <==> !HasGap(b)
    {
      if !HasGap(b) {
        assert forall k | b.base <= k < b.base + b.count :: b.Wanted(k);
      } else {
        var k :| b.base <= k < b.base + b.count && k !in b.stored;
        assert b.Wanted(k);
      }
    }

    method Finish(inSession: uint32, size: uint32, chunks: uint32, env: FinishEnv) returns (err: EspErr)
      requires Valid()
      modifies Repr()
      ensures cache.Valid() && sent == old(sent)
      ensures ClientStep(View(), err) == FinishSession(old(View()), inSession, size, chunks, digest, env)
    {
      if state != Receiving {
        return InvalidState;
      }
      if inSession != session {
        return InvalidArg;
      }
      if size != imageSize || chunks != total {
        return InvalidSize;
      }
      if received != imageSize || expected != total {
        return InvalidSize;
      }
      state := Verifying;
      var image := writer.flash;
      var booted;
      err, booted := writer.Close(digest, sha, env);
      if booted {
        boot := Some(image);
      }
      if err != EspOk {
        state := Failed;
        return;
      }
      state := ReadyToReboot;
    }

    method Abort(env: EspErr) returns (err: EspErr)
      requires Valid()
      modifies Repr()
      ensures Valid() && sent == old(sent)
      ensures ClientStep(View(), err) == AbortSession(old(View()), env)
    {
      ReactSound(View(), digest, AbortCall(env));
      if state != Receiving && state != Failed {
        return InvalidState;
      }
      err := EspOk;
      if writer.active {
        err := writer.Drop(env);
      }
      ResetSession();
    }

    method ResetSession()
      requires cache.Valid()
      modifies Repr()
      ensures cache.Valid() && sent == old(sent)
      ensures View() == INITIAL.(writer := CLOSED.(flash := old(writer.flash)), boot := old(boot))
    {
      writer.Reset();
      session, imageSize, received, total, expected := 0, 0, 0, 0, 0;
      cache.Prepare(0, 0);
      sha, lastTick := [], 0;
      state := Idle;
    }

    method Respond(response: Response)
      modifies this`sent
      ensures sent == old(sent) + [response]
    {
      sent := sent + [response];
    }

    method OnStart(e: Event)
      requires Valid() && e.StartPacket?
      modifies Repr()
      ensures Valid()
      ensures var r := HandleStart(old(View()), e); View() == r.client && sent == old(sent) + r.responses
    {
      ReactSound(View(), digest, e);
      if !e.forUs {
        return;
      }
      if state == Receiving && e.session == session && e.imageSize == imageSize && e.total == total {
        Respond(Ack(e.session, StartKind, None));
        return;
      }
      if !e.otaMode {
        Respond(Nack(e.session, StartKind, None, ResultBusy));
        return;
      }
      var err := Start(e.session, e.imageSize, e.total, e.sha, e.tick, e.begin);
      if err != EspOk {
        Respond(Nack(e.session, StartKind, None, StartRefusal(err)));
        return;
      }
      Respond(Ack(e.session, StartKind, None));
    }

    method OnData(e: Event)
      requires Valid() && e.DataPacket?
      modifies Repr()
      ensures Valid()
      ensures var r := HandleData(old(View()), e); View() == r.client && sent == old(sent) + r.responses
    {
      ReactSound(View(), digest, e);
      if |e.payload| == 0 {
        Respond(Nack(e.session, DataKind, Some(e.sequence), ResultInvalidSize));
        return;
      }
      if state != Receiving {
        Respond(Nack(e.session, DataKind, Some(e.sequence), ResultBusy));
        return;
      }
      if e.session != session {
        Respond(Nack(e.session, DataKind, Some(e.sequence), ResultInvalidSession));
        return;
      }
      var err := Chunk(e.session, e.sequence, e.payload, e.chunk);
      if err != EspOk {
        Respond(Nack(e.session, DataKind, Some(e.sequence), DataRefusal(err)));
        return;
      }
      Respond(Ack(e.session, DataKind, Some(e.sequence)));
    }

    method OnEnd(e: Event)
      requires Valid() && e.EndPacket?
      modifies Repr()
      ensures Valid()
      ensures var r := HandleEnd(old(View()), digest, e); View() == r.client && sent == old(sent) + r.responses
    {
      ReactSound(View(), digest, e);
      if state == ReadyToReboot && e.session == session && e.imageSize == imageSize && e.total == total {
        Respond(Ack(e.session, EndKind, None));
        return;
      }
      if state != Receiving {
        Respond(Nack(e.session, EndKind, None, ResultBusy));
        return;
      }
      if e.session != session {
        Respond(Nack(e.session, EndKind, None, ResultInvalidSession));
        return;
      }
      var err := Finish(e.session, e.imageSize, e.total, e.finish);
      if err != EspOk {
        Respond(Nack(e.session, EndKind, None, if err == InvalidSize then ResultInvalidSize else ResultVerifyFailed));
        return;
      }
      Respond(Ack(e.session, EndKind, None));
    }

    /** The NACK loop over the missing mask. */
    method OnQueueEmpty(now: uint32, timeout: uint32)
      requires Valid()
      modifies this
      ensures Valid()
      ensures var r := HandleReceiveTimeout(old(View()), now, timeout);
              View() == r.client && sent == old(sent) + r.responses
    {
      ReactSound(View(), digest, QueueEmpty(now, timeout));
      if state != Receiving {
        return;
      }
      if (now - lastTick) % 0x1_0000_0000 < timeout {
        return;
      }
      SendMissing();
      lastTick := now;
    }

    method SendMissing()
      requires cache.Valid()
      modifies this`sent
      ensures sent == old(sent) + TimeoutNacks(session, MissingFrom(cache.View(), cache.View().base))
    {
      var missing := cache.MissingMask();
      ghost var b := cache.View();
      var offset := 0;
      while offset < cache.chunkCount
        invariant offset <= cache.chunkCount
        invariant sent + TimeoutNacks(session, MissingFrom(b, b.base + offset))
                  == old(sent) + TimeoutNacks(session, MissingFrom(b, b.base))
      {
        NackOne(session, b, b.base + offset, sent);
        if HasBit(missing, offset) {
          Respond(Nack(session, DataKind, Some(cache.baseSequence + offset), ResultTimeout));
        }
        offset := offset + 1;
      }
    }

    /** Chunk lo is NACKed next if it is missing, and skipped otherwise. */
    lemma NackOne(session: uint32, b: Batch, lo: nat, before: seq<Response>)
      requires lo < b.base + b.count
      ensures before + TimeoutNacks(session, MissingFrom(b, lo)) ==
              (if lo in b.stored then before else before + [Nack(session, DataKind, Some(lo), ResultTimeout)]) +
              TimeoutNacks(session, MissingFrom(b, lo + 1))
    {}
  }
}
