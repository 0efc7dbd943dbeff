/** What every run of OTA packets, timeouts and aborts keeps: reassembly, progress, boot safety. */
module OtaSafety {
  import opened CTypes
  import opened OtaWriter
  import opened OtaBatchCache
  import opened OtaModel

  // ---------------------------------------------------------------- the session invariant

  /** The batch being collected fits the session: it starts at the next uncommitted chunk, holds
      only chunks of the right length, and still has a gap (or is the empty batch at the end). */
  ghost predicate BatchFits(b: Batch, imageSize: nat, total: nat, expected: nat) {
    && b.base == expected <= total == TotalChunks(imageSize)
    && (expected % 5 == 0 || expected == total)
    && b.count == BatchCount(expected, total)
    && (forall k | k in b.stored :: b.Wanted(k) && |b.stored[k]| == ChunkLength(imageSize, k))
    && (b.count != 0 ==> HasGap(b))
  }

  ghost predicate Sound(c: Client, digest: Bytes -> Bytes) {
    match c.state
    case Receiving =>
      && 0 < c.imageSize && c.total == TotalChunks(c.imageSize)
      && BatchFits(c.cache, c.imageSize, c.total, c.expected)
      && c.received == Min(48 * c.expected, c.imageSize)
      && c.writer.active && c.writer.hashActive && c.writer.hasPartition
      && c.writer.imageSize == c.imageSize
      && c.writer.written == |c.writer.flash| == c.received
      && c.writer.hashed == c.writer.flash
      && c.boot == None
    case ReadyToReboot =>
      && c.total == TotalChunks(c.imageSize)
      && c.boot.Some? && |c.boot.value| == c.imageSize && digest(c.boot.value) == c.sha
      && c.writer.flash == c.boot.value && !c.writer.active
    case Idle => !c.writer.active && c.boot == None
    case Failed => !c.writer.active && c.boot == None
    case Verifying => false
  }

  lemma ChunkArithmetic(size: nat, k: nat)
    requires k < TotalChunks(size)
    ensures 48 * k < size && 0 < ChunkLength(size, k) <= 48
    ensures Min(48 * k, size) + ChunkLength(size, k) == Min(48 * (k + 1), size)
    ensures k + 1 == TotalChunks(size) <==> 48 * (k + 1) >= size
  {}

  /** Lengths of consecutive chunks add up. */
  lemma {:induction false} JoinedLength(m: map<nat, Bytes>, size: nat, lo: nat, hi: nat)
    requires lo <= hi <= TotalChunks(size)
    requires forall k | lo <= k < hi :: k in m && |m[k]| == ChunkLength(size, k)
    ensures |Joined(m, lo, hi)| == Min(48 * hi, size) - Min(48 * lo, size)
    decreases hi
  {
    if lo < hi {
      ChunkArithmetic(size, hi - 1);
      JoinedLength(m, size, lo, hi - 1);
    }
  }

  lemma TotalCovers(size: nat)
    ensures 48 * TotalChunks(size) >= size
    ensures size > 0 ==> 0 < TotalChunks(size) && 48 * (TotalChunks(size) - 1) < size
  {}

  /** What accepting a new chunk does, before any commit. */
  lemma StoredFits(c: Client, digest: Bytes -> Bytes, sequence: uint32, data: Bytes)
    requires Sound(c, digest) && c.state == Receiving
    requires c.expected <= sequence < c.total && |data| == ChunkLength(c.imageSize, sequence)
    requires StoreStatusOf(c.cache, sequence, data) == Stored
    ensures FlatSizes(Store(c.cache, sequence, data))
    ensures forall k | k in Store(c.cache, sequence, data).stored ::
              c.cache.Wanted(k) && |Store(c.cache, sequence, data).stored[k]| == ChunkLength(c.imageSize, k)
  {
    var b := Store(c.cache, sequence, data);
    forall k | k in b.stored
      ensures c.cache.Wanted(k) && |b.stored[k]| == ChunkLength(c.imageSize, k)
      ensures 0 < |b.stored[k]| <= 48 && (k + 1 < b.base + b.count ==> |b.stored[k]| == 48)
    {
      if k != sequence {
        assert k in c.cache.stored;
      }
      ChunkArithmetic(c.imageSize, k);
    }
  }

  /** Committing a complete batch: the size checks of cache and writer cannot fire, one contiguous write
      appends the chunks in order, and the counters move by exactly that. */
  lemma CommitRefines(c: Client, digest: Bytes -> Bytes, b: Batch, tick: uint32, env: ChunkEnv)
    requires Sound(c, digest) && c.state == Receiving
    requires b.base == c.expected && b.count == c.cache.count && b.count != 0 && !HasGap(b) && FlatSizes(b)
    requires forall k | k in b.stored :: b.Wanted(k) && |b.stored[k]| == ChunkLength(c.imageSize, k)
    ensures var step := CommitBatch(c.(cache := b, lastTick := tick), env);
            && (step.err == EspOk <==> env.write.write == EspOk && env.write.hashUpdateOk)
            && (step.err != EspOk ==>
                  step.client.state == Failed && !step.client.writer.active && step.client.boot == None)
            && (step.err == EspOk ==> step.client == Appended(c, b, tick))
    ensures Sound(Appended(c, b, tick), digest)
  {
    BatchLength(c, digest, b);
    AppendedSound(c, digest, b, tick);
  }

  /** The session after the complete batch b went to flash. */
  function Appended(c: Client, b: Batch, tick: uint32): Client
    requires !HasGap(b)
  {
    var flat := Joined(b.stored, b.base, b.base + b.count);
    c.(cache := Prepared(c.expected + b.count, c.total), lastTick := tick,
       expected := c.expected + b.count, received := c.received + |flat|,
       writer := c.writer.(flash := c.writer.flash + flat, hashed := c.writer.hashed + flat,
                           written := c.writer.written + |flat|))
  }

  lemma BatchLength(c: Client, digest: Bytes -> Bytes, b: Batch)
    requires Sound(c, digest) && c.state == Receiving
    requires b.base == c.expected && b.count == c.cache.count && b.count != 0 && !HasGap(b)
    requires forall k | k in b.stored :: b.Wanted(k) && |b.stored[k]| == ChunkLength(c.imageSize, k)
    ensures var length := |Joined(b.stored, b.base, b.base + b.count)|;
            0 < length && c.received + length == Min(48 * (b.base + b.count), c.imageSize)
  {
    forall k | b.base <= k < b.base + b.count
      ensures k in b.stored && |b.stored[k]| == ChunkLength(c.imageSize, k)
    {}
    JoinedLength(b.stored, c.imageSize, b.base, b.base + b.count);
    ChunkArithmetic(c.imageSize, b.base);
  }

  lemma AppendedSound(c: Client, digest: Bytes -> Bytes, b: Batch, tick: uint32)
    requires Sound(c, digest) && c.state == Receiving
    requires b.base == c.expected && b.count == c.cache.count && b.count != 0 && !HasGap(b)
    requires c.received + |Joined(b.stored, b.base, b.base + b.count)| == Min(48 * (b.base + b.count), c.imageSize)
    ensures Sound(Appended(c, b, tick), digest)
  {
    var hi := b.base + b.count;
    if hi < c.total {
      assert hi !in Prepared(hi, c.total).stored;
    }
  }

  /** Whether the device has chunk k, in flash or in its batch. */
  predicate Has(c: Client, k: nat) {
    k < c.expected || k in c.cache.stored
  }

  /** A DATA packet that belongs to the session and has its chunk's exact length. */
  predicate WellFormedData(c: Client, e: Event) {
    && e.DataPacket? && c.state == Receiving && e.session == c.session
    && e.sequence < c.total == TotalChunks(c.imageSize)
    && |e.payload| == ChunkLength(c.imageSize, e.sequence)
  }

  /** ... and brings a chunk of the current batch that the device does not have. */
  predicate Fresh(c: Client, e: Event) {
    WellFormedData(c, e) && e.sequence < c.expected + 5 && !Has(c, e.sequence)
  }

  lemma StaleData(c: Client, digest: Bytes -> Bytes, e: Event)
    requires Sound(c, digest) && e.DataPacket? && !Fresh(c, e)
    ensures var r := HandleData(c, e);
            r.client == c && |r.responses| == 1 &&
            (r.responses[0].ack <==> WellFormedData(c, e) && Has(c, e.sequence))
  {
    if c.state == Receiving && e.sequence < c.total {
      ChunkArithmetic(c.imageSize, e.sequence);
    }
  }

  lemma FreshData(c: Client, digest: Bytes -> Bytes, e: Event)
    requires Sound(c, digest) && Fresh(c, e)
    ensures var b := Store(c.cache, e.sequence, e.payload);
            var step := if HasGap(b) then ClientStep(c.(cache := b, lastTick := e.chunk.tick), EspOk)
                        else CommitBatch(c.(cache := b, lastTick := e.chunk.tick), e.chunk);
            && b == c.cache.(stored := c.cache.stored[e.sequence := e.payload])
            && StoreStatusOf(c.cache, e.sequence, e.payload) == Stored
            && HandleData(c, e).client == step.client && |HandleData(c, e).responses| == 1
            && (HandleData(c, e).responses[0].ack <==> step.err == EspOk)
  {
    ChunkArithmetic(c.imageSize, e.sequence);
  }

  /** One DATA packet, in full. A packet that is not fresh changes nothing, not even the timeout
      clock, and is acknowledged exactly when it is well formed and the device has its chunk. A
      fresh one is stored; if it completes the batch, the batch is appended to flash in order, and
      only a failing flash or digest can then refuse it, ending the session. */
  lemma DataPacketOutcome(c: Client, digest: Bytes -> Bytes, e: Event)
    requires Sound(c, digest) && e.DataPacket?
    ensures var r := HandleData(c, e);
            var b := c.cache.(stored := c.cache.stored[e.sequence := e.payload]);
            && |r.responses| == 1
            && (!Fresh(c, e) ==>
                  r.client == c && (r.responses[0].ack <==> WellFormedData(c, e) && Has(c, e.sequence)))
            && (Fresh(c, e) && HasGap(b) ==>
                  r.client == c.(cache := b, lastTick := e.chunk.tick) && r.responses[0].ack)
            && (Fresh(c, e) && !HasGap(b) ==> Committed(c, b, r.client, r.responses[0].ack, e.chunk))
    ensures Sound(HandleData(c, e).client, digest)
  {
    if Fresh(c, e) {
      FreshData(c, digest, e);
      StoredFits(c, digest, e.sequence, e.payload);
      var b := Store(c.cache, e.sequence, e.payload);
      if !HasGap(b) {
        CommitRefines(c, digest, b, e.chunk.tick, e.chunk);
      }
    } else {
      StaleData(c, digest, e);
    }
  }

  /** The outcome of completing batch b. */
  ghost predicate Committed(c: Client, b: Batch, c': Client, ack: bool, env: ChunkEnv)
    requires !HasGap(b)
  {
    && (ack <==> env.write.write == EspOk && env.write.hashUpdateOk)
    && (!ack ==> c'.state == Failed)
    && (ack ==> c' == Appended(c, b, env.tick))
  }

  lemma FinishSound(c: Client, digest: Bytes -> Bytes, session: uint32, imageSize: uint32, total: uint32,
                    env: FinishEnv)
    requires Sound(c, digest)
    ensures var step := FinishSession(c, session, imageSize, total, digest, env);
            && Sound(step.client, digest)
            && (step.err == EspOk <==>
                 && c.state == Receiving && session == c.session
                 && imageSize == c.imageSize && total == c.total && c.expected == c.total
                 && digest(c.writer.flash) == c.sha
                 && env.end == EspOk && env.hashFinishOk && env.setBoot == EspOk)
            && (step.err == EspOk ==> step.client.state == ReadyToReboot)
            && (step.client.state == ReadyToReboot && c.state != ReadyToReboot ==> step.err == EspOk)
  {
    TotalCovers(c.imageSize);
  }

  lemma ReactSound(c: Client, digest: Bytes -> Bytes, e: Event)
    requires Sound(c, digest)
    ensures Sound(React(c, digest, e).client, digest)
  {
    match e
    case StartPacket(_, _, _, _, _, _, _, _) =>
      TotalCovers(e.imageSize);
      if 0 < e.imageSize {
        assert HasGap(Prepared(0, TotalChunks(e.imageSize))) by {
          assert 0 !in Prepared(0, TotalChunks(e.imageSize)).stored;
        }
      }
    case DataPacket(_, _, _, _) =>
      DataPacketOutcome(c, digest, e);
    case EndPacket(session, imageSize, total, finish) =>
      FinishSound(c, digest, session, imageSize, total, finish);
    case QueueEmpty(_, _) =>
    case AbortCall(_) =>
  }

  // ---------------------------------------------------------------- histories

  /** The session together with the START that opened it and the DATA packets it has acknowledged
      since. */
  datatype History = History(client: Client, opening: Option<Event>, log: seq<(nat, Bytes)>)

  const BEGINNING := History(INITIAL, None, [])

  function Advance(h: History, digest: Bytes -> Bytes, e: Event): History {
    var r := React(h.client, digest, e);
    var opens := e.StartPacket? && h.client.state == Idle && r.client.state == Receiving;
    History(r.client,
      if opens then Some(e) else h.opening,
      if opens then []
      else if e.DataPacket? && |r.responses| == 1 && r.responses[0].ack then h.log + [(e.sequence, e.payload)]
      else h.log)
  }

  function Run(h: History, digest: Bytes -> Bytes, events: seq<Event>): History
    decreases |events|
  {
    if events == [] then h else Run(Advance(h, digest, events[0]), digest, events[1..])
  }

  /** Chunk number to the payload that was acknowledged for it first. */
  function FirstAccepted(log: seq<(nat, Bytes)>): map<nat, Bytes> {
    if log == [] then map[]
    else
      var before := FirstAccepted(log[..|log| - 1]);
      var (k, payload) := log[|log| - 1];
      if k in before then before else before[k := payload]
  }

  lemma {:induction false} FirstAcceptedIsFirst(log: seq<(nat, Bytes)>, k: nat)
    ensures k in FirstAccepted(log) <==> exists i :: 0 <= i < |log| && log[i].0 == k
    ensures k in FirstAccepted(log) ==>
              exists i :: 0 <= i < |log| && log[i] == (k, FirstAccepted(log)[k]) &&
                          forall j | 0 <= j < i :: log[j].0 != k
  {
    if log != [] {
      var before := log[..|log| - 1];
      FirstAcceptedIsFirst(before, k);
      if k in FirstAccepted(before) {
        var i :| 0 <= i < |before| && before[i] == (k, FirstAccepted(before)[k]) &&
                 forall j | 0 <= j < i :: before[j].0 != k;
        assert log[i] == (k, FirstAccepted(log)[k]) && forall j | 0 <= j < i :: log[j].0 != k;
      } else if log[|log| - 1].0 == k {
        assert forall j | 0 <= j < |log| - 1 :: log[j] == before[j];
        assert log[|log| - 1] == (k, FirstAccepted(log)[k]);
      } else {
        assert forall j | 0 <= j < |log| - 1 :: log[j] == before[j];
      }
    }
  }

  /** m is committed up to `expected`, in order, to flash, and beyond it held in `stored`. */
  ghost predicate Reassembled(m: map<nat, Bytes>, flash: Bytes, expected: nat, stored: map<nat, Bytes>) {
    && (forall k: nat :: k in m <==> k < expected || k in stored)
    && (forall k | k in stored :: m[k] == stored[k])
    && flash == Joined(m, 0, expected)
  }

  /** Flash and cache hold the first accepted payloads and nothing else: the committed chunks in order
      in flash, the rest of the accepted ones in the batch. */
  ghost predicate Faithful(h: History) {
    var c, m := h.client, FirstAccepted(h.log);
    match c.state
    case Receiving => Reassembled(m, c.writer.flash, c.expected, c.cache.stored)
    case ReadyToReboot => Reassembled(m, c.writer.flash, c.total, map[])
    case _ => true
  }

  /** The log after one more acknowledged chunk. */
  lemma LogGrows(log: seq<(nat, Bytes)>, k: nat, payload: Bytes)
    ensures var m, m' := FirstAccepted(log), FirstAccepted(log + [(k, payload)]);
            m' == if k in m then m else m[k := payload]
  {
    assert (log + [(k, payload)])[..|log|] == log;
  }

  lemma DataFaithful(h: History, digest: Bytes -> Bytes, e: Event)
    requires Sound(h.client, digest) && Faithful(h) && e.DataPacket?
    ensures Faithful(Advance(h, digest, e))
  {
    DataPacketOutcome(h.client, digest, e);
    LogGrows(h.log, e.sequence, e.payload);
    var r := HandleData(h.client, e);
    var log := if r.responses[0].ack then h.log + [(e.sequence, e.payload)] else h.log;
    assert Advance(h, digest, e) == History(r.client, h.opening, log);
    if Fresh(h.client, e) {
      FreshFaithful(h, e, r.client, r.responses[0].ack, log);
    } else {
      StaleFaithful(h, e, log);
    }
  }

  lemma StaleFaithful(h: History, e: Event, log: seq<(nat, Bytes)>)
    requires Faithful(h) && e.DataPacket?
    requires || log == h.log
             || (&& log == h.log + [(e.sequence, e.payload)]
                 && WellFormedData(h.client, e) && Has(h.client, e.sequence))
    ensures Faithful(History(h.client, h.opening, log))
  {
    LogGrows(h.log, e.sequence, e.payload);
  }

  lemma FreshFaithful(h: History, e: Event, c': Client, ack: bool, log: seq<(nat, Bytes)>)
    requires Faithful(h) && Fresh(h.client, e) && h.client.cache.base == h.client.expected
    requires forall k | k in h.client.cache.stored :: h.client.cache.Wanted(k)
    requires h.client.cache.Wanted(e.sequence)
    requires log == if ack then h.log + [(e.sequence, e.payload)] else h.log
    requires var c := h.client;
             var b := c.cache.(stored := c.cache.stored[e.sequence := e.payload]);
             if HasGap(b) then c' == c.(cache := b, lastTick := e.chunk.tick) && ack
             else Committed(c, b, c', ack, e.chunk)
    ensures Faithful(History(c', h.opening, log))
  {
    if ack {
      var c, m := h.client, FirstAccepted(h.log);
      var b := c.cache.(stored := c.cache.stored[e.sequence := e.payload]);
      assert e.sequence !in m;
      LogGrows(h.log, e.sequence, e.payload);
      ChunkReassembled(m, c.writer.flash, c.expected, c.cache.stored, e.sequence, e.payload);
      var m' := FirstAccepted(log);
      assert Reassembled(m', c.writer.flash, c.expected, b.stored);
      if !HasGap(b) {
        BatchReassembled(m', c.writer.flash, b);
        AppendedFaithful(m', c, b, e.chunk.tick);
      }
    }
  }

  lemma AppendedFaithful(m: map<nat, Bytes>, c: Client, b: Batch, tick: uint32)
    requires !HasGap(b) && b.base == c.expected
    requires var flat := Joined(b.stored, b.base, b.base + b.count);
             Reassembled(m, c.writer.flash + flat, b.base + b.count, map[])
    ensures var c' := Appended(c, b, tick);
            Reassembled(m, c'.writer.flash, c'.expected, c'.cache.stored)
  {}

  lemma ChunkReassembled(m: map<nat, Bytes>, flash: Bytes, expected: nat, stored: map<nat, Bytes>,
                         k: nat, payload: Bytes)
    requires Reassembled(m, flash, expected, stored) && expected <= k
    ensures Reassembled(m[k := payload], flash, expected, stored[k := payload])
  {
    JoinedAgrees(m, m[k := payload], 0, expected);
  }

  lemma BatchReassembled(m: map<nat, Bytes>, flash: Bytes, b: Batch)
    requires Reassembled(m, flash, b.base, b.stored) && !HasGap(b)
    requires forall k | k in b.stored :: b.Wanted(k)
    ensures Reassembled(m, flash + Joined(b.stored, b.base, b.base + b.count), b.base + b.count, map[])
  {
    BatchAppended(m, b);
  }

  /** Appending the joined batch to the joined prefix joins the longer prefix. */
  lemma BatchAppended(m: map<nat, Bytes>, b: Batch)
    requires !HasGap(b)
    requires forall k | 0 <= k < b.base :: k in m
    requires forall k | k in b.stored :: k in m && m[k] == b.stored[k]
    ensures forall k | 0 <= k < b.base + b.count :: k in m
    ensures Joined(m, 0, b.base + b.count) == Joined(m, 0, b.base) + Joined(b.stored, b.base, b.base + b.count)
  {
    JoinedAgrees(b.stored, m, b.base, b.base + b.count);
    JoinedSplits(m, 0, b.base, b.base + b.count);
  }

  lemma StartFaithful(h: History, digest: Bytes -> Bytes, e: Event)
    requires Sound(h.client, digest) && Faithful(h) && e.StartPacket?
    ensures Faithful(Advance(h, digest, e))
  {}

  lemma EndFaithful(h: History, digest: Bytes -> Bytes, e: Event)
    requires Sound(h.client, digest) && Faithful(h) && e.EndPacket?
    ensures Faithful(Advance(h, digest, e))
  {
    FinishSound(h.client, digest, e.session, e.imageSize, e.total, e.finish);
  }

  lemma AdvanceFaithful(h: History, digest: Bytes -> Bytes, e: Event)
    requires Sound(h.client, digest) && Faithful(h)
    ensures Sound(Advance(h, digest, e).client, digest) && Faithful(Advance(h, digest, e))
  {
    ReactSound(h.client, digest, e);
    match e
    case StartPacket(_, _, _, _, _, _, _, _) => StartFaithful(h, digest, e);
    case DataPacket(_, _, _, _) => DataFaithful(h, digest, e);
    case EndPacket(_, _, _, _) => EndFaithful(h, digest, e);
    case QueueEmpty(_, _) =>
    case AbortCall(_) =>
  }

  lemma {:induction false} RunFaithful(h: History, digest: Bytes -> Bytes, events: seq<Event>)
    requires Sound(h.client, digest) && Faithful(h)
    ensures Sound(Run(h, digest, events).client, digest) && Faithful(Run(h, digest, events))
    decreases |events|
  {
    if events != [] {
      AdvanceFaithful(h, digest, events[0]);
      RunFaithful(Advance(h, digest, events[0]), digest, events[1..]);
    }
  }

  /** An open or finished session still carries what its opening START announced. */
  ghost predicate Announced(h: History) {
    h.client.state == Receiving || h.client.state == ReadyToReboot ==>
      && h.opening.Some? && h.opening.value.StartPacket?
      && var start := h.opening.value;
         h.client.session == start.session && h.client.imageSize == start.imageSize &&
         h.client.total == start.total && h.client.sha == start.sha
  }

  lemma AdvanceAnnounced(h: History, digest: Bytes -> Bytes, e: Event)
    requires Announced(h)
    ensures Announced(Advance(h, digest, e))
  {}

  lemma {:induction false} RunAnnounced(h: History, digest: Bytes -> Bytes, events: seq<Event>)
    requires Announced(h)
    ensures Announced(Run(h, digest, events))
    decreases |events|
  {
    if events != [] {
      AdvanceAnnounced(h, digest, events[0]);
      RunAnnounced(Advance(h, digest, events[0]), digest, events[1..]);
    }
  }

  /** Reassembly. After any run of START, DATA, END, timeouts and aborts, with DATA lost, repeated or
      reordered at will, a receiving session's flash is exactly the in-order concatenation of the
      first accepted payloads of chunks 0 .. expected - 1, the batch holds the other accepted
      ones, and the byte counters agree with both. */
  lemma Reassembly(digest: Bytes -> Bytes, events: seq<Event>)
    ensures var h := Run(BEGINNING, digest, events);
            var c, m := h.client, FirstAccepted(h.log);
            c.state == Receiving ==>
              && (forall k: nat :: k in m <==> k < c.expected || k in c.cache.stored)
              && (forall k | k in c.cache.stored :: m[k] == c.cache.stored[k])
              && c.writer.flash == Joined(m, 0, c.expected)
              && c.received == c.writer.written == |c.writer.flash| == Min(48 * c.expected, c.imageSize)
  {
    RunFaithful(BEGINNING, digest, events);
  }

  /** Boot safety. In every run, over any number of sessions, a boot partition is selected only in
      READY_TO_REBOOT, and then the selected image is exactly image_size bytes long, is the
      concatenation of the session's first accepted chunks, and has the digest announced by the
      START that opened the session. */
  lemma BootSafety(digest: Bytes -> Bytes, events: seq<Event>)
    ensures var h := Run(BEGINNING, digest, events);
            var c := h.client;
            && (c.boot.Some? <==> c.state == ReadyToReboot)
            && (c.boot.Some? ==>
                  && h.opening.Some? && h.opening.value.StartPacket?
                  && |c.boot.value| == h.opening.value.imageSize
                  && digest(c.boot.value) == h.opening.value.sha
                  && (forall k: nat :: k in FirstAccepted(h.log) <==> k < c.total)
                  && c.boot.value == c.writer.flash == Joined(FirstAccepted(h.log), 0, c.total))
  {
    RunFaithful(BEGINNING, digest, events);
    RunAnnounced(BEGINNING, digest, events);
  }

  /** What an acknowledged START means. The session the packet names is open, but its digest is the
      session's digest exactly when the packet opened the session or happens to repeat it: a second
      START with another digest is acknowledged and ignored. */
  lemma StartAckMeaning(c: Client, digest: Bytes -> Bytes, e: Event)
    requires Sound(c, digest) && e.StartPacket?
    requires React(c, digest, e).responses == [Ack(e.session, StartKind, None)]
    ensures var c' := React(c, digest, e).client;
            && c'.state == Receiving && c'.session == e.session
            && c'.imageSize == e.imageSize && c'.total == e.total
            && (c'.sha == e.sha <==> c.state == Idle || c.sha == e.sha)
            && (c.state != Idle ==> c' == c)
  {}

  /** READY_TO_REBOOT has no exit: no packet, timeout or abort changes anything any more, so nothing is
      written to flash after the selection; and an END is acknowledged only there. */
  lemma ReadyIsFinal(c: Client, digest: Bytes -> Bytes, e: Event)
    requires Sound(c, digest)
    ensures c.state == ReadyToReboot ==> React(c, digest, e).client == c
    ensures e.EndPacket? && React(c, digest, e).responses == [Ack(e.session, EndKind, None)] ==>
              React(c, digest, e).client.state == ReadyToReboot && React(c, digest, e).client.boot.Some?
  {
    if e.EndPacket? {
      FinishSound(c, digest, e.session, e.imageSize, e.total, e.finish);
    }
  }

  // ---------------------------------------------------------------- an honest sender

  /** Chunk k of an image. */
  function Slice(image: Bytes, k: nat): Bytes
    requires k < TotalChunks(|image|)
  {
    image[48 * k..48 * k + ChunkLength(|image|, k)]
  }

  lemma {:induction false} JoinedSlices(m: map<nat, Bytes>, image: Bytes, n: nat)
    requires n <= TotalChunks(|image|)
    requires forall k | 0 <= k < n :: k in m && m[k] == Slice(image, k)
    ensures Joined(m, 0, n) == image[..Min(48 * n, |image|)]
    decreases n
  {
    if n != 0 {
      ChunkArithmetic(|image|, n - 1);
      JoinedSlices(m, image, n - 1);
      assert image[..Min(48 * n, |image|)] == image[..48 * (n - 1)] + Slice(image, n - 1);
    }
  }

  /** Every payload acknowledged for a chunk of the image was that chunk. */
  ghost predicate TrueSlices(log: seq<(nat, Bytes)>, image: Bytes) {
    forall i | 0 <= i < |log| :: log[i].0 < TotalChunks(|image|) ==> log[i].1 == Slice(image, log[i].0)
  }

  lemma FlashIsPrefix(h: History, digest: Bytes -> Bytes, image: Bytes)
    requires Sound(h.client, digest) && Faithful(h) && h.client.imageSize == |image| && TrueSlices(h.log, image)
    ensures var c := h.client;
            && (c.state == Receiving ==> c.writer.flash == image[..Min(48 * c.expected, |image|)])
            && (c.state == ReadyToReboot ==> c.boot == Some(image))
  {
    var c, m := h.client, FirstAccepted(h.log);
    if c.state == Receiving || c.state == ReadyToReboot {
      var n := if c.state == Receiving then c.expected else c.total;
      forall k | 0 <= k < n
        ensures k in m && m[k] == Slice(image, k)
      {
        FirstAcceptedIsFirst(h.log, k);
      }
      JoinedSlices(m, image, n);
      TotalCovers(|image|);
      assert image[..|image|] == image;
    }
  }

  /** If every acknowledged payload was a true slice of an image of the announced size, the flash is at
      every moment a prefix of that image, and the image selected for boot is the image itself. */
  lemma HonestSender(digest: Bytes -> Bytes, events: seq<Event>, image: Bytes)
    requires var h := Run(BEGINNING, digest, events);
             h.client.imageSize == |image| && TrueSlices(h.log, image)
    ensures var c := Run(BEGINNING, digest, events).client;
            && (c.state == Receiving ==> c.writer.flash == image[..Min(48 * c.expected, |image|)])
            && (c.state == ReadyToReboot ==> c.boot == Some(image))
  {
    RunFaithful(BEGINNING, digest, events);
    FlashIsPrefix(Run(BEGINNING, digest, events), digest, image);
  }

  // ---------------------------------------------------------------- progress and timeouts

  function Progress(c: Client): nat
    requires c.imageSize != 0
  {
    c.received * 100 / c.imageSize
  }

  /** Progress is 100 exactly when every chunk is committed, and no DATA packet lowers it. */
  lemma ProgressLaws(c: Client, digest: Bytes -> Bytes, e: Event)
    requires Sound(c, digest) && c.state == Receiving && e.DataPacket?
    ensures Progress(c) <= 100 && (Progress(c) == 100 <==> c.expected == c.total)
    ensures var c' := React(c, digest, e).client;
            c'.state == Receiving ==> c'.imageSize == c.imageSize && Progress(c) <= Progress(c')
  {
    TotalCovers(c.imageSize);
    if c.received < c.imageSize {
      QuotientIs(c.received * 100, c.imageSize, 100);
    }
    var c' := React(c, digest, e).client;
    DataPacketOutcome(c, digest, e);
    if c'.state == Receiving {
      ScaledOrder(100, c.received, c'.received);
      QuotientOrder(c.received * 100, c'.received * 100, c.imageSize);
    }
    QuotientOrder(c.received * 100, c.imageSize * 100, c.imageSize);
    QuotientIs(c.imageSize * 100, c.imageSize, 100);
  }

  lemma QuotientOrder(a: nat, b: nat, s: nat)
    requires a <= b && 0 < s
    ensures a / s <= b / s
  {
    QuotientIs(a, s, a / s);
    QuotientIs(b, s, b / s);
    if b / s < a / s {
      ScaledOrder(s, b / s + 1, a / s);
    }
  }

  lemma {:induction false} MissingFromIsExact(b: Batch, lo: nat)
    requires b.base <= lo
    ensures var missing := MissingFrom(b, lo);
            && (forall k: nat :: k in missing <==> lo <= k < b.base + b.count && k !in b.stored)
            && (forall i, j | 0 <= i < j < |missing| :: missing[i] < missing[j])
    decreases b.base + b.count - lo
  {
    if lo < b.base + b.count {
      MissingFromIsExact(b, lo + 1);
      var rest := MissingFrom(b, lo + 1);
      assert forall j | 0 <= j < |rest| :: rest[j] in rest;
    }
  }

  lemma MissingIffGap(b: Batch)
    ensures MissingFrom(b, b.base) != [] <==> HasGap(b)
  {
    MissingFromIsExact(b, b.base);
    var missing := MissingFrom(b, b.base);
    if missing != [] {
      assert missing[0] in missing;
    }
    if HasGap(b) {
      var k :| b.base <= k < b.base + b.count && k !in b.stored;
      assert k in missing;
    }
  }

  /** A timeout that fires NACKs, in ascending order and once each, exactly the chunks of the current
      batch the device does not have, and nothing else about the session changes but the timeout
      clock. There is nothing to NACK exactly when everything is committed. */
  lemma TimeoutNacksAreExact(c: Client, digest: Bytes -> Bytes, now: uint32, timeout: uint32)
    requires Sound(c, digest) && TimedOut(c, now, timeout)
    ensures var r := HandleReceiveTimeout(c, now, timeout);
            var missing := MissingFrom(c.cache, c.cache.base);
            && r.client == c.(lastTick := now)
            && r.responses == TimeoutNacks(c.session, missing)
            && (forall i, j | 0 <= i < j < |missing| :: missing[i] < missing[j])
            && (forall k: nat :: k in missing <==>
                  c.expected <= k < c.total && k < c.expected + 5 && !Has(c, k))
            && (missing == [] <==> c.expected == c.total)
  {
    MissingFromIsExact(c.cache, c.cache.base);
    MissingIffGap(c.cache);
  }

  /** Chunks the device still lacks. */
  function Remaining(c: Client): int {
    c.total - c.expected - |c.cache.stored|
  }

  /** Each of those NACKs is useful: the right chunk for it, delivered next, is fresh, so that (unless the
      flash fails) it is acknowledged and leaves exactly one chunk fewer to come. Repeats of chunks
      the device has leave that number and the timeout clock alone. */
  lemma TimeoutNacksAreUseful(c: Client, digest: Bytes -> Bytes, now: uint32, timeout: uint32, e: Event)
    requires Sound(c, digest) && TimedOut(c, now, timeout)
    requires WellFormedData(c, e) && e.chunk.write == WriteEnv(EspOk, true)
    ensures var r := HandleReceiveTimeout(c, now, timeout);
            var answered := HandleData(r.client, e);
            && (Nack(c.session, DataKind, Some(e.sequence), ResultTimeout) in r.responses ==>
                  Fresh(r.client, e) && answered.responses[0].ack &&
                  Remaining(answered.client) == Remaining(c) - 1)
            && (Has(c, e.sequence) ==> answered.client == r.client && answered.responses[0].ack)
  {
    TimeoutNacksAreExact(c, digest, now, timeout);
    var c', missing := c.(lastTick := now), MissingFrom(c.cache, c.cache.base);
    var nack := Nack(c.session, DataKind, Some(e.sequence), ResultTimeout);
    if nack in TimeoutNacks(c.session, missing) {
      var i :| 0 <= i < |missing| && TimeoutNacks(c.session, missing)[i] == nack;
      assert missing[i] == e.sequence;
      assert e.sequence in missing;
    }
    DataPacketOutcome(c', digest, e);
    if Fresh(c', e) {
      FreshLeavesOneFewer(c', digest, e);
    }
  }

  lemma FreshLeavesOneFewer(c: Client, digest: Bytes -> Bytes, e: Event)
    requires Sound(c, digest) && Fresh(c, e) && e.chunk.write == WriteEnv(EspOk, true)
    ensures Remaining(HandleData(c, e).client) == Remaining(c) - 1
  {
    DataPacketOutcome(c, digest, e);
    var b := c.cache.(stored := c.cache.stored[e.sequence := e.payload]);
    assert b.stored.Keys == c.cache.stored.Keys + {e.sequence as nat};
    assert |b.stored| == |c.cache.stored| + 1;
    if !HasGap(b) {
      FullBatch(b);
    }
  }

  function Window(base: nat, count: nat): (w: set<nat>)
    ensures |w| == count && forall k: nat :: k in w <==> base <= k < base + count
  {
    if count == 0 then {} else Window(base, count - 1) + {base + count - 1}
  }

  lemma FullBatch(b: Batch)
    requires !HasGap(b) && forall k | k in b.stored :: b.Wanted(k)
    ensures |b.stored| == b.count
  {
    assert b.stored.Keys == Window(b.base, b.count);
  }
}
