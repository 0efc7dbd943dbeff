/** The two-party protocol: a gateway that sends an image batch by batch and advances only when the whole
    batch is acknowledged, the device, and a channel that loses, repeats and reorders DATA and ACKs. */
module SelectiveRepeat {
  import opened CTypes
  import opened OtaWriter
  import opened OtaBatchCache
  import opened OtaModel
  import opened OtaSafety

  /** The gateway's batch starts at `base`; `acked` are the chunks whose ACK has arrived. */
  datatype Gateway = Gateway(base: nat, acked: set<nat>)

  /** `sent` and `acks` are everything ever put on the air: any of it may arrive at any time, any number
      of times, or never. */
  datatype System = System(gateway: Gateway, device: History, sent: set<nat>, acks: set<nat>)

  /** One transfer: the image, and the START that opens its session on the device. */
  datatype Transfer = Transfer(image: Bytes, start: Event, digest: Bytes -> Bytes)
  {
    ghost predicate Valid() {
      && start.StartPacket? && start.forUs
      && 0 < |image| == start.imageSize && start.total == TotalChunks(|image|)
    }

    function Total(): nat {
      TotalChunks(|image|)
    }
  }

  function WindowEnd(base: nat, total: nat): nat {
    base + BatchCount(base, total)
  }

  datatype Action =
    | Send(k: nat)                          // the gateway (re)transmits a chunk of its batch
    | Deliver(k: nat, env: ChunkEnv)        // a copy of chunk k reaches the device
    | AckArrives(k: nat)                    // a copy of an ACK reaches the gateway
    | NextBatch                             // the whole batch is acknowledged: next batch
    | Expire(now: uint32, timeout: uint32)  // the device's receive queue stays empty
    | StartAgain                            // a copy of the START reaches the device

  ghost predicate Enabled(t: Transfer, s: System, a: Action)
    requires t.Valid()
  {
    match a
    case Send(k) => s.gateway.base <= k < WindowEnd(s.gateway.base, t.Total())
    case Deliver(k, _) => k in s.sent && k < t.Total()
    case AckArrives(k) => k in s.acks
    case NextBatch =>
      s.gateway.base < t.Total() &&
      forall k | s.gateway.base <= k < WindowEnd(s.gateway.base, t.Total()) :: k in s.gateway.acked
    case Expire(_, _) => true
    case StartAgain => true
  }

  function Data(t: Transfer, k: nat, env: ChunkEnv): Event
    requires t.start.StartPacket? && k < t.Total() && k <= UINT32_MAX
  {
    DataPacket(t.start.session, k, Slice(t.image, k), env)
  }

  lemma TotalFits(t: Transfer)
    requires t.Valid()
    ensures t.Total() <= UINT32_MAX
  {}

  ghost function Next(t: Transfer, s: System, a: Action): System
    requires t.Valid() && Enabled(t, s, a)
  {
    match a
    case Send(k) => s.(sent := s.sent + {k})
    case Deliver(k, env) =>
      TotalFits(t);
      var e := Data(t, k, env);
      s.(device := Advance(s.device, t.digest, e),
         acks := if Acked(React(s.device.client, t.digest, e).responses) then s.acks + {k} else s.acks)
    case AckArrives(k) => s.(gateway := s.gateway.(acked := s.gateway.acked + {k}))
    case NextBatch => s.(gateway := s.gateway.(base := WindowEnd(s.gateway.base, t.Total())))
    case Expire(now, timeout) => s.(device := Advance(s.device, t.digest, QueueEmpty(now, timeout)))
    case StartAgain => s.(device := Advance(s.device, t.digest, t.start))
  }

  predicate Acked(responses: seq<Response>) {
    |responses| == 1 && responses[0].ack
  }

  /** The system right after the device accepted the START. */
  ghost predicate Opened(t: Transfer, s: System)
    requires t.Valid()
  {
    && s.gateway == Gateway(0, {}) && s.sent == {} && s.acks == {}
    && s.device.client.state == Receiving
    && exists h: History :: h.client.state == Idle && Sound(h.client, t.digest) && Faithful(h) &&
                            s.device == Advance(h, t.digest, t.start)
  }

  // ---------------------------------------------------------------- the invariant

  /** What a receiving device and the gateway have in common at every moment. */
  ghost predicate InStep(t: Transfer, s: System)
    requires t.Valid()
  {
    var g, c := s.gateway, s.device.client;
    && c.session == t.start.session && c.imageSize == |t.image| && c.sha == t.start.sha
    && g.base <= c.expected <= WindowEnd(g.base, t.Total())
    && (forall k | k in s.sent :: k < WindowEnd(g.base, t.Total()))
    && (forall k | k in s.acks :: Has(c, k))
    && g.acked <= s.acks
    && (forall k: nat | k < g.base :: k in g.acked)
  }

  ghost predicate Agreed(t: Transfer, s: System)
    requires t.Valid()
  {
    var g, c := s.gateway, s.device.client;
    && Sound(c, t.digest) && Faithful(s.device) && TrueSlices(s.device.log, t.image)
    && g.base <= t.Total() && (g.base % 5 == 0 || g.base == t.Total())
    && (c.state == Failed || (c.state == Receiving && InStep(t, s)))
  }

  lemma OpenedAgrees(t: Transfer, s: System)
    requires t.Valid() && Opened(t, s)
    ensures Agreed(t, s)
  {
    var h: History :| h.client.state == Idle && Sound(h.client, t.digest) && Faithful(h) &&
                      s.device == Advance(h, t.digest, t.start);
    AdvanceFaithful(h, t.digest, t.start);
  }

  /** Two aligned bases at most one batch apart are equal or exactly one batch apart. */
  lemma AlignedWindow(expected: nat, base: nat, total: nat)
    requires base <= expected <= WindowEnd(base, total) && base <= total
    requires (base % 5 == 0 || base == total) && (expected % 5 == 0 || expected == total)
    ensures expected == base || expected == WindowEnd(base, total)
    ensures WindowEnd(base, total) <= WindowEnd(expected, total) <= total
    ensures WindowEnd(base, total) % 5 == 0 || WindowEnd(base, total) == total
  {}

  /** A delivered chunk is one the device has or can store, so it is acknowledged unless the flash
      fails; the device keeps every chunk it had and never gets ahead of the gateway's batch. */
  lemma DeliveryIsAcked(t: Transfer, s: System, k: nat, env: ChunkEnv)
    requires t.Valid() && Agreed(t, s) && k in s.sent && k < t.Total() && k <= UINT32_MAX
    requires s.device.client.state == Receiving
    ensures var c, r := s.device.client, HandleData(s.device.client, Data(t, k, env));
            && (r.client.state == Receiving || r.client.state == Failed)
            && |r.responses| == 1 && (r.responses[0].ack <==> r.client.state == Receiving)
            && (env.write == WriteEnv(EspOk, true) ==> r.client.state == Receiving)
            && (r.client.state == Receiving ==>
                  && Has(r.client, k) && (forall j: nat | Has(c, j) :: Has(r.client, j))
                  && r.client.session == c.session && r.client.imageSize == c.imageSize && r.client.sha == c.sha
                  && c.expected <= r.client.expected <= WindowEnd(s.gateway.base, t.Total()))
  {
    var c, e := s.device.client, Data(t, k, env);
    ChunkArithmetic(|t.image|, k);
    AlignedWindow(c.expected, s.gateway.base, t.Total());
    DataPacketOutcome(c, t.digest, e);
    var b := c.cache.(stored := c.cache.stored[e.sequence := e.payload]);
    if Fresh(c, e) && !HasGap(b) {
      assert forall j: nat | b.base <= j < b.base + b.count :: j in b.stored;
    }
  }

  lemma DeliverAgrees(t: Transfer, s: System, k: nat, env: ChunkEnv)
    requires t.Valid() && Agreed(t, s) && Enabled(t, s, Deliver(k, env))
    ensures Agreed(t, Next(t, s, Deliver(k, env)))
  {
    TotalFits(t);
    var e := Data(t, k, env);
    AdvanceFaithful(s.device, t.digest, e);
    DataPacketOutcome(s.device.client, t.digest, e);
    if s.device.client.state == Receiving {
      DeliveryIsAcked(t, s, k, env);
    }
  }

  /** A device still collecting the gateway's fully acknowledged batch would have all of it. */
  lemma AckedBatchHasNoGap(t: Transfer, s: System)
    requires t.Valid() && InStep(t, s) && Enabled(t, s, NextBatch)
    ensures var c := s.device.client;
            c.expected == s.gateway.base == c.cache.base && c.cache.count == BatchCount(c.expected, t.Total()) ==>
              !HasGap(c.cache)
  {
    var c := s.device.client;
    forall k: nat | s.gateway.base <= k < WindowEnd(s.gateway.base, t.Total())
      ensures k < c.expected || k in c.cache.stored
    {
      assert k in s.gateway.acked && Has(c, k);
    }
  }

  /** When the gateway advances, the device has committed the whole batch. */
  lemma AdvanceMeansCommitted(t: Transfer, s: System)
    requires t.Valid() && Agreed(t, s) && Enabled(t, s, NextBatch) && s.device.client.state == Receiving
    ensures s.device.client.expected == WindowEnd(s.gateway.base, t.Total())
  {
    AlignedWindow(s.device.client.expected, s.gateway.base, t.Total());
    AckedBatchHasNoGap(t, s);
  }

  lemma NextBatchAgrees(t: Transfer, s: System)
    requires t.Valid() && Agreed(t, s) && Enabled(t, s, NextBatch)
    ensures Agreed(t, Next(t, s, NextBatch))
  {
    AlignedWindow(s.gateway.base, s.gateway.base, t.Total());
    if s.device.client.state == Receiving {
      AdvanceMeansCommitted(t, s);
      AlignedWindow(s.device.client.expected, s.gateway.base, t.Total());
    }
  }

  lemma NextAgrees(t: Transfer, s: System, a: Action)
    requires t.Valid() && Agreed(t, s) && Enabled(t, s, a)
    ensures Agreed(t, Next(t, s, a))
  {
    match a
    case Deliver(k, env) => DeliverAgrees(t, s, k, env);
    case NextBatch => NextBatchAgrees(t, s);
    case Expire(now, timeout) => AdvanceFaithful(s.device, t.digest, QueueEmpty(now, timeout));
    case StartAgain => AdvanceFaithful(s.device, t.digest, t.start);
    case _ =>
  }

  // ---------------------------------------------------------------- runs

  ghost predicate Legal(t: Transfer, s: System, actions: seq<Action>)
    requires t.Valid()
    decreases |actions|
  {
    actions == [] || (Enabled(t, s, actions[0]) && Legal(t, Next(t, s, actions[0]), actions[1..]))
  }

  ghost function After(t: Transfer, s: System, actions: seq<Action>): System
    requires t.Valid() && Legal(t, s, actions)
    decreases |actions|
  {
    if actions == [] then s else After(t, Next(t, s, actions[0]), actions[1..])
  }

  lemma {:induction false} RunAgrees(t: Transfer, s: System, actions: seq<Action>)
    requires t.Valid() && Agreed(t, s) && Legal(t, s, actions)
    ensures Agreed(t, After(t, s, actions))
    decreases |actions|
  {
    if actions != [] {
      NextAgrees(t, s, actions[0]);
      RunAgrees(t, Next(t, s, actions[0]), actions[1..]);
    }
  }

  /** Safety over every run, on a channel that loses, repeats and reorders DATA, ACKs and the START,
      while the device is receiving: every chunk whose ACK was ever sent is held by the device, the
      device's batch is the gateway's or exactly the one after it, the flash is the matching prefix
      of the image, and when the gateway is through the device has committed the whole image. */
  lemma AckedIsHeld(t: Transfer, s: System, actions: seq<Action>)
    requires t.Valid() && Opened(t, s) && Legal(t, s, actions)
    requires After(t, s, actions).device.client.state == Receiving
    ensures var s' := After(t, s, actions);
            var g, c := s'.gateway, s'.device.client;
            && (forall k | k in s'.acks :: Has(c, k))
            && (forall k: nat | k < g.base :: k in s'.acks)
            && (c.expected == g.base || c.expected == WindowEnd(g.base, t.Total()))
            && c.writer.flash == t.image[..Min(48 * c.expected, |t.image|)]
            && (g.base == t.Total() ==> c.expected == c.total && c.writer.flash == t.image)
  {
    OpenedAgrees(t, s);
    RunAgrees(t, s, actions);
    var s' := After(t, s, actions);
    FlashIsPrefix(s'.device, t.digest, t.image);
    AlignedWindow(s'.device.client.expected, s'.gateway.base, t.Total());
    TotalCovers(|t.image|);
    assert t.image[..|t.image|] == t.image;
  }

  /** Nothing the gateway sent is ever refused for its sequence or size: in every reachable state, any
      copy of any chunk still on the air is acknowledged when it is delivered, and the only way it
      is not is a flash failure, which ends the session. */
  lemma NoSpuriousNack(t: Transfer, s: System, actions: seq<Action>, k: nat, env: ChunkEnv)
    requires t.Valid() && Opened(t, s) && Legal(t, s, actions)
    requires After(t, s, actions).device.client.state == Receiving
    requires Enabled(t, After(t, s, actions), Deliver(k, env))
    ensures k <= UINT32_MAX
    ensures var r := HandleData(After(t, s, actions).device.client, Data(t, k, env));
            || (r.client.state == Receiving && r.responses == [Ack(t.start.session, DataKind, Some(k))])
            || (r.client.state == Failed && env.write != WriteEnv(EspOk, true))
  {
    OpenedAgrees(t, s);
    RunAgrees(t, s, actions);
    TotalFits(t);
    DeliveryIsAcked(t, After(t, s, actions), k, env);
  }

  /** Once the gateway is through, its END passes the size gate, and with a working platform and the
      announced digest it selects exactly the image for boot. */
  lemma EndSelectsTheImage(t: Transfer, s: System, actions: seq<Action>)
    requires t.Valid() && Opened(t, s) && Legal(t, s, actions)
    requires var s' := After(t, s, actions);
             s'.device.client.state == Receiving && s'.gateway.base == t.Total()
    ensures forall finish :: HandleEnd(After(t, s, actions).device.client, t.digest,
                EndPacket(t.start.session, t.start.imageSize, t.start.total, finish)).client.state != Receiving
    ensures var end := EndPacket(t.start.session, t.start.imageSize, t.start.total, FinishEnv(EspOk, true, EspOk));
            var r := HandleEnd(After(t, s, actions).device.client, t.digest, end);
            r.responses == [Ack(t.start.session, EndKind, None)] && r.client.boot == Some(t.image)
            <==> t.digest(t.image) == t.start.sha
  {
    AckedIsHeld(t, s, actions);
    OpenedAgrees(t, s);
    RunAgrees(t, s, actions);
    FinishSound(After(t, s, actions).device.client, t.digest, t.start.session, t.start.imageSize, t.start.total,
                FinishEnv(EspOk, true, EspOk));
  }

  // ---------------------------------------------------------------- the transfer can always finish

  lemma {:induction false} Concat(t: Transfer, s: System, a: seq<Action>, b: seq<Action>)
    requires t.Valid() && Legal(t, s, a) && Legal(t, After(t, s, a), b)
    ensures Legal(t, s, a + b) && After(t, s, a + b) == After(t, After(t, s, a), b)
    decreases |a|
  {
    if a == [] {
      assert a + b == b;
    } else {
      Concat(t, Next(t, s, a[0]), a[1..], b);
      assert (a + b)[1..] == a[1..] + b;
    }
  }

  const WORKING := ChunkEnv(0, WriteEnv(EspOk, true), EspOk)

  lemma Prepend(t: Transfer, s: System, a: Action, rest: seq<Action>)
    requires t.Valid() && Enabled(t, s, a) && Legal(t, Next(t, s, a), rest)
    ensures Legal(t, s, [a] + rest) && After(t, s, [a] + rest) == After(t, Next(t, s, a), rest)
  {
    assert ([a] + rest)[1..] == rest;
  }

  lemma ThreeSteps(t: Transfer, s: System, a: Action, b: Action, c: Action) returns (actions: seq<Action>)
    requires t.Valid() && Enabled(t, s, a) && Enabled(t, Next(t, s, a), b)
    requires Enabled(t, Next(t, Next(t, s, a), b), c)
    ensures Legal(t, s, actions) && After(t, s, actions) == Next(t, Next(t, Next(t, s, a), b), c)
  {
    var s1 := Next(t, s, a);
    var s2 := Next(t, s1, b);
    Prepend(t, s2, c, []);
    Prepend(t, s1, b, [c] + []);
    Prepend(t, s, a, [b] + ([c] + []));
    actions := [a] + ([b] + ([c] + []));
  }

  /** The ACKs of the batch's chunks before `end` have arrived. */
  ghost predicate AckedUpTo(g: Gateway, end: nat) {
    forall k | g.base <= k < end :: k in g.acked
  }

  lemma AckedFurther(g: Gateway, k: nat)
    requires AckedUpTo(g, k)
    ensures AckedUpTo(g.(acked := g.acked + {k}), k + 1)
  {}

  /** One chunk goes over: sent, delivered, acknowledged. */
  lemma ChunkGoesOver(t: Transfer, s: System, k: nat) returns (trip: seq<Action>)
    requires t.Valid() && Agreed(t, s) && s.device.client.state == Receiving && Enabled(t, s, Send(k))
    ensures Legal(t, s, trip)
    ensures var s' := After(t, s, trip);
            && Agreed(t, s') && s'.device.client.state == Receiving
            && s'.gateway == s.gateway.(acked := s.gateway.acked + {k})
  {
    NextAgrees(t, s, Send(k));
    var s1 := Next(t, s, Send(k));
    TotalFits(t);
    DeliveryIsAcked(t, s1, k, WORKING);
    NextAgrees(t, s1, Deliver(k, WORKING));
    NextAgrees(t, Next(t, s1, Deliver(k, WORKING)), AckArrives(k));
    trip := ThreeSteps(t, s, Send(k), Deliver(k, WORKING), AckArrives(k));
  }

  /** The rest of the batch, from chunk k on, goes over. */
  lemma {:induction false} BatchGoesOver(t: Transfer, s: System, k: nat) returns (actions: seq<Action>)
    requires t.Valid() && Agreed(t, s) && s.device.client.state == Receiving
    requires s.gateway.base <= k <= WindowEnd(s.gateway.base, t.Total()) && AckedUpTo(s.gateway, k)
    ensures Legal(t, s, actions)
    ensures var s' := After(t, s, actions);
            && Agreed(t, s') && s'.device.client.state == Receiving && s'.gateway.base == s.gateway.base
            && AckedUpTo(s'.gateway, WindowEnd(s.gateway.base, t.Total()))
    decreases WindowEnd(s.gateway.base, t.Total()) - k
  {
    actions := [];
    if k < WindowEnd(s.gateway.base, t.Total()) {
      var trip := ChunkGoesOver(t, s, k);
      AckedFurther(s.gateway, k);
      var rest := BatchGoesOver(t, After(t, s, trip), k + 1);
      Concat(t, s, trip, rest);
      actions := trip + rest;
    }
  }

  lemma NextBatchBegins(t: Transfer, s: System) returns (actions: seq<Action>)
    requires t.Valid() && Agreed(t, s) && s.device.client.state == Receiving && Enabled(t, s, NextBatch)
    ensures Legal(t, s, actions)
    ensures var s' := After(t, s, actions);
            Agreed(t, s') && s'.device == s.device && s.gateway.base < s'.gateway.base <= t.Total()
  {
    NextAgrees(t, s, NextBatch);
    Prepend(t, s, NextBatch, []);
    actions := [NextBatch] + [];
  }

  /** No reachable state is stuck: from every agreed state some continuation of sends, deliveries and
      ACKs brings the gateway to the end of the image with the device still receiving. */
  lemma {:induction false} CanAlwaysFinish(t: Transfer, s: System) returns (actions: seq<Action>)
    requires t.Valid() && Agreed(t, s) && s.device.client.state == Receiving
    ensures Legal(t, s, actions)
    ensures var s' := After(t, s, actions); s'.gateway.base == t.Total() && s'.device.client.state == Receiving
    decreases t.Total() - s.gateway.base
  {
    actions := [];
    if s.gateway.base < t.Total() {
      var batch := BatchGoesOver(t, s, s.gateway.base);
      var s1 := After(t, s, batch);
      var turn := NextBatchBegins(t, s1);
      var rest := CanAlwaysFinish(t, After(t, s1, turn));
      Concat(t, s1, turn, rest);
      Concat(t, s, batch, turn + rest);
      actions := batch + (turn + rest);
    }
  }

  // ---------------------------------------------------------------- the limit of the guarantee

  /** The device aborts, and then a copy of the same START reaches it. */
  function Reopened(t: Transfer, s: System, abort: EspErr): System {
    s.(device := Advance(Advance(s.device, t.digest, AbortCall(abort)), t.digest, t.start))
  }

  /** The platform can take the START. */
  predicate StartWorks(t: Transfer) {
    && t.start.StartPacket? && t.start.otaMode
    && t.start.begin.partitionSize.Some? && |t.image| <= t.start.begin.partitionSize.value
    && t.start.begin.hashSetupOk && t.start.begin.begin == EspOk
  }

  /** The reopened device collects the first batch from nothing. */
  lemma ReopenedIsEmpty(t: Transfer, s: System, abort: EspErr)
    requires t.Valid() && Agreed(t, s) && s.device.client.state == Receiving && StartWorks(t)
    ensures var aborted := React(s.device.client, t.digest, AbortCall(abort)).client;
            React(aborted, t.digest, t.start).responses == [Ack(t.start.session, StartKind, None)]
    ensures var h := Reopened(t, s, abort).device;
            && Sound(h.client, t.digest) && Faithful(h) && h.log == []
            && h.client.state == Receiving && h.client.session == t.start.session && h.client.sha == t.start.sha
            && h.client.imageSize == |t.image| && h.client.expected == 0 && h.client.cache == Prepared(0, t.Total())
  {
    AdvanceFaithful(s.device, t.digest, AbortCall(abort));
    AdvanceFaithful(Advance(s.device, t.digest, AbortCall(abort)), t.digest, t.start);
  }

  /** The guarantee survives an abort and a repeated START exactly when no DATA was acknowledged before:
      then the reopened device is still in step with the gateway, and so is every run from there.
      Otherwise the device has lost everything that it had acknowledged. */
  lemma AbortKeepsAgreement(t: Transfer, s: System, abort: EspErr)
    requires t.Valid() && Agreed(t, s) && s.device.client.state == Receiving && StartWorks(t)
    ensures Agreed(t, Reopened(t, s, abort)) <==> s.acks == {}
    ensures forall k | k in s.acks :: !Has(Reopened(t, s, abort).device.client, k)
  {
    ReopenedIsEmpty(t, s, abort);
    if s.acks == {} {
      assert s.gateway.base == 0 by {
        assert s.gateway.base > 0 ==> 0 in s.gateway.acked;
      }
    } else {
      var k :| k in s.acks;
      assert !Has(Reopened(t, s, abort).device.client, k);
    }
  }

  lemma LaterChunkRefused(t: Transfer, c: Client, k: nat, env: ChunkEnv)
    requires t.Valid() && 5 <= k < t.Total() <= UINT32_MAX
    requires c.state == Receiving && c.session == t.start.session && c.imageSize == |t.image| && c.total == t.Total()
    requires c.expected == 0 && c.cache == Prepared(0, t.Total())
    ensures HandleData(c, Data(t, k, env)).responses ==
            [Nack(t.start.session, DataKind, Some(k), ResultInvalidSequence)]
  {
    ChunkArithmetic(|t.image|, k);
  }

  /** ... and once the gateway is in a later batch, every chunk it sends draws INVALID_SEQUENCE. */
  lemma AbortDesynchronizes(t: Transfer, s: System, abort: EspErr, k: nat, env: ChunkEnv)
    requires t.Valid() && Agreed(t, s) && s.device.client.state == Receiving && StartWorks(t)
    requires 0 < s.gateway.base && Enabled(t, s, Send(k)) && k < t.Total() <= UINT32_MAX
    ensures var aborted := React(s.device.client, t.digest, AbortCall(abort)).client;
            React(aborted, t.digest, t.start).responses == [Ack(t.start.session, StartKind, None)]
    ensures Reopened(t, s, abort).device.client.expected == 0
    ensures HandleData(Reopened(t, s, abort).device.client, Data(t, k, env)).responses ==
            [Nack(t.start.session, DataKind, Some(k), ResultInvalidSequence)]
  {
    ReopenedIsEmpty(t, s, abort);
    LaterChunkRefused(t, Reopened(t, s, abort).device.client, k, env);
  }
}
