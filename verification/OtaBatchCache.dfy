/** The five-chunk batch cache: a bitmask and a flat 5 x 48 byte buffer that stand for a finite map from
    chunk numbers to payloads. */
module OtaBatchCache {
  import opened CTypes
  import opened OtaWriter

  type Bytes = seq<uint8>

  // ---------------------------------------------------------------- specification

  /** The chunks base .. base + count - 1 belong to the batch; `stored` holds the received ones. */
  datatype Batch = Batch(base: nat, count: nat, stored: map<nat, Bytes>)
  {
    predicate Wanted(sequence: nat) {
      base <= sequence < base + count
    }

    ghost predicate Complete() {
      count != 0 && forall k | Wanted(k) :: k in stored
    }
  }

  function BatchCount(base: nat, total: nat): nat {
    if base >= total then 0 else Min(total - base, 5)
  }

  function Prepared(base: nat, total: nat): Batch {
    Batch(base, BatchCount(base, total), map[])
  }

  datatype StoreStatus = Stored | Duplicate | Refused(error: EspErr)

  function StoreStatusOf(b: Batch, sequence: nat, data: Bytes): StoreStatus {
    if |data| == 0 || |data| > 48 then Refused(InvalidArg)
    else if b.count == 0 || sequence < b.base then Refused(InvalidState)
    else if !b.Wanted(sequence) then Refused(InvalidArg)
    else if sequence in b.stored then Duplicate
    else Stored
  }

  function Store(b: Batch, sequence: nat, data: Bytes): Batch {
    if StoreStatusOf(b, sequence, data) == Stored then b.(stored := b.stored[sequence := data]) else b
  }

  /** Concatenation, in order, of the payloads lo .. hi - 1. */
  function Joined(m: map<nat, Bytes>, lo: nat, hi: nat): Bytes
    requires forall k | lo <= k < hi :: k in m
    decreases hi
  {
    if hi <= lo then [] else Joined(m, lo, hi - 1) + m[hi - 1]
  }

  lemma {:induction false} JoinedSplits(m: map<nat, Bytes>, lo: nat, mid: nat, hi: nat)
    requires lo <= mid <= hi && forall k | lo <= k < hi :: k in m
    ensures Joined(m, lo, hi) == Joined(m, lo, mid) + Joined(m, mid, hi)
    decreases hi
  {
    if mid < hi {
      JoinedSplits(m, lo, mid, hi - 1);
    }
  }

  lemma {:induction false} JoinedAgrees(m: map<nat, Bytes>, m': map<nat, Bytes>, lo: nat, hi: nat)
    requires forall k | lo <= k < hi :: k in m && k in m' && m[k] == m'[k]
    ensures Joined(m, lo, hi) == Joined(m', lo, hi)
    decreases hi
  {
    if lo < hi {
      JoinedAgrees(m, m', lo, hi - 1);
    }
  }

  /** Full chunks everywhere but at the very end: what lets a flat buffer hold the batch. */
  predicate FlatSizes(b: Batch) {
    forall k | k in b.stored ::
      0 < |b.stored[k]| <= 48 && (k + 1 < b.base + b.count ==> |b.stored[k]| == 48)
  }

  // ---------------------------------------------------------------- the bitmask

  /** 1U << i */
  function Bit(i: nat): bv8
    requires i < 8
  {
    if i == 0 then 1 else if i == 1 then 2 else if i == 2 then 4 else if i == 3 then 8
    else if i == 4 then 16 else if i == 5 then 32 else if i == 6 then 64 else 128
  }

  predicate HasBit(mask: bv8, i: nat)
    requires i < 8
  {
    mask & Bit(i) != 0
  }

  function RequiredMask(count: nat): bv8
    requires count <= 5
  {
    if count == 0 then 0 else Bit(count) - 1
  }

  lemma BitSet(mask: bv8, i: nat)
    requires i < 8
    ensures forall j | 0 <= j < 8 :: HasBit(mask | Bit(i), j) <==> HasBit(mask, j) || j == i
  {
    forall j | 0 <= j < 8
      ensures HasBit(mask | Bit(i), j) <==> HasBit(mask, j) || j == i
    {
      var b, c := Bit(i), Bit(j);
      assert (mask | b) & c == (mask & c) | (b & c);
      assert (mask & c) | (b & c) != 0 <==> mask & c != 0 || b & c != 0;
    }
  }

  lemma MaskMissing(mask: bv8, count: nat)
    requires count <= 5
    ensures var missing := RequiredMask(count) & !mask;
            && (forall i | 0 <= i < 8 :: HasBit(missing, i) <==> i < count && !HasBit(mask, i))
            && (missing == 0 <==> forall i | 0 <= i < count :: HasBit(mask, i))
  {
    var missing := RequiredMask(count) & !mask;
    forall i | 0 <= i < 8
      ensures HasBit(missing, i) <==> i < count && !HasBit(mask, i)
    {
      MissingBit(mask, count, i);
    }
    if forall i | 0 <= i < count :: HasBit(mask, i) {
      assert !HasBit(missing, 0) && !HasBit(missing, 1) && !HasBit(missing, 2) && !HasBit(missing, 3);
      assert !HasBit(missing, 4) && !HasBit(missing, 5) && !HasBit(missing, 6) && !HasBit(missing, 7);
      NoBits(missing);
    } else {
      var i :| 0 <= i < count && !HasBit(mask, i);
      assert HasBit(missing, i);
    }
  }

  lemma NoBits(x: bv8)
    requires x & 1 == 0 && x & 2 == 0 && x & 4 == 0 && x & 8 == 0
    requires x & 16 == 0 && x & 32 == 0 && x & 64 == 0 && x & 128 == 0
    ensures x == 0
  {}

  lemma MissingBit(mask: bv8, count: nat, i: nat)
    requires count <= 5 && i < 8
    ensures HasBit(RequiredMask(count) & !mask, i) <==> i < count && !HasBit(mask, i)
  {
    var r, b := RequiredMask(count), Bit(i);
    assert (r & !mask) & b == (r & b) & !(mask & b);
    assert r & b == if i < count then b else 0;
    assert mask & b == 0 || mask & b == b;
    assert b & !b == 0 && b & !0 == b;
  }

  // ---------------------------------------------------------------- the cache object

  class BatchCache {
    var baseSequence: uint32
    var chunkCount: uint8
    var receivedMask: bv8
    const lengths: array<uint8>
    const data: array<uint8>
    ghost var stored: map<nat, Bytes>   // what mask, lengths and data stand for

    ghost function Repr(): set<object> {
      {this, lengths, data}
    }

    ghost predicate Shaped()
      reads this`chunkCount
    {
      lengths.Length == 5 && data.Length == 240 && chunkCount <= 5
    }

    /** Bit i of the mask says whether chunk base + i is stored. */
    ghost predicate MaskAgrees()
      reads this
    {
      forall i {:trigger HasBit(receivedMask, i)} | 0 <= i < 8 ::
        HasBit(receivedMask, i) <==> baseSequence + i in stored
    }

    /** Slot k - base of the buffer holds chunk k. */
    ghost predicate SlotAgrees(k: nat)
      requires Shaped() && k in stored
      reads this`baseSequence, this`chunkCount, this`stored, lengths, data
    {
      && baseSequence <= k < baseSequence + chunkCount
      && var i := k - baseSequence;
         && 0 < lengths[i] <= 48
         && stored[k] == data[48 * i..48 * i + lengths[i]]
    }

    ghost predicate BufferAgrees()
      reads this`baseSequence, this`chunkCount, this`stored, lengths, data
    {
      Shaped() && forall k {:trigger SlotAgrees(k)} | k in stored :: SlotAgrees(k)
    }

    ghost predicate Valid()
      reads Repr()
    {
      BufferAgrees() && MaskAgrees()
    }

    ghost function View(): Batch
      reads this
    {
      Batch(baseSequence, chunkCount, stored)
    }

    /** A zero-filled cache. */
    constructor ()
      ensures Valid() && View() == Batch(0, 0, map[]) && fresh(Repr())
    {
      baseSequence, chunkCount, receivedMask := 0, 0, 0;
      lengths := new uint8[5](_ => 0);
      data := new uint8[240](_ => 0);
      stored := map[];
    }

    method Prepare(base: uint32, total: uint32)
      requires Shaped()
      modifies Repr()
      ensures Valid() && View() == Prepared(base, total)
    {
      receivedMask := 0;
      stored := map[];
      forall i | 0 <= i < lengths.Length {
        lengths[i] := 0;
      }
      forall i | 0 <= i < data.Length {
        data[i] := 0;
      }
      baseSequence := base;
      chunkCount := 0;
      if base >= total {
        return;
      }
      var remaining := total - base;
      chunkCount := if remaining < 5 then remaining else 5;
    }

    method StoreChunk(sequence: uint32, payload: Bytes) returns (status: StoreStatus)
      requires Valid()
      modifies Repr()
      ensures Valid()
      ensures status == StoreStatusOf(old(View()), sequence, payload)
      ensures View() == Store(old(View()), sequence, payload)
    {
      if |payload| == 0 || |payload| > 48 {
        return Refused(InvalidArg);
      }
      if chunkCount == 0 || sequence < baseSequence {
        return Refused(InvalidState);
      }
      var index := sequence - baseSequence;
      if index >= chunkCount {
        return Refused(InvalidArg);
      }
      var bit := Bit(index);
      var duplicate := receivedMask & bit != 0;
      assert duplicate <==> sequence in stored by {
        assert HasBit(receivedMask, index) <==> duplicate;
      }
      if duplicate {
        return Duplicate;
      }
      Fill(sequence, payload);
      Mark(index);
      status := Stored;
    }

    /** The memcpy into the chunk's slot and its length. */
    method Fill(sequence: uint32, payload: Bytes)
      requires BufferAgrees()
      requires baseSequence <= sequence < baseSequence + chunkCount
      requires sequence !in stored && 0 < |payload| <= 48
      modifies lengths, data, this`stored
      ensures BufferAgrees()
      ensures stored == old(stored)[sequence := payload]
    {
      var index := sequence - baseSequence;
      ghost var before := data[..];
      CopyIn(index, payload);
      stored := stored[sequence := payload];
      assert SlotAgrees(sequence);
      forall k | k in stored && k != sequence
        ensures SlotAgrees(k)
      {
        var i := k - baseSequence;
        assert k in old(stored) && old(SlotAgrees(k));
        OtherSlotKept(before, data[..], index, i, lengths[i]);
        assert data[..][48 * i..48 * i + lengths[i]] == data[48 * i..48 * i + lengths[i]];
      }
    }

    method CopyIn(index: nat, payload: Bytes)
      requires Shaped() && index < 5 && 0 < |payload| <= 48
      modifies lengths, data
      ensures lengths[index] == |payload| && data[48 * index..48 * index + |payload|] == payload
      ensures forall i | 0 <= i < 5 && i != index :: lengths[i] == old(lengths[i])
      ensures forall j | 0 <= j < 48 * index || 48 * index + 48 <= j < 240 :: data[j] == old(data[j])
    {
      forall j | 0 <= j < |payload| {
        data[48 * index + j] := payload[j];
      }
      lengths[index] := |payload|;
    }

    lemma OtherSlotKept(before: Bytes, after: Bytes, index: nat, i: nat, n: nat)
      requires |before| == |after| == 240 && i < 5 && index < 5 && i != index && n <= 48
      requires forall j | 0 <= j < 48 * index || 48 * index + 48 <= j < 240 :: before[j] == after[j]
      ensures before[48 * i..48 * i + n] == after[48 * i..48 * i + n]
    {}

    /** received_mask |= bit, once the chunk is in place. */
    method Mark(index: nat)
      requires index < 8 && baseSequence + index in stored
      requires forall i {:trigger HasBit(receivedMask, i)} | 0 <= i < 8 && i != index ::
                 HasBit(receivedMask, i) <==> baseSequence + i in stored
      modifies this`receivedMask
      ensures MaskAgrees()
    {
      BitSet(receivedMask, index);
      ghost var before := receivedMask;
      receivedMask := receivedMask | Bit(index);
      forall i | 0 <= i < 8
        ensures HasBit(receivedMask, i) <==> baseSequence + i in stored
      {
        var was := HasBit(before, i);
      }
    }

    method MissingMask() returns (missing: bv8)
      requires Valid()
      ensures forall i {:trigger HasBit(missing, i)} | 0 <= i < 8 ::
                HasBit(missing, i) <==> i < chunkCount && baseSequence + i !in stored
      ensures missing == 0 <==> forall k | View().Wanted(k) :: k in stored
    {
      missing := RequiredMask(chunkCount) & !receivedMask;
      MaskMissing(receivedMask, chunkCount);
      forall i | 0 <= i < 8
        ensures HasBit(receivedMask, i) <==> baseSequence + i in stored
      {}
      if forall k | View().Wanted(k) :: k in stored {
        forall i | 0 <= i < chunkCount
          ensures HasBit(receivedMask, i)
        {
          assert View().Wanted(baseSequence + i);
        }
      } else {
        var k: nat :| View().Wanted(k) && k !in stored;
        assert !HasBit(receivedMask, k - baseSequence);
      }
    }

    method IsComplete() returns (complete: bool)
      requires Valid()
      ensures complete <==> View().Complete()
    {
      var missing := MissingMask();
      complete := chunkCount != 0 && missing == 0;
    }

    /** Writes a complete batch with one call of the flash writer. The size error cannot happen when
        every chunk but the image's last is full, and then the flat buffer handed to the writer is
        exactly the in-order concatenation of the stored chunks. */
    method Commit(writer: FlashWriter, env: WriteEnv) returns (err: EspErr, written: nat)
      requires Valid() && writer !in Repr()
      modifies writer
      ensures Valid()
      ensures !View().Complete() ==> err == InvalidState && writer.View() == old(writer.View())
      ensures View().Complete() && !FlatSizes(View()) ==>
                err == InvalidSize && writer.View() == old(writer.View())
      ensures View().Complete() && FlatSizes(View()) ==>
                var flat := Joined(stored, baseSequence, baseSequence + chunkCount);
                && WriterStep(writer.View(), err) == Write(old(writer.View()), flat, env)
                && (err == EspOk ==> written == |flat|)
    {
      written := 0;
      var complete := IsComplete();
      if !complete {
        return InvalidState, 0;
      }
      var flat, size := BatchBytes();
      if !flat {
        return InvalidSize, 0;
      }
      err := writer.WriteBytes(data[..size], env);
      if err == EspOk {
        written := size;
      }
    }

    /** The length check over the slots and the byte count of the batch. */
    method BatchBytes() returns (flat: bool, size: nat)
      requires BufferAgrees() && View().Complete()
      ensures flat <==> FlatSizes(View())
      ensures flat ==> size <= data.Length
      ensures (forall k | baseSequence <= k < baseSequence + chunkCount :: k in stored)
      ensures flat ==> data[..size] == Joined(stored, baseSequence, baseSequence + chunkCount)
    {
      size := 0;
      var i := 0;
      while i < chunkCount
        invariant 0 <= i <= chunkCount
        invariant forall k | 0 <= k < i && k + 1 < chunkCount :: lengths[k] == 48
        invariant size == if i == 0 then 0 else 48 * (i - 1) + lengths[i - 1]
      {
        CompleteSlot(i);
        if lengths[i] == 0 || (i + 1 < chunkCount && lengths[i] != 48) {
          assert |stored[baseSequence + i]| == lengths[i];
          CompleteBatch();
          return false, size;
        }
        size := size + lengths[i];
        i := i + 1;
      }
      CompleteBatch();
      FlatBuffer();
      flat := true;
    }

    lemma CompleteSlot(i: nat)
      requires BufferAgrees() && View().Complete() && i < chunkCount
      ensures baseSequence + i in stored && |stored[baseSequence + i]| == lengths[i] && 0 < lengths[i] <= 48
    {
      assert View().Wanted(baseSequence + i);
      assert SlotAgrees(baseSequence + i);
    }

    lemma CompleteBatch()
      requires View().Complete()
      ensures forall k | baseSequence <= k < baseSequence + chunkCount :: k in stored
    {
      assert forall k | baseSequence <= k < baseSequence + chunkCount :: View().Wanted(k);
    }

    /** The first i slots of a complete, flat batch are contiguous in the buffer. */
    lemma {:induction false} FlatPrefix(i: nat)
      requires BufferAgrees() && i < chunkCount
      requires forall k | baseSequence <= k < baseSequence + chunkCount :: k in stored
      requires forall k | 0 <= k < chunkCount && k + 1 < chunkCount :: lengths[k] == 48
      ensures data[..48 * i] == Joined(stored, baseSequence, baseSequence + i)
    {
      if i != 0 {
        FlatPrefix(i - 1);
        assert SlotAgrees(baseSequence + (i - 1));
        assert data[..48 * i] ==
               data[..48 * (i - 1)] + data[48 * (i - 1)..48 * (i - 1) + lengths[i - 1]];
      }
    }

    lemma FlatBuffer()
      requires BufferAgrees() && 0 < chunkCount
      requires forall k | baseSequence <= k < baseSequence + chunkCount :: k in stored
      requires forall k | 0 <= k < chunkCount && k + 1 < chunkCount :: lengths[k] == 48
      ensures FlatSizes(View())
      ensures lengths[chunkCount - 1] <= 48
      ensures data[..48 * (chunkCount - 1) + lengths[chunkCount - 1]]
              == Joined(stored, baseSequence, baseSequence + chunkCount)
    {
      var last := chunkCount - 1;
      FlatPrefix(last);
      assert SlotAgrees(baseSequence + last);
      assert data[..48 * last + lengths[last]] ==
             data[..48 * last] + data[48 * last..48 * last + lengths[last]];
      forall k | k in stored
        ensures 0 < |stored[k]| <= 48
        ensures k + 1 < baseSequence + chunkCount ==> |stored[k]| == 48
      {
        assert SlotAgrees(k);
      }
    }
  }
}
