/** One client's read loop over the shared buffer: what a round hands to the client. */
module MediaStream {
  import opened Basics
  import opened RingLog
  import opened Coordinator
  import opened Protocol

  /** A client that takes `accepts` more writes; the one after fails, `partial` bytes into it. */
  class StreamClient {
    var received: Bytes
    var accepts: nat
    var partial: nat

    method Write(data: Bytes) returns (ok: bool)
      modifies this
      ensures ok <==> 0 < old(accepts)
      ensures ok ==> received == old(received) + data && accepts == old(accepts) - 1 && partial == old(partial)
      ensures !ok ==> received == old(received) + data[..Min(old(partial), |data|)]
    {
      if accepts == 0 {
        received := received + data[..Min(partial, |data|)];
        return false;
      }
      received, accepts := received + data, accepts - 1;
      return true;
    }
  }

  /** The bytes of the first `i` blocks. */
  function FlattenTo(blocks: seq<Bytes>, i: nat): Bytes
    requires i <= |blocks|
  {
    if i == 0 then [] else FlattenTo(blocks, i - 1) + blocks[i - 1]
  }

  /** The bytes a reader has been given. */
  function BytesOf(rd: Reader): Bytes {
    Flatten(DataOf(rd.got))
  }

  lemma {:induction false} FlattenToIs(blocks: seq<Bytes>, i: nat)
    requires i <= |blocks|
    ensures FlattenTo(blocks, i) == Flatten(blocks[..i])
  {
    if i == 0 {
    } else {
      FlattenToIs(blocks, i - 1);
      FlattenConcat(blocks[..i - 1], [blocks[i - 1]]);
      assert blocks[..i] == blocks[..i - 1] + [blocks[i - 1]];
      assert [blocks[i - 1]][1..] == [];
    }
  }

  lemma {:induction false} PayloadsAreData(es: seq<Entry>)
    ensures forall i | 0 <= i < |Payloads(es)| :: Payloads(es)[i] != []
  {
    if es == [] {
    } else {
      PayloadsAreData(es[1..]);
    }
  }

  /** A read that collects adds the data of the walk's entries, and ends with their last error. */
  lemma ReadAdds(r: Ring, state: State, rd: Reader, from: nat, next: Reader, w: seq<Slot>)
    requires WellFormed(r) && rd.at < |r.slots| && from == Start(r, rd).0 && from < |r.slots| && !(from == r.pos && state == Active)
    requires next == ReadOnce(r, state, rd) && w == Window(r, from)
    ensures next.got == rd.got + Deliveries(w) && DataOf(next.got) == DataOf(rd.got) + Payloads(Entries(w))
    ensures |Deliveries(w)| == |Payloads(Entries(w))|
    ensures next.at == r.pos && !next.waiting
    ensures var fault := LastFault(Entries(w));
      next.outcome == if fault.Some? then Ended(fault.value) else rd.outcome
  {
    DeliveriesArePayloads(w);
    assert DataOf(rd.got + Deliveries(w)) == DataOf(rd.got) + DataOf(Deliveries(w));
    assert |DataOf(Deliveries(w))| == |Deliveries(w)|;
  }

  /** What a reader has after `served` of the blocks that a read adds. */
  lemma ServedBytes(rd: Reader, ds: seq<Delivery>, blocks: seq<Bytes>, served: nat, kept: Reader)
    requires blocks == DataOf(ds) && kept.got == (rd.got + ds)[..Min(|rd.got + ds|, |rd.got| + served)]
    ensures BytesOf(kept) == BytesOf(rd) + FlattenTo(blocks, Min(served, |blocks|))
  {
    var n := Min(served, |blocks|);
    FlattenToIs(blocks, n);
    assert kept.got == rd.got + ds[..n];
    assert DataOf(kept.got) == DataOf(rd.got) + blocks[..n];
    FlattenConcat(DataOf(rd.got), blocks[..n]);
  }

  lemma ReadCut(r: Ring, state: State, rd: Reader, accepts: nat, next: Reader, dropped: Reader)
    requires WellFormed(r) && rd.at < |r.slots| && next == ReadOnce(r, state, rd)
    requires dropped == ReadThenDropped(r, state, rd, accepts)
    ensures dropped.got == next.got[..Min(|next.got|, |rd.got| + accepts)]
  {
  }

  /** The bytes a reader has after a read, and after one that was cut short by its client. */
  lemma ReadBytes(r: Ring, state: State, rd: Reader, from: nat, accepts: nat, next: Reader, dropped: Reader, blocks: seq<Bytes>)
    requires WellFormed(r) && rd.at < |r.slots| && from == Start(r, rd).0 && from < |r.slots| && !(from == r.pos && state == Active)
    requires next == ReadOnce(r, state, rd) && dropped == ReadThenDropped(r, state, rd, accepts)
    requires blocks == Payloads(Entries(Window(r, from)))
    ensures |next.got| - |rd.got| == |blocks|
    ensures BytesOf(next) == BytesOf(rd) + FlattenTo(blocks, |blocks|)
    ensures BytesOf(dropped) == BytesOf(rd) + FlattenTo(blocks, Min(accepts, |blocks|))
  {
    var w := Window(r, from);
    var ds := Deliveries(w);
    ReadAdds(r, state, rd, from, next, w);
    DeliveriesArePayloads(w);
    ReadCut(r, state, rd, accepts, next, dropped);
    ServedBytes(rd, ds, blocks, accepts, dropped);
    ServedBytes(rd, ds, blocks, |blocks|, next);
  }

  /** What a round leaves a client with that had `given` before it. */
  lemma RoundBytes(r: Ring, state: State, rd: Reader, from: nat, accepts: nat, next: Reader, dropped: Reader,
                   blocks: seq<Bytes>, before: Bytes, given: Bytes)
    requires WellFormed(r) && rd.at < |r.slots| && from == Start(r, rd).0 && from < |r.slots| && !(from == r.pos && state == Active)
    requires next == ReadOnce(r, state, rd) && dropped == ReadThenDropped(r, state, rd, accepts)
    requires blocks == Payloads(Entries(Window(r, from))) && given == before + BytesOf(rd)
    ensures |next.got| - |rd.got| == |blocks|
    ensures before + BytesOf(next) == given + FlattenTo(blocks, |blocks|)
    ensures before + BytesOf(dropped) == given + FlattenTo(blocks, Min(accepts, |blocks|))
    ensures |BytesOf(next)| == |BytesOf(rd)| + |FlattenTo(blocks, |blocks|)|
    ensures |BytesOf(dropped)| == |BytesOf(rd)| + |FlattenTo(blocks, Min(accepts, |blocks|))|
  {
    ReadBytes(r, state, rd, from, accepts, next, dropped, blocks);
    Regroup(before, BytesOf(rd), FlattenTo(blocks, |blocks|));
    Regroup(before, BytesOf(rd), FlattenTo(blocks, Min(accepts, |blocks|)));
  }

  /** A round that is served, and one that loses its client, are steps of the protocol. */
  lemma RoundIsStep(s: Sys, h: nat, accepts: nat)
    requires WellFormed(s.ring) && CanPoll(s, h)
    ensures Step(s, Poll(h)) == s.(readers := s.readers[h := ReadOnce(s.ring, s.state, s.readers[h])])
    ensures Step(s, PollThenDrop(h, accepts))
         == s.(readers := s.readers[h := ReadThenDropped(s.ring, s.state, s.readers[h], accepts)])
  {
  }

  /**
    A client's read loop. `lastPosition` is where its current or next read starts, and `waiting` says that
    the read is blocked. The ghost `reader` is the same loop in the protocol.
   */
  class StreamHandler {
    const coordinator: StreamCoordinator
    const client: StreamClient
    var lastPosition: nat
    var waiting: bool
    var bytesWritten: nat
    ghost var reader: Reader
    ghost const before: Bytes

    /** The client was given exactly what the protocol's reader was; the bytes written count it. */
    ghost predicate Tracks()
      reads this, client
    {
      && (reader.outcome == Reading ==> reader.at == lastPosition && reader.waiting == waiting)
      && bytesWritten == |BytesOf(reader)|
      && before + BytesOf(reader) <= client.received
      && (reader.outcome != Dropped ==> client.received == before + BytesOf(reader))
    }

    ghost predicate Valid()
      reads this, client, coordinator, coordinator.pool, coordinator.pool.chunks, coordinator.pool.free, coordinator.slots
      reads coordinator.RingBuffers()
    {
      coordinator.Valid() && lastPosition < |coordinator.slots| && Tracks()
    }

    constructor (coordinator: StreamCoordinator, client: StreamClient)
      requires coordinator.Valid()
      ensures Valid() && this.coordinator == coordinator && this.client == client && before == client.received
      ensures var r := coordinator.ring;
        reader == Reader(Prev(r.pos, |r.slots|), r.writeSeq - 1, r.writeSeq - 1, false, [], Reading)
    {
      this.coordinator, this.client := coordinator, client;
      lastPosition, waiting, bytesWritten := Prev(coordinator.pos, |coordinator.slots|), false, 0;
      before := client.received;
      var r := coordinator.ring;
      reader := Reader(Prev(r.pos, |r.slots|), r.writeSeq - 1, r.writeSeq - 1, false, [], Reading);
    }

    /** The buffers a reader's chunks may hold while they are sent: their own, and pooled ones. */
    ghost function Known(chunks: seq<ChunkData>): set<ByteBuffer?>
      reads coordinator.pool, chunks
    {
      coordinator.pool.free + set c | c in chunks :: c.buffer
    }

    /** The chunks may hold buffers, and are not in the ring. */
    ghost predicate Own(chunks: seq<ChunkData>)
      reads coordinator.pool
    {
      forall c | c in chunks :: c in coordinator.pool.chunks && c !in coordinator.slots
    }

    /** The chunks from `i` on are the reader's own and still hold their blocks. */
    ghost predicate Unsent(chunks: seq<ChunkData>, blocks: seq<Bytes>, i: nat)
      reads coordinator, coordinator.pool, chunks, set c | c in chunks :: c.buffer
    {
      && |chunks| == |blocks| && Own(chunks)
      && (forall j, k | 0 <= j < k < |chunks| :: chunks[j] != chunks[k])
      && (forall j | i <= j < |chunks| :: chunks[j].buffer != null && chunks[j].AsEntry() == Entry(blocks[j], None, 0))
    }

    /** Recycling chunk `i` does not touch the others. */
    method RecycleAt(chunks: seq<ChunkData>, ghost blocks: seq<Bytes>, i: nat, keep: bool)
      requires coordinator.Valid() && i < |chunks| && Unsent(chunks, blocks, i)
      modifies chunks[i], coordinator.pool`free, chunks[i].buffer
      ensures coordinator.Valid() && Unsent(chunks, blocks, i + 1)
      ensures forall b | b in Known(chunks) :: b in old(Known(chunks)) || fresh(b)
    {
      coordinator.Recycle(chunks[i], keep);
    }

    /** Writes a block to the client and counts it. */
    method WriteBlock(data: Bytes) returns (ok: bool)
      modifies this`bytesWritten, client
      ensures ok <==> 0 < old(client.accepts)
      ensures ok ==> client.received == old(client.received) + data && client.accepts == old(client.accepts) - 1
      ensures bytesWritten == if ok then old(bytesWritten) + |data| else old(bytesWritten)
      ensures old(client.received) <= client.received
    {
      ok := client.Write(data);
      if ok {
        bytesWritten := bytesWritten + |data|;
      }
    }

    /** Writes chunk `i` to the client, counts it and recycles it. */
    method Send(chunks: seq<ChunkData>, ghost blocks: seq<Bytes>, i: nat, keep: bool) returns (ok: bool)
      requires coordinator.Valid() && i < |chunks| && Unsent(chunks, blocks, i) && blocks[i] != []
      modifies this`bytesWritten, client, chunks[i], coordinator.pool`free, chunks[i].buffer
      ensures coordinator.Valid() && Unsent(chunks, blocks, if ok then i + 1 else i)
      ensures forall b | b in Known(chunks) :: b in old(Known(chunks)) || fresh(b)
      ensures ok <==> 0 < old(client.accepts)
      ensures ok ==> client.received == old(client.received) + blocks[i] && client.accepts == old(client.accepts) - 1
      ensures bytesWritten == if ok then old(bytesWritten) + |blocks[i]| else old(bytesWritten)
      ensures old(client.received) <= client.received
    {
      ok := true;
      var data := chunks[i].buffer.bytes;
      if |data| > 0 {
        ok := WriteBlock(data);
      }
      if ok {
        RecycleAt(chunks, blocks, i, keep);
      }
    }

    /** After `start` and `count`, the client has been written the first `i` blocks and they have been counted. */
    ghost predicate Written(start: Bytes, count: nat, blocks: seq<Bytes>, i: nat)
      reads this, client
      requires i <= |blocks|
    {
      client.received == start + FlattenTo(blocks, i) && bytesWritten == count + |FlattenTo(blocks, i)|
    }

    /** The same, but the client may have been given a part of the next block, which is not counted. */
    ghost predicate CutShort(start: Bytes, count: nat, blocks: seq<Bytes>, i: nat)
      reads this, client
      requires i <= |blocks|
    {
      start + FlattenTo(blocks, i) <= client.received && bytesWritten == count + |FlattenTo(blocks, i)|
    }

    /** The first `i` chunks have been sent, to a client that took `accepts` writes when it began. */
    ghost predicate Sending(chunks: seq<ChunkData>, blocks: seq<Bytes>, i: nat, start: Bytes, count: nat, accepts: nat)
      reads this, client, coordinator, coordinator.pool, chunks, set c | c in chunks :: c.buffer
    {
      && i <= |chunks| && i <= accepts && client.accepts == accepts - i
      && Unsent(chunks, blocks, i) && Written(start, count, blocks, i)
    }

    /** Sends chunk `i` after those before it. */
    method SendNext(chunks: seq<ChunkData>, ghost blocks: seq<Bytes>, i: nat, keep: bool,
                    ghost start: Bytes, ghost count: nat, ghost accepts: nat) returns (ok: bool)
      requires coordinator.Valid() && i < |chunks| && Sending(chunks, blocks, i, start, count, accepts) && blocks[i] != []
      modifies this`bytesWritten, client, chunks[i], coordinator.pool`free, chunks[i].buffer
      ensures coordinator.Valid()
      ensures forall b | b in Known(chunks) :: b in old(Known(chunks)) || fresh(b)
      ensures ok ==> Sending(chunks, blocks, i + 1, start, count, accepts)
      ensures !ok ==> i == accepts && CutShort(start, count, blocks, i)
    {
      Regroup(start, FlattenTo(blocks, i), blocks[i]);
      ok := Send(chunks, blocks, i, keep);
    }

    /** Writes the chunks in order until the client fails; `sent` of them were written. */
    method SendAll(chunks: seq<ChunkData>, ghost blocks: seq<Bytes>, keep: bool) returns (ok: bool, ghost sent: nat)
      requires coordinator.Valid() && Unsent(chunks, blocks, 0)
      requires forall i | 0 <= i < |blocks| :: blocks[i] != []
      modifies this`bytesWritten, client, chunks, coordinator.pool`free, Known(chunks)
      ensures coordinator.Valid()
      ensures forall b | b in Known(chunks) :: b in old(Known(chunks)) || fresh(b)
      ensures if ok then sent == |blocks| <= old(client.accepts) else sent == old(client.accepts) < |blocks|
      ensures if ok then Written(old(client.received), old(bytesWritten), blocks, sent)
              else CutShort(old(client.received), old(bytesWritten), blocks, sent)
    {
      ghost var start, count, accepts := client.received, bytesWritten, client.accepts;
      sent := 0;
      for i := 0 to |chunks|
        invariant sent == i && coordinator.Valid() && Sending(chunks, blocks, i, start, count, accepts)
        invariant forall b | b in Known(chunks) :: b in old(Known(chunks)) || fresh(b)
      {
        ok := SendNext(chunks, blocks, i, keep, start, count, accepts);
        if !ok {
          return;
        }
        sent := i + 1;
      }
      ok := true;
    }

    /** Resets all the chunks of a dropped client. */
    method RecycleAll(chunks: seq<ChunkData>, keep: bool)
      requires coordinator.Valid() && Own(chunks)
      modifies chunks, coordinator.pool`free, Known(chunks)
      ensures coordinator.Valid()
    {
      for i := 0 to |chunks|
        invariant coordinator.Valid()
        invariant forall b | b in Known(chunks) :: b in old(Known(chunks)) || fresh(b)
      {
        coordinator.Recycle(chunks[i], keep);
      }
    }

    /** Writes the chunks in order until the client fails, and recycles them. */
    method Deliver(chunks: seq<ChunkData>, ghost blocks: seq<Bytes>, keep: bool) returns (ok: bool)
      requires coordinator.Valid() && Unsent(chunks, blocks, 0)
      requires forall i | 0 <= i < |blocks| :: blocks[i] != []
      modifies this`bytesWritten, client, chunks, coordinator.pool`free, Known(chunks)
      ensures coordinator.Valid()
      ensures ok <==> |blocks| <= old(client.accepts)
      ensures var sent := FlattenTo(blocks, Min(old(client.accepts), |blocks|));
        && bytesWritten == old(bytesWritten) + |sent| && old(client.received) + sent <= client.received
        && (ok ==> client.received == old(client.received) + sent)
    {
      ghost var sent;
      ok, sent := SendAll(chunks, blocks, keep);
      if !ok {
        RecycleAll(chunks, keep);
      }
    }

    /** A read from `at` that need not wait, and the writes of what it collected. */
    method Serve(at: nat, keep: bool) returns (ok: bool, fault: Option<Fault>, next: nat)
      requires coordinator.Valid() && at < |coordinator.slots| && !coordinator.MustWait(at)
      modifies this`bytesWritten, client, coordinator.pool, coordinator.pool.free
      ensures coordinator.Valid() && next == coordinator.pos
      ensures var es := Entries(Window(coordinator.ring, at));
        && fault == LastFault(es) && (ok <==> |Payloads(es)| <= old(client.accepts))
        && var sent := FlattenTo(Payloads(es), Min(old(client.accepts), |Payloads(es)|));
           && bytesWritten == old(bytesWritten) + |sent| && old(client.received) + sent <= client.received
           && (ok ==> client.received == old(client.received) + sent)
    {
      ghost var es := Entries(Window(coordinator.ring, at));
      PayloadsAreData(es);
      var chunks;
      chunks, fault, next := coordinator.Collect(at);
      ok := Deliver(chunks, Payloads(es), keep);
    }

    /** The end of a round: the loop's fields follow the protocol's reader. */
    method Settle(at: nat, waits: bool, ghost now: Reader)
      requires coordinator.Valid() && at < |coordinator.slots|
      requires now.outcome == Reading ==> now.at == at && now.waiting == waits
      requires bytesWritten == |BytesOf(now)| && before + BytesOf(now) <= client.received
      requires now.outcome != Dropped ==> client.received == before + BytesOf(now)
      modifies this`lastPosition, this`waiting, this`reader
      ensures Valid() && reader == now
    {
      lastPosition, waiting, reader := at, waits, now;
    }

    /** The part of a round after the wait. */
    method Finish(at: nat, keep: bool) returns (outcome: Outcome)
      requires Valid() && reader.outcome == Reading && at == Start(coordinator.ring, reader).0
      requires at < |coordinator.slots| && !coordinator.MustWait(at)
      modifies this, client, coordinator.pool, coordinator.pool.free
      ensures Valid() && outcome == reader.outcome
      ensures var next := ReadOnce(coordinator.ring, coordinator.state, old(reader));
        && (outcome == Dropped <==> old(client.accepts) < |next.got| - |old(reader).got|)
        && reader == if outcome != Dropped then next
                     else ReadThenDropped(coordinator.ring, coordinator.state, old(reader), old(client.accepts))
    {
      ghost var r, state, rd, accepts := coordinator.ring, coordinator.state, reader, client.accepts;
      ghost var next, dropped := ReadOnce(r, state, rd), ReadThenDropped(r, state, rd, accepts);
      ghost var blocks := Payloads(Entries(Window(r, at)));
      RoundBytes(r, state, rd, at, accepts, next, dropped, blocks, before, client.received);
      ReadAdds(r, state, rd, at, next, Window(r, at));
      var ok, fault, pos := Serve(at, keep);
      outcome := if !ok then Dropped else if fault.Some? then Ended(fault.value) else Reading;
      Settle(if outcome == Reading then pos else lastPosition, false, if ok then next else dropped);
    }

    /**
      One round of the loop, or its part up to the wait or after it. It does to the client exactly what the
      protocol's reader does: it goes to sleep; or every pending block is written, in order, and the loop
      goes on or ends with the last pending error; or the client is dropped at the first write that fails,
      and only the blocks before it count.
     */
    method Round(keep: bool) returns (outcome: Outcome)
      requires Valid() && reader.outcome == Reading
      modifies this, client, coordinator.pool, coordinator.pool.free
      ensures Valid() && outcome == reader.outcome
      ensures var next := ReadOnce(coordinator.ring, coordinator.state, old(reader));
        && (outcome == Dropped <==> old(client.accepts) < |next.got| - |old(reader).got|)
        && reader == if outcome != Dropped then next
                     else ReadThenDropped(coordinator.ring, coordinator.state, old(reader), old(client.accepts))
    {
      var at := lastPosition;
      if !waiting {
        at := coordinator.Locate(Some(lastPosition));
      }
      if coordinator.MustWait(at) {
        outcome := Reading;
        Settle(at, true, ReadOnce(coordinator.ring, coordinator.state, reader));
      } else {
        outcome := Finish(at, keep);
      }
    }
  }
}
