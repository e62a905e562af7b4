/**
  The stream coordinator: pooled byte buffers, chunks, and the ring of chunks one writer fills and
  many readers drain. The ghost field `ring` is the value the heap represents; every method is
  specified by the functions of `RingLog` on that value.
 */
module Coordinator {
  import opened Basics
  import opened RingLog

  class ByteBuffer {
    var bytes: Bytes

    constructor ()
      ensures bytes == []
    {
      bytes := [];
    }
  }

  /** The buffer pool. `chunks` is the set of all chunks that may hold a buffer. */
  class BufferPool {
    var free: set<ByteBuffer>
    ghost var chunks: set<ChunkData>

    constructor ()
      ensures free == {} && chunks == {} && Sound()
    {
      free, chunks := {}, {};
    }

    /** No buffer has two holders, be they chunks or the pool, and pooled buffers are empty. */
    ghost predicate Sound()
      reads this, chunks, free
    {
      && (forall b | b in free :: b.bytes == [])
      && (forall c | c in chunks :: c.buffer !in free)
      && (forall c, d | c in chunks && d in chunks && c != d && c.buffer != null :: c.buffer != d.buffer)
    }

    method Get() returns (b: ByteBuffer)
      requires forall x | x in free :: x.bytes == []
      modifies this`free
      ensures b.bytes == [] && (b in old(free) || fresh(b))
      ensures free == old(free) - {b}
    {
      if free == {} {
        b := new ByteBuffer();
      } else {
        b :| b in free;
        free := free - {b};
      }
    }

    /** The pool empties a buffer and keeps it, or drops it when `keep` is false. */
    method Put(b: ByteBuffer, keep: bool)
      modifies this`free, b
      ensures b.bytes == []
      ensures free == if keep then old(free) + {b} else old(free)
    {
      b.bytes := [];
      if keep {
        free := free + {b};
      }
    }
  }

  class ChunkData {
    var buffer: ByteBuffer?
    var err: Option<Error>
    var status: int
    var stamp: int

    constructor (b: ByteBuffer?)
      ensures buffer == b && err == None && status == 0 && stamp == 0
    {
      buffer, err, status, stamp := b, None, 0, 0;
    }

    function AsEntry(): Entry
      reads this, buffer
    {
      Entry(if buffer == null then [] else buffer.bytes, err, status)
    }

    /** Hands the buffer back to the pool, takes another one and forgets everything else. */
    method Reset(pool: BufferPool, keep: bool)
      requires pool.Sound() && this in pool.chunks
      modifies this, pool`free, buffer
      ensures pool.Sound()
      ensures buffer != null && AsEntry() == BLANK && stamp == 0
      ensures buffer == old(buffer) || buffer in old(pool.free) || fresh(buffer)
      ensures pool.free <= old(pool.free) + {old(buffer)}
    {
      if buffer != null {
        pool.Put(buffer, keep);
      }
      buffer := null;
      buffer := pool.Get();
      err, status, stamp := None, 0, 0;
    }

    /** Takes over another chunk's content and gives it this chunk's buffer in return. */
    method Exchange(other: ChunkData, stamp: int, pool: BufferPool)
      requires pool.Sound() && this in pool.chunks && other in pool.chunks && this != other
      modifies this, other`buffer
      ensures pool.Sound()
      ensures AsEntry() == old(other.AsEntry()) && this.stamp == stamp
      ensures buffer == old(other.buffer) && other.buffer == old(buffer)
    {
      var oldBuffer := buffer;
      buffer := other.buffer;
      other.buffer := oldBuffer;
      err, status, this.stamp := other.err, other.status, stamp;
    }
  }

  method NewChunkData(pool: BufferPool) returns (c: ChunkData)
    requires pool.Sound()
    modifies pool
    ensures pool.Sound() && pool.chunks == old(pool.chunks) + {c}
    ensures pool.free <= old(pool.free)
    ensures fresh(c) && c.buffer != null && c.AsEntry() == BLANK && c.stamp == 0
    ensures c.buffer in old(pool.free) || fresh(c.buffer)
  {
    var b := pool.Get();
    c := new ChunkData(b);
    pool.chunks := pool.chunks + {c};
  }

  class StreamCoordinator {
    const pool: BufferPool
    const slots: seq<ChunkData>
    var pos: nat
    var writeSeq: nat
    var state: State
    var clientCount: int
    var shutdownSignalled: bool
    // The last-error cell holds something from the start: a nil chunk.
    var lastErrorStored: bool
    var lastError: ChunkData?
    ghost var ring: Ring

    /** The buffers the ring holds. */
    function RingBuffers(): set<ByteBuffer?>
      reads slots
    {
      set c | c in slots :: c.buffer
    }

    ghost predicate Represents(r: Ring)
      reads this, slots, RingBuffers()
    {
      && |r.slots| == |slots| && r.pos == pos && r.writeSeq == writeSeq
      && forall i | 0 <= i < |slots| :: r.slots[i] == Slot(slots[i].stamp, slots[i].AsEntry())
    }

    ghost predicate Valid()
      reads this, pool, pool.chunks, pool.free, slots, RingBuffers()
    {
      && 0 < |slots|
      && (forall i, j | 0 <= i < j < |slots| :: slots[i] != slots[j])
      && (forall i | 0 <= i < |slots| :: slots[i] in pool.chunks)
      && pool.Sound()
      && Represents(ring)
      && Inv(ring)
      && lastErrorStored && lastError == null
    }

    constructor (size: nat, pool: BufferPool)
      requires 0 < size && pool.Sound()
      modifies pool
      ensures Valid() && ring == NewRing(size) && state == Active && clientCount == 0
      ensures this.pool == pool
    {
      var ss: seq<ChunkData> := [];
      while |ss| < size
        invariant |ss| <= size && pool.Sound()
        invariant forall i | 0 <= i < |ss| :: fresh(ss[i]) && ss[i] in pool.chunks
        invariant forall i | 0 <= i < |ss| :: ss[i].buffer != null && ss[i].AsEntry() == BLANK && ss[i].stamp == 0
        invariant forall i, j | 0 <= i < j < |ss| :: ss[i] != ss[j]
      {
        var c := NewChunkData(pool);
        ss := ss + [c];
      }
      this.pool, slots := pool, ss;
      pos, writeSeq, state, clientCount := 0, 0, Active, 0;
      shutdownSignalled, lastErrorStored, lastError := false, true, null;
      ring := NewRing(size);
      NewRingInv(size);
    }

    /** Swaps the caller's buffer into the writer's slot, stamps the slot and advances. */
    method SwapIn(chunk: ChunkData)
      requires Valid() && chunk in pool.chunks && chunk !in slots
      modifies this`pos, this`writeSeq, this`ring, slots[pos], chunk`buffer
      ensures Valid() && ring == Put(old(ring), old(chunk.AsEntry()))
      ensures slots[old(pos)].AsEntry() == old(chunk.AsEntry())
      ensures slots[old(pos)].buffer == old(chunk.buffer) && chunk.buffer == old(slots[pos].buffer)
    {
      ghost var e := chunk.AsEntry();
      var current := slots[pos];
      writeSeq := writeSeq + 1;
      current.Exchange(chunk, writeSeq, pool);
      pos := Next(pos, |slots|);
      PutKeepsInv(ring, e);
      ring := Put(ring, e);
    }

    /** The locked section of an accepted write: swap, stamp, advance, note an error. */
    method Swap(chunk: ChunkData)
      requires Valid() && state == Active
      requires chunk in pool.chunks && chunk !in slots
      modifies this`pos, this`writeSeq, this`state, this`ring, this`lastError, slots[pos], chunk`buffer
      ensures Valid()
      ensures ring == Put(old(ring), old(chunk.AsEntry()))
      ensures state == if Terminal(old(chunk.AsEntry())) then Draining else Active
      ensures slots[old(pos)].buffer == old(chunk.buffer) && chunk.buffer == old(slots[pos].buffer)
    {
      var current := slots[pos];
      SwapIn(chunk);
      if current.err.Some? || current.status != 0 {
        lastError := if lastErrorStored then lastError else current;
        state := Draining;
      }
    }

    /** Resetting a chunk that is not in the ring leaves the ring alone. */
    method Recycle(chunk: ChunkData, keep: bool)
      requires Valid() && chunk in pool.chunks && chunk !in slots
      modifies chunk, pool`free, chunk.buffer
      ensures Valid()
      ensures chunk.AsEntry() == BLANK && chunk.buffer != null
      ensures chunk.buffer !in RingBuffers() && chunk.buffer !in pool.free
      ensures chunk.buffer == old(chunk.buffer) || chunk.buffer in old(pool.free) || fresh(chunk.buffer)
      ensures pool.free <= old(pool.free) + {old(chunk.buffer)}
    {
      chunk.Reset(pool, keep);
    }

    /**
      Swaps the caller's buffer into the writer's slot, without copying it, and resets the caller's
      chunk whether or not the write is accepted.
     */
    method Write(chunk: ChunkData?, keep: bool) returns (ok: bool)
      requires Valid()
      requires chunk != null ==> chunk in pool.chunks && chunk !in slots
      modifies this`pos, this`writeSeq, this`state, this`ring, this`lastError, pool`free
      modifies slots[pos], slots[pos].buffer, chunk, if chunk == null then {} else {chunk.buffer}
      ensures Valid()
      ensures ok <==> chunk != null && old(state) == Active
      ensures ok ==> ring == Put(old(ring), old(chunk.AsEntry()))
      ensures ok ==> state == if Terminal(old(chunk.AsEntry())) then Draining else Active
      ensures ok ==> slots[old(pos)].buffer == old(chunk.buffer)
      ensures !ok ==> ring == old(ring) && state == old(state) && slots[pos].buffer == old(slots[pos].buffer)
      ensures chunk != null ==>
        && chunk.AsEntry() == BLANK && chunk.buffer != null
        && chunk.buffer !in RingBuffers() && chunk.buffer !in pool.free
      ensures chunk != null ==>
        chunk.buffer in old({chunk.buffer, slots[pos].buffer} + pool.free) || fresh(chunk.buffer)
    {
      if chunk == null {
        return false;
      }
      if state != Active {
        Recycle(chunk, keep);
        return false;
      }
      Swap(chunk);
      Recycle(chunk, keep);
      return true;
    }

    /** Writes a chunk and resets it once more when it was refused. */
    method Offer(chunk: ChunkData, keep: bool)
      requires Valid() && chunk in pool.chunks && chunk !in slots
      modifies this`pos, this`writeSeq, this`state, this`ring, this`lastError, pool`free
      modifies slots[pos], slots[pos].buffer, chunk, chunk.buffer, pool.free
      ensures Valid()
      ensures ring == if old(state) == Active then Put(old(ring), old(chunk.AsEntry())) else old(ring)
      ensures state == if old(state) == Active && Terminal(old(chunk.AsEntry())) then Draining else old(state)
    {
      var ok := Write(chunk, keep);
      if !ok {
        Recycle(chunk, keep);
      }
    }

    /** A new chunk, in nobody's ring, holding a copy of `data`. */
    method CopyOf(data: Bytes) returns (c: ChunkData)
      requires Valid()
      modifies pool, pool.free
      ensures Valid() && fresh(c)
      ensures pool.chunks == old(pool.chunks) + {c} && pool.free <= old(pool.free)
      ensures c.buffer != null && c.buffer !in RingBuffers() && c.AsEntry() == Entry(data, None, 0)
      ensures c.buffer in old(pool.free) || fresh(c.buffer)
    {
      c := NewChunkData(pool);
      c.buffer.bytes := data;
    }

    /** What the media and the segment writers do with every block of bytes they read. */
    method Feed(data: Bytes, keep: bool)
      requires Valid()
      modifies this`pos, this`writeSeq, this`state, this`ring, this`lastError, pool
      modifies slots[pos], slots[pos].buffer, pool.free
      ensures Valid()
      ensures ring == if old(state) == Active then Put(old(ring), Entry(data, None, 0)) else old(ring)
      ensures state == old(state)
    {
      var chunk := CopyOf(data);
      Offer(chunk, keep);
    }

    method ErrorChunk(err: Option<Error>, status: int) returns (c: ChunkData)
      requires Valid()
      modifies pool, pool.free
      ensures Valid() && fresh(c) && c in pool.chunks && pool.free <= old(pool.free)
      ensures c.buffer != null && c.AsEntry() == Entry([], err, status)
      ensures c.buffer in old(pool.free) || fresh(c.buffer)
    {
      c := CopyOf([]);
      c.err, c.status := err, status;
    }

    method Close()
      requires Valid()
      modifies this`state
      ensures Valid() && state == Closed
    {
      state := Closed;
    }

    /** Offers a terminal chunk and closes the stream, whether or not the chunk was accepted. */
    method WriteError(err: Option<Error>, status: int, keep: bool)
      requires Valid()
      modifies this`pos, this`writeSeq, this`state, this`ring, this`lastError, pool
      modifies slots[pos], slots[pos].buffer, pool.free
      ensures Valid()
      ensures ring == if old(state) == Active then Put(old(ring), Entry([], err, status)) else old(ring)
      ensures state == Closed
    {
      var chunk := ErrorChunk(err, status);
      Offer(chunk, keep);
      Close();
    }

    /** The first locked section of a read: where the walk will start. */
    method Locate(from: Option<nat>) returns (at: nat)
      requires Valid() && (from.Some? ==> from.value < |slots|)
      ensures at < |slots| && at == if from.None? then ring.pos else Jump(ring, from.value)
    {
      at := if from.None? then pos else from.value;
      if slots[at].stamp < writeSeq - |slots| {
        at := pos;
      }
    }

    predicate MustWait(at: nat)
      reads this
    {
      at == pos && state == Active
    }

    /** The chunks are the reader's own, hold exactly the given data, and share no buffer. */
    ghost predicate Copies(chunks: seq<ChunkData>, data: seq<Bytes>)
      reads this, pool, pool.free, slots, RingBuffers(), chunks, set c | c in chunks :: c.buffer
    {
      && |chunks| == |data|
      && (forall i | 0 <= i < |chunks| ::
            && chunks[i] in pool.chunks && chunks[i].buffer != null
            && chunks[i].buffer !in RingBuffers() && chunks[i].buffer !in pool.free
            && chunks[i].AsEntry() == Entry(data[i], None, 0))
      && (forall i, j | 0 <= i < j < |chunks| :: chunks[i] != chunks[j] && chunks[i].buffer != chunks[j].buffer)
    }

    /** One slot of the walk: copy its data if there is any, note its error if it has one. */
    method Visit(i: nat, chunks: seq<ChunkData>, fault: Option<Fault>, ghost seen: seq<Entry>)
        returns (more: seq<ChunkData>, last: Option<Fault>)
      requires Valid() && i < |slots|
      requires Copies(chunks, Payloads(seen)) && fault == LastFault(seen)
      modifies pool, pool.free
      ensures Valid() && pool.free <= old(pool.free)
      ensures Copies(more, Payloads(seen + [ring.slots[i].entry])) && last == LastFault(seen + [ring.slots[i].entry])
      ensures forall c | c in more :: c in chunks || (fresh(c) && (c.buffer in old(pool.free) || fresh(c.buffer)))
    {
      more, last := chunks, fault;
      var chunk := slots[i];
      SnocEntry(seen, chunk.AsEntry());
      if chunk.buffer != null && |chunk.buffer.bytes| > 0 {
        var copy := CopyOf(chunk.buffer.bytes);
        assert Copies(chunks, Payloads(seen));
        more := chunks + [copy];
      }
      if chunk.err.Some? || chunk.status != 0 {
        last := Some(Fault(chunk.err, chunk.status));
      }
    }

    /** A walk from `at` has made `done` steps, reached `current`, and collected what it met. */
    ghost predicate Walked(at: nat, done: nat, current: nat, chunks: seq<ChunkData>, fault: Option<Fault>)
      reads this, pool, pool.free, slots, RingBuffers(), chunks, set c | c in chunks :: c.buffer
    {
      && WellFormed(ring) && at < |slots| == |ring.slots| && done <= Lag(ring, at)
      && current == Walk(ring, at, done) && current < |slots| && (current == ring.pos <==> done == Lag(ring, at))
      && var seen := Entries(Window(ring, at))[..done];
         Copies(chunks, Payloads(seen)) && fault == LastFault(seen)
    }

    /** One step of the walk. */
    method WalkOn(ghost at: nat, ghost done: nat, current: nat, chunks: seq<ChunkData>, fault: Option<Fault>)
        returns (next: nat, more: seq<ChunkData>, last: Option<Fault>)
      requires Valid() && Walked(at, done, current, chunks, fault) && current != pos
      modifies pool, pool.free
      ensures Valid() && pool.free <= old(pool.free)
      ensures Walked(at, done + 1, next, more, last) && next != at
      ensures forall c | c in more :: c in chunks || (fresh(c) && (c.buffer in old(pool.free) || fresh(c.buffer)))
    {
      ghost var seen := Entries(Window(ring, at));
      SeenAt(ring, at, done);
      WalkNext(ring, at, done);
      more, last := Visit(current, chunks, fault, seen[..done]);
      next := Next(current, |slots|);
    }

    /**
      The second locked section of a read, entered when the reader need not wait: deep copies of
      the non-empty chunks up to the writer, the last error met, and the new position.
     */
    method Collect(at: nat) returns (chunks: seq<ChunkData>, fault: Option<Fault>, next: nat)
      requires Valid() && at < |slots| && !MustWait(at)
      modifies pool, pool.free
      ensures Valid() && next == pos
      ensures Copies(chunks, Payloads(Entries(Window(ring, at))))
      ensures fault == LastFault(Entries(Window(ring, at)))
      ensures pool.free <= old(pool.free)
      ensures forall c | c in chunks :: fresh(c) && (c.buffer in old(pool.free) || fresh(c.buffer))
    {
      chunks, fault, next := [], None, at;
      ghost var seen := Entries(Window(ring, at));
      ghost var done := 0;
      assert seen[..0] == [];
      while next != pos
        invariant Valid() && Walked(at, done, next, chunks, fault) && pool.free <= old(pool.free)
        invariant forall c | c in chunks :: fresh(c) && (c.buffer in old(pool.free) || fresh(c.buffer))
        decreases |seen| - done
      {
        next, chunks, fault := WalkOn(at, done, next, chunks, fault);
        done := done + 1;
        if next == at {
          break;
        }
      }
      assert seen[..done] == seen;
    }

    method ClearSlot(i: nat, keep: bool)
      requires Valid() && i < |slots|
      modifies this`ring, pool`free, slots[i], slots[i].buffer
      ensures Valid() && ring == old(ring).(slots := old(ring).slots[i := EMPTY])
    {
      slots[i].Reset(pool, keep);
      ring := ring.(slots := ring.slots[i := EMPTY]);
    }

    /** Resets every slot, starting at the writer's. */
    method ClearBuffer(keep: bool)
      requires Valid()
      modifies this`ring, pool`free, slots, RingBuffers()
      ensures Valid() && ring == Wipe(old(ring))
    {
      var current := pos;
      for i := 0 to |slots|
        invariant Valid() && current < |slots|
        invariant i < |slots| ==> current == if pos + i < |slots| then pos + i else pos + i - |slots|
        invariant ring == old(ring).(slots := ring.slots)
        invariant forall j | 0 <= j < |slots| ::
          if (if pos <= j then j - pos else j + |slots| - pos) < i then ring.slots[j] == EMPTY
          else slots[j].buffer == old(slots[j].buffer)
      {
        ClearSlot(current, keep);
        current := Next(current, |slots|);
      }
      assert ring.slots == Wipe(old(ring)).slots;
    }

    /** Registering a client revives a stream that is not active, but only when nobody is left. */
    method RegisterClient()
      requires Valid()
      modifies this`state, this`clientCount
      ensures Valid() && clientCount == old(clientCount) + 1
      ensures state == if old(clientCount) == 0 then Active else old(state)
    {
      var s := state;
      if s != Active && clientCount == 0 {
        state := Active;
      }
      clientCount := clientCount + 1;
    }

    /** The last client to leave drains the stream, signals the writer and clears the ring. */
    method UnregisterClient(keep: bool)
      requires Valid()
      modifies this`clientCount, this`state, this`shutdownSignalled, this`ring, pool`free, slots, RingBuffers()
      ensures Valid() && clientCount == old(clientCount) - 1
      ensures clientCount == 0 ==> state == Draining && shutdownSignalled && ring == Wipe(old(ring))
      ensures clientCount != 0 ==>
        state == old(state) && shutdownSignalled == old(shutdownSignalled) && ring == old(ring)
    {
      clientCount := clientCount - 1;
      if clientCount == 0 {
        state := Draining;
        shutdownSignalled := true;
        ClearBuffer(keep);
      }
    }
  }
}
