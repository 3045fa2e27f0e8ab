/**
  The overwrite-on-full byte ring, one call at a time.

  Every `compare_exchange` succeeds when a call runs alone, so the retry loops of `discard_oldest` and
  `read_message` run their body once here; module RingRace has the retries.
  None of the methods assumes that the shared header is sane: they run on any header and any bytes, and their
  contracts say what happens when it is.
*/
module Ring {
  import opened Common
  import opened Frames

  datatype WriteOutcome = WriteOutcome(overwritten: u32, wasEmpty: bool)

  /** The part of a ring header the ring itself works on, and the two handshake words. */
  class RingHeader {
    var writePos: u32
    var readPos: u32
    var messageCount: u32
    var dropCount: u32
    var sequence: u32
    var connectionGen: u32
    var handshakeState: u32

    constructor (generation: u32)
      ensures writePos == 0 && readPos == 0 && messageCount == 0 && dropCount == 0 && sequence == 0
      ensures connectionGen == generation && handshakeState == 0
    {
      writePos, readPos, messageCount, dropCount, sequence := 0, 0, 0, 0, 0;
      connectionGen, handshakeState := generation, 0;
    }

    method Reset(generation: u32)
      modifies this
      ensures writePos == 0 && readPos == 0 && messageCount == 0 && dropCount == 0 && sequence == 0
      ensures connectionGen == generation && handshakeState == 0
    {
      writePos := 0;
      readPos := 0;
      messageCount := 0;
      dropCount := 0;
      sequence := 0;
      connectionGen := generation;
      handshakeState := 0;
    }
  }

  /** Room for one more message behind `q`. */
  predicate Fits(q: seq<Payload>, m: Payload) {
    |q| < MAX_MESSAGES && |Stream(q)| + |Frame(m)| <= RING_CAPACITY
  }

  /** Dropping fewer than `k` oldest messages does not make room for `m`. */
  ghost predicate TooFull(q: seq<Payload>, m: Payload, k: nat)
    requires k <= |q|
  {
    forall j {:trigger q[j..]} :: 0 <= j < k ==> !Fits(q[j..], m)
  }

  /** `k` is the least number of oldest messages whose removal makes room for `m`. */
  ghost predicate LeastEviction(q: seq<Payload>, m: Payload, k: nat) {
    k <= |q| && Fits(q[k..], m) && TooFull(q, m, k)
  }

  /** A queue the ring can hold. */
  predicate Holdable(q: seq<Payload>) {
    |q| <= MAX_MESSAGES && |Stream(q)| <= RING_CAPACITY
  }

  /** Header words and bytes that hold exactly `q`, whose first byte has unbounded position `head`. */
  ghost predicate Holds(write: u32, read: u32, count: u32, sequence: u32, mem: seq<byte>, head: nat, q: seq<Payload>) {
    && |mem| == RING_CAPACITY
    && Holdable(q)
    && count == |q|
    && read == U32(head)
    && write == U32(head + |Stream(q)|)
    && Stored(mem, head, Stream(q))
    && (sequence % 2 == 1 <==> q != [])
  }

  /** The length field two cells hold, as a reader at `read` sees it. */
  function LengthAt(mem: seq<byte>, read: u32): (n: nat)
    requires |mem| == RING_CAPACITY
    ensures n < 0x1_0000
  {
    LittleEndian(mem[MaskIndex(read) % RING_CAPACITY], mem[(MaskIndex(read) + 1) % RING_CAPACITY])
  }

  /** The oldest frame is readable where the read position points, and skipping it leaves the rest. */
  lemma OldestFrame(write: u32, read: u32, count: u32, sequence: u32, mem: seq<byte>, head: nat, q: seq<Payload>)
    requires Holds(write, read, count, sequence, mem, head, q) && q != []
    ensures var i := MaskIndex(read);
      && LittleEndian(mem[i % RING_CAPACITY], mem[(i + 1) % RING_CAPACITY]) == |q[0]|
      && forall k :: 0 <= k < |q[0]| ==>
           mem[((i + MESSAGE_HEADER_SIZE) % RING_CAPACITY + k) % RING_CAPACITY] == q[0][k]
    ensures read != write
  {
    var f, rest := Frame(q[0]), Stream(q[1..]);
    assert Stream(q) == f + rest;
    StoredDrop(mem, head, f, rest);
    SameCell(head, 0);
    SameCell(head, 1);
    assert mem[(head + 0) % RING_CAPACITY] == f[0];
    assert mem[(head + 1) % RING_CAPACITY] == f[1];
    LengthField(q[0]);
    forall k | 0 <= k < |q[0]|
      ensures mem[((MaskIndex(read) + MESSAGE_HEADER_SIZE) % RING_CAPACITY + k) % RING_CAPACITY] == q[0][k]
    {
      CellOffset(MaskIndex(read) + MESSAGE_HEADER_SIZE, k);
      SameCell(head, MESSAGE_HEADER_SIZE + k);
      assert mem[(head + (MESSAGE_HEADER_SIZE + k)) % RING_CAPACITY] == f[MESSAGE_HEADER_SIZE + k];
    }
    WrappedPositionsAreExact(head + |Stream(q)|, head);
  }

  /** The writer's space check on the header words decides Fits, and a failed check leaves something behind the oldest. */
  lemma SpaceCheck(write: u32, read: u32, count: u32, sequence: u32, mem: seq<byte>, head: nat, q: seq<Payload>,
      m: Payload)
    requires Holds(write, read, count, sequence, mem, head, q)
    ensures RING_CAPACITY - WrappingSub(write, read) < |Frame(m)| || count >= MAX_MESSAGES <==> !Fits(q, m)
    ensures count == |q| && (!Fits(q, m) ==> |q| > 1)
  {
    WrappedPositionsAreExact(head + |Stream(q)|, head);
    StreamBounds(q);
  }

  /** Moving the read position over the oldest frame and taking one off the count. */
  lemma OldestTaken(write: u32, read: u32, count: u32, sequence: u32, mem: seq<byte>, head: nat, q: seq<Payload>,
      sequence': u32)
    requires Holds(write, read, count, sequence, mem, head, q) && q != []
    requires sequence' == if |q| == 1 then Incr(sequence) else sequence
    ensures Holds(write, WrappingAdd(read, |Frame(q[0])|), Decr(count), sequence', mem,
      head + |Frame(q[0])|, q[1..])
  {
    StoredDrop(mem, head, Frame(q[0]), Stream(q[1..]));
    WrappedSum(head, |Frame(q[0])|);
  }

  /** Laying a frame at the write position, raising the count and moving the write position. */
  lemma FrameAppended(write: u32, read: u32, count: u32, sequence: u32, mem: seq<byte>, head: nat, q: seq<Payload>,
      m: Payload, sequence': u32)
    requires Holds(write, read, count, sequence, mem, head, q) && Fits(q, m)
    requires sequence' == if count == 0 then Incr(sequence) else sequence
    ensures Holds(WrappingAdd(write, |Frame(m)|), read, Incr(count), sequence',
      Overlay(mem, write, Frame(m)), head, q + [m])
  {
    StreamSnoc(q, m);
    ghost var end := head + |Stream(q)|;
    assert Stored(Overlay(mem, write, Frame(m)), head, Stream(q + [m])) by {
      SameCell(end, 0);
      OverlaySameCell(mem, write, end, Frame(m));
      OverlayAppends(mem, head, Stream(q), Frame(m));
    }
    assert WrappingAdd(write, |Frame(m)|) == U32(head + |Stream(q + [m])|) by {
      WrappedSum(end, |Frame(m)|);
    }
  }

  /** A write that evicts leaves at least 30 older messages, so eviction never empties the ring. */
  lemma SurvivorBound(q: seq<Payload>, m: Payload, k: nat)
    requires Holdable(q) && LeastEviction(q, m, k) && k > 0
    ensures |q| - k >= 30
  {
    assert !Fits(q[k - 1..], m);
    DropOldest(q, k - 1);
    StreamBounds(q[k..]);
  }

  /** The bound is tight: maximal messages leave exactly 30. */
  lemma SurvivorBoundIsTight(m: Payload)
    requires |m| == MAX_MESSAGE_SIZE
    ensures exists q: seq<Payload> :: Holdable(q) && LeastEviction(q, m, 1) && |q| - 1 == 30
  {
    var q: seq<Payload> := seq(31, i => m);
    UniformStream(m, 31);
    UniformStream(m, 30);
    assert q[1..] == seq(30, i => m);
    assert q[0..] == q;
    assert LeastEviction(q, m, 1);
  }

  lemma {:induction false} UniformStream(m: Payload, n: nat)
    ensures |Stream(seq(n, i => m))| == n * |Frame(m)|
  {
    if n == 0 {
    } else {
      assert seq(n, i => m)[1..] == seq(n - 1, i => m);
      UniformStream(m, n - 1);
    }
  }

  /** The number of messages a write of `m` evicts. */
  function Evicted(q: seq<Payload>, m: Payload): (k: nat)
    ensures k <= |q|
  {
    if q == [] || Fits(q, m) then 0 else 1 + Evicted(q[1..], m)
  }

  /** Room can always be made, by exactly Evicted removals: writing a message of legal size always succeeds. */
  lemma {:induction false} EvictedIsLeast(q: seq<Payload>, m: Payload)
    requires Holdable(q)
    ensures LeastEviction(q, m, Evicted(q, m))
    ensures forall k: nat :: LeastEviction(q, m, k) ==> k == Evicted(q, m)
  {
    assert q[0..] == q;
    if q == [] || Fits(q, m) {
    } else {
      EvictedIsLeast(q[1..], m);
      var l := Evicted(q, m);
      assert q[l..] == q[1..][l - 1..];
      forall j | 0 <= j < l ensures !Fits(q[j..], m) {
        if j > 0 {
          assert q[j..] == q[1..][j - 1..];
        }
      }
      forall k: nat | LeastEviction(q, m, k) ensures k == l {
        assert q[k..] == q[1..][k - 1..];
        forall j | 0 <= j < k - 1 ensures !Fits(q[1..][j..], m) {
          assert q[1..][j..] == q[j + 1..];
        }
        assert LeastEviction(q[1..], m, k - 1);
      }
    }
  }

  class RingBuffer {
    const header: RingHeader
    const storage: array<byte>
    ghost var queue: seq<Payload>  // the messages in the ring, oldest first
    ghost var head: nat            // the read position before wrapping

    /** The storage has the fixed size; nothing is said about its contents or the header's. */
    ghost predicate Mapped() {
      storage.Length == RING_CAPACITY
    }

    /** The header and the bytes say that the ring holds exactly `queue`. */
    ghost predicate Valid()
      reads this, header, storage
    {
      && Mapped()
      && Holds(header.writePos, header.readPos, header.messageCount, header.sequence, storage[..], head, queue)
    }

    constructor (header: RingHeader, storage: array<byte>)
      requires storage.Length == RING_CAPACITY
      ensures this.header == header && this.storage == storage && Mapped()
      ensures queue == [] && head == 0
    {
      this.header, this.storage := header, storage;
      queue, head := [], 0;
    }

    method Reset(generation: u32)
      requires Mapped()
      modifies this, header
      ensures Valid() && queue == []
      ensures header.connectionGen == generation && header.handshakeState == 0
    {
      header.Reset(generation);
      queue, head := [], 0;
    }

    /** Free bytes between the two positions as the header has them; negative on a corrupt header. */
    function AvailableBytes(write: u32, read: u32): int {
      RING_CAPACITY - WrappingSub(write, read)
    }

    method CopyInto(index: nat, data: seq<byte>)
      requires Mapped() && index + |data| <= RING_CAPACITY
      modifies storage
      ensures storage[..] == old(storage[..])[..index] + data + old(storage[..])[index + |data|..]
    {
      forall k | 0 <= k < |data| {
        storage[index + k] := data[k];
      }
    }

    method CopyIntoWrapped(start: nat, data: seq<byte>)
      requires Mapped() && |data| <= RING_CAPACITY
      modifies storage
      ensures storage[..] == Overlay(old(storage[..]), start, data)
    {
      var s := start % RING_CAPACITY;
      var first := RING_CAPACITY - s;
      ghost var was := storage[..];
      if |data| <= first {
        CopyInto(s, data);
      } else {
        CopyInto(s, data[..first]);
        CopyInto(0, data[first..]);
      }
      forall i | 0 <= i < RING_CAPACITY ensures storage[i] == Overlay(was, start, data)[i] {
        assert (i - start) % RING_CAPACITY == if i >= s then i - s else i - s + RING_CAPACITY;
      }
    }

    method CopyFromWrapped(start: nat, len: nat) returns (out: seq<byte>)
      requires Mapped() && len <= RING_CAPACITY
      ensures |out| == len
      ensures forall k :: 0 <= k < len ==> out[k] == storage[(start + k) % RING_CAPACITY]
    {
      var s := start % RING_CAPACITY;
      var first := RING_CAPACITY - s;
      if len <= first {
        out := storage[s..s + len];
      } else {
        out := storage[s..] + storage[..len - first];
      }
      forall k | 0 <= k < len ensures out[k] == storage[(start + k) % RING_CAPACITY] {
        assert (start + k) % RING_CAPACITY == if s + k < RING_CAPACITY then s + k else s + k - RING_CAPACITY;
      }
    }

    method ReadU16(index: nat) returns (n: nat)
      requires Mapped()
      ensures n == LittleEndian(storage[index % RING_CAPACITY], storage[(index + 1) % RING_CAPACITY])
    {
      var buf := CopyFromWrapped(index, 2);
      n := LittleEndian(buf[0], buf[1]);
    }

    /** The sequence word is left alone, so this keeps its parity only while another message stays behind. */
    method DiscardOldest() returns (r: Result<()>)
      requires Mapped()
      modifies this, header
      ensures r.Err? ==> unchanged(this) && unchanged(header)
      ensures old(header.readPos) == old(header.writePos) ==> r == Err(QueueEmpty)
      ensures old(header.readPos) != old(header.writePos) ==>
        if LegalLength(LengthAt(storage[..], old(header.readPos))) then r.Ok? else r == Err(Corrupted)
      ensures r.Ok? ==>
        && header.readPos
           == WrappingAdd(old(header.readPos), MESSAGE_HEADER_SIZE + LengthAt(storage[..], old(header.readPos)))
        && header.messageCount == Decr(old(header.messageCount))
        && header.dropCount == Incr(old(header.dropCount))
        && header.writePos == old(header.writePos) && header.sequence == old(header.sequence)
        && header.connectionGen == old(header.connectionGen)
        && header.handshakeState == old(header.handshakeState)
      ensures old(Valid()) && old(queue) == [] ==> r == Err(QueueEmpty)
      ensures old(Valid()) && old(queue) != [] ==> r.Ok? && queue == old(queue)[1..]
      ensures old(Valid()) && old(queue) != [] ==>
        header.readPos == WrappingAdd(old(header.readPos), |Frame(old(queue)[0])|)
      ensures old(Valid()) && |old(queue)| > 1 ==> Valid()
    {
      hide Stored, U32, WrappingAdd, MaskIndex, LittleEndian;
      ghost var valid := Valid() && queue != [];
      if valid {
        OldestFrame(header.writePos, header.readPos, header.messageCount, header.sequence, storage[..], head, queue);
        if |queue| > 1 {
          OldestTaken(header.writePos, header.readPos, header.messageCount, header.sequence, storage[..], head, queue,
            header.sequence);
        }
      }
      var read := header.readPos;
      var write := header.writePos;
      if read == write {
        return Err(QueueEmpty);
      }
      var msgLen := ReadU16(MaskIndex(read));
      if !LegalLength(msgLen) {
        return Err(Corrupted);
      }
      var total := MESSAGE_HEADER_SIZE + msgLen;
      header.readPos := WrappingAdd(read, total);
      if valid {
        head := head + |Frame(queue[0])|;
        queue := queue[1..];
      } else if queue != [] {
        queue := queue[1..];
      }
      header.messageCount := Decr(header.messageCount);
      header.dropCount := Incr(header.dropCount);
      return Ok(());
    }

    /** Lays a frame down at the write position. */
    method PutFrame(write: u32, payload: Payload)
      requires Mapped()
      modifies storage
      ensures storage[..] == Overlay(old(storage[..]), write, Frame(payload))
    {
      var idx := MaskIndex(write);
      ghost var was := storage[..];
      var lenLe: seq<byte> := [|payload| % 256, |payload| / 256];
      var flags: seq<byte> := [0, 0];
      CopyIntoWrapped(idx, lenLe);
      CopyIntoWrapped((idx + 2) % RING_CAPACITY, flags);
      CopyIntoWrapped((idx + MESSAGE_HEADER_SIZE) % RING_CAPACITY, payload);
      FrameOverlay(was, write, payload);
    }

    /** The part of a write that follows the space check: bytes, then count, then write position. */
    method PublishFrame(write: u32, payload: Payload) returns (wasEmpty: bool)
      requires Mapped()
      requires Valid() ==> write == header.writePos && Fits(queue, payload)
      modifies this, header, storage
      ensures wasEmpty == (old(header.messageCount) == 0)
      ensures old(Valid()) ==> Valid() && queue == old(queue) + [payload]
      ensures header.dropCount == old(header.dropCount)
      ensures header.connectionGen == old(header.connectionGen) && header.handshakeState == old(header.handshakeState)
    {
      hide Stored, Stream;
      if Valid() {
        FrameAppended(header.writePos, header.readPos, header.messageCount, header.sequence, storage[..], head, queue,
          payload, if header.messageCount == 0 then Incr(header.sequence) else header.sequence);
      }
      PutFrame(write, payload);
      var prevCount := header.messageCount;
      header.messageCount := Incr(prevCount);
      header.writePos := WrappingAdd(write, MESSAGE_HEADER_SIZE + |payload|);
      if prevCount == 0 {
        header.sequence := Incr(header.sequence);
      }
      queue := queue + [payload];
      return prevCount == 0;
    }

    /** Why a write of legal size ends in an error on a header that is not sound: no message is left to evict, or the next
        eviction fails. */
    function WhyNoRoom(): ShmError
      reads this, header
    {
      if header.messageCount == 0 then MessageTooLarge
      else if header.readPos == header.writePos then QueueEmpty
      else Corrupted
    }

    /** The loop of a write: evict until the frame fits, then publish it. The message count falls with every eviction
        and zero ends the loop, so it ends on any header. */
    method WriteFitting(payload: Payload) returns (r: Result<WriteOutcome>)
      requires Mapped()
      modifies this, header, storage
      ensures header.connectionGen == old(header.connectionGen) && header.handshakeState == old(header.handshakeState)
      ensures r.Err? ==> storage[..] == old(storage[..]) && r == Err(WhyNoRoom())
      ensures old(Valid()) ==>
        && Valid()
        && r.Ok?
        && LeastEviction(old(queue), payload, r.value.overwritten)
        && queue == old(queue)[r.value.overwritten..] + [payload]
        && header.dropCount == U32(old(header.dropCount) + r.value.overwritten)
        && r.value.wasEmpty == (old(queue) == [])
    {
      hide Holds, Fits, Frame, Stored, Stream, U32, WrappingAdd, WrappingSub, Incr;
      WrapUnique(header.dropCount, 0, header.dropCount);
      var totalRequired := MESSAGE_HEADER_SIZE + |payload|;
      var overwritten: u32 := 0;
      ghost var valid := Valid();
      ghost var q0 := queue;
      assert q0[0..] == q0;

      while true
        invariant storage[..] == old(storage[..])
        invariant overwritten + header.messageCount == old(header.messageCount)
        invariant header.connectionGen == old(header.connectionGen) && header.handshakeState == old(header.handshakeState)
        invariant valid ==> Valid() && overwritten <= |q0| && queue == q0[overwritten..]
        invariant valid ==> header.dropCount == U32(old(header.dropCount) + overwritten)
        invariant valid ==> TooFull(q0, payload, overwritten) && (queue == [] <==> q0 == [])
        decreases header.messageCount
      {
        var write := header.writePos;
        var read := header.readPos;
        var available := AvailableBytes(write, read);
        var count := header.messageCount;
        if Valid() {
          SpaceCheck(write, read, count, header.sequence, storage[..], head, queue, payload);
        }

        if available < totalRequired || count >= MAX_MESSAGES {
          if count == 0 {
            return Err(MessageTooLarge);
          }
          if valid {
            assert q0[overwritten..][1..] == q0[overwritten + 1..];
          }
          var d := DiscardOldest();
          if d.Err? {
            return Err(d.error);
          }
          WrappedCount(old(header.dropCount) + overwritten);
          overwritten := overwritten + 1;
        } else {
          var wasEmpty := PublishFrame(write, payload);
          return Ok(WriteOutcome(overwritten, wasEmpty));
        }
      }
    }

    method WriteMessage(payload: seq<byte>) returns (r: Result<WriteOutcome>)
      requires Mapped()
      modifies this, header, storage
      ensures header.connectionGen == old(header.connectionGen) && header.handshakeState == old(header.handshakeState)
      ensures |payload| < MIN_MESSAGE_SIZE ==> r == Err(MessageTooSmall)
      ensures |payload| > MAX_MESSAGE_SIZE ==> r == Err(MessageTooLarge)
      ensures r.Err? && LegalLength(|payload|) ==> storage[..] == old(storage[..]) && r == Err(WhyNoRoom())
      ensures !LegalLength(|payload|) ==>
        unchanged(this) && unchanged(header) && unchanged(storage)
      ensures old(Valid()) ==> Valid()
      ensures old(Valid()) && LegalLength(|payload|) ==>
        && r.Ok?
        && LeastEviction(old(queue), payload, r.value.overwritten)
        && queue == old(queue)[r.value.overwritten..] + [payload]
        && header.dropCount == U32(old(header.dropCount) + r.value.overwritten)
        && r.value.wasEmpty == (old(queue) == [])
    {
      hide Holds, LeastEviction, U32;
      if |payload| < MIN_MESSAGE_SIZE {
        return Err(MessageTooSmall);
      }
      if |payload| > MAX_MESSAGE_SIZE {
        return Err(MessageTooLarge);
      }
      r := WriteFitting(payload);
    }

    method ReadMessage() returns (r: Result<seq<byte>>)
      requires Mapped()
      modifies this, header
      ensures header.connectionGen == old(header.connectionGen) && header.handshakeState == old(header.handshakeState)
      ensures r.Err? ==> unchanged(this) && unchanged(header)
      ensures old(header.messageCount) == 0 ==> r == Err(QueueEmpty)
      ensures old(header.messageCount) != 0 ==>
        if LegalLength(LengthAt(storage[..], old(header.readPos))) then r.Ok? else r == Err(Corrupted)
      ensures r.Ok? ==>
        && |r.value| == LengthAt(storage[..], old(header.readPos))
        && header.readPos == WrappingAdd(old(header.readPos), MESSAGE_HEADER_SIZE + |r.value|)
        && header.messageCount == Decr(old(header.messageCount))
        && header.writePos == old(header.writePos) && header.dropCount == old(header.dropCount)
        && header.sequence == (if old(header.messageCount) <= 1 then Incr(old(header.sequence)) else old(header.sequence))
      ensures r.Ok? ==>
        var i := (MaskIndex(old(header.readPos)) + MESSAGE_HEADER_SIZE) % RING_CAPACITY;
        forall k :: 0 <= k < |r.value| ==> r.value[k] == storage[(i + k) % RING_CAPACITY]
      ensures old(Valid()) ==> Valid() && header.dropCount == old(header.dropCount)
      ensures old(Valid()) && old(queue) == [] ==> r == Err(QueueEmpty)
      ensures old(Valid()) && old(queue) != [] ==> r == Ok(old(queue)[0]) && queue == old(queue)[1..]
    {
      hide Stored, Stream, U32, WrappingAdd, MaskIndex, LittleEndian;
      var count := header.messageCount;
      if count == 0 {
        return Err(QueueEmpty);
      }
      ghost var valid := Valid();
      if valid {
        OldestFrame(header.writePos, header.readPos, header.messageCount, header.sequence, storage[..], head, queue);
        OldestTaken(header.writePos, header.readPos, header.messageCount, header.sequence, storage[..], head, queue,
          if count <= 1 then Incr(header.sequence) else header.sequence);
      }
      var read := header.readPos;
      var idx := MaskIndex(read);
      var msgLen := ReadU16(idx);
      if !LegalLength(msgLen) {
        return Err(Corrupted);
      }
      var total := MESSAGE_HEADER_SIZE + msgLen;
      var out := CopyFromWrapped((idx + MESSAGE_HEADER_SIZE) % RING_CAPACITY, msgLen);
      if valid {
        assert out == queue[0];
      }
      header.readPos := WrappingAdd(read, total);
      var prevCount := header.messageCount;
      header.messageCount := Decr(prevCount);
      if prevCount <= 1 {
        header.sequence := Incr(header.sequence);
      }
      if valid {
        head := head + |Frame(queue[0])|;
        queue := queue[1..];
      }
      return Ok(out);
    }
  }

  /** Length field, flags and payload written in turn are one frame. */
  lemma FrameOverlay(mem: seq<byte>, write: u32, m: Payload)
    requires |mem| == RING_CAPACITY
    ensures var idx := MaskIndex(write);
      var a := Overlay(mem, idx, [|m| % 256, |m| / 256]);
      var b := Overlay(a, (idx + 2) % RING_CAPACITY, [0, 0]);
      Overlay(b, (idx + MESSAGE_HEADER_SIZE) % RING_CAPACITY, m) == Overlay(mem, write, Frame(m))
  {
    var idx := MaskIndex(write);
    var l: seq<byte> := [|m| % 256, |m| / 256];
    var z: seq<byte> := [0, 0];
    var a := Overlay(mem, idx, l);
    var b := Overlay(a, idx + 2, z);
    OverlaySameCell(a, (idx + 2) % RING_CAPACITY, idx + 2, z);
    OverlaySameCell(b, (idx + MESSAGE_HEADER_SIZE) % RING_CAPACITY, idx + MESSAGE_HEADER_SIZE, m);
    OverlayConcat(mem, idx, l, z);
    OverlayConcat(mem, idx, l + z, m);
    assert l + z + m == Frame(m);
    OverlaySameCell(mem, idx, write, Frame(m));
  }
}
