/** The byte image of queued messages and how it lies in the circular storage. */
module Frames {
  import opened Common

  /** Length field (little endian), zero flags, payload. */
  function Frame(m: Payload): (f: seq<byte>)
    ensures |f| == MESSAGE_HEADER_SIZE + |m|
  {
    [|m| % 256, |m| / 256, 0, 0] + m
  }

  /** The number a length field's two bytes stand for. */
  function LittleEndian(lo: byte, hi: byte): (n: nat)
    ensures n < 0x1_0000
  {
    (lo as int) + 256 * (hi as int)
  }

  lemma LengthField(m: Payload)
    ensures LittleEndian(Frame(m)[0], Frame(m)[1]) == |m|
  {
  }

  /** The bytes of a queue of messages, oldest first. */
  function Stream(q: seq<Payload>): seq<byte> {
    if q == [] then [] else Frame(q[0]) + Stream(q[1..])
  }

  lemma {:induction false} StreamConcat(a: seq<Payload>, b: seq<Payload>)
    ensures Stream(a + b) == Stream(a) + Stream(b)
  {
    if a == [] {
      assert a + b == b;
    } else {
      assert (a + b)[1..] == a[1..] + b;
      StreamConcat(a[1..], b);
    }
  }

  lemma StreamSnoc(q: seq<Payload>, m: Payload)
    ensures Stream(q + [m]) == Stream(q) + Frame(m)
  {
    StreamConcat(q, [m]);
    assert Stream([m]) == Frame(m) + Stream([]);
  }

  /** Where message `i` starts, counting from the first byte of the log. */
  function Pos(log: seq<Payload>, i: nat): nat
    requires i <= |log|
  {
    |Stream(log[..i])|
  }

  lemma PosStep(log: seq<Payload>, i: nat)
    requires i < |log|
    ensures Pos(log, i + 1) == Pos(log, i) + |Frame(log[i])|
  {
    assert log[..i + 1] == log[..i] + [log[i]];
    StreamSnoc(log[..i], log[i]);
  }

  lemma {:induction false} PosMonotone(log: seq<Payload>, i: nat, j: nat)
    requires i <= j <= |log|
    ensures Pos(log, i) <= Pos(log, j)
    ensures i < j ==> Pos(log, i) < Pos(log, i + 1) <= Pos(log, j)
    decreases j - i
  {
    if i == j {
    } else {
      PosStep(log, i);
      PosMonotone(log, i + 1, j);
    }
  }

  /** Appending to the log moves no earlier position. */
  lemma PosPrefix(log: seq<Payload>, more: seq<Payload>, i: nat)
    requires i <= |log|
    ensures Pos(log + more, i) == Pos(log, i)
  {
    assert (log + more)[..i] == log[..i];
  }

  lemma PosEnds(log: seq<Payload>)
    ensures Pos(log, 0) == 0 && Pos(log, |log|) == |Stream(log)|
  {
    assert log[..0] == [] && log[..|log|] == log;
  }

  lemma {:induction false} StreamBounds(q: seq<Payload>)
    ensures |q| * (MESSAGE_HEADER_SIZE + MIN_MESSAGE_SIZE) <= |Stream(q)|
    ensures |Stream(q)| <= |q| * (MESSAGE_HEADER_SIZE + MAX_MESSAGE_SIZE)
  {
    if q == [] {
    } else {
      StreamBounds(q[1..]);
    }
  }

  lemma DropOldest(q: seq<Payload>, k: nat)
    requires k < |q|
    ensures Stream(q[k..]) == Frame(q[k]) + Stream(q[k + 1..])
  {
    assert q[k..][1..] == q[k + 1..];
  }

  /** `bytes` lie in the circular storage from unbounded position `at` on. */
  ghost predicate Stored(mem: seq<byte>, at: nat, bytes: seq<byte>)
    requires |mem| == RING_CAPACITY
  {
    forall k :: 0 <= k < |bytes| ==> mem[(at + k) % RING_CAPACITY] == bytes[k]
  }

  lemma StoredDrop(mem: seq<byte>, at: nat, a: seq<byte>, b: seq<byte>)
    requires |mem| == RING_CAPACITY && Stored(mem, at, a + b)
    ensures Stored(mem, at, a) && Stored(mem, at + |a|, b)
  {
    forall k | 0 <= k < |a| ensures mem[(at + k) % RING_CAPACITY] == a[k] {
      assert (a + b)[k] == a[k];
    }
    forall k | 0 <= k < |b| ensures mem[(at + |a| + k) % RING_CAPACITY] == b[k] {
      assert (a + b)[|a| + k] == b[k];
      assert at + |a| + k == at + (|a| + k);
    }
  }

  lemma StoredJoin(mem: seq<byte>, at: nat, a: seq<byte>, b: seq<byte>)
    requires |mem| == RING_CAPACITY && Stored(mem, at, a) && Stored(mem, at + |a|, b)
    ensures Stored(mem, at, a + b)
  {
    forall k | 0 <= k < |a + b| ensures mem[(at + k) % RING_CAPACITY] == (a + b)[k] {
      if k >= |a| {
        assert at + k == at + |a| + (k - |a|);
        assert (a + b)[k] == b[k - |a|];
      }
    }
  }

  /** Storage after `data` is laid down from cell `start`, wrapping at the end. */
  function Overlay(mem: seq<byte>, start: nat, data: seq<byte>): (r: seq<byte>)
    requires |mem| == RING_CAPACITY && |data| <= RING_CAPACITY
    ensures |r| == RING_CAPACITY
  {
    seq(RING_CAPACITY, i requires 0 <= i < RING_CAPACITY =>
      if (i - start) % RING_CAPACITY < |data| then data[(i - start) % RING_CAPACITY] else mem[i])
  }

  lemma OverlayStores(mem: seq<byte>, start: nat, data: seq<byte>)
    requires |mem| == RING_CAPACITY && |data| <= RING_CAPACITY
    ensures Stored(Overlay(mem, start, data), start, data)
  {
    forall k | 0 <= k < |data|
      ensures Overlay(mem, start, data)[(start + k) % RING_CAPACITY] == data[k]
    {
      assert ((start + k) % RING_CAPACITY - start) % RING_CAPACITY == k;
    }
  }

  lemma LapOffset(at: nat, n: nat, k: nat)
    requires k < n <= RING_CAPACITY
    ensures ((at + k) % RING_CAPACITY - (at + n)) % RING_CAPACITY == RING_CAPACITY - n + k
  {
    var q := (at + k) / RING_CAPACITY;
    CellUnique((at + k) % RING_CAPACITY - (at + n), -q - 1, RING_CAPACITY - n + k);
  }

  /** Bytes laid down behind stored ones leave those alone as long as all fit in one lap. */
  lemma OverlayKeeps(mem: seq<byte>, at: nat, s: seq<byte>, data: seq<byte>)
    requires |mem| == RING_CAPACITY && |s| + |data| <= RING_CAPACITY
    requires Stored(mem, at, s)
    ensures Stored(Overlay(mem, at + |s|, data), at, s)
  {
    forall k | 0 <= k < |s|
      ensures Overlay(mem, at + |s|, data)[(at + k) % RING_CAPACITY] == s[k]
    {
      LapOffset(at, |s|, k);
    }
  }

  /** Laying bytes down behind stored ones appends them. */
  lemma OverlayAppends(mem: seq<byte>, at: nat, s: seq<byte>, data: seq<byte>)
    requires |mem| == RING_CAPACITY && |s| + |data| <= RING_CAPACITY
    requires Stored(mem, at, s)
    ensures Stored(Overlay(mem, at + |s|, data), at, s + data)
  {
    hide Stored, Overlay;
    OverlayKeeps(mem, at, s, data);
    OverlayStores(mem, at + |s|, data);
    StoredJoin(Overlay(mem, at + |s|, data), at, s, data);
  }

  /** Adjacent overlays compose: header and payload laid down in turn are the frame laid down at once. */
  lemma OverlayConcat(mem: seq<byte>, start: nat, a: seq<byte>, b: seq<byte>)
    requires |mem| == RING_CAPACITY && |a| + |b| <= RING_CAPACITY
    ensures Overlay(Overlay(mem, start, a), start + |a|, b) == Overlay(mem, start, a + b)
  {
    var x := Overlay(Overlay(mem, start, a), start + |a|, b);
    var y := Overlay(mem, start, a + b);
    forall i | 0 <= i < RING_CAPACITY ensures x[i] == y[i] {
      OverlayOffset(i, start, |a|);
    }
  }

  lemma OverlayOffset(i: nat, start: nat, n: nat)
    requires i < RING_CAPACITY && n <= RING_CAPACITY
    ensures var d := (i - start) % RING_CAPACITY;
            (i - (start + n)) % RING_CAPACITY == if d < n then d - n + RING_CAPACITY else d - n
  {
  }

  /** Only the cell matters. */
  lemma OverlaySameCell(mem: seq<byte>, a: nat, b: nat, data: seq<byte>)
    requires |mem| == RING_CAPACITY && |data| <= RING_CAPACITY
    requires a % RING_CAPACITY == b % RING_CAPACITY
    ensures Overlay(mem, a, data) == Overlay(mem, b, data)
  {
    var x, y := Overlay(mem, a, data), Overlay(mem, b, data);
    forall i | 0 <= i < RING_CAPACITY ensures x[i] == y[i] {
      SameOffset(i, a, b);
    }
  }

  lemma SameOffset(i: int, a: nat, b: nat)
    requires a % RING_CAPACITY == b % RING_CAPACITY
    ensures (i - a) % RING_CAPACITY == (i - b) % RING_CAPACITY
  {
    var q := a / RING_CAPACITY - b / RING_CAPACITY;
    var c, r := (i - b) / RING_CAPACITY, (i - b) % RING_CAPACITY;
    assert a - b == RING_CAPACITY * q;
    assert i - a == RING_CAPACITY * (c - q) + r;
    CellUnique(i - a, c - q, r);
  }
}
