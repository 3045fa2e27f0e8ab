/** Constants, error values and 32-bit arithmetic shared by every component. */
module Common {

  const RING_CAPACITY: nat := 0x20_0000
  const MAX_MESSAGES: nat := 500
  const MAX_MESSAGE_SIZE: nat := 65_535
  const MIN_MESSAGE_SIZE: nat := 2
  const MESSAGE_HEADER_SIZE: nat := 4
  const TWO_32: nat := 0x1_0000_0000

  type byte = x: int | 0 <= x < 256
  type u32 = x: int | 0 <= x < TWO_32

  /** The value of a claim word nobody holds. */
  const CLAIM_FREE: u32 := 0

  predicate LegalLength(n: nat) {
    MIN_MESSAGE_SIZE <= n <= MAX_MESSAGE_SIZE
  }

  /** One byte is refused, two are taken; so are 65535, and no more. */
  lemma SizeLimits(n: nat)
    ensures LegalLength(n) <==> n != 0 && n != 1 && n < 65_536
  {
  }

  /** `k.max(1)` */
  function AtLeastOne(k: nat): nat {
    if k == 0 then 1 else k
  }

  /** A message the ring accepts. */
  type Payload = s: seq<byte> | LegalLength(|s|) witness [0, 0]

  datatype ShmError =
    | NotConnected
    | AlreadyConnected
    | Timeout
    | QueueEmpty
    | MessageTooSmall
    | MessageTooLarge
    | Corrupted
    | HandshakeFailed
    | NoFreeSlot
    | EventFailed

  datatype Result<+T> = Ok(value: T) | Err(error: ShmError)

  /** The u32 a header field holds when its unbounded value is `p`. */
  function U32(p: int): u32 {
    p % TWO_32
  }

  function WrappingAdd(a: u32, b: u32): u32 {
    U32(a + b)
  }

  function WrappingSub(a: u32, b: u32): u32 {
    U32(a - b)
  }

  /** `fetch_add(1)` and `fetch_sub(1)` on a counter, without a remainder. */
  function Incr(c: u32): u32 {
    if c == TWO_32 - 1 then 0 else c + 1
  }

  function Decr(c: u32): u32 {
    if c == 0 then TWO_32 - 1 else c - 1
  }

  lemma CountersWrap(c: u32)
    ensures Incr(c) == WrappingAdd(c, 1) && Decr(c) == WrappingSub(c, 1)
  {
  }

  /** `pos & RING_MASK`; MaskIsRemainder justifies the remainder. */
  function MaskIndex(pos: u32): nat {
    pos % RING_CAPACITY
  }

  /** Masking with a power of two minus one is the remainder, for every 32-bit word. */
  lemma MaskIsRemainder(x: bv32)
    ensures x & 0x1F_FFFF == x % 0x20_0000
  {
  }

  lemma WrapUnique(a: int, q: int, r: int)
    requires a == TWO_32 * q + r && 0 <= r < TWO_32
    ensures U32(a) == r
  {
    assert a / TWO_32 == q;
  }

  lemma CellUnique(a: int, q: int, r: int)
    requires a == RING_CAPACITY * q + r && 0 <= r < RING_CAPACITY
    ensures a % RING_CAPACITY == r
  {
    assert a / RING_CAPACITY == q;
  }

  lemma CellOffset(p: nat, k: nat)
    ensures (p % RING_CAPACITY + k) % RING_CAPACITY == (p + k) % RING_CAPACITY
  {
    var q := p / RING_CAPACITY;
    var c, r := (p + k) / RING_CAPACITY, (p + k) % RING_CAPACITY;
    assert p % RING_CAPACITY == p - RING_CAPACITY * q;
    CellUnique(p % RING_CAPACITY + k, c - q, r);
  }

  /** Header arithmetic on wrapped positions is exact as long as the occupancy is at most the capacity,
      however many bytes have passed through the ring. */
  lemma WrappedPositionsAreExact(w: nat, r: nat)
    requires r <= w <= r + RING_CAPACITY
    ensures WrappingSub(U32(w), U32(r)) == w - r
    ensures U32(r) == U32(w) <==> r == w
  {
    var qw, qr := w / TWO_32, r / TWO_32;
    assert U32(w) == w - TWO_32 * qw && U32(r) == r - TWO_32 * qr;
    WrapUnique(U32(w) - U32(r), qr - qw, w - r);
  }

  /** Adding to the wrapped word is wrapping the sum. */
  lemma WrappedSum(p: nat, n: u32)
    ensures WrappingAdd(U32(p), n) == U32(p + n)
  {
    var q := p / TWO_32;
    assert U32(p) == p - TWO_32 * q;
    var q', r := (U32(p) + n) / TWO_32, (U32(p) + n) % TWO_32;
    WrapUnique(p + n, q + q', r);
  }

  /** A counter that wraps holds the true count modulo 2^32. */
  lemma WrappedCount(n: nat)
    ensures Incr(U32(n)) == U32(n + 1)
  {
    WrappedSum(n, 1);
    CountersWrap(U32(n));
  }

  /** A wrapped position names the same cell: the capacity divides 2^32. */
  lemma SameCell(p: nat, k: nat)
    ensures (MaskIndex(U32(p)) + k) % RING_CAPACITY == (U32(p) + k) % RING_CAPACITY == (p + k) % RING_CAPACITY
  {
    var q := p / TWO_32;
    assert U32(p) == p - TWO_32 * q;
    var c, r := (p + k) / RING_CAPACITY, (p + k) % RING_CAPACITY;
    CellUnique(U32(p) + k, c - 2048 * q, r);
    var d := U32(p) / RING_CAPACITY;
    assert MaskIndex(U32(p)) == U32(p) - RING_CAPACITY * d;
    CellUnique(MaskIndex(U32(p)) + k, c - 2048 * q - d, r);
  }

  /** Two positions less than one capacity apart never share a cell. */
  lemma DistinctCells(a: nat, b: nat)
    requires a < b < a + RING_CAPACITY
    ensures a % RING_CAPACITY != b % RING_CAPACITY
  {
    var qa, qb := a / RING_CAPACITY, b / RING_CAPACITY;
    assert a % RING_CAPACITY == a - RING_CAPACITY * qa && b % RING_CAPACITY == b - RING_CAPACITY * qb;
  }
}
