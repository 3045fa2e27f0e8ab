/**
  One producer and one consumer in the same ring at the same time.

  Every atomic operation of `write_message`, `discard_oldest` and `read_message` is a step of its own, every byte of
  a frame is copied in a step of its own and in any order, and the two sides interleave freely. Positions are kept
  unbounded and compared as the u32 words the code compares.

  `log`, `takers`, `delivered`, the retry counters and `reports` (answers of Corrupted, from either side) are history; so
  are the indices `rt`, `ct`, `t0` and the flags `dec` and `backed` that program counters carry.

  A read attempt is `backed` when a committed message lay at its loaded position as its first byte was read. `wild` turns
  true, for good, when the reader's compare-exchange succeeds although its attempt was not backed, or although the read
  position has moved by a whole multiple of 2^32 bytes since it was loaded. An attempt that is not backed but ends in a
  retry or in Corrupted leaves the ring as it is and the run tame.
*/
module RingRace {
  import opened Common
  import opened Frames

  datatype Taker = ByReader | ByEvictor

  datatype Producer =
    | PIdle
    | PLoop(m: Payload)                                            // top of the loop in write_message
    | PGotWrite(m: Payload, w: nat)
    | PGotRead(m: Payload, w: nat, r: nat)
    | PDiscard(m: Payload)                                         // top of the loop in discard_oldest
    | PDiscardRead(m: Payload, r: nat, rt: nat)
    | PDiscardLen(m: Payload, r: nat, rt: nat)
    | PDiscardLo(m: Payload, r: nat, rt: nat, lo: byte)
    | PDiscardCas(m: Payload, r: nat, rt: nat, total: nat)
    | PDiscardDec(m: Payload)                                      // read position moved, count not yet lowered
    | PCopy(m: Payload, w: nat, done: set<nat>)
    | PStore(m: Payload, w: nat, prev: u32)                        // count raised, write position not yet stored

  datatype Consumer =
    | CIdle
    | CLoop                                                        // top of the loop in read_message
    | CGotCount(t0: nat, dec: bool)
    | CGotRead(r: nat, ct: nat)
    | CLo(r: nat, ct: nat, lo: byte, backed: bool)
    | CRecheck(r: nat, ct: nat, backed: bool)
    | CCopy(r: nat, ct: nat, len: nat, got: map<nat, byte>, backed: bool)
    | CDec                                                         // read position moved, count not yet lowered

  datatype State = State(
    writePos: nat, readPos: nat, count: u32, mem: seq<byte>,
    p: Producer, c: Consumer,
    log: seq<Payload>, takers: seq<Taker>, delivered: seq<seq<byte>>,
    retriesP: nat, retriesC: nat,
    reports: nat, wild: bool)

  datatype Action = StartWrite(m: Payload) | P(k: nat) | StartRead | C(k: nat)

  ghost predicate Init(s: State) {
    && s.writePos == 0 && s.readPos == 0 && s.count == 0 && |s.mem| == RING_CAPACITY
    && s.p == PIdle && s.c == CIdle && s.log == [] && s.takers == [] && s.delivered == []
    && s.retriesP == 0 && s.retriesC == 0 && s.reports == 0 && !s.wild
  }

  // ---- The two programs ----

  /** The storage cell of byte `k` behind position `p`; SameCell shows it is the one the masked u32 names. */
  function Cell(p: nat, k: nat): nat {
    (p + k) % RING_CAPACITY
  }

  predicate Same(a: nat, b: nat) {
    U32(a) == U32(b)
  }

  predicate AllOf(n: nat, done: set<nat>) {
    forall k :: 0 <= k < n ==> k in done
  }

  predicate Enabled(s: State, a: Action) {
    && |s.mem| == RING_CAPACITY
    && match a
       case StartWrite(_) => s.p == PIdle
       case StartRead => s.c == CIdle
       case P(k) => s.p != PIdle && (s.p.PCopy? && !AllOf(|Frame(s.p.m)|, s.p.done) ==>
                                       k < |Frame(s.p.m)| && k !in s.p.done)
       case C(k) => s.c != CIdle && (s.c.CCopy? && !AllOf(s.c.len, s.c.got.Keys) ==>
                                       k < s.c.len && k !in s.c.got)
  }

  function Next(s: State, a: Action): State
    requires Enabled(s, a)
  {
    match a
    case StartWrite(m) => s.(p := PLoop(m))
    case StartRead => s.(c := CLoop)
    case P(k) => ProducerStep(s, k)
    case C(k) => ConsumerStep(s, k)
  }

  function ProducerStep(s: State, k: nat): State
    requires Enabled(s, P(k))
  {
    match s.p
    case PLoop(m) => s.(p := PGotWrite(m, s.writePos))
    case PGotWrite(m, w) => s.(p := PGotRead(m, w, s.readPos))
    case PGotRead(m, w, r) =>
      if RING_CAPACITY - WrappingSub(U32(w), U32(r)) < |Frame(m)| || s.count >= MAX_MESSAGES then
        if s.count == 0 then s.(p := PIdle)       // MessageTooLarge
        else s.(p := PDiscard(m))
      else s.(p := PCopy(m, w, {}))
    case PDiscard(m) => s.(p := PDiscardRead(m, s.readPos, |s.takers|))
    case PDiscardRead(m, r, rt) =>
      if Same(r, s.writePos) then s.(p := PIdle)  // QueueEmpty
      else s.(p := PDiscardLen(m, r, rt))
    case PDiscardLen(m, r, rt) => s.(p := PDiscardLo(m, r, rt, s.mem[Cell(r, 0)]))
    case PDiscardLo(m, r, rt, lo) =>
      var len := LittleEndian(lo, s.mem[Cell(r, 1)]);
      if LegalLength(len) then s.(p := PDiscardCas(m, r, rt, MESSAGE_HEADER_SIZE + len))
      else s.(p := PIdle, reports := s.reports + 1)  // Corrupted
    case PDiscardCas(m, r, rt, total) =>
      if Same(s.readPos, r) then
        s.(p := PDiscardDec(m), readPos := s.readPos + total, takers := s.takers + [ByEvictor])
      else s.(p := PDiscard(m), retriesP := s.retriesP + 1)
    case PDiscardDec(m) => s.(p := PLoop(m), count := Decr(s.count))
    case PCopy(m, w, done) =>
      if AllOf(|Frame(m)|, done) then
        s.(p := PStore(m, w + |Frame(m)|, s.count), count := Incr(s.count), log := s.log + [m])
      else s.(p := PCopy(m, w, done + {k}), mem := s.mem[Cell(w, k) := Frame(m)[k]])
    case PStore(m, w, prev) => s.(p := PIdle, writePos := w)
  }

  function ConsumerStep(s: State, k: nat): State
    requires Enabled(s, C(k))
  {
    match s.c
    case CLoop => if s.count == 0 then s.(c := CIdle) else s.(c := CGotCount(|s.takers|, s.p.PDiscardDec?))
    case CGotCount(t0, dec) => s.(c := CGotRead(s.readPos, |s.takers|))
    case CGotRead(r, ct) => s.(c := CLo(r, ct, s.mem[Cell(r, 0)], ct < |s.log|))
    case CLo(r, ct, lo, backed) =>
      var len := LittleEndian(lo, s.mem[Cell(r, 1)]);
      if LegalLength(len) then s.(c := CCopy(r, ct, len, map[], backed)) else s.(c := CRecheck(r, ct, backed))
    case CRecheck(r, ct, backed) =>
      if !Same(s.readPos, r) then s.(c := CLoop, retriesC := s.retriesC + 1)
      else s.(c := CIdle, reports := s.reports + 1)  // Corrupted
    case CCopy(r, ct, len, got, backed) =>
      if AllOf(len, got.Keys) then
        if Same(s.readPos, r) then
          s.(c := CDec, readPos := s.readPos + MESSAGE_HEADER_SIZE + len, takers := s.takers + [ByReader],
             delivered := s.delivered + [Copied(len, got)], wild := s.wild || !backed || s.readPos != r)
        else s.(c := CLoop, retriesC := s.retriesC + 1)
      else s.(c := CCopy(r, ct, len, got[k := s.mem[Cell(r, MESSAGE_HEADER_SIZE + k)]], backed))
    case CDec => s.(c := CIdle, count := Decr(s.count))
  }

  function Copied(len: nat, got: map<nat, byte>): seq<byte>
    requires AllOf(len, got.Keys)
  {
    seq(len, k requires 0 <= k < len => got[k])
  }

  // ---- What every reachable state that is not wild satisfies ----

  /** The messages taken by `who`, in the order they were taken. */
  function Picked(log: seq<Payload>, takers: seq<Taker>, who: Taker): seq<Payload>
    requires |takers| <= |log|
  {
    if takers == [] then []
    else
      var n := |takers| - 1;
      Picked(log, takers[..n], who) + if takers[n] == who then [log[n]] else []
  }

  function CountOf(takers: seq<Taker>, who: Taker): nat {
    if takers == [] then 0
    else CountOf(takers[..|takers| - 1], who) + if takers[|takers| - 1] == who then 1 else 0
  }

  /** Number of messages whose end the stored write position has reached. */
  function PublishedCount(s: State): int {
    |s.log| - if s.p.PStore? then 1 else 0
  }

  function PendingP(s: State): nat {
    if s.p.PDiscardDec? then 1 else 0
  }

  function PendingC(s: State): nat {
    if s.c.CDec? then 1 else 0
  }

  /** Positions, count and bytes. */
  ghost predicate Frontier(s: State) {
    && |s.mem| == RING_CAPACITY
    && |s.takers| <= |s.log|
    && s.readPos == Pos(s.log, |s.takers|)
    && 0 <= PublishedCount(s)
    && s.writePos == Pos(s.log, PublishedCount(s))
    && |Stream(s.log)| <= s.readPos + RING_CAPACITY
    && s.count == |s.log| - |s.takers| + PendingP(s) + PendingC(s)
    && s.count <= MAX_MESSAGES
    && Stored(s.mem, s.readPos, Stream(s.log[|s.takers|..]))
  }

  /** What the producer knows about a read position it loaded in discard_oldest. */
  ghost predicate Remembered(s: State, r: nat, rt: nat)
    requires |s.mem| == RING_CAPACITY && |s.takers| <= |s.log|
  {
    && rt <= |s.takers|
    && r == Pos(s.log, rt)
    && |Stream(s.log)| <= r + RING_CAPACITY
    && Stored(s.mem, r, Stream(s.log[rt..]))
  }

  ghost predicate Written(s: State, m: Payload, w: nat, done: set<nat>)
    requires |s.mem| == RING_CAPACITY
  {
    forall k :: k in done ==> k < |Frame(m)| && s.mem[Cell(w, k)] == Frame(m)[k]
  }

  ghost predicate ProducerInv(s: State)
    requires Frontier(s)
  {
    match s.p
    case PIdle => true
    case PLoop(m) => true
    case PGotWrite(m, w) => w == s.writePos
    case PGotRead(m, w, r) => w == s.writePos && r <= s.readPos && w <= r + RING_CAPACITY
    case PDiscard(m) => true
    case PDiscardRead(m, r, rt) => Remembered(s, r, rt)
    case PDiscardLen(m, r, rt) => Remembered(s, r, rt) && rt < |s.log|
    case PDiscardLo(m, r, rt, lo) => Remembered(s, r, rt) && rt < |s.log| && lo == Frame(s.log[rt])[0]
    case PDiscardCas(m, r, rt, total) => Remembered(s, r, rt) && rt < |s.log| && total == |Frame(s.log[rt])|
    case PDiscardDec(m) => true
    case PCopy(m, w, done) =>
      && w == s.writePos && w + |Frame(m)| <= s.readPos + RING_CAPACITY && s.count < MAX_MESSAGES
      && Written(s, m, w, done)
    case PStore(m, w, prev) => w == |Stream(s.log)|
  }

  ghost predicate ConsumerInv(s: State)
    requires Frontier(s)
  {
    match s.c
    case CIdle => true
    case CLoop => true
    case CGotCount(t0, dec) => t0 <= |s.takers| && (!dec ==> t0 < |s.log|)
    case CGotRead(r, ct) => Loaded(s, r, ct)
    case CLo(r, ct, lo, backed) =>
      && Loaded(s, r, ct)
      && (backed ==> ct < |s.log| && (ct == |s.takers| ==> lo == Frame(s.log[ct])[0]))
    case CRecheck(r, ct, backed) => Loaded(s, r, ct) && (backed ==> ct < |s.takers|)
    case CCopy(r, ct, len, got, backed) =>
      && Loaded(s, r, ct)
      && (backed ==>
            && ct < |s.log|
            && (ct == |s.takers| ==>
                  len == |s.log[ct]| && forall k :: k in got ==> k < len && got[k] == s.log[ct][k]))
    case CDec => true
  }

  /** The position loaded is where message `ct` lies, or will lie when it is committed. */
  ghost predicate Loaded(s: State, r: nat, ct: nat)
    requires Frontier(s)
  {
    ct <= |s.takers| && r == Pos(s.log, ct)
  }

  /** The index a running read attempt is after; the next message when there is none. */
  function Attempt(s: State): nat {
    match s.c
    case CGotRead(_, ct) => ct
    case CLo(_, ct, _, _) => ct
    case CRecheck(_, ct, _) => ct
    case CCopy(_, ct, _, _, _) => ct
    case _ => |s.takers|
  }

  /** The index a running discard is after; the next message when there is none. */
  function DiscardAttempt(s: State): nat {
    match s.p
    case PDiscardRead(_, _, rt) => rt
    case PDiscardLen(_, _, rt) => rt
    case PDiscardLo(_, _, rt, _) => rt
    case PDiscardCas(_, _, rt, _) => rt
    case _ => |s.takers|
  }

  /** Deliveries are the reader's share of the log, and each retry is paid for by a removal of the other side. */
  ghost predicate Accounts(s: State)
    requires Frontier(s)
  {
    && s.delivered == Picked(s.log, s.takers, ByReader)
    && s.retriesC + (if Attempt(s) < |s.takers| then 1 else 0) <= CountOf(s.takers, ByEvictor)
    && s.retriesP + (if DiscardAttempt(s) < |s.takers| then 1 else 0) <= CountOf(s.takers, ByReader)
  }

  ghost predicate Good(s: State) {
    Frontier(s) && ProducerInv(s) && ConsumerInv(s) && Accounts(s)
  }
}
