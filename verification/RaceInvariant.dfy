/** Every step of either side keeps the ring invariant, unless it is one of the two wild steps. */
module RaceInvariant {
  import opened Common
  import opened Frames
  import opened RingRace

  /** What the storage says about message `i` when the stream from `i` on lies at position `r`. */
  lemma FrameByte(mem: seq<byte>, r: nat, log: seq<Payload>, i: nat, k: nat)
    requires |mem| == RING_CAPACITY && i < |log| && Stored(mem, r, Stream(log[i..])) && k < |Frame(log[i])|
    ensures mem[Cell(r, k)] == Frame(log[i])[k]
  {
    DropOldest(log, i);
    assert Stream(log[i..])[k] == Frame(log[i])[k];
  }

  lemma HeaderBytes(mem: seq<byte>, r: nat, log: seq<Payload>, i: nat)
    requires |mem| == RING_CAPACITY && i < |log| && Stored(mem, r, Stream(log[i..]))
    ensures mem[Cell(r, 0)] == Frame(log[i])[0]
    ensures LittleEndian(mem[Cell(r, 0)], mem[Cell(r, 1)]) == |log[i]|
  {
    FrameByte(mem, r, log, i, 0);
    FrameByte(mem, r, log, i, 1);
    LengthField(log[i]);
  }

  /** Positions of published messages, and what removing the oldest one does to them. */
  lemma OldestLeaves(s: State)
    requires Frontier(s) && |s.takers| < |s.log|
    ensures s.readPos + |Frame(s.log[|s.takers|])| == Pos(s.log, |s.takers| + 1) <= |Stream(s.log)|
    ensures Stored(s.mem, Pos(s.log, |s.takers| + 1), Stream(s.log[|s.takers| + 1..]))
  {
    var t := |s.takers|;
    PosStep(s.log, t);
    PosMonotone(s.log, t, |s.log|);
    PosEnds(s.log);
    DropOldest(s.log, t);
    StoredDrop(s.mem, s.readPos, Frame(s.log[t]), Stream(s.log[t + 1..]));
  }

  lemma {:induction false} PickedKeeps(log: seq<Payload>, m: Payload, takers: seq<Taker>, who: Taker)
    requires |takers| <= |log|
    ensures Picked(log + [m], takers, who) == Picked(log, takers, who)
  {
    if takers == [] {
    } else {
      PickedKeeps(log, m, takers[..|takers| - 1], who);
    }
  }

  lemma PickedTakes(log: seq<Payload>, takers: seq<Taker>, taker: Taker, who: Taker)
    requires |takers| < |log|
    ensures Picked(log, takers + [taker], who) == Picked(log, takers, who) + if taker == who then [log[|takers|]] else []
    ensures CountOf(takers + [taker], who) == CountOf(takers, who) + if taker == who then 1 else 0
  {
    assert (takers + [taker])[..|takers|] == takers;
  }

  /** Where the stream ends relative to the two positions. */
  lemma EndOfLog(s: State)
    requires Frontier(s)
    ensures !s.p.PStore? ==> s.writePos == |Stream(s.log)|
    ensures s.readPos <= |Stream(s.log)|
    ensures |s.takers| == |s.log| <==> s.readPos == |Stream(s.log)|
  {
    PosEnds(s.log);
    PosMonotone(s.log, |s.takers|, |s.log|);
    if |s.takers| < |s.log| {
      PosStep(s.log, |s.takers|);
    }
  }

  // ---- Producer ----

  lemma CommitFrontier(s: State, k: nat)
    requires Good(s) && Enabled(s, P(k)) && s.p.PCopy? && AllOf(|Frame(s.p.m)|, s.p.done)
    ensures Frontier(ProducerStep(s, k)) && ProducerInv(ProducerStep(s, k))
  {
    var m, t := s.p.m, |s.takers|;
    var log' := s.log + [m];
    assert |Stream(log')| == |Stream(s.log)| + |Frame(m)| by {
      StreamSnoc(s.log, m);
    }
    assert s.writePos == |Stream(s.log)| == Pos(s.log, |s.log|) by {
      EndOfLog(s);
      PosEnds(s.log);
    }
    PosPrefix(s.log, [m], t);
    PosPrefix(s.log, [m], |s.log|);
    CommittedBytes(s.mem, s.readPos, s.log, t, m, s.writePos, s.p.done);
  }

  lemma CommittedBytes(mem: seq<byte>, r: nat, log: seq<Payload>, t: nat, m: Payload, w: nat, done: set<nat>)
    requires |mem| == RING_CAPACITY && t <= |log| && r == Pos(log, t) && w == |Stream(log)|
    requires Stored(mem, r, Stream(log[t..])) && AllOf(|Frame(m)|, done)
    requires forall k :: k in done ==> k < |Frame(m)| && mem[Cell(w, k)] == Frame(m)[k]
    ensures Stored(mem, r, Stream((log + [m])[t..]))
  {
    WrittenIsStored(mem, m, w, done);
    hide Stored, Stream;
    assert (log + [m])[t..] == log[t..] + [m];
    StreamSnoc(log[t..], m);
    TailLength(log, t);
    StoredJoin(mem, r, Stream(log[t..]), Frame(m));
  }

  lemma WrittenIsStored(mem: seq<byte>, m: Payload, w: nat, done: set<nat>)
    requires |mem| == RING_CAPACITY && AllOf(|Frame(m)|, done)
    requires forall k :: k in done ==> k < |Frame(m)| && mem[Cell(w, k)] == Frame(m)[k]
    ensures Stored(mem, w, Frame(m))
  {
    forall k | 0 <= k < |Frame(m)| ensures mem[(w + k) % RING_CAPACITY] == Frame(m)[k] {
      assert k in done && mem[Cell(w, k)] == Frame(m)[k];
    }
  }

  lemma CommitKeeps(s: State, k: nat)
    requires Good(s) && Enabled(s, P(k)) && s.p.PCopy? && AllOf(|Frame(s.p.m)|, s.p.done)
    ensures Good(ProducerStep(s, k))
  {
    CommitFrontier(s, k);
    if s.c.CGotRead? || s.c.CLo? || s.c.CRecheck? || s.c.CCopy? {
      PosPrefix(s.log, [s.p.m], s.c.ct);
    }
    PickedKeeps(s.log, s.p.m, s.takers, ByReader);
  }

  /** The stream from message `i` on is the tail of the whole stream. */
  lemma TailLength(log: seq<Payload>, i: nat)
    requires i <= |log|
    ensures Pos(log, i) + |Stream(log[i..])| == |Stream(log)|
  {
    assert log == log[..i] + log[i..];
    StreamConcat(log[..i], log[i..]);
  }

  /** A byte laid down behind the stream, less than a lap past the read position, touches nothing stored. */
  lemma ByteSpares(mem: seq<byte>, r: nat, bytes: seq<byte>, w: nat, k: nat, b: byte)
    requires |mem| == RING_CAPACITY && Stored(mem, r, bytes)
    requires r + |bytes| <= w + k < r + RING_CAPACITY
    ensures Stored(mem[Cell(w, k) := b], r, bytes)
  {
    forall j | 0 <= j < |bytes| ensures mem[Cell(w, k) := b][(r + j) % RING_CAPACITY] == bytes[j] {
      DistinctCells(r + j, w + k);
    }
  }

  lemma ByteWritten(mem: seq<byte>, m: Payload, w: nat, done: set<nat>, k: nat)
    requires |mem| == RING_CAPACITY && k < |Frame(m)|
    requires forall j :: j in done ==> j < |Frame(m)| && mem[Cell(w, j)] == Frame(m)[j]
    ensures forall j :: j in done + {k} ==> j < |Frame(m)| && mem[Cell(w, k) := Frame(m)[k]][Cell(w, j)] == Frame(m)[j]
  {
    forall j | j in done + {k}
      ensures j < |Frame(m)| && mem[Cell(w, k) := Frame(m)[k]][Cell(w, j)] == Frame(m)[j]
    {
      if j < k {
        DistinctCells(w + j, w + k);
      } else if k < j {
        DistinctCells(w + k, w + j);
      }
    }
  }

  lemma ByteKeeps(s: State, k: nat)
    requires Good(s) && Enabled(s, P(k)) && s.p.PCopy? && !AllOf(|Frame(s.p.m)|, s.p.done)
    ensures Good(ProducerStep(s, k))
  {
    hide Stored, Stream, Picked, CountOf, ConsumerStep;
    var m, w, t := s.p.m, s.p.w, |s.takers|;
    EndOfLog(s);
    TailLength(s.log, t);
    ByteSpares(s.mem, s.readPos, Stream(s.log[t..]), w, k, Frame(m)[k]);
    ByteWritten(s.mem, m, w, s.p.done, k);
  }

  /** A producer step that only moves its program counter keeps everything but what that counter claims. */
  lemma ProducerMoves(s: State, p: Producer)
    requires Good(s) && !s.p.PStore? && !s.p.PDiscardDec? && !p.PStore? && !p.PDiscardDec?
    requires !s.p.PDiscardCas?
    ensures var s' := s.(p := p);
      Frontier(s') && (ProducerInv(s') && DiscardAttempt(s') >= DiscardAttempt(s) ==> Good(s'))
  {
    hide Stored, Stream, Remembered, Written, Picked, CountOf;
  }

  lemma EvictKeeps(s: State, k: nat)
    requires Good(s) && Enabled(s, P(k)) && s.p.PDiscardCas? && Same(s.readPos, s.p.r)
    ensures Good(ProducerStep(s, k))
  {
    hide Picked, CountOf, Stored, Stream, ConsumerStep;
    EndOfLog(s);
    PosMonotone(s.log, s.p.rt, |s.takers|);
    WrappedPositionsAreExact(s.readPos, s.p.r);
    assert s.readPos == s.p.r && s.p.rt == |s.takers|;
    OldestLeaves(s);
    PickedTakes(s.log, s.takers, ByEvictor, ByReader);
    PickedTakes(s.log, s.takers, ByEvictor, ByEvictor);
  }

  lemma EvictRetryKeeps(s: State, k: nat)
    requires Good(s) && Enabled(s, P(k)) && s.p.PDiscardCas? && !Same(s.readPos, s.p.r)
    ensures Good(ProducerStep(s, k))
  {
    hide Stored, Stream, ConsumerStep;
    PosMonotone(s.log, s.p.rt, |s.takers|);
  }

  lemma SpaceCheckKeeps(s: State, k: nat)
    requires Good(s) && Enabled(s, P(k)) && s.p.PGotRead?
    ensures Good(ProducerStep(s, k))
  {
    hide Stored, Stream, ConsumerStep;
    EndOfLog(s);
    WrappedPositionsAreExact(s.p.w, s.p.r);
    ProducerMoves(s, ProducerStep(s, k).p);
  }

  lemma EmptyCheckKeeps(s: State, k: nat)
    requires Good(s) && Enabled(s, P(k)) && s.p.PDiscardRead?
    ensures Good(ProducerStep(s, k))
  {
    hide Stored, Stream, ConsumerStep;
    EndOfLog(s);
    PosEnds(s.log);
    ProducerMoves(s, ProducerStep(s, k).p);
  }

  lemma LengthReadKeeps(s: State, k: nat)
    requires Good(s) && Enabled(s, P(k)) && (s.p.PDiscardLen? || s.p.PDiscardLo?)
    ensures Good(ProducerStep(s, k))
  {
    hide Stored, Stream, Cell, LittleEndian, ConsumerStep;
    HeaderBytes(s.mem, s.p.r, s.log, s.p.rt);
    ProducerMoves(s, ProducerStep(s, k).p);
  }

  lemma LoadsKeep(s: State, k: nat)
    requires Good(s) && Enabled(s, P(k)) && (s.p.PLoop? || s.p.PGotWrite? || s.p.PDiscard?)
    ensures Good(ProducerStep(s, k))
  {
    hide Stored, Stream, ConsumerStep;
    EndOfLog(s);
    ProducerMoves(s, ProducerStep(s, k).p);
  }

  lemma StoresKeep(s: State, k: nat)
    requires Good(s) && Enabled(s, P(k)) && (s.p.PDiscardDec? || s.p.PStore?)
    ensures Good(ProducerStep(s, k))
  {
    hide Stored, Stream, ConsumerStep;
    PosEnds(s.log);
  }

  lemma ProducerKeeps(s: State, k: nat)
    requires Good(s) && Enabled(s, P(k))
    ensures Good(ProducerStep(s, k))
  {
    match s.p {
      case PGotRead(_, _, _) => SpaceCheckKeeps(s, k);
      case PDiscardRead(_, _, _) => EmptyCheckKeeps(s, k);
      case PDiscardLen(_, _, _) => LengthReadKeeps(s, k);
      case PDiscardLo(_, _, _, _) => LengthReadKeeps(s, k);
      case PDiscardCas(_, r, _, _) =>
        if Same(s.readPos, r) {
          EvictKeeps(s, k);
        } else {
          EvictRetryKeeps(s, k);
        }
      case PCopy(m, _, done) =>
        if AllOf(|Frame(m)|, done) {
          CommitKeeps(s, k);
        } else {
          ByteKeeps(s, k);
        }
      case PDiscardDec(_) => StoresKeep(s, k);
      case PStore(_, _, _) => StoresKeep(s, k);
      case _ => LoadsKeep(s, k);
    }
  }

  // ---- Consumer ----

  /** A consumer step that only moves its program counter keeps everything but what that counter claims. */
  lemma ConsumerMoves(s: State, c: Consumer)
    requires Good(s) && !s.c.CDec? && !c.CDec?
    ensures var s' := s.(c := c);
      Frontier(s') && (ConsumerInv(s') && Attempt(s') >= Attempt(s) ==> Good(s'))
  {
    hide Stored, Stream, Picked, CountOf;
  }

  lemma LoadKeeps(s: State, k: nat)
    requires Good(s) && Enabled(s, C(k)) && s.c.CGotCount?
    ensures Good(ConsumerStep(s, k))
  {
    hide Stored, Stream, ProducerStep;
    ConsumerMoves(s, ConsumerStep(s, k).c);
  }

  lemma TakeKeeps(s: State, k: nat)
    requires Good(s) && Enabled(s, C(k)) && s.c.CCopy? && AllOf(s.c.len, s.c.got.Keys) && s.readPos == s.c.r
    requires s.c.backed
    ensures Good(ConsumerStep(s, k))
  {
    hide Picked, CountOf, Stored, Stream, ProducerStep;
    var t, ct := |s.takers|, s.c.ct;
    assert ct == t by {
      PosMonotone(s.log, ct, t);
    }
    assert Copied(s.c.len, s.c.got) == s.log[t];
    OldestLeaves(s);
    PickedTakes(s.log, s.takers, ByReader, ByReader);
    PickedTakes(s.log, s.takers, ByReader, ByEvictor);
  }

  lemma RetryKeeps(s: State, k: nat)
    requires Good(s) && Enabled(s, C(k))
    requires (s.c.CRecheck? || (s.c.CCopy? && AllOf(s.c.len, s.c.got.Keys))) && !Same(s.readPos, s.c.r)
    ensures Good(ConsumerStep(s, k))
  {
    hide Stored, Stream, ProducerStep;
    PosMonotone(s.log, s.c.ct, |s.takers|);
  }

  lemma LengthSeenKeeps(s: State, k: nat)
    requires Good(s) && Enabled(s, C(k)) && (s.c.CGotRead? || s.c.CLo?)
    ensures Good(ConsumerStep(s, k))
  {
    hide Stored, Stream, Cell, LittleEndian, ProducerStep;
    if s.c.ct == |s.takers| < |s.log| {
      HeaderBytes(s.mem, s.c.r, s.log, s.c.ct);
    }
    ConsumerMoves(s, ConsumerStep(s, k).c);
  }

  /** An answer of Corrupted changes nothing in the ring. */
  lemma ReportKeeps(s: State, k: nat)
    requires Good(s) && Enabled(s, C(k)) && s.c.CRecheck? && Same(s.readPos, s.c.r)
    ensures Good(ConsumerStep(s, k))
  {
    hide Stored, Stream, Picked, CountOf, ProducerStep;
  }

  lemma ByteSeenKeeps(s: State, k: nat)
    requires Good(s) && Enabled(s, C(k)) && s.c.CCopy? && !AllOf(s.c.len, s.c.got.Keys)
    ensures Good(ConsumerStep(s, k))
  {
    hide Stored, Stream, Cell, LittleEndian, ProducerStep;
    if s.c.backed && s.c.ct == |s.takers| {
      FrameByte(s.mem, s.c.r, s.log, s.c.ct, MESSAGE_HEADER_SIZE + k);
    }
    ConsumerMoves(s, ConsumerStep(s, k).c);
  }

  lemma PlainConsumerStepKeeps(s: State, k: nat)
    requires Good(s) && Enabled(s, C(k)) && (s.c.CLoop? || s.c.CDec?)
    ensures Good(ConsumerStep(s, k))
  {
    hide Stored, Stream, ProducerStep;
    if s.c.CLoop? {
      ConsumerMoves(s, ConsumerStep(s, k).c);
    }
  }

  lemma ConsumerKeeps(s: State, k: nat)
    requires Good(s) && Enabled(s, C(k))
    ensures Good(ConsumerStep(s, k)) || ConsumerStep(s, k).wild
  {
    match s.c {
      case CGotCount(_, _) => LoadKeeps(s, k);
      case CGotRead(_, _) => LengthSeenKeeps(s, k);
      case CLo(_, _, _, _) => LengthSeenKeeps(s, k);
      case CRecheck(r, _, _) =>
        if Same(s.readPos, r) {
          ReportKeeps(s, k);
        } else {
          RetryKeeps(s, k);
        }
      case CCopy(r, _, len, got, backed) =>
        if !AllOf(len, got.Keys) {
          ByteSeenKeeps(s, k);
        } else if !Same(s.readPos, r) {
          RetryKeeps(s, k);
        } else if s.readPos == r && backed {
          TakeKeeps(s, k);
        }
      case _ => PlainConsumerStepKeeps(s, k);
    }
  }
}
