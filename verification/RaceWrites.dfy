/**
  When a write of legal size is given up although the ring could take it. Nothing of the kind happens when a call runs
  alone. Under interleaving the reader can empty the ring between two of the writer's steps, and the writer then finds
  nothing to evict, or no message to make room by removing.
*/
module RaceWrites {
  import opened Common
  import opened Frames
  import opened RingRace
  import opened RaceInvariant
  import opened RaceSafety
  import opened RaceSolo

  /** The run stays tame and inside the write that is under way in `s`. */
  ghost predicate WriteLasts(s: State, run: seq<Action>)
    decreases |run|
  {
    && Legal(s, run) && Exec(s, run).p != PIdle && !Exec(s, run).wild
    && (run != [] ==> WriteLasts(s, run[..|run| - 1]))
  }

  /** The next step of the write ends it with MessageTooLarge. */
  predicate EndsTooLarge(s: State) {
    s.p.PGotRead? && Enabled(s, P(0)) && GivesUp(s, 0)
  }

  /** The next step of the write ends it with QueueEmpty. */
  predicate EndsQueueEmpty(s: State) {
    s.p.PDiscardRead? && Enabled(s, P(0)) && GivesUp(s, 0)
  }

  ghost predicate CanEndTooLarge(s: State) {
    exists run :: WriteLasts(s, run) && EndsTooLarge(Exec(s, run))
  }

  ghost predicate CanBeGivenUp(s: State) {
    exists run, k :: WriteLasts(s, run) && Enabled(Exec(s, run), P(k)) && GivesUp(Exec(s, run), k)
  }

  // ---- A write that has room ----

  /** Room as the writer has seen it, or will see it. */
  predicate RoomSeen(s: State) {
    match s.p
    case PLoop(m) => HasRoom(s, m)
    case PGotWrite(m, w) => HasRoom(s, m) && w == s.writePos
    case PGotRead(m, w, r) => w + |Frame(m)| <= r + RING_CAPACITY && s.count < MAX_MESSAGES
    case PCopy(_, _, _) => true
    case PStore(_, _, _) => true
    case _ => false
  }

  lemma RoomKept(s: State, a: Action)
    requires Good(s) && !s.wild && RoomSeen(s) && Enabled(s, a) && !Next(s, a).wild
    ensures RoomSeen(Next(s, a)) || Next(s, a).p == PIdle
    ensures a.P? ==> !GivesUp(s, a.k)
  {
    match a {
      case P(k) => WriterKeepsRoom(s, k);
      case C(k) => ReaderKeepsRoom(s, k);
      case _ =>
    }
  }

  lemma WriterKeepsRoom(s: State, k: nat)
    requires Good(s) && RoomSeen(s) && Enabled(s, P(k))
    ensures (RoomSeen(ProducerStep(s, k)) || s.p.PStore?) && !GivesUp(s, k)
  {
    hide Stored, Stream, Picked, CountOf, ConsumerInv, ConsumerStep;
    if s.p.PGotRead? {
      EndOfLog(s);
      WrappedPositionsAreExact(s.p.w, s.p.r);
    }
  }

  lemma ReaderKeepsRoom(s: State, k: nat)
    requires Good(s) && RoomSeen(s) && Enabled(s, C(k))
    ensures RoomSeen(ConsumerStep(s, k))
  {
    hide Stored, Stream, Picked, CountOf, ProducerInv, ProducerStep;
  }

  lemma {:induction false} RoomThroughout(s: State, run: seq<Action>)
    requires Good(s) && !s.wild && RoomSeen(s) && WriteLasts(s, run)
    ensures var e := Exec(s, run); Good(e) && !e.wild && RoomSeen(e)
    decreases |run|
  {
    if run == [] {
    } else {
      var n := |run| - 1;
      RoomThroughout(s, run[..n]);
      var e := Exec(s, run[..n]);
      hide Good, RoomSeen, Next, Enabled;
      StepKeeps(e, run[n]);
      RoomKept(e, run[n]);
    }
  }

  /** A write whose frame fits when it starts is never given up, wherever the reader is and whatever it does. */
  lemma NeverGivenUp(s: State)
    requires Good(s) && !s.wild && s.p.PLoop? && HasRoom(s, s.p.m)
    ensures !CanBeGivenUp(s)
  {
    forall run, k | WriteLasts(s, run) && Enabled(Exec(s, run), P(k)) ensures !GivesUp(Exec(s, run), k) {
      RoomThroughout(s, run);
      var e := Exec(s, run);
      hide Good, RoomSeen, WriteLasts;
      WriterKeepsRoom(e, k);
    }
  }

  // ---- A write whose bytes fit ----

  function MessageOf(p: Producer): Payload
    requires !p.PIdle? && !p.PStore?
  {
    p.m
  }

  /** The bytes fit behind the read position; only the message cap may stand in the way. */
  predicate BytesFit(s: State) {
    match s.p
    case PIdle => false
    case PStore(_, _, _) => true
    case PGotRead(m, w, r) => w + |Frame(m)| <= r + RING_CAPACITY
    case PGotWrite(m, w) => w == s.writePos && w + |Frame(m)| <= s.readPos + RING_CAPACITY
    case _ => s.writePos + |Frame(MessageOf(s.p))| <= s.readPos + RING_CAPACITY || s.p.PCopy?
  }

  lemma WriterKeepsBytes(s: State, k: nat)
    requires Good(s) && BytesFit(s) && Enabled(s, P(k))
    ensures BytesFit(ProducerStep(s, k)) || ProducerStep(s, k).p == PIdle
    ensures !EndsTooLarge(s)
  {
    hide Stored, Stream, Picked, CountOf, ConsumerInv, ConsumerStep;
    if s.p.PGotRead? {
      EndOfLog(s);
      WrappedPositionsAreExact(s.p.w, s.p.r);
    }
  }

  lemma ReaderKeepsBytes(s: State, k: nat)
    requires BytesFit(s) && Enabled(s, C(k))
    ensures BytesFit(ConsumerStep(s, k))
  {
    hide Stream, ProducerStep;
  }

  lemma BytesKept(s: State, a: Action)
    requires Good(s) && BytesFit(s) && Enabled(s, a)
    ensures BytesFit(Next(s, a)) || Next(s, a).p == PIdle
  {
    match a {
      case P(k) => WriterKeepsBytes(s, k);
      case C(k) => ReaderKeepsBytes(s, k);
      case _ =>
    }
  }

  lemma {:induction false} BytesThroughout(s: State, run: seq<Action>)
    requires Good(s) && !s.wild && BytesFit(s) && WriteLasts(s, run)
    ensures var e := Exec(s, run); Good(e) && !e.wild && BytesFit(e)
    decreases |run|
  {
    if run == [] {
    } else {
      var n := |run| - 1;
      BytesThroughout(s, run[..n]);
      var e := Exec(s, run[..n]);
      hide Good, BytesFit, Next, Enabled;
      StepKeeps(e, run[n]);
      BytesKept(e, run[n]);
    }
  }

  lemma NeverTooLarge(s: State)
    requires Good(s) && !s.wild && s.p.PLoop? && BytesFit(s)
    ensures !CanEndTooLarge(s)
  {
    forall run | WriteLasts(s, run) ensures !EndsTooLarge(Exec(s, run)) {
      BytesThroughout(s, run);
      var e := Exec(s, run);
      hide Good, BytesFit, WriteLasts;
      if EndsTooLarge(e) {
        WriterKeepsBytes(e, 0);
      }
    }
  }

  // ---- A write that has none ----

  /** The reader is not inside an attempt. */
  predicate BetweenAttempts(c: Consumer) {
    c.CIdle? || c.CDec?
  }

  lemma {:induction false} WriterLasts(s: State, run: seq<Action>, s': State)
    requires Goes(s, run, s') && WriterOnly(run) && !s'.wild && s'.p != PIdle
    ensures WriteLasts(s, run)
    decreases |run|
  {
    if run == [] {
    } else {
      var n := |run| - 1;
      var m := LastStep(s, run, s');
      WriterOnlyFront(run);
      WriterStepLasts(m, run[n]);
      hide Next, Enabled, Goes, WriteLasts, Legal, Exec, WriterOnly;
      WriterLasts(s, run[..n], m);
      var more := StepLasts(s, run[..n], m, run[n]);
      AllButLast(run);
    }
  }

  lemma WriterStepLasts(s: State, a: Action)
    requires Enabled(s, a) && a.P?
    ensures s.p != PIdle && (s.wild ==> Next(s, a).wild)
  {
  }

  lemma {:induction false} ReaderLasts(s: State, r1: seq<Action>, m: State, r2: seq<Action>, s': State)
    requires WriteLasts(s, r1) && Goes(s, r1, m) && Goes(m, r2, s') && ReaderOnly(r2) && !s'.wild && m.p != PIdle
    ensures WriteLasts(s, r1 + r2) && Goes(s, r1 + r2, s') && s'.p == m.p
    decreases |r2|
  {
    if r2 == [] {
      assert r1 + r2 == r1;
    } else {
      var n := |r2| - 1;
      var e := LastStep(m, r2, s');
      ReaderOnlyFront(r2);
      ReaderStepLasts(e, r2[n]);
      hide Next, Enabled, Goes, WriteLasts, Legal, Exec, ReaderOnly;
      ReaderLasts(s, r1, m, r2[..n], e);
      var more := StepLasts(s, r1 + r2[..n], e, r2[n]);
      Regroup(r1, r2);
    }
  }

  lemma ReaderStepLasts(s: State, a: Action)
    requires Enabled(s, a) && (a.C? || a.StartRead?)
    ensures Next(s, a).p == s.p && (s.wild ==> Next(s, a).wild)
  {
  }

  lemma StepLasts(s: State, run: seq<Action>, m: State, a: Action) returns (more: seq<Action>)
    requires WriteLasts(s, run) && Goes(s, run, m) && Enabled(m, a) && Next(m, a).p != PIdle && !Next(m, a).wild
    ensures more == run + [a] && WriteLasts(s, more) && Goes(s, more, Next(m, a))
  {
    more := GoesOn(s, run, m, a);
    assert more[..|more| - 1] == run;
  }

  /** The reader comes to rest. */
  lemma Settle(s: State) returns (run: seq<Action>, s': State)
    requires Good(s) && !s.wild && BetweenAttempts(s.c)
    ensures Goes(s, run, s') && ReaderOnly(run) && Good(s') && !s'.wild && s'.c == CIdle
    ensures s' == s.(c := CIdle, count := s'.count)
  {
    NoSteps();
    assert Goes(s, [], s);
    if s.c.CIdle? {
      run, s' := [], s;
    } else {
      SettleStep(s);
      hide Good, Goes, Next, Enabled, ReaderOnly;
      PlainConsumerStepKeeps(s, 0);
      run := ReadsOn(s, [], s, C(0));
      s' := Next(s, C(0));
    }
  }

  /** The reader empties the ring under the writer's hands. */
  lemma Empty(s: State, run: seq<Action>, m: State) returns (more: seq<Action>, s': State)
    requires WriteLasts(s, run) && Goes(s, run, m) && Good(m) && !m.wild && BetweenAttempts(m.c) && m.p != PIdle
    ensures WriteLasts(s, more) && Goes(s, more, s') && Good(s') && !s'.wild
    ensures s'.p == m.p && s'.c == CIdle && |s'.takers| == |s'.log| && s'.writePos == m.writePos
  {
    var r1, a := Settle(m);
    hide Good, Goes, WriteLasts, ReaderOnly;
    ReaderLasts(s, run, m, r1, a);
    var r2;
    r2, s' := DrainAlone(a);
    ReaderLasts(s, run + r1, a, r2, s');
    more := run + r1 + r2;
  }

  lemma EmptyMeans(s: State)
    requires Good(s) && s.c == CIdle && |s.takers| == |s.log|
    requires !s.p.PDiscardDec? && !s.p.PStore?
    ensures s.count == 0 && s.readPos == s.writePos
  {
    EndOfLog(s);
  }

  lemma TooLargeStep(s: State)
    requires Good(s) && s.p.PGotRead? && s.count == 0 && s.p.w + |Frame(s.p.m)| > s.p.r + RING_CAPACITY
    ensures EndsTooLarge(s)
  {
    FailureIsEmptiness(s, 0);
  }

  lemma QueueEmptyStep(s: State, m: Payload)
    requires Good(s) && s.p == PDiscard(m) && s.readPos == s.writePos
    ensures Enabled(s, P(0)) && Next(s, P(0)).p.PDiscardRead? && Next(s, P(0)).wild == s.wild
    ensures EndsQueueEmpty(Next(s, P(0)))
  {
  }

  /** The writer loads both positions, the reader empties the ring, the writer loads a count of zero. */
  lemma GiveUpTooLarge(s: State) returns (run: seq<Action>)
    requires Good(s) && !s.wild && s.p.PLoop? && BetweenAttempts(s.c) && !BytesFit(s)
    ensures WriteLasts(s, run) && EndsTooLarge(Exec(s, run))
  {
    var r1, g := LoadBoth(s);
    WriterLasts(s, r1, g);
    var e;
    run, e := Empty(s, r1, g);
    EmptyMeans(e);
    TooLargeStep(e);
  }

  /** The writer goes to evict, the reader empties the ring, and there is nothing to evict. */
  lemma GiveUpQueueEmpty(s: State) returns (run: seq<Action>)
    requires Good(s) && !s.wild && s.p.PLoop? && BetweenAttempts(s.c) && !HasRoom(s, s.p.m)
    ensures WriteLasts(s, run) && EndsQueueEmpty(Exec(s, run))
  {
    var r1, g := LoadsRefused(s);
    WriterLasts(s, r1, g);
    var e;
    run, e := Empty(s, r1, g);
    EmptyMeans(e);
    QueueEmptyStep(e, s.p.m);
    run := StepLasts(s, run, e, P(0));
  }

  // ---- The exact conditions, at the start of the call ----

  /** With the reader between two attempts, a write can be given up if and only if its frame does not fit as it starts. */
  lemma {:induction false} GivenUpIffNoRoom(s0: State, run: seq<Action>)
    requires Init(s0) && Legal(s0, run) && !Exec(s0, run).wild
    requires Exec(s0, run).p.PLoop? && BetweenAttempts(Exec(s0, run).c)
    ensures var s := Exec(s0, run); CanBeGivenUp(s) <==> !HasRoom(s, s.p.m)
  {
    Reachable(s0, run);
    var s := Exec(s0, run);
    hide Good, Legal, Exec, WriteLasts;
    if HasRoom(s, s.p.m) {
      NeverGivenUp(s);
    } else {
      var more := GiveUpQueueEmpty(s);
      assert Enabled(Exec(s, more), P(0)) && GivesUp(Exec(s, more), 0);
    }
  }

  /** ... and with MessageTooLarge if and only if its bytes do not fit; the message cap alone leads to QueueEmpty only. */
  lemma {:induction false} TooLargeIffNoBytes(s0: State, run: seq<Action>)
    requires Init(s0) && Legal(s0, run) && !Exec(s0, run).wild
    requires Exec(s0, run).p.PLoop? && BetweenAttempts(Exec(s0, run).c)
    ensures var s := Exec(s0, run); CanEndTooLarge(s) <==> s.writePos + |Frame(s.p.m)| > s.readPos + RING_CAPACITY
  {
    Reachable(s0, run);
    var s := Exec(s0, run);
    assert BytesFit(s) <==> s.writePos + |Frame(s.p.m)| <= s.readPos + RING_CAPACITY;
    hide Good, Legal, Exec, WriteLasts, BytesFit;
    if BytesFit(s) {
      NeverTooLarge(s);
    } else {
      var more := GiveUpTooLarge(s);
    }
  }

  // ---- What one eviction does ----

  /** Inside discard_oldest, on behalf of a write of `m`. */
  predicate Discarding(p: Producer, m: Payload) {
    p == PDiscard(m) || (p.PDiscardRead? && p.m == m) || (p.PDiscardLen? && p.m == m) || (p.PDiscardLo? && p.m == m)
    || (p.PDiscardCas? && p.m == m) || p == PDiscardDec(m)
  }

  /** The call of discard_oldest begun in `s` is under way until the last step of the run. */
  ghost predicate DiscardLasts(s: State, run: seq<Action>, m: Payload)
    decreases |run|
  {
    Legal(s, run) &&
    (run != [] ==> var n := |run| - 1; DiscardLasts(s, run[..n], m) && Discarding(Exec(s, run[..n]).p, m))
  }

  /** Messages evicted so far. */
  function EvictedBy(s: State): nat {
    CountOf(s.takers, ByEvictor)
  }

  lemma EvictionStep(s: State, a: Action, m: Payload)
    requires Enabled(s, a) && Discarding(s.p, m)
    ensures var s' := Next(s, a);
      && (Discarding(s'.p, m) || s'.p == PLoop(m) || s'.p == PIdle)
      && EvictedBy(s') == EvictedBy(s) + (if s'.p == PDiscardDec(m) && s.p != PDiscardDec(m) then 1 else 0)
      && (s.p == PDiscardDec(m) <==> s'.p == PLoop(m) || (s.p == PDiscardDec(m) && s'.p == PDiscardDec(m)))
      && (s.p == PDiscardDec(m) ==> s'.p == PLoop(m) || s'.p == PDiscardDec(m))
  {
    match a {
      case P(k) => WriterEviction(s, k, m);
      case C(k) => ReaderEviction(s, k);
      case _ =>
    }
  }

  lemma WriterEviction(s: State, k: nat, m: Payload)
    requires Enabled(s, P(k)) && Discarding(s.p, m)
    ensures var s' := ProducerStep(s, k);
      && (Discarding(s'.p, m) || s'.p == PLoop(m) || s'.p == PIdle)
      && EvictedBy(s') == EvictedBy(s) + (if s'.p == PDiscardDec(m) then 1 else 0)
      && (s.p == PDiscardDec(m) <==> s'.p == PLoop(m))
  {
    hide Cell, LittleEndian, U32, ConsumerStep;
    if s.p.PDiscardCas? && Same(s.readPos, s.p.r) {
      assert (s.takers + [ByEvictor])[..|s.takers|] == s.takers;
    }
  }

  lemma ReaderEviction(s: State, k: nat)
    requires Enabled(s, C(k))
    ensures ConsumerStep(s, k).p == s.p && EvictedBy(ConsumerStep(s, k)) == EvictedBy(s)
  {
    hide Cell, LittleEndian, U32, ProducerStep;
    assert (s.takers + [ByReader])[..|s.takers|] == s.takers;
  }

  /** Whatever the reader does and however often the compare-exchange fails: discard_oldest returns to the write with Ok
      after it has evicted exactly one message, and gives the write up having evicted none. */
  lemma {:induction false} DiscardEvictsExactlyOne(s: State, run: seq<Action>, m: Payload)
    requires s.p == PDiscard(m) && DiscardLasts(s, run, m)
    ensures var e := Exec(s, run);
      && (Discarding(e.p, m) || e.p == PLoop(m) || e.p == PIdle)
      && EvictedBy(e) == EvictedBy(s) + if e.p == PDiscardDec(m) || e.p == PLoop(m) then 1 else 0
    decreases |run|
  {
    if run == [] {
    } else {
      var n := |run| - 1;
      DiscardEvictsExactlyOne(s, run[..n], m);
      var e := Exec(s, run[..n]);
      hide Next, Enabled, EvictedBy;
      EvictionStep(e, run[n], m);
    }
  }
}
