/** Guarantees over whole runs of the two-sided ring. */
module RaceSafety {
  import opened Common
  import opened Frames
  import opened RingRace
  import opened RaceInvariant

  // ---- Runs ----

  predicate Legal(s: State, run: seq<Action>)
    decreases |run|, 0
  {
    run == [] ||
    var n := |run| - 1;
    Legal(s, run[..n]) && Enabled(Exec(s, run[..n]), run[n])
  }

  function Exec(s: State, run: seq<Action>): State
    requires Legal(s, run)
    decreases |run|, 1
  {
    if run == [] then s else Next(Exec(s, run[..|run| - 1]), run[|run| - 1])
  }

  lemma StepKeeps(s: State, a: Action)
    requires Enabled(s, a) && (s.wild || Good(s))
    ensures Next(s, a).wild || Good(Next(s, a))
    ensures s.wild ==> Next(s, a).wild
  {
    hide Stored, Stream, Picked, CountOf;
    if !s.wild {
      match a {
        case StartWrite(m) => ProducerMoves(s, PLoop(m));
        case StartRead => ConsumerMoves(s, CLoop);
        case P(k) => ProducerKeeps(s, k);
        case C(k) => ConsumerKeeps(s, k);
      }
    }
  }

  /** Every reachable state that is not wild satisfies the invariant. */
  lemma {:induction false} Reachable(s0: State, run: seq<Action>)
    requires Init(s0) && Legal(s0, run)
    ensures Exec(s0, run).wild || Good(Exec(s0, run))
  {
    if run == [] {
    } else {
      var n := |run| - 1;
      Reachable(s0, run[..n]);
      StepKeeps(Exec(s0, run[..n]), run[n]);
    }
  }

  // ---- No torn reads, exactly once, in order ----

  /** A read that completes hands over, byte for byte, the oldest committed message nobody has taken, provided only that
      a committed message lay at the loaded position when this attempt read its first byte, and that fewer than 2^32
      bytes went by since. */
  lemma NoTornRead(s0: State, run: seq<Action>, k: nat)
    requires Init(s0) && Legal(s0, run) && !Exec(s0, run).wild && Enabled(Exec(s0, run), C(k))
    requires var s := Exec(s0, run); Next(s, C(k)).delivered != s.delivered && s.c.backed && s.readPos < s.c.r + TWO_32
    ensures var s := Exec(s0, run); TakesOldest(s, Next(s, C(k))) && !Next(s, C(k)).wild
  {
    hide Stored, Stream, Picked, CountOf, ProducerStep, Legal;
    Reachable(s0, run);
    TakeIsWhole(Exec(s0, run), k);
  }

  /** From `s` to `s'` the reader takes the oldest committed message, whole. */
  ghost predicate TakesOldest(s: State, s': State) {
    && |s.takers| < |s.log|
    && s'.delivered == s.delivered + [s.log[|s.takers|]]
    && s'.takers == s.takers + [ByReader]
    && s'.readPos == s.readPos + |Frame(s.log[|s.takers|])|
  }

  lemma TakeIsWhole(s: State, k: nat)
    requires Good(s) && Enabled(s, C(k)) && ConsumerStep(s, k).delivered != s.delivered
    requires s.c.backed && s.readPos < s.c.r + TWO_32
    ensures TakesOldest(s, ConsumerStep(s, k)) && (ConsumerStep(s, k).wild ==> s.wild)
  {
    hide Stored, Stream, Picked, CountOf, ProducerStep, ProducerInv;
    PosMonotone(s.log, s.c.ct, |s.takers|);
    SameMeans(s.readPos, s.c.r);
    assert s.c.ct == |s.takers|;
    assert Copied(s.c.len, s.c.got) == s.log[s.c.ct];
  }

  /** Which messages of the log `who` has taken. */
  function Indices(takers: seq<Taker>, who: Taker): seq<nat> {
    if takers == [] then []
    else
      var n := |takers| - 1;
      Indices(takers[..n], who) + if takers[n] == who then [n] else []
  }

  ghost predicate Increasing(s: seq<nat>) {
    forall i, j :: 0 <= i < j < |s| ==> s[i] < s[j]
  }

  /** `ix` names places of `who` in increasing order. */
  ghost predicate PlacesOf(ix: seq<nat>, takers: seq<Taker>, who: Taker) {
    Increasing(ix) && forall i :: 0 <= i < |ix| ==> ix[i] < |takers| && takers[ix[i]] == who
  }

  lemma PlacesGrow(ix: seq<nat>, takers: seq<Taker>, who: Taker, next: Taker)
    requires PlacesOf(ix, takers, who)
    ensures PlacesOf(ix, takers + [next], who)
    ensures next == who ==> PlacesOf(ix + [|takers|], takers + [next], who)
  {
  }

  lemma {:induction false} IndicesGrow(takers: seq<Taker>, who: Taker)
    ensures PlacesOf(Indices(takers, who), takers, who)
  {
    if takers == [] {
    } else {
      var n := |takers| - 1;
      assert takers == takers[..n] + [takers[n]];
      hide PlacesOf;
      IndicesGrow(takers[..n], who);
      PlacesGrow(Indices(takers[..n], who), takers[..n], who, takers[n]);
      assert Indices(takers, who) == if takers[n] == who then Indices(takers[..n], who) + [n] else Indices(takers[..n], who);
    }
  }

  lemma {:induction false} IndicesComplete(takers: seq<Taker>, who: Taker, n: nat)
    requires n < |takers| && takers[n] == who
    ensures n in Indices(takers, who)
  {
    if n == |takers| - 1 {
    } else {
      IndicesComplete(takers[..|takers| - 1], who, n);
    }
  }

  lemma {:induction false} PickedAtIndices(log: seq<Payload>, takers: seq<Taker>, who: Taker)
    requires |takers| <= |log|
    ensures var ix, q := Indices(takers, who), Picked(log, takers, who);
      |ix| == |q| && forall i :: 0 <= i < |ix| ==> ix[i] < |log| && q[i] == log[ix[i]]
  {
    if takers == [] {
    } else {
      PickedAtIndices(log, takers[..|takers| - 1], who);
    }
  }

  /** What one side has taken is the log at an increasing list of places, all of its places and no others. */
  lemma {:induction false} IndicesSplit(log: seq<Payload>, takers: seq<Taker>, who: Taker)
    requires |takers| <= |log|
    ensures var ix := Indices(takers, who); var q := Picked(log, takers, who);
      && Increasing(ix)
      && |ix| == |q|
      && (forall i :: 0 <= i < |ix| ==> ix[i] < |takers| && takers[ix[i]] == who && q[i] == log[ix[i]])
      && (forall n :: 0 <= n < |takers| && takers[n] == who ==> n in ix)
  {
    IndicesGrow(takers, who);
    PickedAtIndices(log, takers, who);
    forall n | 0 <= n < |takers| && takers[n] == who ensures n in Indices(takers, who) {
      IndicesComplete(takers, who, n);
    }
  }

  /** Over every run, each message taken out of the ring is taken once, by the reader or by an eviction, oldest first;
      what the reader got is the log at its own indices, in increasing order. */
  lemma {:induction false} ExactlyOnceInOrder(s0: State, run: seq<Action>)
    requires Init(s0) && Legal(s0, run) && !Exec(s0, run).wild
    ensures var s := Exec(s0, run);
      var read, dropped := Indices(s.takers, ByReader), Indices(s.takers, ByEvictor);
      && Increasing(read) && Increasing(dropped)
      && |s.delivered| == |read|
      && (forall i :: 0 <= i < |read| ==> read[i] < |s.log| && s.delivered[i] == s.log[read[i]])
      && (forall n :: n in read ==> n !in dropped)
      && (forall n: nat :: n < |s.takers| <==> n in read || n in dropped)
  {
    Reachable(s0, run);
    var s := Exec(s0, run);
    IndicesSplit(s.log, s.takers, ByReader);
    IndicesSplit(s.log, s.takers, ByEvictor);
    var read, dropped := Indices(s.takers, ByReader), Indices(s.takers, ByEvictor);
    forall n: nat | n < |s.takers| ensures n in read || n in dropped {
      assert s.takers[n] == ByReader || s.takers[n] == ByEvictor;
    }
  }

  // ---- Count and frontier ----

  /** The count is the number of committed messages not yet taken plus the decrements under way, at most 500; and the read
      position overtakes the write position only while the writer is between its two publishing steps, by exactly the
      message being published. */
  lemma CountAndFrontier(s0: State, run: seq<Action>)
    requires Init(s0) && Legal(s0, run) && !Exec(s0, run).wild
    ensures var s := Exec(s0, run);
      && s.count == |s.log| - |s.takers| + PendingP(s) + PendingC(s) <= MAX_MESSAGES
      && (s.readPos > s.writePos ==>
            && s.p.PStore? && s.readPos == s.p.w && |s.takers| == |s.log| > 0
            && s.readPos == s.writePos + |Frame(s.log[|s.log| - 1])|)
  {
    Reachable(s0, run);
    hide Stored, Stream, Picked, CountOf, ConsumerInv, ProducerInv, Next;
    var s := Exec(s0, run);
    if s.readPos > s.writePos {
      Overtaken(s);
    }
  }

  /** Corrupted is answered only by a read attempt that was not backed, or after a positive multiple of 2^32 bytes went
      by; never by the writer. The answer changes nothing else. */
  lemma {:induction false} CorruptedOnlyUnbacked(s0: State, run: seq<Action>, a: Action)
    requires Init(s0) && Legal(s0, run) && !Exec(s0, run).wild && Enabled(Exec(s0, run), a)
    requires Next(Exec(s0, run), a).reports != Exec(s0, run).reports
    ensures var s := Exec(s0, run);
      && a.C? && s.c.CRecheck?
      && (!s.c.backed || (s.readPos > s.c.r && (s.readPos - s.c.r) % TWO_32 == 0))
      && Next(s, a) == s.(c := CIdle, reports := s.reports + 1)
  {
    hide Legal, Exec, Next, Enabled, Good;
    Reachable(s0, run);
    ReportIsUnbacked(Exec(s0, run), a);
  }

  lemma ReportIsUnbacked(s: State, a: Action)
    requires Good(s) && Enabled(s, a) && Next(s, a).reports != s.reports
    ensures a.C? && s.c.CRecheck? && Next(s, a) == s.(c := CIdle, reports := s.reports + 1)
    ensures !s.c.backed || (s.readPos > s.c.r && (s.readPos - s.c.r) % TWO_32 == 0)
  {
    hide Stored, Stream, Picked, CountOf;
    if a.P? {
      HeaderBytes(s.mem, s.p.r, s.log, s.p.rt);
    } else {
      PosMonotone(s.log, s.c.ct, |s.takers|);
      SameMeans(s.readPos, s.c.r);
    }
  }

  /** A write in progress is given up. */
  predicate GivesUp(s: State, k: nat)
    requires Enabled(s, P(k))
  {
    s.p != PIdle && !s.p.PStore? && ProducerStep(s, k).p == PIdle
  }

  /** When a write of legal size fails: exactly when the space check on the loaded read position fails but the count is
      zero (MessageTooLarge), or when discard_oldest loads a read position equal to the write position (QueueEmpty).
      Either way the reader has emptied the ring meanwhile, and nothing but the producer's own place has changed. */
  lemma WriteFailsOnlyWhenEmptied(s0: State, run: seq<Action>, k: nat)
    requires Init(s0) && Legal(s0, run) && !Exec(s0, run).wild && Enabled(Exec(s0, run), P(k))
    ensures var s := Exec(s0, run);
      && (GivesUp(s, k) <==>
            || (s.p.PGotRead? && s.count == 0 && s.p.w + |Frame(s.p.m)| > s.p.r + RING_CAPACITY)
            || (s.p.PDiscardRead? && s.p.r == s.writePos))
      && (GivesUp(s, k) ==> |s.takers| == |s.log| && ProducerStep(s, k) == s.(p := PIdle))
  {
    hide Stored, Stream, Picked, CountOf, Legal, ConsumerInv;
    Reachable(s0, run);
    FailureIsEmptiness(Exec(s0, run), k);
  }

  lemma FailureIsEmptiness(s: State, k: nat)
    requires Good(s) && Enabled(s, P(k))
    ensures GivesUp(s, k) <==>
            || (s.p.PGotRead? && s.count == 0 && s.p.w + |Frame(s.p.m)| > s.p.r + RING_CAPACITY)
            || (s.p.PDiscardRead? && s.p.r == s.writePos)
    ensures GivesUp(s, k) ==> |s.takers| == |s.log| && ProducerStep(s, k) == s.(p := PIdle)
  {
    hide Stored, Stream, Picked, CountOf, ConsumerInv, ConsumerStep;
    EndOfLog(s);
    match s.p {
      case PGotRead(_, w, r) => WrappedPositionsAreExact(w, r);
      case PDiscardRead(_, r, rt) =>
        PosEnds(s.log);
        PosMonotone(s.log, rt, |s.log|);
        WrappedPositionsAreExact(s.writePos, r);
      case PDiscardLo(_, r, rt, _) => HeaderBytes(s.mem, r, s.log, rt);
      case _ =>
    }
  }

  lemma Overtaken(s: State)
    requires Good(s) && s.readPos > s.writePos
    ensures s.p.PStore? && s.readPos == s.p.w && |s.takers| == |s.log| > 0
    ensures s.readPos == s.writePos + |Frame(s.log[|s.log| - 1])|
  {
    hide Stored, Stream, Picked, CountOf, ConsumerInv, Next;
    EndOfLog(s);
    PosEnds(s.log);
    PosStep(s.log, |s.log| - 1);
    if |s.takers| < |s.log| {
      PosMonotone(s.log, |s.takers|, |s.log| - 1);
    }
  }

  /** The space check can only err on the safe side: whatever read position the producer compared with, the cells it
      then writes hold no committed message that is still to be taken. */
  lemma {:induction false} StaleReadIsSafe(s0: State, run: seq<Action>, k: nat, i: nat)
    requires Init(s0) && Legal(s0, run) && !Exec(s0, run).wild
    requires var s := Exec(s0, run); s.p.PCopy? && k < |Frame(s.p.m)| && s.readPos <= i < |Stream(s.log)|
    ensures var s := Exec(s0, run); Cell(s.p.w, k) != Cell(i, 0)
  {
    Reachable(s0, run);
    hide Good, Next, Cell, Stream;
    CopyCells(Exec(s0, run), k, i);
  }

  lemma CopyCells(s: State, k: nat, i: nat)
    requires Good(s) && s.p.PCopy? && k < |Frame(s.p.m)| && s.readPos <= i < |Stream(s.log)|
    ensures Cell(s.p.w, k) != Cell(i, 0)
  {
    hide Stored, Stream, Picked, CountOf, ConsumerInv, Next;
    EndOfLog(s);
    DistinctCells(i, s.p.w + k);
  }

  /** Each retry of one side is paid for by a removal of the other: retries never exceed removals. */
  lemma {:induction false} RetriesArePaidFor(s0: State, run: seq<Action>)
    requires Init(s0) && Legal(s0, run) && !Exec(s0, run).wild
    ensures var s := Exec(s0, run);
      s.retriesC <= CountOf(s.takers, ByEvictor) && s.retriesP <= CountOf(s.takers, ByReader)
  {
    Reachable(s0, run);
  }

  // ---- A write ends, whatever the consumer does ----

  const LAP: nat := 70_004

  /** An upper bound on the producer's remaining steps: the messages it may still have to remove, and how far the
      current attempt has come. */
  function Rank(s: State): int {
    match s.p
    case PIdle => 0
    case PStore(_, _, _) => 1
    case _ => (|s.log| - DiscardAttempt(s)) * LAP + Stage(s.p)
  }

  function Stage(p: Producer): int {
    match p
    case PDiscardDec(_) => 70_003
    case PLoop(_) => 70_002
    case PGotWrite(_, _) => 70_001
    case PGotRead(_, _, _) => 70_000
    case PDiscard(_) => 7
    case PDiscardRead(_, _, _) => 6
    case PDiscardLen(_, _, _) => 5
    case PDiscardLo(_, _, _, _) => 4
    case PDiscardCas(_, _, _, _) => 3
    case PCopy(m, _, done) => 2 + |Frame(m)| - |done|
    case _ => 0
  }

  lemma BelowBound(done: set<nat>, n: nat)
    requires forall k :: k in done ==> k < n
    ensures |done| <= n
    ensures !AllOf(n, done) ==> |done| < n
  {
    SubsetSize(done, Range(n));
    if !AllOf(n, done) {
      var k: nat :| k < n && k !in done;
      SubsetSize(done, Range(n) - {k});
    }
  }

  function Range(n: nat): (r: set<nat>)
    ensures |r| == n && forall k: nat :: k in r <==> k < n
  {
    if n == 0 then {} else Range(n - 1) + {n - 1}
  }

  lemma {:induction false} SubsetSize(a: set<nat>, b: set<nat>)
    requires a <= b
    ensures |a| <= |b|
  {
    if a == {} {
    } else {
      var x :| x in a;
      SubsetSize(a - {x}, b - {x});
    }
  }

  lemma CopyDescends(s: State, k: nat)
    requires Good(s) && Enabled(s, P(k)) && s.p.PCopy?
    ensures 0 <= Rank(ProducerStep(s, k)) < Rank(s)
  {
    hide Stored, Stream, Picked, CountOf, Loaded, ConsumerInv, ConsumerStep;
    BelowBound(s.p.done, |Frame(s.p.m)|);
  }

  lemma CasDescends(s: State, k: nat)
    requires Good(s) && Enabled(s, P(k)) && s.p.PDiscardCas?
    ensures 0 <= Rank(ProducerStep(s, k)) < Rank(s)
  {
    hide Stored, Stream, Picked, CountOf, Loaded, ConsumerInv, ConsumerStep;
    PosMonotone(s.log, s.p.rt, |s.takers|);
    EndOfLog(s);
    WrappedPositionsAreExact(s.readPos, s.p.r);
  }

  lemma ProducerDescends(s: State, k: nat)
    requires Good(s) && Enabled(s, P(k))
    ensures 0 <= Rank(ProducerStep(s, k)) < Rank(s)
  {
    hide Stored, Stream, Picked, CountOf, Loaded, ConsumerInv, ConsumerStep;
    if s.p.PCopy? {
      CopyDescends(s, k);
    } else if s.p.PDiscardCas? {
      CasDescends(s, k);
    }
  }

  lemma ConsumerDoesNotAscend(s: State, k: nat)
    requires Good(s) && Enabled(s, C(k))
    ensures ConsumerStep(s, k).wild || Rank(ConsumerStep(s, k)) <= Rank(s)
  {
    hide Stored, Stream, Picked, CountOf, ProducerInv;
    if s.c.CCopy? && AllOf(s.c.len, s.c.got.Keys) && s.readPos == s.c.r {
      PosMonotone(s.log, s.c.ct, |s.takers|);
    }
  }

  function OwnSteps(run: seq<Action>): nat {
    if run == [] then 0 else OwnSteps(run[..|run| - 1]) + if run[|run| - 1].P? then 1 else 0
  }

  /** A write in progress takes at most Rank more steps of its own, however the consumer's steps fall between them. */
  lemma {:induction false} WriteTerminates(s: State, run: seq<Action>)
    requires Good(s) && Legal(s, run) && !Exec(s, run).wild
    requires forall i :: 0 <= i < |run| ==> Legal(s, run[..i]) && Exec(s, run[..i]).p != PIdle
    ensures OwnSteps(run) + Rank(Exec(s, run)) <= Rank(s) && Good(Exec(s, run))
  {
    if run == [] {
    } else {
      var n := |run| - 1;
      var r := run[..n];
      forall i | 0 <= i < |r| ensures Legal(s, r[..i]) && Exec(s, r[..i]).p != PIdle {
        assert r[..i] == run[..i];
      }
      if Exec(s, r).wild {
        WildSticks(Exec(s, r), run[n]);
      }
      WriteTerminates(s, r);
      var x := Exec(s, r);
      StepKeeps(x, run[n]);
      match run[n] {
        case P(k) => ProducerDescends(x, k);
        case C(k) => ConsumerDoesNotAscend(x, k);
        case StartRead =>
        case StartWrite(_) => assert false;
      }
    }
  }

  lemma WildSticks(s: State, a: Action)
    requires Enabled(s, a) && s.wild
    ensures Next(s, a).wild
  {
  }

  /** The bound for a whole call. */
  lemma {:induction false} WriteStepBound(s: State, run: seq<Action>)
    requires Good(s) && s.p.PLoop? && Legal(s, run) && !Exec(s, run).wild
    requires forall i :: 0 <= i < |run| ==> Legal(s, run[..i]) && Exec(s, run[..i]).p != PIdle
    ensures OwnSteps(run) <= (MAX_MESSAGES + 1) * LAP
  {
    WriteTerminates(s, run);
    RankNotNegative(Exec(s, run));
  }

  lemma RankNotNegative(s: State)
    requires Good(s)
    ensures Rank(s) >= 0
  {
    if s.p.PCopy? {
      BelowBound(s.p.done, |Frame(s.p.m)|);
    }
  }

  lemma SameMeans(a: nat, b: nat)
    requires b <= a
    ensures Same(a, b) <==> (a - b) % TWO_32 == 0
  {
    var qa, qb := a / TWO_32, b / TWO_32;
    var q := (a - b) / TWO_32;
  }
}
