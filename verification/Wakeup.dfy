/**
  A worker that reads the ring in batches and sleeps on the auto-reset data event, against a writer that signals the
  event only when it made the ring nonempty. The ring's own steps are those of RingRace, so the interleaving is at the
  grain of single atomic operations. Server and client use the same pair of rings in mirror image.
*/
module Wakeup {
  import opened Common
  import opened Frames
  import opened RingRace
  import opened RaceSafety

  /** The receiving worker: `left` reads remain in the current batch. It leaves the connection when a read answers
      Corrupted. */
  datatype Worker = Reading(left: nat) | AboutToWait | Waiting | Left

  datatype Sys = Sys(ring: State, worker: Worker, event: bool, signalDue: bool)

  datatype Move =
    | Writer(m: Payload)      // send: start a write
    | WriterStep(k: nat)      // one step of write_message
    | Signal                  // data.set() after a write that found the ring empty
    | ReadNext                // start the next read of the batch, or the next batch when this one is used up
    | ReaderStep(k: nat)      // one step of read_message
    | EnterWait
    | WakeByData              // the wait takes the data event and resets it
    | WakeOtherwise           // timeout, or another event of the wait set

  ghost predicate Fresh(s: Sys, batch: nat) {
    Init(s.ring) && s.worker == Reading(AtLeastOne(batch)) && !s.signalDue
  }

  predicate Can(s: Sys, v: Move) {
    match v
    case Writer(m) => !s.signalDue && Enabled(s.ring, StartWrite(m))
    case WriterStep(k) => Enabled(s.ring, P(k))
    case Signal => s.signalDue
    case ReadNext => s.worker.Reading? && Enabled(s.ring, StartRead)
    case ReaderStep(k) => s.worker.Reading? && Enabled(s.ring, C(k))
    case EnterWait => s.worker.AboutToWait?
    case WakeByData => s.worker.Waiting? && s.event
    case WakeOtherwise => s.worker.Waiting?
  }

  function Do(s: Sys, v: Move, batch: nat): Sys
    requires Can(s, v)
  {
    match v
    case Writer(m) => s.(ring := Next(s.ring, StartWrite(m)))
    case WriterStep(k) =>
      s.(ring := Next(s.ring, P(k)), signalDue := s.signalDue || (s.ring.p.PStore? && s.ring.p.prev == 0))
    case Signal => s.(event := true, signalDue := false)
    case ReadNext =>
      if s.worker.left == 0 then s.(worker := Reading(AtLeastOne(batch)))   // more_pending: no wait
      else s.(ring := Next(s.ring, StartRead))
    case ReaderStep(k) =>
      var s' := s.(ring := Next(s.ring, C(k)));
      if s.ring.c.CLoop? && s.ring.count == 0 then s'.(worker := AboutToWait)      // QueueEmpty
      else if s.ring.c.CRecheck? && s'.ring.reports != s.ring.reports then s'.(worker := Left)    // Corrupted: fatal
      else if s.ring.c.CDec? && s.worker.left > 0 then s'.(worker := Reading(s.worker.left - 1))
      else s'
    case EnterWait => s.(worker := Waiting)
    case WakeByData => s.(event := false, worker := Reading(AtLeastOne(batch)))
    case WakeOtherwise => s.(worker := Reading(AtLeastOne(batch)))
  }

  /** The worker is about to sleep or asleep. */
  predicate Resting(w: Worker) {
    w.AboutToWait? || w.Waiting?
  }

  /** The wakeup is in the event or still with the writer. */
  predicate WakeupPending(s: Sys) {
    s.event || s.signalDue || (s.ring.p.PStore? && s.ring.p.prev == 0)
  }

  ghost predicate Awake(s: Sys) {
    && (s.signalDue ==> s.ring.p == PIdle)
    && (Resting(s.worker) ==> s.ring.c == CIdle && (s.ring.count > 0 ==> WakeupPending(s)))
  }

  lemma AwakeKept(s: Sys, v: Move, batch: nat)
    requires Can(s, v) && (s.ring.wild || (Good(s.ring) && Awake(s)))
    ensures var s' := Do(s, v, batch); s'.ring.wild || (Good(s'.ring) && Awake(s'))
  {
    hide Frontier, ProducerInv, ConsumerInv, Accounts;
    match v {
      case Writer(m) => StepKeeps(s.ring, StartWrite(m));
      case WriterStep(k) =>
        StepKeeps(s.ring, P(k));
        if !s.ring.wild && s.ring.p.PDiscardDec? {
          PendingIsCounted(s.ring);
        }
      case ReadNext => StepKeeps(s.ring, StartRead);
      case ReaderStep(k) => StepKeeps(s.ring, C(k));
      case _ =>
    }
  }

  lemma PendingIsCounted(s: State)
    requires Good(s) && s.p.PDiscardDec?
    ensures s.count > 0
  {
  }

  predicate Possible(s: Sys, moves: seq<Move>, batch: nat)
    decreases |moves|, 0
  {
    moves == [] ||
    var n := |moves| - 1;
    Possible(s, moves[..n], batch) && Can(After(s, moves[..n], batch), moves[n])
  }

  function After(s: Sys, moves: seq<Move>, batch: nat): Sys
    requires Possible(s, moves, batch)
    decreases |moves|, 1
  {
    if moves == [] then s else Do(After(s, moves[..|moves| - 1], batch), moves[|moves| - 1], batch)
  }

  lemma {:induction false} StaysAwake(s0: Sys, moves: seq<Move>, batch: nat)
    requires Fresh(s0, batch) && Possible(s0, moves, batch)
    ensures var s := After(s0, moves, batch); s.ring.wild || (Good(s.ring) && Awake(s))
  {
    if moves == [] {
    } else {
      var n := |moves| - 1;
      StaysAwake(s0, moves[..n], batch);
      AwakeKept(After(s0, moves[..n], batch), moves[n], batch);
    }
  }

  /** In every interleaving, a worker that is about to sleep or asleep on a nonempty ring has a wakeup on its way; once
      the writer is at rest the event itself is set. */
  lemma NoLostWakeup(s0: Sys, moves: seq<Move>, batch: nat)
    requires Fresh(s0, batch) && Possible(s0, moves, batch) && !After(s0, moves, batch).ring.wild
    requires Resting(After(s0, moves, batch).worker) && After(s0, moves, batch).ring.count > 0
    ensures var s := After(s0, moves, batch);
      WakeupPending(s) && (s.ring.p == PIdle && !s.signalDue ==> s.event)
  {
    StaysAwake(s0, moves, batch);
  }

  /** The worker gives a sound ring up only over a read attempt that was not backed, or that 2^32 bytes overtook. */
  lemma LeavesOnlyUnbacked(s0: Sys, moves: seq<Move>, batch: nat, v: Move)
    requires Fresh(s0, batch) && Possible(s0, moves, batch) && !After(s0, moves, batch).ring.wild
    requires Can(After(s0, moves, batch), v)
    requires var s := After(s0, moves, batch); !s.worker.Left? && Do(s, v, batch).worker.Left?
    ensures var r := After(s0, moves, batch).ring;
      && r.c.CRecheck?
      && (!r.c.backed || (r.readPos > r.c.r && (r.readPos - r.c.r) % TWO_32 == 0))
  {
    hide Good, Awake, Can, Do;
    StaysAwake(s0, moves, batch);
    LeavingStep(After(s0, moves, batch), v, batch);
  }

  lemma LeavingStep(s: Sys, v: Move, batch: nat)
    requires Can(s, v) && Good(s.ring) && !s.worker.Left? && Do(s, v, batch).worker.Left?
    ensures var r := s.ring;
      && r.c.CRecheck?
      && (!r.c.backed || (r.readPos > r.c.r && (r.readPos - r.c.r) % TWO_32 == 0))
  {
    hide Frontier, ProducerInv, ConsumerInv, Accounts, ProducerStep;
    ReportIsUnbacked(s.ring, C(v.k));
  }

  /** A worker that stays asleep with the writer at rest has been handed everything that was not overwritten. */
  lemma SleepsOnlyWhenDrained(s0: Sys, moves: seq<Move>, batch: nat)
    requires Fresh(s0, batch) && Possible(s0, moves, batch) && !After(s0, moves, batch).ring.wild
    requires var s := After(s0, moves, batch);
      s.worker.Waiting? && !s.event && s.ring.p == PIdle && !s.signalDue
    ensures var r := After(s0, moves, batch).ring;
      && |r.takers| == |r.log|
      && |r.delivered| + |Indices(r.takers, ByEvictor)| == |r.log|
  {
    StaysAwake(s0, moves, batch);
    var r := After(s0, moves, batch).ring;
    hide Stored, Stream;
    IndicesSplit(r.log, r.takers, ByReader);
    IndicesSplit(r.log, r.takers, ByEvictor);
    SharesAddUp(r.takers);
  }

  lemma {:induction false} SharesAddUp(takers: seq<Taker>)
    ensures |Indices(takers, ByReader)| + |Indices(takers, ByEvictor)| == |takers|
  {
    if takers == [] {
    } else {
      SharesAddUp(takers[..|takers| - 1]);
    }
  }
}
