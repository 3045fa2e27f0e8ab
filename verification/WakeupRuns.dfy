/** What the worker of module Wakeup gets done: it rests exactly when a read found the count at zero, and left to itself it
    takes everything there is and goes to sleep, woken by the event alone. */
module WakeupRuns {
  import opened Common
  import opened Frames
  import opened RingRace
  import opened RaceSafety
  import opened RaceSolo
  import opened Wakeup

  /** A step makes the worker rest if and only if its read loads a count of zero. */
  lemma RestsIffEmpty(s: Sys, v: Move, batch: nat)
    requires Can(s, v) && !Resting(s.worker)
    ensures Resting(Do(s, v, batch).worker) <==> v.ReaderStep? && s.ring.c == CLoop && s.ring.count == 0
  {
    hide ProducerStep;
  }

  ghost predicate Comes(s: Sys, moves: seq<Move>, batch: nat, s': Sys) {
    Possible(s, moves, batch) && After(s, moves, batch) == s'
  }

  lemma ComesOn(s: Sys, moves: seq<Move>, batch: nat, m: Sys, v: Move) returns (more: seq<Move>)
    requires Comes(s, moves, batch, m) && Can(m, v)
    ensures more == moves + [v] && Comes(s, more, batch, Do(m, v, batch))
  {
    more := moves + [v];
    assert more[..|more| - 1] == moves;
  }

  lemma LastMove(s: Sys, moves: seq<Move>, batch: nat, s': Sys) returns (m: Sys)
    requires Comes(s, moves, batch, s') && moves != []
    ensures var n := |moves| - 1;
      Comes(s, moves[..n], batch, m) && Can(m, moves[n]) && s' == Do(m, moves[n], batch)
  {
    m := After(s, moves[..|moves| - 1], batch);
  }

  lemma {:induction false} ComesThrough(s: Sys, m1: seq<Move>, batch: nat, m: Sys, m2: seq<Move>, s': Sys)
    requires Comes(s, m1, batch, m) && Comes(m, m2, batch, s')
    ensures Comes(s, m1 + m2, batch, s')
    decreases |m2|
  {
    if m2 == [] {
      assert m1 + m2 == m1;
    } else {
      var n := |m2| - 1;
      var e := LastMove(m, m2, batch, s');
      hide Comes, Do, Can, Possible, After;
      ComesThrough(s, m1, batch, m, m2[..n], e);
      var more := ComesOn(s, m1 + m2[..n], batch, e, m2[n]);
      Regroup(m1, m2);
    }
  }

  /** Moves of the worker, without timeouts. */
  predicate Own(v: Move) {
    v.ReadNext? || v.ReaderStep? || v.EnterWait? || v.WakeByData?
  }

  predicate AllOwn(moves: seq<Move>) {
    forall i :: 0 <= i < |moves| ==> Own(moves[i])
  }

  lemma OwnOn(s: Sys, moves: seq<Move>, batch: nat, m: Sys, v: Move) returns (more: seq<Move>)
    requires Comes(s, moves, batch, m) && Can(m, v) && AllOwn(moves) && Own(v)
    ensures Comes(s, more, batch, Do(m, v, batch)) && AllOwn(more)
  {
    more := ComesOn(s, moves, batch, m, v);
  }

  lemma OwnThrough(s: Sys, m1: seq<Move>, batch: nat, m: Sys, m2: seq<Move>, s': Sys)
    requires Comes(s, m1, batch, m) && Comes(m, m2, batch, s') && AllOwn(m1) && AllOwn(m2)
    ensures Comes(s, m1 + m2, batch, s') && AllOwn(m1 + m2)
  {
    ComesThrough(s, m1, batch, m, m2, s');
  }

  lemma NoMoves(s: Sys, batch: nat)
    ensures Comes(s, [], batch, s) && AllOwn([])
  {
  }

  // ---- Reads of the worker ----

  /** Inside a read, a step that does not end it leaves the worker in its batch. */
  lemma InsideRead(s: Sys, k: nat, batch: nat)
    requires s.worker.Reading? && Enabled(s.ring, C(k)) && Next(s.ring, C(k)).c != CIdle
    ensures Can(s, ReaderStep(k)) && Do(s, ReaderStep(k), batch) == s.(ring := Next(s.ring, C(k)))
    ensures s.ring.c != CIdle
  {
    hide ProducerStep;
  }

  lemma {:induction false} Mirror(s: Sys, run: seq<Action>, r: State, batch: nat) returns (moves: seq<Move>)
    requires s.worker.Reading? && Goes(s.ring, run, r) && WithinRead(run) && r.c != CIdle
    ensures Comes(s, moves, batch, s.(ring := r)) && AllOwn(moves)
    decreases |run|
  {
    if run == [] {
      moves := [];
      NoMoves(s, batch);
    } else {
      var n := |run| - 1;
      var m := LastStep(s.ring, run, r);
      WithinReadFront(run);
      var k := run[n].k;
      var e := s.(ring := m);
      InsideRead(e, k, batch);
      hide Comes, Do, Can, Goes, Next, Enabled, WithinRead, AllOwn;
      moves := Mirror(s, run[..n], m, batch);
      moves := OwnOn(s, moves, batch, e, ReaderStep(k));
    }
  }

  /** The worker at rest between two reads on a sound ring. */
  predicate Between(s: Sys) {
    s.ring.c == CIdle && !s.ring.wild
  }

  lemma ReadStarts(s: Sys, batch: nat)
    requires Good(s.ring) && Between(s) && s.worker.Reading?
    ensures Can(s, ReadNext)
    ensures s.worker.left == 0 ==> Do(s, ReadNext, batch) == s.(worker := Reading(AtLeastOne(batch)))
    ensures s.worker.left > 0 ==>
      Do(s, ReadNext, batch) == s.(ring := s.ring.(c := CLoop)) && Good(s.ring.(c := CLoop))
  {
    StartsRead(s.ring);
    hide Good;
  }

  lemma ReadFinishes(s: Sys, batch: nat)
    requires |s.ring.mem| == RING_CAPACITY && s.ring.c == CDec && s.worker.Reading? && s.worker.left > 0
    ensures Can(s, ReaderStep(0))
    ensures Do(s, ReaderStep(0), batch)
         == s.(ring := s.ring.(c := CIdle, count := Decr(s.ring.count)), worker := Reading(s.worker.left - 1))
  {
    SettleStep(s.ring);
    hide ConsumerStep, ProducerStep;
  }

  /** One read of a batch takes one message and uses up one place of the batch. */
  lemma WorkerReads(s: Sys, batch: nat) returns (moves: seq<Move>, s': Sys)
    requires Good(s.ring) && Between(s) && s.worker.Reading? && s.worker.left > 0 && |s.ring.takers| < |s.ring.log|
    ensures Comes(s, moves, batch, s') && AllOwn(moves) && Good(s'.ring) && Between(s')
    ensures s' == s.(ring := s'.ring, worker := Reading(s.worker.left - 1))
    ensures |s'.ring.takers| == |s.ring.takers| + 1 && s'.ring.log == s.ring.log && s'.ring.p == s.ring.p
  {
    ReadStarts(s, batch);
    NoMoves(s, batch);
    var l := s.(ring := s.ring.(c := CLoop));
    assert |s.ring.mem| == RING_CAPACITY;
    hide Good, Goes, Comes, Do, Can, AllOwn, WithinRead;
    moves := OwnOn(s, [], batch, s, ReadNext);
    var run, d := ReadFromLoop(l.ring);
    var e := l.(ring := d);
    var more := Mirror(l, run, d, batch);
    OwnThrough(s, moves, batch, l, more, e);
    ReadFinishes(e, batch);
    moves := OwnOn(s, moves + more, batch, e, ReaderStep(0));
    s' := Do(e, ReaderStep(0), batch);
    SettledIsGood(d);
  }

  lemma SettledIsGood(d: State)
    requires Good(d) && d.c == CDec && !d.wild
    ensures Good(d.(c := CIdle, count := Decr(d.count)))
  {
    hide ProducerInv, ConsumerInv, Accounts;
    SettleStep(d);
    StepKeeps(d, C(0));
  }

  /** The read that finds the ring empty sends the worker to sleep. */
  lemma WorkerSleeps(s: Sys, batch: nat) returns (moves: seq<Move>, s': Sys)
    requires Good(s.ring) && Between(s) && s.worker.Reading? && s.worker.left > 0
    requires |s.ring.takers| == |s.ring.log| && s.ring.p == PIdle
    ensures Comes(s, moves, batch, s') && AllOwn(moves) && s' == s.(worker := Waiting)
  {
    ReadStarts(s, batch);
    NoMoves(s, batch);
    var l := s.(ring := s.ring.(c := CLoop));
    assert s.ring.count == 0;
    FoundEmpty(l, batch);
    var a := s.(worker := AboutToWait);
    assert Can(a, EnterWait) && Do(a, EnterWait, batch) == s.(worker := Waiting);
    hide Good, Comes, Do, Can, AllOwn;
    moves := OwnOn(s, [], batch, s, ReadNext);
    moves := OwnOn(s, moves, batch, l, ReaderStep(0));
    moves := OwnOn(s, moves, batch, a, EnterWait);
    s' := s.(worker := Waiting);
  }

  lemma FoundEmpty(l: Sys, batch: nat)
    requires |l.ring.mem| == RING_CAPACITY && l.ring.c == CLoop && l.ring.count == 0 && l.worker.Reading?
    ensures Can(l, ReaderStep(0))
    ensures Do(l, ReaderStep(0), batch) == l.(ring := l.ring.(c := CIdle), worker := AboutToWait)
  {
    hide ProducerStep;
  }

  /** A worker that reads, batch after batch, with the writer at rest: it takes everything and goes to sleep. */
  lemma {:induction false} DrainsAndSleeps(s: Sys, batch: nat) returns (moves: seq<Move>, s': Sys)
    requires Good(s.ring) && Between(s) && s.worker.Reading? && s.ring.p == PIdle
    ensures Comes(s, moves, batch, s') && AllOwn(moves)
    ensures s'.worker == Waiting && |s'.ring.takers| == |s'.ring.log| && s'.ring.log == s.ring.log
    decreases |s.ring.log| - |s.ring.takers|, if s.worker.left == 0 then 1 else 0
  {
    assert |s.ring.takers| <= |s.ring.log|;
    if s.worker.left == 0 {
      ReadStarts(s, batch);
      NoMoves(s, batch);
      hide Good, Comes, Do, Can, AllOwn;
      var m1 := OwnOn(s, [], batch, s, ReadNext);
      var f := s.(worker := Reading(AtLeastOne(batch)));
      var m2;
      m2, s' := DrainsAndSleeps(f, batch);
      OwnThrough(s, m1, batch, f, m2, s');
      moves := m1 + m2;
    } else if |s.ring.takers| == |s.ring.log| {
      moves, s' := WorkerSleeps(s, batch);
    } else {
      hide Good, Comes, AllOwn;
      var m1, m := WorkerReads(s, batch);
      var m2;
      m2, s' := DrainsAndSleeps(m, batch);
      OwnThrough(s, m1, batch, m, m2, s');
      moves := m1 + m2;
    }
  }

  lemma Wakes(s: Sys, batch: nat) returns (moves: seq<Move>, s': Sys)
    requires Good(s.ring) && Between(s) && Resting(s.worker) && s.event
    ensures Comes(s, moves, batch, s') && AllOwn(moves) && s' == s.(worker := Reading(AtLeastOne(batch)), event := false)
  {
    NoMoves(s, batch);
    moves := [];
    if s.worker.AboutToWait? {
      moves := OwnOn(s, moves, batch, s, EnterWait);
    }
    var w := s.(worker := Waiting);
    moves := OwnOn(s, moves, batch, w, WakeByData);
    s' := Do(w, WakeByData, batch);
  }

  /** The worker's own moves, without a timeout, take everything out of the ring and end asleep. */
  ghost predicate CanFinish(s: Sys, batch: nat) {
    exists moves, s' :: Comes(s, moves, batch, s') && AllOwn(moves)
                        && s'.worker == Waiting && |s'.ring.takers| == |s'.ring.log| && s'.ring.log == s.ring.log
  }

  /** From every reachable state with the writer at rest and the worker between two reads, about to wait or waiting: the
      worker's own moves, woken by nothing but the event, take every message and end asleep. */
  lemma {:induction false} WorkerFinishes(s0: Sys, moves: seq<Move>, batch: nat)
    requires Fresh(s0, batch) && Possible(s0, moves, batch) && Between(After(s0, moves, batch))
    requires var s := After(s0, moves, batch); s.ring.p == PIdle && !s.signalDue && s.worker != Left
    ensures CanFinish(After(s0, moves, batch), batch)
  {
    StaysAwake(s0, moves, batch);
    var s := After(s0, moves, batch);
    if Resting(s.worker) && s.ring.count > 0 {
      assert s.event;
    }
    hide Fresh, Possible, After, Awake;
    if s.worker.Reading? {
      var more, s' := DrainsAndSleeps(s, batch);
    } else if s.ring.count == 0 {
      AllTaken(s.ring);
      if s.worker.Waiting? {
        NoMoves(s, batch);
      } else {
        FallsAsleep(s, batch);
      }
    } else {
      var m1, m := Wakes(s, batch);
      var m2, s' := DrainsAndSleeps(m, batch);
      OwnThrough(s, m1, batch, m, m2, s');
    }
  }

  /** And a timeout is as good as the event: it too sends the worker back to take everything there is. */
  lemma {:induction false} TimeoutFinishes(s0: Sys, moves: seq<Move>, batch: nat)
    requires Fresh(s0, batch) && Possible(s0, moves, batch) && Between(After(s0, moves, batch))
    requires var s := After(s0, moves, batch); s.ring.p == PIdle && s.worker == Waiting
    ensures Can(After(s0, moves, batch), WakeOtherwise)
    ensures CanFinish(Do(After(s0, moves, batch), WakeOtherwise, batch), batch)
  {
    StaysAwake(s0, moves, batch);
    var z := Do(After(s0, moves, batch), WakeOtherwise, batch);
    hide Fresh, Possible, After, Awake;
    var more, s' := DrainsAndSleeps(z, batch);
  }

  lemma AllTaken(s: State)
    requires Good(s) && s.count == 0
    ensures |s.takers| == |s.log|
  {
  }

  lemma FallsAsleep(s: Sys, batch: nat)
    requires s.worker.AboutToWait? && |s.ring.takers| == |s.ring.log|
    ensures CanFinish(s, batch)
  {
    NoMoves(s, batch);
    var moves := OwnOn(s, [], batch, s, EnterWait);
    assert Comes(s, moves, batch, Do(s, EnterWait, batch));
  }

  // ---- The event is auto-reset ----

  function Signals(moves: seq<Move>): nat {
    if moves == [] then 0 else Signals(moves[..|moves| - 1]) + if moves[|moves| - 1].Signal? then 1 else 0
  }

  function Wakeups(moves: seq<Move>): nat {
    if moves == [] then 0 else Wakeups(moves[..|moves| - 1]) + if moves[|moves| - 1].WakeByData? then 1 else 0
  }

  /** Every wakeup by the event uses up one signal. */
  lemma {:induction false} WakeupsArePaidFor(s0: Sys, moves: seq<Move>, batch: nat)
    requires Possible(s0, moves, batch)
    ensures Wakeups(moves) + (if After(s0, moves, batch).event then 1 else 0)
         <= Signals(moves) + if s0.event then 1 else 0
  {
    if moves == [] {
    } else {
      var n := |moves| - 1;
      WakeupsArePaidFor(s0, moves[..n], batch);
      EventStep(After(s0, moves[..n], batch), moves[n], batch);
    }
  }

  /** The move raises the count from zero: the write finds the ring empty. */
  predicate FillsEmpty(s: Sys, v: Move) {
    v.WriterStep? && s.ring.p.PCopy? && AllOf(|Frame(s.ring.p.m)|, s.ring.p.done) && s.ring.count == 0
  }

  function EmptyWrites(s0: Sys, moves: seq<Move>, batch: nat): nat
    requires Possible(s0, moves, batch)
  {
    if moves == [] then 0
    else
      var n := |moves| - 1;
      EmptyWrites(s0, moves[..n], batch) + if FillsEmpty(After(s0, moves[..n], batch), moves[n]) then 1 else 0
  }

  /** Signals the writer still owes: the write that found the ring empty has not ended, or the event is not yet set. */
  function Owed(s: Sys): nat {
    (if s.signalDue then 1 else 0) + if s.ring.p.PStore? && s.ring.p.prev == 0 then 1 else 0
  }

  lemma SignalStep(s: Sys, v: Move, batch: nat)
    requires Can(s, v) && (s.signalDue ==> s.ring.p == PIdle)
    ensures var z := Do(s, v, batch);
      && (z.signalDue ==> z.ring.p == PIdle)
      && (if v.Signal? then 1 else 0) + Owed(z) == Owed(s) + if FillsEmpty(s, v) then 1 else 0
  {
    hide Cell, LittleEndian, U32;
  }

  /** The event is set once for every write that raised the count from zero, and for no other. */
  lemma {:induction false} SignalsAreEmptyWrites(s0: Sys, moves: seq<Move>, batch: nat)
    requires Possible(s0, moves, batch) && !s0.signalDue && s0.ring.p == PIdle
    ensures var s := After(s0, moves, batch);
      && Signals(moves) + Owed(s) == EmptyWrites(s0, moves, batch)
      && (s.signalDue ==> s.ring.p == PIdle)
  {
    if moves == [] {
    } else {
      var n := |moves| - 1;
      SignalsAreEmptyWrites(s0, moves[..n], batch);
      SignalStep(After(s0, moves[..n], batch), moves[n], batch);
    }
  }

  lemma EventStep(s: Sys, v: Move, batch: nat)
    requires Can(s, v)
    ensures var e := Do(s, v, batch).event;
      e == if v.Signal? then true else if v.WakeByData? then false else s.event
    ensures v.WakeByData? ==> s.event
  {
    hide Next;
  }

  // ---- The hypothesis of NoLostWakeup is met ----

  function Begin(): Sys {
    Sys(State(0, 0, 0, seq(RING_CAPACITY, i => 0), PIdle, CIdle, [], [], [], 0, 0, 0, false), Reading(1), false, false)
  }

  lemma BeginIsFresh()
    ensures Fresh(Begin(), 1) && Good(Begin().ring)
  {
    assert Stream(Begin().ring.log[0..]) == [];
    PosEnds([]);
  }

  lemma WriterStepIs(s: Sys, k: nat, batch: nat)
    requires Enabled(s.ring, P(k))
    ensures Can(s, WriterStep(k))
    ensures var z := Do(s, WriterStep(k), batch);
      z.ring == Next(s.ring, P(k)) && z.worker == s.worker && z.event == s.event
  {
    hide Next;
  }

  /** The writer's steps happen whatever the worker does. */
  lemma {:induction false} MirrorWriter(s: Sys, run: seq<Action>, r: State, batch: nat)
      returns (moves: seq<Move>, s': Sys)
    requires Goes(s.ring, run, r) && WriterOnly(run)
    ensures Comes(s, moves, batch, s') && s'.ring == r && s'.worker == s.worker && s'.event == s.event
    decreases |run|
  {
    if run == [] {
      moves, s' := [], s;
      NoMoves(s, batch);
    } else {
      var n := |run| - 1;
      var m := LastStep(s.ring, run, r);
      WriterOnlyFront(run);
      hide Comes, Goes, WriterOnly, Do, Can, Next, Enabled;
      var e;
      moves, e := MirrorWriter(s, run[..n], m, batch);
      WriterStepIs(e, run[n].k, batch);
      moves := ComesOn(s, moves, batch, e, WriterStep(run[n].k));
      s' := Do(e, WriterStep(run[n].k), batch);
    }
  }

  /** A worker asleep on a nonempty ring, the writer's signal still due: the window between the count and the event. */
  predicate AsleepWithSignalDue(s: Sys) {
    s.worker == Waiting && s.ring.count > 0 && !s.event && s.signalDue && !s.ring.wild
  }

  /** The window NoLostWakeup is about is reached. */
  lemma SleepsThroughAWrite()
    ensures exists moves :: Fresh(Begin(), 1) && Possible(Begin(), moves, 1) && AsleepWithSignalDue(After(Begin(), moves, 1))
  {
    BeginIsFresh();
    var b := Begin();
    hide Begin, Good, Fresh, Goes, Comes, WriterOnly, OnlyCells;
    var m1, w := FirstSleep(b);
    var m: Payload := [0, 0];
    var l := w.(ring := w.ring.(p := PLoop(m)));
    StartsAsleep(w, m);
    var m2 := ComesOn(b, m1, 1, w, Writer(m));
    var run, r := WriteFromLoop(l.ring);
    var m3, s := MirrorWriter(l, run, r, 1);
    ComesThrough(b, m2, 1, l, m3, s);
    Reached(m2 + m3, s);
  }

  lemma FirstSleep(b: Sys) returns (moves: seq<Move>, w: Sys)
    requires b == Begin() && Good(b.ring)
    ensures Comes(b, moves, 1, w) && w == b.(worker := Waiting) && Good(w.ring)
  {
    moves, w := WorkerSleeps(b, 1);
  }

  lemma StartsAsleep(w: Sys, m: Payload)
    requires w == Begin().(worker := Waiting) && Good(w.ring) && |m| == 2
    ensures var l := w.(ring := w.ring.(p := PLoop(m)));
      && Can(w, Writer(m)) && Do(w, Writer(m), 1) == l
      && Good(l.ring) && !l.ring.wild && HasRoom(l.ring, m) && l.ring.count == 0 && !l.event && l.worker == Waiting
  {
    StartsWrite(w.ring, m);
  }

  lemma Reached(moves: seq<Move>, s: Sys)
    requires Fresh(Begin(), 1) && Comes(Begin(), moves, 1, s)
    requires s.ring.p == PIdle && s.ring.count > 0 && s.worker == Waiting && !s.event && !s.ring.wild
    ensures Possible(Begin(), moves, 1) && AsleepWithSignalDue(After(Begin(), moves, 1))
  {
    NoLostWakeup(Begin(), moves, 1);
  }
}
