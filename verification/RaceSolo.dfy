/** Runs in which one side of the ring works alone: a whole write, a whole read, and a reader that drains the ring. */
module RaceSolo {
  import opened Common
  import opened Frames
  import opened RingRace
  import opened RaceInvariant
  import opened RaceSafety
  import opened Ring

  ghost predicate Goes(s: State, run: seq<Action>, s': State) {
    Legal(s, run) && Exec(s, run) == s'
  }

  lemma GoesOn(s: State, run: seq<Action>, m: State, a: Action) returns (more: seq<Action>)
    requires Goes(s, run, m) && Enabled(m, a)
    ensures more == run + [a] && Goes(s, more, Next(m, a))
  {
    more := run + [a];
    assert more[..|more| - 1] == run;
  }

  lemma Regroup<T>(a: seq<T>, b: seq<T>)
    requires b != []
    ensures var n := |b| - 1; (a + b[..n]) + [b[n]] == a + b
  {
  }

  lemma AllButLast<T>(b: seq<T>)
    requires b != []
    ensures var n := |b| - 1; b[..n] + [b[n]] == b
  {
  }

  lemma LastStep(s: State, run: seq<Action>, s': State) returns (m: State)
    requires Goes(s, run, s') && run != []
    ensures var n := |run| - 1; Goes(s, run[..n], m) && Enabled(m, run[n]) && s' == Next(m, run[n])
  {
    m := Exec(s, run[..|run| - 1]);
  }

  lemma {:induction false} GoesThrough(s: State, r1: seq<Action>, m: State, r2: seq<Action>, s': State)
    requires Goes(s, r1, m) && Goes(m, r2, s')
    ensures Goes(s, r1 + r2, s')
    decreases |r2|
  {
    if r2 == [] {
      assert r1 + r2 == r1;
    } else {
      var n := |r2| - 1;
      var e := LastStep(m, r2, s');
      hide Goes, Next, Enabled, Legal, Exec;
      GoesThrough(s, r1, m, r2[..n], e);
      var more := GoesOn(s, r1 + r2[..n], e, r2[n]);
      Regroup(r1, r2);
    }
  }

  lemma {:induction false} GoesKeeps(s: State, run: seq<Action>, s': State)
    requires Goes(s, run, s') && Good(s) && !s'.wild
    ensures Good(s') && !s.wild
  {
    if run == [] {
    } else {
      var n := |run| - 1;
      var m := LastStep(s, run, s');
      hide Good, Next, Enabled, Goes;
      if m.wild {
        WildSticks(m, run[n]);
      }
      GoesKeeps(s, run[..n], m);
      StepKeeps(m, run[n]);
    }
  }

  // ---- Runs of one side ----

  predicate WriterOnly(run: seq<Action>) {
    forall i :: 0 <= i < |run| ==> run[i].P?
  }

  lemma WriterOnlyFront(run: seq<Action>)
    requires WriterOnly(run) && run != []
    ensures var n := |run| - 1; WriterOnly(run[..n]) && run[n].P?
  {
  }

  lemma WritesOn(s: State, run: seq<Action>, m: State, k: nat) returns (more: seq<Action>)
    requires Goes(s, run, m) && Enabled(m, P(k)) && WriterOnly(run)
    ensures Goes(s, more, Next(m, P(k))) && WriterOnly(more)
  {
    more := GoesOn(s, run, m, P(k));
  }

  predicate ReaderOnly(run: seq<Action>) {
    forall i :: 0 <= i < |run| ==> run[i].C? || run[i].StartRead?
  }

  lemma ReaderOnlyFront(run: seq<Action>)
    requires ReaderOnly(run) && run != []
    ensures var n := |run| - 1; ReaderOnly(run[..n]) && (run[n].C? || run[n].StartRead?)
  {
  }

  lemma ReadsOn(s: State, run: seq<Action>, m: State, a: Action) returns (more: seq<Action>)
    requires Goes(s, run, m) && Enabled(m, a) && ReaderOnly(run) && (a.C? || a.StartRead?)
    ensures Goes(s, more, Next(m, a)) && ReaderOnly(more)
  {
    more := GoesOn(s, run, m, a);
  }

  /** Steps of one read. */
  predicate WithinRead(run: seq<Action>) {
    forall i :: 0 <= i < |run| ==> run[i].C?
  }

  lemma WithinReadFront(run: seq<Action>)
    requires WithinRead(run) && run != []
    ensures var n := |run| - 1; WithinRead(run[..n]) && run[n].C?
  {
  }

  lemma WithinOn(s: State, run: seq<Action>, m: State, k: nat) returns (more: seq<Action>)
    requires Goes(s, run, m) && Enabled(m, C(k)) && WithinRead(run)
    ensures Goes(s, more, Next(m, C(k))) && WithinRead(more)
  {
    more := GoesOn(s, run, m, C(k));
  }

  lemma NoSteps()
    ensures WriterOnly([]) && ReaderOnly([]) && WithinRead([])
  {
  }

  // ---- A whole write ----

  /** Room for the frame as the header has it. */
  predicate HasRoom(s: State, m: Payload) {
    s.writePos + |Frame(m)| <= s.readPos + RING_CAPACITY && s.count < MAX_MESSAGES
  }

  /** Nothing but the `n` cells from position `w` on has changed. */
  ghost predicate OnlyCells(mem: seq<byte>, mem': seq<byte>, w: nat, n: nat) {
    && |mem'| == |mem|
    && forall i :: 0 <= i < |mem| && (forall k :: 0 <= k < n ==> i != Cell(w, k)) ==> mem'[i] == mem[i]
  }

  /** What a copy step computes, away from the invariant. */
  lemma ByteStep(s: State, k: nat)
    requires |s.mem| == RING_CAPACITY && s.p.PCopy? && s.p.done == Range(k) && k < |Frame(s.p.m)|
    ensures Enabled(s, P(k))
    ensures var b := Next(s, P(k));
      && b == s.(p := PCopy(s.p.m, s.p.w, Range(k + 1)), mem := b.mem)
      && |b.mem| == RING_CAPACITY && OnlyCells(s.mem, b.mem, s.p.w, |Frame(s.p.m)|)
  {
    assert Range(k) + {k} == Range(k + 1);
  }

  lemma OnlyCellsCompose(a: seq<byte>, b: seq<byte>, c: seq<byte>, w: nat, n: nat)
    requires OnlyCells(a, b, w, n) && OnlyCells(b, c, w, n)
    ensures OnlyCells(a, c, w, n)
  {
  }

  lemma {:induction false} CopyOut(base: State, run: seq<Action>, s: State, k: nat)
      returns (more: seq<Action>, s': State)
    requires Goes(base, run, s) && WriterOnly(run) && |s.mem| == RING_CAPACITY
    requires s.p.PCopy? && s.p.done == Range(k) && k <= |Frame(s.p.m)|
    ensures Goes(base, more, s') && WriterOnly(more) && |s'.mem| == RING_CAPACITY
    ensures s' == s.(p := PCopy(s.p.m, s.p.w, Range(|Frame(s.p.m)|)), mem := s'.mem)
    ensures OnlyCells(s.mem, s'.mem, s.p.w, |Frame(s.p.m)|)
    decreases |Frame(s.p.m)| - k
  {
    hide Goes, Next, Enabled, Frame, WriterOnly;
    if k == |Frame(s.p.m)| {
      more, s' := run, s;
      SameCells(s.mem, s.p.w, |Frame(s.p.m)|);
    } else {
      ByteStep(s, k);
      var b := Next(s, P(k));
      more := WritesOn(base, run, s, k);
      hide OnlyCells;
      more, s' := CopyOut(base, more, b, k + 1);
      OnlyCellsCompose(s.mem, b.mem, s'.mem, s.p.w, |Frame(s.p.m)|);
    }
  }

  lemma SameCells(mem: seq<byte>, w: nat, n: nat)
    ensures OnlyCells(mem, mem, w, n)
  {
  }

  /** The loads and the space check, up to the first byte. */
  lemma BeginWrite(s: State) returns (run: seq<Action>)
    requires Good(s) && s.p.PLoop? && HasRoom(s, s.p.m)
    ensures Goes(s, run, s.(p := PCopy(s.p.m, s.writePos, {}))) && WriterOnly(run)
  {
    EndOfLog(s);
    WrappedPositionsAreExact(s.writePos, s.readPos);
    LoadsLead(s);
    NoSteps();
    var m := s.p.m;
    var b, c := s.(p := PGotWrite(m, s.writePos)), s.(p := PGotRead(m, s.writePos, s.readPos));
    assert Goes(s, [], s);
    hide Goes, Next, Enabled, Good, WriterOnly;
    run := WritesOn(s, [], s, 0);
    run := WritesOn(s, run, b, 0);
    run := WritesOn(s, run, c, 0);
  }

  lemma LoadsLead(s: State)
    requires |s.mem| == RING_CAPACITY && s.p.PLoop? && HasRoom(s, s.p.m)
    requires WrappingSub(U32(s.writePos), U32(s.readPos)) == s.writePos - s.readPos
    ensures Enabled(s, P(0)) && Next(s, P(0)) == s.(p := PGotWrite(s.p.m, s.writePos))
    ensures var b := s.(p := PGotWrite(s.p.m, s.writePos));
      Enabled(b, P(0)) && Next(b, P(0)) == s.(p := PGotRead(s.p.m, s.writePos, s.readPos))
    ensures var c := s.(p := PGotRead(s.p.m, s.writePos, s.readPos));
      Enabled(c, P(0)) && Next(c, P(0)) == s.(p := PCopy(s.p.m, s.writePos, {}))
  {
    hide U32, WrappingSub;
  }

  lemma PublishSteps(s: State)
    requires |s.mem| == RING_CAPACITY && s.p.PCopy? && s.p.done == Range(|Frame(s.p.m)|)
    ensures Enabled(s, P(0)) && Enabled(Next(s, P(0)), P(0))
    ensures Next(Next(s, P(0)), P(0)) == s.(p := PIdle, count := Incr(s.count), log := s.log + [s.p.m],
                                            writePos := s.p.w + |Frame(s.p.m)|)
  {
    assert AllOf(|Frame(s.p.m)|, s.p.done);
  }

  /** With room for the frame, a write runs to its end and appends its message. */
  lemma WriteFromLoop(s: State) returns (run: seq<Action>, s': State)
    requires Good(s) && !s.wild && s.p.PLoop? && HasRoom(s, s.p.m)
    ensures Goes(s, run, s') && WriterOnly(run) && Good(s')
    ensures var m := s.p.m;
      s' == s.(p := PIdle, count := Incr(s.count), log := s.log + [m], writePos := s.writePos + |Frame(m)|, mem := s'.mem)
    ensures OnlyCells(s.mem, s'.mem, s.writePos, |Frame(s.p.m)|)
  {
    assert |s.mem| == RING_CAPACITY;
    run := BeginWrite(s);
    hide Good, Goes, Next, Enabled, Frame, OnlyCells, WriterOnly;
    var c: State;
    run, c := CopyOut(s, run, s.(p := PCopy(s.p.m, s.writePos, {})), 0);
    PublishSteps(c);
    run := WritesOn(s, run, c, 0);
    run := WritesOn(s, run, Next(c, P(0)), 0);
    s' := Next(Next(c, P(0)), P(0));
    GoesKeeps(s, run, s');
  }

  lemma StartsWrite(s: State, m: Payload)
    requires Good(s) && !s.wild && s.p == PIdle
    ensures Enabled(s, StartWrite(m)) && Next(s, StartWrite(m)) == s.(p := PLoop(m)) && Good(s.(p := PLoop(m)))
    ensures Goes(s, [StartWrite(m)], s.(p := PLoop(m)))
  {
    StepKeeps(s, StartWrite(m));
    assert Goes(s, [], s);
    var run := GoesOn(s, [], s, StartWrite(m));
  }

  lemma WriteAlone(s: State, m: Payload) returns (run: seq<Action>, s': State)
    requires Good(s) && !s.wild && s.p == PIdle && HasRoom(s, m)
    ensures Goes(s, run, s') && Good(s')
    ensures s' == s.(count := Incr(s.count), log := s.log + [m], writePos := s.writePos + |Frame(m)|, mem := s'.mem)
    ensures OnlyCells(s.mem, s'.mem, s.writePos, |Frame(m)|)
  {
    StartsWrite(s, m);
    hide Good, Goes, Next, Enabled, OnlyCells, WriterOnly;
    run, s' := WriteFromLoop(s.(p := PLoop(m)));
    GoesThrough(s, [StartWrite(m)], s.(p := PLoop(m)), run, s');
    run := [StartWrite(m)] + run;
  }

  // ---- A whole read ----

  /** The reader's loads, with a message committed at the read position. */
  lemma ReadLoads(s: State)
    requires Good(s) && s.c == CLoop && |s.takers| < |s.log|
    ensures var t := |s.takers|; var f := Frame(s.log[t]);
      var c0, c1, c2 := CGotCount(t, s.p.PDiscardDec?), CGotRead(s.readPos, t), CLo(s.readPos, t, f[0], true);
      && Enabled(s, C(0)) && Next(s, C(0)) == s.(c := c0)
      && Enabled(s.(c := c0), C(0)) && Next(s.(c := c0), C(0)) == s.(c := c1)
      && Enabled(s.(c := c1), C(0)) && Next(s.(c := c1), C(0)) == s.(c := c2)
      && Enabled(s.(c := c2), C(0))
      && Next(s.(c := c2), C(0)) == s.(c := CCopy(s.readPos, t, |s.log[t]|, map[], true))
  {
    HeaderBytes(s.mem, s.readPos, s.log, |s.takers|);
    hide Stored, Stream, Picked, CountOf, ProducerInv, ConsumerInv, LittleEndian, Cell, ProducerStep;
  }

  lemma BeginRead(s: State) returns (run: seq<Action>)
    requires Good(s) && s.c == CLoop && |s.takers| < |s.log|
    ensures WithinRead(run)
    ensures Goes(s, run, s.(c := CCopy(s.readPos, |s.takers|, |s.log[|s.takers|]|, map[], true)))
  {
    ReadLoads(s);
    NoSteps();
    var t := |s.takers|;
    var f := Frame(s.log[t]);
    assert Goes(s, [], s);
    hide Goes, Next, Enabled, Good, WithinRead;
    run := WithinOn(s, [], s, 0);
    run := WithinOn(s, run, s.(c := CGotCount(t, s.p.PDiscardDec?)), 0);
    run := WithinOn(s, run, s.(c := CGotRead(s.readPos, t)), 0);
    run := WithinOn(s, run, s.(c := CLo(s.readPos, t, f[0], true)), 0);
  }

  lemma ByteSeen(s: State, k: nat)
    requires |s.mem| == RING_CAPACITY && s.c.CCopy? && s.c.got.Keys == Range(k) && k < s.c.len
    ensures Enabled(s, C(k))
    ensures var b := Next(s, C(k)); b.c.CCopy? && b == s.(c := s.c.(got := b.c.got)) && b.c.got.Keys == Range(k + 1)
  {
    assert Range(k) + {k} == Range(k + 1);
  }

  lemma {:induction false} CopyIn(base: State, run: seq<Action>, s: State, k: nat)
      returns (more: seq<Action>, got: map<nat, byte>)
    requires Goes(base, run, s) && WithinRead(run) && |s.mem| == RING_CAPACITY
    requires s.c.CCopy? && s.c.got.Keys == Range(k) && k <= s.c.len
    ensures Goes(base, more, s.(c := s.c.(got := got))) && WithinRead(more) && got.Keys == Range(s.c.len)
    decreases s.c.len - k
  {
    if k == s.c.len {
      more, got := run, s.c.got;
    } else {
      ByteSeen(s, k);
      hide Goes, Next, Enabled, WithinRead;
      more := WithinOn(base, run, s, k);
      more, got := CopyIn(base, more, Next(s, C(k)), k + 1);
    }
  }

  lemma TakeStep(s: State)
    requires |s.mem| == RING_CAPACITY && s.c.CCopy? && AllOf(s.c.len, s.c.got.Keys) && s.c.r == s.readPos && s.c.backed
    ensures Enabled(s, C(0))
    ensures var z := Next(s, C(0));
      z == s.(c := CDec, readPos := s.readPos + MESSAGE_HEADER_SIZE + s.c.len, takers := s.takers + [ByReader],
              delivered := z.delivered)
  {
  }

  lemma SettleStep(s: State)
    requires |s.mem| == RING_CAPACITY && s.c == CDec
    ensures Enabled(s, C(0)) && Next(s, C(0)) == ConsumerStep(s, 0) == s.(c := CIdle, count := Decr(s.count))
  {
  }

  lemma RangeIsAll(n: nat)
    ensures AllOf(n, Range(n))
  {
  }

  /** From the top of its loop, with a message in the ring, the reader alone takes it. */
  lemma ReadFromLoop(s: State) returns (run: seq<Action>, d: State)
    requires Good(s) && !s.wild && s.c == CLoop && |s.takers| < |s.log|
    ensures Goes(s, run, d) && WithinRead(run) && Good(d) && |d.takers| == |s.takers| + 1
    ensures d == s.(c := CDec, readPos := d.readPos, takers := d.takers, delivered := d.delivered)
  {
    assert |s.mem| == RING_CAPACITY;
    run := BeginRead(s);
    var t := |s.takers|;
    var c := CCopy(s.readPos, t, |s.log[t]|, map[], true);
    hide Good, Goes, Next, Enabled, WithinRead;
    var got;
    run, got := CopyIn(s, run, s.(c := c), 0);
    RangeIsAll(c.len);
    var e := s.(c := c.(got := got));
    TakeStep(e);
    run := WithinOn(s, run, e, 0);
    d := Next(e, C(0));
    GoesKeeps(s, run, d);
  }

  lemma StartsRead(s: State)
    requires Good(s) && !s.wild && s.c == CIdle
    ensures Enabled(s, StartRead) && Next(s, StartRead) == s.(c := CLoop) && Good(s.(c := CLoop))
    ensures Goes(s, [StartRead], s.(c := CLoop))
  {
    StepKeeps(s, StartRead);
    assert Goes(s, [], s);
    var run := GoesOn(s, [], s, StartRead);
  }

  lemma ReadRun(run: seq<Action>)
    requires WithinRead(run)
    ensures ReaderOnly([StartRead] + run + [C(0)])
  {
  }

  /** With a message in the ring, a read runs to its end and takes it. */
  lemma ReadAlone(s: State) returns (run: seq<Action>, s': State)
    requires Good(s) && !s.wild && s.c == CIdle && |s.takers| < |s.log|
    ensures Goes(s, run, s') && ReaderOnly(run) && Good(s') && |s'.takers| == |s.takers| + 1
    ensures s' == s.(readPos := s'.readPos, takers := s'.takers, delivered := s'.delivered, count := s'.count)
  {
    assert |s.mem| == RING_CAPACITY;
    StartsRead(s);
    hide Good, Goes, Next, Enabled, WithinRead, ReaderOnly;
    var r, d := ReadFromLoop(s.(c := CLoop));
    GoesThrough(s, [StartRead], s.(c := CLoop), r, d);
    SettleStep(d);
    run := GoesOn(s, [StartRead] + r, d, C(0));
    ReadRun(r);
    s' := Next(d, C(0));
    GoesKeeps(s, run, s');
  }

  /** The reader alone takes everything that is committed. */
  lemma {:induction false} DrainAlone(s: State) returns (run: seq<Action>, s': State)
    requires Good(s) && !s.wild && s.c == CIdle
    ensures Goes(s, run, s') && ReaderOnly(run) && Good(s') && |s'.takers| == |s'.log|
    ensures s' == s.(readPos := s'.readPos, takers := s'.takers, delivered := s'.delivered, count := s'.count)
    decreases |s.log| - |s.takers|
  {
    assert |s.takers| <= |s.log|;
    if |s.takers| == |s.log| {
      run, s' := [], s;
      assert Goes(s, run, s');
    } else {
      hide Good, Goes;
      var r1, m := ReadAlone(s);
      var r2;
      r2, s' := DrainAlone(m);
      GoesThrough(s, r1, m, r2, s');
      run := r1 + r2;
    }
  }

  // ---- An eviction ----

  /** The steps of an eviction that finds a legal length, away from the invariant. */
  lemma DiscardSteps(s: State, m: Payload, lo: byte, n: nat)
    requires |s.mem| == RING_CAPACITY && s.p == PDiscard(m) && !Same(s.readPos, s.writePos)
    requires s.mem[Cell(s.readPos, 0)] == lo && LittleEndian(lo, s.mem[Cell(s.readPos, 1)]) == n && LegalLength(n)
    ensures var r, t := s.readPos, |s.takers|;
      var p1, p2, p3 := PDiscardRead(m, r, t), PDiscardLen(m, r, t), PDiscardLo(m, r, t, lo);
      var p4 := PDiscardCas(m, r, t, MESSAGE_HEADER_SIZE + n);
      && Enabled(s, P(0)) && Next(s, P(0)) == s.(p := p1)
      && Enabled(s.(p := p1), P(0)) && Next(s.(p := p1), P(0)) == s.(p := p2)
      && Enabled(s.(p := p2), P(0)) && Next(s.(p := p2), P(0)) == s.(p := p3)
      && Enabled(s.(p := p3), P(0)) && Next(s.(p := p3), P(0)) == s.(p := p4)
      && Enabled(s.(p := p4), P(0))
      && Next(s.(p := p4), P(0))
         == s.(p := PDiscardDec(m), readPos := r + MESSAGE_HEADER_SIZE + n, takers := s.takers + [ByEvictor])
  {
    hide LittleEndian, Cell, ConsumerStep, LegalLength;
    assert Same(s.readPos, s.readPos);
    hide U32;
  }

  lemma DiscardFacts(s: State)
    requires Good(s) && s.p.PDiscard? && |s.takers| < |s.log|
    ensures |s.mem| == RING_CAPACITY && !Same(s.readPos, s.writePos)
    ensures var t := |s.takers|;
      && s.mem[Cell(s.readPos, 0)] == Frame(s.log[t])[0]
      && LittleEndian(Frame(s.log[t])[0], s.mem[Cell(s.readPos, 1)]) == |s.log[t]|
  {
    EndOfLog(s);
    WrappedPositionsAreExact(s.writePos, s.readPos);
    HeaderBytes(s.mem, s.readPos, s.log, |s.takers|);
  }

  lemma FiveSteps(s: State, s1: State, s2: State, s3: State, s4: State, s5: State) returns (run: seq<Action>)
    requires Enabled(s, P(0)) && Next(s, P(0)) == s1 && Enabled(s1, P(0)) && Next(s1, P(0)) == s2
    requires Enabled(s2, P(0)) && Next(s2, P(0)) == s3 && Enabled(s3, P(0)) && Next(s3, P(0)) == s4
    requires Enabled(s4, P(0)) && Next(s4, P(0)) == s5
    ensures Goes(s, run, s5) && WriterOnly(run)
  {
    NoSteps();
    assert Goes(s, [], s);
    hide Goes, Next, Enabled, WriterOnly;
    run := WritesOn(s, [], s, 0);
    run := WritesOn(s, run, s1, 0);
    run := WritesOn(s, run, s2, 0);
    run := WritesOn(s, run, s3, 0);
    run := WritesOn(s, run, s4, 0);
  }

  /** The first half of an eviction: the read position has moved, the count has not. */
  lemma EvictHalf(s: State, m: Payload) returns (run: seq<Action>, s': State)
    requires Good(s) && !s.wild && s.p == PDiscard(m) && |s.takers| < |s.log|
    ensures Goes(s, run, s') && WriterOnly(run) && Good(s') && s'.takers == s.takers + [ByEvictor]
    ensures s' == s.(p := PDiscardDec(m), readPos := s'.readPos, takers := s'.takers)
  {
    var r, t := s.readPos, |s.takers|;
    var f := Frame(s.log[t]);
    DiscardFacts(s);
    DiscardSteps(s, m, f[0], |s.log[t]|);
    var s1, s2 := s.(p := PDiscardRead(m, r, t)), s.(p := PDiscardLen(m, r, t));
    var s3, s4 := s.(p := PDiscardLo(m, r, t, f[0])), s.(p := PDiscardCas(m, r, t, MESSAGE_HEADER_SIZE + |s.log[t]|));
    s' := Next(s4, P(0));
    run := FiveSteps(s, s1, s2, s3, s4, s');
    hide Good, Goes, WriterOnly, Next, Enabled;
    GoesKeeps(s, run, s');
  }

  /** A whole eviction removes the oldest message. */
  lemma EvictAlone(s: State, m: Payload) returns (run: seq<Action>, s': State)
    requires Good(s) && !s.wild && s.p == PDiscard(m) && |s.takers| < |s.log|
    ensures Goes(s, run, s') && WriterOnly(run) && Good(s') && s'.takers == s.takers + [ByEvictor]
    ensures s' == s.(p := PLoop(m), readPos := s'.readPos, takers := s'.takers, count := Decr(s.count))
  {
    var h;
    run, h := EvictHalf(s, m);
    DecStep(h);
    hide Good, Goes, Next, Enabled, WriterOnly;
    run := WritesOn(s, run, h, 0);
    s' := Next(h, P(0));
    GoesKeeps(s, run, s');
  }

  lemma DecStep(s: State)
    requires Good(s) && s.p.PDiscardDec?
    ensures Enabled(s, P(0)) && Next(s, P(0)) == s.(p := PLoop(s.p.m), count := Decr(s.count))
  {
  }

  /** The first two loads of a write. */
  lemma LoadBoth(s: State) returns (run: seq<Action>, s': State)
    requires Good(s) && !s.wild && s.p.PLoop?
    ensures Goes(s, run, s') && WriterOnly(run) && Good(s')
    ensures s' == s.(p := PGotRead(s.p.m, s.writePos, s.readPos))
  {
    assert Goes(s, [], s);
    NoSteps();
    LoadsRead(s);
    hide Goes, Next, Enabled, Good, WriterOnly;
    var a := s.(p := PGotWrite(s.p.m, s.writePos));
    s' := s.(p := PGotRead(s.p.m, s.writePos, s.readPos));
    run := WritesOn(s, [], s, 0);
    run := WritesOn(s, run, a, 0);
    GoesKeeps(s, run, s');
  }

  lemma LoadsRead(s: State)
    requires |s.mem| == RING_CAPACITY && s.p.PLoop?
    ensures Enabled(s, P(0)) && Next(s, P(0)) == s.(p := PGotWrite(s.p.m, s.writePos))
    ensures var a := s.(p := PGotWrite(s.p.m, s.writePos));
      Enabled(a, P(0)) && Next(a, P(0)) == s.(p := PGotRead(s.p.m, s.writePos, s.readPos))
  {
  }

  /** Without room the space check sends the writer to discard_oldest. */
  lemma LoadsRefused(s: State) returns (run: seq<Action>, s': State)
    requires Good(s) && !s.wild && s.p.PLoop? && !HasRoom(s, s.p.m)
    ensures Goes(s, run, s') && WriterOnly(run) && Good(s') && s' == s.(p := PDiscard(s.p.m))
  {
    var g;
    run, g := LoadBoth(s);
    Refusal(g);
    hide Goes, Next, Enabled, Good, WriterOnly;
    run := WritesOn(s, run, g, 0);
    s' := Next(g, P(0));
    GoesKeeps(s, run, s');
  }

  lemma Refusal(g: State)
    requires Good(g) && g.p.PGotRead? && g.p.r == g.readPos && !HasRoom(g, g.p.m)
    ensures Enabled(g, P(0)) && Next(g, P(0)) == g.(p := PDiscard(g.p.m))
  {
    hide Stored, Stream, Picked, CountOf, ConsumerInv, ConsumerStep;
    EndOfLog(g);
    WrappedPositionsAreExact(g.p.w, g.p.r);
  }

  // ---- A write that evicts ----

  /** The messages in the ring. */
  function InRing(s: State): seq<Payload>
    requires |s.takers| <= |s.log|
  {
    s.log[|s.takers|..]
  }

  /** What the header says about room is what the queue says, while no decrement is under way. */
  lemma RoomIsFit(s: State, m: Payload)
    requires Good(s) && s.p.PLoop? && !s.c.CDec?
    ensures |s.takers| <= |s.log| && (HasRoom(s, m) <==> Fits(InRing(s), m))
    ensures !HasRoom(s, m) ==> |s.takers| < |s.log|
  {
    hide Stored, Stream, Picked, CountOf, ConsumerInv;
    EndOfLog(s);
    TailLength(s.log, |s.takers|);
  }

  function Evictions(n: nat): seq<Taker> {
    seq(n, i => ByEvictor)
  }

  /** Left alone from the top of its loop, a write evicts exactly as many of the oldest messages as a call on the queue
      does, the least number that makes room, and appends its message. */
  lemma {:induction false} WriteOut(s: State) returns (run: seq<Action>, s': State)
    requires Good(s) && !s.wild && s.p.PLoop? && !s.c.CDec?
    ensures |s.takers| <= |s.log|
    ensures Goes(s, run, s') && WriterOnly(run) && Good(s')
    ensures s'.p == PIdle && s'.c == s.c && !s'.wild && s'.reports == s.reports && s'.delivered == s.delivered
    ensures s'.log == s.log + [s.p.m] && s'.takers == s.takers + Evictions(Evicted(InRing(s), s.p.m))
    decreases |s.log| - |s.takers|
  {
    RoomIsFit(s, s.p.m);
    OneEviction(InRing(s), s.p.m);
    hide Good, Goes, WriterOnly, OnlyCells, Fits, Evictions, Evicted, HasRoom;
    if HasRoom(s, s.p.m) {
      run, s' := WriteFromLoop(s);
      NoEvictions();
    } else {
      var m := s.p.m;
      var r1, d := LoadsRefused(s);
      var r2, e := EvictAlone(d, m);
      GoesThrough(s, r1, d, r2, e);
      assert InRing(s)[1..] == InRing(e);
      var r3;
      r3, s' := WriteOut(e);
      GoesThrough(s, r1 + r2, e, r3, s');
      run := r1 + r2 + r3;
      OnlyWriter(r1, r2, r3);
      OneMoreEviction(s.takers, Evicted(InRing(e), m));
    }
  }

  lemma OneEviction(q: seq<Payload>, m: Payload)
    ensures Evicted(q, m) == if q == [] || Fits(q, m) then 0 else 1 + Evicted(q[1..], m)
  {
  }

  lemma NoEvictions()
    ensures Evictions(0) == []
  {
  }

  lemma OneMoreEviction(takers: seq<Taker>, n: nat)
    ensures (takers + [ByEvictor]) + Evictions(n) == takers + Evictions(n + 1)
  {
    assert [ByEvictor] + Evictions(n) == Evictions(n + 1);
  }

  lemma OnlyWriter(a: seq<Action>, b: seq<Action>, c: seq<Action>)
    requires WriterOnly(a) && WriterOnly(b) && WriterOnly(c)
    ensures WriterOnly(a + b + c)
  {
  }
}
