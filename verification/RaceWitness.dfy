/**
  Legal runs in which the ring goes wrong, or gives a write up, although no byte of it is damaged.

  For the wrong reads the writer fills the ring to the message cap, starts another write and is suspended between moving
  the read position and lowering the count. The reader drains everything else, still sees a count of one, and loads a
  read position with nothing behind it. What it does there depends on the bytes an earlier connection left in those
  cells: a reset clears the header, not the storage.
*/
module RaceWitness {
  import opened Common
  import opened Frames
  import opened RingRace
  import opened RaceInvariant
  import opened RaceSafety
  import opened RaceLoads
  import opened RaceSolo
  import opened RaceWrites

  function Pair(): Payload {
    [0, 0]
  }

  function Largest(): Payload {
    seq(MAX_MESSAGE_SIZE, i => 0)
  }

  /** A freshly reset ring over storage that is zero but for one left-over byte. */
  function Start(left: byte): State {
    State(0, 0, 0, seq(RING_CAPACITY, i => if i == 3000 then left else 0), PIdle, CIdle, [], [], [], 0, 0, 0, false)
  }

  ghost predicate Reaches(left: byte, s: State) {
    exists run :: Goes(Start(left), run, s)
  }

  lemma ReachesOn(left: byte, s: State, run: seq<Action>, s': State)
    requires Reaches(left, s) && Goes(s, run, s')
    ensures Reaches(left, s')
  {
    var first :| Goes(Start(left), first, s);
    GoesThrough(Start(left), first, s, run, s');
  }

  lemma ReachesNext(left: byte, s: State, a: Action)
    requires Reaches(left, s) && Enabled(s, a)
    ensures Reaches(left, Next(s, a))
  {
    assert Goes(s, [], s);
    var run := GoesOn(s, [], s, a);
    ReachesOn(left, s, run, Next(s, a));
  }

  /** The storage from cell `from` on is as it was at the start. */
  ghost predicate Untouched(left: byte, mem: seq<byte>, from: nat) {
    forall i :: from <= i < |mem| ==> mem[i] == if i == 3000 then left else 0
  }

  /** `n` messages like `m` written, none taken, the storage behind them untouched. */
  ghost predicate Filled(left: byte, s: State, m: Payload, n: nat) {
    && Reaches(left, s) && Good(s) && !s.wild && s.p == PIdle && s.c == CIdle
    && |s.mem| == RING_CAPACITY && |s.log| == n == s.count && s.takers == [] && s.readPos == 0
    && s.writePos == n * |Frame(m)|
    && Untouched(left, s.mem, s.writePos)
  }

  lemma StaysUntouched(left: byte, mem: seq<byte>, mem': seq<byte>, w: nat, n: nat)
    requires |mem| == RING_CAPACITY && Untouched(left, mem, w) && w + n <= RING_CAPACITY && OnlyCells(mem, mem', w, n)
    ensures Untouched(left, mem', w + n)
  {
    forall i | w + n <= i < |mem'| ensures mem'[i] == if i == 3000 then left else 0 {
      forall k | 0 <= k < n ensures i != Cell(w, k) {
      }
    }
  }

  lemma StartIsGood(left: byte)
    ensures Good(Start(left)) && Init(Start(left)) && Reaches(left, Start(left))
  {
    assert Goes(Start(left), [], Start(left));
    assert Stream(Start(left).log[0..]) == [];
    PosEnds([]);
  }

  lemma {:induction false} Fill(left: byte, m: Payload, n: nat) returns (s: State)
    requires n <= MAX_MESSAGES && n * |Frame(m)| <= RING_CAPACITY
    ensures Filled(left, s, m, n)
  {
    if n == 0 {
      s := Start(left);
      StartIsGood(left);
    } else {
      var f := |Frame(m)|;
      assert n * f == (n - 1) * f + f;
      var b := Fill(left, m, n - 1);
      hide Good, Reaches, Goes, OnlyCells, Untouched, Frame;
      assert HasRoom(b, m);
      var run;
      run, s := WriteAlone(b, m);
      ReachesOn(left, b, run, s);
      StaysUntouched(left, b.mem, s.mem, b.writePos, f);
    }
  }

  // ---- Reads that go wrong ----

  /** The reader has seen a count of one and loaded the position behind the last message; the writer is suspended. */
  ghost predicate Misled(left: byte, s: State) {
    && Reaches(left, s) && |s.mem| == RING_CAPACITY && !s.wild && s.count == 1
    && s.p == PDiscardDec(Pair()) && s.c == CGotRead(s.readPos, |s.takers|) && |s.takers| == |s.log|
    && s.readPos == s.writePos == 3000 && s.mem[3000] == left && s.mem[3001] == 0
  }

  /** The ring at the cap, a write under way, its eviction half done. */
  lemma Suspend(left: byte) returns (s: State)
    ensures Reaches(left, s) && Good(s) && !s.wild && s.p == PDiscardDec(Pair()) && s.c == CIdle
    ensures |s.log| == MAX_MESSAGES && s.writePos == 3000
    ensures |s.mem| == RING_CAPACITY && s.mem[3000] == left && s.mem[3001] == 0
  {
    var b := Fill(left, Pair(), MAX_MESSAGES);
    var l := Next(b, StartWrite(Pair()));
    ReachesNext(left, b, StartWrite(Pair()));
    StepKeeps(b, StartWrite(Pair()));
    assert l == b.(p := PLoop(Pair())) && b.mem[3000] == left && b.mem[3001] == 0 && b.writePos == 3000;
    hide Good, Reaches, Goes, Next, Filled;
    var run, d := LoadsRefused(l);
    ReachesOn(left, l, run, d);
    run, s := EvictHalf(d, Pair());
    ReachesOn(left, d, run, s);
  }

  lemma StaleLoad(left: byte) returns (s: State)
    ensures Misled(left, s)
  {
    var b := Suspend(left);
    var run, d := DrainAlone(b);
    ReachesOn(left, b, run, d);
    DrainedSuspended(d);
    hide Good, Reaches, Goes;
    var a := Next(d, StartRead);
    ReachesNext(left, d, StartRead);
    var c := Next(a, C(0));
    ReachesNext(left, a, C(0));
    s := Next(c, C(0));
    ReachesNext(left, c, C(0));
  }

  lemma DrainedSuspended(d: State)
    requires Good(d) && d.p.PDiscardDec? && d.c == CIdle && |d.takers| == |d.log|
    ensures d.count == 1 && d.readPos == d.writePos
  {
    EndOfLog(d);
  }

  lemma Aftermath(left: byte) returns (s: State, f: State)
    ensures Misled(left, s) && Reaches(left, f)
    ensures if LegalLength(left as int) then
        && f.wild && |f.takers| > |f.log| && f.c == CDec && f.p == s.p && f.count == 1 && !f.p.PStore?
        && f.readPos == 3000 + MESSAGE_HEADER_SIZE + left
        && |f.mem| == RING_CAPACITY && f.writePos == 3000
      else f == s.(c := CIdle, reports := s.reports + 1)
  {
    s := StaleLoad(left);
    LengthIs(left, s);
    var run := AloneWithNothing(s);
    assert Goes(s, run, Exec(s, run));
    hide Reaches, GoesWrong, Lasts, Misled, Goes;
    f := Next(Exec(s, run), C(0));
    ReachesOn(left, s, run, Exec(s, run));
    ReachesNext(left, Exec(s, run), C(0));
  }

  lemma LengthIs(left: byte, s: State)
    requires Misled(left, s)
    ensures LengthSeen(s) == left
  {
  }

  /** Corruption was reported, every committed message has been taken, and the ring is empty. */
  predicate FalseAlarm(s: State) {
    s.reports > 0 && |s.takers| == |s.log| && s.readPos == s.writePos && s.c == CIdle && !s.wild
  }

  /** Over zero bytes the reader reports corruption of an intact ring. */
  lemma StaleLoadReportsCorruption()
    ensures exists run :: Init(Start(0)) && Legal(Start(0), run) && FalseAlarm(Exec(Start(0), run))
  {
    var s, f := Aftermath(0);
  }

  /** The reader took something after every committed message was gone, the read position has passed the write position
      with no write being published, and the count has wrapped. */
  predicate ForeignDelivery(s: State) {
    |s.takers| > |s.log| && s.readPos == s.writePos + 6 && !s.p.PStore? && s.count == TWO_32 - 1
  }

  /** Over a left-over length of two the compare-exchange succeeds, and two bytes that nobody sent are delivered. */
  lemma StaleLoadDeliversForeignBytes()
    ensures exists run :: Init(Start(2)) && Legal(Start(2), run) && ForeignDelivery(Exec(Start(2), run))
  {
    var s, f := Aftermath(2);
    hide Reaches, Misled;
    var g := Next(f, C(0));
    ReachesNext(2, f, C(0));
    var h := Next(g, P(0));
    ReachesNext(2, g, P(0));
    assert ForeignDelivery(h);
    Reached(2, h);
  }

  lemma Reached(left: byte, s: State)
    requires Reaches(left, s)
    ensures Init(Start(left)) && exists run :: Legal(Start(left), run) && Exec(Start(left), run) == s
  {
  }

  // ---- Writes that are given up ----

  /** `n` messages like `m` fill the ring so that one more does not fit; the writer has started that one. */
  lemma StartWithoutRoom(m: Payload, n: nat) returns (s: State)
    requires n <= MAX_MESSAGES && n * |Frame(m)| <= RING_CAPACITY
    ensures Reaches(0, s) && Good(s) && !s.wild && s.p == PLoop(m) && s.c == CIdle
    ensures s.readPos == 0 && s.writePos == n * |Frame(m)| && s.count == n
  {
    var b := Fill(0, m, n);
    s := Next(b, StartWrite(m));
    ReachesNext(0, b, StartWrite(m));
    StepKeeps(b, StartWrite(m));
  }

  /** With 500 small messages in the ring the next write can end in QueueEmpty. */
  lemma WriteCanEndQueueEmpty()
    ensures exists run :: Init(Start(0)) && Legal(Start(0), run) && !Exec(Start(0), run).wild
                          && EndsQueueEmpty(Exec(Start(0), run))
  {
    var s := StartWithoutRoom(Pair(), MAX_MESSAGES);
    var more := GiveUpQueueEmpty(s);
    Delivered(s, more);
  }

  /** With 31 messages of the largest size in the ring another one can end in MessageTooLarge. */
  lemma WriteCanEndTooLarge()
    ensures exists run :: Init(Start(0)) && Legal(Start(0), run) && !Exec(Start(0), run).wild
                          && EndsTooLarge(Exec(Start(0), run))
  {
    assert 31 * |Frame(Largest())| <= RING_CAPACITY < 32 * |Frame(Largest())|;
    var s := StartWithoutRoom(Largest(), 31);
    var more := GiveUpTooLarge(s);
    Delivered(s, more);
  }

  lemma Delivered(s: State, more: seq<Action>)
    requires Reaches(0, s) && WriteLasts(s, more)
    ensures exists run :: Init(Start(0)) && Legal(Start(0), run) && Exec(Start(0), run) == Exec(s, more)
    ensures !Exec(s, more).wild
  {
    assert Goes(s, more, Exec(s, more));
    ReachesOn(0, s, more, Exec(s, more));
    Reached(0, Exec(s, more));
  }
}
