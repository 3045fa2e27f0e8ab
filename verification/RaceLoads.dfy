/**
  When a read attempt can go wrong. An attempt starts with the reader's load of the read position and lasts until the
  attempt is retried, answered or completed. It goes wrong by answering Corrupted or by taking anything but the oldest
  committed message. All of this is about attempts during which fewer than 2^32 bytes go by.
*/
module RaceLoads {
  import opened Common
  import opened Frames
  import opened RingRace
  import opened RaceInvariant
  import opened RaceSafety
  import opened RaceSolo

  predicate InAttempt(c: Consumer) {
    c.CGotRead? || c.CLo? || c.CRecheck? || c.CCopy?
  }

  predicate WithinLap(s: State)
    requires InAttempt(s.c)
  {
    s.readPos < s.c.r + TWO_32
  }

  /** The run stays inside the attempt that is under way in `s`. */
  ghost predicate Lasts(s: State, run: seq<Action>)
    decreases |run|
  {
    && Legal(s, run) && InAttempt(Exec(s, run).c) && WithinLap(Exec(s, run))
    && (run != [] ==> Lasts(s, run[..|run| - 1]))
  }

  ghost predicate GoesWrong(s: State, k: nat) {
    && Enabled(s, C(k))
    && var s' := ConsumerStep(s, k);
       s'.reports != s.reports || (s'.delivered != s.delivered && !TakesOldest(s, s'))
  }

  /** However the two sides are interleaved from `s` on, the attempt under way may end wrong. */
  ghost predicate CanGoWrong(s: State) {
    exists run, k :: Lasts(s, run) && GoesWrong(Exec(s, run), k)
  }

  // ---- A backed attempt never goes wrong ----

  /** A committed message is, or was, at the loaded position. */
  predicate Backed(s: State)
    requires InAttempt(s.c)
  {
    if s.c.CGotRead? then s.c.ct < |s.log| else s.c.backed
  }

  lemma WriterKeepsBacked(s: State, k: nat)
    requires InAttempt(s.c) && Backed(s) && Enabled(s, P(k))
    ensures InAttempt(ProducerStep(s, k).c) && Backed(ProducerStep(s, k)) && ProducerStep(s, k).wild == s.wild
  {
    hide Stored, Stream, ConsumerStep, Frame, Cell, LittleEndian;
  }

  lemma ReaderKeepsBacked(s: State, k: nat)
    requires InAttempt(s.c) && Backed(s) && Enabled(s, C(k)) && InAttempt(ConsumerStep(s, k).c)
    ensures Backed(ConsumerStep(s, k)) && ConsumerStep(s, k).wild == s.wild
  {
    hide Stored, Stream, ProducerStep, Frame, Cell, LittleEndian;
  }

  lemma BackedKept(s: State, a: Action)
    requires InAttempt(s.c) && Backed(s) && Enabled(s, a) && InAttempt(Next(s, a).c)
    ensures Backed(Next(s, a)) && Next(s, a).wild == s.wild
  {
    match a {
      case P(k) => WriterKeepsBacked(s, k);
      case C(k) => ReaderKeepsBacked(s, k);
      case _ =>
    }
  }

  lemma {:induction false} BackedThroughout(s: State, run: seq<Action>)
    requires Good(s) && !s.wild && InAttempt(s.c) && Backed(s) && Lasts(s, run)
    ensures var e := Exec(s, run); Good(e) && !e.wild && Backed(e)
    decreases |run|
  {
    if run == [] {
    } else {
      var n := |run| - 1;
      BackedThroughout(s, run[..n]);
      var e := Exec(s, run[..n]);
      hide Good, Backed, Next, Enabled;
      BackedKept(e, run[n]);
      StepKeeps(e, run[n]);
    }
  }

  lemma BackedEndsRight(s: State, k: nat)
    requires Good(s) && InAttempt(s.c) && Backed(s) && WithinLap(s)
    ensures !GoesWrong(s, k)
  {
    if GoesWrong(s, k) {
      hide Stored, Stream, Picked, CountOf;
      var s' := ConsumerStep(s, k);
      if s'.reports != s.reports {
        ReportIsUnbacked(s, C(k));
      } else {
        TakeIsWhole(s, k);
      }
    }
  }

  // ---- An attempt that is not backed can ----

  /** The reader's program counter moves inside the attempt and nothing else happens. */
  lemma Extend(s: State, run: seq<Action>, k: nat, c: Consumer) returns (more: seq<Action>)
    requires Lasts(s, run) && Enabled(Exec(s, run), C(k)) && ConsumerStep(Exec(s, run), k) == s.(c := c)
    requires InAttempt(c) && WithinLap(s.(c := c))
    ensures Lasts(s, more) && Exec(s, more) == s.(c := c)
  {
    more := run + [C(k)];
    assert more[..|more| - 1] == run;
  }

  /** The reader copies the rest of the bytes with nobody in between. */
  lemma {:induction false} CopyAlone(s: State, run: seq<Action>, c: Consumer, k: nat)
      returns (more: seq<Action>, got: map<nat, byte>)
    requires InAttempt(s.c) && |s.mem| == RING_CAPACITY && Lasts(s, run) && Exec(s, run) == s.(c := c)
    requires c.CCopy? && c.r == s.readPos && c.got.Keys == Range(k) && k <= c.len
    ensures Lasts(s, more) && got.Keys == Range(c.len) && Exec(s, more) == s.(c := c.(got := got))
    decreases c.len - k
  {
    if k == c.len {
      more, got := run, c.got;
    } else {
      var c' := OneMore(s, c, k);
      hide Enabled, ConsumerStep, Lasts, Exec, Legal;
      more := Extend(s, run, k, c');
      more, got := CopyAlone(s, more, c', k + 1);
    }
  }

  lemma OneMore(s: State, c: Consumer, k: nat) returns (c': Consumer)
    requires |s.mem| == RING_CAPACITY && c.CCopy? && c.got.Keys == Range(k) && k < c.len
    ensures Enabled(s.(c := c), C(k)) && ConsumerStep(s.(c := c), k) == s.(c := c')
    ensures c'.CCopy? && c' == c.(got := c'.got) && c'.got.Keys == Range(k + 1)
  {
    ByteSeen(s.(c := c), k);
    c' := ConsumerStep(s.(c := c), k).c;
  }

  /** The length the reader finds at its loaded position when it reads both bytes now. */
  function LengthSeen(s: State): nat
    requires |s.mem| == RING_CAPACITY && s.c.CGotRead?
  {
    LittleEndian(s.mem[Cell(s.c.r, 0)], s.mem[Cell(s.c.r, 1)])
  }

  /** No message was committed where the reader is about to look. Left alone, it answers Corrupted if the two cells there
      hold no legal length. If they do, it takes that many bytes for a message that does not exist. */
  lemma AloneWithNothing(s: State) returns (run: seq<Action>)
    requires |s.mem| == RING_CAPACITY && s.c == CGotRead(s.readPos, |s.takers|) && |s.takers| == |s.log|
    ensures Lasts(s, run) && Enabled(Exec(s, run), C(0)) && GoesWrong(Exec(s, run), 0)
    ensures var e, f := Exec(s, run), ConsumerStep(Exec(s, run), 0);
      if LegalLength(LengthSeen(s)) then
        && e == s.(c := e.c)
        && f.wild && |f.takers| > |f.log| && f.c == CDec && f.p == s.p && f.count == s.count
        && f.readPos == s.readPos + MESSAGE_HEADER_SIZE + LengthSeen(s)
        && f.delivered[..|f.delivered| - 1] == s.delivered && |f.delivered[|s.delivered|]| == LengthSeen(s)
      else f == s.(c := CIdle, reports := s.reports + 1)
  {
    var r, t := s.readPos, |s.takers|;
    assert Exec(s, []) == s && Lasts(s, []);
    var c1 := CLo(r, t, s.mem[Cell(r, 0)], false);
    run := Extend(s, [], 0, c1);
    if LegalLength(LengthSeen(s)) {
      var c2 := CCopy(r, t, LengthSeen(s), map[], false);
      run := Extend(s, run, 0, c2);
      assert c2.got.Keys == Range(0);
      var got;
      run, got := CopyAlone(s, run, c2, 0);
      ForeignTake(s, got);
    } else {
      run := Extend(s, run, 0, CRecheck(r, t, false));
    }
  }

  lemma ForeignTake(s: State, got: map<nat, byte>)
    requires |s.mem| == RING_CAPACITY && s.c.CGotRead? && got.Keys == Range(LengthSeen(s)) && |s.takers| == |s.log|
    ensures var e := s.(c := CCopy(s.readPos, |s.takers|, LengthSeen(s), got, false));
      && Enabled(e, C(0)) && GoesWrong(e, 0)
      && var f := ConsumerStep(e, 0);
         && f.wild && |f.takers| > |f.log| && f.c == CDec && f.p == s.p && f.count == s.count
         && f.readPos == s.readPos + MESSAGE_HEADER_SIZE + LengthSeen(s)
         && f.delivered[..|f.delivered| - 1] == s.delivered && |f.delivered[|s.delivered|]| == LengthSeen(s)
  {
    var e := s.(c := CCopy(s.readPos, |s.takers|, LengthSeen(s), got, false));
    assert AllOf(e.c.len, e.c.got.Keys);
    var f := ConsumerStep(e, 0);
    assert |f.delivered| == |e.delivered| + 1;
  }

  // ---- The exact condition, attempt by attempt ----

  /** An attempt about to read its first byte may still go wrong if and only if no message was committed there. */
  lemma WrongIffNothingCommitted(s: State)
    requires Good(s) && !s.wild && s.c.CGotRead? && WithinLap(s)
    ensures CanGoWrong(s) <==> s.c.ct == |s.log|
  {
    if s.c.ct < |s.log| {
      forall run, k | Lasts(s, run) ensures !GoesWrong(Exec(s, run), k) {
        BackedThroughout(s, run);
        hide Good, GoesWrong, Backed;
        LastsWithinLap(s, run);
        BackedEndsRight(Exec(s, run), k);
      }
    } else {
      EqualPositions(s);
      hide Good, GoesWrong;
      var run := AloneWithNothing(s);
    }
  }

  lemma LastsWithinLap(s: State, run: seq<Action>)
    requires Lasts(s, run)
    ensures InAttempt(Exec(s, run).c) && WithinLap(Exec(s, run))
  {
  }

  lemma EqualPositions(s: State)
    requires Good(s) && s.c.CGotRead? && s.c.ct >= |s.log|
    ensures |s.mem| == RING_CAPACITY && |s.takers| == |s.log| == s.c.ct && s.c == CGotRead(s.readPos, |s.takers|)
  {
  }

  /** The same at the load itself, over whole runs: the attempt it begins may go wrong if and only if the position loaded
      is the end of everything committed. */
  lemma {:induction false} LoadCanGoWrongIff(s0: State, run: seq<Action>, k: nat)
    requires Init(s0) && Legal(s0, run) && !Exec(s0, run).wild
    requires Exec(s0, run).c.CGotCount?
    ensures var s := Exec(s0, run);
      Enabled(s, C(k)) && (CanGoWrong(ConsumerStep(s, k)) <==> s.readPos == |Stream(s.log)|)
  {
    Reachable(s0, run);
    LoadStep(Exec(s0, run), k);
    hide Good, ConsumerStep, Enabled, CanGoWrong, Legal, Exec;
    WrongIffNothingCommitted(ConsumerStep(Exec(s0, run), k));
  }

  lemma LoadStep(s: State, k: nat)
    requires Good(s) && s.c.CGotCount?
    ensures Enabled(s, C(k))
    ensures var s' := ConsumerStep(s, k);
      && Good(s') && s'.wild == s.wild && s'.c.CGotRead? && WithinLap(s')
      && (s'.c.ct == |s'.log| <==> s.readPos == |Stream(s.log)|)
  {
    LoadKeeps(s, k);
    EndOfLog(s);
  }

  // ---- Runs in which every attempt is backed ----

  /** The environment's side: nothing runs between the two halves of an eviction's update or between the consumer's
      two loads, and fewer than 2^32 bytes pass during one read attempt. */
  predicate Paired(s: State, a: Action) {
    && (s.p.PDiscardDec? ==> a.P?)
    && (s.c.CGotCount? ==> a.C?)
    && (InAttempt(s.c) ==> WithinLap(s))
  }

  ghost predicate AllPaired(s0: State, run: seq<Action>) {
    forall i :: 0 <= i < |run| ==> Legal(s0, run[..i]) && Paired(Exec(s0, run[..i]), run[i])
  }

  /** Between the two loads no message has gone, and the count that was seen was of committed messages. */
  predicate LoadsAgree(s: State) {
    && (s.c.CGotCount? ==> !s.c.dec && s.c.t0 == |s.takers|)
    && (InAttempt(s.c) ==> Backed(s))
  }

  lemma PairedStep(s: State, a: Action)
    requires Good(s) && !s.wild && LoadsAgree(s) && Enabled(s, a) && Paired(s, a)
    ensures LoadsAgree(Next(s, a)) && !Next(s, a).wild && Next(s, a).reports == s.reports
  {
    hide Stored, Stream, Picked, CountOf;
    if Next(s, a).reports != s.reports {
      ReportIsUnbacked(s, a);
    }
    if a.C? && ConsumerStep(s, a.k).delivered != s.delivered {
      TakeIsWhole(s, a.k);
    }
  }

  lemma {:induction false} PairedRun(s0: State, run: seq<Action>)
    requires Init(s0) && Legal(s0, run) && AllPaired(s0, run)
    ensures var s := Exec(s0, run); !s.wild && s.reports == 0 && LoadsAgree(s)
  {
    if run == [] {
    } else {
      var n := |run| - 1;
      var r := run[..n];
      forall i | 0 <= i < |r| ensures Legal(s0, r[..i]) && Paired(Exec(s0, r[..i]), r[i]) {
        assert r[..i] == run[..i];
      }
      PairedRun(s0, r);
      Reachable(s0, r);
      assert run[..n] == r;
      assert Paired(Exec(s0, r), run[n]);
      PairedStep(Exec(s0, r), run[n]);
    }
  }

  /** Such runs stay tame and nobody ever answers Corrupted, so every guarantee holds of them without condition. */
  lemma {:induction false} AtomicPairsAreNeverWild(s0: State, run: seq<Action>)
    requires Init(s0) && Legal(s0, run) && AllPaired(s0, run)
    ensures !Exec(s0, run).wild && Exec(s0, run).reports == 0
  {
    PairedRun(s0, run);
  }
}
