/** How a read ends: empty-handed only on an emptied ring, and otherwise, left alone, with the oldest message. */
module RaceReads {
  import opened Common
  import opened Frames
  import opened RingRace
  import opened RaceInvariant
  import opened RaceSafety
  import opened RaceSolo
  import opened RaceLoads

  /** Inside read_message, nothing taken yet. */
  predicate Reading(c: Consumer) {
    !c.CIdle? && !c.CDec?
  }

  /** The attempt has come to its check of the read position. */
  predicate AtCheck(c: Consumer) {
    c.CRecheck? || (c.CCopy? && AllOf(c.len, c.got.Keys))
  }

  lemma ReadStep(s: State, k: nat)
    requires Good(s) && Enabled(s, C(k)) && Reading(s.c)
    ensures var s' := ConsumerStep(s, k);
      && (s'.c == CIdle && s'.reports == s.reports <==> s.c == CLoop && s.count == 0)
      && (s.c == CLoop && s.count == 0 ==> |s.takers| == |s.log| && s' == s.(c := CIdle))
      && (AtCheck(s.c) && !Same(s.readPos, s.c.r) ==> s' == s.(c := CLoop, retriesC := s.retriesC + 1))
  {
    hide Stored, Stream, Picked, CountOf, ProducerInv, ProducerStep, Cell, LittleEndian, U32;
  }

  /** Over every tame run, a read comes back empty-handed if and only if it loads a count of zero at the top of its loop, and
      then every committed message has been taken; an overtaken attempt is always begun again. */
  lemma {:induction false} ReadEndsOnlyWhenEmptied(s0: State, run: seq<Action>, k: nat)
    requires Init(s0) && Legal(s0, run) && !Exec(s0, run).wild
    requires Enabled(Exec(s0, run), C(k)) && Reading(Exec(s0, run).c)
    ensures var s := Exec(s0, run); var s' := ConsumerStep(s, k);
      && (s'.c == CIdle && s'.reports == s.reports <==> s.c == CLoop && s.count == 0)
      && (s.c == CLoop && s.count == 0 ==> |s.takers| == |s.log| && s' == s.(c := CIdle))
      && (AtCheck(s.c) && !Same(s.readPos, s.c.r) ==> s' == s.(c := CLoop, retriesC := s.retriesC + 1))
  {
    Reachable(s0, run);
    hide Good, Legal, Exec, ConsumerStep, Enabled;
    ReadStep(Exec(s0, run), k);
  }

  // ---- A read that can only succeed ----

  /** A message is committed, and the attempt under way, if any, is backed. */
  predicate Promising(s: State) {
    Reading(s.c) && |s.takers| < |s.log| && (InAttempt(s.c) ==> Backed(s) && WithinLap(s))
  }

  /** Bytes still to be copied. */
  function Missing(c: Consumer): set<nat>
    requires c.CCopy?
  {
    Range(c.len) - c.got.Keys
  }

  function Ahead(s: State): nat {
    (if InAttempt(s.c) && s.readPos != s.c.r then 200_000 else 0) +
    match s.c
    case CLoop => 100_003
    case CGotCount(_, _) => 100_002
    case CGotRead(_, _) => 100_001
    case CLo(_, _, _, _) => 100_000
    case CCopy(_, _, _, _, _) => |Missing(s.c)| + 1
    case _ => 0
  }

  lemma MissingIsSmall(c: Consumer)
    requires c.CCopy?
    ensures |Missing(c)| <= c.len
  {
    SubsetSize(Missing(c), Range(c.len));
  }

  /** The reader's next step, alone: it takes the oldest message, or comes nearer to it. */
  lemma Nearer(s: State) returns (k: nat)
    requires Good(s) && !s.wild && Promising(s)
    ensures Enabled(s, C(k))
    ensures var z := ConsumerStep(s, k);
      && Good(z) && !z.wild && z.reports == s.reports
      && if z.c == CDec then TakesOldest(s, z) && z.p == s.p && z.log == s.log
         else Promising(z) && Ahead(z) < Ahead(s) && z == s.(c := z.c, retriesC := z.retriesC)
  {
    k := 0;
    if s.c.CCopy? && !AllOf(s.c.len, s.c.got.Keys) {
      k :| k < s.c.len && k !in s.c.got;
      CopyNearer(s, k);
    } else if AtCheck(s.c) {
      CheckNearer(s);
    } else {
      LoadNearer(s);
    }
    TameStep(s, k);
  }

  lemma TameStep(s: State, k: nat)
    requires Good(s) && !s.wild && Enabled(s, C(k)) && !ConsumerStep(s, k).wild
    ensures Good(ConsumerStep(s, k))
  {
    hide Good, ConsumerStep, Enabled;
    ConsumerKeeps(s, k);
  }

  lemma CopyShape(s: State, k: nat)
    requires |s.mem| == RING_CAPACITY && s.c.CCopy? && k < s.c.len && k !in s.c.got
    ensures Enabled(s, C(k))
    ensures ConsumerStep(s, k) == s.(c := s.c.(got := s.c.got[k := s.mem[Cell(s.c.r, MESSAGE_HEADER_SIZE + k)]]))
  {
    hide Cell, ProducerStep;
    assert !AllOf(s.c.len, s.c.got.Keys);
  }

  lemma FewerMissing(c: Consumer, k: nat, b: byte)
    requires c.CCopy? && k < c.len && k !in c.got
    ensures |Missing(c.(got := c.got[k := b]))| < |Missing(c)|
  {
    assert Missing(c.(got := c.got[k := b])) == Missing(c) - {k};
    assert k in Missing(c);
  }

  lemma CopyNearer(s: State, k: nat)
    requires |s.mem| == RING_CAPACITY && !s.wild && Promising(s) && s.c.CCopy? && k < s.c.len && k !in s.c.got
    ensures Enabled(s, C(k))
    ensures var z := ConsumerStep(s, k);
      !z.wild && z.c.CCopy? && z == s.(c := z.c) && Promising(z) && Ahead(z) < Ahead(s)
  {
    CopyShape(s, k);
    FewerMissing(s.c, k, s.mem[Cell(s.c.r, MESSAGE_HEADER_SIZE + k)]);
    hide ConsumerStep, Enabled, Cell, Missing;
  }

  lemma CheckNearer(s: State)
    requires Good(s) && !s.wild && Promising(s) && AtCheck(s.c)
    ensures Enabled(s, C(0))
    ensures var z := ConsumerStep(s, 0);
      && !z.wild && z.reports == s.reports
      && if z.c == CDec then TakesOldest(s, z) && z.p == s.p && z.log == s.log
         else Promising(z) && Ahead(z) < Ahead(s) && z == s.(c := z.c, retriesC := z.retriesC)
  {
    hide Stored, Stream, Picked, CountOf, ProducerInv, ProducerStep, U32;
    PosMonotone(s.log, s.c.ct, |s.takers|);
    SameMeans(s.readPos, s.c.r);
    if s.readPos == s.c.r {
      TakeIsWhole(s, 0);
    }
  }

  lemma LoadNearer(s: State)
    requires Good(s) && !s.wild && Promising(s) && !AtCheck(s.c) && !s.c.CCopy?
    ensures Enabled(s, C(0))
    ensures var z := ConsumerStep(s, 0); !z.wild && z == s.(c := z.c) && z.c != CDec && Promising(z) && Ahead(z) < Ahead(s)
  {
    if s.c.CLo? {
      LengthNearer(s);
    } else {
      FirstLoadNearer(s);
    }
  }

  lemma FirstLoadNearer(s: State)
    requires Good(s) && !s.wild && Promising(s) && (s.c.CLoop? || s.c.CGotCount? || s.c.CGotRead?)
    ensures Enabled(s, C(0))
    ensures var z := ConsumerStep(s, 0); !z.wild && z == s.(c := z.c) && z.c != CDec && Promising(z) && Ahead(z) < Ahead(s)
  {
    hide Stored, Stream, Picked, CountOf, ProducerInv, Accounts, ProducerStep, U32, Cell, LittleEndian, Missing;
  }

  /** What the second length byte decides. */
  lemma LengthShape(s: State)
    requires |s.mem| == RING_CAPACITY && s.c.CLo?
    ensures Enabled(s, C(0))
    ensures var z := ConsumerStep(s, 0);
      && z == s.(c := z.c)
      && (z.c == CRecheck(s.c.r, s.c.ct, s.c.backed)
          || (z.c.CCopy? && LegalLength(z.c.len) && z.c == CCopy(s.c.r, s.c.ct, z.c.len, map[], s.c.backed)))
  {
    hide Cell, LittleEndian, ProducerStep;
  }

  lemma LengthNearer(s: State)
    requires Good(s) && !s.wild && Promising(s) && s.c.CLo?
    ensures Enabled(s, C(0))
    ensures var z := ConsumerStep(s, 0); !z.wild && z == s.(c := z.c) && z.c != CDec && Promising(z) && Ahead(z) < Ahead(s)
  {
    assert |s.mem| == RING_CAPACITY;
    LengthShape(s);
    var z := ConsumerStep(s, 0);
    hide Good, ConsumerStep, Enabled, Missing;
    if z.c.CCopy? {
      MissingIsSmall(z.c);
    }
  }

  lemma {:induction false} TakeAlone(s: State) returns (run: seq<Action>, d: State)
    requires Good(s) && !s.wild && Promising(s)
    ensures Goes(s, run, d) && WithinRead(run) && d.c == CDec && !d.wild && d.reports == s.reports
    ensures TakesOldest(s, d) && d.p == s.p && d.log == s.log
    decreases Ahead(s)
  {
    var k := Nearer(s);
    var z := Next(s, C(k));
    NoSteps();
    assert Goes(s, [], s);
    hide Good, Goes, Next, Enabled, ConsumerStep, WithinRead, Promising, Ahead;
    run := WithinOn(s, [], s, k);
    if z.c == CDec {
      d := z;
    } else {
      var more;
      more, d := TakeAlone(z);
      GoesThrough(s, run, z, more, d);
      BothWithin(run, more);
      run := run + more;
    }
  }

  lemma BothWithin(a: seq<Action>, b: seq<Action>)
    requires WithinRead(a) && WithinRead(b)
    ensures WithinRead(a + b)
  {
  }

  /** The reader's own steps bring the read under way to the oldest message. */
  ghost predicate CanTakeOldest(s: State) {
    exists run, d :: Goes(s, run, d) && WithinRead(run) && d.c == CDec && !d.wild && TakesOldest(s, d)
  }

  /** From every reachable tame state in which a read is under way and a message is committed, with a backed attempt or
      between two attempts, and however often it was overtaken, the reader's own steps end in taking the oldest message. */
  lemma {:induction false} ReadSucceeds(s0: State, run: seq<Action>)
    requires Init(s0) && Legal(s0, run) && !Exec(s0, run).wild && Promising(Exec(s0, run))
    ensures CanTakeOldest(Exec(s0, run))
  {
    Reachable(s0, run);
    hide Good, Legal, Exec, Promising;
    var more, d := TakeAlone(Exec(s0, run));
  }
}
