/**
  Who may take a claim off a slot: claiming, publishing the owner's process id, releasing, crashing, and the server's
  detection and delayed handling of orphaned slots, all by compare-exchange and in any interleaving.

  A token names one claiming attempt; tokens are nonzero and never reused. A process id is dead from its crash on, and
  the server's liveness probe calls only dead ids dead. The unconditional stores of `release_slot_claim` are not steps
  of this system.

  History: a slot's `author` is the token whose attempt last stored the owner word. A token is `condemned` when the server
  records it for retirement while its attempt is alive and has not given the slot up.
*/
module SlotOwnership {
  import opened Common

  datatype Slot = Slot(claim: u32, pid: u32, author: u32, connected: bool)

  datatype Attempt =
    | Scanning(pid: u32)
    | Claimed(pid: u32, slot: nat)    // compare-exchange succeeded, process id not yet stored
    | Holding(pid: u32, slot: nat)
    | Done(pid: u32)

  datatype Record = Record(slot: nat, expected: u32)

  datatype Probe = NoProbe | Loaded(slot: nat, claim: u32)

  datatype State = State(slots: seq<Slot>, attempts: map<u32, Attempt>, dead: set<u32>, probe: Probe,
                         records: set<Record>, condemned: set<u32>)

  datatype Action =
    | Begin(token: u32, pid: u32)
    | TryClaim(token: u32, slot: nat)
    | Publish(token: u32)
    | Release(token: u32)
    | Crash(pid: u32)
    | Connect(slot: nat)              // the worker completes a handshake on the slot
    | LoadClaim(slot: nat)            // reclaim_stale_claims reads the claim of a connected slot
    | CheckOwner                      // ... and then the owner's process id
    | Handle(record: Record)          // handle_orphaned_slot_disconnect

  ghost predicate Init(s: State) {
    && (forall i :: 0 <= i < |s.slots| ==> s.slots[i] == Slot(CLAIM_FREE, 0, CLAIM_FREE, false))
    && s.attempts == map[] && s.dead == {} && s.probe == NoProbe && s.records == {} && s.condemned == {}
  }

  predicate Alive(s: State, token: u32) {
    token in s.attempts && s.attempts[token].pid !in s.dead
  }

  /** The attempt has won its slot and has not given it back. */
  predicate Owns(s: State, token: u32) {
    token in s.attempts && (s.attempts[token].Claimed? || s.attempts[token].Holding?)
  }

  predicate Enabled(s: State, a: Action) {
    match a
    case Begin(t, pid) => t != CLAIM_FREE && t !in s.attempts && pid != 0 && pid !in s.dead
    case TryClaim(t, i) => Alive(s, t) && s.attempts[t].Scanning? && i < |s.slots|
    case Publish(t) => Alive(s, t) && s.attempts[t].Claimed? && s.attempts[t].slot < |s.slots|
    case Release(t) => Alive(s, t) && s.attempts[t].Holding? && s.attempts[t].slot < |s.slots|
    case Crash(pid) => pid != 0       // the liveness probe answers "alive" for 0
    case Connect(i) => i < |s.slots| && !s.slots[i].connected
    case LoadClaim(i) => s.probe == NoProbe && i < |s.slots| && s.slots[i].connected
    case CheckOwner => s.probe.Loaded? && s.probe.slot < |s.slots|
    case Handle(r) => r in s.records && r.slot < |s.slots|
  }

  function Next(s: State, a: Action): State
    requires Enabled(s, a)
  {
    match a
    case Begin(t, pid) => s.(attempts := s.attempts[t := Scanning(pid)])
    case TryClaim(t, i) =>
      if s.slots[i].claim == CLAIM_FREE then
        s.(slots := s.slots[i := s.slots[i].(claim := t)],
           attempts := s.attempts[t := Claimed(s.attempts[t].pid, i)])
      else s
    case Publish(t) =>
      var i := s.attempts[t].slot;
      s.(slots := s.slots[i := s.slots[i].(pid := s.attempts[t].pid, author := t)],
         attempts := s.attempts[t := Holding(s.attempts[t].pid, i)])
    case Release(t) =>
      var i := s.attempts[t].slot;
      s.(slots := Exchange(s.slots, i, t), attempts := s.attempts[t := Done(s.attempts[t].pid)])
    case Crash(pid) => s.(dead := s.dead + {pid})
    case Connect(i) => s.(slots := s.slots[i := s.slots[i].(connected := true)])
    case LoadClaim(i) =>
      if s.slots[i].claim == CLAIM_FREE then s.(records := s.records + {Record(i, CLAIM_FREE)})
      else s.(probe := Loaded(i, s.slots[i].claim))
    case CheckOwner =>
      var Loaded(i, v) := s.probe;
      if s.slots[i].pid in s.dead then
        s.(probe := NoProbe, records := s.records + {Record(i, v)},
           condemned := if Alive(s, v) && Owns(s, v) then s.condemned + {v} else s.condemned)
      else s.(probe := NoProbe)
    case Handle(r) =>
      var s' := s.(records := s.records - {r});
      var slot := s.slots[r.slot];
      if slot.connected && slot.claim == r.expected then
        s'.(slots := s.slots[r.slot := slot.(claim := CLAIM_FREE, connected := false)])
      else s'
  }

  /** `compare_exchange(token, CLAIM_FREE)` on one slot. */
  function Exchange(slots: seq<Slot>, i: nat, token: u32): seq<Slot>
    requires i < |slots|
  {
    if slots[i].claim == token then slots[i := slots[i].(claim := CLAIM_FREE)] else slots
  }

  ghost predicate Leads(s: State, run: seq<Action>, s': State)
    decreases |run|
  {
    if run == [] then s' == s
    else Enabled(s, run[0]) && Leads(Next(s, run[0]), run[1..], s')
  }

  // ---- Invariants ----

  /** Tokens found in slots, probes and records are real; a slot's token belongs to an attempt on that slot. */
  ghost predicate Sound(s: State) {
    && CLAIM_FREE !in s.attempts
    && (forall i :: 0 <= i < |s.slots| && s.slots[i].claim != CLAIM_FREE ==>
          Owns(s, s.slots[i].claim) && s.attempts[s.slots[i].claim].slot == i)
    && (forall t :: t in s.attempts ==> s.attempts[t].pid != 0)
    && (forall t :: Owns(s, t) ==> s.attempts[t].slot < |s.slots|)
    && (s.probe.Loaded? ==> Seen(s, s.probe.slot, s.probe.claim) && s.probe.claim != CLAIM_FREE)
    && (forall r :: r in s.records ==> r.slot < |s.slots| && (r.expected == CLAIM_FREE || Seen(s, r.slot, r.expected)))
  }

  /** The token was once seen in the slot: it still names an attempt on that slot, or one that is over. */
  ghost predicate Seen(s: State, i: nat, t: u32) {
    && i < |s.slots| && t in s.attempts
    && (s.attempts[t].Done? || (Owns(s, t) && s.attempts[t].slot == i))
  }

  /** A live owner that was never condemned has its claim standing and is in no record; a published owner's claim stands
      with its own id or with one that a condemned attempt stored late; and an owner being probed is on a connected slot. */
  ghost predicate Secure(s: State)
    requires Sound(s)
  {
    && (forall t :: Owns(s, t) && Alive(s, t) && t !in s.condemned ==> s.slots[s.attempts[t].slot].claim == t)
    && (forall r :: r in s.records && r.expected != CLAIM_FREE && r.expected !in s.condemned ==>
          !(Owns(s, r.expected) && Alive(s, r.expected)))
    && (forall i :: 0 <= i < |s.slots| && s.slots[i].author != CLAIM_FREE ==>
          s.slots[i].author in s.attempts && s.slots[i].pid == s.attempts[s.slots[i].author].pid)
    && (forall t :: t in s.attempts && s.attempts[t].Holding? && s.slots[s.attempts[t].slot].claim == t ==>
          var author := s.slots[s.attempts[t].slot].author; author == t || author in s.condemned)
    && (s.probe.Loaded? && s.slots[s.probe.slot].claim == s.probe.claim ==> s.slots[s.probe.slot].connected)
  }

  ghost predicate Inv(s: State) {
    Sound(s) && Secure(s)
  }

  lemma ClientStepsSound(s: State, a: Action)
    requires Sound(s) && Enabled(s, a) && (a.Begin? || a.TryClaim? || a.Publish?)
    ensures Sound(Next(s, a))
  {
  }

  lemma ReleaseSound(s: State, a: Action)
    requires Sound(s) && Enabled(s, a) && (a.Release? || a.Crash?)
    ensures Sound(Next(s, a))
  {
  }

  lemma DetectionSound(s: State, a: Action)
    requires Sound(s) && Enabled(s, a) && (a.LoadClaim? || a.CheckOwner?)
    ensures Sound(Next(s, a))
  {
  }

  lemma SlotStepsSound(s: State, a: Action)
    requires Sound(s) && Enabled(s, a) && (a.Connect? || a.Handle?)
    ensures Sound(Next(s, a))
  {
  }

  lemma SoundKept(s: State, a: Action)
    requires Sound(s) && Enabled(s, a)
    ensures Sound(Next(s, a))
  {
    hide Sound;
    if a.Begin? || a.TryClaim? || a.Publish? {
      ClientStepsSound(s, a);
    } else if a.Release? || a.Crash? {
      ReleaseSound(s, a);
    } else if a.LoadClaim? || a.CheckOwner? {
      DetectionSound(s, a);
    } else {
      SlotStepsSound(s, a);
    }
  }

  lemma BeginSecure(s: State, a: Action)
    requires Inv(s) && Enabled(s, a) && Sound(Next(s, a)) && (a.Begin? || a.TryClaim?)
    ensures Secure(Next(s, a))
  {
  }

  lemma PublishSecure(s: State, a: Action)
    requires Inv(s) && Enabled(s, a) && Sound(Next(s, a)) && a.Publish?
    ensures Secure(Next(s, a))
  {
  }

  lemma EndSecure(s: State, a: Action)
    requires Inv(s) && Enabled(s, a) && Sound(Next(s, a)) && (a.Release? || a.Crash?)
    ensures Secure(Next(s, a))
  {
  }

  lemma DetectionSecure(s: State, a: Action)
    requires Inv(s) && Enabled(s, a) && Sound(Next(s, a)) && (a.LoadClaim? || a.CheckOwner?)
    ensures Secure(Next(s, a))
  {
  }

  lemma ConnectSecure(s: State, a: Action)
    requires Inv(s) && Enabled(s, a) && Sound(Next(s, a)) && a.Connect?
    ensures Secure(Next(s, a))
  {
  }

  lemma HandleSecure(s: State, a: Action)
    requires Inv(s) && Enabled(s, a) && Sound(Next(s, a)) && a.Handle?
    ensures Secure(Next(s, a))
  {
  }

  lemma InvKept(s: State, a: Action)
    requires Inv(s) && Enabled(s, a)
    ensures Inv(Next(s, a))
  {
    SoundKept(s, a);
    hide Sound, Secure, Next;
    if a.Begin? || a.TryClaim? {
      BeginSecure(s, a);
    } else if a.Publish? {
      PublishSecure(s, a);
    } else if a.Release? || a.Crash? {
      EndSecure(s, a);
    } else if a.LoadClaim? || a.CheckOwner? {
      DetectionSecure(s, a);
    } else if a.Connect? {
      ConnectSecure(s, a);
    } else {
      HandleSecure(s, a);
    }
  }

  lemma {:induction false} Reached(s: State, run: seq<Action>, s': State)
    requires Inv(s) && Leads(s, run, s')
    ensures Inv(s')
    decreases |run|
  {
    if run == [] {
    } else {
      hide Inv;
      InvKept(s, run[0]);
      Reached(Next(s, run[0]), run[1..], s');
    }
  }

  // ---- Results ----

  /** The `k`-th step of the run read token `t` off slot `i`, which was connected and held it then. */
  ghost predicate SawClaim(s: State, run: seq<Action>, k: nat, i: nat, t: u32) {
    && k < |run| && run[k] == LoadClaim(i)
    && exists m :: Leads(s, run[..k], m) && i < |m.slots| && m.slots[i].connected && m.slots[i].claim == t
  }

  lemma SawLater(s: State, run: seq<Action>, k: nat, i: nat, t: u32)
    requires run != [] && Enabled(s, run[0]) && SawClaim(Next(s, run[0]), run[1..], k, i, t)
    ensures SawClaim(s, run, k + 1, i, t)
  {
    var m :| Leads(Next(s, run[0]), run[1..][..k], m) && i < |m.slots| && m.slots[i].connected && m.slots[i].claim == t;
    assert run[..k + 1][1..] == run[1..][..k];
    assert Leads(s, run[..k + 1], m);
  }

  lemma SawInLonger(s: State, run: seq<Action>, longer: seq<Action>, k: nat, i: nat, t: u32)
    requires SawClaim(s, run, k, i, t) && run <= longer
    ensures SawClaim(s, longer, k, i, t)
  {
    assert longer[..k] == run[..k] && longer[k] == run[k];
  }

  /** A record, or a probe under way, comes from an earlier read of that very token off that very slot. */
  lemma {:induction false} RecordsWereSeen(s: State, run: seq<Action>, s': State, i: nat, t: u32)
    requires Leads(s, run, s') && Record(i, t) !in s.records && s.probe != Loaded(i, t)
    requires Record(i, t) in s'.records || s'.probe == Loaded(i, t)
    ensures exists k: nat :: SawClaim(s, run, k, i, t)
    decreases |run|
  {
    if run == [] {
    } else {
      var n := Next(s, run[0]);
      if Record(i, t) in n.records || n.probe == Loaded(i, t) {
        assert run[..0] == [] && Leads(s, run[..0], s);
        assert SawClaim(s, run, 0, i, t);
      } else {
        RecordsWereSeen(n, run[1..], s', i, t);
        var k: nat :| SawClaim(n, run[1..], k, i, t);
        SawLater(s, run, k, i, t);
      }
    }
  }

  /** One step takes a token off its slot only as its own attempt's release or a handler's retirement of that token. */
  lemma RemovedBy(s: State, a: Action, i: nat)
    requires Enabled(s, a) && i < |s.slots| && s.slots[i].claim != CLAIM_FREE
    ensures |Next(s, a).slots| == |s.slots|
    ensures Next(s, a).slots[i].claim == s.slots[i].claim
            || a == Release(s.slots[i].claim) || (a == Handle(Record(i, s.slots[i].claim)) && a.record in s.records)
  {
  }

  lemma {:induction false} RemovalInRun(s: State, run: seq<Action>, s': State, i: nat) returns (j: nat, m: State)
    requires Leads(s, run, s') && i < |s.slots| && i < |s'.slots| && s.slots[i].claim != CLAIM_FREE
    requires s'.slots[i].claim != s.slots[i].claim
    ensures j < |run| && Leads(s, run[..j], m)
    ensures run[j] == Release(s.slots[i].claim)
            || (run[j] == Handle(Record(i, s.slots[i].claim)) && Record(i, s.slots[i].claim) in m.records)
    decreases |run|
  {
    RemovedBy(s, run[0], i);
    var n := Next(s, run[0]);
    hide Next, Enabled;
    if n.slots[i].claim != s.slots[i].claim {
      j, m := 0, s;
    } else {
      j, m := RemovalInRun(n, run[1..], s', i);
      assert run[..j + 1][1..] == run[1..][..j];
      j := j + 1;
    }
  }

  /** Over every run: if slot `i` held token `t` and no longer does, then its own attempt released it, or a handler
      retired it whose record goes back to the server's own reading of `t` off that slot. */
  lemma ReleasedOnlyRightly(s0: State, before: seq<Action>, s: State, after: seq<Action>, s': State, i: nat)
    requires Init(s0) && Leads(s0, before, s) && Leads(s, after, s') && i < |s.slots| && i < |s'.slots|
    requires s.slots[i].claim != CLAIM_FREE && s'.slots[i].claim != s.slots[i].claim
    ensures var t := s.slots[i].claim;
      || Release(t) in after
      || (Handle(Record(i, t)) in after && exists k: nat :: SawClaim(s0, before + after, k, i, t))
  {
    hide Next, Enabled, SawClaim;
    var t := s.slots[i].claim;
    var j, m := RemovalInRun(s, after, s', i);
    if after[j] != Release(t) {
      var upTo := before + after[..j];
      assert upTo <= before + after;
      LeadsConcat(s0, before, s, after[..j], m);
      RecordsWereSeen(s0, upTo, m, i, t);
      var k: nat :| SawClaim(s0, upTo, k, i, t);
      SawInLonger(s0, upTo, before + after, k, i, t);
    }
  }

  /** Over every run: a slot is disconnected only by a handler whose recorded value is the claim's present value, and that
      record goes back to the server's own reading of that value off that slot. So a handler whose value no longer matches
      changes neither claim nor `connected`. */
  lemma DisconnectedOnlyRightly(s0: State, run: seq<Action>, s: State, a: Action, i: nat)
    requires Init(s0) && Leads(s0, run, s) && Enabled(s, a) && i < |s.slots| && i < |Next(s, a).slots|
    requires s.slots[i].connected && !Next(s, a).slots[i].connected
    ensures var t := s.slots[i].claim; a == Handle(Record(i, t)) && exists k: nat :: SawClaim(s0, run, k, i, t)
  {
    RecordsWereSeen(s0, run, s, i, s.slots[i].claim);
  }

  /** Trying a slot wins it if and only if its claim is free. Otherwise nothing changes, and the attempt goes on to win any
      other slot that is free. */
  lemma TryWinsIffFree(s0: State, run: seq<Action>, s: State, t: u32, i: nat, j: nat)
    requires Init(s0) && Leads(s0, run, s) && Enabled(s, TryClaim(t, i)) && j < |s.slots|
    ensures var z := Next(s, TryClaim(t, i));
      && (Owns(z, t) <==> s.slots[i].claim == CLAIM_FREE)
      && (Owns(z, t) ==> z.attempts[t].slot == i && z.slots[i].claim == t && z.slots[i].connected == s.slots[i].connected)
      && (!Owns(z, t) ==> z == s && Enabled(z, TryClaim(t, j)))
      && (!Owns(z, t) && z.slots[j].claim == CLAIM_FREE ==> Owns(Next(z, TryClaim(t, j)), t))
  {
    Reached(s0, run, s);
  }

  /** An attempt of a live process that won a slot keeps it until it releases it, unless it was condemned itself; so no
      two of them that were not share a slot. */
  lemma LiveOwnersKeepTheirSlots(s0: State, run: seq<Action>, s: State)
    requires Init(s0) && Leads(s0, run, s)
    ensures forall t :: Owns(s, t) && Alive(s, t) && t !in s.condemned ==>
      s.attempts[t].slot < |s.slots| && s.slots[s.attempts[t].slot].claim == t
    ensures forall t, u :: Owns(s, t) && Alive(s, t) && Owns(s, u) && Alive(s, u) && t != u
                           && t !in s.condemned && u !in s.condemned ==>
      s.attempts[t].slot != s.attempts[u].slot
  {
    Reached(s0, run, s);
  }

  /** A step condemns a token if and only if it checks the owner word of the token's slot, the token's attempt is alive and
      has not given up, and the word names a dead process. The word is then not the owner's: the owner has not published
      yet, or an attempt condemned before it stored its own id late. */
  lemma CondemnedByForeignWord(s0: State, run: seq<Action>, s: State, a: Action, t: u32)
    requires Init(s0) && Leads(s0, run, s) && Enabled(s, a) && t !in s.condemned
    ensures t in Next(s, a).condemned <==>
      a == CheckOwner && s.probe.claim == t && Alive(s, t) && Owns(s, t) && s.slots[s.probe.slot].pid in s.dead
    ensures t in Next(s, a).condemned ==>
      && s.attempts[t].slot == s.probe.slot < |s.slots|
      && var slot := s.slots[s.probe.slot];
         slot.claim == t && slot.author != t && (s.attempts[t].Claimed? || slot.author in s.condemned)
  {
    Reached(s0, run, s);
  }

  /** A condemned owner can lose its slot in the very next step, while it is alive. */
  lemma CondemnedCanBeRobbed(s0: State, run: seq<Action>, s: State, t: u32)
    requires Init(s0) && Leads(s0, run, s) && Enabled(s, CheckOwner)
    requires t !in s.condemned && t in Next(s, CheckOwner).condemned
    ensures var i := s.attempts[t].slot; var z := Next(s, CheckOwner);
      && Enabled(z, Handle(Record(i, t)))
      && var y := Next(z, Handle(Record(i, t)));
         Owns(y, t) && Alive(y, t) && y.slots[i].claim == CLAIM_FREE
  {
    Reached(s0, run, s);
  }

  // ---- When a slot can be retired ----

  /** Steps of the server's detection and handling alone. */
  predicate Detecting(run: seq<Action>) {
    forall k :: 0 <= k < |run| ==> run[k].LoadClaim? || run[k].CheckOwner? || run[k].Handle?
  }

  /** Value `t` stands as the claim of slot `i`. */
  predicate Stands(s: State, t: u32, i: nat) {
    i < |s.slots| && s.slots[i].claim == t
  }

  /** What the server needs to retire the slot: it counts as connected, and its claim is free, its owner word names a dead
      process, or the claim is recorded already. */
  predicate AtRisk(s: State, i: nat)
    requires i < |s.slots|
  {
    var slot := s.slots[i];
    slot.connected && (slot.claim == CLAIM_FREE || slot.pid in s.dead || Record(i, slot.claim) in s.records)
  }

  predicate Vacated(s: State, i: nat) {
    i < |s.slots| && s.slots[i].claim == CLAIM_FREE && !s.slots[i].connected
  }

  /** The server's own steps can free the claim and disconnect the slot. */
  ghost predicate CanBeRetired(s: State, i: nat) {
    exists run, s' :: Leads(s, run, s') && Detecting(run) && Vacated(s', i)
  }

  lemma SafeKept(s: State, a: Action, t: u32, i: nat)
    requires Inv(s) && Stands(s, t, i) && !AtRisk(s, i)
    requires Enabled(s, a) && (a.LoadClaim? || a.CheckOwner? || a.Handle?)
    ensures Stands(Next(s, a), t, i) && !AtRisk(Next(s, a), i)
    ensures Next(s, a).slots[i].connected == s.slots[i].connected
  {
  }

  lemma {:induction false} SafeThroughout(s: State, run: seq<Action>, s': State, t: u32, i: nat)
    requires Inv(s) && Stands(s, t, i) && !AtRisk(s, i)
    requires Leads(s, run, s') && Detecting(run)
    ensures Stands(s', t, i) && s'.slots[i].connected == s.slots[i].connected
    decreases |run|
  {
    if run == [] {
    } else {
      assert run[0].LoadClaim? || run[0].CheckOwner? || run[0].Handle?;
      SafeKept(s, run[0], t, i);
      InvKept(s, run[0]);
      hide Inv, AtRisk, Next, Enabled;
      assert forall k :: 0 <= k < |run[1..]| ==> run[1..][k] == run[k + 1];
      SafeThroughout(Next(s, run[0]), run[1..], s', t, i);
    }
  }

  /** The slot goes, and the attempts and processes are as they were. */
  ghost predicate Clears(s: State, i: nat, run: seq<Action>, s': State) {
    Leads(s, run, s') && Detecting(run) && Vacated(s', i) && s'.attempts == s.attempts && s'.dead == s.dead
  }

  /** A record that is due takes the slot at once. */
  lemma Retirement(s: State, i: nat) returns (run: seq<Action>, s': State)
    requires i < |s.slots| && s.slots[i].connected && Record(i, s.slots[i].claim) in s.records
    ensures Clears(s, i, run, s')
  {
    var r := Record(i, s.slots[i].claim);
    s' := Next(s, Handle(r));
    run := Front(s, Handle(r), [], s');
  }

  lemma Before(s: State, a: Action, i: nat, more: seq<Action>, s': State) returns (run: seq<Action>)
    requires Enabled(s, a) && (a.LoadClaim? || a.CheckOwner?) && Clears(Next(s, a), i, more, s')
    requires Next(s, a).attempts == s.attempts && Next(s, a).dead == s.dead
    ensures Clears(s, i, run, s')
  {
    run := Front(s, a, more, s');
  }

  /** With no probe under way: read the claim, and if it is not free, check the owner; then retire. */
  lemma Detection(s: State, i: nat) returns (run: seq<Action>, s': State)
    requires i < |s.slots| && s.slots[i].connected && s.probe == NoProbe
    requires s.slots[i].claim == CLAIM_FREE || s.slots[i].pid in s.dead
    ensures Clears(s, i, run, s')
  {
    var a := Next(s, LoadClaim(i));
    if s.slots[i].claim == CLAIM_FREE {
      run, s' := Retirement(a, i);
    } else {
      var b := Next(a, CheckOwner);
      run, s' := Retirement(b, i);
      run := Before(a, CheckOwner, i, run, s');
    }
    run := Before(s, LoadClaim(i), i, run, s');
  }

  lemma OwnerCheckEnds(s: State)
    requires Inv(s) && s.probe.Loaded?
    ensures Enabled(s, CheckOwner)
    ensures var z := Next(s, CheckOwner);
      z.probe == NoProbe && z.slots == s.slots && z.dead == s.dead && z.attempts == s.attempts
  {
  }

  lemma RetireAtRisk(s: State, i: nat) returns (run: seq<Action>, s': State)
    requires Inv(s) && i < |s.slots| && AtRisk(s, i)
    ensures Clears(s, i, run, s')
  {
    if Record(i, s.slots[i].claim) in s.records {
      run, s' := Retirement(s, i);
    } else if s.probe.Loaded? {
      OwnerCheckEnds(s);
      hide Inv, Next, Enabled;
      run, s' := Detection(Next(s, CheckOwner), i);
      run := Before(s, CheckOwner, i, run, s');
    } else {
      run, s' := Detection(s, i);
    }
  }

  /** The exact condition, for every connected slot, whether its claim is free or stands and whether the owner lives or not:
      detection and handling alone can free the claim and disconnect the slot if and only if the claim is free, the owner
      word names a dead process, or the claim is recorded already. */
  lemma RetiredIffAtRisk(s0: State, run: seq<Action>, s: State, i: nat)
    requires Init(s0) && Leads(s0, run, s) && i < |s.slots| && s.slots[i].connected
    ensures CanBeRetired(s, i) <==> AtRisk(s, i)
  {
    Reached(s0, run, s);
    if AtRisk(s, i) {
      var more, s' := RetireAtRisk(s, i);
    } else {
      forall more, s' | Leads(s, more, s') && Detecting(more) ensures !Vacated(s', i) {
        SafeThroughout(s, more, s', s.slots[i].claim, i);
      }
    }
  }

  /** So the slot of a crashed client whose id stands in the owner word does not stay lost. */
  lemma DeadOwnersAreRetired(s0: State, run: seq<Action>, s: State, t: u32)
    requires Init(s0) && Leads(s0, run, s) && t in s.attempts && s.attempts[t].Holding? && s.attempts[t].pid in s.dead
    requires Stands(s, t, s.attempts[t].slot) && s.slots[s.attempts[t].slot].connected
    requires s.slots[s.attempts[t].slot].author == t
    ensures CanBeRetired(s, s.attempts[t].slot)
  {
    Reached(s0, run, s);
    RetiredIffAtRisk(s0, run, s, s.attempts[t].slot);
  }

  // ---- When a live owner can be robbed ----

  /** Token `t` is on slot `i`, its attempt alive. */
  predicate Has(s: State, t: u32, i: nat) {
    Owns(s, t) && Alive(s, t) && s.attempts[t].slot == i && Stands(s, t, i)
  }

  /** The attempt is alive and has not given the slot up, but its claim is gone. */
  predicate Robbed(s: State, t: u32, i: nat) {
    Owns(s, t) && Alive(s, t) && i < |s.slots| && s.slots[i].claim != t
  }

  /** The server's own steps can take the slot from its live owner. */
  ghost predicate CanBeRobbed(s: State, t: u32, i: nat) {
    exists run, s' :: Leads(s, run, s') && Detecting(run) && Robbed(s', t, i)
  }

  /** The exact condition, for every live owner whose claim stands and whatever happened to others: the server's steps can
      take the slot from it if and only if the slot counts as connected and its owner word names a dead process or its
      claim is recorded already. An owner that was never condemned is in no record. */
  lemma RobbedIffAtRisk(s0: State, run: seq<Action>, s: State, t: u32, i: nat)
    requires Init(s0) && Leads(s0, run, s) && Has(s, t, i)
    ensures t != CLAIM_FREE
    ensures CanBeRobbed(s, t, i) <==> AtRisk(s, i)
    ensures t !in s.condemned ==> Record(i, t) !in s.records
  {
    Reached(s0, run, s);
    assert t != CLAIM_FREE;
    assert t !in s.condemned ==> Record(i, t) !in s.records;
    if AtRisk(s, i) {
      var more, s' := RetireAtRisk(s, i);
      assert Robbed(s', t, i);
    } else {
      forall more, s' | Leads(s, more, s') && Detecting(more) ensures Stands(s', t, i) {
        SafeThroughout(s, more, s', t, i);
      }
    }
  }

  /** Two attempts of live processes hold the same slot. */
  ghost predicate SharedSlot(s: State) {
    exists t, u :: t != u && Owns(s, t) && Owns(s, u) && Alive(s, t) && Alive(s, u)
                   && s.attempts[t].slot == s.attempts[u].slot
  }

  lemma Front(s: State, a: Action, run: seq<Action>, s': State) returns (more: seq<Action>)
    requires Enabled(s, a) && Leads(Next(s, a), run, s')
    ensures more == [a] + run && Leads(s, more, s')
  {
    more := [a] + run;
    assert more[1..] == run;
  }

  function Fresh(): State {
    State([Slot(CLAIM_FREE, 0, CLAIM_FREE, false)], map[], {}, NoProbe, {}, {})
  }

  /** Slot 0 was used by process 10, released while the server still counts it connected, and process 10 died. */
  function Abandoned(): State {
    State([Slot(CLAIM_FREE, 10, 1, true)], map[1 := Done(10)], {10}, NoProbe, {}, {})
  }

  lemma SlotIsAbandoned() returns (run: seq<Action>)
    ensures Leads(Fresh(), run, Abandoned())
  {
    var a0 := Next(Fresh(), Begin(1, 10));
    var a1 := Next(a0, TryClaim(1, 0));
    var a2 := Next(a1, Publish(1));
    var a3 := Next(a2, Connect(0));
    var a4 := Next(a3, Release(1));
    var a5 := Next(a4, Crash(10));
    assert a5.attempts == map[1 := Done(10)];
    assert a5 == Abandoned();
    hide Enabled, Next;
    run := Front(a4, Crash(10), [], a5);
    run := Front(a3, Release(1), run, a5);
    run := Front(a2, Connect(0), run, a5);
    run := Front(a1, Publish(1), run, a5);
    run := Front(a0, TryClaim(1, 0), run, a5);
    run := Front(Fresh(), Begin(1, 10), run, a5);
  }

  /** Client 2 has claimed the slot and lost it on the strength of process 10's id. */
  function Retired(): State {
    State([Slot(CLAIM_FREE, 10, 1, false)], map[1 := Done(10), 2 := Claimed(20, 0)], {10}, NoProbe, {}, {2})
  }

  lemma SlotIsRetired() returns (run: seq<Action>)
    ensures Leads(Abandoned(), run, Retired())
  {
    var a6 := Next(Abandoned(), Begin(2, 20));
    var a7 := Next(a6, TryClaim(2, 0));
    var a8 := Next(a7, LoadClaim(0));
    var a9 := Next(a8, CheckOwner);
    var b0 := Next(a9, Handle(Record(0, 2)));
    assert b0.records == {};
    assert b0 == Retired();
    hide Enabled, Next;
    run := Front(a9, Handle(Record(0, 2)), [], b0);
    run := Front(a8, CheckOwner, run, b0);
    run := Front(a7, LoadClaim(0), run, b0);
    run := Front(a6, TryClaim(2, 0), run, b0);
    run := Front(Abandoned(), Begin(2, 20), run, b0);
  }

  /** Client 3 has taken the slot; client 2 still believes in its own claim. */
  function Shared(): State {
    State([Slot(3, 10, 1, false)], map[1 := Done(10), 2 := Claimed(20, 0), 3 := Claimed(30, 0)],
          {10}, NoProbe, {}, {2})
  }

  lemma SlotIsShared() returns (run: seq<Action>)
    ensures Leads(Retired(), run, Shared()) && SharedSlot(Shared())
  {
    var b1 := Next(Retired(), Begin(3, 30));
    var b2 := Next(b1, TryClaim(3, 0));
    assert b2 == Shared();
    assert Owns(b2, 2) && Owns(b2, 3) && Alive(b2, 2) && Alive(b2, 3);
    hide Enabled, Next, SharedSlot;
    run := Front(b1, TryClaim(3, 0), [], b2);
    run := Front(Retired(), Begin(3, 30), run, b2);
  }

  /** Client 3 publishes, client 2 stores its id over it and dies, and the server retires client 3. */
  lemma PublishedIsRetired() returns (run: seq<Action>, s: State)
    ensures Leads(Shared(), run, s) && PublishedWithoutSlot(s)
  {
    var c1 := Next(Shared(), Publish(3));
    var c2 := Next(c1, Publish(2));
    var c3 := Next(c2, Connect(0));
    var c4 := Next(c3, Crash(20));
    var more;
    assert c4.slots == [Slot(3, 20, 2, true)] && 20 in c4.dead && c4.attempts[3] == Holding(30, 0) && 30 !in c4.dead;
    more, s := RetiredFrom(c4);
    hide Enabled, Next, PublishedWithoutSlot;
    run := Front(c3, Crash(20), more, s);
    run := Front(c2, Connect(0), run, s);
    run := Front(c1, Publish(2), run, s);
    run := Front(Shared(), Publish(3), run, s);
  }

  lemma RetiredFrom(c: State) returns (run: seq<Action>, s: State)
    requires c.slots == [Slot(3, 20, 2, true)] && 20 in c.dead && c.probe == NoProbe
    requires 3 in c.attempts && c.attempts[3] == Holding(30, 0) && 30 !in c.dead
    ensures Leads(c, run, s) && PublishedWithoutSlot(s)
  {
    var c5 := Next(c, LoadClaim(0));
    var c6 := Next(c5, CheckOwner);
    s := Next(c6, Handle(Record(0, 3)));
    assert Alive(s, 3) && s.attempts[3].Holding? && s.slots[0].claim == CLAIM_FREE;
    hide Enabled, Next, PublishedWithoutSlot;
    run := Front(c6, Handle(Record(0, 3)), [], s);
    run := Front(c5, CheckOwner, run, s);
    run := Front(c, LoadClaim(0), run, s);
  }

  /** A live attempt that has published its id no longer has its claim in the slot. */
  ghost predicate PublishedWithoutSlot(s: State) {
    exists t :: Alive(s, t) && s.attempts[t].Holding? && s.attempts[t].slot < |s.slots|
                && s.slots[s.attempts[t].slot].claim != t
  }

  lemma {:induction false} LeadsConcat(s: State, r1: seq<Action>, m: State, r2: seq<Action>, s': State)
    requires Leads(s, r1, m) && Leads(m, r2, s')
    ensures Leads(s, r1 + r2, s')
    decreases |r1|
  {
    if r1 == [] {
      assert r1 + r2 == r2;
    } else {
      LeadsConcat(Next(s, r1[0]), r1[1..], m, r2, s');
      assert (r1 + r2)[1..] == r1[1..] + r2;
    }
  }

  /** The window is real: after some run two attempts of live processes hold the same slot. */
  lemma UnpublishedOwnerCanLoseItsSlot()
    ensures exists run, s :: Init(Fresh()) && Leads(Fresh(), run, s) && SharedSlot(s)
  {
    var run := ReachShared();
  }

  lemma ReachShared() returns (run: seq<Action>)
    ensures Leads(Fresh(), run, Shared()) && SharedSlot(Shared())
  {
    var r1 := SlotIsAbandoned();
    var r2 := SlotIsRetired();
    var r3 := SlotIsShared();
    LeadsConcat(Fresh(), r1, Abandoned(), r2, Retired());
    LeadsConcat(Fresh(), r1 + r2, Retired(), r3, Shared());
    run := r1 + r2 + r3;
  }

  /** And it spreads: an owner that published in time can lose its slot later, to the id of one that published late. */
  lemma PublishedOwnerCanLoseItsSlot()
    ensures exists run, s :: Init(Fresh()) && Leads(Fresh(), run, s) && PublishedWithoutSlot(s)
  {
    var r1 := ReachShared();
    var r2, s := PublishedIsRetired();
    LeadsConcat(Fresh(), r1, Shared(), r2, s);
  }
}
