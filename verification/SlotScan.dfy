/** Clients scanning the slots of a multi-client server concurrently, each claiming the first free one by a
    compare-exchange; no claim is given back. */
module SlotScan {
  import opened Common

  const MAX_MULTI_CLIENTS: nat := 31

  datatype Client =
    | Scanning(slot: nat, sawSlot: bool)   // about to try `slot`
    | Claimed(slot: nat)
    | Failed(error: ShmError)

  /** `tokens[c]` is client c's token; `winners` records, slot by slot, who took it (history). */
  datatype State = State(claims: seq<u32>, clients: seq<Client>, tokens: seq<u32>, winners: seq<nat>)

  /** Slots all free, every client at the start of its scan, tokens nonzero and distinct. */
  ghost predicate Init(s: State, slots: nat, clients: nat) {
    && slots <= MAX_MULTI_CLIENTS
    && s.claims == seq(slots, i => CLAIM_FREE)
    && s.clients == seq(clients, i => Scanning(0, false))
    && |s.tokens| == clients
    && (forall c :: 0 <= c < clients ==> s.tokens[c] != CLAIM_FREE)
    && (forall c, d :: 0 <= c < d < clients ==> s.tokens[c] != s.tokens[d])
    && s.winners == []
  }

  predicate Enabled(s: State, c: nat) {
    c < |s.clients| && c < |s.tokens| && s.clients[c].Scanning?
  }

  /** One try_claim_slot of client `c`, or the end of its scan. */
  function Try(s: State, c: nat): State
    requires Enabled(s, c)
  {
    var Scanning(i, saw) := s.clients[c];
    if i >= MAX_MULTI_CLIENTS || i >= |s.claims| then   // loop over, or the segment does not open
      s.(clients := s.clients[c := Failed(if saw then NoFreeSlot else NotConnected)])
    else if s.claims[i] == CLAIM_FREE then
      s.(claims := s.claims[i := s.tokens[c]], clients := s.clients[c := Claimed(i)], winners := s.winners + [c])
    else
      s.(clients := s.clients[c := Scanning(i + 1, true)])
  }

  /** `run` names the clients in the order they step. */
  ghost predicate Leads(s: State, run: seq<nat>, s': State)
    decreases |run|
  {
    if run == [] then s' == s
    else Enabled(s, run[0]) && Leads(Try(s, run[0]), run[1..], s')
  }

  ghost predicate Inv(s: State) {
    var m := |s.winners|;
    && |s.tokens| == |s.clients|
    && (forall c :: 0 <= c < |s.tokens| ==> s.tokens[c] != CLAIM_FREE)
    && (forall c, d :: 0 <= c < d < |s.tokens| ==> s.tokens[c] != s.tokens[d])
    && m <= |s.claims| <= MAX_MULTI_CLIENTS
    && (forall j :: 0 <= j < m ==> s.winners[j] < |s.clients| && s.clients[s.winners[j]] == Claimed(j))
    && (forall j :: 0 <= j < m ==> s.claims[j] == s.tokens[s.winners[j]])
    && (forall j :: m <= j < |s.claims| ==> s.claims[j] == CLAIM_FREE)
    && (forall c :: 0 <= c < |s.clients| ==> ClientInv(s, c))
  }

  ghost predicate ClientInv(s: State, c: nat)
    requires c < |s.clients|
  {
    match s.clients[c]
    case Scanning(i, saw) => i <= |s.winners| && (saw <==> i > 0)
    case Claimed(j) => j < |s.winners| && s.winners[j] == c
    case Failed(e) => |s.winners| == |s.claims| && (e == if s.claims == [] then NotConnected else NoFreeSlot)
  }

  /** Exactly the slots below `m` are claimed. */
  ghost predicate Prefix(claims: seq<u32>, m: nat) {
    m <= |claims| && forall j :: 0 <= j < |claims| ==> (claims[j] != CLAIM_FREE <==> j < m)
  }

  lemma InvPrefix(s: State)
    requires Inv(s)
    ensures Prefix(s.claims, |s.winners|)
  {
    forall j | 0 <= j < |s.claims| ensures s.claims[j] != CLAIM_FREE <==> j < |s.winners| {
      if j < |s.winners| {
        assert s.claims[j] == s.tokens[s.winners[j]];
      }
    }
  }

  lemma FailKeeps(s: State, c: nat)
    requires Inv(s) && Enabled(s, c) && Try(s, c).clients[c].Failed?
    ensures Inv(Try(s, c))
  {
    var s' := Try(s, c);
    assert ClientInv(s, c);
    InvPrefix(s);
    forall d | 0 <= d < |s'.clients| ensures ClientInv(s', d) {
      assert ClientInv(s, d);
    }
  }

  lemma ClaimKeeps(s: State, c: nat)
    requires Inv(s) && Enabled(s, c) && Try(s, c).clients[c].Claimed?
    ensures Inv(Try(s, c))
  {
    var s' := Try(s, c);
    assert ClientInv(s, c);
    InvPrefix(s);
    assert s.clients[c].slot == |s.winners|;
    forall d | 0 <= d < |s'.clients| ensures ClientInv(s', d) {
      assert ClientInv(s, d);
    }
  }

  lemma MoveKeeps(s: State, c: nat)
    requires Inv(s) && Enabled(s, c) && Try(s, c).clients[c].Scanning?
    ensures Inv(Try(s, c))
  {
    var s' := Try(s, c);
    assert ClientInv(s, c);
    InvPrefix(s);
    forall d | 0 <= d < |s'.clients| ensures ClientInv(s', d) {
      assert ClientInv(s, d);
    }
  }

  lemma TryKeeps(s: State, c: nat)
    requires Inv(s) && Enabled(s, c)
    ensures Inv(Try(s, c))
  {
    hide Inv;
    match Try(s, c).clients[c] {
      case Failed(_) => FailKeeps(s, c);
      case Claimed(_) => ClaimKeeps(s, c);
      case Scanning(_, _) => MoveKeeps(s, c);
    }
  }

  lemma {:induction false} RunKeeps(s: State, run: seq<nat>, s': State)
    requires Inv(s) && Leads(s, run, s')
    ensures Inv(s') && |s'.claims| == |s.claims| && |s'.clients| == |s.clients| && s'.tokens == s.tokens
    decreases |run|
  {
    if run == [] {
    } else {
      TryKeeps(s, run[0]);
      RunKeeps(Try(s, run[0]), run[1..], s');
    }
  }

  /** A sequence of distinct numbers below `n` that misses `c` is shorter than `n`. */
  lemma Pigeonhole(w: seq<nat>, c: nat, n: nat)
    requires forall i :: 0 <= i < |w| ==> w[i] < n && w[i] != c
    requires forall i, j :: 0 <= i < j < |w| ==> w[i] != w[j]
    requires c < n
    ensures |w| < n
  {
    DistinctSize(w + [c], n);
  }

  lemma {:induction false} DistinctSize(w: seq<nat>, n: nat)
    requires forall i :: 0 <= i < |w| ==> w[i] < n
    requires forall i, j :: 0 <= i < j < |w| ==> w[i] != w[j]
    ensures |w| <= n
  {
    if w == [] {
    } else {
      assert w[0] < n;
      if k :| 0 <= k < |w| && w[k] == n - 1 {
        DistinctSize(w[..k] + w[k + 1..], n - 1);
      } else {
        DistinctSize(w, n - 1);
      }
    }
  }

  /** Client `c` holds the slot it thinks it holds. */
  ghost predicate Holds(s: State, c: nat) {
    && c < |s.clients| && c < |s.tokens| && s.clients[c].Claimed?
    && s.clients[c].slot < |s.claims| && s.claims[s.clients[c].slot] == s.tokens[c]
  }

  /** At every moment of every interleaving the claimed slots are a prefix 0..m-1 and each is held by one client. */
  lemma ClaimsArePrefix(s0: State, slots: nat, clients: nat, run: seq<nat>, s: State)
    requires Init(s0, slots, clients) && Leads(s0, run, s)
    ensures exists m: nat :: Prefix(s.claims, m)
    ensures forall c :: 0 <= c < |s.clients| && s.clients[c].Claimed? ==> Holds(s, c)
    ensures forall c, d :: 0 <= c < d < |s.clients| && s.clients[c].Claimed? && s.clients[d].Claimed? ==>
      s.clients[c].slot != s.clients[d].slot
  {
    RunKeeps(s0, run, s);
    InvPrefix(s);
    forall c | 0 <= c < |s.clients| && s.clients[c].Claimed?
      ensures Holds(s, c) && s.clients[c].slot < |s.winners| && s.winners[s.clients[c].slot] == c
    {
      assert ClientInv(s, c);
    }
  }

  /** With at least as many slots as clients, no scan fails. */
  lemma EveryScanSucceeds(s0: State, slots: nat, clients: nat, run: seq<nat>, s: State, c: nat)
    requires Init(s0, slots, clients) && Leads(s0, run, s) && clients <= slots && c < |s.clients|
    ensures !s.clients[c].Failed?
  {
    RunKeeps(s0, run, s);
    assert ClientInv(s, c);
    if s.clients[c].Failed? {
      Pigeonhole(s.winners, c, clients);
    }
  }

  /** When all scans are over, k clients hold exactly the slots 0..k-1. */
  lemma FinalSlots(s0: State, slots: nat, clients: nat, run: seq<nat>, s: State)
    requires Init(s0, slots, clients) && Leads(s0, run, s) && clients <= slots
    requires forall c :: 0 <= c < |s.clients| ==> !s.clients[c].Scanning?
    ensures |s.claims| == slots && Prefix(s.claims, clients)
  {
    RunKeeps(s0, run, s);
    ghost var m := |s.winners|;
    DistinctSize(s.winners, clients);
    var slotOf := seq(clients, c requires 0 <= c < clients => if s.clients[c].Claimed? then s.clients[c].slot else 0);
    forall c | 0 <= c < clients ensures s.clients[c].Claimed? && slotOf[c] < m && s.winners[slotOf[c]] == c {
      EveryScanSucceeds(s0, slots, clients, run, s, c);
      assert ClientInv(s, c);
    }
    DistinctSize(slotOf, m);
    InvPrefix(s);
  }

  /** How often client `c` may still step. */
  function StepsLeft(s: State, c: nat): int
    requires c < |s.clients|
  {
    if s.clients[c].Scanning? then |s.claims| + 1 - s.clients[c].slot else 0
  }

  lemma StepSpends(s: State, d: nat, c: nat)
    requires Inv(s) && Enabled(s, d) && c < |s.clients|
    ensures Inv(Try(s, d)) && c < |Try(s, d).clients|
    ensures 0 <= StepsLeft(Try(s, d), c) <= StepsLeft(s, c) - (if c == d then 1 else 0)
  {
    TryKeeps(s, d);
    assert ClientInv(s, c);
    assert ClientInv(Try(s, d), c);
  }

  /** Whatever the others do, a client's scan is over after at most one step more than there are slots. */
  lemma {:induction false} ScansAreShort(s: State, run: seq<nat>, s': State, c: nat)
    requires Inv(s) && Leads(s, run, s') && c < |s.clients|
    ensures multiset(run)[c] <= StepsLeft(s, c) <= |s.claims| + 1
    decreases |run|
  {
    assert ClientInv(s, c);
    if run == [] {
    } else {
      StepSpends(s, run[0], c);
      var n := Try(s, run[0]);
      hide Inv, Try, Enabled;
      ScansAreShort(n, run[1..], s', c);
      assert run == [run[0]] + run[1..];
    }
  }

  /** One whole scan with nobody else at work: the first free slot is claimed and nothing else changes. */
  method ClaimFreeSlot(claims: array<u32>, token: u32) returns (r: Result<nat>)
    requires token != CLAIM_FREE
    modifies claims
    ensures r.Ok? ==>
      && r.value < claims.Length && r.value < 31
      && old(claims[..])[r.value] == CLAIM_FREE
      && (forall j :: 0 <= j < r.value ==> old(claims[..])[j] != CLAIM_FREE)
      && claims[..] == old(claims[..])[r.value := token]
    ensures r.Err? ==>
      && claims[..] == old(claims[..])
      && (forall j :: 0 <= j < claims.Length && j < 31 ==> claims[j] != CLAIM_FREE)
      && r.error == if claims.Length == 0 then NotConnected else NoFreeSlot
  {
    var sawSlot := false;
    for slot := 0 to MAX_MULTI_CLIENTS
      invariant claims[..] == old(claims[..])
      invariant forall j :: 0 <= j < slot ==> j < claims.Length && claims[j] != CLAIM_FREE
      invariant sawSlot <==> slot > 0
      invariant sawSlot ==> claims.Length > 0
    {
      if slot >= claims.Length {
        break;
      }
      if claims[slot] == CLAIM_FREE {
        claims[slot] := token;
        return Ok(slot);
      }
      sawSlot := true;
    }
    return Err(if sawSlot then NoFreeSlot else NotConnected);
  }
}
