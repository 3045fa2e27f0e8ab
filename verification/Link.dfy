/** One direction of an auto-mode connection as values: what was accepted, staged, put into the ring and delivered. */
module Link {
  import opened Common
  import opened Frames
  import opened Ring

  type Message = seq<byte>

  predicate LegalSize(m: Message) {
    LegalLength(|m|)
  }

  /** `a[i]` is found in `b` at place `at[i]`, and the places increase. */
  ghost predicate Embeds(a: seq<Message>, b: seq<Message>, at: seq<nat>) {
    && |at| == |a|
    && (forall i :: 0 <= i < |at| ==> at[i] < |b| && b[at[i]] == a[i])
    && (forall i, j :: 0 <= i < j < |at| ==> at[i] < at[j])
  }

  ghost predicate Subsequence(a: seq<Message>, b: seq<Message>) {
    exists at: seq<nat> :: Embeds(a, b, at)
  }

  lemma SubsequenceGrows(a: seq<Message>, b: seq<Message>, m: Message)
    requires Subsequence(a, b)
    ensures Subsequence(a + [m], b + [m])
  {
    var at: seq<nat> :| Embeds(a, b, at);
    assert Embeds(a + [m], b + [m], at + [|b|]);
  }

  lemma SubsequenceLoses(a: seq<Message>, i: nat, j: nat, b: seq<Message>)
    requires Subsequence(a, b) && i <= j <= |a|
    ensures Subsequence(a[..i] + a[j..], b)
  {
    var at: seq<nat> :| Embeds(a, b, at);
    assert Embeds(a[..i] + a[j..], b, at[..i] + at[j..]);
  }

  lemma {:induction false} PlacesAhead(at: seq<nat>, i: nat)
    requires forall k, l :: 0 <= k < l < |at| ==> at[k] < at[l]
    requires i < |at|
    ensures at[i] >= i
  {
    if i == 0 {
    } else {
      PlacesAhead(at, i - 1);
    }
  }

  lemma {:induction false} PlacesBehind(at: seq<nat>, i: nat, n: nat)
    requires forall k, l :: 0 <= k < l < |at| ==> at[k] < at[l]
    requires i < |at| && forall k :: 0 <= k < |at| ==> at[k] < n
    ensures at[i] <= n - (|at| - i)
    decreases |at| - i
  {
    if i + 1 == |at| {
    } else {
      PlacesBehind(at, i + 1, n);
    }
  }

  /** A subsequence of full length is the whole. */
  lemma FullSubsequence(a: seq<Message>, b: seq<Message>)
    requires Subsequence(a, b) && |a| == |b|
    ensures a == b
  {
    var at: seq<nat> :| Embeds(a, b, at);
    forall i | 0 <= i < |a| ensures a[i] == b[i] {
      PlacesAhead(at, i);
      PlacesBehind(at, i, |b|);
    }
  }

  /**
    accepted: every Send command drained; staged: the send queue; dropped: messages the send queue displaced;
    ring: messages in the ring; delivered: messages handed to the peer's callback; and the three statistics.
  */
  datatype Link = Link(
    accepted: seq<Message>, staged: seq<Message>, dropped: nat,
    ring: seq<Payload>, delivered: seq<Message>,
    sent: nat, overflows: nat, received: nat)

  const EMPTY: Link := Link([], [], 0, [], [], 0, 0, 0)

  /** One Send command: displace the oldest staged message when the queue is full, then append. */
  function Accept(l: Link, m: Message, maxSendQueue: nat): Link {
    var full := |l.staged| >= maxSendQueue && l.staged != [];
    l.(accepted := l.accepted + [m],
       staged := (if full then l.staged[1..] else l.staged) + [m],
       dropped := l.dropped + if full then 1 else 0)
  }

  /** One write of the oldest staged message. */
  function SendOne(l: Link): Link
    requires l.staged != [] && LegalSize(l.staged[0])
  {
    var m: Payload := l.staged[0];
    var k := Evicted(l.ring, m);
    l.(staged := l.staged[1..], ring := l.ring[k..] + [m], sent := l.sent + 1, overflows := l.overflows + k)
  }

  function ReceiveOne(l: Link): Link
    requires l.ring != []
  {
    l.(ring := l.ring[1..], delivered := l.delivered + [l.ring[0]], received := l.received + 1)
  }

  /** Order and conservation. */
  ghost predicate Conserved(l: Link, maxSendQueue: nat) {
    && Holdable(l.ring)
    && Subsequence(l.delivered + l.ring + l.staged, l.accepted)
    && |l.accepted| == l.dropped + |l.staged| + l.sent
    && l.sent == l.overflows + |l.ring| + l.received
    && |l.delivered| == l.received
    && |l.staged| <= AtLeastOne(maxSendQueue)
  }

  lemma AcceptConserves(l: Link, m: Message, maxSendQueue: nat)
    requires Conserved(l, maxSendQueue)
    ensures Conserved(Accept(l, m, maxSendQueue), maxSendQueue)
  {
    var l' := Accept(l, m, maxSendQueue);
    var head := l.delivered + l.ring;
    var was := head + l.staged;
    if |l.staged| >= maxSendQueue && l.staged != [] {
      SubsequenceLoses(was, |head|, |head| + 1, l.accepted);
      var kept := was[..|head|] + was[|head| + 1..];
      SubsequenceGrows(kept, l.accepted, m);
      assert l'.delivered + l'.ring + l'.staged == kept + [m];
    } else {
      SubsequenceGrows(was, l.accepted, m);
      assert l'.delivered + l'.ring + l'.staged == was + [m];
    }
  }

  lemma RingAfterSend(q: seq<Payload>, m: Payload)
    requires Holdable(q)
    ensures Holdable(q[Evicted(q, m)..] + [m])
  {
    EvictedIsLeast(q, m);
    StreamSnoc(q[Evicted(q, m)..], m);
  }

  lemma SendConserves(l: Link, maxSendQueue: nat)
    requires Conserved(l, maxSendQueue) && l.staged != [] && LegalSize(l.staged[0])
    ensures Conserved(SendOne(l), maxSendQueue)
  {
    var l' := SendOne(l);
    var m: Payload := l.staged[0];
    var k := Evicted(l.ring, m);
    RingAfterSend(l.ring, m);
    hide Holdable, Evicted, Subsequence;
    var was := l.delivered + l.ring + l.staged;
    var d := |l.delivered|;
    SubsequenceLoses(was, d, d + k, l.accepted);
    assert l'.delivered + l'.ring + l'.staged == was[..d] + was[d + k..];
  }

  lemma MoveOne(a: seq<Message>, b: seq<Message>, c: seq<Message>)
    requires b != []
    ensures (a + [b[0]]) + b[1..] + c == a + b + c
  {
    assert [b[0]] + b[1..] == b;
  }

  lemma RingAfterReceive(q: seq<Payload>)
    requires Holdable(q) && q != []
    ensures Holdable(q[1..])
  {
    assert Stream(q) == Frame(q[0]) + Stream(q[1..]);
  }

  lemma ReceiveConserves(l: Link, maxSendQueue: nat)
    requires Conserved(l, maxSendQueue) && l.ring != []
    ensures Conserved(ReceiveOne(l), maxSendQueue)
  {
    var l' := ReceiveOne(l);
    RingAfterReceive(l.ring);
    var a, b, c: seq<Message> := l.delivered, l.ring, l.staged;
    MoveOne(a, b, c);
    hide Holdable, Subsequence;
    assert l'.delivered + l'.ring + l'.staged == (a + [b[0]]) + b[1..] + c;
  }

  /** What a conserving link means for the receiver: messages arrive in the order they were accepted, and when neither
      queue has displaced anything, none is missing. */
  lemma DeliveredInOrder(l: Link, maxSendQueue: nat)
    requires Conserved(l, maxSendQueue)
    ensures Subsequence(l.delivered, l.accepted)
    ensures l.dropped == 0 && l.overflows == 0 ==> l.delivered + l.ring + l.staged == l.accepted
  {
    var all := l.delivered + l.ring + l.staged;
    SubsequenceLoses(all, |l.delivered|, |all|, l.accepted);
    assert l.delivered == all[..|l.delivered|] + all[|all|..];
    if l.dropped == 0 && l.overflows == 0 {
      FullSubsequence(all, l.accepted);
    }
  }

  // ---- Whole runs ----

  datatype Event = Accepted(m: Message) | Sent | Received

  predicate Happens(l: Link, e: Event) {
    match e
    case Accepted(_) => true
    case Sent => l.staged != [] && LegalSize(l.staged[0])
    case Received => l.ring != []
  }

  function Step(l: Link, e: Event, maxSendQueue: nat): Link
    requires Happens(l, e)
  {
    match e
    case Accepted(m) => Accept(l, m, maxSendQueue)
    case Sent => SendOne(l)
    case Received => ReceiveOne(l)
  }

  /** `events` lead from `l` to `l'`. */
  ghost predicate Leads(l: Link, events: seq<Event>, maxSendQueue: nat, l': Link)
    decreases |events|
  {
    if events == [] then l' == l
    else Happens(l, events[0]) && Leads(Step(l, events[0], maxSendQueue), events[1..], maxSendQueue, l')
  }

  /** From a fresh connection, after any interleaving of accepting, sending and receiving. */
  lemma {:induction false} EndToEnd(l: Link, events: seq<Event>, maxSendQueue: nat, l': Link)
    requires Conserved(l, maxSendQueue) && Leads(l, events, maxSendQueue, l')
    ensures Conserved(l', maxSendQueue)
    decreases |events|
  {
    if events == [] {
    } else {
      match events[0] {
        case Accepted(m) => AcceptConserves(l, m, maxSendQueue);
        case Sent => SendConserves(l, maxSendQueue);
        case Received => ReceiveConserves(l, maxSendQueue);
      }
      EndToEnd(Step(l, events[0], maxSendQueue), events[1..], maxSendQueue, l');
    }
  }

  lemma FreshIsConserved(maxSendQueue: nat)
    ensures Conserved(EMPTY, maxSendQueue)
  {
    assert Embeds([], [], []);
    var none: seq<Message> := [];
    assert EMPTY.delivered + EMPTY.ring + EMPTY.staged == none;
  }
}
