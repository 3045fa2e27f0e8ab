/** The auto-mode worker passes over one direction of a connection: the sender's staging queue and batching on one end
    of the ring, the receiver's batch on the other. Calls into the ring are atomic here. */
module Auto {
  import opened Common
  import opened Ring
  import opened Link

  datatype Option<+T> = None | Some(value: T)

  datatype Command = Send(data: Message) | Shutdown

  class SendQueue {
    var queue: seq<Message>

    constructor ()
      ensures queue == []
    {
      queue := [];
    }

    method Push(data: Message)
      modifies this
      ensures queue == old(queue) + [data]
    {
      queue := queue + [data];
    }

    method Pop() returns (r: Option<Message>)
      modifies this
      ensures old(queue) == [] ==> r == None && queue == []
      ensures old(queue) != [] ==> r == Some(old(queue)[0]) && queue == old(queue)[1..]
    {
      if queue == [] {
        return None;
      }
      r := Some(queue[0]);
      queue := queue[1..];
    }

    method PushFront(data: Message)
      modifies this
      ensures queue == [data] + old(queue)
    {
      queue := [data] + queue;
    }

    function Len(): nat
      reads this
    {
      |queue|
    }
  }

  /** The data of the Send commands, in order. */
  function Sends(cmds: seq<Command>): seq<Message> {
    if cmds == [] then []
    else Sends(cmds[..|cmds| - 1]) + match cmds[|cmds| - 1] case Send(d) => [d] case Shutdown => []
  }

  lemma NoCommands()
    ensures Sends([]) == []
  {
  }

  lemma NextCommand(cmds: seq<Command>, i: nat)
    requires i < |cmds|
    ensures Sends(cmds[..i + 1]) == Sends(cmds[..i]) + match cmds[i] case Send(d) => [d] case Shutdown => []
    ensures cmds[i].Shutdown? ==> Sends(cmds[..i + 1]) == Sends(cmds[..i])
    ensures Shutdown in cmds[..i + 1] <==> Shutdown in cmds[..i] || cmds[i] == Shutdown
  {
    assert cmds[..i + 1][..i] == cmds[..i];
    assert cmds[..i + 1] == cmds[..i] + [cmds[i]];
  }

  /** From `l0`, the messages `ms` were accepted in order and only the newest of old and new stay staged: what was
      displaced is a prefix of both put together, and nothing is displaced below the queue's capacity. */
  ghost predicate Drained(l0: Link, ms: seq<Message>, l: Link, maxSendQueue: nat) {
    var all := l0.staged + ms;
    var cut := l.dropped - l0.dropped;
    && l == l0.(accepted := l0.accepted + ms, staged := l.staged, dropped := l.dropped)
    && 0 <= cut <= |all|
    && l.staged == all[cut..]
    && (cut > 0 ==> |l.staged| >= AtLeastOne(maxSendQueue))
  }

  lemma DrainedNothing(l: Link, maxSendQueue: nat)
    ensures Drained(l, [], l, maxSendQueue)
  {
    assert l.staged + [] == l.staged && l.accepted + [] == l.accepted;
  }

  lemma DrainedOne(l0: Link, ms: seq<Message>, l: Link, m: Message, maxSendQueue: nat)
    requires Drained(l0, ms, l, maxSendQueue)
    ensures Drained(l0, ms + [m], Accept(l, m, maxSendQueue), maxSendQueue)
  {
    var all, cut := l0.staged + ms, l.dropped - l0.dropped;
    assert l0.accepted + (ms + [m]) == (l0.accepted + ms) + [m];
    assert l0.staged + (ms + [m]) == all + [m];
    TailAppend(all, cut, m);
  }

  lemma TailAppend(all: seq<Message>, cut: nat, m: Message)
    requires cut <= |all|
    ensures all[cut..] + [m] == (all + [m])[cut..]
    ensures cut < |all| ==> all[cut..][1..] + [m] == (all + [m])[cut + 1..]
  {
  }

  /** How many staged messages of legal size come before the first one that is not. */
  function LegalPrefix(q: seq<Message>): (n: nat)
    ensures n <= |q|
    ensures forall i :: 0 <= i < n ==> LegalSize(q[i])
    ensures n < |q| ==> !LegalSize(q[n])
  {
    if q == [] || !LegalSize(q[0]) then 0 else 1 + LegalPrefix(q[1..])
  }

  /** The link after its `n` oldest staged messages are written, each evicting what it must. */
  function SendMany(l: Link, n: nat): (r: Link)
    requires n <= |l.staged| && forall i :: 0 <= i < n ==> LegalSize(l.staged[i])
    ensures r.staged == l.staged[n..] && r.sent == l.sent + n
    ensures r.accepted == l.accepted && r.delivered == l.delivered
  {
    if n == 0 then l else SendOne(SendMany(l, n - 1))
  }

  lemma SendNone(l: Link)
    ensures SendMany(l, 0) == l
  {
  }

  lemma SendOneMore(l: Link, n: nat)
    requires n < |l.staged| && forall i :: 0 <= i <= n ==> LegalSize(l.staged[i])
    ensures SendMany(l, n).staged != [] && SendMany(l, n).staged[0] == l.staged[n]
    ensures SendOne(SendMany(l, n)) == SendMany(l, n + 1)
  {
  }

  lemma {:induction false} LegalPrefixUnique(q: seq<Message>, n: nat)
    requires n <= |q| && (forall i :: 0 <= i < n ==> LegalSize(q[i])) && (n < |q| ==> !LegalSize(q[n]))
    ensures n == LegalPrefix(q)
  {
    if n == 0 {
    } else {
      assert LegalSize(q[0]);
      LegalPrefixUnique(q[1..], n - 1);
    }
  }

  /** Why a write fails: the connection is looked at first, then the size. */
  function WriteError(connected: bool, data: Message): ShmError {
    if !connected then NotConnected else if |data| < MIN_MESSAGE_SIZE then MessageTooSmall else MessageTooLarge
  }

  class Direction {
    const queue: SendQueue
    const ring: RingBuffer
    const maxSendQueue: nat
    var connected: bool
    var dataEvent: bool
    var spaceEvent: bool
    var sentMessages: nat
    var sendOverflows: nat
    var receivedMessages: nat
    ghost var link: Link

    /** The ring is sound, the ghost link mirrors the objects, and order and conservation hold. */
    ghost predicate Valid()
      reads this, queue, ring, ring.header, ring.storage
    {
      && ring.Valid()
      && link.staged == queue.queue && link.ring == ring.queue
      && link.sent == sentMessages && link.overflows == sendOverflows && link.received == receivedMessages
      && Conserved(link, maxSendQueue)
    }

    constructor (ring: RingBuffer, maxSendQueue: nat)
      requires ring.Valid() && ring.queue == []
      ensures Valid() && this.ring == ring && this.maxSendQueue == maxSendQueue && link == EMPTY && connected
      ensures fresh(queue)
    {
      this.queue := new SendQueue();
      this.ring, this.maxSendQueue := ring, maxSendQueue;
      connected, dataEvent, spaceEvent := true, false, false;
      sentMessages, sendOverflows, receivedMessages := 0, 0, 0;
      link := EMPTY;
      new;
      FreshIsConserved(maxSendQueue);
    }

    /** Appends one message, displacing the oldest when the queue is full. */
    method Stage(msg: Message)
      requires Valid()
      modifies this`link, queue
      ensures Valid() && link == Accept(old(link), msg, maxSendQueue)
    {
      hide Holds, Conserved;
      AcceptConserves(link, msg, maxSendQueue);
      if queue.Len() >= maxSendQueue {
        var _ := queue.Pop();
      }
      queue.Push(msg);
      link := Accept(link, msg, maxSendQueue);
    }

    /** Takes every command waiting in the channel; only a Shutdown clears the running flag. */
    method DrainCommands(cmds: seq<Command>, running: bool) returns (stillRunning: bool)
      requires Valid()
      modifies this`link, queue
      ensures Valid()
      ensures Drained(old(link), Sends(cmds), link, maxSendQueue)
      ensures stillRunning == (running && Shutdown !in cmds)
    {
      hide Holds, Conserved, Drained, Accept, Sends;
      stillRunning := running;
      ghost var l0 := link;
      DrainedNothing(link, maxSendQueue);
      NoCommands();
      var i := 0;
      while i < |cmds|
        invariant 0 <= i <= |cmds|
        invariant Valid()
        invariant Drained(l0, Sends(cmds[..i]), link, maxSendQueue)
        invariant stillRunning == (running && Shutdown !in cmds[..i])
      {
        NextCommand(cmds, i);
        match cmds[i] {
          case Send(msg) =>
            DrainedOne(l0, Sends(cmds[..i]), link, msg, maxSendQueue);
            Stage(msg);
          case Shutdown =>
            stillRunning := false;
        }
        i := i + 1;
      }
      assert cmds[..|cmds|] == cmds;
    }

    /** `send_to_client` and `send_to_server`: signal the data event only when the ring was empty. */
    method Write(data: Message) returns (r: Result<WriteOutcome>)
      requires ring.Valid()
      modifies this`dataEvent, ring, ring.header, ring.storage
      ensures ring.Valid()
      ensures r.Err? ==> ring.queue == old(ring.queue) && dataEvent == old(dataEvent)
      ensures r.Ok? <==> connected && LegalSize(data)
      ensures r.Err? ==> r == Err(WriteError(connected, data))
      ensures r.Ok? ==>
        && ring.queue == old(ring.queue)[Evicted(old(ring.queue), data)..] + [data]
        && r.value.overwritten == Evicted(old(ring.queue), data)
        && dataEvent == (old(dataEvent) || old(ring.queue) == [])
    {
      if !connected {
        return Err(NotConnected);
      }
      if LegalSize(data) {
        EvictedIsLeast(ring.queue, data);
      }
      r := ring.WriteMessage(data);
      if r.Ok? && r.value.wasEmpty {
        dataEvent := true;
      }
    }

    /** What the next read answers, on any header and any bytes. */
    function NextAnswer(): Result<()>
      requires ring.Mapped()
      reads this, ring.header, ring.storage
    {
      if !connected then Err(NotConnected)
      else if ring.header.messageCount == 0 then Err(QueueEmpty)
      else if !LegalLength(LengthAt(ring.storage[..], ring.header.readPos)) then Err(Corrupted)
      else Ok(())
    }

    /** `receive_from_client` and `receive_from_server`: signal the space event when the ring ran empty. */
    method Read() returns (r: Result<Message>)
      requires ring.Mapped()
      modifies this`spaceEvent, ring, ring.header
      ensures r.Ok? == old(NextAnswer()).Ok?
      ensures r.Err? ==> r.error == old(NextAnswer()).error && unchanged(ring) && unchanged(ring.header)
      ensures spaceEvent == (old(spaceEvent) || (r.Ok? && ring.header.messageCount == 0))
      ensures old(ring.Valid()) ==> ring.Valid()
      ensures old(ring.Valid()) && connected && old(ring.queue) == [] ==> r == Err(QueueEmpty)
      ensures r.Err? ==> ring.queue == old(ring.queue)
      ensures old(ring.Valid()) && connected && old(ring.queue) != [] ==>
        && r == Ok(old(ring.queue)[0]) && ring.queue == old(ring.queue)[1..]
        && spaceEvent == (old(spaceEvent) || |old(ring.queue)| == 1)
    {
      hide MaskIndex, U32, LengthAt, LegalLength;
      if !connected {
        return Err(NotConnected);
      }
      r := ring.ReadMessage();
      if r.Ok? && ring.header.messageCount == 0 {
        spaceEvent := true;
      }
    }

    /** Pops one message and writes it; when the write fails the message goes back to the head. */
    method SendNext() returns (r: Option<Result<WriteOutcome>>)
      requires Valid()
      modifies this`link, this`dataEvent, this`sentMessages, this`sendOverflows, queue, ring, ring.header, ring.storage
      ensures Valid()
      ensures r == None <==> old(queue.queue) == []
      ensures r != None ==> (r.value.Ok? <==> connected && LegalSize(old(queue.queue)[0]))
      ensures r != None && r.value.Err? ==> r.value == Err(WriteError(connected, old(queue.queue)[0]))
      ensures r == None || r.value.Err? ==> link == old(link) && dataEvent == old(dataEvent)
      ensures r != None && r.value.Ok? ==>
        link == SendOne(old(link)) && dataEvent == (old(dataEvent) || old(ring.queue) == [])
    {
      hide Holds, Conserved, Evicted;
      var next := queue.Pop();
      if next == None {
        return None;
      }
      var msg := next.value;
      if connected && LegalSize(msg) {
        SendConserves(link, maxSendQueue);
      }
      var outcome := Write(msg);
      match outcome {
        case Ok(w) =>
          sentMessages := sentMessages + 1;
          if w.overwritten > 0 {
            sendOverflows := sendOverflows + w.overwritten;
          }
          link := SendOne(link);
        case Err(_) =>
          queue.PushFront(msg);
      }
      return Some(outcome);
    }

    /** Sends staged messages until the queue is empty or a write fails. So exactly the legal messages before the first
        illegal one are sent, and that one blocks the rest until it is displaced. */
    method ProcessSendQueue() returns (error: Option<ShmError>)
      requires Valid()
      modifies this`link, this`dataEvent, this`sentMessages, this`sendOverflows, queue, ring, ring.header, ring.storage
      ensures Valid()
      ensures var n := if connected then LegalPrefix(old(queue.queue)) else 0;
        && queue.queue == old(queue.queue)[n..]
        && (error == None <==> queue.queue == [])
        && (error != None ==> error == Some(WriteError(connected, queue.queue[0])))
        && link == SendMany(old(link), n)
      ensures old(dataEvent) ==> dataEvent
      ensures old(ring.queue) == [] && sentMessages > old(sentMessages) ==> dataEvent
    {
      hide Holds, Conserved, Evicted, LegalPrefix, SendMany, SendOne, LegalSize;
      error := None;
      ghost var q0 := queue.queue;
      SendNone(link);
      ghost var n := 0;
      while true
        invariant Valid()
        invariant n <= |q0| && queue.queue == q0[n..]
        invariant n > 0 ==> connected
        invariant forall i :: 0 <= i < n ==> LegalSize(q0[i])
        invariant sentMessages == old(sentMessages) + n
        invariant link == SendMany(old(link), n)
        invariant n == 0 ==> ring.queue == old(ring.queue)
        invariant old(dataEvent) ==> dataEvent
        invariant old(ring.queue) == [] && n > 0 ==> dataEvent
        decreases |q0| - n
      {
        var outcome := SendNext();
        if outcome == None {
          break;
        }
        match outcome.value {
          case Ok(_) =>
            SendOneMore(old(link), n);
            n := n + 1;
          case Err(e) =>
            error := Some(e);
            break;
        }
      }
      LegalPrefixIfConnected(q0, n, connected);
    }

    /** Reads up to `max(1, batch)` messages. The caller may sleep unless the whole batch was used up. On any header and any
        bytes the pass stops early only at a read that fails, and is fatal exactly when that read answers Corrupted; on a
        sound ring it never is. */
    method ProcessReceiveQueue(batch: nat) returns (fatal: bool, morePending: bool, got: seq<Message>)
      requires ring.Mapped()
      modifies this`link, this`spaceEvent, this`receivedMessages, ring, ring.header
      ensures morePending <==> |got| == AtLeastOne(batch)
      ensures fatal <==> !morePending && NextAnswer() == Err(Corrupted)
      ensures !morePending ==> |got| < AtLeastOne(batch) && NextAnswer().Err?
      ensures receivedMessages == old(receivedMessages) + |got|
      ensures old(Valid()) ==>
        && Valid() && !fatal
        && (var b := AtLeastOne(batch);
            var n := if !connected then 0 else if |old(ring.queue)| <= b then |old(ring.queue)| else b;
            && got == old(ring.queue)[..n] && ring.queue == old(ring.queue)[n..]
            && link.delivered == old(link.delivered) + got
            && spaceEvent == (old(spaceEvent) || (n > 0 && n == |old(ring.queue)|)))
        && link.accepted == old(link.accepted) && queue.queue == old(queue.queue)
    {
      hide Holds, Conserved, LengthAt, LegalLength;
      var drained := false;
      got := [];
      var b := AtLeastOne(batch);
      ghost var valid := Valid();
      ghost var q0 := ring.queue;
      var i := 0;
      while i < b && !drained
        invariant 0 <= i <= b
        invariant !drained ==> |got| == i
        invariant drained ==> |got| < b && NextAnswer().Err? && NextAnswer() != Err(Corrupted)
        invariant receivedMessages == old(receivedMessages) + |got|
        invariant valid ==> Valid()
        invariant valid ==> |got| <= |q0| && got == q0[..|got|] && ring.queue == q0[|got|..]
        invariant valid && drained ==> !connected || |got| == |q0|
        invariant valid && !connected ==> |got| == 0
        invariant valid ==> link.delivered == old(link.delivered) + got
        invariant valid ==> link.accepted == old(link.accepted) && queue.queue == old(queue.queue)
        invariant valid ==> spaceEvent == (old(spaceEvent) || (|got| > 0 && |got| == |q0|))
      {
        if valid && connected && ring.queue != [] {
          ReceiveConserves(link, maxSendQueue);
        }
        var r := Read();
        match r {
          case Ok(m) =>
            receivedMessages := receivedMessages + 1;
            got := got + [m];
            if valid {
              link := ReceiveOne(link);
            }
          case Err(e) =>
            if e == Corrupted {
              return true, false, got;
            }
            drained := true;
        }
        i := i + 1;
      }
      return false, !drained, got;
    }
  }

  lemma LegalPrefixIfConnected(q: seq<Message>, n: nat, connected: bool)
    requires n <= |q| && (n > 0 ==> connected)
    requires forall i :: 0 <= i < n ==> LegalSize(q[i])
    requires n == |q| || !connected || !LegalSize(q[n])
    ensures connected ==> n == LegalPrefix(q)
  {
    if connected {
      LegalPrefixUnique(q, n);
    }
  }
}
