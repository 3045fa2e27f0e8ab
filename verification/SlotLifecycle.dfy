/**
  One slot of the multi-client server. Every handler holds the slot's lock while it runs, so the worker's handlers and
  `disconnect_client` from any thread act on the slot one at a time; clients may change `clientState` and `claim`
  between any two of them, and no contract here depends on what they do.
*/
module SlotLifecycle {
  import opened Common
  import opened Server

  /** What the lifecycle is about, as a value. `ackFailed`: the last handshake published READY but could not signal. */
  datatype View = View(connected: bool, inner: bool, ready: bool, ackFailed: bool, connects: nat, disconnects: nat)

  /** The three flags agree, and connects minus disconnects counts the present connection. */
  predicate Coherent(v: View) {
    && v.connected == v.inner
    && (v.ackFailed ==> !v.connected)
    && (v.ready <==> v.connected || v.ackFailed)
    && v.connects == v.disconnects + if v.connected then 1 else 0
  }

  class ClientSlot {
    const server: SharedServer
    var connected: bool
    var claimSeen: bool            // `claim_seen_at` holds an instant
    ghost var connects: nat
    ghost var disconnects: nat
    ghost var ackFailed: bool

    ghost function Now(): View
      reads this, server, server.control
    {
      View(connected, server.connected, server.control.serverState == SERVER_READY, ackFailed, connects, disconnects)
    }

    ghost predicate Valid()
      reads this, server, server.control
    {
      server.Mapped() && Coherent(Now())
    }

    constructor (server: SharedServer)
      requires server.Mapped() && !server.connected && server.control.serverState == IDLE
      ensures Valid() && this.server == server && Now() == View(false, false, false, false, 0, 0)
    {
      this.server := server;
      connected, claimSeen := false, false;
      connects, disconnects, ackFailed := 0, 0, false;
    }

    /** Both rings are sound, empty and stamped with the control block's generation, and READY stands everywhere. */
    ghost predicate Fresh()
      reads server, server.control, server.ringTx, server.ringTx.header, server.ringTx.storage,
            server.ringRx, server.ringRx.header, server.ringRx.storage
    {
      && server.ringTx.Valid() && server.ringTx.queue == [] && server.ringRx.Valid() && server.ringRx.queue == []
      && server.ringTx.header.connectionGen == server.ringRx.header.connectionGen == server.control.generation
      && server.ringTx.header.handshakeState == server.ringRx.header.handshakeState == SERVER_READY
      && server.control.serverState == server.control.clientState == SERVER_READY
    }

    method ReleaseSlotClaim()
      modifies server.control`claim
      ensures server.control.claim == CLAIM_FREE
    {
      server.control.claim := CLAIM_FREE;
    }

    method DoSlotHandshake(ackOk: bool) returns (r: Result<()>)
      requires server.Mapped()
      modifies server, server.Memory()
      ensures r.Ok? <==> !old(server.connected) && old(server.control.clientState) == CLIENT_HELLO && ackOk
      ensures server.connected == (old(server.connected) || r.Ok?)
      ensures server.control.claim == old(server.control.claim)
      ensures if !old(server.connected) && old(server.control.clientState) == CLIENT_HELLO
              then server.control.serverState == SERVER_READY
              else server.control.serverState == old(server.control.serverState)
      ensures if !old(server.connected) && old(server.control.clientState) == CLIENT_HELLO
              then Fresh() && server.control.generation == U32(old(server.control.generation) + 1)
              else server.control.generation == old(server.control.generation)
                   && server.control.clientState == old(server.control.clientState)
      ensures server.connectAck == (old(server.connectAck) || r.Ok?)
      ensures server.connectReq == old(server.connectReq) && server.disconnectEvent == old(server.disconnectEvent)
    {
      if server.connected {
        return Err(AlreadyConnected);
      }
      if server.control.clientState != CLIENT_HELLO {
        return Err(HandshakeFailed);
      }
      r := server.CompleteHandshake(ackOk);
    }

    /** `notify` says that on_client_connect is due once the lock is free. A failed handshake frees the claim. */
    method HandleSlotConnect(ackOk: bool) returns (notify: bool)
      requires Valid()
      modifies this, server, server.Memory()
      ensures Valid()
      ensures notify <==> !old(connected) && old(server.control.clientState) == CLIENT_HELLO && ackOk
      ensures Now() == Connect(old(Now()), old(server.control.clientState) == CLIENT_HELLO, ackOk)
      ensures notify || old(connected) ==> server.control.claim == old(server.control.claim)
      ensures !notify && !old(connected) ==> server.control.claim == CLAIM_FREE
      ensures notify ==> Fresh() && server.control.generation == U32(old(server.control.generation) + 1)
      ensures server.connectAck == (old(server.connectAck) || notify)
      ensures claimSeen == (old(claimSeen) && old(connected))
    {
      if connected {
        return false;
      }
      var hello := server.control.clientState == CLIENT_HELLO;
      var r := DoSlotHandshake(ackOk);
      if r.Ok? {
        connected := true;
        claimSeen := false;
        connects, ackFailed := connects + 1, false;
        return true;
      }
      ReleaseSlotClaim();
      claimSeen := false;
      ackFailed := ackFailed || hello;
      return false;
    }

    /** A disconnect event: the slot is reset and its claim freed whether or not it was connected. */
    method HandleSlotDisconnect() returns (notify: bool)
      requires Valid()
      modifies this, server, server.control, server.ringTx.header, server.ringRx.header
      ensures Valid()
      ensures notify == old(connected) && Now() == Disconnect(old(Now()))
      ensures server.control.claim == CLAIM_FREE && !claimSeen
      ensures server.control.clientState == IDLE && server.control.generation == old(server.control.generation)
    {
      notify := connected;
      connected := false;
      claimSeen := false;
      server.MarkDisconnected();
      ReleaseSlotClaim();
      ackFailed := false;
      if notify {
        disconnects := disconnects + 1;
      }
    }

    /** The public call: the client is signalled (`signalled` is the outcome of setting the event, which nobody checks) and
        the slot reset; nothing happens to a slot that is not connected. */
    method DisconnectClient(signalled: bool) returns (notify: bool)
      requires Valid()
      modifies this, server, server.control, server.ringTx.header, server.ringRx.header
      ensures Valid()
      ensures notify == old(connected)
      ensures Now() == if old(connected) then Disconnect(old(Now())) else old(Now())
      ensures server.control.claim == if old(connected) then CLAIM_FREE else old(server.control.claim)
      ensures server.disconnectEvent == (old(server.disconnectEvent) || (old(connected) && signalled))
      ensures claimSeen == (old(claimSeen) && !old(connected))
      ensures server.control.clientState == if old(connected) then IDLE else old(server.control.clientState)
    {
      notify := connected;
      if connected {
        connected := false;
        claimSeen := false;
        if signalled {
          server.disconnectEvent := true;
        }
        server.MarkDisconnected();
        ReleaseSlotClaim();
        ackFailed := false;
        disconnects := disconnects + 1;
      }
    }

    /** The delayed handling of an orphan: only while the claim still has the value seen at detection. */
    method HandleOrphanedSlotDisconnect(expectedClaim: u32) returns (notify: bool)
      requires Valid()
      modifies this, server, server.control, server.ringTx.header, server.ringRx.header
      ensures Valid()
      ensures notify <==> old(connected) && old(server.control.claim) == expectedClaim
      ensures Now() == if notify then Disconnect(old(Now())) else old(Now())
      ensures server.control.claim == if notify then CLAIM_FREE else old(server.control.claim)
      ensures notify ==> !claimSeen && server.control.clientState == IDLE
      ensures !notify ==> unchanged(this) && unchanged(server) && unchanged(server.control)
    {
      if !connected {
        return false;
      }
      if server.control.claim != expectedClaim {
        return false;
      }
      server.control.claim := CLAIM_FREE;
      connected := false;
      claimSeen := false;
      server.MarkDisconnected();
      ackFailed := false;
      disconnects := disconnects + 1;
      return true;
    }

    /** One slot's turn in the reclaim pass: `expired` stands for the clock (liveness interval or reservation timeout),
        `ownerAlive` for the process probe. Connected slots are only reported, never changed. */
    method Reclaim(expired: bool, ownerAlive: bool) returns (orphan: bool, expected: u32)
      requires Valid()
      modifies this`claimSeen, server.control`claim
      ensures Valid() && Now() == old(Now())
      ensures orphan ==> connected && expected == old(server.control.claim)
      ensures orphan <==> connected && (old(server.control.claim) == CLAIM_FREE
                                        || ((!old(claimSeen) || expired) && !ownerAlive))
      ensures server.control.claim == if !connected && old(claimSeen) && expired then CLAIM_FREE
                                      else old(server.control.claim)
      ensures claimSeen == if connected then old(claimSeen) || old(server.control.claim) != CLAIM_FREE
                           else old(server.control.claim) != CLAIM_FREE && !(old(claimSeen) && expired)
    {
      var claim := server.control.claim;
      orphan, expected := false, claim;
      if connected {
        if claim == CLAIM_FREE {
          return true, CLAIM_FREE;
        }
        if !claimSeen || expired {
          claimSeen := true;
          orphan := !ownerAlive;
        }
        return;
      }
      if claim == CLAIM_FREE {
        claimSeen := false;
      } else if !claimSeen {
        claimSeen := true;
      } else if expired {
        ReleaseSlotClaim();
        claimSeen := false;
      }
    }
  }

  // ---- Transitions and runs ----

  function Connect(v: View, hello: bool, ackOk: bool): View {
    if v.connected || v.inner || !hello then v
    else if ackOk then v.(connected := true, inner := true, ready := true, ackFailed := false, connects := v.connects + 1)
    else v.(ready := true, ackFailed := true)
  }

  function Disconnect(v: View): View {
    View(false, false, false, false, v.connects, v.disconnects + if v.connected then 1 else 0)
  }

  datatype Handler = ConnectEvent(hello: bool, ackOk: bool) | DisconnectEvent | DisconnectCall | Orphan(matches: bool)

  function Apply(v: View, h: Handler): View {
    match h
    case ConnectEvent(hello, ackOk) => Connect(v, hello, ackOk)
    case DisconnectEvent => Disconnect(v)
    case DisconnectCall => if v.connected then Disconnect(v) else v
    case Orphan(matches) => if v.connected && matches then Disconnect(v) else v
  }

  function After(v: View, hs: seq<Handler>): View {
    if hs == [] then v else Apply(After(v, hs[..|hs| - 1]), hs[|hs| - 1])
  }

  /** In any order of handlers and calls, whatever the clients do: `slot.connected` and the inner flag agree; READY
      agrees with both exactly when the last handshake's acknowledgement did not fail; and each connect notice has at
      most one disconnect notice, outstanding exactly while connected. */
  lemma {:induction false} LifecycleHolds(hs: seq<Handler>)
    ensures var v := After(View(false, false, false, false, 0, 0), hs);
      && Coherent(v)
      && (!v.ackFailed <==> (v.connected == v.inner == v.ready))
      && v.disconnects <= v.connects <= v.disconnects + 1
  {
    if hs == [] {
    } else {
      LifecycleHolds(hs[..|hs| - 1]);
    }
  }

  /** With working events the three flags always agree. */
  lemma {:induction false} FlagsAgree(hs: seq<Handler>)
    requires forall h :: h in hs && h.ConnectEvent? ==> h.ackOk
    ensures var v := After(View(false, false, false, false, 0, 0), hs); v.connected == v.inner == v.ready
  {
    LifecycleHolds(hs);
    NoFailure(hs);
  }

  lemma {:induction false} NoFailure(hs: seq<Handler>)
    requires forall h :: h in hs && h.ConnectEvent? ==> h.ackOk
    ensures !After(View(false, false, false, false, 0, 0), hs).ackFailed
  {
    if hs == [] {
    } else {
      NoFailure(hs[..|hs| - 1]);
    }
  }
}
