/** The server's half of a connection as objects: the shared control block, the handshake and its undoing. */
module Server {
  import opened Common
  import opened Ring

  const IDLE: u32 := 0
  const CLIENT_HELLO: u32 := 1
  const SERVER_READY: u32 := 2

  /** The words of the control block that change. Clients store to `clientState`, `claim` and `ownerPid` as well. */
  class ControlBlock {
    var generation: u32
    var serverState: u32
    var clientState: u32
    var claim: u32
    var ownerPid: u32

    constructor ()
      ensures generation == 1 && serverState == IDLE && clientState == IDLE && claim == CLAIM_FREE && ownerPid == 0
    {
      generation, serverState, clientState, claim, ownerPid := 1, IDLE, IDLE, CLAIM_FREE, 0;
    }
  }

  class SharedServer {
    const control: ControlBlock
    const ringTx: RingBuffer     // ring A
    const ringRx: RingBuffer     // ring B
    var connected: bool
    var connectReq: bool         // auto-reset events
    var connectAck: bool
    var disconnectEvent: bool

    /** Two rings over separate memory. */
    ghost predicate Mapped() {
      && ringTx.Mapped() && ringRx.Mapped()
      && ringTx != ringRx && ringTx.header != ringRx.header && ringTx.storage != ringRx.storage
    }

    ghost function Memory(): set<object> {
      {control, ringTx, ringTx.header, ringRx, ringRx.header}
    }

    constructor (control: ControlBlock, ringTx: RingBuffer, ringRx: RingBuffer)
      requires ringTx.Mapped() && ringRx.Mapped()
      requires ringTx != ringRx && ringTx.header != ringRx.header && ringTx.storage != ringRx.storage
      ensures Mapped() && this.control == control && this.ringTx == ringTx && this.ringRx == ringRx && !connected
    {
      this.control, this.ringTx, this.ringRx := control, ringTx, ringRx;
      connected, connectReq, connectAck, disconnectEvent := false, false, false, false;
    }

    /** Resets both rings for the next generation, publishes it and the ready states, then acknowledges. `ackOk` is the
        outcome of setting the event. */
    method CompleteHandshake(ackOk: bool) returns (r: Result<()>)
      requires Mapped()
      modifies this`connected, this`connectAck, Memory()
      ensures control.generation == U32(old(control.generation) + 1)
      ensures ringTx.Valid() && ringTx.queue == [] && ringTx.header.connectionGen == control.generation
      ensures ringRx.Valid() && ringRx.queue == [] && ringRx.header.connectionGen == control.generation
      ensures ringTx.header.handshakeState == ringRx.header.handshakeState == SERVER_READY
      ensures control.serverState == control.clientState == SERVER_READY
      ensures control.claim == old(control.claim) && control.ownerPid == old(control.ownerPid)
      ensures if ackOk then r == Ok(()) && connected && connectAck
              else r == Err(EventFailed) && connected == old(connected) && connectAck == old(connectAck)
    {
      var newGeneration := WrappingAdd(control.generation, 1);
      ringTx.Reset(newGeneration);
      ringRx.Reset(newGeneration);
      control.generation := newGeneration;
      ringTx.header.handshakeState := SERVER_READY;
      ringRx.header.handshakeState := SERVER_READY;
      control.serverState := SERVER_READY;
      control.clientState := SERVER_READY;
      if !ackOk {
        return Err(EventFailed);
      }
      connectAck := true;
      connected := true;
      return Ok(());
    }

    /** One wait for a client. A client that has asked is accepted; the request event is consumed even when the handshake
        then fails. */
    method WaitForClient(ackOk: bool) returns (r: Result<()>)
      requires Mapped()
      modifies this, Memory()
      ensures old(connected) ==> r == Err(AlreadyConnected)
      ensures !old(connected) && !old(connectReq) ==> r == Err(Timeout)
      ensures !old(connected) && old(connectReq) && old(control.clientState) != CLIENT_HELLO ==> r == Err(HandshakeFailed)
      ensures r == Err(AlreadyConnected) || r == Err(Timeout) ==> unchanged(this)
      ensures r.Ok? <==> !old(connected) && old(connectReq) && old(control.clientState) == CLIENT_HELLO && ackOk
      ensures r == Err(EventFailed) <==>
        !old(connected) && old(connectReq) && old(control.clientState) == CLIENT_HELLO && !ackOk
      ensures !old(connected) && old(connectReq) ==> !connectReq
      ensures r.Err? && r != Err(EventFailed) ==> unchanged(Memory()) && connected == old(connected)
      ensures connected == (old(connected) || r.Ok?)
      ensures r.Ok? || r == Err(EventFailed) ==>
        && ringTx.Valid() && ringTx.queue == [] && ringRx.Valid() && ringRx.queue == []
        && control.generation == U32(old(control.generation) + 1)
        && ringTx.header.connectionGen == ringRx.header.connectionGen == control.generation
        && ringTx.header.handshakeState == ringRx.header.handshakeState == SERVER_READY
        && control.serverState == control.clientState == SERVER_READY
        && control.claim == old(control.claim) && control.ownerPid == old(control.ownerPid)
      ensures connectAck == (old(connectAck) || r.Ok?)
      ensures disconnectEvent == old(disconnectEvent)
    {
      if connected {
        return Err(AlreadyConnected);
      }
      if !connectReq {
        return Err(Timeout);
      }
      connectReq := false;
      if control.clientState != CLIENT_HELLO {
        return Err(HandshakeFailed);
      }
      r := CompleteHandshake(ackOk);
    }

    /** Back to idle; rings, generation and claim stay as they are. */
    method MarkDisconnected()
      requires Mapped()
      modifies this`connected, control, ringTx.header, ringRx.header
      ensures !connected
      ensures control.serverState == control.clientState == IDLE
      ensures ringTx.header.handshakeState == ringRx.header.handshakeState == IDLE
      ensures control.generation == old(control.generation) && control.claim == old(control.claim)
      ensures control.ownerPid == old(control.ownerPid)
      ensures old(ringTx.Valid()) ==> ringTx.Valid()
      ensures old(ringRx.Valid()) ==> ringRx.Valid()
    {
      connected := false;
      control.serverState := IDLE;
      control.clientState := IDLE;
      ringTx.header.handshakeState := IDLE;
      ringRx.header.handshakeState := IDLE;
    }
  }
}
