/**
  The connection handshake store by store: the server's `wait_for_client` and `mark_disconnected` against the client's
  `connect` and `drop`, interleaved freely, over auto-reset events, for any number of connections with one client at a
  time. Ring traffic on an open connection is one step a message; each message in a ring is tagged with the generation
  in which it was put there. Generations are unbounded.

  The client's wait for the acknowledgement may time out, and the server may fail to set it. A timeout can leave an
  acknowledgement behind for the next client; QuietStart says exactly when that matters.
*/
module Handshake {
  datatype Phase = Idle | Hello | Ready

  /** A ring header and, as history, the tags of the messages in the ring. The handshake words of the two headers, which
      both sides store to and neither loads, are kept apart as Marks. */
  datatype Header = Header(write: nat, read: nat, count: nat, gen: nat, tags: seq<nat>)

  datatype Marks = Marks(a: Phase, b: Phase)

  datatype Server =
    | SWait                            // waiting for connect_req
    | SCheck                           // request taken, client_state not yet loaded
    | SResetA(next: nat, g: nat)       // the stores of RingHeader::reset on ring A
    | SResetB(next: nat, g: nat)
    | SGeneration(g: nat)
    | SReadyA | SReadyB | SServerState | SClientState
    | SAck
    | SOpen
    | SDown(next: nat)                 // the four stores of mark_disconnected

  datatype Client =
    | CNone
    | CHello(next: nat)                // three stores of HELLO
    | CRequest
    | CWaitAck
    | CCheck                           // acknowledged, server_state not yet loaded
    | CGiveUp(next: nat)               // three stores of IDLE, then Timeout or HandshakeFailed
    | CLoadGeneration
    | CStore(next: nat, g: nat)        // generation and READY into both headers
    | COpen(g: nat)                    // connect has returned Ok
    | CClose(next: nat)                // three stores of IDLE, then the disconnect event

  /** `since` is the generation at which the present client started, `quiet` whether QuietStart held then; `timedOut`
      is set by the first timeout. */
  datatype History = History(since: nat, quiet: bool, timedOut: bool)

  datatype State = State(gen: nat, serverState: Phase, clientState: Phase, a: Header, b: Header, marks: Marks,
                         req: bool, ack: bool, bye: bool, s: Server, c: Client, past: History)

  datatype Action =
    | Server | Client                  // the next step of the side's program
    | Start                            // a client enters connect
    | Timeout                          // no acknowledgement in time
    | Close                            // the client is dropped
    | ClientNotified                   // the client takes the disconnect event and stops
    | ServerNotified                   // the server takes the disconnect event
    | ServerFails                      // the server gives the connection up on an error
    | AckFails                         // the acknowledgement cannot be set: READY stays published, the server waits again
    | ServerSends | ClientReceives | ClientSends | ServerReceives

  ghost predicate Init(x: State) {
    && x.serverState == Idle && x.clientState == Idle
    && x.a == Header(0, 0, 0, x.gen, []) && x.b == x.a && x.marks == Marks(Idle, Idle)
    && !x.req && !x.ack && !x.bye && x.s == SWait && x.c == CNone && !x.past.timedOut
  }

  predicate Enabled(x: State, action: Action) {
    match action
    case Server => (x.s.SWait? ==> x.req) && !x.s.SOpen?
    case Client => !x.c.CNone? && !x.c.COpen? && (x.c.CWaitAck? ==> x.ack)
    case Start => x.c.CNone?
    case Timeout => x.c.CWaitAck? && !x.ack
    case Close => x.c.COpen?
    case ClientNotified => x.c.COpen? && x.bye
    case ServerNotified => x.s.SOpen? && x.bye
    case ServerFails => x.s.SOpen?
    case AckFails => x.s.SAck?
    case ServerSends => x.s.SOpen?
    case ServerReceives => x.s.SOpen? && x.b.count > 0 && x.b.tags != []
    case ClientSends => x.c.COpen?
    case ClientReceives => x.c.COpen? && x.a.count > 0 && x.a.tags != []
  }

  function Next(x: State, action: Action): State
    requires Enabled(x, action)
  {
    match action
    case Server => ServerStep(x)
    case Client => ClientStep(x)
    case Start => x.(c := CHello(0), past := History(x.gen, QuietStart(x), x.past.timedOut))
    case Timeout => x.(c := CGiveUp(0), past := x.past.(timedOut := true))
    case Close => x.(c := CClose(0))
    case ClientNotified => x.(c := CNone, bye := false)
    case ServerNotified => x.(s := SDown(0), bye := false)
    case ServerFails => x.(s := SDown(0))
    case AckFails => x.(s := SWait)
    case ServerSends => x.(a := Put(x.a, x.gen))
    case ServerReceives => x.(b := Take(x.b))
    case ClientSends => x.(b := Put(x.b, x.gen))
    case ClientReceives => x.(a := Take(x.a))
  }

  function Put(h: Header, tag: nat): Header {
    h.(write := h.write + 1, count := h.count + 1, tags := h.tags + [tag])
  }

  function Take(h: Header): Header
    requires h.count > 0 && h.tags != []
  {
    h.(read := h.read + 1, count := h.count - 1, tags := h.tags[1..])
  }

  /** The first stores of RingHeader::reset, in order (drop_count and sequence are not modelled); the last is to Marks. */
  function ResetStore(h: Header, next: nat, g: nat): Header
    requires next < 4
  {
    if next == 0 then h.(write := 0)
    else if next == 1 then h.(read := 0)
    else if next == 2 then h.(count := 0, tags := [])
    else h.(gen := g)
  }

  function ServerStep(x: State): (y: State)
    requires Enabled(x, Server)
    ensures y.past == x.past && y.c == x.c
  {
    match x.s
    case SWait => x.(s := SCheck, req := false)
    case SCheck => if x.clientState == Hello then x.(s := SResetA(0, x.gen + 1)) else x.(s := SWait)
    case SResetA(next, g) =>
      if next < 4 then x.(a := ResetStore(x.a, next, g), s := SResetA(next + 1, g))
      else x.(marks := x.marks.(a := Idle), s := SResetB(0, g))
    case SResetB(next, g) =>
      if next < 4 then x.(b := ResetStore(x.b, next, g), s := SResetB(next + 1, g))
      else x.(marks := x.marks.(b := Idle), s := SGeneration(g))
    case SGeneration(g) => x.(gen := g, s := SReadyA)
    case SReadyA => x.(marks := x.marks.(a := Ready), s := SReadyB)
    case SReadyB => x.(marks := x.marks.(b := Ready), s := SServerState)
    case SServerState => x.(serverState := Ready, s := SClientState)
    case SClientState => x.(clientState := Ready, s := SAck)
    case SAck => x.(ack := true, s := SOpen)
    case SDown(next) =>
      if next == 0 then x.(serverState := Idle, s := SDown(1))
      else if next == 1 then x.(clientState := Idle, s := SDown(2))
      else if next == 2 then x.(marks := x.marks.(a := Idle), s := SDown(3))
      else x.(marks := x.marks.(b := Idle), s := SWait)
  }

  function ClientStep(x: State): (y: State)
    requires Enabled(x, Client)
    ensures y.past == x.past && y.s == x.s && y.serverState == x.serverState && y.gen == x.gen
  {
    match x.c
    case CHello(next) =>
      if next == 0 then x.(clientState := Hello, c := CHello(1))
      else if next == 1 then x.(marks := x.marks.(a := Hello), c := CHello(2))
      else x.(marks := x.marks.(b := Hello), c := CRequest)
    case CRequest => x.(req := true, c := CWaitAck)
    case CWaitAck => x.(ack := false, c := CCheck)
    case CCheck => if x.serverState == Ready then x.(c := CLoadGeneration) else x.(c := CGiveUp(0))
    case CGiveUp(next) => ClientIdle(x, next, CGiveUp(next + 1), CNone, false)
    case CLoadGeneration => x.(c := CStore(0, x.gen))
    case CStore(next, g) =>
      if next == 0 then x.(a := x.a.(gen := g), c := CStore(1, g))
      else if next == 1 then x.(b := x.b.(gen := g), c := CStore(2, g))
      else if next == 2 then x.(marks := x.marks.(a := Ready), c := CStore(3, g))
      else x.(marks := x.marks.(b := Ready), c := COpen(g))
    case CClose(next) => ClientIdle(x, next, CClose(next + 1), CNone, true)
  }

  function ClientIdle(x: State, next: nat, more: Client, last: Client, signal: bool): (y: State)
    ensures y.past == x.past && y.s == x.s && y.serverState == x.serverState && y.gen == x.gen
  {
    if next == 0 then x.(clientState := Idle, c := more)
    else if next == 1 then x.(marks := x.marks.(a := Idle), c := more)
    else if next == 2 then x.(marks := x.marks.(b := Idle), c := if signal then more else last)
    else x.(bye := true, c := last)
  }

  ghost predicate Leads(x: State, run: seq<Action>, x': State)
    decreases |run|
  {
    if run == [] then x' == x
    else Enabled(x, run[0]) && Leads(Next(x, run[0]), run[1..], x')
  }

  // ---- Invariants ----

  /** The server is between taking the request and setting the acknowledgement. */
  predicate Shaking(s: Server) {
    !(s.SWait? || s.SOpen? || s.SDown?)
  }

  /** The part of it that resets the rings, and the part after the new generation is visible. */
  predicate Clearing(s: Server) {
    s.SResetA? || s.SResetB? || s.SGeneration?
  }

  predicate Published(s: Server) {
    s.SReadyA? || s.SReadyB? || s.SServerState? || s.SClientState? || s.SAck?
  }

  /** No handshake that the starting client did not ask for can reach it: none is already published, and no left-over
      acknowledgement meets a server that says READY. */
  predicate QuietStart(x: State) {
    !Published(x.s) && !(x.ack && x.serverState == Ready)
  }

  /** The client has found the server ready and goes on to use the rings. */
  predicate Adopted(c: Client) {
    c.CLoadGeneration? || c.CStore? || c.COpen?
  }

  /** HELLO is stored, and the acknowledgement not yet taken. */
  predicate Asked(c: Client) {
    (c.CHello? && c.next > 0) || c.CRequest? || c.CWaitAck?
  }

  /** In connect, before returning. */
  predicate Connecting(c: Client) {
    c.CHello? || c.CRequest? || c.CWaitAck? || c.CCheck? || c.CLoadGeneration? || c.CStore?
  }

  predicate Settled(h: Header, g: nat) {
    && h.gen == g && h.count == |h.tags| && h.write == h.read + h.count
    && forall i :: 0 <= i < |h.tags| ==> h.tags[i] == g
  }

  /** Ring contents while the server is resetting ring A, then B, then publishing. */
  predicate Resetting(x: State) {
    match x.s
    case SResetA(next, g) => g == x.gen + 1 && PartlyReset(x.a, next, g)
    case SResetB(next, g) => g == x.gen + 1 && Blank(x.a, g) && PartlyReset(x.b, next, g)
    case SGeneration(g) => g == x.gen + 1 && Blank(x.a, g) && Blank(x.b, g)
    case _ => true
  }

  predicate PartlyReset(h: Header, next: nat, g: nat) {
    && next <= 4
    && (next > 0 ==> h.write == 0)
    && (next > 1 ==> h.read == 0)
    && (next > 2 ==> h.count == 0 && h.tags == [])
    && (next > 3 ==> h.gen == g)
  }

  predicate Blank(h: Header, g: nat) {
    h.write == 0 && h.read == 0 && h.count == 0 && h.tags == [] && h.gen == g
  }

  /** While a client uses the rings the server cannot get to a reset: it is still ready, or it has taken HELLO back. */
  predicate NoResetAhead(x: State) {
    || x.s.SClientState? || x.s.SAck? || x.s.SOpen? || x.s == SDown(0) || x.s == SDown(1)
    || ((x.s.SDown? || x.s.SWait? || x.s.SCheck?) && x.clientState != Hello)
  }

  /** READY outlives a failed acknowledgement; an acknowledgement left over from before then meets only a client whose
      HELLO the server has already taken back. */
  predicate LeftOversAreTame(x: State) {
    && (x.s.SClientState? || x.s.SAck? || x.s.SOpen? || x.s == SDown(0) ==> x.serverState == Ready)
    && (x.serverState == Ready ==> !(x.s.SDown? && x.s.next > 0))
    && (x.ack && (Clearing(x.s) || Published(x.s)) ==> Asked(x.c))
    && (x.s.SAck? && (x.ack || x.c.CCheck? || Adopted(x.c)) ==> x.clientState != Hello)
    && (x.ack && x.clientState == Hello && ((x.s.SDown? && x.s.next > 1) || x.s.SWait? || x.s.SCheck?) ==> Asked(x.c))
    && (x.ack && x.serverState == Ready && (x.s.SWait? || x.s.SCheck?) ==> Asked(x.c))
    && (x.serverState == Ready && ((x.ack && Asked(x.c)) || x.c.CCheck?) ==> NoResetAhead(x))
  }

  /** Holds in every run. */
  ghost predicate Sound(x: State) {
    && LeftOversAreTame(x)
    && (Adopted(x.c) ==> NoResetAhead(x))
    && (if Clearing(x.s) then Resetting(x) else Settled(x.a, x.gen) && Settled(x.b, x.gen))
    && (x.c.CStore? ==> x.c.g == x.gen && x.c.next <= 3)
    && (x.c.COpen? ==> x.c.g == x.gen)
  }

  /** What a quiet start buys. */
  ghost predicate Fresh(x: State) {
    && (Connecting(x.c) || x.c.COpen? ==> x.past.since <= x.gen)
    && (x.past.quiet && (x.c.CHello? || x.c.CRequest? || x.c.CWaitAck?) && x.gen == x.past.since ==> QuietStart(x))
    && (x.past.quiet && x.c.CCheck? && x.gen == x.past.since ==> !Published(x.s) && x.serverState != Ready)
    && (x.past.quiet && Adopted(x.c) ==> x.past.since < x.gen)
    && (Connecting(x.c) && x.past.since < x.gen ==> x.b.tags == [])
  }

  /** Holds until the first timeout: requests, handshakes and acknowledgements all belong to the waiting client. */
  ghost predicate Orderly(x: State) {
    && (x.req ==> x.c.CWaitAck? && !x.ack && !Shaking(x.s))
    && (x.ack ==> x.c.CWaitAck? && !Shaking(x.s))
    && (Shaking(x.s) ==> x.c.CWaitAck?)
    && (x.c.CHello? || x.c.CRequest? || (x.c.CWaitAck? && x.req) ==> x.gen == x.past.since)
    && (Shaking(x.s) ==> x.gen == x.past.since + if Published(x.s) then 1 else 0)
    && (x.ack || x.c.CCheck? || Adopted(x.c) ==> x.gen == x.past.since + 1)
    && (Connecting(x.c) || x.c.COpen? ==> x.past.quiet)
  }

  ghost predicate Inv(x: State) {
    Sound(x) && Fresh(x) && (x.past.timedOut || Orderly(x))
  }

  lemma SoundKept(x: State, action: Action)
    requires Sound(x) && Enabled(x, action)
    ensures Sound(Next(x, action))
  {
    match action {
      case Server =>
        if Clearing(x.s) {
          ClearingSound(x);
        } else {
          ServingSound(x);
        }
      case Client => ClientSound(x);
      case _ => OtherSound(x, action);
    }
  }

  lemma ClearingSound(x: State)
    requires Sound(x) && Enabled(x, Server) && Clearing(x.s)
    ensures Sound(ServerStep(x))
  {
    hide ClientStep, Next;
  }

  lemma ServingSound(x: State)
    requires Sound(x) && Enabled(x, Server) && !Clearing(x.s)
    ensures Sound(ServerStep(x))
  {
    hide ClientStep, Next, ResetStore, Blank;
    match x.s {
      case SWait =>
      case SCheck =>
      case SReadyA =>
      case SReadyB =>
      case SServerState =>
      case SClientState =>
      case SAck =>
      case SDown(next) =>
      case _ => assert false;
    }
  }

  lemma ClientSound(x: State)
    requires Sound(x) && Enabled(x, Client)
    ensures Sound(ClientStep(x))
  {
    hide Sound, ClientStep;
    if x.c.CCheck? || x.c.CLoadGeneration? || x.c.CStore? {
      AdoptingSound(x);
    } else if x.c.CHello? {
      HelloSound(x);
    } else {
      ShakingSound(x);
    }
  }

  lemma AdoptingSound(x: State)
    requires Sound(x) && Enabled(x, Client) && (x.c.CCheck? || x.c.CLoadGeneration? || x.c.CStore?)
    ensures Sound(ClientStep(x))
  {
    hide ServerStep, Next, ResetStore, ClientIdle;
  }

  lemma HelloSound(x: State)
    requires Sound(x) && Enabled(x, Client) && x.c.CHello?
    ensures Sound(ClientStep(x))
  {
    hide ServerStep, Next, ResetStore, ClientIdle, Settled, PartlyReset, Blank;
  }

  lemma ShakingSound(x: State)
    requires Sound(x) && Enabled(x, Client) && (x.c.CRequest? || x.c.CWaitAck? || x.c.CGiveUp? || x.c.CClose?)
    ensures Sound(ClientStep(x))
  {
    hide ServerStep, Next, ResetStore, Settled, PartlyReset, Blank;
  }

  lemma OtherSound(x: State, action: Action)
    requires Sound(x) && Enabled(x, action) && action != Server && action != Client
    ensures Sound(Next(x, action))
  {
    hide ServerStep, ClientStep, ResetStore;
  }

  lemma FreshKept(x: State, action: Action)
    requires Sound(x) && Fresh(x) && Enabled(x, action)
    ensures Fresh(Next(x, action))
  {
    match action {
      case Server =>
        if Clearing(x.s) {
          ClearingFresh(x);
        } else {
          ServingFresh(x);
        }
      case Client => ClientFresh(x);
      case _ => OtherFresh(x, action);
    }
  }

  lemma ClearingFresh(x: State)
    requires Sound(x) && Fresh(x) && Enabled(x, Server) && Clearing(x.s)
    ensures Fresh(ServerStep(x))
  {
    hide Settled, NoResetAhead, ClientStep, Next;
  }

  lemma ServingFresh(x: State)
    requires Sound(x) && Fresh(x) && Enabled(x, Server) && !Clearing(x.s)
    ensures Fresh(ServerStep(x))
  {
    hide Settled, NoResetAhead, Resetting, ResetStore, ClientStep, Next;
  }

  lemma ClientFresh(x: State)
    requires Sound(x) && Fresh(x) && Enabled(x, Client)
    ensures Fresh(ClientStep(x))
  {
    hide Sound, Fresh, ClientStep;
    if Adopted(x.c) || x.c.CGiveUp? || x.c.CClose? {
      LateClientFresh(x);
    } else {
      EarlyClientFresh(x);
    }
  }

  lemma LateClientFresh(x: State)
    requires Fresh(x) && Enabled(x, Client) && (Adopted(x.c) || x.c.CGiveUp? || x.c.CClose?)
    ensures Fresh(ClientStep(x))
  {
    hide Settled, NoResetAhead, Resetting, ServerStep, ResetStore, Next;
  }

  lemma EarlyClientFresh(x: State)
    requires Sound(x) && Fresh(x) && Enabled(x, Client) && !Adopted(x.c) && !x.c.CGiveUp? && !x.c.CClose?
    ensures Fresh(ClientStep(x))
  {
    hide Settled, NoResetAhead, Resetting, ServerStep, ResetStore, ClientIdle, Next;
  }

  lemma OtherFresh(x: State, action: Action)
    requires Sound(x) && Fresh(x) && Enabled(x, action) && action != Server && action != Client
    ensures Fresh(Next(x, action))
  {
    hide Settled, NoResetAhead, Resetting, ServerStep, ClientStep, ResetStore;
  }

  lemma OrderlyKept(x: State, action: Action)
    requires Sound(x) && Fresh(x) && Orderly(x) && Enabled(x, action) && action != Timeout
    ensures Orderly(Next(x, action))
  {
    match action {
      case Server => ServerOrderly(x);
      case Client => ClientOrderly(x);
      case _ => OtherOrderly(x, action);
    }
  }

  lemma ServerOrderly(x: State)
    requires Sound(x) && Orderly(x) && Enabled(x, Server)
    ensures Orderly(ServerStep(x))
  {
    hide Settled, NoResetAhead, PartlyReset, Blank, ResetStore, ClientStep, Next;
  }

  lemma ClientOrderly(x: State)
    requires Sound(x) && Orderly(x) && Enabled(x, Client)
    ensures Orderly(ClientStep(x))
  {
    hide Settled, NoResetAhead, Resetting, ResetStore, ServerStep, Next;
  }

  lemma OtherOrderly(x: State, action: Action)
    requires Sound(x) && Orderly(x) && Enabled(x, action) && action != Timeout && action != Server && action != Client
    ensures Orderly(Next(x, action))
  {
    hide Settled, NoResetAhead, Resetting, ServerStep, ClientStep, ResetStore;
  }

  lemma StepKeeps(x: State, action: Action)
    requires Inv(x) && Enabled(x, action)
    ensures Inv(Next(x, action))
  {
    SoundKept(x, action);
    FreshKept(x, action);
    OnlyTimeoutTimesOut(x, action);
    hide Sound, Fresh, Orderly, Next, Enabled;
    if !Next(x, action).past.timedOut {
      OrderlyKept(x, action);
    }
  }

  lemma OnlyTimeoutTimesOut(x: State, action: Action)
    requires Enabled(x, action)
    ensures Next(x, action).past.timedOut <==> x.past.timedOut || action == Timeout
    ensures action != Start ==> Next(x, action).past.since == x.past.since && Next(x, action).past.quiet == x.past.quiet
  {
    hide ServerStep, ClientStep;
  }

  lemma {:induction false} Reached(x: State, run: seq<Action>, x': State)
    requires Inv(x) && Leads(x, run, x')
    ensures Inv(x')
    decreases |run|
  {
    if run == [] {
    } else {
      hide Sound, Fresh, Orderly;
      StepKeeps(x, run[0]);
      Reached(Next(x, run[0]), run[1..], x');
    }
  }

  // ---- Results over every run, timeouts included ----

  /** The moment connect returns Ok: the client has the server's current generation, both headers carry it, and both
      rings hold only messages put there in that generation. */
  lemma AdoptsTheCurrentGeneration(x0: State, run: seq<Action>, x: State)
    requires Init(x0) && Leads(x0, run, x)
    requires Enabled(x, Client) && Next(x, Client).c.COpen?
    ensures var y := Next(x, Client);
      && y.c.g == y.gen == y.a.gen == y.b.gen
      && Settled(y.a, y.gen) && Settled(y.b, y.gen)
  {
    Reached(x0, run, x);
    SoundKept(x, Client);
  }

  /** For as long as that client stays, nothing of another generation enters either ring and the generation stands. */
  lemma StaysClean(x0: State, run: seq<Action>, x: State)
    requires Init(x0) && Leads(x0, run, x) && x.c.COpen?
    ensures x.c.g == x.gen
    ensures Settled(x.a, x.gen) && Settled(x.b, x.gen)
  {
    Reached(x0, run, x);
  }

  /** The reset stores never meet a client that has adopted a generation. */
  lemma ResetsAreUnobserved(x0: State, run: seq<Action>, x: State)
    requires Init(x0) && Leads(x0, run, x) && Clearing(x.s)
    ensures !Adopted(x.c)
  {
    Reached(x0, run, x);
  }

  // ---- Without timeouts ----

  /** The generation is the one made for this very client: exactly one past that at its start, its own ring is empty,
      and the other holds only messages sent since. */
  lemma CleanStart(x0: State, run: seq<Action>, x: State)
    requires Init(x0) && Leads(x0, run, x) && !x.past.timedOut
    requires Enabled(x, Client) && Next(x, Client).c.COpen?
    ensures var y := Next(x, Client);
      && y.c.g == y.gen == x.past.since + 1
      && y.a.gen == y.b.gen == y.gen
      && y.b.tags == [] && y.b.count == 0 && y.b.write == y.b.read
      && y.a.count == |y.a.tags| == y.a.write - y.a.read
      && (forall i :: 0 <= i < |y.a.tags| ==> y.a.tags[i] == y.gen)
  {
    Reached(x0, run, x);
  }

  /** Every start is quiet, and while the server shakes hands its client does nothing but wait. */
  lemma StartsAreQuiet(x0: State, run: seq<Action>, x: State)
    requires Init(x0) && Leads(x0, run, x) && !x.past.timedOut
    ensures x.c == CNone ==> QuietStart(x)
    ensures Shaking(x.s) ==> x.c == CWaitAck && !x.req && !x.ack
  {
    Reached(x0, run, x);
  }

  // ---- The end of a connection ----

  /** A client that is on its way out has taken its HELLO back before anything else. */
  predicate TakesHelloBack(x: State) {
    (x.c.CGiveUp? && x.c.next > 0) || (x.c.CClose? && x.c.next > 0) ==> x.clientState != Hello
  }

  lemma TakesHelloBackKept(x: State, action: Action)
    requires TakesHelloBack(x) && Enabled(x, action)
    ensures TakesHelloBack(Next(x, action))
    ensures (x.c.CGiveUp? || x.c.CClose?) && x.c.next > 0 && !Next(x, action).c.CClose? && !Next(x, action).c.CGiveUp? ==>
      Next(x, action).clientState != Hello
  {
    hide ResetStore, Settled;
  }

  lemma {:induction false} LeavesNoHello(x: State, run: seq<Action>, x': State)
    requires TakesHelloBack(x) && Leads(x, run, x')
    ensures TakesHelloBack(x')
    decreases |run|
  {
    if run == [] {
    } else {
      TakesHelloBackKept(x, run[0]);
      hide Next, Enabled, TakesHelloBack;
      LeavesNoHello(Next(x, run[0]), run[1..], x');
    }
  }

  /** Over every run, a client that gives up, after a timeout or a refusal, or is dropped leaves without a HELLO behind. */
  lemma NoHelloLeftBehind(x0: State, run: seq<Action>, x: State)
    requires Init(x0) && Leads(x0, run, x) && Enabled(x, Client)
    requires (x.c.CGiveUp? || x.c.CClose?) && Next(x, Client).c == CNone
    ensures Next(x, Client).clientState != Hello
  {
    LeavesNoHello(x0, run, x);
    TakesHelloBackKept(x, Client);
    LastStoreIsLate(x);
  }

  lemma LastStoreIsLate(x: State)
    requires Enabled(x, Client) && (x.c.CGiveUp? || x.c.CClose?) && Next(x, Client).c == CNone
    ensures x.c.next > 0
  {
    hide ServerStep, ResetStore;
  }

  function CloseSteps(c: Client): nat {
    match c
    case CClose(next) => if next <= 3 then 4 - next else 1
    case _ => 0
  }

  /** A dropped client gets through its stores and sets the disconnect event, with nobody else at work. */
  lemma {:induction false} Drops(x: State) returns (run: seq<Action>, y: State)
    requires x.c.CClose?
    ensures Leads(x, run, y) && NoStart(run) && y.c == CNone && y.bye && y.s == x.s && y.gen == x.gen
    ensures x.c.next == 0 ==> y.clientState == Idle && y.marks == Marks(Idle, Idle)
    ensures x.c.next == 1 ==> y.clientState == x.clientState && y.marks == Marks(Idle, Idle)
    ensures x.c.next == 2 ==> y.clientState == x.clientState && y.marks == Marks(x.marks.a, Idle)
    ensures x.c.next > 2 ==> y.clientState == x.clientState && y.marks == x.marks
    decreases CloseSteps(x.c)
  {
    DropStep(x);
    hide ClientStep, ServerStep;
    var z := Next(x, Client);
    if z.c == CNone {
      run, y := [], z;
    } else {
      run, y := Drops(z);
    }
    run := Front(x, Client, run, y);
  }

  lemma DropStep(x: State)
    requires x.c.CClose?
    ensures Enabled(x, Client)
    ensures var z := Next(x, Client);
      && z.s == x.s && z.gen == x.gen
      && (if z.c == CNone then z.bye && x.c.next > 2 else z.c == CClose(x.c.next + 1) && x.c.next <= 2)
      && z.clientState == (if x.c.next == 0 then Idle else x.clientState)
      && z.marks.a == (if x.c.next == 1 then Idle else x.marks.a)
      && z.marks.b == (if x.c.next == 2 then Idle else x.marks.b)
  {
    hide ServerStep, ResetStore;
  }

  /** Everything says IDLE and the server waits for the next client. */
  predicate ServerIdle(x: State) {
    x.s == SWait && x.serverState == Idle && x.clientState == Idle && x.marks == Marks(Idle, Idle)
  }

  lemma TakesDown(x: State) returns (run: seq<Action>, y: State)
    requires x.s == SDown(0)
    ensures Leads(x, run, y) && NoStart(run) && ServerIdle(y) && y.c == x.c && y.gen == x.gen && y.bye == x.bye
    ensures y.a == x.a && y.b == x.b
  {
    var a := Next(x, Server);
    var b := Next(a, Server);
    var c := Next(b, Server);
    y := Next(c, Server);
    hide Enabled, Next;
    run := Front(c, Server, [], y);
    run := Front(b, Server, run, y);
    run := Front(a, Server, run, y);
    run := Front(x, Server, run, y);
  }

  /** When a client of an open connection is dropped, its own stores and the server's reaction to the disconnect event bring
      the server back to waiting, with every state word idle. */
  lemma DropFreesTheServer(x: State) returns (run: seq<Action>, y: State)
    requires x.c == COpen(x.gen) && x.s == SOpen
    ensures Leads(x, run, y) && NoStart(run) && y.c == CNone && !y.bye && ServerIdle(y) && y.gen == x.gen
  {
    var a := Next(x, Close);
    assert a.c == CClose(0);
    var r1, b := Drops(a);
    var d := Next(b, ServerNotified);
    assert d.s == SDown(0) && !d.bye && d.c == CNone && d.gen == x.gen;
    var r2;
    r2, y := TakesDown(d);
    hide Enabled, Next;
    r2 := Front(b, ServerNotified, r2, y);
    LeadsConcat(a, r1, b, r2, y);
    run := Front(x, Close, r1 + r2, y);
  }

  /** The server has taken the client's request. */
  predicate Served(x: State) {
    (x.c.CWaitAck? && !x.req) || x.c.CCheck? || Adopted(x.c)
  }

  /** The words READY is stored in, one by one, while the connection is being opened, is open, or is being taken down; a
      ring's own word is idle from its reset on until then. */
  predicate SaysReady(x: State) {
    && (x.s.SResetB? || x.s.SGeneration? || x.s.SReadyA? ==> x.marks.a == Idle)
    && (x.s.SGeneration? || x.s.SReadyA? || x.s.SReadyB? ==> x.marks.b == Idle)
    && (x.s.SReadyB? || BothReady(x.s) || (x.s.SDown? && x.s.next <= 2) ==> x.marks.a == Ready)
    && (BothReady(x.s) || (x.s.SDown? && x.s.next <= 3) ==> x.marks.b == Ready)
    && (x.s.SAck? || x.s.SOpen? || (x.s.SDown? && x.s.next <= 1) ==> x.clientState == Ready)
  }

  predicate BothReady(s: Server) {
    s.SServerState? || s.SClientState? || s.SAck? || s.SOpen?
  }

  lemma ReadyKept(x: State, action: Action)
    requires Orderly(x) && Sound(x) && (Served(x) ==> SaysReady(x)) && Enabled(x, action) && action != Timeout
    ensures Served(Next(x, action)) ==> SaysReady(Next(x, action))
  {
    hide Fresh, Settled, Resetting, NoResetAhead, LeftOversAreTame, ResetStore;
    match action {
      case Server => ServerReady(x);
      case Client => ClientReady(x);
      case _ =>
    }
  }

  lemma ServerReady(x: State)
    requires Orderly(x) && (Served(x) ==> SaysReady(x)) && Enabled(x, Server)
    ensures Served(ServerStep(x)) ==> SaysReady(ServerStep(x))
  {
    hide ResetStore, ClientStep, Next;
  }

  lemma ClientReady(x: State)
    requires Orderly(x) && (Served(x) ==> SaysReady(x)) && Enabled(x, Client)
    ensures Served(ClientStep(x)) ==> SaysReady(ClientStep(x))
  {
    hide ResetStore, ServerStep, Next;
  }

  lemma {:induction false} ReadyThroughout(x: State, run: seq<Action>, x': State)
    requires Inv(x) && (Served(x) ==> SaysReady(x)) && Leads(x, run, x') && !x'.past.timedOut
    ensures (Served(x') ==> SaysReady(x')) && !x.past.timedOut
    decreases |run|
  {
    if run == [] {
    } else {
      var z := Next(x, run[0]);
      OnlyTimeoutTimesOut(x, run[0]);
      StepKeeps(x, run[0]);
      hide Sound, Fresh, Orderly, Next, Enabled, Served, SaysReady;
      TimedOutStays(z, run[1..], x');
      ReadyKept(x, run[0]);
      ReadyThroughout(z, run[1..], x');
    }
  }

  lemma {:induction false} TimedOutStays(x: State, run: seq<Action>, x': State)
    requires Leads(x, run, x') && !x'.past.timedOut
    ensures !x.past.timedOut
    decreases |run|
  {
    if run == [] {
    } else {
      OnlyTimeoutTimesOut(x, run[0]);
      hide Next, Enabled;
      TimedOutStays(Next(x, run[0]), run[1..], x');
    }
  }

  /** Over every run without timeouts: while a connection is open on both sides, all four words that speak of it say READY. */
  lemma OpenMeansReady(x0: State, run: seq<Action>, x: State)
    requires Init(x0) && Leads(x0, run, x) && !x.past.timedOut && x.c.COpen? && x.s == SOpen
    ensures x.serverState == x.clientState == Ready && x.marks == Marks(Ready, Ready)
  {
    Reached(x0, run, x);
    ReadyThroughout(x0, run, x);
  }

  /** ... and when a handshake makes its generation visible, no ring yet says anything but IDLE. */
  lemma PublishedWhileIdle(x0: State, run: seq<Action>, x: State)
    requires Init(x0) && Leads(x0, run, x) && !x.past.timedOut && x.s.SGeneration?
    ensures x.marks == Marks(Idle, Idle)
  {
    Reached(x0, run, x);
    ReadyThroughout(x0, run, x);
  }

  /** A failed acknowledgement leaves a waiting server behind that still says READY. */
  lemma FailedAckLeavesReady(x0: State, run: seq<Action>, x: State)
    requires Init(x0) && Leads(x0, run, x) && Enabled(x, AckFails)
    ensures var y := Next(x, AckFails); y.s == SWait && y.serverState == Ready && y.ack == x.ack
  {
    Reached(x0, run, x);
  }

  /** A server that gives an open connection up goes back to waiting, with every state word idle and the rings as they are. */
  lemma FailureFreesTheServer(x: State) returns (run: seq<Action>, y: State)
    requires x.s == SOpen
    ensures Leads(x, run, y) && NoStart(run) && ServerIdle(y) && y.c == x.c && y.gen == x.gen && y.bye == x.bye
    ensures y.a == x.a && y.b == x.b
  {
    var a := Next(x, ServerFails);
    assert a == x.(s := SDown(0));
    hide Next, Enabled;
    run, y := TakesDown(a);
    run := Front(x, ServerFails, run, y);
  }

  // ---- Traffic on an open connection ----

  lemma ServerTakes(x: State)
    requires x.s == SOpen && Settled(x.b, x.gen) && x.b.tags != []
    ensures Enabled(x, ServerReceives)
    ensures var z := Next(x, ServerReceives);
      && z == x.(b := z.b) && Settled(z.b, x.gen) && z.b.tags == x.b.tags[1..] && z.b.write == x.b.write
  {
    hide ServerStep, ClientStep;
  }

  lemma ClientTakes(x: State)
    requires x.c.COpen? && Settled(x.a, x.gen) && x.a.tags != []
    ensures Enabled(x, ClientReceives)
    ensures var z := Next(x, ClientReceives);
      && z == x.(a := z.a) && Settled(z.a, x.gen) && z.a.tags == x.a.tags[1..] && z.a.write == x.a.write
  {
    hide ServerStep, ClientStep;
  }

  lemma {:induction false} ServerDrains(x: State) returns (run: seq<Action>, y: State)
    requires x.s == SOpen && Settled(x.b, x.gen)
    ensures Leads(x, run, y) && y == x.(b := y.b) && y.b.tags == [] && y.b.read == y.b.write == x.b.write
    decreases |x.b.tags|
  {
    if x.b.tags == [] {
      run, y := [], x;
    } else {
      ServerTakes(x);
      hide Next, Enabled, Settled;
      run, y := ServerDrains(Next(x, ServerReceives));
      run := Front(x, ServerReceives, run, y);
    }
  }

  lemma {:induction false} ClientDrains(x: State) returns (run: seq<Action>, y: State)
    requires x.c.COpen? && Settled(x.a, x.gen)
    ensures Leads(x, run, y) && y == x.(a := y.a) && y.a.tags == [] && y.a.read == y.a.write == x.a.write
    decreases |x.a.tags|
  {
    if x.a.tags == [] {
      run, y := [], x;
    } else {
      ClientTakes(x);
      hide Next, Enabled, Settled;
      run, y := ClientDrains(Next(x, ClientReceives));
      run := Front(x, ClientReceives, run, y);
    }
  }

  /** On every open connection a message put in by one side, after whatever is there, can be taken out by the other, both
      ways, and each ring then stands empty one message further on. */
  lemma MessagesArrive(x0: State, run: seq<Action>, x: State) returns (more: seq<Action>, y: State)
    requires Init(x0) && Leads(x0, run, x) && x.c.COpen? && x.s == SOpen
    ensures Leads(x, more, y) && y.c == x.c && y.s == x.s && y.a.tags == y.b.tags == []
    ensures y.a.write == y.a.read == x.a.write + 1 && y.b.write == y.b.read == x.b.write + 1
  {
    Reached(x0, run, x);
    var a := Next(x, ClientSends);
    var b := Next(a, ServerSends);
    assert Settled(b.a, b.gen) && Settled(b.b, b.gen) && b.c == x.c && b.s == x.s;
    assert b.a.write == x.a.write + 1 && b.b.write == x.b.write + 1;
    hide Next, Enabled, Settled, Sound, Fresh, Orderly;
    var r1, c := ServerDrains(b);
    var r2;
    r2, y := ClientDrains(c);
    LeadsConcat(b, r1, c, r2, y);
    more := Front(a, ServerSends, r1 + r2, y);
    more := Front(x, ClientSends, more, y);
  }

  // ---- When a connection is fresh ----

  predicate NoStart(run: seq<Action>) {
    Start !in run
  }

  lemma {:induction false} SameClient(x: State, run: seq<Action>, y: State)
    requires Leads(x, run, y) && NoStart(run)
    ensures y.past.since == x.past.since && y.past.quiet == x.past.quiet
    decreases |run|
  {
    if run == [] {
    } else {
      OnlyTimeoutTimesOut(x, run[0]);
      hide Next, Enabled;
      SameClient(Next(x, run[0]), run[1..], y);
    }
  }

  /** However the run goes on, the client starting in `x` can only connect to a generation newer than that of `x`. */
  ghost predicate AlwaysFresh(x: State)
    requires x.c == CNone
  {
    forall run, y :: Leads(Next(x, Start), run, y) && NoStart(run) && y.c.COpen? ==> y.c.g > x.gen
  }

  /** The exact condition, whatever timed out before: a connect is sure to get a generation of its own if and only if
      its start is quiet. */
  lemma FreshIffQuietStart(x0: State, run: seq<Action>, x: State)
    requires Init(x0) && Leads(x0, run, x) && x.c == CNone
    ensures AlwaysFresh(x) <==> QuietStart(x)
  {
    Reached(x0, run, x);
    StepKeeps(x, Start);
    var z := Next(x, Start);
    if QuietStart(x) {
      forall more, y | Leads(z, more, y) && NoStart(more) && y.c.COpen? ensures y.c.g > x.gen {
        SameClient(z, more, y);
        Reached(z, more, y);
      }
    } else {
      var more, y := StaleConnect(z);
      assert Leads(z, more, y) && NoStart(more) && y.c.COpen?;
    }
  }

  lemma Front(x: State, action: Action, run: seq<Action>, y: State) returns (more: seq<Action>)
    requires Enabled(x, action) && Leads(Next(x, action), run, y)
    ensures more == [action] + run && Leads(x, more, y)
  {
    more := [action] + run;
    assert more[1..] == run;
  }

  lemma {:induction false} LeadsConcat(x: State, r1: seq<Action>, m: State, r2: seq<Action>, y: State)
    requires Leads(x, r1, m) && Leads(m, r2, y)
    ensures Leads(x, r1 + r2, y)
    decreases |r1|
  {
    if r1 == [] {
      assert r1 + r2 == r2;
    } else {
      LeadsConcat(Next(x, r1[0]), r1[1..], m, r2, y);
      assert (r1 + r2)[1..] == r1[1..] + r2;
    }
  }

  function ServerSteps(s: Server): nat {
    match s
    case SCheck => 20
    case SResetA(next, _) => if next <= 4 then 19 - next else 0
    case SResetB(next, _) => if next <= 4 then 14 - next else 0
    case SGeneration(_) => 9
    case SReadyA => 8
    case SReadyB => 7
    case SServerState => 6
    case SClientState => 5
    case SAck => 4
    case _ => 0
  }

  lemma ServerAdvances(x: State)
    requires Sound(x) && Shaking(x.s) && (x.s.SCheck? ==> x.clientState == Hello)
    ensures var z := ServerStep(x);
      && (if x.s.SAck? then z.s == SOpen && z.ack
          else Shaking(z.s) && !z.s.SCheck? && ServerSteps(z.s) < ServerSteps(x.s))
      && z.req == x.req
      && (Published(x.s) ==> z.gen == x.gen && (Published(z.s) || z.s.SOpen?))
      && (!Published(x.s) ==> z.gen == if Published(z.s) then x.gen + 1 else x.gen)
  {
    hide ResetStore, ClientStep, Settled, Blank, NoResetAhead;
  }

  /** A handshake under way runs to its end on the server's steps alone. */
  lemma {:induction false} Finish(x: State) returns (run: seq<Action>, y: State)
    requires Sound(x) && Shaking(x.s) && (x.s.SCheck? ==> x.clientState == Hello)
    ensures Leads(x, run, y) && Sound(y) && NoStart(run)
    ensures y.s == SOpen && y.ack && y.c == x.c && y.req == x.req
    ensures y.gen == if Published(x.s) then x.gen else x.gen + 1
    decreases ServerSteps(x.s)
  {
    ServerAdvances(x);
    SoundKept(x, Server);
    hide Sound, ServerStep, ClientStep, ServerSteps;
    var z := Next(x, Server);
    if x.s.SAck? {
      run, y := [], z;
    } else {
      run, y := Finish(z);
    }
    run := Front(x, Server, run, y);
  }

  function ClientSteps(c: Client): nat {
    match c
    case CHello(next) => if next <= 2 then 20 - next else 17
    case CRequest => 16
    case CWaitAck => 15
    case CCheck => 14
    case CLoadGeneration => 13
    case CStore(next, _) => if next <= 3 then 12 - next else 0
    case _ => 0
  }

  lemma ConnectStep(x: State)
    requires Connecting(x.c) && x.serverState == Ready && (x.c.CStore? ==> x.c.g == x.gen && x.c.next <= 3)
    requires x.c.CHello? || x.c.CRequest? || x.c.CWaitAck? ==> x.ack
    ensures Enabled(x, Client)
    ensures var z := Next(x, Client);
      && z.s == x.s && z.gen == x.gen && z.serverState == x.serverState && z.a.tags == x.a.tags
      && z.req == (x.req || x.c.CRequest?)
      && (x.c.CRequest? || x.c.CHello? ==> z.ack && (z.c.CHello? || z.c.CRequest? || z.c.CWaitAck?))
      && (if x.c.CStore? then
            && (x.c.next == 0 ==> z.a.gen == x.gen) && (x.c.next != 0 ==> z.a.gen == x.a.gen)
            && (x.c.next == 1 ==> z.b.gen == x.gen) && (x.c.next != 1 ==> z.b.gen == x.b.gen)
            && (x.c.next == 2 ==> z.marks.a == Ready) && (x.c.next != 2 ==> z.marks.a == x.marks.a)
            && (x.c.next == 3 ==> z.marks.b == Ready && z.c == COpen(x.gen))
            && (x.c.next != 3 ==> z.c == CStore(x.c.next + 1, x.gen))
          else Connecting(z.c) && (z.c.CStore? ==> z.c == CStore(0, x.gen)) && ClientSteps(z.c) < ClientSteps(x.c)
               && (!z.c.CHello? || x.c.CHello?) && (!z.c.CRequest? || x.c.CHello?) && (z.c.CWaitAck? ==> x.c.CRequest?))
  {
    hide ServerStep, ResetStore;
  }

  /** A client that finds an acknowledgement and a ready server connects on its own steps alone. */
  lemma {:induction false} Connects(x: State) returns (run: seq<Action>, y: State)
    requires Connecting(x.c) && x.serverState == Ready && (x.c.CStore? ==> x.c.g == x.gen && x.c.next <= 3)
    requires x.c.CHello? || x.c.CRequest? || x.c.CWaitAck? ==> x.ack
    ensures Leads(x, run, y) && NoStart(run) && y.c == COpen(x.gen) && y.a.tags == x.a.tags
    ensures y.s == x.s && y.gen == x.gen && y.req == (x.req || x.c.CHello? || x.c.CRequest?)
    ensures y.marks.b == Ready && (!(x.c.CStore? && x.c.next > 2) ==> y.marks.a == Ready)
    ensures !(x.c.CStore? && x.c.next > 0) ==> y.a.gen == x.gen
    ensures !(x.c.CStore? && x.c.next > 1) ==> y.b.gen == x.gen
    ensures x.c.CStore? && x.c.next > 0 ==> y.a.gen == x.a.gen
    ensures x.c.CStore? && x.c.next > 1 ==> y.b.gen == x.b.gen
    ensures x.c.CStore? && x.c.next > 2 ==> y.marks.a == x.marks.a
    decreases ClientSteps(x.c)
  {
    ConnectStep(x);
    hide ClientStep, ServerStep;
    var z := Next(x, Client);
    if z.c.COpen? {
      run, y := [], z;
    } else {
      run, y := Connects(z);
    }
    run := Front(x, Client, run, y);
  }

  /** After an unquiet start the client can connect to the generation of an earlier handshake. */
  lemma StaleConnect(z: State) returns (run: seq<Action>, y: State)
    requires Sound(z) && z.c == CHello(0)
    requires Published(z.s) || (z.ack && z.serverState == Ready)
    ensures Leads(z, run, y) && NoStart(run) && y.c == COpen(z.gen)
  {
    if Published(z.s) {
      var r1, m := Finish(z);
      var r2: seq<Action>;
      r2, y := Connects(m);
      LeadsConcat(z, r1, m, r2, y);
      run := r1 + r2;
    } else {
      run, y := Connects(z);
    }
  }

  // ---- What a client can count on ----

  /** A client's own steps, with the server waiting: HELLO in every word, then the request. */
  lemma Asks(x: State) returns (run: seq<Action>, y: State)
    requires x.c == CNone
    ensures Leads(x, run, y) && run == [Start, Client, Client, Client, Client]
    ensures y.c == CWaitAck && y.req && y.clientState == Hello && y.marks == Marks(Hello, Hello)
    ensures y.s == x.s && y.gen == x.gen && y.ack == x.ack && y.bye == x.bye && y.serverState == x.serverState
  {
    var b1 := Next(x, Start);
    var b2 := Next(b1, Client);
    var b3 := Next(b2, Client);
    var b4 := Next(b3, Client);
    y := Next(b4, Client);
    hide Enabled, Next;
    run := Front(b4, Client, [], y);
    run := Front(b3, Client, run, y);
    run := Front(b2, Client, run, y);
    run := Front(b1, Client, run, y);
    run := Front(x, Start, run, y);
  }

  /** The server takes the request of a client that says HELLO. */
  lemma Hears(x: State) returns (run: seq<Action>, y: State)
    requires x.s == SWait && x.req && x.clientState == Hello
    ensures Leads(x, run, y) && y == x.(s := SResetA(0, x.gen + 1), req := false)
  {
    var a := Next(x, Server);
    y := Next(a, Server);
    hide Enabled, Next;
    run := Front(a, Server, [], y);
    run := Front(x, Server, run, y);
  }

  /** From every reachable state in which the server waits and no client is there, whatever was left over: a client that
      asks can be accepted, and both sides then have the connection open under the next generation. */
  lemma AskedIsAccepted(x0: State, run: seq<Action>, x: State) returns (more: seq<Action>, y: State)
    requires Init(x0) && Leads(x0, run, x) && x.c == CNone && x.s == SWait
    ensures Leads(x, more, y) && y.c == COpen(x.gen + 1) && y.s == SOpen && y.gen == x.gen + 1
    ensures y.marks == Marks(Ready, Ready) && y.a.gen == y.b.gen == y.gen && !y.req
  {
    var r1, a := Asks(x);
    var r2, b := Hears(a);
    LeadsConcat(x, r1, a, r2, b);
    LeadsConcat(x0, run, x, r1 + r2, b);
    InitIsInv(x0);
    Reached(x0, run + (r1 + r2), b);
    InvIsSound(b);
    var r3, c := Finish(b);
    assert c.gen == x.gen + 1;
    ServerIsReady(c);
    hide Sound, Fresh, Orderly, Next, Enabled;
    var r4;
    r4, y := Connects(c);
    LeadsConcat(x, r1 + r2, b, r3, c);
    LeadsConcat(x, r1 + r2 + r3, c, r4, y);
    more := r1 + r2 + r3 + r4;
  }

  lemma InitIsInv(x: State)
    requires Init(x)
    ensures Inv(x)
  {
  }

  /** A client that is told of the disconnect has used the notice up and can connect anew, to a newer generation. */
  lemma NotifiedClientReconnects(x0: State, run: seq<Action>, x: State) returns (more: seq<Action>, y: State)
    requires Init(x0) && Leads(x0, run, x) && Enabled(x, ClientNotified) && x.s == SWait
    ensures Leads(x, more, y) && y.c == COpen(x.gen + 1) && y.s == SOpen && !Next(x, ClientNotified).bye
  {
    var z := Next(x, ClientNotified);
    var one := Front(x, ClientNotified, [], z);
    LeadsConcat(x0, run, x, one, z);
    hide Next, Enabled, Init;
    more, y := AskedIsAccepted(x0, run + one, z);
    more := Front(x, ClientNotified, more, y);
  }

  /** A refused or timed-out client takes its HELLO back, out of every word. */
  lemma GivesUp(x: State) returns (run: seq<Action>, y: State)
    requires x.c == CGiveUp(0) || (x.c == CCheck && x.serverState != Ready)
    ensures Leads(x, run, y) && NoStart(run)
    ensures y == x.(c := CNone, clientState := Idle, marks := Marks(Idle, Idle))
  {
    if x.c == CCheck {
      var z := x.(c := CGiveUp(0));
      assert Enabled(x, Client) && Next(x, Client) == z;
      run, y := GivesUpNow(z);
      run := Front(x, Client, run, y);
    } else {
      run, y := GivesUpNow(x);
    }
  }

  lemma GivesUpNow(x: State) returns (run: seq<Action>, y: State)
    requires x.c == CGiveUp(0)
    ensures Leads(x, run, y) && NoStart(run)
    ensures y == x.(c := CNone, clientState := Idle, marks := Marks(Idle, Idle))
  {
    var a := Next(x, Client);
    var b := Next(a, Client);
    y := Next(b, Client);
    assert y == x.(c := CNone, clientState := Idle, marks := Marks(Idle, Idle));
    hide Enabled, Next;
    run := Front(b, Client, [], y);
    run := Front(a, Client, run, y);
    run := Front(x, Client, run, y);
  }

  function Beginning(): State {
    var h := Header(0, 0, 0, 1, []);
    State(1, Idle, Idle, h, h, Marks(Idle, Idle), false, false, false, SWait, CNone, History(0, true, false))
  }

  /** Messages are waiting in the server's ring when the client starts in `x`, and the client connects to them. */
  ghost predicate InheritsMessages(x: State, more: seq<Action>, y: State) {
    && x.c == CNone && x.a.tags != []
    && Leads(Next(x, Start), more, y) && NoStart(more)
    && y.c == COpen(x.gen) && y.a.tags == x.a.tags
  }

  /** A timeout after the server has seen HELLO: the server completes the handshake for nobody, acknowledges, and sends.
      The next client takes that acknowledgement and is handed what was sent before it entered connect. */
  lemma TimeoutLeavesAnAcknowledgement()
    ensures exists run, x, more, y :: Init(Beginning()) && Leads(Beginning(), run, x) && InheritsMessages(x, more, y)
  {
    var r1, m := AbandonedHandshake();
    var r2, w := Finish(m);
    SoundKept(w, ServerSends);
    hide Sound;
    var x := Next(w, ServerSends);
    var r3 := Front(w, ServerSends, [], x);
    LeadsConcat(m, r2, w, r3, x);
    LeadsConcat(Beginning(), r1, m, r2 + r3, x);
    ServerIsReady(w);
    var more, y := Connects(Next(x, Start));
    assert InheritsMessages(x, more, y);
  }

  lemma ServerIsReady(x: State)
    requires Sound(x) && x.s.SOpen?
    ensures x.serverState == Ready
  {
  }

  lemma Requested() returns (run: seq<Action>, m: State)
    ensures Leads(Beginning(), run, m)
    ensures m.c == CWaitAck && m.req && !m.ack && m.s == SWait && m.clientState == Hello
  {
    var b1 := Next(Beginning(), Start);
    var b2 := Next(b1, Client);
    var b3 := Next(b2, Client);
    var b4 := Next(b3, Client);
    m := Next(b4, Client);
    hide Enabled, Next;
    run := Front(b4, Client, [], m);
    run := Front(b3, Client, run, m);
    run := Front(b2, Client, run, m);
    run := Front(b1, Client, run, m);
    run := Front(Beginning(), Start, run, m);
  }

  lemma Abandoned(x: State) returns (run: seq<Action>, m: State)
    requires x.c == CWaitAck && x.req && !x.ack && x.s == SWait && x.clientState == Hello
    ensures Leads(x, run, m) && m.s.SResetA? && m.c == CNone
  {
    hide QuietStart;
    var b6 := Next(x, Server);
    var b7 := Next(b6, Server);
    var b8 := Next(b7, Timeout);
    var b9 := Next(b8, Client);
    var c0 := Next(b9, Client);
    m := Next(c0, Client);
    hide Enabled, Next;
    run := Front(c0, Client, [], m);
    run := Front(b9, Client, run, m);
    run := Front(b8, Client, run, m);
    run := Front(b7, Timeout, run, m);
    run := Front(b6, Server, run, m);
    run := Front(x, Server, run, m);
  }

  lemma StartsSound(x: State)
    requires Init(x)
    ensures Inv(x)
  {
  }

  lemma InvIsSound(x: State)
    requires Inv(x)
    ensures Sound(x)
  {
    hide Sound, Fresh, Orderly;
  }

  lemma BeginningIsInit()
    ensures Init(Beginning())
  {
    hide Inv, Sound, Fresh, Orderly;
  }

  lemma AbandonedHandshake() returns (run: seq<Action>, m: State)
    ensures Leads(Beginning(), run, m) && Sound(m) && m.s.SResetA? && m.c == CNone
  {
    var r1, x := Requested();
    var r2: seq<Action>;
    r2, m := Abandoned(x);
    BeginningIsInit();
    StartsSound(Beginning());
    hide Inv, Sound, Fresh, Orderly, Beginning, Init, Next, Enabled;
    LeadsConcat(Beginning(), r1, x, r2, m);
    run := r1 + r2;
    Reached(Beginning(), run, m);
    InvIsSound(m);
  }
}
