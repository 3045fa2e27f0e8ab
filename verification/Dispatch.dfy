/**
  The dispatch server's client map under every interleaving of registration threads, `disconnect_client`, the channels'
  own `on_disconnect` and the shutdown drain. Taking an entry out of the map (under its lock) and notifying the handler
  are separate steps, except in the drain, which does both inside its loop. Ids are handed out by an unbounded counter.
*/
module Dispatch {
  import opened Common

  datatype Thread = Waiting | Cleared | Inserted | Over    // a registration waiting for its channel

  datatype Phase = Serving | Draining | Drained

  /** What the handler is told. */
  datatype Notice = Connected(id: nat) | Disconnected(id: nat)

  /** `clients` maps an id to its `disconnected` flag; `due` are ids taken out of the map and not yet notified.
      `inserted`, `notices` (in the order given) and `late` (inserted after the drain) are history. */
  datatype State = State(nextId: nat, threads: map<nat, Thread>, open: set<nat>, clients: map<nat, bool>,
                         due: multiset<nat>, running: bool, phase: Phase,
                         inserted: set<nat>, notices: seq<Notice>, late: set<nat>)

  datatype Action =
    | Register                  // handle_lobby_client up to the spawn of the waiting thread
    | ChannelOpens(id: nat)     // on_connect signals the waiting thread
    | Clear(id: nat)            // the thread saw the signal and `running`
    | GiveUp(id: nat)           // timeout or shutdown
    | Insert(id: nat)
    | Announce(id: nat)         // on_client_connect
    | Disconnect(id: nat)       // disconnect_client
    | ChannelCloses(id: nat)    // on_disconnect of the channel's handler, any number of times
    | Notify(id: nat)           // on_client_disconnect
    | Stop
    | BeginDrain                // the worker takes the lock for good
    | DrainOne(id: nat)         // ... takes an entry out and notifies the handler
    | EndDrain

  ghost predicate Init(s: State) {
    s == Fresh()
  }

  function Fresh(): State {
    State(1, map[], {}, map[], multiset{}, true, Serving, {}, [], {})
  }

  predicate Enabled(s: State, a: Action) {
    match a
    case Register => s.running
    case ChannelOpens(id) => id in s.threads
    case Clear(id) => id in s.threads && s.threads[id] == Waiting && id in s.open && s.running
    case GiveUp(id) => id in s.threads && s.threads[id] == Waiting
    case Insert(id) => id in s.threads && s.threads[id] == Cleared && s.phase != Draining
    case Announce(id) => id in s.threads && s.threads[id] == Inserted
    case Disconnect(id) => s.phase != Draining && id in s.clients
    case ChannelCloses(id) => s.phase != Draining && id in s.threads
    case Notify(id) => id in s.due
    case Stop => true
    case BeginDrain => !s.running && s.phase == Serving
    case DrainOne(id) => s.phase == Draining && id in s.clients
    case EndDrain => s.phase == Draining && s.clients == map[]
  }

  function TakeOut(s: State, id: nat): State {
    s.(clients := s.clients - {id}, due := s.due + multiset{id})
  }

  function Next(s: State, a: Action): State
    requires Enabled(s, a)
  {
    match a
    case Register => s.(nextId := s.nextId + 1, threads := s.threads[s.nextId := Waiting])
    case ChannelOpens(id) => s.(open := s.open + {id})
    case Clear(id) => s.(threads := s.threads[id := Cleared])
    case GiveUp(id) => s.(threads := s.threads[id := Over])
    case Insert(id) =>
      s.(threads := s.threads[id := Inserted], clients := s.clients[id := false], inserted := s.inserted + {id},
         late := if s.phase == Drained then s.late + {id} else s.late)
    case Announce(id) => s.(threads := s.threads[id := Over], notices := s.notices + [Connected(id)])
    case Disconnect(id) => TakeOut(s, id)
    case ChannelCloses(id) => if id in s.clients && !s.clients[id] then TakeOut(s, id) else s
    case Notify(id) => s.(due := s.due - multiset{id}, notices := s.notices + [Disconnected(id)])
    case Stop => s.(running := false)
    case BeginDrain => s.(phase := Draining)
    case DrainOne(id) => s.(clients := s.clients - {id}, notices := s.notices + [Disconnected(id)])
    case EndDrain => s.(phase := Drained)
  }

  ghost predicate Leads(s: State, run: seq<Action>, s': State)
    decreases |run|
  {
    if run == [] then s' == s
    else Enabled(s, run[0]) && Leads(Next(s, run[0]), run[1..], s')
  }

  /** Where an inserted id is: in the map, taken out and due, or notified. */
  function Places(s: State, id: nat): nat {
    (if id in s.clients then 1 else 0) + s.due[id] + multiset(s.notices)[Disconnected(id)]
  }

  ghost predicate Placed(s: State) {
    forall id: nat :: Places(s, id) == if id in s.inserted then 1 else 0
  }

  ghost predicate ThreadsInOrder(s: State) {
    && (forall id :: id in s.threads ==> id < s.nextId)
    && (forall id :: id in s.inserted ==> id in s.threads && (s.threads[id] == Inserted || s.threads[id] == Over))
    && (forall id :: id in s.threads && s.threads[id] == Inserted ==> id in s.inserted)
    && (forall id :: id in s.inserted ==> (Connected(id) in s.notices <==> s.threads[id] == Over))
    && (forall id :: Connected(id) in s.notices ==> id in s.inserted)
  }

  ghost predicate Inv(s: State) {
    && Placed(s)
    && ThreadsInOrder(s)
    && (forall id :: id in s.clients ==> !s.clients[id])
    && s.late <= s.inserted
    && (s.phase == Drained ==> s.clients.Keys <= s.late)
    && (s.phase != Drained ==> s.late == {})
    && (s.running ==> s.phase == Serving)
  }

  lemma TakeOutKeeps(s: State, id: nat)
    requires Inv(s) && id in s.clients
    ensures Inv(TakeOut(s, id))
  {
    var s' := TakeOut(s, id);
    forall k: nat ensures Places(s', k) == if k in s'.inserted then 1 else 0 {
      assert Places(s, k) == if k in s.inserted then 1 else 0;
    }
  }

  /** What a step does to every id's place carries over to all of them. */
  lemma PlacedKept(s: State, s': State)
    requires Placed(s)
    requires forall k: nat :: Places(s', k) - Places(s, k) == (if k in s'.inserted then 1 else 0) - (if k in s.inserted then 1 else 0)
    ensures Placed(s')
  {
  }

  lemma InsertPlaces(s: State, id: nat)
    requires Inv(s) && Enabled(s, Insert(id))
    ensures Placed(Next(s, Insert(id)))
  {
    WhereInserted(s, id);
    PlacedKept(s, Next(s, Insert(id)));
  }

  lemma NotifyPlaces(s: State, id: nat)
    requires Inv(s) && Enabled(s, Notify(id))
    ensures Placed(Next(s, Notify(id)))
  {
    PlacedKept(s, Next(s, Notify(id)));
  }

  lemma DrainOnePlaces(s: State, id: nat)
    requires Inv(s) && Enabled(s, DrainOne(id))
    ensures Placed(Next(s, DrainOne(id)))
  {
    PlacedKept(s, Next(s, DrainOne(id)));
  }

  lemma AnnouncePlaces(s: State, id: nat)
    requires Inv(s) && Enabled(s, Announce(id))
    ensures Placed(Next(s, Announce(id)))
  {
    PlacedKept(s, Next(s, Announce(id)));
  }

  lemma InsertKeepsOrder(s: State, id: nat)
    requires ThreadsInOrder(s) && Enabled(s, Insert(id))
    ensures ThreadsInOrder(Next(s, Insert(id)))
  {
  }

  lemma InsertKeeps(s: State, id: nat)
    requires Inv(s) && Enabled(s, Insert(id))
    ensures Inv(Next(s, Insert(id)))
  {
    InsertPlaces(s, id);
    InsertKeepsOrder(s, id);
    hide Placed, ThreadsInOrder;
  }

  /** Telling of a disconnect leaves the threads and the connect notices as they are. */
  lemma TellingKeepsOrder(s: State, id: nat, s': State)
    requires ThreadsInOrder(s) && s'.notices == s.notices + [Disconnected(id)]
    requires s'.threads == s.threads && s'.inserted == s.inserted && s'.nextId == s.nextId
    ensures ThreadsInOrder(s')
  {
    assert forall k :: Connected(k) in s'.notices <==> Connected(k) in s.notices;
  }

  lemma NotifyKeeps(s: State, id: nat)
    requires Inv(s) && Enabled(s, Notify(id))
    ensures Inv(Next(s, Notify(id)))
  {
    NotifyPlaces(s, id);
    TellingKeepsOrder(s, id, Next(s, Notify(id)));
    hide Placed, ThreadsInOrder;
  }

  lemma DrainOneKeeps(s: State, id: nat)
    requires Inv(s) && Enabled(s, DrainOne(id))
    ensures Inv(Next(s, DrainOne(id)))
  {
    DrainOnePlaces(s, id);
    TellingKeepsOrder(s, id, Next(s, DrainOne(id)));
    hide Placed, ThreadsInOrder;
  }

  lemma AnnounceKeepsOrder(s: State, id: nat)
    requires ThreadsInOrder(s) && Enabled(s, Announce(id))
    ensures ThreadsInOrder(Next(s, Announce(id)))
  {
  }

  lemma AnnounceKeeps(s: State, id: nat)
    requires Inv(s) && Enabled(s, Announce(id))
    ensures Inv(Next(s, Announce(id)))
  {
    AnnouncePlaces(s, id);
    AnnounceKeepsOrder(s, id);
    hide Placed, ThreadsInOrder;
  }

  lemma ThreadsKeepOrder(s: State, a: Action)
    requires ThreadsInOrder(s) && Enabled(s, a)
    requires a.Register? || a.ChannelOpens? || a.Clear? || a.GiveUp? || a.Stop? || a.BeginDrain? || a.EndDrain?
    ensures ThreadsInOrder(Next(s, a))
  {
  }

  lemma ThreadsKeep(s: State, a: Action)
    requires Inv(s) && Enabled(s, a)
    requires a.Register? || a.ChannelOpens? || a.Clear? || a.GiveUp? || a.Stop? || a.BeginDrain? || a.EndDrain?
    ensures Inv(Next(s, a))
  {
    ThreadsKeepOrder(s, a);
    hide ThreadsInOrder;
    assert forall k: nat :: Places(Next(s, a), k) == Places(s, k);
  }

  lemma StepKeeps(s: State, a: Action)
    requires Inv(s) && Enabled(s, a)
    ensures Inv(Next(s, a))
  {
    hide Inv;
    match a {
      case Disconnect(id) => TakeOutKeeps(s, id);
      case ChannelCloses(id) =>
        if id in s.clients {
          TakeOutKeeps(s, id);
        }
      case DrainOne(id) => DrainOneKeeps(s, id);
      case Insert(id) => InsertKeeps(s, id);
      case Notify(id) => NotifyKeeps(s, id);
      case Announce(id) => AnnounceKeeps(s, id);
      case _ => ThreadsKeep(s, a);
    }
  }

  lemma {:induction false} Reached(s: State, run: seq<Action>, s': State)
    requires Inv(s) && Leads(s, run, s')
    ensures Inv(s')
    decreases |run|
  {
    if run == [] {
    } else {
      StepKeeps(s, run[0]);
      Reached(Next(s, run[0]), run[1..], s');
    }
  }

  // ---- Results over every run ----

  predicate Notified(s: State, id: nat) {
    Disconnected(id) in s.notices
  }

  /** Each id is notified at most once and only after it was inserted, notified ids are out of the map, and every inserted
      id is in exactly one place, so no notice is lost on the way. */
  lemma OneNoticePerClient(s0: State, run: seq<Action>, s: State)
    requires Init(s0) && Leads(s0, run, s)
    ensures forall id: nat :: multiset(s.notices)[Disconnected(id)] <= 1
    ensures forall id: nat :: Notified(s, id) ==> id in s.inserted && id !in s.clients && id !in s.due
    ensures forall id: nat :: id in s.inserted <==> id in s.clients || id in s.due || Notified(s, id)
  {
    Reached(s0, run, s);
    forall id: nat
      ensures multiset(s.notices)[Disconnected(id)] <= 1
      ensures Notified(s, id) ==> id in s.inserted && id !in s.clients && id !in s.due
      ensures id in s.inserted <==> id in s.clients || id in s.due || Notified(s, id)
    {
      WhereInserted(s, id);
    }
  }

  lemma WhereInserted(s: State, id: nat)
    requires Inv(s)
    ensures multiset(s.notices)[Disconnected(id)] <= 1
    ensures Notified(s, id) ==> id in s.inserted && id !in s.clients && id !in s.due
    ensures id in s.inserted <==> id in s.clients || id in s.due || Notified(s, id)
  {
    assert Places(s, id) == if id in s.inserted then 1 else 0;
    assert Notified(s, id) <==> Disconnected(id) in multiset(s.notices);
  }

  /** The `disconnected` flag of an entry in the map is never set, so no removal is ever refused because of it. */
  lemma FlagNeverBlocks(s0: State, run: seq<Action>, s: State, id: nat)
    requires Init(s0) && Leads(s0, run, s) && id in s.clients && s.phase != Draining && id in s.threads
    ensures id !in Next(s, ChannelCloses(id)).clients && id in Next(s, ChannelCloses(id)).due
  {
    Reached(s0, run, s);
  }

  /** After the drain, whoever is still in the map was inserted after it: everyone else has been or is being notified. */
  lemma DrainIsComplete(s0: State, run: seq<Action>, s: State, id: nat)
    requires Init(s0) && Leads(s0, run, s) && s.phase == Drained && id in s.inserted
    ensures id in s.late || id in s.due || Notified(s, id)
  {
    Reached(s0, run, s);
    WhereInserted(s, id);
  }

  lemma DrainKeeps(s: State, a: Action, id: nat)
    requires s.phase == Draining && (id in s.clients || Notified(s, id)) && Enabled(s, a)
    ensures var s' := Next(s, a);
      Notified(s', id) || (s'.phase == Draining && id in s'.clients)
  {
  }

  lemma {:induction false} NoticesStay(s: State, run: seq<Action>, s': State, id: nat)
    requires Leads(s, run, s') && Notified(s, id)
    ensures Notified(s', id)
    decreases |run|
  {
    if run == [] {
    } else {
      NoticesStay(Next(s, run[0]), run[1..], s', id);
    }
  }

  /** Everyone in the map when the drain begins has been told when it ends, so also when `stop` returns. */
  lemma {:induction false} DrainTellsEveryone(s: State, run: seq<Action>, s': State, id: nat)
    requires s.phase == Draining && id in s.clients && Leads(s, run, s') && s'.phase == Drained
    ensures Notified(s', id)
    decreases |run|
  {
    if run == [] {
      assert false;
    } else {
      DrainKeeps(s, run[0], id);
      hide Notified;
      if Notified(Next(s, run[0]), id) {
        NoticesStay(Next(s, run[0]), run[1..], s', id);
      } else {
        DrainTellsEveryone(Next(s, run[0]), run[1..], s', id);
      }
    }
  }

  // ---- Who gets into the map ----

  /** Past the wait for its channel only with the channel open. */
  ghost predicate OpenFirst(s: State) {
    && (forall id :: id in s.threads && (s.threads[id] == Cleared || s.threads[id] == Inserted) ==> id in s.open)
    && s.inserted <= s.open
  }

  lemma OpenFirstKept(s: State, a: Action)
    requires OpenFirst(s) && ThreadsInOrder(s) && Enabled(s, a)
    ensures OpenFirst(Next(s, a))
  {
  }

  lemma {:induction false} OpenFirstThroughout(s: State, run: seq<Action>, s': State)
    requires Inv(s) && OpenFirst(s) && Leads(s, run, s')
    ensures OpenFirst(s')
    decreases |run|
  {
    if run == [] {
    } else {
      OpenFirstKept(s, run[0]);
      StepKeeps(s, run[0]);
      hide Inv, OpenFirst, Next, Enabled;
      OpenFirstThroughout(Next(s, run[0]), run[1..], s');
    }
  }

  /** Over every run only clients whose channel was opened enter the map, are announced or are reported disconnected. */
  lemma OnlyOpenedClients(s0: State, run: seq<Action>, s: State, id: nat)
    requires Init(s0) && Leads(s0, run, s)
    ensures id in s.inserted || id in s.clients || id in s.due ==> id in s.open
    ensures Connected(id) in s.notices || Notified(s, id) ==> id in s.open
  {
    OpenFirstThroughout(s0, run, s);
    Reached(s0, run, s);
    WhereInserted(s, id);
  }

  /** The registration is over without having got into the map. */
  predicate GivenUp(s: State, id: nat) {
    id in s.threads && s.threads[id] == Over && id !in s.inserted
  }

  lemma GivenUpKept(s: State, a: Action, id: nat)
    requires ThreadsInOrder(s) && GivenUp(s, id) && Enabled(s, a)
    ensures GivenUp(Next(s, a), id)
  {
  }

  lemma {:induction false} GivenUpForGood(s: State, run: seq<Action>, s': State, id: nat)
    requires Inv(s) && GivenUp(s, id) && Leads(s, run, s')
    ensures GivenUp(s', id)
    decreases |run|
  {
    if run == [] {
    } else {
      GivenUpKept(s, run[0], id);
      StepKeeps(s, run[0]);
      hide Inv, GivenUp, Next, Enabled;
      GivenUpForGood(Next(s, run[0]), run[1..], s', id);
    }
  }

  /** A registration that is given up never enters the map and nobody is ever told of it, however the run goes on. */
  lemma GivenUpStaysOut(s0: State, run: seq<Action>, s: State, id: nat, more: seq<Action>, s': State)
    requires Init(s0) && Leads(s0, run, s) && Enabled(s, GiveUp(id)) && Leads(Next(s, GiveUp(id)), more, s')
    ensures id !in s'.inserted && id !in s'.clients && id !in s'.due
    ensures Connected(id) !in s'.notices && !Notified(s', id)
  {
    Reached(s0, run, s);
    StepKeeps(s, GiveUp(id));
    GivenUpForGood(Next(s, GiveUp(id)), more, s', id);
    Reached(Next(s, GiveUp(id)), more, s');
    WhereInserted(s', id);
  }

  // ---- Building runs ----

  lemma Front(s: State, a: Action, run: seq<Action>, s': State) returns (more: seq<Action>)
    requires Enabled(s, a) && Leads(Next(s, a), run, s')
    ensures more == [a] + run && Leads(s, more, s')
  {
    more := [a] + run;
    assert more[1..] == run;
  }

  lemma {:induction false} LeadsConcat(s: State, r1: seq<Action>, m: State, r2: seq<Action>, s': State)
    requires Leads(s, r1, m) && Leads(m, r2, s')
    ensures Leads(s, r1 + r2, s')
    decreases |r1|
  {
    if r1 == [] {
      assert r1 + r2 == r2;
    } else {
      LeadsConcat(Next(s, r1[0]), r1[1..], m, r2, s');
      assert (r1 + r2)[1..] == r1[1..] + r2;
    }
  }

  /** The drain once begun can be brought to its end with nobody else at work. */
  lemma {:induction false} FinishDrain(s: State) returns (run: seq<Action>, s': State)
    requires s.phase == Draining
    ensures Leads(s, run, s')
    ensures s'.phase == Drained && s'.threads == s.threads
    ensures forall id :: Connected(id) in s'.notices <==> Connected(id) in s.notices
    ensures forall id :: id !in s.clients && !Notified(s, id) ==> !Notified(s', id)
    decreases |s.clients|
  {
    if s.clients == map[] {
      s' := Next(s, EndDrain);
      run := Front(s, EndDrain, [], s');
    } else {
      var id :| id in s.clients;
      assert s.clients.Keys == (s.clients - {id}).Keys + {id};
      run, s' := FinishDrain(Next(s, DrainOne(id)));
      run := Front(s, DrainOne(id), run, s');
    }
  }

  /** A registration past its last check gets into the map. */
  lemma InsertLater(s: State, id: nat) returns (run: seq<Action>, s': State)
    requires id in s.threads && s.threads[id] == Cleared
    ensures Leads(s, run, s') && id in s'.threads && s'.threads[id] == Inserted
    ensures id !in s.clients && !Notified(s, id) ==> !Notified(s', id)
    ensures s.phase == Draining ==> id in s'.late
  {
    var z := s;
    var r1: seq<Action> := [];
    if s.phase == Draining {
      r1, z := FinishDrain(s);
    }
    s' := Next(z, Insert(id));
    var r2 := Front(z, Insert(id), [], s');
    LeadsConcat(s, r1, z, r2, s');
    run := r1 + r2;
  }

  // ---- Shutdown ----

  ghost predicate CanBeLate(s: State, id: nat) {
    exists run, s' :: Leads(s, run, s') && id in s'.late
  }

  lemma {:induction false} NeverLate(s: State, run: seq<Action>, s': State, id: nat)
    requires !s.running && id !in s.late && !(id in s.threads && s.threads[id] == Cleared) && Leads(s, run, s')
    ensures id !in s'.late
    decreases |run|
  {
    if run == [] {
    } else {
      NotClearedKept(s, run[0], id);
      hide Next, Enabled;
      NeverLate(Next(s, run[0]), run[1..], s', id);
    }
  }

  lemma NotClearedKept(s: State, a: Action, id: nat)
    requires !s.running && id !in s.late && !(id in s.threads && s.threads[id] == Cleared) && Enabled(s, a)
    ensures var s' := Next(s, a);
      !s'.running && id !in s'.late && !(id in s'.threads && s'.threads[id] == Cleared)
  {
  }

  /** The exact condition: once shutdown has begun and before the drain has ended, a registration can still enter the map
      after the drain if and only if it has already passed its last check of `running`. */
  lemma LateIffCleared(s0: State, run: seq<Action>, s: State, id: nat)
    requires Init(s0) && Leads(s0, run, s) && !s.running && s.phase != Drained
    ensures CanBeLate(s, id) <==> id in s.threads && s.threads[id] == Cleared
  {
    Reached(s0, run, s);
    if id in s.threads && s.threads[id] == Cleared {
      var z := if s.phase == Serving then Next(s, BeginDrain) else s;
      var more, s' := InsertLater(z, id);
      if s.phase == Serving {
        more := Front(s, BeginDrain, more, s');
      }
      assert Leads(s, more, s') && id in s'.late;
    } else {
      forall more, s' | Leads(s, more, s') ensures id !in s'.late {
        NeverLate(s, more, s', id);
      }
    }
  }

  /** `stop` has returned: the worker is through the drain and every waiting thread has been joined. */
  ghost predicate Stopped(s: State) {
    !s.running && s.phase == Drained && forall id :: id in s.threads ==> s.threads[id] == Over
  }

  ghost predicate CanStillBeNotified(s: State, id: nat) {
    exists run, s' :: Leads(s, run, s') && Notified(s', id) && !Notified(s, id)
  }

  lemma {:induction false} NothingNewAfterStop(s: State, run: seq<Action>, s': State)
    requires Stopped(s) && Leads(s, run, s')
    ensures Stopped(s') && s'.inserted == s.inserted
    decreases |run|
  {
    if run == [] {
    } else {
      NothingNewAfterStop(Next(s, run[0]), run[1..], s');
    }
  }

  /** A disconnect notice can come after `stop` has returned if and only if one is due or someone is left in the map;
      and who is left in the map entered it after the drain. */
  lemma NoticeAfterStopIff(s0: State, run: seq<Action>, s: State, id: nat)
    requires Init(s0) && Leads(s0, run, s) && Stopped(s)
    ensures CanStillBeNotified(s, id) <==> id in s.clients || id in s.due
    ensures id in s.clients ==> id in s.late
  {
    Reached(s0, run, s);
    WhereInserted(s, id);
    if id in s.clients {
      var z := Next(s, ChannelCloses(id));
      var s' := Next(z, Notify(id));
      var more := Front(z, Notify(id), [], s');
      more := Front(s, ChannelCloses(id), more, s');
      assert Leads(s, more, s') && Notified(s', id);
    } else if id in s.due {
      var s' := Next(s, Notify(id));
      var more := Front(s, Notify(id), [], s');
      assert Leads(s, more, s') && Notified(s', id);
    } else {
      forall more, s' | Leads(s, more, s') && Notified(s', id) ensures Notified(s, id) {
        NothingNewAfterStop(s, more, s');
        Reached(s, more, s');
        WhereInserted(s', id);
      }
    }
  }

  /** Registered, connected, past the last check of `running`; then shutdown. */
  function ClearedAtStop(): State {
    State(2, map[1 := Cleared], {1}, map[], multiset{}, false, Serving, {}, [], {})
  }

  lemma ReachClearedAtStop() returns (run: seq<Action>)
    ensures Leads(Fresh(), run, ClearedAtStop())
  {
    var a := Next(Fresh(), Register);
    var b := Next(a, ChannelOpens(1));
    var c := Next(b, Clear(1));
    var d := Next(c, Stop);
    assert d == ClearedAtStop();
    hide Enabled, Next;
    run := Front(c, Stop, [], d);
    run := Front(b, Clear(1), run, d);
    run := Front(a, ChannelOpens(1), run, d);
    run := Front(Fresh(), Register, run, d);
  }

  /** The client is in the map, announced, and `stop` has returned. */
  function LeftBehind(): State {
    State(2, map[1 := Over], {1}, map[1 := false], multiset{}, false, Drained, {1}, [Connected(1)], {1})
  }

  lemma ReachLeftBehind() returns (run: seq<Action>)
    ensures Leads(ClearedAtStop(), run, LeftBehind())
  {
    var e := Next(ClearedAtStop(), BeginDrain);
    var f := Next(e, EndDrain);
    var g := Next(f, Insert(1));
    var s := Next(g, Announce(1));
    assert s == LeftBehind();
    hide Enabled, Next;
    run := Front(g, Announce(1), [], s);
    run := Front(f, Insert(1), run, s);
    run := Front(e, EndDrain, run, s);
    run := Front(ClearedAtStop(), BeginDrain, run, s);
  }

  /** `stop` can return with an announced client still in the map, untold of the shutdown; its notice comes only when the
      client itself leaves, after `stop` has returned. */
  lemma LateClientOutlivesStop()
    ensures exists run, s :: Leads(Fresh(), run, s) && Stopped(s) && s.notices == [Connected(1)] && 1 in s.clients
                             && s.due == multiset{} && CanStillBeNotified(s, 1)
  {
    var r1 := ReachClearedAtStop();
    var r2 := ReachLeftBehind();
    LeadsConcat(Fresh(), r1, ClearedAtStop(), r2, LeftBehind());
    NoticeAfterStopIff(Fresh(), r1 + r2, LeftBehind(), 1);
  }

  // ---- The order of a client's two notices ----

  /** The disconnect was reported before the connect, or before any connect. */
  ghost predicate Crossed(notices: seq<Notice>, id: nat) {
    exists j :: 0 <= j < |notices| && notices[j] == Disconnected(id) && Connected(id) !in notices[..j]
  }

  lemma CrossedSnoc(notices: seq<Notice>, x: Notice, id: nat)
    ensures Crossed(notices + [x], id) <==> Crossed(notices, id) || (x == Disconnected(id) && Connected(id) !in notices)
  {
    var more := notices + [x];
    assert forall j :: 0 <= j <= |notices| ==> more[..j] == notices[..j];
    assert notices[..|notices|] == notices;
    if Crossed(notices, id) {
      var j :| 0 <= j < |notices| && notices[j] == Disconnected(id) && Connected(id) !in notices[..j];
      assert more[j] == Disconnected(id) && Connected(id) !in more[..j];
    }
    if x == Disconnected(id) && Connected(id) !in notices {
      assert more[|notices|] == Disconnected(id) && Connected(id) !in more[..|notices|];
    }
  }

  /** The step gives `id`'s disconnect notice. */
  predicate Tells(a: Action, id: nat) {
    a == Notify(id) || a == DrainOne(id)
  }

  /** Step `k` of the run notifies `id` while its thread has inserted it and not yet announced it. */
  ghost predicate NotifiesEarly(s: State, run: seq<Action>, k: nat, id: nat) {
    && k < |run| && Tells(run[k], id)
    && exists m :: Leads(s, run[..k], m) && id in m.threads && m.threads[id] == Inserted
  }

  lemma EarlyLater(s: State, run: seq<Action>, k: nat, id: nat)
    requires run != [] && Enabled(s, run[0])
    ensures NotifiesEarly(Next(s, run[0]), run[1..], k, id) <==> NotifiesEarly(s, run, k + 1, id)
  {
    var n := Next(s, run[0]);
    if k + 1 < |run| {
      assert run[..k + 1][1..] == run[1..][..k];
      assert run[..k + 1][0] == run[0];
      assert forall m :: Leads(s, run[..k + 1], m) <==> Leads(n, run[1..][..k], m);
    }
  }

  /** Who is told of has been inserted, and is announced exactly when its thread is through. */
  lemma TellingMeans(s: State, a: Action, k: nat)
    requires Inv(s) && Enabled(s, a) && Tells(a, k)
    ensures Next(s, a).notices == s.notices + [Disconnected(k)]
    ensures k in s.threads && (Connected(k) !in s.notices <==> s.threads[k] == Inserted)
  {
    WhereInserted(s, k);
    hide Placed;
  }

  lemma OtherNotices(s: State, a: Action)
    requires Enabled(s, a)
    ensures a.Announce? ==> Next(s, a).notices == s.notices + [Connected(a.id)]
    ensures !a.Announce? && !a.Notify? && !a.DrainOne? ==> Next(s, a).notices == s.notices
  {
  }

  lemma CrossedStep(s: State, a: Action, id: nat)
    requires Inv(s) && Enabled(s, a)
    ensures Crossed(Next(s, a).notices, id) <==>
      Crossed(s.notices, id) || (Tells(a, id) && id in s.threads && s.threads[id] == Inserted)
  {
    OtherNotices(s, a);
    if a.Notify? || a.DrainOne? {
      TellingMeans(s, a, a.id);
      CrossedSnoc(s.notices, Disconnected(a.id), id);
    } else if a.Announce? {
      CrossedSnoc(s.notices, Connected(a.id), id);
    }
    hide Crossed, Inv, Next, Enabled;
  }

  lemma {:induction false} CrossedInRun(s: State, run: seq<Action>, s': State, id: nat)
    requires Inv(s) && Leads(s, run, s')
    ensures Crossed(s'.notices, id) <==> Crossed(s.notices, id) || exists k: nat :: NotifiesEarly(s, run, k, id)
    decreases |run|
  {
    if run == [] {
    } else {
      var n := Next(s, run[0]);
      CrossedStep(s, run[0], id);
      StepKeeps(s, run[0]);
      CrossedInRun(n, run[1..], s', id);
      assert run[..0] == [] && Leads(s, run[..0], s);
      FirstStepEarly(s, run, id);
      hide Inv, Next, Enabled, Crossed, NotifiesEarly;
      if k: nat :| NotifiesEarly(n, run[1..], k, id) {
        EarlyLater(s, run, k, id);
      }
      if k: nat :| NotifiesEarly(s, run, k, id) {
        if k > 0 {
          EarlyLater(s, run, k - 1, id);
        }
      }
    }
  }

  lemma FirstStepEarly(s: State, run: seq<Action>, id: nat)
    requires run != []
    ensures NotifiesEarly(s, run, 0, id) <==> Tells(run[0], id) && id in s.threads && s.threads[id] == Inserted
  {
    assert run[..0] == [] && Leads(s, run[..0], s);
  }

  /** Over every run, a client's disconnect is reported before its connect if and only if some notification of it falls
      between its entry into the map and its announcement. */
  lemma NoticesCrossIff(s0: State, run: seq<Action>, s: State, id: nat)
    requires Init(s0) && Leads(s0, run, s)
    ensures Crossed(s.notices, id) <==> exists k: nat :: NotifiesEarly(s0, run, k, id)
  {
    CrossedInRun(s0, run, s, id);
  }

  ghost predicate CanCross(s: State, id: nat) {
    exists run, s' :: Leads(s, run, s') && Crossed(s'.notices, id)
  }

  /** The thread is in the window between insertion and announcement, or can still get there. */
  predicate WindowAhead(s: State, id: nat)
    requires id in s.threads
  {
    s.threads[id] == Inserted || s.threads[id] == Cleared || (s.threads[id] == Waiting && s.running)
  }

  lemma ShutStep(s: State, a: Action, id: nat)
    requires Inv(s) && Enabled(s, a) && id in s.threads && !Crossed(s.notices, id) && !WindowAhead(s, id)
    ensures var s' := Next(s, a); id in s'.threads && !Crossed(s'.notices, id) && !WindowAhead(s', id)
  {
    CrossedStep(s, a, id);
    hide Crossed, Placed;
  }

  lemma {:induction false} ShutForGood(s: State, run: seq<Action>, s': State, id: nat)
    requires Inv(s) && Leads(s, run, s') && id in s.threads && !Crossed(s.notices, id) && !WindowAhead(s, id)
    ensures !Crossed(s'.notices, id)
    decreases |run|
  {
    if run == [] {
    } else {
      ShutStep(s, run[0], id);
      StepKeeps(s, run[0]);
      hide Inv, Next, Enabled, Crossed;
      ShutForGood(Next(s, run[0]), run[1..], s', id);
    }
  }

  /** From the window, the notice can be given at once. */
  lemma CrossNow(s: State, id: nat) returns (run: seq<Action>, s': State)
    requires Inv(s) && id in s.threads && s.threads[id] == Inserted && !Notified(s, id)
    ensures Leads(s, run, s') && Crossed(s'.notices, id)
  {
    WhereInserted(s, id);
    CrossedSnoc(s.notices, Disconnected(id), id);
    if id in s.due {
      s' := Next(s, Notify(id));
      run := Front(s, Notify(id), [], s');
    } else if s.phase == Draining {
      s' := Next(s, DrainOne(id));
      run := Front(s, DrainOne(id), [], s');
    } else {
      var z := Next(s, Disconnect(id));
      s' := Next(z, Notify(id));
      run := Front(z, Notify(id), [], s');
      run := Front(s, Disconnect(id), run, s');
    }
  }

  lemma ReachWindow(s: State, id: nat) returns (run: seq<Action>, s': State)
    requires Inv(s) && id in s.threads && WindowAhead(s, id) && !Notified(s, id)
    ensures Leads(s, run, s') && id in s'.threads && s'.threads[id] == Inserted && !Notified(s', id)
  {
    if s.threads[id] != Inserted {
      WhereInserted(s, id);
    }
    if s.threads[id] == Inserted {
      run, s' := [], s;
    } else if s.threads[id] == Cleared {
      run, s' := InsertLater(s, id);
    } else {
      var a := Next(s, ChannelOpens(id));
      var b := Next(a, Clear(id));
      run, s' := InsertLater(b, id);
      run := Front(a, Clear(id), run, s');
      run := Front(s, ChannelOpens(id), run, s');
    }
  }

  /** The exact condition, state by state: for a registered client not yet notified the notices can still cross if and
      only if its connect is unannounced and its thread is, or can still get, between insertion and announcement. */
  lemma CanCrossIff(s0: State, run: seq<Action>, s: State, id: nat)
    requires Init(s0) && Leads(s0, run, s) && id in s.threads && !Notified(s, id)
    ensures CanCross(s, id) <==> WindowAhead(s, id)
    ensures WindowAhead(s, id) ==> Connected(id) !in s.notices
  {
    Reached(s0, run, s);
    if WindowAhead(s, id) {
      var r1, m := ReachWindow(s, id);
      Reached(s, r1, m);
      var r2, s' := CrossNow(m, id);
      LeadsConcat(s, r1, m, r2, s');
    } else {
      forall more, s' | Leads(s, more, s') ensures !Crossed(s'.notices, id) {
        ShutForGood(s, more, s', id);
      }
    }
  }

  /** Announced next, and in the map. */
  function InWindow(): State {
    State(2, map[1 := Inserted], {1}, map[1 := false], multiset{}, true, Serving, {1}, [], {})
  }

  lemma ReachInWindow() returns (run: seq<Action>)
    ensures Leads(Fresh(), run, InWindow())
  {
    var a := Next(Fresh(), Register);
    var b := Next(a, ChannelOpens(1));
    var c := Next(b, Clear(1));
    var d := Next(c, Insert(1));
    assert d == InWindow();
    hide Enabled, Next;
    run := Front(c, Insert(1), [], d);
    run := Front(b, Clear(1), run, d);
    run := Front(a, ChannelOpens(1), run, d);
    run := Front(Fresh(), Register, run, d);
  }

  /** Both notices of one client, in the wrong order. */
  lemma NoticesCanCross()
    ensures exists run, s :: Leads(Fresh(), run, s) && s.notices == [Disconnected(1), Connected(1)]
  {
    var r1 := ReachInWindow();
    var a := Next(InWindow(), Disconnect(1));
    var b := Next(a, Notify(1));
    var s := Next(b, Announce(1));
    assert s.notices == [Disconnected(1), Connected(1)];
    hide Enabled, Next;
    var r2 := Front(b, Announce(1), [], s);
    r2 := Front(a, Notify(1), r2, s);
    r2 := Front(InWindow(), Disconnect(1), r2, s);
    LeadsConcat(Fresh(), r1, InWindow(), r2, s);
  }

  // ---- The map's own operations ----

  class ClientMap {
    var clients: map<nat, bool>
    ghost var notified: seq<nat>

    constructor ()
      ensures clients == map[] && notified == []
    {
      clients, notified := map[], [];
    }

    method DisconnectClient(id: nat) returns (r: Result<()>)
      modifies this
      ensures r.Ok? <==> id in old(clients)
      ensures clients == old(clients) - {id}
      ensures notified == old(notified) + if r.Ok? then [id] else []
      ensures r.Err? ==> r == Err(NotConnected)
    {
      if id !in clients {
        return Err(NotConnected);
      }
      clients := clients - {id};
      notified := notified + [id];
      return Ok(());
    }

    method OnDisconnect(id: nat)
      modifies this
      ensures clients == if id in old(clients) && !old(clients)[id] then old(clients) - {id} else old(clients)
      ensures notified == old(notified) + if id in old(clients) && !old(clients)[id] then [id] else []
    {
      if id in clients && !clients[id] {
        clients := clients - {id};
        notified := notified + [id];
      }
    }

    /** The shutdown loop: everyone in the map is notified, once each. */
    method Drain()
      modifies this
      ensures clients == map[]
      ensures |notified| == |old(notified)| + |old(clients)| && notified[..|old(notified)|] == old(notified)
      ensures forall id :: id in notified[|old(notified)|..] <==> id in old(clients)
      ensures forall i, j :: |old(notified)| <= i < j < |notified| ==> notified[i] != notified[j]
    {
      ghost var n := |notified|;
      while clients != map[]
        invariant n <= |notified| && notified[..n] == old(notified)
        invariant clients.Keys <= old(clients).Keys
        invariant |notified| - n + |clients| == |old(clients)|
        invariant forall id :: id in notified[n..] <==> id in old(clients) && id !in clients
        invariant forall i, j :: n <= i < j < |notified| ==> notified[i] != notified[j]
        decreases |clients|
      {
        var id :| id in clients;
        assert clients.Keys == (clients - {id}).Keys + {id};
        assert notified[n..] + [id] == (notified + [id])[n..];
        forall i | n <= i < |notified| ensures notified[i] != id {
          assert notified[i] in notified[n..];
        }
        clients := clients - {id};
        notified := notified + [id];
      }
    }
  }
}
