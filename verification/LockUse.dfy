/** What the skeletons of LockOrder do, operation by operation: which event each can wait on, which it can notify, and
    which lock it can take directly inside which.  Nothing is waited for that no callback notifies, and the nestings
    that occur are exactly those the order of locks is there for. */
module LockUse {
  import opened Common
  import opened LockOrder

  predicate CanWait(c: Code, e: Lock) {
    match c
    case Then(a, b) => CanWait(a, e) || CanWait(b, e)
    case Either(a, b) => CanWait(a, e) || CanWait(b, e)
    case Loop(a) => CanWait(a, e)
    case Guard(_, a) => CanWait(a, e)
    case Wait(f) => f == e
    case _ => false
  }

  predicate CanNotify(c: Code, e: Lock) {
    match c
    case Then(a, b) => CanNotify(a, e) || CanNotify(b, e)
    case Either(a, b) => CanNotify(a, e) || CanNotify(b, e)
    case Loop(a) => CanNotify(a, e)
    case Guard(_, a) => CanNotify(a, e)
    case Notify(f) => f == e
    case _ => false
  }

  /** Run inside outer, if that is a lock, the code can take l' directly inside l. */
  predicate CanNest(c: Code, outer: Option<Lock>, l: Lock, l': Lock) {
    match c
    case Then(a, b) => CanNest(a, outer, l, l') || CanNest(b, outer, l, l')
    case Either(a, b) => CanNest(a, outer, l, l') || CanNest(b, outer, l, l')
    case Loop(a) => CanNest(a, outer, l, l')
    case Guard(m, a) => (outer == Some(l) && m == l') || CanNest(a, Some(m), l, l')
    case _ => false
  }

  predicate CanTake(c: Code, l: Lock) {
    match c
    case Then(a, b) => CanTake(a, l) || CanTake(b, l)
    case Either(a, b) => CanTake(a, l) || CanTake(b, l)
    case Loop(a) => CanTake(a, l)
    case Guard(m, a) => m == l || CanTake(a, l)
    case _ => false
  }

  // ---------------------------------------------------------------- the rules, for any depth

  lemma WaitRules(e: Lock)
    ensures forall a, b :: CanWait(Then(a, b), e) <==> CanWait(a, e) || CanWait(b, e)
    ensures forall a, b :: CanWait(Either(a, b), e) <==> CanWait(a, e) || CanWait(b, e)
    ensures forall a :: CanWait(Loop(a), e) <==> CanWait(a, e)
    ensures forall l, a :: CanWait(Guard(l, a), e) <==> CanWait(a, e)
  {
  }

  lemma NotifyRules(e: Lock)
    ensures forall a, b :: CanNotify(Then(a, b), e) <==> CanNotify(a, e) || CanNotify(b, e)
    ensures forall a, b :: CanNotify(Either(a, b), e) <==> CanNotify(a, e) || CanNotify(b, e)
    ensures forall a :: CanNotify(Loop(a), e) <==> CanNotify(a, e)
    ensures forall l, a :: CanNotify(Guard(l, a), e) <==> CanNotify(a, e)
  {
  }

  lemma NestRules(l: Lock, l': Lock)
    ensures forall a, b, o :: CanNest(Then(a, b), o, l, l') <==> CanNest(a, o, l, l') || CanNest(b, o, l, l')
    ensures forall a, b, o :: CanNest(Either(a, b), o, l, l') <==> CanNest(a, o, l, l') || CanNest(b, o, l, l')
    ensures forall a, o :: CanNest(Loop(a), o, l, l') <==> CanNest(a, o, l, l')
    ensures forall m, a, o ::
              CanNest(Guard(m, a), o, l, l') <==> (o == Some(l) && m == l') || CanNest(a, Some(m), l, l')
  {
  }

  // ---------------------------------------------------------------- scans

  lemma {:induction false} ScanWaits(servers: seq<nat>, e: Lock)
    ensures !CanWait(ScanServers(servers), e)
    decreases |servers|
  {
    WaitRules(e);
    if servers != [] { ScanWaits(servers[1..], e); }
  }

  lemma {:induction false} PulsesWait(conns: seq<nat>, e: Lock)
    ensures !CanWait(PulseConns(conns), e)
    decreases |conns|
  {
    WaitRules(e);
    if conns != [] { PulsesWait(conns[1..], e); }
  }

  lemma {:induction false} OffWaits(clients: seq<nat>, servers: seq<(nat, seq<nat>)>, e: Lock)
    ensures !CanWait(ClientsOff(clients), e) && !CanWait(ServersOff(servers), e)
    decreases |clients| + |servers|
  {
    WaitRules(e);
    if clients != [] {
      PulsesWait([clients[0]], e);
      OffWaits(clients[1..], servers, e);
    }
    if servers != [] {
      PulsesWait(servers[0].1, e);
      OffWaits(clients, servers[1..], e);
    }
  }

  lemma {:induction false} ScanNotifies(servers: seq<nat>, e: Lock)
    ensures !CanNotify(ScanServers(servers), e)
    decreases |servers|
  {
    NotifyRules(e);
    if servers != [] { ScanNotifies(servers[1..], e); }
  }

  /** The two events of a connection. */
  predicate OfConns(e: Lock, conns: seq<nat>) { e.EventMutex? && (e.kind.Cong? || e.kind.Read?) && e.o in conns }

  lemma {:induction false} PulsesNotify(conns: seq<nat>, e: Lock)
    ensures CanNotify(PulseConns(conns), e) <==> OfConns(e, conns)
    decreases |conns|
  {
    NotifyRules(e);
    if conns != [] { PulsesNotify(conns[1..], e); }
  }

  lemma {:induction false} ClientsOffNotify(clients: seq<nat>, e: Lock)
    ensures CanNotify(ClientsOff(clients), e) <==>
            OfConns(e, clients) || (e.EventMutex? && e.kind.Connecting? && e.o in clients)
    decreases |clients|
  {
    NotifyRules(e);
    if clients != [] {
      PulsesNotify([clients[0]], e);
      ClientsOffNotify(clients[1..], e);
    }
  }

  lemma {:induction false} ServersOffNotify(servers: seq<(nat, seq<nat>)>, e: Lock)
    ensures CanNotify(ServersOff(servers), e) <==> exists x :: x in servers && OfConns(e, x.1)
    decreases |servers|
  {
    NotifyRules(e);
    if servers != [] {
      PulsesNotify(servers[0].1, e);
      ServersOffNotify(servers[1..], e);
    }
  }

  // ---------------------------------------------------------------- waits and notifications

  /** The event a call may have to wait on. */
  function WaitsOn(op: Op): Option<Lock> {
    match op
    case RegisterServer(srv) => Some(Event(RegServer, srv))
    case Accept(srv) => Some(Event(ConnRequest, srv))
    case CreateClient(client, _) => Some(Event(Registering, client))
    case CreateDataLinkConn(client, _) => Some(Event(Connecting, client))
    case Send(conn, _) => Some(Event(Cong, conn))
    case Receive(conn, _) => Some(Event(Read, conn))
    case Disconnect(conn, _, _) => Some(Event(Disconnecting, conn))
    case EnableListening => Some(Event(SetTech, 0))
    case TurnOff(_, _) => Some(NfaDisableEvent)
    case _ => None
  }

  /** The objects whose mutexes an operation's scans may take. */
  function Scanned(op: Op): seq<nat> {
    match op
    case CreateClient(_, scanned) => scanned
    case CreateDataLinkConn(_, scanned) => scanned
    case Send(_, scanned) => scanned
    case Receive(_, scanned) => scanned
    case Disconnect(_, _, scanned) => scanned
    case GetRemoteParameter(scanned) => scanned
    case ServerDiscEvt(_, scanned) => scanned
    case ClientDiscEvt(_, _, scanned) => scanned
    case DataEvt(_, scanned) => scanned
    case CongestEvt(_, scanned) => scanned
    case _ => []
  }

  lemma CallWaits(op: Op, e: Lock)
    requires IsCall(op)
    ensures CanWait(Skeleton(op), e) <==> WaitsOn(op) == Some(e)
  {
    WaitRules(e);
    ScanWaits(Scanned(op), e);
  }

  lemma SwitchWaits(op: Op, e: Lock)
    requires !IsCall(op) && !IsCallback(op)
    ensures CanWait(Skeleton(op), e) <==> WaitsOn(op) == Some(e)
  {
    WaitRules(e);
    ScanWaits(Scanned(op), e);
    if op.TurnOff? { OffWaits(op.clients, op.servers, e); }
  }

  lemma CallbackNeverWaits(op: Op, e: Lock)
    requires IsCallback(op)
    ensures !CanWait(Skeleton(op), e)
  {
    WaitRules(e);
    ScanWaits(Scanned(op), e);
  }

  /** Every call waits on its own event and no other, and callbacks wait on nothing. */
  lemma WaitsExactly(op: Op, e: Lock)
    ensures CanWait(Skeleton(op), e) <==> WaitsOn(op) == Some(e)
  {
    if IsCall(op) { CallWaits(op, e); }
    else if IsCallback(op) { CallbackNeverWaits(op, e); }
    else { SwitchWaits(op, e); }
  }

  predicate IsCallback(op: Op) {
    op.RegServerEvt? || op.ConnReqEvt? || op.ServerDiscEvt? || op.ClientDiscEvt? || op.DataEvt? || op.CongestEvt? ||
    op.RegClientEvt? || op.ConnectedEvt? || op.ClientActivatedEvt? || op.SetListenTechEvt? || op.NfaDisabledEvt?
  }

  /** The callback for an event that is waited on. */
  function Waker(e: Lock): Op {
    match e
    case EventMutex(RegServer, o) => RegServerEvt(o)
    case EventMutex(ConnRequest, o) => ConnReqEvt(o)
    case EventMutex(Registering, o) => RegClientEvt(o)
    case EventMutex(Connecting, o) => ConnectedEvt(o)
    case EventMutex(Cong, o) => CongestEvt(o, [])
    case EventMutex(Read, o) => DataEvt(o, [])
    case EventMutex(Disconnecting, o) => ServerDiscEvt(o, [])
    case EventMutex(SetTech, _) => SetListenTechEvt
    case _ => NfaDisabledEvt
  }

  /** Something looked up first, and then a notification made. */
  lemma SeekNotifies(find: Code, act: Code, e: Lock)
    requires CanNotify(act, e)
    ensures CanNotify(Then(find, Maybe(act)), e)
  {
    assert CanNotify(Maybe(act), e);
  }

  lemma WakerNotifies(e: Lock)
    requires e.EventMutex?
    ensures (e.kind.SetTech? ==> e.o == 0) ==> CanNotify(Skeleton(Waker(e)), e)
  {
    assert CanNotify(Pulse(e), e);
    SeekNotifies(FindUnderPeerMutex, Pulse(e), e);
    SeekNotifies(FindConnection([]), Pulse(e), e);
    SeekNotifies(Guard(ServerMutex(e.o), Skip), Pulse(e), e);
    if e.kind.ConnRequest? {
      SeekNotifies(FindUnderPeerMutex, Then(Guard(ServerMutex(e.o), Skip), Maybe(Pulse(e))), e);
    }
    if e.kind.Disconnecting? {
      assert CanNotify(DiscHandler(e.o), e);
      SeekNotifies(FindConnection([]), DiscHandler(e.o), e);
    }
  }

  /** Whatever a call of the manager can wait on, some callback of the stack can notify. */
  lemma EveryWaitIsNotified(op: Op, e: Lock)
    requires CanWait(Skeleton(op), e)
    ensures exists evt :: IsCallback(evt) && CanNotify(Skeleton(evt), e)
  {
    WaitsExactly(op, e);
    if e.EventMutex? { WakerNotifies(e); } else { assert CanNotify(Pulse(NfaDisableEvent), NfaDisableEvent); }
    assert IsCallback(Waker(e)) && CanNotify(Skeleton(Waker(e)), e);
  }

  ghost predicate CallNotifies(e: Lock) { exists op :: !IsCallback(op) && CanNotify(Skeleton(op), e) }

  /** The events of congestion, data, connecting and connection requests. */
  predicate Rescuable(e: Lock) {
    e.EventMutex? && (e.kind.Cong? || e.kind.Read? || e.kind.Connecting? || e.kind.ConnRequest?)
  }

  lemma CallNotifiesOnly(e: Lock)
    ensures forall op | !IsCallback(op) && CanNotify(Skeleton(op), e) :: Rescuable(e)
  {
    forall op | !IsCallback(op) && CanNotify(Skeleton(op), e) ensures Rescuable(e) {
      NotifyRules(e);
      ScanNotifies(Scanned(op), e);
      if op.TurnOff? {
        ClientsOffNotify(op.clients, e);
        ServersOffNotify(op.servers, e);
      }
    }
  }

  /** The events that a call or a shutdown can notify too, to set a waiter free: exactly those of congestion, data,
      connecting and connection requests.  A waiter on any other depends on the stack's callback. */
  lemma RescuesExactly(e: Lock)
    ensures CallNotifies(e) <==> Rescuable(e)
  {
    CallNotifiesOnly(e);
    if Rescuable(e) {
      if e.kind.ConnRequest? {
        assert CanNotify(Pulse(e), e) && CanNotify(Then(Pulse(e), FindUnderPeerMutex), e);
        SeekNotifies(FindUnderPeerMutex, Then(Pulse(e), FindUnderPeerMutex), e);
        assert CanNotify(Skeleton(DeregisterServer(e.o)), e);
      } else {
        TurnOffNotifies([e.o], [], e);
        assert CanNotify(Skeleton(TurnOff([e.o], [])), e);
      }
    }
  }

  /** What switching NFC off notifies: the events of every client and of every server's connections. */
  lemma TurnOffNotifies(clients: seq<nat>, servers: seq<(nat, seq<nat>)>, e: Lock)
    ensures CanNotify(Skeleton(TurnOff(clients, servers)), e) <==>
            || OfConns(e, clients) || (e.EventMutex? && e.kind.Connecting? && e.o in clients)
            || exists x :: x in servers && OfConns(e, x.1)
  {
    NotifyRules(e);
    ClientsOffNotify(clients, e);
    ServersOffNotify(servers, e);
  }

  // ---------------------------------------------------------------- nestings

  /** The nestings of the program: shutdown takes the manager's mutex inside the disable event; removal takes it inside
      mDisconnectMutex; the manager's mutex holds a scan's server mutex and shutdown's notifications of clients; a
      server's mutex holds shutdown's notifications of its connections; and mDisconnectMutex those of the DISC
      handler. */
  predicate Nests(l: Lock, l': Lock) {
    || (l.NfaDisableEvent? && l'.PeerMutex?)
    || (l.DisconnectMutex? && l'.PeerMutex?)
    || (l.PeerMutex? && l'.ServerMutex?)
    || (l.PeerMutex? && l'.EventMutex? && (l'.kind.Connecting? || l'.kind.Cong? || l'.kind.Read?))
    || (l.ServerMutex? && l'.EventMutex? && (l'.kind.Cong? || l'.kind.Read?))
    || (l.DisconnectMutex? && l'.EventMutex? && (l'.kind.Disconnecting? || l'.kind.Cong? || l'.kind.Read?))
  }

  lemma {:induction false} ScanNests(servers: seq<nat>, outer: Option<Lock>, l: Lock, l': Lock)
    ensures CanNest(ScanServers(servers), outer, l, l') <==>
            outer == Some(l) && l'.ServerMutex? && l'.o in servers
    decreases |servers|
  {
    NestRules(l, l');
    if servers != [] { ScanNests(servers[1..], outer, l, l'); }
  }

  lemma {:induction false} PulsesNest(conns: seq<nat>, outer: Option<Lock>, l: Lock, l': Lock)
    ensures CanNest(PulseConns(conns), outer, l, l') <==> outer == Some(l) && OfConns(l', conns)
    decreases |conns|
  {
    NestRules(l, l');
    if conns != [] { PulsesNest(conns[1..], outer, l, l'); }
  }

  lemma {:induction false} ClientsOffNest(clients: seq<nat>, outer: Option<Lock>, l: Lock, l': Lock)
    ensures CanNest(ClientsOff(clients), outer, l, l') <==>
            outer == Some(l) &&
            (OfConns(l', clients) || (l'.EventMutex? && l'.kind.Connecting? && l'.o in clients))
    decreases |clients|
  {
    NestRules(l, l');
    if clients != [] {
      PulsesNest([clients[0]], outer, l, l');
      ClientsOffNest(clients[1..], outer, l, l');
    }
  }

  lemma {:induction false} ServersOffNest(servers: seq<(nat, seq<nat>)>, outer: Option<Lock>, l: Lock, l': Lock)
    ensures CanNest(ServersOff(servers), outer, l, l') <==>
            exists x :: x in servers &&
              ((outer == Some(l) && l' == ServerMutex(x.0)) || (l == ServerMutex(x.0) && OfConns(l', x.1)))
    decreases |servers|
  {
    NestRules(l, l');
    if servers != [] {
      PulsesNest(servers[0].1, Some(ServerMutex(servers[0].0)), l, l');
      ServersOffNest(servers[1..], outer, l, l');
    }
  }

  lemma NestsOnlyInTurnOff(clients: seq<nat>, servers: seq<(nat, seq<nat>)>, l: Lock, l': Lock)
    requires CanNest(Skeleton(TurnOff(clients, servers)), None, l, l')
    ensures Nests(l, l')
  {
    NestRules(l, l');
    ClientsOffNest(clients, Some(PeerMutex), l, l');
    ServersOffNest(servers, Some(PeerMutex), l, l');
  }

  lemma NestsOnlyInDisconnect(conn: nat, client: nat, scanned: seq<nat>, l: Lock, l': Lock)
    requires CanNest(Skeleton(Disconnect(conn, client, scanned)), None, l, l')
    ensures Nests(l, l')
  {
    NestRules(l, l');
    ScanNests(scanned, Some(PeerMutex), l, l');
  }

  lemma NestsOnlyInDisc(op: Op, l: Lock, l': Lock)
    requires CanNest(Skeleton(op), None, l, l') && (op.ServerDiscEvt? || op.ClientDiscEvt?)
    ensures Nests(l, l')
  {
    NestRules(l, l');
    ScanNests(Scanned(op), Some(PeerMutex), l, l');
  }

  lemma NestsOnlyInCall(op: Op, l: Lock, l': Lock)
    requires CanNest(Skeleton(op), None, l, l') && IsCall(op) && !op.Disconnect?
    ensures Nests(l, l')
  {
    NestRules(l, l');
    ScanNests(Scanned(op), Some(PeerMutex), l, l');
  }

  lemma NestsOnlyElsewhere(op: Op, l: Lock, l': Lock)
    requires CanNest(Skeleton(op), None, l, l')
    requires !IsCall(op) && !op.TurnOff? && !op.ServerDiscEvt? && !op.ClientDiscEvt?
    ensures Nests(l, l')
  {
    NestRules(l, l');
    ScanNests(Scanned(op), Some(PeerMutex), l, l');
  }

  lemma NestsOnly(op: Op, l: Lock, l': Lock)
    requires CanNest(Skeleton(op), None, l, l')
    ensures Nests(l, l')
  {
    match op
    case TurnOff(clients, servers) => NestsOnlyInTurnOff(clients, servers, l, l');
    case Disconnect(conn, client, scanned) => NestsOnlyInDisconnect(conn, client, scanned, l, l');
    case ServerDiscEvt(_, _) => NestsOnlyInDisc(op, l, l');
    case ClientDiscEvt(_, _, _) => NestsOnlyInDisc(op, l, l');
    case _ => if IsCall(op) { NestsOnlyInCall(op, l, l'); } else { NestsOnlyElsewhere(op, l, l'); }
  }

  /** An operation in which the nesting occurs. */
  function Nester(l: Lock, l': Lock): Op
    requires Nests(l, l')
  {
    match l
    case NfaDisableEvent => TurnOff([], [])
    case DisconnectMutex => if l'.PeerMutex? then Disconnect(0, 0, []) else ServerDiscEvt(l'.o, [])
    case PeerMutex => if l'.ServerMutex? then Send(0, [l'.o]) else TurnOff([l'.o], [])
    case _ => TurnOff([], [(l.o, [l'.o])])
  }

  lemma NesterNests(l: Lock)
    ensures forall l' | Nests(l, l') :: CanNest(Skeleton(Nester(l, l')), None, l, l')
  {
    forall l' | Nests(l, l') ensures CanNest(Skeleton(Nester(l, l')), None, l, l') {
      NestRules(l, l');
      var op := Nester(l, l');
      if op.Send? { ScanNests(op.scanned, Some(PeerMutex), l, l'); }
      if op.TurnOff? {
        ClientsOffNest(op.clients, Some(PeerMutex), l, l');
        ServersOffNest(op.servers, Some(PeerMutex), l, l');
      }
    }
  }

  /** Over all operations and callbacks, one lock is taken directly inside another exactly in these cases. */
  lemma NestsExactly(l: Lock, l': Lock)
    ensures (exists op :: CanNest(Skeleton(op), None, l, l')) <==> Nests(l, l')
  {
    if op :| CanNest(Skeleton(op), None, l, l') { NestsOnly(op, l, l'); }
    if Nests(l, l') {
      NesterNests(l);
      assert CanNest(Skeleton(Nester(l, l')), None, l, l');
    }
  }

  // ---------------------------------------------------------------- mutexes taken

  lemma TakeRules(l: Lock)
    ensures forall a, b :: CanTake(Then(a, b), l) <==> CanTake(a, l) || CanTake(b, l)
    ensures forall a, b :: CanTake(Either(a, b), l) <==> CanTake(a, l) || CanTake(b, l)
    ensures forall a :: CanTake(Loop(a), l) <==> CanTake(a, l)
    ensures forall m, a :: CanTake(Guard(m, a), l) <==> m == l || CanTake(a, l)
  {
  }

  /** The mutexes an operation may take, events aside. */
  predicate Uses(op: Op, l: Lock) {
    match l
    case NfaDisableEvent => op.TurnOff? || op.NfaDisabledEvt?
    case DisconnectMutex => op.Disconnect? || op.ServerDiscEvt? || op.ClientDiscEvt?
    case PeerMutex => !op.EnableListening? && !op.GetNewJniHandle? && !op.SetListenTechEvt? && !op.NfaDisabledEvt?
    case ServerMutex(o) =>
      || o in Scanned(op) || op == Accept(o) || op == ConnReqEvt(o)
      || (op.TurnOff? && exists x :: x in op.servers && x.0 == o)
    case NewJniHandleMutex => op.GetNewJniHandle?
    case EventMutex(_, _) => false
  }

  lemma {:induction false} ScanTakes(servers: seq<nat>, l: Lock)
    ensures CanTake(ScanServers(servers), l) <==> l.ServerMutex? && l.o in servers
    decreases |servers|
  {
    TakeRules(l);
    if servers != [] { ScanTakes(servers[1..], l); }
  }

  lemma {:induction false} PulsesTake(conns: seq<nat>, l: Lock)
    requires !l.EventMutex?
    ensures !CanTake(PulseConns(conns), l)
    decreases |conns|
  {
    TakeRules(l);
    if conns != [] { PulsesTake(conns[1..], l); }
  }

  lemma {:induction false} OffTakes(clients: seq<nat>, servers: seq<(nat, seq<nat>)>, l: Lock)
    requires !l.EventMutex?
    ensures !CanTake(ClientsOff(clients), l)
    ensures CanTake(ServersOff(servers), l) <==> exists x :: x in servers && l == ServerMutex(x.0)
    decreases |clients| + |servers|
  {
    TakeRules(l);
    if clients != [] {
      PulsesTake([clients[0]], l);
      OffTakes(clients[1..], servers, l);
    }
    if servers != [] {
      PulsesTake(servers[0].1, l);
      OffTakes(clients, servers[1..], l);
    }
  }

  predicate Closes(op: Op) { op.Disconnect? || op.ServerDiscEvt? || op.ClientDiscEvt? }

  lemma CloseTakes(op: Op, l: Lock)
    requires !l.EventMutex? && Closes(op)
    ensures CanTake(Skeleton(op), l) <==> Uses(op, l)
  {
    TakeRules(l);
    ScanTakes(Scanned(op), l);
  }

  lemma CallTakes(op: Op, l: Lock)
    requires !l.EventMutex? && IsCall(op) && !Closes(op)
    ensures CanTake(Skeleton(op), l) <==> Uses(op, l)
  {
    TakeRules(l);
    ScanTakes(Scanned(op), l);
  }

  lemma CallbackTakes(op: Op, l: Lock)
    requires !l.EventMutex? && IsCallback(op) && !Closes(op)
    ensures CanTake(Skeleton(op), l) <==> Uses(op, l)
  {
    TakeRules(l);
    ScanTakes(Scanned(op), l);
  }

  lemma SwitchTakes(op: Op, l: Lock)
    requires !l.EventMutex? && !IsCall(op) && !IsCallback(op)
    ensures CanTake(Skeleton(op), l) <==> Uses(op, l)
  {
    TakeRules(l);
    ScanTakes(Scanned(op), l);
    if op.TurnOff? { OffTakes(op.clients, op.servers, l); }
  }

  /** Every operation and callback takes exactly these mutexes: all that touch the tables take the manager's, and a
      removal and a DISC event exclude each other. */
  lemma TakesExactly(op: Op, l: Lock)
    requires !l.EventMutex?
    ensures CanTake(Skeleton(op), l) <==> Uses(op, l)
  {
    if Closes(op) { CloseTakes(op, l); }
    else if IsCall(op) { CallTakes(op, l); }
    else if IsCallback(op) { CallbackTakes(op, l); }
    else { SwitchTakes(op, l); }
  }
}
