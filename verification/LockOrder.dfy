/** Who takes which lock in which order.  Threads run lock skeletons: the guarded blocks of the program, the waits
    and notifications inside them, and free choices and loops for everything that depends on data.  Mutexes are
    not recursive; a condition wait releases its mutex, sleeps until notified, and takes the mutex again. */
module LockOrder {
  import opened Common

  /** The event objects of the program; `o` tells apart connections, clients and servers. */
  datatype EventKind = Read | Cong | Disconnecting | Registering | Connecting | RegServer | ConnRequest | SetTech

  datatype Lock =
    | NfaDisableEvent
    | DisconnectMutex
    | PeerMutex
    | ServerMutex(o: nat)
    | NewJniHandleMutex
    | EventMutex(kind: EventKind, o: nat)

  /** The manager's mutex comes before a server's, and both before any event of the manager. */
  function Rank(l: Lock): nat {
    match l
    case NfaDisableEvent => 0
    case DisconnectMutex => 1
    case PeerMutex => 2
    case ServerMutex(_) => 3
    case NewJniHandleMutex => 4
    case EventMutex(_, _) => 4
  }

  datatype Code =
    | Skip
    | Then(first: Code, second: Code)
    | Either(left: Code, right: Code)
    | Loop(body: Code)
    | Guard(l: Lock, inside: Code)
    | Wait(e: Lock)
    | Notify(e: Lock)

  /** The static discipline: inside a guard only higher locks are taken, a notification is made under the event's
      own mutex, and a wait under that mutex and no other. */
  ghost predicate Ordered(c: Code, held: seq<Lock>)
    decreases c
  {
    match c
    case Skip => true
    case Then(a, b) => Ordered(a, held) && Ordered(b, held)
    case Either(a, b) => Ordered(a, held) && Ordered(b, held)
    case Loop(a) => Ordered(a, held)
    case Guard(l, a) => (forall h :: h in held ==> Rank(h) < Rank(l)) && Ordered(a, held + [l])
    case Wait(e) => held == [e]
    case Notify(e) => e in held
  }

  // ---------------------------------------------------------------- threads and steps

  /** What a thread still has to do: run code, leave a guard, or take back the mutex of a wait. */
  datatype Item = Run(c: Code) | Leave(l: Lock) | Retake(e: Lock)

  datatype Thread = Thread(todo: seq<Item>, asleep: bool)

  type System = map<nat, Thread>

  /** The locks a thread holds, outermost first: those it still has to leave, except one to be retaken. */
  ghost function Held(todo: seq<Item>): seq<Lock>
    decreases |todo|
  {
    if todo == [] then []
    else match todo[0]
      case Run(_) => Held(todo[1..])
      case Leave(l) => Held(todo[1..]) + [l]
      case Retake(e) => if Held(todo[1..]) == [e] then [] else Held(todo[1..])
  }

  ghost predicate Free(s: System, l: Lock) {
    forall i :: i in s ==> l !in Held(s[i].todo)
  }

  /** What one thread does in one step. */
  ghost predicate ThreadStep(s: System, t: Thread, t': Thread) {
    && !t.asleep && t.todo != []
    && var rest := t.todo[1..];
       match t.todo[0]
       case Run(Skip) => t' == Thread(rest, false)
       case Run(Then(a, b)) => t' == Thread([Run(a)] + ([Run(b)] + rest), false)
       case Run(Either(a, b)) => t' == Thread([Run(a)] + rest, false) || t' == Thread([Run(b)] + rest, false)
       case Run(Loop(a)) => t' == Thread(rest, false) || t' == Thread([Run(a)] + t.todo, false)
       case Run(Guard(l, a)) => Free(s, l) && t' == Thread([Run(a)] + ([Leave(l)] + rest), false)
       case Run(Wait(e)) => t' == Thread([Retake(e)] + rest, true)
       case Run(Notify(e)) => t' == Thread(rest, false)
       case Leave(l) => t' == Thread(rest, false)
       case Retake(e) => Free(s, e) && t' == Thread(rest, false)
  }

  ghost predicate SleepsOn(t: Thread, e: Lock) {
    t.asleep && t.todo != [] && t.todo[0] == Retake(e)
  }

  ghost predicate Notifies(t: Thread, e: Lock) {
    t.todo != [] && t.todo[0] == Run(Notify(e))
  }

  /** Thread i moves; thread i notifies and thread k wakes up from it; thread k wakes up on its own. */
  datatype Move = Go(i: nat, after: Thread) | Signal(i: nat, after: Thread, e: Lock, k: nat) | Spurious(k: nat)

  ghost predicate Step(s: System, m: Move, s': System) {
    match m
    case Go(i, t') =>
      && i in s && ThreadStep(s, s[i], t') && s' == s[i := t']
      && forall e, k :: Notifies(s[i], e) && k in s ==> !SleepsOn(s[k], e)
    case Signal(i, t', e, k) =>
      && i in s && k in s && ThreadStep(s, s[i], t') && Notifies(s[i], e) && SleepsOn(s[k], e)
      && s' == s[i := t'][k := s[k].(asleep := false)]
    case Spurious(k) => k in s && s[k].asleep && s' == s[k := s[k].(asleep := false)]
  }

  // ---------------------------------------------------------------- what every step keeps

  ghost predicate OrderedTodo(todo: seq<Item>)
    decreases |todo|
  {
    todo == [] ||
    (OrderedTodo(todo[1..]) &&
     match todo[0]
     case Run(c) => Ordered(c, Held(todo[1..]))
     case Leave(l) => forall h :: h in Held(todo[1..]) ==> Rank(h) < Rank(l)
     case Retake(e) => Held(todo[1..]) == [e])
  }

  ghost predicate OrderedThread(t: Thread) {
    && OrderedTodo(t.todo)
    && (t.asleep ==> t.todo != [] && t.todo[0].Retake?)
  }

  ghost predicate Inv(s: System) {
    && (forall i :: i in s ==> OrderedThread(s[i]))
    && (forall i, k, l :: i in s && k in s && i != k ==> !(l in Held(s[i].todo) && l in Held(s[k].todo)))
  }

  /** A moving thread stays disciplined, and comes to hold at most one more lock, which was free. */
  lemma ThreadStepKeeps(s: System, t: Thread, t': Thread)
    requires OrderedThread(t) && ThreadStep(s, t, t')
    ensures OrderedThread(t')
    ensures forall l :: l in Held(t'.todo) ==> l in Held(t.todo) || Free(s, l)
  {
    var rest := t.todo[1..];
    match t.todo[0]
    case Run(Then(a, b)) =>
      var inner := [Run(b)] + rest;
      assert inner[1..] == rest && t'.todo[1..] == inner;
    case Run(Either(a, b)) => assert t'.todo[1..] == rest;
    case Run(Loop(a)) =>
      if t'.todo != rest { assert t'.todo[1..] == t.todo; }
    case Run(Guard(l, a)) =>
      var inner := [Leave(l)] + rest;
      assert inner[1..] == rest && t'.todo[1..] == inner;
    case Run(Wait(e)) => assert t'.todo[1..] == rest;
    case _ =>
  }

  lemma StepKeepsInv(s: System, m: Move, s': System)
    requires Inv(s) && Step(s, m, s')
    ensures Inv(s')
  {
    if !m.Spurious? {
      ThreadStepKeeps(s, s[m.i], m.after);
    }
  }

  /** Any number of threads, each about to run some disciplined code. */
  ghost predicate Initial(s: System) {
    forall i :: i in s ==> exists c: Code :: Ordered(c, []) && s[i] == Thread([Run(c)], false)
  }

  ghost predicate Reachable(s: System, steps: nat)
    decreases steps
  {
    if steps == 0 then Initial(s) else exists p, m :: Reachable(p, steps - 1) && Step(p, m, s)
  }

  lemma {:induction false} ReachableInv(steps: nat)
    ensures forall s: System | Reachable(s, steps) :: Inv(s)
  {
    if steps > 0 { ReachableInv(steps - 1); }
    forall s: System | Reachable(s, steps) ensures Inv(s) {
      if steps == 0 {
        forall i | i in s ensures OrderedThread(s[i]) && Held(s[i].todo) == [] {
          var c: Code :| Ordered(c, []) && s[i] == Thread([Run(c)], false);
          assert [Run(c)][1..] == [];
          assert OrderedTodo([]);
        }
      } else {
        var p, m :| Reachable(p, steps - 1) && Step(p, m, s);
        StepKeepsInv(p, m, s);
      }
    }
  }

  // ---------------------------------------------------------------- no deadlock

  /** The lock a thread is about to take, if that is what it does next. */
  ghost function Wanted(t: Thread): Option<Lock> {
    if t.asleep || t.todo == [] then None
    else match t.todo[0]
      case Run(Guard(l, _)) => Some(l)
      case Retake(e) => Some(e)
      case _ => None
  }

  /** Thread i cannot go on because thread k holds the lock it wants. */
  ghost predicate WaitsFor(s: System, i: nat, k: nat) {
    i in s && k in s && Wanted(s[i]).Some? && Wanted(s[i]).value in Held(s[k].todo)
  }

  /** A thread wants only locks above all those it holds. */
  lemma WantsHigher(t: Thread, l: Lock)
    requires OrderedThread(t) && Wanted(t).Some? && l in Held(t.todo)
    ensures Rank(l) < Rank(Wanted(t).value)
  {
  }

  ghost predicate WaitsAt(s: System, walk: seq<nat>, x: nat)
    requires x + 1 < |walk|
  {
    WaitsFor(s, walk[x], walk[x + 1])
  }

  lemma {:induction false} RanksRise(s: System, walk: seq<nat>, n: nat)
    requires Inv(s) && n < |walk|
    requires forall x :: 0 <= x < n ==> WaitsAt(s, walk, x)
    requires walk[n] in s && Wanted(s[walk[n]]).Some?
    requires walk[0] in s && Wanted(s[walk[0]]).Some?
    ensures Rank(Wanted(s[walk[0]]).value) + n <= Rank(Wanted(s[walk[n]]).value)
  {
    if n > 0 {
      assert WaitsAt(s, walk, n - 1);
      RanksRise(s, walk, n - 1);
      WantsHigher(s[walk[n]], Wanted(s[walk[n - 1]]).value);
    }
  }

  /** In no reachable state do threads wait for each other's locks in a circle, not even a thread for itself:
      any walk that comes back to its first thread has a link where nobody waits. */
  lemma NoWaitCycle(s: System, steps: nat, walk: seq<nat>)
    requires Reachable(s, steps) && |walk| >= 2 && walk[0] == walk[|walk| - 1]
    ensures exists x :: 0 <= x < |walk| - 1 && !WaitsAt(s, walk, x)
  {
    ReachableInv(steps);
    if forall x :: 0 <= x < |walk| - 1 ==> WaitsAt(s, walk, x) {
      assert WaitsAt(s, walk, 0);
      RanksRise(s, walk, |walk| - 1);
    }
  }

  ghost predicate Runnable(t: Thread) {
    !t.asleep && t.todo != []
  }

  ghost predicate CanMove(s: System, i: nat) {
    i in s && exists t' :: ThreadStep(s, s[i], t')
  }

  /** A thread that is not asleep, or one it waits for directly or indirectly, can take a step. */
  lemma {:induction false} SomeoneMoves(s: System, i: nat)
    requires Inv(s) && i in s && Runnable(s[i])
    ensures exists k :: CanMove(s, k)
    decreases if Wanted(s[i]).Some? then 5 - Rank(Wanted(s[i]).value) else 0
  {
    var t := s[i];
    if Wanted(t).Some? && !Free(s, Wanted(t).value) {
      var j :| j in s && Wanted(t).value in Held(s[j].todo);
      HoldersRun(s[j], Wanted(t).value);
      if Wanted(s[j]).Some? {
        WantsHigher(s[j], Wanted(t).value);
        SomeoneMoves(s, j);
      } else {
        Unblocked(s, j);
      }
    } else {
      Unblocked(s, i);
    }
  }

  /** A thread that holds a lock is not asleep: a wait gives up the only lock its thread has. */
  lemma HoldersRun(t: Thread, l: Lock)
    requires OrderedThread(t) && l in Held(t.todo)
    ensures Runnable(t)
  {
  }

  lemma Unblocked(s: System, i: nat)
    requires i in s && Runnable(s[i])
    requires Wanted(s[i]).Some? ==> Free(s, Wanted(s[i]).value)
    ensures CanMove(s, i)
  {
    var t := s[i];
    var rest := t.todo[1..];
    match t.todo[0]
    case Run(Then(a, b)) => assert ThreadStep(s, t, Thread([Run(a)] + ([Run(b)] + rest), false));
    case Run(Either(a, b)) => assert ThreadStep(s, t, Thread([Run(a)] + rest, false));
    case Run(Guard(l, a)) => assert ThreadStep(s, t, Thread([Run(a)] + ([Leave(l)] + rest), false));
    case Run(Wait(e)) => assert ThreadStep(s, t, Thread([Retake(e)] + rest, true));
    case _ => assert ThreadStep(s, t, Thread(rest, false));
  }

  /** In every reachable state in which some thread is neither finished nor asleep in a condition wait, some
      thread can take a step: locks alone never stop the system. */
  lemma NoDeadlock(s: System, steps: nat)
    requires Reachable(s, steps) && exists i :: i in s && Runnable(s[i])
    ensures exists k :: CanMove(s, k)
    ensures exists m, s' :: Step(s, m, s') && !m.Spurious?
  {
    ReachableInv(steps);
    var i :| i in s && Runnable(s[i]);
    SomeoneMoves(s, i);
    var k :| CanMove(s, k);
    MoverSteps(s, k);
  }

  lemma MoverSteps(s: System, k: nat)
    requires CanMove(s, k)
    ensures exists m, s' :: Step(s, m, s') && !m.Spurious?
  {
    var t' :| ThreadStep(s, s[k], t');
    if e, j :| Notifies(s[k], e) && j in s && SleepsOn(s[j], e) {
      assert Step(s, Signal(k, t', e, j), s[k := t'][j := s[j].(asleep := false)]);
    } else {
      assert Step(s, Go(k, t'), s[k := t']);
    }
  }

  // ---------------------------------------------------------------- the program's skeletons

  function Event(k: EventKind, o: nat): Lock { EventMutex(k, o) }

  function Maybe(c: Code): Code { Either(Skip, c) }

  function Pulse(e: Lock): Code { Guard(e, Notify(e)) }

  /** A guarded stack call that is waited for if it was accepted. */
  function CallAndWait(e: Lock): Code { Guard(e, Maybe(Wait(e))) }

  function AndThen(a: Code, b: Code, c: Code): Code { Then(a, Then(b, c)) }

  /** A scan over server objects, each under its own mutex; it may stop early. */
  function ScanServers(servers: seq<nat>): Code {
    if servers == [] then Skip else Maybe(Then(Guard(ServerMutex(servers[0]), Skip), ScanServers(servers[1..])))
  }

  const FindUnderPeerMutex: Code := Guard(PeerMutex, Skip)

  function FindConnection(servers: seq<nat>): Code { Guard(PeerMutex, ScanServers(servers)) }

  function RemoveConn(servers: seq<nat>): Code { Guard(PeerMutex, ScanServers(servers)) }

  function PulseConns(conns: seq<nat>): Code {
    if conns == [] then Skip
    else Then(Maybe(Then(Pulse(Event(Cong, conns[0])), Pulse(Event(Read, conns[0])))), PulseConns(conns[1..]))
  }

  function ClientsOff(clients: seq<nat>): Code {
    if clients == [] then Skip
    else Then(Either(Pulse(Event(Connecting, clients[0])), PulseConns([clients[0]])), ClientsOff(clients[1..]))
  }

  function ServersOff(servers: seq<(nat, seq<nat>)>): Code {
    if servers == [] then Skip
    else Then(Maybe(Guard(ServerMutex(servers[0].0), PulseConns(servers[0].1))), ServersOff(servers[1..]))
  }

  /** The operations, with the objects each of them touches. */
  datatype Op =
    | RegisterServer(srv: nat)
    | DeregisterServer(srv: nat)
    | Accept(srv: nat)
    | CreateClient(client: nat, scanned: seq<nat>)
    | CreateDataLinkConn(client: nat, scanned: seq<nat>)
    | Send(conn: nat, scanned: seq<nat>)
    | Receive(conn: nat, scanned: seq<nat>)
    | Disconnect(conn: nat, client: nat, scanned: seq<nat>)
    | GetRemoteParameter(scanned: seq<nat>)
    | EnableListening
    | TurnOn
    | TurnOff(clients: seq<nat>, servers: seq<(nat, seq<nat>)>)
    | GetNewJniHandle
    | RegServerEvt(srv: nat)
    | ConnReqEvt(srv: nat)
    | ServerDiscEvt(conn: nat, scanned: seq<nat>)
    | ClientDiscEvt(conn: nat, client: nat, scanned: seq<nat>)
    | DataEvt(conn: nat, scanned: seq<nat>)
    | CongestEvt(conn: nat, scanned: seq<nat>)
    | RegClientEvt(client: nat)
    | ConnectedEvt(client: nat)
    | ClientActivatedEvt
    | SetListenTechEvt
    | NfaDisabledEvt

  function DiscHandler(conn: nat): Code {
    Guard(DisconnectMutex,
        AndThen(Pulse(Event(Disconnecting, conn)), Pulse(Event(Cong, conn)), Pulse(Event(Read, conn))))
  }

  function Skeleton(op: Op): Code {
    match op
    case RegisterServer(srv) =>
      Then(FindUnderPeerMutex, Maybe(Then(CallAndWait(Event(RegServer, srv)), Maybe(FindUnderPeerMutex))))
    case DeregisterServer(srv) =>
      Then(FindUnderPeerMutex, Maybe(Then(Pulse(Event(ConnRequest, srv)), FindUnderPeerMutex)))
    case Accept(srv) =>
      Then(FindUnderPeerMutex,
           Maybe(Then(Guard(ServerMutex(srv), Skip),
                      Maybe(Then(Guard(Event(ConnRequest, srv), Wait(Event(ConnRequest, srv))),
                          Maybe(Guard(ServerMutex(srv), Skip)))))))
    case CreateClient(client, scanned) =>
      Then(FindUnderPeerMutex,
           Maybe(Then(Guard(Event(Registering, client), Wait(Event(Registering, client))), Maybe(RemoveConn(scanned)))))
    case CreateDataLinkConn(client, scanned) =>
      Then(FindUnderPeerMutex, Maybe(Then(CallAndWait(Event(Connecting, client)), Maybe(RemoveConn(scanned)))))
    case Send(conn, scanned) => Then(FindConnection(scanned), Maybe(Loop(CallAndWait(Event(Cong, conn)))))
    case Receive(conn, scanned) =>
      Then(FindConnection(scanned), Loop(Guard(Event(Read, conn), Wait(Event(Read, conn)))))
    case Disconnect(conn, client, scanned) =>
      Then(FindConnection(scanned),
           Maybe(Then(FindUnderPeerMutex,
                      Either(Pulse(Event(Connecting, client)),
                             AndThen(Then(Pulse(Event(Cong, conn)), Pulse(Event(Read, conn))),
                                     Maybe(CallAndWait(Event(Disconnecting, conn))),
                                     Guard(DisconnectMutex, RemoveConn(scanned)))))))
    case GetRemoteParameter(scanned) => FindConnection(scanned)
    case EnableListening => Maybe(CallAndWait(Event(SetTech, 0)))
    case TurnOn => FindUnderPeerMutex
    case TurnOff(clients, servers) =>
      // doDeinitialize switches the manager off while it still guards the stack's disable event
      Guard(NfaDisableEvent,
          Maybe(Then(Wait(NfaDisableEvent), Guard(PeerMutex, Then(ClientsOff(clients), ServersOff(servers))))))
    case GetNewJniHandle => Guard(NewJniHandleMutex, Skip)
    case RegServerEvt(srv) => Then(FindUnderPeerMutex, Maybe(Pulse(Event(RegServer, srv))))
    case ConnReqEvt(srv) =>
      Then(FindUnderPeerMutex, Maybe(Then(Guard(ServerMutex(srv), Skip), Maybe(Pulse(Event(ConnRequest, srv))))))
    case ServerDiscEvt(conn, scanned) => Then(FindConnection(scanned), Maybe(DiscHandler(conn)))
    case ClientDiscEvt(conn, client, scanned) =>
      Then(FindConnection(scanned),
          Either(DiscHandler(conn), Then(FindUnderPeerMutex, Maybe(Pulse(Event(Connecting, client))))))
    case DataEvt(conn, scanned) => Then(FindConnection(scanned), Maybe(Pulse(Event(Read, conn))))
    case CongestEvt(conn, scanned) => Then(FindConnection(scanned), Maybe(Pulse(Event(Cong, conn))))
    case RegClientEvt(client) => Then(FindUnderPeerMutex, Maybe(Pulse(Event(Registering, client))))
    case ConnectedEvt(client) => Then(FindUnderPeerMutex, Maybe(Pulse(Event(Connecting, client))))
    case ClientActivatedEvt => FindUnderPeerMutex
    case SetListenTechEvt => Pulse(Event(SetTech, 0))
    case NfaDisabledEvt => Pulse(NfaDisableEvent)
  }

  ghost predicate Below(held: seq<Lock>, r: nat) {
    forall h :: h in held ==> Rank(h) < r
  }

  lemma MaybeOrdered(c: Code, held: seq<Lock>)
    requires Ordered(c, held)
    ensures Ordered(Maybe(c), held)
  {
  }

  lemma PulseOrdered(e: Lock, held: seq<Lock>)
    requires Below(held, Rank(e))
    ensures Ordered(Pulse(e), held)
  {
  }

  lemma CallAndWaitOrdered(e: Lock)
    ensures Ordered(CallAndWait(e), []) && Ordered(Guard(e, Wait(e)), [])
  {
    assert [] + [e] == [e];
    MaybeOrdered(Wait(e), [e]);
  }

  lemma GuardOrdered(l: Lock, c: Code, held: seq<Lock>)
    requires Below(held, Rank(l)) && Ordered(c, held + [l])
    ensures Ordered(Guard(l, c), held)
  {
  }

  lemma {:induction false} ScanOrdered(servers: seq<nat>)
    ensures forall held | Below(held, 3) :: Ordered(ScanServers(servers), held)
    decreases |servers|
  {
    if servers != [] {
      ScanOrdered(servers[1..]);
      forall held | Below(held, 3) ensures Ordered(ScanServers(servers), held) {
        GuardOrdered(ServerMutex(servers[0]), Skip, held);
        MaybeOrdered(Then(Guard(ServerMutex(servers[0]), Skip), ScanServers(servers[1..])), held);
      }
    }
  }

  lemma PeerScanOrdered(servers: seq<nat>, held: seq<Lock>)
    requires Below(held, 2)
    ensures Ordered(Guard(PeerMutex, ScanServers(servers)), held) && Ordered(FindUnderPeerMutex, held)
  {
    ScanOrdered(servers);
    GuardOrdered(PeerMutex, ScanServers(servers), held);
    GuardOrdered(PeerMutex, Skip, held);
  }

  lemma PulseBothOrdered(conn: nat, held: seq<Lock>)
    requires Below(held, 4)
    ensures Ordered(Then(Pulse(Event(Cong, conn)), Pulse(Event(Read, conn))), held)
  {
    PulseOrdered(Event(Cong, conn), held);
    PulseOrdered(Event(Read, conn), held);
  }

  lemma {:induction false} PulsesOrdered(conns: seq<nat>)
    ensures forall held | Below(held, 4) :: Ordered(PulseConns(conns), held)
    decreases |conns|
  {
    if conns != [] {
      PulsesOrdered(conns[1..]);
      forall held | Below(held, 4) ensures Ordered(PulseConns(conns), held) {
        PulseBothOrdered(conns[0], held);
        MaybeOrdered(Then(Pulse(Event(Cong, conns[0])), Pulse(Event(Read, conns[0]))), held);
      }
    }
  }

  lemma {:induction false} ClientsOffOrdered(clients: seq<nat>)
    ensures forall held | Below(held, 4) :: Ordered(ClientsOff(clients), held)
    decreases |clients|
  {
    if clients != [] {
      ClientsOffOrdered(clients[1..]);
      forall held | Below(held, 4) ensures Ordered(ClientsOff(clients), held) {
        PulsesOrdered([clients[0]]);
        PulseOrdered(Event(Connecting, clients[0]), held);
        assert Ordered(Either(Pulse(Event(Connecting, clients[0])), PulseConns([clients[0]])), held);
      }
    }
  }

  lemma {:induction false} ServersOffOrdered(servers: seq<(nat, seq<nat>)>)
    ensures forall held | Below(held, 3) :: Ordered(ServersOff(servers), held)
    decreases |servers|
  {
    if servers != [] {
      var l := ServerMutex(servers[0].0);
      ServersOffOrdered(servers[1..]);
      forall held | Below(held, 3) ensures Ordered(ServersOff(servers), held) {
        PulsesOrdered(servers[0].1);
        assert Ordered(PulseConns(servers[0].1), held + [l]);
        GuardOrdered(l, PulseConns(servers[0].1), held);
        MaybeOrdered(Guard(l, PulseConns(servers[0].1)), held);
      }
    }
  }

  lemma DiscHandlerOrdered(conn: nat)
    ensures Ordered(DiscHandler(conn), [])
  {
    var held := [] + [DisconnectMutex];
    PulseOrdered(Event(Disconnecting, conn), held);
    PulseBothOrdered(conn, held);
    GuardOrdered(DisconnectMutex,
        AndThen(Pulse(Event(Disconnecting, conn)), Pulse(Event(Cong, conn)), Pulse(Event(Read, conn))), []);
  }

  /** The part of disconnectConnOriented after an established connection was found. */
  lemma CloseOrdered(conn: nat, scanned: seq<nat>)
    ensures Ordered(AndThen(Then(Pulse(Event(Cong, conn)), Pulse(Event(Read, conn))),
                            Maybe(CallAndWait(Event(Disconnecting, conn))),
                            Guard(DisconnectMutex, RemoveConn(scanned))), [])
  {
    PulseBothOrdered(conn, []);
    CallAndWaitOrdered(Event(Disconnecting, conn));
    MaybeOrdered(CallAndWait(Event(Disconnecting, conn)), []);
    PeerScanOrdered(scanned, [] + [DisconnectMutex]);
    GuardOrdered(DisconnectMutex, RemoveConn(scanned), []);
  }

  lemma TurnOffOrdered(clients: seq<nat>, servers: seq<(nat, seq<nat>)>)
    ensures Ordered(Guard(PeerMutex, Then(ClientsOff(clients), ServersOff(servers))), [NfaDisableEvent])
  {
    var held := [NfaDisableEvent] + [PeerMutex];
    ClientsOffOrdered(clients);
    ServersOffOrdered(servers);
    GuardOrdered(PeerMutex, Then(ClientsOff(clients), ServersOff(servers)), [NfaDisableEvent]);
  }

  /** doDeinitialize: wait for the stack to be disabled, then switch off, all under one event's mutex. */
  lemma DeinitializeOrdered(off: Code)
    requires Ordered(off, [NfaDisableEvent])
    ensures Ordered(Guard(NfaDisableEvent, Maybe(Then(Wait(NfaDisableEvent), off))), [])
  {
    assert Ordered(Then(Wait(NfaDisableEvent), off), [NfaDisableEvent]);
    MaybeOrdered(Then(Wait(NfaDisableEvent), off), [NfaDisableEvent]);
    assert [] + [NfaDisableEvent] == [NfaDisableEvent];
    GuardOrdered(NfaDisableEvent, Maybe(Then(Wait(NfaDisableEvent), off)), []);
  }

  /** Look something up, and then perhaps act on it. */
  lemma SeekOrdered(find: Code, act: Code)
    requires Ordered(find, []) && Ordered(act, [])
    ensures Ordered(Then(find, Maybe(act)), []) && Ordered(Maybe(act), [])
  {
    MaybeOrdered(act, []);
  }

  lemma SeekPulseOrdered(e: Lock, scanned: seq<nat>)
    requires Rank(e) == 4
    ensures Ordered(Then(FindConnection(scanned), Maybe(Pulse(e))), [])
    ensures Ordered(Then(FindUnderPeerMutex, Maybe(Pulse(e))), [])
  {
    PeerScanOrdered(scanned, []);
    PulseOrdered(e, []);
    SeekOrdered(FindConnection(scanned), Pulse(e));
    SeekOrdered(FindUnderPeerMutex, Pulse(e));
  }

  /** A waited-for stack call, perhaps followed by undoing what led to it. */
  lemma CallUndoOrdered(e: Lock, undo: Code)
    requires Rank(e) == 4 && Ordered(undo, [])
    ensures Ordered(Then(FindUnderPeerMutex, Maybe(Then(CallAndWait(e), Maybe(undo)))), [])
    ensures Ordered(Then(FindUnderPeerMutex, Maybe(Then(Guard(e, Wait(e)), Maybe(undo)))), [])
    ensures Ordered(Then(Guard(e, Wait(e)), Maybe(undo)), [])
  {
    CallAndWaitOrdered(e);
    PeerScanOrdered([], []);
    MaybeOrdered(undo, []);
    SeekOrdered(FindUnderPeerMutex, Then(CallAndWait(e), Maybe(undo)));
    SeekOrdered(FindUnderPeerMutex, Then(Guard(e, Wait(e)), Maybe(undo)));
  }

  lemma ConnReqOrdered()
    ensures forall srv :: Ordered(Skeleton(ConnReqEvt(srv)), [])
  {
    forall srv ensures Ordered(Skeleton(ConnReqEvt(srv)), []) {
      PeerScanOrdered([], []);
      PulseOrdered(Event(ConnRequest, srv), []);
      GuardOrdered(ServerMutex(srv), Skip, []);
      SeekOrdered(Guard(ServerMutex(srv), Skip), Pulse(Event(ConnRequest, srv)));
      SeekOrdered(FindUnderPeerMutex, Then(Guard(ServerMutex(srv), Skip), Maybe(Pulse(Event(ConnRequest, srv)))));
    }
  }

  lemma AcceptOrdered()
    ensures forall srv :: Ordered(Skeleton(Accept(srv)), [])
  {
    forall srv ensures Ordered(Skeleton(Accept(srv)), []) {
      PeerScanOrdered([], []);
      GuardOrdered(ServerMutex(srv), Skip, []);
      CallUndoOrdered(Event(ConnRequest, srv), Guard(ServerMutex(srv), Skip));
      var wait := Then(Guard(Event(ConnRequest, srv), Wait(Event(ConnRequest, srv))),
          Maybe(Guard(ServerMutex(srv), Skip)));
      SeekOrdered(Guard(ServerMutex(srv), Skip), wait);
      SeekOrdered(FindUnderPeerMutex, Then(Guard(ServerMutex(srv), Skip), Maybe(wait)));
    }
  }

  lemma DisconnectOrdered()
    ensures forall conn, client, scanned :: Ordered(Skeleton(Disconnect(conn, client, scanned)), [])
  {
    forall conn, client, scanned ensures Ordered(Skeleton(Disconnect(conn, client, scanned)), []) {
      PeerScanOrdered(scanned, []);
      PulseOrdered(Event(Connecting, client), []);
      CloseOrdered(conn, scanned);
      var close := AndThen(Then(Pulse(Event(Cong, conn)), Pulse(Event(Read, conn))),
                           Maybe(CallAndWait(Event(Disconnecting, conn))), Guard(DisconnectMutex, RemoveConn(scanned)));
      assert Ordered(Either(Pulse(Event(Connecting, client)), close), []);
      SeekOrdered(FindConnection(scanned), Then(FindUnderPeerMutex, Either(Pulse(Event(Connecting, client)), close)));
    }
  }

  lemma ServerDiscOrdered()
    ensures forall conn, scanned :: Ordered(Skeleton(ServerDiscEvt(conn, scanned)), [])
  {
    forall conn, scanned ensures Ordered(Skeleton(ServerDiscEvt(conn, scanned)), []) {
      PeerScanOrdered(scanned, []);
      DiscHandlerOrdered(conn);
      SeekOrdered(FindConnection(scanned), DiscHandler(conn));
    }
  }

  lemma ClientDiscOrdered()
    ensures forall conn, client, scanned :: Ordered(Skeleton(ClientDiscEvt(conn, client, scanned)), [])
  {
    forall conn, client, scanned ensures Ordered(Skeleton(ClientDiscEvt(conn, client, scanned)), []) {
      PeerScanOrdered(scanned, []);
      DiscHandlerOrdered(conn);
      SeekPulseOrdered(Event(Connecting, client), []);
      assert Ordered(Either(DiscHandler(conn), Then(FindUnderPeerMutex, Maybe(Pulse(Event(Connecting, client))))), []);
    }
  }

  predicate IsCall(op: Op) {
    op.RegisterServer? || op.DeregisterServer? || op.Accept? || op.CreateClient? || op.CreateDataLinkConn? ||
    op.Send? || op.Receive? || op.Disconnect?
  }

  /** The calls application threads make. */
  lemma CallOrdered(op: Op)
    requires IsCall(op)
    ensures Ordered(Skeleton(op), [])
  {
    PeerScanOrdered([], []);
    match op
    case RegisterServer(srv) => CallUndoOrdered(Event(RegServer, srv), FindUnderPeerMutex);
    case DeregisterServer(srv) =>
      PulseOrdered(Event(ConnRequest, srv), []);
      SeekOrdered(FindUnderPeerMutex, Then(Pulse(Event(ConnRequest, srv)), FindUnderPeerMutex));
    case Accept(srv) => AcceptOrdered();
    case CreateClient(client, scanned) =>
      PeerScanOrdered(scanned, []);
      CallUndoOrdered(Event(Registering, client), RemoveConn(scanned));
    case CreateDataLinkConn(client, scanned) =>
      PeerScanOrdered(scanned, []);
      CallUndoOrdered(Event(Connecting, client), RemoveConn(scanned));
    case Send(conn, scanned) =>
      PeerScanOrdered(scanned, []);
      CallAndWaitOrdered(Event(Cong, conn));
      SeekOrdered(FindConnection(scanned), Loop(CallAndWait(Event(Cong, conn))));
    case Receive(conn, scanned) =>
      PeerScanOrdered(scanned, []);
      CallAndWaitOrdered(Event(Read, conn));
    case Disconnect(conn, client, scanned) => DisconnectOrdered();
  }

  lemma SwitchOrdered()
    ensures forall op: Op | op.EnableListening? || op.TurnOn? || op.TurnOff? || op.GetNewJniHandle? ::
              Ordered(Skeleton(op), [])
  {
    forall op: Op | op.EnableListening? || op.TurnOn? || op.TurnOff? || op.GetNewJniHandle?
      ensures Ordered(Skeleton(op), [])
    {
      match op
      case EnableListening =>
        CallAndWaitOrdered(Event(SetTech, 0));
        SeekOrdered(Skip, CallAndWait(Event(SetTech, 0)));
      case TurnOn => PeerScanOrdered([], []);
      case TurnOff(clients, servers) =>
        TurnOffOrdered(clients, servers);
        DeinitializeOrdered(Guard(PeerMutex, Then(ClientsOff(clients), ServersOff(servers))));
      case GetNewJniHandle => GuardOrdered(NewJniHandleMutex, Skip, []);
    }
  }

  /** Every operation of the manager and every stack callback keeps the discipline. */
  lemma SkeletonOrdered(op: Op)
    ensures Ordered(Skeleton(op), [])
  {
    match op
    case RegServerEvt(srv) => SeekPulseOrdered(Event(RegServer, srv), []);
    case ConnReqEvt(srv) => ConnReqOrdered();
    case ServerDiscEvt(conn, scanned) => ServerDiscOrdered();
    case ClientDiscEvt(conn, client, scanned) => ClientDiscOrdered();
    case DataEvt(conn, scanned) => SeekPulseOrdered(Event(Read, conn), scanned);
    case CongestEvt(conn, scanned) => SeekPulseOrdered(Event(Cong, conn), scanned);
    case RegClientEvt(client) => SeekPulseOrdered(Event(Registering, client), []);
    case ConnectedEvt(client) => SeekPulseOrdered(Event(Connecting, client), []);
    case GetRemoteParameter(scanned) => PeerScanOrdered(scanned, []);
    case ClientActivatedEvt => GuardOrdered(PeerMutex, Skip, []);
    case SetListenTechEvt => PulseOrdered(Event(SetTech, 0), []);
    case NfaDisabledEvt => PulseOrdered(NfaDisableEvent, []);
    case _ =>
      if op.EnableListening? || op.TurnOn? || op.TurnOff? || op.GetNewJniHandle? { SwitchOrdered(); }
      else { CallOrdered(op); }
  }

  function Script(ops: seq<Op>): Code {
    if ops == [] then Skip else Then(Skeleton(ops[0]), Script(ops[1..]))
  }

  lemma {:induction false} ScriptOrdered(ops: seq<Op>)
    ensures Ordered(Script(ops), [])
    decreases |ops|
  {
    if ops != [] {
      SkeletonOrdered(ops[0]);
      ScriptOrdered(ops[1..]);
    }
  }

  /** Any number of threads, each calling any sequence of the manager's operations, never deadlock on locks:
      no circle of waiting threads, and as long as one of them is awake and unfinished, one can move. */
  lemma ManagerNeverDeadlocks(start: map<nat, seq<Op>>, s0: System, s: System, steps: nat, walk: seq<nat>)
    requires forall i :: i in s0 <==> i in start
    requires forall i :: i in start ==> s0[i] == Thread([Run(Script(start[i]))], false)
    requires ReachableFrom(s0, s, steps)
    ensures |walk| >= 2 && walk[0] == walk[|walk| - 1] ==> exists x :: 0 <= x < |walk| - 1 && !WaitsAt(s, walk, x)
    ensures (exists i :: i in s && Runnable(s[i])) ==> exists k :: CanMove(s, k)
  {
    forall i | i in s0 ensures exists c: Code :: Ordered(c, []) && s0[i] == Thread([Run(c)], false) {
      ScriptOrdered(start[i]);
    }
    FromInitial(s0, s, steps);
    if |walk| >= 2 && walk[0] == walk[|walk| - 1] { NoWaitCycle(s, steps, walk); }
    if exists i :: i in s && Runnable(s[i]) { NoDeadlock(s, steps); }
  }

  ghost predicate ReachableFrom(s0: System, s: System, steps: nat)
    decreases steps
  {
    if steps == 0 then s == s0 else exists p, m :: ReachableFrom(s0, p, steps - 1) && Step(p, m, s)
  }

  lemma {:induction false} FromInitial(s0: System, s: System, steps: nat)
    requires Initial(s0) && ReachableFrom(s0, s, steps)
    ensures Reachable(s, steps)
    decreases steps
  {
    if steps > 0 {
      var p, m :| ReachableFrom(s0, p, steps - 1) && Step(p, m, s);
      FromInitial(s0, p, steps - 1);
    }
  }
}
