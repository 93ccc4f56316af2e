/** Whole API calls of PeerToPeer made one at a time, as functions on the tables together with the set of
    client handles the stack has registered.  What the stack answers while a call waits is a parameter. */
module P2pCalls {
  import opened Common
  import opened P2pTables

  datatype World = World(t: Tables, registered: set<NfaHandle>)

  /** A link the peer or the stack set up: its handle and the peer's parameters. */
  datatype Link = Link(nfa: NfaHandle, miu: nat, rw: nat)

  // ---------------------------------------------------------------- stack events

  function OnRegServer(t: Tables, name: string, h: NfaHandle): Tables {
    var k := ServerByName(t, name);
    if k < |t.servers| then SetServer(t, k, Some(t.servers[k].value.(nfa := h))) else t
  }

  function OnRegClient(w: World, h: NfaHandle): World {
    var k := ClientByNfa(w.t, INVALID);
    var t' := if k < |w.t.clients| then SetClient(w.t, k, Some(w.t.clients[k].value.(nfa := h))) else w.t;
    World(t', if h == INVALID then w.registered else w.registered + {h})
  }

  function OnConnected(t: Tables, client: NfaHandle, link: Link): Tables {
    var k := ClientByNfa(t, client);
    if k < |t.clients| then Bind(t, ClientSlot(k), link.nfa, link.miu, link.rw) else t
  }

  function OnConnReq(t: Tables, server: NfaHandle, link: Link): Tables {
    var k := ServerByNfa(t, server);
    if k >= |t.servers| then t else
      var j := First(t.servers[k].value.conns, (c: Conn) => c.nfa == INVALID);
      if j < |t.servers[k].value.conns| then Bind(t, ServerSlot(k, j), link.nfa, link.miu, link.rw) else t
  }

  function OnDisc(t: Tables, h: NfaHandle): Tables {
    match FindConnByNfa(t, h)
    case None => t
    case Some(s) => Invalidate(t, s)
  }

  // ---------------------------------------------------------------- calls

  /** The stack handle removeConn gives back, if the connection is a registered client's. */
  function Released(t: Tables, jni: JniHandle): set<NfaHandle> {
    match FindConnByJni(t, jni)
    case Some(ClientSlot(i)) =>
      if i < |t.clients| && t.clients[i].Some? && t.clients[i].value.nfa != INVALID
      then {t.clients[i].value.nfa} else {}
    case _ => {}
  }

  function RemoveConnCall(w: World, jni: JniHandle): World {
    World(RemoveConn(w.t, jni), w.registered - Released(w.t, jni))
  }

  function RegisterServerCall(t: Tables, jni: JniHandle, name: string, accepted: bool,
                              reply: Option<NfaHandle>): (Tables, bool)
  {
    var (t1, place) := PlaceServer(t, jni, name);
    match place
    case Full => (t1, false)
    case Existing(_) => (t1, true)
    case Added(i) =>
      var t2 := if accepted && reply.Some? then OnRegServer(t1, name, reply.value) else t1;
      if accepted && i < |t2.servers| && t2.servers[i].Some? && t2.servers[i].value.nfa != INVALID
      then (t2, true) else (RemoveServer(t2, jni), false)
  }

  function CreateClientCall(w: World, jni: JniHandle, miu: nat, rw: nat, reply: Option<NfaHandle>): (World, bool) {
    var (t1, f) := PlaceClient(w.t, jni, miu, rw);
    if f.None? then (w, false) else
      var w1 := if reply.Some? then OnRegClient(World(t1, w.registered), reply.value) else World(t1, w.registered);
      if f.value < |w1.t.clients| && w1.t.clients[f.value].Some? && w1.t.clients[f.value].value.nfa != INVALID
      then (w1, true) else (RemoveConnCall(w1, jni), false)
  }

  function CreateDataLinkConnCall(w: World, jni: JniHandle, accepted: bool, reply: Option<Link>): (World, bool) {
    var k := ClientByJni(w.t, jni);
    if k >= |w.t.clients| then (w, false) else
      var t1 := SetClient(w.t, k, Some(w.t.clients[k].value.(connecting := true)));
      var t2 := if accepted && reply.Some? then OnConnected(t1, w.t.clients[k].value.nfa, reply.value) else t1;
      if accepted && k < |t2.clients| && t2.clients[k].Some? && t2.clients[k].value.conn.nfa != INVALID
      then (World(SetClient(t2, k, Some(t2.clients[k].value.(connecting := false))), w.registered), true)
      else (RemoveConnCall(World(t2, w.registered), jni), false)
  }

  /** disconnectConnOriented: a client that is still connecting is only woken.  An accepted disconnect waits for the
      DISC event of the link. */
  function DisconnectCall(w: World, jni: JniHandle, accepted: bool): (World, bool) {
    var s := FindConnByJni(w.t, jni);
    var k := ClientByJni(w.t, jni);
    if s.None? || ConnAt(w.t, s.value).None? then (w, false)
    else if k < |w.t.clients| && w.t.clients[k].value.connecting then (w, true)
    else
      var h := ConnAt(w.t, s.value).value.nfa;
      var t1 := if h != INVALID && accepted then OnDisc(w.t, h) else w.t;
      (RemoveConnCall(World(t1, w.registered), jni), h != INVALID && accepted)
  }

  /** accept on the server in slot k: the reply is the CONN_REQ event that ends the wait, if one does. */
  function AcceptCall(t: Tables, server: JniHandle, jni: JniHandle, reply: Option<Link>, accepted: bool)
    : (Tables, bool)
  {
    var k := ServerByJni(t, server);
    if k >= |t.servers| then (t, false) else
      var (t1, s) := AllocateConn(t, k, jni);
      if s.None? then (t1, false) else
        var t2 := if reply.Some? then OnConnReq(t1, t.servers[k].value.nfa, reply.value) else t1;
        if ConnAt(t2, s.value).Some? && ConnAt(t2, s.value).value.nfa != INVALID then (t2, accepted)
        else (RemoveServerConn(t2, k, jni), false)
  }

  // ---------------------------------------------------------------- handleNfcOnOff(false)

  /** The first loop, after the clients below i. */
  function ClientsOff(t: Tables, i: nat): Tables {
    if i == 0 then t else Invalidate(ClientsOff(t, i - 1), ClientSlot(i - 1))
  }

  /** unblockAll on the server in slot i, after its blocks below j. */
  function ServerOff(t: Tables, i: nat, j: nat): Tables {
    if j == 0 then t else Invalidate(ServerOff(t, i, j - 1), ServerSlot(i, j - 1))
  }

  lemma {:induction false} EmptyServerOff(t: Tables, i: nat, j: nat)
    requires i >= |t.servers| || t.servers[i].None?
    ensures ServerOff(t, i, j) == t
  {
    if j > 0 { EmptyServerOff(t, i, j - 1); }
  }

  /** The second loop, after the servers below i. */
  function ServersOff(t: Tables, i: nat): Tables {
    if i == 0 then t else ServerOff(ServersOff(t, i - 1), i - 1, MAX_CONNS_PER_SERVER)
  }

  function TurnedOff(t: Tables): Tables {
    ServersOff(ClientsOff(t, MAX_ENTRIES), MAX_ENTRIES)
  }

  function NfaAt(t: Tables, s: Slot): NfaHandle {
    match ConnAt(t, s) case Some(c) => c.nfa case None => INVALID
  }

  /** t' is t with some link handles invalidated: same slots, names, JNI handles, everything else. */
  ghost predicate OnlyInvalidated(t: Tables, t': Tables) {
    && Shaped(t) && Shaped(t')
    && (forall i :: 0 <= i < MAX_ENTRIES ==> t'.servers[i].Some? == t.servers[i].Some?)
    && (forall i :: 0 <= i < MAX_ENTRIES && t.servers[i].Some? ==>
          t'.servers[i].value.(conns := []) == t.servers[i].value.(conns := []))
    && (forall i :: 0 <= i < MAX_ENTRIES ==> t'.clients[i].Some? == t.clients[i].Some?)
    && (forall i :: 0 <= i < MAX_ENTRIES && t.clients[i].Some? ==>
          t'.clients[i].value.(conn := NewConn(0)) == t.clients[i].value.(conn := NewConn(0)))
    && (forall s: Slot :: ConnAt(t', s) == ConnAt(t, s) ||
                          (ConnAt(t, s).Some? && ConnAt(t', s) == Some(ConnAt(t, s).value.(nfa := INVALID))))
  }

  lemma InvalidateOnly(t: Tables, s: Slot)
    requires Shaped(t)
    ensures OnlyInvalidated(t, Invalidate(t, s)) && NfaAt(Invalidate(t, s), s) == INVALID
  {
    if ConnAt(t, s).Some? { SetConnAt(t, s, Some(ConnAt(t, s).value.(nfa := INVALID))); }
  }

  lemma OnlyInvalidatedTwice(t: Tables, t': Tables, t'': Tables)
    requires OnlyInvalidated(t, t') && OnlyInvalidated(t', t'')
    ensures OnlyInvalidated(t, t'')
    ensures forall s: Slot :: NfaAt(t', s) == INVALID ==> NfaAt(t'', s) == INVALID
  {
    forall i | 0 <= i < MAX_ENTRIES && t.servers[i].Some?
      ensures t''.servers[i].value.(conns := []) == t.servers[i].value.(conns := [])
    { assert t'.servers[i].Some?; }
  }

  lemma {:induction false} ClientsOffOnly(t: Tables, i: nat)
    requires Shaped(t)
    ensures OnlyInvalidated(t, ClientsOff(t, i))
    ensures forall k: nat :: k < i ==> NfaAt(ClientsOff(t, i), ClientSlot(k)) == INVALID
  {
    if i > 0 {
      ClientsOffOnly(t, i - 1);
      InvalidateOnly(ClientsOff(t, i - 1), ClientSlot(i - 1));
      OnlyInvalidatedTwice(t, ClientsOff(t, i - 1), ClientsOff(t, i));
    }
  }

  lemma {:induction false} ServerOffOnly(t: Tables, i: nat, j: nat)
    requires Shaped(t)
    ensures OnlyInvalidated(t, ServerOff(t, i, j))
    ensures forall k: nat :: k < j ==> NfaAt(ServerOff(t, i, j), ServerSlot(i, k)) == INVALID
  {
    if j > 0 {
      ServerOffOnly(t, i, j - 1);
      InvalidateOnly(ServerOff(t, i, j - 1), ServerSlot(i, j - 1));
      OnlyInvalidatedTwice(t, ServerOff(t, i, j - 1), ServerOff(t, i, j));
    }
  }

  lemma {:induction false} ServersOffOnly(t: Tables, i: nat)
    requires Shaped(t)
    ensures OnlyInvalidated(t, ServersOff(t, i))
    ensures forall k: nat, j: nat :: k < i ==> NfaAt(ServersOff(t, i), ServerSlot(k, j)) == INVALID
  {
    if i > 0 {
      var t1 := ServersOff(t, i - 1);
      ServersOffOnly(t, i - 1);
      ServerOffOnly(t1, i - 1, MAX_CONNS_PER_SERVER);
      OnlyInvalidatedTwice(t, t1, ServersOff(t, i));
    }
  }

  /** Switching NFC off leaves every connection of every client and server without a stack handle, and
      changes no slot, no JNI handle, no server name and no registration. */
  lemma TurnedOffInvalidatesAll(t: Tables)
    requires Shaped(t)
    ensures OnlyInvalidated(t, TurnedOff(t))
    ensures forall s: Slot :: NfaAt(TurnedOff(t), s) == INVALID
  {
    var t1 := ClientsOff(t, MAX_ENTRIES);
    ClientsOffOnly(t, MAX_ENTRIES);
    ServersOffOnly(t1, MAX_ENTRIES);
    OnlyInvalidatedTwice(t, t1, TurnedOff(t));
    forall s: Slot ensures NfaAt(TurnedOff(t), s) == INVALID {
      match s
      case ClientSlot(k) =>
        if k < MAX_ENTRIES { assert NfaAt(t1, ClientSlot(k)) == INVALID; }
      case ServerSlot(k, j) =>
    }
  }
}
