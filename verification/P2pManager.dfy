/** The connection manager as the program keeps it: objects in two fixed arrays, searched and changed in
    place.  `tables` mirrors the arrays as a value; every method is one section under PeerToPeer::mMutex
    (or one stack callback), and is proved to change `tables` as the functions of P2pTables say. */
module P2pManager {
  import opened Common
  import opened P2pTables
  import opened P2pCalls

  class NfaConn {
    var mNfaConnHandle: NfaHandle
    var mJniHandle: JniHandle
    var mMaxInfoUnit: nat
    var mRecvWindow: nat
    var mRemoteMaxInfoUnit: nat
    var mRemoteRecvWindow: nat
    ghost const home: Slot  // the slot the object was made for; it never moves

    constructor (jni: JniHandle, ghost home: Slot)
      ensures Val() == NewConn(jni) && this.home == home
    {
      mNfaConnHandle, mJniHandle := INVALID, jni;
      mMaxInfoUnit, mRecvWindow, mRemoteMaxInfoUnit, mRemoteRecvWindow := 0, 0, 0, 0;
      this.home := home;
    }

    function Val(): Conn
      reads this
    {
      Conn(mNfaConnHandle, mJniHandle, mMaxInfoUnit, mRecvWindow, mRemoteMaxInfoUnit, mRemoteRecvWindow)
    }
  }

  class P2pClient {
    var mNfaP2pClientHandle: NfaHandle
    var mIsConnecting: bool
    const mClientConn: NfaConn

    constructor (ghost home: Slot)
      ensures fresh(mClientConn)
      ensures mNfaP2pClientHandle == INVALID && !mIsConnecting
      ensures mClientConn.Val() == NewConn(0) && mClientConn.home == home
    {
      mNfaP2pClientHandle, mIsConnecting := INVALID, false;
      mClientConn := new NfaConn(0, home);
    }

    function Val(): Client
      reads this, mClientConn
    {
      Client(mNfaP2pClientHandle, mIsConnecting, mClientConn.Val())
    }
  }

  class P2pServer {
    var mNfaP2pServerHandle: NfaHandle
    var mJniHandle: JniHandle
    const mServiceName: string
    const mServerConn: array<NfaConn?>
    ghost const home: nat

    constructor (jni: JniHandle, name: string, ghost home: nat)
      ensures fresh(mServerConn) && mServerConn.Length == MAX_CONNS_PER_SERVER
      ensures forall j :: 0 <= j < MAX_CONNS_PER_SERVER ==> mServerConn[j] == null
      ensures mNfaP2pServerHandle == INVALID && mJniHandle == jni && mServiceName == name && this.home == home
    {
      mNfaP2pServerHandle, mJniHandle, mServiceName := INVALID, jni, name;
      mServerConn := new NfaConn?[MAX_CONNS_PER_SERVER](_ => null);
      this.home := home;
    }
  }

  class PeerToPeer {
    const mServers: array<P2pServer?>
    const mClients: array<P2pClient?>
    var mNextJniHandle: JniHandle
    ghost var tables: Tables
    ghost var registered: set<NfaHandle>  // client handles the stack holds for us
    ghost var Repr: set<object>

    /** The object in a connection slot agrees with the mirrored value. */
    ghost predicate ConnAgrees(c: NfaConn?, v: Option<Conn>, s: Slot)
      reads this, Repr
    {
      if c == null then v.None? else c in Repr && c.home == s && v == Some(c.Val())
    }

    ghost predicate ClientAgrees(i: nat)
      requires i < mClients.Length && i < |tables.clients|
      reads this, mClients, Repr
    {
      var c, v := mClients[i], tables.clients[i];
      if c == null then v.None? else
        c in Repr && v.Some? && v.value.nfa == c.mNfaP2pClientHandle && v.value.connecting == c.mIsConnecting
        && ConnAgrees(c.mClientConn, Some(v.value.conn), ClientSlot(i))
    }

    ghost predicate ServerAgrees(i: nat)
      requires i < mServers.Length && i < |tables.servers|
      reads this, mServers, Repr
    {
      var s, v := mServers[i], tables.servers[i];
      if s == null then v.None? else
        && s in Repr && s.mServerConn in Repr && s.home == i
        && s.mServerConn.Length == MAX_CONNS_PER_SERVER
        && v.Some? && |v.value.conns| == MAX_CONNS_PER_SERVER
        && v.value.nfa == s.mNfaP2pServerHandle && v.value.jni == s.mJniHandle && v.value.name == s.mServiceName
        && forall j :: 0 <= j < MAX_CONNS_PER_SERVER ==>
             ConnAgrees(s.mServerConn[j], v.value.conns[j], ServerSlot(i, j))
    }

    ghost predicate Valid()
      reads this, Repr
      ensures Valid() ==> this in Repr
    {
      && this in Repr && mServers in Repr && mClients in Repr
      && mServers.Length == MAX_ENTRIES && mClients.Length == MAX_ENTRIES
      && Shaped(tables)
      && (forall i :: 0 <= i < MAX_ENTRIES ==> ClientAgrees(i))
      && (forall i :: 0 <= i < MAX_ENTRIES ==> ServerAgrees(i))
      && (forall i, k :: 0 <= i < k < MAX_ENTRIES && mServers[i] != null && mServers[k] != null ==>
            mServers[i].mServerConn != mServers[k].mServerConn)
      && (forall i, k :: 0 <= i < k < MAX_ENTRIES && mClients[i] != null ==> mClients[i] != mClients[k])
      && (forall i :: 0 <= i < MAX_ENTRIES && mServers[i] != null ==>
            mServers[i].mServerConn as object != mServers && mServers[i].mServerConn as object != mClients)
      && mServers as object != mClients
    }

    constructor ()
      ensures Valid() && fresh(Repr) && mNextJniHandle == 1
      ensures tables == EmptyTables() && registered == {}
    {
      mServers := new P2pServer?[MAX_ENTRIES](_ => null);
      mClients := new P2pClient?[MAX_ENTRIES](_ => null);
      mNextJniHandle := 1;
      tables, registered := EmptyTables(), {};
      new;
      Repr := {this, mServers, mClients};
    }

    /** getNewJniHandle: the counter wraps after 2^32 calls. */
    method GetNewJniHandle() returns (newHandle: JniHandle)
      modifies this`mNextJniHandle
      ensures newHandle == old(mNextJniHandle)
      ensures mNextJniHandle == (old(mNextJniHandle) + 1) % 0x1_0000_0000
    {
      newHandle := mNextJniHandle;
      mNextJniHandle := (mNextJniHandle + 1) % 0x1_0000_0000;
    }

    // -------------------------------------------------------------- lookups

    method FindServerByNfa(nfa: NfaHandle) returns (i: nat)
      requires Valid()
      ensures i == ServerByNfa(tables, nfa)
    {
      i := 0;
      while i < MAX_ENTRIES
        invariant i <= MAX_ENTRIES
        invariant ServerByNfa(tables, nfa) == FirstFrom(tables.servers, (s: Server) => s.nfa == nfa, i)
      {
        assert ServerAgrees(i);
        if mServers[i] != null && mServers[i].mNfaP2pServerHandle == nfa { return; }
        i := i + 1;
      }
    }

    method FindServerByJni(jni: JniHandle) returns (i: nat)
      requires Valid()
      ensures i == ServerByJni(tables, jni)
    {
      i := 0;
      while i < MAX_ENTRIES
        invariant i <= MAX_ENTRIES
        invariant ServerByJni(tables, jni) == FirstFrom(tables.servers, (s: Server) => s.jni == jni, i)
      {
        assert ServerAgrees(i);
        if mServers[i] != null && mServers[i].mJniHandle == jni { return; }
        i := i + 1;
      }
    }

    method FindServerByName(name: string) returns (i: nat)
      requires Valid()
      ensures i == ServerByName(tables, name)
    {
      i := 0;
      while i < MAX_ENTRIES
        invariant i <= MAX_ENTRIES
        invariant ServerByName(tables, name) == FirstFrom(tables.servers, (s: Server) => s.name == name, i)
      {
        assert ServerAgrees(i);
        if mServers[i] != null && mServers[i].mServiceName == name { return; }
        i := i + 1;
      }
    }

    method FindClientByNfa(nfa: NfaHandle) returns (i: nat)
      requires Valid()
      ensures i == ClientByNfa(tables, nfa)
    {
      i := 0;
      while i < MAX_ENTRIES
        invariant i <= MAX_ENTRIES
        invariant ClientByNfa(tables, nfa) == FirstFrom(tables.clients, (c: Client) => c.nfa == nfa, i)
      {
        assert ClientAgrees(i);
        if mClients[i] != null && mClients[i].mNfaP2pClientHandle == nfa { return; }
        i := i + 1;
      }
    }

    method FindClientByJni(jni: JniHandle) returns (i: nat)
      requires Valid()
      ensures i == ClientByJni(tables, jni)
    {
      i := 0;
      while i < MAX_ENTRIES
        invariant i <= MAX_ENTRIES
        invariant ClientByJni(tables, jni) == FirstFrom(tables.clients, (c: Client) => c.conn.jni == jni, i)
      {
        assert ClientAgrees(i);
        if mClients[i] != null && mClients[i].mClientConn.mJniHandle == jni { return; }
        i := i + 1;
      }
    }

    ghost predicate HasServer(i: nat)
      reads this
    {
      i < |tables.servers| && tables.servers[i].Some?
    }

    method FindServerConnectionByJni(i: nat, jni: JniHandle) returns (j: nat)
      requires Valid() && HasServer(i)
      ensures j == First(tables.servers[i].value.conns, (c: Conn) => c.jni == jni)
    {
      j := 0;
      assert ServerAgrees(i);
      ghost var conns := tables.servers[i].value.conns;
      while j < MAX_CONNS_PER_SERVER
        invariant j <= MAX_CONNS_PER_SERVER
        invariant First(conns, (c: Conn) => c.jni == jni) == FirstFrom(conns, (c: Conn) => c.jni == jni, j)
      {
        assert ConnAgrees(mServers[i].mServerConn[j], conns[j], ServerSlot(i, j));
        if mServers[i].mServerConn[j] != null && mServers[i].mServerConn[j].mJniHandle == jni { return; }
        j := j + 1;
      }
    }

    method FindServerConnectionByNfa(i: nat, nfa: NfaHandle) returns (j: nat)
      requires Valid() && HasServer(i)
      ensures j == First(tables.servers[i].value.conns, (c: Conn) => c.nfa == nfa)
    {
      j := 0;
      assert ServerAgrees(i);
      ghost var conns := tables.servers[i].value.conns;
      while j < MAX_CONNS_PER_SERVER
        invariant j <= MAX_CONNS_PER_SERVER
        invariant First(conns, (c: Conn) => c.nfa == nfa) == FirstFrom(conns, (c: Conn) => c.nfa == nfa, j)
      {
        assert ConnAgrees(mServers[i].mServerConn[j], conns[j], ServerSlot(i, j));
        if mServers[i].mServerConn[j] != null && mServers[i].mServerConn[j].mNfaConnHandle == nfa { return; }
        j := j + 1;
      }
    }

    /** c is the object in slot s. */
    ghost predicate Holds(c: NfaConn, s: Slot)
      reads this, mServers, mClients, Repr
    {
      match s
      case ClientSlot(i) => i < mClients.Length && mClients[i] != null && mClients[i].mClientConn == c
      case ServerSlot(i, j) =>
        && i < mServers.Length && mServers[i] != null && mServers[i].mServerConn in Repr
        && j < mServers[i].mServerConn.Length && mServers[i].mServerConn[j] == c
    }

    /** The object a lookup hands out is the one in the slot the specification names. */
    ghost predicate IsAt(c: NfaConn?, s: Option<Slot>)
      reads this, mServers, mClients, Repr
    {
      if c == null then s == None else
        s.Some? && c in Repr && Holds(c, s.value) && ConnAt(tables, s.value) == Some(c.Val())
    }

    method FindConnectionByJni(jni: JniHandle) returns (c: NfaConn?)
      requires Valid()
      ensures IsAt(c, FindConnByJni(tables, jni))
    {
      var i := FindClientByJni(jni);
      if i < MAX_ENTRIES {
        assert ClientAgrees(i);
        return mClients[i].mClientConn;
      }
      ghost var p := (c: Conn) => c.jni == jni;
      i := 0;
      while i < MAX_ENTRIES
        invariant i <= MAX_ENTRIES
        invariant FindConnByJni(tables, jni) == FindServerConn(tables, p, i)
      {
        assert ServerAgrees(i);
        if mServers[i] != null {
          var j := FindServerConnectionByJni(i, jni);
          if j < MAX_CONNS_PER_SERVER {
            assert ConnAgrees(mServers[i].mServerConn[j], tables.servers[i].value.conns[j], ServerSlot(i, j));
            return mServers[i].mServerConn[j];
          }
        }
        i := i + 1;
      }
      c := null;
    }

    method FindConnectionByNfa(nfa: NfaHandle) returns (c: NfaConn?)
      requires Valid()
      ensures IsAt(c, FindConnByNfa(tables, nfa))
    {
      var i := 0;
      ghost var p := (c: Conn) => c.nfa == nfa;
      while i < MAX_ENTRIES
        invariant i <= MAX_ENTRIES
        invariant First(tables.clients, (x: Client) => p(x.conn)) ==
                  FirstFrom(tables.clients, (x: Client) => p(x.conn), i)
      {
        assert ClientAgrees(i);
        if mClients[i] != null && mClients[i].mClientConn.mNfaConnHandle == nfa { return mClients[i].mClientConn; }
        i := i + 1;
      }
      i := 0;
      while i < MAX_ENTRIES
        invariant i <= MAX_ENTRIES
        invariant FindConnByNfa(tables, nfa) == FindServerConn(tables, p, i)
      {
        assert ServerAgrees(i);
        if mServers[i] != null {
          var j := FindServerConnectionByNfa(i, nfa);
          if j < MAX_CONNS_PER_SERVER {
            assert ConnAgrees(mServers[i].mServerConn[j], tables.servers[i].value.conns[j], ServerSlot(i, j));
            return mServers[i].mServerConn[j];
          }
        }
        i := i + 1;
      }
      c := null;
    }

    // -------------------------------------------------------------- insertion and removal

    method RenewServer(k: nat, jni: JniHandle)
      requires Valid() && HasServer(k)
      modifies Repr
      ensures Valid() && Repr == old(Repr)
      ensures tables == SetServer(old(tables), k, Some(old(tables).servers[k].value.(jni := jni)))
      ensures registered == old(registered) && mNextJniHandle == old(mNextJniHandle)
    {
      assert ServerAgrees(k);
      mServers[k].mJniHandle := jni;
      tables := SetServer(tables, k, Some(tables.servers[k].value.(jni := jni)));
      forall x | 0 <= x < MAX_ENTRIES ensures ClientAgrees(x) { assert old(ClientAgrees(x)); }
      forall x | 0 <= x < MAX_ENTRIES ensures ServerAgrees(x) { assert old(ServerAgrees(x)); }
    }

    method AddServer(i: nat, jni: JniHandle, name: string)
      requires Valid() && i < MAX_ENTRIES && tables.servers[i].None?
      modifies Repr
      ensures Valid() && fresh(Repr - old(Repr))
      ensures tables == SetServer(old(tables), i, Some(Server(INVALID, jni, name, Empty(MAX_CONNS_PER_SERVER))))
      ensures registered == old(registered) && mNextJniHandle == old(mNextJniHandle)
    {
      var s := new P2pServer(jni, name, i);
      mServers[i] := s;
      Repr := Repr + {s, s.mServerConn};
      tables := SetServer(tables, i, Some(Server(INVALID, jni, name, Empty(MAX_CONNS_PER_SERVER))));
      forall x | 0 <= x < MAX_ENTRIES ensures ClientAgrees(x) { assert old(ClientAgrees(x)); }
      forall x | 0 <= x < MAX_ENTRIES ensures ServerAgrees(x) { assert old(ServerAgrees(x)); }
    }

    method PlaceServerSection(jni: JniHandle, name: string) returns (place: Placement)
      requires Valid()
      modifies Repr
      ensures Valid() && fresh(Repr - old(Repr))
      ensures (tables, place) == PlaceServer(old(tables), jni, name)
      ensures registered == old(registered) && mNextJniHandle == old(mNextJniHandle)
    {
      var k := FindServerByName(name);
      if k < MAX_ENTRIES {
        RenewServer(k, jni);
        return Existing(k);
      }
      var i := 0;
      while i < MAX_ENTRIES
        invariant i <= MAX_ENTRIES && unchanged(Repr) && Repr == old(Repr)
        invariant FirstFree(tables.servers) == FirstFreeFrom(tables.servers, i)
      {
        assert ServerAgrees(i);
        if mServers[i] == null {
          AddServer(i, jni, name);
          return Added(i);
        }
        i := i + 1;
      }
      place := Full;
    }

    method RemoveServerSection(jni: JniHandle)
      requires Valid()
      modifies Repr
      ensures Valid() && Repr == old(Repr)
      ensures tables == RemoveServer(old(tables), jni)
      ensures registered == old(registered) && mNextJniHandle == old(mNextJniHandle)
    {
      var i := FindServerByJni(jni);
      if i < MAX_ENTRIES {
        mServers[i] := null;
        tables := SetServer(tables, i, None);
        forall x | 0 <= x < MAX_ENTRIES ensures ClientAgrees(x) { assert old(ClientAgrees(x)); }
        forall x | 0 <= x < MAX_ENTRIES ensures ServerAgrees(x) { assert old(ServerAgrees(x)); }
      }
    }

    method PlaceClientSection(jni: JniHandle, miu: nat, rw: nat) returns (f: Option<nat>)
      requires Valid()
      modifies Repr
      ensures Valid() && fresh(Repr - old(Repr))
      ensures (tables, f) == PlaceClient(old(tables), jni, miu, rw)
      ensures registered == old(registered) && mNextJniHandle == old(mNextJniHandle)
    {
      var i := 0;
      while i < MAX_ENTRIES
        invariant i <= MAX_ENTRIES
        invariant FirstFree(tables.clients) == FirstFreeFrom(tables.clients, i)
      {
        assert ClientAgrees(i);
        if mClients[i] == null {
          var c := new P2pClient(ClientSlot(i));
          c.mClientConn.mJniHandle := jni;
          c.mClientConn.mMaxInfoUnit := miu;
          c.mClientConn.mRecvWindow := rw;
          mClients[i] := c;
          Repr := Repr + {c, c.mClientConn};
          tables := SetClient(tables, i,
              Some(Client(INVALID, false, NewConn(jni).(maxInfoUnit := miu, recvWindow := rw))));
          forall x | 0 <= x < MAX_ENTRIES ensures ClientAgrees(x) { assert old(ClientAgrees(x)); }
          forall x | 0 <= x < MAX_ENTRIES ensures ServerAgrees(x) { assert old(ServerAgrees(x)); }
          return Some(i);
        }
        i := i + 1;
      }
      f := None;
    }

    /** removeServerConnection. */
    method RemoveServerConnection(i: nat, jni: JniHandle) returns (found: bool)
      requires Valid() && HasServer(i)
      modifies Repr
      ensures Valid() && Repr == old(Repr)
      ensures tables == RemoveServerConn(old(tables), i, jni)
      ensures found == (First(old(tables).servers[i].value.conns, (c: Conn) => c.jni == jni) < MAX_CONNS_PER_SERVER)
      ensures registered == old(registered) && mNextJniHandle == old(mNextJniHandle)
    {
      assert ServerAgrees(i);
      var j := FindServerConnectionByJni(i, jni);
      found := j < MAX_CONNS_PER_SERVER;
      if found {
        mServers[i].mServerConn[j] := null;
        tables := SetConn(tables, ServerSlot(i, j), None);
        forall x | 0 <= x < MAX_ENTRIES ensures ClientAgrees(x) { assert old(ClientAgrees(x)); }
        forall x | 0 <= x < MAX_ENTRIES ensures ServerAgrees(x) { assert old(ServerAgrees(x)); }
      }
    }

    /** Dropping a client also gives its stack registration back. */
    method DropClient(i: nat)
      requires Valid() && i < MAX_ENTRIES && tables.clients[i].Some?
      modifies Repr
      ensures Valid() && Repr == old(Repr)
      ensures tables == SetClient(old(tables), i, None)
      ensures registered == old(registered) -
                            (if old(tables).clients[i].value.nfa != INVALID
                             then {old(tables).clients[i].value.nfa} else {})
      ensures mNextJniHandle == old(mNextJniHandle)
    {
      assert ClientAgrees(i);
      if mClients[i].mNfaP2pClientHandle != INVALID {
        registered := registered - {mClients[i].mNfaP2pClientHandle};
      }
      mClients[i] := null;
      tables := SetClient(tables, i, None);
      forall x | 0 <= x < MAX_ENTRIES ensures ClientAgrees(x) { assert old(ClientAgrees(x)); }
      forall x | 0 <= x < MAX_ENTRIES ensures ServerAgrees(x) { assert old(ServerAgrees(x)); }
    }

    method RemoveConnection(jni: JniHandle)
      requires Valid()
      modifies Repr
      ensures Valid() && Repr == old(Repr)
      ensures World(tables, registered) == RemoveConnCall(World(old(tables), old(registered)), jni)
      ensures mNextJniHandle == old(mNextJniHandle)
    {
      var i := FindClientByJni(jni);
      if i < MAX_ENTRIES {
        DropClient(i);
        return;
      }
      ghost var p := (c: Conn) => c.jni == jni;
      i := 0;
      while i < MAX_ENTRIES
        invariant i <= MAX_ENTRIES
        invariant Valid() && Repr == old(Repr)
        invariant tables == old(tables) && registered == old(registered) && mNextJniHandle == old(mNextJniHandle)
        invariant FindConnByJni(tables, jni) == FindServerConn(tables, p, i)
      {
        assert ServerAgrees(i);
        if mServers[i] != null {
          var found := RemoveServerConnection(i, jni);
          if found { return; }
        }
        i := i + 1;
      }
    }

    method AllocateConnection(i: nat, jni: JniHandle) returns (c: NfaConn?, ghost s: Option<Slot>)
      requires Valid() && HasServer(i)
      modifies Repr
      ensures Valid() && fresh(Repr - old(Repr))
      ensures (tables, s) == AllocateConn(old(tables), i, jni) && IsAt(c, s)
      ensures registered == old(registered) && mNextJniHandle == old(mNextJniHandle)
    {
      var j := 0;
      assert ServerAgrees(i);
      ghost var conns := tables.servers[i].value.conns;
      while j < MAX_CONNS_PER_SERVER
        invariant j <= MAX_CONNS_PER_SERVER
        invariant FirstFree(conns) == FirstFreeFrom(conns, j)
      {
        assert ConnAgrees(mServers[i].mServerConn[j], conns[j], ServerSlot(i, j));
        if mServers[i].mServerConn[j] == null {
          c := new NfaConn(jni, ServerSlot(i, j));
          mServers[i].mServerConn[j] := c;
          Repr := Repr + {c};
          tables := SetConn(tables, ServerSlot(i, j), Some(NewConn(jni)));
          s := Some(ServerSlot(i, j));
          forall x | 0 <= x < MAX_ENTRIES ensures ClientAgrees(x) { assert old(ClientAgrees(x)); }
          forall x | 0 <= x < MAX_ENTRIES ensures ServerAgrees(x) { assert old(ServerAgrees(x)); }
          return;
        }
        j := j + 1;
      }
      c, s := null, None;
    }

    // -------------------------------------------------------------- stack events

    method BindConnection(c: NfaConn, ghost s: Slot, link: Link)
      requires Valid() && IsAt(c, Some(s))
      modifies c, this`tables
      ensures Valid() && tables == Bind(old(tables), s, link.nfa, link.miu, link.rw)
    {
      assert if s.ClientSlot? then ClientAgrees(s.i) else ServerAgrees(s.i);
      c.mNfaConnHandle := link.nfa;
      c.mRemoteMaxInfoUnit := link.miu;
      c.mRemoteRecvWindow := link.rw;
      tables := Bind(tables, s, link.nfa, link.miu, link.rw);
      forall x | 0 <= x < MAX_ENTRIES ensures ClientAgrees(x) { assert old(ClientAgrees(x)); }
      forall x | 0 <= x < MAX_ENTRIES ensures ServerAgrees(x) { assert old(ServerAgrees(x)); }
    }

    method InvalidateConnection(c: NfaConn, ghost s: Slot)
      requires Valid() && IsAt(c, Some(s))
      modifies c, this`tables
      ensures Valid() && tables == Invalidate(old(tables), s)
    {
      assert if s.ClientSlot? then ClientAgrees(s.i) else ServerAgrees(s.i);
      c.mNfaConnHandle := INVALID;
      tables := Invalidate(tables, s);
      forall x | 0 <= x < MAX_ENTRIES ensures ClientAgrees(x) { assert old(ClientAgrees(x)); }
      forall x | 0 <= x < MAX_ENTRIES ensures ServerAgrees(x) { assert old(ServerAgrees(x)); }
    }

    /** NFA_P2P_REG_SERVER_EVT. */
    method RegServerEvent(name: string, h: NfaHandle)
      requires Valid()
      modifies this`tables, set s: P2pServer | s in Repr
      ensures Valid() && tables == OnRegServer(old(tables), name, h)
    {
      var k := FindServerByName(name);
      if k < MAX_ENTRIES {
        assert ServerAgrees(k);
        mServers[k].mNfaP2pServerHandle := h;
        tables := SetServer(tables, k, Some(tables.servers[k].value.(nfa := h)));
      }
      forall x | 0 <= x < MAX_ENTRIES ensures ClientAgrees(x) { assert old(ClientAgrees(x)); }
      forall x | 0 <= x < MAX_ENTRIES ensures ServerAgrees(x) { assert old(ServerAgrees(x)); }
    }

    /** NFA_P2P_REG_CLIENT_EVT: the event names no client, so it goes to the first one without a handle. */
    method RegClientEvent(h: NfaHandle)
      requires Valid()
      modifies this`tables, this`registered, set c: P2pClient | c in Repr
      ensures Valid() && World(tables, registered) == OnRegClient(World(old(tables), old(registered)), h)
    {
      var k := FindClientByNfa(INVALID);
      if k < MAX_ENTRIES {
        assert ClientAgrees(k);
        mClients[k].mNfaP2pClientHandle := h;
        tables := SetClient(tables, k, Some(tables.clients[k].value.(nfa := h)));
      }
      registered := if h == INVALID then registered else registered + {h};
      forall x | 0 <= x < MAX_ENTRIES ensures ClientAgrees(x) { assert old(ClientAgrees(x)); }
      forall x | 0 <= x < MAX_ENTRIES ensures ServerAgrees(x) { assert old(ServerAgrees(x)); }
    }

    /** NFA_P2P_CONNECTED_EVT. */
    method ConnectedEvent(client: NfaHandle, link: Link)
      requires Valid()
      modifies this`tables, set c: NfaConn | c in Repr
      ensures Valid() && tables == OnConnected(old(tables), client, link)
    {
      var k := FindClientByNfa(client);
      if k < MAX_ENTRIES {
        assert ClientAgrees(k);
        BindConnection(mClients[k].mClientConn, ClientSlot(k), link);
      }
    }

    /** NFA_P2P_CONN_REQ_EVT. */
    method ConnReqEvent(server: NfaHandle, link: Link)
      requires Valid()
      modifies this`tables, set c: NfaConn | c in Repr
      ensures Valid() && tables == OnConnReq(old(tables), server, link)
    {
      var k := FindServerByNfa(server);
      if k < MAX_ENTRIES {
        assert ServerAgrees(k);
        var j := FindServerConnectionByNfa(k, INVALID);
        if j < MAX_CONNS_PER_SERVER {
          assert ConnAgrees(mServers[k].mServerConn[j], tables.servers[k].value.conns[j], ServerSlot(k, j));
          BindConnection(mServers[k].mServerConn[j], ServerSlot(k, j), link);
        }
      }
    }

    /** NFA_P2P_DISC_EVT for an established connection. */
    method DiscEvent(h: NfaHandle)
      requires Valid()
      modifies this`tables, set c: NfaConn | c in Repr
      ensures Valid() && tables == OnDisc(old(tables), h)
    {
      var c := FindConnectionByNfa(h);
      if c != null {
        InvalidateConnection(c, FindConnByNfa(tables, h).value);
      }
    }

    // -------------------------------------------------------------- whole calls

    method RegisterServer(jni: JniHandle, name: string, accepted: bool, reply: Option<NfaHandle>) returns (ok: bool)
      requires Valid()
      modifies Repr
      ensures Valid() && fresh(Repr - old(Repr))
      ensures (tables, ok) == RegisterServerCall(old(tables), jni, name, accepted, reply)
      ensures registered == old(registered)
      ensures mNextJniHandle == old(mNextJniHandle)
    {
      var place := PlaceServerSection(jni, name);
      if place.Full? { return false; }
      if place.Existing? { return true; }
      if accepted && reply.Some? {
        RegServerEvent(name, reply.value);
      }
      assert ServerAgrees(place.i);
      if accepted && mServers[place.i].mNfaP2pServerHandle != INVALID { return true; }
      RemoveServerSection(jni);
      ok := false;
    }

    method CreateClient(jni: JniHandle, miu: nat, rw: nat, reply: Option<NfaHandle>) returns (ok: bool)
      requires Valid()
      modifies Repr
      ensures Valid() && fresh(Repr - old(Repr))
      ensures (World(tables, registered), ok) ==
              CreateClientCall(World(old(tables), old(registered)), jni, miu, rw, reply)
      ensures mNextJniHandle == old(mNextJniHandle)
    {
      var f := PlaceClientSection(jni, miu, rw);
      if f.None? { return false; }
      if reply.Some? {
        RegClientEvent(reply.value);
      }
      assert ClientAgrees(f.value);
      if mClients[f.value].mNfaP2pClientHandle != INVALID { return true; }
      RemoveConnection(jni);
      ok := false;
    }

    method SetConnecting(k: nat, b: bool)
      requires Valid() && k < MAX_ENTRIES && tables.clients[k].Some?
      modifies this`tables, set c: P2pClient | c in Repr
      ensures Valid() && tables == SetClient(old(tables), k, Some(old(tables).clients[k].value.(connecting := b)))
    {
      assert ClientAgrees(k);
      mClients[k].mIsConnecting := b;
      tables := SetClient(tables, k, Some(tables.clients[k].value.(connecting := b)));
      forall x | 0 <= x < MAX_ENTRIES ensures ClientAgrees(x) { assert old(ClientAgrees(x)); }
      forall x | 0 <= x < MAX_ENTRIES ensures ServerAgrees(x) { assert old(ServerAgrees(x)); }
    }

    method CreateDataLinkConn(jni: JniHandle, accepted: bool, reply: Option<Link>) returns (ok: bool)
      requires Valid()
      modifies Repr
      ensures Valid() && Repr == old(Repr)
      ensures (World(tables, registered), ok) ==
              CreateDataLinkConnCall(World(old(tables), old(registered)), jni, accepted, reply)
      ensures mNextJniHandle == old(mNextJniHandle)
    {
      var k := FindClientByJni(jni);
      if k >= MAX_ENTRIES { return false; }
      assert ClientAgrees(k);
      var handle := mClients[k].mNfaP2pClientHandle;
      SetConnecting(k, true);
      if accepted && reply.Some? {
        ConnectedEvent(handle, reply.value);
      }
      assert ClientAgrees(k);
      if accepted && mClients[k].mClientConn.mNfaConnHandle != INVALID {
        SetConnecting(k, false);
        return true;
      }
      RemoveConnection(jni);
      ok := false;
    }

    method DisconnectConnOriented(jni: JniHandle, accepted: bool) returns (ok: bool)
      requires Valid()
      modifies Repr
      ensures Valid() && Repr == old(Repr)
      ensures (World(tables, registered), ok) ==
              DisconnectCall(World(old(tables), old(registered)), jni, accepted)
      ensures mNextJniHandle == old(mNextJniHandle)
    {
      var c := FindConnectionByJni(jni);
      if c == null { return false; }
      ghost var s := FindConnByJni(tables, jni).value;
      assert if s.ClientSlot? then ClientAgrees(s.i) else ServerAgrees(s.i);
      var k := FindClientByJni(jni);
      if k < MAX_ENTRIES {
        assert ClientAgrees(k);
        if mClients[k].mIsConnecting { return true; }
      }
      ok := false;
      if c.mNfaConnHandle != INVALID {
        ok := accepted;
        if accepted { DiscEvent(c.mNfaConnHandle); }
      }
      RemoveConnection(jni);
    }

    /** What accept does once it is woken: without a link its block goes back. */
    method EndAccept(k: nat, jni: JniHandle, c: NfaConn, ghost s: Slot, accepted: bool) returns (ok: bool)
      requires Valid() && HasServer(k) && IsAt(c, Some(s))
      modifies Repr
      ensures Valid() && Repr == old(Repr) && registered == old(registered)
      ensures (tables, ok) == if ConnAt(old(tables), s).value.nfa != INVALID then (old(tables), accepted)
                              else (RemoveServerConn(old(tables), k, jni), false)
      ensures mNextJniHandle == old(mNextJniHandle)
    {
      if c.mNfaConnHandle != INVALID { return accepted; }
      var _ := RemoveServerConnection(k, jni);
      ok := false;
    }

    method Accept(server: JniHandle, jni: JniHandle, reply: Option<Link>, accepted: bool) returns (ok: bool)
      requires Valid()
      modifies Repr
      ensures Valid() && fresh(Repr - old(Repr))
      ensures (tables, ok) == AcceptCall(old(tables), server, jni, reply, accepted)
      ensures registered == old(registered)
      ensures mNextJniHandle == old(mNextJniHandle)
    {
      var k := FindServerByJni(server);
      if k >= MAX_ENTRIES { return false; }
      assert ServerAgrees(k);
      var handle := mServers[k].mNfaP2pServerHandle;
      var c, s := AllocateConnection(k, jni);
      if c == null { return false; }
      if reply.Some? {
        ConnReqEvent(handle, reply.value);
      }
      assert ServerAgrees(k);
      ok := EndAccept(k, jni, c, s.value, accepted);
    }

    // -------------------------------------------------------------- turning NFC on and off

    method TurnOn()
      requires Valid()
      modifies Repr
      ensures Valid() && Repr == old(Repr)
      ensures tables == EmptyTables() && registered == {}
      ensures mNextJniHandle == old(mNextJniHandle)
    {
      for i := 0 to MAX_ENTRIES
        invariant forall x :: 0 <= x < i ==> mServers[x] == null && mClients[x] == null
        modifies mServers, mClients
      {
        mServers[i] := null;
        mClients[i] := null;
      }
      tables, registered := EmptyTables(), {};
    }

    /** unblockAll on the server in slot i. */
    method UnblockAll(i: nat)
      requires Valid() && HasServer(i)
      modifies this`tables, set c: NfaConn | c in Repr
      ensures Valid() && tables == ServerOff(old(tables), i, MAX_CONNS_PER_SERVER)
    {
      var j := 0;
      while j < MAX_CONNS_PER_SERVER
        invariant j <= MAX_CONNS_PER_SERVER && Valid() && HasServer(i)
        invariant tables == ServerOff(old(tables), i, j)
      {
        assert ServerAgrees(i);
        assert ConnAgrees(mServers[i].mServerConn[j], tables.servers[i].value.conns[j], ServerSlot(i, j));
        if mServers[i].mServerConn[j] != null {
          InvalidateConnection(mServers[i].mServerConn[j], ServerSlot(i, j));
        }
        j := j + 1;
      }
    }

    method TurnOff()
      requires Valid()
      modifies this`tables, set c: NfaConn | c in Repr
      ensures Valid() && tables == TurnedOff(old(tables))
    {
      var i := 0;
      while i < MAX_ENTRIES
        invariant i <= MAX_ENTRIES && Valid()
        invariant tables == ClientsOff(old(tables), i)
      {
        assert ClientAgrees(i);
        if mClients[i] != null && mClients[i].mClientConn.mNfaConnHandle != INVALID {
          InvalidateConnection(mClients[i].mClientConn, ClientSlot(i));
        }
        i := i + 1;
      }
      i := 0;
      ghost var t := tables;
      while i < MAX_ENTRIES
        invariant i <= MAX_ENTRIES && Valid()
        invariant tables == ServersOff(t, i)
      {
        assert ServerAgrees(i);
        if mServers[i] != null {
          UnblockAll(i);
        } else {
          EmptyServerOff(tables, i, MAX_CONNS_PER_SERVER);
        }
        i := i + 1;
      }
    }
  }
}
