/** API calls made one at a time, with stack events between them, keep the tables and the stack's registrations in
    balance. */
module P2pBalance {
  import opened Common
  import opened P2pTables
  import opened P2pCalls
  import opened P2pMap

  /** Every server in the table has a stack handle of its own. */
  ghost predicate ServersServed(t: Tables) {
    && (forall i :: 0 <= i < |t.servers| && t.servers[i].Some? ==> t.servers[i].value.nfa != INVALID)
    && (forall i, k :: 0 <= i < k < |t.servers| && t.servers[i].Some? && t.servers[k].Some? ==>
          t.servers[i].value.nfa != t.servers[k].value.nfa)
  }

  /** No server in the table has the stack handle h. */
  ghost predicate NotServed(t: Tables, h: NfaHandle) {
    forall i :: 0 <= i < |t.servers| && t.servers[i].Some? ==> t.servers[i].value.nfa != h
  }

  /** So a server is found by its stack handle. */
  lemma ServerFoundByHandle(t: Tables, k: nat)
    requires ServersServed(t) && k < |t.servers| && t.servers[k].Some?
    ensures ServerByNfa(t, t.servers[k].value.nfa) == k
  {
    var i := ServerByNfa(t, t.servers[k].value.nfa);
    assert t.servers[i].Some?;
  }

  /** Between calls: nobody is waiting to be registered or to be connected, servers have distinct stack handles, and the
      stack's client handles are exactly the table's. */
  ghost predicate Balanced(w: World) {
    && Shaped(w.t) && DistinctJni(w.t) && DistinctNames(w.t) && ServersServed(w.t)
    && (forall i :: 0 <= i < MAX_ENTRIES && w.t.clients[i].Some? ==>
          w.t.clients[i].value.nfa != INVALID && !w.t.clients[i].value.connecting)
    && (forall i, k :: 0 <= i < k < MAX_ENTRIES && w.t.clients[i].Some? && w.t.clients[k].Some? ==>
          w.t.clients[i].value.nfa != w.t.clients[k].value.nfa)
    && (forall h :: h in w.registered <==> exists i :: 0 <= i < MAX_ENTRIES && HasHandle(w.t, i, h))
  }

  ghost predicate HasHandle(t: Tables, i: int, h: NfaHandle) {
    0 <= i < |t.clients| && t.clients[i].Some? && t.clients[i].value.nfa == h
  }

  /** The only client waiting for a handle is the one just placed, so the next REG_CLIENT event is its own. */
  lemma NewClientIsNext(w: World, jni: JniHandle, miu: nat, rw: nat)
    requires Balanced(w) && FirstFree(w.t.clients) < MAX_ENTRIES
    ensures ClientByNfa(PlaceClient(w.t, jni, miu, rw).0, INVALID) == FirstFree(w.t.clients)
  {
    var f, t1 := FirstFree(w.t.clients), PlaceClient(w.t, jni, miu, rw).0;
    var k := ClientByNfa(t1, INVALID);
    assert t1.clients[f].value.nfa == INVALID;
    assert forall i :: 0 <= i < MAX_ENTRIES && i != f ==> t1.clients[i] == w.t.clients[i];
  }

  /** Removing the client just placed restores the table. */
  lemma RolledBack(w: World, jni: JniHandle, miu: nat, rw: nat)
    requires Balanced(w) && Unused(w.t, jni) && FirstFree(w.t.clients) < MAX_ENTRIES
    ensures var t1 := PlaceClient(w.t, jni, miu, rw).0;
            FindConnByJni(t1, jni) == Some(ClientSlot(FirstFree(w.t.clients))) && RemoveConn(t1, jni) == w.t &&
                Released(t1, jni) == {}
  {
    var f, t1 := FirstFree(w.t.clients), PlaceClient(w.t, jni, miu, rw).0;
    var s := ClientSlot(f);
    PlaceClientIsInsert(w.t, jni, miu, rw);
    FindConnSound(t1, (c: Conn) => c.jni == jni);
    assert Names(t1, s, jni);
    SameJniSameSlot(t1, s, FindConnByJni(t1, jni).value, jni);
    assert RemoveConn(t1, jni).clients == w.t.clients;
  }

  /** With the registered client c in slot f the world is in balance, and c's connection is one more in the map. */
  ghost predicate Enters(w: World, f: nat, c: Client)
    requires Balanced(w) && f < MAX_ENTRIES
  {
    var w' := World(SetClient(w.t, f, Some(c)), w.registered + {c.nfa});
    Balanced(w') && ConnMap(w'.t) == ConnMap(w.t)[c.conn.jni := c.conn]
  }

  /** Giving the waiting client in slot f its handle brings the table back into balance. */
  lemma RegisteredBalances(w: World, f: nat)
    requires Balanced(w) && f < MAX_ENTRIES && w.t.clients[f].None?
    ensures forall c: Client |
              Unused(w.t, c.conn.jni) && c.nfa != INVALID && c.nfa !in w.registered && !c.connecting :: Enters(w, f, c)
  {
    forall c: Client | Unused(w.t, c.conn.jni) && c.nfa != INVALID && c.nfa !in w.registered && !c.connecting
      ensures Enters(w, f, c)
    {
      var w' := World(SetClient(w.t, f, Some(c)), w.registered + {c.nfa});
      InsertAt(w.t, w'.t, ClientSlot(f), c.conn);
      assert forall i :: 0 <= i < MAX_ENTRIES && i != f ==> w'.t.clients[i] == w.t.clients[i];
      forall i | 0 <= i < MAX_ENTRIES && w.t.clients[i].Some? ensures w.t.clients[i].value.nfa in w.registered {
        assert HasHandle(w.t, i, w.t.clients[i].value.nfa);
      }
      forall h ensures h in w'.registered <==> exists i :: 0 <= i < MAX_ENTRIES && HasHandle(w'.t, i, h) {
        if h == c.nfa {
          assert HasHandle(w'.t, f, h);
        } else {
          assert forall i :: 0 <= i < MAX_ENTRIES ==> HasHandle(w'.t, i, h) == HasHandle(w.t, i, h);
        }
      }
    }
  }

  /** The client createClient makes: registered under h, not connecting and without a link. */
  function NewClient(h: NfaHandle, jni: JniHandle, miu: nat, rw: nat): Client {
    Client(h, false, Conn(INVALID, jni, miu, rw, 0, 0))
  }

  /** What createClient comes to, in balance. */
  ghost predicate CreateOutcome(w: World, jni: JniHandle, miu: nat, rw: nat, reply: Option<NfaHandle>)
    requires Balanced(w)
  {
    var (w', ok) := CreateClientCall(w, jni, miu, rw, reply);
    && Balanced(w')
    && (ok <==> FirstFree(w.t.clients) < MAX_ENTRIES && reply.Some? && reply.value != INVALID)
    && (!ok ==> w' == w)
    && (ok ==> w'.registered == w.registered + {reply.value} &&
               ConnMap(w'.t) == ConnMap(w.t)[jni := NewClient(reply.value, jni, miu, rw).conn] &&
               w'.t == SetClient(w.t, FirstFree(w.t.clients), Some(NewClient(reply.value, jni, miu, rw))))
  }

  /** A client that cannot be made leaves the tables and the registrations exactly as they were; one that can
      is put into the first free slot under its handle and registered. */
  lemma CreateClientBalances(w: World, jni: JniHandle, miu: nat, rw: nat)
    requires Balanced(w) && Unused(w.t, jni)
    ensures forall reply: Option<NfaHandle> | reply.Some? && reply.value != INVALID ==> reply.value !in w.registered ::
              CreateOutcome(w, jni, miu, rw, reply)
  {
    forall reply: Option<NfaHandle> | reply.Some? && reply.value != INVALID ==> reply.value !in w.registered
      ensures CreateOutcome(w, jni, miu, rw, reply)
    {
      var (t1, f) := PlaceClient(w.t, jni, miu, rw);
      if f.Some? {
        NewClientIsNext(w, jni, miu, rw);
        RolledBack(w, jni, miu, rw);
        var (w', ok) := CreateClientCall(w, jni, miu, rw, reply);
        if reply.Some? {
          assert SetClient(t1, f.value, Some(t1.clients[f.value].value.(nfa := reply.value))) ==
                 SetClient(w.t, f.value, Some(t1.clients[f.value].value.(nfa := reply.value)));
          if reply.value != INVALID {
            RegisteredBalances(w, f.value);
            assert Enters(w, f.value, t1.clients[f.value].value.(nfa := reply.value));
          } else {
            assert SetClient(t1, f.value, t1.clients[f.value]) == t1;
          }
        }
      }
    }
  }

  // ---------------------------------------------------------------- the other calls

  /** Taking a client away, with its registration, keeps the balance. */
  lemma RemoveConnBalances(w: World, jni: JniHandle)
    requires Balanced(w)
    ensures Balanced(RemoveConnCall(w, jni))
    ensures ConnMap(RemoveConnCall(w, jni).t) == ConnMap(w.t) - {jni}
  {
    var w' := RemoveConnCall(w, jni);
    RemoveConnIsDelete(w.t, jni);
    FindConnSound(w.t, (c: Conn) => c.jni == jni);
    match FindConnByJni(w.t, jni)
    case Some(ClientSlot(k)) =>
      forall h ensures h in w'.registered <==> exists i :: 0 <= i < MAX_ENTRIES && HasHandle(w'.t, i, h) {
        assert forall i :: 0 <= i < MAX_ENTRIES ==> HasHandle(w'.t, i, h) == (HasHandle(w.t, i, h) && i != k);
        assert HasHandle(w.t, k, w.t.clients[k].value.nfa);
      }
    case _ =>
      assert w'.t.clients == w.t.clients;
      assert forall h, i :: 0 <= i < MAX_ENTRIES ==> HasHandle(w'.t, i, h) == HasHandle(w.t, i, h);
  }

  /** A client block changing under the same handles keeps the balance. */
  lemma UpdatedBalances(w: World, k: nat)
    requires Balanced(w) && k < MAX_ENTRIES && w.t.clients[k].Some?
    ensures forall c: Client |
              c.nfa == w.t.clients[k].value.nfa && c.conn.jni == w.t.clients[k].value.conn.jni && !c.connecting ::
              Balanced(World(SetClient(w.t, k, Some(c)), w.registered))
  {
    forall c: Client |
      c.nfa == w.t.clients[k].value.nfa && c.conn.jni == w.t.clients[k].value.conn.jni && !c.connecting
      ensures Balanced(World(SetClient(w.t, k, Some(c)), w.registered))
    {
      var w' := World(SetClient(w.t, k, Some(c)), w.registered);
      assert forall h: Holder :: JniAt(w'.t, h) == JniAt(w.t, h);
      assert forall h, i :: 0 <= i < MAX_ENTRIES ==> HasHandle(w'.t, i, h) == HasHandle(w.t, i, h);
    }
  }

  lemma ClientHandleIsOnly(w: World, k: nat, t1: Tables)
    requires Balanced(w) && k < MAX_ENTRIES && w.t.clients[k].Some?
    requires |t1.clients| == MAX_ENTRIES && forall i :: 0 <= i < MAX_ENTRIES ==>
               t1.clients[i].Some? == w.t.clients[i].Some? &&
                   (t1.clients[i].Some? ==> t1.clients[i].value.nfa == w.t.clients[i].value.nfa)
    ensures ClientByNfa(t1, w.t.clients[k].value.nfa) == k
  {
    assert t1.clients[k].Some?;
    var i := ClientByNfa(t1, w.t.clients[k].value.nfa);
    assert t1.clients[i].Some?;
  }

  /** Removing a known client takes exactly that client and its registration. */
  lemma RemoveClientIs(w: World, k: nat)
    requires Shaped(w.t) && DistinctJni(w.t)
    requires k < MAX_ENTRIES && w.t.clients[k].Some? && w.t.clients[k].value.nfa != INVALID
    ensures RemoveConnCall(w, w.t.clients[k].value.conn.jni) ==
            World(SetClient(w.t, k, None), w.registered - {w.t.clients[k].value.nfa})
  {
    var jni := w.t.clients[k].value.conn.jni;
    assert Names(w.t, ClientSlot(k), jni);
    FindConnSound(w.t, (x: Conn) => x.jni == jni);
    SameJniSameSlot(w.t, ClientSlot(k), FindConnByJni(w.t, jni).value, jni);
  }

  /** The connection block with the link that was reported, if one was. */
  function Linked(c: Conn, link: Option<Link>): Conn {
    if link.None? then c
    else Conn(link.value.nfa, c.jni, c.maxInfoUnit, c.recvWindow, link.value.miu, link.value.rw)
  }

  /** The tables while the connect call is between its wait and its result. */
  function WhileConnecting(w: World, k: nat, link: Option<Link>): World
    requires k < |w.t.clients| && w.t.clients[k].Some?
  {
    var c := w.t.clients[k].value;
    World(SetClient(w.t, k, Some(c.(connecting := true, conn := Linked(c.conn, link)))), w.registered)
  }

  lemma ConnectingIs(w: World, jni: JniHandle, accepted: bool, reply: Option<Link>, k: nat)
    requires Balanced(w) && k == ClientByJni(w.t, jni) < MAX_ENTRIES
    ensures var w2 := WhileConnecting(w, k, if accepted then reply else None);
            var ok := accepted && w2.t.clients[k].value.conn.nfa != INVALID;
            CreateDataLinkConnCall(w, jni, accepted, reply) ==
            (if ok then World(SetClient(w2.t, k, Some(w2.t.clients[k].value.(connecting := false))), w.registered)
             else RemoveConnCall(w2, jni), ok)
  {
    var c := w.t.clients[k].value;
    var t1 := SetClient(w.t, k, Some(c.(connecting := true)));
    ClientHandleIsOnly(w, k, t1);
    var w2 := WhileConnecting(w, k, if accepted then reply else None);
    if accepted && reply.Some? {
      assert OnConnected(t1, c.nfa, reply.value).clients == w2.t.clients;
    } else {
      assert t1.clients == w2.t.clients;
    }
  }

  lemma ConnectRolledBack(w: World, k: nat, link: Option<Link>)
    requires Balanced(w) && k < MAX_ENTRIES && w.t.clients[k].Some?
    ensures var w' := RemoveConnCall(WhileConnecting(w, k, link), w.t.clients[k].value.conn.jni);
            w' == World(SetClient(w.t, k, None), w.registered - {w.t.clients[k].value.nfa})
  {
    var w2 := WhileConnecting(w, k, link);
    assert forall h: Holder :: JniAt(w2.t, h) == JniAt(w.t, h);
    RemoveClientIs(w2, k);
    assert SetClient(w2.t, k, None).clients == SetClient(w.t, k, None).clients;
  }

  lemma ClientDropped(w: World)
    requires Balanced(w)
    ensures forall k: nat | k < MAX_ENTRIES && w.t.clients[k].Some? ::
              Balanced(World(SetClient(w.t, k, None), w.registered - {w.t.clients[k].value.nfa}))
  {
    forall k: nat | k < MAX_ENTRIES && w.t.clients[k].Some?
      ensures Balanced(World(SetClient(w.t, k, None), w.registered - {w.t.clients[k].value.nfa}))
    {
      RemoveConnBalances(w, w.t.clients[k].value.conn.jni);
      RemoveClientIs(w, k);
    }
  }

  /** What connectConnOriented comes to, in balance. */
  ghost predicate ConnectOutcome(w: World, jni: JniHandle, accepted: bool, reply: Option<Link>)
    requires Balanced(w)
  {
    var (w', ok) := CreateDataLinkConnCall(w, jni, accepted, reply);
    var k := ClientByJni(w.t, jni);
    && Balanced(w')
    && (ok <==> k < MAX_ENTRIES && accepted && Linked(w.t.clients[k].value.conn, reply).nfa != INVALID)
    && (k >= MAX_ENTRIES ==> w' == w)
    && (k < MAX_ENTRIES && !ok ==>
          w' == World(SetClient(w.t, k, None), w.registered - {w.t.clients[k].value.nfa}))
    && (ok ==> k < MAX_ENTRIES && w'.t.clients[k].Some? && w'.registered == w.registered &&
               w'.t == SetClient(w.t, k, w'.t.clients[k]) &&
               w'.t.clients[k].value.conn.nfa != INVALID && !w'.t.clients[k].value.connecting &&
               w'.t.clients[k].value.nfa == w.t.clients[k].value.nfa &&
               w'.t.clients[k].value.conn == Linked(w.t.clients[k].value.conn, reply))
  }

  /** connectConnOriented on an unknown client changes nothing.  On a known one it either leaves that client
      bound to the link the stack reported, or takes it away together with its registration; it never touches
      anything else. */
  lemma ConnectBalances(w: World, jni: JniHandle)
    requires Balanced(w)
    ensures forall accepted, reply :: ConnectOutcome(w, jni, accepted, reply)
  {
    forall accepted, reply ensures ConnectOutcome(w, jni, accepted, reply) {
      var k := ClientByJni(w.t, jni);
      if k < MAX_ENTRIES {
        ConnectingIs(w, jni, accepted, reply, k);
        var w2 := WhileConnecting(w, k, if accepted then reply else None);
        var c2 := w2.t.clients[k].value;
        if accepted && c2.conn.nfa != INVALID {
          var c3 := c2.(connecting := false);
          UpdatedBalances(w, k);
          assert SetClient(w2.t, k, Some(c3)).clients == SetClient(w.t, k, Some(c3)).clients;
        } else {
          ConnectRolledBack(w, k, if accepted then reply else None);
          ClientDropped(w);
        }
      }
    }
  }

  lemma ServersAloneBalance(w: World, t': Tables)
    requires Balanced(w) && t'.clients == w.t.clients
    requires Shaped(t') && DistinctJni(t') && DistinctNames(t') && ServersServed(t')
    ensures Balanced(World(t', w.registered))
  {
    assert forall h, i :: HasHandle(t', i, h) == HasHandle(w.t, i, h);
  }

  /** The table with a new server in its first free slot i, under stack handle h. */
  function WithServer(t: Tables, i: nat, jni: JniHandle, name: string, h: NfaHandle): Tables
    requires i < |t.servers|
  {
    SetServer(t, i, Some(Server(h, jni, name, Empty(MAX_CONNS_PER_SERVER))))
  }

  lemma NewServerIs(t: Tables, i: nat, jni: JniHandle, name: string, h: NfaHandle)
    requires Shaped(t) && DistinctJni(t) && DistinctNames(t) && Unused(t, jni)
    requires i < MAX_ENTRIES && t.servers[i].None? && JniOfName(t, name).None?
    ensures var t2 := WithServer(t, i, jni, name, h);
            && Shaped(t2) && DistinctJni(t2) && DistinctNames(t2)
            && JniOfName(t2, name) == Some(jni) && RemoveServer(t2, jni) == t
            && forall h' :: OnRegServer(t2, name, h') == WithServer(t, i, jni, name, h')
  {
    var t2 := WithServer(t, i, jni, name, h);
    assert forall x: Holder :: JniAt(t2, x) == if x == OfServer(i) then Some(jni) else JniAt(t, x);
    FirstServerIsOnly(t2, jni, i);
    assert SetServer(t2, i, None).servers == t.servers;
    assert ServerByName(t, name) == |t.servers|;
    assert DistinctNames(t2) by {
      assert forall k :: 0 <= k < MAX_ENTRIES && k != i ==> t2.servers[k] == t.servers[k];
    }
    NameIsAt(t2, i);
    forall h' ensures OnRegServer(t2, name, h') == WithServer(t, i, jni, name, h') {
      assert OnRegServer(t2, name, h').servers == WithServer(t, i, jni, name, h').servers;
    }
  }

  lemma NewServerBalances(w: World, i: nat, jni: JniHandle, name: string)
    requires Balanced(w) && Unused(w.t, jni) && i < MAX_ENTRIES && w.t.servers[i].None? && JniOfName(w.t, name).None?
    ensures forall h | NotServed(w.t, h) && h != INVALID ::
              Balanced(World(WithServer(w.t, i, jni, name, h), w.registered))
  {
    forall h | NotServed(w.t, h) && h != INVALID
      ensures Balanced(World(WithServer(w.t, i, jni, name, h), w.registered))
    {
      NewServerIs(w.t, i, jni, name, h);
      assert forall k :: 0 <= k < MAX_ENTRIES && k != i ==>
          WithServer(w.t, i, jni, name, h).servers[k] == w.t.servers[k];
      ServersAloneBalance(w, WithServer(w.t, i, jni, name, h));
    }
  }

  /** A server placed in slot i is kept if it gets a valid stack handle, and taken away again if not. */
  lemma AddedServerIs(t: Tables, i: nat, jni: JniHandle, name: string, accepted: bool, reply: Option<NfaHandle>)
    requires Shaped(t) && DistinctJni(t) && DistinctNames(t) && Unused(t, jni) &&
        PlaceServer(t, jni, name).1 == Added(i)
    ensures i < MAX_ENTRIES && t.servers[i].None? && JniOfName(t, name).None? && FirstFree(t.servers) < MAX_ENTRIES
    ensures var h := if accepted && reply.Some? then reply.value else INVALID;
            RegisterServerCall(t, jni, name, accepted, reply) ==
            if h != INVALID then (WithServer(t, i, jni, name, h), true) else (t, false)
  {
    NewServerIs(t, i, jni, name, INVALID);
    NewServerIs(t, i, jni, name, if accepted && reply.Some? then reply.value else INVALID);
  }

  /** What registerServer comes to, in balance. */
  ghost predicate RegisterOutcome(w: World, jni: JniHandle, name: string, accepted: bool, reply: Option<NfaHandle>)
    requires Shaped(w.t)
  {
    var (t', ok) := RegisterServerCall(w.t, jni, name, accepted, reply);
    && Balanced(World(t', w.registered))
    && (!ok ==> t' == w.t)
    && (ok ==> JniOfName(t', name) == Some(jni) &&
               var k := ServerByName(w.t, name);
               t' == if JniOfName(w.t, name).None?
                     then WithServer(w.t, FirstFree(w.t.servers), jni, name, reply.value)
                     else SetServer(w.t, k, Some(w.t.servers[k].value.(jni := jni))))
    && (ok <==> JniOfName(w.t, name).Some? ||
                (FirstFree(w.t.servers) < MAX_ENTRIES && accepted && reply.Some? && reply.value != INVALID))
  }

  /** registerServer renews a known name; a new name is either registered under a valid stack handle, or the
      tables are as they were. */
  lemma RegisterServerBalances(w: World, jni: JniHandle, name: string)
    requires Balanced(w) && Unused(w.t, jni)
    ensures forall accepted, reply: Option<NfaHandle> |
              reply.Some? && reply.value != INVALID ==> NotServed(w.t, reply.value) ::
              RegisterOutcome(w, jni, name, accepted, reply)
  {
    forall accepted, reply: Option<NfaHandle> |
      reply.Some? && reply.value != INVALID ==> NotServed(w.t, reply.value)
      ensures RegisterOutcome(w, jni, name, accepted, reply)
    {
      var (t1, place) := PlaceServer(w.t, jni, name);
      match place
      case Full =>
      case Existing(_) =>
        PlaceServerKeeps(w.t, jni, name);
        PlaceServerIsUpsert(w.t, jni, name);
        ServersAloneBalance(w, t1);
      case Added(i) =>
        var h := if accepted && reply.Some? then reply.value else INVALID;
        AddedServerIs(w.t, i, jni, name, accepted, reply);
        if h != INVALID {
          NewServerIs(w.t, i, jni, name, h);
          NewServerBalances(w, i, jni, name);
        }
    }
  }

  /** The first block of server k without a link: the one a CONN_REQ event goes to. */
  function FirstIdle(t: Tables, k: nat): nat
    requires k < |t.servers| && t.servers[k].Some?
  {
    First(t.servers[k].value.conns, (c: Conn) => c.nfa == INVALID)
  }

  lemma AllocatedIs(t: Tables, k: nat, jni: JniHandle, link: Link)
    requires Shaped(t) && k < MAX_ENTRIES && t.servers[k].Some?
    requires ServerByNfa(t, t.servers[k].value.nfa) == k && FirstFree(t.servers[k].value.conns) < MAX_CONNS_PER_SERVER
    ensures var f, g := FirstFree(t.servers[k].value.conns), FirstIdle(t, k);
            var b := if f < g then f else g;
            var t1 := AllocateConn(t, k, jni).0;
            && OnConnReq(t1, t.servers[k].value.nfa, link) == Bind(t1, ServerSlot(k, b), link.nfa, link.miu, link.rw)
            && f != g
  {
    var f, g := FirstFree(t.servers[k].value.conns), FirstIdle(t, k);
    var t1 := AllocateConn(t, k, jni).0;
    assert forall i :: 0 <= i < MAX_ENTRIES && i != k ==> t1.servers[i] == t.servers[i];
    assert t1.servers[k].value.nfa == t.servers[k].value.nfa;
    assert forall j :: 0 <= j < MAX_CONNS_PER_SERVER && j != f ==>
        t1.servers[k].value.conns[j] == t.servers[k].value.conns[j];
    assert t1.servers[k].value.conns[f] == Some(NewConn(jni));
  }

  /** The tables, the server found and the handle about to be used, as accept meets them; the server has a free slot. */
  ghost predicate CanAccept(t: Tables, server: JniHandle, jni: JniHandle) {
    var k := ServerByJni(t, server);
    && Shaped(t) && DistinctJni(t) && Unused(t, jni)
    && k < MAX_ENTRIES && FirstFree(t.servers[k].value.conns) < MAX_CONNS_PER_SERVER
    && ServerByNfa(t, t.servers[k].value.nfa) == k
  }

  lemma AcceptWithoutEvent(t: Tables, server: JniHandle, jni: JniHandle, accepted: bool)
    requires CanAccept(t, server, jni)
    ensures AcceptCall(t, server, jni, None, accepted) == (t, false)
  {
    var k := ServerByJni(t, server);
    var result := AcceptCall(t, server, jni, None, accepted);
    FreshBlockIsOnly(t, AllocateConn(t, k, jni).0, k, FirstFree(t.servers[k].value.conns), jni);
    assert result.0.servers[k].value.conns == t.servers[k].value.conns;
    assert result.0.servers == t.servers;
  }

  lemma AcceptOwnBlock(t: Tables, server: JniHandle, jni: JniHandle, link: Link, accepted: bool)
    requires CanAccept(t, server, jni) && link.nfa != INVALID
    requires var k := ServerByJni(t, server); FirstFree(t.servers[k].value.conns) < FirstIdle(t, k)
    ensures var k := ServerByJni(t, server);
            AcceptCall(t, server, jni, Some(link), accepted) ==
            (SetConn(t, ServerSlot(k, FirstFree(t.servers[k].value.conns)),
                Some(Conn(link.nfa, jni, 0, 0, link.miu, link.rw))), accepted)
  {
    var k := ServerByJni(t, server);
    var f := FirstFree(t.servers[k].value.conns);
    var result := AcceptCall(t, server, jni, Some(link), accepted);
    AllocatedIs(t, k, jni, link);
    var t' := SetConn(t, ServerSlot(k, f), Some(Conn(link.nfa, jni, 0, 0, link.miu, link.rw)));
    assert result.0.servers[k].value.conns == t'.servers[k].value.conns;
    assert result.0.servers == t'.servers;
  }

  lemma AcceptStaleBlock(t: Tables, server: JniHandle, jni: JniHandle, link: Link, accepted: bool)
    requires CanAccept(t, server, jni) && link.nfa != INVALID
    requires var k := ServerByJni(t, server); FirstFree(t.servers[k].value.conns) >= FirstIdle(t, k)
    ensures var k := ServerByJni(t, server);
            AcceptCall(t, server, jni, Some(link), accepted) ==
            (Bind(t, ServerSlot(k, FirstIdle(t, k)), link.nfa, link.miu, link.rw), false)
  {
    var k := ServerByJni(t, server);
    var f, g := FirstFree(t.servers[k].value.conns), FirstIdle(t, k);
    var result := AcceptCall(t, server, jni, Some(link), accepted);
    AllocatedIs(t, k, jni, link);
    FreshBlockIsOnly(t, Bind(AllocateConn(t, k, jni).0, ServerSlot(k, g), link.nfa, link.miu, link.rw), k, f, jni);
    var t' := Bind(t, ServerSlot(k, g), link.nfa, link.miu, link.rw);
    assert result.0.servers[k].value.conns == t'.servers[k].value.conns;
    assert result.0.servers == t'.servers;
  }

  /** accept keeps its block exactly when the CONN_REQ event reached that block, that is when no lower block of
      the server was left without a link; it keeps it even if the stack then refuses the connection.  Without an
      event the tables are as they were; with a stale lower block the event binds that block instead, and the
      call fails and gives its own block back. */
  lemma AcceptIs(t: Tables, server: JniHandle, jni: JniHandle, reply: Option<Link>, accepted: bool)
    requires Shaped(t) && DistinctJni(t) && Unused(t, jni) && ServersServed(t)
    requires reply.Some? ==> reply.value.nfa != INVALID
    ensures var k := ServerByJni(t, server);
            var result := AcceptCall(t, server, jni, reply, accepted);
            if k >= MAX_ENTRIES then result == (t, false) else
              var f, g := FirstFree(t.servers[k].value.conns), FirstIdle(t, k);
              if f >= MAX_CONNS_PER_SERVER || reply.None? then result == (t, false)
              else if f < g then
                result == (SetConn(t, ServerSlot(k, f),
                    Some(Conn(reply.value.nfa, jni, 0, 0, reply.value.miu, reply.value.rw))), accepted)
              else result == (Bind(t, ServerSlot(k, g), reply.value.nfa, reply.value.miu, reply.value.rw), false)
  {
    var k := ServerByJni(t, server);
    if k < MAX_ENTRIES && FirstFree(t.servers[k].value.conns) < MAX_CONNS_PER_SERVER {
      ServerFoundByHandle(t, k);
      if reply.None? {
        AcceptWithoutEvent(t, server, jni, accepted);
      } else if FirstFree(t.servers[k].value.conns) < FirstIdle(t, k) {
        AcceptOwnBlock(t, server, jni, reply.value, accepted);
      } else {
        AcceptStaleBlock(t, server, jni, reply.value, accepted);
      }
    }
  }

  lemma FreshBlockIsOnly(t: Tables, t': Tables, k: nat, f: nat, jni: JniHandle)
    requires Shaped(t) && Unused(t, jni) && k < MAX_ENTRIES && t.servers[k].Some? && f < MAX_CONNS_PER_SERVER
    requires |t'.servers| == MAX_ENTRIES && t'.servers[k].Some? && |t'.servers[k].value.conns| == MAX_CONNS_PER_SERVER
    requires t'.servers[k].value.conns[f].Some? && t'.servers[k].value.conns[f].value.jni == jni
    requires forall j :: 0 <= j < MAX_CONNS_PER_SERVER && j != f ==>
               t'.servers[k].value.conns[j].Some? == t.servers[k].value.conns[j].Some? &&
               (t'.servers[k].value.conns[j].Some? ==>
                   t'.servers[k].value.conns[j].value.jni == t.servers[k].value.conns[j].value.jni)
    ensures RemoveServerConn(t', k, jni) == SetConn(t', ServerSlot(k, f), None)
  {
    forall j: nat | j < MAX_CONNS_PER_SERVER && t.servers[k].value.conns[j].Some?
      ensures t.servers[k].value.conns[j].value.jni != jni
    {
      assert JniAt(t, OfConn(ServerSlot(k, j))) != Some(jni);
    }
    assert First(t'.servers[k].value.conns, (c: Conn) => c.jni == jni) == f;
  }

  /** Writing one server block under its old or a fresh handle keeps the handles distinct. */
  lemma BlockSetBalances(w: World, s: Slot)
    requires Balanced(w) && s.ServerSlot? && IsSlot(w.t, s)
    ensures forall c: Conn | (if ConnAt(w.t, s).Some? then ConnAt(w.t, s).value.jni == c.jni else Unused(w.t, c.jni)) ::
              Balanced(World(SetConn(w.t, s, Some(c)), w.registered))
  {
    forall c: Conn | (if ConnAt(w.t, s).Some? then ConnAt(w.t, s).value.jni == c.jni else Unused(w.t, c.jni))
      ensures Balanced(World(SetConn(w.t, s, Some(c)), w.registered))
    {
      var t' := SetConn(w.t, s, Some(c));
      SetConnAt(w.t, s, Some(c));
      assert forall i :: JniAt(t', OfServer(i)) == JniAt(w.t, OfServer(i));
      if ConnAt(w.t, s).None? {
        InsertAt(w.t, t', s, c);
      } else {
        assert forall x: Holder :: JniAt(t', x) == JniAt(w.t, x);
      }
      ServersAloneBalance(w, t');
    }
  }

  lemma AcceptBalances(w: World, server: JniHandle, jni: JniHandle)
    requires Balanced(w) && Unused(w.t, jni)
    ensures forall reply: Option<Link>, accepted | reply.Some? ==> reply.value.nfa != INVALID ::
              Balanced(World(AcceptCall(w.t, server, jni, reply, accepted).0, w.registered))
  {
    forall reply: Option<Link>, accepted | reply.Some? ==> reply.value.nfa != INVALID
      ensures Balanced(World(AcceptCall(w.t, server, jni, reply, accepted).0, w.registered))
    {
      AcceptIs(w.t, server, jni, reply, accepted);
      var t' := AcceptCall(w.t, server, jni, reply, accepted).0;
      if t' != w.t {
        var k := ServerByJni(w.t, server);
        var f, g := FirstFree(w.t.servers[k].value.conns), FirstIdle(w.t, k);
        var s := ServerSlot(k, if f < g then f else g);
        BlockSetBalances(w, s);
      }
    }
  }

  /** Between calls no client is connecting, so disconnectConnOriented takes the connection of a known handle out in
      every case, with a client's registration; an accepted disconnect also invalidates the block its DISC event finds,
      which is the one that goes unless another block has the same link.  It succeeds exactly if the stack accepted. */
  lemma DisconnectBalances(w: World, jni: JniHandle, accepted: bool)
    requires Balanced(w)
    ensures var (w', ok) := DisconnectCall(w, jni, accepted);
            var s := FindConnByJni(w.t, jni);
            && Balanced(w') && jni !in ConnMap(w'.t)
            && w'.registered == w.registered - Released(w.t, jni)
            && (s.None? ==> w' == w && !ok)
            && (s.Some? ==> var h := NfaAt(w.t, s.value);
                            (ok <==> h != INVALID && accepted) &&
                            (!ok || FindConnByNfa(w.t, h) == s ==> w' == RemoveConnCall(w, jni)))
  {
    FindConnSound(w.t, (c: Conn) => c.jni == jni);
    var s := FindConnByJni(w.t, jni);
    RemoveConnBalances(w, jni);
    if s.Some? && NfaAt(w.t, s.value) != INVALID && accepted { DiscThenRemoved(w, jni, NfaAt(w.t, s.value)); }
  }

  /** The DISC event changes no JNI handle and no registration, so the removal after it finds the same place. */
  lemma DiscThenRemoved(w: World, jni: JniHandle, h: NfaHandle)
    requires Balanced(w)
    ensures var w' := RemoveConnCall(World(OnDisc(w.t, h), w.registered), jni);
            && Balanced(w') && jni !in ConnMap(w'.t) && w'.registered == w.registered - Released(w.t, jni)
            && (FindConnByNfa(w.t, h) == FindConnByJni(w.t, jni) ==> w' == RemoveConnCall(w, jni))
  {
    var w1 := World(OnDisc(w.t, h), w.registered);
    assert Balanced(w1) by {
      EventBalances(w);
      assert w1 == Do(w, DiscEvt(h));
    }
    RemoveConnBalances(w1, jni);
    DiscKeepsPlace(w.t, jni, h);
  }

  lemma DiscKeepsPlace(t: Tables, jni: JniHandle, h: NfaHandle)
    requires Shaped(t) && DistinctJni(t)
    ensures Released(OnDisc(t, h), jni) == Released(t, jni)
    ensures FindConnByNfa(t, h) == FindConnByJni(t, jni) ==> RemoveConn(OnDisc(t, h), jni) == RemoveConn(t, jni)
  {
    FindConnSound(t, (c: Conn) => c.nfa == h);
    match FindConnByNfa(t, h)
    case None =>
    case Some(d) => InvalidateThenRemoved(t, jni, d);
  }

  lemma RemovedAnyway(t: Tables, d: Slot)
    requires ConnAt(t, d).Some?
    ensures RemoveAt(Invalidate(t, d), d) == RemoveAt(t, d)
  {
    var t1, t2 := RemoveAt(Invalidate(t, d), d), RemoveAt(t, d);
    if d.ServerSlot? { assert t1.servers[d.i].value.conns == t2.servers[d.i].value.conns; }
    assert t1.clients == t2.clients && t1.servers == t2.servers;
  }

  lemma InvalidateThenRemoved(t: Tables, jni: JniHandle, d: Slot)
    requires Shaped(t) && DistinctJni(t) && ConnAt(t, d).Some?
    ensures FindConnByJni(Invalidate(t, d), jni) == FindConnByJni(t, jni)
    ensures FindConnByJni(t, jni) == Some(d) ==> RemoveConn(Invalidate(t, d), jni) == RemoveConn(t, jni)
  {
    var t1 := Invalidate(t, d);
    SetConnAt(t, d, Some(ConnAt(t, d).value.(nfa := INVALID)));
    FindConnSound(t, (c: Conn) => c.jni == jni);
    FindConnSound(t1, (c: Conn) => c.jni == jni);
    if FindConnByJni(t, jni).Some? {
      assert Names(t1, FindConnByJni(t, jni).value, jni);
      assert Names(t, FindConnByJni(t1, jni).value, jni);
      SameJniSameSlot(t, FindConnByJni(t, jni).value, FindConnByJni(t1, jni).value, jni);
      RemovedAnyway(t, d);
    }
  }

  /** Made while the client's connect call waits, it only wakes that call: nothing changes, and it succeeds. */
  lemma DisconnectWhileConnecting(w: World, k: nat, link: Option<Link>, accepted: bool)
    requires Balanced(w) && k < MAX_ENTRIES && w.t.clients[k].Some?
    ensures var w2 := WhileConnecting(w, k, link);
            DisconnectCall(w2, w.t.clients[k].value.conn.jni, accepted) == (w2, true)
  {
    var t2, jni := WhileConnecting(w, k, link).t, w.t.clients[k].value.conn.jni;
    assert forall h: Holder :: JniAt(t2, h) == JniAt(w.t, h);
    assert Names(t2, ClientSlot(k), jni);
    FindConnSound(t2, (x: Conn) => x.jni == jni);
    SameJniSameSlot(t2, ClientSlot(k), ClientSlot(ClientByJni(t2, jni)), jni);
  }

  // ---------------------------------------------------------------- any sequence of calls

  datatype Call =
    | RegisterServer(jni: JniHandle, name: string, accepted: bool, serverReply: Option<NfaHandle>)
    | DeregisterServer(jni: JniHandle)
    | CreateClient(jni: JniHandle, miu: nat, rw: nat, clientReply: Option<NfaHandle>)
    | Connect(jni: JniHandle, accepted: bool, link: Option<Link>)
    | Accept(server: JniHandle, jni: JniHandle, link: Option<Link>, accepted: bool)
    | Disconnect(jni: JniHandle, accepted: bool)
    | TurnOff
    | TurnOn
    | ConnReqEvt(serverNfa: NfaHandle, eventLink: Link)
    | ConnectedEvt(clientNfa: NfaHandle, eventLink: Link)
    | DiscEvt(nfa: NfaHandle)

  /** New objects come with JNI handles nobody has, and the stack's registrations with handles nobody has. */
  ghost predicate Callable(w: World, c: Call) {
    match c
    case RegisterServer(jni, _, _, reply) =>
      Unused(w.t, jni) && (reply.Some? && reply.value != INVALID ==> NotServed(w.t, reply.value))
    case CreateClient(jni, _, _, reply) =>
      Unused(w.t, jni) && (reply.Some? && reply.value != INVALID ==> reply.value !in w.registered)
    case Accept(server, jni, link, _) => Unused(w.t, jni) && (link.Some? ==> link.value.nfa != INVALID)
    case _ => true
  }

  function Do(w: World, c: Call): World {
    match c
    case RegisterServer(jni, name, accepted, reply) =>
      World(RegisterServerCall(w.t, jni, name, accepted, reply).0, w.registered)
    case DeregisterServer(jni) => World(P2pTables.RemoveServer(w.t, jni), w.registered)
    case CreateClient(jni, miu, rw, reply) => CreateClientCall(w, jni, miu, rw, reply).0
    case Connect(jni, accepted, link) => CreateDataLinkConnCall(w, jni, accepted, link).0
    case Accept(server, jni, link, accepted) => World(AcceptCall(w.t, server, jni, link, accepted).0, w.registered)
    case Disconnect(jni, accepted) => DisconnectCall(w, jni, accepted).0
    case TurnOff => World(TurnedOff(w.t), w.registered)
    case TurnOn => World(EmptyTables(), {})
    case ConnReqEvt(server, link) => World(OnConnReq(w.t, server, link), w.registered)
    case ConnectedEvt(client, link) => World(OnConnected(w.t, client, link), w.registered)
    case DiscEvt(h) => World(OnDisc(w.t, h), w.registered)
  }

  /** A link bound to, or taken from, one connection block keeps the balance. */
  lemma ConnSetBalances(w: World, s: Slot)
    requires Balanced(w) && ConnAt(w.t, s).Some?
    ensures forall c: Conn | c.jni == ConnAt(w.t, s).value.jni ::
              Balanced(World(SetConn(w.t, s, Some(c)), w.registered))
  {
    forall c: Conn | c.jni == ConnAt(w.t, s).value.jni
      ensures Balanced(World(SetConn(w.t, s, Some(c)), w.registered))
    {
      match s
      case ClientSlot(k) => UpdatedBalances(w, k);
      case ServerSlot(_, _) => BlockSetBalances(w, s);
    }
  }

  lemma EventBalances(w: World)
    requires Balanced(w)
    ensures forall c: Call | c.ConnReqEvt? || c.ConnectedEvt? || c.DiscEvt? :: Balanced(Do(w, c))
  {
    forall c: Call | c.ConnReqEvt? || c.ConnectedEvt? || c.DiscEvt? ensures Balanced(Do(w, c)) {
      match c
      case ConnReqEvt(server, link) =>
        var k := ServerByNfa(w.t, server);
        if k < |w.t.servers| && FirstIdle(w.t, k) < MAX_CONNS_PER_SERVER {
          var s := ServerSlot(k, FirstIdle(w.t, k));
          ConnSetBalances(w, s);
        }
      case ConnectedEvt(client, link) =>
        var k := ClientByNfa(w.t, client);
        if k < |w.t.clients| {
          var s := ClientSlot(k);
          ConnSetBalances(w, s);
        }
      case DiscEvt(h) =>
        FindConnSound(w.t, (x: Conn) => x.nfa == h);
        match FindConnByNfa(w.t, h)
        case Some(s) => ConnSetBalances(w, s);
        case None =>
    }
  }

  lemma TurnOffBalances(t: Tables)
    ensures forall registered :: Balanced(World(t, registered)) ==> Balanced(World(TurnedOff(t), registered))
  {
    forall registered | Balanced(World(t, registered)) ensures Balanced(World(TurnedOff(t), registered)) {
      var t' := TurnedOff(t);
      TurnedOffInvalidatesAll(t);
      forall h: Holder ensures JniAt(t', h) == JniAt(t, h) {
        match h
        case OfConn(a) => assert ConnAt(t', a) == ConnAt(t, a) || ConnAt(t, a).Some?;
        case OfServer(i) =>
          if i < MAX_ENTRIES && t.servers[i].Some? {
            assert t'.servers[i].value.(conns := []) == t.servers[i].value.(conns := []);
          }
      }
      forall i | 0 <= i < MAX_ENTRIES && t.servers[i].Some?
        ensures t'.servers[i].value.name == t.servers[i].value.name &&
            t'.servers[i].value.nfa == t.servers[i].value.nfa
      {
        assert t'.servers[i].value.(conns := []) == t.servers[i].value.(conns := []);
      }
      forall i | 0 <= i < MAX_ENTRIES && t.clients[i].Some?
        ensures t'.clients[i].value.nfa == t.clients[i].value.nfa &&
            t'.clients[i].value.connecting == t.clients[i].value.connecting
      {
        assert t'.clients[i].value.(conn := NewConn(0)) == t.clients[i].value.(conn := NewConn(0));
      }
      assert forall h, i :: 0 <= i < MAX_ENTRIES ==> HasHandle(t', i, h) == HasHandle(t, i, h);
    }
  }

  lemma DeregisterBalances(w: World)
    requires Balanced(w)
    ensures forall jni :: Balanced(World(P2pTables.RemoveServer(w.t, jni), w.registered))
  {
    forall jni ensures Balanced(World(P2pTables.RemoveServer(w.t, jni), w.registered)) {
      var t' := P2pTables.RemoveServer(w.t, jni);
      assert forall h: Holder :: JniAt(t', h).Some? ==> JniAt(t', h) == JniAt(w.t, h);
      ServersAloneBalance(w, t');
    }
  }

  /** The empty tables, from which every run starts, are in balance. */
  lemma TurnOnBalances()
    ensures Balanced(World(EmptyTables(), {}))
  {
    assert forall h: Holder :: JniAt(EmptyTables(), h).None?;
  }

  lemma CallBalances(w: World)
    requires Balanced(w)
    ensures forall c | Callable(w, c) :: Balanced(Do(w, c))
  {
    forall c | Callable(w, c) ensures Balanced(Do(w, c)) {
      match c
      case RegisterServer(jni, name, accepted, reply) =>
        RegisterServerBalances(w, jni, name);
        assert RegisterOutcome(w, jni, name, accepted, reply);
      case DeregisterServer(jni) => DeregisterBalances(w);
      case CreateClient(jni, miu, rw, reply) =>
        CreateClientBalances(w, jni, miu, rw);
        assert CreateOutcome(w, jni, miu, rw, reply);
      case Connect(jni, accepted, link) =>
        ConnectBalances(w, jni);
        assert ConnectOutcome(w, jni, accepted, link);
      case Accept(server, jni, link, accepted) => AcceptBalances(w, server, jni);
      case Disconnect(jni, accepted) => DisconnectBalances(w, jni, accepted);
      case TurnOff => TurnOffBalances(w.t);
      case TurnOn => TurnOnBalances();
      case _ => EventBalances(w);
    }
  }

  /** What the calls without a result do: the server goes with its connections and nothing else does; every link is
      given up; everything is gone. */
  lemma CallsTakeEffect(w: World, c: Call)
    requires Balanced(w)
    ensures match c
            case DeregisterServer(jni) =>
              && JniUnserved(Do(w, c).t, jni) && Do(w, c).t.clients == w.t.clients
              && forall i :: 0 <= i < MAX_ENTRIES && w.t.servers[i] != Do(w, c).t.servers[i] ==>
                     w.t.servers[i].Some? && w.t.servers[i].value.jni == jni
            case TurnOff => forall s: Slot :: NfaAt(Do(w, c).t, s) == INVALID
            case TurnOn => Do(w, c).registered == {} && forall h: Holder :: JniAt(Do(w, c).t, h).None?
            case _ => true
  {
    match c
    case DeregisterServer(jni) =>
      forall i | 0 <= i < MAX_ENTRIES && w.t.servers[i].Some? && w.t.servers[i].value.jni == jni
        ensures ServerByJni(w.t, jni) == i
      {
        FirstServerIsOnly(w.t, jni, i);
      }
    case TurnOff => TurnedOffInvalidatesAll(w.t);
    case _ =>
  }

  ghost predicate JniUnserved(t: Tables, jni: JniHandle) {
    |t.servers| == MAX_ENTRIES &&
    forall i :: 0 <= i < MAX_ENTRIES && t.servers[i].Some? ==> t.servers[i].value.jni != jni
  }

  /** A run of calls, each of which could be made where it was made. */
  ghost predicate Run(w: World, calls: seq<Call>, w': World)
    decreases |calls|
  {
    if calls == [] then w' == w else Callable(w, calls[0]) && Run(Do(w, calls[0]), calls[1..], w')
  }

  /** After any sequence of calls and events from NFC being switched on, the client handles registered with the stack
      are exactly the valid client handles in the table, each held by one client, and every server has a stack handle
      of its own. */
  lemma {:induction false} RunsBalance(w: World, calls: seq<Call>)
    requires Balanced(w)
    ensures forall w' :: Run(w, calls, w') ==> Balanced(w')
    decreases |calls|
  {
    if calls != [] && Callable(w, calls[0]) {
      CallBalances(w);
      RunsBalance(Do(w, calls[0]), calls[1..]);
    }
  }
}
