/** The two fixed tables of the LLCP connection manager as values, and what each mutex section of
    PeerToPeer does to them.  The class in P2pManager is proved against these functions. */
module P2pTables {
  import opened Common

  const MAX_ENTRIES: nat := 10
  const MAX_CONNS_PER_SERVER: nat := 5

  /** A handle given out by the stack; the stack's "no handle" is its largest 16-bit value. */
  type NfaHandle = h: int | 0 <= h <= 0xFFFF
  const INVALID: NfaHandle := 0xFFFF

  /** A handle given out to Java: a 32-bit counter value. */
  type JniHandle = h: int | 0 <= h < 0x1_0000_0000

  datatype Conn = Conn(nfa: NfaHandle, jni: JniHandle, maxInfoUnit: nat, recvWindow: nat,
                       remoteMaxInfoUnit: nat, remoteRecvWindow: nat)
  datatype Client = Client(nfa: NfaHandle, connecting: bool, conn: Conn)
  datatype Server = Server(nfa: NfaHandle, jni: JniHandle, name: string, conns: seq<Option<Conn>>)
  datatype Tables = Tables(servers: seq<Option<Server>>, clients: seq<Option<Client>>)

  /** A place that can hold a connection. */
  datatype Slot = ClientSlot(i: nat) | ServerSlot(i: nat, j: nat)

  ghost predicate Shaped(t: Tables) {
    && |t.servers| == MAX_ENTRIES
    && |t.clients| == MAX_ENTRIES
    && forall i :: 0 <= i < MAX_ENTRIES && t.servers[i].Some? ==> |t.servers[i].value.conns| == MAX_CONNS_PER_SERVER
  }

  function Empty<T>(n: nat): (s: seq<Option<T>>)
    ensures |s| == n && forall i :: 0 <= i < n ==> s[i].None?
  {
    if n == 0 then [] else Empty(n - 1) + [None]
  }

  /** The state handleNfcOnOff(true) starts from: no clients, no servers. */
  function EmptyTables(): (t: Tables)
    ensures Shaped(t)
  {
    Tables(Empty(MAX_ENTRIES), Empty(MAX_ENTRIES))
  }

  function NewConn(jni: JniHandle): Conn {
    Conn(INVALID, jni, 0, 0, 0, 0)
  }

  // ---------------------------------------------------------------- first-match scans

  /** Index of the first occupied slot whose content satisfies p; the length of the table if none does. */
  function FirstFrom<T>(s: seq<Option<T>>, p: T -> bool, from: nat): (k: nat)
    requires from <= |s|
    ensures from <= k <= |s|
    ensures k < |s| ==> s[k].Some? && p(s[k].value)
    ensures forall i :: from <= i < k ==> s[i].None? || !p(s[i].value)
    decreases |s| - from
  {
    if from == |s| then from
    else if s[from].Some? && p(s[from].value) then from
    else FirstFrom(s, p, from + 1)
  }

  function First<T>(s: seq<Option<T>>, p: T -> bool): (k: nat)
    ensures k <= |s|
    ensures k < |s| ==> s[k].Some? && p(s[k].value)
    ensures forall i :: 0 <= i < k ==> s[i].None? || !p(s[i].value)
  {
    FirstFrom(s, p, 0)
  }

  function FirstFreeFrom<T>(s: seq<Option<T>>, from: nat): (k: nat)
    requires from <= |s|
    ensures from <= k <= |s|
    ensures k < |s| ==> s[k].None?
    ensures forall i :: from <= i < k ==> s[i].Some?
    decreases |s| - from
  {
    if from == |s| || s[from].None? then from else FirstFreeFrom(s, from + 1)
  }

  /** Index of the first empty slot; the length of the table if it is full. */
  function FirstFree<T>(s: seq<Option<T>>): (k: nat)
    ensures k <= |s|
    ensures k < |s| ==> s[k].None?
    ensures forall i :: 0 <= i < k ==> s[i].Some?
  {
    FirstFreeFrom(s, 0)
  }

  // ---------------------------------------------------------------- lookups

  ghost predicate IsSlot(t: Tables, s: Slot) {
    match s
    case ClientSlot(i) => i < |t.clients|
    case ServerSlot(i, j) => i < |t.servers| && t.servers[i].Some? && j < |t.servers[i].value.conns|
  }

  function ConnAt(t: Tables, s: Slot): Option<Conn> {
    match s
    case ClientSlot(i) =>
      if i < |t.clients| && t.clients[i].Some? then Some(t.clients[i].value.conn) else None
    case ServerSlot(i, j) =>
      if i < |t.servers| && t.servers[i].Some? && j < |t.servers[i].value.conns|
      then t.servers[i].value.conns[j] else None
  }

  /** The first connection that satisfies p, clients before servers, as findConnection scans. */
  function FindConn(t: Tables, p: Conn -> bool): Option<Slot> {
    var c := First(t.clients, (x: Client) => p(x.conn));
    if c < |t.clients| then Some(ClientSlot(c)) else FindServerConn(t, p, 0)
  }

  /** The server part of that scan, from server `from` upwards. */
  function FindServerConn(t: Tables, p: Conn -> bool, from: nat): Option<Slot>
    decreases |t.servers| - from
  {
    if from >= |t.servers| then None
    else if t.servers[from].None? then FindServerConn(t, p, from + 1)
    else
      var j := First(t.servers[from].value.conns, p);
      if j < |t.servers[from].value.conns| then Some(ServerSlot(from, j)) else FindServerConn(t, p, from + 1)
  }

  function FindConnByJni(t: Tables, jni: JniHandle): Option<Slot> { FindConn(t, (c: Conn) => c.jni == jni) }

  function FindConnByNfa(t: Tables, nfa: NfaHandle): Option<Slot> { FindConn(t, (c: Conn) => c.nfa == nfa) }

  /** The first entry with the given name or handle; the length of the table if, and only if, there is none. */
  function ServerByJni(t: Tables, jni: JniHandle): (k: nat)
    ensures k <= |t.servers| && (k < |t.servers| ==> t.servers[k].Some? && t.servers[k].value.jni == jni)
    ensures forall i :: 0 <= i < k && t.servers[i].Some? ==> t.servers[i].value.jni != jni
  {
    First(t.servers, (s: Server) => s.jni == jni)
  }

  function ServerByNfa(t: Tables, nfa: NfaHandle): (k: nat)
    ensures k <= |t.servers| && (k < |t.servers| ==> t.servers[k].Some? && t.servers[k].value.nfa == nfa)
    ensures forall i :: 0 <= i < k && t.servers[i].Some? ==> t.servers[i].value.nfa != nfa
  {
    First(t.servers, (s: Server) => s.nfa == nfa)
  }

  function ServerByName(t: Tables, name: string): (k: nat)
    ensures k <= |t.servers| && (k < |t.servers| ==> t.servers[k].Some? && t.servers[k].value.name == name)
    ensures forall i :: 0 <= i < k && t.servers[i].Some? ==> t.servers[i].value.name != name
  {
    First(t.servers, (s: Server) => s.name == name)
  }

  function ClientByJni(t: Tables, jni: JniHandle): (k: nat)
    ensures k <= |t.clients| && (k < |t.clients| ==> t.clients[k].Some? && t.clients[k].value.conn.jni == jni)
    ensures forall i :: 0 <= i < k && t.clients[i].Some? ==> t.clients[i].value.conn.jni != jni
  {
    First(t.clients, (c: Client) => c.conn.jni == jni)
  }

  function ClientByNfa(t: Tables, nfa: NfaHandle): (k: nat)
    ensures k <= |t.clients| && (k < |t.clients| ==> t.clients[k].Some? && t.clients[k].value.nfa == nfa)
    ensures forall i :: 0 <= i < k && t.clients[i].Some? ==> t.clients[i].value.nfa != nfa
  {
    First(t.clients, (c: Client) => c.nfa == nfa)
  }

  // ---------------------------------------------------------------- what the mutex sections do

  function SetServer(t: Tables, i: nat, s: Option<Server>): Tables
    requires i < |t.servers|
  {
    t.(servers := t.servers[i := s])
  }

  function SetClient(t: Tables, i: nat, c: Option<Client>): Tables
    requires i < |t.clients|
  {
    t.(clients := t.clients[i := c])
  }

  function SetConn(t: Tables, s: Slot, c: Option<Conn>): Tables
    requires ConnAt(t, s).Some? || (s.ServerSlot? && IsSlot(t, s))
    requires s.ClientSlot? ==> c.Some?
  {
    match s
    case ClientSlot(i) => SetClient(t, i, Some(t.clients[i].value.(conn := c.value)))
    case ServerSlot(i, j) =>
      SetServer(t, i, Some(t.servers[i].value.(conns := t.servers[i].value.conns[j := c])))
  }

  datatype Placement = Existing(i: nat) | Added(i: nat) | Full

  /** The locked part of registerServer: refresh the JNI handle of a server with that name, or take
      the first empty slot. */
  function PlaceServer(t: Tables, jni: JniHandle, name: string): (Tables, Placement) {
    var k := ServerByName(t, name);
    var f := FirstFree(t.servers);
    if k < |t.servers| then (SetServer(t, k, Some(t.servers[k].value.(jni := jni))), Existing(k))
    else if f < |t.servers| then
      (SetServer(t, f, Some(Server(INVALID, jni, name, Empty(MAX_CONNS_PER_SERVER)))), Added(f))
    else (t, Full)
  }

  function RemoveServer(t: Tables, jni: JniHandle): Tables {
    var k := ServerByJni(t, jni);
    if k < |t.servers| then SetServer(t, k, None) else t
  }

  /** The locked part of createClient. */
  function PlaceClient(t: Tables, jni: JniHandle, miu: nat, rw: nat): (Tables, Option<nat>) {
    var f := FirstFree(t.clients);
    if f < |t.clients|
    then (SetClient(t, f, Some(Client(INVALID, false, NewConn(jni).(maxInfoUnit := miu, recvWindow := rw)))), Some(f))
    else (t, None)
  }

  /** removeConn: a client goes as a whole, a server connection leaves its server in place. */
  function RemoveConn(t: Tables, jni: JniHandle): Tables {
    match FindConnByJni(t, jni)
    case None => t
    case Some(s) => RemoveAt(t, s)
  }

  function RemoveAt(t: Tables, s: Slot): Tables {
    if ConnAt(t, s).None? then t else
      match s
      case ClientSlot(i) => SetClient(t, i, None)
      case ServerSlot(i, j) => SetConn(t, s, None)
  }

  /** P2pServer::allocateConnection on the server in slot i. */
  function AllocateConn(t: Tables, i: nat, jni: JniHandle): (Tables, Option<Slot>) {
    if i >= |t.servers| || t.servers[i].None? then (t, None) else
      var f := FirstFree(t.servers[i].value.conns);
      if f < |t.servers[i].value.conns|
      then (SetConn(t, ServerSlot(i, f), Some(NewConn(jni))), Some(ServerSlot(i, f)))
      else (t, None)
  }

  /** P2pServer::removeServerConnection on the server in slot i. */
  function RemoveServerConn(t: Tables, i: nat, jni: JniHandle): Tables {
    if i >= |t.servers| || t.servers[i].None? then t else
      var j := First(t.servers[i].value.conns, (c: Conn) => c.jni == jni);
      if j < |t.servers[i].value.conns| then SetConn(t, ServerSlot(i, j), None) else t
  }

  /** Writing a link's stack handle and the peer's parameters into a connection block. */
  function Bind(t: Tables, s: Slot, nfa: NfaHandle, miu: nat, rw: nat): Tables
    requires ConnAt(t, s).Some?
  {
    SetConn(t, s, Some(ConnAt(t, s).value.(nfa := nfa, remoteMaxInfoUnit := miu, remoteRecvWindow := rw)))
  }

  function Invalidate(t: Tables, s: Slot): Tables {
    if ConnAt(t, s).None? then t else SetConn(t, s, Some(ConnAt(t, s).value.(nfa := INVALID)))
  }

  // ---------------------------------------------------------------- the two scans agree with slots

  /** A scan finds a slot exactly when some occupied slot satisfies the predicate, and what it
      returns satisfies it. */
  lemma {:induction false} FindServerConnSound(t: Tables, p: Conn -> bool, from: nat)
    ensures match FindServerConn(t, p, from)
            case Some(s) => s.ServerSlot? && from <= s.i && ConnAt(t, s).Some? && p(ConnAt(t, s).value)
            case None => forall s: Slot :: s.ServerSlot? && from <= s.i && ConnAt(t, s).Some? ==> !p(ConnAt(t, s).value)
    decreases |t.servers| - from
  {
    if from < |t.servers| {
      FindServerConnSound(t, p, from + 1);
    }
  }

  lemma FindConnSound(t: Tables, p: Conn -> bool)
    ensures match FindConn(t, p)
            case Some(s) => ConnAt(t, s).Some? && p(ConnAt(t, s).value)
            case None => forall s: Slot :: ConnAt(t, s).Some? ==> !p(ConnAt(t, s).value)
  {
    FindServerConnSound(t, p, 0);
  }

  lemma SetConnAt(t: Tables, s: Slot, c: Option<Conn>)
    requires Shaped(t)
    requires ConnAt(t, s).Some? || (s.ServerSlot? && IsSlot(t, s))
    requires s.ClientSlot? ==> c.Some?
    ensures Shaped(SetConn(t, s, c))
    ensures forall x: Slot :: ConnAt(SetConn(t, s, c), x) == if x == s then c else ConnAt(t, x)
  {
  }
}
