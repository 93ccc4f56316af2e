/** All interleavings of the mutex sections of PeerToPeer.  Application threads insert, remove and switch off;
    one stack callback at a time first finds a block under the locks and later writes to it, and anything may
    happen in between.  The stack hands out only handles that no live object has. */
module P2pRuns {
  import opened Common
  import opened P2pTables
  import opened P2pCalls
  import opened P2pMap

  /** What the callback thread holds between finding a block and writing to it.  The block is an object that
      never moves or changes its JNI handle; a removed block is still written to, without any effect here. */
  datatype Callback =
    | Idle
    | RegClientFound(jni: JniHandle, handle: NfaHandle)
    | ConnectedFound(jni: JniHandle, link: Link)
    | ServerFound(name: string, link: Link)  // CONN_REQ: the server, not yet its block
    | ConnReqFound(jni: JniHandle, link: Link)
    | DiscFound(jni: JniHandle, handle: NfaHandle)

  datatype State = State(t: Tables, issued: nat, pool: set<JniHandle>,
                         live: set<NfaHandle>, regs: set<NfaHandle>, cb: Callback)

  datatype Action =
    | GetNewJniHandle
    | PlaceServerSection(jni: JniHandle, name: string)
    | RemoveServerSection(jni: JniHandle)
    | PlaceClientSection(jni: JniHandle, miu: nat, rw: nat)
    | RemoveConnSection(jni: JniHandle)
    | AllocateSection(i: nat, jni: JniHandle)
    | RemoveServerConnSection(i: nat, jni: JniHandle)
    | RegServerEvt(name: string, handle: NfaHandle)
    | RegClientEvt(handle: NfaHandle)
    | ConnectedEvt(client: NfaHandle, link: Link)
    | ConnReqEvt(server: NfaHandle, link: Link)
    | DiscEvt(handle: NfaHandle)
    | CallbackLooks(present: bool)
    | CallbackWrites
    | NfcOff
    | NfcOn

  const Start: State := State(EmptyTables(), 0, {}, {}, {}, Idle)

  /** The callback holds a block. */
  predicate Holds(cb: Callback) { !cb.Idle? && !cb.ServerFound? }

  /** Handles come from the counter, one use each; the stack's handles are fresh; callbacks do not overlap. */
  ghost predicate Enabled(s: State, a: Action) {
    match a
    case GetNewJniHandle => s.issued + 1 < 0x1_0000_0000
    case PlaceServerSection(jni, _) => jni in s.pool
    case PlaceClientSection(jni, _, _) => jni in s.pool
    case AllocateSection(_, jni) => jni in s.pool
    case RegServerEvt(_, _) => s.cb.Idle?
    case RegClientEvt(h) => s.cb.Idle? && h != INVALID && h !in s.regs
    case ConnectedEvt(_, link) => s.cb.Idle? && link.nfa != INVALID && link.nfa !in s.live
    case ConnReqEvt(_, link) => s.cb.Idle? && link.nfa != INVALID && link.nfa !in s.live
    case DiscEvt(h) => s.cb.Idle? && h in s.live
    case CallbackLooks(_) => s.cb.ServerFound?
    case CallbackWrites => Holds(s.cb)
    case NfcOn => s.cb.Idle?
    case _ => true
  }

  function FoundByRegClient(t: Tables, h: NfaHandle): Callback {
    var k := ClientByNfa(t, INVALID);
    if k < |t.clients| then RegClientFound(t.clients[k].value.conn.jni, h) else Idle
  }

  function FoundByConnected(t: Tables, client: NfaHandle, link: Link): Callback {
    var k := ClientByNfa(t, client);
    if k < |t.clients| then ConnectedFound(t.clients[k].value.conn.jni, link) else Idle
  }

  /** The event's server, under mMutex. */
  function FoundByConnReq(t: Tables, server: NfaHandle, link: Link): Callback {
    var k := ServerByNfa(t, server);
    if k < |t.servers| then ServerFound(t.servers[k].value.name, link) else Idle
  }

  /** Its first block without a link, under the server's own mutex.  The server object keeps its name; if it was removed
      in between, its blocks are in no table any more. */
  function FoundInServer(t: Tables, name: string, link: Link, present: bool): Callback {
    var k := ServerByName(t, name);
    if !present || k >= |t.servers| then Idle else
      var j := First(t.servers[k].value.conns, (c: Conn) => c.nfa == INVALID);
      if j < |t.servers[k].value.conns| then ConnReqFound(t.servers[k].value.conns[j].value.jni, link) else Idle
  }

  function FoundByDisc(t: Tables, h: NfaHandle): Callback {
    match FindConnByNfa(t, h)
    case Some(s) => (match ConnAt(t, s) case Some(c) => DiscFound(c.jni, h) case None => Idle)
    case None => Idle
  }

  function SetClientHandle(t: Tables, jni: JniHandle, h: NfaHandle): Tables {
    var k := ClientByJni(t, jni);
    if k < |t.clients| then SetClient(t, k, Some(t.clients[k].value.(nfa := h))) else t
  }

  function Written(t: Tables, cb: Callback): Tables {
    match cb
    case Idle => t
    case ServerFound(_, _) => t
    case RegClientFound(jni, h) => SetClientHandle(t, jni, h)
    case DiscFound(jni, _) => (match FindConnByJni(t, jni) case Some(s) => Invalidate(t, s) case None => t)
    case _ =>
      match FindConnByJni(t, cb.jni)
      case None => t
      case Some(s) => if ConnAt(t, s).Some? then Bind(t, s, cb.link.nfa, cb.link.miu, cb.link.rw) else t
  }

  ghost function Next(s: State, a: Action): State
    requires Enabled(s, a)
  {
    match a
    case GetNewJniHandle => s.(issued := s.issued + 1, pool := s.pool + {s.issued + 1})
    case PlaceServerSection(jni, name) => s.(t := PlaceServer(s.t, jni, name).0, pool := s.pool - {jni})
    case RemoveServerSection(jni) => s.(t := RemoveServer(s.t, jni))
    case PlaceClientSection(jni, miu, rw) => s.(t := PlaceClient(s.t, jni, miu, rw).0, pool := s.pool - {jni})
    case RemoveConnSection(jni) => s.(t := RemoveConn(s.t, jni), regs := s.regs - Released(s.t, jni))
    case AllocateSection(i, jni) => s.(t := AllocateConn(s.t, i, jni).0, pool := s.pool - {jni})
    case RemoveServerConnSection(i, jni) => s.(t := RemoveServerConn(s.t, i, jni))
    case RegServerEvt(name, h) => s.(t := OnRegServer(s.t, name, h))
    case RegClientEvt(h) => s.(regs := s.regs + {h}, cb := FoundByRegClient(s.t, h))
    case ConnectedEvt(client, link) => s.(live := s.live + {link.nfa}, cb := FoundByConnected(s.t, client, link))
    case ConnReqEvt(server, link) => s.(live := s.live + {link.nfa}, cb := FoundByConnReq(s.t, server, link))
    case DiscEvt(h) => s.(live := s.live - {h}, cb := FoundByDisc(s.t, h))
    case CallbackLooks(present) => s.(cb := FoundInServer(s.t, s.cb.name, s.cb.link, present))
    case CallbackWrites => s.(t := Written(s.t, s.cb), cb := Idle)
    case NfcOff => s.(t := TurnedOff(s.t))
    case NfcOn => s.(t := EmptyTables(), regs := {})
  }

  ghost predicate Reachable(s: State, steps: nat)
    decreases steps
  {
    if steps == 0 then s == Start else
      exists p, a :: Reachable(p, steps - 1) && Enabled(p, a) && s == Next(p, a)
  }

  // ---------------------------------------------------------------- the invariant

  function ClientNfaAt(t: Tables, i: nat): NfaHandle {
    if i < |t.clients| && t.clients[i].Some? then t.clients[i].value.nfa else INVALID
  }

  /** JNI handles: each was given out, is held once, and is not waiting to be used. */
  ghost predicate JniInv(s: State) {
    && DistinctJni(s.t)
    && (forall h: Holder :: JniAt(s.t, h).Some? ==>
        1 <= JniAt(s.t, h).value <= s.issued && JniAt(s.t, h).value !in s.pool)
    && (forall j :: j in s.pool ==> 1 <= j <= s.issued)
    && (Holds(s.cb) ==> 1 <= s.cb.jni <= s.issued && s.cb.jni !in s.pool)
    && s.issued < 0x1_0000_0000
  }

  /** Link handles: a valid one is held once, and its link is live or its disconnection is being handled. */
  ghost predicate NfaInv(s: State) {
    && (forall a: Slot, b: Slot :: NfaAt(s.t, a) != INVALID && NfaAt(s.t, a) == NfaAt(s.t, b) ==> a == b)
    && (forall a: Slot :: NfaAt(s.t, a) != INVALID ==>
          NfaAt(s.t, a) in s.live || (s.cb.DiscFound? && NfaAt(s.t, a) == s.cb.handle && Names(s.t, a, s.cb.jni)))
    && INVALID !in s.live
  }

  /** Client handles: a valid one is held once and registered with the stack. */
  ghost predicate ClientInv(s: State) {
    && (forall i, k :: ClientNfaAt(s.t, i) != INVALID && ClientNfaAt(s.t, i) == ClientNfaAt(s.t, k) ==> i == k)
    && (forall i :: ClientNfaAt(s.t, i) != INVALID ==> ClientNfaAt(s.t, i) in s.regs)
  }

  /** What the callback found is still as it found it, unless it was removed or switched off. */
  ghost predicate CallbackInv(s: State) {
    match s.cb
    case Idle => true
    case RegClientFound(jni, h) =>
      && h != INVALID && h in s.regs && (forall i :: ClientNfaAt(s.t, i) != h)
      && (forall i :: JniAt(s.t, OfConn(ClientSlot(i))) == Some(jni) ==> ClientNfaAt(s.t, i) == INVALID)
    case ConnectedFound(jni, link) => link.nfa in s.live && forall a: Slot :: NfaAt(s.t, a) != link.nfa
    case ServerFound(_, link) => link.nfa in s.live && forall a: Slot :: NfaAt(s.t, a) != link.nfa
    case ConnReqFound(jni, link) =>
      && link.nfa in s.live && (forall a: Slot :: NfaAt(s.t, a) != link.nfa)
      && (forall a: Slot :: Names(s.t, a, jni) ==> NfaAt(s.t, a) == INVALID)
    case DiscFound(jni, h) =>
      && h !in s.live && h != INVALID
      && (forall a: Slot :: Names(s.t, a, jni) ==> NfaAt(s.t, a) == h || NfaAt(s.t, a) == INVALID)
  }

  ghost predicate Inv(s: State) {
    Shaped(s.t) && DistinctNames(s.t) && JniInv(s) && NfaInv(s) && ClientInv(s) && CallbackInv(s)
  }

  // ---------------------------------------------------------------- steps that only take away

  /** From s to t' and regs' holders were only removed and handles only invalidated. */
  ghost predicate OnlyLess(s: State, t': Tables, regs': set<NfaHandle>) {
    && Shaped(t') && DistinctNames(t')
    && (forall h: Holder :: JniAt(t', h).Some? ==> JniAt(t', h) == JniAt(s.t, h))
    && (forall a: Slot :: NfaAt(t', a) == NfaAt(s.t, a) || NfaAt(t', a) == INVALID)
    && (forall i ::
          ClientNfaAt(t', i) == ClientNfaAt(s.t, i) ||
          (ClientNfaAt(t', i) == INVALID && JniAt(t', OfConn(ClientSlot(i))).None?))
    && regs' <= s.regs
    && (forall i :: ClientNfaAt(t', i) != INVALID ==> ClientNfaAt(t', i) in regs')
    && (s.cb.RegClientFound? ==> s.cb.handle in regs')
  }

  /** That keeps the invariant, whatever the callback is doing. */
  lemma LessKeepsInv(s: State)
    requires Inv(s)
    ensures forall t', regs' | OnlyLess(s, t', regs') :: Inv(s.(t := t', regs := regs'))
  {
    forall t', regs' | OnlyLess(s, t', regs') ensures Inv(s.(t := t', regs := regs')) {
      var s' := s.(t := t', regs := regs');
      forall a: Slot, j: JniHandle | Names(t', a, j) ensures Names(s.t, a, j) {
        assert JniAt(t', OfConn(a)) == Some(j);
      }
      forall a: Slot | NfaAt(t', a) != INVALID ensures Names(t', a, JniAt(t', OfConn(a)).value) {}
    }
  }

  lemma RemoveServerKeepsInv(s: State)
    requires Inv(s)
    ensures forall jni :: Inv(s.(t := RemoveServer(s.t, jni)))
  {
    forall jni ensures Inv(s.(t := RemoveServer(s.t, jni))) {
      LessKeepsInv(s);
      assert OnlyLess(s, RemoveServer(s.t, jni), s.regs);
    }
  }

  lemma RemoveConnKeepsInv(s: State)
    requires Inv(s)
    ensures forall jni :: Inv(s.(t := RemoveConn(s.t, jni), regs := s.regs - Released(s.t, jni)))
  {
    forall jni ensures Inv(s.(t := RemoveConn(s.t, jni), regs := s.regs - Released(s.t, jni))) {
      RemoveConnAt(s.t, jni);
      var t' := RemoveConn(s.t, jni);
      forall h: Holder | JniAt(t', h).Some? ensures JniAt(t', h) == JniAt(s.t, h) {}
      assert forall a: Slot :: NfaAt(t', a) == NfaAt(s.t, a) || NfaAt(t', a) == INVALID;
      forall h | h in Released(s.t, jni)
        ensures exists k: nat :: ClientNfaAt(s.t, k) == h && ClientNfaAt(t', k) == INVALID && h != INVALID
      {
        var k := FindConnByJni(s.t, jni).value.i;
        assert ClientNfaAt(s.t, k) == h && ClientNfaAt(t', k) == INVALID;
      }
      LessKeepsInv(s);
      assert OnlyLess(s, t', s.regs - Released(s.t, jni));
    }
  }

  lemma RemoveServerConnKeepsInv(s: State)
    requires Inv(s)
    ensures forall i: nat, jni :: Inv(s.(t := RemoveServerConn(s.t, i, jni)))
  {
    forall i: nat, jni ensures Inv(s.(t := RemoveServerConn(s.t, i, jni))) {
      var t' := RemoveServerConn(s.t, i, jni);
      if t' != s.t {
        var j := First(s.t.servers[i].value.conns, (c: Conn) => c.jni == jni);
        SetConnAt(s.t, ServerSlot(i, j), None);
      }
      forall h: Holder | JniAt(t', h).Some? ensures JniAt(t', h) == JniAt(s.t, h) {}
      LessKeepsInv(s);
      assert OnlyLess(s, t', s.regs);
    }
  }

  lemma NfcOffKeepsInv(t: Tables)
    ensures forall s: State | s.t == t && Inv(s) :: Inv(s.(t := TurnedOff(t)))
  {
    forall s: State | s.t == t && Inv(s) ensures Inv(s.(t := TurnedOff(t))) {
      var t' := TurnedOff(t);
      TurnedOffInvalidatesAll(t);
      forall h: Holder | JniAt(t', h).Some? ensures JniAt(t', h) == JniAt(t, h) {
        match h
        case OfConn(a) => assert ConnAt(t', a) == ConnAt(t, a) || ConnAt(t, a).Some?;
        case OfServer(i) => assert t'.servers[i].value.(conns := []) == t.servers[i].value.(conns := []);
      }
      forall i, k | 0 <= i < k < |t'.servers| && t'.servers[i].Some? && t'.servers[k].Some?
        ensures t'.servers[i].value.name != t'.servers[k].value.name
      {
        assert t'.servers[i].value.(conns := []) == t.servers[i].value.(conns := []);
        assert t'.servers[k].value.(conns := []) == t.servers[k].value.(conns := []);
      }
      forall i: nat ensures ClientNfaAt(t', i) == ClientNfaAt(t, i) {
        if i < MAX_ENTRIES && t.clients[i].Some? {
          assert t'.clients[i].value.(conn := NewConn(0)) == t.clients[i].value.(conn := NewConn(0));
        }
      }
      LessKeepsInv(s);
      assert OnlyLess(s, t', s.regs);
    }
  }

  // ---------------------------------------------------------------- steps that add a holder

  /** From s to t' the handle jni went from the pool to the place at, empty or a server's; nothing else changed. */
  ghost predicate OnlyGains(s: State, t': Tables, at: Holder, jni: JniHandle) {
    && Shaped(t') && DistinctNames(t') && jni in s.pool
    && (forall h: Holder :: JniAt(t', h) == if h == at then Some(jni) else JniAt(s.t, h))
    && (forall a: Slot :: NfaAt(t', a) == NfaAt(s.t, a))
    && (forall i :: ClientNfaAt(t', i) == ClientNfaAt(s.t, i))
    && (at.OfConn? ==> NfaAt(t', at.s) == INVALID)
  }

  /** A handle moving from the pool into an empty place, or replacing a server's handle, keeps the invariant. */
  lemma HolderKeepsInv(s: State)
    requires Inv(s)
    ensures forall t', at, jni | OnlyGains(s, t', at, jni) :: Inv(s.(t := t', pool := s.pool - {jni}))
  {
    forall t', at, jni | OnlyGains(s, t', at, jni) ensures Inv(s.(t := t', pool := s.pool - {jni})) {
      forall a: Slot, j: JniHandle | Names(t', a, j) && j != jni ensures Names(s.t, a, j) {
        assert JniAt(t', OfConn(a)) == Some(j);
      }
      forall a: Slot, j: JniHandle | Names(s.t, a, j) && at != OfConn(a) ensures Names(t', a, j) {
        assert JniAt(s.t, OfConn(a)) == Some(j) == JniAt(t', OfConn(a));
      }
    }
  }

  lemma PlaceServerKeepsInv(s: State, jni: JniHandle)
    requires Inv(s) && jni in s.pool
    ensures forall name :: Inv(s.(t := PlaceServer(s.t, jni, name).0, pool := s.pool - {jni}))
  {
    forall name ensures Inv(s.(t := PlaceServer(s.t, jni, name).0, pool := s.pool - {jni})) {
      var (t', place) := PlaceServer(s.t, jni, name);
      assert Unused(s.t, jni);
      PlaceServerKeeps(s.t, jni, name);
      if place.Full? {
      } else {
        HolderKeepsInv(s);
        assert OnlyGains(s, t', OfServer(place.i), jni);
      }
    }
  }

  lemma PlaceClientKeepsInv(s: State, jni: JniHandle)
    requires Inv(s) && jni in s.pool
    ensures forall miu: nat, rw: nat :: Inv(s.(t := PlaceClient(s.t, jni, miu, rw).0, pool := s.pool - {jni}))
  {
    forall miu: nat, rw: nat ensures Inv(s.(t := PlaceClient(s.t, jni, miu, rw).0, pool := s.pool - {jni})) {
      var (t', f) := PlaceClient(s.t, jni, miu, rw);
      if f.Some? {
        HolderKeepsInv(s);
        assert OnlyGains(s, t', OfConn(ClientSlot(f.value)), jni);
      }
    }
  }

  lemma AllocateKeepsInv(s: State, jni: JniHandle)
    requires Inv(s) && jni in s.pool
    ensures forall i: nat :: Inv(s.(t := AllocateConn(s.t, i, jni).0, pool := s.pool - {jni}))
  {
    forall i: nat ensures Inv(s.(t := AllocateConn(s.t, i, jni).0, pool := s.pool - {jni})) {
      var (t', f) := AllocateConn(s.t, i, jni);
      if f.Some? {
        SetConnAt(s.t, f.value, Some(NewConn(jni)));
        HolderKeepsInv(s);
        assert OnlyGains(s, t', OfConn(f.value), jni);
      }
    }
  }

  // ---------------------------------------------------------------- stack events

  lemma RegServerKeepsInv(s: State)
    requires Inv(s)
    ensures forall name, h :: Inv(s.(t := OnRegServer(s.t, name, h)))
  {
    forall name, h ensures Inv(s.(t := OnRegServer(s.t, name, h))) {
      var t' := OnRegServer(s.t, name, h);
      forall x: Holder | JniAt(t', x).Some? ensures JniAt(t', x) == JniAt(s.t, x) {}
      LessKeepsInv(s);
      assert OnlyLess(s, t', s.regs);
    }
  }

  /** The handle of the block in slot a was given out and used, and only that slot has it. */
  ghost predicate HeldOnlyAt(s: State, a: Slot) {
    ConnAt(s.t, a).Some? &&
    var jni := ConnAt(s.t, a).value.jni;
    1 <= jni <= s.issued && jni !in s.pool && forall b: Slot :: Names(s.t, b, jni) ==> a == b
  }

  lemma HeldHere(s: State)
    requires Inv(s)
    ensures forall a: Slot | ConnAt(s.t, a).Some? :: HeldOnlyAt(s, a)
  {
    forall a: Slot | ConnAt(s.t, a).Some? ensures HeldOnlyAt(s, a) {
      assert JniAt(s.t, OfConn(a)) == Some(ConnAt(s.t, a).value.jni);
      forall b: Slot | Names(s.t, b, ConnAt(s.t, a).value.jni) ensures a == b {
        SameJniSameSlot(s.t, a, b, ConnAt(s.t, a).value.jni);
      }
    }
  }

  /** Where a callback's write lands: the slot that still holds the block it found, if any does. */
  lemma WriteLandsAt(s: State)
    requires Inv(s) && Holds(s.cb)
    ensures forall b: Slot :: Names(s.t, b, s.cb.jni) <==> FindConnByJni(s.t, s.cb.jni) == Some(b)
  {
    FindConnSound(s.t, (c: Conn) => c.jni == s.cb.jni);
    if FindConnByJni(s.t, s.cb.jni).Some? { HeldHere(s); assert HeldOnlyAt(s, FindConnByJni(s.t, s.cb.jni).value); }
    else { assert forall b: Slot :: !Names(s.t, b, s.cb.jni); }
  }

  /** The write of a CONN_REQ or CONNECTED event puts the link's handle into exactly one block, that of the
      block found earlier; a CONN_REQ finds no valid handle there to overwrite. */
  lemma BindLandsExactly(s: State)
    requires Inv(s) && (s.cb.ConnReqFound? || s.cb.ConnectedFound?)
    ensures Shaped(Written(s.t, s.cb))
    ensures forall a: Slot :: ConnAt(Written(s.t, s.cb), a) ==
              if Names(s.t, a, s.cb.jni)
              then Some(ConnAt(s.t, a).value.(nfa := s.cb.link.nfa, remoteMaxInfoUnit := s.cb.link.miu,
                  remoteRecvWindow := s.cb.link.rw))
              else ConnAt(s.t, a)
    ensures s.cb.ConnReqFound? ==> forall a: Slot :: Names(s.t, a, s.cb.jni) ==> NfaAt(s.t, a) == INVALID
  {
    WriteLandsAt(s);
    match FindConnByJni(s.t, s.cb.jni)
    case None =>
    case Some(a) =>
      var link := s.cb.link;
      var bound := ConnAt(s.t, a).value.(nfa := link.nfa, remoteMaxInfoUnit := link.miu, remoteRecvWindow := link.rw);
      SetConnAt(s.t, a, Some(bound));
  }

  /** The write of a DISC event invalidates exactly the block that owned the handle, and afterwards nobody
      holds that handle. */
  lemma DiscLandsExactly(s: State)
    requires Inv(s) && s.cb.DiscFound?
    ensures Shaped(Written(s.t, s.cb))
    ensures forall a: Slot :: ConnAt(Written(s.t, s.cb), a) ==
              if Names(s.t, a, s.cb.jni) then Some(ConnAt(s.t, a).value.(nfa := INVALID)) else ConnAt(s.t, a)
    ensures forall a: Slot :: NfaAt(Written(s.t, s.cb), a) != s.cb.handle
  {
    WriteLandsAt(s);
    match FindConnByJni(s.t, s.cb.jni)
    case None =>
    case Some(a) => SetConnAt(s.t, a, Some(ConnAt(s.t, a).value.(nfa := INVALID)));
  }

  /** A DISC event finds a block exactly when some block holds its handle, and then that block is the only one. */
  lemma DiscFindsOwner(s: State, h: NfaHandle)
    requires Inv(s) && h != INVALID
    ensures FoundByDisc(s.t, h).DiscFound? <==> exists a: Slot :: NfaAt(s.t, a) == h
    ensures FoundByDisc(s.t, h).DiscFound? ==>
              forall a: Slot :: NfaAt(s.t, a) == h <==> Names(s.t, a, FoundByDisc(s.t, h).jni)
  {
    FindConnSound(s.t, (c: Conn) => c.nfa == h);
    match FindConnByNfa(s.t, h)
    case Some(a) => HeldHere(s); assert HeldOnlyAt(s, a); assert NfaAt(s.t, a) == h;
    case None => assert forall a: Slot :: NfaAt(s.t, a) != h;
  }

  // ---------------------------------------------------------------- find and write in one go

  /** The one slot a scan by JNI handle can find is the one that holds the block. */
  lemma FoundAgain(t: Tables, a: Slot)
    requires Shaped(t) && DistinctJni(t) && ConnAt(t, a).Some?
    ensures FindConnByJni(t, ConnAt(t, a).value.jni) == Some(a)
  {
    var jni := ConnAt(t, a).value.jni;
    FindConnSound(t, (c: Conn) => c.jni == jni);
    assert Names(t, a, jni);
    match FindConnByJni(t, jni)
    case Some(b) => SameJniSameSlot(t, a, b, jni);
    case None =>
  }

  /** With nothing in between, the two halves of a DISC event are the event the class handles in one method; it
      invalidates exactly the blocks with its handle. */
  lemma DiscInOneGo(s: State, h: NfaHandle)
    requires Inv(s) && h != INVALID
    ensures Written(s.t, FoundByDisc(s.t, h)) == OnDisc(s.t, h)
    ensures forall a: Slot :: ConnAt(OnDisc(s.t, h), a) ==
              if NfaAt(s.t, a) == h then Some(ConnAt(s.t, a).value.(nfa := INVALID)) else ConnAt(s.t, a)
  {
    DiscFindsOwner(s, h);
    FindConnSound(s.t, (c: Conn) => c.nfa == h);
    match FindConnByNfa(s.t, h)
    case Some(a) =>
      FoundAgain(s.t, a);
      SetConnAt(s.t, a, Some(ConnAt(s.t, a).value.(nfa := INVALID)));
    case None =>
  }

  /** What a CONN_REQ event does if nothing comes between its three steps. */
  function ConnReqSteps(t: Tables, server: NfaHandle, link: Link): Tables {
    match FoundByConnReq(t, server, link)
    case ServerFound(name, _) => Written(t, FoundInServer(t, name, link, true))
    case _ => t
  }

  /** The same for CONN_REQ: the link goes to the first block of the server found that has none, and nowhere else. */
  lemma ConnReqInOneGo(s: State, server: NfaHandle, link: Link)
    requires Inv(s)
    ensures ConnReqSteps(s.t, server, link) == OnConnReq(s.t, server, link)
  {
    var k := ServerByNfa(s.t, server);
    if k < |s.t.servers| {
      NameIsAt(s.t, k);
      var j := First(s.t.servers[k].value.conns, (c: Conn) => c.nfa == INVALID);
      if j < |s.t.servers[k].value.conns| { FoundAgain(s.t, ServerSlot(k, j)); }
    }
  }

  /** For CONNECTED. */
  lemma ConnectedInOneGo(s: State, client: NfaHandle, link: Link)
    requires Inv(s)
    ensures Written(s.t, FoundByConnected(s.t, client, link)) == OnConnected(s.t, client, link)
  {
    var k := ClientByNfa(s.t, client);
    if k < |s.t.clients| { FoundAgain(s.t, ClientSlot(k)); }
  }

  /** And for REG_CLIENT, with the handles registered. */
  lemma RegClientInOneGo(s: State, h: NfaHandle)
    requires Inv(s) && h != INVALID
    ensures World(Written(s.t, FoundByRegClient(s.t, h)), s.regs + {h}) == OnRegClient(World(s.t, s.regs), h)
  {
    var k := ClientByNfa(s.t, INVALID);
    if k < |s.t.clients| {
      FoundAgain(s.t, ClientSlot(k));
      ClientFoundAgain(s.t, k);
    }
  }

  /** A REG_SERVER event gives the handle to the one server of that name, and changes nothing else. */
  lemma RegServerLands(s: State, name: string, h: NfaHandle, i: nat)
    requires Inv(s) && Enabled(s, RegServerEvt(name, h)) && i < MAX_ENTRIES
    ensures var s' := Next(s, RegServerEvt(name, h));
            && s' == s.(t := s.t.(servers := s'.t.servers))
            && s'.t.servers[i] ==
               if s.t.servers[i].Some? && s.t.servers[i].value.name == name
               then Some(s.t.servers[i].value.(nfa := h)) else s.t.servers[i]
  {
    if s.t.servers[i].Some? && s.t.servers[i].value.name == name { NameIsAt(s.t, i); }
  }

  /** A new JNI handle is one that nobody holds or was given before, and is then there to be used. */
  lemma NewHandleIsUnused(s: State)
    requires Inv(s) && Enabled(s, GetNewJniHandle)
    ensures var s' := Next(s, GetNewJniHandle);
            && s'.issued in s'.pool && s'.issued !in s.pool && s'.pool - {s'.issued} == s.pool
            && forall h: Holder :: JniAt(s'.t, h) != Some(s'.issued)
  {
  }

  predicate IsEvent(a: Action) { a.RegClientEvt? || a.ConnectedEvt? || a.ConnReqEvt? || a.DiscEvt? }

  /** The state after an event and its later steps, with nothing in between. */
  ghost function Alone(s: State, a: Action): State
    requires Enabled(s, a)
  {
    var s1 := Next(s, a);
    var s2 := if s1.cb.ServerFound? then Next(s1, CallbackLooks(true)) else s1;
    if Holds(s2.cb) then Next(s2, CallbackWrites) else s2
  }

  /** The event as the class handles it, in one method: the tables change, and its link or registration is recorded. */
  ghost function Whole(s: State, a: Action): State {
    match a
    case RegClientEvt(h) => s.(t := OnRegClient(World(s.t, s.regs), h).t, regs := s.regs + {h})
    case ConnectedEvt(client, link) => s.(t := OnConnected(s.t, client, link), live := s.live + {link.nfa})
    case ConnReqEvt(server, link) => s.(t := OnConnReq(s.t, server, link), live := s.live + {link.nfa})
    case DiscEvt(h) => s.(t := OnDisc(s.t, h), live := s.live - {h})
    case _ => s
  }

  lemma ConnReqAlone(s: State, a: Action)
    requires Inv(s) && Enabled(s, a) && a.ConnReqEvt?
    ensures Alone(s, a) == Whole(s, a)
  {
    ConnReqInOneGo(s, a.server, a.link);
  }

  /** Left alone, an event and its later steps are the whole event. */
  lemma EventsInOneGo(s: State, a: Action)
    requires Inv(s) && Enabled(s, a) && IsEvent(a)
    ensures Alone(s, a) == Whole(s, a)
  {
    match a
    case RegClientEvt(h) => RegClientInOneGo(s, h);
    case ConnectedEvt(client, link) => ConnectedInOneGo(s, client, link);
    case ConnReqEvt(_, _) => ConnReqAlone(s, a);
    case DiscEvt(h) => DiscInOneGo(s, h);
  }

  lemma ClientFoundAgain(t: Tables, k: nat)
    requires Shaped(t) && DistinctJni(t) && k < MAX_ENTRIES && t.clients[k].Some?
    ensures ClientByJni(t, t.clients[k].value.conn.jni) == k
  {
    var i := ClientByJni(t, t.clients[k].value.conn.jni);
    if i < |t.clients| { SameJniSameSlot(t, ClientSlot(i), ClientSlot(k), t.clients[k].value.conn.jni); }
  }

  /** The block an event finds is the one the later write will reach, while it is still in the table. */
  lemma FindClientKeepsInv(s: State)
    requires Inv(s)
    ensures forall a | Enabled(s, a) && (a.RegClientEvt? || a.ConnectedEvt?) :: Inv(Next(s, a))
  {
    forall a | Enabled(s, a) && (a.RegClientEvt? || a.ConnectedEvt?) ensures Inv(Next(s, a)) {
      var k := ClientByNfa(s.t, if a.RegClientEvt? then INVALID else a.client);
      if k < |s.t.clients| { HeldHere(s); assert HeldOnlyAt(s, ClientSlot(k)); }
    }
  }

  lemma LookKeepsInv(s: State)
    requires Inv(s) && s.cb.ServerFound?
    ensures forall present :: Inv(Next(s, CallbackLooks(present)))
  {
    forall present ensures Inv(Next(s, CallbackLooks(present))) {
      var k := ServerByName(s.t, s.cb.name);
      if k < |s.t.servers| {
        var j := First(s.t.servers[k].value.conns, (c: Conn) => c.nfa == INVALID);
        if j < |s.t.servers[k].value.conns| { HeldHere(s); assert HeldOnlyAt(s, ServerSlot(k, j)); }
      }
    }
  }

  lemma FindDiscKeepsInv(s: State)
    requires Inv(s)
    ensures forall h | Enabled(s, DiscEvt(h)) :: Inv(Next(s, DiscEvt(h)))
  {
    forall h | Enabled(s, DiscEvt(h)) ensures Inv(Next(s, DiscEvt(h))) {
      DiscFindsOwner(s, h);
      if FoundByDisc(s.t, h).DiscFound? { HeldHere(s); assert HeldOnlyAt(s, FindConnByNfa(s.t, h).value); }
    }
  }

  /** The write of a REG_CLIENT event gives the handle to the one client found, which had none. */
  lemma RegClientWriteKeepsInv()
    ensures forall s | Inv(s) && s.cb.RegClientFound? :: Inv(s.(t := Written(s.t, s.cb), cb := Idle))
  {
    forall s | Inv(s) && s.cb.RegClientFound? ensures Inv(s.(t := Written(s.t, s.cb), cb := Idle)) {
      var t' := Written(s.t, s.cb);
      var k := ClientByJni(s.t, s.cb.jni);
      if k < |s.t.clients| {
        assert JniAt(s.t, OfConn(ClientSlot(k))) == Some(s.cb.jni);
      }
      assert forall a: Slot :: NfaAt(t', a) == NfaAt(s.t, a);
      assert forall h: Holder :: JniAt(t', h) == JniAt(s.t, h);
      assert forall i: nat ::
          ClientNfaAt(t', i) == if i == k && k < |s.t.clients| then s.cb.handle else ClientNfaAt(s.t, i);
    }
  }

  lemma BindKeepsInv()
    ensures forall s | Inv(s) && (s.cb.ConnReqFound? || s.cb.ConnectedFound?) ::
              Inv(s.(t := Written(s.t, s.cb), cb := Idle))
  {
    forall s | Inv(s) && (s.cb.ConnReqFound? || s.cb.ConnectedFound?)
      ensures Inv(s.(t := Written(s.t, s.cb), cb := Idle))
    {
      BindLandsExactly(s);
      forall a: Slot, b: Slot | Names(s.t, a, s.cb.jni) && Names(s.t, b, s.cb.jni) ensures a == b {
        SameJniSameSlot(s.t, a, b, s.cb.jni);
      }
      var t' := Written(s.t, s.cb);
      assert forall h: Holder :: JniAt(t', h) == JniAt(s.t, h);
      assert forall a: Slot :: NfaAt(t', a) == if Names(s.t, a, s.cb.jni) then s.cb.link.nfa else NfaAt(s.t, a);
      assert forall i: nat :: ClientNfaAt(t', i) == ClientNfaAt(s.t, i);
      assert NfaInv(s.(t := t', cb := Idle));
    }
  }

  lemma DiscWriteKeepsInv()
    ensures forall s | Inv(s) && s.cb.DiscFound? :: Inv(s.(t := Written(s.t, s.cb), cb := Idle))
  {
    forall s | Inv(s) && s.cb.DiscFound? ensures Inv(s.(t := Written(s.t, s.cb), cb := Idle)) {
      DiscLandsExactly(s);
      var t' := Written(s.t, s.cb);
      assert forall h: Holder :: JniAt(t', h) == JniAt(s.t, h);
      assert forall a: Slot :: NfaAt(t', a) == if Names(s.t, a, s.cb.jni) then INVALID else NfaAt(s.t, a);
      assert forall i: nat :: ClientNfaAt(t', i) == ClientNfaAt(s.t, i);
    }
  }

  // ---------------------------------------------------------------- every step, every run

  /** The steps of application threads. */
  predicate IsSection(a: Action) {
    a.GetNewJniHandle? || a.PlaceServerSection? || a.RemoveServerSection? || a.PlaceClientSection? ||
    a.RemoveConnSection? || a.AllocateSection? || a.RemoveServerConnSection? || a.NfcOff? || a.NfcOn?
  }

  lemma SectionKeepsInv(s: State)
    requires Inv(s)
    ensures forall a | Enabled(s, a) && IsSection(a) :: Inv(Next(s, a))
  {
    forall a | Enabled(s, a) && IsSection(a) ensures Inv(Next(s, a)) {
      match a
      case GetNewJniHandle =>
      case PlaceServerSection(jni, name) => PlaceServerKeepsInv(s, jni);
      case RemoveServerSection(jni) => RemoveServerKeepsInv(s);
      case PlaceClientSection(jni, miu, rw) => PlaceClientKeepsInv(s, jni);
      case RemoveConnSection(jni) => RemoveConnKeepsInv(s);
      case AllocateSection(i, jni) => AllocateKeepsInv(s, jni);
      case RemoveServerConnSection(i, jni) => RemoveServerConnKeepsInv(s);
      case NfcOff => NfcOffKeepsInv(s.t);
      case NfcOn =>
        LessKeepsInv(s);
        assert OnlyLess(s, EmptyTables(), {});
    }
  }

  lemma CallbackKeepsInv(s: State)
    requires Inv(s)
    ensures forall a | Enabled(s, a) && !IsSection(a) :: Inv(Next(s, a))
  {
    forall a | Enabled(s, a) && !IsSection(a) ensures Inv(Next(s, a)) {
      match a
      case RegServerEvt(name, h) => RegServerKeepsInv(s);
      case RegClientEvt(_) => FindClientKeepsInv(s);
      case ConnectedEvt(_, _) => FindClientKeepsInv(s);
      case ConnReqEvt(_, _) =>
      case CallbackLooks(present) => LookKeepsInv(s);
      case DiscEvt(h) => FindDiscKeepsInv(s);
      case CallbackWrites =>
        if s.cb.RegClientFound? { RegClientWriteKeepsInv(); }
        else if s.cb.DiscFound? { DiscWriteKeepsInv(); }
        else { BindKeepsInv(); }
    }
  }

  lemma StepKeepsInv(s: State)
    requires Inv(s)
    ensures forall a | Enabled(s, a) :: Inv(Next(s, a))
  {
    SectionKeepsInv(s);
    CallbackKeepsInv(s);
  }

  lemma StartInv()
    ensures Inv(Start)
  {
    assert forall h: Holder :: JniAt(Start.t, h).None?;
    assert forall a: Slot :: NfaAt(Start.t, a) == INVALID;
    assert forall i: nat :: ClientNfaAt(Start.t, i) == INVALID;
  }

  /** In every reachable state all JNI handles held by servers, clients and connections are pairwise distinct
      and below the counter, service names are pairwise distinct, no valid link handle is held twice, and no
      valid client handle is held twice. */
  lemma {:induction false} ReachableInv(steps: nat)
    ensures forall s | Reachable(s, steps) :: Inv(s)
  {
    if steps == 0 {
      StartInv();
    } else {
      ReachableInv(steps - 1);
      forall s | Reachable(s, steps) ensures Inv(s) {
        var p, a :| Reachable(p, steps - 1) && Enabled(p, a) && s == Next(p, a);
        StepKeepsInv(p);
      }
    }
  }

  /** Hence in every reachable state the lookup by JNI handle is the lookup in the abstract map. */
  lemma ReachableLookup(s: State, steps: nat)
    requires Reachable(s, steps)
    ensures forall jni :: LookedUp(s, jni)
  {
    ReachableInv(steps);
    forall jni ensures LookedUp(s, jni) {
      LookupIsMapLookup(s.t, jni);
      if jni in ConnMap(s.t) {
        var a: Slot :| Names(s.t, a, jni);
        HeldHere(s);
        assert HeldOnlyAt(s, a);
      }
    }
  }

  ghost predicate LookedUp(s: State, jni: JniHandle) {
    && Shaped(s.t) && DistinctJni(s.t)
    && (FindConnByJni(s.t, jni).Some? <==> jni in ConnMap(s.t))
    && (jni in ConnMap(s.t) ==>
        ConnAt(s.t, FindConnByJni(s.t, jni).value) == Some(ConnMap(s.t)[jni]) && jni <= s.issued)
  }

  // ---------------------------------------------------------------- the handle counter

  /** mNextJniHandle after n calls of getNewJniHandle. */
  function CounterAfter(n: nat): JniHandle {
    if n == 0 then 1 else (CounterAfter(n - 1) + 1) % 0x1_0000_0000
  }

  lemma {:induction false} CounterValue(n: nat)
    ensures CounterAfter(n) == (n + 1) % 0x1_0000_0000
  {
    if n > 0 {
      CounterValue(n - 1);
      ModStep(n, 0x1_0000_0000);
    }
  }

  lemma ModStep(n: nat, m: nat)
    requires m > 1
    ensures (n % m + 1) % m == (n + 1) % m
  {
    var q, r := n / m, n % m;
    assert n == q * m + r;
    if r + 1 == m {
      assert n + 1 == (q + 1) * m;
      DivMod(n + 1, q + 1, 0, m);
    } else {
      DivMod(n + 1, q, r + 1, m);
    }
  }

  lemma SameRemainder(i: nat, k: nat, hi: nat, hk: nat)
    requires i <= k && hi == (i + 1) % 0x1_0000_0000 && hk == (k + 1) % 0x1_0000_0000
    ensures hi == hk <==> (k - i) % 0x1_0000_0000 == 0
  {
  }

  /** Two calls get the same handle exactly when a multiple of 2^32 calls lies between them. */
  lemma CounterRepeats(i: nat, k: nat)
    requires i <= k
    ensures CounterAfter(i) == CounterAfter(k) <==> (k - i) % 0x1_0000_0000 == 0
  {
    CounterValue(i);
    CounterValue(k);
    SameRemainder(i, k, CounterAfter(i), CounterAfter(k));
  }
}
