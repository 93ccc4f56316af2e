/** The interleaved tables of P2pRuns refine two maps: which connection each JNI handle names, and which server handle
    each service name has.  Every step is, on the maps, an insertion, a deletion, an update in place, or nothing. */
module P2pRefines {
  import opened Common
  import opened P2pTables
  import opened P2pCalls
  import opened P2pMap
  import opened P2pRuns

  // ---------------------------------------------------------------- connections

  type Conns = map<JniHandle, Conn>

  function Updated(m: Conns, jni: JniHandle, c: Conn): Conns { if jni in m then m[jni := c] else m }

  /** What a delayed write does to the connection it was found for. */
  function WrittenTo(c: Conn, cb: Callback): Conn {
    match cb
    case DiscFound(_, _) => c.(nfa := INVALID)
    case ConnectedFound(_, link) => c.(nfa := link.nfa, remoteMaxInfoUnit := link.miu, remoteRecvWindow := link.rw)
    case ConnReqFound(_, link) => c.(nfa := link.nfa, remoteMaxInfoUnit := link.miu, remoteRecvWindow := link.rw)
    case _ => c
  }

  /** The blocks of the server in slot i. */
  ghost function BlocksOf(t: Tables, i: nat): set<JniHandle> {
    if i < |t.servers| && t.servers[i].Some? then ConnsOf(t, i) else {}
  }

  ghost function Invalidated(m: Conns): Conns { map k | k in m :: m[k].(nfa := INVALID) }

  /** The map after a step. */
  ghost function ConnsAfter(s: State, a: Action): Conns
    requires Inv(s)
  {
    var m := ConnMap(s.t);
    match a
    case PlaceClientSection(jni, miu, rw) =>
      if FirstFree(s.t.clients) < MAX_ENTRIES then m[jni := Conn(INVALID, jni, miu, rw, 0, 0)] else m
    case AllocateSection(i, jni) =>
      if i < MAX_ENTRIES && s.t.servers[i].Some? && FirstFree(s.t.servers[i].value.conns) < MAX_CONNS_PER_SERVER
      then m[jni := Conn(INVALID, jni, 0, 0, 0, 0)] else m
    case RemoveConnSection(jni) => m - {jni}
    case RemoveServerConnSection(i, jni) => if jni in BlocksOf(s.t, i) then m - {jni} else m
    case RemoveServerSection(jni) => m - BlocksOf(s.t, ServerByJni(s.t, jni))
    case CallbackWrites =>
      if Holds(s.cb) && s.cb.jni in m then m[s.cb.jni := WrittenTo(m[s.cb.jni], s.cb)] else m
    case NfcOff => Invalidated(m)
    case NfcOn => map[]
    case _ => m
  }

  lemma SameConns(t: Tables, t': Tables)
    requires Shaped(t) && DistinctJni(t) && Shaped(t') && DistinctJni(t')
    requires forall x: Slot :: ConnAt(t', x) == ConnAt(t, x)
    ensures ConnMap(t') == ConnMap(t)
  {
    assert forall x: Slot, k :: Names(t', x, k) <==> Names(t, x, k);
    ConnMapIs(t', ConnMap(t));
  }

  /** The step keeps the invariant, and is on the map what ConnsAfter says. */
  ghost predicate Refines(s: State, a: Action)
    requires Inv(s) && Enabled(s, a)
  {
    Inv(Next(s, a)) && ConnMap(Next(s, a).t) == ConnsAfter(s, a)
  }

  lemma InsertsRefine(s: State)
    requires Inv(s)
    ensures forall a | Enabled(s, a) && (a.PlaceClientSection? || a.AllocateSection?) :: Refines(s, a)
  {
    forall a | Enabled(s, a) && (a.PlaceClientSection? || a.AllocateSection?) ensures Refines(s, a) {
      StepKeepsInv(s);
      assert forall h: Holder :: JniAt(s.t, h) != Some(a.jni);
      if a.PlaceClientSection? {
        PlaceClientIsInsert(s.t, a.jni, a.miu, a.rw);
      } else if a.i < MAX_ENTRIES && s.t.servers[a.i].Some? {
        AllocateConnIsInsert(s.t, a.i, a.jni);
      }
    }
  }

  lemma RemoveServerRefines(s: State)
    requires Inv(s)
    ensures forall a | Enabled(s, a) && a.RemoveServerSection? :: Refines(s, a)
  {
    forall a | Enabled(s, a) && a.RemoveServerSection? ensures Refines(s, a) {
      StepKeepsInv(s);
      var k := ServerByJni(s.t, a.jni);
      if k < MAX_ENTRIES { RemoveServerIsDelete(s.t, a.jni, k); }
    }
  }

  lemma RemoveServerConnRefines(s: State)
    requires Inv(s)
    ensures forall a | Enabled(s, a) && a.RemoveServerConnSection? :: Refines(s, a)
  {
    forall a | Enabled(s, a) && a.RemoveServerConnSection? ensures Refines(s, a) {
      StepKeepsInv(s);
      RemoveBlockDeletes(s, a.i, a.jni);
    }
  }

  lemma RemoveBlockDeletes(s: State, i: nat, jni: JniHandle)
    requires Inv(s) && Shaped(RemoveServerConn(s.t, i, jni)) && DistinctJni(RemoveServerConn(s.t, i, jni))
    ensures ConnMap(RemoveServerConn(s.t, i, jni)) == ConnsAfter(s, RemoveServerConnSection(i, jni))
  {
    var t' := RemoveServerConn(s.t, i, jni);
    if i < MAX_ENTRIES && s.t.servers[i].Some? {
      var conns := s.t.servers[i].value.conns;
      var j := First(conns, (c: Conn) => c.jni == jni);
      if j < |conns| {
        var x := ServerSlot(i, j);
        SetConnAt(s.t, x, None);
        assert Names(s.t, x, jni);
        forall y: Slot ensures ConnAt(t', y) == if Names(s.t, y, jni) then None else ConnAt(s.t, y) {
          if Names(s.t, y, jni) { SameJniSameSlot(s.t, x, y, jni); }
        }
        DeleteAt(s.t, t', {jni});
      }
    }
  }

  lemma WriteRefines(s: State)
    requires Inv(s)
    ensures Enabled(s, CallbackWrites) ==> Refines(s, CallbackWrites)
  {
    if Enabled(s, CallbackWrites) {
      StepKeepsInv(s);
      var t' := Next(s, CallbackWrites).t;
      forall x: Slot
        ensures ConnAt(t', x) ==
                if Names(s.t, x, s.cb.jni) then Some(WrittenTo(ConnAt(s.t, x).value, s.cb)) else ConnAt(s.t, x)
      {
        if s.cb.DiscFound? { DiscLandsExactly(s); }
        else if s.cb.ConnReqFound? || s.cb.ConnectedFound? { BindLandsExactly(s); }
      }
      assert forall x: Slot, k :: Names(t', x, k) <==> Names(s.t, x, k);
      ConnMapIs(t', ConnsAfter(s, CallbackWrites));
    }
  }

  lemma SwitchesRefine(s: State)
    requires Inv(s)
    ensures forall a | Enabled(s, a) && (a.NfcOff? || a.NfcOn?) :: Refines(s, a)
  {
    forall a | Enabled(s, a) && (a.NfcOff? || a.NfcOn?) ensures Refines(s, a) {
      StepKeepsInv(s);
      if a.NfcOff? {
        OffInvalidates(s);
      } else {
        assert forall x: Slot, k :: !Names(EmptyTables(), x, k);
        ConnMapIs(EmptyTables(), map[]);
      }
    }
  }

  lemma OffInvalidates(s: State)
    requires Inv(s) && Shaped(TurnedOff(s.t)) && DistinctJni(TurnedOff(s.t))
    ensures ConnMap(TurnedOff(s.t)) == Invalidated(ConnMap(s.t))
  {
    var t' := TurnedOff(s.t);
    TurnedOffInvalidatesAll(s.t);
    forall x: Slot
      ensures ConnAt(t', x) ==
              if ConnAt(s.t, x).Some? then Some(ConnAt(s.t, x).value.(nfa := INVALID)) else None
    {
      assert NfaAt(t', x) == INVALID;
    }
    assert forall x: Slot, k :: Names(t', x, k) <==> Names(s.t, x, k);
    ConnMapIs(t', Invalidated(ConnMap(s.t)));
  }

  /** Every step of every thread and callback is on the map what ConnsAfter says. */
  lemma StepRefines(s: State)
    requires Inv(s)
    ensures forall a | Enabled(s, a) :: Refines(s, a)
  {
    forall a | Enabled(s, a) ensures Refines(s, a) {
      match a
      case PlaceClientSection(_, _, _) => InsertsRefine(s);
      case AllocateSection(_, _) => InsertsRefine(s);
      case RemoveServerSection(_) => RemoveServerRefines(s);
      case RemoveServerConnSection(_, _) => RemoveServerConnRefines(s);
      case RemoveConnSection(jni) =>
        StepKeepsInv(s);
        RemoveConnIsDelete(s.t, jni);
      case CallbackWrites => WriteRefines(s);
      case NfcOff => SwitchesRefine(s);
      case NfcOn => SwitchesRefine(s);
      case PlaceServerSection(jni, name) =>
        StepKeepsInv(s);
        assert forall h: Holder :: JniAt(s.t, h) != Some(jni);
        PlaceServerKeeps(s.t, jni, name);
        SameConns(s.t, Next(s, a).t);
      case _ =>
        StepKeepsInv(s);
        SameConns(s.t, Next(s, a).t);
    }
  }

  // ---------------------------------------------------------------- names

  /** The server handle of a service name after a step. */
  function NameAfter(s: State, a: Action, name: string): Option<JniHandle> {
    match a
    case PlaceServerSection(jni, n) =>
      if n == name && (JniOfName(s.t, n).Some? || FirstFree(s.t.servers) < |s.t.servers|) then Some(jni)
      else JniOfName(s.t, name)
    case RemoveServerSection(jni) => if JniOfName(s.t, name) == Some(jni) then None else JniOfName(s.t, name)
    case NfcOn => None
    case _ => JniOfName(s.t, name)
  }

  lemma SameNames(t: Tables, t': Tables, name: string)
    requires |t'.servers| == |t.servers| && forall i :: 0 <= i < |t.servers| ==>
               t'.servers[i].Some? == t.servers[i].Some? && (t.servers[i].Some? ==>
                   t'.servers[i].value.name == t.servers[i].value.name &&
                   t'.servers[i].value.jni == t.servers[i].value.jni)
    ensures JniOfName(t', name) == JniOfName(t, name)
  {
    var k, k' := ServerByName(t, name), ServerByName(t', name);
    if k < |t.servers| { assert t'.servers[k].Some?; }
    if k' < |t.servers| { assert t.servers[k'].Some?; }
  }

  lemma RemoveServerNames(s: State, jni: JniHandle, name: string)
    requires Inv(s)
    ensures JniOfName(RemoveServer(s.t, jni), name) == NameAfter(s, RemoveServerSection(jni), name)
  {
    var k, i, t' := ServerByJni(s.t, jni), ServerByName(s.t, name), RemoveServer(s.t, jni);
    if i < |s.t.servers| {
      assert JniAt(s.t, OfServer(i)) == Some(s.t.servers[i].value.jni);
      if k < |s.t.servers| { assert JniAt(s.t, OfServer(k)) == Some(jni); }
      if i != k { assert t'.servers[i] == s.t.servers[i]; }
    }
  }

  lemma NfcOffNames(s: State, name: string)
    requires Inv(s)
    ensures JniOfName(TurnedOff(s.t), name) == JniOfName(s.t, name)
  {
    TurnedOffInvalidatesAll(s.t);
    forall i | 0 <= i < MAX_ENTRIES && s.t.servers[i].Some?
      ensures TurnedOff(s.t).servers[i].value.(conns := []) == s.t.servers[i].value.(conns := [])
    {}
    SameNames(s.t, TurnedOff(s.t), name);
  }

  lemma PlaceServerNames(s: State, jni: JniHandle, n: string, name: string)
    requires Inv(s) && jni in s.pool
    ensures JniOfName(PlaceServer(s.t, jni, n).0, name) == NameAfter(s, PlaceServerSection(jni, n), name)
  {
    assert forall h: Holder :: JniAt(s.t, h) != Some(jni);
    PlaceServerIsUpsert(s.t, jni, n);
  }

  /** Every step is on the names what NameAfter says. */
  lemma StepRefinesNames(s: State, a: Action, name: string)
    requires Inv(s) && Enabled(s, a)
    ensures JniOfName(Next(s, a).t, name) == NameAfter(s, a, name)
  {
    match a
    case PlaceServerSection(jni, n) => PlaceServerNames(s, jni, n, name);
    case RemoveServerSection(jni) => RemoveServerNames(s, jni, name);
    case NfcOff => NfcOffNames(s, name);
    case NfcOn =>
    case _ => SameNames(s.t, Next(s, a).t, name);
  }
}
