/** While no two holders share a JNI handle, the first-match scans over the fixed tables are the operations of
    a map keyed by JNI handle: lookup, insert, and delete of exactly that key. */
module P2pMap {
  import opened Common
  import opened P2pTables

  /** Everything that carries a JNI handle. */
  datatype Holder = OfConn(s: Slot) | OfServer(i: nat)

  function JniAt(t: Tables, h: Holder): Option<JniHandle> {
    match h
    case OfConn(s) => (match ConnAt(t, s) case Some(c) => Some(c.jni) case None => None)
    case OfServer(i) => if i < |t.servers| && t.servers[i].Some? then Some(t.servers[i].value.jni) else None
  }

  ghost predicate DistinctJni(t: Tables) {
    forall a: Holder, b: Holder :: JniAt(t, a).Some? && JniAt(t, a) == JniAt(t, b) ==> a == b
  }

  ghost predicate Unused(t: Tables, jni: JniHandle) {
    forall a: Holder :: JniAt(t, a) != Some(jni)
  }

  ghost function Slots(t: Tables): set<Slot> {
    (set i: nat | i < |t.clients| :: ClientSlot(i)) +
    (set i: nat, j: nat | i < |t.servers| && j < MAX_CONNS_PER_SERVER :: ServerSlot(i, j))
  }

  lemma SlotsCover(t: Tables)
    requires Shaped(t)
    ensures forall s: Slot :: ConnAt(t, s).Some? ==> s in Slots(t)
  {
  }

  ghost predicate Names(t: Tables, s: Slot, jni: JniHandle) {
    ConnAt(t, s).Some? && ConnAt(t, s).value.jni == jni
  }

  lemma SameJniSameSlot(t: Tables, a: Slot, b: Slot, jni: JniHandle)
    requires DistinctJni(t) && Names(t, a, jni) && Names(t, b, jni)
    ensures a == b
  {
    assert JniAt(t, OfConn(a)) == JniAt(t, OfConn(b));
  }

  /** The abstract state: which connection each JNI handle names. */
  ghost function ConnMap(t: Tables): (m: map<JniHandle, Conn>)
    requires Shaped(t) && DistinctJni(t)
    ensures forall s: Slot, k :: Names(t, s, k) ==> k in m && m[k] == ConnAt(t, s).value
    ensures forall k :: k in m ==> exists s: Slot :: Names(t, s, k)
  {
    SlotsCover(t);
    var keys := set s: Slot | s in Slots(t) && ConnAt(t, s).Some? :: ConnAt(t, s).value.jni;
    forall s: Slot, k | Names(t, s, k) ensures k in keys { assert s in Slots(t); }
    forall k | k in keys ensures exists s: Slot :: Names(t, s, k) {
      var s: Slot :| s in Slots(t) && ConnAt(t, s).Some? && ConnAt(t, s).value.jni == k;
      assert Names(t, s, k);
    }
    forall a: Slot, b: Slot, k | Names(t, a, k) && Names(t, b, k) ensures a == b { SameJniSameSlot(t, a, b, k); }
    map k | k in keys :: (var s: Slot :| Names(t, s, k); ConnAt(t, s).value)
  }

  lemma ConnMapIs(t: Tables, m: map<JniHandle, Conn>)
    requires Shaped(t) && DistinctJni(t)
    requires forall s: Slot, k :: Names(t, s, k) ==> k in m && m[k] == ConnAt(t, s).value
    requires forall k :: k in m ==> exists s: Slot :: Names(t, s, k)
    ensures ConnMap(t) == m
  {
  }

  lemma LookupIsMapLookup(t: Tables, jni: JniHandle)
    requires Shaped(t) && DistinctJni(t)
    ensures match FindConnByJni(t, jni)
            case Some(s) => jni in ConnMap(t) && ConnAt(t, s) == Some(ConnMap(t)[jni])
            case None => jni !in ConnMap(t)
  {
    FindConnSound(t, (c: Conn) => c.jni == jni);
    match FindConnByJni(t, jni)
    case Some(s) => assert Names(t, s, jni);
    case None =>
      assert forall s: Slot :: !Names(t, s, jni);
  }

  /** removeConn empties exactly the slot that holds the handle, whatever slots lie before it. */
  lemma RemoveConnAt(t: Tables, jni: JniHandle)
    requires Shaped(t) && DistinctJni(t)
    ensures Shaped(RemoveConn(t, jni))
    ensures forall s: Slot :: ConnAt(RemoveConn(t, jni), s) ==
                              if ConnAt(t, s).Some? && ConnAt(t, s).value.jni == jni then None else ConnAt(t, s)
    ensures forall i :: JniAt(RemoveConn(t, jni), OfServer(i)) == JniAt(t, OfServer(i))
  {
    FindConnSound(t, (c: Conn) => c.jni == jni);
    forall s: Slot
      ensures ConnAt(RemoveConn(t, jni), s) ==
              if ConnAt(t, s).Some? && ConnAt(t, s).value.jni == jni then None else ConnAt(t, s)
    {
      if Names(t, s, jni) {
        SameJniSameSlot(t, s, FindConnByJni(t, jni).value, jni);
      }
    }
  }

  /** Emptying every slot whose handle is in `gone` deletes those keys. */
  lemma DeleteAt(t: Tables, t': Tables, gone: set<JniHandle>)
    requires Shaped(t) && DistinctJni(t) && Shaped(t')
    requires forall s: Slot :: ConnAt(t', s) ==
                               if ConnAt(t, s).Some? && ConnAt(t, s).value.jni in gone then None else ConnAt(t, s)
    requires forall i :: JniAt(t', OfServer(i)).Some? ==> JniAt(t', OfServer(i)) == JniAt(t, OfServer(i))
    ensures DistinctJni(t') && ConnMap(t') == ConnMap(t) - gone
  {
    assert forall h: Holder :: JniAt(t', h).Some? ==> JniAt(t', h) == JniAt(t, h);
    var m := ConnMap(t) - gone;
    forall k | k in m ensures exists s: Slot :: Names(t', s, k) {
      var s: Slot :| Names(t, s, k);
      assert Names(t', s, k);
    }
    forall s: Slot, k | Names(t', s, k) ensures k in m && m[k] == ConnAt(t', s).value {
      assert Names(t, s, k);
    }
    ConnMapIs(t', m);
  }

  lemma RemoveConnIsDelete(t: Tables, jni: JniHandle)
    requires Shaped(t) && DistinctJni(t)
    ensures Shaped(RemoveConn(t, jni)) && DistinctJni(RemoveConn(t, jni))
    ensures ConnMap(RemoveConn(t, jni)) == ConnMap(t) - {jni}
  {
    RemoveConnAt(t, jni);
    DeleteAt(t, RemoveConn(t, jni), {jni});
  }

  /** A new connection in a slot that was empty, under a handle nobody has, is an insertion. */
  lemma InsertAt(t: Tables, t': Tables, s: Slot, c: Conn)
    requires Shaped(t) && DistinctJni(t) && Unused(t, c.jni) && Shaped(t')
    requires ConnAt(t, s).None?
    requires forall x: Slot :: ConnAt(t', x) == if x == s then Some(c) else ConnAt(t, x)
    requires forall i :: JniAt(t', OfServer(i)) == JniAt(t, OfServer(i))
    ensures DistinctJni(t') && ConnMap(t') == ConnMap(t)[c.jni := c]
  {
    assert forall h: Holder :: JniAt(t', h) == if h == OfConn(s) then Some(c.jni) else JniAt(t, h);
    var m := ConnMap(t)[c.jni := c];
    forall k | k in m ensures exists x: Slot :: Names(t', x, k) {
      if k == c.jni {
        assert Names(t', s, k);
      } else {
        var x: Slot :| Names(t, x, k);
        assert Names(t', x, k);
      }
    }
    forall x: Slot, k | Names(t', x, k) ensures k in m && m[k] == ConnAt(t', x).value {
      if x != s {
        assert Names(t, x, k) && JniAt(t, OfConn(x)) == Some(k);
      }
    }
    ConnMapIs(t', m);
  }

  lemma PlaceClientIsInsert(t: Tables, jni: JniHandle, miu: nat, rw: nat)
    requires Shaped(t) && DistinctJni(t) && Unused(t, jni)
    ensures var (t', f) := PlaceClient(t, jni, miu, rw);
            Shaped(t') && DistinctJni(t') &&
            (if f.Some? then ConnMap(t') == ConnMap(t)[jni := NewConn(jni).(maxInfoUnit := miu, recvWindow := rw)]
             else t' == t && forall i :: 0 <= i < MAX_ENTRIES ==> t.clients[i].Some?)
  {
    var (t', f) := PlaceClient(t, jni, miu, rw);
    if f.Some? {
      InsertAt(t, t', ClientSlot(f.value), NewConn(jni).(maxInfoUnit := miu, recvWindow := rw));
    }
  }

  lemma AllocateConnIsInsert(t: Tables, i: nat, jni: JniHandle)
    requires Shaped(t) && DistinctJni(t) && Unused(t, jni) && i < |t.servers| && t.servers[i].Some?
    ensures var (t', s) := AllocateConn(t, i, jni);
            Shaped(t') && DistinctJni(t') &&
            (if s.Some? then ConnMap(t') == ConnMap(t)[jni := NewConn(jni)]
             else t' == t && forall j :: 0 <= j < MAX_CONNS_PER_SERVER ==> t.servers[i].value.conns[j].Some?)
  {
    var (t', s) := AllocateConn(t, i, jni);
    if s.Some? {
      SetConnAt(t, s.value, Some(NewConn(jni)));
      InsertAt(t, t', s.value, NewConn(jni));
    }
  }

  /** The handles of a server's own connections. */
  ghost function ConnsOf(t: Tables, i: nat): set<JniHandle>
    requires i < |t.servers| && t.servers[i].Some?
  {
    set j | 0 <= j < |t.servers[i].value.conns| && t.servers[i].value.conns[j].Some? ::
        t.servers[i].value.conns[j].value.jni
  }

  lemma FirstServerIsOnly(t: Tables, jni: JniHandle, i: nat)
    requires Shaped(t) && DistinctJni(t) && i < |t.servers| && t.servers[i].Some? && t.servers[i].value.jni == jni
    ensures ServerByJni(t, jni) == i
  {
    var k := ServerByJni(t, jni);
    assert JniAt(t, OfServer(k)) == JniAt(t, OfServer(i));
  }

  /** removeServer takes that server and its connections, and nothing else. */
  lemma RemoveServerIsDelete(t: Tables, jni: JniHandle, i: nat)
    requires Shaped(t) && DistinctJni(t) && i < |t.servers| && t.servers[i].Some? && t.servers[i].value.jni == jni
    ensures Shaped(RemoveServer(t, jni)) && DistinctJni(RemoveServer(t, jni))
    ensures ConnMap(RemoveServer(t, jni)) == ConnMap(t) - ConnsOf(t, i)
    ensures RemoveServer(t, jni).clients == t.clients
    ensures forall k :: 0 <= k < MAX_ENTRIES ==>
        RemoveServer(t, jni).servers[k] == if k == i then None else t.servers[k]
  {
    FirstServerIsOnly(t, jni, i);
    var t' := RemoveServer(t, jni);
    forall s: Slot
      ensures ConnAt(t', s) ==
              if ConnAt(t, s).Some? && ConnAt(t, s).value.jni in ConnsOf(t, i) then None else ConnAt(t, s)
    {
      if ConnAt(t, s).Some? && ConnAt(t, s).value.jni in ConnsOf(t, i) {
        var conns := t.servers[i].value.conns;
        var j: nat :| j < |conns| && conns[j].Some? && conns[j].value.jni == ConnAt(t, s).value.jni;
        SameJniSameSlot(t, s, ServerSlot(i, j), ConnAt(t, s).value.jni);
      }
    }
    DeleteAt(t, t', ConnsOf(t, i));
  }

  // ---------------------------------------------------------------- servers by name

  ghost predicate DistinctNames(t: Tables) {
    forall i, k :: 0 <= i < k < |t.servers| && t.servers[i].Some? && t.servers[k].Some? ==>
                     t.servers[i].value.name != t.servers[k].value.name
  }

  /** The handle under which a service name is registered. */
  function JniOfName(t: Tables, name: string): Option<JniHandle> {
    var k := ServerByName(t, name);
    if k < |t.servers| then Some(t.servers[k].value.jni) else None
  }

  /** A name that is registered is found at the one server that has it. */
  lemma NameIsAt(t: Tables, i: nat)
    requires DistinctNames(t) && i < |t.servers| && t.servers[i].Some?
    ensures ServerByName(t, t.servers[i].value.name) == i
  {
  }

  lemma PlaceServerKeeps(t: Tables, jni: JniHandle, name: string)
    requires Shaped(t) && DistinctJni(t) && DistinctNames(t) && Unused(t, jni)
    ensures var (t', place) := PlaceServer(t, jni, name);
            && Shaped(t') && DistinctJni(t') && DistinctNames(t')
            && (forall s: Slot :: ConnAt(t', s) == ConnAt(t, s))
  {
    var (t', place) := PlaceServer(t, jni, name);
    if !place.Full? {
      assert forall s: Slot :: ConnAt(t', s) == ConnAt(t, s);
      assert forall h: Holder :: JniAt(t', h) == if h == OfServer(place.i) then Some(jni) else JniAt(t, h);
    }
  }

  /** registerServer's table section is an update of the map from names to handles; it refuses only a new
      name on a full table. */
  lemma PlaceServerIsUpsert(t: Tables, jni: JniHandle, name: string)
    requires Shaped(t) && DistinctJni(t) && DistinctNames(t) && Unused(t, jni)
    ensures var (t', place) := PlaceServer(t, jni, name);
            && (place.Full? <==> JniOfName(t, name).None? && forall i :: 0 <= i < MAX_ENTRIES ==> t.servers[i].Some?)
            && (place.Full? ==> t' == t)
            && (!place.Full? ==> forall n :: JniOfName(t', n) == if n == name then Some(jni) else JniOfName(t, n))
  {
    var (t', place) := PlaceServer(t, jni, name);
    if !place.Full? {
      PlaceServerKeeps(t, jni, name);
      NameIsAt(t', place.i);
      forall n | n != name ensures JniOfName(t', n) == JniOfName(t, n) {
        var k, k' := ServerByName(t, n), ServerByName(t', n);
        if k < |t.servers| {
          assert t'.servers[k] == t.servers[k];
          NameIsAt(t', k);
        }
      }
    }
  }
}
