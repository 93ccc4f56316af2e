/** Anonymous client registration: a REG_CLIENT event names no client, so it goes to the first one that waits. */
module P2pRegistration {
  import opened Common
  import opened P2pTables
  import opened P2pCalls

  /** The clients still without a stack handle, in slot order. */
  function Pending(clients: seq<Option<Client>>, from: nat): (p: seq<nat>)
    requires from <= |clients|
    ensures forall x :: 0 <= x < |p| ==>
        from <= p[x] < |clients| && clients[p[x]].Some? && clients[p[x]].value.nfa == INVALID
    decreases |clients| - from
  {
    if from == |clients| then []
    else if clients[from].Some? && clients[from].value.nfa == INVALID then [from] + Pending(clients, from + 1)
    else Pending(clients, from + 1)
  }

  /** All of them, in order. */
  lemma {:induction false} PendingIsAll(clients: seq<Option<Client>>, from: nat)
    requires from <= |clients|
    ensures var p := Pending(clients, from);
            && (forall x, y :: 0 <= x < y < |p| ==> p[x] < p[y])
            && (forall i :: from <= i < |clients| && clients[i].Some? && clients[i].value.nfa == INVALID ==> i in p)
    decreases |clients| - from
  {
    if from < |clients| { PendingIsAll(clients, from + 1); }
  }

  /** What one REG_CLIENT event, which names no client, does to the clients. */
  function Give(clients: seq<Option<Client>>, h: NfaHandle): (r: seq<Option<Client>>)
    ensures forall w: World :: w.t.clients == clients ==> OnRegClient(w, h).t.clients == r
  {
    var k := First(clients, (c: Client) => c.nfa == INVALID);
    if k < |clients| then clients[k := Some(clients[k].value.(nfa := h))] else clients
  }

  /** A run of such events. */
  function GiveAll(clients: seq<Option<Client>>, handles: seq<NfaHandle>): seq<Option<Client>>
    decreases |handles|
  {
    if handles == [] then clients else GiveAll(Give(clients, handles[0]), handles[1..])
  }

  lemma {:induction false} PendingFirst(clients: seq<Option<Client>>, from: nat, h: NfaHandle)
    requires from <= |clients| && h != INVALID
    requires FirstFrom(clients, (c: Client) => c.nfa == INVALID, from) < |clients|
    ensures var k := FirstFrom(clients, (c: Client) => c.nfa == INVALID, from);
            Pending(clients, from) == [k] + Pending(clients[k := Some(clients[k].value.(nfa := h))], from)
    decreases |clients| - from
  {
    var k := FirstFrom(clients, (c: Client) => c.nfa == INVALID, from);
    var clients' := clients[k := Some(clients[k].value.(nfa := h))];
    if k == from {
      PendingSame(clients, clients', from + 1);
    } else {
      PendingFirst(clients, from + 1, h);
    }
  }

  lemma {:induction false} PendingSame(a: seq<Option<Client>>, b: seq<Option<Client>>, from: nat)
    requires |a| == |b| && from <= |a| && forall i :: from <= i < |a| ==> a[i] == b[i]
    ensures Pending(a, from) == Pending(b, from)
    decreases |a| - from
  {
    if from < |a| { PendingSame(a, b, from + 1); }
  }

  /** clients' is clients with the waiting ones of p given the handles, as far as both go. */
  ghost predicate Assigned(clients: seq<Option<Client>>, clients': seq<Option<Client>>, p: seq<nat>,
      handles: seq<NfaHandle>)
    requires forall x :: 0 <= x < |p| ==> p[x] < |clients| && clients[p[x]].Some?
  {
    && |clients'| == |clients|
    && (forall x :: 0 <= x < |p| && x < |handles| ==> clients'[p[x]] == Some(clients[p[x]].value.(nfa := handles[x])))
    && (forall x :: |handles| <= x < |p| ==> clients'[p[x]] == clients[p[x]])
    && (forall i :: 0 <= i < |clients| && i !in p ==> clients'[i] == clients[i])
  }

  lemma AssignedMore(c0: seq<Option<Client>>, c1: seq<Option<Client>>, c2: seq<Option<Client>>, k: nat, p1: seq<nat>,
      handles: seq<NfaHandle>)
    requires handles != [] && k < |c0| && c0[k].Some? && k !in p1
    requires c1 == c0[k := Some(c0[k].value.(nfa := handles[0]))]
    requires forall x :: 0 <= x < |p1| ==> p1[x] < |c1| && c1[p1[x]].Some?
    requires Assigned(c1, c2, p1, handles[1..])
    ensures forall x :: 0 <= x < |[k] + p1| ==> ([k] + p1)[x] < |c0| && c0[([k] + p1)[x]].Some?
    ensures Assigned(c0, c2, [k] + p1, handles)
  {
    var p := [k] + p1;
    forall x | 0 < x < |p| && x < |handles| ensures c2[p[x]] == Some(c0[p[x]].value.(nfa := handles[x])) {
      assert p[x] == p1[x - 1] && handles[x] == handles[1..][x - 1];
      assert c1[p1[x - 1]] == c0[p1[x - 1]];
    }
    forall x | |handles| <= x < |p| ensures c2[p[x]] == c0[p[x]] {
      assert p[x] == p1[x - 1];
    }
  }

  lemma GiveFirst(clients: seq<Option<Client>>, h: NfaHandle)
    requires h != INVALID && Pending(clients, 0) != []
    ensures var k := Pending(clients, 0)[0];
            && Give(clients, h) == clients[k := Some(clients[k].value.(nfa := h))]
            && Pending(Give(clients, h), 0) == Pending(clients, 0)[1..]
            && k !in Pending(clients, 0)[1..]
  {
    var k := First(clients, (c: Client) => c.nfa == INVALID);
    PendingIsAll(clients, 0);
    assert clients[Pending(clients, 0)[0]].Some?;
    PendingFirst(clients, 0, h);
  }

  lemma GiveNone(clients: seq<Option<Client>>, h: NfaHandle)
    requires Pending(clients, 0) == []
    ensures Give(clients, h) == clients
  {
    PendingIsAll(clients, 0);
    var k := First(clients, (c: Client) => c.nfa == INVALID);
  }

  /** clients' is what giving the handles to the waiting clients, one each and in order, makes of clients. */
  ghost predicate Given(clients: seq<Option<Client>>, clients': seq<Option<Client>>, handles: seq<NfaHandle>) {
    var p := Pending(clients, 0);
    Assigned(clients, clients', p, handles) && Pending(clients', 0) == if |handles| <= |p| then p[|handles|..] else []
  }

  lemma GivenMore(clients: seq<Option<Client>>, clients': seq<Option<Client>>, handles: seq<NfaHandle>)
    requires handles != [] && handles[0] != INVALID && Pending(clients, 0) != []
    requires Given(Give(clients, handles[0]), clients', handles[1..])
    ensures Given(clients, clients', handles)
  {
    var p := Pending(clients, 0);
    GiveFirst(clients, handles[0]);
    AssignedMore(clients, Give(clients, handles[0]), clients', p[0], p[1..], handles);
    assert p == [p[0]] + p[1..];
    if |handles| <= |p| { assert p[|handles|..] == p[1..][|handles| - 1..]; }
  }

  /** n events over p waiting clients register exactly the first min(n, p) of them, in slot order, each with the
      handle of its own event; every other client is left as it was, and the others still wait. */
  lemma {:induction false} GiveAllInOrder(handles: seq<NfaHandle>)
    requires forall x :: 0 <= x < |handles| ==> handles[x] != INVALID
    ensures forall clients :: Given(clients, GiveAll(clients, handles), handles)
    decreases |handles|
  {
    if handles != [] {
      GiveAllInOrder(handles[1..]);
      forall clients ensures Given(clients, GiveAll(clients, handles), handles) {
        assert Given(Give(clients, handles[0]), GiveAll(clients, handles), handles[1..]);
        if Pending(clients, 0) == [] {
          GiveNone(clients, handles[0]);
        } else {
          GivenMore(clients, GiveAll(clients, handles), handles);
        }
      }
    }
  }

  // ---------------------------------------------------------------- with clients created in between

  datatype Step = Insert(conn: Conn) | Event(h: NfaHandle)

  /** createClient's section, on the clients alone, or one event. */
  function After(clients: seq<Option<Client>>, step: Step): (r: seq<Option<Client>>)
    ensures |r| == |clients|
  {
    match step
    case Insert(conn) =>
      var f := FirstFree(clients);
      if f < |clients| then clients[f := Some(Client(INVALID, false, conn))] else clients
    case Event(h) => Give(clients, h)
  }

  function AfterAll(clients: seq<Option<Client>>, steps: seq<Step>): seq<Option<Client>>
    decreases |steps|
  {
    if steps == [] then clients else AfterAll(After(clients, steps[0]), steps[1..])
  }

  /** The inserts that found a free slot, and the events that found a waiting client. */
  function Inserted(clients: seq<Option<Client>>, steps: seq<Step>): nat
    decreases |steps|
  {
    if steps == [] then 0
    else
      (if steps[0].Insert? && FirstFree(clients) < |clients| then 1 else 0) +
      Inserted(After(clients, steps[0]), steps[1..])
  }

  function Landed(clients: seq<Option<Client>>, steps: seq<Step>): nat
    decreases |steps|
  {
    if steps == [] then 0
    else (if steps[0].Event? && Pending(clients, 0) != [] then 1 else 0) + Landed(After(clients, steps[0]), steps[1..])
  }

  function Registered(clients: seq<Option<Client>>, from: nat): nat
    requires from <= |clients|
    decreases |clients| - from
  {
    if from == |clients| then 0
    else (if clients[from].Some? && clients[from].value.nfa != INVALID then 1 else 0) + Registered(clients, from + 1)
  }

  /** Filling slot k, free or waiting, changes the two counts at that slot only. */
  lemma {:induction false} SlotFilled(clients: seq<Option<Client>>, k: nat, c: Client, from: nat)
    requires from <= k < |clients| && (clients[k].None? || clients[k].value.nfa == INVALID)
    ensures var r := clients[k := Some(c)];
            && |Pending(r, from)| + (if clients[k].Some? then 1 else 0) ==
               |Pending(clients, from)| + (if c.nfa == INVALID then 1 else 0)
            && Registered(r, from) == Registered(clients, from) + (if c.nfa != INVALID then 1 else 0)
    decreases k - from
  {
    var r := clients[k := Some(c)];
    if from == k {
      PendingSame(clients, r, from + 1);
      RegisteredSame(clients, r, from + 1);
    } else {
      SlotFilled(clients, k, c, from + 1);
    }
  }

  lemma {:induction false} RegisteredSame(a: seq<Option<Client>>, b: seq<Option<Client>>, from: nat)
    requires |a| == |b| && from <= |a| && forall i :: from <= i < |a| ==> a[i] == b[i]
    ensures Registered(a, from) == Registered(b, from)
    decreases |a| - from
  {
    if from < |a| { RegisteredSame(a, b, from + 1); }
  }

  /** No two clients have the same valid handle. */
  ghost predicate DistinctHandles(clients: seq<Option<Client>>) {
    forall i, k ::
      0 <= i < k < |clients| && clients[i].Some? && clients[k].Some? && clients[i].value.nfa != INVALID ==>
        clients[i].value.nfa != clients[k].value.nfa
  }

  ghost predicate OneEach(clients: seq<Option<Client>>, used: set<NfaHandle>) {
    && DistinctHandles(clients)
    && (forall i :: 0 <= i < |clients| && clients[i].Some? && clients[i].value.nfa != INVALID ==>
        clients[i].value.nfa in used)
  }

  /** Each event brings a valid handle not used before. */
  predicate FreshHandles(steps: seq<Step>, used: set<NfaHandle>)
    decreases |steps|
  {
    steps == [] || (
      && (steps[0].Event? ==> steps[0].h != INVALID && steps[0].h !in used)
      && FreshHandles(steps[1..], if steps[0].Event? then used + {steps[0].h} else used))
  }

  /** One step: an insert puts a waiting client into the first free slot; an event gives its handle to the waiting
      client in the lowest slot; with none free, or none waiting, nothing changes. */
  lemma StepCounts(clients: seq<Option<Client>>, step: Step)
    requires step.Event? ==> step.h != INVALID
    ensures var r, p := After(clients, step), Pending(clients, 0);
            && (step.Event? && p != [] ==> r == clients[p[0] := Some(clients[p[0]].value.(nfa := step.h))])
            && (step.Event? && p == [] ==> r == clients)
            && |Pending(r, 0)| == |p| + Inserted(clients, [step]) - Landed(clients, [step])
            && Registered(r, 0) == Registered(clients, 0) + Landed(clients, [step])
  {
    match step
    case Insert(conn) =>
      if FirstFree(clients) < |clients| { SlotFilled(clients, FirstFree(clients), Client(INVALID, false, conn), 0); }
    case Event(h) =>
      if Pending(clients, 0) == [] {
        GiveNone(clients, h);
      } else {
        var k := Pending(clients, 0)[0];
        GiveFirst(clients, h);
        SlotFilled(clients, k, clients[k].value.(nfa := h), 0);
      }
  }

  lemma StepOneEach(clients: seq<Option<Client>>, step: Step, used: set<NfaHandle>)
    requires OneEach(clients, used) && (step.Event? ==> step.h != INVALID && step.h !in used)
    ensures OneEach(After(clients, step), if step.Event? then used + {step.h} else used)
  {
    StepCounts(clients, step);
  }

  /** For any sequence of inserts and events with fresh handles: no handle goes to two clients; each event that finds
      somebody waiting registers one client, and each insert that finds a slot leaves one more to wait. */
  lemma {:induction false} RegistrationRun(clients: seq<Option<Client>>, steps: seq<Step>, used: set<NfaHandle>)
    requires OneEach(clients, used) && FreshHandles(steps, used)
    ensures var r := AfterAll(clients, steps);
            && Registered(r, 0) == Registered(clients, 0) + Landed(clients, steps)
            && |Pending(r, 0)| == |Pending(clients, 0)| + Inserted(clients, steps) - Landed(clients, steps)
            && DistinctHandles(r)
    decreases |steps|
  {
    if steps != [] {
      StepCounts(clients, steps[0]);
      StepOneEach(clients, steps[0], used);
      RegistrationRun(After(clients, steps[0]), steps[1..], if steps[0].Event? then used + {steps[0].h} else used);
    }
  }
}
