/** reSelect of NativeNfcTag.cpp in the open build: put the tag to sleep, select it again with another interface,
    while the stack's callback thread runs.  The callback is cut into single accesses, and any number of them may
    come between two accesses of reSelect; only the notification waits for the event's mutex.  How a timed wait
    ends is left open, so a wake-up by anybody, or by nobody, is covered. */
module ReSelect {
  import opened Common

  const TARGET_LOST := 146

  datatype Activation = Idle | Sleep | Active

  /** Where the callback thread is; a connect status is tested for twice, then the flag is cleared, then it is
      written. */
  datatype Point = TestSelecting | TestWaiting | ClearWaiting | WriteStatus

  datatype Callback =
    | Resting
    | TestDeactivating
    | WriteDeactivate
    | Connect(at: Point, ok: bool)
    | Notify

  /** Ignored: an activation or a failed selection handled while NFC is being switched off, which changes nothing. */
  datatype Event = Deactivated(sleep: bool) | Activated | SelectFailed | Ignored | Abort

  datatype CallbackStep = Deliver(e: Event) | GoOn

  /** What the callback writes: the activation state, sGotDeactivate, sConnectOk, sConnectWaitingForComplete, its own
      place, and a history. */
  datatype Seen = Seen(activation: Activation, gotDeactivate: bool, connectOk: bool, waiting: bool, cb: Callback,
      past: Past)

  /** What only reSelect writes: gIsTagDeactivating, gIsSelectingRfInterface, sCurrentRfInterface, whether its mutex is
      locked, and whether it holds sReconnectEvent. */
  datatype Caller = Caller(deactivating: bool, selecting: bool, current: int, locked: bool, held: bool)

  datatype Tag = Tag(e: Seen, c: Caller)

  /** The moments of the call: its start, the reset of sGotDeactivate, the test whether the tag is asleep with what it
      found and the deactivation before it, the reset of sConnectOk, and the test whether the tag is active with what it
      found. */
  datatype Moments = Moments(callAt: nat, askedAt: nat, sleptAt: nat, asleep: bool, sleptFrom: nat, resetAt: nat,
      activeAt: nat, active: bool)

  /** And of the callback: the event it works on, the last activation or deactivation it was told of, the last
      deactivation it wrote, the last positive status, and its event. */
  datatype Past = Past(now: nat, call: Moments, eventAt: nat, heard: Option<Event>, gotAt: nat, okAt: nat, okFrom: nat)

  // ---------------------------------------------------------------- the callback

  function Began(p: Past, e: Event): Past {
    p.(now := p.now + 1, eventAt := p.now + 1, heard := if e.Activated? || e.Deactivated? then Some(e) else p.heard)
  }
  function GotOk(p: Past): Past { p.(now := p.now + 1, okAt := p.now + 1, okFrom := p.eventAt) }
  function GotDeactivate(p: Past): Past { p.(now := p.now + 1, gotAt := p.now + 1) }
  function Called(p: Past): Past { p.(now := p.now + 1, call := p.call.(callAt := p.now + 1)) }
  function Asked(p: Past): Past { p.(now := p.now + 1, call := p.call.(askedAt := p.now + 1)) }
  function WasReset(p: Past): Past { p.(now := p.now + 1, call := p.call.(resetAt := p.now + 1)) }
  function Slept(p: Past): Past {
    var asleep := p.heard == Some(Deactivated(true));
    p.(now := p.now + 1, call := p.call.(sleptAt := p.now + 1, asleep := asleep, sleptFrom := p.gotAt))
  }
  function WasActive(p: Past): Past {
    p.(now := p.now + 1, call := p.call.(activeAt := p.now + 1, active := p.heard == Some(Activated)))
  }

  function Begin(v: Seen, e: Event): Seen {
    var p := Began(v.past, e);
    match e
    case Deactivated(sleep) =>
      v.(activation := if sleep then Sleep else Idle, cb := if sleep then TestDeactivating else Notify, past := p)
    case Activated => v.(activation := Active, cb := Connect(TestSelecting, true), past := p)
    case SelectFailed => v.(cb := Connect(TestSelecting, false), past := p)
    case Ignored => v.(past := p)
    case Abort => v.(cb := Notify, past := p)
  }

  /** doConnectStatus, and the test of gIsSelectingRfInterface before it. */
  function PassOn(v: Seen, selecting: bool): Seen
    requires v.cb.Connect?
  {
    var ok := v.cb.ok;
    match v.cb.at
    case TestSelecting => v.(cb := if selecting then Connect(TestWaiting, ok) else Resting)
    case TestWaiting => v.(cb := if v.waiting then Connect(ClearWaiting, ok) else Resting)
    case ClearWaiting => v.(cb := Connect(WriteStatus, ok), waiting := false)
    case WriteStatus => v.(cb := Notify, connectOk := ok, past := if ok then GotOk(v.past) else v.past)
  }

  function Continue(v: Seen, c: Caller): Seen {
    match v.cb
    case Resting => v
    case TestDeactivating => v.(cb := if c.deactivating then WriteDeactivate else Resting)
    case WriteDeactivate => v.(cb := Notify, gotDeactivate := true, past := GotDeactivate(v.past))
    case Connect(_, _) => PassOn(v, c.selecting)
    case Notify => if c.held then v else v.(cb := Resting)
  }

  function Step(v: Seen, c: Caller, a: CallbackStep): Seen {
    if a.GoOn? then Continue(v, c) else if v.cb.Resting? then Begin(v, a.e) else v
  }

  function Env(v: Seen, c: Caller, steps: seq<CallbackStep>): Seen {
    if steps == [] then v else Step(Env(v, c, steps[..|steps| - 1]), c, steps[|steps| - 1])
  }

  // ---------------------------------------------------------------- the call

  /** What the callback does at each point of the call, what the stack answers, and how the waits end. */
  datatype Oracle = Oracle(env: seq<seq<CallbackStep>>, detectionTimedOut: bool, deactivates: bool, selects: bool,
      timedOut: bool)

  function At(o: Oracle, k: nat): seq<CallbackStep> { if k < |o.env| then o.env[k] else [] }

  /** The first half, up to the test that finds the tag asleep; a code if it gives up. */
  function PutToSleep(v: Tag, o: Oracle): (Tag, Option<int>) {
    if o.detectionTimedOut then (v, Some(TARGET_LOST)) else
      var e1, c1 := Env(v.e, v.c, At(o, 1)), v.c.(held := true);
      var e2, c2 := Env(e1, c1, At(o, 2)), c1.(deactivating := true);
      var e3 := NotGot(Env(e2, c2, At(o, 3)));
      var e4, c4 := Env(e3, c2, At(o, 4)), c2.(held := false);
      if !o.deactivates then (Tag(e4, c4), Some(1)) else
        Asleep(Env(Env(e4, c4, At(o, 5)), c2, At(o, 6)), c4, o)
  }

  function NotGot(e: Seen): Seen { e.(gotDeactivate := false, past := Asked(e.past)) }

  /** After the wait for the deactivation. */
  function Asleep(e: Seen, c: Caller, o: Oracle): (Tag, Option<int>) {
    var e1 := Env(e, c, At(o, 7));
    if !e1.gotDeactivate then (Tag(e1, c), Some(TARGET_LOST)) else
      var e2 := Env(e1, c, At(o, 8));
      var e3 := e2.(past := Slept(e2.past));
      if e2.activation != Sleep then (Tag(e3, c), Some(TARGET_LOST)) else (Tag(e3, c), None)
  }

  /** The second half, from the tag asleep to the tag selected. */
  function WakeUp(v: Tag, rf: int, o: Oracle): (Tag, int) {
    var e1, c1 := Env(v.e, v.c, At(o, 9)), v.c.(deactivating := false);
    var e2, c2 := Env(e1, c1, At(o, 10)), c1.(held := true);
    var e3, c3 := Env(e2, c2, At(o, 11)), c2.(selecting := true);
    var e4 := Env(e3, c3, At(o, 12)).(waiting := true);
    var e5, c5 := Env(e4, c3, At(o, 13)), c3.(held := false);
    if !o.selects then (Tag(e5, c5), 1) else Selecting(e5, c3, rf, o)
  }

  /** From the reset of sConnectOk on; c holds the event. */
  function Selecting(e: Seen, c: Caller, rf: int, o: Oracle): (Tag, int) {
    var e1 := Env(e.(connectOk := false, past := WasReset(e.past)), c, At(o, 14));
    var c1 := c.(held := false);
    var e2 := Env(Env(e1, c1, At(o, 15)), c, At(o, 16));
    if o.timedOut then (Tag(e2, c1), 1) else Awake(e2, c1, rf, o)
  }

  /** After the wait for the selection. */
  function Awake(e: Seen, c: Caller, rf: int, o: Oracle): (Tag, int) {
    var e1 := Env(e, c, At(o, 17));
    var e1' := e1.(past := WasActive(e1.past));
    if e1.activation != Active then (Tag(e1', c), TARGET_LOST) else
      var e2 := Env(e1', c, At(o, 18));
      if e2.connectOk then (Tag(e2, c.(current := rf)), 0) else (Tag(e2, c), 1)
  }

  function CleanUp(v: Tag, o: Oracle): Tag {
    var e1 := Env(v.e, v.c, At(o, 19)).(waiting := false);
    var e2, c2 := Env(e1, v.c, At(o, 20)), v.c.(deactivating := false);
    var e3, c3 := Env(e2, c2, At(o, 21)), c2.(selecting := false);
    Tag(Env(e3, c3, At(o, 22)), c3.(locked := false))
  }

  /** The mutex is taken. */
  function Locked(v: Tag, o: Oracle): Tag {
    var c := v.c.(locked := true);
    Tag(Env(v.e.(past := Called(v.e.past)), c, At(o, 0)), c)
  }

  function Call(v: Tag, rf: int, switchIfNeeded: bool, o: Oracle): (Tag, int) {
    var v1 := Locked(v, o);
    if switchIfNeeded && rf == v1.c.current then (v1.(c := v1.c.(locked := false)), 0)
    else
      var (v2, lost) := PutToSleep(v1, o);
      if lost.Some? then (CleanUp(v2, o), lost.value)
      else
        var (v3, r) := WakeUp(v2, rf, o);
        (CleanUp(v3, o), r)
  }

  // ---------------------------------------------------------------- in place

  class NativeNfcTag {
    var mActivationState: Activation
    var sGotDeactivate: bool
    var sConnectOk: bool
    var sConnectWaitingForComplete: bool
    var gIsTagDeactivating: bool
    var gIsSelectingRfInterface: bool
    var sCurrentRfInterface: int
    var rfInterfaceMutexLocked: bool
    var reconnectEventHeld: bool
    var callback: Callback
    ghost var past: Past

    ghost function E(): Seen reads this {
      Seen(mActivationState, sGotDeactivate, sConnectOk, sConnectWaitingForComplete, callback, past)
    }

    ghost function C(): Caller reads this {
      Caller(gIsTagDeactivating, gIsSelectingRfInterface, sCurrentRfInterface, rfInterfaceMutexLocked,
          reconnectEventHeld)
    }

    ghost function Val(): Tag reads this { Tag(E(), C()) }

    constructor (rf: int)
      ensures Val() == Initial(rf)
    {
      mActivationState, sGotDeactivate, sConnectOk, sConnectWaitingForComplete := Idle, false, false, false;
      gIsTagDeactivating, gIsSelectingRfInterface, sCurrentRfInterface := false, false, rf;
      rfInterfaceMutexLocked, reconnectEventHeld, callback := false, false, Resting;
      past := Initial(rf).e.past;
    }

    /** doConnectStatus, one access at a time. */
    method PassStatusOn()
      requires callback.Connect?
      modifies this
      ensures C() == old(C()) && E() == PassOn(old(E()), gIsSelectingRfInterface)
    {
      var ok := callback.ok;
      match callback.at {
        case TestSelecting => callback := if gIsSelectingRfInterface then Connect(TestWaiting, ok) else Resting;
        case TestWaiting => callback := if sConnectWaitingForComplete then Connect(ClearWaiting, ok) else Resting;
        case ClearWaiting => sConnectWaitingForComplete, callback := false, Connect(WriteStatus, ok);
        case WriteStatus =>
          sConnectOk, callback := ok, Notify;
          past := if ok then GotOk(past) else past;
      }
    }

    /** The stack hands an event to the callback. */
    method Deliver(e: Event)
      requires callback.Resting?
      modifies this
      ensures C() == old(C()) && E() == Begin(old(E()), e)
    {
      past := Began(past, e);
      match e {
        case Deactivated(sleep) =>
          mActivationState := Idle;
          if sleep {
            mActivationState := Sleep;
          }
          callback := if sleep then TestDeactivating else Notify;
        case Activated =>
          mActivationState := Active;
          callback := Connect(TestSelecting, true);
        case SelectFailed => callback := Connect(TestSelecting, false);
        case Ignored => callback := Resting;
        case Abort => callback := Notify;
      }
    }

    method CallbackAccess(a: CallbackStep)
      modifies this
      ensures C() == old(C()) && E() == Step(old(E()), C(), a)
    {
      if a.Deliver? {
        if callback.Resting? {
          Deliver(a.e);
        }
      } else {
        match callback {
          case Resting =>
          case TestDeactivating => callback := if gIsTagDeactivating then WriteDeactivate else Resting;
          case WriteDeactivate =>
            sGotDeactivate, callback := true, Notify;
            past := GotDeactivate(past);
          case Connect(_, _) => PassStatusOn();
          case Notify => callback := if reconnectEventHeld then Notify else Resting;
        }
      }
    }

    method Callbacks(steps: seq<CallbackStep>)
      modifies this
      ensures C() == old(C()) && E() == Env(old(E()), C(), steps)
    {
      for i := 0 to |steps|
        invariant C() == old(C()) && E() == Env(old(E()), C(), steps[..i])
      {
        assert steps[..i + 1][..i] == steps[..i];
        CallbackAccess(steps[i]);
      }
      assert steps[..|steps|] == steps;
    }

    /** The two tests after the wait for the deactivation. */
    method TestAsleep(o: Oracle) returns (lost: Option<int>)
      modifies this
      ensures (Val(), lost) == Asleep(old(E()), old(C()), o)
    {
      Callbacks(At(o, 7));
      if !sGotDeactivate {
        return Some(TARGET_LOST);
      }
      Callbacks(At(o, 8));
      past := Slept(past);
      if mActivationState != Sleep {
        return Some(TARGET_LOST);
      }
      return None;
    }

    /** The block that deactivates, and the tests after it. */
    method Deactivate(o: Oracle) returns (lost: Option<int>)
      requires !reconnectEventHeld
      modifies this
      ensures (Val(), lost) == PutToSleep(old(Val()), o)
    {
      if o.detectionTimedOut {
        return Some(TARGET_LOST);
      }
      Callbacks(At(o, 1));
      reconnectEventHeld := true;
      Callbacks(At(o, 2));
      gIsTagDeactivating := true;
      Callbacks(At(o, 3));
      sGotDeactivate := false;
      past := Asked(past);
      Callbacks(At(o, 4));
      reconnectEventHeld := false;
      if !o.deactivates {
        return Some(1);
      }
      Callbacks(At(o, 5));
      reconnectEventHeld := true;
      Callbacks(At(o, 6));
      reconnectEventHeld := false;
      lost := TestAsleep(o);
    }

    /** The tests after the wait for the selection. */
    method TestAwake(rf: int, o: Oracle) returns (r: int)
      modifies this
      ensures (Val(), r) == Awake(old(E()), old(C()), rf, o)
    {
      Callbacks(At(o, 17));
      past := WasActive(past);
      if mActivationState != Active {
        return TARGET_LOST;
      }
      Callbacks(At(o, 18));
      if sConnectOk {
        sCurrentRfInterface := rf;
        return 0;
      }
      return 1;
    }

    /** The block that selects, and the tests after it. */
    method Select(rf: int, o: Oracle) returns (r: int)
      requires !reconnectEventHeld
      modifies this
      ensures (Val(), r) == WakeUp(old(Val()), rf, o)
    {
      Callbacks(At(o, 9));
      gIsTagDeactivating := false;
      Callbacks(At(o, 10));
      reconnectEventHeld := true;
      Callbacks(At(o, 11));
      gIsSelectingRfInterface := true;
      Callbacks(At(o, 12));
      sConnectWaitingForComplete := true;
      Callbacks(At(o, 13));
      if !o.selects {
        reconnectEventHeld := false;
        return 1;
      }
      r := AwaitSelection(rf, o);
    }

    /** From the reset of sConnectOk on. */
    method AwaitSelection(rf: int, o: Oracle) returns (r: int)
      requires reconnectEventHeld
      modifies this
      ensures (Val(), r) == Selecting(old(E()), old(C()), rf, o)
    {
      sConnectOk := false;
      past := WasReset(past);
      Callbacks(At(o, 14));
      reconnectEventHeld := false;
      Callbacks(At(o, 15));
      reconnectEventHeld := true;
      Callbacks(At(o, 16));
      reconnectEventHeld := false;
      if o.timedOut {
        return 1;
      }
      r := TestAwake(rf, o);
    }

    method Finish(o: Oracle)
      modifies this
      ensures Val() == CleanUp(old(Val()), o)
    {
      Callbacks(At(o, 19));
      sConnectWaitingForComplete := false;
      Callbacks(At(o, 20));
      gIsTagDeactivating := false;
      Callbacks(At(o, 21));
      gIsSelectingRfInterface := false;
      Callbacks(At(o, 22));
      rfInterfaceMutexLocked := false;
    }

    method ReSelect(rf: int, switchIfNeeded: bool, o: Oracle) returns (r: int)
      requires Quiet(Val()) && Sound(E(), 0)
      modifies this
      ensures (Val(), r) == Call(old(Val()), rf, switchIfNeeded, o)
      ensures Quiet(Val()) && Sound(E(), 0) && sCurrentRfInterface == if r == 0 then rf else old(sCurrentRfInterface)
    {
      ReSelectResult(Val(), rf, switchIfNeeded, o);
      LockedKeeps(Val());
      rfInterfaceMutexLocked := true;
      past := Called(past);
      Callbacks(At(o, 0));
      if switchIfNeeded && rf == sCurrentRfInterface {
        rfInterfaceMutexLocked := false;
        return 0;
      }
      SleepResult(Val());
      var lost := Deactivate(o);
      if lost.Some? {
        r := lost.value;
      } else {
        r := Select(rf, o);
      }
      Finish(o);
    }

    /** switchRfInterface: true exactly if the protocol is not ISO-DEP or the interface is now the requested one
        with reSelect's word for it. */
    method SwitchRfInterface(isoDep: bool, rf: int, o: Oracle) returns (ok: bool)
      requires Quiet(Val()) && Sound(E(), 0)
      modifies this
      ensures Quiet(Val()) && Sound(E(), 0)
      ensures isoDep && ok ==> sCurrentRfInterface == rf
      ensures !isoDep || !ok ==> sCurrentRfInterface == old(sCurrentRfInterface)
      ensures ok <==> !isoDep || Call(old(Val()), rf, true, o).1 == 0
    {
      if !isoDep {
        return true;
      }
      var r := ReSelect(rf, true, o);
      return r == 0;
    }
  }

  function Initial(rf: int): Tag {
    Tag(Seen(Idle, false, false, false, Resting, Past(0, Moments(0, 0, 0, false, 0, 0, 0, false), 0, None, 0, 0, 0)),
        Caller(false, false, rf, false, false))
  }

  // ---------------------------------------------------------------- what the callback may and may not do

  predicate Positive(cb: Callback) { cb.Connect? && cb.ok }

  /** What holds of the callback against reSelect: at any time (0), since sGotDeactivate was reset in this call (1),
      since the tag was seen asleep (2), and since sConnectOk was reset (3). */
  predicate Sound(v: Seen, stage: nat) {
    var p, m := v.past, v.past.call;
    && (Positive(v.cb) ==> v.activation.Active?) && v.activation == Told(p.heard)
    && p.eventAt <= p.now && p.gotAt <= p.now && InPast(m, p.now)
    && (stage >= 1 ==> m.callAt < m.askedAt && (v.gotDeactivate ==> m.askedAt < p.gotAt))
    && (stage >= 2 ==> m.asleep && m.askedAt < m.sleptFrom < m.sleptAt && (Positive(v.cb) ==> m.sleptAt < p.eventAt))
    && (stage >= 3 ==> m.sleptAt < m.resetAt && (v.connectOk ==> Confirmed(p)))
  }

  /** The activation state that agrees with what the callback was told last. */
  function Told(heard: Option<Event>): Activation {
    if heard == Some(Activated) then Active else if heard == Some(Deactivated(true)) then Sleep else Idle
  }

  predicate InPast(m: Moments, now: nat) {
    m.callAt <= now && m.askedAt <= now && m.sleptAt <= now && m.resetAt <= now && m.activeAt <= now
  }

  /** A positive status came after the reset, from an activation delivered after the tag was seen asleep. */
  predicate Confirmed(p: Past) { p.call.resetAt < p.okAt && p.call.sleptAt < p.okFrom < p.okAt }

  /** The callback leaves the moments of the call alone; of the flags it can only clear one and set the other. */
  predicate Spares(v: Seen, v': Seen) {
    && (v'.waiting ==> v.waiting) && (v.gotDeactivate ==> v'.gotDeactivate)
    && v'.past.now >= v.past.now && v'.past.call == v.past.call
  }

  predicate Kept(v: Seen, v': Seen, stage: nat) { Sound(v', stage) && Spares(v, v') }

  lemma BeginKeeps(v: Seen)
    requires v.cb.Resting?
    ensures forall e, stage: nat | Sound(v, stage) :: Kept(v, Begin(v, e), stage)
  {
  }

  lemma PassOnKeeps(v: Seen, selecting: bool)
    requires v.cb.Connect?
    ensures forall stage: nat | Sound(v, stage) :: Kept(v, PassOn(v, selecting), stage)
  {
  }

  lemma RestKeeps(v: Seen, c: Caller)
    requires !v.cb.Connect?
    ensures forall stage: nat | Sound(v, stage) :: Kept(v, Continue(v, c), stage)
  {
  }

  lemma ContinueKeeps(v: Seen, c: Caller)
    ensures forall stage: nat | Sound(v, stage) :: Kept(v, Continue(v, c), stage)
  {
    if v.cb.Connect? { PassOnKeeps(v, c.selecting); } else { RestKeeps(v, c); }
  }

  lemma {:induction false} EnvKeeps(v: Seen, c: Caller, steps: seq<CallbackStep>, stage: nat)
    requires Sound(v, stage)
    ensures Sound(Env(v, c, steps), stage) && Spares(v, Env(v, c, steps))
  {
    if steps != [] {
      var v', a := Env(v, c, steps[..|steps| - 1]), steps[|steps| - 1];
      EnvKeeps(v, c, steps[..|steps| - 1], stage);
      if a.GoOn? { ContinueKeeps(v', c); } else if v'.cb.Resting? { BeginKeeps(v'); }
      assert Kept(v', Step(v', c, a), stage);
    }
  }

  /** v' is v but for what the callback may do for nobody: sGotDeactivate is not written. */
  predicate NoDeactivate(v: Seen, v': Seen) {
    v'.gotDeactivate == v.gotDeactivate && v'.past.gotAt == v.past.gotAt && !v'.cb.WriteDeactivate?
  }

  /** sGotDeactivate is written only for a reSelect that deactivates. */
  lemma {:induction false} UnaskedIsUnwritten(steps: seq<CallbackStep>)
    ensures forall v: Seen, c: Caller | !c.deactivating && !v.cb.WriteDeactivate? :: NoDeactivate(v, Env(v, c, steps))
  {
    if steps != [] { UnaskedIsUnwritten(steps[..|steps| - 1]); }
  }

  /** Nor are sConnectOk and sConnectWaitingForComplete. */
  predicate NoStatus(v: Seen, v': Seen) {
    v'.connectOk == v.connectOk && v'.waiting == v.waiting && (v'.cb.Connect? ==> v'.cb.at.TestSelecting?)
  }

  /** sConnectOk and sConnectWaitingForComplete are written only for a reSelect that selects. */
  lemma {:induction false} UnselectedIsUnwritten(steps: seq<CallbackStep>)
    ensures forall v: Seen, c: Caller | !c.selecting && (v.cb.Connect? ==> v.cb.at.TestSelecting?) ::
              NoStatus(v, Env(v, c, steps))
  {
    if steps != [] { UnselectedIsUnwritten(steps[..|steps| - 1]); }
  }

  /** While reSelect holds the event, a callback that is to notify it goes nowhere, and no other event is begun. */
  lemma {:induction false} HeldStopsCallback(v: Seen, c: Caller, steps: seq<CallbackStep>)
    requires c.held && v.cb.Notify?
    ensures Env(v, c, steps) == v
  {
    if steps != [] { HeldStopsCallback(v, c, steps[..|steps| - 1]); }
  }

  predicate Quiet(v: Tag) { !v.c.deactivating && !v.c.selecting && !v.e.waiting && !v.c.locked && !v.c.held }

  /** In this call the tag was seen asleep, the tag was seen active. */
  predicate SeenAsleep(m: Moments) { m.callAt < m.sleptAt && m.asleep }
  predicate SeenActive(m: Moments) { m.callAt < m.activeAt && m.active }

  /** Nothing was seen in this call yet. */
  predicate Fresh(v: Seen) { Sound(v, 0) && !SeenAsleep(v.past.call) && !SeenActive(v.past.call) }

  lemma LockedKeeps(v: Tag)
    requires Sound(v.e, 0)
    ensures forall o :: Fresh(Locked(v, o).e) && (!v.e.waiting ==> !Locked(v, o).e.waiting)
  {
    forall o ensures Fresh(Locked(v, o).e) && (!v.e.waiting ==> !Locked(v, o).e.waiting) {
      EnvKeeps(v.e.(past := Called(v.e.past)), v.c.(locked := true), At(o, 0), 0);
    }
  }

  /** What the first half of a call leaves.  It gives the call up as lost if detection timed out or, the deactivation
      being accepted, the tag was not seen asleep; with code 1 if the deactivation was refused. */
  predicate FirstHalf(c: Caller, o: Oracle, v': Tag, lost: Option<int>) {
    && !v'.c.held && v'.c.locked == c.locked && v'.c.current == c.current && !SeenActive(v'.e.past.call)
    && Sound(v'.e, if lost.None? then 2 else 0)
    && (lost.None? <==> SeenAsleep(v'.e.past.call))
    && (lost.None? ==> !o.detectionTimedOut && o.deactivates)
    && (lost.Some? ==> lost.value == if o.detectionTimedOut || o.deactivates then TARGET_LOST else 1)
  }

  lemma AsleepResult(e: Seen, c: Caller)
    requires Fresh(e) && Sound(e, 1) && !c.held
    ensures forall o: Oracle | o.deactivates && !o.detectionTimedOut ::
              FirstHalf(c, o, Asleep(e, c, o).0, Asleep(e, c, o).1)
  {
    forall o: Oracle | o.deactivates && !o.detectionTimedOut
      ensures FirstHalf(c, o, Asleep(e, c, o).0, Asleep(e, c, o).1)
    {
      EnvKeeps(e, c, At(o, 7), 1);
      EnvKeeps(Env(e, c, At(o, 7)), c, At(o, 8), 1);
    }
  }

  lemma SleepResult(v: Tag)
    requires Fresh(v.e) && !v.c.held
    ensures forall o :: FirstHalf(v.c, o, PutToSleep(v, o).0, PutToSleep(v, o).1)
  {
    forall o ensures FirstHalf(v.c, o, PutToSleep(v, o).0, PutToSleep(v, o).1) {
      if !o.detectionTimedOut {
        EnvKeeps(v.e, v.c, At(o, 1), 0);
        var e1, c1 := Env(v.e, v.c, At(o, 1)), v.c.(held := true);
        EnvKeeps(e1, c1, At(o, 2), 0);
        var e2, c2 := Env(e1, c1, At(o, 2)), c1.(deactivating := true);
        EnvKeeps(e2, c2, At(o, 3), 0);
        var e3 := NotGot(Env(e2, c2, At(o, 3)));
        EnvKeeps(e3, c2, At(o, 4), 1);
        var e4, c4 := Env(e3, c2, At(o, 4)), c2.(held := false);
        EnvKeeps(e4, c4, At(o, 5), 1);
        EnvKeeps(Env(e4, c4, At(o, 5)), c2, At(o, 6), 1);
        AsleepResult(Env(Env(e4, c4, At(o, 5)), c2, At(o, 6)), c4);
      }
    }
  }

  /** sGotDeactivate was reset in this call, then a deactivation was written, then the tag was seen asleep, then
      sConnectOk was reset, then the tag was seen active; and a positive connect status came after the reset, from an
      activation delivered after the tag was seen asleep. */
  predicate Rejoined(p: Past) {
    var m := p.call;
    m.callAt < m.askedAt < m.sleptFrom < m.sleptAt < m.resetAt < m.activeAt && m.asleep && m.active && Confirmed(p)
  }

  /** What the second half of a call leaves.  The tag is lost if the selection was completed and the tag was not seen
      active. */
  predicate SecondHalf(c: Caller, rf: int, o: Oracle, v': Tag, r: int) {
    && !v'.c.held && v'.c.locked == c.locked && v'.c.current == (if r == 0 then rf else c.current)
    && Sound(v'.e, 0) && SeenAsleep(v'.e.past.call) && (r == 0 || r == 1 || r == TARGET_LOST)
    && (r == TARGET_LOST <==> o.selects && !o.timedOut && !SeenActive(v'.e.past.call))
    && (r == 0 ==> Rejoined(v'.e.past))
  }

  lemma AwakeResult(e: Seen, c: Caller, rf: int)
    requires Sound(e, 3) && !c.held && !SeenActive(e.past.call)
    ensures forall o: Oracle | o.selects && !o.timedOut ::
              SecondHalf(c, rf, o, Awake(e, c, rf, o).0, Awake(e, c, rf, o).1)
  {
    forall o: Oracle | o.selects && !o.timedOut
      ensures SecondHalf(c, rf, o, Awake(e, c, rf, o).0, Awake(e, c, rf, o).1)
    {
      EnvKeeps(e, c, At(o, 17), 3);
      var e1 := Env(e, c, At(o, 17));
      EnvKeeps(e1.(past := WasActive(e1.past)), c, At(o, 18), 3);
    }
  }

  lemma WakeResult(v: Tag, rf: int)
    requires Sound(v.e, 2) && !v.c.held && !SeenActive(v.e.past.call)
    ensures forall o :: SecondHalf(v.c, rf, o, WakeUp(v, rf, o).0, WakeUp(v, rf, o).1)
  {
    forall o ensures SecondHalf(v.c, rf, o, WakeUp(v, rf, o).0, WakeUp(v, rf, o).1) {
      EnvKeeps(v.e, v.c, At(o, 9), 2);
      var e1, c1 := Env(v.e, v.c, At(o, 9)), v.c.(deactivating := false);
      EnvKeeps(e1, c1, At(o, 10), 2);
      var e2, c2 := Env(e1, c1, At(o, 10)), c1.(held := true);
      EnvKeeps(e2, c2, At(o, 11), 2);
      var e3, c3 := Env(e2, c2, At(o, 11)), c2.(selecting := true);
      EnvKeeps(e3, c3, At(o, 12), 2);
      var e4 := Env(e3, c3, At(o, 12)).(waiting := true);
      EnvKeeps(e4, c3, At(o, 13), 2);
      if o.selects { SelectingResult(Env(e4, c3, At(o, 13)), c3, rf); }
    }
  }

  lemma SelectingResult(e: Seen, c: Caller, rf: int)
    requires Sound(e, 2) && !SeenActive(e.past.call)
    ensures forall o: Oracle | o.selects :: SecondHalf(c, rf, o, Selecting(e, c, rf, o).0, Selecting(e, c, rf, o).1)
  {
    var e0, c1 := e.(connectOk := false, past := WasReset(e.past)), c.(held := false);
    forall o: Oracle | o.selects ensures SecondHalf(c, rf, o, Selecting(e, c, rf, o).0, Selecting(e, c, rf, o).1) {
      EnvKeeps(e0, c, At(o, 14), 3);
      var e1 := Env(e0, c, At(o, 14));
      EnvKeeps(e1, c1, At(o, 15), 3);
      EnvKeeps(Env(e1, c1, At(o, 15)), c, At(o, 16), 3);
      AwakeResult(Env(Env(e1, c1, At(o, 15)), c, At(o, 16)), c1, rf);
    }
  }

  /** The call leaves nothing behind but the interface and its moments. */
  predicate LeavesQuiet(v: Tag, v': Tag) {
    Quiet(v') && Sound(v'.e, 0) && v'.c.current == v.c.current && v'.e.past.call == v.e.past.call
  }

  lemma CleanUpQuiets(v: Tag)
    requires Sound(v.e, 0) && !v.c.held
    ensures forall o :: LeavesQuiet(v, CleanUp(v, o))
  {
    forall o ensures LeavesQuiet(v, CleanUp(v, o)) {
      EnvKeeps(v.e, v.c, At(o, 19), 0);
      var e1 := Env(v.e, v.c, At(o, 19)).(waiting := false);
      EnvKeeps(e1, v.c, At(o, 20), 0);
      var e2, c2 := Env(e1, v.c, At(o, 20)), v.c.(deactivating := false);
      EnvKeeps(e2, c2, At(o, 21), 0);
      var e3, c3 := Env(e2, c2, At(o, 21)), c2.(selecting := false);
      EnvKeeps(e3, c3, At(o, 22), 0);
    }
  }

  /** The history at the end of the second half. */
  function PastOf(v: Tag, rf: int, o: Oracle): Past {
    WakeUp(PutToSleep(Locked(v, o), o).0, rf, o).0.e.past
  }

  /** When each code comes back from a call that does work: the tag is lost exactly if detection had timed out, or the
      deactivation was accepted and the tag not seen asleep, or the selection completed and the tag not seen active. */
  predicate CodeSays(o: Oracle, m: Moments, r: int) {
    && (r == 0 || r == 1 || r == TARGET_LOST)
    && (SeenAsleep(m) ==> !o.detectionTimedOut && o.deactivates)
    && (r == TARGET_LOST <==>
          o.detectionTimedOut || (o.deactivates && !SeenAsleep(m)) ||
          (SeenAsleep(m) && o.selects && !o.timedOut && !SeenActive(m)))
    && (r == 0 ==> SeenAsleep(m) && o.selects && !o.timedOut && SeenActive(m))
  }

  /** Whatever the callback does in between: result 0 means that the interface is the requested one, and that it was
      so already or the tag went to sleep and came back as Rejoined says; any other result leaves the interface as
      it was, and comes back as CodeSays; and every exit leaves the mutex free and the three flags false. */
  lemma ReSelectResult(v: Tag, rf: int, switchIfNeeded: bool, o: Oracle)
    requires Quiet(v) && Sound(v.e, 0)
    ensures var (v', r) := Call(v, rf, switchIfNeeded, o);
            && Quiet(v') && Sound(v'.e, 0)
            && v'.c.current == (if r == 0 then rf else v.c.current)
            && (if switchIfNeeded && v.c.current == rf then r == 0
                else CodeSays(o, v'.e.past.call, r) && (r == 0 ==> Rejoined(PastOf(v, rf, o))))
  {
    LockedKeeps(v);
    var v1 := Locked(v, o);
    if !(switchIfNeeded && rf == v1.c.current) {
      SleepResult(v1);
      var (v2, lost) := PutToSleep(v1, o);
      if lost.Some? {
        CleanUpQuiets(v2);
      } else {
        WakeResult(v2, rf);
        CleanUpQuiets(WakeUp(v2, rf, o).0);
      }
    }
  }

  // ---------------------------------------------------------------- runs of calls

  datatype Action = Calls(rf: int, switchIfNeeded: bool, o: Oracle) | Between(a: CallbackStep)

  function Next(v: Tag, a: Action): Tag {
    if a.Calls? then Call(v, a.rf, a.switchIfNeeded, a.o).0 else v.(e := Env(v.e, v.c, [a.a]))
  }

  function After(rf: int, acts: seq<Action>): Tag {
    if acts == [] then Initial(rf) else Next(After(rf, acts[..|acts| - 1]), acts[|acts| - 1])
  }

  lemma NextIsQuiet(v: Tag)
    requires Quiet(v) && Sound(v.e, 0)
    ensures forall a :: Quiet(Next(v, a)) && Sound(Next(v, a).e, 0)
  {
    forall a ensures Quiet(Next(v, a)) && Sound(Next(v, a).e, 0) {
      if a.Calls? {
        ReSelectResult(v, a.rf, a.switchIfNeeded, a.o);
      } else {
        EnvKeeps(v.e, v.c, [a.a], 0);
      }
    }
  }

  /** Between calls the flags are down and the mutex is free, in every run, wherever the callback is. */
  lemma {:induction false} RunsAreQuiet(acts: seq<Action>)
    ensures forall rf :: Quiet(After(rf, acts)) && Sound(After(rf, acts).e, 0)
  {
    if acts != [] {
      RunsAreQuiet(acts[..|acts| - 1]);
      forall rf ensures Quiet(After(rf, acts)) && Sound(After(rf, acts).e, 0) {
        NextIsQuiet(After(rf, acts[..|acts| - 1]));
      }
    }
  }
}
