/** receive against the events that should wake it.  It tests the handle and reads from the stack outside the guard of
    mReadEvent, and then waits without looking again.  One receiver on a connection with one link; the callback thread
    with DATA and DISC events; and one other thread at a time that closes the connection or switches NFC off. */
module ReceiveWait {

  /** receive: testing the handle, reading, before the guard, inside it, waiting, woken, back in the guard, leaving with
      its result. */
  datatype Receiver = RTest | RRead | REnter | RGuarded | RWaiting | RWoken | RBack | RLeave(ok: bool)

  /** On the way to notify mReadEvent: before the guard, inside it, leaving it. */
  datatype Place = Enter | Guarded | Out

  datatype Callback = KIdle | KInvalidate | KNotify(p: Place)
  datatype Other = OIdle | ONotify(p: Place)

  /** client: the connection is a client's.  valid: it has its handle.  data: the stack has data for it.  due: DATA
      events not yet delivered.  early: when the wait began there was data or no handle. */
  datatype State = State(client: bool, recv: Receiver, cb: Callback, other: Other, valid: bool, data: bool, due: nat,
                         early: bool)

  /** A read gets data exactly if there is some and the handle is valid; more: whether it leaves some behind. */
  datatype Action =
    | RecvStep | Reads(more: bool) | RecvWakesItself
    | DataArrives | DeliverData | DeliverDisc | CallbackStep
    | OffStarts | CloseStarts | OtherStep

  predicate Inside(p: Place) { p.Guarded? || p.Out? }
  predicate RecvHolds(r: Receiver) { r.RGuarded? || r.RBack? }
  predicate CallbackHolds(k: Callback) { k.KNotify? && Inside(k.p) }
  predicate OtherHolds(o: Other) { o.ONotify? && Inside(o.p) }
  predicate EventFree(s: State) { !RecvHolds(s.recv) && !CallbackHolds(s.cb) && !OtherHolds(s.other) }

  predicate Exclusive(s: State) {
    && !(RecvHolds(s.recv) && (CallbackHolds(s.cb) || OtherHolds(s.other)))
    && !(CallbackHolds(s.cb) && OtherHolds(s.other))
  }

  /** Switching off notifies a client's event only if it takes a valid handle, a server connection's in any case. */
  predicate Enabled(s: State, a: Action) {
    match a
    case RecvStep =>
      !s.recv.RRead? && !s.recv.RWaiting? && !s.recv.RLeave? && (s.recv.REnter? || s.recv.RWoken? ==> EventFree(s))
    case Reads(_) => s.recv.RRead?
    case RecvWakesItself => s.recv.RWaiting?
    case DataArrives => s.valid
    case DeliverData => s.cb.KIdle? && s.due > 0
    case DeliverDisc => s.cb.KIdle? && s.valid
    case CallbackStep => !s.cb.KIdle? && (s.cb == KNotify(Enter) ==> EventFree(s))
    case OffStarts => s.other.OIdle? && (s.valid || !s.client)
    case CloseStarts => s.other.OIdle?
    case OtherStep => !s.other.OIdle? && (s.other == ONotify(Enter) ==> EventFree(s))
  }

  function Notify(s: State): State { if s.recv.RWaiting? then s.(recv := RWoken) else s }

  function RecvNext(s: State): State {
    match s.recv
    case RTest => s.(recv := if s.valid then RRead else RLeave(false))
    case REnter => s.(recv := RGuarded)
    case RGuarded => s.(recv := RWaiting, early := s.data || !s.valid)
    case RWoken => s.(recv := RBack)
    case _ => s.(recv := RTest)
  }

  function CallbackNext(s: State): State {
    match s.cb
    case KInvalidate => s.(cb := KNotify(Enter), valid := false)
    case KNotify(Enter) => s.(cb := KNotify(Guarded))
    case KNotify(Guarded) => Notify(s).(cb := KNotify(Out))
    case _ => s.(cb := KIdle)
  }

  function OtherNext(s: State): State {
    match s.other
    case ONotify(Enter) => s.(other := ONotify(Guarded))
    case ONotify(Guarded) => Notify(s).(other := ONotify(Out))
    case _ => s.(other := OIdle)
  }

  function Next(s: State, a: Action): State {
    match a
    case RecvStep => RecvNext(s)
    case Reads(more) => if s.valid && s.data then s.(recv := RLeave(true), data := more) else s.(recv := REnter)
    case RecvWakesItself => s.(recv := RWoken)
    case DataArrives => s.(data := true, due := s.due + 1)
    case DeliverData => s.(due := if s.due > 0 then s.due - 1 else 0, cb := if s.valid then KNotify(Enter) else KIdle)
    case DeliverDisc => s.(cb := KInvalidate)
    case CallbackStep => CallbackNext(s)
    case OffStarts => s.(valid := false, other := ONotify(Enter))
    case CloseStarts => s.(other := ONotify(Enter))
    case OtherStep => OtherNext(s)
  }

  ghost predicate Runs(s: State, acts: seq<Action>, s': State)
    decreases |acts|
  {
    if acts == [] then s' == s else Enabled(s, acts[0]) && Runs(Next(s, acts[0]), acts[1..], s')
  }

  /** receive begins on a connection with a link and no data yet. */
  function Start(client: bool): State { State(client, RTest, KIdle, OIdle, true, false, 0, false) }

  // ---------------------------------------------------------------- a wait that misses its reason

  /** Somebody is on the way to notify. */
  predicate Pending(s: State) {
    s.cb.KInvalidate? || s.cb == KNotify(Enter) || s.cb == KNotify(Guarded) ||
    s.other == ONotify(Enter) || s.other == ONotify(Guarded)
  }

  /** Or a DATA event is due that will find the connection. */
  predicate Coming(s: State) { Pending(s) || (s.valid && s.due > 0) }

  /** A receiver waits although there is data or no handle only if somebody comes, or if it was so when it began. */
  predicate OnlyEarly(s: State) {
    Exclusive(s) && (s.recv.RWaiting? && (s.data || !s.valid) ==> s.early || Coming(s))
  }

  lemma StepOnlyEarly(s: State, a: Action)
    requires OnlyEarly(s) && Enabled(s, a)
    ensures OnlyEarly(Next(s, a))
  {
  }

  lemma {:induction false} RunsOnlyEarly(s: State, acts: seq<Action>)
    requires OnlyEarly(s)
    ensures forall s' :: Runs(s, acts, s') ==> OnlyEarly(s')
    decreases |acts|
  {
    if acts != [] && Enabled(s, acts[0]) {
      StepOnlyEarly(s, acts[0]);
      RunsOnlyEarly(Next(s, acts[0]), acts[1..]);
    }
  }

  /** In every run, a receiver that waits although there is data for it, or the handle is gone, with nobody coming to
      notify it, began its wait so: the event came between its read or test and its guard. */
  lemma MissedReasonCameEarly(client: bool, acts: seq<Action>, s: State)
    requires Runs(Start(client), acts, s) && s.recv.RWaiting? && (s.data || !s.valid) && !Coming(s)
    ensures s.early
  {
    RunsOnlyEarly(Start(client), acts);
  }

  // ---------------------------------------------------------------- who can still wake it

  /** What comes from outside: more data, the end of the link, shutdown. */
  predicate Outside(a: Action) { a.DataArrives? || a.DeliverDisc? || a.OffStarts? }

  /** Nobody disconnects, and if quiet nothing comes from outside. */
  predicate Unaided(acts: seq<Action>, quiet: bool) {
    forall a: Action :: a in acts ==> !a.CloseStarts? && !a.RecvWakesItself? && (quiet ==> !Outside(a))
  }

  ghost predicate Asleep(s: State, quiet: bool) {
    forall acts, s' :: Runs(s, acts, s') && Unaided(acts, quiet) ==> s'.recv.RWaiting?
  }

  /** Left to itself nobody comes; or nobody ever does, as a client's connection without a handle gets no event. */
  predicate NobodyComes(s: State, quiet: bool) {
    if quiet then !Coming(s) else !Pending(s) && !s.valid && s.client
  }

  lemma StaysAlone(s: State, a: Action, quiet: bool)
    requires s.recv.RWaiting? && NobodyComes(s, quiet) && Enabled(s, a) && Unaided([a], quiet)
    ensures Next(s, a).recv.RWaiting? && NobodyComes(Next(s, a), quiet)
  {
    assert a in [a];
  }

  lemma {:induction false} AloneForGood(s: State, acts: seq<Action>, quiet: bool)
    requires s.recv.RWaiting? && NobodyComes(s, quiet) && Unaided(acts, quiet)
    ensures forall s' :: Runs(s, acts, s') ==> s'.recv.RWaiting?
    decreases |acts|
  {
    if acts != [] && Enabled(s, acts[0]) {
      StaysAlone(s, acts[0], quiet);
      AloneForGood(Next(s, acts[0]), acts[1..], quiet);
    }
  }

  /** The step that brings a notification nearer: whoever holds the event, whoever waits for it, an event that is due,
      or else something from outside. */
  function WakeNext(s: State): Action {
    if CallbackHolds(s.cb) then CallbackStep
    else if OtherHolds(s.other) then OtherStep
    else if !s.cb.KIdle? then CallbackStep
    else if !s.other.OIdle? then OtherStep
    else if s.due > 0 && s.valid then DeliverData
    else if s.valid then DataArrives
    else OffStarts
  }

  function WakeRank(s: State): nat {
    (match s.cb
     case KIdle => if s.due > 0 then 4 else 5
     case KInvalidate => 4
     case KNotify(p) => if p.Enter? then 3 else if p.Guarded? then 2 else 6) +
    (match s.other case OIdle => 4 case ONotify(p) => if p.Enter? then 3 else if p.Guarded? then 2 else 5)
  }

  predicate CanWake(s: State, quiet: bool) { Exclusive(s) && s.recv.RWaiting? && !NobodyComes(s, quiet) }

  /** That step can be taken, and it notifies the receiver or brings the notification nearer. */
  predicate Nears(s: State, a: Action, quiet: bool) {
    && Enabled(s, a) && Unaided([a], quiet)
    && (Next(s, a).recv.RWaiting? ==> CanWake(Next(s, a), quiet) && WakeRank(Next(s, a)) < WakeRank(s))
  }

  lemma WakeNearsByCallback(s: State)
    requires WakeNext(s) == CallbackStep
    ensures forall quiet | CanWake(s, quiet) :: Nears(s, CallbackStep, quiet)
  {
  }

  lemma WakeNears(s: State)
    ensures forall quiet | CanWake(s, quiet) :: Nears(s, WakeNext(s), quiet)
  {
    if WakeNext(s) == CallbackStep { WakeNearsByCallback(s); }
  }

  lemma {:induction false} CanBeWoken(s: State, quiet: bool)
    requires CanWake(s, quiet)
    ensures !Asleep(s, quiet)
    decreases WakeRank(s)
  {
    WakeNears(s);
    assert Nears(s, WakeNext(s), quiet);
    var a, s1 := WakeNext(s), Next(s, WakeNext(s));
    var acts, s' := [], s1;
    if s1.recv.RWaiting? {
      CanBeWoken(s1, quiet);
      acts, s' :| Runs(s1, acts, s') && Unaided(acts, quiet) && !s'.recv.RWaiting?;
    }
    assert ([a] + acts)[1..] == acts && a in [a];
    assert Runs(s, [a] + acts, s') && Unaided([a] + acts, quiet);
  }

  /** In every reachable state with a waiting receiver: if nobody disconnects, nobody can wake it exactly if it is a
      client's, its handle is gone and nobody is on the way to notify; and if nothing comes from outside either, exactly
      if nobody is on the way and no DATA event is due that finds the connection. */
  lemma ReceiverAsleepExactly(client: bool, acts: seq<Action>, s: State, quiet: bool)
    requires Runs(Start(client), acts, s) && s.recv.RWaiting?
    ensures Asleep(s, quiet) <==>
            if quiet then !Pending(s) && !(s.valid && s.due > 0) else !Pending(s) && !s.valid && s.client
  {
    RunsOnlyEarly(Start(client), acts);
    if CanWake(s, quiet) {
      CanBeWoken(s, quiet);
    } else {
      forall acts, s' | Runs(s, acts, s') && Unaided(acts, quiet) ensures s'.recv.RWaiting? {
        AloneForGood(s, acts, quiet);
      }
    }
  }

  // ---------------------------------------------------------------- how it ends

  predicate Ending(r: Receiver) { r.RWoken? || r.RBack? || r.RTest? || r == RLeave(false) }

  /** Once it is woken or tests without a handle, it neither reads nor waits again, and leaves without data. */
  lemma {:induction false} InvalidEnds(s: State, acts: seq<Action>)
    requires !s.valid && Ending(s.recv)
    ensures forall s' :: Runs(s, acts, s') ==> Ending(s'.recv)
    decreases |acts|
  {
    if acts != [] && Enabled(s, acts[0]) { InvalidEnds(Next(s, acts[0]), acts[1..]); }
  }

  /** Own steps of a woken receiver until it has its data. */
  function StepsToData(r: Receiver): nat {
    match r case RWoken => 4 case RBack => 3 case RTest => 2 case RRead => 1 case _ => 0
  }

  predicate Receives(r: Receiver) { StepsToData(r) > 0 || r == RLeave(true) }

  function OwnSteps(acts: seq<Action>): nat {
    if acts == [] then 0 else OwnSteps(acts[1..]) + if acts[0].RecvStep? || acts[0].Reads? then 1 else 0
  }

  /** The handle stays valid all along. */
  ghost predicate StaysValid(s: State, acts: seq<Action>)
    decreases |acts|
  {
    s.valid && (acts != [] && Enabled(s, acts[0]) ==> StaysValid(Next(s, acts[0]), acts[1..]))
  }

  predicate Nearer(s: State, acts: seq<Action>, s': State) {
    Receives(s'.recv) && StepsToData(s'.recv) + OwnSteps(acts) == StepsToData(s.recv)
  }

  lemma StepNearsData(s: State, a: Action)
    requires Receives(s.recv) && (s.data || s.recv.RLeave?) && s.valid && Enabled(s, a)
    ensures Nearer(s, [a], Next(s, a)) && (Next(s, a).data || Next(s, a).recv.RLeave?)
  {
  }

  /** A woken receiver for whom there is data, and whose handle stays valid, gets it: it does not wait again, and after
      four steps of its own at most it leaves with the data. */
  lemma {:induction false} WokenReceives(s: State, acts: seq<Action>)
    requires Receives(s.recv) && (s.data || s.recv.RLeave?) && StaysValid(s, acts)
    ensures forall s' :: Runs(s, acts, s') ==> Nearer(s, acts, s')
    decreases |acts|
  {
    if acts != [] && Enabled(s, acts[0]) {
      StepNearsData(s, acts[0]);
      assert [acts[0]][1..] == [];
      WokenReceives(Next(s, acts[0]), acts[1..]);
    }
  }

  /** In every run it leaves without data only once the handle is gone. */
  lemma {:induction false} LeavesEmptyOnlyInvalid(s: State, acts: seq<Action>)
    requires s.recv == RLeave(false) ==> !s.valid
    ensures forall s' :: Runs(s, acts, s') && s'.recv == RLeave(false) ==> !s'.valid
    decreases |acts|
  {
    if acts != [] && Enabled(s, acts[0]) { LeavesEmptyOnlyInvalid(Next(s, acts[0]), acts[1..]); }
  }

  // ---------------------------------------------------------------- a run

  ghost predicate Leads(s: State, s': State) { exists acts :: Runs(s, acts, s') }

  lemma Sooner(s: State, a: Action, s': State)
    requires Enabled(s, a) && Leads(Next(s, a), s')
    ensures Leads(s, s')
  {
    var acts :| Runs(Next(s, a), acts, s');
    assert ([a] + acts)[1..] == acts;
    assert Runs(s, [a] + acts, s');
  }

  /** The receiver is before its guard, having found no data, and the end of its link is being handled. */
  function NoData(cb: Callback, valid: bool): State { State(true, REnter, cb, OIdle, valid, false, 0, false) }

  lemma NotifiedTooSoon(s: State)
    requires Leads(NoData(KIdle, false), s)
    ensures Leads(NoData(KIdle, true), s)
  {
    Sooner(NoData(KNotify(Out), false), CallbackStep, s);
    Sooner(NoData(KNotify(Guarded), false), CallbackStep, s);
    Sooner(NoData(KNotify(Enter), false), CallbackStep, s);
    Sooner(NoData(KInvalidate, true), CallbackStep, s);
    Sooner(NoData(KIdle, true), DeliverDisc, s);
  }

  /** The run in which receive misses the end of its link: the handle is gone after its test, the notification comes
      before its guard, and it sleeps, unless somebody disconnects. */
  lemma EndOfLinkMissed()
    ensures exists acts, s :: Runs(Start(true), acts, s) && !s.valid && s.recv.RWaiting? && Asleep(s, false)
  {
    var s := State(true, RWaiting, KIdle, OIdle, false, false, 0, true);
    assert Runs(s, [], s);
    Sooner(NoData(KIdle, false).(recv := RGuarded), RecvStep, s);
    Sooner(NoData(KIdle, false), RecvStep, s);
    NotifiedTooSoon(s);
    Sooner(Start(true).(recv := RRead), Reads(false), s);
    Sooner(Start(true), RecvStep, s);
    var acts :| Runs(Start(true), acts, s);
    ReceiverAsleepExactly(true, acts, s, false);
  }
}
