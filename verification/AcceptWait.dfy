/** accept against the events that should wake it.  It allocates its block first and takes mConnRequestEvent later, and
    it waits without looking at the block again.  One accept at a time on a server; the callback thread with CONN_REQ
    events; another thread that deregisters the server; links that go down, of this block or of other blocks of the
    server, by a DISC event or as NFC goes off; and other blocks that are removed. */
module AcceptWait {

  /** accept once its block is allocated: before its guard, inside it, waiting, woken, back in the guard, done. */
  datatype Accept = AEnter | AGuarded | AWaiting | AWoken | ALeave | ADone

  /** A CONN_REQ event that found the server's first idle block, ours or another: before the guard; inside it, about to
      bind the block and notify; leaving. */
  datatype Callback = KIdle | KEnter(ours: bool) | KGuarded(ours: bool) | KLeave

  /** deregisterServer: before the guard, inside it, leaving it, removing the server, and done. */
  datatype Deregister = DIdle | DEnter | DGuarded | DLeave | DRemove | DDone

  /** bound: our block has a link.  others: some other block of the server has none.  early: our block had a link when
      the wait began. */
  datatype State = State(accept: Accept, cb: Callback, dereg: Deregister, bound: bool, others: bool, early: bool)

  /** The server is in the table. */
  predicate Served(s: State) { !s.dereg.DDone? }

  datatype Action =
    | AcceptStep | AcceptWakesItself | ConnReq(ours: bool) | CallbackStep(others: bool)
    | DeregStarts | DeregStep | LinkDown | OtherLinkDown | OtherRemoved

  predicate AcceptHolds(a: Accept) { a.AGuarded? || a.ALeave? }
  predicate CallbackHolds(k: Callback) { k.KGuarded? || k.KLeave? }
  predicate DeregHolds(d: Deregister) { d.DGuarded? || d.DLeave? }
  predicate EventFree(s: State) { !AcceptHolds(s.accept) && !CallbackHolds(s.cb) && !DeregHolds(s.dereg) }

  predicate Exclusive(s: State) {
    && !(AcceptHolds(s.accept) && (CallbackHolds(s.cb) || DeregHolds(s.dereg)))
    && !(CallbackHolds(s.cb) && DeregHolds(s.dereg))
  }

  predicate Enabled(s: State, a: Action) {
    match a
    case AcceptStep =>
      !s.accept.AWaiting? && !s.accept.ADone? && (s.accept.AEnter? || s.accept.AWoken? ==> EventFree(s))
    case AcceptWakesItself => s.accept.AWaiting?
    case ConnReq(ours) => s.cb.KIdle? && Served(s) && (if ours then !s.bound else s.others)
    case CallbackStep(_) => !s.cb.KIdle? && (s.cb.KEnter? ==> EventFree(s))
    case DeregStarts => s.dereg.DIdle?
    case DeregStep => !s.dereg.DIdle? && !s.dereg.DDone? && (s.dereg.DEnter? ==> EventFree(s))
    case LinkDown => s.bound
    case OtherLinkDown => true
    case OtherRemoved => true
  }

  function Notify(s: State): State { if s.accept.AWaiting? then s.(accept := AWoken) else s }

  function AcceptNext(s: State): State {
    match s.accept
    case AEnter => s.(accept := AGuarded)
    case AGuarded => s.(accept := AWaiting, early := s.bound)
    case AWoken => s.(accept := ALeave)
    case _ => s.(accept := ADone)
  }

  /** Whether other blocks are still idle after one of them was bound is left open. */
  function CallbackNext(s: State, others: bool): State {
    match s.cb
    case KEnter(ours) => s.(cb := KGuarded(ours))
    case KGuarded(ours) =>
      var bound := if ours then s.(bound := true) else s.(others := s.others && others);
      Notify(bound).(cb := KLeave)
    case _ => s.(cb := KIdle)
  }

  function DeregNext(s: State): State {
    match s.dereg
    case DEnter => s.(dereg := DGuarded)
    case DGuarded => Notify(s).(dereg := DLeave)
    case DLeave => s.(dereg := DRemove)
    case _ => s.(dereg := DDone)
  }

  function Next(s: State, a: Action): State {
    match a
    case AcceptStep => AcceptNext(s)
    case AcceptWakesItself => s.(accept := AWoken)
    case ConnReq(ours) => s.(cb := KEnter(ours))
    case CallbackStep(others) => CallbackNext(s, others)
    case DeregStarts => s.(dereg := DEnter)
    case DeregStep => DeregNext(s)
    case LinkDown => s.(bound := false)
    case OtherLinkDown => s.(others := true)
    case OtherRemoved => s.(others := false)
  }

  ghost predicate Runs(s: State, acts: seq<Action>, s': State)
    decreases |acts|
  {
    if acts == [] then s' == s else Enabled(s, acts[0]) && Runs(Next(s, acts[0]), acts[1..], s')
  }

  /** accept has just allocated its block; other blocks may be idle. */
  function Start(others: bool): State { State(AEnter, KIdle, DIdle, false, others, false) }

  // ---------------------------------------------------------------- a wait that misses its link

  /** A link found on our block by a waiting accept was there before the wait, or its event still has to notify. */
  predicate OnlyEarly(s: State) { Exclusive(s) && (s.accept.AWaiting? && s.bound ==> s.early) }

  lemma StepOnlyEarly(s: State, a: Action)
    requires OnlyEarly(s) && Enabled(s, a)
    ensures OnlyEarly(Next(s, a))
  {
    if a.CallbackStep? { CallbackOnlyEarly(s, a.others); }
  }

  lemma CallbackOnlyEarly(s: State, others: bool)
    requires OnlyEarly(s) && Enabled(s, CallbackStep(others))
    ensures OnlyEarly(CallbackNext(s, others))
  {
  }

  lemma {:induction false} RunsOnlyEarly(s: State, acts: seq<Action>)
    requires OnlyEarly(s)
    ensures forall s' :: Runs(s, acts, s') ==> OnlyEarly(s')
    decreases |acts|
  {
    if acts != [] && Enabled(s, acts[0]) {
      StepOnlyEarly(s, acts[0]);
      RunsOnlyEarly(Next(s, acts[0]), acts[1..]);
    }
  }

  /** In every run, an accept that waits although its block has a link began to wait with the link there: its CONN_REQ
      event was handled between the allocation and the guard. */
  lemma MissedLinkCameEarly(others: bool, acts: seq<Action>, s: State)
    requires Runs(Start(others), acts, s) && s.accept.AWaiting? && s.bound
    ensures s.early
  {
    RunsOnlyEarly(Start(others), acts);
  }

  // ---------------------------------------------------------------- and a wait that ends

  predicate Leaving(a: Accept) { a.AWoken? || a.ALeave? || a.ADone? }

  /** A woken accept does not wait again: whatever wakes it, it goes on to its result. */
  lemma {:induction false} WokenLeaves(s: State, acts: seq<Action>)
    requires Leaving(s.accept)
    ensures forall s' :: Runs(s, acts, s') ==> Leaving(s'.accept)
    decreases |acts|
  {
    if acts != [] && Enabled(s, acts[0]) { WokenLeaves(Next(s, acts[0]), acts[1..]); }
  }

  // ---------------------------------------------------------------- who can still wake it

  /** Somebody is on the way to notify. */
  predicate NotifyPending(s: State) { s.cb.KEnter? || s.cb.KGuarded? || s.dereg.DEnter? || s.dereg.DGuarded? }

  /** The rescues: the server is deregistered, or a link goes down and leaves a block for a new CONN_REQ event. */
  predicate Rescues(a: Action) { a.DeregStarts? || a.LinkDown? || a.OtherLinkDown? }

  predicate NoRescue(acts: seq<Action>) { forall a: Action :: a in acts ==> !Rescues(a) && !a.AcceptWakesItself? }

  /** Whatever comes, apart from a rescue, nobody wakes the accept. */
  ghost predicate AcceptAsleep(s: State) {
    forall acts, s' :: Runs(s, acts, s') && NoRescue(acts) ==> s'.accept.AWaiting?
  }

  /** No CONN_REQ event finds a block, and nobody is about to notify. */
  predicate Deaf(s: State) { s.accept.AWaiting? && !NotifyPending(s) && (Served(s) ==> s.bound && !s.others) }

  lemma {:induction false} DeafForGood(s: State, acts: seq<Action>)
    requires Deaf(s) && NoRescue(acts)
    ensures forall s' :: Runs(s, acts, s') ==> Deaf(s')
    decreases |acts|
  {
    if acts != [] && Enabled(s, acts[0]) {
      assert !Rescues(acts[0]) && !acts[0].AcceptWakesItself?;
      DeafForGood(Next(s, acts[0]), acts[1..]);
    }
  }

  /** The step that brings a notification nearer: whoever holds the event, whoever waits for it, the callback to its
      end, or a new CONN_REQ event. */
  function WakeNext(s: State): Action {
    if DeregHolds(s.dereg) then DeregStep
    else if !s.cb.KIdle? then CallbackStep(true)
    else if s.dereg.DEnter? then DeregStep
    else ConnReq(!s.bound)
  }

  function WakeRank(s: State): nat {
    (match s.cb case KIdle => 3 case KEnter(_) => 2 case KGuarded(_) => 1 case KLeave => 4) +
    (match s.dereg case DEnter => 3 case DGuarded => 2 case DLeave => 1 case _ => 0)
  }

  predicate CanWake(s: State) {
    Exclusive(s) && s.accept.AWaiting? && (NotifyPending(s) || (Served(s) && (!s.bound || s.others)))
  }

  lemma WakeNears(s: State)
    requires CanWake(s)
    ensures var s' := Next(s, WakeNext(s));
            && Enabled(s, WakeNext(s)) && !Rescues(WakeNext(s))
            && (s'.accept.AWaiting? ==> CanWake(s') && WakeRank(s') < WakeRank(s))
  {
  }

  lemma {:induction false} CanBeWoken(s: State)
    requires CanWake(s)
    ensures !AcceptAsleep(s)
    decreases WakeRank(s)
  {
    WakeNears(s);
    var a, s1 := WakeNext(s), Next(s, WakeNext(s));
    var acts, s' := [], s1;
    if s1.accept.AWaiting? {
      CanBeWoken(s1);
      acts, s' :| Runs(s1, acts, s') && NoRescue(acts) && !s'.accept.AWaiting?;
    }
    assert ([a] + acts)[1..] == acts;
    assert Runs(s, [a] + acts, s') && NoRescue([a] + acts);
  }

  /** In every reachable state with a waiting accept, nobody can wake it without a rescue exactly if nobody is about to
      notify, and the server is gone or no CONN_REQ event finds a block of it: ours has a link and no other is idle. */
  lemma AcceptAsleepExactly(others: bool, acts: seq<Action>, s: State)
    requires Runs(Start(others), acts, s) && s.accept.AWaiting?
    ensures AcceptAsleep(s) <==> !NotifyPending(s) && (Served(s) ==> s.bound && !s.others)
  {
    RunsOnlyEarly(Start(others), acts);
    if CanWake(s) {
      CanBeWoken(s);
    } else {
      forall acts, s' | Runs(s, acts, s') && NoRescue(acts) ensures s'.accept.AWaiting? {
        DeafForGood(s, acts);
      }
    }
  }

  /** The run in which accept misses its link: the event comes before the guard, and no other block is idle. */
  lemma EarlyEventMissed()
    ensures exists acts, s :: Runs(Start(false), acts, s) && s.bound && AcceptAsleep(s)
  {
    var s := State(AWaiting, KIdle, DIdle, true, false, true);
    assert Runs(s, [], s);
    Sooner(s.(accept := AGuarded, early := false), AcceptStep, s);
    Sooner(s.(accept := AEnter, early := false), AcceptStep, s);
    Sooner(s.(accept := AEnter, early := false, cb := KLeave), CallbackStep(true), s);
    Sooner(Start(false).(cb := KGuarded(true)), CallbackStep(true), s);
    Sooner(Start(false).(cb := KEnter(true)), CallbackStep(true), s);
    Sooner(Start(false), ConnReq(true), s);
    var acts :| Runs(Start(false), acts, s);
    AcceptAsleepExactly(false, acts, s);
  }

  ghost predicate Leads(s: State, s': State) { exists acts :: Runs(s, acts, s') }

  lemma Sooner(s: State, a: Action, s': State)
    requires Enabled(s, a) && Leads(Next(s, a), s')
    ensures Leads(s, s')
  {
    var acts :| Runs(Next(s, a), acts, s');
    assert ([a] + acts)[1..] == acts;
    assert Runs(s, [a] + acts, s');
  }
}
