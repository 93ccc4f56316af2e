/** When a wait of ConnectionProtocol is final: no continuation of the run, however the threads and the stack go on,
    notifies the waiter again.  For both events this is decided exactly by the state, and runs that get there
    are given.  A wait may still end by itself; what is decided is whether anybody else can end it. */
module WakeUps {
  import opened Common
  import opened ConnectionProtocol

  lemma {:induction false} RunsThen(s: State, a: Action, acts: seq<Action>, s': State)
    requires Enabled(s, a) && Runs(Next(s, a), acts, s')
    ensures Runs(s, [a] + acts, s')
  {
    assert ([a] + acts)[1..] == acts;
  }

  // ---------------------------------------------------------------- the sender's wait

  /** Somebody is on the way to notify mCongEvent. */
  predicate CongPending(s: State) {
    || InvalidatorPending(s)
    || s.cb.BEnterCong? || s.cb.BNotifyCong? || s.cb.DEnter? || s.cb.DInvalidate?
    || s.closer.CEnterCong? || s.closer.CNotifyCong?
  }

  /** Whatever comes, nobody wakes the sender. */
  ghost predicate SenderAsleep(s: State) {
    forall acts, s' :: Runs(s, acts, s') && SenderWakesItself !in acts ==> s'.sender.SWaiting?
  }

  /** The connection is out of the table and nobody is about to notify. */
  predicate Abandoned(s: State) {
    s.sender.SWaiting? && !s.inTable && !CongPending(s)
  }

  lemma AbandonedByCallback()
    ensures forall s: State | Abandoned(s) && Enabled(s, CallbackStep) :: Abandoned(CallbackNext(s))
  {
  }

  lemma AbandonedByCloser()
    ensures forall s: State | Abandoned(s) && Enabled(s, CloserStep) :: Abandoned(CloserNext(s))
  {
  }

  lemma AbandonedStays(s: State, a: Action)
    requires Abandoned(s) && Enabled(s, a) && a != SenderWakesItself
    ensures Abandoned(Next(s, a))
  {
    match a
    case CallbackStep => AbandonedByCallback();
    case CloserStep => AbandonedByCloser();
    case _ =>
  }

  lemma {:induction false} AbandonedForGood(s: State, acts: seq<Action>)
    requires Abandoned(s) && SenderWakesItself !in acts
    ensures forall s' :: Runs(s, acts, s') ==> Abandoned(s')
    decreases |acts|
  {
    if acts != [] && Enabled(s, acts[0]) {
      AbandonedStays(s, acts[0]);
      AbandonedForGood(Next(s, acts[0]), acts[1..]);
    }
  }

  lemma AbandonedSleeps()
    ensures forall s | Abandoned(s) :: SenderAsleep(s)
  {
    forall s, acts, s' | Abandoned(s) && Runs(s, acts, s') && SenderWakesItself !in acts ensures s'.sender.SWaiting? {
      AbandonedForGood(s, acts);
    }
  }

  /** A step that takes a live connection out of the table, with nobody about to notify, abandons the sender. */
  lemma RemovalAbandons(s: State, a: Action)
    requires Enabled(s, a) && RemovesLive(s, a) && s.sender.SWaiting? && !CongPending(s)
    ensures Abandoned(Next(s, a)) && SenderAsleep(Next(s, a))
  {
    AbandonedSleeps();
  }

  /** Somebody can be made to notify: it is on the way, or shutdown would find a handle to invalidate. */
  predicate CanNotify(s: State) { CongPending(s) || (s.inTable && s.handle.Some?) }

  /** The step that brings the notification nearer: first whoever holds mCongEvent, then whoever waits for it, then the
      shutdown to its end, then the callback and the closer that is in its way, else a shutdown. */
  function NotifyNext(s: State): Action {
    if CloserHoldsCong(s.closer) then CloserStep
    else if CallbackHoldsCong(s.cb) then CallbackStep
    else if !s.off.OIdle? then OffStep
    else if s.closer.CEnterCong? then CloserStep
    else if s.cb.DEnter? && CloserHoldsDM(s.closer) then CloserStep
    else if s.cb.DEnterDisc? && CloserHoldsDisc(s.closer) then
      (if s.closer.CCall? then CloserCalls(Refused) else CloserStep)
    else if CongPending(s) then CallbackStep
    else OffStarts
  }

  function CallbackRank(b: Callback): nat {
    match b
    case BIdle => 0
    case BEnterCong => 3
    case BNotifyCong => 2
    case BLeaveCong => 1
    case BBind(_) => 1
    case DEnter(_) => 10
    case DInvalidate(_) => 9
    case DEnterDisc(_) => 8
    case DNotifyDisc(_) => 7
    case DLeaveDisc(_) => 6
    case DEnterCong(_) => 5
    case DNotifyCong(_) => 4
    case DLeaveCong(_) => 3
    case DNotifyRead(_) => 2
    case DLeave(_) => 1
  }

  function CloserRank(c: Closer): nat {
    match c
    case CEnterCong => 3
    case CNotifyCong => 2
    case CLeaveCong => 1
    case CGuarded => 4
    case CCall(_) => 3
    case CToWait(_) => 1
    case CLeaveDisc => 1
    case CRemove => 2
    case CLeaveRemove => 1
    case _ => 0
  }

  /** A shutdown that still finds a handle counts from its start; any other counts to its end. */
  predicate WillNotify(s: State) { s.inTable && s.handle.Some? }

  function OffRank(s: State): nat {
    match s.off
    case OLook => if WillNotify(s) then 3 else 7
    case OEnterCong => 2
    case ONotifyCong => 1
    case OLeaveCong => 6
    case OLeave => 5
    case OIdle => 4
  }

  function NotifyRank(s: State): nat { CloserRank(s.closer) + CallbackRank(s.cb) + OffRank(s) }

  /** The step can be taken, and it notifies the sender or brings the notification nearer. */
  ghost predicate NotifiesSooner(s: State, a: Action) {
    && Enabled(s, a) && a != SenderWakesItself
    && (Next(s, a).sender.SWaiting? ==> CanNotify(Next(s, a)) && NotifyRank(Next(s, a)) < NotifyRank(s))
  }

  ghost predicate ToNotify(s: State) { Exclusive(s) && s.sender.SWaiting? && CanNotify(s) }

  lemma NotifyNearsByCloser()
    ensures forall s | ToNotify(s) && NotifyNext(s) == CloserStep :: NotifiesSooner(s, CloserStep)
  {
  }

  lemma NotifyNearsByCallback()
    ensures forall s | ToNotify(s) && NotifyNext(s) == CallbackStep :: NotifiesSooner(s, CallbackStep)
  {
  }

  lemma NotifyNearsByShutdown()
    ensures forall s | ToNotify(s) && NotifyNext(s) == OffStep :: NotifiesSooner(s, OffStep)
  {
  }

  lemma NotifyNears(s: State)
    requires ToNotify(s)
    ensures NotifiesSooner(s, NotifyNext(s)) && Exclusive(Next(s, NotifyNext(s)))
  {
    var a := NotifyNext(s);
    if a.CloserStep? {
      NotifyNearsByCloser();
    } else if a.CallbackStep? {
      NotifyNearsByCallback();
    } else if a.OffStep? {
      NotifyNearsByShutdown();
    }
    StepKeepsExclusive(s, a);
  }

  /** A continuation in which somebody else wakes the sender. */
  ghost predicate SenderWakeable(s: State) {
    exists acts, s' :: Runs(s, acts, s') && SenderWakesItself !in acts && !s'.sender.SWaiting?
  }

  lemma {:induction false} SenderCanBeWoken(s: State)
    requires Exclusive(s) && s.sender.SWaiting? && CanNotify(s)
    ensures SenderWakeable(s)
    decreases NotifyRank(s)
  {
    NotifyNears(s);
    var a := NotifyNext(s);
    var acts, s' := [], Next(s, a);
    if s'.sender.SWaiting? {
      SenderCanBeWoken(s');
      acts, s' :| Runs(Next(s, a), acts, s') && SenderWakesItself !in acts && !s'.sender.SWaiting?;
    }
    RunsThen(s, a, acts, s');
    assert SenderWakesItself !in [a] + acts;
  }

  /** In every reachable state in which the sender waits, nobody can wake it any more exactly if the connection is out
      of the table and nobody is on the way to notify. */
  lemma SenderAsleepExactly(acts: seq<Action>, s: State)
    requires Runs(Start, acts, s) && s.sender.SWaiting?
    ensures SenderAsleep(s) <==> !s.inTable && !CongPending(s)
  {
    RunKeepsSafeInTable(Start, acts);
    if CanNotify(s) {
      SenderCanBeWoken(s);
    } else {
      AbandonedSleeps();
    }
  }

  // ---------------------------------------------------------------- the closer's wait

  /** A DISC handler has found the connection and has not yet notified mDisconnectingEvent. */
  predicate DiscPending(s: State) { s.cb.DEnter? || s.cb.DInvalidate? || s.cb.DEnterDisc? || s.cb.DNotifyDisc? }

  /** A DISC event would find the connection: it has a handle that no shutdown is about to take, or gets one. */
  predicate Findable(s: State) { s.inTable && ((s.handle.Some? && !s.off.OLook?) || s.cb.BBind?) }

  predicate NoNewLink(acts: seq<Action>) { forall a: Action :: a in acts ==> !a.NewLink? }

  /** Whatever comes, apart from a new link to this block if links is false, nobody wakes the closer. */
  ghost predicate CloserAsleep(s: State, links: bool) {
    forall acts, s' ::
      Runs(s, acts, s') && CloserWakesItself !in acts && (links || NoNewLink(acts)) ==> s'.closer.CWaiting?
  }

  predicate Forsaken(s: State, links: bool) {
    s.closer.CWaiting? && !DiscPending(s) && (if links then !s.inTable else !Findable(s))
  }

  lemma ForsakenByCallback()
    ensures forall s: State, links: bool | Forsaken(s, links) && Enabled(s, CallbackStep) ::
              Forsaken(CallbackNext(s), links)
  {
  }

  lemma ForsakenStays(s: State, a: Action, links: bool)
    requires Forsaken(s, links) && Enabled(s, a) && a != CloserWakesItself && (links || !a.NewLink?)
    ensures Forsaken(Next(s, a), links)
  {
    match a
    case CallbackStep => ForsakenByCallback();
    case _ =>
  }

  lemma {:induction false} ForsakenForGood(s: State, acts: seq<Action>, links: bool)
    requires Forsaken(s, links) && CloserWakesItself !in acts && (links || NoNewLink(acts))
    ensures forall s' :: Runs(s, acts, s') ==> Forsaken(s', links)
    decreases |acts|
  {
    if acts != [] && Enabled(s, acts[0]) {
      ForsakenStays(s, acts[0], links);
      ForsakenForGood(Next(s, acts[0]), acts[1..], links);
    }
  }

  /** What keeps the callback and the shutdown from going on: a sender inside its guard. */
  function SenderGoes(s: Sender): Action { if s.SCall? then SenderCalls(Refused) else SenderStep }

  function SenderRank(s: Sender): nat {
    match s
    case SGuarded => 4
    case SCall(_) => 3
    case STest => 2
    case SToWait(_) => 1
    case SLeave(_) => 1
    case _ => 0
  }

  function ShutdownRank(o: Shutdown): nat {
    match o
    case OLook => 5
    case OEnterCong => 4
    case ONotifyCong => 3
    case OLeaveCong => 2
    case OLeave => 1
    case OIdle => 0
  }

  /** The handle the block has or is about to get. */
  function HandleToBe(s: State): Option<nat> { if s.cb.BBind? then Some(s.cb.g) else s.handle }

  ghost predicate DiscQueued(s: State) { HandleToBe(s).Some? && Disc(HandleToBe(s).value) in s.queue }

  /** The step that brings the DISC handler nearer: whoever holds mCongEvent, the shutdown to its end, the callback to
      its end, then the queued events up to the DISC event, or else the link goes down. */
  ghost function DiscNext(s: State): Action {
    if SenderHoldsCong(s.sender) then SenderGoes(s.sender)
    else if CallbackHoldsCong(s.cb) then CallbackStep
    else if !s.off.OIdle? then OffStep
    else if !s.cb.BIdle? then CallbackStep
    else if DiscQueued(s) then Deliver(false)
    else StackLinkDown
  }

  ghost function DiscRank(s: State): nat {
    SenderRank(s.sender) + CallbackRank(s.cb) + ShutdownRank(s.off) + 20 * |s.queue| +
    if DiscPending(s) || DiscQueued(s) then 0 else 40
  }

  ghost predicate Handling(s: State) {
    Exclusive(s) && Linked(s) && s.closer.CWaiting? && (DiscPending(s) || Findable(s))
  }

  /** That step can be taken, and it notifies the closer or brings the notification nearer. */
  ghost predicate Nears(s: State, a: Action) {
    && Enabled(s, a) && a != CloserWakesItself && !a.NewLink?
    && (Next(s, a).closer.CWaiting? ==>
        (DiscPending(Next(s, a)) || Findable(Next(s, a))) && DiscRank(Next(s, a)) < DiscRank(s))
  }

  lemma DiscNearsBySender()
    ensures forall s: State | Handling(s) && SenderHoldsCong(s.sender) :: Nears(s, DiscNext(s))
  {
  }

  lemma DiscNearsByCallback()
    ensures forall s: State | Handling(s) && DiscNext(s) == CallbackStep :: Nears(s, CallbackStep)
  {
  }

  lemma DiscNearsByShutdown()
    ensures forall s: State | Handling(s) && DiscNext(s) == OffStep :: Nears(s, OffStep)
  {
  }

  lemma DiscNearsByStack(s: State)
    requires Handling(s) && (DiscNext(s) == StackLinkDown || DiscNext(s) == Deliver(false))
    ensures Nears(s, DiscNext(s))
  {
    if DiscNext(s) == StackLinkDown {
      QueueGrows(s, Disc(s.link.value));
    } else {
      QueueSplits(s.queue);
    }
  }

  lemma DiscNears(s: State)
    requires Handling(s)
    ensures Nears(s, DiscNext(s)) && Exclusive(Next(s, DiscNext(s))) && Linked(Next(s, DiscNext(s)))
  {
    if SenderHoldsCong(s.sender) {
      DiscNearsBySender();
    } else if DiscNext(s) == CallbackStep {
      DiscNearsByCallback();
    } else if DiscNext(s) == OffStep {
      DiscNearsByShutdown();
    } else {
      DiscNearsByStack(s);
    }
    StepKeepsExclusive(s, DiscNext(s));
    StepKeepsLinked(s, DiscNext(s));
  }

  /** A continuation in which somebody else wakes the closer, without a new link if links is false. */
  ghost predicate CloserWakeable(s: State, links: bool) {
    exists acts, s' ::
      Runs(s, acts, s') && CloserWakesItself !in acts && (links || NoNewLink(acts)) && !s'.closer.CWaiting?
  }

  lemma OneStepSooner(s: State, a: Action, links: bool)
    requires Enabled(s, a) && a != CloserWakesItself && (links || !a.NewLink?)
    requires !Next(s, a).closer.CWaiting? || CloserWakeable(Next(s, a), links)
    ensures CloserWakeable(s, links)
  {
    var acts, s' := [], Next(s, a);
    if s'.closer.CWaiting? {
      acts, s' :| Runs(Next(s, a), acts, s') && CloserWakesItself !in acts && (links || NoNewLink(acts)) &&
        !s'.closer.CWaiting?;
    }
    RunsThen(s, a, acts, s');
    assert CloserWakesItself !in [a] + acts && (links || NoNewLink([a] + acts));
  }

  lemma {:induction false} CloserCanBeWoken(s: State, links: bool)
    requires Handling(s)
    ensures CloserWakeable(s, links)
    decreases DiscRank(s)
  {
    DiscNears(s);
    var a := DiscNext(s);
    if Next(s, a).closer.CWaiting? { CloserCanBeWoken(Next(s, a), links); }
    OneStepSooner(s, a, links);
  }

  /** The block is in the table without a handle to be found by. */
  ghost predicate Unbound(s: State) {
    Exclusive(s) && Linked(s) && s.closer.CWaiting? && s.inTable && !DiscPending(s) && !Findable(s)
  }

  /** The step that brings a new link to it nearer. */
  function LinkNext(s: State): Action {
    if SenderHoldsCong(s.sender) then SenderGoes(s.sender)
    else if CallbackHoldsCong(s.cb) then CallbackStep
    else if !s.off.OIdle? then OffStep
    else if !s.cb.BIdle? then CallbackStep
    else if s.queue != [] then Deliver(false)
    else if s.link.Some? then StackLinkDown
    else NewLink(0)
  }

  function LinkRank(s: State): nat {
    SenderRank(s.sender) + CallbackRank(s.cb) + ShutdownRank(s.off) + 20 * |s.queue| + if s.link.Some? then 40 else 0
  }

  ghost predicate LinkNearer(s: State, a: Action) {
    && Enabled(s, a) && a != CloserWakesItself && Next(s, a).closer.CWaiting? && Next(s, a).inTable
    && (!Findable(Next(s, a)) ==> !DiscPending(Next(s, a)) && LinkRank(Next(s, a)) < LinkRank(s))
  }

  lemma LinkNearsBySender()
    ensures forall s: State | Unbound(s) && SenderHoldsCong(s.sender) :: LinkNearer(s, LinkNext(s))
  {
  }

  lemma LinkNearsByCallback()
    ensures forall s: State | Unbound(s) && LinkNext(s) == CallbackStep :: LinkNearer(s, CallbackStep)
  {
  }

  lemma LinkNears(s: State)
    requires Unbound(s)
    ensures LinkNearer(s, LinkNext(s)) && Exclusive(Next(s, LinkNext(s))) && Linked(Next(s, LinkNext(s)))
  {
    if SenderHoldsCong(s.sender) {
      LinkNearsBySender();
    } else if LinkNext(s) == CallbackStep {
      LinkNearsByCallback();
    }
    StepKeepsExclusive(s, LinkNext(s));
    StepKeepsLinked(s, LinkNext(s));
  }

  /** As long as the block is in the table, a new link to it can wake the closer: its DISC event would. */
  lemma {:induction false} NewLinkCanWake(s: State)
    requires Handling(s) || Unbound(s)
    ensures CloserWakeable(s, true)
    decreases if Handling(s) then 0 else 1 + LinkRank(s)
  {
    if Handling(s) {
      CloserCanBeWoken(s, true);
    } else {
      LinkNears(s);
      NewLinkCanWake(Next(s, LinkNext(s)));
      OneStepSooner(s, LinkNext(s), true);
    }
  }

  /** In every reachable state in which the closer waits, nobody can wake it any more exactly if no DISC handler has
      found the connection and the connection is out of the table; without a new link to this block, exactly if no
      handler has found it and no DISC event would. */
  lemma CloserAsleepExactly(acts: seq<Action>, s: State)
    requires Runs(Start, acts, s) && s.closer.CWaiting?
    ensures CloserAsleep(s, true) <==> !DiscPending(s) && !s.inTable
    ensures CloserAsleep(s, false) <==> !DiscPending(s) && !Findable(s)
  {
    RunKeepsSafeInTable(Start, acts);
    if Handling(s) {
      CloserCanBeWoken(s, false);
      CloserCanBeWoken(s, true);
    } else {
      ForsakenSleeps(s, false);
      if s.inTable {
        NewLinkCanWake(s);
      } else {
        ForsakenSleeps(s, true);
      }
    }
  }

  lemma ForsakenSleeps(s: State, links: bool)
    requires Forsaken(s, links)
    ensures CloserAsleep(s, links)
  {
    forall acts, s' |
      Runs(s, acts, s') && CloserWakesItself !in acts && (links || NoNewLink(acts))
      ensures s'.closer.CWaiting?
    {
      ForsakenForGood(s, acts, links);
    }
  }

  /** What takes a waiting closer's DISC event from it, with no handler at work, forsakes it: shutdown until a new link
      comes to the block, removal from the table for good. */
  lemma LossForsakes(s: State, a: Action)
    requires Enabled(s, a) && LosesCloser(s, a) && s.closer.CWaiting? && !DiscPending(s) && Linked(s)
    ensures CloserAsleep(Next(s, a), a.ServerRemoved?)
  {
    ForsakenSleeps(Next(s, a), a.ServerRemoved?);
  }

  // ---------------------------------------------------------------- where a wake-up is lost

  lemma {:induction false} RunsOneMore(s: State, acts: seq<Action>, t: State, a: Action)
    requires Runs(s, acts, t) && Enabled(t, a)
    ensures Runs(s, acts + [a], Next(t, a))
    decreases |acts|
  {
    if acts == [] {
      assert (acts + [a])[1..] == [];
    } else {
      RunsOneMore(Next(s, acts[0]), acts[1..], t, a);
      assert (acts + [a])[1..] == acts[1..] + [a];
    }
  }

  /** No shutdown, and the server of the connection stays. */
  ghost predicate Undisturbed(a: Action) {
    !a.OffStarts? && !a.OffStep? && !a.ServerRemoved?
  }

  /** Some run ends in s; a quiet one has neither shutdown nor removal of the server. */
  ghost predicate Reaches(s: State, quiet: bool) {
    exists acts :: Runs(Start, acts, s) && (quiet ==> forall a :: a in acts ==> Undisturbed(a))
  }

  /** Taking the step a leads from s to s'. */
  lemma Take(s: State, quiet: bool, a: Action, s': State)
    requires Reaches(s, quiet) && Enabled(s, a) && (quiet ==> Undisturbed(a)) && s' == Next(s, a)
    ensures Reaches(s', quiet)
  {
    var acts :| Runs(Start, acts, s) && (quiet ==> forall x :: x in acts ==> Undisturbed(x));
    RunsOneMore(Start, acts, s, a);
    assert Runs(Start, acts + [a], s');
  }

  /** The sender waits on mCongEvent although its link is up and no longer congested, and nobody can wake it. */
  ghost predicate SenderLost(s: State) {
    s.sender.SWaiting? && s.link == Some(s.sender.g) && !s.congested && SenderAsleep(s)
  }

  /** Link 0 is up; the sender, the closer and the shutdown are where they are said to be. */
  function Up(sender: Sender, closer: Closer, off: Shutdown): State {
    State(Some(0), true, Some(0), false, [], sender, closer, BIdle, off)
  }

  /** Link 0 is up and congested. */
  function Busy(sender: Sender, closer: Closer): State {
    State(Some(0), true, Some(0), true, [Congest(0)], sender, closer, BIdle, OIdle)
  }

  lemma LinkUp(quiet: bool)
    ensures Reaches(Up(SIdle, CIdle, OIdle), quiet)
  {
    assert Runs(Start, [], Start);
    var bound := Start.(cb := BBind(0), link := Some(0));
    Take(Start, quiet, NewLink(0), bound);
    Take(bound, quiet, CallbackStep, Up(SIdle, CIdle, OIdle));
  }

  /** From its guard the sender calls the stack, is told CONGESTED, and waits. */
  lemma SenderBlocks(quiet: bool, c: Closer)
    requires Reaches(Busy(SEnter, c), quiet) && !CloserHoldsCong(c)
    ensures Reaches(Busy(SWaiting(0), c), quiet)
  {
    Take(Busy(SEnter, c), quiet, SenderStep, Busy(SGuarded, c));
    Take(Busy(SGuarded, c), quiet, SenderStep, Busy(SCall(Some(0)), c));
    Take(Busy(SCall(Some(0)), c), quiet, SenderCalls(Congested), Busy(SToWait(0), c));
    Take(Busy(SToWait(0), c), quiet, SenderStep, Busy(SWaiting(0), c));
  }

  lemma SenderWaits(quiet: bool)
    ensures Reaches(Busy(SWaiting(0), CIdle), quiet)
  {
    LinkUp(quiet);
    Take(Up(SIdle, CIdle, OIdle), quiet, StackCongests, Busy(SIdle, CIdle));
    Take(Busy(SIdle, CIdle), quiet, SenderFinds, Busy(SEnter, CIdle));
    SenderBlocks(quiet, CIdle);
  }

  /** The closer's notification wakes the sender. */
  lemma SenderWoken()
    ensures Reaches(Busy(SWoken, CTest), true)
  {
    SenderWaits(true);
    Take(Busy(SWaiting(0), CIdle), true, CloserFinds, Busy(SWaiting(0), CEnterCong));
    Take(Busy(SWaiting(0), CEnterCong), true, CloserStep, Busy(SWaiting(0), CNotifyCong));
    Take(Busy(SWaiting(0), CNotifyCong), true, CloserStep, Busy(SWoken, CLeaveCong));
    Take(Busy(SWoken, CLeaveCong), true, CloserStep, Busy(SWoken, CTest));
  }

  /** The woken sender finds the link still congested and waits again. */
  lemma SenderWaitsAgain()
    ensures Reaches(Busy(SWaiting(0), CTest), true)
  {
    SenderWoken();
    Take(Busy(SWoken, CTest), true, SenderStep, Busy(STest, CTest));
    Take(Busy(STest, CTest), true, SenderStep, Busy(SEnter, CTest));
    SenderBlocks(true, CTest);
  }

  /** The stack refuses the disconnect and the closer goes on to remove the connection. */
  lemma DisconnectRefused()
    ensures Reaches(Busy(SWaiting(0), CEnterRemove), true)
  {
    SenderWaitsAgain();
    Take(Busy(SWaiting(0), CTest), true, CloserStep, Busy(SWaiting(0), CEnterDisc));
    Take(Busy(SWaiting(0), CEnterDisc), true, CloserStep, Busy(SWaiting(0), CGuarded));
    Take(Busy(SWaiting(0), CGuarded), true, CloserStep, Busy(SWaiting(0), CCall(Some(0))));
    Take(Busy(SWaiting(0), CCall(Some(0))), true, CloserCalls(Refused), Busy(SWaiting(0), CLeaveDisc));
    Take(Busy(SWaiting(0), CLeaveDisc), true, CloserStep, Busy(SWaiting(0), CEnterRemove));
  }

  /** Once the connection is out of the table, the end of the congestion reaches nobody. */
  lemma UncongestDropped(quiet: bool)
    requires Reaches(Busy(SWaiting(0), CIdle).(inTable := false), quiet)
    ensures exists stuck :: Reaches(stuck, quiet) && SenderLost(stuck)
  {
    var gone := Busy(SWaiting(0), CIdle).(inTable := false);
    var over := gone.(congested := false, queue := [Congest(0), Uncongest(0)]);
    Take(gone, quiet, StackUncongests, over);
    assert over.queue[1..] == [Uncongest(0)];
    Take(over, quiet, Deliver(false), over.(queue := [Uncongest(0)]));
    var stuck := over.(queue := []);
    Take(over.(queue := [Uncongest(0)]), quiet, Deliver(false), stuck);
    AbandonedSleeps();
  }

  /** A refused disconnect loses the sender's wake-up, with no shutdown and the server in place. */
  lemma RefusedDisconnectLosesSender()
    ensures exists stuck :: Reaches(stuck, true) && SenderLost(stuck)
  {
    DisconnectRefused();
    var gone := Busy(SWaiting(0), CIdle).(inTable := false);
    Take(Busy(SWaiting(0), CEnterRemove), true, CloserStep, Busy(SWaiting(0), CRemove));
    Take(Busy(SWaiting(0), CRemove), true, CloserStep, gone.(closer := CLeaveRemove));
    Take(gone.(closer := CLeaveRemove), true, CloserStep, gone);
    UncongestDropped(true);
  }

  /** So does removing the server of the connection while a sender waits. */
  lemma ServerRemovalLosesSender()
    ensures exists stuck :: Reaches(stuck, false) && SenderLost(stuck)
  {
    SenderWaits(false);
    Take(Busy(SWaiting(0), CIdle), false, ServerRemoved, Busy(SWaiting(0), CIdle).(inTable := false));
    UncongestDropped(false);
  }

  /** A closer finds the connection up and has nobody to unblock. */
  lemma CloserTests()
    ensures Reaches(Up(SIdle, CTest, OIdle), false)
  {
    LinkUp(false);
    Take(Up(SIdle, CIdle, OIdle), false, CloserFinds, Up(SIdle, CEnterCong, OIdle));
    Take(Up(SIdle, CEnterCong, OIdle), false, CloserStep, Up(SIdle, CNotifyCong, OIdle));
    Take(Up(SIdle, CNotifyCong, OIdle), false, CloserStep, Up(SIdle, CLeaveCong, OIdle));
    Take(Up(SIdle, CLeaveCong, OIdle), false, CloserStep, Up(SIdle, CTest, OIdle));
  }

  /** It is about to disconnect link 0. */
  lemma CloserDisconnects()
    ensures Reaches(Up(SIdle, CCall(Some(0)), OIdle), false)
  {
    CloserTests();
    Take(Up(SIdle, CTest, OIdle), false, CloserStep, Up(SIdle, CEnterDisc, OIdle));
    Take(Up(SIdle, CEnterDisc, OIdle), false, CloserStep, Up(SIdle, CGuarded, OIdle));
    Take(Up(SIdle, CGuarded, OIdle), false, CloserStep, Up(SIdle, CCall(Some(0)), OIdle));
  }

  /** The stack has accepted the disconnect and queued the DISC event, and the closer waits. */
  lemma CloserWaits()
    ensures Reaches(ClosingUp(OIdle).(handle := Some(0)), false)
  {
    CloserDisconnects();
    var told := State(Some(0), true, None, false, [Disc(0)], SIdle, CToWait(0), BIdle, OIdle);
    Take(Up(SIdle, CCall(Some(0)), OIdle), false, CloserCalls(Accepted), told);
    Take(told, false, CloserStep, told.(closer := CWaiting(0)));
  }

  /** The handle is invalid already, the DISC event is queued, and the closer waits for it. */
  function ClosingUp(off: Shutdown): State {
    State(None, true, None, false, [Disc(0)], SIdle, CWaiting(0), BIdle, off)
  }

  lemma ShutdownInvalidates()
    ensures Reaches(ClosingUp(ONotifyCong), false)
  {
    CloserWaits();
    var w := ClosingUp(OIdle).(handle := Some(0));
    Take(w, false, OffStarts, w.(off := OLook));
    Take(w.(off := OLook), false, OffStep, ClosingUp(OEnterCong));
    Take(ClosingUp(OEnterCong), false, OffStep, ClosingUp(ONotifyCong));
  }

  lemma ShutdownLeaves()
    ensures Reaches(ClosingUp(OIdle), false)
  {
    ShutdownInvalidates();
    Take(ClosingUp(ONotifyCong), false, OffStep, ClosingUp(OLeaveCong));
    Take(ClosingUp(OLeaveCong), false, OffStep, ClosingUp(OLeave));
    Take(ClosingUp(OLeave), false, OffStep, ClosingUp(OIdle));
  }

  /** Shutdown invalidates the handle without notifying mDisconnectingEvent, so the DISC event finds no connection, and
      the closer sleeps unless a new link comes to the block. */
  lemma ShutdownLosesCloser()
    ensures exists stuck ::
      Reaches(stuck, false) && stuck.closer.CWaiting? && stuck.queue == [] && CloserAsleep(stuck, false)
  {
    ShutdownLeaves();
    var stuck := ClosingUp(OIdle).(queue := []);
    Take(ClosingUp(OIdle), false, Deliver(false), stuck);
    ForsakenSleeps(stuck, false);
  }

  /** If the server is removed while the closer waits, the DISC event finds no connection, and the closer sleeps for
      good. */
  lemma ServerRemovalLosesCloser()
    ensures exists stuck ::
      Reaches(stuck, false) && stuck.closer.CWaiting? && stuck.queue == [] && CloserAsleep(stuck, true)
  {
    CloserWaits();
    var w := ClosingUp(OIdle).(handle := Some(0));
    Take(w, false, ServerRemoved, w.(inTable := false));
    var stuck := w.(inTable := false, queue := []);
    Take(w.(inTable := false), false, Deliver(false), stuck);
    ForsakenSleeps(stuck, true);
  }
}
