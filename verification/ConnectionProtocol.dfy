/** One connection between the threads that use it, step by step: a sender in send, a closer in
    disconnectConnOriented, the stack's callback thread, NFC shutdown, and the stack itself.  Locks are held by
    program position; a condition wait releases its mutex and must take it again.  The stack is assumed to set up a
    new link only after the old one's events were delivered, to answer CONGESTED only for a live congested link, to
    refuse calls without a handle, and to follow an accepted disconnect by a DISC event unless one is under way. */
module ConnectionProtocol {
  import opened Common

  /** send: before the guard, inside it, reading the handle, calling the stack, waiting on mCongEvent, leaving with its
      result. */
  datatype Sender =
    | SIdle
    | SEnter
    | SGuarded
    | SCall(h: Option<nat>)
    | SToWait(g: nat)
    | SWaiting(g: nat)
    | SWoken
    | STest
    | SLeave(sent: bool)

  /** disconnectConnOriented: unblock the sender, test the handle, disconnect and wait on mDisconnectingEvent,
      then remove the connection under mDisconnectMutex. */
  datatype Closer =
    | CIdle
    | CEnterCong
    | CNotifyCong
    | CLeaveCong
    | CTest
    | CEnterDisc
    | CGuarded
    | CCall(h: Option<nat>)
    | CToWait(g: nat)
    | CWaiting(g: nat)
    | CWoken
    | CLeaveDisc
    | CEnterRemove
    | CRemove
    | CLeaveRemove

  /** The callback thread: an uncongest notification; the DISC handler; the binding of a new link. */
  datatype Callback =
    | BIdle
    | BEnterCong
    | BNotifyCong
    | BLeaveCong
    | BBind(g: nat)
    | DEnter(g: nat)
    | DInvalidate(g: nat)
    | DEnterDisc(g: nat)
    | DNotifyDisc(g: nat)
    | DLeaveDisc(g: nat)
    | DEnterCong(g: nat)
    | DNotifyCong(g: nat)
    | DLeaveCong(g: nat)
    | DNotifyRead(g: nat)
    | DLeave(g: nat)

  /** handleNfcOnOff(false), at this connection, holding PeerToPeer::mMutex. */
  datatype Shutdown =
    | OIdle
    | OLook
    | OEnterCong
    | ONotifyCong
    | OLeaveCong
    | OLeave

  datatype Event = Uncongest(g: nat) | Congest(g: nat) | Disc(g: nat)

  /** The connection block, the stack's link, the events not yet delivered, and where each thread is. */
  datatype State = State(handle: Option<nat>, inTable: bool, link: Option<nat>, congested: bool,
                         queue: seq<Event>, sender: Sender, closer: Closer, cb: Callback, off: Shutdown)

  // ---------------------------------------------------------------- who holds what

  predicate SenderHoldsCong(s: Sender) { s.SGuarded? || s.SCall? || s.SToWait? || s.STest? || s.SLeave? }
  predicate CloserHoldsCong(c: Closer) { c.CNotifyCong? || c.CLeaveCong? }
  predicate CallbackHoldsCong(b: Callback) { b.BNotifyCong? || b.BLeaveCong? || b.DNotifyCong? || b.DLeaveCong? }
  predicate OffHoldsCong(o: Shutdown) { o.ONotifyCong? || o.OLeaveCong? }

  predicate CongFree(s: State) {
    !SenderHoldsCong(s.sender) && !CloserHoldsCong(s.closer) && !CallbackHoldsCong(s.cb) && !OffHoldsCong(s.off)
  }

  predicate CloserHoldsDisc(c: Closer) { c.CGuarded? || c.CCall? || c.CToWait? || c.CLeaveDisc? }
  predicate CallbackHoldsDisc(b: Callback) { b.DNotifyDisc? || b.DLeaveDisc? }
  predicate DiscFree(s: State) { !CloserHoldsDisc(s.closer) && !CallbackHoldsDisc(s.cb) }

  predicate CloserHoldsDM(c: Closer) { c.CRemove? || c.CLeaveRemove? }
  predicate CallbackHoldsDM(b: Callback) {
    b.DInvalidate? || b.DEnterDisc? || b.DNotifyDisc? || b.DLeaveDisc? || b.DEnterCong? || b.DNotifyCong? ||
    b.DLeaveCong? || b.DNotifyRead? || b.DLeave?
  }
  predicate DMFree(s: State) { !CloserHoldsDM(s.closer) && !CallbackHoldsDM(s.cb) }

  predicate PeerFree(s: State) { s.off.OIdle? }

  // ---------------------------------------------------------------- the steps

  /** What a stack call answers. */
  datatype Answer = Accepted | Refused | Congested

  datatype Action =
    | SenderFinds | SenderStep | SenderCalls(answer: Answer) | SenderWakesItself
    | CloserFinds | CloserStep | CloserCalls(answer: Answer) | CloserWakesItself
    | Deliver(client: bool) | CallbackStep | NewLink(g: nat)
    | OffStarts | OffStep
    | StackCongests | StackUncongests | StackLinkDown
    | ServerRemoved

  ghost predicate DiscUnderWay(s: State, g: nat) {
    Disc(g) in s.queue || ((s.cb.DEnter? || s.cb.DInvalidate? || s.cb.DEnterDisc? || s.cb.DNotifyDisc?) && s.cb.g == g)
  }

  ghost predicate Enabled(s: State, a: Action) {
    match a
    case SenderFinds => s.sender.SIdle? && PeerFree(s) && s.inTable
    case SenderStep =>
      !s.sender.SIdle? && !s.sender.SCall? && !s.sender.SWaiting? &&
          (s.sender.SEnter? || s.sender.SWoken? ==> CongFree(s))
    case SenderCalls(answer) =>
      s.sender.SCall? && (answer.Congested? ==> s.sender.h.Some? && s.link == s.sender.h && s.congested) &&
      (s.sender.h.None? ==> answer.Refused?)
    case SenderWakesItself => s.sender.SWaiting?
    case CloserFinds => s.closer.CIdle? && PeerFree(s) && s.inTable
    case CloserStep =>
      && !s.closer.CIdle? && !s.closer.CCall? && !s.closer.CWaiting?
      && (s.closer.CEnterCong? ==> CongFree(s))
      && (s.closer.CEnterDisc? || s.closer.CWoken? ==> DiscFree(s))
      && (s.closer.CEnterRemove? ==> DMFree(s))
      && (s.closer.CRemove? ==> PeerFree(s))
    case CloserCalls(answer) =>
      s.closer.CCall? && !answer.Congested? &&
      (answer.Accepted? ==> s.closer.h.Some? && (s.link == s.closer.h || DiscUnderWay(s, s.closer.h.value)))
    case CloserWakesItself => s.closer.CWaiting?
    case Deliver(_) => s.cb.BIdle? && s.queue != [] && PeerFree(s)
    case CallbackStep =>
      && !s.cb.BIdle?
      && (s.cb.BEnterCong? || s.cb.DEnterCong? ==> CongFree(s))
      && (s.cb.DEnter? ==> DMFree(s))
      && (s.cb.DEnterDisc? ==> DiscFree(s))
    case NewLink(_) => s.cb.BIdle? && s.queue == [] && PeerFree(s) && s.link.None? && s.inTable && s.handle.None?
    case OffStarts => s.off.OIdle?
    case OffStep => !s.off.OIdle? && (s.off.OEnterCong? ==> CongFree(s))
    case StackCongests => s.link.Some?
    case StackUncongests => s.link.Some? && s.congested
    case StackLinkDown => s.link.Some?
    case ServerRemoved => PeerFree(s)
  }

  function NotifyCong(s: State): State {
    if s.sender.SWaiting? then s.(sender := SWoken) else s
  }

  function NotifyDisc(s: State): State {
    if s.closer.CWaiting? then s.(closer := CWoken) else s
  }

  ghost function SenderNext(s: State): State {
    match s.sender
    case SEnter => s.(sender := SGuarded)
    case SGuarded => s.(sender := SCall(s.handle))
    case SToWait(g) => s.(sender := SWaiting(g))
    case SWoken => s.(sender := STest)
    case STest => s.(sender := if s.handle.None? then SLeave(false) else SEnter)
    case _ => s.(sender := SIdle)
  }

  ghost function CloserNext(s: State): State {
    match s.closer
    case CEnterCong => s.(closer := CNotifyCong)
    case CNotifyCong => NotifyCong(s).(closer := CLeaveCong)
    case CLeaveCong => s.(closer := CTest)
    case CTest => s.(closer := if s.handle.None? then CEnterRemove else CEnterDisc)
    case CEnterDisc => s.(closer := CGuarded)
    case CGuarded => s.(closer := CCall(s.handle))
    case CToWait(g) => s.(closer := CWaiting(g))
    case CWoken => s.(closer := CLeaveDisc)
    case CLeaveDisc => s.(closer := CEnterRemove)
    case CEnterRemove => s.(closer := CRemove)
    case CRemove => s.(closer := CLeaveRemove, inTable := false)
    case _ => s.(closer := CIdle)
  }

  ghost function CallbackNext(s: State): State {
    match s.cb
    case BEnterCong => s.(cb := BNotifyCong)
    case BNotifyCong => NotifyCong(s).(cb := BLeaveCong)
    case BBind(g) => s.(cb := BIdle, handle := Some(g))
    case DEnter(g) => s.(cb := DInvalidate(g))
    case DInvalidate(g) => s.(cb := DEnterDisc(g), handle := None)
    case DEnterDisc(g) => s.(cb := DNotifyDisc(g))
    case DNotifyDisc(g) => NotifyDisc(s).(cb := DLeaveDisc(g))
    case DLeaveDisc(g) => s.(cb := DEnterCong(g))
    case DEnterCong(g) => s.(cb := DNotifyCong(g))
    case DNotifyCong(g) => NotifyCong(s).(cb := DLeaveCong(g))
    case DLeaveCong(g) => s.(cb := DNotifyRead(g))
    case DNotifyRead(g) => s.(cb := DLeave(g))
    case _ => s.(cb := BIdle)
  }

  /** The callback looks the connection up by the event's handle; the client's callback notifies on any CONGEST
      event, the server's only when congestion ends. */
  ghost function Delivered(s: State, client: bool): State
    requires s.queue != []
  {
    var s1 := s.(queue := s.queue[1..]);
    var e := s.queue[0];
    if !s.inTable || s.handle != Some(e.g) then s1
    else if e.Disc? then s1.(cb := DEnter(e.g))
    else if e.Congest? && !client then s1 else s1.(cb := BEnterCong)
  }

  ghost function OffNext(s: State): State {
    match s.off
    case OLook => if s.inTable && s.handle.Some? then s.(off := OEnterCong, handle := None) else s.(off := OLeave)
    case OEnterCong => s.(off := ONotifyCong)
    case ONotifyCong => NotifyCong(s).(off := OLeaveCong)
    case OLeaveCong => s.(off := OLeave)
    case _ => s.(off := OIdle)
  }

  ghost function Next(s: State, a: Action): State
    requires Enabled(s, a)
  {
    match a
    case SenderFinds => s.(sender := SEnter)
    case SenderStep => SenderNext(s)
    case SenderCalls(answer) =>
      if answer.Congested? then s.(sender := SToWait(s.sender.h.value))
      else s.(sender := SLeave(answer.Accepted?))
    case SenderWakesItself => s.(sender := SWoken)
    case CloserFinds => s.(closer := CEnterCong)
    case CloserStep => CloserNext(s)
    case CloserCalls(answer) =>
      if answer.Refused? then s.(closer := CLeaveDisc)
      else if DiscUnderWay(s, s.closer.h.value) then s.(closer := CToWait(s.closer.h.value))
      else s.(closer := CToWait(s.closer.h.value), link := None, congested := false,
          queue := s.queue + [Disc(s.closer.h.value)])
    case CloserWakesItself => s.(closer := CWoken)
    case Deliver(client) => Delivered(s, client)
    case CallbackStep => CallbackNext(s)
    case NewLink(g) => s.(cb := BBind(g), link := Some(g), congested := false)
    case OffStarts => s.(off := OLook)
    case OffStep => OffNext(s)
    case StackCongests => s.(congested := true, queue := s.queue + [Congest(s.link.value)])
    case StackUncongests => s.(congested := false, queue := s.queue + [Uncongest(s.link.value)])
    case StackLinkDown => s.(link := None, congested := false, queue := s.queue + [Disc(s.link.value)])
    case ServerRemoved => s.(inTable := false)
  }

  const Start: State := State(None, true, None, false, [], SIdle, CIdle, BIdle, OIdle)

  /** The run of a sequence of actions, if each can be taken where it is taken. */
  ghost predicate Runs(s: State, acts: seq<Action>, s': State)
    decreases |acts|
  {
    if acts == [] then s' == s else Enabled(s, acts[0]) && Runs(Next(s, acts[0]), acts[1..], s')
  }

  // ---------------------------------------------------------------- kept by every step

  /** No mutex has two holders. */
  ghost predicate Exclusive(s: State) {
    && !(SenderHoldsCong(s.sender) && (CloserHoldsCong(s.closer) || CallbackHoldsCong(s.cb) || OffHoldsCong(s.off)))
    && !(CloserHoldsCong(s.closer) && (CallbackHoldsCong(s.cb) || OffHoldsCong(s.off)))
    && !(CallbackHoldsCong(s.cb) && OffHoldsCong(s.off))
    && !(CloserHoldsDisc(s.closer) && CallbackHoldsDisc(s.cb))
    && !(CloserHoldsDM(s.closer) && CallbackHoldsDM(s.cb))
  }

  /** A handle whose link is gone still has its DISC event coming, and the handler finds what it expects. */
  ghost predicate Linked(s: State) {
    && (s.handle.Some? && s.inTable && s.link != s.handle ==> Arriving(s, s.handle.value))
    && (s.cb.BBind? ==> s.handle.None? && (s.link == Some(s.cb.g) || Disc(s.cb.g) in s.queue))
    && (s.cb.DEnter? || s.cb.DInvalidate? ==> s.handle.None? || s.handle == Some(s.cb.g))
    && (CallbackHoldsDM(s.cb) && !s.cb.DInvalidate? ==> s.handle.None?)
  }

  /** The DISC event of link g is queued, or its handler has not yet invalidated the handle. */
  ghost predicate Arriving(s: State, g: nat) {
    Disc(g) in s.queue || ((s.cb.DEnter? || s.cb.DInvalidate?) && s.cb.g == g)
  }

  lemma SenderKeepsExclusive()
    ensures forall s: State | Exclusive(s) && Enabled(s, SenderStep) :: Exclusive(SenderNext(s))
  {
  }

  lemma CloserKeepsExclusive()
    ensures forall s: State | Exclusive(s) && Enabled(s, CloserStep) :: Exclusive(CloserNext(s))
  {
  }

  lemma CallbackKeepsExclusive()
    ensures forall s: State | Exclusive(s) && Enabled(s, CallbackStep) :: Exclusive(CallbackNext(s))
  {
  }

  lemma StepKeepsExclusive(s: State, a: Action)
    requires Exclusive(s) && Enabled(s, a)
    ensures Exclusive(Next(s, a))
  {
    match a
    case SenderStep => SenderKeepsExclusive();
    case CloserStep => CloserKeepsExclusive();
    case CallbackStep => CallbackKeepsExclusive();
    case _ =>
  }

  lemma QueueGrows(s: State, e: Event)
    ensures forall x :: x in s.queue + [e] <==> x in s.queue || x == e
  {
  }

  lemma QueueSplits(q: seq<Event>)
    requires q != []
    ensures forall x :: x in q <==> x == q[0] || x in q[1..]
  {
    assert q == [q[0]] + q[1..];
  }

  /** What only moves the sender, the closer or the shutdown around leaves the link facts alone. */
  lemma ThreadsKeepLinked(s: State, s': State)
    requires Linked(s) && s'.queue == s.queue && s'.link == s.link && s'.cb == s.cb
    requires (s'.handle == s.handle || s'.handle == None) && (s'.inTable ==> s.inTable)
    ensures Linked(s')
  {
  }

  lemma CloserKeepsLinked(s: State)
    requires Linked(s) && Enabled(s, CloserStep)
    ensures Linked(CloserNext(s))
  {
    ThreadsKeepLinked(s, CloserNext(s));
  }

  lemma DeliverKeepsLinked(s: State, client: bool)
    requires Linked(s) && Enabled(s, Deliver(client))
    ensures Linked(Delivered(s, client))
  {
    QueueSplits(s.queue);
  }

  lemma CallbackKeepsLinked()
    ensures forall s: State | Linked(s) && Enabled(s, CallbackStep) :: Linked(CallbackNext(s))
  {
  }

  lemma StackKeepsLinked(s: State, a: Action)
    requires Linked(s) && Enabled(s, a) &&
        (a.StackCongests? || a.StackUncongests? || a.StackLinkDown? || a.CloserCalls?)
    ensures Linked(Next(s, a))
  {
    if s.link.Some? {
      QueueGrows(s, Congest(s.link.value));
      QueueGrows(s, Uncongest(s.link.value));
      QueueGrows(s, Disc(s.link.value));
    }
    if a.CloserCalls? && a.answer.Accepted? { QueueGrows(s, Disc(s.closer.h.value)); }
  }

  lemma StepKeepsLinked(s: State, a: Action)
    requires Linked(s) && Enabled(s, a)
    ensures Linked(Next(s, a))
  {
    match a
    case Deliver(client) => DeliverKeepsLinked(s, client);
    case CallbackStep => CallbackKeepsLinked();
    case NewLink(g) => assert Linked(s.(cb := BBind(g), link := Some(g), congested := false));
    case CloserStep => CloserKeepsLinked(s);
    case StackCongests => StackKeepsLinked(s, a);
    case StackUncongests => StackKeepsLinked(s, a);
    case StackLinkDown => StackKeepsLinked(s, a);
    case CloserCalls(_) => StackKeepsLinked(s, a);
    case _ => ThreadsKeepLinked(s, Next(s, a));
  }

  // ---------------------------------------------------------------- no lost wake-up in send

  /** Somebody has invalidated the handle and has not yet notified mCongEvent. */
  predicate InvalidatorPending(s: State) {
    s.cb.DEnterDisc? || s.cb.DNotifyDisc? || s.cb.DLeaveDisc? || s.cb.DEnterCong? || s.cb.DNotifyCong? ||
    s.off.OEnterCong? || s.off.ONotifyCong?
  }

  /** A notification of mCongEvent is on its way. */
  ghost predicate WakeUpComing(s: State, g: nat) {
    || InvalidatorPending(s)
    || s.cb.BEnterCong? || s.cb.BNotifyCong? || s.cb.DEnter? || s.cb.DInvalidate?
    || (s.handle == Some(g) && (Uncongest(g) in s.queue || Disc(g) in s.queue))
  }

  /** The stack is still congested on the live link g of this connection. */
  predicate StillCongested(s: State, g: nat) {
    s.link == Some(g) && s.congested && s.handle == Some(g)
  }

  ghost predicate SendInv(s: State) {
    match s.sender
    case SCall(Some(g)) => s.handle == Some(g) || InvalidatorPending(s)
    case SToWait(g) => StillCongested(s, g) || WakeUpComing(s, g)
    case SWaiting(g) => StillCongested(s, g) || WakeUpComing(s, g)
    case _ => true
  }

  /** A connection with a handle, or about to get one, is in the table, so that events find it. */
  predicate Attached(s: State) {
    s.handle.Some? || s.cb.BBind? ==> s.inTable
  }

  /** The steps that take a connection out of the table while it has, or is about to get, a live handle: a closer
      whose disconnect was refused, whose wait ended by itself, or whose block was bound again before it was
      removed; and the removal of its server. */
  ghost predicate RemovesLive(s: State, a: Action) {
    (a.ServerRemoved? || (a.CloserStep? && s.closer.CRemove?)) && (s.handle.Some? || s.cb.BBind?)
  }

  ghost predicate Safe(s: State) {
    Exclusive(s) && Linked(s) && Attached(s) && SendInv(s)
  }

  lemma SenderKeepsSend()
    ensures forall s: State, a: Action | Safe(s) && Enabled(s, a) && (a.SenderStep? || a.SenderCalls?) ::
              SendInv(Next(s, a)) && Attached(Next(s, a))
  {
  }

  lemma CloserKeepsSend()
    ensures forall s: State | Safe(s) && Enabled(s, CloserStep) && !RemovesLive(s, CloserStep) ::
              SendInv(CloserNext(s)) && Attached(CloserNext(s))
  {
  }

  lemma CallbackKeepsSend()
    ensures forall s: State | Safe(s) && Enabled(s, CallbackStep) ::
              SendInv(CallbackNext(s)) && Attached(CallbackNext(s))
  {
  }

  lemma DeliverKeepsSend(s: State, client: bool)
    requires Safe(s) && Enabled(s, Deliver(client))
    ensures SendInv(Delivered(s, client)) && Attached(Delivered(s, client))
  {
    QueueSplits(s.queue);
  }

  lemma OffKeepsSend()
    ensures forall s: State | Safe(s) && Enabled(s, OffStep) :: SendInv(OffNext(s)) && Attached(OffNext(s))
  {
  }

  lemma StackKeepsSend(s: State, a: Action)
    requires Safe(s) && Enabled(s, a) && (a.StackCongests? || a.StackUncongests? || a.StackLinkDown? || a.CloserCalls?)
    ensures SendInv(Next(s, a)) && Attached(Next(s, a))
  {
    if s.link.Some? {
      QueueGrows(s, Congest(s.link.value));
      QueueGrows(s, Uncongest(s.link.value));
      QueueGrows(s, Disc(s.link.value));
    }
    if a.CloserCalls? && a.answer.Accepted? { QueueGrows(s, Disc(s.closer.h.value)); }
  }

  lemma StepKeepsSafe(s: State, a: Action)
    requires Safe(s) && Enabled(s, a) && !RemovesLive(s, a)
    ensures Safe(Next(s, a))
  {
    StepKeepsExclusive(s, a);
    StepKeepsLinked(s, a);
    match a
    case SenderStep => SenderKeepsSend();
    case SenderCalls(_) => SenderKeepsSend();
    case CloserStep => CloserKeepsSend();
    case CallbackStep => CallbackKeepsSend();
    case Deliver(client) => DeliverKeepsSend(s, client);
    case OffStep => OffKeepsSend();
    case StackCongests => StackKeepsSend(s, a);
    case StackUncongests => StackKeepsSend(s, a);
    case StackLinkDown => StackKeepsSend(s, a);
    case CloserCalls(_) => StackKeepsSend(s, a);
    case _ =>
  }

  /** No step of the run takes a live connection out of the table. */
  ghost predicate NeverRemovesLive(s: State, acts: seq<Action>)
    decreases |acts|
  {
    acts == [] || (!RemovesLive(s, acts[0]) && Enabled(s, acts[0]) && NeverRemovesLive(Next(s, acts[0]), acts[1..]))
  }

  lemma {:induction false} RunKeepsSafe(s: State, acts: seq<Action>)
    requires Safe(s) && NeverRemovesLive(s, acts)
    ensures forall s' :: Runs(s, acts, s') ==> Safe(s')
    decreases |acts|
  {
    if acts != [] && Enabled(s, acts[0]) {
      StepKeepsSafe(s, acts[0]);
      RunKeepsSafe(Next(s, acts[0]), acts[1..]);
    }
  }

  /** In every run that never takes a live connection out of the table, a sender blocked on mCongEvent is blocked
      for a reason: the stack is still congested on its live link, or an uncongest, DISC or shutdown step that
      has not yet notified it is on its way. */
  lemma NoLostWakeUpInSend(acts: seq<Action>, s: State)
    requires Runs(Start, acts, s) && NeverRemovesLive(Start, acts) && s.sender.SWaiting?
    ensures StillCongested(s, s.sender.g) || WakeUpComing(s, s.sender.g)
  {
    RunKeepsSafe(Start, acts);
  }

  /** Taking a connection out of the table aside, the same holds of every run whatever. */
  ghost predicate SafeInTable(s: State) {
    Exclusive(s) && Linked(s) && (s.inTable ==> SendInv(s))
  }

  lemma StepKeepsSafeInTable(s: State, a: Action)
    requires SafeInTable(s) && Enabled(s, a)
    ensures SafeInTable(Next(s, a))
  {
    StepKeepsExclusive(s, a);
    StepKeepsLinked(s, a);
    if Next(s, a).inTable { StepKeepsSafe(s, a); }
  }

  lemma {:induction false} RunKeepsSafeInTable(s: State, acts: seq<Action>)
    requires SafeInTable(s)
    ensures forall s' :: Runs(s, acts, s') ==> SafeInTable(s')
    decreases |acts|
  {
    if acts != [] && Enabled(s, acts[0]) {
      StepKeepsSafeInTable(s, acts[0]);
      RunKeepsSafeInTable(Next(s, acts[0]), acts[1..]);
    }
  }

  /** In every run whatever, a sender blocked on mCongEvent is blocked for a reason, or its connection is no longer
      in the table. */
  lemma NoLostWakeUpInTable(acts: seq<Action>, s: State)
    requires Runs(Start, acts, s) && s.sender.SWaiting?
    ensures StillCongested(s, s.sender.g) || WakeUpComing(s, s.sender.g) || !s.inTable
  {
    RunKeepsSafeInTable(Start, acts);
  }

  // ---------------------------------------------------------------- no lost wake-up in disconnect

  predicate BeforeRemoval(c: Closer) {
    !c.CIdle? && !c.CLeaveRemove?
  }

  /** While the closer waits, the DISC event of its link has not been fully handled, and will find the connection. */
  ghost predicate CloseInv(s: State) {
    && (BeforeRemoval(s.closer) ==> s.inTable)
    && match s.closer
       case CCall(Some(g)) => s.handle == Some(g) || s.cb == DEnterDisc(g)
       case CToWait(g) => DiscUnderWay(s, g) && (s.handle == Some(g) || s.cb == DEnterDisc(g))
       case CWaiting(g) =>
         DiscUnderWay(s, g) && (s.handle == Some(g) || s.cb == DEnterDisc(g) || s.cb == DNotifyDisc(g))
       case _ => true
  }

  /** The steps that take the closer's DISC event from it: shutdown invalidates the handle while the closer is
      between reading it and being woken, or the connection leaves the table before the closer removes it. */
  ghost predicate LosesCloser(s: State, a: Action) {
    || (a.OffStep? && s.off.OLook? && s.inTable && s.handle.Some? &&
        (s.closer.CCall? || s.closer.CToWait? || s.closer.CWaiting?))
    || (a.ServerRemoved? && BeforeRemoval(s.closer))
  }

  ghost predicate Closing(s: State) {
    Exclusive(s) && Linked(s) && CloseInv(s)
  }

  lemma CloserKeepsClose(s: State, a: Action)
    requires Closing(s) && Enabled(s, a) && (a.CloserStep? || a.CloserCalls?)
    ensures CloseInv(Next(s, a))
  {
    if a.CloserCalls? && a.answer.Accepted? { QueueGrows(s, Disc(s.closer.h.value)); }
  }

  lemma CallbackKeepsClose()
    ensures forall s: State | Closing(s) && Enabled(s, CallbackStep) :: CloseInv(CallbackNext(s))
  {
  }

  lemma DeliverKeepsClose(s: State, client: bool)
    requires Closing(s) && Enabled(s, Deliver(client))
    ensures CloseInv(Delivered(s, client))
  {
    QueueSplits(s.queue);
  }

  lemma StackKeepsClose(s: State, a: Action)
    requires Closing(s) && Enabled(s, a) && (a.StackCongests? || a.StackUncongests? || a.StackLinkDown?)
    ensures CloseInv(Next(s, a))
  {
    QueueGrows(s, Congest(s.link.value));
    QueueGrows(s, Uncongest(s.link.value));
    QueueGrows(s, Disc(s.link.value));
  }

  lemma OthersKeepClose(s: State, a: Action)
    requires Closing(s) && Enabled(s, a) && !LosesCloser(s, a)
    requires !a.CloserStep? && !a.CloserCalls? && !a.CallbackStep? && !a.Deliver?
    requires !a.StackCongests? && !a.StackUncongests? && !a.StackLinkDown?
    ensures CloseInv(Next(s, a))
  {
    if a.SenderStep? { assert SenderNext(s).closer == s.closer && SenderNext(s).queue == s.queue; }
  }

  lemma StepKeepsClosing(s: State, a: Action)
    requires Closing(s) && Enabled(s, a) && !LosesCloser(s, a)
    ensures Closing(Next(s, a))
  {
    StepKeepsExclusive(s, a);
    StepKeepsLinked(s, a);
    match a
    case CloserStep => CloserKeepsClose(s, a);
    case CloserCalls(_) => CloserKeepsClose(s, a);
    case CallbackStep => CallbackKeepsClose();
    case Deliver(client) => DeliverKeepsClose(s, client);
    case StackCongests => StackKeepsClose(s, a);
    case StackUncongests => StackKeepsClose(s, a);
    case StackLinkDown => StackKeepsClose(s, a);
    case _ => OthersKeepClose(s, a);
  }

  /** No step of the run takes the closer's DISC event from it. */
  ghost predicate NeverLosesCloser(s: State, acts: seq<Action>)
    decreases |acts|
  {
    acts == [] || (!LosesCloser(s, acts[0]) && Enabled(s, acts[0]) && NeverLosesCloser(Next(s, acts[0]), acts[1..]))
  }

  lemma {:induction false} RunKeepsClosing(s: State, acts: seq<Action>)
    requires Closing(s) && NeverLosesCloser(s, acts)
    ensures forall s' :: Runs(s, acts, s') ==> Closing(s')
    decreases |acts|
  {
    if acts != [] && Enabled(s, acts[0]) {
      StepKeepsClosing(s, acts[0]);
      RunKeepsClosing(Next(s, acts[0]), acts[1..]);
    }
  }

  /** In every run that never takes the closer's DISC event from it, a closer blocked on mDisconnectingEvent still has
      that event queued or in a handler that has not yet notified it, and the event finds the connection. */
  lemma NoLostWakeUpInDisconnect(acts: seq<Action>, s: State)
    requires Runs(Start, acts, s) && NeverLosesCloser(Start, acts) && s.closer.CWaiting?
    ensures var g := s.closer.g;
            && DiscUnderWay(s, g) && s.inTable
            && (s.handle == Some(g) || s.cb == DEnterDisc(g) || s.cb == DNotifyDisc(g))
  {
    RunKeepsClosing(Start, acts);
  }

  /** In every run whatever, the closer never removes the connection while a DISC handler is between invalidating
      the handle and its last notification. */
  lemma RemovalWaitsForHandler(acts: seq<Action>, s: State)
    requires Runs(Start, acts, s) && Enabled(s, CloserStep) && s.closer.CRemove?
    ensures !CallbackHoldsDM(s.cb)
  {
    RunKeepsSafeInTable(Start, acts);
  }
}
