/** What send and disconnectConnOriented have done by the time they leave, in every run of ConnectionProtocol: what the
    stack was asked and answered, when they waited, and what they saw of the handle. */
module CallHistory {
  import opened Common
  import opened ConnectionProtocol

  // ---------------------------------------------------------------- send

  /** Of the sender's latest call, if there was one: the stack's last answer, how often it accepted the data, whether
      the sender has waited since the last answer, and the handle at its latest test. */
  datatype Sent = Sent(begun: bool, answer: Option<Answer>, accepted: nat, waited: bool, tested: Option<nat>)

  ghost function SentNext(p: Sent, s: State, a: Action): Sent
    requires Enabled(s, a)
  {
    var waited := p.waited || (s.sender.SWaiting? && !Next(s, a).sender.SWaiting?);
    match a
    case SenderFinds => Sent(true, None, 0, false, None)
    case SenderCalls(answer) =>
      p.(answer := Some(answer), accepted := p.accepted + if answer.Accepted? then 1 else 0, waited := false)
    case SenderStep => if s.sender.STest? then p.(tested := s.handle) else p.(waited := waited)
    case _ => p.(waited := waited)
  }

  /** The history p carried on along a run. */
  ghost function SentAfter(p: Sent, s: State, acts: seq<Action>): Sent
    decreases |acts|
  {
    if acts == [] || !Enabled(s, acts[0]) then p
    else SentAfter(SentNext(p, s, acts[0]), Next(s, acts[0]), acts[1..])
  }

  const NothingSent := Sent(false, None, 0, false, None)

  /** A call that is over: the data was accepted at most once, by the last answer; a CONGESTED answer was the last only
      if the sender waited and then saw the handle invalid. */
  predicate SendOver(p: Sent) {
    && p.answer.Some? && p.accepted == (if p.answer == Some(Accepted) then 1 else 0)
    && (p.answer == Some(Congested) ==> p.waited && p.tested.None?)
  }

  /** A call about to ask the stack: first, or after a CONGESTED answer, a wait, and a valid handle seen. */
  predicate SendAsks(p: Sent) {
    p.accepted == 0 && (p.answer == None || (p.answer == Some(Congested) && p.waited && p.tested.Some?))
  }

  ghost predicate SentTold(p: Sent, s: State) {
    match s.sender
    case SIdle => p.begun ==> SendOver(p)
    case SLeave(sent) => SendOver(p) && (sent <==> p.answer == Some(Accepted))
    case SToWait(_) => p.accepted == 0 && p.answer == Some(Congested)
    case SWaiting(_) => p.accepted == 0 && p.answer == Some(Congested)
    case SWoken => p.accepted == 0 && p.answer == Some(Congested) && p.waited
    case STest => p.accepted == 0 && p.answer == Some(Congested) && p.waited
    case _ => SendAsks(p)
  }

  lemma StepKeepsSent(p: Sent, s: State, a: Action)
    requires SentTold(p, s) && Enabled(s, a)
    ensures SentTold(SentNext(p, s, a), Next(s, a))
  {
  }

  lemma {:induction false} RunKeepsSent(p: Sent, s: State, acts: seq<Action>)
    requires SentTold(p, s)
    ensures forall s' :: Runs(s, acts, s') ==> SentTold(SentAfter(p, s, acts), s')
    decreases |acts|
  {
    if acts != [] && Enabled(s, acts[0]) {
      StepKeepsSent(p, s, acts[0]);
      RunKeepsSent(SentNext(p, s, acts[0]), Next(s, acts[0]), acts[1..]);
    }
  }

  /** In every run, a send that leaves has asked the stack.  It reports success exactly if the stack's last answer was
      acceptance, and the data was then accepted once, else never; and it leaves after a CONGESTED answer only if it
      waited and then saw the handle invalid.  The same holds of the latest call once it is over. */
  lemma SendLeaves(acts: seq<Action>)
    ensures forall s | Runs(Start, acts, s) ::
              var p := SentAfter(NothingSent, Start, acts);
              && (s.sender.SLeave? ==> SendOver(p) && (s.sender.sent <==> p.answer == Some(Accepted)))
              && (s.sender.SIdle? && p.begun ==> SendOver(p))
  {
    RunKeepsSent(NothingSent, Start, acts);
  }

  /** In every run, a sender calls the stack only if the data was not accepted yet: first, or after a CONGESTED answer,
      a wait, and a test that found the handle valid. */
  lemma SendCallsWhen(acts: seq<Action>)
    ensures forall s | Runs(Start, acts, s) && s.sender.SCall? :: SendAsks(SentAfter(NothingSent, Start, acts))
  {
    RunKeepsSent(NothingSent, Start, acts);
  }

  /** Own steps of a woken sender up to its next call of the stack. */
  function StepsToCall(t: Sender): nat {
    match t case SWoken => 4 case STest => 3 case SEnter => 2 case SGuarded => 1 case _ => 0
  }

  /** The sender is on its way to call the stack, or at the call with a valid handle. */
  predicate WillCall(t: Sender) { StepsToCall(t) > 0 || (t.SCall? && t.h.Some?) }

  ghost predicate StaysValid(s: State, acts: seq<Action>)
    decreases |acts|
  {
    s.handle.Some? && (acts != [] && Enabled(s, acts[0]) ==> StaysValid(Next(s, acts[0]), acts[1..]))
  }

  function OwnSteps(acts: seq<Action>): nat {
    if acts == [] then 0 else OwnSteps(acts[1..]) + if acts[0].SenderStep? then 1 else 0
  }

  predicate NoCall(acts: seq<Action>) { forall a: Action :: a in acts ==> !a.SenderCalls? }

  ghost predicate Nearer(t: Sender, acts: seq<Action>, t': Sender) {
    WillCall(t') && StepsToCall(t') + OwnSteps(acts) == StepsToCall(t)
  }

  lemma StepNearsCall(s: State, a: Action)
    requires WillCall(s.sender) && s.handle.Some? && Enabled(s, a) && !a.SenderCalls?
    ensures Nearer(s.sender, [a], Next(s, a).sender)
  {
  }

  /** A woken sender whose handle stays valid calls the stack again with a valid handle: until it does, each of its own
      steps brings it one nearer, and it needs four. */
  lemma {:induction false} WokenCallsAgain(s: State, acts: seq<Action>)
    requires WillCall(s.sender) && StaysValid(s, acts) && NoCall(acts)
    ensures forall s' :: Runs(s, acts, s') ==> Nearer(s.sender, acts, s'.sender)
    decreases |acts|
  {
    if acts != [] && Enabled(s, acts[0]) {
      StepNearsCall(s, acts[0]);
      assert [acts[0]][1..] == [];
      WokenCallsAgain(Next(s, acts[0]), acts[1..]);
    }
  }

  // ---------------------------------------------------------------- disconnectConnOriented

  /** Of the closer's latest call, if there was one: what it saw of the handle at its test, the stack's answer, whether
      it waited, and whether it took the connection out of the table. */
  datatype Closed = Closed(begun: bool, tested: Option<nat>, answer: Option<Answer>, waited: bool, removed: bool)

  ghost function ClosedNext(p: Closed, s: State, a: Action): Closed
    requires Enabled(s, a)
  {
    var waited := p.waited || (s.closer.CWaiting? && !Next(s, a).closer.CWaiting?);
    match a
    case CloserFinds => Closed(true, None, None, false, false)
    case CloserCalls(answer) => p.(answer := Some(answer))
    case CloserStep =>
      if s.closer.CTest? then p.(tested := s.handle)
      else p.(waited := waited, removed := p.removed || !Next(s, a).inTable)
    case _ => p.(waited := waited)
  }

  ghost function ClosedAfter(p: Closed, s: State, acts: seq<Action>): Closed
    decreases |acts|
  {
    if acts == [] || !Enabled(s, acts[0]) then p
    else ClosedAfter(ClosedNext(p, s, acts[0]), Next(s, acts[0]), acts[1..])
  }

  const NothingClosed := Closed(false, None, None, false, false)

  /** The stack was asked exactly if the handle was valid, and the closer waited if the stack accepted. */
  predicate AskedIfValid(p: Closed) {
    (p.tested.Some? <==> p.answer.Some?) && (p.answer == Some(Accepted) ==> p.waited)
  }

  ghost predicate ClosedTold(p: Closed, s: State) {
    match s.closer
    case CIdle => p.begun ==> AskedIfValid(p) && p.removed && !s.inTable
    case CEnterDisc => p.tested.Some? && p.answer.None?
    case CGuarded => p.tested.Some? && p.answer.None?
    case CCall(_) => p.tested.Some? && p.answer.None?
    case CToWait(_) => p.tested.Some? && p.answer == Some(Accepted)
    case CWaiting(_) => p.tested.Some? && p.answer == Some(Accepted)
    case CWoken => AskedIfValid(p) && p.tested.Some?
    case CLeaveDisc => AskedIfValid(p) && p.tested.Some?
    case CEnterRemove => AskedIfValid(p)
    case CRemove => AskedIfValid(p)
    case CLeaveRemove => AskedIfValid(p) && p.removed && !s.inTable
    case _ => p.tested.None? && p.answer.None?
  }

  lemma CloserStepKeepsClosed(p: Closed, s: State)
    requires ClosedTold(p, s) && Enabled(s, CloserStep)
    ensures ClosedTold(ClosedNext(p, s, CloserStep), Next(s, CloserStep))
  {
  }

  lemma StepKeepsClosed(p: Closed, s: State, a: Action)
    requires ClosedTold(p, s) && Enabled(s, a)
    ensures ClosedTold(ClosedNext(p, s, a), Next(s, a))
  {
    if a.CloserStep? { CloserStepKeepsClosed(p, s); }
  }

  lemma {:induction false} RunKeepsClosed(p: Closed, s: State, acts: seq<Action>)
    requires ClosedTold(p, s)
    ensures forall s' :: Runs(s, acts, s') ==> ClosedTold(ClosedAfter(p, s, acts), s')
    decreases |acts|
  {
    if acts != [] && Enabled(s, acts[0]) {
      StepKeepsClosed(p, s, acts[0]);
      RunKeepsClosed(ClosedNext(p, s, acts[0]), Next(s, acts[0]), acts[1..]);
    }
  }

  /** In every run, a closer comes to the removal having asked the stack to disconnect exactly if it saw a valid handle,
      and having waited if the stack accepted; and once its call is over, it has taken the connection out of the
      table. */
  lemma DisconnectLeaves(acts: seq<Action>)
    ensures forall s | Runs(Start, acts, s) ::
              var p := ClosedAfter(NothingClosed, Start, acts);
              && (s.closer.CRemove? ==> AskedIfValid(p))
              && (s.closer.CIdle? && p.begun ==> AskedIfValid(p) && p.removed && !s.inTable)
  {
    RunKeepsClosed(NothingClosed, Start, acts);
  }

  // ---------------------------------------------------------------- who is told of congestion

  /** The callback with nobody else at work: it takes the next event and, if it is to notify mCongEvent, goes on for two
      steps. */
  ghost function EventTaken(s: State, client: bool): State
    requires s.queue != []
  {
    var s1 := Delivered(s, client);
    if s1.cb.BEnterCong? then CallbackNext(CallbackNext(s1)) else s1
  }

  /** A CONGEST event wakes a sender that waits exactly if it finds the connection and tells that congestion is over,
      or, for a client, in either case. */
  lemma CongestEventWakes(s: State, client: bool)
    requires s.queue != [] && !s.queue[0].Disc? && s.cb.BIdle? && s.sender.SWaiting?
    ensures EventTaken(s, client).sender.SWoken? <==>
            s.inTable && s.handle == Some(s.queue[0].g) && (client || s.queue[0].Uncongest?)
  {
  }
}
