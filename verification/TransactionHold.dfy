/** The payment-transaction hold of NativeNfcManager.cpp: while a payment is believed to be in progress, requests to
    turn discovery on or off are stored, and a thread started at the end of the payment replays the last one. */
module TransactionHold {
  import opened Common
  import opened TimeArithmetic

  const TIMER_VALUE := 50

  datatype Phase =
    | DEFAULT | ACTIVATED | EE_ACTION | FIELD_EVT_ON | TRANS_START | FIELD_EVT_OFF | TRANS_PROGRESS | TRANS_END

  /** last_request: nothing, enable (1) or disable (2). */
  datatype Request = Nothing | Enable | Disable

  datatype Interface = Frame | EseDirect | OtherInterface

  /** An event handed to checkforTranscation, with what the system calls it makes answer: the clock's reading, and
      whether the thread could be created. */
  datatype Event =
    | Activated(intf: Interface)
    | EeAction
    | RfField(ok: bool, on: bool, clock: Option<Timespec>, threadMade: bool)

  datatype Data = Data(start_time: Timespec, end_time: Timespec, trans_in_progress: bool, last_request: Request,
                       phase: Phase, nat_data: Option<int>)

  const Zero := Data(Timespec(0, 0), Timespec(0, 0), false, Nothing, DEFAULT, None)

  // ---------------------------------------------------------------- what the handler does, as a function

  predicate Qualifies(e: Event) { e.Activated? && !e.intf.OtherInterface? }
  predicate FieldOff(e: Event) { e.RfField? && e.ok && !e.on }
  predicate FieldOn(e: Event) { e.RfField? && e.ok && e.on }

  /** stop_timer: all ones when the clock cannot be read. */
  function StopTimer(d: Data, clock: Option<Timespec>): (Data, int) {
    match clock
    case None => (d, WORD - 1)
    case Some(now) => (d.(end_time := Difference(d.start_time, now)), ElapsedMs(d.start_time, now))
  }

  /** The state after one event up to the final test, and whether a thread is started. */
  function Handled(d: Data, e: Event): (Data, bool) {
    if Qualifies(e) then (d.(phase := ACTIVATED), false)
    else if e.EeAction? && d.phase.ACTIVATED? then (d.(phase := EE_ACTION), false)
    else if FieldOff(e) && d.phase.EE_ACTION? then
      (d.(phase := FIELD_EVT_OFF, start_time := if e.clock.Some? then e.clock.value else d.start_time), false)
    else if FieldOn(e) && d.phase.FIELD_EVT_OFF? then
      var (d', ms) := StopTimer(d, e.clock);
      if ms <= TIMER_VALUE then (d'.(trans_in_progress := true, phase := TRANS_START), false)
      else (d'.(phase := TRANS_END), false)
    else if FieldOff(e) && d.phase.TRANS_START? then
      if e.threadMade then (d.(phase := TRANS_PROGRESS), true) else (d.(phase := TRANS_END), false)
    else (d, false)
  }

  function Checked(d: Data, e: Event): (Data, bool) {
    var (d', started) := Handled(d, e);
    (if d'.phase.TRANS_END? then Zero else d', started)
  }

  /** set_last_request. */
  function Stored(d: Data, r: Request, nat_data: Option<int>): Data {
    d.(last_request := r, nat_data := if nat_data.Some? then nat_data else d.nat_data)
  }

  // ---------------------------------------------------------------- the record in place

  class TransactionCheck {
    var start_time: Timespec
    var end_time: Timespec
    var trans_in_progress: bool
    var last_request: Request
    var current_transcation_state: Phase
    var transaction_nat: Option<int>

    constructor ()
      ensures Val() == Zero
    {
      start_time, end_time, trans_in_progress := Timespec(0, 0), Timespec(0, 0), false;
      last_request, current_transcation_state, transaction_nat := Nothing, DEFAULT, None;
    }

    function Val(): Data reads this {
      Data(start_time, end_time, trans_in_progress, last_request, current_transcation_state, transaction_nat)
    }

    method Clear()
      modifies this
      ensures Val() == Zero
    {
      start_time, end_time, trans_in_progress := Timespec(0, 0), Timespec(0, 0), false;
      last_request, current_transcation_state, transaction_nat := Nothing, DEFAULT, None;
    }

    method StopTimerNow(clock: Option<Timespec>) returns (ms: nat)
      requires clock.Some? ==> InRange(start_time, clock.value)
      modifies this
      ensures (Val(), ms as int) == StopTimer(old(Val()), clock)
    {
      match clock {
        case None => return WORD - 1;
        case Some(now) =>
          end_time := Timespec(now.tv_sec - start_time.tv_sec, now.tv_nsec - start_time.tv_nsec);
          if end_time.tv_nsec < 0 {
            end_time := Timespec(end_time.tv_sec - 1, end_time.tv_nsec + SECOND);
          }
          RealMillisIs(end_time);
          ms := RealMillis(end_time);
      }
    }

    /** checkforTranscation.  A failing start_timer changes nothing: the assignment meant to end the
        transaction there is a comparison. */
    method CheckForTransaction(e: Event) returns (started: bool)
      requires current_transcation_state.FIELD_EVT_OFF? && FieldOn(e) && e.clock.Some? ==>
          InRange(start_time, e.clock.value)
      modifies this
      ensures (Val(), started) == Checked(old(Val()), e)
    {
      started := false;
      match e {
        case Activated(intf) =>
          if intf.Frame? || intf.EseDirect? {
            current_transcation_state := ACTIVATED;
          }
        case EeAction =>
          if current_transcation_state.ACTIVATED? {
            current_transcation_state := EE_ACTION;
          }
        case RfField(ok, on, clock, threadMade) =>
          if ok && current_transcation_state.EE_ACTION? && !on {
            current_transcation_state := FIELD_EVT_OFF;
            if clock.Some? {
              start_time := clock.value;
            }
          } else if ok && current_transcation_state.FIELD_EVT_OFF? && on {
            current_transcation_state := FIELD_EVT_ON;
            var time_millisec := StopTimerNow(clock);
            if time_millisec <= TIMER_VALUE {
              trans_in_progress := true;
              current_transcation_state := TRANS_START;
            } else {
              current_transcation_state := TRANS_END;
            }
          } else if ok && current_transcation_state.TRANS_START? && !on {
            current_transcation_state := TRANS_PROGRESS;
            if threadMade {
              started := true;
            } else {
              current_transcation_state := TRANS_END;
            }
          }
      }
      if current_transcation_state.TRANS_END? {
        trans_in_progress := false;
        current_transcation_state := DEFAULT;
        Clear();
      }
    }

    /** The head of enableDiscovery and disableDiscovery: under the hold the request is stored and nothing else. */
    method DeferOrGoOn(r: Request, nat_data: Option<int>) returns (deferred: bool)
      modifies this
      ensures deferred == old(trans_in_progress)
      ensures Val() == if deferred then Stored(old(Val()), r, nat_data) else old(Val())
    {
      deferred := trans_in_progress;
      if deferred {
        last_request := r;
        if nat_data.Some? {
          transaction_nat := nat_data;
        }
      }
    }

    /** enableThread with nothing in between: the last request is replayed exactly once, with the hold off, and the
        record is zero afterwards. */
    method EnableThread() returns (replayed: Request)
      modifies this
      ensures replayed == old(last_request) && Val() == Zero
    {
      var last := last_request;
      trans_in_progress := false;
      replayed := Nothing;
      if last != Nothing {
        var deferred := DeferOrGoOn(last, if last.Enable? then transaction_nat else None);
        if !deferred {
          replayed := last;
        }
      }
      current_transcation_state := TRANS_END;
      current_transcation_state := DEFAULT;
      Clear();
    }
  }

  // ---------------------------------------------------------------- interleaved steps

  /** A replay thread; k is what it read, at is the place of that request among the deferred ones. */
  datatype Thread =
    | Sleeping
    | Clearing(k: Request, at: int)
    | Replaying(k: Request, at: int)
    | Marking
    | Defaulting
    | Wiping
    | Gone

  datatype Ask = Ask(r: Request, nat_data: Option<int>)

  /** A replay: by which thread, and of which stored request. */
  datatype Replay = Replay(thread: nat, at: int)

  /** The record, the replay threads, the callers between the test of the hold and the store, and two histories:
      every request stored, and the replays performed. */
  datatype State = State(d: Data, threads: seq<Thread>, asking: seq<Ask>, deferred: seq<Request>, replays: seq<Replay>)

  const Start := State(Zero, [], [], [], [])

  datatype Action = Stack(e: Event) | Test(ask: Ask) | Store(i: nat) | Step(i: nat)

  function StoreAsk(s: State, a: Ask): State {
    s.(d := Stored(s.d, a.r, a.nat_data), deferred := s.deferred + [a.r])
  }

  function ThreadNext(s: State, i: nat): State
    requires i < |s.threads|
  {
    match s.threads[i]
    case Sleeping => s.(threads := s.threads[i := Clearing(s.d.last_request, |s.deferred| - 1)])
    case Clearing(k, at) => s.(threads := s.threads[i := Replaying(k, at)], d := s.d.(trans_in_progress := false))
    case Replaying(k, at) =>
      var s' := s.(threads := s.threads[i := Marking]);
      if k.Nothing? then s'
      else if s.d.trans_in_progress then StoreAsk(s', Ask(k, if k.Enable? then s.d.nat_data else None))
      else s'.(replays := s.replays + [Replay(i, at)])
    case Marking => s.(threads := s.threads[i := Defaulting], d := s.d.(phase := TRANS_END))
    case Defaulting => s.(threads := s.threads[i := Wiping], d := s.d.(phase := DEFAULT))
    case Wiping => s.(threads := s.threads[i := Gone], d := Zero)
    case Gone => s
  }

  /** A request is enable or disable; a step that names nobody changes nothing. */
  function Next(s: State, a: Action): State {
    match a
    case Stack(e) =>
      var (d', started) := Checked(s.d, e);
      s.(d := d', threads := if started then s.threads + [Sleeping] else s.threads)
    case Test(ask) => if s.d.trans_in_progress && !ask.r.Nothing? then s.(asking := s.asking + [ask]) else s
    case Store(i) =>
      if i < |s.asking| then StoreAsk(s.(asking := s.asking[..i] + s.asking[i + 1..]), s.asking[i]) else s
    case Step(i) => if i < |s.threads| then ThreadNext(s, i) else s
  }

  function After(acts: seq<Action>): State {
    if acts == [] then Start else Next(After(acts[..|acts| - 1]), acts[|acts| - 1])
  }

  // ---------------------------------------------------------------- when the hold is set

  /** An activation by the frame interface or directly by a secure element. */
  predicate CardActivation(a: Action) { a == Stack(Activated(Frame)) || a == Stack(Activated(EseDirect)) }

  /** Event i is such an activation and none follows it. */
  predicate LatestActivation(acts: seq<Action>, i: nat) {
    i < |acts| && CardActivation(acts[i]) && forall m :: i < m < |acts| ==> !CardActivation(acts[m])
  }

  predicate EeActionAt(acts: seq<Action>, j: nat) { j < |acts| && acts[j] == Stack(EeAction) }
  predicate FieldOffAt(acts: seq<Action>, k: nat) {
    k < |acts| && acts[k].Stack? && acts[k].e.RfField? && acts[k].e.ok && !acts[k].e.on
  }

  /** What the timer holds after a field-off from state s: the time of the event, or, if the clock could not be read,
      whatever it held before. */
  function TimerAfter(s: State, off: Event): Timespec
    requires off.RfField?
  {
    if off.clock.Some? then off.clock.value else s.d.start_time
  }

  /** The field went off at event k, after an EE action, after the latest activation; the timer holds what k left. */
  predicate Armed(acts: seq<Action>, i: nat, j: nat, k: nat, start: Timespec) {
    && LatestActivation(acts, i) && i < j < k && EeActionAt(acts, j) && FieldOffAt(acts, k)
    && start == TimerAfter(After(acts[..k]), acts[k].e)
  }

  ghost predicate Traced(acts: seq<Action>, d: Data) {
    match d.phase
    case ACTIVATED => exists i: nat :: LatestActivation(acts, i)
    case EE_ACTION => exists i: nat, j: nat :: LatestActivation(acts, i) && i < j && EeActionAt(acts, j)
    case FIELD_EVT_OFF => exists i: nat, j: nat, k: nat :: Armed(acts, i, j, k, d.start_time)
    case _ => true
  }

  lemma StillLatest(acts: seq<Action>, i: nat, a: Action)
    requires LatestActivation(acts, i) && !(a.Stack? && Qualifies(a.e))
    ensures LatestActivation(acts + [a], i)
  {
  }

  /** What the record says of the past stays true when nothing but an event can advance its phase. */
  lemma TracedStays(acts: seq<Action>, d: Data, d': Data, a: Action)
    requires Traced(acts, d) && !(a.Stack? && Qualifies(a.e))
    requires d'.phase == d.phase && (d.phase.FIELD_EVT_OFF? ==> d'.start_time == d.start_time)
    ensures Traced(acts + [a], d')
  {
    match d.phase
    case ACTIVATED =>
      var i: nat :| LatestActivation(acts, i);
      StillLatest(acts, i, a);
    case EE_ACTION =>
      var i: nat, j: nat :| LatestActivation(acts, i) && i < j && EeActionAt(acts, j);
      StillLatest(acts, i, a);
      assert EeActionAt(acts + [a], j);
    case FIELD_EVT_OFF =>
      var i: nat, j: nat, k: nat :| Armed(acts, i, j, k, d.start_time);
      StillLatest(acts, i, a);
      assert (acts + [a])[..k] == acts[..k];
      assert Armed(acts + [a], i, j, k, d'.start_time);
    case _ =>
  }

  lemma EventTraced(acts: seq<Action>, d: Data)
    requires Traced(acts, d) && d == After(acts).d
    ensures forall e :: Traced(acts + [Stack(e)], Checked(d, e).0)
  {
    forall e ensures Traced(acts + [Stack(e)], Checked(d, e).0) {
      var a, n, more := Stack(e), |acts|, acts + [Stack(e)];
      if Qualifies(e) {
        assert LatestActivation(more, n);
      } else if e.EeAction? && d.phase.ACTIVATED? {
        var i: nat :| LatestActivation(acts, i);
        StillLatest(acts, i, a);
        assert EeActionAt(more, n);
      } else if FieldOff(e) && d.phase.EE_ACTION? {
        var i: nat, j: nat :| LatestActivation(acts, i) && i < j && EeActionAt(acts, j);
        StillLatest(acts, i, a);
        assert EeActionAt(more, j) && FieldOffAt(more, n) && more[..n] == acts;
        assert Armed(more, i, j, n, Checked(d, e).0.start_time);
      } else {
        if Checked(d, e).0.phase == d.phase { TracedStays(acts, d, Checked(d, e).0, a); }
      }
    }
  }

  lemma {:induction false} RunsTraced(acts: seq<Action>)
    ensures Traced(acts, After(acts).d)
  {
    if acts != [] {
      var n := |acts| - 1;
      var s, a := After(acts[..n]), acts[n];
      RunsTraced(acts[..n]);
      assert acts[..n] + [a] == acts;
      if a.Stack? {
        EventTraced(acts[..n], s.d);
      } else if Next(s, a).d.phase == s.d.phase && Next(s, a).d.start_time == s.d.start_time {
        TracedStays(acts[..n], s.d, Next(s, a).d, a);
      }
    }
  }

  /** In any run, a step that sets the hold is a field-on event that follows a field-off that follows an EE
      action that follows the latest qualifying activation; and the clock now is at most 50 whole milliseconds after
      what the timer held since that field-off: its time, or a stale one if the clock could not be read then. */
  lemma HoldIsQualified(acts: seq<Action>, a: Action)
    requires !After(acts).d.trans_in_progress && Next(After(acts), a).d.trans_in_progress
    ensures a.Stack? && a.e.RfField? && a.e.ok && a.e.on && a.e.clock.Some?
    ensures exists i: nat, j: nat, k: nat, start: Timespec :: Armed(acts, i, j, k, start) &&
              Ns(a.e.clock.value) - Ns(start) < 51 * MILLI
  {
    RunsTraced(acts);
    var d := After(acts).d;
    var i: nat, j: nat, k: nat :| Armed(acts, i, j, k, d.start_time);
  }

  /** Conversely, from any state, these four events in a row hold exactly if the clock could be read at the last and at
      most 50 whole milliseconds passed since what the timer held then; otherwise a hold that was on is given up. */
  lemma FourEventsHold(s: State, activated: Event, off: Event, on: Event)
    requires CardActivation(Stack(activated))
    requires off.RfField? && off.ok && !off.on && on.RfField? && on.ok && on.on
    ensures var s' := Next(Next(Next(Next(s, Stack(activated)), Stack(EeAction)), Stack(off)), Stack(on));
            s'.d.trans_in_progress <==>
                on.clock.Some? && ElapsedMs(TimerAfter(s, off), on.clock.value) <= 50
  {
    var d1 := s.d.(phase := ACTIVATED);
    assert Checked(s.d, activated) == (d1, false);
    var d2 := d1.(phase := EE_ACTION);
    assert Checked(d1, EeAction) == (d2, false);
    assert Checked(d2, off) == (d2.(phase := FIELD_EVT_OFF, start_time := TimerAfter(s, off)), false);
  }

  /** Any other activation, and any field event with an error, leaves phase and hold as they are, except that a record
      whose thread has marked the end is zeroed by any event. */
  lemma OthersIgnored(s: State, e: Event)
    requires e == Activated(OtherInterface) || (e.RfField? && !e.ok)
    ensures Next(s, Stack(e)) == if s.d.phase.TRANS_END? then s.(d := Zero) else s
  {
  }

  // ---------------------------------------------------------------- what is replayed

  /** The thread carries the request it read, at its place among the deferred ones. */
  predicate Reads(t: Thread, deferred: seq<Request>) {
    t.Clearing? || t.Replaying? ==> t.k.Nothing? || (0 <= t.at < |deferred| && deferred[t.at] == t.k)
  }

  ghost predicate LatestKept(s: State) {
    && (!s.d.last_request.Nothing? ==> s.deferred != [] && s.deferred[|s.deferred| - 1] == s.d.last_request)
    && (forall i :: 0 <= i < |s.asking| ==> !s.asking[i].r.Nothing?)
    && (forall i :: 0 <= i < |s.threads| ==> Reads(s.threads[i], s.deferred))
    && (forall i :: 0 <= i < |s.replays| ==> 0 <= s.replays[i].at < |s.deferred|)
  }

  lemma StepKeepsLatest(s: State, a: Action)
    requires LatestKept(s)
    ensures LatestKept(Next(s, a))
  {
    if a.Step? && a.i < |s.threads| {
      var s' := Next(s, a);
      assert forall i :: 0 <= i < |s.threads| && i != a.i ==> s'.threads[i] == s.threads[i];
      assert Reads(s.threads[a.i], s.deferred);
    }
  }

  lemma {:induction false} RunsKeepLatest(acts: seq<Action>)
    ensures LatestKept(After(acts))
  {
    if acts != [] {
      RunsKeepLatest(acts[..|acts| - 1]);
      StepKeepsLatest(After(acts[..|acts| - 1]), acts[|acts| - 1]);
    }
  }

  /** In any run, a thread that reads the stored request reads nothing or the latest of all requests deferred so far. */
  lemma ReadsTheLatest(acts: seq<Action>, i: nat)
    requires i < |After(acts).threads| && After(acts).threads[i].Sleeping?
    ensures var s := After(acts); var t := Next(s, Step(i)).threads[i];
            t.k.Nothing? || (t.at == |s.deferred| - 1 >= 0 && s.deferred[t.at] == t.k)
  {
    RunsKeepLatest(acts);
  }

  /** A replay happens only with the hold off, and is of the request its thread read, at that request's place. */
  lemma ReplayIsOfWhatWasRead(acts: seq<Action>, a: Action)
    requires Next(After(acts), a).replays != After(acts).replays
    ensures var s := After(acts);
            && a.Step? && a.i < |s.threads| && s.threads[a.i].Replaying? && !s.d.trans_in_progress
            && 0 <= s.threads[a.i].at < |s.deferred| && s.deferred[s.threads[a.i].at] == s.threads[a.i].k
            && Next(s, a).replays == s.replays + [Replay(a.i, s.threads[a.i].at)]
  {
    RunsKeepLatest(acts);
  }

  // ---------------------------------------------------------------- at most once

  /** The thread is between its read and its wipe. */
  predicate Working(t: Thread) { !t.Sleeping? && !t.Gone? }

  predicate OneThread(s: State) {
    forall i, j :: 0 <= i < j < |s.threads| ==> !Working(s.threads[i]) || !Working(s.threads[j])
  }

  /** No replay thread reads while another is between its read and its wipe. */
  predicate Apart(acts: seq<Action>) {
    OneThread(After(acts)) && (acts == [] || Apart(acts[..|acts| - 1]))
  }

  /** The stored request was replayed, and waits to be wiped. */
  predicate Spent(t: Thread) { t.Marking? || t.Defaulting? || t.Wiping? }

  predicate Carries(t: Thread) { (t.Clearing? || t.Replaying?) && !t.k.Nothing? }

  ghost predicate OnceInv(s: State) {
    && (forall m, n :: 0 <= m < n < |s.replays| ==> s.replays[m].at < s.replays[n].at)
    && (forall i, m :: 0 <= i < |s.threads| && 0 <= m < |s.replays| && Carries(s.threads[i]) ==>
          s.replays[m].at < s.threads[i].at)
    && ((forall i :: 0 <= i < |s.threads| ==> !Spent(s.threads[i])) && !s.d.last_request.Nothing? ==>
          forall m :: 0 <= m < |s.replays| ==> s.replays[m].at < |s.deferred| - 1)
  }

  lemma ThreadKeepsOnce(s: State, i: nat)
    requires OnceInv(s) && LatestKept(s) && i < |s.threads| && !s.threads[i].Replaying?
    requires OneThread(s) && OneThread(ThreadNext(s, i))
    ensures OnceInv(ThreadNext(s, i))
  {
    var s' := ThreadNext(s, i);
    assert forall j :: 0 <= j < |s.threads| && j != i ==> s'.threads[j] == s.threads[j];
    if s.threads[i].Sleeping? {
      assert Working(s'.threads[i]);
      assert forall j :: 0 <= j < |s.threads| && j != i ==> !Working(s'.threads[j]);
    } else {
      assert Carries(s'.threads[i]) ==> Carries(s.threads[i]) && s'.threads[i].at == s.threads[i].at;
      assert !s.threads[i].Wiping? ==> forall j :: 0 <= j < |s.threads| && Spent(s.threads[j]) ==> Spent(s'.threads[j]);
    }
  }

  lemma ReplayKeepsOnce(s: State, i: nat)
    requires OnceInv(s) && LatestKept(s) && OneThread(s) && i < |s.threads| && s.threads[i].Replaying?
    ensures OnceInv(ThreadNext(s, i))
  {
    var s' := ThreadNext(s, i);
    assert Working(s.threads[i]);
    assert forall j :: 0 <= j < |s.threads| && j != i ==> s'.threads[j] == s.threads[j] && !Working(s.threads[j]);
    assert Spent(s'.threads[i]);
  }

  lemma StepKeepsOnce(s: State)
    requires OnceInv(s) && LatestKept(s) && OneThread(s)
    ensures forall a | OneThread(Next(s, a)) :: OnceInv(Next(s, a))
  {
    forall a | OneThread(Next(s, a)) ensures OnceInv(Next(s, a)) {
      match a
      case Step(i) =>
        if i < |s.threads| {
          if s.threads[i].Replaying? { ReplayKeepsOnce(s, i); } else { ThreadKeepsOnce(s, i); }
        }
      case Stack(e) =>
        var s' := Next(s, a);
        assert forall j :: 0 <= j < |s.threads| ==> s'.threads[j] == s.threads[j];
      case _ =>
    }
  }

  lemma {:induction false} RunsKeepOnce(acts: seq<Action>)
    requires Apart(acts)
    ensures OnceInv(After(acts))
  {
    if acts != [] {
      RunsKeepOnce(acts[..|acts| - 1]);
      RunsKeepLatest(acts[..|acts| - 1]);
      StepKeepsOnce(After(acts[..|acts| - 1]));
    }
  }

  /** As long as no replay thread reads between another's read and its wipe, no deferred request is replayed twice, and
      replays are in order. */
  lemma ReplayedAtMostOnce(acts: seq<Action>, m: nat, n: nat)
    requires Apart(acts) && m < n < |After(acts).replays|
    ensures After(acts).replays[m].at < After(acts).replays[n].at
  {
    RunsKeepOnce(acts);
  }

  /** A thread that is not interrupted replays the latest request deferred, if one is stored, and leaves zeros. */
  lemma UninterruptedReplaysLatest(s: State, i: nat)
    requires LatestKept(s) && i < |s.threads| && s.threads[i].Sleeping?
    ensures var s' := Next(Next(Next(Next(Next(Next(s, Step(i)), Step(i)), Step(i)), Step(i)), Step(i)), Step(i));
            && s' == State(Zero, s.threads[i := Gone], s.asking, s.deferred, s'.replays)
            && s'.replays == s.replays + if s.d.last_request.Nothing? then [] else [Replay(i, |s.deferred| - 1)]
  {
    var k, at := s.d.last_request, |s.deferred| - 1;
    var s1 := Next(s, Step(i));
    assert s1.threads[i] == Clearing(k, at);
    var s2 := Next(s1, Step(i));
    assert s2 == s.(threads := s.threads[i := Replaying(k, at)], d := s.d.(trans_in_progress := false));
    var s3 := Next(s2, Step(i));
    assert s3.threads == s.threads[i := Marking] && s3.d == s2.d;
    var s4 := Next(s3, Step(i));
    assert s4.threads == s.threads[i := Defaulting];
    var s5 := Next(s4, Step(i));
    assert s5.threads == s.threads[i := Wiping];
    assert Next(s5, Step(i)).threads == s.threads[i := Gone];
  }
}
