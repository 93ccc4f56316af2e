/** When a connect status is lost to reSelect: exactly which states, at the moment sConnectOk is reset, leave the
    call a way to succeed, whatever the callback does from then on. */
module ReSelectStatus {
  import opened Common
  import opened ReSelect

  // ---------------------------------------------------------------- the state at the reset

  /** The state just before sConnectOk is reset, the event held. */
  function AtReset(v: Tag, o: Oracle): Tag {
    var e1, c1 := Env(v.e, v.c, At(o, 9)), v.c.(deactivating := false);
    var e2, c2 := Env(e1, c1, At(o, 10)), c1.(held := true);
    var e3, c3 := Env(e2, c2, At(o, 11)), c2.(selecting := true);
    var e4 := Env(e3, c3, At(o, 12)).(waiting := true);
    Tag(Env(e4, c3, At(o, 13)), c3)
  }

  /** The call comes to the reset: it is not done already, the tag is put to sleep, and NFA_Select is accepted. */
  predicate ReachesReset(v: Tag, rf: int, switchIfNeeded: bool, o: Oracle) {
    !(switchIfNeeded && rf == v.c.current) && PutToSleep(Locked(v, o), o).1.None? && o.selects
  }

  function StateAtReset(v: Tag, o: Oracle): Seen { AtReset(PutToSleep(Locked(v, o), o).0, o).e }

  /** Up to the reset the two oracles say the same. */
  predicate SameUpToReset(o: Oracle, o': Oracle) {
    && (forall k: nat :: k <= 13 ==> At(o', k) == At(o, k))
    && o'.detectionTimedOut == o.detectionTimedOut && o'.deactivates == o.deactivates && o'.selects == o.selects
  }

  /** Either the call still waits for a status and the callback is not on its way to write a negative one, or the
      callback has taken the flag for a positive one that it has still to write. */
  predicate WillPass(e: Seen) {
    if e.waiting then !(e.cb.Connect? && !e.cb.ok && !e.cb.at.WriteStatus?)
    else Positive(e.cb) && (e.cb.at.ClearWaiting? || e.cb.at.WriteStatus?)
  }

  // ---------------------------------------------------------------- lost

  predicate Lost(e: Seen) { !WillPass(e) && !e.connectOk }

  lemma {:induction false} LostStays(e: Seen, c: Caller, steps: seq<CallbackStep>)
    requires Lost(e) && c.selecting
    ensures Lost(Env(e, c, steps))
  {
    if steps != [] { LostStays(e, c, steps[..|steps| - 1]); }
  }

  lemma LostFails(e: Seen, c: Caller, rf: int, o: Oracle)
    requires !WillPass(e) && c.selecting
    ensures Selecting(e, c, rf, o).1 != 0
  {
    var e0, c1 := e.(connectOk := false, past := WasReset(e.past)), c.(held := false);
    LostStays(e0, c, At(o, 14));
    var e1 := Env(e0, c, At(o, 14));
    LostStays(e1, c1, At(o, 15));
    LostStays(Env(e1, c1, At(o, 15)), c, At(o, 16));
    var e2 := Env(Env(e1, c1, At(o, 15)), c, At(o, 16));
    LostStays(e2, c1, At(o, 17));
    var e3 := Env(e2, c1, At(o, 17));
    LostStays(e3.(past := WasActive(e3.past)), c1, At(o, 18));
  }

  // ---------------------------------------------------------------- or not

  lemma {:induction false} EnvSooner(v: Seen, c: Caller, a: CallbackStep, steps: seq<CallbackStep>)
    ensures Env(v, c, [a] + steps) == Env(Step(v, c, a), c, steps)
  {
    if steps == [] {
      assert [a] + steps == [a] && [a][..0] == [];
    } else {
      EnvSooner(v, c, a, steps[..|steps| - 1]);
      assert ([a] + steps)[..|steps|] == [a] + steps[..|steps| - 1];
    }
  }

  predicate Passed(e: Seen) { e.connectOk && e.activation.Active? }

  ghost predicate CanPass(e: Seen, c: Caller) { exists steps :: Passed(Env(e, c, steps)) }

  /** What the callback does to bring a positive status: go on with what it is at, else take an activation. */
  function PassNext(e: Seen): CallbackStep { if e.cb.Resting? then Deliver(Activated) else GoOn }

  function PassRank(cb: Callback): nat {
    match cb
    case TestDeactivating => 9
    case WriteDeactivate => 8
    case Notify => 7
    case Resting => 6
    case Connect(at, ok) =>
      match at
      case TestSelecting => 5
      case TestWaiting => 4
      case ClearWaiting => 3
      case WriteStatus => if ok then 2 else 8
  }

  lemma PassNears(e: Seen, c: Caller)
    requires WillPass(e) && c.selecting && !c.held && (Positive(e.cb) ==> e.activation.Active?)
    ensures var e' := Step(e, c, PassNext(e));
            Passed(e') ||
            (WillPass(e') && (Positive(e'.cb) ==> e'.activation.Active?) && PassRank(e'.cb) < PassRank(e.cb))
  {
  }

  lemma {:induction false} PassesIfItWill(e: Seen, c: Caller)
    requires WillPass(e) && c.selecting && !c.held && (Positive(e.cb) ==> e.activation.Active?)
    ensures CanPass(e, c)
    decreases PassRank(e.cb)
  {
    var a := PassNext(e);
    var e' := Step(e, c, a);
    PassNears(e, c);
    var steps := [];
    if !Passed(e') {
      PassesIfItWill(e', c);
      steps :| Passed(Env(e', c, steps));
    }
    EnvSooner(e, c, a, steps);
    assert Passed(Env(e, c, [a] + steps));
  }

  /** As o up to the reset; then nothing, until during the wait the callback does steps, and the wait does not time
      out. */
  function Then(o: Oracle, steps: seq<CallbackStep>): Oracle {
    Oracle(seq(16, (k: nat) => if k <= 13 then At(o, k) else if k == 15 then steps else []),
           o.detectionTimedOut, o.deactivates, o.selects, false)
  }

  lemma ThenPoints(o: Oracle, steps: seq<CallbackStep>)
    ensures SameUpToReset(o, Then(o, steps)) && At(Then(o, steps), 15) == steps
    ensures forall k: nat :: k == 14 || k > 15 ==> At(Then(o, steps), k) == []
  {
  }

  lemma ThenSucceeds(e: Seen, c: Caller, rf: int, o: Oracle)
    requires WillPass(e) && c.selecting && Sound(e, 0)
    ensures exists steps :: Selecting(e, c, rf, Then(o, steps)).1 == 0
  {
    var e0 := e.(connectOk := false, past := WasReset(e.past));
    PassesIfItWill(e0, c.(held := false));
    var steps :| Passed(Env(e0, c.(held := false), steps));
    ThenPoints(o, steps);
    assert Selecting(e, c, rf, Then(o, steps)).1 == 0;
  }

  // ---------------------------------------------------------------- the call

  lemma AtResetSound(v: Tag)
    requires Sound(v.e, 0)
    ensures forall o :: Sound(AtReset(v, o).e, 0) && AtReset(v, o).c.selecting
  {
    forall o ensures Sound(AtReset(v, o).e, 0) && AtReset(v, o).c.selecting {
      EnvKeeps(v.e, v.c, At(o, 9), 0);
      var e1, c1 := Env(v.e, v.c, At(o, 9)), v.c.(deactivating := false);
      EnvKeeps(e1, c1, At(o, 10), 0);
      var e2, c2 := Env(e1, c1, At(o, 10)), c1.(held := true);
      EnvKeeps(e2, c2, At(o, 11), 0);
      var e3, c3 := Env(e2, c2, At(o, 11)), c2.(selecting := true);
      EnvKeeps(e3, c3, At(o, 12), 0);
      EnvKeeps(Env(e3, c3, At(o, 12)).(waiting := true), c3, At(o, 13), 0);
    }
  }

  /** Two oracles that agree up to the reset bring the call to the same state there; from it the call goes on alone. */
  lemma SameReset(v: Tag, rf: int, switchIfNeeded: bool, o: Oracle, o': Oracle)
    requires ReachesReset(v, rf, switchIfNeeded, o) && SameUpToReset(o, o')
    ensures var w := AtReset(PutToSleep(Locked(v, o), o).0, o);
            Call(v, rf, switchIfNeeded, o').1 == Selecting(w.e, w.c, rf, o').1
  {
    assert Locked(v, o') == Locked(v, o);
    SameSleep(Locked(v, o), o, o');
    var v2 := PutToSleep(Locked(v, o), o).0;
    assert AtReset(v2, o') == AtReset(v2, o);
    assert WakeUp(v2, rf, o') == Selecting(AtReset(v2, o).e, AtReset(v2, o).c, rf, o');
  }

  lemma SameSleep(v: Tag, o: Oracle, o': Oracle)
    requires SameUpToReset(o, o')
    ensures PutToSleep(v, o') == PutToSleep(v, o)
  {
  }

  /** Once a call has come to the reset of sConnectOk, some behaviour of the callback from there on makes it succeed
      exactly if WillPass holds at that moment; otherwise the status is lost, and the call fails whatever comes. */
  lemma StatusPassesExactly(v: Tag, rf: int, switchIfNeeded: bool, o: Oracle)
    requires Quiet(v) && Sound(v.e, 0) && ReachesReset(v, rf, switchIfNeeded, o)
    ensures (exists o' :: SameUpToReset(o, o') && Call(v, rf, switchIfNeeded, o').1 == 0) <==>
            WillPass(StateAtReset(v, o))
  {
    LockedKeeps(v);
    SleepResult(Locked(v, o));
    var v2 := PutToSleep(Locked(v, o), o).0;
    AtResetSound(v2);
    var w := AtReset(v2, o);
    if WillPass(w.e) {
      ThenSucceeds(w.e, w.c, rf, o);
      var steps :| Selecting(w.e, w.c, rf, Then(o, steps)).1 == 0;
      ThenPoints(o, steps);
      SameReset(v, rf, switchIfNeeded, o, Then(o, steps));
    } else {
      forall o' | SameUpToReset(o, o') ensures Call(v, rf, switchIfNeeded, o').1 != 0 {
        SameReset(v, rf, switchIfNeeded, o, o');
        LostFails(w.e, w.c, rf, o');
      }
    }
  }

  // ---------------------------------------------------------------- a status in time, and one too soon

  /** The tag falls asleep, and the callback is done with it. */
  const FellAsleep := [Deliver(Deactivated(true)), GoOn, GoOn, GoOn]

  /** The tag is active again, and the callback is about to notify, which it can do only outside the guard. */
  const CameBack := [Deliver(Activated), GoOn, GoOn, GoOn, GoOn]

  /** The deactivation comes during the first wait; the activation during the second wait, or else after NFA_Select
      and before the reset of sConnectOk. */
  function Play(inTime: bool): Oracle {
    Oracle([[], [], [], [], [], FellAsleep, [], [], [], [], [], [], [],
            if inTime then [] else CameBack, [], if inTime then CameBack else [GoOn]], false, true, true, false)
  }

  lemma PlayPoints(inTime: bool)
    ensures forall k: nat :: k != 5 && k != 13 && k != 15 ==> At(Play(inTime), k) == []
    ensures At(Play(inTime), 5) == FellAsleep
    ensures At(Play(inTime), 13) == if inTime then [] else CameBack
    ensures At(Play(inTime), 15) == if inTime then CameBack else [GoOn]
  {
  }

  lemma EnvOneMore(v: Seen, c: Caller, steps: seq<CallbackStep>, w: Seen, a: CallbackStep)
    requires Env(v, c, steps) == w
    ensures Env(v, c, steps + [a]) == Step(w, c, a)
  {
    assert (steps + [a])[..|steps|] == steps;
  }

  lemma GoesOn(v: Seen, c: Caller, steps: seq<CallbackStep>, w: Seen, more: seq<CallbackStep>)
    requires Env(v, c, steps) == w && more == steps + [GoOn]
    ensures Env(v, c, more) == Continue(w, c)
  {
    EnvOneMore(v, c, steps, w, GoOn);
  }

  lemma Begins(v: Seen, c: Caller, d: CallbackStep)
    requires v.cb.Resting? && d.Deliver?
    ensures Env(v, c, [d]) == Begin(v, d.e)
  {
    EnvOneMore(v, c, [], v, d);
    assert [] + [d] == [d];
  }

  lemma Rests(v: Seen, c: Caller)
    requires v.cb.Notify? && !c.held
    ensures Env(v, c, [GoOn]) == v.(cb := Resting)
  {
    GoesOn(v, c, [], v, [GoOn]);
  }

  lemma FallsAsleep(v: Seen, c: Caller)
    requires v.cb.Resting? && c.deactivating && !c.held
    ensures Env(v, c, FellAsleep) ==
            v.(activation := Sleep, gotDeactivate := true, past := GotDeactivate(Began(v.past, Deactivated(true))))
  {
    var d := Deliver(Deactivated(true));
    var w := Begin(v, d.e);
    Begins(v, c, d);
    GoesOn(v, c, [d], w, [d, GoOn]);
    GoesOn(v, c, [d, GoOn], w.(cb := WriteDeactivate), [d, GoOn, GoOn]);
    GoesOn(v, c, [d, GoOn, GoOn], w.(cb := Notify, gotDeactivate := true, past := GotDeactivate(w.past)), FellAsleep);
  }

  lemma ComesBack(v: Seen, c: Caller)
    requires v.cb.Resting? && c.selecting && v.waiting
    ensures Env(v, c, CameBack) ==
            v.(activation := Active, connectOk := true, waiting := false, cb := Notify,
                past := GotOk(Began(v.past, Activated)))
  {
    var d := Deliver(Activated);
    var w := Begin(v, d.e);
    Begins(v, c, d);
    GoesOn(v, c, [d], w, [d, GoOn]);
    GoesOn(v, c, [d, GoOn], w.(cb := Connect(TestWaiting, true)), [d, GoOn, GoOn]);
    GoesOn(v, c, [d, GoOn, GoOn], w.(cb := Connect(ClearWaiting, true)), [d, GoOn, GoOn, GoOn]);
    GoesOn(v, c, [d, GoOn, GoOn, GoOn], w.(cb := Connect(WriteStatus, true), waiting := false), CameBack);
  }

  /** A selection that fails while the call waits ends the wait with a negative status, and the call cannot succeed. */
  lemma FailedSelectionLoses(v: Seen, c: Caller)
    requires v.cb.Resting? && c.selecting && v.waiting
    ensures var e := Env(v, c, [Deliver(SelectFailed), GoOn, GoOn, GoOn, GoOn]);
            && e == v.(connectOk := false, waiting := false, cb := Notify, past := Began(v.past, SelectFailed))
            && Lost(e)
  {
    var d := Deliver(SelectFailed);
    var w := Begin(v, d.e);
    Begins(v, c, d);
    GoesOn(v, c, [d], w, [d, GoOn]);
    GoesOn(v, c, [d, GoOn], w.(cb := Connect(TestWaiting, false)), [d, GoOn, GoOn]);
    GoesOn(v, c, [d, GoOn, GoOn], w.(cb := Connect(ClearWaiting, false)), [d, GoOn, GoOn, GoOn]);
    GoesOn(v, c, [d, GoOn, GoOn, GoOn], w.(cb := Connect(WriteStatus, false), waiting := false),
        [d, GoOn, GoOn, GoOn, GoOn]);
  }

  lemma PlaySleeps(v: Tag, inTime: bool)
    requires v.e.cb.Resting? && v.c.locked && !v.c.held
    ensures var (v', lost) := PutToSleep(v, Play(inTime));
            lost.None? && v'.e.cb.Resting? && v'.c.locked && !v'.c.held && v'.c.current == v.c.current
  {
    PlayPoints(inTime);
    FallsAsleep(NotGot(v.e), v.c.(deactivating := true, held := false));
  }

  /** What the second half comes to in a play, and what the reset finds. */
  predicate Woken(v: Tag, rf: int, inTime: bool) {
    var (v', r) := WakeUp(v, rf, Play(inTime));
    && v'.e.activation.Active? && WillPass(AtReset(v, Play(inTime)).e) == inTime
    && (if inTime then r == 0 && v'.c.current == rf else r == 1 && v'.c.current == v.c.current)
  }

  lemma PlayWakes(v: Tag, inTime: bool)
    requires v.e.cb.Resting? && v.c.locked && !v.c.held
    ensures forall rf :: Woken(v, rf, inTime)
  {
    PlayPoints(inTime);
    var e, c := v.e.(waiting := true), v.c.(deactivating := false, held := true, selecting := true);
    if inTime {
      ComesBack(e.(connectOk := false, past := WasReset(e.past)), c.(held := false));
    } else {
      ComesBack(e, c);
      var e5 := Env(e, c, CameBack);
      Rests(e5.(connectOk := false, past := WasReset(e5.past)), c.(held := false));
    }
  }

  predicate Witness(rf: int, old_rf: int, inTime: bool) {
    var (v, r) := Call(Initial(old_rf), rf, true, Play(inTime));
    && v.e.activation.Active? && (if inTime then r == 0 && v.c.current == rf else r == 1 && v.c.current == old_rf)
    && ReachesReset(Initial(old_rf), rf, true, Play(inTime))
    && WillPass(StateAtReset(Initial(old_rf), Play(inTime))) == inTime
  }

  /** A witness of both cases: in either play the tag is active in the end with the interface asked for.  The call
      succeeds if the status came in time; if it came before the reset it is lost, and the call fails. */
  lemma EarlyStatusLost(rf: int, old_rf: int)
    requires rf != old_rf
    ensures forall inTime :: Witness(rf, old_rf, inTime)
  {
    forall inTime ensures Witness(rf, old_rf, inTime) {
      PlayPoints(inTime);
      var v1 := Locked(Initial(old_rf), Play(inTime));
      PlaySleeps(v1, inTime);
      PlayWakes(PutToSleep(v1, Play(inTime)).0, inTime);
      assert Woken(PutToSleep(v1, Play(inTime)).0, rf, inTime);
    }
  }
}
