/** PowerSwitch.cpp: the power level the software believes in, the state the controller was told to be in, and the
    state expected from the change under way.  setLevel may let go of its mutex to wait for a deactivation, so it is
    cut there into a head and a tail. */
module PowerSwitch {
  import opened Common

  datatype Level = UNKNOWN_LEVEL | FULL_POWER | LOW_POWER | POWER_OFF
  datatype Mode = STATE_UNKNOWN | MODE_FULL | MODE_OFF_SLEEP

  /** How a call to the stack ends: refused, or accepted and then a mode event or abort() ends the wait. */
  datatype Reply = Refused | EventOk | EventFailed | Aborted

  datatype Power = Power(level: Level, mode: Mode, expected: Mode, desired: int)

  const Unset := Power(UNKNOWN_LEVEL, STATE_UNKNOWN, STATE_UNKNOWN, 0)

  // ---------------------------------------------------------------- the operations, as functions

  function Initialized(p: Power, level: Level, config: Option<int>): Power {
    var p1 := if config.Some? then p.(desired := config.value) else p;
    match level
    case FULL_POWER => p1.(mode := MODE_FULL, level := FULL_POWER)
    case UNKNOWN_LEVEL => p1.(mode := STATE_UNKNOWN, level := UNKNOWN_LEVEL)
    case _ => p1
  }

  function ModeEvent(p: Power, ok: bool): Power { if ok then p.(mode := p.expected) else p }

  function Awaited(p: Power, reply: Reply): Power {
    match reply
    case EventOk => ModeEvent(p, true)
    case EventFailed => ModeEvent(p, false)
    case _ => p
  }

  function SleepState(p: Power, sleep: bool, reply: Reply): (Power, bool) {
    if sleep then
      if p.mode.MODE_OFF_SLEEP? then (p, false)
      else if reply.Refused? then (p.(expected := MODE_OFF_SLEEP), false)
      else (Awaited(p.(expected := MODE_OFF_SLEEP), reply).(level := LOW_POWER), true)
    else
      if p.mode.MODE_FULL? then (p, false)
      else
        var p1 := p.(mode := STATE_UNKNOWN, expected := MODE_FULL);
        if reply.Refused? then (p1, false)
        else
          var p2 := Awaited(p1, reply);
          if p2.mode.MODE_FULL? then (p2.(level := FULL_POWER), true) else (p2, false)
  }

  /** setLevel up to the point where it may wait: its result, or None if it goes on. */
  function Head(p: Power, new_level: Level): Option<bool> {
    if p.level == new_level then Some(true) else if p.level.UNKNOWN_LEVEL? then Some(false) else None
  }

  /** It lets go of the mutex before it goes on. */
  predicate Window(p: Power, new_level: Level) {
    (p.level.LOW_POWER? && new_level.FULL_POWER?) || (p.level.FULL_POWER? && new_level.LOW_POWER?)
  }

  function Tail(p: Power, new_level: Level, reply: Reply): (Power, bool) {
    match new_level
    case FULL_POWER => if p.mode.MODE_OFF_SLEEP? then SleepState(p, false, reply) else (p, false)
    case UNKNOWN_LEVEL => (p, false)
    case _ =>
      if p.desired == 0 then SleepState(p, true, reply)
      else if p.desired == 1 then (p.(level := FULL_POWER), true)
      else (p, false)
  }

  function LevelSet(p: Power, new_level: Level, reply: Reply): (Power, bool) {
    match Head(p, new_level)
    case Some(r) => (p, r)
    case None => Tail(p, new_level, reply)
  }

  // ---------------------------------------------------------------- in place

  class PowerSwitch {
    var mCurrLevel: Level
    var mCurrDeviceMgtPowerState: Mode
    var mExpectedDeviceMgtPowerState: Mode
    var mDesiredScreenOffPowerState: int
    var mCurrActivity: bv32

    function Val(): Power reads this {
      Power(mCurrLevel, mCurrDeviceMgtPowerState, mExpectedDeviceMgtPowerState, mDesiredScreenOffPowerState)
    }

    constructor ()
      ensures Val() == Unset && mCurrActivity == 0
    {
      mCurrLevel, mCurrDeviceMgtPowerState, mExpectedDeviceMgtPowerState := UNKNOWN_LEVEL, STATE_UNKNOWN, STATE_UNKNOWN;
      mDesiredScreenOffPowerState, mCurrActivity := 0, 0;
    }

    /** config is the value of SCREEN_OFF_POWER_STATE, if it is set. */
    method Initialize(level: Level, config: Option<int>)
      modifies this
      ensures Val() == Initialized(old(Val()), level, config) && mCurrActivity == old(mCurrActivity)
    {
      if config.Some? {
        mDesiredScreenOffPowerState := config.value;
      }
      match level {
        case FULL_POWER =>
          mCurrDeviceMgtPowerState := MODE_FULL;
          mCurrLevel := level;
        case UNKNOWN_LEVEL =>
          mCurrDeviceMgtPowerState := STATE_UNKNOWN;
          mCurrLevel := level;
        case _ =>
      }
    }

    /** The handler of a mode-change event: the event names no mode, so the expected one is taken. */
    method DeviceManagementCallback(ok: bool)
      modifies this
      ensures Val() == ModeEvent(old(Val()), ok) && mCurrActivity == old(mCurrActivity)
    {
      if ok {
        mCurrDeviceMgtPowerState := mExpectedDeviceMgtPowerState;
      }
    }

    method Wait(reply: Reply)
      modifies this
      ensures Val() == Awaited(old(Val()), reply) && mCurrActivity == old(mCurrActivity)
    {
      if reply.EventOk? || reply.EventFailed? {
        DeviceManagementCallback(reply.EventOk?);
      }
    }

    method SetPowerOffSleepState(sleep: bool, reply: Reply) returns (ok: bool)
      modifies this
      ensures (Val(), ok) == SleepState(old(Val()), sleep, reply) && mCurrActivity == old(mCurrActivity)
    {
      if sleep {
        if mCurrDeviceMgtPowerState == MODE_OFF_SLEEP {
          return false;
        }
        mExpectedDeviceMgtPowerState := MODE_OFF_SLEEP;
        if reply.Refused? {
          return false;
        }
        Wait(reply);
        mCurrLevel := LOW_POWER;
      } else {
        if mCurrDeviceMgtPowerState == MODE_FULL {
          return false;
        }
        mCurrDeviceMgtPowerState := STATE_UNKNOWN;
        mExpectedDeviceMgtPowerState := MODE_FULL;
        if reply.Refused? {
          return false;
        }
        Wait(reply);
        if mCurrDeviceMgtPowerState != MODE_FULL {
          return false;
        }
        mCurrLevel := FULL_POWER;
      }
      return true;
    }

    /** setLevel from where its mutex is held for good. */
    method SetLevelTail(new_level: Level, reply: Reply) returns (ok: bool)
      modifies this
      ensures (Val(), ok) == Tail(old(Val()), new_level, reply) && mCurrActivity == old(mCurrActivity)
    {
      ok := false;
      match new_level {
        case FULL_POWER =>
          if mCurrDeviceMgtPowerState == MODE_OFF_SLEEP {
            ok := SetPowerOffSleepState(false, reply);
          }
        case LOW_POWER => ok := ScreenOff(reply);
        case POWER_OFF => ok := ScreenOff(reply);
        case UNKNOWN_LEVEL =>
      }
    }

    method ScreenOff(reply: Reply) returns (ok: bool)
      modifies this
      ensures (Val(), ok) == Tail(old(Val()), LOW_POWER, reply) && mCurrActivity == old(mCurrActivity)
    {
      ok := false;
      if mDesiredScreenOffPowerState == 0 {
        ok := SetPowerOffSleepState(true, reply);
      } else if mDesiredScreenOffPowerState == 1 {
        mCurrLevel := FULL_POWER;
        ok := true;
      }
    }

    /** setLevel with nobody else at work while it waits for the deactivation. */
    method SetLevel(new_level: Level, reply: Reply) returns (ok: bool)
      modifies this
      ensures (Val(), ok) == LevelSet(old(Val()), new_level, reply) && mCurrActivity == old(mCurrActivity)
    {
      if mCurrLevel == new_level {
        return true;
      }
      if mCurrLevel == UNKNOWN_LEVEL {
        return false;
      }
      ok := SetLevelTail(new_level, reply);
    }

    method SetModeOn(activated: bv32) returns (any: bool)
      modifies this
      ensures Val() == old(Val()) && mCurrActivity == Moded(old(mCurrActivity), On(activated))
      ensures any <==> mCurrActivity != 0
    {
      mCurrActivity := mCurrActivity | activated;
      any := mCurrActivity != 0;
    }

    method SetModeOff(deactivated: bv32) returns (any: bool)
      modifies this
      ensures Val() == old(Val()) && mCurrActivity == Moded(old(mCurrActivity), Off(deactivated))
      ensures any <==> mCurrActivity != 0
    {
      mCurrActivity := mCurrActivity & !deactivated;
      any := mCurrActivity != 0;
    }
  }

  // ---------------------------------------------------------------- level and controller agree

  /** Full power is believed only when the controller is in full power, low power only when power-off-sleep is
      configured; POWER_OFF is never the current level. */
  predicate Consistent(p: Power) {
    (p.level.FULL_POWER? ==> p.mode.MODE_FULL?) && (p.level.LOW_POWER? ==> p.desired == 0) && !p.level.POWER_OFF?
  }

  /** setLevel keeps the views consistent whatever the stack answers, even if the wait is aborted. */
  lemma SetLevelKeeps(p: Power, new_level: Level, reply: Reply)
    requires Consistent(p)
    ensures Consistent(LevelSet(p, new_level, reply).0)
  {
  }

  /** Full power is reported exactly when it was the level already or the controller slept and woke up; both views
      are full then. */
  lemma FullPowerExactly(p: Power, reply: Reply)
    requires Consistent(p)
    ensures var (p', ok) := LevelSet(p, FULL_POWER, reply);
            && (ok <==> p.level.FULL_POWER? || (p.level.LOW_POWER? && p.mode.MODE_OFF_SLEEP? && reply.EventOk?))
            && (ok ==> p'.level.FULL_POWER? && p'.mode.MODE_FULL?)
            && (!ok ==> p'.level == p.level)
  {
  }

  /** Low power is reported exactly when it was the level already, or the level was full and either power-off-sleep
      is configured and the stack accepted the change, or full power at screen-off is configured, and then full
      power stays.  The controller is asleep afterwards exactly if the change's event succeeded. */
  lemma LowPowerExactly(p: Power, reply: Reply)
    requires Consistent(p)
    ensures var (p', ok) := LevelSet(p, LOW_POWER, reply);
            && (ok <==>
                  p.level.LOW_POWER? ||
                  (p.level.FULL_POWER? && ((p.desired == 0 && !reply.Refused?) || p.desired == 1)))
            && (p.level.FULL_POWER? ==> (p'.level.LOW_POWER? <==> p.desired == 0 && !reply.Refused?))
            && (p.level.FULL_POWER? ==> (p'.mode.MODE_OFF_SLEEP? <==> p.desired == 0 && reply.EventOk?))
  {
  }

  /** A request for power off is a request for low power, except that in low power it tries again to put the controller
      to sleep, and is reported as done exactly if the controller was awake and the stack accepted. */
  lemma PowerOffExactly(p: Power, reply: Reply)
    requires Consistent(p)
    ensures p.level.FULL_POWER? ==> LevelSet(p, POWER_OFF, reply) == LevelSet(p, LOW_POWER, reply)
    ensures p.level.LOW_POWER? ==>
              var (p', ok) := LevelSet(p, POWER_OFF, reply);
              && (ok <==> !p.mode.MODE_OFF_SLEEP? && !reply.Refused?) && p'.level.LOW_POWER?
              && (p.mode.MODE_OFF_SLEEP? ==> p' == p)
  {
  }

  /** The tail of setLevel, run in whatever state other callers left, breaks consistency in one case exactly: full
      power at screen-off is configured and the controller is not in full power. */
  lemma TailKeepsUnless(p: Power, new_level: Level, reply: Reply)
    requires Consistent(p)
    ensures Consistent(Tail(p, new_level, reply).0) <==>
            !((new_level.LOW_POWER? || new_level.POWER_OFF?) && p.desired == 1 && !p.mode.MODE_FULL?)
  {
  }

  // ---------------------------------------------------------------- runs

  datatype Action =
    | Initialize(level: Level)
    | Begin(new_level: Level, reply: Reply)  // the head; and the tail at once if there is no window
    | Finish(i: nat, reply: Reply)           // the tail of the i-th caller in its window

  datatype State = State(p: Power, waiting: seq<Level>)

  function Next(s: State, a: Action, config: Option<int>): State {
    match a
    case Initialize(level) => s.(p := Initialized(s.p, level, config))
    case Begin(l, reply) =>
      if Head(s.p, l).None? && Window(s.p, l) then s.(waiting := s.waiting + [l])
      else s.(p := LevelSet(s.p, l, reply).0)
    case Finish(i, reply) =>
      if i < |s.waiting| then State(Tail(s.p, s.waiting[i], reply).0, s.waiting[..i] + s.waiting[i + 1..]) else s
  }

  function After(acts: seq<Action>, config: Option<int>): State {
    if acts == [] then State(Unset, []) else Next(After(acts[..|acts| - 1], config), acts[|acts| - 1], config)
  }

  /** The stack is not shut down while a caller is in its window, if full power at screen-off is configured. */
  predicate Orderly(acts: seq<Action>, config: Option<int>) {
    acts == [] || (
      var s, a := After(acts[..|acts| - 1], config), acts[|acts| - 1];
      && Orderly(acts[..|acts| - 1], config)
      && (a == Initialize(UNKNOWN_LEVEL) && config == Some(1) ==> s.waiting == []))
  }

  predicate Good(s: State, config: Option<int>) {
    var conf := if config.Some? then config.value else 0;
    && Consistent(s.p)
    && (s.p.desired == conf || (s.p.desired == 0 && s.p.level.UNKNOWN_LEVEL? && s.waiting == []))
    && (s.waiting != [] && conf == 1 ==> s.p.level.FULL_POWER?)
  }

  lemma StepKeepsGood(s: State, a: Action, config: Option<int>)
    requires Good(s, config) && (a == Initialize(UNKNOWN_LEVEL) && config == Some(1) ==> s.waiting == [])
    ensures Good(Next(s, a, config), config)
  {
    if a.Finish? && a.i < |s.waiting| {
      TailKeepsUnless(s.p, s.waiting[a.i], a.reply);
    }
  }

  /** In every orderly run of overlapping calls the two views stay consistent. */
  lemma {:induction false} RunsConsistent(acts: seq<Action>)
    ensures forall config | Orderly(acts, config) ::
              Good(After(acts, config), config) && Consistent(After(acts, config).p)
  {
    if acts != [] {
      RunsConsistent(acts[..|acts| - 1]);
      forall config | Orderly(acts, config) ensures Good(After(acts, config), config) {
        StepKeepsGood(After(acts[..|acts| - 1], config), acts[|acts| - 1], config);
      }
    }
  }

  lemma OneMore(acts: seq<Action>, config: Option<int>, a: Action)
    ensures After(acts + [a], config) == Next(After(acts, config), a, config)
    ensures Orderly(acts + [a], config) ==> Orderly(acts, config)
    ensures a == Initialize(UNKNOWN_LEVEL) && config == Some(1) && After(acts, config).waiting != [] ==>
        !Orderly(acts + [a], config)
  {
    assert (acts + [a])[..|acts|] == acts;
  }

  /** A shutdown during a window breaks it: the level is full power, the controller's state unknown. */
  lemma ShutdownInWindow(reply: Reply)
    ensures exists acts ::
      !Orderly(acts, Some(1)) && After(acts, Some(1)).p == Power(FULL_POWER, STATE_UNKNOWN, STATE_UNKNOWN, 1)
    ensures !Consistent(Power(FULL_POWER, STATE_UNKNOWN, STATE_UNKNOWN, 1))
  {
    OneMore([], Some(1), Initialize(FULL_POWER));
    var acts := [] + [Initialize(FULL_POWER)];
    OneMore(acts, Some(1), Begin(LOW_POWER, reply));
    acts := acts + [Begin(LOW_POWER, reply)];
    OneMore(acts, Some(1), Initialize(UNKNOWN_LEVEL));
    acts := acts + [Initialize(UNKNOWN_LEVEL)];
    OneMore(acts, Some(1), Finish(0, reply));
    acts := acts + [Finish(0, reply)];
    assert !Orderly(acts, Some(1));
  }

  /** A mode event outside a wait keeps it exactly unless it succeeds while the level is full power and another state is
      expected. */
  lemma ModeEventKeepsUnless(p: Power, ok: bool)
    requires Consistent(p)
    ensures Consistent(ModeEvent(p, ok)) <==> !(ok && p.level.FULL_POWER? && !p.expected.MODE_FULL?)
  {
  }

  /** So does a mode event that comes after its wait was aborted and the stack was started again. */
  lemma LateEventBreaks(p: Power)
    requires p.level.FULL_POWER? && p.mode.MODE_FULL? && p.desired == 0
    ensures var p1 := LevelSet(p, LOW_POWER, Aborted).0;
            var p2 := Initialized(p1, FULL_POWER, None);
            Consistent(p2) && !Consistent(ModeEvent(p2, true))
  {
  }

  // ---------------------------------------------------------------- stuck in low power

  function Sets(p: Power, calls: seq<(Level, Reply)>): Power {
    if calls == [] then p else LevelSet(Sets(p, calls[..|calls| - 1]), calls[|calls| - 1].0, calls[|calls| - 1].1).0
  }

  /** The level is low without the controller asleep. */
  predicate Stuck(p: Power) { p.level.LOW_POWER? && !p.mode.MODE_OFF_SLEEP? }

  /** Such a low power is final under requests for full and low power: no sequence of them changes anything, and every
      request for full power is refused. */
  lemma {:induction false} StuckLow(p: Power, calls: seq<(Level, Reply)>, reply: Reply)
    requires Stuck(p)
    requires forall i :: 0 <= i < |calls| ==> calls[i].0.FULL_POWER? || calls[i].0.LOW_POWER?
    ensures Sets(p, calls) == p && !LevelSet(Sets(p, calls), FULL_POWER, reply).1
  {
    if calls != [] { StuckLow(p, calls[..|calls| - 1], reply); }
  }

  /** The one request that helps is POWER_OFF, if the mode change it starts succeeds: the level stays low and the
      controller sleeps. */
  lemma StuckLowUntil(p: Power, new_level: Level, reply: Reply)
    requires Consistent(p) && Stuck(p)
    ensures var p' := LevelSet(p, new_level, reply).0;
            && p'.level.LOW_POWER?
            && (p'.mode.MODE_OFF_SLEEP? <==> new_level.POWER_OFF? && reply.EventOk?)
  {
  }

  /** What leads there: exactly a change that does not end with a successful event, whether refused, failed or
      aborted.  A wake-up that fails leaves the controller's state unknown; a change to low power that was accepted and
      then failed is reported as done. */
  lemma FailedChangeSticks(p: Power, new_level: Level, reply: Reply)
    requires Consistent(p) && !Stuck(p)
    ensures var (p', ok) := LevelSet(p, new_level, reply);
            var wakes := p.level.LOW_POWER? && new_level.FULL_POWER? && !reply.EventOk?;
            var sleeps := p.level.FULL_POWER? && p.desired == 0 && (new_level.LOW_POWER? || new_level.POWER_OFF?) &&
                (reply.EventFailed? || reply.Aborted?);
            var refused := p.level.FULL_POWER? && p.desired == 0 && (new_level.LOW_POWER? || new_level.POWER_OFF?) &&
                reply.Refused?;
            && (Stuck(p') <==> wakes || sleeps)
            && (wakes ==> p' == p.(mode := STATE_UNKNOWN, expected := MODE_FULL) && !ok)
            && (sleeps ==> p' == p.(level := LOW_POWER, expected := MODE_OFF_SLEEP) && ok)
            && (refused ==> p' == p.(expected := MODE_OFF_SLEEP) && !ok)
  {
  }

  // ---------------------------------------------------------------- modes

  const DISCOVERY: bv32 := 1
  const SE_ROUTING: bv32 := 2
  const SE_CONNECTED: bv32 := 4
  const HOST_ROUTING: bv32 := 8

  predicate IsMode(m: bv32) { m == DISCOVERY || m == SE_ROUTING || m == SE_CONNECTED || m == HOST_ROUTING }

  datatype ModeOp = On(m: bv32) | Off(m: bv32)

  function Moded(a: bv32, op: ModeOp): bv32 { if op.On? then a | op.m else a & !op.m }

  function Activity(ops: seq<ModeOp>): bv32 {
    if ops == [] then 0 else Moded(Activity(ops[..|ops| - 1]), ops[|ops| - 1])
  }

  /** The last operation on mode m turned it on. */
  predicate LastOn(ops: seq<ModeOp>, m: bv32) {
    ops != [] && (if ops[|ops| - 1].m == m then ops[|ops| - 1].On? else LastOn(ops[..|ops| - 1], m))
  }

  lemma OneBit(a: bv32, op: ModeOp, m: bv32)
    requires IsMode(op.m) && IsMode(m)
    ensures (Moded(a, op) & m != 0) <==> (if op.m == m then op.On? else a & m != 0)
  {
  }

  lemma NoOtherBits(a: bv32, op: ModeOp)
    requires IsMode(op.m) && a <= 15
    ensures Moded(a, op) <= 15
  {
  }

  lemma SomeBit(a: bv32)
    requires a <= 15
    ensures a != 0 <==> a & DISCOVERY != 0 || a & SE_ROUTING != 0 || a & SE_CONNECTED != 0 || a & HOST_ROUTING != 0
  {
  }

  lemma {:induction false} ModesAreKept(ops: seq<ModeOp>, m: bv32)
    requires IsMode(m) && forall i :: 0 <= i < |ops| ==> IsMode(ops[i].m)
    ensures Activity(ops) <= 15 && (Activity(ops) & m != 0 <==> LastOn(ops, m))
  {
    if ops != [] {
      ModesAreKept(ops[..|ops| - 1], m);
      OneBit(Activity(ops[..|ops| - 1]), ops[|ops| - 1], m);
      NoOtherBits(Activity(ops[..|ops| - 1]), ops[|ops| - 1]);
    } else {
      assert (0 as bv32) & m == 0;
    }
  }

  /** Over any run, some mode is reported active exactly when the last operation on some mode turned it on. */
  lemma AnyModeActive(ops: seq<ModeOp>)
    requires forall i :: 0 <= i < |ops| ==> IsMode(ops[i].m)
    ensures Activity(ops) != 0 <==>
            LastOn(ops, DISCOVERY) || LastOn(ops, SE_ROUTING) || LastOn(ops, SE_CONNECTED) || LastOn(ops, HOST_ROUTING)
  {
    ModesAreKept(ops, DISCOVERY);
    ModesAreKept(ops, SE_ROUTING);
    ModesAreKept(ops, SE_CONNECTED);
    ModesAreKept(ops, HOST_ROUTING);
    SomeBit(Activity(ops));
  }
}
