/** Elapsed time and deadlines: the three elapsed-time routines of NfcTag.cpp, SecureElement.cpp and
    NativeNfcManager.cpp, and the deadline of CondVar.cpp's timed wait.  The last two routines divide in floating
    point (10e8 is 10^9, 10e5 is 10^6); they are modelled over real. */
module TimeArithmetic {
  const SECOND := 1_000_000_000
  const MILLI := 1_000_000
  const WORD := 0x1_0000_0000

  datatype Timespec = Timespec(tv_sec: int, tv_nsec: int)

  predicate Normal(t: Timespec) { 0 <= t.tv_nsec < SECOND }

  /** The time in nanoseconds. */
  function Ns(t: Timespec): int { t.tv_sec * SECOND + t.tv_nsec }

  /** The whole milliseconds between two times. */
  function ElapsedMs(start: Timespec, end: Timespec): int { (Ns(end) - Ns(start)) / MILLI }

  /** Between normalised times in order, less than 2^32 ms apart. */
  predicate InRange(start: Timespec, end: Timespec) {
    Normal(start) && Normal(end) && Ns(start) <= Ns(end) && ElapsedMs(start, end) < WORD
  }

  lemma Millis(sec: int, nsec: nat)
    ensures (sec * SECOND + nsec) / MILLI == sec * 1000 + nsec / MILLI
  {
    assert sec * SECOND + nsec == (sec * 1000 + nsec / MILLI) * MILLI + nsec % MILLI;
  }

  /** NfcTag.cpp: integers only; the result is cut to 32 bits, and right modulo 2^32 even for times out of order. */
  method TimeDiff(start: Timespec, end: Timespec) returns (ms: nat)
    requires Normal(start) && Normal(end)
    ensures ms == ElapsedMs(start, end) % WORD
    ensures InRange(start, end) ==> ms == ElapsedMs(start, end)
  {
    var sec, nsec;
    if end.tv_nsec - start.tv_nsec < 0 {
      sec := end.tv_sec - start.tv_sec - 1;
      nsec := SECOND + end.tv_nsec - start.tv_nsec;
    } else {
      sec := end.tv_sec - start.tv_sec;
      nsec := end.tv_nsec - start.tv_nsec;
    }
    Millis(sec, nsec);
    ms := (sec * 1000 + nsec / MILLI) % WORD;
  }

  /** The difference as SecureElement.cpp and NativeNfcManager.cpp leave it in end: normalised, and exact. */
  function Difference(start: Timespec, end: Timespec): (d: Timespec)
    ensures Ns(d) == Ns(end) - Ns(start)
    ensures Normal(start) && Normal(end) ==> Normal(d)
  {
    var d := Timespec(end.tv_sec - start.tv_sec, end.tv_nsec - start.tv_nsec);
    if d.tv_nsec < 0 then Timespec(d.tv_sec - 1, d.tv_nsec + SECOND) else d
  }

  /** Seconds times 1000 plus nanoseconds over 10e5 in floating point, cut off below the point. */
  function RealMillis(d: Timespec): int {
    ((d.tv_sec * 1000) as real + d.tv_nsec as real / 1_000_000.0).Floor
  }

  lemma RealMillisIs(d: Timespec)
    requires d.tv_nsec >= 0
    ensures RealMillis(d) == Ns(d) / MILLI
  {
    var q, r := d.tv_nsec / MILLI, d.tv_nsec % MILLI;
    assert d.tv_nsec as real / 1_000_000.0 == q as real + r as real / 1_000_000.0;
    assert 0.0 <= r as real / 1_000_000.0 < 1.0;
    Millis(d.tv_sec, d.tv_nsec);
  }

  /** SecureElement.cpp: the same by floating point.  Converting a value of 2^32 or more to 32 bits would be
      undefined, so the times must be closer than that. */
  method RealTimeDiff(start: Timespec, end: Timespec) returns (ms: nat)
    requires InRange(start, end)
    ensures ms == ElapsedMs(start, end) < WORD
  {
    var sec, nsec := end.tv_sec - start.tv_sec, end.tv_nsec - start.tv_nsec;
    if nsec < 0 {
      nsec := nsec + SECOND;
      sec := sec - 1;
    }
    assert Timespec(sec, nsec) == Difference(start, end);
    RealMillisIs(Timespec(sec, nsec));
    ms := ((sec * 1000) as real + nsec as real / 1_000_000.0).Floor;
  }

  // ---------------------------------------------------------------- the timed wait

  /** C's division and remainder, which cut towards zero. */
  function Quot(a: int, b: nat): int requires b > 0 { if a >= 0 then a / b else -((-a) / b) }
  function Rem(a: int, b: nat): int requires b > 0 { a - b * Quot(a, b) }

  class AbsoluteTime {
    var tv_sec: int
    var tv_nsec: int

    constructor (now: Timespec)
      ensures Val() == now
    {
      tv_sec, tv_nsec := now.tv_sec, now.tv_nsec;
    }

    function Val(): Timespec reads this { Timespec(tv_sec, tv_nsec) }

    /** The deadline of a wait of millisec from the present time: exact, and its nanoseconds can reach 10^9 itself,
        which is not normalised.  The sum fits a signed 32-bit long on the way. */
    method AddMillis(millisec: int)
      requires Normal(Val())
      modifies this
      ensures Val() == Deadline(old(Val()), millisec)
      ensures Ns(Val()) == Ns(old(Val())) + millisec * MILLI
      ensures tv_nsec <= SECOND
      ensures tv_nsec >= 0 <==> old(tv_nsec) + Rem(millisec, 1000) * MILLI >= 0
      ensures tv_nsec == SECOND <==> old(tv_nsec) + Rem(millisec, 1000) * MILLI == SECOND
    {
      RemBounds(millisec);
      tv_sec := tv_sec + Quot(millisec, 1000);
      var ns := tv_nsec + Rem(millisec, 1000) * MILLI;
      assert -0x8000_0000 <= ns < 0x8000_0000;
      if ns > SECOND {
        tv_sec := tv_sec + 1;
        tv_nsec := ns - SECOND;
      } else {
        tv_nsec := ns;
      }
    }
  }

  lemma RemBounds(ms: int)
    ensures ms >= 0 ==> 0 <= Rem(ms, 1000) < 1000
    ensures ms <= 0 ==> -1000 < Rem(ms, 1000) <= 0
  {
  }

  /** The deadline as a value. */
  function Deadline(now: Timespec, millisec: int): Timespec {
    var ns := now.tv_nsec + Rem(millisec, 1000) * MILLI;
    var sec := now.tv_sec + Quot(millisec, 1000);
    if ns > SECOND then Timespec(sec + 1, ns - SECOND) else Timespec(sec, ns)
  }

  /** No wait ends early: for a timeout that is not negative the deadline is a valid time except in one case, when
      the sum of the nanoseconds is exactly one second; the instant is right even then. */
  lemma DeadlineIsNormalUnless(now: Timespec, millisec: nat)
    requires Normal(now)
    ensures Ns(Deadline(now, millisec)) == Ns(now) + millisec * MILLI
    ensures 0 <= Deadline(now, millisec).tv_nsec <= SECOND
    ensures !Normal(Deadline(now, millisec)) <==> now.tv_nsec + (millisec % 1000) * MILLI == SECOND
  {
    RemBounds(millisec);
  }

  lemma DeadlineNotNormal()
    ensures Normal(Timespec(7, 500 * MILLI)) && Deadline(Timespec(7, 500 * MILLI), 500) == Timespec(7, SECOND)
  {
  }

  /** A waiter that reads the clock at its deadline has waited millisec, by any of the elapsed-time routines. */
  lemma DeadlineElapses(now: Timespec, millisec: nat)
    requires Normal(now)
    ensures ElapsedMs(now, Deadline(now, millisec)) == millisec
  {
    DeadlineIsNormalUnless(now, millisec);
  }
}
