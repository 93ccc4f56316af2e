/** Which deferred requests the replay threads of TransactionHold replay, and when a hold ends: each decided exactly
    over all runs, with the runs in which a request is lost, is replayed twice, or a hold goes on. */
module TransactionReplays {
  import opened Common
  import opened TimeArithmetic
  import opened TransactionHold

  // ---------------------------------------------------------------- the moments of a thread

  /** In step r thread i, just awake, reads the stored request. */
  predicate ReadAt(acts: seq<Action>, r: nat, i: nat) {
    r < |acts| && acts[r] == Step(i) && i < |After(acts[..r]).threads| && After(acts[..r]).threads[i].Sleeping?
  }

  /** The step stores a request: a caller that tested under the hold, or a replay that finds the hold on again. */
  predicate Stores(s: State, a: Action) {
    || (a.Store? && a.i < |s.asking|)
    || (a.Step? && a.i < |s.threads| && s.threads[a.i].Replaying? && !s.threads[a.i].k.Nothing? &&
        s.d.trans_in_progress)
  }

  /** No store takes effect from step r on, before step w. */
  predicate NoStore(acts: seq<Action>, r: nat, w: nat)
    requires w <= |acts|
    decreases w
  {
    r >= w || (NoStore(acts, r, w - 1) && !Stores(After(acts[..w - 1]), acts[w - 1]))
  }

  predicate Replayed(s: State, i: nat) { exists m :: 0 <= m < |s.replays| && s.replays[m].thread == i }

  lemma AfterStep(acts: seq<Action>, n: nat)
    requires n < |acts|
    ensures After(acts[..n + 1]) == Next(After(acts[..n]), acts[n])
  {
    assert acts[..n + 1][..n] == acts[..n];
  }

  lemma StoresGrow(s: State, a: Action)
    ensures |Next(s, a).deferred| == |s.deferred| + if Stores(s, a) then 1 else 0
  {
  }

  /** How many requests were stored in the first n steps. */
  function StoredBy(acts: seq<Action>, n: nat): nat
    requires n <= |acts|
  {
    |After(acts[..n]).deferred|
  }

  lemma OneStore(acts: seq<Action>, n: nat)
    requires n < |acts|
    ensures StoredBy(acts, n + 1) == StoredBy(acts, n) + if Stores(After(acts[..n]), acts[n]) then 1 else 0
  {
    AfterStep(acts, n);
    StoresGrow(After(acts[..n]), acts[n]);
  }

  /** The number of stored requests tells whether a store took effect in between. */
  lemma {:induction false} StoredBetween(acts: seq<Action>, r: nat, w: nat)
    requires r <= w <= |acts|
    ensures StoredBy(acts, r) <= StoredBy(acts, w)
    ensures StoredBy(acts, r) == StoredBy(acts, w) <==> NoStore(acts, r, w)
    decreases w - r
  {
    if r < w {
      StoredBetween(acts, r, w - 1);
      OneStore(acts, w - 1);
    }
  }

  // ---------------------------------------------------------------- what a thread replays

  /** Only threads past their replay have replayed, and each once. */
  ghost predicate OncePerThread(s: State) {
    && (forall m :: 0 <= m < |s.replays| ==>
          var i := s.replays[m].thread; i < |s.threads| && (Spent(s.threads[i]) || s.threads[i].Gone?))
    && (forall m, n :: 0 <= m < n < |s.replays| ==> s.replays[m].thread != s.replays[n].thread)
  }

  lemma StepKeepsOncePerThread(s: State, a: Action)
    requires OncePerThread(s)
    ensures OncePerThread(Next(s, a))
  {
    var s' := Next(s, a);
    assert forall j :: 0 <= j < |s.threads| && a != Step(j) ==> s'.threads[j] == s.threads[j];
  }

  lemma {:induction false} RunsKeepOncePerThread(acts: seq<Action>)
    ensures OncePerThread(After(acts))
  {
    if acts != [] {
      RunsKeepOncePerThread(acts[..|acts| - 1]);
      StepKeepsOncePerThread(After(acts[..|acts| - 1]), acts[|acts| - 1]);
    }
  }

  /** Thread i, having read k at place at, has replayed that or nothing; nothing only if it read nothing, has not come
      to it yet, or has stored the request again. */
  ghost predicate Follows(s: State, i: nat, k: Request, at: int, stored: bool) {
    && i < |s.threads| && !s.threads[i].Sleeping?
    && (forall m :: 0 <= m < |s.replays| && s.replays[m].thread == i ==> s.replays[m].at == at && !k.Nothing?)
    && (s.threads[i].Clearing? || s.threads[i].Replaying? ==> s.threads[i].k == k && s.threads[i].at == at)
    && ((Spent(s.threads[i]) || s.threads[i].Gone?) && !k.Nothing? && !stored ==> Replayed(s, i))
  }

  lemma StepFollows(s: State, a: Action, i: nat, k: Request, at: int, stored: bool)
    requires OncePerThread(s) && Follows(s, i, k, at, stored)
    ensures Follows(Next(s, a), i, k, at, stored || Stores(s, a))
  {
    var s' := Next(s, a);
    assert forall j :: 0 <= j < |s.threads| && a != Step(j) ==> s'.threads[j] == s.threads[j];
    assert forall m :: 0 <= m < |s.replays| ==> s'.replays[m] == s.replays[m];
    if a == Step(i) && s'.replays != s.replays {
      assert s'.replays[|s.replays|] == Replay(i, at);
    }
  }

  lemma FollowsAtRead(s: State, i: nat)
    requires OncePerThread(s) && i < |s.threads| && s.threads[i].Sleeping?
    ensures Follows(Next(s, Step(i)), i, s.d.last_request, |s.deferred| - 1, false)
  {
    assert forall m :: 0 <= m < |s.replays| ==> s.replays[m].thread != i;
  }

  /** Before step w, thread i follows the k at place at that it had by step r. */
  ghost predicate FollowsBy(acts: seq<Action>, r: nat, w: nat, i: nat, k: Request, at: int)
    requires r <= w <= |acts|
  {
    Follows(After(acts[..w]), i, k, at, !NoStore(acts, r, w))
  }

  lemma NextFollows(acts: seq<Action>, r: nat, w: nat, i: nat)
    requires r < w < |acts|
    ensures forall k, at | FollowsBy(acts, r, w, i, k, at) :: FollowsBy(acts, r, w + 1, i, k, at)
  {
    RunsKeepOncePerThread(acts[..w]);
    AfterStep(acts, w);
    forall k, at | FollowsBy(acts, r, w, i, k, at) ensures FollowsBy(acts, r, w + 1, i, k, at) {
      StepFollows(After(acts[..w]), acts[w], i, k, at, !NoStore(acts, r, w));
    }
  }

  lemma FirstFollows(acts: seq<Action>, r: nat, i: nat)
    requires ReadAt(acts, r, i)
    ensures var s := After(acts[..r]);
            Follows(After(acts[..r + 1]), i, s.d.last_request, |s.deferred| - 1, false)
  {
    RunsKeepOncePerThread(acts[..r]);
    FollowsAtRead(After(acts[..r]), i);
    AfterStep(acts, r);
  }

  lemma {:induction false} KeepsFollowing(acts: seq<Action>, r: nat, w: nat, i: nat)
    requires r < w <= |acts|
    ensures forall k, at | FollowsBy(acts, r, r + 1, i, k, at) :: FollowsBy(acts, r, w, i, k, at)
    decreases w
  {
    if r + 1 < w {
      KeepsFollowing(acts, r, w - 1, i);
      NextFollows(acts, r, w - 1, i);
      assert forall k, at | FollowsBy(acts, r, w - 1, i, k, at) :: FollowsBy(acts, r, w, i, k, at);
    }
  }

  lemma SinceRead(acts: seq<Action>, r: nat, w: nat, i: nat)
    requires ReadAt(acts, r, i) && r < w <= |acts|
    ensures var s := After(acts[..r]);
            Follows(After(acts[..w]), i, s.d.last_request, |s.deferred| - 1, !NoStore(acts, r, w))
  {
    var k, at := After(acts[..r]).d.last_request, |After(acts[..r]).deferred| - 1;
    assert FollowsBy(acts, r, r + 1, i, k, at) by {
      FirstFollows(acts, r, i);
      StepOfReadStoresNothing(acts, r, i);
    }
    KeepsFollowing(acts, r, w, i);
    assert FollowsBy(acts, r, w, i, k, at);
  }

  lemma StepOfReadStoresNothing(acts: seq<Action>, r: nat, i: nat)
    requires ReadAt(acts, r, i)
    ensures NoStore(acts, r, r + 1)
  {
  }

  /** In every run, a thread about to wipe the record has replayed the last request deferred so far exactly if it
      found a request stored when it read, and no store took effect between its read and its wipe. */
  lemma ReplaysLastExactly(acts: seq<Action>, r: nat, w: nat, i: nat)
    requires ReadAt(acts, r, i) && r < w <= |acts|
    requires i < |After(acts[..w]).threads| && After(acts[..w]).threads[i].Wiping?
    ensures var s := After(acts[..w]);
            Replay(i, |s.deferred| - 1) in s.replays <==>
                !After(acts[..r]).d.last_request.Nothing? && NoStore(acts, r, w)
  {
    var s := After(acts[..w]);
    SinceRead(acts, r, w, i);
    StoredBetween(acts, r, w);
    if Replay(i, |s.deferred| - 1) in s.replays {
      var m :| 0 <= m < |s.replays| && s.replays[m] == Replay(i, |s.deferred| - 1);
    }
  }

  // ---------------------------------------------------------------- twice

  /** Two replays are of the same request. */
  ghost predicate TwiceIn(s: State) {
    exists m, n :: 0 <= m < n < |s.replays| && s.replays[m].at == s.replays[n].at
  }

  /** Two threads that replayed read with no store in between. */
  ghost predicate ReadTwice(acts: seq<Action>) {
    exists r1: nat, r2: nat, i: nat, j: nat ::
      r1 < r2 && ReadAt(acts, r1, i) && ReadAt(acts, r2, j) && NoStore(acts, r1, r2) &&
      Replayed(After(acts), i) && Replayed(After(acts), j)
  }

  lemma {:induction false} WasRead(acts: seq<Action>, i: nat)
    requires i < |After(acts).threads| && !After(acts).threads[i].Sleeping?
    ensures exists r: nat :: ReadAt(acts, r, i)
  {
    var n := |acts| - 1;
    AfterStep(acts, n);
    assert acts[..n + 1] == acts;
    var s := After(acts[..n]);
    if i < |s.threads| && !s.threads[i].Sleeping? {
      WasRead(acts[..n], i);
      var r: nat :| ReadAt(acts[..n], r, i);
      assert acts[..n][..r] == acts[..r];
      assert ReadAt(acts, r, i);
    } else {
      assert ReadAt(acts, n, i);
    }
  }

  /** In step r the thread of replay p read the request it replayed, then the last one stored. */
  predicate ReadOf(acts: seq<Action>, r: nat, p: Replay) {
    ReadAt(acts, r, p.thread) && p.at == StoredBy(acts, r) - 1
  }

  /** A thread that replayed read, and replayed what was then the last stored request. */
  lemma ReplayedRead(acts: seq<Action>, m: nat)
    requires m < |After(acts).replays|
    ensures exists r: nat :: ReadOf(acts, r, After(acts).replays[m])
  {
    RunsKeepOncePerThread(acts);
    WasRead(acts, After(acts).replays[m].thread);
    var r: nat :| ReadAt(acts, r, After(acts).replays[m].thread);
    SinceRead(acts, r, |acts|, After(acts).replays[m].thread);
    assert acts[..|acts|] == acts;
    assert ReadOf(acts, r, After(acts).replays[m]);
  }

  lemma ReplayOf(acts: seq<Action>, r: nat, i: nat)
    requires ReadAt(acts, r, i) && Replayed(After(acts), i)
    ensures Replay(i, StoredBy(acts, r) - 1) in After(acts).replays
  {
    var m :| 0 <= m < |After(acts).replays| && After(acts).replays[m].thread == i;
    SinceRead(acts, r, |acts|, i);
    assert acts[..|acts|] == acts;
  }

  lemma SameReadOnce(acts: seq<Action>, r1: nat, r2: nat, i: nat)
    requires r1 < r2 && ReadAt(acts, r1, i)
    ensures !ReadAt(acts, r2, i)
  {
    if ReadAt(acts, r2, i) { SinceRead(acts, r1, r2, i); }
  }

  /** Two replays of one request come from two reads with no store in between. */
  lemma TwiceWasReadTwice(acts: seq<Action>, m: nat, n: nat)
    requires m < n < |After(acts).replays| && After(acts).replays[m].at == After(acts).replays[n].at
    ensures ReadTwice(acts)
  {
    var i, j := After(acts).replays[m].thread, After(acts).replays[n].thread;
    assert Replayed(After(acts), i) && Replayed(After(acts), j);
    ReplayedRead(acts, m);
    ReplayedRead(acts, n);
    var r1: nat :| ReadOf(acts, r1, After(acts).replays[m]);
    var r2: nat :| ReadOf(acts, r2, After(acts).replays[n]);
    assert i != j by { RunsKeepOncePerThread(acts); }
    if r1 < r2 {
      StoredBetween(acts, r1, r2);
    } else {
      StoredBetween(acts, r2, r1);
    }
  }

  lemma ReadTwiceIsTwice(acts: seq<Action>, r1: nat, r2: nat, i: nat, j: nat)
    requires r1 < r2 && ReadAt(acts, r1, i) && ReadAt(acts, r2, j) && NoStore(acts, r1, r2)
    requires Replayed(After(acts), i) && Replayed(After(acts), j)
    ensures TwiceIn(After(acts))
  {
    ReplayOf(acts, r1, i);
    ReplayOf(acts, r2, j);
    var m :| 0 <= m < |After(acts).replays| && After(acts).replays[m] == Replay(i, StoredBy(acts, r1) - 1);
    var n :| 0 <= n < |After(acts).replays| && After(acts).replays[n] == Replay(j, StoredBy(acts, r2) - 1);
    assert i != j by { if i == j { SameReadOnce(acts, r1, r2, i); } }
    StoredBetween(acts, r1, r2);
    assert After(acts).replays[if m < n then m else n].at == After(acts).replays[if m < n then n else m].at;
  }

  /** In every run, some request is replayed twice exactly if two threads that replayed read with no store in between:
      it is when a thread reads, not when it wipes, that decides. */
  lemma TwiceExactly(acts: seq<Action>)
    ensures TwiceIn(After(acts)) <==> ReadTwice(acts)
  {
    if TwiceIn(After(acts)) {
      var m, n :| 0 <= m < n < |After(acts).replays| && After(acts).replays[m].at == After(acts).replays[n].at;
      TwiceWasReadTwice(acts, m, n);
    }
    if ReadTwice(acts) {
      var r1: nat, r2: nat, i: nat, j: nat :|
        r1 < r2 && ReadAt(acts, r1, i) && ReadAt(acts, r2, j) && NoStore(acts, r1, r2) &&
        Replayed(After(acts), i) && Replayed(After(acts), j);
      ReadTwiceIsTwice(acts, r1, r2, i, j);
    }
  }

  // ---------------------------------------------------------------- requests stored late

  /** The state after acts, from s. */
  function From(s: State, acts: seq<Action>): State
    decreases |acts|
  {
    if acts == [] then s else From(Next(s, acts[0]), acts[1..])
  }

  predicate NoThreadLeft(s: State) { forall i :: 0 <= i < |s.threads| ==> s.threads[i].Gone? }

  predicate NoneStarted(s: State, acts: seq<Action>)
    decreases |acts|
  {
    acts == [] || (!(acts[0].Stack? && Checked(s.d, acts[0].e).1) && NoneStarted(Next(s, acts[0]), acts[1..]))
  }

  /** While no thread is at work and none is started, nothing is replayed: a request stored then waits for the thread
      of a later payment. */
  lemma {:induction false} WaitsForNextThread(acts: seq<Action>)
    ensures forall s | NoThreadLeft(s) && NoneStarted(s, acts) ::
              From(s, acts).replays == s.replays && From(s, acts).threads == s.threads
    decreases |acts|
  {
    if acts != [] { WaitsForNextThread(acts[1..]); }
  }

  // ---------------------------------------------------------------- payments that end without a thread

  /** The events that end a payment in a handler: any but an activation while a thread has marked the end, a field-on
      too late or at an unknown time, and the field-off of the payment itself if no thread could be made. */
  predicate Ends(d: Data, e: Event) {
    || (d.phase.TRANS_END? && !Qualifies(e))
    || (d.phase.FIELD_EVT_OFF? && FieldOn(e) &&
        (e.clock.None? || ElapsedMs(d.start_time, e.clock.value) > TIMER_VALUE))
    || (d.phase.TRANS_START? && FieldOff(e) && !e.threadMade)
  }

  /** Exactly these bring the phase back to its default, and they leave zeros and start no thread. */
  lemma PaymentEnds(s: State, e: Event)
    ensures !s.d.phase.DEFAULT? ==> (Next(s, Stack(e)).d.phase.DEFAULT? <==> Ends(s.d, e))
    ensures Ends(s.d, e) ==> Next(s, Stack(e)) == s.(d := Zero)
  {
  }

  predicate NothingAt(acts: seq<Action>, n: nat)
    requires n <= |acts|
  {
    After(acts[..n]).d.last_request.Nothing?
  }

  lemma NothingStays(acts: seq<Action>, n: nat)
    requires n < |acts| && NothingAt(acts, n) && !Stores(After(acts[..n]), acts[n])
    ensures NothingAt(acts, n + 1)
  {
    AfterStep(acts, n);
  }

  lemma {:induction false} NothingUntilStored(acts: seq<Action>, n: nat, r: nat)
    requires n <= r <= |acts| && NothingAt(acts, n) && NoStore(acts, n, r)
    ensures NothingAt(acts, r)
    decreases r
  {
    if n < r {
      NothingUntilStored(acts, n, r - 1);
      NothingStays(acts, r - 1);
    }
  }

  /** In every run, a request stored before a payment was so ended is replayed by no thread that reads later. */
  lemma EndedIsForgotten(acts: seq<Action>, n: nat, r: nat, m: nat)
    requires n < r && n < |acts| && acts[n].Stack? && Ends(After(acts[..n]).d, acts[n].e)
    requires m < |After(acts).replays| && ReadAt(acts, r, After(acts).replays[m].thread)
    ensures After(acts).replays[m].at >= StoredBy(acts, n + 1)
  {
    AfterStep(acts, n);
    PaymentEnds(After(acts[..n]), acts[n].e);
    SinceRead(acts, r, |acts|, After(acts).replays[m].thread);
    assert acts[..|acts|] == acts;
    StoredBetween(acts, n + 1, r);
    if NoStore(acts, n + 1, r) { NothingUntilStored(acts, n + 1, r); }
  }

  // ---------------------------------------------------------------- who may store

  /** Step n is a caller's test under the hold. */
  predicate TestedAt(acts: seq<Action>, n: nat, ask: Ask) {
    n < |acts| && acts[n] == Test(ask) && After(acts[..n]).d.trans_in_progress
  }

  /** In every run, whoever is about to store a request has tested under the hold. */
  lemma {:induction false} AsksUnderHold(acts: seq<Action>, ask: Ask)
    requires ask in After(acts).asking
    ensures exists n: nat :: TestedAt(acts, n, ask)
  {
    var n := |acts| - 1;
    if ask in After(acts[..n]).asking {
      AsksUnderHold(acts[..n], ask);
      var m: nat :| TestedAt(acts[..n], m, ask);
      assert acts[..n][..m] == acts[..m];
      assert TestedAt(acts, m, ask);
    } else {
      assert TestedAt(acts, n, ask);
    }
  }

  // ---------------------------------------------------------------- the native data of a replay

  /** The native data a step brings: that of the caller who stores its request, if it has any. */
  function Brings(s: State, a: Action): Option<int> {
    if a.Store? && a.i < |s.asking| then s.asking[a.i].nat_data else None
  }

  lemma NextNat(s: State, a: Action)
    ensures Next(s, a).d.nat_data ==
            if Brings(s, a).Some? then Brings(s, a) else if Next(s, a).d == Zero then None else s.d.nat_data
  {
  }

  predicate GivesNat(acts: seq<Action>, n: nat, x: int) {
    n < |acts| && Brings(After(acts[..n]), acts[n]) == Some(x)
  }

  /** Step m neither brings native data nor leaves zeros. */
  predicate KeepsNat(acts: seq<Action>, m: nat) {
    m < |acts| && Brings(After(acts[..m]), acts[m]).None? && After(acts[..m + 1]).d != Zero
  }

  /** The latest native data brought in the first w steps was x, in step n, and no step has left zeros since. */
  ghost predicate LatestNat(acts: seq<Action>, w: nat, n: nat, x: int) {
    n < w <= |acts| && GivesNat(acts, n, x) && forall m: nat :: n < m < w ==> KeepsNat(acts, m)
  }

  function NatAt(acts: seq<Action>, w: nat): Option<int>
    requires w <= |acts|
  {
    After(acts[..w]).d.nat_data
  }

  lemma NatNext(acts: seq<Action>, w: nat)
    requires w < |acts|
    ensures forall x :: NatAt(acts, w + 1) == Some(x) <==>
                        GivesNat(acts, w, x) || (KeepsNat(acts, w) && NatAt(acts, w) == Some(x))
  {
    AfterStep(acts, w);
    NextNat(After(acts[..w]), acts[w]);
  }

  ghost predicate HasLatestNat(acts: seq<Action>, w: nat, x: int) { exists n: nat :: LatestNat(acts, w, n, x) }

  lemma LatestNext(acts: seq<Action>, w: nat, x: int)
    requires w < |acts|
    ensures HasLatestNat(acts, w + 1, x) <==> GivesNat(acts, w, x) || (KeepsNat(acts, w) && HasLatestNat(acts, w, x))
  {
    if GivesNat(acts, w, x) { assert LatestNat(acts, w + 1, w, x); }
    if KeepsNat(acts, w) && HasLatestNat(acts, w, x) {
      var n: nat :| LatestNat(acts, w, n, x);
      assert LatestNat(acts, w + 1, n, x);
    }
    if HasLatestNat(acts, w + 1, x) && !GivesNat(acts, w, x) {
      var n: nat :| LatestNat(acts, w + 1, n, x);
      assert LatestNat(acts, w, n, x);
    }
  }

  /** After any number of steps of any run, the record holds native data x exactly if x is the latest brought by a
      caller since the record was last zero: requests without native data, and replays, leave it as it is. */
  lemma {:induction false} NatIsLatest(acts: seq<Action>, w: nat, x: int)
    requires w <= |acts|
    ensures NatAt(acts, w) == Some(x) <==> HasLatestNat(acts, w, x)
    decreases w
  {
    if w > 0 {
      NatIsLatest(acts, w - 1, x);
      NatNext(acts, w - 1);
      LatestNext(acts, w - 1, x);
    }
  }

  // ---------------------------------------------------------------- when a hold ends

  /** Some replay thread still has to end the hold. */
  predicate ThreadLeft(s: State) { exists i :: 0 <= i < |s.threads| && !s.threads[i].Gone? }

  /** A hold is on its way to its end: the field-off to come starts the thread that ends it, or that thread is there. */
  predicate HoldEnds(s: State) { s.d.trans_in_progress ==> s.d.phase.TRANS_START? || ThreadLeft(s) }

  /** The guard: a qualifying activation is handled while the hold is on and no replay thread is left to end it. */
  predicate Strands(s: State, a: Action) { a.Stack? && Qualifies(a.e) && s.d.trans_in_progress && !ThreadLeft(s) }

  /** Of all steps exactly those take the end from a hold. */
  lemma StepKeepsHoldEnds(s: State, a: Action)
    requires HoldEnds(s)
    ensures HoldEnds(Next(s, a)) <==> !Strands(s, a)
  {
    var s' := Next(s, a);
    match a
    case Stack(e) =>
      assert forall i :: 0 <= i < |s.threads| ==> s'.threads[i] == s.threads[i];
      if Checked(s.d, e).1 { assert s'.threads[|s.threads|].Sleeping?; }
    case Step(i) =>
      if i < |s.threads| {
        assert forall j :: 0 <= j < |s.threads| && j != i ==> s'.threads[j] == s.threads[j];
        if !s.threads[i].Gone? && !s.threads[i].Wiping? { assert !s'.threads[i].Gone?; }
      }
    case _ => assert s'.threads == s.threads;
  }

  predicate NeverStrands(acts: seq<Action>) {
    acts == [] ||
    (NeverStrands(acts[..|acts| - 1]) && !Strands(After(acts[..|acts| - 1]), acts[|acts| - 1]))
  }

  /** In every run without such a step, a hold that is on has the field-off to come that starts the replay thread, or a
      replay thread that has not yet wiped the record. */
  lemma {:induction false} HoldsEnd(acts: seq<Action>)
    requires NeverStrands(acts)
    ensures HoldEnds(After(acts))
  {
    if acts != [] {
      HoldsEnd(acts[..|acts| - 1]);
      StepKeepsHoldEnds(After(acts[..|acts| - 1]), acts[|acts| - 1]);
    }
  }

  predicate Waits(p: Phase) { p.ACTIVATED? || p.EE_ACTION? || p.FIELD_EVT_OFF? }

  /** The hold is on, the payment it was for is forgotten, and no thread is left to end it. */
  predicate Stranded(s: State) { s.d.trans_in_progress && Waits(s.d.phase) && NoThreadLeft(s) }

  predicate HoldHasPhase(s: State) {
    s.d.trans_in_progress ==> s.d.phase.TRANS_START? || Waits(s.d.phase) || ThreadLeft(s)
  }

  lemma StepKeepsHoldHasPhase(s: State, a: Action)
    requires HoldHasPhase(s)
    ensures HoldHasPhase(Next(s, a))
  {
    if HoldEnds(s) {
      StepKeepsHoldEnds(s, a);
    } else {
      assert Next(s, a).threads == s.threads;
    }
  }

  /** In every run whatever, a hold is on its way to its end exactly unless it is stranded. */
  lemma {:induction false} HoldsEndExactly(acts: seq<Action>)
    ensures HoldHasPhase(After(acts))
    ensures HoldEnds(After(acts)) <==> !Stranded(After(acts))
  {
    if acts != [] {
      HoldsEndExactly(acts[..|acts| - 1]);
      StepKeepsHoldHasPhase(After(acts[..|acts| - 1]), acts[|acts| - 1]);
    }
  }

  /** An activation under the hold with no replay thread left strands it. */
  lemma ActivationStrands(s: State, a: Action)
    requires Strands(s, a)
    ensures Stranded(Next(s, a))
  {
  }

  /** A field-on event after a field-off after an EE action: the last event of another payment. */
  predicate Repays(s: State, a: Action) { a.Stack? && FieldOn(a.e) && s.d.phase.FIELD_EVT_OFF? }

  predicate NeverRepays(s: State, acts: seq<Action>)
    decreases |acts|
  {
    acts == [] || (!Repays(s, acts[0]) && NeverRepays(Next(s, acts[0]), acts[1..]))
  }

  lemma StrandedStep(s: State)
    requires Stranded(s)
    ensures forall a | !Repays(s, a) :: Stranded(Next(s, a)) && Next(s, a).replays == s.replays
  {
  }

  /** A stranded hold stays until another whole payment comes, however long: the hold is on, so every request is
      deferred, and nothing is replayed. */
  lemma {:induction false} StrandedStays(acts: seq<Action>)
    ensures forall s | Stranded(s) && NeverRepays(s, acts) ::
              Stranded(From(s, acts)) && From(s, acts).replays == s.replays
    decreases |acts|
  {
    if acts != [] {
      StrandedStays(acts[1..]);
      forall s | Stranded(s) && NeverRepays(s, acts)
        ensures Stranded(From(s, acts)) && From(s, acts).replays == s.replays
      {
        StrandedStep(s);
      }
    }
  }

  // ---------------------------------------------------------------- what can go wrong

  ghost predicate Reachable(s: State) { exists acts :: After(acts) == s }

  lemma Take(s: State, a: Action, s': State)
    requires Reachable(s) && s' == Next(s, a)
    ensures Reachable(s')
  {
    var acts :| After(acts) == s;
    assert (acts + [a])[..|acts|] == acts;
    assert After(acts + [a]) == s';
  }

  const Off := RfField(true, false, Some(Timespec(0, 0)), true)
  const On := RfField(true, true, Some(Timespec(0, 0)), true)

  /** The record in a phase, with the hold and the stored request as given. */
  function In(phase: Phase, hold: bool, last: Request): Data {
    Zero.(phase := phase, trans_in_progress := hold, last_request := last)
  }

  /** A payment: activation, EE action, field off, and on again at once. */
  lemma Payment(s: State)
    requires Reachable(s) && s.d == In(s.d.phase, s.d.trans_in_progress, s.d.last_request) && !s.d.phase.TRANS_END?
    ensures Reachable(s.(d := In(TRANS_START, true, s.d.last_request)))
  {
    var hold, last := s.d.trans_in_progress, s.d.last_request;
    var s1, s2, s3 := s.(d := In(ACTIVATED, hold, last)), s.(d := In(EE_ACTION, hold, last)),
        s.(d := In(FIELD_EVT_OFF, hold, last));
    Take(s, Stack(Activated(Frame)), s1);
    Take(s1, Stack(EeAction), s2);
    Take(s2, Stack(Off), s3);
    Take(s3, Stack(On), s.(d := In(TRANS_START, true, last)));
  }

  /** The hold is on, and discovery was asked for and deferred. */
  lemma DefersEnable()
    ensures Reachable(State(In(TRANS_START, true, Enable), [], [], [Enable], []))
  {
    assert After([]) == Start;
    Payment(Start);
    var s := State(In(TRANS_START, true, Nothing), [], [], [], []);
    Take(s, Test(Ask(Enable, None)), s.(asking := [Ask(Enable, None)]));
    Take(s.(asking := [Ask(Enable, None)]), Store(0), State(In(TRANS_START, true, Enable), [], [], [Enable], []));
  }

  /** The field goes off, and the replay thread reads. */
  lemma ReadsEnable()
    ensures Reachable(State(In(TRANS_PROGRESS, true, Enable), [Clearing(Enable, 0)], [], [Enable], []))
  {
    DefersEnable();
    var s1 := State(In(TRANS_START, true, Enable), [], [], [Enable], []);
    var s2 := s1.(d := In(TRANS_PROGRESS, true, Enable), threads := [Sleeping]);
    Take(s1, Stack(Off), s2);
    Take(s2, Step(0), s2.(threads := [Clearing(Enable, 0)]));
  }

  /** Before the thread clears the hold, a request to disable is deferred. */
  lemma DefersDisable()
    ensures Reachable(State(In(TRANS_PROGRESS, true, Disable), [Clearing(Enable, 0)], [], [Enable, Disable], []))
  {
    ReadsEnable();
    var s := State(In(TRANS_PROGRESS, true, Enable), [Clearing(Enable, 0)], [], [Enable], []);
    Take(s, Test(Ask(Disable, None)), s.(asking := [Ask(Disable, None)]));
    Take(s.(asking := [Ask(Disable, None)]), Store(0),
         State(In(TRANS_PROGRESS, true, Disable), [Clearing(Enable, 0)], [], [Enable, Disable], []));
  }

  /** A request deferred after the thread has read and before it clears the hold is dropped: the last request is
      to disable, the one replayed is to enable, and nothing remembers the other. */
  lemma LateRequestDropped()
    ensures Reachable(State(Zero, [Gone], [], [Enable, Disable], [Replay(0, 0)]))
  {
    DefersDisable();
    var s1 := State(In(TRANS_PROGRESS, true, Disable), [Clearing(Enable, 0)], [], [Enable, Disable], []);
    var s2 := s1.(d := In(TRANS_PROGRESS, false, Disable), threads := [Replaying(Enable, 0)]);
    Take(s1, Step(0), s2);
    Take(s2, Step(0), s2.(threads := [Marking], replays := [Replay(0, 0)]));
    DropsAndEnds(s2.(threads := [Marking], replays := [Replay(0, 0)]));
  }

  lemma DropsAndEnds(s: State)
    requires Reachable(s) && s.threads == [Marking]
    ensures Reachable(s.(d := Zero, threads := [Gone]))
  {
    var s1 := s.(threads := [Defaulting], d := s.d.(phase := TRANS_END));
    Take(s, Step(0), s1);
    var s2 := s.(threads := [Wiping], d := s.d.(phase := DEFAULT));
    Take(s1, Step(0), s2);
    Take(s2, Step(0), s.(d := Zero, threads := [Gone]));
  }

  /** When a second payment ends before the first thread has wiped the record, both threads replay one request. */
  lemma OverlapReplaysTwice()
    ensures exists s :: Reachable(s) && s.deferred == [Enable] && s.replays == [Replay(0, 0), Replay(1, 0)]
  {
    ReadsEnable();
    var s0 := State(In(TRANS_PROGRESS, true, Enable), [Clearing(Enable, 0)], [], [Enable], []);
    Payment(s0);
    var s1 := s0.(d := In(TRANS_PROGRESS, true, Enable), threads := [Clearing(Enable, 0), Sleeping]);
    Take(s0.(d := In(TRANS_START, true, Enable)), Stack(Off), s1);
    Take(s1, Step(1), s1.(threads := [Clearing(Enable, 0), Clearing(Enable, 0)]));
    var s2 := s1.(d := In(TRANS_PROGRESS, false, Enable));
    Take(s1.(threads := [Clearing(Enable, 0), Clearing(Enable, 0)]), Step(0),
        s2.(threads := [Replaying(Enable, 0), Clearing(Enable, 0)]));
    Take(s2.(threads := [Replaying(Enable, 0), Clearing(Enable, 0)]), Step(1),
        s2.(threads := [Replaying(Enable, 0), Replaying(Enable, 0)]));
    BothReplay(s2.(threads := [Replaying(Enable, 0), Replaying(Enable, 0)]));
  }

  lemma BothReplay(s: State)
    requires Reachable(s) && s.threads == [Replaying(Enable, 0), Replaying(Enable, 0)] && !s.d.trans_in_progress &&
        s.replays == []
    ensures Reachable(s.(threads := [Marking, Marking], replays := [Replay(0, 0), Replay(1, 0)]))
  {
    var s1 := s.(threads := [Marking, Replaying(Enable, 0)], replays := [Replay(0, 0)]);
    Take(s, Step(0), s1);
    var s' := s.(threads := [Marking, Marking], replays := [Replay(0, 0), Replay(1, 0)]);
    Take(s1, Step(1), s');
  }

  /** A caller that tested under the hold stores after the wipe: its request is left in the record, with the hold off
      and nobody to replay it. */
  lemma LateRequestLeft()
    ensures Reachable(State(In(DEFAULT, false, Disable), [Gone], [], [Enable, Disable], [Replay(0, 0)]))
  {
    ReadsEnable();
    var ask := [Ask(Disable, None)];
    var s := State(In(TRANS_PROGRESS, true, Enable), [Clearing(Enable, 0)], [], [Enable], []);
    Take(s, Test(Ask(Disable, None)), s.(asking := ask));
    var s1 := s.(asking := ask, d := In(TRANS_PROGRESS, false, Enable), threads := [Replaying(Enable, 0)]);
    Take(s.(asking := ask), Step(0), s1);
    Take(s1, Step(0), s1.(threads := [Marking], replays := [Replay(0, 0)]));
    DropsAndEnds(s1.(threads := [Marking], replays := [Replay(0, 0)]));
    var s2 := State(Zero, [Gone], ask, [Enable], [Replay(0, 0)]);
    Take(s2, Store(0), State(In(DEFAULT, false, Disable), [Gone], [], [Enable, Disable], [Replay(0, 0)]));
  }

  lemma NextPayment()
    ensures Reachable(State(In(TRANS_PROGRESS, true, Disable), [Gone, Sleeping], [], [Enable, Disable], [Replay(0, 0)]))
  {
    LateRequestLeft();
    Payment(State(In(DEFAULT, false, Disable), [Gone], [], [Enable, Disable], [Replay(0, 0)]));
    Take(State(In(TRANS_START, true, Disable), [Gone], [], [Enable, Disable], [Replay(0, 0)]), Stack(Off),
         State(In(TRANS_PROGRESS, true, Disable), [Gone, Sleeping], [], [Enable, Disable], [Replay(0, 0)]));
  }

  /** The thread of the next payment, in which nothing was deferred, replays it. */
  lemma LateRequestReplayedNextTime()
    ensures exists s ::
      Reachable(s) && s.deferred == [Enable, Disable] && s.replays == [Replay(0, 0), Replay(1, 1)]
  {
    NextPayment();
    var s1 := State(In(TRANS_PROGRESS, true, Disable), [Gone, Sleeping], [], [Enable, Disable], [Replay(0, 0)]);
    Take(s1, Step(1), s1.(threads := [Gone, Clearing(Disable, 1)]));
    var s2 := s1.(d := In(TRANS_PROGRESS, false, Disable), threads := [Gone, Replaying(Disable, 1)]);
    Take(s1.(threads := [Gone, Clearing(Disable, 1)]), Step(1), s2);
    var s := s2.(threads := [Gone, Marking], replays := [Replay(0, 0), Replay(1, 1)]);
    Take(s2, Step(1), s);
  }

  /** The last event of acts is a field-off whose time could not be read, and on sets the hold next. */
  predicate StaleHold(acts: seq<Action>, on: Event) {
    && acts != [] && acts[|acts| - 1].Stack? && FieldOff(acts[|acts| - 1].e) && acts[|acts| - 1].e.clock.None?
    && !After(acts).d.trans_in_progress && Next(After(acts), Stack(on)).d.trans_in_progress
  }

  /** The hold is set by a stale timer: the field went off at 10 s, then in a second round at a time that could not be
      read, and came on at 10.04 s. */
  lemma StaleTimerHolds()
    ensures exists acts, on :: StaleHold(acts, on)
  {
    assert After([]) == Start;
    var s := Start.(d := Zero.(phase := EE_ACTION));
    Awaits(Start);
    var off := Zero.(phase := FIELD_EVT_OFF, start_time := Timespec(10, 0));
    Take(s, Stack(RfField(true, false, Some(Timespec(10, 0)), true)), Start.(d := off));
    Awaits(Start.(d := off));
    var acts :| After(acts) == Start.(d := off.(phase := EE_ACTION));
    MissedThenOn(acts);
  }

  lemma MissedThenOn(acts: seq<Action>)
    requires After(acts) == Start.(d := Zero.(phase := EE_ACTION, start_time := Timespec(10, 0)))
    ensures exists more, on :: StaleHold(more, on)
  {
    var more := acts + [Stack(RfField(true, false, None, true))];
    assert more[..|acts|] == acts;
    assert After(more) == Start.(d := Zero.(phase := FIELD_EVT_OFF, start_time := Timespec(10, 0)));
    assert StaleHold(more, RfField(true, true, Some(Timespec(10, 40_000_000)), true));
  }

  /** An activation and an EE action, and the field-off is awaited. */
  lemma Awaits(s: State)
    requires Reachable(s)
    ensures Reachable(s.(d := s.d.(phase := EE_ACTION)))
  {
    var s1 := s.(d := s.d.(phase := ACTIVATED));
    Take(s, Stack(Activated(Frame)), s1);
    Take(s1, Stack(EeAction), s.(d := s.d.(phase := EE_ACTION)));
  }

  /** An activation in the middle of a payment does happen, and strands the hold past the field-off that should end
      it. */
  lemma HoldOutlivesPayment()
    ensures Reachable(State(In(ACTIVATED, true, Nothing), [], [], [], []))
    ensures Stranded(State(In(ACTIVATED, true, Nothing), [], [], [], []))
    ensures forall e :: FieldOff(e) || FieldOn(e) ==>
        Checked(In(ACTIVATED, true, Nothing), e) == (In(ACTIVATED, true, Nothing), false)
  {
    assert After([]) == Start;
    Payment(Start);
    Take(State(In(TRANS_START, true, Nothing), [], [], [], []), Stack(Activated(Frame)),
         State(In(ACTIVATED, true, Nothing), [], [], [], []));
  }
}
