/** When a wait before shutdown may return with work still queued: exactly the states it can happen from. */
module PoolWait {
  import opened Options
  import opened PoolMachine
  import opened PoolProofs
  import opened PoolTheorems
  import opened PoolProgress

  predicate AtTake(pc: WPc) {
    pc.Check? || pc.StopTest? || pc.Take?
  }

  /** A worker holds the mutex on its way to the queue. */
  predicate Taking(s: State) {
    s.owner.Some? && s.owner.value.Worker? && s.owner.value.i < |s.workers| && AtTake(s.workers[s.owner.value.i])
  }

  /** An adder is in the call, its node not yet queued. */
  ghost predicate Adding(s: State) {
    exists a :: 0 <= a < |s.adders| && Held(s.adders[a]).Some?
  }

  /** There is, or will be, a work that no worker is about to take. */
  ghost predicate SpareWork(s: State) {
    Adding(s) || |s.queue| > (if Taking(s) then 1 else 0)
  }

  predicate NoNew(steps: seq<Step>) {
    forall k :: 0 <= k < |steps| ==> !steps[k].New?
  }

  /** Some way of going on, without another add, has a wait before shutdown return over a queued work. */
  ghost predicate MayReturnEarly(s: State) {
    exists steps :: ReturnsEarly(s, steps)
  }

  ghost predicate ReturnsEarly(s: State, steps: seq<Step>) {
    IsRun(s, steps) && NoNew(steps) && After(s, steps).main == MUnlock(false) && After(s, steps).queue != []
  }

  // ----- it may -----

  lemma GoOn(s: State, st: Step)
    requires Enabled(s, st) && !st.New? && MayReturnEarly(Next(s, st))
    ensures MayReturnEarly(s)
  {
    var rest :| ReturnsEarly(Next(s, st), rest);
    var steps := [st] + rest;
    assert steps[0] == st && steps[1..] == rest;
    assert IsRun(s, steps) && After(s, steps) == After(Next(s, st), rest);
    assert ReturnsEarly(s, steps);
  }

  /** The wait itself, from a state where no worker is busy. */
  lemma WaitReturns(s: State)
    requires s.main.MIdle? && s.owner.None? && s.workingCnt == 0 && !s.stop && s.queue != []
    ensures MayReturnEarly(s)
  {
    var s1 := Next(s, CallWait);
    var s2 := Next(s1, M);
    var s3 := Next(s2, M);
    assert ReturnsEarly(s3, []);
    assert MayReturnEarly(s3);
    GoOn(s2, M);
    GoOn(s1, M);
    GoOn(s, CallWait);
  }

  lemma WorkerTaking(s: State, i: nat)
    requires MutexInv(s) && WEnabled(s, i) && !s.workers[i].Lock? && !s.workers[i].Woken?
    ensures Taking(WNext(s, i)) ==> Taking(s) && !s.workers[i].Take?
    ensures s.workers[i].Take? ==> Taking(s)
  {
    var s' := WNext(s, i);
    assert s'.owner == Crossing(s, Worker(i), WHolds(s.workers[i]), WHolds(s'.workers[i]));
  }

  /** A worker that does not lock to take keeps a spare work spare. */
  lemma WorkerMove(s: State, i: nat)
    requires Inv(s) && s.main.MIdle? && SpareWork(s) && WEnabled(s, i)
    requires !s.workers[i].Lock? && !s.workers[i].Woken?
    ensures WNext(s, i).main.MIdle? && SpareWork(WNext(s, i))
  {
    WorkerTaking(s, i);
    WorkerQueue(s, i);
    WorkerMain(s, i);
    assert Adding(WNext(s, i)) <==> Adding(s);
  }

  lemma WorkerMain(s: State, i: nat)
    requires WEnabled(s, i) && s.main.MIdle?
    ensures WNext(s, i).main == s.main && WNext(s, i).adders == s.adders
  {
    EffectMoves(s, i, s.workers[i]);
  }

  lemma AdderMove(s: State, a: nat)
    requires Inv(s) && s.main.MIdle? && SpareWork(s) && AEnabled(s, a)
    ensures ANext(s, a).main.MIdle? && SpareWork(ANext(s, a))
  {
    AdderQueue(s, a);
    if !s.adders[a].Push? {
      AdderAdding(s, ANext(s, a), a);
    }
  }

  lemma AdderAdding(s: State, s': State, a: nat)
    requires a < |s.adders| && s'.adders == s.adders[a := ALine(s.adders[a])] && !s.adders[a].Push?
    ensures Adding(s) ==> Adding(s')
  {
    if b :| 0 <= b < |s.adders| && Held(s.adders[b]).Some? {
      assert Held(s'.adders[b]).Some?;
    }
  }

  lemma AdderQueue(s: State, a: nat)
    requires MutexInv(s) && AEnabled(s, a)
    ensures var s' := ANext(s, a);
            && s'.queue == s.queue + (if s.adders[a].Push? then [s.adders[a].id] else [])
            && s'.main == s.main && s'.adders == s.adders[a := ALine(s.adders[a])] && !Taking(s')
    ensures !Taking(s)
  {
    assert s.queue + [] == s.queue;
  }

  /** An ordinary step towards an early return. */
  ghost predicate Towards(s: State, st: Step) {
    Enabled(s, st) && Ordinary(st) && Next(s, st).main.MIdle? && SpareWork(Next(s, st))
  }

  /** The step of the thread inside the mutex. */
  lemma OwnerCan(s: State) returns (st: Step)
    requires MutexInv(s) && s.owner.Some? && s.main.MIdle?
    ensures st.W? || st.A?
    ensures st.W? ==> WEnabled(s, st.i) && !s.workers[st.i].Lock? && !s.workers[st.i].Woken?
    ensures st.A? ==> AEnabled(s, st.a)
  {
    match s.owner.value
    case Worker(i) => st := W(i);
    case Adder(a) => st := A(a);
    case Main => assert false;
  }

  lemma OwnerMove(s: State) returns (st: Step)
    requires Inv(s) && s.main.MIdle? && SpareWork(s) && s.owner.Some?
    ensures Towards(s, st)
  {
    st := OwnerCan(s);
    if st.W? {
      WorkerMove(s, st.i);
    } else {
      AdderMove(s, st.a);
    }
  }

  lemma BusyMove(s: State) returns (st: Step)
    requires Inv(s) && s.main.MIdle? && SpareWork(s) && s.owner.None? && s.workingCnt > 0
    ensures Towards(s, st)
  {
    SumZero(s.workers, Busy);
    var i :| 0 <= i < |s.workers| && Busy(s.workers[i]) != 0;
    assert !WHolds(s.workers[i]);
    st := W(i);
    WorkerMove(s, i);
  }

  lemma AddingMove(s: State) returns (st: Step)
    requires Inv(s) && s.main.MIdle? && SpareWork(s) && s.owner.None? && s.queue == []
    ensures Towards(s, st)
  {
    var a :| 0 <= a < |s.adders| && Held(s.adders[a]).Some?;
    assert !AHolds(s.adders[a]);
    st := A(a);
    AdderMove(s, a);
  }

  lemma NextMove(s: State) returns (st: Step)
    requires Inv(s) && s.main.MIdle? && SpareWork(s) && (s.owner.Some? || s.workingCnt != 0 || s.queue == [])
    ensures Towards(s, st)
  {
    if s.owner.Some? {
      st := OwnerMove(s);
    } else if s.workingCnt > 0 {
      st := BusyMove(s);
    } else {
      st := AddingMove(s);
    }
  }

  lemma {:induction false} SpareReturns(s: State)
    requires Inv(s) && s.main.MIdle? && SpareWork(s)
    ensures MayReturnEarly(s)
    decreases Rank(s)
  {
    if s.owner.None? && s.workingCnt == 0 && s.queue != [] {
      assert LineInv(s);
      WaitReturns(s);
    } else {
      var st := NextMove(s);
      StepLowers(s, st);
      SpareReturns(Next(s, st));
      GoOn(s, st);
    }
  }

  // ----- it may not -----

  /** Every queued work is about to be taken, and none is being added. */
  ghost predicate NoneSpare(s: State) {
    !Adding(s) && |s.queue| <= if Taking(s) then 1 else 0
  }

  lemma NoneSpareWorker(s: State, i: nat)
    requires Inv(s) && NoneSpare(s) && WEnabled(s, i)
    ensures NoneSpare(WNext(s, i))
  {
    WorkerQueue(s, i);
    assert Adding(WNext(s, i)) <==> Adding(s);
    if s.queue != [] {
      TakerGoesOn(s, i);
    }
  }

  lemma TakerGoesOn(s: State, i: nat)
    requires MutexInv(s) && LineInv(s) && QueueInv(s) && Taking(s) && s.queue != [] && WEnabled(s, i)
    ensures s.workers[i].Take? || Taking(WNext(s, i))
  {
    var j := s.owner.value.i;
    assert WHolds(s.workers[j]) && !MHolds(s.main);
    assert s.first.Some? && !s.stop;
    if i != j {
      assert !WHolds(s.workers[i]) && !WHolds(WLine(s, s.workers[i]));
    }
  }

  lemma NoneSpareStep(s: State, st: Step)
    requires Inv(s) && NoneSpare(s) && Enabled(s, st) && !st.New?
    ensures NoneSpare(Next(s, st))
  {
    match st
    case W(i) => NoneSpareWorker(s, i);
    case A(a) =>
      AdderQueue(s, a);
      assert Held(s.adders[a]).None?;
    case M =>
    case CallWait =>
    case CallDestroy =>
    case SpuriousW(i) =>
    case SpuriousM =>
  }

  lemma {:induction false} NoneSpareRun(s: State, steps: seq<Step>)
    requires Inv(s) && NoneSpare(s) && IsRun(s, steps) && NoNew(steps)
    ensures After(s, steps).main == MUnlock(false) ==> After(s, steps).queue == []
    decreases |steps|
  {
    if steps != [] {
      NoneSpareStep(s, steps[0]);
      StepInv(s, steps[0]);
      NoneSpareRun(Next(s, steps[0]), steps[1..]);
    } else if s.main == MUnlock(false) {
      assert s.owner == Some(Main);
    }
  }

  /**
   * Before its wait is called, an owner's wait may return over a queued work, however the threads go
   * on and with no further add begun, if and only if an add is under way or more works are queued than
   * the one a worker inside the mutex is about to take.
   */
  lemma EarlyReturnIffSpareWork(num: nat, adders: nat, steps: seq<Step>)
    requires IsRun(Init(num, adders), steps) && Reached(num, adders, steps).main.MIdle?
    ensures MayReturnEarly(Reached(num, adders, steps)) <==> SpareWork(Reached(num, adders, steps))
  {
    ReachedInv(num, adders, steps);
    var s := Reached(num, adders, steps);
    if SpareWork(s) {
      SpareReturns(s);
    } else if MayReturnEarly(s) {
      var rest :| ReturnsEarly(s, rest);
      NoneSpareRun(s, rest);
    }
  }
}
