/** The pool gets on with its work: no deadlock, and every run without new calls ends with all work taken. */
module PoolProgress {
  import opened Options
  import opened PoolMachine
  import opened PoolProofs
  import opened PoolTheorems
  import opened PoolRuns

  /** Threads going on by themselves: no call, no spurious wakeup. */
  predicate Ordinary(st: Step) {
    st.W? || st.A? || st.M?
  }

  predicate Spurious(st: Step) {
    st.SpuriousW? || st.SpuriousM?
  }

  // ----- no deadlock -----

  /** A worker outside the mutex that neither sleeps nor has left can go on. */
  lemma FreeWorkerRuns(s: State)
    requires Inv(s) && s.workers != [] && s.owner.None?
    requires if s.stop then s.threadCnt > 0 else s.first.Some? || s.workingCnt > 0
    ensures exists i :: WEnabled(s, i)
  {
    if s.stop {
      SumZero(s.workers, Live);
      var i :| 0 <= i < |s.workers| && Live(s.workers[i]) != 0;
      assert !WHolds(s.workers[i]) && WEnabled(s, i);
    } else if s.first.Some? {
      assert !WHolds(s.workers[0]) && WEnabled(s, 0);
    } else {
      SumZero(s.workers, Busy);
      var i :| 0 <= i < |s.workers| && Busy(s.workers[i]) != 0;
      assert !WHolds(s.workers[i]) && WEnabled(s, i);
    }
  }

  lemma OwnerRuns(s: State)
    requires MutexInv(s) && s.owner.Some?
    ensures exists st :: Enabled(s, st) && Ordinary(st)
  {
    match s.owner.value
    case Worker(i) => assert Enabled(s, W(i));
    case Adder(a) => assert Enabled(s, A(a));
    case Main => assert Enabled(s, M);
  }

  lemma CanGoOn(s: State)
    requires Inv(s) && s.workers != [] && (s.queue != [] || s.main !in {MIdle, Gone})
    ensures exists st :: Enabled(s, st) && Ordinary(st)
  {
    if s.owner.Some? {
      OwnerRuns(s);
    } else if MEnabled(s) {
      assert Enabled(s, M);
    } else {
      FreeWorkerRuns(s);
      var i :| WEnabled(s, i);
      assert Enabled(s, W(i));
    }
  }

  /**
   * No deadlock: in every reachable state with work queued, or a wait or a destroy under way, some
   * thread can take its next line without a new call or a spurious wakeup.
   */
  lemma NoDeadlock(num: nat, adders: nat, steps: seq<Step>)
    requires IsRun(Init(num, adders), steps)
    ensures var s := Reached(num, adders, steps);
            s.queue != [] || s.main !in {MIdle, Gone} ==> exists st :: Enabled(s, st) && Ordinary(st)
  {
    ReachedInv(num, adders, steps);
    PoolSize(num, adders, steps);
    if Reached(num, adders, steps).queue != [] || Reached(num, adders, steps).main !in {MIdle, Gone} {
      CanGoOn(Reached(num, adders, steps));
    }
  }

  // ----- a rank for every line -----

  function WRank(pc: WPc): nat {
    match pc
    case Unlock(_) => 15
    case Run(_) => 14
    case Free(_) => 13
    case Lock2 => 12
    case Dec => 11
    case Sig => 10
    case Unlock2 => 9
    case Lock => 8
    case Woken => 8
    case Check => 7
    case StopTest => 6
    case Take => 5
    case Exit => 5
    case ExitSig => 4
    case Unlock3 => 3
    case Asleep => 2
    case Done => 0
  }

  /** A push pays for the queued work, a broadcast for waking `n` workers. */
  function ARank(pc: APc, n: nat): nat {
    match pc
    case ALock(_) => 15 + 6 * n
    case Push(_) => 14 + 6 * n
    case Bcast => 2 + 6 * n
    case AUnlock => 1
    case Idle => 0
  }

  function MRank(pc: MPc, n: nat): nat {
    match pc
    case DLock => 12 + 60 * n
    case Drain(_) => 11 + 60 * n
    case SetStop => 10 + 60 * n
    case DBcast => 9 + 60 * n
    case DUnlock => 8
    case MLock(_) => 7
    case MWoken(_) => 6
    case MCheck(_) => 5
    case MAsleep(_) => 4
    case MUnlock(_) => 3
    case FreePool => 2
    case _ => 0
  }

  function ASum(ads: seq<APc>, n: nat): nat {
    if ads == [] then 0 else ARank(ads[0], n) + ASum(ads[1..], n)
  }

  /** A queued work is worth eleven worker lines; a worker line outweighs any move of the waiter. */
  function Rank(s: State): nat {
    10 * (Sum(s.workers, WRank) + 11 * |s.queue| + ASum(s.adders, |s.workers|)) + MRank(s.main, |s.workers|)
  }

  lemma {:induction false} ASumUpdate(ads: seq<APc>, n: nat, a: nat, pc: APc)
    requires a < |ads|
    ensures ASum(ads[a := pc], n) == ASum(ads, n) - ARank(ads[a], n) + ARank(pc, n)
  {
    if a == 0 {
      assert ads[0 := pc][1..] == ads[1..];
    } else {
      assert ads[a := pc][1..] == ads[1..][a - 1 := pc];
      ASumUpdate(ads[1..], n, a - 1, pc);
    }
  }

  lemma {:induction false} WakeAllRank(ws: seq<WPc>)
    ensures Sum(WakeAll(ws), WRank) <= Sum(ws, WRank) + 6 * |ws|
  {
    if ws != [] {
      assert WakeAll(ws)[1..] == WakeAll(ws[1..]);
      WakeAllRank(ws[1..]);
    }
  }

  // ----- every ordinary step lowers it -----

  lemma WorkerLineRank(s: State, i: nat)
    requires LineInv(s) && WEnabled(s, i)
    ensures var pc := s.workers[i];
            WRank(WLine(s, pc)) <= WRank(pc) + (if pc.Take? then 10 else -1)
  {
    assert WorkerLine(s, s.workers[i]);
  }

  lemma TakesOne(s: State, i: nat)
    requires Inv(s) && WEnabled(s, i) && s.workers[i].Take?
    ensures |WNext(s, i).queue| == |s.queue| - 1
  {
    TakeFindsQueue(s, i);
    TakeTook(s, i);
  }

  lemma WEffectQueue(s: State, i: nat, pc: WPc)
    requires !pc.Take?
    ensures WEffect(s, i, pc).queue == s.queue
  {
  }

  lemma WokenRank(pc: MPc, n: nat)
    requires pc.MAsleep?
    ensures MRank(MWoken(pc.inDestroy), n) == MRank(pc, n) + 2
  {
  }

  lemma WorkerQueue(s: State, i: nat)
    requires Inv(s) && WEnabled(s, i)
    ensures |WNext(s, i).queue| == |s.queue| - (if s.workers[i].Take? then 1 else 0)
    ensures WNext(s, i).adders == s.adders && MRank(WNext(s, i).main, |s.workers|) <= MRank(s.main, |s.workers|) + 2
  {
    EffectMoves(s, i, s.workers[i]);
    if s.main.MAsleep? {
      WokenRank(s.main, |s.workers|);
    }
    if s.workers[i].Take? {
      TakesOne(s, i);
    } else {
      WEffectQueue(s, i, s.workers[i]);
    }
  }

  lemma WorkerRank(s: State, i: nat)
    requires Inv(s) && WEnabled(s, i)
    ensures Rank(WNext(s, i)) < Rank(s)
  {
    WorkerLineRank(s, i);
    WorkerQueue(s, i);
    SumUpdate(s.workers, WRank, i, WLine(s, s.workers[i]));
  }

  lemma AdderRank(s: State, a: nat)
    requires AEnabled(s, a)
    ensures Rank(ANext(s, a)) < Rank(s)
  {
    ASumUpdate(s.adders, |s.workers|, a, ALine(s.adders[a]));
    WakeAllRank(s.workers);
  }

  /** What the owner's line does to what the rank counts. */
  lemma MainCounted(s: State)
    requires QueueInv(s) && MEnabled(s)
    ensures var s' := MNext(s);
            && s'.adders == s.adders && |s'.workers| == |s.workers| && s'.main == MLine(s, s.main)
            && s'.workers == (if s.main.DBcast? then WakeAll(s.workers) else s.workers)
            && |s'.queue| == |s.queue| - (if s.main.Drain? && s.main.cur.Some? then 1 else 0)
  {
    assert s.main.Drain? && s.main.cur.Some? ==> s.queue != [];
  }

  lemma MainLineRank(s: State, pc: MPc, n: nat)
    requires !pc.MIdle? && !pc.MAsleep? && !pc.Gone?
    ensures MRank(MLine(s, pc), n) < MRank(pc, n) + (if pc.Drain? && pc.cur.Some? then 1 else if pc.DBcast? then -60 * n else 0)
  {
  }

  lemma MainRank(s: State)
    requires QueueInv(s) && MEnabled(s)
    ensures Rank(MNext(s)) < Rank(s)
  {
    MainCounted(s);
    MainLineRank(s, s.main, |s.workers|);
    WakeAllRank(s.workers);
  }

  /** A step that is not a call lowers the rank, and a spurious wakeup adds at most 60. */
  lemma QuietStep(s: State, st: Step)
    requires Inv(s) && Enabled(s, st) && (Ordinary(st) || Spurious(st))
    ensures if Spurious(st) then Rank(Next(s, st)) <= Rank(s) + 60 else Rank(Next(s, st)) < Rank(s)
  {
    match st
    case W(i) => WorkerRank(s, i);
    case A(a) => AdderRank(s, a);
    case M => MainRank(s);
    case SpuriousW(i) => SpuriousRank(s, i);
    case SpuriousM => WokenRank(s.main, |s.workers|);
  }

  lemma SpuriousRank(s: State, i: nat)
    requires i < |s.workers| && s.workers[i].Asleep?
    ensures Rank(At(s, i, Woken)) == Rank(s) + 60
  {
    SumUpdate(s.workers, WRank, i, Woken);
  }

  lemma StepLowers(s: State, st: Step)
    requires Inv(s) && Enabled(s, st) && Ordinary(st)
    ensures Inv(Next(s, st)) && Rank(Next(s, st)) < Rank(s)
  {
    QuietStep(s, st);
    StepInv(s, st);
  }

  // ----- runs without new calls -----

  /** Nothing is submitted, waited for or destroyed any more. */
  predicate Quiet(steps: seq<Step>) {
    forall k :: 0 <= k < |steps| ==> Ordinary(steps[k]) || Spurious(steps[k])
  }

  function SpuriousIn(steps: seq<Step>): nat {
    if steps == [] then 0 else (if Spurious(steps[0]) then 1 else 0) + SpuriousIn(steps[1..])
  }

  /** Such a run is bounded from where it begins, be that the call of destroy or an idle pool with a full queue. */
  lemma {:induction false} QuietBounded(s: State, steps: seq<Step>)
    requires Inv(s) && IsRun(s, steps) && Quiet(steps)
    ensures |steps| + Rank(After(s, steps)) <= Rank(s) + 61 * SpuriousIn(steps)
    decreases |steps|
  {
    if steps != [] {
      QuietStep(s, steps[0]);
      StepInv(s, steps[0]);
      QuietBounded(Next(s, steps[0]), steps[1..]);
    }
  }

  lemma StuckWorker(s: State, i: nat)
    requires MutexInv(s) && s.owner.None? && i < |s.workers| && !WEnabled(s, i)
    ensures s.workers[i] in {Asleep, Done}
  {
    assert !WHolds(s.workers[i]);
  }

  lemma StuckAdder(s: State, a: nat)
    requires MutexInv(s) && s.owner.None? && a < |s.adders| && !AEnabled(s, a)
    ensures s.adders[a].Idle?
  {
    assert !AHolds(s.adders[a]);
  }

  lemma NoneBusy(s: State)
    requires CountInv(s) && forall i :: 0 <= i < |s.workers| ==> s.workers[i] in {Asleep, Done}
    ensures s.workingCnt == 0
  {
    SumZero(s.workers, Busy);
  }

  lemma StuckThreads(s: State)
    requires MutexInv(s) && CountInv(s) && forall st :: Enabled(s, st) ==> !Ordinary(st)
    ensures s.workingCnt == 0
    ensures forall i :: 0 <= i < |s.workers| ==> s.workers[i] in {Asleep, Done}
    ensures forall a :: 0 <= a < |s.adders| ==> s.adders[a].Idle?
  {
    if s.owner.Some? {
      OwnerRuns(s);
    }
    forall i | 0 <= i < |s.workers| ensures s.workers[i] in {Asleep, Done} {
      assert !Enabled(s, W(i));
      StuckWorker(s, i);
    }
    forall a | 0 <= a < |s.adders| ensures s.adders[a].Idle? {
      assert !Enabled(s, A(a));
      StuckAdder(s, a);
    }
    NoneBusy(s);
  }

  lemma NothingHeld(s: State)
    requires OwnInv(s) && HistoryInv(s) && s.queue == []
    requires forall i :: 0 <= i < |s.workers| ==> Job(s.workers[i]) == None
    requires forall a :: 0 <= a < |s.adders| ==> Held(s.adders[a]) == None
    ensures s.next == map[] && s.runner == map[]
    ensures forall n :: n in s.submitted <==> n in s.freed
  {
    assert forall n :: n !in s.runner && n !in s.author;
    assert forall n :: n !in s.next;
  }

  /**
   * And when it can go no further, spurious wakeups apart, every worker sleeps or has left, no call is
   * under way, a destroy has freed the pool, and every work submitted was run, or drained by a
   * destroy, and its node freed.
   */
  lemma QuietEnds(num: nat, adders: nat, steps: seq<Step>)
    requires IsRun(Init(num, adders), steps)
    requires forall st :: Enabled(Reached(num, adders, steps), st) ==> !Ordinary(st)
    ensures var s := Reached(num, adders, steps);
            && (forall i :: 0 <= i < |s.workers| ==> s.workers[i] in {Asleep, Done})
            && (forall a :: 0 <= a < |s.adders| ==> s.adders[a].Idle?) && s.main in {MIdle, Gone}
            && s.workingCnt == 0 && s.queue == [] && s.next == map[]
            && s.submitted == s.taken + s.drained && (s.main.MIdle? ==> s.submitted == s.taken)
            && (forall n :: n in s.ran <==> n in s.taken) && (forall n :: n in s.submitted <==> n in s.freed)
  {
    var s := Reached(num, adders, steps);
    ReachedInv(num, adders, steps);
    ReachedRan(num, adders, steps);
    NoDeadlock(num, adders, steps);
    StuckThreads(s);
    NothingHeld(s);
    AllTaken(num, adders, steps);
  }

  lemma AllTaken(num: nat, adders: nat, steps: seq<Step>)
    requires IsRun(Init(num, adders), steps)
    requires var s := Reached(num, adders, steps); s.queue == [] && s.main in {MIdle, Gone}
    ensures var s := Reached(num, adders, steps);
            s.submitted == s.taken + s.drained && (s.main.MIdle? ==> s.submitted == s.taken)
  {
    ExactlyOnceFifo(num, adders, steps);
    var s := Reached(num, adders, steps);
    assert s.taken + s.drained + [] == s.taken + s.drained && s.taken + [] == s.taken;
  }

  // ----- destroy can always be carried through -----

  /** Some way of going on ends with the pool freed. */
  ghost predicate CanEnd(s: State) {
    exists steps :: IsRun(s, steps) && After(s, steps).main.Gone?
  }

  lemma EndsAfter(s: State, st: Step)
    requires Enabled(s, st) && CanEnd(Next(s, st))
    ensures CanEnd(s)
  {
    var rest :| IsRun(Next(s, st), rest) && After(Next(s, st), rest).main.Gone?;
    var steps := [st] + rest;
    assert steps[0] == st && steps[1..] == rest;
    assert IsRun(s, steps) && After(s, steps) == After(Next(s, st), rest);
  }

  lemma DestroyGoesOn(s: State, st: Step)
    requires Destroying(s.main) && Enabled(s, st) && Ordinary(st)
    ensures Destroying(Next(s, st).main)
  {
    match st
    case W(i) => EffectMoves(s, i, s.workers[i]);
    case A(a) =>
    case M =>
  }

  lemma {:induction false} DestroyEnds(s: State)
    requires Inv(s) && s.workers != [] && Destroying(s.main)
    ensures CanEnd(s)
    decreases Rank(s)
  {
    if s.main.Gone? {
      assert IsRun(s, []) && After(s, []) == s;
    } else {
      CanGoOn(s);
      var st :| Enabled(s, st) && Ordinary(st);
      StepLowers(s, st);
      DestroyGoesOn(s, st);
      ThreadsStep(s, st);
      DestroyEnds(Next(s, st));
      EndsAfter(s, st);
    }
  }

  /** From any reachable state with no call under way, a destroy can be called and can go through to the end. */
  lemma DestroyCanComplete(num: nat, adders: nat, steps: seq<Step>)
    requires IsRun(Init(num, adders), steps)
    requires var s := Reached(num, adders, steps);
             s.main.MIdle? && forall a :: 0 <= a < |s.adders| ==> s.adders[a].Idle?
    ensures Enabled(Reached(num, adders, steps), CallDestroy)
    ensures CanEnd(Next(Reached(num, adders, steps), CallDestroy))
  {
    var s := Reached(num, adders, steps);
    ReachedInv(num, adders, steps);
    PoolSize(num, adders, steps);
    StepInv(s, CallDestroy);
    DestroyEnds(Next(s, CallDestroy));
  }

  // ----- every add is served -----

  /** The work is being added or was submitted, and no destroy has begun. */
  ghost predicate Serving(s: State, id: Id) {
    (id in s.author || id in s.submitted) && !Destroying(s.main)
  }

  /** Some way of going on, threads going on by themselves, has the work run. */
  ghost predicate CanRun(s: State, id: Id) {
    exists steps :: IsRun(s, steps) && id in After(s, steps).ran
  }

  lemma RunsAfter(s: State, st: Step, id: Id)
    requires Enabled(s, st) && CanRun(Next(s, st), id)
    ensures CanRun(s, id)
  {
    var rest :| IsRun(Next(s, st), rest) && id in After(Next(s, st), rest).ran;
    var steps := [st] + rest;
    assert steps[0] == st && steps[1..] == rest;
    assert IsRun(s, steps) && After(s, steps) == After(Next(s, st), rest);
  }

  lemma ServingGoesOn(s: State, st: Step, id: Id)
    requires Inv(s) && Serving(s, id) && Enabled(s, st) && Ordinary(st)
    ensures Serving(Next(s, st), id)
  {
    match st
    case W(i) => ServingWorker(s, i, s.workers[i]);
    case A(a) =>
    case M => ServingMain(s);
  }

  lemma ServingWorker(s: State, i: nat, pc: WPc)
    ensures var e := WEffect(s, i, pc); e.submitted == s.submitted && e.author == s.author
    ensures Destroying(WEffect(s, i, pc).main) <==> Destroying(s.main)
  {
  }

  lemma ServingMain(s: State)
    requires !Destroying(s.main)
    ensures var s' := MNext(s); s'.submitted == s.submitted && s'.author == s.author && !Destroying(s'.main)
  {
  }

  lemma ServedAtEnd(s: State, id: Id)
    requires Inv(s) && RanInv(s) && s.workers != [] && Serving(s, id) && forall st :: Enabled(s, st) ==> !Ordinary(st)
    ensures id in s.ran
  {
    if s.queue != [] || s.main !in {MIdle, Gone} {
      CanGoOn(s);
    }
    StuckThreads(s);
    NothingHeld(s);
    assert s.taken + [] + [] == s.taken;
  }

  lemma {:induction false} ServingRuns(s: State, id: Id)
    requires Inv(s) && RanInv(s) && s.workers != [] && Serving(s, id)
    ensures CanRun(s, id)
    decreases Rank(s)
  {
    if st :| Enabled(s, st) && Ordinary(st) {
      StepLowers(s, st);
      RanStep(s, st);
      ServingGoesOn(s, st, id);
      ThreadsStep(s, st);
      ServingRuns(Next(s, st), id);
      RunsAfter(s, st, id);
    } else {
      ServedAtEnd(s, id);
      assert IsRun(s, []) && After(s, []) == s;
    }
  }

  /** In any reachable state before destroy any idle adder may add any fresh work, and the work can be run. */
  lemma AddIsServed(num: nat, adders: nat, steps: seq<Step>, a: nat, id: Id)
    requires IsRun(Init(num, adders), steps)
    requires var s := Reached(num, adders, steps);
             a < |s.adders| && s.adders[a].Idle? && !Destroying(s.main) && id !in s.next && id !in s.freed
    ensures Enabled(Reached(num, adders, steps), New(a, id))
    ensures CanRun(Next(Reached(num, adders, steps), New(a, id)), id)
  {
    var s := Reached(num, adders, steps);
    ReachedInv(num, adders, steps);
    ReachedRan(num, adders, steps);
    PoolSize(num, adders, steps);
    StepInv(s, New(a, id));
    RanStep(s, New(a, id));
    ServingRuns(Next(s, New(a, id)), id);
  }
}
