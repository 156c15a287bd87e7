/** What the pool promises in every reachable state. */
module PoolTheorems {
  import opened Options
  import opened PoolMachine
  import opened PoolProofs

  /** The state a run reaches from a fresh pool of `num` threads. */
  function Reached(num: nat, adders: nat, steps: seq<Step>): State
    requires IsRun(Init(num, adders), steps)
  {
    After(Init(num, adders), steps)
  }

  lemma ReachedInv(num: nat, adders: nat, steps: seq<Step>)
    requires IsRun(Init(num, adders), steps)
    ensures Inv(Reached(num, adders, steps))
  {
    InitInv(num, adders);
    RunInv(Init(num, adders), steps);
  }

  lemma {:induction false} ThreadsStay(s: State, steps: seq<Step>)
    requires IsRun(s, steps)
    ensures |After(s, steps).workers| == |s.workers| && |After(s, steps).adders| == |s.adders|
    decreases |steps|
  {
    if steps != [] {
      ThreadsStep(s, steps[0]);
      ThreadsStay(Next(s, steps[0]), steps[1..]);
    }
  }

  lemma ThreadsStep(s: State, st: Step)
    requires Enabled(s, st)
    ensures |Next(s, st).workers| == |s.workers| && |Next(s, st).adders| == |s.adders|
  {
    match st
    case W(i) => EffectMoves(s, i, s.workers[i]);
    case M => MainThreads(s);
    case _ =>
  }

  lemma MainThreads(s: State)
    ensures |MNext(s).workers| == |s.workers| && MNext(s).adders == s.adders
  {
  }

  /** A pool keeps the number of threads it was made with: as many as asked for, and two for none. */
  lemma PoolSize(num: nat, adders: nat, steps: seq<Step>)
    requires IsRun(Init(num, adders), steps)
    ensures |Reached(num, adders, steps).workers| == if num == 0 then 2 else num
    ensures |Reached(num, adders, steps).adders| == adders
  {
    InitInv(num, adders);
    ThreadsStay(Init(num, adders), steps);
  }

  // ----- condition variables -----

  /** With the mutex free, a sleeper that was not notified has nothing to do. */
  lemma NoLostWakeup(num: nat, adders: nat, steps: seq<Step>)
    requires IsRun(Init(num, adders), steps)
    ensures var s := Reached(num, adders, steps);
            s.owner.None? ==>
              && (forall i :: 0 <= i < |s.workers| && s.workers[i].Asleep? ==> s.first.None? && !s.stop)
              && (s.main.MAsleep? ==>
                    (s.stop && s.threadCnt > 0) || (!s.stop && (s.workingCnt > 0 || s.first.Some?)))
  {
    ReachedInv(num, adders, steps);
  }

  /** At most one thread is at a line inside the mutex. */
  lemma MutualExclusion(num: nat, adders: nat, steps: seq<Step>, i: nat, j: nat, a: nat, b: nat)
    requires IsRun(Init(num, adders), steps)
    requires var s := Reached(num, adders, steps); i < |s.workers| && j < |s.workers| && a < |s.adders| && b < |s.adders|
    ensures var s := Reached(num, adders, steps);
            && (WHolds(s.workers[i]) && WHolds(s.workers[j]) ==> i == j)
            && (AHolds(s.adders[a]) && AHolds(s.adders[b]) ==> a == b)
            && !(WHolds(s.workers[i]) && AHolds(s.adders[a]))
            && !(MHolds(s.main) && (WHolds(s.workers[i]) || AHolds(s.adders[a])))
  {
    ReachedInv(num, adders, steps);
  }

  /**
   * Exactly the owner is at lines 78 to 88, 96 to 102 or 105 to 107, 228 to 238, 188 to 197 or 257 to
   * 265; it is nowhere else, so works run outside the mutex and sleepers and the waiting do not hold it.
   */
  ghost predicate OwnerAtLines(s: State) {
    var m := s.main;
    && (forall i :: 0 <= i < |s.workers| ==>
          var w := s.workers[i];
          s.owner == Some(Worker(i)) <==>
            !(w.Lock? || w.Asleep? || w.Woken? || w.Run? || w.Free? || w.Lock2? || w.Done?))
    && (forall a :: 0 <= a < |s.adders| ==> (s.owner == Some(Adder(a)) <==> !(s.adders[a].Idle? || s.adders[a].ALock?)))
    && (s.owner == Some(Main) <==>
          !(m.MIdle? || m.DLock? || m.MLock? || m.MAsleep? || m.MWoken? || m.FreePool? || m.Gone?))
  }

  lemma MutexHeldAt(num: nat, adders: nat, steps: seq<Step>)
    requires IsRun(Init(num, adders), steps)
    ensures OwnerAtLines(Reached(num, adders, steps))
  {
    ReachedInv(num, adders, steps);
    HeldAt(Reached(num, adders, steps));
  }

  lemma HeldAt(s: State)
    requires MutexInv(s)
    ensures OwnerAtLines(s)
  {
  }

  /** Any sleeper may wake without being notified. */
  lemma SleepersMayWake(num: nat, adders: nat, steps: seq<Step>, i: nat)
    requires IsRun(Init(num, adders), steps) && i < |Reached(num, adders, steps).workers|
    ensures var s := Reached(num, adders, steps);
            && (s.workers[i].Asleep? ==> Enabled(s, SpuriousW(i)) && Next(s, SpuriousW(i)).workers[i].Woken?)
            && (s.main.MAsleep? ==> Enabled(s, SpuriousM) && Next(s, SpuriousM).main.MWoken?)
  {
  }

  // ----- counters -----

  /** The workers whose line has weight 1. */
  function Those(ws: seq<WPc>, f: WPc -> nat): set<nat> {
    set i | 0 <= i < |ws| && f(ws[i]) == 1
  }

  lemma {:induction false} SumCounts(ws: seq<WPc>, f: WPc -> nat)
    requires forall i :: 0 <= i < |ws| ==> f(ws[i]) <= 1
    ensures Sum(ws, f) == |Those(ws, f)|
  {
    if ws != [] {
      var init, last := ws[..|ws| - 1], ws[|ws| - 1];
      SumSnoc(ws, f);
      SumCounts(init, f);
      assert Those(ws, f) == Those(init, f) + (if f(last) == 1 then {|ws| - 1} else {});
    }
  }

  lemma {:induction false} SumSnoc(ws: seq<WPc>, f: WPc -> nat)
    requires ws != []
    ensures Sum(ws, f) == Sum(ws[..|ws| - 1], f) + f(ws[|ws| - 1])
  {
    if |ws| > 1 {
      assert ws[1..][..|ws| - 2] == ws[..|ws| - 1][1..];
      SumSnoc(ws[1..], f);
    }
  }

  /** The counters count: workers between dequeue and decrement, workers that have not left; no decrement underflows. */
  lemma CounterMeaning(num: nat, adders: nat, steps: seq<Step>)
    requires IsRun(Init(num, adders), steps)
    ensures var s := Reached(num, adders, steps);
            && s.workingCnt == |Those(s.workers, Busy)| && s.threadCnt == |Those(s.workers, Live)|
            && (forall i :: 0 <= i < |s.workers| && s.workers[i].Dec? ==> s.workingCnt > 0)
            && (forall i :: 0 <= i < |s.workers| && s.workers[i].Exit? ==> s.threadCnt > 0)
  {
    ReachedInv(num, adders, steps);
    var s := Reached(num, adders, steps);
    SumCounts(s.workers, Busy);
    SumCounts(s.workers, Live);
    forall i | 0 <= i < |s.workers| && (s.workers[i].Dec? || s.workers[i].Exit?)
      ensures Sum(s.workers, Busy) >= Busy(s.workers[i]) && Sum(s.workers, Live) >= Live(s.workers[i])
    {
      SumUpdate(s.workers, Busy, i, Lock);
      SumUpdate(s.workers, Live, i, Lock);
    }
  }

  /** A wait's test lets it return exactly when no worker is busy, or in destroy when all have left. */
  lemma WaitReturnsIff(num: nat, adders: nat, steps: seq<Step>)
    requires IsRun(Init(num, adders), steps) && Reached(num, adders, steps).main.MCheck?
    ensures var s := Reached(num, adders, steps);
            MNext(s).main.MUnlock? <==>
              forall i :: 0 <= i < |s.workers| ==> if s.stop then s.workers[i].Done? else Busy(s.workers[i]) == 0
  {
    ReachedInv(num, adders, steps);
    var s := Reached(num, adders, steps);
    SumZero(s.workers, Busy);
    SumZero(s.workers, Live);
    if s.stop && s.threadCnt == 0 {
      WaitEnds(s);
    }
  }

  /** A worker that finishes wakes the waiter exactly when no worker is busy, nothing is queued and no shutdown has begun. */
  lemma SignalIffAllDone(num: nat, adders: nat, steps: seq<Step>, i: nat)
    requires IsRun(Init(num, adders), steps)
    requires var s := Reached(num, adders, steps); i < |s.workers| && s.workers[i].Sig? && s.main.MAsleep?
    ensures var s := Reached(num, adders, steps);
            WNext(s, i).main.MWoken? <==>
              !s.stop && s.queue == [] && forall j :: 0 <= j < |s.workers| ==> Busy(s.workers[j]) == 0
  {
    ReachedInv(num, adders, steps);
    SumZero(Reached(num, adders, steps).workers, Busy);
  }

  lemma {:induction false} RunAppend(s: State, xs: seq<Step>, ys: seq<Step>)
    requires IsRun(s, xs) && IsRun(After(s, xs), ys)
    ensures IsRun(s, xs + ys) && After(s, xs + ys) == After(After(s, xs), ys)
    decreases |xs|
  {
    if xs == [] {
      assert xs + ys == ys;
    } else {
      assert (xs + ys)[1..] == xs[1..] + ys;
      RunAppend(Next(s, xs[0]), xs[1..], ys);
    }
  }

  lemma OneStep(s: State, steps: seq<Step>, st: Step)
    requires IsRun(s, steps) && Enabled(After(s, steps), st)
    ensures IsRun(s, steps + [st]) && After(s, steps + [st]) == Next(After(s, steps), st)
  {
    var e := After(s, steps);
    assert [st][1..] == [] && IsRun(Next(e, st), []);
    RunAppend(s, steps, [st]);
  }

  /** One adder of an idle one-worker pool queues node 7 before the worker gets the mutex. */
  lemma AddOne() returns (steps: seq<Step>)
    ensures IsRun(Init(1, 1), steps)
    ensures var s := Reached(1, 1, steps);
            s.main == MIdle && s.queue == [7] && s.workingCnt == 0 && s.owner == None && !s.stop
  {
    var s := Init(1, 1);
    OneStep(s, [], New(0, 7));
    OneStep(s, [] + [New(0, 7)], A(0));
    OneStep(s, [] + [New(0, 7)] + [A(0)], A(0));
    OneStep(s, [] + [New(0, 7)] + [A(0)] + [A(0)], A(0));
    OneStep(s, [] + [New(0, 7)] + [A(0)] + [A(0)] + [A(0)], A(0));
    steps := [] + [New(0, 7)] + [A(0)] + [A(0)] + [A(0)] + [A(0)];
  }

  /** So a wait before shutdown may return with work still queued: this run of one worker and one adder does. */
  lemma WaitMayLeaveWork()
    ensures exists steps :: IsRun(Init(1, 1), steps)
              && var s := Reached(1, 1, steps); s.main == MUnlock(false) && s.queue != []
  {
    var steps := AddOne();
    OneStep(Init(1, 1), steps, CallWait);
    OneStep(Init(1, 1), steps + [CallWait], M);
    OneStep(Init(1, 1), steps + [CallWait] + [M], M);
    assert Reached(1, 1, steps + [CallWait] + [M] + [M]).queue == [7];
  }

  // ----- works and nodes -----

  /** No work is lost, duplicated or reordered: taken, then drained, then still queued is what was submitted. */
  lemma ExactlyOnceFifo(num: nat, adders: nat, steps: seq<Step>)
    requires IsRun(Init(num, adders), steps)
    ensures var s := Reached(num, adders, steps);
            && s.submitted == s.taken + s.drained + s.queue && Distinct(s.submitted)
            && (!Destroying(s.main) ==> s.submitted == s.taken + s.queue)
  {
    ReachedInv(num, adders, steps);
    var s := Reached(num, adders, steps);
    assert s.taken + [] == s.taken;
  }

  /** A node a worker runs or frees is not in the queue, though its link may still point into it, and no two workers share one. */
  lemma InFlightApart(num: nat, adders: nat, steps: seq<Step>, i: nat, j: nat)
    requires IsRun(Init(num, adders), steps)
    requires var s := Reached(num, adders, steps);
             i < |s.workers| && j < |s.workers| && Job(s.workers[i]).Some? && Job(s.workers[j]).Some?
    ensures var s := Reached(num, adders, steps);
            && Job(s.workers[i]).value in s.taken && Job(s.workers[i]).value in s.next
            && Job(s.workers[i]).value !in s.queue && Job(s.workers[i]).value !in s.freed
            && (Job(s.workers[i]) == Job(s.workers[j]) ==> i == j)
  {
    ReachedInv(num, adders, steps);
  }

  lemma WorkerTouches(s: State, i: nat)
    requires Inv(s) && WEnabled(s, i)
    ensures Touches(s, W(i)) <= s.next.Keys && !s.main.Gone?
  {
    if s.workers[i].Take? {
      TakeFindsQueue(s, i);
    }
    assert Job(s.workers[i]).Some? ==> Job(s.workers[i]).value in s.runner;
  }

  lemma AdderTouches(s: State, a: nat)
    requires Inv(s) && AEnabled(s, a)
    ensures Touches(s, A(a)) <= s.next.Keys && !s.main.Gone?
  {
    if s.adders[a].Push? {
      assert Held(s.adders[a]).Some?;
      assert s.queue != [] ==> s.queue[|s.queue| - 1] in s.next;
    }
  }

  /** Every step touches only allocated nodes, and the pool only before it is freed. */
  lemma MemorySafety(num: nat, adders: nat, steps: seq<Step>, st: Step)
    requires IsRun(Init(num, adders), steps) && Enabled(Reached(num, adders, steps), st)
    ensures var s := Reached(num, adders, steps);
            Touches(s, st) <= s.next.Keys && (UsesPool(s, st) ==> !s.poolFreed)
  {
    ReachedInv(num, adders, steps);
    var s := Reached(num, adders, steps);
    match st
    case W(i) => WorkerTouches(s, i);
    case A(a) => AdderTouches(s, a);
    case _ =>
  }
}
