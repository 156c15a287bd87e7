/** Which works were run: each dequeued work once, before its node is freed. */
module PoolRuns {
  import opened Options
  import opened PoolMachine
  import opened PoolProofs
  import opened PoolTheorems

  /** The worker holds a work it has not run. */
  predicate YetToRun(pc: WPc) {
    pc.Unlock? || pc.Run?
  }

  /** A dequeued work was run or is held by a worker about to run it, never both. */
  ghost predicate RanInv(s: State) {
    && Distinct(s.ran)
    && (forall n :: n in s.ran ==> n in s.taken)
    && (forall i :: 0 <= i < |s.workers| && YetToRun(s.workers[i]) && Job(s.workers[i]).Some? ==> Job(s.workers[i]).value !in s.ran)
    && (forall n :: n in s.taken ==>
          n in s.ran || (n in s.runner && s.runner[n] < |s.workers| && YetToRun(s.workers[s.runner[n]])))
  }

  /** Nothing is dequeued or run, and no worker comes to or leaves a work it has not run. */
  ghost predicate RunsKept(s: State, s': State) {
    && s'.ran == s.ran && s'.taken == s.taken && s'.runner == s.runner && |s'.workers| == |s.workers|
    && (forall i :: 0 <= i < |s.workers| ==>
          (YetToRun(s'.workers[i]) <==> YetToRun(s.workers[i])) && Job(s'.workers[i]) == Job(s.workers[i]))
  }

  lemma KeptRan(s: State, s': State)
    requires RunsKept(s, s') && RanInv(s)
    ensures RanInv(s')
  {
  }

  lemma IdleWorkerKeeps(s: State, i: nat)
    requires WEnabled(s, i)
    requires var pc := s.workers[i]; !pc.Take? && !pc.Unlock? && !pc.Run? && !pc.Free?
    ensures RunsKept(s, WNext(s, i))
  {
    var pc := s.workers[i];
    assert !YetToRun(WLine(s, pc)) && Job(WLine(s, pc)) == Job(pc) == None;
  }

  lemma TakeRan(s: State, i: nat)
    requires Inv(s) && RanInv(s) && WEnabled(s, i) && s.workers[i].Take?
    ensures RanInv(WNext(s, i))
  {
    TakeFindsQueue(s, i);
    TakeTook(s, i);
    NewWorkNotRan(s);
    TookRan(s, WNext(s, i), i, s.queue[0]);
  }

  lemma NewWorkNotRan(s: State)
    requires HistoryInv(s) && RanInv(s) && s.queue != []
    ensures s.queue[0] !in s.ran && s.queue[0] !in s.taken
  {
    ConcatApart(s.taken, s.drained + s.queue);
    assert s.taken + s.drained + s.queue == s.taken + (s.drained + s.queue);
    assert s.queue[0] in s.drained + s.queue;
  }

  lemma TookRan(s: State, s': State, i: nat, id: Id)
    requires RanInv(s) && Took(s, s', i, id) && id !in s.ran && id !in s.taken && id !in s.runner
    requires s'.workers == s.workers[i := Unlock(Some(id))] && s'.ran == s.ran && s.workers[i].Take?
    ensures RanInv(s')
  {
    assert forall n :: n in s'.taken <==> n in s.taken || n == id;
  }

  lemma UnlockRan(s: State, i: nat)
    requires RanInv(s) && WEnabled(s, i) && s.workers[i].Unlock?
    ensures RanInv(WNext(s, i))
  {
    KeptRan(s, WNext(s, i));
  }

  lemma RunRan(s: State, i: nat)
    requires Inv(s) && RanInv(s) && WEnabled(s, i) && s.workers[i].Run?
    ensures RanInv(WNext(s, i))
  {
    var s' := WNext(s, i);
    assert WorkerLine(s, s.workers[i]);
    var id := s.workers[i].job.value;
    assert Job(s.workers[i]) == Some(id) && id in s.runner && s.runner[id] == i;
    RanOne(s, s', i, id);
  }

  lemma RanOne(s: State, s': State, i: nat, id: Id)
    requires OwnInv(s) && HistoryInv(s) && RanInv(s) && i < |s.workers| && s.workers[i] == Run(Some(id))
    requires s'.ran == s.ran + [id] && s'.taken == s.taken && s'.runner == s.runner
    requires s'.workers == s.workers[i := Free(id)]
    ensures RanInv(s')
  {
    assert Job(s.workers[i]) == Some(id);
    assert forall n :: n in s'.ran <==> n in s.ran || n == id;
    forall n | n in s'.taken
      ensures n in s'.ran || (n in s'.runner && s'.runner[n] < |s'.workers| && YetToRun(s'.workers[s'.runner[n]]))
    {
      assert n in s.ran || n in s.runner;
    }
    forall j | 0 <= j < |s'.workers| && YetToRun(s'.workers[j]) && Job(s'.workers[j]).Some?
      ensures Job(s'.workers[j]).value !in s'.ran
    {
      assert j != i && s'.workers[j] == s.workers[j] && s.runner[Job(s.workers[j]).value] == j;
    }
  }

  lemma FreeRan(s: State, i: nat)
    requires Inv(s) && RanInv(s) && WEnabled(s, i) && s.workers[i].Free?
    ensures RanInv(WNext(s, i))
  {
    var id := s.workers[i].id;
    FreeReleases(s, i);
    FreedOne(s, WNext(s, i), i, id);
  }

  lemma FreedOne(s: State, s': State, i: nat, id: Id)
    requires OwnInv(s) && RanInv(s) && i < |s.workers| && s.workers[i] == Free(id)
    requires s'.ran == s.ran && s'.taken == s.taken && s'.runner == s.runner - {id}
    requires s'.workers == s.workers[i := Lock2]
    ensures RanInv(s')
  {
    assert Job(s.workers[i]) == Some(id) && s.runner[id] == i;
    forall n | n in s'.taken
      ensures n in s'.ran || (n in s'.runner && s'.runner[n] < |s'.workers| && YetToRun(s'.workers[s'.runner[n]]))
    {
      assert n != id ==> n in s.ran || s.runner[n] != i;
    }
  }

  lemma WorkerRan(s: State, i: nat)
    requires Inv(s) && RanInv(s) && WEnabled(s, i)
    ensures RanInv(WNext(s, i))
  {
    var pc := s.workers[i];
    if pc.Take? {
      TakeRan(s, i);
    } else if pc.Unlock? {
      UnlockRan(s, i);
    } else if pc.Run? {
      RunRan(s, i);
    } else if pc.Free? {
      FreeRan(s, i);
    } else {
      IdleWorkerKeeps(s, i);
      KeptRan(s, WNext(s, i));
    }
  }

  lemma AdderKeepsRuns(s: State, a: nat)
    requires AEnabled(s, a)
    ensures RunsKept(s, ANext(s, a))
  {
  }

  lemma MEffectRuns(s: State, pc: MPc)
    ensures var e := MEffect(s, pc);
            && e.ran == s.ran && e.taken == s.taken && e.runner == s.runner
            && e.workers == if pc.DBcast? then WakeAll(s.workers) else s.workers
  {
  }

  lemma MainKeepsRuns(s: State)
    requires MEnabled(s)
    ensures RunsKept(s, MNext(s))
  {
    MEffectRuns(s, s.main);
  }

  lemma OthersKeep(s: State, st: Step)
    requires Enabled(s, st) && !st.W?
    ensures RunsKept(s, Next(s, st))
  {
    match st
    case A(a) => AdderKeepsRuns(s, a);
    case M => MainKeepsRuns(s);
    case New(_, _) =>
    case CallWait =>
    case CallDestroy =>
    case SpuriousW(_) =>
    case SpuriousM =>
  }

  lemma RanStep(s: State, st: Step)
    requires Inv(s) && RanInv(s) && Enabled(s, st)
    ensures RanInv(Next(s, st))
  {
    if st.W? {
      WorkerRan(s, st.i);
    } else {
      OthersKeep(s, st);
      KeptRan(s, Next(s, st));
    }
  }

  lemma {:induction false} RanRun(s: State, steps: seq<Step>)
    requires Inv(s) && RanInv(s) && IsRun(s, steps)
    ensures RanInv(After(s, steps))
    decreases |steps|
  {
    if steps != [] {
      RanStep(s, steps[0]);
      StepInv(s, steps[0]);
      RanRun(Next(s, steps[0]), steps[1..]);
    }
  }

  lemma ReachedRan(num: nat, adders: nat, steps: seq<Step>)
    requires IsRun(Init(num, adders), steps)
    ensures RanInv(Reached(num, adders, steps))
  {
    InitInv(num, adders);
    RanRun(Init(num, adders), steps);
  }

  /** Every dequeued work is run exactly once: no work runs twice, and one whose node is freed was run or drained. */
  lemma RunOnce(num: nat, adders: nat, steps: seq<Step>)
    requires IsRun(Init(num, adders), steps)
    ensures var s := Reached(num, adders, steps);
            && Distinct(s.ran) && (forall n :: n in s.ran ==> n in s.taken)
            && (forall n :: n in s.freed ==> n in s.ran || n in s.drained)
            && (forall n :: n in s.taken && n !in s.ran ==>
                  n in s.runner && s.runner[n] < |s.workers| && YetToRun(s.workers[s.runner[n]]))
  {
    ReachedInv(num, adders, steps);
    ReachedRan(num, adders, steps);
  }

  lemma ConcatApart(a: seq<Id>, b: seq<Id>)
    requires Distinct(a + b)
    ensures forall n :: n in a ==> n !in b
  {
    forall j, k | 0 <= j < |a| && 0 <= k < |b| ensures a[j] != b[k] {
      assert (a + b)[j] == a[j] && (a + b)[|a| + k] == b[k];
    }
  }

  /**
   * When the pool is freed, every worker has passed its last unlock, every submitted node was freed
   * exactly once, and its work was run, exactly once, or drained, never both.
   */
  lemma CleanShutdown(num: nat, adders: nat, steps: seq<Step>)
    requires IsRun(Init(num, adders), steps) && Reached(num, adders, steps).main in {FreePool, Gone}
    ensures var s := Reached(num, adders, steps);
            && (forall i :: 0 <= i < |s.workers| ==> s.workers[i].Done?)
            && s.next == map[]
            && Distinct(s.freed) && (forall n :: n in s.freed <==> n in s.submitted)
            && Distinct(s.ran) && (forall n :: n in s.ran <==> n in s.taken)
            && (forall n :: n in s.submitted ==> (n in s.ran) != (n in s.drained))
  {
    ReachedInv(num, adders, steps);
    ReachedRan(num, adders, steps);
    AllFreed(Reached(num, adders, steps));
  }

  lemma AllFreed(s: State)
    requires LineInv(s) && QueueInv(s) && OwnInv(s) && HistoryInv(s) && s.main in {FreePool, Gone}
    ensures s.next == map[]
    ensures forall n :: n in s.freed <==> n in s.submitted
    ensures forall n :: n in s.submitted ==> (n in s.taken) != (n in s.drained)
  {
    assert forall n :: n !in s.next;
    assert s.submitted == s.taken + s.drained;
    ConcatApart(s.taken, s.drained);
  }
}
