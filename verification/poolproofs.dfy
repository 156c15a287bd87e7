/** The pool's invariant, kept by every step of every run. */
module PoolProofs {
  import opened Options
  import opened PoolMachine

  // ----- sums over workers -----

  function Busy(pc: WPc): nat {
    if pc.Unlock? || pc.Run? || pc.Free? || pc.Lock2? || pc.Dec? then 1 else 0
  }

  function Live(pc: WPc): nat {
    if pc.ExitSig? || pc.Unlock3? || pc.Done? then 0 else 1
  }

  function Sum(ws: seq<WPc>, f: WPc -> nat): nat {
    if ws == [] then 0 else f(ws[0]) + Sum(ws[1..], f)
  }

  lemma {:induction false} SumUpdate(ws: seq<WPc>, f: WPc -> nat, i: nat, pc: WPc)
    requires i < |ws|
    ensures Sum(ws[i := pc], f) == Sum(ws, f) - f(ws[i]) + f(pc)
    ensures f(ws[i]) <= Sum(ws, f)
  {
    if i == 0 {
      assert ws[0 := pc][1..] == ws[1..];
    } else {
      assert ws[i := pc][1..] == ws[1..][i - 1 := pc];
      SumUpdate(ws[1..], f, i - 1, pc);
    }
  }

  /** Waking the sleepers changes the sum by no more than each sleeper's own weight. */
  lemma {:induction false} SumWakeAll(ws: seq<WPc>, f: WPc -> nat)
    requires f(Woken) <= f(Asleep)
    ensures Sum(WakeAll(ws), f) <= Sum(ws, f)
    ensures f(Woken) == f(Asleep) ==> Sum(WakeAll(ws), f) == Sum(ws, f)
  {
    if ws != [] {
      assert WakeAll(ws)[1..] == WakeAll(ws[1..]);
      SumWakeAll(ws[1..], f);
    }
  }

  lemma {:induction false} SumZero(ws: seq<WPc>, f: WPc -> nat)
    ensures Sum(ws, f) == 0 <==> forall i :: 0 <= i < |ws| ==> f(ws[i]) == 0
  {
    if ws != [] {
      SumZero(ws[1..], f);
      if Sum(ws, f) == 0 {
        forall i | 0 <= i < |ws| ensures f(ws[i]) == 0 {
          assert i > 0 ==> ws[i] == ws[1..][i - 1];
        }
      } else if f(ws[0]) == 0 {
        var i :| 0 <= i < |ws[1..]| && f(ws[1..][i]) != 0;
        assert ws[i + 1] == ws[1..][i];
      }
    }
  }

  lemma {:induction false} SumSame(ws: seq<WPc>, f: WPc -> nat, one: nat)
    requires forall i :: 0 <= i < |ws| ==> f(ws[i]) == one
    ensures Sum(ws, f) == |ws| * one
  {
    if ws != [] {
      SumSame(ws[1..], f, one);
    }
  }

  // ----- the invariant, part by part -----

  /** Exactly the owner is inside the mutex. */
  ghost predicate MutexInv(s: State) {
    && (forall i :: 0 <= i < |s.workers| ==> (WHolds(s.workers[i]) <==> s.owner == Some(Worker(i))))
    && (forall a :: 0 <= a < |s.adders| ==> (AHolds(s.adders[a]) <==> s.owner == Some(Adder(a))))
    && (MHolds(s.main) <==> s.owner == Some(Main))
    && (s.owner.Some? ==>
          match s.owner.value
          case Worker(i) => i < |s.workers|
          case Adder(a) => a < |s.adders|
          case Main => true)
  }

  predicate StopIsSet(pc: MPc) {
    Destroying(pc) && !pc.DLock? && !pc.Drain? && !pc.SetStop?
  }

  predicate WaitIsOver(pc: MPc) {
    pc.FreePool? || pc.Gone? || (pc.MUnlock? && pc.inDestroy)
  }

  /** What being at a line says about the fields. */
  ghost predicate LineInv(s: State) {
    && (s.stop <==> StopIsSet(s.main))
    && (s.poolFreed <==> s.main.Gone?)
    && (Destroying(s.main) ==> forall a :: 0 <= a < |s.adders| ==> s.adders[a].Idle?)
    && (WaitIsOver(s.main) ==> forall i :: 0 <= i < |s.workers| ==> s.workers[i].Done?)
    && (forall i :: 0 <= i < |s.workers| ==> WorkerLine(s, s.workers[i]))
  }

  predicate WorkerLine(s: State, pc: WPc) {
    match pc
    case StopTest => s.stop || s.first.Some?
    case Take => !s.stop && s.first.Some?
    case Unlock(job) => job.Some?
    case Run(job) => job.Some?
    case Exit => s.stop
    case ExitSig => s.stop
    case Unlock3 => s.stop
    case Done => s.stop
    case _ => true
  }

  ghost predicate CountInv(s: State) {
    && s.workingCnt == Sum(s.workers, Busy)
    && s.threadCnt == Sum(s.workers, Live)
  }

  function Head(q: seq<Id>): Option<Id> {
    if q == [] then None else Some(q[0])
  }

  function Last(q: seq<Id>): Option<Id> {
    if q == [] then None else Some(q[|q| - 1])
  }

  ghost predicate Distinct(q: seq<Id>) {
    forall j, k :: 0 <= j < k < |q| ==> q[j] != q[k]
  }

  /** The nodes of `q` are allocated, distinct and linked in order. */
  ghost predicate Chain(next: map<Id, Option<Id>>, q: seq<Id>) {
    && (forall k :: 0 <= k < |q| ==> q[k] in next && next[q[k]] == Head(q[k + 1..]))
    && Distinct(q)
  }

  /** Before the drain the fields name the queue's ends; the drain's cursor is the queue; after it nothing is left. */
  ghost predicate QueueInv(s: State) {
    && Chain(s.next, s.queue)
    && (!Destroying(s.main) || s.main.DLock? ==> s.first == Head(s.queue) && s.last == Last(s.queue))
    && (s.main.Drain? ==> s.main.cur == Head(s.queue))
    && (s.main.SetStop? || StopIsSet(s.main) ==> s.queue == [])
  }

  function Job(pc: WPc): Option<Id> {
    match pc
    case Unlock(job) => job
    case Run(job) => job
    case Free(id) => Some(id)
    case _ => None
  }

  function Held(pc: APc): Option<Id> {
    match pc
    case ALock(id) => Some(id)
    case Push(id) => Some(id)
    case _ => None
  }

  /** Every allocated node has one owner: the queue, a worker, or an adder. */
  ghost predicate OwnInv(s: State) {
    && (forall n :: n in s.next <==> n in s.queue || n in s.runner || n in s.author)
    && (forall n :: n in s.queue ==> n !in s.runner && n !in s.author)
    && s.runner.Keys !! s.author.Keys
    && (forall n :: n in s.runner ==> s.runner[n] < |s.workers| && Job(s.workers[s.runner[n]]) == Some(n))
    && (forall i :: 0 <= i < |s.workers| && Job(s.workers[i]).Some? ==>
          var n := Job(s.workers[i]).value; n in s.runner && s.runner[n] == i)
    && (forall n :: n in s.author ==> s.author[n] < |s.adders| && Held(s.adders[s.author[n]]) == Some(n))
    && (forall n :: n in s.author ==> n in s.next && s.next[n] == None)
    && (forall a :: 0 <= a < |s.adders| && Held(s.adders[a]).Some? ==>
          var n := Held(s.adders[a]).value; n in s.author && s.author[n] == a)
  }

  /** Submitted works are those taken, then those drained, then those queued; freed are the finished ones. */
  ghost predicate HistoryInv(s: State) {
    && s.submitted == s.taken + s.drained + s.queue
    && (!Destroying(s.main) || s.main.DLock? ==> s.drained == [])
    && Distinct(s.submitted) && Distinct(s.freed)
    && (forall n :: n in s.author ==> n !in s.submitted)
    && (forall n :: n in s.freed ==> n !in s.next && n in s.submitted)
    && (forall n :: n in s.submitted ==> n in s.freed || n in s.runner || n in s.queue)
    && (forall n :: n in s.runner ==> n in s.taken)
  }

  /** The owner is an adder that has queued a work and not yet broadcast. */
  predicate Announcing(s: State) {
    s.owner.Some? && s.owner.value.Adder? && s.owner.value.a < |s.adders| && s.adders[s.owner.value.a].Bcast?
  }

  predicate WorkerIsAt(s: State, pc: WPc) {
    s.owner.Some? && s.owner.value.Worker? && s.owner.value.i < |s.workers| && s.workers[s.owner.value.i] == pc
  }

  /** No one sleeps through what it waits for. */
  ghost predicate WakeInv(s: State) {
    && (forall i :: 0 <= i < |s.workers| && s.workers[i].Asleep? ==>
          (s.first.None? || Announcing(s)) && (!s.stop || s.main.DBcast?))
    && (s.main.MAsleep? ==>
          if s.stop then s.threadCnt > 0 || WorkerIsAt(s, ExitSig)
          else s.workingCnt > 0 || s.first.Some? || WorkerIsAt(s, Sig))
  }

  ghost predicate Inv(s: State) {
    MutexInv(s) && LineInv(s) && CountInv(s) && QueueInv(s) && OwnInv(s) && HistoryInv(s) && WakeInv(s)
  }

  lemma InitInv(num: nat, adders: nat)
    ensures Inv(Init(num, adders))
    ensures |Init(num, adders).workers| == (if num == 0 then 2 else num) && |Init(num, adders).adders| == adders
  {
    var s := Init(num, adders);
    InitCounts(s);
    assert MutexInv(s) && LineInv(s) && WakeInv(s);
    assert QueueInv(s) && OwnInv(s) && HistoryInv(s);
  }

  lemma InitCounts(s: State)
    requires s.workingCnt == 0 && s.threadCnt == |s.workers| && forall i :: 0 <= i < |s.workers| ==> s.workers[i] == Lock
    ensures CountInv(s)
  {
    SumSame(s.workers, Busy, 0);
    SumSame(s.workers, Live, 1);
  }

  // ----- workers -----

  /** Everything a worker's step does outside the queue. */
  ghost predicate WorkerMoves(s: State, s': State, i: nat)
    requires i < |s.workers| && i < |s'.workers|
  {
    var pc, pc' := s.workers[i], s'.workers[i];
    && s'.workers == s.workers[i := pc'] && s'.adders == s.adders
    && s'.stop == s.stop && s'.poolFreed == s.poolFreed
    && (s'.main == s.main || (s.main.MAsleep? && s'.main == MWoken(s.main.inDestroy)))
    && s'.owner == (if WHolds(pc') then Some(Worker(i)) else if WHolds(pc) then None else s.owner)
    && (WHolds(pc') && !WHolds(pc) ==> s.owner.None?)
    && s'.workingCnt == s.workingCnt - Busy(pc) + Busy(pc')
    && s'.threadCnt == s.threadCnt - Live(pc) + Live(pc')
    && (!pc.Take? ==> s'.first == s.first)
    && (pc'.Asleep? ==> pc.Check? && s.first.None? && !s.stop)
    && (Busy(pc') < Busy(pc) ==> pc'.Sig?) && (Live(pc') < Live(pc) ==> pc'.ExitSig?)
    && (pc.Sig? && !s.stop && s.workingCnt == 0 && s.first.None? ==> !s'.main.MAsleep?)
    && (pc.ExitSig? ==> !s'.main.MAsleep?)
    && (pc.Take? ==> Busy(pc') == 1)
    && !pc.Done?
    && (WorkerLine(s, pc) ==> WorkerLine(s', pc'))
  }

  lemma LineMoves(s: State, pc: WPc)
    requires !pc.Asleep? && !pc.Done?
    ensures var pc' := WLine(s, pc);
            && (WHolds(pc') && !WHolds(pc) ==> pc.Lock? || pc.Woken? || pc.Lock2?)
            && Busy(pc') == Busy(pc) + (if pc.Take? then 1 else if pc.Dec? then -1 else 0)
            && Live(pc') == Live(pc) - (if pc.Exit? then 1 else 0)
            && (pc.Dec? ==> pc'.Sig?) && (pc.Exit? ==> pc'.ExitSig?)
            && (pc'.Asleep? ==> pc.Check? && s.first.None? && !s.stop)
  {
  }

  lemma EffectMoves(s: State, i: nat, pc: WPc)
    ensures var e := WEffect(s, i, pc);
            && e.adders == s.adders && e.stop == s.stop && e.poolFreed == s.poolFreed
            && (e.main == s.main || (s.main.MAsleep? && e.main == MWoken(s.main.inDestroy)))
            && e.workingCnt == s.workingCnt + (if pc.Take? then 1 else if pc.Dec? then -1 else 0)
            && e.threadCnt == s.threadCnt - (if pc.Exit? then 1 else 0)
            && (!pc.Take? ==> e.first == s.first)
            && (pc.ExitSig? || (pc.Sig? && !s.stop && s.workingCnt == 0 && s.first.None?) ==> !e.main.MAsleep?)
  {
  }

  lemma LineStays(s: State, s': State, pc: WPc)
    requires !pc.Asleep? && !pc.Done? && WorkerLine(s, pc) && s'.stop == s.stop && (!pc.Take? ==> s'.first == s.first)
    ensures WorkerLine(s', WLine(s, pc))
  {
  }

  lemma WorkerStepMoves(s: State, i: nat)
    requires WEnabled(s, i) && (WHolds(s.workers[i]) <==> s.owner == Some(Worker(i)))
    ensures WorkerMoves(s, WNext(s, i), i)
  {
    var pc := s.workers[i];
    LineMoves(s, pc);
    EffectMoves(s, i, pc);
    if WorkerLine(s, pc) {
      LineStays(s, WNext(s, i), pc);
    }
  }

  lemma WorkerMutex(s: State, s': State, i: nat)
    requires MutexInv(s) && i < |s.workers| && i < |s'.workers| && WorkerMoves(s, s', i)
    ensures MutexInv(s')
  {
  }

  lemma WorkerLines(s: State, s': State, i: nat)
    requires MutexInv(s) && LineInv(s) && i < |s.workers| && i < |s'.workers| && WorkerMoves(s, s', i)
    ensures LineInv(s')
  {
  }

  lemma WorkerCounts(s: State, s': State, i: nat)
    requires CountInv(s) && i < |s.workers| && i < |s'.workers| && WorkerMoves(s, s', i)
    ensures CountInv(s')
  {
    SumUpdate(s.workers, Busy, i, s'.workers[i]);
    SumUpdate(s.workers, Live, i, s'.workers[i]);
  }

  lemma WorkerWake(s: State, s': State, i: nat)
    requires MutexInv(s) && LineInv(s) && WakeInv(s) && CountInv(s) && CountInv(s')
    requires i < |s.workers| && i < |s'.workers| && WorkerMoves(s, s', i)
    ensures WakeInv(s')
  {
    SumUpdate(s.workers, Busy, i, s'.workers[i]);
    SumUpdate(s'.workers, Busy, i, s'.workers[i]);
  }

  // ----- workers and nodes -----

  ghost predicate NodeInv(s: State) {
    QueueInv(s) && OwnInv(s) && HistoryInv(s)
  }

  /** The fields nodes live in are untouched, and no job changes hands. */
  ghost predicate NodesKept(s: State, s': State) {
    && s'.first == s.first && s'.last == s.last && s'.next == s.next && s'.queue == s.queue
    && s'.submitted == s.submitted && s'.taken == s.taken && s'.drained == s.drained && s'.freed == s.freed
    && s'.runner == s.runner && s'.author == s.author
    && |s'.workers| == |s.workers| && |s'.adders| == |s.adders|
    && (forall i :: 0 <= i < |s.workers| ==> Job(s'.workers[i]) == Job(s.workers[i]))
    && (forall a :: 0 <= a < |s.adders| ==> Held(s'.adders[a]) == Held(s.adders[a]))
  }

  lemma NodesKeptOwn(s: State, s': State)
    requires NodesKept(s, s') && OwnInv(s)
    ensures OwnInv(s')
  {
    forall i | 0 <= i < |s'.workers| && Job(s'.workers[i]).Some?
      ensures var n := Job(s'.workers[i]).value; n in s'.runner && s'.runner[n] == i
    {
      assert Job(s.workers[i]).Some?;
    }
    forall a | 0 <= a < |s'.adders| && Held(s'.adders[a]).Some?
      ensures var n := Held(s'.adders[a]).value; n in s'.author && s'.author[n] == a
    {
      assert Held(s.adders[a]).Some?;
    }
  }

  /** All of `NodesKept` but the workers' own part. */
  ghost predicate FieldsKept(s: State, s': State) {
    && s'.first == s.first && s'.last == s.last && s'.next == s.next && s'.queue == s.queue
    && s'.submitted == s.submitted && s'.taken == s.taken && s'.drained == s.drained && s'.freed == s.freed
    && s'.runner == s.runner && s'.author == s.author && s'.adders == s.adders
  }

  lemma WEffectKeeps(s: State, i: nat, pc: WPc)
    requires !pc.Take? && !pc.Free?
    ensures FieldsKept(s, WEffect(s, i, pc))
  {
  }

  lemma LineKeepsJob(s: State, pc: WPc)
    requires !pc.Take? && !pc.Free? && WorkerLine(s, pc)
    ensures Job(WLine(s, pc)) == Job(pc)
  {
  }

  lemma WorkerKeepsNodes(s: State, i: nat)
    requires WEnabled(s, i) && !s.workers[i].Take? && !s.workers[i].Free? && WorkerLine(s, s.workers[i])
    ensures NodesKept(s, WNext(s, i))
  {
    WEffectKeeps(s, i, s.workers[i]);
    LineKeepsJob(s, s.workers[i]);
  }

  /** At `Take` the fields name the queue. */
  lemma TakeFindsQueue(s: State, i: nat)
    requires MutexInv(s) && LineInv(s) && QueueInv(s) && i < |s.workers| && s.workers[i].Take?
    ensures !Destroying(s.main) || s.main.DLock?
    ensures s.queue != [] && s.first == Some(s.queue[0]) && s.last == Last(s.queue)
    ensures s.queue[0] in s.next && Link(s, s.queue[0]) == Head(s.queue[1..])
  {
    assert WHolds(s.workers[i]) && WorkerLine(s, s.workers[i]);
    assert Chain(s.next, s.queue);
    assert s.queue[0 + 1..] == s.queue[1..];
  }

  lemma ChainTail(next: map<Id, Option<Id>>, q: seq<Id>)
    requires Chain(next, q) && q != []
    ensures Chain(next, q[1..]) && q[0] !in q[1..]
    ensures Last(q[1..]) == if q[1..] == [] then None else Last(q)
  {
    forall k | 0 <= k < |q[1..]| ensures q[1..][k] in next && next[q[1..][k]] == Head(q[1..][k + 1..]) {
      assert q[1..][k] == q[k + 1] && q[1..][k + 1..] == q[k + 1 + 1..];
    }
  }

  lemma ChainWithout(next: map<Id, Option<Id>>, q: seq<Id>, id: Id)
    requires Chain(next, q) && id !in q
    ensures Chain(next - {id}, q)
  {
  }

  /** Worker `i` takes the queue's first node. */
  ghost predicate Took(s: State, s': State, i: nat, id: Id) {
    && s.queue == [id] + s'.queue && s'.taken == s.taken + [id] && s'.runner == s.runner[id := i]
    && s'.next == s.next && s'.freed == s.freed && s'.drained == s.drained && s'.submitted == s.submitted
    && s'.author == s.author && s'.adders == s.adders
    && i < |s.workers| && |s'.workers| == |s.workers| && Job(s.workers[i]) == None
    && (forall j :: 0 <= j < |s.workers| ==> Job(s'.workers[j]) == if j == i then Some(id) else Job(s.workers[j]))
  }

  lemma TakeTook(s: State, i: nat)
    requires i < |s.workers| && s.workers[i].Take? && s.queue != [] && s.first == Some(s.queue[0])
    ensures Took(s, WNext(s, i), i, s.queue[0])
    ensures WNext(s, i).first == Link(s, s.queue[0])
    ensures WNext(s, i).last == if Link(s, s.queue[0]).None? then None else s.last
    ensures WNext(s, i).main == s.main
  {
  }

  lemma TookHistory(s: State, s': State, i: nat, id: Id)
    requires Took(s, s', i, id) && HistoryInv(s) && s.drained == [] && s'.main == s.main
    ensures HistoryInv(s')
  {
    assert s.submitted == s'.taken + s'.drained + s'.queue;
    assert forall n :: n in s.queue <==> n == id || n in s'.queue;
    assert forall n :: n in s'.runner <==> n == id || n in s.runner;
    assert id in s.submitted;
  }

  lemma TookOwn(s: State, s': State, i: nat, id: Id)
    requires Took(s, s', i, id) && OwnInv(s) && id !in s'.queue
    ensures OwnInv(s')
  {
    assert forall n :: n in s.queue <==> n == id || n in s'.queue;
    assert forall n :: n in s'.runner <==> n == id || n in s.runner;
  }

  lemma TakeNodes(s: State, i: nat)
    requires MutexInv(s) && LineInv(s) && NodeInv(s) && i < |s.workers| && s.workers[i].Take?
    ensures NodeInv(WNext(s, i))
  {
    TakeFindsQueue(s, i);
    ChainTail(s.next, s.queue);
    TakeTook(s, i);
    TookHistory(s, WNext(s, i), i, s.queue[0]);
    TookOwn(s, WNext(s, i), i, s.queue[0]);
  }

  /** Node `id` is freed: by the worker that ran it, or from the front of the queue by the drain. */
  ghost predicate Released(s: State, s': State, id: Id) {
    && s'.next == s.next - {id} && s'.freed == s.freed + [id] && s'.runner == s.runner - {id}
    && s'.author == s.author && s'.adders == s.adders && s'.submitted == s.submitted && s'.taken == s.taken
    && |s'.workers| == |s.workers|
    && (forall j :: 0 <= j < |s.workers| ==>
          Job(s'.workers[j]) == if Job(s.workers[j]) == Some(id) then None else Job(s.workers[j]))
  }

  lemma ReleasedOwn(s: State, s': State, id: Id)
    requires Released(s, s', id) && OwnInv(s) && id !in s.author
    requires forall n :: n in s'.queue <==> n in s.queue && n != id
    ensures OwnInv(s')
  {
    forall i | 0 <= i < |s'.workers| && Job(s'.workers[i]).Some?
      ensures var n := Job(s'.workers[i]).value; n in s'.runner && s'.runner[n] == i
    {
      assert Job(s.workers[i]).Some?;
    }
  }

  lemma ReleasedHistory(s: State, s': State, id: Id)
    requires Released(s, s', id) && HistoryInv(s) && id in s.next && id in s.submitted
    requires forall n :: n in s'.queue <==> n in s.queue && n != id
    requires s'.submitted == s'.taken + s'.drained + s'.queue
    requires !Destroying(s'.main) || s'.main.DLock? ==> s'.drained == []
    ensures HistoryInv(s')
  {
    assert forall n :: n in s'.freed <==> n == id || n in s.freed;
  }

  lemma FreeReleases(s: State, i: nat)
    requires OwnInv(s) && i < |s.workers| && s.workers[i].Free?
    ensures Released(s, WNext(s, i), s.workers[i].id)
    ensures s.workers[i].id in s.runner && s.workers[i].id !in s.queue && s.workers[i].id !in s.author
    ensures var s' := WNext(s, i);
            s'.queue == s.queue && s'.taken == s.taken && s'.drained == s.drained && s'.main == s.main
            && s'.first == s.first && s'.last == s.last
  {
    var id := s.workers[i].id;
    assert Job(s.workers[i]) == Some(id);
    forall j | 0 <= j < |s.workers| && j != i ensures Job(s.workers[j]) != Some(id) {
      assert Job(s.workers[j]).Some? ==> Job(s.workers[j]).value in s.runner && s.runner[Job(s.workers[j]).value] == j;
    }
  }

  lemma FreeNodes(s: State, i: nat)
    requires NodeInv(s) && i < |s.workers| && s.workers[i].Free?
    ensures NodeInv(WNext(s, i))
  {
    var id := s.workers[i].id;
    FreeReleases(s, i);
    ReleasedOwn(s, WNext(s, i), id);
    ReleasedHistory(s, WNext(s, i), id);
    ChainWithout(s.next, s.queue, id);
  }

  lemma WorkerNodes(s: State, i: nat)
    requires MutexInv(s) && LineInv(s) && NodeInv(s) && WEnabled(s, i)
    ensures NodeInv(WNext(s, i))
  {
    if s.workers[i].Take? {
      TakeNodes(s, i);
    } else if s.workers[i].Free? {
      FreeNodes(s, i);
    } else {
      WorkerKeepsNodes(s, i);
      NodesKeptOwn(s, WNext(s, i));
      EffectMoves(s, i, s.workers[i]);
    }
  }

  lemma WorkerStep(s: State, i: nat)
    requires Inv(s) && WEnabled(s, i)
    ensures Inv(WNext(s, i))
  {
    var s' := WNext(s, i);
    WorkerStepMoves(s, i);
    WorkerMutex(s, s', i);
    WorkerLines(s, s', i);
    WorkerCounts(s, s', i);
    WorkerWake(s, s', i);
    WorkerNodes(s, i);
  }

  // ----- adders -----

  /** Everything an adder's line does outside the queue. */
  lemma AdderMutex(s: State, a: nat)
    requires MutexInv(s) && AEnabled(s, a)
    ensures MutexInv(ANext(s, a))
  {
    SameHolds(s.workers);
  }

  /** Waking sleepers moves no one across the mutex and no job. */
  lemma SameHolds(ws: seq<WPc>)
    ensures forall i :: 0 <= i < |ws| ==>
      && WHolds(WakeAll(ws)[i]) == WHolds(ws[i]) && Job(WakeAll(ws)[i]) == Job(ws[i]) && !WakeAll(ws)[i].Asleep?
      && (WakeAll(ws)[i] == ws[i] || (ws[i].Asleep? && WakeAll(ws)[i].Woken?))
  {
  }

  lemma AdderLines(s: State, a: nat)
    requires MutexInv(s) && LineInv(s) && AEnabled(s, a)
    ensures LineInv(ANext(s, a))
  {
    SameHolds(s.workers);
  }

  lemma AdderCounts(s: State, a: nat)
    requires CountInv(s) && AEnabled(s, a)
    ensures CountInv(ANext(s, a))
  {
    SumWakeAll(s.workers, Busy);
    SumWakeAll(s.workers, Live);
  }

  lemma AdderWake(s: State, a: nat)
    requires MutexInv(s) && LineInv(s) && WakeInv(s) && AEnabled(s, a)
    ensures WakeInv(ANext(s, a))
  {
    SameHolds(s.workers);
  }

  lemma ChainAppend(next: map<Id, Option<Id>>, q: seq<Id>, id: Id, next': map<Id, Option<Id>>)
    requires Chain(next, q) && id in next && next[id] == None && id !in q
    requires next' == if q == [] then next else next[q[|q| - 1] := Some(id)]
    ensures Chain(next', q + [id])
  {
    var q' := q + [id];
    forall k | 0 <= k < |q'| ensures q'[k] in next' && next'[q'[k]] == Head(q'[k + 1..]) {
      if k < |q| {
        assert q'[k] == q[k] && q'[k + 1..] == q[k + 1..] + [id];
      }
    }
  }

  /** Adder `a` links its node behind the queue. */
  ghost predicate Pushed(s: State, s': State, a: nat, id: Id) {
    && s'.queue == s.queue + [id] && s'.submitted == s.submitted + [id] && s'.author == s.author - {id}
    && s'.runner == s.runner && s'.workers == s.workers && s'.freed == s.freed
    && s'.taken == s.taken && s'.drained == s.drained && s'.main == s.main
    && s'.next.Keys == s.next.Keys && (forall n :: n in s.next && n !in s.queue ==> s'.next[n] == s.next[n])
    && |s'.adders| == |s.adders| && a < |s.adders| && Held(s.adders[a]) == Some(id)
    && (forall b :: 0 <= b < |s.adders| ==> Held(s'.adders[b]) == if b == a then None else Held(s.adders[b]))
  }

  lemma PushPushed(s: State, a: nat)
    requires MutexInv(s) && LineInv(s) && NodeInv(s) && a < |s.adders| && s.adders[a].Push?
    ensures Pushed(s, ANext(s, a), a, s.adders[a].id)
  {
    var id := s.adders[a].id;
    assert Held(s.adders[a]) == Some(id);
  }

  lemma PushQueue(s: State, a: nat)
    requires MutexInv(s) && LineInv(s) && NodeInv(s) && a < |s.adders| && s.adders[a].Push?
    ensures QueueInv(ANext(s, a))
  {
    assert Held(s.adders[a]) == Some(s.adders[a].id);
    ChainAppend(s.next, s.queue, s.adders[a].id, ANext(s, a).next);
  }

  lemma PushedOwn(s: State, s': State, a: nat, id: Id)
    requires Pushed(s, s', a, id) && OwnInv(s)
    ensures OwnInv(s')
  {
    assert forall n :: n in s'.queue <==> n in s.queue || n == id;
    assert id in s.author;
  }

  lemma PushedHistory(s: State, s': State, a: nat, id: Id)
    requires Pushed(s, s', a, id) && OwnInv(s) && HistoryInv(s)
    ensures HistoryInv(s')
  {
    assert id in s.author;
    assert s'.submitted == s'.taken + s'.drained + s'.queue;
    assert forall n :: n in s'.submitted <==> n in s.submitted || n == id;
  }

  lemma AdderKeepsNodes(s: State, a: nat)
    requires AEnabled(s, a) && !s.adders[a].Push?
    ensures NodesKept(s, ANext(s, a)) && ANext(s, a).main == s.main
  {
    SameHolds(s.workers);
  }

  lemma AdderNodes(s: State, a: nat)
    requires MutexInv(s) && LineInv(s) && NodeInv(s) && AEnabled(s, a)
    ensures NodeInv(ANext(s, a))
  {
    if s.adders[a].Push? {
      PushPushed(s, a);
      PushQueue(s, a);
      PushedOwn(s, ANext(s, a), a, s.adders[a].id);
      PushedHistory(s, ANext(s, a), a, s.adders[a].id);
    } else {
      AdderKeepsNodes(s, a);
      NodesKeptOwn(s, ANext(s, a));
    }
  }

  lemma AdderStep(s: State, a: nat)
    requires Inv(s) && AEnabled(s, a)
    ensures Inv(ANext(s, a))
  {
    AdderMutex(s, a);
    AdderLines(s, a);
    AdderCounts(s, a);
    AdderWake(s, a);
    AdderNodes(s, a);
  }

  lemma NewOwn(s: State, a: nat, id: Id)
    requires OwnInv(s) && Enabled(s, New(a, id))
    ensures OwnInv(Next(s, New(a, id)))
  {
    var s' := Next(s, New(a, id));
    assert forall n :: n in s'.author <==> n == id || n in s.author;
    assert forall b :: 0 <= b < |s.adders| ==> Held(s'.adders[b]) == if b == a then Some(id) else Held(s.adders[b]);
  }

  lemma NewHistory(s: State, a: nat, id: Id)
    requires NodeInv(s) && Enabled(s, New(a, id))
    ensures QueueInv(Next(s, New(a, id))) && HistoryInv(Next(s, New(a, id)))
  {
    assert id !in s.queue && id !in s.submitted;
  }

  lemma NewOthers(s: State, a: nat, id: Id)
    requires MutexInv(s) && LineInv(s) && CountInv(s) && WakeInv(s) && Enabled(s, New(a, id))
    ensures var s' := Next(s, New(a, id)); MutexInv(s') && LineInv(s') && CountInv(s') && WakeInv(s')
  {
  }

  lemma NewStep(s: State, a: nat, id: Id)
    requires Inv(s) && Enabled(s, New(a, id))
    ensures Inv(Next(s, New(a, id)))
  {
    NewOwn(s, a, id);
    NewHistory(s, a, id);
    NewOthers(s, a, id);
  }

  // ----- the pool's owner -----

  lemma MainMutex(s: State)
    requires MutexInv(s) && MEnabled(s)
    ensures MutexInv(MNext(s))
  {
    SameHolds(s.workers);
  }

  /** When the wait in destroy ends every worker is done: none is live, and none is inside the mutex. */
  lemma WaitEnds(s: State)
    requires MutexInv(s) && LineInv(s) && CountInv(s) && s.main.MCheck? && s.stop && s.threadCnt == 0
    ensures forall i :: 0 <= i < |s.workers| ==> s.workers[i].Done?
  {
    SumZero(s.workers, Live);
    forall i | 0 <= i < |s.workers| ensures s.workers[i].Done? {
      assert Live(s.workers[i]) == 0 && !WHolds(s.workers[i]);
    }
  }

  lemma MainLines(s: State)
    requires MutexInv(s) && LineInv(s) && CountInv(s) && MEnabled(s)
    ensures LineInv(MNext(s))
  {
    SameHolds(s.workers);
    if s.main.MCheck? && s.stop && s.threadCnt == 0 {
      WaitEnds(s);
    }
  }

  lemma MainCounts(s: State)
    requires CountInv(s) && MEnabled(s)
    ensures CountInv(MNext(s))
  {
    SumWakeAll(s.workers, Busy);
    SumWakeAll(s.workers, Live);
  }

  lemma MainWake(s: State)
    requires MutexInv(s) && LineInv(s) && CountInv(s) && WakeInv(s) && MEnabled(s)
    ensures WakeInv(MNext(s))
  {
    SameHolds(s.workers);
  }

  /** The drain frees the queue's first node and moves on. */
  lemma DrainReleases(s: State)
    requires QueueInv(s) && OwnInv(s) && s.main.Drain? && s.main.cur.Some?
    ensures s.queue != [] && s.main.cur == Some(s.queue[0]) && s.queue[0] !in s.queue[1..]
    ensures var s', id := MNext(s), s.queue[0];
            Released(s, s', id) && s'.queue == s.queue[1..] && s'.drained == s.drained + [id] && s'.taken == s.taken
            && s'.main.Drain? && QueueInv(s')
  {
    var s', id := MNext(s), s.queue[0];
    assert Chain(s.next, s.queue) && s.queue[0 + 1..] == s.queue[1..];
    ChainTail(s.next, s.queue);
    ChainWithout(s.next, s.queue[1..], id);
    forall j | 0 <= j < |s.workers| ensures Job(s.workers[j]) != Some(id) {
      assert Job(s.workers[j]).Some? ==> Job(s.workers[j]).value in s.runner;
    }
    assert s'.runner == s.runner - {id};
  }

  lemma Shift(a: seq<Id>, b: seq<Id>, id: Id, q: seq<Id>)
    ensures a + b + ([id] + q) == a + (b + [id]) + q
  {
  }

  lemma DrainedNodes(s: State, s': State, id: Id)
    requires OwnInv(s) && HistoryInv(s) && Released(s, s', id) && s.queue == [id] + s'.queue && id !in s'.queue
    requires s'.drained == s.drained + [id] && s'.taken == s.taken && s'.main.Drain?
    ensures OwnInv(s') && HistoryInv(s')
  {
    Shift(s.taken, s.drained, id, s'.queue);
    assert id in s.queue && id in s.submitted;
    ReleasedOwn(s, s', id);
    ReleasedHistory(s, s', id);
  }

  lemma DrainNodes(s: State)
    requires NodeInv(s) && s.main.Drain? && s.main.cur.Some?
    ensures NodeInv(MNext(s))
  {
    DrainReleases(s);
    DrainedNodes(s, MNext(s), s.queue[0]);
  }

  lemma MEffectKeeps(s: State, pc: MPc)
    requires !(pc.Drain? && pc.cur.Some?)
    ensures FieldsKept(s, MEffect(s, pc)) && MEffect(s, pc).workers == if pc.DBcast? then WakeAll(s.workers) else s.workers
  {
  }

  lemma MainKeepsNodes(s: State)
    requires MEnabled(s) && !(s.main.Drain? && s.main.cur.Some?)
    ensures NodesKept(s, MNext(s))
  {
    MEffectKeeps(s, s.main);
    SameHolds(s.workers);
  }

  lemma MainQueue(s: State, s': State)
    requires MEnabled(s) && s'.main == MLine(s, s.main) && !(s.main.Drain? && s.main.cur.Some?)
    requires NodesKept(s, s') && QueueInv(s) && HistoryInv(s)
    ensures QueueInv(s') && HistoryInv(s')
  {
  }

  lemma MainNodes(s: State)
    requires MutexInv(s) && LineInv(s) && NodeInv(s) && MEnabled(s)
    ensures NodeInv(MNext(s))
  {
    if s.main.Drain? && s.main.cur.Some? {
      DrainNodes(s);
    } else {
      MainKeepsNodes(s);
      MainQueue(s, MNext(s));
      NodesKeptOwn(s, MNext(s));
    }
  }

  lemma MainStep(s: State)
    requires Inv(s) && MEnabled(s)
    ensures Inv(MNext(s))
  {
    MainMutex(s);
    MainLines(s);
    MainCounts(s);
    MainWake(s);
    MainNodes(s);
  }

  lemma SpuriousOthers(s: State, s': State, i: nat)
    requires MutexInv(s) && LineInv(s) && CountInv(s) && WakeInv(s)
    requires i < |s.workers| && s.workers[i].Asleep? && s' == At(s, i, Woken)
    ensures MutexInv(s') && LineInv(s') && CountInv(s') && WakeInv(s')
  {
    SumUpdate(s.workers, Busy, i, Woken);
    SumUpdate(s.workers, Live, i, Woken);
  }

  lemma SpuriousWorker(s: State, i: nat)
    requires Inv(s) && i < |s.workers| && s.workers[i].Asleep?
    ensures Inv(At(s, i, Woken))
  {
    var s' := At(s, i, Woken);
    SpuriousOthers(s, s', i);
    assert NodesKept(s, s');
    NodesKeptOwn(s, s');
  }

  lemma OwnerCallsNodes(s: State, s': State, main: MPc)
    requires NodeInv(s) && s' == s.(main := main)
    requires (s.main.MIdle? && (main == DLock || main == MLock(false))) || (s.main.MAsleep? && main == MWoken(s.main.inDestroy))
    ensures NodeInv(s')
  {
    NodesKeptOwn(s, s');
  }

  lemma OwnerCallsOthers(s: State, s': State, main: MPc)
    requires MutexInv(s) && LineInv(s) && CountInv(s) && WakeInv(s) && s' == s.(main := main)
    requires (s.main.MIdle? && (main == DLock || main == MLock(false))) || (s.main.MAsleep? && main == MWoken(s.main.inDestroy))
    requires main == DLock ==> forall a :: 0 <= a < |s.adders| ==> s.adders[a].Idle?
    ensures MutexInv(s') && LineInv(s') && CountInv(s') && WakeInv(s')
  {
  }

  lemma OwnerCalls(s: State, st: Step)
    requires Inv(s) && Enabled(s, st) && (st.CallWait? || st.CallDestroy? || st.SpuriousM?)
    ensures Inv(Next(s, st))
  {
    var s' := Next(s, st);
    OwnerCallsNodes(s, s', s'.main);
    OwnerCallsOthers(s, s', s'.main);
  }

  // ----- runs -----

  lemma StepInv(s: State, st: Step)
    requires Inv(s) && Enabled(s, st)
    ensures Inv(Next(s, st))
  {
    match st
    case W(i) => WorkerStep(s, i);
    case A(a) => AdderStep(s, a);
    case New(a, id) => NewStep(s, a, id);
    case M => MainStep(s);
    case SpuriousW(i) => SpuriousWorker(s, i);
    case _ => OwnerCalls(s, st);
  }

  lemma {:induction false} RunInv(s: State, steps: seq<Step>)
    requires Inv(s) && IsRun(s, steps)
    ensures Inv(After(s, steps))
    decreases |steps|
  {
    if steps != [] {
      StepInv(s, steps[0]);
      RunInv(Next(s, steps[0]), steps[1..]);
    }
  }
}
