/**
 * The thread pool's mutex and condition-variable protocol (src/proxy/jpool.c) as a step system: any
 * number of workers, any number of adders, and one thread that waits and destroys.  A step is one
 * source line or one call; notified sleepers and spurious wakeups compete again for the mutex.
 * The queue is held as the C program holds it (first, last, next) and, as history, as a sequence.
 */
module PoolMachine {
  import opened Options

  type Id = nat

  /** Where a worker is in `jpool_worker`; numbers are source lines. */
  datatype WPc =
    | Lock                     // 76, wants the mutex
    | Check                    // 78
    | Asleep                   // 79, not notified
    | Woken                    // 79, wants the mutex back
    | StopTest                 // 82
    | Take                     // 86-87
    | Unlock(job: Option<Id>)  // 88
    | Run(job: Option<Id>)     // 90-91, outside the mutex
    | Free(id: Id)             // 92, outside the mutex
    | Lock2                    // 95, wants the mutex
    | Dec                      // 96
    | Sig                      // 98-99
    | Unlock2                  // 102
    | Exit                     // 105
    | ExitSig                  // 106
    | Unlock3                  // 107
    | Done

  /** Where an adder is in `jpool_add_work`. */
  datatype APc =
    | Idle
    | ALock(id: Id)   // 226, holds a new node
    | Push(id: Id)    // 228-235
    | Bcast           // 237
    | AUnlock         // 238

  /** Where the owner of the pool is, in `jpool_wait` (`inDestroy` tells who called it) or `jpool_destroy`. */
  datatype MPc =
    | MIdle
    | DLock                     // 187
    | Drain(cur: Option<Id>)    // 188-193
    | SetStop                   // 195
    | DBcast                    // 196
    | DUnlock                   // 197
    | MLock(inDestroy: bool)    // 254
    | MCheck(inDestroy: bool)   // 257
    | MAsleep(inDestroy: bool)  // 258, not notified
    | MWoken(inDestroy: bool)   // 258, wants the mutex back
    | MUnlock(inDestroy: bool)  // 265
    | FreePool                  // 201-205
    | Gone

  datatype Tid = Worker(i: nat) | Adder(a: nat) | Main

  datatype State = State(
    owner: Option<Tid>,
    workers: seq<WPc>,
    adders: seq<APc>,
    main: MPc,
    first: Option<Id>,
    last: Option<Id>,
    next: map<Id, Option<Id>>,  // the allocated nodes and their links
    workingCnt: int,
    threadCnt: int,
    stop: bool,
    poolFreed: bool,
    // history
    queue: seq<Id>,
    submitted: seq<Id>,
    taken: seq<Id>,
    ran: seq<Id>,
    drained: seq<Id>,
    freed: seq<Id>,
    runner: map<Id, nat>,       // which worker has a dequeued, unfreed node
    author: map<Id, nat>)       // which adder has an allocated, unqueued node

  datatype Step =
    | W(i: nat)
    | A(a: nat)
    | New(a: nat, id: Id)
    | M
    | CallWait
    | CallDestroy
    | SpuriousW(i: nat)
    | SpuriousM

  /** `jpool_init( num)`. */
  function Init(num: nat, adders: nat): State {
    var n := if num == 0 then 2 else num;
    State(None, seq(n, _ => Lock), seq(adders, _ => Idle), MIdle, None, None, map[], 0, n, false, false,
          [], [], [], [], [], [], map[], map[])
  }

  // ----- who holds and wants the mutex -----

  predicate WHolds(pc: WPc) {
    pc.Check? || pc.StopTest? || pc.Take? || pc.Unlock? || pc.Dec? || pc.Sig? || pc.Unlock2?
    || pc.Exit? || pc.ExitSig? || pc.Unlock3?
  }

  predicate AHolds(pc: APc) {
    pc.Push? || pc.Bcast? || pc.AUnlock?
  }

  predicate MHolds(pc: MPc) {
    pc.Drain? || pc.SetStop? || pc.DBcast? || pc.DUnlock? || pc.MCheck? || pc.MUnlock?
  }

  predicate Destroying(pc: MPc) {
    match pc
    case MIdle => false
    case MLock(d) => d
    case MCheck(d) => d
    case MAsleep(d) => d
    case MWoken(d) => d
    case MUnlock(d) => d
    case _ => true
  }

  // ----- enabling -----

  predicate WEnabled(s: State, i: nat) {
    i < |s.workers| &&
    match s.workers[i]
    case Lock => s.owner.None?
    case Woken => s.owner.None?
    case Lock2 => s.owner.None?
    case Asleep => false
    case Done => false
    case _ => true
  }

  predicate AEnabled(s: State, a: nat) {
    a < |s.adders| && !s.adders[a].Idle? && (s.adders[a].ALock? ==> s.owner.None?)
  }

  predicate MEnabled(s: State) {
    match s.main
    case MIdle => false
    case MAsleep(_) => false
    case Gone => false
    case DLock => s.owner.None?
    case MLock(_) => s.owner.None?
    case MWoken(_) => s.owner.None?
    case _ => true
  }

  /** No add begins once destroy has been called, and destroy is called with no add under way. */
  predicate Enabled(s: State, st: Step) {
    match st
    case W(i) => WEnabled(s, i)
    case A(a) => AEnabled(s, a)
    case New(a, id) =>
      a < |s.adders| && s.adders[a].Idle? && !Destroying(s.main) && id !in s.next && id !in s.freed
    case M => MEnabled(s)
    case CallWait => s.main.MIdle?
    case CallDestroy => s.main.MIdle? && forall a :: 0 <= a < |s.adders| ==> s.adders[a].Idle?
    case SpuriousW(i) => i < |s.workers| && s.workers[i].Asleep?
    case SpuriousM => s.main.MAsleep?
  }

  // ----- the queue's two ends, for nodes of any type -----

  datatype Ends<N> = Ends(first: Option<N>, last: Option<N>, queue: seq<N>)

  /** `jpool_work_get` 49-60, of a first node that links to `link`. */
  function Popped<N>(e: Ends<N>, link: Option<N>): Ends<N> {
    Ends(link, if link.None? then None else e.last, if e.queue == [] then [] else e.queue[1..])
  }

  /** `jpool_add_work` 228-235. */
  function Linked<N>(e: Ends<N>, n: N): Ends<N> {
    Ends(if e.first.None? then Some(n) else e.first, Some(n), e.queue + [n])
  }

  // ----- effects -----

  function Link(s: State, id: Id): Option<Id> {
    if id in s.next then s.next[id] else None
  }

  function WakeAll(ws: seq<WPc>): (r: seq<WPc>)
    ensures |r| == |ws|
  {
    seq(|ws|, i requires 0 <= i < |ws| => if ws[i].Asleep? then Woken else ws[i])
  }

  /** `pthread_cond_signal` on `working_cond`, where only the pool's owner sleeps. */
  function Signal(s: State): State {
    match s.main
    case MAsleep(d) => s.(main := MWoken(d))
    case _ => s
  }

  function At(s: State, i: nat, pc: WPc): State
    requires i < |s.workers|
  {
    s.(workers := s.workers[i := pc])
  }

  /** The mutex after a thread goes from a line inside or outside it to the next. */
  function Crossing(s: State, t: Tid, inside: bool, insideNext: bool): Option<Tid> {
    if insideNext then Some(t) else if inside then None else s.owner
  }

  /** 257: the waiter goes to sleep. */
  predicate MustWait(stop: bool, workingCnt: int, threadCnt: int) {
    (!stop && workingCnt != 0) || (stop && threadCnt != 0)
  }

  /** 98: the worker that finished was the last one busy and nothing is queued. */
  predicate LastOneIdle(stop: bool, workingCnt: int, empty: bool) {
    !stop && workingCnt == 0 && empty
  }

  /** The line a worker comes to next. */
  function WLine(s: State, pc: WPc): WPc {
    match pc
    case Lock => Check
    case Woken => Check
    case Check => if s.first.None? && !s.stop then Asleep else StopTest
    case StopTest => if s.stop then Exit else Take
    case Take => Unlock(s.first)
    case Unlock(job) => Run(job)
    case Run(job) => if job.Some? then Free(job.value) else Lock2
    case Free(_) => Lock2
    case Lock2 => Dec
    case Dec => Sig
    case Sig => Unlock2
    case Unlock2 => Lock
    case Exit => ExitSig
    case ExitSig => Unlock3
    case Unlock3 => Done
    case Asleep => Asleep
    case Done => Done
  }

  /** `jpool_work_get` by worker `i`. */
  function TakeWork(s: State, i: nat): State {
    match s.first
    case None => s
    case Some(id) =>
      var e := Popped(Ends(s.first, s.last, s.queue), Link(s, id));
      s.(first := e.first,
         last := e.last,
         queue := e.queue,
         taken := s.taken + [id],
         runner := s.runner[id := i])
  }

  /** What a worker's line does to the shared state. */
  function WEffect(s: State, i: nat, pc: WPc): State {
    match pc
    case Take => TakeWork(s, i).(workingCnt := s.workingCnt + 1)
    case Run(job) => s.(ran := if job.Some? then s.ran + [job.value] else s.ran)
    case Free(id) => s.(next := s.next - {id}, freed := s.freed + [id], runner := s.runner - {id})
    case Dec => s.(workingCnt := s.workingCnt - 1)
    case Sig => if LastOneIdle(s.stop, s.workingCnt, s.first.None?) then Signal(s) else s
    case Exit => s.(threadCnt := s.threadCnt - 1)
    case ExitSig => Signal(s)
    case _ => s
  }

  function WNext(s: State, i: nat): State
    requires i < |s.workers|
  {
    var pc := s.workers[i];
    var pc' := WLine(s, pc);
    WEffect(s, i, pc).(workers := s.workers[i := pc'], owner := Crossing(s, Worker(i), WHolds(pc), WHolds(pc')))
  }

  function ALine(pc: APc): APc {
    match pc
    case Idle => Idle
    case ALock(id) => Push(id)
    case Push(_) => Bcast
    case Bcast => AUnlock
    case AUnlock => Idle
  }

  /** `jpool_add_work` links the new node behind the last one. */
  function Enqueue(s: State, id: Id): State {
    var e := Linked(Ends(s.first, s.last, s.queue), id);
    s.(first := e.first,
       last := e.last,
       next := if s.first.Some? && s.last.Some? then s.next[s.last.value := Some(id)] else s.next,
       queue := e.queue,
       submitted := s.submitted + [id],
       author := s.author - {id})
  }

  function ANext(s: State, a: nat): State
    requires a < |s.adders|
  {
    var pc := s.adders[a];
    var s' := match pc
              case Push(id) => Enqueue(s, id)
              case Bcast => s.(workers := WakeAll(s.workers))
              case _ => s;
    s'.(adders := s.adders[a := ALine(pc)], owner := Crossing(s, Adder(a), AHolds(pc), AHolds(ALine(pc))))
  }

  function MLine(s: State, pc: MPc): MPc {
    match pc
    case DLock => Drain(s.first)
    case Drain(cur) => if cur.None? then SetStop else Drain(Link(s, cur.value))
    case SetStop => DBcast
    case DBcast => DUnlock
    case DUnlock => MLock(true)
    case MLock(d) => MCheck(d)
    case MWoken(d) => MCheck(d)
    case MCheck(d) => if MustWait(s.stop, s.workingCnt, s.threadCnt) then MAsleep(d) else MUnlock(d)
    case MUnlock(d) => if d then FreePool else MIdle
    case FreePool => Gone
    case MIdle => MIdle
    case MAsleep(d) => MAsleep(d)
    case Gone => Gone
  }

  /** The drain loop frees the node under its cursor. */
  function DrainOne(s: State, id: Id): State {
    s.(next := s.next - {id},
       freed := s.freed + [id],
       drained := s.drained + [id],
       queue := if s.queue == [] then [] else s.queue[1..])
  }

  /** What the owner's line does to the shared state. */
  function MEffect(s: State, pc: MPc): State {
    match pc
    case Drain(cur) => if cur.Some? then DrainOne(s, cur.value) else s
    case SetStop => s.(stop := true)
    case DBcast => s.(workers := WakeAll(s.workers))
    case FreePool => s.(poolFreed := true)
    case _ => s
  }

  function MNext(s: State): State {
    var pc, pc' := s.main, MLine(s, s.main);
    MEffect(s, pc).(main := pc', owner := Crossing(s, Main, MHolds(pc), MHolds(pc')))
  }

  function Next(s: State, st: Step): State
    requires Enabled(s, st)
  {
    match st
    case W(i) => WNext(s, i)
    case A(a) => ANext(s, a)
    case New(a, id) => s.(adders := s.adders[a := ALock(id)], next := s.next[id := None], author := s.author[id := a])
    case M => MNext(s)
    case CallWait => s.(main := MLock(false))
    case CallDestroy => s.(main := DLock)
    case SpuriousW(i) => At(s, i, Woken)
    case SpuriousM => s.(main := MWoken(s.main.inDestroy))
  }

  /** Every step of the run is enabled where it is taken. */
  predicate IsRun(s: State, steps: seq<Step>)
    decreases |steps|
  {
    steps != [] ==> Enabled(s, steps[0]) && IsRun(Next(s, steps[0]), steps[1..])
  }

  function After(s: State, steps: seq<Step>): State
    requires IsRun(s, steps)
    decreases |steps|
  {
    if steps == [] then s else After(Next(s, steps[0]), steps[1..])
  }

  // ----- what a step dereferences -----

  /** The queue nodes whose fields the step reads or writes, or that it frees. */
  function Touches(s: State, st: Step): set<Id>
    requires Enabled(s, st)
  {
    match st
    case W(i) =>
      (match s.workers[i]
       case Take => if s.first.Some? then {s.first.value} else {}
       case Run(job) => if job.Some? then {job.value} else {}
       case Free(id) => {id}
       case _ => {})
    case A(a) =>
      (match s.adders[a]
       case Push(id) => if s.first.Some? && s.last.Some? then {s.last.value, id} else {id}
       case _ => {})
    case M => if s.main.Drain? && s.main.cur.Some? then {s.main.cur.value} else {}
    case _ => {}
  }

  /** The step uses the pool object itself: its mutex, condition variables or fields. */
  predicate UsesPool(s: State, st: Step)
    requires Enabled(s, st)
  {
    match st
    case W(i) => !s.workers[i].Run? && !s.workers[i].Free?
    case _ => true
  }
}
