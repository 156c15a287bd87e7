/**
 * The pool object and its linked queue in the source's own form (src/proxy/jpool.c): what runs
 * between a lock and the next unlock or wait.  The protocol around these regions is PoolMachine.
 */
module JPool {
  import opened Options
  import PoolMachine

  class Work<F, T> {
    const func: F
    const arg: T
    var next: Work?<F, T>

    constructor (func: F, arg: T)
      ensures this.func == func && this.arg == arg && next == null
    {
      this.func, this.arg, next := func, arg, null;
    }
  }

  ghost function Opt<F, T>(w: Work?<F, T>): Option<Work<F, T>> {
    if w == null then None else Some(w)
  }

  /** Distinct nodes, linked in order and ending in null. */
  ghost predicate Linked<F, T>(ns: seq<Work<F, T>>)
    reads ns
  {
    && (forall i {:trigger ns[i].next} :: 0 <= i < |ns| - 1 ==> ns[i].next == ns[i + 1])
    && (ns != [] ==> ns[|ns| - 1].next == null)
    && (forall i, j :: 0 <= i < j < |ns| ==> ns[i] != ns[j])
  }

  lemma LinkedTail<F, T>(ns: seq<Work<F, T>>)
    requires Linked(ns) && ns != []
    ensures Linked(ns[1..]) && ns[0] !in ns[1..]
    ensures ns[0].next == if |ns| == 1 then null else ns[1]
  {
    var rest := ns[1..];
    assert forall i :: 0 <= i < |rest| ==> rest[i] == ns[i + 1] && rest[i].next == ns[i + 1].next;
  }

  class Pool<F, T> {
    var workFirst: Work?<F, T>
    var workLast: Work?<F, T>
    var workingCnt: nat
    var threadCnt: nat
    var stop: bool
    ghost var nodes: seq<Work<F, T>>
    ghost var submitted: seq<(F, T)>

    ghost predicate Chain()
      reads this, nodes
    {
      Linked(nodes)
    }

    /** Until destroy, the fields name the chain's two ends. */
    ghost predicate Valid()
      reads this, nodes
    {
      && Chain() && !stop
      && workFirst == (if nodes == [] then null else nodes[0])
      && workLast == (if nodes == [] then null else nodes[|nodes| - 1])
    }

    ghost function Queue(): (q: seq<(F, T)>)
      reads this
      ensures |q| == |nodes|
    {
      seq(|nodes|, i requires 0 <= i < |nodes| reads this => (nodes[i].func, nodes[i].arg))
    }

    ghost function Ends(): PoolMachine.Ends<Work<F, T>>
      reads this
    {
      PoolMachine.Ends(Opt(workFirst), Opt(workLast), nodes)
    }

    /** `jpool_init` before its threads run. */
    constructor (num: nat)
      ensures Valid() && Queue() == [] && submitted == [] && workingCnt == 0
      ensures threadCnt == if num == 0 then 2 else num
      ensures threadCnt == |PoolMachine.Init(num, 0).workers|
    {
      workFirst, workLast, workingCnt, stop := null, null, 0, false;
      threadCnt := if num == 0 then 2 else num;
      nodes, submitted := [], [];
    }

    /** `jpool_work_get`: the first node leaves; its own link still points into the queue. */
    method WorkGet() returns (work: Work?<F, T>)
      requires Valid()
      modifies this`workFirst, this`workLast, this`nodes
      ensures Valid()
      ensures old(nodes) == [] ==> work == null && nodes == []
      ensures old(nodes) != [] ==>
        && work == old(nodes)[0] && nodes == old(nodes)[1..] && work !in nodes
        && Queue() == old(Queue())[1..] && work.next == workFirst
        && Ends() == PoolMachine.Popped(old(Ends()), Opt(old(nodes)[0].next))
    {
      work := workFirst;
      if work == null {
        return;
      }
      LinkedTail(nodes);
      if work.next == null {
        workFirst, workLast := null, null;
      } else {
        workFirst := work.next;
      }
      nodes := nodes[1..];
    }

    /** `jpool_worker` 86-87: dequeue and count. */
    method Begin() returns (work: Work<F, T>)
      requires Valid() && workFirst != null
      modifies this`workFirst, this`workLast, this`nodes, this`workingCnt
      ensures Valid() && nodes == old(nodes)[1..] && work == old(nodes)[0] && (work.func, work.arg) == old(Queue())[0]
      ensures Queue() == old(Queue())[1..] && workingCnt == old(workingCnt) + 1
    {
      var w := WorkGet();
      workingCnt := workingCnt + 1;
      work := w;
    }

    /** `jpool_worker` 96-100: uncount, and tell whether `working_cond` is signalled. */
    method End() returns (signal: bool)
      requires workingCnt > 0
      modifies this`workingCnt
      ensures workingCnt == old(workingCnt) - 1
      ensures Valid() ==> (signal <==> workingCnt == 0 && Queue() == [])
      ensures stop ==> !signal
      ensures signal == PoolMachine.LastOneIdle(stop, workingCnt, workFirst == null)
    {
      workingCnt := workingCnt - 1;
      signal := !stop && workingCnt == 0 && workFirst == null;
    }

    /** `jpool_add_work`: refused without a function, else linked behind the last node. */
    method AddWork(func: Option<F>, arg: T) returns (ok: bool)
      requires Valid()
      modifies this`workFirst, this`workLast, this`nodes, this`submitted, nodes
      ensures Valid() && ok == func.Some?
      ensures !ok ==> Queue() == old(Queue()) && submitted == old(submitted)
      ensures ok ==>
        && Queue() == old(Queue()) + [(func.value, arg)] && submitted == old(submitted) + [(func.value, arg)]
        && nodes[..|nodes| - 1] == old(nodes) && fresh(nodes[|nodes| - 1])
        && Ends() == PoolMachine.Linked(old(Ends()), nodes[|nodes| - 1])
      ensures !ok ==> nodes == old(nodes)
    {
      if func.None? {
        return false;
      }
      var work := new Work<F, T>(func.value, arg);
      Link(work);
      submitted := submitted + [(func.value, arg)];
      return true;
    }

    /** Its locked region: the new node goes behind the last one. */
    method Link(work: Work<F, T>)
      requires Valid() && work !in nodes && work.next == null
      modifies this`workFirst, this`workLast, this`nodes, nodes
      ensures Valid() && nodes == old(nodes) + [work] && Queue() == old(Queue()) + [(work.func, work.arg)]
      ensures Ends() == PoolMachine.Linked(old(Ends()), work)
    {
      if workFirst == null {
        workFirst := work;
        workLast := workFirst;
      } else {
        workLast.next := work;
        workLast := work;
      }
      nodes := nodes + [work];
    }

    /** `jpool_wait` 257. */
    method MustWait() returns (wait: bool)
      ensures wait <==> if stop then threadCnt > 0 else workingCnt > 0
      ensures wait == PoolMachine.MustWait(stop, workingCnt, threadCnt)
    {
      wait := (!stop && workingCnt != 0) || (stop && threadCnt != 0);
    }

    /** `jpool_destroy` 188-195: every queued node once, in order, and `work_first` left as it was. */
    method DrainAndStop() returns (ghost freed: seq<Work<F, T>>)
      requires Valid()
      modifies this`stop, this`nodes
      ensures freed == old(nodes) && nodes == [] && stop
      ensures forall i, j :: 0 <= i < j < |freed| ==> freed[i] != freed[j]
    {
      ghost var all, k := nodes, 0;
      freed := [];
      var work := workFirst;
      while work != null
        invariant k <= |all| && freed == all[..k] && nodes == all[k..]
        invariant work == if k < |all| then all[k] else null
        invariant forall i {:trigger all[i].next} :: 0 <= i < |all| - 1 ==> all[i].next == all[i + 1]
        invariant all != [] ==> all[|all| - 1].next == null
        decreases |all| - k
      {
        var next := work.next;
        freed := freed + [work];
        k := k + 1;
        nodes := all[k..];
        work := next;
      }
      stop := true;
    }
  }
}
