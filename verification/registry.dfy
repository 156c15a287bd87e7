/** One accept-and-register round after another (src/proxy/proxy.c). */
module Registry {
  import opened Options
  import opened DList
  import DListInt
  import DListPtr
  import JPool

  /** The function every registered work runs. */
  datatype Handler = ProxyConn

  type Jobs = seq<(Handler, DListPtr.WorkData?)>

  ghost function AsJobs(ws: seq<DListPtr.WorkData?>): (js: Jobs)
    ensures |js| == |ws|
  {
    seq(|ws|, i requires 0 <= i < |ws| => (ProxyConn, ws[i]))
  }

  class ProxyState {
    const dstFd: int
    const fdList: List<int>
    const workList: List<DListPtr.WorkData?>
    const jpool: JPool.Pool<Handler, DListPtr.WorkData?>

    ghost predicate Lists()
      reads this, fdList, fdList.Spine(), fdList.nodes, workList, workList.Spine(), workList.nodes, jpool, jpool.nodes
    {
      && fdList.Valid() && workList.Valid() && jpool.Valid()
      && null !in workList.Contents()
    }

    /** The lists agree entry by entry, and the pool was handed the second list's own copies in order. */
    ghost predicate InStep()
      reads this, fdList, fdList.Spine(), fdList.nodes, workList, workList.Spine(), workList.nodes, jpool, jpool.nodes
    {
      && Lists()
      && DListPtr.Fds(workList.Contents()) == fdList.Contents()
      && jpool.submitted == AsJobs(workList.Contents())
      && fdList.length == workList.length == |fdList.nodes|
    }

    constructor (dstFd: int, threads: nat)
      ensures InStep() && fdList.Contents() == [] && this.dstFd == dstFd
      ensures fresh(fdList) && fresh(fdList.Spine()) && fresh(workList) && fresh(workList.Spine()) && fresh(jpool)
    {
      this.dstFd := dstFd;
      fdList := new List<int>(0);
      workList := new List<DListPtr.WorkData?>(null);
      jpool := new JPool.Pool<Handler, DListPtr.WorkData?>(threads);
    }

    /** `work_list` keeps a copy of the new work data, and that copy is what is found last in it. */
    method Copy(srcFd: int) returns (copy: DListPtr.WorkData)
      requires workList.Valid() && null !in workList.Contents()
      modifies workList, workList.Spine()
      ensures workList.Valid() && null !in workList.Contents() && workList.length == old(workList.length) + 1
      ensures workList.Contents() == old(workList.Contents()) + [copy]
      ensures fresh(copy) && copy.srcFd == srcFd && copy.dstFd == dstFd && copy.arg == this
    {
      var workData := new DListPtr.WorkData(srcFd, dstFd, this);
      var _ := DListPtr.AddNode(workList, workData);
      var last := DListPtr.FindLastNodeData(workList);
      copy := last;
    }

    /** The other list and the pool are not touched. */
    method Keep(srcFd: int) returns (copy: DListPtr.WorkData)
      requires Lists()
      modifies workList, workList.Spine()
      ensures Lists() && workList.length == old(workList.length) + 1 && fdList.Contents() == old(fdList.Contents())
      ensures workList.Contents() == old(workList.Contents()) + [copy]
      ensures fresh(copy) && copy.srcFd == srcFd && copy.dstFd == dstFd
    {
      copy := Copy(srcFd);
    }

    /** `jpool_add_work` leaves both lists alone. */
    method Submit(work: DListPtr.WorkData) returns (ok: bool)
      requires Lists()
      modifies jpool, jpool.nodes
      ensures Lists() && ok && jpool.submitted == old(jpool.submitted) + [(ProxyConn, work)] && workList.length == old(workList.length)
      ensures fdList.Contents() == old(fdList.Contents()) && workList.Contents() == old(workList.Contents())
    {
      ok := jpool.AddWork(Some(ProxyConn), work);
      Kept(fdList);
      Kept(workList);
    }

    /** `proxy_add_work_data`, for the descriptor accepted last. */
    method AddWorkData() returns (ok: bool, ghost copy: DListPtr.WorkData)
      requires Lists() && fdList.Contents() != []
      modifies workList, workList.Spine(), jpool, jpool.nodes
      ensures Lists() && ok && workList.length == old(workList.length) + 1
      ensures workList.Contents() == old(workList.Contents()) + [copy]
      ensures fresh(copy) && copy.srcFd == fdList.Contents()[|fdList.nodes| - 1] && copy.dstFd == dstFd
      ensures jpool.submitted == old(jpool.submitted) + [(ProxyConn, copy)]
      ensures fdList.Contents() == old(fdList.Contents())
    {
      var srcFd := DListInt.FindLastNodeData(fdList);
      var work := Keep(srcFd);
      ok := Submit(work);
      copy := work;
    }

    /** `proxy_wait`'s append of an accepted descriptor. */
    method Accept(srcFd: int)
      requires Lists()
      modifies fdList, fdList.Spine()
      ensures Lists() && fdList.Contents() == old(fdList.Contents()) + [srcFd] && fdList.length == old(fdList.length) + 1
      ensures workList.Contents() == old(workList.Contents())
    {
      var _ := DListInt.AddNode(fdList, srcFd);
    }

    /** One round of `proxy_handle_req`. */
    method Register(srcFd: int) returns (ok: bool)
      requires InStep()
      modifies fdList, fdList.Spine(), workList, workList.Spine(), jpool, jpool.nodes
      ensures InStep() && ok
      ensures fdList.Contents() == old(fdList.Contents()) + [srcFd]
      ensures workList.Contents()[..|workList.nodes| - 1] == old(workList.Contents())
    {
      ghost var ws := workList.Contents();
      Accept(srcFd);
      ghost var copy;
      ok, copy := AddWorkData();
      FdsAppend(ws, copy);
      assert AsJobs(ws + [copy]) == AsJobs(ws) + [(ProxyConn, copy)];
    }
  }

  lemma {:induction false} FdsAppend(ws: seq<DListPtr.WorkData?>, w: DListPtr.WorkData)
    requires null !in ws
    ensures null !in ws + [w] && DListPtr.Fds(ws + [w]) == DListPtr.Fds(ws) + [w.srcFd]
  {
  }
}
