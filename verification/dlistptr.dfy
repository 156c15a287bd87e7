/** The list of work data, which keeps its own copies (src/proxy/dlist_ptr.c). */
module DListPtr {
  import opened Codes
  import opened DList

  /** The part of `jpool_work_data_t` that registration fills in, and nothing changes after. */
  class WorkData {
    const srcFd: int
    const dstFd: int
    const arg: object?

    constructor (srcFd: int, dstFd: int, arg: object?)
      ensures this.srcFd == srcFd && this.dstFd == dstFd && this.arg == arg
    {
      this.srcFd, this.dstFd, this.arg := srcFd, dstFd, arg;
    }
  }

  type PtrList = List<WorkData?>

  /** `dlist_ptr_add_node`: appends a copy of the data, never the data itself. */
  method AddNode(l: PtrList, data: WorkData?) returns (rv: int)
    requires l.Valid()
    modifies l, l.Spine()
    ensures l.Valid() && rv == if data == null then OBJECT_ERR else NORMAL
    ensures data == null ==> l.nodes == old(l.nodes) && l.Contents() == old(l.Contents()) && l.length == old(l.length)
    ensures data != null ==>
      && l.length == old(l.length) + 1 && |l.nodes| == old(|l.nodes|) + 1
      && l.nodes[..|l.nodes| - 1] == old(l.nodes) && fresh(l.nodes[|l.nodes| - 1])
      && var copy := l.Contents()[|l.nodes| - 1];
         && l.Contents() == old(l.Contents()) + [copy] && copy != null && fresh(copy) && copy != data
         && copy.srcFd == data.srcFd && copy.dstFd == data.dstFd && copy.arg == data.arg
  {
    if data == null {
      return OBJECT_ERR;
    }
    var copy := new WorkData(data.srcFd, data.dstFd, data.arg);
    l.Append(copy);
    return NORMAL;
  }

  /** `dlist_ptr_find_last_node_data`. */
  method FindLastNodeData(l: PtrList) returns (data: WorkData?)
    requires l.Valid()
    ensures data == if l.nodes == [] then null else l.Contents()[|l.nodes| - 1]
  {
    ghost var sp := l.Spine();
    assert sp[|sp| - 1].prev == sp[|sp| - 2];
    data := if l.tail.prev != l.head then l.tail.prev.data else null;
  }

  /** Descriptors of registered work. */
  ghost function Fds(ws: seq<WorkData?>): (fds: seq<int>)
    requires null !in ws
    ensures |fds| == |ws| && forall i :: 0 <= i < |ws| ==> fds[i] == ws[i].srcFd
  {
    if ws == [] then [] else [ws[0].srcFd] + Fds(ws[1..])
  }

  /** `dlist_ptr_find_node_data_by_data`: the first entry for the descriptor, or null. */
  method FindNodeDataByData(l: PtrList, key: WorkData) returns (data: WorkData?)
    requires l.Valid() && null !in l.Contents()
    ensures var k := FirstIndex(Fds(l.Contents()), key.srcFd);
            data == if k < |l.nodes| then l.Contents()[k] else null
  {
    ghost var fds, sp, k := Fds(l.Contents()), l.Spine(), 0;
    var node := l.head.next;
    assert sp[0].next == sp[1];
    while node != l.tail
      invariant k <= |l.nodes| && node == sp[k + 1] && key.srcFd !in fds[..k]
      decreases |l.nodes| - k
    {
      data := node.data;
      assert data == l.Contents()[k] && data in l.Contents();
      if key.srcFd == data.srcFd {
        assert fds[k] == key.srcFd;
        FirstIs(fds, key.srcFd, k);
        return;
      }
      assert fds[..k + 1] == fds[..k] + [fds[k]];
      assert sp[k + 1].next == sp[k + 2];
      node := node.next;
      k := k + 1;
    }
    FirstIs(fds, key.srcFd, k);
    return null;
  }

  /** `dlist_ptr_get_prev_node`: the node before a member, the head sentinel before the first. */
  method GetPrevNode(l: PtrList, target: Node?<WorkData?>) returns (prev: Node?<WorkData?>)
    requires l.Valid()
    ensures target !in l.nodes ==> prev == null
    ensures forall k :: 0 <= k < |l.nodes| && l.nodes[k] == target ==> prev == l.Spine()[k]
  {
    if target == null {
      return null;
    }
    ghost var sp, k := l.Spine(), 0;
    var node := l.head.next;
    assert sp[0].next == sp[1];
    while node != l.tail
      invariant k <= |l.nodes| && node == sp[k + 1] && target !in l.nodes[..k]
      decreases |l.nodes| - k
    {
      if node == target {
        assert sp[k + 1].prev == sp[k];
        forall j | 0 <= j < |l.nodes| && l.nodes[j] == target ensures j == k {
          assert sp[j + 1] == target == sp[k + 1];
        }
        return node.prev;
      }
      assert l.nodes[..k + 1] == l.nodes[..k] + [l.nodes[k]];
      assert sp[k + 1].next == sp[k + 2];
      node := node.next;
      k := k + 1;
    }
    return null;
  }
}
