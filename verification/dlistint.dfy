/** The list of accepted descriptors (src/proxy/dlist_int.c). */
module DListInt {
  import opened Codes
  import opened DList
  import opened Options

  type IntList = List<int>

  /** `dlist_int_add_node`. */
  method AddNode(l: IntList, data: int) returns (rv: int)
    requires l.Valid()
    modifies l, l.Spine()
    ensures l.Valid() && rv == NORMAL
    ensures l.Contents() == old(l.Contents()) + [data] && l.length == old(l.length) + 1
    ensures l.nodes[..|l.nodes| - 1] == old(l.nodes) && fresh(l.nodes[|l.nodes| - 1])
  {
    l.Append(data);
    return NORMAL;
  }

  /** The search loop by value.  It does not stop at the tail sentinel, whose data is 0. */
  method Search(l: IntList, data: int) returns (node: Node?<int>)
    requires l.Valid() && l.zero == 0
    ensures node == if data in l.Contents() then l.nodes[FirstIndex(l.Contents(), data)]
                    else if data == 0 then l.tail else null
  {
    ghost var c, sp, k := l.Contents(), l.Spine(), 0;
    node := l.head.next;
    assert sp[0].next == sp[1];
    while node != null
      invariant k <= |c| + 1
      invariant node == if k <= |c| then sp[k + 1] else null
      invariant data !in if k <= |c| then c[..k] else c
      invariant k == |c| + 1 ==> data != 0
      decreases |c| + 1 - k
    {
      if node.data == data {
        assert c[..|c|] == c;
        FirstIs(c, data, k);
        return;
      }
      assert k < |c| ==> c[k] == node.data && c[..k + 1] == c[..k] + [c[k]];
      assert k + 1 < |sp| - 1 ==> sp[k + 1].next == sp[k + 2];
      node := node.next;
      k := k + 1;
    }
  }

  /** The search loop by node. */
  method SearchNode(l: IntList, target: Node<int>) returns (node: Node?<int>)
    requires l.Valid()
    ensures node == if target in l.nodes || target == l.tail then target else null
  {
    ghost var ns, sp, k := l.nodes, l.Spine(), 0;
    node := l.head.next;
    assert sp[0].next == sp[1];
    while node != null
      invariant k <= |ns| + 1
      invariant node == if k <= |ns| then sp[k + 1] else null
      invariant target !in if k <= |ns| then ns[..k] else ns
      invariant k == |ns| + 1 ==> target != l.tail
      decreases |ns| + 1 - k
    {
      if node == target {
        assert k < |ns| ==> ns[k] == target;
        return;
      }
      assert k < |ns| ==> ns[..k + 1] == ns[..k] + [ns[k]];
      assert k + 1 < |sp| - 1 ==> sp[k + 1].next == sp[k + 2];
      node := node.next;
      k := k + 1;
    }
  }

  /**
   * What both deletions do once their search has ended.  `None`: the program dies, as the tail sentinel
   * was found and the unlinking goes through its null link.  The length goes down whether or not a node did.
   */
  method Delete(l: IntList, node: Node?<int>, ghost k: nat) returns (rv: Option<int>)
    requires l.Valid() && (node == null || node == l.tail || (k < |l.nodes| && node == l.nodes[k]))
    modifies l, l.Spine()
    ensures rv == if node == l.tail then None else Some(NORMAL)
    ensures rv.Some? ==>
      && l.Valid() && l.length == old(l.length) - 1
      && l.nodes == (if node == null then old(l.nodes) else Without(old(l.nodes), k))
      && l.Contents() == (if node == null then old(l.Contents()) else Without(old(l.Contents()), k))
  {
    if node != null {
      NullLink(l, node, k);
      if node.next == null {
        return None;
      }
      l.Unlink(node, k);
    }
    l.CountDown();
    return Some(NORMAL);
  }

  /** Among what a search can find, only the tail sentinel has a null link. */
  lemma NullLink(l: IntList, node: Node<int>, k: nat)
    requires l.Valid() && (node == l.tail || (k < |l.nodes| && node == l.nodes[k]))
    ensures node.next == null <==> node == l.tail
    ensures k < |l.nodes| ==> l.nodes[k] != l.tail
  {
    var sp := l.Spine();
    assert sp[|sp| - 1] == l.tail;
    if k < |l.nodes| {
      assert sp[k + 1] == l.nodes[k] && sp[k + 1].next == sp[k + 2];
    }
  }

  /** `dlist_int_del_node_by_data`: `None` for an absent 0. */
  method DelNodeByData(l: IntList, data: int) returns (rv: Option<int>)
    requires l.Valid() && l.zero == 0
    modifies l, l.Spine()
    ensures rv == if data == 0 && data !in old(l.Contents()) then None else Some(NORMAL)
    ensures rv.Some? ==>
      && l.Valid() && l.length == old(l.length) - 1
      && l.Contents() == (if data in old(l.Contents())
                          then Without(old(l.Contents()), FirstIndex(old(l.Contents()), data))
                          else old(l.Contents()))
      && (old(l.length == |l.nodes|) ==> (l.length == |l.nodes| <==> data in old(l.Contents())))
  {
    ghost var k := FirstIndex(l.Contents(), data);
    var node := Search(l, data);
    NullLink(l, l.tail, k);
    rv := Delete(l, node, k);
  }

  /** `dlist_int_find_node_by_data`: the first node with the value; the tail sentinel answers for an absent 0. */
  method FindNodeByData(l: IntList, data: int) returns (found: Node?<int>)
    requires l.Valid() && l.zero == 0
    ensures found == if data in l.Contents() then l.nodes[FirstIndex(l.Contents(), data)]
                     else if data == 0 then l.tail else null
  {
    found := Search(l, data);
  }

  /**
   * `dlist_int_del_node_by_node`: unlinks a member; for a stranger only the length changes, and
   * `None` for the tail sentinel.
   */
  method DelNodeByNode(l: IntList, target: Node<int>) returns (rv: Option<int>)
    requires l.Valid()
    modifies l, l.Spine()
    ensures rv == if target == l.tail then None else Some(NORMAL)
    ensures rv.Some? ==>
      && l.Valid() && l.length == old(l.length) - 1
      && l.nodes == if target in old(l.nodes)
                    then Without(old(l.nodes), FirstIndex(old(l.nodes), target)) else old(l.nodes)
  {
    var node := SearchNode(l, target);
    rv := Delete(l, node, FirstIndex(l.nodes, target));
  }

  /** `dlist_int_find_last_node_data`: an empty list answers with the head sentinel's 0 (`tail->prev` is never null). */
  method FindLastNodeData(l: IntList) returns (data: int)
    requires l.Valid()
    ensures data == if l.Contents() == [] then l.zero else l.Contents()[|l.nodes| - 1]
  {
    ghost var sp := l.Spine();
    assert sp[|sp| - 1].prev == sp[|sp| - 2];
    data := l.tail.prev.data;
  }
}
