/**
 * The sentinel doubly linked lists (src/proxy/dlist_int.c, src/proxy/dlist_ptr.c).  Both files link
 * and unlink alike; `List` holds that, and the two modules below hold what differs.
 */
module DList {
  import opened Options

  class Node<T> {
    var data: T
    var prev: Node?<T>
    var next: Node?<T>

    constructor (data: T)
      ensures this.data == data && prev == null && next == null
    {
      this.data, prev, next := data, null, null;
    }
  }

  /** Position of the first `x`, or the length. */
  function FirstIndex<T(==)>(s: seq<T>, x: T): (k: nat)
    ensures k <= |s| && (k < |s| ==> s[k] == x) && x !in s[..k]
  {
    if s == [] || s[0] == x then 0 else
    var k := FirstIndex(s[1..], x) + 1;
    assert s[..k] == [s[0]] + s[1..][..k - 1];
    k
  }

  lemma FirstIs<T>(s: seq<T>, x: T, k: nat)
    requires k <= |s| && x !in s[..k] && (k < |s| ==> s[k] == x)
    ensures FirstIndex(s, x) == k && (k == |s| <==> x !in s)
  {
    var j := FirstIndex(s, x);
    forall i | 0 <= i < k ensures s[i] != x {
      assert s[..k][i] == s[i];
    }
    forall i | 0 <= i < j ensures s[i] != x {
      assert s[..j][i] == s[i];
    }
  }

  ghost function Data<T>(nodes: seq<Node<T>>): (c: seq<T>)
    reads nodes
    ensures |c| == |nodes| && forall i :: 0 <= i < |nodes| ==> c[i] == nodes[i].data
  {
    if nodes == [] then [] else [nodes[0].data] + Data(nodes[1..])
  }

  function Without<T>(s: seq<T>, k: nat): seq<T>
    requires k < |s|
  {
    s[..k] + s[k + 1..]
  }

  class List<T> {
    const head: Node<T>
    const tail: Node<T>
    const zero: T
    var length: int
    ghost var nodes: seq<Node<T>>

    ghost function Spine(): seq<Node<T>>
      reads this`nodes
    {
      [head] + nodes + [tail]
    }

    /** From sentinel to sentinel the links are mutually inverse. */
    ghost predicate Valid()
      reads this`nodes, Spine()
    {
      var sp := Spine();
      && (forall i, j :: 0 <= i < j < |sp| ==> sp[i] != sp[j])
      && (forall i {:trigger sp[i].next} :: 0 <= i < |sp| - 1 ==> sp[i].next == sp[i + 1])
      && (forall i {:trigger sp[i].prev} :: 0 < i < |sp| ==> sp[i].prev == sp[i - 1])
      && sp[0].prev == null && sp[|sp| - 1].next == null && sp[0].data == sp[|sp| - 1].data == zero
    }

    ghost function Contents(): (c: seq<T>)
      reads this`nodes, nodes
    {
      Data(nodes)
    }

    /** `dlist_int_init`, `dlist_ptr_init`; `zero` is what `memset` leaves in a sentinel's data. */
    constructor (zero: T)
      ensures Valid() && Contents() == [] && length == 0 && this.zero == zero && fresh(head) && fresh(tail)
    {
      var h := new Node(zero);
      var t := new Node(zero);
      h.next := t;
      t.prev := h;
      head, tail, length, nodes := h, t, 0, [];
      this.zero := zero;
    }

    /** The two linking branches of `dlist_*_add_node`. */
    method LinkLast(node: Node<T>)
      requires Valid() && node !in Spine()
      modifies this`nodes, Spine(), node
      ensures Valid() && nodes == old(nodes) + [node] && node.data == old(node.data)
      ensures forall n :: n in old(nodes) ==> n.data == old(n.data)
    {
      ghost var sp := Spine();
      ghost var n := |nodes|;
      assert tail == sp[n + 1] && tail.prev == sp[n] && sp[0].next == sp[1];
      if head.next == tail {
        head.next := node;
        node.next := tail;
        node.prev := head;
        tail.prev := node;
      } else {
        var last := tail.prev;
        last.next := node;
        node.prev := last;
        tail.prev := node;
        node.next := tail;
      }
      nodes := nodes + [node];
      assert Spine() == sp[..n + 1] + [node, tail];
    }

    method Append(data: T)
      requires Valid()
      modifies this, Spine()
      ensures Valid() && Contents() == old(Contents()) + [data] && length == old(length) + 1
      ensures nodes[..|nodes| - 1] == old(nodes) && fresh(nodes[|nodes| - 1])
    {
      var node := new Node(data);
      LinkLast(node);
      length := length + 1;
    }

    /** The unlinking both deletions share, of the node at `k`. */
    method Unlink(node: Node<T>, ghost k: nat)
      requires Valid() && k < |nodes| && node == nodes[k]
      modifies this`nodes, Spine()
      ensures Valid() && nodes == Without(old(nodes), k) && Contents() == Without(old(Contents()), k)
      ensures node.prev == null && node.next == null
    {
      ghost var ns, c := nodes, Contents();
      Bypass(node, k);
      forall i | 0 <= i < |nodes| ensures Contents()[i] == Without(c, k)[i] {
        assert nodes[i] == ns[if i < k then i else i + 1];
        assert nodes[i] in ns;
      }
    }

    method CountDown()
      requires Valid()
      modifies this`length
      ensures Valid() && length == old(length) - 1 && Contents() == old(Contents())
    {
      length := length - 1;
    }

    method Bypass(node: Node<T>, ghost k: nat)
      requires Valid() && k < |nodes| && node == nodes[k]
      modifies this`nodes, Spine()
      ensures Valid() && nodes == Without(old(nodes), k)
      ensures forall n :: n in old(nodes) ==> n.data == old(n.data)
      ensures node.prev == null && node.next == null
    {
      ghost var sp := Spine();
      assert sp[k + 1] == node;
      node.prev.next := node.next;
      node.next.prev := node.prev;
      node.prev := null;
      node.next := null;
      nodes := Without(nodes, k);
      assert Spine() == Without(sp, k + 1);
    }
  }

  /** A list none of whose nodes changed is the list it was. */
  twostate lemma Kept<T>(l: List<T>)
    requires old(l.Valid()) && unchanged(l)
    requires forall n :: n in old(l.Spine()) ==> n.data == old(n.data) && n.prev == old(n.prev) && n.next == old(n.next)
    ensures l.Valid() && l.Spine() == old(l.Spine()) && l.Contents() == old(l.Contents())
  {
    var sp := l.Spine();
    assert sp == old(l.Spine());
    forall i | 0 <= i < |sp|
      ensures sp[i].data == old(sp[i].data) && sp[i].prev == old(sp[i].prev) && sp[i].next == old(sp[i].next)
    {
      assert sp[i] in sp;
    }
    DataKept(l.nodes);
  }

  twostate lemma {:induction false} DataKept<T>(nodes: seq<Node<T>>)
    requires forall n :: n in nodes ==> n.data == old(n.data)
    ensures Data(nodes) == old(Data(nodes))
  {
    if nodes != [] {
      DataKept(nodes[1..]);
    }
  }
}
