/** The doubly linked list under the generation cache: links and ends on the
    heap, and the sequence of nodes they stand for. */
module LruList {
  class Node {
    var prev: Node?
    var next: Node?

    constructor ()
      ensures prev == null && next == null
    {
      prev, next := null, null;
    }
  }

  /** The element at i, or null outside. */
  ghost function AtOrNull(nodes: seq<Node>, i: int): (n: Node?) {
    if 0 <= i < |nodes| then nodes[i] else null
  }

  ghost predicate Distinct(nodes: seq<Node>) {
    forall i, j :: 0 <= i < j < |nodes| ==> nodes[i] != nodes[j]
  }

  ghost predicate Linked(nodes: seq<Node>)
    reads nodes
  {
    forall i :: 0 <= i < |nodes| ==> nodes[i].prev == AtOrNull(nodes, i - 1) && nodes[i].next == AtOrNull(nodes, i + 1)
  }

  function Without(nodes: seq<Node>, i: nat): (r: seq<Node>)
    requires i < |nodes|
  {
    nodes[..i] + nodes[i + 1..]
  }

  /** The links around i closed over it. */
  ghost predicate Bridged(nodes: seq<Node>, i: nat)
    reads nodes
  {
    forall j :: 0 <= j < |nodes| && j != i ==>
      nodes[j].prev == AtOrNull(nodes, if j == i + 1 then i - 1 else j - 1) &&
      nodes[j].next == AtOrNull(nodes, if j + 1 == i then i + 1 else j + 1)
  }

  lemma AtFacts(nodes: seq<Node>, i: int)
    ensures AtOrNull(nodes, i) == null <==> !(0 <= i < |nodes|)
    ensures 0 <= i < |nodes| ==> AtOrNull(nodes, i) == nodes[i]
  {}

  lemma AtWithout(nodes: seq<Node>, i: nat, k: int)
    requires i < |nodes| && k >= -1
    ensures AtOrNull(Without(nodes, i), k) == AtOrNull(nodes, if k < i then k else k + 1)
  {}

  lemma BridgedLinks(nodes: seq<Node>, i: nat)
    requires i < |nodes| && Bridged(nodes, i)
    ensures Linked(Without(nodes, i))
  {
    hide AtOrNull;
    var r := Without(nodes, i);
    forall k | 0 <= k < |r| ensures r[k].prev == AtOrNull(r, k - 1) && r[k].next == AtOrNull(r, k + 1) {
      var j := if k < i then k else k + 1;
      assert r[k] == nodes[j];
      AtWithout(nodes, i, k - 1);
      AtWithout(nodes, i, k + 1);
    }
  }

  lemma WithoutFacts(nodes: seq<Node>, i: nat)
    requires i < |nodes| && Distinct(nodes)
    ensures Distinct(Without(nodes, i)) && nodes[i] !in Without(nodes, i)
    ensures forall x :: x in Without(nodes, i) ==> x in nodes
    ensures AtOrNull(Without(nodes, i), 0) == AtOrNull(nodes, if i == 0 then 1 else 0)
    ensures AtOrNull(Without(nodes, i), |nodes| - 2) == AtOrNull(nodes, if i == |nodes| - 1 then |nodes| - 2 else |nodes| - 1)
  {
    var r := Without(nodes, i);
    assert forall k :: 0 <= k < |r| ==> r[k] == nodes[if k < i then k else k + 1];
  }

  lemma AtPushed(nodes: seq<Node>, n: Node, k: int)
    requires k >= -1
    ensures AtOrNull([n] + nodes, k) == if k == 0 then n else if k < 0 then null else AtOrNull(nodes, k - 1)
  {}

  class List {
    var head: Node?
    var tail: Node?
    ghost var nodes: seq<Node>

    /** head is the most recently used node, tail the least. */
    ghost predicate Valid()
      reads this, nodes
    {
      Distinct(nodes) && Linked(nodes) && head == AtOrNull(nodes, 0) && tail == AtOrNull(nodes, |nodes| - 1)
    }

    constructor ()
      ensures Valid() && nodes == []
    {
      head, tail, nodes := null, null, [];
    }

    /** lru_unlink of the node at i. */
    method Unlink(n: Node, ghost i: nat)
      requires Valid() && i < |nodes| && nodes[i] == n
      modifies this, nodes
      ensures Valid() && nodes == Without(old(nodes), i) && n.prev == null && n.next == null
    {
      hide AtOrNull;
      ghost var was := nodes;
      AtFacts(was, i - 1);
      AtFacts(was, i + 1);
      if n.prev != null {
        n.prev.next := n.next;
      } else {
        head := n.next;
      }
      if n.next != null {
        n.next.prev := n.prev;
      } else {
        tail := n.prev;
      }
      n.prev, n.next := null, null;
      nodes := Without(was, i);
      assert Bridged(was, i);
      BridgedLinks(was, i);
      WithoutFacts(was, i);
    }

    /** lru_push_mru. */
    method PushMru(n: Node)
      requires Valid() && n !in nodes
      modifies this, nodes, n
      ensures Valid() && nodes == [n] + old(nodes)
    {
      hide AtOrNull;
      ghost var was := nodes;
      AtFacts(was, 0);
      AtFacts(was, -1);
      AtFacts(was, |was| - 1);
      n.prev := null;
      n.next := head;
      if head != null {
        head.prev := n;
      } else {
        tail := n;
      }
      head := n;
      nodes := [n] + was;
      AtPushed(was, n, 0);
      AtPushed(was, n, |was|);
      forall k | 0 <= k < |nodes|
        ensures nodes[k].prev == AtOrNull(nodes, k - 1) && nodes[k].next == AtOrNull(nodes, k + 1)
      {
        AtPushed(was, n, k - 1);
        AtPushed(was, n, k + 1);
        assert k > 0 ==> nodes[k] == was[k - 1];
      }
    }

    /** lru_touch: the node moves to the front, the others keep their order. */
    method Touch(n: Node, ghost i: nat)
      requires Valid() && i < |nodes| && nodes[i] == n
      modifies this, nodes
      ensures Valid() && nodes == [n] + Without(old(nodes), i)
    {
      hide Linked;
      if head == n {
        assert i == 0;
        assert nodes == [n] + Without(nodes, 0);
        return;
      }
      hide AtOrNull;
      WithoutFacts(nodes, i);
      Unlink(n, i);
      PushMru(n);
    }
  }
}
