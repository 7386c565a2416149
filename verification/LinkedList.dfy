/** The singly linked list that holds every dynamic collection of a peer (code/linkedlist.c). */
module LinkedList {
  class Node<T> {
    var next: Node?<T>
    const data: T

    constructor (data: T, next: Node?<T>)
      ensures this.data == data && this.next == next
    {
      this.data := data;
      this.next := next;
    }
  }

  /** The nodes are linked in this order from `head`, and the last link is null. */
  ghost predicate Linked<T>(head: Node?<T>, nodes: seq<Node<T>>)
    reads nodes
  {
    && (forall i, j :: 0 <= i < j < |nodes| ==> nodes[i] != nodes[j])
    && head == NodeAt(nodes, 0)
    && (forall i {:trigger nodes[i].next} :: 0 <= i < |nodes| ==> nodes[i].next == NodeAt(nodes, i + 1))
  }

  /** The node at a position; null behind the end. */
  ghost function NodeAt<T>(nodes: seq<Node<T>>, i: nat): Node?<T> {
    if i < |nodes| then nodes[i] else null
  }

  ghost function Data<T>(nodes: seq<Node<T>>): seq<T> {
    seq(|nodes|, i requires 0 <= i < |nodes| => nodes[i].data)
  }

  ghost function Without<T>(s: seq<T>, k: nat): seq<T>
    requires k < |s|
  {
    s[..k] + s[k + 1..]
  }

  /** The elements that fail the test, in order. */
  ghost function Failing<T>(s: seq<T>, test: T -> bool): seq<T> {
    if s == [] then [] else
      Failing(s[..|s| - 1], test) + (if test(s[|s| - 1]) then [] else [s[|s| - 1]])
  }

  /** The elements that pass the test, in order. */
  ghost function Passing<T>(s: seq<T>, test: T -> bool): seq<T> {
    if s == [] then [] else
      Passing(s[..|s| - 1], test) + (if test(s[|s| - 1]) then [s[|s| - 1]] else [])
  }

  /** What is kept and what is removed are together everything. */
  lemma {:induction false} Partition<T>(s: seq<T>, test: T -> bool)
    ensures multiset(Failing(s, test)) + multiset(Passing(s, test)) == multiset(s)
  {
    if s != [] {
      Partition(s[..|s| - 1], test);
      assert s == s[..|s| - 1] + [s[|s| - 1]];
    }
  }

  /** Each element is on its side. */
  lemma {:induction false} Sides<T>(s: seq<T>, test: T -> bool)
    ensures forall x :: x in Failing(s, test) ==> !test(x)
    ensures forall x :: x in Passing(s, test) ==> test(x)
  {
    if s != [] {
      Sides(s[..|s| - 1], test);
    }
  }

  /** The variable a list is reached through, `Node *head`. */
  class List<T> {
    var head: Node?<T>
    ghost var nodes: seq<Node<T>>

    ghost predicate Valid()
      reads this, nodes
    {
      Linked(head, nodes)
    }

    ghost function Contents(): seq<T>
      reads this
    {
      Data(nodes)
    }

    constructor ()
      ensures Valid() && nodes == []
    {
      head := null;
      nodes := [];
    }

    /** `node_insert`. */
    method Insert(data: T) returns (node: Node<T>)
      requires Valid()
      modifies this
      ensures Valid() && fresh(node) && node.data == data
      ensures nodes == [node] + old(nodes)
      ensures Contents() == [data] + old(Contents())
    {
      node := new Node(data, head);
      head := node;
      nodes := [node] + nodes;
    }

    /** `node_find`: the first node whose data matches. */
    method Find(compare: T -> bool) returns (found: Node?<T>)
      requires Valid()
      ensures found == null <==> forall i :: 0 <= i < |nodes| ==> !compare(nodes[i].data)
      ensures found != null ==>
                exists k :: 0 <= k < |nodes| && nodes[k] == found && compare(found.data) &&
                            forall i :: 0 <= i < k ==> !compare(nodes[i].data)
    {
      found := head;
      ghost var k := 0;
      while found != null
        invariant 0 <= k <= |nodes| && found == NodeAt(nodes, k)
        invariant forall i :: 0 <= i < k ==> !compare(nodes[i].data)
        decreases |nodes| - k
      {
        if compare(found.data) {
          return;
        }
        found := found.next;
        k := k + 1;
      }
    }

    /** `node_length` and `count_node`. */
    method Length() returns (length: nat)
      requires Valid()
      ensures length == |Contents()|
    {
      length := 0;
      var node := head;
      while node != null
        invariant length <= |nodes| && node == NodeAt(nodes, length)
        decreases |nodes| - length
      {
        length := length + 1;
        node := node.next;
      }
    }

    /** The search loop of `node_delete`: the node before the given one, or null. */
    method Before(node: Node<T>) returns (temp: Node?<T>, ghost k: nat)
      requires Valid() && head != null && head != node
      ensures temp == null ==> node !in nodes
      ensures temp != null ==> k + 1 < |nodes| && nodes[k] == temp && nodes[k + 1] == node
    {
      temp, k := head, 0;
      while temp != null && temp.next != node
        invariant k <= |nodes| && temp == NodeAt(nodes, k)
        invariant forall i :: 0 <= i <= k && i < |nodes| ==> nodes[i] != node
        decreases |nodes| - k
      {
        temp := temp.next;
        k := k + 1;
      }
    }

    /** `node_delete`: unlink exactly the given node, or report that it is not in the list. */
    method Delete(node: Node<T>) returns (deleted: bool, ghost k: nat)
      requires Valid()
      modifies this, nodes
      ensures Valid()
      ensures deleted <==> node in old(nodes)
      ensures deleted ==> k < |old(nodes)| && old(nodes)[k] == node && nodes == Without(old(nodes), k)
      ensures !deleted ==> nodes == old(nodes)
    {
      if head == null {
        return false, 0;
      }
      if head == node {
        head := node.next;
        nodes := Without(nodes, 0);
        return true, 0;
      }
      var temp, j := Before(node);
      if temp != null {
        temp.next := node.next;
        nodes := Without(nodes, j + 1);
        return true, j + 1;
      }
      return false, 0;
    }

    /** Deleting a node that is known to be at position i, in a list whose nodes are among `all`; its
        successor takes its place. */
    method DeleteAt(node: Node<T>, ghost i: nat, ghost all: seq<Node<T>>)
      requires Valid() && i < |nodes| && nodes[i] == node && Among(nodes, all)
      modifies this, all
      ensures Valid() && Among(nodes, all)
      ensures nodes == Without(old(nodes), i) && NodeAt(nodes, i) == old(node.next)
    {
      var _, j := Delete(node);
      assert j == i;
    }

    /** One turn of the loop of `node_iterate_delete`, at the k-th of the nodes there were. */
    method Visit(temp: Node<T>, test: T -> bool, removed: seq<T>, ghost all: seq<Node<T>>, ghost k: nat, ghost i: nat)
      returns (removed': seq<T>, ghost i': nat)
      requires Valid() && Among(nodes, all) && NodeAt(nodes, i) == temp
      requires Swept(all, k, nodes, i, removed, test)
      modifies this, all
      ensures Valid() && Among(nodes, all) && NodeAt(nodes, i') == old(temp.next)
      ensures Swept(all, k + 1, nodes, i', removed', test) && |nodes| - i' < old(|nodes|) - i
      ensures |removed'| == |removed| + if test(temp.data) then 1 else 0
    {
      if test(temp.data) {
        DropOne(all, k, nodes, i, removed, test);
        DeleteAt(temp, i, all);
        return removed + [temp.data], i;
      } else {
        SkipOne(all, k, nodes, i, removed, test);
        return removed, i + 1;
      }
    }

    /** `node_iterate_delete`: delete every node whose data passes the test; `removed` is what the
        callback is given, in order. */
    method IterateDelete(test: T -> bool) returns (count: nat, removed: seq<T>)
      requires Valid()
      modifies this, nodes
      ensures Valid()
      ensures nodes == Failing(old(nodes), OfNode(test))
      ensures Contents() == Failing(old(Contents()), test)
      ensures removed == Passing(old(Contents()), test)
      ensures count == |removed|
    {
      count, removed := 0, [];
      var temp := head;
      ghost var all, i, k := nodes, 0, 0;
      while temp != null
        invariant Valid() && Among(nodes, all) && temp == NodeAt(nodes, i)
        invariant Swept(all, k, nodes, i, removed, test) && count == |removed|
        decreases |nodes| - i
      {
        var next := temp.next;
        removed, i := Visit(temp, test, removed, all, k, i);
        if test(temp.data) {
          count := count + 1;
        }
        k := k + 1;
        temp := next;
      }
      SweptAll(all, k, nodes, i, removed, test);
    }
  }

  ghost predicate Among<T>(nodes: seq<Node<T>>, all: seq<Node<T>>) {
    forall j :: 0 <= j < |nodes| ==> nodes[j] in all
  }

  /** The test on the data of a node. */
  ghost function OfNode<T>(test: T -> bool): Node<T> -> bool {
    (n: Node<T>) => test(n.data)
  }

  /** Keeping nodes by their data keeps the data. */
  lemma {:induction false} DataOfFailing<T>(nodes: seq<Node<T>>, test: T -> bool)
    ensures Data(Failing(nodes, OfNode(test))) == Failing(Data(nodes), test)
    ensures Data(Passing(nodes, OfNode(test))) == Passing(Data(nodes), test)
  {
    if nodes != [] {
      var k := |nodes| - 1;
      DataOfFailing(nodes[..k], test);
      assert Data(nodes)[..k] == Data(nodes[..k]);
    }
  }

  /** The first k of all nodes have been visited; i of them are left, and those to visit follow. */
  ghost predicate Swept<T>(all: seq<Node<T>>, k: nat, nodes: seq<Node<T>>, i: nat, removed: seq<T>, test: T -> bool) {
    && i <= |nodes| && k <= |all|
    && nodes[i..] == all[k..]
    && nodes[..i] == Failing(all[..k], OfNode(test))
    && removed == Data(Passing(all[..k], OfNode(test)))
  }

  lemma Advance<T>(nodes: seq<Node<T>>, k: nat)
    requires k < |nodes|
    ensures nodes[..k + 1] == nodes[..k] + [nodes[k]] && nodes[..k + 1][..k] == nodes[..k]
    ensures nodes[k..][0] == nodes[k] && nodes[k..][1..] == nodes[k + 1..]
  {
  }

  lemma SkipOne<T>(all: seq<Node<T>>, k: nat, nodes: seq<Node<T>>, i: nat, removed: seq<T>, test: T -> bool)
    requires Swept(all, k, nodes, i, removed, test) && i < |nodes| && !test(nodes[i].data)
    ensures Swept(all, k + 1, nodes, i + 1, removed, test)
  {
    Advance(nodes, i);
    Advance(all, k);
  }

  lemma DropOne<T>(all: seq<Node<T>>, k: nat, nodes: seq<Node<T>>, i: nat, removed: seq<T>, test: T -> bool)
    requires Swept(all, k, nodes, i, removed, test) && i < |nodes| && test(nodes[i].data)
    ensures Swept(all, k + 1, Without(nodes, i), i, removed + [nodes[i].data], test)
  {
    Advance(nodes, i);
    Advance(all, k);
    assert Without(nodes, i)[..i] == nodes[..i] && Without(nodes, i)[i..] == nodes[i + 1..];
  }

  lemma SweptAll<T>(all: seq<Node<T>>, k: nat, nodes: seq<Node<T>>, i: nat, removed: seq<T>, test: T -> bool)
    requires Swept(all, k, nodes, i, removed, test) && i == |nodes|
    ensures nodes == Failing(all, OfNode(test))
    ensures Data(nodes) == Failing(Data(all), test) && removed == Passing(Data(all), test)
  {
    assert nodes[..i] == nodes && all[..k] == all;
    DataOfFailing(all, test);
  }
}
