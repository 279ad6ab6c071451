/** The doubly linked list that holds unacknowledged segments (lab4/ctcp/ctcp_linked_list.c). The objects are
    references, as the `void *` of the source; null lists, nodes and objects are answered with null. */
module LinkedList {

  class Node {
    var next: Node?
    var prev: Node?
    const obj: object

    /** `ll_create_node`. */
    constructor (obj: object)
      ensures this.obj == obj && next == null && prev == null
    {
      this.obj := obj;
      next := null;
      prev := null;
    }
  }

  /** Each node of the sequence points to the next one and back. */
  ghost predicate Linked(nodes: seq<Node>)
    reads nodes
  {
    forall i, j :: 0 <= i && j == i + 1 && j < |nodes| ==> nodes[i].next == nodes[j] && nodes[j].prev == nodes[i]
  }

  ghost predicate Distinct<T>(s: seq<T>) {
    forall i, j :: 0 <= i < j < |s| ==> s[i] != s[j]
  }

  /** What the nodes hold. */
  ghost predicate Hold(nodes: seq<Node>, contents: seq<object>) {
    |nodes| == |contents| && forall i :: 0 <= i < |nodes| ==> nodes[i].obj == contents[i]
  }

  class List {
    var head: Node?
    var tail: Node?
    var length: nat
    /** The nodes from head to tail, and what they hold. */
    ghost var nodes: seq<Node>
    ghost var contents: seq<object>

    ghost predicate Valid()
      reads this, nodes
    {
      && head == (if nodes == [] then null else nodes[0])
      && tail == (if nodes == [] then null else nodes[|nodes| - 1])
      && (head != null ==> head.prev == null)
      && (tail != null ==> tail.next == null)
      && length == |nodes|
      && Distinct<Node>(nodes) && Linked(nodes) && Hold(nodes, contents)
    }

    /** Where the pointers of a list lead. */
    lemma Ends()
      requires Valid()
      ensures |nodes| == |contents|
      ensures tail == if nodes == [] then null else nodes[|nodes| - 1]
      ensures head == if nodes == [] then null else nodes[0]
      ensures nodes != [] ==> nodes[0].prev == null && nodes[0].next == NextOf(nodes, 0)
      ensures nodes != [] ==> nodes[0].obj == contents[0]
    {
    }

    /** `ll_create`. */
    constructor ()
      ensures Valid() && nodes == [] && contents == []
    {
      head := null;
      tail := null;
      length := 0;
      nodes := [];
      contents := [];
    }

    /** `ll_front`. */
    method Front() returns (n: Node?)
      requires Valid()
      ensures n == if nodes == [] then null else nodes[0]
      ensures n != null ==> n.obj == contents[0]
    {
      n := head;
    }

    /** `ll_back`. */
    method Back() returns (n: Node?)
      requires Valid()
      ensures n == if nodes == [] then null else nodes[|nodes| - 1]
      ensures n != null ==> n.obj == contents[|contents| - 1]
    {
      n := tail;
    }

    /** The pointer updates of `ll_add_after`. */
    method LinkAfter(node: Node, obj: object, ghost k: nat) returns (n: Node)
      requires Valid() && k < |nodes| && nodes[k] == node
      modifies this, node, if node.next == null then {} else {node.next}
      ensures Valid() && fresh(n)
      ensures nodes == InsertAt<Node>(old(nodes), k + 1, n) && contents == InsertAt<object>(old(contents), k + 1, obj)
    {
      hide InsertAt, Hold, Linked, Distinct;
      NextInside(nodes, k);
      AtEnds<Node>(nodes, k);
      HoldLength(nodes, contents);
      n := new Node(obj);
      Splice(nodes, k, node, n);
      InsertedHold(nodes, contents, k + 1, n);
      if node == tail {
        tail := n;
      }
      length := length + 1;
      nodes := InsertAt<Node>(nodes, k + 1, n);
      contents := InsertAt<object>(contents, k + 1, obj);
    }

    /** The pointer updates of `ll_remove`. */
    method Unlink(node: Node, ghost k: nat) returns (obj: object)
      requires Valid() && k < |nodes| && nodes[k] == node
      modifies this, if node.prev == null then {} else {node.prev}, if node.next == null then {} else {node.next}
      ensures Valid()
      ensures obj == old(contents)[k]
      ensures nodes == DeleteAt(old(nodes), k) && contents == DeleteAt(old(contents), k)
    {
      hide DeleteAt, Hold, Linked, Distinct;
      NextInside(nodes, k);
      PrevInside(nodes, k);
      DeletedHold(nodes, contents, k);
      AtEnds<Node>(nodes, k);
      obj := node.obj;
      var first, final := node == head, node == tail;
      if first {
        head := node.next;
      }
      if final {
        tail := node.prev;
      }
      Unsplice(nodes, k, node, first, final);
      length := length - 1;
      nodes := DeleteAt(nodes, k);
      contents := DeleteAt(contents, k);
    }

    /** `ll_length`. */
    method Length() returns (k: nat)
      requires Valid()
      ensures k == |contents|
    {
      k := length;
    }
  }

  /** Insertion of `x` in front of position `k`. */
  function InsertAt<T>(s: seq<T>, k: nat, x: T): seq<T>
    requires k <= |s|
  {
    s[..k] + [x] + s[k..]
  }

  function DeleteAt<T>(s: seq<T>, k: nat): seq<T>
    requires k < |s|
  {
    s[..k] + s[k + 1..]
  }

  /** The node behind the k-th one. */
  ghost function NextOf(nodes: seq<Node>, k: nat): Node?
    requires k < |nodes|
  {
    if k + 1 < |nodes| then nodes[k + 1] else null
  }

  lemma NextInside(nodes: seq<Node>, k: nat)
    requires Linked(nodes) && k < |nodes| && nodes[|nodes| - 1].next == null
    ensures nodes[k].next == NextOf(nodes, k)
  {
  }

  /** Links `n` in between `node` and its next node. */
  method Splice(ghost nodes: seq<Node>, ghost k: nat, node: Node, n: Node)
    requires Linked(nodes) && Distinct<Node>(nodes) && k < |nodes| && nodes[k] == node && n !in nodes
    requires nodes[0].prev == null && nodes[|nodes| - 1].next == null
    modifies node`next, n`next, n`prev, (if node.next == null then {} else {node.next})`prev
    ensures Linked(InsertAt<Node>(nodes, k + 1, n)) && Distinct<Node>(InsertAt<Node>(nodes, k + 1, n))
    ensures var after := InsertAt<Node>(nodes, k + 1, n);
            && |after| == |nodes| + 1 && after[0] == nodes[0] && after[0].prev == null
            && after[|nodes|] == (if k + 1 == |nodes| then n else nodes[|nodes| - 1]) && after[|nodes|].next == null
  {
    NextInside(nodes, k);
    n.prev := node;
    n.next := node.next;
    if node.next != null {
      node.next.prev := n;
    }
    node.next := n;
    Spliced(nodes, k, n);
  }

  /** A node that was linked in between its neighbours keeps the sequence linked. */
  lemma Spliced(was: seq<Node>, k: nat, n: Node)
    requires k < |was| && n !in was && Distinct<Node>(was)
    requires forall i, j :: 0 <= i && j == i + 1 && j < |was| && i != k ==>
        was[i].next == was[j] && was[j].prev == was[i]
    requires was[k].next == n && n.prev == was[k] && n.next == NextOf(was, k)
    requires k + 1 < |was| ==> was[k + 1].prev == n
    ensures var nodes := InsertAt<Node>(was, k + 1, n);
            && Linked(nodes) && Distinct<Node>(nodes)
            && |nodes| == |was| + 1 && nodes[0] == was[0]
            && nodes[|was|] == (if k + 1 == |was| then n else was[|was| - 1])
  {
    hide InsertAt;
    Inserted<Node>(was, k + 1, n);
    var nodes := InsertAt<Node>(was, k + 1, n);
    forall i, j | 0 <= i && j == i + 1 && j < |nodes|
      ensures nodes[i].next == nodes[j] && nodes[j].prev == nodes[i]
    {
      if i < k {
        assert nodes[i] == was[i] && nodes[j] == was[j];
      } else if i == k {
        assert nodes[i] == was[k] && nodes[j] == n;
      } else if i == k + 1 {
        assert nodes[i] == n && nodes[j] == was[k + 1];
      } else {
        assert nodes[i] == was[i - 1] && nodes[j] == was[j - 1];
      }
    }
  }

  lemma PrevInside(nodes: seq<Node>, k: nat)
    requires Linked(nodes) && k < |nodes| && nodes[0].prev == null
    ensures nodes[k].prev == if k == 0 then null else nodes[k - 1]
  {
    if k > 0 {
      assert nodes[k - 1].next == nodes[k];
    }
  }

  /** Links the neighbours of `node` with each other. */
  method Unsplice(ghost nodes: seq<Node>, ghost k: nat, node: Node, first: bool, final: bool)
    requires Linked(nodes) && Distinct<Node>(nodes) && k < |nodes| && nodes[k] == node
    requires nodes[0].prev == null && nodes[|nodes| - 1].next == null
    requires first == (k == 0) && final == (k == |nodes| - 1)
    modifies (if node.prev == null then {} else {node.prev})`next, (if node.next == null then {} else {node.next})`prev
    ensures var after := DeleteAt<Node>(nodes, k);
            && |after| == |nodes| - 1 && Linked(after) && Distinct<Node>(after)
            && (after != [] ==>
                  && after[0] == (if k == 0 then nodes[1] else nodes[0]) && after[0].prev == null
                  && after[|after| - 1] == (if k == |after| then nodes[k - 1] else nodes[|after|])
                  && after[|after| - 1].next == null)
  {
    NextInside(nodes, k);
    PrevInside(nodes, k);
    if !first {
      node.prev.next := node.next;
    }
    if !final {
      node.next.prev := node.prev;
    }
    ghost var after := DeleteAt<Node>(nodes, k);
    assert forall i :: 0 <= i < |after| ==> after[i] == if i < k then nodes[i] else nodes[i + 1];
  }

  /** In a sequence without repetition only the end positions hold the end elements. */
  lemma AtEnds<T>(s: seq<T>, k: nat)
    requires Distinct<T>(s) && k < |s|
    ensures s[k] == s[0] <==> k == 0
    ensures s[k] == s[|s| - 1] <==> k == |s| - 1
  {
  }

  lemma HoldLength(nodes: seq<Node>, contents: seq<object>)
    requires Hold(nodes, contents)
    ensures |nodes| == |contents|
  {
  }

  lemma DeletedHold(nodes: seq<Node>, contents: seq<object>, k: nat)
    requires Hold(nodes, contents) && k < |nodes|
    ensures |contents| == |nodes| && nodes[k].obj == contents[k]
    ensures Hold(DeleteAt<Node>(nodes, k), DeleteAt<object>(contents, k))
  {
  }

  lemma InsertedHold(nodes: seq<Node>, contents: seq<object>, k: nat, n: Node)
    requires Hold(nodes, contents) && k <= |nodes|
    ensures Hold(InsertAt<Node>(nodes, k, n), InsertAt<object>(contents, k, n.obj))
  {
    hide InsertAt;
    Inserted<Node>(nodes, k, n);
    Inserted<object>(contents, k, n.obj);
  }

  /** Which element stands where after an insertion. */
  lemma Inserted<T>(s: seq<T>, k: nat, x: T)
    requires k <= |s|
    ensures |InsertAt(s, k, x)| == |s| + 1
    ensures forall i {:trigger InsertAt(s, k, x)[i]} :: 0 <= i <= |s| ==>
              InsertAt(s, k, x)[i] == if i < k then s[i] else if i == k then x else s[i - 1]
  {
  }

  /** `ll_add`: behind the last element. */
  method Add(list: List?, obj: object?) returns (node: Node?)
    requires list != null ==> list.Valid()
    modifies if list == null then {} else {list}, if list == null || list.tail == null then {} else {list.tail}
    ensures list == null || obj == null ==> node == null
    ensures list != null ==> list.Valid()
    ensures list != null && obj == null ==> list.nodes == old(list.nodes) && list.contents == old(list.contents)
    ensures list != null && obj != null ==>
              && node != null && fresh(node)
              && list.nodes == InsertAt(old(list.nodes), |old(list.nodes)|, node)
              && list.contents == InsertAt(old(list.contents), |old(list.contents)|, obj)
  {
    if list == null || obj == null {
      return null;
    }
    var n := new Node(obj);
    if list.head == null {
      list.head := n;
      list.tail := n;
    } else {
      list.tail.next := n;
      n.prev := list.tail;
      list.tail := n;
    }
    list.length := list.length + 1;
    list.nodes := list.nodes + [n];
    list.contents := list.contents + [obj];
    node := n;
  }

  /** `ll_add_front`: before the first element. */
  method AddFront(list: List?, obj: object?) returns (node: Node?)
    requires list != null ==> list.Valid()
    modifies if list == null then {} else {list}, if list == null || list.head == null then {} else {list.head}
    ensures list == null || obj == null ==> node == null
    ensures list != null ==> list.Valid()
    ensures list != null && obj == null ==> list.nodes == old(list.nodes) && list.contents == old(list.contents)
    ensures list != null && obj != null ==>
              && node != null && fresh(node)
              && list.nodes == InsertAt(old(list.nodes), 0, node)
              && list.contents == InsertAt(old(list.contents), 0, obj)
  {
    if list == null || obj == null {
      return null;
    }
    var n := new Node(obj);
    if list.head == null {
      list.head := n;
      list.tail := n;
    } else {
      n.next := list.head;
      list.head.prev := n;
      list.head := n;
    }
    list.length := list.length + 1;
    list.nodes := [n] + list.nodes;
    list.contents := [obj] + list.contents;
    node := n;
  }

  /** `ll_add_after`: behind `node`, which is element `k` of the list. */
  method AddAfter(list: List?, node: Node?, obj: object?, ghost k: nat) returns (added: Node?)
    requires list != null ==> list.Valid()
    requires list != null && node != null ==> k < |list.nodes| && list.nodes[k] == node
    modifies if list == null then {} else {list}
    modifies if node == null then {} else {node}, if node == null || node.next == null then {} else {node.next}
    ensures list == null || node == null || obj == null ==> added == null
    ensures list != null ==> list.Valid()
    ensures list != null && (node == null || obj == null) ==>
              list.nodes == old(list.nodes) && list.contents == old(list.contents)
    ensures list != null && node != null && obj != null ==>
              && added != null && fresh(added)
              && list.nodes == InsertAt(old(list.nodes), k + 1, added)
              && list.contents == InsertAt(old(list.contents), k + 1, obj)
  {
    if list == null || node == null || obj == null {
      return null;
    }
    added := list.LinkAfter(node, obj, k);
  }

  /** `ll_remove`: unlinks `node`, which is element `k` of the list, and returns what it held. */
  method Remove(list: List?, node: Node?, ghost k: nat) returns (obj: object?)
    requires list != null ==> list.Valid()
    requires list != null && node != null ==> k < |list.nodes| && list.nodes[k] == node
    modifies if list == null then {} else {list}
    modifies if node == null || node.prev == null then {} else {node.prev}
    modifies if node == null || node.next == null then {} else {node.next}
    ensures list == null || node == null ==> obj == null
    ensures list != null ==> list.Valid()
    ensures list != null && node == null ==> list.nodes == old(list.nodes) && list.contents == old(list.contents)
    ensures list != null && node != null ==>
              && obj == old(list.contents)[k]
              && list.nodes == DeleteAt(old(list.nodes), k)
              && list.contents == DeleteAt(old(list.contents), k)
  {
    if list == null || node == null {
      return null;
    }
    obj := list.Unlink(node, k);
  }

  /** `ll_find`: the first node that holds the object. */
  method Find(list: List?, obj: object?) returns (node: Node?)
    requires list != null ==> list.Valid()
    ensures list == null || obj == null ==> node == null
    ensures list != null && obj != null ==>
              if obj in list.contents
              then exists k :: 0 <= k < |list.nodes| && node == list.nodes[k] && list.contents[k] == obj
                               && obj !in list.contents[..k]
              else node == null
  {
    if list == null || obj == null {
      return null;
    }
    var curr := list.head;
    ghost var i := 0;
    while curr != null
      invariant 0 <= i <= |list.nodes|
      invariant curr == if i < |list.nodes| then list.nodes[i] else null
      invariant obj !in list.contents[..i]
      decreases |list.nodes| - i
    {
      if curr.obj == obj {
        assert list.contents[i] == obj;
        return curr;
      }
      curr := curr.next;
      i := i + 1;
    }
    node := null;
  }

  /** Deleting what was inserted restores the sequence, and nothing else moves. */
  lemma InsertThenDelete<T>(s: seq<T>, k: nat, x: T)
    requires k <= |s|
    ensures InsertAt(s, k, x)[k] == x && DeleteAt(InsertAt(s, k, x), k) == s
    ensures forall i :: 0 <= i < |s| ==> s[i] == InsertAt(s, k, x)[if i < k then i else i + 1]
  {
    assert InsertAt(s, k, x)[..k] == s[..k];
    assert InsertAt(s, k, x)[k + 1..] == s[k..];
    assert s == s[..k] + s[k..];
  }
}
