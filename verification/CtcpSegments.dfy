/** The segments that wait for their acknowledgement, in the doubly linked list of
    lab4/ctcp/ctcp_linked_list.c. */
module CtcpSegments {
  import opened CtcpHost
  import LinkedList

  /** An allocated `ctcp_segment_t`; the timer changes its timing fields. */
  class SegmentCell {
    var value: Segment

    constructor (value: Segment)
      ensures this.value == value
    {
      this.value := value;
    }
  }

  class SegmentQueue {
    const list: LinkedList.List
    /** The list's objects and their values, in order. */
    ghost var cells: seq<SegmentCell>
    ghost var waiting: seq<Segment>
    ghost var Repr: set<object>

    /** What the list holds are the cells, each once. */
    ghost predicate Holds()
      reads this`cells, this`waiting, list, cells
    {
      && |cells| == |waiting| == |list.contents|
      && (forall i :: 0 <= i < |cells| ==> list.contents[i] == cells[i] && cells[i].value == waiting[i])
      && (forall i, j :: 0 <= i < j < |cells| ==> cells[i] != cells[j])
    }

    ghost predicate Valid()
      reads this, Repr
      ensures Valid() ==> this in Repr
    {
      && this in Repr && list in Repr
      && (forall i :: 0 <= i < |list.nodes| ==> list.nodes[i] in Repr)
      && (forall i :: 0 <= i < |cells| ==> cells[i] in Repr)
      && list.Valid() && Holds()
    }

    constructor ()
      ensures Valid() && fresh(Repr) && waiting == []
    {
      list := new LinkedList.List();
      cells := [];
      waiting := [];
      new;
      Repr := {this, list};
    }

    /** `ll_add` of a new segment. */
    method Enqueue(s: Segment)
      requires Valid()
      modifies Repr
      ensures Valid() && fresh(Repr - old(Repr)) && old(Repr) <= Repr
      ensures waiting == old(waiting) + [s]
    {
      hide LinkedList.List.Valid;
      list.Ends();
      var cell := new SegmentCell(s);
      var node := LinkedList.Add(list, cell);
      cells := cells + [cell];
      waiting := waiting + [s];
      Repr := Repr + {cell, node};
    }

    /** The object of `ll_front`, if there is one. */
    method First() returns (cell: SegmentCell?)
      requires Valid()
      ensures cell == null <==> waiting == []
      ensures cell != null ==> cells != [] && cell == cells[0] && cell.value == waiting[0] && cell in Repr
    {
      hide LinkedList.List.Valid;
      list.Ends();
      var node := list.Front();
      if node == null {
        return null;
      }
      cell := node.obj as SegmentCell;
    }

    /** `ll_remove` of `ll_front`. */
    method RemoveFirst()
      requires Valid() && waiting != []
      modifies Repr
      ensures Valid() && Repr == old(Repr)
      ensures waiting == old(waiting)[1..]
    {
      hide LinkedList.List.Valid;
      list.Ends();
      var node := list.Front();
      var cell := LinkedList.Remove(list, node, 0);
      cells := cells[1..];
      waiting := waiting[1..];
    }

    /** The timing fields of the first segment are set anew. */
    method Restamp(sendTime: int, delivered: int, deliveredTime: int)
      requires Valid() && waiting != []
      modifies Repr
      ensures Valid() && Repr == old(Repr)
      ensures var was := old(waiting)[0];
              var first := was.(sendTime := sendTime, delivered := delivered, deliveredTime := deliveredTime);
              waiting == [first] + old(waiting)[1..]
    {
      hide LinkedList.List.Valid;
      var cell := First();
      cell.value := cell.value.(sendTime := sendTime, delivered := delivered, deliveredTime := deliveredTime);
      waiting := [cell.value] + waiting[1..];
    }
  }
}
