/** The work queue as the scheduler stores it: a singly linked list with a pointer to its
    last node, and the set of the edges in it. It behaves as the sequence of distinct edges
    that the scheduler works with. */
module DispatchQueue {
  import opened SolverTypes

  /** The list and the set of waiting edges hold the same edges, without repeats. */
  ghost predicate Queued<T>(queue: seq<T>, waitq: set<T>) {
    (forall i, j | 0 <= i < j < |queue| :: queue[i] != queue[j]) && waitq == set e | e in queue
  }

  /** The queue after an edge has been signaled: an edge that is waiting is not queued again. */
  function Signaled<T(==)>(queue: seq<T>, e: T): seq<T> {
    if e in queue then queue else queue + [e]
  }

  class Dispatcher<T> {
    const e: T
    var next: Dispatcher?<T>

    constructor (e: T)
      ensures this.e == e && next == null
    {
      this.e := e;
      next := null;
    }
  }

  class Queue<T(==)> {
    var next: Dispatcher?<T>
    var last: Dispatcher?<T>
    var waitq: set<T>
    ghost var nodes: seq<Dispatcher<T>>
    ghost var contents: seq<T>   // the edges in the order in which they will be dispatched

    ghost predicate Valid()
      reads this, nodes
    {
      && |contents| == |nodes|
      && (if nodes == [] then next == last == null
          else next == nodes[0] && last == nodes[|nodes| - 1] && nodes[|nodes| - 1].next == null)
      && (forall i | 0 <= i < |nodes| :: nodes[i].e == contents[i])
      && (forall i, j | 0 <= i && j == i + 1 < |nodes| :: nodes[i].next == nodes[j])
      && (forall i, j | 0 <= i < j < |nodes| :: nodes[i] != nodes[j])
      && Queued(contents, waitq)
    }

    constructor ()
      ensures Valid() && contents == [] && waitq == {}
    {
      next, last, waitq, nodes, contents := null, null, {}, [], [];
    }

    /** An edge that is waiting is not queued again; any other edge goes to the end. */
    method Signal(e: T)
      requires Valid()
      modifies this, nodes
      ensures Valid()
      ensures contents == Signaled(old(contents), e) && waitq == old(waitq) + {e}
    {
      if e !in waitq {
        var d := new Dispatcher(e);
        if last == null {
          next := d;
        } else {
          last.next := d;
        }
        last := d;
        waitq := waitq + {e};
        nodes, contents := nodes + [d], contents + [e];
      }
    }

    /** The edge that has waited longest, if there is one, is taken from the queue. */
    method Pop() returns (r: Option<T>)
      requires Valid()
      modifies this
      ensures Valid()
      ensures r.None? <==> old(contents) == []
      ensures r.None? ==> contents == []
      ensures r.Some? ==> old(contents) == [r.value] + contents && waitq == old(waitq) - {r.value}
    {
      var l := next;
      if l == null { return None; }
      if l == last { last := null; }
      next := l.next;
      waitq := waitq - {l.e};
      nodes, contents := nodes[1..], contents[1..];
      r := Some(l.e);
    }
  }
}
