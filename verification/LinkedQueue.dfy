/** The singly linked FIFO queue of queue.c: a chain of nodes with a head, a tail and a count. */
module LinkedQueue {

  class Node<T> {
    var data: T
    var next: Node?<T>

    constructor (data: T)
      ensures this.data == data && next == null
    {
      this.data, this.next := data, null;
    }
  }

  class Queue<T> {
    var head: Node?<T>
    var tail: Node?<T>
    var n: int
    // The nodes from head to tail, in order.
    ghost var chain: seq<Node<T>>

    /** head, tail and n describe one acyclic chain of exactly n nodes. */
    ghost predicate Valid()
      reads this, chain
    {
      && n == |chain|
      && (n == 0 ==> head == null && tail == null)
      && (n > 0 ==> head == chain[0] && tail == chain[n - 1] && chain[n - 1].next == null)
      && (forall i :: 0 <= i < n - 1 ==> chain[i].next == chain[i + 1])
      && (forall i, j :: 0 <= i < j < n ==> chain[i] != chain[j])
    }

    ghost function Contents(): (s: seq<T>)
      reads this, chain
    {
      Datas(chain)
    }

    // init_queue
    constructor ()
      ensures Valid() && Contents() == [] && chain == []
    {
      head, tail, n, chain := null, null, 0, [];
    }

    predicate IsEmpty(): (empty: bool)
      requires Valid()
      reads this, chain
      ensures empty <==> Contents() == []
    {
      n <= 0
    }

    method Enqueue(data: T)
      requires Valid()
      modifies this, tail
      ensures Valid() && Contents() == old(Contents()) + [data]
      ensures |chain| == old(|chain|) + 1 && tail == chain[|chain| - 1] && fresh(tail)
      ensures forall i :: 0 <= i < old(|chain|) ==> chain[i] == old(chain)[i] && chain[i].data == old(chain[i].data)
    {
      var node := new Node(data);
      if tail == null {
        head, tail := node, node;
      } else {
        tail.next := node;
        tail := node;
      }
      n := n + 1;
      chain := chain + [node];
    }

    /** An empty queue yields nothing and stays as it is; otherwise the first element leaves. */
    method Dequeue() returns (data: Option<T>)
      requires Valid()
      modifies this
      ensures Valid() && (tail == old(tail) || tail == null)
      ensures old(Contents()) == [] ==> data == None && Contents() == [] && chain == old(chain)
      ensures old(Contents()) != [] ==>
                data == Some(old(Contents())[0]) && Contents() == old(Contents())[1..] && chain == old(chain)[1..]
    {
      if n <= 0 {
        return None;
      }
      var first := head;
      data := Some(first.data);
      head := first.next;
      if head == null {
        tail := null;
      }
      n := n - 1;
      chain := chain[1..];
    }
  }

  datatype Option<+T> = None | Some(value: T)

  ghost function Datas<T>(nodes: seq<Node<T>>): (s: seq<T>)
    reads nodes
    ensures |s| == |nodes|
    ensures forall i :: 0 <= i < |s| ==> s[i] == nodes[i].data
  {
    seq(|nodes|, i requires 0 <= i < |nodes| reads nodes => nodes[i].data)
  }

  ghost predicate Disjoint<T>(a: seq<T>, b: seq<T>) {
    forall i, j :: 0 <= i < |a| && 0 <= j < |b| ==> a[i] != b[j]
  }

  /** After count steps of the walk, dest holds its old elements and the first count of src's. */
  ghost predicate Copied<T>(dest: Queue<T>, src: Queue<T>, destNodes: seq<Node<T>>, srcNodes: seq<Node<T>>,
                            dests: seq<T>, items: seq<T>, count: nat)
    reads dest, dest.chain, src, src.chain
  {
    && dest.Valid() && src.Valid()
    && |dests| == |destNodes| && count <= |items| == |srcNodes|
    && |dest.chain| == |dests| + count
    && (forall i :: 0 <= i < |dests| ==> dest.chain[i] == destNodes[i] && dest.chain[i].data == dests[i])
    && (forall i :: |dests| <= i < |dest.chain| ==> dest.chain[i].data == items[i - |dests|])
    && (if dest == src then destNodes == srcNodes && dests == items
        else src.chain == srcNodes && src.Contents() == items && Disjoint(dest.chain, srcNodes))
  }

  lemma CopiedAll<T>(dest: Queue<T>, src: Queue<T>, destNodes: seq<Node<T>>, srcNodes: seq<Node<T>>,
                     dests: seq<T>, items: seq<T>)
    requires Copied(dest, src, destNodes, srcNodes, dests, items, |items|)
    ensures dest.Contents() == dests + items
  {
  }

  /** One step of enqueue_all's walk: append a copy of cur's element, then move to its successor. */
  method CopyNode<T>(dest: Queue<T>, src: Queue<T>, cur: Node<T>, ghost destNodes: seq<Node<T>>,
                     ghost srcNodes: seq<Node<T>>, ghost dests: seq<T>, ghost items: seq<T>, ghost count: nat)
    returns (next: Node?<T>)
    requires Copied(dest, src, destNodes, srcNodes, dests, items, count)
    requires count < |srcNodes| && cur == src.chain[count]
    modifies dest, dest.tail
    ensures Copied(dest, src, destNodes, srcNodes, dests, items, count + 1)
    ensures fresh(dest.tail)
    ensures if next == null then count + 1 == |srcNodes|
            else count + 1 < |src.chain| && next == src.chain[count + 1]
  {
    dest.Enqueue(cur.data);
    assert count + 1 < src.n ==> cur.next == src.chain[count + 1];
    next := cur.next;
  }

  /** enqueue_all: the elements that src held on entry are appended to dest.
      The two may be the same queue, whose chain then grows under the walk. */
  method EnqueueAll<T>(dest: Queue<T>, src: Queue<T>) returns (count: int)
    requires dest.Valid() && src.Valid()
    requires dest != src ==> Disjoint(dest.chain, src.chain)
    modifies dest, dest.tail
    ensures dest.Valid() && src.Valid()
    ensures dest.Contents() == old(dest.Contents()) + old(src.Contents())
    ensures dest != src ==> src.Contents() == old(src.Contents())
    ensures count == |old(src.Contents())|
  {
    if src.n <= 0 {
      return 0;
    }
    ghost var items, dests := src.Contents(), dest.Contents();
    ghost var srcNodes, destNodes := src.chain, dest.chain;
    var cur := src.head;
    var size := src.n;
    count := 0;
    while count < size && cur != null
      invariant 0 <= count <= size == |srcNodes|
      invariant Copied(dest, src, destNodes, srcNodes, dests, items, count)
      invariant dest.tail == old(dest.tail) || fresh(dest.tail)
      invariant if cur == null then count == size else count < |src.chain| && cur == src.chain[count]
    {
      cur := CopyNode(dest, src, cur, destNodes, srcNodes, dests, items, count);
      count := count + 1;
    }
    CopiedAll(dest, src, destNodes, srcNodes, dests, items);
  }
}
