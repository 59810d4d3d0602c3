/** The doubly linked queue of Server/server_queue.c. */
module Deque {

  class Node<T> {
    var previous: Node?<T>
    var next: Node?<T>
    const data: T
    /** false once the node has been given back to the allocator */
    var live: bool

    constructor (data: T)
      ensures previous == null && next == null && this.data == data && live
    {
      previous, next := null, null;
      this.data := data;
      live := true;
    }

    /** free(node): only a live node may be freed, so none is freed twice. */
    method Free()
      requires live
      modifies this`live
      ensures !live
    {
      live := false;
    }
  }

  class Queue<T> {
    var first: Node?<T>
    var last: Node?<T>
    ghost var nodes: seq<Node<T>>

    /** The links describe exactly the sequence `nodes`, in which no node occurs twice and none is freed. */
    ghost predicate Valid()
      reads this, nodes
    {
      && (forall i, j :: 0 <= i < j < |nodes| ==> nodes[i] != nodes[j])
      && (forall i :: 0 <= i < |nodes| ==> nodes[i].live)
      && first == (if nodes == [] then null else nodes[0])
      && last == (if nodes == [] then null else nodes[|nodes| - 1])
      && (forall i {:trigger nodes[i].previous} ::
            0 <= i < |nodes| ==> nodes[i].previous == if i == 0 then null else nodes[i - 1])
      && (forall i {:trigger nodes[i].next} ::
            0 <= i < |nodes| ==> nodes[i].next == if i == |nodes| - 1 then null else nodes[i + 1])
    }

    ghost function Contents(): (s: seq<T>)
      reads this, nodes
      ensures |s| == |nodes|
    {
      seq(|nodes|, i requires 0 <= i < |nodes| reads this, nodes => nodes[i].data)
    }

    constructor ()
      ensures Valid() && nodes == [] && Contents() == []
    {
      first, last, nodes := null, null, [];
    }

    method PushBack(x: T)
      requires Valid()
      modifies this, nodes
      ensures Valid() && Contents() == old(Contents()) + [x]
      ensures exists n :: fresh(n) && nodes == old(nodes) + [n]
    {
      var newNode := new Node(x);
      var oldLast := last;
      newNode.previous := oldLast;
      last := newNode;
      if oldLast == null {
        first := newNode;
      } else {
        oldLast.next := newNode;
      }
      nodes := nodes + [newNode];
    }

    method PushFront(x: T)
      requires Valid()
      modifies this, nodes
      ensures Valid() && Contents() == [x] + old(Contents())
      ensures exists n :: fresh(n) && nodes == [n] + old(nodes)
    {
      var newNode := new Node(x);
      var oldFirst := first;
      newNode.next := oldFirst;
      first := newNode;
      if oldFirst == null {
        last := newNode;
      } else {
        oldFirst.previous := newNode;
      }
      nodes := [newNode] + nodes;
    }

    predicate IsEmpty()
      reads this
    {
      first == null
    }

    /** Popping an empty queue is a failed assertion in the source. */
    method PopFront() returns (x: T)
      requires Valid() && !IsEmpty()
      modifies this, nodes
      ensures Valid()
      ensures old(Contents()) == [x] + Contents()
      ensures nodes == old(nodes)[1..] && !old(nodes)[0].live
    {
      var popped := first;
      first := popped.next;
      if popped == last {
        last := null;
      } else {
        popped.next.previous := null;
      }
      nodes := nodes[1..];
      x := popped.data;
      popped.Free();
    }

    /** queueClear: walks the chain once, freeing every node exactly once. `freed` lists them in order. */
    method Clear() returns (ghost freed: seq<Node<T>>)
      requires Valid()
      modifies this, nodes
      ensures Valid() && Contents() == [] && IsEmpty()
      ensures freed == old(nodes) && forall n :: n in freed ==> !n.live
    {
      freed := [];
      ghost var all := nodes;
      var current := first;
      while current != null
        invariant |freed| <= |all| && freed == all[..|freed|]
        invariant nodes == all && forall i, j :: 0 <= i < j < |all| ==> all[i] != all[j]
        invariant current == if |freed| == |all| then null else all[|freed|]
        invariant forall i :: 0 <= i < |freed| ==> !all[i].live
        invariant forall i :: |freed| <= i < |all| ==> all[i].live
        invariant forall i {:trigger all[i].next} ::
                    0 <= i < |all| ==> all[i].next == if i == |all| - 1 then null else all[i + 1]
        decreases |all| - |freed|
      {
        var next := current.next;
        current.Free();
        freed := freed + [current];
        current := next;
      }
      first, last := null, null;
      nodes := [];
    }
  }

  // ---------- any interleaving of operations ----------

  datatype Op<T> = Back(x: T) | Front(x: T) | Pop

  /** The sequence the queue stands for, after a series of operations; popping when empty is not allowed. */
  predicate Allowed<T>(s: seq<T>, ops: seq<Op<T>>)
    decreases |ops|
  {
    ops == [] ||
    match ops[0]
    case Back(x) => Allowed(s + [x], ops[1..])
    case Front(x) => Allowed([x] + s, ops[1..])
    case Pop => s != [] && Allowed(s[1..], ops[1..])
  }

  function Replay<T>(s: seq<T>, ops: seq<Op<T>>): (r: (seq<T>, seq<T>))
    requires Allowed(s, ops)
    decreases |ops|
  {
    if ops == [] then (s, [])
    else
      match ops[0]
      case Back(x) => Replay(s + [x], ops[1..])
      case Front(x) => Replay([x] + s, ops[1..])
      case Pop => var (left, out) := Replay(s[1..], ops[1..]); (left, [s[0]] + out)
  }

  function Pushed<T>(ops: seq<Op<T>>): multiset<T> {
    if ops == [] then multiset{}
    else Pushed(ops[1..]) + (if ops[0].Pop? then multiset{} else multiset{ops[0].x})
  }

  /** Nothing is lost or duplicated: what was there and what was pushed is what came out and what is left. */
  lemma {:induction false} ReplayConserves<T>(s: seq<T>, ops: seq<Op<T>>)
    requires Allowed(s, ops)
    ensures var (left, out) := Replay(s, ops);
            multiset(s) + Pushed(ops) == multiset(left) + multiset(out)
    decreases |ops|
  {
    if ops != [] {
      match ops[0]
      case Back(x) => ReplayConserves(s + [x], ops[1..]);
      case Front(x) => ReplayConserves([x] + s, ops[1..]);
      case Pop =>
        ReplayConserves(s[1..], ops[1..]);
        var (left, out) := Replay(s[1..], ops[1..]);
        var head := s[0];
        assert s == [head] + s[1..];
        assert multiset(s) == multiset([head]) + multiset(s[1..]);
        assert multiset([head] + out) == multiset([head]) + multiset(out);
        assert Pushed(ops) == Pushed(ops[1..]);
        assert multiset(s) + Pushed(ops) == multiset([head]) + (multiset(left) + multiset(out));
    }
  }

  /** A queue used only at the back and the front end for popping is first-in first-out. */
  lemma {:induction false} ReplayIsFifo<T>(s: seq<T>, ops: seq<Op<T>>, pushes: seq<T>)
    requires Allowed(s, ops) && forall i :: 0 <= i < |ops| ==> !ops[i].Front?
    requires pushes == BackPushes(ops)
    ensures var (left, out) := Replay(s, ops);
            out + left == s + pushes
    decreases |ops|
  {
    if ops != [] {
      match ops[0]
      case Back(x) =>
        ReplayIsFifo(s + [x], ops[1..], BackPushes(ops[1..]));
        assert s + [x] + BackPushes(ops[1..]) == s + pushes;
      case Pop =>
        ReplayIsFifo(s[1..], ops[1..], pushes);
        var (left, out) := Replay(s[1..], ops[1..]);
        assert [s[0]] + out + left == [s[0]] + (out + left);
        assert s + pushes == [s[0]] + (s[1..] + pushes);
    }
  }

  function BackPushes<T>(ops: seq<Op<T>>): seq<T> {
    if ops == [] then [] else (if ops[0].Back? then [ops[0].x] else []) + BackPushes(ops[1..])
  }

  /** The linked queue and the plain sequence agree on every allowed series of operations. */
  method Run<T>(q: Queue<T>, ops: seq<Op<T>>) returns (out: seq<T>)
    requires q.Valid() && Allowed(q.Contents(), ops)
    modifies q, q.nodes
    ensures q.Valid()
    ensures (q.Contents(), out) == Replay(old(q.Contents()), ops)
    decreases |ops|
  {
    out := [];
    if ops == [] {
      return;
    }
    match ops[0] {
      case Back(x) =>
        q.PushBack(x);
        out := Run(q, ops[1..]);
      case Front(x) =>
        q.PushFront(x);
        out := Run(q, ops[1..]);
      case Pop =>
        ghost var s := q.Contents();
        var x := q.PopFront();
        assert s[1..] == q.Contents();
        var rest := Run(q, ops[1..]);
        out := [x] + rest;
    }
  }
}
