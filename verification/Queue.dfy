/**
 The intrusive queue of src/list.h: nodes linked through `next`, and a tail that designates the link the next push
 writes, which is the head itself while the queue is empty.
 */
module Queues {

  class Node {
    var next: Node?
    constructor ()
      ensures next == null
    {
      next := null;
    }
  }

  class Queue {
    var head: Node?
    var tail: Node?           // the link tail.next, or the head when null
    ghost var nodes: seq<Node>

    ghost predicate Valid()
      reads this, nodes
    {
      && (forall i, j :: 0 <= i < j < |nodes| ==> nodes[i] != nodes[j])
      && head == (if nodes == [] then null else nodes[0])
      && tail == (if nodes == [] then null else nodes[|nodes| - 1])
      && (forall i :: 0 <= i < |nodes| - 1 ==> nodes[i].next == nodes[i + 1])
      && (nodes != [] ==> nodes[|nodes| - 1].next == null)
    }

    /** queue_init, src/list.h:16-20 */
    constructor Init()
      ensures Valid() && nodes == []
    {
      head, tail, nodes := null, null, [];
    }

    /** queue_push, src/list.h:22-27 */
    method Push(node: Node)
      requires Valid() && node !in nodes
      modifies this, node, if tail == null then {} else {tail}
      ensures Valid() && nodes == old(nodes) + [node]
    {
      node.next := null;
      if tail == null {
        head := node;
      } else {
        tail.next := node;
      }
      tail := node;
      nodes := nodes + [node];
    }

    /** queue_pop, src/list.h:29-38: a popped node keeps its link. */
    method Pop() returns (node: Node?)
      requires Valid()
      modifies this
      ensures Valid()
      ensures old(nodes) == [] ==> node == null && nodes == []
      ensures old(nodes) != [] ==> node == old(nodes)[0] && nodes == old(nodes)[1..]
    {
      node := head;
      if node != null {
        head := node.next;
        nodes := nodes[1..];
        if head == null {
          tail := null;
        }
      }
    }

    /** queue_is_empty, src/list.h:40-43 */
    method IsEmpty() returns (empty: bool)
      requires Valid()
      ensures empty <==> nodes == []
    {
      empty := head == null;
    }

    /** The tail designates the one null link of the chain. */
    lemma TailIsTheNullLink()
      requires Valid()
      ensures tail == null <==> head == null
      ensures tail != null ==> tail in nodes
      ensures forall i :: 0 <= i < |nodes| ==> (nodes[i].next == null <==> nodes[i] == tail)
    {
      forall i | 0 <= i < |nodes| - 1
        ensures nodes[i].next != null && nodes[i] != tail
      {
        assert nodes[i].next == nodes[i + 1] && nodes[i] != nodes[|nodes| - 1];
      }
    }
  }

  // ----- whole sequences of operations

  datatype Op = PushOp(node: Node) | PopOp

  /** Contents after the operations, and what the pops returned. */
  ghost function After(contents: seq<Node>, ops: seq<Op>): seq<Node> {
    if ops == [] then contents
    else
      var before := After(contents, ops[..|ops| - 1]);
      match ops[|ops| - 1]
      case PushOp(node) => before + [node]
      case PopOp => if before == [] then [] else before[1..]
  }

  /** No operation pushes a node that is queued at that moment; a popped node may be pushed again. */
  ghost predicate Pushable(contents: seq<Node>, ops: seq<Op>) {
    forall i :: 0 <= i < |ops| && ops[i].PushOp? ==> ops[i].node !in After(contents, ops[..i])
  }

  ghost function Pushed(ops: seq<Op>): seq<Node> {
    if ops == [] then []
    else Pushed(ops[..|ops| - 1]) + (if ops[|ops| - 1].PushOp? then [ops[|ops| - 1].node] else [])
  }

  ghost function NonNull(out: seq<Node?>): seq<Node> {
    if out == [] then []
    else
      var rest := NonNull(out[..|out| - 1]);
      var last := out[|out| - 1];
      if last != null then rest + [last] else rest
  }

  /** What the pops return. */
  ghost function Returned(contents: seq<Node>, ops: seq<Op>): seq<Node?> {
    if ops == [] then []
    else
      var init := ops[..|ops| - 1];
      var before := After(contents, init);
      if ops[|ops| - 1].PushOp? then Returned(contents, init)
      else Returned(contents, init) + [if before == [] then null else before[0]]
  }

  /** First in, first out: what came out, then what is left, is what was there, then what was pushed. */
  lemma {:induction false} FirstInFirstOut(contents: seq<Node>, ops: seq<Op>)
    ensures NonNull(Returned(contents, ops)) + After(contents, ops) == contents + Pushed(ops)
  {
    if ops != [] {
      var init := ops[..|ops| - 1];
      FirstInFirstOut(contents, init);
      var before, out := After(contents, init), Returned(contents, init);
      match ops[|ops| - 1]
      case PushOp(node) =>
        calc {
          NonNull(out) + After(contents, ops);
          NonNull(out) + (before + [node]);
          (NonNull(out) + before) + [node];
          (contents + Pushed(init)) + [node];
          contents + (Pushed(init) + [node]);
        }
      case PopOp =>
        PopReturned(out, before);
        assert Pushed(ops) == Pushed(init);
    }
  }

  /** A pop moves the first node from the contents to the output. */
  lemma PopReturned(out: seq<Node?>, before: seq<Node>)
    ensures NonNull(out + [if before == [] then null else before[0]]) + (if before == [] then [] else before[1..])
         == NonNull(out) + before
  {
    var node: Node? := if before == [] then null else before[0];
    assert (out + [node])[..|out|] == out;
    if node != null {
      assert before == [node] + before[1..];
    }
  }

  method PerformOne(q: Queue, op: Op) returns (out: seq<Node?>)
    requires q.Valid() && (op.PushOp? ==> op.node !in q.nodes)
    modifies q, q.nodes, if op.PushOp? then {op.node} else {}
    ensures q.Valid()
    ensures match op
            case PushOp(node) => q.nodes == old(q.nodes) + [node] && out == []
            case PopOp => && q.nodes == (if old(q.nodes) == [] then [] else old(q.nodes)[1..])
                          && out == [if old(q.nodes) == [] then null else old(q.nodes)[0]]
  {
    match op
    case PushOp(node) =>
      q.Push(node);
      out := [];
    case PopOp =>
      var node := q.Pop();
      out := [node];
  }

  /** Any operations, one after the other, on the linked structure: FirstInFirstOut says what they return. */
  method Perform(q: Queue, ops: seq<Op>, ghost pool: set<Node>) returns (out: seq<Node?>)
    requires q.Valid() && Pushable(q.nodes, ops)
    requires (forall x :: x in q.nodes ==> x in pool)
            && (forall i :: 0 <= i < |ops| && ops[i].PushOp? ==> ops[i].node in pool)
    modifies q, pool
    ensures q.Valid() && q.nodes == After(old(q.nodes), ops) && out == Returned(old(q.nodes), ops)
  {
    out := [];
    ghost var start := q.nodes;
    for i := 0 to |ops|
      invariant q.Valid() && q.nodes == After(start, ops[..i]) && out == Returned(start, ops[..i])
      invariant forall x :: x in q.nodes ==> x in pool
    {
      assert ops[..i + 1][..i] == ops[..i];
      var more := PerformOne(q, ops[i]);
      out := out + more;
    }
    assert ops[..|ops|] == ops;
  }
}
