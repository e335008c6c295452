// The contexts that a command carries, in a list linked by hand.
module CommandContexts {
  import opened InitStrings

  /** A context: a CContextInitString with its final flag, or a CContextEvent. */
  datatype Context = OfInitString(isFinal: bool) | OfEvent

  /** What executing one context does: completions, clean-ups and events signalled. */
  datatype Effect = Effect(signals: Signals, events: nat)

  function ExecuteOne(c: Context, ok: bool): Effect {
    match c
    case OfInitString(isFinal) => Effect(Execute(Cmd("", isFinal), ok), 0)
    case OfEvent => Effect(Signals(0, 0), if ok then 1 else 0)
  }

  class ListNode {
    const context: Context
    var next: ListNode?

    constructor (context: Context)
      ensures this.context == context && next == null
    {
      this.context, next := context, null;
    }
  }

  class ContextContainer {
    var front: ListNode?
    var back: ListNode?
    ghost var nodes: seq<ListNode>

    ghost predicate Valid()
      reads this, nodes`next
    {
      && (front == if nodes == [] then null else nodes[0])
      && (nodes != [] ==> back == nodes[|nodes| - 1])
      && (forall i, j :: 0 <= i < j < |nodes| ==> nodes[i] != nodes[j])
      && (forall i {:trigger nodes[i].next} :: 0 <= i < |nodes| ==> (
            nodes[i].next == if i + 1 < |nodes| then nodes[i + 1] else null))
    }

    /** The contexts in the order of their list. */
    ghost function Contents(): (c: seq<Context>)
      reads this
      ensures |c| == |nodes| && forall i :: 0 <= i < |c| ==> c[i] == nodes[i].context
    {
      seq(|nodes|, i requires 0 <= i < |nodes| reads this => nodes[i].context)
    }

    constructor ()
      ensures Valid() && Contents() == []
    {
      front, back, nodes := null, null, [];
    }

    /** A context goes to the end of the list. */
    method Add(context: Context)
      requires Valid()
      modifies this, nodes`next
      ensures Valid() && Contents() == old(Contents()) + [context]
      ensures fresh(nodes[|nodes| - 1]) && nodes[..|nodes| - 1] == old(nodes)
    {
      var node := new ListNode(context);
      if front == null {
        front := node;
        back := node;
      } else {
        back.next := node;
        back := node;
      }
      nodes := nodes + [node];
    }

    /** Every context is executed once, in the order of the list; log records which. An event is
        signalled by an event context if the command succeeded; the context of a final command
        completes the initialisation or, if the command failed, cleans up; no other does a thing. */
    method ExecuteAll(ok: bool) returns (log: seq<Context>, effects: seq<Effect>)
      requires Valid()
      ensures log == Contents() && |effects| == |log|
      ensures forall i :: 0 <= i < |log| ==>
        var final := log[i].OfInitString? && log[i].isFinal;
        && effects[i].events == (if log[i].OfEvent? && ok then 1 else 0)
        && effects[i].signals.completions == (if final && ok then 1 else 0)
        && effects[i].signals.cleanUps == (if final && !ok then 1 else 0)
    {
      log, effects := [], [];
      var node := front;
      ghost var i := 0;
      while node != null
        invariant 0 <= i <= |nodes| && |effects| == |log| == i
        invariant node == if i < |nodes| then nodes[i] else null
        invariant forall j :: 0 <= j < i ==> log[j] == nodes[j].context && effects[j] == ExecuteOne(log[j], ok)
        decreases |nodes| - i
      {
        log := log + [node.context];
        effects := effects + [ExecuteOne(node.context, ok)];
        node := node.next;
        i := i + 1;
      }
    }
  }
}
