// The intrusive circular lists of ril_event.cpp: events linked through
// next and prev around a sentinel, refined to sequences of events.
module EventLists {
  import opened TimeVal

  class Event {
    var next: Event?
    var prev: Event?
    var fd: int
    var index: int
    const persist: bool
    var timeout: Timeval
    const param: nat  // stands for the callback together with its user data
    ghost var ring: Event?  // the sentinel of the list the event is linked in

    /** ril_event_set on freshly allocated memory */
    constructor (fd: int, persist: bool, param: nat)
      ensures next == null && prev == null && ring == null && index == -1
      ensures this.fd == fd && this.persist == persist && this.param == param
      ensures timeout == Timeval(0, 0)
    {
      next, prev, ring, index, timeout := null, null, null, -1, Timeval(0, 0);
      this.fd, this.persist, this.param := fd, persist, param;
    }

    /** init_list: a zeroed event linked to itself */
    constructor Sentinel()
      ensures Ring(this, [])
      ensures fd == -1
    {
      next, prev, ring, index, timeout := this, this, this, 0, Timeval(0, 0);
      fd, persist, param := -1, false, 0;
    }
  }

  /** The node a walk from the sentinel meets after k steps. */
  ghost function Node(s: Event, q: seq<Event>, k: nat): Event
    requires k <= |q|
  {
    if k < |q| then q[k] else s
  }

  /** The nodes of q, in order, hang between s and s, with next and prev mutually inverse. */
  ghost predicate Ring(s: Event, q: seq<Event>)
    reads s`next, s`prev, s`ring, q`next, q`prev, q`ring
  {
    && s.ring == s
    && (forall i {:trigger q[i].ring} {:trigger q[i]} :: 0 <= i < |q| ==> q[i].ring == s && q[i] != s)
    && (forall i, j :: 0 <= i < j < |q| ==> q[i] != q[j])
    && s.next == (if q == [] then s else q[0])
    && s.prev == (if q == [] then s else q[|q| - 1])
    && (forall i {:trigger q[i].next} :: 0 <= i < |q| ==> q[i].next == (if i + 1 < |q| then q[i + 1] else s))
    && (forall i {:trigger q[i].prev} :: 0 <= i < |q| ==> q[i].prev == (if i > 0 then q[i - 1] else s))
  }

  /** Links ev in front of the node list, which may be the sentinel. */
  method AddToList(ev: Event, list: Event, ghost s: Event, ghost q: seq<Event>, ghost k: nat)
    requires Ring(s, q) && k <= |q| && list == Node(s, q, k)
    requires ev.ring == null
    modifies ev`next, ev`prev, ev`ring, list`prev, list.prev`next
    ensures Ring(s, q[..k] + [ev] + q[k..])
    ensures ev.ring == s
  {
    ghost var before := if k > 0 then q[k - 1] else s;
    assert list.prev == before by {
      if k < |q| { assert q[k].prev == before; }
    }
    ev.next := list;
    ev.prev := list.prev;
    ev.prev.next := ev;
    list.prev := ev;
    ev.ring := s;

    ghost var r := q[..k] + [ev] + q[k..];
    InsertedAt(q, ev, k);
    forall i | 0 <= i < |r|
      ensures r[i].next == (if i + 1 < |r| then r[i + 1] else s)
      ensures r[i].prev == (if i > 0 then r[i - 1] else s)
    {
      if i > k { assert q[i - 1] == r[i]; }
    }
  }

  lemma InsertedAt(q: seq<Event>, ev: Event, k: nat)
    requires k <= |q|
    ensures var r := q[..k] + [ev] + q[k..];
      && |r| == |q| + 1 && r[k] == ev && (forall i :: 0 <= i < k ==> r[i] == q[i])
      && (forall i :: k < i < |r| ==> r[i] == q[i - 1])
  {
  }

  method RemoveFromList(ev: Event, ghost s: Event, ghost q: seq<Event>, ghost k: nat)
    requires Ring(s, q) && k < |q| && ev == q[k]
    modifies ev`next, ev`prev, ev`ring, ev.next`prev, ev.prev`next
    ensures Ring(s, q[..k] + q[k + 1..])
    ensures ev.next == null && ev.prev == null && ev.ring == null
  {
    assert q[k].next == (if k + 1 < |q| then q[k + 1] else s);
    assert q[k].prev == (if k > 0 then q[k - 1] else s);
    ev.next.prev := ev.prev;
    ev.prev.next := ev.next;
    ev.next := null;
    ev.prev := null;
    ev.ring := null;

    ghost var r := q[..k] + q[k + 1..];
    forall i | 0 <= i < |r|
      ensures r[i].next == (if i + 1 < |r| then r[i + 1] else s)
      ensures r[i].prev == (if i > 0 then r[i - 1] else s)
    {
      if i >= k { assert q[i + 1] == r[i]; }
    }
  }

  /** Every node of a list, and both its neighbours, belong to that list. */
  lemma Neighbours(s: Event, q: seq<Event>, k: nat)
    requires Ring(s, q) && k <= |q|
    ensures var e := Node(s, q, k);
      && e.ring == s && e.prev != null && e.prev.ring == s && e.next != null && e.next.ring == s
    ensures k < |q| ==> q[k] != s && q[k].next == Node(s, q, k + 1)
    ensures k > 0 ==> Node(s, q, k).prev == q[k - 1]
    ensures k == 0 ==> Node(s, q, k).prev == s && s.next == Node(s, q, 0)
  {
    if k < |q| {
      assert q[k].next == (if k + 1 < |q| then q[k + 1] else s);
      assert q[k].prev == (if k > 0 then q[k - 1] else s);
    }
  }

  /** The members of a list carry its sentinel, so two lists share no event. */
  lemma Owners(s: Event, q: seq<Event>)
    requires Ring(s, q)
    ensures s.ring == s && forall i {:trigger q[i]} :: 0 <= i < |q| ==> q[i].ring == s && q[i] != s
    ensures forall i, j :: 0 <= i < j < |q| ==> q[i] != q[j]
  {
  }
}
