// Ril_queue and the request handling of a SAP socket as the code has them: linked records, and
// functions that allocate and free them. Each function is proved to do what SapRecords says.
module SapQueue {
  import opened Options
  import opened Sequences
  import opened SapRecords

  /** The fields are set once: by the decoder, or when the record is allocated. */
  class MsgHeader {
    const id: int
    const token: int

    constructor (id: int, token: int)
      ensures this.id == id && this.token == token
    {
      this.id, this.token := id, token;
    }
  }

  class SapRequest {
    const token: int
    const curr: MsgHeader
    const here: bool       // is socketId that of a listed socket?
    var next: SapRequest?  // p_next

    constructor (token: int, curr: MsgHeader, here: bool)
      ensures this.token == token && this.curr == curr && this.here == here && next == null
    {
      this.token, this.curr, this.here, next := token, curr, here, null;
    }
  }

  /** nodes are linked in their order and end with null. */
  ghost predicate Linked(nodes: seq<SapRequest>)
    reads nodes`next
  {
    forall i {:trigger nodes[i].next} :: 0 <= i < |nodes| ==>
      nodes[i].next == if i + 1 < |nodes| then nodes[i + 1] else null
  }

  ghost predicate IsMatch(r: SapRequest, id: int, token: int) {
    r.token == token && r.curr.id == id
  }

  lemma RemovalIsDistinct(q: seq<SapRequest>, i: nat)
    requires Distinct(q) && i < |q|
    ensures Distinct(RemoveAt(q, i))
  {
    ElementsLeft(q, i);
    hide RemoveAt;
    var w := RemoveAt(q, i);
    forall a, b | 0 <= a < b < |w| ensures w[a] != w[b] {
      assert w[a] == q[if a < i then a else a + 1] && w[b] == q[if b < i then b else b + 1];
    }
  }

  class RilQueue {
    var front: SapRequest?
    ghost var nodes: seq<SapRequest>

    ghost predicate Valid()
      reads this, nodes`next
    {
      && front == (if nodes == [] then null else nodes[0])
      && Distinct(nodes) && Linked(nodes)
    }

    constructor ()
      ensures Valid() && nodes == []
    {
      front, nodes := null, [];
    }

    /** empty */
    method IsEmpty() returns (e: bool)
      requires Valid()
      ensures e <==> nodes == []
    {
      return front == null;
    }

    /** A new request goes to the front. */
    method Enqueue(r: SapRequest)
      requires Valid() && r !in nodes
      modifies this, r`next
      ensures Valid() && nodes == [r] + old(nodes)
    {
      if front == null {
        front := r;
        r.next := null;
      } else {
        r.next := front;
        front := r;
      }
      nodes := [r] + nodes;
    }

    /** The front is taken. An empty queue is left alone and gives null: the caller goes on
        waiting for an enqueue. */
    method Dequeue() returns (r: SapRequest?)
      requires Valid()
      modifies this
      ensures Valid() && (r == null <==> old(nodes) == [])
      ensures r == null ==> nodes == []
      ensures r != null ==> [r] + nodes == old(nodes)
    {
      var e := IsEmpty();
      if e {
        return null;
      }
      r := front;
      if front.next != null {
        front := front.next;
      } else {
        front := null;
      }
      nodes := nodes[1..];
    }

    /** The first match leaves the queue, and the rest keeps its order; i is its place. */
    method CheckAndDequeue(id: int, token: int) returns (found: bool, ghost i: nat)
      requires Valid()
      modifies this, nodes`next
      ensures Valid() && i <= |old(nodes)| && (found <==> i < |old(nodes)|)
      ensures forall j :: 0 <= j < i ==> !IsMatch(old(nodes)[j], id, token)
      ensures found ==> IsMatch(old(nodes)[i], id, token) && nodes == RemoveAt(old(nodes), i)
      ensures !found ==> nodes == old(nodes)
    {
      var prev: SapRequest? := null;  // the record whose link ppCur points at; null for front
      var cur := front;
      i := 0;
      while cur != null
        invariant i <= |nodes|
        invariant cur == if i < |nodes| then nodes[i] else null
        invariant prev == if i > 0 then nodes[i - 1] else null
        invariant forall j :: 0 <= j < i ==> !IsMatch(nodes[j], id, token)
        decreases |nodes| - i
      {
        if cur.token == token && cur.curr.id == id {
          if prev == null {
            front := cur.next;
          } else {
            prev.next := cur.next;
          }
          nodes := RemoveAt(nodes, i);
          found := true;
          ElementsLeft(old(nodes), i);
          RemovalIsDistinct(old(nodes), i);
          forall k | 0 <= k < |nodes|
            ensures nodes[k].next == if k + 1 < |nodes| then nodes[k + 1] else null
          {
            assert nodes[k] == old(nodes)[if k < i then k else k + 1];
          }
          return;
        }
        prev := cur;
        cur := cur.next;
        i := i + 1;
      }
      found := false;
    }
  }

  class SapSocket {
    const dispatchQueue: RilQueue
    const pendingQueue: RilQueue  // pendingResponseQueue
    ghost var requests: map<SapRequest, Request<MsgHeader>>  // the live memory
    ghost var headers: map<MsgHeader, Header>

    ghost predicate QueuesValid()
      reads dispatchQueue, pendingQueue, dispatchQueue.nodes`next, pendingQueue.nodes`next
    {
      dispatchQueue != pendingQueue && dispatchQueue.Valid() && pendingQueue.Valid()
    }

    /** The memory maps say what the records hold. */
    ghost predicate Valid()
      reads `requests, `headers, dispatchQueue, pendingQueue
      reads dispatchQueue.nodes`next, pendingQueue.nodes`next
    {
      && QueuesValid()
      && (forall r :: r in requests ==> requests[r] == Request(r.token, r.curr, r.here))
      && (forall h :: h in headers ==> headers[h] == Header(h.id, h.token))
    }

    ghost function View(): State<SapRequest, MsgHeader>
      reads `requests, `headers, dispatchQueue`nodes, pendingQueue`nodes
    {
      State(requests, headers, dispatchQueue.nodes, pendingQueue.nodes)
    }

    constructor ()
      ensures Valid() && View() == State(map[], map[], [], [])
      ensures fresh(dispatchQueue) && fresh(pendingQueue)
    {
      var d := new RilQueue();
      var p := new RilQueue();
      dispatchQueue, pendingQueue, requests, headers := d, p, map[], map[];
    }

    /** free: only live memory may be freed. */
    ghost method FreeRequest(r: SapRequest)
      requires r in requests
      modifies `requests
      ensures requests == old(requests) - {r}
    {
      requests := requests - {r};
    }

    ghost method FreeHeader(h: MsgHeader)
      requires h in headers
      modifies `headers
      ensures headers == old(headers) - {h}
    {
      headers := headers - {h};
    }

    /** malloc, which may fail, and the stores that fill the record. */
    method AllocRequest(fails: bool, token: int, curr: MsgHeader, here: bool) returns (r: SapRequest?)
      modifies `requests
      ensures fails <==> r == null
      ensures fails ==> requests == old(requests)
      ensures !fails ==>
        && fresh(r) && r.token == token && r.curr == curr && r.here == here
        && requests == old(requests)[r := Request(token, curr, here)]
    {
      r := null;
      if !fails {
        r := new SapRequest(token, curr, here);
        requests := requests[r := Request(token, curr, here)];
      }
    }

    /** malloc, memset and, when it succeeds, pb_decode. */
    method AllocHeader(fails: bool, decoded: Header) returns (h: MsgHeader?)
      modifies `headers
      ensures fails <==> h == null
      ensures fails ==> headers == old(headers)
      ensures !fails ==>
        && fresh(h) && h.id == decoded.id && h.token == decoded.token
        && headers == old(headers)[h := decoded]
    {
      h := null;
      if !fails {
        h := new MsgHeader(decoded.id, decoded.token);
        headers := headers[h := decoded];
      }
    }

    /** pushRecord; decoded is what the decoder makes of the record. */
    method PushRecord(decoded: Option<Header>, noHeader: bool, noRequest: bool)
        returns (ghost h: Option<MsgHeader>, ghost r: Option<SapRequest>)
      requires Valid()
      modifies this, dispatchQueue
      ensures Valid() && Push(old(View()), h, decoded, r) == Some(View())
      ensures (h.Some? ==> fresh(h.value)) && (r.Some? ==> fresh(r.value))
      ensures (h.Some? <==> !noHeader) && (r.Some? <==> !noHeader && decoded.Some? && !noRequest)
    {
      h, r := None, None;
      ghost var before := headers;
      var header := AllocHeader(noHeader, if decoded.Some? then decoded.value else Header(0, 0));
      if header == null {
        return;
      }
      h := Some(header);
      if decoded.None? {
        FreeHeader(header);
        assert headers == before;
        return;
      }
      var recv := AllocRequest(noRequest, header.token, header, true);
      if recv == null {
        FreeHeader(header);
        assert headers == before;
        return;
      }
      r := Some(recv);
      dispatchQueue.Enqueue(recv);
    }

    /** One round of processRequestsLoop; without a record the round only waits. */
    method ProcessRequest(noRequest: bool) returns (ghost n: Option<SapRequest>)
      requires Valid() && Owned(View())
      modifies this, dispatchQueue, pendingQueue
      ensures Valid()
      ensures old(dispatchQueue.nodes) == [] ==> View() == old(View()) && n == None
      ensures old(dispatchQueue.nodes) != [] ==>
        Dispatch(old(View()), n) == Some(View()) && (n.Some? <==> !noRequest) && (n.Some? ==> fresh(n.value))
    {
      hide RilQueue.Valid, Owned;
      if dispatchQueue.nodes != [] { FrontLives(); }
      n := None;
      var req := dispatchQueue.Dequeue();
      if req != null {
        n := DispatchRequest(req.curr, noRequest);
        FreeRequest(req);
      }
    }

    lemma FrontLives()
      requires Owned(View()) && dispatchQueue.nodes != []
      ensures dispatchQueue.nodes[0] in requests && requests[dispatchQueue.nodes[0]].curr in headers
    {
      assert dispatchQueue.nodes[0] in dispatchQueue.nodes;
    }

    /** dispatchRequest: the header moves to a new, pending request. */
    method DispatchRequest(hdr: MsgHeader, noRequest: bool) returns (ghost n: Option<SapRequest>)
      requires Valid() && hdr in headers
      modifies this, pendingQueue
      ensures Valid() && (n.Some? <==> !noRequest) && dispatchQueue.nodes == old(dispatchQueue.nodes)
      ensures n.None? ==>
        && headers == old(headers) - {hdr} && requests == old(requests)
        && pendingQueue.nodes == old(pendingQueue.nodes)
      ensures n.Some? ==>
        && fresh(n.value) && headers == old(headers)
        && requests == old(requests)[n.value := Request(hdr.token, hdr, true)]
        && pendingQueue.nodes == [n.value] + old(pendingQueue.nodes)
    {
      n := None;
      var currRequest := AllocRequest(noRequest, hdr.token, hdr, true);
      if currRequest == null {
        FreeHeader(hdr);
        return;
      }
      n := Some(currRequest);
      pendingQueue.Enqueue(currRequest);
    }

    /** sOnRequestComplete; for a socket that is not listed it frees at once. */
    method SOnRequestComplete(r: SapRequest)
      requires Valid() && Owned(View()) && r in requests
      modifies this, pendingQueue, pendingQueue.nodes`next
      ensures Valid() && Complete(old(View()), r) == Some(View())
    {
      if r.here {
        OnRequestComplete(r);
      } else {
        FreeHeader(r.curr);
        FreeRequest(r);
      }
    }

    /** onRequestComplete. */
    method OnRequestComplete(r: SapRequest)
      requires Valid() && Owned(View()) && r in requests && r.here
      modifies this, pendingQueue, pendingQueue.nodes`next
      ensures Valid() && Complete(old(View()), r) == Some(View())
    {
      hide RilQueue.Valid, FirstMatch, RemoveAt, Owned;
      var hdr := r.curr;
      ghost var s := View();
      HeaderLives(r);
      var found;
      ghost var i;
      found, i := TakeFromPending(hdr.id, hdr.token);
      if found {
        FreeRequest(s.pending[i]);
      }
      FreeHeader(hdr);
    }

    lemma HeaderLives(r: SapRequest)
      requires Owned(View()) && r in requests
      ensures requests[r].curr in headers
    {
    }

    /** checkAndDequeue on the pending queue, seen from the socket. */
    method TakeFromPending(id: int, token: int) returns (found: bool, ghost i: nat)
      requires Valid() && Owned(View())
      modifies pendingQueue, pendingQueue.nodes`next
      ensures Valid() && dispatchQueue.nodes == old(dispatchQueue.nodes)
      ensures FirstMatch(old(View()), old(pendingQueue.nodes), id, token) == if found then Found(i) else Absent
      ensures if found then
        i < |old(pendingQueue.nodes)| && old(pendingQueue.nodes)[i] in requests
        && pendingQueue.nodes == RemoveAt(old(pendingQueue.nodes), i)
        else pendingQueue.nodes == old(pendingQueue.nodes)
    {
      hide RilQueue.Valid, FirstMatch, RemoveAt, IsMatch, Owned;
      ghost var s := View();
      QueuesApart();
      found, i := pendingQueue.CheckAndDequeue(id, token);
      ScanIs(s, id, token, i);
    }

    lemma QueuesApart()
      requires Owned(View())
      ensures forall k :: 0 <= k < |dispatchQueue.nodes| ==> dispatchQueue.nodes[k] !in pendingQueue.nodes
    {
    }

    /** What CheckAndDequeue found is what FirstMatch finds in the view. */
    lemma ScanIs(s: State<SapRequest, MsgHeader>, id: int, token: int, i: nat)
      requires Owned(s) && i <= |s.pending|
      requires forall r :: r in s.requests ==> s.requests[r] == Request(r.token, r.curr, r.here)
      requires forall h :: h in s.headers ==> s.headers[h] == Header(h.id, h.token)
      requires forall j :: 0 <= j < i ==> !IsMatch(s.pending[j], id, token)
      requires i < |s.pending| ==> IsMatch(s.pending[i], id, token)
      ensures FirstMatch(s, s.pending, id, token) == if i < |s.pending| then Found(i) else Absent
      ensures i < |s.pending| ==> s.pending[i] in s.requests
    {
      forall j | 0 <= j < |s.pending|
        ensures s.pending[j] in s.requests && s.requests[s.pending[j]].curr in s.headers
        ensures IsHit(s, s.pending[j], id, token) <==> IsMatch(s.pending[j], id, token)
      {
        assert s.pending[j] in s.pending;
      }
      FirstMatchIs(s, s.pending, id, token, i);
    }
  }
}
