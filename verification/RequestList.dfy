// The pending-request list of libril as it is kept in memory: records linked
// through p_next, searched and cut with a pointer to the link.  Every method is
// proved against the functions of module Requests.
module RequestList {
  import opened Options
  import opened Sequences
  import opened Requests

  class RequestInfo {
    const addr: nat
    const serial: nat
    const token: int
    const request: int
    const local: bool
    var cancelled: bool
    var wasAckSent: bool
    var next: RequestInfo?

    /** calloc and the assignments after it */
    constructor (addr: nat, serial: nat, token: int, request: int, local: bool)
      ensures this.addr == addr && this.serial == serial && this.token == token
      ensures this.request == request && this.local == local
      ensures !cancelled && !wasAckSent && next == null
    {
      this.addr, this.serial, this.token, this.request, this.local := addr, serial, token, request, local;
      cancelled, wasAckSent, next := false, false, null;
    }

    function Value(): Record
      reads `cancelled, `wasAckSent
    {
      Record(addr, serial, token, request, local, cancelled, wasAckSent)
    }
  }

  /** The records of q hang from head in order. */
  ghost predicate Chain(head: RequestInfo?, q: seq<RequestInfo>)
    reads q`next
  {
    && head == (if q == [] then null else q[0])
    && (forall i, j :: 0 <= i < j < |q| ==> q[i] != q[j])
    && (forall i {:trigger q[i].next} :: 0 <= i < |q| ==>
          q[i].next == (if i + 1 < |q| then q[i + 1] else null))
  }

  ghost predicate Shows(q: seq<RequestInfo>, v: seq<Record>)
    reads q`cancelled, q`wasAckSent
  {
    |q| == |v| && forall i {:trigger v[i]} {:trigger q[i]} :: 0 <= i < |q| ==> v[i] == q[i].Value()
  }

  lemma RemovedShows(q: seq<RequestInfo>, v: seq<Record>, k: nat)
    requires Shows(q, v) && k < |q|
    ensures k < |v| && Shows(RemoveAt(q, k), RemoveAt(v, k))
  {
    ElementsLeft(q, k);
    ElementsLeft(v, k);
    hide RemoveAt;
  }

  /** The link of a record, which no other place of the list holds. */
  lemma NextInChain(head: RequestInfo?, q: seq<RequestInfo>, k: nat)
    requires Chain(head, q) && k < |q|
    ensures q[k].next == (if k + 1 < |q| then q[k + 1] else null)
    ensures forall i :: 0 <= i < |q| && i != k ==> q[i] != q[k]
  {
  }

  class Ril {
    const version: int
    const commands: int
    var pendingRequests: RequestInfo?
    var sent: seq<Message>
    var connected: bool
    var conn: nat
    var grabs: nat
    var releases: nat
    ghost var list: seq<RequestInfo>
    ghost var view: seq<Record>
    ghost var records: set<RequestInfo>  // every record that was ever linked

    ghost predicate Valid()
      reads this, list
    {
      && Chain(pendingRequests, list) && Shows(list, view)
      && forall i :: 0 <= i < |list| ==> list[i] in records
    }

    ghost function Abs(): Server
      reads this
    {
      Server(version, commands, view, sent, connected, conn, grabs, releases)
    }

    constructor (version: int, commands: int)
      ensures Valid() && Abs() == Server(version, commands, [], [], false, 0, 0, 0)
    {
      this.version, this.commands, pendingRequests, sent := version, commands, null, [];
      connected, conn, grabs, releases, list, view, records := false, 0, 0, 0, [], [], {};
    }

    /** The search of checkAndDequeueRequestInfoIfAck; prev owns the link to pRI, and no
        record owns it when pRI is the head. */
    method Search(t: nat) returns (prev: RequestInfo?, pRI: RequestInfo?)
      requires Valid()
      ensures var k := Find(view, t);
        && pRI == (if k < |list| then list[k] else null)
        && prev == (if k > 0 then list[k - 1] else null)
    {
      prev, pRI := null, pendingRequests;
      ghost var k := 0;
      while pRI != null && pRI.addr != t
        invariant k <= |list| && pRI == (if k < |list| then list[k] else null)
        invariant prev == (if k > 0 then list[k - 1] else null)
        invariant forall i :: 0 <= i < k ==> view[i].addr != t
        decreases |list| - k
      {
        assert list[k].next == (if k + 1 < |list| then list[k + 1] else null);
        prev, pRI := pRI, pRI.next;
        k := k + 1;
      }
      FindIs(view, t, k);
    }

    /** *ppCur = (*ppCur)->p_next */
    method Relink(prev: RequestInfo?, pRI: RequestInfo, ghost k: nat)
      requires Chain(pendingRequests, list) && k < |list| && pRI == list[k]
      requires prev == (if k > 0 then list[k - 1] else null)
      modifies `pendingRequests, list`next
      ensures Chain(pendingRequests, RemoveAt(list, k))
    {
      NextInChain(pendingRequests, list, k);
      ghost var q := RemoveAt(list, k);
      ElementsLeft(list, k);
      hide RemoveAt;
      if prev == null {
        pendingRequests := pRI.next;
      } else {
        prev.next := pRI.next;
      }
      forall i | 0 <= i < |q| ensures q[i].next == (if i + 1 < |q| then q[i + 1] else null) {
        assert q[i] == list[if i < k then i else i + 1];
      }
    }

    /** The record at place k leaves the list. */
    method Unlink(prev: RequestInfo?, pRI: RequestInfo, ghost k: nat)
      requires Valid() && k < |list| && pRI == list[k]
      requires prev == (if k > 0 then list[k - 1] else null)
      modifies `pendingRequests, `list, `view, records`next
      ensures Valid() && view == RemoveAt(old(view), k) && list == RemoveAt(old(list), k)
    {
      hide Chain, Shows;
      RemovedShows(list, view, k);
      ElementsLeft(list, k);
      hide RemoveAt;
      Relink(prev, pRI, k);
      list, view := RemoveAt(list, k), RemoveAt(view, k);
    }

    method Mark(pRI: RequestInfo, ghost k: nat)
      requires Valid() && k < |list| && pRI == list[k]
      modifies `view, pRI`wasAckSent
      ensures Valid() && view == old(view)[k := old(view)[k].(acked := true)]
    {
      if !pRI.wasAckSent {
        pRI.wasAckSent := true;
      }
      view := view[k := view[k].(acked := true)];
    }

    /** checkAndDequeueRequestInfoIfAck: marks or unlinks the record at address t. */
    method CheckAndDequeue(t: nat, isAck: bool) returns (pRI: RequestInfo?)
      requires Valid()
      modifies `pendingRequests, `list, `view, records`next, records`wasAckSent
      ensures Valid()
      ensures var k := Find(old(view), t);
        if k == |old(view)| then pRI == null && view == old(view)
        else
          && pRI != null
          && if isAck then
               view == old(view)[k := old(view)[k].(acked := true)] && pRI.Value() == view[k]
             else view == RemoveAt(old(view), k) && pRI.Value() == old(view)[k]
    {
      hide Chain, Find;
      var prev;
      prev, pRI := Search(t);
      if pRI != null {
        ghost var k := Find(view, t);
        if isAck {
          Mark(pRI, k);
        } else {
          Unlink(prev, pRI, k);
        }
      }
    }

    method SendResponse(serial: Option<nat>, words: seq<int>)
      modifies `sent
      ensures Abs() == Send(old(Abs()), serial, words)
    {
      if connected && 4 * |words| <= MAX_COMMAND_BYTES {
        sent := sent + [Message(conn, serial, words)];
      }
    }

    method OnRequestAck(t: nat)
      requires Valid()
      modifies this, records`next, records`wasAckSent
      ensures Valid() && Abs() == Acknowledge(old(Abs()), t)
    {
      hide Chain, Shows, Find;
      var pRI := CheckAndDequeue(t, true);
      if pRI == null {
        return;
      }
      if !pRI.cancelled {
        SendResponse(Some(pRI.serial), [RESPONSE_SOLICITED_ACK, pRI.token]);
      }
    }

    /** The reply parcel, built word by word and rewound when the response function fails. */
    method BuildReply(pRI: RequestInfo, r: Response) returns (p: seq<int>)
      ensures p == ReplyWords(version, pRI.Value(), r)
    {
      p := [];
      if version >= 13 && pRI.wasAckSent {
        p := p + [RESPONSE_SOLICITED_ACK_EXP];
      } else {
        p := p + [RESPONSE_SOLICITED];
      }
      p := p + [pRI.token];
      var errorOffset := |p|;
      p := p + [r.error];
      if pRI.request == REQUEST_RADIO_POWER || r.present {
        p := p + r.payload;
        if r.ret != 0 {
          p := p[errorOffset := r.ret];
        }
      }
    }

    method OnRequestComplete(t: nat, r: Response)
      requires Valid()
      modifies this, records`next, records`wasAckSent
      ensures Valid() && Abs() == Complete(old(Abs()), t, r) && records == old(records)
    {
      hide Chain, Shows, Find, ReplyWords;
      var pRI := CheckAndDequeue(t, false);
      if pRI == null {
        return;
      }
      if pRI.local {
        return;
      }
      if !pRI.cancelled {
        if version >= 13 && pRI.wasAckSent {
          grabs := grabs + 1;
        }
        var p := BuildReply(pRI, r);
        SendResponse(Some(pRI.serial), p);
      }
    }

    method Push(pRI: RequestInfo)
      requires Valid() && pRI !in list && pRI.next == null
      modifies `pendingRequests, `list, `view, `records, pRI`next
      ensures Valid() && view == [pRI.Value()] + old(view) && records == old(records) + {pRI}
    {
      pRI.next := pendingRequests;
      pendingRequests := pRI;
      list, view, records := [pRI] + list, [pRI.Value()] + view, records + {pRI};
      assert forall i :: 1 <= i < |list| ==> list[i] == old(list)[i - 1];
    }

    /** processCommandBuffer up to the dispatch; block is what calloc returns. */
    method ProcessCommandBuffer(buffer: seq<int>, block: Option<nat>, serial: nat)
      returns (pRI: RequestInfo?)
      requires Valid()
      modifies this
      ensures Valid() && Abs() == Receive(old(Abs()), buffer, block, serial)
      ensures pRI != null <==> Parse(buffer, commands).Request? && block.Some?
    {
      hide Chain, Shows;
      pRI := null;
      if |buffer| < 2 {
        return;
      }
      var request, token := buffer[0], buffer[1];
      if request == RESPONSE_ACKNOWLEDGEMENT {
        releases := releases + 1;
        return;
      }
      if request < 1 || request >= commands {
        SendResponse(None, [RESPONSE_SOLICITED, token, E_GENERIC_FAILURE]);
        return;
      }
      if block.None? {
        return;
      }
      pRI := new RequestInfo(block.value, serial, token, request, false);
      Push(pRI);
    }

    method IssueLocalRequest(request: int, block: Option<nat>, serial: nat)
      requires Valid()
      modifies this
      ensures Valid() && Abs() == IssueLocal(old(Abs()), request, block, serial)
    {
      hide Chain, Shows;
      if block.Some? {
        var pRI := new RequestInfo(block.value, serial, LOCAL_TOKEN, request, true);
        Push(pRI);
      }
    }

    method OnCommandsSocketClosed()
      requires Valid()
      modifies `connected, `view, records`cancelled
      ensures Valid() && Abs() == Disconnect(old(Abs()))
    {
      assert |list| == |view|;
      connected := false;
      var pCur := pendingRequests;
      ghost var k := 0;
      while pCur != null
        invariant k <= |list| && pCur == (if k < |list| then list[k] else null)
        invariant Chain(pendingRequests, list) && |list| == |view| && !connected && view == old(view)
        invariant forall i :: 0 <= i < k ==> list[i].Value() == view[i].(cancelled := true)
        invariant forall i :: k <= i < |list| ==> list[i].Value() == view[i]
        decreases |list| - k
      {
        hide Chain;
        NextInChain(pendingRequests, list, k);
        pCur.cancelled := true;
        pCur := pCur.next;
        k := k + 1;
      }
      view := CancelAll(view);
    }

    /** dispatchVoiceRadioTech and dispatchCdmaSubscriptionSource; whether the request went
        on to the vendor. */
    method DispatchFromState(t: nat, state: RadioState, decoded: int) returns (toVendor: bool)
      requires Valid()
      modifies this, records`next, records`wasAckSent
      ensures Valid() && Abs() == AnswerFromState(old(Abs()), t, state, decoded)
      ensures toVendor <==> state == RadioOn
    {
      hide Chain, Shows, Complete;
      if state == RadioUnavailable || state == RadioOff {
        OnRequestComplete(t, Failing(E_RADIO_NOT_AVAILABLE));
      }
      if state == RadioOn {
        return true;
      }
      if decoded < 0 {
        OnRequestComplete(t, Failing(E_GENERIC_FAILURE));
      } else {
        OnRequestComplete(t, OneInt(E_SUCCESS, decoded));
      }
      return false;
    }
  }

  lemma FindIs(v: seq<Record>, t: nat, k: nat)
    requires k <= |v| && (forall i :: 0 <= i < k ==> v[i].addr != t) && (k < |v| ==> v[k].addr == t)
    ensures Find(v, t) == k
  {
  }
}
