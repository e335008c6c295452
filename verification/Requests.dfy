// The request side of libril (single-SIM build): pending records, acknowledgements,
// completions and disconnects, and the replies they put on the command socket.
module Requests {
  import opened Options
  import opened Sequences

  // Response types (ril.cpp) and the error codes and request numbers of telephony/ril.h.
  const RESPONSE_SOLICITED := 0
  const RESPONSE_SOLICITED_ACK := 2
  const RESPONSE_SOLICITED_ACK_EXP := 3
  const E_SUCCESS := 0
  const E_RADIO_NOT_AVAILABLE := 1
  const E_GENERIC_FAILURE := 2
  const REQUEST_RADIO_POWER := 23
  const RESPONSE_ACKNOWLEDGEMENT := 800
  const LOCAL_TOKEN := 0xffffffff
  const MAX_COMMAND_BYTES := 8192

  /** A RequestInfo.  Its address is what the vendor RIL holds and may be reused after the
      record is freed; its serial number names the record for ever. */
  datatype Record = Record(
    addr: nat, serial: nat, token: int, request: int, local: bool,
    cancelled: bool, acked: bool)

  /** A packet on the command socket: the connection it went to, the record it answers,
      and its 32-bit words. */
  datatype Message = Message(conn: nat, serial: Option<nat>, words: seq<int>)

  datatype Server = Server(
    version: int, commands: int,      // callback version, number of known requests
    pending: seq<Record>, sent: seq<Message>,
    connected: bool, conn: nat,       // is a client connected, and which one it is
    grabs: nat, releases: nat)        // wake lock calls

  /** What the vendor passes to RIL_onRequestComplete, and what the response function
      makes of it: the words it writes and its own return value. */
  datatype Response = Response(error: int, present: bool, payload: seq<int>, ret: int)

  /** The position checkAndDequeueRequestInfoIfAck stops at. */
  function Find(p: seq<Record>, addr: nat): (k: nat)
    ensures k <= |p|
    ensures k < |p| ==> p[k].addr == addr
    ensures forall i :: 0 <= i < k ==> p[i].addr != addr
  {
    if p == [] || p[0].addr == addr then 0 else 1 + Find(p[1..], addr)
  }

  function CancelAll(p: seq<Record>): seq<Record> {
    seq(|p|, i requires 0 <= i < |p| => p[i].(cancelled := true))
  }

  /** sendResponse: nothing without a client, and no packet above the limit. */
  function Send(s: Server, serial: Option<nat>, words: seq<int>): Server {
    if s.connected && 4 * |words| <= MAX_COMMAND_BYTES
    then s.(sent := s.sent + [Message(s.conn, serial, words)])
    else s
  }

  predicate CallsResponseFunction(request: int, r: Response) {
    request == REQUEST_RADIO_POWER || r.present
  }

  /** The reply parcel.  A failing response function rewinds to the error word only, so
      what it had written stays behind it. */
  function ReplyWords(version: int, rec: Record, r: Response): seq<int> {
    var kind := if version >= 13 && rec.acked then RESPONSE_SOLICITED_ACK_EXP else RESPONSE_SOLICITED;
    if !CallsResponseFunction(rec.request, r) then [kind, rec.token, r.error]
    else [kind, rec.token, if r.ret != 0 then r.ret else r.error] + r.payload
  }

  /** RIL_onRequestComplete */
  function Complete(s: Server, addr: nat, r: Response): Server {
    var k := Find(s.pending, addr);
    if k == |s.pending| then s
    else
      var rec := s.pending[k];
      var s1 := s.(pending := RemoveAt(s.pending, k));
      if rec.local || rec.cancelled then s1
      else
        var s2 := if s.version >= 13 && rec.acked then s1.(grabs := s1.grabs + 1) else s1;
        Send(s2, Some(rec.serial), ReplyWords(s.version, rec, r))
  }

  /** RIL_onRequestAck */
  function Acknowledge(s: Server, addr: nat): Server {
    var k := Find(s.pending, addr);
    if k == |s.pending| then s
    else
      var rec := s.pending[k];
      var s1 := s.(pending := s.pending[k := rec.(acked := true)]);
      if rec.cancelled then s1
      else Send(s1, Some(rec.serial), [RESPONSE_SOLICITED_ACK, rec.token])
  }

  /** The part of processCommandBuffer before the dispatch: what the buffer asks for. */
  datatype Command =
    | Malformed
    | ClientAck
    | Unsupported(token: int)
    | Request(request: int, token: int)

  function Parse(words: seq<int>, commands: int): Command {
    if |words| < 2 then Malformed
    else if words[0] == RESPONSE_ACKNOWLEDGEMENT then ClientAck
    else if words[0] < 1 || words[0] >= commands then Unsupported(words[1])
    else Request(words[0], words[1])
  }

  /** processCommandBuffer up to the dispatch; addr is the new record's address, if any
      memory was left for it. */
  function Receive(s: Server, words: seq<int>, addr: Option<nat>, serial: nat): Server {
    match Parse(words, s.commands)
    case Malformed => s
    case ClientAck => s.(releases := s.releases + 1)
    case Unsupported(token) => Send(s, None, [RESPONSE_SOLICITED, token, E_GENERIC_FAILURE])
    case Request(request, token) =>
      if addr.None? then s
      else s.(pending := [Record(addr.value, serial, token, request, false, false, false)] + s.pending)
  }

  /** issueLocalRequest */
  function IssueLocal(s: Server, request: int, addr: Option<nat>, serial: nat): Server {
    if addr.None? then s
    else s.(pending := [Record(addr.value, serial, LOCAL_TOKEN, request, true, false, false)] + s.pending)
  }

  /** The command socket closes: onCommandsSocketClosed. */
  function Disconnect(s: Server): Server {
    s.(connected := false, pending := CancelAll(s.pending))
  }

  function Connect(s: Server): Server {
    s.(connected := true, conn := s.conn + 1)
  }

  // ---------------------------------------------------------------------------
  // Requests that old radio interfaces are answered from the radio state.

  datatype RadioState =
    | RadioOff | RadioUnavailable | SimNotReady | SimLockedOrAbsent | SimReady
    | RuimNotReady | RuimReady | RuimLockedOrAbsent | NvNotReady | NvReady | RadioOn

  const RADIO_TECH_UMTS := 3
  const RADIO_TECH_1xRTT := 6
  const SUBSCRIPTION_SOURCE_RUIM_SIM := 0
  const SUBSCRIPTION_SOURCE_NV := 1

  function DecodeVoiceRadioTechnology(state: RadioState): int {
    match state
    case SimNotReady | SimLockedOrAbsent | SimReady => RADIO_TECH_UMTS
    case RuimNotReady | RuimReady | RuimLockedOrAbsent | NvNotReady | NvReady => RADIO_TECH_1xRTT
    case RadioOff | RadioUnavailable | RadioOn => -1
  }

  function DecodeCdmaSubscriptionSource(state: RadioState): int {
    match state
    case SimNotReady | SimLockedOrAbsent | SimReady
       | RuimNotReady | RuimReady | RuimLockedOrAbsent => SUBSCRIPTION_SOURCE_RUIM_SIM
    case NvNotReady | NvReady => SUBSCRIPTION_SOURCE_NV
    case RadioOff | RadioUnavailable | RadioOn => -1
  }

  /** responseInts on one int */
  function OneInt(error: int, v: int): Response {
    Response(error, true, [1, v], 0)
  }

  function Failing(error: int): Response {
    Response(error, false, [], 0)
  }

  /** dispatchVoiceRadioTech and dispatchCdmaSubscriptionSource, where decoded is the value
      decoded from the state: without a radio both completions are attempted. */
  function AnswerFromState(s: Server, addr: nat, state: RadioState, decoded: int): Server {
    var s1 := if state == RadioUnavailable || state == RadioOff
              then Complete(s, addr, Failing(E_RADIO_NOT_AVAILABLE)) else s;
    if state == RadioOn then s1
    else if decoded < 0 then Complete(s1, addr, Failing(E_GENERIC_FAILURE))
    else Complete(s1, addr, OneInt(E_SUCCESS, decoded))
  }

  predicate DistinctAddrs(p: seq<Record>) {
    forall i, j :: 0 <= i < j < |p| ==> p[i].addr != p[j].addr
  }

  /** With distinct addresses a completed record is gone, so completing it again does nothing. */
  lemma CompleteTwice(s: Server, addr: nat, r: Response, r': Response)
    requires DistinctAddrs(s.pending)
    ensures Complete(Complete(s, addr, r), addr, r') == Complete(s, addr, r)
  {
    var k := Find(s.pending, addr);
    if k < |s.pending| {
      var p := RemoveAt(s.pending, k);
      forall j | 0 <= j < |p| ensures p[j].addr != addr {
        assert p[j] == s.pending[if j < k then j else j + 1];
      }
    }
  }

  /** A fresh request on an unavailable radio is answered exactly once, and with
      RADIO_NOT_AVAILABLE; on a SIM, RUIM or NV state with the one number for the technology (3
      with a SIM, 6 otherwise) or for the subscription source (1 with NV, 0 otherwise); and on a
      radio that is on it stays pending for the vendor. */
  lemma AnswerIsSingle(s: Server, rec: Record, state: RadioState, voice: bool)
    requires DistinctAddrs([rec] + s.pending) && rec.request != REQUEST_RADIO_POWER
    requires !rec.local && !rec.cancelled && !rec.acked
    ensures var decoded := if voice then DecodeVoiceRadioTechnology(state) else DecodeCdmaSubscriptionSource(state);
      var s1 := AnswerFromState(s.(pending := [rec] + s.pending), rec.addr, state, decoded);
      var sim := state == SimNotReady || state == SimLockedOrAbsent || state == SimReady;
      var nv := state == NvNotReady || state == NvReady;
      if state == RadioOn then s1 == s.(pending := [rec] + s.pending)
      else if state == RadioOff || state == RadioUnavailable then s1 == Send(s, Some(rec.serial), [0, rec.token, 1])
      else s1 == Send(s, Some(rec.serial), [0, rec.token, 0, 1, if voice then (if sim then 3 else 6)
                                                                else if nv then 1 else 0])
  {
    var decoded := if voice then DecodeVoiceRadioTechnology(state) else DecodeCdmaSubscriptionSource(state);
    var s0 := s.(pending := [rec] + s.pending);
    assert RemoveAt(s0.pending, 0) == s.pending;
    assert [RESPONSE_SOLICITED, rec.token, E_SUCCESS] + [1, decoded]
      == [RESPONSE_SOLICITED, rec.token, E_SUCCESS, 1, decoded];
    if state == RadioOff || state == RadioUnavailable {
      CompleteTwice(s0, rec.addr, Failing(E_RADIO_NOT_AVAILABLE), Failing(E_GENERIC_FAILURE));
    }
  }
}
