// Cutting the modem's byte stream into responses, as values: when a buffer holds a complete
// response, where it ends, and what a channel makes of the bytes it receives.
module Responses {
  import opened Options
  import opened Text

  const CRLF := "\r\n"
  const CME := "+CME ERROR:"
  const CMS := "+CMS ERROR:"

  datatype ResultCode = Success | GenericFailure | IllegalSimOrMe

  /** CResponse: the bytes in use, the end marker, the flags and the result. */
  datatype Rsp = Rsp(data: string, marker: nat, unsolicited: bool, unrecognized: bool, corrupt: bool,
                     result: ResultCode, error: nat)

  const EMPTY := Rsp("", 0, false, false, false, Success, 0)

  /** What the rest of the daemon contributes to one check: whether a silo took the text for
      an unsolicited response and where it left the pointer, what stands behind the
      terminator, and whether ProcessResponse succeeds. */
  datatype World = World(unsolicited: bool, at: nat, past: bool, processed: bool)

  datatype Checked = Checked(rsp: Rsp, done: bool)

  /** The string the C functions see: the bytes before the first NUL. */
  function TextOf(data: string): (t: string)
    ensures |t| <= |data| && t == data[..|t|] && '\0' !in t
    ensures |t| < |data| ==> data[|t|] == '\0'
  {
    if data == "" || data[0] == '\0' then "" else [data[0]] + TextOf(data[1..])
  }

  /** The silo's pointer, which stays in the text. */
  function Pointer(r: Rsp, w: World): (p: nat)
    ensures p <= |TextOf(r.data)|
  {
    if w.at <= |TextOf(r.data)| then w.at else |TextOf(r.data)|
  }

  function Unsolicited(r: Rsp, w: World): Checked {
    if !w.unsolicited then Checked(r.(unsolicited := false), false)
    else
      var end := FindAndSkipString(TextOf(r.data), Pointer(r, w), CRLF);
      Checked(r.(unsolicited := true, marker := if end.found then end.at else r.marker), true)
  }

  function CodeResult(code: nat): ResultCode {
    if code == 103 || code == 106 then IllegalSimOrMe else GenericFailure
  }

  /** RetrieveErrorCode at position p. */
  function ErrorCode(t: string, p: nat): (n: Number)
    requires p <= |t|
    ensures p <= n.at <= |t|
  {
    if FindAndSkipString(t, p, "\r").found then ExtractUInt32(t, p) else Number(false, 0, p)
  }

  /** IsExtendedError. */
  function Extended(r: Rsp, token: string): Checked {
    var t := TextOf(r.data);
    var f := FindAndSkipString(t, 0, token);
    if !f.found then Checked(r, false)
    else
      var n := ErrorCode(t, f.at);
      var end := SkipString(t, n.at, CRLF);
      if !n.found then
        Checked(r.(marker := if end.found then end.at else |r.data|, unrecognized := true), true)
      else
        var r1 := r.(result := CodeResult(n.value), error := n.value, unsolicited := false);
        if end.found then Checked(r1.(marker := end.at), true) else Checked(r1, false)
  }

  /** Where IsOkResponse ends the response. */
  function OkEnd(t: string): (end: Option<nat>)
    ensures end.Some? ==> 0 < end.value <= |t|
  {
    var f := FindAndSkipString(t, 0, "\r\nOK\r\n");
    if f.found then Some(f.at)
    else
      var g := FindAndSkipString(t, f.at, "OK\r\n");
      if g.found then Some(g.at)
      else
        var h := SkipString(t, g.at, CRLF);
        var p := SkipString(t, h.at, "> ");
        if h.found && p.found then Some(p.at) else None
  }

  function FinalEnd(t: string, word: string): (end: Option<nat>)
    ensures end.Some? ==> 0 < end.value <= |t|
  {
    var f := FindAndSkipString(t, 0, CRLF + word + CRLF);
    if f.found then Some(f.at) else None
  }

  /** IsOkResponse, IsErrorResponse, IsConnectResponse and IsAbortedResponse. */
  function Final(r: Rsp, end: Option<nat>, result: ResultCode): Checked {
    match end
    case Some(m) => Checked(r.(unsolicited := false, marker := m, result := result), true)
    case None => Checked(r, false)
  }

  function CorruptEnd(t: string, past: bool): (end: Option<nat>)
    ensures end.Some? ==> 0 < end.value <= |t|
  {
    var cr := FindAndSkipString(t, 0, "\r");
    var lf := SkipString(t, cr.at, "\n");
    if cr.found && lf.found && (if lf.at < |t| then SkipString(t, lf.at + 1, "\r").found else past)
    then Some(lf.at) else None
  }

  function Corrupt(r: Rsp, past: bool): Checked {
    if !r.corrupt then Checked(r, false)
    else
      match CorruptEnd(TextOf(r.data), past)
      case Some(m) => Checked(r.(corrupt := false, unrecognized := true, marker := m), true)
      case None => Checked(r.(corrupt := false), false)
  }

  /** IsOkResponse, IsErrorResponse, IsConnectResponse, IsAbortedResponse in this order. */
  function Worded(r: Rsp): Checked {
    var t := TextOf(r.data);
    if OkEnd(t).Some? then Final(r, OkEnd(t), Success)
    else if FinalEnd(t, "ERROR").Some? then Final(r, FinalEnd(t, "ERROR"), GenericFailure)
    else if FinalEnd(t, "CONNECT").Some? then Final(r, FinalEnd(t, "CONNECT"), Success)
    else Final(r, FinalEnd(t, "ABORTED"), Success)
  }

  /** The recognisers after the unsolicited one, in their order. */
  function Solicited(r: Rsp, past: bool): Checked {
    var c1 := Extended(r, CME);
    if c1.done then c1 else
    var c2 := Extended(c1.rsp, CMS);
    if c2.done then c2 else
    var c3 := Worded(c2.rsp);
    if c3.done then c3 else Corrupt(c3.rsp, past)
  }

  /** IsCompleteResponse. */
  function Judge(r: Rsp, w: World): Checked {
    if r.data == "" then Checked(r, false)
    else
      var c := Unsolicited(r, w);
      if c.done then c else Solicited(c.rsp, w.past)
  }

  // ---------------------------------------------------------------------------
  // When a buffer is complete, said without the order of the checks.

  /** The error code of the first token is there, but the line end is not. */
  ghost predicate CodeWaits(t: string, token: string) {
    var f := FindAndSkipString(t, 0, token);
    && f.found && ErrorCode(t, f.at).found
    && !SkipString(t, ErrorCode(t, f.at).at, CRLF).found
  }

  ghost predicate Prompt(t: string) {
    var h := SkipString(t, 0, CRLF);
    h.found && SkipString(t, h.at, "> ").found
  }

  ghost predicate Complete(r: Rsp, w: World) {
    var t := TextOf(r.data);
    && r.data != ""
    && (|| w.unsolicited
        || (Contains(t, CME) && !CodeWaits(t, CME))
        || (Contains(t, CMS) && !CodeWaits(t, CMS))
        || Contains(t, "OK\r\n") || Prompt(t)
        || Contains(t, "\r\nERROR\r\n") || Contains(t, "\r\nCONNECT\r\n") || Contains(t, "\r\nABORTED\r\n")
        || (r.corrupt && CorruptEnd(t, w.past).Some?))
  }

  lemma SpacesSkipOnce(t: string, p: nat)
    requires p <= |t|
    ensures AfterSpaces(t, AfterSpaces(t, p)) == AfterSpaces(t, p)
  {
  }

  lemma OkEndIff(t: string)
    ensures OkEnd(t).Some? <==> Contains(t, "OK\r\n") || Prompt(t)
  {
    FoundIffContained(t, "OK\r\n");
    SpacesSkipOnce(t, 0);
    if i: nat :| At(t, "\r\nOK\r\n", i) {
      assert "\r\nOK\r\n"[2..] == "OK\r\n";
      assert t[i + 2..i + 6] == t[i..i + 6][2..];
      assert At(t, "OK\r\n", i + 2);
    }
    FoundIffContained(t, "\r\nOK\r\n");
  }

  lemma FinalEndIff(t: string, word: string)
    ensures FinalEnd(t, word).Some? <==> Contains(t, CRLF + word + CRLF)
  {
    FoundIffContained(t, CRLF + word + CRLF);
  }

  lemma ExtendedIff(r: Rsp, token: string)
    requires token == CME || token == CMS
    ensures var t := TextOf(r.data);
      Extended(r, token).done <==> Contains(t, token) && !CodeWaits(t, token)
  {
    FoundIffContained(TextOf(r.data), token);
    hide FindAndSkipString, SkipString, ErrorCode, Contains, TextOf, CodeResult;
  }

  lemma ExtendedKeeps(r: Rsp, token: string)
    ensures Extended(r, token).rsp.data == r.data && Extended(r, token).rsp.corrupt == r.corrupt
  {
    hide FindAndSkipString, SkipString, ErrorCode, TextOf, CodeResult;
  }

  lemma WordedIff(r: Rsp)
    ensures var t := TextOf(r.data);
      Worded(r).done <==>
        Contains(t, "OK\r\n") || Prompt(t)
        || Contains(t, "\r\nERROR\r\n") || Contains(t, "\r\nCONNECT\r\n") || Contains(t, "\r\nABORTED\r\n")
    ensures Worded(r).rsp.data == r.data && Worded(r).rsp.corrupt == r.corrupt
  {
    var t := TextOf(r.data);
    OkEndIff(t);
    FinalEndIff(t, "ERROR");
    FinalEndIff(t, "CONNECT");
    FinalEndIff(t, "ABORTED");
    assert CRLF + "ERROR" + CRLF == "\r\nERROR\r\n";
    assert CRLF + "CONNECT" + CRLF == "\r\nCONNECT\r\n";
    assert CRLF + "ABORTED" + CRLF == "\r\nABORTED\r\n";
    hide Contains, OkEnd, FinalEnd, Prompt, TextOf;
  }

  /** IsCompleteResponse says yes exactly to the complete buffers. */
  lemma JudgeIsComplete(r: Rsp, w: World)
    ensures Judge(r, w).done <==> Complete(r, w)
  {
    if r.data != "" && !w.unsolicited {
      var t, r0 := TextOf(r.data), r.(unsolicited := false);
      ExtendedIff(r0, CME);
      ExtendedKeeps(r0, CME);
      ExtendedIff(Extended(r0, CME).rsp, CMS);
      ExtendedKeeps(Extended(r0, CME).rsp, CMS);
      WordedIff(Extended(Extended(r0, CME).rsp, CMS).rsp);
      hide Contains, OkEnd, FinalEnd, CodeWaits, Prompt, CorruptEnd, Extended, TextOf, Worded;
    }
  }

  // ---------------------------------------------------------------------------
  // Where a complete response ends.

  /** A silo took the text, but no line end follows. */
  ghost predicate NoLineEnd(r: Rsp, w: World) {
    r.data != "" && w.unsolicited && !FindAndSkipString(TextOf(r.data), Pointer(r, w), CRLF).found
  }

  lemma ExtendedEnd(r: Rsp, token: string)
    requires token != ""
    ensures var c := Extended(r, token);
      && c.rsp.data == r.data && (c.rsp.corrupt ==> r.corrupt)
      && (c.done ==> 0 < c.rsp.marker <= |r.data|)
      && (!c.done ==> c.rsp.marker == r.marker)
  {
    hide FindAndSkipString, SkipString, ErrorCode, TextOf, CodeResult;
  }

  lemma CorruptEnds(r: Rsp, past: bool)
    ensures var c := Corrupt(r, past);
      && c.rsp.data == r.data && (c.rsp.corrupt ==> r.corrupt)
      && (c.done ==> 0 < c.rsp.marker <= |r.data|)
      && (!c.done ==> c.rsp.marker == r.marker)
  {
    hide CorruptEnd;
  }

  lemma WordedEnd(r: Rsp)
    ensures var c := Worded(r);
      && c.rsp.data == r.data && c.rsp.corrupt == r.corrupt
      && (c.done ==> 0 < c.rsp.marker <= |r.data|)
      && (!c.done ==> c.rsp == r)
  {
    hide OkEnd, FinalEnd;
  }

  lemma SolicitedEnd(r: Rsp, past: bool)
    ensures var c := Solicited(r, past);
      && c.rsp.data == r.data && (c.rsp.corrupt ==> r.corrupt)
      && (c.done ==> 0 < c.rsp.marker <= |r.data|)
      && (!c.done ==> c.rsp.marker == r.marker)
  {
    var c1 := Extended(r, CME);
    var c2 := Extended(c1.rsp, CMS);
    ExtendedEnd(r, CME);
    ExtendedEnd(c1.rsp, CMS);
    WordedEnd(c2.rsp);
    CorruptEnds(Worded(c2.rsp).rsp, past);
    hide Extended, Worded, Corrupt;
  }

  /** A check leaves the bytes alone; the end it sets lies in the buffer, and it sets one
      exactly if it says yes, but for an unsolicited response without a line end. */
  lemma JudgeEnd(r: Rsp, w: World)
    requires r.marker == 0
    ensures var c := Judge(r, w);
      && c.rsp.data == r.data && c.rsp.marker <= |r.data| && (c.rsp.corrupt ==> r.corrupt)
      && (c.rsp.marker > 0 <==> c.done && !NoLineEnd(r, w))
  {
    SolicitedEnd(r.(unsolicited := false), w.past);
    hide Solicited;
  }

  // ---------------------------------------------------------------------------
  // A channel and its stream.

  datatype Channel = Channel(rsp: Rsp, emitted: seq<Rsp>, checks: nat)

  datatype Drained = Drained(chan: Channel, ok: bool)

  /** Between calls no end is marked. */
  predicate Idle(c: Channel) {
    c.rsp.marker == 0
  }

  /** TransferData: the marked response leaves, the rest stays in a new object. */
  function Transferred(c: Channel): Channel
    requires c.rsp.marker <= |c.rsp.data|
  {
    var r := c.rsp;
    c.(emitted := c.emitted + [r.(data := r.data[..r.marker])], rsp := EMPTY.(data := r.data[r.marker..]))
  }

  function Bytes(rs: seq<Rsp>): string {
    if rs == [] then "" else Bytes(rs[..|rs| - 1]) + rs[|rs| - 1].data
  }

  /** One check and what follows it; more tells whether the loop goes on. */
  function Round(c: Channel, w: World): (r: (Channel, bool, bool))
    requires Idle(c)
    ensures var (c', more, ok) := r;
      && (more ==> Idle(c') && |c'.rsp.data| < |c.rsp.data|)
      && Idle(c')
  {
    var j := Judge(c.rsp, w);
    JudgeEnd(c.rsp, w);
    var c1 := c.(rsp := j.rsp, checks := c.checks + 1);
    if !j.done then (c1, false, true)
    else if j.rsp.marker == 0 then (c1, false, false)
    else (Transferred(c1), w.processed, w.processed)
  }

  /** Round, given what the check said. */
  lemma RoundIs(c: Channel, w: World, c1: Channel, done: bool)
    requires Idle(c) && Judge(c.rsp, w) == Checked(c1.rsp, done)
    requires c1 == c.(rsp := c1.rsp, checks := c.checks + 1)
    ensures c1.rsp.marker <= |c1.rsp.data| && (!done ==> c1.rsp.marker == 0)
    ensures c1.rsp.marker > 0 ==> c1.rsp.data != ""
    ensures Round(c, w) ==
      if !done then (c1, false, true)
      else if c1.rsp.marker == 0 then (c1, false, false)
      else (Transferred(c1), w.processed, w.processed)
  {
    JudgeEnd(c.rsp, w);
    hide Judge, NoLineEnd;
  }

  /** The check says yes but marks no end, so the transfer fails. */
  lemma UnendedRound(c: Channel, w: World)
    requires Idle(c) && NoLineEnd(c.rsp, w)
    ensures Judge(c.rsp, w) == Checked(c.rsp.(unsolicited := true), true)
    ensures Round(c, w) == (c.(rsp := c.rsp.(unsolicited := true), checks := c.checks + 1), false, false)
  {
    hide Solicited;
    assert Judge(c.rsp, w) == Checked(c.rsp.(unsolicited := true), true);
    RoundIs(c, w, c.(rsp := c.rsp.(unsolicited := true), checks := c.checks + 1), true);
    hide NoLineEnd, Judge, Round;
  }

  lemma NoReturn(r: Rsp, w: World)
    requires r.data != "" && w.unsolicited && '\r' !in r.data
    ensures NoLineEnd(r, w)
  {
    var t := TextOf(r.data);
    var f := FindAndSkipString(t, Pointer(r, w), CRLF);
    hide TextOf, FindAndSkipString;
    if f.found {
      MatchAt(t, CRLF, f.at - 2, 0);
    }
  }

  /** An unsolicited text whose line end has not come yet. */
  lemma UnsolicitedWithoutLineEnd(c: Channel, w: World)
    requires Idle(c) && c.rsp.data == "+CREG: 1" && w.unsolicited
    ensures NoLineEnd(c.rsp, w) && Judge(c.rsp, w).done && Judge(c.rsp, w).rsp.marker == 0
    ensures Round(c, w).0.rsp.data == c.rsp.data && !Round(c, w).1 && !Round(c, w).2
  {
    hide Judge, Round, NoLineEnd;
    NoReturn(c.rsp, w);
    UnendedRound(c, w);
  }

  /** The loop of ProcessModemData. It ends: every transfer shortens the buffer. */
  function Drain(c: Channel, world: nat -> World): (d: Drained)
    requires Idle(c)
    ensures Idle(d.chan)
    decreases |c.rsp.data|
  {
    var (c', more, ok) := Round(c, world(c.checks));
    if more then Drain(c', world) else Drained(c', ok)
  }

  /** ProcessModemData; timedOut is m_bTimeoutWaitingForResponse. */
  function Receive(c: Channel, bytes: string, timedOut: bool, world: nat -> World): (d: Drained)
    requires Idle(c)
    ensures Idle(d.chan)
  {
    if bytes == "" then Drained(c, false)
    else
      var r := c.rsp.(data := c.rsp.data + bytes, corrupt := c.rsp.corrupt || timedOut);
      Drain(c.(rsp := r), world)
  }

  lemma TransferConserves(c: Channel)
    requires 0 < c.rsp.marker <= |c.rsp.data|
    ensures var c' := Transferred(c);
      && Bytes(c'.emitted) + c'.rsp.data == Bytes(c.emitted) + c.rsp.data
      && c'.emitted == c.emitted + [c'.emitted[|c.emitted|]]
      && c'.emitted[|c.emitted|].data != ""
  {
    var m, d, e := c.rsp.marker, c.rsp.data, Transferred(c).emitted;
    assert e[..|e| - 1] == c.emitted;
    assert d[..m] + d[m..] == d;
  }

  lemma RoundConserves(c: Channel, w: World)
    requires Idle(c)
    ensures var c' := Round(c, w).0;
      && Bytes(c'.emitted) + c'.rsp.data == Bytes(c.emitted) + c.rsp.data
      && c.emitted <= c'.emitted
      && forall i :: |c.emitted| <= i < |c'.emitted| ==> c'.emitted[i].data != ""
  {
    JudgeEnd(c.rsp, w);
    var j := Judge(c.rsp, w);
    hide Judge, NoLineEnd;
    if j.done && j.rsp.marker > 0 {
      TransferConserves(c.(rsp := j.rsp, checks := c.checks + 1));
      hide Transferred, Bytes;
    }
  }

  /** Whatever the loop does, the responses it emits and the bytes it keeps are the bytes it
      had; and it emits no empty response. */
  lemma {:induction false} DrainConserves(c: Channel, world: nat -> World)
    requires Idle(c)
    ensures var c' := Drain(c, world).chan;
      && Bytes(c'.emitted) + c'.rsp.data == Bytes(c.emitted) + c.rsp.data
      && c.emitted <= c'.emitted
      && forall i :: |c.emitted| <= i < |c'.emitted| ==> c'.emitted[i].data != ""
    decreases |c.rsp.data|
  {
    var w := world(c.checks);
    RoundConserves(c, w);
    var (c', more, ok) := Round(c, w);
    if more {
      DrainConserves(c', world);
      hide Round;
    }
  }

  /** A round counts one check; if it ends the loop with success, the buffer is not complete. */
  lemma RoundStops(c: Channel, w: World)
    requires Idle(c)
    ensures var (c', more, ok) := Round(c, w);
      c'.checks == c.checks + 1 && (!more && ok ==> !Complete(c'.rsp, w))
  {
    JudgeIsComplete(c.rsp, w);
    JudgeEnd(c.rsp, w);
    hide Judge, TextOf, CodeWaits, Prompt, CorruptEnd, Contains;
  }

  /** A drain that reports success ends on a buffer that is not complete. */
  lemma {:induction false} DrainIsThorough(c: Channel, world: nat -> World)
    requires Idle(c) && Drain(c, world).ok
    ensures var c' := Drain(c, world).chan;
      c'.checks > c.checks && !Complete(c'.rsp, world(c'.checks - 1))
    decreases |c.rsp.data|
  {
    hide Complete, Round;
    RoundStops(c, world(c.checks));
    var (c', more, ok) := Round(c, world(c.checks));
    if more {
      DrainIsThorough(c', world);
    }
  }

  datatype Arrival = Arrival(bytes: string, timedOut: bool)

  function Run(c: Channel, arrivals: seq<Arrival>, world: nat -> World): (c': Channel)
    requires Idle(c)
    ensures Idle(c')
    decreases |arrivals|
  {
    if arrivals == [] then c
    else Run(Receive(c, arrivals[0].bytes, arrivals[0].timedOut, world).chan, arrivals[1..], world)
  }

  function Received(arrivals: seq<Arrival>): string {
    if arrivals == [] then "" else arrivals[0].bytes + Received(arrivals[1..])
  }

  lemma ReceiveConserves(c: Channel, a: Arrival, world: nat -> World)
    requires Idle(c)
    ensures var c' := Receive(c, a.bytes, a.timedOut, world).chan;
      Bytes(c'.emitted) + c'.rsp.data == Bytes(c.emitted) + c.rsp.data + a.bytes
  {
    if a.bytes != "" {
      var r := c.rsp.(data := c.rsp.data + a.bytes, corrupt := c.rsp.corrupt || a.timedOut);
      DrainConserves(c.(rsp := r), world);
      hide Drain, Bytes;
    }
  }

  /** Over any run no byte is lost, doubled or moved, failures included. */
  lemma {:induction false} StreamIsConserved(c: Channel, arrivals: seq<Arrival>, world: nat -> World)
    requires Idle(c)
    ensures var c' := Run(c, arrivals, world);
      Bytes(c'.emitted) + c'.rsp.data == Bytes(c.emitted) + c.rsp.data + Received(arrivals)
    decreases |arrivals|
  {
    hide Receive, Bytes;
    if arrivals != [] {
      var c1 := Receive(c, arrivals[0].bytes, arrivals[0].timedOut, world).chan;
      ReceiveConserves(c, arrivals[0], world);
      StreamIsConserved(c1, arrivals[1..], world);
    }
  }

  // ---------------------------------------------------------------------------
  // Error tokens without a return.

  /** The unrecognised form of an extended error takes the whole buffer. */
  lemma EarlyToken(r: Rsp, token: string)
    requires '\0' !in r.data && token != "" && FindAndSkipString(r.data, 0, token).found
    requires !FindAndSkipString(r.data, FindAndSkipString(r.data, 0, token).at, "\r").found
    ensures Extended(r, token) == Checked(r.(marker := |r.data|, unrecognized := true), true)
  {
    var t := r.data;
    NoNul(t);
    var p := FindAndSkipString(t, 0, token).at;
    if SkipString(t, p, CRLF).found {
      LineEndHasReturn(t, p);
    }
    hide FindAndSkipString, SkipString, TextOf;
  }

  /** An error token without a return behind it makes a buffer complete at once, whatever digits
      are there; the response is all that is in the buffer, unless the other token, which is
      tried first, decides. ResponseCuts tells which cuts of a report lead here. */
  lemma ExtendedCutsEarly(r: Rsp, w: World, token: string)
    requires r.data != "" && !w.unsolicited && '\0' !in r.data && (token == CME || token == CMS)
    requires Contains(r.data, token)
    requires !FindAndSkipString(r.data, FindAndSkipString(r.data, 0, token).at, "\r").found
    ensures Judge(r, w).done
    ensures token == CME || !Contains(r.data, CME) ==>
      Judge(r, w).rsp.marker == |r.data| && Judge(r, w).rsp.unrecognized
  {
    var r0 := r.(unsolicited := false);
    NoNul(r.data);
    FoundIffContained(r.data, token);
    FoundIffContained(r.data, CME);
    if token == CME {
      EarlyToken(r0, CME);
    } else {
      ExtendedKeeps(r0, CME);
      EarlyToken(Extended(r0, CME).rsp, CMS);
      assert !Contains(r.data, CME) ==> Extended(r0, CME) == Checked(r0, false);
    }
    hide Extended, Worded, Corrupt, FindAndSkipString, Contains, TextOf;
  }

  lemma LineEndHasReturn(t: string, p: nat)
    requires p <= |t| && SkipString(t, p, CRLF).found
    ensures FindAndSkipString(t, p, "\r").found
  {
    var q := AfterSpaces(t, p);
    assert t[q..q + 2][..1] == t[q..q + 1];
    assert At(t, "\r", q);
  }

  lemma NoNul(data: string)
    requires '\0' !in data
    ensures TextOf(data) == data
  {
    if data != "" {
      NoNul(data[1..]);
    }
  }
}
