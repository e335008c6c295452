// CResponse and the receiving half of a channel as the code has them: a buffer that grows in
// chunks, recognisers that set the end marker, and the draining loop. Each is proved to do
// what Responses says.
module ResponseBuffer {
  import opened Options
  import opened Text
  import opened Responses

  const CHUNK := 1024  // m_nChunkSize

  /** What IsExtendedError makes of a response whose text holds the token. */
  lemma ExtendedWith(r: Rsp, token: string)
    requires FindAndSkipString(TextOf(r.data), 0, token).found
    ensures var t := TextOf(r.data);
      var n := ErrorCode(t, FindAndSkipString(t, 0, token).at);
      var end := SkipString(t, n.at, CRLF);
      Extended(r, token) == Checked(
        Rsp(r.data, if end.found then end.at else if n.found then r.marker else |r.data|,
            r.unsolicited && !n.found, r.unrecognized || !n.found, r.corrupt,
            if n.found then CodeResult(n.value) else r.result, if n.found then n.value else r.error),
        end.found || !n.found)
  {
    hide FindAndSkipString, SkipString, ErrorCode, CodeResult, TextOf;
  }

  class Response {
    var buffer: array?<char>
    var used: nat
    var marker: nat
    var unsolicited: bool
    var unrecognized: bool
    var corrupt: bool
    var result: ResultCode
    var error: nat

    /** There is always room for the terminator. */
    ghost predicate Valid()
      reads this
    {
      if buffer == null then used == 0 else used < buffer.Length
    }

    ghost function Data(): string
      requires Valid()
      reads this, buffer
    {
      if buffer == null then "" else buffer[..used]
    }

    ghost function View(): Rsp
      requires Valid()
      reads this, buffer
    {
      Rsp(Data(), marker, unsolicited, unrecognized, corrupt, result, error)
    }

    constructor ()
      ensures Valid() && View() == EMPTY && buffer == null
    {
      buffer, used, marker := null, 0, 0;
      unsolicited, unrecognized, corrupt := false, false, false;
      result, error := Success, 0;
    }

    /** CSelfExpandBuffer::Append: the bytes go to the end, whatever the capacity was. */
    method Append(bytes: string)
      requires Valid()
      modifies this, buffer
      ensures Valid() && View() == old(View()).(data := old(Data()) + bytes)
      ensures buffer == old(buffer) || fresh(buffer)
    {
      if |bytes| == 0 {
        return;
      }
      ghost var data := Data();
      if buffer == null {
        buffer := new char[CHUNK];
      }
      var size := buffer.Length;
      while size - used <= |bytes|
        invariant size >= buffer.Length
        decreases used + |bytes| + 1 - size
      {
        size := size + CHUNK;
      }
      if size != buffer.Length {
        var tmp := new char[size];
        Copy(tmp, 0, buffer[..used]);
        buffer := tmp;
      }
      assert buffer[..used] == data;
      Copy(buffer, used, bytes);
      used := used + |bytes|;
      assert buffer[..used] == data + bytes;
      buffer[used] := '\0';
      assert buffer[..used] == data + bytes;
    }

    method IsUnsolicitedResponse(w: World) returns (done: bool)
      requires Valid()
      modifies `unsolicited, `marker
      ensures Valid() && Checked(View(), done) == Unsolicited(old(View()), w)
    {
      var t := TextOf(Bytes());
      unsolicited := w.unsolicited;
      if !unsolicited {
        return false;
      }
      var pointer := if w.at <= |t| then w.at else |t|;
      var end := FindAndSkipString(t, pointer, CRLF);
      if end.found {
        marker := end.at;
      }
      return true;
    }

    /** The bytes in use, for the string helpers. */
    function Bytes(): (s: string)
      requires Valid()
      reads this, buffer
      ensures s == Data()
    {
      if buffer == null then "" else buffer[..used]
    }

    method IsExtendedError(token: string) returns (done: bool)
      requires Valid()
      modifies `unsolicited, `unrecognized, `marker, `result, `error
      ensures Valid() && Checked(View(), done) == Extended(old(View()), token)
    {
      hide FindAndSkipString, SkipString, ErrorCode, CodeResult, TextOf;
      var t := TextOf(Bytes());
      var f := FindAndSkipString(t, 0, token);
      if !f.found {
        return false;
      }
      ghost var r := View();
      ExtendedWith(r, token);
      hide Extended, TextOf;
      var n := RetrieveErrorCode(t, f.at);
      var end := SkipString(t, n.at, CRLF);
      done := end.found || !n.found;
      if end.found {
        marker := end.at;
      } else if done {
        marker := used;
      }
      unrecognized := unrecognized || !n.found;
      assert Data() == r.data;
    }

    method RetrieveErrorCode(t: string, p: nat) returns (n: Number)
      requires Valid() && p <= |t|
      modifies `unsolicited, `result, `error
      ensures n == ErrorCode(t, p)
      ensures !n.found ==> unchanged(this)
      ensures n.found ==> result == CodeResult(n.value) && error == n.value && !unsolicited
    {
      hide FindAndSkipString, SkipString, ExtractUInt32;
      var dummy := FindAndSkipString(t, p, "\r");
      if !dummy.found {
        return Number(false, 0, p);
      }
      n := ExtractUInt32(t, p);
      if !n.found {
        assert n == ErrorCode(t, p);
        return;
      }
      if n.value == 103 || n.value == 106 {
        result := IllegalSimOrMe;
      } else {
        result := GenericFailure;
      }
      error, unsolicited := n.value, false;
    }

    method IsOkResponse() returns (done: bool)
      requires Valid()
      modifies `unsolicited, `marker, `result
      ensures Valid() && Checked(View(), done) == Final(old(View()), OkEnd(TextOf(old(Data()))), Success)
    {
      hide FindAndSkipString, SkipString, TextOf;
      var t := TextOf(Bytes());
      var skip := FindAndSkipString(t, 0, "\r\nOK\r\n");
      if !skip.found {
        skip := FindAndSkipString(t, skip.at, "OK\r\n");
      }
      done := skip.found;
      if !done {
        skip := SkipString(t, skip.at, CRLF);
        if skip.found {
          skip := SkipString(t, skip.at, "> ");
          done := skip.found;
        }
      }
      if done {
        unsolicited, marker, result := false, skip.at, Success;
      }
    }

    /** IsErrorResponse, IsConnectResponse, IsAbortedResponse. */
    method IsFinalResponse(word: string, code: ResultCode) returns (done: bool)
      requires Valid()
      modifies `unsolicited, `marker, `result
      ensures Valid() && Checked(View(), done) == Final(old(View()), FinalEnd(TextOf(old(Data())), word), code)
    {
      var t := TextOf(Bytes());
      var skip := FindAndSkipString(t, 0, CRLF + word + CRLF);
      if skip.found {
        unsolicited, marker, result := false, skip.at, code;
      }
      return skip.found;
    }

    /** past says what stands behind the terminator. */
    method IsCorruptResponse(past: bool) returns (done: bool)
      requires Valid()
      modifies `corrupt, `unrecognized, `marker
      ensures Valid() && Checked(View(), done) == Corrupt(old(View()), past)
    {
      hide FindAndSkipString, SkipString, TextOf;
      if !corrupt {
        return false;
      }
      var t := TextOf(Bytes());
      corrupt := false;
      var skip := FindAndSkipString(t, 0, "\r");
      if skip.found {
        skip := SkipString(t, skip.at, "\n");
        if skip.found {
          var next := if skip.at < |t| then SkipString(t, skip.at + 1, "\r").found else past;
          if next {
            unrecognized, marker := true, skip.at;
            return true;
          }
        }
      }
      return false;
    }

    method IsCompleteResponse(w: World) returns (done: bool)
      requires Valid()
      modifies this`unsolicited, this`unrecognized, this`corrupt, this`marker, this`result, this`error, buffer
      ensures Valid() && Checked(View(), done) == Judge(old(View()), w)
    {
      hide Unsolicited, Extended, OkEnd, FinalEnd, Final, Corrupt, TextOf;
      if used == 0 {
        return false;
      }
      buffer[used] := '\0';
      assert View() == old(View());
      done := IsUnsolicitedResponse(w);
      if !done {
        done := IsSolicited(w.past);
      }
    }

    /** The chain of recognisers for everything but unsolicited responses. */
    method IsSolicited(past: bool) returns (done: bool)
      requires Valid()
      modifies `unsolicited, `unrecognized, `corrupt, `marker, `result, `error
      ensures Valid() && Checked(View(), done) == Solicited(old(View()), past)
    {
      hide Extended, Worded, Corrupt;
      done := IsExtendedError(CME);
      if !done {
        done := IsExtendedError(CMS);
      }
      if !done {
        done := IsWorded();
      }
      if !done {
        done := IsCorruptResponse(past);
      }
    }

    method IsWorded() returns (done: bool)
      requires Valid()
      modifies `unsolicited, `marker, `result
      ensures Valid() && Checked(View(), done) == Worded(old(View()))
    {
      hide OkEnd, FinalEnd, TextOf;
      done := IsOkResponse();
      if !done {
        done := IsFinalResponse("ERROR", GenericFailure);
      }
      if !done {
        done := IsFinalResponse("CONNECT", Success);
      }
      if !done {
        done := IsFinalResponse("ABORTED", Success);
      }
    }

    /** TransferData on non-null rspIn and null rspOut: the marked bytes stay in the object,
        which becomes the response; the rest moves to a new one. */
    static method TransferData(rspIn: Response) returns (ok: bool, newIn: Response, rspOut: Response?)
      requires rspIn.Valid() && rspIn.marker <= rspIn.used
      modifies rspIn`used, rspIn.buffer
      ensures ok <==> old(rspIn.used) > 0 && rspIn.marker > 0
      ensures !ok ==> rspIn.Valid() && newIn == rspIn && rspOut == null && rspIn.View() == old(rspIn.View())
      ensures ok ==>
        && rspOut == rspIn && rspIn.Valid() && fresh(newIn) && newIn.Valid()
        && (newIn.buffer == null || fresh(newIn.buffer))
        && rspIn.View() == old(rspIn.View()).(data := old(rspIn.Data())[..rspIn.marker])
        && newIn.View() == EMPTY.(data := old(rspIn.Data())[rspIn.marker..])
    {
      if rspIn.used == 0 || rspIn.marker == 0 {
        return false, rspIn, null;
      }
      newIn := new Response();
      rspOut := rspIn;
      var remainder := rspOut.used - rspOut.marker;
      if remainder > 0 {
        newIn.Append(rspOut.buffer[rspOut.marker..rspOut.used]);
        rspOut.used := rspOut.used - remainder;
      }
      rspOut.buffer[rspOut.used] := '\0';
      ok := true;
    }
  }

  /** memcpy into an array. */
  method Copy(a: array<char>, start: nat, bytes: string)
    requires start + |bytes| <= a.Length
    modifies a
    ensures a[..] == old(a[..start]) + bytes + old(a[start + |bytes|..])
  {
    forall i | 0 <= i < |bytes| {
      a[start + i] := bytes[i];
    }
  }

  class Receiver {
    var response: Response?
    var timedOut: bool           // m_bTimeoutWaitingForResponse
    var checks: nat              // how many checks were made: picks the world's next answer
    ghost var emitted: seq<Rsp>  // the responses transferred so far

    ghost predicate Valid()
      reads this, response
    {
      response != null ==> response.Valid()
    }

    ghost function View(): Channel
      requires Valid()
      reads this, response, if response != null then {response.buffer} else {}
    {
      Channel(if response == null then EMPTY else response.View(), emitted, checks)
    }

    constructor ()
      ensures Valid() && View() == Channel(EMPTY, [], 0) && !timedOut && response == null
    {
      response, timedOut, checks, emitted := null, false, 0, [];
    }

    /** ProcessModemData: what Receive says, whatever the world answers. */
    method ProcessModemData(bytes: string, world: nat -> World) returns (ok: bool)
      requires Valid() && Idle(View())
      modifies this, response, if response != null then {response.buffer} else {}
      ensures Valid() && Drained(View(), ok) == Receive(old(View()), bytes, old(timedOut), world)
      ensures timedOut == (old(timedOut) && bytes == "")
    {
      hide Drain;
      if |bytes| == 0 {
        return false;
      }
      if response == null {
        response := new Response();
      }
      response.Append(bytes);
      if timedOut {
        response.corrupt := true;
        timedOut := false;
      }
      ok := DrainBuffer(world);
    }

    /** TransferData on the channel's response. */
    method Transfer() returns (ok: bool)
      requires Valid() && response != null && response.marker <= response.used
      modifies `response, `emitted, response`used, response.buffer
      ensures Valid() && response != null
      ensures ok <==> old(response.used) > 0 && old(response.marker) > 0
      ensures View() == if ok then Transferred(old(View())) else old(View())
      ensures if response == old(response) then response.buffer == old(response.buffer)
             else fresh(response) && (response.buffer == null || fresh(response.buffer))
    {
      var newIn, rspOut;
      ok, newIn, rspOut := Response.TransferData(response);
      if ok {
        response := newIn;
        emitted := emitted + [rspOut.View()];
      }
    }

    /** The check of a round, and what the round will come to. */
    method Check(w: World) returns (done: bool)
      requires Valid() && Idle(View()) && response != null
      modifies `checks, response, response.buffer
      ensures Valid() && response.buffer == old(response.buffer) && checks == old(checks) + 1
      ensures response.marker <= response.used && (response.marker > 0 ==> response.used > 0)
      ensures Idle(View()) || done
      ensures Round(old(View()), w) ==
        if !done then (View(), false, true)
        else if response.marker == 0 then (View(), false, false)
        else (Transferred(View()), w.processed, w.processed)
    {
      hide Judge, Round, Transferred;
      ghost var was := View();
      done := response.IsCompleteResponse(w);
      checks := checks + 1;
      RoundIs(was, w, View(), done);
    }

    /** One round of the loop: a check, and if it says yes a transfer. */
    method OneRound(world: nat -> World) returns (more: bool, ok: bool)
      requires Valid() && Idle(View()) && response != null
      modifies this, response, response.buffer
      ensures Valid() && response != null && timedOut == old(timedOut)
      ensures (View(), more, ok) == Round(old(View()), world(old(checks)))
      ensures if response == old(response) then response.buffer == old(response.buffer)
             else fresh(response) && (response.buffer == null || fresh(response.buffer))
    {
      hide Round, Transferred;
      var w := world(checks);
      more := Check(w);
      hide View;
      ok := true;
      if more {
        ok := Transfer();
        ok := ok && w.processed;
        more := ok;
      }
    }

    /** The draining loop. */
    method DrainBuffer(world: nat -> World) returns (ok: bool)
      requires Valid() && Idle(View()) && response != null
      modifies this, response, response.buffer
      ensures Valid() && Drained(View(), ok) == Drain(old(View()), world)
      ensures timedOut == old(timedOut)
    {
      hide Round;
      var more;
      more, ok := OneRound(world);
      while more
        invariant Valid() && Idle(View()) && response != null
        invariant if response == old(response) then response.buffer == old(response.buffer)
               else fresh(response) && (response.buffer == null || fresh(response.buffer))
        invariant timedOut == old(timedOut)
        invariant Drain(old(View()), world) == if more then Drain(View(), world) else Drained(View(), ok)
        decreases more, |View().rsp.data|
      {
        more, ok := OneRound(world);
      }
    }
  }
}
