// The framing of the command socket: blockingWrite and sendResponseRaw, a length
// header in network order before every packet, and the reader's view of the stream.
module Framing {
  const MAX_COMMAND_BYTES := 8192

  type byte = x: int | 0 <= x < 256

  predicate Fits(p: seq<byte>) {
    |p| <= MAX_COMMAND_BYTES
  }

  /** htonl of the packet size */
  function Header(n: nat): (h: seq<byte>)
    requires n < 0x1_0000_0000
    ensures |h| == 4
  {
    [n / 0x100_0000, n / 0x1_0000 % 256, n / 0x100 % 256, n % 256]
  }

  function HeaderValue(h: seq<byte>): nat
    requires |h| == 4
  {
    var a: int, b: int, c: int, d: int := h[0], h[1], h[2], h[3];
    ((a * 256 + b) * 256 + c) * 256 + d
  }

  /** The header holds the size with the highest byte first, and the reader reads it back. */
  lemma HeaderRoundTrip(n: nat)
    requires n < 0x1_0000_0000
    ensures HeaderValue(Header(n)) == n
    ensures var h := Header(n);
      h[0] as int * 0x100_0000 + h[1] as int * 0x1_0000 + h[2] as int * 0x100 + h[3] as int == n
  {
    assert n / 0x100 / 0x100 == n / 0x1_0000 && n / 0x1_0000 / 0x100 == n / 0x100_0000;
  }

  function Frame(p: seq<byte>): seq<byte>
    requires Fits(p)
  {
    Header(|p|) + p
  }

  function Frames(ps: seq<seq<byte>>): seq<byte>
    requires forall i :: 0 <= i < |ps| ==> Fits(ps[i])
  {
    if ps == [] then [] else Frame(ps[0]) + Frames(ps[1..])
  }

  /** The reader: packets as long as they are complete, and the bytes left over. */
  function Decode(bytes: seq<byte>): (seq<seq<byte>>, seq<byte>)
    decreases |bytes|
  {
    if |bytes| < 4 then ([], bytes)
    else
      var n := HeaderValue(bytes[..4]);
      if |bytes| < 4 + n then ([], bytes)
      else
        var (ps, rest) := Decode(bytes[4 + n..]);
        ([bytes[4..4 + n]] + ps, rest)
  }

  /** A frame that has been begun but not finished. */
  ghost predicate Unfinished(tail: seq<byte>) {
    exists p: seq<byte> :: Fits(p) && tail < Frame(p)
  }

  lemma FrameDecodes(p: seq<byte>, rest: seq<byte>)
    requires Fits(p)
    ensures Decode(Frame(p) + rest) == ([p] + Decode(rest).0, Decode(rest).1)
  {
    var b := Frame(p) + rest;
    HeaderRoundTrip(|p|);
    assert b[..4] == Header(|p|);
    assert b[4..4 + |p|] == p && b[4 + |p|..] == rest;
  }

  lemma UnfinishedStays(tail: seq<byte>)
    requires Unfinished(tail)
    ensures Decode(tail) == ([], tail)
  {
    var p: seq<byte> :| Fits(p) && tail < Frame(p);
    HeaderRoundTrip(|p|);
    if |tail| >= 4 {
      assert tail[..4] == Frame(p)[..4] == Header(|p|);
    }
  }

  /** What was framed comes back packet by packet, and an unfinished frame is kept. */
  lemma {:induction false} FramesDecode(ps: seq<seq<byte>>, tail: seq<byte>)
    requires forall i :: 0 <= i < |ps| ==> Fits(ps[i])
    requires Unfinished(tail)
    ensures Decode(Frames(ps) + tail) == (ps, tail)
  {
    if ps == [] {
      assert Frames(ps) + tail == tail;
      UnfinishedStays(tail);
    } else {
      assert Frames(ps) + tail == Frame(ps[0]) + (Frames(ps[1..]) + tail);
      FrameDecodes(ps[0], Frames(ps[1..]) + tail);
      FramesDecode(ps[1..], tail);
      assert [ps[0]] + ps[1..] == ps;
    }
  }

  lemma NothingIsUnfinished()
    ensures Unfinished([])
  {
    var p: seq<byte> := [];
    assert Fits(p) && [] < Frame(p);
  }

  /** The stream determines the packets. */
  lemma FramesInjective(ps: seq<seq<byte>>, qs: seq<seq<byte>>)
    requires forall i :: 0 <= i < |ps| ==> Fits(ps[i])
    requires forall i :: 0 <= i < |qs| ==> Fits(qs[i])
    requires Frames(ps) == Frames(qs)
    ensures ps == qs
  {
    NothingIsUnfinished();
    FramesDecode(ps, []);
    FramesDecode(qs, []);
  }

  lemma {:induction false} FramesAppend(ps: seq<seq<byte>>, p: seq<byte>)
    requires forall i :: 0 <= i < |ps| ==> Fits(ps[i])
    requires Fits(p)
    ensures forall i :: 0 <= i < |ps + [p]| ==> Fits((ps + [p])[i])
    ensures Frames(ps + [p]) == Frames(ps) + Frame(p)
  {
    if ps == [] {
      assert ps + [p] == [p] && [p][1..] == [];
    } else {
      FramesAppend(ps[1..], p);
      assert (ps + [p])[1..] == ps[1..] + [p];
      assert Frame(ps[0]) + (Frames(ps[1..]) + Frame(p)) == Frame(ps[0]) + Frames(ps[1..]) + Frame(p);
    }
  }

  // ---------------------------------------------------------------------------
  // One sender.

  /** What one call of write comes back with. */
  datatype WriteResult =
    | Wrote(n: nat)  // that many of the offered bytes were taken
    | Again          // EINTR or EAGAIN
    | Broken         // any other error

  datatype Outcome = Done | Failed | StillWriting

  class CommandSocket {
    var bytes: seq<byte>
    var open: bool

    constructor ()
      ensures bytes == [] && open
    {
      bytes, open := [], true;
    }

    /** The loop only ends with the results of write; when they run out it is still
        inside.  Every result is consumed in order. */
    method BlockingWrite(buffer: seq<byte>, results: seq<WriteResult>)
      returns (outcome: Outcome, left: seq<WriteResult>)
      modifies this
      ensures exists k | 0 <= k <= |buffer| ::
        && bytes == old(bytes) + buffer[..k]
        && (outcome == Done ==> k == |buffer|)
        && (outcome == StillWriting ==> k < |buffer|)
      ensures (outcome == Failed <==> !open && buffer != [])
      ensures (open ==> old(open)) && (outcome != Failed ==> open == old(open))
      ensures outcome == StillWriting ==> left == []
    {
      var writeOffset := 0;
      left := results;
      while writeOffset < |buffer|
        invariant 0 <= writeOffset <= |buffer| && open == old(open) && (writeOffset > 0 ==> open)
        invariant bytes == old(bytes) + buffer[..writeOffset]
        decreases |left|
      {
        if !open {
          return Failed, left;
        }
        if left == [] {
          return StillWriting, left;
        }
        var written := left[0];
        left := left[1..];
        match written {
          case Wrote(n) =>
            var m := if writeOffset + n <= |buffer| then n else |buffer| - writeOffset;
            bytes := bytes + buffer[writeOffset..writeOffset + m];
            assert buffer[..writeOffset + m] == buffer[..writeOffset] + buffer[writeOffset..writeOffset + m];
            writeOffset := writeOffset + m;
          case Again =>
          case Broken =>
            open := false;
            return Failed, left;
        }
      }
      assert buffer[..writeOffset] == buffer;
      return Done, left;
    }

    /** sendResponseRaw with the mutex held throughout. */
    method SendResponseRaw(data: seq<byte>, results: seq<WriteResult>) returns (outcome: Outcome)
      modifies this
      ensures |data| > 8192 ==> outcome == Failed && bytes == old(bytes) && open == old(open)
      ensures |data| <= 8192 ==> exists k | 0 <= k <= |Frame(data)| ::
        && bytes == old(bytes) + Frame(data)[..k]
        && (outcome == Done ==> k == |Frame(data)|)
        && (outcome == StillWriting ==> k < |Frame(data)|)
      ensures |data| <= 8192 ==> (outcome == Failed <==> !open)
    {
      if |data| > MAX_COMMAND_BYTES {
        return Failed;
      }
      var left;
      ghost var start := bytes;
      outcome, left := BlockingWrite(Header(|data|), results);
      ghost var k :| 0 <= k <= 4 && bytes == start + Header(|data|)[..k]
        && (outcome == Done ==> k == 4) && (outcome == StillWriting ==> k < 4);
      assert Header(|data|)[..k] == Frame(data)[..k];
      if outcome != Done {
        return;
      }
      ghost var middle := bytes;
      outcome, left := BlockingWrite(data, left);
      ghost var j :| 0 <= j <= |data| && bytes == middle + data[..j]
        && (outcome == Done ==> j == |data|) && (outcome == StillWriting ==> j < |data|);
      assert bytes == start + Frame(data)[..4 + j];
    }
  }
}
