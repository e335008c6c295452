// Any number of threads sending packets at the same time, while clients hang up and others
// connect: s_writeMutex keeps the frames whole on a connection, but a frame begun on one
// connection may go on in the next.
module Senders {
  import opened Options
  import opened Framing

  /** Where a call of sendResponseRaw is. Calls are named; fd is what it read from fdCommand,
      sent counts frame bytes, and here tells whether they all went to the open connection. */
  datatype Call =
    | Waiting(packet: seq<byte>, fd: nat)                          // for the mutex
    | Writing(packet: seq<byte>, fd: nat, sent: nat, here: bool)   // holding it
    | Returned(packet: seq<byte>, ok: bool)

  /** A connection: its stream, the part of it that belongs to a frame begun on an earlier one,
      and the calls whose whole frame it holds, in order. */
  datatype Conn = Conn(late: seq<byte>, log: seq<nat>, bytes: seq<byte>)

  datatype State = State(
    calls: map<nat, Call>, owner: Option<nat>,
    fd: nat, up: bool,          // fdCommand, and whether it is set
    open: bool,                 // the descriptor names the last connection
    conns: seq<Conn>,           // the last one is the present one
    split: set<nat>)            // calls that ended their frame on another connection than they began it

  datatype Action =
    | Begin(c: nat, packet: seq<byte>)
    | Lock(c: nat)
    | Write(c: nat, n: nat)     // write takes n more bytes of the header or of the data
    | Fail(c: nat)              // write reports an error: the descriptor is closed
    | Finish(c: nat)            // everything written: unlock and return 0
    | HangUp                    // the event thread closes the descriptor and forgets it
    | Accept(fd: nat)           // a new client, under any descriptor number

  const NOBODY := Conn([], [], [])
  const START := State(map[], None, 0, false, false, [NOBODY], {})

  /** write is offered either what is left of the header or what is left of the data. */
  predicate Offered(packet: seq<byte>, sent: nat, n: nat) {
    if sent < 4 then sent + n <= 4 else sent + n <= 4 + |packet|
  }

  /** The descriptor names the connection that is open now. */
  predicate Hits(s: State, fd: nat) {
    s.open && fd == s.fd
  }

  predicate Enabled(s: State, a: Action) {
    s.conns != [] &&
    match a
    case Begin(c, _) => c !in s.calls
    case Lock(c) => c in s.calls && s.calls[c].Waiting? && s.owner.None?
    case Write(c, n) =>
      && c in s.calls && s.calls[c].Writing? && Hits(s, s.calls[c].fd) && Fits(s.calls[c].packet)
      && s.calls[c].sent < 4 + |s.calls[c].packet| && Offered(s.calls[c].packet, s.calls[c].sent, n)
    case Fail(c) => c in s.calls && s.calls[c].Writing? && s.calls[c].sent < 4 + |s.calls[c].packet|
    case Finish(c) => c in s.calls && s.calls[c].Writing? && s.calls[c].sent == 4 + |s.calls[c].packet|
    case HangUp => s.up
    case Accept(_) => !s.up
  }

  function Last(s: State): Conn
    requires s.conns != []
  {
    s.conns[|s.conns| - 1]
  }

  /** The calls when a connection is accepted: what was sent before went elsewhere. */
  function Moved(s: State): map<nat, Call> {
    if s.owner.Some? && s.owner.value in s.calls && s.calls[s.owner.value].Writing? then
      var call := s.calls[s.owner.value];
      s.calls[s.owner.value := call.(here := call.sent == 0)]
    else s.calls
  }

  function Written(k: Conn, c: nat, call: Call, n: nat): Conn
    requires call.Writing? && Fits(call.packet) && call.sent + n <= 4 + |call.packet|
  {
    var piece := Frame(call.packet)[call.sent..call.sent + n];
    if !call.here then Conn(k.late + piece, k.log, k.bytes + piece)
    else if call.sent + n < 4 + |call.packet| then k.(bytes := k.bytes + piece)
    else k.(bytes := k.bytes + piece, log := k.log + [c])
  }

  function Step(s: State, a: Action): State
    requires Enabled(s, a)
  {
    match a
    case Begin(c, packet) =>
      s.(calls := s.calls[c := if s.up && Fits(packet) then Waiting(packet, s.fd) else Returned(packet, false)])
    case Lock(c) =>
      s.(calls := s.calls[c := Writing(s.calls[c].packet, s.calls[c].fd, 0, true)], owner := Some(c))
    case Write(c, n) =>
      var call := s.calls[c];
      var ends := call.sent + n == 4 + |call.packet|;
      s.(calls := s.calls[c := call.(sent := call.sent + n)],
         conns := s.conns[|s.conns| - 1 := Written(Last(s), c, call, n)],
         split := if ends && !call.here then s.split + {c} else s.split)
    case Fail(c) =>
      s.(calls := s.calls[c := Returned(s.calls[c].packet, false)], owner := None,
         open := s.open && !Hits(s, s.calls[c].fd))
    case Finish(c) =>
      s.(calls := s.calls[c := Returned(s.calls[c].packet, true)], owner := None)
    case HangUp => s.(up := false, open := false)
    case Accept(fd) => s.(calls := Moved(s), fd := fd, up := true, open := true, conns := s.conns + [NOBODY])
  }

  predicate ValidRun(s: State, acts: seq<Action>)
    decreases |acts|
  {
    acts == [] || (Enabled(s, acts[0]) && ValidRun(Step(s, acts[0]), acts[1..]))
  }

  function Run(s: State, acts: seq<Action>): State
    requires ValidRun(s, acts)
    decreases |acts|
  {
    if acts == [] then s else Run(Step(s, acts[0]), acts[1..])
  }

  // ---------------------------------------------------------------------------
  // What every step keeps.

  predicate LogOk(calls: map<nat, Call>, log: seq<nat>) {
    && (forall i :: 0 <= i < |log| ==> log[i] in calls && Fits(calls[log[i]].packet))
    && (forall i, j :: 0 <= i < j < |log| ==> log[i] != log[j])
  }

  /** The packets of the completed frames. */
  function Packets(calls: map<nat, Call>, log: seq<nat>): (ps: seq<seq<byte>>)
    requires LogOk(calls, log)
    ensures |ps| == |log| && forall i :: 0 <= i < |ps| ==> Fits(ps[i])
  {
    seq(|log|, i requires 0 <= i < |log| => calls[log[i]].packet)
  }

  predicate KeepsPackets(calls: map<nat, Call>, calls': map<nat, Call>) {
    forall c :: c in calls ==> c in calls' && calls'[c].packet == calls[c].packet
  }

  lemma StepKeepsPackets(s: State, a: Action)
    requires Enabled(s, a)
    ensures KeepsPackets(s.calls, Step(s, a).calls)
  {
  }

  lemma SamePackets(calls: map<nat, Call>, calls': map<nat, Call>, log: seq<nat>)
    requires LogOk(calls, log) && KeepsPackets(calls, calls')
    ensures LogOk(calls', log) && Packets(calls', log) == Packets(calls, log)
  {
  }

  /** Only the owner of the mutex is writing; everyone else waits or has returned. */
  predicate Exclusive(s: State) {
    forall c :: c in s.calls && s.calls[c].Writing? ==> s.owner == Some(c)
  }

  predicate Logged(s: State, c: nat) {
    exists i :: 0 <= i < |s.conns| && c in s.conns[i].log
  }

  predicate CallOk(s: State, c: nat)
    requires c in s.calls
  {
    match s.calls[c]
    case Waiting(p, _) => Fits(p) && !Logged(s, c) && c !in s.split
    case Writing(p, _, k, here) =>
      Fits(p) && k <= 4 + |p| && (Logged(s, c) || c in s.split <==> k == 4 + |p|) && (k == 0 ==> here)
    case Returned(p, ok) => ok <==> Logged(s, c) || c in s.split
  }

  predicate CallsOk(s: State) {
    && (forall c :: c in s.calls ==> CallOk(s, c))
    && (forall c :: c in s.split ==> c in s.calls && !Logged(s, c))
  }

  predicate Apart(a: seq<nat>, b: seq<nat>) {
    forall c :: c in a ==> c !in b
  }

  predicate LogsOk(s: State) {
    && (forall i :: 0 <= i < |s.conns| ==> LogOk(s.calls, s.conns[i].log))
    && (forall i, j :: 0 <= i < j < |s.conns| ==> Apart(s.conns[i].log, s.conns[j].log))
  }

  /** A stream: the end of a frame begun elsewhere, whole frames, and the beginning of one. */
  ghost predicate Shows(calls: map<nat, Call>, k: Conn, tail: seq<byte>) {
    LogOk(calls, k.log) && k.bytes == k.late + Frames(Packets(calls, k.log)) + tail && Unfinished(tail)
  }

  ghost predicate ConnOk(calls: map<nat, Call>, k: Conn) {
    exists tail :: Shows(calls, k, tail)
  }

  ghost predicate PastOk(s: State) {
    forall i :: 0 <= i < |s.conns| - 1 ==> ConnOk(s.calls, s.conns[i])
  }

  /** What the owner has begun on the open connection. */
  function Begun(s: State): seq<byte> {
    if s.owner.Some? && s.owner.value in s.calls && s.calls[s.owner.value].Writing? then
      var call := s.calls[s.owner.value];
      if call.here && Hits(s, call.fd) && Fits(call.packet) && call.sent < 4 + |call.packet|
      then Frame(call.packet)[..call.sent] else []
    else []
  }

  /** The owner is in the middle of a frame that it began on an earlier connection. */
  predicate Stale(s: State) {
    && s.owner.Some? && s.owner.value in s.calls && s.calls[s.owner.value].Writing?
    && !s.calls[s.owner.value].here && s.calls[s.owner.value].sent < 4 + |s.calls[s.owner.value].packet|
  }

  ghost predicate StreamOk(s: State, tail: seq<byte>)
    requires s.conns != []
  {
    && Shows(s.calls, Last(s), tail)
    && (s.open ==> tail == Begun(s))
    && (Stale(s) ==> Last(s).log == [])
  }

  ghost predicate Inv(s: State) {
    s.conns != [] && Exclusive(s) && CallsOk(s) && LogsOk(s) && PastOk(s) && exists tail :: StreamOk(s, tail)
  }

  lemma ShowsStays(calls: map<nat, Call>, calls': map<nat, Call>, k: Conn, tail: seq<byte>)
    requires Shows(calls, k, tail) && KeepsPackets(calls, calls')
    ensures Shows(calls', k, tail)
  {
    SamePackets(calls, calls', k.log);
    hide LogOk, Frames, Packets, Unfinished, KeepsPackets;
  }

  lemma ConnsStay(s: State, calls': map<nat, Call>, n: nat)
    requires KeepsPackets(s.calls, calls') && n <= |s.conns|
    requires forall i :: 0 <= i < n ==> ConnOk(s.calls, s.conns[i])
    ensures forall i :: 0 <= i < n ==> ConnOk(calls', s.conns[i])
  {
    hide Shows, KeepsPackets;
    forall i | 0 <= i < n ensures ConnOk(calls', s.conns[i]) {
      var tail :| Shows(s.calls, s.conns[i], tail);
      ShowsStays(s.calls, calls', s.conns[i], tail);
    }
  }

  // --- steps that send nothing

  lemma QuietCalls(s: State, a: Action)
    requires Exclusive(s) && CallsOk(s) && LogsOk(s) && Enabled(s, a) && !a.Write? && !a.Accept?
    ensures Exclusive(Step(s, a)) && CallsOk(Step(s, a))
  {
    var s' := Step(s, a);
    assert s'.conns == s.conns;
    assert forall c :: Logged(s', c) == Logged(s, c);
    if a.Begin? {
      NewcomerHasNone(s, a.c);
    }
    hide Logged;
    forall c | c in s'.calls ensures CallOk(s', c) {
      if c in s.calls { assert CallOk(s, c); }
    }
  }

  lemma LoggedIsCall(s: State, c: nat)
    requires LogsOk(s) && Logged(s, c)
    ensures c in s.calls
  {
    var i :| 0 <= i < |s.conns| && c in s.conns[i].log;
    assert LogOk(s.calls, s.conns[i].log);
  }

  lemma NewcomerHasNone(s: State, c: nat)
    requires CallsOk(s) && LogsOk(s) && c !in s.calls
    ensures !Logged(s, c) && c !in s.split
  {
    hide Logged;
    if Logged(s, c) {
      LoggedIsCall(s, c);
    }
  }

  lemma QuietLogs(s: State, a: Action)
    requires LogsOk(s) && Enabled(s, a) && !a.Write? && !a.Accept?
    ensures LogsOk(Step(s, a))
  {
    StepKeepsPackets(s, a);
    hide KeepsPackets, Apart;
    var s' := Step(s, a);
    forall i | 0 <= i < |s'.conns| ensures LogOk(s'.calls, s'.conns[i].log) {
      SamePackets(s.calls, s'.calls, s.conns[i].log);
    }
  }

  lemma QuietStream(s: State, a: Action, tail: seq<byte>)
    requires Exclusive(s) && CallsOk(s) && s.conns != [] && StreamOk(s, tail)
    requires Enabled(s, a) && !a.Write? && !a.Accept?
    ensures StreamOk(Step(s, a), tail)
  {
    var s' := Step(s, a);
    StepKeepsPackets(s, a);
    ShowsStays(s.calls, s'.calls, Last(s), tail);
    hide Shows, KeepsPackets;
    if a.Lock? {
      assert Frame(s.calls[a.c].packet)[..0] == [];
    }
    if (a.Fail? || a.Finish?) {
      assert s.owner == Some(a.c);
    }
  }

  // --- a write

  /** The call whose whole frame a write puts on the present connection, if it does. */
  predicate Completes(s: State, a: Action)
    requires Enabled(s, a) && a.Write?
  {
    s.calls[a.c].here && s.calls[a.c].sent + a.n == 4 + |s.calls[a.c].packet|
  }

  lemma WriteShape(s: State, a: Action)
    requires Enabled(s, a) && a.Write?
    ensures var s' := Step(s, a);
      && |s'.conns| == |s.conns| && (forall i :: 0 <= i < |s.conns| - 1 ==> s'.conns[i] == s.conns[i])
      && Last(s').log == Last(s).log + if Completes(s, a) then [a.c] else []
  {
  }

  lemma LoggedAfterWrite(s: State, a: Action, c: nat)
    requires Enabled(s, a) && a.Write?
    ensures Logged(Step(s, a), c) <==> Logged(s, c) || (c == a.c && Completes(s, a))
  {
    WriteShape(s, a);
    hide Step, Completes, Enabled;
    var s', m := Step(s, a), |s.conns| - 1;
    if c == a.c && Completes(s, a) {
      assert c in s'.conns[m].log;
    }
    if i :| 0 <= i < |s.conns| && c in s.conns[i].log {
      assert c in s'.conns[i].log;
    }
    if i :| 0 <= i < |s'.conns| && c in s'.conns[i].log {
      assert i < m ==> c in s.conns[i].log;
      assert i == m ==> c in s.conns[m].log || (c == a.c && Completes(s, a));
    }
  }

  lemma WriteCalls(s: State, a: Action)
    requires Exclusive(s) && CallsOk(s) && Enabled(s, a) && a.Write?
    ensures Exclusive(Step(s, a)) && CallsOk(Step(s, a))
  {
    hide Logged, Written, Frame;
    var s' := Step(s, a);
    assert CallOk(s, a.c);
    forall c | c in s'.calls ensures CallOk(s', c) {
      LoggedAfterWrite(s, a, c);
      assert CallOk(s, c);
    }
    forall c | c in s'.split ensures c in s'.calls && !Logged(s', c) {
      LoggedAfterWrite(s, a, c);
    }
  }

  lemma WriteLogs(s: State, a: Action)
    requires CallsOk(s) && LogsOk(s) && Enabled(s, a) && a.Write?
    ensures LogsOk(Step(s, a))
  {
    var s', m := Step(s, a), |s.conns| - 1;
    assert CallOk(s, a.c);
    assert forall i :: 0 <= i < |s.conns| ==> a.c !in s.conns[i].log;
    WriteShape(s, a);
    StepKeepsPackets(s, a);
    hide Step, Completes, Enabled, KeepsPackets, CallOk, CallsOk;
    forall i | 0 <= i < |s'.conns| ensures LogOk(s'.calls, s'.conns[i].log) {
      SamePackets(s.calls, s'.calls, s.conns[i].log);
    }
    forall i, j | 0 <= i < j < |s'.conns| ensures Apart(s'.conns[i].log, s'.conns[j].log) {
      assert Apart(s.conns[i].log, s.conns[j].log);
    }
  }

  lemma WritePast(s: State, a: Action)
    requires PastOk(s) && Enabled(s, a) && a.Write?
    ensures PastOk(Step(s, a))
  {
    WriteShape(s, a);
    StepKeepsPackets(s, a);
    ConnsStay(s, Step(s, a).calls, |s.conns| - 1);
    hide Step, ConnOk, Enabled, KeepsPackets;
  }

  lemma BytesAfterWrite(ps: seq<seq<byte>>, p: seq<byte>, k: nat, n: nat)
    requires (forall i :: 0 <= i < |ps| ==> Fits(ps[i])) && Fits(p) && k + n <= 4 + |p|
    ensures var f := Frame(p);
      && Frames(ps) + f[..k] + f[k..k + n] == Frames(ps) + f[..k + n]
      && (forall i :: 0 <= i < |ps + [p]| ==> Fits((ps + [p])[i]))
      && (k + n == 4 + |p| ==> Frames(ps) + f[..k + n] == Frames(ps + [p]) + [])
  {
    var f := Frame(p);
    FramesAppend(ps, p);
    hide Frames, Frame;
    assert f[..k] + f[k..k + n] == f[..k + n] && f[..|f|] == f;
  }

  lemma BegunIsUnfinished(p: seq<byte>, n: nat)
    requires Fits(p) && n < 4 + |p|
    ensures Unfinished(Frame(p)[..n])
  {
    assert Frame(p)[..n] < Frame(p);
  }

  lemma PacketsGrow(calls: map<nat, Call>, log: seq<nat>, c: nat)
    requires LogOk(calls, log) && LogOk(calls, log + [c]) && c in calls
    ensures Packets(calls, log + [c]) == Packets(calls, log) + [calls[c].packet]
  {
  }

  /** A stale write goes to the late part of the stream. */
  lemma LateShows(calls: map<nat, Call>, k: Conn, piece: seq<byte>)
    requires Shows(calls, k, []) && k.log == []
    ensures Shows(calls, Conn(k.late + piece, k.log, k.bytes + piece), [])
  {
    assert Frames(Packets(calls, k.log)) == [];
    hide Unfinished;
    assert k.bytes == k.late;
  }

  lemma GoesOn(calls: map<nat, Call>, k: Conn, p: seq<byte>, sent: nat, n: nat)
    requires Fits(p) && sent + n < 4 + |p| && Shows(calls, k, Frame(p)[..sent])
    ensures Shows(calls, k.(bytes := k.bytes + Frame(p)[sent..sent + n]), Frame(p)[..sent + n])
  {
    var ps, f := Packets(calls, k.log), Frame(p);
    BytesAfterWrite(ps, p, sent, n);
    BegunIsUnfinished(p, sent + n);
    hide Frames, Packets, Unfinished, Frame, LogOk;
    Regroup(k.late, Frames(ps), f[..sent], f[sent..sent + n]);
    Regroup(k.late, Frames(ps), f[..sent + n], []);
  }

  lemma Regroup(a: seq<byte>, b: seq<byte>, c: seq<byte>, d: seq<byte>)
    ensures a + b + c + d == a + (b + c + d) && b + c + d == b + (c + d) && c + [] == c
  {
  }

  lemma Ends(calls: map<nat, Call>, k: Conn, p: seq<byte>, sent: nat, c: nat)
    requires Fits(p) && sent < 4 + |p| && Shows(calls, k, Frame(p)[..sent])
    requires c in calls && calls[c].packet == p && LogOk(calls, k.log + [c])
    ensures Shows(calls, k.(bytes := k.bytes + Frame(p)[sent..4 + |p|], log := k.log + [c]), [])
  {
    var ps, f := Packets(calls, k.log), Frame(p);
    BytesAfterWrite(ps, p, sent, 4 + |p| - sent);
    PacketsGrow(calls, k.log, c);
    NothingIsUnfinished();
    hide Frames, Packets, Unfinished, Frame, LogOk;
    Regroup(k.late, Frames(ps), f[..sent], f[sent..4 + |p|]);
  }

  lemma OwnerWrites(s: State, c: nat)
    requires Exclusive(s) && c in s.calls && s.calls[c].Writing?
    ensures s.owner == Some(c)
  {
  }

  lemma WriteStream(s: State, a: Action, tail: seq<byte>) returns (tail': seq<byte>)
    requires Exclusive(s) && s.conns != [] && StreamOk(s, tail)
    requires Enabled(s, a) && a.Write? && LogsOk(Step(s, a))
    ensures StreamOk(Step(s, a), tail')
  {
    OwnerWrites(s, a.c);
    StepKeepsPackets(s, a);
    var s', k, call := Step(s, a), Last(s), s.calls[a.c];
    ShowsStays(s.calls, s'.calls, k, tail);
    assert LogOk(s'.calls, s'.conns[|s.conns| - 1].log);
    hide Shows, KeepsPackets, LogsOk, LogOk, Exclusive, Frame;
    if !call.here {
      LateShows(s'.calls, k, Frame(call.packet)[call.sent..call.sent + a.n]);
      tail' := [];
    } else if call.sent + a.n < 4 + |call.packet| {
      GoesOn(s'.calls, k, call.packet, call.sent, a.n);
      tail' := Frame(call.packet)[..call.sent + a.n];
    } else {
      Ends(s'.calls, k, call.packet, call.sent, a.c);
      tail' := [];
    }
  }

  lemma WriteKeeps(s: State, a: Action)
    requires Inv(s) && Enabled(s, a) && a.Write?
    ensures Inv(Step(s, a))
  {
    hide Exclusive, CallsOk, LogsOk, PastOk, StreamOk, Step, Enabled;
    var tail :| StreamOk(s, tail);
    WriteCalls(s, a);
    WriteLogs(s, a);
    WritePast(s, a);
    WriteShape(s, a);
    var tail' := WriteStream(s, a, tail);
  }

  lemma QuietKeeps(s: State, a: Action)
    requires Inv(s) && Enabled(s, a) && !a.Write? && !a.Accept?
    ensures Inv(Step(s, a))
  {
    hide Exclusive, CallsOk, LogsOk, StreamOk, ConnOk, KeepsPackets;
    var tail :| StreamOk(s, tail);
    QuietCalls(s, a);
    QuietLogs(s, a);
    StepKeepsPackets(s, a);
    ConnsStay(s, Step(s, a).calls, |s.conns| - 1);
    assert Step(s, a).conns == s.conns;
    QuietStream(s, a, tail);
  }

  // --- a new connection

  lemma LoggedAfterAccept(s: State, a: Action, c: nat)
    requires Enabled(s, a) && a.Accept?
    ensures Logged(Step(s, a), c) <==> Logged(s, c)
  {
    hide Moved;
    var s' := Step(s, a);
    if i :| 0 <= i < |s.conns| && c in s.conns[i].log {
      assert c in s'.conns[i].log;
    }
    if i :| 0 <= i < |s'.conns| && c in s'.conns[i].log {
      assert i < |s.conns| && c in s.conns[i].log;
    }
  }

  lemma AcceptCalls(s: State, a: Action)
    requires Exclusive(s) && CallsOk(s) && Enabled(s, a) && a.Accept?
    ensures Exclusive(Step(s, a)) && CallsOk(Step(s, a))
  {
    hide Logged;
    var s' := Step(s, a);
    forall c | c in s'.calls ensures CallOk(s', c) {
      LoggedAfterAccept(s, a, c);
      assert CallOk(s, c);
    }
    forall c | c in s'.split ensures c in s'.calls && !Logged(s', c) {
      LoggedAfterAccept(s, a, c);
    }
  }

  lemma AcceptLogs(s: State, a: Action)
    requires LogsOk(s) && Enabled(s, a) && a.Accept?
    ensures LogsOk(Step(s, a))
  {
    StepKeepsPackets(s, a);
    var s' := Step(s, a);
    hide KeepsPackets, Moved;
    forall i | 0 <= i < |s'.conns| ensures LogOk(s'.calls, s'.conns[i].log) {
      if i < |s.conns| { SamePackets(s.calls, s'.calls, s.conns[i].log); }
    }
    forall i, j | 0 <= i < j < |s'.conns| ensures Apart(s'.conns[i].log, s'.conns[j].log) {
      if j < |s.conns| { assert Apart(s.conns[i].log, s.conns[j].log); }
    }
  }

  lemma AcceptPast(s: State, a: Action, tail: seq<byte>)
    requires s.conns != [] && PastOk(s) && StreamOk(s, tail) && Enabled(s, a) && a.Accept?
    ensures PastOk(Step(s, a))
  {
    assert ConnOk(s.calls, Last(s));
    StepKeepsPackets(s, a);
    hide ConnOk, KeepsPackets, Moved, StreamOk;
    assert forall i :: 0 <= i < |s.conns| ==> ConnOk(s.calls, s.conns[i]);
    ConnsStay(s, Step(s, a).calls, |s.conns|);
  }

  lemma EmptyStream(calls: map<nat, Call>)
    ensures Shows(calls, NOBODY, [])
  {
    NothingIsUnfinished();
  }

  lemma AcceptStream(s: State, a: Action)
    requires Enabled(s, a) && a.Accept?
    ensures StreamOk(Step(s, a), [])
  {
    EmptyStream(Step(s, a).calls);
    hide Shows;
  }

  lemma AcceptKeeps(s: State, a: Action)
    requires Inv(s) && Enabled(s, a) && a.Accept?
    ensures Inv(Step(s, a))
  {
    hide Exclusive, CallsOk, LogsOk, PastOk, StreamOk, Moved;
    var tail :| StreamOk(s, tail);
    AcceptCalls(s, a);
    AcceptLogs(s, a);
    AcceptPast(s, a, tail);
    AcceptStream(s, a);
  }

  lemma StepKeeps(s: State, a: Action)
    requires Inv(s) && Enabled(s, a)
    ensures Inv(Step(s, a))
  {
    hide Inv, Step, Enabled;
    if a.Write? {
      WriteKeeps(s, a);
    } else if a.Accept? {
      AcceptKeeps(s, a);
    } else {
      QuietKeeps(s, a);
    }
  }

  lemma {:induction false} RunKeeps(s: State, acts: seq<Action>)
    requires Inv(s) && ValidRun(s, acts)
    ensures Inv(Run(s, acts))
    decreases |acts|
  {
    hide Inv, Step, Enabled;
    if acts != [] {
      StepKeeps(s, acts[0]);
      RunKeeps(Step(s, acts[0]), acts[1..]);
    }
  }

  lemma StartIsSafe()
    ensures Inv(START)
  {
    EmptyStream(map[]);
    assert StreamOk(START, []);
  }

  // ---------------------------------------------------------------------------
  // What clients read.

  /** Whatever the interleaving and however write splits the bytes: the stream of every
      connection, past or present, is the late part, whole frames and at most one unfinished
      frame, so behind the late part a reader gets back exactly the packets completed, in the
      order their frames were completed. */
  lemma StreamTheorem(acts: seq<Action>, i: nat)
    requires ValidRun(START, acts) && i < |Run(START, acts).conns|
    ensures var s := Run(START, acts);
      var k := s.conns[i];
      && LogOk(s.calls, k.log) && k.late <= k.bytes
      && Decode(k.bytes[|k.late|..]).0 == Packets(s.calls, k.log)
      && Unfinished(Decode(k.bytes[|k.late|..]).1)
      && k.bytes == k.late + Frames(Packets(s.calls, k.log)) + Decode(k.bytes[|k.late|..]).1
  {
    StartIsSafe();
    RunKeeps(START, acts);
    var s := Run(START, acts);
    hide Run, ValidRun, Exclusive, CallsOk, LogsOk, Begun, Stale;
    assert ConnOk(s.calls, s.conns[i]) by {
      if i == |s.conns| - 1 {
        var tail :| StreamOk(s, tail);
        assert Shows(s.calls, s.conns[i], tail);
      }
    }
    hide Inv;
    var tail :| Shows(s.calls, s.conns[i], tail);
    DecodeShown(s.calls, s.conns[i], tail);
  }

  lemma DecodeShown(calls: map<nat, Call>, k: Conn, tail: seq<byte>)
    requires Shows(calls, k, tail)
    ensures k.late <= k.bytes && Decode(k.bytes[|k.late|..]) == (Packets(calls, k.log), tail)
  {
    var ps := Packets(calls, k.log);
    FramesDecode(ps, tail);
    hide Frames, Decode, Packets, Unfinished, LogOk;
    assert k.bytes[|k.late|..] == Frames(ps) + tail;
  }

  predicate At(s: State, i: nat, j: nat, c: nat) {
    i < |s.conns| && j < |s.conns[i].log| && s.conns[i].log[j] == c
  }

  /** A call that returned 0 has its whole frame in exactly one place of one stream, or it ended
      its frame on another connection than it began it; a call that returned an error or still
      waits has no whole frame anywhere. */
  lemma ReturnTheorem(acts: seq<Action>, c: nat)
    requires ValidRun(START, acts)
    requires var s := Run(START, acts); c in s.calls && !s.calls[c].Writing?
    ensures var s := Run(START, acts);
      && (Logged(s, c) || c in s.split <==> s.calls[c].Returned? && s.calls[c].ok)
      && !(Logged(s, c) && c in s.split)
      && (Logged(s, c) ==> exists i, j :: At(s, i, j, c))
      && (forall i, j, i', j' :: At(s, i, j, c) && At(s, i', j', c) ==> i == i' && j == j')
  {
    StartIsSafe();
    RunKeeps(START, acts);
    var s := Run(START, acts);
    hide Run, ValidRun, StreamOk, PastOk, Exclusive;
    assert CallOk(s, c);
    if Logged(s, c) {
      var i :| 0 <= i < |s.conns| && c in s.conns[i].log;
      var j :| 0 <= j < |s.conns[i].log| && s.conns[i].log[j] == c;
      assert At(s, i, j, c);
    }
    hide CallsOk, CallOk, Logged;
    forall i, j, i', j' | At(s, i, j, c) && At(s, i', j', c) ensures i == i' && j == j' {
      OnePlace(s, i, j, i', j', c);
    }
  }

  lemma NotLater(s: State, i: nat, i': nat, c: nat)
    requires LogsOk(s) && i < i' < |s.conns| && c in s.conns[i].log
    ensures c !in s.conns[i'].log
  {
    assert Apart(s.conns[i].log, s.conns[i'].log);
  }

  lemma OnePlace(s: State, i: nat, j: nat, i': nat, j': nat, c: nat)
    requires LogsOk(s) && At(s, i, j, c) && At(s, i', j', c)
    ensures i == i' && j == j'
  {
    assert LogOk(s.calls, s.conns[i].log);
    if i < i' {
      NotLater(s, i, i', c);
    } else if i' < i {
      NotLater(s, i', i, c);
    }
  }

  // ---------------------------------------------------------------------------
  // When frames stay whole across connections.

  /** A client is accepted under the very descriptor that a call is in the middle of writing to. */
  predicate Cuts(s: State, a: Action) {
    && a.Accept? && s.owner.Some? && s.owner.value in s.calls && s.calls[s.owner.value].Writing?
    && var call := s.calls[s.owner.value];
       0 < call.sent < 4 + |call.packet| && call.fd == a.fd
  }

  predicate NoCuts(s: State, acts: seq<Action>)
    requires ValidRun(s, acts)
    decreases |acts|
  {
    acts == [] || (!Cuts(s, acts[0]) && NoCuts(Step(s, acts[0]), acts[1..]))
  }

  predicate Clean(s: State) {
    && (forall i :: 0 <= i < |s.conns| ==> s.conns[i].late == []) && s.split == {}
    && (Stale(s) ==> s.calls[s.owner.value].fd != s.fd)
  }

  lemma StepKeepsClean(s: State, a: Action)
    requires Exclusive(s) && Clean(s) && Enabled(s, a) && !Cuts(s, a)
    requires forall c :: c in s.calls && s.calls[c].Writing? && s.calls[c].sent == 0 ==> s.calls[c].here
    ensures Clean(Step(s, a))
  {
    hide Frame;
    if a.Write? {
      OwnerWrites(s, a.c);
    }
  }

  lemma {:induction false} RunStaysClean(s: State, acts: seq<Action>)
    requires Inv(s) && Clean(s) && ValidRun(s, acts) && NoCuts(s, acts)
    ensures Clean(Run(s, acts))
    decreases |acts|
  {
    hide LogsOk, PastOk, StreamOk, Exclusive, Step, Enabled, Clean, Cuts;
    if acts != [] {
      assert forall c :: c in s.calls && s.calls[c].Writing? && s.calls[c].sent == 0 ==> CallOk(s, c);
      StepKeeps(s, acts[0]);
      StepKeepsClean(s, acts[0]);
      RunStaysClean(Step(s, acts[0]), acts[1..]);
    }
  }

  /** With no such accept every stream begins with a frame, and no frame is split. */
  lemma WholeFrames(acts: seq<Action>)
    requires ValidRun(START, acts) && NoCuts(START, acts)
    ensures var s := Run(START, acts);
      s.split == {} && forall i :: 0 <= i < |s.conns| ==> s.conns[i].late == []
  {
    StartIsSafe();
    RunStaysClean(START, acts);
  }

  /** After such an accept, whenever it happens, the next write puts the middle of a frame at the
      beginning of the new client's stream. */
  lemma CutGoesOn(acts: seq<Action>, fd: nat)
    requires ValidRun(START, acts)
    requires var s := Run(START, acts); Enabled(s, Accept(fd)) && Cuts(s, Accept(fd))
    ensures var s := Run(START, acts);
      var c, s1 := s.owner.value, Step(s, Accept(fd));
      && Fits(s.calls[c].packet) && Enabled(s1, Write(c, 1))
      && var k := Last(Step(s1, Write(c, 1)));
         k.late == [Frame(s.calls[c].packet)[s.calls[c].sent]] && k.bytes == k.late
  {
    StartIsSafe();
    RunKeeps(START, acts);
    var s := Run(START, acts);
    var c := s.owner.value;
    assert CallOk(s, c);
    hide Run, ValidRun, StreamOk, PastOk, Exclusive, LogsOk, CallsOk, CallOk, Header;
    var f, n := Frame(s.calls[c].packet), s.calls[c].sent;
    assert f[n..n + 1] == [f[n]];
    assert [] + [f[n]] == [f[n]];
  }

  lemma {:induction false} OneMoreStep(s: State, acts: seq<Action>, a: Action)
    requires ValidRun(s, acts) && Enabled(Run(s, acts), a)
    ensures ValidRun(s, acts + [a]) && Run(s, acts + [a]) == Step(Run(s, acts), a)
    decreases |acts|
  {
    hide Step, Enabled;
    if acts == [] {
      assert acts + [a] == [a] && [a][1..] == [];
    } else {
      assert (acts + [a])[1..] == acts[1..] + [a];
      OneMoreStep(Step(s, acts[0]), acts[1..], a);
    }
  }

  /** One call, on descriptor 7, with its state and the connections so far. */
  function OneCall(call: Call, open: bool, conns: seq<Conn>, split: set<nat>): State {
    State(map[0 := call], Some(0), 7, open, open, conns, split)
  }

  /** A packet whose header goes to one client. */
  lemma HeaderOnly(p: seq<byte>) returns (acts: seq<Action>)
    requires |p| == 5
    ensures ValidRun(START, acts)
    ensures Run(START, acts) ==
      OneCall(Writing(p, 7, 4, true), false, [NOBODY, Conn([], [], Frame(p)[..4])], {})
  {
    acts := [];
    assert Run(START, acts) == START;
    hide Run, ValidRun;
    OneMoreStep(START, acts, Accept(7));
    acts := acts + [Accept(7)];
    OneMoreStep(START, acts, Begin(0, p));
    acts := acts + [Begin(0, p)];
    OneMoreStep(START, acts, Lock(0));
    acts := acts + [Lock(0)];
    assert Run(START, acts) == OneCall(Writing(p, 7, 0, true), true, [NOBODY, NOBODY], {});
    OneMoreStep(START, acts, Write(0, 4));
    acts := acts + [Write(0, 4)];
    assert [] + Frame(p)[0..4] == Frame(p)[..4];
    OneMoreStep(START, acts, HangUp);
    acts := acts + [HangUp];
  }

  /** A run in which the next client reads a packet that nobody sent: its stream begins with the
      data of a frame whose header went to the client before. */
  lemma NobodySentThis() returns (acts: seq<Action>)
    ensures ValidRun(START, acts)
    ensures Run(START, acts).conns != []
    ensures var k := Last(Run(START, acts));
      k.log == [] && k.bytes == [0, 0, 0, 1, 9] && Decode(k.bytes).0 == [[9]]
  {
    var p: seq<byte> := [0, 0, 0, 1, 9];
    acts := HeaderOnly(p);
    hide Run, ValidRun;
    var first := Conn([], [], Frame(p)[..4]);
    OneMoreStep(START, acts, Accept(7));
    acts := acts + [Accept(7)];
    assert Run(START, acts) == OneCall(Writing(p, 7, 4, false), true, [NOBODY, first, NOBODY], {});
    OneMoreStep(START, acts, Write(0, 5));
    acts := acts + [Write(0, 5)];
    assert Frame(p)[4..9] == p && [] + p == p;
    MisreadAs9(p);
  }

  lemma MisreadAs9(p: seq<byte>)
    requires p == [0, 0, 0, 1, 9]
    ensures Decode(p).0 == [[9]]
  {
    assert p[..4] == [0, 0, 0, 1] && p[4..5] == [9] && p[5..] == [];
    assert Decode(p[5..]) == ([], []);
  }

  // ---------------------------------------------------------------------------
  // Progress.

  predicate OwnerWriting(s: State) {
    s.owner.Some? ==> s.owner.value in s.calls && s.calls[s.owner.value].Writing?
  }

  lemma StepKeepsOwner(s: State, a: Action)
    requires OwnerWriting(s) && Exclusive(s) && Enabled(s, a)
    ensures OwnerWriting(Step(s, a))
  {
    hide Frame;
  }

  lemma {:induction false} OwnerIsWriting(s: State, acts: seq<Action>)
    requires ValidRun(s, acts) && OwnerWriting(s) && Inv(s)
    ensures OwnerWriting(Run(s, acts))
    decreases |acts|
  {
    hide CallsOk, LogsOk, PastOk, StreamOk, Exclusive, Step, Enabled, OwnerWriting;
    if acts != [] {
      StepKeeps(s, acts[0]);
      StepKeepsOwner(s, acts[0]);
      OwnerIsWriting(Step(s, acts[0]), acts[1..]);
    }
  }

  /** Nobody is locked out: while a call is unfinished some call can move, and it meets a write
      error only if its descriptor does not name the open connection any more. */
  lemma SomeoneCanMove(acts: seq<Action>, c: nat) returns (a: Action)
    requires ValidRun(START, acts)
    requires var s := Run(START, acts); c in s.calls && !s.calls[c].Returned?
    ensures var s := Run(START, acts);
      && Enabled(s, a) && (a.Lock? || a.Write? || a.Fail? || a.Finish?) && a.c in s.calls
      && (a.Write? ==> a.n > 0) && (a.Fail? ==> s.calls[a.c].Writing? && !Hits(s, s.calls[a.c].fd))
  {
    StartIsSafe();
    RunKeeps(START, acts);
    OwnerIsWriting(START, acts);
    var s := Run(START, acts);
    hide Run, ValidRun, LogsOk, PastOk, StreamOk;
    var w := if s.owner.Some? then s.owner.value else c;
    assert CallOk(s, w);
    match s.calls[w]
    case Waiting(_, _) => a := Lock(w);
    case Writing(p, fd, k, _) =>
      a := if k == 4 + |p| then Finish(w) else if Hits(s, fd) then Write(w, 1) else Fail(w);
  }
}
