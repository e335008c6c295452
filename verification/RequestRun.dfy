// Any interleaving of commands, acknowledgements, completions (repeated ones and ones for freed
// addresses included), local requests and disconnects, with any number of vendor threads. A
// completion takes the record off the list, later builds its reply and reads the descriptor of
// the command socket, and later still writes; the event thread hangs up, cancels what is still
// listed and accepts the next client in between.
module RequestRun {
  import opened Options
  import opened Sequences
  import opened Requests

  datatype Action =
    | Incoming(words: seq<int>, block: Option<nat>)  // a command buffer from the client
    | Local(request: int, block: Option<nat>)        // issueLocalRequest
    | AckMark(th: nat, addr: nat)                    // RIL_onRequestAck up to the search
    | AckSend(th: nat, written: bool)                // and the rest of it
    | Take(th: nat, addr: nat, r: Response)          // RIL_onRequestComplete up to the search
    | Aim(th: nat)                                   // the reply is built, fdCommand is read
    | Write(th: nat, written: bool)                  // blockingWrite succeeds or fails
    | HangUp                                         // close(fd), fdCommand = -1
    | CancelPending                                  // onCommandsSocketClosed
    | Accept(fd: nat)                                // a new client, under any descriptor number

  /** A vendor thread inside a call. A completion remembers whether a client was connected and
      how many had hung up when its record left the list. */
  datatype Call =
    | InHand(rec: Record, r: Response, connected: bool, hangups: nat)
    | Aimed(rec: Record, r: Response, connected: bool, hangups: nat, fd: Option<nat>)
    | Acking(serial: nat, token: int)

  /** What is known of a record for ever: its token and request number, whose it is and which
      client sent it. */
  datatype Made = Made(token: int, request: int, local: bool, conn: nat)

  datatype System = System(
    s: Server,
    made: seq<Made>,         // by serial number
    acked: set<nat>,         // serial numbers acknowledged while pending
    cancelled: set<nat>,     // serial numbers cancelled while pending
    calls: map<nat, Call>,   // by thread
    fd: nat,                 // the descriptor of the connection
    broken: bool,            // a failed write has closed it behind fdCommand
    closing: bool,           // hung up, and the pending requests not yet cancelled
    hangups: nat,
    quiet: map<nat, bool>,   // by serial number of the reply: see Quiet
    answers: map<nat, Response>,     // by serial number: what the vendor completed it with
    built: seq<(nat, seq<int>)>)     // the replies built: serial number and words

  function Boot(version: int, commands: int): System {
    System(Server(version, commands, [], [], false, 0, 0, 0), [], {}, {}, map[], 0, false, false, 0,
           map[], map[], [])
  }

  /** The allocator returns no address that is listed or in a thread's hands. */
  predicate Free(y: System, addr: Option<nat>) {
    addr.Some? ==>
      && (forall i :: 0 <= i < |y.s.pending| ==> y.s.pending[i].addr != addr.value)
      && (forall th :: th in y.calls && !y.calls[th].Acking? ==> y.calls[th].rec.addr != addr.value)
  }

  /** Commands come from a connected client; the event thread does its three steps in turn. */
  predicate Enabled(y: System, a: Action) {
    match a
    case Incoming(_, addr) => y.s.connected && !y.broken && Free(y, addr)
    case Local(_, addr) => Free(y, addr)
    case AckMark(th, _) => th !in y.calls
    case AckSend(th, _) => th in y.calls && y.calls[th].Acking?
    case Take(th, _, _) => th !in y.calls
    case Aim(th) => th in y.calls && y.calls[th].InHand?
    case Write(th, _) => th in y.calls && y.calls[th].Aimed?
    case HangUp => y.s.connected
    case CancelPending => y.closing
    case Accept(_) => !y.s.connected && !y.closing
  }

  function Serials(p: seq<Record>): set<nat> {
    set i | 0 <= i < |p| :: p[i].serial
  }

  /** What sendResponseRaw reads from the socket parameters. */
  function ReadFd(y: System): Option<nat> {
    if y.s.connected then Some(y.fd) else None
  }

  /** The descriptor names the connection that is open now. */
  predicate Hits(y: System, fd: Option<nat>) {
    y.s.connected && !y.broken && fd == Some(y.fd)
  }

  /** sendResponseRaw after fdCommand was read as fd. */
  function SendTo(y: System, fd: Option<nat>, serial: nat, words: seq<int>, written: bool): System {
    if !Hits(y, fd) || 4 * |words| > MAX_COMMAND_BYTES then y
    else if written then y.(s := Send(y.s, Some(serial), words))
    else y.(broken := true)
  }

  /** A client was connected when the record left the list, and none has hung up since. */
  predicate Quiet(y: System, c: Call)
    requires !c.Acking?
  {
    c.connected && c.hangups == y.hangups
  }

  /** The mark that an acknowledgement leaves on record k. */
  function Marked(y: System, k: nat): System
    requires k < |y.s.pending|
  {
    y.(s := y.s.(pending := y.s.pending[k := y.s.pending[k].(acked := true)]),
       acked := y.acked + {y.s.pending[k].serial})
  }

  /** The record at place k moves from the list into a thread's hands. */
  function Taken(y: System, k: nat, th: nat, r: Response): System
    requires k < |y.s.pending|
  {
    y.(s := y.s.(pending := RemoveAt(y.s.pending, k)),
       calls := y.calls[th := InHand(y.s.pending[k], r, y.s.connected, y.hangups)],
       answers := y.answers[y.s.pending[k].serial := r])
  }

  /** The reply of the call c of thread th is built, and the descriptor is read. */
  function Built(y: System, th: nat, c: Call): System
    requires c.InHand?
  {
    y.(s := if y.s.version >= 13 && c.rec.acked then y.s.(grabs := y.s.grabs + 1) else y.s,
       calls := y.calls[th := Aimed(c.rec, c.r, c.connected, c.hangups, ReadFd(y))],
       built := y.built + [(c.rec.serial, ReplyWords(y.s.version, c.rec, c.r))])
  }

  function Step(y: System, a: Action): System
    requires Enabled(y, a)
  {
    match a
    case Incoming(words, addr) =>
      var s' := Receive(y.s, words, addr, |y.made|);
      if |s'.pending| == |y.s.pending| then y.(s := s')
      else y.(s := s', made := y.made + [Made(words[1], words[0], false, y.s.conn)])
    case Local(request, addr) =>
      var s' := IssueLocal(y.s, request, addr, |y.made|);
      if |s'.pending| == |y.s.pending| then y.(s := s')
      else y.(s := s', made := y.made + [Made(LOCAL_TOKEN, request, true, y.s.conn)])
    case AckMark(th, addr) =>
      var k := Find(y.s.pending, addr);
      if k == |y.s.pending| then y
      else Marked(y, k).(calls := y.calls[th := Acking(y.s.pending[k].serial, y.s.pending[k].token)])
    case AckSend(th, written) =>
      var c := y.calls[th];
      var y1 := if c.serial in y.cancelled then y
                else SendTo(y, ReadFd(y), c.serial, [RESPONSE_SOLICITED_ACK, c.token], written);
      y1.(calls := y.calls - {th})
    case Take(th, addr, r) =>
      var k := Find(y.s.pending, addr);
      if k == |y.s.pending| then y else Taken(y, k, th, r)
    case Aim(th) =>
      var c := y.calls[th];
      if c.rec.local || c.rec.cancelled then y.(calls := y.calls - {th})
      else Built(y, th, c)
    case Write(th, written) =>
      var c := y.calls[th];
      SendTo(y, c.fd, c.rec.serial, ReplyWords(y.s.version, c.rec, c.r), written)
        .(calls := y.calls - {th}, quiet := y.quiet[c.rec.serial := Quiet(y, c)])
    case HangUp => y.(s := y.s.(connected := false), closing := true, hangups := y.hangups + 1)
    case CancelPending =>
      y.(s := Disconnect(y.s), cancelled := y.cancelled + Serials(y.s.pending), closing := false)
    case Accept(fd) => y.(s := Connect(y.s), fd := fd, broken := false)
  }

  predicate ValidRun(y: System, acts: seq<Action>)
    decreases |acts|
  {
    acts == [] || (Enabled(y, acts[0]) && ValidRun(Step(y, acts[0]), acts[1..]))
  }

  function Run(y: System, acts: seq<Action>): System
    requires ValidRun(y, acts)
    decreases |acts|
  {
    if acts == [] then y else Run(Step(y, acts[0]), acts[1..])
  }

  /** A final response, as opposed to an acknowledgement. */
  predicate IsFinal(m: Message) {
    m.serial.Some? && |m.words| > 0 && m.words[0] != RESPONSE_SOLICITED_ACK
  }

  // ---------------------------------------------------------------------------
  // What every step keeps.

  predicate PendingOk(y: System, r: Record) {
    && r.serial < |y.made|
    && y.made[r.serial].token == r.token && y.made[r.serial].local == r.local
    && (r.acked <==> r.serial in y.acked)
    && (r.cancelled <==> r.serial in y.cancelled)
    && (!r.local && !r.cancelled ==> (y.s.connected || y.closing) && y.made[r.serial].conn == y.s.conn)
  }

  predicate AllPending(y: System) {
    && DistinctAddrs(y.s.pending)
    && (forall i, j :: 0 <= i < j < |y.s.pending| ==> y.s.pending[i].serial != y.s.pending[j].serial)
    && (forall i :: 0 <= i < |y.s.pending| ==> PendingOk(y, y.s.pending[i]))
    && (forall n :: n in y.acked ==> n < |y.made|)
    && (forall n :: n in y.cancelled ==> n < |y.made|)
    && (y.closing ==> !y.s.connected)
  }

  /** A record in a thread's hands: off the list, its flags settled, and its client known to be
      the connected one exactly as long as the call is quiet. */
  predicate HandOk(y: System, c: Call)
    requires !c.Acking?
  {
    var n := c.rec.serial;
    && n < |y.made| && n !in Serials(y.s.pending)
    && y.made[n].token == c.rec.token && y.made[n].local == c.rec.local
    && (c.rec.acked <==> n in y.acked)
    && (c.rec.cancelled <==> n in y.cancelled)
    && c.hangups <= y.hangups
    && (c.Aimed? ==> !c.rec.local && !c.rec.cancelled)
    && (!c.rec.local && !c.rec.cancelled ==>
          if Quiet(y, c) then
            y.s.connected && y.made[n].conn == y.s.conn && (c.Aimed? ==> c.fd == Some(y.fd))
          else y.made[n].conn <= y.s.conn && (y.s.connected ==> y.made[n].conn < y.s.conn))
  }

  predicate AllHands(y: System) {
    && (forall th :: th in y.calls && !y.calls[th].Acking? ==> HandOk(y, y.calls[th]))
    && (forall th, th' ::
          (th in y.calls && th' in y.calls && th != th' && !y.calls[th].Acking? && !y.calls[th'].Acking?) ==>
            y.calls[th].rec.serial != y.calls[th'].rec.serial)
  }

  predicate FinalOk(y: System, m: Message)
    requires IsFinal(m)
  {
    var n := m.serial.value;
    && n < |y.made| && n !in Serials(y.s.pending)
    && (forall th :: th in y.calls && !y.calls[th].Acking? ==> y.calls[th].rec.serial != n)
    && !y.made[n].local && n !in y.cancelled
    && n in y.quiet && (m.conn == y.made[n].conn <==> y.quiet[n])
    && |m.words| >= 3 && m.words[1] == y.made[n].token
    && m.words[0] == (if y.s.version >= 13 && n in y.acked
                      then RESPONSE_SOLICITED_ACK_EXP else RESPONSE_SOLICITED)
  }

  predicate AllFinal(y: System) {
    forall i :: 0 <= i < |y.s.sent| && IsFinal(y.s.sent[i]) ==> FinalOk(y, y.s.sent[i])
  }

  predicate OnceEach(sent: seq<Message>) {
    forall i, j :: 0 <= i < j < |sent| && IsFinal(sent[i]) && IsFinal(sent[j]) ==>
      sent[i].serial != sent[j].serial
  }

  predicate Inv(y: System) {
    AllPending(y) && AllHands(y) && AllFinal(y) && OnceEach(y.s.sent)
  }

  /** A new record with a fresh address and serial number. */
  lemma NewRecordKeeps(y: System, r: Record, m: Made)
    requires Inv(y) && Free(y, Some(r.addr)) && r.serial == |y.made|
    requires !r.acked && !r.cancelled && m.token == r.token && m.local == r.local
    requires !r.local ==> y.s.connected && m.conn == y.s.conn
    ensures Inv(y.(s := y.s.(pending := [r] + y.s.pending), made := y.made + [m]))
  {
    var y' := y.(s := y.s.(pending := [r] + y.s.pending), made := y.made + [m]);
    assert forall i :: 0 < i < |y'.s.pending| ==> y'.s.pending[i] == y.s.pending[i - 1];
    assert forall n :: n in Serials(y'.s.pending) ==> n == r.serial || n in Serials(y.s.pending);
    hide Serials;
    assert AllPending(y') by { hide HandOk, FinalOk; }
    assert AllHands(y') by { hide PendingOk, FinalOk; }
    assert AllFinal(y') by { hide PendingOk, HandOk; }
  }

  lemma IncomingKeeps(y: System, a: Action)
    requires Inv(y) && Enabled(y, a) && (a.Incoming? || a.Local?)
    ensures Inv(Step(y, a))
  {
    match a
    case Incoming(words, addr) =>
      if Parse(words, y.s.commands).Request? && addr.Some? {
        NewRecordKeeps(y, Record(addr.value, |y.made|, words[1], words[0], false, false, false),
                       Made(words[1], words[0], false, y.s.conn));
      } else {
        OtherSendKeeps(y, Step(y, a));
      }
    case Local(request, addr) =>
      if addr.Some? {
        NewRecordKeeps(y, Record(addr.value, |y.made|, LOCAL_TOKEN, request, true, false, false),
                       Made(LOCAL_TOKEN, request, true, y.s.conn));
      }
  }

  /** Sending something that is no final response, breaking the connection and counting wake
      lock calls touch none of the facts. */
  lemma OtherSendKeeps(y: System, y': System)
    requires Inv(y)
    requires y' == y.(s := y.s.(sent := y'.s.sent, grabs := y'.s.grabs, releases := y'.s.releases), broken := y'.broken)
    requires y'.s.sent == y.s.sent ||
      (|y'.s.sent| == |y.s.sent| + 1 && y.s.sent <= y'.s.sent && !IsFinal(y'.s.sent[|y.s.sent|]))
    ensures Inv(y')
  {
    assert AllPending(y') by { PendingSame(y, y'); }
    assert AllHands(y') by { HandsSame(y, y'); }
    hide AllPending, AllHands;
    forall i | 0 <= i < |y'.s.sent| && IsFinal(y'.s.sent[i]) ensures FinalOk(y', y'.s.sent[i]) {
      assert FinalOk(y, y.s.sent[i]);
    }
  }

  lemma PendingSame(y: System, y': System)
    requires AllPending(y) && y'.s.pending == y.s.pending && y'.made == y.made && y'.acked == y.acked
    requires y'.cancelled == y.cancelled && y'.closing == y.closing
    requires y'.s.connected == y.s.connected && y'.s.conn == y.s.conn
    ensures AllPending(y')
  {
    assert forall i :: 0 <= i < |y.s.pending| ==> PendingOk(y, y.s.pending[i]) == PendingOk(y', y.s.pending[i]);
  }

  lemma HandsSame(y: System, y': System)
    requires AllHands(y) && y'.s.pending == y.s.pending && y'.made == y.made && y'.acked == y.acked
    requires y'.cancelled == y.cancelled && y'.fd == y.fd && y'.hangups == y.hangups && y'.calls == y.calls
    requires y'.s.connected == y.s.connected && y'.s.conn == y.s.conn
    ensures AllHands(y')
  {
    forall th | th in y'.calls && !y'.calls[th].Acking? ensures HandOk(y', y'.calls[th]) {
      assert HandOk(y, y.calls[th]);
    }
  }

  lemma SerialAt(p: seq<Record>, k: nat)
    requires k < |p|
    requires forall i, j :: 0 <= i < j < |p| ==> p[i].serial != p[j].serial
    ensures Serials(RemoveAt(p, k)) == Serials(p) - {p[k].serial}
  {
    var q := RemoveAt(p, k);
    ElementsLeft(p, k);
    hide RemoveAt;
    forall n | n in Serials(p) - {p[k].serial} ensures n in Serials(q) {
      var i :| 0 <= i < |p| && p[i].serial == n;
      assert q[if i < k then i else i - 1] == p[i];
    }
    forall j | 0 <= j < |q| ensures q[j].serial in Serials(p) - {p[k].serial} {
      assert q[j] == p[if j < k then j else j + 1];
    }
  }

  lemma MarkedKeeps(y: System, k: nat)
    requires Inv(y) && k < |y.s.pending|
    ensures Inv(Marked(y, k))
  {
    var p, p' := y.s.pending, Marked(y, k).s.pending;
    assert forall i :: 0 <= i < |p| ==> p'[i].serial == p[i].serial && p'[i].addr == p[i].addr;
    assert Serials(p') == Serials(p) by { hide AllFinal, AllPending, AllHands; }
    assert p[k].serial in Serials(p);
    assert AllPending(Marked(y, k)) by { hide AllFinal, AllHands; }
    hide Serials;
    assert AllHands(Marked(y, k)) by { hide AllFinal, PendingOk; }
    assert AllFinal(Marked(y, k)) by { hide AllHands, PendingOk; }
  }

  /** A thread enters or leaves a call that holds no record. */
  lemma OtherCallsKeep(y: System, y': System, th: nat)
    requires Inv(y) && y' == y.(calls := y'.calls)
    requires forall u :: u in y'.calls && u != th ==> u in y.calls && y'.calls[u] == y.calls[u]
    requires th in y'.calls ==> y'.calls[th].Acking?
    ensures Inv(y')
  {
    assert AllPending(y') by { PendingSame(y, y'); }
    hide AllPending;
    forall u | u in y'.calls && !y'.calls[u].Acking? ensures HandOk(y', y'.calls[u]) {
      assert HandOk(y, y.calls[u]);
    }
    forall i | 0 <= i < |y'.s.sent| && IsFinal(y'.s.sent[i]) ensures FinalOk(y', y'.s.sent[i]) {
      assert FinalOk(y, y.s.sent[i]);
    }
  }

  lemma AckKeeps(y: System, a: Action)
    requires Inv(y) && Enabled(y, a) && (a.AckMark? || a.AckSend?)
    ensures Inv(Step(y, a))
  {
    hide AllPending, AllHands, AllFinal, OnceEach;
    var y' := Step(y, a);
    if a.AckMark? {
      var k := Find(y.s.pending, a.addr);
      if k < |y.s.pending| {
        MarkedKeeps(y, k);
        OtherCallsKeep(Marked(y, k), y', a.th);
      }
    } else {
      var y1 := y'.(calls := y.calls);
      OtherSendKeeps(y, y1);
      OtherCallsKeep(y1, y', a.th);
    }
  }

  lemma TakenPending(y: System, k: nat, th: nat, r: Response)
    requires AllPending(y) && k < |y.s.pending|
    ensures AllPending(Taken(y, k, th, r))
  {
    var p, y' := y.s.pending, Taken(y, k, th, r);
    ElementsLeft(p, k);
    hide RemoveAt;
    forall i | 0 <= i < |y'.s.pending| ensures PendingOk(y', y'.s.pending[i]) {
      assert PendingOk(y, p[if i < k then i else i + 1]);
    }
  }

  lemma TakenHands(y: System, k: nat, th: nat, r: Response)
    requires AllPending(y) && AllHands(y) && k < |y.s.pending| && th !in y.calls
    ensures AllHands(Taken(y, k, th, r))
  {
    var p, y' := y.s.pending, Taken(y, k, th, r);
    SerialAt(p, k);
    assert p[k].serial in Serials(p) && PendingOk(y, p[k]);
    hide RemoveAt, Serials, AllPending;
    forall u | u in y'.calls && !y'.calls[u].Acking? ensures HandOk(y', y'.calls[u]) {
      assert u != th ==> HandOk(y, y.calls[u]);
    }
  }

  lemma TakenFinal(y: System, k: nat, th: nat, r: Response)
    requires AllPending(y) && AllFinal(y) && k < |y.s.pending|
    ensures AllFinal(Taken(y, k, th, r))
  {
    var p, y' := y.s.pending, Taken(y, k, th, r);
    SerialAt(p, k);
    assert p[k].serial in Serials(p);
    hide RemoveAt, Serials, AllPending;
    forall i | 0 <= i < |y'.s.sent| && IsFinal(y'.s.sent[i]) ensures FinalOk(y', y'.s.sent[i]) {
      assert FinalOk(y, y.s.sent[i]);
    }
  }

  lemma TakeKeeps(y: System, a: Action)
    requires Inv(y) && a.Take? && Enabled(y, a)
    ensures Inv(Step(y, a))
  {
    hide Find, RemoveAt, AllPending, AllHands, AllFinal, OnceEach;
    var k := Find(y.s.pending, a.addr);
    if k < |y.s.pending| {
      TakenPending(y, k, a.th, a.r);
      TakenHands(y, k, a.th, a.r);
      TakenFinal(y, k, a.th, a.r);
    }
  }

  /** A call that reads the descriptor, or another one. */
  predicate AimedFrom(y: System, c: Call, c': Call) {
    || c' == c
    || (c.InHand? && !c.rec.local && !c.rec.cancelled
        && c' == Aimed(c.rec, c.r, c.connected, c.hangups, ReadFd(y)))
  }

  /** Reading the descriptor changes nothing that the facts about a thread's record speak of. */
  lemma HandAimed(y: System, y': System, c: Call, c': Call)
    requires !c.Acking? && HandOk(y, c) && y'.s == y.s.(grabs := y'.s.grabs) && y'.made == y.made
    requires y'.acked == y.acked && y'.cancelled == y.cancelled && y'.hangups == y.hangups && y'.fd == y.fd
    requires AimedFrom(y, c, c')
    ensures HandOk(y', c')
  {
    hide Serials;
  }

  lemma AimDoes(y: System, a: Action)
    requires a.Aim? && Enabled(y, a)
    ensures var y' := Step(y, a);
      && y'.s == y.s.(grabs := y'.s.grabs) && y'.made == y.made && y'.acked == y.acked
      && y'.cancelled == y.cancelled && y'.hangups == y.hangups && y'.fd == y.fd
      && (forall th :: th in y'.calls ==> th in y.calls && AimedFrom(y, y.calls[th], y'.calls[th]))
  {
    hide ReplyWords, ReadFd;
  }

  lemma AimHands(y: System, a: Action)
    requires AllHands(y) && a.Aim? && Enabled(y, a)
    ensures AllHands(Step(y, a))
  {
    AimDoes(y, a);
    hide Serials, HandOk, ReadFd, Step, Enabled;
    var y' := Step(y, a);
    forall th | th in y'.calls && !y'.calls[th].Acking? ensures HandOk(y', y'.calls[th]) {
      HandAimed(y, y', y.calls[th], y'.calls[th]);
    }
  }

  /** A final response stays in order while the threads hold the same records or fewer. */
  lemma FinalSame(y: System, y': System)
    requires AllFinal(y) && y'.s.sent == y.s.sent && y'.s.version == y.s.version && y'.made == y.made
    requires y'.acked == y.acked && y'.quiet == y.quiet && Serials(y'.s.pending) <= Serials(y.s.pending)
    requires forall n :: n in y'.cancelled ==> n in y.cancelled || n in Serials(y.s.pending)
    requires forall th :: th in y'.calls && !y'.calls[th].Acking? ==>
      th in y.calls && !y.calls[th].Acking? && y'.calls[th].rec == y.calls[th].rec
    ensures AllFinal(y')
  {
    hide Serials;
    forall i | 0 <= i < |y'.s.sent| && IsFinal(y'.s.sent[i]) ensures FinalOk(y', y'.s.sent[i]) {
      assert FinalOk(y, y.s.sent[i]);
    }
  }

  lemma AimKeeps(y: System, a: Action)
    requires Inv(y) && a.Aim? && Enabled(y, a)
    ensures Inv(Step(y, a))
  {
    hide AllPending, AllHands, AllFinal, OnceEach, Serials;
    PendingSame(y, Step(y, a));
    AimHands(y, a);
    FinalSame(y, Step(y, a));
  }

  lemma ReplyShape(version: int, r: Record, resp: Response)
    ensures var w := ReplyWords(version, r, resp);
      && |w| >= 3 && w[1] == r.token
      && w[0] == (if version >= 13 && r.acked then RESPONSE_SOLICITED_ACK_EXP else RESPONSE_SOLICITED)
  {
  }

  lemma WriteHands(y: System, a: Action)
    requires AllHands(y) && a.Write? && Enabled(y, a)
    ensures AllHands(Step(y, a))
  {
    hide Serials, ReplyWords;
    var y' := Step(y, a);
    forall th | th in y'.calls && !y'.calls[th].Acking? ensures HandOk(y', y'.calls[th]) {
      assert HandOk(y, y.calls[th]);
    }
  }

  /** A record in a thread's hands has had no final response. */
  lemma NoneYet(y: System, th: nat)
    requires AllFinal(y) && th in y.calls && !y.calls[th].Acking?
    ensures forall i :: 0 <= i < |y.s.sent| && IsFinal(y.s.sent[i]) ==>
      y.s.sent[i].serial != Some(y.calls[th].rec.serial)
  {
    hide Serials;
    forall i | 0 <= i < |y.s.sent| && IsFinal(y.s.sent[i])
      ensures y.s.sent[i].serial != Some(y.calls[th].rec.serial)
    {
      assert FinalOk(y, y.s.sent[i]);
    }
  }

  /** The responses sent before the write. */
  lemma WriteKeepsFinal(y: System, a: Action, i: nat)
    requires AllFinal(y) && a.Write? && Enabled(y, a)
    requires i < |y.s.sent| && IsFinal(y.s.sent[i])
    ensures FinalOk(Step(y, a), y.s.sent[i])
  {
    hide Serials, ReplyWords;
    NoneYet(y, a.th);
    hide AllFinal;
    assert FinalOk(y, y.s.sent[i]);
  }

  /** The response that the write sends. */
  lemma WriteMakesFinal(y: System, a: Action)
    requires AllHands(y) && a.Write? && Enabled(y, a) && |Step(y, a).s.sent| > |y.s.sent|
    ensures Step(y, a).s.sent[..|y.s.sent|] == y.s.sent
    ensures var m := Step(y, a).s.sent[|y.s.sent|]; IsFinal(m) ==> FinalOk(Step(y, a), m)
  {
    var c := y.calls[a.th];
    hide Serials;
    ReplyShape(y.s.version, c.rec, c.r);
    hide ReplyWords;
    assert HandOk(y, c);
  }

  lemma WriteKeeps(y: System, a: Action)
    requires Inv(y) && a.Write? && Enabled(y, a)
    ensures Inv(Step(y, a))
  {
    hide AllPending, Serials, ReplyWords, HandOk, FinalOk;
    var y' := Step(y, a);
    PendingSame(y, y');
    WriteHands(y, a);
    NoneYet(y, a.th);
    hide AllHands;
    if |y'.s.sent| > |y.s.sent| { WriteMakesFinal(y, a); }
    assert AllFinal(y') by {
      forall i | 0 <= i < |y'.s.sent| && IsFinal(y'.s.sent[i]) ensures FinalOk(y', y'.s.sent[i]) {
        if i < |y.s.sent| { WriteKeepsFinal(y, a, i); }
      }
    }
  }

  lemma CancelledPending(y: System)
    requires AllPending(y) && y.closing
    ensures var y' := Step(y, CancelPending);
      AllPending(y') && Serials(y'.s.pending) == Serials(y.s.pending) && !y.s.connected
  {
    var y' := Step(y, CancelPending);
    var p, p' := y.s.pending, y'.s.pending;
    assert forall i :: 0 <= i < |p| ==> p'[i].serial == p[i].serial && p'[i].addr == p[i].addr;
    assert Serials(p') == Serials(p);
    forall i | 0 <= i < |p| ensures PendingOk(y', p'[i]) {
      assert PendingOk(y, p[i]) && p[i].serial in Serials(p);
    }
  }

  /** Hanging up and accepting leave the list and the records alone. */
  lemma SocketPending(y: System, a: Action)
    requires AllPending(y) && (a.HangUp? || a.Accept?) && Enabled(y, a)
    ensures AllPending(Step(y, a)) && Step(y, a).s.pending == y.s.pending
    ensures y.closing ==> !y.s.connected
  {
    var p := y.s.pending;
    forall i | 0 <= i < |p| ensures PendingOk(Step(y, a), p[i]) {
      assert PendingOk(y, p[i]);
    }
  }

  lemma EventThreadHands(y: System, a: Action)
    requires AllHands(y) && (a.HangUp? || a.CancelPending? || a.Accept?) && Enabled(y, a)
    requires Serials(Step(y, a).s.pending) == Serials(y.s.pending) && (y.closing ==> !y.s.connected)
    ensures AllHands(Step(y, a))
  {
    hide Serials;
    var y' := Step(y, a);
    forall th | th in y'.calls && !y'.calls[th].Acking? ensures HandOk(y', y'.calls[th]) {
      assert HandOk(y, y.calls[th]);
    }
  }

  lemma EventThreadKeeps(y: System, a: Action)
    requires Inv(y) && (a.HangUp? || a.CancelPending? || a.Accept?) && Enabled(y, a)
    ensures Inv(Step(y, a))
  {
    hide AllPending, AllHands, AllFinal, OnceEach, Serials;
    if a.CancelPending? {
      CancelledPending(y);
    } else {
      SocketPending(y, a);
    }
    EventThreadHands(y, a);
    FinalSame(y, Step(y, a));
  }

  lemma {:induction false} RunKeeps(y: System, acts: seq<Action>)
    requires Inv(y) && ValidRun(y, acts)
    ensures Inv(Run(y, acts))
    decreases |acts|
  {
    hide Inv;
    if acts != [] {
      var a := acts[0];
      match a {
        case Incoming(_, _) => IncomingKeeps(y, a);
        case Local(_, _) => IncomingKeeps(y, a);
        case AckMark(_, _) => AckKeeps(y, a);
        case AckSend(_, _) => AckKeeps(y, a);
        case Take(_, _, _) => TakeKeeps(y, a);
        case Aim(_) => AimKeeps(y, a);
        case Write(_, _) => WriteKeeps(y, a);
        case HangUp => EventThreadKeeps(y, a);
        case CancelPending => EventThreadKeeps(y, a);
        case Accept(_) => EventThreadKeeps(y, a);
      }
      RunKeeps(Step(y, a), acts[1..]);
    }
  }

  // ---------------------------------------------------------------------------
  // What clients see.

  /** What a thread's write does, in any reachable state: the reply goes out exactly if the
      descriptor it read names the open connection, the reply is within the limit and the write
      succeeds; a failing write leaves the connection broken and every other case leaves
      everything as it was. The client that asked gets it exactly if, besides, the call is
      quiet; a call that is not quiet may still reach another client. */
  lemma CompletionAnswers(version: int, commands: int, acts: seq<Action>, th: nat, written: bool)
    requires ValidRun(Boot(version, commands), acts)
    requires var y := Run(Boot(version, commands), acts); th in y.calls && y.calls[th].Aimed?
    ensures var y := Run(Boot(version, commands), acts);
      var c := y.calls[th];
      var y' := Step(y, Write(th, written));
      var words := ReplyWords(y.s.version, c.rec, c.r);
      && c.rec.serial < |y.made| && !c.rec.local && !c.rec.cancelled
      && (if Hits(y, c.fd) && 4 * |words| <= 8192 && written then
            y'.s.sent == y.s.sent + [Message(y.s.conn, Some(c.rec.serial), words)] && y'.broken == y.broken
          else
            y'.s.sent == y.s.sent
            && (y'.broken != y.broken <==> Hits(y, c.fd) && 4 * |words| <= 8192))
      && (y'.s.sent == y.s.sent + [Message(y.made[c.rec.serial].conn, Some(c.rec.serial), words)] <==>
            Quiet(y, c) && !y.broken && 4 * |words| <= 8192 && written)
  {
    RunKeeps(Boot(version, commands), acts);
    var y := Run(Boot(version, commands), acts);
    hide Run, ReplyWords, AllPending, AllFinal, Boot;
    assert HandOk(y, y.calls[th]);
    WriteDoes(y, th, written);
  }

  lemma WriteDoes(y: System, th: nat, written: bool)
    requires th in y.calls && y.calls[th].Aimed? && HandOk(y, y.calls[th])
    ensures var c := y.calls[th];
      var y' := Step(y, Write(th, written));
      var words := ReplyWords(y.s.version, c.rec, c.r);
      && (if Hits(y, c.fd) && 4 * |words| <= MAX_COMMAND_BYTES && written then
            y'.s.sent == y.s.sent + [Message(y.s.conn, Some(c.rec.serial), words)] && y'.broken == y.broken
          else
            y'.s.sent == y.s.sent
            && (y'.broken != y.broken <==> Hits(y, c.fd) && 4 * |words| <= MAX_COMMAND_BYTES))
      && (y'.s.sent == y.s.sent + [Message(y.made[c.rec.serial].conn, Some(c.rec.serial), words)] <==>
            Quiet(y, c) && !y.broken && 4 * |words| <= MAX_COMMAND_BYTES && written)
  {
    hide ReplyWords, Serials;
    var c := y.calls[th];
    var words := ReplyWords(y.s.version, c.rec, c.r);
    var asker := y.made[c.rec.serial].conn;
    assert Quiet(y, c) && !y.broken ==> Hits(y, c.fd) && asker == y.s.conn;
    assert !Quiet(y, c) && y.s.connected ==> asker != y.s.conn;
    var m := Message(asker, Some(c.rec.serial), words);
    assert |y.s.sent + [m]| == |y.s.sent| + 1 && (y.s.sent + [m])[|y.s.sent|] == m;
  }

  /** A cancelled or local record is freed without a reply. */
  lemma CancelledIsSilent(y: System, th: nat)
    requires Enabled(y, Aim(th)) && (y.calls[th].rec.local || y.calls[th].rec.cancelled)
    ensures Step(y, Aim(th)) == y.(calls := y.calls - {th})
  {
  }

  /** With nothing in between, the steps of a completion are the one call of the list. */
  lemma Undisturbed(y: System, th: nat, addr: nat, r: Response)
    requires th !in y.calls && !y.broken && Find(y.s.pending, addr) < |y.s.pending|
    ensures var y1 := Step(y, Take(th, addr, r));
      var y2 := Step(y1, Aim(th));
      if y2.calls == y.calls then y2.s == Complete(y.s, addr, r)
      else Enabled(y2, Write(th, true)) && Step(y2, Write(th, true)).s == Complete(y.s, addr, r)
  {
    hide Find, RemoveAt, ReplyWords;
    var y1 := Step(y, Take(th, addr, r));
    assert y1.calls - {th} == y.calls;
  }

  lemma {:induction false} OneMoreStep(y: System, acts: seq<Action>, a: Action)
    requires ValidRun(y, acts) && Enabled(Run(y, acts), a)
    ensures ValidRun(y, acts + [a]) && Run(y, acts + [a]) == Step(Run(y, acts), a)
    decreases |acts|
  {
    hide Step, Enabled;
    if acts == [] {
      assert acts + [a] == [a] && [a][1..] == [];
    } else {
      assert (acts + [a])[1..] == acts[1..] + [a];
      OneMoreStep(Step(y, acts[0]), acts[1..], a);
    }
  }

  /** One more step, to a given state. */
  lemma StepTo(y0: System, acts: seq<Action>, a: Action, y: System)
    requires ValidRun(y0, acts) && Enabled(Run(y0, acts), a) && Step(Run(y0, acts), a) == y
    ensures ValidRun(y0, acts + [a]) && Run(y0, acts + [a]) == y
  {
    hide Step, Enabled;
    OneMoreStep(y0, acts, a);
  }

  /** A server of version 13 with 150 known requests, one command made, on descriptor 7. */
  function OneMade(pending: seq<Record>, conn: nat, calls: map<nat, Call>, answers: map<nat, Response>): System {
    System(Server(13, 150, pending, [], true, conn, 0, 0), [Made(77, 1, false, 1)], {}, {},
           calls, 7, false, false, 0, map[], answers, [])
  }

  /** A command comes in and its record is taken off the list. */
  lemma TakenInHand(rec: Record, r: Response) returns (acts: seq<Action>)
    requires rec == Record(100, 0, 77, 1, false, false, false)
    ensures ValidRun(Boot(13, 150), acts)
    ensures Run(Boot(13, 150), acts) == OneMade([], 1, map[0 := InHand(rec, r, true, 0)], map[0 := r])
  {
    var y0 := Boot(13, 150);
    acts := [];
    assert ValidRun(y0, acts) && Run(y0, acts) == y0;
    hide Run, ValidRun;
    StepTo(y0, acts, Accept(7), y0.(s := Connect(y0.s), fd := 7));
    acts := acts + [Accept(7)];
    StepTo(y0, acts, Incoming([1, 77], Some(100)), OneMade([rec], 1, map[], map[]));
    acts := acts + [Incoming([1, 77], Some(100))];
    StepTo(y0, acts, Take(0, 100, r), OneMade([], 1, map[0 := InHand(rec, r, true, 0)], map[0 := r]));
    acts := acts + [Take(0, 100, r)];
  }

  /** Then the client hangs up and the next one connects. */
  lemma HangUpInBetween(y0: System, before: seq<Action>, calls: map<nat, Call>, answers: map<nat, Response>)
    returns (acts: seq<Action>)
    requires ValidRun(y0, before) && Run(y0, before) == OneMade([], 1, calls, answers)
    ensures ValidRun(y0, acts) && Run(y0, acts) == OneMade([], 2, calls, answers).(hangups := 1)
  {
    hide Run, ValidRun;
    var y := OneMade([], 1, calls, answers).(hangups := 1);
    var off := y.(s := y.s.(connected := false));
    StepTo(y0, before, HangUp, off.(closing := true));
    acts := before + [HangUp];
    assert Serials([]) == {};
    StepTo(y0, acts, CancelPending, off);
    acts := acts + [CancelPending];
    StepTo(y0, acts, Accept(7), OneMade([], 2, calls, answers).(hangups := 1));
    acts := acts + [Accept(7)];
  }

  /** A run in which the reply to one client's command goes to the next client: the record was
      off the list when the first client hung up. */
  lemma ReplyToAnotherClient() returns (acts: seq<Action>)
    ensures ValidRun(Boot(13, 150), acts)
    ensures var y := Run(Boot(13, 150), acts);
      && y.made == [Made(77, 1, false, 1)]
      && y.s.sent == [Message(2, Some(0), [RESPONSE_SOLICITED, 77, 0])]
      && y.quiet == map[0 := false] && y.cancelled == {}
  {
    var y0 := Boot(13, 150);
    var rec, r := Record(100, 0, 77, 1, false, false, false), Response(0, false, [], 0);
    acts := TakenInHand(rec, r);
    acts := HangUpInBetween(y0, acts, map[0 := InHand(rec, r, true, 0)], map[0 := r]);
    var y := OneMade([], 2, map[0 := Aimed(rec, r, true, 0, Some(7))], map[0 := r])
      .(hangups := 1, built := [(0, [RESPONSE_SOLICITED, 77, 0])]);
    hide Run, ValidRun;
    StepTo(y0, acts, Aim(0), y);
    acts := acts + [Aim(0)];
    OneMoreStep(y0, acts, Write(0, true));
    acts := acts + [Write(0, true)];
  }
}
