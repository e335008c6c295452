// What the messages of a run say: every reply in terms of what the vendor completed the request
// with, every acknowledgement, and the wake lock calls that go with the replies.
module RequestAnswers {
  import opened Options
  import opened Sequences
  import opened Requests
  import opened RequestRun

  /** The words of a reply to the record with serial number n. */
  predicate Answers(y: System, n: nat, words: seq<int>) {
    && n < |y.made| && n in y.answers
    && |words| >= 3
    && words[0] == (if y.s.version >= 13 && n in y.acked then 3 else 0)
    && words[1] == y.made[n].token
    && var r := y.answers[n];
    if y.made[n].request == 23 || r.present then
      words[2] == (if r.ret != 0 then r.ret else r.error) && words[3..] == r.payload
    else words[2] == r.error && |words| == 3
  }

  predicate Begins(words: seq<int>, kind: int) {
    |words| > 0 && words[0] == kind
  }

  /** The number of replies that expect an acknowledgement. */
  function Expecting(built: seq<(nat, seq<int>)>): nat {
    if built == [] then 0
    else Expecting(built[..|built| - 1]) + (if Begins(built[|built| - 1].1, 3) then 1 else 0)
  }

  // ---------------------------------------------------------------------------
  // What every step keeps.

  predicate Ties(y: System, rec: Record) {
    && rec.serial < |y.made|
    && y.made[rec.serial].token == rec.token && y.made[rec.serial].request == rec.request
    && (rec.acked <==> rec.serial in y.acked)
  }

  predicate ListTied(y: System) {
    && (forall i :: 0 <= i < |y.s.pending| ==> Ties(y, y.s.pending[i]) && y.s.pending[i].serial !in y.answers)
    && (forall n :: n in y.answers ==> n < |y.made|)
    && (forall n :: n in y.acked ==> n < |y.made|)
    && (forall i, j :: 0 <= i < j < |y.s.pending| ==> y.s.pending[i].serial != y.s.pending[j].serial)
  }

  predicate HandTied(y: System, c: Call) {
    if c.Acking? then c.serial < |y.made| && c.token == y.made[c.serial].token && c.serial in y.acked
    else
      && Ties(y, c.rec) && c.rec.serial in y.answers && c.r == y.answers[c.rec.serial]
      && (c.Aimed? ==> (c.rec.serial, ReplyWords(y.s.version, c.rec, c.r)) in y.built)
  }

  predicate HandsTied(y: System) {
    forall th :: th in y.calls ==> HandTied(y, y.calls[th])
  }

  predicate BuiltOk(y: System) {
    && (forall b :: b in y.built ==> Answers(y, b.0, b.1))
    && y.s.grabs == Expecting(y.built)
  }

  /** A message is the refusal of an unknown request, an acknowledgement, or a reply. */
  predicate MessageOk(y: System, m: Message) {
    if m.serial.None? then |m.words| == 3 && m.words[0] == 0 && m.words[2] == 2
    else if Begins(m.words, 2) then
      var n := m.serial.value;
      n < |y.made| && m.words == [2, y.made[n].token] && n in y.acked
    else (m.serial.value, m.words) in y.built
  }

  predicate MessagesOk(y: System) {
    forall m :: m in y.s.sent ==> MessageOk(y, m)
  }

  predicate WordsOk(y: System) {
    ListTied(y) && HandsTied(y) && BuiltOk(y) && MessagesOk(y)
  }

  /** What is known of records never changes, and what was completed is no longer marked. */
  predicate Extends(y: System, y': System) {
    && y'.s.version == y.s.version && |y.made| <= |y'.made| && y'.made[..|y.made|] == y.made
    && (forall n :: n in y.answers ==> n in y'.answers && y'.answers[n] == y.answers[n])
    && (forall n :: n in y.answers ==> (n in y'.acked <==> n in y.acked))
    && (forall n :: n in y.acked ==> n in y'.acked)
    && (forall b :: b in y.built ==> b in y'.built)
  }

  lemma MadeKept(y: System, y': System, n: nat)
    requires Extends(y, y') && n < |y.made|
    ensures n < |y'.made| && y'.made[n] == y.made[n]
  {
    assert y'.made[..|y.made|][n] == y.made[n];
  }

  lemma AnswersKept(y: System, y': System, n: nat, words: seq<int>)
    requires Extends(y, y') && Answers(y, n, words)
    ensures Answers(y', n, words)
  {
    MadeKept(y, y', n);
  }

  lemma HandKept(y: System, y': System, c: Call)
    requires Extends(y, y') && HandTied(y, c)
    ensures HandTied(y', c)
  {
    hide ReplyWords;
    MadeKept(y, y', if c.Acking? then c.serial else c.rec.serial);
  }

  lemma MessageKept(y: System, y': System, m: Message)
    requires Extends(y, y') && MessageOk(y, m)
    ensures MessageOk(y', m)
  {
    if m.serial.Some? && Begins(m.words, 2) {
      MadeKept(y, y', m.serial.value);
    }
  }

  lemma BuiltKept(y: System, y': System)
    requires Extends(y, y') && BuiltOk(y) && y'.built == y.built && y'.s.grabs == y.s.grabs
    ensures BuiltOk(y')
  {
    hide Answers, Extends;
    forall b | b in y.built ensures Answers(y', b.0, b.1) {
      AnswersKept(y, y', b.0, b.1);
    }
  }

  lemma MessagesKept(y: System, y': System)
    requires Extends(y, y') && MessagesOk(y)
    requires y'.s.sent == y.s.sent ||
      (|y'.s.sent| == |y.s.sent| + 1 && y'.s.sent[..|y.s.sent|] == y.s.sent && MessageOk(y', y'.s.sent[|y.s.sent|]))
    ensures MessagesOk(y')
  {
    hide MessageOk, Extends;
    forall m | m in y'.s.sent ensures MessageOk(y', m) {
      if m in y.s.sent {
        MessageKept(y, y', m);
      } else {
        assert y'.s.sent == y.s.sent + [y'.s.sent[|y.s.sent|]];
      }
    }
  }

  lemma HandsKept(y: System, y': System, th: nat)
    requires Extends(y, y') && HandsTied(y)
    requires forall u :: u in y'.calls && u != th ==> u in y.calls && y'.calls[u] == y.calls[u]
    requires th in y'.calls ==> HandTied(y', y'.calls[th])
    ensures HandsTied(y')
  {
    hide HandTied, Extends;
    forall u | u in y'.calls && u != th ensures HandTied(y', y'.calls[u]) {
      HandKept(y, y', y.calls[u]);
    }
  }

  // ---------------------------------------------------------------------------
  // The steps.

  /** Nothing is forgotten, and nobody's answer or mark changes. */
  predicate Quietly(y: System, y': System) {
    && y'.s.version == y.s.version && y'.made == y.made && y'.answers == y.answers
    && y'.acked == y.acked && y'.built == y.built && y'.s.grabs == y.s.grabs
  }

  lemma NewRecordTied(y: System, rec: Record, m: Made)
    requires WordsOk(y) && rec.serial == |y.made| && !rec.acked
    requires m.token == rec.token && m.request == rec.request
    ensures WordsOk(y.(s := y.s.(pending := [rec] + y.s.pending), made := y.made + [m]))
  {
    var y' := y.(s := y.s.(pending := [rec] + y.s.pending), made := y.made + [m]);
    assert Extends(y, y');
    assert ListTied(y') by {
      assert forall i :: 0 < i < |y'.s.pending| ==> y'.s.pending[i] == y.s.pending[i - 1];
    }
    hide ListTied, Extends, HandsTied, BuiltOk, MessagesOk;
    MessagesKept(y, y');
    BuiltKept(y, y');
    assert HandsTied(y') by {
      forall u | u in y'.calls ensures HandTied(y', y'.calls[u]) { HandKept(y, y', y.calls[u]); }
    }
  }

  /** A step that sends one message or none, and ends at most the call of thread th. */
  lemma SendingKeeps(y: System, y': System, th: nat)
    requires WordsOk(y) && Quietly(y, y') && y'.s.pending == y.s.pending
    requires forall u :: u in y'.calls && u != th ==> u in y.calls && y'.calls[u] == y.calls[u]
    requires th !in y'.calls || (th in y.calls && y'.calls[th] == y.calls[th])
    requires y'.s.sent == y.s.sent ||
      (|y'.s.sent| == |y.s.sent| + 1 && y'.s.sent[..|y.s.sent|] == y.s.sent && MessageOk(y, y'.s.sent[|y.s.sent|]))
    ensures WordsOk(y')
  {
    assert Extends(y, y');
    assert ListTied(y');
    hide ListTied, Extends, MessageOk, HandTied;
    BuiltKept(y, y');
    if |y'.s.sent| > |y.s.sent| { MessageKept(y, y', y'.s.sent[|y.s.sent|]); }
    MessagesKept(y, y');
    if th in y'.calls { HandKept(y, y', y.calls[th]); }
    HandsKept(y, y', th);
  }

  lemma IncomingTied(y: System, a: Action)
    requires WordsOk(y) && Enabled(y, a) && (a.Incoming? || a.Local?)
    ensures WordsOk(Step(y, a))
  {
    hide WordsOk;
    match a
    case Incoming(words, addr) =>
      if Parse(words, y.s.commands).Request? && addr.Some? {
        NewRecordTied(y, Record(addr.value, |y.made|, words[1], words[0], false, false, false),
                      Made(words[1], words[0], false, y.s.conn));
      } else {
        SendingKeeps(y, Step(y, a), 0);
      }
    case Local(request, addr) =>
      if addr.Some? {
        NewRecordTied(y, Record(addr.value, |y.made|, LOCAL_TOKEN, request, true, false, false),
                      Made(LOCAL_TOKEN, request, true, y.s.conn));
      } else {
        SendingKeeps(y, Step(y, a), 0);
      }
  }

  lemma MarkedTied(y: System, k: nat)
    requires ListTied(y) && k < |y.s.pending|
    ensures ListTied(Marked(y, k)) && Extends(y, Marked(y, k))
  {
    var y' := Marked(y, k);
    var p, p' := y.s.pending, y'.s.pending;
    assert forall i :: 0 <= i < |p| ==> p'[i] == if i == k then p[k].(acked := true) else p[i];
    assert Ties(y, p[k]);
  }

  lemma AckMarkTied(y: System, a: Action)
    requires WordsOk(y) && a.AckMark? && Enabled(y, a)
    ensures WordsOk(Step(y, a))
  {
    var y' := Step(y, a);
    var k := Find(y.s.pending, a.addr);
    if k < |y.s.pending| {
      MarkedTied(y, k);
      assert Ties(y, y.s.pending[k]);
      var y1 := Marked(y, k);
      assert y' == y1.(calls := y'.calls);
      assert ListTied(y') && Extends(y, y');
      assert HandTied(y', y'.calls[a.th]);
      hide ListTied, Extends, HandTied, Find;
      BuiltKept(y, y');
      MessagesKept(y, y');
      HandsKept(y, y', a.th);
    }
  }

  lemma TakenTied(y: System, k: nat, th: nat, r: Response)
    requires ListTied(y) && k < |y.s.pending|
    ensures ListTied(Taken(y, k, th, r)) && Extends(y, Taken(y, k, th, r))
  {
    var p, y' := y.s.pending, Taken(y, k, th, r);
    ElementsLeft(p, k);
    assert Ties(y, p[k]);
    hide RemoveAt;
    forall i | 0 <= i < |y'.s.pending|
      ensures Ties(y', y'.s.pending[i]) && y'.s.pending[i].serial !in y'.answers
    {
      assert Ties(y, p[if i < k then i else i + 1]);
    }
  }

  lemma TakeTied(y: System, a: Action)
    requires WordsOk(y) && a.Take? && Enabled(y, a)
    ensures WordsOk(Step(y, a))
  {
    var k := Find(y.s.pending, a.addr);
    if k < |y.s.pending| {
      var y' := Taken(y, k, a.th, a.r);
      TakenTied(y, k, a.th, a.r);
      assert Ties(y, y.s.pending[k]);
      assert HandTied(y', y'.calls[a.th]);
      hide ListTied, Extends, HandTied, Find, RemoveAt;
      BuiltKept(y, y');
      MessagesKept(y, y');
      HandsKept(y, y', a.th);
    }
  }

  lemma ReplyAnswers(y: System, rec: Record, r: Response)
    requires Ties(y, rec) && rec.serial in y.answers && r == y.answers[rec.serial]
    ensures Answers(y, rec.serial, ReplyWords(y.s.version, rec, r))
    ensures Begins(ReplyWords(y.s.version, rec, r), 3) <==> y.s.version >= 13 && rec.acked
    ensures !Begins(ReplyWords(y.s.version, rec, r), 2)
  {
  }

  /** The reply joins the replies built, and the wake lock is taken if it expects an answer. */
  lemma BuiltGrows(y: System, th: nat, c: Call)
    requires BuiltOk(y) && c.InHand? && HandTied(y, c)
    ensures BuiltOk(Built(y, th, c))
  {
    ReplyAnswers(y, c.rec, c.r);
    hide ReplyWords;
    var y' := Built(y, th, c);
    var b := (c.rec.serial, ReplyWords(y.s.version, c.rec, c.r));
    assert y'.built[..|y'.built| - 1] == y.built && y'.built[|y'.built| - 1] == b;
    hide Answers, Ties;
    assert Extends(y, y');
    AnswersKept(y, y', b.0, b.1);
    forall e | e in y'.built ensures Answers(y', e.0, e.1) {
      if e in y.built { AnswersKept(y, y', e.0, e.1); }
    }
  }

  lemma BuiltTied(y: System, th: nat, c: Call)
    requires WordsOk(y) && c.InHand? && HandTied(y, c)
    ensures WordsOk(Built(y, th, c))
  {
    var y' := Built(y, th, c);
    BuiltGrows(y, th, c);
    hide ReplyWords, BuiltOk;
    assert Extends(y, y') && ListTied(y');
    assert HandTied(y', y'.calls[th]) by {
      assert y'.built[|y.built|] == (c.rec.serial, ReplyWords(y.s.version, c.rec, c.r));
    }
    hide ListTied, Extends, HandTied;
    MessagesKept(y, y');
    HandsKept(y, y', th);
  }

  lemma AimTied(y: System, a: Action)
    requires WordsOk(y) && a.Aim? && Enabled(y, a)
    ensures WordsOk(Step(y, a))
  {
    var c := y.calls[a.th];
    assert HandTied(y, c);
    hide WordsOk, Built;
    if c.rec.local || c.rec.cancelled {
      SendingKeeps(y, Step(y, a), a.th);
    } else {
      BuiltTied(y, a.th, c);
    }
  }

  lemma AckSendTied(y: System, a: Action)
    requires WordsOk(y) && a.AckSend? && Enabled(y, a)
    ensures WordsOk(Step(y, a))
  {
    assert HandTied(y, y.calls[a.th]);
    hide WordsOk, Ties, Answers;
    SendingKeeps(y, Step(y, a), a.th);
  }

  lemma WriteTied(y: System, a: Action)
    requires WordsOk(y) && a.Write? && Enabled(y, a)
    ensures WordsOk(Step(y, a))
  {
    var c := y.calls[a.th];
    assert HandTied(y, c);
    ReplyAnswers(y, c.rec, c.r);
    hide ReplyWords, WordsOk, Ties, Answers;
    SendingKeeps(y, Step(y, a), a.th);
  }

  lemma EventThreadTied(y: System, a: Action)
    requires WordsOk(y) && (a.HangUp? || a.CancelPending? || a.Accept?) && Enabled(y, a)
    ensures WordsOk(Step(y, a))
  {
    var y' := Step(y, a);
    if a.CancelPending? {
      var y1 := y'.(s := y'.s.(pending := y.s.pending));
      assert WordsOk(y1) by {
        hide WordsOk;
        SendingKeeps(y, y1, 0);
      }
      var p, p' := y.s.pending, y'.s.pending;
      assert forall i :: 0 <= i < |p| ==> Ties(y, p[i]) && p'[i] == p[i].(cancelled := true);
      assert ListTied(y') && Extends(y1, y');
      hide ListTied, Extends, HandTied;
      BuiltKept(y1, y');
      MessagesKept(y1, y');
      forall th | th in y'.calls ensures HandTied(y', y'.calls[th]) { HandKept(y1, y', y1.calls[th]); }
    } else {
      hide WordsOk;
      SendingKeeps(y, y', 0);
    }
  }

  lemma {:induction false} RunKeepsWords(y: System, acts: seq<Action>)
    requires WordsOk(y) && ValidRun(y, acts)
    ensures WordsOk(Run(y, acts))
    decreases |acts|
  {
    hide WordsOk;
    if acts != [] {
      var a := acts[0];
      match a {
        case Incoming(_, _) => IncomingTied(y, a);
        case Local(_, _) => IncomingTied(y, a);
        case AckMark(_, _) => AckMarkTied(y, a);
        case AckSend(_, _) => AckSendTied(y, a);
        case Take(_, _, _) => TakeTied(y, a);
        case Aim(_) => AimTied(y, a);
        case Write(_, _) => WriteTied(y, a);
        case HangUp => EventThreadTied(y, a);
        case CancelPending => EventThreadTied(y, a);
        case Accept(_) => EventThreadTied(y, a);
      }
      RunKeepsWords(Step(y, a), acts[1..]);
    }
  }

  lemma BootIsOk(version: int, commands: int)
    ensures WordsOk(Boot(version, commands)) && RequestRun.Inv(Boot(version, commands))
  {
  }

  lemma SentAnswers(y: System, i: nat)
    requires MessagesOk(y) && BuiltOk(y) && i < |y.s.sent| && IsFinal(y.s.sent[i])
    ensures (y.s.sent[i].serial.value, y.s.sent[i].words) in y.built
    ensures Answers(y, y.s.sent[i].serial.value, y.s.sent[i].words)
  {
    hide Answers;
    assert MessageOk(y, y.s.sent[i]);
  }

  lemma FinalIs(y: System, i: nat)
    requires RequestRun.Inv(y) && i < |y.s.sent| && IsFinal(y.s.sent[i])
    ensures var n := y.s.sent[i].serial.value;
      && n < |y.made| && !y.made[n].local && n !in y.cancelled
      && n in y.quiet && (y.s.sent[i].conn == y.made[n].conn <==> y.quiet[n])
  {
    hide AllPending, AllHands, OnceEach;
    assert FinalOk(y, y.s.sent[i]);
  }

  /** In every run each record gets at most one final response. It answers what the vendor
      completed the request with: it asks for an acknowledgement exactly if the request was
      acknowledged before (version 13 and later), carries the record's own token, then the error
      of the response function if that was called and failed, and the vendor's error otherwise,
      and then the payload if the response function was called. Records cancelled by a disconnect
      while listed, and local records, get none. It reaches the client that sent the command
      exactly if a client was connected when the record left the list and none has hung up between
      then and the write. The wake lock is taken once for each reply that asks for an
      acknowledgement, and for nothing else. */
  lemma ResponseTheorem(version: int, commands: int, acts: seq<Action>)
    requires ValidRun(Boot(version, commands), acts)
    ensures var y := Run(Boot(version, commands), acts);
      && (forall i, j :: 0 <= i < j < |y.s.sent| && IsFinal(y.s.sent[i]) && IsFinal(y.s.sent[j]) ==>
            y.s.sent[i].serial != y.s.sent[j].serial)
      && (forall i :: 0 <= i < |y.s.sent| && IsFinal(y.s.sent[i]) ==>
            var m := y.s.sent[i];
            var n := m.serial.value;
            && n < |y.made| && n in y.quiet
            && (m.conn == y.made[n].conn <==> y.quiet[n])
            && !y.made[n].local && n !in y.cancelled
            && Answers(y, n, m.words) && (n, m.words) in y.built)
      && (forall b :: b in y.built ==> Answers(y, b.0, b.1))
      && y.s.grabs == Expecting(y.built)
  {
    BootIsOk(version, commands);
    RequestRun.RunKeeps(Boot(version, commands), acts);
    RunKeepsWords(Boot(version, commands), acts);
    var y := Run(Boot(version, commands), acts);
    hide Run, Answers, ListTied, HandsTied, RequestRun.Inv;
    forall i | 0 <= i < |y.s.sent| && IsFinal(y.s.sent[i])
      ensures var n := y.s.sent[i].serial.value;
        && n < |y.made| && n in y.quiet && (y.s.sent[i].conn == y.made[n].conn <==> y.quiet[n])
        && !y.made[n].local && n !in y.cancelled
        && Answers(y, n, y.s.sent[i].words) && (n, y.s.sent[i].words) in y.built
    {
      SentAnswers(y, i);
      FinalIs(y, i);
    }
    FinalsOnce(y);
  }

  lemma FinalsOnce(y: System)
    requires RequestRun.Inv(y)
    ensures forall i, j :: 0 <= i < j < |y.s.sent| && IsFinal(y.s.sent[i]) && IsFinal(y.s.sent[j]) ==>
      y.s.sent[i].serial != y.s.sent[j].serial
  {
    hide AllPending, AllHands, AllFinal;
  }

  /** Everything else that is sent: acknowledgements, with the token of a record that was
      acknowledged, and refusals of requests that are not known. */
  lemma OtherMessages(version: int, commands: int, acts: seq<Action>, i: nat)
    requires ValidRun(Boot(version, commands), acts)
    requires i < |Run(Boot(version, commands), acts).s.sent|
    requires !IsFinal(Run(Boot(version, commands), acts).s.sent[i])
    ensures var y := Run(Boot(version, commands), acts);
      var m := y.s.sent[i];
      if m.serial.Some? then
        var n := m.serial.value;
        n < |y.made| && n in y.acked && m.words == [2, y.made[n].token]
      else |m.words| == 3 && m.words[0] == 0 && m.words[2] == 2
  {
    BootIsOk(version, commands);
    RunKeepsWords(Boot(version, commands), acts);
    var y := Run(Boot(version, commands), acts);
    hide Run, ListTied, HandsTied, BuiltOk;
    assert MessageOk(y, y.s.sent[i]);
  }

  /** In every reachable state the address of a listed record names that record alone: an
      acknowledgement marks it, and a completion takes it, and nothing else, off the list. */
  lemma AddressNames(version: int, commands: int, acts: seq<Action>, k: nat, th: nat, r: Response)
    requires ValidRun(Boot(version, commands), acts)
    requires var y := Run(Boot(version, commands), acts); k < |y.s.pending| && th !in y.calls
    ensures var y := Run(Boot(version, commands), acts);
      var rec := y.s.pending[k];
      var marked, taken := Step(y, AckMark(th, rec.addr)), Step(y, Take(th, rec.addr, r));
      && marked.s.pending == y.s.pending[k := rec.(acked := true)]
      && marked.acked == y.acked + {rec.serial} && marked.calls == y.calls[th := Acking(rec.serial, rec.token)]
      && taken.s.pending == y.s.pending[..k] + y.s.pending[k + 1..]
      && taken.calls == y.calls[th := InHand(rec, r, y.s.connected, y.hangups)]
      && taken.answers == y.answers[rec.serial := r]
  {
    BootIsOk(version, commands);
    RequestRun.RunKeeps(Boot(version, commands), acts);
    var y := Run(Boot(version, commands), acts);
    hide Run, AllHands, AllFinal, OnceEach;
    assert DistinctAddrs(y.s.pending);
    hide AllPending;
    var f := Find(y.s.pending, y.s.pending[k].addr);
    assert f == k;
  }

  /** A record in a thread's hands that is neither local nor cancelled gets a reply; an
      acknowledgement goes to the open connection if the write succeeds, unless the record was
      cancelled before. */
  lemma RepliesAreBuilt(y: System, th: nat, written: bool)
    requires th in y.calls && !y.calls[th].Aimed?
    ensures var c := y.calls[th];
      if c.InHand? then
        var y' := Step(y, Aim(th));
        if c.rec.local || c.rec.cancelled then y'.built == y.built && th !in y'.calls
        else
          && |y'.built| == |y.built| + 1 && y'.built[..|y.built|] == y.built
          && y'.built[|y.built|].0 == c.rec.serial
          && th in y'.calls && y'.calls[th].Aimed? && y'.calls[th].fd == if y.s.connected then Some(y.fd) else None
      else
        var y' := Step(y, AckSend(th, written));
        && th !in y'.calls
        && y'.s.sent == (if y.s.connected && !y.broken && written && c.serial !in y.cancelled
                         then y.s.sent + [Message(y.s.conn, Some(c.serial), [2, c.token])] else y.s.sent)
  {
    hide ReplyWords;
  }

  /** What a command buffer does in any state with a client: 800 is the client's
      acknowledgement; a request number from 1 to the number of known requests makes a record, if
      there is memory; any other number is refused; and a buffer without two words is dropped. */
  lemma CommandIs(y: System, words: seq<int>, block: Option<nat>)
    requires Enabled(y, Incoming(words, block))
    ensures var y' := Step(y, Incoming(words, block));
      && y'.s.releases == y.s.releases + (if |words| >= 2 && words[0] == 800 then 1 else 0)
      && (if |words| >= 2 && words[0] != 800 && 1 <= words[0] < y.s.commands && block.Some? then
            && |y'.s.pending| == |y.s.pending| + 1 && y'.s.pending[1..] == y.s.pending
            && y'.s.pending[0] == Record(block.value, |y.made|, words[1], words[0], false, false, false)
            && y'.made == y.made + [Made(words[1], words[0], false, y.s.conn)]
          else y'.s.pending == y.s.pending && y'.made == y.made)
      && (if |words| >= 2 && words[0] != 800 && !(1 <= words[0] < y.s.commands) then
            y'.s.sent == y.s.sent + [Message(y.s.conn, None, [0, words[1], 2])]
          else y'.s.sent == y.s.sent)
  {
  }

  /** A local request makes a record that no client's token can name. */
  lemma LocalIs(y: System, request: int, block: Option<nat>)
    requires Enabled(y, Local(request, block))
    ensures var y' := Step(y, Local(request, block));
      && y'.s.sent == y.s.sent
      && if block.Some? then
           y'.s.pending == [Record(block.value, |y.made|, 0xffff_ffff, request, true, false, false)] + y.s.pending
         else y'.s.pending == y.s.pending
  {
  }
}
