// Splitting an init string into AT commands, and where the completion event comes from.
module InitStrings {
  import opened Options

  /** A queued command and the final flag of its context. */
  datatype Cmd = Cmd(text: string, isFinal: bool)

  // ---------------------------------------------------------------------------
  // Splitting.

  /** The segments between the bars; there is always at least one. */
  function Split(s: string): (ss: seq<string>)
    ensures |ss| >= 1
    decreases |s|
  {
    var e := BarAt(s, 0);
    if e == |s| then [s] else [s[..e]] + Split(s[e + 1..])
  }

  /** strchr(s + from, '|'): the place of the next bar, or the end. */
  function BarAt(s: string, from: nat): (e: nat)
    requires from <= |s|
    ensures from <= e <= |s| && (e < |s| ==> s[e] == '|')
    ensures forall i :: from <= i < e ==> s[i] != '|'
    decreases |s| - from
  {
    if from == |s| || s[from] == '|' then from else BarAt(s, from + 1)
  }

  function Join(ss: seq<string>): string
    requires |ss| >= 1
  {
    if |ss| == 1 then ss[0] else ss[0] + "|" + Join(ss[1..])
  }

  predicate NoBars(ss: seq<string>) {
    forall i :: 0 <= i < |ss| ==> '|' !in ss[i]
  }

  /** The segments put together again are the string, and hold no bar. */
  lemma {:induction false} JoinOfSplit(s: string)
    ensures Join(Split(s)) == s && NoBars(Split(s))
    decreases |s|
  {
    var e := BarAt(s, 0);
    if e < |s| {
      JoinOfSplit(s[e + 1..]);
      assert Split(s)[1..] == Split(s[e + 1..]);
      assert s == s[..e] + "|" + s[e + 1..];
    }
  }

  /** And no other segments do that. */
  lemma {:induction false} SplitOfJoin(ss: seq<string>)
    requires |ss| >= 1 && NoBars(ss)
    ensures Split(Join(ss)) == ss
    decreases |ss|
  {
    var s := Join(ss);
    if |ss| == 1 {
      assert BarAt(s, 0) == |s|;
    } else {
      SplitOfJoin(ss[1..]);
      assert s[|ss[0]|] == '|';
      assert forall i :: 0 <= i < |ss[0]| ==> s[i] == ss[0][i];
      assert BarAt(s, 0) == |ss[0]|;
      assert s[..|ss[0]|] == ss[0] && s[|ss[0]| + 1..] == Join(ss[1..]);
    }
  }

  // ---------------------------------------------------------------------------
  // The commands.

  function Text(segment: string): string {
    "AT" + segment + "\r"
  }

  /** The commands for some last segments of an init string. */
  function Commands(ss: seq<string>): seq<Cmd> {
    if ss == [] then []
    else (if ss[0] == "" then [] else [Cmd(Text(ss[0]), |ss| == 1)]) + Commands(ss[1..])
  }

  /** The non-empty segments in their order. */
  function NonEmpty(ss: seq<string>): seq<string> {
    if ss == [] then [] else (if ss[0] == "" then [] else [ss[0]]) + NonEmpty(ss[1..])
  }

  function Finals(cmds: seq<Cmd>): nat {
    if cmds == [] then 0 else (if cmds[0].isFinal then 1 else 0) + Finals(cmds[1..])
  }

  /** The characters AT, the segment, and a carriage return. */
  predicate Wraps(text: string, segment: string) {
    |text| == |segment| + 3 && text[0] == 'A' && text[1] == 'T' && text[2..|text| - 1] == segment
    && text[|text| - 1] == '\r'
  }

  lemma TextWraps(segment: string)
    ensures Wraps(Text(segment), segment)
  {
    var t := Text(segment);
    assert t[2..|t| - 1] == segment;
  }

  /** The commands carry the non-empty segments in order, each as AT, segment and carriage return;
      the last one is final exactly if the last segment is not empty, and no other is. */
  lemma {:induction false} CommandsAre(ss: seq<string>)
    requires |ss| >= 1
    ensures var cmds, ne := Commands(ss), NonEmpty(ss);
      && |cmds| == |ne|
      && (forall i :: 0 <= i < |cmds| ==> Wraps(cmds[i].text, ne[i]))
      && (forall i :: 0 <= i < |cmds| ==> (cmds[i].isFinal <==> i == |cmds| - 1 && ss[|ss| - 1] != ""))
      && (ss[|ss| - 1] != "" ==> cmds != [])
      && Finals(cmds) == if ss[|ss| - 1] != "" then 1 else 0
  {
    TextWraps(ss[0]);
    hide Text, Wraps;
    if |ss| > 1 {
      CommandsAre(ss[1..]);
      assert ss[1..][|ss| - 2] == ss[|ss| - 1];
      if ss[0] == "" {
        assert Commands(ss) == Commands(ss[1..]) && NonEmpty(ss) == NonEmpty(ss[1..]);
      } else {
        assert Commands(ss)[1..] == Commands(ss[1..]) && NonEmpty(ss)[1..] == NonEmpty(ss[1..]);
      }
    } else {
      assert Commands(ss[1..]) == [] && NonEmpty(ss[1..]) == [];
    }
  }

  // ---------------------------------------------------------------------------
  // Sending.

  const MAX_BUFFER_SIZE := 1024

  /** What a run of the loop leaves: the commands queued, how often it triggered the completion
      event itself, and whether it got through. */
  datatype Sent = Sent(queued: seq<Cmd>, direct: nat, ok: bool)

  /** The loop on its last segments, with k commands tried before; works tells whether command
      k can be allocated and queued. */
  function Send(ss: seq<string>, k: nat, works: nat -> bool): Sent {
    if ss == [] then Sent([], 0, true)
    else if ss[0] == "" then
      var rest := Send(ss[1..], k, works);
      rest.(direct := rest.direct + if |ss| == 1 then 1 else 0)
    else if |Text(ss[0])| >= MAX_BUFFER_SIZE || !works(k) then Sent([], 0, false)
    else
      var rest := Send(ss[1..], k + 1, works);
      rest.(queued := [Cmd(Text(ss[0]), |ss| == 1)] + rest.queued)
  }

  /** What is queued is always the front of the commands, and all of them exactly if the loop
      gets through; only then, and only for an empty last segment, it triggers the event. */
  lemma {:induction false} SendIs(ss: seq<string>, k: nat, works: nat -> bool)
    requires |ss| >= 1
    ensures var r := Send(ss, k, works);
      && r.queued <= Commands(ss)
      && (r.ok <==> r.queued == Commands(ss))
      && r.direct == if r.ok && ss[|ss| - 1] == "" then 1 else 0
  {
    if |ss| > 1 {
      SendIs(ss[1..], if ss[0] == "" then k else k + 1, works);
      if ss[0] == "" {
        assert Commands(ss) == Commands(ss[1..]);
      } else {
        assert Commands(ss)[1..] == Commands(ss[1..]);
      }
    } else {
      assert Commands(ss[1..]) == [];
    }
  }

  predicate AllWork(cmds: seq<Cmd>, k: nat, works: nat -> bool) {
    cmds == [] || (|cmds[0].text| < MAX_BUFFER_SIZE && works(k) && AllWork(cmds[1..], k + 1, works))
  }

  /** Command i fits and can be queued, when k were tried before the first. */
  predicate Works(cmds: seq<Cmd>, k: nat, works: nat -> bool, i: nat)
    requires i < |cmds|
  {
    |cmds[i].text| < MAX_BUFFER_SIZE && works(k + i)
  }

  lemma {:induction false} AllWorkIs(cmds: seq<Cmd>, k: nat, works: nat -> bool)
    ensures AllWork(cmds, k, works) <==> forall i :: 0 <= i < |cmds| ==> Works(cmds, k, works, i)
  {
    if cmds != [] {
      var rest, k' := cmds[1..], k + 1;
      AllWorkIs(rest, k', works);
      assert AllWork(cmds, k, works) <==> Works(cmds, k, works, 0) && AllWork(rest, k', works);
      hide AllWork;
      forall i | 0 < i < |cmds| ensures Works(cmds, k, works, i) == Works(rest, k', works, i - 1) {
        assert rest[i - 1] == cmds[i] && k' + (i - 1) == k + i;
      }
      hide Works;
      if forall i :: 0 <= i < |cmds| ==> Works(cmds, k, works, i) {
        forall i | 0 <= i < |rest| ensures Works(rest, k', works, i) {
          assert Works(cmds, k, works, i + 1);
        }
      }
    }
  }

  lemma {:induction false} SendNeeds(ss: seq<string>, k: nat, works: nat -> bool)
    ensures Send(ss, k, works).ok <==> AllWork(Commands(ss), k, works)
  {
    if ss != [] {
      if ss[0] == "" {
        assert Commands(ss) == Commands(ss[1..]);
        SendNeeds(ss[1..], k, works);
      } else {
        assert Commands(ss)[1..] == Commands(ss[1..]);
        SendNeeds(ss[1..], k + 1, works);
      }
    }
  }

  /** The loop gets through exactly if every command can be queued and fits its buffer, which
      holds segments of up to 1020 characters. */
  lemma SendSucceeds(ss: seq<string>, works: nat -> bool)
    requires |ss| >= 1
    ensures Send(ss, 0, works).ok <==> forall i :: 0 <= i < |NonEmpty(ss)| ==> |NonEmpty(ss)[i]| <= 1020 && works(i)
  {
    SendNeeds(ss, 0, works);
    AllWorkIs(Commands(ss), 0, works);
    CommandsAre(ss);
    hide Send, Commands, NonEmpty, AllWork, Finals;
    assert forall i :: 0 <= i < |Commands(ss)| ==>
      Works(Commands(ss), 0, works, i) == (|NonEmpty(ss)[i]| <= 1020 && works(i));
  }

  // ---------------------------------------------------------------------------
  // Completion.

  datatype Signals = Signals(completions: nat, cleanUps: nat)

  /** CContextInitString::Execute with the result of its command. */
  function Execute(c: Cmd, ok: bool): Signals {
    if !c.isFinal then Signals(0, 0) else if ok then Signals(1, 0) else Signals(0, 1)
  }

  /** Every queued command is executed once, with whatever result. */
  function ExecuteAll(cmds: seq<Cmd>, results: seq<bool>): Signals
    requires |results| == |cmds|
  {
    if cmds == [] then Signals(0, 0)
    else
      var a, b := Execute(cmds[0], results[0]), ExecuteAll(cmds[1..], results[1..]);
      Signals(a.completions + b.completions, a.cleanUps + b.cleanUps)
  }

  lemma {:induction false} SignalsAreFinals(cmds: seq<Cmd>, results: seq<bool>)
    requires |results| == |cmds|
    ensures ExecuteAll(cmds, results).completions + ExecuteAll(cmds, results).cleanUps == Finals(cmds)
    ensures (forall i :: 0 <= i < |cmds| && cmds[i].isFinal ==> results[i]) ==>
      ExecuteAll(cmds, results).cleanUps == 0
    ensures (forall i :: 0 <= i < |cmds| && cmds[i].isFinal ==> !results[i]) ==>
      ExecuteAll(cmds, results).completions == 0
  {
    if cmds != [] {
      SignalsAreFinals(cmds[1..], results[1..]);
      assert forall i :: 0 <= i < |cmds| - 1 ==> cmds[1..][i] == cmds[i + 1] && results[1..][i] == results[i + 1];
    }
  }

  /** When the commands of an init string are sent, there is exactly one completion: the one
      triggered directly, or the one of the final command, which is the last; that one becomes
      a clean-up instead exactly if the command fails. When sending fails, nothing completes. */
  lemma OneCompletion(s: string, works: nat -> bool, results: seq<bool>)
    requires |results| == |Send(Split(s), 0, works).queued|
    ensures var r := Send(Split(s), 0, works);
      var x := ExecuteAll(r.queued, results);
      && (r.ok ==> r.direct + x.completions + x.cleanUps == 1)
      && (r.ok ==> (x.cleanUps == 1 <==> r.direct == 0 && !results[|results| - 1]))
      && (!r.ok ==> r.direct == 0 && (r.queued < Commands(Split(s))) && x == Signals(0, 0))
  {
    hide Send, Commands, Split, ExecuteAll, Finals;
    var ss := Split(s);
    var r := Send(ss, 0, works);
    SendIs(ss, 0, works);
    CommandsAre(ss);
    SignalsAreFinals(r.queued, results);
    if !r.ok {
      FrontHasNoFinals(r.queued, Commands(ss));
    }
  }

  lemma FrontHasNoFinals(front: seq<Cmd>, cmds: seq<Cmd>)
    requires front < cmds && forall i :: 0 <= i < |cmds| && cmds[i].isFinal ==> i == |cmds| - 1
    ensures Finals(front) == 0
  {
    forall i | 0 <= i < |front| ensures !front[i].isFinal {
      assert front[i] == cmds[i];
    }
    NoFinals(front);
  }

  lemma {:induction false} NoFinals(cmds: seq<Cmd>)
    requires forall i :: 0 <= i < |cmds| ==> !cmds[i].isFinal
    ensures Finals(cmds) == 0
  {
    if cmds != [] {
      NoFinals(cmds[1..]);
    }
  }

  // ---------------------------------------------------------------------------
  // The loop in place, and the containers.

  class Channel {
    var queue: seq<Cmd>     // the commands of this channel, in the order they are queued
    var completions: nat    // how often the completion event was triggered from here

    constructor ()
      ensures queue == [] && completions == 0
    {
      queue, completions := [], 0;
    }

    /** The splitting and queueing of SendModemConfigurationCommands: bars become terminators
        while it goes along. len is strlen of the string. */
    method SendCommands(szInit: array<char>, ghost len: nat, works: nat -> bool) returns (ok: bool)
      requires len < szInit.Length && szInit[len] == '\0' && '\0' !in szInit[..len]
      modifies this, szInit
      ensures var r := Send(Split(old(szInit[..len])), 0, works);
        ok == r.ok && queue == old(queue) + r.queued && completions == old(completions) + r.direct
    {
      ghost var s := szInit[..len];
      assert s[0..] == s && szInit[0..len] == s;
      hide Split, Send, Text;
      if szInit[0] == '\0' {
        completions := completions + 1;
        SendStep(s, 0, 0, 0, works);
        return true;
      }
      ok := SendSegments(szInit, len, s, works);
    }

    /** The loop, on a string that may be empty. */
    method SendSegments(szInit: array<char>, ghost len: nat, ghost s: string, works: nat -> bool) returns (ok: bool)
      requires Rest(szInit, 0, len, s)
      modifies this, szInit
      ensures var r := Send(Split(s), 0, works);
        ok == r.ok && (queue, completions) == Applied(old(queue), old(completions), r)
    {
      assert s[0..] == s;
      hide Split, Send, Text, Rest, Then, Applied;
      var start, k, more;
      ghost var done;
      more, ok, start, k, done := OneRound(szInit, 0, len, s, 0, works);
      while more
        invariant more ==> start <= |s| && Rest(szInit, start, len, s)
        invariant (queue, completions) == Applied(old(queue), old(completions), done)
        invariant Send(Split(s), 0, works) ==
          if more then Then(done, Send(Split(s[start..]), k, works)) else done
        invariant more || ok == done.ok
        decreases more, len - start
      {
        ghost var part;
        more, ok, start, k, part := OneRound(szInit, start, len, s, k, works);
        ThenLaws(old(queue), old(completions), done, part, Send(Split(s[if more then start else 0..]), k, works));
        done := Then(done, part);
      }
    }

    /** One round of the loop: the command up to the next bar, or the last one. */
    method OneRound(szInit: array<char>, start: nat, ghost len: nat, ghost s: string, k: nat, works: nat -> bool)
        returns (more: bool, ok: bool, start': nat, k': nat, ghost part: Sent)
      requires Rest(szInit, start, len, s)
      modifies this, szInit
      ensures (queue, completions) == Applied(old(queue), old(completions), part)
      ensures more ==> start < start' <= len == |s| && Rest(szInit, start', len, s)
      ensures more ==> Send(Split(s[start..]), k, works) == Then(part, Send(Split(s[start'..]), k', works))
      ensures !more ==> Send(Split(s[start..]), k, works) == part && ok == part.ok
    {
      hide Split, Send, Text;
      var end := StrChr(szInit, start, len);
      assert forall i :: start <= i < end ==>
        s[i] == s[start..][i - start] == szInit[start..len][i - start] == szInit[i];
      assert szInit[start..end] == s[start..end];
      assert end < len ==> s[end] == szInit[start..len][end - start] == '|';
      ghost var rest := if end < len then szInit[end + 1..len] else "";
      assert end < len ==> rest == szInit[start..len][end + 1 - start..] == s[end + 1..];
      SendStep(s, start, end, k, works);
      var last := szInit[end] == '\0';
      assert last <==> end == len;
      szInit[end] := '\0';
      k', start', ok, part := k, end + 1, true, Sent([], 0, true);
      assert queue + [] == queue;
      if start < end {
        var text := Text(szInit[start..end]);
        assert szInit[start..end] == s[start..end];
        if |text| >= MAX_BUFFER_SIZE || !works(k) {
          return false, false, start', k', Sent([], 0, false);
        }
        queue := queue + [Cmd(text, last)];
        part := Sent([Cmd(text, last)], 0, true);
        k' := k + 1;
      } else if last {
        completions := completions + 1;
        part := Sent([], 1, true);
      }
      more := !last;
      assert more ==> szInit[end + 1..len] == rest;
    }
  }

  /** The part of the buffer from start on is what is left of s. */
  ghost predicate Rest(buf: array<char>, start: nat, len: nat, s: string)
    reads buf
  {
    start <= len == |s| && len < buf.Length && buf[len] == '\0' && '\0' !in s && buf[start..len] == s[start..]
  }

  /** strchr, and the end of the string if there is no bar. */
  method StrChr(buf: array<char>, start: nat, ghost len: nat) returns (end: nat)
    requires start <= len < buf.Length && buf[len] == '\0' && '\0' !in buf[start..len]
    ensures start <= end <= len && (end < len ==> buf[end] == '|')
    ensures forall i :: start <= i < end ==> buf[i] != '|'
  {
    end := start;
    while buf[end] != '\0' && buf[end] != '|'
      invariant start <= end <= len && forall i :: start <= i < end ==> buf[i] != '|'
      decreases len - end
    {
      end := end + 1;
    }
    if end < len {
      assert buf[end] in buf[start..len];
    }
  }

  /** Two stretches of the loop. */
  function Then(a: Sent, b: Sent): Sent {
    Sent(a.queued + b.queued, a.direct + b.direct, b.ok)
  }

  /** The queue and the completion count after a stretch. */
  function Applied(queue: seq<Cmd>, completions: nat, a: Sent): (seq<Cmd>, nat) {
    (queue + a.queued, completions + a.direct)
  }

  lemma ThenLaws(queue: seq<Cmd>, completions: nat, a: Sent, b: Sent, c: Sent)
    ensures var (q, n) := Applied(queue, completions, a);
      Applied(q, n, b) == Applied(queue, completions, Then(a, b))
    ensures Then(Then(a, b), c) == Then(a, Then(b, c)) && Then(a, b).ok == b.ok
  {
    assert queue + a.queued + b.queued == queue + (a.queued + b.queued);
    assert a.queued + b.queued + c.queued == a.queued + (b.queued + c.queued);
  }

  /** What one round does to the rest of the string. */
  lemma SendStep(s: string, start: nat, end: nat, k: nat, works: nat -> bool)
    requires start <= end <= |s| && (end < |s| ==> s[end] == '|')
    requires forall i :: start <= i < end ==> s[i] != '|'
    ensures var r := Send(Split(s[start..]), k, works);
      var text, last := Text(s[start..end]), end == |s|;
      if start == end then
        r == if last then Sent([], 1, true) else Send(Split(s[end + 1..]), k, works)
      else if |text| >= MAX_BUFFER_SIZE || !works(k) then r == Sent([], 0, false)
      else
        r == Then(Sent([Cmd(text, last)], 0, true),
                  if last then Sent([], 0, true) else Send(Split(s[end + 1..]), k + 1, works))
  {
    SplitStep(s, start, end);
    hide Split;
    if end == |s| {
      assert s[start..] == s[start..end];
      assert Send([], k, works) == Send([], k + 1, works) == Sent([], 0, true);
    } else {
      var ss := [s[start..end]] + Split(s[end + 1..]);
      assert ss[1..] == Split(s[end + 1..]);
    }
  }

  lemma SplitStep(s: string, start: nat, end: nat)
    requires start <= end <= |s| && (end < |s| ==> s[end] == '|')
    requires forall i :: start <= i < end ==> s[i] != '|'
    ensures Split(s[start..]) == if end == |s| then [s[start..]] else [s[start..end]] + Split(s[end + 1..])
  {
    var t := s[start..];
    assert BarAt(t, 0) == end - start;
    assert t[..end - start] == s[start..end];
    if end < |s| {
      assert t[end - start + 1..] == s[end + 1..];
    }
  }
}
