// What IsCompleteResponse answers, read off the text: the result, the error number and the end of
// the response, for each form a response can have.
module ResponseAnswers {
  import opened Options
  import opened Text
  import opened Responses

  /** Skipping spaces first loses no occurrence of a pattern that does not start with one. */
  lemma SkipsToFirst(s: string, p: nat, pat: string)
    requires p <= |s| && pat != [] && pat[0] != ' '
    ensures FindAndSkipString(s, p, pat) ==
      match Find(s, pat, p)
      case Some(i) => Skip(true, i + |pat|)
      case None => Skip(false, AfterSpaces(s, p))
  {
    var q := AfterSpaces(s, p);
    forall i: nat | p <= i && At(s, pat, i) ensures q <= i {
      assert s[i] == s[i..i + |pat|][0];
    }
    if Find(s, pat, p).Some? {
      FindIs(s, pat, q, Find(s, pat, p).value);
    }
  }

  lemma ReturnFound(t: string, p: nat)
    requires p <= |t| && Find(t, "\r", p).Some?
    ensures '\r' in t[p..]
  {
    var i := Find(t, "\r", p).value;
    MatchAt(t, "\r", i, 0);
    hide Find, At;
    assert t[p..][i - p] == '\r';
  }

  lemma ReturnIn(t: string, p: nat)
    requires p <= |t|
    ensures Find(t, "\r", p).Some? <==> '\r' in t[p..]
  {
    if Find(t, "\r", p).Some? {
      ReturnFound(t, p);
    } else {
      NoReturnThere(t, p);
    }
  }

  lemma NoReturnThere(t: string, p: nat)
    requires p <= |t| && forall i :: p <= i ==> !At(t, "\r", i)
    ensures '\r' !in t[p..]
  {
    forall i | p <= i < |t| ensures t[i] != '\r' {
      assert !At(t, "\r", i);
      assert t[i..i + 1] == [t[i]];
    }
  }

  // The places in a text behind the first error token: behind the token, the first character that
  // is no space, the end of the digits there, and the first character behind them that is no space.

  function TokenAt(t: string, token: string): nat
    requires Find(t, token, 0).Some?
    ensures TokenAt(t, token) <= |t|
  {
    Find(t, token, 0).value + |token|
  }

  function DigitsAt(t: string, token: string): nat
    requires Find(t, token, 0).Some?
    ensures DigitsAt(t, token) <= |t|
  {
    AfterSpaces(t, TokenAt(t, token))
  }

  function DigitsTo(t: string, token: string): nat
    requires Find(t, token, 0).Some?
    ensures DigitsAt(t, token) <= DigitsTo(t, token) <= |t|
  {
    DigitsEnd(t, DigitsAt(t, token))
  }

  function LineEndAt(t: string, token: string): nat
    requires Find(t, token, 0).Some?
    ensures LineEndAt(t, token) <= |t|
  {
    AfterSpaces(t, DigitsTo(t, token))
  }

  /** Behind the token there is a number, and a return somewhere. */
  predicate HasCode(t: string, token: string)
    requires Find(t, token, 0).Some?
  {
    DigitsAt(t, token) < DigitsTo(t, token) && '\r' in t[TokenAt(t, token)..]
  }

  /** There is a code, but its line end is not there. */
  predicate Waits(t: string, token: string) {
    Find(t, token, 0).Some? && HasCode(t, token) && !At(t, CRLF, LineEndAt(t, token))
  }

  /** The error token is not there, or waits for the rest of its line. */
  predicate Undecided(t: string, token: string) {
    Find(t, token, 0).None? || Waits(t, token)
  }

  /** 103 and 106 are an illegal SIM and an illegal ME. */
  predicate Blames(c: Rsp, value: nat) {
    c.error == value && !c.unsolicited && (c.result == IllegalSimOrMe <==> value in {103, 106})
    && (c.result == GenericFailure <==> value !in {103, 106})
  }

  /** The number behind p, and the spaces behind it; without a return nothing is read. */
  lemma CodeBehind(t: string, p: nat)
    requires p <= |t|
    ensures var j := AfterSpaces(t, p);
      var k := DigitsEnd(t, j);
      ErrorCode(t, p) ==
        if '\r' !in t[p..] then Number(false, 0, p)
        else if j < k then Number(true, Value(t[j..k]), AfterSpaces(t, k)) else Number(false, 0, j)
  {
    SkipsToFirst(t, p, "\r");
    ReturnIn(t, p);
    var k := DigitsEnd(t, AfterSpaces(t, p));
    SpacesSkipped(t, k);
    hide Find, Value;
  }

  lemma SpacesSkipped(t: string, p: nat)
    requires p <= |t|
    ensures SkipString(t, p, " ").at == AfterSpaces(t, p)
  {
    var q := AfterSpaces(t, p);
    if At(t, " ", q) {
      MatchAt(t, " ", q, 0);
    }
  }

  lemma EndNeedsReturn(t: string, p: nat)
    requires p <= |t| && '\r' !in t[p..]
    ensures !SkipString(t, p, CRLF).found
  {
    var q := AfterSpaces(t, p);
    assert q < |t| ==> t[q] == t[p..][q - p];
    if At(t, CRLF, q) {
      MatchAt(t, CRLF, q, 0);
    }
  }

  /** A line end behind spaces that were skipped. */
  lemma LineEndHere(t: string, p: nat)
    requires p <= |t|
    ensures var q := AfterSpaces(t, p);
      SkipString(t, q, CRLF) == if At(t, CRLF, q) then Skip(true, q + 2) else Skip(false, q)
  {
    SpacesSkipOnce(t, p);
  }

  /** What IsExtendedError makes of a text with the token. */
  lemma ExtendedIs(r: Rsp, token: string)
    requires token != "" && token[0] != ' '
    ensures var t := TextOf(r.data);
      Extended(r, token) ==
        if Find(t, token, 0).None? then Checked(r, false)
        else
          var n := ErrorCode(t, TokenAt(t, token));
          var end := SkipString(t, n.at, CRLF);
          if !n.found then Checked(r.(marker := if end.found then end.at else |r.data|, unrecognized := true), true)
          else if end.found then
            Checked(r.(result := CodeResult(n.value), error := n.value, unsolicited := false, marker := end.at), true)
          else Checked(r.(result := CodeResult(n.value), error := n.value, unsolicited := false), false)
  {
    hide Find, TextOf, ErrorCode, SkipString, CodeResult, FindAndSkipString, AfterSpaces;
    SkipsToFirst(TextOf(r.data), 0, token);
  }

  /** IsExtendedError, place by place. */
  lemma ExtendedSays(r: Rsp, token: string)
    requires token != "" && token[0] != ' '
    ensures var t, c := TextOf(r.data), Extended(r, token);
      if Find(t, token, 0).None? then c == Checked(r, false)
      else
        && (c.done <==> !Waits(t, token)) && c.rsp.data == r.data && c.rsp.corrupt == r.corrupt
        && if HasCode(t, token) then
             && Blames(c.rsp, Value(t[DigitsAt(t, token)..DigitsTo(t, token)]))
             && c.rsp.unrecognized == r.unrecognized
             && c.rsp.marker == if c.done then LineEndAt(t, token) + 2 else r.marker
           else
             c.rsp == r.(unrecognized := true,
               marker := if '\r' in t[TokenAt(t, token)..] && At(t, CRLF, DigitsAt(t, token))
                         then DigitsAt(t, token) + 2 else |r.data|)
  {
    hide Find, TextOf, Value, AfterSpaces, DigitsEnd, SkipString, ErrorCode, Extended, At;
    var t := TextOf(r.data);
    ExtendedIs(r, token);
    if Find(t, token, 0).Some? {
      var p := TokenAt(t, token);
      CodeBehind(t, p);
      LineEndHere(t, p);
      LineEndHere(t, DigitsTo(t, token));
      if '\r' !in t[p..] {
        EndNeedsReturn(t, p);
      }
    }
  }

  /** A response that ends there, with that result; the other flags are as before. */
  predicate Ends(c: Checked, r: Rsp, end: nat, result: ResultCode) {
    && c.done && c.rsp.marker == end && c.rsp.result == result && !c.rsp.unsolicited
    && c.rsp.data == r.data && c.rsp.unrecognized == r.unrecognized && c.rsp.corrupt == r.corrupt
  }

  /** Behind spaces a line end, and behind spaces again the prompt for the text of a message. */
  predicate PromptAt(t: string) {
    var b := AfterSpaces(t, 0);
    At(t, CRLF, b) && At(t, "> ", AfterSpaces(t, b + 2))
  }

  function PromptEnd(t: string): nat
    requires PromptAt(t)
  {
    AfterSpaces(t, AfterSpaces(t, 0) + 2) + 2
  }

  /** The first place of the word on a line of its own, and of OK before a line end. */
  function WordAt(t: string, word: string): Option<nat> {
    Find(t, CRLF + word + CRLF, 0)
  }

  function OkAt(t: string): Option<nat> {
    Find(t, "OK" + CRLF, 0)
  }

  lemma OkLineFound(t: string)
    ensures FindAndSkipString(t, 0, "\r\nOK\r\n") ==
      match WordAt(t, "OK")
      case Some(i) => Skip(true, i + 6)
      case None => Skip(false, AfterSpaces(t, 0))
  {
    assert "\r\nOK\r\n" == CRLF + "OK" + CRLF;
    SkipsToFirst(t, 0, "\r\nOK\r\n");
    hide Find, AfterSpaces;
  }

  lemma OkFound(t: string)
    ensures FindAndSkipString(t, AfterSpaces(t, 0), "OK\r\n") ==
      match OkAt(t)
      case Some(i) => Skip(true, i + 4)
      case None => Skip(false, AfterSpaces(t, 0))
  {
    assert "OK\r\n" == "OK" + CRLF;
    SpacesSkipOnce(t, 0);
    SkipsToFirst(t, 0, "OK\r\n");
    hide Find, AfterSpaces;
  }

  /** IsOkResponse. */
  lemma OkSays(t: string)
    ensures OkEnd(t) ==
      if WordAt(t, "OK").Some? then Some(WordAt(t, "OK").value + 6)
      else if OkAt(t).Some? then Some(OkAt(t).value + 4)
      else if PromptAt(t) then Some(PromptEnd(t)) else None
  {
    hide WordAt, OkAt, FindAndSkipString, AfterSpaces, At;
    OkLineFound(t);
    OkFound(t);
    SpacesSkipOnce(t, 0);
  }

  lemma FinalSays(t: string, word: string)
    ensures FinalEnd(t, word) ==
      match WordAt(t, word)
      case Some(i) => Some(i + |word| + 4)
      case None => None
  {
    SkipsToFirst(t, 0, CRLF + word + CRLF);
  }

  /** The four recognisers that look for words, in their order. */
  lemma WordedSays(r: Rsp)
    ensures var t, c := TextOf(r.data), Worded(r);
      if WordAt(t, "OK").Some? then Ends(c, r, WordAt(t, "OK").value + 6, Success)
      else if OkAt(t).Some? then Ends(c, r, OkAt(t).value + 4, Success)
      else if PromptAt(t) then Ends(c, r, PromptEnd(t), Success)
      else if WordAt(t, "ERROR").Some? then Ends(c, r, WordAt(t, "ERROR").value + 9, GenericFailure)
      else if WordAt(t, "CONNECT").Some? then Ends(c, r, WordAt(t, "CONNECT").value + 11, Success)
      else if WordAt(t, "ABORTED").Some? then Ends(c, r, WordAt(t, "ABORTED").value + 11, Success)
      else c == Checked(r, false)
  {
    hide OkEnd, FinalEnd, WordAt, OkAt, TextOf, PromptAt, PromptEnd;
    var t := TextOf(r.data);
    OkSays(t);
    FinalSays(t, "ERROR");
    FinalSays(t, "CONNECT");
    FinalSays(t, "ABORTED");
  }

  /** Behind the first return, spaces, a line feed, one character, spaces and a return. */
  predicate LooksCut(t: string, past: bool) {
    Find(t, "\r", 0).Some? &&
    var x := AfterSpaces(t, Find(t, "\r", 0).value + 1);
    && At(t, "\n", x)
    && if x + 1 < |t| then At(t, "\r", AfterSpaces(t, x + 2)) else past
  }

  lemma CorruptSays(r: Rsp, past: bool)
    ensures var t, c := TextOf(r.data), Corrupt(r, past);
      if r.corrupt && LooksCut(t, past) then
        c == Checked(r.(corrupt := false, unrecognized := true,
                        marker := AfterSpaces(t, Find(t, "\r", 0).value + 1) + 1), true)
      else c == Checked(r.(corrupt := false), false)
  {
    hide Find, AfterSpaces, At, TextOf, FindAndSkipString;
    SkipsToFirst(TextOf(r.data), 0, "\r");
  }

  // ---------------------------------------------------------------------------
  // The whole check, when no silo takes the text.

  /** A finished or malformed error code decides: the first token that is there and does not
      wait for the rest of its line. */
  lemma CodeAnswer(r: Rsp, w: World, token: string)
    requires r.data != "" && !w.unsolicited
    requires var t := TextOf(r.data);
      && (token == "+CME ERROR:" || (token == "+CMS ERROR:" && Undecided(t, "+CME ERROR:")))
      && Find(t, token, 0).Some? && !Waits(t, token)
    ensures var t, c := TextOf(r.data), Judge(r, w);
      && c.done && c.rsp.data == r.data && c.rsp.corrupt == r.corrupt
      && if HasCode(t, token) then
           && Blames(c.rsp, Value(t[DigitsAt(t, token)..DigitsTo(t, token)]))
           && c.rsp.unrecognized == r.unrecognized
           && c.rsp.marker == LineEndAt(t, token) + 2 && At(t, CRLF, LineEndAt(t, token))
         else
           && c.rsp.unrecognized && !c.rsp.unsolicited
           && (!Waits(t, CME) ==> c.rsp.result == r.result && c.rsp.error == r.error)
           && c.rsp.marker == if '\r' in t[TokenAt(t, token)..] && At(t, CRLF, DigitsAt(t, token))
                              then DigitsAt(t, token) + 2 else |r.data|
  {
    hide TextOf, Extended, Worded, Corrupt, HasCode, Value, At, TokenAt, DigitsAt, DigitsTo, LineEndAt, Find;
    var r0 := r.(unsolicited := false);
    ExtendedSays(r0, CME);
    ExtendedSays(Extended(r0, CME).rsp, CMS);
  }

  lemma PastCodes(r: Rsp, w: World) returns (r2: Rsp)
    requires r.data != "" && !w.unsolicited
    requires Undecided(TextOf(r.data), CME) && Undecided(TextOf(r.data), CMS)
    ensures r2 == r.(unsolicited := false, result := r2.result, error := r2.error)
    ensures Judge(r, w) == if Worded(r2).done then Worded(r2) else Corrupt(Worded(r2).rsp, w.past)
  {
    hide TextOf, Extended, Worded, Corrupt, HasCode, Value, At, TokenAt, DigitsAt, DigitsTo, LineEndAt, Find;
    var r0 := r.(unsolicited := false);
    ExtendedSays(r0, CME);
    var r1 := Extended(r0, CME).rsp;
    ExtendedSays(r1, CMS);
    r2 := Extended(r1, CMS).rsp;
  }

  /** With no error code that decides, the words do, in this order; and with none of them a text
      that came with the corrupt flag may be cut at its first line end. The only failure among the
      words is ERROR. */
  lemma WordAnswer(r: Rsp, w: World)
    requires r.data != "" && !w.unsolicited
    requires Undecided(TextOf(r.data), CME) && Undecided(TextOf(r.data), CMS)
    ensures var t, c := TextOf(r.data), Judge(r, w);
      if WordAt(t, "OK").Some? then Ends(c, r, WordAt(t, "OK").value + 6, Success)
      else if OkAt(t).Some? then Ends(c, r, OkAt(t).value + 4, Success)
      else if PromptAt(t) then Ends(c, r, PromptEnd(t), Success)
      else if WordAt(t, "ERROR").Some? then Ends(c, r, WordAt(t, "ERROR").value + 9, GenericFailure)
      else if WordAt(t, "CONNECT").Some? then Ends(c, r, WordAt(t, "CONNECT").value + 11, Success)
      else if WordAt(t, "ABORTED").Some? then Ends(c, r, WordAt(t, "ABORTED").value + 11, Success)
      else if r.corrupt && LooksCut(t, w.past) then
        && c.done && c.rsp.unrecognized && !c.rsp.corrupt && c.rsp.data == r.data
        && c.rsp.marker == AfterSpaces(t, Find(t, "\r", 0).value + 1) + 1
      else !c.done && !c.rsp.corrupt && c.rsp.data == r.data && c.rsp.marker == r.marker
  {
    hide TextOf, Worded, Corrupt, Find, WordAt, OkAt, PromptAt, PromptEnd, LooksCut, AfterSpaces, Undecided, Judge;
    var r2 := PastCodes(r, w);
    WordedSays(r2);
    CorruptSays(Worded(r2).rsp, w.past);
  }

  /** A text that a silo takes is an unsolicited response, whatever else it holds; it ends behind
      the first line end from where the silo left the pointer. */
  lemma SiloAnswer(r: Rsp, w: World)
    requires r.data != "" && w.unsolicited
    ensures var t := TextOf(r.data);
      Judge(r, w) == Checked(r.(unsolicited := true,
        marker := match Find(t, CRLF, Pointer(r, w)) case Some(i) => i + 2 case None => r.marker), true)
  {
    SkipsToFirst(TextOf(r.data), Pointer(r, w), CRLF);
    hide Find, TextOf, AfterSpaces, Solicited;
  }

  // ---------------------------------------------------------------------------
  // What a channel makes of the answers.

  /** One round hands out what the check said, cut at the end it marked, and keeps the rest in a
      response that knows nothing yet; or it keeps all. */
  lemma RoundEmits(c: Channel, w: World)
    requires Idle(c)
    ensures var j, c' := Judge(c.rsp, w), Round(c, w).0;
      if j.done && j.rsp.marker > 0 then
        && j.rsp.marker <= |c.rsp.data|
        && c'.emitted == c.emitted + [j.rsp.(data := c.rsp.data[..j.rsp.marker])]
        && c'.rsp == Rsp(c.rsp.data[j.rsp.marker..], 0, false, false, false, Success, 0)
      else c'.emitted == c.emitted && c'.rsp == j.rsp
  {
    JudgeEnd(c.rsp, w);
    hide Judge, NoLineEnd;
  }

  /** What comes in joins the buffer, which may be cut at a line end if a timeout came before; if
      the check says yes and marks an end, the first response that leaves is what the check said,
      cut there. Without an end nothing leaves. */
  lemma FirstEmitted(c: Channel, bytes: string, timedOut: bool, world: nat -> World)
    requires Idle(c) && bytes != ""
    ensures var r := c.rsp.(data := c.rsp.data + bytes, corrupt := c.rsp.corrupt || timedOut);
      var j, c' := Judge(r, world(c.checks)), Receive(c, bytes, timedOut, world).chan;
      if j.done && j.rsp.marker > 0 then
        && |c.emitted| < |c'.emitted| && c'.emitted[..|c.emitted|] == c.emitted
        && j.rsp.marker <= |r.data|
        && c'.emitted[|c.emitted|] == j.rsp.(data := r.data[..j.rsp.marker])
      else c'.emitted == c.emitted && c'.rsp == j.rsp
  {
    var c0 := c.(rsp := c.rsp.(data := c.rsp.data + bytes, corrupt := c.rsp.corrupt || timedOut));
    RoundEmits(c0, world(c.checks));
    RoundGoesOn(c0, world(c.checks));
    var c1 := Round(c0, world(c.checks)).0;
    hide Judge, Round, Bytes;
    DrainConserves(c1, world);
  }

  /** The loop goes on only behind a response that left. */
  lemma RoundGoesOn(c: Channel, w: World)
    requires Idle(c)
    ensures Round(c, w).1 ==> Judge(c.rsp, w).done && Judge(c.rsp, w).rsp.marker > 0
  {
    JudgeEnd(c.rsp, w);
    hide Judge, NoLineEnd;
  }
}
