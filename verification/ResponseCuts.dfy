// How the cutting of the byte stream into parts decides what becomes of an error report: for
// every report and every way to cut it, exactly which cuts are harmless.
module ResponseCuts {
  import opened Options
  import opened Text
  import opened Responses

  /** An extended error report: blanks and line ends, +CME ERROR: or +CMS ERROR:, spaces, the
      digits of the code, and a line end. */
  datatype Report = Report(lead: string, token: string, gap: string, digits: string)

  predicate WellFormed(x: Report) {
    && (forall i :: 0 <= i < |x.lead| ==> x.lead[i] in {' ', '\r', '\n'})
    && (x.token == CME || x.token == CMS)
    && (forall i :: 0 <= i < |x.gap| ==> x.gap[i] == ' ')
    && x.digits != "" && (forall i :: 0 <= i < |x.digits| ==> IsDigit(x.digits[i]))
  }

  function Written(x: Report): string {
    x.lead + x.token + x.gap + x.digits + CRLF
  }

  /** Where the token, the code and its digits end. */
  function TokenEnd(x: Report): nat {
    |x.lead| + |x.token|
  }

  function GapEnd(x: Report): nat {
    TokenEnd(x) + |x.gap|
  }

  function DigitsDone(x: Report): nat {
    GapEnd(x) + |x.digits|
  }

  /** A cut before the token is complete, or between the two characters of the line end. */
  predicate Harmless(x: Report, k: nat) {
    k < TokenEnd(x) || k == DigitsDone(x) + 1
  }

  // ---------------------------------------------------------------------------
  // The characters of a report.

  lemma CharAt(x: Report, i: nat)
    requires i < |Written(x)|
    ensures |Written(x)| == DigitsDone(x) + 2
    ensures Written(x)[i] ==
      if i < |x.lead| then x.lead[i]
      else if i < TokenEnd(x) then x.token[i - |x.lead|]
      else if i < GapEnd(x) then x.gap[i - TokenEnd(x)]
      else if i < DigitsDone(x) then x.digits[i - GapEnd(x)]
      else CRLF[i - DigitsDone(x)]
  {
  }

  /** What the characters tell: the plus sign, the return and the letters that other responses
      need. */
  lemma CharFacts(x: Report, i: nat)
    requires WellFormed(x) && i < |Written(x)|
    ensures var c := Written(x)[i];
      && c != '\0' && c != 'K' && c != 'N' && c != 'B' && c != '>'
      && (c == '+' <==> i == |x.lead|)
      && (c == 'E' && i > 0 ==> Written(x)[i - 1] != '\n')
      && (TokenEnd(x) <= i ==> (c == '\r' <==> i == DigitsDone(x)))
      && (TokenEnd(x) <= i < GapEnd(x) ==> c == ' ')
      && (GapEnd(x) <= i < DigitsDone(x) <==> TokenEnd(x) <= i && IsDigit(c))
      && (i == |x.lead| + 3 ==> c == x.token[3])
  {
    CharAt(x, i);
    if i > 0 {
      CharAt(x, i - 1);
    }
    hide Written;
  }

  /** No part of a report holds another response. */
  lemma NoOther(x: Report, k: nat)
    requires WellFormed(x) && k <= |Written(x)|
    ensures var s := Written(x)[..k];
      && '\0' !in s && !Contains(s, "OK\r\n") && !Prompt(s)
      && !Contains(s, "\r\nERROR\r\n") && !Contains(s, "\r\nCONNECT\r\n") && !Contains(s, "\r\nABORTED\r\n")
  {
    var s := Written(x)[..k];
    forall i | 0 <= i < k
      ensures s[i] != '\0' && s[i] != 'K' && s[i] != 'N' && s[i] != 'B' && s[i] != '>'
      ensures s[i] == 'E' && i > 0 ==> s[i - 1] != '\n'
    {
      CharFacts(x, i);
    }
    hide Written;
    Absent(s, "OK\r\n", 1);
    Absent(s, "\r\nCONNECT\r\n", 4);
    Absent(s, "\r\nABORTED\r\n", 3);
    NoError(s);
    NoPrompt(s);
  }

  lemma NoError(s: string)
    requires forall i :: 0 < i < |s| && s[i] == 'E' ==> s[i - 1] != '\n'
    ensures !Contains(s, "\r\nERROR\r\n")
  {
    var pat := "\r\nERROR\r\n";
    if i: nat :| At(s, pat, i) {
      MatchAt(s, pat, i, 1);
      MatchAt(s, pat, i, 2);
    }
  }

  lemma NoPrompt(s: string)
    requires '>' !in s
    ensures !Prompt(s)
  {
    var h := SkipString(s, 0, CRLF);
    var p := AfterSpaces(s, h.at);
    if At(s, "> ", p) {
      MatchAt(s, "> ", p, 0);
    }
  }

  lemma TokenThere(x: Report, k: nat)
    requires TokenEnd(x) <= k <= |Written(x)|
    ensures At(Written(x)[..k], x.token, |x.lead|)
  {
    var s := Written(x)[..k];
    assert s[|x.lead|..TokenEnd(x)] == Written(x)[|x.lead|..TokenEnd(x)] == x.token;
  }

  lemma NotElsewhere(x: Report, k: nat, token: string, i: nat)
    requires WellFormed(x) && k <= |Written(x)| && (token == CME || token == CMS)
    requires At(Written(x)[..k], token, i)
    ensures i == |x.lead| && token == x.token && TokenEnd(x) <= k
  {
    var s := Written(x)[..k];
    MatchAt(s, token, i, 0);
    MatchAt(s, token, i, 3);
    CharFacts(x, i);
    CharFacts(x, i + 3);
    hide Written, At;
    assert s[i] == '+' && s[i + 3] == token[3];
  }

  /** A token stands in a part of a report only where the report has it, and complete. */
  lemma TokenOnlyThere(x: Report, k: nat, token: string, i: nat)
    requires WellFormed(x) && k <= |Written(x)| && (token == CME || token == CMS)
    ensures At(Written(x)[..k], token, i) <==> i == |x.lead| && token == x.token && TokenEnd(x) <= k
  {
    hide Written, WellFormed, At;
    if At(Written(x)[..k], token, i) {
      NotElsewhere(x, k, token, i);
    }
    if i == |x.lead| && token == x.token && TokenEnd(x) <= k {
      TokenThere(x, k);
    }
  }

  // ---------------------------------------------------------------------------
  // The recogniser on a part of a report.

  function Code(x: Report): nat {
    Value(x.digits)
  }

  /** The first place a search for the token stops at. */
  lemma TokenFound(x: Report, k: nat)
    requires WellFormed(x) && TokenEnd(x) <= k <= |Written(x)|
    ensures FindAndSkipString(Written(x)[..k], 0, x.token) == Skip(true, TokenEnd(x))
  {
    var s := Written(x)[..k];
    var q := AfterSpaces(s, 0);
    CharFacts(x, |x.lead|);
    assert s[|x.lead|] == '+';
    assert q <= |x.lead|;
    TokenOnlyThere(x, k, x.token, |x.lead|);
    forall j: nat | q <= j < |x.lead| ensures !At(s, x.token, j) {
      TokenOnlyThere(x, k, x.token, j);
    }
    hide Written, At;
    FindIs(s, x.token, q, |x.lead|);
  }

  lemma TokenNotFound(x: Report, k: nat, token: string)
    requires WellFormed(x) && k <= |Written(x)| && (token == CME || token == CMS)
    requires token != x.token || k < TokenEnd(x)
    ensures !FindAndSkipString(Written(x)[..k], 0, token).found
  {
    forall i: nat ensures !At(Written(x)[..k], token, i) {
      TokenOnlyThere(x, k, token, i);
    }
  }

  /** The return behind the token is the one behind the digits. */
  lemma ReturnFound(x: Report, k: nat)
    requires WellFormed(x) && TokenEnd(x) <= k <= |Written(x)|
    ensures FindAndSkipString(Written(x)[..k], TokenEnd(x), "\r").found <==> DigitsDone(x) < k
  {
    var s := Written(x)[..k];
    var q := AfterSpaces(s, TokenEnd(x));
    if DigitsDone(x) < k {
      CharFacts(x, DigitsDone(x));
      assert s[DigitsDone(x)..DigitsDone(x) + 1] == "\r";
      assert At(s, "\r", DigitsDone(x));
    }
    forall i: nat | q <= i && At(s, "\r", i) ensures i == DigitsDone(x) {
      MatchAt(s, "\r", i, 0);
      CharFacts(x, i);
    }
  }

  lemma NoLineEndYet(x: Report, k: nat)
    requires WellFormed(x) && TokenEnd(x) <= k <= DigitsDone(x)
    ensures k <= |Written(x)| && !SkipString(Written(x)[..k], TokenEnd(x), CRLF).found
  {
    CharAt(x, 0);
    ReturnFound(x, k);
    if SkipString(Written(x)[..k], TokenEnd(x), CRLF).found {
      LineEndHasReturn(Written(x)[..k], TokenEnd(x));
    }
  }

  lemma DigitsThere(x: Report, k: nat)
    requires DigitsDone(x) <= k <= |Written(x)|
    ensures Written(x)[..k][GapEnd(x)..DigitsDone(x)] == x.digits
  {
    var d := Written(x)[..k][GapEnd(x)..DigitsDone(x)];
    forall i | 0 <= i < |d| ensures d[i] == x.digits[i] {
      CharAt(x, GapEnd(x) + i);
    }
    hide Written;
  }

  /** The number is read to the end of the digits. */
  lemma NumberRead(x: Report, k: nat)
    requires WellFormed(x) && DigitsDone(x) < k <= |Written(x)|
    ensures ExtractUInt32(Written(x)[..k], TokenEnd(x)) == Number(true, Code(x), DigitsDone(x))
  {
    var s := Written(x)[..k];
    forall i | TokenEnd(x) <= i < k
      ensures i < GapEnd(x) ==> s[i] == ' '
      ensures GapEnd(x) <= i < DigitsDone(x) <==> IsDigit(s[i])
      ensures i == DigitsDone(x) ==> s[i] == '\r'
    {
      CharFacts(x, i);
    }
    DigitsThere(x, k);
    hide Written, Value;
    SpacesEnd(s, TokenEnd(x), GapEnd(x));
    DigitsRun(s, GapEnd(x), DigitsDone(x));
    SpacesEnd(s, DigitsDone(x), DigitsDone(x));
    assert !At(s, " ", DigitsDone(x)) by {
      assert s[DigitsDone(x)..DigitsDone(x) + 1][0] == '\r';
    }
  }

  lemma {:induction false} SpacesEnd(s: string, p: nat, q: nat)
    requires p <= q < |s| && s[q] != ' ' && forall i :: p <= i < q ==> s[i] == ' '
    ensures AfterSpaces(s, p) == q
    decreases q - p
  {
    if p < q {
      SpacesEnd(s, p + 1, q);
    }
  }

  lemma {:induction false} DigitsRun(s: string, p: nat, q: nat)
    requires p <= q < |s| && !IsDigit(s[q]) && forall i :: p <= i < q ==> IsDigit(s[i])
    ensures DigitsEnd(s, p) == q
    decreases q - p
  {
    if p < q {
      DigitsRun(s, p + 1, q);
    }
  }

  lemma LineEndFound(x: Report, k: nat)
    requires WellFormed(x) && DigitsDone(x) < k <= |Written(x)|
    ensures SkipString(Written(x)[..k], DigitsDone(x), CRLF) ==
      if k == |Written(x)| then Skip(true, |Written(x)|) else Skip(false, DigitsDone(x))
  {
    var s, d := Written(x)[..k], DigitsDone(x);
    CharAt(x, d);
    SpacesEnd(s, d, d);
    if k == |Written(x)| {
      CharAt(x, d + 1);
      assert s[d..d + 2] == CRLF;
    }
  }

  /** With its code. */
  function Coded(x: Report, r: Rsp): Rsp {
    r.(result := CodeResult(Code(x)), error := Code(x), unsolicited := false)
  }

  /** IsExtendedError for the report's own token, on the first k characters. */
  function OnPart(x: Report, r: Rsp, k: nat): Checked {
    if k < TokenEnd(x) then Checked(r, false)
    else if k <= DigitsDone(x) then Checked(r.(marker := k, unrecognized := true), true)
    else if k == DigitsDone(x) + 1 then Checked(Coded(x, r), false)
    else Checked(Coded(x, r).(marker := k), true)
  }

  lemma OwnToken(x: Report, r: Rsp, k: nat)
    requires WellFormed(x) && k <= |Written(x)| && r.data == Written(x)[..k]
    ensures Extended(r, x.token) == OnPart(x, r, k)
  {
    NoOther(x, k);
    NoNul(r.data);
    CharAt(x, 0);
    hide Written, FindAndSkipString, SkipString, ExtractUInt32, CodeResult, WellFormed, TextOf, Code;
    if k < TokenEnd(x) {
      TokenNotFound(x, k, x.token);
    } else {
      TokenFound(x, k);
      ReturnFound(x, k);
      if k <= DigitsDone(x) {
        NoLineEndYet(x, k);
      } else {
        NumberRead(x, k);
        LineEndFound(x, k);
      }
    }
  }

  lemma OtherToken(x: Report, r: Rsp, k: nat, token: string)
    requires WellFormed(x) && k <= |Written(x)| && r.data == Written(x)[..k]
    requires (token == CME || token == CMS) && token != x.token
    ensures Extended(r, token) == Checked(r, false)
  {
    NoOther(x, k);
    NoNul(r.data);
    TokenNotFound(x, k, token);
    hide Written, FindAndSkipString, SkipString, ExtractUInt32, WellFormed, TextOf;
  }

  lemma NothingWorded(x: Report, r: Rsp, k: nat)
    requires WellFormed(x) && k <= |Written(x)| && r.data == Written(x)[..k]
    ensures !Worded(r).done && Worded(r).rsp == r
  {
    NoOther(x, k);
    NoNul(r.data);
    WordedIff(r);
    WordedEnd(r);
  }

  /** IsCompleteResponse on the first k characters, when no silo takes them. */
  lemma JudgePart(x: Report, r: Rsp, k: nat, w: World)
    requires WellFormed(x) && 0 < k <= |Written(x)| && r.data == Written(x)[..k]
    requires !w.unsolicited && !r.corrupt
    ensures Judge(r, w) == OnPart(x, r.(unsolicited := false), k)
  {
    var r0 := r.(unsolicited := false);
    var c := OnPart(x, r0, k);
    OwnToken(x, r0, k);
    if x.token == CME {
      OtherToken(x, c.rsp, k, CMS);
    } else {
      OtherToken(x, r0, k, CME);
    }
    NothingWorded(x, c.rsp, k);
    assert r.data != "" && c.rsp.data == r.data && !c.rsp.corrupt;
    hide Extended, Worded, WellFormed, Written, OnPart;
  }

  /** A part of a report is taken for complete exactly if the cut is not harmless. */
  lemma CutVerdict(x: Report, k: nat, w: World)
    requires WellFormed(x) && 0 < k <= |Written(x)| && !w.unsolicited
    ensures Judge(EMPTY.(data := Written(x)[..k]), w).done <==> !Harmless(x, k)
  {
    JudgePart(x, EMPTY.(data := Written(x)[..k]), k, w);
    CharAt(x, 0);
  }

  // ---------------------------------------------------------------------------
  // Any number of cuts.

  /** The one response a report should become. */
  function Whole(x: Report): Rsp {
    Rsp(Written(x), |Written(x)|, false, false, false, CodeResult(Code(x)), Code(x))
  }

  /** A buffer that holds k characters of a report and nothing from before. */
  predicate Holds(x: Report, r: Rsp, k: nat) {
    k <= |Written(x)| && r.data == Written(x)[..k] && r.marker == 0 && !r.unrecognized && !r.corrupt
  }

  predicate NoSilo(world: nat -> World, n: nat) {
    !world(n).unsolicited
  }

  ghost predicate NoSilos(world: nat -> World) {
    forall n :: NoSilo(world, n)
  }

  /** An empty buffer ends the loop. */
  lemma DrainEmpty(c: Channel, world: nat -> World)
    requires c.rsp == EMPTY
    ensures Drain(c, world).chan.emitted == c.emitted && Drain(c, world).chan.rsp == EMPTY
  {
  }

  /** The response that the first k characters become when the check takes them. */
  function Piece(x: Report, r: Rsp, k: nat): Rsp {
    OnPart(x, r.(unsolicited := false), k).rsp
  }

  lemma PieceIs(x: Report, r: Rsp, k: nat)
    requires WellFormed(x) && 0 < k && Holds(x, r, k)
    ensures var j := OnPart(x, r.(unsolicited := false), k);
      && j.rsp.data == Written(x)[..k] && j.rsp.data[..k] == j.rsp.data && j.rsp.data[k..] == ""
      && (j.done <==> !Harmless(x, k))
      && (j.done ==> j.rsp.marker == k)
      && (!j.done ==> Holds(x, j.rsp, k))
      && (k == |Written(x)| ==> j.done && j.rsp == Whole(x))
  {
    CharAt(x, 0);
    hide CodeResult, Code, WellFormed;
    assert Written(x)[..|Written(x)|] == Written(x);
  }

  /** One round of the loop on the first k characters. */
  lemma RoundPart(x: Report, c: Channel, k: nat, w: World)
    requires WellFormed(x) && 0 < k && Holds(x, c.rsp, k) && !w.unsolicited
    ensures var c1 := c.(rsp := Piece(x, c.rsp, k), checks := c.checks + 1);
      Round(c, w) ==
        if Harmless(x, k) then (c1, false, true)
        else (c1.(emitted := c.emitted + [c1.rsp], rsp := EMPTY), w.processed, w.processed)
  {
    var j := OnPart(x, c.rsp.(unsolicited := false), k);
    var c1 := c.(rsp := j.rsp, checks := c.checks + 1);
    JudgePart(x, c.rsp, k, w);
    RoundIs(c, w, c1, j.done);
    PieceIs(x, c.rsp, k);
    hide Judge, Round, WellFormed, Written, OnPart, Harmless;
  }

  /** The loop on the first k characters. */
  lemma DrainPart(x: Report, c: Channel, k: nat, world: nat -> World)
    requires WellFormed(x) && 0 < k && Holds(x, c.rsp, k) && NoSilos(world)
    ensures var c' := Drain(c, world).chan;
      if k == |Written(x)| then c'.emitted == c.emitted + [Whole(x)] && c'.rsp == EMPTY
      else if Harmless(x, k) then c'.emitted == c.emitted && Holds(x, c'.rsp, k)
      else |c'.emitted| == |c.emitted| + 1 && c.emitted <= c'.emitted && c'.emitted[|c.emitted|].data == Written(x)[..k]
  {
    var w := world(c.checks);
    assert NoSilo(world, c.checks);
    RoundPart(x, c, k, w);
    PieceIs(x, c.rsp, k);
    hide Round, WellFormed, Written, OnPart, Whole;
    var (c1, more, ok) := Round(c, w);
    if more {
      DrainEmpty(c1, world);
    }
  }

  lemma ReceivePart(x: Report, c: Channel, j: nat, k: nat, world: nat -> World)
    requires WellFormed(x) && j < k <= |Written(x)| && Holds(x, c.rsp, j) && NoSilos(world)
    ensures var c' := Receive(c, Written(x)[j..k], false, world).chan;
      if k == |Written(x)| then c'.emitted == c.emitted + [Whole(x)] && c'.rsp == EMPTY
      else if Harmless(x, k) then c'.emitted == c.emitted && Holds(x, c'.rsp, k)
      else |c'.emitted| == |c.emitted| + 1 && c.emitted <= c'.emitted && c'.emitted[|c.emitted|].data == Written(x)[..k]
  {
    assert Written(x)[..j] + Written(x)[j..k] == Written(x)[..k];
    DrainPart(x, c.(rsp := c.rsp.(data := Written(x)[..k])), k, world);
    hide Drain, Written, WellFormed, NoSilos;
  }

  /** The parts of a report that is cut at the places given, in order. */
  function Reads(x: Report, from: nat, cuts: seq<nat>): seq<Arrival>
    requires Ordered(x, from, cuts)
    decreases |cuts|
  {
    if cuts == [] then [Arrival(Written(x)[from..], false)]
    else [Arrival(Written(x)[from..cuts[0]], false)] + Reads(x, cuts[0], cuts[1..])
  }

  predicate Ordered(x: Report, from: nat, cuts: seq<nat>)
    decreases |cuts|
  {
    if cuts == [] then from < |Written(x)|
    else from < cuts[0] < |Written(x)| && Ordered(x, cuts[0], cuts[1..])
  }

  lemma {:induction false} RunAppends(c: Channel, arrivals: seq<Arrival>, world: nat -> World)
    requires Idle(c)
    ensures c.emitted <= Run(c, arrivals, world).emitted
    decreases |arrivals|
  {
    if arrivals != [] {
      var a := arrivals[0];
      if a.bytes != "" {
        var r := c.rsp.(data := c.rsp.data + a.bytes, corrupt := c.rsp.corrupt || a.timedOut);
        DrainConserves(c.(rsp := r), world);
        hide Drain, Bytes;
        RunAppends(Receive(c, a.bytes, a.timedOut, world).chan, arrivals[1..], world);
      } else {
        RunAppends(c, arrivals[1..], world);
      }
    }
  }

  /** The first part is received, then the others. */
  lemma FirstRead(x: Report, c: Channel, from: nat, cuts: seq<nat>, world: nat -> World)
    requires Ordered(x, from, cuts) && Idle(c)
    ensures var k := if cuts == [] then |Written(x)| else cuts[0];
      var c1 := Receive(c, Written(x)[from..k], false, world).chan;
      && from < k <= |Written(x)|
      && Run(c, Reads(x, from, cuts), world) ==
         if cuts == [] then c1 else Run(c1, Reads(x, k, cuts[1..]), world)
  {
    hide Receive, Written;
    var parts := Reads(x, from, cuts);
    assert Written(x)[from..] == Written(x)[from..|Written(x)|];
    if cuts == [] {
      assert parts[1..] == [];
    } else {
      assert parts[1..] == Reads(x, cuts[0], cuts[1..]);
    }
  }

  /** Once a smaller piece has left, the whole report cannot be what leaves. */
  lemma PieceIsNotWhole(x: Report, before: seq<Rsp>, after: seq<Rsp>, k: nat)
    requires k < |Written(x)| && |before| < |after| && after[|before|].data == Written(x)[..k]
    ensures after != before + [Whole(x)]
  {
    assert (before + [Whole(x)])[|before|].data == Written(x);
    assert |Written(x)[..k]| == k;
  }

  /** However a report is cut into parts, it becomes the one response that it becomes uncut
      exactly if every cut is harmless: before the end of the token, or between return and line
      feed. */
  lemma {:induction false} CutTheorem(x: Report, c: Channel, from: nat, cuts: seq<nat>, world: nat -> World)
    requires WellFormed(x) && NoSilos(world) && Ordered(x, from, cuts) && Holds(x, c.rsp, from)
    ensures Run(c, Reads(x, from, cuts), world).emitted == c.emitted + [Whole(x)] <==>
      forall i :: 0 <= i < |cuts| ==> Harmless(x, cuts[i])
    decreases |cuts|
  {
    FirstRead(x, c, from, cuts, world);
    hide Receive, Written, WellFormed, Reads, Run, Whole;
    var k := if cuts == [] then |Written(x)| else cuts[0];
    var c1 := Receive(c, Written(x)[from..k], false, world).chan;
    ReceivePart(x, c, from, k, world);
    if cuts != [] {
      var rest := cuts[1..];
      if Harmless(x, k) {
        CutTheorem(x, c1, k, rest, world);
        assert forall i :: 0 < i < |cuts| ==> cuts[i] == rest[i - 1];
      } else {
        RunAppends(c1, Reads(x, k, rest), world);
        var e := Run(c1, Reads(x, k, rest), world).emitted;
        assert e[|c.emitted|] == c1.emitted[|c.emitted|];
        PieceIsNotWhole(x, c.emitted, e, k);
      }
    }
  }

  /** Uncut, a report becomes one response with its code; cut anywhere else than the theorem
      allows it leaves in pieces. The smallest example: the last digit of the code comes late. */
  lemma SplitMatters(c: Channel, world: nat -> World)
    requires c.rsp == EMPTY && NoSilos(world)
    ensures Run(c, [Arrival("+CME ERROR: 10\r\n", false)], world).emitted !=
            Run(c, [Arrival("+CME ERROR: 1", false), Arrival("0\r\n", false)], world).emitted
  {
    var x := Report("", CME, " ", "10");
    assert Written(x) == "+CME ERROR: 10\r\n";
    assert Written(x)[0..] == "+CME ERROR: 10\r\n";
    assert Written(x)[0..13] == "+CME ERROR: 1" && Written(x)[13..] == "0\r\n";
    assert Ordered(x, 13, []) && Ordered(x, 0, [13]);
    assert Reads(x, 0, []) == [Arrival("+CME ERROR: 10\r\n", false)];
    assert Reads(x, 13, []) == [Arrival("0\r\n", false)];
    assert [13][1..] == [];
    CutTheorem(x, c, 0, [], world);
    CutTheorem(x, c, 0, [13], world);
    assert !Harmless(x, [13][0]);
  }
}
