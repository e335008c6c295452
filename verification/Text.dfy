// The string helpers of extract.cpp: positions in a text instead of pointers.
module Text {
  import opened Options

  /** pat stands at position i of s. */
  predicate At(s: string, pat: string, i: nat) {
    i + |pat| <= |s| && s[i..i + |pat|] == pat
  }

  ghost predicate Contains(s: string, pat: string) {
    exists i: nat :: At(s, pat, i)
  }

  /** strstr: the first occurrence at or after a position. */
  function Find(s: string, pat: string, from: nat): (i: Option<nat>)
    requires from <= |s|
    ensures i.Some? ==> from <= i.value && At(s, pat, i.value)
    ensures i.Some? ==> forall j :: from <= j < i.value ==> !At(s, pat, j)
    ensures i.None? ==> forall j :: from <= j ==> !At(s, pat, j)
    decreases |s| - from
  {
    if At(s, pat, from) then Some(from)
    else if from == |s| then None
    else Find(s, pat, from + 1)
  }

  lemma FindIs(s: string, pat: string, from: nat, i: nat)
    requires from <= i && At(s, pat, i)
    requires forall j :: from <= j < i ==> !At(s, pat, j)
    ensures Find(s, pat, from) == Some(i)
  {
  }

  /** SkipSpaces. */
  function AfterSpaces(s: string, p: nat): (q: nat)
    requires p <= |s|
    ensures p <= q <= |s| && (q < |s| ==> s[q] != ' ')
    ensures forall i :: p <= i < q ==> s[i] == ' '
    decreases |s| - p
  {
    if p < |s| && s[p] == ' ' then AfterSpaces(s, p + 1) else p
  }

  /** What the Skip functions return: success and the pointer they leave. */
  datatype Skip = Skip(found: bool, at: nat)

  function FindAndSkipString(s: string, p: nat, pat: string): (r: Skip)
    requires p <= |s|
    ensures p <= r.at <= |s| && (r.found ==> p + |pat| <= r.at && At(s, pat, r.at - |pat|))
  {
    var q := AfterSpaces(s, p);
    match Find(s, pat, q)
    case Some(i) => Skip(true, i + |pat|)
    case None => Skip(false, q)
  }

  function SkipString(s: string, p: nat, pat: string): (r: Skip)
    requires p <= |s|
    ensures p <= r.at <= |s| && (r.found ==> p + |pat| <= r.at && At(s, pat, r.at - |pat|))
  {
    var q := AfterSpaces(s, p);
    if At(s, pat, q) then Skip(true, q + |pat|) else Skip(false, q)
  }

  /** Skipping spaces first loses no occurrence of a pattern that does not start with one. */
  lemma FoundIffContained(s: string, pat: string)
    requires pat != [] && pat[0] != ' '
    ensures FindAndSkipString(s, 0, pat).found <==> Contains(s, pat)
  {
    var q := AfterSpaces(s, 0);
    if i: nat :| At(s, pat, i) {
      assert s[i] == pat[0];
      assert q <= i;
    }
  }

  lemma Absent(s: string, pat: string, j: nat)
    requires j < |pat| && pat[j] !in s
    ensures !Contains(s, pat)
  {
    if i: nat :| At(s, pat, i) {
      MatchAt(s, pat, i, j);
    }
  }

  lemma MatchAt(s: string, pat: string, i: nat, j: nat)
    requires At(s, pat, i) && j < |pat|
    ensures i + j < |s| && s[i + j] == pat[j]
  {
    assert s[i + j] == s[i..i + |pat|][j];
  }

  // ---------------------------------------------------------------------------
  // Numbers.

  predicate IsDigit(c: char) {
    '0' <= c <= '9'
  }

  function DigitsEnd(s: string, p: nat): (q: nat)
    requires p <= |s|
    ensures p <= q <= |s| && (q < |s| ==> !IsDigit(s[q]))
    ensures forall i :: p <= i < q ==> IsDigit(s[i])
    decreases |s| - p
  {
    if p < |s| && IsDigit(s[p]) then DigitsEnd(s, p + 1) else p
  }

  const WORD := 0x1_0000_0000

  /** The value of digits in 32-bit arithmetic. */
  function Value(digits: string): (v: nat)
    ensures v < WORD
  {
    if digits == [] then 0
    else
      var last: int := digits[|digits| - 1] as int - '0' as int;
      ((Value(digits[..|digits| - 1]) * 10) % WORD + last) % WORD
  }

  datatype Number = Number(found: bool, value: nat, at: nat)

  function ExtractUInt32(s: string, p: nat): (r: Number)
    requires p <= |s|
    ensures p <= r.at <= |s| && r.value < WORD
    ensures r.found <==> AfterSpaces(s, p) < |s| && IsDigit(s[AfterSpaces(s, p)])
  {
    var start := AfterSpaces(s, p);
    var end := DigitsEnd(s, start);
    if end > start then Number(true, Value(s[start..end]), SkipString(s, end, " ").at)
    else Number(false, 0, start)
  }

  lemma ValueStep(s: string, start: nat, walk: nat)
    requires start <= walk < |s| && IsDigit(s[walk])
    ensures Value(s[start..walk + 1]) ==
      ((Value(s[start..walk]) * 10) % WORD + (s[walk] as int - '0' as int)) % WORD
  {
    var digits := s[start..walk + 1];
    assert digits[..|digits| - 1] == s[start..walk];
  }

  lemma NoDigits()
    ensures Value("") == 0
  {
  }

  /** The digits read one by one, as the loop does. */
  method ReadDigits(s: string, start: nat) returns (found: bool, value: nat, walk: nat)
    requires start <= |s|
    ensures walk == DigitsEnd(s, start) && value == Value(s[start..walk]) && (found <==> walk > start)
  {
    hide Value;
    NoDigits();
    assert s[start..start] == "";
    found, value, walk := false, 0, start;
    while walk < |s| && '0' <= s[walk] <= '9'
      invariant start <= walk <= |s| && value == Value(s[start..walk]) && (found <==> walk > start)
      invariant DigitsEnd(s, start) == DigitsEnd(s, walk)
    {
      value := (value * 10) % WORD;
      var digit: int := s[walk] as int - '0' as int;
      value := (value + digit) % WORD;
      found := true;
      ValueStep(s, start, walk);
      walk := walk + 1;
    }
  }

  /** Below 2^32 the value is the number the digits write. */
  function Decimal(digits: string): nat
    requires forall i :: 0 <= i < |digits| ==> IsDigit(digits[i])
  {
    if digits == [] then 0
    else
      assert IsDigit(digits[|digits| - 1]);
      var last: int := digits[|digits| - 1] as int - '0' as int;
      Decimal(digits[..|digits| - 1]) * 10 + last
  }

  lemma {:induction false} ValueIsDecimal(digits: string)
    requires forall i :: 0 <= i < |digits| ==> IsDigit(digits[i])
    ensures Value(digits) == Decimal(digits) % WORD
  {
    if digits != [] {
      var front := digits[..|digits| - 1];
      ValueIsDecimal(front);
      ModStep(Decimal(front), digits[|digits| - 1] as int - '0' as int);
    }
  }

  lemma ModStep(a: nat, d: nat)
    ensures ((a % WORD * 10) % WORD + d) % WORD == (a * 10 + d) % WORD
  {
    var q, r := a / WORD, a % WORD;
    assert a == q * WORD + r;
    var q', r' := (r * 10) / WORD, (r * 10) % WORD;
    assert r * 10 == q' * WORD + r';
    assert a * 10 + d == (q * 10 + q') * WORD + (r' + d);
    ModOfMultiple(q * 10 + q', r' + d);
  }

  lemma {:induction false} ModOfMultiple(k: nat, x: nat)
    ensures (k * WORD + x) % WORD == x % WORD
    decreases k
  {
    if k > 0 {
      ModOfMultiple(k - 1, x);
      assert k * WORD + x == ((k - 1) * WORD + x) + WORD;
    }
  }
}
